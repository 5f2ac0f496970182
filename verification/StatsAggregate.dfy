/** One aggregation run: a single pass over the logs that updates all counter tables. */
module StatsAggregate {
  import opened Text
  import opened Stats

  // ---------------------------------------------------------------------------
  // Counters and tables of counters

  class Counter {
    var upload: nat
    var download: nat
    var requests: nat
    var gets: nat
    var puts: nat
    var deletes: nat
    var errors: nat
    var active: set<int>

    constructor ()
      ensures Value() == ZERO
    {
      upload, download, requests, gets, puts, deletes, errors, active := 0, 0, 0, 0, 0, 0, 0, {};
    }

    function Value(): Counts
      reads this
    {
      Counts(upload, download, requests, gets, puts, deletes, errors, active)
    }

    method Add(l: Log, ghost logs: seq<Log>)
      requires Value() == Total(logs)
      modifies this
      ensures Value() == Total(logs + [l])
    {
      hide Total, IsGet, IsPut, IsDelete;
      TotalSnoc(logs, l);
      ActionsDisjoint(l);
      requests := requests + 1;
      if l.status != "success" {
        errors := errors + 1;
      }
      if IsGet(l) {
        gets := gets + 1;
        download := download + l.size;
      } else if IsPut(l) {
        puts := puts + 1;
        upload := upload + l.size;
      } else if IsDelete(l) {
        deletes := deletes + 1;
      }
      if l.user.Some? {
        active := active + {l.user.value};
      }
    }
  }

  class UserCounter {
    const username: Option<string>
    var uploads: nat
    var downloads: nat
    var deletes: nat
    var accesses: nat
    var uploadBytes: nat
    var downloadBytes: nat

    constructor (name: Option<string>)
      ensures Value() == UserTotal(name, [])
    {
      username, uploads, downloads, deletes, accesses, uploadBytes, downloadBytes := name, 0, 0, 0, 0, 0, 0;
    }

    function Value(): UserCounts
      reads this
    {
      UserCounts(username, uploads, downloads, deletes, accesses, uploadBytes, downloadBytes)
    }

    method Add(l: Log, key: string, ghost name: Option<string>, ghost logs: seq<Log>)
      requires Value() == UserTotal(name, logs)
      requires key == if l.key.Some? then l.key.value else ""
      modifies this
      ensures Value() == UserTotal(name, logs + [l])
    {
      hide UserTotal, IsGet, IsPut, IsDelete;
      UserTotalSnoc(name, logs, l);
      ActionsDisjoint(l);
      if IsPut(l) {
        uploads := uploads + 1;
        uploadBytes := uploadBytes + l.size;
      } else if IsGet(l) {
        downloads := downloads + 1;
        downloadBytes := downloadBytes + l.size;
      } else if IsDelete(l) {
        deletes := deletes + 1;
      }
      if key != "" && (IsPut(l) || IsGet(l)) {
        accesses := accesses + 1;
      }
    }
  }

  lemma ActionsDisjoint(l: Log)
    ensures !(IsGet(l) && IsPut(l)) && !(IsGet(l) && IsDelete(l)) && !(IsPut(l) && IsDelete(l))
  {
  }

  lemma MeasureSnoc(logs: seq<Log>, l: Log, g: Log -> nat)
    ensures Measure(logs + [l], g) == Measure(logs, g) + g(l)
  {
    assert (logs + [l])[..|logs|] == logs;
  }

  lemma TotalSnoc(logs: seq<Log>, l: Log)
    ensures var t, t' := Total(logs), Total(logs + [l]);
            && t'.upload == t.upload + UploadBytes(l) && t'.download == t.download + DownloadBytes(l)
            && t'.requests == t.requests + 1 && t'.gets == t.gets + Get(l) && t'.puts == t.puts + Put(l)
            && t'.deletes == t.deletes + Delete(l) && t'.errors == t.errors + Failed(l)
            && t'.active == t.active + if l.user.Some? then {l.user.value} else {}
  {
    MeasureSnoc(logs, l, UploadBytes);
    MeasureSnoc(logs, l, DownloadBytes);
    MeasureSnoc(logs, l, One);
    MeasureSnoc(logs, l, Get);
    MeasureSnoc(logs, l, Put);
    MeasureSnoc(logs, l, Delete);
    MeasureSnoc(logs, l, Failed);
  }

  lemma UserTotalSnoc(name: Option<string>, logs: seq<Log>, l: Log)
    ensures var t, t' := UserTotal(name, logs), UserTotal(name, logs + [l]);
            && t.username == t'.username == name && t'.uploads == t.uploads + Put(l)
            && t'.downloads == t.downloads + Get(l)
            && t'.deletes == t.deletes + Delete(l) && t'.accesses == t.accesses + Access(l)
            && t'.uploadBytes == t.uploadBytes + UploadBytes(l)
            && t'.downloadBytes == t.downloadBytes + DownloadBytes(l)
  {
    MeasureSnoc(logs, l, Put);
    MeasureSnoc(logs, l, Get);
    MeasureSnoc(logs, l, Delete);
    MeasureSnoc(logs, l, Access);
    MeasureSnoc(logs, l, UploadBytes);
    MeasureSnoc(logs, l, DownloadBytes);
  }

  /** A map from keys to counters of its own. */
  class CounterTable<K(==,!new)> {
    var cells: map<K, Counter>
    ghost var Repr: set<object>

    constructor ()
      ensures Valid() && Repr == {this} && cells == map[]
    {
      cells := map[];
      Repr := {this};
    }

    ghost predicate Valid()
      reads this, Repr
    {
      && this in Repr
      && (forall k :: k in cells ==> cells[k] in Repr)
      && (forall j, k :: j in cells && k in cells && j != k ==> cells[j] != cells[k])
    }

    function Contents(): map<K, Counts>
      requires Valid()
      reads this, Repr
    {
      map k | k in cells :: cells[k].Value()
    }

    /** Adds a log to the counter of `k`, creating it first when there is none. */
    method Add(k: K, l: Log, ghost logs: seq<Log>)
      requires Valid() && (if k in Contents() then Contents()[k] else ZERO) == Total(logs)
      modifies Repr
      ensures Valid() && this in Repr && fresh(Repr - old(Repr))
      ensures Contents() == old(Contents())[k := Total(logs + [l])]
    {
      hide Total;
      Create(k);
      assert k in Contents();
      cells[k].Add(l, logs);
    }

    method Create(k: K)
      requires Valid()
      modifies this
      ensures Valid() && this in Repr && fresh(Repr - old(Repr))
      ensures k in cells
      ensures Contents() == if k in old(Contents()) then old(Contents()) else old(Contents())[k := ZERO]
    {
      if k !in cells {
        var c := new Counter();
        cells := cells[k := c];
        Repr := Repr + {c};
      }
    }
  }

  class UserTable {
    var cells: map<UserKey, UserCounter>
    ghost var Repr: set<object>

    constructor ()
      ensures Valid() && Repr == {this} && cells == map[]
    {
      cells := map[];
      Repr := {this};
    }

    ghost predicate Valid()
      reads this, Repr
    {
      && this in Repr
      && (forall k :: k in cells ==> cells[k] in Repr)
      && (forall j, k :: j in cells && k in cells && j != k ==> cells[j] != cells[k])
    }

    function Contents(): map<UserKey, UserCounts>
      requires Valid()
      reads this, Repr
    {
      map k | k in cells :: cells[k].Value()
    }

    method Add(k: UserKey, name: Option<string>, l: Log, key: string, ghost logs: seq<Log>)
      requires Valid() && (k in Contents() <==> logs != [])
      requires k in Contents() ==> Contents()[k] == UserTotal(name, logs)
      requires key == if l.key.Some? then l.key.value else ""
      modifies Repr
      ensures Valid() && this in Repr && fresh(Repr - old(Repr))
      ensures Contents() == old(Contents())[k := UserTotal(name, logs + [l])]
    {
      hide UserTotal;
      Create(k, name);
      assert k in Contents() && Contents()[k] == UserTotal(name, logs);
      cells[k].Add(l, key, name, logs);
    }

    method Create(k: UserKey, name: Option<string>)
      requires Valid()
      modifies this
      ensures Valid() && this in Repr && fresh(Repr - old(Repr))
      ensures k in cells
      ensures Contents() == if k in old(Contents()) then old(Contents()) else old(Contents())[k := UserTotal(name, [])]
    {
      if k !in cells {
        var c := new UserCounter(name);
        cells := cells[k := c];
        Repr := Repr + {c};
      }
    }
  }

  /** How often each first-level prefix was used, and the account each bucket belongs to. */
  class PrefixTable {
    var counts: map<PrefixKey, nat>
    var owners: map<int, Option<int>>

    constructor ()
      ensures counts == map[] && owners == map[]
    {
      counts, owners := map[], map[];
    }

    /** One keyed access: its prefix, and the account of its bucket. */
    method Access(k: PrefixKey, account: Option<int>)
      modifies this
      ensures counts == old(counts)[k := if k in old(counts) then old(counts)[k] + 1 else 1]
      ensures OwnerAdded(old(owners), owners, k.bucket, account)
    {
      counts := counts[k := if k in counts then counts[k] + 1 else 1];
      SetBucketAccount(k.bucket, account);
    }

    /** One account stays, a second different one turns the owner to null. */
    method SetBucketAccount(b: int, account: Option<int>)
      modifies this`owners
      ensures OwnerAdded(old(owners), owners, b, account)
    {
      if account.None? { return; }
      var a := account.value;
      if b !in owners {
        owners := owners[b := Some(a)];
      } else if owners[b].Some? && owners[b].value != a {
        owners := owners[b := None];
      }
      forall known: set<int> | Attributed(old(owners), b, known) ensures Attributed(owners, b, known + {a}) {
        assert a in known + {a};
        if b in old(owners) {
          if old(owners)[b].Some? {
            assert old(owners)[b].value in known + {a};
          } else {
            var x, y :| x in known && y in known && x != y;
            assert x in known + {a} && y in known + {a};
          }
        }
      }
    }
  }

  // ---------------------------------------------------------------------------
  // All tables of one run

  class Aggregation {
    const platform: CounterTable<Period>
    const accounts: CounterTable<AccountKey>
    const buckets: CounterTable<BucketKey>
    const users: UserTable
    const daily: CounterTable<int>
    const prefixes: PrefixTable

    constructor ()
      ensures Blank() && fresh({platform, accounts, buckets, users, daily, prefixes})
    {
      platform := new CounterTable();
      accounts := new CounterTable();
      buckets := new CounterTable();
      users := new UserTable();
      daily := new CounterTable();
      prefixes := new PrefixTable();
    }

    /** Six different objects, all as constructed. */
    ghost predicate Blank()
      reads platform, accounts, buckets, users, daily, prefixes
    {
      var objects: seq<object> := [platform, accounts, buckets, users, daily, prefixes];
      && (forall i, j :: 0 <= i < j < 6 ==> objects[i] != objects[j])
      && platform.Repr == {platform} && accounts.Repr == {accounts} && buckets.Repr == {buckets}
      && users.Repr == {users} && daily.Repr == {daily}
      && platform.cells == map[] && accounts.cells == map[] && buckets.cells == map[] && users.cells == map[]
      && daily.cells == map[] && prefixes.counts == map[] && prefixes.owners == map[]
    }

    lemma BlankIsValid()
      requires Blank()
      ensures Valid() && Empty() && platform.Contents() == map[]
      ensures Counters() == {platform, accounts, buckets, users, daily, prefixes}
    {
    }

    method StartPeriods()
      requires Valid() && Empty() && platform.Contents() == map[]
      modifies platform.Repr
      ensures Valid() && fresh(Counters() - old(Counters()))
      ensures Empty() && platform.Contents() == map[H24 := ZERO, D7 := ZERO, D30 := ZERO]
    {
      hide CounterTable.Valid, CounterTable.Contents, UserTable.Valid, UserTable.Contents;
      platform.Create(H24);
      platform.Create(D7);
      platform.Create(D30);
    }

    /** No table but the platform one has a row. */
    ghost predicate Empty()
      requires Valid()
      reads platform, accounts, buckets, users, daily, Counters()
    {
      && accounts.Contents() == map[] && buckets.Contents() == map[] && users.Contents() == map[]
      && daily.Contents() == map[] && prefixes.counts == map[] && prefixes.owners == map[]
    }

    ghost function Counters(): set<object>
      reads platform, accounts, buckets, users, daily
    {
      platform.Repr + accounts.Repr + buckets.Repr + users.Repr + daily.Repr + {prefixes}
    }

    ghost predicate Valid()
      reads platform, accounts, buckets, users, daily, Counters()
    {
      && platform.Valid() && accounts.Valid() && buckets.Valid() && users.Valid() && daily.Valid()
      && platform in platform.Repr && accounts in accounts.Repr && buckets in buckets.Repr
      && users in users.Repr && daily in daily.Repr
      && platform.Repr !! accounts.Repr !! buckets.Repr !! users.Repr !! daily.Repr !! {prefixes}
    }

    function Result(): Tables
      requires Valid()
      reads platform, accounts, buckets, users, daily, Counters()
    {
      Tables(Windows(platform.Contents(), accounts.Contents(), buckets.Contents(), users.Contents(), prefixes.counts),
             daily.Contents(), prefixes.owners)
    }

    lemma EmptyResult()
      requires Valid() && Empty() && platform.Contents() == map[H24 := ZERO, D7 := ZERO, D30 := ZERO]
      ensures Result() == Tables(Windows(map[H24 := ZERO, D7 := ZERO, D30 := ZERO], map[], map[], map[], map[]), map[],
                                 map[])
    {
    }

    method CountPlatform(now: int, p: Period, l: Log, ghost logs: seq<Log>)
      requires Valid() && PlatformOK(now, logs, p, Result().windows.platform)
      modifies platform.Repr
      ensures Valid() && fresh(platform.Repr - old(platform.Repr))
      ensures Result() == old(Result()).(windows := old(Result()).windows.(
                platform := PlatformAfter(now, logs, l, p, old(Result()).windows.platform)))
    {
      hide CounterTable.Valid, CounterTable.Contents, UserTable.Valid, UserTable.Contents, Total, Filter;
      platform.Add(p, l, Filter(Within(now, p), logs));
    }

    method CountAccount(now: int, p: Period, l: Log, ghost logs: seq<Log>)
      requires Valid() && AccountsOK(now, logs, p, Result().windows.accounts)
      modifies accounts.Repr
      ensures Valid() && fresh(accounts.Repr - old(accounts.Repr))
      ensures Result() == old(Result()).(windows := old(Result()).windows.(
                accounts := AccountsAfter(now, logs, l, p, old(Result()).windows.accounts)))
    {
      hide CounterTable.Valid, CounterTable.Contents, UserTable.Valid, UserTable.Contents, Total, Filter;
      if l.account.Some? {
        var k := AccountKey(l.account.value, p);
        assert AccountOK(now, logs, Result().windows.accounts, k);
        TallyLookup(accounts.Contents(), k, Filter(ForAccount(now, k), logs));
        accounts.Add(k, l, Filter(ForAccount(now, k), logs));
      }
    }

    method CountBucket(now: int, all: Names, p: Period, l: Log, bid: Option<int>, ghost logs: seq<Log>)
      requires Valid() && BucketsOK(now, all, logs, p, Result().windows.buckets)
      modifies buckets.Repr
      ensures Valid() && fresh(buckets.Repr - old(buckets.Repr))
      ensures Result() == old(Result()).(windows := old(Result()).windows.(
                buckets := BucketsAfter(now, all, logs, l, bid, p, old(Result()).windows.buckets)))
    {
      hide CounterTable.Valid, CounterTable.Contents, UserTable.Valid, UserTable.Contents, Total, Filter;
      if bid.Some? {
        var k := BucketKey(bid.value, p);
        assert BucketOK(now, all, logs, Result().windows.buckets, k);
        TallyLookup(buckets.Contents(), k, Filter(ForBucket(now, all, k), logs));
        buckets.Add(k, l, Filter(ForBucket(now, all, k), logs));
      }
    }

    method CountUser(now: int, names: Names, p: Period, l: Log, ghost logs: seq<Log>)
      requires Valid() && UsersOK(now, names, logs, p, Result().windows.users)
      modifies users.Repr
      ensures Valid() && fresh(users.Repr - old(users.Repr))
      ensures Result() == old(Result()).(windows := old(Result()).windows.(
                users := UsersAfter(now, names, logs, l, p, old(Result()).windows.users)))
    {
      hide CounterTable.Valid, CounterTable.Contents, UserTable.Valid, UserTable.Contents, Total, UserTotal, Filter;
      if l.account.Some? && l.user.Some? {
        var k := UserKey(l.user.value, l.account.value, p);
        var key := if l.key.Some? then l.key.value else "";
        assert UserOK(now, names, logs, Result().windows.users, k);
        users.Add(k, NameOf(names, l.user.value), l, key, Filter(ForUser(now, k), logs));
      }
    }

    method CountDay(now: int, l: Log, ghost logs: seq<Log>)
      requires Valid() && DailyOK(now, logs, Result().daily)
      modifies daily.Repr
      ensures Valid() && fresh(Counters() - old(Counters()))
      ensures Result() == old(Result()).(daily := Result().daily) && DailyOK(now, logs + [l], Result().daily)
    {
      hide CounterTable.Valid, CounterTable.Contents, UserTable.Valid, UserTable.Contents, Total, Filter;
      var day := Day(l.at);
      ghost var before := Result().daily;
      assert DayOK(now, logs, before, day);
      TallyLookup(before, day, Filter(OnDay(now, day), logs));
      if day >= DayCut(now) {
        daily.Add(day, l, Filter(OnDay(now, day), logs));
      }
      DailyStep(now, logs, l, before, Result().daily);
    }

    method CountPrefix(now: int, all: Names, p: Period, l: Log, bid: Option<int>, ghost logs: seq<Log>)
      requires Valid() && PrefixesOK(now, all, logs, p, Result().windows.prefixes)
      modifies prefixes
      ensures Valid()
      ensures if bid.Some? && l.key.Some? && (IsPut(l) || IsGet(l)) then
                OwnerAdded(old(Result()).owners, Result().owners, bid.value, l.account)
              else Result().owners == old(Result()).owners
      ensures Result().daily == old(Result()).daily
      ensures Result().windows == old(Result()).windows.(
                prefixes := PrefixesAfter(now, all, logs, l, bid, p, old(Result()).windows.prefixes))
    {
      hide CounterTable.Valid, CounterTable.Contents, UserTable.Valid, UserTable.Contents, Total, Filter, OwnerAdded,
           IsGet, IsPut, FirstLevelPrefix;
      if bid.Some? && l.key.Some? && (IsPut(l) || IsGet(l)) {
        var k := PrefixKey(bid.value, FirstLevelPrefix(l.key.value), p);
        assert PrefixOK(now, all, logs, prefixes.counts, k);
        prefixes.Access(k, l.account);
      }
    }

    /** One period of the inner loop. */
    method Count(now: int, all: Names, names: Names, p: Period, l: Log, bid: Option<int>, ghost logs: seq<Log>)
      requires Valid() && PeriodOK(now, all, names, logs, p, Result().windows)
      requires forall b: int :: OfBucket(all, b, l) <==> bid == Some(b)
      modifies Counters()
      ensures Valid() && fresh(Counters() - old(Counters()))
      ensures PeriodOK(now, all, names, logs + [l], p, Result().windows)
      ensures OtherPeriods(old(Result().windows), Result().windows, p)
      ensures Result().daily == old(Result().daily)
      ensures if InWindow(l.at, now, Hours(p)) then OwnersStep(old(Result()).owners, Result().owners, l, all)
              else Result().owners == old(Result()).owners
    {
      hide CounterTable.Valid, UserTable.Valid, PlatformOK, AccountsOK, BucketsOK, UsersOK, PrefixesOK, OtherPeriods,
           PlatformAfter, AccountsAfter, BucketsAfter, UsersAfter, PrefixesAfter, OwnersStep, OwnerAdded, OfBucket;
      ghost var w := Result().windows;
      if !InWindow(l.at, now, Hours(p)) {
        OutsideWindow(now, all, names, logs, l, p, w);
        return;
      }
      CountPlatform(now, p, l, logs);
      CountAccount(now, p, l, logs);
      CountBucket(now, all, p, l, bid, logs);
      CountUser(now, names, p, l, logs);
      CountPrefix(now, all, p, l, bid, logs);
      OwnersStepOf(old(Result()).owners, Result().owners, l, bid, all);
      PeriodStep(now, all, names, logs, l, bid, p, w);
      OtherPeriodsKept(now, all, names, logs, l, bid, p, w);
    }

    /** The inner loop: the periods of the source's map come in any order. */
    method CountLog(now: int, all: Names, names: Names, l: Log, bid: Option<int>, ghost logs: seq<Log>)
      requires Valid() && Correct(now, all, names, logs, Result())
      requires forall b: int :: OfBucket(all, b, l) <==> bid == Some(b)
      modifies Counters()
      ensures Valid() && fresh(Counters() - old(Counters()))
      ensures Correct(now, all, names, logs + [l], Result())
    {
      hide Valid, PeriodOK, DailyOK, OwnersOK, OtherPeriods, OwnersStep, OfBucket, CounterTable.Valid,
           CounterTable.Contents, UserTable.Valid, UserTable.Contents;
      var todo := {H24, D7, D30};
      assert forall p: Period :: p in todo by {
        forall p: Period ensures p in todo {
          assert p == H24 || p == D7 || p == D30;
        }
      }
      ghost var hit := false;
      while todo != {}
        invariant Valid() && fresh(Counters() - old(Counters()))
        invariant forall p: Period ::
                    PeriodOK(now, all, names, if p in todo then logs else logs + [l], p, Result().windows)
        invariant Result().daily == old(Result().daily)
        invariant OwnersOK(now, all, if hit then logs + [l] else logs, Result().owners)
        invariant D30 !in todo && InWindow(l.at, now, Hours(D30)) ==> hit
      {
        var p :| p in todo;
        ghost var w, was := Result().windows, Result().owners;
        Count(now, all, names, p, l, bid, logs);
        todo := todo - {p};
        OtherPeriodsOK(now, all, names, logs, l, p, w, Result().windows);
        if InWindow(l.at, now, Hours(p)) {
          OwnersStepOK(now, all, logs, l, hit, was, Result().owners);
          hit := true;
        }
      }
      ghost var w := Result().windows;
      forall p: Period ensures PeriodOK(now, all, names, logs + [l], p, w) {
        assert p !in todo;
      }
      CountDay(now, l, logs);
      assert Result().windows == w;
      if !hit {
        OwnersOutside(now, all, logs, l, Result().owners);
      }
    }
  }

  ghost predicate OtherPeriods(w: Windows, w': Windows, p: Period)
  {
    && (forall q: Period :: q != p ==> Same(w.platform, w'.platform, q))
    && (forall k: AccountKey :: k.period != p ==> Same(w.accounts, w'.accounts, k))
    && (forall k: BucketKey :: k.period != p ==> Same(w.buckets, w'.buckets, k))
    && (forall k: UserKey :: k.period != p ==> Same(w.users, w'.users, k))
    && (forall k: PrefixKey :: k.period != p ==> Same(w.prefixes, w'.prefixes, k))
  }

  ghost predicate Same<K(!new), V(!new)>(m: map<K, V>, m': map<K, V>, k: K)
  {
    (k in m <==> k in m') && (k in m ==> m[k] == m'[k])
  }

  /** The account joins those known for bucket `b`, and nothing changes for the others. */
  ghost predicate OwnerAdded(owners: map<int, Option<int>>, owners': map<int, Option<int>>, b: int,
                             account: Option<int>)
  {
    && (forall x: int :: x != b ==> Same(owners, owners', x))
    && (account.None? ==> owners' == owners)
    && (account.Some? ==> forall known: set<int> ::
          Attributed(owners, b, known) ==> Attributed(owners', b, known + {account.value}))
  }

  /** A log adds its account to the owners of its bucket when it is a keyed access. */
  ghost predicate OwnersStep(owners: map<int, Option<int>>, owners': map<int, Option<int>>, l: Log, all: Names)
  {
    forall b: int, known: set<int> :: Attributed(owners, b, known) ==>
      Attributed(owners', b, if KeyedAccess(all, b, l) then known + Accounts([l]) else known)
  }

  // ---------------------------------------------------------------------------
  // What one log does to each table

  ghost function PlatformAfter(now: int, logs: seq<Log>, l: Log, p: Period, m: map<Period, Counts>): map<Period, Counts>
  {
    m[p := Total(Filter(Within(now, p), logs) + [l])]
  }

  ghost function AccountsAfter(now: int, logs: seq<Log>, l: Log, p: Period, m: map<AccountKey, Counts>)
    : map<AccountKey, Counts>
  {
    if l.account.None? then m
    else
      var k := AccountKey(l.account.value, p);
      m[k := Total(Filter(ForAccount(now, k), logs) + [l])]
  }

  ghost function BucketsAfter(now: int, all: Names, logs: seq<Log>, l: Log, bid: Option<int>, p: Period,
                              m: map<BucketKey, Counts>)
    : map<BucketKey, Counts>
  {
    if bid.None? then m
    else
      var k := BucketKey(bid.value, p);
      m[k := Total(Filter(ForBucket(now, all, k), logs) + [l])]
  }

  ghost function UsersAfter(now: int, names: Names, logs: seq<Log>, l: Log, p: Period, m: map<UserKey, UserCounts>)
    : map<UserKey, UserCounts>
  {
    if l.account.None? || l.user.None? then m
    else
      var k := UserKey(l.user.value, l.account.value, p);
      m[k := UserTotal(NameOf(names, k.user), Filter(ForUser(now, k), logs) + [l])]
  }

  ghost function PrefixesAfter(now: int, all: Names, logs: seq<Log>, l: Log, bid: Option<int>, p: Period,
                               m: map<PrefixKey, nat>)
    : map<PrefixKey, nat>
  {
    if bid.None? || l.key.None? || !(IsPut(l) || IsGet(l)) then m
    else
      var k := PrefixKey(bid.value, FirstLevelPrefix(l.key.value), p);
      m[k := |Filter(ForPrefix(now, all, k), logs)| + 1]
  }

  /** A log joins the owners of its bucket, or no bucket's. */
  lemma OwnersStepOf(owners: map<int, Option<int>>, owners': map<int, Option<int>>, l: Log, bid: Option<int>,
                     all: Names)
    requires forall b: int :: OfBucket(all, b, l) <==> bid == Some(b)
    requires if bid.Some? && l.key.Some? && (IsPut(l) || IsGet(l)) then
               OwnerAdded(owners, owners', bid.value, l.account)
             else owners' == owners
    ensures OwnersStep(owners, owners', l, all)
  {
    if bid.Some? && l.key.Some? && (IsPut(l) || IsGet(l)) {
      hide OwnerAdded, OwnersStep;
      OwnerJoins(owners, owners', bid.value, l, all);
    } else {
      assert forall b: int :: !KeyedAccess(all, b, l);
    }
  }

  lemma OwnerJoins(owners: map<int, Option<int>>, owners': map<int, Option<int>>, bid: int, l: Log, all: Names)
    requires OwnerAdded(owners, owners', bid, l.account)
    requires forall b: int :: KeyedAccess(all, b, l) <==> b == bid
    ensures OwnersStep(owners, owners', l, all)
  {
    assert Accounts([l]) == if l.account.Some? then {l.account.value} else {};
    forall b: int, known: set<int> | Attributed(owners, b, known)
      ensures Attributed(owners', b, if KeyedAccess(all, b, l) then known + Accounts([l]) else known)
    {
      if b == bid {
        assert known + {} == known;
      } else {
        assert Same(owners, owners', b);
      }
    }
  }

  lemma TallyLookup<K(!new)>(m: map<K, Counts>, k: K, logs: seq<Log>)
    requires Tally(m, k, logs, Total(logs))
    ensures (if k in m then m[k] else ZERO) == Total(logs)
  {
  }

  lemma DailyStep(now: int, logs: seq<Log>, l: Log, m: map<int, Counts>, m': map<int, Counts>)
    requires DailyOK(now, logs, m)
    requires var day := Day(l.at);
             m' == if day < DayCut(now) then m else m[day := Total(Filter(OnDay(now, day), logs) + [l])]
    ensures DailyOK(now, logs + [l], m')
  {
    forall day: int ensures DayOK(now, logs + [l], m', day) {
      assert DayOK(now, logs, m, day);
      FilterSnoc(OnDay(now, day), logs, l);
    }
  }

  ghost function After(now: int, all: Names, names: Names, logs: seq<Log>, l: Log, bid: Option<int>, p: Period,
                       w: Windows)
    : Windows
  {
    Windows(PlatformAfter(now, logs, l, p, w.platform), AccountsAfter(now, logs, l, p, w.accounts),
            BucketsAfter(now, all, logs, l, bid, p, w.buckets), UsersAfter(now, names, logs, l, p, w.users),
            PrefixesAfter(now, all, logs, l, bid, p, w.prefixes))
  }

  lemma PlatformStep(now: int, logs: seq<Log>, l: Log, p: Period, m: map<Period, Counts>)
    requires PlatformOK(now, logs, p, m) && InWindow(l.at, now, Hours(p))
    ensures PlatformOK(now, logs + [l], p, PlatformAfter(now, logs, l, p, m))
  {
    FilterSnoc(Within(now, p), logs, l);
  }

  lemma AccountsStep(now: int, logs: seq<Log>, l: Log, p: Period, m: map<AccountKey, Counts>)
    requires AccountsOK(now, logs, p, m) && InWindow(l.at, now, Hours(p))
    ensures AccountsOK(now, logs + [l], p, AccountsAfter(now, logs, l, p, m))
  {
    forall id: int ensures AccountOK(now, logs + [l], AccountsAfter(now, logs, l, p, m), AccountKey(id, p)) {
      assert AccountOK(now, logs, m, AccountKey(id, p));
      FilterSnoc(ForAccount(now, AccountKey(id, p)), logs, l);
    }
  }

  lemma BucketsStep(now: int, all: Names, logs: seq<Log>, l: Log, bid: Option<int>, p: Period,
                    m: map<BucketKey, Counts>)
    requires BucketsOK(now, all, logs, p, m) && InWindow(l.at, now, Hours(p))
    requires forall b: int :: OfBucket(all, b, l) <==> bid == Some(b)
    ensures BucketsOK(now, all, logs + [l], p, BucketsAfter(now, all, logs, l, bid, p, m))
  {
    forall id: int
      ensures BucketOK(now, all, logs + [l], BucketsAfter(now, all, logs, l, bid, p, m), BucketKey(id, p))
    {
      assert BucketOK(now, all, logs, m, BucketKey(id, p));
      FilterSnoc(ForBucket(now, all, BucketKey(id, p)), logs, l);
    }
  }

  lemma UsersStep(now: int, names: Names, logs: seq<Log>, l: Log, p: Period, m: map<UserKey, UserCounts>)
    requires UsersOK(now, names, logs, p, m) && InWindow(l.at, now, Hours(p))
    ensures UsersOK(now, names, logs + [l], p, UsersAfter(now, names, logs, l, p, m))
  {
    forall user: int, id: int
      ensures UserOK(now, names, logs + [l], UsersAfter(now, names, logs, l, p, m), UserKey(user, id, p))
    {
      assert UserOK(now, names, logs, m, UserKey(user, id, p));
      FilterSnoc(ForUser(now, UserKey(user, id, p)), logs, l);
    }
  }

  lemma PrefixesStep(now: int, all: Names, logs: seq<Log>, l: Log, bid: Option<int>, p: Period, m: map<PrefixKey, nat>)
    requires PrefixesOK(now, all, logs, p, m) && InWindow(l.at, now, Hours(p))
    requires forall b: int :: OfBucket(all, b, l) <==> bid == Some(b)
    ensures PrefixesOK(now, all, logs + [l], p, PrefixesAfter(now, all, logs, l, bid, p, m))
  {
    forall id: int, prefix: string
      ensures PrefixOK(now, all, logs + [l], PrefixesAfter(now, all, logs, l, bid, p, m), PrefixKey(id, prefix, p))
    {
      assert PrefixOK(now, all, logs, m, PrefixKey(id, prefix, p));
      FilterSnoc(ForPrefix(now, all, PrefixKey(id, prefix, p)), logs, l);
    }
  }

  lemma PeriodStep(now: int, all: Names, names: Names, logs: seq<Log>, l: Log, bid: Option<int>, p: Period, w: Windows)
    requires PeriodOK(now, all, names, logs, p, w) && InWindow(l.at, now, Hours(p))
    requires forall b: int :: OfBucket(all, b, l) <==> bid == Some(b)
    ensures var w' := After(now, all, names, logs, l, bid, p, w);
            PeriodOK(now, all, names, logs + [l], p, w')
  {
    hide PlatformOK, AccountsOK, BucketsOK, UsersOK, PrefixesOK, PlatformAfter, AccountsAfter, BucketsAfter, UsersAfter,
         PrefixesAfter;
    PlatformStep(now, logs, l, p, w.platform);
    AccountsStep(now, logs, l, p, w.accounts);
    BucketsStep(now, all, logs, l, bid, p, w.buckets);
    UsersStep(now, names, logs, l, p, w.users);
    PrefixesStep(now, all, logs, l, bid, p, w.prefixes);
  }

  lemma OtherPeriodsKept(now: int, all: Names, names: Names, logs: seq<Log>, l: Log, bid: Option<int>, p: Period,
                         w: Windows)
    ensures OtherPeriods(w, After(now, all, names, logs, l, bid, p, w), p)
  {
    hide Total, UserTotal, Filter;
  }

  lemma AccountsOutside(now: int, logs: seq<Log>, l: Log, p: Period, m: map<AccountKey, Counts>)
    requires AccountsOK(now, logs, p, m) && !InWindow(l.at, now, Hours(p))
    ensures AccountsOK(now, logs + [l], p, m)
  {
    forall id: int ensures AccountOK(now, logs + [l], m, AccountKey(id, p)) {
      assert AccountOK(now, logs, m, AccountKey(id, p));
      FilterSnoc(ForAccount(now, AccountKey(id, p)), logs, l);
    }
  }

  lemma BucketsOutside(now: int, all: Names, logs: seq<Log>, l: Log, p: Period, m: map<BucketKey, Counts>)
    requires BucketsOK(now, all, logs, p, m) && !InWindow(l.at, now, Hours(p))
    ensures BucketsOK(now, all, logs + [l], p, m)
  {
    forall id: int ensures BucketOK(now, all, logs + [l], m, BucketKey(id, p)) {
      assert BucketOK(now, all, logs, m, BucketKey(id, p));
      FilterSnoc(ForBucket(now, all, BucketKey(id, p)), logs, l);
    }
  }

  lemma UsersOutside(now: int, names: Names, logs: seq<Log>, l: Log, p: Period, m: map<UserKey, UserCounts>)
    requires UsersOK(now, names, logs, p, m) && !InWindow(l.at, now, Hours(p))
    ensures UsersOK(now, names, logs + [l], p, m)
  {
    forall user: int, id: int ensures UserOK(now, names, logs + [l], m, UserKey(user, id, p)) {
      assert UserOK(now, names, logs, m, UserKey(user, id, p));
      FilterSnoc(ForUser(now, UserKey(user, id, p)), logs, l);
    }
  }

  lemma PrefixesOutside(now: int, all: Names, logs: seq<Log>, l: Log, p: Period, m: map<PrefixKey, nat>)
    requires PrefixesOK(now, all, logs, p, m) && !InWindow(l.at, now, Hours(p))
    ensures PrefixesOK(now, all, logs + [l], p, m)
  {
    forall id: int, prefix: string ensures PrefixOK(now, all, logs + [l], m, PrefixKey(id, prefix, p)) {
      assert PrefixOK(now, all, logs, m, PrefixKey(id, prefix, p));
      FilterSnoc(ForPrefix(now, all, PrefixKey(id, prefix, p)), logs, l);
    }
  }

  lemma OutsideWindow(now: int, all: Names, names: Names, logs: seq<Log>, l: Log, p: Period, w: Windows)
    requires PeriodOK(now, all, names, logs, p, w) && !InWindow(l.at, now, Hours(p))
    ensures PeriodOK(now, all, names, logs + [l], p, w) && OtherPeriods(w, w, p)
  {
    hide Total, Filter, AccountsOK, BucketsOK, UsersOK, PrefixesOK;
    FilterSnoc(Within(now, p), logs, l);
    AccountsOutside(now, logs, l, p, w.accounts);
    BucketsOutside(now, all, logs, l, p, w.buckets);
    UsersOutside(now, names, logs, l, p, w.users);
    PrefixesOutside(now, all, logs, l, p, w.prefixes);
  }

  lemma OtherPeriodsOK(now: int, all: Names, names: Names, logs: seq<Log>, l: Log, p: Period, w: Windows, w': Windows)
    requires OtherPeriods(w, w', p)
    ensures forall q: Period, s: seq<Log> ::
              q != p && PeriodOK(now, all, names, s, q, w) ==> PeriodOK(now, all, names, s, q, w')
  {
    forall q: Period, s: seq<Log> | q != p && PeriodOK(now, all, names, s, q, w)
      ensures PeriodOK(now, all, names, s, q, w')
    {
      PeriodFrame(now, all, names, s, p, q, w, w');
    }
  }

  lemma PeriodFrame(now: int, all: Names, names: Names, s: seq<Log>, p: Period, q: Period, w: Windows, w': Windows)
    requires OtherPeriods(w, w', p) && q != p && PeriodOK(now, all, names, s, q, w)
    ensures PeriodOK(now, all, names, s, q, w')
  {
    hide Total, UserTotal, Filter;
    assert Same(w.platform, w'.platform, q);
    forall id: int ensures AccountOK(now, s, w'.accounts, AccountKey(id, q)) {
      assert AccountOK(now, s, w.accounts, AccountKey(id, q)) && Same(w.accounts, w'.accounts, AccountKey(id, q));
    }
    forall id: int ensures BucketOK(now, all, s, w'.buckets, BucketKey(id, q)) {
      assert BucketOK(now, all, s, w.buckets, BucketKey(id, q)) && Same(w.buckets, w'.buckets, BucketKey(id, q));
    }
    forall user: int, id: int ensures UserOK(now, names, s, w'.users, UserKey(user, id, q)) {
      assert UserOK(now, names, s, w.users, UserKey(user, id, q)) && Same(w.users, w'.users, UserKey(user, id, q));
    }
    forall id: int, prefix: string ensures PrefixOK(now, all, s, w'.prefixes, PrefixKey(id, prefix, q)) {
      assert PrefixOK(now, all, s, w.prefixes, PrefixKey(id, prefix, q));
      assert Same(w.prefixes, w'.prefixes, PrefixKey(id, prefix, q));
    }
  }

  /** Adding the account of a log once per period is the same as adding it once. */
  lemma OwnersStepOK(now: int, all: Names, logs: seq<Log>, l: Log, hit: bool, owners: map<int, Option<int>>,
                     owners': map<int, Option<int>>)
    requires OwnersOK(now, all, if hit then logs + [l] else logs, owners) && OwnersStep(owners, owners', l, all)
    requires InWindow(l.at, now, Hours(D30))
    ensures OwnersOK(now, all, logs + [l], owners')
  {
    forall b: int ensures Attributed(owners', b, Accounts(Filter(ForOwner(now, all, b), logs + [l]))) {
      var before, later := Filter(ForOwner(now, all, b), logs), Filter(ForOwner(now, all, b), logs + [l]);
      FilterSnoc(ForOwner(now, all, b), logs, l);
      var known := Accounts(if hit then later else before);
      assert Attributed(owners, b, known);
      assert Accounts(later) == if KeyedAccess(all, b, l) then known + Accounts([l]) else known;
    }
  }

  lemma OwnersOutside(now: int, all: Names, logs: seq<Log>, l: Log, owners: map<int, Option<int>>)
    requires OwnersOK(now, all, logs, owners) && !InWindow(l.at, now, Hours(D30))
    ensures OwnersOK(now, all, logs + [l], owners)
  {
    forall b: int ensures Attributed(owners, b, Accounts(Filter(ForOwner(now, all, b), logs + [l]))) {
      FilterSnoc(ForOwner(now, all, b), logs, l);
      assert Attributed(owners, b, Accounts(Filter(ForOwner(now, all, b), logs)));
    }
  }

  // ---------------------------------------------------------------------------
  // The run

  /** Bucket ids by name. */
  method NameToID(all: Names) returns (ids: map<string, int>)
    requires Unique(all)
    ensures forall l: Log, b: int ::
              OfBucket(all, b, l) <==> l.bucket.Some? && l.bucket.value in ids && ids[l.bucket.value] == b
  {
    ids := map[];
    var todo := all.Items;
    while todo != {}
      invariant todo <= all.Items
      invariant forall name :: name in ids ==> ids[name] in all && all[ids[name]] == name
      invariant forall b :: b in all && (b, all[b]) !in todo ==> all[b] in ids
    {
      var entry :| entry in todo;
      ids := ids[entry.1 := entry.0];
      todo := todo - {entry};
    }
  }

  /** The tables before the first log. */
  method Start(now: int, all: Names, names: Names) returns (run: Aggregation)
    ensures run.Valid() && fresh(run.Counters()) && Correct(now, all, names, [], run.Result())
  {
    hide Correct, Aggregation.Valid, Aggregation.Result, Aggregation.Blank, Aggregation.Empty;
    run := new Aggregation();
    run.BlankIsValid();
    run.StartPeriods();
    run.EmptyResult();
    EmptyCorrect(now, all, names, run.Result());
  }

  /** One log of the outer loop, skipped when it is not about objects. */
  method Step(run: Aggregation, now: int, all: Names, names: Names, ids: map<string, int>, l: Log, ghost logs: seq<Log>)
    requires run.Valid() && Correct(now, all, names, Filter(Request(), logs), run.Result())
    requires forall b: int :: OfBucket(all, b, l) <==>
               l.bucket.Some? && l.bucket.value in ids && ids[l.bucket.value] == b
    modifies run.Counters()
    ensures run.Valid() && fresh(run.Counters() - old(run.Counters()))
    ensures Correct(now, all, names, Filter(Request(), logs + [l]), run.Result())
  {
    FilterSnoc(Request(), logs, l);
    hide Correct, OfBucket, Aggregation.Valid, Aggregation.Counters, Aggregation.Result, Filter, IsObjectRequest;
    if !IsObjectRequest(l.action) {
      return;
    }
    var bid := if l.bucket.Some? && l.bucket.value in ids then Some(ids[l.bucket.value]) else None;
    run.CountLog(now, all, names, l, bid, Filter(Request(), logs));
  }

  /** Every table holds what the loaded logs say. */
  method AggregateRequests(now: int, since: int, audit: seq<Log>, all: Names, names: Names) returns (t: Tables)
    requires Unique(all)
    ensures Correct(now, all, names, Requests(since, audit), t)
  {
    hide Correct, OfBucket, Unique, Aggregation.Valid, Aggregation.Result, Loaded, Filter;
    var logs := Filter(Loaded(since), audit);
    var ids := NameToID(all);
    var run := Start(now, all, names);
    assert Filter(Request(), logs[..0]) == [] by { NoRequests(logs[..0]); }
    for i := 0 to |logs|
      invariant run.Valid() && fresh(run.Counters())
      invariant Correct(now, all, names, Filter(Request(), logs[..i]), run.Result())
    {
      assert logs[..i + 1] == logs[..i] + [logs[i]];
      Step(run, now, all, names, ids, logs[i], logs[..i]);
    }
    assert logs[..|logs|] == logs;
    t := run.Result();
  }

  lemma NoRequests(logs: seq<Log>)
    requires logs == []
    ensures Filter(Request(), logs) == []
  {
  }

  lemma EmptyCorrect(now: int, all: Names, names: Names, t: Tables)
    requires t == Tables(Windows(map[H24 := ZERO, D7 := ZERO, D30 := ZERO], map[], map[], map[], map[]), map[], map[])
    ensures Correct(now, all, names, [], t)
  {
    assert Accounts([]) == {};
    forall p: Period ensures PeriodOK(now, all, names, [], p, t.windows) {
      assert Total([]) == ZERO;
      assert p == H24 || p == D7 || p == D30;
    }
  }
}
