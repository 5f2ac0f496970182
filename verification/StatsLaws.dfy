/** What holds between the statistics tables of one run. */
module StatsLaws {
  import opened Text
  import opened Keys
  import opened Sums
  import opened Stats
  import StatsAggregate

  // ---------------------------------------------------------------------------
  // What is counted

  /** Actions that count as uploads, downloads and deletes; all of them are object requests. */
  lemma ActionClasses(l: Log)
    ensures IsPut(l) <==> l.action == "upload"
    ensures IsGet(l) <==> l.action == "download" || l.action == "preview" || l.action == "version_download" ||
                          l.action == "share_access"
    ensures IsDelete(l) <==> l.action == "delete" || l.action == "purge" || l.action == "version_delete"
    ensures IsPut(l) || IsGet(l) || IsDelete(l) ==> IsObjectRequest(l.action)
    ensures l.action == "login_failed" || l.action == "password_change" ==> !IsObjectRequest(l.action)
    ensures l.action in {"user_create", "modify_quota", "bucket_create", "force_unlock_file", "create_access_key"} ==>
              !IsObjectRequest(l.action)
  {
  }

  /** The windows are the last 24 hours, 7 days and 30 days, their starts included. */
  lemma WindowsExactly(now: int, at: int)
    ensures InWindow(at, now, Hours(H24)) <==> now - at <= 24 * 3_600_000_000_000
    ensures InWindow(at, now, Hours(D7)) <==> now - at <= 7 * 24 * 3_600_000_000_000
    ensures InWindow(at, now, Hours(D30)) <==> now - at <= 30 * 24 * 3_600_000_000_000
  {
  }

  /** A day is 24 hours from midnight, and the first one with a row is the day 30 days ago. */
  lemma DaysExactly(now: int, at: int, day: int)
    ensures Day(at) == day <==> day * 86_400_000_000_000 <= at < (day + 1) * 86_400_000_000_000
    ensures DayCut(now) == Day(now) - 30
  {
    assert DAY == 86_400_000_000_000;
  }

  /** The prefix a keyed request is counted under: `name/` when the key begins with it, and "" for keys without a
      slash, the empty key and trash keys. */
  lemma PrefixesExactly(key: string, prefix: string)
    ensures FirstLevelPrefix(key) == prefix <==>
            if ".trash/" <= key then prefix == ""
            else if prefix == "" then '/' !in key
            else exists name, rest :: '/' !in name && prefix == name + "/" && key == name + "/" + rest
  {
    FirstLevelExactly(key, prefix);
  }

  /** The logs behind a prefix row, said without naming how prefixes are computed. */
  ghost function UnderPrefix(now: int, all: Names, k: PrefixKey): Log -> bool
  {
    (l: Log) =>
      && InWindow(l.at, now, Hours(k.period)) && OfBucket(all, k.bucket, l) && l.key.Some? && (IsPut(l) || IsGet(l))
      && (if ".trash/" <= l.key.value then k.prefix == ""
          else if k.prefix == "" then '/' !in l.key.value
          else exists name, rest :: '/' !in name && k.prefix == name + "/" && l.key.value == name + "/" + rest)
  }

  /** A prefix row is there exactly when there is such a log, and counts them all. */
  lemma PrefixRowsExactly(now: int, all: Names, names: Names, logs: seq<Log>, t: Tables, k: PrefixKey)
    requires Correct(now, all, names, logs, t)
    ensures k in t.windows.prefixes <==> exists l :: l in logs && UnderPrefix(now, all, k)(l)
    ensures k in t.windows.prefixes ==> t.windows.prefixes[k] == |Filter(UnderPrefix(now, all, k), logs)|
  {
    assert PeriodOK(now, all, names, logs, k.period, t.windows);
    assert k == PrefixKey(k.bucket, k.prefix, k.period);
    assert PrefixOK(now, all, logs, t.windows.prefixes, k);
    forall l: Log ensures ForPrefix(now, all, k)(l) == UnderPrefix(now, all, k)(l) {
      if l.key.Some? {
        PrefixesExactly(l.key.value, k.prefix);
      }
    }
    FilterSame(ForPrefix(now, all, k), UnderPrefix(now, all, k), logs);
    var mine := Filter(UnderPrefix(now, all, k), logs);
    if mine != [] {
      assert mine[0] in mine;
    }
  }

  function Sizes(logs: seq<Log>): nat
  {
    if logs == [] then 0 else Sizes(logs[..|logs| - 1]) + logs[|logs| - 1].size
  }

  /** A log that failed, and an upload or download that names a key. */
  ghost predicate HasFailed(l: Log)
  {
    l.status != "success"
  }

  ghost predicate NamesAKey(l: Log)
  {
    (IsPut(l) || IsGet(l)) && exists key: string :: key != "" && l.key == Some(key)
  }

  /** The columns of a row, as counts and sizes of the logs they are about. */
  lemma TotalExactly(logs: seq<Log>)
    ensures var t := Total(logs);
            && t.requests == |logs|
            && t.errors == |Filter(HasFailed, logs)|
            && t.puts == |Filter(IsPut, logs)| && t.upload == Sizes(Filter(IsPut, logs))
            && t.gets == |Filter(IsGet, logs)| && t.download == Sizes(Filter(IsGet, logs))
            && t.deletes == |Filter(IsDelete, logs)|
            && (forall u :: u in t.active <==> exists l :: l in logs && l.user == Some(u))
    ensures forall name :: var t := UserTotal(name, logs);
              && t.username == name
              && t.uploads == |Filter(IsPut, logs)| && t.uploadBytes == Sizes(Filter(IsPut, logs))
              && t.downloads == |Filter(IsGet, logs)| && t.downloadBytes == Sizes(Filter(IsGet, logs))
              && t.deletes == |Filter(IsDelete, logs)|
              && t.accesses == |Filter(NamesAKey, logs)|
  {
    hide Measure, Filter, Sizes;
    CountIsLength(logs);
    MeasureCounts(HasFailed, Failed, logs);
    MeasureCounts(IsPut, Put, logs);
    MeasureCounts(IsGet, Get, logs);
    MeasureCounts(IsDelete, Delete, logs);
    MeasureSizes(IsPut, UploadBytes, logs);
    MeasureSizes(IsGet, DownloadBytes, logs);
    forall l: Log ensures Access(l) == if NamesAKey(l) then 1 else 0 {
    }
    MeasureCounts(NamesAKey, Access, logs);
  }

  lemma {:induction false} MeasureCounts(p: Log -> bool, m: Log -> nat, logs: seq<Log>)
    requires forall l :: m(l) == if p(l) then 1 else 0
    ensures Measure(logs, m) == |Filter(p, logs)|
    decreases |logs|
  {
    if logs == [] {
    } else {
      var front, l := logs[..|logs| - 1], logs[|logs| - 1];
      assert logs == front + [l];
      MeasureCounts(p, m, front);
      FilterSnoc(p, front, l);
    }
  }

  lemma {:induction false} MeasureSizes(p: Log -> bool, m: Log -> nat, logs: seq<Log>)
    requires forall l :: m(l) == if p(l) then l.size else 0
    ensures Measure(logs, m) == Sizes(Filter(p, logs))
    decreases |logs|
  {
    if logs == [] {
    } else {
      var front, l := logs[..|logs| - 1], logs[|logs| - 1];
      assert logs == front + [l];
      MeasureSizes(p, m, front);
      FilterSnoc(p, front, l);
      SizesSnoc(Filter(p, front), l);
    }
  }

  lemma SizesSnoc(logs: seq<Log>, l: Log)
    ensures Sizes(logs + [l]) == Sizes(logs) + l.size
  {
    assert (logs + [l])[..|logs|] == logs;
  }

  // ---------------------------------------------------------------------------
  // Measures

  ghost function By<G(!new)>(group: Log -> G, g: G): Log -> bool
  {
    (l: Log) => group(l) == g
  }

  ghost function GroupMeasure<G(!new)>(logs: seq<Log>, group: Log -> G, m: Log -> nat): G -> int
  {
    (g: G) => Measure(Filter(By(group, g), logs), m)
  }

  lemma {:induction false} SumZero<G(!new)>(s: set<G>, f: G -> int)
    requires forall g :: g in s ==> f(g) == 0
    ensures Sum(s, f) == 0
    decreases |s|
  {
    if s == {} {
    } else {
      var g :| g in s;
      SumRemove(s, f, g);
      SumZero(s - {g}, f);
    }
  }

  /** Measuring group by group gives the measure of all logs. */
  lemma {:induction false} MeasureByGroup<G(!new)>(logs: seq<Log>, group: Log -> G, groups: set<G>, m: Log -> nat)
    requires forall l :: l in logs ==> group(l) in groups
    ensures Sum(groups, GroupMeasure(logs, group, m)) == Measure(logs, m)
    decreases |logs|
  {
    var f := GroupMeasure(logs, group, m);
    if logs == [] {
      SumZero(groups, f);
    } else {
      var front, l := logs[..|logs| - 1], logs[|logs| - 1];
      assert logs == front + [l];
      var f' := GroupMeasure(front, group, m);
      MeasureByGroup(front, group, groups, m);
      forall g | g in groups ensures f(g) == f'(g) + if group(l) == g then m(l) else 0 {
        FilterConcat(By(group, g), front, [l]);
        MeasureConcat(Filter(By(group, g), front), Filter(By(group, g), [l]), m);
      }
      var mine := group(l);
      SumRemove(groups, f, mine);
      SumRemove(groups, f', mine);
      SumSame(groups - {mine}, f, f');
    }
  }

  lemma {:induction false} MeasureConcat(a: seq<Log>, b: seq<Log>, m: Log -> nat)
    ensures Measure(a + b, m) == Measure(a, m) + Measure(b, m)
    decreases |b|
  {
    if b == [] {
      assert a + b == a;
    } else {
      assert (a + b)[..|a + b| - 1] == a + b[..|b| - 1];
      MeasureConcat(a, b[..|b| - 1], m);
    }
  }

  lemma {:induction false} MeasureMonotone(p: Log -> bool, q: Log -> bool, logs: seq<Log>, m: Log -> nat)
    requires forall l :: l in logs && p(l) ==> q(l)
    ensures Measure(Filter(p, logs), m) <= Measure(Filter(q, logs), m)
    decreases |logs|
  {
    if logs == [] {
    } else {
      var front, l := logs[..|logs| - 1], logs[|logs| - 1];
      assert logs == front + [l];
      MeasureMonotone(p, q, front, m);
      FilterConcat(p, front, [l]);
      FilterConcat(q, front, [l]);
      MeasureConcat(Filter(p, front), Filter(p, [l]), m);
      MeasureConcat(Filter(q, front), Filter(q, [l]), m);
    }
  }

  lemma {:induction false} FilterSame(p: Log -> bool, q: Log -> bool, logs: seq<Log>)
    requires forall l :: l in logs ==> p(l) == q(l)
    ensures Filter(p, logs) == Filter(q, logs)
  {
    if logs == [] {
    } else {
      FilterSame(p, q, logs[1..]);
    }
  }

  // ---------------------------------------------------------------------------
  // Sums over tables

  /** The sum of a column over the rows of a table whose keys are selected. */
  ghost function Column<K(!new), V>(table: map<K, V>, field: V -> int): K -> int
  {
    (k: K) => if k in table then field(table[k]) else 0
  }

  ghost predicate Measures(field: Counts -> int, m: Log -> nat)
  {
    forall logs: seq<Log> :: field(Total(logs)) == Measure(logs, m)
  }

  lemma {:induction false} MeasureSplit(logs: seq<Log>, p: Log -> bool, q: Log -> bool, m: Log -> nat)
    requires forall l :: p(l) != q(l)
    ensures Measure(Filter(p, logs), m) + Measure(Filter(q, logs), m) == Measure(logs, m)
    decreases |logs|
  {
    if logs == [] {
    } else {
      var front, l := logs[..|logs| - 1], logs[|logs| - 1];
      assert logs == front + [l];
      MeasureSplit(front, p, q, m);
      FilterSnoc(p, front, l);
      FilterSnoc(q, front, l);
      MeasureConcat(Filter(p, front), [l], m);
      MeasureConcat(Filter(q, front), [l], m);
    }
  }

  function FromCut(now: int): Log -> bool
  {
    (l: Log) => Day(l.at) >= DayCut(now)
  }

  /** The 30-day window lies within the days that get a row. */
  lemma WindowFromCut(now: int, at: int)
    ensures InWindow(at, now, Hours(D30)) ==> Day(at) >= DayCut(now)
  {
    assert Hours(D30) * HOUR == DAILY_ROLLUP_DAYS * DAY;
  }

  /** The logs on days with a row are those of the 30-day window and the early ones. */
  lemma RecentSplit(now: int, logs: seq<Log>, m: Log -> nat)
    ensures Measure(Filter(FromCut(now), logs), m) ==
            Measure(Filter(Within(now, D30), logs), m) + Measure(Filter(Early(now), logs), m)
  {
    forall at ensures InWindow(at, now, Hours(D30)) ==> Day(at) >= DayCut(now) {
      WindowFromCut(now, at);
    }
    hide Day, DayCut, InWindow, Filter, Measure;
    var recent := Filter(FromCut(now), logs);
    var within, outside := Within(now, D30), (l: Log) => !InWindow(l.at, now, Hours(D30));
    MeasureSplit(recent, within, outside, m);
    FilterFilter(FromCut(now), within, logs);
    FilterSame(outside, Early(now), recent);
    FilterFilter(FromCut(now), Early(now), logs);
  }

  /** The daily rows group the logs from the cut on by their day. */
  lemma DailyGroups(now: int, logs: seq<Log>, daily: map<int, Counts>, field: Counts -> int, m: Log -> nat)
    requires DailyOK(now, logs, daily) && Measures(field, m)
    ensures Sum(daily.Keys, Column(daily, field)) == Measure(Filter(FromCut(now), logs), m)
  {
    hide Total, Filter, Sum, Measure;
    var recent, day := Filter(FromCut(now), logs), (l: Log) => Day(l.at);
    forall l | l in recent ensures day(l) in daily {
      assert DayOK(now, logs, daily, Day(l.at));
      assert l in Filter(OnDay(now, Day(l.at)), logs);
    }
    MeasureByGroup(recent, day, daily.Keys, m);
    forall d | d in daily.Keys ensures Column(daily, field)(d) == GroupMeasure(recent, day, m)(d) {
      assert DayOK(now, logs, daily, d);
      DayLogs(now, logs, d);
    }
    SumSame(daily.Keys, Column(daily, field), GroupMeasure(recent, day, m));
  }

  lemma DayLogs(now: int, logs: seq<Log>, d: int)
    ensures d >= DayCut(now) ==>
              Filter(OnDay(now, d), logs) == Filter(By((l: Log) => Day(l.at), d), Filter(FromCut(now), logs))
    ensures d < DayCut(now) ==> Filter(OnDay(now, d), logs) == []
  {
    if d >= DayCut(now) {
      FilterFilter(FromCut(now), OnDay(now, d), logs);
      FilterSame(OnDay(now, d), By((l: Log) => Day(l.at), d), Filter(FromCut(now), logs));
    } else {
      FilterNone(OnDay(now, d), logs);
    }
  }

  lemma DailyColumn(now: int, all: Names, names: Names, logs: seq<Log>, t: Tables, field: Counts -> int, m: Log -> nat)
    requires Correct(now, all, names, logs, t) && Measures(field, m)
    ensures D30 in t.windows.platform
    ensures Sum(t.daily.Keys, Column(t.daily, field)) ==
            field(t.windows.platform[D30]) + field(Total(Filter(Early(now), logs)))
  {
    assert PeriodOK(now, all, names, logs, D30, t.windows);
    hide Total, Filter, Sum, Measure, Column, OwnersOK;
    DailyGroups(now, logs, t.daily, field, m);
    RecentSplit(now, logs, m);
  }

  /** The daily rows add up to the platform row of 30 days and the early requests. They add up to the platform row
      alone exactly when no request was loaded from before the window; a loading bound that is not before the
      window ensures that. */
  lemma DailyRowsConserve(now: int, since: int, all: Names, names: Names, audit: seq<Log>, t: Tables)
    requires Correct(now, all, names, Requests(since, audit), t)
    ensures D30 in t.windows.platform
    ensures var days, month, early := t.daily.Keys, t.windows.platform[D30],
              Total(Filter(Early(now), Requests(since, audit)));
            && Sum(days, Column(t.daily, (c: Counts) => c.requests)) == month.requests + early.requests
            && Sum(days, Column(t.daily, (c: Counts) => c.gets)) == month.gets + early.gets
            && Sum(days, Column(t.daily, (c: Counts) => c.puts)) == month.puts + early.puts
            && Sum(days, Column(t.daily, (c: Counts) => c.deletes)) == month.deletes + early.deletes
            && Sum(days, Column(t.daily, (c: Counts) => c.errors)) == month.errors + early.errors
            && Sum(days, Column(t.daily, (c: Counts) => c.upload)) == month.upload + early.upload
            && Sum(days, Column(t.daily, (c: Counts) => c.download)) == month.download + early.download
    ensures Sum(t.daily.Keys, Column(t.daily, (c: Counts) => c.requests)) == t.windows.platform[D30].requests <==>
            Filter(Early(now), Requests(since, audit)) == []
    ensures since >= now - Hours(D30) * HOUR ==> Filter(Early(now), Requests(since, audit)) == []
  {
    var logs := Requests(since, audit);
    CountIsLength(Filter(Early(now), logs));
    if since >= now - Hours(D30) * HOUR {
      FilterNone(Early(now), logs);
    }
    hide Correct, Filter, Requests, Sum, Measure;
    DailyColumn(now, all, names, logs, t, (c: Counts) => c.requests, One);
    DailyColumn(now, all, names, logs, t, (c: Counts) => c.gets, Get);
    DailyColumn(now, all, names, logs, t, (c: Counts) => c.puts, Put);
    DailyColumn(now, all, names, logs, t, (c: Counts) => c.deletes, Delete);
    DailyColumn(now, all, names, logs, t, (c: Counts) => c.errors, Failed);
    DailyColumn(now, all, names, logs, t, (c: Counts) => c.upload, UploadBytes);
    DailyColumn(now, all, names, logs, t, (c: Counts) => c.download, DownloadBytes);
  }

  const EARLY_NOW := 40 * DAY + 500
  const EARLY_SINCE := 10 * DAY
  const EARLY_LOG := Log(None, None, None, None, "upload", "success", 10 * DAY, 1)

  lemma EarlyRequest()
    ensures var logs := Requests(EARLY_SINCE, [EARLY_LOG]);
            logs == [EARLY_LOG] && Filter(Early(EARLY_NOW), logs) == logs && Filter(Within(EARLY_NOW, D30), logs) == []
  {
    assert Day(EARLY_LOG.at) == 10 && DayCut(EARLY_NOW) == 10;
    FilterAll(Loaded(EARLY_SINCE), [EARLY_LOG]);
    FilterAll(Request(), [EARLY_LOG]);
    FilterAll(Early(EARLY_NOW), [EARLY_LOG]);
    FilterNone(Within(EARLY_NOW, D30), [EARLY_LOG]);
  }

  /** It happens: 500 nanoseconds rounded off the loading bound, and one upload in between. It is counted in a
      daily row, and not in the row of 30 days. */
  method EarlyRequestExample() returns (t: Tables)
    ensures Sum(t.daily.Keys, Column(t.daily, (c: Counts) => c.requests)) == 1
    ensures D30 in t.windows.platform && t.windows.platform[D30].requests == 0
  {
    t := StatsAggregate.AggregateRequests(EARLY_NOW, EARLY_SINCE, [EARLY_LOG], map[], map[]);
    EarlyRequest();
    DailyRowsConserve(EARLY_NOW, EARLY_SINCE, map[], map[], [EARLY_LOG], t);
    assert PeriodOK(EARLY_NOW, map[], map[], [EARLY_LOG], D30, t.windows);
    CountIsLength([EARLY_LOG]);
  }

  // ---------------------------------------------------------------------------
  // Nested windows

  predicate AtMost(a: Counts, b: Counts)
  {
    && a.upload <= b.upload && a.download <= b.download && a.requests <= b.requests && a.gets <= b.gets
    && a.puts <= b.puts && a.deletes <= b.deletes && a.errors <= b.errors && a.active <= b.active
  }

  lemma TotalMonotone(p: Log -> bool, q: Log -> bool, logs: seq<Log>)
    requires forall l :: l in logs && p(l) ==> q(l)
    ensures AtMost(Total(Filter(p, logs)), Total(Filter(q, logs)))
    ensures Filter(p, logs) != [] ==> Filter(q, logs) != []
  {
    MeasureMonotone(p, q, logs, UploadBytes);
    MeasureMonotone(p, q, logs, DownloadBytes);
    MeasureMonotone(p, q, logs, One);
    MeasureMonotone(p, q, logs, Get);
    MeasureMonotone(p, q, logs, Put);
    MeasureMonotone(p, q, logs, Delete);
    MeasureMonotone(p, q, logs, Failed);
    if Filter(p, logs) != [] {
      assert Filter(p, logs)[0] in Filter(q, logs);
    }
  }

  /** A longer window counts at least what a shorter one does, in every row. */
  lemma WindowsNested(now: int, all: Names, names: Names, logs: seq<Log>, t: Tables, p: Period, q: Period)
    requires Correct(now, all, names, logs, t) && Hours(p) <= Hours(q)
    ensures p in t.windows.platform && q in t.windows.platform
    ensures AtMost(t.windows.platform[p], t.windows.platform[q])
    ensures forall id: int :: AccountKey(id, p) in t.windows.accounts ==>
              && AccountKey(id, q) in t.windows.accounts
              && AtMost(t.windows.accounts[AccountKey(id, p)], t.windows.accounts[AccountKey(id, q)])
    ensures forall id: int :: BucketKey(id, p) in t.windows.buckets ==>
              && BucketKey(id, q) in t.windows.buckets
              && AtMost(t.windows.buckets[BucketKey(id, p)], t.windows.buckets[BucketKey(id, q)])
  {
    var w := t.windows;
    assert PeriodOK(now, all, names, logs, p, w) && PeriodOK(now, all, names, logs, q, w);
    hide Correct, Total, Filter;
    TotalMonotone(Within(now, p), Within(now, q), logs);
    forall id: int | AccountKey(id, p) in w.accounts
      ensures AccountKey(id, q) in w.accounts && AtMost(w.accounts[AccountKey(id, p)], w.accounts[AccountKey(id, q)])
    {
      assert AccountOK(now, logs, w.accounts, AccountKey(id, p)) && AccountOK(now, logs, w.accounts, AccountKey(id, q));
      TotalMonotone(ForAccount(now, AccountKey(id, p)), ForAccount(now, AccountKey(id, q)), logs);
    }
    forall id: int | BucketKey(id, p) in w.buckets
      ensures BucketKey(id, q) in w.buckets && AtMost(w.buckets[BucketKey(id, p)], w.buckets[BucketKey(id, q)])
    {
      assert BucketOK(now, all, logs, w.buckets, BucketKey(id, p));
      assert BucketOK(now, all, logs, w.buckets, BucketKey(id, q));
      TotalMonotone(ForBucket(now, all, BucketKey(id, p)), ForBucket(now, all, BucketKey(id, q)), logs);
    }
  }

  predicate UserAtMost(a: UserCounts, b: UserCounts)
  {
    && a.username == b.username && a.uploads <= b.uploads && a.downloads <= b.downloads && a.deletes <= b.deletes
    && a.accesses <= b.accesses && a.uploadBytes <= b.uploadBytes && a.downloadBytes <= b.downloadBytes
  }

  lemma UserTotalMonotone(name: Option<string>, p: Log -> bool, q: Log -> bool, logs: seq<Log>)
    requires forall l :: l in logs && p(l) ==> q(l)
    ensures UserAtMost(UserTotal(name, Filter(p, logs)), UserTotal(name, Filter(q, logs)))
  {
    MeasureMonotone(p, q, logs, Put);
    MeasureMonotone(p, q, logs, Get);
    MeasureMonotone(p, q, logs, Delete);
    MeasureMonotone(p, q, logs, Access);
    MeasureMonotone(p, q, logs, UploadBytes);
    MeasureMonotone(p, q, logs, DownloadBytes);
  }

  /** The same for the rows of users and prefixes. */
  lemma UserAndPrefixWindowsNested(now: int, all: Names, names: Names, logs: seq<Log>, t: Tables, p: Period, q: Period)
    requires Correct(now, all, names, logs, t) && Hours(p) <= Hours(q)
    ensures forall user: int, id: int :: UserKey(user, id, p) in t.windows.users ==>
              && UserKey(user, id, q) in t.windows.users
              && UserAtMost(t.windows.users[UserKey(user, id, p)], t.windows.users[UserKey(user, id, q)])
    ensures forall id: int, prefix: string :: PrefixKey(id, prefix, p) in t.windows.prefixes ==>
              && PrefixKey(id, prefix, q) in t.windows.prefixes
              && t.windows.prefixes[PrefixKey(id, prefix, p)] <= t.windows.prefixes[PrefixKey(id, prefix, q)]
  {
    var users, prefixes := t.windows.users, t.windows.prefixes;
    assert PeriodOK(now, all, names, logs, p, t.windows) && PeriodOK(now, all, names, logs, q, t.windows);
    hide Correct, Total, UserTotal, Filter;
    forall user: int, id: int | UserKey(user, id, p) in users
      ensures UserKey(user, id, q) in users && UserAtMost(users[UserKey(user, id, p)], users[UserKey(user, id, q)])
    {
      var k, k' := UserKey(user, id, p), UserKey(user, id, q);
      assert UserOK(now, names, logs, users, k) && UserOK(now, names, logs, users, k');
      TotalMonotone(ForUser(now, k), ForUser(now, k'), logs);
      UserTotalMonotone(NameOf(names, user), ForUser(now, k), ForUser(now, k'), logs);
    }
    forall id: int, prefix: string | PrefixKey(id, prefix, p) in prefixes
      ensures PrefixKey(id, prefix, q) in prefixes
      ensures prefixes[PrefixKey(id, prefix, p)] <= prefixes[PrefixKey(id, prefix, q)]
    {
      var k, k' := PrefixKey(id, prefix, p), PrefixKey(id, prefix, q);
      assert PrefixOK(now, all, logs, prefixes, k) && PrefixOK(now, all, logs, prefixes, k');
      TotalMonotone(ForPrefix(now, all, k), ForPrefix(now, all, k'), logs);
      MeasureMonotone(ForPrefix(now, all, k), ForPrefix(now, all, k'), logs, One);
      CountIsLength(Filter(ForPrefix(now, all, k), logs));
      CountIsLength(Filter(ForPrefix(now, all, k'), logs));
    }
  }

  // ---------------------------------------------------------------------------
  // Accounts, prefixes and owners

  ghost function Rows<K(!new), V>(table: map<K, V>, select: K -> bool): set<K>
  {
    set k | k in table && select(k)
  }

  function WithoutAccount(now: int, p: Period): Log -> bool
  {
    (l: Log) => InWindow(l.at, now, Hours(p)) && l.account.None?
  }

  ghost function OfPeriod(p: Period): AccountKey -> bool
  {
    (k: AccountKey) => k.period == p
  }

  lemma AccountColumn(now: int, all: Names, names: Names, logs: seq<Log>, t: Tables, p: Period, field: Counts -> int,
                      m: Log -> nat)
    requires Correct(now, all, names, logs, t) && Measures(field, m)
    ensures p in t.windows.platform
    ensures Sum(Rows(t.windows.accounts, OfPeriod(p)), Column(t.windows.accounts, field))
            + field(Total(Filter(WithoutAccount(now, p), logs)))
            == field(t.windows.platform[p])
  {
    var accounts := t.windows.accounts;
    assert PeriodOK(now, all, names, logs, p, t.windows);
    hide Correct, Total, Filter, Sum, Measure;
    var mine := Filter(Within(now, p), logs);
    var some := Filter((l: Log) => l.account.Some?, mine);
    var key := (l: Log) => if l.account.Some? then AccountKey(l.account.value, p) else AccountKey(0, p);
    var rows := Rows(accounts, OfPeriod(p));
    forall k: AccountKey | k.period == p
      ensures AccountOK(now, logs, accounts, k)
      ensures Filter(By(key, k), some) == Filter(ForAccount(now, k), logs)
    {
      assert k == AccountKey(k.id, p);
      FilterSame(By(key, k), ForAccount(now, k), some);
      FilterFilter((l: Log) => l.account.Some?, ForAccount(now, k), mine);
      FilterFilter(Within(now, p), ForAccount(now, k), logs);
    }
    forall l | l in some ensures key(l) in rows {
      assert l in Filter(ForAccount(now, key(l)), logs);
    }
    MeasureByGroup(some, key, rows, m);
    SumSame(rows, Column(accounts, field), GroupMeasure(some, key, m));
    MeasureSplit(mine, (l: Log) => l.account.Some?, (l: Log) => l.account.None?, m);
    FilterSame((l: Log) => l.account.None?, WithoutAccount(now, p), mine);
    FilterFilter(Within(now, p), WithoutAccount(now, p), logs);
  }

  /** The account rows of a period add up to the platform row, but for the requests without an account. */
  lemma AccountRowsConserve(now: int, all: Names, names: Names, logs: seq<Log>, t: Tables, p: Period)
    requires Correct(now, all, names, logs, t)
    ensures p in t.windows.platform
    ensures var rows, table := Rows(t.windows.accounts, OfPeriod(p)), t.windows.accounts;
            var total, other := t.windows.platform[p], Total(Filter(WithoutAccount(now, p), logs));
            && Sum(rows, Column(table, (c: Counts) => c.requests)) + other.requests == total.requests
            && Sum(rows, Column(table, (c: Counts) => c.gets)) + other.gets == total.gets
            && Sum(rows, Column(table, (c: Counts) => c.puts)) + other.puts == total.puts
            && Sum(rows, Column(table, (c: Counts) => c.deletes)) + other.deletes == total.deletes
            && Sum(rows, Column(table, (c: Counts) => c.errors)) + other.errors == total.errors
            && Sum(rows, Column(table, (c: Counts) => c.upload)) + other.upload == total.upload
            && Sum(rows, Column(table, (c: Counts) => c.download)) + other.download == total.download
  {
    hide Correct, Filter, Sum, Measure, Rows;
    AccountColumn(now, all, names, logs, t, p, (c: Counts) => c.requests, One);
    AccountColumn(now, all, names, logs, t, p, (c: Counts) => c.gets, Get);
    AccountColumn(now, all, names, logs, t, p, (c: Counts) => c.puts, Put);
    AccountColumn(now, all, names, logs, t, p, (c: Counts) => c.deletes, Delete);
    AccountColumn(now, all, names, logs, t, p, (c: Counts) => c.errors, Failed);
    AccountColumn(now, all, names, logs, t, p, (c: Counts) => c.upload, UploadBytes);
    AccountColumn(now, all, names, logs, t, p, (c: Counts) => c.download, DownloadBytes);
  }

  /** The log names a bucket there is. */
  ghost predicate Known(all: Names, l: Log)
  {
    exists b: int :: OfBucket(all, b, l)
  }

  ghost function WithoutBucket(now: int, all: Names, p: Period): Log -> bool
  {
    (l: Log) => InWindow(l.at, now, Hours(p)) && !Known(all, l)
  }

  ghost function WithBucket(all: Names): Log -> bool
  {
    (l: Log) => Known(all, l)
  }

  ghost function BucketOf(all: Names, l: Log): int
  {
    if Known(all, l) then var b: int :| OfBucket(all, b, l); b else 0
  }

  ghost function BucketRow(all: Names, p: Period): Log -> BucketKey
  {
    (l: Log) => BucketKey(BucketOf(all, l), p)
  }

  ghost function BucketsOfPeriod(p: Period): BucketKey -> bool
  {
    (k: BucketKey) => k.period == p
  }

  lemma BucketLogs(now: int, all: Names, logs: seq<Log>, k: BucketKey)
    requires Unique(all)
    ensures Filter(By(BucketRow(all, k.period), k), Filter(WithBucket(all), Filter(Within(now, k.period), logs))) ==
            Filter(ForBucket(now, all, k), logs)
  {
    var mine := Filter(Within(now, k.period), logs);
    forall l | l in Filter(WithBucket(all), mine)
      ensures By(BucketRow(all, k.period), k)(l) == ForBucket(now, all, k)(l)
    {
      assert OfBucket(all, BucketOf(all, l), l);
    }
    FilterSame(By(BucketRow(all, k.period), k), ForBucket(now, all, k), Filter(WithBucket(all), mine));
    FilterFilter(WithBucket(all), ForBucket(now, all, k), mine);
    FilterFilter(Within(now, k.period), ForBucket(now, all, k), logs);
  }

  lemma BucketColumn(now: int, all: Names, names: Names, logs: seq<Log>, t: Tables, p: Period, field: Counts -> int,
                     m: Log -> nat)
    requires Correct(now, all, names, logs, t) && Measures(field, m) && Unique(all)
    ensures p in t.windows.platform
    ensures Sum(Rows(t.windows.buckets, BucketsOfPeriod(p)), Column(t.windows.buckets, field))
            + field(Total(Filter(WithoutBucket(now, all, p), logs)))
            == field(t.windows.platform[p])
  {
    var buckets := t.windows.buckets;
    assert PeriodOK(now, all, names, logs, p, t.windows);
    hide Correct, Total, Filter, Sum, Measure;
    var mine := Filter(Within(now, p), logs);
    var some, none := Filter(WithBucket(all), mine), (l: Log) => !Known(all, l);
    var rows := Rows(buckets, BucketsOfPeriod(p));
    forall k: BucketKey | k.period == p
      ensures BucketOK(now, all, logs, buckets, k)
      ensures Filter(By(BucketRow(all, p), k), some) == Filter(ForBucket(now, all, k), logs)
    {
      assert k == BucketKey(k.id, p);
      BucketLogs(now, all, logs, k);
    }
    forall l | l in some ensures BucketRow(all, p)(l) in rows {
      assert l in Filter(By(BucketRow(all, p), BucketRow(all, p)(l)), some);
    }
    MeasureByGroup(some, BucketRow(all, p), rows, m);
    SumSame(rows, Column(buckets, field), GroupMeasure(some, BucketRow(all, p), m));
    MeasureSplit(mine, WithBucket(all), none, m);
    FilterSame(none, WithoutBucket(now, all, p), mine);
    FilterFilter(Within(now, p), WithoutBucket(now, all, p), logs);
  }

  /** The bucket rows of a period, in the columns they have, and the requests of no known bucket add up to the
      platform row. */
  lemma BucketRowsConserve(now: int, all: Names, names: Names, logs: seq<Log>, t: Tables, p: Period)
    requires Correct(now, all, names, logs, t) && Unique(all)
    ensures p in t.windows.platform
    ensures var rows, table := Rows(t.windows.buckets, BucketsOfPeriod(p)), t.windows.buckets;
            var total, other := t.windows.platform[p], Total(Filter(WithoutBucket(now, all, p), logs));
            && Sum(rows, Column(table, (c: Counts) => c.requests)) + other.requests == total.requests
            && Sum(rows, Column(table, (c: Counts) => c.gets)) + other.gets == total.gets
            && Sum(rows, Column(table, (c: Counts) => c.puts)) + other.puts == total.puts
            && Sum(rows, Column(table, (c: Counts) => c.deletes)) + other.deletes == total.deletes
            && Sum(rows, Column(table, (c: Counts) => c.upload)) + other.upload == total.upload
            && Sum(rows, Column(table, (c: Counts) => c.download)) + other.download == total.download
  {
    hide Correct, Filter, Sum, Measure, Rows;
    BucketColumn(now, all, names, logs, t, p, (c: Counts) => c.requests, One);
    BucketColumn(now, all, names, logs, t, p, (c: Counts) => c.gets, Get);
    BucketColumn(now, all, names, logs, t, p, (c: Counts) => c.puts, Put);
    BucketColumn(now, all, names, logs, t, p, (c: Counts) => c.deletes, Delete);
    BucketColumn(now, all, names, logs, t, p, (c: Counts) => c.upload, UploadBytes);
    BucketColumn(now, all, names, logs, t, p, (c: Counts) => c.download, DownloadBytes);
  }

  lemma {:induction false} CountIsLength(logs: seq<Log>)
    ensures Measure(logs, One) == |logs|
  {
    if logs == [] {
    } else {
      CountIsLength(logs[..|logs| - 1]);
    }
  }

  /** The prefix rows of a bucket and period add up to its keyed gets and puts. */
  lemma PrefixRowsConserve(now: int, all: Names, names: Names, logs: seq<Log>, t: Tables, b: int, p: Period)
    requires Correct(now, all, names, logs, t)
    ensures Sum(Rows(t.windows.prefixes, (k: PrefixKey) => k.bucket == b && k.period == p),
                Column(t.windows.prefixes, (n: nat) => n))
            == |Filter((l: Log) => Within(now, p)(l) && KeyedAccess(all, b, l), logs)|
  {
    var table := t.windows.prefixes;
    assert PeriodOK(now, all, names, logs, p, t.windows);
    var keyed := (l: Log) => Within(now, p)(l) && KeyedAccess(all, b, l);
    var mine := Filter(keyed, logs);
    var key := (l: Log) => PrefixKey(b, if l.key.Some? then FirstLevelPrefix(l.key.value) else "", p);
    var rows := Rows(table, (k: PrefixKey) => k.bucket == b && k.period == p);
    forall k: PrefixKey | k.bucket == b && k.period == p ensures PrefixOK(now, all, logs, table, k) {
      assert k == PrefixKey(b, k.prefix, p);
    }
    forall k: PrefixKey | k.bucket == b && k.period == p
      ensures Filter(By(key, k), mine) == Filter(ForPrefix(now, all, k), logs)
    {
      FilterSame(By(key, k), ForPrefix(now, all, k), mine);
      FilterFilter(keyed, ForPrefix(now, all, k), logs);
    }
    forall l | l in mine ensures key(l) in rows {
      assert l in Filter(ForPrefix(now, all, key(l)), logs);
    }
    MeasureByGroup(mine, key, rows, One);
    forall k | k in rows ensures Column(table, (n: nat) => n)(k) == GroupMeasure(mine, key, One)(k) {
      CountIsLength(Filter(By(key, k), mine));
    }
    SumSame(rows, Column(table, (n: nat) => n), GroupMeasure(mine, key, One));
    CountIsLength(mine);
  }

  /** A bucket's rows are attributed to an account exactly when the keyed gets and puts name that one only. */
  lemma OwnerIsTheOnlyAccount(now: int, all: Names, names: Names, logs: seq<Log>, t: Tables, b: int, account: int)
    requires Correct(now, all, names, logs, t)
    ensures (b in t.owners && t.owners[b] == Some(account)) <==>
              Accounts(Filter(ForOwner(now, all, b), logs)) == {account}
  {
    var known := Accounts(Filter(ForOwner(now, all, b), logs));
    assert Attributed(t.owners, b, known);
    if known == {account} {
      assert account in known;
    }
  }

  // ---------------------------------------------------------------------------
  // Order

  lemma {:induction false} FilterMultiset(keep: Log -> bool, logs: seq<Log>, l: Log)
    ensures multiset(Filter(keep, logs))[l] == if keep(l) then multiset(logs)[l] else 0
  {
    if logs == [] {
    } else {
      FilterMultiset(keep, logs[1..], l);
      assert logs == [logs[0]] + logs[1..];
    }
  }

  lemma FilterPermutes(keep: Log -> bool, a: seq<Log>, b: seq<Log>)
    requires multiset(a) == multiset(b)
    ensures multiset(Filter(keep, a)) == multiset(Filter(keep, b))
  {
    forall l: Log ensures multiset(Filter(keep, a))[l] == multiset(Filter(keep, b))[l] {
      FilterMultiset(keep, a, l);
      FilterMultiset(keep, b, l);
    }
  }

  lemma Cancel(x: multiset<Log>, y: multiset<Log>, z: multiset<Log>, l: Log)
    requires x + multiset{l} == y + (multiset{l} + z)
    ensures x == y + z
  {
    forall k: Log ensures x[k] == (y + z)[k] {
      assert (x + multiset{l})[k] == (y + (multiset{l} + z))[k];
    }
  }

  lemma {:induction false} MeasurePermutes(a: seq<Log>, b: seq<Log>, m: Log -> nat)
    requires multiset(a) == multiset(b)
    ensures Measure(a, m) == Measure(b, m)
    decreases |a|
  {
    if a == [] {
      assert |multiset(b)| == 0;
    } else {
      var front, l := a[..|a| - 1], a[|a| - 1];
      assert a == front + [l];
      assert l in multiset(b);
      var i :| 0 <= i < |b| && b[i] == l;
      assert b == b[..i] + ([l] + b[i + 1..]);
      assert multiset(a) == multiset(front) + multiset{l};
      assert multiset(b) == multiset(b[..i]) + (multiset{l} + multiset(b[i + 1..]));
      Cancel(multiset(front), multiset(b[..i]), multiset(b[i + 1..]), l);
      MeasurePermutes(front, b[..i] + b[i + 1..], m);
      MeasureConcat(b[..i], b[i + 1..], m);
      MeasureConcat(b[..i], [l] + b[i + 1..], m);
      MeasureConcat([l], b[i + 1..], m);
    }
  }

  /** What any table row depends on: not on the order of its logs. */
  lemma TotalPermutes(keep: Log -> bool, a: seq<Log>, b: seq<Log>)
    requires multiset(a) == multiset(b)
    ensures Total(Filter(keep, a)) == Total(Filter(keep, b))
    ensures forall name :: UserTotal(name, Filter(keep, a)) == UserTotal(name, Filter(keep, b))
    ensures |Filter(keep, a)| == |Filter(keep, b)|
    ensures Accounts(Filter(keep, a)) == Accounts(Filter(keep, b))
  {
    var a', b' := Filter(keep, a), Filter(keep, b);
    FilterPermutes(keep, a, b);
    assert |a'| == |multiset(a')| && |b'| == |multiset(b')|;
    assert forall l: Log :: l in a' <==> l in multiset(a');
    assert forall l: Log :: l in b' <==> l in multiset(b');
    MeasurePermutes(a', b', UploadBytes);
    MeasurePermutes(a', b', DownloadBytes);
    MeasurePermutes(a', b', One);
    MeasurePermutes(a', b', Get);
    MeasurePermutes(a', b', Put);
    MeasurePermutes(a', b', Delete);
    MeasurePermutes(a', b', Failed);
    MeasurePermutes(a', b', Access);
  }

  /** Two runs over the same audit rows in any two orders, whatever order each takes the periods in, end with the
      same tables. */
  lemma OrderDoesNotMatter(now: int, since: int, all: Names, names: Names, audit: seq<Log>, audit': seq<Log>, t: Tables,
                           t': Tables)
    requires multiset(audit) == multiset(audit')
    requires Correct(now, all, names, Requests(since, audit), t)
    requires Correct(now, all, names, Requests(since, audit'), t')
    ensures t == t'
  {
    FilterPermutes(Loaded(since), audit, audit');
    FilterPermutes(Request(), Filter(Loaded(since), audit), Filter(Loaded(since), audit'));
    var a, b := Requests(since, audit), Requests(since, audit');
    SameWindows(now, all, names, a, b, t, t');
    forall day: int
      ensures (day in t.daily <==> day in t'.daily) && (day in t.daily ==> t.daily[day] == t'.daily[day])
    {
      assert DayOK(now, a, t.daily, day) && DayOK(now, b, t'.daily, day);
      TotalPermutes(OnDay(now, day), a, b);
    }
    assert t.daily == t'.daily;
    forall x: int ensures (x in t.owners <==> x in t'.owners) && (x in t.owners ==> t.owners[x] == t'.owners[x]) {
      SameOwner(now, all, a, b, t.owners, t'.owners, x);
    }
    assert t.owners == t'.owners;
  }

  lemma SameOwner(now: int, all: Names, a: seq<Log>, b: seq<Log>, owners: map<int, Option<int>>,
                  owners': map<int, Option<int>>, x: int)
    requires multiset(a) == multiset(b) && OwnersOK(now, all, a, owners) && OwnersOK(now, all, b, owners')
    ensures (x in owners <==> x in owners') && (x in owners ==> owners[x] == owners'[x])
  {
    var known := Accounts(Filter(ForOwner(now, all, x), a));
    TotalPermutes(ForOwner(now, all, x), a, b);
    assert Attributed(owners, x, known) && Attributed(owners', x, known);
    if x in owners && owners[x].Some? {
      assert owners[x].value in known;
    }
    if x in owners' && owners'[x].Some? {
      assert owners'[x].value in known;
    }
  }

  lemma SameWindows(now: int, all: Names, names: Names, a: seq<Log>, b: seq<Log>, t: Tables, t': Tables)
    requires multiset(a) == multiset(b)
    requires Correct(now, all, names, a, t) && Correct(now, all, names, b, t')
    ensures t.windows == t'.windows
  {
    var w, w' := t.windows, t'.windows;
    forall p: Period ensures PeriodOK(now, all, names, a, p, w) && PeriodOK(now, all, names, b, p, w') {
    }
    hide Correct, Total, UserTotal, Filter;
    forall p: Period ensures p in w.platform && p in w'.platform && w.platform[p] == w'.platform[p] {
      assert PeriodOK(now, all, names, a, p, w) && PeriodOK(now, all, names, b, p, w');
      TotalPermutes(Within(now, p), a, b);
    }
    assert w.platform == w'.platform;
    forall k: AccountKey
      ensures (k in w.accounts <==> k in w'.accounts) && (k in w.accounts ==> w.accounts[k] == w'.accounts[k])
    {
      assert PeriodOK(now, all, names, a, k.period, w) && PeriodOK(now, all, names, b, k.period, w');
      assert k == AccountKey(k.id, k.period);
      TotalPermutes(ForAccount(now, k), a, b);
    }
    assert w.accounts == w'.accounts;
    forall k: BucketKey
      ensures (k in w.buckets <==> k in w'.buckets) && (k in w.buckets ==> w.buckets[k] == w'.buckets[k])
    {
      assert PeriodOK(now, all, names, a, k.period, w) && PeriodOK(now, all, names, b, k.period, w');
      assert k == BucketKey(k.id, k.period);
      TotalPermutes(ForBucket(now, all, k), a, b);
    }
    assert w.buckets == w'.buckets;
    forall k: UserKey ensures (k in w.users <==> k in w'.users) && (k in w.users ==> w.users[k] == w'.users[k]) {
      assert PeriodOK(now, all, names, a, k.period, w) && PeriodOK(now, all, names, b, k.period, w');
      assert k == UserKey(k.user, k.account, k.period);
      TotalPermutes(ForUser(now, k), a, b);
    }
    assert w.users == w'.users;
    forall k: PrefixKey
      ensures (k in w.prefixes <==> k in w'.prefixes) && (k in w.prefixes ==> w.prefixes[k] == w'.prefixes[k])
    {
      assert PeriodOK(now, all, names, a, k.period, w) && PeriodOK(now, all, names, b, k.period, w');
      assert k == PrefixKey(k.bucket, k.prefix, k.period);
      TotalPermutes(ForPrefix(now, all, k), a, b);
    }
    assert w.prefixes == w'.prefixes;
  }
}
