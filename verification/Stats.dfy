/** Audit logs, the counters kept over them, and what every statistics table has to hold. */
module Stats {
  import opened Text
  import opened Keys

  /** One audit row joined with the size of its object. Times are in nanoseconds. */
  datatype Log = Log(user: Option<int>, account: Option<int>, bucket: Option<string>, key: Option<string>,
                     action: string, status: string, at: int, size: nat)

  const HOUR: int := 3_600_000_000_000
  const DAY: int := 24 * HOUR
  const DAILY_ROLLUP_DAYS := 30

  datatype Period = H24 | D7 | D30

  function Hours(p: Period): int
  {
    match p case H24 => 24 case D7 => 168 case D30 => 720
  }

  const PUT_ACTIONS := {"upload"}
  const GET_ACTIONS := {"download", "preview", "version_download", "share_access"}
  const DELETE_ACTIONS := {"delete", "purge", "version_delete"}
  const EXCLUDED_ACTIONS := {"login_failed", "password_change"}
  const ADMIN_ACTIONS := {
    "user_create", "user_delete", "user_update", "modify_user_role",
    "create_tenant", "delete_tenant", "disable_tenant", "enable_tenant", "update_tenant",
    "modify_quota", "bucket_create", "bucket_import", "bucket_delete", "modify_bucket",
    "modify_bucket_quota", "modify_access_logging", "modify_bucket_policy", "modify_bucket_cors",
    "modify_permission", "modify_lifecycle", "force_unlock_file",
    "restart_rgw", "rolling_restart_rgw", "update_system_settings",
    "request_tenant_api_access", "approve_tenant_api_access", "reject_tenant_api_access",
    "disable_tenant_api_access", "create_application", "update_application", "delete_application",
    "create_access_key", "disable_access_key", "issue_sts_credentials"
  }

  predicate IsObjectRequest(action: string)
  {
    action !in ADMIN_ACTIONS && action !in EXCLUDED_ACTIONS
  }

  predicate InWindow(at: int, now: int, hours: int)
  {
    at >= now - hours * HOUR
  }

  function FirstLevelPrefix(key: string): string
  {
    if key == "" || TRASH_PREFIX <= key then "" else FirstLevel(key)
  }

  /** Days are counted in UTC from the epoch. */
  function Day(at: int): int
  {
    at / DAY
  }

  function DayCut(now: int): int
  {
    Day(now - DAILY_ROLLUP_DAYS * DAY)
  }

  // ---------------------------------------------------------------------------
  // Counters

  datatype Counts = Counts(upload: nat, download: nat, requests: nat, gets: nat, puts: nat, deletes: nat,
                             errors: nat, active: set<int>)
  datatype UserCounts = UserCounts(username: Option<string>, uploads: nat, downloads: nat, deletes: nat,
                                     accesses: nat, uploadBytes: nat, downloadBytes: nat)

  const ZERO := Counts(0, 0, 0, 0, 0, 0, 0, {})

  /** The sum of a measure over logs. */
  function Measure(logs: seq<Log>, g: Log -> nat): nat
  {
    if logs == [] then 0 else Measure(logs[..|logs| - 1], g) + g(logs[|logs| - 1])
  }

  predicate IsPut(l: Log) { l.action in PUT_ACTIONS }
  predicate IsGet(l: Log) { l.action in GET_ACTIONS }
  predicate IsDelete(l: Log) { l.action in DELETE_ACTIONS }

  function One(l: Log): nat { 1 }
  function Put(l: Log): nat { if IsPut(l) then 1 else 0 }
  function Get(l: Log): nat { if IsGet(l) then 1 else 0 }
  function Delete(l: Log): nat { if IsDelete(l) then 1 else 0 }
  function Failed(l: Log): nat { if l.status != "success" then 1 else 0 }
  function UploadBytes(l: Log): nat { if IsPut(l) then l.size else 0 }
  function DownloadBytes(l: Log): nat { if IsGet(l) then l.size else 0 }
  function Access(l: Log): nat { if l.key.Some? && l.key.value != "" && (IsPut(l) || IsGet(l)) then 1 else 0 }

  function ActiveUsers(logs: seq<Log>): set<int>
  {
    set l | l in logs && l.user.Some? :: l.user.value
  }

  function Total(logs: seq<Log>): Counts
  {
    Counts(Measure(logs, UploadBytes), Measure(logs, DownloadBytes), Measure(logs, One), Measure(logs, Get),
            Measure(logs, Put), Measure(logs, Delete), Measure(logs, Failed), ActiveUsers(logs))
  }

  function UserTotal(name: Option<string>, logs: seq<Log>): UserCounts
  {
    UserCounts(name, Measure(logs, Put), Measure(logs, Get), Measure(logs, Delete), Measure(logs, Access),
                Measure(logs, UploadBytes), Measure(logs, DownloadBytes))
  }

  // ---------------------------------------------------------------------------
  // Tables

  datatype AccountKey = AccountKey(id: int, period: Period)
  datatype BucketKey = BucketKey(id: int, period: Period)
  datatype UserKey = UserKey(user: int, account: int, period: Period)
  datatype PrefixKey = PrefixKey(bucket: int, prefix: string, period: Period)

  datatype Windows = Windows(platform: map<Period, Counts>, accounts: map<AccountKey, Counts>,
                             buckets: map<BucketKey, Counts>, users: map<UserKey, UserCounts>,
                             prefixes: map<PrefixKey, nat>)

  /** All tables; `owners` is the account a bucket's and a prefix's rows are attributed to. */
  datatype Tables = Tables(windows: Windows, daily: map<int, Counts>, owners: map<int, Option<int>>)

  type Names = map<int, string>

  ghost predicate Unique(buckets: Names)
  {
    forall a, b :: a in buckets && b in buckets && buckets[a] == buckets[b] ==> a == b
  }

  predicate OfBucket(buckets: Names, b: int, l: Log)
  {
    l.bucket.Some? && b in buckets && buckets[b] == l.bucket.value
  }

  predicate KeyedAccess(buckets: Names, b: int, l: Log)
  {
    OfBucket(buckets, b, l) && l.key.Some? && (IsPut(l) || IsGet(l))
  }

  function NameOf(names: Names, user: int): Option<string>
  {
    if user in names then Some(names[user]) else None
  }

  /** Which logs a row is about. */
  function Within(now: int, p: Period): Log -> bool
  {
    (l: Log) => InWindow(l.at, now, Hours(p))
  }

  function ForAccount(now: int, k: AccountKey): Log -> bool
  {
    (l: Log) => InWindow(l.at, now, Hours(k.period)) && l.account == Some(k.id)
  }

  function ForBucket(now: int, buckets: Names, k: BucketKey): Log -> bool
  {
    (l: Log) => InWindow(l.at, now, Hours(k.period)) && OfBucket(buckets, k.id, l)
  }

  function ForUser(now: int, k: UserKey): Log -> bool
  {
    (l: Log) => InWindow(l.at, now, Hours(k.period)) && l.account == Some(k.account) && l.user == Some(k.user)
  }

  function ForPrefix(now: int, buckets: Names, k: PrefixKey): Log -> bool
  {
    (l: Log) => && InWindow(l.at, now, Hours(k.period)) && KeyedAccess(buckets, k.bucket, l)
                && FirstLevelPrefix(l.key.value) == k.prefix
  }

  function OnDay(now: int, day: int): Log -> bool
  {
    (l: Log) => Day(l.at) == day && day >= DayCut(now)
  }

  function ForOwner(now: int, buckets: Names, b: int): Log -> bool
  {
    (l: Log) => InWindow(l.at, now, Hours(D30)) && KeyedAccess(buckets, b, l)
  }

  /** A table has a row for a key exactly when some log is about it. */
  ghost predicate Tally<K(!new), V(!new)>(table: map<K, V>, k: K, logs: seq<Log>, value: V)
  {
    && (k in table <==> logs != [])
    && (k in table ==> table[k] == value)
  }

  ghost predicate PeriodOK(now: int, buckets: Names, names: Names, logs: seq<Log>, p: Period, w: Windows)
  {
    && PlatformOK(now, logs, p, w.platform) && AccountsOK(now, logs, p, w.accounts)
    && BucketsOK(now, buckets, logs, p, w.buckets) && UsersOK(now, names, logs, p, w.users)
    && PrefixesOK(now, buckets, logs, p, w.prefixes)
  }

  ghost predicate PlatformOK(now: int, logs: seq<Log>, p: Period, m: map<Period, Counts>)
  {
    p in m && m[p] == Total(Filter(Within(now, p), logs))
  }

  ghost predicate AccountsOK(now: int, logs: seq<Log>, p: Period, m: map<AccountKey, Counts>)
  {
    forall id: int :: AccountOK(now, logs, m, AccountKey(id, p))
  }

  ghost predicate BucketsOK(now: int, buckets: Names, logs: seq<Log>, p: Period, m: map<BucketKey, Counts>)
  {
    forall id: int :: BucketOK(now, buckets, logs, m, BucketKey(id, p))
  }

  ghost predicate UsersOK(now: int, names: Names, logs: seq<Log>, p: Period, m: map<UserKey, UserCounts>)
  {
    forall user: int, id: int :: UserOK(now, names, logs, m, UserKey(user, id, p))
  }

  ghost predicate PrefixesOK(now: int, buckets: Names, logs: seq<Log>, p: Period, m: map<PrefixKey, nat>)
  {
    forall id: int, prefix: string :: PrefixOK(now, buckets, logs, m, PrefixKey(id, prefix, p))
  }

  ghost predicate AccountOK(now: int, logs: seq<Log>, m: map<AccountKey, Counts>, k: AccountKey)
  {
    var mine := Filter(ForAccount(now, k), logs);
    Tally(m, k, mine, Total(mine))
  }

  ghost predicate BucketOK(now: int, buckets: Names, logs: seq<Log>, m: map<BucketKey, Counts>, k: BucketKey)
  {
    var mine := Filter(ForBucket(now, buckets, k), logs);
    Tally(m, k, mine, Total(mine))
  }

  ghost predicate UserOK(now: int, names: Names, logs: seq<Log>, m: map<UserKey, UserCounts>, k: UserKey)
  {
    var mine := Filter(ForUser(now, k), logs);
    Tally(m, k, mine, UserTotal(NameOf(names, k.user), mine))
  }

  ghost predicate PrefixOK(now: int, buckets: Names, logs: seq<Log>, m: map<PrefixKey, nat>, k: PrefixKey)
  {
    var mine := Filter(ForPrefix(now, buckets, k), logs);
    Tally(m, k, mine, |mine|)
  }

  ghost predicate DailyOK(now: int, logs: seq<Log>, daily: map<int, Counts>)
  {
    forall day: int :: DayOK(now, logs, daily, day)
  }

  ghost predicate DayOK(now: int, logs: seq<Log>, daily: map<int, Counts>, day: int)
  {
    var mine := Filter(OnDay(now, day), logs);
    Tally(daily, day, mine, Total(mine))
  }

  function Accounts(logs: seq<Log>): set<int>
  {
    set l | l in logs && l.account.Some? :: l.account.value
  }

  /** A bucket has no owner without accounts, one when they are a single value, and null otherwise. */
  ghost predicate Attributed(owners: map<int, Option<int>>, b: int, accounts: set<int>)
  {
    && (b in owners <==> accounts != {})
    && (b in owners && owners[b].Some? ==> accounts == {owners[b].value})
    && (b in owners && owners[b].None? ==> exists x, y :: x in accounts && y in accounts && x != y)
  }

  ghost predicate OwnersOK(now: int, buckets: Names, logs: seq<Log>, owners: map<int, Option<int>>)
  {
    forall b: int :: Attributed(owners, b, Accounts(Filter(ForOwner(now, buckets, b), logs)))
  }

  /** What the tables have to hold over the object requests `logs`. */
  ghost predicate Correct(now: int, buckets: Names, names: Names, logs: seq<Log>, t: Tables)
  {
    && (forall p: Period :: PeriodOK(now, buckets, names, logs, p, t.windows))
    && DailyOK(now, logs, t.daily)
    && OwnersOK(now, buckets, logs, t.owners)
  }

  /** The logs that count: loaded since a bound, and about objects. The bound asked for is 30 days ago; the one
      the query applies may be rounded to the resolution of the database. */
  function Loaded(since: int): Log -> bool
  {
    (l: Log) => l.at >= since
  }

  function Request(): Log -> bool
  {
    (l: Log) => IsObjectRequest(l.action)
  }

  function Requests(since: int, audit: seq<Log>): seq<Log>
  {
    Filter(Request(), Filter(Loaded(since), audit))
  }

  /** Before the 30-day window, yet on one of the days that get a row. */
  function Early(now: int): Log -> bool
  {
    (l: Log) => !InWindow(l.at, now, Hours(D30)) && Day(l.at) >= DayCut(now)
  }
}
