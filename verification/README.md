# Verified model of the tenant API's cores

This project models the stateful and algorithmic cores of the OSSPilot tenant API, a Go service that puts
buckets, permissions, file editing, versions and statistics on top of an S3 store and a PostgreSQL database, and
proves what those cores are for. Tables and storage are in-memory maps and sequences; one SQL statement or one
storage call is one step.

- `Keys`, `Listing`, `Paging`: reserved keys, LIKE patterns, the delimiter fold, and following page tokens.
- `LockTable`, `LockRefinement`, `LockStore`: the lock table, its handlers at one clock reading, and the map of
  holders they implement.
- `LockProtocol`, `LockSafety`: locks, sessions and the save gate, interleaved statement by statement;
  `LockHandlers` ties the two lock models together, `LockSessions` says what each request achieves on its own, and
  `LockGate` shows what the gate does not give.
- `Objects`, `ObjectLaws`, `DeleteKeys`: trash-delete, copy, move, restore and purge with failures at every call,
  the `object_records` index, usage, and the expansion of directory keys.
- `Rbac`, `RbacTables`, `BucketAccess`, `TableAccess`: the decision over rules, the rules loaded from the tables,
  what creators and creator-scoped users see, and access read off the tables.
- `VersionKeys`, `Versions`, `VersionStore`: storage keys of versions, archive, save, restore and remove.
- `Stats`, `StatsAggregate`, `StatsLaws`: the request statistics and what holds between their tables.
- `ShareLinks`, `ShareProtocol`: share links, and accesses racing with revokes.
- `Text`, `Sums`: byte strings, filtering, and sums over finite sets.

A class has the fields the source updates in place; its methods are proved against functions on values, and the
laws are lemmas about those functions. Calls that may fail take a `Fault`: they end as asked, fail before their
effect, or fail after it.

Assumptions. A `char` is one byte and keys compare byte by byte. The table does not change between two pages. A
storage copy preserves body, etag and content type, and takes the key of its source literally (the client passes
it unencoded, internal/storage/client.go:349). Storage keys of nested objects hold `%2F`, so on a storage that decodes
the copy source the version would not be found: `Versions.RestoreUndoesRestore` and `VersionStore.Store.Restore` rest
on this assumption. Tokens are fresh. The clock never runs backwards, and session expiry
reads the same clock as the locks. Lock rows are in the order of their ids, which is the order of `locked_at`. The
transaction of `MoveKey` is one step. Bucket names are unique and hold no slash. Object sizes are not negative.

What a reader might not expect of the code:

- Adding a permission rule can take a permission away (`Rbac.AddingARule`, `Rbac.AddingARuleRevokes`).
- The bucket list of a creator-scoped user omits readable buckets of others (`BucketAccess.ListMisses`), and such a
  user may have admin at a place without being able to read there (`BucketAccess.AdminWithoutRead`).
- Moving a key onto itself is not refused, and deletes the object when the store accepts the self-copy
  (`Objects.World.ApplyMove`, `ObjectLaws.SelfMoveExample`).
- A request logged just before the 30-day window may be counted in a daily row and not in the 30-day row, when the
  database rounds the loading bound down (`StatsLaws.DailyRowsConserve`, `StatsLaws.EarlyRequestExample`).
- A trash-delete overwrites an earlier trash copy of the same key (`ObjectLaws.SecondTrashDrops`,
  `ObjectLaws.TrashTwiceExample`).
- A shared URL may work after its link has expired, when signing takes longer than the link has to spare
  (`ShareProtocol.OutlivesExactly`, `ShareProtocol.OutlivesOnce`); an access counted by the database may fail for
  its caller (`ShareProtocol.AccessesAreBounded`, `ShareProtocol.CountedAccessFails`).
- A save past the gate may write after another user's save has passed it too (`LockGate.BothPastTheGate`).

## Model

| member | source | states |
|---|---|---|
| Keys.LikePrefixIsPrefix | internal/objects/list.go:192-195 | for all strings, LIKE with escape `\` (section 9.7.1 of the PostgreSQL manual) on the built pattern selects exactly the strings with that prefix, metacharacters included |
| Keys.PercentExactly | internal/objects/list.go:192-195 | `%` stands for any text, so a pattern that begins with it selects the strings with a suffix that the rest selects |
| Keys.CharacterExactly | internal/objects/list.go:192-195 | `_` stands for any one character, the escape takes the next one literally, all others stand for themselves, and the empty pattern for the empty string |
| Keys.SqlVisibleIsNotHidden | internal/objects/store.go:47-60 | the four SQL conditions on reserved areas select exactly the keys that are not hidden |
| Keys.TrashKeyRoundTrip | internal/objects/key.go:25-38 | trash keys and original keys convert back and forth; a trash key is never a user key nor a version key |
| Keys.DirectoryChildIsValid | internal/objects/key.go:18-42 | whatever is stored under a valid directory key is itself a valid user key |
| Keys.ValidUserKeyExactly | internal/objects/key.go:18-24 | a user key is anything but the empty string, the two reserved names and what lies inside the reserved areas |
| Keys.IsDirectoryKeyExactly | internal/objects/key.go:40-42 | a directory key ends in a slash and holds another character |
| Keys.FirstLevelExactly | internal/stats/request.go:50-59 | the first level is `name/` for the keys that begin with it and a slash-free name, and "" for keys without a slash |
| Listing.ClassifyMeaning | internal/objects/list.go:145-182 | a row is an item, a folder or nothing exactly as a delimiter listing promises |
| Listing.FoldList | internal/objects/list.go:135-190 | the loop over rows, with its early exit and its token, builds the page of the fold |
| Listing.RemembersFolder | internal/objects/list.go:158-174 | comparing with the previous folder only is enough: sorted rows of one folder are contiguous |
| Listing.PageFacts | internal/objects/list.go:135-190 | a page lists exactly the rows it used, in order, without a prefix twice, within the limit, and stops early only at a row that needs one more entry than the page may hold |
| Paging.Folded | internal/objects/store.go:20-45 | one call clamps the page size, scans at most the cap after the token, and folds |
| Paging.TokenAdvances | internal/objects/store.go:20-45 | a truncated page and only that gives a token; the token is strictly greater than the one before and resumes right behind the rows used, so paging ends |
| Paging.PagingComplete | internal/objects/list.go:135-190 | following the tokens to the end, with any page size at each token, lists every live direct child exactly once in order, and exactly the first-level common prefixes |
| Paging.PagingProgress | internal/objects/store.go:20-37 | each page but the last hands its token to the next one, strictly increasing, and no page is longer than the clamped limit asked for |
| Paging.PrefixRepeatsOnlyAtScanCap | internal/objects/store.go:28-37 | a prefix is listed on two pages only when the scan cap, never the page size, cut the earlier one |
| LockTable.SelectUnique | internal/edit/store.go:109-125 | under the partial unique index the live lock found is the only one |
| LockStore.Store.ExpireLocks | internal/edit/store.go:93-99 | releases exactly the expired active rows of the object, leaves every other row, and takes no live lock away |
| LockStore.Store.ActiveLock | internal/edit/store.go:109-125 | finds the live lock of the object with its owner, token and expiry; when there is none, no active row of the object is left |
| LockStore.Store.InsertLock | internal/edit/store.go:127-142 | refused exactly when an active row exists, even an expired one; otherwise the object has the new holder and all other holders stay |
| LockStore.Store.RefreshLock | internal/edit/store.go:144-155 | extends one row and replaces its token only when one is given; owner, status and all other rows stay, and the unique index holds |
| LockStore.Store.ReleaseLock | internal/edit/store.go:157-163 | ends one row and changes nothing else; if the row was live, exactly its object loses its holder |
| LockStore.Store.Acquire | internal/edit/handler.go:144-189 | at one clock reading: refresh one's own lock, insert a free one, or report another's as read-only; on the map of holders this is one acquire |
| LockStore.Store.LockRefresh | internal/edit/locks.go:54-95 | a lease is extended exactly for owner and token of the live lock; the answer tells a missing token, no lock, a refusal or the extended lock apart |
| LockStore.Store.ReleaseOwned | internal/edit/handler.go:191-209 | removes the holder exactly when the caller owns the live lock, with its token where one is given, and otherwise changes no holder |
| LockStore.Store.ForceRelease | internal/edit/store.go:176-190 | removes whatever holder there is, closes every session on the object, and tells whether there was one |
| LockTable.HeldLookup | internal/edit/store.go:109-125 | the abstract map has an object exactly when a live row has it, with owner, token and expiry of that row |
| LockRefinement.AcquireRefines | internal/edit/handler.go:144-189 | acquire on rows is acquire on the map: same answer, same holders after |
| LockRefinement.RefreshRefines | internal/edit/locks.go:54-95 | refresh on rows is refresh on the map: only owner and token of a live lock extend it |
| LockRefinement.ReleaseRefines | internal/edit/handler.go:191-209 | release on rows removes the holder from the map, or is refused, exactly as on the map |
| LockRefinement.ForceRefines | internal/edit/store.go:176-190 | force-release on rows removes the holder from the map, whoever it is |
| LockRefinement.TimeRefines | internal/edit/store.go:93-99 | time alone drops exactly the holders whose lease ran out |
| LockRefinement.RunRefines | internal/edit/handler.go:144-209 | over any run, the table with its whole history stands for the map the operations compute |
| LockRefinement.IdleHolderNeverBlocks | internal/edit/store.go:109-155 | after any history, a user idle on an object for the full lease holds it no more, so no other user's acquire is refused because of that user |
| LockHandlers.AcquireAlone | internal/edit/handler.go:144-189 | the statements of an acquire, undisturbed, do to the rows what the handler does at once; its insert never meets the unique index, so the retry is only for races |
| LockHandlers.RefreshAlone | internal/edit/locks.go:54-95 | the statements of a refresh, undisturbed, do what the handler does at once |
| LockHandlers.ReleaseAlone | internal/edit/handler.go:191-209 | the statements of a release, undisturbed, do what the handler does at once |
| LockHandlers.ForceAlone | internal/edit/locks.go:122-149 | the statements of a force-unlock, undisturbed, release the lock and close every session on the object |
| LockSafety.StatementRows | internal/edit/store.go:93-190 | every statement of every handler keeps rows, owners and the unique index, never reactivates a row, and writes a token into at most one row |
| LockSafety.RunKeepsInv | internal/edit/text.go:45-146 | the invariant over rows, sessions and requests in flight holds in every reachable state |
| LockSafety.RunIsLater | internal/edit/store.go:157-190 | in every interleaving rows and sessions are never deleted, revived, reopened or handed to someone else |
| LockSafety.OneActiveLock | internal/edit/handler.go:144-189 | in every interleaving each object has at most one active lock row |
| LockSafety.GatePassedMeansCanPass | internal/edit/text.go:364-383 | whoever passes the gate does so in a state where the session's user and token are those of the live lock |
| LockSafety.SaveGateExclusive | internal/edit/text.go:364-383 | in every reachable state at most one session for each object can pass the save gate |
| LockSafety.ShutOutForGood | internal/edit/text.go:364-383 | once no active row has its token, a session can never pass again |
| LockSafety.LostLockNeverPasses | internal/edit/handler.go:144-209 | from the moment a lock row is released, swept, forced or given another token, no session with its former token ever passes, also one stored only later |
| LockSessions.SaveAlone | internal/edit/text.go:343-383 | an undisturbed save passes the gate exactly with an open, unexpired text-editor session of the caller in edit mode whose user and token are those of the live lock on its object |
| LockGate.BothPastTheGate | internal/edit/text.go:148-197 | it happens: after one user's save has passed the gate, the lock is forced away, and another user's save on the object passes too before either writes |
| LockSessions.TextOpenAlone | internal/edit/text.go:45-146 | an undisturbed text open closes the sessions of the object that are over, then takes or keeps the lock and stores an edit session with its token; on an object of somebody else it stores a view session without a token and takes nothing |
| LockSessions.UndisturbedOpenPasses | internal/edit/text.go:45-146 | so an undisturbed text open of an object nobody else holds leaves a session that can pass the gate |
| LockSessions.OfficeOpenAlone | internal/edit/office.go:42-136 | an undisturbed office open takes or keeps the lock and stores a session in the mode asked for; on an object of somebody else the session can only view and nothing is taken |
| LockSessions.LostRace | internal/edit/handler.go:144-189 | an insert that lost the race writes no lock; the session is stored exactly when the winner's lock is still live |
| LockSessions.MeetsAnother | internal/edit/handler.go:144-189 | an acquire that meets somebody else's live lock writes no lock, and its open stores the session in the mode asked for |
| LockSessions.TextCloseAlone | internal/edit/text.go:307-341 | an undisturbed text close ends the session and, in edit mode, exactly the user's holding of its object; in view mode no row changes |
| LockSessions.TextCloseRefused | internal/edit/text.go:307-341 | a text close of a closed, expired, foreign or office session changes nothing |
| LockSessions.CloseFreesTheObject | internal/edit/text.go:307-341 | after the holder's text close the session is not open, no live row is on the object, all other holders are unchanged, and no one's next open finds the object held |
| LockSessions.OfficeClosedAlone | internal/edit/office.go:178-256 | an accepted closed callback ends the session it names, by itself or by its document, and its holding exactly when the live lock has its user and token |
| LockSessions.OfficeClosedRefused | internal/edit/office.go:178-256 | a closed callback with the wrong token, or for no usable session, changes nothing |
| LockSessions.Arrives | internal/edit/handler.go:144-209 | each handler starts at its first statement, and nothing else arrives: no client starts in the middle of a handler |
| LockSessions.Fails | internal/edit/text.go:307-341 | a failing statement changes no table; a close still closes its session after a failed release, a text open goes on after a failed session sweep, all else returns |
| LockSessions.ClosesAfterFailure | internal/edit/text.go:333-340 | a release that failed for a close is followed by the closing of its session |
| Objects.RelocateMoves | internal/objects/store.go:245-278 | relocating leaves the object with its content at the new key only, and there the only row, which describes it and keeps its creator |
| Objects.DuplicateCopies | internal/objects/store.go:153-171 | duplicating adds the content at the new key and one row describing it, and changes no other object or row |
| Objects.World.Head | internal/storage/client.go:193-221 | reads an object without changing anything |
| Objects.World.ApplyDelete | internal/objects/apply.go:12-31 | both modes: what success leaves in store and index; whatever call fails, before or after its effect, trash-delete keeps the content readable at every point, and neither mode touches a third key or its row |
| Objects.World.RejectIfExists | internal/objects/apply.go:35-44 | refuses exactly when the destination exists, and on a failed check |
| Objects.World.ApplyCopy | internal/objects/apply.go:46-59 | never overwrites, never touches the source, and on success adds object and row; without faults it succeeds exactly for a present source and a free destination |
| Objects.World.ApplyMove | internal/objects/apply.go:61-79 | never overwrites another key; the content is readable at source or destination after every call; success relocates object and row and keeps the content exactly when it is no self-move; without faults it succeeds exactly for a present source that is the destination or has a free one |
| ObjectLaws.SelfMoveBreaksAgreement | internal/objects/apply.go:61-79 | for every object, an accepted move onto itself drops the object and leaves a row, so the index no longer agrees |
| ObjectLaws.SelfMoveExample | internal/objects/apply.go:61-79 | it happens: a fault-free self-move reports success, the storage is empty and the row is there |
| ObjectLaws.Run | internal/objects/apply.go:12-79 | without faults each operation of the code succeeds exactly when it is accepted, and leaves what the laws say |
| Objects.World.RestoreOne | internal/objects/trash.go:128-147 | never overwrites a live key; the content is readable at both or either place after every call; success relocates object and row |
| Objects.World.PurgeOne | internal/objects/trash.go:149-159 | removes exactly the trash copy and its row, or reports that there is none; whatever fails, no other key or row changes |
| ObjectLaws.RelocateAgrees | internal/objects/store.go:245-278 | moving object and row keeps rows and objects of every bucket equal in keys and sizes outside `.versions/` |
| ObjectLaws.RemoveAgrees | internal/objects/store.go:237-243 | deleting object and row keeps that equality for every bucket |
| ObjectLaws.DuplicateAgrees | internal/objects/store.go:153-171 | copying object and row, within a bucket or across, keeps that equality for every bucket |
| ObjectLaws.RunAgrees | internal/objects/apply.go:12-79 | over any sequential run of successful operations every bucket's index keeps agreeing with its storage |
| ObjectLaws.RunKeepsContent | internal/objects/apply.go:12-79 | whatever is stored stays readable somewhere along any run without permanent deletes, purges and overwritten trash copies |
| ObjectLaws.SecondTrashDrops | internal/objects/apply.go:23-30 | after a trash-delete over an earlier trash copy, that copy's content is readable exactly when it was stored elsewhere too |
| ObjectLaws.TrashTwiceExample | internal/objects/apply.go:12-31 | it happens: delete, upload anew, delete again, and the first content is stored nowhere |
| ObjectLaws.TrashThenRestore | internal/objects/trash.go:128-147 | trash-delete then restore gives back the store, and the row with its key, size, etag, content type and creator |
| ObjectLaws.ClassesPartition | internal/bucket/store.go:236-271 | every key is in exactly one of the classes live, trash and version |
| ObjectLaws.UsagePartition | internal/bucket/store.go:236-271 | bytes and counts of the three classes add up to all rows of the bucket |
| ObjectLaws.TrashMovesUsage | internal/bucket/store.go:236-271 | a trash-delete moves exactly the object's bytes, and one object, from live to trash |
| ObjectLaws.PrefixUsageSums | internal/bucket/store.go:273-301 | the usage by first-level prefix adds up to the live usage |
| ObjectLaws.KeysUnderExactly | internal/bucket/store.go:273-301 | under "" are exactly the live keys without a slash, and under `name/` exactly the live keys that begin with it; a prefix is listed exactly when some key is under it |
| DeleteKeys.ListPrefixKeys | internal/objects/apply.go:121-139 | returns all keys of all pages but the empty key, and fails exactly when one of the pages cannot be read |
| DeleteKeys.ExpandDeleteKeys | internal/objects/apply.go:81-119 | one result for each requested key in order, no duplicates, one failure entry for each refused key, and a listing failure exactly for a directory with a page that cannot be read |
| DeleteKeys.ExpandedExactly | internal/objects/apply.go:81-139 | the result is exactly the valid plain keys and the stored keys under valid, listed directory keys, and never a reserved key |
| DeleteKeys.EveryKeyAnswered | internal/objects/apply.go:81-119 | every requested key is covered by the result or reported failed, never both |
| DeleteKeys.RefusedExactly | internal/objects/apply.go:81-119 | a key is reported invalid, unlistable or empty exactly when it is no user key, a directory that could not be listed, or a listed one with nothing stored inside |
| DeleteKeys.FirstOnlyInOrder | internal/objects/apply.go:81-119 | the keys kept stand in the order of their first occurrence |
| DeleteKeys.UniqueOriginalKeys | internal/objects/key.go:53-70 | every key once in order of first appearance; the first empty or trash key decides the error |
| Rbac.Allowed | internal/rbac/match.go:80-153 | the loop decides exactly that some rule of maximal matching prefix length carries the action or admin, over the set of rules: order and duplicates do not matter |
| Rbac.MatchesExactly | internal/rbac/match.go:117-153 | a rule matches for its user, else its role, else a group of the caller, at every bucket or the one it names, when the prefix asked about begins with its own; the length is that of its prefix, 0 for "" and `*` |
| Rbac.AdminCoversAll | internal/rbac/match.go:80-115 | admin granted at a bucket and prefix implies every action there |
| Rbac.AddingARule | internal/rbac/match.go:80-115 | a new rule revokes exactly when its prefix is strictly longer than every matching one and it does not grant the action; it then decides alone |
| Rbac.AddingARuleRevokes | internal/rbac/match.go:80-115 | it happens: read everywhere, then a longer rule with write only, and read is gone there |
| RbacTables.GroupIDs | internal/rbac/store.go:232-250 | exactly the groups that have the user as a member and belong to the account |
| RbacTables.LoadRules | internal/rbac/store.go:320-375 | the loaded rules are exactly the rules of the selected permissions and of the assigned template rules, the latter rewritten to the user |
| RbacTables.DecisionMatchesTables | internal/rbac/store.go:320-375 | deciding over the loaded rules equals a decision stated directly over permission, membership, group account, template and assignment tables |
| BucketAccess.CreatorAllows | internal/rbac/match.go:52-57 | creator privilege is having created the bucket and holding account-level bucket_create |
| BucketAccess.CreatorScopedList | internal/rbac/match.go:60-68 | creator scoping holds exactly for account-level bucket_create without account-level admin |
| BucketAccess.BucketOnlyRules | internal/rbac/match.go:70-78 | keeps exactly the rules that name the bucket, in order |
| BucketAccess.Allow | internal/rbac/check.go:43-69 | a tenant admin may do all, a creator with account-level bucket_create all in the bucket, and else the decision counts: over the rules naming the bucket when a creator-scoped user reads, over all rules otherwise |
| BucketAccess.List | internal/bucket/handler.go:102-132 | returns exactly the buckets shown to the caller: all to a tenant admin, the user's own to a creator-scoped user, the readable ones to everyone else, in order |
| BucketAccess.ListIsSound | internal/bucket/handler.go:108-132 | every listed bucket is readable; a creator-scoped user may do everything everywhere in it |
| BucketAccess.ListMisses | internal/bucket/handler.go:108-132 | a readable bucket is missing from the list exactly for a creator-scoped user who did not create it |
| BucketAccess.ListMissesSome | internal/bucket/handler.go:116-121 | such a user and bucket exist |
| BucketAccess.AdminAllowsAll | internal/rbac/check.go:43-69 | admin at a place admits every action there, except that a creator-scoped user reads in another creator's bucket exactly when, among the rules that name the bucket and match, one of longest prefix carries read or admin; a decisive admin rule that names the bucket always suffices |
| BucketAccess.AdminWithoutRead | internal/rbac/check.go:64-66 | a creator-scoped user with admin below a prefix of every bucket cannot read there in another creator's bucket |
| TableAccess.AllowFor | internal/rbac/check.go:43-69 | with groups and rules loaded from the tables, the check answers what creator privilege and the tables themselves say |
| TableAccess.ListFor | internal/bucket/handler.go:102-132 | with groups and rules loaded from the tables, the list shows exactly the buckets a table-level decision grants, in order |
| TableAccess.NamedLoaded | internal/rbac/match.go:70-78 | the loaded rules that name a bucket are the rules loaded from the table rows that name it |
| VersionKeys.EscapeRoundTrip | internal/versions/key.go:16-18 | percent-encoding a segment (section 2.1 of RFC 3986) keeps exactly letters, digits and ten marks, writes every other byte as `%` and two upper-case hexadecimal digits, is invertible, and emits no slash |
| VersionKeys.DecimalRoundTrip | internal/versions/key.go:16-18 | decimal printing uses decimal digits without a leading zero, and is invertible |
| VersionKeys.StorageKeyInjective | internal/versions/key.go:16-18 | storage keys are equal exactly for equal bucket, key and number |
| VersionKeys.StorageKeyIsReserved | internal/objects/key.go:18-27 | a storage key is under `.versions/`, so neither a user key nor a trash key |
| Versions.MaxNoIsMax | internal/versions/store.go:94-103 | the table maximum bounds every version number of the object |
| Versions.MaxNoIsUsed | internal/versions/store.go:94-103 | the table maximum is the number of some row of the object, or 0 |
| Versions.NextIsFree | internal/versions/archive.go:17-21 | the next number is unused, so its storage key belongs to no row and no user key |
| Versions.ArchiveKeeps | internal/versions/archive.go:12-41 | archive, whatever call fails, leaves user keys and earlier versions alone; on success a new row has the live content |
| Versions.SaveKeeps | internal/edit/text.go:173-186 | a text save never replaces content that is not already in some version row, even if a call fails midway |
| Versions.SaveWrites | internal/edit/text.go:173-186 | whatever fails, a save that answers success leaves exactly the new content live and no save touches another live object; without faults it succeeds exactly when there is an object |
| Versions.SaveUnderFaults | internal/edit/text.go:173-186 | which effects a save with a failing call has had: put, row, or none |
| Versions.RestoreKeeps | internal/versions/handler.go:142-193 | a restore never replaces content that is not already in some version row, even if a call fails midway |
| Versions.RestoreWrites | internal/versions/handler.go:142-193 | a restore that succeeds makes the archived object of its row live; a locked file or a missing row refuses it without a trace |
| Versions.RestoreWhen | internal/versions/handler.go:142-193 | without faults it succeeds exactly for an unlocked file whose archived object is there |
| Versions.RestoreTouches | internal/versions/handler.go:142-193 | whatever fails, no live object but the row's own changes |
| Versions.RemoveKeeps | internal/versions/handler.go:195-214 | a remove, whatever fails in it, keeps the archive invariant and all live content, and takes away no row but its own |
| Versions.RemoveTouches | internal/versions/handler.go:195-214 | a remove touches no object but the one of its row |
| Versions.RemoveRemoves | internal/versions/handler.go:195-214 | a remove that succeeds leaves neither its row nor its object, and every other row; without faults it succeeds exactly for a row there is |
| Versions.StepKeeps | internal/versions/handler.go:142-214 | each request keeps the archive invariant, the history and all live content |
| Versions.RunKeeps | internal/versions/handler.go:142-214 | every run keeps the archive invariant and the history |
| Versions.VersionsAreImmutable | internal/versions/archive.go:12-41 | over any run, a version row no remove has touched names an object with exactly the content current when it was archived |
| Versions.LiveContentSurvives | internal/versions/handler.go:142-214 | content once live is after any run still live or was in a version row, and every row that held it names an object with it unless a remove has worked on that row |
| Versions.RestoreUndoesRestore | internal/versions/handler.go:169-180 | restoring the automatically archived row gives back what the restore replaced |
| VersionStore.Store.NextNo | internal/versions/store.go:94-103 | reads the table maximum plus one |
| VersionStore.Store.Archive | internal/versions/archive.go:12-41 | the calls in order: head, number, copy, insert, stopping at the first failure |
| VersionStore.Store.TextSave | internal/edit/text.go:173-186 | archive, then put: on success the live object is the new content, and every other live object is as before; keeps the invariant and loses nothing |
| VersionStore.Store.Restore | internal/versions/handler.go:142-193 | lock check, heads, archive when live, copy: on success the archived content is live; keeps the invariant and loses nothing |
| VersionStore.Store.Remove | internal/versions/handler.go:195-214 | deletes the object, then the row, and no other row; keeps the invariant and loses nothing |
| StatsAggregate.Counter.Add | internal/stats/request.go:61-81 | after adding a log the counter holds the totals of the logs before and that one |
| StatsAggregate.UserCounter.Add | internal/stats/request.go:83-100 | after adding a log the user's counter holds the totals of the logs before and that one, accesses counted only for logs with a key |
| StatsAggregate.CounterTable.Add | internal/stats/aggregate.go:97-109 | creates a missing counter, and changes no other one |
| StatsAggregate.PrefixTable.SetBucketAccount | internal/stats/aggregate.go:235-248 | one account stays, a second different one makes the owner null, whatever accounts came before |
| StatsAggregate.Aggregation.Count | internal/stats/aggregate.go:92-135 | one log and period: all tables of that period count the log where they should, and no other period changes |
| StatsAggregate.Aggregation.CountLog | internal/stats/aggregate.go:92-142 | one log, the periods taken in any order |
| StatsAggregate.NameToID | internal/stats/aggregate.go:70-73 | the ids by name are the inverse of the names by id |
| StatsAggregate.AggregateRequests | internal/stats/aggregate.go:22-143 | every table has a row exactly for the keys some loaded request is about, with the totals of exactly those requests |
| StatsLaws.DailyRowsConserve | internal/stats/aggregate.go:75-143 | requests, gets, puts, deletes, errors and bytes of all daily rows add up to the platform row of 30 days and the requests loaded from before the window; to the platform row alone exactly when there are none, as when the loading bound is not before the window |
| StatsLaws.EarlyRequestExample | internal/stats/aggregate.go:27-28 | it happens: with 500 nanoseconds rounded off the loading bound, an upload in between is counted in a daily row and not in the row of 30 days |
| StatsLaws.ActionClasses | internal/stats/request.go:9-48 | which actions count as uploads, downloads and deletes; all of them are object requests, and logins, passwords and administration are not |
| StatsLaws.TotalExactly | internal/stats/request.go:61-100 | each column is the number of logs it is about, or the sum of their sizes, and the active users are those of the logs |
| StatsLaws.WindowsExactly | internal/stats/request.go:102-104 | the windows are the last 24 hours, 7 days and 30 days, their starts included |
| StatsLaws.DaysExactly | internal/stats/aggregate.go:27-28 | days are 24 hours from midnight, and rows begin 30 days ago |
| StatsLaws.PrefixesExactly | internal/stats/request.go:50-59 | a keyed request counts under `name/` when its key begins with it, and under "" when it has no slash or is a trash key |
| StatsLaws.PrefixRowsExactly | internal/stats/aggregate.go:126-134 | a prefix row is there exactly when some get or put of the bucket in the window has such a key, and counts exactly those |
| StatsLaws.WindowsNested | internal/stats/request.go:102-104 | for platform, accounts and buckets, a longer window has every row of a shorter one and counts at least as much in each column |
| StatsLaws.UserAndPrefixWindowsNested | internal/stats/request.go:102-104 | for users and prefixes, a longer window has every row of a shorter one and counts at least as much |
| StatsLaws.AccountRowsConserve | internal/stats/aggregate.go:96-102 | in each of the seven columns, the account rows of a period and the requests without account add up to the platform row |
| StatsLaws.BucketRowsConserve | internal/stats/aggregate.go:104-110 | in each column they have, the bucket rows of a period and the requests of no known bucket add up to the platform row |
| StatsLaws.PrefixRowsConserve | internal/stats/aggregate.go:126-134 | the prefix rows of a bucket and period add up to its keyed gets and puts |
| StatsLaws.OwnerIsTheOnlyAccount | internal/stats/aggregate.go:235-248 | a bucket is attributed to an account exactly when its keyed gets and puts name that account and no other |
| StatsLaws.OrderDoesNotMatter | internal/stats/aggregate.go:78-143 | two runs over the same audit rows in any two orders, and any order of periods, end with equal tables |
| ShareLinks.PresignTTL | internal/share/token.go:27-45 | zero or at least a second, never past the link's expiry or the cap, and zero exactly when there is no full second |
| ShareLinks.LinkStore.Insert | internal/share/store.go:41-58 | refuses a taken token, otherwise adds an active link with count 0 |
| ShareLinks.LinkStore.GetByToken | internal/share/store.go:98-110 | finds a link exactly when some link has the token |
| ShareLinks.LinkStore.BumpAccess | internal/share/store.go:120-135 | counts one access exactly when the link is active, unexpired and below its limit, never beyond the limit, and changes nothing else |
| ShareLinks.LinkStore.Revoke | internal/share/store.go:112-118 | turns off exactly that link, and from then on no access counts on it at any time |
| ShareLinks.LinkStore.Create | internal/share/handler.go:76-178 | exactly a valid link with a free token is stored, under the first of three tokens that is free, active and unused, ending after seven days unless told otherwise; else nothing changes |
| ShareProtocol.ApplyKeeps | internal/share/handler.go:207-324 | every step of every access and revoke, failing before or after its effect, keeps the invariant and never changes a revoked link |
| ShareProtocol.AccessesAreBounded | internal/share/handler.go:238-324 | in every interleaving the count is the successful accesses plus the bumps lost to database errors, and stays within the limit |
| ShareProtocol.CountedAccessFails | internal/share/handler.go:316-324 | it happens: a run with one counted access and no successful one |
| ShareProtocol.CountIsExact | internal/share/store.go:120-135 | without database errors the count is the number of successful accesses |
| ShareProtocol.RevokedIsFinal | internal/share/handler.go:207-236 | once a revoke has committed no access succeeds, even one past all its checks |
| ShareProtocol.UrlsEndWithTheLink | internal/share/handler.go:294-315 | every URL lives at least a second and, from the captured clock reading, ends no later than its link |
| ShareProtocol.OutlivesExactly | internal/storage/client.go:285-296 | counted from its signing, a URL outlives its link exactly when signing came later than the link had to spare |
| ShareProtocol.OutlivesOnce | internal/share/handler.go:238-324 | it happens: a run in which the URLs of a two-second link end a nanosecond after it |
| ShareProtocol.CountsIncrease | internal/share/store.go:120-135 | the counts returned for one link are different and increasing |
| ShareProtocol.GrantsAreChecked | internal/share/handler.go:238-324 | in every interleaving each successful access was checked against the row it had read: active, unexpired, below its limit, open to download or preview, its object there, and a password it has given correctly |
| ShareProtocol.AloneSucceedsExactly | internal/share/handler.go:238-324 | undisturbed, an access succeeds exactly when the link is there, active, unexpired by a second and below its limit, a password it has is given correctly, it allows something, the object exists and the signature works; it then counts once |
| ShareProtocol.AloneIsRefused | internal/share/handler.go:246-300 | each refusal alone is enough: the access is neither granted nor counted |
| ShareProtocol.AloneRevokes | internal/share/handler.go:207-236 | undisturbed, a revoke turns off exactly an active link of the account |
| ShareProtocol.FailingUpdates | internal/share/store.go:112-135 | a failing update has no effect when it failed before, and its whole effect but the answer when after |
| ShareProtocol.FailingReads | internal/share/handler.go:207-264 | a failing read ends its request and changes nothing |
| ShareProtocol.CreatesLink | internal/share/handler.go:76-178 | a link is created exactly for a user key, some permission, a limit of at least 1, an expiry to come and a free token |

## Left out

- The list handlers that read S3 directly, with `collectPrefixes`, and the trash listing with its fallback: paging there is the storage's.
- HTTP routing, JSON, localisation, logging, audit export, CORS and bucket policies, bucket naming, preview and language guessing: I/O or small tables without a property across calls.
- Storage, token, password and clock internals: they enter as parameters, fresh values and `Fault`s.
- `UpsertSeen`, `PurgeUnseen`, the inventory and queued batch jobs: driven by another repository.
- Quota: it is checked only before an upload is presigned, so no bound holds over a run.
- The office save by callback and the presigned text save: the lock is not checked when the object is written, so no exclusion holds for them.
- The object write after the save gate: a lock may be lost between passing the gate and the put, so the gate, not the write, is exclusive (`LockGate.BothPastTheGate`).
- `rename` and concurrent archives of one object: the first may name reserved keys, the second may draw the same number before the unique index refuses one; runs over versions are sequential.
- LockStore.Store.Acquire: each handler reads the clock once here; `LockProtocol` has the statements one by one.
- StatsAggregate.AggregateRequests: the rewriting of the statistics tables in one transaction and the returned row counts are not modelled, and counters do not overflow; the bound the loading query applies is a parameter, since the database rounds it.
- ShareLinks.LinkStore.Create: the permission check, the object lookup and the password hashing before the insert, and a failing insert, are not modelled; they only refuse.
- Lock, session and version rows deleted with their user (ON DELETE CASCADE, migrations/00009_edit_locks.sql:6 and migrations/00007_file_versions.sql:10): rows stay in the models.
- Share links deleted together with their account, the order in which an access reports its errors, and what a revoke answers.
- DeleteKeys.ListPrefixKeys: every page but the last is full; the storage may return shorter ones.
