/** The `file_locks` table: one function per SQL statement, the handlers composed of them at one clock reading,
    and the map from objects to holders that they implement. */
module LockTable {
  import opened Text

  const LOCK_TTL := 7200

  datatype Object = Object(bucket: string, key: string)
  datatype Status = Active | Released | ForceReleased
  datatype Lock = Lock(obj: Object, owner: int, token: string, expires: int, status: Status)

  // ---------------------------------------------------------------------------
  // Statements. The id of a row is its position, so later rows have later `locked_at`.

  function SweepRow(row: Lock, o: Object, now: int): Lock
  {
    if row.obj == o && row.status == Active && row.expires <= now then row.(status := Released) else row
  }

  /** UPDATE file_locks SET status = 'released' WHERE <object> AND status = 'active' AND expires_at <= now() */
  function Sweep(rows: seq<Lock>, o: Object, now: int): seq<Lock>
  {
    seq(|rows|, i requires 0 <= i < |rows| => SweepRow(rows[i], o, now))
  }

  predicate Live(row: Lock, o: Object, now: int)
  {
    row.obj == o && row.status == Active && row.expires > now
  }

  /** SELECT ... WHERE <object> AND status = 'active' AND expires_at > now() ORDER BY locked_at DESC LIMIT 1 */
  function Select(rows: seq<Lock>, o: Object, now: int): (id: Option<nat>)
    ensures id.Some? ==> id.value < |rows| && Live(rows[id.value], o, now)
    ensures id == None ==> forall i :: 0 <= i < |rows| ==> !Live(rows[i], o, now)
  {
    if rows == [] then None
    else if Live(rows[|rows| - 1], o, now) then Some(|rows| - 1)
    else Select(rows[..|rows| - 1], o, now)
  }

  predicate Taken(rows: seq<Lock>, o: Object)
  {
    exists i :: 0 <= i < |rows| && rows[i].obj == o && rows[i].status == Active
  }

  /** INSERT INTO file_locks ..., refused by the unique index on active rows. */
  function Insert(rows: seq<Lock>, o: Object, user: int, token: string, now: int): Option<seq<Lock>>
  {
    if Taken(rows, o) then None else Some(rows + [Lock(o, user, token, now + LOCK_TTL, Active)])
  }

  /** UPDATE file_locks SET expires_at = now() + ttl, lock_token = COALESCE(token, lock_token) WHERE id = id */
  function Refresh(rows: seq<Lock>, id: nat, token: Option<string>, now: int): seq<Lock>
    requires id < |rows|
  {
    rows[id := rows[id].(expires := now + LOCK_TTL, token := if token.Some? then token.value else rows[id].token)]
  }

  /** UPDATE file_locks SET status = status WHERE id = id */
  function SetStatus(rows: seq<Lock>, id: nat, status: Status): seq<Lock>
    requires id < |rows|
  {
    rows[id := rows[id].(status := status)]
  }

  /** The partial unique index: at most one active row for each object. */
  predicate OneActive(rows: seq<Lock>)
  {
    forall i, j :: 0 <= i < j < |rows| && rows[i].status == Active && rows[j].status == Active
                   ==> rows[i].obj != rows[j].obj
  }

  lemma SelectUnique(rows: seq<Lock>, o: Object, now: int, i: nat)
    requires OneActive(rows) && i < |rows| && Live(rows[i], o, now)
    ensures Select(rows, o, now) == Some(i)
  {
  }

  // ---------------------------------------------------------------------------
  // Handlers, all statements at one clock reading

  datatype Reply = Reply(rows: seq<Lock>, lock: Option<Lock>, readonly: bool)

  function FreshOr(token: string, minted: string): string
  {
    if token == "" then minted else token
  }

  function AcquireRows(rows: seq<Lock>, o: Object, user: int, token: string, minted: string, now: int): Reply
  {
    var swept := Sweep(rows, o, now);
    match Select(swept, o, now)
    case Some(id) =>
      if swept[id].owner != user then Reply(swept, Some(swept[id]), true)
      else
        var rows' := Refresh(swept, id, if token == "" then None else Some(token), now);
        Reply(rows', Some(rows'[id]), false)
    case None =>
      match Insert(swept, o, user, FreshOr(token, minted), now)
      case Some(rows') => Reply(rows', Some(rows'[|rows'| - 1]), false)
      case None => Reply(swept, None, false)
  }

  function RefreshRows(rows: seq<Lock>, o: Object, user: int, token: string, now: int): seq<Lock>
  {
    var swept := Sweep(rows, o, now);
    match Select(swept, o, now)
    case Some(id) =>
      if swept[id].owner == user && swept[id].token == token then Refresh(swept, id, None, now) else swept
    case None => swept
  }

  function ReleaseRows(rows: seq<Lock>, o: Object, user: int, token: Option<string>, now: int): (seq<Lock>, bool)
  {
    var swept := Sweep(rows, o, now);
    match Select(swept, o, now)
    case None => (swept, true)
    case Some(id) =>
      if swept[id].owner != user || (token.Some? && swept[id].token != token.value) then (swept, false)
      else (SetStatus(swept, id, Released), true)
  }

  function ForceRows(rows: seq<Lock>, o: Object, now: int): (seq<Lock>, bool)
  {
    var swept := Sweep(rows, o, now);
    match Select(swept, o, now)
    case None => (swept, false)
    case Some(id) => (SetStatus(swept, id, ForceReleased), true)
  }

  lemma NothingLiveNotTaken(rows: seq<Lock>, o: Object, now: int)
    requires Select(Sweep(rows, o, now), o, now) == None
    ensures !Taken(Sweep(rows, o, now), o)
  {
  }

  // ---------------------------------------------------------------------------
  // The map the table stands for

  datatype Holder = Holder(owner: int, token: string, expires: int)

  function ObjectsOf(rows: seq<Lock>): set<Object>
  {
    set row | row in rows :: row.obj
  }

  /** The live holder of each object at a time. */
  function Held(rows: seq<Lock>, now: int): map<Object, Holder>
  {
    map o | o in ObjectsOf(rows) && Select(rows, o, now).Some?
      :: var row := rows[Select(rows, o, now).value]; Holder(row.owner, row.token, row.expires)
  }

  function HolderAt(rows: seq<Lock>, o: Object, now: int): Option<Holder>
  {
    match Select(rows, o, now)
    case None => None
    case Some(id) => Some(Holder(rows[id].owner, rows[id].token, rows[id].expires))
  }

  lemma HeldLookup(rows: seq<Lock>, o: Object, now: int)
    ensures o in Held(rows, now) <==> HolderAt(rows, o, now).Some?
    ensures o in Held(rows, now) ==> HolderAt(rows, o, now) == Some(Held(rows, now)[o])
  {
    var id := Select(rows, o, now);
    if id.Some? {
      assert rows[id.value] in rows;
    }
  }
}
