/** The edit store with its lock handlers, as code that updates the tables in place, each handler at one clock
    reading. */
module LockStore {
  import opened Text
  import opened LockTable
  import opened LockProtocol
  import opened LockRefinement

  /** What a refresh request is told. */
  datatype Answer = TokenRequired | NoLock | Forbidden | Extended(lock: Lock)

  class Store {
    var rows: seq<Lock>
    var sessions: map<string, Session>

    constructor ()
      ensures Valid() && rows == [] && sessions == map[]
    {
      rows, sessions := [], map[];
    }

    /** The partial unique index. */
    ghost predicate Valid()
      reads this
    {
      OneActive(rows)
    }

    /** Releases the expired active rows of the object; what is live at this time stays live. */
    method ExpireLocks(o: Object, now: int)
      requires Valid()
      modifies this`rows
      ensures Valid() && |rows| == |old(rows)|
      ensures forall i :: 0 <= i < |rows| ==>
                rows[i] == if old(rows)[i].obj == o && old(rows)[i].status == Active && old(rows)[i].expires <= now
                           then old(rows)[i].(status := Released) else old(rows)[i]
      ensures forall i :: 0 <= i < |rows| && rows[i].obj == o && rows[i].status == Active ==> rows[i].expires > now
      ensures Held(rows, now) == Held(old(rows), now)
    {
      SweepHeld(rows, o, now);
      rows := Sweep(rows, o, now);
    }

    /** Finds the live lock of the object; when there is none, no active row of the object is left at all. */
    method ActiveLock(o: Object, now: int) returns (id: Option<nat>)
      requires Valid()
      modifies this`rows
      ensures Valid() && rows == Sweep(old(rows), o, now) && id == Select(rows, o, now)
      ensures Held(rows, now) == Held(old(rows), now)
      ensures id.Some? <==> o in Held(old(rows), now)
      ensures id.Some? ==> var h := Held(old(rows), now)[o];
                rows[id.value] == Lock(o, h.owner, h.token, h.expires, Active)
      ensures id == None ==> forall i :: 0 <= i < |rows| && rows[i].obj == o ==> rows[i].status != Active
    {
      ExpireLocks(o, now);
      assert rows == Sweep(old(rows), o, now);
      HeldLookup(rows, o, now);
      if Select(rows, o, now) == None {
        NothingLiveNotTaken(old(rows), o, now);
      }
      id := Select(rows, o, now);
    }

    /** Refused exactly when the object has an active row, even one that has expired. */
    method InsertLock(o: Object, user: int, token: string, now: int) returns (taken: bool)
      requires Valid()
      modifies this`rows
      ensures Valid()
      ensures taken <==> exists i :: 0 <= i < |old(rows)| && old(rows)[i].obj == o && old(rows)[i].status == Active
      ensures taken ==> rows == old(rows)
      ensures !taken ==> rows == old(rows) + [Lock(o, user, token, now + 7_200, Active)]
      ensures !taken ==> Held(rows, now) == Held(old(rows), now)[o := Holder(user, token, now + LOCK_TTL)]
    {
      taken := Taken(rows, o);
      if !taken {
        InsertHeld(rows, o, user, token, now);
        rows := Insert(rows, o, user, token, now).value;
      }
    }

    /** Extends one row, and replaces its token when one is given; owner, status and all other rows stay. */
    method RefreshLock(id: nat, token: Option<string>, now: int)
      requires Valid() && id < |rows|
      modifies this`rows
      ensures Valid() && |rows| == |old(rows)|
      ensures forall i :: 0 <= i < |rows| && i != id ==> rows[i] == old(rows)[i]
      ensures rows[id] == Lock(old(rows)[id].obj, old(rows)[id].owner,
                               if token.Some? then token.value else old(rows)[id].token, now + LOCK_TTL,
                               old(rows)[id].status)
    {
      rows := Refresh(rows, id, token, now);
    }

    /** Ends one row for good; everything else about it, and all other rows, stay. */
    method ReleaseLock(id: nat, status: Status)
      requires Valid() && id < |rows| && status != Active
      modifies this`rows
      ensures Valid() && |rows| == |old(rows)|
      ensures forall i :: 0 <= i < |rows| && i != id ==> rows[i] == old(rows)[i]
      ensures rows[id] == old(rows)[id].(status := status)
      ensures forall now :: Live(old(rows)[id], old(rows)[id].obj, now) ==>
                Held(rows, now) == Held(old(rows), now) - {old(rows)[id].obj}
    {
      forall now | Live(rows[id], rows[id].obj, now)
        ensures Held(SetStatus(rows, id, status), now) == Held(rows, now) - {rows[id].obj}
      {
        StatusHeld(rows, id, status, now);
      }
      rows := SetStatus(rows, id, status);
    }

    method Acquire(o: Object, user: int, token: string, minted: string, now: int)
      returns (lock: Option<Lock>, readonly: bool)
      requires Valid()
      modifies this`rows
      ensures Valid() && Reply(rows, lock, readonly) == AcquireRows(old(rows), o, user, token, minted, now)
      ensures Held(rows, now) == AcquireMap(Held(old(rows), now), o, user, token, minted, now)
      ensures readonly ==> Held(rows, now) == Held(old(rows), now)
      ensures !readonly ==>
                var tok := if token != "" then token
                           else if o in Held(old(rows), now) then Held(old(rows), now)[o].token else minted;
                && lock == Some(Lock(o, user, tok, now + 7_200, Active))
                && Held(rows, now) == Held(old(rows), now)[o := Holder(user, tok, now + LOCK_TTL)]
      ensures lock.Some? && lock.value.obj == o
      ensures readonly <==> lock.value.owner != user
      ensures readonly <==> o in Held(old(rows), now) && Held(old(rows), now)[o].owner != user
    {
      hide Held, OneActive, Sweep, Taken;
      AcquireRefines(rows, o, user, token, minted, now);
      var existing := ActiveLock(o, now);
      if existing.Some? {
        var id := existing.value;
        if rows[id].owner != user {
          return Some(rows[id]), true;
        }
        ghost var swept := rows;
        RefreshLock(id, if token == "" then None else Some(token), now);
        assert rows == Refresh(swept, id, if token == "" then None else Some(token), now);
        return Some(rows[id]), false;
      }
      var tok := FreshOr(token, minted);
      var taken := InsertLock(o, user, tok, now);
      return Some(rows[|rows| - 1]), false;
    }

    method LockRefresh(o: Object, user: int, token: string, now: int) returns (answer: Answer)
      requires Valid()
      modifies this`rows
      ensures Valid()
      ensures rows == if token == "" then old(rows) else RefreshRows(old(rows), o, user, token, now)
      ensures token == "" <==> answer == TokenRequired
      ensures answer == NoLock <==> token != "" && o !in Held(old(rows), now)
      ensures answer == Forbidden <==>
                && token != "" && o in Held(old(rows), now)
                && (Held(old(rows), now)[o].owner != user || Held(old(rows), now)[o].token != token)
      ensures answer.Extended? ==>
                && answer.lock == Lock(o, user, token, now + LOCK_TTL, Active)
                && Held(rows, now) == Held(old(rows), now)[o := Holder(user, token, now + LOCK_TTL)]
      ensures !answer.Extended? ==> Held(rows, now) == Held(old(rows), now)
    {
      if token == "" {
        return TokenRequired;
      }
      hide Held, OneActive, Sweep, Taken;
      RefreshRefines(rows, o, user, token, now);
      var existing := ActiveLock(o, now);
      if existing == None {
        return NoLock;
      }
      var id := existing.value;
      if rows[id].owner != user || rows[id].token != token {
        return Forbidden;
      }
      ghost var swept := rows;
      RefreshLock(id, None, now);
      assert rows == Refresh(swept, id, None, now);
      return Extended(rows[id]);
    }

    method ReleaseOwned(o: Object, user: int, token: Option<string>, now: int) returns (ok: bool)
      requires Valid()
      modifies this`rows
      ensures Valid() && (rows, ok) == ReleaseRows(old(rows), o, user, token, now)
      ensures ok <==> (o in Held(old(rows), now) ==>
                         && Held(old(rows), now)[o].owner == user
                         && (token == None || Held(old(rows), now)[o].token == token.value))
      ensures Held(rows, now) == if ok then Held(old(rows), now) - {o} else Held(old(rows), now)
    {
      hide Held, OneActive, Sweep, Taken;
      ReleaseRefines(rows, o, user, token, now);
      var existing := ActiveLock(o, now);
      if existing == None {
        return true;
      }
      var id := existing.value;
      if rows[id].owner != user {
        return false;
      }
      if token.Some? && rows[id].token != token.value {
        return false;
      }
      ghost var swept := rows;
      ReleaseLock(id, Released);
      assert rows == SetStatus(swept, id, Released);
      return true;
    }

    method CloseSessionsForObject(o: Object)
      modifies this`sessions
      ensures sessions.Keys == old(sessions).Keys
      ensures forall sid :: sid in sessions ==>
                sessions[sid] == if old(sessions)[sid].obj == o then old(sessions)[sid].(open := false)
                                 else old(sessions)[sid]
    {
      sessions := CloseMatching(sessions, o, None);
    }

    method ForceRelease(o: Object, now: int) returns (unlocked: bool)
      requires Valid()
      modifies this
      ensures Valid() && (rows, unlocked) == ForceRows(old(rows), o, now)
      ensures Held(rows, now) == Held(old(rows), now) - {o}
      ensures unlocked <==> o in Held(old(rows), now)
      ensures sessions == CloseMatching(old(sessions), o, None)
      ensures forall sid :: sid in sessions && sessions[sid].obj == o ==> !sessions[sid].open
    {
      hide Held, OneActive, Sweep, Taken;
      ForceRefines(rows, o, now);
      var existing := ActiveLock(o, now);
      ghost var swept := rows;
      if existing.Some? {
        ReleaseLock(existing.value, ForceReleased);
        assert rows == SetStatus(swept, existing.value, ForceReleased);
      }
      CloseSessionsForObject(o);
      unlocked := existing.Some?;
    }
  }

  // ---------------------------------------------------------------------------
  // Statements and holders

  lemma SweepHeld(rows: seq<Lock>, o: Object, now: int)
    requires OneActive(rows)
    ensures OneActive(Sweep(rows, o, now)) && Held(Sweep(rows, o, now), now) == Held(rows, now)
  {
    hide HolderAt, Held;
    SweepHolders(rows, o, now);
    AllLookups(rows, now);
    HeldFromLookups(Sweep(rows, o, now), Held(rows, now), now);
  }

  lemma InsertHeld(rows: seq<Lock>, o: Object, user: int, token: string, now: int)
    requires OneActive(rows) && !Taken(rows, o)
    ensures var rows' := Insert(rows, o, user, token, now).value;
            OneActive(rows') && Held(rows', now) == Held(rows, now)[o := Holder(user, token, now + LOCK_TTL)]
  {
    hide HolderAt, Held;
    InsertHolders(rows, o, user, token, now);
    AllLookups(rows, now);
    HeldFromLookups(Insert(rows, o, user, token, now).value,
                    Held(rows, now)[o := Holder(user, token, now + LOCK_TTL)], now);
  }

  lemma StatusHeld(rows: seq<Lock>, id: nat, status: Status, now: int)
    requires OneActive(rows) && id < |rows| && status != Active && Live(rows[id], rows[id].obj, now)
    ensures Held(SetStatus(rows, id, status), now) == Held(rows, now) - {rows[id].obj}
  {
    hide HolderAt, Held;
    SelectUnique(rows, rows[id].obj, now, id);
    StatusHolders(rows, id, status, rows[id].obj, now);
    AllLookups(rows, now);
    HeldFromLookups(SetStatus(rows, id, status), Held(rows, now) - {rows[id].obj}, now);
  }
}
