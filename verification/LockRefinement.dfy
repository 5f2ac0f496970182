/** The lock table with its history implements a map from objects to holders; each handler run at one clock
    reading is one operation of that map. */
module LockRefinement {
  import opened Text
  import opened LockTable

  type Holders = map<Object, Holder>

  // ---------------------------------------------------------------------------
  // The map operations

  function AcquireMap(m: Holders, o: Object, user: int, token: string, minted: string, now: int): Holders
  {
    if o in m && m[o].owner != user then m
    else if o in m then m[o := Holder(user, FreshOr(token, m[o].token), now + LOCK_TTL)]
    else m[o := Holder(user, FreshOr(token, minted), now + LOCK_TTL)]
  }

  function RefreshMap(m: Holders, o: Object, user: int, token: string, now: int): Holders
  {
    if o in m && m[o].owner == user && m[o].token == token then m[o := m[o].(expires := now + LOCK_TTL)] else m
  }

  predicate MayRelease(m: Holders, o: Object, user: int, token: Option<string>)
  {
    o in m ==> m[o].owner == user && (token.Some? ==> m[o].token == token.value)
  }

  function ReleaseMap(m: Holders, o: Object, user: int, token: Option<string>): Holders
  {
    if MayRelease(m, o, user, token) then m - {o} else m
  }

  /** Time alone: holders whose lease ran out disappear. */
  function Prune(m: Holders, now: int): Holders
  {
    map o | o in m && m[o].expires > now :: m[o]
  }

  // ---------------------------------------------------------------------------
  // Statements and holders

  lemma {:induction false} SelectSame(rows: seq<Lock>, rows': seq<Lock>, o: Object, now: int, now': int)
    requires |rows| == |rows'|
    requires forall i :: 0 <= i < |rows| ==> (Live(rows[i], o, now) <==> Live(rows'[i], o, now'))
    ensures Select(rows, o, now) == Select(rows', o, now')
  {
    if rows == [] {
    } else {
      SelectSame(rows[..|rows| - 1], rows'[..|rows| - 1], o, now, now');
    }
  }

  lemma SweepHolders(rows: seq<Lock>, o: Object, now: int)
    requires OneActive(rows)
    ensures OneActive(Sweep(rows, o, now))
    ensures forall o' :: HolderAt(Sweep(rows, o, now), o', now) == HolderAt(rows, o', now)
  {
    forall o' ensures HolderAt(Sweep(rows, o, now), o', now) == HolderAt(rows, o', now) {
      SelectSame(Sweep(rows, o, now), rows, o', now, now);
    }
  }

  lemma RefreshHolders(rows: seq<Lock>, id: nat, token: Option<string>, o: Object, now: int)
    requires OneActive(rows) && Select(rows, o, now) == Some(id)
    ensures OneActive(Refresh(rows, id, token, now))
    ensures forall o' :: HolderAt(Refresh(rows, id, token, now), o', now) ==
                         if o' == o then
                           Some(Holder(rows[id].owner, if token.Some? then token.value else rows[id].token,
                                       now + LOCK_TTL))
                         else HolderAt(rows, o', now)
  {
    forall o' ensures Select(Refresh(rows, id, token, now), o', now) == Select(rows, o', now) {
      SelectSame(Refresh(rows, id, token, now), rows, o', now, now);
    }
  }

  lemma StatusHolders(rows: seq<Lock>, id: nat, status: Status, o: Object, now: int)
    requires OneActive(rows) && Select(rows, o, now) == Some(id) && status != Active
    ensures OneActive(SetStatus(rows, id, status))
    ensures forall o' :: HolderAt(SetStatus(rows, id, status), o', now) ==
                         if o' == o then None else HolderAt(rows, o', now)
  {
    var rows' := SetStatus(rows, id, status);
    forall o' | o' != o ensures Select(rows', o', now) == Select(rows, o', now) {
      SelectSame(rows', rows, o', now, now);
    }
    if Select(rows', o, now).Some? {
      SelectUnique(rows, o, now, Select(rows', o, now).value);
    }
  }

  lemma InsertHolders(rows: seq<Lock>, o: Object, user: int, token: string, now: int)
    requires OneActive(rows) && !Taken(rows, o)
    ensures var rows' := Insert(rows, o, user, token, now).value;
            && OneActive(rows')
            && forall o' :: HolderAt(rows', o', now) ==
                            if o' == o then Some(Holder(user, token, now + LOCK_TTL)) else HolderAt(rows, o', now)
  {
    var row := Lock(o, user, token, now + LOCK_TTL, Active);
    assert (rows + [row])[..|rows|] == rows;
  }

  /** The lookups of a map decide it. */
  lemma HeldFromLookups(rows: seq<Lock>, m: Holders, now: int)
    requires forall o :: HolderAt(rows, o, now) == (if o in m then Some(m[o]) else None)
    ensures Held(rows, now) == m
  {
    forall o
      ensures o in Held(rows, now) <==> o in m
      ensures o in m ==> o in Held(rows, now) && Held(rows, now)[o] == m[o]
    {
      HeldLookup(rows, o, now);
    }
  }

  lemma AllLookups(rows: seq<Lock>, now: int)
    ensures forall o :: HolderAt(rows, o, now) == (if o in Held(rows, now) then Some(Held(rows, now)[o]) else None)
  {
    forall o ensures HolderAt(rows, o, now) == (if o in Held(rows, now) then Some(Held(rows, now)[o]) else None) {
      HeldLookup(rows, o, now);
    }
  }

  // ---------------------------------------------------------------------------
  // Each handler commutes with the map

  /** What `Acquire` leaves for its object, given the holder it met. */
  function AcquiredHolder(met: Option<Holder>, user: int, token: string, minted: string, now: int): Holder
  {
    match met
    case None => Holder(user, FreshOr(token, minted), now + LOCK_TTL)
    case Some(h) => if h.owner != user then h else Holder(user, FreshOr(token, h.token), now + LOCK_TTL)
  }

  lemma AcquireLookups(rows: seq<Lock>, o: Object, user: int, token: string, minted: string, now: int)
    requires OneActive(rows)
    ensures var reply, met := AcquireRows(rows, o, user, token, minted, now), HolderAt(rows, o, now);
            var left := AcquiredHolder(met, user, token, minted, now);
            && OneActive(reply.rows)
            && (forall o' :: HolderAt(reply.rows, o', now) == if o' == o then Some(left) else HolderAt(rows, o', now))
            && (reply.readonly <==> met.Some? && met.value.owner != user)
            && reply.lock.Some?
            && left == Holder(reply.lock.value.owner, reply.lock.value.token, reply.lock.value.expires)
  {
    var swept := Sweep(rows, o, now);
    SweepHolders(rows, o, now);
    assert HolderAt(swept, o, now) == HolderAt(rows, o, now);
    match Select(swept, o, now)
    case Some(id) =>
      if swept[id].owner == user {
        RefreshHolders(swept, id, if token == "" then None else Some(token), o, now);
      }
    case None =>
      NothingLiveNotTaken(rows, o, now);
      InsertHolders(swept, o, user, FreshOr(token, minted), now);
  }

  lemma AcquireRefines(rows: seq<Lock>, o: Object, user: int, token: string, minted: string, now: int)
    requires OneActive(rows)
    ensures var reply, m := AcquireRows(rows, o, user, token, minted, now), Held(rows, now);
            && OneActive(reply.rows)
            && Held(reply.rows, now) == AcquireMap(m, o, user, token, minted, now)
            && (reply.readonly <==> o in m && m[o].owner != user)
            && o in Held(reply.rows, now)
            && reply.lock.Some? && Held(reply.rows, now)[o] ==
               Holder(reply.lock.value.owner, reply.lock.value.token, reply.lock.value.expires)
  {
    hide AcquireRows, OneActive, HolderAt, Held;
    AcquireLookups(rows, o, user, token, minted, now);
    AllLookups(rows, now);
    HeldFromLookups(AcquireRows(rows, o, user, token, minted, now).rows,
                    AcquireMap(Held(rows, now), o, user, token, minted, now), now);
  }

  lemma RefreshRefines(rows: seq<Lock>, o: Object, user: int, token: string, now: int)
    requires OneActive(rows)
    ensures OneActive(RefreshRows(rows, o, user, token, now))
    ensures Held(RefreshRows(rows, o, user, token, now), now) == RefreshMap(Held(rows, now), o, user, token, now)
  {
    var m, swept := Held(rows, now), Sweep(rows, o, now);
    SweepHolders(rows, o, now);
    AllLookups(rows, now);
    var id := Select(swept, o, now);
    if id.Some? && swept[id.value].owner == user && swept[id.value].token == token {
      RefreshHolders(swept, id.value, None, o, now);
    }
    HeldFromLookups(RefreshRows(rows, o, user, token, now), RefreshMap(m, o, user, token, now), now);
  }

  lemma ReleaseRefines(rows: seq<Lock>, o: Object, user: int, token: Option<string>, now: int)
    requires OneActive(rows)
    ensures var (rows', ok) := ReleaseRows(rows, o, user, token, now);
            && OneActive(rows')
            && Held(rows', now) == ReleaseMap(Held(rows, now), o, user, token)
            && (ok <==> MayRelease(Held(rows, now), o, user, token))
  {
    var m, swept := Held(rows, now), Sweep(rows, o, now);
    var (rows', ok) := ReleaseRows(rows, o, user, token, now);
    SweepHolders(rows, o, now);
    AllLookups(rows, now);
    if Select(swept, o, now).Some? && ok {
      StatusHolders(swept, Select(swept, o, now).value, Released, o, now);
    }
    HeldFromLookups(rows', ReleaseMap(m, o, user, token), now);
  }

  lemma ForceRefines(rows: seq<Lock>, o: Object, now: int)
    requires OneActive(rows)
    ensures var (rows', unlocked) := ForceRows(rows, o, now);
            && OneActive(rows')
            && Held(rows', now) == Held(rows, now) - {o}
            && (unlocked <==> o in Held(rows, now))
  {
    var m, swept := Held(rows, now), Sweep(rows, o, now);
    SweepHolders(rows, o, now);
    AllLookups(rows, now);
    if Select(swept, o, now).Some? {
      StatusHolders(swept, Select(swept, o, now).value, ForceReleased, o, now);
    }
    HeldFromLookups(ForceRows(rows, o, now).0, m - {o}, now);
  }

  lemma TimeRefines(rows: seq<Lock>, now: int, later: int)
    requires OneActive(rows) && now <= later
    ensures Held(rows, later) == Prune(Held(rows, now), later)
  {
    AllLookups(rows, now);
    forall o
      ensures HolderAt(rows, o, later) == var m := Prune(Held(rows, now), later); if o in m then Some(m[o]) else None
    {
      if Select(rows, o, later).Some? {
        SelectUnique(rows, o, now, Select(rows, o, later).value);
      }
    }
    HeldFromLookups(rows, Prune(Held(rows, now), later), later);
  }

  // ---------------------------------------------------------------------------
  // Whole runs

  datatype Op =
    | DoAcquire(o: Object, user: int, token: string, minted: string)
    | DoRefresh(o: Object, user: int, token: string)
    | DoRelease(o: Object, user: int, lockToken: Option<string>)
    | DoForce(o: Object)

  datatype Event = Event(at: int, op: Op)

  function StepRows(rows: seq<Lock>, e: Event): seq<Lock>
  {
    match e.op
    case DoAcquire(o, user, token, minted) => AcquireRows(rows, o, user, token, minted, e.at).rows
    case DoRefresh(o, user, token) => RefreshRows(rows, o, user, token, e.at)
    case DoRelease(o, user, token) => ReleaseRows(rows, o, user, token, e.at).0
    case DoForce(o) => ForceRows(rows, o, e.at).0
  }

  /** The map operation, on the holders left at its time. */
  function StepMap(m: Holders, e: Event): Holders
  {
    var m := Prune(m, e.at);
    match e.op
    case DoAcquire(o, user, token, minted) => AcquireMap(m, o, user, token, minted, e.at)
    case DoRefresh(o, user, token) => RefreshMap(m, o, user, token, e.at)
    case DoRelease(o, user, token) => ReleaseMap(m, o, user, token)
    case DoForce(o) => m - {o}
  }

  function RunRows(rows: seq<Lock>, events: seq<Event>): seq<Lock>
    decreases |events|
  {
    if events == [] then rows else RunRows(StepRows(rows, events[0]), events[1..])
  }

  function RunMap(m: Holders, events: seq<Event>): Holders
    decreases |events|
  {
    if events == [] then m else RunMap(StepMap(m, events[0]), events[1..])
  }

  predicate InOrder(start: int, events: seq<Event>, end: int)
    decreases |events|
  {
    if events == [] then start <= end else start <= events[0].at && InOrder(events[0].at, events[1..], end)
  }

  lemma StepRefines(rows: seq<Lock>, e: Event, now: int)
    requires OneActive(rows) && now <= e.at
    ensures OneActive(StepRows(rows, e))
    ensures Held(StepRows(rows, e), e.at) == StepMap(Held(rows, now), e)
  {
    TimeRefines(rows, now, e.at);
    match e.op
    case DoAcquire(o, user, token, minted) => AcquireRefines(rows, o, user, token, minted, e.at);
    case DoRefresh(o, user, token) => RefreshRefines(rows, o, user, token, e.at);
    case DoRelease(o, user, token) => ReleaseRefines(rows, o, user, token, e.at);
    case DoForce(o) => ForceRefines(rows, o, e.at);
  }

  /** Over any run, the table with its whole history stands for the map the operations compute. */
  lemma {:induction false} RunRefines(rows: seq<Lock>, events: seq<Event>, start: int, end: int)
    requires OneActive(rows) && InOrder(start, events, end)
    ensures OneActive(RunRows(rows, events))
    ensures Held(RunRows(rows, events), end) == Prune(RunMap(Held(rows, start), events), end)
    decreases |events|
  {
    if events == [] {
      TimeRefines(rows, start, end);
    } else {
      StepRefines(rows, events[0], start);
      RunRefines(StepRows(rows, events[0]), events[1..], events[0].at, end);
    }
  }

  // ---------------------------------------------------------------------------
  // An idle holder

  predicate ByHolder(e: Event, o: Object, user: int)
  {
    !e.op.DoForce? && e.op.o == o && e.op.user == user
  }

  /** Nobody holds an object for longer than one lease after now. */
  predicate LeaseBound(m: Holders, now: int)
  {
    forall o :: o in m ==> m[o].expires <= now + LOCK_TTL
  }

  lemma {:induction false} RunLeaseBound(m: Holders, events: seq<Event>, start: int, end: int)
    requires LeaseBound(m, start) && InOrder(start, events, end)
    ensures LeaseBound(RunMap(m, events), end)
    decreases |events|
  {
    if events == [] {
    } else {
      RunLeaseBound(StepMap(m, events[0]), events[1..], events[0].at, end);
    }
  }

  lemma {:induction false} IdleKeepsLease(m: Holders, events: seq<Event>, start: int, end: int, o: Object, user: int,
                                          lease: int)
    requires InOrder(start, events, end)
    requires forall i :: 0 <= i < |events| ==> !ByHolder(events[i], o, user)
    requires o in m && m[o].owner == user ==> m[o].expires <= lease
    ensures var m' := RunMap(m, events); o in m' && m'[o].owner == user ==> m'[o].expires <= lease
    decreases |events|
  {
    if events == [] {
    } else {
      assert !ByHolder(events[0], o, user);
      forall i | 0 <= i < |events[1..]| ensures !ByHolder(events[1..][i], o, user) {
        assert events[1..][i] == events[i + 1];
      }
      IdleKeepsLease(StepMap(m, events[0]), events[1..], events[0].at, end, o, user, lease);
    }
  }

  /** Take any history up to `idleFrom`, then any further events in which `idle` does nothing to the object.
      One lease later `idle` no longer holds it, so another user's acquire is never turned away because of
      `idle`: it gets the lock, or meets a third user who took it in the meantime. */
  lemma IdleHolderNeverBlocks(history: seq<Event>, events: seq<Event>, start: int, idleFrom: int, now: int,
                              o: Object, idle: int, user: int, token: string, minted: string)
    requires InOrder(start, history, idleFrom) && InOrder(idleFrom, events, now)
    requires forall i :: 0 <= i < |events| ==> !ByHolder(events[i], o, idle)
    requires idleFrom + LOCK_TTL <= now && user != idle
    ensures var rows := RunRows(RunRows([], history), events);
            var reply := AcquireRows(rows, o, user, token, minted, now);
            && reply.lock.Some?
            && reply.lock.value.owner != idle
            && (reply.readonly ==> reply.lock.value.owner != user && o in Held(rows, now))
            && (!reply.readonly ==> reply.lock.value.owner == user)
  {
    var rows0 := RunRows([], history);
    var rows := RunRows(rows0, events);
    RunRefines([], history, start, idleFrom);
    RunLeaseBound(Held([], start), history, start, idleFrom);
    RunRefines(rows0, events, idleFrom, now);
    IdleKeepsLease(Held(rows0, idleFrom), events, idleFrom, now, o, idle, idleFrom + LOCK_TTL);
    AcquireRefines(rows, o, user, token, minted, now);
  }
}
