/** What the save gate does not give: a save that has passed it may write after the lock went to someone else. */
module LockGate {
  import opened Text
  import opened LockTable
  import opened LockRefinement
  import opened LockProtocol
  import opened LockSafety
  import opened LockHandlers
  import opened LockSessions

  /** A request that arrives and runs `n` statements undisturbed. */
  function Undisturbed(rid: nat, request: Request, tok: string, n: nat): seq<Label>
  {
    [Arrive(rid, request)] + Steps(rid, tok, n)
  }

  function Steps(rid: nat, tok: string, n: nat): seq<Label>
  {
    if n == 0 then [] else [Execute(rid, tok)] + Steps(rid, tok, n - 1)
  }

  /** The other requests stay where they are, no time passes, and at most one token is issued. */
  ghost predicate Aside(s: State, s': State, rid: nat, tok: string)
  {
    && s'.now == s.now && s'.issued <= s.issued + {tok}
    && (forall r :: r != rid ==>
          (r in s.requests <==> r in s'.requests) && (r in s.requests ==> s'.requests[r] == s.requests[r]))
  }

  lemma {:induction false} StepsAlone(s: State, rid: nat, tok: string, n: nat)
    ensures Run(s, Steps(rid, tok, n)) == Alone(s, rid, tok, n) && Aside(s, Alone(s, rid, tok, n), rid, tok)
    decreases n
  {
    hide Statement;
    if n == 0 {
    } else {
      var s1 := Apply(s, Execute(rid, tok));
      assert Steps(rid, tok, n)[1..] == Steps(rid, tok, n - 1);
      StepsAlone(s1, rid, tok, n - 1);
    }
  }

  lemma {:induction false} RunConcat(s: State, a: seq<Label>, b: seq<Label>)
    ensures Run(s, a + b) == Run(Run(s, a), b)
    decreases |a|
  {
    hide Apply;
    if a == [] {
      assert a + b == b;
    } else {
      assert (a + b)[0] == a[0] && (a + b)[1..] == a[1..] + b;
      RunConcat(Apply(s, a[0]), a[1..], b);
    }
  }

  lemma UndisturbedRun(s: State, rid: nat, request: Request, tok: string, n: nat)
    requires Inv(s) && rid !in s.requests && Entry(request)
    ensures var s0, s' := s.(requests := s.requests[rid := request]), Run(s, Undisturbed(rid, request, tok, n));
            s' == Alone(s0, rid, tok, n) && Inv(s') && Aside(s, s', rid, tok)
  {
    RunKeepsInv(s, Undisturbed(rid, request, tok, n));
    hide Inv;
    var s0 := s.(requests := s.requests[rid := request]);
    assert Apply(s, Arrive(rid, request)) == s0;
    hide Apply, Alone, Entry, Aside;
    assert Undisturbed(rid, request, tok, n)[1..] == Steps(rid, tok, n);
    StepsAlone(s0, rid, tok, n);
    AsideFromArrival(s, rid, request, Alone(s0, rid, tok, n), tok);
  }

  lemma AsideFromArrival(s: State, rid: nat, request: Request, s': State, tok: string)
    requires Aside(s.(requests := s.requests[rid := request]), s', rid, tok)
    ensures Aside(s, s', rid, tok)
  {
  }

  /** A usable edit session, and the live lock with its user and token. */
  ghost predicate Editing(s: State, sid: string, o: Object, user: int)
  {
    && Usable(s, sid) && s.sessions[sid].obj == o && s.sessions[sid].user == user
    && s.sessions[sid].editor == Monaco && s.sessions[sid].mode == Edit
    && o in Held(s.rows, s.now) && Held(s.rows, s.now)[o].owner == user
    && Held(s.rows, s.now)[o].token == s.sessions[sid].token
  }

  lemma Opens(s: State, rid: nat, o: Object, user: int, sid: string, tok: string)
    requires Inv(s) && rid !in s.requests && !Foreign(Held(s.rows, s.now), o, user)
    requires sid !in s.sessions && tok !in s.issued && tok != ""
    ensures var s' := Run(s, Undisturbed(rid, OpenExpire(o, user, sid), tok, 7));
            && Inv(s') && Aside(s, s', rid, tok) && Editing(s', sid, o, user)
            && s'.sessions.Keys == s.sessions.Keys + {sid}
            && s'.sessions[sid].obj == o && s'.sessions[sid].user == user
  {
    UndisturbedRun(s, rid, OpenExpire(o, user, sid), tok, 7);
    OneActiveOf(s);
    hide Run, Alone, Held, Inv, Aside, OneActive;
    OpenGivesEditing(s.(requests := s.requests[rid := OpenExpire(o, user, sid)]), rid, o, user, sid, tok);
  }

  lemma OneActiveOf(s: State)
    requires Inv(s)
    ensures OneActive(s.rows)
  {
  }

  lemma OpenGivesEditing(s: State, rid: nat, o: Object, user: int, sid: string, tok: string)
    requires OneActive(s.rows) && !Foreign(Held(s.rows, s.now), o, user)
    requires sid !in s.sessions && tok !in s.issued && tok != ""
    requires rid in s.requests && s.requests[rid] == OpenExpire(o, user, sid)
    ensures var s' := Alone(s, rid, tok, 7);
            Editing(s', sid, o, user) && s'.sessions.Keys == s.sessions.Keys + {sid}
  {
    hide Alone, Held, OneActive;
    var kept := TextOpenAlone(s, rid, o, user, sid, tok);
  }

  lemma Saves(s: State, rid: nat, o: Object, user: int, sid: string)
    requires Inv(s) && rid !in s.requests && Editing(s, sid, o, user)
    ensures var s' := Run(s, Undisturbed(rid, GateLoad(sid, user), "", 3));
            && Inv(s') && Aside(s, s', rid, "") && s'.sessions == s.sessions
            && rid in s'.requests && s'.requests[rid] == GatePassed(sid)
  {
    UndisturbedRun(s, rid, GateLoad(sid, user), "", 3);
    OneActiveOf(s);
    hide Run, Alone, Held, Inv, Aside, OneActive;
    SaveAlone(s.(requests := s.requests[rid := GateLoad(sid, user)]), rid, sid, user, "");
  }

  lemma Forces(s: State, rid: nat, o: Object)
    requires Inv(s) && rid !in s.requests
    ensures var s' := Run(s, Undisturbed(rid, ForceSweep(o), "", 4));
            && Inv(s') && Aside(s, s', rid, "") && s'.sessions == CloseMatching(s.sessions, o, None)
            && o !in Held(s'.rows, s'.now)
  {
    UndisturbedRun(s, rid, ForceSweep(o), "", 4);
    ForceAlone(s.(requests := s.requests[rid := ForceSweep(o)]), rid, o, "");
    ForceRefines(s.rows, o, s.now);
  }

  const GATE_OBJECT := Object("b", "k")
  /** One user opens the object, has a save pass the gate, and loses the lock by force. */
  const LOSING: seq<Label> :=
    Undisturbed(0, OpenExpire(GATE_OBJECT, 1, "first"), "t", 7) +
    (Undisturbed(1, GateLoad("first", 1), "", 3) + Undisturbed(2, ForceSweep(GATE_OBJECT), "", 4))
  /** Another user opens it, and has a save pass the gate. */
  const TAKING: seq<Label> :=
    Undisturbed(3, OpenExpire(GATE_OBJECT, 2, "second"), "u", 7) + Undisturbed(4, GateLoad("second", 2), "", 3)

  /** Everything the second user's part needs to know about the first's. */
  ghost predicate FirstPassed(s: State)
  {
    && Inv(s) && s.issued <= {"", "t"} && s.sessions.Keys == {"first"}
    && 1 in s.requests && s.requests[1] == GatePassed("first") && 3 !in s.requests && 4 !in s.requests
    && s.sessions["first"].obj == GATE_OBJECT && s.sessions["first"].user == 1
  }

  lemma PassesTheGate()
    ensures var s := Run(INITIAL, Undisturbed(0, OpenExpire(GATE_OBJECT, 1, "first"), "t", 7) +
                                  Undisturbed(1, GateLoad("first", 1), "", 3));
            FirstPassed(s) && 2 !in s.requests
  {
    hide Inv, Undisturbed, Editing, Held, Run;
    InitialInv();
    NobodyHolds();
    var open := Undisturbed(0, OpenExpire(GATE_OBJECT, 1, "first"), "t", 7);
    var save := Undisturbed(1, GateLoad("first", 1), "", 3);
    Opens(INITIAL, 0, GATE_OBJECT, 1, "first", "t");
    Saves(Run(INITIAL, open), 1, GATE_OBJECT, 1, "first");
    RunConcat(INITIAL, open, save);
  }

  lemma LosesTheLock()
    ensures FirstPassed(Run(INITIAL, LOSING))
    ensures GATE_OBJECT !in Held(Run(INITIAL, LOSING).rows, Run(INITIAL, LOSING).now)
  {
    hide Inv, Undisturbed, Editing, Held, Run;
    PassesTheGate();
    var open := Undisturbed(0, OpenExpire(GATE_OBJECT, 1, "first"), "t", 7);
    var save := Undisturbed(1, GateLoad("first", 1), "", 3);
    var force := Undisturbed(2, ForceSweep(GATE_OBJECT), "", 4);
    Forces(Run(INITIAL, open + save), 2, GATE_OBJECT);
    RunConcat(INITIAL, open + save, force);
    assert open + save + force == LOSING;
  }

  /** It happens: a save has passed the gate; its lock is forced away, another user opens the object, and that
      user's save passes too. Both are about to write. */
  lemma BothPastTheGate()
    ensures var s := Run(INITIAL, LOSING + TAKING);
            && Inv(s) && 1 in s.requests && 4 in s.requests && "first" in s.sessions && "second" in s.sessions
            && s.requests[1] == GatePassed("first") && s.requests[4] == GatePassed("second")
            && s.sessions["first"].obj == s.sessions["second"].obj
            && s.sessions["first"].user != s.sessions["second"].user
  {
    hide Inv, Undisturbed, Editing, Held, Run;
    var s := Run(INITIAL, LOSING);
    LosesTheLock();
    var open := Undisturbed(3, OpenExpire(GATE_OBJECT, 2, "second"), "u", 7);
    var save := Undisturbed(4, GateLoad("second", 2), "", 3);
    var s1 := Run(s, open);
    Opens(s, 3, GATE_OBJECT, 2, "second", "u");
    Saves(s1, 4, GATE_OBJECT, 2, "second");
    RunConcat(INITIAL, LOSING, open + save);
    RunConcat(s, open, save);
    FirstSessionStays(s, open);
  }

  lemma NobodyHolds()
    ensures Held(INITIAL.rows, INITIAL.now) == map[]
  {
  }

  lemma FirstSessionStays(s: State, labels: seq<Label>)
    ensures forall sid :: sid in s.sessions ==>
              sid in Run(s, labels).sessions && Run(s, labels).sessions[sid].obj == s.sessions[sid].obj
              && Run(s, labels).sessions[sid].user == s.sessions[sid].user
  {
    RunIsLater(s, labels);
  }
}
