/** Run on its own at one clock reading, a request's statements do to the tables what its handler does in one
    go: the interleaved protocol and the handlers proved against the map of holders are the same code. */
module LockHandlers {
  import opened Text
  import opened LockTable
  import opened LockProtocol
  import opened LockSafety

  /** A request running `n` statements undisturbed, all at one clock reading. */
  function Alone(s: State, rid: nat, tok: string, n: nat): State
    decreases n
  {
    if n == 0 then s else Alone(Apply(s, Execute(rid, tok)), rid, tok, n - 1)
  }

  lemma {:induction false} AloneSplit(s: State, rid: nat, tok: string, m: nat, n: nat)
    ensures Alone(Alone(s, rid, tok, m), rid, tok, n) == Alone(s, rid, tok, m + n)
    decreases m
  {
    hide Apply;
    if m == 0 {
    } else {
      AloneSplit(Apply(s, Execute(rid, tok)), rid, tok, m - 1, n);
    }
  }

  /** The request has stopped and leaves these tables. */
  ghost predicate Ends(s': State, rid: nat, rows: seq<Lock>, sessions: map<string, Session>)
  {
    s'.rows == rows && s'.sessions == sessions && rid in s'.requests && s'.requests[rid] == Stopped
  }

  ghost predicate Follows(s: State, s': State, rid: nat, e: Effect)
  {
    && s'.rows == e.rows && s'.sessions == e.sessions && s'.now == s.now
    && rid in s'.requests && s'.requests[rid] == e.next
    && (!e.mints ==> s'.issued == s.issued)
  }

  lemma NextOpen(s: State, rid: nat, tok: string)
    requires rid in s.requests && IsOpen(s.requests[rid])
    ensures var e := OpenStatement(s, s.requests[rid], tok);
            (e.mints ==> tok !in s.issued) ==> Follows(s, Apply(s, Execute(rid, tok)), rid, e)
  {
    hide OpenStatement;
  }

  lemma NextAcquire(s: State, rid: nat, tok: string)
    requires rid in s.requests && IsAcquire(s.requests[rid])
    ensures var e := AcquireStatement(s, s.requests[rid], tok);
            (e.mints ==> tok !in s.issued) ==> Follows(s, Apply(s, Execute(rid, tok)), rid, e)
  {
    hide AcquireStatement;
  }

  lemma NextRefresh(s: State, rid: nat, tok: string)
    requires rid in s.requests && IsRefresh(s.requests[rid])
    ensures var e := RefreshStatement(s, s.requests[rid]);
            (e.mints ==> tok !in s.issued) ==> Follows(s, Apply(s, Execute(rid, tok)), rid, e)
  {
    hide RefreshStatement;
  }

  lemma NextRelease(s: State, rid: nat, tok: string)
    requires rid in s.requests && IsRelease(s.requests[rid])
    ensures var e := ReleaseStatement(s, s.requests[rid]);
            (e.mints ==> tok !in s.issued) ==> Follows(s, Apply(s, Execute(rid, tok)), rid, e)
  {
    hide ReleaseStatement;
  }

  lemma NextForce(s: State, rid: nat, tok: string)
    requires rid in s.requests && IsForce(s.requests[rid])
    ensures var e := ForceStatement(s, s.requests[rid]);
            (e.mints ==> tok !in s.issued) ==> Follows(s, Apply(s, Execute(rid, tok)), rid, e)
  {
    hide ForceStatement;
  }

  lemma NextStopped(s: State, rid: nat, tok: string)
    requires rid in s.requests && s.requests[rid] == Stopped
    ensures Ends(Apply(s, Execute(rid, tok)), rid, s.rows, s.sessions)
  {
  }

  lemma Three(s: State, rid: nat, tok: string)
    ensures Alone(s, rid, tok, 3) == Apply(Apply(Apply(s, Execute(rid, tok)), Execute(rid, tok)), Execute(rid, tok))
  {
    hide Apply;
    var s1 := Apply(s, Execute(rid, tok));
    var s2 := Apply(s1, Execute(rid, tok));
    assert Alone(s, rid, tok, 3) == Alone(s1, rid, tok, 2) == Alone(s2, rid, tok, 1)
        == Alone(Apply(s2, Execute(rid, tok)), rid, tok, 0);
  }

  /** Acquire. The insert never meets the unique index, and the retry is never reached. */
  lemma AcquireAlone(s: State, rid: nat, o: Object, user: int, token: Option<string>, minted: string)
    requires OneActive(s.rows) && minted !in s.issued && (token.Some? ==> token.value != "")
    requires rid in s.requests && s.requests[rid] == AcquireSweep(o, user, token, Done)
    ensures Ends(Alone(s, rid, minted, 3), rid,
                 AcquireRows(s.rows, o, user, if token.Some? then token.value else "", minted, s.now).rows, s.sessions)
  {
    hide Apply, Statement, Sweep, OneActive, Refresh;
    Three(s, rid, minted);
    var s1 := Apply(s, Execute(rid, minted));
    NextAcquire(s, rid, minted);
    NextAcquire(s1, rid, minted);
    if Select(s1.rows, o, s.now) == None {
      NothingLiveNotTaken(s.rows, o, s.now);
    }
    var s2 := Apply(s1, Execute(rid, minted));
    if s2.requests[rid] == Stopped { NextStopped(s2, rid, minted); } else { NextAcquire(s2, rid, minted); }
  }

  lemma RefreshAlone(s: State, rid: nat, o: Object, user: int, token: string, unused: string)
    requires rid in s.requests && s.requests[rid] == RefreshSweep(o, user, token)
    ensures Ends(Alone(s, rid, unused, 3), rid, RefreshRows(s.rows, o, user, token, s.now), s.sessions)
  {
    hide Apply, Statement, Sweep, Refresh;
    Three(s, rid, unused);
    var s1 := Apply(s, Execute(rid, unused));
    var s2 := Apply(s1, Execute(rid, unused));
    NextRefresh(s, rid, unused);
    NextRefresh(s1, rid, unused);
    if s2.requests[rid] == Stopped { NextStopped(s2, rid, unused); } else { NextRefresh(s2, rid, unused); }
  }

  lemma ReleaseAlone(s: State, rid: nat, o: Object, user: int, token: Option<string>, unused: string)
    requires rid in s.requests && s.requests[rid] == ReleaseSweep(o, user, token, None)
    ensures Ends(Alone(s, rid, unused, 3), rid, ReleaseRows(s.rows, o, user, token, s.now).0, s.sessions)
  {
    hide Apply, Statement, Sweep, SetStatus;
    Three(s, rid, unused);
    var s1 := Apply(s, Execute(rid, unused));
    var s2 := Apply(s1, Execute(rid, unused));
    NextRelease(s, rid, unused);
    NextRelease(s1, rid, unused);
    if s2.requests[rid] == Stopped { NextStopped(s2, rid, unused); } else { NextRelease(s2, rid, unused); }
  }

  /** Force-unlock also closes every session on the object. */
  lemma ForceAlone(s: State, rid: nat, o: Object, unused: string)
    requires rid in s.requests && s.requests[rid] == ForceSweep(o)
    ensures Ends(Alone(s, rid, unused, 4), rid, ForceRows(s.rows, o, s.now).0, CloseMatching(s.sessions, o, None))
  {
    hide Apply, Statement, Sweep, SetStatus, CloseMatching;
    Three(s, rid, unused);
    var s1 := Apply(s, Execute(rid, unused));
    var s2 := Apply(s1, Execute(rid, unused));
    var s3 := Apply(s2, Execute(rid, unused));
    NextForce(s, rid, unused);
    NextForce(s1, rid, unused);
    NextForce(s2, rid, unused);
    AloneSplit(s, rid, unused, 3, 1);
    One(s3, rid, unused);
    if s3.requests[rid] == Stopped { NextStopped(s3, rid, unused); } else { NextForce(s3, rid, unused); }
  }

  lemma One(s: State, rid: nat, tok: string)
    ensures Alone(s, rid, tok, 1) == Apply(s, Execute(rid, tok))
  {
    hide Apply;
    assert Alone(s, rid, tok, 1) == Alone(Apply(s, Execute(rid, tok)), rid, tok, 0);
  }

  lemma NextGate(s: State, rid: nat, tok: string)
    requires rid in s.requests && IsGate(s.requests[rid])
    ensures var e := GateStatement(s, s.requests[rid]);
            (e.mints ==> tok !in s.issued) ==> Follows(s, Apply(s, Execute(rid, tok)), rid, e)
  {
    hide GateStatement;
  }
}
