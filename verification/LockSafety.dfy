/** Safety of the edit-lock protocol over every interleaving. */
module LockSafety {
  import opened Text
  import opened LockTable
  import opened LockProtocol

  // ---------------------------------------------------------------------------
  // Tokens in flight

  /** The token a request may still write into a lock row. */
  function Pending(p: Request): Option<string>
  {
    match p
    case AcquireSweep(_, _, token, _) => token
    case AcquireSelect(_, _, token, _) => token
    case AcquireRefresh(_, _, _, token, _) => token
    case AcquireInsert(_, _, tok, _) => Some(tok)
    case _ => None
  }

  /** The token a request still owns: to write into a row, or to store in its session. */
  function Carried(p: Request): Option<string>
  {
    match p
    case RetrySweep(_, _, tok, _) => Some(tok)
    case RetrySelect(_, _, tok, _) => Some(tok)
    case AddSession(_, session) => if session.token == "" then None else Some(session.token)
    case _ => Pending(p)
  }

  predicate EndingOK(token: Option<string>, ending: Ending)
  {
    && (token.Some? ==> token.value != "")
    && (ending.Open? ==> token.Some?)
  }

  /** Edit sessions always carry a token. */
  predicate WellFormed(p: Request)
  {
    match p
    case AcquireSweep(_, _, token, ending) => EndingOK(token, ending)
    case AcquireSelect(_, _, token, ending) => EndingOK(token, ending)
    case AcquireRefresh(_, _, _, token, ending) => EndingOK(token, ending)
    case AcquireInsert(_, _, tok, _) => tok != ""
    case RetrySweep(_, _, tok, _) => tok != ""
    case RetrySelect(_, _, tok, _) => tok != ""
    case AddSession(_, session) => session.mode == Edit ==> session.token != ""
    case _ => true
  }

  /** A gate check works on a copy of its session that differs at most in being open. */
  ghost predicate GateOK(s: State, p: Request)
  {
    match p
    case GateSweep(sid, session) => GateCopy(s, sid, session)
    case GateSelect(sid, session) => GateCopy(s, sid, session)
    case _ => true
  }

  ghost predicate GateCopy(s: State, sid: string, session: Session)
  {
    && sid in s.sessions && s.sessions[sid].(open := session.open) == session
    && session.editor == Monaco && session.mode == Edit
  }

  // ---------------------------------------------------------------------------
  // The invariant

  ghost predicate RowsOK(s: State)
  {
    && OneActive(s.rows)
    && "" in s.issued
    && (forall i :: 0 <= i < |s.rows| ==> s.rows[i].token in s.issued)
    && (forall i, j :: 0 <= i < j < |s.rows| ==> s.rows[i].token != s.rows[j].token)
  }

  ghost predicate SessionsOK(s: State)
  {
    && (forall sid :: sid in s.sessions ==>
          s.sessions[sid].token in s.issued && (s.sessions[sid].mode == Edit ==> s.sessions[sid].token != ""))
    && (forall a, b :: a in s.sessions && b in s.sessions && a != b ==>
          s.sessions[a].token == "" || s.sessions[a].token != s.sessions[b].token)
  }

  ghost predicate RequestOK(s: State, p: Request)
  {
    && WellFormed(p) && GateOK(s, p)
    && (Carried(p).Some? ==>
          Carried(p).value in s.issued && forall sid :: sid in s.sessions ==> s.sessions[sid].token != Carried(p).value)
    && (Pending(p).Some? ==> forall i :: 0 <= i < |s.rows| ==> s.rows[i].token != Pending(p).value)
  }

  ghost predicate RequestsOK(s: State)
  {
    && (forall r :: r in s.requests ==> RequestOK(s, s.requests[r]))
    && (forall r, q :: r in s.requests && q in s.requests && r != q && Carried(s.requests[r]).Some?
                       ==> Carried(s.requests[r]) != Carried(s.requests[q]))
  }

  ghost predicate Inv(s: State)
  {
    RowsOK(s) && SessionsOK(s) && RequestsOK(s)
  }

  // ---------------------------------------------------------------------------
  // What one statement does to rows, tokens and sessions

  /** Rows keep object and owner, never become active again, and at most row `at` receives a token. */
  ghost predicate RowsStep(rows: seq<Lock>, rows': seq<Lock>, written: Option<string>, at: nat)
  {
    && |rows| <= |rows'| <= |rows| + 1
    && (OneActive(rows) ==> OneActive(rows'))
    && (forall i :: 0 <= i < |rows| ==>
          && rows'[i].obj == rows[i].obj && rows'[i].owner == rows[i].owner
          && (rows'[i].status == Active ==> rows[i].status == Active)
          && (written == None || i != at ==> rows'[i].token == rows[i].token))
    && (|rows'| > |rows| ==> written.Some? && at == |rows|)
    && (written.Some? ==> at < |rows'| && rows'[at].token == written.value)
  }

  function Written(s: State, p: Request): Option<string>
  {
    match p
    case AcquireRefresh(id, _, _, token, _) => if id < |s.rows| then token else None
    case AcquireInsert(o, _, tok, _) => if Taken(s.rows, o) then None else Some(tok)
    case _ => None
  }

  function WrittenAt(s: State, p: Request): nat
  {
    match p
    case AcquireRefresh(id, _, _, _, _) => id
    case _ => |s.rows|
  }

  lemma StatementRows(s: State, p: Request, minted: string)
    ensures RowsStep(s.rows, Statement(s, p, minted).rows, Written(s, p), WrittenAt(s, p))
  {
    hide RowsStep, Sweep, Select, Refresh, SetStatus, OpenStatement, AcquireStatement, RefreshStatement,
         ReleaseStatement, ForceStatement, GateStatement;
    if IsOpen(p) { RowsByOpen(s, p, minted); }
    else if IsAcquire(p) { RowsByAcquire(s, p, minted); }
    else if IsRefresh(p) { RowsByRefresh(s, p); }
    else if IsRelease(p) { RowsByRelease(s, p); }
    else if IsForce(p) { RowsByForce(s, p); }
    else { RowsByGate(s, p); }
  }

  lemma RowsByOpen(s: State, p: Request, minted: string)
    requires IsOpen(p)
    ensures RowsStep(s.rows, OpenStatement(s, p, minted).rows, None, |s.rows|)
  {
    hide RowsStep, Sweep, Select;
    SameStep(s.rows, |s.rows|);
    if p.OpenSweep? { SweepStep(s.rows, p.obj, s.now); }
  }

  lemma RowsByAcquire(s: State, p: Request, minted: string)
    requires IsAcquire(p)
    ensures RowsStep(s.rows, AcquireStatement(s, p, minted).rows, Written(s, p), WrittenAt(s, p))
  {
    hide RowsStep, Sweep, Select, Refresh;
    SameStep(s.rows, |s.rows|);
    match p
    case AcquireInsert(o, user, tok, _) => InsertStep(s.rows, o, user, tok, s.now);
    case AcquireRefresh(id, _, _, token, _) =>
      if id < |s.rows| { RefreshStep(s.rows, id, token, s.now); } else { SameStep(s.rows, id); }
    case AcquireSweep(o, _, _, _) => SweepStep(s.rows, o, s.now);
    case RetrySweep(o, _, _, _) => SweepStep(s.rows, o, s.now);
    case _ =>
  }

  lemma RowsByRefresh(s: State, p: Request)
    requires IsRefresh(p)
    ensures RowsStep(s.rows, RefreshStatement(s, p).rows, None, |s.rows|)
  {
    hide RowsStep, Sweep, Select, Refresh;
    SameStep(s.rows, |s.rows|);
    match p
    case RefreshUpdate(id) => if id < |s.rows| { RefreshStep(s.rows, id, None, s.now); }
    case RefreshSweep(o, _, _) => SweepStep(s.rows, o, s.now);
    case _ =>
  }

  lemma RowsByRelease(s: State, p: Request)
    requires IsRelease(p)
    ensures RowsStep(s.rows, ReleaseStatement(s, p).rows, None, |s.rows|)
  {
    hide RowsStep, Sweep, Select, SetStatus;
    SameStep(s.rows, |s.rows|);
    match p
    case ReleaseUpdate(id, _) => if id < |s.rows| { StatusStep(s.rows, id, Released); }
    case ReleaseSweep(o, _, _, _) => SweepStep(s.rows, o, s.now);
    case _ =>
  }

  lemma RowsByForce(s: State, p: Request)
    requires IsForce(p)
    ensures RowsStep(s.rows, ForceStatement(s, p).rows, None, |s.rows|)
  {
    hide RowsStep, Sweep, Select, SetStatus;
    SameStep(s.rows, |s.rows|);
    match p
    case ForceUpdate(id, _) => if id < |s.rows| { StatusStep(s.rows, id, ForceReleased); }
    case ForceSweep(o) => SweepStep(s.rows, o, s.now);
    case _ =>
  }

  lemma RowsByGate(s: State, p: Request)
    requires IsGate(p)
    ensures RowsStep(s.rows, GateStatement(s, p).rows, None, |s.rows|)
  {
    hide RowsStep, Sweep, Select;
    SameStep(s.rows, |s.rows|);
    if p.GateSweep? { SweepStep(s.rows, p.session.obj, s.now); }
  }

  lemma SameStep(rows: seq<Lock>, at: nat)
    ensures RowsStep(rows, rows, None, at)
  {
  }

  lemma SweepStep(rows: seq<Lock>, o: Object, now: int)
    ensures RowsStep(rows, Sweep(rows, o, now), None, |rows|)
  {
  }

  lemma StatusStep(rows: seq<Lock>, id: nat, status: Status)
    requires id < |rows| && status != Active
    ensures RowsStep(rows, SetStatus(rows, id, status), None, |rows|)
  {
  }

  lemma InsertStep(rows: seq<Lock>, o: Object, user: int, tok: string, now: int)
    ensures !Taken(rows, o) ==> RowsStep(rows, Insert(rows, o, user, tok, now).value, Some(tok), |rows|)
  {
  }

  lemma RefreshStep(rows: seq<Lock>, id: nat, token: Option<string>, now: int)
    requires id < |rows|
    ensures RowsStep(rows, Refresh(rows, id, token, now), token, id)
    ensures token == None ==> RowsStep(rows, Refresh(rows, id, token, now), None, |rows|)
  {
  }

  /** Tokens flow from minting to at most one row and at most one session. */
  ghost predicate RequestStep(p: Request, p': Request, written: Option<string>, mint: Option<string>)
  {
    && WellFormed(p')
    && (Pending(p').Some? ==> Pending(p') == mint || (Pending(p') == Pending(p) && written == None))
    && (Carried(p').Some? ==> Carried(p') == mint || Carried(p') == Carried(p))
    && (written.Some? ==> Pending(p) == written)
  }

  function Mint(e: Effect, minted: string): Option<string>
  {
    if e.mints then Some(minted) else None
  }

  ghost predicate RequestEffect(s: State, p: Request, e: Effect, minted: string)
  {
    WellFormed(p) && (e.mints ==> minted != "") ==> RequestStep(p, e.next, Written(s, p), Mint(e, minted))
  }

  lemma StatementRequest(s: State, p: Request, minted: string)
    requires WellFormed(p) && (Statement(s, p, minted).mints ==> minted != "")
    ensures var e := Statement(s, p, minted); RequestStep(p, e.next, Written(s, p), Mint(e, minted))
  {
    hide OpenStatement, AcquireStatement, RefreshStatement, ReleaseStatement, ForceStatement, GateStatement,
         RequestStep, WellFormed, Written;
    if IsOpen(p) { RequestByOpen(s, p, minted); }
    else if IsAcquire(p) { RequestByAcquire(s, p, minted); }
    else if IsRelease(p) { RequestByRelease(s, p, minted); }
    else { RequestByOther(s, p, minted); }
  }

  lemma RequestByOpen(s: State, p: Request, minted: string)
    requires IsOpen(p)
    ensures RequestEffect(s, p, OpenStatement(s, p, minted), minted)
  {
    hide Sweep, Select, CloseMatching;
  }

  lemma RequestByAcquire(s: State, p: Request, minted: string)
    requires IsAcquire(p)
    ensures RequestEffect(s, p, AcquireStatement(s, p, minted), minted)
  {
    hide Sweep, Select, Refresh;
  }

  lemma RequestByRelease(s: State, p: Request, minted: string)
    requires IsRelease(p)
    ensures RequestEffect(s, p, ReleaseStatement(s, p), minted)
  {
    hide Sweep, Select, SetStatus, ActiveSession;
  }

  lemma RequestByOther(s: State, p: Request, minted: string)
    requires IsRefresh(p) || IsForce(p) || IsGate(p)
    ensures RequestEffect(s, p, Statement(s, p, minted), minted)
  {
    hide Sweep, Select, Refresh, SetStatus, CloseMatching, ActiveSession, OpenStatement, AcquireStatement,
         ReleaseStatement;
    assert !IsOpen(p) && !IsAcquire(p) && !IsRelease(p);
  }

  /** Sessions change only by closing, and a new one takes its token from the request. */
  ghost predicate SessionsStep(old': map<string, Session>, new': map<string, Session>, p: Request, p': Request)
  {
    && (forall sid :: sid in old' ==>
          && sid in new' && new'[sid] == old'[sid].(open := new'[sid].open)
          && (new'[sid].open ==> old'[sid].open))
    && (forall sid :: sid in new' && sid !in old' ==>
          p.AddSession? && sid == p.sid && new'[sid] == p.session && p' == Stopped)
  }

  lemma StatementSessions(s: State, p: Request, minted: string)
    ensures var e := Statement(s, p, minted); SessionsStep(s.sessions, e.sessions, p, e.next)
  {
    hide OpenStatement, AcquireStatement, RefreshStatement, ReleaseStatement, ForceStatement, GateStatement,
         SessionsStep;
    if IsOpen(p) { SessionsByOpen(s, p, minted); }
    else if IsRelease(p) { SessionsByRelease(s, p); }
    else if IsAcquire(p) { SessionsByAcquire(s, p, minted); }
    else if IsRefresh(p) { SessionsByRefresh(s, p); }
    else if IsForce(p) { SessionsByForce(s, p); }
    else { SessionsByGate(s, p); }
  }

  lemma SameSessions(sessions: map<string, Session>, p: Request, p': Request)
    ensures SessionsStep(sessions, sessions, p, p')
  {
  }

  lemma SessionsByOpen(s: State, p: Request, minted: string)
    requires IsOpen(p)
    ensures var e := OpenStatement(s, p, minted); SessionsStep(s.sessions, e.sessions, p, e.next)
  {
    hide Sweep, Select;
  }

  lemma SessionsByRelease(s: State, p: Request)
    requires IsRelease(p)
    ensures var e := ReleaseStatement(s, p); SessionsStep(s.sessions, e.sessions, p, e.next)
  {
    hide Sweep, Select, SetStatus, ActiveSession;
  }

  lemma SessionsByAcquire(s: State, p: Request, minted: string)
    requires IsAcquire(p)
    ensures var e := AcquireStatement(s, p, minted);
            e.sessions == s.sessions && SessionsStep(s.sessions, e.sessions, p, e.next)
  {
    SameSessions(s.sessions, p, AcquireStatement(s, p, minted).next);
    hide SessionsStep, Sweep, Select, Refresh, Insert;
  }

  lemma SessionsByRefresh(s: State, p: Request)
    requires IsRefresh(p)
    ensures var e := RefreshStatement(s, p); SessionsStep(s.sessions, e.sessions, p, e.next)
  {
    SameSessions(s.sessions, p, RefreshStatement(s, p).next);
    hide SessionsStep, Sweep, Select, Refresh;
  }

  lemma SessionsByForce(s: State, p: Request)
    requires IsForce(p)
    ensures var e := ForceStatement(s, p); SessionsStep(s.sessions, e.sessions, p, e.next)
  {
    hide Sweep, Select, SetStatus;
  }

  lemma SessionsByGate(s: State, p: Request)
    requires IsGate(p)
    ensures var e := GateStatement(s, p); SessionsStep(s.sessions, e.sessions, p, e.next)
  {
    SameSessions(s.sessions, p, GateStatement(s, p).next);
    hide SessionsStep, Sweep, Select, ActiveSession;
  }

  lemma StatementGate(s: State, p: Request, minted: string)
    requires GateOK(s, p)
    ensures GateOK(s, Statement(s, p, minted).next)
  {
    hide Sweep, Select, Refresh, SetStatus, Insert, CloseMatching, OpenStatement, AcquireStatement, RefreshStatement,
         ReleaseStatement, ForceStatement;
    if IsOpen(p) || IsAcquire(p) || IsRefresh(p) || IsRelease(p) || IsForce(p) { NoGate(s, p, minted); }
  }

  lemma NoGate(s: State, p: Request, minted: string)
    requires IsOpen(p) || IsAcquire(p) || IsRefresh(p) || IsRelease(p) || IsForce(p)
    ensures !IsGate(Statement(s, p, minted).next) || Statement(s, p, minted).next == Stopped
  {
    hide Sweep, Select, Refresh, SetStatus, Insert, CloseMatching, ActiveSession;
  }

  // ---------------------------------------------------------------------------
  // Every step keeps the invariant

  lemma RowsKept(s: State, s': State, written: Option<string>, at: nat)
    requires RowsOK(s) && RowsStep(s.rows, s'.rows, written, at) && s.issued <= s'.issued
    requires written.Some? ==> written.value in s.issued
    requires written.Some? ==> forall i :: 0 <= i < |s.rows| ==> s.rows[i].token != written.value
    ensures RowsOK(s')
  {
  }

  lemma SessionsKept(s: State, s': State, p: Request, p': Request)
    requires SessionsOK(s) && RequestOK(s, p) && "" in s.issued && s.issued <= s'.issued
    requires SessionsStep(s.sessions, s'.sessions, p, p')
    ensures SessionsOK(s')
  {
  }

  /** A request that does not move stays fine while another one, `p`, moves to `p'`. */
  lemma OtherRequestKept(s: State, s': State, q: Request, p: Request, p': Request, written: Option<string>, at: nat)
    requires RequestOK(s, q) && RequestOK(s, p) && s.issued <= s'.issued
    requires Carried(q).Some? ==> Carried(q) != Carried(p)
    requires RowsStep(s.rows, s'.rows, written, at) && (written.Some? ==> Pending(p) == written)
    requires SessionsStep(s.sessions, s'.sessions, p, p')
    ensures RequestOK(s', q)
  {
    assert Pending(q).Some? ==> Carried(q) == Pending(q);
    assert Pending(p).Some? ==> Carried(p) == Pending(p);
    if Pending(q).Some? {
      forall i | 0 <= i < |s'.rows| ensures s'.rows[i].token != Pending(q).value {
        assert i < |s.rows| && (written == None || i != at) ==> s'.rows[i].token == s.rows[i].token;
      }
    }
  }

  lemma MovedRequestKept(s: State, s': State, p: Request, p': Request, written: Option<string>, at: nat,
                         mint: Option<string>)
    requires RowsOK(s) && SessionsOK(s) && RequestOK(s, p) && s.issued <= s'.issued
    requires mint.Some? ==> mint.value !in s.issued && mint.value in s'.issued
    requires RowsStep(s.rows, s'.rows, written, at) && SessionsStep(s.sessions, s'.sessions, p, p')
    requires RequestStep(p, p', written, mint) && GateOK(s', p')
    ensures RequestOK(s', p')
  {
    assert Pending(p).Some? ==> Carried(p) == Pending(p);
    if Carried(p').Some? {
      forall sid | sid in s'.sessions ensures s'.sessions[sid].token != Carried(p').value {
        assert sid in s.sessions;
      }
    }
    if Pending(p').Some? {
      forall i | 0 <= i < |s'.rows| ensures s'.rows[i].token != Pending(p').value {
        assert i < |s.rows| ==> s'.rows[i].token == s.rows[i].token || written.Some?;
      }
    }
  }

  lemma ExecuteKeepsInv(s: State, rid: nat, tok: string)
    requires Inv(s) && Enabled(s, rid, tok)
    ensures Inv(Apply(s, Execute(rid, tok)))
  {
    hide Statement, RowsOK, SessionsOK, RequestOK, RowsStep, SessionsStep;
    var s', p := Apply(s, Execute(rid, tok)), s.requests[rid];
    var e, written, at := Statement(s, p, tok), Written(s, p), WrittenAt(s, p);
    EmptyIssued(s, p);
    StatementRows(s, p, tok);
    StatementRequest(s, p, tok);
    StatementSessions(s, p, tok);
    PendingUnwritten(s, p, written);
    RowsKept(s, s', written, at);
    SessionsKept(s, s', p, e.next);
    StatementGate(s, p, tok);
    GateKept(s, s', e.next, p, e.next);
    MovedRequestKept(s, s', p, e.next, written, at, Mint(e, tok));
    forall q | q in s.requests && q != rid ensures RequestOK(s', s.requests[q]) {
      OtherRequestKept(s, s', s.requests[q], p, e.next, written, at);
    }
    CarriedStaysDistinct(s, s', rid, p, e.next, Mint(e, tok));
  }

  lemma EmptyIssued(s: State, p: Request)
    requires RowsOK(s) && RequestOK(s, p)
    ensures "" in s.issued && WellFormed(p) && GateOK(s, p)
  {
  }

  lemma PendingUnwritten(s: State, p: Request, written: Option<string>)
    requires RequestOK(s, p) && (written.Some? ==> Pending(p) == written)
    ensures written.Some? ==> written.value in s.issued
    ensures written.Some? ==> forall i :: 0 <= i < |s.rows| ==> s.rows[i].token != written.value
  {
  }

  lemma GateKept(s: State, s': State, q: Request, p: Request, p': Request)
    requires GateOK(s, q) && SessionsStep(s.sessions, s'.sessions, p, p')
    ensures GateOK(s', q)
  {
  }

  lemma CarriedStaysDistinct(s: State, s': State, rid: nat, p: Request, p': Request, mint: Option<string>)
    requires RequestsOK(s) && rid in s.requests && s.requests[rid] == p && s'.requests == s.requests[rid := p']
    requires mint.Some? ==> mint.value !in s.issued
    requires Carried(p').Some? ==> Carried(p') == mint || Carried(p') == Carried(p)
    ensures forall r, q :: r in s'.requests && q in s'.requests && r != q && Carried(s'.requests[r]).Some?
                           ==> Carried(s'.requests[r]) != Carried(s'.requests[q])
  {
    hide Carried;
    forall r, q | r in s'.requests && q in s'.requests && r != q && Carried(s'.requests[r]).Some?
      ensures Carried(s'.requests[r]) != Carried(s'.requests[q])
    {
      assert RequestOK(s, s.requests[r]) && RequestOK(s, s.requests[q]);
    }
  }

  lemma ApplyKeepsInv(s: State, l: Label)
    requires Inv(s)
    ensures Inv(Apply(s, l))
  {
    hide Inv, Statement;
    match l
    case Execute(rid, tok) =>
      if Enabled(s, rid, tok) {
        ExecuteKeepsInv(s, rid, tok);
      }
    case Tick(_) => SameTablesKeepInv(s, Apply(s, l), None);
    case Arrive(rid, request) =>
      if rid !in s.requests && Entry(request) {
        SameTablesKeepInv(s, Apply(s, l), Some(rid));
      }
    case Fail(rid) =>
      if rid in s.requests {
        SameTablesKeepInv(s, Apply(s, l), Some(rid));
      }
  }

  /** Requests that own no token are harmless. */
  lemma SameTablesKeepInv(s: State, s': State, moved: Option<nat>)
    requires Inv(s) && s'.rows == s.rows && s'.sessions == s.sessions && s'.issued == s.issued
    requires forall r :: r in s'.requests && Some(r) != moved ==> r in s.requests && s'.requests[r] == s.requests[r]
    requires moved.Some? && moved.value in s'.requests ==>
               var p := s'.requests[moved.value];
               WellFormed(p) && Carried(p) == None && !p.GateSweep? && !p.GateSelect?
    ensures Inv(s')
  {
    forall r | r in s'.requests ensures RequestOK(s', s'.requests[r]) {
      if Some(r) != moved {
        assert RequestOK(s, s.requests[r]);
      }
    }
  }

  /** Every state of every interleaving satisfies the invariant. */
  lemma {:induction false} RunKeepsInv(s: State, labels: seq<Label>)
    requires Inv(s)
    ensures Inv(Run(s, labels))
    decreases |labels|
  {
    hide Inv, Apply;
    if labels == [] {
    } else {
      ApplyKeepsInv(s, labels[0]);
      RunKeepsInv(Apply(s, labels[0]), labels[1..]);
    }
  }

  lemma InitialInv()
    ensures Inv(INITIAL)
  {
  }

  // ---------------------------------------------------------------------------
  // History

  /** Lock rows are never deleted, keep object and owner, and never become active again; sessions are never
      deleted or reopened and keep everything else. */
  ghost predicate Later(s: State, s': State)
  {
    && s.now <= s'.now && |s.rows| <= |s'.rows|
    && (forall i :: 0 <= i < |s.rows| ==>
          && s'.rows[i].obj == s.rows[i].obj && s'.rows[i].owner == s.rows[i].owner
          && (s'.rows[i].status == Active ==> s.rows[i].status == Active))
    && (forall sid :: sid in s.sessions ==>
          && sid in s'.sessions && s'.sessions[sid] == s.sessions[sid].(open := s'.sessions[sid].open)
          && (s'.sessions[sid].open ==> s.sessions[sid].open))
  }

  lemma ApplyIsLater(s: State, l: Label)
    ensures Later(s, Apply(s, l))
  {
    if l.Execute? && Enabled(s, l.rid, l.tok) {
      StatementRows(s, s.requests[l.rid], l.tok);
      StatementSessions(s, s.requests[l.rid], l.tok);
    }
  }

  lemma LaterTransitive(a: State, b: State, c: State)
    requires Later(a, b) && Later(b, c)
    ensures Later(a, c)
  {
  }

  /** No interleaving revives a lock row, hands it to someone else, or reopens a session. */
  lemma {:induction false} RunIsLater(s: State, labels: seq<Label>)
    ensures Later(s, Run(s, labels))
    decreases |labels|
  {
    hide Apply;
    if labels == [] {
    } else {
      ApplyIsLater(s, labels[0]);
      RunIsLater(Apply(s, labels[0]), labels[1..]);
      LaterTransitive(s, Apply(s, labels[0]), Run(s, labels));
    }
  }

  // ---------------------------------------------------------------------------
  // The save gate

  /** The session is an edit session whose user and token are those of the live lock of its object. */
  ghost predicate CanPass(s: State, sid: string)
  {
    && sid in s.sessions && s.sessions[sid].editor == Monaco && s.sessions[sid].mode == Edit
    && exists i :: 0 <= i < |s.rows| && Live(s.rows[i], s.sessions[sid].obj, s.now)
                   && s.rows[i].owner == s.sessions[sid].user && s.rows[i].token == s.sessions[sid].token
  }

  /** The statement that lets a request through the gate sees a session that can pass. */
  lemma GatePassedMeansCanPass(s: State, rid: nat, tok: string)
    requires Inv(s) && Enabled(s, rid, tok) && s.requests[rid].GateSelect?
    requires Apply(s, Execute(rid, tok)).requests[rid].GatePassed?
    ensures var sid := s.requests[rid].sid;
            && Apply(s, Execute(rid, tok)).requests[rid] == GatePassed(sid)
            && CanPass(s, sid) && CanPass(Apply(s, Execute(rid, tok)), sid)
  {
    var p := s.requests[rid];
    assert RequestOK(s, p);
    var id := Select(s.rows, p.session.obj, s.now);
    assert id.Some? && Live(s.rows[id.value], p.session.obj, s.now);
  }

  /** Some active row bears the token. */
  ghost predicate Borne(s: State, tok: string)
  {
    exists i :: 0 <= i < |s.rows| && s.rows[i].status == Active && s.rows[i].token == tok
  }

  /** The token was issued, no active row bears it and no request will write it. */
  ghost predicate Spent(s: State, tok: string)
  {
    && tok in s.issued && !Borne(s, tok)
    && (forall r :: r in s.requests ==> Pending(s.requests[r]) != Some(tok))
  }

  ghost predicate Bears(s: State, row: nat, tok: string)
  {
    row < |s.rows| && s.rows[row].status == Active && s.rows[row].token == tok
  }

  /** A token that an active row bears, or that is spent, has no way back after one step. */
  lemma TokenStep(s: State, l: Label, row: nat, tok: string)
    requires Inv(s) && (Bears(s, row, tok) || Spent(s, tok))
    ensures Bears(Apply(s, l), row, tok) || Spent(Apply(s, l), tok)
  {
    hide Statement;
    var s' := Apply(s, l);
    forall r | r in s.requests && Bears(s, row, tok) ensures Pending(s.requests[r]) != Some(tok) {
      assert RequestOK(s, s.requests[r]);
    }
    if l.Execute? && Enabled(s, l.rid, l.tok) {
      var p := s.requests[l.rid];
      var e, written, at := Statement(s, p, l.tok), Written(s, p), WrittenAt(s, p);
      assert RequestOK(s, p);
      StatementRows(s, p, l.tok);
      StatementRequest(s, p, l.tok);
      NoWayBack(s.rows, s'.rows, written, at, row, tok);
    }
  }

  lemma NoWayBack(rows: seq<Lock>, rows': seq<Lock>, written: Option<string>, at: nat, row: nat, tok: string)
    requires RowsStep(rows, rows', written, at) && written != Some(tok)
    requires forall i, j :: 0 <= i < j < |rows| ==> rows[i].token != rows[j].token
    requires (row < |rows| && rows[row].status == Active && rows[row].token == tok) ||
             forall i :: 0 <= i < |rows| && rows[i].status == Active ==> rows[i].token != tok
    ensures (row < |rows'| && rows'[row].status == Active && rows'[row].token == tok) ||
            forall i :: 0 <= i < |rows'| && rows'[i].status == Active ==> rows'[i].token != tok
  {
  }

  lemma {:induction false} TokenRun(s: State, labels: seq<Label>, row: nat, tok: string)
    requires Inv(s) && (Bears(s, row, tok) || Spent(s, tok))
    ensures Bears(Run(s, labels), row, tok) || Spent(Run(s, labels), tok)
    decreases |labels|
  {
    hide Inv, Apply, Bears, Spent;
    if labels == [] {
    } else {
      TokenStep(s, labels[0], row, tok);
      ApplyKeepsInv(s, labels[0]);
      TokenRun(Apply(s, labels[0]), labels[1..], row, tok);
    }
  }

  // ---------------------------------------------------------------------------
  // Main results, for every interleaving

  /** At most one active lock row for each object, always. */
  lemma OneActiveLock(labels: seq<Label>)
    ensures OneActive(Run(INITIAL, labels).rows)
  {
    InitialInv();
    RunKeepsInv(INITIAL, labels);
  }

  /** At most one text session for each object can pass the save gate. */
  lemma SaveGateExclusive(labels: seq<Label>, a: string, b: string)
    requires var s := Run(INITIAL, labels); CanPass(s, a) && CanPass(s, b) && s.sessions[a].obj == s.sessions[b].obj
    ensures a == b
  {
    InitialInv();
    RunKeepsInv(INITIAL, labels);
    var s := Run(INITIAL, labels);
    var i :| 0 <= i < |s.rows| && Live(s.rows[i], s.sessions[a].obj, s.now) && s.rows[i].token == s.sessions[a].token;
    var j :| 0 <= j < |s.rows| && Live(s.rows[j], s.sessions[b].obj, s.now) && s.rows[j].token == s.sessions[b].token;
    assert i == j;
  }

  /** Once no active row bears its token, a session is shut out for good. */
  lemma ShutOutForGood(labels: seq<Label>, more: seq<Label>, sid: string)
    requires var s := Run(INITIAL, labels);
             sid in s.sessions && s.sessions[sid].mode == Edit && !Borne(s, s.sessions[sid].token)
    ensures !CanPass(Run(Run(INITIAL, labels), more), sid)
  {
    hide Run;
    var s := Run(INITIAL, labels);
    var tok := s.sessions[sid].token;
    InitialInv();
    RunKeepsInv(INITIAL, labels);
    forall r | r in s.requests ensures Pending(s.requests[r]) != Some(tok) {
      assert RequestOK(s, s.requests[r]);
      assert Pending(s.requests[r]).Some? ==> Carried(s.requests[r]) == Pending(s.requests[r]);
    }
    TokenRun(s, more, |Run(s, more).rows|, tok);
    RunIsLater(s, more);
  }

  /** If an active lock row was released, swept, forced or given another token, then from that moment on no
      session with the row's former token passes the save gate, whether or not it was stored already. */
  lemma LostLockNeverPasses(labels: seq<Label>, more: seq<Label>, evenMore: seq<Label>, row: nat, sid: string)
    requires row < |Run(INITIAL, labels).rows| && Run(INITIAL, labels).rows[row].status == Active
    requires !Bears(Run(Run(INITIAL, labels), more), row, Run(INITIAL, labels).rows[row].token)
    requires var s := Run(Run(Run(INITIAL, labels), more), evenMore);
             sid in s.sessions && s.sessions[sid].token == Run(INITIAL, labels).rows[row].token
    ensures !CanPass(Run(Run(Run(INITIAL, labels), more), evenMore), sid)
  {
    hide Run, Inv;
    var s := Run(INITIAL, labels);
    var s' := Run(s, more);
    var s'' := Run(s', evenMore);
    var tok := s.rows[row].token;
    InitialInv();
    RunKeepsInv(INITIAL, labels);
    RunKeepsInv(s, more);
    TokenRun(s, more, row, tok);
    TokenRun(s', evenMore, |s''.rows|, tok);
  }
}
