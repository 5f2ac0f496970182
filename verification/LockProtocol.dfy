/** Edit locks and sessions under concurrency: any number of requests, interleaved statement by statement, each
    free to stop after any statement. */
module LockProtocol {
  import opened Text
  import opened LockTable

  datatype Editor = Monaco | Office
  datatype Mode = Edit | View
  datatype Session = Session(obj: Object, user: int, editor: Editor, mode: Mode, token: string, open: bool,
                             expires: int)

  const SESSION_TTL := 28800

  /** What `acquire` is followed by: nothing, or the insertion of a session that carries the token. */
  datatype Ending = Done | Open(sid: string, editor: Editor, mode: Mode)

  /** The point a request has reached, with its local variables: one constructor for each next statement. */
  datatype Request =
    // textOpen, officeOpen
    | OpenExpire(obj: Object, user: int, sid: string)
    | OpenSweep(obj: Object, user: int, sid: string, editor: Editor, mode: Mode)
    | OpenSelect(obj: Object, user: int, sid: string, editor: Editor, mode: Mode)
    // acquire; a token of None stands for the empty string
    | AcquireSweep(obj: Object, user: int, token: Option<string>, ending: Ending)
    | AcquireSelect(obj: Object, user: int, token: Option<string>, ending: Ending)
    | AcquireRefresh(id: nat, obj: Object, user: int, token: Option<string>, ending: Ending)
    | AcquireInsert(obj: Object, user: int, tok: string, ending: Ending)
    | RetrySweep(obj: Object, user: int, tok: string, ending: Ending)
    | RetrySelect(obj: Object, user: int, tok: string, ending: Ending)
    | AddSession(sid: string, session: Session)
    // lockRefresh
    | RefreshSweep(obj: Object, user: int, tok: string)
    | RefreshSelect(obj: Object, user: int, tok: string)
    | RefreshUpdate(id: nat)
    // releaseOwned, alone or followed by closing a session
    | ReleaseSweep(obj: Object, user: int, token: Option<string>, closing: Option<string>)
    | ReleaseSelect(obj: Object, user: int, token: Option<string>, closing: Option<string>)
    | ReleaseUpdate(id: nat, closing: Option<string>)
    | TextClose(sid: string, user: int)
    | OfficeClosed(sid: string, tok: string, matched: Option<string>)
    | OfficeMatched(sid: string)
    | CloseUpdate(sid: string)
    // forceUnlockInternal
    | ForceSweep(obj: Object)
    | ForceSelect(obj: Object)
    | ForceUpdate(id: nat, obj: Object)
    | ForceClose(obj: Object)
    // the save gate: loadTextSession, requireSessionLock
    | GateLoad(sid: string, user: int)
    | GateSweep(sid: string, session: Session)
    | GateSelect(sid: string, session: Session)
    | GatePassed(sid: string)
    | Stopped

  datatype State = State(now: int, rows: seq<Lock>, sessions: map<string, Session>, issued: set<string>,
                         requests: map<nat, Request>)

  /** A request as it arrives. */
  predicate Entry(p: Request)
  {
    match p
    case OpenExpire(_, _, _) => true
    case OpenSweep(_, _, _, editor, _) => editor == Office
    case AcquireSweep(_, _, token, ending) => token == None && ending == Done
    case RefreshSweep(_, _, _) => true
    case ReleaseSweep(_, _, _, closing) => closing == None
    case TextClose(_, _) => true
    case OfficeClosed(_, _, _) => true
    case ForceSweep(_) => true
    case GateLoad(_, _) => true
    case _ => false
  }

  // ---------------------------------------------------------------------------
  // One statement

  /** The tables and the request after one statement; `mints` tells whether it used up a new token. */
  datatype Effect = Effect(rows: seq<Lock>, sessions: map<string, Session>, mints: bool, next: Request)

  function Conclude(s: State, obj: Object, user: int, tok: string, ending: Ending): Request
  {
    match ending
    case Done => Stopped
    case Open(sid, editor, mode) => AddSession(sid, Session(obj, user, editor, mode, tok, true, s.now + SESSION_TTL))
  }

  function CloseMatching(sessions: map<string, Session>, obj: Object, upTo: Option<int>): map<string, Session>
  {
    map sid | sid in sessions ::
      if sessions[sid].obj == obj && (upTo.Some? ==> sessions[sid].expires <= upTo.value)
      then sessions[sid].(open := false) else sessions[sid]
  }

  function AfterClose(closing: Option<string>): Request
  {
    if closing.Some? then CloseUpdate(closing.value) else Stopped
  }

  predicate ActiveSession(s: State, sid: string)
  {
    sid in s.sessions && s.sessions[sid].open && s.sessions[sid].expires > s.now
  }

  // Which handler, or shared part of handlers, a statement belongs to.

  predicate IsOpen(p: Request)
  {
    p.OpenExpire? || p.OpenSweep? || p.OpenSelect? || p.AddSession?
  }

  predicate IsAcquire(p: Request)
  {
    p.AcquireSweep? || p.AcquireSelect? || p.AcquireRefresh? || p.AcquireInsert? || p.RetrySweep? ||
    p.RetrySelect?
  }

  predicate IsRefresh(p: Request)
  {
    p.RefreshSweep? || p.RefreshSelect? || p.RefreshUpdate?
  }

  predicate IsRelease(p: Request)
  {
    p.ReleaseSweep? || p.ReleaseSelect? || p.ReleaseUpdate? || p.TextClose? || p.OfficeClosed? ||
    p.OfficeMatched? || p.CloseUpdate?
  }

  predicate IsForce(p: Request)
  {
    p.ForceSweep? || p.ForceSelect? || p.ForceUpdate? || p.ForceClose?
  }

  predicate IsGate(p: Request)
  {
    p.GateLoad? || p.GateSweep? || p.GateSelect? || p.GatePassed? || p.Stopped?
  }

  function OpenStatement(s: State, p: Request, minted: string): Effect
    requires IsOpen(p)
  {
    match p
    case OpenExpire(o, user, sid) =>
      Effect(s.rows, CloseMatching(s.sessions, o, Some(s.now)), false, OpenSweep(o, user, sid, Monaco, Edit))
    case OpenSweep(o, user, sid, editor, mode) =>
      Effect(Sweep(s.rows, o, s.now), s.sessions, false, OpenSelect(o, user, sid, editor, mode))
    case OpenSelect(o, user, sid, editor, mode) =>
      var id := Select(s.rows, o, s.now);
      if id.Some? && s.rows[id.value].owner != user then
        if editor == Monaco then Effect(s.rows, s.sessions, false, Conclude(s, o, user, "", Open(sid, editor, View)))
        else Effect(s.rows, s.sessions, true, Conclude(s, o, user, minted, Open(sid, editor, View)))
      else Effect(s.rows, s.sessions, true, AcquireSweep(o, user, Some(minted), Open(sid, editor, mode)))
    case AddSession(sid, session) =>
      // the primary key refuses an id that exists
      Effect(s.rows, if sid in s.sessions then s.sessions else s.sessions[sid := session], false, Stopped)
  }

  function AcquireStatement(s: State, p: Request, minted: string): Effect
    requires IsAcquire(p)
  {
    match p
    case AcquireSweep(o, user, token, ending) =>
      Effect(Sweep(s.rows, o, s.now), s.sessions, false, AcquireSelect(o, user, token, ending))
    case AcquireSelect(o, user, token, ending) =>
      (match Select(s.rows, o, s.now)
       case Some(id) =>
         if s.rows[id].owner != user then
           Effect(s.rows, s.sessions, false, Conclude(s, o, user, if token.Some? then token.value else "", ending))
         else Effect(s.rows, s.sessions, false, AcquireRefresh(id, o, user, token, ending))
       case None =>
         if token.Some? then Effect(s.rows, s.sessions, false, AcquireInsert(o, user, token.value, ending))
         else Effect(s.rows, s.sessions, true, AcquireInsert(o, user, minted, ending)))
    case AcquireRefresh(id, o, user, token, ending) =>
      Effect(if id < |s.rows| then Refresh(s.rows, id, token, s.now) else s.rows, s.sessions, false,
             Conclude(s, o, user, if token.Some? then token.value else "", ending))
    case AcquireInsert(o, user, tok, ending) =>
      (match Insert(s.rows, o, user, tok, s.now)
       case Some(rows) => Effect(rows, s.sessions, false, Conclude(s, o, user, tok, ending))
       case None => Effect(s.rows, s.sessions, false, RetrySweep(o, user, tok, ending)))
    case RetrySweep(o, user, tok, ending) =>
      Effect(Sweep(s.rows, o, s.now), s.sessions, false, RetrySelect(o, user, tok, ending))
    case RetrySelect(o, user, tok, ending) =>
      // "lock race" when nothing is live; the lock found is reported but never written
      Effect(s.rows, s.sessions, false,
             if Select(s.rows, o, s.now) == None then Stopped else Conclude(s, o, user, tok, ending))
  }

  function RefreshStatement(s: State, p: Request): Effect
    requires IsRefresh(p)
  {
    match p
    case RefreshSweep(o, user, tok) => Effect(Sweep(s.rows, o, s.now), s.sessions, false, RefreshSelect(o, user, tok))
    case RefreshSelect(o, user, tok) =>
      var id := Select(s.rows, o, s.now);
      if id.Some? && s.rows[id.value].owner == user && s.rows[id.value].token == tok
      then Effect(s.rows, s.sessions, false, RefreshUpdate(id.value))
      else Effect(s.rows, s.sessions, false, Stopped)
    case RefreshUpdate(id) =>
      Effect(if id < |s.rows| then Refresh(s.rows, id, None, s.now) else s.rows, s.sessions, false, Stopped)
  }

  function OfficeRelease(s: State, sid: string): Request
    requires sid in s.sessions
  {
    ReleaseSweep(s.sessions[sid].obj, s.sessions[sid].user, Some(s.sessions[sid].token), Some(sid))
  }

  function ReleaseStatement(s: State, p: Request): Effect
    requires IsRelease(p)
  {
    match p
    case ReleaseSweep(o, user, token, closing) =>
      Effect(Sweep(s.rows, o, s.now), s.sessions, false, ReleaseSelect(o, user, token, closing))
    case ReleaseSelect(o, user, token, closing) =>
      var id := Select(s.rows, o, s.now);
      if id.Some? && s.rows[id.value].owner == user && (token.Some? ==> s.rows[id.value].token == token.value)
      then Effect(s.rows, s.sessions, false, ReleaseUpdate(id.value, closing))
      else Effect(s.rows, s.sessions, false, AfterClose(closing))
    case ReleaseUpdate(id, closing) =>
      Effect(if id < |s.rows| then SetStatus(s.rows, id, Released) else s.rows, s.sessions, false, AfterClose(closing))
    case TextClose(sid, user) =>
      if ActiveSession(s, sid) && s.sessions[sid].user == user && s.sessions[sid].editor == Monaco then
        Effect(s.rows, s.sessions, false,
               if s.sessions[sid].mode == Edit then ReleaseSweep(s.sessions[sid].obj, user, None, Some(sid))
               else CloseUpdate(sid))
      else Effect(s.rows, s.sessions, false, Stopped)
    case OfficeClosed(sid, tok, matched) =>
      // the callback may name another session by its document key
      if ActiveSession(s, sid) && s.sessions[sid].token == tok then
        Effect(s.rows, s.sessions, false, if matched.Some? then OfficeMatched(matched.value) else OfficeRelease(s, sid))
      else Effect(s.rows, s.sessions, false, Stopped)
    case OfficeMatched(sid) =>
      Effect(s.rows, s.sessions, false, if ActiveSession(s, sid) then OfficeRelease(s, sid) else Stopped)
    case CloseUpdate(sid) =>
      Effect(s.rows, if sid in s.sessions then s.sessions[sid := s.sessions[sid].(open := false)] else s.sessions,
             false, Stopped)
  }

  function ForceStatement(s: State, p: Request): Effect
    requires IsForce(p)
  {
    match p
    case ForceSweep(o) => Effect(Sweep(s.rows, o, s.now), s.sessions, false, ForceSelect(o))
    case ForceSelect(o) =>
      var id := Select(s.rows, o, s.now);
      Effect(s.rows, s.sessions, false, if id.Some? then ForceUpdate(id.value, o) else ForceClose(o))
    case ForceUpdate(id, o) =>
      Effect(if id < |s.rows| then SetStatus(s.rows, id, ForceReleased) else s.rows, s.sessions, false, ForceClose(o))
    case ForceClose(o) => Effect(s.rows, CloseMatching(s.sessions, o, None), false, Stopped)
  }

  function GateStatement(s: State, p: Request): Effect
    requires IsGate(p)
  {
    match p
    case GateLoad(sid, user) =>
      if ActiveSession(s, sid) && s.sessions[sid].user == user && s.sessions[sid].editor == Monaco &&
         s.sessions[sid].mode == Edit
      then Effect(s.rows, s.sessions, false, GateSweep(sid, s.sessions[sid]))
      else Effect(s.rows, s.sessions, false, Stopped)
    case GateSweep(sid, session) =>
      Effect(Sweep(s.rows, session.obj, s.now), s.sessions, false, GateSelect(sid, session))
    case GateSelect(sid, session) =>
      var id := Select(s.rows, session.obj, s.now);
      if id.Some? && s.rows[id.value].owner == session.user && s.rows[id.value].token == session.token
      then Effect(s.rows, s.sessions, false, GatePassed(sid))
      else Effect(s.rows, s.sessions, false, Stopped)
    case _ => Effect(s.rows, s.sessions, false, Stopped)
  }

  function Statement(s: State, p: Request, minted: string): Effect
  {
    if IsOpen(p) then OpenStatement(s, p, minted)
    else if IsAcquire(p) then AcquireStatement(s, p, minted)
    else if IsRefresh(p) then RefreshStatement(s, p)
    else if IsRelease(p) then ReleaseStatement(s, p)
    else if IsForce(p) then ForceStatement(s, p)
    else GateStatement(s, p)
  }

  // ---------------------------------------------------------------------------
  // Interleavings

  /** One step of the system: time passes, a request arrives, one statement of a request runs, or a request
      fails before its next statement. */
  datatype Label =
    | Tick(delta: nat)
    | Arrive(rid: nat, request: Request)
    | Execute(rid: nat, tok: string)
    | Fail(rid: nat)

  /** Where a failed statement leaves the request: text open ignores a failed session sweep, and closing a
      session goes on when the release failed; everything else returns. */
  function FailTo(p: Request): Request
  {
    match p
    case OpenExpire(o, user, sid) => OpenSweep(o, user, sid, Monaco, Edit)
    case ReleaseSweep(_, _, _, closing) => AfterClose(closing)
    case ReleaseSelect(_, _, _, closing) => AfterClose(closing)
    case ReleaseUpdate(_, closing) => AfterClose(closing)
    case _ => Stopped
  }

  /** A statement that mints a token mints one that was never issued before. */
  predicate Enabled(s: State, rid: nat, tok: string)
  {
    rid in s.requests && (Statement(s, s.requests[rid], tok).mints ==> tok !in s.issued)
  }

  /** A step that cannot happen leaves the state alone. */
  function Apply(s: State, l: Label): State
  {
    match l
    case Tick(delta) => s.(now := s.now + delta)
    case Arrive(rid, request) =>
      if rid !in s.requests && Entry(request) then s.(requests := s.requests[rid := request]) else s
    case Execute(rid, tok) =>
      if Enabled(s, rid, tok) then
        var e := Statement(s, s.requests[rid], tok);
        State(s.now, e.rows, e.sessions, if e.mints then s.issued + {tok} else s.issued, s.requests[rid := e.next])
      else s
    case Fail(rid) =>
      if rid in s.requests then s.(requests := s.requests[rid := FailTo(s.requests[rid])]) else s
  }

  function Run(s: State, labels: seq<Label>): State
    decreases |labels|
  {
    if labels == [] then s else Run(Apply(s, labels[0]), labels[1..])
  }

  const INITIAL := State(0, [], map[], {""}, map[])
}
