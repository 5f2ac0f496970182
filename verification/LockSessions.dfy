/** What each request achieves when it runs undisturbed at one clock reading, said in the fields of its session and
    in the holders of the objects. */
module LockSessions {
  import opened Text
  import opened LockTable
  import opened LockRefinement
  import opened LockProtocol
  import opened LockSafety
  import opened LockHandlers

  /** The session can still be used. */
  ghost predicate Usable(s: State, sid: string)
  {
    sid in s.sessions && s.sessions[sid].open && s.sessions[sid].expires > s.now
  }

  /** The request has stopped, no time has passed, and this is what it leaves. */
  ghost predicate Leaves(s: State, s': State, rid: nat, sessions: map<string, Session>, holders: Holders)
  {
    && s'.now == s.now && rid in s'.requests && s'.requests[rid] == Stopped
    && s'.sessions == sessions && Held(s'.rows, s.now) == holders
  }

  lemma {:induction false} StaysStopped(s: State, rid: nat, tok: string, n: nat)
    requires rid in s.requests && s.requests[rid] == Stopped
    ensures var s' := Alone(s, rid, tok, n);
            s'.now == s.now && s'.rows == s.rows && s'.sessions == s.sessions && Ends(s', rid, s.rows, s.sessions)
    decreases n
  {
    hide Apply;
    if n == 0 {
    } else {
      NextGate(s, rid, tok);
      StaysStopped(Apply(s, Execute(rid, tok)), rid, tok, n - 1);
    }
  }

  /** One statement, and then the rest. */
  lemma Onward(s: State, rid: nat, tok: string, n: nat)
    ensures Alone(s, rid, tok, n + 1) == Alone(Apply(s, Execute(rid, tok)), rid, tok, n)
  {
  }

  ghost predicate At(s: State, rid: nat, rows: seq<Lock>, sessions: map<string, Session>, now: int, p: Request)
  {
    s.rows == rows && s.sessions == sessions && s.now == now && rid in s.requests && s.requests[rid] == p
  }

  // ---------------------------------------------------------------------------
  // Single statements

  lemma ReleaseSweeps(s: State, rid: nat, o: Object, user: int, token: Option<string>, closing: Option<string>,
                      tok: string)
    requires rid in s.requests && s.requests[rid] == ReleaseSweep(o, user, token, closing)
    ensures At(Apply(s, Execute(rid, tok)), rid, Sweep(s.rows, o, s.now), s.sessions, s.now,
               ReleaseSelect(o, user, token, closing))
  {
    hide Apply, Sweep;
    NextRelease(s, rid, tok);
  }

  lemma ReleaseSelects(s: State, rid: nat, o: Object, user: int, token: Option<string>, closing: Option<string>,
                       tok: string)
    requires rid in s.requests && s.requests[rid] == ReleaseSelect(o, user, token, closing)
    ensures var id := Select(s.rows, o, s.now);
            At(Apply(s, Execute(rid, tok)), rid, s.rows, s.sessions, s.now,
               if id.Some? && s.rows[id.value].owner == user && (token == None || s.rows[id.value].token == token.value)
               then ReleaseUpdate(id.value, closing) else AfterClose(closing))
  {
    hide Apply, Select;
    NextRelease(s, rid, tok);
  }

  lemma ReleaseUpdates(s: State, rid: nat, id: nat, closing: Option<string>, tok: string)
    requires rid in s.requests && s.requests[rid] == ReleaseUpdate(id, closing) && id < |s.rows|
    ensures At(Apply(s, Execute(rid, tok)), rid, SetStatus(s.rows, id, Released), s.sessions, s.now,
               AfterClose(closing))
  {
    hide Apply, SetStatus;
    NextRelease(s, rid, tok);
  }

  lemma Closes(s: State, rid: nat, sid: string, tok: string)
    requires rid in s.requests && s.requests[rid] == CloseUpdate(sid) && sid in s.sessions
    ensures At(Apply(s, Execute(rid, tok)), rid, s.rows, s.sessions[sid := s.sessions[sid].(open := false)], s.now,
               Stopped)
  {
    hide Apply;
    NextRelease(s, rid, tok);
  }

  lemma AcquireSweeps(s: State, rid: nat, o: Object, user: int, token: Option<string>, ending: Ending, tok: string)
    requires rid in s.requests && s.requests[rid] == AcquireSweep(o, user, token, ending)
    ensures At(Apply(s, Execute(rid, tok)), rid, Sweep(s.rows, o, s.now), s.sessions, s.now,
               AcquireSelect(o, user, token, ending))
  {
    hide Apply, Sweep;
    NextAcquire(s, rid, tok);
  }

  lemma AcquireSelects(s: State, rid: nat, o: Object, user: int, token: string, ending: Ending, tok: string)
    requires rid in s.requests && s.requests[rid] == AcquireSelect(o, user, Some(token), ending)
    requires var id := Select(s.rows, o, s.now); id.Some? ==> s.rows[id.value].owner == user
    ensures var id := Select(s.rows, o, s.now);
            At(Apply(s, Execute(rid, tok)), rid, s.rows, s.sessions, s.now,
               if id.Some? then AcquireRefresh(id.value, o, user, Some(token), ending)
               else AcquireInsert(o, user, token, ending))
  {
    hide Apply, Select;
    NextAcquire(s, rid, tok);
  }

  lemma AcquireRefreshes(s: State, rid: nat, id: nat, o: Object, user: int, token: string, sid: string,
                         editor: Editor, mode: Mode, tok: string)
    requires rid in s.requests && id < |s.rows|
    requires s.requests[rid] == AcquireRefresh(id, o, user, Some(token), Open(sid, editor, mode))
    ensures At(Apply(s, Execute(rid, tok)), rid, Refresh(s.rows, id, Some(token), s.now), s.sessions, s.now,
               AddSession(sid, Session(o, user, editor, mode, token, true, s.now + SESSION_TTL)))
  {
    hide Apply, Refresh;
    NextAcquire(s, rid, tok);
  }

  lemma AcquireInserts(s: State, rid: nat, o: Object, user: int, token: string, sid: string, editor: Editor,
                       mode: Mode, tok: string)
    requires rid in s.requests && s.requests[rid] == AcquireInsert(o, user, token, Open(sid, editor, mode))
    ensures Insert(s.rows, o, user, token, s.now).Some? ==>
              At(Apply(s, Execute(rid, tok)), rid, Insert(s.rows, o, user, token, s.now).value, s.sessions, s.now,
                 AddSession(sid, Session(o, user, editor, mode, token, true, s.now + SESSION_TTL)))
    ensures Insert(s.rows, o, user, token, s.now) == None ==>
              At(Apply(s, Execute(rid, tok)), rid, s.rows, s.sessions, s.now,
                 RetrySweep(o, user, token, Open(sid, editor, mode)))
  {
    hide Apply, Insert;
    NextAcquire(s, rid, tok);
  }

  lemma RetrySweeps(s: State, rid: nat, o: Object, user: int, token: string, ending: Ending, tok: string)
    requires rid in s.requests && s.requests[rid] == RetrySweep(o, user, token, ending)
    ensures At(Apply(s, Execute(rid, tok)), rid, Sweep(s.rows, o, s.now), s.sessions, s.now,
               RetrySelect(o, user, token, ending))
  {
    hide Apply, Sweep;
    NextAcquire(s, rid, tok);
  }

  lemma RetrySelects(s: State, rid: nat, o: Object, user: int, token: string, sid: string, editor: Editor, mode: Mode,
                     tok: string)
    requires rid in s.requests && s.requests[rid] == RetrySelect(o, user, token, Open(sid, editor, mode))
    ensures At(Apply(s, Execute(rid, tok)), rid, s.rows, s.sessions, s.now,
               if Select(s.rows, o, s.now) == None then Stopped
               else AddSession(sid, Session(o, user, editor, mode, token, true, s.now + SESSION_TTL)))
  {
    hide Apply, Select;
    NextAcquire(s, rid, tok);
  }

  lemma Stores(s: State, rid: nat, sid: string, session: Session, tok: string)
    requires rid in s.requests && s.requests[rid] == AddSession(sid, session) && sid !in s.sessions
    ensures At(Apply(s, Execute(rid, tok)), rid, s.rows, s.sessions[sid := session], s.now, Stopped)
  {
    hide Apply;
    NextOpen(s, rid, tok);
  }

  // ---------------------------------------------------------------------------
  // Closing

  lemma ClosesIn(s: State, rid: nat, sid: string, tok: string, n: nat)
    requires n > 0 && rid in s.requests && s.requests[rid] == CloseUpdate(sid) && sid in s.sessions
    ensures At(Alone(s, rid, tok, n), rid, s.rows, s.sessions[sid := s.sessions[sid].(open := false)], s.now, Stopped)
  {
    hide Apply, Alone;
    Onward(s, rid, tok, n - 1);
    Closes(s, rid, sid, tok);
    StaysStopped(Apply(s, Execute(rid, tok)), rid, tok, n - 1);
  }

  lemma SelectsAndCloses(s: State, rid: nat, o: Object, user: int, token: Option<string>, sid: string, tok: string)
    requires rid in s.requests && s.requests[rid] == ReleaseSelect(o, user, token, Some(sid)) && sid in s.sessions
    ensures var id := Select(s.rows, o, s.now);
            At(Alone(s, rid, tok, 3), rid,
               if id.Some? && s.rows[id.value].owner == user && (token == None || s.rows[id.value].token == token.value)
               then SetStatus(s.rows, id.value, Released) else s.rows,
               s.sessions[sid := s.sessions[sid].(open := false)], s.now, Stopped)
  {
    hide Apply, Alone, SetStatus, Select;
    var s1 := Apply(s, Execute(rid, tok));
    Onward(s, rid, tok, 2);
    ReleaseSelects(s, rid, o, user, token, Some(sid), tok);
    if s1.requests[rid] == CloseUpdate(sid) {
      ClosesIn(s1, rid, sid, tok, 2);
    } else {
      Onward(s1, rid, tok, 1);
      ReleaseUpdates(s1, rid, Select(s.rows, o, s.now).value, Some(sid), tok);
      ClosesIn(Apply(s1, Execute(rid, tok)), rid, sid, tok, 1);
    }
  }

  /** A release on behalf of a closing session, and then the closing. */
  lemma ReleasesAndCloses(s: State, rid: nat, o: Object, user: int, token: Option<string>, sid: string, tok: string)
    requires rid in s.requests && s.requests[rid] == ReleaseSweep(o, user, token, Some(sid)) && sid in s.sessions
    ensures At(Alone(s, rid, tok, 4), rid, ReleaseRows(s.rows, o, user, token, s.now).0,
               s.sessions[sid := s.sessions[sid].(open := false)], s.now, Stopped)
  {
    hide Apply, Alone, Sweep, SetStatus, Select;
    Onward(s, rid, tok, 3);
    ReleaseSweeps(s, rid, o, user, token, Some(sid), tok);
    SelectsAndCloses(Apply(s, Execute(rid, tok)), rid, o, user, token, sid, tok);
  }

  /** Closing a text session one may use ends the session and, in edit mode, the user's lock on the object; nobody
      else loses anything. In view mode the rows stay as they are. */
  lemma TextCloseAlone(s: State, rid: nat, sid: string, user: int, tok: string)
    requires OneActive(s.rows) && rid in s.requests && s.requests[rid] == TextClose(sid, user)
    requires Usable(s, sid) && s.sessions[sid].user == user && s.sessions[sid].editor == Monaco
    ensures var s', session, m := Alone(s, rid, tok, 5), s.sessions[sid], Held(s.rows, s.now);
            && Leaves(s, s', rid, s.sessions[sid := session.(open := false)],
                      if session.mode == Edit && session.obj in m && m[session.obj].owner == user
                      then m - {session.obj} else m)
            && (session.mode == View ==> s'.rows == s.rows)
            && OneActive(s'.rows)
  {
    hide Apply, Alone, OneActive, Held, ReleaseRows;
    var s1, session := Apply(s, Execute(rid, tok)), s.sessions[sid];
    Onward(s, rid, tok, 4);
    NextRelease(s, rid, tok);
    if session.mode == Edit {
      ReleasesAndCloses(s1, rid, session.obj, user, None, sid, tok);
      ReleaseRefines(s.rows, session.obj, user, None, s.now);
    } else {
      Onward(s1, rid, tok, 3);
      NextRelease(s1, rid, tok);
      StaysStopped(Apply(s1, Execute(rid, tok)), rid, tok, 3);
    }
  }

  /** A session that is closed, over, somebody else's or an office session is not closed by a text close. */
  lemma TextCloseRefused(s: State, rid: nat, sid: string, user: int, tok: string)
    requires rid in s.requests && s.requests[rid] == TextClose(sid, user)
    requires !Usable(s, sid) || s.sessions[sid].user != user || s.sessions[sid].editor != Monaco
    ensures Ends(Alone(s, rid, tok, 5), rid, s.rows, s.sessions)
  {
    hide Apply, Alone;
    Onward(s, rid, tok, 4);
    NextRelease(s, rid, tok);
    StaysStopped(Apply(s, Execute(rid, tok)), rid, tok, 4);
  }

  lemma OfficeReleases(s: State, rid: nat, sid: string, tok: string)
    requires OneActive(s.rows) && sid in s.sessions && rid in s.requests && s.requests[rid] == OfficeRelease(s, sid)
    ensures var session, m := s.sessions[sid], Held(s.rows, s.now);
            Leaves(s, Alone(s, rid, tok, 4), rid, s.sessions[sid := session.(open := false)],
                   if session.obj in m && m[session.obj].owner == session.user && m[session.obj].token == session.token
                   then m - {session.obj} else m)
  {
    hide Apply, Alone, OneActive, Held, ReleaseRows;
    var session := s.sessions[sid];
    ReleasesAndCloses(s, rid, session.obj, session.user, Some(session.token), sid, tok);
    ReleaseRefines(s.rows, session.obj, session.user, Some(session.token), s.now);
  }

  /** The closed callback, accepted: the session it names by itself or by its document ends, and its lock if the live
      lock still has its user and its token. */
  lemma OfficeClosedAlone(s: State, rid: nat, sid: string, token: string, matched: Option<string>, tok: string)
    requires OneActive(s.rows) && rid in s.requests && s.requests[rid] == OfficeClosed(sid, token, matched)
    requires Usable(s, sid) && s.sessions[sid].token == token
    requires matched == None || Usable(s, matched.value)
    ensures var target := if matched.Some? then matched.value else sid;
            var session, m := s.sessions[target], Held(s.rows, s.now);
            Leaves(s, Alone(s, rid, tok, 6), rid, s.sessions[target := session.(open := false)],
                   if session.obj in m && m[session.obj].owner == session.user && m[session.obj].token == session.token
                   then m - {session.obj} else m)
  {
    hide Apply, Alone, OneActive, Held;
    var target := if matched.Some? then matched.value else sid;
    var s1 := Apply(s, Execute(rid, tok));
    Onward(s, rid, tok, 5);
    NextRelease(s, rid, tok);
    if matched.Some? {
      Onward(s1, rid, tok, 4);
      NextRelease(s1, rid, tok);
      OfficeReleases(Apply(s1, Execute(rid, tok)), rid, target, tok);
    } else {
      OfficeReleases(s1, rid, sid, tok);
      AloneSplit(s1, rid, tok, 4, 1);
      StaysStopped(Alone(s1, rid, tok, 4), rid, tok, 1);
    }
  }

  /** The closed callback, refused: no usable session, the wrong token, or a document of no usable session. */
  lemma OfficeClosedRefused(s: State, rid: nat, sid: string, token: string, matched: Option<string>, tok: string)
    requires rid in s.requests && s.requests[rid] == OfficeClosed(sid, token, matched)
    requires !Usable(s, sid) || s.sessions[sid].token != token || (matched.Some? && !Usable(s, matched.value))
    ensures Ends(Alone(s, rid, tok, 6), rid, s.rows, s.sessions)
  {
    hide Apply, Alone;
    var s1 := Apply(s, Execute(rid, tok));
    Onward(s, rid, tok, 5);
    NextRelease(s, rid, tok);
    if s1.requests[rid] == Stopped {
      StaysStopped(s1, rid, tok, 5);
    } else {
      Onward(s1, rid, tok, 4);
      NextRelease(s1, rid, tok);
      StaysStopped(Apply(s1, Execute(rid, tok)), rid, tok, 4);
    }
  }

  // ---------------------------------------------------------------------------
  // Saving

  lemma GateSweeps(s: State, rid: nat, sid: string, session: Session, tok: string)
    requires rid in s.requests && s.requests[rid] == GateSweep(sid, session)
    ensures var s' := Apply(s, Execute(rid, tok));
            && s'.rows == Sweep(s.rows, session.obj, s.now) && s'.sessions == s.sessions && s'.now == s.now
            && rid in s'.requests && s'.requests[rid] == GateSelect(sid, session)
  {
    hide Apply, Sweep;
    NextGate(s, rid, tok);
  }

  lemma GateDecides(s: State, rid: nat, sid: string, session: Session, tok: string)
    requires rid in s.requests && s.requests[rid] == GateSelect(sid, session)
    ensures var id := Select(s.rows, session.obj, s.now);
            At(Alone(s, rid, tok, 1), rid, s.rows, s.sessions, s.now,
               if && id.Some? && s.rows[id.value].owner == session.user
                  && s.rows[id.value].token == session.token then GatePassed(sid) else Stopped)
  {
    hide Apply, Alone, Select;
    One(s, rid, tok);
    NextGate(s, rid, tok);
  }

  lemma SweepsAndDecides(s: State, rid: nat, sid: string, session: Session, tok: string)
    requires OneActive(s.rows) && rid in s.requests && s.requests[rid] == GateSweep(sid, session)
    ensures var s', m := Alone(s, rid, tok, 2), Held(s.rows, s.now);
            && rid in s'.requests && s'.sessions == s.sessions && Held(s'.rows, s.now) == m
            && s'.requests[rid] == if && session.obj in m && m[session.obj].owner == session.user
                                      && m[session.obj].token == session.token then GatePassed(sid) else Stopped
  {
    hide Apply, Alone, OneActive, Sweep, Held;
    var s1 := Apply(s, Execute(rid, tok));
    Onward(s, rid, tok, 1);
    GateSweeps(s, rid, sid, session, tok);
    SweepKeepsHolders(s.rows, session.obj, s.now);
    HeldLookup(s1.rows, session.obj, s.now);
    hide Select;
    GateDecides(s1, rid, sid, session, tok);
  }

  /** Undisturbed, a save passes the gate exactly with a usable edit session of one's own in the text editor, while
      the live lock of its object has its user and its token. */
  lemma SaveAlone(s: State, rid: nat, sid: string, user: int, tok: string)
    requires OneActive(s.rows) && rid in s.requests && s.requests[rid] == GateLoad(sid, user)
    ensures var s', m := Alone(s, rid, tok, 3), Held(s.rows, s.now);
            && rid in s'.requests && s'.sessions == s.sessions && Held(s'.rows, s.now) == m
            && s'.requests[rid] ==
               if && Usable(s, sid) && s.sessions[sid].user == user && s.sessions[sid].editor == Monaco
                  && s.sessions[sid].mode == Edit && s.sessions[sid].obj in m
                  && m[s.sessions[sid].obj].owner == user && m[s.sessions[sid].obj].token == s.sessions[sid].token
               then GatePassed(sid) else Stopped
  {
    hide Apply, Alone, OneActive, Held;
    var s1 := Apply(s, Execute(rid, tok));
    Onward(s, rid, tok, 2);
    NextGate(s, rid, tok);
    if s1.requests[rid] == Stopped {
      StaysStopped(s1, rid, tok, 2);
    } else {
      SweepsAndDecides(s1, rid, sid, s.sessions[sid], tok);
    }
  }

  lemma SweepKeepsHolders(rows: seq<Lock>, o: Object, now: int)
    requires OneActive(rows)
    ensures OneActive(Sweep(rows, o, now)) && Held(Sweep(rows, o, now), now) == Held(rows, now)
  {
    hide HolderAt, Held;
    SweepHolders(rows, o, now);
    AllLookups(rows, now);
    HeldFromLookups(Sweep(rows, o, now), Held(rows, now), now);
  }

  // ---------------------------------------------------------------------------
  // Opening

  /** The object is somebody else's. */
  ghost predicate Foreign(m: Holders, o: Object, user: int)
  {
    o in m && m[o].owner != user
  }

  lemma StoresIn(s: State, rid: nat, sid: string, session: Session, tok: string, n: nat)
    requires n > 0 && rid in s.requests && s.requests[rid] == AddSession(sid, session) && sid !in s.sessions
    ensures At(Alone(s, rid, tok, n), rid, s.rows, s.sessions[sid := session], s.now, Stopped)
  {
    hide Apply, Alone;
    Onward(s, rid, tok, n - 1);
    Stores(s, rid, sid, session, tok);
    StaysStopped(Apply(s, Execute(rid, tok)), rid, tok, n - 1);
  }

  lemma SelectsAndStores(s: State, rid: nat, o: Object, user: int, sid: string, editor: Editor, mode: Mode,
                         token: string, tok: string)
    requires rid in s.requests && s.requests[rid] == AcquireSelect(o, user, Some(token), Open(sid, editor, mode))
    requires sid !in s.sessions
    requires var id := Select(s.rows, o, s.now);
             if id.Some? then s.rows[id.value].owner == user else Insert(s.rows, o, user, token, s.now).Some?
    ensures var id := Select(s.rows, o, s.now);
            At(Alone(s, rid, tok, 3), rid,
               if id.Some? then Refresh(s.rows, id.value, Some(token), s.now)
               else Insert(s.rows, o, user, token, s.now).value,
               s.sessions[sid := Session(o, user, editor, mode, token, true, s.now + SESSION_TTL)], s.now, Stopped)
  {
    hide Apply, Alone, Refresh, Insert, Select;
    var s1, id := Apply(s, Execute(rid, tok)), Select(s.rows, o, s.now);
    Onward(s, rid, tok, 2);
    AcquireSelects(s, rid, o, user, token, Open(sid, editor, mode), tok);
    if id.Some? {
      KeepsAndStores(s1, rid, id.value, o, user, sid, editor, mode, token, tok);
    } else {
      TakesAndStores(s1, rid, o, user, sid, editor, mode, token, tok);
    }
  }

  lemma KeepsAndStores(s: State, rid: nat, id: nat, o: Object, user: int, sid: string, editor: Editor, mode: Mode,
                       token: string, tok: string)
    requires rid in s.requests && id < |s.rows| && sid !in s.sessions
    requires s.requests[rid] == AcquireRefresh(id, o, user, Some(token), Open(sid, editor, mode))
    ensures At(Alone(s, rid, tok, 2), rid, Refresh(s.rows, id, Some(token), s.now),
               s.sessions[sid := Session(o, user, editor, mode, token, true, s.now + SESSION_TTL)], s.now, Stopped)
  {
    hide Apply, Alone, Refresh;
    Onward(s, rid, tok, 1);
    AcquireRefreshes(s, rid, id, o, user, token, sid, editor, mode, tok);
    StoresIn(Apply(s, Execute(rid, tok)), rid, sid,
             Session(o, user, editor, mode, token, true, s.now + SESSION_TTL), tok, 1);
  }

  lemma TakesAndStores(s: State, rid: nat, o: Object, user: int, sid: string, editor: Editor, mode: Mode,
                       token: string, tok: string)
    requires rid in s.requests && s.requests[rid] == AcquireInsert(o, user, token, Open(sid, editor, mode))
    requires sid !in s.sessions && Insert(s.rows, o, user, token, s.now).Some?
    ensures At(Alone(s, rid, tok, 2), rid, Insert(s.rows, o, user, token, s.now).value,
               s.sessions[sid := Session(o, user, editor, mode, token, true, s.now + SESSION_TTL)], s.now, Stopped)
  {
    hide Apply, Alone, Insert;
    Onward(s, rid, tok, 1);
    AcquireInserts(s, rid, o, user, token, sid, editor, mode, tok);
    StoresIn(Apply(s, Execute(rid, tok)), rid, sid,
             Session(o, user, editor, mode, token, true, s.now + SESSION_TTL), tok, 1);
  }

  /** Acquiring for a session, and then storing the session. */
  lemma AcquiresAndStores(s: State, rid: nat, o: Object, user: int, sid: string, editor: Editor, mode: Mode,
                          token: string, tok: string)
    requires OneActive(s.rows) && token != "" && sid !in s.sessions && !Foreign(Held(s.rows, s.now), o, user)
    requires rid in s.requests && s.requests[rid] == AcquireSweep(o, user, Some(token), Open(sid, editor, mode))
    ensures Leaves(s, Alone(s, rid, tok, 4), rid,
                   s.sessions[sid := Session(o, user, editor, mode, token, true, s.now + SESSION_TTL)],
                   Held(s.rows, s.now)[o := Holder(user, token, s.now + LOCK_TTL)])
  {
    hide Apply, Alone, OneActive, Sweep, Refresh, Insert, Held, AcquireRows;
    var s1 := Apply(s, Execute(rid, tok));
    Onward(s, rid, tok, 3);
    AcquireSweeps(s, rid, o, user, Some(token), Open(sid, editor, mode), tok);
    SweepKeepsHolders(s.rows, o, s.now);
    HeldLookup(s1.rows, o, s.now);
    hide Select;
    AcquireWrites(s.rows, o, user, token, s.now);
    AcquireRefines(s.rows, o, user, token, "", s.now);
    SelectsAndStores(s1, rid, o, user, sid, editor, mode, token, tok);
  }

  /** The rows an acquire leaves, in its three cases. */
  lemma AcquireWrites(rows: seq<Lock>, o: Object, user: int, token: string, now: int)
    requires OneActive(rows) && token != ""
    ensures var swept, reply := Sweep(rows, o, now), AcquireRows(rows, o, user, token, "", now);
            match Select(swept, o, now)
            case Some(id) =>
              reply.rows == if swept[id].owner != user then swept else Refresh(swept, id, Some(token), now)
            case None => Insert(swept, o, user, token, now) == Some(reply.rows)
  {
    NothingLiveNotTakenIf(rows, o, now);
  }

  lemma NothingLiveNotTakenIf(rows: seq<Lock>, o: Object, now: int)
    ensures Select(Sweep(rows, o, now), o, now) == None ==> !Taken(Sweep(rows, o, now), o)
  {
    if Select(Sweep(rows, o, now), o, now) == None {
      NothingLiveNotTaken(rows, o, now);
    }
  }

  /** Undisturbed, an office open takes or keeps the lock and stores a session in the mode asked for; on an object of
      somebody else it stores a session that can only view, and takes nothing. */
  lemma OfficeOpenAlone(s: State, rid: nat, o: Object, user: int, sid: string, mode: Mode, tok: string)
    requires OneActive(s.rows) && sid !in s.sessions && tok !in s.issued && tok != ""
    requires rid in s.requests && s.requests[rid] == OpenSweep(o, user, sid, Office, mode)
    ensures var m := Held(s.rows, s.now);
            Leaves(s, Alone(s, rid, tok, 6), rid,
                   s.sessions[sid := Session(o, user, Office, if Foreign(m, o, user) then View else mode, tok, true,
                                             s.now + 28_800)],
                   if Foreign(m, o, user) then m else m[o := Holder(user, tok, s.now + 7_200)])
  {
    OpensAs(s, rid, o, user, sid, Office, mode, tok);
  }

  /** From the sweep on, for either editor. */
  lemma OpensAs(s: State, rid: nat, o: Object, user: int, sid: string, editor: Editor, mode: Mode, tok: string)
    requires OneActive(s.rows) && sid !in s.sessions && tok !in s.issued && tok != ""
    requires rid in s.requests && s.requests[rid] == OpenSweep(o, user, sid, editor, mode)
    ensures var m := Held(s.rows, s.now);
            var token := if Foreign(m, o, user) && editor == Monaco then "" else tok;
            Leaves(s, Alone(s, rid, tok, 6), rid,
                   s.sessions[sid := Session(o, user, editor, if Foreign(m, o, user) then View else mode, token, true,
                                             s.now + SESSION_TTL)],
                   if Foreign(m, o, user) then m else m[o := Holder(user, tok, s.now + LOCK_TTL)])
  {
    hide Apply, Alone, OneActive, Sweep, Held;
    var s1 := Apply(s, Execute(rid, tok));
    var s2 := Apply(s1, Execute(rid, tok));
    Onward(s, rid, tok, 5);
    Onward(s1, rid, tok, 4);
    NextOpen(s, rid, tok);
    SweepKeepsHolders(s.rows, o, s.now);
    HeldLookup(s1.rows, o, s.now);
    NextOpen(s1, rid, tok);
    if Foreign(Held(s.rows, s.now), o, user) {
      Onward(s2, rid, tok, 3);
      NextOpen(s2, rid, tok);
      StaysStopped(Apply(s2, Execute(rid, tok)), rid, tok, 3);
    } else {
      AcquiresAndStores(s2, rid, o, user, sid, editor, mode, tok, tok);
    }
  }

  /** The sessions after those of the object that are over have been closed. */
  ghost predicate Expired(sessions: map<string, Session>, after: map<string, Session>, o: Object, now: int)
  {
    && after.Keys == sessions.Keys
    && forall sid :: sid in sessions ==>
         after[sid] == if sessions[sid].obj == o && sessions[sid].expires <= now then sessions[sid].(open := false)
                       else sessions[sid]
  }

  /** Undisturbed, a text open closes the sessions of the object that are over, takes or keeps the lock and stores an
      edit session with its token; on an object of somebody else it stores a session without a token that can only
      view, and takes nothing. */
  lemma TextOpenAlone(s: State, rid: nat, o: Object, user: int, sid: string, tok: string)
      returns (kept: map<string, Session>)
    requires OneActive(s.rows) && sid !in s.sessions && tok !in s.issued && tok != ""
    requires rid in s.requests && s.requests[rid] == OpenExpire(o, user, sid)
    ensures Expired(s.sessions, kept, o, s.now)
    ensures var m := Held(s.rows, s.now);
            Leaves(s, Alone(s, rid, tok, 7), rid,
                   kept[sid := if Foreign(m, o, user) then Session(o, user, Monaco, View, "", true, s.now + 28_800)
                               else Session(o, user, Monaco, Edit, tok, true, s.now + 28_800)],
                   if Foreign(m, o, user) then m else m[o := Holder(user, tok, s.now + 7_200)])
  {
    hide Apply, Alone, OneActive, Held;
    var s1 := Apply(s, Execute(rid, tok));
    Onward(s, rid, tok, 6);
    NextOpen(s, rid, tok);
    kept := s1.sessions;
    OpensAs(s1, rid, o, user, sid, Monaco, Edit, tok);
  }

  lemma RetrySelectsAndStores(s: State, rid: nat, o: Object, user: int, token: string, sid: string, editor: Editor,
                              mode: Mode, tok: string)
    requires rid in s.requests && s.requests[rid] == RetrySelect(o, user, token, Open(sid, editor, mode))
    requires sid !in s.sessions
    ensures At(Alone(s, rid, tok, 2), rid, s.rows,
               if Select(s.rows, o, s.now) == None then s.sessions
               else s.sessions[sid := Session(o, user, editor, mode, token, true, s.now + SESSION_TTL)],
               s.now, Stopped)
  {
    hide Apply, Alone, Select;
    var s1 := Apply(s, Execute(rid, tok));
    Onward(s, rid, tok, 1);
    RetrySelects(s, rid, o, user, token, sid, editor, mode, tok);
    if s1.requests[rid] == Stopped {
      StaysStopped(s1, rid, tok, 1);
    } else {
      StoresIn(s1, rid, sid, Session(o, user, editor, mode, token, true, s.now + SESSION_TTL), tok, 1);
    }
  }

  lemma Retries(s: State, rid: nat, o: Object, user: int, token: string, sid: string, editor: Editor, mode: Mode,
                tok: string)
    requires OneActive(s.rows) && sid !in s.sessions
    requires rid in s.requests && s.requests[rid] == RetrySweep(o, user, token, Open(sid, editor, mode))
    ensures Leaves(s, Alone(s, rid, tok, 3), rid,
                   if o in Held(s.rows, s.now) then
                     s.sessions[sid := Session(o, user, editor, mode, token, true, s.now + SESSION_TTL)]
                   else s.sessions,
                   Held(s.rows, s.now))
  {
    hide Apply, Alone, OneActive, Sweep, Held;
    var s1 := Apply(s, Execute(rid, tok));
    Onward(s, rid, tok, 2);
    RetrySweeps(s, rid, o, user, token, Open(sid, editor, mode), tok);
    SweepKeepsHolders(s.rows, o, s.now);
    HeldLookup(s1.rows, o, s.now);
    hide Select;
    RetrySelectsAndStores(s1, rid, o, user, token, sid, editor, mode, tok);
  }

  lemma TakenRefuses(rows: seq<Lock>, o: Object, user: int, token: string, now: int)
    requires exists i :: 0 <= i < |rows| && rows[i].obj == o && rows[i].status == Active
    ensures Insert(rows, o, user, token, now) == None
  {
  }

  /** An insert that lost the race for the object writes no lock. If the winner's lock is still live the session is
      stored all the same, with a token no lock has; if not, the request gives up. */
  lemma LostRace(s: State, rid: nat, o: Object, user: int, token: string, sid: string, editor: Editor, mode: Mode,
                 tok: string)
    requires OneActive(s.rows) && sid !in s.sessions
    requires exists i :: 0 <= i < |s.rows| && s.rows[i].obj == o && s.rows[i].status == Active
    requires rid in s.requests && s.requests[rid] == AcquireInsert(o, user, token, Open(sid, editor, mode))
    ensures Leaves(s, Alone(s, rid, tok, 4), rid,
                   if o in Held(s.rows, s.now) then
                     s.sessions[sid := Session(o, user, editor, mode, token, true, s.now + SESSION_TTL)]
                   else s.sessions,
                   Held(s.rows, s.now))
  {
    hide Apply, Alone, OneActive, Held, Insert;
    TakenRefuses(s.rows, o, user, token, s.now);
    Onward(s, rid, tok, 3);
    AcquireInserts(s, rid, o, user, token, sid, editor, mode, tok);
    Retries(Apply(s, Execute(rid, tok)), rid, o, user, token, sid, editor, mode, tok);
  }

  /** So an open of an object nobody else holds leaves a session that can pass the save gate. */
  lemma UndisturbedOpenPasses(s: State, rid: nat, o: Object, user: int, sid: string, tok: string)
    requires OneActive(s.rows) && sid !in s.sessions && tok !in s.issued && tok != ""
    requires !Foreign(Held(s.rows, s.now), o, user)
    requires rid in s.requests && s.requests[rid] == OpenExpire(o, user, sid)
    ensures CanPass(Alone(s, rid, tok, 7), sid)
  {
    hide Alone, OneActive, Held;
    var kept := TextOpenAlone(s, rid, o, user, sid, tok);
    HeldLookup(Alone(s, rid, tok, 7).rows, o, s.now);
  }

  /** After the holder's text close nobody holds the object: whoever opens it next, undisturbed, gets an edit session
      that can pass. */
  lemma CloseFreesTheObject(s: State, rid: nat, sid: string, user: int, tok: string, next: int)
    requires OneActive(s.rows) && rid in s.requests && s.requests[rid] == TextClose(sid, user)
    requires Usable(s, sid) && s.sessions[sid].user == user && s.sessions[sid].editor == Monaco
    requires s.sessions[sid].mode == Edit && !Foreign(Held(s.rows, s.now), s.sessions[sid].obj, user)
    ensures var s', o := Alone(s, rid, tok, 5), s.sessions[sid].obj;
            && sid in s'.sessions && !s'.sessions[sid].open && OneActive(s'.rows)
            && o !in Held(s'.rows, s'.now) && !Foreign(Held(s'.rows, s'.now), o, next)
            && (forall i :: 0 <= i < |s'.rows| ==> !Live(s'.rows[i], o, s'.now))
            && (forall other :: other != o ==>
                  (other in Held(s.rows, s.now) <==> other in Held(s'.rows, s'.now)) &&
                  (other in Held(s.rows, s.now) ==> Held(s'.rows, s'.now)[other] == Held(s.rows, s.now)[other]))
  {
    hide Alone, OneActive, Held;
    TextCloseAlone(s, rid, sid, user, tok);
    HeldLookup(Alone(s, rid, tok, 5).rows, s.sessions[sid].obj, s.now);
  }

  /** An open that found the object free, and whose acquire then meets somebody else's lock, stores its session all
      the same, in the mode asked for and with a token no lock has. */
  lemma MeetsAnother(s: State, rid: nat, o: Object, user: int, token: string, sid: string, editor: Editor, mode: Mode,
                     tok: string)
    requires OneActive(s.rows) && sid !in s.sessions && Foreign(Held(s.rows, s.now), o, user)
    requires rid in s.requests && s.requests[rid] == AcquireSelect(o, user, Some(token), Open(sid, editor, mode))
    ensures Leaves(s, Alone(s, rid, tok, 2), rid,
                   s.sessions[sid := Session(o, user, editor, mode, token, true, s.now + SESSION_TTL)],
                   Held(s.rows, s.now))
  {
    hide Apply, Alone, OneActive, Held;
    HeldLookup(s.rows, o, s.now);
    hide Select;
    Onward(s, rid, tok, 1);
    NextAcquire(s, rid, tok);
    StoresIn(Apply(s, Execute(rid, tok)), rid, sid,
             Session(o, user, editor, mode, token, true, s.now + SESSION_TTL), tok, 1);
  }

  // ---------------------------------------------------------------------------
  // Arriving and failing

  /** The requests that clients can send. Nobody arrives in the middle of a handler. */
  lemma Arrives(s: State, rid: nat, o: Object, user: int, sid: string, tok: string, mode: Mode, given: Option<string>)
    requires rid !in s.requests
    ensures forall p ::
              p in {OpenExpire(o, user, sid), OpenSweep(o, user, sid, Office, mode), AcquireSweep(o, user, None, Done),
                    RefreshSweep(o, user, tok), ReleaseSweep(o, user, given, None), TextClose(sid, user),
                    OfficeClosed(sid, tok, given), ForceSweep(o), GateLoad(sid, user)} ==>
                Apply(s, Arrive(rid, p)) == s.(requests := s.requests[rid := p])
    ensures Apply(s, Arrive(rid, OpenSweep(o, user, sid, Monaco, mode))) == s
    ensures Apply(s, Arrive(rid, AcquireSweep(o, user, Some(tok), Done))) == s
    ensures Apply(s, Arrive(rid, CloseUpdate(sid))) == s && Apply(s, Arrive(rid, GatePassed(sid))) == s
    ensures Apply(s, Arrive(rid, OfficeMatched(sid))) == s
  {
  }

  /** A statement that fails changes no table. A close goes on to close its session when its release failed, a text
      open goes on when closing old sessions failed, and every other request returns. */
  lemma Fails(s: State, rid: nat)
    requires rid in s.requests
    ensures var p, s' := s.requests[rid], Apply(s, Fail(rid));
            && s' == s.(requests := s'.requests) && s'.requests.Keys == s.requests.Keys
            && (forall r :: r in s.requests && r != rid ==> s'.requests[r] == s.requests[r])
            && s'.requests[rid] ==
               if (p.ReleaseSweep? || p.ReleaseSelect? || p.ReleaseUpdate?) && p.closing.Some? then
                 CloseUpdate(p.closing.value)
               else if p.OpenExpire? then OpenSweep(p.obj, p.user, p.sid, Monaco, Edit)
               else Stopped
  {
  }

  /** So a close whose release failed at any point still ends the session. */
  lemma ClosesAfterFailure(s: State, rid: nat, sid: string, tok: string)
    requires rid in s.requests && sid in s.sessions
    requires var p := s.requests[rid];
             (p.ReleaseSweep? || p.ReleaseSelect? || p.ReleaseUpdate?) && p.closing == Some(sid)
    ensures Ends(Alone(Apply(s, Fail(rid)), rid, tok, 1), rid, s.rows,
                 s.sessions[sid := s.sessions[sid].(open := false)])
  {
    Fails(s, rid);
    var s1 := Apply(s, Fail(rid));
    hide Apply;
    One(s1, rid, tok);
    NextRelease(s1, rid, tok);
  }
}
