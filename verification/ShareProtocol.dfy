/** Accesses and revokes of share links as interleaved runs of single statements, in which every statement may
    fail before or after its effect. */
module ShareProtocol {
  import opened Text
  import opened Objects
  import opened ShareLinks

  /** Where a request stands. A snapshot is the row as the request read it. */
  datatype Request =
    | Reading(token: string)
    | Checking(id: nat, seen: Link)
    | Signing(id: nat, seen: Link, now: int, met: Outside)
    | Bumping(id: nat, seen: Link, now: int, met: Outside, ttl: int, cap: int, signedAt: int)
    | LookingUp(id: nat, account: int)
    | Revoking(id: nat)
    | Over

  /** A successful access: its link and the row it read, the clock reading it captured and what it met outside when
      it checked, the lifetime of its URLs, the clock reading when they were signed, and the count returned. */
  datatype Grant = Grant(id: nat, seen: Link, now: int, met: Outside, ttl: int, cap: int, signedAt: int, count: nat)

  /** `lost` has the link of every bump that took effect although its statement returned an error. */
  datatype State = State(clock: int, links: seq<Link>, requests: map<nat, Request>, grants: seq<Grant>, lost: seq<nat>)

  /** What a request meets outside the table: the password's check, the object, the signature, the configured
      lifetime. */
  datatype Outside = Outside(passwordOK: bool, objectOK: bool, signedOK: bool, cap: int)

  datatype Label =
    | Tick(d: nat)
    | Create(link: Link, now: int)
    | Access(r: nat, token: string)
    | Revoke(r: nat, id: nat, account: int)
    | Execute(r: nat, outside: Outside, fault: Fault)

  ghost predicate Enabled(s: State, l: Label)
  {
    match l
    case Tick(_) => true
    case Create(_, now) => now <= s.clock
    case Access(r, _) => r !in s.requests
    case Revoke(r, _, _) => r !in s.requests
    case Execute(r, _, _) => r in s.requests
  }

  /** The row with a token, |links| when there is none. */
  function Find(links: seq<Link>, token: string): (i: nat)
    ensures i <= |links|
    ensures i < |links| ==> links[i].token == token
    ensures i == |links| ==> !TokenTaken(links, token)
  {
    if links == [] || links[0].token == token then 0
    else
      var i := Find(links[1..], token);
      assert TokenTaken(links, token) ==> TokenTaken(links[1..], token) by {
        if TokenTaken(links, token) {
          var k :| 0 <= k < |links| && links[k].token == token;
          assert links[1..][k - 1].token == token;
        }
      }
      1 + i
  }

  /** The checks between the read and the signing, in the handler's order. */
  predicate Passes(seen: Link, now: int, outside: Outside)
  {
    && Unexpired(seen, now) && BelowLimit(seen)
    && (seen.passwordHash.Some? && seen.passwordHash.value != "" ==> outside.passwordOK)
    && (seen.allowDownload || seen.allowPreview)
    && outside.objectOK
  }

  function Execution(s: State, q: Request, outside: Outside, fault: Fault): (State, Request)
  {
    match q
    case Reading(token) =>
      var i := Find(s.links, token);
      (s, if fault == Fine && token != "" && i < |s.links| && s.links[i].active then Checking(i, s.links[i]) else Over)
    case Checking(id, seen) => (s, if Passes(seen, s.clock, outside) then Signing(id, seen, s.clock, outside) else Over)
    case Signing(id, seen, now, met) =>
      var ttl := PresignTTL(seen.expiresAt, now, outside.cap);
      (s, if ttl >= SECOND && outside.signedOK then
            Bumping(id, seen, now, met, ttl, outside.cap, s.clock)
          else Over)
    case Bumping(id, seen, now, met, ttl, cap, signedAt) =>
      if fault == Before || !Bumps(s.links, id, now) then (s, Over)
      else
        var s' := s.(links := Bumped(s.links, id, now));
        (if fault == Fine then
           s'.(grants := s.grants + [Grant(id, seen, now, met, ttl, cap, signedAt, s'.links[id].accessCount)])
         else s'.(lost := s.lost + [id]),
         Over)
    case LookingUp(id, account) =>
      (s, if fault == Fine && id < |s.links| && s.links[id].active && s.links[id].account == account
          then Revoking(id) else Over)
    case Revoking(id) => (if fault == Before then s else s.(links := Revoked(s.links, id)), Over)
    case Over => (s, Over)
  }

  function Apply(s: State, l: Label): State
  {
    match l
    case Tick(d) => s.(clock := s.clock + d)
    case Create(link, now) =>
      if Creatable(link, now) && !TokenTaken(s.links, link.token) then
        s.(links := s.links + [NewRow(WithExpiry(link, now))])
      else s
    case Access(r, token) => s.(requests := s.requests[r := Reading(token)])
    case Revoke(r, id, account) => s.(requests := s.requests[r := LookingUp(id, account)])
    case Execute(r, outside, fault) =>
      if r in s.requests then
        var (s', q) := Execution(s, s.requests[r], outside, fault);
        s'.(requests := s.requests[r := q])
      else s
  }

  ghost predicate IsRun(s: State, labels: seq<Label>)
    decreases |labels|
  {
    labels == [] || (Enabled(s, labels[0]) && IsRun(Apply(s, labels[0]), labels[1..]))
  }

  function Run(s: State, labels: seq<Label>): State
    decreases |labels|
  {
    if labels == [] then s else Run(Apply(s, labels[0]), labels[1..])
  }

  const INITIAL := State(0, [], map[], [], [])

  // ---------------------------------------------------------------------------
  // Invariant

  function Of(id: nat): Grant -> bool
  {
    (g: Grant) => g.id == id
  }

  function Is(id: nat): nat -> bool
  {
    (x: nat) => x == id
  }

  /** The successful accesses of a link. */
  function Grants(s: State, id: nat): seq<Grant>
  {
    Filter(Of(id), s.grants)
  }

  /** Everything but the count and the status. */
  predicate SameTerms(a: Link, b: Link)
  {
    a == b.(accessCount := a.accessCount, active := a.active)
  }

  ghost predicate LinkOK(s: State, id: nat)
    requires id < |s.links|
  {
    var l := s.links[id];
    && l.accessCount == |Grants(s, id)| + |Filter(Is(id), s.lost)|
    && (l.maxAccess.Some? ==> l.accessCount <= l.maxAccess.value) && l.expiresAt.Some?
  }

  ghost predicate GrantOK(s: State, g: Grant)
  {
    && g.id < |s.links| && g.count <= s.links[g.id].accessCount
    && g.ttl == PresignTTL(s.links[g.id].expiresAt, g.now, g.cap) && g.ttl >= SECOND
    && g.now <= g.signedAt <= s.clock
    && SameTerms(g.seen, s.links[g.id])
  }

  ghost predicate RequestOK(s: State, q: Request)
  {
    match q
    case Checking(id, seen) => id < |s.links| && SameTerms(seen, s.links[id])
    case Signing(id, seen, now, _) => id < |s.links| && SameTerms(seen, s.links[id]) && now <= s.clock
    case Bumping(id, seen, now, _, ttl, cap, signedAt) =>
      && id < |s.links| && SameTerms(seen, s.links[id]) && now <= signedAt <= s.clock
      && ttl == PresignTTL(seen.expiresAt, now, cap) && ttl >= SECOND
    case _ => true
  }

  ghost predicate Increasing(grants: seq<Grant>)
  {
    forall i, j :: 0 <= i < j < |grants| && grants[i].id == grants[j].id ==> grants[i].count < grants[j].count
  }

  ghost predicate Inv(s: State)
  {
    && (forall id: nat :: id < |s.links| ==> LinkOK(s, id))
    && (forall i :: 0 <= i < |s.grants| ==> GrantOK(s, s.grants[i]))
    && (forall x :: x in s.lost ==> x < |s.links|)
    && (forall r :: r in s.requests ==> RequestOK(s, s.requests[r]))
    && Increasing(s.grants)
  }

  /** Links keep their terms, and a revoked one its grants, its count and its status. */
  ghost predicate Later(s: State, s': State)
  {
    && s.clock <= s'.clock && |s.links| <= |s'.links|
    && (forall id: nat :: id < |s.links| ==> SameTerms(s.links[id], s'.links[id]) && Final(s, s', id))
  }

  ghost predicate Final(s: State, s': State, id: nat)
    requires id < |s.links| <= |s'.links|
  {
    !s.links[id].active ==> s'.links[id] == s.links[id] && Grants(s', id) == Grants(s, id)
  }

  // ---------------------------------------------------------------------------
  // One statement

  /** A bump raises the count of one link, and either the grants or the lost bumps of that link. */
  lemma BumpKeepsLinks(s: State, s': State, id: nat, now: int, g: Grant)
    requires Inv(s) && Bumps(s.links, id, now) && s'.links == Bumped(s.links, id, now) && g.id == id
    requires (s'.grants, s'.lost) == (s.grants + [g], s.lost) || (s'.grants, s'.lost) == (s.grants, s.lost + [id])
    ensures |s'.links| == |s.links|
    ensures forall x: nat :: x < |s.links| ==> LinkOK(s', x) && Final(s, s', x) && SameTerms(s.links[x], s'.links[x])
  {
    hide Filter;
    forall x: nat | x < |s.links| ensures LinkOK(s', x) && Final(s, s', x) && SameTerms(s.links[x], s'.links[x]) {
      assert LinkOK(s, x);
      FilterSnoc(Of(x), s.grants, g);
      FilterSnoc(Is(x), s.lost, id);
    }
  }

  /** Grants and requests stay good when links only gain accesses. */
  lemma OthersKept(s: State, s': State)
    requires Inv(s) && s.clock <= s'.clock && |s.links| <= |s'.links|
    requires forall x: nat :: x < |s.links| ==> SameTerms(s.links[x], s'.links[x])
    requires forall x: nat :: x < |s.links| ==> s.links[x].accessCount <= s'.links[x].accessCount
    ensures forall i :: 0 <= i < |s.grants| ==> GrantOK(s', s.grants[i])
    ensures forall r :: r in s.requests ==> RequestOK(s', s.requests[r])
  {
    hide PresignTTL;
    forall i | 0 <= i < |s.grants| ensures GrantOK(s', s.grants[i]) {
      assert GrantOK(s, s.grants[i]);
    }
    forall r | r in s.requests ensures RequestOK(s', s.requests[r]) {
      assert RequestOK(s, s.requests[r]);
    }
  }

  lemma BumpKeeps(s: State, q: Request, outside: Outside, fault: Fault)
    requires Inv(s) && q.Bumping? && RequestOK(s, q)
    ensures var s' := Execution(s, q, outside, fault).0; Inv(s') && Later(s, s')
  {
    hide LinkOK, Final, Filter, PresignTTL;
    var s' := Execution(s, q, outside, fault).0;
    if fault == Before || !Bumps(s.links, q.id, q.now) {
      LaterReflexive(s);
    } else {
      var g := Grant(q.id, q.seen, q.now, q.met, q.ttl, q.cap, q.signedAt, s'.links[q.id].accessCount);
      BumpKeepsLinks(s, s', q.id, q.now, g);
      OthersKept(s, s');
      if fault == Fine {
        forall i | 0 <= i < |s.grants| && s.grants[i].id == q.id ensures s.grants[i].count < g.count {
          assert GrantOK(s, s.grants[i]);
        }
      }
    }
  }

  lemma LaterReflexive(s: State)
    ensures Later(s, s)
  {
  }

  lemma ExecuteKeeps(s: State, q: Request, outside: Outside, fault: Fault)
    requires Inv(s) && RequestOK(s, q)
    ensures var (s', q') := Execution(s, q, outside, fault); Inv(s') && Later(s, s') && RequestOK(s', q')
    ensures var (s', q') := Execution(s, q, outside, fault); s'.requests == s.requests
  {
    hide Filter, PresignTTL;
    match q
    case Bumping(_, _, _, _, _, _, _) => BumpKeeps(s, q, outside, fault);
    case Revoking(id) =>
      if fault != Before && id < |s.links| {
        var s' := s.(links := Revoked(s.links, id));
        OthersKept(s, s');
        forall x: nat | x < |s.links| ensures LinkOK(s', x) && Final(s, s', x) {
          assert LinkOK(s, x);
        }
      } else {
        LaterReflexive(s);
      }
    case _ => LaterReflexive(s);
  }

  lemma CreateKeeps(s: State, link: Link, now: int)
    requires Inv(s) && Creatable(link, now)
    ensures var s' := s.(links := s.links + [NewRow(WithExpiry(link, now))]); Inv(s') && Later(s, s')
  {
    var s' := s.(links := s.links + [NewRow(WithExpiry(link, now))]);
    OthersKept(s, s');
    hide PresignTTL, RequestOK, Increasing;
    var id: nat := |s.links|;
    assert forall i :: 0 <= i < |s.grants| ==> GrantOK(s, s.grants[i]);
    FilterNone(Of(id), s.grants);
    FilterNone(Is(id), s.lost);
    forall x: nat | x < |s'.links| ensures LinkOK(s', x) {
      if x < |s.links| {
        assert LinkOK(s, x);
      }
    }
  }

  /** Moving the clock and putting requests in their next place keeps everything. */
  lemma OnlyRequests(s: State, clock: int, requests: map<nat, Request>)
    requires Inv(s) && s.clock <= clock
    requires forall r :: r in requests ==> RequestOK(s, requests[r])
    ensures var s' := s.(clock := clock, requests := requests); Inv(s') && Later(s, s')
  {
    hide Filter, PresignTTL;
    var s' := s.(clock := clock, requests := requests);
    OthersKept(s, s');
    forall r | r in requests ensures RequestOK(s', requests[r]) {
      assert RequestOK(s, requests[r]);
    }
    forall x: nat | x < |s.links| ensures LinkOK(s', x) && Final(s, s', x) {
      assert LinkOK(s, x);
    }
  }

  lemma LaterTransitive(a: State, b: State, c: State)
    requires Later(a, b) && Later(b, c)
    ensures Later(a, c)
  {
    hide Filter;
    forall id: nat | id < |a.links| ensures SameTerms(a.links[id], c.links[id]) && Final(a, c, id) {
      assert Final(a, b, id) && Final(b, c, id);
    }
  }

  /** Every step of every request, whatever fails, keeps the invariant and what is final. */
  lemma ApplyKeeps(s: State, l: Label)
    requires Inv(s) && Enabled(s, l)
    ensures Inv(Apply(s, l)) && Later(s, Apply(s, l))
  {
    hide Inv, Later;
    assert forall r :: r in s.requests ==> RequestOK(s, s.requests[r]) by { InvRequests(s); }
    match l
    case Tick(d) => OnlyRequests(s, s.clock + d, s.requests);
    case Access(r, token) => OnlyRequests(s, s.clock, s.requests[r := Reading(token)]);
    case Revoke(r, id, account) => OnlyRequests(s, s.clock, s.requests[r := LookingUp(id, account)]);
    case Create(link, now) =>
      LaterReflexive(s);
      if Creatable(link, now) && !TokenTaken(s.links, link.token) {
        CreateKeeps(s, link, now);
      }
    case Execute(r, outside, fault) =>
      var (s', q) := Execution(s, s.requests[r], outside, fault);
      ExecuteKeeps(s, s.requests[r], outside, fault);
      InvRequests(s');
      OnlyRequests(s', s'.clock, s'.requests[r := q]);
      LaterTransitive(s, s', Apply(s, l));
  }

  lemma InvRequests(s: State)
    requires Inv(s)
    ensures forall r :: r in s.requests ==> RequestOK(s, s.requests[r])
  {
  }

  lemma {:induction false} RunKeeps(s: State, labels: seq<Label>)
    requires Inv(s) && IsRun(s, labels)
    ensures Inv(Run(s, labels)) && Later(s, Run(s, labels))
    decreases |labels|
  {
    hide Inv, Later, Apply, Enabled;
    LaterReflexive(s);
    if labels == [] {
    } else {
      ApplyKeeps(s, labels[0]);
      RunKeeps(Apply(s, labels[0]), labels[1..]);
      LaterTransitive(s, Apply(s, labels[0]), Run(s, labels));
    }
  }

  // ---------------------------------------------------------------------------
  // Main results

  /** Over every interleaving: a link never has more successful accesses than its limit; each access that was
      counted succeeded, or its bump was lost to a database error. */
  lemma AccessesAreBounded(labels: seq<Label>, id: nat)
    requires IsRun(INITIAL, labels) && id < |Run(INITIAL, labels).links|
    ensures var s := Run(INITIAL, labels);
            && s.links[id].accessCount == |Grants(s, id)| + |Filter(Is(id), s.lost)|
            && (s.links[id].maxAccess.Some? ==>
                  |Grants(s, id)| <= s.links[id].accessCount <= s.links[id].maxAccess.value)
  {
    RunKeeps(INITIAL, labels);
    assert LinkOK(Run(INITIAL, labels), id);
  }

  ghost predicate NoDatabaseErrors(labels: seq<Label>)
  {
    forall i :: 0 <= i < |labels| && labels[i].Execute? ==> labels[i].fault == Fine
  }

  lemma {:induction false} NothingLost(s: State, labels: seq<Label>)
    requires NoDatabaseErrors(labels)
    ensures Run(s, labels).lost == s.lost
    decreases |labels|
  {
    if labels == [] {
    } else {
      assert Apply(s, labels[0]).lost == s.lost;
      NothingLost(Apply(s, labels[0]), labels[1..]);
    }
  }

  /** Without database errors, the count of a link is its number of successful accesses. */
  lemma CountIsExact(labels: seq<Label>, id: nat)
    requires IsRun(INITIAL, labels) && NoDatabaseErrors(labels) && id < |Run(INITIAL, labels).links|
    ensures Run(INITIAL, labels).links[id].accessCount == |Grants(Run(INITIAL, labels), id)|
  {
    AccessesAreBounded(labels, id);
    NothingLost(INITIAL, labels);
  }

  /** Once a revoke has committed, no access succeeds any more, even one already past all its checks. */
  lemma RevokedIsFinal(before: seq<Label>, labels: seq<Label>, id: nat)
    requires IsRun(INITIAL, before) && IsRun(Run(INITIAL, before), labels)
    requires id < |Run(INITIAL, before).links| && !Run(INITIAL, before).links[id].active
    ensures var s := Run(INITIAL, before); var s' := Run(s, labels);
            && id < |s'.links| && s'.links[id] == s.links[id] && Grants(s', id) == Grants(s, id)
  {
    RunKeeps(INITIAL, before);
    var s := Run(INITIAL, before);
    RunKeeps(s, labels);
    assert Final(s, Run(s, labels), id);
  }

  /** Every URL lives at least a second, and from the captured clock reading ends no later than its link. */
  lemma UrlsEndWithTheLink(labels: seq<Label>, i: nat)
    requires IsRun(INITIAL, labels) && i < |Run(INITIAL, labels).grants|
    ensures var s, g := Run(INITIAL, labels), Run(INITIAL, labels).grants[i];
            && g.ttl >= SECOND && g.id < |s.links| && s.links[g.id].expiresAt.Some?
            && g.now + g.ttl <= s.links[g.id].expiresAt.value
  {
    RunKeeps(INITIAL, labels);
    var s := Run(INITIAL, labels);
    assert GrantOK(s, s.grants[i]) && LinkOK(s, s.grants[i].id);
  }

  /** The accesses of a link get different, increasing counts. */
  lemma CountsIncrease(labels: seq<Label>, i: nat, j: nat)
    requires IsRun(INITIAL, labels) && i < j < |Run(INITIAL, labels).grants|
    requires Run(INITIAL, labels).grants[i].id == Run(INITIAL, labels).grants[j].id
    ensures Run(INITIAL, labels).grants[i].count < Run(INITIAL, labels).grants[j].count
  {
    RunKeeps(INITIAL, labels);
  }

  function Effective(cap: int): int
  {
    if cap <= 0 then DEFAULT_PRESIGN_CAP else cap
  }

  /** Measured from when it is signed, a URL outlives its link exactly when signing comes later after the captured
      clock reading than the link outlasts the configured lifetime. */
  lemma OutlivesExactly(labels: seq<Label>, i: nat)
    requires IsRun(INITIAL, labels) && i < |Run(INITIAL, labels).grants|
    ensures var s := Run(INITIAL, labels); var g := s.grants[i];
            && g.id < |s.links| && s.links[g.id].expiresAt.Some?
            && var e, spare := s.links[g.id].expiresAt.value, s.links[g.id].expiresAt.value - g.now - Effective(g.cap);
               g.signedAt + g.ttl > e <==> g.signedAt - g.now > if spare > 0 then spare else 0
  {
    UrlsEndWithTheLink(labels, i);
    RunKeeps(INITIAL, labels);
    assert GrantOK(Run(INITIAL, labels), Run(INITIAL, labels).grants[i]);
  }

  const LATE_LINK := Link(1, "b", "k", "t", None, Some(2 * SECOND), None, 0, true, true, true)
  const LATE_MET := Outside(true, true, true, 0)
  const LATE_STEP := Execute(0, LATE_MET, Fine)
  const LATE_RUN: seq<Label> :=
    [Create(LATE_LINK, 0), Access(0, "t"), LATE_STEP, LATE_STEP, Tick(1), LATE_STEP, LATE_STEP]

  function Late(clock: int, q: Request): State
  {
    State(clock, [LATE_LINK], map[0 := q], [], [])
  }

  lemma LateOpening()
    ensures Apply(INITIAL, Create(LATE_LINK, 0)) == State(0, [LATE_LINK], map[], [], [])
    ensures Apply(State(0, [LATE_LINK], map[], [], []), Access(0, "t")) == Late(0, Reading("t"))
    ensures Apply(Late(0, Signing(0, LATE_LINK, 0, LATE_MET)), Tick(1)) == Late(1, Signing(0, LATE_LINK, 0, LATE_MET))
  {
  }

  lemma LateReading()
    ensures Apply(Late(0, Reading("t")), LATE_STEP) == Late(0, Checking(0, LATE_LINK))
    ensures Apply(Late(0, Checking(0, LATE_LINK)), LATE_STEP) == Late(0, Signing(0, LATE_LINK, 0, LATE_MET))
  {
    assert Find([LATE_LINK], "t") == 0;
  }

  lemma LateSigning()
    ensures var q := Bumping(0, LATE_LINK, 0, LATE_MET, 2 * SECOND, 0, 1);
            Apply(Late(1, Signing(0, LATE_LINK, 0, LATE_MET)), LATE_STEP) == Late(1, q)
    ensures var q := Bumping(0, LATE_LINK, 0, LATE_MET, 2 * SECOND, 0, 1);
            var s := Apply(Late(1, q), LATE_STEP);
            && s.grants == [Grant(0, LATE_LINK, 0, LATE_MET, 2 * SECOND, 0, 1, 1)]
            && s.links == [LATE_LINK.(accessCount := 1)]
  {
  }

  /** It happens: a link of two seconds, whose URLs are signed a nanosecond late and live for two seconds. */
  lemma OutlivesOnce()
    ensures IsRun(INITIAL, LATE_RUN)
    ensures var s := Run(INITIAL, LATE_RUN);
            && s.grants == [Grant(0, LATE_LINK, 0, LATE_MET, 2 * SECOND, 0, 1, 1)]
            && s.links == [LATE_LINK.(accessCount := 1)]
            && s.grants[0].signedAt + s.grants[0].ttl > s.links[0].expiresAt.value
  {
    hide Apply;
    LateOpening();
    LateReading();
    LateSigning();
    var l, go, rest := LATE_LINK, LATE_STEP, [LATE_STEP] + ([LATE_STEP] + []);
    var s1 := State(0, [l], map[], [], []);
    First(INITIAL, Create(l, 0), [Access(0, "t")] + ([go] + ([go] + ([Tick(1)] + rest))));
    First(s1, Access(0, "t"), [go] + ([go] + ([Tick(1)] + rest)));
    First(Late(0, Reading("t")), go, [go] + ([Tick(1)] + rest));
    First(Late(0, Checking(0, l)), go, [Tick(1)] + rest);
    First(Late(0, Signing(0, l, 0, LATE_MET)), Tick(1), rest);
    First(Late(1, Signing(0, l, 0, LATE_MET)), go, [go] + []);
    First(Late(1, Bumping(0, l, 0, LATE_MET, 2 * SECOND, 0, 1)), go, []);
    assert LATE_RUN == [Create(l, 0)] + ([Access(0, "t")] + ([go] + ([go] + ([Tick(1)] + rest))));
  }

  const LOST_STEP := Execute(0, LATE_MET, After)

  lemma LostBump()
    ensures var q := Bumping(0, LATE_LINK, 0, LATE_MET, 2 * SECOND, 0, 0);
            Apply(Late(0, Signing(0, LATE_LINK, 0, LATE_MET)), LATE_STEP) == Late(0, q)
    ensures var q := Bumping(0, LATE_LINK, 0, LATE_MET, 2 * SECOND, 0, 0);
            var s := Apply(Late(0, q), LOST_STEP);
            s.grants == [] && s.lost == [0] && s.links == [LATE_LINK.(accessCount := 1)] && s.requests == map[0 := Over]
  {
  }

  /** It happens: the bump takes effect and its statement returns an error, so the access is counted and fails. */
  lemma CountedAccessFails()
    ensures var labels := [Create(LATE_LINK, 0), Access(0, "t"), LATE_STEP, LATE_STEP, LATE_STEP, LOST_STEP];
            && IsRun(INITIAL, labels)
            && var s := Run(INITIAL, labels);
               s.links == [LATE_LINK.(accessCount := 1)] && s.grants == [] && s.requests == map[0 := Over]
  {
    hide Apply;
    LateOpening();
    LateReading();
    LostBump();
    var l, go, rest := LATE_LINK, LATE_STEP, [LATE_STEP] + ([LOST_STEP] + []);
    First(INITIAL, Create(l, 0), [Access(0, "t")] + ([go] + ([go] + rest)));
    First(State(0, [l], map[], [], []), Access(0, "t"), [go] + ([go] + rest));
    First(Late(0, Reading("t")), go, [go] + rest);
    First(Late(0, Checking(0, l)), go, rest);
    First(Late(0, Signing(0, l, 0, LATE_MET)), go, [LOST_STEP] + []);
    First(Late(0, Bumping(0, l, 0, LATE_MET, 2 * SECOND, 0, 0)), LOST_STEP, []);
    assert [Create(l, 0), Access(0, "t"), go, go, go, LOST_STEP]
        == [Create(l, 0)] + ([Access(0, "t")] + ([go] + ([go] + rest)));
  }

  /** A request that nothing disturbs: `n` of its statements one after the other. */
  function Steps(r: nat, outside: Outside, n: nat): seq<Label>
  {
    if n == 0 then [] else [Execute(r, outside, Fine)] + Steps(r, outside, n - 1)
  }

  ghost predicate Yields(s: State, labels: seq<Label>, grant: Option<Grant>)
  {
    var s' := Run(s, labels);
    && IsRun(s, labels)
    && match grant
       case None => s'.links == s.links && s'.grants == s.grants
       case Some(g) => && g.id < |s.links| && s'.grants == s.grants + [g]
                       && s'.links == s.links[g.id := s.links[g.id].(accessCount := g.count)]
  }

  lemma First(s: State, l: Label, rest: seq<Label>)
    ensures Run(s, [l] + rest) == Run(Apply(s, l), rest)
    ensures IsRun(s, [l] + rest) <==> Enabled(s, l) && IsRun(Apply(s, l), rest)
  {
    assert ([l] + rest)[1..] == rest;
  }

  lemma {:induction false} FromOver(s: State, r: nat, outside: Outside, n: nat)
    requires r in s.requests && s.requests[r] == Over
    ensures Yields(s, Steps(r, outside, n), None)
    decreases n
  {
    if n == 0 {
    } else {
      First(s, Execute(r, outside, Fine), Steps(r, outside, n - 1));
      FromOver(Apply(s, Execute(r, outside, Fine)), r, outside, n - 1);
    }
  }

  lemma FromBumping(s: State, r: nat, outside: Outside)
    requires r in s.requests && s.requests[r].Bumping?
    ensures var q := s.requests[r];
            Yields(s, Steps(r, outside, 1),
                   if Bumps(s.links, q.id, q.now) then
                     Some(Grant(q.id, q.seen, q.now, q.met, q.ttl, q.cap, q.signedAt, s.links[q.id].accessCount + 1))
                   else None)
  {
    First(s, Execute(r, outside, Fine), []);
  }

  lemma FromSigning(s: State, r: nat, outside: Outside)
    requires r in s.requests && s.requests[r].Signing?
    ensures var q := s.requests[r]; var ttl := PresignTTL(q.seen.expiresAt, q.now, outside.cap);
            Yields(s, Steps(r, outside, 2),
                   if ttl >= SECOND && outside.signedOK && Bumps(s.links, q.id, q.now) then
                     Some(Grant(q.id, q.seen, q.now, q.met, ttl, outside.cap, s.clock, s.links[q.id].accessCount + 1))
                   else None)
  {
    var go := Execute(r, outside, Fine);
    First(s, go, Steps(r, outside, 1));
    if Apply(s, go).requests[r].Bumping? {
      FromBumping(Apply(s, go), r, outside);
    } else {
      FromOver(Apply(s, go), r, outside, 1);
    }
  }

  lemma FromChecking(s: State, r: nat, outside: Outside)
    requires r in s.requests && s.requests[r].Checking?
    ensures var q := s.requests[r]; var ttl := PresignTTL(q.seen.expiresAt, s.clock, outside.cap);
            Yields(s, Steps(r, outside, 3),
                   if Passes(q.seen, s.clock, outside) && ttl >= SECOND && outside.signedOK &&
                      Bumps(s.links, q.id, s.clock)
                   then Some(Grant(q.id, q.seen, s.clock, outside, ttl, outside.cap, s.clock,
                                   s.links[q.id].accessCount + 1))
                   else None)
  {
    var go := Execute(r, outside, Fine);
    First(s, go, Steps(r, outside, 2));
    if Apply(s, go).requests[r].Signing? {
      FromSigning(Apply(s, go), r, outside);
    } else {
      FromOver(Apply(s, go), r, outside, 2);
    }
  }

  /** Alone and without errors, an access succeeds exactly when the link is there, active, unexpired and below its
      limit, its password if it has one is right, it allows a download or a preview, the object exists, the
      signature works and the URLs can live for a second. It then counts once. */
  lemma AloneSucceedsExactly(s: State, r: nat, token: string, outside: Outside)
    requires r !in s.requests
    ensures var i := Find(s.links, token);
            Yields(s, [Access(r, token)] + Steps(r, outside, 4),
                   if && token != "" && i < |s.links| && s.links[i].active
                      && (s.links[i].expiresAt == None || s.links[i].expiresAt.value - s.clock >= SECOND)
                      && (s.links[i].maxAccess == None || s.links[i].accessCount < s.links[i].maxAccess.value)
                      && (s.links[i].passwordHash == None || s.links[i].passwordHash == Some("") || outside.passwordOK)
                      && (s.links[i].allowDownload || s.links[i].allowPreview)
                      && outside.objectOK && outside.signedOK && (outside.cap <= 0 || outside.cap >= SECOND)
                   then Some(Grant(i, s.links[i], s.clock, outside,
                                   PresignTTL(s.links[i].expiresAt, s.clock, outside.cap), outside.cap, s.clock,
                                   s.links[i].accessCount + 1))
                   else None)
  {
    var i := Find(s.links, token);
    if i < |s.links| {
      var ttl := PresignTTL(s.links[i].expiresAt, s.clock, outside.cap);
    }
    hide PresignTTL;
    var go := Execute(r, outside, Fine);
    var s1 := Apply(s, Access(r, token));
    First(s, Access(r, token), Steps(r, outside, 4));
    First(s1, go, Steps(r, outside, 3));
    if Apply(s1, go).requests[r].Checking? {
      FromChecking(Apply(s1, go), r, outside);
    } else {
      FromOver(Apply(s1, go), r, outside, 3);
    }
  }

  /** Each refusal alone is enough: the access is not granted and not counted. */
  lemma AloneIsRefused(s: State, r: nat, token: string, outside: Outside)
    requires r !in s.requests
    ensures var i, labels := Find(s.links, token), [Access(r, token)] + Steps(r, outside, 4);
            && (token == "" || i == |s.links| ==> Yields(s, labels, None))
            && (i < |s.links| && !s.links[i].active ==> Yields(s, labels, None))
            && (i < |s.links| && s.links[i].expiresAt.Some? && s.links[i].expiresAt.value <= s.clock ==>
                  Yields(s, labels, None))
            && (i < |s.links| && s.links[i].maxAccess.Some? && s.links[i].accessCount >= s.links[i].maxAccess.value ==>
                  Yields(s, labels, None))
            && (i < |s.links| && s.links[i].passwordHash !in {None, Some("")} && !outside.passwordOK ==>
                  Yields(s, labels, None))
            && (i < |s.links| && !s.links[i].allowDownload && !s.links[i].allowPreview ==> Yields(s, labels, None))
            && (!outside.objectOK || !outside.signedOK ==> Yields(s, labels, None))
  {
    AloneSucceedsExactly(s, r, token, outside);
  }

  /** Alone and without errors, a revoke turns the link off exactly when it is active and of the account. */
  lemma AloneRevokes(s: State, r: nat, id: nat, account: int, outside: Outside)
    requires r !in s.requests
    ensures var labels := [Revoke(r, id, account)] + Steps(r, outside, 2);
            && IsRun(s, labels)
            && Run(s, labels).links == (if id < |s.links| && s.links[id].active && s.links[id].account == account then
                                          s.links[id := s.links[id].(active := false)] else s.links)
            && Run(s, labels).grants == s.grants
  {
    var go := Execute(r, outside, Fine);
    var s1 := Apply(s, Revoke(r, id, account));
    First(s, Revoke(r, id, account), Steps(r, outside, 2));
    First(s1, go, Steps(r, outside, 1));
    First(Apply(s1, go), go, Steps(r, outside, 0));
    assert Steps(r, outside, 2) == [go] + Steps(r, outside, 1) && Steps(r, outside, 1) == [go] + Steps(r, outside, 0);
  }

  /** What a failing update leaves: nothing when it failed before its effect, everything but the answer when after. */
  lemma FailingUpdates(s: State, r: nat, outside: Outside)
    requires r in s.requests && (s.requests[r].Bumping? || s.requests[r].Revoking?)
    ensures Apply(s, Execute(r, outside, Before)) == s.(requests := s.requests[r := Over])
    ensures var q, s' := s.requests[r], Apply(s, Execute(r, outside, After));
            && s'.grants == s.grants && s'.requests == s.requests[r := Over]
            && (q.Revoking? && q.id < |s.links| ==> s'.links == s.links[q.id := s.links[q.id].(active := false)])
            && (&& q.Bumping? && q.id < |s.links| && s.links[q.id].active
                && (s.links[q.id].expiresAt == None || s.links[q.id].expiresAt.value > q.now)
                && (s.links[q.id].maxAccess == None || s.links[q.id].accessCount < s.links[q.id].maxAccess.value) ==>
                  && s'.links == s.links[q.id := s.links[q.id].(accessCount := s.links[q.id].accessCount + 1)]
                  && s'.lost == s.lost + [q.id])
  {
  }

  /** A read that fails ends its request, and nothing else changes. */
  lemma FailingReads(s: State, r: nat, outside: Outside, fault: Fault)
    requires r in s.requests && (s.requests[r].Reading? || s.requests[r].LookingUp?) && fault != Fine
    ensures Apply(s, Execute(r, outside, fault)) == s.(requests := s.requests[r := Over])
  {
  }

  /** A link is created exactly for a user key, some permission, a limit of at least 1 and an expiry to come, under
      a token not yet taken; it starts active and unused, and ends after seven days unless told otherwise. */
  lemma CreatesLink(s: State, link: Link, now: int)
    ensures var s' := Apply(s, Create(link, now));
            s' == s.(links := if && link.key != "" && link.key != ".trash" && link.key != ".versions"
                                 && !(".trash/" <= link.key) && !(".versions/" <= link.key)
                                 && (link.allowDownload || link.allowPreview)
                                 && (link.maxAccess == None || link.maxAccess.value >= 1)
                                 && (link.expiresAt == None || link.expiresAt.value > now)
                                 && (forall i :: 0 <= i < |s.links| ==> s.links[i].token != link.token)
                              then s.links + [link.(accessCount := 0, active := true,
                                                    expiresAt := if link.expiresAt.Some? then link.expiresAt
                                                                 else Some(now + 604800 * 1_000_000_000))]
                              else s.links)
  {
  }

  // ---------------------------------------------------------------------------
  // Every grant was checked

  /** At label `n`, some request that had read this row checked it, at this time and meeting this outside. */
  ghost predicate CheckedAt(labels: seq<Label>, n: nat, id: nat, seen: Link, now: int, met: Outside)
    requires n < |labels|
  {
    var s := Run(INITIAL, labels[..n]);
    && labels[n].Execute? && labels[n].outside == met && s.clock == now
    && labels[n].r in s.requests && s.requests[labels[n].r] == Checking(id, seen)
  }

  ghost predicate Checked(labels: seq<Label>, id: nat, seen: Link, now: int, met: Outside)
  {
    && (exists n :: 0 <= n < |labels| && CheckedAt(labels, n, id, seen, now, met))
    && seen.active
    && (seen.expiresAt == None || seen.expiresAt.value > now)
    && (seen.maxAccess == None || seen.accessCount < seen.maxAccess.value)
    && (seen.passwordHash == None || seen.passwordHash == Some("") || met.passwordOK)
    && (seen.allowDownload || seen.allowPreview)
    && met.objectOK
  }

  ghost predicate AllChecked(labels: seq<Label>)
  {
    var s := Run(INITIAL, labels);
    && (forall g :: g in s.grants ==> Checked(labels, g.id, g.seen, g.now, g.met))
    && (forall r :: r in s.requests ==> RequestChecked(labels, s.requests[r]))
  }

  ghost predicate RequestChecked(labels: seq<Label>, q: Request)
  {
    match q
    case Checking(id, seen) => seen.active
    case Signing(id, seen, now, met) => Checked(labels, id, seen, now, met)
    case Bumping(id, seen, now, met, _, _, _) => Checked(labels, id, seen, now, met)
    case _ => true
  }

  lemma {:induction false} RunSnoc(s: State, labels: seq<Label>, l: Label)
    ensures Run(s, labels + [l]) == Apply(Run(s, labels), l)
    decreases |labels|
  {
    hide Apply;
    if labels == [] {
      assert [l][1..] == [] && [] + [l] == [l];
    } else {
      assert (labels + [l])[0] == labels[0] && (labels + [l])[1..] == labels[1..] + [l];
      RunSnoc(Apply(s, labels[0]), labels[1..], l);
    }
  }

  lemma CheckedStays(labels: seq<Label>, l: Label, id: nat, seen: Link, now: int, met: Outside)
    requires Checked(labels, id, seen, now, met)
    ensures Checked(labels + [l], id, seen, now, met)
  {
    hide Run;
    var n :| 0 <= n < |labels| && CheckedAt(labels, n, id, seen, now, met);
    assert (labels + [l])[..n] == labels[..n] && (labels + [l])[n] == labels[n];
    assert CheckedAt(labels + [l], n, id, seen, now, met);
  }

  /** A request that moves to signing has just been checked. */
  lemma MovedIsChecked(labels: seq<Label>, r: nat, outside: Outside, fault: Fault)
    requires AllChecked(labels) && r in Run(INITIAL, labels).requests
    ensures var l, s := Execute(r, outside, fault), Run(INITIAL, labels);
            var (s', q') := Execution(s, s.requests[r], outside, fault);
            && RequestChecked(labels + [l], q')
            && (forall g :: g in s'.grants ==> g in s.grants || Checked(labels, g.id, g.seen, g.now, g.met))
  {
    var l, s := Execute(r, outside, fault), Run(INITIAL, labels);
    var q := s.requests[r];
    assert RequestChecked(labels, q);
    match q
    case Checking(id, seen) =>
      assert (labels + [l])[..|labels|] == labels && (labels + [l])[|labels|] == l;
      assert CheckedAt(labels + [l], |labels|, id, seen, s.clock, outside);
    case Signing(id, seen, now, met) => CheckedStays(labels, l, id, seen, now, met);
    case _ =>
  }

  lemma AllCheckedStep(labels: seq<Label>, l: Label)
    requires AllChecked(labels)
    ensures AllChecked(labels + [l])
  {
    hide Run, Execution, Checked, Passes;
    RunSnoc(INITIAL, labels, l);
    var s := Run(INITIAL, labels);
    forall id, seen, now, met | Checked(labels, id, seen, now, met) ensures Checked(labels + [l], id, seen, now, met) {
      CheckedStays(labels, l, id, seen, now, met);
    }
    if l.Execute? && l.r in s.requests {
      MovedIsChecked(labels, l.r, l.outside, l.fault);
      OnlyBumpsGrant(s, l.r, l.outside, l.fault);
    }
  }

  lemma OnlyBumpsGrant(s: State, r: nat, outside: Outside, fault: Fault)
    requires r in s.requests
    ensures Execution(s, s.requests[r], outside, fault).0.requests == s.requests
  {
  }

  lemma {:induction false} RunIsChecked(labels: seq<Label>)
    ensures AllChecked(labels)
    decreases |labels|
  {
    hide AllChecked;
    if labels == [] {
      assert AllChecked([]) by { NothingToCheck(); }
    } else {
      var front, l := labels[..|labels| - 1], labels[|labels| - 1];
      RunIsChecked(front);
      AllCheckedStep(front, l);
      assert labels == front + [l];
    }
  }

  lemma NothingToCheck()
    ensures AllChecked([])
  {
  }

  /** Over every interleaving: each successful access was checked, by the request that had read the row, at the time
      it captured and against what it then met: the link was active when read, unexpired, below its limit, open to
      download or preview, its object was there, and a password it has was right. The row read has the link's
      terms. */
  lemma GrantsAreChecked(labels: seq<Label>, g: Grant)
    requires IsRun(INITIAL, labels) && g in Run(INITIAL, labels).grants
    ensures exists n :: 0 <= n < |labels| && CheckedAt(labels, n, g.id, g.seen, g.now, g.met)
    ensures g.seen.active && g.met.objectOK && (g.seen.allowDownload || g.seen.allowPreview)
    ensures g.seen.expiresAt == None || g.seen.expiresAt.value > g.now
    ensures g.seen.maxAccess == None || g.seen.accessCount < g.seen.maxAccess.value
    ensures g.seen.passwordHash == None || g.seen.passwordHash == Some("") || g.met.passwordOK
    ensures var s := Run(INITIAL, labels);
            g.id < |s.links| && g.seen == s.links[g.id].(accessCount := g.seen.accessCount, active := g.seen.active)
  {
    RunIsChecked(labels);
    RunKeeps(INITIAL, labels);
    var s := Run(INITIAL, labels);
    assert Checked(labels, g.id, g.seen, g.now, g.met);
    var i :| 0 <= i < |s.grants| && s.grants[i] == g;
    assert GrantOK(s, s.grants[i]);
  }
}
