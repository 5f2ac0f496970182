/** The permission tables, the rules loaded from them for one user, and the decision they are meant to encode. */
module RbacTables {
  import opened Text
  import opened Rbac

  datatype Permission = Permission(account: int, userId: Option<int>, roleId: Option<int>, groupId: Option<int>,
                                   bucketId: Option<int>, prefix: Option<string>, actions: seq<string>)
  datatype TemplateRule = TemplateRule(templateId: int, bucketId: Option<int>, prefix: Option<string>,
                                       actions: seq<string>)
  datatype Assignment = Assignment(account: int, templateId: int, userId: Option<int>, groupId: Option<int>)
  datatype Member = Member(group: int, user: int)

  datatype Db = Db(permissions: seq<Permission>, templateRules: seq<TemplateRule>, assignments: seq<Assignment>,
                   roles: map<int, string>, groupAccount: map<int, int>, members: seq<Member>,
                   bucketNames: map<int, string>)

  function Count(a: bool): nat { if a then 1 else 0 }

  /** The constraints of the schema: one subject for each permission and assignment, foreign keys, and bucket
      names that are not empty. */
  predicate Constraints(db: Db)
  {
    && (forall p :: p in db.permissions ==>
          && Count(p.userId.Some?) + Count(p.roleId.Some?) + Count(p.groupId.Some?) == 1
          && (p.roleId.Some? ==> p.roleId.value in db.roles)
          && (p.bucketId.Some? ==> p.bucketId.value in db.bucketNames))
    && (forall t :: t in db.templateRules ==> (t.bucketId.Some? ==> t.bucketId.value in db.bucketNames))
    && (forall a :: a in db.assignments ==> Count(a.userId.Some?) + Count(a.groupId.Some?) == 1)
    && (forall id :: id in db.bucketNames ==> db.bucketNames[id] != "")
  }

  /** A LEFT JOIN on an id. */
  function Join(names: map<int, string>, id: Option<int>): Option<string>
  {
    if id.Some? && id.value in names then Some(names[id.value]) else None
  }

  predicate InGroup(db: Db, account: int, user: int, group: int)
  {
    Member(group, user) in db.members && group in db.groupAccount && db.groupAccount[group] == account
  }

  function Groups(db: Db, account: int, user: int): (groups: set<int>)
    ensures forall g :: g in groups <==>
              Member(g, user) in db.members && g in db.groupAccount && db.groupAccount[g] == account
  {
    set m | m in db.members && m.user == user && InGroup(db, account, user, m.group) :: m.group
  }

  method GroupIDs(db: Db, account: int, user: int) returns (ids: seq<int>)
    ensures SetOf(ids) == Groups(db, account, user)
    ensures forall g :: g in ids <==>
              Member(g, user) in db.members && g in db.groupAccount && db.groupAccount[g] == account
  {
    ids := [];
    for i := 0 to |db.members|
      invariant forall g :: g in ids <==> exists m :: m in db.members[..i] && m.user == user && m.group == g &&
                                                      InGroup(db, account, user, g)
    {
      var m := db.members[i];
      assert db.members[..i + 1] == db.members[..i] + [m];
      if m.user == user && m.group in db.groupAccount && db.groupAccount[m.group] == account {
        ids := ids + [m.group];
      }
    }
    assert db.members[..|db.members|] == db.members;
    forall g ensures g in ids <==> g in Groups(db, account, user) {
    }
  }

  // ---------------------------------------------------------------------------
  // Loading rules

  /** The WHERE clause over `tenant_permissions` with its joins. */
  predicate SelectsPermission(db: Db, p: Permission, account: int, user: int, role: string)
  {
    p.account == account && (p.userId == Some(user) || Join(db.roles, p.roleId) == Some(role) ||
                             (p.groupId.Some? && InGroup(db, account, user, p.groupId.value)))
  }

  /** The join of template rules and assignments with its WHERE clause. */
  predicate SelectsTemplate(db: Db, t: TemplateRule, a: Assignment, account: int, user: int)
  {
    a.templateId == t.templateId && a.account == account &&
    (a.userId == Some(user) || (a.groupId.Some? && InGroup(db, account, user, a.groupId.value)))
  }

  function PermissionRule(db: Db, p: Permission): Rule
  {
    Rule(Join(db.bucketNames, p.bucketId), p.prefix, p.actions, p.userId, Join(db.roles, p.roleId), p.groupId)
  }

  /** A template rule reaches the decision rewritten as a rule of the user. */
  function AssignedRule(db: Db, t: TemplateRule, user: int): Rule
  {
    Rule(Join(db.bucketNames, t.bucketId), t.prefix, t.actions, Some(user), None, None)
  }

  predicate FromPermission(db: Db, account: int, user: int, role: string, rows: seq<Permission>, rule: Rule)
  {
    exists p :: p in rows && SelectsPermission(db, p, account, user, role) && rule == PermissionRule(db, p)
  }

  predicate FromTemplate(db: Db, account: int, user: int, t: TemplateRule, rows: seq<Assignment>, rule: Rule)
  {
    exists a :: a in rows && SelectsTemplate(db, t, a, account, user) && rule == AssignedRule(db, t, user)
  }

  predicate FromTemplates(db: Db, account: int, user: int, rows: seq<TemplateRule>, rule: Rule)
  {
    exists t :: t in rows && FromTemplate(db, account, user, t, db.assignments, rule)
  }

  method LoadRules(db: Db, account: int, user: int, role: string) returns (rules: seq<Rule>)
    ensures forall r :: r in rules <==> FromPermission(db, account, user, role, db.permissions, r) ||
                                        FromTemplates(db, account, user, db.templateRules, r)
  {
    rules := [];
    for i := 0 to |db.permissions|
      invariant forall r :: r in rules <==> FromPermission(db, account, user, role, db.permissions[..i], r)
    {
      var p := db.permissions[i];
      assert db.permissions[..i + 1] == db.permissions[..i] + [p];
      if SelectsPermission(db, p, account, user, role) {
        rules := rules + [PermissionRule(db, p)];
      }
    }
    assert db.permissions[..|db.permissions|] == db.permissions;
    ghost var direct := rules;
    for i := 0 to |db.templateRules|
      invariant forall r :: r in rules <==> r in direct || FromTemplates(db, account, user, db.templateRules[..i], r)
    {
      var t := db.templateRules[i];
      assert db.templateRules[..i + 1] == db.templateRules[..i] + [t];
      var more := LoadAssigned(db, account, user, t);
      rules := rules + more;
    }
    assert db.templateRules[..|db.templateRules|] == db.templateRules;
  }

  method LoadAssigned(db: Db, account: int, user: int, t: TemplateRule) returns (rules: seq<Rule>)
    ensures forall r :: r in rules <==> FromTemplate(db, account, user, t, db.assignments, r)
  {
    rules := [];
    for i := 0 to |db.assignments|
      invariant forall r :: r in rules <==> FromTemplate(db, account, user, t, db.assignments[..i], r)
    {
      var a := db.assignments[i];
      assert db.assignments[..i + 1] == db.assignments[..i] + [a];
      if SelectsTemplate(db, t, a, account, user) {
        rules := rules + [AssignedRule(db, t, user)];
      }
    }
    assert db.assignments[..|db.assignments|] == db.assignments;
  }

  // ---------------------------------------------------------------------------
  // The decision read off the tables

  /** Where a permission comes from: a permission row, or a template rule with one of its assignments. */
  datatype Source = Direct(p: Permission) | Assigned(t: TemplateRule, a: Assignment)
  {
    function BucketId(): Option<int> { if Direct? then p.bucketId else t.bucketId }
    function Prefix(): string
    {
      var prefix := if Direct? then p.prefix else t.prefix;
      if prefix == None || prefix.value == "*" then "" else prefix.value
    }
    function Actions(): seq<string> { if Direct? then p.actions else t.actions }
  }

  predicate InTables(db: Db, s: Source)
  {
    match s
    case Direct(p) => p in db.permissions
    case Assigned(t, a) => t in db.templateRules && a in db.assignments && a.templateId == t.templateId
  }

  /** The source is addressed to the user: by id, by role, or by a group of the account that has the user. */
  predicate Addressed(db: Db, s: Source, account: int, user: int, role: string)
  {
    match s
    case Direct(p) =>
      && p.account == account
      && (p.userId.Some? ==> p.userId.value == user)
      && (p.roleId.Some? ==> p.roleId.value in db.roles && db.roles[p.roleId.value] == role)
      && (p.groupId.Some? ==>
            && Member(p.groupId.value, user) in db.members
            && p.groupId.value in db.groupAccount && db.groupAccount[p.groupId.value] == account)
    case Assigned(t, a) =>
      && a.account == account
      && (a.userId.Some? ==> a.userId.value == user)
      && (a.groupId.Some? ==>
            && Member(a.groupId.value, user) in db.members
            && a.groupId.value in db.groupAccount && db.groupAccount[a.groupId.value] == account)
  }

  /** The source speaks about the place: any bucket or this one, and a prefix of the given prefix. */
  predicate Reaches(db: Db, s: Source, bucket: string, prefix: string)
  {
    && (s.BucketId().Some? ==> s.BucketId().value in db.bucketNames && db.bucketNames[s.BucketId().value] == bucket)
    && s.Prefix() <= prefix
  }

  predicate Speaks(db: Db, s: Source, account: int, q: Query)
  {
    InTables(db, s) && Addressed(db, s, account, q.user, q.role) && Reaches(db, s, q.bucket, q.prefix)
  }

  /** Some source that speaks about the place, with a prefix as long as any, carries the action or admin. */
  ghost predicate TableDecision(db: Db, account: int, q: Query, action: string)
  {
    exists s :: Speaks(db, s, account, q) && (ADMIN in s.Actions() || action in s.Actions()) &&
                forall other :: Speaks(db, other, account, q) ==> |other.Prefix()| <= |s.Prefix()|
  }

  function RuleOf(db: Db, s: Source, user: int): Rule
  {
    match s
    case Direct(p) => PermissionRule(db, p)
    case Assigned(t, a) => AssignedRule(db, t, user)
  }

  ghost predicate Loaded(db: Db, account: int, user: int, role: string, rules: set<Rule>)
  {
    forall r :: r in rules <==> FromPermission(db, account, user, role, db.permissions, r) ||
                                FromTemplates(db, account, user, db.templateRules, r)
  }

  lemma SpeaksIsMatch(db: Db, s: Source, account: int, q: Query, rules: set<Rule>)
    requires Constraints(db) && Loaded(db, account, q.user, q.role, rules) && q.groups == Groups(db, account, q.user)
    requires Speaks(db, s, account, q)
    ensures RuleOf(db, s, q.user) in rules && Matches(RuleOf(db, s, q.user), q)
    ensures MatchLen(RuleOf(db, s, q.user), q) == |s.Prefix()|
    ensures forall action :: Grants(RuleOf(db, s, q.user), action) <==> ADMIN in s.Actions() || action in s.Actions()
  {
    var r := RuleOf(db, s, q.user);
    match s
    case Direct(p) =>
      assert SelectsPermission(db, p, account, q.user, q.role);
      assert FromPermission(db, account, q.user, q.role, db.permissions, r);
      if p.groupId.Some? {
        assert Member(p.groupId.value, q.user) in db.members;
      }
    case Assigned(t, a) =>
      assert SelectsTemplate(db, t, a, account, q.user);
      assert FromTemplate(db, account, q.user, t, db.assignments, r);
      assert FromTemplates(db, account, q.user, db.templateRules, r);
  }

  lemma MatchSpeaks(db: Db, account: int, q: Query, rules: set<Rule>, r: Rule) returns (s: Source)
    requires Constraints(db) && Loaded(db, account, q.user, q.role, rules) && q.groups == Groups(db, account, q.user)
    requires r in rules && Matches(r, q)
    ensures Speaks(db, s, account, q) && RuleOf(db, s, q.user) == r
  {
    if FromPermission(db, account, q.user, q.role, db.permissions, r) {
      var p :| p in db.permissions && SelectsPermission(db, p, account, q.user, q.role) && r == PermissionRule(db, p);
      s := Direct(p);
    } else {
      var t :| t in db.templateRules && FromTemplate(db, account, q.user, t, db.assignments, r);
      var a :| a in db.assignments && SelectsTemplate(db, t, a, account, q.user) && r == AssignedRule(db, t, q.user);
      s := Assigned(t, a);
    }
    if s.BucketId().Some? {
      BucketNamed(db, s);
    }
  }

  lemma BucketNamed(db: Db, s: Source)
    requires Constraints(db) && InTables(db, s) && s.BucketId().Some?
    ensures s.BucketId().value in db.bucketNames && db.bucketNames[s.BucketId().value] != ""
  {
    var id := s.BucketId().value;
    assert id in db.bucketNames;
  }

  /** Deciding over the loaded rules is deciding over the tables. */
  lemma DecisionMatchesTables(db: Db, account: int, q: Query, action: string, rules: set<Rule>)
    requires Constraints(db) && Loaded(db, account, q.user, q.role, rules) && q.groups == Groups(db, account, q.user)
    ensures Permitted(q, action, rules) <==> TableDecision(db, account, q, action)
  {
    hide Constraints, Loaded, Speaks, Matches, RuleOf;
    if Permitted(q, action, rules) {
      var r :| Decisive(r, q, rules) && Grants(r, action);
      var s := MatchSpeaks(db, account, q, rules, r);
      SpeaksIsMatch(db, s, account, q, rules);
      forall other | Speaks(db, other, account, q) ensures |other.Prefix()| <= |s.Prefix()| {
        SpeaksIsMatch(db, other, account, q, rules);
      }
    }
    if TableDecision(db, account, q, action) {
      var s :| Speaks(db, s, account, q) && (ADMIN in s.Actions() || action in s.Actions()) &&
               forall other :: Speaks(db, other, account, q) ==> |other.Prefix()| <= |s.Prefix()|;
      var r := RuleOf(db, s, q.user);
      SpeaksIsMatch(db, s, account, q, rules);
      forall other | other in rules && Matches(other, q) ensures MatchLen(other, q) <= MatchLen(r, q) {
        var s' := MatchSpeaks(db, account, q, rules, other);
        SpeaksIsMatch(db, s', account, q, rules);
      }
      assert Decisive(r, q, rules);
    }
  }
}
