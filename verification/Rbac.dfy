/** The permission decision: longest matching prefix wins, equal lengths are united, admin covers every action. */
module Rbac {
  import opened Text

  datatype Rule = Rule(bucketName: Option<string>, prefix: Option<string>, actions: seq<string>,
                       userId: Option<int>, roleName: Option<string>, groupId: Option<int>)

  const ADMIN := "admin"
  const READ := "read"
  const BUCKET_CREATE := "bucket_create"

  // ---------------------------------------------------------------------------
  // Matching one rule

  predicate RuleApplies(rule: Rule, user: int, role: string, groups: set<int>)
  {
    if rule.userId.Some? then rule.userId.value == user
    else if rule.roleName.Some? then rule.roleName.value == role
    else rule.groupId.Some? && rule.groupId.value in groups
  }

  predicate BucketMatches(ruleBucket: Option<string>, bucket: string)
  {
    ruleBucket == None || ruleBucket.value == "" || (bucket != "" && ruleBucket.value == bucket)
  }

  /** The length of the match, None when the rule's prefix does not match. */
  function PrefixMatchLen(rulePrefix: Option<string>, prefix: string): Option<nat>
  {
    var rule := if rulePrefix.Some? then rulePrefix.value else "";
    if rule == "" || rule == "*" then Some(0)
    else if rule <= prefix then Some(|rule|)
    else None
  }

  /** Who asks, and for what. */
  datatype Query = Query(user: int, role: string, groups: set<int>, bucket: string, prefix: string)

  predicate Matches(rule: Rule, q: Query)
  {
    RuleApplies(rule, q.user, q.role, q.groups) && BucketMatches(rule.bucketName, q.bucket) &&
    PrefixMatchLen(rule.prefix, q.prefix).Some?
  }

  function MatchLen(rule: Rule, q: Query): nat
    requires Matches(rule, q)
  {
    PrefixMatchLen(rule.prefix, q.prefix).value
  }

  // ---------------------------------------------------------------------------
  // The decision

  /** The rule matches and no matching rule has a longer prefix. */
  ghost predicate Decisive(rule: Rule, q: Query, rules: set<Rule>)
  {
    rule in rules && Matches(rule, q) &&
    forall other :: other in rules && Matches(other, q) ==> MatchLen(other, q) <= MatchLen(rule, q)
  }

  predicate Grants(rule: Rule, action: string)
  {
    ADMIN in rule.actions || action in rule.actions
  }

  /** Declaratively: some matching rule of maximal prefix length carries the action or admin. */
  ghost predicate Permitted(q: Query, action: string, rules: set<Rule>)
  {
    exists rule :: Decisive(rule, q, rules) && Grants(rule, action)
  }

  function SetOf<T>(s: seq<T>): set<T>
  {
    set x | x in s
  }

  method Allowed(user: int, role: string, groupIds: seq<int>, bucket: string, prefix: string, action: string,
                 rules: seq<Rule>)
    returns (ok: bool)
    ensures ok <==> Permitted(Query(user, role, SetOf(groupIds), bucket, prefix), action, SetOf(rules))
  {
    var groups: set<int> := SetOf(groupIds);
    ghost var q := Query(user, role, groups, bucket, prefix);
    var best: int := -1;
    var matched: set<string> := {};
    for i := 0 to |rules|
      invariant best >= -1
      invariant forall r :: r in rules[..i] && Matches(r, q) ==> MatchLen(r, q) <= best
      invariant best >= 0 ==> exists r :: r in rules[..i] && Matches(r, q) && MatchLen(r, q) == best
      invariant forall a :: a in matched <==>
                  exists r :: r in rules[..i] && Matches(r, q) && MatchLen(r, q) == best && a in r.actions
    {
      var rule := rules[i];
      ghost var seen := rules[..i];
      assert rules[..i + 1] == seen + [rule];
      if !RuleApplies(rule, user, role, groups) || !BucketMatches(rule.bucketName, bucket) {
        assert !Matches(rule, q);
        assert forall r :: r in rules[..i + 1] && Matches(r, q) <==> r in seen && Matches(r, q);
        continue;
      }
      var n := PrefixMatchLen(rule.prefix, prefix);
      if n == None {
        assert !Matches(rule, q);
        assert forall r :: r in rules[..i + 1] && Matches(r, q) <==> r in seen && Matches(r, q);
        continue;
      }
      assert rule in rules[..i + 1] && Matches(rule, q) && MatchLen(rule, q) == n.value;
      assert forall r :: r in rules[..i + 1] <==> r in seen || r == rule;
      if n.value > best {
        best, matched := n.value, SetOf(rule.actions);
      } else if n.value == best {
        matched := matched + SetOf(rule.actions);
      }
    }
    assert rules[..|rules|] == rules;
    DecisionFromBest(q, action, SetOf(rules), best, matched);
    if best < 0 {
      return false;
    }
    if ADMIN in matched {
      return true;
    }
    ok := action in matched;
  }

  lemma DecisionFromBest(q: Query, action: string, rules: set<Rule>, best: int, matched: set<string>)
    requires best >= -1
    requires forall r :: r in rules && Matches(r, q) ==> MatchLen(r, q) <= best
    requires best >= 0 ==> exists r :: r in rules && Matches(r, q) && MatchLen(r, q) == best
    requires forall a :: a in matched <==>
               exists r :: r in rules && Matches(r, q) && MatchLen(r, q) == best && a in r.actions
    ensures Permitted(q, action, rules) <==> best >= 0 && (ADMIN in matched || action in matched)
  {
    forall r ensures Decisive(r, q, rules) <==> r in rules && Matches(r, q) && MatchLen(r, q) == best {
    }
    if Permitted(q, action, rules) {
      var r :| Decisive(r, q, rules) && Grants(r, action);
      assert ADMIN in r.actions ==> ADMIN in matched;
    }
    if ADMIN in matched {
      var r :| r in rules && Matches(r, q) && MatchLen(r, q) == best && ADMIN in r.actions;
      assert Decisive(r, q, rules) && Grants(r, action);
    }
    if action in matched {
      var r :| r in rules && Matches(r, q) && MatchLen(r, q) == best && action in r.actions;
      assert Decisive(r, q, rules) && Grants(r, action);
    }
  }

  // ---------------------------------------------------------------------------
  // What a match is

  ghost predicate Begins(s: string, prefix: string)
  {
    exists rest :: s == prefix + rest
  }

  /** A rule is for its user, else for its role, else for its group; it is about every bucket or about the one it
      names; and it matches when the prefix asked about begins with its own. "" and "*" are the empty prefix. */
  lemma MatchesExactly(rule: Rule, q: Query)
    ensures Matches(rule, q) <==>
            && (match rule.userId
                case Some(u) => u == q.user
                case None =>
                  match rule.roleName
                  case Some(name) => name == q.role
                  case None => rule.groupId.Some? && rule.groupId.value in q.groups)
            && (rule.bucketName == None || rule.bucketName == Some("") ||
                (q.bucket != "" && rule.bucketName == Some(q.bucket)))
            && (rule.prefix in {None, Some(""), Some("*")} || Begins(q.prefix, rule.prefix.value))
    ensures Matches(rule, q) ==>
            MatchLen(rule, q) == if rule.prefix in {None, Some(""), Some("*")} then 0 else |rule.prefix.value|
  {
    if rule.prefix.Some? && Begins(q.prefix, rule.prefix.value) {
      var rest :| q.prefix == rule.prefix.value + rest;
      assert rule.prefix.value <= q.prefix;
    }
    if rule.prefix.Some? && rule.prefix.value <= q.prefix {
      assert q.prefix == rule.prefix.value + q.prefix[|rule.prefix.value|..];
    }
  }

  // ---------------------------------------------------------------------------
  // Laws of the decision

  /** Admin at a bucket and prefix implies every action there. */
  lemma AdminCoversAll(q: Query, action: string, rules: set<Rule>)
    ensures Permitted(q, ADMIN, rules) ==> Permitted(q, action, rules)
  {
    if Permitted(q, ADMIN, rules) {
      var r :| Decisive(r, q, rules) && Grants(r, ADMIN);
      assert Grants(r, action);
    }
  }

  /** The new rule matches, with a strictly longer prefix than every matching rule. */
  predicate Outranks(rule: Rule, q: Query, rules: set<Rule>)
  {
    Matches(rule, q) && forall r :: r in rules && Matches(r, q) ==> MatchLen(r, q) < MatchLen(rule, q)
  }

  lemma DecisiveAfterAdding(q: Query, rules: set<Rule>, rule: Rule, r: Rule)
    ensures Decisive(r, q, rules) && !Outranks(rule, q, rules) ==> Decisive(r, q, rules + {rule})
    ensures Outranks(rule, q, rules) ==> (Decisive(r, q, rules + {rule}) <==> r == rule)
  {
    if Decisive(r, q, rules) && !Outranks(rule, q, rules) && Matches(rule, q) {
      var long :| long in rules && Matches(long, q) && MatchLen(long, q) >= MatchLen(rule, q);
      assert MatchLen(long, q) <= MatchLen(r, q);
    }
  }

  /** Adding a rule takes a permission away exactly when the rule outranks every matching rule and does not
      grant the action itself; an outranking rule alone decides everything. */
  lemma AddingARule(q: Query, action: string, rules: set<Rule>, rule: Rule)
    ensures Permitted(q, action, rules) && !Permitted(q, action, rules + {rule}) <==>
            Permitted(q, action, rules) && Outranks(rule, q, rules) && !Grants(rule, action)
    ensures Outranks(rule, q, rules) ==> (Permitted(q, action, rules + {rule}) <==> Grants(rule, action))
  {
    DecisiveAfterAdding(q, rules, rule, rule);
    forall r ensures Decisive(r, q, rules) && !Outranks(rule, q, rules) ==> Decisive(r, q, rules + {rule})
      ensures Outranks(rule, q, rules) ==> (Decisive(r, q, rules + {rule}) <==> r == rule)
    {
      DecisiveAfterAdding(q, rules, rule, r);
    }
  }

  /** It happens: read everywhere, and a longer rule that only lets the user write below "p/". */
  lemma AddingARuleRevokes()
    ensures var q := Query(1, "normal_user", {}, "b", "p/");
            var read := Rule(None, None, [READ], Some(1), None, None);
            var write := Rule(None, Some("p/"), ["write"], Some(1), None, None);
            Permitted(q, READ, {read}) && !Permitted(q, READ, {read} + {write})
  {
    var q := Query(1, "normal_user", {}, "b", "p/");
    var read := Rule(None, None, [READ], Some(1), None, None);
    var write := Rule(None, Some("p/"), ["write"], Some(1), None, None);
    assert Decisive(read, q, {read}) && READ in read.actions;
    assert READ[0] != "write"[0] && ADMIN[0] != "write"[0];
    AddingARule(q, READ, {read}, write);
  }
}
