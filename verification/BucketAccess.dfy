/** Bucket access on top of the rules: creator privilege, creator-scoped users, and the filtered bucket list. */
module BucketAccess {
  import opened Text
  import opened Rbac

  const TENANT_ADMIN := "tenant_admin"

  datatype User = User(id: int, role: string)
  datatype Bucket = Bucket(name: string, createdBy: Option<int>)

  /** The user with the groups and rules loaded for it. */
  datatype Caller = Caller(user: User, groupIds: seq<int>, rules: seq<Rule>)
  {
    function At(bucket: string, prefix: string): Query
    {
      Query(user.id, user.role, SetOf(groupIds), bucket, prefix)
    }
  }

  ghost predicate AccountLevel(c: Caller, action: string)
  {
    Permitted(c.At("", ""), action, SetOf(c.rules))
  }

  ghost predicate IsCreator(c: Caller, createdBy: Option<int>)
  {
    createdBy == Some(c.user.id) && AccountLevel(c, BUCKET_CREATE)
  }

  ghost predicate CreatorScoped(c: Caller)
  {
    AccountLevel(c, BUCKET_CREATE) && !AccountLevel(c, ADMIN)
  }

  function NamedRules(rules: set<Rule>, bucket: string): set<Rule>
  {
    set r | r in rules && r.bucketName == Some(bucket)
  }

  /** What the access check answers for a bucket with that creator; "" asks at the account level. */
  ghost predicate Allows(c: Caller, createdBy: Option<int>, bucket: string, prefix: string, action: string)
  {
    || c.user.role == TENANT_ADMIN
    || (bucket != "" && IsCreator(c, createdBy))
    || Permitted(c.At(bucket, prefix), action,
                 if bucket != "" && action == READ && CreatorScoped(c) then NamedRules(SetOf(c.rules), bucket)
                 else SetOf(c.rules))
  }

  /** The decision over some rules, for the caller at a place. */
  ghost predicate PermittedAt(c: Caller, bucket: string, prefix: string, action: string, rules: set<Rule>)
  {
    Permitted(Query(c.user.id, c.user.role, (set g | g in c.groupIds), bucket, prefix), action, rules)
  }

  // ---------------------------------------------------------------------------
  // The code

  method AccountAllows(c: Caller, action: string) returns (ok: bool)
    ensures ok <==> AccountLevel(c, action)
  {
    ok := Allowed(c.user.id, c.user.role, c.groupIds, "", "", action, c.rules);
  }

  method CreatorAllows(c: Caller, createdBy: Option<int>) returns (ok: bool)
    ensures ok <==> IsCreator(c, createdBy)
    ensures ok <==> createdBy == Some(c.user.id) && PermittedAt(c, "", "", "bucket_create", SetOf(c.rules))
  {
    if createdBy == None || createdBy.value != c.user.id {
      return false;
    }
    ok := AccountAllows(c, BUCKET_CREATE);
  }

  /** Creator scoping holds exactly for account-level bucket_create without account-level admin. */
  method CreatorScopedList(c: Caller) returns (scoped: bool)
    ensures scoped <==> AccountLevel(c, BUCKET_CREATE) && !AccountLevel(c, ADMIN)
    ensures scoped <==> PermittedAt(c, "", "", "bucket_create", SetOf(c.rules)) &&
                        !PermittedAt(c, "", "", "admin", SetOf(c.rules))
  {
    var admin := AccountAllows(c, ADMIN);
    if admin {
      return false;
    }
    var read := AccountAllows(c, READ);
    if read {
      var create := AccountAllows(c, BUCKET_CREATE);
      if !create {
        return false;
      }
    }
    scoped := AccountAllows(c, BUCKET_CREATE);
  }

  method BucketOnlyRules(rules: seq<Rule>, bucket: string) returns (out: seq<Rule>)
    ensures SetOf(out) == NamedRules(SetOf(rules), bucket)
    ensures out == Filter((r: Rule) => r.bucketName == Some(bucket), rules)
  {
    out := [];
    var named := (r: Rule) => r.bucketName == Some(bucket);
    for i := 0 to |rules|
      invariant out == Filter(named, rules[..i])
    {
      assert rules[..i + 1] == rules[..i] + [rules[i]];
      FilterSnoc(named, rules[..i], rules[i]);
      if rules[i].bucketName == Some(bucket) {
        out := out + [rules[i]];
      }
    }
    assert rules[..|rules|] == rules;
  }

  method Allow(c: Caller, createdBy: Option<int>, bucket: string, prefix: string, action: string) returns (ok: bool)
    ensures ok <==> Allows(c, createdBy, bucket, prefix, action)
    ensures ok <==>
              || c.user.role == "tenant_admin"
              || (bucket != "" && createdBy == Some(c.user.id) &&
                  PermittedAt(c, "", "", "bucket_create", SetOf(c.rules)))
              || (if && bucket != "" && action == "read" && PermittedAt(c, "", "", "bucket_create", SetOf(c.rules))
                     && !PermittedAt(c, "", "", "admin", SetOf(c.rules))
                  then PermittedAt(c, bucket, prefix, action, (set r | r in c.rules && r.bucketName == Some(bucket)))
                  else PermittedAt(c, bucket, prefix, action, SetOf(c.rules)))
  {
    if c.user.role == TENANT_ADMIN {
      return true;
    }
    if bucket != "" {
      var creator := CreatorAllows(c, createdBy);
      if creator {
        return true;
      }
      if action == READ {
        var scoped := CreatorScopedList(c);
        if scoped {
          var named := BucketOnlyRules(c.rules, bucket);
          ok := Allowed(c.user.id, c.user.role, c.groupIds, bucket, prefix, action, named);
          return;
        }
      }
    }
    ok := Allowed(c.user.id, c.user.role, c.groupIds, bucket, prefix, action, c.rules);
  }

  ghost predicate Shown(c: Caller, b: Bucket)
  {
    if c.user.role == TENANT_ADMIN then true
    else if CreatorScoped(c) then b.createdBy == Some(c.user.id)
    else Allows(c, b.createdBy, b.name, "", READ)
  }

  /** The buckets shown, in order. */
  ghost function Listing(c: Caller, buckets: seq<Bucket>): seq<Bucket>
  {
    if buckets == [] then []
    else
      var n := |buckets| - 1;
      Listing(c, buckets[..n]) + (if Shown(c, buckets[n]) then [buckets[n]] else [])
  }

  method List(c: Caller, buckets: seq<Bucket>) returns (items: seq<Bucket>)
    ensures items == Listing(c, buckets)
    ensures forall b :: b in items <==> b in buckets && Shown(c, b)
    ensures c.user.role == "tenant_admin" ==> items == buckets
    ensures c.user.role != "tenant_admin" && PermittedAt(c, "", "", "bucket_create", SetOf(c.rules)) &&
            !PermittedAt(c, "", "", "admin", SetOf(c.rules)) ==>
              forall b :: b in items <==> b in buckets && b.createdBy == Some(c.user.id)
    ensures c.user.role != "tenant_admin" && (PermittedAt(c, "", "", "bucket_create", SetOf(c.rules)) ==>
                                              PermittedAt(c, "", "", "admin", SetOf(c.rules))) ==>
              forall b :: b in items <==> b in buckets && Allows(c, b.createdBy, b.name, "", "read")
  {
    ListingHasShown(c, buckets);
    if c.user.role == TENANT_ADMIN {
      AdminSeesAll(c, buckets);
      return buckets;
    }
    var ownOnly := CreatorScopedList(c);
    var filtered: seq<Bucket> := [];
    for i := 0 to |buckets|
      invariant filtered == Listing(c, buckets[..i])
    {
      var b := buckets[i];
      var keep;
      if ownOnly {
        keep := b.createdBy.Some? && b.createdBy.value == c.user.id;
      } else {
        keep := Allow(c, b.createdBy, b.name, "", READ);
      }
      if keep {
        filtered := filtered + [b];
      }
      assert keep <==> Shown(c, b);
      assert buckets[..i + 1][..i] == buckets[..i];
    }
    assert buckets[..|buckets|] == buckets;
    items := filtered;
  }

  lemma {:induction false} ListingHasShown(c: Caller, buckets: seq<Bucket>)
    ensures forall b :: b in Listing(c, buckets) <==> b in buckets && Shown(c, b)
  {
    if buckets == [] {
    } else {
      var n := |buckets| - 1;
      assert buckets == buckets[..n] + [buckets[n]];
      ListingHasShown(c, buckets[..n]);
    }
  }

  lemma {:induction false} AdminSeesAll(c: Caller, buckets: seq<Bucket>)
    requires c.user.role == TENANT_ADMIN
    ensures Listing(c, buckets) == buckets
  {
    if buckets == [] {
    } else {
      AdminSeesAll(c, buckets[..|buckets| - 1]);
    }
  }

  // ---------------------------------------------------------------------------
  // Laws

  /** A listed bucket is one the user may read; a creator-scoped user may do everything, everywhere, in each
      bucket it is shown. */
  lemma ListIsSound(c: Caller, b: Bucket, prefix: string, action: string)
    requires Shown(c, b) && b.name != ""
    ensures Allows(c, b.createdBy, b.name, "", READ)
    ensures CreatorScoped(c) ==> Allows(c, b.createdBy, b.name, prefix, action)
  {
  }

  /** The list is complete, every readable bucket shown, except for creator-scoped users: for those it misses
      exactly the readable buckets of other creators. */
  lemma ListMisses(c: Caller, b: Bucket)
    requires Allows(c, b.createdBy, b.name, "", READ) && b.name != ""
    ensures !Shown(c, b) <==> c.user.role != TENANT_ADMIN && CreatorScoped(c) && b.createdBy != Some(c.user.id)
  {
  }

  /** Such a bucket exists: bucket_create for the account and read on somebody else's bucket. */
  lemma ListMissesSome()
    ensures exists c: Caller, b: Bucket :: b.name != "" && Allows(c, b.createdBy, b.name, "", READ) && !Shown(c, b)
  {
    var create := Rule(None, None, [BUCKET_CREATE], Some(1), None, None);
    var read := Rule(Some("b"), None, [READ], Some(1), None, None);
    var c, b := Caller(User(1, "normal_user"), [], [create, read]), Bucket("b", Some(2));
    var rules := SetOf(c.rules);
    assert c.rules[0] == create && c.rules[1] == read;
    assert create in rules && read in rules && forall r :: r in rules ==> r == create || r == read;
    assert Decisive(create, c.At("", ""), rules);
    assert Grants(create, BUCKET_CREATE) && BUCKET_CREATE in create.actions;
    assert AccountLevel(c, BUCKET_CREATE);
    assert !Matches(read, c.At("", ""));
    assert !Grants(create, ADMIN) by { assert ADMIN[0] != BUCKET_CREATE[0]; }
    assert !AccountLevel(c, ADMIN);
    assert Decisive(read, c.At("b", ""), NamedRules(rules, "b"));
    assert READ in read.actions && Grants(read, READ);
    assert Allows(c, b.createdBy, b.name, "", READ);
  }

  /** The access check reads only the rules that name the bucket. */
  ghost predicate ReadsNamedOnly(c: Caller, createdBy: Option<int>, bucket: string, action: string)
  {
    bucket != "" && action == READ && CreatorScoped(c) && c.user.role != TENANT_ADMIN && !IsCreator(c, createdBy)
  }

  /** Among the caller's rules that name the bucket and match, one with the longest prefix carries read or admin. */
  ghost predicate LongestNamedReads(c: Caller, bucket: string, prefix: string)
  {
    exists r :: NamedMatch(c, r, bucket, prefix) && (READ in r.actions || ADMIN in r.actions) &&
                forall other :: NamedMatch(c, other, bucket, prefix) ==>
                  MatchLen(other, c.At(bucket, prefix)) <= MatchLen(r, c.At(bucket, prefix))
  }

  predicate NamedMatch(c: Caller, r: Rule, bucket: string, prefix: string)
  {
    r in c.rules && r.bucketName == Some(bucket) && Matches(r, c.At(bucket, prefix))
  }

  lemma NamedDecision(c: Caller, bucket: string, prefix: string)
    ensures Permitted(c.At(bucket, prefix), READ, NamedRules(SetOf(c.rules), bucket)) <==>
            LongestNamedReads(c, bucket, prefix)
  {
    var q, named := c.At(bucket, prefix), NamedRules(SetOf(c.rules), bucket);
    assert forall r :: NamedMatch(c, r, bucket, prefix) <==> r in named && Matches(r, q);
    if LongestNamedReads(c, bucket, prefix) {
      var r :| NamedMatch(c, r, bucket, prefix) && (READ in r.actions || ADMIN in r.actions) &&
               forall other :: NamedMatch(c, other, bucket, prefix) ==> MatchLen(other, q) <= MatchLen(r, q);
      assert Decisive(r, q, named) && Grants(r, READ);
    }
    if Permitted(q, READ, named) {
      var r :| Decisive(r, q, named) && Grants(r, READ);
      assert NamedMatch(c, r, bucket, prefix);
    }
  }

  /** Being admitted as admin at a place admits every action there, with one exception: a creator-scoped user
      reads in another creator's bucket exactly when a rule that names the bucket, of longest prefix among those,
      carries read or admin. A decisive admin rule that names the bucket is always enough. */
  lemma AdminAllowsAll(c: Caller, createdBy: Option<int>, bucket: string, prefix: string, action: string)
    requires Allows(c, createdBy, bucket, prefix, ADMIN)
    ensures Allows(c, createdBy, bucket, prefix, action) <==>
            !ReadsNamedOnly(c, createdBy, bucket, action) || LongestNamedReads(c, bucket, prefix)
    ensures (exists r :: Decisive(r, c.At(bucket, prefix), SetOf(c.rules)) && r.bucketName == Some(bucket) &&
                         ADMIN in r.actions) ==>
            Allows(c, createdBy, bucket, prefix, action)
  {
    assert ADMIN[0] != READ[0];
    AdminCoversAll(c.At(bucket, prefix), action, SetOf(c.rules));
    NamedDecision(c, bucket, prefix);
    if r :| Decisive(r, c.At(bucket, prefix), SetOf(c.rules)) && r.bucketName == Some(bucket) && ADMIN in r.actions {
      assert NamedMatch(c, r, bucket, prefix);
    }
  }

  /** The exception is real: admin below a prefix of every bucket, and no read there. */
  lemma AdminWithoutRead()
    ensures exists c: Caller ::
              Allows(c, Some(2), "b", "p/", ADMIN) && !Allows(c, Some(2), "b", "p/", READ)
  {
    var create := Rule(None, None, [BUCKET_CREATE], Some(1), None, None);
    var admin := Rule(None, Some("p/"), [ADMIN], Some(1), None, None);
    var c := Caller(User(1, "normal_user"), [], [create, admin]);
    var rules := SetOf(c.rules);
    assert c.rules[0] == create && c.rules[1] == admin;
    assert create in rules && admin in rules && forall r :: r in rules ==> r == create || r == admin;
    assert !Matches(admin, c.At("", ""));
    assert Decisive(create, c.At("", ""), rules);
    assert BUCKET_CREATE in create.actions && Grants(create, BUCKET_CREATE);
    assert !Grants(create, ADMIN) by { assert ADMIN[0] != BUCKET_CREATE[0]; }
    assert CreatorScoped(c);
    assert ADMIN in admin.actions && Grants(admin, ADMIN);
    assert Decisive(admin, c.At("b", "p/"), rules);
    assert Allows(c, Some(2), "b", "p/", ADMIN);
    assert NamedRules(rules, "b") == {};
    assert !Allows(c, Some(2), "b", "p/", READ);
  }
}
