/** Access read off the permission tables: what the access check and the bucket list answer for a user, with its
    groups and rules loaded as the store loads them. */
module TableAccess {
  import opened Text
  import opened Rbac
  import opened RbacTables
  import opened BucketAccess

  /** The tables with only the permissions and template rules that name the bucket. */
  function Named(db: Db, bucket: string): Db
  {
    db.(permissions := Filter((p: Permission) => Join(db.bucketNames, p.bucketId) == Some(bucket), db.permissions),
        templateRules := Filter((t: TemplateRule) => Join(db.bucketNames, t.bucketId) == Some(bucket),
                                db.templateRules))
  }

  function Place(db: Db, account: int, user: User, bucket: string, prefix: string): Query
  {
    Query(user.id, user.role, Groups(db, account, user.id), bucket, prefix)
  }

  /** The decision of the tables at the account level. */
  ghost predicate TableAccount(db: Db, account: int, user: User, action: string)
  {
    TableDecision(db, account, Place(db, account, user, "", ""), action)
  }

  /** May create buckets in the account, but is no admin of it. */
  ghost predicate TableScoped(db: Db, account: int, user: User)
  {
    TableAccount(db, account, user, BUCKET_CREATE) && !TableAccount(db, account, user, ADMIN)
  }

  /** Tenant admins, creators, and those the tables grant the action; for a creator-scoped user who reads, only
      the table rows that name the bucket count. */
  ghost predicate TableAllows(db: Db, account: int, user: User, createdBy: Option<int>, bucket: string, prefix: string,
                              action: string)
  {
    || user.role == TENANT_ADMIN
    || (bucket != "" && createdBy == Some(user.id) && TableAccount(db, account, user, BUCKET_CREATE))
    || TableDecision(if bucket != "" && action == READ && TableScoped(db, account, user) then Named(db, bucket) else db,
                     account, Place(db, account, user, bucket, prefix), action)
  }

  ghost predicate TableShows(db: Db, account: int, user: User, b: Bucket)
  {
    if user.role == TENANT_ADMIN then true
    else if TableScoped(db, account, user) then b.createdBy == Some(user.id)
    else TableAllows(db, account, user, b.createdBy, b.name, "", READ)
  }

  /** The buckets the tables show to the user, in order. */
  ghost function Visible(db: Db, account: int, user: User, buckets: seq<Bucket>): seq<Bucket>
  {
    if buckets == [] then []
    else
      var n := |buckets| - 1;
      Visible(db, account, user, buckets[..n]) +
      (if TableShows(db, account, user, buckets[n]) then [buckets[n]] else [])
  }

  // ---------------------------------------------------------------------------
  // The code

  method Load(db: Db, account: int, user: User) returns (c: Caller)
    ensures c.user == user && LoadedCaller(db, account, c)
  {
    var groupIds := GroupIDs(db, account, user.id);
    var rules := LoadRules(db, account, user.id, user.role);
    c := Caller(user, groupIds, rules);
  }

  method AllowFor(db: Db, account: int, user: User, createdBy: Option<int>, bucket: string, prefix: string,
                  action: string)
    returns (ok: bool)
    requires Constraints(db)
    ensures ok <==> TableAllows(db, account, user, createdBy, bucket, prefix, action)
  {
    if user.role == TENANT_ADMIN {
      return true;
    }
    var c := Load(db, account, user);
    AllowsMatchesTables(db, account, c, createdBy, bucket, prefix, action);
    ok := Allow(c, createdBy, bucket, prefix, action);
  }

  method ListFor(db: Db, account: int, user: User, buckets: seq<Bucket>) returns (items: seq<Bucket>)
    requires Constraints(db)
    ensures items == Visible(db, account, user, buckets)
    ensures forall b :: b in items <==> b in buckets && TableShows(db, account, user, b)
  {
    var c := Load(db, account, user);
    forall b: Bucket ensures Shown(c, b) <==> TableShows(db, account, user, b) {
      ShownMatchesTables(db, account, c, b);
    }
    items := List(c, buckets);
    ListingIsVisible(db, account, c, buckets);
  }

  lemma {:induction false} ListingIsVisible(db: Db, account: int, c: Caller, buckets: seq<Bucket>)
    requires forall b :: Shown(c, b) <==> TableShows(db, account, c.user, b)
    ensures Listing(c, buckets) == Visible(db, account, c.user, buckets)
  {
    if buckets == [] {
    } else {
      ListingIsVisible(db, account, c, buckets[..|buckets| - 1]);
    }
  }

  // ---------------------------------------------------------------------------
  // Rules and tables

  ghost predicate LoadedCaller(db: Db, account: int, c: Caller)
  {
    && SetOf(c.groupIds) == Groups(db, account, c.user.id)
    && Loaded(db, account, c.user.id, c.user.role, SetOf(c.rules))
  }

  /** The loaded rules that name the bucket are the rules loaded from the rows that name it. */
  lemma NamedLoaded(db: Db, account: int, user: int, role: string, rules: set<Rule>, bucket: string)
    requires Constraints(db) && Loaded(db, account, user, role, rules)
    ensures Constraints(Named(db, bucket)) && Loaded(Named(db, bucket), account, user, role, NamedRules(rules, bucket))
    ensures Groups(Named(db, bucket), account, user) == Groups(db, account, user)
  {
    var named := Named(db, bucket);
    forall r: Rule
      ensures FromPermission(named, account, user, role, named.permissions, r) <==>
              FromPermission(db, account, user, role, db.permissions, r) && r.bucketName == Some(bucket)
    {
      if FromPermission(db, account, user, role, db.permissions, r) && r.bucketName == Some(bucket) {
        var p :| p in db.permissions && SelectsPermission(db, p, account, user, role) && r == PermissionRule(db, p);
        assert p in named.permissions && SelectsPermission(named, p, account, user, role);
      }
    }
    forall r: Rule
      ensures FromTemplates(named, account, user, named.templateRules, r) <==>
              FromTemplates(db, account, user, db.templateRules, r) && r.bucketName == Some(bucket)
    {
      forall t: TemplateRule ensures FromTemplate(named, account, user, t, named.assignments, r) <==>
                                     FromTemplate(db, account, user, t, db.assignments, r)
      {
        forall a: Assignment
          ensures SelectsTemplate(named, t, a, account, user) <==> SelectsTemplate(db, t, a, account, user)
        {
        }
      }
    }
  }

  lemma AccountMatchesTables(db: Db, account: int, c: Caller, action: string)
    requires Constraints(db) && LoadedCaller(db, account, c)
    ensures AccountLevel(c, action) <==> TableAccount(db, account, c.user, action)
  {
    DecisionMatchesTables(db, account, c.At("", ""), action, SetOf(c.rules));
  }

  /** The access check with loaded groups and rules answers what the tables say. */
  lemma AllowsMatchesTables(db: Db, account: int, c: Caller, createdBy: Option<int>, bucket: string, prefix: string,
                            action: string)
    requires Constraints(db) && LoadedCaller(db, account, c)
    ensures Allows(c, createdBy, bucket, prefix, action) <==>
            TableAllows(db, account, c.user, createdBy, bucket, prefix, action)
  {
    hide Constraints, Loaded, Named, TableDecision, Permitted;
    AccountMatchesTables(db, account, c, BUCKET_CREATE);
    AccountMatchesTables(db, account, c, ADMIN);
    NamedLoaded(db, account, c.user.id, c.user.role, SetOf(c.rules), bucket);
    var q := c.At(bucket, prefix);
    DecisionMatchesTables(Named(db, bucket), account, q, action, NamedRules(SetOf(c.rules), bucket));
    DecisionMatchesTables(db, account, q, action, SetOf(c.rules));
  }

  lemma ShownMatchesTables(db: Db, account: int, c: Caller, b: Bucket)
    requires Constraints(db) && LoadedCaller(db, account, c)
    ensures Shown(c, b) <==> TableShows(db, account, c.user, b)
  {
    hide Constraints, LoadedCaller, TableDecision, Permitted, Allows, TableAllows;
    AccountMatchesTables(db, account, c, BUCKET_CREATE);
    AccountMatchesTables(db, account, c, ADMIN);
    AllowsMatchesTables(db, account, c, b.createdBy, b.name, "", READ);
  }
}
