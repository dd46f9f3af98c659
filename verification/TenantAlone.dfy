/** Along every run each tenant is answered, and its rows change, as if it were alone in the database. */
module TenantAlone {
  import opened Values
  import opened Schemas
  import opened Databases
  import opened TenantReads
  import opened TenantMirrors
  import opened TenantIsolation
  import opened TenantInject
  import opened TenantRuns

  /** A request that is not bypassed, so scoped or refused: flat writes go to tenant-owned models, and finds are
      such as the client accepts. */
  predicate Admissible(s: Schema, r: Request) {
    && Typed(s, r) && !RouteFor(r).Bypassed?
    && if r.op in RELATION_SCOPED_OPS then Accepted(s, r.model, NodeOf(r)) else r.model in s.owned
  }

  /** What a scoped find meets is contained in its tenant's part. */
  ghost predicate Meets(s: Schema, db: Database, r: Request) {
    RouteFor(r).ScopedTo? && r.op in RELATION_SCOPED_OPS ==>
      Contained(s, db, r.model, NodeOf(r), RouteFor(r).tenant)
  }

  predicate AllAdmissible(s: Schema, run: seq<Request>) {
    forall r :: r in run ==> Admissible(s, r)
  }

  function After(s: Schema, relations: RelationMap, db: Database, run: seq<Request>): Database
    requires AllAdmissible(s, run)
  {
    if run == [] then db
    else
      var init, last := run[..|run| - 1], run[|run| - 1];
      assert last in run && Admissible(s, last);
      Handle(s, relations, After(s, relations, db, init), last).0
  }

  /** The replies one tenant has received, in order. */
  function RepliesTo(s: Schema, relations: RelationMap, db: Database, run: seq<Request>, tenant: Tenant): seq<Reply>
    requires AllAdmissible(s, run)
  {
    if run == [] then []
    else
      var init, last := run[..|run| - 1], run[|run| - 1];
      assert last in run && Admissible(s, last);
      RepliesTo(s, relations, db, init, tenant)
      + if RouteFor(last) == ScopedTo(tenant) then [Handle(s, relations, After(s, relations, db, init), last).1] else []
  }

  function OnlyBy(run: seq<Request>, tenant: Tenant): (own: seq<Request>)
    ensures forall r :: r in own ==> r in run
  {
    if run == [] then []
    else
      var init, last := run[..|run| - 1], run[|run| - 1];
      OnlyBy(init, tenant) + if RouteFor(last) == ScopedTo(tenant) then [last] else []
  }

  /** At every moment of the run rows are well-formed and relation targets unique, and the next find is contained. */
  ghost predicate ValidThroughout(s: Schema, relations: RelationMap, db: Database, run: seq<Request>)
    requires AllAdmissible(s, run)
  {
    && ValidDb(s, After(s, relations, db, run))
    && (run != [] ==>
          var init, last := run[..|run| - 1], run[|run| - 1];
          ValidThroughout(s, relations, db, init) && Meets(s, After(s, relations, db, init), last))
  }

  lemma PrivateTable(s: Schema, db: Database, m: Name, tenant: Tenant)
    ensures Table(Private(s, db, tenant), m) == if m in s.owned then OwnRows(Table(db, m), tenant) else Table(db, m)
  {
  }

  lemma PrivateWrite(s: Schema, db: Database, m: Name, rows: seq<Row>, tenant: Tenant)
    requires m in s.owned
    ensures Private(s, db[m := rows], tenant) == Private(s, db, tenant)[m := OwnRows(rows, tenant)]
  {
  }

  lemma FindIsPrivate(s: Schema, relations: RelationMap, db: Database, r: Request, tenant: Tenant)
    requires WellFormed(s) && Sees(relations, s) && ValidDb(s, db)
    requires Admissible(s, r) && r.op in RELATION_SCOPED_OPS && RouteFor(r) == ScopedTo(tenant) && Meets(s, db, r)
    ensures Handle(s, relations, db, r).1 == Handle(s, relations, Private(s, db, tenant), r).1
  {
    var private := Private(s, db, tenant);
    PrivateIsValid(s, db, tenant);
    PrivateTwice(s, db, tenant);
    assert Contained(s, private, r.model, NodeOf(r), tenant);
    hide ScopedFind, RunFind, Private, ValidDb, Accepted, Contained;
    ScopedFindIsPrivate(s, relations, db, FindOpOf(r.op), r.model, NodeOf(r), tenant);
    ScopedFindIsPrivate(s, relations, private, FindOpOf(r.op), r.model, NodeOf(r), tenant);
  }

  lemma WriteIsPrivate(s: Schema, relations: RelationMap, db: Database, r: Request, tenant: Tenant)
    requires Admissible(s, r) && RouteFor(r).ScopedTo? && r.op !in RELATION_SCOPED_OPS && s.owned <= db.Keys
    ensures Private(s, Handle(s, relations, db, r).0, tenant) ==
            if RouteFor(r) == ScopedTo(tenant) then Handle(s, relations, Private(s, db, tenant), r).0
            else Private(s, db, tenant)
    ensures RouteFor(r) == ScopedTo(tenant) ==>
              Handle(s, relations, db, r).1 == Handle(s, relations, Private(s, db, tenant), r).1
  {
    var rows, actor := Table(db, r.model), RouteFor(r).tenant;
    TableStep(rows, r.op, r.q, r.keys, actor, tenant);
    PrivateTable(s, db, r.model, tenant);
    var after := Execute(rows, r.op, Rewritten(s, r), r.keys).0;
    PrivateWrite(s, db, r.model, after, tenant);
    hide Execute, Scoped, OwnRows;
    if actor != tenant {
      assert Private(s, db, tenant)[r.model := OwnRows(rows, tenant)] == Private(s, db, tenant);
    }
  }

  /** One request: for its own tenant the private part moves and answers as it would alone; for every other
      tenant it does not move; refused, it moves nothing and no database can be told from its answer. */
  lemma HandleStep(s: Schema, relations: RelationMap, db: Database, r: Request, tenant: Tenant)
    requires WellFormed(s) && Sees(relations, s) && ValidDb(s, db) && s.owned <= db.Keys
    requires Admissible(s, r) && Meets(s, db, r)
    ensures Private(s, Handle(s, relations, db, r).0, tenant) ==
            if RouteFor(r) == ScopedTo(tenant) then Handle(s, relations, Private(s, db, tenant), r).0
            else Private(s, db, tenant)
    ensures RouteFor(r) == ScopedTo(tenant) ==>
              Handle(s, relations, db, r).1 == Handle(s, relations, Private(s, db, tenant), r).1
    // a refused request is answered alike whatever the database holds, and changes nothing
    ensures RouteFor(r) == Denied ==>
              Handle(s, relations, db, r).0 == db
              && forall other :: Handle(s, relations, other, r).1 == Handle(s, relations, db, r).1
    ensures s.owned <= Handle(s, relations, db, r).0.Keys
  {
    if RouteFor(r).Denied? {
    } else if r.op in RELATION_SCOPED_OPS {
      if RouteFor(r) == ScopedTo(tenant) {
        FindIsPrivate(s, relations, db, r, tenant);
      }
    } else {
      WriteIsPrivate(s, relations, db, r, tenant);
    }
  }

  /** The last request of a run acts on, and answers from, what the run before it left. */
  lemma OneMore(s: Schema, relations: RelationMap, db: Database, init: seq<Request>, last: Request, tenant: Tenant)
    requires AllAdmissible(s, init + [last])
    ensures AllAdmissible(s, init) && Admissible(s, last)
    ensures var run, before := init + [last], After(s, relations, db, init);
            && After(s, relations, db, run) == Handle(s, relations, before, last).0
            && RepliesTo(s, relations, db, run, tenant)
               == RepliesTo(s, relations, db, init, tenant)
                  + (if RouteFor(last) == ScopedTo(tenant) then [Handle(s, relations, before, last).1] else [])
            && OnlyBy(run, tenant) == OnlyBy(init, tenant) + (if RouteFor(last) == ScopedTo(tenant) then [last] else [])
  {
    var run := init + [last];
    assert run[..|run| - 1] == init && run[|run| - 1] == last && last in run;
    assert forall r :: r in init ==> r in run;
    hide Handle, Admissible, RouteFor;
  }

  /** Whatever the other tenants do in between, a tenant receives the replies, and is left with the rows, of a
      run in which it alone acted on a database that held its rows only. */
  lemma {:induction false} RunsAsIfAlone(s: Schema, relations: RelationMap, db: Database, run: seq<Request>, tenant: Tenant)
    requires WellFormed(s) && Sees(relations, s) && s.owned <= db.Keys
    requires AllAdmissible(s, run) && ValidThroughout(s, relations, db, run)
    ensures Private(s, After(s, relations, db, run), tenant)
            == After(s, relations, Private(s, db, tenant), OnlyBy(run, tenant))
    ensures RepliesTo(s, relations, db, run, tenant)
            == RepliesTo(s, relations, Private(s, db, tenant), OnlyBy(run, tenant), tenant)
    ensures s.owned <= After(s, relations, db, run).Keys
  {
    if run != [] {
      var init, last := run[..|run| - 1], run[|run| - 1];
      assert run == init + [last] && AllAdmissible(s, init) && ValidThroughout(s, relations, db, init);
      var before, own := After(s, relations, db, init), OnlyBy(init, tenant);
      assert ValidDb(s, before) && Meets(s, before, last);
      hide After, RepliesTo, OnlyBy, ValidThroughout, Meets, ValidDb, Handle, Private, Admissible, RouteFor;
      RunsAsIfAlone(s, relations, db, init, tenant);
      OneMore(s, relations, db, init, last, tenant);
      HandleStep(s, relations, before, last, tenant);
      if RouteFor(last) == ScopedTo(tenant) {
        assert AllAdmissible(s, own + [last]);
        OneMore(s, relations, Private(s, db, tenant), own, last, tenant);
        assert OnlyBy(run, tenant) == own + [last];
        assert After(s, relations, Private(s, db, tenant), own) == Private(s, before, tenant);
        assert After(s, relations, Private(s, db, tenant), own + [last]) == Private(s, After(s, relations, db, run), tenant);
      } else {
        assert OnlyBy(run, tenant) == own;
        assert Private(s, Handle(s, relations, before, last).0, tenant) == Private(s, before, tenant);
        assert After(s, relations, db, run) == Handle(s, relations, before, last).0;
        assert Private(s, After(s, relations, db, run), tenant) == Private(s, before, tenant);
      }
    }
  }

  lemma {:induction false} OnlyByTwice(run: seq<Request>, tenant: Tenant)
    ensures OnlyBy(OnlyBy(run, tenant), tenant) == OnlyBy(run, tenant)
  {
    if run != [] {
      var init, last := run[..|run| - 1], run[|run| - 1];
      OnlyByTwice(init, tenant);
      if RouteFor(last) == ScopedTo(tenant) {
        assert (OnlyBy(init, tenant) + [last])[..|OnlyBy(init, tenant)|] == OnlyBy(init, tenant);
      } else {
        assert OnlyBy(run, tenant) == OnlyBy(init, tenant);
      }
    }
  }

  /** Deleting every other tenant's operations from a run changes neither what the tenant was answered nor
      what it owns at the end. */
  lemma OthersCanBeDeleted(s: Schema, relations: RelationMap, db: Database, run: seq<Request>, tenant: Tenant)
    requires WellFormed(s) && Sees(relations, s) && s.owned <= db.Keys && AllAdmissible(s, run)
    requires ValidThroughout(s, relations, db, run) && ValidThroughout(s, relations, db, OnlyBy(run, tenant))
    ensures RepliesTo(s, relations, db, run, tenant) == RepliesTo(s, relations, db, OnlyBy(run, tenant), tenant)
    ensures Private(s, After(s, relations, db, run), tenant)
            == Private(s, After(s, relations, db, OnlyBy(run, tenant)), tenant)
  {
    RunsAsIfAlone(s, relations, db, run, tenant);
    RunsAsIfAlone(s, relations, db, OnlyBy(run, tenant), tenant);
    OnlyByTwice(run, tenant);
  }
}
