/** A scoped find, end to end: force the tenant in, run the query, scrub the result, strip what was forced. */
module TenantReads {
  import opened Values
  import opened Schemas
  import opened Queries
  import opened ForceTenant
  import opened Databases
  import opened ScrubRelations
  import opened StripForced

  datatype FindOp = FindMany | FindFirst | FindFirstOrThrow | FindUnique | FindUniqueOrThrow

  datatype Answer = NotFound | Found(j: Json)

  /** What the database answers to a find as it stands. */
  function RunFind(s: Schema, db: Database, op: FindOp, model: Name, node: Node): Answer {
    var rows := Window(Table(db, model), node.where, if op.FindMany? then node.take else Some(1));
    if op.FindMany? then Found(Arr(EvalEntries(s, db, model, rows, Sub(node))))
    else if rows != [] then Found(EvalRow(s, db, model, rows[0], node))
    else if op.FindFirstOrThrow? || op.FindUniqueOrThrow? then NotFound
    else Found(Null)
  }

  /** The caller's query with only its top level scoped. A model without `tenantId` is left alone. */
  function PinTop(s: Schema, model: Name, node: Node, tenant: Tenant): Node {
    if model in s.owned then node.(where := PinTenant(node.where, tenant)) else node
  }

  function ScopedFind(s: Schema, relations: RelationMap, db: Database, op: FindOp,
                      model: Name, node: Node, tenant: Tenant): Answer
  {
    var query := ForceNode(relations, model, PinTop(s, model, node, tenant), tenant);
    match RunFind(s, db, op, model, query)
    case NotFound => NotFound
    case Found(j) => Found(Strip(Scrub(relations, model, j, tenant), ForcedPaths(relations, model, node)))
  }

  // ---- what the theorems assume ----

  predicate WellFormed(s: Schema) {
    forall m :: m in s.relations ==> TENANT_ID !in s.relations[m]
  }

  /** The relation map lists exactly the relations that lead to tenant-owned models. */
  ghost predicate Sees(relations: RelationMap, s: Schema) {
    forall m :: Relations(relations, m) ==
      map k | k in RelationsFrom(s, m) && RelationsFrom(s, m)[k].target in s.owned ::
        RelationMeta(RelationsFrom(s, m)[k].target, RelationsFrom(s, m)[k].isList)
  }

  /** What the database client accepts: not both `include` and `select`, a non-empty `select`, nesting
      only under relations, and no `where` or `take` on a to-one relation. */
  predicate Accepted(s: Schema, model: Name, node: Node)
    decreases node
  {
    && !(node.incl.Fields? && node.sel.Fields?)
    && (node.sel.Fields? ==> exists k :: k in node.sel.entries && node.sel.entries[k] != Off)
    && forall k :: k in Entries(node) && Entries(node)[k].Sub? ==>
         && k in RelationsFrom(s, model)
         && (!RelationsFrom(s, model)[k].isList ==>
               Entries(node)[k].node.where == None && Entries(node)[k].node.take == None)
         && Accepted(s, RelationsFrom(s, model)[k].target, Entries(node)[k].node)
  }

  /** Only relations to models without a `tenantId` are followed. */
  predicate Sealed(s: Schema, model: Name, node: Node)
    decreases node
  {
    forall k :: k in Followed(s, model, node) ==>
      var rel, sel := RelationsFrom(s, model)[k], Entries(node)[k];
      rel.target !in s.owned && (sel.Sub? ==> Sealed(s, rel.target, sel.node))
  }

  /** Once a query has stepped to a model without a `tenantId`, it does not step back to one that has it. */
  predicate Covered(s: Schema, model: Name, node: Node)
    decreases node
  {
    forall k :: k in Followed(s, model, node) && Entries(node)[k].Sub? ==>
      var rel, below := RelationsFrom(s, model)[k], Entries(node)[k].node;
      if rel.target in s.owned then Covered(s, rel.target, below) else Sealed(s, rel.target, below)
  }

  predicate ValidRow(s: Schema, db: Database, model: Name, row: Row) {
    && (model in s.owned ==> At(row.cols, TENANT_ID).Str?)
    && row.cols.Keys !! RelationsFrom(s, model).Keys
    && forall k :: k in RelationsFrom(s, model) && !RelationsFrom(s, model)[k].isList
         ==> |Joined(db, RelationsFrom(s, model)[k], row)| <= 1
  }

  /** Tenant columns are filled, columns are not relations, and a to-one relation has at most one target. */
  predicate ValidDb(s: Schema, db: Database) {
    forall m, r :: m in db && r in db[m] ==> ValidRow(s, db, m, r)
  }

  function OwnRows(rows: seq<Row>, tenant: Tenant): seq<Row> {
    Filter((r: Row) => OwnedBy(r, tenant), rows)
  }

  /** The database as the tenant would have it alone: its own rows, and the rows nobody owns. */
  function Private(s: Schema, db: Database, tenant: Tenant): Database {
    map m | m in db :: if m in s.owned then OwnRows(db[m], tenant) else db[m]
  }

  // ---- databases that show a tenant its part ----

  /** For this row and query, `view` shows what the tenant may see of `db`: of every relation to a tenant-owned
      model the tenant's rows, and of every other relation, which the layer does not touch, all that is there. */
  ghost predicate Mirrors(s: Schema, db: Database, view: Database, tenant: Tenant, model: Name, row: Row, node: Node)
    decreases node, 2
  {
    forall k :: k in Followed(s, model, node) ==>
      MirrorsBelow(s, db, view, tenant, RelationsFrom(s, model)[k], row, Entries(node)[k])
  }

  ghost predicate MirrorsBelow(s: Schema, db: Database, view: Database, tenant: Tenant, rel: Relation, row: Row, sel: Sel)
    decreases sel, 1
  {
    if rel.target in s.owned then
      && Joined(view, rel, row) == OwnRows(Joined(db, rel, row), tenant)
      && (sel.Sub? ==>
            forall r :: r in Joined(view, rel, row) ==> Mirrors(s, db, view, tenant, rel.target, r, sel.node))
    else
      EvalRelation(s, db, rel, row, sel) == EvalRelation(s, view, rel, row, sel)
  }

  /** No foreign key of the tenant's rows leads to another tenant's row. */
  predicate NoCrossing(s: Schema, db: Database, tenant: Tenant) {
    forall m, r, k :: m in s.owned && r in Table(db, m) && OwnedBy(r, tenant)
                      && k in RelationsFrom(s, m) && RelationsFrom(s, m)[k].target in s.owned
      ==> forall t :: t in Joined(db, RelationsFrom(s, m)[k], r) ==> OwnedBy(t, tenant)
  }

  // ---- joins and windows on the private database ----

  lemma PrivateJoin(s: Schema, db: Database, rel: Relation, row: Row, tenant: Tenant)
    ensures Joined(Private(s, db, tenant), rel, row) ==
            if rel.target in s.owned then OwnRows(Joined(db, rel, row), tenant) else Joined(db, rel, row)
  {
    if rel.target in s.owned && rel.target in db {
      var own, joins := (r: Row) => OwnedBy(r, tenant), (r: Row) => Joins(rel.on, row, r);
      var both := (r: Row) => OwnedBy(r, tenant) && Joins(rel.on, row, r);
      FilterFilter(joins, own, both, db[rel.target]);
      FilterFilter(own, joins, both, db[rel.target]);
    }
  }

  lemma JoinedRows(db: Database, rel: Relation, row: Row)
    ensures forall r :: r in Joined(db, rel, row) ==> r in Table(db, rel.target)
  {
    FilterMembers((r: Row) => Joins(rel.on, row, r), Table(db, rel.target));
  }

  lemma WindowRows(rows: seq<Row>, where: Option<Where>, take: Option<nat>)
    ensures forall r :: r in Window(rows, where, take) ==> r in rows && Admits(where, r.cols)
  {
    var admits := (r: Row) => Admits(where, r.cols);
    FilterMembers(admits, rows);
    forall r | r in Window(rows, where, take) ensures r in Filter(admits, rows) {}
  }

  lemma NarrowAdmits(where: Option<Where>, tenant: Tenant, row: Row)
    ensures Admits(NarrowWhere(where, tenant), row.cols) <==> Admits(where, row.cols) && OwnedBy(row, tenant)
  {
    var only := TenantOnly(tenant);
    assert TENANT_ID in only.cols;
    assert Matches(only, row.cols) <==> OwnedBy(row, tenant);
    if where.Some? {
      var both := [where.value, only];
      assert forall w :: w in both <==> w == where.value || w == only;
      var narrowed := Where(map[], [All(both)]);
      assert narrowed.clauses[0] == All(both);
      assert Matches(narrowed, row.cols) <==> ClauseHolds(All(both), row.cols);
      assert both[0] in both && both[1] in both;
    }
  }

  /** Narrowing the filter picks, in order and before the limit applies, the tenant's own rows. */
  lemma NarrowWindow(rows: seq<Row>, where: Option<Where>, take: Option<nat>, tenant: Tenant)
    ensures Window(rows, NarrowWhere(where, tenant), take)
            == Window(OwnRows(rows, tenant), where, take)
  {
    var own, admits := (r: Row) => OwnedBy(r, tenant), (r: Row) => Admits(where, r.cols);
    var narrow := (r: Row) => Admits(NarrowWhere(where, tenant), r.cols);
    forall r | r in rows ensures narrow(r) <==> admits(r) && own(r) {
      NarrowAdmits(where, tenant, r);
    }
    FilterFilter(admits, own, narrow, rows);
  }
}
