/** Whole runs of operations by many tenants. */
module TenantRuns {
  import opened Values
  import opened Schemas
  import opened Queries
  import opened ForceTenant
  import opened Databases
  import opened TenantReads
  import opened TenantInject

  // ---- what an operation does to one table ----

  datatype Reply =
    | Answered(answer: Answer)      // a find
    | Tally(rows: seq<Columns>)     // what a count, an aggregate or a grouping is computed from
    | OneRow(cols: Columns)
    | Affected(count: nat)
    | Missing                       // no row to update or delete
    | Invalid                       // no payload where one is needed
    | Unauthorized                  // a refused operation that is no find

  function Written(row: Row, data: Columns): Row {
    row.(cols := WriteCols(row.cols, data))
  }

  predicate Hits(w: Option<Where>, r: Row) {
    Admits(w, r.cols)
  }

  function Hit(rows: seq<Row>, w: Option<Where>): seq<Row> {
    Filter((r: Row) => Hits(w, r), rows)
  }

  function UpdateAll(rows: seq<Row>, w: Option<Where>, data: Columns): seq<Row> {
    if rows == [] then []
    else [if Hits(w, rows[0]) then Written(rows[0], data) else rows[0]] + UpdateAll(rows[1..], w, data)
  }

  function UpdateFirst(rows: seq<Row>, w: Option<Where>, data: Columns): seq<Row> {
    if rows == [] then []
    else if Hits(w, rows[0]) then [Written(rows[0], data)] + rows[1..]
    else [rows[0]] + UpdateFirst(rows[1..], w, data)
  }

  function RemoveFirst(rows: seq<Row>, w: Option<Where>): seq<Row> {
    if rows == [] then []
    else if Hits(w, rows[0]) then rows[1..]
    else [rows[0]] + RemoveFirst(rows[1..], w)
  }

  function RemoveAll(rows: seq<Row>, w: Option<Where>): seq<Row> {
    Filter((r: Row) => !Hits(w, r), rows)
  }

  /** New rows under the keys the database gives them. */
  function NewRows(datas: seq<Columns>, keys: seq<nat>): seq<Row>
    requires |keys| >= |datas|
  {
    if datas == [] then [] else [Row(keys[0], WriteCols(map[], datas[0]))] + NewRows(datas[1..], keys[1..])
  }

  /** The rows an insert is asked to make. */
  function Inserts(op: Op, q: Query): seq<Columns> {
    if op in {Create, CreateMany, CreateManyAndReturn} then
      match q.data case One(cols) => [cols] case Many(rows) => rows case NoData => []
    else if op == Upsert && q.create.One? then [q.create.cols]
    else []
  }

  function RowsOf(rows: seq<Row>): seq<Columns> {
    seq(|rows|, i requires 0 <= i < |rows| => rows[i].cols)
  }

  function Execute(rows: seq<Row>, op: Op, q: Query, keys: seq<nat>): (seq<Row>, Reply)
    requires |keys| >= |Inserts(op, q)|
  {
    var hit := Hit(rows, q.where);
    match op
    case Create =>
      if !q.data.One? then (rows, Invalid) else (rows + NewRows([q.data.cols], keys), OneRow(WriteCols(map[], q.data.cols)))
    case CreateMany =>
      var new_ := NewRows(Inserts(op, q), keys);
      (rows + new_, Affected(|new_|))
    case CreateManyAndReturn =>
      var new_ := NewRows(Inserts(op, q), keys);
      (rows + new_, Tally(RowsOf(new_)))
    case Update =>
      if !q.data.One? then (rows, Invalid)
      else if hit == [] then (rows, Missing)
      else (UpdateFirst(rows, q.where, q.data.cols), OneRow(WriteCols(hit[0].cols, q.data.cols)))
    case UpdateMany =>
      if !q.data.One? then (rows, Invalid) else (UpdateAll(rows, q.where, q.data.cols), Affected(|hit|))
    case Upsert =>
      if !q.create.One? || !q.update.One? then (rows, Invalid)
      else if hit == [] then (rows + NewRows([q.create.cols], keys), OneRow(WriteCols(map[], q.create.cols)))
      else (UpdateFirst(rows, q.where, q.update.cols), OneRow(WriteCols(hit[0].cols, q.update.cols)))
    case Delete =>
      if hit == [] then (rows, Missing) else (RemoveFirst(rows, q.where), OneRow(hit[0].cols))
    case DeleteMany =>
      (RemoveAll(rows, q.where), Affected(|hit|))
    case _ =>
      (rows, Tally(RowsOf(hit)))
  }

  // ---- requests ----

  datatype Request = Request(caller: Caller, model: Name, op: Op, q: Query,
                             take: Option<nat>, incl: Selection, sel: Selection, keys: seq<nat>)

  function RouteFor(r: Request): Route {
    RouteOf(r.caller)
  }

  function NodeOf(r: Request): Node {
    Node(r.q.where, r.take, r.incl, r.sel)
  }

  function FindOpOf(op: Op): FindOp {
    match op
    case FindFirst => FindOp.FindFirst
    case FindFirstOrThrow => FindOp.FindFirstOrThrow
    case FindUnique => FindOp.FindUnique
    case FindUniqueOrThrow => FindOp.FindUniqueOrThrow
    case _ => FindOp.FindMany
  }

  /** The arguments as they reach the database. */
  function Rewritten(s: Schema, r: Request): Query {
    if r.model !in s.owned then r.q
    else match RouteFor(r)
      case ScopedTo(t) => Scoped(r.op, r.q, t)
      case Bypassed(Some(t)) => Stamped(r.op, r.q, t, false)
      case _ => r.q
  }

  predicate Typed(s: Schema, r: Request) {
    && |r.keys| >= |Inserts(r.op, Rewritten(s, r))| == |Inserts(r.op, r.q)|
    && r.op != Other
  }

  /** The handler: refuse, pass through, or scope; a scoped find is also rewritten inside and cleaned. */
  function Handle(s: Schema, relations: RelationMap, db: Database, r: Request): (Database, Reply)
    requires Typed(s, r)
  {
    if RouteFor(r) == Denied then
      (db, if r.op in RELATION_SCOPED_OPS then Answered(Found(if r.op == Op.FindMany then Arr([]) else Null))
           else Unauthorized)
    else if r.op in RELATION_SCOPED_OPS then
      (db, Answered(if RouteFor(r).ScopedTo?
                    then ScopedFind(s, relations, db, FindOpOf(r.op), r.model, NodeOf(r), RouteFor(r).tenant)
                    else RunFind(s, db, FindOpOf(r.op), r.model, NodeOf(r))))
    else
      var (rows, reply) := Execute(Table(db, r.model), r.op, Rewritten(s, r), r.keys);
      (db[r.model := rows], reply)
  }

  // ---- one table seen by one tenant ----

  /** Everything the filter reaches belongs to the tenant. */
  ghost predicate Confined(w: Option<Where>, tenant: Tenant) {
    forall r: Row :: Hits(w, r) ==> OwnedBy(r, tenant)
  }

  predicate Carries(data: Columns, tenant: Tenant) {
    TENANT_ID in data && data[TENANT_ID] == Str(tenant)
  }

  lemma WrittenOwner(r: Row, w: Option<Where>, data: Columns, actor: Tenant, tenant: Tenant)
    requires Confined(w, actor) && Carries(data, actor)
    ensures OwnedBy(Written(r, data), actor)
    ensures Hits(w, r) ==> OwnedBy(r, actor)
    ensures OwnedBy(r, actor) && OwnedBy(r, tenant) ==> actor == tenant
    ensures OwnedBy(Written(r, data), tenant) ==> actor == tenant
  {
    assert TENANT_ID in WriteCols(r.cols, data) && WriteCols(r.cols, data)[TENANT_ID] == data[TENANT_ID];
  }

  /** The tenant's part of a table with one more row in front. */
  lemma OwnFirst(head: Row, tail: seq<Row>, tenant: Tenant)
    ensures OwnRows([head] + tail, tenant) == (if OwnedBy(head, tenant) then [head] else []) + OwnRows(tail, tenant)
  {
    assert ([head] + tail)[0] == head && ([head] + tail)[1..] == tail;
  }

  lemma UpdatesFirst(head: Row, tail: seq<Row>, w: Option<Where>, data: Columns)
    ensures UpdateAll([head] + tail, w, data)
            == [if Hits(w, head) then Written(head, data) else head] + UpdateAll(tail, w, data)
    ensures UpdateFirst([head] + tail, w, data)
            == if Hits(w, head) then [Written(head, data)] + tail else [head] + UpdateFirst(tail, w, data)
    ensures RemoveFirst([head] + tail, w) == if Hits(w, head) then tail else [head] + RemoveFirst(tail, w)
  {
    hide Hits, Written;
    assert ([head] + tail)[0] == head && ([head] + tail)[1..] == tail;
  }

  lemma {:induction false} OwnUpdateAll(rows: seq<Row>, w: Option<Where>, data: Columns, actor: Tenant, tenant: Tenant)
    requires Confined(w, actor) && Carries(data, actor)
    ensures OwnRows(UpdateAll(rows, w, data), tenant) ==
            if actor == tenant then UpdateAll(OwnRows(rows, tenant), w, data) else OwnRows(rows, tenant)
  {
    if rows != [] {
      var head, tail := rows[0], rows[1..];
      var after := if Hits(w, head) then Written(head, data) else head;
      assert rows == [head] + tail;
      OwnUpdateAll(tail, w, data, actor, tenant);
      WrittenOwner(head, w, data, actor, tenant);
      hide Hits, Written, Confined, Carries, OwnedBy, OwnRows, UpdateAll;
      OwnFirst(head, tail, tenant);
      OwnFirst(after, UpdateAll(tail, w, data), tenant);
      UpdatesFirst(head, tail, w, data);
      UpdatesFirst(head, OwnRows(tail, tenant), w, data);
      assert [] + OwnRows(tail, tenant) == OwnRows(tail, tenant);
    }
  }

  lemma {:induction false} OwnUpdateFirst(rows: seq<Row>, w: Option<Where>, data: Columns, actor: Tenant, tenant: Tenant)
    requires Confined(w, actor) && Carries(data, actor)
    ensures OwnRows(UpdateFirst(rows, w, data), tenant) ==
            if actor == tenant then UpdateFirst(OwnRows(rows, tenant), w, data) else OwnRows(rows, tenant)
  {
    if rows != [] {
      var head, tail := rows[0], rows[1..];
      assert rows == [head] + tail;
      OwnUpdateFirst(tail, w, data, actor, tenant);
      WrittenOwner(head, w, data, actor, tenant);
      hide Hits, Written, Confined, Carries, OwnedBy, OwnRows, UpdateFirst;
      OwnFirst(head, tail, tenant);
      OwnFirst(Written(head, data), tail, tenant);
      OwnFirst(head, UpdateFirst(tail, w, data), tenant);
      UpdatesFirst(head, tail, w, data);
      UpdatesFirst(head, OwnRows(tail, tenant), w, data);
      assert [] + OwnRows(tail, tenant) == OwnRows(tail, tenant);
    }
  }

  lemma {:induction false} OwnRemoveFirst(rows: seq<Row>, w: Option<Where>, actor: Tenant, tenant: Tenant)
    requires Confined(w, actor)
    ensures OwnRows(RemoveFirst(rows, w), tenant) ==
            if actor == tenant then RemoveFirst(OwnRows(rows, tenant), w) else OwnRows(rows, tenant)
  {
    if rows != [] {
      var head, tail := rows[0], rows[1..];
      assert rows == [head] + tail;
      OwnRemoveFirst(tail, w, actor, tenant);
      assert Hits(w, head) ==> OwnedBy(head, actor);
      hide Hits, Confined, OwnRows, RemoveFirst;
      OwnFirst(head, tail, tenant);
      OwnFirst(head, RemoveFirst(tail, w), tenant);
      UpdatesFirst(head, tail, w, map[]);
      UpdatesFirst(head, OwnRows(tail, tenant), w, map[]);
      assert [] + OwnRows(tail, tenant) == OwnRows(tail, tenant);
    }
  }

  lemma OwnRemoveAll(rows: seq<Row>, w: Option<Where>, actor: Tenant, tenant: Tenant)
    requires Confined(w, actor)
    ensures OwnRows(RemoveAll(rows, w), tenant) ==
            if actor == tenant then RemoveAll(OwnRows(rows, tenant), w) else OwnRows(rows, tenant)
  {
    hide Hits;
    var own, keep := (r: Row) => OwnedBy(r, tenant), (r: Row) => !Hits(w, r);
    if actor == tenant {
      var both := (r: Row) => OwnedBy(r, tenant) && !Hits(w, r);
      FilterFilter(own, keep, both, rows);
      FilterFilter(keep, own, both, rows);
    } else {
      FilterFilter(own, keep, own, rows);
    }
  }

  /** A confined filter finds the same rows in the tenant's own part of the table. */
  lemma OwnHit(rows: seq<Row>, w: Option<Where>, actor: Tenant)
    requires Confined(w, actor)
    ensures Hit(OwnRows(rows, actor), w) == Hit(rows, w)
  {
    hide Hits;
    FilterFilter((r: Row) => Hits(w, r), (r: Row) => OwnedBy(r, actor), (r: Row) => Hits(w, r), rows);
  }

  lemma {:induction false} OwnNewRows(datas: seq<Columns>, keys: seq<nat>, actor: Tenant, tenant: Tenant)
    requires |keys| >= |datas| && forall d :: d in datas ==> Carries(d, actor)
    ensures OwnRows(NewRows(datas, keys), tenant) == if actor == tenant then NewRows(datas, keys) else []
  {
    if datas != [] {
      var rest := NewRows(datas[1..], keys[1..]);
      OwnNewRows(datas[1..], keys[1..], actor, tenant);
      assert datas[0] in datas && forall d :: d in datas[1..] ==> d in datas;
      var head := Row(keys[0], WriteCols(map[], datas[0]));
      assert NewRows(datas, keys) == [head] + rest && ([head] + rest)[1..] == rest;
    }
  }

  /** What scoping does to the arguments: filters are confined, payloads carry the tenant. */
  lemma ScopedArguments(op: Op, q: Query, actor: Tenant)
    requires op != Other
    ensures var scoped := Scoped(op, q, actor);
            && (op in READ_SCOPED_OPS + WHERE_SCOPED_WRITE_OPS ==> Confined(scoped.where, actor))
            && (forall d :: d in Inserts(op, scoped) ==> Carries(d, actor))
            && (op in {Update, UpdateMany} && scoped.data.One? ==> Carries(scoped.data.cols, actor))
            && (op == Upsert && scoped.update.One? ==> Carries(scoped.update.cols, actor))
  {
    var scoped := Scoped(op, q, actor);
    if op in READ_SCOPED_OPS + WHERE_SCOPED_WRITE_OPS {
      assert scoped.where == PinTenant(q.where, actor);
      forall r: Row | Hits(scoped.where, r) ensures OwnedBy(r, actor) {
        assert TENANT_ID in scoped.where.value.cols;
      }
    }
  }

  /** The actor's part of the table changes as it would alone, with the same reply; every other part stays. */
  ghost predicate StaysApart(rows: seq<Row>, op: Op, q: Query, keys: seq<nat>, actor: Tenant, tenant: Tenant)
    requires |keys| >= |Inserts(op, q)|
  {
    var (after, reply) := Execute(rows, op, q, keys);
    var (alone, aloneReply) := Execute(OwnRows(rows, tenant), op, q, keys);
    && OwnRows(after, tenant) == (if actor == tenant then alone else OwnRows(rows, tenant))
    && (actor == tenant ==> reply == aloneReply)
  }

  lemma OwnConcat(a: seq<Row>, b: seq<Row>, tenant: Tenant)
    ensures OwnRows(a + b, tenant) == OwnRows(a, tenant) + OwnRows(b, tenant)
  {
    FilterConcat((r: Row) => OwnedBy(r, tenant), a, b);
  }

  /** Inserting, alone or as one half of an upsert. */
  lemma InsertStaysApart(rows: seq<Row>, op: Op, q: Query, keys: seq<nat>, actor: Tenant, tenant: Tenant)
    requires op in {Create, CreateMany, CreateManyAndReturn, Upsert} && |keys| >= |Inserts(op, q)|
    requires forall d :: d in Inserts(op, q) ==> Carries(d, actor)
    requires op == Upsert ==> Confined(q.where, actor) && (q.update.One? ==> Carries(q.update.cols, actor))
    ensures StaysApart(rows, op, q, keys, actor, tenant)
  {
    hide Confined, Carries, Hit, OwnRows, NewRows, RowsOf, WriteCols, UpdateFirst;
    OwnNewRows(Inserts(op, q), keys, actor, tenant);
    OwnConcat(rows, NewRows(Inserts(op, q), keys), tenant);
    if op == Upsert && q.update.One? {
      OwnHit(rows, q.where, actor);
      OwnUpdateFirst(rows, q.where, q.update.cols, actor, tenant);
    }
  }

  /** Changing or removing rows that a confined filter finds. */
  lemma ChangeStaysApart(rows: seq<Row>, op: Op, q: Query, keys: seq<nat>, actor: Tenant, tenant: Tenant)
    requires op in {Update, UpdateMany, Delete, DeleteMany} && |keys| >= |Inserts(op, q)| && Confined(q.where, actor)
    requires op in {Update, UpdateMany} && q.data.One? ==> Carries(q.data.cols, actor)
    ensures StaysApart(rows, op, q, keys, actor, tenant)
  {
    hide Confined, Carries, Hit, OwnRows, NewRows, RowsOf, WriteCols, UpdateAll, UpdateFirst, RemoveAll, RemoveFirst;
    OwnHit(rows, q.where, actor);
    match op
    case Update =>
      if q.data.One? { OwnUpdateFirst(rows, q.where, q.data.cols, actor, tenant); }
    case UpdateMany =>
      if q.data.One? { OwnUpdateAll(rows, q.where, q.data.cols, actor, tenant); }
    case Delete =>
      OwnRemoveFirst(rows, q.where, actor, tenant);
    case DeleteMany =>
      OwnRemoveAll(rows, q.where, actor, tenant);
  }

  /** One scoped operation on a table keeps the tenants apart. */
  lemma TableStep(rows: seq<Row>, op: Op, q: Query, keys: seq<nat>, actor: Tenant, tenant: Tenant)
    requires op != Other && op !in RELATION_SCOPED_OPS && |keys| >= |Inserts(op, Scoped(op, q, actor))|
    ensures StaysApart(rows, op, Scoped(op, q, actor), keys, actor, tenant)
  {
    var scoped := Scoped(op, q, actor);
    ScopedArguments(op, q, actor);
    hide Scoped, Confined, Carries, Hit, OwnRows;
    if op in {Create, CreateMany, CreateManyAndReturn, Upsert} {
      InsertStaysApart(rows, op, scoped, keys, actor, tenant);
    } else if op in {Update, UpdateMany, Delete, DeleteMany} {
      ChangeStaysApart(rows, op, scoped, keys, actor, tenant);
    } else {
      OwnHit(rows, scoped.where, actor);
    }
  }
}
