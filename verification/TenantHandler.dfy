/** What the handler answers and changes, by who calls and by what the caller itself asked for. */
module TenantHandler {
  import opened Values
  import opened Schemas
  import opened Queries
  import opened ForceTenant
  import opened Databases
  import opened TenantReads
  import opened TenantMirrors
  import opened TenantIsolation
  import opened TenantInject
  import opened TenantRuns

  // ---- the three kinds of caller, by their own fields ----

  /** In production, and no tenant in the ambient context or, without one, in the session. */
  predicate Unknown(c: Caller) {
    !c.isLocalOrScript && if c.store.Some? then c.store.value.tenantId == "" else !Given(c.session)
  }

  /** An ambient context of the tenant without the bypass flag, or a session of the tenant. */
  predicate ActsFor(c: Caller, tenant: Tenant) {
    tenant != "" && if c.store.Some? then c.store.value == Context(tenant, false) else c.session == Some(tenant)
  }

  /** A tenant's context that asks to bypass, or a script or a developer without a tenant. */
  predicate Passes(c: Caller) {
    if c.store.Some? && c.store.value.tenantId != "" then c.store.value.bypassRls
    else c.isLocalOrScript && (c.store.Some? || !Given(c.session))
  }

  // ---- one write on one table ----

  /** The row after its columns are written: what is given replaces, what is undefined does not. */
  ghost predicate Overwritten(was: Row, now: Row, data: Columns) {
    && now.key == was.key
    && forall k :: At(now.cols, k) == if At(data, k) != Undefined then At(data, k) else At(was.cols, k)
  }

  /** The first row that the filter admits, if any is. */
  predicate FirstAt(rows: seq<Row>, w: Option<Where>, i: nat) {
    i < |rows| && Admits(w, rows[i].cols) && forall j :: 0 <= j < i ==> !Admits(w, rows[j].cols)
  }

  predicate NoneAt(rows: seq<Row>, w: Option<Where>) {
    forall j :: 0 <= j < |rows| ==> !Admits(w, rows[j].cols)
  }

  ghost predicate Inserted(before: seq<Row>, after: seq<Row>, datas: seq<Columns>, keys: seq<nat>) {
    && |after| == |before| + |datas| <= |before| + |keys| && before <= after
    && forall i :: 0 <= i < |datas| ==> Overwritten(Row(keys[i], map[]), after[|before| + i], datas[i])
  }

  lemma WrittenIs(row: Row, data: Columns)
    ensures Overwritten(row, Written(row, data), data)
  {
  }

  lemma {:induction false} NewRowsAre(rows: seq<Row>, datas: seq<Columns>, keys: seq<nat>)
    requires |keys| >= |datas|
    ensures Inserted(rows, rows + NewRows(datas, keys), datas, keys)
    ensures |NewRows(datas, keys)| == |datas|
    decreases |datas|
  {
    if datas != [] {
      var rest, after := NewRows(datas[1..], keys[1..]), rows + NewRows(datas, keys);
      NewRowsAre([], datas[1..], keys[1..]);
      WrittenIs(Row(keys[0], map[]), datas[0]);
      assert [] + rest == rest && after == rows + [Row(keys[0], WriteCols(map[], datas[0]))] + rest;
      hide Overwritten, NewRows, WriteCols;
      forall i | 0 <= i < |datas| ensures Overwritten(Row(keys[i], map[]), after[|rows| + i], datas[i]) {
        if i > 0 { assert Overwritten(Row(keys[1..][i - 1], map[]), rest[i - 1], datas[1..][i - 1]); }
      }
    }
  }

  lemma {:induction false} UpdateAllIs(rows: seq<Row>, w: Option<Where>, data: Columns)
    ensures var after := UpdateAll(rows, w, data);
            && |after| == |rows|
            && forall i :: 0 <= i < |rows| ==>
                 if Admits(w, rows[i].cols) then Overwritten(rows[i], after[i], data) else after[i] == rows[i]
  {
    hide Overwritten;
    if rows != [] {
      UpdateAllIs(rows[1..], w, data);
      WrittenIs(rows[0], data);
    }
  }

  lemma {:induction false} FirstUpdated(rows: seq<Row>, w: Option<Where>, data: Columns, i: nat)
    requires FirstAt(rows, w, i)
    ensures UpdateFirst(rows, w, data) == rows[i := Written(rows[i], data)]
  {
    hide Admits, Written;
    if i > 0 {
      assert rows == [rows[0]] + rows[1..];
      FirstUpdated(rows[1..], w, data, i - 1);
    }
  }

  lemma {:induction false} FirstRemoved(rows: seq<Row>, w: Option<Where>, i: nat)
    requires FirstAt(rows, w, i)
    ensures RemoveFirst(rows, w) == rows[..i] + rows[i + 1..]
  {
    hide Admits;
    if i > 0 {
      assert rows == [rows[0]] + rows[1..];
      FirstRemoved(rows[1..], w, i - 1);
    }
  }

  lemma {:induction false} FirstHit(rows: seq<Row>, w: Option<Where>, i: nat)
    requires FirstAt(rows, w, i)
    ensures Hit(rows, w) != [] && Hit(rows, w)[0] == rows[i]
  {
    hide Admits;
    if i > 0 {
      FirstHit(rows[1..], w, i - 1);
    }
  }

  lemma {:induction false} FirstExists(rows: seq<Row>, w: Option<Where>) returns (i: nat)
    ensures if NoneAt(rows, w) then Hit(rows, w) == [] else FirstAt(rows, w, i)
  {
    hide Admits;
    i := 0;
    if rows != [] && !Admits(w, rows[0].cols) {
      i := FirstExists(rows[1..], w);
      assert NoneAt(rows, w) <==> NoneAt(rows[1..], w);
      i := i + 1;
    }
  }

  /** An insert adds a row for each payload, under the keys given, behind the rows that are there. */
  lemma InsertIsExact(rows: seq<Row>, op: Op, q: Query, keys: seq<nat>)
    requires op in INSERTS && |keys| >= |Inserts(op, q)| && (op == Create ==> q.data.One?)
    ensures var (after, reply) := Execute(rows, op, q, keys);
            && Inserted(rows, after, match q.data case NoData => [] case One(cols) => [cols] case Many(datas) => datas, keys)
            && (op == Create ==> reply == OneRow(after[|rows|].cols))
            && (op == CreateMany ==> reply == Affected(|after| - |rows|))
            && (op == CreateManyAndReturn ==>
                  reply.Tally? && |reply.rows| == |after| - |rows|
                  && forall i :: 0 <= i < |reply.rows| ==> reply.rows[i] == after[|rows| + i].cols)
  {
    NewRowsAre(rows, Inserts(op, q), keys);
    hide Overwritten;
  }

  /** An update of one row writes the first row the filter admits and no other; without one nothing changes. */
  lemma UpdateIsExact(rows: seq<Row>, q: Query, keys: seq<nat>)
    requires q.data.One?
    ensures var (after, reply) := Execute(rows, Update, q, keys);
            if NoneAt(rows, q.where) then after == rows && reply == Missing
            else exists i: nat :: FirstAt(rows, q.where, i) && |after| == |rows| && after == rows[i := after[i]]
                             && Overwritten(rows[i], after[i], q.data.cols) && reply == OneRow(after[i].cols)
  {
    var i := FirstExists(rows, q.where);
    if FirstAt(rows, q.where, i) {
      FirstUpdated(rows, q.where, q.data.cols, i);
      FirstHit(rows, q.where, i);
      WrittenIs(rows[i], q.data.cols);
    }
    hide Admits, Overwritten, Hit, UpdateFirst;
  }

  /** An upsert inserts exactly where an update of one row would find none. */
  lemma UpsertIsExact(rows: seq<Row>, q: Query, keys: seq<nat>)
    requires q.create.One? && q.update.One? && |keys| >= 1
    ensures var (after, reply) := Execute(rows, Upsert, q, keys);
            if NoneAt(rows, q.where) then
              Inserted(rows, after, [q.create.cols], keys) && reply == OneRow(after[|rows|].cols)
            else exists i: nat :: FirstAt(rows, q.where, i) && |after| == |rows| && after == rows[i := after[i]]
                             && Overwritten(rows[i], after[i], q.update.cols) && reply == OneRow(after[i].cols)
  {
    NewRowsAre(rows, [q.create.cols], keys);
    var i := FirstExists(rows, q.where);
    if FirstAt(rows, q.where, i) {
      FirstUpdated(rows, q.where, q.update.cols, i);
      FirstHit(rows, q.where, i);
      WrittenIs(rows[i], q.update.cols);
    }
    hide Admits, Overwritten, Hit, UpdateFirst;
  }

  /** A delete of one row removes the first row the filter admits, and returns it. */
  lemma DeleteIsExact(rows: seq<Row>, q: Query, keys: seq<nat>)
    ensures var (after, reply) := Execute(rows, Delete, q, keys);
            if NoneAt(rows, q.where) then after == rows && reply == Missing
            else exists i: nat :: FirstAt(rows, q.where, i) && after == rows[..i] + rows[i + 1..] && reply == OneRow(rows[i].cols)
  {
    var i := FirstExists(rows, q.where);
    if FirstAt(rows, q.where, i) {
      FirstRemoved(rows, q.where, i);
      FirstHit(rows, q.where, i);
    }
    hide Admits, Hit, RemoveFirst;
  }

  // ---- what each kind of caller is answered ----

  /** How the five finds are called. */
  predicate FindName(op: Op, find: FindOp) {
    (op, find) in {(Op.FindMany, FindOp.FindMany), (Op.FindFirst, FindOp.FindFirst),
                   (Op.FindFirstOrThrow, FindOp.FindFirstOrThrow), (Op.FindUnique, FindOp.FindUnique),
                   (Op.FindUniqueOrThrow, FindOp.FindUniqueOrThrow)}
  }

  /** A refused caller sees and changes nothing: a list is empty, any other find finds nothing, and every other
      operation is an error. No two databases can be told apart. */
  lemma RefusedSeesNothing(s: Schema, relations: RelationMap, db: Database, db2: Database, r: Request)
    requires Typed(s, r) && Unknown(r.caller)
    ensures var (after, reply) := Handle(s, relations, db, r);
            && after == db
            && reply == (if r.op == Op.FindMany then Answered(Found(Arr([])))
                         else if exists find :: FindName(r.op, find) then Answered(Found(Null))
                         else Unauthorized)
            && reply == Handle(s, relations, db2, r).1
  {
    assert r.op in RELATION_SCOPED_OPS ==> exists find :: FindName(r.op, find) by {
      assert r.op in RELATION_SCOPED_OPS ==> FindName(r.op, FindOpOf(r.op));
    }
  }

  /** Whoever calls, only the model's own table changes, and reads change none. */
  lemma OneTableChanges(s: Schema, relations: RelationMap, db: Database, r: Request, m: Name)
    requires Typed(s, r)
    requires m != r.model || r.op !in INSERTS + {Update, UpdateMany, Upsert, Delete, DeleteMany}
    ensures Table(Handle(s, relations, db, r).0, m) == Table(db, m)
  {
    hide Hit, RowsOf, ScopedFind, RunFind, Rewritten;
  }

  /** A find of a bypassing caller is the caller's own, on the whole database. */
  lemma BypassedFindIsPlain(s: Schema, relations: RelationMap, db: Database, r: Request, find: FindOp)
    requires Typed(s, r) && Passes(r.caller) && FindName(r.op, find)
    ensures Handle(s, relations, db, r)
            == (db, Answered(RunFind(s, db, find, r.model, Node(r.q.where, r.take, r.incl, r.sel))))
  {
    hide RunFind, ScopedFind;
  }

  /** A find of a tenant is the caller's own, without the tenant it may have named, on the tenant's part. */
  lemma ScopedFindIsOwn(s: Schema, relations: RelationMap, db: Database, r: Request, find: FindOp, tenant: Tenant)
    requires WellFormed(s) && Sees(relations, s) && ValidDb(s, db)
    requires Typed(s, r) && ActsFor(r.caller, tenant) && FindName(r.op, find)
    requires var node := Node(r.q.where, r.take, r.incl, r.sel);
             Accepted(s, r.model, node) && Contained(s, db, r.model, node, tenant)
    ensures var where := if r.model in s.owned then WithoutTenant(r.q.where) else r.q.where;
            Handle(s, relations, db, r)
            == (db, Answered(RunFind(s, Private(s, db, tenant), find, r.model, Node(where, r.take, r.incl, r.sel))))
  {
    assert RouteFor(r) == ScopedTo(tenant) && find == FindOpOf(r.op);
    hide ScopedFind, RunFind, Private, ValidDb, Accepted, Contained, WellFormed, Sees, WithoutTenant;
    ScopedFindIsPrivate(s, relations, db, find, r.model, NodeOf(r), tenant);
  }

  // ---- what a tenant's writes do, in the caller's own terms ----

  /** The tenant's rows that the caller's own filter admits. */
  predicate Asked(w: Option<Where>, tenant: Tenant, row: Row) {
    Admits(WithoutTenant(w), row.cols) && OwnedBy(row, tenant)
  }

  /** A tenant's write runs with the scoped arguments, whose filter admits what was asked for. */
  lemma ScopedWrite(s: Schema, relations: RelationMap, db: Database, r: Request, tenant: Tenant)
    requires Typed(s, r) && ActsFor(r.caller, tenant) && r.model in s.owned && r.op !in RELATION_SCOPED_OPS
    ensures var scoped := Scoped(r.op, r.q, tenant);
            && |r.keys| >= |Inserts(r.op, scoped)|
            && Table(Handle(s, relations, db, r).0, r.model) == Execute(Table(db, r.model), r.op, scoped, r.keys).0
            && Handle(s, relations, db, r).1 == Execute(Table(db, r.model), r.op, scoped, r.keys).1
            && (r.op !in INSERTS ==> forall row: Row :: Admits(scoped.where, row.cols) <==> Asked(r.q.where, tenant, row))
  {
    assert RouteFor(r) == ScopedTo(tenant) && Rewritten(s, r) == Scoped(r.op, r.q, tenant);
    forall row: Row { ScopedKeepsTheFilter(r.op, r.q, tenant, row.cols); }
    hide Execute, Scoped, Admits, WithoutTenant, Inserts;
  }

  /** A filter that admits what was asked for finds it, and leaves the rest. */
  lemma AskedRows(rows: seq<Row>, scoped: Option<Where>, given: Option<Where>, tenant: Tenant)
    requires forall row: Row :: Admits(scoped, row.cols) <==> Asked(given, tenant, row)
    ensures Hit(rows, scoped) == Filter((row: Row) => Asked(given, tenant, row), rows)
    ensures RemoveAll(rows, scoped) == Filter((row: Row) => !Asked(given, tenant, row), rows)
  {
    assert forall row: Row :: Hits(scoped, row) <==> Asked(given, tenant, row);
    hide Hits, Asked;
    FilterAgree((row: Row) => Hits(scoped, row), (row: Row) => Asked(given, tenant, row), rows);
    FilterAgree((row: Row) => !Hits(scoped, row), (row: Row) => !Asked(given, tenant, row), rows);
  }

  /** A count, an aggregate or a grouping is computed from the tenant's rows that the caller's own filter admits. */
  lemma TalliesWhatWasAsked(s: Schema, relations: RelationMap, db: Database, r: Request, tenant: Tenant)
    requires Typed(s, r) && ActsFor(r.caller, tenant) && r.model in s.owned && r.op in {Count, Aggregate, GroupBy}
    ensures var (after, reply) := Handle(s, relations, db, r);
            var asked := Filter((row: Row) => Asked(r.q.where, tenant, row), Table(db, r.model));
            && Table(after, r.model) == Table(db, r.model)
            && reply.Tally? && |reply.rows| == |asked| && forall i :: 0 <= i < |asked| ==> reply.rows[i] == asked[i].cols
  {
    var scoped, rows := Scoped(r.op, r.q, tenant), Table(db, r.model);
    ScopedWrite(s, relations, db, r, tenant);
    hide Handle, Scoped, Admits, Asked, Hit, Inserts, UpdateAll, UpdateFirst, RemoveFirst, RemoveAll, NewRows, WriteCols;
    AskedRows(rows, scoped.where, r.q.where, tenant);
  }

  /** A bulk delete removes the tenant's rows that the caller's own filter admits, and no other. */
  lemma DeletesWhatWasAsked(s: Schema, relations: RelationMap, db: Database, r: Request, tenant: Tenant)
    requires Typed(s, r) && ActsFor(r.caller, tenant) && r.model in s.owned && r.op == DeleteMany
    ensures var (after, reply) := Handle(s, relations, db, r);
            && Table(after, r.model) == Filter((row: Row) => !Asked(r.q.where, tenant, row), Table(db, r.model))
            && reply == Affected(|Filter((row: Row) => Asked(r.q.where, tenant, row), Table(db, r.model))|)
  {
    var scoped, rows := Scoped(r.op, r.q, tenant), Table(db, r.model);
    ScopedWrite(s, relations, db, r, tenant);
    hide Handle, Scoped, Admits, Asked, Hit, RemoveAll, Inserts;
    AskedRows(rows, scoped.where, r.q.where, tenant);
  }

  /** The payload as the caller gave it, but for the tenant, which is the caller's. */
  predicate Stamps(was: Columns, now: Columns, tenant: Tenant) {
    SameButTenant(was, now) && At(now, TENANT_ID) == Str(tenant)
  }

  /** A bulk update writes the caller's payload to the tenant's rows that the caller's own filter admits, and
      leaves every other row. */
  lemma UpdatesWhatWasAsked(s: Schema, relations: RelationMap, db: Database, r: Request, tenant: Tenant)
    requires Typed(s, r) && ActsFor(r.caller, tenant) && r.model in s.owned && r.op == UpdateMany && r.q.data.One?
    ensures var rows, after := Table(db, r.model), Table(Handle(s, relations, db, r).0, r.model);
            && Handle(s, relations, db, r).1 == Affected(|Filter((row: Row) => Asked(r.q.where, tenant, row), rows)|)
            && exists data :: Stamps(r.q.data.cols, data, tenant) && |after| == |rows|
                        && forall i :: 0 <= i < |rows| ==>
                             if Asked(r.q.where, tenant, rows[i]) then Overwritten(rows[i], after[i], data) else after[i] == rows[i]
  {
    var scoped, rows := Scoped(r.op, r.q, tenant), Table(db, r.model);
    ScopedWrite(s, relations, db, r, tenant);
    ScopedKeepsThePayload(r.op, r.q, tenant);
    assert scoped.data.One? && Stamps(r.q.data.cols, scoped.data.cols, tenant);
    hide Handle, Scoped, Admits, Asked, Stamps, Overwritten, Hit, Inserts;
    UpdateAllIs(rows, scoped.where, scoped.data.cols);
    AskedRows(rows, scoped.where, r.q.where, tenant);
  }

  /** What a tenant inserts is the caller's payload, row by row, as rows of the tenant. */
  lemma InsertsWhatWasAsked(s: Schema, relations: RelationMap, db: Database, r: Request, tenant: Tenant)
    requires Typed(s, r) && ActsFor(r.caller, tenant) && r.model in s.owned && r.op == CreateMany && r.q.data.Many?
    ensures var rows, after := Table(db, r.model), Table(Handle(s, relations, db, r).0, r.model);
            exists datas :: Inserted(rows, after, datas, r.keys) && |datas| == |r.q.data.rows|
                         && forall i :: 0 <= i < |datas| ==> Stamps(r.q.data.rows[i], datas[i], tenant)
  {
    var scoped := Scoped(r.op, r.q, tenant);
    ScopedWrite(s, relations, db, r, tenant);
    ScopedKeepsThePayload(r.op, r.q, tenant);
    assert scoped.data.Many? && |scoped.data.rows| == |r.q.data.rows|;
    forall i | 0 <= i < |scoped.data.rows| ensures Stamps(r.q.data.rows[i], scoped.data.rows[i], tenant) {
      assert scoped.data.rows[i] in scoped.data.rows;
    }
    hide Handle, Scoped, Inserted, Stamps, Execute;
    InsertIsExact(Table(db, r.model), r.op, scoped, r.keys);
  }

  /** On a model without a tenant a write reaches the table as the caller gave it, whoever calls. */
  lemma UnownedWriteIsPlain(s: Schema, relations: RelationMap, db: Database, r: Request)
    requires Typed(s, r) && r.model !in s.owned && !Unknown(r.caller) && !exists find :: FindName(r.op, find)
    ensures var (rows, reply) := Execute(Table(db, r.model), r.op, r.q, r.keys);
            Handle(s, relations, db, r) == (db[r.model := rows], reply)
  {
    assert r.op in RELATION_SCOPED_OPS ==> FindName(r.op, FindOpOf(r.op));
    hide Execute;
  }
}
