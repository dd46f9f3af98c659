/** A row's tenant is fixed when the row is created. */
module TenantForLife {
  import opened Values
  import opened Schemas
  import opened Queries
  import opened Databases
  import opened TenantInject
  import opened TenantRuns

  function OwnerOf(r: Row): Json {
    At(r.cols, TENANT_ID)
  }

  /** Writing this payload to the rows this filter reaches keeps their owner. */
  ghost predicate KeepsOwner(w: Option<Where>, data: Columns) {
    forall r: Row :: Hits(w, r) ==> OwnerOf(Written(r, data)) == OwnerOf(r)
  }

  /** Every row afterwards is one from before, with its owner, or new under one of these keys, with a tenant. */
  ghost predicate Traced(before: seq<Row>, after: seq<Row>, keys: set<nat>) {
    forall r :: r in after ==>
      (exists b :: b in before && b.key == r.key && OwnerOf(b) == OwnerOf(r)) || (r.key in keys && OwnerOf(r).Str?)
  }

  lemma SameTraced(before: seq<Row>, after: seq<Row>, keys: set<nat>)
    requires forall r :: r in after ==> r in before
    ensures Traced(before, after, keys)
  {
  }

  lemma TracedInFront(head: Row, now: Row, tail: seq<Row>, after: seq<Row>, keys: set<nat>)
    requires now.key == head.key && OwnerOf(now) == OwnerOf(head) && Traced(tail, after, keys)
    ensures Traced([head] + tail, [now] + after, keys)
  {
    hide OwnerOf;
    var rows := [head] + tail;
    assert forall b :: b in rows <==> b == head || b in tail;
    assert forall r :: r in [now] + after <==> r == now || r in after;
  }

  lemma {:induction false} UpdateTraced(rows: seq<Row>, w: Option<Where>, data: Columns, keys: set<nat>)
    requires KeepsOwner(w, data)
    ensures Traced(rows, UpdateAll(rows, w, data), keys) && Traced(rows, UpdateFirst(rows, w, data), keys)
  {
    if rows != [] {
      var head, tail := rows[0], rows[1..];
      var written := Written(head, data);
      assert rows == [head] + tail && head in rows;
      UpdateTraced(tail, w, data, keys);
      assert Hits(w, head) ==> OwnerOf(written) == OwnerOf(head);
      var now := if Hits(w, head) then written else head;
      assert UpdateAll(rows, w, data) == [now] + UpdateAll(tail, w, data);
      assert UpdateFirst(rows, w, data) == [now] + if Hits(w, head) then tail else UpdateFirst(tail, w, data);
      hide Hits, OwnerOf, KeepsOwner, UpdateAll, UpdateFirst, Traced;
      SameTraced(tail, tail, keys);
      TracedInFront(head, now, tail, UpdateAll(tail, w, data), keys);
      TracedInFront(head, now, tail, UpdateFirst(tail, w, data), keys);
      TracedInFront(head, now, tail, tail, keys);
    }
  }

  lemma {:induction false} RemoveFirstKeeps(rows: seq<Row>, w: Option<Where>)
    ensures forall r :: r in RemoveFirst(rows, w) ==> r in rows
  {
    hide Hits;
    if rows != [] {
      RemoveFirstKeeps(rows[1..], w);
      assert rows == [rows[0]] + rows[1..];
    }
  }

  lemma {:induction false} NewRowsCarry(datas: seq<Columns>, keys: seq<nat>)
    requires |keys| >= |datas| && forall d: Columns :: d in datas ==> TENANT_ID in d && d[TENANT_ID].Str?
    ensures forall r :: r in NewRows(datas, keys) ==> r.key in keys && OwnerOf(r).Str?
  {
    if datas != [] {
      assert datas[0] in datas && forall d :: d in datas[1..] ==> d in datas;
      NewRowsCarry(datas[1..], keys[1..]);
      assert forall k :: k in keys[1..] ==> k in keys;
      assert keys[0] in keys;
    }
  }

  /** What keeps an operation's arguments from moving a row: updates keep the owner, inserts give one. */
  ghost predicate Steady(op: Op, q: Query) {
    && (forall d: Columns :: d in Inserts(op, q) ==> TENANT_ID in d && d[TENANT_ID].Str?)
    && (op in {Op.Update, Op.UpdateMany} && q.data.One? ==> KeepsOwner(q.where, q.data.cols))
    && (op == Op.Upsert && q.update.One? ==> KeepsOwner(q.where, q.update.cols))
  }

  /** What an operation can leave of a table. */
  lemma TableAfter(rows: seq<Row>, op: Op, q: Query, keys: seq<nat>)
    requires |keys| >= |Inserts(op, q)|
    ensures var after := Execute(rows, op, q, keys).0;
            || after == rows || after == rows + NewRows(Inserts(op, q), keys)
            || after == RemoveFirst(rows, q.where) || after == RemoveAll(rows, q.where)
            || (op in {Op.Update, Op.UpdateMany} && q.data.One?
                && (after == UpdateFirst(rows, q.where, q.data.cols) || after == UpdateAll(rows, q.where, q.data.cols)))
            || (op == Op.Upsert && q.update.One? && after == UpdateFirst(rows, q.where, q.update.cols))
  {
    hide Hit, UpdateAll, UpdateFirst, RemoveFirst, RemoveAll, NewRows, WriteCols, RowsOf;
  }

  lemma ExecuteTraced(rows: seq<Row>, op: Op, q: Query, keys: seq<nat>)
    requires |keys| >= |Inserts(op, q)| && Steady(op, q)
    ensures Traced(rows, Execute(rows, op, q, keys).0, set k | k in keys)
  {
    var ks := set k | k in keys;
    var new_ := NewRows(Inserts(op, q), keys);
    NewRowsCarry(Inserts(op, q), keys);
    SameTraced(rows, rows, ks);
    assert Traced(rows, rows + new_, ks);
    if op in {Op.Update, Op.UpdateMany} && q.data.One? { UpdateTraced(rows, q.where, q.data.cols, ks); }
    if op == Op.Upsert && q.update.One? { UpdateTraced(rows, q.where, q.update.cols, ks); }
    RemoveFirstKeeps(rows, q.where);
    FilterMembers((r: Row) => !Hits(q.where, r), rows);
    SameTraced(rows, RemoveFirst(rows, q.where), ks);
    SameTraced(rows, RemoveAll(rows, q.where), ks);
    hide *;
    TableAfter(rows, op, q, keys);
  }

  /** A payload that leaves the owner to the row: no `tenantId`, or an undefined one. */
  predicate LeavesOwner(data: Columns) {
    At(data, TENANT_ID) == Undefined
  }

  /** What an insert needs to give its row a tenant on the bypass path. */
  predicate NamesOwner(data: Columns, known: Option<Tenant>) {
    if TENANT_ID in data then data[TENANT_ID].Str? else known.Some?
  }

  /** A request of any kind. On the bypass path its updates leave the owner alone, and its inserts name a tenant
      or come from a known one; a request that inserts nothing needs no tenant at all. */
  predicate KeepsOwners(s: Schema, r: Request) {
    && Typed(s, r)
    && (RouteFor(r).Bypassed? ==>
          && (forall d :: d in Inserts(r.op, r.q) ==> NamesOwner(d, RouteFor(r).known))
          && (r.op in {Op.Update, Op.UpdateMany} && r.q.data.One? ==> LeavesOwner(r.q.data.cols))
          && (r.op == Op.Upsert && r.q.update.One? ==> LeavesOwner(r.q.update.cols)))
  }

  lemma ScopedIsSteady(op: Op, q: Query, tenant: Tenant)
    requires op != Other
    ensures Steady(op, Scoped(op, q, tenant))
  {
    var scoped := Scoped(op, q, tenant);
    ScopedArguments(op, q, tenant);
    forall w, d, r: Row | Confined(w, tenant) && Carries(d, tenant) && Hits(w, r)
      ensures OwnerOf(Written(r, d)) == OwnerOf(r)
    {
      WrittenOwner(r, w, d, tenant, tenant);
    }
  }

  lemma BypassIsSteady(s: Schema, r: Request)
    requires KeepsOwners(s, r) && RouteFor(r).Bypassed? && r.model in s.owned
    ensures Steady(r.op, Rewritten(s, r))
  {
    var q := Rewritten(s, r);
    forall d: Columns | d in Inserts(r.op, q) ensures TENANT_ID in d && d[TENANT_ID].Str? {
      var i :| 0 <= i < |Inserts(r.op, q)| && Inserts(r.op, q)[i] == d;
      var given, known := Inserts(r.op, r.q)[i], RouteFor(r).known;
      assert given in Inserts(r.op, r.q) && NamesOwner(given, known);
      assert d == if known.Some? then ApplyTenant(given, known.value, false) else given;
    }
  }

  /** One such request moves no row of an owned table to another tenant and adds none without a tenant. */
  lemma HandleTraced(s: Schema, relations: RelationMap, db: Database, r: Request, m: Name)
    requires KeepsOwners(s, r) && m in s.owned
    ensures Traced(Table(db, m), Table(Handle(s, relations, db, r).0, m), set k | k in r.keys)
  {
    if r.model == m && !RouteFor(r).Denied? && r.op !in RELATION_SCOPED_OPS {
      if RouteFor(r).ScopedTo? {
        ScopedIsSteady(r.op, r.q, RouteFor(r).tenant);
      } else {
        BypassIsSteady(s, r);
      }
      ExecuteTraced(Table(db, m), r.op, Rewritten(s, r), r.keys);
    } else {
      SameTraced(Table(db, m), Table(db, m), set k | k in r.keys);
    }
  }

  function MixedAfter(s: Schema, relations: RelationMap, db: Database, run: seq<Request>): Database
    requires forall r :: r in run ==> KeepsOwners(s, r)
  {
    if run == [] then db
    else
      var init, last := run[..|run| - 1], run[|run| - 1];
      assert last in run && KeepsOwners(s, last);
      Handle(s, relations, MixedAfter(s, relations, db, init), last).0
  }

  function KeysOf(run: seq<Request>): set<nat> {
    set r, k | r in run && k in r.keys :: k
  }

  lemma TracedOn(a: seq<Row>, b: seq<Row>, c: seq<Row>, k1: set<nat>, k2: set<nat>, k: set<nat>)
    requires Traced(a, b, k1) && Traced(b, c, k2) && k1 <= k && k2 <= k
    ensures Traced(a, c, k)
  {
  }

  lemma {:induction false} RunTraced(s: Schema, relations: RelationMap, db: Database, run: seq<Request>, m: Name)
    requires (forall r :: r in run ==> KeepsOwners(s, r)) && m in s.owned
    ensures Traced(Table(db, m), Table(MixedAfter(s, relations, db, run), m), KeysOf(run))
  {
    if run == [] {
      SameTraced(Table(db, m), Table(db, m), KeysOf(run));
    } else {
      var init, last := run[..|run| - 1], run[|run| - 1];
      assert last in run && KeepsOwners(s, last) && forall r :: r in init ==> r in run;
      RunTraced(s, relations, db, init, m);
      var mid := MixedAfter(s, relations, db, init);
      HandleTraced(s, relations, mid, last, m);
      TracedOn(Table(db, m), Table(mid, m), Table(MixedAfter(s, relations, db, run), m),
               KeysOf(init), (set k | k in last.keys), KeysOf(run));
    }
  }

  /** Along every run of such requests, every row that was there keeps its tenant for as long as it lives, and
      every row that was not there has a tenant. */
  lemma TenantIsFixedForLife(s: Schema, relations: RelationMap, db: Database, run: seq<Request>, m: Name, r: Row)
    requires (forall x :: x in run ==> KeepsOwners(s, x)) && m in s.owned
    requires r in Table(MixedAfter(s, relations, db, run), m)
    // keys are unique in the table and never handed out again
    requires forall a, b :: a in Table(db, m) && b in Table(db, m) && a.key == b.key ==> a == b
    requires forall a :: a in Table(db, m) ==> a.key !in KeysOf(run)
    ensures forall a :: a in Table(db, m) && a.key == r.key ==> OwnerOf(r) == OwnerOf(a)
    ensures (forall a :: a in Table(db, m) ==> a.key != r.key) ==> OwnerOf(r).Str?
  {
    RunTraced(s, relations, db, run, m);
  }

  /** A bypassed write can name a tenant: an insert then belongs to that tenant, and an update moves the row,
      exactly when the payload gives a tenant other than the row's own. */
  lemma BypassFollowsPayload(row: Row, data: Columns, tenant: Tenant)
    requires OwnerOf(row).Str?
    ensures OwnerOf(Row(row.key, WriteCols(map[], ApplyTenant(data, tenant, false))))
            == if TENANT_ID in data then data[TENANT_ID] else Str(tenant)
    ensures OwnerOf(Written(row, data)) == OwnerOf(row)
            <==> TENANT_ID !in data || data[TENANT_ID] == Undefined || data[TENANT_ID] == OwnerOf(row)
  {
  }
}
