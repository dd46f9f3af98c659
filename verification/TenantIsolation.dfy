/** What scoped finds guarantee: privacy, isolation, and transparency, each with its exact condition. */
module TenantIsolation {
  import opened Values
  import opened Schemas
  import opened Queries
  import opened ForceTenant
  import opened Databases
  import opened ScrubRelations
  import opened StripForced
  import opened TenantReads
  import opened TenantRefinement
  import opened TenantMirrors

  /** The caller's query without any tenant condition it may have given at the top. */
  function Unpinned(s: Schema, model: Name, node: Node): Node {
    if model in s.owned then node.(where := WithoutTenant(node.where)) else node
  }

  /** Pinning the tenant at the top picks the caller's rows from the private table. */
  lemma PinnedWindow(s: Schema, db: Database, model: Name, node: Node, take: Option<nat>, tenant: Tenant)
    ensures Window(Table(db, model), PinTop(s, model, node, tenant).where, take)
            == Window(Table(Private(s, db, tenant), model), Unpinned(s, model, node).where, take)
  {
    if model in s.owned {
      var own := (r: Row) => OwnedBy(r, tenant);
      var rest := (r: Row) => Admits(Unpinned(s, model, node).where, r.cols);
      var pinned := (r: Row) => Admits(PinTop(s, model, node, tenant).where, r.cols);
      forall r | r in Table(db, model) ensures pinned(r) <==> rest(r) && own(r) {
        PinAdmits(node.where, tenant, r.cols);
      }
      FilterFilter(rest, own, pinned, Table(db, model));
    }
  }

  /** Forcing leaves a query's shape, so only its `where` tells the pinned query from the caller's. */
  lemma PinnedForce(s: Schema, relations: RelationMap, model: Name, node: Node, tenant: Tenant)
    ensures var forced, query := ForceNode(relations, model, node, tenant),
                                 ForceNode(relations, model, PinTop(s, model, node, tenant), tenant);
            && query == forced.(where := PinTop(s, model, node, tenant).where)
            && forced.take == node.take
  {
  }

  /** One top-level row of a scoped find. */
  lemma TopRow(s: Schema, relations: RelationMap, db: Database, view: Database, model: Name, row: Row, node: Node,
               where: Option<Where>, tenant: Tenant)
    requires WellFormed(s) && Sees(relations, s) && ValidDb(s, db) && ValidRow(s, db, model, row)
    requires Accepted(s, model, node) && Mirrors(s, db, view, tenant, model, row, node)
    ensures var query := ForceNode(relations, model, PinTop(s, model, node, tenant), tenant);
            Strip(Scrub(relations, model, EvalRow(s, db, model, row, query), tenant), ForcedPaths(relations, model, node))
            == EvalRow(s, view, model, row, node.(where := where))
  {
    PinnedForce(s, relations, model, node, tenant);
    var forced := ForceNode(relations, model, node, tenant);
    var query := forced.(where := PinTop(s, model, node, tenant).where);
    assert Entries(query) == Entries(forced) && Scalars(row, query) == Scalars(row, forced);
    assert Entries(node.(where := where)) == Entries(node) && Scalars(row, node.(where := where)) == Scalars(row, node);
    hide *;
    SameSelection(s, db, model, row, query, forced);
    SameSelection(s, view, model, row, node, node.(where := where));
    RowIsMirrored(s, relations, db, view, model, row, node, tenant);
  }

  lemma TopRows(s: Schema, relations: RelationMap, db: Database, view: Database, model: Name, rows: seq<Row>, node: Node,
                where: Option<Where>, tenant: Tenant)
    requires WellFormed(s) && Sees(relations, s) && ValidDb(s, db) && Accepted(s, model, node)
    requires forall r :: r in rows ==> ValidRow(s, db, model, r) && Mirrors(s, db, view, tenant, model, r, node)
    ensures var query := ForceNode(relations, model, PinTop(s, model, node, tenant), tenant);
            Strip(Scrub(relations, model, Arr(EvalEntries(s, db, model, rows, Sub(query))), tenant),
                  ForcedPaths(relations, model, node))
            == Arr(EvalEntries(s, view, model, rows, Sub(node.(where := where))))
  {
    hide EvalRow, ForceNode, ForcedPaths, PinTop, Mirrors, Accepted, ValidRow, ValidDb, WellFormed, Sees;
    var query := ForceNode(relations, model, PinTop(s, model, node, tenant), tenant);
    var raw := EvalEntries(s, db, model, rows, Sub(query));
    var read := EvalEntries(s, view, model, rows, Sub(node.(where := where)));
    forall i | 0 <= i < |rows|
      ensures Strip(Scrub(relations, model, raw[i], tenant), ForcedPaths(relations, model, node)) == read[i]
    {
      assert rows[i] in rows;
      TopRow(s, relations, db, view, model, rows[i], node, where, tenant);
    }
  }

  lemma ScrubNull(relations: RelationMap, model: Name, tenant: Tenant)
    ensures Scrub(relations, model, Null, tenant) == Null
  {
  }

  lemma WindowIsTaken(rows: seq<Row>, where: Option<Where>, take: Option<nat>)
    ensures Window(rows, where, take) == Take(Window(rows, where, None), take)
  {
  }

  /** The answers agree once the rows do, and each row is finished to what the view reads. */
  lemma AnswerByRows(s: Schema, relations: RelationMap, db: Database, view: Database, op: FindOp, model: Name, node: Node,
                     where: Option<Where>, tenant: Tenant, rows: seq<Row>)
    requires var query := ForceNode(relations, model, PinTop(s, model, node, tenant), tenant);
             var take := if op.FindMany? then node.take else Some(1);
             var finish := (j: Json) => Strip(Scrub(relations, model, j, tenant), ForcedPaths(relations, model, node));
             && query.take == node.take
             && rows == Window(Table(db, model), query.where, take) == Window(Table(view, model), where, take)
             && (op.FindMany? ==>
                   finish(Arr(EvalEntries(s, db, model, rows, Sub(query))))
                   == Arr(EvalEntries(s, view, model, rows, Sub(node.(where := where)))))
             && (!op.FindMany? && rows != [] ==>
                   finish(EvalRow(s, db, model, rows[0], query)) == EvalRow(s, view, model, rows[0], node.(where := where)))
             && (!op.FindMany? && rows == [] ==> finish(Null) == Null)
    ensures ScopedFind(s, relations, db, op, model, node, tenant) == RunFind(s, view, op, model, node.(where := where))
  {
    hide EvalRow, EvalEntries, Scrub, Strip, ForcedPaths, ForceNode, PinTop, Window;
  }

  /** A scoped find answers what a plain find answers on a database that has the pinned rows at the top and
      mirrors each of them. */
  lemma ScopedFindIsMirrored(s: Schema, relations: RelationMap, db: Database, view: Database, op: FindOp,
                             model: Name, node: Node, where: Option<Where>, tenant: Tenant)
    requires WellFormed(s) && Sees(relations, s) && ValidDb(s, db) && Accepted(s, model, node)
    requires Window(Table(db, model), PinTop(s, model, node, tenant).where, None) == Window(Table(view, model), where, None)
    requires forall r :: r in Table(db, model) && Admits(PinTop(s, model, node, tenant).where, r.cols)
                         ==> Mirrors(s, db, view, tenant, model, r, node)
    ensures ScopedFind(s, relations, db, op, model, node, tenant)
            == RunFind(s, view, op, model, node.(where := where))
  {
    var query := ForceNode(relations, model, PinTop(s, model, node, tenant), tenant);
    var take := if op.FindMany? then node.take else Some(1);
    var rows := Window(Table(db, model), query.where, take);
    PinnedForce(s, relations, model, node, tenant);
    WindowIsTaken(Table(db, model), query.where, take);
    WindowIsTaken(Table(view, model), where, take);
    assert rows == Window(Table(view, model), where, take);
    WindowRows(Table(db, model), query.where, take);
    hide EvalRow, Scrub, Strip, ForcedPaths, ForceNode, PinTop, Window, Mirrors, Accepted, Admits;
    assert forall r :: r in rows ==> ValidRow(s, db, model, r);
    assert query.take == node.take;
    hide ValidRow, ValidDb, WellFormed, Sees;
    if op.FindMany? {
      TopRows(s, relations, db, view, model, rows, node, where, tenant);
    } else if rows != [] {
      TopRow(s, relations, db, view, model, rows[0], node, where, tenant);
    } else {
      StripNil(ForcedPaths(relations, model, node));
      ScrubNull(relations, model, tenant);
    }
    hide *;
    AnswerByRows(s, relations, db, view, op, model, node, where, tenant, rows);
  }

  /** A row of an owned model that the pinned filter admits is the tenant's. */
  lemma PinnedRow(s: Schema, model: Name, node: Node, tenant: Tenant, row: Row)
    requires Admits(PinTop(s, model, node, tenant).where, row.cols)
    ensures model in s.owned ==> OwnedBy(row, tenant)
  {
    if model in s.owned {
      PinAdmits(node.where, tenant, row.cols);
    }
  }

  /** A scoped find answers what the caller's own query, with no tenant machinery in it, answers on the
      private database: the tenant's rows and the unowned ones, and nothing else, at every depth. */
  lemma ScopedFindIsPrivate(s: Schema, relations: RelationMap, db: Database, op: FindOp,
                            model: Name, node: Node, tenant: Tenant)
    requires WellFormed(s) && Sees(relations, s) && ValidDb(s, db)
    requires Accepted(s, model, node) && Contained(s, db, model, node, tenant)
    ensures ScopedFind(s, relations, db, op, model, node, tenant)
            == RunFind(s, Private(s, db, tenant), op, model, Unpinned(s, model, node))
  {
    var pinned, plain := PinTop(s, model, node, tenant), Unpinned(s, model, node);
    assert plain == node.(where := plain.where);
    PinnedWindow(s, db, model, node, None, tenant);
    forall r | r in Table(db, model) && Admits(pinned.where, r.cols)
      ensures Mirrors(s, db, Private(s, db, tenant), tenant, model, r, node)
    {
      PinnedRow(s, model, node, tenant, r);
      ContainedMirrors(s, db, tenant, model, r, node);
    }
    hide *;
    ScopedFindIsMirrored(s, relations, db, Private(s, db, tenant), op, model, node, plain.where, tenant);
  }

  /** Two databases that agree on the tenant's own rows, and on the rows nobody owns. */
  predicate AgreeFor(s: Schema, db1: Database, db2: Database, tenant: Tenant) {
    Private(s, db1, tenant) == Private(s, db2, tenant)
  }

  /** No row of another tenant can change any answer. */
  lemma Isolation(s: Schema, relations: RelationMap, db1: Database, db2: Database, op: FindOp,
                  model: Name, node: Node, tenant: Tenant)
    requires WellFormed(s) && Sees(relations, s) && ValidDb(s, db1) && ValidDb(s, db2)
    requires Accepted(s, model, node)
    requires Contained(s, db1, model, node, tenant) && Contained(s, db2, model, node, tenant)
    requires AgreeFor(s, db1, db2, tenant)
    ensures ScopedFind(s, relations, db1, op, model, node, tenant)
            == ScopedFind(s, relations, db2, op, model, node, tenant)
  {
    ScopedFindIsPrivate(s, relations, db1, op, model, node, tenant);
    ScopedFindIsPrivate(s, relations, db2, op, model, node, tenant);
  }

  // ---- relations the layer does not touch ----

  lemma UnownedField(s: Schema, relations: RelationMap, db: Database, model: Name, row: Row, node: Node, k: Name, tenant: Tenant)
    requires Sees(relations, s) && k in Followed(s, model, node) && RelationsFrom(s, model)[k].target !in s.owned
    ensures var query := ForceNode(relations, model, PinTop(s, model, node, tenant), tenant);
            var done := Strip(Scrub(relations, model, EvalRow(s, db, model, row, query), tenant), ForcedPaths(relations, model, node));
            && done.Obj? && k in done.fields
            && done.fields[k] == EvalRelation(s, db, RelationsFrom(s, model)[k], row, Entries(node)[k])
  {
    PinnedForce(s, relations, model, node, tenant);
    ForcedEntries(relations, model, node, tenant);
    ForcedTails(relations, model, node, k);
    var query := ForceNode(relations, model, PinTop(s, model, node, tenant), tenant);
    assert k !in Relations(relations, model);
    assert Entries(query) == Entries(ForceNode(relations, model, node, tenant)) && k in Followed(s, model, query);
    RowFields(s, db, model, row, query);
    hide ForceNode, ForcedPaths, EvalRow, EvalRelation, PinTop, Scrub, Strip, Followed, Entries, Sees;
    var raw := EvalRow(s, db, model, row, query);
    FinishedField(relations, model, raw.fields, ForcedPaths(relations, model, node), tenant, k);
    StripNothing(raw.fields[k]);
  }

  /** The entries of a scoped `findMany` are its rows, evaluated, scrubbed and stripped. */
  lemma AnswerItem(s: Schema, relations: RelationMap, db: Database, model: Name, node: Node, i: nat, tenant: Tenant)
    requires i < |Window(Table(db, model), PinTop(s, model, node, tenant).where, node.take)|
    ensures var query := ForceNode(relations, model, PinTop(s, model, node, tenant), tenant);
            var rows := Window(Table(db, model), PinTop(s, model, node, tenant).where, node.take);
            var answer := ScopedFind(s, relations, db, FindMany, model, node, tenant);
            && answer.Found? && answer.j.Arr? && i < |answer.j.items|
            && answer.j.items[i] == Strip(Scrub(relations, model, EvalRow(s, db, model, rows[i], query), tenant),
                                          ForcedPaths(relations, model, node))
  {
    PinnedForce(s, relations, model, node, tenant);
    var query := ForceNode(relations, model, PinTop(s, model, node, tenant), tenant);
    assert query.take == node.take && query.where == PinTop(s, model, node, tenant).where;
    hide ForceNode, ForcedPaths, EvalRow, EvalRelation, PinTop, Window;
  }

  /** In every row of the answer, a relation to an unowned model holds what the database holds there. */
  lemma SeenUnowned(s: Schema, relations: RelationMap, db: Database, model: Name, node: Node, i: nat, k: Name, tenant: Tenant)
    requires Sees(relations, s) && k in Followed(s, model, node) && RelationsFrom(s, model)[k].target !in s.owned
    requires i < |Window(Table(db, model), PinTop(s, model, node, tenant).where, node.take)|
    ensures var rows := Window(Table(db, model), PinTop(s, model, node, tenant).where, node.take);
            var answer := ScopedFind(s, relations, db, FindMany, model, node, tenant);
            && answer.Found? && answer.j.Arr? && i < |answer.j.items| && answer.j.items[i].Obj?
            && k in answer.j.items[i].fields
            && answer.j.items[i].fields[k] == EvalRelation(s, db, RelationsFrom(s, model)[k], rows[i], Entries(node)[k])
  {
    var rows := Window(Table(db, model), PinTop(s, model, node, tenant).where, node.take);
    hide *;
    AnswerItem(s, relations, db, model, node, i, tenant);
    UnownedField(s, relations, db, model, rows[i], node, k, tenant);
  }

  // ---- the private database of a database ----

  lemma PrivateTwice(s: Schema, db: Database, tenant: Tenant)
    ensures Private(s, Private(s, db, tenant), tenant) == Private(s, db, tenant)
  {
    var own := (r: Row) => OwnedBy(r, tenant);
    var p, pp := Private(s, db, tenant), Private(s, Private(s, db, tenant), tenant);
    forall m | m in p ensures pp[m] == p[m] {
      if m in s.owned {
        FilterMembers(own, db[m]);
        FilterAll(own, p[m]);
      }
    }
  }

  /** The private part of a valid database is valid, and nothing in it crosses. */
  lemma PrivateIsValid(s: Schema, db: Database, tenant: Tenant)
    requires ValidDb(s, db)
    ensures ValidDb(s, Private(s, db, tenant)) && NoCrossing(s, Private(s, db, tenant), tenant)
  {
    var p := Private(s, db, tenant);
    forall m, r | m in p && r in p[m] ensures ValidRow(s, p, m, r) {
      if m in s.owned { FilterMembers((x: Row) => OwnedBy(x, tenant), db[m]); }
      assert r in db[m] && ValidRow(s, db, m, r);
      forall k | k in RelationsFrom(s, m) && !RelationsFrom(s, m)[k].isList
        ensures |Joined(p, RelationsFrom(s, m)[k], r)| <= 1
      {
        PrivateJoin(s, db, RelationsFrom(s, m)[k], r, tenant);
      }
    }
    forall m, r, k | m in s.owned && r in Table(p, m) && k in RelationsFrom(s, m) && RelationsFrom(s, m)[k].target in s.owned
      ensures forall t :: t in Joined(p, RelationsFrom(s, m)[k], r) ==> OwnedBy(t, tenant)
    {
      PrivateJoin(s, db, RelationsFrom(s, m)[k], r, tenant);
      FilterMembers((x: Row) => OwnedBy(x, tenant), Joined(db, RelationsFrom(s, m)[k], r));
    }
  }
}
