/** Every scoped find reads as if the tenant were alone in the database. */
module TenantRefinement {
  import opened Values
  import opened Schemas
  import opened Queries
  import opened ForceTenant
  import opened Databases
  import opened ScrubRelations
  import opened StripForced
  import opened TenantReads

  /** The fields of an evaluated row: one per selected column and one per followed relation. */
  lemma RowFields(s: Schema, db: Database, model: Name, row: Row, node: Node)
    ensures var j := EvalRow(s, db, model, row, node);
            && j.Obj?
            && j.fields.Keys == Scalars(row, node).Keys + Followed(s, model, node).Keys
            && (forall k :: k in Followed(s, model, node) ==>
                  j.fields[k] == EvalRelation(s, db, RelationsFrom(s, model)[k], row, Entries(node)[k]))
            && forall k :: k in Scalars(row, node) && k !in Followed(s, model, node) ==>
                 j.fields[k] == Scalars(row, node)[k]
  {
  }

  /** A row's result depends on its node's selection only, not on the filter and limit beside it. */
  lemma SameSelection(s: Schema, db: Database, model: Name, row: Row, a: Node, b: Node)
    requires Entries(a) == Entries(b) && Scalars(row, a) == Scalars(row, b)
    ensures EvalRow(s, db, model, row, a) == EvalRow(s, db, model, row, b)
  {
    hide EvalRow, EvalRelation, Scalars;
    RowFields(s, db, model, row, a);
    RowFields(s, db, model, row, b);
    assert Followed(s, model, a) == Followed(s, model, b);
    assert EvalRow(s, db, model, row, a).fields == EvalRow(s, db, model, row, b).fields;
  }

  lemma WholeRow(s: Schema, db: Database, model: Name, row: Row, node: Node)
    requires node.incl.NoSelection? && node.sel.NoSelection?
    ensures EvalRow(s, db, model, row, node) == Obj(row.cols)
  {
    hide EvalRow;
    RowFields(s, db, model, row, node);
    assert EvalRow(s, db, model, row, node).fields == row.cols;
  }

  /** Where the owner column is part of the result, it is the row's own. */
  lemma ResultOwner(s: Schema, db: Database, model: Name, row: Row, node: Node)
    requires TENANT_ID in row.cols && TENANT_ID !in RelationsFrom(s, model)
    ensures var j := EvalRow(s, db, model, row, node);
            && (TENANT_ID in j.fields ==> j.fields[TENANT_ID] == row.cols[TENANT_ID])
            && (node.incl.Fields? || !LacksTenant(node) ==> TENANT_ID in j.fields)
  {
    hide EvalRow;
    RowFields(s, db, model, row, node);
  }

  /** A query that stays on unowned models reads the same rows on the private database. */
  lemma {:induction false} SealedEval(s: Schema, db: Database, model: Name, row: Row, node: Node, tenant: Tenant)
    requires Sealed(s, model, node)
    ensures EvalRow(s, db, model, row, node) == EvalRow(s, Private(s, db, tenant), model, row, node)
    decreases node
  {
    hide EvalRow, EvalRelation, Private, Scalars;
    RowFields(s, db, model, row, node);
    RowFields(s, Private(s, db, tenant), model, row, node);
    forall k | k in Followed(s, model, node)
      ensures var rel, sel := RelationsFrom(s, model)[k], Entries(node)[k];
              EvalRelation(s, db, rel, row, sel) == EvalRelation(s, Private(s, db, tenant), rel, row, sel)
    {
      var rel, sel := RelationsFrom(s, model)[k], Entries(node)[k];
      SealedRelation(s, db, rel, row, sel, tenant);
    }
  }

  lemma {:induction false} SealedRelation(s: Schema, db: Database, rel: Relation, row: Row, sel: Sel, tenant: Tenant)
    requires rel.target !in s.owned
    requires sel.Sub? ==> Sealed(s, rel.target, sel.node)
    ensures EvalRelation(s, db, rel, row, sel) == EvalRelation(s, Private(s, db, tenant), rel, row, sel)
    decreases sel
  {
    var private := Private(s, db, tenant);
    PrivateJoin(s, db, rel, row, tenant);
    forall r ensures EvalEntry(s, db, rel.target, r, sel) == EvalEntry(s, private, rel.target, r, sel) {
      if sel.Sub? { SealedEval(s, db, rel.target, r, sel.node, tenant); }
    }
    if rel.isList {
      var joined := Joined(db, rel, row);
      var rows := if sel.Sub? then Window(joined, sel.node.where, sel.node.take) else joined;
      assert EvalEntries(s, db, rel.target, rows, sel) == EvalEntries(s, private, rel.target, rows, sel);
    }
  }

  /** What forcing does to the entries of a selection, and to nothing else. */
  lemma ForcedEntries(relations: RelationMap, model: Name, node: Node, tenant: Tenant)
    ensures var forced, here := ForceNode(relations, model, node, tenant), Relations(relations, model);
            && forced.where == node.where && forced.take == node.take
            && forced.incl.Fields? == node.incl.Fields? && forced.sel.Fields? == node.sel.Fields?
            && Entries(forced).Keys == Entries(node).Keys
            && (forall k :: k in Entries(node) && k !in here ==> Entries(forced)[k] == Entries(node)[k])
            && (forall k :: k in Entries(node) && k in here ==>
                  Entries(forced)[k] == ForceSel(relations, here[k], Entries(node)[k], tenant))
            && forall k :: k in Entries(node) ==> (Entries(forced)[k] == Off <==> Entries(node)[k] == Off)
  {
  }

  /** Forcing keeps the caller's scalar columns. */
  lemma ForcedScalars(s: Schema, relations: RelationMap, model: Name, row: Row, node: Node, tenant: Tenant)
    requires Sees(relations, s) && row.cols.Keys !! RelationsFrom(s, model).Keys
    ensures Scalars(row, ForceNode(relations, model, node, tenant)) == Scalars(row, node)
  {
    var forced := ForceNode(relations, model, node, tenant);
    if node.sel.Fields? && !node.incl.Fields? {
      forall k | k in row.cols && k in node.sel.entries
        ensures forced.sel.entries[k] == node.sel.entries[k]
      {
        assert k !in RelationsFrom(s, model);
        assert k !in Relations(relations, model);
      }
    }
  }

  /** The paths forced below a followed relation are those forced in its own part of the query. */
  lemma ForcedTails(relations: RelationMap, model: Name, node: Node, k: Name)
    ensures Tails(ForcedPaths(relations, model, node), k) ==
            if k in Entries(node) && k in Relations(relations, model)
            then ForcedBelow(relations, Relations(relations, model)[k], Entries(node)[k]) else {}
  {
    var paths, here, entries := ForcedPaths(relations, model, node), Relations(relations, model), Entries(node);
    forall p | p in paths && p != [] && p[0] == k
      ensures k in entries && k in here && p[1..] in ForcedBelow(relations, here[k], entries[k])
    {
      var k', t :| k' in entries && k' in here && t in ForcedBelow(relations, here[k'], entries[k']) && [k'] + t == p;
      assert p[1..] == t;
    }
    if k in entries && k in here {
      forall t | t in ForcedBelow(relations, here[k], entries[k]) ensures t in Tails(paths, k) {
        var p := [k] + t;
        assert p in paths && p[1..] == t;
      }
    }
  }

  lemma NoEmptyPath(relations: RelationMap, model: Name, node: Node)
    ensures [] !in ForcedPaths(relations, model, node)
  {
  }

  lemma AddedColumn(s: Schema, model: Name, row: Row, node: Node)
    requires LacksTenant(node) && !node.incl.Fields?
    requires TENANT_ID in row.cols && TENANT_ID !in RelationsFrom(s, model)
    ensures var more := AddTenant(node);
            && Scalars(row, more) == Scalars(row, node)[TENANT_ID := row.cols[TENANT_ID]]
            && TENANT_ID !in Scalars(row, node) && TENANT_ID !in Followed(s, model, node)
            && Followed(s, model, more) == Followed(s, model, node)
            && forall k :: k in Followed(s, model, node) ==>
                 k in Entries(node) && k in Entries(more) && Entries(more)[k] == Entries(node)[k]
  {
    assert Entries(AddTenant(node)) == Entries(node)[TENANT_ID := On];
  }

  /** Selecting `tenantId` as well adds that one field to the result. */
  lemma AddTenantEval(s: Schema, db: Database, model: Name, row: Row, node: Node)
    requires LacksTenant(node) && !node.incl.Fields?
    requires TENANT_ID in row.cols && TENANT_ID !in RelationsFrom(s, model)
    ensures EvalRow(s, db, model, row, AddTenant(node))
            == Obj(EvalRow(s, db, model, row, node).fields[TENANT_ID := row.cols[TENANT_ID]])
    ensures TENANT_ID !in EvalRow(s, db, model, row, node).fields
  {
    hide EvalRow, EvalRelation, Scalars, Entries, Followed, AddTenant, LacksTenant;
    var more := AddTenant(node);
    AddedColumn(s, model, row, node);
    RowFields(s, db, model, row, node);
    RowFields(s, db, model, row, more);
    var plain, extra := EvalRow(s, db, model, row, node), EvalRow(s, db, model, row, more);
    assert extra.fields.Keys == plain.fields.Keys + {TENANT_ID};
    assert forall k :: k in plain.fields ==> extra.fields[k] == plain.fields[k];
    assert extra.fields == plain.fields[TENANT_ID := row.cols[TENANT_ID]];
  }

  /** A result with an extra `tenantId` is scrubbed and stripped like the one without, field by field. */
  lemma ExtraTenant(relations: RelationMap, model: Name, fields: map<Name, Json>, v: Json, paths: set<Path>, tenant: Tenant)
    requires TENANT_ID !in Relations(relations, model) && TENANT_ID !in fields && v.Str?
    requires Tails(paths, TENANT_ID) == {}
    ensures DropTenant(Strip(Scrub(relations, model, Obj(fields[TENANT_ID := v]), tenant), paths))
            == Strip(Scrub(relations, model, Obj(fields), tenant), paths)
  {
    var plain := Strip(Scrub(relations, model, Obj(fields), tenant), paths);
    var more := Strip(Scrub(relations, model, Obj(fields[TENANT_ID := v]), tenant), paths);
    assert DropTenant(more).fields.Keys == plain.fields.Keys;
    assert forall k :: k in plain.fields ==> more.fields[k] == plain.fields[k];
  }

  lemma PlainRow(relations: RelationMap, model: Name, row: Row, tenant: Tenant)
    requires row.cols.Keys !! Relations(relations, model).Keys
    ensures Strip(Scrub(relations, model, Obj(row.cols), tenant), {}) == Obj(row.cols)
  {
    assert Scrub(relations, model, Obj(row.cols), tenant) == Obj(row.cols);
    StripNothing(Obj(row.cols));
  }

  /** A field of a scrubbed and stripped object. */
  lemma FinishedField(relations: RelationMap, model: Name, fields: map<Name, Json>, paths: set<Path>, tenant: Tenant, k: Name)
    requires k in fields
    ensures var done := Strip(Scrub(relations, model, Obj(fields), tenant), paths);
            var here := Relations(relations, model);
            var below := Strip(if k in here then ScrubField(relations, here[k], fields[k], tenant) else fields[k],
                               Tails(paths, k));
            && done.Obj? && done.fields.Keys == fields.Keys
            && done.fields[k] == if [] in Tails(paths, k) then DropTenant(below) else below
  {
    hide ScrubField;
  }

  lemma ScalarsAreColumns(row: Row, node: Node)
    ensures Scalars(row, node).Keys <= row.cols.Keys
  {
  }

  /** What becomes of one field of a result: scrubbed if it is a listed relation, and stripped of what was forced. */
  function Finished(relations: RelationMap, model: Name, node: Node, k: Name, v: Json, tenant: Tenant): Json {
    var here, tails := Relations(relations, model), Tails(ForcedPaths(relations, model, node), k);
    var below := Strip(if k in here then ScrubField(relations, here[k], v, tenant) else v, tails);
    if [] in tails then DropTenant(below) else below
  }

  lemma FinishedShape(relations: RelationMap, model: Name, raw: map<Name, Json>, paths: set<Path>, tenant: Tenant)
    ensures var done := Strip(Scrub(relations, model, Obj(raw), tenant), paths);
            done.Obj? && done.fields.Keys == raw.Keys
  {
    hide ScrubField;
  }

  /** A result that is finished field by field is the finished result. */
  lemma FinishedByField(relations: RelationMap, model: Name, raw: map<Name, Json>, read: map<Name, Json>, node: Node,
                        tenant: Tenant)
    requires raw.Keys == read.Keys
    requires forall k :: k in read ==> Finished(relations, model, node, k, raw[k], tenant) == read[k]
    ensures Strip(Scrub(relations, model, Obj(raw), tenant), ForcedPaths(relations, model, node)) == Obj(read)
  {
    hide Scrub, Strip, ScrubField, ForcedPaths;
    var paths := ForcedPaths(relations, model, node);
    var done := Strip(Scrub(relations, model, Obj(raw), tenant), paths);
    FinishedShape(relations, model, raw, paths, tenant);
    forall k | k in read ensures done.fields[k] == read[k] {
      FinishedField(relations, model, raw, paths, tenant, k);
    }
    assert done.fields == read;
  }

  /** Forcing changes neither which fields a row's result has nor the scalar ones among them. */
  lemma SameShape(s: Schema, relations: RelationMap, db: Database, view: Database, model: Name, row: Row, node: Node,
                  tenant: Tenant)
    requires Sees(relations, s) && row.cols.Keys !! RelationsFrom(s, model).Keys
    ensures var forced := ForceNode(relations, model, node, tenant);
            var raw, read := EvalRow(s, db, model, row, forced), EvalRow(s, view, model, row, node);
            && raw.Obj? && read.Obj? && raw.fields.Keys == read.fields.Keys
            && (forall k :: k in Followed(s, model, node) ==>
                  k in raw.fields && k in Entries(forced)
                  && raw.fields[k] == EvalRelation(s, db, RelationsFrom(s, model)[k], row, Entries(forced)[k]))
            && forall k :: k in read.fields && k !in Followed(s, model, node) ==>
                 k in row.cols && raw.fields[k] == read.fields[k]
  {
    var forced := ForceNode(relations, model, node, tenant);
    hide EvalRow, EvalRelation, ForceNode, ForceSel, Scalars;
    ForcedScalars(s, relations, model, row, node, tenant);
    ForcedEntries(relations, model, node, tenant);
    RowFields(s, db, model, row, forced);
    RowFields(s, view, model, row, node);
    ScalarsAreColumns(row, node);
    assert Followed(s, model, forced).Keys == Followed(s, model, node).Keys;
  }

  /** One row of a mirrored query: forced, scrubbed and stripped it is the row as the view shows it. */
  lemma {:induction false} RowIsMirrored(s: Schema, relations: RelationMap, db: Database, view: Database,
                                        model: Name, row: Row, node: Node, tenant: Tenant)
    requires WellFormed(s) && Sees(relations, s) && ValidDb(s, db) && ValidRow(s, db, model, row)
    requires Accepted(s, model, node) && Mirrors(s, db, view, tenant, model, row, node)
    ensures Strip(Scrub(relations, model, EvalRow(s, db, model, row, ForceNode(relations, model, node, tenant)), tenant),
                  ForcedPaths(relations, model, node))
            == EvalRow(s, view, model, row, node)
    decreases node, 1
  {
    var forced := ForceNode(relations, model, node, tenant);
    var raw, read := EvalRow(s, db, model, row, forced), EvalRow(s, view, model, row, node);
    SameShape(s, relations, db, view, model, row, node, tenant);
    RowFields(s, view, model, row, node);
    hide EvalRow, EvalRelation, ForceNode, ForcedPaths, Scrub, Strip, Scalars, Followed, Finished, Mirrors, Accepted,
         ValidRow, ValidDb, WellFormed, Sees;
    forall k | k in read.fields ensures Finished(relations, model, node, k, raw.fields[k], tenant) == read.fields[k] {
      FieldIsMirrored(s, relations, db, view, model, row, node, k, tenant);
    }
    FinishedByField(relations, model, raw.fields, read.fields, node, tenant);
  }

  /** One field of a mirrored row. */
  lemma {:induction false} FieldIsMirrored(s: Schema, relations: RelationMap, db: Database, view: Database,
                                           model: Name, row: Row, node: Node, k: Name, tenant: Tenant)
    requires WellFormed(s) && Sees(relations, s) && ValidDb(s, db) && ValidRow(s, db, model, row)
    requires Accepted(s, model, node) && Mirrors(s, db, view, tenant, model, row, node)
    requires k in EvalRow(s, view, model, row, node).fields
    ensures var raw := EvalRow(s, db, model, row, ForceNode(relations, model, node, tenant));
            && raw.Obj? && k in raw.fields
            && Finished(relations, model, node, k, raw.fields[k], tenant) == EvalRow(s, view, model, row, node).fields[k]
    decreases node, 0
  {
    var forced := ForceNode(relations, model, node, tenant);
    var raw := EvalRow(s, db, model, row, forced);
    SameShape(s, relations, db, view, model, row, node, tenant);
    RowFields(s, view, model, row, node);
    ForcedTails(relations, model, node, k);
    hide EvalRow, EvalRelation, ForceNode, ForceSel, ForcedPaths, ScrubField, Strip, Scalars, ForcedBelow, Scrub;
    if k in Followed(s, model, node) {
      var rel, sel := RelationsFrom(s, model)[k], Entries(node)[k];
      if rel.target in s.owned {
        ForcedEntries(relations, model, node, tenant);
        assert Relations(relations, model)[k] == RelationMeta(rel.target, rel.isList);
        RelationIsMirrored(s, relations, db, view, rel, row, sel, tenant);
      } else {
        ForcedEntries(relations, model, node, tenant);
        assert k !in Relations(relations, model);
        StripNothing(raw.fields[k]);
      }
    } else {
      assert k !in RelationsFrom(s, model) && k !in Relations(relations, model);
      StripNothing(raw.fields[k]);
    }
  }

  /** One followed relation of a mirrored query, list or to-one. */
  lemma {:induction false} RelationIsMirrored(s: Schema, relations: RelationMap, db: Database, view: Database,
                                             rel: Relation, row: Row, sel: Sel, tenant: Tenant)
    requires WellFormed(s) && Sees(relations, s) && ValidDb(s, db)
    requires rel.target in s.owned && sel != Off
    requires !rel.isList ==> |Joined(db, rel, row)| <= 1
    requires MirrorsBelow(s, db, view, tenant, rel, row, sel) && (sel.Sub? ==> Accepted(s, rel.target, sel.node))
    ensures var meta := RelationMeta(rel.target, rel.isList);
            var raw := EvalRelation(s, db, rel, row, ForceSel(relations, meta, sel, tenant));
            var below := Strip(ScrubField(relations, meta, raw, tenant), ForcedBelow(relations, meta, sel));
            (if [] in ForcedBelow(relations, meta, sel) then DropTenant(below) else below)
            == EvalRelation(s, view, rel, row, sel)
    decreases sel, 1
  {
    hide WellFormed, Sees, ValidDb, Accepted, MirrorsBelow, EvalRow, EvalEntry, EvalEntries, ForceSel, ForcedBelow, Strip, Scrub,
         ScrubField, DropTenant;
    if rel.isList {
      ToManyIsMirrored(s, relations, db, view, rel, row, sel, tenant);
    } else {
      ToOneIsMirrored(s, relations, db, view, rel, row, sel, tenant);
    }
  }

  lemma NullIsFinished(relations: RelationMap, meta: RelationMeta, paths: set<Path>, tenant: Tenant)
    requires !meta.isList
    ensures Strip(ScrubField(relations, meta, Null, tenant), paths) == Null && DropTenant(Null) == Null
  {
  }

  lemma {:induction false} ToOneIsMirrored(s: Schema, relations: RelationMap, db: Database, view: Database,
                                          rel: Relation, row: Row, sel: Sel, tenant: Tenant)
    requires WellFormed(s) && Sees(relations, s) && ValidDb(s, db)
    requires rel.target in s.owned && sel != Off && !rel.isList && |Joined(db, rel, row)| <= 1
    requires MirrorsBelow(s, db, view, tenant, rel, row, sel) && (sel.Sub? ==> Accepted(s, rel.target, sel.node))
    ensures var meta := RelationMeta(rel.target, false);
            var raw := EvalRelation(s, db, rel, row, ForceSel(relations, meta, sel, tenant));
            var below := Strip(ScrubField(relations, meta, raw, tenant), ForcedBelow(relations, meta, sel));
            (if [] in ForcedBelow(relations, meta, sel) then DropTenant(below) else below)
            == EvalRelation(s, view, rel, row, sel)
    decreases sel, 1, 0
  {
    var meta := RelationMeta(rel.target, false);
    var joined := Joined(db, rel, row);
    JoinedRows(db, rel, row);
    NullIsFinished(relations, meta, ForcedBelow(relations, meta, sel), tenant);
    hide WellFormed, Sees, ValidDb, Accepted, Mirrors, EvalRow, EvalEntry, EvalEntries, ForceSel, ForcedBelow, Strip, Scrub,
         ScrubField, DropTenant, Joined;
    if joined != [] {
      var c := joined[0];
      assert joined == [c] && c in joined;
      assert OwnRows(joined, tenant) == if OwnedBy(c, tenant) then [c] else [];
      EntryIsMirrored(s, relations, db, view, rel.target, c, sel, tenant);
    }
  }

  /** The window of a list relation, as the rewritten query asks for it and as the view shows it. */
  lemma ToManyRows(db: Database, view: Database, rel: Relation, row: Row, sel: Sel, tenant: Tenant)
    returns (rows: seq<Row>)
    requires Joined(view, rel, row) == OwnRows(Joined(db, rel, row), tenant)
    ensures var where, take := if sel.Sub? then sel.node.where else None, if sel.Sub? then sel.node.take else None;
            var own := Joined(view, rel, row);
            && rows == Window(Joined(db, rel, row), NarrowWhere(where, tenant), take)
            && rows == if sel.Sub? then Window(own, where, take) else own
    ensures forall r :: r in rows ==> OwnedBy(r, tenant) && r in Table(db, rel.target) && r in Joined(view, rel, row)
  {
    var where, take := if sel.Sub? then sel.node.where else None, if sel.Sub? then sel.node.take else None;
    var joined := Joined(db, rel, row);
    rows := Window(joined, NarrowWhere(where, tenant), take);
    JoinedRows(db, rel, row);
    WindowRows(joined, NarrowWhere(where, tenant), take);
    NarrowWindow(joined, where, take, tenant);
    FilterMembers((r: Row) => OwnedBy(r, tenant), joined);
    if !sel.Sub? {
      FilterAll((r: Row) => Admits(None, r.cols), OwnRows(joined, tenant));
    }
    hide Joined, NarrowWhere, OwnedBy;
    forall r | r in rows ensures OwnedBy(r, tenant) && r in Table(db, rel.target) {
      NarrowAdmits(where, tenant, r);
    }
  }

  lemma {:induction false} ToManyIsMirrored(s: Schema, relations: RelationMap, db: Database, view: Database,
                                           rel: Relation, row: Row, sel: Sel, tenant: Tenant)
    requires WellFormed(s) && Sees(relations, s) && ValidDb(s, db)
    requires rel.target in s.owned && sel != Off && rel.isList
    requires MirrorsBelow(s, db, view, tenant, rel, row, sel) && (sel.Sub? ==> Accepted(s, rel.target, sel.node))
    ensures var meta := RelationMeta(rel.target, true);
            var raw := EvalRelation(s, db, rel, row, ForceSel(relations, meta, sel, tenant));
            var below := Strip(ScrubField(relations, meta, raw, tenant), ForcedBelow(relations, meta, sel));
            [] !in ForcedBelow(relations, meta, sel) && below == EvalRelation(s, view, rel, row, sel)
    decreases sel, 1, 0
  {
    var rows := ToManyRows(db, view, rel, row, sel, tenant);
    if sel.Sub? {
      NoEmptyPath(relations, rel.target, sel.node);
      ForcedEntries(relations, rel.target, sel.node, tenant);
    }
    hide WellFormed, Sees, ValidDb, Accepted, Mirrors, EvalRow, EvalEntry, EvalEntries, Strip, Scrub, ScrubList, ForceNode,
         ForcedPaths, Joined, Window, NarrowWhere;
    ListIsMirrored(s, relations, db, view, rel.target, rows, sel, tenant);
  }

  lemma StripNil(paths: set<Path>)
    ensures Strip(Arr([]), paths) == Arr([]) && Strip(Null, paths) == Null
  {
  }

  lemma StripCons(head: Json, rest: seq<Json>, paths: set<Path>)
    ensures Strip(Arr([head] + rest), paths) == Arr([Strip(head, paths)] + Strip(Arr(rest), paths).items)
  {
    assert Strip(Arr([head] + rest), paths).items == [Strip(head, paths)] + Strip(Arr(rest), paths).items;
  }

  /** The entries of a list relation, all of them already the tenant's. */
  lemma {:induction false} ListIsMirrored(s: Schema, relations: RelationMap, db: Database, view: Database,
                                         target: Name, rows: seq<Row>, sel: Sel, tenant: Tenant)
    requires WellFormed(s) && Sees(relations, s) && ValidDb(s, db)
    requires target in s.owned && sel != Off
    requires forall r :: r in rows ==> OwnedBy(r, tenant) && r in Table(db, target)
    requires sel.Sub? ==> Accepted(s, target, sel.node)
    requires sel.Sub? ==> forall r :: r in rows ==> Mirrors(s, db, view, tenant, target, r, sel.node)
    ensures var meta := RelationMeta(target, true);
            var raw := EvalEntries(s, db, target, rows, ForceSel(relations, meta, sel, tenant));
            Strip(Arr(ScrubList(relations, target, raw, tenant)), ForcedBelow(relations, meta, sel))
            == Arr(EvalEntries(s, view, target, rows, sel))
    decreases sel, 0, |rows|
  {
    var meta := RelationMeta(target, true);
    var forced, paths := ForceSel(relations, meta, sel, tenant), ForcedBelow(relations, meta, sel);
    hide EvalRow, EvalEntry, ForceSel, ForcedBelow, Strip, Scrub;
    if rows == [] {
      StripNil(paths);
    } else {
      var r := rows[0];
      ListEntryIsMirrored(s, relations, db, view, target, r, sel, tenant);
      ListIsMirrored(s, relations, db, view, target, rows[1..], sel, tenant);
      var raw := EvalEntries(s, db, target, rows, forced);
      var kept := ScrubList(relations, target, raw[1..], tenant);
      assert raw[1..] == EvalEntries(s, db, target, rows[1..], forced);
      var head := Scrub(relations, target, raw[0], tenant);
      StripCons(head, kept, paths);
    }
  }

  lemma {:induction false} ListEntryIsMirrored(s: Schema, relations: RelationMap, db: Database, view: Database,
                                              target: Name, r: Row, sel: Sel, tenant: Tenant)
    requires WellFormed(s) && Sees(relations, s) && ValidDb(s, db)
    requires target in s.owned && sel != Off && OwnedBy(r, tenant) && r in Table(db, target)
    requires sel.Sub? ==> Accepted(s, target, sel.node) && Mirrors(s, db, view, tenant, target, r, sel.node)
    ensures var meta := RelationMeta(target, true);
            var raw := EvalEntry(s, db, target, r, ForceSel(relations, meta, sel, tenant));
            && !Foreign(raw, tenant)
            && Strip(Scrub(relations, target, raw, tenant), ForcedBelow(relations, meta, sel))
               == EvalEntry(s, view, target, r, sel)
    decreases sel, 0, 0
  {
    var meta := RelationMeta(target, true);
    var forced := ForceSel(relations, meta, sel, tenant);
    var raw := EvalEntry(s, db, target, r, forced);
    hide EvalRow, ForceNode, Strip, Scrub, ForcedPaths;
    assert ValidRow(s, db, target, r);
    assert TENANT_ID !in RelationsFrom(s, target);
    if sel.Sub? {
      var below := ForceNode(relations, target, sel.node, tenant);
      assert Entries(forced.node) == Entries(below) && Scalars(r, forced.node) == Scalars(r, below);
      SameSelection(s, db, target, r, forced.node, below);
      ResultOwner(s, db, target, r, below);
      RowIsMirrored(s, relations, db, view, target, r, sel.node, tenant);
      assert ForcedBelow(relations, meta, sel) == ForcedPaths(relations, target, sel.node);
    } else {
      WholeRow(s, db, target, r, forced.node);
      PlainRow(relations, target, r, tenant);
    }
  }

  /** A to-one target to whose selection `tenantId` was added: it tells whose it is, and is stripped of it again. */
  lemma AddedEntry(s: Schema, relations: RelationMap, db: Database, target: Name, c: Row, below: Node, paths: set<Path>,
                   tenant: Tenant)
    requires LacksTenant(below) && !below.incl.Fields? && At(c.cols, TENANT_ID).Str?
    requires TENANT_ID !in RelationsFrom(s, target) && TENANT_ID !in Relations(relations, target)
    requires Tails(paths, TENANT_ID) == {}
    ensures var raw := EvalRow(s, db, target, c, AddTenant(below));
            && (Foreign(raw, tenant) <==> !OwnedBy(c, tenant))
            && DropTenant(Strip(Scrub(relations, target, raw, tenant), paths + {[]}))
               == Strip(Scrub(relations, target, EvalRow(s, db, target, c, below), tenant), paths)
  {
    hide EvalRow, Strip, Scrub, DropTenant, AddTenant, LacksTenant;
    var raw := EvalRow(s, db, target, c, AddTenant(below));
    RowFields(s, db, target, c, below);
    AddTenantEval(s, db, target, c, below);
    EmptyPathStripsNothing(Scrub(relations, target, raw, tenant), paths);
    ExtraTenant(relations, target, EvalRow(s, db, target, c, below).fields, c.cols[TENANT_ID], paths, tenant);
  }

  /** The target of a to-one relation: withheld if it is another tenant's, and otherwise what the view shows. */
  lemma {:induction false} EntryIsMirrored(s: Schema, relations: RelationMap, db: Database, view: Database,
                                          target: Name, c: Row, sel: Sel, tenant: Tenant)
    requires WellFormed(s) && Sees(relations, s) && ValidDb(s, db)
    requires target in s.owned && sel != Off && c in Table(db, target)
    requires sel.Sub? ==> Accepted(s, target, sel.node)
    requires sel.Sub? && OwnedBy(c, tenant) ==> Mirrors(s, db, view, tenant, target, c, sel.node)
    ensures var meta := RelationMeta(target, false);
            var raw := EvalEntry(s, db, target, c, ForceSel(relations, meta, sel, tenant));
            var below := Strip(ScrubField(relations, meta, raw, tenant), ForcedBelow(relations, meta, sel));
            (if [] in ForcedBelow(relations, meta, sel) then DropTenant(below) else below)
            == if OwnedBy(c, tenant) then EvalEntry(s, view, target, c, sel) else Null
    decreases sel, 0
  {
    var meta := RelationMeta(target, false);
    var forced, paths := ForceSel(relations, meta, sel, tenant), ForcedBelow(relations, meta, sel);
    var raw := EvalEntry(s, db, target, c, forced);
    hide EvalRow, ForceNode, Strip, Scrub, ForcedPaths;
    StripNil(paths);
    assert ValidRow(s, db, target, c) && TENANT_ID in c.cols;
    assert TENANT_ID !in RelationsFrom(s, target) && TENANT_ID !in Relations(relations, target);
    hide WellFormed, Sees, ValidDb, ValidRow, Accepted, Mirrors, Table;
    if sel.Sub? {
      var node := sel.node;
      var below := ForceNode(relations, target, node, tenant);
      ForcedEntries(relations, target, node, tenant);
      RowFields(s, db, target, c, below);
      assert LacksTenant(below) <==> LacksTenant(node);
      NoEmptyPath(relations, target, node);
      ForcedTails(relations, target, node, TENANT_ID);
      if OwnedBy(c, tenant) { RowIsMirrored(s, relations, db, view, target, c, node, tenant); }
      if LacksTenant(node) {
        assert paths == ForcedPaths(relations, target, node) + {[]};
        AddedEntry(s, relations, db, target, c, below, ForcedPaths(relations, target, node), tenant);
      } else {
        assert paths == ForcedPaths(relations, target, node);
        ResultOwner(s, db, target, c, below);
      }
      assert Foreign(raw, tenant) <==> !OwnedBy(c, tenant);
    } else {
      PlainRow(relations, target, c, tenant);
    }
  }
}
