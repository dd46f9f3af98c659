/** The exact conditions: when the tenant layer is invisible, and when it isolates. */
module TenantExactness {
  import opened Values
  import opened Schemas
  import opened Queries
  import opened ForceTenant
  import opened Databases
  import opened TenantReads
  import opened TenantRefinement
  import opened TenantMirrors
  import opened TenantIsolation

  lemma WrapKeepsAccepted(s: Schema, model: Name, node: Node, where: Option<Where>, tenant: Tenant)
    requires WellFormed(s) && Accepted(s, model, node)
    ensures Accepted(s, model, AddTenant(node))
    ensures Accepted(s, model, node.(where := NarrowWhere(where, tenant)))
  {
    var narrowed := node.(where := NarrowWhere(where, tenant));
    assert Entries(narrowed) == Entries(node);
    if LacksTenant(node) {
      var more := AddTenant(node);
      assert TENANT_ID in more.sel.entries && more.sel.entries[TENANT_ID] != Off;
      assert forall k :: k in Entries(more) && Entries(more)[k].Sub? ==> k in Entries(node) && Entries(more)[k] == Entries(node)[k];
    }
  }

  lemma ForceKeepsAccepted(s: Schema, relations: RelationMap, model: Name, node: Node, tenant: Tenant)
    requires WellFormed(s) && Sees(relations, s) && Accepted(s, model, node)
    ensures Accepted(s, model, ForceNode(relations, model, node, tenant))
    decreases node
  {
    var forced, here := ForceNode(relations, model, node, tenant), Relations(relations, model);
    ForcedEntries(relations, model, node, tenant);
    if node.sel.Fields? {
      var k :| k in node.sel.entries && node.sel.entries[k] != Off;
      assert k in forced.sel.entries && forced.sel.entries[k] != Off;
    }
    forall k | k in Entries(forced) && Entries(forced)[k].Sub?
      ensures k in RelationsFrom(s, model)
      ensures !RelationsFrom(s, model)[k].isList ==>
                Entries(forced)[k].node.where == None && Entries(forced)[k].node.take == None
      ensures Accepted(s, RelationsFrom(s, model)[k].target, Entries(forced)[k].node)
    {
      if k in here {
        var rel := RelationsFrom(s, model)[k];
        if Entries(node)[k].Sub? {
          var below := Entries(node)[k].node;
          ForceKeepsAccepted(s, relations, rel.target, below, tenant);
          WrapKeepsAccepted(s, rel.target, ForceNode(relations, rel.target, below, tenant), below.where, tenant);
          ForcedEntries(relations, rel.target, below, tenant);
        }
      }
    }
  }

  // ---- transparency ----

  /** Where no foreign key crosses, the layer adds nothing to top-level scoping and takes nothing away. */
  lemma Transparent(s: Schema, relations: RelationMap, db: Database, op: FindOp,
                    model: Name, node: Node, tenant: Tenant)
    requires WellFormed(s) && Sees(relations, s) && ValidDb(s, db)
    requires model in s.owned && Accepted(s, model, node)
    requires NoCrossing(s, db, tenant)
    ensures ScopedFind(s, relations, db, op, model, node, tenant)
            == RunFind(s, db, op, model, PinTop(s, model, node, tenant))
  {
    var pinned := PinTop(s, model, node, tenant);
    assert pinned == node.(where := pinned.where);
    forall r | r in Table(db, model) && Admits(pinned.where, r.cols) ensures Mirrors(s, db, db, tenant, model, r, node) {
      PinnedRow(s, model, node, tenant, r);
      UncrossedMirrors(s, db, tenant, model, r, node);
    }
    hide *;
    ScopedFindIsMirrored(s, relations, db, db, op, model, node, pinned.where, tenant);
  }

  lemma {:induction false} FilterDrops<T(!new)>(keep: T -> bool, rows: seq<T>, x: T)
    requires x in rows && !keep(x)
    ensures |Filter(keep, rows)| < |rows|
  {
    if x in rows[1..] {
      FilterDrops(keep, rows[1..], x);
    } else {
      assert rows == [rows[0]] + rows[1..];
    }
  }

  /** A relation that crosses reads differently when the foreign rows are not there. */
  lemma CrossedRelation(s: Schema, db: Database, rel: Relation, row: Row, t: Row, tenant: Tenant)
    requires rel.target in s.owned && t in Joined(db, rel, row) && !OwnedBy(t, tenant)
    requires !rel.isList ==> |Joined(db, rel, row)| <= 1
    ensures EvalRelation(s, db, rel, row, On) != EvalRelation(s, Private(s, db, tenant), rel, row, On)
  {
    PrivateJoin(s, db, rel, row, tenant);
    FilterDrops((r: Row) => OwnedBy(r, tenant), Joined(db, rel, row), t);
    hide Joined, Private;
  }

  /** So does a row that includes it, whatever the filter beside the selection. */
  lemma CrossedRow(s: Schema, db: Database, model: Name, row: Row, k: Name, t: Row, where: Option<Where>, tenant: Tenant)
    requires k in RelationsFrom(s, model) && RelationsFrom(s, model)[k].target in s.owned
    requires t in Joined(db, RelationsFrom(s, model)[k], row) && !OwnedBy(t, tenant)
    requires !RelationsFrom(s, model)[k].isList ==> |Joined(db, RelationsFrom(s, model)[k], row)| <= 1
    ensures var node := Node(None, None, Fields(map[k := On]), NoSelection);
            EvalRow(s, db, model, row, node.(where := where)) != EvalRow(s, Private(s, db, tenant), model, row, node)
  {
    var node := Node(None, None, Fields(map[k := On]), NoSelection);
    assert k in Followed(s, model, node) && k in Followed(s, model, node.(where := where));
    hide EvalRow, EvalRelation, Joined, Private, Scalars;
    CrossedRelation(s, db, RelationsFrom(s, model)[k], row, t, tenant);
    RowFields(s, db, model, row, node.(where := where));
    RowFields(s, Private(s, db, tenant), model, row, node);
  }

  /** The tenant's row is among those that the pinned query returns, at the same place on both databases. */
  lemma FoundAtTop(s: Schema, db: Database, model: Name, row: Row, node: Node, tenant: Tenant) returns (i: nat)
    requires model in s.owned && row in Table(db, model) && OwnedBy(row, tenant) && node.where == None
    ensures var rows := Window(Table(db, model), PinTop(s, model, node, tenant).where, None);
            && i < |rows| && rows[i] == row && rows == Window(Table(Private(s, db, tenant), model), None, None)
  {
    var pinned := PinTop(s, model, node, tenant);
    PinnedWindow(s, db, model, node, None, tenant);
    PinAdmits(None, tenant, row.cols);
    FilterMembers((r: Row) => Admits(pinned.where, r.cols), Table(db, model));
    var rows := Window(Table(db, model), pinned.where, None);
    assert row in rows;
    i :| 0 <= i < |rows| && rows[i] == row;
  }

  /** Two plain answers over the same rows differ where one of the rows does. */
  lemma AnswersDifferAt(s: Schema, db: Database, view: Database, model: Name, a: Node, b: Node, i: nat)
    requires a.take == b.take == None
    requires Window(Table(db, model), a.where, None) == Window(Table(view, model), b.where, None)
    requires var rows := Window(Table(db, model), a.where, None);
             i < |rows| && EvalRow(s, db, model, rows[i], a) != EvalRow(s, view, model, rows[i], b)
    ensures RunFind(s, db, FindMany, model, a) != RunFind(s, view, FindMany, model, b)
  {
    hide Window, EvalRow, Table;
    var rows := Window(Table(db, model), a.where, None);
    assert EvalEntries(s, db, model, rows, Sub(a))[i] != EvalEntries(s, view, model, rows, Sub(b))[i];
  }

  /** A crossing key is seen by the query that includes just that relation. */
  lemma CrossingShows(s: Schema, relations: RelationMap, db: Database,
                      model: Name, row: Row, k: Name, t: Row, tenant: Tenant)
    returns (node: Node)
    requires WellFormed(s) && Sees(relations, s) && ValidDb(s, db)
    requires model in s.owned && row in Table(db, model) && OwnedBy(row, tenant)
    requires k in RelationsFrom(s, model) && RelationsFrom(s, model)[k].target in s.owned
    requires t in Joined(db, RelationsFrom(s, model)[k], row) && !OwnedBy(t, tenant)
    ensures Accepted(s, model, node) && Covered(s, model, node)
    ensures ScopedFind(s, relations, db, FindMany, model, node, tenant)
            != RunFind(s, db, FindMany, model, PinTop(s, model, node, tenant))
  {
    node := Node(None, None, Fields(map[k := On]), NoSelection);
    var rel, private, pinned := RelationsFrom(s, model)[k], Private(s, db, tenant), PinTop(s, model, node, tenant);
    assert Accepted(s, model, node) && Covered(s, model, node) && Contained(s, db, model, node, tenant);
    assert ValidRow(s, db, model, row);
    assert !rel.isList ==> |Joined(db, rel, row)| <= 1;
    assert Unpinned(s, model, node) == node && pinned.take == None;
    assert pinned == node.(where := pinned.where);
    hide *;
    var i := FoundAtTop(s, db, model, row, node, tenant);
    ScopedFindIsPrivate(s, relations, db, FindMany, model, node, tenant);
    CrossedRow(s, db, model, row, k, t, pinned.where, tenant);
    AnswersDifferAt(s, db, private, model, pinned, node, i);
  }

  lemma Crossing(s: Schema, db: Database, tenant: Tenant) returns (m: Name, r: Row, k: Name, t: Row)
    requires !NoCrossing(s, db, tenant)
    ensures m in s.owned && r in Table(db, m) && OwnedBy(r, tenant)
    ensures k in RelationsFrom(s, m) && RelationsFrom(s, m)[k].target in s.owned
    ensures t in Joined(db, RelationsFrom(s, m)[k], r) && !OwnedBy(t, tenant)
  {
    m, r, k :| m in s.owned && r in Table(db, m) && OwnedBy(r, tenant)
               && k in RelationsFrom(s, m) && RelationsFrom(s, m)[k].target in s.owned
               && exists x :: x in Joined(db, RelationsFrom(s, m)[k], r) && !OwnedBy(x, tenant);
    t :| t in Joined(db, RelationsFrom(s, m)[k], r) && !OwnedBy(t, tenant);
  }

  /** The layer is invisible to every accepted find on an owned model if and only if none of the tenant's keys
      crosses. */
  lemma TransparentExactlyWhenUncrossed(s: Schema, relations: RelationMap, db: Database, tenant: Tenant)
    requires WellFormed(s) && Sees(relations, s) && ValidDb(s, db)
    ensures NoCrossing(s, db, tenant) <==>
            forall op, model, node :: model in s.owned && Accepted(s, model, node)
              ==> ScopedFind(s, relations, db, op, model, node, tenant)
                  == RunFind(s, db, op, model, PinTop(s, model, node, tenant))
  {
    if NoCrossing(s, db, tenant) {
      forall op, model, node | model in s.owned && Accepted(s, model, node)
        ensures ScopedFind(s, relations, db, op, model, node, tenant)
                == RunFind(s, db, op, model, PinTop(s, model, node, tenant))
      {
        Transparent(s, relations, db, op, model, node, tenant);
      }
    } else {
      var m, r, k, t := Crossing(s, db, tenant);
      hide *;
      var node := CrossingShows(s, relations, db, m, r, k, t, tenant);
    }
  }
}
