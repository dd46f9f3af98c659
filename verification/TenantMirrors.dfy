/** Three ways in which a database mirrors, for a tenant's query, what the tenant may see of another. */
module TenantMirrors {
  import opened Values
  import opened Queries
  import opened Databases
  import opened TenantReads
  import opened TenantRefinement

  const ID: Name := "id"

  /** A model without `tenantId` from which a query can step to one that has it. */
  predicate IsHub(s: Schema, model: Name) {
    model !in s.owned && exists k :: k in RelationsFrom(s, model) && RelationsFrom(s, model)[k].target in s.owned
  }

  /** Hubs are the tenants themselves: they are entered from tenant-owned models only, by joining the row's
      `tenantId` to the hub's `id`, and left for them by joining the same columns back. */
  predicate KeyedByTenant(s: Schema) {
    forall m, k :: m in s.relations && k in s.relations[m] ==>
      && (IsHub(s, s.relations[m][k].target) ==> m in s.owned && (TENANT_ID, ID) in s.relations[m][k].on)
      && (IsHub(s, m) && s.relations[m][k].target in s.owned ==> (ID, TENANT_ID) in s.relations[m][k].on)
  }

  /** What keeps a find inside the tenant's part: its own shape, or else the keys of the schema and the data. */
  predicate Contained(s: Schema, db: Database, model: Name, node: Node, tenant: Tenant) {
    Covered(s, model, node) || (KeyedByTenant(s) && NoCrossing(s, db, tenant))
  }

  // ---- a covered query, on the private database ----

  lemma {:induction false} CoveredMirrors(s: Schema, db: Database, tenant: Tenant, model: Name, row: Row, node: Node)
    requires Covered(s, model, node)
    ensures Mirrors(s, db, Private(s, db, tenant), tenant, model, row, node)
    decreases node
  {
    var private := Private(s, db, tenant);
    hide Private, EvalRelation;
    forall k | k in Followed(s, model, node)
      ensures MirrorsBelow(s, db, private, tenant, RelationsFrom(s, model)[k], row, Entries(node)[k])
    {
      var rel, sel := RelationsFrom(s, model)[k], Entries(node)[k];
      PrivateJoin(s, db, rel, row, tenant);
      if rel.target in s.owned {
        if sel.Sub? {
          forall r ensures Mirrors(s, db, private, tenant, rel.target, r, sel.node) {
            CoveredMirrors(s, db, tenant, rel.target, r, sel.node);
          }
        }
      } else {
        SealedRelation(s, db, rel, row, sel, tenant);
      }
    }
  }

  // ---- any query, on the database itself, where no foreign key crosses ----

  lemma NothingCrosses(s: Schema, db: Database, tenant: Tenant, model: Name, row: Row, k: Name)
    requires NoCrossing(s, db, tenant) && model in s.owned && row in Table(db, model) && OwnedBy(row, tenant)
    requires k in RelationsFrom(s, model) && RelationsFrom(s, model)[k].target in s.owned
    ensures var rel := RelationsFrom(s, model)[k];
            && OwnRows(Joined(db, rel, row), tenant) == Joined(db, rel, row)
            && forall r :: r in Joined(db, rel, row) ==> r in Table(db, rel.target) && OwnedBy(r, tenant)
  {
    var rel := RelationsFrom(s, model)[k];
    JoinedRows(db, rel, row);
    FilterAll((r: Row) => OwnedBy(r, tenant), Joined(db, rel, row));
  }

  lemma {:induction false} UncrossedMirrors(s: Schema, db: Database, tenant: Tenant, model: Name, row: Row, node: Node)
    requires NoCrossing(s, db, tenant)
    requires model in s.owned && row in Table(db, model) && OwnedBy(row, tenant)
    ensures Mirrors(s, db, db, tenant, model, row, node)
    decreases node
  {
    hide EvalRelation, NoCrossing, Joined;
    forall k | k in Followed(s, model, node)
      ensures MirrorsBelow(s, db, db, tenant, RelationsFrom(s, model)[k], row, Entries(node)[k])
    {
      var rel, sel := RelationsFrom(s, model)[k], Entries(node)[k];
      if rel.target in s.owned {
        NothingCrosses(s, db, tenant, model, row, k);
        if sel.Sub? {
          forall r | r in Joined(db, rel, row) ensures Mirrors(s, db, db, tenant, rel.target, r, sel.node) {
            UncrossedMirrors(s, db, tenant, rel.target, r, sel.node);
          }
        }
      }
    }
  }

  // ---- any query, on the private database, where hubs are keyed and no foreign key crosses ----

  /** Behind a model that is neither owned nor a hub, a query stays away from tenant-owned models. */
  lemma {:induction false} OutsideIsSealed(s: Schema, model: Name, node: Node)
    requires KeyedByTenant(s) && model !in s.owned && !IsHub(s, model)
    ensures Sealed(s, model, node)
    decreases node
  {
    forall k | k in Followed(s, model, node)
      ensures var rel, sel := RelationsFrom(s, model)[k], Entries(node)[k];
              rel.target !in s.owned && (sel.Sub? ==> Sealed(s, rel.target, sel.node))
    {
      var sel := Entries(node)[k];
      if sel.Sub? { OutsideIsSealed(s, RelationsFrom(s, model)[k].target, sel.node); }
    }
  }

  /** A row of the tenant's, or the tenant itself. */
  predicate IsTenants(s: Schema, db: Database, model: Name, row: Row, tenant: Tenant) {
    if model in s.owned then row in Table(db, model) && OwnedBy(row, tenant)
    else IsHub(s, model) && At(row.cols, ID) == Str(tenant)
  }

  /** From such a row, relations to owned models and to hubs lead to such rows only. */
  lemma StaysTenants(s: Schema, db: Database, model: Name, row: Row, k: Name, tenant: Tenant)
    requires KeyedByTenant(s) && NoCrossing(s, db, tenant) && IsTenants(s, db, model, row, tenant)
    requires k in RelationsFrom(s, model)
    ensures var rel := RelationsFrom(s, model)[k];
            rel.target in s.owned || IsHub(s, rel.target) ==>
              forall r :: r in Joined(db, rel, row) ==> IsTenants(s, db, rel.target, r, tenant)
  {
    var rel := RelationsFrom(s, model)[k];
    JoinedRows(db, rel, row);
    FilterMembers((r: Row) => Joins(rel.on, row, r), Table(db, rel.target));
    forall r | (rel.target in s.owned || IsHub(s, rel.target)) && r in Joined(db, rel, row)
      ensures IsTenants(s, db, rel.target, r, tenant)
    {
      assert Joins(rel.on, row, r);
      if rel.target !in s.owned {
        assert (TENANT_ID, ID) in rel.on;
      } else if model !in s.owned {
        assert (ID, TENANT_ID) in rel.on;
      }
    }
  }

  lemma InFollowed(s: Schema, model: Name, node: Node, k: Name)
    requires k in Followed(s, model, node)
    ensures k in RelationsFrom(s, model) && k in Entries(node) && Followed(s, model, node)[k] == Entries(node)[k] != Off
    ensures Entries(node)[k] < node
  {
  }

  lemma {:induction false} TenantsRow(s: Schema, db: Database, model: Name, row: Row, node: Node, tenant: Tenant)
    requires KeyedByTenant(s) && NoCrossing(s, db, tenant) && IsTenants(s, db, model, row, tenant)
    ensures EvalRow(s, db, model, row, node) == EvalRow(s, Private(s, db, tenant), model, row, node)
    decreases node
  {
    var private := Private(s, db, tenant);
    RowFields(s, db, model, row, node);
    RowFields(s, private, model, row, node);
    hide EvalRow, EvalRelation, Private, KeyedByTenant, NoCrossing, IsTenants, Scalars, Followed;
    forall k | k in Followed(s, model, node)
      ensures EvalRow(s, db, model, row, node).fields[k] == EvalRow(s, private, model, row, node).fields[k]
    {
      InFollowed(s, model, node, k);
      TenantsRelation(s, db, model, row, k, Entries(node)[k], tenant);
    }
    assert EvalRow(s, db, model, row, node).fields == EvalRow(s, private, model, row, node).fields;
  }

  /** A relation reads the same where it joins the same rows and each of them reads the same. */
  lemma SameJoin(s: Schema, db: Database, view: Database, rel: Relation, row: Row, sel: Sel)
    requires Joined(view, rel, row) == Joined(db, rel, row)
    requires forall r :: r in Joined(db, rel, row) ==>
               EvalEntry(s, db, rel.target, r, sel) == EvalEntry(s, view, rel.target, r, sel)
    ensures EvalRelation(s, db, rel, row, sel) == EvalRelation(s, view, rel, row, sel)
  {
    hide EvalEntry, Joined;
    var joined := Joined(db, rel, row);
    if rel.isList {
      var rows := if sel.Sub? then Window(joined, sel.node.where, sel.node.take) else joined;
      if sel.Sub? { WindowRows(joined, sel.node.where, sel.node.take); }
      assert forall i :: 0 <= i < |rows| ==> rows[i] in rows;
      assert EvalEntries(s, db, rel.target, rows, sel) == EvalEntries(s, view, rel.target, rows, sel);
    }
  }

  lemma {:induction false} TenantsRelation(s: Schema, db: Database, model: Name, row: Row, k: Name, sel: Sel, tenant: Tenant)
    requires KeyedByTenant(s) && NoCrossing(s, db, tenant) && IsTenants(s, db, model, row, tenant)
    requires k in RelationsFrom(s, model)
    ensures var rel := RelationsFrom(s, model)[k];
            EvalRelation(s, db, rel, row, sel) == EvalRelation(s, Private(s, db, tenant), rel, row, sel)
    decreases sel
  {
    var rel, private := RelationsFrom(s, model)[k], Private(s, db, tenant);
    if rel.target in s.owned || IsHub(s, rel.target) {
      StaysTenants(s, db, model, row, k, tenant);
      PrivateJoin(s, db, rel, row, tenant);
      var joined := Joined(db, rel, row);
      if rel.target in s.owned { FilterAll((r: Row) => OwnedBy(r, tenant), joined); }
      assert Joined(private, rel, row) == joined;
      forall r | r in joined ensures EvalEntry(s, db, rel.target, r, sel) == EvalEntry(s, private, rel.target, r, sel) {
        if sel.Sub? { TenantsRow(s, db, rel.target, r, sel.node, tenant); }
      }
      SameJoin(s, db, private, rel, row, sel);
    } else {
      if sel.Sub? { OutsideIsSealed(s, rel.target, sel.node); }
      SealedRelation(s, db, rel, row, sel, tenant);
    }
  }

  lemma {:induction false} KeyedMirrors(s: Schema, db: Database, tenant: Tenant, model: Name, row: Row, node: Node)
    requires KeyedByTenant(s) && NoCrossing(s, db, tenant)
    requires model in s.owned ==> row in Table(db, model) && OwnedBy(row, tenant)
    ensures Mirrors(s, db, Private(s, db, tenant), tenant, model, row, node)
    decreases node
  {
    var private := Private(s, db, tenant);
    hide Private, EvalRelation, NoCrossing, Joined;
    forall k | k in Followed(s, model, node)
      ensures MirrorsBelow(s, db, private, tenant, RelationsFrom(s, model)[k], row, Entries(node)[k])
    {
      var rel, sel := RelationsFrom(s, model)[k], Entries(node)[k];
      PrivateJoin(s, db, rel, row, tenant);
      if rel.target in s.owned {
        if sel.Sub? {
          JoinedRows(db, rel, row);
          FilterMembers((r: Row) => OwnedBy(r, tenant), Joined(db, rel, row));
          forall r | r in Joined(private, rel, row) ensures Mirrors(s, db, private, tenant, rel.target, r, sel.node) {
            KeyedMirrors(s, db, tenant, rel.target, r, sel.node);
          }
        }
      } else if model in s.owned {
        TenantsRelation(s, db, model, row, k, sel, tenant);
      } else {
        if sel.Sub? { OutsideIsSealed(s, rel.target, sel.node); }
        SealedRelation(s, db, rel, row, sel, tenant);
      }
    }
  }

  /** Every row a contained find returns at the top is mirrored by the private database. */
  lemma ContainedMirrors(s: Schema, db: Database, tenant: Tenant, model: Name, row: Row, node: Node)
    requires Contained(s, db, model, node, tenant)
    requires model in s.owned ==> row in Table(db, model) && OwnedBy(row, tenant)
    ensures Mirrors(s, db, Private(s, db, tenant), tenant, model, row, node)
  {
    if Covered(s, model, node) {
      CoveredMirrors(s, db, tenant, model, row, node);
    } else {
      KeyedMirrors(s, db, tenant, model, row, node);
    }
  }
}
