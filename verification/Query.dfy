/** Query arguments: the `where`, `take`, `include` and `select` of a find, nested to any depth. */
module Queries {
  import opened Values

  datatype Cond = Equals(v: Json) | Differs(v: Json) | OneOf(vs: seq<Json>)

  /** A filter on a row's own columns; its keys and its `AND`, `OR` and `NOT` clauses all have to hold. */
  datatype Where = Where(cols: map<Name, Cond>, clauses: seq<Clause>)
  datatype Clause = All(ws: seq<Where>) | AnyOf(ws: seq<Where>) | NoneOf(ws: seq<Where>)

  /** One value of an `include` or `select` object. `Off` is `false`, `null` or `undefined`. */
  datatype Sel = On | Off | Sub(node: Node)
  datatype Selection = NoSelection | Fields(entries: map<Name, Sel>)
  datatype Node = Node(where: Option<Where>, take: Option<nat>, incl: Selection, sel: Selection)

  /** An `include` shadows a `select`. */
  function SelectionOf(node: Node): Selection {
    if node.incl.Fields? then node.incl else node.sel
  }

  function Entries(node: Node): map<Name, Sel> {
    match SelectionOf(node)
    case Fields(entries) => entries
    case NoSelection => map[]
  }

  function TenantOnly(tenant: Tenant): Where {
    Where(map[TENANT_ID := Equals(Str(tenant))], [])
  }

  predicate CondHolds(c: Cond, v: Json) {
    match c
    case Equals(w) => v == w
    case Differs(w) => v != w
    case OneOf(ws) => v in ws
  }

  predicate Matches(w: Where, cols: map<Name, Json>) {
    && (forall k :: k in w.cols ==> CondHolds(w.cols[k], At(cols, k)))
    && forall c :: c in w.clauses ==> ClauseHolds(c, cols)
  }

  predicate ClauseHolds(c: Clause, cols: map<Name, Json>) {
    match c
    case All(ws) => forall w :: w in ws ==> Matches(w, cols)
    case AnyOf(ws) => exists w :: w in ws && Matches(w, cols)
    case NoneOf(ws) => forall w :: w in ws ==> !Matches(w, cols)
  }

  predicate Admits(w: Option<Where>, cols: map<Name, Json>) {
    w.Some? ==> Matches(w.value, cols)
  }
}

/** What the tenant layer does to a query before it runs. */
module ForceTenant {
  import opened Values
  import opened Schemas
  import opened Queries

  /** Top level: the tenant's condition is spread last, so it replaces one the caller gave. */
  function PinTenant(where: Option<Where>, tenant: Tenant): Option<Where> {
    var given := if where.Some? then where.value else Where(map[], []);
    Some(given.(cols := given.cols[TENANT_ID := Equals(Str(tenant))]))
  }

  /** A filter without the tenant its top level may name. */
  function WithoutTenant(where: Option<Where>): Option<Where> {
    if where.Some? then Some(where.value.(cols := where.value.cols - {TENANT_ID})) else None
  }

  /** Dropping the tenant drops that one key: every other key and every clause still has to hold. */
  lemma WithoutTenantAdmits(where: Option<Where>, cols: map<Name, Json>)
    ensures Admits(WithoutTenant(where), cols)
            <==> (where.Some? ==>
                    && (forall k :: k in where.value.cols && k != "tenantId" ==> CondHolds(where.value.cols[k], At(cols, k)))
                    && forall c :: c in where.value.clauses ==> ClauseHolds(c, cols))
  {
    if where.Some? {
      var rest := WithoutTenant(where).value;
      assert forall k :: k in rest.cols <==> k in where.value.cols && k != "tenantId";
      assert forall k :: k in rest.cols ==> rest.cols[k] == where.value.cols[k];
      assert rest.clauses == where.value.clauses;
    }
  }

  /** The pinned filter admits what the caller's own filter admits among the tenant's rows, and nothing else. */
  lemma PinAdmits(where: Option<Where>, tenant: Tenant, cols: map<Name, Json>)
    ensures Admits(PinTenant(where, tenant), cols)
            <==> Admits(WithoutTenant(where), cols) && At(cols, TENANT_ID) == Str(tenant)
  {
    var pinned := PinTenant(where, tenant).value;
    assert TENANT_ID in pinned.cols;
    if where.Some? {
      var rest := WithoutTenant(where).value;
      assert forall k :: k in pinned.cols <==> k == TENANT_ID || k in rest.cols;
      assert forall k :: k in rest.cols ==> rest.cols[k] == pinned.cols[k];
      assert pinned.clauses == rest.clauses;
    } else {
      assert forall k :: k in pinned.cols <==> k == TENANT_ID;
    }
  }

  /** List relations: the tenant's condition is conjoined with the caller's filter. */
  function NarrowWhere(where: Option<Where>, tenant: Tenant): Option<Where> {
    match where
    case Some(existing) => Some(Where(map[], [All([existing, TenantOnly(tenant)])]))
    case None => Some(TenantOnly(tenant))
  }

  predicate LacksTenant(node: Node) {
    node.sel.Fields? && !(TENANT_ID in node.sel.entries && node.sel.entries[TENANT_ID] == On)
  }

  function AddTenant(node: Node): Node {
    if LacksTenant(node) then node.(sel := Fields(node.sel.entries[TENANT_ID := On])) else node
  }

  const BARE: Node := Node(None, None, NoSelection, NoSelection)

  function ForceNode(relations: RelationMap, model: Name, node: Node, tenant: Tenant): Node
    decreases node
  {
    var here := Relations(relations, model);
    match node.incl
    case Fields(entries) =>
      node.(incl := Fields(map k | k in entries ::
                             if k in here then ForceSel(relations, here[k], entries[k], tenant) else entries[k]))
    case NoSelection =>
      match node.sel
      case Fields(entries) =>
        node.(sel := Fields(map k | k in entries ::
                              if k in here then ForceSel(relations, here[k], entries[k], tenant) else entries[k]))
      case NoSelection => node
  }

  function ForceSel(relations: RelationMap, meta: RelationMeta, sel: Sel, tenant: Tenant): Sel
    decreases sel
  {
    match sel
    case Off => sel
    case On => if meta.isList then Sub(BARE.(where := NarrowWhere(None, tenant))) else sel
    case Sub(node) =>
      var below := ForceNode(relations, meta.target, node, tenant);
      Sub(if meta.isList then below.(where := NarrowWhere(node.where, tenant)) else AddTenant(below))
  }

  /** The paths at which a `tenantId` was added. */
  function ForcedPaths(relations: RelationMap, model: Name, node: Node): set<Path>
    decreases node
  {
    var entries, here := Entries(node), Relations(relations, model);
    set k, p | k in entries && k in here && p in ForcedBelow(relations, here[k], entries[k]) :: [k] + p
  }

  /** The forced paths from a relation on; the empty path stands for the relation itself. */
  function ForcedBelow(relations: RelationMap, meta: RelationMeta, sel: Sel): set<Path>
    decreases sel
  {
    match sel
    case Sub(node) =>
      (if !meta.isList && LacksTenant(node) then {[]} else {}) + ForcedPaths(relations, meta.target, node)
    case _ => {}
  }
}
