/** Putting the tenant into an operation's arguments, and deciding whether to. */
module TenantInject {
  import opened Values
  import opened Queries
  import opened ForceTenant

  datatype Op =
    | FindUnique | FindUniqueOrThrow | FindFirst | FindFirstOrThrow | FindMany
    | Count | Aggregate | GroupBy
    | Create | CreateMany | CreateManyAndReturn
    | Update | UpdateMany | Upsert | Delete | DeleteMany
    | Other

  const RELATION_SCOPED_OPS: set<Op> := {FindUnique, FindUniqueOrThrow, FindFirst, FindFirstOrThrow, FindMany}
  const READ_SCOPED_OPS: set<Op> := RELATION_SCOPED_OPS + {Count, Aggregate, GroupBy}
  const WHERE_SCOPED_WRITE_OPS: set<Op> := {Update, UpdateMany, Upsert, Delete, DeleteMany}

  type Columns = map<Name, Json>

  /** A payload: nothing, one row's columns, or a list of rows. */
  datatype Data = NoData | One(cols: Columns) | Many(rows: seq<Columns>)

  /** With `override` the context's tenant wins; without it a tenant is only filled in where none is given. */
  function ApplyTenant(cols: Columns, tenant: Tenant, override: bool): Columns {
    if override then cols[TENANT_ID := Str(tenant)] else map[TENANT_ID := Str(tenant)] + cols
  }

  function ApplyToRows(rows: seq<Columns>, tenant: Tenant, override: bool): seq<Columns> {
    seq(|rows|, i requires 0 <= i < |rows| => ApplyTenant(rows[i], tenant, override))
  }

  function ApplyToData(data: Data, tenant: Tenant, override: bool): Data {
    match data
    case NoData => NoData
    case One(cols) => One(ApplyTenant(cols, tenant, override))
    case Many(rows) => Many(ApplyToRows(rows, tenant, override))
  }

  /** The arguments of an operation on one model. */
  datatype Query = Query(where: Option<Where>, data: Data, create: Data, update: Data)

  /** Which payloads are stamped: inserts always, updates only where the context overrides. */
  function Stamped(op: Op, q: Query, tenant: Tenant, override: bool): Query {
    if op in {Create, CreateMany, CreateManyAndReturn} then q.(data := ApplyToData(q.data, tenant, override))
    else if op in {Update, UpdateMany} && override then q.(data := ApplyToData(q.data, tenant, true))
    else if op == Upsert then
      q.(create := ApplyToData(q.create, tenant, override),
         update := if override then ApplyToData(q.update, tenant, true) else q.update)
    else q
  }

  function Scoped(op: Op, q: Query, tenant: Tenant): Query {
    Stamped(op,
            if op in READ_SCOPED_OPS + WHERE_SCOPED_WRITE_OPS then q.(where := PinTenant(q.where, tenant)) else q,
            tenant, true)
  }

  // ---- what the caller can rely on, whatever the stamping does ----

  const INSERTS: set<Op> := {Create, CreateMany, CreateManyAndReturn}

  /** A payload row as it was, but for its tenant. */
  predicate SameButTenant(was: Columns, now: Columns) {
    now - {TENANT_ID} == was - {TENANT_ID}
  }

  predicate SameRows(was: Data, now: Data) {
    match was
    case NoData => now.NoData?
    case One(cols) => now.One? && SameButTenant(cols, now.cols)
    case Many(rows) => now.Many? && |now.rows| == |rows| && forall i :: 0 <= i < |rows| ==> SameButTenant(rows[i], now.rows[i])
  }

  /** Every row of the payload names the tenant. */
  predicate NamesTenant(data: Data, tenant: Tenant) {
    match data
    case NoData => true
    case One(cols) => TENANT_ID in cols && cols[TENANT_ID] == Str(tenant)
    case Many(rows) => forall r :: r in rows ==> TENANT_ID in r && r[TENANT_ID] == Str(tenant)
  }

  /** A row keeps the tenant it names, and is given this one where it names none. */
  predicate FilledIn(was: Columns, now: Columns, tenant: Tenant) {
    && SameButTenant(was, now)
    && TENANT_ID in now && now[TENANT_ID] == if TENANT_ID in was then was[TENANT_ID] else Str(tenant)
  }

  predicate RowsFilledIn(was: Data, now: Data, tenant: Tenant) {
    match was
    case NoData => now.NoData?
    case One(cols) => now.One? && FilledIn(cols, now.cols, tenant)
    case Many(rows) => now.Many? && |now.rows| == |rows| && forall i :: 0 <= i < |rows| ==> FilledIn(rows[i], now.rows[i], tenant)
  }

  lemma AppliedRow(cols: Columns, tenant: Tenant)
    ensures SameButTenant(cols, ApplyTenant(cols, tenant, true)) && FilledIn(cols, ApplyTenant(cols, tenant, false), tenant)
    ensures ApplyTenant(cols, tenant, true)[TENANT_ID] == Str(tenant)
  {
    assert cols[TENANT_ID := Str(tenant)] - {TENANT_ID} == cols - {TENANT_ID};
    assert (map[TENANT_ID := Str(tenant)] + cols) - {TENANT_ID} == cols - {TENANT_ID};
  }

  lemma AppliedData(data: Data, tenant: Tenant)
    ensures SameRows(data, ApplyToData(data, tenant, true)) && NamesTenant(ApplyToData(data, tenant, true), tenant)
    ensures RowsFilledIn(data, ApplyToData(data, tenant, false), tenant)
  {
    match data
    case NoData =>
    case One(cols) => AppliedRow(cols, tenant);
    case Many(rows) => forall i | 0 <= i < |rows| { AppliedRow(rows[i], tenant); }
  }

  lemma UntouchedData(data: Data)
    ensures SameRows(data, data)
  {
  }

  /** A scoped operation reaches, among the tenant's rows, exactly those the caller's own filter admits. */
  lemma ScopedKeepsTheFilter(op: Op, q: Query, tenant: Tenant, cols: Columns)
    ensures op !in INSERTS + {Other} ==>
              (Admits(Scoped(op, q, tenant).where, cols)
               <==> Admits(WithoutTenant(q.where), cols) && At(cols, TENANT_ID) == Str(tenant))
    ensures op in INSERTS + {Other} ==> Scoped(op, q, tenant).where == q.where
  {
    PinAdmits(q.where, tenant, cols);
    hide Admits, PinTenant, WithoutTenant, ApplyToData;
  }

  /** A scoped operation changes a payload in nothing but its tenant, which every row it writes names. */
  lemma ScopedKeepsThePayload(op: Op, q: Query, tenant: Tenant)
    ensures var scoped := Scoped(op, q, tenant);
            && SameRows(q.data, scoped.data) && SameRows(q.create, scoped.create) && SameRows(q.update, scoped.update)
            && (op in INSERTS + {Update, UpdateMany} ==> NamesTenant(scoped.data, tenant))
            && (op == Upsert ==> NamesTenant(scoped.create, tenant) && NamesTenant(scoped.update, tenant))
  {
    AppliedData(q.data, tenant);
    AppliedData(q.create, tenant);
    AppliedData(q.update, tenant);
    UntouchedData(q.data);
    UntouchedData(q.create);
    UntouchedData(q.update);
    hide PinTenant, SameRows, NamesTenant, RowsFilledIn, ApplyToData;
  }

  /** A bypassed operation keeps filter and updates as they are, and fills the tenant into inserts only. */
  lemma BypassKeepsTheRest(op: Op, q: Query, tenant: Tenant)
    ensures var stamped := Stamped(op, q, tenant, false);
            && stamped.where == q.where && stamped.update == q.update
            && (if op in INSERTS then RowsFilledIn(q.data, stamped.data, tenant) else stamped.data == q.data)
            && (if op == Upsert then RowsFilledIn(q.create, stamped.create, tenant) else stamped.create == q.create)
  {
    AppliedData(q.data, tenant);
    AppliedData(q.create, tenant);
    hide RowsFilledIn, ApplyToData;
  }

  class Args {
    var where: Option<Where>
    var data: Data
    var create: Data
    var update: Data

    function Contents(): Query
      reads this
    {
      Query(where, data, create, update)
    }

    /** Only the list form of a bulk insert is a list of rows. */
    predicate Typed(op: Op)
      reads this
    {
      && (data.Many? ==> op in {CreateMany, CreateManyAndReturn})
      && !create.Many? && !update.Many?
    }

    method StampTenantWrite(op: Op, tenant: Tenant, override: bool)
      requires Typed(op)
      modifies this
      ensures Contents() == Stamped(op, old(Contents()), tenant, override)
    {
      var stampUpdates := override;
      match op
      case Create =>
        data := ApplyToData(data, tenant, override);
      case Update | UpdateMany =>
        if stampUpdates { data := ApplyToData(data, tenant, override); }
      case CreateMany | CreateManyAndReturn =>
        if data.Many? {
          data := Many(ApplyToRows(data.rows, tenant, override));
        } else {
          data := ApplyToData(data, tenant, override);
        }
      case Upsert =>
        create := ApplyToData(create, tenant, override);
        if stampUpdates { update := ApplyToData(update, tenant, override); }
      case _ =>
    }

    method ApplyScopedTenant(op: Op, tenant: Tenant)
      requires Typed(op)
      modifies this
      ensures Contents() == Scoped(op, old(Contents()), tenant)
      // the filter: the caller's own, among the tenant's rows
      ensures op !in INSERTS + {Other} ==>
                forall cols :: Admits(where, cols)
                  <==> Admits(WithoutTenant(old(where)), cols) && At(cols, TENANT_ID) == Str(tenant)
      ensures op in INSERTS + {Other} ==> where == old(where)
      // the payloads: the caller's own, with the tenant in those that are written
      ensures SameRows(old(data), data) && SameRows(old(create), create) && SameRows(old(update), update)
      ensures op in INSERTS + {Update, UpdateMany} ==> NamesTenant(data, tenant)
      ensures op == Upsert ==> NamesTenant(create, tenant) && NamesTenant(update, tenant)
    {
      ghost var given := Contents();
      forall cols: Columns { ScopedKeepsTheFilter(op, given, tenant, cols); }
      ScopedKeepsTheFilter(op, given, tenant, map[]);
      ScopedKeepsThePayload(op, given, tenant);
      if op in READ_SCOPED_OPS || op in WHERE_SCOPED_WRITE_OPS {
        where := PinTenant(where, tenant);
      }
      StampTenantWrite(op, tenant, true);
    }

    method ApplyBypassTenant(op: Op, tenant: Tenant)
      requires Typed(op)
      modifies this
      ensures Contents() == Stamped(op, old(Contents()), tenant, false)
      ensures where == old(where) && update == old(update)
      ensures if op in INSERTS then RowsFilledIn(old(data), data, tenant) else data == old(data)
      ensures if op == Upsert then RowsFilledIn(old(create), create, tenant) else create == old(create)
    {
      BypassKeepsTheRest(op, Contents(), tenant);
      StampTenantWrite(op, tenant, false);
    }
  }

  // ---- which way an operation goes ----

  datatype Context = Context(tenantId: Tenant, bypassRls: bool)

  /** What an operation comes with: the ambient context, the tenant of the signed-in user, which is read only
      without an ambient context, and whether this is a script or not production. */
  datatype Caller = Caller(store: Option<Context>, session: Option<Tenant>, isLocalOrScript: bool)

  datatype Route = Denied | Bypassed(known: Option<Tenant>) | ScopedTo(tenant: Tenant)

  /** The tenant a caller acts for; an empty id counts as none. */
  function TenantOf(c: Caller): Option<Tenant> {
    var t := if c.store.Some? then Some(c.store.value.tenantId) else c.session;
    if Given(t) then t else None
  }

  predicate AsksBypass(c: Caller) {
    c.store.Some? && c.store.value.bypassRls
  }

  function RouteOf(c: Caller): Route {
    match TenantOf(c)
    case Some(t) => if AsksBypass(c) then Bypassed(Some(t)) else ScopedTo(t)
    case None => if c.isLocalOrScript then Bypassed(None) else Denied
  }

  /** The route on the caller's own fields. With an ambient context only that counts: its tenant, bypassed if the
      flag says so and scoped otherwise. Without one the session's tenant is scoped. Without a tenant a script or a
      developer passes and everybody else is refused. */
  predicate IsRoute(c: Caller, route: Route) {
    match c.store
    case Some(context) =>
      if context.tenantId != "" then
        if context.bypassRls then route == Bypassed(Some(context.tenantId)) else route == ScopedTo(context.tenantId)
      else if c.isLocalOrScript then route == Bypassed(None)
      else route == Denied
    case None =>
      if c.session.Some? && c.session.value != "" then route == ScopedTo(c.session.value)
      else if c.isLocalOrScript then route == Bypassed(None)
      else route == Denied
  }

  lemma RouteTable(c: Caller, route: Route)
    ensures IsRoute(c, route) <==> route == RouteOf(c)
  {
  }

  method Resolve(c: Caller) returns (route: Route)
    ensures IsRoute(c, route) && route == RouteOf(c)
    // refused exactly without a tenant in production
    ensures route.Denied? <==> TenantOf(c) == None && !c.isLocalOrScript
    // scoped exactly with a tenant and no bypass asked for, and then to the caller's own tenant
    ensures route.ScopedTo? <==> TenantOf(c).Some? && !AsksBypass(c)
    ensures route.ScopedTo? ==> Some(route.tenant) == TenantOf(c)
    ensures route.Bypassed? ==> route.known == TenantOf(c)
  {
    var tenantId := if c.store.Some? then Some(c.store.value.tenantId) else None;
    var bypassRls := c.store.Some? && c.store.value.bypassRls;
    if c.store == None { tenantId := c.session; }
    if tenantId == Some("") { tenantId := None; }
    if tenantId == None && c.isLocalOrScript { bypassRls := true; }
    if bypassRls || tenantId == None {
      if tenantId == None && !c.isLocalOrScript { return Denied; }
      return Bypassed(tenantId);
    }
    return ScopedTo(tenantId.value);
  }

  /** In production a caller reaches past its own tenant only by asking for it: bypassed means an ambient
      context with the flag and a tenant; a session alone is scoped to its user's tenant or refused. */
  lemma BypassIsAsked(c: Caller)
    requires !c.isLocalOrScript
    ensures RouteOf(c).Bypassed? <==> c.store.Some? && c.store.value.bypassRls && c.store.value.tenantId != ""
    ensures c.store == None ==>
              RouteOf(c) == if c.session.Some? && c.session.value != "" then ScopedTo(c.session.value) else Denied
  {
  }
}
