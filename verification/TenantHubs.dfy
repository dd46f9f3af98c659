/** Queries that leave the tenant-owned models through the tenant itself and come back. */
module TenantHubs {
  import opened Values
  import opened Schemas
  import opened Queries
  import opened Databases
  import opened TenantReads
  import opened TenantRefinement
  import opened TenantMirrors
  import opened TenantIsolation
  import opened TenantExactness
  import opened TenantReentry

  // ---- keys that carry the tenant cannot cross ----

  /** Every foreign key between tenant-owned models carries the tenant along. */
  predicate CompositeKeys(s: Schema) {
    forall m, k :: m in s.owned && k in RelationsFrom(s, m) && RelationsFrom(s, m)[k].target in s.owned
      ==> (TENANT_ID, TENANT_ID) in RelationsFrom(s, m)[k].on
  }

  lemma CompositeNeverCrosses(s: Schema, db: Database, m: Name, r: Row, k: Name, t: Row, tenant: Tenant)
    requires k in RelationsFrom(s, m) && (TENANT_ID, TENANT_ID) in RelationsFrom(s, m)[k].on
    requires OwnedBy(r, tenant) && t in Joined(db, RelationsFrom(s, m)[k], r)
    ensures OwnedBy(t, tenant)
  {
    var rel := RelationsFrom(s, m)[k];
    FilterMembers((x: Row) => Joins(rel.on, r, x), Table(db, rel.target));
    assert Joins(rel.on, r, t);
  }

  /** With such keys, and hubs keyed by the tenant, every accepted find is isolated, whatever the rows are. */
  lemma CompositeKeysIsolate(s: Schema)
    requires WellFormed(s) && KeyedByTenant(s) && CompositeKeys(s)
    ensures Isolates(s)
  {
    forall db, tenant ensures NoCrossing(s, db, tenant) {
      forall m, r, k, t | m in s.owned && OwnedBy(r, tenant) && k in RelationsFrom(s, m)
                          && RelationsFrom(s, m)[k].target in s.owned && t in Joined(db, RelationsFrom(s, m)[k], r)
        ensures OwnedBy(t, tenant)
      {
        CompositeNeverCrosses(s, db, m, r, k, t, tenant);
      }
    }
    hide KeyedByTenant, CompositeKeys, NoCrossing, ScopedFind, Sees, ValidDb, AgreeFor, Accepted, Covered, WellFormed;
    forall relations, db1, db2, op, model, node, tenant |
      Sees(relations, s) && ValidDb(s, db1) && ValidDb(s, db2) && AgreeFor(s, db1, db2, tenant)
      && Accepted(s, model, node)
      ensures ScopedFind(s, relations, db1, op, model, node, tenant)
              == ScopedFind(s, relations, db2, op, model, node, tenant)
    {
      Isolation(s, relations, db1, db2, op, model, node, tenant);
    }
  }

  // ---- keys that do not can be followed behind the tenant's back ----

  /** `up` leads from the model to a hub by the row's tenant, and `down` from there to all rows of that tenant. */
  predicate ThereAndBack(s: Schema, m: Name, up: Name, down: Name) {
    && up in RelationsFrom(s, m)
    && var hub := RelationsFrom(s, m)[up];
    && hub.target !in s.owned && !hub.isList && hub.on == [(TENANT_ID, ID)]
    && down in RelationsFrom(s, hub.target)
    && RelationsFrom(s, hub.target)[down] == Relation(m, true, [(ID, TENANT_ID)])
  }

  /** Every model with a key that does not carry the tenant is reached again through a hub. */
  ghost predicate RoundTrips(s: Schema) {
    forall m, k :: m in s.owned && k in RelationsFrom(s, m) && RelationsFrom(s, m)[k].target in s.owned
                   && (TENANT_ID, TENANT_ID) !in RelationsFrom(s, m)[k].on
      ==> exists up, down :: ThereAndBack(s, m, up, down)
  }

  /** The tenant's own row is there for every row of its. */
  ghost predicate HasHubRows(s: Schema, db: Database, tenant: Tenant) {
    forall m, r, up, down :: r in Table(db, m) && OwnedBy(r, tenant) && ThereAndBack(s, m, up, down)
      ==> Joined(db, RelationsFrom(s, m)[up], r) != []
  }

  function Including(k: Name, sel: Sel): Node {
    Node(None, None, Fields(map[k := sel]), NoSelection)
  }

  function RoundTrip(up: Name, down: Name, k: Name): Node {
    Including(up, Sub(Including(down, Sub(Including(k, On)))))
  }

  lemma IncludedField(s: Schema, db: Database, model: Name, row: Row, k: Name, sel: Sel)
    requires k in RelationsFrom(s, model) && sel != Off
    ensures k in Followed(s, model, Including(k, sel)) && Entries(Including(k, sel))[k] == sel
    ensures var j := EvalRow(s, db, model, row, Including(k, sel));
            j.Obj? && k in j.fields && j.fields[k] == EvalRelation(s, db, RelationsFrom(s, model)[k], row, sel)
  {
    hide EvalRow, EvalRelation;
    RowFields(s, db, model, row, Including(k, sel));
  }

  /** From the tenant's hub row back: the tenant's rows, on both databases. */
  lemma BackToOwnRows(s: Schema, db: Database, rel: Relation, h: Row, row: Row, tenant: Tenant)
    requires rel.target in s.owned && rel.on == [(ID, TENANT_ID)] && At(h.cols, ID) == Str(tenant)
    requires row in Table(db, rel.target) && OwnedBy(row, tenant)
    ensures row in Joined(db, rel, h)
    ensures Joined(Private(s, db, tenant), rel, h) == Joined(db, rel, h)
            == Window(Joined(db, rel, h), None, None)
  {
    var joins, joined := (r: Row) => Joins(rel.on, h, r), Joined(db, rel, h);
    FilterMembers(joins, Table(db, rel.target));
    forall r | r in joined ensures OwnedBy(r, tenant) {
      assert Joins(rel.on, h, r) && (ID, TENANT_ID) == rel.on[0];
    }
    assert joins(row);
    PrivateJoin(s, db, rel, h, tenant);
    FilterAll((r: Row) => OwnedBy(r, tenant), joined);
    FilterAll((r: Row) => Admits(None, r.cols), joined);
  }

  /** A list relation reads differently where one of its rows does. */
  lemma ListDiffers(s: Schema, db: Database, view: Database, rel: Relation, row: Row, node: Node, j: nat)
    requires rel.isList && node.where == None && node.take == None && j < |Joined(db, rel, row)|
    requires Joined(view, rel, row) == Joined(db, rel, row) == Window(Joined(db, rel, row), None, None)
    requires EvalRow(s, db, rel.target, Joined(db, rel, row)[j], node)
             != EvalRow(s, view, rel.target, Joined(db, rel, row)[j], node)
    ensures EvalRelation(s, db, rel, row, Sub(node)) != EvalRelation(s, view, rel, row, Sub(node))
  {
    hide Joined, EvalRow, Window;
    var joined := Joined(db, rel, row);
    assert EvalEntries(s, db, rel.target, joined, Sub(node))[j] != EvalEntries(s, view, rel.target, joined, Sub(node))[j];
  }

  /** Seen from the tenant's hub row: all rows of the tenant, each with what the crossing key joins. */
  lemma DownDiffers(s: Schema, db: Database, m: Name, hub: Name, h: Row, row: Row, down: Name, k: Name, tenant: Tenant)
    requires m in s.owned && down in RelationsFrom(s, hub)
    requires RelationsFrom(s, hub)[down] == Relation(m, true, [(ID, TENANT_ID)])
    requires At(h.cols, ID) == Str(tenant) && row in Table(db, m) && OwnedBy(row, tenant)
    requires k in RelationsFrom(s, m)
    requires EvalRelation(s, db, RelationsFrom(s, m)[k], row, On)
             != EvalRelation(s, Private(s, db, tenant), RelationsFrom(s, m)[k], row, On)
    ensures var sel := Sub(Including(k, On));
            EvalRelation(s, db, RelationsFrom(s, hub)[down], h, sel)
            != EvalRelation(s, Private(s, db, tenant), RelationsFrom(s, hub)[down], h, sel)
  {
    var rel, leaf, private := RelationsFrom(s, hub)[down], Including(k, On), Private(s, db, tenant);
    BackToOwnRows(s, db, rel, h, row, tenant);
    var joined := Joined(db, rel, h);
    var j :| 0 <= j < |joined| && joined[j] == row;
    IncludedField(s, db, m, row, k, On);
    IncludedField(s, private, m, row, k, On);
    assert leaf.where == None && leaf.take == None;
    hide *;
    ListDiffers(s, db, private, rel, h, leaf, j);
  }

  /** Seen from the row itself, through its hub. */
  lemma UpDiffers(s: Schema, db: Database, m: Name, row: Row, up: Name, down: Name, k: Name, tenant: Tenant)
    requires m in s.owned && row in Table(db, m) && OwnedBy(row, tenant) && ThereAndBack(s, m, up, down)
    requires Joined(db, RelationsFrom(s, m)[up], row) != [] && k in RelationsFrom(s, m)
    requires EvalRelation(s, db, RelationsFrom(s, m)[k], row, On)
             != EvalRelation(s, Private(s, db, tenant), RelationsFrom(s, m)[k], row, On)
    ensures var sel := Sub(Including(down, Sub(Including(k, On))));
            EvalRelation(s, db, RelationsFrom(s, m)[up], row, sel)
            != EvalRelation(s, Private(s, db, tenant), RelationsFrom(s, m)[up], row, sel)
  {
    var rel, private := RelationsFrom(s, m)[up], Private(s, db, tenant);
    var joined := Joined(db, rel, row);
    var h := joined[0];
    FilterMembers((r: Row) => Joins(rel.on, row, r), Table(db, rel.target));
    assert h in joined && Joins(rel.on, row, h) && rel.on[0] == (TENANT_ID, ID);
    assert At(h.cols, ID) == Str(tenant);
    PrivateJoin(s, db, rel, row, tenant);
    DownDiffers(s, db, m, rel.target, h, row, down, k, tenant);
    IncludedField(s, db, rel.target, h, down, Sub(Including(k, On)));
    IncludedField(s, private, rel.target, h, down, Sub(Including(k, On)));
    hide Joined, Private, EvalRow, RelationsFrom, Including;
  }

  lemma RoundTripIsAccepted(s: Schema, m: Name, up: Name, down: Name, k: Name)
    requires ThereAndBack(s, m, up, down) && k in RelationsFrom(s, m)
    ensures Accepted(s, m, RoundTrip(up, down, k))
  {
    var hub := RelationsFrom(s, m)[up].target;
    assert Accepted(s, m, Including(k, On));
    assert Accepted(s, hub, Including(down, Sub(Including(k, On))));
  }

  /** A crossing key is followed, and its foreign row returned, by the find that comes back through the hub. */
  lemma CrossingShowsBehindHub(s: Schema, relations: RelationMap, db: Database, m: Name, row: Row, k: Name, t: Row,
                               up: Name, down: Name, tenant: Tenant)
    requires WellFormed(s) && Sees(relations, s) && ValidDb(s, db)
    requires m in s.owned && row in Table(db, m) && OwnedBy(row, tenant)
    requires k in RelationsFrom(s, m) && RelationsFrom(s, m)[k].target in s.owned
    requires t in Joined(db, RelationsFrom(s, m)[k], row) && !OwnedBy(t, tenant)
    requires ThereAndBack(s, m, up, down) && Joined(db, RelationsFrom(s, m)[up], row) != []
    ensures var node := RoundTrip(up, down, k);
            && Accepted(s, m, node)
            && ScopedFind(s, relations, db, FindMany, m, node, tenant)
               != RunFind(s, Private(s, db, tenant), FindMany, m, Unpinned(s, m, node))
  {
    var node, private := RoundTrip(up, down, k), Private(s, db, tenant);
    var sel := Sub(Including(down, Sub(Including(k, On))));
    assert ValidRow(s, db, m, row);
    CrossedRelation(s, db, RelationsFrom(s, m)[k], row, t, tenant);
    UpDiffers(s, db, m, row, up, down, k, tenant);
    RoundTripIsAccepted(s, m, up, down, k);
    var i := FoundAtTop(s, db, m, row, node, tenant);
    assert Unpinned(s, m, node) == node == Including(up, sel);
    IncludedField(s, db, m, row, up, sel);
    SeenUnowned(s, relations, db, m, node, i, up, tenant);
    IncludedField(s, private, m, row, up, sel);
    hide Joined, Private, EvalRow, EvalRelation, RelationsFrom, Including, RoundTrip, ScopedFind, Window, PinTop, Accepted;
    var rows := Window(Table(private, m), None, None);
    assert RunFind(s, private, FindMany, m, node).j.items[i] == EvalRow(s, private, m, row, node);
  }

  /** Where the hubs are the tenants and every key that could cross is reached again through them, all accepted
      finds are private if and only if none of the tenant's keys crosses. */
  lemma PrivateExactlyWhenUncrossed(s: Schema, relations: RelationMap, db: Database, tenant: Tenant)
    requires WellFormed(s) && Sees(relations, s) && ValidDb(s, db)
    requires KeyedByTenant(s) && RoundTrips(s) && HasHubRows(s, db, tenant)
    ensures NoCrossing(s, db, tenant) <==>
            forall op, model, node :: Accepted(s, model, node)
              ==> ScopedFind(s, relations, db, op, model, node, tenant)
                  == RunFind(s, Private(s, db, tenant), op, model, Unpinned(s, model, node))
  {
    if NoCrossing(s, db, tenant) {
      forall op, model, node | Accepted(s, model, node)
        ensures ScopedFind(s, relations, db, op, model, node, tenant)
                == RunFind(s, Private(s, db, tenant), op, model, Unpinned(s, model, node))
      {
        ScopedFindIsPrivate(s, relations, db, op, model, node, tenant);
      }
    } else {
      var m, r, k, t := Crossing(s, db, tenant);
      if (TENANT_ID, TENANT_ID) in RelationsFrom(s, m)[k].on { CompositeNeverCrosses(s, db, m, r, k, t, tenant); }
      var up, down :| ThereAndBack(s, m, up, down);
      assert Joined(db, RelationsFrom(s, m)[up], r) != [];
      hide *;
      CrossingShowsBehindHub(s, relations, db, m, r, k, t, up, down, tenant);
    }
  }

  // ---- the shipped keys ----

  /** Email tracking: the key from an event to its message is the one column `outboundMessageId`. */
  function Tracking(): Schema {
    Schema(map["EmailEvent" := map["tenant" := Relation("Tenant", false, [(TENANT_ID, ID)]),
                                   "outboundMessage" := Relation("OutboundMessage", false, [("outboundMessageId", ID)])],
               "OutboundMessage" := map["tenant" := Relation("Tenant", false, [(TENANT_ID, ID)]),
                                        "emailEvents" := Relation("EmailEvent", true, [(ID, "outboundMessageId")])],
               "Tenant" := map["emailEvents" := Relation("EmailEvent", true, [(ID, TENANT_ID)]),
                               "outboundMessages" := Relation("OutboundMessage", true, [(ID, TENANT_ID)])]],
           {"EmailEvent", "OutboundMessage"})
  }

  function Event(): Row {
    Row(1, map[ID := Str("event"), TENANT_ID := Str("A"), "outboundMessageId" := Str("message")])
  }

  function Message(): Row {
    Row(2, map[ID := Str("message"), TENANT_ID := Str("B")])
  }

  function TenantRow(): Row {
    Row(0, map[ID := Str("A")])
  }

  /** Tenant A's event names tenant B's message. */
  function Misfiled(): Database {
    map["EmailEvent" := [Event()], "OutboundMessage" := [Message()], "Tenant" := [TenantRow()]]
  }

  lemma TrackingIsKeyed()
    ensures WellFormed(Tracking()) && KeyedByTenant(Tracking())
  {
    var s := Tracking();
    assert (TENANT_ID, ID) in [(TENANT_ID, ID)] && (ID, TENANT_ID) in [(ID, TENANT_ID)];
    assert forall m :: IsHub(s, m) ==> m == "Tenant";
    hide IsHub;
    forall m, k | m in s.relations && k in s.relations[m]
      ensures IsHub(s, s.relations[m][k].target) ==> m in s.owned && (TENANT_ID, ID) in s.relations[m][k].on
      ensures IsHub(s, m) && s.relations[m][k].target in s.owned ==> (ID, TENANT_ID) in s.relations[m][k].on
    {
    }
  }

  lemma TrackingReturns()
    ensures RoundTrips(Tracking()) && !CompositeKeys(Tracking())
    ensures ThereAndBack(Tracking(), "EmailEvent", "tenant", "emailEvents")
  {
    var s := Tracking();
    assert ThereAndBack(s, "EmailEvent", "tenant", "emailEvents");
    assert ThereAndBack(s, "OutboundMessage", "tenant", "outboundMessages");
    assert (TENANT_ID, TENANT_ID) !in RelationsFrom(s, "EmailEvent")["outboundMessage"].on;
    hide ThereAndBack;
  }

  lemma JoinsFewer(db: Database, rel: Relation, row: Row)
    ensures |Joined(db, rel, row)| <= |Table(db, rel.target)|
  {
  }

  /** One row a table makes every relation unique. */
  lemma SingleRowIsValid(s: Schema, db: Database, m: Name, row: Row)
    requires m in s.owned ==> At(row.cols, TENANT_ID).Str?
    requires row.cols.Keys !! RelationsFrom(s, m).Keys && forall x :: x in db ==> |db[x]| <= 1
    ensures ValidRow(s, db, m, row)
  {
    forall k | k in RelationsFrom(s, m) ensures |Joined(db, RelationsFrom(s, m)[k], row)| <= 1 {
      JoinsFewer(db, RelationsFrom(s, m)[k], row);
    }
  }

  lemma MisfiledIsValid()
    ensures ValidDb(Tracking(), Misfiled())
  {
    var s, db := Tracking(), Misfiled();
    assert forall x :: x in db ==> |db[x]| == 1;
    assert Event().cols.Keys !! RelationsFrom(s, "EmailEvent").Keys;
    assert Message().cols.Keys !! RelationsFrom(s, "OutboundMessage").Keys;
    assert TenantRow().cols.Keys !! RelationsFrom(s, "Tenant").Keys;
    hide ValidRow, RelationsFrom;
    SingleRowIsValid(s, db, "EmailEvent", Event());
    SingleRowIsValid(s, db, "OutboundMessage", Message());
    SingleRowIsValid(s, db, "Tenant", TenantRow());
    hide Tracking, Event, Message, TenantRow;
  }

  lemma JoinsTheOne(db: Database, rel: Relation, row: Row, t: Row)
    requires Table(db, rel.target) == [t] && Joins(rel.on, row, t)
    ensures Joined(db, rel, row) == [t]
  {
  }

  /** Where the event's keys lead. */
  lemma MisfiledKeys()
    ensures var s, db := Tracking(), Misfiled();
            && "outboundMessage" in RelationsFrom(s, "EmailEvent") && "tenant" in RelationsFrom(s, "EmailEvent")
            && "EmailEvent" in s.owned && RelationsFrom(s, "EmailEvent")["outboundMessage"].target in s.owned
            && Event() in Table(db, "EmailEvent") && OwnedBy(Event(), "A") && !OwnedBy(Message(), "A")
            && Message() in Joined(db, RelationsFrom(s, "EmailEvent")["outboundMessage"], Event())
            && Joined(db, RelationsFrom(s, "EmailEvent")["tenant"], Event()) != []
  {
    var relations, db := RelationsFrom(Tracking(), "EmailEvent"), Misfiled();
    assert Joins(relations["outboundMessage"].on, Event(), Message());
    assert Joins(relations["tenant"].on, Event(), TenantRow());
    hide Joined, Joins;
    JoinsTheOne(db, relations["outboundMessage"], Event(), Message());
    JoinsTheOne(db, relations["tenant"], Event(), TenantRow());
  }

  /** With the shipped keys, a find of email events that includes `tenant`, its `emailEvents` and their
      `outboundMessage` tells tenant A whether tenant B's message is there. */
  lemma MisfiledEventShows(relations: RelationMap)
    requires Sees(relations, Tracking())
    ensures var s, db, node := Tracking(), Misfiled(), RoundTrip("tenant", "emailEvents", "outboundMessage");
            var without := Private(s, db, "A");
            && Accepted(s, "EmailEvent", node) && ValidDb(s, db) && ValidDb(s, without) && AgreeFor(s, db, without, "A")
            && ScopedFind(s, relations, db, FindMany, "EmailEvent", node, "A")
               != ScopedFind(s, relations, without, FindMany, "EmailEvent", node, "A")
  {
    var s, db, node := Tracking(), Misfiled(), RoundTrip("tenant", "emailEvents", "outboundMessage");
    TrackingIsKeyed();
    TrackingReturns();
    MisfiledIsValid();
    MisfiledKeys();
    PrivateIsValid(s, db, "A");
    PrivateTwice(s, db, "A");
    assert Contained(s, Private(s, db, "A"), "EmailEvent", node, "A");
    assert AgreeFor(s, db, Private(s, db, "A"), "A");
    hide *;
    CrossingShowsBehindHub(s, relations, db, "EmailEvent", Event(), "outboundMessage", Message(), "tenant", "emailEvents", "A");
    ScopedFindIsPrivate(s, relations, Private(s, db, "A"), FindMany, "EmailEvent", node, "A");
  }
}
