/** The scoped path of a find as it runs: arguments changed in place, rows copied where they are scrubbed. */
module ScopedFindInPlace {
  import opened Values
  import opened Schemas
  import opened Queries
  import opened ForceTenant
  import opened Databases
  import opened ScrubRelations
  import opened StripForced
  import opened TenantReads
  import opened QueryObjects
  import opened ForceInPlace
  import opened ResultObjects
  import opened ResultScrub

  /** Spreads the tenant into the top-level `where`. */
  method PinTopInPlace(s: Schema, model: Name, args: QueryArgs, tenant: Tenant, ghost t: QTree) returns (ghost t': QTree)
    requires HeldQ(args, t)
    modifies QIds(t)
    ensures HeldQ(args, t') && QIds(t') == QIds(t) && NodeOf(t') == PinTop(s, model, NodeOf(t), tenant)
  {
    PartsOf(args, t);
    ghost var objects := QObjects(t);
    assert QIds(t) == objects;
    t' := t;
    if model in s.owned {
      args.where := PinTenant(args.where, tenant);
      t' := t.(where := args.where);
    }
    PartsOf(args, t');
  }

  lemma PinnedPaths(s: Schema, relations: RelationMap, model: Name, node: Node, tenant: Tenant)
    ensures ForcedPaths(relations, model, PinTop(s, model, node, tenant)) == ForcedPaths(relations, model, node)
    ensures [] !in ForcedPaths(relations, model, node)
  {
    ForceAfterWhere(relations, model, node, PinTenant(node.where, tenant), tenant);
  }

  lemma AllForced(forced: seq<Path>, paths: set<Path>)
    requires SetOf(forced) == SetOf([]) + Under([], paths)
    ensures (set p | p in forced) == paths
  {
    assert Under([], paths) == paths by {
      forall p | p in paths ensures p in Under([], paths) {
        assert [] + p == p;
      }
      forall q | q in Under([], paths) ensures q in paths {
        var p :| p in paths && [] + p == q;
        assert [] + p == p;
      }
    }
  }

  /** Scrubbing what the rewritten query delivers, then stripping the forced paths one by one, is the scoped find. */
  lemma AnswerOf(s: Schema, relations: RelationMap, db: Database, op: FindOp, model: Name, node: Node, tenant: Tenant,
                 delivered: Json, forced: seq<Path>)
    requires RunFind(s, db, op, model, ForceNode(relations, model, PinTop(s, model, node, tenant), tenant))
             == Found(delivered)
    requires SetOf(forced) == SetOf([]) + Under([], ForcedPaths(relations, model, PinTop(s, model, node, tenant)))
    ensures TenantReads.ScopedFind(s, relations, db, op, model, node, tenant)
            == Found(StripEach(Scrub(relations, model, delivered, tenant), forced))
  {
    hide RunFind, ForceNode, ForcedPaths, Scrub, Strip, StripEach, Under;
    PinnedPaths(s, relations, model, node, tenant);
    AllForced(forced, ForcedPaths(relations, model, node));
    assert forall p :: p in forced ==> p in (set q | q in forced);
    StripEachIsStrip(Scrub(relations, model, delivered, tenant), forced);
  }

  /** Pin, force, query, scrub, strip. `delivered` stands for what the database client returns for the
      rewritten arguments; the call itself is not part of the model. */
  method ScopedFind(s: Schema, relations: RelationMap, ghost db: Database, op: FindOp, model: Name, args: QueryArgs,
                    tenant: Tenant, delivered: JsVal, ghost t: QTree, ghost rows: Tree)
    returns (result: JsVal, ghost t': QTree, ghost rows': Tree)
    requires TenantIsColumn(relations) && HeldQ(args, t) && Held(delivered, rows) && QIds(t) !! Ids(rows)
    requires RunFind(s, db, op, model, ForceNode(relations, model, PinTop(s, model, NodeOf(t), tenant), tenant))
             == Found(View(rows))
    modifies QIds(t), Ids(rows)
    ensures HeldQ(args, t')
    ensures NodeOf(t') == ForceNode(relations, model, PinTop(s, model, NodeOf(t), tenant), tenant)
    ensures Held(result, rows')
    ensures Found(View(rows')) == TenantReads.ScopedFind(s, relations, db, op, model, NodeOf(t), tenant)
  {
    hide RunFind, ForceNode, ForcedPaths, Scrub, Strip, StripEach, Under, SetOf, PinTop, TenantReads.ScopedFind,
         TenantIsColumn, QOk, QHolds, QIds, SIds, NodeOf, View, Ids, Unshared, Holds;
    ghost var queryObjects := QObjects(t);
    ghost var rowObjects := Objects(rows);
    assert QIds(t) == queryObjects && Ids(rows) == rowObjects;
    assert queryObjects !! rowObjects;
    ghost var pinned := PinTopInPlace(s, model, args, tenant, t);
    var forced;
    ghost var made, scrubbed, copies;
    forced, t', made := ForceTenantIdOnRelations(relations, model, args, tenant, [], [], pinned);
    AnswerOf(s, relations, db, op, model, NodeOf(t), tenant, View(rows), forced);
    ghost var forcedObjects := QObjects(t');
    assert QIds(t') == forcedObjects && forcedObjects !! rowObjects;
    result, scrubbed, copies := ScrubForeignRelations(relations, model, delivered, tenant, rows);
    assert Ids(scrubbed) <= rowObjects + copies;
    rows' := StripForcedFields(result, forced, scrubbed);
  }
}
