/** The relation map that is built from the data model is the one the isolation theorems ask for. */
module BuiltMap {
  import opened Values
  import opened Schemas
  import opened Databases
  import opened TenantReads
  import opened ScrubRelations

  ghost predicate DescribesModel(d: ModelDef, relations: map<Name, Relation>) {
    && (forall k :: k in relations ==> exists f :: f in d.fields && f.name == k && f.kind == "object")
    && forall f :: f in d.fields && f.kind == "object" ==>
         f.name in relations && relations[f.name].target == f.target && relations[f.name].isList == f.isList
  }

  /** The schema as the model descriptions give it; what a relation joins on is not part of them. */
  ghost predicate Describes(models: seq<ModelDef>, s: Schema) {
    && (forall name :: name in s.owned <==> IsOwned(models, name))
    && (forall name :: name in s.relations ==> exists d :: d in models && d.name == name)
    && forall d :: d in models ==> DescribesModel(d, RelationsFrom(s, d.name))
  }

  lemma EntryIsVisible(models: seq<ModelDef>, s: Schema, d: ModelDef, k: Name)
    requires UniqueNames(models) && Describes(models, s) && d in models
    ensures var entries, all := Relations(RelationMapOf(models, models), d.name), RelationsFrom(s, d.name);
            && (k in entries <==> k in all && all[k].target in s.owned)
            && (k in entries ==> entries[k] == RelationMeta(all[k].target, all[k].isList))
  {
    var all := RelationsFrom(s, d.name);
    RelationMapEntry(models, models, d);
    RelationsOfExact(models, d.fields, k);
    assert DescribesModel(d, all);
    hide RelationMapOf, RelationsOf, UniqueNames;
    if k in all {
      var f :| f in d.fields && f.name == k && f.kind == "object";
      RelationMapExact(models, d, f);
    }
  }

  /** The entries of one model are its relations to tenant-owned models. */
  lemma EntriesAreVisible(models: seq<ModelDef>, s: Schema, d: ModelDef)
    requires UniqueNames(models) && Describes(models, s) && d in models
    ensures Relations(RelationMapOf(models, models), d.name) ==
            map k | k in RelationsFrom(s, d.name) && RelationsFrom(s, d.name)[k].target in s.owned ::
              RelationMeta(RelationsFrom(s, d.name)[k].target, RelationsFrom(s, d.name)[k].isList)
  {
    hide RelationMapOf, UniqueNames, Describes;
    var entries, all := Relations(RelationMapOf(models, models), d.name), RelationsFrom(s, d.name);
    forall k
      ensures k in entries <==> k in all && all[k].target in s.owned
      ensures k in entries ==> entries[k] == RelationMeta(all[k].target, all[k].isList)
    {
      EntryIsVisible(models, s, d, k);
    }
  }

  /** The built map sees exactly the relations that lead to tenant-owned models. */
  lemma BuiltMapSees(models: seq<ModelDef>, s: Schema)
    requires UniqueNames(models) && Describes(models, s)
    ensures Sees(RelationMapOf(models, models), s)
  {
    var relations := RelationMapOf(models, models);
    forall m
      ensures Relations(relations, m) ==
              map k | k in RelationsFrom(s, m) && RelationsFrom(s, m)[k].target in s.owned ::
                RelationMeta(RelationsFrom(s, m)[k].target, RelationsFrom(s, m)[k].isList)
    {
      if d :| d in models && d.name == m {
        EntriesAreVisible(models, s, d);
      } else {
        RelationMapNames(models, models);
        assert m !in relations;
      }
    }
  }

  /** With `tenantId` a plain column everywhere, it is no relation to either side. */
  lemma TenantIsNoRelation(relations: RelationMap, s: Schema)
    requires WellFormed(s) && Sees(relations, s)
    ensures TenantIsColumn(relations)
  {
    forall m | m in relations ensures TENANT_ID !in relations[m] {
      assert relations[m] == Relations(relations, m);
    }
  }
}
