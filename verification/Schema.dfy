/** The data model: which models carry a `tenantId`, and which relations lead between models. */
module Schemas {
  import opened Values

  /** One field of a model description: `kind` is "object" for a relation. */
  datatype FieldDef = FieldDef(name: Name, kind: string, target: Name, isList: bool)
  datatype ModelDef = ModelDef(name: Name, fields: seq<FieldDef>)

  datatype RelationMeta = RelationMeta(target: Name, isList: bool)
  type RelationMap = map<Name, map<Name, RelationMeta>>

  /** The relations the map lists for a model; a model without an entry has none. */
  function Relations(relationMap: RelationMap, model: Name): map<Name, RelationMeta> {
    if model in relationMap then relationMap[model] else map[]
  }

  predicate CarriesTenant(m: ModelDef) {
    exists f :: f in m.fields && f.name == TENANT_ID
  }

  predicate IsOwned(models: seq<ModelDef>, name: Name) {
    exists m :: m in models && m.name == name && CarriesTenant(m)
  }

  predicate Mapped(models: seq<ModelDef>, f: FieldDef) {
    f.kind == "object" && IsOwned(models, f.target)
  }

  /** A name stands for at most one model, and for at most one field of it. */
  predicate UniqueNames(models: seq<ModelDef>) {
    && (forall i, j :: 0 <= i < j < |models| ==> models[i].name != models[j].name)
    && forall m, i, j :: m in models && 0 <= i < j < |m.fields| ==> m.fields[i].name != m.fields[j].name
  }

  /** What the fields contribute to their model's entry; a later field of the same name wins. */
  ghost function RelationsOf(models: seq<ModelDef>, fields: seq<FieldDef>): map<Name, RelationMeta> {
    if fields == [] then map[]
    else
      var before := RelationsOf(models, fields[..|fields| - 1]);
      var f := fields[|fields| - 1];
      if Mapped(models, f) then before[f.name := RelationMeta(f.target, f.isList)] else before
  }

  /** The entries of the models in `prefix`; a later model of the same name wins if it has any relation. */
  ghost function RelationMapOf(models: seq<ModelDef>, prefix: seq<ModelDef>): RelationMap {
    if prefix == [] then map[]
    else
      var before := RelationMapOf(models, prefix[..|prefix| - 1]);
      var m := prefix[|prefix| - 1];
      var relations := RelationsOf(models, m.fields);
      if relations != map[] then before[m.name := relations] else before
  }

  method BuildRelationMap(models: seq<ModelDef>) returns (relationMap: RelationMap)
    ensures relationMap == RelationMapOf(models, models)
  {
    var tenantOwned: set<Name> := set m | m in models && CarriesTenant(m) :: m.name;
    relationMap := map[];
    for i := 0 to |models|
      invariant relationMap == RelationMapOf(models, models[..i])
    {
      var model := models[i];
      var relations: map<Name, RelationMeta> := map[];
      for j := 0 to |model.fields|
        invariant relations == RelationsOf(models, model.fields[..j])
      {
        var field := model.fields[j];
        assert model.fields[..j + 1][..j] == model.fields[..j];
        if field.kind != "object" { continue; }
        if field.target !in tenantOwned { continue; }
        relations := relations[field.name := RelationMeta(field.target, field.isList)];
      }
      assert model.fields[..|model.fields|] == model.fields;
      assert models[..i + 1][..i] == models[..i];
      if |relations| > 0 { relationMap := relationMap[model.name := relations]; }
    }
    assert models[..|models|] == models;
  }

  lemma {:induction false} RelationsOfExact(models: seq<ModelDef>, fields: seq<FieldDef>, k: Name)
    requires forall i, j :: 0 <= i < j < |fields| ==> fields[i].name != fields[j].name
    ensures k in RelationsOf(models, fields)
            <==> exists f :: f in fields && f.name == k && Mapped(models, f)
    ensures forall f :: f in fields && f.name == k && Mapped(models, f)
              ==> RelationsOf(models, fields)[k] == RelationMeta(f.target, f.isList)
  {
    if fields != [] {
      var init, last := fields[..|fields| - 1], fields[|fields| - 1];
      RelationsOfExact(models, init, k);
      assert fields == init + [last];
    }
  }

  lemma {:induction false} RelationMapNames(models: seq<ModelDef>, prefix: seq<ModelDef>)
    ensures forall m :: m in RelationMapOf(models, prefix) ==> exists i :: 0 <= i < |prefix| && prefix[i].name == m
  {
    if prefix != [] {
      RelationMapNames(models, prefix[..|prefix| - 1]);
    }
  }

  /** A model's entry is what its own fields contribute; a model that contributes nothing has none. */
  lemma {:induction false} RelationMapEntry(models: seq<ModelDef>, prefix: seq<ModelDef>, d: ModelDef)
    requires forall i, j :: 0 <= i < j < |prefix| ==> prefix[i].name != prefix[j].name
    requires d in prefix
    ensures Relations(RelationMapOf(models, prefix), d.name) == RelationsOf(models, d.fields)
    ensures d.name in RelationMapOf(models, prefix) <==> RelationsOf(models, d.fields) != map[]
  {
    var init, last := prefix[..|prefix| - 1], prefix[|prefix| - 1];
    assert prefix == init + [last];
    if d in init {
      RelationMapEntry(models, init, d);
    } else {
      RelationMapNames(models, init);
    }
  }

  /** The map lists a relation of a model exactly when the relation's target carries a `tenantId`. */
  lemma RelationMapExact(models: seq<ModelDef>, d: ModelDef, f: FieldDef)
    requires UniqueNames(models) && d in models && f in d.fields
    ensures var entries := Relations(RelationMapOf(models, models), d.name);
            && (f.name in entries <==> f.kind == "object" && IsOwned(models, f.target))
            && (f.name in entries ==> entries[f.name] == RelationMeta(f.target, f.isList))
  {
    RelationMapEntry(models, models, d);
    RelationsOfExact(models, d.fields, f.name);
  }
}
