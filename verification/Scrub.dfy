/** Removing foreign rows from a result tree. */
module ScrubRelations {
  import opened Values
  import opened Schemas

  /** A value is foreign only when it says so: an object whose `tenantId` is another tenant's. */
  predicate Foreign(v: Json, tenant: Tenant) {
    v.Obj? && var owner := At(v.fields, TENANT_ID); owner.Str? && owner.s != tenant
  }

  function Scrub(relations: RelationMap, model: Name, j: Json, tenant: Tenant): Json
    decreases j, 1
  {
    match j
    case Arr(items) => Arr(ScrubAll(relations, model, items, tenant))
    case Obj(fields) =>
      var here := Relations(relations, model);
      Obj(map k | k in fields ::
            if k in here then ScrubField(relations, here[k], fields[k], tenant) else fields[k])
    case _ => j
  }

  function ScrubAll(relations: RelationMap, model: Name, items: seq<Json>, tenant: Tenant): (r: seq<Json>)
    ensures |r| == |items|
    ensures forall i :: 0 <= i < |items| ==> r[i] == Scrub(relations, model, items[i], tenant)
    decreases items, 0
  {
    if items == [] then []
    else [Scrub(relations, model, items[0], tenant)] + ScrubAll(relations, model, items[1..], tenant)
  }

  function ScrubField(relations: RelationMap, meta: RelationMeta, v: Json, tenant: Tenant): Json
    decreases v, 2
  {
    if meta.isList then
      if v.Arr? then Arr(ScrubList(relations, meta.target, v.items, tenant)) else v
    else if Foreign(v, tenant) then Null
    else Scrub(relations, meta.target, v, tenant)
  }

  function ScrubList(relations: RelationMap, model: Name, items: seq<Json>, tenant: Tenant): seq<Json>
    decreases items, 0
  {
    if items == [] then []
    else
      var rest := ScrubList(relations, model, items[1..], tenant);
      if Foreign(items[0], tenant) then rest else [Scrub(relations, model, items[0], tenant)] + rest
  }

  /** No relation, at any depth, holds a row that names another tenant. */
  predicate Clean(relations: RelationMap, model: Name, j: Json, tenant: Tenant)
    decreases j, 0
  {
    match j
    case Arr(items) => forall i :: 0 <= i < |items| ==> Clean(relations, model, items[i], tenant)
    case Obj(fields) =>
      var here := Relations(relations, model);
      forall k :: k in fields && k in here ==> CleanField(relations, here[k], fields[k], tenant)
    case _ => true
  }

  predicate CleanField(relations: RelationMap, meta: RelationMeta, v: Json, tenant: Tenant)
    decreases v, 1
  {
    if meta.isList then
      v.Arr? ==> forall i :: 0 <= i < |v.items| ==>
        !Foreign(v.items[i], tenant) && Clean(relations, meta.target, v.items[i], tenant)
    else !Foreign(v, tenant) && Clean(relations, meta.target, v, tenant)
  }

  /** `a` is `b` with to-one relations blanked and list entries left out, and otherwise the same tree. */
  predicate PrunedFrom(relations: RelationMap, model: Name, a: Json, b: Json)
    decreases b, 1
  {
    match b
    case Arr(items) =>
      && a.Arr? && |a.items| == |items|
      && forall i :: 0 <= i < |items| ==> PrunedFrom(relations, model, a.items[i], items[i])
    case Obj(fields) =>
      var here := Relations(relations, model);
      && a.Obj? && a.fields.Keys == fields.Keys
      && forall k :: k in fields ==>
           if k in here then FieldPrunedFrom(relations, here[k], a.fields[k], fields[k])
           else a.fields[k] == fields[k]
    case _ => a == b
  }

  predicate FieldPrunedFrom(relations: RelationMap, meta: RelationMeta, a: Json, b: Json)
    decreases b, 2
  {
    if meta.isList then
      if b.Arr? then a.Arr? && Thinned(relations, meta.target, a.items, b.items) else a == b
    else (a == Null && b.Obj?) || PrunedFrom(relations, meta.target, a, b)
  }

  /** `a` is a pruned subsequence of `b`. */
  predicate Thinned(relations: RelationMap, model: Name, a: seq<Json>, b: seq<Json>)
    decreases b, 0
  {
    if b == [] then a == []
    else
      || Thinned(relations, model, a, b[1..])
      || (a != [] && PrunedFrom(relations, model, a[0], b[0]) && Thinned(relations, model, a[1..], b[1..]))
  }

  /** A relation map in which `tenantId` names a column and never a relation. */
  predicate TenantIsColumn(relations: RelationMap) {
    forall m :: m in relations ==> TENANT_ID !in relations[m]
  }

  lemma {:induction false} ScrubIsClean(relations: RelationMap, model: Name, j: Json, tenant: Tenant)
    requires TenantIsColumn(relations)
    ensures Clean(relations, model, Scrub(relations, model, j, tenant), tenant)
    ensures Foreign(Scrub(relations, model, j, tenant), tenant) == Foreign(j, tenant)
    decreases j, 1
  {
    match j
    case Arr(items) =>
      forall i | 0 <= i < |items| ensures Clean(relations, model, Scrub(relations, model, items[i], tenant), tenant) {
        ScrubIsClean(relations, model, items[i], tenant);
      }
    case Obj(fields) =>
      var here := Relations(relations, model);
      forall k | k in fields && k in here
        ensures CleanField(relations, here[k], ScrubField(relations, here[k], fields[k], tenant), tenant)
      {
        var v := fields[k];
        if here[k].isList {
          if v.Arr? { ScrubListIsClean(relations, here[k].target, v.items, tenant); }
        } else {
          ScrubIsClean(relations, here[k].target, v, tenant);
        }
      }
    case _ =>
  }

  lemma {:induction false} ScrubListIsClean(relations: RelationMap, model: Name, items: seq<Json>, tenant: Tenant)
    requires TenantIsColumn(relations)
    ensures forall e :: e in ScrubList(relations, model, items, tenant)
              ==> !Foreign(e, tenant) && Clean(relations, model, e, tenant)
    decreases items, 0
  {
    if items != [] {
      ScrubListIsClean(relations, model, items[1..], tenant);
      ScrubIsClean(relations, model, items[0], tenant);
    }
  }

  lemma {:induction false} ScrubIsPruned(relations: RelationMap, model: Name, j: Json, tenant: Tenant)
    ensures PrunedFrom(relations, model, Scrub(relations, model, j, tenant), j)
    decreases j, 1
  {
    match j
    case Arr(items) =>
      forall i | 0 <= i < |items| ensures PrunedFrom(relations, model, Scrub(relations, model, items[i], tenant), items[i]) {
        ScrubIsPruned(relations, model, items[i], tenant);
      }
    case Obj(fields) =>
      var here := Relations(relations, model);
      forall k | k in fields && k in here
        ensures FieldPrunedFrom(relations, here[k], ScrubField(relations, here[k], fields[k], tenant), fields[k])
      {
        var v := fields[k];
        if here[k].isList {
          if v.Arr? { ScrubListIsThinned(relations, here[k].target, v.items, tenant); }
        } else if !Foreign(v, tenant) {
          ScrubIsPruned(relations, here[k].target, v, tenant);
        }
      }
    case _ =>
  }

  lemma {:induction false} ScrubListIsThinned(relations: RelationMap, model: Name, items: seq<Json>, tenant: Tenant)
    ensures Thinned(relations, model, ScrubList(relations, model, items, tenant), items)
    decreases items, 0
  {
    if items != [] {
      ScrubListIsThinned(relations, model, items[1..], tenant);
      if !Foreign(items[0], tenant) {
        var rest := ScrubList(relations, model, items[1..], tenant);
        var head := Scrub(relations, model, items[0], tenant);
        ScrubIsPruned(relations, model, items[0], tenant);
        assert ([head] + rest)[1..] == rest;
      }
    }
  }

  /** Whatever clean tree can be pruned from `j` can already be pruned from what scrubbing keeps. */
  lemma {:induction false} ScrubKeepsTheMost(relations: RelationMap, model: Name, c: Json, j: Json, tenant: Tenant)
    requires TenantIsColumn(relations)
    requires PrunedFrom(relations, model, c, j) && Clean(relations, model, c, tenant)
    ensures PrunedFrom(relations, model, c, Scrub(relations, model, j, tenant))
    ensures Foreign(c, tenant) == Foreign(j, tenant)
    decreases j, 1
  {
    match j
    case Arr(items) =>
      forall i | 0 <= i < |items|
        ensures PrunedFrom(relations, model, c.items[i], Scrub(relations, model, items[i], tenant))
      {
        ScrubKeepsTheMost(relations, model, c.items[i], items[i], tenant);
      }
    case Obj(fields) =>
      var here := Relations(relations, model);
      forall k | k in fields && k in here
        ensures FieldPrunedFrom(relations, here[k], c.fields[k], ScrubField(relations, here[k], fields[k], tenant))
      {
        var a, v := c.fields[k], fields[k];
        assert FieldPrunedFrom(relations, here[k], a, v) && CleanField(relations, here[k], a, tenant);
        if here[k].isList {
          if v.Arr? { ScrubListKeepsTheMost(relations, here[k].target, a.items, v.items, tenant); }
        } else if PrunedFrom(relations, here[k].target, a, v) {
          ScrubKeepsTheMost(relations, here[k].target, a, v, tenant);
        }
      }
    case _ =>
  }

  lemma {:induction false} ScrubListKeepsTheMost(relations: RelationMap, model: Name,
                                                 c: seq<Json>, items: seq<Json>, tenant: Tenant)
    requires TenantIsColumn(relations)
    requires Thinned(relations, model, c, items)
    requires forall i :: 0 <= i < |c| ==> !Foreign(c[i], tenant) && Clean(relations, model, c[i], tenant)
    ensures Thinned(relations, model, c, ScrubList(relations, model, items, tenant))
    decreases items, 0
  {
    if items != [] {
      var rest := ScrubList(relations, model, items[1..], tenant);
      var head := Scrub(relations, model, items[0], tenant);
      assert ([head] + rest)[1..] == rest;
      if Thinned(relations, model, c, items[1..]) {
        ScrubListKeepsTheMost(relations, model, c, items[1..], tenant);
      } else {
        ScrubKeepsTheMost(relations, model, c[0], items[0], tenant);
        ScrubListKeepsTheMost(relations, model, c[1..], items[1..], tenant);
      }
    }
  }

  /** Scrubbing changes a tree if and only if the tree holds a foreign relation somewhere. */
  lemma {:induction false} CleanIsUntouched(relations: RelationMap, model: Name, j: Json, tenant: Tenant)
    requires TenantIsColumn(relations)
    ensures Clean(relations, model, j, tenant) <==> Scrub(relations, model, j, tenant) == j
    decreases j, 1
  {
    ScrubIsClean(relations, model, j, tenant);
    if Clean(relations, model, j, tenant) {
      match j
      case Arr(items) =>
        forall i | 0 <= i < |items| ensures Scrub(relations, model, items[i], tenant) == items[i] {
          CleanIsUntouched(relations, model, items[i], tenant);
        }
      case Obj(fields) =>
        var here := Relations(relations, model);
        forall k | k in fields && k in here ensures ScrubField(relations, here[k], fields[k], tenant) == fields[k] {
          var v := fields[k];
          assert CleanField(relations, here[k], v, tenant);
          if here[k].isList {
            if v.Arr? { CleanListIsUntouched(relations, here[k].target, v.items, tenant); }
          } else {
            CleanIsUntouched(relations, here[k].target, v, tenant);
          }
        }
      case _ =>
    }
  }

  lemma {:induction false} CleanListIsUntouched(relations: RelationMap, model: Name, items: seq<Json>, tenant: Tenant)
    requires TenantIsColumn(relations)
    requires forall i :: 0 <= i < |items| ==> !Foreign(items[i], tenant) && Clean(relations, model, items[i], tenant)
    ensures ScrubList(relations, model, items, tenant) == items
    decreases items, 0
  {
    if items != [] {
      CleanIsUntouched(relations, model, items[0], tenant);
      CleanListIsUntouched(relations, model, items[1..], tenant);
    }
  }

  lemma {:induction false} ThinnedIsShorter(relations: RelationMap, model: Name, a: seq<Json>, b: seq<Json>)
    requires Thinned(relations, model, a, b)
    ensures |a| <= |b|
    ensures |a| == |b| ==> forall i :: 0 <= i < |a| ==> PrunedFrom(relations, model, a[i], b[i])
  {
    if b != [] {
      if Thinned(relations, model, a, b[1..]) {
        ThinnedIsShorter(relations, model, a, b[1..]);
      } else {
        ThinnedIsShorter(relations, model, a[1..], b[1..]);
        assert forall i :: 0 < i < |a| ==> a[i] == a[1..][i - 1];
      }
    }
  }

  lemma {:induction false} PruningIsAntisymmetric(relations: RelationMap, model: Name, a: Json, b: Json)
    requires PrunedFrom(relations, model, a, b) && PrunedFrom(relations, model, b, a)
    ensures a == b
    decreases b
  {
    match b
    case Arr(items) =>
      forall i | 0 <= i < |items| ensures a.items[i] == items[i] {
        PruningIsAntisymmetric(relations, model, a.items[i], items[i]);
      }
    case Obj(fields) =>
      var here := Relations(relations, model);
      forall k | k in fields ensures a.fields[k] == fields[k] {
        if k in here {
          var x, y := a.fields[k], fields[k];
          assert FieldPrunedFrom(relations, here[k], x, y) && FieldPrunedFrom(relations, here[k], y, x);
          if here[k].isList {
            if y.Arr? {
              ThinnedIsShorter(relations, here[k].target, x.items, y.items);
              ThinnedIsShorter(relations, here[k].target, y.items, x.items);
              forall i | 0 <= i < |y.items| ensures x.items[i] == y.items[i] {
                PruningIsAntisymmetric(relations, here[k].target, x.items[i], y.items[i]);
              }
            }
          } else {
            PruningIsAntisymmetric(relations, here[k].target, x, y);
          }
        }
      }
    case _ =>
  }

  /** `kept` is a foreign-free part of `j` that every other foreign-free part of `j` is a part of. */
  ghost predicate IsLargestCleanPart(relations: RelationMap, model: Name, kept: Json, j: Json, tenant: Tenant) {
    && Clean(relations, model, kept, tenant)
    && PrunedFrom(relations, model, kept, j)
    && forall c :: PrunedFrom(relations, model, c, j) && Clean(relations, model, c, tenant)
         ==> PrunedFrom(relations, model, c, kept)
  }

  /** The largest foreign-free part exists, is unique, is what scrubbing returns, and is a fixed point. */
  lemma ScrubIsExact(relations: RelationMap, model: Name, j: Json, kept: Json, tenant: Tenant)
    requires TenantIsColumn(relations)
    ensures IsLargestCleanPart(relations, model, kept, j, tenant) <==> kept == Scrub(relations, model, j, tenant)
    ensures Scrub(relations, model, Scrub(relations, model, j, tenant), tenant) == Scrub(relations, model, j, tenant)
  {
    var scrubbed := Scrub(relations, model, j, tenant);
    ScrubIsClean(relations, model, j, tenant);
    ScrubIsPruned(relations, model, j, tenant);
    CleanIsUntouched(relations, model, scrubbed, tenant);
    forall c | PrunedFrom(relations, model, c, j) && Clean(relations, model, c, tenant)
      ensures PrunedFrom(relations, model, c, scrubbed)
    {
      ScrubKeepsTheMost(relations, model, c, j, tenant);
    }
    if IsLargestCleanPart(relations, model, kept, j, tenant) {
      PruningIsAntisymmetric(relations, model, kept, scrubbed);
    }
  }
}
