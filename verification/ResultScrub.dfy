/** Scrubbing result rows as objects: copy-on-write, so the rows that came from the database stay as they were. */
module ResultScrub {
  import opened Values
  import opened Schemas
  import opened ScrubRelations
  import opened ResultObjects

  /** The owner test as it reads an object. */
  predicate IsForeign(v: JsVal, tenant: Tenant)
    reads if v.ObjRef? then {v.o} else {}
  {
    v.ObjRef? && TENANT_ID in v.o.fields && v.o.fields[TENANT_ID].Prim? && v.o.fields[TENANT_ID].j.Str?
    && v.o.fields[TENANT_ID].j.s != tenant
  }

  lemma ForeignView(t: Tree, tenant: Tenant)
    requires Holds(t)
    ensures IsForeign(Link(t), tenant) <==> Foreign(View(t), tenant)
  {
    if t.Branch? && TENANT_ID in t.kids {
      assert t.o.fields[TENANT_ID] == Link(t.kids[TENANT_ID]);
    }
  }

  ghost function Views(ts: seq<Tree>): (js: seq<Json>)
    ensures |js| == |ts|
    ensures forall i :: 0 <= i < |ts| ==> js[i] == View(ts[i])
  {
    seq(|ts|, i requires 0 <= i < |ts| => View(ts[i]))
  }

  lemma IdsOfOneMore(t: Tree, ts: seq<Tree>)
    ensures Ids(List([t] + ts)) == Ids(t) + Ids(List(ts))
  {
    var all := [t] + ts;
    assert all[0] == t && forall i :: 0 <= i < |ts| ==> ts[i] == all[i + 1];
    forall x | x in Ids(t) + Ids(List(ts)) ensures x in Ids(List(all)) {
      if x in Ids(t) {
        ItemIds(all, 0);
      } else {
        var i :| 0 <= i < |ts| && x in Ids(ts[i]);
        ItemIds(all, i + 1);
      }
    }
  }

  lemma UnsharedTail(t: Tree, ts: seq<Tree>)
    requires Unshared(List([t] + ts))
    ensures Unshared(t) && Unshared(List(ts)) && Ids(t) !! Ids(List(ts))
  {
    var all := [t] + ts;
    assert all[0] == t && all[1..] == ts;
    forall i | 0 <= i < |ts| ensures Unshared(ts[i]) && Ids(t) !! Ids(ts[i]) {
      assert ts[i] == all[i + 1];
    }
    forall i, j | 0 <= i < j < |ts| ensures Ids(ts[i]) !! Ids(ts[j]) {
      assert ts[i] == all[i + 1] && ts[j] == all[j + 1];
    }
  }

  lemma UnsharedItems(ts: seq<Tree>)
    ensures Unshared(List(ts)) <==>
              && (forall i :: 0 <= i < |ts| ==> Unshared(ts[i]))
              && forall i, j :: 0 <= i < j < |ts| ==> Ids(ts[i]) !! Ids(ts[j])
  {
  }

  lemma UnsharedInFront(t: Tree, ts: seq<Tree>)
    requires Unshared(t) && Unshared(List(ts)) && Ids(t) !! Ids(List(ts))
    ensures Unshared(List([t] + ts))
  {
    hide Ids, Unshared;
    var all := [t] + ts;
    UnsharedItems(ts);
    forall i | 0 <= i < |all| ensures Unshared(all[i]) {
      assert all[i] == if i == 0 then t else ts[i - 1];
    }
    forall i, j | 0 <= i < j < |all| ensures Ids(all[i]) !! Ids(all[j]) {
      assert all[i] == (if i == 0 then t else ts[i - 1]) && all[j] == ts[j - 1];
      ItemIds(ts, j - 1);
    }
    UnsharedItems(all);
  }

  lemma HeldListOfOneMore(t: Tree, ts: seq<Tree>)
    ensures Holds(List([t] + ts)) <==> Holds(t) && Holds(List(ts))
  {
    var all := [t] + ts;
    assert all[0] == t && forall i :: 0 <= i < |ts| ==> ts[i] == all[i + 1];
  }

  /** `t'` is made of objects of `t` and new ones, and is `t` itself if the value is the old one. */
  ghost predicate MadeFrom(v: JsVal, t: Tree, v': JsVal, t': Tree, made: set<JsObject>)
    reads Ids(t')
  {
    Held(v', t') && Ids(t') <= Ids(t) + made && (v' == v ==> t' == t)
  }

  lemma HeldInFront(v: JsVal, t: Tree, vs: seq<JsVal>, ts: seq<Tree>)
    requires Held(v, t) && Held(ArrVal(vs), List(ts)) && Ids(t) !! Ids(List(ts))
    ensures Held(ArrVal([v] + vs), List([t] + ts)) && Ids(List([t] + ts)) == Ids(t) + Ids(List(ts))
    ensures Views([t] + ts) == [View(t)] + Views(ts)
  {
    hide Unshared, Holds, Ids, View;
    IdsOfOneMore(t, ts);
    UnsharedInFront(t, ts);
    HeldListOfOneMore(t, ts);
    assert Links([t] + ts) == [Link(t)] + Links(ts);
  }

  /** A list that was put together unchanged is the old list. */
  lemma SameList(items: seq<JsVal>, v: JsVal, tail: seq<JsVal>, ts: seq<Tree>, head: Tree, rest: seq<Tree>)
    requires |items| == |ts| && items != []
    requires v == items[0] ==> head == ts[0]
    requires tail == items[1..] ==> rest == ts[1..]
    ensures [v] + tail == items ==> [head] + rest == ts
  {
    if [v] + tail == items {
      assert v == items[0] && tail == ([v] + tail)[1..] == items[1..];
      assert ts == [ts[0]] + ts[1..];
    }
  }

  /** A scrubbed first entry in front of the scrubbed rest. */
  lemma InFront(items: seq<JsVal>, ts: seq<Tree>, v: JsVal, head: Tree, tail: seq<JsVal>, rest: seq<Tree>,
                made1: set<JsObject>, made2: set<JsObject>)
    requires |items| == |ts| && items != []
    requires Ids(ts[0]) !! Ids(List(ts[1..])) && Ids(List(ts)) == Ids(ts[0]) + Ids(List(ts[1..]))
    requires made1 !! made2 && made1 + made2 !! Ids(List(ts))
    requires MadeFrom(items[0], ts[0], v, head, made1)
    requires MadeFrom(ArrVal(items[1..]), List(ts[1..]), ArrVal(tail), List(rest), made2)
    ensures MadeFrom(ArrVal(items), List(ts), ArrVal([v] + tail), List([head] + rest), made1 + made2)
    ensures Views([head] + rest) == [View(head)] + Views(rest)
  {
    hide Held, Ids, View;
    HeldInFront(v, head, tail, rest);
    SameList(items, v, tail, ts, head, rest);
  }

  lemma FirstOf(items: seq<JsVal>, ts: seq<Tree>)
    requires Held(ArrVal(items), List(ts)) && items != []
    ensures |ts| == |items| && Held(items[0], ts[0]) && Held(ArrVal(items[1..]), List(ts[1..]))
    ensures Ids(ts[0]) !! Ids(List(ts[1..])) && Ids(List(ts)) == Ids(ts[0]) + Ids(List(ts[1..]))
    ensures Views(ts) == [View(ts[0])] + Views(ts[1..])
  {
    hide Unshared, Holds, Ids, View;
    assert Links(ts) == items;
    var t, rest := ts[0], ts[1..];
    assert ts == [t] + rest;
    IdsOfOneMore(t, rest);
    UnsharedTail(t, rest);
    HeldListOfOneMore(t, rest);
    assert Links(rest) == items[1..];
  }

  lemma NoItems()
    ensures Held(ArrVal([]), List([])) && Ids(List([])) == {} && Views([]) == []
  {
  }

  lemma ScrubFirst(relations: RelationMap, model: Name, first: Json, rest: seq<Json>, tenant: Tenant)
    ensures ScrubAll(relations, model, [first] + rest, tenant)
            == [Scrub(relations, model, first, tenant)] + ScrubAll(relations, model, rest, tenant)
    ensures ScrubList(relations, model, [first] + rest, tenant)
            == (if Foreign(first, tenant) then [] else [Scrub(relations, model, first, tenant)])
               + ScrubList(relations, model, rest, tenant)
  {
    assert ([first] + rest)[1..] == rest;
  }

  /** The scrubbed rest of a list is what is left of the list when its first entry goes. */
  lemma FirstLeftOut(items: seq<JsVal>, ts: seq<Tree>, kept: seq<JsVal>, ts': seq<Tree>, made: set<JsObject>)
    requires |items| == |ts| && items != [] && |kept| < |items|
    requires Ids(List(ts)) == Ids(ts[0]) + Ids(List(ts[1..]))
    requires MadeFrom(ArrVal(items[1..]), List(ts[1..]), ArrVal(kept), List(ts'), made)
    ensures MadeFrom(ArrVal(items), List(ts), ArrVal(kept), List(ts'), made)
  {
    hide Held, Ids;
  }

  /** A list relation: foreign entries are left out, the others scrubbed. */
  method ScrubListEntries(relations: RelationMap, model: Name, items: seq<JsVal>, tenant: Tenant, ghost ts: seq<Tree>)
    returns (kept: seq<JsVal>, ghost ts': seq<Tree>, ghost made: set<JsObject>)
    requires |ts| == |items| && Held(ArrVal(items), List(ts))
    ensures MadeFrom(ArrVal(items), List(ts), ArrVal(kept), List(ts'), made) && fresh(made) && |kept| <= |items|
    ensures Views(ts') == ScrubList(relations, model, Views(ts), tenant)
    decreases ts, 1
  {
    NoItems();
    if items == [] { return [], [], {}; }
    ghost var known := Objects(List(ts));
    FirstOf(items, ts);
    ForeignView(ts[0], tenant);
    ScrubFirst(relations, model, View(ts[0]), Views(ts[1..]), tenant);
    hide Held, MadeFrom, Ids, View, Views, Foreign, Scrub, ScrubList;
    if IsForeign(items[0], tenant) {
      kept, ts', made := ScrubListEntries(relations, model, items[1..], tenant, ts[1..]);
      FirstLeftOut(items, ts, kept, ts', made);
      return;
    }
    kept, ts', made := KeepFirst(relations, model, items, tenant, ts);
  }

  /** The first entry of a list relation is kept: it is scrubbed, and then the rest. */
  method KeepFirst(relations: RelationMap, model: Name, items: seq<JsVal>, tenant: Tenant, ghost ts: seq<Tree>)
    returns (kept: seq<JsVal>, ghost ts': seq<Tree>, ghost made: set<JsObject>)
    requires |ts| == |items| && Held(ArrVal(items), List(ts)) && items != [] && !Foreign(View(ts[0]), tenant)
    ensures MadeFrom(ArrVal(items), List(ts), ArrVal(kept), List(ts'), made) && fresh(made) && |kept| <= |items|
    ensures Views(ts') == ScrubList(relations, model, Views(ts), tenant)
    decreases ts, 0
  {
    ghost var known := Objects(List(ts));
    FirstOf(items, ts);
    ScrubFirst(relations, model, View(ts[0]), Views(ts[1..]), tenant);
    hide Held, MadeFrom, Ids, View, Views, Foreign, Scrub, ScrubList;
    var v, tail;
    ghost var head, rest, made1, made2;
    v, head, made1 := ScrubForeignRelations(relations, model, items[0], tenant, ts[0]);
    ghost var objects := Objects(head);
    tail, rest, made2 := ScrubListEntries(relations, model, items[1..], tenant, ts[1..]);
    assert MadeFrom(items[0], ts[0], v, head, made1);
    InFront(items, ts, v, head, tail, rest, made1, made2);
    kept, ts', made := [v] + tail, [head] + rest, made1 + made2;
  }

  /** An array of rows: every row is scrubbed, none is dropped. */
  method ScrubRows(relations: RelationMap, model: Name, items: seq<JsVal>, tenant: Tenant, ghost ts: seq<Tree>)
    returns (rows: seq<JsVal>, ghost ts': seq<Tree>, ghost made: set<JsObject>)
    requires |ts| == |items| && Held(ArrVal(items), List(ts))
    ensures MadeFrom(ArrVal(items), List(ts), ArrVal(rows), List(ts'), made) && fresh(made) && |rows| == |items|
    ensures Views(ts') == ScrubAll(relations, model, Views(ts), tenant)
    decreases ts, 0
  {
    NoItems();
    if items == [] { return [], [], {}; }
    ghost var known := Objects(List(ts));
    FirstOf(items, ts);
    ScrubFirst(relations, model, View(ts[0]), Views(ts[1..]), tenant);
    hide Held, Ids, View, Views, Foreign, Scrub, ScrubAll;
    var v, tail;
    ghost var head, rest, made1, made2;
    v, head, made1 := ScrubForeignRelations(relations, model, items[0], tenant, ts[0]);
    ghost var objects := Objects(head);
    tail, rest, made2 := ScrubRows(relations, model, items[1..], tenant, ts[1..]);
    InFront(items, ts, v, head, tail, rest, made1, made2);
    rows, ts', made := [v] + tail, [head] + rest, made1 + made2;
  }

  method ScrubRelation(relations: RelationMap, meta: RelationMeta, value: JsVal, tenant: Tenant, ghost t: Tree)
    returns (r: JsVal, ghost t': Tree, ghost made: set<JsObject>)
    requires Held(value, t)
    ensures MadeFrom(value, t, r, t', made) && fresh(made)
    ensures View(t') == ScrubField(relations, meta, View(t), tenant)
    decreases t, 3
  {
    r, t', made := value, t, {};
    if meta.isList {
      if value.ArrVal? {
        var kept;
        ghost var ts;
        kept, ts, made := ScrubListEntries(relations, meta.target, value.items, tenant, t.items);
        r, t' := ArrVal(kept), List(ts);
        assert View(t).items == Views(t.items) && View(t').items == Views(ts);
      }
    } else {
      ForeignView(t, tenant);
      if IsForeign(value, tenant) {
        r, t' := Prim(Null), Leaf(Null);
      } else {
        r, t', made := ScrubForeignRelations(relations, meta.target, value, tenant, t);
      }
    }
  }

  lemma ArrayView(ts: seq<Tree>, ts': seq<Tree>, relations: RelationMap, model: Name, tenant: Tenant)
    requires Views(ts') == ScrubAll(relations, model, Views(ts), tenant)
    ensures View(List(ts')) == Scrub(relations, model, View(List(ts)), tenant)
  {
    hide ScrubAll;
    assert View(List(ts)).items == Views(ts) && View(List(ts')).items == Views(ts');
  }

  lemma ObjectView(o: JsObject, kids: map<Name, Tree>, o': JsObject, kids': map<Name, Tree>,
                   relations: RelationMap, model: Name, tenant: Tenant)
    requires kids'.Keys == kids.Keys
    requires forall k :: k in kids ==>
               View(kids'[k]) == var here := Relations(relations, model);
                                 if k in here then ScrubField(relations, here[k], View(kids[k]), tenant) else View(kids[k])
    ensures View(Branch(o', kids')) == Scrub(relations, model, View(Branch(o, kids)), tenant)
  {
    hide ScrubField;
    assert View(Branch(o', kids')).fields == Scrub(relations, model, View(Branch(o, kids)), tenant).fields;
  }

  /** The relations still pending are as they were, the others are scrubbed. */
  ghost predicate Done(relations: RelationMap, here: map<Name, RelationMeta>, tenant: Tenant, pending: set<Name>,
                       kids: map<Name, Tree>, now: map<Name, Tree>)
  {
    && now.Keys == kids.Keys
    && (forall k :: k in kids && (k !in here || k in pending) ==> now[k] == kids[k])
    && forall k :: k in kids && k in here && k !in pending ==>
         View(now[k]) == ScrubField(relations, here[k], View(kids[k]), tenant)
  }

  lemma DoneEnd(relations: RelationMap, here: map<Name, RelationMeta>, tenant: Tenant,
                kids: map<Name, Tree>, now: map<Name, Tree>)
    requires Done(relations, here, tenant, {}, kids, now)
    ensures now.Keys == kids.Keys
    ensures forall k :: k in kids ==>
              View(now[k]) == if k in here then ScrubField(relations, here[k], View(kids[k]), tenant) else View(kids[k])
  {
  }

  method ScrubForeignRelations(relations: RelationMap, model: Name, result: JsVal, tenant: Tenant, ghost t: Tree)
    returns (r: JsVal, ghost t': Tree, ghost made: set<JsObject>)
    requires Held(result, t)
    ensures MadeFrom(result, t, r, t', made) && fresh(made)
    ensures View(t') == Scrub(relations, model, View(t), tenant)
    decreases t, 2
  {
    r, t', made := result, t, {};
    match result
    case Prim(_) =>
    case ArrVal(items) =>
      var rows;
      ghost var ts;
      rows, ts, made := ScrubRows(relations, model, items, tenant, t.items);
      r, t' := ArrVal(rows), List(ts);
      ArrayView(t.items, ts, relations, model, tenant);
    case ObjRef(row) =>
      if model in relations {
        r, t', made := ScrubObject(relations, relations[model], row, tenant, t.kids);
        DoneEnd(relations, relations[model], tenant, t.kids, t'.kids);
        ObjectView(t.o, t.kids, t'.o, t'.kids, relations, model, tenant);
      } else {
        ObjectView(t.o, t.kids, t.o, t.kids, relations, model, tenant);
      }
  }

  /** A field of a row part-way: made of its old objects and new ones, and not holding the row itself. */
  ghost predicate Part(row: JsObject, was: Tree, now: Tree, made: set<JsObject>)
    reads Ids(now)
  {
    Held(Link(now), now) && Ids(now) <= Ids(was) + made && row !in Ids(now)
  }

  /** The fields of a row part-way, sharing nothing. */
  ghost predicate Midway(row: JsObject, kids: map<Name, Tree>, now: map<Name, Tree>, made: set<JsObject>)
    reads set k, x | k in now && x in Ids(now[k]) :: x
  {
    && now.Keys == kids.Keys
    && (forall k :: k in now ==> Part(row, kids[k], now[k], made))
    && forall a, b :: a in now && b in now && a != b ==> Ids(now[a]) !! Ids(now[b])
  }

  /** An object's fields are the links to its trees. */
  ghost predicate Fielded(o: JsObject, kids: map<Name, Tree>)
    reads o
  {
    o.fields == map k | k in kids :: Link(kids[k])
  }

  /** The copy, once there is one, holds the row's fields as they are by now. */
  ghost predicate CopyOf(copy: JsObject?, kids: map<Name, Tree>, now: map<Name, Tree>)
    reads copy
  {
    if copy == null then now == kids
    else Fielded(copy, now) && forall k :: k in now ==> copy !in Ids(now[k])
  }

  /** The row and its copy, if there is one yet, part-way. */
  ghost predicate Shape(row: JsObject, copy: JsObject?, kids: map<Name, Tree>, now: map<Name, Tree>, made: set<JsObject>)
    reads row, copy, set k, x | k in now && x in Ids(now[k]) :: x
  {
    copy != row && copy !in made && Fielded(row, kids) && CopyOf(copy, kids, now) && Midway(row, kids, now, made)
  }

  lemma MidwayStart(row: JsObject, kids: map<Name, Tree>)
    requires Held(ObjRef(row), Branch(row, kids))
    ensures Midway(row, kids, kids, {}) && Fielded(row, kids) && row in Ids(Branch(row, kids)) && CopyOf(null, kids, kids)
    ensures Shape(row, null, kids, kids, {})
  {
    forall k | k in kids ensures Ids(kids[k]) <= Ids(Branch(row, kids)) {
      KidIds(row, kids, k);
    }
  }

  lemma MidwayNext(row: JsObject, kids: map<Name, Tree>, now: map<Name, Tree>, made: set<JsObject>,
                   key: Name, kid: Tree, more: set<JsObject>)
    requires Midway(row, kids, now, made) && key in now
    requires Held(Link(kid), kid) && Ids(kid) <= Ids(now[key]) + more
    requires row !in more && forall k :: k in now ==> Ids(now[k]) !! more
    ensures Midway(row, kids, now[key := kid], made + more)
  {
    hide Held, Ids, Link;
    var after := now[key := kid];
    assert after.Keys == now.Keys;
    forall k | k in after ensures Part(row, kids[k], after[k], made + more) {
      assert Part(row, kids[k], now[k], made);
    }
    hide Part;
    forall a, b | a in after && b in after && a != b ensures Ids(after[a]) !! Ids(after[b]) {
      assert a in now && b in now && Ids(now[a]) !! Ids(now[b]);
    }
  }

  lemma LinkOf(v: JsVal, t: Tree)
    requires Held(v, t)
    ensures Link(t) == v
  {
  }

  /** Without a copy the row is what it was; with one, the copy is the scrubbed row. */
  lemma MidwayEnd(row: JsObject, kids: map<Name, Tree>, now: map<Name, Tree>, made: set<JsObject>, copy: JsObject?)
    requires Held(ObjRef(row), Branch(row, kids)) && Shape(row, copy, kids, now, made)
    ensures copy == null ==> now == kids && MadeFrom(ObjRef(row), Branch(row, kids), ObjRef(row), Branch(row, kids), made)
    ensures copy != null ==>
              MadeFrom(ObjRef(row), Branch(row, kids), ObjRef(copy), Branch(copy, now), made + {copy})
  {
    if copy != null {
      forall k | k in kids ensures Ids(kids[k]) <= Ids(Branch(row, kids)) {
        KidIds(row, kids, k);
      }
    }
  }

  /** The objects of all fields, as a value: what a caller holds is allocated. */
  lemma KidObjects(kids: map<Name, Tree>) returns (objects: set<JsObject>)
    ensures forall k :: k in kids ==> Ids(kids[k]) <= objects
  {
    objects := set k, x: JsObject | k in kids && x in Ids(kids[k]) :: x;
  }

  lemma CopyNext(kids: map<Name, Tree>, now: map<Name, Tree>, key: Name, kid: Tree, copy: JsObject)
    requires key in now && copy.fields == (map k | k in now :: Link(now[k]))[key := Link(kid)]
    requires copy !in Ids(kid) && forall k :: k in now ==> copy !in Ids(now[k])
    ensures CopyOf(copy, kids, now[key := kid])
  {
    hide Ids, Link;
    var after := now[key := kid];
    var links := map k | k in after :: Link(after[k]);
    assert links.Keys == copy.fields.Keys;
    assert forall k :: k in links ==> links[k] == copy.fields[k];
    assert links == copy.fields;
  }

  /** Writes one changed field, into a copy made of the row's own fields if there is none yet. */
  method PutField(row: JsObject, copy: JsObject?, key: Name, v: JsVal, ghost kids: map<Name, Tree>,
                  ghost now: map<Name, Tree>, ghost kid: Tree)
    returns (copy': JsObject)
    requires key in now && v == Link(kid) && CopyOf(copy, kids, now)
    requires copy != null ==> copy !in Ids(kid)
    requires Fielded(row, kids)
    modifies copy
    ensures CopyOf(copy', kids, now[key := kid])
    ensures if copy == null then fresh(copy') else copy' == copy
  {
    ghost var known := KidObjects(now);
    ghost var objects := Objects(kid);
    hide Ids, Link;
    if copy == null {
      copy' := new JsObject(row.fields);
    } else {
      copy' := copy;
    }
    assert copy == null ==> copy' !in known;
    copy'.fields := copy'.fields[key := v];
    CopyNext(kids, now, key, kid, copy');
  }

  lemma DoneNext(relations: RelationMap, here: map<Name, RelationMeta>, tenant: Tenant, pending: set<Name>,
                 kids: map<Name, Tree>, now: map<Name, Tree>, key: Name, kid: Tree)
    requires Done(relations, here, tenant, pending, kids, now) && key in pending && key in here
    requires key in kids ==> View(kid) == ScrubField(relations, here[key], View(kids[key]), tenant)
    ensures key in kids ==> Done(relations, here, tenant, pending - {key}, kids, now[key := kid])
    ensures key !in kids ==> Done(relations, here, tenant, pending - {key}, kids, now)
    ensures key in kids ==> now[key] == kids[key] && now[key := now[key]] == now
  {
    hide View, ScrubField;
  }

  lemma CopyApart(copy: JsObject?, kids: map<Name, Tree>, now: map<Name, Tree>, row: JsObject, made: set<JsObject>,
                  kid: Tree, more: set<JsObject>, key: Name)
    requires CopyOf(copy, kids, now) && Midway(row, kids, now, made) && key in now
    requires Ids(kid) <= Ids(now[key]) + more && copy !in more
    ensures now.Keys == kids.Keys && copy !in Ids(kid) && forall k :: k in now ==> copy !in Ids(now[k])
  {
  }

  /** Writes one scrubbed relation, into a copy made of the row's own fields if there is none yet. */
  method Change(row: JsObject, copy: JsObject?, ghost kids: map<Name, Tree>, ghost now: map<Name, Tree>,
                ghost made: set<JsObject>, key: Name, v: JsVal, ghost kid: Tree, ghost more: set<JsObject>)
    returns (copy': JsObject)
    requires Shape(row, copy, kids, now, made) && key in now
    requires Held(v, kid) && Ids(kid) <= Ids(now[key]) + more
    requires row !in more && copy !in more && forall k :: k in now ==> Ids(now[k]) !! more
    modifies copy
    ensures Shape(row, copy', kids, now[key := kid], made + more)
    ensures if copy == null then fresh(copy') else copy' == copy
  {
    LinkOf(v, kid);
    ghost var known := KidObjects(now);
    ghost var objects := Objects(kid);
    ghost var others := made + more;
    CopyApart(copy, kids, now, row, made, kid, more, key);
    hide Fielded, Held, Ids, Midway, CopyOf, Link;
    copy' := PutField(row, copy, key, v, kids, now, kid);
    assert forall k :: k in now ==> Ids(now[k]) <= known;
    assert old(Held(v, kid)) && Held(v, kid);
    assert old(Midway(row, kids, now, made)) && Midway(row, kids, now, made);
    MidwayNext(row, kids, now, made, key, kid, more);
  }

  lemma FieldedHeld(row: JsObject, copy: JsObject?, kids: map<Name, Tree>, now: map<Name, Tree>, made: set<JsObject>, key: Name)
    requires Shape(row, copy, kids, now, made) && key in kids && now[key] == kids[key]
    ensures key in row.fields && Held(row.fields[key], kids[key])
  {
  }

  method PutIfChanged(row: JsObject, copy: JsObject?, ghost kids: map<Name, Tree>, ghost now: map<Name, Tree>,
                      ghost made: set<JsObject>, key: Name, value: JsVal, v: JsVal, ghost kid: Tree, ghost more: set<JsObject>)
    returns (copy': JsObject?)
    requires Shape(row, copy, kids, now, made) && key in now
    requires MadeFrom(value, now[key], v, kid, more)
    requires row !in more && copy !in more && forall k :: k in now ==> Ids(now[k]) !! more
    modifies copy
    ensures Shape(row, copy', kids, now[key := kid], made + more)
    ensures copy' == copy || (copy == null && fresh(copy'))
  {
    copy' := copy;
    if v != value {
      copy' := Change(row, copy, kids, now, made, key, v, kid, more);
    } else {
      assert now[key := kid] == now;
      MidwayNext(row, kids, now, made, key, kid, more);
    }
  }

  /** One relation of a row. */
  method ScrubKey(relations: RelationMap, meta: RelationMeta, tenant: Tenant, row: JsObject, copy: JsObject?, key: Name,
                  ghost kids: map<Name, Tree>, ghost now: map<Name, Tree>, ghost made: set<JsObject>)
    returns (copy': JsObject?, ghost kid: Tree, ghost made': set<JsObject>)
    requires Shape(row, copy, kids, now, made) && key in kids && now.Keys == kids.Keys && now[key] == kids[key]
    modifies copy
    ensures Shape(row, copy', kids, now[key := kid], made')
    ensures View(kid) == ScrubField(relations, meta, View(kids[key]), tenant)
    ensures made <= made' && fresh(made' - made) && (copy' == copy || (copy == null && fresh(copy')))
    decreases kids[key], 4
  {
    var value := row.fields[key];
    ghost var known := KidObjects(now);
    FieldedHeld(row, copy, kids, now, made, key);
    hide View, ScrubField, Held, Ids, Shape;
    var v;
    ghost var more;
    v, kid, more := ScrubRelation(relations, meta, value, tenant, kids[key]);
    assert known !! more;
    assert forall k :: k in now ==> Ids(now[k]) !! more;
    assert old(Shape(row, copy, kids, now, made)) && Shape(row, copy, kids, now, made);
    copy' := PutIfChanged(row, copy, kids, now, made, key, value, v, kid, more);
    made' := made + more;
  }

  lemma DoneKeys(relations: RelationMap, here: map<Name, RelationMeta>, tenant: Tenant, pending: set<Name>,
                 kids: map<Name, Tree>, now: map<Name, Tree>, key: Name)
    requires Done(relations, here, tenant, pending, kids, now) && key in pending
    ensures now.Keys == kids.Keys && (key in kids ==> now[key] == kids[key])
  {
  }

  /** One key of the relation map: the row's field, if it has one, is scrubbed. */
  method ScrubNext(relations: RelationMap, here: map<Name, RelationMeta>, tenant: Tenant, row: JsObject, copy: JsObject?,
                   key: Name, pending: set<Name>, ghost kids: map<Name, Tree>, ghost now: map<Name, Tree>,
                   ghost made: set<JsObject>)
    returns (copy': JsObject?, ghost now': map<Name, Tree>, ghost made': set<JsObject>)
    requires Shape(row, copy, kids, now, made) && Done(relations, here, tenant, pending, kids, now)
    requires key in pending && key in here
    modifies copy
    ensures Shape(row, copy', kids, now', made') && Done(relations, here, tenant, pending - {key}, kids, now')
    ensures made <= made' && fresh(made' - made) && (copy' == copy || (copy == null && fresh(copy')))
    decreases Branch(row, kids), 0
  {
    DoneKeys(relations, here, tenant, pending, kids, now, key);
    assert row.fields.Keys == kids.Keys;
    hide Done, View, ScrubField, CopyOf, Midway, Fielded, Shape;
    copy', now', made' := copy, now, made;
    ghost var kid := Leaf(Null);
    if key in row.fields {
      copy', kid, made' := ScrubKey(relations, here[key], tenant, row, copy, key, kids, now, made);
      now' := now[key := kid];
    }
    DoneNext(relations, here, tenant, pending, kids, now, key, kid);
  }

  /** One row: each relation it has is scrubbed; a copy of the row is made when the first of them changes. */
  method ScrubObject(relations: RelationMap, here: map<Name, RelationMeta>, row: JsObject, tenant: Tenant,
                     ghost kids: map<Name, Tree>)
    returns (r: JsVal, ghost t': Tree, ghost made: set<JsObject>)
    requires Held(ObjRef(row), Branch(row, kids))
    ensures MadeFrom(ObjRef(row), Branch(row, kids), r, t', made) && fresh(made)
    ensures t'.Branch? && Done(relations, here, tenant, {}, kids, t'.kids)
    decreases Branch(row, kids), 1
  {
    var copy: JsObject? := null;
    ghost var now := kids;
    made := {};
    var pending := here.Keys;
    assert Done(relations, here, tenant, pending, kids, now);
    hide Held, Ids, View, ScrubField, CopyOf, Midway, Fielded, Shape, Done, MadeFrom;
    MidwayStart(row, kids);
    ghost var known := Objects(Branch(row, kids));
    while pending != {}
      invariant pending <= here.Keys && fresh(made) && (copy != null ==> fresh(copy))
      invariant Shape(row, copy, kids, now, made) && Done(relations, here, tenant, pending, kids, now)
      decreases pending
    {
      var key :| key in pending;
      copy, now, made := ScrubNext(relations, here, tenant, row, copy, key, pending, kids, now, made);
      pending := pending - {key};
    }
    MidwayEnd(row, kids, now, made, copy);
    if copy == null {
      r, t' := ObjRef(row), Branch(row, kids);
    } else {
      r, t', made := ObjRef(copy), Branch(copy, now), made + {copy};
    }
  }
}
