/** Result rows as the objects they are: scrubbing copies what it changes, stripping deletes in place. */
module ResultObjects {
  import opened Values
  import opened StripForced

  type Scalar = j: Json | !j.Arr? && !j.Obj? witness Null

  class JsObject {
    var fields: map<Name, JsVal>

    constructor (fields: map<Name, JsVal>)
      ensures this.fields == fields
    {
      this.fields := fields;
    }
  }

  datatype JsVal = Prim(j: Scalar) | ObjRef(o: JsObject) | ArrVal(items: seq<JsVal>)

  /** Which object stands where in a result: the shape that heap contents are compared with. */
  datatype Tree = Leaf(j: Scalar) | Branch(o: JsObject, kids: map<Name, Tree>) | List(items: seq<Tree>)

  function Link(t: Tree): JsVal {
    match t
    case Leaf(j) => Prim(j)
    case Branch(o, _) => ObjRef(o)
    case List(items) => ArrVal(Links(items))
  }

  function Links(ts: seq<Tree>): (vs: seq<JsVal>)
    ensures |vs| == |ts|
    ensures forall i :: 0 <= i < |ts| ==> vs[i] == Link(ts[i])
  {
    seq(|ts|, i requires 0 <= i < |ts| => Link(ts[i]))
  }

  /** The value a tree stands for. */
  ghost function View(t: Tree): Json {
    match t
    case Leaf(j) => j
    case Branch(_, kids) => Obj(map k | k in kids :: View(kids[k]))
    case List(items) => Arr(seq(|items|, i requires 0 <= i < |items| => View(items[i])))
  }

  ghost function Ids(t: Tree): set<JsObject> {
    match t
    case Leaf(_) => {}
    case Branch(o, kids) => {o} + set k, x | k in kids && x in Ids(kids[k]) :: x
    case List(items) => set i, x | 0 <= i < |items| && x in Ids(items[i]) :: x
  }

  /** Every object is reached by one path. */
  ghost predicate Unshared(t: Tree) {
    match t
    case Leaf(_) => true
    case Branch(o, kids) =>
      && (forall k :: k in kids ==> Unshared(kids[k]) && o !in Ids(kids[k]))
      && forall a, b :: a in kids && b in kids && a != b ==> Ids(kids[a]) !! Ids(kids[b])
    case List(items) =>
      && (forall i :: 0 <= i < |items| ==> Unshared(items[i]))
      && forall i, j :: 0 <= i < j < |items| ==> Ids(items[i]) !! Ids(items[j])
  }

  /** The heap holds this tree. */
  ghost predicate Holds(t: Tree)
    reads Ids(t)
  {
    match t
    case Leaf(_) => true
    case Branch(o, kids) =>
      && o.fields == (map k | k in kids :: Link(kids[k]))
      && forall k :: k in kids ==> Holds(kids[k])
    case List(items) => forall i :: 0 <= i < |items| ==> Holds(items[i])
  }

  /** The objects of a tree, as a value: what a caller holds is allocated. */
  lemma Objects(t: Tree) returns (objects: set<JsObject>)
    ensures objects == Ids(t)
  {
    objects := Ids(t);
  }

  lemma ItemIds(items: seq<Tree>, i: nat)
    requires i < |items|
    ensures Ids(items[i]) <= Ids(List(items))
  {
  }

  lemma KidIds(o: JsObject, kids: map<Name, Tree>, k: Name)
    requires k in kids
    ensures Ids(kids[k]) <= Ids(Branch(o, kids)) && o in Ids(Branch(o, kids))
  {
  }

  /** Trees that were shrunk entry by entry make up an unshared list again. */
  lemma ShrunkList(before: seq<Tree>, after: seq<Tree>)
    requires |after| == |before| && Unshared(List(before))
    requires forall i :: 0 <= i < |after| ==> Ids(after[i]) <= Ids(before[i]) && Unshared(after[i])
    ensures Unshared(List(after)) && Ids(List(after)) <= Ids(List(before))
  {
    forall i, x | 0 <= i < |after| && x in Ids(after[i]) ensures x in Ids(List(before)) {
      ItemIds(before, i);
    }
  }

  lemma ShrunkBranch(o: JsObject, kids: map<Name, Tree>, k: Name, kid: Tree)
    requires Unshared(Branch(o, kids)) && k in kids && Unshared(kid) && Ids(kid) <= Ids(kids[k])
    ensures Unshared(Branch(o, kids[k := kid])) && Ids(Branch(o, kids[k := kid])) <= Ids(Branch(o, kids))
  {
    var after := kids[k := kid];
    forall a, x | a in after && x in Ids(after[a]) ensures x in Ids(Branch(o, kids)) {
      KidIds(o, kids, a);
    }
  }

  /** The heap holds the unshared tree `t`, and `v` is the way to it. */
  ghost predicate Held(v: JsVal, t: Tree)
    reads Ids(t)
  {
    Link(t) == v && Unshared(t) && Holds(t)
  }

  /** `t'` is what is left of `t`, under the same link. */
  ghost predicate Shrunk(v: JsVal, t: Tree, t': Tree)
    reads Ids(t')
  {
    Held(v, t') && Ids(t') <= Ids(t)
  }

  function DropFromEntry(entry: Json): Json {
    if entry.Obj? then Obj(entry.fields - {TENANT_ID}) else entry
  }

  /** A branch without one of its kids. */
  lemma DroppedKid(o: JsObject, kids: map<Name, Tree>, key: Name)
    requires Unshared(Branch(o, kids))
    ensures Unshared(Branch(o, kids - {key})) && Ids(Branch(o, kids - {key})) <= Ids(Branch(o, kids))
    ensures View(Branch(o, kids - {key})) == Obj(View(Branch(o, kids)).fields - {key})
  {
    forall k, x | k in kids - {key} && x in Ids(kids[k]) ensures x in Ids(Branch(o, kids)) {
      KidIds(o, kids, k);
    }
    assert View(Branch(o, kids - {key})).fields == View(Branch(o, kids)).fields - {key};
  }

  lemma HoldsKids(o: JsObject, kids: map<Name, Tree>)
    ensures Holds(Branch(o, kids)) <==>
              o.fields == (map k | k in kids :: Link(kids[k])) && forall k :: k in kids ==> Holds(kids[k])
    ensures Unshared(Branch(o, kids)) ==> forall k :: k in kids ==> o !in Ids(kids[k])
    ensures o in Ids(Branch(o, kids)) && forall k :: k in kids ==> Ids(kids[k]) <= Ids(Branch(o, kids))
  {
    forall k | k in kids ensures Ids(kids[k]) <= Ids(Branch(o, kids)) {
      KidIds(o, kids, k);
    }
  }

  /** `now` is `was` with each tree shrunk at most, and the heap holds it under the same links. */
  ghost predicate Tracks(items: seq<JsVal>, was: seq<Tree>, now: seq<Tree>)
    reads set i, x | 0 <= i < |now| && x in Ids(now[i]) :: x
  {
    |items| == |was| == |now| && forall i :: 0 <= i < |now| ==> Shrunk(items[i], was[i], now[i])
  }

  /** What a held value is, by its form. */
  lemma HeldForm(v: JsVal, t: Tree)
    requires Held(v, t)
    ensures v.ObjRef? ==> t.Branch? && t.o == v.o
    ensures v.ArrVal? ==> t.List? && Links(t.items) == v.items && Tracks(v.items, t.items, t.items)
    ensures v.Prim? ==> t.Leaf? && t.j == v.j
    ensures Shrunk(v, t, t)
  {
  }

  method DeleteFromObject(o: JsObject, ghost kids: map<Name, Tree>) returns (ghost t': Tree)
    requires Held(ObjRef(o), Branch(o, kids))
    modifies Ids(Branch(o, kids))
    ensures Shrunk(ObjRef(o), Branch(o, kids), t') && View(t') == DropFromEntry(View(Branch(o, kids)))
  {
    ghost var objects := Objects(Branch(o, kids));
    HoldsKids(o, kids);
    DroppedKid(o, kids, TENANT_ID);
    hide Unshared, Ids, Holds, View;
    o.fields := o.fields - {TENANT_ID};
    forall k | k in kids ensures Holds(kids[k]) {
      assert o !in Ids(kids[k]) && Ids(kids[k]) <= objects && old(Holds(kids[k]));
    }
    HoldsKids(o, kids - {TENANT_ID});
    t' := Branch(o, kids - {TENANT_ID});
  }

  method DeleteFromEntry(entry: JsVal, ghost t: Tree) returns (ghost t': Tree)
    requires Held(entry, t)
    modifies Ids(t)
    ensures Shrunk(entry, t, t') && View(t') == DropFromEntry(View(t))
  {
    HeldForm(entry, t);
    t' := t;
    if entry.ObjRef? {
      t' := DeleteFromObject(entry.o, t.kids);
    }
  }

  lemma DisjointItems(was: seq<Tree>, now: seq<Tree>, i: nat)
    requires Unshared(List(was)) && |now| == |was| && i < |was|
    requires forall j :: 0 <= j < |now| ==> Ids(now[j]) <= Ids(was[j])
    ensures forall j :: 0 <= j < |now| ==> Ids(now[j]) <= Ids(List(was))
    ensures forall j :: 0 <= j < |now| && j != i ==> Ids(now[j]) !! Ids(was[i])
    ensures Ids(was[i]) <= Ids(List(was)) && Unshared(was[i])
  {
    forall j | 0 <= j < |now| ensures Ids(now[j]) <= Ids(List(was)) {
      ItemIds(was, j);
    }
  }

  lemma TracksEntry(items: seq<JsVal>, was: seq<Tree>, now: seq<Tree>, i: nat)
    requires Tracks(items, was, now) && i < |was| && now[i..] == was[i..] && Unshared(List(was))
    ensures now[i] == was[i] && Held(items[i], was[i])
    ensures forall j :: 0 <= j < |now| ==> Shrunk(items[j], was[j], now[j]) && Ids(now[j]) <= Ids(List(was))
    ensures forall j :: 0 <= j < |now| && j != i ==> Ids(now[j]) !! Ids(was[i])
  {
    assert now[i] == now[i..][0] == was[i..][0] == was[i];
    DisjointItems(was, now, i);
  }

  lemma TracksNext(items: seq<JsVal>, was: seq<Tree>, now: seq<Tree>, i: nat, next: Tree)
    requires |items| == |was| == |now| && i < |now| && Shrunk(items[i], was[i], next)
    requires forall j :: 0 <= j < |now| && j != i ==> Shrunk(items[j], was[j], now[j])
    ensures Tracks(items, was, now[i := next])
  {
    hide Shrunk;
  }

  method DeleteFromOne(items: seq<JsVal>, i: nat, ghost was: seq<Tree>, ghost now: seq<Tree>)
    returns (ghost next: Tree)
    requires i < |items| == |was| && Unshared(List(was)) && Tracks(items, was, now) && now[i..] == was[i..]
    modifies Ids(was[i])
    ensures Tracks(items, was, now[i := next]) && View(next) == DropFromEntry(View(was[i]))
  {
    ghost var objects := Objects(List(was));
    TracksEntry(items, was, now, i);
    hide Unshared, View, Ids, Link, Held, Shrunk, Tracks, DropFromEntry;
    next := DeleteFromEntry(items[i], was[i]);
    forall j | 0 <= j < |now| && j != i ensures Shrunk(items[j], was[j], now[j]) {
      assert Ids(now[j]) !! Ids(was[i]) && Ids(now[j]) <= objects && old(Shrunk(items[j], was[j], now[j]));
    }
    TracksNext(items, was, now, i, next);
  }

  /** Deleting `tenantId` from each object of an array. */
  method DeleteFromEntries(items: seq<JsVal>, ghost ts: seq<Tree>) returns (ghost ts': seq<Tree>)
    requires Unshared(List(ts)) && Tracks(items, ts, ts)
    modifies Ids(List(ts))
    ensures Tracks(items, ts, ts')
    ensures forall i :: 0 <= i < |ts| ==> View(ts'[i]) == DropFromEntry(View(ts[i]))
  {
    ts' := ts;
    hide Unshared, View, Ids, Shrunk, DropFromEntry;
    for i := 0 to |items|
      invariant Tracks(items, ts, ts') && ts'[i..] == ts[i..]
      invariant forall j :: 0 <= j < i ==> View(ts'[j]) == DropFromEntry(View(ts[j]))
    {
      ItemIds(ts, i);
      ghost var next := DeleteFromOne(items, i, ts, ts');
      assert ts'[i := next][i + 1..] == ts'[i..][1..] && ts[i + 1..] == ts[i..][1..];
      ts' := ts'[i := next];
    }
  }

  /** A list whose entries shrank is the shrunk list. */
  lemma ShrunkItems(items: seq<JsVal>, ts: seq<Tree>, done: seq<Tree>)
    requires Unshared(List(ts)) && Tracks(items, ts, done)
    ensures Shrunk(ArrVal(items), List(ts), List(done))
  {
    ShrunkList(ts, done);
    assert Links(done) == items;
  }

  /** Deleting `tenantId` from a relation: an object, or every object of an array. */
  method DeleteTenant(child: JsVal, ghost t: Tree) returns (ghost t': Tree)
    requires Held(child, t)
    modifies Ids(t)
    ensures Shrunk(child, t, t') && View(t') == DropTenant(View(t))
  {
    HeldForm(child, t);
    match child
    case Prim(_) =>
      t' := t;
    case ObjRef(_) =>
      t' := DeleteFromEntry(child, t);
    case ArrVal(items) =>
      hide Ids, Shrunk, Tracks;
      ghost var done := DeleteFromEntries(items, t.items);
      ShrunkItems(items, t.items, done);
      t' := List(done);
  }

  method StripOne(items: seq<JsVal>, i: nat, path: Path, depth: nat, ghost was: seq<Tree>, ghost now: seq<Tree>)
    returns (ghost next: Tree)
    requires depth <= |path|
    requires i < |items| == |was| && Unshared(List(was)) && Tracks(items, was, now) && now[i..] == was[i..]
    modifies Ids(was[i])
    ensures Tracks(items, was, now[i := next]) && View(next) == StripAt(View(was[i]), path[depth..])
    decreases was[i], 2
  {
    ghost var objects := Objects(List(was));
    TracksEntry(items, was, now, i);
    hide Unshared, View, Ids, Link, Held, Shrunk, Tracks, StripAt;
    next := StripAtInPlace(items[i], path, depth, was[i]);
    forall j | 0 <= j < |now| && j != i ensures Shrunk(items[j], was[j], now[j]) {
      assert Ids(now[j]) !! Ids(was[i]) && Ids(now[j]) <= objects && old(Shrunk(items[j], was[j], now[j]));
    }
    TracksNext(items, was, now, i, next);
  }

  method StripEntries(items: seq<JsVal>, path: Path, depth: nat, ghost ts: seq<Tree>)
    returns (ghost ts': seq<Tree>)
    requires depth <= |path|
    requires Unshared(List(ts)) && Tracks(items, ts, ts)
    modifies Ids(List(ts))
    ensures Tracks(items, ts, ts')
    ensures forall i :: 0 <= i < |ts| ==> View(ts'[i]) == StripAt(View(ts[i]), path[depth..])
    decreases ts, 0
  {
    ts' := ts;
    hide Unshared, View, Ids, Shrunk, StripAt;
    for i := 0 to |items|
      invariant Tracks(items, ts, ts') && ts'[i..] == ts[i..]
      invariant forall j :: 0 <= j < i ==> View(ts'[j]) == StripAt(View(ts[j]), path[depth..])
    {
      ItemIds(ts, i);
      ghost var next := StripOne(items, i, path, depth, ts, ts');
      assert ts'[i := next][i + 1..] == ts'[i..][1..] && ts[i + 1..] == ts[i..][1..];
      ts' := ts'[i := next];
    }
  }

  /** Where a path leads nowhere, nothing is stripped. */
  lemma NothingToStrip(v: JsVal, t: Tree, path: Path)
    requires Held(v, t)
    requires v.Prim? || (v.ObjRef? && (path == [] || path[0] !in v.o.fields || v.o.fields[path[0]].Prim?))
    ensures StripAt(View(t), path) == View(t)
  {
    if v.ObjRef? && path != [] && path[0] in v.o.fields {
      assert v.o.fields[path[0]] == Link(t.kids[path[0]]);
      assert StripAt(View(t), path).fields == View(t).fields;
    }
  }

  lemma StrippedItems(ts: seq<Tree>, done: seq<Tree>, path: Path)
    requires |done| == |ts| && forall i :: 0 <= i < |ts| ==> View(done[i]) == StripAt(View(ts[i]), path)
    ensures View(List(done)) == StripAt(View(List(ts)), path)
  {
    assert View(List(done)).items == StripAt(View(List(ts)), path).items;
  }

  /** Strips one forced path from a result, in place. */
  method StripAtInPlace(node: JsVal, path: Path, depth: nat, ghost t: Tree) returns (ghost t': Tree)
    requires depth <= |path|
    requires Held(node, t)
    modifies Ids(t)
    ensures Shrunk(node, t, t') && View(t') == StripAt(View(t), path[depth..])
    decreases t, 1
  {
    HeldForm(node, t);
    match node
    case Prim(_) =>
      NothingToStrip(node, t, path[depth..]);
      t' := t;
    case ArrVal(items) =>
      hide Ids, Shrunk, View, StripAt;
      ghost var done := StripEntries(items, path, depth, t.items);
      ShrunkItems(items, t.items, done);
      StrippedItems(t.items, done, path[depth..]);
      t' := List(done);
    case ObjRef(o) =>
      t' := StripObject(o, path, depth, t.kids);
  }

  method StripObject(o: JsObject, path: Path, depth: nat, ghost kids: map<Name, Tree>) returns (ghost t': Tree)
    requires depth <= |path|
    requires Held(ObjRef(o), Branch(o, kids))
    modifies Ids(Branch(o, kids))
    ensures Shrunk(ObjRef(o), Branch(o, kids), t') && View(t') == StripAt(View(Branch(o, kids)), path[depth..])
    decreases Branch(o, kids), 0
  {
    t' := Branch(o, kids);
    HeldForm(ObjRef(o), t');
    HoldsKids(o, kids);
    hide Ids, View, StripAt, Unshared, Holds;
    if depth < |path| && path[depth] in o.fields {
      var child := o.fields[path[depth]];
      if child != Prim(Null) && child != Prim(Undefined) {
        t' := StripField(o, path[depth], child, path, depth, kids);
        return;
      }
    }
    NothingToStrip(ObjRef(o), t', path[depth..]);
  }

  lemma HeldKids(o: JsObject, kids: map<Name, Tree>, key: Name)
    requires Held(ObjRef(o), Branch(o, kids)) && key in kids
    ensures o !in Ids(kids[key]) && o in Ids(Branch(o, kids)) && Held(Link(kids[key]), kids[key])
    ensures forall k :: k in kids ==>
              Ids(kids[k]) <= Ids(Branch(o, kids)) && Holds(kids[k]) && (k != key ==> Ids(kids[k]) !! Ids(kids[key]))
  {
    forall k | k in kids ensures Ids(kids[k]) <= Ids(Branch(o, kids)) {
      KidIds(o, kids, k);
    }
  }

  lemma BranchHolds(o: JsObject, kids: map<Name, Tree>, key: Name, kid: Tree)
    requires key in kids && Link(kid) == Link(kids[key]) && Holds(kid)
    requires o.fields == map k | k in kids :: Link(kids[k])
    requires forall k :: k in kids && k != key ==> Holds(kids[k])
    ensures Holds(Branch(o, kids[key := kid]))
  {
    var after := kids[key := kid];
    assert o.fields == map k | k in after :: Link(after[k]);
  }

  /** Replacing the field a path starts with is all that stripping the path does to an object. */
  lemma StripOneField(o: JsObject, kids: map<Name, Tree>, path: Path, kid: Tree)
    requires path != [] && path[0] in kids
    requires View(kid) == if |path| == 1 then DropTenant(View(kids[path[0]])) else StripAt(View(kids[path[0]]), path[1..])
    ensures View(Branch(o, kids[path[0] := kid])) == StripAt(View(Branch(o, kids)), path)
  {
    var after := kids[path[0] := kid];
    assert forall k :: k in after ==> k in kids;
    assert View(Branch(o, after)).fields == StripAt(View(Branch(o, kids)), path).fields;
  }

  method StripField(o: JsObject, key: Name, child: JsVal, path: Path, depth: nat, ghost kids: map<Name, Tree>)
    returns (ghost t': Tree)
    requires depth < |path| && path[depth] == key && key in kids && Link(kids[key]) == child
    requires Held(ObjRef(o), Branch(o, kids))
    modifies Ids(kids[key])
    ensures Shrunk(ObjRef(o), Branch(o, kids), t')
    ensures View(t') == StripAt(View(Branch(o, kids)), path[depth..])
    decreases kids[key], 2
  {
    ghost var objects := Objects(Branch(o, kids));
    ghost var kid := kids[key];
    HeldKids(o, kids, key);
    assert o.fields == map k | k in kids :: Link(kids[k]);
    hide Unshared, View, Ids, Holds, StripAt, DropTenant;
    ghost var kid';
    if depth == |path| - 1 {
      kid' := DeleteTenant(child, kid);
    } else {
      kid' := StripAtInPlace(child, path, depth + 1, kid);
    }
    ShrunkBranch(o, kids, key, kid');
    assert path[depth..][0] == key && path[depth..][1..] == path[depth + 1..];
    StripOneField(o, kids, path[depth..], kid');
    forall k | k in kids && k != key ensures Holds(kids[k]) {
      assert Ids(kids[k]) !! Ids(kid) && Ids(kids[k]) <= objects && old(Holds(kids[k]));
    }
    BranchHolds(o, kids, key, kid');
    t' := Branch(o, kids[key := kid']);
  }

  /** Strips every forced path from a result, in place. */
  method StripForcedFields(result: JsVal, forced: seq<Path>, ghost t: Tree) returns (ghost t': Tree)
    requires Held(result, t)
    modifies Ids(t)
    ensures Shrunk(result, t, t') && View(t') == StripEach(View(t), forced)
  {
    t' := t;
    hide Held, Ids, View;
    for i := 0 to |forced|
      invariant Shrunk(result, t, t') && View(t') == StripEach(View(t), forced[..i])
    {
      assert forced[..i + 1][..i] == forced[..i];
      assert forced[i][0..] == forced[i];
      t' := StripAtInPlace(result, forced[i], 0, t');
    }
    assert forced[..|forced|] == forced;
  }
}
