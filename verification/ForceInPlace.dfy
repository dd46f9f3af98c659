/** Forcing the tenant into query arguments, which changes the caller's objects in place. */
module ForceInPlace {
  import opened Values
  import opened Schemas
  import opened Queries
  import opened ForceTenant
  import opened ScrubRelations
  import opened QueryObjects

  // ---- paths ----

  function SetOf(paths: seq<Path>): set<Path> {
    set p | p in paths
  }

  function Under(path: Path, paths: set<Path>): set<Path> {
    set p | p in paths :: path + p
  }

  /** The forced paths below the given keys of a selection. */
  function PathsFor(relations: RelationMap, here: map<Name, RelationMeta>, entries: map<Name, Sel>,
                    keys: set<Name>): set<Path>
  {
    set k, p | k in keys && k in entries && k in here && p in ForcedBelow(relations, here[k], entries[k]) :: [k] + p
  }

  lemma SetOfPushed(paths: seq<Path>, path: Path)
    ensures SetOf(paths + [path]) == SetOf(paths) + {path}
  {
  }

  lemma UnderUnion(path: Path, a: set<Path>, b: set<Path>)
    ensures Under(path, a + b) == Under(path, a) + Under(path, b)
  {
  }

  lemma UnderUnder(path: Path, k: Name, paths: set<Path>)
    ensures Under(path + [k], paths) == Under(path, Under([k], paths))
  {
    forall p | p in paths ensures path + [k] + p in Under(path, Under([k], paths)) {
      assert [k] + p in Under([k], paths);
      assert path + ([k] + p) == path + [k] + p;
    }
    forall q | q in Under(path, Under([k], paths)) ensures q in Under(path + [k], paths) {
      var r :| r in Under([k], paths) && path + r == q;
      var p :| p in paths && [k] + p == r;
      assert path + ([k] + p) == path + [k] + p;
    }
  }

  lemma PathsForOneMore(relations: RelationMap, here: map<Name, RelationMeta>, entries: map<Name, Sel>,
                        keys: set<Name>, k: Name)
    ensures PathsFor(relations, here, entries, keys + {k}) ==
            PathsFor(relations, here, entries, keys)
            + if k in entries && k in here then Under([k], ForcedBelow(relations, here[k], entries[k])) else {}
  {
    hide ForcedBelow;
    var all := PathsFor(relations, here, entries, keys + {k});
    if k in entries && k in here {
      forall p | p in ForcedBelow(relations, here[k], entries[k]) ensures [k] + p in all {
        assert k in keys + {k};
      }
    }
    forall q | q in PathsFor(relations, here, entries, keys) ensures q in all {
      var k', p :| k' in keys && k' in entries && k' in here && p in ForcedBelow(relations, here[k'], entries[k'])
                    && [k'] + p == q;
      assert k' in keys + {k};
    }
  }

  lemma PathsForAll(relations: RelationMap, model: Name, node: Node)
    ensures PathsFor(relations, Relations(relations, model), Entries(node), Entries(node).Keys)
            == ForcedPaths(relations, model, node)
  {
  }

  // ---- forcing commutes with what the caller of the recursion has already done to the node ----

  lemma ForceAfterWhere(relations: RelationMap, model: Name, node: Node, where: Option<Where>, tenant: Tenant)
    ensures ForceNode(relations, model, node.(where := where), tenant)
            == ForceNode(relations, model, node, tenant).(where := where)
    ensures ForcedPaths(relations, model, node.(where := where)) == ForcedPaths(relations, model, node)
  {
  }

  lemma ForceAfterAddTenant(relations: RelationMap, model: Name, node: Node, tenant: Tenant)
    requires TENANT_ID !in Relations(relations, model)
    ensures ForceNode(relations, model, AddTenant(node), tenant) == AddTenant(ForceNode(relations, model, node, tenant))
    ensures ForcedPaths(relations, model, AddTenant(node)) == ForcedPaths(relations, model, node)
    ensures LacksTenant(ForceNode(relations, model, node, tenant)) == LacksTenant(node)
  {
    hide ForceSel, ForcedBelow;
    if LacksTenant(node) {
      var a, b := ForceNode(relations, model, AddTenant(node), tenant), AddTenant(ForceNode(relations, model, node, tenant));
      assert a.sel.entries == b.sel.entries;
      assert ForcedPaths(relations, model, AddTenant(node)) == ForcedPaths(relations, model, node);
    }
  }

  // ---- the methods ----

  /** One entry of a selection, forced if it is a listed relation. */
  function ForcedEntry(relations: RelationMap, here: map<Name, RelationMeta>, key: Name, sel: Sel, tenant: Tenant): Sel {
    if key in here then ForceSel(relations, here[key], sel, tenant) else sel
  }

  method NewNode() returns (node: QueryArgs, ghost n: QTree)
    ensures fresh(node) && n == QTree(node, None, None, Gone, Gone)
    ensures HeldQ(node, n) && QIds(n) == {node} && NodeOf(n) == BARE
  {
    node := new QueryArgs();
    n := QTree(node, None, None, Gone, Gone);
  }

  lemma NothingToForce(relations: RelationMap, meta: RelationMeta, v: VTree, tenant: Tenant, path: Path)
    ensures v.TOff? || (v.TOn? && !meta.isList) ==> ForceSel(relations, meta, SelIn(v), tenant) == SelIn(v)
    ensures v.TOn? ==> SelIn(v) == On
    ensures v.TOff? || v.TOn? ==> ForcedBelow(relations, meta, SelIn(v)) == {} && Under(path, {}) == {}
  {
  }

  /** One entry of a selection: skipped, or its relation forced. */
  method ForceEntry(relations: RelationMap, here: map<Name, RelationMeta>, o: SelectionObject, key: Name, tenant: Tenant,
                    path: Path, forced: seq<Path>, ghost s: STree)
    returns (forced': seq<Path>, ghost v: VTree, ghost made: set<object>)
    requires TenantIsColumn(relations) && HeldS(o, s) && key in s.kids
    modifies {o} + VIds(s.kids[key])
    ensures HeldS(o, WithKid(s, key, v))
    ensures fresh(made) && SIds(WithKid(s, key, v)) <= SIds(s) + made
    ensures SelIn(v) == ForcedEntry(relations, here, key, SelIn(s.kids[key]), tenant)
    ensures SetOf(forced') == SetOf(forced)
            + if key in here then Under(path + [key], ForcedBelow(relations, here[key], SelIn(s.kids[key]))) else {}
    decreases |VIds(s.kids[key])| + 1, 4
  {
    hide SOk, SHolds, SIds, VIds, SelIn, ForceSel, ForcedBelow, Under, SetOf, TenantIsColumn;
    forced', v, made := forced, s.kids[key], {};
    assert s.kids[key := s.kids[key]] == s.kids;
    EntryHeld(o, s, key);
    if key in here {
      NothingToForce(relations, here[key], s.kids[key], tenant, path + [key]);
      var raw := o.entries[key];
      if raw.Nested? || (raw.OnVal? && here[key].isList) {
        forced', v, made := ForceRelation(relations, here[key], o, key, tenant, path, forced, s);
      }
    }
  }

  lemma BareForced(relations: RelationMap, meta: RelationMeta, tenant: Tenant)
    ensures meta.isList ==> ForceSel(relations, meta, Sub(BARE), tenant) == ForceSel(relations, meta, On, tenant)
    ensures meta.isList ==> ForcedBelow(relations, meta, Sub(BARE)) == {}
  {
    assert Entries(BARE) == map[];
  }

  /** A selection whose entry is an object, held apart from all other entries, that is still to be forced. */
  ghost predicate Waiting(o: SelectionObject, s: STree, key: Name, node: QueryArgs, n: QTree, own: set<object>)
    reads {o} + SIds(s) + QIds(n)
  {
    && s.Has? && s.o == o && SOk(s) && key in s.kids && own !! SIds(s) && o !in own
    && o.entries == (map k | k in s.kids :: LinkV(s.kids[k]))[key := Nested(node)]
    && HeldQ(node, n) && QIds(n) <= VIds(s.kids[key]) + own
    && forall k :: k in s.kids && k != key ==> VHolds(s.kids[k])
  }

  lemma OthersApart(o: SelectionObject, s: STree, key: Name, node: QueryArgs, n: QTree, own: set<object>)
    requires Waiting(o, s, key, node, n, own)
    ensures n.args == node && o in SIds(s) && o !in QIds(n)
    ensures forall k :: k in s.kids && k != key ==> VIds(s.kids[k]) <= SIds(s) && VIds(s.kids[k]) !! QIds(n)
  {
    hide QIds, QHolds, QOk, VHolds;
    forall k | k in s.kids ensures VIds(s.kids[k]) <= SIds(s) {
      KidIds(s, k);
    }
  }

  /** The waiting entry, forced. */
  method ForceWaiting(relations: RelationMap, meta: RelationMeta, o: SelectionObject, key: Name, node: QueryArgs,
                      tenant: Tenant, path: Path, forced: seq<Path>, ghost s: STree, ghost n: QTree, ghost own: set<object>)
    returns (forced': seq<Path>, ghost v: VTree, ghost added: set<object>)
    requires TenantIsColumn(relations) && Waiting(o, s, key, node, n, own)
    modifies QIds(n)
    ensures HeldS(o, WithKid(s, key, v)) && fresh(added) && SIds(WithKid(s, key, v)) <= SIds(s) + (own + added)
    ensures SelIn(v) == ForceSel(relations, meta, Sub(NodeOf(n)), tenant)
    ensures SetOf(forced') == SetOf(forced) + Under(path + [key], ForcedBelow(relations, meta, Sub(NodeOf(n))))
    decreases |QIds(n)|, 2
  {
    hide SOk, VOk, QOk, SHolds, VHolds, QHolds, SIds, QIds, VIds, NodeOf, SelectionIn, ForceSel, ForcedBelow, Under, SetOf,
         HeldS, HeldQ, HeldV, SelIn, WithKid;
    OthersApart(o, s, key, node, n, own);
    ghost var objects := SObjects(s);
    assert SIds(s) == objects;
    ghost var n';
    forced', n', added := ForceNested(relations, meta, node, tenant, path + [key], forced, n);
    v := TSub(n');
    OwnArgs(v);
    forall k | k in s.kids && k != key ensures VHolds(s.kids[k]) {
      assert VIds(s.kids[k]) !! QIds(n) && VIds(s.kids[k]) <= objects && old(VHolds(s.kids[k]));
    }
    ReplacedHeld(o, s, key, v, own + added);
  }

  /** The entry of a relation as an object that a `where` can hang on; `true` becomes a new, empty one. */
  method NodeAt(o: SelectionObject, key: Name, ghost s: STree)
    returns (node: QueryArgs, ghost n: QTree, ghost made: set<object>)
    requires HeldS(o, s) && key in s.kids && !s.kids[key].TOff?
    modifies o
    ensures fresh(made) && Waiting(o, s, key, node, n, made) && QIds(n) <= VIds(s.kids[key]) + made
    ensures |QIds(n)| <= |VIds(s.kids[key])| + 1
    ensures Sub(NodeOf(n)) == if s.kids[key].TOn? then Sub(BARE) else SelIn(s.kids[key])
  {
    hide SOk, QOk, VOk, SHolds, QHolds, VHolds, SIds, QIds, VIds, NodeOf, SelectionIn, SelIn, HeldS, HeldQ, HeldV;
    EntryHeld(o, s, key);
    EntriesHeld(o, s, key);
    ghost var was := s.kids[key];
    ghost var objects := SObjects(s);
    assert SIds(s) == objects;
    var raw := o.entries[key];
    made := {};
    if raw.OnVal? {
      node, n := NewNode();
      made := {node};
      o.entries := o.entries[key := Nested(node)];
    } else {
      OwnArgs(was);
      node, n := raw.args, was.t;
    }
    forall k | k in s.kids && k != key ensures VHolds(s.kids[k]) {
      assert o !in VIds(s.kids[k]) && VIds(s.kids[k]) <= objects && old(VHolds(s.kids[k]));
    }
  }

  /** Forcing the object that stands for an entry is forcing the entry. */
  lemma ForcedAsGiven(relations: RelationMap, meta: RelationMeta, was: VTree, n: QTree, tenant: Tenant)
    requires was.TSub? || (was.TOn? && meta.isList)
    requires Sub(NodeOf(n)) == if was.TOn? then Sub(BARE) else SelIn(was)
    ensures ForceSel(relations, meta, Sub(NodeOf(n)), tenant) == ForceSel(relations, meta, SelIn(was), tenant)
    ensures ForcedBelow(relations, meta, Sub(NodeOf(n))) == ForcedBelow(relations, meta, SelIn(was))
  {
    BareForced(relations, meta, tenant);
    NothingToForce(relations, meta, was, tenant, []);
  }

  /** An entry that has to be forced, from the entry to the object to the tree below. */
  method ForceRelation(relations: RelationMap, meta: RelationMeta, o: SelectionObject, key: Name, tenant: Tenant,
                       path: Path, forced: seq<Path>, ghost s: STree)
    returns (forced': seq<Path>, ghost v: VTree, ghost made: set<object>)
    requires TenantIsColumn(relations) && HeldS(o, s) && key in s.kids
    requires s.kids[key].TSub? || (s.kids[key].TOn? && meta.isList)
    modifies {o} + VIds(s.kids[key])
    ensures HeldS(o, WithKid(s, key, v))
    ensures fresh(made) && SIds(WithKid(s, key, v)) <= SIds(s) + made
    ensures SelIn(v) == ForceSel(relations, meta, SelIn(s.kids[key]), tenant)
    ensures SetOf(forced') == SetOf(forced) + Under(path + [key], ForcedBelow(relations, meta, SelIn(s.kids[key])))
    decreases |VIds(s.kids[key])| + 1, 3
  {
    hide SOk, VOk, QOk, SHolds, VHolds, QHolds, SIds, QIds, VIds, NodeOf, SelectionIn, ForceSel, ForcedBelow, Under, SetOf,
         HeldS, HeldQ, HeldV, SelIn, WithKid, Waiting;
    EntryHeld(o, s, key);
    ghost var was := s.kids[key];
    ghost var objects := SObjects(s);
    assert SIds(s) == objects;
    var node, n, own := NodeAt(o, key, s);
    ForcedAsGiven(relations, meta, was, n, tenant);
    ghost var added;
    forced', v, added := ForceWaiting(relations, meta, o, key, node, tenant, path, forced, s, n, own);
    made := own + added;
  }

  /** What is done to a relation itself: a list is narrowed, a to-one `select` names the tenant. */
  function Here(meta: RelationMeta, node: Node, tenant: Tenant): Node {
    if meta.isList then node.(where := NarrowWhere(node.where, tenant)) else AddTenant(node)
  }

  lemma ForcedHereThenBelow(relations: RelationMap, meta: RelationMeta, node: Node, tenant: Tenant, path: Path)
    requires TenantIsColumn(relations)
    ensures Sub(ForceNode(relations, meta.target, Here(meta, node, tenant), tenant))
            == ForceSel(relations, meta, Sub(node), tenant)
    ensures Under(path, ForcedBelow(relations, meta, Sub(node))) ==
            (if !meta.isList && LacksTenant(node) then {path} else {})
            + Under(path, ForcedPaths(relations, meta.target, Here(meta, node, tenant)))
  {
    hide ForceNode, ForcedPaths;
    if meta.isList {
      ForceAfterWhere(relations, meta.target, node, NarrowWhere(node.where, tenant), tenant);
    } else {
      ForceAfterAddTenant(relations, meta.target, node, tenant);
      UnderUnion(path, {[]}, ForcedPaths(relations, meta.target, node));
      assert path + [] == path;
      assert Under(path, {[]}) == {path};
    }
  }

  lemma NamesTenant(select: SelectionObject, s: STree)
    requires HeldS(select, s)
    ensures select in SIds(s) && s.o == select && SelectionIn(s).Fields? && s.kids.Keys == select.entries.Keys
    ensures TENANT_ID in select.entries <==> TENANT_ID in SelectionIn(s).entries
    ensures TENANT_ID in select.entries ==> (select.entries[TENANT_ID] == OnVal <==> SelectionIn(s).entries[TENANT_ID] == On)
  {
    if TENANT_ID in select.entries {
      assert select.entries[TENANT_ID] == LinkV(s.kids[TENANT_ID]);
    }
  }

  lemma OnIsHeld()
    ensures HeldV(TOn) && VIds(TOn) == {} && LinkV(TOn) == OnVal
  {
  }

  method NameTenant(select: SelectionObject, ghost s: STree) returns (ghost s': STree)
    requires HeldS(select, s)
    modifies select
    ensures s' == s.(kids := s.kids[TENANT_ID := TOn]) && HeldS(select, s') && SIds(s') <= SIds(s)
  {
    EntriesHeld(select, s, TENANT_ID);
    ghost var objects := SObjects(s);
    assert SIds(s) == objects;
    hide SOk, VHolds, SHolds, SIds;
    select.entries := select.entries[TENANT_ID := OnVal];
    s' := s.(kids := s.kids[TENANT_ID := TOn]);
    forall k | k in s.kids && k != TENANT_ID ensures VHolds(s.kids[k]) {
      assert select !in VIds(s.kids[k]) && VIds(s.kids[k]) <= objects && old(VHolds(s.kids[k]));
    }
    OnIsHeld();
    ReplacedHeld(select, s, TENANT_ID, TOn, {});
  }

  lemma AddedTenant(s: STree)
    requires s.Has?
    ensures SelectionIn(s.(kids := s.kids[TENANT_ID := TOn])) == Fields(SelectionIn(s).entries[TENANT_ID := On])
  {
    var after := s.(kids := s.kids[TENANT_ID := TOn]);
    assert SelectionIn(after).entries == SelectionIn(s).entries[TENANT_ID := On];
  }

  /** A to-one relation with a `select`: `tenantId` is added to it unless it is there. */
  method NameInSelect(node: QueryArgs, select: SelectionObject, ghost n: QTree) returns (added: bool, ghost n': QTree)
    requires HeldQ(node, n) && node.sel == select
    modifies select
    ensures HeldQ(node, n') && QIds(n') <= QIds(n)
    ensures NodeOf(n') == AddTenant(NodeOf(n)) && (added <==> LacksTenant(NodeOf(n)))
  {
    PartsOf(node, n);
    n' := n;
    ghost var objects := SObjects(n.incl);
    assert SIds(n.incl) == objects;
    hide SOk, SHolds, SIds, QIds, QOk, QHolds, NodeOf, SelectionIn;
    NamesTenant(select, n.sel);
    added := TENANT_ID !in select.entries || select.entries[TENANT_ID] != OnVal;
    if added {
      AddedTenant(n.sel);
      ghost var s := NameTenant(select, n.sel);
      n' := n.(sel := s);
      PartsOf(node, n');
    }
  }

  method ForceHere(meta: RelationMeta, node: QueryArgs, tenant: Tenant, ghost n: QTree)
    returns (added: bool, ghost n': QTree)
    requires HeldQ(node, n)
    modifies QIds(n)
    ensures HeldQ(node, n') && QIds(n') <= QIds(n)
    ensures NodeOf(n') == Here(meta, NodeOf(n), tenant)
    ensures added <==> !meta.isList && LacksTenant(NodeOf(n))
  {
    added, n' := false, n;
    PartsOf(node, n);
    if meta.isList {
      ghost var objects := QObjects(n);
      assert QIds(n) == objects;
      hide SOk, SHolds, SIds, QIds, QOk, QHolds, NodeOf, SelectionIn;
      node.where := NarrowWhere(node.where, tenant);
      n' := n.(where := node.where);
      PartsOf(node, n');
    } else if node.sel != null {
      hide SOk, SHolds, SIds, QIds, QOk, QHolds, NodeOf, SelectionIn, HeldQ;
      added, n' := NameInSelect(node, node.sel, n);
    }
  }

  /** A relation that is an object: its `where` or `select` changed, then everything below it. */
  method ForceNested(relations: RelationMap, meta: RelationMeta, node: QueryArgs, tenant: Tenant,
                     path: Path, forced: seq<Path>, ghost n: QTree)
    returns (forced': seq<Path>, ghost n': QTree, ghost made: set<object>)
    requires TenantIsColumn(relations) && HeldQ(node, n)
    modifies QIds(n)
    ensures HeldQ(node, n') && n'.args == node && fresh(made) && QIds(n') <= QIds(n) + made
    ensures Sub(NodeOf(n')) == ForceSel(relations, meta, Sub(NodeOf(n)), tenant)
    ensures SetOf(forced') == SetOf(forced) + Under(path, ForcedBelow(relations, meta, Sub(NodeOf(n))))
    decreases |QIds(n)|, 1
  {
    hide QOk, QHolds, QIds, SIds, HeldQ, NodeOf, ForceNode, ForcedPaths, ForceSel, ForcedBelow, Under, SetOf, Here,
         LacksTenant, TenantIsColumn;
    ghost var objects := QObjects(n);
    assert QIds(n) == objects;
    var added, n1 := ForceHere(meta, node, tenant, n);
    SubsetSize(QIds(n1), QIds(n));
    ForcedHereThenBelow(relations, meta, NodeOf(n), tenant, path);
    var forced1 := if added then forced + [path] else forced;
    forced', n', made := ForceTenantIdOnRelations(relations, meta.target, node, tenant, path, forced1, n1);
    SetOfPushed(forced, path);
  }

  /** The selection a query node is read by, as the tree holds it. */
  ghost function Chosen(t: QTree): STree {
    if t.incl.Has? then t.incl else t.sel
  }

  /** The selection once all but the pending entries are forced. */
  ghost predicate Step(relations: RelationMap, here: map<Name, RelationMeta>, tenant: Tenant, s: STree, now: STree,
                       pending: set<Name>)
  {
    && s.Has? && now.Has? && now.o == s.o && now.kids.Keys == s.kids.Keys
    && forall k :: k in s.kids ==>
         if k in pending then now.kids[k] == s.kids[k]
         else SelIn(now.kids[k]) == ForcedEntry(relations, here, k, SelIn(s.kids[k]), tenant)
  }

  /** The paths collected once all but the pending entries are done. */
  ghost predicate Found(relations: RelationMap, here: map<Name, RelationMeta>, s: STree, pending: set<Name>,
                        path: Path, forced: seq<Path>, now: seq<Path>) {
    && SelectionIn(s).Fields? && s.Has?
    && SetOf(now) == SetOf(forced) + Under(path, PathsFor(relations, here, SelectionIn(s).entries, s.kids.Keys - pending))
  }

  lemma NothingYet(relations: RelationMap, here: map<Name, RelationMeta>, tenant: Tenant, s: STree,
                   path: Path, forced: seq<Path>)
    ensures s.Has? ==>
              && Step(relations, here, tenant, s, s, s.kids.Keys)
              && Found(relations, here, s, s.kids.Keys, path, forced, forced)
  {
    if s.Has? {
      assert s.kids.Keys - s.kids.Keys == {};
      assert PathsFor(relations, here, SelectionIn(s).entries, {}) == {};
      assert Under(path, {}) == {};
    }
  }

  lemma OneMoreKey(relations: RelationMap, here: map<Name, RelationMeta>, entries: map<Name, Sel>,
                   all: set<Name>, pending: set<Name>, k: Name, path: Path)
    requires k in entries && k in pending && pending <= all
    ensures Under(path, PathsFor(relations, here, entries, all - (pending - {k}))) ==
            Under(path, PathsFor(relations, here, entries, all - pending))
            + if k in here then Under(path + [k], ForcedBelow(relations, here[k], entries[k])) else {}
  {
    var keys := all - pending;
    assert all - (pending - {k}) == keys + {k};
    hide ForcedBelow, PathsFor;
    PathsForOneMore(relations, here, entries, keys, k);
    if k in here {
      var below := ForcedBelow(relations, here[k], entries[k]);
      UnderUnder(path, k, below);
      UnderUnion(path, PathsFor(relations, here, entries, keys), Under([k], below));
    }
  }

  lemma FoundNext(relations: RelationMap, here: map<Name, RelationMeta>, s: STree, pending: set<Name>, key: Name,
                  path: Path, forced: seq<Path>, now: seq<Path>, next: seq<Path>)
    requires Found(relations, here, s, pending, path, forced, now) && key in pending && pending <= s.kids.Keys
    requires SetOf(next) == SetOf(now)
             + if key in here then Under(path + [key], ForcedBelow(relations, here[key], SelIn(s.kids[key]))) else {}
    ensures Found(relations, here, s, pending - {key}, path, forced, next)
  {
    hide ForcedBelow, Under, PathsFor, SetOf, SelIn;
    OneMoreKey(relations, here, SelectionIn(s).entries, s.kids.Keys, pending, key, path);
  }

  lemma FoundAll(relations: RelationMap, here: map<Name, RelationMeta>, s: STree, path: Path,
                 forced: seq<Path>, now: seq<Path>)
    requires Found(relations, here, s, {}, path, forced, now)
    ensures SetOf(now) == SetOf(forced) + Under(path, PathsFor(relations, here, SelectionIn(s).entries, s.kids.Keys))
  {
    assert s.kids.Keys - {} == s.kids.Keys;
  }

  lemma StepEntry(relations: RelationMap, here: map<Name, RelationMeta>, tenant: Tenant, s: STree, now: STree,
                  pending: set<Name>, key: Name)
    requires Step(relations, here, tenant, s, now, pending) && key in pending && pending <= s.kids.Keys
    ensures now.Has? && s.o == now.o && key in now.kids && now.kids[key] == s.kids[key] && SelectionIn(s).Fields?
    ensures key in SelectionIn(s).entries && SelectionIn(s).entries[key] == SelIn(s.kids[key])
  {
  }

  lemma StepNext(relations: RelationMap, here: map<Name, RelationMeta>, tenant: Tenant, s: STree, now: STree,
                 pending: set<Name>, key: Name, v: VTree)
    requires Step(relations, here, tenant, s, now, pending) && key in pending && pending <= s.kids.Keys
    requires SelIn(v) == ForcedEntry(relations, here, key, SelIn(s.kids[key]), tenant)
    ensures Step(relations, here, tenant, s, WithKid(now, key, v), pending - {key})
  {
  }

  method ForceEntries(relations: RelationMap, here: map<Name, RelationMeta>, o: SelectionObject, tenant: Tenant,
                      path: Path, forced: seq<Path>, ghost s: STree)
    returns (forced': seq<Path>, ghost s': STree, ghost made: set<object>)
    requires TenantIsColumn(relations) && HeldS(o, s)
    modifies SIds(s)
    ensures HeldS(o, s') && fresh(made) && SIds(s') <= SIds(s) + made
    ensures Step(relations, here, tenant, s, s', {})
    ensures SetOf(forced') == SetOf(forced) + Under(path, PathsFor(relations, here, SelectionIn(s).entries, s.kids.Keys))
    decreases |SIds(s)|, 5
  {
    hide SOk, SHolds, SIds, VIds, HeldS, SelectionIn, SelIn, ForceSel, ForcedBelow, Under, SetOf, PathsFor,
         TenantIsColumn, Step, Found, ForcedEntry;
    forced', s', made := forced, s, {};
    NothingYet(relations, here, tenant, s, path, forced);
    SelectionEntries(o, s);
    var pending := o.entries.Keys;
    while pending != {}
      invariant fresh(made)
      invariant pending <= s.kids.Keys && HeldS(o, s') && SIds(s') <= SIds(s) + made
      invariant Step(relations, here, tenant, s, s', pending)
      invariant Found(relations, here, s, pending, path, forced, forced')
    {
      var key :| key in pending;
      KidIds(s, key);
      ghost var before := forced';
      StepEntry(relations, here, tenant, s, s', pending, key);
      ghost var v, added;
      forced', v, added := ForceEntry(relations, here, o, key, tenant, path, forced', s');
      StepNext(relations, here, tenant, s, s', pending, key, v);
      FoundNext(relations, here, s, pending, key, path, forced, before, forced');
      s', made := WithKid(s', key, v), made + added;
      pending := pending - {key};
    }
    FoundAll(relations, here, s, path, forced, forced');
  }

  lemma UnrelatedIsUntouched(relations: RelationMap, model: Name, node: Node, tenant: Tenant, path: Path)
    ensures !SelectionOf(node).Fields? || model !in relations ==>
              && ForceNode(relations, model, node, tenant) == node
              && Under(path, ForcedPaths(relations, model, node)) == {}
  {
    if !SelectionOf(node).Fields? || model !in relations {
      assert ForcedPaths(relations, model, node) == {};
      if node.incl.Fields? {
        assert ForceNode(relations, model, node, tenant).incl.entries == node.incl.entries;
      } else if node.sel.Fields? {
        assert ForceNode(relations, model, node, tenant).sel.entries == node.sel.entries;
      }
    }
  }

  /** Forcing a node replaces the selection it is read by with the forced entries. */
  lemma ForcedByEntry(relations: RelationMap, model: Name, node: Node, entries: map<Name, Sel>, tenant: Tenant)
    requires SelectionOf(node).Fields? && entries.Keys == Entries(node).Keys
    requires forall k :: k in entries ==> entries[k] == ForcedEntry(relations, Relations(relations, model), k, Entries(node)[k], tenant)
    ensures ForceNode(relations, model, node, tenant)
            == if node.incl.Fields? then node.(incl := Fields(entries)) else node.(sel := Fields(entries))
  {
    hide ForceSel;
    var forced := ForceNode(relations, model, node, tenant);
    assert entries == if node.incl.Fields? then forced.incl.entries else forced.sel.entries;
  }

  lemma ForcedEntriesOf(relations: RelationMap, here: map<Name, RelationMeta>, tenant: Tenant, s: STree, now: STree)
    requires Step(relations, here, tenant, s, now, {})
    ensures SelectionIn(s).Fields? && SelectionIn(now).Fields?
    ensures SelectionIn(s).entries.Keys == s.kids.Keys
    ensures SelectionIn(now).entries.Keys == s.kids.Keys
    ensures forall k :: k in s.kids ==>
              SelectionIn(now).entries[k] == ForcedEntry(relations, here, k, SelectionIn(s).entries[k], tenant)
  {
    hide ForceSel;
  }

  /** Forcing a node is forcing each entry of the selection it is read by. */
  lemma ForcedNode(relations: RelationMap, model: Name, t: QTree, tenant: Tenant, now: STree)
    requires Chosen(t).Has? && model in relations && Step(relations, relations[model], tenant, Chosen(t), now, {})
    ensures NodeOf(if t.incl.Has? then t.(incl := now) else t.(sel := now)) == ForceNode(relations, model, NodeOf(t), tenant)
    ensures PathsFor(relations, relations[model], SelectionIn(Chosen(t)).entries, Chosen(t).kids.Keys)
            == ForcedPaths(relations, model, NodeOf(t))
  {
    var node, t' := NodeOf(t), if t.incl.Has? then t.(incl := now) else t.(sel := now);
    PartsOf(t.args, t);
    PartsOf(t.args, t');
    PathsForAll(relations, model, node);
    hide ForceSel, ForcedBelow, NodeOf, PathsFor, ForcedPaths, ForceNode, SelectionIn, Step;
    ForcedEntriesOf(relations, relations[model], tenant, Chosen(t), now);
    ForcedByEntry(relations, model, node, SelectionIn(now).entries, tenant);
  }

  /** Makes every tenant-owned relation of a query checkable, in place. */
  method ForceTenantIdOnRelations(relations: RelationMap, model: Name, args: QueryArgs, tenant: Tenant,
                                  path: Path, forced: seq<Path>, ghost t: QTree)
    returns (forced': seq<Path>, ghost t': QTree, ghost made: set<object>)
    requires TenantIsColumn(relations) && HeldQ(args, t)
    modifies QIds(t)
    ensures HeldQ(args, t') && t'.args == args && fresh(made) && QIds(t') <= QIds(t) + made
    ensures NodeOf(t') == ForceNode(relations, model, NodeOf(t), tenant)
    ensures SetOf(forced') == SetOf(forced) + Under(path, ForcedPaths(relations, model, NodeOf(t)))
    decreases |QIds(t)|, 0
  {
    hide SOk, SHolds, SIds, QIds, QOk, QHolds, NodeOf, SelectionIn, SelIn, ForceSel, ForcedBelow, Under, SetOf, PathsFor,
         TenantIsColumn, ForceNode, ForcedPaths, HeldQ, Step;
    forced', t', made := forced, t, {};
    PartsOf(args, t);
    var selection := if args.incl != null then args.incl else args.sel;
    if selection == null || model !in relations {
      UnrelatedIsUntouched(relations, model, NodeOf(t), tenant, path);
    } else {
      SubsetSize(SIds(Chosen(t)), QIds(t));
      forced', t', made := ForceChosen(relations, model, args, selection, tenant, path, forced, t);
    }
  }

  /** A node's tree with the selection it is read by replaced. */
  lemma ChosenReplaced(args: QueryArgs, t: QTree, selection: SelectionObject, s': STree, made: set<object>)
    requires t.args == args && args !in SIds(t.incl) + SIds(t.sel) && SIds(t.incl) !! SIds(t.sel)
    requires args.where == t.where && args.take == t.take && args.incl == LinkS(t.incl) && args.sel == LinkS(t.sel)
    requires Chosen(t).Has? && LinkS(Chosen(t)) == selection && HeldS(selection, s')
    requires var other := if t.incl.Has? then t.sel else t.incl; SOk(other) && SHolds(other)
    requires SIds(s') <= SIds(Chosen(t)) + made && made !! QIds(t)
    ensures var t' := if t.incl.Has? then t.(incl := s') else t.(sel := s');
            HeldQ(args, t') && QIds(t') <= QIds(t) + made
  {
    var t' := if t.incl.Has? then t.(incl := s') else t.(sel := s');
    PartsOf(args, t);
    PartsOf(args, t');
    hide SOk, SHolds, SIds, QIds, HeldQ;
    assert Parts(args, t');
  }

  /** The selection a query node is read by, forced; the other one, if there is one, stays. */
  method ForceChosen(relations: RelationMap, model: Name, args: QueryArgs, selection: SelectionObject, tenant: Tenant,
                     path: Path, forced: seq<Path>, ghost t: QTree)
    returns (forced': seq<Path>, ghost t': QTree, ghost made: set<object>)
    requires TenantIsColumn(relations) && HeldQ(args, t) && model in relations && LinkS(Chosen(t)) == selection
    modifies SIds(Chosen(t))
    ensures HeldQ(args, t') && t'.args == args && fresh(made) && QIds(t') <= QIds(t) + made
    ensures NodeOf(t') == ForceNode(relations, model, NodeOf(t), tenant)
    ensures SetOf(forced') == SetOf(forced) + Under(path, ForcedPaths(relations, model, NodeOf(t)))
    decreases |SIds(Chosen(t))|, 6
  {
    hide SOk, SHolds, SIds, QIds, QOk, QHolds, NodeOf, SelectionIn, SelIn, ForceSel, ForcedBelow, Under, SetOf, PathsFor,
         TenantIsColumn, ForceNode, ForcedPaths, HeldQ, Step;
    PartsOf(args, t);
    ghost var s, other := Chosen(t), if t.incl.Has? then t.sel else t.incl;
    ghost var objects := QObjects(t);
    assert QIds(t) == objects && SIds(s) <= objects && SIds(other) <= objects && args in objects;
    ghost var s';
    forced', s', made := ForceEntries(relations, relations[model], selection, tenant, path, forced, s);
    assert SHolds(other) by {
      assert SIds(other) !! SIds(s) && old(SHolds(other));
    }
    assert made !! objects;
    t' := if t.incl.Has? then t.(incl := s') else t.(sel := s');
    ForcedNode(relations, model, t, tenant, s');
    ChosenReplaced(args, t, selection, s', made);
  }
}
