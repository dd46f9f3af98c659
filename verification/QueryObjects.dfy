/** Query arguments as the objects they are, and the unshared trees of objects they form. */
module QueryObjects {
  import opened Values
  import opened Queries

  class SelectionObject {
    var entries: map<Name, SelVal>

    constructor (entries: map<Name, SelVal>)
      ensures this.entries == entries
    {
      this.entries := entries;
    }
  }

  class QueryArgs {
    var where: Option<Where>
    var take: Option<nat>
    var incl: SelectionObject?
    var sel: SelectionObject?

    /** `{}` */
    constructor ()
      ensures where == None && take == None && incl == null && sel == null
    {
      where, take, incl, sel := None, None, null, null;
    }
  }

  datatype SelVal = OnVal | OffVal | Nested(args: QueryArgs)

  /** Which object stands where in the arguments. */
  datatype QTree = QTree(args: QueryArgs, where: Option<Where>, take: Option<nat>, incl: STree, sel: STree)
  datatype STree = Gone | Has(o: SelectionObject, kids: map<Name, VTree>)
  datatype VTree = TOn | TOff | TSub(t: QTree)

  ghost function NodeOf(t: QTree): Node
    decreases t
  {
    Node(t.where, t.take, SelectionIn(t.incl), SelectionIn(t.sel))
  }

  ghost function SelectionIn(s: STree): Selection
    decreases s
  {
    match s
    case Gone => NoSelection
    case Has(_, kids) => Fields(map k | k in kids :: SelIn(kids[k]))
  }

  ghost function SelIn(v: VTree): Sel
    decreases v
  {
    match v case TOn => On case TOff => Off case TSub(t) => Sub(NodeOf(t))
  }

  function LinkS(s: STree): SelectionObject? {
    match s case Gone => null case Has(o, _) => o
  }

  function LinkV(v: VTree): SelVal {
    match v case TOn => OnVal case TOff => OffVal case TSub(t) => Nested(t.args)
  }

  ghost function QIds(t: QTree): set<object>
    decreases t
  {
    {t.args} + SIds(t.incl) + SIds(t.sel)
  }

  ghost function SIds(s: STree): set<object>
    decreases s
  {
    match s
    case Gone => {}
    case Has(o, kids) => {o} + set k, x: object | k in kids && x in VIds(kids[k]) :: x
  }

  ghost function VIds(v: VTree): set<object>
    decreases v
  {
    if v.TSub? then QIds(v.t) else {}
  }

  /** Every object is reached by one path. */
  ghost predicate QOk(t: QTree)
    decreases t
  {
    t.args !in SIds(t.incl) + SIds(t.sel) && SIds(t.incl) !! SIds(t.sel) && SOk(t.incl) && SOk(t.sel)
  }

  ghost predicate SOk(s: STree)
    decreases s
  {
    s.Has? ==>
      && (forall k :: k in s.kids ==> s.o !in VIds(s.kids[k]) && VOk(s.kids[k]))
      && forall a, b :: a in s.kids && b in s.kids && a != b ==> VIds(s.kids[a]) !! VIds(s.kids[b])
  }

  ghost predicate VOk(v: VTree)
    decreases v
  {
    v.TSub? ==> QOk(v.t)
  }

  ghost predicate QHolds(t: QTree)
    reads QIds(t)
    decreases t
  {
    && t.args.where == t.where && t.args.take == t.take
    && t.args.incl == LinkS(t.incl) && t.args.sel == LinkS(t.sel)
    && SHolds(t.incl) && SHolds(t.sel)
  }

  ghost predicate SHolds(s: STree)
    reads SIds(s)
    decreases s
  {
    s.Has? ==>
      && s.o.entries == (map k | k in s.kids :: LinkV(s.kids[k]))
      && forall k :: k in s.kids ==> VHolds(s.kids[k])
  }

  ghost predicate VHolds(v: VTree)
    reads VIds(v)
    decreases v
  {
    v.TSub? ==> QHolds(v.t)
  }

  /** The heap holds the unshared tree `t` under `args`. */
  ghost predicate HeldQ(args: QueryArgs, t: QTree)
    reads QIds(t)
  {
    t.args == args && QOk(t) && QHolds(t)
  }

  ghost predicate HeldS(o: SelectionObject, s: STree)
    reads SIds(s)
  {
    s.Has? && s.o == o && SOk(s) && SHolds(s)
  }

  ghost predicate HeldV(v: VTree)
    reads VIds(v)
  {
    VOk(v) && VHolds(v)
  }

  // ---- allocated object sets, as values ----

  lemma QObjects(t: QTree) returns (objects: set<object>)
    ensures objects == QIds(t)
  {
    objects := QIds(t);
  }

  lemma SObjects(s: STree) returns (objects: set<object>)
    ensures objects == SIds(s)
  {
    objects := SIds(s);
  }

  lemma KidIds(s: STree, key: Name)
    requires s.Has? && SOk(s) && key in s.kids
    ensures VIds(s.kids[key]) <= SIds(s) && |VIds(s.kids[key])| < |SIds(s)|
  {
    SubsetSize(VIds(s.kids[key]), SIds(s));
  }

  function WithKid(s: STree, key: Name, v: VTree): STree {
    if s.Has? then s.(kids := s.kids[key := v]) else s
  }

  /** A tree stays unshared when one kid is replaced by one made of its own and of new objects. */
  lemma KidReplaced(s: STree, key: Name, v: VTree, made: set<object>)
    requires s.Has? && SOk(s) && VOk(v) && made !! SIds(s)
    requires VIds(v) <= (if key in s.kids then VIds(s.kids[key]) else {}) + made
    ensures SOk(WithKid(s, key, v)) && SIds(WithKid(s, key, v)) <= SIds(s) + made
  {
    var after := s.kids[key := v];
    forall k | k in s.kids ensures VIds(s.kids[k]) <= SIds(s) {
      KidIds(s, k);
    }
    forall k, x | k in after && x in VIds(after[k]) ensures x in SIds(s) + made {
    }
    forall a, b | a in after && b in after && a != b ensures VIds(after[a]) !! VIds(after[b]) {
      assert a in s.kids && b in s.kids ==> VIds(s.kids[a]) !! VIds(s.kids[b]);
    }
  }

  /** What a held selection says about one of its entries. */
  lemma EntryHeld(o: SelectionObject, s: STree, key: Name)
    requires HeldS(o, s) && key in s.kids
    ensures key in o.entries && o.entries[key] == LinkV(s.kids[key]) && o.entries.Keys == s.kids.Keys
    ensures s.Has? && s.o == o && SOk(s) && HeldV(s.kids[key]) && o in SIds(s)
    ensures VIds(s.kids[key]) <= SIds(s) && o !in VIds(s.kids[key]) && |VIds(s.kids[key])| < |SIds(s)|
  {
    KidIds(s, key);
  }

  lemma EntriesHeld(o: SelectionObject, s: STree, key: Name)
    requires HeldS(o, s)
    ensures o.entries == map k | k in s.kids :: LinkV(s.kids[k])
    ensures forall k :: k in s.kids ==> VIds(s.kids[k]) <= SIds(s) && o !in VIds(s.kids[k]) && VHolds(s.kids[k])
    ensures forall k :: k in s.kids && key in s.kids && k != key ==> VIds(s.kids[k]) !! VIds(s.kids[key])
  {
    forall k | k in s.kids ensures VIds(s.kids[k]) <= SIds(s) {
      KidIds(s, k);
    }
  }

  lemma LinkReplaced(kids: map<Name, VTree>, key: Name, v: VTree)
    ensures var after := kids[key := v];
            (map k | k in after :: LinkV(after[k])) == (map k | k in kids :: LinkV(kids[k]))[key := LinkV(v)]
  {
    hide LinkV;
  }

  lemma SelectionHeld(o: SelectionObject, s: STree)
    requires s.Has? && s.o == o && SOk(s)
    requires o.entries == map k | k in s.kids :: LinkV(s.kids[k])
    requires forall k :: k in s.kids ==> VHolds(s.kids[k])
    ensures HeldS(o, s)
  {
    hide SOk, VHolds, LinkV;
  }

  lemma ReplacedHeld(o: SelectionObject, s: STree, key: Name, v: VTree, made: set<object>)
    requires s.Has? && s.o == o && SOk(s) && made !! SIds(s)
    requires VIds(v) <= (if key in s.kids then VIds(s.kids[key]) else {}) + made && HeldV(v)
    requires o.entries == (map k | k in s.kids :: LinkV(s.kids[k]))[key := LinkV(v)]
    requires forall k :: k in s.kids && k != key ==> VHolds(s.kids[k])
    ensures HeldS(o, WithKid(s, key, v)) && SIds(WithKid(s, key, v)) <= SIds(s) + made
  {
    KidReplaced(s, key, v, made);
    LinkReplaced(s.kids, key, v);
    var after := s.kids[key := v];
    hide SOk, SIds, VIds, VOk, QOk, LinkV;
    forall k | k in after ensures VHolds(after[k]) {
      assert k != key ==> k in s.kids;
    }
    SelectionHeld(o, WithKid(s, key, v));
  }

  lemma OwnArgs(v: VTree)
    requires v.TSub?
    ensures HeldV(v) <==> HeldQ(v.t.args, v.t)
    ensures VIds(v) == QIds(v.t) && SelIn(v) == Sub(NodeOf(v.t))
  {
  }

  /** A held tree, unfolded once. */
  ghost predicate Parts(args: QueryArgs, t: QTree)
    reads {args} + SIds(t.incl) + SIds(t.sel)
  {
    && args !in SIds(t.incl) + SIds(t.sel) && SIds(t.incl) !! SIds(t.sel)
    && args.where == t.where && args.take == t.take && args.incl == LinkS(t.incl) && args.sel == LinkS(t.sel)
    && SOk(t.incl) && SHolds(t.incl) && SOk(t.sel) && SHolds(t.sel)
  }

  lemma PartsOf(args: QueryArgs, t: QTree)
    ensures HeldQ(args, t) <==> t.args == args && Parts(args, t)
    ensures QIds(t) == {t.args} + SIds(t.incl) + SIds(t.sel)
    ensures NodeOf(t) == Node(t.where, t.take, SelectionIn(t.incl), SelectionIn(t.sel))
    ensures t.incl.Has? <==> SelectionIn(t.incl).Fields?
    ensures t.sel.Has? <==> SelectionIn(t.sel).Fields?
  {
  }

  lemma SelectionEntries(o: SelectionObject, s: STree)
    requires HeldS(o, s)
    ensures s.Has? && s.o == o && o in SIds(s) && SOk(s) && o.entries.Keys == s.kids.Keys && SelectionIn(s).Fields?
    ensures SelectionIn(s).entries == map k | k in s.kids :: SelIn(s.kids[k])
  {
  }
}
