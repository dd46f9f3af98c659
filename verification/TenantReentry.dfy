/** Which data models isolate whatever their foreign keys are: those a query cannot leave and re-enter. */
module TenantReentry {
  import opened Values
  import opened Schemas
  import opened Queries
  import opened ForceTenant
  import opened Databases
  import opened ScrubRelations
  import opened TenantReads
  import opened TenantRefinement
  import opened TenantMirrors
  import opened TenantIsolation

  /** The relation graph of a data model: every relation with its target and arity, without its columns. */
  datatype Graph = Graph(relations: RelationMap, owned: set<Name>)

  ghost predicate HasGraph(s: Schema, g: Graph) {
    && s.owned == g.owned
    && forall m :: Relations(g.relations, m) ==
         map k | k in RelationsFrom(s, m) :: RelationMeta(RelationsFrom(s, m)[k].target, RelationsFrom(s, m)[k].isList)
  }

  /** No relation leads to an unowned model from which another relation leads to an owned one. */
  predicate NoReentry(g: Graph) {
    forall m, k1, k2 :: m in g.relations && k1 in g.relations[m] && g.relations[m][k1].target !in g.owned
                        && k2 in Relations(g.relations, g.relations[m][k1].target)
      ==> Relations(g.relations, g.relations[m][k1].target)[k2].target !in g.owned
  }

  /** Every accepted find, on every pair of databases that agree for the tenant, gives the same answer. */
  ghost predicate Isolates(s: Schema) {
    forall relations, db1, db2, op, model, node, tenant ::
      Sees(relations, s) && ValidDb(s, db1) && ValidDb(s, db2) && AgreeFor(s, db1, db2, tenant)
      && Accepted(s, model, node)
      ==> ScopedFind(s, relations, db1, op, model, node, tenant)
          == ScopedFind(s, relations, db2, op, model, node, tenant)
  }

  // ---- without re-entry every query is covered ----

  lemma {:induction false} StaysSealed(s: Schema, g: Graph, model: Name, node: Node)
    requires HasGraph(s, g) && NoReentry(g) && model !in s.owned
    requires exists m, k :: m in g.relations && k in g.relations[m] && g.relations[m][k].target == model
    ensures Sealed(s, model, node)
    decreases node
  {
    forall k | k in Followed(s, model, node)
      ensures var rel, sel := RelationsFrom(s, model)[k], Entries(node)[k];
              rel.target !in s.owned && (sel.Sub? ==> Sealed(s, rel.target, sel.node))
    {
      assert k in Relations(g.relations, model);
      var rel, sel := RelationsFrom(s, model)[k], Entries(node)[k];
      assert Relations(g.relations, model)[k].target == rel.target;
      if sel.Sub? {
        assert model in g.relations && k in g.relations[model] && g.relations[model][k].target == rel.target;
        StaysSealed(s, g, rel.target, sel.node);
      }
    }
  }

  lemma {:induction false} AlwaysCovered(s: Schema, g: Graph, model: Name, node: Node)
    requires HasGraph(s, g) && NoReentry(g)
    ensures Covered(s, model, node)
    decreases node
  {
    forall k | k in Followed(s, model, node) && Entries(node)[k].Sub?
      ensures var rel, below := RelationsFrom(s, model)[k], Entries(node)[k].node;
              if rel.target in s.owned then Covered(s, rel.target, below) else Sealed(s, rel.target, below)
    {
      assert k in Relations(g.relations, model);
      var rel, below := RelationsFrom(s, model)[k], Entries(node)[k].node;
      if rel.target in s.owned {
        AlwaysCovered(s, g, rel.target, below);
      } else {
        assert model in g.relations && k in g.relations[model] && g.relations[model][k].target == rel.target;
        StaysSealed(s, g, rel.target, below);
      }
    }
  }

  // ---- with re-entry some layout of foreign keys shows another tenant's row ----

  lemma {:induction false} LongerName(names: set<Name>) returns (n: nat)
    ensures forall x :: x in names ==> |x| < n
  {
    n := 0;
    if names != {} {
      var x :| x in names;
      n := LongerName(names - {x});
      n := if |x| < n then n else |x| + 1;
    }
  }

  /** The chain `m -k1-> hub -k2-> t` with an unowned hub, and four column names that are no relations. */
  datatype Chain = Chain(m: Name, k1: Name, hub: Name, k2: Name, t: Name, a: Name, b: Name, c: Name, d: Name)

  predicate IsColumn(g: Graph, name: Name) {
    forall m :: m in g.relations ==> name !in g.relations[m]
  }

  predicate Distinct(names: seq<Name>) {
    forall i, j :: 0 <= i < j < |names| ==> names[i] != names[j]
  }

  predicate ReentersBy(g: Graph, ch: Chain) {
    && ch.m in g.relations && ch.k1 in g.relations[ch.m] && g.relations[ch.m][ch.k1].target == ch.hub
    && ch.hub !in g.owned && ch.hub in g.relations && ch.k2 in g.relations[ch.hub]
    && g.relations[ch.hub][ch.k2].target == ch.t && ch.t in g.owned
    && IsColumn(g, TENANT_ID) && IsColumn(g, ch.a) && IsColumn(g, ch.b) && IsColumn(g, ch.c) && IsColumn(g, ch.d)
    && Distinct([TENANT_ID, ch.a, ch.b, ch.c, ch.d])
  }

  function LayoutRelation(g: Graph, ch: Chain, m: Name, k: Name): Relation
    requires m in g.relations && k in g.relations[m]
  {
    Relation(g.relations[m][k].target, g.relations[m][k].isList,
             if m == ch.m && k == ch.k1 then [(ch.a, ch.b)]
             else if m == ch.hub && k == ch.k2 then [(ch.c, ch.d)] else [])
  }

  function Layout(g: Graph, ch: Chain): Schema {
    Schema(map m | m in g.relations :: map k | k in g.relations[m] :: LayoutRelation(g, ch, m, k), g.owned)
  }

  function Start(ch: Chain): Row { Row(0, map[TENANT_ID := Str("A"), ch.a := Num(1)]) }
  function Hub(ch: Chain): Row { Row(1, map[ch.b := Num(1), ch.c := Num(1)]) }
  function Other(ch: Chain): Row { Row(2, map[TENANT_ID := Str("B"), ch.d := Num(1)]) }

  /** Tenant A's row, the hub and, if asked for, tenant B's row, each in its model's table. */
  function SampleTable(ch: Chain, withOther: bool, x: Name): seq<Row> {
    (if x == ch.m then [Start(ch)] else []) + (if x == ch.hub then [Hub(ch)] else [])
    + (if x == ch.t && withOther then [Other(ch)] else [])
  }

  function Sample(ch: Chain, withOther: bool): Database {
    map[ch.m := SampleTable(ch, withOther, ch.m),
        ch.hub := SampleTable(ch, withOther, ch.hub),
        ch.t := SampleTable(ch, withOther, ch.t)]
  }

  lemma SampleRows(ch: Chain, withOther: bool, x: Name)
    ensures Table(Sample(ch, withOther), x) == SampleTable(ch, withOther, x)
  {
    hide Start, Hub, Other;
  }

  /** The names in the rows are those of the chain, and distinct. */
  lemma SampleColumns(g: Graph, ch: Chain)
    requires ReentersBy(g, ch)
    ensures At(Start(ch).cols, ch.a) == At(Hub(ch).cols, ch.b) == At(Hub(ch).cols, ch.c) == At(Other(ch).cols, ch.d) == Num(1)
    ensures At(Hub(ch).cols, ch.a) == At(Other(ch).cols, ch.a) == Undefined
    ensures At(Start(ch).cols, ch.b) == At(Other(ch).cols, ch.b) == Undefined
    ensures At(Start(ch).cols, ch.c) == At(Other(ch).cols, ch.c) == Undefined
    ensures At(Start(ch).cols, ch.d) == At(Hub(ch).cols, ch.d) == Undefined
    ensures At(Start(ch).cols, TENANT_ID) == Str("A") && At(Other(ch).cols, TENANT_ID) == Str("B")
    ensures At(Hub(ch).cols, TENANT_ID) == Undefined
    ensures Start(ch).cols.Keys + Hub(ch).cols.Keys + Other(ch).cols.Keys == {TENANT_ID, ch.a, ch.b, ch.c, ch.d}
    ensures Start(ch) != Hub(ch) && Hub(ch) != Other(ch) && Start(ch) != Other(ch)
  {
    var names := [TENANT_ID, ch.a, ch.b, ch.c, ch.d];
    assert Distinct(names);
    assert names[0] != names[1] && names[0] != names[2] && names[0] != names[3] && names[0] != names[4];
    assert names[1] != names[2] && names[1] != names[3] && names[1] != names[4];
    assert names[2] != names[3] && names[2] != names[4] && names[3] != names[4];
  }

  lemma JoinsOnOne(from: Row, to: Row, x: Name, y: Name)
    ensures Joins([(x, y)], from, to) <==> SameKey(At(from.cols, x), At(to.cols, y))
  {
    assert [(x, y)][0] == (x, y);
  }

  lemma {:induction false} FilterOne<T(!new)>(keep: T -> bool, rows: seq<T>, x: T)
    requires forall i, j :: 0 <= i < j < |rows| ==> rows[i] != rows[j]
    requires forall r :: r in rows && keep(r) ==> r == x
    ensures Filter(keep, rows) == if x in rows && keep(x) then [x] else []
  {
    if rows != [] {
      FilterOne(keep, rows[1..], x);
      assert rows == [rows[0]] + rows[1..];
    }
  }

  /** A join on one column pair that only `x`, of three rows at most, can meet. */
  lemma OneJoin(ch: Chain, withOther: bool, target: Name, from: Row, p: Name, q: Name, x: Row)
    requires Start(ch) != Hub(ch) && Hub(ch) != Other(ch) && Start(ch) != Other(ch)
    requires forall r :: r in [Start(ch), Hub(ch), Other(ch)] && r != x ==> At(r.cols, q) == Undefined
    ensures var rows := SampleTable(ch, withOther, target);
            Filter((r: Row) => Joins([(p, q)], from, r), rows)
            == if x in rows && SameKey(At(from.cols, p), At(x.cols, q)) then [x] else []
  {
    hide Start, Hub, Other;
    var rows := SampleTable(ch, withOther, target);
    forall r | r in rows && Joins([(p, q)], from, r) ensures r == x {
      JoinsOnOne(from, r, p, q);
      assert r in [Start(ch), Hub(ch), Other(ch)];
    }
    JoinsOnOne(from, x, p, q);
    FilterOne((r: Row) => Joins([(p, q)], from, r), rows, x);
  }

  lemma FirstJoin(g: Graph, ch: Chain, withOther: bool, row: Row)
    requires ReentersBy(g, ch) && row in [Start(ch), Hub(ch), Other(ch)]
    ensures Joined(Sample(ch, withOther), LayoutRelation(g, ch, ch.m, ch.k1), row)
            == if row == Start(ch) then [Hub(ch)] else []
  {
    SampleRows(ch, withOther, ch.hub);
    SampleColumns(g, ch);
    var rel := LayoutRelation(g, ch, ch.m, ch.k1);
    assert rel.target == ch.hub && rel.on == [(ch.a, ch.b)];
    assert Hub(ch) in SampleTable(ch, withOther, ch.hub);
    hide LayoutRelation, ReentersBy, Start, Hub, Other, Sample, SampleTable, Joins, Filter, At, Table;
    assert row == Start(ch) || row == Hub(ch) || row == Other(ch);
    OneJoin(ch, withOther, ch.hub, row, ch.a, ch.b, Hub(ch));
  }

  lemma OtherIsThere(g: Graph, ch: Chain, withOther: bool)
    requires ReentersBy(g, ch)
    ensures Other(ch) in SampleTable(ch, withOther, ch.t) <==> withOther
  {
    SampleColumns(g, ch);
    hide Start, Hub, Other, ReentersBy;
  }

  lemma SecondJoin(g: Graph, ch: Chain, withOther: bool, row: Row)
    requires ReentersBy(g, ch) && row in [Start(ch), Hub(ch), Other(ch)]
    ensures Joined(Sample(ch, withOther), LayoutRelation(g, ch, ch.hub, ch.k2), row)
            == if row == Hub(ch) && withOther then [Other(ch)] else []
  {
    SampleRows(ch, withOther, ch.t);
    SampleColumns(g, ch);
    OtherIsThere(g, ch, withOther);
    var rel := LayoutRelation(g, ch, ch.hub, ch.k2);
    assert rel.target == ch.t && rel.on == [(ch.c, ch.d)];
    hide LayoutRelation, ReentersBy, Start, Hub, Other, Sample, SampleTable, Joins, Filter, At, Table;
    assert row == Start(ch) || row == Hub(ch) || row == Other(ch);
    OneJoin(ch, withOther, ch.t, row, ch.c, ch.d, Other(ch));
  }

  lemma NoColumns(rows: seq<Row>, row: Row)
    ensures Filter((r: Row) => Joins([], row, r), rows) == []
  {
    FilterNone((r: Row) => Joins([], row, r), rows);
  }

  lemma OtherJoins(g: Graph, ch: Chain, withOther: bool, m: Name, k: Name, row: Row)
    requires m in g.relations && k in g.relations[m]
    requires !(m == ch.m && k == ch.k1) && !(m == ch.hub && k == ch.k2)
    ensures Joined(Sample(ch, withOther), LayoutRelation(g, ch, m, k), row) == []
  {
    hide Sample, Joins, Filter;
    NoColumns(Table(Sample(ch, withOther), g.relations[m][k].target), row);
  }

  lemma AtMostOneJoin(g: Graph, ch: Chain, withOther: bool, m: Name, k: Name, row: Row)
    requires ReentersBy(g, ch)
    requires m in g.relations && k in g.relations[m] && row in [Start(ch), Hub(ch), Other(ch)]
    ensures |Joined(Sample(ch, withOther), LayoutRelation(g, ch, m, k), row)| <= 1
  {
    hide Start, Hub, Other, Sample, Joined, ReentersBy;
    if m == ch.m && k == ch.k1 {
      FirstJoin(g, ch, withOther, row);
    } else if m == ch.hub && k == ch.k2 {
      SecondJoin(g, ch, withOther, row);
    } else {
      OtherJoins(g, ch, withOther, m, k, row);
    }
  }

  lemma LayoutShape(g: Graph, ch: Chain)
    requires TenantIsColumn(g.relations)
    ensures var s := Layout(g, ch);
            && WellFormed(s) && HasGraph(s, g) && s.owned == g.owned
            && forall m :: RelationsFrom(s, m).Keys == Relations(g.relations, m).Keys
                 && forall k :: k in Relations(g.relations, m) ==> RelationsFrom(s, m)[k] == LayoutRelation(g, ch, m, k)
  {
    var s := Layout(g, ch);
    forall m ensures Relations(g.relations, m) ==
      map k | k in RelationsFrom(s, m) :: RelationMeta(RelationsFrom(s, m)[k].target, RelationsFrom(s, m)[k].isList)
    {
      if m in g.relations {
        assert RelationsFrom(s, m).Keys == g.relations[m].Keys;
      }
    }
  }

  lemma SampleRowColumns(g: Graph, ch: Chain, withOther: bool, x: Name, r: Row)
    requires ReentersBy(g, ch) && r in SampleTable(ch, withOther, x)
    ensures r in [Start(ch), Hub(ch), Other(ch)]
    ensures x in g.owned ==> At(r.cols, TENANT_ID).Str?
    ensures forall k :: k in Relations(g.relations, x) ==> k !in r.cols
  {
    SampleColumns(g, ch);
    hide Start, Hub, Other, At, Distinct;
    assert r in [Start(ch), Hub(ch), Other(ch)];
    forall k | k in Relations(g.relations, x) ensures k !in r.cols {
      assert k !in {TENANT_ID, ch.a, ch.b, ch.c, ch.d};
      assert r.cols.Keys <= Start(ch).cols.Keys + Hub(ch).cols.Keys + Other(ch).cols.Keys;
    }
  }

  lemma SampleRowIsValid(g: Graph, ch: Chain, withOther: bool, x: Name, r: Row)
    requires ReentersBy(g, ch) && TenantIsColumn(g.relations) && r in SampleTable(ch, withOther, x)
    ensures ValidRow(Layout(g, ch), Sample(ch, withOther), x, r)
  {
    var s, db := Layout(g, ch), Sample(ch, withOther);
    LayoutShape(g, ch);
    SampleRowColumns(g, ch, withOther, x, r);
    hide Layout, LayoutRelation, Start, Hub, Other, Sample, SampleTable, Joined, ReentersBy, TenantIsColumn, At, HasGraph;
    assert RelationsFrom(s, x).Keys == Relations(g.relations, x).Keys;
    forall k | k in RelationsFrom(s, x) ensures |Joined(db, RelationsFrom(s, x)[k], r)| <= 1 {
      assert x in g.relations && k in g.relations[x];
      AtMostOneJoin(g, ch, withOther, x, k, r);
    }
  }

  lemma SampleIsValid(g: Graph, ch: Chain, withOther: bool)
    requires ReentersBy(g, ch) && TenantIsColumn(g.relations)
    ensures ValidDb(Layout(g, ch), Sample(ch, withOther))
  {
    hide Layout, ValidRow, ReentersBy, Start, Hub, Other;
    var db := Sample(ch, withOther);
    forall x, r | x in db && r in db[x] ensures ValidRow(Layout(g, ch), db, x, r) {
      SampleRows(ch, withOther, x);
      SampleRowIsValid(g, ch, withOther, x, r);
    }
  }

  /** Tenant B's row is none of tenant A's. */
  lemma OtherIsNotOwn(g: Graph, ch: Chain, x: Name)
    requires ReentersBy(g, ch)
    ensures Filter((r: Row) => OwnedBy(r, "A"), SampleTable(ch, true, x))
            == Filter((r: Row) => OwnedBy(r, "A"), SampleTable(ch, false, x))
    ensures x != ch.t ==> SampleTable(ch, true, x) == SampleTable(ch, false, x)
  {
    SampleColumns(g, ch);
    hide ReentersBy, Start, Hub, Other, Filter;
    var own, rest, last := (r: Row) => OwnedBy(r, "A"), SampleTable(ch, false, x), if x == ch.t then [Other(ch)] else [];
    assert SampleTable(ch, true, x) == rest + last;
    FilterConcat(own, rest, last);
    FilterNone(own, last);
  }

  lemma SamplesAgree(g: Graph, ch: Chain)
    requires ReentersBy(g, ch)
    ensures AgreeFor(Layout(g, ch), Sample(ch, true), Sample(ch, false), "A")
  {
    var s := Layout(g, ch);
    var p1, p2 := Private(s, Sample(ch, true), "A"), Private(s, Sample(ch, false), "A");
    hide LayoutRelation, SampleTable, Filter;
    assert ch.t in s.owned;
    forall x | x in p1 ensures p1[x] == p2[x] {
      SampleRows(ch, true, x);
      SampleRows(ch, false, x);
      OtherIsNotOwn(g, ch, x);
    }
  }

  /** The find that includes `k1` and, below it, `k2`. */
  function Through(ch: Chain): Node {
    Node(None, None, Fields(map[ch.k1 := Sub(Node(None, None, Fields(map[ch.k2 := On]), NoSelection))]), NoSelection)
  }

  function Tail(g: Graph, ch: Chain): Relation
    requires ReentersBy(g, ch)
  {
    LayoutRelation(g, ch, ch.m, ch.k1)
  }

  /** The first row returned is tenant A's own. */
  lemma StartComesFirst(g: Graph, ch: Chain, withOther: bool)
    requires ReentersBy(g, ch)
    ensures var rows := Window(Table(Sample(ch, withOther), ch.m), PinTop(Layout(g, ch), ch.m, Through(ch), "A").where, None);
            rows != [] && rows[0] == Start(ch)
  {
    SampleRows(ch, withOther, ch.m);
    SampleColumns(g, ch);
    var where := PinTop(Layout(g, ch), ch.m, Through(ch), "A").where;
    hide Start, Hub, Other, Sample, ReentersBy;
    if ch.m in g.owned { PinAdmits(None, "A", Start(ch).cols); }
    hide At;
    assert Admits(where, Start(ch).cols);
    assert Table(Sample(ch, withOther), ch.m)[0] == Start(ch);
  }

  /** A relation that is read whole and joins one row at most. */
  lemma JoinedAsIs(s: Schema, db: Database, rel: Relation, row: Row, joined: Option<Row>)
    requires Joined(db, rel, row) == if joined.Some? then [joined.value] else []
    ensures var items := if joined.Some? then [Obj(joined.value.cols)] else [];
            EvalRelation(s, db, rel, row, On) == if rel.isList then Arr(items) else if items == [] then Null else items[0]
  {
    hide Joined;
    if joined.Some? && rel.isList {
      assert EvalEntries(s, db, rel.target, [joined.value], On) == [Obj(joined.value.cols)];
    }
  }

  lemma HubShows(g: Graph, ch: Chain, withOther: bool)
    requires ReentersBy(g, ch) && TenantIsColumn(g.relations)
    ensures var s, db, inner := Layout(g, ch), Sample(ch, withOther), Node(None, None, Fields(map[ch.k2 := On]), NoSelection);
            var hub := EvalRow(s, db, ch.hub, Hub(ch), inner);
            && hub.Obj? && ch.k2 in hub.fields
            && hub.fields[ch.k2] == var items := if withOther then [Obj(Other(ch).cols)] else [];
                                    if g.relations[ch.hub][ch.k2].isList then Arr(items)
                                    else if items == [] then Null else items[0]
  {
    var s, db, inner := Layout(g, ch), Sample(ch, withOther), Node(None, None, Fields(map[ch.k2 := On]), NoSelection);
    LayoutShape(g, ch);
    var rel := LayoutRelation(g, ch, ch.hub, ch.k2);
    assert ch.k2 in Relations(g.relations, ch.hub);
    assert RelationsFrom(s, ch.hub)[ch.k2] == rel && ch.k2 in Followed(s, ch.hub, inner) && Entries(inner)[ch.k2] == On;
    assert rel.isList == g.relations[ch.hub][ch.k2].isList && rel.target == ch.t;
    hide *;
    RowFields(s, db, ch.hub, Hub(ch), inner);
    SecondJoin(g, ch, withOther, Hub(ch));
    JoinedAsIs(s, db, rel, Hub(ch), if withOther then Some(Other(ch)) else None);
  }

  /** Tenant A's own row shows whether tenant B's row is there. */
  lemma SeenDiffers(g: Graph, ch: Chain)
    requires ReentersBy(g, ch) && TenantIsColumn(g.relations)
    ensures var sel := Entries(Through(ch))[ch.k1];
            EvalRelation(Layout(g, ch), Sample(ch, true), Tail(g, ch), Start(ch), sel)
            != EvalRelation(Layout(g, ch), Sample(ch, false), Tail(g, ch), Start(ch), sel)
  {
    HubShows(g, ch, true);
    HubShows(g, ch, false);
    FirstJoin(g, ch, true, Start(ch));
    FirstJoin(g, ch, false, Start(ch));
    FilterAll((r: Row) => Admits(None, r.cols), [Hub(ch)]);
    hide EvalRow, Layout, Sample, Hub, Other, Start, Joined;
  }

  lemma IncludesRelation(s: Schema, model: Name, node: Node, k: Name)
    requires node == Node(None, None, Fields(map[k := On]), NoSelection)
    ensures Accepted(s, model, node)
  {
  }

  lemma IncludesNode(s: Schema, model: Name, node: Node, k: Name, inner: Node)
    requires node == Node(None, None, Fields(map[k := Sub(inner)]), NoSelection) && inner.where == None && inner.take == None
    requires k in RelationsFrom(s, model) && Accepted(s, RelationsFrom(s, model)[k].target, inner)
    ensures Accepted(s, model, node)
  {
  }

  lemma ThroughIsAccepted(g: Graph, ch: Chain)
    requires ReentersBy(g, ch) && TenantIsColumn(g.relations)
    ensures Accepted(Layout(g, ch), ch.m, Through(ch))
  {
    LayoutShape(g, ch);
    var s, inner := Layout(g, ch), Node(None, None, Fields(map[ch.k2 := On]), NoSelection);
    assert ch.k1 in Relations(g.relations, ch.m);
    assert ch.k1 in RelationsFrom(s, ch.m) && RelationsFrom(s, ch.m)[ch.k1].target == ch.hub;
    assert Entries(Through(ch)) == map[ch.k1 := Sub(inner)];
    hide *;
    IncludesRelation(s, ch.hub, inner, ch.k2);
    IncludesNode(s, ch.m, Through(ch), ch.k1, inner);
  }

  lemma AnswersDiffer(g: Graph, ch: Chain, relations: RelationMap)
    requires ReentersBy(g, ch) && TenantIsColumn(g.relations) && Sees(relations, Layout(g, ch))
    ensures ScopedFind(Layout(g, ch), relations, Sample(ch, true), FindMany, ch.m, Through(ch), "A")
            != ScopedFind(Layout(g, ch), relations, Sample(ch, false), FindMany, ch.m, Through(ch), "A")
  {
    var s, node := Layout(g, ch), Through(ch);
    LayoutShape(g, ch);
    StartComesFirst(g, ch, true);
    StartComesFirst(g, ch, false);
    SeenDiffers(g, ch);
    assert ch.k1 in Relations(g.relations, ch.m);
    assert ch.k1 in Followed(s, ch.m, node) && RelationsFrom(s, ch.m)[ch.k1] == Tail(g, ch) && node.take == None;
    hide *;
    SeenUnowned(s, relations, Sample(ch, true), ch.m, node, 0, ch.k1, "A");
    SeenUnowned(s, relations, Sample(ch, false), ch.m, node, 0, ch.k1, "A");
  }

  lemma VisibleSees(s: Schema)
    ensures Sees(Visible(s), s)
  {
  }

  lemma ReentryShows(g: Graph, ch: Chain)
    requires ReentersBy(g, ch) && TenantIsColumn(g.relations)
    ensures !Isolates(Layout(g, ch))
  {
    var s := Layout(g, ch);
    hide Layout, Sample, ScopedFind, Accepted, ValidDb, AgreeFor, Sees, Visible, ReentersBy, Through;
    VisibleSees(s);
    SampleIsValid(g, ch, true);
    SampleIsValid(g, ch, false);
    SamplesAgree(g, ch);
    ThroughIsAccepted(g, ch);
    AnswersDiffer(g, ch, Visible(s));
  }

  lemma FreshIsColumn(g: Graph, names: set<Name>, x: Name)
    requires forall m, k :: m in g.relations && k in g.relations[m] ==> k in names
    requires x !in names
    ensures IsColumn(g, x)
  {
  }

  /** A graph with re-entry has a chain through it, and names to lay it out with. */
  lemma FindChain(g: Graph) returns (ch: Chain)
    requires TenantIsColumn(g.relations) && !NoReentry(g)
    ensures ReentersBy(g, ch)
  {
    var m, k1, k2 :| m in g.relations && k1 in g.relations[m] && g.relations[m][k1].target !in g.owned
                     && k2 in Relations(g.relations, g.relations[m][k1].target)
                     && Relations(g.relations, g.relations[m][k1].target)[k2].target in g.owned;
    var hub := g.relations[m][k1].target;
    var names: set<Name> := {TENANT_ID} + set x, k | x in g.relations && k in g.relations[x] :: k;
    forall x, k | x in g.relations && k in g.relations[x] ensures k in names {}
    var n := LongerName(names);
    var a, b, c, d := seq(n, i => 'x'), seq(n + 1, i => 'x'), seq(n + 2, i => 'x'), seq(n + 3, i => 'x');
    FreshIsColumn(g, names, a);
    FreshIsColumn(g, names, b);
    FreshIsColumn(g, names, c);
    FreshIsColumn(g, names, d);
    assert TENANT_ID in names;
    assert |TENANT_ID| < |a| < |b| < |c| < |d|;
    ch := Chain(m, k1, hub, k2, g.relations[hub][k2].target, a, b, c, d);
  }

  lemma NoReentryIsolates(s: Schema, g: Graph)
    requires HasGraph(s, g) && WellFormed(s) && NoReentry(g)
    ensures Isolates(s)
  {
    forall relations, db1, db2, op, model, node, tenant |
      Sees(relations, s) && ValidDb(s, db1) && ValidDb(s, db2) && AgreeFor(s, db1, db2, tenant)
      && Accepted(s, model, node)
      ensures ScopedFind(s, relations, db1, op, model, node, tenant)
              == ScopedFind(s, relations, db2, op, model, node, tenant)
    {
      AlwaysCovered(s, g, model, node);
      assert Contained(s, db1, model, node, tenant) && Contained(s, db2, model, node, tenant);
      Isolation(s, relations, db1, db2, op, model, node, tenant);
    }
  }

  /** The layer isolates every layout of foreign keys on a relation graph if and only if the graph has no
      path that leaves the tenant-owned models and comes back. */
  lemma IsolationExactlyWithoutReentry(g: Graph)
    requires TenantIsColumn(g.relations)
    ensures NoReentry(g) <==> forall s :: HasGraph(s, g) && WellFormed(s) ==> Isolates(s)
  {
    if NoReentry(g) {
      forall s | HasGraph(s, g) && WellFormed(s) ensures Isolates(s) {
        NoReentryIsolates(s, g);
      }
    } else {
      var ch := FindChain(g);
      ReentryShows(g, ch);
      LayoutShape(g, ch);
    }
  }
}
