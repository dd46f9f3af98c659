/** What a find means: tables of rows, joins on column values, and the result trees a query asks for. */
module Databases {
  import opened Values
  import opened Schemas
  import opened Queries

  datatype Row = Row(key: nat, cols: map<Name, Json>)
  type Database = map<Name, seq<Row>>

  /** A relation of the data model: its target, its arity, and the column pairs it joins on. */
  datatype Relation = Relation(target: Name, isList: bool, on: seq<(Name, Name)>)

  /** All relations, and the models whose rows carry a `tenantId`. */
  datatype Schema = Schema(relations: map<Name, map<Name, Relation>>, owned: set<Name>)

  function RelationsFrom(s: Schema, model: Name): map<Name, Relation> {
    if model in s.relations then s.relations[model] else map[]
  }

  /** The part of the schema the tenant layer sees: relations to tenant-owned models only. */
  function Visible(s: Schema): RelationMap {
    map m | m in s.relations ::
      map k | k in s.relations[m] && s.relations[m][k].target in s.owned ::
        RelationMeta(s.relations[m][k].target, s.relations[m][k].isList)
  }

  predicate OwnedBy(row: Row, tenant: Tenant) {
    At(row.cols, TENANT_ID) == Str(tenant)
  }

  function Table(db: Database, model: Name): seq<Row> {
    if model in db then db[model] else []
  }

  /** SQL equality: a null or missing column joins nothing. */
  predicate SameKey(a: Json, b: Json) {
    a == b && a != Null && a != Undefined
  }

  predicate Joins(on: seq<(Name, Name)>, from: Row, to: Row) {
    on != [] && forall c :: c in on ==> SameKey(At(from.cols, c.0), At(to.cols, c.1))
  }

  function Joined(db: Database, rel: Relation, row: Row): seq<Row> {
    Filter(r => Joins(rel.on, row, r), Table(db, rel.target))
  }

  function Window(rows: seq<Row>, where: Option<Where>, take: Option<nat>): seq<Row> {
    Take(Filter((r: Row) => Admits(where, r.cols), rows), take)
  }

  /** A `select` keeps the columns it names; otherwise every column is returned. */
  function Scalars(row: Row, node: Node): map<Name, Json> {
    if node.sel.Fields? && !node.incl.Fields? then
      map k | k in row.cols && k in node.sel.entries && node.sel.entries[k] == On :: row.cols[k]
    else row.cols
  }

  function Followed(s: Schema, model: Name, node: Node): (followed: map<Name, Sel>) {
    var entries := Entries(node);
    map k | k in entries && k in RelationsFrom(s, model) && entries[k] != Off :: entries[k]
  }

  function EvalRow(s: Schema, db: Database, model: Name, row: Row, node: Node): Json
    decreases node, 2
  {
    var entries, relations := Entries(node), RelationsFrom(s, model);
    Obj(Scalars(row, node)
        + map k | k in entries && k in relations && entries[k] != Off ::
            EvalRelation(s, db, relations[k], row, entries[k]))
  }

  function EvalRelation(s: Schema, db: Database, rel: Relation, row: Row, sel: Sel): Json
    decreases sel, 1
  {
    var joined := Joined(db, rel, row);
    if rel.isList then
      Arr(EvalEntries(s, db, rel.target,
                      if sel.Sub? then Window(joined, sel.node.where, sel.node.take) else joined, sel))
    else if joined == [] then Null
    else EvalEntry(s, db, rel.target, joined[0], sel)
  }

  function EvalEntries(s: Schema, db: Database, model: Name, rows: seq<Row>, sel: Sel): (items: seq<Json>)
    ensures |items| == |rows|
    ensures forall i :: 0 <= i < |rows| ==> items[i] == EvalEntry(s, db, model, rows[i], sel)
    decreases sel, 0, |rows|
  {
    if rows == [] then []
    else [EvalEntry(s, db, model, rows[0], sel)] + EvalEntries(s, db, model, rows[1..], sel)
  }

  function EvalEntry(s: Schema, db: Database, model: Name, row: Row, sel: Sel): Json
    decreases sel, 0, 0
  {
    if sel.Sub? then EvalRow(s, db, model, row, sel.node) else Obj(row.cols)
  }
}
