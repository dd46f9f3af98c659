/** JavaScript values and the few sequence operations the models share. */
module Values {
  type Name = string
  type Tenant = string

  /** The way to a field of a result: relation names from the top down. */
  type Path = seq<Name>

  datatype Option<+T> = None | Some(value: T)

  /** A JavaScript value as it passes through the data layer. The order of an object's keys is not kept. */
  datatype Json =
    | Undefined
    | Null
    | Bool(b: bool)
    | Num(n: int)
    | Str(s: string)
    | Date(millis: int)
    | Arr(items: seq<Json>)
    | Obj(fields: map<Name, Json>)

  const TENANT_ID: Name := "tenantId"

  /** The value read by `obj[key]`: `undefined` when the key is absent. */
  function At(fields: map<Name, Json>, key: Name): Json {
    if key in fields then fields[key] else Undefined
  }

  /** A string that is there and not empty: what JavaScript takes for true. */
  predicate Given(s: Option<string>) {
    s.Some? && s.value != ""
  }

  /** A row after a write: the given columns replaced, undefined ones left alone. */
  function WriteCols(cols: map<Name, Json>, data: map<Name, Json>): map<Name, Json> {
    cols + map k | k in data && data[k] != Undefined :: data[k]
  }

  function Filter<T>(keep: T -> bool, s: seq<T>): (r: seq<T>)
    ensures |r| <= |s|
  {
    if s == [] then [] else (if keep(s[0]) then [s[0]] else []) + Filter(keep, s[1..])
  }

  function Take<T>(s: seq<T>, limit: Option<nat>): (r: seq<T>)
    ensures r <= s
  {
    if limit.Some? && limit.value < |s| then s[..limit.value] else s
  }

  lemma {:induction false} FilterMembers<T(!new)>(keep: T -> bool, s: seq<T>)
    ensures forall x :: x in Filter(keep, s) <==> x in s && keep(x)
  {
    if s != [] {
      FilterMembers(keep, s[1..]);
      assert s == [s[0]] + s[1..];
    }
  }

  lemma {:induction false} FilterAgree<T(!new)>(f: T -> bool, g: T -> bool, s: seq<T>)
    requires forall x :: x in s ==> f(x) == g(x)
    ensures Filter(f, s) == Filter(g, s)
  {
    if s != [] {
      FilterAgree(f, g, s[1..]);
    }
  }

  /** Filtering twice is filtering by the conjunction. */
  lemma {:induction false} FilterFilter<T(!new)>(f: T -> bool, g: T -> bool, h: T -> bool, s: seq<T>)
    requires forall x :: x in s ==> (h(x) <==> f(x) && g(x))
    ensures Filter(f, Filter(g, s)) == Filter(h, s)
  {
    if s != [] {
      var rest := Filter(g, s[1..]);
      FilterFilter(f, g, h, s[1..]);
      assert s[0] in s;
      if g(s[0]) {
        assert Filter(g, s) == [s[0]] + rest && ([s[0]] + rest)[1..] == rest;
      } else {
        assert Filter(g, s) == rest;
      }
    }
  }

  lemma {:induction false} FilterConcat<T>(f: T -> bool, s: seq<T>, t: seq<T>)
    ensures Filter(f, s + t) == Filter(f, s) + Filter(f, t)
  {
    if s == [] {
      assert s + t == t;
    } else {
      var head, tail := if f(s[0]) then [s[0]] else [], Filter(f, s[1..]);
      FilterConcat(f, s[1..], t);
      calc {
        Filter(f, s + t);
        { assert (s + t)[0] == s[0] && (s + t)[1..] == s[1..] + t; }
        head + Filter(f, s[1..] + t);
        head + (tail + Filter(f, t));
        (head + tail) + Filter(f, t);
      }
    }
  }

  lemma {:induction false} FilterAll<T(!new)>(f: T -> bool, s: seq<T>)
    requires forall x :: x in s ==> f(x)
    ensures Filter(f, s) == s
  {
    if s != [] {
      FilterAll(f, s[1..]);
    }
  }

  lemma {:induction false} FilterNone<T(!new)>(f: T -> bool, s: seq<T>)
    requires forall x :: x in s ==> !f(x)
    ensures Filter(f, s) == []
  {
    if s != [] {
      FilterNone(f, s[1..]);
    }
  }

  // ---- set sizes ----

  lemma {:induction false} SubsetSize<T>(a: set<T>, b: set<T>)
    requires a <= b
    ensures |a| <= |b|
    ensures a != b ==> |a| < |b|
  {
    if a != {} {
      var x :| x in a;
      SubsetSize(a - {x}, b - {x});
      assert a - {x} == b - {x} ==> a == b;
    }
  }
}
