/** Removing forced `tenantId` fields from a result tree, path by path. */
module StripForced {
  import opened Values

  /** Deletes `tenantId` from an object, or from every object of an array. */
  function DropTenant(j: Json): Json {
    match j
    case Arr(items) =>
      Arr(seq(|items|, i requires 0 <= i < |items| =>
        if items[i].Obj? then Obj(items[i].fields - {TENANT_ID}) else items[i]))
    case Obj(fields) => Obj(fields - {TENANT_ID})
    case _ => j
  }

  /** Strips one path, stepping through arrays without using up the path. */
  function StripAt(j: Json, path: Path): Json
    decreases j
  {
    match j
    case Arr(items) => Arr(seq(|items|, i requires 0 <= i < |items| => StripAt(items[i], path)))
    case Obj(fields) =>
      if path == [] || path[0] !in fields then j
      else Obj(fields[path[0] := if |path| == 1 then DropTenant(fields[path[0]]) else StripAt(fields[path[0]], path[1..])])
    case _ => j
  }

  function StripEach(j: Json, forced: seq<Path>): Json {
    if forced == [] then j else StripAt(StripEach(j, forced[..|forced| - 1]), forced[|forced| - 1])
  }

  /** What the paths that start with `k` continue with. */
  function Tails(paths: set<Path>, k: Name): set<Path> {
    set p | p in paths && p != [] && p[0] == k :: p[1..]
  }

  /** Strips all paths in one pass. The empty path asks for nothing here: its parent has dropped the field. */
  function Strip(j: Json, paths: set<Path>): Json
    decreases j
  {
    match j
    case Arr(items) => Arr(seq(|items|, i requires 0 <= i < |items| => Strip(items[i], paths)))
    case Obj(fields) =>
      Obj(map k | k in fields ::
            var below := Strip(fields[k], Tails(paths, k));
            if [] in Tails(paths, k) then DropTenant(below) else below)
    case _ => j
  }

  lemma {:induction false} TailsWith(paths: set<Path>, p: Path, k: Name)
    requires p != []
    ensures Tails(paths + {p}, k) == if p[0] == k then Tails(paths, k) + {p[1..]} else Tails(paths, k)
  {
    forall t | t in Tails(paths + {p}, k)
      ensures t in if p[0] == k then Tails(paths, k) + {p[1..]} else Tails(paths, k)
    {
    }
    forall t | t in Tails(paths, k) ensures t in Tails(paths + {p}, k) {
      var q :| q in paths && q != [] && q[0] == k && q[1..] == t;
      assert q in paths + {p};
    }
    if p[0] == k {
      assert p in paths + {p};
    }
  }

  lemma {:induction false} EmptyPathStripsNothing(j: Json, paths: set<Path>)
    ensures Strip(j, paths + {[]}) == Strip(j, paths)
  {
    match j
    case Arr(items) =>
      forall i | 0 <= i < |items| ensures Strip(items[i], paths + {[]}) == Strip(items[i], paths) {
        EmptyPathStripsNothing(items[i], paths);
      }
    case Obj(fields) =>
      forall k | k in fields ensures Tails(paths + {[]}, k) == Tails(paths, k) {
        forall q | q in paths && q != [] ensures q in paths + {[]} {}
      }
    case _ =>
  }

  lemma {:induction false} DropCommutes(j: Json, path: Path)
    requires path != []
    ensures StripAt(DropTenant(j), path) == DropTenant(StripAt(j, path))
  {
    match j
    case Arr(items) =>
      forall i | 0 <= i < |items|
        ensures StripAt(DropTenant(j), path).items[i] == DropTenant(StripAt(j, path)).items[i]
      {
      }
    case Obj(fields) =>
    case _ =>
  }

  lemma {:induction false} DropTwice(j: Json)
    ensures DropTenant(DropTenant(j)) == DropTenant(j)
  {
    match j
    case Arr(items) =>
      forall i | 0 <= i < |items| ensures DropTenant(DropTenant(j)).items[i] == DropTenant(j).items[i] {
        if items[i].Obj? {
          assert items[i].fields - {TENANT_ID} - {TENANT_ID} == items[i].fields - {TENANT_ID};
        }
      }
    case Obj(fields) => assert fields - {TENANT_ID} - {TENANT_ID} == fields - {TENANT_ID};
    case _ =>
  }

  lemma {:induction false} StripOneMore(j: Json, paths: set<Path>, p: Path)
    requires p != []
    ensures StripAt(Strip(j, paths), p) == Strip(j, paths + {p})
    decreases j, 0
  {
    match j
    case Arr(items) =>
      forall i | 0 <= i < |items| ensures StripAt(Strip(items[i], paths), p) == Strip(items[i], paths + {p}) {
        StripOneMore(items[i], paths, p);
      }
    case Obj(fields) =>
      var once, twice := StripAt(Strip(j, paths), p), Strip(j, paths + {p});
      assert once.Obj? && twice.Obj? && once.fields.Keys == fields.Keys == twice.fields.Keys;
      forall k | k in fields ensures once.fields[k] == twice.fields[k] {
        TailsWith(paths, p, k);
        if p[0] == k {
          OneMoreTail(fields[k], Tails(paths, k), p[1..]);
        }
      }
      assert once.fields == twice.fields;
    case _ =>
  }

  /** Below the field that the path starts with: its tail is stripped as well, or there the field itself. */
  lemma {:induction false} OneMoreTail(v: Json, tails: set<Path>, tail: Path)
    ensures var below, more := Strip(v, tails), Strip(v, tails + {tail});
            var was := if [] in tails then DropTenant(below) else below;
            (if tail == [] then DropTenant(was) else StripAt(was, tail))
            == if [] in tails + {tail} then DropTenant(more) else more
    decreases v, 1
  {
    hide Strip, StripAt, DropTenant;
    if tail == [] {
      EmptyPathStripsNothing(v, tails);
      DropTwice(Strip(v, tails));
    } else {
      StripOneMore(v, tails, tail);
      DropCommutes(Strip(v, tails), tail);
    }
  }

  lemma {:induction false} StripNothing(j: Json)
    ensures Strip(j, {}) == j
  {
    match j
    case Arr(items) =>
      forall i | 0 <= i < |items| ensures Strip(items[i], {}) == items[i] { StripNothing(items[i]); }
    case Obj(fields) =>
      forall k | k in fields ensures Tails({}, k) == {} && Strip(fields[k], {}) == fields[k] { StripNothing(fields[k]); }
    case _ =>
  }

  /** Stripping path after path, in any order and with any repetition, is stripping the set at once. */
  lemma {:induction false} StripEachIsStrip(j: Json, forced: seq<Path>)
    requires [] !in forced
    ensures StripEach(j, forced) == Strip(j, (set p | p in forced))
  {
    if forced == [] {
      StripNothing(j);
      assert (set p | p in forced) == {};
    } else {
      var init, last := forced[..|forced| - 1], forced[|forced| - 1];
      StripEachIsStrip(j, init);
      StripOneMore(j, (set p | p in init), last);
      assert forced == init + [last];
      assert (set p | p in forced) == (set p | p in init) + {last};
    }
  }
}
