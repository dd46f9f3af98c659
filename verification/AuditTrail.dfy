/** Redaction of sensitive values, and the old/new diff recorded for an update. */
module AuditTrail {
  import opened Values

  const SENSITIVE_FIELDS: set<Name> :=
    {"accessToken", "refreshToken", "encAccessToken", "encRefreshToken", "encPassword", "password"}

  const REDACTED: Json := Str("[REDACTED]")

  function Redact(value: Json): Json
    decreases value
  {
    match value
    case Arr(items) => Arr(seq(|items|, i requires 0 <= i < |items| => Redact(items[i])))
    case Obj(fields) =>
      Obj(map k | k in fields :: if k in SENSITIVE_FIELDS then REDACTED else Redact(fields[k]))
    case _ => value
  }

  /** One step into a value: a key of an object or an index of an array. */
  datatype Step = Key(k: Name) | Index(i: nat)

  /** The value at a path, if the path leads anywhere. */
  function Follow(j: Json, path: seq<Step>): Option<Json> {
    if path == [] then Some(j)
    else match path[0]
      case Key(k) => if j.Obj? && k in j.fields then Follow(j.fields[k], path[1..]) else None
      case Index(i) => if j.Arr? && i < |j.items| then Follow(j.items[i], path[1..]) else None
  }

  predicate SensitiveStep(s: Step) {
    s.Key? && s.k in SENSITIVE_FIELDS
  }

  /** Two values that look the same from outside: the same leaf, the same length, or the same keys. */
  predicate SameShape(a: Json, b: Json) {
    match b
    case Arr(items) => a.Arr? && |a.items| == |items|
    case Obj(fields) => a.Obj? && a.fields.Keys == fields.Keys
    case _ => a == b
  }

  /** Where a path leads, seen by its sensitive keys: past none, to the first one, or below it. */
  datatype Reach = Outside | AtKey | Below

  function ReachOf(path: seq<Step>): Reach {
    if path == [] then Outside
    else if SensitiveStep(path[0]) then (if |path| == 1 then AtKey else Below)
    else ReachOf(path[1..])
  }

  /** What redaction leaves at a path: outside sensitive keys all that was there, at the first sensitive key
      the placeholder, and below one nothing. */
  ghost predicate RedactedAt(r: Json, j: Json, path: seq<Step>) {
    var was, now := Follow(j, path), Follow(r, path);
    match ReachOf(path)
    case Outside => now.Some? == was.Some? && (was.Some? ==> SameShape(now.value, was.value))
    case AtKey => now == if was.Some? then Some(REDACTED) else None
    case Below => now == None
  }

  /** Past a step that is not sensitive, the rest of the path decides. */
  lemma PastStep(r: Json, j: Json, r': Json, j': Json, path: seq<Step>)
    requires path != [] && !SensitiveStep(path[0])
    requires Follow(j, path) == Follow(j', path[1..]) && Follow(r, path) == Follow(r', path[1..])
    ensures RedactedAt(r, j, path) <==> RedactedAt(r', j', path[1..])
  {
    hide Follow, SameShape;
  }

  /** At a sensitive key the placeholder stands, and no path leads further. */
  lemma AtSensitive(j: Json, path: seq<Step>)
    requires path != [] && SensitiveStep(path[0]) && j.Obj? && path[0].k in j.fields
    ensures RedactedAt(Redact(j), j, path)
  {
    assert Follow(Redact(j), path) == Follow(REDACTED, path[1..]);
    assert Follow(j, path) == Follow(j.fields[path[0].k], path[1..]);
    if |path| == 1 {
      assert path[1..] == [];
    } else {
      assert Follow(REDACTED, path[1..]) == None;
    }
    hide Redact, Follow;
  }

  /** Where a path leads nowhere it still leads nowhere. */
  lemma NowhereAt(r: Json, j: Json, path: seq<Step>)
    requires Follow(j, path) == None && Follow(r, path) == None
    ensures RedactedAt(r, j, path)
  {
  }

  lemma {:induction false} RedactsEveryPath(j: Json, path: seq<Step>)
    ensures RedactedAt(Redact(j), j, path)
    decreases |path|
  {
    if path != [] {
      hide RedactedAt;
      match path[0]
      case Key(k) =>
        if !(j.Obj? && k in j.fields) {
          NowhereAt(Redact(j), j, path);
        } else if k in SENSITIVE_FIELDS {
          AtSensitive(j, path);
        } else {
          RedactsEveryPath(j.fields[k], path[1..]);
          PastStep(Redact(j), j, Redact(j.fields[k]), j.fields[k], path);
        }
      case Index(i) =>
        if !(j.Arr? && i < |j.items|) {
          NowhereAt(Redact(j), j, path);
        } else {
          RedactsEveryPath(j.items[i], path[1..]);
          PastStep(Redact(j), j, Redact(j.items[i]), j.items[i], path);
        }
    }
  }

  lemma AtSensitiveKey(j: Json, r: Json, k: Name)
    requires j.Obj? && k in j.fields && k in SENSITIVE_FIELDS && RedactedAt(r, j, [Key(k)])
    requires r.Obj? && k in r.fields
    ensures r.fields[k] == REDACTED
  {
    var p := [Key(k)];
    assert p[1..] == [] && ReachOf(p) == AtKey;
    assert Follow(j, p) == Follow(j.fields[k], []) && Follow(r, p) == Follow(r.fields[k], []);
  }

  lemma BelowField(j: Json, r: Json, step: Step, j': Json, r': Json)
    requires forall path :: RedactedAt(r, j, path)
    requires !SensitiveStep(step) && Follow(j, [step]) == Some(j') && Follow(r, [step]) == Some(r')
    ensures forall path :: RedactedAt(r', j', path)
  {
    assert [step][1..] == [];
    hide RedactedAt;
    forall path ensures RedactedAt(r', j', path) {
      var whole := [step] + path;
      assert RedactedAt(r, j, whole) && whole[1..] == path;
      PastStep(r, j, r', j', whole);
    }
  }

  /** The paths determine the value. */
  lemma {:induction false} RedactedByPaths(j: Json, r: Json)
    requires forall path :: RedactedAt(r, j, path)
    ensures r == Redact(j)
    decreases j
  {
    assert RedactedAt(r, j, []) && SameShape(r, j);
    hide RedactedAt;
    match j
    case Arr(items) =>
      forall i | 0 <= i < |items| ensures r.items[i] == Redact(items[i]) {
        assert [Index(i)][1..] == [];
        BelowField(j, r, Index(i), items[i], r.items[i]);
        RedactedByPaths(items[i], r.items[i]);
      }
    case Obj(fields) =>
      forall k | k in fields ensures r.fields[k] == if k in SENSITIVE_FIELDS then REDACTED else Redact(fields[k]) {
        if k in SENSITIVE_FIELDS {
          AtSensitiveKey(j, r, k);
        } else {
          assert [Key(k)][1..] == [];
          BelowField(j, r, Key(k), fields[k], r.fields[k]);
          RedactedByPaths(fields[k], r.fields[k]);
        }
      }
    case _ =>
  }

  /** A value that answers every path as redaction does is the redacted value, and no other does. */
  lemma RedactionIsExact(j: Json, r: Json)
    ensures (forall path :: RedactedAt(r, j, path)) <==> r == Redact(j)
  {
    hide RedactedAt, Redact;
    forall path ensures RedactedAt(Redact(j), j, path) { RedactsEveryPath(j, path); }
    if forall path :: RedactedAt(r, j, path) {
      RedactedByPaths(j, r);
    }
  }

  lemma {:induction false} RedactTwice(j: Json)
    ensures Redact(Redact(j)) == Redact(j)
    decreases j
  {
    match j
    case Arr(items) =>
      forall i | 0 <= i < |items| ensures Redact(Redact(items[i])) == Redact(items[i]) { RedactTwice(items[i]); }
    case Obj(fields) =>
      forall k | k in fields && k !in SENSITIVE_FIELDS ensures Redact(Redact(fields[k])) == Redact(fields[k]) {
        RedactTwice(fields[k]);
      }
    case _ =>
  }

  // ---- the update diff ----

  predicate IsScalar(j: Json) {
    !j.Arr? && !j.Obj? && !j.Date?
  }

  /** JavaScript's `!==` between a stored value and a new one: two objects are never the same object. */
  predicate Differs(was: Json, now: Json) {
    !(IsScalar(was) && IsScalar(now) && was == now)
  }

  /** Whether the hook records a key of the update's data. */
  predicate Records(row: map<Name, Json>, data: map<Name, Json>, key: Name) {
    && key in data && key != "updatedAt" && data[key] != Undefined
    && !data[key].Obj? && !data[key].Date?
    && Differs(At(row, key), data[key])
  }

  function Entry(was: Json, now: Json): Json {
    Obj(map["old" := was, "new" := now])
  }

  /** `changed` holds an entry for each key the hook records, redacted by the field's own name. */
  ghost predicate IsDiff(row: map<Name, Json>, data: map<Name, Json>, changed: map<Name, Json>) {
    && (forall k :: k in changed <==> Records(row, data, k))
    && forall k :: k in changed ==>
         changed[k] == if k in SENSITIVE_FIELDS then Entry(REDACTED, REDACTED) else Redact(Entry(At(row, k), data[k]))
  }

  method DiffForUpdate(row: map<Name, Json>, data: map<Name, Json>) returns (changed: map<Name, Json>)
    ensures IsDiff(row, data, changed)
  {
    changed := map[];
    var pending := data.Keys;
    while pending != {}
      invariant pending <= data.Keys
      invariant forall k :: k in changed <==> k !in pending && Records(row, data, k)
      invariant forall k :: k in changed ==>
                  changed[k] == if k in SENSITIVE_FIELDS then Entry(REDACTED, REDACTED)
                                else Redact(Entry(At(row, k), data[k]))
      decreases pending
    {
      var key :| key in pending;
      pending := pending - {key};
      var oldValue, newValue := At(row, key), data[key];
      if Differs(oldValue, newValue) && newValue != Undefined && key != "updatedAt" {
        if !newValue.Obj? && !newValue.Date? {
          changed := changed[key := if key in SENSITIVE_FIELDS then Entry(REDACTED, REDACTED)
                                    else Redact(Entry(oldValue, newValue))];
        }
      }
    }
  }

  /** The six names under which nothing is ever logged. */
  predicate SecretName(name: Name) {
    || name == "accessToken" || name == "refreshToken" || name == "encAccessToken" || name == "encRefreshToken"
    || name == "encPassword" || name == "password"
  }

  lemma SecretNames(name: Name)
    ensures SecretName(name) <==> name in SENSITIVE_FIELDS
  {
  }

  lemma PlainNames()
    ensures "old" !in SENSITIVE_FIELDS && "new" !in SENSITIVE_FIELDS
  {
  }

  /** At any depth, under such a name a redacted value has the placeholder or nothing, and nothing else does
      change: where no such name is on the way, what was there is there. */
  lemma {:induction false} SecretsAreReplaced(j: Json, path: seq<Step>)
    ensures (exists i :: 0 <= i < |path| && path[i].Key? && SecretName(path[i].k)) ==>
              Follow(Redact(j), path) in {None, Some(Str("[REDACTED]"))}
    ensures (forall i :: 0 <= i < |path| && path[i].Key? ==> !SecretName(path[i].k)) ==>
              (Follow(Redact(j), path).Some? <==> Follow(j, path).Some?)
              && (Follow(j, path).Some? && IsScalar(Follow(j, path).value) ==> Follow(Redact(j), path) == Follow(j, path))
    decreases |path|
  {
    if path != [] {
      var rest := path[1..];
      match path[0]
      case Key(k) =>
        if j.Obj? && k in j.fields {
          if SecretName(k) {
            assert Follow(Redact(j), path) == Follow(REDACTED, rest);
          } else {
            SecretsAreReplaced(j.fields[k], rest);
          }
        }
      case Index(i) =>
        if j.Arr? && i < |j.items| { SecretsAreReplaced(j.items[i], rest); }
    }
  }

  /** Which keys of an update are logged: those given a plain or list value that is not the stored one; lists
      always differ. The bookkeeping column `updatedAt` is not logged. */
  lemma WhatIsLogged(row: map<Name, Json>, data: map<Name, Json>, changed: map<Name, Json>, key: Name)
    requires IsDiff(row, data, changed)
    ensures key in changed <==>
              && key in data && key != "updatedAt"
              && (data[key].Arr? || data[key] == Null || data[key].Bool? || data[key].Num? || data[key].Str?)
              && (data[key].Arr? || key !in row || row[key] != data[key])
  {
    hide Redact, Entry;
  }

  lemma EntryFields(was: Json, now: Json)
    ensures Entry(was, now).fields.Keys == {"old", "new"}
    ensures Entry(was, now).fields["old"] == was && Entry(was, now).fields["new"] == now
  {
    assert "old"[0] != "new"[0];
  }

  lemma EntryIsRedacted(was: Json, now: Json)
    ensures Redact(Entry(was, now)) == Entry(Redact(was), Redact(now))
  {
    PlainNames();
    EntryFields(was, now);
    EntryFields(Redact(was), Redact(now));
    var fields := Entry(was, now).fields;
    assert Entry(was, now) == Obj(fields);
    assert Redact(Obj(fields)) == Obj(map k | k in fields :: if k in SENSITIVE_FIELDS then REDACTED else Redact(fields[k]));
    hide Entry, Redact, SENSITIVE_FIELDS;
    assert Redact(Obj(fields)).fields == Entry(Redact(was), Redact(now)).fields;
  }

  /** What is logged of a key: under a secret name two placeholders, and otherwise what was there and what is
      written, as far as they are plain. */
  lemma WhatIsLoggedOfIt(row: map<Name, Json>, data: map<Name, Json>, changed: map<Name, Json>, key: Name)
    requires IsDiff(row, data, changed) && key in changed
    ensures SecretName(key) ==> changed[key] == Obj(map["old" := Str("[REDACTED]"), "new" := Str("[REDACTED]")])
    ensures !SecretName(key) ==>
              && changed[key].Obj? && changed[key].fields.Keys == {"old", "new"}
              && (IsScalar(data[key]) ==> changed[key].fields["new"] == data[key])
              && (IsScalar(At(row, key)) ==> changed[key].fields["old"] == At(row, key))
  {
    SecretNames(key);
    EntryIsRedacted(At(row, key), data[key]);
    EntryFields(Redact(At(row, key)), Redact(data[key]));
    assert forall j :: IsScalar(j) ==> Redact(j) == j;
    assert Entry(REDACTED, REDACTED) == Obj(map["old" := Str("[REDACTED]"), "new" := Str("[REDACTED]")]);
    hide Records, SecretName, Redact, Entry, SENSITIVE_FIELDS;
  }

  /** What the log says of a key, by one of its two sides; without an entry, what the row says. */
  function Replay(row: map<Name, Json>, changed: map<Name, Json>, side: Name, key: Name): Json {
    if key in changed && changed[key].Obj? then At(changed[key].fields, side) else At(row, key)
  }

  lemma ScalarEntry(was: Json, now: Json)
    requires IsScalar(was) && IsScalar(now)
    ensures Redact(Entry(was, now)) == Entry(was, now)
    ensures At(Entry(was, now).fields, "old") == was && At(Entry(was, now).fields, "new") == now
  {
    EntryIsRedacted(was, now);
    EntryFields(was, now);
  }

  /** Whatever is logged carries no value under a sensitive key. */
  lemma DiffIsRedacted(row: map<Name, Json>, data: map<Name, Json>, changed: map<Name, Json>, key: Name)
    requires IsDiff(row, data, changed) && key in changed
    ensures key in SENSITIVE_FIELDS ==> changed[key] == Entry(REDACTED, REDACTED)
    ensures Redact(changed[key]) == changed[key]
  {
    hide Redact;
    if key in SENSITIVE_FIELDS {
      ScalarEntry(REDACTED, REDACTED);
    } else {
      RedactTwice(Entry(At(row, key), data[key]));
    }
  }

  /** The log replays forward and back: for every plain column the recorded new values turn the old row into the
      new one, and the recorded old values turn the new row back. */
  lemma DiffIsFaithful(row: map<Name, Json>, data: map<Name, Json>, changed: map<Name, Json>, key: Name)
    requires IsDiff(row, data, changed)
    requires key !in SENSITIVE_FIELDS && key != "updatedAt" && IsScalar(At(row, key)) && (key in data ==> IsScalar(data[key]))
    ensures Replay(row, changed, "new", key) == At(WriteCols(row, data), key)
    ensures Replay(WriteCols(row, data), changed, "old", key) == At(row, key)
  {
    hide Redact;
    if key in changed {
      ScalarEntry(At(row, key), data[key]);
      hide Entry;
      assert At(WriteCols(row, data), key) == data[key];
    }
  }
}
