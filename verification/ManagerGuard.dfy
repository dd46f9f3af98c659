/** The walk up the reporting line that guards reassignments, and what it means for the tree. */
module ManagerGuard {
  import opened Values
  import opened PodScoping

  /** The manager of the user with this id; of several with one id the last counts. */
  function ManagerOf(users: seq<OrgUser>, id: Id): Option<Id> {
    if users == [] then None
    else if users[|users| - 1].id == id then users[|users| - 1].managerId
    else ManagerOf(users[..|users| - 1], id)
  }

  /** One step of the walk. It ends at a missing user, a missing manager, or an empty id. */
  function Next(users: seq<OrgUser>, id: Id): Option<Id> {
    match ManagerOf(users, id)
    case Some(m) => if m == "" then None else Some(m)
    case None => None
  }

  function Up(users: seq<OrgUser>, id: Id, n: nat): Option<Id> {
    if n == 0 then Some(id)
    else match Up(users, id, n - 1) case Some(x) => Next(users, x) case None => None
  }

  ghost predicate Reaches(users: seq<OrgUser>, low: Id, high: Id) {
    exists n: nat :: Up(users, low, n) == Some(high)
  }

  ghost predicate RunsInACircle(users: seq<OrgUser>, id: Id) {
    exists i: nat, j: nat :: i < j && Up(users, id, i) == Up(users, id, j) != None
  }

  /** When the guard refuses: self-management, a user above the proposed manager, or a circle up there. */
  ghost predicate Refuses(users: seq<OrgUser>, userId: Id, newManagerId: Option<Id>) {
    && newManagerId.Some?
    && var m := newManagerId.value;
       m == userId || (m != "" && (Reaches(users, m, userId) || RunsInACircle(users, m)))
  }

  lemma {:induction false} UpEnds(users: seq<OrgUser>, id: Id, n: nat, k: nat)
    requires n <= k && Up(users, id, n) == None
    ensures Up(users, id, k) == None
    decreases k
  {
    if n < k {
      UpEnds(users, id, n, k - 1);
    }
  }

  function Candidates(users: seq<OrgUser>, start: Id): set<Id> {
    {start} + set u | u in users && u.managerId.Some? :: u.managerId.value
  }

  lemma {:induction false} NextIsCandidate(users: seq<OrgUser>, start: Id, id: Id)
    ensures Next(users, id).Some? ==> Next(users, id).value in Candidates(users, start)
  {
    if users != [] && users[|users| - 1].id != id {
      NextIsCandidate(users[..|users| - 1], start, id);
      assert forall u :: u in users[..|users| - 1] ==> u in users;
    }
  }

  /** The ids passed in the first `n` steps. */
  ghost function Trail(users: seq<OrgUser>, start: Id, n: nat): set<Id> {
    if n == 0 then {}
    else match Up(users, start, n - 1) case Some(x) => Trail(users, start, n - 1) + {x} case None => Trail(users, start, n - 1)
  }

  lemma {:induction false} OnTrail(users: seq<OrgUser>, start: Id, n: nat, x: Id)
    requires x in Trail(users, start, n)
    ensures exists i: nat :: i < n && Up(users, start, i) == Some(x)
  {
    if Up(users, start, n - 1) != Some(x) {
      OnTrail(users, start, n - 1, x);
    }
  }

  /** After `n` steps: where the walk is, and whom it has seen. */
  ghost predicate Walked(users: seq<OrgUser>, start: Id, userId: Id, n: nat, cursor: Option<Id>, seen: set<Id>) {
    && cursor == Up(users, start, n) && seen == Trail(users, start, n)
    && (forall i: nat :: i < n ==> Up(users, start, i).Some? && Up(users, start, i) != Some(userId))
    && seen <= Candidates(users, start)
    && (cursor.Some? ==> cursor.value in Candidates(users, start))
  }

  lemma WalkNext(users: seq<OrgUser>, start: Id, userId: Id, n: nat, at: Id, seen: set<Id>)
    requires Walked(users, start, userId, n, Some(at), seen) && at != userId && at !in seen
    ensures Walked(users, start, userId, n + 1, Next(users, at), seen + {at})
    ensures |Candidates(users, start) - (seen + {at})| < |Candidates(users, start) - seen|
  {
    NextIsCandidate(users, start, at);
    hide Next, Candidates;
    SubsetSize(Candidates(users, start) - (seen + {at}), Candidates(users, start) - seen);
  }

  /** The walk has found the user, or an id it has already passed. */
  lemma WalkFound(users: seq<OrgUser>, start: Id, userId: Id, n: nat, at: Id, seen: set<Id>)
    requires Walked(users, start, userId, n, Some(at), seen) && (at == userId || at in seen)
    ensures Reaches(users, start, userId) || RunsInACircle(users, start)
  {
    if at != userId {
      OnTrail(users, start, n, at);
      var i: nat :| i < n && Up(users, start, i) == Some(at);
      assert Up(users, start, i) == Up(users, start, n) != None;
    }
  }

  lemma {:induction false} UpAdd(users: seq<OrgUser>, id: Id, i: nat, k: nat)
    requires Up(users, id, i).Some?
    ensures Up(users, id, i + k) == Up(users, Up(users, id, i).value, k)
  {
    if k > 0 {
      UpAdd(users, id, i, k - 1);
    }
  }

  lemma {:induction false} CircleGoesOn(users: seq<OrgUser>, id: Id, i: nat, j: nat, times: nat)
    requires i < j && Up(users, id, i) == Up(users, id, j) != None
    ensures i + times * (j - i) >= times
    ensures Up(users, id, i + times * (j - i)) == Up(users, id, i)
  {
    if times > 0 {
      CircleGoesOn(users, id, i, j, times - 1);
      UpAdd(users, id, i, j - i);
      UpAdd(users, id, i + (times - 1) * (j - i), j - i);
      assert i + times * (j - i) == i + (times - 1) * (j - i) + (j - i);
    }
  }

  lemma WalkEnded(users: seq<OrgUser>, start: Id, userId: Id, n: nat, seen: set<Id>)
    requires Walked(users, start, userId, n, None, seen)
    ensures !Reaches(users, start, userId) && !RunsInACircle(users, start)
  {
    if Reaches(users, start, userId) {
      var k: nat :| Up(users, start, k) == Some(userId);
      if n <= k { UpEnds(users, start, n, k); }
    }
    if RunsInACircle(users, start) {
      var i: nat, j: nat :| i < j && Up(users, start, i) == Up(users, start, j) != None;
      CircleGoesOn(users, start, i, j, n);
      UpEnds(users, start, n, i + n * (j - i));
    }
  }

  method WouldCreateManagerCycle(users: seq<OrgUser>, userId: Id, newManagerId: Option<Id>) returns (r: bool)
    ensures r <==> Refuses(users, userId, newManagerId)
  {
    if newManagerId == None { return false; }
    var start := newManagerId.value;
    if start == userId { return true; }
    if start == "" { return false; }
    var seen: set<Id> := {};
    var cursor := Some(start);
    ghost var n: nat := 0;
    assert Walked(users, start, userId, n, cursor, seen);
    while cursor.Some?
      invariant Walked(users, start, userId, n, cursor, seen)
      decreases |Candidates(users, start) - seen|
    {
      hide Walked, Candidates, Next, Reaches, RunsInACircle;
      var at := cursor.value;
      if at == userId {
        WalkFound(users, start, userId, n, at, seen);
        return true;
      }
      if at in seen {
        WalkFound(users, start, userId, n, at, seen);
        return true;
      }
      WalkNext(users, start, userId, n, at, seen);
      seen, cursor, n := seen + {at}, Next(users, at), n + 1;
    }
    WalkEnded(users, start, userId, n, seen);
    return false;
  }

  // ---- the guard is exact ----

  predicate UniqueIds(users: seq<OrgUser>) {
    forall i, j :: 0 <= i < j < |users| ==> users[i].id != users[j].id
  }

  /** Ids are never empty strings. */
  predicate RealIds(users: seq<OrgUser>) {
    forall u :: u in users ==> u.id != "" && u.managerId != Some("")
  }

  ghost predicate Acyclic(users: seq<OrgUser>) {
    forall id, n: nat :: n > 0 ==> Up(users, id, n) != Some(id)
  }

  /** The chart after the reassignment. */
  function Reassign(users: seq<OrgUser>, userId: Id, newManagerId: Option<Id>): (r: seq<OrgUser>)
    ensures |r| == |users|
    ensures forall i :: 0 <= i < |users| ==>
              r[i] == if users[i].id == userId then users[i].(managerId := newManagerId) else users[i]
  {
    seq(|users|, i requires 0 <= i < |users| =>
      if users[i].id == userId then users[i].(managerId := newManagerId) else users[i])
  }

  lemma {:induction false} ManagerAfter(users: seq<OrgUser>, userId: Id, newManagerId: Option<Id>, id: Id)
    ensures ManagerOf(Reassign(users, userId, newManagerId), id) ==
            if id == userId && (exists u :: u in users && u.id == id) then newManagerId else ManagerOf(users, id)
  {
    if users != [] {
      var init, last := users[..|users| - 1], users[|users| - 1];
      ManagerAfter(init, userId, newManagerId, id);
      assert Reassign(users, userId, newManagerId)[..|users| - 1] == Reassign(init, userId, newManagerId);
      assert forall u :: u in users <==> u in init || u == last;
    }
  }

  /** Until the walk passes the reassigned user, both charts lead it the same way. */
  lemma {:induction false} SameUntil(users: seq<OrgUser>, userId: Id, newManagerId: Option<Id>, id: Id, n: nat)
    requires forall i: nat :: i < n ==> Up(users, id, i) != Some(userId)
    ensures Up(Reassign(users, userId, newManagerId), id, n) == Up(users, id, n)
  {
    if n > 0 {
      SameUntil(users, userId, newManagerId, id, n - 1);
      if Up(users, id, n - 1).Some? {
        ManagerAfter(users, userId, newManagerId, Up(users, id, n - 1).value);
      }
    }
  }

  /** The first step at which the walk arrives. */
  lemma {:induction false} FirstArrival(users: seq<OrgUser>, id: Id, target: Id, n: nat) returns (k: nat)
    requires Up(users, id, n) == Some(target)
    ensures k <= n && Up(users, id, k) == Some(target)
    ensures forall i: nat :: i < k ==> Up(users, id, i) != Some(target)
  {
    if i: nat :| i < n && Up(users, id, i) == Some(target) {
      k := FirstArrival(users, id, target, i);
    } else {
      k := n;
    }
  }

  lemma {:induction false} SameUntilBack(users: seq<OrgUser>, userId: Id, newManagerId: Option<Id>, id: Id, n: nat)
    requires forall i: nat :: i < n ==> Up(Reassign(users, userId, newManagerId), id, i) != Some(userId)
    ensures Up(Reassign(users, userId, newManagerId), id, n) == Up(users, id, n)
  {
    if n > 0 {
      SameUntilBack(users, userId, newManagerId, id, n - 1);
      if Up(users, id, n - 1).Some? {
        ManagerAfter(users, userId, newManagerId, Up(users, id, n - 1).value);
      }
    }
  }

  lemma {:induction false} NoUser(users: seq<OrgUser>, id: Id)
    requires forall u :: u in users ==> u.id != id
    ensures ManagerOf(users, id) == None
  {
    if users != [] {
      assert forall u :: u in users[..|users| - 1] ==> u in users;
      NoUser(users[..|users| - 1], id);
    }
  }

  /** What the guard lets through closes no cycle. */
  lemma AcceptedStaysAcyclic(users: seq<OrgUser>, userId: Id, newManagerId: Option<Id>)
    requires Acyclic(users) && !Refuses(users, userId, newManagerId)
    ensures Acyclic(Reassign(users, userId, newManagerId))
  {
    var after := Reassign(users, userId, newManagerId);
    forall id, n: nat | n > 0 ensures Up(after, id, n) != Some(id) {
      if Up(after, id, n) == Some(id) {
        if i: nat :| i < n && Up(after, id, i) == Some(userId) {
          // the cycle passes the reassigned user, so the walk from the new manager comes back to it
          UpAdd(after, id, n, i);
          UpAdd(after, id, i, n);
          assert Up(after, userId, n) == Some(userId);
          UpAdd(after, userId, 0, 1);
          if Up(after, userId, 1) == None { UpEnds(after, userId, 1, n); }
          UpAdd(after, userId, 1, n - 1);
          ManagerAfter(users, userId, newManagerId, userId);
          if exists u :: u in users && u.id == userId {
            var k := FirstArrival(after, newManagerId.value, userId, n - 1);
            SameUntilBack(users, userId, newManagerId, newManagerId.value, k);
          } else {
            NoUser(users, userId);
          }
        } else {
          SameUntilBack(users, userId, newManagerId, id, n);
        }
      }
    }
  }

  lemma NoCircle(users: seq<OrgUser>, id: Id)
    requires Acyclic(users)
    ensures !RunsInACircle(users, id)
  {
    if RunsInACircle(users, id) {
      var i: nat, j: nat :| i < j && Up(users, id, i) == Up(users, id, j) != None;
      UpAdd(users, id, i, j - i);
    }
  }

  /** What the guard refuses would close one. */
  lemma RefusedClosesCycle(users: seq<OrgUser>, userId: Id, newManagerId: Option<Id>)
    requires Acyclic(users) && Refuses(users, userId, newManagerId) && newManagerId != Some("")
    requires exists u :: u in users && u.id == userId
    ensures !Acyclic(Reassign(users, userId, newManagerId))
  {
    var after, m := Reassign(users, userId, newManagerId), newManagerId.value;
    ManagerAfter(users, userId, newManagerId, userId);
    assert Up(after, userId, 0) == Some(userId);
    assert Up(after, userId, 1) == Some(m);
    if m != userId {
      NoCircle(users, m);
      var n: nat :| Up(users, m, n) == Some(userId);
      var k := FirstArrival(users, m, userId, n);
      SameUntil(users, userId, newManagerId, m, k);
      UpAdd(after, userId, 1, k);
      assert Up(after, userId, 1 + k) == Some(userId);
    }
  }

  /** On an acyclic chart the guard refuses exactly the reassignments that would close a cycle. */
  lemma GuardIsExact(users: seq<OrgUser>, userId: Id, newManagerId: Option<Id>)
    requires Acyclic(users) && (userId != "" || newManagerId != Some(""))
    requires exists u :: u in users && u.id == userId
    ensures Refuses(users, userId, newManagerId) <==> !Acyclic(Reassign(users, userId, newManagerId))
  {
    if Refuses(users, userId, newManagerId) {
      RefusedClosesCycle(users, userId, newManagerId);
    } else {
      AcceptedStaysAcyclic(users, userId, newManagerId);
    }
  }

  // ---- runs of guarded reassignments ----

  datatype Reassignment = Reassignment(userId: Id, newManagerId: Option<Id>)

  ghost function Guarded(users: seq<OrgUser>, changes: seq<Reassignment>): seq<OrgUser> {
    if changes == [] then users
    else
      var before := Guarded(users, changes[..|changes| - 1]);
      var c := changes[|changes| - 1];
      if Refuses(before, c.userId, c.newManagerId) then before else Reassign(before, c.userId, c.newManagerId)
  }

  /** The org stays a forest, over the same users, along every run of guarded reassignments. */
  lemma {:induction false} GuardedRunsStayAcyclic(users: seq<OrgUser>, changes: seq<Reassignment>)
    requires Acyclic(users)
    ensures Acyclic(Guarded(users, changes))
    ensures |Guarded(users, changes)| == |users|
    ensures forall i :: 0 <= i < |users| ==>
              Guarded(users, changes)[i].id == users[i].id && Guarded(users, changes)[i].role == users[i].role
  {
    if changes != [] {
      var c := changes[|changes| - 1];
      GuardedRunsStayAcyclic(users, changes[..|changes| - 1]);
      var before := Guarded(users, changes[..|changes| - 1]);
      if !Refuses(before, c.userId, c.newManagerId) {
        AcceptedStaysAcyclic(before, c.userId, c.newManagerId);
      }
    }
  }

  // ---- the two walks are dual ----

  lemma {:induction false} ManagerIsUnique(users: seq<OrgUser>, report: Id, manager: Id)
    requires UniqueIds(users) && RealIds(users)
    ensures ReportsTo(users, report, manager) <==> Next(users, report) == Some(manager)
  {
    if users != [] {
      var init, last := users[..|users| - 1], users[|users| - 1];
      assert users == init + [last] && last in users;
      assert forall u :: u in init ==> u in users && u.id != last.id;
      ManagerIsUnique(init, report, manager);
      assert ReportsTo(users, report, manager) <==>
             ReportsTo(init, report, manager) || (last.id == report && last.managerId == Some(manager));
    }
  }

  lemma {:induction false} LineLeadsUp(users: seq<OrgUser>, line: seq<Id>)
    requires UniqueIds(users) && RealIds(users) && Line(users, line)
    ensures Up(users, line[|line| - 1], |line| - 1) == Some(line[0])
  {
    if |line| > 1 {
      var init := line[..|line| - 1];
      LineLeadsUp(users, init);
      ManagerIsUnique(users, line[|line| - 1], line[|line| - 2]);
      assert Up(users, line[|line| - 1], 0) == Some(line[|line| - 1]);
      assert Up(users, line[|line| - 1], 1) == Some(line[|line| - 2]);
      UpAdd(users, line[|line| - 1], 1, |line| - 2);
    }
  }

  lemma {:induction false} UpLeadsDown(users: seq<OrgUser>, low: Id, high: Id, n: nat)
    requires UniqueIds(users) && RealIds(users) && Up(users, low, n) == Some(high)
    ensures Below(users, high, low)
    decreases n
  {
    if n == 0 {
      BelowSelf(users, low);
    } else {
      assert Up(users, low, 0) == Some(low);
      if Up(users, low, 1) == None { UpEnds(users, low, 1, n); }
      var m := Up(users, low, 1).value;
      UpAdd(users, low, 1, n - 1);
      UpLeadsDown(users, m, high, n - 1);
      ManagerIsUnique(users, low, m);
      BelowStep(users, high, m, low);
    }
  }

  lemma BelowIsReach(users: seq<OrgUser>, high: Id, low: Id)
    requires UniqueIds(users) && RealIds(users)
    ensures Below(users, high, low) <==> Reaches(users, low, high)
  {
    if Below(users, high, low) {
      var line :| Line(users, line) && line[0] == high && line[|line| - 1] == low;
      LineLeadsUp(users, line);
    }
    if Reaches(users, low, high) {
      var n: nat :| Up(users, low, n) == Some(high);
      UpLeadsDown(users, low, high, n);
    }
  }

  /** The guard refuses manager `m` for user `u` exactly when `m` is in the pod below `u` or sits below a circle;
      on an acyclic chart, exactly when it is in the pod. */
  lemma WalksAreDual(users: seq<OrgUser>, u: Id, m: Id, pod: seq<Id>)
    requires UniqueIds(users) && RealIds(users) && m != "" && IsPod(users, u, pod)
    ensures Refuses(users, u, Some(m)) <==> m in pod || RunsInACircle(users, m)
    ensures Acyclic(users) ==> (Refuses(users, u, Some(m)) <==> m in pod)
  {
    BelowIsReach(users, u, m);
    if m == u { BelowSelf(users, u); }
    if Acyclic(users) { NoCircle(users, m); }
  }

  lemma BelowJoin(users: seq<OrgUser>, high: Id, mid: Id, low: Id)
    requires Below(users, high, mid) && Below(users, mid, low)
    ensures Below(users, high, low)
  {
    var upper :| Line(users, upper) && upper[0] == high && upper[|upper| - 1] == mid;
    var lower :| Line(users, lower) && lower[0] == mid && lower[|lower| - 1] == low;
    var line := upper + lower[1..];
    forall i | 0 < i < |line| ensures ReportsTo(users, line[i], line[i - 1]) {
      if i >= |upper| {
        assert line[i] == lower[i - |upper| + 1];
        assert i > |upper| ==> line[i - 1] == lower[i - |upper|];
      }
    }
    assert line[|line| - 1] == low;
  }

  /** Two pods are disjoint, or one holds the other: on any chart with unique ids, cyclic ones included. */
  lemma PodsAreLaminar(users: seq<OrgUser>, a: Id, b: Id, podA: seq<Id>, podB: seq<Id>)
    requires UniqueIds(users) && RealIds(users) && IsPod(users, a, podA) && IsPod(users, b, podB)
    ensures || (forall x :: x in podA ==> x !in podB)
            || (forall x :: x in podA ==> x in podB)
            || (forall x :: x in podB ==> x in podA)
  {
    hide Up, Line, UniqueIds, RealIds;
    if x :| x in podA && x in podB {
      BelowIsReach(users, a, x);
      BelowIsReach(users, b, x);
      var i: nat :| Up(users, x, i) == Some(a);
      var j: nat :| Up(users, x, j) == Some(b);
      if i <= j {
        UpAdd(users, x, i, j - i);
        BelowIsReach(users, b, a);
        forall y | y in podA ensures y in podB { BelowJoin(users, b, a, y); }
      } else {
        UpAdd(users, x, j, i - j);
        BelowIsReach(users, a, b);
        forall y | y in podB ensures y in podA { BelowJoin(users, a, b, y); }
      }
    }
  }
}
