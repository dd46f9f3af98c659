/** The org chart: pods reached down the reporting lines, and the guard on reassigning a manager. */
module PodScoping {
  import opened Values

  type Id = string

  datatype Role = Director | FloorManager | TeamLead | Sdr | LeadgenManager | Leadgen

  datatype OrgUser = OrgUser(id: Id, role: Role, managerId: Option<Id>)

  /** `report` is listed with `manager` as its manager. */
  predicate ReportsTo(users: seq<OrgUser>, report: Id, manager: Id) {
    exists u :: u in users && u.id == report && u.managerId == Some(manager)
  }

  /** A reporting line read downwards: each id reports to the one before it. */
  ghost predicate Line(users: seq<OrgUser>, line: seq<Id>) {
    && line != []
    && forall i :: 0 < i < |line| ==> ReportsTo(users, line[i], line[i - 1])
  }

  /** `low` is `high`, or reports to it directly or through others. */
  ghost predicate Below(users: seq<OrgUser>, high: Id, low: Id) {
    exists line :: Line(users, line) && line[0] == high && line[|line| - 1] == low
  }

  lemma BelowSelf(users: seq<OrgUser>, id: Id)
    ensures Below(users, id, id)
  {
    assert Line(users, [id]);
  }

  lemma BelowStep(users: seq<OrgUser>, high: Id, mid: Id, low: Id)
    requires Below(users, high, mid) && ReportsTo(users, low, mid)
    ensures Below(users, high, low)
  {
    var line :| Line(users, line) && line[0] == high && line[|line| - 1] == mid;
    assert Line(users, line + [low]);
  }

  /** A set that holds `high` and every report of its members holds everyone below `high`. */
  lemma ClosedHoldsBelow(users: seq<OrgUser>, high: Id, ids: set<Id>, low: Id)
    requires high in ids && Below(users, high, low)
    requires forall m, r :: m in ids && ReportsTo(users, r, m) ==> r in ids
    ensures low in ids
  {
    var line :| Line(users, line) && line[0] == high && line[|line| - 1] == low;
    for i := 1 to |line|
      invariant line[i - 1] in ids
    {
    }
  }

  /** The pod of a manager: everyone at or below it. */
  ghost predicate IsPod(users: seq<OrgUser>, viewer: Id, ids: seq<Id>) {
    && (forall i, j :: 0 <= i < j < |ids| ==> ids[i] != ids[j])
    && forall id :: id in ids <==> Below(users, viewer, id)
  }

  /** The ids of the frontier's reports that are not visible yet, in user order. */
  function NextFrontier(users: seq<OrgUser>, frontier: seq<Id>, visible: seq<Id>): (next: seq<Id>)
    ensures forall id :: id in next <==>
              id !in visible && exists m :: m in frontier && ReportsTo(users, id, m)
  {
    if users == [] then []
    else
      var u, rest := users[0], NextFrontier(users[1..], frontier, visible);
      assert users == [u] + users[1..];
      assert forall id, m :: ReportsTo(users, id, m) <==> (u.id == id && u.managerId == Some(m)) || ReportsTo(users[1..], id, m);
      if u.managerId.Some? && u.managerId.value in frontier && u.id !in visible then [u.id] + rest else rest
  }

  /** Adding to a set that keeps the order of insertion. */
  method AddAll(visible: seq<Id>, next: seq<Id>) returns (r: seq<Id>)
    requires forall i, j :: 0 <= i < j < |visible| ==> visible[i] != visible[j]
    ensures forall i, j :: 0 <= i < j < |r| ==> r[i] != r[j]
    ensures forall id :: id in r <==> id in visible || id in next
    ensures visible <= r
  {
    r := visible;
    for k := 0 to |next|
      invariant forall i, j :: 0 <= i < j < |r| ==> r[i] != r[j]
      invariant forall id :: id in r <==> id in visible || id in next[..k]
      invariant visible <= r
    {
      if next[k] !in r { r := r + [next[k]]; }
    }
    assert next[..|next|] == next;
  }

  function Unseen(users: seq<OrgUser>, visible: seq<Id>): set<Id> {
    set u | u in users && u.id !in visible :: u.id
  }

  /** Part-way down the tree: all that is visible is below the viewer, and whoever is visible but no longer
      in the frontier has all its reports visible. */
  ghost predicate Explored(users: seq<OrgUser>, viewer: Id, visible: seq<Id>, frontier: seq<Id>) {
    && (forall i, j :: 0 <= i < j < |visible| ==> visible[i] != visible[j])
    && viewer in visible
    && (forall id :: id in visible ==> Below(users, viewer, id))
    && (forall id :: id in frontier ==> id in visible)
    && forall m, r :: m in visible && m !in frontier && ReportsTo(users, r, m) ==> r in visible
  }

  lemma ExploreNext(users: seq<OrgUser>, viewer: Id, visible: seq<Id>, frontier: seq<Id>, more: seq<Id>)
    requires Explored(users, viewer, visible, frontier)
    requires forall i, j :: 0 <= i < j < |more| ==> more[i] != more[j]
    requires forall id :: id in more <==> id in visible || id in NextFrontier(users, frontier, visible)
    ensures Explored(users, viewer, more, NextFrontier(users, frontier, visible))
    ensures NextFrontier(users, frontier, visible) != [] ==> |Unseen(users, more)| < |Unseen(users, visible)|
    ensures NextFrontier(users, frontier, visible) == [] ==> Unseen(users, more) == Unseen(users, visible)
  {
    var next := NextFrontier(users, frontier, visible);
    forall id | id in next ensures Below(users, viewer, id) {
      var m :| m in frontier && ReportsTo(users, id, m);
      BelowStep(users, viewer, m, id);
    }
    if next != [] {
      var id := next[0];
      assert id in next;
      var m :| m in frontier && ReportsTo(users, id, m);
      var u :| u in users && u.id == id && u.managerId == Some(m);
      assert id in Unseen(users, visible) && id !in Unseen(users, more);
      SubsetSize(Unseen(users, more), Unseen(users, visible));
    }
  }

  /** With the frontier used up, the visible ids are exactly the pod. */
  lemma ExploreEnd(users: seq<OrgUser>, viewer: Id, visible: seq<Id>)
    requires Explored(users, viewer, visible, [])
    ensures IsPod(users, viewer, visible)
  {
    forall id | Below(users, viewer, id) ensures id in visible {
      ClosedHoldsBelow(users, viewer, (set x | x in visible), id);
    }
  }

  method ComputeVisibleUserIds(users: seq<OrgUser>, viewer: Id, role: Role) returns (result: Option<seq<Id>>)
    ensures role == Director ==> result == None
    ensures role == Sdr ==> result == Some([viewer])
    ensures role != Director && role != Sdr ==>
              result.Some? && IsPod(users, viewer, result.value) && [viewer] <= result.value
  {
    if role == Director { return None; }
    if role == Sdr { return Some([viewer]); }
    BelowSelf(users, viewer);
    var visible, frontier := [viewer], [viewer];
    assert Explored(users, viewer, visible, frontier);
    hide Explored, NextFrontier, Unseen, IsPod;
    while |frontier| > 0
      invariant [viewer] <= visible && Explored(users, viewer, visible, frontier)
      invariant forall i, j :: 0 <= i < j < |visible| ==> visible[i] != visible[j]
      decreases |Unseen(users, visible)|, |frontier|
    {
      var next := NextFrontier(users, frontier, visible);
      var more := AddAll(visible, next);
      ExploreNext(users, viewer, visible, frontier, more);
      visible, frontier := more, next;
    }
    ExploreEnd(users, viewer, visible);
    result := Some(visible);
  }
}
