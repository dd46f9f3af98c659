/** Who sees, and who may change, a sequence or a template. */
module OwnedVisibility {
  import opened Values
  import opened PodScoping
  import opened LeadAccess
  import opened VisibilityCaches

  datatype Owned = Owned(createdById: Id, isShared: bool)
  datatype Template = Template(id: Id, tenantId: Tenant, owned: Owned)

  const MANAGER_ROLES: set<Role> := {Director, FloorManager, TeamLead}

  // ---- creators in reach: the visible active users and the deactivated ones who report to them ----

  function DepartedReports(users: seq<Account>, visible: seq<Id>): (ids: seq<Id>)
    ensures forall id :: id in ids <==>
              exists u, m :: u in users && !u.isActive && u.id == id && u.managerId == Some(m) && m in visible
  {
    if users == [] then []
    else
      var u, rest := users[0], DepartedReports(users[1..], visible);
      assert users == [u] + users[1..];
      if !u.isActive && u.managerId.Some? && u.managerId.value in visible then [u.id] + rest else rest
  }

  function CreatorsInReach(visible: Option<seq<Id>>, role: Role, hasTenant: bool, users: seq<Account>): Option<seq<Id>> {
    if visible == None || role == Sdr || !hasTenant then visible
    else
      var departed := DepartedReports(users, visible.value);
      if |departed| > 0 then Some(visible.value + departed) else visible
  }

  /** Everyone in the tenant, active or not. */
  function Everyone(users: seq<Account>): seq<OrgUser> {
    seq(|users|, i requires 0 <= i < |users| => OrgUser(users[i].id, users[i].role, users[i].managerId))
  }

  lemma ReportsAmongEveryone(users: seq<Account>, report: Id, manager: Id)
    ensures ReportsTo(Everyone(users), report, manager)
            <==> exists u :: u in users && u.id == report && u.managerId == Some(manager)
  {
    if ReportsTo(Everyone(users), report, manager) {
      var v :| v in Everyone(users) && v.id == report && v.managerId == Some(manager);
      var i :| 0 <= i < |users| && Everyone(users)[i] == v;
      assert users[i] in users;
    }
    if u :| u in users && u.id == report && u.managerId == Some(manager) {
      var i :| 0 <= i < |users| && users[i] == u;
      assert Everyone(users)[i] in Everyone(users);
    }
  }

  lemma ActiveIsWithin(users: seq<Account>, high: Id, low: Id)
    requires Below(Active(users), high, low)
    ensures Below(Everyone(users), high, low)
  {
    var line :| Line(Active(users), line) && line[0] == high && line[|line| - 1] == low;
    forall i | 0 < i < |line| ensures ReportsTo(Everyone(users), line[i], line[i - 1]) {
      ReportsAmongActive(users, line[i], line[i - 1]);
      ReportsAmongEveryone(users, line[i], line[i - 1]);
    }
  }

  /** The reach never leaves the tree over active and inactive users together. */
  lemma ReachIsWithin(users: seq<Account>, viewer: Id, role: Role, visible: seq<Id>, id: Id)
    requires IsPod(Active(users), viewer, visible) && role != Sdr
    requires id in CreatorsInReach(Some(visible), role, true, users).value
    ensures Below(Everyone(users), viewer, id)
  {
    if id in visible {
      ActiveIsWithin(users, viewer, id);
    } else {
      var u, m :| u in users && !u.isActive && u.id == id && u.managerId == Some(m) && m in visible;
      ActiveIsWithin(users, viewer, m);
      ReportsAmongEveryone(users, id, m);
      BelowStep(Everyone(users), viewer, m, id);
    }
  }

  /** A deactivated account, other than the viewer's own, that reports to somebody visible. */
  predicate DepartedBelow(viewer: Id, visible: seq<Id>, d: Account) {
    !d.isActive && d.id != viewer && d.managerId.Some? && d.managerId.value in visible
  }

  /** Nobody but the viewer reports to such an account. */
  predicate DepartedLeadNobody(users: seq<Account>, viewer: Id, visible: seq<Id>) {
    forall d, u :: d in users && u in users && DepartedBelow(viewer, visible, d) && u.managerId == Some(d.id)
      ==> u.id == viewer
  }

  /** Who is visible besides the viewer has an active account and a visible manager. */
  lemma VisibleIsActive(users: seq<Account>, viewer: Id, visible: seq<Id>, u: Account)
    requires UniqueAccounts(users) && IsPod(Active(users), viewer, visible)
    requires u in users && u.id in visible && u.id != viewer
    ensures u.isActive && u.managerId.Some? && u.managerId.value in visible
  {
    assert Below(Active(users), viewer, u.id);
    var line :| Line(Active(users), line) && line[0] == viewer && line[|line| - 1] == u.id;
    var init, m := line[..|line| - 1], line[|line| - 2];
    assert Line(Active(users), init) && init[0] == viewer && init[|init| - 1] == m;
    assert Below(Active(users), viewer, m);
    ReportsAmongActive(users, u.id, m);
  }

  /** A report of a departed account below is not in reach. */
  lemma DepartedReportIsMissed(users: seq<Account>, viewer: Id, visible: seq<Id>, d: Account, u: Account)
    requires UniqueAccounts(users) && IsPod(Active(users), viewer, visible)
    requires d in users && u in users && DepartedBelow(viewer, visible, d) && u.managerId == Some(d.id) && u.id != viewer
    ensures u.id !in visible && u.id !in DepartedReports(users, visible)
  {
    if d.id in visible { VisibleIsActive(users, viewer, visible, d); }
    if u.id in visible { VisibleIsActive(users, viewer, visible, u); }
  }

  lemma ReachIsClosed(users: seq<Account>, viewer: Id, visible: seq<Id>, m: Id, r: Id)
    requires UniqueAccounts(users) && IsPod(Active(users), viewer, visible) && viewer in visible
    requires DepartedLeadNobody(users, viewer, visible)
    requires m in visible + DepartedReports(users, visible) && ReportsTo(Everyone(users), r, m)
    ensures r in visible + DepartedReports(users, visible)
  {
    ReportsAmongEveryone(users, r, m);
    var u :| u in users && u.id == r && u.managerId == Some(m);
    if m in visible {
      if u.isActive {
        ReportsAmongActive(users, r, m);
        BelowStep(Active(users), viewer, m, r);
      }
    } else {
      var d :| d in users && !d.isActive && d.id == m && d.managerId.Some? && d.managerId.value in visible;
      assert DepartedBelow(viewer, visible, d);
    }
  }

  /** The reach is the whole tree over active and inactive users exactly when no departed account below the
      viewer has reports. */
  lemma ReachIsWholeTreeExactly(users: seq<Account>, viewer: Id, role: Role, visible: seq<Id>)
    requires UniqueAccounts(users) && IsPod(Active(users), viewer, visible) && role != Sdr
    ensures var reach := CreatorsInReach(Some(visible), role, true, users).value;
            (forall id :: id in reach <==> Below(Everyone(users), viewer, id)) <==> DepartedLeadNobody(users, viewer, visible)
  {
    var departed := DepartedReports(users, visible);
    var reach := CreatorsInReach(Some(visible), role, true, users).value;
    assert reach == visible + departed;
    forall id | id in reach ensures Below(Everyone(users), viewer, id) {
      ReachIsWithin(users, viewer, role, visible, id);
    }
    BelowSelf(Active(users), viewer);
    if DepartedLeadNobody(users, viewer, visible) {
      forall m, r | m in reach && ReportsTo(Everyone(users), r, m) ensures r in reach {
        ReachIsClosed(users, viewer, visible, m, r);
      }
      forall id | Below(Everyone(users), viewer, id) ensures id in reach {
        ClosedHoldsBelow(Everyone(users), viewer, (set x | x in reach), id);
      }
    } else {
      var d, u :| d in users && u in users && DepartedBelow(viewer, visible, d) && u.managerId == Some(d.id) && u.id != viewer;
      DepartedReportIsMissed(users, viewer, visible, d, u);
      ReportsAmongEveryone(users, u.id, d.id);
      assert d.id in departed;
      BelowStep(Everyone(users), viewer, d.id, u.id);
    }
  }

  // ---- the row rule and the list filter ----

  datatype OwnedWhere = Unrestricted | SharedOrBy(ids: seq<Id>)

  function OwnedOrSharedWhere(viewer: Id, reach: Option<seq<Id>>): OwnedWhere {
    match reach
    case None => Unrestricted
    case Some(ids) => SharedOrBy(if viewer in ids then ids else ids + [viewer])
  }

  predicate Selects(w: OwnedWhere, row: Owned) {
    match w
    case Unrestricted => true
    case SharedOrBy(ids) => row.isShared || row.createdById in ids
  }

  predicate CanViewOwned(viewer: Id, reach: Option<seq<Id>>, row: Owned) {
    if row.isShared || row.createdById == viewer then true
    else reach == None || row.createdById in reach.value
  }

  predicate CanManageOwned(viewer: Id, role: Role, reach: Option<seq<Id>>, row: Owned) {
    if row.createdById == viewer then true
    else if role !in MANAGER_ROLES then false
    else reach == None || row.createdById in reach.value
  }

  /** The viewer oversees the account, or did so before it was deactivated. */
  ghost predicate Supervises(users: seq<Account>, viewer: Id, id: Id) {
    || Oversees(users, viewer, id)
    || exists u :: u in users && !u.isActive && u.id == id && u.managerId.Some? && Oversees(users, viewer, u.managerId.value)
  }

  lemma WithDeparted(users: seq<Account>, viewer: Id, visible: seq<Id>, id: Id)
    requires forall v :: v in visible <==> Oversees(users, viewer, v)
    ensures id in visible || id in DepartedReports(users, visible) <==> Supervises(users, viewer, id)
  {
    hide Oversees, DepartedReports;
  }

  /** Whose rows a role reaches, on the accounts: a director everybody's, an SDR its own, the others those of
      whom they oversee and, with a tenant, of the deactivated reports of these. */
  lemma ReachByRole(w: World, viewer: Id, role: Role, visible: Option<seq<Id>>, hasTenant: bool)
    requires VisibleIn(w, viewer, role, visible)
    ensures var reach := CreatorsInReach(visible, role, hasTenant, w.users);
            && (role == Director ==> reach == None)
            && (role == Sdr ==> reach == Some([viewer]))
            && (role !in {Director, Sdr} ==> reach.Some? && forall id :: id in reach.value <==>
                  if hasTenant then Supervises(w.users, viewer, id) else Oversees(w.users, viewer, id))
  {
    if role !in {Director, Sdr} {
      PodFollowsActiveReports(w, viewer, role, visible.value);
      forall id { WithDeparted(w.users, viewer, visible.value, id); }
    }
    hide Oversees, VisibleIn, Supervises, DepartedReports;
  }

  /** Who sees a row: everybody a shared one, its creator, a director, and the managers above the creator. */
  lemma WhoMaySee(w: World, viewer: Id, role: Role, visible: Option<seq<Id>>, row: Owned)
    requires VisibleIn(w, viewer, role, visible)
    ensures CanViewOwned(viewer, CreatorsInReach(visible, role, true, w.users), row)
            <==> row.isShared || row.createdById == viewer || role == Director
                 || (role != Sdr && Supervises(w.users, viewer, row.createdById))
  {
    ReachByRole(w, viewer, role, visible, true);
    hide VisibleIn, Supervises, CreatorsInReach;
  }

  /** Who changes a row, shared or not: its creator, a director, and a floor manager or team lead above the
      creator. A leadgen manager changes nobody else's. */
  lemma WhoMayChange(w: World, viewer: Id, role: Role, visible: Option<seq<Id>>, row: Owned)
    requires VisibleIn(w, viewer, role, visible)
    ensures CanManageOwned(viewer, role, CreatorsInReach(visible, role, true, w.users), row)
            <==> row.createdById == viewer || role == Director
                 || ((role == FloorManager || role == TeamLead) && Supervises(w.users, viewer, row.createdById))
  {
    ReachByRole(w, viewer, role, visible, true);
    hide VisibleIn, Supervises, CreatorsInReach;
  }

  /** Each row with whether the viewer may change it; the reach is only read for a manager. */
  function WithCanManage(viewer: Id, role: Role, reach: Option<seq<Id>>, rows: seq<Owned>): (marked: seq<(Owned, bool)>)
    ensures |marked| == |rows|
    // rows and order are kept, and the mark is the per-row decision
    ensures forall i :: 0 <= i < |rows| ==> marked[i] == (rows[i], CanManageOwned(viewer, role, reach, rows[i]))
  {
    var isManager := role in MANAGER_ROLES;
    var visible := if isManager then reach else Some([]);
    seq(|rows|, i requires 0 <= i < |rows| =>
      (rows[i], rows[i].createdById == viewer
                || (isManager && (visible == None || rows[i].createdById in visible.value))))
  }

  /** Filtering a list in the database is keeping the rows the record check accepts; changing implies seeing. */
  lemma ListFilterIsRowRule(viewer: Id, role: Role, reach: Option<seq<Id>>, rows: seq<Owned>)
    ensures Filter((r: Owned) => Selects(OwnedOrSharedWhere(viewer, reach), r), rows)
            == Filter((r: Owned) => CanViewOwned(viewer, reach, r), rows)
    ensures forall r :: CanManageOwned(viewer, role, reach, r) ==> CanViewOwned(viewer, reach, r)
    ensures forall i :: 0 <= i < |rows| && WithCanManage(viewer, role, reach, rows)[i].1 ==>
              Selects(OwnedOrSharedWhere(viewer, reach), rows[i])
  {
    FilterAgree((r: Owned) => Selects(OwnedOrSharedWhere(viewer, reach), r),
                (r: Owned) => CanViewOwned(viewer, reach, r), rows);
  }

  // ---- a chart on which the reach is not the whole tree ----

  const FLOOR := Account("fm", FloorManager, None, true)
  const LEFT := Account("tl", TeamLead, Some("fm"), false)
  const REP := Account("rep", Role.Sdr, Some("tl"), true)

  lemma FloorSeesItself()
    ensures IsPod(Active([FLOOR, LEFT, REP]), "fm", ["fm"])
  {
    var users := [FLOOR, LEFT, REP];
    BelowSelf(Active(users), "fm");
    forall id | Below(Active(users), "fm", id) ensures id in ["fm"] {
      forall r | ReportsTo(Active(users), r, "fm") ensures false {
        ReportsAmongActive(users, r, "fm");
      }
      ClosedHoldsBelow(Active(users), "fm", {"fm"}, id);
    }
  }

  /** A rep reports to a departed team lead, who reports to the floor manager: the floor manager's reach ends at
      the team lead, and what the rep created is out of it. */
  lemma RepOfDepartedLeadIsMissed()
    ensures var users := [FLOOR, LEFT, REP];
            && IsPod(Active(users), "fm", ["fm"]) && Below(Everyone(users), "fm", "rep")
            && !CanViewOwned("fm", CreatorsInReach(Some(["fm"]), FloorManager, true, users), Owned("rep", false))
  {
    var users := [FLOOR, LEFT, REP];
    FloorSeesItself();
    assert users[0] == FLOOR && users[1] == LEFT && users[2] == REP;
    assert UniqueAccounts(users) && DepartedBelow("fm", ["fm"], LEFT);
    DepartedReportIsMissed(users, "fm", ["fm"], LEFT, REP);
    ReportsAmongEveryone(users, "tl", "fm");
    ReportsAmongEveryone(users, "rep", "tl");
    hide Active, Everyone, IsPod, ReportsTo, Below, Line;
    BelowSelf(Everyone(users), "fm");
    BelowStep(Everyone(users), "fm", "fm", "tl");
    BelowStep(Everyone(users), "fm", "tl", "rep");
  }

  // ---- templates a viewer may not use ----

  /** The viewer may use a template that is in its tenant and visible to it. */
  predicate Usable(viewer: Id, reach: Option<seq<Id>>, tenant: Tenant, t: Template) {
    t.tenantId == tenant && CanViewOwned(viewer, reach, t.owned)
  }

  function NotIn(ids: seq<Id>, drop: set<Id>): (r: seq<Id>)
    ensures forall id :: id in r <==> id in ids && id !in drop
    ensures (forall i, j :: 0 <= i < j < |ids| ==> ids[i] != ids[j]) ==> forall i, j :: 0 <= i < j < |r| ==> r[i] != r[j]
  {
    if ids == [] then []
    else
      assert ids == [ids[0]] + ids[1..];
      (if ids[0] in drop then [] else [ids[0]]) + NotIn(ids[1..], drop)
  }

  function GivenIds(ids: seq<Option<Id>>): (r: seq<Id>)
    ensures forall id :: id in r <==> Some(id) in ids && id != ""
  {
    if ids == [] then []
    else
      assert ids == [ids[0]] + ids[1..];
      (if ids[0].Some? && ids[0].value != "" then [ids[0].value] else []) + GivenIds(ids[1..])
  }

  method UnusableTemplateIds(viewer: Id, reach: Option<seq<Id>>, tenant: Option<Tenant>, ids: seq<Option<Id>>,
                             table: seq<Template>) returns (unusable: seq<Id>)
    // exactly the ids asked for that no usable template carries; all of them for a viewer without a tenant
    ensures forall id :: id in unusable <==>
              Some(id) in ids && id != ""
              && !(tenant.Some? && tenant.value != "" && exists t :: t in table && t.id == id && Usable(viewer, reach, tenant.value, t))
    ensures forall i, j :: 0 <= i < j < |unusable| ==> unusable[i] != unusable[j]
  {
    var wanted := AddAll([], GivenIds(ids));
    if |wanted| == 0 { return []; }
    if tenant == None || tenant.value == "" { return wanted; }
    var usable: set<Id> := {};
    for i := 0 to |table|
      invariant forall id :: id in usable <==>
                  id in wanted && exists j :: 0 <= j < i && table[j].id == id && Usable(viewer, reach, tenant.value, table[j])
    {
      var row := table[i];
      if row.id in wanted && row.tenantId == tenant.value && CanViewOwned(viewer, reach, row.owned) {
        usable := usable + {row.id};
      }
    }
    unusable := NotIn(wanted, usable);
  }
}
