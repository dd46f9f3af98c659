/** The two stacked caches in front of the visibility reads, and how old an answer can be. */
module VisibilityCaches {
  import opened Values
  import opened PodScoping
  import opened LeadAccess

  /** The organisation at one moment. */
  datatype World = World(users: seq<Account>, memberships: seq<Membership>)

  const TTL: nat := 60000

  /** The roles whose campaign answers go through the campaign cache. */
  const CACHED_ROLES: set<Role> := {FloorManager, TeamLead, Sdr}

  function Active(users: seq<Account>): seq<OrgUser> {
    if users == [] then []
    else (if users[0].isActive then [OrgUser(users[0].id, users[0].role, users[0].managerId)] else []) + Active(users[1..])
  }

  function ActiveUsers(w: World): seq<OrgUser> {
    Active(w.users)
  }

  /** The right answer to "whom may this viewer see" in a given organisation. */
  ghost predicate VisibleIn(w: World, viewer: Id, role: Role, r: Option<seq<Id>>) {
    match role
    case Director => r == None
    case Sdr => r == Some([viewer])
    case _ => r.Some? && IsPod(ActiveUsers(w), viewer, r.value)
  }

  lemma {:induction false} ReportsAmongActive(users: seq<Account>, report: Id, manager: Id)
    ensures ReportsTo(Active(users), report, manager)
            <==> exists u :: u in users && u.isActive && u.id == report && u.managerId == Some(manager)
  {
    if users != [] {
      var u, rest := users[0], Active(users[1..]);
      ReportsAmongActive(users[1..], report, manager);
      assert users == [u] + users[1..];
      if u.isActive {
        var first := OrgUser(u.id, u.role, u.managerId);
        assert Active(users) == [first] + rest;
        assert ReportsTo(Active(users), report, manager) <==>
               (first.id == report && first.managerId == Some(manager)) || ReportsTo(rest, report, manager);
      } else {
        assert Active(users) == rest;
      }
    }
  }

  /** `low` is `high`, or is led to by a line of active accounts, each with the one before as its manager. */
  ghost predicate Oversees(users: seq<Account>, high: Id, low: Id) {
    exists line: seq<Id> ::
      && line != [] && line[0] == high && line[|line| - 1] == low
      && forall i :: 0 < i < |line| ==>
           exists u :: u in users && u.isActive && u.id == line[i] && u.managerId == Some(line[i - 1])
  }

  lemma OverseesIsBelow(users: seq<Account>, high: Id, low: Id)
    ensures Oversees(users, high, low) <==> Below(Active(users), high, low)
  {
    forall report, manager { ReportsAmongActive(users, report, manager); }
    hide Active, ReportsTo;
    if Oversees(users, high, low) {
      var line: seq<Id> :| line != [] && line[0] == high && line[|line| - 1] == low
        && forall i :: 0 < i < |line| ==>
             exists u :: u in users && u.isActive && u.id == line[i] && u.managerId == Some(line[i - 1]);
      assert Line(Active(users), line);
    }
    if Below(Active(users), high, low) {
      var line :| Line(Active(users), line) && line[0] == high && line[|line| - 1] == low;
      forall i | 0 < i < |line|
        ensures exists u :: u in users && u.isActive && u.id == line[i] && u.managerId == Some(line[i - 1])
      {
        assert ReportsTo(Active(users), line[i], line[i - 1]);
      }
    }
  }

  /** The pod on the accounts: the viewer, and whom active reporting lines lead to from it. */
  lemma PodFollowsActiveReports(w: World, viewer: Id, role: Role, ids: seq<Id>)
    requires role !in {Director, Sdr} && VisibleIn(w, viewer, role, Some(ids))
    ensures forall id :: id in ids <==> Oversees(w.users, viewer, id)
    ensures viewer in ids
  {
    forall id { OverseesIsBelow(w.users, viewer, id); }
    BelowSelf(ActiveUsers(w), viewer);
  }

  ghost predicate VisibleAt(worldAt: nat -> World, t: nat, viewer: Id, role: Role, r: Option<seq<Id>>) {
    VisibleIn(worldAt(t), viewer, role, r)
  }

  function CampaignRows(ms: seq<Membership>, users: seq<Id>): (rows: seq<Id>)
    ensures forall c :: c in rows <==> exists m :: m in ms && m.userId in users && m.campaignId == c
  {
    if ms == [] then []
    else
      assert ms == [ms[0]] + ms[1..];
      (if ms[0].userId in users then [ms[0].campaignId] else []) + CampaignRows(ms[1..], users)
  }

  /** The campaigns that any of the users is assigned to, each once. */
  ghost predicate CampaignsOf(w: World, users: seq<Id>, r: seq<Id>) {
    && (forall i, j :: 0 <= i < j < |r| ==> r[i] != r[j])
    && forall c :: c in r <==> exists m :: m in w.memberships && m.userId in users && m.campaignId == c
  }

  /** `r` are the campaigns of users that were visible at `orgTime`, by the memberships of `memberTime`. */
  ghost predicate CampaignsAt(worldAt: nat -> World, viewer: Id, role: Role, orgTime: nat, memberTime: nat, r: seq<Id>) {
    exists users :: VisibleAt(worldAt, orgTime, viewer, role, Some(users)) && CampaignsOf(worldAt(memberTime), users, r)
  }

  /** `then` is now, or less than the time-to-live ago. */
  predicate Recent(then_: nat, now: nat) {
    then_ <= now < then_ + TTL
  }

  ghost predicate RecentCampaigns(worldAt: nat -> World, viewer: Id, role: Role, memberTime: nat, r: seq<Id>) {
    exists orgTime: nat :: Recent(orgTime, memberTime) && CampaignsAt(worldAt, viewer, role, orgTime, memberTime, r)
  }

  /** An answer from memberships less than 60 seconds old and an organisation less than 120 seconds old. */
  ghost predicate BoundedCampaigns(worldAt: nat -> World, viewer: Id, role: Role, now: nat, r: seq<Id>) {
    exists m: nat, o: nat :: m <= now < m + 60000 && o <= now < o + 120000 && CampaignsAt(worldAt, viewer, role, o, m, r)
  }

  lemma StackedAge(worldAt: nat -> World, viewer: Id, role: Role, m: nat, now: nat, r: seq<Id>)
    requires Recent(m, now) && RecentCampaigns(worldAt, viewer, role, m, r)
    ensures BoundedCampaigns(worldAt, viewer, role, now, r)
  {
    var o: nat :| Recent(o, m) && CampaignsAt(worldAt, viewer, role, o, m, r);
  }

  datatype Entry = Entry(result: seq<Id>, ts: nat)

  class VisibilityReads {
    var users: map<Id, Entry>
    var campaigns: map<Id, Entry>
    // what the organisation is at every time, the time of the last call, and the role a campaign entry was filled for
    ghost const worldAt: nat -> World
    ghost var clock: nat
    ghost var filledFor: map<Id, Role>

    ghost predicate Valid()
      reads this
    {
      && (forall u :: u in users ==> users[u].ts <= clock && IsPod(ActiveUsers(worldAt(users[u].ts)), u, users[u].result))
      && campaigns.Keys == filledFor.Keys
      && forall u :: u in campaigns ==>
           campaigns[u].ts <= clock && RecentCampaigns(worldAt, u, filledFor[u], campaigns[u].ts, campaigns[u].result)
    }

    constructor (ghost worldAt: nat -> World)
      ensures Valid() && users == map[] && campaigns == map[] && this.worldAt == worldAt && clock == 0
    {
      this.users, this.campaigns := map[], map[];
      this.worldAt, this.clock, this.filledFor := worldAt, 0, map[];
    }

    /** Whether a read at this time is served from the cache. */
    predicate Hit(cache: map<Id, Entry>, viewer: Id, now: nat) {
      viewer in cache && now - cache[viewer].ts < TTL
    }

    method GetVisibleUserIds(viewer: Id, role: Role, now: nat, world: World) returns (r: Option<seq<Id>>)
      requires Valid() && clock <= now && world == worldAt(now)
      modifies this`users, this`clock
      ensures Valid() && clock == now
      ensures exists t: nat :: Recent(t, now) && VisibleAt(worldAt, t, viewer, role, r)
      ensures !Hit(old(users), viewer, now) ==> VisibleAt(worldAt, now, viewer, role, r)
      ensures role in {Director, Sdr} || Hit(old(users), viewer, now) ==> users == old(users)
      ensures role !in {Director, Sdr} ==>
                r.Some? && Hit(users, viewer, now) && r.value == users[viewer].result
                && users == old(users)[viewer := users[viewer]]
      // an entry serves for 60 seconds, and is then replaced by one of now
      ensures role !in {Director, Sdr} && viewer in old(users) && now < old(users)[viewer].ts + 60000 ==>
                r == Some(old(users)[viewer].result)
      ensures role !in {Director, Sdr} && !(viewer in old(users) && now < old(users)[viewer].ts + 60000) ==>
                r.Some? && users == old(users)[viewer := Entry(r.value, now)]
    {
      clock := now;
      if role == Director {
        assert Recent(now, now);
        return None;
      }
      if role == Sdr {
        assert Recent(now, now);
        return Some([viewer]);
      }
      if Hit(users, viewer, now) {
        assert Recent(users[viewer].ts, now);
        return Some(users[viewer].result);
      }
      r := ComputeVisibleUserIds(ActiveUsers(world), viewer, role);
      users := users[viewer := Entry(r.value, now)];
      assert Recent(now, now);
    }

    /** `[...new Set(rows)]` */
    method Distinct(rows: seq<Id>) returns (r: seq<Id>)
      ensures forall i, j :: 0 <= i < j < |r| ==> r[i] != r[j]
      ensures forall c :: c in r <==> c in rows
    {
      r := AddAll([], rows);
    }

    method FillCampaigns(viewer: Id, role: Role, now: nat, world: World, visible: seq<Id>, ghost t: nat)
      returns (result: seq<Id>)
      requires Valid() && clock == now && world == worldAt(now)
      requires Recent(t, now) && VisibleAt(worldAt, t, viewer, role, Some(visible))
      modifies this`campaigns, this`filledFor
      ensures Valid() && CampaignsAt(worldAt, viewer, role, t, now, result)
      ensures BoundedCampaigns(worldAt, viewer, role, now, result)
      ensures campaigns == old(campaigns)[viewer := Entry(result, now)]
    {
      result := Distinct(CampaignRows(world.memberships, visible));
      assert CampaignsOf(worldAt(now), visible, result);
      assert CampaignsAt(worldAt, viewer, role, t, now, result);
      assert Recent(now, now) && RecentCampaigns(worldAt, viewer, role, now, result);
      StackedAge(worldAt, viewer, role, now, now, result);
      campaigns, filledFor := campaigns[viewer := Entry(result, now)], filledFor[viewer := role];
    }

    /** The roles that go through both caches. */
    method CachedCampaignIds(viewer: Id, role: Role, now: nat, world: World) returns (result: seq<Id>)
      requires Valid() && clock <= now && world == worldAt(now) && role in CACHED_ROLES
      modifies this
      ensures Valid() && clock == now
      ensures BoundedCampaigns(worldAt, viewer, if Hit(old(campaigns), viewer, now) then old(filledFor)[viewer] else role,
                               now, result)
      ensures !Hit(old(campaigns), viewer, now) && !Hit(old(users), viewer, now) ==>
                CampaignsAt(worldAt, viewer, role, now, now, result)
      ensures Hit(campaigns, viewer, now) && result == campaigns[viewer].result
      ensures !Hit(old(campaigns), viewer, now) ==> campaigns == old(campaigns)[viewer := Entry(result, now)]
      ensures Hit(old(campaigns), viewer, now) ==> campaigns == old(campaigns)
    {
      assert viewer in campaigns ==>
          viewer in filledFor && campaigns[viewer].ts <= clock
          && RecentCampaigns(worldAt, viewer, filledFor[viewer], campaigns[viewer].ts, campaigns[viewer].result);
      hide Valid, RecentCampaigns, BoundedCampaigns, CampaignsAt, VisibleAt;
      var visible := GetVisibleUserIds(viewer, role, now, world);
      if Hit(campaigns, viewer, now) {
        StackedAge(worldAt, viewer, filledFor[viewer], campaigns[viewer].ts, now, campaigns[viewer].result);
        return campaigns[viewer].result;
      }
      ghost var t: nat :| Recent(t, now) && VisibleAt(worldAt, t, viewer, role, visible)
                          && (!Hit(old(users), viewer, now) ==> t == now);
      result := FillCampaigns(viewer, role, now, world, visible.value, t);
    }

    method GetVisibleCampaignIds(viewer: Id, role: Role, now: nat, world: World) returns (r: Option<seq<Id>>)
      requires Valid() && clock <= now && world == worldAt(now)
      modifies this
      ensures Valid() && clock == now
      ensures r == None <==> role == Director || role == LeadgenManager
      ensures role == Leadgen ==> r == Some(CampaignRows(worldAt(now).memberships, [viewer]))
      ensures role in CACHED_ROLES ==>
                BoundedCampaigns(worldAt, viewer, if Hit(old(campaigns), viewer, now) then old(filledFor)[viewer] else role,
                                 now, r.value)
      // with neither cache hit the answer is current
      ensures role in CACHED_ROLES && !Hit(old(campaigns), viewer, now) && !Hit(old(users), viewer, now) ==>
                CampaignsAt(worldAt, viewer, role, now, now, r.value)
      ensures role in CACHED_ROLES ==> Hit(campaigns, viewer, now) && r.value == campaigns[viewer].result
      ensures Hit(old(campaigns), viewer, now) ==> campaigns == old(campaigns)
      // for these three roles an entry serves for 60 seconds, and is then replaced by one of now
      ensures role in {FloorManager, TeamLead, Sdr} && viewer in old(campaigns) && now < old(campaigns)[viewer].ts + 60000 ==>
                r == Some(old(campaigns)[viewer].result)
      ensures role in {FloorManager, TeamLead, Sdr} && !(viewer in old(campaigns) && now < old(campaigns)[viewer].ts + 60000) ==>
                r.Some? && campaigns == old(campaigns)[viewer := Entry(r.value, now)]
    {
      hide RecentCampaigns, BoundedCampaigns, CampaignsAt, VisibleIn, IsPod;
      clock := now;
      if role == Director { return None; }
      if role == LeadgenManager { return None; }
      if role == Leadgen { return Some(CampaignRows(world.memberships, [viewer])); }
      var result := CachedCampaignIds(viewer, role, now, world);
      r := Some(result);
    }

    /** Drops one viewer's entries from both caches, or everything; an empty id means everything. */
    method ClearVisibleUserCache(userId: Option<Id>)
      requires Valid()
      modifies this`users, this`campaigns, this`filledFor
      ensures Valid()
      ensures userId.Some? && userId.value != "" ==>
                users == old(users) - {userId.value} && campaigns == old(campaigns) - {userId.value}
      ensures userId == None || userId.value == "" ==> users == map[] && campaigns == map[]
    {
      if userId.Some? && userId.value != "" {
        users := users - {userId.value};
        campaigns, filledFor := campaigns - {userId.value}, filledFor - {userId.value};
      } else {
        users := map[];
        campaigns, filledFor := map[], map[];
      }
    }
  }
}
