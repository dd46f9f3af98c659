/** Who may see a lead, written twice: as a list filter and as a check of one record. */
module LeadAccess {
  import opened Values
  import opened PodScoping

  datatype Account = Account(id: Id, role: Role, managerId: Option<Id>, isActive: bool)
  datatype Membership = Membership(userId: Id, campaignId: Id)
  datatype Lead = Lead(assignedToId: Option<Id>, campaignId: Option<Id>)

  /** What the two visibility reads answer for a viewer; `None` is unrestricted. */
  datatype View = View(users: Option<seq<Id>>, campaigns: Option<seq<Id>>)

  function FindUser(users: seq<Account>, id: Id): Option<Account> {
    if users == [] then None
    else if users[0].id == id then Some(users[0])
    else FindUser(users[1..], id)
  }

  /** Ids are unique among active and inactive accounts alike. */
  predicate UniqueAccounts(users: seq<Account>) {
    forall a, b :: a in users && b in users && a.id == b.id ==> a == b
  }

  /** The parts of a `where` on leads. `DepartedIn` asks for a deactivated assignee and a campaign. */
  datatype LeadWhere =
    | Everything
    | AssignedIn(ids: seq<Id>)
    | CampaignIn(ids: seq<Id>)
    | DepartedIn(ids: seq<Id>)
    | AnyLead(parts: seq<LeadWhere>)

  predicate In(id: Option<Id>, ids: seq<Id>) {
    id.Some? && id.value in ids
  }

  predicate Departed(users: seq<Account>, id: Option<Id>) {
    id.Some? && FindUser(users, id.value).Some? && !FindUser(users, id.value).value.isActive
  }

  predicate Matches(w: LeadWhere, lead: Lead, users: seq<Account>) {
    match w
    case Everything => true
    case AssignedIn(ids) => In(lead.assignedToId, ids)
    case CampaignIn(ids) => In(lead.campaignId, ids)
    case DepartedIn(ids) => Departed(users, lead.assignedToId) && In(lead.campaignId, ids)
    case AnyLead(parts) => exists p :: p in parts && Matches(p, lead, users)
  }

  function LeadWhereScope(role: Role, view: View): LeadWhere {
    if role == LeadgenManager then Everything
    else if role == Leadgen then CampaignIn(if view.campaigns.Some? then view.campaigns.value else [])
    else if view.users == None then Everything
    else if role == TeamLead then
      if view.campaigns == None then Everything
      else AnyLead([AssignedIn(view.users.value)]
                   + if |view.campaigns.value| > 0 then [DepartedIn(view.campaigns.value)] else [])
    else if role == FloorManager then
      if view.campaigns == None then Everything
      else AnyLead([AssignedIn(view.users.value)]
                   + if |view.campaigns.value| > 0 then [CampaignIn(view.campaigns.value)] else [])
    else AssignedIn(view.users.value)
  }

  predicate CanAccessUser(viewer: Id, view: View, owner: Id) {
    viewer == owner || view.users == None || owner in view.users.value
  }

  const ACCOUNT_AXIS_ROLES: set<Role> := {Director, FloorManager, TeamLead, LeadgenManager, Leadgen}

  predicate CanAccessLead(viewer: Id, role: Role, view: View, lead: Lead, users: seq<Account>) {
    if Given(lead.assignedToId) && CanAccessUser(viewer, view, lead.assignedToId.value) then true
    else if role !in ACCOUNT_AXIS_ROLES then false
    else if !Given(lead.campaignId) then false
    else if role == TeamLead && !(Given(lead.assignedToId) && Departed(users, lead.assignedToId)) then false
    else view.campaigns == None || lead.campaignId.value in view.campaigns.value
  }

  /** What the reads can answer for a role: a viewer always sees itself, and who is unrestricted is fixed. */
  predicate ViewOf(viewer: Id, role: Role, view: View) {
    && (view.users == None <==> role == Director)
    && (view.campaigns == None <==> role == Director || role == LeadgenManager)
    && (view.users.Some? ==> viewer in view.users.value)
    && (role == Sdr ==> view.users == Some([viewer]))
  }

  predicate RealLead(lead: Lead) {
    lead.assignedToId != Some("") && lead.campaignId != Some("")
  }

  /** The list filter and the record check agree on a lead, for every role, exactly when this holds. */
  predicate FilterMeetsCheck(role: Role, view: View, lead: Lead) {
    match role
    case Sdr => true
    case TeamLead => true
    case FloorManager => true
    case Director => lead.assignedToId.Some? || lead.campaignId.Some?
    case LeadgenManager => lead.campaignId.Some? || (view.users.Some? && In(lead.assignedToId, view.users.value))
    case Leadgen =>
      || (view.campaigns.Some? && In(lead.campaignId, view.campaigns.value))
      || !(view.users.Some? && In(lead.assignedToId, view.users.value))
  }

  lemma AnyOfTwo(a: LeadWhere, b: LeadWhere, second: bool, lead: Lead, users: seq<Account>)
    ensures Matches(AnyLead([a] + if second then [b] else []), lead, users)
            <==> Matches(a, lead, users) || (second && Matches(b, lead, users))
  {
    var parts := [a] + if second then [b] else [];
    assert parts[0] == a && (second ==> parts[1] == b);
    assert forall p :: p in parts ==> p == a || (second && p == b);
  }

  lemma FilterAndCheckAgreeExactly(viewer: Id, role: Role, view: View, lead: Lead, users: seq<Account>)
    requires ViewOf(viewer, role, view) && RealLead(lead)
    ensures (Matches(LeadWhereScope(role, view), lead, users) <==> CanAccessLead(viewer, role, view, lead, users))
            <==> FilterMeetsCheck(role, view, lead)
    // where they differ, a director or leadgen manager is listed a lead it cannot open, and a leadgen
    // member can open a lead it is not listed
    ensures !FilterMeetsCheck(role, view, lead) && role != Leadgen ==> Matches(LeadWhereScope(role, view), lead, users)
    ensures !FilterMeetsCheck(role, view, lead) && role == Leadgen ==> CanAccessLead(viewer, role, view, lead, users)
  {
    if role == TeamLead {
      var v, c := view.users.value, view.campaigns.value;
      AnyOfTwo(AssignedIn(v), DepartedIn(c), |c| > 0, lead, users);
    }
    if role == FloorManager {
      var v, c := view.users.value, view.campaigns.value;
      AnyOfTwo(AssignedIn(v), CampaignIn(c), |c| > 0, lead, users);
    }
  }

  /** On stored leads, which have an assignee and a campaign, filter and check are one rule for every role but
      leadgen; for leadgen the check is the wider one, by what is assigned to somebody visible elsewhere. */
  lemma StoredLeadsFollowOneRule(viewer: Id, role: Role, view: View, lead: Lead, users: seq<Account>)
    requires ViewOf(viewer, role, view) && Given(lead.assignedToId) && Given(lead.campaignId)
    ensures role != Leadgen ==>
              (Matches(LeadWhereScope(role, view), lead, users) <==> CanAccessLead(viewer, role, view, lead, users))
    ensures role == Leadgen ==>
              (CanAccessLead(viewer, role, view, lead, users)
               <==> Matches(LeadWhereScope(role, view), lead, users) || lead.assignedToId.value in view.users.value)
  {
    FilterAndCheckAgreeExactly(viewer, role, view, lead, users);
  }

  /** A leadgen member may open its own lead in a campaign it is not on, and is not listed it. */
  lemma LeadgenOpensUnlisted(users: seq<Account>)
    ensures var view, lead := View(Some(["me"]), Some(["mine"])), Lead(Some("me"), Some("other"));
            && ViewOf("me", Leadgen, view)
            && CanAccessLead("me", Leadgen, view, lead, users)
            && !Matches(LeadWhereScope(Leadgen, view), lead, users)
  {
    assert "mine" != "other" by { assert "mine"[0] != "other"[0]; }
  }
}
