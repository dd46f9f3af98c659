/** Which leads a viewer reaches, said on the accounts and the campaign assignments themselves. */
module LeadReach {
  import opened Values
  import opened PodScoping
  import opened LeadAccess
  import opened VisibilityCaches

  /** What the two reads answer in a given organisation. */
  ghost predicate ViewIn(w: World, viewer: Id, role: Role, view: View) {
    && VisibleIn(w, viewer, role, view.users)
    && match role
       case Director => view.campaigns == None
       case LeadgenManager => view.campaigns == None
       case Leadgen => view.campaigns == Some(CampaignRows(w.memberships, [viewer]))
       case _ => view.campaigns.Some?
                 && exists users :: VisibleIn(w, viewer, role, Some(users)) && CampaignsOf(w, users, view.campaigns.value)
  }

  /** The lead's assignee is the viewer, or somebody below it along active reporting lines. */
  ghost predicate InPod(w: World, viewer: Id, lead: Lead) {
    lead.assignedToId.Some? && Oversees(w.users, viewer, lead.assignedToId.value)
  }

  /** The viewer, or somebody in its pod, is assigned to the lead's campaign. */
  ghost predicate InPodsCampaign(w: World, viewer: Id, lead: Lead) {
    exists m :: m in w.memberships && lead.campaignId == Some(m.campaignId) && Oversees(w.users, viewer, m.userId)
  }

  predicate InOwnCampaign(w: World, viewer: Id, lead: Lead) {
    exists m :: m in w.memberships && lead.campaignId == Some(m.campaignId) && m.userId == viewer
  }

  /** The lead's assignee has been deactivated. */
  predicate Orphaned(w: World, lead: Lead) {
    exists u :: u in w.users && lead.assignedToId == Some(u.id) && !u.isActive
  }

  lemma {:induction false} FoundAccount(users: seq<Account>, id: Id)
    requires UniqueAccounts(users)
    ensures (FindUser(users, id).Some? && !FindUser(users, id).value.isActive)
            <==> exists u :: u in users && u.id == id && !u.isActive
  {
    if users != [] {
      assert users == [users[0]] + users[1..];
      FoundAccount(users[1..], id);
    }
  }

  lemma PodsCampaigns(w: World, viewer: Id, role: Role, view: View, lead: Lead)
    requires ViewIn(w, viewer, role, view) && (role == TeamLead || role == FloorManager)
    ensures view.campaigns.Some? && (In(lead.campaignId, view.campaigns.value) <==> InPodsCampaign(w, viewer, lead))
  {
    var users :| VisibleIn(w, viewer, role, Some(users)) && CampaignsOf(w, users, view.campaigns.value);
    PodFollowsActiveReports(w, viewer, role, users);
    hide VisibleIn, Oversees;
  }

  /** What the reads answer, as the lead rules use it. */
  lemma ViewOnAccounts(w: World, viewer: Id, role: Role, view: View, lead: Lead)
    requires UniqueAccounts(w.users) && ViewIn(w, viewer, role, view)
    ensures ViewOf(viewer, role, view)
    ensures role !in {Director, Sdr} ==> (In(lead.assignedToId, view.users.value) <==> InPod(w, viewer, lead))
    ensures role == TeamLead || role == FloorManager ==>
              (In(lead.campaignId, view.campaigns.value) <==> InPodsCampaign(w, viewer, lead))
    ensures role == Leadgen ==> (In(lead.campaignId, view.campaigns.value) <==> InOwnCampaign(w, viewer, lead))
    ensures Departed(w.users, lead.assignedToId) <==> Orphaned(w, lead)
  {
    if role !in {Director, Sdr} { PodFollowsActiveReports(w, viewer, role, view.users.value); }
    if role == TeamLead || role == FloorManager { PodsCampaigns(w, viewer, role, view, lead); }
    if lead.assignedToId.Some? { FoundAccount(w.users, lead.assignedToId.value); }
    hide Oversees, IsPod, UniqueAccounts, FindUser, InPodsCampaign, CampaignsOf;
  }

  /** Who may open a lead. */
  lemma WhoOpensALead(w: World, viewer: Id, role: Role, view: View, lead: Lead)
    requires UniqueAccounts(w.users) && ViewIn(w, viewer, role, view) && RealLead(lead)
    ensures CanAccessLead(viewer, role, view, lead, w.users) <==>
            match role
            case Director => lead.assignedToId.Some? || lead.campaignId.Some?
            case LeadgenManager => InPod(w, viewer, lead) || lead.campaignId.Some?
            case Leadgen => InPod(w, viewer, lead) || InOwnCampaign(w, viewer, lead)
            case FloorManager => InPod(w, viewer, lead) || InPodsCampaign(w, viewer, lead)
            case TeamLead => InPod(w, viewer, lead) || (InPodsCampaign(w, viewer, lead) && Orphaned(w, lead))
            case Sdr => lead.assignedToId == Some(viewer)
  {
    ViewOnAccounts(w, viewer, role, view, lead);
    hide Oversees, ViewIn, Departed, Orphaned, UniqueAccounts, InPodsCampaign, InOwnCampaign;
  }

  /** Which leads are listed. */
  lemma WhoIsListedALead(w: World, viewer: Id, role: Role, view: View, lead: Lead)
    requires UniqueAccounts(w.users) && ViewIn(w, viewer, role, view)
    ensures Matches(LeadWhereScope(role, view), lead, w.users) <==>
            match role
            case Director => true
            case LeadgenManager => true
            case Leadgen => InOwnCampaign(w, viewer, lead)
            case FloorManager => InPod(w, viewer, lead) || InPodsCampaign(w, viewer, lead)
            case TeamLead => InPod(w, viewer, lead) || (InPodsCampaign(w, viewer, lead) && Orphaned(w, lead))
            case Sdr => lead.assignedToId == Some(viewer)
  {
    ViewOnAccounts(w, viewer, role, view, lead);
    if role == TeamLead {
      AnyOfTwo(AssignedIn(view.users.value), DepartedIn(view.campaigns.value), |view.campaigns.value| > 0, lead, w.users);
    }
    if role == FloorManager {
      AnyOfTwo(AssignedIn(view.users.value), CampaignIn(view.campaigns.value), |view.campaigns.value| > 0, lead, w.users);
    }
    hide Oversees, ViewIn, Departed, Orphaned, UniqueAccounts, InPod, InPodsCampaign, InOwnCampaign;
  }
}
