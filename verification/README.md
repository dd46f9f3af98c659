# Tenant scoping and org visibility, verified

A Dafny model of the CRM's data-access layer, with proofs of what it promises. `dafny verify dfyconfig.toml` checks all of it.

The model has four parts.

**Tenant reads.** A find carries a query tree (`Query.dfy`). The layer pins the tenant at the top, forces it into every
tenant-owned relation below, lets the database answer, removes foreign rows from the result and strips the fields it had
added. `Database.dfy` gives queries a meaning: tables of rows, joins on column values, windows, recursive result trees.
`TenantReads.ScopedFind` is the whole pipeline on values; `ScopedFindInPlace.ScopedFind` is the same pipeline as it works
on objects, and its contract is that it returns what the value pipeline returns. One induction over queries
(`TenantRefinement.RowIsMirrored`) shows that a forced, scrubbed and stripped row is the row as any database shows it that
mirrors what the tenant may see. Used with the tenant's own part of the database it gives privacy and isolation: a scoped
find answers exactly what the caller's own query, with no tenant machinery in it, would answer if the tenant's rows and the
unowned rows were all there was. Used with the database itself it gives transparency.

**Tenant runs.** The operations that are no finds work on tables (`TenantRuns.dfy`); whole runs by many tenants are compared
with runs of one tenant alone (`TenantAlone.dfy`), and the owner of a row is followed through scoped and bypassed writes
(`TenantForLife.dfy`). What each kind of caller is answered, and what its writes do, is said in the caller's own terms
(`TenantHandler.dfy`).

**Org and access.** The pod search and the guard on reassigning a manager (`PodScoping.dfy`, `ManagerGuard.dfy`), the lead
rule written as a filter and as a check (`LeadAccess.dfy`) and said on the accounts (`LeadReach.dfy`), the two stacked
caches in front of them (`VisibilityCaches.dfy`), sequences and templates (`OwnedVisibility.dfy`), session acceptance
(`Sessions.dfy`).

**Supporting code.** Redaction and the update diff (`AuditTrail.dfy`), list-cache keys and invalidation by cursor scan
(`ListCache.dfy`).

Objects that the code changes in place (query arguments, result rows, write arguments, the caches, the key store, the
account table) are classes; each method's contract ties the new state to a function of the old one, and the theorems are
about those functions. Object trees are unshared: a ghost tree says which object stands where, and every object stands in
one place.

## What the theorems assume

- `WellFormed`: `tenantId` is a column and never the name of a relation.
- `Sees`: the relation map lists exactly the relations to models that carry a `tenantId`. The built map does
  (`BuiltMap.BuiltMapSees`).
- `ValidDb`: owned rows have a string `tenantId`, a column is no relation, a to-one relation joins at most one row.
- `Accepted`: what the Prisma client accepts as a find: `include` or `select` but not both, a non-empty `select`, nesting
  under relations only, no `where` or `take` on a to-one relation.
- `Contained`, for privacy and isolation only: the query is `Covered`, that is, once it has stepped to a model without
  `tenantId` it does not step back to one that has it; or the schema is `KeyedByTenant`, that is, such models are entered by
  joining `tenantId` to `id` and left by joining `id` to `tenantId`, and no foreign key of the tenant's rows crosses to
  another tenant. Transparency needs neither.

## What is not as the code's comments say

- The layer scopes "nested relations" (lib/prisma.ts:150-154), but it stops at a model without a `tenantId`. A query that
  leaves the tenant-owned models and returns to them is not scoped there. The shipped data model (prisma/schema.prisma) has
  such queries: 92 models have a relation `tenant` to Tenant, and Tenant lists relations back to them, so the condition of
  `TenantReentry.IsolationExactlyWithoutReentry` (every layout of foreign keys isolates if and only if no path leaves and
  returns) does not hold of it. What does hold of it is in `TenantHubs.dfy`. The only model of that kind with relations is
  Tenant, and its relations are keyed by the tenant, so going there and back leaks nothing by itself
  (`TenantIsolation.Isolation`). What is behind is private if and only if no foreign key of the tenant's rows crosses
  (`TenantHubs.PrivateExactlyWhenUncrossed`), and a foreign key that carries `tenantId` cannot cross
  (`TenantHubs.CompositeKeysIsolate`). Two shipped keys between tenant-owned models do not carry it: EmailEvent's
  `outboundMessage` (prisma/schema.prisma:1525) and ResearchRun's
  `createdBy` (prisma/schema.prisma:4122). For the first,
  `TenantHubs.MisfiledEventShows` gives a failing input: with an event of one tenant whose `outboundMessageId` names
  another tenant's message, a find of email events that includes `tenant`, its `emailEvents` and their `outboundMessage`
  returns that message. The direct `outboundMessage` of the same event is withheld.
- `getLeadWhereScope` and `canAccessLead` (lib/auth.ts:460-552) are meant as one rule. `LeadAccess.FilterAndCheckAgreeExactly`
  says exactly when they agree. On stored leads, whose assignee and campaign are required (prisma/schema.prisma:861-863),
  they are one rule for every role but leadgen (`LeadAccess.StoredLeadsFollowOneRule`): a leadgen member may open a lead
  that is assigned to itself or to somebody in its pod although it is not listed (`LeadAccess.LeadgenOpensUnlisted`). The
  two other differences need a lead without a campaign, which `canAccessLead` takes but the table does not hold: a director
  is listed one that has no assignee either, and a leadgen manager one whose assignee is not in its pod, and neither may
  open it.
- `creatorsInReach` adds the deactivated reports of visible users, one level deep. It is the whole tree if and only if nobody
  but the viewer reports to such an account (`OwnedVisibility.ReachIsWholeTreeExactly`); on the chart of
  `OwnedVisibility.RepOfDepartedLeadIsMissed` a floor manager cannot see what a rep under a departed team lead created.
- A campaign answer that is served from the cache belongs to the role the entry was filled for
  (`VisibilityCaches.VisibilityReads.GetVisibleCampaignIds`); its organisation can be up to two lifetimes old.
- An explicit `tenantId: undefined` in a bypassed insert survives the spread (lib/tenant-inject.ts:33), so the insert reaches
  the database without a tenant; the theorem about tenants for life asks that an insert names a tenant or leaves the key out.

## Model

| member | source | states |
|---|---|---|
| Schemas.BuildRelationMap | lib/tenant-includes.ts:36-57 | the loops compute the relation map of the given models |
| Schemas.RelationMapExact | lib/tenant-includes.ts:35-57 | with unique names, a field is in the map if and only if it is a relation to a model that carries a `tenantId`, with that model and its arity |
| BuiltMap.BuiltMapSees | lib/tenant-includes.ts:35-57 | the built map meets the assumption `Sees` of the read theorems for every schema the models describe |
| BuiltMap.TenantIsNoRelation | lib/tenant-includes.ts:35-57 | where `tenantId` is a column of every model, the map lists it nowhere as a relation |
| ForceInPlace.ForceTenantIdOnRelations | lib/tenant-includes.ts:74-121 | the arguments become the forced query and stay an unshared tree made of their own and of new objects; the collected paths gain exactly the paths where a `tenantId` was added, under the given path |
| ForceInPlace.ForceEntries | lib/tenant-includes.ts:88-118 | after the loop every listed relation of the selection is forced and every other entry is as it was, in whatever order the keys come |
| ForceInPlace.ForceEntry | lib/tenant-includes.ts:89-117 | one key: unlisted, switched off, and plain to-one entries are skipped, every other relation is forced |
| ForceInPlace.NodeAt | lib/tenant-includes.ts:93-104 | the entry as an object that a filter can hang on; `true` is replaced by a new empty object in the caller's selection |
| ForceInPlace.ForceHere | lib/tenant-includes.ts:106-115 | a list gets its filter narrowed, a to-one `select` gets `tenantId`, and the path is reported exactly if it lacked it |
| TenantExactness.ForceKeepsAccepted | lib/tenant-includes.ts:11-16 | forcing turns a query the client accepts into one it accepts: nothing is put where the client takes no `where` |
| TenantReads.NarrowWindow | lib/tenant-includes.ts:106-109 | the narrowed filter picks the caller's window of the tenant's own rows, in order and before the limit applies |
| TenantRefinement.AddTenantEval | lib/tenant-includes.ts:110-115 | selecting `tenantId` as well adds that one field to the result and changes no other |
| ScrubRelations.ScrubIsExact | lib/tenant-includes.ts:124-187 | scrubbing returns the one largest foreign-free part of the tree: nothing else foreign-free in it is larger, rows at the top are all kept, and scrubbing twice is scrubbing once |
| ScrubRelations.ScrubIsClean | lib/tenant-includes.ts:123-187 | at any depth no relation of the output names another tenant |
| ScrubRelations.CleanIsUntouched | lib/tenant-includes.ts:177-187 | a tree without foreign relations is returned as it is |
| ResultScrub.ScrubForeignRelations | lib/tenant-includes.ts:124-175 | copy-on-write on objects: the rows from the database are not modified, the result is made of old and new objects without sharing, an identical result is the input itself, and its value is the scrubbed value |
| ResultScrub.ScrubListEntries | lib/tenant-includes.ts:150-160 | a list relation keeps exactly the scrubbed entries that are not foreign, in order |
| ResultScrub.ScrubRows | lib/tenant-includes.ts:132-136 | every row of a top-level array is scrubbed and none is dropped |
| ResultScrub.ScrubRelation | lib/tenant-includes.ts:147-171 | one relation of a row: a list is filtered, a foreign to-one target becomes null, any other is scrubbed |
| ResultScrub.ScrubObject | lib/tenant-includes.ts:142-174 | the loop over a row's relations with its lazily made copy: the copy holds every changed field, and without a change there is no copy |
| ResultScrub.ForeignView | lib/tenant-includes.ts:183-187 | the owner test on an object decides what the owner test on its value decides |
| StripForced.StripEachIsStrip | lib/tenant-includes.ts:190-221 | stripping path after path, in any order and with any repetition, removes the same fields as one pass over the set of paths |
| StripForced.StripOneMore | lib/tenant-includes.ts:196-221 | one more path strips one more set of fields and disturbs no path stripped before |
| ResultObjects.StripForcedFields | lib/tenant-includes.ts:190-194 | in place, the result's value becomes the value with every forced path stripped; no object is added and none moves |
| ResultObjects.StripAtInPlace | lib/tenant-includes.ts:196-221 | in place along one path, through arrays without using up the path; everything off the path keeps its value |
| ResultObjects.DeleteTenant | lib/tenant-includes.ts:210-218 | at the end of a path `tenantId` is deleted from the object, or from every object of the array |
| TenantRefinement.RowIsMirrored | lib/tenant-includes.ts:74-221 | one row, forced, scrubbed and stripped, is that row, field for field at every depth, as any database shows it that mirrors the tenant's part: of followed relations to owned models the tenant's rows, of all others what is there |
| TenantMirrors.CoveredMirrors | lib/tenant-includes.ts:85-90 | for a covered query the tenant's rows with the unowned ones are such a database |
| TenantMirrors.UncrossedMirrors | lib/tenant-includes.ts:3-6 | where no foreign key crosses, the database itself is one, for every query |
| TenantMirrors.KeyedMirrors | prisma/schema.prisma:2568-2580 | where queries leave and return only through the tenant's own row and no foreign key crosses, the tenant's part is one for every query, also behind that row |
| TenantMirrors.TenantsRow | prisma/schema.prisma:2568-2580 | behind the tenant's own row every row reads the same whether or not other tenants' rows are there |
| TenantIsolation.ScopedFindIsPrivate | lib/prisma.ts:144-169 | a scoped find answers what the caller's own query answers on the tenant's rows and the unowned rows alone, for every operation, tree, filter and limit: if it is covered, or if hubs are keyed by the tenant and nothing crosses |
| TenantIsolation.Isolation | lib/tenant-includes.ts:3-18 | two databases that agree on the tenant's rows and the unowned ones give every contained scoped find the same answer |
| TenantExactness.Transparent | lib/tenant-includes.ts:70-73 | where none of the tenant's foreign keys crosses, the full pipeline answers what top-level scoping alone answers, for every accepted find on an owned model |
| TenantExactness.TransparentExactlyWhenUncrossed | lib/tenant-includes.ts:3-18 | the pipeline is invisible to every accepted find on an owned model if and only if none of the tenant's foreign keys crosses |
| TenantExactness.CrossingShows | lib/tenant-includes.ts:5-6 | for each crossing key there is a find whose answer differs from the one with top-level scoping only |
| TenantReentry.IsolationExactlyWithoutReentry | lib/tenant-includes.ts:35-57 | every layout of foreign keys on a relation graph is isolated if and only if the graph has no path out of the tenant-owned models and back |
| TenantReentry.ReentryShows | lib/tenant-includes.ts:85-90 | for every graph with such a path there are foreign keys, two databases that agree for a tenant and a find that tells them apart |
| TenantHubs.CompositeKeysIsolate | prisma/schema.prisma:861-863 | with hubs keyed by the tenant and every key between owned models carrying `tenantId`, every accepted find is isolated, whatever the rows are |
| TenantHubs.PrivateExactlyWhenUncrossed | lib/tenant-includes.ts:3-6 | with hubs keyed by the tenant and a way there and back for every key that could cross, all accepted finds are private if and only if none of the tenant's keys crosses |
| TenantHubs.CrossingShowsBehindHub | lib/tenant-includes.ts:85-90 | a crossing key is followed, and its foreign row returned, by the find that goes to the hub and back before it |
| TenantHubs.MisfiledEventShows | prisma/schema.prisma:1521-1539 | a concrete database with the shipped keys on which a find tells a tenant whether another tenant's message is there |
| TenantReentry.AlwaysCovered | lib/tenant-includes.ts:85-90 | on a graph without such a path every query is covered |
| ScopedFindInPlace.ScopedFind | lib/prisma.ts:144-169 | pin, force, scrub and strip on objects: the arguments reach the database as the rewritten query, and what is returned has the value of the scoped find |
| ScopedFindInPlace.PinTopInPlace | lib/prisma.ts:146-148 | the top-level `where` of a tenant-owned model carries the tenant afterwards, and only that changed |
| TenantInject.Resolve | lib/prisma.ts:99-123 | the whole decision on the caller's own fields: an ambient context with a tenant is bypassed if it says so and scoped otherwise, whatever the session is; without a context the session's tenant is scoped; without a tenant a script or developer passes and everybody else is refused |
| TenantInject.RouteTable | lib/prisma.ts:99-123 | the route every handled request takes is exactly the one of that table |
| TenantInject.BypassIsAsked | lib/prisma.ts:99-123 | in production bypassing takes an ambient context with the flag and a tenant, and a session alone is scoped to its user's tenant or refused |
| TenantInject.Args.StampTenantWrite | lib/tenant-inject.ts:41-73 | which payloads are stamped per operation, and that nothing else of the arguments changes |
| TenantInject.Args.ApplyScopedTenant | lib/tenant-inject.ts:79-84 | reads and targeted writes reach exactly the tenant's rows that the caller's own filter admits, inserts keep their filter, and payloads keep every column but the tenant, which is the context's in every row written |
| TenantInject.ScopedKeepsTheFilter | lib/tenant-inject.ts:80-82 | for every row: the filter afterwards admits it if and only if the caller's filter without its top-level `tenantId` does and the row is the tenant's |
| ForceTenant.WithoutTenantAdmits | lib/tenant-inject.ts:80-82 | that filter is every other key and every clause the caller gave |
| TenantInject.ScopedKeepsThePayload | lib/tenant-inject.ts:31-34 | row by row a payload changes in nothing but `tenantId`, and what is written names the tenant |
| TenantInject.Args.ApplyBypassTenant | lib/tenant-inject.ts:91-93 | inserts are given the tenant where they name none and are otherwise kept; filters and updates stay as they are |
| TenantRuns.ScopedArguments | lib/tenant-inject.ts:75-84 | a scoped filter reaches the tenant's rows only, and a scoped payload carries the tenant whatever the caller wrote |
| TenantRuns.TableStep | lib/prisma.ts:144-169 | one scoped operation changes the actor's part of a table, and answers, as if the rest were not there; every other tenant's part stays |
| TenantHandler.RefusedSeesNothing | lib/prisma.ts:116-123 | in production without a tenant nothing changes, a list find is answered empty, any other find with null, every other operation is an error, and two databases give one reply |
| TenantHandler.BypassedFindIsPlain | lib/prisma.ts:116-142 | a find of a bypassing caller is the caller's own on the whole database |
| TenantHandler.ScopedFindIsOwn | lib/prisma.ts:144-169 | a find of a tenant is the caller's own on the tenant's part, from the caller's fields to the answer |
| TenantHandler.OneTableChanges | lib/prisma.ts:93-169 | whoever calls, no table but the model's own changes, and a read changes none |
| TenantHandler.DeletesWhatWasAsked | lib/tenant-inject.ts:80-82 | a bulk delete removes exactly the tenant's rows that the caller's own filter admits, and counts them |
| TenantHandler.UpdatesWhatWasAsked | lib/tenant-inject.ts:79-84 | a bulk update writes the caller's columns, with the tenant, to exactly those rows and leaves every other row |
| TenantHandler.InsertsWhatWasAsked | lib/tenant-inject.ts:55-62 | a bulk insert adds the caller's rows in order, each as a row of the tenant |
| TenantHandler.TalliesWhatWasAsked | lib/tenant-inject.ts:80-82 | a count, aggregate or grouping is computed from exactly those rows |
| TenantHandler.UnownedWriteIsPlain | lib/prisma.ts:146-148 | a write to a model without a tenant is the caller's own |
| TenantAlone.HandleStep | lib/prisma.ts:144-169 | the same for a request against the whole database: a flat write to an owned model, or an accepted and contained find; a refused request is answered alike on all databases and changes none |
| TenantAlone.RunsAsIfAlone | lib/prisma.ts:144-169 | along every interleaving a tenant receives the replies, and is left with the rows, of a run in which it alone acts on its own database |
| TenantAlone.OthersCanBeDeleted | lib/prisma.ts:144-169 | deleting all operations of other tenants from a run changes neither a tenant's answers nor its rows |
| TenantForLife.HandleTraced | lib/tenant-inject.ts:36-93 | one request moves no row to another tenant and adds none without a tenant: any scoped one, and any bypassed one whose updates leave `tenantId` out and whose inserts name a tenant or come from a known one |
| TenantForLife.TenantIsFixedForLife | lib/tenant-inject.ts:41-93 | along every run of such requests a row keeps the tenant it was created with, and every created row has one |
| TenantForLife.BypassFollowsPayload | lib/tenant-inject.ts:31-34 | a bypassed insert belongs to the tenant its payload names, else to the context's; a bypassed update moves a row exactly if its payload names another tenant |
| PodScoping.ComputeVisibleUserIds | lib/podScoping.ts:11-29 | unrestricted for a director, the viewer alone for an SDR, and otherwise the viewer first and then exactly everybody below, once each, on cyclic and dangling charts too |
| PodScoping.NextFrontier | lib/podScoping.ts:21-25 | the next frontier is exactly the reports of the frontier that are not visible yet |
| PodScoping.ExploreNext | lib/podScoping.ts:20-27 | one level keeps all that is visible below the viewer, and a level that finds somebody leaves fewer users unseen |
| ManagerGuard.WouldCreateManagerCycle | lib/podScoping.ts:40-59 | the walk ends on every chart, and answers true exactly for self-management, a user above the proposed manager, or a circle up there |
| ManagerGuard.GuardIsExact | lib/podScoping.ts:31-59 | on an acyclic chart the guard refuses a reassignment if and only if it would close a cycle |
| ManagerGuard.GuardedRunsStayAcyclic | lib/podScoping.ts:31-59 | every run of guarded reassignments keeps the chart acyclic, over the same users and roles |
| ManagerGuard.WalksAreDual | lib/podScoping.ts:18-59 | with unique ids that are not empty, the guard refuses manager m for user u if and only if m is in the pod computed for u or a circle is above m; on an acyclic chart, if and only if m is in the pod |
| ManagerGuard.PodsAreLaminar | lib/podScoping.ts:18-28 | two pods are disjoint or one contains the other, on cyclic charts too |
| LeadAccess.FilterAndCheckAgreeExactly | lib/auth.ts:460-552 | for every role the list filter and the record check agree on a lead if and only if a condition on the lead holds, and where they do not, which of the two is wider |
| LeadAccess.StoredLeadsFollowOneRule | prisma/schema.prisma:861-863 | for leads with an assignee and a campaign, filter and check agree for every role but leadgen, and for leadgen the check adds what is assigned to somebody visible |
| LeadAccess.LeadgenOpensUnlisted | lib/auth.ts:460-465 | a leadgen member may open its own lead in a campaign it is not on, and is not listed it |
| LeadReach.WhoOpensALead | lib/auth.ts:529-552 | on the accounts and assignments themselves, who may open a lead, role by role: a team lead if and only if the assignee is in its pod, or the campaign is its pod's and the assignee is deactivated |
| LeadReach.WhoIsListedALead | lib/auth.ts:460-503 | the same for the list, role by role |
| VisibilityCaches.VisibilityReads.GetVisibleUserIds | lib/auth.ts:223-242 | an answer is right for an organisation less than 60 seconds old, and right for the present one without a cache hit; an entry is served for exactly 60 seconds and then replaced |
| VisibilityCaches.VisibilityReads.GetVisibleCampaignIds | lib/auth.ts:419-449 | an answer comes from memberships less than 60 and an organisation less than 120 seconds old, and is current without a hit in either cache |
| VisibilityCaches.VisibilityReads.FillCampaigns | lib/auth.ts:442-448 | the filled entry holds each campaign of the visible users once, with the time it was read at |
| VisibilityCaches.VisibilityReads.ClearVisibleUserCache | lib/auth.ts:244-257 | one viewer's entries, or all, leave both caches, so that the next read of either is current |
| VisibilityCaches.StackedAge | lib/auth.ts:432-440 | the ages of the two caches add up: a fresh campaign entry filled from a fresh pod is within the bound |
| VisibilityCaches.PodFollowsActiveReports | lib/auth.ts:235-239 | the pod on the accounts: the viewer and whom lines of active accounts lead to from it |
| OwnedVisibility.ReachIsWithin | lib/visibility.ts:21-36 | nobody in reach is outside the tree over active and inactive users together |
| OwnedVisibility.ReachIsWholeTreeExactly | lib/visibility.ts:21-36 | with one account per id, the reach is that whole tree if and only if nobody but the viewer reports to a deactivated account that reports to somebody visible |
| OwnedVisibility.RepOfDepartedLeadIsMissed | lib/visibility.ts:21-36 | a chart on which it is not: a rep under a departed team lead is below the floor manager, who cannot see what the rep created |
| OwnedVisibility.ReachByRole | lib/visibility.ts:28-36 | whose rows a role reaches, on the accounts: everybody's, its own, or those of whom it oversees and of their deactivated reports; without a tenant no deactivated ones |
| OwnedVisibility.WhoMaySee | lib/visibility.ts:51-55 | a row is seen by its creator, by a director, by the managers above the creator, and by everybody if shared |
| OwnedVisibility.WhoMayChange | lib/visibility.ts:58-63 | a row is changed by its creator, a director, or a floor manager or team lead above the creator, and sharing grants nothing |
| OwnedVisibility.ListFilterIsRowRule | lib/visibility.ts:41-63 | filtering any list by the `where` keeps the rows the record check accepts; whoever may change a row may see it, and is listed it |
| OwnedVisibility.WithCanManage | lib/visibility.ts:113-123 | rows and order are kept, and each row is marked with what the record check decides |
| OwnedVisibility.UnusableTemplateIds | lib/visibility.ts:96-107 | exactly the given ids that no visible template of the tenant carries, once each; all of them without a tenant |
| Sessions.AccountStore.UpsertUser | scripts/create-user.ts:63-118 | created, refused or updated; field by field the stored row is what was given or what it was, no other account changes, and the version moves exactly if a password is given or the stored role or active state becomes another |
| Sessions.AccountStore.UpsertDirector | scripts/create-admin.ts:28-76 | an existing account gets password, role and active state reset and its version moved, a missing one is created as director |
| Sessions.RunVersions | scripts/create-user.ts:106-115 | along every run of both scripts the version never falls and rises exactly if some command cut access |
| Sessions.AcceptedAfterRunExactly | lib/auth.ts:129-134 | a token is accepted after a run if and only if it is accepted before and no command of the run cut access |
| Sessions.RevocationIsPermanent | scripts/create-admin.ts:50-54 | a rejected token is never accepted again, whatever is run afterwards, reactivation included |
| Sessions.WhoIsAccepted | lib/auth.ts:129-134 | a token is accepted if and only if its account is there and active, in the tenant the token names if it names one, and at the token's version |
| Sessions.DeactivatedIsShutOut | scripts/create-user.ts:93-115 | after a run whose last command on the active state is a deactivation no token is accepted, a newly minted one included |
| Sessions.LastActiveStateStands | scripts/create-user.ts:93-98 | after any run the active state is the one given last; promoting activates |
| Sessions.LastRoleStands | scripts/create-user.ts:93-98 | after any run the role is the one given last; promoting makes a director |
| Sessions.LastPasswordStands | scripts/create-user.ts:93-98 | after any run the password is the one given last |
| Sessions.RenameCutsNothing | scripts/create-user.ts:106-115 | a run that gives no password and no other role or active state changes names only and leaves every token as it is |
| AuditTrail.RedactionIsExact | lib/audit.ts:46-57 | redaction is the only function that, on every path, keeps shape and value outside sensitive keys, puts the placeholder at the first sensitive key and leaves nothing below it |
| AuditTrail.RedactTwice | lib/audit.ts:46-57 | redacting twice is redacting once |
| AuditTrail.SecretsAreReplaced | lib/audit.ts:4-11 | at any depth the six named fields hold the placeholder or nothing, and plain values that are under none of them are kept |
| AuditTrail.DiffForUpdate | lib/audit.ts:113-145 | the loop records exactly the keys that changed, redacted by their own names, in any order of keys |
| AuditTrail.DiffIsRedacted | lib/audit.ts:123-141 | no logged entry carries a value under a sensitive key |
| AuditTrail.WhatIsLogged | lib/audit.ts:117-123 | a key is logged if and only if it is given a plain value other than the stored one, or a list; `updatedAt` never is |
| AuditTrail.WhatIsLoggedOfIt | lib/audit.ts:139-141 | under the six names two placeholders, and otherwise the plain value that was there and the one written |
| AuditTrail.DiffIsFaithful | lib/audit.ts:113-145 | for every plain column the recorded new values turn the old row into the new one, and the old values turn it back |
| ListCache.ListKeyIsInjective | lib/cache.ts:103-112 | keys of plain names differ if tenant, resource or variant differs |
| ListCache.PrefixMeetsOwnKeys | lib/cache.ts:90-116 | a list's prefix is a prefix of a key if and only if the key is of that tenant and resource |
| ListCache.PatternMeetsOwnKeys | lib/cache.ts:78-81 | the scan pattern of an invalidation matches a key if and only if the key is of that tenant and resource |
| ListCache.CacheStore.CacheDel | lib/cache.ts:74-88 | the scan ends at the last page or the first failure, and removes exactly the keys the pages returned |
| ListCache.CacheStore.InvalidateList | lib/cache.ts:103-116 | refused without a tenant and without touching a key, otherwise the scan of that list's prefix |
| ListCache.InvalidationClearsOneList | lib/cache.ts:90-116 | after a complete scan every key of the list that was there throughout is gone, however often it was returned, and no key of another tenant or resource was removed |

## Left out

- TenantIsolation.Isolation: a query that re-enters tenant-owned models through a model without `tenantId` is included only where that model is keyed by the tenant and nothing crosses, because isolation fails elsewhere; TenantReentry.IsolationExactlyWithoutReentry and TenantHubs.PrivateExactlyWhenUncrossed are exact about it.
- TenantAlone.RunsAsIfAlone: writes are flat and touch tenant-owned models only, rows stay valid throughout the run, and no uniqueness constraint spans tenants.
- TenantForLife.TenantIsFixedForLife: bypassed updates whose payload names a tenant are excluded, because such a write follows its payload, as TenantForLife.BypassFollowsPayload says.
- VisibilityCaches.VisibilityReads.GetVisibleUserIds: a read and the storing of its answer are one step, time is a monotone parameter, and the users read are taken to be those of the viewer's tenant.
- Sessions.AccountStore.UpsertUser: hashes and new ids are inputs, the email address is already normalised, and the version is not limited to 32 bits.
- ListCache.CacheStore.CacheDel: what the store returns page by page is an input that matches the pattern; the client connection is not part of the model.
- ScopedFindInPlace.ScopedFind: the database call is a parameter, the rows it delivered; a find that throws has no result to finish.
- ResultObjects.StripAtInPlace: objects are changed in place; arrays are values, since neither scrubbing nor stripping changes an array it was given.
- Keys of an object have no order.
- A negative `take`, which counts from the end.
- PostgreSQL row-level security and its transactions: `DB_RLS_ENFORCED` is taken as false.
- Nested writes, `include` and `select` on writes, relation filters inside `where`, `orderBy`, `skip`, `cursor`, `distinct`, `omit`, `_count`, raw SQL, and operations that the operation sets do not list.
- Asynchronous scheduling, AsyncLocalStorage and request memoisation: the tenant context is an input of each operation.
- Counts, aggregates and groupings are modelled by the rows they are computed from.
- The API-key half of the session lookup, NextAuth callbacks, password hashing and the login throttle.
- Resolving the acting user of an audit entry and writing the log row.
- Character classes in the store's patterns; tenants and resources with `:` or pattern characters in their names.
- The user interface, mock data, seeds, maintenance scripts and environment predicates.
