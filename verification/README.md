# Verified model of github-roster

The service keeps GitHub organizations in step with company directories. It
joins directory snapshots, an operator-approved mapping of people to logins and
the current state of an organization into a roster; renders the membership
document the organization should have; compares that with what GitHub says; and
runs the difference as an ordered list of writes, either after an operator
approved that exact list or unattended. This project models that pipeline, the
protocol that decides when it may run, and the stores under it, and proves what
they promise together.

`dafny verify dfyconfig.toml` checks everything.

## How the model is laid out

| files | what they hold |
|---|---|
| `Text`, `Strings`, `Indexing`, `Sorting` | case folding, splitting and joining, last-writer-wins maps, sorting |
| `Config`, `Directory`, `OrgState`, `Document` | the data the decisions read and write |
| `Liveness`, `LivenessMeaning` | the index of `*liveness` records on the heap, and what it means in terms of directory accounts alone |
| `Roster`, `Join`, `StandingMeaning` | what the roster is, the loops that build it, and whom it shows as what, said of accounts, the mapping and GitHub alone |
| `RenderSpec`, `Render`, `RenderMeaning` | what a render is, the loops that build it, and which logins it names |
| `PlanSpec`, `Reconciler`, `PlanMeaning` | what a plan owes, the loops that build it, and what that comes to in the letters of logins |
| `Execution`, `Restart` | GitHub as a state machine behind the writer, and stopping and replanning |
| `Safety`, `Pipeline`, `Compute` | theorems across join, render, plan and execution |
| `NextPass` | what the next pass, which joins and renders afresh, owes after a run that stopped |
| `Promises` | promises kept only in part, with the exact condition of each |
| `Plans`, `Broker`, `BrokerRuns`, `Runs` | the plan store, the apply protocol, what it lets happen, and live transcripts |
| `Mapping`, `EntryMeaning`, `Memory`, `Ssm`, `SsmStore`, `SsmRefinement` | the mapping store: its rules and what they accept, both implementations, and the refinement between them |
| `OrgStore`, `Staging`, `OrgSsm` | organizations as flat parameters: the format, what staging leaves, and the store object |
| `DirectoryCache` | the last-known-good caches |

Code that loops over maps or appends to slices is a method with invariants,
proved equal to (or characterised by) a specification; Go map iteration is an
arbitrary choice at each step, so every result holds for every order. The
lemmas are about the specifications.

## What is assumed

* Logins, addresses and group names are ASCII, so `strings.ToLower` and
  `strings.EqualFold` agree. White space is ASCII too.
* Facts of GitHub, stated as `requires` where used: member logins are distinct
  up to case (`MembersDistinct`), and invitation IDs and invited logins are
  distinct (`InvitationsDistinct`).
* `EntriesDistinct`: mapping entries have distinct names and distinct,
  non-empty logins. `Memory.SoundFeedsPipeline` discharges it for the in-process
  store and `SsmRefinement.ListingFeedsPipeline` for the parameter store after
  any run in which no call failed. A create that failed midway is listed with an
  empty login (`SsmStore.HalfWrittenIsListed`) and is outside it.
* Source names are not empty, which `pkg/config/config.go:749-773` checks.
* `Wired`: the roster is the join of inputs holding the same organization state
  the render reads, and the organization is configured. The reconcile loop joins
  with the effective configuration and the sweep with the static one
  (`pkg/broker/removals.go:107`, `pkg/broker/broker.go:330`), so
  `Compute.World` keeps the two apart.
* Plans with different organizations, modes or actions have different hashes: the
  8 of SHA-256's 32 bytes that are kept (`pkg/broker/plans.go:34`) tell them apart.
* A failed call to GitHub or to the parameter store may or may not have taken
  effect.

## Where the code does less than its comments say

* Only people a healthy directory says are suspended are said to leave
  (`pkg/peribolos/render.go:166-167`), but so does a mapped employee no directory
  knows (`Promises.StrangerRemovedExample`).
  `Promises.OnlySuspendedLeaveIff` is exact: the promise holds iff no such
  stranger, whom no unhealthy source is declared to know, holds a seat that may be
  taken. Of the people removed, strangers are the only ones not reported suspended
  (`Promises.RemovedUnreportedIff`).
* Exceptions are said never to be touched in either direction
  (`pkg/config/config.go:314`). They are never removed, but a full sync can
  invite one or move one between teams (`Promises.ExceptionInvitedExample`,
  `Promises.ExceptionMovedExample`); `Promises.ExceptionNamedIff` says when.
* `Result.Adding` can name an owner the plan does not add
  (`pkg/peribolos/render.go:139-141`, `Promises.AddingExample`);
  `Promises.AddingIsAddedIff` says when it does not.
* No state is said to mean nothing to do (`pkg/roster/roster.go:152-154`), but a
  pin owes a seat to somebody neither live nor a member
  (`Promises.NoStateNamedExample`); `Promises.NoStateNamedIff` is the exact
  condition.
* An address is said to win over a name (`pkg/roster/roster.go:645-650`), but of
  two accounts in one source the one found by name is kept
  (`Promises.NameWinsExample`) unless an address leads to that name too
  (`Promises.AddressDecidesIff`).
* After a run that stopped midway, the next pass reads, joins and renders afresh.
  It plans what was left of the run unless, removal from an organization also
  emptying the team seats, somebody evicted is still pinned to a team they sat in,
  and then it owes that seat again (`Promises.EvictedExample`,
  `Promises.SeatOwedBackExample`). `NextPass.NextPassRestarts` is exact about it,
  `NextPass.NextOwes` says what is owed in every case, and a sweep always restarts
  (`NextPass.NextSweepRestarts`).
* Planning the stored document again, which `reconciler.Run` would do and no part
  of the service calls, restarts unless the run invited the empty login, which
  cannot be told from an invitation by address (`Restart.BlankInviteExample`), or
  evicted somebody the document still wants in a team. `Restart.RestartAnywhere`
  is exact about both, and `Safety.RenderedPlanRestarts` says what they come to for
  rendered documents.
* A create of a mapping entry that failed midway may be refused when put again, as
  a duplicate of itself, and so may an entry whose delete failed midway, since the
  name goes first (`SsmStore.RetryRefusedExample`). `SsmStore.RetryIff` and
  `SsmStore.DeletedClashIff` say exactly when; an update that failed can always be
  put again, others permitting (`SsmStore.UpdateRetries`).
* The mapping rules accept an address with a comma in it, which the parameter
  store reads back as two (`Ssm.CommaIsLost`); `Ssm.RereadIff` gives the exact
  condition.
* Teams whose names differ only in surrounding space are staged as one
  (`Staging.TeamsRunTogetherExample`), and a team whose name is blank
  (`Staging.BlankTeamExample`) or holds a slash is lost, as is an organization whose
  name holds one; `Staging.StagingRoundTrip` is exact about it.

## Model

| member | source | states |
|---|---|---|
| `Text.FoldsIff` | pkg/reconciler/reconciler.go:152-207 | Two texts fold together exactly when they have the same letters, each in either case |
| `Text.LessIff` | pkg/reconciler/reconciler.go:296-320 | One text is less than another exactly when it stops first or has the lesser character at the first place they differ |
| `Sorting.SortedListUnique` | pkg/reconciler/reconciler.go:296-320 | A strictly sorted list is determined by its elements, so sorting hides map iteration order |
| `Strings.SplitListJoinIff` | pkg/configstore/directory.go:146-161 | A comma list reads back exactly when every item is trimmed, non-empty and comma-free |
| `Strings.AtoiItoa` | pkg/configstore/orgs.go:230-234 | A number within 64 bits survives being written and read |
| `Liveness.Live.Fold` | pkg/roster/roster.go:505-535 | Folding an account into a record on the heap gives the record the account calls for |
| `Liveness.Live.MergeFrom` | pkg/roster/roster.go:682-708 | Merging one record into another gives their declared merge, the later identity of a source winning |
| `Liveness.SyncedDomains` | pkg/roster/roster.go:719-733 | The map of domains answers, case folded, whether a domain takes part in sync |
| `Liveness.GroupsByMember` | pkg/roster/roster.go:545-566 | An address is listed under a group exactly when some snapshot's group lists it, case folded |
| `Liveness.LivenessIndexes` | pkg/roster/roster.go:471-540 | The heap holds exactly the record of every display name, freshly allocated, and the address index leads to those records |
| `Liveness.ResolveLiveness` | pkg/roster/roster.go:651-709 | What an entry resolves to, and the names it claims, without disturbing the index |
| `LivenessMeaning.RecordMeans` | pkg/roster/roster.go:471-540 | A name has a record iff some account bears it; live, hasSynced and syncedLive say whether some such account is live, synced, both |
| `LivenessMeaning.GroupsMean` | pkg/roster/roster.go:545-566 | A record's groups are exactly the synced groups, from any snapshot, listing the address of a live account of that name |
| `LivenessMeaning.DirectoriesMean` | pkg/roster/roster.go:505-514 | Under each source a record keeps the last account of that name there |
| `LivenessMeaning.SourcesMean` | pkg/roster/roster.go:505-509 | A record's sources are those of the accounts of its name |
| `LivenessMeaning.OwnersMean` | pkg/roster/roster.go:497-506 | An address leads to the last account that holds it |
| `LivenessMeaning.ResolveMeans` | pkg/roster/roster.go:651-709 | An entry resolves iff it reaches an account by name or address; its flags say whether some account it reaches is live, synced, both |
| `LivenessMeaning.ResolvedGroupsMean` | pkg/roster/roster.go:651-709 | A resolved entry's groups are the synced groups listing a live account it reaches |
| `LivenessMeaning.ResolvedIdentity` | pkg/roster/roster.go:651-709 | Under each source a resolved entry carries the account it is known by: of the names it claims with an account there the last claimed, and that name's last account there |
| `LivenessMeaning.ResolvedSources` | pkg/roster/roster.go:682-692 | A resolved entry's sources are those of the accounts it reaches |
| `LivenessMeaning.ClaimsInOrder` | pkg/roster/roster.go:651-675 | Names are claimed address by address and the entry's own name last, each once |
| `Roster.SourcesForMeans` | pkg/roster/roster.go:1091-1116 | A source should know a person iff its configuration covers the domain of one of their addresses |
| `Join.CollectDesired` | pkg/roster/roster.go:841-865 | The teams wanted for a person, sorted, are the ones that pin or match them |
| `Join.BuildMembership` | pkg/roster/roster.go:771-832 | The standing in one organization: member, role, invitation, managed and desired teams, lifecycle |
| `Join.ExpectedSources` | pkg/roster/roster.go:1091-1116 | The loop computes the declared sources, which `Roster.SourcesForMeans` characterises |
| `Join.UnmappedWarnings` | pkg/roster/roster.go:941-964 | The warnings are the sorted set of live names no entry covers |
| `Join.JoinOne` | pkg/roster/roster.go:570-627 | One entry's person |
| `Join.Run` | pkg/roster/roster.go:358-433 | The roster is a join of its inputs: everyone's person in name order, absent groups, unmapped names |
| `StandingMeaning.SyncsIff` | pkg/roster/roster.go:719-733 | A domain takes part in sync unless the last configured under its name, in any case, is switched off |
| `StandingMeaning.DeclaredIff` | pkg/roster/roster.go:1091-1116 | A source should know somebody iff it has a domain, in any case, that one of their addresses is at |
| `StandingMeaning.GroupIff` | pkg/roster/roster.go:545-566 | A resolved entry is in a group iff the group syncs and lists, in any case, a live account the entry reaches |
| `StandingMeaning.AddressIff` | pkg/roster/roster.go:895-919 | An address is somebody's iff a live account they are known by has it, or their entry lists it and no account they are known by has it |
| `StandingMeaning.MappedTeamIff` | pkg/roster/roster.go:841-919 | A team mapped to directories wants somebody iff they are known and live here, and one of its groups holds them or one of its addresses is theirs |
| `StandingMeaning.PinnedTeamIff` | pkg/roster/roster.go:841-865 | A pinned team wants somebody iff their entry names it, in any case |
| `StandingMeaning.SeatsShownIff` | pkg/roster/roster.go:771-832 | The managed teams shown are the configured ones the login sits in, in any case |
| `StandingMeaning.LifecycleIff` | pkg/roster/roster.go:246-266 | Each lifecycle answer, display-only, invited, leaving, synced, pending and none, by an iff on membership, invitation, evidence and teams |
| `StandingMeaning.AbsentIff` | pkg/roster/roster.go:380-395 | A group is known absent iff some snapshot reports it so, in any case |
| `RenderMeaning.RemovalsOnlyMeans` | pkg/peribolos/render.go:171-230 | A login is kept iff an ordinary member who is an exception, unknown or no leaver, or invited |
| `RenderMeaning.FullMeans` | pkg/peribolos/render.go:233-302 | A login is desired iff an excepted member, a person who belongs, an unknown member, or invited |
| `RenderMeaning.TeamMeans` | pkg/peribolos/render.go:309-383 | Who a rendered team wants, pins and kept residents included |
| `StandingMeaning.KeepsResidentsIff` | pkg/peribolos/render.go:335-375 | A team keeps its residents iff pinned, or if, of its groups some snapshot reports absent, the first has a name |
| `RenderMeaning.StanzaMeans` | pkg/peribolos/render.go:105-158 | The rendered stanza keeps exactly the current owners as admins and names exactly the mode's members |
| `RenderMeaning.InvitedStay` | pkg/peribolos/render.go:220-227 | A pending invitee is always still wanted, in both modes |
| `RenderMeaning.SortedUniqueKeys` | pkg/peribolos/render.go:502-520 | Deduplication keeps every folded login and invents none |
| `RenderMeaning.MissingMeans` | pkg/peribolos/render.go:459-471 | What is missing is what is in one list and, case folded, not in the other |
| `Render.KeepMembers` | pkg/peribolos/render.go:171-230 | The removals-only loop computes the kept members |
| `Render.DesireMembers` | pkg/peribolos/render.go:233-302 | The full loop computes the desired members |
| `Render.RenderTeams` | pkg/peribolos/render.go:309-383 | The team loop computes the team stanzas |
| `Render.Run` | pkg/peribolos/render.go:105-158 | The render answers its specification, the removals-only refusal included |
| `PlanSpec.OwedKeysDistinct` | pkg/reconciler/reconciler.go:152-263 | Before sorting, no two owed actions share team, kind rank and folded login |
| `PlanSpec.SortedUnique` | pkg/reconciler/reconciler.go:296-320 | Two sorted action lists with the same actions are the same list |
| `PlanSpec.VerdictUnique` | pkg/reconciler/reconciler.go:99-124 | Equal inputs give one action list, or one refusal, whatever order maps are walked in |
| `Reconciler.PlanMembership` | pkg/reconciler/reconciler.go:152-207 | The membership loops emit each owed membership change once and nothing else |
| `Reconciler.PlanTeams` | pkg/reconciler/reconciler.go:215-263 | The team loops emit each owed team change once, or name the least unknown team |
| `Reconciler.SortActions` | pkg/reconciler/reconciler.go:296-320 | Sorting orders the actions strictly and keeps them |
| `Reconciler.CheckInvariants` | pkg/reconciler/reconciler.go:273-291 | A removals-only plan is refused iff it grants something |
| `Reconciler.BuildPlan` | pkg/reconciler/reconciler.go:99-124 | The verdict is the specified one: refusals in order, else everything owed, once, in order |
| `PlanMeaning.RemovesIff` | pkg/reconciler/reconciler.go:152-207 | A member is removed exactly when the document wants no login of those letters |
| `PlanMeaning.InvitesIff` | pkg/reconciler/reconciler.go:152-207 | A login is invited, as owner or not, exactly when the document wants it so and nobody of those letters is a member or invited |
| `PlanMeaning.WithdrawsIff` | pkg/reconciler/reconciler.go:152-207 | An invitation is withdrawn exactly when the document wants no login of its letters |
| `PlanMeaning.TurnsIff` | pkg/reconciler/reconciler.go:152-207 | A role is set exactly on a member the document wants, in any case, in the other role |
| `PlanMeaning.JoinsIff` | pkg/reconciler/reconciler.go:215-263 | A team seat is given exactly to somebody the team wants and, in any case, does not have |
| `PlanMeaning.QuitsIff` | pkg/reconciler/reconciler.go:215-263 | A team seat is taken exactly from somebody the team has and wants under no case |
| `PlanMeaning.ShapesOnly` | pkg/reconciler/reconciler.go:152-263 | A plan owes nothing but removals, withdrawals, role changes, invitations and team seats given and taken |
| `PlanMeaning.CaseIsNoChange` | pkg/reconciler/reconciler.go:99-124 | A member whose login differs from a wanted one only in case is neither invited again nor removed, in any plan |
| `PlanMeaning.RunsInOrder` | pkg/reconciler/reconciler.go:296-320 | A plan runs team by team, the organization first; then role changes, owners, members, withdrawals, removals, seats given, seats taken; then by login |
| `PlanMeaning.RefusedIff` | pkg/reconciler/reconciler.go:99-124 | Each refusal by an iff: no such organization, too few owners, the first team GitHub does not know, a removals-only document that asks for access somebody lacks; otherwise a plan |
| `Execution.GitHub.SetMembership` | pkg/reconciler/reconciler.go:325-337 | An insider's role changes or an outsider is invited under a fresh ID, or the call fails with or without effect |
| `Execution.GitHub.RemoveMember` | pkg/reconciler/reconciler.go:325-337 | The member leaves, and with the cascade the teams too, or the call fails with or without effect |
| `Execution.GitHub.CancelInvite` | pkg/reconciler/reconciler.go:325-337 | The invitation with that ID goes, or the call fails with or without effect |
| `Execution.GitHub.AddTeamMember` | pkg/reconciler/reconciler.go:325-337 | One login joins one team, or the call fails with or without effect |
| `Execution.GitHub.RemoveTeamMember` | pkg/reconciler/reconciler.go:325-337 | One login leaves one team, or the call fails with or without effect |
| `Execution.GitHub.Execute` | pkg/reconciler/reconciler.go:347-374 | Execution performs a prefix of the actions in order and stops at the first error |
| `Restart.StepOrg` | pkg/reconciler/reconciler.go:152-207 | Performing one owed membership change settles exactly that change |
| `Restart.StepTeam` | pkg/reconciler/reconciler.go:215-263 | Performing one owed team change settles exactly that change |
| `Restart.RestartExactly` | pkg/reconciler/reconciler.go:99-263 | Without the cascade, planning again after k actions yields exactly the actions from k on, iff those k invited no empty login |
| `Restart.RestartAnywhere` | pkg/reconciler/reconciler.go:347-374 | With or without the team cascade, planning again after k actions yields what was left of the plan iff those k were clean, and then nothing else |
| `Restart.RecoversFromError` | pkg/reconciler/reconciler.go:347-357 | The same after a run stopped at an error, with or without the cascade, whether or not the failing write took effect |
| `Restart.OwedIsLeftIff` | pkg/reconciler/reconciler.go:152-263 | After k actions exactly what was left is owed, iff they invited no empty login and evicted nobody the document wants in a team |
| `Restart.ConvergesIff` | pkg/reconciler/reconciler.go:99-263 | A full run leaves nothing owed iff it invited no empty login and, with the cascade, evicted nobody the document wants in a team |
| `Restart.BlankInviteExample` | pkg/reconciler/reconciler.go:152-207 | A document wanting the empty login never settles |
| `Restart.StepAdmitsNobody` | pkg/reconciler/reconciler.go:325-337 | No write makes a member |
| `Restart.EmptyPlanIffConforms` | pkg/reconciler/reconciler.go:99-263 | The plan is empty iff the organization is as the document says |
| `Safety.RemovalsOnlyNeverRefused` | pkg/peribolos/render.go:139-148 | For every input, the removals-only render never reaches its own refusal |
| `Safety.RemovalsOnlyNeverGrants` | pkg/reconciler/reconciler.go:273-291 | For every input, a removals-only document owes no addition and no team change |
| `Safety.RemovalsOnlyVerdict` | pkg/peribolos/render.go:112-148 | An unattended plan holds only removals and can be refused only for too few owners |
| `Safety.NeverOwnersOrWithdrawals` | pkg/peribolos/render.go:126-130 | A rendered document never adds an owner or withdraws an invitation |
| `Safety.NeverRoles` | pkg/peribolos/render.go:126-130 | A rendered document changes nobody's role |
| `Safety.KeptTeamsLoseNobody` | pkg/peribolos/render.go:335-375 | A pinned team, or one backed by an absent group, loses nobody |
| `Safety.OnlyOwnerGuard` | pkg/reconciler/reconciler.go:105-124 | A rendered plan is refused only by the owner guard; the unknown-team refusal is never reached |
| `Safety.OwnersNeverMove` | pkg/peribolos/render.go:126-130 | However far a rendered plan runs, the owner set is the one it started from |
| `Safety.RenderedInvitesPeople` | pkg/peribolos/render.go:233-302 | Whoever a rendered plan invites is a person the roster puts in the organization |
| `Safety.RenderedPlanRestarts` | pkg/reconciler/reconciler.go:347-374 | A rendered plan stopped after any write, and the same document planned again: what was left of it, with or without the cascade, iff nobody without a login was invited and nobody evicted is kept a team seat |
| `Safety.TornIffKeepsSeat` | pkg/peribolos/render.go:335-375 | A rendered team still wants somebody the plan removes iff it keeps its residents or the roster wants them in it |
| `Safety.SweepsAreClean` | pkg/peribolos/render.go:171-230 | A removals-only plan is clean however far it ran, so planning its document again always restarts |
| `Safety.RenderedInvitesNamed` | pkg/peribolos/render.go:233-302 | A rendered plan invites no empty login when no person has one |
| `NextPass.SameEvidence` | pkg/roster/roster.go:771-832 | What somebody is wanted in, and on what evidence, does not depend on the state of any organization |
| `NextPass.AdditionIff` | pkg/peribolos/render.go:233-302 | An invitation a rendered plan owes is that of an outsider who belongs, spelled as the mapping spells them, and conversely |
| `NextPass.SeatIff` | pkg/peribolos/render.go:309-383 | A seat a rendered plan gives is that of an entry wanted in the team and not in it, spelled likewise, and conversely |
| `NextPass.NextOwes` | pkg/broker/broker.go:299-371 | After k writes of a rendered plan, the freshly joined and rendered pass owes what was left, less the seats that left with their holders, and the seats the evicted are still pinned to |
| `NextPass.NextPassRestarts` | pkg/broker/broker.go:299-371 | The next pass answers with what was left of the run, in either mode and with or without the cascade, iff nobody evicted is still pinned to a team they sat in; and then nothing else |
| `NextPass.NextPassRecovers` | pkg/reconciler/reconciler.go:347-357 | The same after a run stopped at an error, whether or not the failing write took effect |
| `NextPass.NextSweepRestarts` | pkg/broker/removals.go:81-170 | After k removals of a sweep the next sweep answers with the rest, and nothing else |
| `Pipeline.LeaverMeans` | pkg/peribolos/render.go:391-407 | Trustworthy evidence: not display-only, not live, and no source that knows or should know them unhealthy |
| `Pipeline.RemovedIff` | pkg/peribolos/render.go:171-302 | A plan in either mode removes a login iff an ordinary member, not excepted, not invited, mapped to a leaver |
| `Pipeline.ModesRemoveAlike` | pkg/peribolos/render.go:171-302 | On the same inputs, configuration included, the sweep and the full sync remove the same people |
| `Pipeline.RemovingIsRemoved` | pkg/peribolos/render.go:139-141 | The removals a render reports are the removals of its plan |
| `Pipeline.RemovedIsLeaving` | pkg/roster/roster.go:246-266 | Whoever the plan removes is shown as leaving |
| `Pipeline.LeavingIffRemoved` | pkg/roster/roster.go:246-266 | An ordinary member is removed iff shown as leaving, on trustworthy evidence, and not an exception |
| `Pipeline.PendingIffAdded` | pkg/roster/roster.go:246-266 | A non-member is shown as pending iff the full plan invites them |
| `Pipeline.TeamChangesIff` | pkg/peribolos/render.go:309-383 | The full plan changes a seat in an existing team iff the person wants and lacks it, or holds it unwanted where residents may be taken out |
| `Pipeline.SyncedIsLeftAlone` | pkg/roster/roster.go:246-282 | Nobody shown as synced is named by any action, team actions included |
| `Pipeline.GrantLiveMeans` | pkg/roster/roster.go:751-769 | Access is live iff the person is a bot, or their account at home is live, or they have none and some live account of theirs is in a synced domain |
| `Pipeline.VouchesMeans` | pkg/roster/roster.go:570-627 | The sources and expected sources shown for a person are those holding an account of theirs or declared for an address |
| `Pipeline.LeaverInDirectories` | pkg/peribolos/render.go:191-206 | Who leaves, said of directory accounts, configured domains and source health alone |
| `Pipeline.StrangerLeaves` | pkg/peribolos/render.go:166-206 | An employee no directory knows, with no address in a configured domain, leaves; `Promises.StrangerLeavesIff` is exact |
| `Pipeline.DisplayOnlyGrantsNothing` | pkg/roster/roster.go:751-769 | A non-bot known only in unsynced domains is live nowhere and wanted only by pinned teams |
| `Pipeline.DisplayOnlyIsInert` | pkg/peribolos/render.go:191-264 | Such a person is neither added nor removed, in either mode |
| `Pipeline.PersonLiveIff` | pkg/roster/roster.go:570-627 | A person is live iff a bot, or some account their entry reaches is live |
| `Pipeline.UnmappedMeans` | pkg/roster/roster.go:941-964 | The warnings are exactly the live names no entry reaches by name or address |
| `Promises.NamedIff` | pkg/peribolos/render.go:105-158 | A rendered plan can name somebody only to invite, remove or move them between teams |
| `Promises.ExceptionNamedIff` | pkg/config/config.go:313-315 | An excepted login is named by a plan iff a full sync owes it an invitation, gives it a team seat or takes one |
| `Promises.ExceptionInvitedExample` | pkg/peribolos/render.go:233-302 | An exception that a full sync of joined inputs invites |
| `Promises.ExceptionMovedExample` | pkg/peribolos/render.go:309-383 | An exception that loses a team seat in a full sync of joined inputs |
| `Promises.AddingIff` | pkg/peribolos/render.go:139-141 | The additions a render reports are those of its plan and the owners it wants |
| `Promises.AddingIsAddedIff` | pkg/peribolos/render.go:139-141 | They are exactly the plan's iff no owner, not also invited, maps to a person who belongs |
| `Promises.AddingExample` | pkg/peribolos/render.go:424-442 | A render of joined inputs that reports adding an owner its plan does not add |
| `Promises.NoStateNamedIff` | pkg/roster/roster.go:246-266 | Somebody shown with no state is named by the full plan iff the roster shows a team seat to give or take |
| `Promises.NoStateNamedExample` | pkg/roster/roster.go:246-266 | Somebody shown with no state whom a full sync of joined inputs names |
| `Promises.SuspendedIffKnown` | pkg/peribolos/render.go:162-170 | Of those who leave, a healthy directory reports suspended exactly the ones some directory knows |
| `Promises.StrangerLeavesIff` | pkg/peribolos/render.go:191-206 | Somebody no directory knows leaves iff no bot and no unhealthy source is declared for an address of theirs |
| `Promises.RemovedUnreportedIff` | pkg/peribolos/render.go:162-206 | A removed login nobody healthy reports suspended is a stranger's that may be removed, and conversely |
| `Promises.OnlySuspendedLeaveIff` | pkg/peribolos/render.go:162-206 | Everybody removed is reported suspended by a healthy directory iff no stranger holds a seat that may be taken |
| `Promises.StrangerRemovedExample` | pkg/peribolos/render.go:191-206 | A sweep of joined inputs that removes somebody no directory knows |
| `Promises.EvictedExample` | pkg/peribolos/render.go:335-352 | Somebody evicted from the organization and from the team they are pinned to |
| `Promises.SeatOwedBackExample` | pkg/peribolos/render.go:335-352 | The next pass owes them the seat again, which no plan before owed |
| `Promises.RemovedByOneIff` | pkg/broker/removals.go:105-110 | Of those one configuration removes, another spares those live here under it, known only in domains it does not sync, or vouched for by an unhealthy source |
| `Promises.AddedDirectoriesIff` | pkg/broker/reload.go:42-47 | With directories added that change no domain's switch, the loop spares, of those the sweep removes, exactly the ones an unhealthy added directory is declared to know, and removes nobody else |
| `Promises.AddressDecidesIff` | pkg/roster/roster.go:645-709 | The account kept in a source is one an address leads to iff an address leads to the own name or the own name has no account there |
| `Promises.NameWinsExample` | pkg/roster/roster.go:645-709 | An entry whose name wins over its address |
| `Compute.Run` | pkg/broker/broker.go:299-371 | Join, render and plan composed, refusals included |
| `Compute.NotConfiguredIff` | pkg/broker/broker.go:299-371 | A computation answers not configured iff no organization of that name is configured |
| `Compute.RefusedBelowMinimumIff` | pkg/config/config.go:496-502 | A computation is refused below the minimum iff the owners are fewer than the organization's own minimum where it sets one, and else than the global one |
| `Compute.RosterUnique` | pkg/roster/roster.go:408-433 | The join is a function of its inputs |
| `Compute.ComputeUnique` | pkg/broker/broker.go:299-371 | Recomputing from equal inputs never yields a different plan, so never a different hash |
| `Plans.PlanStore.Put` | pkg/broker/plans.go:61-72 | The plan is kept, stamped, under its hash, whatever is evicted meanwhile |
| `Plans.PlanStore.Get` | pkg/broker/plans.go:75-85 | A lookup answers as a store that never evicts |
| `Plans.EvictionIsUnobservable` | pkg/broker/plans.go:88-94 | Under a clock that never runs back, eviction changes no answer |
| `Plans.FoundWasPut` | pkg/broker/plans.go:75-85 | A lookup finds something iff the last put under that hash is within the limit |
| `Broker.NextKeeps` | pkg/broker/broker.go:215-295 | Every step of every caller keeps the lock, plan-store and log invariant |
| `Broker.BehavioursKeep` | pkg/broker/broker.go:215-295 | The invariant holds throughout every interleaving |
| `Broker.ApprovedIsWhatRuns` | pkg/broker/broker.go:181-295 | Each operator-triggered run executes exactly the organization, mode and actions of a plan stored earlier under the approved hash |
| `Broker.NeverBroken` | pkg/broker/runs.go:177-238 | The lock discipline is never breached in any interleaving |
| `Broker.OneWriter` | pkg/broker/reconcile.go:121-147 | At most one Execute is in progress, and every write belongs to the run the lock's holder started |
| `Broker.RecordFollowsRun` | pkg/broker/broker.go:260-295 | The first thing after a run ends, under the lock, is that run's one record |
| `Broker.StartedOnce` | pkg/broker/removals.go:177-199 | Every run id is started exactly once |
| `Broker.RecordedExactlyOnce` | pkg/broker/reconcile.go:152-261 | Whenever the lock is free, every run has ended and been recorded exactly once, successful or not |
| `Broker.SweepsOnlyRemove` | pkg/broker/removals.go:85-199 | In every interleaving what a sweep runs is removals-only, and everything else is full |
| `Broker.DriftIsStored` | pkg/broker/broker.go:236-244 | A plan that drifted under a waiting operator is there to be reviewed |
| `BrokerRuns.RunsWriteInOrder` | pkg/reconciler/reconciler.go:347-360 | In every interleaving a run's writes are its actions from the first on, in order, each once, and it ended well iff it wrote them all |
| `BrokerRuns.RequestsWait` | pkg/broker/runs.go:177-200 | A request that waits for the lock does nothing else until it has it, and then applies what it was approved for |
| `BrokerRuns.ReviewedCanRun` | pkg/broker/broker.go:215-295 | From any state at rest, a plan can be stored, approved, run up to any action or to its end, recorded, and the lock freed |
| `BrokerRuns.DriftCanBeSeen` | pkg/broker/broker.go:215-295 | When the fresh plan differs nothing runs, and whoever waits for an answer is left it to review |
| `BrokerRuns.ApplyCanFail` | pkg/broker/broker.go:252-295 | Computing, or building the writer, can fail, and then nothing runs and the lock is freed |
| `BrokerRuns.PassCanServe` | pkg/broker/removals.go:50-75 | A pass can leave alone, turn away or serve each of its organizations in order, each as far as it goes, one failing never stopping the others |
| `BrokerRuns.CanPeek` | pkg/broker/reconcile.go:121-125 | Asking for a pass takes the lock for a moment and lets it go |
| `Runs.Run.AppendLine` | pkg/broker/runs.go:48-60 | A line joins the transcript and every watcher's channel that has room |
| `Runs.Run.FinishRun` | pkg/broker/runs.go:63-74 | The run is done, every channel closed and every watcher released |
| `Runs.Run.TakeSnapshot` | pkg/broker/runs.go:78-92 | The transcript so far, and a channel only while the run lives |
| `Runs.Run.Leave` | pkg/broker/runs.go:94-102 | A watcher that leaves closes its channel once |
| `Runs.InterleavingsKeep` | pkg/broker/runs.go:34-102 | Every interleaving of calls keeps the transcript invariant |
| `Runs.ChannelsAreSafe` | pkg/broker/runs.go:48-102 | No send on a closed channel, no double close, and a finished run has no subscribers |
| `Runs.WatchersSeeInOrder` | pkg/broker/runs.go:253-284 | What a watcher sees is a subsequence of the transcript, no line repeated |
| `Runs.PatientWatchersSeeAll` | pkg/broker/runs.go:253-284 | A watcher that stayed, and never had a line appended while 64 waited for it, has seen the whole transcript but for the lines that wait |
| `Runs.MissedIff` | pkg/broker/runs.go:48-60 | A watcher missed a line iff one was appended while it was subscribed and 64 were waiting for it |
| `Runs.LeftIff` | pkg/broker/runs.go:94-102 | A watcher left iff its subscription was ended |
| `Runs.OpensAt` | pkg/broker/runs.go:78-92 | A watcher's channel opens with a snapshot of a running run, and its tail starts where that stopped |
| `Runs.LineIsDelivered` | pkg/broker/runs.go:48-60 | A line appended while a watcher is subscribed and fewer than 64 wait for it joins them |
| `Runs.LineIsReceived` | pkg/broker/runs.go:253-284 | A watcher that receives gets the line that waited longest |
| `Runs.CanSeeItAll` | pkg/broker/runs.go:253-284 | A watcher there from the start that takes each line as it comes can see any run to its end, and one that comes after it can too |
| `Runs.FinishedIsFinal` | pkg/broker/runs.go:63-74 | A finished run's transcript and status never change |
| `Mapping.ConflictSymmetric` | pkg/mapping/mapping.go:230-272 | Clashing over a login, address or abbreviation is mutual |
| `EntryMeaning.ValidLoginIff` | pkg/mapping/mapping.go:142-150 | A login is valid iff it has 39 characters at most and every piece between dashes is non-empty and of ASCII letters and digits |
| `EntryMeaning.ValidInAnyCase` | pkg/mapping/mapping.go:142-150 | Whether a login is valid does not depend on the case of its letters |
| `EntryMeaning.Dns1123Iff` | pkg/mapping/mapping.go:153-206 | A DNS label is pieces of small letters and digits between dashes, the first and the last not empty |
| `EntryMeaning.PlausibleEmailIff` | pkg/mapping/mapping.go:153-206 | An address is plausible iff a non-empty name and domain surround its first at sign, no letter is a capital, and it has no blank or tab inside and no white space at an end |
| `EntryMeaning.WellFormedIff` | pkg/mapping/mapping.go:153-206 | An entry is valid iff its name, class, login, addresses, abbreviation and pins each have the form spelled out |
| `EntryMeaning.ClashIff` | pkg/mapping/mapping.go:230-272 | Two entries conflict iff their names differ and they share a login, an abbreviation or an address, in any case |
| `EntryMeaning.PutDoes` | pkg/mapping/memory.go:58-73 | A put is refused as invalid, as changing an abbreviation or as a duplicate, each by an iff said of the entry; otherwise it is stored under the next revision |
| `Memory.Store.Put` | pkg/mapping/memory.go:58-73 | A put is refused iff a rule breaks; otherwise the entry is stored under the next revision |
| `Memory.Store.List` | pkg/mapping/memory.go:34-42 | Every entry once, strictly sorted by name |
| `Memory.Store.Delete` | pkg/mapping/memory.go:76-83 | The name is gone and nothing else changed |
| `Memory.RefusesIsCheck` | pkg/mapping/mapping.go:230-272 | The check over a listing in any order is the rule over the store |
| `Memory.PutKeepsSound` | pkg/mapping/memory.go:58-73 | A put keeps every entry valid and every login, address and abbreviation unique |
| `Memory.RunsKeepSound` | pkg/mapping/mapping.go:153-272 | After any run from an empty store every entry is valid and none clash |
| `Memory.AbbreviationIsImmutable` | pkg/mapping/mapping.go:230-272 | An assigned abbreviation outlives every run that does not delete its name |
| `Memory.SoundFeedsPipeline` | pkg/mapping/memory.go:34-42 | What the store lists is what the decisions assume of entries |
| `Ssm.SlugHasNoSlash` | pkg/mapping/ssm.go:86-88 | A slug is at most one path segment |
| `Ssm.SlugIs` | pkg/mapping/ssm.go:80-88 | A slug is the runs of small letters and digits of the folded name, joined by single dashes |
| `Ssm.SplitNameIff` | pkg/mapping/ssm.go:268-280 | A parameter name splits into a slug and field iff it is their path |
| `Ssm.PathInjective` | pkg/mapping/ssm.go:268-280 | Different people's fields never share a parameter |
| `Ssm.RereadIff` | pkg/mapping/ssm.go:288-321 | A valid entry reads back as written iff no address or pin holds a comma |
| `Ssm.CommaIsLost` | pkg/mapping/mapping.go:153-206 | A valid entry that does not read back |
| `SsmStore.Store.Get` | pkg/mapping/ssm.go:137-162 | A read gives the last entry put under the slug |
| `SsmStore.Store.List` | pkg/mapping/ssm.go:93-134 | The listing holds the entry of each person the parameters describe, once |
| `SsmStore.Store.Put` | pkg/mapping/ssm.go:172-241 | A put that succeeds reads back in every field, cleared ones gone; one that fails midway touches no other slug and leaves each field as it was or as the entry has it |
| `SsmStore.Store.Delete` | pkg/mapping/ssm.go:244-254 | A delete removes every field of one slug, or when it fails the first few of them, and touches no other |
| `SsmStore.TouchConsistent` | pkg/mapping/ssm.go:172-241 | A write under one slug leaves every other person readable as before |
| `SsmStore.CleanPeople` | pkg/mapping/ssm.go:93-134 | A store with no half-written slug describes exactly the people it holds |
| `SsmStore.HalfWrittenIsListed` | pkg/mapping/ssm.go:282-321 | A create interrupted after one write is listed with an empty login |
| `SsmStore.CreateLeavesPart` | pkg/mapping/ssm.go:214-226 | A create that stopped anywhere leaves some of the entry's fields |
| `SsmStore.DeleteLeavesPart` | pkg/mapping/ssm.go:244-254 | A delete that stopped leaves the fields after those it removed |
| `SsmStore.RetryIff` | pkg/mapping/ssm.go:172-190 | Putting the entry again over part of it is refused iff somebody else clashes with it, or its name is gone while its login, an address or its abbreviation is there |
| `SsmStore.RetryRefusedExample` | pkg/mapping/ssm.go:172-190 | A create that wrote the login and failed is refused when put again |
| `SsmStore.DeletedClashIff` | pkg/mapping/ssm.go:244-254 | After a delete that removed n fields that is so iff n is 1, or 2 with an address or abbreviation, or 3 with an abbreviation |
| `SsmStore.UpdateRetries` | pkg/mapping/ssm.go:172-241 | An update that stopped anywhere is refused again only when somebody else clashes with it |
| `SsmRefinement.RunsMatch` | pkg/mapping/ssm.go:93-254 | Over any run the parameter store holds what the in-process store holds, revision aside |
| `SsmRefinement.ReadsAgree` | pkg/mapping/ssm.go:137-241 | The two stores answer reads and refuse writes alike |
| `SsmRefinement.Perform` | pkg/mapping/ssm.go:172-254 | Operations performed on the store object leave what their specification leaves, unless one fails |
| `SsmRefinement.TryAll` | pkg/mapping/ssm.go:172-254 | A run that goes on past failures: whoever has no failed operation outstanding reads as last applied |
| `SsmRefinement.GetAfter` | pkg/mapping/ssm.go:137-162 | A read of the store object after any run that does not fail gives what the in-process store holds, revision aside |
| `SsmRefinement.PutAfter` | pkg/mapping/ssm.go:172-241 | A put on the store object after any such run is refused exactly when the in-process store refuses it |
| `SsmRefinement.ListingFeedsPipeline` | pkg/mapping/ssm.go:93-134 | What the parameter store lists after such a run is what the decisions assume of entries |
| `DirectoryCache.Cache.Refresh` | pkg/directory/cache.go:47-76 | Success replaces the snapshot; failure keeps it and is remembered |
| `DirectoryCache.Cache.Set` | pkg/directory/cache.go:137-144 | An injected snapshot counts as a successful read |
| `DirectoryCache.Cache.Status` | pkg/directory/cache.go:96-118 | Healthy iff the latest attempt succeeded; ready iff some attempt has |
| `DirectoryCache.Cache.Snapshot` | pkg/directory/cache.go:126-131 | The most recent successful read since the cache was made |
| `DirectoryCache.LastGoodMeans` | pkg/directory/cache.go:47-76 | The last good read is a successful attempt with none after it |
| `DirectoryCache.CacheSet.Reconcile` | pkg/directory/cache.go:207-244 | The cache names become the set of source names, in source order if that changed anything; survivors keep their objects, the last of a name if it had several; a change is reported iff the name sets differ |
| `DirectoryCache.CacheSet.Refresh` | pkg/directory/cache.go:252-262 | Every cache is attempted in turn, past failures, and the names that failed are reported |
| `DirectoryCache.OneAttempt` | pkg/directory/cache.go:252-262 | A cache listed once gets exactly the attempt made at its place |
| `DirectoryCache.CacheSet.Unhealthy` | pkg/directory/cache.go:328-338 | The names whose latest attempt failed or that were never read |
| `OrgStore.ParseOf` | pkg/configstore/orgs.go:162-178 | The path of a key parses back to that key |
| `OrgStore.ParseInverse` | pkg/configstore/orgs.go:162-178 | Whatever parses is the path of a valid key |
| `OrgStore.PathInjective` | pkg/configstore/orgs.go:281-317 | Different keys never share a parameter |
| `Staging.ReadDependsOnOwn` | pkg/configstore/orgs.go:182-228 | What is listed of an organization depends on its own parameters only |
| `Staging.ReadDependsOnTexts` | pkg/configstore/orgs.go:182-228 | Indeed on the texts of its scalars and its teams' lists only |
| `Staging.StagingLeaves` | pkg/configstore/orgs.go:281-317 | Staging leaves at each key the listing reads the canonical organization's value for it, or what was there, whatever the names |
| `Staging.ParamsAsked` | pkg/configstore/orgs.go:281-317 | Every write to a key the listing reads is one the organization asks for |
| `Staging.StagingRoundTrip` | pkg/configstore/orgs.go:281-317 | Staging into an empty place reads back: its own app pointer, adopted and switched off, every team with intent under its trimmed name with its own lists, iff no name is blank or holds a slash, teams that trim alike have the same lists, and lists and minimum survive as text |
| `Staging.TeamsRunTogetherExample` | pkg/configstore/orgs.go:281-317 | Two teams whose names differ in a space do not read back |
| `Staging.BlankTeamExample` | pkg/configstore/orgs.go:325-351 | An organization whose one team has a blank name is accepted and not listed |
| `Staging.StagingLeavesOthers` | pkg/configstore/orgs.go:325-351 | Staging one organization, under any name, changes nothing listed of another |
| `Staging.InterruptedStagingAddsNothing` | pkg/configstore/orgs.go:325-351 | A staging stopped midway lists no team not asked for, and of each team a list it was given or none |
| `Staging.AppFieldsDoNotParse` | pkg/configstore/orgs.go:261-268 | A credential path is no organization's scalar and no team's list |
| `Staging.OnlyPointerMoves` | pkg/configstore/orgs.go:357-396 | Storing credentials changes the credential pointer and no other text the listing reads |
| `Staging.CredentialsAreInert` | pkg/configstore/orgs.go:357-396 | Storing credentials changes nothing listed of another organization, and of their own only where it points and so whether it is listed |
| `OrgSsm.Store.BuildParams` | pkg/configstore/orgs.go:281-317 | The staging loops produce the specified writes, teams in name order |
| `OrgSsm.Store.PutOrg` | pkg/configstore/orgs.go:325-351 | Refused iff nameless or without a team with intent; else a prefix of the staging writes, all of them on success |
| `OrgSsm.Store.PutApp` | pkg/configstore/orgs.go:357-396 | Only parameters of the given credentials and the app pointer change; on success every one of them is stored and pointed at |
| `OrgSsm.GivenAre` | pkg/configstore/orgs.go:357-385 | What is given: both identifiers, the installation's unless zero, each secret unless empty, under their field names, and numbers as they read back |
| `OrgSsm.Store.Collect` | pkg/configstore/orgs.go:115-157 | Collecting in any order gathers exactly the parameters that parse |
| `OrgSsm.Store.ListOrgs` | pkg/configstore/orgs.go:115-228 | Lists, in name order, exactly the organizations with a credential pointer and a team with intent |
| `OrgSsm.ListingIsUnique` | pkg/configstore/orgs.go:182-228 | The listing is the same whatever order parameters arrive in |
| `OrgSsm.StagingAddsOne` | pkg/configstore/orgs.go:325-351 | Staging in an empty place adds to the listing exactly the organization that reads back |
| `OrgSsm.StagingChangesOne` | pkg/configstore/orgs.go:325-351 | Staging changes the listing by what the organization then reads as, and nothing else |

## Left out

- Reconciler.BuildPlan: notes and report text, and the error for a nil document or an unknown mode, which the types exclude.
- Execution.GitHub.Execute: the error for an unknown action kind, which the action datatype excludes, and the progress lines it reports.
- Execution.GitHub.AddTeamMember: takes effect at once; the pending team membership of an invitee is not modelled.
- Execution.GitHub.SetMembership: the role an invitation carries and invitations by address, beyond their having no login.
- Pipeline.SyncedIsLeftAlone: about the full mode; the removals-only plan holds removals alone (`Safety.RemovalsOnlyVerdict`).
- Join.Run: membership and stale-directory warnings, the person-level state, and the display fields for addresses and directories.
- Join.JoinOne: the person-level state and the display fields for addresses and directories.
- Join.UnmappedWarnings: the text of the warnings beyond their subjects.
- Liveness.LivenessIndexes: nil snapshots, which the types exclude.
- Broker.ApprovedIsWhatRuns: the plan computed at each step is arbitrary, so that the world may change in any way between steps; what is computed from a given world is in Compute.
- Broker.RecordedExactlyOnce: the text and reliability of the audit sink, pausing and enabling organizations, and timers.
- BrokerRuns.ReviewedCanRun: what can happen, not that it does; fairness and the time limit of an asynchronous run.
- Plans.PlanStore.Get: execution within the age limit, which the code does not promise: the age is checked before the lock is taken.
- SsmStore.Store.Put: the revision, which the parameter service assigns, and two stores writing at once.
- SsmRefinement.RunsMatch: assumes distinct, non-empty slugs for the names in use and comma-free list items; so do SsmRefinement.ReadsAgree and what builds on it.
- NextPass.NextPassRestarts: directories, mapping and configuration read the same in both passes, and nobody else changes the organization between them.
- Staging.StagingRoundTrip: minimums beyond 64 bits, and an empty parameter prefix.
- SsmStore.RetryIff: assumes comma-free list items.
- Runs.WatchersSeeInOrder: the registry of runs by id and the eviction of old ones.
- OrgSsm.Store.ListOrgs: editing and deleting single teams, the provenance tag, and overlaying the store with configured organizations.
- DirectoryCache.CacheSet.Refresh: refresh intervals and back-off.
- Case folding and white space outside ASCII.
- YAML, SHA-256, network clients, HTTP handlers, authentication, the frontend and the command line.
- The in-memory locks of the caches and stores: each method is one atomic step.
