/** What a plan rendered from an organization can never do to it. */
module Safety {
  import opened Text
  import opened Indexing
  import opened Sorting
  import opened OrgState
  import opened Document
  import opened PlanSpec
  import opened Execution
  import opened RenderSpec
  import opened RenderMeaning
  import opened Restart

  /** The planner is given the document this render produced. */
  ghost predicate PlannedFrom(rin: RenderInputs, opts: Options, v: Verdict) {
    && RenderOf(rin).Rendered? && opts.mode == rin.mode
    && Answers(RenderOf(rin).result.doc, rin.org.name, rin.state, opts, v)
  }

  lemma PlannedForStanza(rin: RenderInputs, opts: Options, v: Verdict)
    ensures PlannedFrom(rin, opts, v) ==> AnswersStanza(StanzaFor(rin), rin.state, opts, v)
  {
    if RenderOf(rin).Rendered? {
      assert RenderOf(rin).result.doc == map[rin.org.name := StanzaFor(rin)];
    }
  }

  /** An unattended render names only people who already hold a seat. */
  lemma RemovalsOnlyNamesSeated(rin: RenderInputs, x: string)
    requires rin.mode == RemovalsOnly && x in RemovalsOnlyMembers(rin)
    ensures HasMember(rin.state.members, false, Lower(x)) || Lower(x) in Invited(rin.state.invitations)
  {
    var k := Lower(x);
    assert HasKey(RemovalsOnlyMembers(rin), k);
    RemovalsOnlyMeans(rin, k);
    if k !in Invited(rin.state.invitations) {
      var test := KeepTest(rin, PeopleByLogin(rin.roster.people));
      var y :| y in Ordinary(rin.state) && test(y) && Lower(y) == k;
      OrdinaryIsMember(rin.state, y);
    }
  }

  /** Removals-only: the render never reaches its own refusal, for any input. */
  lemma RemovalsOnlyNeverRefused(rin: RenderInputs)
    requires rin.mode == RemovalsOnly
    ensures RenderOf(rin).Rendered? && RenderOf(rin).result.adding == []
  {
    var desired, occupied := MembersFor(rin), OccupiedSeats(rin.state);
    forall x ensures x !in Missing(desired, occupied) {
      MissingMeans(desired, occupied, x);
      if x in desired {
        RemovalsOnlyNamesSeated(rin, x);
        HasKeyConcat(Ordinary(rin.state), InvitedLogins(rin.state.invitations), Lower(x));
        RoleLogins(rin.state, false, Lower(x));
        InvitedLoginsMean(rin.state.invitations, Lower(x));
      }
    }
    NonEmptyHas(Missing(desired, occupied));
  }

  /** No owner is added, and no invitation withdrawn, in either mode and for any input. */
  lemma NeverOwnersOrWithdrawals(rin: RenderInputs, a: Action)
    ensures Owes(StanzaFor(rin), rin.state, a) ==> a.kind != AddAdmin && a.kind != CancelInvite
  {
    var k := Lower(a.login);
    StanzaMeans(rin, k);
    IndexBySound(rin.state.members, MemberKey);
    if a.kind == CancelInvite && k in Invited(rin.state.invitations) {
      InvitedStay(rin, k);
    }
  }

  /** With member logins distinct up to case, nobody changes role, in either mode. */
  lemma NeverRoles(rin: RenderInputs, a: Action)
    requires MembersDistinct(rin.state.members)
    ensures Owes(StanzaFor(rin), rin.state, a) ==> a.kind != SetRole
  {
    var k := Lower(a.login);
    StanzaMeans(rin, k);
    IndexBySound(rin.state.members, MemberKey);
    if HasMember(rin.state.members, true, k) {
      var owner :| owner in rin.state.members && owner.role == RoleAdmin && Lower(owner.login) == k;
      IndexByDistinct(rin.state.members, MemberKey, owner);
    }
  }

  /** Removals-only grants nothing, for any input. */
  lemma RemovalsOnlyNeverGrants(rin: RenderInputs, a: Action)
    requires rin.mode == RemovalsOnly
    ensures Owes(StanzaFor(rin), rin.state, a) ==> !Grants(a) && a.kind != TeamRemove
  {
    var k := Lower(a.login);
    NeverOwnersOrWithdrawals(rin, a);
    if a.kind == AddMember && Owes(StanzaFor(rin), rin.state, a) {
      StanzaMeans(rin, k);
      IndexBySound(rin.state.members, MemberKey);
      var x :| x in RemovalsOnlyMembers(rin) && Lower(x) == k;
      RemovalsOnlyNamesSeated(rin, x);
    }
  }

  lemma RemovalsOnlyKinds(rin: RenderInputs, a: Action)
    requires rin.mode == RemovalsOnly
    ensures Owes(StanzaFor(rin), rin.state, a) ==> !Grants(a) && (a.kind == RemoveMember || a.kind == SetRole)
    ensures Owes(StanzaFor(rin), rin.state, a) && MembersDistinct(rin.state.members) ==> a.kind == RemoveMember
  {
    RemovalsOnlyNeverGrants(rin, a);
    NeverOwnersOrWithdrawals(rin, a);
    if MembersDistinct(rin.state.members) {
      NeverRoles(rin, a);
    }
  }

  /** The plan is refused when too few owners are named, and only then. */
  ghost predicate RefusedForOwnersOnly(rin: RenderInputs, opts: Options, v: Verdict) {
    && (v.Refused? <==> |StanzaFor(rin).admins| < opts.minAdmins)
    && (v.Refused? ==> v.reason == BelowMinAdmins)
  }

  /** An unattended plan contains removals and nothing else, and can be refused
      only for naming too few owners. */
  lemma RemovalsOnlyVerdict(rin: RenderInputs, opts: Options, v: Verdict)
    requires rin.mode == RemovalsOnly
    ensures PlannedFrom(rin, opts, v) ==> RefusedForOwnersOnly(rin, opts, v)
    ensures PlannedFrom(rin, opts, v) && v.Planned? ==>
      forall a :: a in v.actions ==> a.kind == RemoveMember || a.kind == SetRole
    ensures PlannedFrom(rin, opts, v) && v.Planned? && MembersDistinct(rin.state.members) ==>
      forall a :: a in v.actions ==> a.kind == RemoveMember
  {
    var stanza := StanzaFor(rin);
    PlannedForStanza(rin, opts, v);
    forall a | Owes(stanza, rin.state, a)
      ensures !Grants(a) && (a.kind == RemoveMember || a.kind == SetRole)
      ensures MembersDistinct(rin.state.members) ==> a.kind == RemoveMember
    {
      RemovalsOnlyKinds(rin, a);
    }
  }

  lemma TakesASeat(cfg: OrgDoc, s: State, a: Action)
    ensures Owes(cfg, s, a) && a.kind == TeamRemove ==>
      a.team in cfg.teams && a.team in s.teamMembers && Lower(a.login) in ByLower(s.teamMembers[a.team]) &&
      Lower(a.login) !in TeamDesired(cfg.teams[a.team])
  {
  }

  /** A team that keeps its residents still wants each of them. */
  lemma ResidentsStay(rin: RenderInputs, name: string, k: string)
    requires name in rin.org.teams && KeepsResidents(rin, name) && name in rin.state.teamMembers
    ensures k in ByLower(rin.state.teamMembers[name]) ==> k in TeamDesired(TeamDocFor(rin, name))
  {
    TeamMeans(rin, name, k);
    ByLowerKeys(rin.state.teamMembers[name], k);
  }

  /** A pinned team, or one backed by an absent group, loses nobody. */
  lemma KeptTeamsLoseNobody(rin: RenderInputs, a: Action)
    ensures Owes(StanzaFor(rin), rin.state, a) && a.kind == TeamRemove ==>
      a.team in rin.org.teams && !KeepsResidents(rin, a.team)
  {
    TakesASeat(StanzaFor(rin), rin.state, a);
    if a.team in rin.org.teams && KeepsResidents(rin, a.team) && a.team in rin.state.teamMembers {
      ResidentsStay(rin, a.team, Lower(a.login));
    }
  }

  /** A plan from a render can be refused only for too few owners, given member
      lists for the configured teams that exist. */
  lemma OnlyOwnerGuard(rin: RenderInputs, opts: Options, v: Verdict)
    requires rin.mode == Full ==> forall name :: name in rin.org.teams && name in rin.state.teams ==> name in rin.state.teamMembers
    ensures PlannedFrom(rin, opts, v) ==> RefusedForOwnersOnly(rin, opts, v)
    ensures PlannedFrom(rin, opts, v) && v.Planned? ==> IsPlan(StanzaFor(rin), rin.state, v.actions)
  {
    PlannedForStanza(rin, opts, v);
    if rin.mode == RemovalsOnly {
      RemovalsOnlyVerdict(rin, opts, v);
    } else {
      assert forall slug :: !MissingTeam(StanzaFor(rin), rin.state, slug);
    }
  }

  // ----- owners -----

  ghost function OwnerKeys(members: seq<Member>): set<string> {
    set m | m in members && m.role == RoleAdmin :: Lower(m.login)
  }

  lemma OwnerKeysMean(members: seq<Member>, k: string)
    ensures k in OwnerKeys(members) <==> HasMember(members, true, k)
  {
  }

  /** Somebody who is no owner leaving takes no owner along. */
  lemma LeaverIsNoOwner(members: seq<Member>, k: string)
    requires k !in OwnerKeys(members)
    ensures OwnerKeys(Without(members, MemberKey, k)) == OwnerKeys(members)
  {
    WithoutSound(members, MemberKey, k);
    forall q | q in OwnerKeys(members) ensures q in OwnerKeys(Without(members, MemberKey, k)) {
      var m :| m in members && m.role == RoleAdmin && Lower(m.login) == q;
      assert m in Without(members, MemberKey, k);
    }
  }

  /** One write of a rendered plan leaves the owners as they were. */
  lemma OwnersStayOneStep(cascade: bool, rin: RenderInputs, a: Action, s: State, s': State)
    requires MembersDistinct(rin.state.members) && Owes(StanzaFor(rin), rin.state, a)
    requires OwnerKeys(s.members) == OwnerKeys(rin.state.members) && Current(s.members).Keys <= Current(rin.state.members).Keys
    requires Step(cascade, s, a, s')
    ensures OwnerKeys(s'.members) == OwnerKeys(rin.state.members)
    ensures Current(s'.members).Keys <= Current(rin.state.members).Keys
  {
    OwedIsNoOwner(rin, a);
    StepAdmitsNobody(cascade, s, a, s');
    OwnersThroughWrite(cascade, rin.state, a, s, s');
  }

  /** A rendered plan names owners in no removal, makes none, and changes no role. */
  lemma OwedIsNoOwner(rin: RenderInputs, a: Action)
    requires MembersDistinct(rin.state.members) && Owes(StanzaFor(rin), rin.state, a)
    ensures a.kind != AddAdmin && a.kind != SetRole
    ensures a.kind == RemoveMember ==> Lower(a.login) !in OwnerKeys(rin.state.members)
    ensures a.kind == AddMember ==> Lower(a.login) !in Current(rin.state.members)
  {
    NeverOwnersOrWithdrawals(rin, a);
    NeverRoles(rin, a);
    StanzaMeans(rin, Lower(a.login));
    OwnerKeysMean(rin.state.members, Lower(a.login));
  }

  lemma OwnersThroughWrite(cascade: bool, s0: State, a: Action, s: State, s': State)
    requires OwnerKeys(s.members) == OwnerKeys(s0.members) && Current(s.members).Keys <= Current(s0.members).Keys
    requires a.kind != AddAdmin && a.kind != SetRole && Step(cascade, s, a, s')
    requires a.kind == RemoveMember ==> Lower(a.login) !in OwnerKeys(s0.members)
    requires a.kind == AddMember ==> Lower(a.login) !in Current(s0.members)
    ensures OwnerKeys(s'.members) == OwnerKeys(s0.members)
  {
    if a.kind == RemoveMember {
      LeaverIsNoOwner(s.members, Lower(a.login));
    }
  }

  lemma {:induction false} OwnersStay(cascade: bool, rin: RenderInputs, plan: seq<Action>, states: seq<State>, k: nat)
    requires MembersDistinct(rin.state.members) && forall a :: a in plan ==> Owes(StanzaFor(rin), rin.state, a)
    requires k <= |plan| && Trace(cascade, states, plan[..k]) && states[0] == rin.state
    ensures OwnerKeys(states[k].members) == OwnerKeys(rin.state.members)
    ensures Current(states[k].members).Keys <= Current(rin.state.members).Keys
  {
    if k > 0 {
      TracePrefix(cascade, states, plan, k);
      OwnersStay(cascade, rin, plan, states[..k], k - 1);
      assert plan[k - 1] in plan;
      OwnersStayOneStep(cascade, rin, plan[k - 1], states[k - 1], states[k]);
    }
  }

  /** Owners never move: however far a rendered plan runs, the owner set is the one
      it started from. */
  lemma OwnersNeverMove(cascade: bool, rin: RenderInputs, opts: Options, plan: seq<Action>, states: seq<State>, k: nat)
    requires PlannedFrom(rin, opts, Planned(plan)) && MembersDistinct(rin.state.members)
    requires k <= |plan| && Trace(cascade, states, plan[..k]) && states[0] == rin.state
    ensures OwnerKeys(states[k].members) == OwnerKeys(rin.state.members)
  {
    PlannedForStanza(rin, opts, Planned(plan));
    OwnersStay(cascade, rin, plan, states, k);
  }

  // ----- rendered plans restart -----

  lemma OrdinaryIsCurrent(state: State, test: string -> bool, k: string)
    requires HasOrdinary(state, test, k)
    ensures k in Current(state.members)
  {
    var x :| x in Ordinary(state) && test(x) && Lower(x) == k;
    OrdinaryIsMember(state, x);
    IndexBySound(state.members, MemberKey);
  }

  /** A rendered plan invites only people the roster puts in the organization. */
  lemma RenderedInvitesPeople(rin: RenderInputs, a: Action)
    requires Owes(StanzaFor(rin), rin.state, a) && IsInvite(a)
    ensures exists p :: p in rin.roster.people && Lower(p.github) == Lower(a.login) && Belongs(rin, p)
  {
    var k := Lower(a.login);
    NeverOwnersOrWithdrawals(rin, a);
    StanzaMeans(rin, k);
    IndexBySound(rin.state.members, MemberKey);
    if rin.mode == RemovalsOnly {
      RemovalsOnlyNeverGrants(rin, a);
    } else {
      FullMeans(rin, k);
      if HasOrdinary(rin.state, ExceptionTest(rin), k) {
        OrdinaryIsCurrent(rin.state, ExceptionTest(rin), k);
      }
      if HasOrdinary(rin.state, UnknownTest(rin, PeopleByLogin(rin.roster.people)), k) {
        OrdinaryIsCurrent(rin.state, UnknownTest(rin, PeopleByLogin(rin.roster.people)), k);
      }
      var p :| p in rin.roster.people && BelongTest(rin)(p) && Lower(p.github) == k;
      assert Belongs(rin, p);
    }
  }

  /** The rendered teams keep a seat for the login k: it sits in a team whose
      residents stay, or that it is still wanted in. */
  ghost predicate KeepsSeat(rin: RenderInputs, name: string, k: string) {
    && rin.mode == Full && name in rin.org.teams && name in rin.state.teams && name in rin.state.teamMembers
    && HasKey(rin.state.teamMembers[name], k)
    && (KeepsResidents(rin, name) || HasPerson(rin.roster.people, WantsTeam(rin, name), k))
  }

  lemma TornIffKeepsSeat(rin: RenderInputs, name: string, k: string)
    ensures Torn(StanzaFor(rin), rin.state, name, k) <==>
      KeepsSeat(rin, name, k) && k in Current(rin.state.members) && k !in Desired(StanzaFor(rin))
  {
    if name in StanzaFor(rin).teams && name in rin.state.teamMembers {
      TeamMeans(rin, name, k);
      ByLowerKeys(rin.state.teamMembers[name], k);
    }
  }

  /** What a rendered run has done so far is clean: nobody without a login was
      invited, and nobody evicted is still kept a seat. */
  ghost predicate RenderedClean(cascade: bool, rin: RenderInputs, done: seq<Action>) {
    InvitesNamed(done) && !exists name, q :: q in EvictedBy(cascade, done) && KeepsSeat(rin, name, q)
  }

  lemma CleanIsRenderedClean(cascade: bool, rin: RenderInputs, plan: seq<Action>, k: nat)
    requires IsPlan(StanzaFor(rin), rin.state, plan) && k <= |plan|
    ensures Clean(cascade, StanzaFor(rin), rin.state, plan[..k]) <==> RenderedClean(cascade, rin, plan[..k])
  {
    forall name, q | q in EvictedBy(cascade, plan[..k])
      ensures Torn(StanzaFor(rin), rin.state, name, q) <==> KeepsSeat(rin, name, q)
    {
      EvictedWasDropped(cascade, StanzaFor(rin), rin.state, plan, k, q);
      TornIffKeepsSeat(rin, name, q);
    }
  }

  lemma EvictedWasDropped(cascade: bool, cfg: OrgDoc, s: State, plan: seq<Action>, k: nat, q: string)
    requires IsPlan(cfg, s, plan) && k <= |plan| && q in EvictedBy(cascade, plan[..k])
    ensures q in Current(s.members) && q !in Desired(cfg)
  {
    var a :| a in plan[..k] && a.kind == RemoveMember && Lower(a.login) == q;
    assert a in plan && Owes(cfg, s, a);
  }

  /** From directories to GitHub and back, with or without the team cascade: a
      rendered plan stopped after any write and planned again gives what was left of
      it, if and only if what was done is clean. */
  lemma RenderedPlanRestarts(cascade: bool, rin: RenderInputs, opts: Options, plan: seq<Action>, states: seq<State>, k: nat, v: Verdict)
    requires PlannedFrom(rin, opts, Planned(plan)) && InvitationsDistinct(rin.state.invitations)
    requires k <= |plan| && Trace(cascade, states, plan[..k]) && states[0] == rin.state
    ensures Answers(RenderOf(rin).result.doc, rin.org.name, states[k], opts, Planned(LeftAfter(cascade, plan, k))) <==>
      RenderedClean(cascade, rin, plan[..k])
    ensures RenderedClean(cascade, rin, plan[..k]) ==>
      (Answers(RenderOf(rin).result.doc, rin.org.name, states[k], opts, v) <==> v == Planned(LeftAfter(cascade, plan, k)))
  {
    PlannedForStanza(rin, opts, Planned(plan));
    CleanIsRenderedClean(cascade, rin, plan, k);
    RestartAnywhere(cascade, RenderOf(rin).result.doc, rin.org.name, opts, plan, states, k, v);
  }

  /** An unattended plan is clean however far it ran, so a sweep always restarts. */
  lemma SweepsAreClean(cascade: bool, rin: RenderInputs, plan: seq<Action>, k: nat)
    requires rin.mode == RemovalsOnly && IsPlan(StanzaFor(rin), rin.state, plan) && k <= |plan|
    ensures RenderedClean(cascade, rin, plan[..k])
  {
    forall a | a in plan[..k] ensures !IsInvite(a) {
      assert a in plan;
      RemovalsOnlyNeverGrants(rin, a);
    }
  }

  /** A rendered plan invites nobody without a login when no person of the roster
      lacks one. */
  lemma RenderedInvitesNamed(rin: RenderInputs, plan: seq<Action>)
    requires IsPlan(StanzaFor(rin), rin.state, plan) && forall p :: p in rin.roster.people ==> p.github != ""
    ensures InvitesNamed(plan)
  {
    forall a | a in plan && IsInvite(a) ensures a.login != "" {
      RenderedInvitesPeople(rin, a);
      var p :| p in rin.roster.people && Lower(p.github) == Lower(a.login);
      LowerEmpty(p.github);
      LowerEmpty(a.login);
    }
  }
}
