/** Every pass of the service reads the organization again, joins again and renders
    again (pkg/broker/broker.go, compute; pkg/broker/removals.go, sweepOrg). What the
    next pass owes after a run that stopped midway. */
module NextPass {
  import opened Text
  import opened Indexing
  import Sorting
  import opened OrgState
  import opened Config
  import opened Mapping
  import opened Document
  import opened PlanSpec
  import opened Execution
  import opened Restart
  import opened Liveness
  import opened Roster
  import opened RenderSpec
  import opened RenderMeaning
  import opened Safety
  import opened Pipeline

  // ----- the inputs of the next pass -----

  /** The same directories, mapping and configuration, and the organization as it is
      now. */
  function Next(inp: Inputs, org: string, s: State): Inputs {
    inp.(orgs := inp.orgs[org := s])
  }

  /** rin' is the next pass over the organization in the state s. */
  ghost predicate Follows(inp: Inputs, rin: RenderInputs, s: State, rin': RenderInputs) {
    && Wired(inp, rin) && Wired(Next(inp, rin.org.name, s), rin')
    && rin' == rin.(state := s, roster := rin'.roster)
  }

  /** Records are made of accounts, whatever the organizations. */
  lemma {:induction false} SameRecords(inp: Inputs, other: Inputs, accounts: seq<Account>)
    requires other == inp.(orgs := other.orgs)
    ensures Records(other, accounts) == Records(inp, accounts)
  {
    if accounts != [] {
      SameRecords(inp, other, accounts[..|accounts| - 1]);
    }
  }

  /** What a person is wanted in, and on what evidence, does not depend on the state of
      any organization. */
  lemma SameEvidence(inp: Inputs, other: Inputs, org: Org, e: Entry)
    requires other == inp.(orgs := other.orgs)
    ensures StandingIn(other, org, e).live == StandingIn(inp, org, e).live
    ensures StandingIn(other, org, e).desiredTeams == StandingIn(inp, org, e).desiredTeams
    ensures PersonOf(other, e).displayOnly == PersonOf(inp, e).displayOnly
    ensures PersonOf(other, e).sources == PersonOf(inp, e).sources
    ensures PersonOf(other, e).expectedSources == PersonOf(inp, e).expectedSources
  {
    SameRecords(inp, other, Accounts(inp.snapshots));
    assert Resolve(other, e) == Resolve(inp, e);
  }

  lemma SameLeaver(inp: Inputs, rin: RenderInputs, s: State, rin': RenderInputs, e: Entry)
    requires Follows(inp, rin, s, rin')
    ensures Leaver(Next(inp, rin.org.name, s), rin', e) <==> Leaver(inp, rin, e)
  {
    SameEvidence(inp, Next(inp, rin.org.name, s), rin.org, e);
  }

  // ----- who is wanted, said of entries -----

  /** The entry is wanted in the team. */
  ghost predicate WantsSeat(inp: Inputs, org: Org, name: string, e: Entry) {
    e in inp.entries && name in StandingIn(inp, org, e).desiredTeams
  }

  /** Some entry of the login k is wanted in the team. */
  ghost predicate Wanted(inp: Inputs, org: Org, name: string, k: string) {
    exists e :: WantsSeat(inp, org, name, e) && Lower(e.github) == k
  }

  lemma WantedMeans(inp: Inputs, rin: RenderInputs, name: string, k: string)
    requires Wired(inp, rin)
    ensures HasPerson(rin.roster.people, WantsTeam(rin, name), k) <==> Wanted(inp, rin.org, name, k)
  {
    forall e | e in inp.entries && Lower(e.github) == k
      ensures HasPerson(rin.roster.people, WantsTeam(rin, name), k) <==> name in StandingIn(inp, rin.org, e).desiredTeams
    {
      OnePerson(inp, rin, WantsTeam(rin, name), e);
      StandingOf(inp, rin, e);
    }
    if HasPerson(rin.roster.people, WantsTeam(rin, name), k) {
      var p :| p in rin.roster.people && WantsTeam(rin, name)(p) && Lower(p.github) == k;
      RosterMeans(inp, rin.roster, p);
    }
  }

  lemma SameWanted(inp: Inputs, rin: RenderInputs, s: State, rin': RenderInputs, name: string, k: string)
    requires Follows(inp, rin, s, rin')
    ensures HasPerson(rin'.roster.people, WantsTeam(rin', name), k) <==> HasPerson(rin.roster.people, WantsTeam(rin, name), k)
  {
    var next := Next(inp, rin.org.name, s);
    WantedMeans(inp, rin, name, k);
    WantedMeans(next, rin', name, k);
    forall e {
      SameEvidence(inp, next, rin.org, e);
    }
  }

  function Addition(e: Entry): Action {
    Action(AddMember, e.github, "", false, 0)
  }

  function Seat(e: Entry, name: string): Action {
    Action(TeamAdd, e.github, name, false, 0)
  }

  /** An entry whose person belongs, holding no seat and no invitation. */
  ghost predicate Outsider(inp: Inputs, rin: RenderInputs, e: Entry) {
    && e in inp.entries && Belongs(rin, PersonOf(inp, e))
    && Lower(e.github) !in Current(rin.state.members) && Lower(e.github) !in Invited(rin.state.invitations)
  }

  lemma {:induction false} WithInvitedElements(list: seq<string>, invitations: seq<Invitation>, x: string)
    ensures x in WithInvited(list, invitations) ==> x in list || Lower(x) in Invited(invitations)
  {
    if invitations != [] {
      WithInvitedElements(list, invitations[..|invitations| - 1], x);
    }
  }

  /** A login the full document wants and nobody has yet is an entry's, in its
      spelling. */
  lemma OutsiderSpelling(inp: Inputs, rin: RenderInputs, x: string)
    requires Wired(inp, rin) && x in FullMembers(rin)
    requires Lower(x) !in Current(rin.state.members) && Lower(x) !in Invited(rin.state.invitations)
    ensures exists e :: Outsider(inp, rin, e) && e.github == x
  {
    var exempt := Filter(Ordinary(rin.state), ExceptionTest(rin));
    var people := Filter(rin.roster.people, BelongTest(rin));
    var unknown := Filter(Ordinary(rin.state), UnknownTest(rin, PeopleByLogin(rin.roster.people)));
    WithInvitedElements(exempt + Githubs(people) + unknown, rin.state.invitations, x);
    FilterSound(Ordinary(rin.state), ExceptionTest(rin));
    FilterSound(Ordinary(rin.state), UnknownTest(rin, PeopleByLogin(rin.roster.people)));
    FilterSound(rin.roster.people, BelongTest(rin));
    OrdinaryIsMember(rin.state, x);
    IndexBySound(rin.state.members, MemberKey);
    assert x in Githubs(people);
    GithubsMean(people, x);
    var p :| p in people && p.github == x;
    RosterMeans(inp, rin.roster, p);
  }

  /** An invitation a rendered plan owes is that of an outsider who belongs, as the
      mapping spells them. */
  lemma AdditionIff(inp: Inputs, rin: RenderInputs, a: Action)
    requires Wired(inp, rin) && rin.mode == Full && a.kind == AddMember
    ensures Owes(StanzaFor(rin), rin.state, a) <==> exists e :: Outsider(inp, rin, e) && a == Addition(e)
  {
    if Owes(StanzaFor(rin), rin.state, a) {
      OwedSpelling(inp, rin, a);
    }
    forall e | Outsider(inp, rin, e) && a == Addition(e) ensures Owes(StanzaFor(rin), rin.state, a) {
      OutsiderWanted(inp, rin, e);
      var b := Action(AddMember, Desired(StanzaFor(rin))[Lower(e.github)].login, "", false, 0);
      DesiredSound(StanzaFor(rin));
      assert Owes(StanzaFor(rin), rin.state, b);
      OwedSpelling(inp, rin, b);
      var f :| Outsider(inp, rin, f) && b == Addition(f);
      EntryOfLogin(inp.entries, e, f);
    }
  }

  lemma OwedSpelling(inp: Inputs, rin: RenderInputs, a: Action)
    requires Wired(inp, rin) && rin.mode == Full && a.kind == AddMember && Owes(StanzaFor(rin), rin.state, a)
    ensures exists e :: Outsider(inp, rin, e) && a == Addition(e)
  {
    var k := Lower(a.login);
    DesiredSound(StanzaFor(rin));
    StanzaMeans(rin, k);
    IndexBySound(rin.state.members, MemberKey);
    SortedUniqueKeys(RenderSpec.Owners(rin.state), k);
    SortedUniqueKeys(FullMembers(rin), k);
    ByLowerKeys(StanzaFor(rin).admins, k);
    assert a.login in FullMembers(rin);
    OutsiderSpelling(inp, rin, a.login);
  }

  /** A seat the rendered team wants and nobody holds yet is an entry's, in its
      spelling. */
  lemma SeatSpelling(inp: Inputs, rin: RenderInputs, name: string, k: string)
    requires Wired(inp, rin) && name in rin.org.teams && k in TeamDesired(TeamDocFor(rin, name))
    requires !HasKey(Residents(rin.state, name), k)
    ensures exists e :: WantsSeat(inp, rin.org, name, e) && TeamDesired(TeamDocFor(rin, name))[k] == e.github && Lower(e.github) == k
  {
    var team, people := TeamDocFor(rin, name), Filter(rin.roster.people, WantsTeam(rin, name));
    var x := TeamDesired(team)[k];
    TeamDesiredSound(team);
    SortedUniqueKeys(TeamLogins(rin, name), k);
    assert x in TeamLogins(rin, name) && Lower(x) == k;
    assert x in Githubs(people);
    GithubsMean(people, x);
    FilterSound(rin.roster.people, WantsTeam(rin, name));
    var p :| p in people && p.github == x;
    RosterMeans(inp, rin.roster, p);
    var e :| e in inp.entries && p == PersonOf(inp, e);
    StandingOf(inp, rin, e);
  }

  // ----- what a rendered run does to the organization -----

  /** The folded logins invited. */
  ghost function InvitedBy(done: seq<Action>): set<string> {
    set a | a in done && a.kind == AddMember :: Lower(a.login)
  }

  /** The organization after some actions of a rendered plan, teams' seats aside: the
      removed are gone, the invited are invited, and owners are as they were. */
  ghost predicate Progressed(s0: State, done: seq<Action>, s: State) {
    Moved(s0, EvictedBy(true, done), InvitedBy(done), s)
  }

  ghost predicate Moved(s0: State, gone: set<string>, asked: set<string>, s: State) {
    && Current(s.members) == Current(s0.members) - gone
    && Invited(s.invitations).Keys == Invited(s0.invitations).Keys + asked
    && RenderSpec.Owners(s) == RenderSpec.Owners(s0)
    && s.teams == s0.teams
  }

  lemma DoneStep(plan: seq<Action>, k: nat)
    requires k < |plan|
    ensures InvitedBy(plan[..k + 1]) == InvitedBy(plan[..k]) + if plan[k].kind == AddMember then {Lower(plan[k].login)} else {}
  {
    assert plan[..k + 1] == plan[..k] + [plan[k]];
    forall q | q in InvitedBy(plan[..k]) || (plan[k].kind == AddMember && q == Lower(plan[k].login))
      ensures q in InvitedBy(plan[..k + 1])
    {
      if q in InvitedBy(plan[..k]) {
        var a :| a in plan[..k] && a.kind == AddMember && Lower(a.login) == q;
        assert a in plan[..k + 1];
      } else {
        assert plan[k] in plan[..k + 1];
      }
    }
  }

  lemma {:induction false} OwnersWithout(members: seq<Member>, k: string)
    requires !HasMember(members, true, k)
    ensures Filter(Without(members, MemberKey, k), HasRole(true)) == Filter(members, HasRole(true))
  {
    if members != [] {
      var rest, last := members[..|members| - 1], members[|members| - 1];
      assert members == rest + [last] && last in members;
      assert !HasMember(rest, true, k);
      OwnersWithout(rest, k);
      var kept := Without(rest, MemberKey, k);
      assert (kept + [last])[..|kept|] == kept;
    }
  }

  /** Somebody who is no owner leaving. */
  lemma StepOut(cascade: bool, s0: State, s: State, login: string)
    requires RenderSpec.Owners(s) == RenderSpec.Owners(s0) && !HasMember(s0.members, true, Lower(login))
    ensures var s' := MemberRemoved(cascade, s, login);
      && Current(s'.members) == Current(s.members) - {Lower(login)} && RenderSpec.Owners(s') == RenderSpec.Owners(s0)
  {
    IndexByWithout(s.members, MemberKey, Lower(login));
    RoleLogins(s, true, Lower(login));
    RoleLogins(s0, true, Lower(login));
    OwnersWithout(s.members, Lower(login));
  }

  lemma StepIn(s0: State, gone: set<string>, asked: set<string>, s: State, a: Action, s': State)
    requires Moved(s0, gone, asked, s) && a.kind == AddMember && a.login != "" && Lower(a.login) !in Current(s0.members)
    requires MembershipSet(s, a.login, a.admin, s')
    ensures s'.members == s.members && s'.teams == s.teams
    ensures Invited(s'.invitations).Keys == Invited(s.invitations).Keys + {Lower(a.login)}
  {
    var id :| FreshId(s.invitations, id) && s' == Invite(s, id, a.login);
    InviteInvited(s, id, a.login);
  }

  /** No owner leaving, somebody outside with a login invited, or a team's seat. */
  ghost predicate Writable(s0: State, a: Action) {
    match a.kind
    case RemoveMember => !HasMember(s0.members, true, Lower(a.login))
    case AddMember => a.login != "" && Lower(a.login) !in Current(s0.members)
    case _ => a.kind in {TeamAdd, TeamRemove}
  }

  lemma WrittenKinds(rin: RenderInputs, a: Action)
    requires MembersDistinct(rin.state.members) && Owes(StanzaFor(rin), rin.state, a) && (IsInvite(a) ==> a.login != "")
    ensures Writable(rin.state, a)
  {
    NeverOwnersOrWithdrawals(rin, a);
    NeverRoles(rin, a);
    StanzaMeans(rin, Lower(a.login));
  }

  lemma TeamWriteKeeps(cascade: bool, s: State, a: Action, s': State)
    requires a.kind in {TeamAdd, TeamRemove} && Step(cascade, s, a, s')
    ensures s'.members == s.members && s'.invitations == s.invitations && s'.teams == s.teams
  {
  }

  lemma WriteMoves(cascade: bool, s0: State, gone: set<string>, asked: set<string>, s: State, a: Action, s': State)
    requires Writable(s0, a) && Moved(s0, gone, asked, s) && Step(cascade, s, a, s')
    ensures Moved(s0, gone + (if a.kind == RemoveMember then {Lower(a.login)} else {}),
      asked + (if a.kind == AddMember then {Lower(a.login)} else {}), s')
  {
    assert gone + {} == gone && asked + {} == asked;
    if a.kind == RemoveMember {
      StepOut(cascade, s0, s, a.login);
      OneGone(s0, gone, asked, s, a.login, s');
    } else if a.kind == AddMember {
      StepIn(s0, gone, asked, s, a, s');
    } else {
      TeamWriteKeeps(cascade, s, a, s');
    }
  }

  lemma OneGone(s0: State, gone: set<string>, asked: set<string>, s: State, login: string, s': State)
    requires Moved(s0, gone, asked, s) && s'.invitations == s.invitations && s'.teams == s.teams
    requires Current(s'.members) == Current(s.members) - {Lower(login)} && RenderSpec.Owners(s') == RenderSpec.Owners(s0)
    ensures Moved(s0, gone + {Lower(login)}, asked, s')
  {
    assert Current(s0.members) - gone - {Lower(login)} == Current(s0.members) - (gone + {Lower(login)});
  }

  /** One write of a rendered plan. */
  lemma OneWrite(cascade: bool, rin: RenderInputs, plan: seq<Action>, k: nat, s: State, s': State)
    requires MembersDistinct(rin.state.members) && IsPlan(StanzaFor(rin), rin.state, plan) && InvitesNamed(plan)
    requires k < |plan| && Progressed(rin.state, plan[..k], s) && Step(cascade, s, plan[k], s')
    ensures Progressed(rin.state, plan[..k + 1], s')
  {
    assert plan[k] in plan;
    WrittenKinds(rin, plan[k]);
    DoneStep(plan, k);
    EvictedStep(true, plan, k);
    WriteMoves(cascade, rin.state, EvictedBy(true, plan[..k]), InvitedBy(plan[..k]), s, plan[k], s');
  }

  lemma {:induction false} RunProgresses(cascade: bool, rin: RenderInputs, plan: seq<Action>, states: seq<State>, k: nat)
    requires MembersDistinct(rin.state.members) && IsPlan(StanzaFor(rin), rin.state, plan) && InvitesNamed(plan)
    requires k <= |plan| && Trace(cascade, states, plan[..k]) && states[0] == rin.state
    ensures Progressed(rin.state, plan[..k], states[k])
  {
    if k == 0 {
      assert plan[..0] == [];
    } else {
      TracePrefix(cascade, states, plan, k);
      RunProgresses(cascade, rin, plan, states[..k], k - 1);
      OneWrite(cascade, rin, plan, k - 1, states[k - 1], states[k]);
    }
  }

  // ----- what the next pass owes -----

  /** The state s a run of the plan stopped in after k actions, as the next pass finds it. */
  ghost predicate Stopped(cascade: bool, inp: Inputs, rin: RenderInputs, plan: seq<Action>, k: nat, s: State, rin': RenderInputs) {
    && Follows(inp, rin, s, rin') && IsPlan(StanzaFor(rin), rin.state, plan) && k <= |plan|
    && Reached(cascade, StanzaFor(rin), rin.state, plan, k, s)
    && Progressed(rin.state, plan[..k], s)
  }

  /** An action of the plan is left exactly when not done. */
  lemma LeftIffNotDone(plan: seq<Action>, k: nat, b: Action)
    requires StrictlySorted(plan) && k <= |plan|
    ensures b in plan[k..] <==> b in plan && b !in plan[..k]
  {
    assert plan == plan[..k] + plan[k..];
    if b in plan[..k] {
      DoneIsNotLeft(plan, k, b);
    }
  }

  /** Removed so far: the removals done, whatever the spelling. */
  lemma RemovedSoFar(cfg: OrgDoc, s0: State, plan: seq<Action>, k: nat, login: string)
    requires IsPlan(cfg, s0, plan) && k <= |plan| && Removal(login) in plan
    ensures Lower(login) in EvictedBy(true, plan[..k]) <==> Removal(login) in plan[..k]
  {
    if Lower(login) in EvictedBy(true, plan[..k]) {
      var a :| a in plan[..k] && a.kind == RemoveMember && Lower(a.login) == Lower(login);
      assert a in plan;
      OwedKeysDistinct(cfg, s0, a, Removal(login));
    }
  }

  lemma InvitedSoFar(cfg: OrgDoc, s0: State, plan: seq<Action>, k: nat, a: Action)
    requires IsPlan(cfg, s0, plan) && k <= |plan| && a in plan && a.kind == AddMember
    ensures Lower(a.login) in InvitedBy(plan[..k]) <==> a in plan[..k]
  {
    if Lower(a.login) in InvitedBy(plan[..k]) {
      var b :| b in plan[..k] && b.kind == AddMember && Lower(b.login) == Lower(a.login);
      assert b in plan;
      OwedKeysDistinct(cfg, s0, a, b);
    }
  }

  /** Whoever a plan has removed maps to a leaver, and to nobody else. */
  lemma EvictedIsLeaver(inp: Inputs, rin: RenderInputs, plan: seq<Action>, k: nat, e: Entry)
    requires Wired(inp, rin) && IsPlan(StanzaFor(rin), rin.state, plan) && k <= |plan|
    requires e in inp.entries && Lower(e.github) in EvictedBy(true, plan[..k])
    ensures Leaver(inp, rin, e)
  {
    var a :| a in plan[..k] && a.kind == RemoveMember && Lower(a.login) == Lower(e.github);
    assert a in plan;
    RemovalOfAction(StanzaFor(rin), rin.state, a);
    RemovedIff(inp, rin, a.login);
    var f :| f in inp.entries && Lower(f.github) == Lower(a.login) && Leaver(inp, rin, f);
    EntryOfLogin(inp.entries, e, f);
  }

  lemma InvitedWasOutside(cfg: OrgDoc, s0: State, plan: seq<Action>, k: nat, q: string)
    requires IsPlan(cfg, s0, plan) && k <= |plan| && q in InvitedBy(plan[..k])
    ensures q !in Current(s0.members)
  {
    var a :| a in plan[..k] && a.kind == AddMember && Lower(a.login) == q;
    assert a in plan && Owes(cfg, s0, a);
  }

  /** The next pass removes whoever the run had still to remove. */
  lemma RemovalsLeft(cascade: bool, inp: Inputs, rin: RenderInputs, plan: seq<Action>, k: nat, s: State, rin': RenderInputs, login: string)
    requires Stopped(cascade, inp, rin, plan, k, s, rin')
    ensures Owes(StanzaFor(rin'), s, Removal(login)) <==> Removal(login) in plan[k..]
  {
    var q := Lower(login);
    RemovedIff(inp, rin, login);
    RemovedIff(Next(inp, rin.org.name, s), rin', login);
    LeftIffNotDone(plan, k, Removal(login));
    forall e {
      SameLeaver(inp, rin, s, rin', e);
    }
    SeatedStill(rin.state, plan[..k], s, login);
    if q in InvitedBy(plan[..k]) {
      InvitedWasOutside(StanzaFor(rin), rin.state, plan, k, q);
      CurrentIs(rin.state.members, login);
    }
    if Removal(login) in plan {
      RemovedSoFar(StanzaFor(rin), rin.state, plan, k, login);
    }
  }

  lemma SeatedStill(s0: State, done: seq<Action>, s: State, login: string)
    requires MembersDistinct(s0.members) && MembersDistinct(s.members) && Progressed(s0, done, s)
    ensures Member(login, RoleMember) in s.members <==>
      Member(login, RoleMember) in s0.members && Lower(login) !in EvictedBy(true, done)
  {
    var m := Member(login, RoleMember);
    IndexBySound(s0.members, MemberKey);
    IndexBySound(s.members, MemberKey);
    if m in s.members {
      IndexByDistinct(s.members, MemberKey, m);
      assert Current(s0.members)[MemberKey(m)] == m;
    }
    if m in s0.members {
      IndexByDistinct(s0.members, MemberKey, m);
      assert MemberKey(m) !in EvictedBy(true, done) ==> Current(s.members)[MemberKey(m)] == m;
    }
  }

  /** Whoever had no seat belongs now exactly when they did. */
  lemma SameBelongs(inp: Inputs, rin: RenderInputs, s: State, rin': RenderInputs, e: Entry)
    requires Follows(inp, rin, s, rin')
    requires Lower(e.github) !in Current(rin.state.members) && Lower(e.github) !in Invited(rin.state.invitations)
    requires Lower(e.github) !in Current(s.members) && Lower(e.github) !in Invited(s.invitations)
    ensures Belongs(rin', PersonOf(Next(inp, rin.org.name, s), e)) <==> Belongs(rin, PersonOf(inp, e))
  {
    var next := Next(inp, rin.org.name, s);
    SameEvidence(inp, next, rin.org, e);
    StandingOf(inp, rin, e);
    StandingOf(next, rin', e);
    StandingFlags(inp, rin, e);
    StandingFlags(next, rin', e);
  }

  /** A leaver without a seat does not belong. */
  lemma LeaverStaysOut(inp: Inputs, rin: RenderInputs, e: Entry)
    requires Wired(inp, rin) && Leaver(inp, rin, e)
    ensures !Belongs(rin, PersonOf(inp, e))
  {
    StandingOf(inp, rin, e);
  }

  /** Who is outside after the run was outside before it, or has been removed. */
  lemma OutsiderLeft(cascade: bool, inp: Inputs, rin: RenderInputs, plan: seq<Action>, k: nat, s: State, rin': RenderInputs, e: Entry)
    requires Stopped(cascade, inp, rin, plan, k, s, rin')
    ensures Outsider(Next(inp, rin.org.name, s), rin', e) <==>
      Outsider(inp, rin, e) && Lower(e.github) !in InvitedBy(plan[..k])
  {
    var q := Lower(e.github);
    if e in inp.entries {
      if q in EvictedBy(true, plan[..k]) {
        EvictedIsLeaver(inp, rin, plan, k, e);
        SameLeaver(inp, rin, s, rin', e);
        LeaverStaysOut(inp, rin, e);
        LeaverStaysOut(Next(inp, rin.org.name, s), rin', e);
      } else if q !in Current(s.members) && q !in Invited(s.invitations) {
        SameBelongs(inp, rin, s, rin', e);
      }
    }
  }

  /** The next pass invites whoever the run had still to invite. */
  lemma AdditionsLeft(cascade: bool, inp: Inputs, rin: RenderInputs, plan: seq<Action>, k: nat, s: State, rin': RenderInputs, a: Action)
    requires Stopped(cascade, inp, rin, plan, k, s, rin') && rin.mode == Full && a.kind == AddMember
    ensures Owes(StanzaFor(rin'), s, a) <==> a in plan[k..]
  {
    AdditionIff(inp, rin, a);
    AdditionIff(Next(inp, rin.org.name, s), rin', a);
    LeftIffNotDone(plan, k, a);
    forall e {
      OutsiderLeft(cascade, inp, rin, plan, k, s, rin', e);
    }
    if a in plan {
      InvitedSoFar(StanzaFor(rin), rin.state, plan, k, a);
    }
  }

  // ----- seats in teams -----

  lemma SameKept(inp: Inputs, rin: RenderInputs, s: State, rin': RenderInputs, name: string)
    requires Follows(inp, rin, s, rin') && name in rin.org.teams
    ensures KeepsResidents(rin', name) <==> KeepsResidents(rin, name)
  {
  }

  /** The team's part of the document, before and after. */
  lemma TeamBothWays(inp: Inputs, rin: RenderInputs, s: State, rin': RenderInputs, name: string, k: string)
    requires Follows(inp, rin, s, rin') && name in rin.org.teams && name in rin.state.teamMembers && name in s.teamMembers
    ensures k in TeamDesired(TeamDocFor(rin, name)) <==>
      Wanted(inp, rin.org, name, k) || (KeepsResidents(rin, name) && k in ByLower(rin.state.teamMembers[name]))
    ensures k in TeamDesired(TeamDocFor(rin', name)) <==>
      Wanted(inp, rin.org, name, k) || (KeepsResidents(rin, name) && k in ByLower(s.teamMembers[name]))
  {
    TeamMeans(rin, name, k);
    TeamMeans(rin', name, k);
    SameKept(inp, rin, s, rin', name);
    WantedMeans(inp, rin, name, k);
    SameWanted(inp, rin, s, rin', name, k);
    ByLowerKeys(rin.state.teamMembers[name], k);
    ByLowerKeys(s.teamMembers[name], k);
  }

  /** The team the document names, if it does. */
  lemma StanzaTeam(rin: RenderInputs, name: string)
    ensures name in StanzaFor(rin).teams <==> rin.mode == Full && name in rin.org.teams && name in rin.state.teams
    ensures name in StanzaFor(rin).teams ==> StanzaFor(rin).teams[name] == TeamDocFor(rin, name)
  {
  }

  /** What stopping midway leaves owed to the old document. */
  lemma StoppedOwes(cascade: bool, inp: Inputs, rin: RenderInputs, plan: seq<Action>, k: nat, s: State, rin': RenderInputs, b: Action)
    requires Stopped(cascade, inp, rin, plan, k, s, rin')
    ensures Owes(StanzaFor(rin), s, b) <==> Left(StanzaFor(rin), rin.state, EvictedBy(cascade, plan[..k]), plan[k..], b)
    ensures b in plan[k..] ==> Owes(StanzaFor(rin), rin.state, b)
    ensures s.teamMembers.Keys == rin.state.teamMembers.Keys && s.teams == rin.state.teams
  {
    LeftIffNotDone(plan, k, b);
  }

  /** A change of a team is a matter of that team alone. */
  lemma TeamChangeIs(cfg: OrgDoc, s: State, b: Action)
    requires IsTeamKind(b.kind)
    ensures Owes(cfg, s, b) <==>
      && b.team in cfg.teams && b.team in s.teamMembers
      && TeamOwed(b.team, TeamDesired(cfg.teams[b.team]), ByLower(s.teamMembers[b.team]), b)
  {
  }

  lemma LossOfTeam(b: Action, d: map<string, string>, d': map<string, string>, live0: map<string, string>, live: map<string, string>,
                   wanted: bool, keeps: bool)
    requires b.kind == TeamRemove
    requires Lower(b.login) in d <==> wanted || (keeps && Lower(b.login) in live0)
    requires Lower(b.login) in d' <==> wanted || (keeps && Lower(b.login) in live)
    requires TeamOwed(b.team, d, live, b) ==> TeamOwed(b.team, d, live0, b)
    ensures TeamOwed(b.team, d', live, b) <==> TeamOwed(b.team, d, live, b)
  {
  }

  /** The next pass takes the seats the run had still to take, but for those that left
      with their holders. */
  lemma LossesLeft(cascade: bool, inp: Inputs, rin: RenderInputs, plan: seq<Action>, k: nat, s: State, rin': RenderInputs, b: Action)
    requires Stopped(cascade, inp, rin, plan, k, s, rin') && b.kind == TeamRemove
    ensures Owes(StanzaFor(rin'), s, b) <==> b in plan[k..] && !Vanished(EvictedBy(cascade, plan[..k]), b)
  {
    var name, q := b.team, Lower(b.login);
    StoppedOwes(cascade, inp, rin, plan, k, s, rin', b);
    StanzaTeam(rin, name);
    StanzaTeam(rin', name);
    TeamChangeIs(StanzaFor(rin), rin.state, b);
    TeamChangeIs(StanzaFor(rin), s, b);
    TeamChangeIs(StanzaFor(rin'), s, b);
    if name in StanzaFor(rin).teams && name in s.teamMembers {
      TeamBothWays(inp, rin, s, rin', name, q);
      LossOfTeam(b, TeamDesired(TeamDocFor(rin, name)), TeamDesired(TeamDocFor(rin', name)),
        ByLower(rin.state.teamMembers[name]), ByLower(s.teamMembers[name]), Wanted(inp, rin.org, name, q), KeepsResidents(rin, name));
    }
  }

  /** Somebody evicted is still pinned to a team they sat in. */
  ghost predicate StillPinned(inp: Inputs, rin: RenderInputs, gone: set<string>, name: string, e: Entry) {
    && rin.mode == Full && e in inp.entries && Lower(e.github) in gone
    && name in rin.org.teams && rin.org.teams[name].pinned && HasPinned(e, rin.org.name, name)
    && name in rin.state.teams && name in rin.state.teamMembers && HasKey(rin.state.teamMembers[name], Lower(e.github))
  }

  /** A leaver is wanted where pinned, and nowhere else. */
  lemma LeaverIsWantedByPins(inp: Inputs, rin: RenderInputs, name: string, e: Entry)
    requires e in inp.entries && Leaver(inp, rin, e) && name in rin.org.teams
    ensures WantsSeat(inp, rin.org, name, e) <==> rin.org.teams[name].pinned && HasPinned(e, rin.org.name, name)
  {
    var l := Resolve(inp, e);
    var isLive := GrantLive(inp.config, rin.org, e, l, PersonLive(e, l));
    Sorting.AscendingSound(set n | n in rin.org.teams && Wants(rin.org, e, l, isLive, n));
  }

  ghost predicate SeatOwed(inp: Inputs, rin: RenderInputs, name: string, e: Entry)
    requires name in rin.state.teamMembers
  {
    WantsSeat(inp, rin.org, name, e) && Lower(e.github) !in ByLower(rin.state.teamMembers[name])
  }

  lemma SeatIsOwed(inp: Inputs, rin: RenderInputs, name: string, e: Entry)
    requires Wired(inp, rin) && name in rin.org.teams && name in rin.state.teamMembers && SeatOwed(inp, rin, name, e)
    ensures var q := Lower(e.github); q in TeamDesired(TeamDocFor(rin, name)) && TeamDesired(TeamDocFor(rin, name))[q] == e.github
  {
    var q := Lower(e.github);
    ByLowerKeys(rin.state.teamMembers[name], q);
    TeamMeans(rin, name, q);
    WantedMeans(inp, rin, name, q);
    SeatSpelling(inp, rin, name, q);
    var f :| WantsSeat(inp, rin.org, name, f) && TeamDesired(TeamDocFor(rin, name))[q] == f.github && Lower(f.github) == q;
    EntryOfLogin(inp.entries, e, f);
  }

  /** What the rendered team owes b. */
  predicate GivesSeat(rin: RenderInputs, b: Action)
    requires b.team in rin.org.teams && b.team in rin.state.teamMembers
  {
    TeamOwed(b.team, TeamDesired(TeamDocFor(rin, b.team)), ByLower(rin.state.teamMembers[b.team]), b)
  }

  lemma GivenSeat(inp: Inputs, rin: RenderInputs, b: Action) returns (e: Entry)
    requires Wired(inp, rin) && b.kind == TeamAdd && b.team in rin.org.teams && b.team in rin.state.teamMembers && GivesSeat(rin, b)
    ensures SeatOwed(inp, rin, b.team, e) && b == Seat(e, b.team)
  {
    var k := Lower(b.login);
    ByLowerKeys(rin.state.teamMembers[b.team], k);
    SeatSpelling(inp, rin, b.team, k);
    e :| WantsSeat(inp, rin.org, b.team, e) && TeamDesired(TeamDocFor(rin, b.team))[k] == e.github && Lower(e.github) == k;
  }

  lemma OwedSeat(inp: Inputs, rin: RenderInputs, name: string, e: Entry)
    requires Wired(inp, rin) && name in rin.org.teams && name in rin.state.teamMembers && SeatOwed(inp, rin, name, e)
    ensures GivesSeat(rin, Seat(e, name))
  {
    SeatIsOwed(inp, rin, name, e);
  }

  /** A seat a rendered plan gives is that of an entry wanted in the team and not in
      it, as the mapping spells them. */
  lemma SeatIff(inp: Inputs, rin: RenderInputs, b: Action)
    requires Wired(inp, rin) && b.kind == TeamAdd && b.team in StanzaFor(rin).teams && b.team in rin.state.teamMembers
    ensures Owes(StanzaFor(rin), rin.state, b) <==> exists e :: SeatOwed(inp, rin, b.team, e) && b == Seat(e, b.team)
  {
    StanzaTeam(rin, b.team);
    TeamChangeIs(StanzaFor(rin), rin.state, b);
    if GivesSeat(rin, b) {
      var e := GivenSeat(inp, rin, b);
    }
    forall e | SeatOwed(inp, rin, b.team, e) && b == Seat(e, b.team) ensures GivesSeat(rin, b) {
      OwedSeat(inp, rin, b.team, e);
    }
  }

  lemma SameSeat(inp: Inputs, rin: RenderInputs, s: State, rin': RenderInputs, name: string, e: Entry)
    requires Follows(inp, rin, s, rin')
    ensures WantsSeat(Next(inp, rin.org.name, s), rin.org, name, e) <==> WantsSeat(inp, rin.org, name, e)
  {
    SameEvidence(inp, Next(inp, rin.org.name, s), rin.org, e);
  }

  /** The seat the old document would give the login q in the team. */
  ghost function OldSeat(cfg: OrgDoc, name: string, q: string): Action
    requires name in cfg.teams && q in TeamDesired(cfg.teams[name])
  {
    Action(TeamAdd, TeamDesired(cfg.teams[name])[q], name, false, 0)
  }

  lemma OldSeatIs(cfg: OrgDoc, s: State, name: string, q: string)
    requires name in cfg.teams && q in TeamDesired(cfg.teams[name]) && name in s.teamMembers
    ensures Lower(OldSeat(cfg, name, q).login) == q
    ensures Owes(cfg, s, OldSeat(cfg, name, q)) <==> q !in ByLower(s.teamMembers[name])
  {
    TeamDesiredSound(cfg.teams[name]);
    TeamChangeIs(cfg, s, OldSeat(cfg, name, q));
  }

  lemma WasEvicted(inp: Inputs, rin: RenderInputs, cascade: bool, plan: seq<Action>, k: nat, e: Entry)
    requires Wired(inp, rin) && IsPlan(StanzaFor(rin), rin.state, plan) && k <= |plan|
    requires e in inp.entries && Lower(e.github) in EvictedBy(cascade, plan[..k])
    ensures Leaver(inp, rin, e)
  {
    EvictedIsLeaver(inp, rin, plan, k, e);
  }

  /** A wanted seat nobody holds now was owed before and is left, or went with its
      holder, who is still pinned to it. */
  lemma GainIsLeft(cascade: bool, inp: Inputs, rin: RenderInputs, plan: seq<Action>, k: nat, s: State, rin': RenderInputs,
                   name: string, e: Entry)
    requires Stopped(cascade, inp, rin, plan, k, s, rin') && name in StanzaFor(rin).teams && name in s.teamMembers
    requires WantsSeat(inp, rin.org, name, e) && Lower(e.github) !in ByLower(s.teamMembers[name])
    ensures Seat(e, name) in plan[k..] || StillPinned(inp, rin, EvictedBy(cascade, plan[..k]), name, e)
  {
    var q, gone := Lower(e.github), EvictedBy(cascade, plan[..k]);
    StanzaTeam(rin, name);
    TeamMeans(rin, name, q);
    WantedMeans(inp, rin, name, q);
    var was := OldSeat(StanzaFor(rin), name, q);
    OldSeatIs(StanzaFor(rin), s, name, q);
    StoppedOwes(cascade, inp, rin, plan, k, s, rin', was);
    OldSeatIs(StanzaFor(rin), rin.state, name, q);
    if was in plan[k..] {
      SeatIff(inp, rin, was);
      var f :| SeatOwed(inp, rin, name, f) && was == Seat(f, name);
      EntryOfLogin(inp.entries, e, f);
    } else {
      WasEvicted(inp, rin, cascade, plan, k, e);
      LeaverIsWantedByPins(inp, rin, name, e);
      ByLowerKeys(rin.state.teamMembers[name], q);
    }
  }

  /** A seat still pinned to somebody evicted is wanted, and empty. */
  lemma PinnedIsGain(cascade: bool, inp: Inputs, rin: RenderInputs, plan: seq<Action>, k: nat, s: State, rin': RenderInputs,
                     name: string, e: Entry)
    requires Stopped(cascade, inp, rin, plan, k, s, rin')
    requires StillPinned(inp, rin, EvictedBy(cascade, plan[..k]), name, e)
    ensures name in StanzaFor(rin).teams && name in s.teamMembers
    ensures WantsSeat(inp, rin.org, name, e) && Lower(e.github) !in ByLower(s.teamMembers[name])
    ensures Seat(e, name) !in plan[k..]
  {
    var q, gone := Lower(e.github), EvictedBy(cascade, plan[..k]);
    StanzaTeam(rin, name);
    WasEvicted(inp, rin, cascade, plan, k, e);
    LeaverIsWantedByPins(inp, rin, name, e);
    TeamMeans(rin, name, q);
    WantedMeans(inp, rin, name, q);
    ByLowerKeys(rin.state.teamMembers[name], q);
    var was := OldSeat(StanzaFor(rin), name, q);
    OldSeatIs(StanzaFor(rin), rin.state, name, q);
    StoppedOwes(cascade, inp, rin, plan, k, s, rin', was);
    OldSeatIs(StanzaFor(rin), s, name, q);
    StoppedOwes(cascade, inp, rin, plan, k, s, rin', Seat(e, name));
    TeamChangeIs(StanzaFor(rin), rin.state, Seat(e, name));
  }

  /** The next pass gives the seats the run had still to give, and back to the evicted
      the ones they are still pinned to. */
  lemma GainsLeft(cascade: bool, inp: Inputs, rin: RenderInputs, plan: seq<Action>, k: nat, s: State, rin': RenderInputs, b: Action)
    requires Stopped(cascade, inp, rin, plan, k, s, rin') && b.kind == TeamAdd
    ensures Owes(StanzaFor(rin'), s, b) <==>
      b in plan[k..] || exists e :: StillPinned(inp, rin, EvictedBy(cascade, plan[..k]), b.team, e) && b == Seat(e, b.team)
  {
    var name := b.team;
    StoppedOwes(cascade, inp, rin, plan, k, s, rin', b);
    StanzaTeam(rin, name);
    StanzaTeam(rin', name);
    TeamChangeIs(StanzaFor(rin), s, b);
    TeamChangeIs(StanzaFor(rin'), s, b);
    if name in StanzaFor(rin).teams && name in s.teamMembers {
      SeatIff(inp, rin, b);
      SeatIff(Next(inp, rin.org.name, s), rin', b);
      forall e {
        SameSeat(inp, rin, s, rin', name, e);
      }
      forall e | WantsSeat(inp, rin.org, name, e) && Lower(e.github) !in ByLower(s.teamMembers[name])
        ensures Seat(e, name) in plan[k..] || StillPinned(inp, rin, EvictedBy(cascade, plan[..k]), name, e)
      {
        GainIsLeft(cascade, inp, rin, plan, k, s, rin', name, e);
      }
    }
    forall e | StillPinned(inp, rin, EvictedBy(cascade, plan[..k]), name, e)
      ensures name in StanzaFor(rin).teams && name in s.teamMembers
      ensures WantsSeat(inp, rin.org, name, e) && Lower(e.github) !in ByLower(s.teamMembers[name])
    {
      PinnedIsGain(cascade, inp, rin, plan, k, s, rin', name, e);
    }
  }

  // ----- the theorems -----

  lemma EverybodyIsNamed(inp: Inputs, rin: RenderInputs, plan: seq<Action>)
    requires Wired(inp, rin) && IsPlan(StanzaFor(rin), rin.state, plan)
    ensures InvitesNamed(plan)
  {
    forall p | p in rin.roster.people ensures p.github != "" {
      RosterMeans(inp, rin.roster, p);
    }
    RenderedInvitesNamed(rin, plan);
  }

  /** A plan rendered from rin, run for its first k actions, and the pass that follows. */
  ghost predicate RunAndFollowed(cascade: bool, inp: Inputs, rin: RenderInputs, plan: seq<Action>, states: seq<State>, k: nat,
                                 rin': RenderInputs)
  {
    && IsPlan(StanzaFor(rin), rin.state, plan) && InvitationsDistinct(rin.state.invitations)
    && k <= |plan| && Trace(cascade, states, plan[..k]) && states[0] == rin.state
    && Follows(inp, rin, states[k], rin')
  }

  lemma RunStops(cascade: bool, inp: Inputs, rin: RenderInputs, plan: seq<Action>, states: seq<State>, k: nat, rin': RenderInputs)
    requires RunAndFollowed(cascade, inp, rin, plan, states, k, rin')
    ensures Stopped(cascade, inp, rin, plan, k, states[k], rin')
  {
    EverybodyIsNamed(inp, rin, plan);
    forall a | a in plan[..k] ensures a in plan {}
    RunReaches(cascade, StanzaFor(rin), plan, states, k);
    RunProgresses(cascade, rin, plan, states, k);
  }

  /** Seats given back: somebody evicted so far, still pinned to a team they sat in. */
  ghost predicate GivenBack(inp: Inputs, rin: RenderInputs, gone: set<string>, b: Action) {
    b.kind == TeamAdd && exists e :: StillPinned(inp, rin, gone, b.team, e) && b == Seat(e, b.team)
  }

  /** What the next pass owes: what was left of the plan, less the seats that left with
      their holders, and the seats to give back. */
  lemma NextOwes(cascade: bool, inp: Inputs, rin: RenderInputs, plan: seq<Action>, states: seq<State>, k: nat, rin': RenderInputs, b: Action)
    requires RunAndFollowed(cascade, inp, rin, plan, states, k, rin')
    ensures Owes(StanzaFor(rin'), states[k], b) <==>
      b in LeftAfter(cascade, plan, k) || GivenBack(inp, rin, EvictedBy(cascade, plan[..k]), b)
  {
    var s, gone := states[k], EvictedBy(cascade, plan[..k]);
    RunStops(cascade, inp, rin, plan, states, k, rin');
    LeftIffNotDone(plan, k, b);
    RestIsSorted(plan, k);
    RemainingSound(gone, plan[k..]);
    match b.kind {
      case RemoveMember =>
        RemovalsLeft(cascade, inp, rin, plan, k, s, rin', b.login);
        if b != Removal(b.login) {
          RemovalOrNothing(StanzaFor(rin), rin.state, b);
          RemovalOrNothing(StanzaFor(rin'), s, b);
        }
      case AddMember =>
        if rin.mode == Full {
          AdditionsLeft(cascade, inp, rin, plan, k, s, rin', b);
        } else {
          NotSwept(rin, b);
          NotSwept(rin', b);
        }
      case TeamAdd => GainsLeft(cascade, inp, rin, plan, k, s, rin', b);
      case TeamRemove => LossesLeft(cascade, inp, rin, plan, k, s, rin', b);
      case _ =>
        NeverWritten(rin, b);
        NeverWritten(rin', b);
    }
  }

  lemma RestIsSorted(plan: seq<Action>, k: nat)
    requires StrictlySorted(plan) && k <= |plan|
    ensures StrictlySorted(plan[k..])
  {
  }

  lemma RemovalOrNothing(cfg: OrgDoc, s: State, b: Action)
    requires b.kind == RemoveMember && b != Removal(b.login)
    ensures !Owes(cfg, s, b)
  {
  }

  lemma NotSwept(rin: RenderInputs, b: Action)
    requires rin.mode == RemovalsOnly && MembersDistinct(rin.state.members) && b.kind != RemoveMember
    ensures !Owes(StanzaFor(rin), rin.state, b)
  {
    RemovalsOnlyKinds(rin, b);
  }

  lemma NeverWritten(rin: RenderInputs, b: Action)
    requires MembersDistinct(rin.state.members) && b.kind in {SetRole, AddAdmin, CancelInvite}
    ensures !Owes(StanzaFor(rin), rin.state, b)
  {
    NeverOwnersOrWithdrawals(rin, b);
    NeverRoles(rin, b);
  }

  lemma LeftIsPlan(cascade: bool, inp: Inputs, rin: RenderInputs, plan: seq<Action>, states: seq<State>, k: nat, rin': RenderInputs)
    requires RunAndFollowed(cascade, inp, rin, plan, states, k, rin')
    ensures IsPlan(StanzaFor(rin'), states[k], LeftAfter(cascade, plan, k)) <==>
      !exists name, e :: StillPinned(inp, rin, EvictedBy(cascade, plan[..k]), name, e)
  {
    var gone, left := EvictedBy(cascade, plan[..k]), LeftAfter(cascade, plan, k);
    RestIsSorted(plan, k);
    RemainingSound(gone, plan[k..]);
    forall b ensures Owes(StanzaFor(rin'), states[k], b) <==> b in left || GivenBack(inp, rin, gone, b) {
      NextOwes(cascade, inp, rin, plan, states, k, rin', b);
    }
    RunStops(cascade, inp, rin, plan, states, k, rin');
    forall name, e | StillPinned(inp, rin, gone, name, e)
      ensures GivenBack(inp, rin, gone, Seat(e, name)) && Seat(e, name) !in left
    {
      PinnedIsGivenBack(cascade, inp, rin, plan, k, states[k], rin', name, e);
    }
  }

  lemma PinnedIsGivenBack(cascade: bool, inp: Inputs, rin: RenderInputs, plan: seq<Action>, k: nat, s: State, rin': RenderInputs,
                          name: string, e: Entry)
    requires Stopped(cascade, inp, rin, plan, k, s, rin')
    requires StillPinned(inp, rin, EvictedBy(cascade, plan[..k]), name, e)
    ensures GivenBack(inp, rin, EvictedBy(cascade, plan[..k]), Seat(e, name)) && Seat(e, name) !in LeftAfter(cascade, plan, k)
  {
    PinnedIsGain(cascade, inp, rin, plan, k, s, rin', name, e);
    RestIsSorted(plan, k);
    RemainingSound(EvictedBy(cascade, plan[..k]), plan[k..]);
  }

  lemma SameMissing(inp: Inputs, rin: RenderInputs, s: State, rin': RenderInputs, slug: string)
    requires Follows(inp, rin, s, rin') && s.teams == rin.state.teams && s.teamMembers.Keys == rin.state.teamMembers.Keys
    ensures MissingTeam(StanzaFor(rin'), s, slug) <==> MissingTeam(StanzaFor(rin), rin.state, slug)
  {
    StanzaTeam(rin, slug);
    StanzaTeam(rin', slug);
  }

  /** A stanza is planned for when it names owners enough, its teams have member lists,
      and unattended it grants nothing. */
  lemma StanzaIsPlanned(cfg: OrgDoc, s: State, opts: Options, v: Verdict)
    requires |cfg.admins| >= opts.minAdmins && forall slug :: !MissingTeam(cfg, s, slug)
    requires opts.mode == RemovalsOnly ==> forall a :: Owes(cfg, s, a) ==> !Grants(a)
    ensures AnswersStanza(cfg, s, opts, v) <==> v.Planned? && IsPlan(cfg, s, v.actions)
  {
  }

  lemma AnswersForStanza(rin: RenderInputs, opts: Options, v: Verdict)
    requires opts.mode == rin.mode
    ensures PlannedFrom(rin, opts, v) <==> AnswersStanza(StanzaFor(rin), rin.state, opts, v)
  {
    if rin.mode == RemovalsOnly {
      RemovalsOnlyNeverRefused(rin);
    }
    assert RenderOf(rin).Rendered? && RenderOf(rin).result.doc == map[rin.org.name := StanzaFor(rin)];
  }

  /** The next pass is never refused: owners and teams are as they were. */
  lemma NextIsPlanned(inp: Inputs, rin: RenderInputs, opts: Options, plan: seq<Action>, done: seq<Action>, s: State, rin': RenderInputs, v: Verdict)
    requires Follows(inp, rin, s, rin') && Progressed(rin.state, done, s) && s.teamMembers.Keys == rin.state.teamMembers.Keys
    requires opts.mode == rin.mode && AnswersStanza(StanzaFor(rin), rin.state, opts, Planned(plan))
    ensures PlannedFrom(rin', opts, v) <==> v.Planned? && IsPlan(StanzaFor(rin'), s, v.actions)
  {
    assert StanzaFor(rin').admins == StanzaFor(rin).admins;
    forall slug ensures !MissingTeam(StanzaFor(rin'), s, slug) {
      SameMissing(inp, rin, s, rin', slug);
    }
    if rin.mode == RemovalsOnly {
      forall a {
        RemovalsOnlyNeverGrants(rin', a);
      }
    }
    AnswersForStanza(rin', opts, v);
    StanzaIsPlanned(StanzaFor(rin'), s, opts, v);
  }

  /** From directories to GitHub and back: a run stopped after any write, then the next
      pass, which reads, joins and renders afresh. It plans what was left of the run, if
      and only if nobody evicted is still pinned to a team they sat in; and it plans
      nothing else. */
  lemma NextPassRestarts(cascade: bool, inp: Inputs, rin: RenderInputs, opts: Options, plan: seq<Action>, states: seq<State>, k: nat,
                         rin': RenderInputs, v: Verdict)
    requires PlannedFrom(rin, opts, Planned(plan)) && InvitationsDistinct(rin.state.invitations)
    requires k <= |plan| && Trace(cascade, states, plan[..k]) && states[0] == rin.state
    requires Follows(inp, rin, states[k], rin')
    ensures PlannedFrom(rin', opts, Planned(LeftAfter(cascade, plan, k))) <==>
      !exists name, e :: StillPinned(inp, rin, EvictedBy(cascade, plan[..k]), name, e)
    ensures PlannedFrom(rin', opts, Planned(LeftAfter(cascade, plan, k))) ==>
      (PlannedFrom(rin', opts, v) <==> v == Planned(LeftAfter(cascade, plan, k)))
  {
    var left := LeftAfter(cascade, plan, k);
    PlannedForStanza(rin, opts, Planned(plan));
    RunStops(cascade, inp, rin, plan, states, k, rin');
    LeftIsPlan(cascade, inp, rin, plan, states, k, rin');
    NextIsPlanned(inp, rin, opts, plan, plan[..k], states[k], rin', Planned(left));
    NextIsPlanned(inp, rin, opts, plan, plan[..k], states[k], rin', v);
    if v.Planned? && IsPlan(StanzaFor(rin'), states[k], v.actions) && IsPlan(StanzaFor(rin'), states[k], left) {
      PlanSpec.SortedUnique(v.actions, left);
    }
  }

  /** A run that stopped at its first error: whether or not the failing write took
      effect, the next pass plans what is left after the writes that did, under the
      same condition. */
  lemma NextPassRecovers(cascade: bool, inp: Inputs, rin: RenderInputs, opts: Options, plan: seq<Action>, states: seq<State>, done: nat,
                         s: State, rin': RenderInputs, v: Verdict)
    requires PlannedFrom(rin, opts, Planned(plan)) && InvitationsDistinct(rin.state.invitations)
    requires done < |plan| && Trace(cascade, states, plan[..done]) && states[0] == rin.state
    requires s == states[done] || Step(cascade, states[done], plan[done], s)
    requires Follows(inp, rin, s, rin')
    ensures var n := if s == states[done] then done else done + 1;
      && (PlannedFrom(rin', opts, Planned(LeftAfter(cascade, plan, n))) <==>
           !exists name, e :: StillPinned(inp, rin, EvictedBy(cascade, plan[..n]), name, e))
      && (PlannedFrom(rin', opts, Planned(LeftAfter(cascade, plan, n))) ==>
           (PlannedFrom(rin', opts, v) <==> v == Planned(LeftAfter(cascade, plan, n))))
  {
    if s == states[done] {
      NextPassRestarts(cascade, inp, rin, opts, plan, states, done, rin', v);
    } else {
      TraceLonger(cascade, plan, states, done, s);
      NextPassRestarts(cascade, inp, rin, opts, plan, states + [s], done + 1, rin', v);
    }
  }

  lemma TraceLonger(cascade: bool, plan: seq<Action>, states: seq<State>, done: nat, s: State)
    requires done < |plan| && Trace(cascade, states, plan[..done]) && Step(cascade, states[done], plan[done], s)
    ensures Trace(cascade, states + [s], plan[..done + 1])
  {
    assert forall i :: 0 <= i < done ==> plan[..done + 1][i] == plan[..done][i];
  }

  /** A sweep therefore always restarts. */
  lemma NextSweepRestarts(cascade: bool, inp: Inputs, rin: RenderInputs, opts: Options, plan: seq<Action>, states: seq<State>, k: nat,
                          rin': RenderInputs, v: Verdict)
    requires rin.mode == RemovalsOnly && PlannedFrom(rin, opts, Planned(plan)) && InvitationsDistinct(rin.state.invitations)
    requires k <= |plan| && Trace(cascade, states, plan[..k]) && states[0] == rin.state
    requires Follows(inp, rin, states[k], rin')
    ensures PlannedFrom(rin', opts, v) <==> v == Planned(plan[k..])
  {
    NextPassRestarts(cascade, inp, rin, opts, plan, states, k, rin', v);
    PlannedForStanza(rin, opts, Planned(plan));
    SweepTakesNoSeat(rin, plan, k);
    NothingVanishes(EvictedBy(cascade, plan[..k]), plan[k..]);
  }

  lemma SweepTakesNoSeat(rin: RenderInputs, plan: seq<Action>, k: nat)
    requires rin.mode == RemovalsOnly && IsPlan(StanzaFor(rin), rin.state, plan) && k <= |plan|
    ensures forall b :: b in plan[k..] ==> b.kind != TeamRemove
  {
    forall b | b in plan[k..] ensures b.kind != TeamRemove {
      assert b in plan;
      RemovalsOnlyNeverGrants(rin, b);
    }
  }

  lemma {:induction false} NothingVanishes(gone: set<string>, rest: seq<Action>)
    requires forall b :: b in rest ==> b.kind != TeamRemove
    ensures Remaining(gone, rest) == rest
  {
    if rest != [] {
      NothingVanishes(gone, rest[1..]);
    }
  }
}
