/** Join, render and plan together: who is removed, who is added, and how that
    matches the lifecycle the roster shows. */
module Pipeline {
  import opened Text
  import opened Indexing
  import opened Sorting
  import opened OrgState
  import opened Config
  import opened Mapping
  import opened Document
  import opened PlanSpec
  import opened Liveness
  import opened LivenessMeaning
  import opened Roster
  import opened RenderSpec
  import opened RenderMeaning
  import Safety

  function EntryKey(e: Entry): string { Lower(e.github) }

  function EntryName(e: Entry): string { e.name }

  /** What the mapping store guarantees of its entries. */
  ghost predicate EntriesDistinct(entries: seq<Entry>) {
    && DistinctBy(entries, EntryKey)
    && DistinctBy(entries, EntryName)
    && forall e :: e in entries ==> e.github != ""
  }

  /** The render reads the join of inp and the same organization state. */
  ghost predicate Wired(inp: Inputs, rin: RenderInputs) {
    && IsJoin(inp, rin.roster) && EntriesDistinct(inp.entries)
    && rin.org in inp.config.orgs && OrgsDistinct(inp.config.orgs)
    && rin.org.name in inp.orgs && inp.orgs[rin.org.name] == rin.state
    && MembersDistinct(rin.state.members)
  }

  // ----- people and entries -----

  lemma {:induction false} PeopleOfMean(inp: Inputs, entries: seq<Entry>, p: Person)
    ensures p in PeopleOf(inp, entries) <==> exists e :: e in entries && p == PersonOf(inp, e)
  {
    if entries != [] {
      var rest, last := entries[..|entries| - 1], entries[|entries| - 1];
      assert entries == rest + [last];
      PeopleSnoc(inp, rest, last);
      PeopleOfMean(inp, rest, p);
      var person := PersonOf(inp, last);
      assert p in PeopleOf(inp, entries) <==> p in PeopleOf(inp, rest) || p == person;
      assert forall e :: e in entries <==> e in rest || e == last;
    }
  }

  lemma RosterMeans(inp: Inputs, r: Roster, p: Person)
    requires IsJoin(inp, r)
    ensures p in r.people <==> exists e :: e in inp.entries && p == PersonOf(inp, e)
  {
    PeopleOfMean(inp, inp.entries, p);
    assert p in r.people <==> p in multiset(r.people);
    assert p in PeopleOf(inp, inp.entries) <==> p in multiset(PeopleOf(inp, inp.entries));
  }

  lemma EntryOfLogin(entries: seq<Entry>, e: Entry, f: Entry)
    requires EntriesDistinct(entries) && e in entries && f in entries && Lower(e.github) == Lower(f.github)
    ensures e == f
  {
    var i :| 0 <= i < |entries| && entries[i] == e;
    var j :| 0 <= j < |entries| && entries[j] == f;
    assert EntryKey(e) == EntryKey(f);
  }

  /** The person indexed under a login is the one its entry joins to. */
  lemma PersonOfLogin(inp: Inputs, r: Roster, k: string)
    requires IsJoin(inp, r) && EntriesDistinct(inp.entries)
    ensures k in PeopleByLogin(r.people) <==> exists e :: e in inp.entries && Lower(e.github) == k
    ensures forall e :: e in inp.entries && Lower(e.github) == k ==>
      k in PeopleByLogin(r.people) && PeopleByLogin(r.people)[k] == PersonOf(inp, e)
  {
    IndexBySound(r.people, PersonKey);
    forall e | e in inp.entries && Lower(e.github) == k
      ensures k in PeopleByLogin(r.people) && PeopleByLogin(r.people)[k] == PersonOf(inp, e)
    {
      RosterMeans(inp, r, PersonOf(inp, e));
      var p := PeopleByLogin(r.people)[k];
      RosterMeans(inp, r, p);
      var f :| f in inp.entries && p == PersonOf(inp, f);
      EntryOfLogin(inp.entries, e, f);
    }
    if k in PeopleByLogin(r.people) {
      RosterMeans(inp, r, PeopleByLogin(r.people)[k]);
    }
  }

  lemma {:induction false} StandingsMean(inp: Inputs, orgs: seq<Org>, entry: Entry, org: Org)
    requires OrgsDistinct(orgs) && org in orgs
    ensures org.name in Standings(inp, orgs, entry)
    ensures Standings(inp, orgs, entry)[org.name] == StandingIn(inp, org, entry)
  {
    var rest, last := orgs[..|orgs| - 1], orgs[|orgs| - 1];
    assert orgs == rest + [last];
    if org in rest {
      StandingsMean(inp, rest, entry, org);
      var i :| 0 <= i < |rest| && rest[i] == org;
      assert orgs[i] == org;
    }
  }

  /** The standing the render reads for an entry. */
  lemma StandingOf(inp: Inputs, rin: RenderInputs, e: Entry)
    requires Wired(inp, rin)
    ensures rin.org.name in PersonOf(inp, e).orgs
    ensures PersonOf(inp, e).orgs[rin.org.name] == StandingIn(inp, rin.org, e)
  {
    StandingsMean(inp, inp.config.orgs, e, rin.org);
  }

  // ----- removal -----

  lemma {:induction false} FirstInMeans(sources: seq<string>, bad: seq<string>)
    requires "" !in bad
    ensures FirstIn(sources, bad) == "" <==> forall s :: s in sources ==> s !in bad
  {
    if sources != [] {
      FirstInMeans(sources[1..], bad);
      assert sources == [sources[0]] + sources[1..];
    }
  }

  /** Gone from this organization on trustworthy evidence. */
  ghost predicate Leaver(inp: Inputs, rin: RenderInputs, e: Entry) {
    var p := PersonOf(inp, e);
    !p.displayOnly && !StandingIn(inp, rin.org, e).live && OnlyKnownBy(p, rin.unhealthy) == ""
  }

  /** Trustworthy evidence: no source that knows them or should is unhealthy. */
  lemma LeaverMeans(inp: Inputs, rin: RenderInputs, e: Entry)
    requires "" !in rin.unhealthy
    ensures Leaver(inp, rin, e) <==>
      && !PersonOf(inp, e).displayOnly && !StandingIn(inp, rin.org, e).live
      && (forall s :: s in PersonOf(inp, e).sources ==> s !in rin.unhealthy)
      && (forall s :: s in PersonOf(inp, e).expectedSources ==> s !in rin.unhealthy)
  {
    var p := PersonOf(inp, e);
    FirstInMeans(p.sources + p.expectedSources, rin.unhealthy);
    assert forall s :: s in p.sources + p.expectedSources <==> s in p.sources || s in p.expectedSources;
  }

  /** An ordinary member is wanted in the removals-only document unless a leaver. */
  lemma KeptIff(inp: Inputs, rin: RenderInputs, m: Member)
    requires Wired(inp, rin) && m in rin.state.members && m.role != RoleAdmin
    ensures HasKey(RemovalsOnlyMembers(rin), Lower(m.login)) <==>
      || rin.org.IsException(m.login) || Lower(m.login) in Invited(rin.state.invitations)
      || forall e :: e in inp.entries && Lower(e.github) == Lower(m.login) ==> !Leaver(inp, rin, e)
  {
    var k, people := Lower(m.login), PeopleByLogin(rin.roster.people);
    RemovalsOnlyMeans(rin, k);
    OneOrdinary(rin.state, KeepTest(rin, people), m);
    PersonOfLogin(inp, rin.roster, k);
    forall e | e in inp.entries && Lower(e.github) == k
      ensures Keeps(rin, people, m.login) <==> rin.org.IsException(m.login) || !Leaver(inp, rin, e)
    {
      StandingOf(inp, rin, e);
    }
  }

  /** With distinct logins, a test of k is a test of the one member folding to k. */
  lemma OneOrdinary(state: State, test: string -> bool, m: Member)
    requires MembersDistinct(state.members) && m in state.members && m.role != RoleAdmin
    ensures HasOrdinary(state, test, Lower(m.login)) <==> test(m.login)
  {
    OrdinaryIsMember(state, m.login);
    IndexByDistinct(state.members, MemberKey, m);
    forall x | x in Ordinary(state) && Lower(x) == Lower(m.login) ensures x == m.login {
      OrdinaryIsMember(state, x);
      var o :| o in state.members && o.role != RoleAdmin && o.login == x;
      IndexByDistinct(state.members, MemberKey, o);
    }
  }

  /** The standing of a current member or invitee. */
  lemma StandingFlags(inp: Inputs, rin: RenderInputs, e: Entry)
    requires Wired(inp, rin)
    ensures var m, k := StandingIn(inp, rin.org, e), Lower(e.github);
      && (m.member <==> k in Current(rin.state.members) || k in Invited(rin.state.invitations))
      && (m.invitationPending <==> k in Invited(rin.state.invitations))
      && m.displayOnly == PersonOf(inp, e).displayOnly
      && m.state == StateOf(m)
      && m.teams == ManagedTeams(rin.org, rin.state, e.github)
  {
  }

  /** An ordinary member is wanted in the full document unless a leaver. */
  lemma DesiredIff(inp: Inputs, rin: RenderInputs, m: Member)
    requires Wired(inp, rin) && m in rin.state.members && m.role != RoleAdmin
    ensures HasKey(FullMembers(rin), Lower(m.login)) <==>
      || rin.org.IsException(m.login) || Lower(m.login) in Invited(rin.state.invitations)
      || forall e :: e in inp.entries && Lower(e.github) == Lower(m.login) ==> !Leaver(inp, rin, e)
  {
    var k, people := Lower(m.login), PeopleByLogin(rin.roster.people);
    FullMeans(rin, k);
    OneOrdinary(rin.state, ExceptionTest(rin), m);
    OneOrdinary(rin.state, UnknownTest(rin, people), m);
    PersonOfLogin(inp, rin.roster, k);
    IndexByDistinct(rin.state.members, MemberKey, m);
    forall e | e in inp.entries && Lower(e.github) == k
      ensures HasPerson(rin.roster.people, BelongTest(rin), k) <==> !Leaver(inp, rin, e)
    {
      OnePerson(inp, rin, BelongTest(rin), e);
      StandingOf(inp, rin, e);
      StandingFlags(inp, rin, e);
    }
    if forall e :: e in inp.entries ==> Lower(e.github) != k {
      assert k !in people;
    }
  }

  /** With distinct logins, a test of k is a test of the one person folding to k. */
  lemma OnePerson(inp: Inputs, rin: RenderInputs, test: Person -> bool, e: Entry)
    requires Wired(inp, rin) && e in inp.entries
    ensures HasPerson(rin.roster.people, test, Lower(e.github)) <==> test(PersonOf(inp, e))
  {
    RosterMeans(inp, rin.roster, PersonOf(inp, e));
    forall p | p in rin.roster.people && Lower(p.github) == Lower(e.github) ensures p == PersonOf(inp, e) {
      RosterMeans(inp, rin.roster, p);
      var f :| f in inp.entries && p == PersonOf(inp, f);
      EntryOfLogin(inp.entries, e, f);
    }
  }

  function Removal(login: string): Action {
    Action(RemoveMember, login, "", false, 0)
  }

  lemma RemovalIsOwed(cfg: OrgDoc, s: State, login: string)
    ensures Owes(cfg, s, Removal(login)) <==>
      Lower(login) in Current(s.members) && Current(s.members)[Lower(login)].login == login && Lower(login) !in Desired(cfg)
  {
  }

  lemma CurrentIs(members: seq<Member>, login: string)
    requires MembersDistinct(members)
    ensures Lower(login) in Current(members) && Current(members)[Lower(login)].login == login <==>
      Member(login, RoleMember) in members || Member(login, RoleAdmin) in members
  {
    IndexBySound(members, MemberKey);
    forall m | m in members && m.login == login
      ensures Lower(login) in Current(members) && Current(members)[Lower(login)] == m
    {
      IndexByDistinct(members, MemberKey, m);
    }
    if Lower(login) in Current(members) && Current(members)[Lower(login)].login == login {
      var m := Current(members)[Lower(login)];
      match m.role {
        case RoleAdmin => assert m == Member(login, RoleAdmin);
        case RoleMember => assert m == Member(login, RoleMember);
      }
    }
  }

  lemma RemovalOwed(rin: RenderInputs, login: string)
    requires MembersDistinct(rin.state.members)
    ensures Owes(StanzaFor(rin), rin.state, Removal(login)) <==>
      Member(login, RoleMember) in rin.state.members && !HasKey(MembersFor(rin), Lower(login))
  {
    RemovalIsOwed(StanzaFor(rin), rin.state, login);
    CurrentIs(rin.state.members, login);
    StanzaMeans(rin, Lower(login));
    if Member(login, RoleMember) in rin.state.members {
      NotBoth(rin.state, Member(login, RoleMember));
    }
  }

  /** Who leaves, in either mode: an ordinary member, not an exception, not
      invited, mapped to a leaver. */
  lemma RemovedIff(inp: Inputs, rin: RenderInputs, login: string)
    requires Wired(inp, rin)
    ensures Owes(StanzaFor(rin), rin.state, Removal(login)) <==>
      && Member(login, RoleMember) in rin.state.members
      && !rin.org.IsException(login) && Lower(login) !in Invited(rin.state.invitations)
      && exists e :: e in inp.entries && Lower(e.github) == Lower(login) && Leaver(inp, rin, e)
  {
    var m := Member(login, RoleMember);
    RemovalOwed(rin, login);
    if m in rin.state.members {
      KeptIff(inp, rin, m);
      DesiredIff(inp, rin, m);
    }
  }

  lemma NotBoth(state: State, m: Member)
    requires MembersDistinct(state.members) && m in state.members && m.role != RoleAdmin
    ensures !HasMember(state.members, true, Lower(m.login))
  {
    forall o | o in state.members && Lower(o.login) == Lower(m.login) ensures o == m {
      IndexByDistinct(state.members, MemberKey, m);
      IndexByDistinct(state.members, MemberKey, o);
    }
  }

  /** The unattended sweep and the operator sync remove the same people. */
  lemma ModesRemoveAlike(inp: Inputs, rin: RenderInputs, login: string)
    requires Wired(inp, rin)
    ensures Owes(StanzaFor(rin.(mode := RemovalsOnly)), rin.state, Removal(login)) <==>
      Owes(StanzaFor(rin.(mode := Full)), rin.state, Removal(login))
  {
    var sweep, full := rin.(mode := RemovalsOnly), rin.(mode := Full);
    RemovedIff(inp, sweep, login);
    RemovedIff(inp, full, login);
    assert forall e :: Leaver(inp, sweep, e) <==> Leaver(inp, full, e);
  }

  lemma SeatedAndUnwanted(rin: RenderInputs, login: string)
    ensures login in Missing(OccupiedSeats(rin.state), MembersFor(rin)) <==>
      Member(login, RoleMember) in rin.state.members && !HasKey(MembersFor(rin), Lower(login))
  {
    var invited := InvitedLogins(rin.state.invitations);
    MissingMeans(OccupiedSeats(rin.state), MembersFor(rin), login);
    OrdinaryIsMember(rin.state, login);
    if login in invited {
      assert HasKey(invited, Lower(login));
      InvitedLoginsMean(rin.state.invitations, Lower(login));
      InvitedStay(rin, Lower(login));
    }
    forall m | m in rin.state.members && m.role != RoleAdmin && m.login == login ensures m == Member(login, RoleMember) {}
  }

  /** What the render reports as removals is what the plan removes. */
  lemma RemovingIsRemoved(rin: RenderInputs, login: string)
    requires MembersDistinct(rin.state.members) && RenderOf(rin).Rendered?
    ensures login in RenderOf(rin).result.removing <==> Owes(StanzaFor(rin), rin.state, Removal(login))
  {
    SeatedAndUnwanted(rin, login);
    RemovalOwed(rin, login);
  }

  // ----- the lifecycle shown is what the plan does -----

  /** The standing the roster shows for an entry in the rendered organization. */
  ghost function Shown(inp: Inputs, rin: RenderInputs, e: Entry): Membership
    requires Wired(inp, rin)
  {
    StandingOf(inp, rin, e);
    PersonOf(inp, e).orgs[rin.org.name]
  }

  /** Somebody the plan removes is shown as leaving. */
  lemma RemovedIsLeaving(inp: Inputs, rin: RenderInputs, e: Entry, login: string)
    requires Wired(inp, rin) && e in inp.entries && Lower(e.github) == Lower(login)
    ensures Owes(StanzaFor(rin), rin.state, Removal(login)) ==> Shown(inp, rin, e).state == StateLeaving
  {
    RemovedIff(inp, rin, login);
    forall f | f in inp.entries && Lower(f.github) == Lower(login) ensures f == e {
      EntryOfLogin(inp.entries, e, f);
    }
    StandingOf(inp, rin, e);
    StandingFlags(inp, rin, e);
    CurrentIs(rin.state.members, login);
  }

  /** An ordinary member is removed exactly when shown as leaving on trustworthy
      evidence, unless they are an exception. */
  lemma LeavingIffRemoved(inp: Inputs, rin: RenderInputs, e: Entry, login: string)
    requires Wired(inp, rin) && e in inp.entries && Lower(e.github) == Lower(login)
    requires Member(login, RoleMember) in rin.state.members
    ensures Owes(StanzaFor(rin), rin.state, Removal(login)) <==>
      && Shown(inp, rin, e).state == StateLeaving
      && !rin.org.IsException(login)
      && OnlyKnownBy(PersonOf(inp, e), rin.unhealthy) == ""
  {
    RemovedIff(inp, rin, login);
    StandingOf(inp, rin, e);
    StandingFlags(inp, rin, e);
    CurrentIs(rin.state.members, login);
    forall f | f in inp.entries && Lower(f.github) == Lower(login) ensures f == e {
      EntryOfLogin(inp.entries, e, f);
    }
  }

  /** The document's wish for an entry that holds no seat. */
  lemma OutsiderWanted(inp: Inputs, rin: RenderInputs, e: Entry)
    requires Wired(inp, rin) && rin.mode == Full && e in inp.entries
    requires Lower(e.github) !in Current(rin.state.members) && Lower(e.github) !in Invited(rin.state.invitations)
    ensures Lower(e.github) in Desired(StanzaFor(rin)) <==> Belongs(rin, PersonOf(inp, e))
    ensures Lower(e.github) in Desired(StanzaFor(rin)) ==> !Desired(StanzaFor(rin))[Lower(e.github)].admin
  {
    var k := Lower(e.github);
    IndexBySound(rin.state.members, MemberKey);
    StanzaMeans(rin, k);
    FullMeans(rin, k);
    OnePerson(inp, rin, BelongTest(rin), e);
    forall x | x in Ordinary(rin.state) ensures Lower(x) != k {
      OrdinaryIsMember(rin.state, x);
    }
  }

  predicate AddsMember(a: Action, k: string) {
    a.kind == AddMember && Lower(a.login) == k
  }

  lemma AdditionOwed(cfg: OrgDoc, s: State, k: string)
    ensures (exists a :: Owes(cfg, s, a) && AddsMember(a, k)) <==>
      k in Desired(cfg) && k !in Current(s.members) && k !in Invited(s.invitations) && !Desired(cfg)[k].admin
  {
    DesiredSound(cfg);
    if k in Desired(cfg) && k !in Current(s.members) && k !in Invited(s.invitations) && !Desired(cfg)[k].admin {
      var a := Action(AddMember, Desired(cfg)[k].login, "", false, 0);
      assert Owes(cfg, s, a) && AddsMember(a, k);
    }
  }

  /** A non-member shown as pending is exactly one the full plan invites. */
  lemma PendingIffAdded(inp: Inputs, rin: RenderInputs, e: Entry)
    requires Wired(inp, rin) && rin.mode == Full && e in inp.entries
    ensures (exists a :: Owes(StanzaFor(rin), rin.state, a) && AddsMember(a, Lower(e.github))) <==>
      Shown(inp, rin, e).state == StatePending && !Shown(inp, rin, e).member
  {
    var k := Lower(e.github);
    AdditionOwed(StanzaFor(rin), rin.state, k);
    StandingOf(inp, rin, e);
    StandingFlags(inp, rin, e);
    if k !in Current(rin.state.members) && k !in Invited(rin.state.invitations) {
      OutsiderWanted(inp, rin, e);
    }
  }

  lemma ManagedMeans(org: Org, state: State, login: string, name: string)
    ensures name in ManagedTeams(org, state, login) <==>
      name in state.teamMembers && name in org.teams && HasKey(state.teamMembers[name], Lower(login))
  {
    AscendingSound(set slug | slug in state.teamMembers && slug in org.teams && Lower(login) in ByLower(state.teamMembers[slug]));
    if name in state.teamMembers {
      ByLowerKeys(state.teamMembers[name], Lower(login));
    }
  }

  /** Some change of the team name the document owes concerns the login k. */
  ghost predicate ChangesTeam(cfg: OrgDoc, s: State, name: string, k: string) {
    exists a :: OwesTeam(cfg, s, a) && a.team == name && Lower(a.login) == k
  }

  lemma ChangesTeamIff(cfg: OrgDoc, s: State, name: string, k: string)
    ensures ChangesTeam(cfg, s, name, k) <==>
      name in cfg.teams && name in s.teamMembers &&
      (k in TeamDesired(cfg.teams[name]) <==> k !in ByLower(s.teamMembers[name]))
  {
    if name in cfg.teams && name in s.teamMembers {
      var desired, live := TeamDesired(cfg.teams[name]), ByLower(s.teamMembers[name]);
      TeamDesiredSound(cfg.teams[name]);
      IndexBySound(s.teamMembers[name], LoginKey);
      if k in desired && k !in live {
        assert OwesTeam(cfg, s, Action(TeamAdd, desired[k], name, false, 0));
      }
      if k in live && k !in desired {
        assert OwesTeam(cfg, s, Action(TeamRemove, live[k], name, false, 0));
      }
    }
  }

  /** The full plan changes somebody's seat in a team exactly when the roster shows
      a team they want and lack, or hold and do not want where residents may be
      taken out. */
  lemma TeamChangesIff(inp: Inputs, rin: RenderInputs, e: Entry, name: string)
    requires Wired(inp, rin) && rin.mode == Full && e in inp.entries
    ensures ChangesTeam(StanzaFor(rin), rin.state, name, Lower(e.github)) <==>
      && name in rin.org.teams && name in rin.state.teams && name in rin.state.teamMembers
      && if name in Shown(inp, rin, e).teams then name !in Shown(inp, rin, e).desiredTeams && !KeepsResidents(rin, name)
         else name in Shown(inp, rin, e).desiredTeams
  {
    var k := Lower(e.github);
    ChangesTeamIff(StanzaFor(rin), rin.state, name, k);
    StandingOf(inp, rin, e);
    StandingFlags(inp, rin, e);
    if name in rin.org.teams && name in rin.state.teamMembers {
      ManagedMeans(rin.org, rin.state, e.github, name);
      TeamMeans(rin, name, k);
      OnePerson(inp, rin, WantsTeam(rin, name), e);
      ByLowerKeys(rin.state.teamMembers[name], k);
    }
  }

  /** A synced person's seat is the one the document wants. */
  lemma SyncedSeat(inp: Inputs, rin: RenderInputs, e: Entry, a: Action)
    requires Wired(inp, rin) && rin.mode == Full && e in inp.entries && Lower(a.login) == Lower(e.github)
    requires Shown(inp, rin, e).state == StateSynced
    ensures !OwesOrg(StanzaFor(rin), rin.state, a)
  {
    var k := Lower(e.github);
    StandingOf(inp, rin, e);
    StandingFlags(inp, rin, e);
    OnePerson(inp, rin, BelongTest(rin), e);
    FullMeans(rin, k);
    StanzaMeans(rin, k);
    if OwesOrg(StanzaFor(rin), rin.state, a) {
      Safety.NeverOwnersOrWithdrawals(rin, a);
      Safety.NeverRoles(rin, a);
    }
  }

  lemma SyncedTeams(inp: Inputs, rin: RenderInputs, e: Entry)
    requires Wired(inp, rin) && Shown(inp, rin, e).state == StateSynced
    ensures Shown(inp, rin, e).teams == Shown(inp, rin, e).desiredTeams
  {
    StandingOf(inp, rin, e);
    StandingFlags(inp, rin, e);
  }

  /** Nobody shown as synced is named by any action of the full plan. */
  lemma SyncedIsLeftAlone(inp: Inputs, rin: RenderInputs, e: Entry, a: Action)
    requires Wired(inp, rin) && rin.mode == Full && e in inp.entries && Lower(a.login) == Lower(e.github)
    requires Shown(inp, rin, e).state == StateSynced
    ensures !Owes(StanzaFor(rin), rin.state, a)
  {
    SyncedSeat(inp, rin, e, a);
    SyncedTeams(inp, rin, e);
    TeamChangesIff(inp, rin, e, a.team);
    assert OwesTeam(StanzaFor(rin), rin.state, a) ==> ChangesTeam(StanzaFor(rin), rin.state, a.team, Lower(e.github));
  }

  // ----- display-only people -----

  /** Every identity this non-bot resolves to, of which there is one, is in a
      domain that does not sync. */
  ghost predicate OnlyDisplayed(inp: Inputs, e: Entry) {
    e.class_ != CLASS_BOT && Reached(inp, e, AnyUser()) && !Reached(inp, e, SyncedUser(inp.config))
  }

  /** Every identity kept for a display-only person is in an unsynced domain. */
  lemma UnsyncedIdentity(inp: Inputs, e: Entry, source: string)
    requires OnlyDisplayed(inp, e) && Resolve(inp, e).Some? && source in Resolve(inp, e).value.directories
    ensures !Syncs(inp.config, EmailDomain(Resolve(inp, e).value.directories[source].email))
  {
    ResolvedIdentity(inp, e, source);
    var i: nat :| KnownBy(inp, e, source, i);
    KnownByReaches(inp, e, source, i);
    var a := Accounts(inp.snapshots)[i];
    assert a in Accounts(inp.snapshots);
    assert Syncs(inp.config, EmailDomain(a.user.email)) ==> SyncedUser(inp.config)(a.user);
  }

  /** Display-only people are granted nothing beyond their pins. */
  lemma DisplayOnlyGrantsNothing(inp: Inputs, org: Org, e: Entry)
    requires OnlyDisplayed(inp, e)
    ensures PersonOf(inp, e).displayOnly
    ensures !GrantLive(inp.config, org, e, Resolve(inp, e), PersonLive(e, Resolve(inp, e)))
    ensures forall name :: name in StandingIn(inp, org, e).desiredTeams ==> name in org.teams && org.teams[name].pinned
  {
    ResolveMeans(inp, e);
    DisplayedIsNotLive(inp, org, e);
    var l := Resolve(inp, e);
    AscendingSound(set name | name in org.teams && Wants(org, e, l, false, name));
  }

  lemma DisplayedIsNotLive(inp: Inputs, org: Org, e: Entry)
    requires OnlyDisplayed(inp, e)
    ensures !GrantLive(inp.config, org, e, Resolve(inp, e), PersonLive(e, Resolve(inp, e)))
  {
    ResolveMeans(inp, e);
    if org.company in Resolve(inp, e).value.directories {
      UnsyncedIdentity(inp, e, org.company);
    }
  }

  lemma DisplayOnlyIsKept(inp: Inputs, rin: RenderInputs, e: Entry, login: string)
    requires Wired(inp, rin) && e in inp.entries && OnlyDisplayed(inp, e) && Lower(login) == Lower(e.github)
    ensures !Owes(StanzaFor(rin), rin.state, Removal(login))
  {
    DisplayOnlyGrantsNothing(inp, rin.org, e);
    RemovedIff(inp, rin, login);
    forall f | f in inp.entries && Lower(f.github) == Lower(login) ensures !Leaver(inp, rin, f) {
      EntryOfLogin(inp.entries, e, f);
    }
  }

  lemma DisplayOnlyIsNotAdded(inp: Inputs, rin: RenderInputs, e: Entry)
    requires Wired(inp, rin) && e in inp.entries && OnlyDisplayed(inp, e)
    ensures !exists a :: Owes(StanzaFor(rin), rin.state, a) && AddsMember(a, Lower(e.github))
  {
    DisplayOnlyGrantsNothing(inp, rin.org, e);
    StandingOf(inp, rin, e);
    StandingFlags(inp, rin, e);
    AdditionOwed(StanzaFor(rin), rin.state, Lower(e.github));
    if rin.mode == RemovalsOnly {
      forall a | Owes(StanzaFor(rin), rin.state, a) ensures a.kind != AddMember {
        Safety.RemovalsOnlyNeverGrants(rin, a);
      }
    } else if Lower(e.github) !in Current(rin.state.members) && Lower(e.github) !in Invited(rin.state.invitations) {
      OutsiderWanted(inp, rin, e);
    }
  }

  /** Display-only people are inert at organization level, in both modes. */
  lemma DisplayOnlyIsInert(inp: Inputs, rin: RenderInputs, e: Entry, a: Action)
    requires Wired(inp, rin) && e in inp.entries && OnlyDisplayed(inp, e) && Lower(a.login) == Lower(e.github)
    ensures Owes(StanzaFor(rin), rin.state, a) ==> a.kind != AddMember && a.kind != RemoveMember
  {
    DisplayOnlyIsNotAdded(inp, rin, e);
    DisplayOnlyIsKept(inp, rin, e, a.login);
    NeitherKind(StanzaFor(rin), rin.state, a);
  }

  lemma NeitherKind(cfg: OrgDoc, s: State, a: Action)
    requires !exists b :: Owes(cfg, s, b) && AddsMember(b, Lower(a.login))
    requires !Owes(cfg, s, Removal(a.login))
    ensures Owes(cfg, s, a) ==> a.kind != AddMember && a.kind != RemoveMember
  {
  }

  lemma RemovalOfAction(cfg: OrgDoc, s: State, a: Action)
    requires Owes(cfg, s, a) && a.kind == RemoveMember
    ensures a == Removal(a.login)
  {
  }

  // ----- who leaves, in terms of directories alone -----

  /** Account i is the person's identity in the organization's own company, in a
      domain that syncs. */
  ghost predicate AtHome(inp: Inputs, org: Org, e: Entry, i: nat) {
    KnownBy(inp, e, org.company, i) && Syncs(inp.config, EmailDomain(Accounts(inp.snapshots)[i].user.email))
  }

  ghost predicate HasHome(inp: Inputs, org: Org, e: Entry) {
    exists i: nat :: AtHome(inp, org, e, i)
  }

  /** The home-company rule: an account at home decides alone; without one, any live
      account in a synced domain will do. */
  ghost predicate LiveHere(inp: Inputs, org: Org, e: Entry) {
    if HasHome(inp, org, e) then exists i: nat :: AtHome(inp, org, e, i) && Accounts(inp.snapshots)[i].user.live
    else Reached(inp, e, LiveSyncedUser(inp.config))
  }

  lemma SyncedIsReached(inp: Inputs, e: Entry)
    ensures Reached(inp, e, LiveSyncedUser(inp.config)) ==> Reached(inp, e, SyncedUser(inp.config))
    ensures Reached(inp, e, SyncedUser(inp.config)) ==> Reached(inp, e, AnyUser())
  {
    forall a | a in Accounts(inp.snapshots) && ReachesName(inp, e, a.user.name)
      ensures LiveSyncedUser(inp.config)(a.user) ==> SyncedUser(inp.config)(a.user)
      ensures SyncedUser(inp.config)(a.user) ==> AnyUser()(a.user)
    {
    }
  }

  lemma HomeIsKept(inp: Inputs, org: Org, e: Entry)
    ensures HasHome(inp, org, e) <==>
      var l := Resolve(inp, e);
      l.Some? && org.company in l.value.directories && Syncs(inp.config, EmailDomain(l.value.directories[org.company].email))
    ensures forall i: nat :: AtHome(inp, org, e, i) ==>
      Resolve(inp, e).Some? && org.company in Resolve(inp, e).value.directories &&
      Resolve(inp, e).value.directories[org.company].live == Accounts(inp.snapshots)[i].user.live
  {
    ResolveMeans(inp, e);
    forall i: nat | KnownBy(inp, e, org.company, i) ensures Resolve(inp, e).Some? {
      KnownByReaches(inp, e, org.company, i);
      var a := Accounts(inp.snapshots)[i];
      assert a in Accounts(inp.snapshots) && AnyUser()(a.user);
    }
    if Resolve(inp, e).Some? {
      ResolvedIdentity(inp, e, org.company);
      if org.company in Resolve(inp, e).value.directories {
        var i: nat :| KnownBy(inp, e, org.company, i);
        assert AtHome(inp, org, e, i) <==> Syncs(inp.config, EmailDomain(Resolve(inp, e).value.directories[org.company].email));
      }
    }
  }

  /** What the roster grants by is the home-company rule. */
  lemma GrantLiveMeans(inp: Inputs, org: Org, e: Entry)
    ensures GrantLive(inp.config, org, e, Resolve(inp, e), PersonLive(e, Resolve(inp, e))) <==>
      e.class_ == CLASS_BOT || LiveHere(inp, org, e)
  {
    ResolveMeans(inp, e);
    HomeIsKept(inp, org, e);
    SyncedIsReached(inp, e);
  }

  /** The source s can vouch for the person: it holds an account of theirs, or the
      configuration declares it for one of their addresses. */
  ghost predicate Vouches(inp: Inputs, e: Entry, s: string) {
    || (exists a :: a in Accounts(inp.snapshots) && ReachesName(inp, e, a.user.name) && a.source == s)
    || Declared(inp.config, e.emails, s)
  }

  lemma VouchesMeans(inp: Inputs, e: Entry, s: string)
    ensures Vouches(inp, e, s) <==> s in PersonOf(inp, e).sources || s in PersonOf(inp, e).expectedSources
  {
    SourcesForMeans(inp.config, e.emails, s);
    ResolveMeans(inp, e);
    if Resolve(inp, e).Some? {
      ResolvedSources(inp, e, s);
    }
    forall a | a in Accounts(inp.snapshots) && ReachesName(inp, e, a.user.name) ensures Resolve(inp, e).Some? {
      assert AnyUser()(a.user);
    }
  }

  /** Who leaves, said of directory accounts, configuration and source health alone:
      no bot, live here by no account, not known only to domains that do not sync,
      and vouched for by no unhealthy source. */
  lemma LeaverInDirectories(inp: Inputs, rin: RenderInputs, e: Entry)
    requires "" !in rin.unhealthy
    ensures Leaver(inp, rin, e) <==>
      && e.class_ != CLASS_BOT
      && !LiveHere(inp, rin.org, e)
      && (Reached(inp, e, AnyUser()) ==> Reached(inp, e, SyncedUser(inp.config)))
      && forall s :: s in rin.unhealthy ==> !Vouches(inp, e, s)
  {
    ResolveMeans(inp, e);
    GrantLiveMeans(inp, rin.org, e);
    LeaverMeans(inp, rin, e);
    forall s {
      VouchesMeans(inp, e, s);
    }
    assert PersonOf(inp, e).displayOnly == IsDisplayOnly(e, Resolve(inp, e));
  }

  /** An employee no directory knows, with no address in a configured domain, has
      nobody to vouch for them, and leaves whatever the health of the sources. */
  lemma StrangerLeaves(inp: Inputs, rin: RenderInputs, e: Entry)
    requires e.class_ != CLASS_BOT && !Reached(inp, e, AnyUser())
    requires forall s :: !Declared(inp.config, e.emails, s)
    ensures Leaver(inp, rin, e)
  {
    ResolveMeans(inp, e);
    forall s {
      SourcesForMeans(inp.config, e.emails, s);
    }
    NonEmptyHas(SourcesFor(inp.config, e.emails));
    assert PersonOf(inp, e).sources + PersonOf(inp, e).expectedSources == [];
  }

  // ----- what the roster says of directories -----

  /** A person is live when a bot, or when some account their entry reaches is. */
  lemma PersonLiveIff(inp: Inputs, e: Entry)
    ensures PersonOf(inp, e).live <==> e.class_ == CLASS_BOT || Reached(inp, e, LiveUser())
  {
    ResolveMeans(inp, e);
    if Reached(inp, e, LiveUser()) {
      var a :| a in Accounts(inp.snapshots) && ReachesName(inp, e, a.user.name) && a.user.live;
      assert AnyUser()(a.user);
    }
  }

  /** The unmapped warnings are the live names no entry reaches. */
  lemma UnmappedMeans(inp: Inputs, r: Roster, n: string)
    requires IsJoin(inp, r)
    ensures n in r.unmapped <==>
      n != "" && AnAccount(Accounts(inp.snapshots), n, LiveUser()) && forall e :: e in inp.entries ==> !ReachesName(inp, e, n)
  {
    AscendingSound(Unmapped(inp));
    var accounts := Accounts(inp.snapshots);
    NamelessHasNoRecord(inp, accounts);
    if n != "" {
      RecordMeans(inp, accounts, n);
      if !AnAccount(accounts, n, AnyUser()) {
        NoneOf(accounts, n, LiveUser());
      }
      forall e | e in inp.entries && n in Records(inp, accounts)
        ensures CoversName(inp, e, n) <==> ReachesName(inp, e, n)
      {
        ClaimsMean(inp, e, n);
      }
    }
  }
}
