/** Promises the service's comments make that its code keeps only in part, each
    with the exact condition under which it does. */
module Promises {
  import opened Text
  import opened Indexing
  import opened OrgState
  import opened Config
  import opened Mapping
  import opened Document
  import opened PlanSpec
  import opened Directory
  import opened Liveness
  import opened LivenessMeaning
  import opened Roster
  import opened RenderSpec
  import opened RenderMeaning
  import opened Pipeline
  import NextPass
  import Execution
  import Safety
  import Sorting

  // ----- small worlds -----

  /** One organization, read alone: no directory, and at most one entry. */
  function Alone(org: Org, entries: seq<Entry>, state: State): Inputs {
    Inputs(Config([], [org], 0), [], entries, map[org.name := state])
  }

  /** The pass over it. */
  ghost function PassOver(mode: Mode, org: Org, entries: seq<Entry>, state: State): RenderInputs {
    var inp := Alone(org, entries, state);
    RenderInputs(mode, org, Roster(PeopleOf(inp, entries), [], []), state, [])
  }

  lemma PassIsWired(mode: Mode, org: Org, entries: seq<Entry>, state: State)
    requires |entries| <= 1 && (forall e :: e in entries ==> e.github != "") && MembersDistinct(state.members)
    ensures Wired(Alone(org, entries, state), PassOver(mode, org, entries, state))
    ensures forall e, p :: !Reached(Alone(org, entries, state), e, p)
  {
    var inp := Alone(org, entries, state);
    assert Accounts(inp.snapshots) == [];
    assert FoldedGroups(inp.snapshots) == [] && Sorting.SortStrings([]) == [];
    assert Unmapped(inp) == {};
    Sorting.AscendingSound({});
    assert Sorting.Ascending({}) == [];
    assert |PeopleOf(inp, entries)| == |entries| by {
      if |entries| == 1 {
        assert entries[..0] == [];
      }
    }
    assert org in [org];
  }

  /** What the roster says of an entry no directory knows. */
  lemma StandingAlone(org: Org, entries: seq<Entry>, state: State, e: Entry)
    requires forall p :: !Reached(Alone(org, entries, state), e, p)
    ensures var inp := Alone(org, entries, state); var m := StandingIn(inp, org, e);
      && (m.live <==> e.class_ == CLASS_BOT) && !m.displayOnly && !PersonOf(inp, e).displayOnly
      && forall name :: name in m.desiredTeams <==>
        name in org.teams && org.teams[name].pinned && HasPinned(e, org.name, name)
  {
    var inp := Alone(org, entries, state);
    ResolveMeans(inp, e);
    var l := Resolve(inp, e);
    assert l.None?;
    var isLive := GrantLive(inp.config, org, e, l, PersonLive(e, l));
    Sorting.AscendingSound(set name | name in org.teams && Wants(org, e, l, isLive, name));
  }

  const PINNED_TEAM := map["t" := Team([], [], true)]

  /** A bot and an employee no directory knows, both pinned to the team. */
  const BOT := Entry("B", "b", [], "", CLASS_BOT, ["o/t"], "", "", "")
  const STRANGER := Entry("S", "s", [], "", CLASS_EMPLOYEE, ["o/t"], "", "", "")

  function OrgWith(exceptions: seq<string>): Org {
    Org("o", "", "", "", "", exceptions, PINNED_TEAM, 0, false)
  }

  lemma PinnedAlone(exceptions: seq<string>, e: Entry, state: State)
    requires e == BOT || e == STRANGER
    ensures forall p :: !Reached(Alone(OrgWith(exceptions), [e], state), e, p)
    ensures "t" in StandingIn(Alone(OrgWith(exceptions), [e], state), OrgWith(exceptions), e).desiredTeams
    ensures StandingIn(Alone(OrgWith(exceptions), [e], state), OrgWith(exceptions), e).live <==> e == BOT
  {
    var inp := Alone(OrgWith(exceptions), [e], state);
    assert Accounts(inp.snapshots) == [];
    StandingAlone(OrgWith(exceptions), [e], state, e);
    assert "o" + "/" + "t" == "o/t" && EqualFold("o/t", "o/t") && "o/t" in e.pinned;
  }

  // ----- who a rendered plan names -----

  /** Some action of the plan names the login k. */
  ghost predicate Named(rin: RenderInputs, k: string) {
    exists a :: Owes(StanzaFor(rin), rin.state, a) && Lower(a.login) == k
  }

  ghost predicate Invites(rin: RenderInputs, k: string) {
    exists a :: Owes(StanzaFor(rin), rin.state, a) && AddsMember(a, k)
  }

  ghost predicate Removes(rin: RenderInputs, k: string) {
    exists login :: Owes(StanzaFor(rin), rin.state, Removal(login)) && Lower(login) == k
  }

  ghost predicate MovesInTeams(rin: RenderInputs, k: string) {
    exists name :: ChangesTeam(StanzaFor(rin), rin.state, name, k)
  }

  /** A rendered plan can name somebody in three ways only. */
  lemma NamedIff(rin: RenderInputs, k: string)
    requires MembersDistinct(rin.state.members)
    ensures Named(rin, k) <==> Invites(rin, k) || Removes(rin, k) || MovesInTeams(rin, k)
  {
    forall a | Owes(StanzaFor(rin), rin.state, a) && Lower(a.login) == k
      ensures Invites(rin, k) || Removes(rin, k) || MovesInTeams(rin, k)
    {
      WayNamed(rin, a);
    }
    if name :| ChangesTeam(StanzaFor(rin), rin.state, name, k) {
      var a :| OwesTeam(StanzaFor(rin), rin.state, a) && a.team == name && Lower(a.login) == k;
      assert Owes(StanzaFor(rin), rin.state, a);
    }
  }

  lemma WayNamed(rin: RenderInputs, a: Action)
    requires MembersDistinct(rin.state.members) && Owes(StanzaFor(rin), rin.state, a)
    ensures Invites(rin, Lower(a.login)) || Removes(rin, Lower(a.login)) || MovesInTeams(rin, Lower(a.login))
  {
    Safety.NeverOwnersOrWithdrawals(rin, a);
    Safety.NeverRoles(rin, a);
    if OwesTeam(StanzaFor(rin), rin.state, a) {
      assert ChangesTeam(StanzaFor(rin), rin.state, a.team, Lower(a.login));
    } else if a.kind == AddMember {
      assert AddsMember(a, Lower(a.login));
    } else {
      RemovalOfAction(StanzaFor(rin), rin.state, a);
    }
  }

  /** A non-member the roster puts in the organization. */
  ghost predicate OwedInvite(rin: RenderInputs, k: string) {
    && rin.mode == Full && k !in Current(rin.state.members) && k !in Invited(rin.state.invitations)
    && exists p :: p in rin.roster.people && Belongs(rin, p) && Lower(p.github) == k
  }

  lemma PersonBelongs(rin: RenderInputs, k: string)
    ensures HasPerson(rin.roster.people, BelongTest(rin), k) <==>
      exists p :: p in rin.roster.people && Belongs(rin, p) && Lower(p.github) == k
  {
    forall p ensures BelongTest(rin)(p) == Belongs(rin, p) {}
  }

  lemma OrdinaryMember(state: State, test: string -> bool, k: string)
    ensures HasOrdinary(state, test, k) ==> k in Current(state.members)
  {
    if HasOrdinary(state, test, k) {
      Safety.OrdinaryIsCurrent(state, test, k);
    }
  }

  lemma InvitesIff(rin: RenderInputs, k: string)
    ensures Invites(rin, k) <==> OwedInvite(rin, k)
  {
    AdditionOwed(StanzaFor(rin), rin.state, k);
    StanzaMeans(rin, k);
    IndexBySound(rin.state.members, MemberKey);
    PersonBelongs(rin, k);
    match rin.mode {
      case RemovalsOnly =>
        forall a | Owes(StanzaFor(rin), rin.state, a) ensures !AddsMember(a, k) {
          Safety.RemovalsOnlyNeverGrants(rin, a);
        }
      case Full =>
        FullMeans(rin, k);
        OrdinaryMember(rin.state, ExceptionTest(rin), k);
        OrdinaryMember(rin.state, UnknownTest(rin, PeopleByLogin(rin.roster.people)), k);
    }
  }

  /** The full plan takes a seat from the login k in the team, or gives it one. */
  ghost predicate OwedMove(rin: RenderInputs, name: string, k: string) {
    && rin.mode == Full && name in rin.org.teams && name in rin.state.teams && name in rin.state.teamMembers
    && if HasKey(rin.state.teamMembers[name], k) then
         !KeepsResidents(rin, name) && !HasPerson(rin.roster.people, WantsTeam(rin, name), k)
       else HasPerson(rin.roster.people, WantsTeam(rin, name), k)
  }

  lemma MoveIff(rin: RenderInputs, name: string, k: string)
    ensures ChangesTeam(StanzaFor(rin), rin.state, name, k) <==> OwedMove(rin, name, k)
  {
    ChangesTeamIff(StanzaFor(rin), rin.state, name, k);
    if name in StanzaFor(rin).teams && name in rin.state.teamMembers {
      TeamMeans(rin, name, k);
      ByLowerKeys(rin.state.teamMembers[name], k);
    }
  }

  lemma MovesIff(rin: RenderInputs, k: string)
    ensures MovesInTeams(rin, k) <==> exists name :: OwedMove(rin, name, k)
  {
    forall name {
      MoveIff(rin, name, k);
    }
  }

  // ----- exceptions -----

  lemma ExceptionStays(rin: RenderInputs, login: string)
    requires rin.org.IsException(login)
    ensures !Removes(rin, Lower(login))
  {
    var k := Lower(login);
    StanzaMeans(rin, k);
    IndexBySound(rin.state.members, MemberKey);
    if k in Current(rin.state.members) {
      var m := Current(rin.state.members)[k];
      assert rin.org.IsException(m.login);
      OrdinaryIsMember(rin.state, m.login);
      match rin.mode {
        case RemovalsOnly =>
          RemovalsOnlyMeans(rin, k);
          assert m.role != RoleAdmin ==> KeepTest(rin, PeopleByLogin(rin.roster.people))(m.login);
        case Full =>
          FullMeans(rin, k);
          assert m.role != RoleAdmin ==> ExceptionTest(rin)(m.login);
      }
      assert k in Desired(StanzaFor(rin));
    }
    forall x | Lower(x) == k ensures !Owes(StanzaFor(rin), rin.state, Removal(x)) {
      RemovalIsOwed(StanzaFor(rin), rin.state, x);
    }
  }

  /** An excepted login is touched exactly when a full sync owes it an invitation, or
      a seat in a team, or takes a seat from it; it is never removed. */
  lemma ExceptionNamedIff(rin: RenderInputs, login: string)
    requires MembersDistinct(rin.state.members) && rin.org.IsException(login)
    ensures Named(rin, Lower(login)) <==>
      OwedInvite(rin, Lower(login)) || exists name :: OwedMove(rin, name, Lower(login))
  {
    NamedIff(rin, Lower(login));
    ExceptionStays(rin, login);
    InvitesIff(rin, Lower(login));
    MovesIff(rin, Lower(login));
  }

  /** The bot is put in the organization by its pin. */
  lemma BotBelongs(exceptions: seq<string>, state: State)
    requires MembersDistinct(state.members)
    ensures var inp, rin := Alone(OrgWith(exceptions), [BOT], state), PassOver(Full, OrgWith(exceptions), [BOT], state);
      Wired(inp, rin) && PersonOf(inp, BOT) in rin.roster.people && Belongs(rin, PersonOf(inp, BOT))
  {
    var org := OrgWith(exceptions);
    var inp, rin := Alone(org, [BOT], state), PassOver(Full, org, [BOT], state);
    PassIsWired(Full, org, [BOT], state);
    PinnedAlone(exceptions, BOT, state);
    StandingAlone(org, [BOT], state, BOT);
    StandingOf(inp, rin, BOT);
    assert BOT in inp.entries;
    RosterMeans(inp, rin.roster, PersonOf(inp, BOT));
  }

  const NOBODY := State([], [], [], map[])

  /** For example: an exception nobody invited is invited, a bot with a pin. */
  lemma ExceptionInvitedExample()
    ensures var rin := PassOver(Full, OrgWith(["b"]), [BOT], NOBODY);
      Wired(Alone(OrgWith(["b"]), [BOT], NOBODY), rin) && rin.org.IsException("b") && Invites(rin, "b")
  {
    var rin := PassOver(Full, OrgWith(["b"]), [BOT], NOBODY);
    BotBelongs(["b"], NOBODY);
    assert Lower("b") == "b";
    assert EqualFold("b", "b") && "b" in rin.org.exceptions;
    InvitesIff(rin, "b");
  }

  /** An organization whose one exception sits in a team nobody is mapped to. */
  const SEATED := Org("o", "", "", "", "", ["e"], map["t" := Team([], [], false)], 0, false)
  const SEATED_STATE := State([Member("e", RoleMember)], [], ["t"], map["t" := ["e"]])

  /** For example: an exception loses a seat in a team. */
  lemma ExceptionMovedExample()
    ensures var rin := PassOver(Full, SEATED, [], SEATED_STATE);
      && Wired(Alone(SEATED, [], SEATED_STATE), rin)
      && rin.org.IsException("e") && ChangesTeam(StanzaFor(rin), rin.state, "t", "e")
  {
    var rin := PassOver(Full, SEATED, [], SEATED_STATE);
    PassIsWired(Full, SEATED, [], SEATED_STATE);
    assert Lower("e") == "e";
    assert EqualFold("e", "e") && "e" in rin.org.exceptions;
    assert "e" in rin.state.teamMembers["t"];
    assert HasKey(rin.state.teamMembers["t"], "e");
    assert OwedMove(rin, "t", "e");
    MoveIff(rin, "t", "e");
  }

  // ----- the additions a render reports -----

  /** An owner, not also invited, whom the roster puts in the organization. */
  ghost predicate WantedOwner(rin: RenderInputs, k: string) {
    && rin.mode == Full && HasMember(rin.state.members, true, k) && k !in Invited(rin.state.invitations)
    && exists p :: p in rin.roster.people && Belongs(rin, p) && Lower(p.github) == k
  }

  lemma ReportedIff(rin: RenderInputs, k: string)
    requires RenderOf(rin).Rendered?
    ensures HasKey(RenderOf(rin).result.adding, k) <==> HasKey(MembersFor(rin), k) && !HasKey(OccupiedSeats(rin.state), k)
  {
    var desired, occupied := MembersFor(rin), OccupiedSeats(rin.state);
    forall x ensures x in Missing(desired, occupied) <==> x in desired && !HasKey(occupied, Lower(x)) {
      MissingMeans(desired, occupied, x);
    }
  }

  lemma SeatsMean(state: State, k: string)
    ensures HasKey(OccupiedSeats(state), k) <==> HasMember(state.members, false, k) || k in Invited(state.invitations)
  {
    HasKeyConcat(Ordinary(state), InvitedLogins(state.invitations), k);
    RoleLogins(state, false, k);
    InvitedLoginsMean(state.invitations, k);
  }

  lemma OwnerIsNotOrdinary(state: State, k: string)
    requires MembersDistinct(state.members) && HasMember(state.members, true, k)
    ensures !HasMember(state.members, false, k) && k in Current(state.members)
    ensures forall test: string -> bool :: !HasOrdinary(state, test, k)
  {
    IndexBySound(state.members, MemberKey);
    forall m | m in state.members && Lower(m.login) == k ensures m.role == RoleAdmin {
      if m.role != RoleAdmin {
        NotBoth(state, m);
      }
    }
    forall x | x in Ordinary(state) ensures Lower(x) != k {
      OrdinaryIsMember(state, x);
    }
  }

  lemma WantedOwnerIff(rin: RenderInputs, k: string)
    requires MembersDistinct(rin.state.members) && HasMember(rin.state.members, true, k) && k !in Invited(rin.state.invitations)
    ensures HasKey(MembersFor(rin), k) <==> WantedOwner(rin, k)
  {
    OwnerIsNotOrdinary(rin.state, k);
    PersonBelongs(rin, k);
    match rin.mode
    case RemovalsOnly => RemovalsOnlyMeans(rin, k);
    case Full => FullMeans(rin, k);
  }

  /** The additions a render reports are the plan's, and the owners it wants. */
  lemma AddingIff(rin: RenderInputs, k: string)
    requires MembersDistinct(rin.state.members) && RenderOf(rin).Rendered?
    ensures HasKey(RenderOf(rin).result.adding, k) <==> Invites(rin, k) || WantedOwner(rin, k)
  {
    ReportedIff(rin, k);
    SeatsMean(rin.state, k);
    AdditionOwed(StanzaFor(rin), rin.state, k);
    StanzaMeans(rin, k);
    IndexBySound(rin.state.members, MemberKey);
    if HasMember(rin.state.members, true, k) {
      OwnerIsNotOrdinary(rin.state, k);
      if k !in Invited(rin.state.invitations) {
        WantedOwnerIff(rin, k);
      }
    } else if k in Current(rin.state.members) {
      assert Current(rin.state.members)[k].role != RoleAdmin;
    }
  }

  /** The additions a render reports are exactly the plan's if and only if it wants
      no owner. */
  lemma AddingIsAddedIff(rin: RenderInputs)
    requires MembersDistinct(rin.state.members) && RenderOf(rin).Rendered?
    ensures (forall k :: HasKey(RenderOf(rin).result.adding, k) <==> Invites(rin, k)) <==> !exists k :: WantedOwner(rin, k)
  {
    forall k ensures HasKey(RenderOf(rin).result.adding, k) <==> Invites(rin, k) || WantedOwner(rin, k) {
      AddingIff(rin, k);
    }
    forall k | WantedOwner(rin, k) ensures !Invites(rin, k) {
      OwnerIsNotInvited(rin, k);
    }
  }

  lemma OwnerIsNotInvited(rin: RenderInputs, k: string)
    requires MembersDistinct(rin.state.members) && HasMember(rin.state.members, true, k)
    ensures !Invites(rin, k)
  {
    AdditionOwed(StanzaFor(rin), rin.state, k);
    OwnerIsNotOrdinary(rin.state, k);
  }

  const BOT_OWNS := State([Member("b", RoleAdmin)], [], [], map[])

  lemma BotIsWantedOwner()
    ensures var rin := PassOver(Full, OrgWith([]), [BOT], BOT_OWNS); Lower("b") == "b" && WantedOwner(rin, "b")
  {
    BotBelongs([], BOT_OWNS);
    assert Lower("b") == "b";
    assert Member("b", RoleAdmin) in BOT_OWNS.members;
    assert Invited(BOT_OWNS.invitations) == map[];
  }

  lemma FullIsRendered(rin: RenderInputs)
    requires rin.mode == Full
    ensures RenderOf(rin).Rendered?
  {
  }

  /** For example: a render reports adding an owner its plan does not add. */
  lemma AddingExample()
    ensures var rin := PassOver(Full, OrgWith([]), [BOT], BOT_OWNS);
      && Wired(Alone(OrgWith([]), [BOT], BOT_OWNS), rin)
      && RenderOf(rin).Rendered? && HasKey(RenderOf(rin).result.adding, "b") && !Invites(rin, "b")
  {
    var rin := PassOver(Full, OrgWith([]), [BOT], BOT_OWNS);
    PassIsWired(Full, OrgWith([]), [BOT], BOT_OWNS);
    BotIsWantedOwner();
    FullIsRendered(rin);
    AddingIff(rin, "b");
    OwnerIsNotInvited(rin, "b");
  }

  // ----- nothing to do -----

  /** A full plan names somebody shown with no state exactly when the roster shows a
      team they want and lack, or hold and do not want: a pin alone can do it, to
      somebody who is not live and not a member. */
  lemma NoStateNamedIff(inp: Inputs, rin: RenderInputs, e: Entry)
    requires Wired(inp, rin) && rin.mode == Full && e in inp.entries && Shown(inp, rin, e).state == StateNone
    ensures Named(rin, Lower(e.github)) <==>
      exists name :: name in rin.org.teams && name in rin.state.teams && name in rin.state.teamMembers &&
        if name in Shown(inp, rin, e).teams then name !in Shown(inp, rin, e).desiredTeams && !KeepsResidents(rin, name)
        else name in Shown(inp, rin, e).desiredTeams
  {
    var k := Lower(e.github);
    NamedIff(rin, k);
    PendingIffAdded(inp, rin, e);
    forall login | Lower(login) == k ensures !Owes(StanzaFor(rin), rin.state, Removal(login)) {
      if Owes(StanzaFor(rin), rin.state, Removal(login)) {
        RemovedIsLeaving(inp, rin, e, login);
      }
    }
    forall name {
      TeamChangesIff(inp, rin, e, name);
    }
  }

  /** An employee no directory knows, pinned to an empty team. */
  const EMPTY_TEAM := State([], [], ["t"], map["t" := []])

  /** For example: somebody shown with no state whom the full plan names. */
  lemma NoStateNamedExample()
    ensures var inp, rin := Alone(OrgWith([]), [STRANGER], EMPTY_TEAM), PassOver(Full, OrgWith([]), [STRANGER], EMPTY_TEAM);
      Wired(inp, rin) && Shown(inp, rin, STRANGER).state == StateNone && Named(rin, "s")
  {
    var inp, rin := Alone(OrgWith([]), [STRANGER], EMPTY_TEAM), PassOver(Full, OrgWith([]), [STRANGER], EMPTY_TEAM);
    PassIsWired(Full, OrgWith([]), [STRANGER], EMPTY_TEAM);
    PinnedAlone([], STRANGER, EMPTY_TEAM);
    StandingAlone(OrgWith([]), [STRANGER], EMPTY_TEAM, STRANGER);
    StandingOf(inp, rin, STRANGER);
    StandingFlags(inp, rin, STRANGER);
    assert Lower("s") == "s";
    ManagedMeans(rin.org, rin.state, "s", "t");
    assert !HasKey([], "s");
    assert STRANGER in inp.entries;
    NoStateNamedIff(inp, rin, STRANGER);
  }

  // ----- who is reported suspended -----

  /** A healthy directory reports an account of theirs suspended. */
  ghost predicate ReportedSuspended(inp: Inputs, rin: RenderInputs, e: Entry) {
    exists a :: a in Accounts(inp.snapshots) && ReachesName(inp, e, a.user.name) && !a.user.live && a.source !in rin.unhealthy
  }

  /** Somebody at home is not live there unless live here. */
  lemma SuspendedAtHome(inp: Inputs, org: Org, e: Entry) returns (a: Account)
    requires Reached(inp, e, SyncedUser(inp.config)) && !LiveHere(inp, org, e)
    ensures a in Accounts(inp.snapshots) && ReachesName(inp, e, a.user.name) && !a.user.live
  {
    if HasHome(inp, org, e) {
      var i: nat :| AtHome(inp, org, e, i);
      KnownByReaches(inp, e, org.company, i);
      a := Accounts(inp.snapshots)[i];
    } else {
      a :| a in Accounts(inp.snapshots) && ReachesName(inp, e, a.user.name) && SyncedUser(inp.config)(a.user);
      assert a.user.live ==> LiveSyncedUser(inp.config)(a.user);
    }
  }

  /** Of those who leave, a healthy directory reports suspended exactly the ones some
      directory knows. */
  lemma SuspendedIffKnown(inp: Inputs, rin: RenderInputs, e: Entry)
    requires "" !in rin.unhealthy && Leaver(inp, rin, e)
    ensures ReportedSuspended(inp, rin, e) <==> Reached(inp, e, AnyUser())
  {
    LeaverInDirectories(inp, rin, e);
    if Reached(inp, e, AnyUser()) {
      var a := SuspendedAtHome(inp, rin.org, e);
      assert Vouches(inp, e, a.source);
    }
    forall a | a in Accounts(inp.snapshots) && ReachesName(inp, e, a.user.name) ensures AnyUser()(a.user) {}
  }

  /** An employee no directory knows, whom no unhealthy source is declared to know. */
  ghost predicate Stranger(inp: Inputs, rin: RenderInputs, e: Entry) {
    && e.class_ != CLASS_BOT && !Reached(inp, e, AnyUser())
    && forall s :: s in rin.unhealthy ==> !Declared(inp.config, e.emails, s)
  }

  /** Somebody no directory knows leaves exactly when a stranger. */
  lemma StrangerLeavesIff(inp: Inputs, rin: RenderInputs, e: Entry)
    requires "" !in rin.unhealthy && !Reached(inp, e, AnyUser())
    ensures Leaver(inp, rin, e) <==> Stranger(inp, rin, e)
  {
    LeaverInDirectories(inp, rin, e);
    SyncedIsReached(inp, e);
    forall a | a in Accounts(inp.snapshots) ensures !ReachesName(inp, e, a.user.name) {
      assert AnyUser()(a.user);
    }
    if HasHome(inp, rin.org, e) {
      HomeIsReached(inp, rin.org, e);
    }
  }

  lemma HomeIsReached(inp: Inputs, org: Org, e: Entry)
    requires HasHome(inp, org, e)
    ensures Reached(inp, e, AnyUser())
  {
    var i: nat :| AtHome(inp, org, e, i);
    KnownByReaches(inp, e, org.company, i);
    assert AnyUser()(Accounts(inp.snapshots)[i].user);
  }

  /** The login of the entry is an ordinary member's, neither an exception nor invited. */
  ghost predicate Removable(inp: Inputs, rin: RenderInputs, login: string, e: Entry) {
    && e in inp.entries && Lower(e.github) == Lower(login)
    && Member(login, RoleMember) in rin.state.members && !rin.org.IsException(login) && Lower(login) !in Invited(rin.state.invitations)
  }

  /** The plan removes the login, which is the entry's. */
  ghost predicate Removed(inp: Inputs, rin: RenderInputs, login: string, e: Entry) {
    e in inp.entries && Lower(e.github) == Lower(login) && Owes(StanzaFor(rin), rin.state, Removal(login))
  }

  /** Of those removed, the strangers are the ones nobody reports suspended. */
  lemma RemovedUnreportedIff(inp: Inputs, rin: RenderInputs, login: string, e: Entry)
    requires Wired(inp, rin) && "" !in rin.unhealthy
    ensures Removed(inp, rin, login, e) && !ReportedSuspended(inp, rin, e) <==>
      Removable(inp, rin, login, e) && Stranger(inp, rin, e)
  {
    RemovedIff(inp, rin, login);
    if e in inp.entries && Lower(e.github) == Lower(login) {
      forall f | f in inp.entries && Lower(f.github) == Lower(login) ensures f == e {
        EntryOfLogin(inp.entries, e, f);
      }
    }
    if Leaver(inp, rin, e) {
      SuspendedIffKnown(inp, rin, e);
    }
    if !Reached(inp, e, AnyUser()) {
      StrangerLeavesIff(inp, rin, e);
    }
  }

  /** Only people a healthy directory reports suspended are removed, if and only if no
      stranger holds a seat that may be taken. */
  lemma OnlySuspendedLeaveIff(inp: Inputs, rin: RenderInputs)
    requires Wired(inp, rin) && "" !in rin.unhealthy
    ensures (forall login, e :: Removed(inp, rin, login, e) ==> ReportedSuspended(inp, rin, e)) <==>
      forall login, e :: Removable(inp, rin, login, e) ==> !Stranger(inp, rin, e)
  {
    forall login, e {
      RemovedUnreportedIff(inp, rin, login, e);
    }
  }

  const STRANGER_IN := State([Member("s", RoleMember)], [], [], map[])

  lemma StrangerIsRemovable()
    ensures var inp, rin := Alone(OrgWith([]), [STRANGER], STRANGER_IN), PassOver(RemovalsOnly, OrgWith([]), [STRANGER], STRANGER_IN);
      Wired(inp, rin) && Removable(inp, rin, "s", STRANGER)
  {
    PassIsWired(RemovalsOnly, OrgWith([]), [STRANGER], STRANGER_IN);
    assert STRANGER in [STRANGER];
    assert Member("s", RoleMember) in STRANGER_IN.members;
  }

  /** For example: a sweep removes somebody no directory knows. */
  lemma StrangerRemovedExample()
    ensures var inp, rin := Alone(OrgWith([]), [STRANGER], STRANGER_IN), PassOver(RemovalsOnly, OrgWith([]), [STRANGER], STRANGER_IN);
      Wired(inp, rin) && Removed(inp, rin, "s", STRANGER) && !ReportedSuspended(inp, rin, STRANGER)
  {
    var inp, rin := Alone(OrgWith([]), [STRANGER], STRANGER_IN), PassOver(RemovalsOnly, OrgWith([]), [STRANGER], STRANGER_IN);
    StrangerIsRemovable();
    assert Accounts(inp.snapshots) == [];
    RemovedUnreportedIff(inp, rin, "s", STRANGER);
  }

  // ----- stopping and starting again -----

  /** An employee no directory knows, sitting in the team they are pinned to. */
  const PINNED_IN := State([Member("s", RoleMember)], [], ["t"], map["t" := ["s"]])

  lemma SeatAlone(state: State)
    requires MembersDistinct(state.members) && "t" in state.teams && "t" in state.teamMembers
    ensures var rin, b := PassOver(Full, OrgWith([]), [STRANGER], state), NextPass.Seat(STRANGER, "t");
      && Wired(Alone(OrgWith([]), [STRANGER], state), rin)
      && (Owes(StanzaFor(rin), state, b) <==> "s" !in ByLower(state.teamMembers["t"]))
  {
    var org := OrgWith([]);
    var inp, rin, b := Alone(org, [STRANGER], state), PassOver(Full, org, [STRANGER], state), NextPass.Seat(STRANGER, "t");
    PassIsWired(Full, org, [STRANGER], state);
    PinnedAlone([], STRANGER, state);
    NextPass.StanzaTeam(rin, "t");
    NextPass.SeatIff(inp, rin, b);
    assert Lower("s") == "s" && STRANGER in inp.entries;
    assert NextPass.WantsSeat(inp, rin.org, "t", STRANGER);
  }

  lemma EvictedAlone()
    ensures Execution.MemberRemoved(true, PINNED_IN, "s") == EMPTY_TEAM
  {
    assert Lower("s") == "s";
    assert Without(PINNED_IN.members, MemberKey, "s") == [];
    assert Without(["s"], LoginKey, "s") == [];
  }

  lemma NextAlone(org: Org, entries: seq<Entry>, s0: State, s: State)
    ensures NextPass.Next(Alone(org, entries, s0), org.name, s) == Alone(org, entries, s)
  {
  }

  /** Passes over one organization follow one another. */
  lemma FollowsAlone(mode: Mode, org: Org, entries: seq<Entry>, s0: State, s: State)
    requires Wired(Alone(org, entries, s0), PassOver(mode, org, entries, s0))
    requires Wired(Alone(org, entries, s), PassOver(mode, org, entries, s))
    ensures NextPass.Follows(Alone(org, entries, s0), PassOver(mode, org, entries, s0), s, PassOver(mode, org, entries, s))
  {
    NextAlone(org, entries, s0, s);
  }

  lemma SeatTaken()
    ensures "s" in ByLower(PINNED_IN.teamMembers["t"]) && "s" !in ByLower(EMPTY_TEAM.teamMembers["t"])
  {
    assert Lower("s") == "s";
    IndexBySound(["s"], LoginKey);
    assert "s" in ["s"];
  }

  /** For example: an employee no directory knows is evicted from the organization,
      and with the team cascade from the team they are pinned to. */
  lemma EvictedExample()
    ensures var rin := PassOver(Full, OrgWith([]), [STRANGER], PINNED_IN);
      Owes(StanzaFor(rin), PINNED_IN, Removal("s")) && Execution.Step(true, PINNED_IN, Removal("s"), EMPTY_TEAM)
  {
    var inp, rin := Alone(OrgWith([]), [STRANGER], PINNED_IN), PassOver(Full, OrgWith([]), [STRANGER], PINNED_IN);
    PassIsWired(Full, OrgWith([]), [STRANGER], PINNED_IN);
    RemovedIff(inp, rin, "s");
    StrangerLeaves(inp, rin, STRANGER);
    assert STRANGER in inp.entries && Member("s", RoleMember) in PINNED_IN.members;
    EvictedAlone();
  }

  lemma EvictedFollows()
    ensures NextPass.Follows(Alone(OrgWith([]), [STRANGER], PINNED_IN), PassOver(Full, OrgWith([]), [STRANGER], PINNED_IN),
      EMPTY_TEAM, PassOver(Full, OrgWith([]), [STRANGER], EMPTY_TEAM))
  {
    PassIsWired(Full, OrgWith([]), [STRANGER], PINNED_IN);
    PassIsWired(Full, OrgWith([]), [STRANGER], EMPTY_TEAM);
    FollowsAlone(Full, OrgWith([]), [STRANGER], PINNED_IN, EMPTY_TEAM);
  }

  /** The next pass then owes them the seat back, which none owed before. */
  lemma SeatOwedBackExample()
    ensures var before, after := PassOver(Full, OrgWith([]), [STRANGER], PINNED_IN), PassOver(Full, OrgWith([]), [STRANGER], EMPTY_TEAM);
      && NextPass.Follows(Alone(OrgWith([]), [STRANGER], PINNED_IN), before, EMPTY_TEAM, after)
      && !Owes(StanzaFor(before), PINNED_IN, NextPass.Seat(STRANGER, "t"))
      && Owes(StanzaFor(after), EMPTY_TEAM, NextPass.Seat(STRANGER, "t"))
  {
    EvictedFollows();
    SeatTaken();
    SeatAlone(PINNED_IN);
    SeatAlone(EMPTY_TEAM);
  }

  // ----- the sweep's configuration and the loop's -----

  /** The same reads under two configurations of the directories. */
  ghost predicate SameReads(inp: Inputs, rin: RenderInputs, other: Inputs, rin': RenderInputs) {
    && Wired(inp, rin) && Wired(other, rin') && other == inp.(config := other.config)
    && rin' == rin.(mode := rin'.mode, roster := rin'.roster)
  }

  /** What keeps somebody who might leave: they are live here, or known only in domains
      that do not sync, or an unhealthy source can vouch for them. */
  ghost predicate Kept(inp: Inputs, rin: RenderInputs, e: Entry) {
    || LiveHere(inp, rin.org, e)
    || (Reached(inp, e, AnyUser()) && !Reached(inp, e, SyncedUser(inp.config)))
    || exists s :: s in rin.unhealthy && Vouches(inp, e, s)
  }

  /** Of those one configuration removes, the other spares exactly those it keeps. */
  lemma RemovedByOneIff(inp: Inputs, rin: RenderInputs, other: Inputs, rin': RenderInputs, login: string)
    requires SameReads(inp, rin, other, rin') && "" !in rin.unhealthy && Owes(StanzaFor(rin), rin.state, Removal(login))
    ensures !Owes(StanzaFor(rin'), rin.state, Removal(login)) <==>
      exists e :: e in inp.entries && Lower(e.github) == Lower(login) && Kept(other, rin', e)
  {
    RemovedIff(inp, rin, login);
    RemovedIff(other, rin', login);
    var e :| e in inp.entries && Lower(e.github) == Lower(login) && Leaver(inp, rin, e);
    forall f | f in inp.entries && Lower(f.github) == Lower(login) ensures f == e {
      EntryOfLogin(inp.entries, e, f);
    }
    LeaverInDirectories(inp, rin, e);
    LeaverInDirectories(other, rin', e);
  }

  /** The configuration with more directories. */
  function WithSources(inp: Inputs, extra: seq<Source>): Inputs {
    inp.(config := inp.config.(sources := inp.config.sources + extra))
  }

  /** No domain changes its switch. */
  ghost predicate SyncsAlike(c: Config, d: Config) {
    forall domain :: Syncs(c, domain) == Syncs(d, domain)
  }

  /** A source among some is declared for one of the addresses. */
  ghost predicate DeclaredAmong(sources: seq<Source>, emails: seq<string>, s: string) {
    exists e :: e in emails && HasAt(Lower(e)) && SourceCovers(sources, EmailDomain(Lower(e)), s)
  }

  lemma MoreDeclared(config: Config, extra: seq<Source>, emails: seq<string>, s: string)
    ensures Declared(config.(sources := config.sources + extra), emails, s) <==>
      Declared(config, emails, s) || DeclaredAmong(extra, emails, s)
  {
    forall domain ensures SourceCovers(config.sources + extra, domain, s) <==>
      SourceCovers(config.sources, domain, s) || SourceCovers(extra, domain, s)
    {
      assert forall src :: src in config.sources + extra <==> src in config.sources || src in extra;
    }
  }

  lemma SameReach(inp: Inputs, other: Inputs, org: Org, e: Entry)
    requires other == inp.(config := other.config) && SyncsAlike(inp.config, other.config)
    ensures LiveHere(other, org, e) <==> LiveHere(inp, org, e)
    ensures Reached(other, e, AnyUser()) <==> Reached(inp, e, AnyUser())
    ensures Reached(other, e, SyncedUser(other.config)) <==> Reached(inp, e, SyncedUser(inp.config))
  {
    forall n {
      SameNames(inp, other, e, n);
    }
    forall i: nat ensures AtHome(other, org, e, i) <==> AtHome(inp, org, e, i) {
      SameKnown(inp, other, e, org.company, i);
    }
    assert forall u: User :: LiveSyncedUser(other.config)(u) == LiveSyncedUser(inp.config)(u);
    assert forall u: User :: SyncedUser(other.config)(u) == SyncedUser(inp.config)(u);
  }

  lemma SameNames(inp: Inputs, other: Inputs, e: Entry, n: string)
    requires other == inp.(config := other.config)
    ensures ReachesName(other, e, n) <==> ReachesName(inp, e, n)
  {
  }

  lemma SameKnown(inp: Inputs, other: Inputs, e: Entry, source: string, i: nat)
    requires other == inp.(config := other.config)
    ensures KnownBy(other, e, source, i) <==> KnownBy(inp, e, source, i)
  {
    forall n, r: nat ensures FirstClaim(other, e, n, r) <==> FirstClaim(inp, e, n, r) {
      forall q: nat ensures EmailLeads(other, e, q, n) <==> EmailLeads(inp, e, q, n) {}
    }
    forall r: nat ensures NoneClaimedAfter(other, e, source, r) <==> NoneClaimedAfter(inp, e, source, r) {}
  }

  /** Directories added by the loop alone spare exactly those one of them, unhealthy, is
      declared to know; and expose nobody. */
  lemma AddedDirectoriesIff(inp: Inputs, rin: RenderInputs, extra: seq<Source>, rin': RenderInputs, login: string)
    requires SameReads(inp, rin, WithSources(inp, extra), rin') && "" !in rin.unhealthy
    requires SyncsAlike(inp.config, WithSources(inp, extra).config)
    ensures Owes(StanzaFor(rin'), rin.state, Removal(login)) <==>
      && Owes(StanzaFor(rin), rin.state, Removal(login))
      && forall e, s :: e in inp.entries && Lower(e.github) == Lower(login) && s in rin.unhealthy ==> !DeclaredAmong(extra, e.emails, s)
  {
    var other := WithSources(inp, extra);
    RemovedIff(inp, rin, login);
    RemovedIff(other, rin', login);
    forall e | e in inp.entries && Lower(e.github) == Lower(login)
      ensures Leaver(other, rin', e) <==> Leaver(inp, rin, e) && forall s :: s in rin.unhealthy ==> !DeclaredAmong(extra, e.emails, s)
    {
      AddedLeaver(inp, rin, extra, rin', e);
    }
    forall e, f | e in inp.entries && f in inp.entries && Lower(e.github) == Lower(login) && Lower(f.github) == Lower(login) ensures e == f {
      EntryOfLogin(inp.entries, e, f);
    }
  }

  lemma AddedLeaver(inp: Inputs, rin: RenderInputs, extra: seq<Source>, rin': RenderInputs, e: Entry)
    requires SameReads(inp, rin, WithSources(inp, extra), rin') && "" !in rin.unhealthy
    requires SyncsAlike(inp.config, WithSources(inp, extra).config)
    ensures Leaver(WithSources(inp, extra), rin', e) <==>
      Leaver(inp, rin, e) && forall s :: s in rin.unhealthy ==> !DeclaredAmong(extra, e.emails, s)
  {
    var other := WithSources(inp, extra);
    LeaverInDirectories(inp, rin, e);
    LeaverInDirectories(other, rin', e);
    SameReach(inp, other, rin.org, e);
    forall s ensures Vouches(other, e, s) <==> Vouches(inp, e, s) || DeclaredAmong(extra, e.emails, s) {
      MoreDeclared(inp.config, extra, e.emails, s);
      forall n {
        SameNames(inp, other, e, n);
      }
    }
  }

  // ----- addresses and names -----

  ghost predicate AddressLeads(inp: Inputs, e: Entry, n: string) {
    exists r: nat :: EmailLeads(inp, e, r, n)
  }

  /** The account somebody is known by in a source is one an address leads to exactly
      when some address leads to their own name, or their own name has no account
      there: an own name no address leads to is claimed last, and wins. */
  lemma AddressDecidesIff(inp: Inputs, e: Entry, source: string, i: nat)
    requires KnownBy(inp, e, source, i) && e.name != ""
    ensures AddressLeads(inp, e, Accounts(inp.snapshots)[i].user.name) <==>
      AddressLeads(inp, e, e.name) || forall a :: a in Accounts(inp.snapshots) && a.source == source ==> a.user.name != e.name
  {
    var accounts := Accounts(inp.snapshots);
    var n := accounts[i].user.name;
    var r: nat :| FirstClaim(inp, e, n, r) && NoneClaimedAfter(inp, e, source, r);
    assert accounts[i] in accounts;
    assert AddressLeads(inp, e, n) <==> r < |e.emails|;
    if !AddressLeads(inp, e, e.name) {
      assert FirstClaim(inp, e, e.name, |e.emails|);
    }
  }

  const TWO_SPELLINGS := Inputs(Config([], [], 0),
    [Snapshot("d", [User("N", "n@x", true), User("M", "m@x", false)], map[], [])], [], map[])

  const SPELLED := Entry("N", "n", ["m@x"], "", CLASS_EMPLOYEE, [], "", "", "")

  /** For example: an address leads to one account and the name to another in the
      same source, and the name's is kept. */
  lemma NameWinsExample()
    ensures KnownBy(TWO_SPELLINGS, SPELLED, "d", 0) && EmailLeads(TWO_SPELLINGS, SPELLED, 0, "M")
  {
    var accounts := Accounts(TWO_SPELLINGS.snapshots);
    assert TWO_SPELLINGS.snapshots[..0] == [];
    assert accounts == [Account("d", User("N", "n@x", true)), Account("d", User("M", "m@x", false))];
    assert HeldBy(accounts[1], Lower("m@x"));
    assert Lower("m@x") != Lower("n@x") by {
      assert Lower("m@x")[0] == 'm' && Lower("n@x")[0] == 'n';
    }
    assert LastHolder(accounts, Lower(SPELLED.emails[0]), 1);
    assert forall j: nat :: LastHolder(accounts, Lower(SPELLED.emails[0]), j) ==> j == 1;
    assert FirstClaim(TWO_SPELLINGS, SPELLED, "N", 1);
    assert NoneClaimedAfter(TWO_SPELLINGS, SPELLED, "d", 1);
  }
}
