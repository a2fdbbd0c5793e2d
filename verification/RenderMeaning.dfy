/** Who a rendered document names, up to case. */
module RenderMeaning {
  import opened Text
  import opened Indexing
  import opened Sorting
  import opened OrgState
  import opened Document
  import opened Roster
  import opened RenderSpec

  /** Some entry of the list folds to k. */
  ghost predicate HasKey(list: seq<string>, k: string) {
    exists x :: x in list && Lower(x) == k
  }

  lemma ByLowerKeys(list: seq<string>, k: string)
    ensures k in ByLower(list) <==> HasKey(list, k)
  {
    IndexBySound(list, LoginKey);
  }

  lemma HasKeyConcat(a: seq<string>, b: seq<string>, k: string)
    ensures HasKey(a + b, k) <==> HasKey(a, k) || HasKey(b, k)
  {
    assert forall x :: x in a + b <==> x in a || x in b;
  }

  lemma {:induction false} DedupKeeps(values: seq<string>, k: string)
    ensures HasKey(DedupFold(values), k) <==> HasKey(values, k)
    ensures forall x :: x in DedupFold(values) ==> x in values
  {
    if values != [] {
      var rest, last := values[..|values| - 1], values[|values| - 1];
      DedupKeeps(rest, k);
      assert values == rest + [last];
      HasKeyConcat(rest, [last], k);
      assert last in [last];
      if !ContainsFold(rest, last) {
        HasKeyConcat(DedupFold(rest), [last], k);
      }
    }
  }

  lemma SortedUniqueKeys(values: seq<string>, k: string)
    ensures HasKey(SortedUnique(values), k) <==> HasKey(values, k)
    ensures forall x :: x in SortedUnique(values) ==> x in values
  {
    DedupKeeps(values, k);
    SortStringsElements(DedupFold(values));
  }

  lemma MissingMeans(a: seq<string>, b: seq<string>, x: string)
    ensures x in Missing(a, b) <==> x in a && !HasKey(b, Lower(x))
  {
    SortStringsElements(Filter(a, AbsentFrom(b)));
    FilterSound(a, AbsentFrom(b));
  }

  /** A member of that role folds to k. */
  ghost predicate HasMember(members: seq<Member>, admin: bool, k: string) {
    exists m :: m in members && (m.role == RoleAdmin) == admin && Lower(m.login) == k
  }

  lemma {:induction false} LoginsMean(members: seq<Member>, x: string)
    ensures x in Logins(members) <==> exists m :: m in members && m.login == x
  {
    if members != [] {
      var rest, last := members[..|members| - 1], members[|members| - 1];
      assert forall m :: m in members <==> m in rest || m == last by { assert members == rest + [last]; }
      LoginsMean(rest, x);
      assert last in members;
    }
  }

  lemma RoleLogins(state: State, admin: bool, k: string)
    ensures HasKey(Logins(Filter(state.members, HasRole(admin))), k) <==> HasMember(state.members, admin, k)
  {
    FilterSound(state.members, HasRole(admin));
    var chosen := Filter(state.members, HasRole(admin));
    if HasMember(state.members, admin, k) {
      var m :| m in state.members && (m.role == RoleAdmin) == admin && Lower(m.login) == k;
      LoginsMean(chosen, m.login);
    }
    if HasKey(Logins(chosen), k) {
      var x :| x in Logins(chosen) && Lower(x) == k;
      LoginsMean(chosen, x);
    }
  }

  lemma {:induction false} WithInvitedMeans(list: seq<string>, invitations: seq<Invitation>, k: string)
    ensures HasKey(WithInvited(list, invitations), k) <==> HasKey(list, k) || k in Invited(invitations)
  {
    if invitations != [] {
      var rest, last := invitations[..|invitations| - 1], invitations[|invitations| - 1];
      WithInvitedMeans(list, rest, k);
      if last.login != "" {
        WithInvitedMeans(list, rest, Lower(last.login));
        HasKeyConcat(WithInvited(list, rest), [last.login], k);
        assert last.login in [last.login];
      }
    }
  }

  lemma {:induction false} InvitedLoginsMean(invitations: seq<Invitation>, k: string)
    ensures HasKey(InvitedLogins(invitations), k) <==> k in Invited(invitations)
  {
    if invitations != [] {
      var rest, last := invitations[..|invitations| - 1], invitations[|invitations| - 1];
      InvitedLoginsMean(rest, k);
      HasKeyConcat(InvitedLogins(rest), [last.login], k);
      assert last.login in [last.login];
    }
  }

  lemma {:induction false} GithubsMean(people: seq<Person>, x: string)
    ensures x in Githubs(people) <==> exists p :: p in people && p.github == x
  {
    if people != [] {
      var rest, last := people[..|people| - 1], people[|people| - 1];
      assert forall p :: p in people <==> p in rest || p == last by { assert people == rest + [last]; }
      GithubsMean(rest, x);
      assert last in people;
    }
  }

  /** Someone passing the test folds to k. */
  ghost predicate HasPerson(people: seq<Person>, test: Person -> bool, k: string) {
    exists p :: p in people && test(p) && Lower(p.github) == k
  }

  lemma PeopleLogins(people: seq<Person>, test: Person -> bool, k: string)
    ensures HasKey(Githubs(Filter(people, test)), k) <==> HasPerson(people, test, k)
  {
    FilterSound(people, test);
    var chosen := Filter(people, test);
    if HasPerson(people, test, k) {
      var p :| p in people && test(p) && Lower(p.github) == k;
      GithubsMean(chosen, p.github);
    }
    if HasKey(Githubs(chosen), k) {
      var x :| x in Githubs(chosen) && Lower(x) == k;
      GithubsMean(chosen, x);
    }
  }

  /** A current ordinary member, in that spelling, passes the test and folds to k. */
  ghost predicate HasOrdinary(state: State, test: string -> bool, k: string) {
    exists x :: x in Ordinary(state) && test(x) && Lower(x) == k
  }

  lemma OrdinaryLogins(state: State, test: string -> bool, k: string)
    ensures HasKey(Filter(Ordinary(state), test), k) <==> HasOrdinary(state, test, k)
  {
    FilterSound(Ordinary(state), test);
  }

  /** Who the removals-only member list names. */
  lemma RemovalsOnlyMeans(rin: RenderInputs, k: string)
    ensures HasKey(RemovalsOnlyMembers(rin), k) <==>
      HasOrdinary(rin.state, KeepTest(rin, PeopleByLogin(rin.roster.people)), k) || k in Invited(rin.state.invitations)
  {
    var test := KeepTest(rin, PeopleByLogin(rin.roster.people));
    OrdinaryLogins(rin.state, test, k);
    WithInvitedMeans(Filter(Ordinary(rin.state), test), rin.state.invitations, k);
  }

  /** Who the full member list names. */
  lemma FullMeans(rin: RenderInputs, k: string)
    ensures HasKey(FullMembers(rin), k) <==>
      || HasOrdinary(rin.state, ExceptionTest(rin), k)
      || HasPerson(rin.roster.people, BelongTest(rin), k)
      || HasOrdinary(rin.state, UnknownTest(rin, PeopleByLogin(rin.roster.people)), k)
      || k in Invited(rin.state.invitations)
  {
    var unknown := UnknownTest(rin, PeopleByLogin(rin.roster.people));
    var a := Filter(Ordinary(rin.state), ExceptionTest(rin));
    var b := Githubs(Filter(rin.roster.people, BelongTest(rin)));
    var c := Filter(Ordinary(rin.state), unknown);
    OrdinaryLogins(rin.state, ExceptionTest(rin), k);
    PeopleLogins(rin.roster.people, BelongTest(rin), k);
    OrdinaryLogins(rin.state, unknown, k);
    HasKeyConcat(a, b, k);
    HasKeyConcat(a + b, c, k);
    WithInvitedMeans(a + b + c, rin.state.invitations, k);
  }

  lemma OrdinaryIsMember(state: State, x: string)
    ensures x in Ordinary(state) <==> exists m :: m in state.members && m.role != RoleAdmin && m.login == x
  {
    FilterSound(state.members, HasRole(false));
    LoginsMean(Filter(state.members, HasRole(false)), x);
  }

  /** Everyone the rendered stanza wants: the owners of the day and the members. */
  lemma StanzaMeans(rin: RenderInputs, k: string)
    ensures k in ByLower(StanzaFor(rin).admins) <==> HasMember(rin.state.members, true, k)
    ensures k in ByLower(StanzaFor(rin).members) <==> HasKey(MembersFor(rin), k)
    ensures k in Desired(StanzaFor(rin)) <==> HasMember(rin.state.members, true, k) || HasKey(MembersFor(rin), k)
    ensures k in Desired(StanzaFor(rin)) ==> (Desired(StanzaFor(rin))[k].admin <==> HasMember(rin.state.members, true, k))
  {
    var stanza := StanzaFor(rin);
    ByLowerKeys(stanza.admins, k);
    ByLowerKeys(stanza.members, k);
    SortedUniqueKeys(Owners(rin.state), k);
    SortedUniqueKeys(MembersFor(rin), k);
    RoleLogins(rin.state, true, k);
    DesiredSound(stanza);
  }

  /** An invited login is always still wanted. */
  lemma InvitedStay(rin: RenderInputs, k: string)
    requires k in Invited(rin.state.invitations)
    ensures HasKey(MembersFor(rin), k)
  {
    match rin.mode
    case RemovalsOnly => RemovalsOnlyMeans(rin, k);
    case Full => FullMeans(rin, k);
  }

  /** Who a rendered team names. */
  lemma TeamMeans(rin: RenderInputs, name: string, k: string)
    requires name in rin.org.teams
    ensures k in TeamDesired(TeamDocFor(rin, name)) <==>
      || HasPerson(rin.roster.people, WantsTeam(rin, name), k)
      || (KeepsResidents(rin, name) && HasKey(Residents(rin.state, name), k))
  {
    var people := Githubs(Filter(rin.roster.people, WantsTeam(rin, name)));
    var stay := Residents(rin.state, name);
    var pinned := if rin.org.teams[name].pinned then stay else [];
    var backed := if AbsentBacking(rin.org.teams[name].groups, rin.roster.absentGroups) != "" then stay else [];
    PeopleLogins(rin.roster.people, WantsTeam(rin, name), k);
    HasKeyConcat(people, pinned, k);
    HasKeyConcat(people + pinned, backed, k);
    SortedUniqueKeys(TeamLogins(rin, name), k);
    ByLowerKeys(TeamDocFor(rin, name).members, k);
    ByLowerKeys([], k);
  }
}
