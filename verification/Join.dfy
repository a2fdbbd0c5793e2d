/** Join as the service runs it: loops over maps and lists, shared liveness
    records, and sorts (pkg/roster/roster.go). */
module Join {
  import opened Text
  import opened Indexing
  import opened Sorting
  import opened OrgState
  import opened Config
  import opened Directory
  import opened Mapping
  import opened Liveness
  import opened Roster

  /** Collects the teams a person should be in, teams in arbitrary order. */
  method CollectDesired(org: Org, entry: Entry, l: Option<Record>, isLive: bool) returns (teams: seq<string>)
    ensures teams == DesiredTeams(org, entry, l, isLive)
  {
    var found: seq<string> := [];
    var todo := org.teams.Keys;
    while todo != {}
      invariant todo <= org.teams.Keys && NoDup(found)
      invariant forall n :: n in found <==> n in org.teams.Keys - todo && Wants(org, entry, l, isLive, n)
    {
      var name :| name in todo;
      todo := todo - {name};
      var team := org.teams[name];
      NoDupSnoc(found, name);
      if team.pinned {
        if HasPinned(entry, org.name, name) {
          found := found + [name];
        }
      } else if !isLive || l.None? {
        // No membership can apply.
      } else if MatchesTeam(team, entry, l.value) {
        found := found + [name];
      }
    }
    SortIsAscending(found, set name | name in org.teams && Wants(org, entry, l, isLive, name));
    teams := SortStrings(found);
  }

  /** Collects the managed teams a login is in, teams in arbitrary order. */
  method CollectManaged(org: Org, state: State, login: string) returns (teams: seq<string>)
    ensures teams == ManagedTeams(org, state, login)
  {
    var found: seq<string> := [];
    var todo := state.teamMembers.Keys;
    while todo != {}
      invariant todo <= state.teamMembers.Keys && NoDup(found)
      invariant forall t :: t in found <==>
        t in state.teamMembers.Keys - todo && t in org.teams && Lower(login) in ByLower(state.teamMembers[t])
    {
      var slug :| slug in todo;
      todo := todo - {slug};
      NoDupSnoc(found, slug);
      if slug in org.teams {
        var logins := state.teamMembers[slug];
        var present := false;
        for i := 0 to |logins|
          invariant present <==> exists x :: x in logins[..i] && EqualFold(x, login)
        {
          assert forall x :: x in logins[..i + 1] <==> x in logins[..i] || x == logins[i] by {
            assert logins[..i + 1] == logins[..i] + [logins[i]];
          }
          if EqualFold(logins[i], login) {
            assert logins[i] in logins[..i + 1];
            present := true;
          }
        }
        assert logins[..|logins|] == logins;
        IndexBySound(logins, LoginKey);
        if present {
          found := found + [slug];
        }
      }
    }
    SortIsAscending(found, set t | t in state.teamMembers && t in org.teams && Lower(login) in ByLower(state.teamMembers[t]));
    teams := SortStrings(found);
  }

  /** The role a login holds, from the last matching member. */
  method FindMember(members: seq<Member>, login: string) returns (role: Option<Role>)
    ensures role == if Lower(login) in Current(members) then Some(Current(members)[Lower(login)].role) else None
  {
    role := None;
    for i := 0 to |members|
      invariant role == if Lower(login) in Current(members[..i]) then Some(Current(members[..i])[Lower(login)].role) else None
    {
      IndexByStep(members, MemberKey, i);
      if EqualFold(members[i].login, login) {
        role := Some(members[i].role);
      }
    }
    assert members[..|members|] == members;
  }

  method FindInvitation(invitations: seq<Invitation>, login: string) returns (pending: bool)
    ensures pending <==> Lower(login) in Invited(invitations)
  {
    pending := false;
    for i := 0 to |invitations|
      invariant pending <==> Lower(login) in Invited(invitations[..i])
    {
      InvitedStep(invitations, i);
      if invitations[i].login != "" && EqualFold(invitations[i].login, login) {
        pending := true;
      }
    }
    assert invitations[..|invitations|] == invitations;
  }

  method BuildMembership(inp: Inputs, org: Org, entry: Entry, l: Option<Record>, isLive: bool, displayOnly: bool)
    returns (m: Membership)
    ensures m == MembershipOf(inp, org, entry, l, isLive, displayOnly)
  {
    var desired := CollectDesired(org, entry, l, isLive);
    m := Membership(isLive, false, false, None, [], desired, displayOnly, StateNone);
    if displayOnly && l.Some? {
      m := m.(live := l.value.live);
    }
    if org.name !in inp.orgs {
      return;
    }
    var state := inp.orgs[org.name];
    var role := FindMember(state.members, entry.github);
    m := m.(member := role.Some?, role := role);
    var pending := FindInvitation(state.invitations, entry.github);
    if pending {
      m := m.(member := true, invitationPending := true);
    }
    var teams := CollectManaged(org, state, entry.github);
    m := m.(teams := teams);
    m := m.(state := StateOf(m));
  }

  method ExpectedSources(config: Config, entry: Entry) returns (out: seq<string>)
    ensures out == SourcesFor(config, entry.emails)
  {
    out := [];
    for i := 0 to |entry.emails|
      invariant out == SourcesFor(config, entry.emails[..i])
    {
      assert entry.emails[..i + 1][..i] == entry.emails[..i];
      var email := Lower(entry.emails[i]);
      if HasAt(email) {
        out := CoverSources(out, config.sources, EmailDomain(email));
      }
    }
    assert entry.emails[..|entry.emails|] == entry.emails;
  }

  method CoverSources(start: seq<string>, sources: seq<Source>, domain: string) returns (out: seq<string>)
    ensures out == AddSources(start, sources, domain)
  {
    out := start;
    for i := 0 to |sources|
      invariant out == AddSources(start, sources[..i], domain)
    {
      assert sources[..i + 1][..i] == sources[..i];
      var src, before := sources[i], out;
      for j := 0 to |src.domains|
        invariant out == if exists d :: d in src.domains[..j] && EqualFold(d.name, domain) then AppendUnique(before, src.name) else before
      {
        assert forall d :: d in src.domains[..j + 1] <==> d in src.domains[..j] || d == src.domains[j] by {
          assert src.domains[..j + 1] == src.domains[..j] + [src.domains[j]];
        }
        if EqualFold(src.domains[j].name, domain) {
          assert src.domains[j] in src.domains[..j + 1];
          out := AppendUnique(out, src.name);
        }
      }
      assert src.domains[..|src.domains|] == src.domains;
    }
    assert sources[..|sources|] == sources;
  }

  /** One person from their entry and the shared liveness records. */
  method JoinOne(inp: Inputs, entry: Entry, byName: map<string, Live>, byEmail: map<string, Live>)
    returns (person: Person, claimed: seq<string>)
    requires Mirrors(inp, Accounts(inp.snapshots), byName, byEmail)
    ensures person == PersonOf(inp, entry)
    ensures claimed == Claims(entry, Records(inp, Accounts(inp.snapshots)), Owners(Accounts(inp.snapshots)))
  {
    var expected := ExpectedSources(inp.config, entry);
    var resolved;
    resolved, claimed := ResolveLiveness(inp, entry, byName, byEmail);
    var l: Option<Record> := if resolved == null then None else Some(resolved.Value());
    var groups: seq<string> := [];
    if l.Some? {
      groups := SortedElements(l.value.groups);
    }
    var live, displayOnly := PersonLive(entry, l), IsDisplayOnly(entry, l);
    var orgs := BuildStandings(inp, entry, l, live, displayOnly);
    var noTeam := FindNoTeam(orgs);
    person := Person(entry.name, entry.github, entry.class_, live, if l.Some? then l.value.sources else [],
      expected, displayOnly, noTeam, groups, orgs);
  }

  lemma StandingsStep(inp: Inputs, orgs: seq<Org>, entry: Entry, i: nat)
    requires i < |orgs|
    ensures Standings(inp, orgs[..i + 1], entry) == Standings(inp, orgs[..i], entry)[orgs[i].name := StandingIn(inp, orgs[i], entry)]
  {
    assert orgs[..i + 1][..i] == orgs[..i];
  }

  method BuildStandings(inp: Inputs, entry: Entry, l: Option<Record>, live: bool, displayOnly: bool)
    returns (orgs: map<string, Membership>)
    requires l == Resolve(inp, entry) && live == PersonLive(entry, l) && displayOnly == IsDisplayOnly(entry, l)
    ensures orgs == Standings(inp, inp.config.orgs, entry)
  {
    orgs := map[];
    var configured := inp.config.orgs;
    for i := 0 to |configured|
      invariant orgs == Standings(inp, configured[..i], entry)
    {
      StandingsStep(inp, configured, entry, i);
      var isLive := GrantLive(inp.config, configured[i], entry, l, live);
      var m := BuildMembership(inp, configured[i], entry, l, isLive, displayOnly);
      orgs := orgs[configured[i].name := m];
    }
    assert configured[..|configured|] == configured;
  }

  /** Whether no organization wants the person in any team, stopping at the first that does. */
  method FindNoTeam(orgs: map<string, Membership>) returns (noTeam: bool)
    ensures noTeam <==> !(exists o :: o in orgs && |orgs[o].desiredTeams| > 0)
  {
    var todo := orgs.Keys;
    while todo != {}
      invariant todo <= orgs.Keys
      invariant forall o :: o in orgs.Keys - todo ==> |orgs[o].desiredTeams| == 0
    {
      var o :| o in todo;
      todo := todo - {o};
      if |orgs[o].desiredTeams| > 0 {
        return false;
      }
    }
    noTeam := true;
  }

  function InsertPerson(people: seq<Person>, p: Person): (r: seq<Person>)
    ensures multiset(r) == multiset(people) + multiset{p}
  {
    if people == [] || Less(p.name, people[0].name) then [p] + people
    else
      assert people == [people[0]] + people[1..];
      [people[0]] + InsertPerson(people[1..], p)
  }

  lemma {:induction false} InsertPersonInOrder(people: seq<Person>, p: Person)
    requires InNameOrder(people)
    ensures InNameOrder(InsertPerson(people, p))
    ensures forall q :: q in InsertPerson(people, p) <==> q == p || q in people
  {
    if people == [] {
    } else if Less(p.name, people[0].name) {
      forall j | 0 <= j < |people| ensures !Less(people[j].name, p.name) {
        if Less(people[j].name, p.name) {
          LessTransitive(people[j].name, p.name, people[0].name);
          LessIrreflexive(people[0].name);
        }
      }
    } else {
      assert people == [people[0]] + people[1..];
      InsertPersonInOrder(people[1..], p);
      var r := InsertPerson(people[1..], p);
      forall j | 0 <= j < |r| ensures !Less(r[j].name, people[0].name) {
        assert r[j] in r;
      }
    }
  }

  /** sort.Slice of the people by name. */
  method SortPeople(people: seq<Person>) returns (sorted: seq<Person>)
    ensures multiset(sorted) == multiset(people) && InNameOrder(sorted)
  {
    sorted := [];
    for i := 0 to |people|
      invariant multiset(sorted) == multiset(people[..i]) && InNameOrder(sorted)
    {
      assert people[..i + 1] == people[..i] + [people[i]];
      InsertPersonInOrder(sorted, people[i]);
      sorted := InsertPerson(sorted, people[i]);
    }
    assert people[..|people|] == people;
  }

  method AbsentGroups(snapshots: seq<Snapshot>) returns (groups: seq<string>)
    ensures groups == SortStrings(FoldedGroups(snapshots))
  {
    groups := [];
    for i := 0 to |snapshots|
      invariant groups == FoldedGroups(snapshots[..i])
    {
      assert snapshots[..i + 1][..i] == snapshots[..i];
      var before, absent := groups, snapshots[i].absentGroups;
      for j := 0 to |absent|
        invariant groups == before + FoldAll(absent[..j])
      {
        assert absent[..j + 1][..j] == absent[..j];
        groups := groups + [Lower(absent[j])];
      }
      assert absent[..|absent|] == absent;
    }
    assert snapshots[..|snapshots|] == snapshots;
    groups := SortStrings(groups);
  }

  /** Live names no entry covers, collected in arbitrary order and sorted. */
  method UnmappedWarnings(inp: Inputs, byName: map<string, Live>, byEmail: map<string, Live>, covered: set<string>)
    returns (subjects: seq<string>)
    requires Mirrors(inp, Accounts(inp.snapshots), byName, byEmail)
    requires forall n :: n in covered <==> Covered(inp, inp.entries, n)
    ensures subjects == Ascending(Unmapped(inp))
  {
    var found: seq<string> := [];
    var todo := byName.Keys;
    while todo != {}
      invariant todo <= byName.Keys && NoDup(found)
      invariant forall n :: n in found <==> n in byName.Keys - todo && byName[n].live && n !in covered
    {
      var n :| n in todo;
      todo := todo - {n};
      NoDupSnoc(found, n);
      if byName[n].live && n !in covered {
        found := found + [n];
      }
    }
    SortIsAscending(found, Unmapped(inp));
    subjects := SortStrings(found);
  }

  method JoinAndCover(inp: Inputs, entry: Entry, byName: map<string, Live>, byEmail: map<string, Live>)
    returns (person: Person, names: set<string>)
    requires Mirrors(inp, Accounts(inp.snapshots), byName, byEmail)
    ensures person == PersonOf(inp, entry)
    ensures forall n :: n in names <==> CoversName(inp, entry, n)
  {
    var claimed;
    person, claimed := JoinOne(inp, entry, byName, byEmail);
    names := {entry.name} + set n | n in claimed;
  }

  lemma JoinStep(inp: Inputs, i: nat)
    requires i < |inp.entries|
    ensures PeopleOf(inp, inp.entries[..i + 1]) == PeopleOf(inp, inp.entries[..i]) + [PersonOf(inp, inp.entries[i])]
    ensures forall n :: Covered(inp, inp.entries[..i + 1], n) <==>
      Covered(inp, inp.entries[..i], n) || CoversName(inp, inp.entries[i], n)
  {
    assert inp.entries[..i + 1] == inp.entries[..i] + [inp.entries[i]];
    CoveredSnoc(inp, inp.entries[..i], inp.entries[i]);
    PeopleSnoc(inp, inp.entries[..i], inp.entries[i]);
  }

  /** Joins every entry and notes the names they account for. */
  method JoinAll(inp: Inputs, byName: map<string, Live>, byEmail: map<string, Live>)
    returns (people: seq<Person>, covered: set<string>)
    requires Mirrors(inp, Accounts(inp.snapshots), byName, byEmail)
    ensures people == PeopleOf(inp, inp.entries)
    ensures forall n :: n in covered <==> Covered(inp, inp.entries, n)
  {
    people, covered := [], {};
    for i := 0 to |inp.entries|
      invariant people == PeopleOf(inp, inp.entries[..i])
      invariant forall n :: n in covered <==> Covered(inp, inp.entries[..i], n)
    {
      var entry := inp.entries[i];
      var person, names := JoinAndCover(inp, entry, byName, byEmail);
      JoinStep(inp, i);
      people := people + [person];
      covered := covered + names;
    }
    assert inp.entries[..|inp.entries|] == inp.entries;
  }

  /** Computes the roster. */
  method Run(inp: Inputs) returns (r: Roster)
    ensures IsJoin(inp, r)
  {
    var absent := AbsentGroups(inp.snapshots);
    var byName, byEmail := LivenessIndexes(inp);
    var people, covered := JoinAll(inp, byName, byEmail);
    var unmapped := UnmappedWarnings(inp, byName, byEmail, covered);
    var sorted := SortPeople(people);
    r := Roster(sorted, absent, unmapped);
  }

  lemma CoveredSnoc(inp: Inputs, entries: seq<Entry>, e: Entry)
    ensures forall n :: Covered(inp, entries + [e], n) <==> Covered(inp, entries, n) || CoversName(inp, e, n)
  {
    assert forall x :: x in entries + [e] <==> x in entries || x == e;
  }
}
