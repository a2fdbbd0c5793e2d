/** Render as the service runs it (pkg/peribolos/render.go). */
module Render {
  import opened Text
  import opened Indexing
  import opened Sorting
  import opened OrgState
  import opened Document
  import opened Roster
  import opened RenderSpec

  method SplitCurrent(state: State) returns (admins: seq<string>, members: seq<string>)
    ensures admins == Owners(state) && members == Ordinary(state)
  {
    admins, members := [], [];
    for i := 0 to |state.members|
      invariant admins == Logins(Filter(state.members[..i], HasRole(true)))
      invariant members == Logins(Filter(state.members[..i], HasRole(false)))
    {
      FilterStep(state.members, HasRole(true), i);
      FilterStep(state.members, HasRole(false), i);
      var member := state.members[i];
      LoginsSnoc(Filter(state.members[..i], HasRole(true)), member);
      LoginsSnoc(Filter(state.members[..i], HasRole(false)), member);
      if member.role == RoleAdmin {
        admins := admins + [member.login];
      } else {
        members := members + [member.login];
      }
    }
    assert state.members[..|state.members|] == state.members;
  }

  lemma LoginsSnoc(members: seq<Member>, m: Member)
    ensures Logins(members + [m]) == Logins(members) + [m.login]
    ensures Logins(members + []) == Logins(members)
  {
    assert (members + [m])[..|members|] == members;
    assert members + [] == members;
  }

  method IndexPeople(people: seq<Person>) returns (byLogin: map<string, Person>)
    ensures byLogin == PeopleByLogin(people)
  {
    byLogin := map[];
    for i := 0 to |people|
      invariant byLogin == PeopleByLogin(people[..i])
    {
      IndexByStep(people, PersonKey, i);
      byLogin := byLogin[Lower(people[i].github) := people[i]];
    }
    assert people[..|people|] == people;
  }

  method AppendInvited(list: seq<string>, invitations: seq<Invitation>) returns (out: seq<string>)
    ensures out == WithInvited(list, invitations)
  {
    out := list;
    for i := 0 to |invitations|
      invariant out == WithInvited(list, invitations[..i])
    {
      assert invitations[..i + 1][..i] == invitations[..i];
      if invitations[i].login != "" && !ContainsFold(out, invitations[i].login) {
        out := out + [invitations[i].login];
      }
    }
    assert invitations[..|invitations|] == invitations;
  }

  method KeepMembers(rin: RenderInputs, people: map<string, Person>, current: seq<string>) returns (keep: seq<string>)
    requires people == PeopleByLogin(rin.roster.people) && current == Ordinary(rin.state)
    ensures keep == RemovalsOnlyMembers(rin)
  {
    keep := [];
    for i := 0 to |current|
      invariant keep == Filter(current[..i], KeepTest(rin, people))
    {
      FilterStep(current, KeepTest(rin, people), i);
      var login := current[i];
      if rin.org.IsException(login) {
        keep := keep + [login];
        continue;
      }
      if Lower(login) !in people {
        keep := keep + [login];
        continue;
      }
      var person := people[Lower(login)];
      if rin.org.name !in person.orgs || person.orgs[rin.org.name].live {
        keep := keep + [login];
        continue;
      }
      if person.displayOnly {
        keep := keep + [login];
        continue;
      }
      if OnlyKnownBy(person, rin.unhealthy) != "" {
        keep := keep + [login];
        continue;
      }
      // Every reason to stay is exhausted.
    }
    assert current[..|current|] == current;
    keep := AppendInvited(keep, rin.state.invitations);
  }

  lemma GithubsSnoc(people: seq<Person>, p: Person)
    ensures Githubs(people + [p]) == Githubs(people) + [p.github]
    ensures Githubs(people + []) == Githubs(people)
  {
    assert (people + [p])[..|people|] == people;
    assert people + [] == people;
  }

  /** Excepted members stay, whatever the roster says of them. */
  method KeepExceptions(rin: RenderInputs, current: seq<string>) returns (desired: seq<string>)
    ensures desired == Filter(current, ExceptionTest(rin))
  {
    desired := [];
    for i := 0 to |current|
      invariant desired == Filter(current[..i], ExceptionTest(rin))
    {
      FilterStep(current, ExceptionTest(rin), i);
      if rin.org.IsException(current[i]) {
        desired := desired + [current[i]];
      }
    }
    assert current[..|current|] == current;
  }

  lemma BelongStep(rin: RenderInputs, people: seq<Person>, i: nat)
    requires i < |people|
    ensures Githubs(Filter(people[..i + 1], BelongTest(rin))) ==
      Githubs(Filter(people[..i], BelongTest(rin))) + if Belongs(rin, people[i]) then [people[i].github] else []
  {
    FilterStep(people, BelongTest(rin), i);
    GithubsSnoc(Filter(people[..i], BelongTest(rin)), people[i]);
  }

  /** People the roster puts in the organization. */
  method AddBelonging(rin: RenderInputs, start: seq<string>) returns (desired: seq<string>)
    ensures desired == start + Githubs(Filter(rin.roster.people, BelongTest(rin)))
  {
    desired := start;
    var people := rin.roster.people;
    for i := 0 to |people|
      invariant desired == start + Githubs(Filter(people[..i], BelongTest(rin)))
    {
      BelongStep(rin, people, i);
      var person := people[i];
      if rin.org.name !in person.orgs {
        continue;
      }
      var membership := person.orgs[rin.org.name];
      if person.displayOnly {
        if membership.member {
          desired := desired + [person.github];
        }
      } else if membership.live {
        if membership.member || |membership.desiredTeams| > 0 {
          desired := desired + [person.github];
        }
      } else if OnlyKnownBy(person, rin.unhealthy) != "" {
        if membership.member {
          desired := desired + [person.github];
        }
      }
    }
    assert people[..|people|] == people;
  }

  /** Members nobody can identify stay. */
  method KeepUnknown(rin: RenderInputs, people: map<string, Person>, current: seq<string>, start: seq<string>)
    returns (desired: seq<string>)
    ensures desired == start + Filter(current, UnknownTest(rin, people))
  {
    desired := start;
    for i := 0 to |current|
      invariant desired == start + Filter(current[..i], UnknownTest(rin, people))
    {
      FilterStep(current, UnknownTest(rin, people), i);
      if Lower(current[i]) !in people && !rin.org.IsException(current[i]) {
        desired := desired + [current[i]];
      }
    }
    assert current[..|current|] == current;
  }

  method DesireMembers(rin: RenderInputs, people: map<string, Person>, current: seq<string>) returns (desired: seq<string>)
    requires people == PeopleByLogin(rin.roster.people) && current == Ordinary(rin.state)
    ensures desired == FullMembers(rin)
  {
    desired := KeepExceptions(rin, current);
    desired := AddBelonging(rin, desired);
    desired := KeepUnknown(rin, people, current, desired);
    desired := AppendInvited(desired, rin.state.invitations);
  }

  /** The folded logins of a list. */
  function FoldedSet(values: seq<string>): set<string> {
    if values == [] then {} else FoldedSet(values[..|values| - 1]) + {Lower(values[|values| - 1])}
  }

  lemma {:induction false} FoldedSetMeans(values: seq<string>, x: string)
    ensures Lower(x) in FoldedSet(values) <==> ContainsFold(values, x)
  {
    if values != [] {
      var rest, last := values[..|values| - 1], values[|values| - 1];
      assert forall y :: y in values <==> y in rest || y == last by { assert values == rest + [last]; }
      FoldedSetMeans(rest, x);
      assert last in values;
    }
  }

  method SortUnique(values: seq<string>) returns (out: seq<string>)
    ensures out == SortedUnique(values)
  {
    var seen: set<string> := {};
    out := [];
    for i := 0 to |values|
      invariant out == DedupFold(values[..i])
      invariant seen == FoldedSet(values[..i])
    {
      assert values[..i + 1][..i] == values[..i];
      FoldedSetMeans(values[..i], values[i]);
      var key := Lower(values[i]);
      if key in seen {
        continue;
      }
      seen := seen + {key};
      out := out + [values[i]];
    }
    assert values[..|values|] == values;
    out := SortStrings(out);
  }

  method Seats(state: State) returns (seats: seq<string>)
    ensures seats == OccupiedSeats(state)
  {
    seats := [];
    for i := 0 to |state.members|
      invariant seats == Logins(Filter(state.members[..i], HasRole(false)))
    {
      FilterStep(state.members, HasRole(false), i);
      LoginsSnoc(Filter(state.members[..i], HasRole(false)), state.members[i]);
      if state.members[i].role == RoleAdmin {
        continue;
      }
      seats := seats + [state.members[i].login];
    }
    assert state.members[..|state.members|] == state.members;
    for i := 0 to |state.invitations|
      invariant seats == Ordinary(state) + InvitedLogins(state.invitations[..i])
    {
      assert state.invitations[..i + 1][..i] == state.invitations[..i];
      if state.invitations[i].login != "" {
        seats := seats + [state.invitations[i].login];
      }
    }
    assert state.invitations[..|state.invitations|] == state.invitations;
  }

  method FindMissing(a: seq<string>, b: seq<string>) returns (out: seq<string>)
    ensures out == Missing(a, b)
  {
    out := [];
    for i := 0 to |a|
      invariant out == Filter(a[..i], AbsentFrom(b))
    {
      FilterStep(a, AbsentFrom(b), i);
      if !ContainsFold(b, a[i]) {
        out := out + [a[i]];
      }
    }
    assert a[..|a|] == a;
    out := SortStrings(out);
  }

  /** Who one team should hold. */
  method GatherTeam(rin: RenderInputs, name: string) returns (members: seq<string>)
    requires name in rin.org.teams
    ensures members == TeamLogins(rin, name)
  {
    members := [];
    var people := rin.roster.people;
    for i := 0 to |people|
      invariant members == Githubs(Filter(people[..i], WantsTeam(rin, name)))
    {
      FilterStep(people, WantsTeam(rin, name), i);
      GithubsSnoc(Filter(people[..i], WantsTeam(rin, name)), people[i]);
      if rin.org.name !in people[i].orgs {
        continue;
      }
      if name in people[i].orgs[rin.org.name].desiredTeams {
        members := members + [people[i].github];
      }
    }
    assert people[..|people|] == people;
    if rin.org.teams[name].pinned {
      members := members + Residents(rin.state, name);
    }
    if AbsentBacking(rin.org.teams[name].groups, rin.roster.absentGroups) != "" {
      members := members + Residents(rin.state, name);
    }
  }

  /** Configured teams that exist, in arbitrary order. */
  method RenderTeams(rin: RenderInputs) returns (teams: map<string, TeamDoc>)
    ensures teams == TeamsFor(rin)
  {
    teams := map[];
    var todo := rin.org.teams.Keys;
    while todo != {}
      invariant todo <= rin.org.teams.Keys
      invariant forall name :: name in teams <==> name in rin.org.teams.Keys - todo && name in rin.state.teams
      invariant forall name :: name in teams ==> teams[name] == TeamDocFor(rin, name)
    {
      var name :| name in todo;
      todo := todo - {name};
      if name in rin.state.teams {
        var members := GatherTeam(rin, name);
        var unique := SortUnique(members);
        teams := teams[name := TeamDoc([], unique)];
      }
    }
  }

  /** Renders the document for one organization. */
  method Run(rin: RenderInputs) returns (out: Outcome)
    ensures out == RenderOf(rin)
  {
    var people := IndexPeople(rin.roster.people);
    var admins, members := SplitCurrent(rin.state);
    var desired: seq<string>;
    match rin.mode {
      case RemovalsOnly => desired := KeepMembers(rin, people, members);
      case Full => desired := DesireMembers(rin, people, members);
    }
    var uniqueAdmins := SortUnique(admins);
    var uniqueMembers := SortUnique(desired);
    var teams: map<string, TeamDoc> := map[];
    if rin.mode == Full {
      teams := RenderTeams(rin);
    }
    var occupied := Seats(rin.state);
    var removing := FindMissing(occupied, desired);
    var adding := FindMissing(desired, occupied);
    if rin.mode == RemovalsOnly && |adding| > 0 {
      return WouldAdd(adding);
    }
    out := Rendered(Result(map[rin.org.name := OrgDoc(uniqueAdmins, uniqueMembers, teams)], removing, adding));
  }
}
