/** The membership document each mode renders (pkg/peribolos/render.go), as
    functions of the inputs. Render.dfy computes them with the service's loops. */
module RenderSpec {
  import opened Text
  import opened Indexing
  import opened Sorting
  import opened OrgState
  import opened Config
  import opened Document
  import opened Roster

  datatype RenderInputs = RenderInputs(mode: Mode, org: Org, roster: Roster, state: State, unhealthy: seq<string>)

  datatype Result = Result(doc: Doc, removing: seq<string>, adding: seq<string>)

  /** Refused: a removals-only document would have added someone. */
  datatype Outcome = Rendered(result: Result) | WouldAdd(adding: seq<string>)

  // ----- list helpers -----

  predicate ContainsFold(list: seq<string>, value: string) {
    exists x :: x in list && EqualFold(x, value)
  }

  /** The first spelling of each login. */
  function DedupFold(values: seq<string>): seq<string> {
    if values == [] then []
    else
      var rest, last := DedupFold(values[..|values| - 1]), values[|values| - 1];
      if ContainsFold(values[..|values| - 1], last) then rest else rest + [last]
  }

  function SortedUnique(values: seq<string>): seq<string> {
    SortStrings(DedupFold(values))
  }

  function AbsentFrom(b: seq<string>): string -> bool {
    value => !ContainsFold(b, value)
  }

  /** What a has and b, case aside, lacks, in order. */
  function Missing(a: seq<string>, b: seq<string>): seq<string> {
    SortStrings(Filter(a, AbsentFrom(b)))
  }

  function Logins(members: seq<Member>): seq<string> {
    if members == [] then [] else Logins(members[..|members| - 1]) + [members[|members| - 1].login]
  }

  function HasRole(admin: bool): Member -> bool {
    (m: Member) => (m.role == RoleAdmin) == admin
  }

  function Owners(state: State): seq<string> { Logins(Filter(state.members, HasRole(true))) }

  function Ordinary(state: State): seq<string> { Logins(Filter(state.members, HasRole(false))) }

  function InvitedLogins(invitations: seq<Invitation>): seq<string> {
    if invitations == [] then []
    else
      var rest, last := InvitedLogins(invitations[..|invitations| - 1]), invitations[|invitations| - 1];
      if last.login == "" then rest else rest + [last.login]
  }

  function OccupiedSeats(state: State): seq<string> {
    Ordinary(state) + InvitedLogins(state.invitations)
  }

  /** list, with every invited login it did not already hold. */
  function WithInvited(list: seq<string>, invitations: seq<Invitation>): seq<string> {
    if invitations == [] then list
    else
      var rest, last := WithInvited(list, invitations[..|invitations| - 1]), invitations[|invitations| - 1];
      if last.login != "" && !ContainsFold(rest, last.login) then rest + [last.login] else rest
  }

  // ----- people -----

  function PersonKey(p: Person): string { Lower(p.github) }

  function PeopleByLogin(people: seq<Person>): map<string, Person> {
    IndexBy(people, PersonKey)
  }

  function FirstIn(sources: seq<string>, bad: seq<string>): string {
    if sources == [] then ""
    else if sources[0] in bad then sources[0]
    else FirstIn(sources[1..], bad)
  }

  /** The first unhealthy source that could vouch for the person, or "". */
  function OnlyKnownBy(p: Person, unhealthy: seq<string>): string {
    FirstIn(p.sources + p.expectedSources, unhealthy)
  }

  // ----- members, removals only -----

  /** An unattended run leaves this current member in place. */
  predicate Keeps(rin: RenderInputs, people: map<string, Person>, login: string) {
    rin.org.IsException(login) || Lower(login) !in people ||
    var p := people[Lower(login)];
    rin.org.name !in p.orgs || p.orgs[rin.org.name].live || p.displayOnly || OnlyKnownBy(p, rin.unhealthy) != ""
  }

  function KeepTest(rin: RenderInputs, people: map<string, Person>): string -> bool {
    login => Keeps(rin, people, login)
  }

  function RemovalsOnlyMembers(rin: RenderInputs): seq<string> {
    WithInvited(Filter(Ordinary(rin.state), KeepTest(rin, PeopleByLogin(rin.roster.people))), rin.state.invitations)
  }

  // ----- members, full -----

  /** An operator sync wants this person in the organization. */
  predicate Belongs(rin: RenderInputs, p: Person) {
    rin.org.name in p.orgs &&
    var m := p.orgs[rin.org.name];
    if p.displayOnly then m.member
    else if m.live then m.member || |m.desiredTeams| > 0
    else OnlyKnownBy(p, rin.unhealthy) != "" && m.member
  }

  function BelongTest(rin: RenderInputs): Person -> bool {
    p => Belongs(rin, p)
  }

  function ExceptionTest(rin: RenderInputs): string -> bool {
    login => rin.org.IsException(login)
  }

  function UnknownTest(rin: RenderInputs, people: map<string, Person>): string -> bool {
    login => Lower(login) !in people && !rin.org.IsException(login)
  }

  function Githubs(people: seq<Person>): seq<string> {
    if people == [] then [] else Githubs(people[..|people| - 1]) + [people[|people| - 1].github]
  }

  function FullMembers(rin: RenderInputs): seq<string> {
    WithInvited(
      Filter(Ordinary(rin.state), ExceptionTest(rin)) +
      Githubs(Filter(rin.roster.people, BelongTest(rin))) +
      Filter(Ordinary(rin.state), UnknownTest(rin, PeopleByLogin(rin.roster.people))),
      rin.state.invitations)
  }

  function MembersFor(rin: RenderInputs): seq<string> {
    match rin.mode
    case RemovalsOnly => RemovalsOnlyMembers(rin)
    case Full => FullMembers(rin)
  }

  // ----- teams -----

  /** The first backing group known not to exist, or "". */
  function AbsentBacking(groups: seq<string>, absent: seq<string>): string {
    if groups == [] then ""
    else if Lower(groups[0]) in absent then groups[0]
    else AbsentBacking(groups[1..], absent)
  }

  function WantsTeam(rin: RenderInputs, name: string): Person -> bool {
    (p: Person) => rin.org.name in p.orgs && name in p.orgs[rin.org.name].desiredTeams
  }

  function Residents(state: State, name: string): seq<string> {
    if name in state.teamMembers then state.teamMembers[name] else []
  }

  /** A team whose residents stay: pinned, or backed by an absent group. */
  predicate KeepsResidents(rin: RenderInputs, name: string)
    requires name in rin.org.teams
  {
    rin.org.teams[name].pinned || AbsentBacking(rin.org.teams[name].groups, rin.roster.absentGroups) != ""
  }

  function TeamLogins(rin: RenderInputs, name: string): seq<string>
    requires name in rin.org.teams
  {
    Githubs(Filter(rin.roster.people, WantsTeam(rin, name))) +
    (if rin.org.teams[name].pinned then Residents(rin.state, name) else []) +
    (if AbsentBacking(rin.org.teams[name].groups, rin.roster.absentGroups) != "" then Residents(rin.state, name) else [])
  }

  function TeamDocFor(rin: RenderInputs, name: string): TeamDoc
    requires name in rin.org.teams
  {
    TeamDoc([], SortedUnique(TeamLogins(rin, name)))
  }

  function TeamsFor(rin: RenderInputs): map<string, TeamDoc> {
    map name | name in rin.org.teams && name in rin.state.teams :: TeamDocFor(rin, name)
  }

  // ----- the document -----

  function StanzaFor(rin: RenderInputs): OrgDoc {
    OrgDoc(SortedUnique(Owners(rin.state)), SortedUnique(MembersFor(rin)),
      if rin.mode == Full then TeamsFor(rin) else map[])
  }

  function RenderOf(rin: RenderInputs): Outcome {
    var desired, occupied := MembersFor(rin), OccupiedSeats(rin.state);
    var removing, adding := Missing(occupied, desired), Missing(desired, occupied);
    if rin.mode == RemovalsOnly && adding != [] then WouldAdd(adding)
    else Rendered(Result(map[rin.org.name := StanzaFor(rin)], removing, adding))
  }
}
