/** The join of directories, mapping and GitHub into people (pkg/roster/roster.go).

    The ghost functions say what each person's standing is; the methods compute
    it with the loops of the service. */
module Roster {
  import opened Text
  import opened Indexing
  import opened Sorting
  import opened OrgState
  import opened Config
  import opened Directory
  import opened Mapping
  import opened Liveness

  datatype MembershipState = StateNone | StatePending | StateInvited | StateSynced | StateLeaving | StateDisplayOnly

  datatype Membership = Membership(
    live: bool,
    member: bool,
    invitationPending: bool,
    role: Option<Role>,
    teams: seq<string>,
    desiredTeams: seq<string>,
    displayOnly: bool,
    state: MembershipState)

  datatype Person = Person(
    name: string,
    github: string,
    class_: string,
    live: bool,
    sources: seq<string>,
    expectedSources: seq<string>,
    displayOnly: bool,
    noTeam: bool,
    groups: seq<string>,
    orgs: map<string, Membership>)

  /** unmapped lists the subjects of the unmapped-person warnings. */
  datatype Roster = Roster(people: seq<Person>, absentGroups: seq<string>, unmapped: seq<string>)

  // ----- decisions -----

  /** Where a resolved membership sits in the reconcile lifecycle. */
  function StateOf(m: Membership): MembershipState {
    if m.displayOnly && m.member then StateDisplayOnly
    else if m.displayOnly then StateNone
    else if m.invitationPending then StateInvited
    else if m.member && !m.live then StateLeaving
    else if m.member && m.teams == m.desiredTeams then StateSynced
    else if m.member then StatePending
    else if m.live && |m.desiredTeams| > 0 then StatePending
    else StateNone
  }

  /** The home-company rule, through synced identities only. */
  predicate GrantLive(config: Config, org: Org, entry: Entry, l: Option<Record>, personLive: bool) {
    if entry.class_ == CLASS_BOT then true
    else if l.None? then personLive
    else if org.company in l.value.directories && Syncs(config, EmailDomain(l.value.directories[org.company].email)) then
      l.value.directories[org.company].live
    else l.value.hasSynced && l.value.syncedLive
  }

  /** An address is this person's when a live identity of theirs has it, or when no
      identity has it and the entry lists it. */
  predicate MatchesMember(member: string, entry: Entry, l: Record) {
    if exists s :: s in l.directories && EqualFold(l.directories[s].email, member) && l.directories[s].live then true
    else if exists s :: s in l.directories && EqualFold(l.directories[s].email, member) then false
    else exists e :: e in entry.emails && EqualFold(e, member)
  }

  predicate MatchesTeam(team: Team, entry: Entry, l: Record) {
    || (exists g :: g in team.groups && Lower(g) in l.groups)
    || (exists m :: m in team.members && MatchesMember(m, entry, l))
  }

  predicate HasPinned(entry: Entry, org: string, team: string) {
    exists p :: p in entry.pinned && EqualFold(p, org + "/" + team)
  }

  /** The configuration puts this person in the team. */
  predicate Wants(org: Org, entry: Entry, l: Option<Record>, isLive: bool, name: string)
    requires name in org.teams
  {
    if org.teams[name].pinned then HasPinned(entry, org.name, name)
    else isLive && l.Some? && MatchesTeam(org.teams[name], entry, l.value)
  }

  // ----- one person -----

  ghost function DesiredTeams(org: Org, entry: Entry, l: Option<Record>, isLive: bool): seq<string> {
    Ascending(set name | name in org.teams && Wants(org, entry, l, isLive, name))
  }

  /** The managed teams a login is in. */
  ghost function ManagedTeams(org: Org, state: State, login: string): seq<string> {
    Ascending(set slug | slug in state.teamMembers && slug in org.teams && Lower(login) in ByLower(state.teamMembers[slug]))
  }

  ghost function MembershipOf(inp: Inputs, org: Org, entry: Entry, l: Option<Record>, isLive: bool, displayOnly: bool): Membership {
    var live := if displayOnly && l.Some? then l.value.live else isLive;
    var desired := DesiredTeams(org, entry, l, isLive);
    if org.name !in inp.orgs then Membership(live, false, false, None, [], desired, displayOnly, StateNone)
    else
      var state, k := inp.orgs[org.name], Lower(entry.github);
      var current, invited := Current(state.members), Invited(state.invitations);
      var m := Membership(live, k in current || k in invited, k in invited,
        if k in current then Some(current[k].role) else None,
        ManagedTeams(org, state, entry.github), desired, displayOnly, StateNone);
      m.(state := StateOf(m))
  }

  predicate HasAt(email: string) {
    '@' in email
  }

  predicate Covers(source: Source, domain: string) {
    exists d :: d in source.domains && EqualFold(d.name, domain)
  }

  function AddSources(out: seq<string>, sources: seq<Source>, domain: string): seq<string> {
    if sources == [] then out
    else
      var rest, last := AddSources(out, sources[..|sources| - 1], domain), sources[|sources| - 1];
      if Covers(last, domain) then AppendUnique(rest, last.name) else rest
  }

  /** The sources declared for the addresses, each once. */
  function SourcesFor(config: Config, emails: seq<string>): seq<string> {
    if emails == [] then []
    else
      var rest, email := SourcesFor(config, emails[..|emails| - 1]), Lower(emails[|emails| - 1]);
      if HasAt(email) then AddSources(rest, config.sources, EmailDomain(email)) else rest
  }

  /** A configured source s covers the domain. */
  predicate SourceCovers(sources: seq<Source>, domain: string, s: string) {
    exists src :: src in sources && src.name == s && Covers(src, domain)
  }

  /** The configuration declares the source s for one of the addresses. */
  predicate Declared(config: Config, emails: seq<string>, s: string) {
    exists e :: e in emails && HasAt(Lower(e)) && SourceCovers(config.sources, EmailDomain(Lower(e)), s)
  }

  lemma {:induction false} AddSourcesMeans(out: seq<string>, sources: seq<Source>, domain: string, s: string)
    ensures s in AddSources(out, sources, domain) <==> s in out || SourceCovers(sources, domain, s)
  {
    if sources != [] {
      var rest, last := sources[..|sources| - 1], sources[|sources| - 1];
      assert sources == rest + [last];
      AddSourcesMeans(out, rest, domain, s);
      assert SourceCovers(sources, domain, s) <==> SourceCovers(rest, domain, s) || (last.name == s && Covers(last, domain));
    }
  }

  /** The sources that should know somebody are the ones covering a domain of one of
      their addresses. */
  lemma {:induction false} SourcesForMeans(config: Config, emails: seq<string>, s: string)
    ensures s in SourcesFor(config, emails) <==> Declared(config, emails, s)
  {
    if emails != [] {
      var rest, last := emails[..|emails| - 1], emails[|emails| - 1];
      assert emails == rest + [last];
      SourcesForMeans(config, rest, s);
      AddSourcesMeans(SourcesFor(config, rest), config.sources, EmailDomain(Lower(last)), s);
      assert Declared(config, emails, s) <==>
        Declared(config, rest, s) || (HasAt(Lower(last)) && SourceCovers(config.sources, EmailDomain(Lower(last)), s));
    }
  }

  predicate IsDisplayOnly(entry: Entry, l: Option<Record>) {
    entry.class_ != CLASS_BOT && l.Some? && !l.value.hasSynced
  }

  predicate PersonLive(entry: Entry, l: Option<Record>) {
    entry.class_ == CLASS_BOT || (l.Some? && l.value.live)
  }

  ghost function StandingIn(inp: Inputs, org: Org, entry: Entry): Membership {
    var l := Resolve(inp, entry);
    MembershipOf(inp, org, entry, l, GrantLive(inp.config, org, entry, l, PersonLive(entry, l)), IsDisplayOnly(entry, l))
  }

  ghost function Standings(inp: Inputs, orgs: seq<Org>, entry: Entry): map<string, Membership> {
    if orgs == [] then map[]
    else Standings(inp, orgs[..|orgs| - 1], entry)[orgs[|orgs| - 1].name := StandingIn(inp, orgs[|orgs| - 1], entry)]
  }

  ghost function PersonOf(inp: Inputs, entry: Entry): Person {
    var l, orgs := Resolve(inp, entry), Standings(inp, inp.config.orgs, entry);
    Person(entry.name, entry.github, entry.class_, PersonLive(entry, l),
      if l.Some? then l.value.sources else [],
      SourcesFor(inp.config, entry.emails),
      IsDisplayOnly(entry, l),
      !(exists o :: o in orgs && |orgs[o].desiredTeams| > 0),
      if l.Some? then Ascending(l.value.groups) else [],
      orgs)
  }

  // ----- the whole roster -----

  ghost function PeopleOf(inp: Inputs, entries: seq<Entry>): seq<Person> {
    if entries == [] then []
    else PeopleOf(inp, entries[..|entries| - 1]) + [PersonOf(inp, entries[|entries| - 1])]
  }

  lemma PeopleSnoc(inp: Inputs, entries: seq<Entry>, e: Entry)
    ensures PeopleOf(inp, entries + [e]) == PeopleOf(inp, entries) + [PersonOf(inp, e)]
  {
    assert (entries + [e])[..|entries|] == entries;
  }

  ghost predicate InNameOrder(people: seq<Person>) {
    forall i, j :: 0 <= i < j < |people| ==> !Less(people[j].name, people[i].name)
  }

  function FoldedGroups(snapshots: seq<Snapshot>): seq<string> {
    if snapshots == [] then []
    else FoldedGroups(snapshots[..|snapshots| - 1]) + FoldAll(snapshots[|snapshots| - 1].absentGroups)
  }

  function FoldAll(s: seq<string>): seq<string> {
    if s == [] then [] else FoldAll(s[..|s| - 1]) + [Lower(s[|s| - 1])]
  }

  /** The entry accounts for the display name n. */
  ghost predicate CoversName(inp: Inputs, e: Entry, n: string) {
    e.name == n || n in Claims(e, Records(inp, Accounts(inp.snapshots)), Owners(Accounts(inp.snapshots)))
  }

  ghost predicate Covered(inp: Inputs, entries: seq<Entry>, n: string) {
    exists e :: e in entries && CoversName(inp, e, n)
  }

  ghost function Unmapped(inp: Inputs): set<string> {
    var records := Records(inp, Accounts(inp.snapshots));
    set n | n in records && records[n].live && !Covered(inp, inp.entries, n)
  }

  /** r is the join of inp: one person per entry, by name. */
  ghost predicate IsJoin(inp: Inputs, r: Roster) {
    && multiset(r.people) == multiset(PeopleOf(inp, inp.entries))
    && InNameOrder(r.people)
    && r.absentGroups == SortStrings(FoldedGroups(inp.snapshots))
    && r.unmapped == Ascending(Unmapped(inp))
  }
}
