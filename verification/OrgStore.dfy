/** Organizations staged as flat parameters, and read back (pkg/configstore/orgs.go). */
module OrgStore {
  import opened Indexing
  import opened Strings
  import opened Sorting
  import opened Config

  type Params = map<string, string>

  const MIN_ADMINS := "minAdmins"
  const CONSOLE_APP := "consoleAppSSM"
  const APPLIER_APP := "applierAppSSM"
  const EXCEPTIONS := "exceptions"
  const PROVENANCE := "provenance"
  const GROUPS := "groups"
  const MEMBERS := "members"
  const TEAMS := "teams"
  const APP := "app"
  const MANUAL := "manual"

  // ----- parameter names -----

  /** What a parameter is about; team is empty for an organization's own scalars. */
  datatype Key = Key(org: string, team: string, field: string)

  predicate ValidKey(key: Key) {
    IsSegment(key.org) && (key.team == "" || IsSegment(key.team)) && IsSegment(key.field)
  }

  function PathOf(prefix: string, key: Key): string {
    if key.team == "" then prefix + key.org + "/" + key.field
    else prefix + key.org + "/" + TEAMS + "/" + key.team + "/" + key.field
  }

  /** Where an organization's own parameters and its teams' are. */
  lemma PathsAre(prefix: string, org: string, team: string, field: string)
    requires team != ""
    ensures PathOf(prefix, Key(org, "", field)) == prefix + org + "/" + field
    ensures PathOf(prefix, Key(org, team, field)) == prefix + org + "/teams/" + team + "/" + field
  {
    assert "/" + TEAMS + "/" == "/teams/";
    assert prefix + org + "/" + TEAMS + "/" == prefix + org + ("/" + TEAMS + "/");
  }

  /** splitOrgParam: two segments, or four with "teams" second. */
  function ParseRest(rest: string): Option<Key> {
    var parts := Split(rest, '/');
    if |parts| == 2 && parts[0] != "" && parts[1] != "" then Some(Key(parts[0], "", parts[1]))
    else if |parts| == 4 && parts[0] != "" && parts[1] == TEAMS && parts[2] != "" && parts[3] != "" then
      Some(Key(parts[0], parts[2], parts[3]))
    else None
  }

  function Parse(prefix: string, full: string): Option<Key> {
    if !(prefix <= full) || prefix == "" then None else ParseRest(full[|prefix|..])
  }

  lemma ParseScalar(org: string, field: string)
    requires IsSegment(org) && IsSegment(field)
    ensures ParseRest(org + "/" + field) == Some(Key(org, "", field))
  {
    SplitHead(org, field, '/');
    SplitWhole(field, '/');
    assert org + "/" + field == org + ['/'] + field;
  }

  lemma SplitFour(a: string, b: string, c: string, d: string)
    requires '/' !in a && '/' !in b && '/' !in c && '/' !in d
    ensures Split(a + "/" + b + "/" + c + "/" + d, '/') == [a, b, c, d]
  {
    var r3 := c + ['/'] + d;
    var r2 := b + ['/'] + r3;
    SplitWhole(d, '/');
    SplitHead(c, d, '/');
    SplitHead(b, r3, '/');
    SplitHead(a, r2, '/');
    assert a + "/" + b + "/" + c + "/" + d == a + ['/'] + r2;
  }

  lemma SplitTeam(org: string, team: string, field: string)
    requires '/' !in org && '/' !in team && '/' !in field
    ensures Split(org + "/" + TEAMS + "/" + team + "/" + field, '/') == [org, TEAMS, team, field]
  {
    SplitFour(org, TEAMS, team, field);
  }

  lemma ParseTeam(org: string, team: string, field: string)
    requires IsSegment(org) && IsSegment(team) && IsSegment(field)
    ensures ParseRest(org + "/" + TEAMS + "/" + team + "/" + field) == Some(Key(org, team, field))
  {
    SplitTeam(org, team, field);
  }

  /** A valid key's path parses back to the key. */
  lemma ParseOf(prefix: string, key: Key)
    requires prefix != "" && ValidKey(key)
    ensures Parse(prefix, PathOf(prefix, key)) == Some(key)
  {
    var full := PathOf(prefix, key);
    if key.team == "" {
      assert full[|prefix|..] == key.org + "/" + key.field;
      ParseScalar(key.org, key.field);
    } else {
      assert full[|prefix|..] == key.org + "/" + TEAMS + "/" + key.team + "/" + key.field;
      ParseTeam(key.org, key.team, key.field);
    }
  }

  lemma JoinTwo(a: string, b: string)
    ensures Join([a, b], '/') == a + "/" + b
  {
    assert [a, b][1..] == [b];
  }

  lemma JoinFour(a: string, b: string, c: string, d: string)
    ensures Join([a, b, c, d], '/') == a + "/" + b + "/" + c + "/" + d
  {
    assert [a, b, c, d][1..] == [b, c, d] && [b, c, d][1..] == [c, d] && [c, d][1..] == [d];
    assert Join([c, d], '/') == c + "/" + d;
    assert Join([b, c, d], '/') == b + "/" + c + "/" + d;
  }

  lemma ScalarRest(rest: string)
    requires var parts := Split(rest, '/'); |parts| == 2 && parts[0] != "" && parts[1] != ""
    ensures var parts := Split(rest, '/'); rest == parts[0] + "/" + parts[1] && IsSegment(parts[0]) && IsSegment(parts[1])
  {
    var parts := Split(rest, '/');
    JoinSplit(rest, '/');
    SplitPieces(rest, '/');
    assert parts == [parts[0], parts[1]];
    JoinTwo(parts[0], parts[1]);
    assert parts[0] in parts && parts[1] in parts;
  }

  lemma TeamRest(rest: string)
    requires var parts := Split(rest, '/'); |parts| == 4 && parts[0] != "" && parts[2] != "" && parts[3] != ""
    ensures var parts := Split(rest, '/');
      && rest == parts[0] + "/" + parts[1] + "/" + parts[2] + "/" + parts[3]
      && IsSegment(parts[0]) && IsSegment(parts[2]) && IsSegment(parts[3])
  {
    var parts := Split(rest, '/');
    JoinSplit(rest, '/');
    SplitPieces(rest, '/');
    assert parts == [parts[0], parts[1], parts[2], parts[3]];
    JoinFour(parts[0], parts[1], parts[2], parts[3]);
    assert parts[0] in parts && parts[2] in parts && parts[3] in parts;
  }

  /** A parameter that parses is the path of a valid key, and no other's. */
  lemma ParseInverse(prefix: string, full: string)
    requires Parse(prefix, full).Some?
    ensures ValidKey(Parse(prefix, full).value) && full == PathOf(prefix, Parse(prefix, full).value)
  {
    var rest := full[|prefix|..];
    var parts := Split(rest, '/');
    assert full == prefix + rest;
    if |parts| == 2 {
      ScalarRest(rest);
      assert full == prefix + parts[0] + "/" + parts[1];
    } else {
      TeamRest(rest);
      assert full == prefix + parts[0] + "/" + TEAMS + "/" + parts[2] + "/" + parts[3];
    }
  }

  lemma PathInjective(prefix: string, a: Key, b: Key)
    requires prefix != "" && ValidKey(a) && ValidKey(b) && PathOf(prefix, a) == PathOf(prefix, b)
    ensures a == b
  {
    ParseOf(prefix, a);
    ParseOf(prefix, b);
  }

  // ----- reading -----

  function ValueAt(prefix: string, params: Params, key: Key): string {
    if PathOf(prefix, key) in params then params[PathOf(prefix, key)] else ""
  }

  function OrgsIn(prefix: string, params: Params): set<string> {
    set full | full in params && Parse(prefix, full).Some? :: Parse(prefix, full).value.org
  }

  function TeamsIn(prefix: string, params: Params, org: string): set<string> {
    set full | full in params && Parse(prefix, full).Some? && Parse(prefix, full).value.org == org &&
      Parse(prefix, full).value.team != "" :: Parse(prefix, full).value.team
  }

  function TeamAt(prefix: string, params: Params, org: string, team: string): Team {
    Team(SplitList(ValueAt(prefix, params, Key(org, team, GROUPS))), SplitList(ValueAt(prefix, params, Key(org, team, MEMBERS))), false)
  }

  predicate HasIntent(t: Team) {
    t.groups != [] || t.members != []
  }

  function TeamsAt(prefix: string, params: Params, org: string): map<string, Team> {
    map t | t in TeamsIn(prefix, params, org) && HasIntent(TeamAt(prefix, params, org, t)) :: TeamAt(prefix, params, org, t)
  }

  /** An organization from its texts and teams, or nothing when it points at
      no credentials or no team of it has intent. */
  function Formed(org: string, console: string, applier: string, provenance: string, exceptions: string, minAdmins: string,
    teams: map<string, Team>): Option<Org>
  {
    if console == "" || teams == map[] then None
    else Some(Org(org, "", if provenance == "" then MANUAL else provenance, console, applier, SplitList(exceptions), teams,
      Atoi(TrimSpace(minAdmins)), false))
  }

  /** One organization as the store lists it. */
  function ReadOrg(prefix: string, params: Params, org: string): Option<Org> {
    Formed(org,
      ValueAt(prefix, params, Key(org, "", CONSOLE_APP)),
      ValueAt(prefix, params, Key(org, "", APPLIER_APP)),
      ValueAt(prefix, params, Key(org, "", PROVENANCE)),
      ValueAt(prefix, params, Key(org, "", EXCEPTIONS)),
      ValueAt(prefix, params, Key(org, "", MIN_ADMINS)),
      TeamsAt(prefix, params, org))
  }

  // ----- staging -----

  datatype Param = Param(name: string, value: string)

  function AppPath(prefix: string, org: string): string {
    prefix + org + "/" + APP
  }

  /** The writes of one team. */
  function TeamWrites(prefix: string, name: string, t: string, team: Team): seq<Param> {
    var base := prefix + name + "/" + TEAMS + "/" + TrimSpace(t) + "/";
    (if |team.groups| > 0 then [Param(base + GROUPS, Join(team.groups, ','))] else []) +
    (if |team.members| > 0 then [Param(base + MEMBERS, Join(team.members, ','))] else [])
  }

  function TeamParams(prefix: string, name: string, teams: map<string, Team>, names: seq<string>): seq<Param>
    requires forall t :: t in names ==> t in teams
  {
    if names == [] then []
    else
      var last := names[|names| - 1];
      TeamParams(prefix, name, teams, names[..|names| - 1]) + TeamWrites(prefix, name, last, teams[last])
  }

  function ScalarParams(prefix: string, org: Org): seq<Param> {
    var base := prefix + TrimSpace(org.name) + "/";
    [Param(base + CONSOLE_APP, AppPath(prefix, TrimSpace(org.name)))] +
    (if org.minAdmins > 0 then [Param(base + MIN_ADMINS, Itoa(org.minAdmins))] else []) +
    (if |org.exceptions| > 0 then [Param(base + EXCEPTIONS, Join(org.exceptions, ','))] else [])
  }

  lemma AscendingNames(teams: map<string, Team>)
    ensures forall t :: t in Ascending(teams.Keys) <==> t in teams
  {
    AscendingSound(teams.Keys);
  }

  /** The parameters that stage an organization, in writing order. */
  ghost function OrgParams(prefix: string, org: Org): seq<Param> {
    AscendingNames(org.teams);
    ScalarParams(prefix, org) + TeamParams(prefix, TrimSpace(org.name), org.teams, Ascending(org.teams.Keys))
  }

  function WriteAll(params: Params, writes: seq<Param>): Params {
    if writes == [] then params
    else WriteAll(params, writes[..|writes| - 1])[writes[|writes| - 1].name := writes[|writes| - 1].value]
  }

  lemma WriteSnoc(params: Params, writes: seq<Param>, w: Param)
    ensures WriteAll(params, writes + [w]) == WriteAll(params, writes)[w.name := w.value]
  {
    assert (writes + [w])[..|writes|] == writes;
  }

  predicate HasTeam(org: Org) {
    exists t :: t in org.teams && HasIntent(org.teams[t])
  }

  lemma {:induction false} WriteConcat(params: Params, a: seq<Param>, b: seq<Param>)
    ensures WriteAll(params, a + b) == WriteAll(WriteAll(params, a), b)
  {
    if b == [] {
      assert a + b == a;
    } else {
      var rest, last := b[..|b| - 1], b[|b| - 1];
      WriteConcat(params, a, rest);
      assert a + b == (a + rest) + [last] && b == rest + [last];
      WriteSnoc(params, a + rest, last);
      WriteSnoc(WriteAll(params, a), rest, last);
    }
  }
}
