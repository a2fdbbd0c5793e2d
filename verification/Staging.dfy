/** What staging an organization leaves in the parameter store, and what the
    store then lists (pkg/configstore/orgs.go). */
module Staging {
  import opened Indexing
  import opened Strings
  import opened Sorting
  import opened Config
  import opened OrgStore

  // ----- parameters under one organization -----

  /** p and q hold the same parameters about org. */
  ghost predicate SameUnder(prefix: string, p: Params, q: Params, org: string) {
    forall full :: Parse(prefix, full).Some? && Parse(prefix, full).value.org == org ==>
      (full in p <==> full in q) && (full in p ==> p[full] == q[full])
  }

  /** A key whose text the listing reads. */
  ghost predicate Readable(key: Key) {
    ValidKey(key) && (key.team == "" || key.field == GROUPS || key.field == MEMBERS)
  }

  /** p and q hold the same texts for org. */
  ghost predicate SameTexts(prefix: string, p: Params, q: Params, org: string) {
    forall key :: Readable(key) && key.org == org ==> ValueAt(prefix, p, key) == ValueAt(prefix, q, key)
  }

  lemma TeamsInAreSegments(prefix: string, params: Params, org: string)
    ensures forall t :: t in TeamsIn(prefix, params, org) ==> IsSegment(t)
  {
    forall full | full in params && Parse(prefix, full).Some? ensures ValidKey(Parse(prefix, full).value) {
      ParseInverse(prefix, full);
    }
  }

  lemma FieldNames()
    ensures IsSegment(CONSOLE_APP) && IsSegment(APPLIER_APP) && IsSegment(PROVENANCE) && IsSegment(EXCEPTIONS)
    ensures IsSegment(MIN_ADMINS) && IsSegment(GROUPS) && IsSegment(MEMBERS)
  {
  }

  lemma TextIsPresent(prefix: string, params: Params, key: Key)
    requires prefix != "" && ValidKey(key) && ValueAt(prefix, params, key) != "" && key.team != ""
    ensures key.team in TeamsIn(prefix, params, key.org)
  {
    ParseOf(prefix, key);
  }

  /** A team is read exactly when one of its lists has an item. */
  lemma TeamsAtIff(prefix: string, params: Params, org: string, t: string)
    requires prefix != "" && IsSegment(org)
    ensures t in TeamsAt(prefix, params, org) <==> IsSegment(t) && HasIntent(TeamAt(prefix, params, org, t))
  {
    TeamsInAreSegments(prefix, params, org);
    FieldNames();
    SplitListJoinIff([]);
    if IsSegment(t) && HasIntent(TeamAt(prefix, params, org, t)) {
      var f := if TeamAt(prefix, params, org, t).groups != [] then GROUPS else MEMBERS;
      TextIsPresent(prefix, params, Key(org, t, f));
    }
  }

  lemma SameTeamTexts(prefix: string, p: Params, q: Params, org: string)
    requires prefix != "" && IsSegment(org)
    requires forall key :: Readable(key) && key.org == org && key.team != "" ==> ValueAt(prefix, p, key) == ValueAt(prefix, q, key)
    ensures TeamsAt(prefix, p, org) == TeamsAt(prefix, q, org)
  {
    FieldNames();
    forall t
      ensures t in TeamsAt(prefix, p, org) <==> t in TeamsAt(prefix, q, org)
      ensures t in TeamsAt(prefix, p, org) ==> TeamAt(prefix, p, org, t) == TeamAt(prefix, q, org, t)
    {
      TeamsAtIff(prefix, p, org, t);
      TeamsAtIff(prefix, q, org, t);
      if IsSegment(t) {
        assert Readable(Key(org, t, GROUPS)) && Readable(Key(org, t, MEMBERS));
      }
    }
  }

  /** What the store lists of an organization depends on its own texts only. */
  lemma ReadDependsOnTexts(prefix: string, p: Params, q: Params, org: string)
    requires prefix != "" && IsSegment(org) && SameTexts(prefix, p, q, org)
    ensures ReadOrg(prefix, p, org) == ReadOrg(prefix, q, org)
  {
    SameTeamTexts(prefix, p, q, org);
    FieldNames();
    forall f | IsSegment(f) ensures ValueAt(prefix, p, Key(org, "", f)) == ValueAt(prefix, q, Key(org, "", f)) {
      assert Readable(Key(org, "", f));
    }
  }

  /** And so on its own parameters only. */
  lemma ReadDependsOnOwn(prefix: string, p: Params, q: Params, org: string)
    requires prefix != "" && IsSegment(org) && SameUnder(prefix, p, q, org)
    ensures ReadOrg(prefix, p, org) == ReadOrg(prefix, q, org)
  {
    forall key | Readable(key) && key.org == org ensures ValueAt(prefix, p, key) == ValueAt(prefix, q, key) {
      ParseOf(prefix, key);
    }
    ReadDependsOnTexts(prefix, p, q, org);
  }

  /** A name that is no path segment is read as nothing. */
  lemma UnreadableName(prefix: string, params: Params, name: string)
    requires !IsSegment(name)
    ensures ReadOrg(prefix, params, name) == None
  {
    forall full | full in params && Parse(prefix, full).Some? ensures Parse(prefix, full).value.org != name {
      ParseInverse(prefix, full);
    }
    assert TeamsAt(prefix, params, name) == map[];
  }

  // ----- names -----

  /** The name an organization is staged under. */
  function StagedName(org: Org): string {
    TrimSpace(org.name)
  }

  function ListFor(team: Team, field: string): seq<string> {
    if field == GROUPS then team.groups else if field == MEMBERS then team.members else []
  }

  /** Of the teams staged as t, the last with a list in the field gives it. */
  function LastList(teams: map<string, Team>, names: seq<string>, t: string, field: string): seq<string>
    requires forall x :: x in names ==> x in teams
  {
    if names == [] then []
    else
      var last := names[|names| - 1];
      if TrimSpace(last) == t && ListFor(teams[last], field) != [] then ListFor(teams[last], field)
      else LastList(teams, names[..|names| - 1], t, field)
  }

  lemma {:induction false} LastListMeans(teams: map<string, Team>, names: seq<string>, t: string, field: string)
    requires forall x :: x in names ==> x in teams
    ensures var list := LastList(teams, names, t, field);
      if list == [] then forall x :: x in names && TrimSpace(x) == t ==> ListFor(teams[x], field) == []
      else exists x :: x in names && TrimSpace(x) == t && ListFor(teams[x], field) == list
  {
    if names != [] {
      var rest, last := names[..|names| - 1], names[|names| - 1];
      assert names == rest + [last];
      LastListMeans(teams, rest, t, field);
    }
  }

  function TeamNames(org: Org): set<string> {
    set raw | raw in org.teams && IsSegment(TrimSpace(raw)) :: TrimSpace(raw)
  }

  /** The organization as staging sees it: names trimmed, teams that trim alike run
      together, one that is blank or holds a slash lost. */
  ghost function Canonical(org: Org): Org {
    AscendingNames(org.teams);
    var names := Ascending(org.teams.Keys);
    org.(name := StagedName(org),
         teams := map t | t in TeamNames(org) ::
           Team(LastList(org.teams, names, t, GROUPS), LastList(org.teams, names, t, MEMBERS), false))
  }

  /** The lists of a canonical team, by field. */
  lemma CanonicalList(org: Org, t: string, field: string)
    ensures forall x :: x in Ascending(org.teams.Keys) <==> x in org.teams
    ensures IsSegment(t) ==>
      LastList(org.teams, Ascending(org.teams.Keys), t, field) ==
        if t in Canonical(org).teams then ListFor(Canonical(org).teams[t], field) else []
  {
    AscendingNames(org.teams);
    LastListMeans(org.teams, Ascending(org.teams.Keys), t, field);
    if field != GROUPS && field != MEMBERS {
      assert forall x :: x in org.teams ==> ListFor(org.teams[x], field) == [];
    }
  }

  // ----- what staging writes -----

  function Listed(items: seq<string>): Option<string> {
    if items == [] then None else Some(Join(items, ','))
  }

  function StagedScalar(prefix: string, org: Org, field: string): Option<string> {
    if field == CONSOLE_APP then Some(AppPath(prefix, org.name))
    else if field == MIN_ADMINS && org.minAdmins > 0 then Some(Itoa(org.minAdmins))
    else if field == EXCEPTIONS then Listed(org.exceptions)
    else None
  }

  /** The value a canonical organization gives each key. */
  function Staged(prefix: string, org: Org, key: Key): Option<string> {
    if key.org != org.name then None
    else if key.team == "" then StagedScalar(prefix, org, key.field)
    else if key.team in org.teams then Listed(ListFor(org.teams[key.team], key.field))
    else None
  }

  const SCALARS := [CONSOLE_APP, MIN_ADMINS, EXCEPTIONS]

  lemma ScalarNames(f: string)
    ensures f in SCALARS <==> f == CONSOLE_APP || f == MIN_ADMINS || f == EXCEPTIONS
    ensures f in SCALARS ==> IsSegment(f) && f != GROUPS && f != MEMBERS
  {
  }

  /** The scalar writes of a canonical organization. */
  lemma ScalarWritesAre(prefix: string, org: Org, w: Param)
    requires Trimmed(org.name)
    ensures w in ScalarParams(prefix, org) <==>
      exists f :: f in SCALARS && StagedScalar(prefix, org, f) == Some(w.value) && w.name == prefix + org.name + "/" + f
  {
    ScalarNames(CONSOLE_APP);
    ScalarNames(MIN_ADMINS);
    ScalarNames(EXCEPTIONS);
    forall f | f in SCALARS && StagedScalar(prefix, org, f) == Some(w.value) && w.name == prefix + org.name + "/" + f
      ensures w in ScalarParams(prefix, org)
    {
      ScalarNames(f);
      assert w == Param(prefix + org.name + "/" + f, w.value);
    }
  }

  /** Scalars are written under the trimmed name. */
  lemma ScalarsOfCanonical(prefix: string, org: Org)
    ensures Trimmed(StagedName(org)) && ScalarParams(prefix, org) == ScalarParams(prefix, Canonical(org))
  {
    TrimSpaceTrims(org.name);
  }

  // ----- which key a path is of -----

  /** What follows the last slash, and what precedes it. */
  lemma LastSlash(a: string, f: string, b: string, g: string)
    requires '/' !in f && '/' !in g && a + "/" + f == b + "/" + g
    ensures a == b && f == g
  {
    var whole := a + "/" + f;
    assert whole[|a|] == '/' && whole[|b|] == '/';
    assert forall i :: |a| < i < |whole| ==> whole[i] == f[i - |a| - 1];
    assert forall i :: |b| < i < |whole| ==> whole[i] == g[i - |b| - 1];
    assert |a| == |b|;
    assert whole[..|a|] == a && whole[..|b|] == b;
    assert whole[|a| + 1..] == f && whole[|b| + 1..] == g;
  }

  function Slashes(s: string): nat {
    if s == "" then 0 else (if s[0] == '/' then 1 else 0) + Slashes(s[1..])
  }

  lemma {:induction false} SlashesConcat(a: string, b: string)
    ensures Slashes(a + b) == Slashes(a) + Slashes(b)
  {
    if a == "" {
      assert a + b == b;
    } else {
      SlashesConcat(a[1..], b);
      assert (a + b)[1..] == a[1..] + b;
    }
  }

  lemma {:induction false} NoSlashes(s: string)
    ensures Slashes(s) == 0 <==> '/' !in s
  {
    if s != "" {
      NoSlashes(s[1..]);
      assert s == [s[0]] + s[1..];
    }
  }

  lemma SlashesInTeamPath(name: string, t: string)
    ensures Slashes(name + "/" + TEAMS + "/" + t) == Slashes(name) + 2 + Slashes(t)
  {
    SlashesConcat(name + "/" + TEAMS + "/", t);
    SlashesConcat(name + "/" + TEAMS, "/");
    SlashesConcat(name + "/", TEAMS);
    SlashesConcat(name, "/");
    NoSlashes(TEAMS);
    assert Slashes("/") == 1;
  }

  /** A scalar's path is that of one readable key, if of any. */
  lemma ScalarPathIs(prefix: string, name: string, f: string, key: Key)
    requires f in SCALARS && Readable(key)
    ensures prefix + name + "/" + f == PathOf(prefix, key) <==> key == Key(name, "", f)
  {
    ScalarNames(f);
    if prefix + name + "/" + f == PathOf(prefix, key) {
      if key.team == "" {
        LastSlash(prefix + name, f, prefix + key.org, key.field);
        assert (prefix + name)[|prefix|..] == name && (prefix + key.org)[|prefix|..] == key.org;
      } else {
        LastSlash(prefix + name, f, prefix + key.org + "/" + TEAMS + "/" + key.team, key.field);
      }
    }
  }

  /** A team list's path is that of one key, or of none when a name in it is blank or
      holds a slash. */
  lemma TeamPathIs(prefix: string, name: string, t: string, f: string, key: Key)
    requires IsSegment(f) && ValidKey(key)
    ensures prefix + name + "/" + TEAMS + "/" + t + "/" + f == PathOf(prefix, key) <==> key.team != "" && key == Key(name, t, f)
  {
    if prefix + name + "/" + TEAMS + "/" + t + "/" + f == PathOf(prefix, key) {
      if key.team == "" {
        ScalarIsNoTeam(prefix, name, t, f, key);
      } else {
        LastSlash(prefix + name + "/" + TEAMS + "/" + t, f, prefix + key.org + "/" + TEAMS + "/" + key.team, key.field);
        assert (prefix + name + "/" + TEAMS + "/" + t)[|prefix|..] == name + "/" + TEAMS + "/" + t;
        assert (prefix + key.org + "/" + TEAMS + "/" + key.team)[|prefix|..] == key.org + "/" + TEAMS + "/" + key.team;
        SameTeamPath(name, t, key.org, key.team);
      }
    }
  }

  lemma ScalarIsNoTeam(prefix: string, name: string, t: string, f: string, key: Key)
    requires IsSegment(f) && ValidKey(key) && key.team == ""
    ensures prefix + name + "/" + TEAMS + "/" + t + "/" + f != PathOf(prefix, key)
  {
    if prefix + name + "/" + TEAMS + "/" + t + "/" + f == PathOf(prefix, key) {
      LastSlash(prefix + name + "/" + TEAMS + "/" + t, f, prefix + key.org, key.field);
      assert (prefix + name + "/" + TEAMS + "/" + t)[|prefix|..] == name + "/" + TEAMS + "/" + t;
      assert (prefix + key.org)[|prefix|..] == key.org;
      SlashesInTeamPath(name, t);
      NoSlashes(key.org);
    }
  }

  lemma SameTeamPath(name: string, t: string, org: string, team: string)
    requires IsSegment(org) && IsSegment(team) && name + "/" + TEAMS + "/" + t == org + "/" + TEAMS + "/" + team
    ensures name == org && t == team
  {
    SlashesInTeamPath(name, t);
    SlashesInTeamPath(org, team);
    NoSlashes(org);
    NoSlashes(team);
    NoSlashes(t);
    LastSlash(name + "/" + TEAMS, t, org + "/" + TEAMS, team);
    LastSlash(name, TEAMS, org, TEAMS);
  }

  // ----- after the writes -----

  /** Writes that agree on a name leave that value; a name never written keeps its own. */
  lemma {:induction false} WritesLeave(params: Params, writes: seq<Param>, name: string, value: string)
    requires forall w :: w in writes && w.name == name ==> w.value == value
    ensures (exists w :: w in writes && w.name == name) ==> name in WriteAll(params, writes) && WriteAll(params, writes)[name] == value
    ensures (forall w :: w in writes ==> w.name != name) ==> SameAt(params, WriteAll(params, writes), name)
  {
    if writes != [] {
      var rest, last := writes[..|writes| - 1], writes[|writes| - 1];
      assert writes == rest + [last] && last in writes;
      WritesLeave(params, rest, name, value);
    }
  }

  predicate SameAt(before: Params, after: Params, name: string) {
    (name in after <==> name in before) && (name in before ==> after[name] == before[name])
  }

  /** What a run of writes leaves at a name: the value if there is one, else what was
      there. */
  predicate Leaves(before: Params, after: Params, name: string, value: Option<string>) {
    if value.Some? then name in after && after[name] == value.value else SameAt(before, after, name)
  }

  lemma ScalarsLeave(prefix: string, params: Params, org: Org, key: Key)
    requires Trimmed(org.name) && Readable(key)
    ensures Leaves(params, WriteAll(params, ScalarParams(prefix, org)), PathOf(prefix, key),
      if key.org == org.name && key.team == "" then StagedScalar(prefix, org, key.field) else None)
  {
    var writes, name := ScalarParams(prefix, org), PathOf(prefix, key);
    var staged := StagedScalar(prefix, org, key.field);
    forall w | w in writes && w.name == name
      ensures key.org == org.name && key.team == "" && staged == Some(w.value)
    {
      ScalarIsStaged(prefix, org, w, key);
    }
    WritesLeave(params, writes, name, if staged.Some? then staged.value else "");
    if key.org == org.name && key.team == "" && staged.Some? {
      ScalarNames(key.field);
      assert name == prefix + org.name + "/" + key.field;
      ScalarWritesAre(prefix, org, Param(name, staged.value));
    }
  }

  lemma ScalarIsStaged(prefix: string, org: Org, w: Param, key: Key)
    requires Trimmed(org.name) && w in ScalarParams(prefix, org) && Readable(key) && w.name == PathOf(prefix, key)
    ensures key.org == org.name && key.team == "" && StagedScalar(prefix, org, key.field) == Some(w.value)
  {
    ScalarWritesAre(prefix, org, w);
    var f :| f in SCALARS && StagedScalar(prefix, org, f) == Some(w.value) && w.name == prefix + org.name + "/" + f;
    ScalarPathIs(prefix, org.name, f, key);
  }

  /** A team's writes are those of its lists. */
  lemma TeamWritesAre(prefix: string, name: string, t: string, team: Team, w: Param)
    ensures w in TeamWrites(prefix, name, t, team) <==>
      exists f :: f in {GROUPS, MEMBERS} && ListFor(team, f) != [] &&
        w == Param(prefix + name + "/" + TEAMS + "/" + TrimSpace(t) + "/" + f, Join(ListFor(team, f), ','))
  {
    assert GROUPS != MEMBERS;
    assert GROUPS in {GROUPS, MEMBERS} && MEMBERS in {GROUPS, MEMBERS};
  }

  lemma ListedFields(team: Team, field: string)
    ensures ListFor(team, field) != [] ==> field in {GROUPS, MEMBERS}
  {
  }

  /** What one team's writes leave at a key: its list, if the key is that list's. */
  lemma TeamWritesLeave(prefix: string, params: Params, name: string, t: string, team: Team, key: Key)
    requires ValidKey(key)
    ensures Leaves(params, WriteAll(params, TeamWrites(prefix, name, t, team)), PathOf(prefix, key),
      if key.org == name && key.team != "" && key.team == TrimSpace(t) then Listed(ListFor(team, key.field)) else None)
  {
    var writes, path, list := TeamWrites(prefix, name, t, team), PathOf(prefix, key), ListFor(team, key.field);
    var mine := key.org == name && key.team != "" && key.team == TrimSpace(t);
    FieldNames();
    forall w | w in writes && w.name == path ensures mine && list != [] && w.value == Join(list, ',') {
      TeamWritesAre(prefix, name, t, team, w);
      var f :| f in {GROUPS, MEMBERS} && ListFor(team, f) != [] &&
        w == Param(prefix + name + "/" + TEAMS + "/" + TrimSpace(t) + "/" + f, Join(ListFor(team, f), ','));
      TeamPathIs(prefix, name, TrimSpace(t), f, key);
    }
    WritesLeave(params, writes, path, Join(list, ','));
    if mine && list != [] {
      ListedFields(team, key.field);
      TeamPathIs(prefix, name, TrimSpace(t), key.field, key);
      var w := Param(path, Join(list, ','));
      TeamWritesAre(prefix, name, t, team, w);
      assert w in writes && w.name == path;
    }
  }

  /** What the teams' writes leave at a key: the last list given to it. */
  lemma {:induction false} TeamsLeave(prefix: string, params: Params, name: string, teams: map<string, Team>, names: seq<string>, key: Key)
    requires ValidKey(key) && forall t :: t in names ==> t in teams
    ensures Leaves(params, WriteAll(params, TeamParams(prefix, name, teams, names)), PathOf(prefix, key),
      if key.org == name && key.team != "" then Listed(LastList(teams, names, key.team, key.field)) else None)
  {
    if names != [] {
      var rest, last := names[..|names| - 1], names[|names| - 1];
      assert names == rest + [last] && last in names;
      TeamsLeave(prefix, params, name, teams, rest, key);
      var before := WriteAll(params, TeamParams(prefix, name, teams, rest));
      WriteConcat(params, TeamParams(prefix, name, teams, rest), TeamWrites(prefix, name, last, teams[last]));
      TeamWritesLeave(prefix, before, name, last, teams[last], key);
    }
  }

  ghost predicate NothingUnder(prefix: string, params: Params, org: string) {
    forall full :: full in params && Parse(prefix, full).Some? ==> Parse(prefix, full).value.org != org
  }

  /** What staging leaves at any key the listing reads: the canonical organization's
      value for it, or what was there. */
  lemma StagingLeaves(prefix: string, params: Params, org: Org, key: Key)
    requires Readable(key)
    ensures Leaves(params, WriteAll(params, OrgParams(prefix, org)), PathOf(prefix, key), Staged(prefix, Canonical(org), key))
  {
    var names := Ascending(org.teams.Keys);
    AscendingNames(org.teams);
    ScalarsOfCanonical(prefix, org);
    var scalars := WriteAll(params, ScalarParams(prefix, org));
    WriteConcat(params, ScalarParams(prefix, org), TeamParams(prefix, StagedName(org), org.teams, names));
    ScalarsLeave(prefix, params, Canonical(org), key);
    TeamsLeave(prefix, scalars, StagedName(org), org.teams, names, key);
    CanonicalList(org, key.team, key.field);
  }

  /** Staging one organization leaves every other as it was. */
  lemma StagingLeavesOthers(prefix: string, params: Params, org: Org, other: string)
    requires prefix != "" && other != StagedName(org) && IsSegment(other)
    ensures ReadOrg(prefix, WriteAll(params, OrgParams(prefix, org)), other) == ReadOrg(prefix, params, other)
  {
    var after := WriteAll(params, OrgParams(prefix, org));
    forall key | Readable(key) && key.org == other ensures ValueAt(prefix, params, key) == ValueAt(prefix, after, key) {
      StagingLeaves(prefix, params, org, key);
    }
    ReadDependsOnTexts(prefix, params, after, other);
  }

  // ----- reading it back -----

  predicate Listable(items: seq<string>) {
    forall x :: x in items ==> ListItem(x)
  }

  /** A canonical organization with every list and number passed through its text. */
  function Through(prefix: string, org: Org): Org {
    Org(org.name, "", MANUAL, AppPath(prefix, org.name), "", SplitList(Join(org.exceptions, ',')), ThroughTeams(org),
      if org.minAdmins > 0 then org.minAdmins else 0, false)
  }

  function ThroughTeam(t: Team): Team {
    Team(SplitList(Join(t.groups, ',')), SplitList(Join(t.members, ',')), false)
  }

  function ThroughTeams(org: Org): map<string, Team> {
    map t | t in org.teams && HasIntent(ThroughTeam(org.teams[t])) :: ThroughTeam(org.teams[t])
  }

  /** Names that are path segments. */
  ghost predicate WellNamed(org: Org) {
    IsSegment(org.name) && forall t :: t in org.teams ==> IsSegment(t)
  }

  /** Each readable key of the organization holds exactly its staged value. */
  ghost predicate HoldsStaged(prefix: string, after: Params, org: Org) {
    forall key :: Readable(key) && key.org == org.name ==>
      && (PathOf(prefix, key) in after <==> Staged(prefix, org, key).Some?)
      && (Staged(prefix, org, key).Some? ==> after[PathOf(prefix, key)] == Staged(prefix, org, key).value)
  }

  /** What is read of a team, staged or not. */
  lemma StagedTeam(prefix: string, after: Params, org: Org, t: string)
    requires WellNamed(org) && HoldsStaged(prefix, after, org) && IsSegment(t)
    ensures TeamAt(prefix, after, org.name, t) == if t in org.teams then ThroughTeam(org.teams[t]) else Team([], [], false)
  {
    FieldNames();
    SplitListJoinIff([]);
    assert Readable(Key(org.name, t, GROUPS)) && Readable(Key(org.name, t, MEMBERS));
  }

  lemma NoIntentThrough(t: Team)
    requires !HasIntent(t)
    ensures !HasIntent(ThroughTeam(t))
  {
    SplitListJoinIff([]);
  }

  lemma StagedTeams(prefix: string, after: Params, org: Org)
    requires prefix != "" && WellNamed(org) && HoldsStaged(prefix, after, org)
    ensures TeamsAt(prefix, after, org.name) == ThroughTeams(org)
  {
    var read, through := TeamsAt(prefix, after, org.name), ThroughTeams(org);
    forall t
      ensures t in read <==> t in through
      ensures t in read && t in through ==> read[t] == through[t]
    {
      TeamsAtIff(prefix, after, org.name, t);
      if IsSegment(t) {
        StagedTeam(prefix, after, org, t);
      }
    }
    assert read == through;
  }

  lemma StagedScalarReads(prefix: string, after: Params, org: Org, field: string)
    requires WellNamed(org) && HoldsStaged(prefix, after, org) && IsSegment(field)
    ensures ValueAt(prefix, after, Key(org.name, "", field)) ==
      if Staged(prefix, org, Key(org.name, "", field)).Some? then Staged(prefix, org, Key(org.name, "", field)).value else ""
  {
    assert Readable(Key(org.name, "", field));
  }

  lemma StagedScalars(prefix: string, after: Params, org: Org)
    requires WellNamed(org) && HoldsStaged(prefix, after, org)
    ensures ValueAt(prefix, after, Key(org.name, "", CONSOLE_APP)) == AppPath(prefix, org.name)
    ensures ValueAt(prefix, after, Key(org.name, "", APPLIER_APP)) == ""
    ensures ValueAt(prefix, after, Key(org.name, "", PROVENANCE)) == ""
    ensures ValueAt(prefix, after, Key(org.name, "", EXCEPTIONS)) == Join(org.exceptions, ',')
    ensures ValueAt(prefix, after, Key(org.name, "", MIN_ADMINS)) == if org.minAdmins > 0 then Itoa(org.minAdmins) else ""
  {
    FieldNames();
    StagedScalarReads(prefix, after, org, CONSOLE_APP);
    StagedScalarReads(prefix, after, org, APPLIER_APP);
    StagedScalarReads(prefix, after, org, PROVENANCE);
    StagedScalarReads(prefix, after, org, EXCEPTIONS);
    StagedScalarReads(prefix, after, org, MIN_ADMINS);
  }

  /** What the store lists of a freshly staged organization, for any lists. */
  lemma ReadStaged(prefix: string, after: Params, org: Org)
    requires prefix != "" && WellNamed(org) && HoldsStaged(prefix, after, org) && org.minAdmins <= MAX_INT
    ensures ReadOrg(prefix, after, org.name) == if ThroughTeams(org) == map[] then None else Some(Through(prefix, org))
  {
    StagedTeams(prefix, after, org);
    StagedScalars(prefix, after, org);
    if org.minAdmins > 0 {
      AtoiItoa(org.minAdmins);
    }
  }

  lemma StagedHolds(prefix: string, params: Params, org: Org)
    requires prefix != "" && NothingUnder(prefix, params, StagedName(org))
    ensures HoldsStaged(prefix, WriteAll(params, OrgParams(prefix, org)), Canonical(org))
  {
    forall key | Readable(key) && key.org == StagedName(org)
      ensures PathOf(prefix, key) !in params
      ensures Leaves(params, WriteAll(params, OrgParams(prefix, org)), PathOf(prefix, key), Staged(prefix, Canonical(org), key))
    {
      ParseOf(prefix, key);
      StagingLeaves(prefix, params, org, key);
    }
  }

  /** read is the organization as staged into an empty place: its own credential
      pointer, adopted, reconciliation off, and every team with intent, under its
      trimmed name, with its own lists. */
  ghost predicate ReadsBack(prefix: string, org: Org, read: Org) {
    && read.(teams := map[]) ==
         Org(StagedName(org), "", MANUAL, AppPath(prefix, StagedName(org)), "", org.exceptions, map[], org.minAdmins, false)
    && (forall t :: t in read.teams ==> exists raw :: raw in org.teams && HasIntent(org.teams[raw]) && TrimSpace(raw) == t)
    && (forall raw :: raw in org.teams && HasIntent(org.teams[raw]) ==>
         TrimSpace(raw) in read.teams && read.teams[TrimSpace(raw)] == org.teams[raw].(pinned := false))
  }

  /** The team comes back: its name is neither blank nor holds a slash, and every item
      of its lists survives the comma list. */
  predicate TeamSurvives(name: string, team: Team) {
    IsSegment(TrimSpace(name)) && Listable(team.groups) && Listable(team.members)
  }

  predicate SameLists(a: Team, b: Team) {
    a.groups == b.groups && a.members == b.members
  }

  /** The name is neither blank nor holds a slash, the minimum is not negative, every
      list item survives, and teams with intent that trim alike have the same lists. */
  ghost predicate Survives(org: Org) {
    && IsSegment(StagedName(org))
    && org.minAdmins >= 0
    && Listable(org.exceptions)
    && (forall raw :: raw in org.teams && HasIntent(org.teams[raw]) ==> TeamSurvives(raw, org.teams[raw]))
    && (forall raw, other :: raw in org.teams && other in org.teams && TrimSpace(raw) == TrimSpace(other) ==>
         HasIntent(org.teams[raw]) && HasIntent(org.teams[other]) ==> SameLists(org.teams[raw], org.teams[other]))
  }

  lemma SplitListIsListable(v: string)
    ensures Listable(SplitList(v))
  {
    SplitPieces(v, ',');
    TrimNonEmptyMakes(Split(v, ','));
  }

  /** A canonical team with intent has it from some team. */
  lemma CanonicalIntent(org: Org, t: string)
    requires t in Canonical(org).teams && HasIntent(Canonical(org).teams[t])
    ensures exists raw :: raw in org.teams && HasIntent(org.teams[raw]) && TrimSpace(raw) == t
  {
    AscendingNames(org.teams);
    LastListMeans(org.teams, Ascending(org.teams.Keys), t, GROUPS);
    LastListMeans(org.teams, Ascending(org.teams.Keys), t, MEMBERS);
    assert GROUPS != MEMBERS;
  }

  /** A list of a canonical team is a list of some team that trims to its name, and is
      empty only when all of theirs are. */
  lemma CanonicalTeam(org: Org, t: string, field: string)
    requires t in Canonical(org).teams && field in {GROUPS, MEMBERS}
    ensures ListFor(Canonical(org).teams[t], field) != [] ==>
      exists raw :: raw in org.teams && TrimSpace(raw) == t && ListFor(org.teams[raw], field) == ListFor(Canonical(org).teams[t], field)
    ensures ListFor(Canonical(org).teams[t], field) == [] ==>
      forall raw :: raw in org.teams && TrimSpace(raw) == t ==> ListFor(org.teams[raw], field) == []
  {
    AscendingNames(org.teams);
    LastListMeans(org.teams, Ascending(org.teams.Keys), t, field);
    assert GROUPS != MEMBERS;
  }

  lemma SurvivingList(org: Org, raw: string, field: string)
    requires Survives(org) && raw in org.teams && HasIntent(org.teams[raw]) && field in {GROUPS, MEMBERS}
    ensures TrimSpace(raw) in Canonical(org).teams
    ensures ListFor(Canonical(org).teams[TrimSpace(raw)], field) == ListFor(org.teams[raw], field)
  {
    var t := TrimSpace(raw);
    assert TeamSurvives(raw, org.teams[raw]) && t in TeamNames(org);
    CanonicalTeam(org, t, field);
    forall other | other in org.teams && TrimSpace(other) == t && ListFor(org.teams[other], field) != []
      ensures ListFor(org.teams[other], field) == ListFor(org.teams[raw], field)
    {
      assert HasIntent(org.teams[other]);
    }
  }

  lemma SurvivingTeam(org: Org, raw: string)
    requires Survives(org) && raw in org.teams && HasIntent(org.teams[raw])
    ensures TrimSpace(raw) in ThroughTeams(Canonical(org))
    ensures ThroughTeams(Canonical(org))[TrimSpace(raw)] == org.teams[raw].(pinned := false)
  {
    assert GROUPS != MEMBERS;
    SurvivingList(org, raw, GROUPS);
    SurvivingList(org, raw, MEMBERS);
    assert TeamSurvives(raw, org.teams[raw]);
    SplitListJoinIff(org.teams[raw].groups);
    SplitListJoinIff(org.teams[raw].members);
  }

  lemma ThroughHasIntent(org: Org, t: string)
    requires t in ThroughTeams(Canonical(org))
    ensures exists raw :: raw in org.teams && HasIntent(org.teams[raw]) && TrimSpace(raw) == t
  {
    if !HasIntent(Canonical(org).teams[t]) {
      NoIntentThrough(Canonical(org).teams[t]);
    }
    CanonicalIntent(org, t);
  }

  lemma SurvivorsReadBack(prefix: string, org: Org)
    requires Survives(org) && HasTeam(org)
    ensures ThroughTeams(Canonical(org)) != map[] && ReadsBack(prefix, org, Through(prefix, Canonical(org)))
  {
    SplitListJoinIff(org.exceptions);
    forall t | t in ThroughTeams(Canonical(org))
      ensures exists raw :: raw in org.teams && HasIntent(org.teams[raw]) && TrimSpace(raw) == t
    {
      ThroughHasIntent(org, t);
    }
    forall raw | raw in org.teams && HasIntent(org.teams[raw])
      ensures TrimSpace(raw) in ThroughTeams(Canonical(org))
      ensures ThroughTeams(Canonical(org))[TrimSpace(raw)] == org.teams[raw].(pinned := false)
    {
      SurvivingTeam(org, raw);
    }
  }

  /** A list that came through the comma list survives it. */
  lemma ThroughIsListable(t: Team)
    ensures Listable(ThroughTeam(t).groups) && Listable(ThroughTeam(t).members)
  {
    SplitListIsListable(Join(t.groups, ','));
    SplitListIsListable(Join(t.members, ','));
  }

  lemma ReadBackTeam(prefix: string, org: Org, raw: string)
    requires WellNamed(Canonical(org)) && ReadsBack(prefix, org, Through(prefix, Canonical(org)))
    requires raw in org.teams && HasIntent(org.teams[raw])
    ensures TrimSpace(raw) in Canonical(org).teams
    ensures SameLists(ThroughTeam(Canonical(org).teams[TrimSpace(raw)]), org.teams[raw])
    ensures TeamSurvives(raw, org.teams[raw])
  {
    assert TrimSpace(raw) in Through(prefix, Canonical(org)).teams;
    ThroughIsListable(Canonical(org).teams[TrimSpace(raw)]);
  }

  /** Teams that trim alike and read back had the same lists. */
  lemma ReadBackAlike(prefix: string, org: Org, raw: string, other: string)
    requires WellNamed(Canonical(org)) && ReadsBack(prefix, org, Through(prefix, Canonical(org)))
    requires raw in org.teams && HasIntent(org.teams[raw]) && other in org.teams && HasIntent(org.teams[other])
    requires TrimSpace(raw) == TrimSpace(other)
    ensures SameLists(org.teams[raw], org.teams[other])
  {
    ReadBackTeam(prefix, org, raw);
    ReadBackTeam(prefix, org, other);
  }

  lemma ReadBackScalars(prefix: string, org: Org)
    requires ReadsBack(prefix, org, Through(prefix, Canonical(org)))
    ensures org.minAdmins >= 0 && Listable(org.exceptions)
  {
    SplitListIsListable(Join(org.exceptions, ','));
    assert Through(prefix, Canonical(org)).exceptions == org.exceptions;
    assert Through(prefix, Canonical(org)).minAdmins == org.minAdmins;
  }

  lemma ReadBackSurvives(prefix: string, org: Org)
    requires WellNamed(Canonical(org)) && ReadsBack(prefix, org, Through(prefix, Canonical(org)))
    ensures Survives(org)
  {
    ReadBackScalars(prefix, org);
    forall raw | raw in org.teams && HasIntent(org.teams[raw]) ensures TeamSurvives(raw, org.teams[raw]) {
      ReadBackTeam(prefix, org, raw);
    }
    forall raw, other | raw in org.teams && other in org.teams && TrimSpace(raw) == TrimSpace(other) &&
      HasIntent(org.teams[raw]) && HasIntent(org.teams[other])
      ensures SameLists(org.teams[raw], org.teams[other])
    {
      ReadBackAlike(prefix, org, raw, other);
    }
  }

  /** Staging into a store with nothing under the organization reads back exactly when
      its names and texts survive. */
  lemma StagingRoundTrip(prefix: string, params: Params, org: Org)
    requires prefix != "" && NothingUnder(prefix, params, StagedName(org)) && org.minAdmins <= MAX_INT && HasTeam(org)
    ensures var read := ReadOrg(prefix, WriteAll(params, OrgParams(prefix, org)), StagedName(org));
      read.Some? && ReadsBack(prefix, org, read.value) <==> Survives(org)
  {
    if IsSegment(StagedName(org)) {
      StagedHolds(prefix, params, org);
      ReadStaged(prefix, WriteAll(params, OrgParams(prefix, org)), Canonical(org));
      if Survives(org) {
        SurvivorsReadBack(prefix, org);
      }
      if ReadsBack(prefix, org, Through(prefix, Canonical(org))) {
        ReadBackSurvives(prefix, org);
      }
    } else {
      UnreadableName(prefix, WriteAll(params, OrgParams(prefix, org)), StagedName(org));
    }
  }

  const TWO_TEAMS := Org("o", "", "", "", "", [], map["t" := Team(["a"], [], false), "t " := Team(["b"], [], false)], 0, false)

  /** For example: two teams whose names differ in a space, staged as one. */
  lemma TeamsRunTogetherExample(prefix: string)
    requires prefix != ""
    ensures HasTeam(TWO_TEAMS)
    ensures var read := ReadOrg(prefix, WriteAll(map[], OrgParams(prefix, TWO_TEAMS)), "o");
      read.Some? ==> !ReadsBack(prefix, TWO_TEAMS, read.value)
  {
    assert TrimSpace("o") == "o" && TrimSpace("t") == "t" && TrimSpace("t ") == "t";
    assert TWO_TEAMS.teams["t"].groups != TWO_TEAMS.teams["t "].groups;
    assert HasIntent(TWO_TEAMS.teams["t"]) && HasIntent(TWO_TEAMS.teams["t "]);
    assert !SameLists(TWO_TEAMS.teams["t"], TWO_TEAMS.teams["t "]);
    StagingRoundTrip(prefix, map[], TWO_TEAMS);
  }

  const BLANK_TEAM := Org("o", "", "", "", "", [], map[" " := Team(["a"], [], false)], 0, false)

  /** For example: an organization whose one team has a blank name is accepted, and
      not listed. */
  lemma BlankTeamExample(prefix: string)
    requires prefix != ""
    ensures HasTeam(BLANK_TEAM) && ReadOrg(prefix, WriteAll(map[], OrgParams(prefix, BLANK_TEAM)), "o") == None
  {
    assert TrimSpace("o") == "o" && TrimSpace(" ") == "";
    assert HasIntent(BLANK_TEAM.teams[" "]);
    StagedHolds(prefix, map[], BLANK_TEAM);
    ReadStaged(prefix, WriteAll(map[], OrgParams(prefix, BLANK_TEAM)), Canonical(BLANK_TEAM));
    assert TeamNames(BLANK_TEAM) == {};
    assert ThroughTeams(Canonical(BLANK_TEAM)) == map[];
  }

  /** Only one organization reads back. */
  lemma ReadsBackUnique(prefix: string, org: Org, a: Org, b: Org)
    requires ReadsBack(prefix, org, a) && ReadsBack(prefix, org, b)
    ensures a == b
  {
    forall t | t in a.teams ensures t in b.teams && a.teams[t] == b.teams[t] {
      var raw :| raw in org.teams && HasIntent(org.teams[raw]) && TrimSpace(raw) == t;
    }
    forall t | t in b.teams ensures t in a.teams {
      var raw :| raw in org.teams && HasIntent(org.teams[raw]) && TrimSpace(raw) == t;
    }
    assert a.teams == b.teams;
    assert a == a.(teams := map[]).(teams := a.teams) && b == b.(teams := map[]).(teams := b.teams);
  }

  // ----- interrupted staging -----

  /** The organization asks for this value at this key. */
  ghost predicate Asked(prefix: string, org: Org, key: Key, value: string) {
    && key.org == StagedName(org)
    && if key.team == "" then StagedScalar(prefix, Canonical(org), key.field) == Some(value)
       else exists raw :: raw in org.teams && TrimSpace(raw) == key.team && Listed(ListFor(org.teams[raw], key.field)) == Some(value)
  }

  lemma TeamAsks(prefix: string, org: Org, raw: string, w: Param, key: Key)
    requires raw in org.teams && ValidKey(key)
    requires w in TeamWrites(prefix, StagedName(org), raw, org.teams[raw]) && w.name == PathOf(prefix, key)
    ensures Asked(prefix, org, key, w.value)
  {
    FieldNames();
    TeamWritesAre(prefix, StagedName(org), raw, org.teams[raw], w);
    var f :| f in {GROUPS, MEMBERS} && ListFor(org.teams[raw], f) != [] &&
      w == Param(prefix + StagedName(org) + "/" + TEAMS + "/" + TrimSpace(raw) + "/" + f, Join(ListFor(org.teams[raw], f), ','));
    TeamPathIs(prefix, StagedName(org), TrimSpace(raw), f, key);
  }

  lemma {:induction false} TeamsAsk(prefix: string, org: Org, names: seq<string>, w: Param, key: Key)
    requires ValidKey(key) && forall t :: t in names ==> t in org.teams
    requires w in TeamParams(prefix, StagedName(org), org.teams, names) && w.name == PathOf(prefix, key)
    ensures Asked(prefix, org, key, w.value)
  {
    var rest, last := names[..|names| - 1], names[|names| - 1];
    assert last in names;
    if w in TeamWrites(prefix, StagedName(org), last, org.teams[last]) {
      TeamAsks(prefix, org, last, w, key);
    } else {
      TeamsAsk(prefix, org, rest, w, key);
    }
  }

  /** Every write staging makes to a key the listing reads is one the organization asks
      for. */
  lemma ParamsAsked(prefix: string, org: Org, w: Param, key: Key)
    requires Readable(key) && w in OrgParams(prefix, org) && w.name == PathOf(prefix, key)
    ensures Asked(prefix, org, key, w.value)
  {
    AscendingNames(org.teams);
    ScalarsOfCanonical(prefix, org);
    if w in ScalarParams(prefix, org) {
      ScalarIsStaged(prefix, Canonical(org), w, key);
    } else {
      TeamsAsk(prefix, org, Ascending(org.teams.Keys), w, key);
    }
  }

  /** What is at a name after some writes was written there, or was there before. */
  lemma {:induction false} WrittenOrThere(params: Params, writes: seq<Param>, name: string)
    requires name in WriteAll(params, writes)
    ensures Param(name, WriteAll(params, writes)[name]) in writes || name in params
  {
    if writes != [] {
      var rest, last := writes[..|writes| - 1], writes[|writes| - 1];
      assert writes == rest + [last];
      if last.name == name {
        assert last == Param(name, last.value);
      } else {
        WrittenOrThere(params, rest, name);
      }
    }
  }

  /** Each readable key of the organization is absent or holds a value it asks for. */
  ghost predicate HoldsSome(prefix: string, after: Params, org: Org) {
    forall key :: Readable(key) && key.org == StagedName(org) && PathOf(prefix, key) in after ==>
      Asked(prefix, org, key, after[PathOf(prefix, key)])
  }

  lemma InterruptedHolds(prefix: string, params: Params, org: Org, k: nat)
    requires prefix != "" && NothingUnder(prefix, params, StagedName(org)) && k <= |OrgParams(prefix, org)|
    ensures HoldsSome(prefix, WriteAll(params, OrgParams(prefix, org)[..k]), org)
  {
    var writes := OrgParams(prefix, org)[..k];
    var after := WriteAll(params, writes);
    forall key | Readable(key) && key.org == StagedName(org) && PathOf(prefix, key) in after
      ensures Asked(prefix, org, key, after[PathOf(prefix, key)])
    {
      var w := Param(PathOf(prefix, key), after[PathOf(prefix, key)]);
      ParseOf(prefix, key);
      WrittenOrThere(params, writes, PathOf(prefix, key));
      assert w in writes && w in OrgParams(prefix, org);
      ParamsAsked(prefix, org, w, key);
    }
  }

  /** The list is none, or one given to a team staged under the name t. */
  ghost predicate GivenList(org: Org, t: string, field: string, items: seq<string>) {
    items == [] || exists raw :: raw in org.teams && TrimSpace(raw) == t && items == SplitList(Join(ListFor(org.teams[raw], field), ','))
  }

  lemma InterruptedList(prefix: string, after: Params, org: Org, t: string, field: string)
    requires HoldsSome(prefix, after, org) && IsSegment(StagedName(org)) && IsSegment(t) && field in {GROUPS, MEMBERS}
    ensures GivenList(org, t, field, SplitList(ValueAt(prefix, after, Key(StagedName(org), t, field))))
  {
    var key := Key(StagedName(org), t, field);
    FieldNames();
    assert Readable(key);
    if PathOf(prefix, key) in after {
      assert Asked(prefix, org, key, after[PathOf(prefix, key)]);
    } else {
      SplitListJoinIff([]);
    }
  }

  /** What an interrupted staging can list: no team that was not asked for, and of
      each team a list it was given or none. */
  lemma InterruptedStagingAddsNothing(prefix: string, params: Params, org: Org, k: nat, t: string)
    requires prefix != "" && NothingUnder(prefix, params, StagedName(org)) && k <= |OrgParams(prefix, org)|
    ensures var read := ReadOrg(prefix, WriteAll(params, OrgParams(prefix, org)[..k]), StagedName(org));
      read.Some? && t in read.value.teams ==>
        && (exists raw :: raw in org.teams && TrimSpace(raw) == t)
        && HasIntent(read.value.teams[t])
        && GivenList(org, t, GROUPS, read.value.teams[t].groups)
        && GivenList(org, t, MEMBERS, read.value.teams[t].members)
  {
    var after := WriteAll(params, OrgParams(prefix, org)[..k]);
    if IsSegment(StagedName(org)) {
      InterruptedHolds(prefix, params, org, k);
      if t in TeamsAt(prefix, after, StagedName(org)) {
        TeamsAtIff(prefix, after, StagedName(org), t);
        InterruptedTeam(prefix, after, org, t);
      }
    } else {
      UnreadableName(prefix, after, StagedName(org));
    }
  }

  lemma InterruptedTeam(prefix: string, after: Params, org: Org, t: string)
    requires HoldsSome(prefix, after, org) && IsSegment(StagedName(org)) && IsSegment(t)
    requires HasIntent(TeamAt(prefix, after, StagedName(org), t))
    ensures exists raw :: raw in org.teams && TrimSpace(raw) == t
    ensures GivenList(org, t, GROUPS, TeamAt(prefix, after, StagedName(org), t).groups)
    ensures GivenList(org, t, MEMBERS, TeamAt(prefix, after, StagedName(org), t).members)
  {
    InterruptedList(prefix, after, org, t, GROUPS);
    InterruptedList(prefix, after, org, t, MEMBERS);
  }

  // ----- App credentials -----

  function AppField(prefix: string, org: string, field: string): string {
    AppPath(prefix, org) + "/" + field
  }

  /** A credential parameter is no organization's scalar and no team's list. */
  lemma AppFieldsDoNotParse(prefix: string, org: string, field: string)
    requires IsSegment(org) && IsSegment(field)
    ensures Parse(prefix, AppField(prefix, org, field)) == None
  {
    if prefix != "" {
      var rest := org + ['/'] + (APP + ['/'] + field);
      assert AppField(prefix, org, field) == prefix + rest;
      assert AppField(prefix, org, field)[|prefix|..] == rest;
      SplitWhole(field, '/');
      SplitHead(APP, field, '/');
      SplitHead(org, APP + ['/'] + field, '/');
    }
  }

  /** A credential's field name: no team list's. */
  predicate IsCredential(f: string) {
    IsSegment(f) && f != GROUPS && f != MEMBERS
  }

  /** p and q differ at most in credential parameters of org and its credential pointer. */
  ghost predicate OnlyCredentials(prefix: string, p: Params, q: Params, org: string) {
    forall full :: !SameAt(p, q, full) ==>
      || full == prefix + org + "/" + CONSOLE_APP
      || exists f :: IsCredential(f) && full == AppField(prefix, org, f)
  }

  lemma AppIsNoName(prefix: string, org: string, name: string)
    requires '/' !in name
    ensures AppPath(prefix, org) != prefix + name
  {
    var i := |prefix| + |org|;
    assert AppPath(prefix, org)[i] == '/';
    if i < |prefix + name| {
      assert (prefix + name)[i] == name[|org|];
    }
  }

  /** A credential's path is that of no key the listing reads. */
  lemma CredentialIsUnread(prefix: string, org: string, f: string, key: Key)
    requires IsCredential(f) && Readable(key)
    ensures AppField(prefix, org, f) != PathOf(prefix, key)
  {
    if AppField(prefix, org, f) == PathOf(prefix, key) {
      if key.team == "" {
        AppIsNoName(prefix, org, key.org);
        LastSlash(AppPath(prefix, org), f, prefix + key.org, key.field);
      } else {
        LastSlash(AppPath(prefix, org), f, prefix + key.org + "/" + TEAMS + "/" + key.team, key.field);
      }
    }
  }

  /** Storing credentials changes the pointer, and no other text the listing reads. */
  lemma OnlyPointerMoves(prefix: string, p: Params, q: Params, org: string, key: Key)
    requires OnlyCredentials(prefix, p, q, org) && Readable(key) && key != Key(org, "", CONSOLE_APP)
    ensures ValueAt(prefix, p, key) == ValueAt(prefix, q, key)
  {
    var full := PathOf(prefix, key);
    ScalarNames(CONSOLE_APP);
    ScalarPathIs(prefix, org, CONSOLE_APP, key);
    forall f | IsCredential(f) ensures full != AppField(prefix, org, f) {
      CredentialIsUnread(prefix, org, f, key);
    }
    assert SameAt(p, q, full);
  }

  /** Storing credentials changes nothing listed of another organization, and of their
      own only where it points. */
  lemma CredentialsAreInert(prefix: string, p: Params, q: Params, org: string, other: string)
    requires prefix != "" && IsSegment(other) && OnlyCredentials(prefix, p, q, org)
    ensures other != org ==> ReadOrg(prefix, q, other) == ReadOrg(prefix, p, other)
    ensures var before, after, pointer := ReadOrg(prefix, p, other), ReadOrg(prefix, q, other), Key(other, "", CONSOLE_APP);
      && TeamsAt(prefix, q, other) == TeamsAt(prefix, p, other)
      && (after.Some? <==> ValueAt(prefix, q, pointer) != "" && TeamsAt(prefix, p, other) != map[])
      && (before.Some? && after.Some? ==> after.value == before.value.(consoleAppSSM := ValueAt(prefix, q, pointer)))
  {
    FieldNames();
    forall key | Readable(key) && key.org == other && key != Key(org, "", CONSOLE_APP)
      ensures ValueAt(prefix, p, key) == ValueAt(prefix, q, key)
    {
      OnlyPointerMoves(prefix, p, q, org, key);
    }
    SameTeamTexts(prefix, p, q, other);
    forall f | IsSegment(f) && f != CONSOLE_APP ensures ValueAt(prefix, p, Key(other, "", f)) == ValueAt(prefix, q, Key(other, "", f)) {
      assert Readable(Key(other, "", f));
    }
    if other != org {
      ReadDependsOnTexts(prefix, p, q, other);
    }
  }
}
