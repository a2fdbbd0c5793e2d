/** The organization store as an object over a parameter store whose every write
    may fail (pkg/configstore/orgs.go). */
module OrgSsm {
  import opened Text
  import opened Indexing
  import opened Strings
  import opened Sorting
  import opened Config
  import opened OrgStore
  import opened Staging

  // ----- collecting parameters -----

  /** One organization's parameters, by field and by team. */
  datatype Collected = Collected(scalars: map<string, string>, teams: map<string, map<string, string>>)

  function Add(byName: map<string, Collected>, key: Key, value: string): map<string, Collected> {
    var c := if key.org in byName then byName[key.org] else Collected(map[], map[]);
    if key.team == "" then byName[key.org := c.(scalars := c.scalars[key.field := value])]
    else
      var fields := if key.team in c.teams then c.teams[key.team] else map[];
      byName[key.org := c.(teams := c.teams[key.team := fields[key.field := value]])]
  }

  function Lookup(byName: map<string, Collected>, key: Key): Option<string> {
    if key.org !in byName then None
    else if key.team == "" then
      if key.field in byName[key.org].scalars then Some(byName[key.org].scalars[key.field]) else None
    else if key.team !in byName[key.org].teams || key.field !in byName[key.org].teams[key.team] then None
    else Some(byName[key.org].teams[key.team][key.field])
  }

  lemma AddLookup(byName: map<string, Collected>, key: Key, value: string, k: Key)
    ensures Lookup(Add(byName, key, value), k) == if k == key then Some(value) else Lookup(byName, k)
  {
  }

  /** The values of the parameters that parse, by what they are about. */
  type Keyed = map<Key, string>

  /** keyed holds exactly the parameters of seen that parse. */
  ghost predicate KeyedFrom(prefix: string, params: Params, seen: set<string>, keyed: Keyed) {
    && (forall k :: k in keyed ==>
      ValidKey(k) && PathOf(prefix, k) in seen && PathOf(prefix, k) in params && keyed[k] == params[PathOf(prefix, k)])
    && (forall full :: full in seen && Parse(prefix, full).Some? ==> Parse(prefix, full).value in keyed)
  }

  /** byName holds exactly what keyed does. */
  ghost predicate Faithful(keyed: Keyed, byName: map<string, Collected>) {
    forall k :: Lookup(byName, k) == if k in keyed then Some(keyed[k]) else None
  }

  /** No team without a field, and no organization without either. */
  ghost predicate NoneHollow(keyed: Keyed, byName: map<string, Collected>) {
    && (forall n, t :: n in byName && t in byName[n].teams ==> t != "" && byName[n].teams[t] != map[])
    && (forall n :: n in byName ==> exists k :: k in keyed && k.org == n)
  }

  ghost predicate Holds(keyed: Keyed, byName: map<string, Collected>) {
    Faithful(keyed, byName) && NoneHollow(keyed, byName)
  }

  lemma AddFaithful(keyed: Keyed, byName: map<string, Collected>, key: Key, value: string)
    requires Faithful(keyed, byName)
    ensures Faithful(keyed[key := value], Add(byName, key, value))
  {
    forall k {
      AddLookup(byName, key, value, k);
    }
  }

  lemma AddNoneHollow(keyed: Keyed, byName: map<string, Collected>, key: Key, value: string)
    requires NoneHollow(keyed, byName)
    ensures NoneHollow(keyed[key := value], Add(byName, key, value))
  {
    var after := Add(byName, key, value);
    if key.team != "" {
      assert key.field in after[key.org].teams[key.team];
    }
    forall n | n in after ensures exists k :: k in keyed[key := value] && k.org == n {
      if n == key.org {
        assert key in keyed[key := value];
      } else {
        var k :| k in keyed && k.org == n;
        assert k in keyed[key := value];
      }
    }
  }

  lemma KeyedStep(prefix: string, params: Params, seen: set<string>, keyed: Keyed, full: string)
    requires KeyedFrom(prefix, params, seen, keyed) && full in params && Parse(prefix, full).Some?
    ensures KeyedFrom(prefix, params, seen + {full}, keyed[Parse(prefix, full).value := params[full]])
  {
    ParseInverse(prefix, full);
  }

  // ----- one organization from its parameters -----

  function FieldOf(fields: map<string, string>, field: string): string {
    if field in fields then fields[field] else ""
  }

  function TeamFrom(fields: map<string, string>): Team {
    Team(SplitList(FieldOf(fields, GROUPS)), SplitList(FieldOf(fields, MEMBERS)), false)
  }

  function Intent(collected: map<string, map<string, string>>): map<string, Team> {
    map t | t in collected && HasIntent(TeamFrom(collected[t])) :: TeamFrom(collected[t])
  }

  /** One organization from what was collected of it. */
  function OrgOf(name: string, c: Collected): (r: Option<Org>)
    ensures r.Some? ==> r.value.name == name
  {
    Formed(name, FieldOf(c.scalars, CONSOLE_APP), FieldOf(c.scalars, APPLIER_APP), FieldOf(c.scalars, PROVENANCE),
      FieldOf(c.scalars, EXCEPTIONS), FieldOf(c.scalars, MIN_ADMINS), Intent(c.teams))
  }

  /** What keyed says of one field. */
  function KeyedValue(keyed: Keyed, key: Key): string {
    if key in keyed then keyed[key] else ""
  }

  lemma KeyedReads(prefix: string, params: Params, keyed: Keyed, key: Key)
    requires prefix != "" && KeyedFrom(prefix, params, params.Keys, keyed) && ValidKey(key)
    ensures ValueAt(prefix, params, key) == KeyedValue(keyed, key)
  {
    ParseOf(prefix, key);
  }

  lemma KeyedTeams(prefix: string, params: Params, keyed: Keyed, org: string, t: string)
    requires prefix != "" && KeyedFrom(prefix, params, params.Keys, keyed)
    ensures t in TeamsIn(prefix, params, org) <==> t != "" && exists k :: k in keyed && k.org == org && k.team == t
  {
    if k :| k in keyed && k.org == org && k.team == t {
      ParseOf(prefix, k);
      assert PathOf(prefix, k) in params.Keys;
    }
  }

  /** A collected field is the keyed one. */
  lemma CollectedField(keyed: Keyed, byName: map<string, Collected>, name: string, field: string)
    requires Holds(keyed, byName) && name in byName
    ensures FieldOf(byName[name].scalars, field) == KeyedValue(keyed, Key(name, "", field))
  {
    assert Lookup(byName, Key(name, "", field)).Some? <==> field in byName[name].scalars;
  }

  lemma CollectedTeam(keyed: Keyed, byName: map<string, Collected>, name: string, t: string)
    requires Holds(keyed, byName) && name in byName
    ensures t in byName[name].teams <==> t != "" && exists k :: k in keyed && k.org == name && k.team == t
    ensures t in byName[name].teams ==>
      forall f :: FieldOf(byName[name].teams[t], f) == KeyedValue(keyed, Key(name, t, f))
  {
    if t in byName[name].teams {
      var f :| f in byName[name].teams[t];
      assert Lookup(byName, Key(name, t, f)).Some? && Key(name, t, f) in keyed;
      forall g ensures FieldOf(byName[name].teams[t], g) == KeyedValue(keyed, Key(name, t, g)) {
        assert Lookup(byName, Key(name, t, g)).Some? <==> g in byName[name].teams[t];
      }
    }
    if t != "" {
      if k :| k in keyed && k.org == name && k.team == t {
        assert Lookup(byName, k).Some?;
      }
    }
  }

  lemma CollectedTeamReads(prefix: string, params: Params, keyed: Keyed, byName: map<string, Collected>, name: string, t: string)
    requires prefix != "" && KeyedFrom(prefix, params, params.Keys, keyed) && Holds(keyed, byName)
    requires name in byName && IsSegment(name) && IsSegment(t) && t in byName[name].teams
    ensures TeamFrom(byName[name].teams[t]) == TeamAt(prefix, params, name, t)
  {
    FieldNames();
    CollectedTeam(keyed, byName, name, t);
    KeyedReads(prefix, params, keyed, Key(name, t, GROUPS));
    KeyedReads(prefix, params, keyed, Key(name, t, MEMBERS));
  }

  lemma TheseTeams(prefix: string, params: Params, name: string, collected: map<string, map<string, string>>)
    requires forall t :: t in collected <==> t in TeamsIn(prefix, params, name)
    requires forall t :: t in collected ==> TeamFrom(collected[t]) == TeamAt(prefix, params, name, t)
    ensures Intent(collected) == TeamsAt(prefix, params, name)
  {
  }

  /** The teams collected of an organization are the teams the store reads. */
  lemma CollectedTeams(prefix: string, params: Params, keyed: Keyed, byName: map<string, Collected>, name: string)
    requires prefix != "" && KeyedFrom(prefix, params, params.Keys, keyed) && Holds(keyed, byName) && name in byName && IsSegment(name)
    ensures Intent(byName[name].teams) == TeamsAt(prefix, params, name)
  {
    TeamsInAreSegments(prefix, params, name);
    var collected, teams := byName[name].teams, TeamsIn(prefix, params, name);
    forall t ensures t in collected <==> t in teams {
      CollectedTeam(keyed, byName, name, t);
      KeyedTeams(prefix, params, keyed, name, t);
    }
    forall t | t in collected ensures TeamFrom(collected[t]) == TeamAt(prefix, params, name, t) {
      CollectedTeamReads(prefix, params, keyed, byName, name, t);
    }
    TheseTeams(prefix, params, name, collected);
  }

  lemma CollectedOrg(prefix: string, params: Params, keyed: Keyed, byName: map<string, Collected>, name: string)
    requires prefix != "" && KeyedFrom(prefix, params, params.Keys, keyed) && Holds(keyed, byName) && name in byName
    ensures ReadOrg(prefix, params, name) == OrgOf(name, byName[name])
  {
    FieldNames();
    var k :| k in keyed && k.org == name;
    forall f | IsSegment(f) ensures FieldOf(byName[name].scalars, f) == ValueAt(prefix, params, Key(name, "", f)) {
      CollectedField(keyed, byName, name, f);
      KeyedReads(prefix, params, keyed, Key(name, "", f));
    }
    CollectedTeams(prefix, params, keyed, byName, name);
  }

  lemma CollectedNames(prefix: string, params: Params, keyed: Keyed, byName: map<string, Collected>)
    requires prefix != "" && KeyedFrom(prefix, params, params.Keys, keyed) && Holds(keyed, byName)
    ensures byName.Keys == OrgsIn(prefix, params)
  {
    forall n ensures n in byName <==> n in OrgsIn(prefix, params) {
      if n in byName {
        var k :| k in keyed && k.org == n;
        ParseOf(prefix, k);
        assert PathOf(prefix, k) in params;
      }
      if n in OrgsIn(prefix, params) {
        var full :| full in params && Parse(prefix, full).Some? && Parse(prefix, full).value.org == n;
        assert Lookup(byName, Parse(prefix, full).value).Some?;
      }
    }
  }

  /** The stored organizations with intent, by name. */
  ghost predicate Lists(prefix: string, params: Params, names: set<string>, orgs: seq<Org>) {
    && (forall o :: o in orgs ==> o.name in names && ReadOrg(prefix, params, o.name) == Some(o))
    && (forall n :: n in names && ReadOrg(prefix, params, n).Some? ==> ReadOrg(prefix, params, n).value in orgs)
  }

  /** The same, of readings taken beforehand. */
  ghost predicate ListsFrom(listed: map<string, Option<Org>>, names: set<string>, orgs: seq<Org>) {
    && (forall o :: o in orgs ==> o.name in names && o.name in listed && listed[o.name] == Some(o))
    && (forall n :: n in names && n in listed && listed[n].Some? ==> listed[n].value in orgs)
  }

  lemma NotListedYet(listed: map<string, Option<Org>>, seen: set<string>, orgs: seq<Org>, o: Org)
    requires ListsFrom(listed, seen, orgs) && o.name !in seen
    ensures forall x :: x in orgs ==> NameOrder()(x, o) || NameOrder()(o, x)
  {
    forall x | x in orgs ensures NameOrder()(x, o) || NameOrder()(o, x) {
      LessTotal(x.name, o.name);
    }
  }

  lemma ListsOneMore(listed: map<string, Option<Org>>, seen: set<string>, orgs: seq<Org>, name: string, out: seq<Org>)
    requires ListsFrom(listed, seen, orgs) && name in listed
    requires listed[name].Some? ==> listed[name].value.name == name
    requires forall x :: x in out <==> x in orgs || (listed[name].Some? && x == listed[name].value)
    ensures ListsFrom(listed, seen + {name}, out)
  {
  }

  function NameOrder(): (Org, Org) -> bool {
    (a: Org, b: Org) => Less(a.name, b.name)
  }

  ghost predicate ByName(orgs: seq<Org>) {
    StrictlySortedBy(orgs, NameOrder())
  }

  lemma NameOrderIsStrict()
    ensures StrictOrder(NameOrder())
  {
    LessIsStrictOrder();
  }

  // ----- writing -----

  const APP_ID := "github-app-id"
  const INSTALLATION_ID := "github-installation-id"
  const PRIVATE_KEY := "github-private-key"
  const CLIENT_ID := "github-client-id"
  const CLIENT_SECRET := "github-client-secret"
  const WEBHOOK_SECRET := "github-webhook-secret"

  datatype AppCredentials = AppCredentials(
    appID: int, installationID: int, privateKey: string, clientID: string, clientSecret: string, webhookSecret: string)

  datatype PutResult = Written | Refused | Failed

  function FormatInt(n: int): string {
    if n < 0 then "-" + Itoa(-n) else Itoa(n)
  }

  lemma TeamParamsStep(prefix: string, name: string, teams: map<string, Team>, names: seq<string>, i: nat, added: seq<Param>)
    requires i < |names| && forall t :: t in names ==> t in teams
    requires added == TeamWrites(prefix, name, names[i], teams[names[i]])
    ensures TeamParams(prefix, name, teams, names[..i + 1]) == TeamParams(prefix, name, teams, names[..i]) + added
  {
    assert names[..i + 1][..i] == names[..i];
  }

  class Store {
    const prefix: string
    var params: Params

    constructor (prefix: string, params: Params)
      ensures this.prefix == prefix && this.params == params
    {
      this.prefix, this.params := prefix, params;
    }

    /** A call may fail, with or without having taken effect. */
    method PutParam(name: string, value: string) returns (ok: bool)
      modifies this`params
      ensures params == old(params)[name := value] || (!ok && params == old(params))
    {
      ok := *;
      var lost: bool := *;
      if ok || !lost {
        params := params[name := value];
      }
    }

    method BuildScalars(org: Org) returns (writes: seq<Param>)
      ensures writes == ScalarParams(prefix, org)
    {
      var base := prefix + TrimSpace(org.name) + "/";
      writes := [Param(base + CONSOLE_APP, AppPath(prefix, TrimSpace(org.name)))];
      if org.minAdmins > 0 {
        writes := writes + [Param(base + MIN_ADMINS, Itoa(org.minAdmins))];
      }
      if |org.exceptions| > 0 {
        writes := writes + [Param(base + EXCEPTIONS, Join(org.exceptions, ','))];
      }
    }

    method BuildTeam(name: string, t: string, team: Team) returns (writes: seq<Param>)
      ensures writes == TeamWrites(prefix, name, t, team)
    {
      var base := prefix + name + "/" + TEAMS + "/" + TrimSpace(t) + "/";
      writes := [];
      if |team.groups| > 0 {
        writes := writes + [Param(base + GROUPS, Join(team.groups, ','))];
      }
      if |team.members| > 0 {
        writes := writes + [Param(base + MEMBERS, Join(team.members, ','))];
      }
    }

    method BuildTeams(name: string, teams: map<string, Team>, names: seq<string>) returns (writes: seq<Param>)
      requires forall t :: t in names ==> t in teams
      ensures writes == TeamParams(prefix, name, teams, names)
    {
      writes := [];
      for i := 0 to |names|
        invariant writes == TeamParams(prefix, name, teams, names[..i])
      {
        var added := BuildTeam(name, names[i], teams[names[i]]);
        TeamParamsStep(prefix, name, teams, names, i, added);
        writes := writes + added;
      }
      assert names[..|names|] == names;
    }

    /** The organization's parameters, teams in name order. */
    method BuildParams(org: Org) returns (writes: seq<Param>)
      ensures writes == OrgParams(prefix, org)
    {
      var scalars := BuildScalars(org);
      var names := SortedElements(org.teams.Keys);
      AscendingNames(org.teams);
      var teams := BuildTeams(TrimSpace(org.name), org.teams, names);
      writes := scalars + teams;
    }

    method AnyTeam(org: Org) returns (has: bool)
      ensures has <==> HasTeam(org)
    {
      has := false;
      var todo := org.teams.Keys;
      while todo != {} && !has
        invariant todo <= org.teams.Keys
        invariant has ==> HasTeam(org)
        invariant !has ==> forall t :: t in org.teams.Keys - todo ==> !HasIntent(org.teams[t])
        decreases |todo|
      {
        var t :| t in todo;
        todo := todo - {t};
        has := |org.teams[t].groups| > 0 || |org.teams[t].members| > 0;
      }
    }

    /** Writes one parameter after another, stopping at the first write that fails. */
    method WriteInOrder(writes: seq<Param>) returns (ok: bool)
      modifies this`params
      ensures ok ==> params == WriteAll(old(params), writes)
      ensures !ok ==> exists k :: 0 <= k <= |writes| && params == WriteAll(old(params), writes[..k])
    {
      for i := 0 to |writes|
        invariant params == WriteAll(old(params), writes[..i])
      {
        WriteSnoc(old(params), writes[..i], writes[i]);
        assert writes[..i + 1] == writes[..i] + [writes[i]];
        ok := PutParam(writes[i].name, writes[i].value);
        if !ok {
          return;
        }
      }
      ok := true;
      assert writes[..|writes|] == writes;
    }

    /** Stages an organization, or refuses one without a name or a team. */
    method PutOrg(org: Org) returns (r: PutResult)
      modifies this`params
      ensures r.Refused? <==> TrimSpace(org.name) == "" || !HasTeam(org)
      ensures r.Refused? ==> params == old(params)
      ensures r.Written? ==> params == WriteAll(old(params), OrgParams(prefix, org))
      ensures r.Failed? ==>
        exists k :: 0 <= k <= |OrgParams(prefix, org)| && params == WriteAll(old(params), OrgParams(prefix, org)[..k])
    {
      var has := AnyTeam(org);
      if TrimSpace(org.name) == "" || !has {
        return Refused;
      }
      var writes := BuildParams(org);
      var ok := WriteInOrder(writes);
      r := if ok then Written else Failed;
    }

    /** Writes credential fields in arbitrary order, stopping at a failure. */
    method PutFields(org: string, values: map<string, string>) returns (ok: bool)
      modifies this`params
      ensures OnlyFields(prefix, org, values.Keys, old(params), params)
      ensures ok ==> HoldsFields(prefix, org, values, values.Keys, params)
    {
      var todo := values.Keys;
      while todo != {}
        invariant todo <= values.Keys
        invariant OnlyFields(prefix, org, values.Keys, old(params), params)
        invariant HoldsFields(prefix, org, values, values.Keys - todo, params)
      {
        var f :| f in todo;
        ghost var before, seen := params, values.Keys - todo;
        todo := todo - {f};
        ok := PutParam(AppField(prefix, org, f), values[f]);
        FieldPut(prefix, org, values, seen, old(params), before, params, f);
        if !ok {
          return;
        }
        assert values.Keys - todo == seen + {f};
      }
      ok := true;
    }

    /** Stores an organization's credentials and points the organization at them. */
    method PutApp(org: string, creds: AppCredentials) returns (r: PutResult)
      modifies this`params
      ensures r.Refused? <==> org == "" || creds.appID == 0 || creds.privateKey == ""
      ensures r.Refused? ==> params == old(params)
      ensures OnlyCredentials(prefix, old(params), params, org)
      ensures OnlyGiven(prefix, old(params), params, org, Given(creds).Keys)
      ensures r.Written? ==>
        && ValueAt(prefix, params, Key(org, "", CONSOLE_APP)) == AppPath(prefix, org)
        && HoldsFields(prefix, org, Given(creds), Given(creds).Keys, params)
      ensures ValueAt(prefix, params, Key(org, "", CONSOLE_APP)) in
        {ValueAt(prefix, old(params), Key(org, "", CONSOLE_APP)), AppPath(prefix, org)}
    {
      if org == "" || creds.appID == 0 || creds.privateKey == "" {
        return Refused;
      }
      CredentialFields(creds);
      var ok := PutCredentials(org, Plain(creds), NonEmpty(Secret(creds)));
      GivenAreCredentials(prefix, org, Given(creds).Keys, old(params), params);
      r := if ok then Written else Failed;
    }

    method PutCredentials(org: string, plain: map<string, string>, secret: map<string, string>) returns (ok: bool)
      requires plain.Keys !! secret.Keys
      modifies this`params
      ensures OnlyGiven(prefix, old(params), params, org, (plain + secret).Keys)
      ensures ok ==> ValueAt(prefix, params, Key(org, "", CONSOLE_APP)) == AppPath(prefix, org)
      ensures ok ==> HoldsFields(prefix, org, plain + secret, (plain + secret).Keys, params)
      ensures ValueAt(prefix, params, Key(org, "", CONSOLE_APP)) in
        {ValueAt(prefix, old(params), Key(org, "", CONSOLE_APP)), AppPath(prefix, org)}
    {
      ok := PutFields(org, plain);
      ghost var first := params;
      FieldsKeepPointer(prefix, org, plain.Keys, old(params), params);
      FieldsAreGiven(prefix, org, plain.Keys, (plain + secret).Keys, old(params), params);
      if !ok {
        return;
      }
      ok := PutFields(org, secret);
      ghost var second := params;
      FieldsKeepPointer(prefix, org, secret.Keys, first, params);
      FieldsAreGiven(prefix, org, secret.Keys, (plain + secret).Keys, first, params);
      GivenTwice(prefix, org, (plain + secret).Keys, old(params), first, params);
      if !ok {
        return;
      }
      OtherFieldsStay(prefix, org, plain, secret.Keys, first, params);
      var pointer := prefix + org + "/" + CONSOLE_APP;
      ok := PutParam(pointer, AppPath(prefix, org));
      PointerPut(prefix, org, (plain + secret).Keys, second, params);
      PointerKeepsFields(prefix, org, plain, second, params);
      PointerKeepsFields(prefix, org, secret, second, params);
      GivenTwice(prefix, org, (plain + secret).Keys, old(params), second, params);
    }

    /** Gathers the parameters by organization, in arbitrary order. */
    method Collect() returns (byName: map<string, Collected>, ghost keyed: Keyed)
      ensures KeyedFrom(prefix, params, params.Keys, keyed) && Holds(keyed, byName)
    {
      byName, keyed := map[], map[];
      var todo := params.Keys;
      while todo != {}
        invariant todo <= params.Keys
        invariant KeyedFrom(prefix, params, params.Keys - todo, keyed)
        invariant Holds(keyed, byName)
      {
        var full :| full in todo;
        ghost var seen := params.Keys - todo;
        todo := todo - {full};
        assert params.Keys - todo == seen + {full};
        var key := Parse(prefix, full);
        if key.Some? {
          KeyedStep(prefix, params, seen, keyed, full);
          AddFaithful(keyed, byName, key.value, params[full]);
          AddNoneHollow(keyed, byName, key.value, params[full]);
          byName, keyed := Add(byName, key.value, params[full]), keyed[key.value := params[full]];
        }
      }
      assert params.Keys - todo == params.Keys;
    }

    /** Every fully formed organization, in name order. */
    method ListOrgs() returns (orgs: seq<Org>)
      requires prefix != ""
      ensures Lists(prefix, params, OrgsIn(prefix, params), orgs) && ByName(orgs)
    {
      var byName, keyed := Collect();
      orgs := ListAll(byName);
      CollectedLists(prefix, params, keyed, byName, orgs);
    }
  }

  // ----- credential fields -----

  function AppFields(prefix: string, org: string, fields: set<string>): set<string> {
    set f | f in fields :: AppField(prefix, org, f)
  }

  /** p and q differ at most in the fields of org named. */
  ghost predicate OnlyFields(prefix: string, org: string, fields: set<string>, p: Params, q: Params) {
    forall full :: full !in AppFields(prefix, org, fields) ==> SameAt(p, q, full)
  }

  /** The named fields of org hold these values. */
  ghost predicate HoldsFields(prefix: string, org: string, values: map<string, string>, fields: set<string>, params: Params)
    requires fields <= values.Keys
  {
    forall f :: f in fields ==> AppField(prefix, org, f) in params && params[AppField(prefix, org, f)] == values[f]
  }

  lemma FieldPut(prefix: string, org: string, values: map<string, string>, seen: set<string>, start: Params, before: Params,
                 after: Params, f: string)
    requires f in values && seen <= values.Keys && f !in seen
    requires OnlyFields(prefix, org, values.Keys, start, before) && HoldsFields(prefix, org, values, seen, before)
    requires after == before || after == before[AppField(prefix, org, f) := values[f]]
    ensures OnlyFields(prefix, org, values.Keys, start, after) && HoldsFields(prefix, org, values, seen, after)
    ensures after == before[AppField(prefix, org, f) := values[f]] ==> HoldsFields(prefix, org, values, seen + {f}, after)
  {
    assert AppField(prefix, org, f) in AppFields(prefix, org, values.Keys);
    forall full | full !in AppFields(prefix, org, values.Keys) ensures SameAt(start, after, full) {
      assert SameAt(start, before, full);
    }
    forall g | g in seen ensures AppField(prefix, org, g) != AppField(prefix, org, f) {
      if AppField(prefix, org, g) == AppField(prefix, org, f) {
        AppFieldInjective(prefix, org, f, g);
      }
    }
  }

  /** p and q differ at most in the fields of org named and its credential pointer. */
  ghost predicate OnlyGiven(prefix: string, p: Params, q: Params, org: string, fields: set<string>) {
    forall full :: !SameAt(p, q, full) ==> full == prefix + org + "/" + CONSOLE_APP || full in AppFields(prefix, org, fields)
  }

  lemma FieldsAreGiven(prefix: string, org: string, fields: set<string>, all: set<string>, p: Params, q: Params)
    requires OnlyFields(prefix, org, fields, p, q) && fields <= all
    ensures OnlyGiven(prefix, p, q, org, all)
  {
    forall full | !SameAt(p, q, full) ensures full in AppFields(prefix, org, all) {
      assert full in AppFields(prefix, org, fields);
    }
  }

  lemma GivenTwice(prefix: string, org: string, fields: set<string>, p: Params, q: Params, r: Params)
    requires OnlyGiven(prefix, p, q, org, fields) && OnlyGiven(prefix, q, r, org, fields)
    ensures OnlyGiven(prefix, p, r, org, fields)
  {
    forall full | !SameAt(p, r, full) ensures full == prefix + org + "/" + CONSOLE_APP || full in AppFields(prefix, org, fields) {
      assert !SameAt(p, q, full) || !SameAt(q, r, full);
    }
  }

  lemma GivenAreCredentials(prefix: string, org: string, fields: set<string>, p: Params, q: Params)
    requires OnlyGiven(prefix, p, q, org, fields) && forall f :: f in fields ==> IsCredential(f)
    ensures OnlyCredentials(prefix, p, q, org)
  {
  }

  lemma OtherFieldsStay(prefix: string, org: string, values: map<string, string>, fields: set<string>, p: Params, q: Params)
    requires OnlyFields(prefix, org, fields, p, q) && values.Keys !! fields && HoldsFields(prefix, org, values, values.Keys, p)
    ensures HoldsFields(prefix, org, values, values.Keys, q)
  {
    forall f | f in values ensures SameAt(p, q, AppField(prefix, org, f)) {
      forall g | g in fields ensures AppField(prefix, org, f) != AppField(prefix, org, g) {
        if AppField(prefix, org, f) == AppField(prefix, org, g) {
          AppFieldInjective(prefix, org, f, g);
        }
      }
      assert AppField(prefix, org, f) !in AppFields(prefix, org, fields);
    }
  }

  lemma FieldsKeepPointer(prefix: string, org: string, fields: set<string>, p: Params, q: Params)
    requires OnlyFields(prefix, org, fields, p, q)
    ensures ValueAt(prefix, q, Key(org, "", CONSOLE_APP)) == ValueAt(prefix, p, Key(org, "", CONSOLE_APP))
  {
    var pointer := PathOf(prefix, Key(org, "", CONSOLE_APP));
    forall f | f in fields ensures pointer != AppField(prefix, org, f) {
      PointerIsNoField(prefix, org, f);
    }
    assert pointer !in AppFields(prefix, org, fields);
    assert SameAt(p, q, pointer);
  }

  /** The pointer is put, or not. */
  ghost predicate PutsPointer(prefix: string, org: string, p: Params, q: Params) {
    q == p || q == p[prefix + org + "/" + CONSOLE_APP := AppPath(prefix, org)]
  }

  lemma PointerPut(prefix: string, org: string, fields: set<string>, p: Params, q: Params)
    requires PutsPointer(prefix, org, p, q)
    ensures OnlyGiven(prefix, p, q, org, fields)
    ensures var key := Key(org, "", CONSOLE_APP);
      && ValueAt(prefix, q, key) in {ValueAt(prefix, p, key), AppPath(prefix, org)}
      && (q == p[prefix + org + "/" + CONSOLE_APP := AppPath(prefix, org)] ==> ValueAt(prefix, q, key) == AppPath(prefix, org))
  {
    assert prefix + org + "/" + CONSOLE_APP == PathOf(prefix, Key(org, "", CONSOLE_APP));
  }

  lemma PointerKeepsFields(prefix: string, org: string, values: map<string, string>, p: Params, q: Params)
    requires PutsPointer(prefix, org, p, q) && HoldsFields(prefix, org, values, values.Keys, p)
    ensures HoldsFields(prefix, org, values, values.Keys, q)
  {
    var pointer := prefix + org + "/" + CONSOLE_APP;
    assert pointer == PathOf(prefix, Key(org, "", CONSOLE_APP));
    forall f | f in values ensures AppField(prefix, org, f) != pointer {
      PointerIsNoField(prefix, org, f);
    }
  }

  function Plain(creds: AppCredentials): map<string, string> {
    map[APP_ID := FormatInt(creds.appID), CLIENT_ID := creds.clientID] +
    if creds.installationID != 0 then map[INSTALLATION_ID := FormatInt(creds.installationID)] else map[]
  }

  function Secret(creds: AppCredentials): map<string, string> {
    map[PRIVATE_KEY := creds.privateKey, CLIENT_SECRET := creds.clientSecret, WEBHOOK_SECRET := creds.webhookSecret]
  }

  function NonEmpty(values: map<string, string>): map<string, string> {
    map f | f in values && values[f] != "" :: values[f]
  }

  /** The fields a put writes. */
  function Given(creds: AppCredentials): map<string, string> {
    Plain(creds) + NonEmpty(Secret(creds))
  }

  /** An identifier as its field holds it. */
  ghost predicate Holds64(given: map<string, string>, f: string, n: int) {
    f in given && (-MAX_INT <= n <= MAX_INT ==> Atoi(given[f]) == n)
  }

  lemma FormatIntReads(n: int)
    requires -MAX_INT <= n <= MAX_INT
    ensures Atoi(FormatInt(n)) == n
  {
    if n < 0 {
      ItoaDecimal(-n);
      NegativeReads(Itoa(-n));
    } else {
      ItoaDecimal(n);
    }
  }

  lemma NegativeReads(digits: string)
    requires Digits(digits) && Decimal(digits) <= MAX_INT
    ensures Atoi("-" + digits) == -Decimal(digits)
  {
    var s := "-" + digits;
    assert s[1..] == digits && s[0] == '-' && |s| > 1;
  }

  lemma FieldsApart()
    ensures NoDup([APP_ID, CLIENT_ID, INSTALLATION_ID, PRIVATE_KEY, CLIENT_SECRET, WEBHOOK_SECRET])
  {
    assert |APP_ID| == 13 && |CLIENT_ID| == 16 && |INSTALLATION_ID| == 22;
    assert |PRIVATE_KEY| == 18 && |CLIENT_SECRET| == 20 && |WEBHOOK_SECRET| == 21;
  }

  lemma PlainAre(creds: AppCredentials)
    ensures var plain := Plain(creds);
      && Holds64(plain, "github-app-id", creds.appID)
      && "github-client-id" in plain && plain["github-client-id"] == creds.clientID
      && ("github-installation-id" in plain <==> creds.installationID != 0)
      && (creds.installationID != 0 ==> Holds64(plain, "github-installation-id", creds.installationID))
      && plain.Keys <= {"github-app-id", "github-client-id", "github-installation-id"}
  {
    var names := [APP_ID, CLIENT_ID, INSTALLATION_ID, PRIVATE_KEY, CLIENT_SECRET, WEBHOOK_SECRET];
    FieldsApart();
    assert names[0] != names[1] && names[0] != names[2] && names[1] != names[2];
    if -MAX_INT <= creds.appID <= MAX_INT {
      FormatIntReads(creds.appID);
    }
    if -MAX_INT <= creds.installationID <= MAX_INT {
      FormatIntReads(creds.installationID);
    }
  }

  lemma SecretAre(creds: AppCredentials)
    ensures var secret := NonEmpty(Secret(creds));
      && HeldIfAny(secret, "github-private-key", creds.privateKey)
      && HeldIfAny(secret, "github-client-secret", creds.clientSecret)
      && HeldIfAny(secret, "github-webhook-secret", creds.webhookSecret)
      && secret.Keys <= {"github-private-key", "github-client-secret", "github-webhook-secret"}
  {
    var names := [APP_ID, CLIENT_ID, INSTALLATION_ID, PRIVATE_KEY, CLIENT_SECRET, WEBHOOK_SECRET];
    FieldsApart();
    assert names[3] != names[4] && names[3] != names[5] && names[4] != names[5];
  }

  /** What a put writes: the application's and client's identifiers, the installation's
      once there is one, and each secret there is; numbers as they read back. */
  lemma GivenAre(creds: AppCredentials)
    ensures var given := Given(creds);
      && Holds64(given, "github-app-id", creds.appID)
      && "github-client-id" in given && given["github-client-id"] == creds.clientID
      && ("github-installation-id" in given <==> creds.installationID != 0)
      && (creds.installationID != 0 ==> Holds64(given, "github-installation-id", creds.installationID))
      && HeldIfAny(given, "github-private-key", creds.privateKey)
      && HeldIfAny(given, "github-client-secret", creds.clientSecret)
      && HeldIfAny(given, "github-webhook-secret", creds.webhookSecret)
      && given.Keys <= {"github-app-id", "github-client-id", "github-installation-id", "github-private-key",
           "github-client-secret", "github-webhook-secret"}
  {
    PlainAre(creds);
    SecretAre(creds);
    CredentialFields(creds);
    Overlaid(Plain(creds), NonEmpty(Secret(creds)));
  }

  lemma Overlaid(a: map<string, string>, b: map<string, string>)
    requires a.Keys !! b.Keys
    ensures forall f :: f in a ==> f in a + b && f !in b && (a + b)[f] == a[f]
    ensures forall f :: f in b ==> f in a + b && f !in a && (a + b)[f] == b[f]
    ensures (a + b).Keys == a.Keys + b.Keys
  {
  }

  ghost predicate HeldIfAny(given: map<string, string>, f: string, value: string) {
    (f in given <==> value != "") && (f in given ==> given[f] == value)
  }

  lemma CredentialFields(creds: AppCredentials)
    ensures forall f :: f in Plain(creds) || f in Secret(creds) ==> IsCredential(f)
    ensures Plain(creds).Keys !! Secret(creds).Keys
  {
    CredentialNames();
    assert Plain(creds).Keys <= {APP_ID, CLIENT_ID, INSTALLATION_ID};
    assert Secret(creds).Keys == {PRIVATE_KEY, CLIENT_SECRET, WEBHOOK_SECRET};
  }

  lemma CredentialNames()
    ensures forall f :: f in {APP_ID, CLIENT_ID, INSTALLATION_ID, PRIVATE_KEY, CLIENT_SECRET, WEBHOOK_SECRET} ==> IsCredential(f)
    ensures {APP_ID, CLIENT_ID, INSTALLATION_ID} !! {PRIVATE_KEY, CLIENT_SECRET, WEBHOOK_SECRET}
  {
    assert |APP_ID| == 13 && |CLIENT_ID| == 16 && |INSTALLATION_ID| == 22;
    assert |PRIVATE_KEY| == 18 && |CLIENT_SECRET| == 20 && |WEBHOOK_SECRET| == 21;
    assert |GROUPS| == 6 && |MEMBERS| == 7;
  }

  /** The teams with intent, built in arbitrary order. */
  method TeamsFrom(collected: map<string, map<string, string>>) returns (teams: map<string, Team>)
    ensures teams == Intent(collected)
  {
    teams := map[];
    var todo := collected.Keys;
    while todo != {}
      invariant todo <= collected.Keys
      invariant forall t :: t in teams <==> t in collected.Keys - todo && HasIntent(TeamFrom(collected[t]))
      invariant forall t :: t in teams ==> teams[t] == TeamFrom(collected[t])
    {
      var t :| t in todo;
      todo := todo - {t};
      var groups := SplitList(FieldOf(collected[t], GROUPS));
      var members := SplitList(FieldOf(collected[t], MEMBERS));
      assert TeamFrom(collected[t]) == Team(groups, members, false);
      if |groups| == 0 && |members| == 0 {
        continue;
      }
      teams := teams[t := Team(groups, members, false)];
    }
  }

  /** Adds one organization to the listing, in its place, if it is fully formed. */
  method ListOne(ghost listed: map<string, Option<Org>>, ghost seen: set<string>, name: string, c: Collected, orgs: seq<Org>)
    returns (out: seq<Org>)
    requires name !in seen && name in listed && listed[name] == OrgOf(name, c)
    requires ListsFrom(listed, seen, orgs) && ByName(orgs)
    ensures ListsFrom(listed, seen + {name}, out) && ByName(out)
  {
    var org := OrgFrom(name, c);
    out := orgs;
    if org.Some? {
      NotListedYet(listed, seen, orgs, org.value);
      NameOrderIsStrict();
      out := InsertInOrder(orgs, org.value, NameOrder());
    }
    ListsOneMore(listed, seen, orgs, name, out);
  }

  function OrgsOf(byName: map<string, Collected>): map<string, Option<Org>> {
    map n | n in byName :: OrgOf(n, byName[n])
  }

  /** orgsFrom: the fully formed organizations, gathered in arbitrary order. */
  method ListAll(byName: map<string, Collected>) returns (orgs: seq<Org>)
    ensures ListsFrom(OrgsOf(byName), byName.Keys, orgs) && ByName(orgs)
  {
    orgs := [];
    ghost var listed := OrgsOf(byName);
    var todo := byName.Keys;
    while todo != {}
      invariant todo <= byName.Keys
      invariant ListsFrom(listed, byName.Keys - todo, orgs) && ByName(orgs)
    {
      var name :| name in todo;
      ghost var seen := byName.Keys - todo;
      todo := todo - {name};
      assert byName.Keys - todo == seen + {name};
      orgs := ListOne(listed, seen, name, byName[name], orgs);
    }
    assert byName.Keys - todo == byName.Keys;
  }

  /** orgsFrom for one organization. */
  method OrgFrom(name: string, c: Collected) returns (org: Option<Org>)
    ensures org == OrgOf(name, c)
  {
    var console := FieldOf(c.scalars, CONSOLE_APP);
    if console == "" {
      return None;
    }
    var teams := TeamsFrom(c.teams);
    if |teams| == 0 {
      return None;
    }
    var provenance := FieldOf(c.scalars, PROVENANCE);
    if provenance == "" {
      provenance := MANUAL;
    }
    org := Some(Org(name, "", provenance, console, FieldOf(c.scalars, APPLIER_APP), SplitList(FieldOf(c.scalars, EXCEPTIONS)),
      teams, Atoi(TrimSpace(FieldOf(c.scalars, MIN_ADMINS))), false));
  }

  /** The listing of what was collected is the listing of the store. */
  lemma CollectedLists(prefix: string, params: Params, keyed: Keyed, byName: map<string, Collected>, orgs: seq<Org>)
    requires prefix != "" && ListsFrom(OrgsOf(byName), byName.Keys, orgs)
    requires KeyedFrom(prefix, params, params.Keys, keyed) && Holds(keyed, byName)
    ensures Lists(prefix, params, OrgsIn(prefix, params), orgs)
  {
    CollectedNames(prefix, params, keyed, byName);
    var listed := OrgsOf(byName);
    forall n | n in byName ensures listed[n] == ReadOrg(prefix, params, n) {
      CollectedOrg(prefix, params, keyed, byName, n);
    }
  }

  lemma PointerIsNoField(prefix: string, org: string, f: string)
    ensures PathOf(prefix, Key(org, "", CONSOLE_APP)) != AppField(prefix, org, f)
  {
    var base := prefix + org + "/";
    assert PathOf(prefix, Key(org, "", CONSOLE_APP)) == base + CONSOLE_APP;
    assert AppField(prefix, org, f) == base + (APP + "/" + f);
    assert (base + CONSOLE_APP)[|base|] == 'c' && (base + (APP + "/" + f))[|base|] == 'a';
  }

  lemma AppFieldInjective(prefix: string, org: string, f: string, g: string)
    requires AppField(prefix, org, f) == AppField(prefix, org, g)
    ensures f == g
  {
    var base := AppPath(prefix, org) + "/";
    assert (base + f)[|base|..] == f && (base + g)[|base|..] == g;
  }

  // ----- stage, then list -----

  /** Whatever order the parameters arrive in, the listing is the same. */
  lemma ListingIsUnique(prefix: string, params: Params, p: seq<Org>, q: seq<Org>)
    requires Lists(prefix, params, OrgsIn(prefix, params), p) && ByName(p)
    requires Lists(prefix, params, OrgsIn(prefix, params), q) && ByName(q)
    ensures p == q
  {
    NameOrderIsStrict();
    SortedListUnique(p, q, NameOrder());
  }

  /** Staging an organization changes the listing by what it reads as, and nothing
      else. */
  lemma StagingChangesOne(prefix: string, params: Params, org: Org, before: seq<Org>, after: seq<Org>, o: Org)
    requires prefix != ""
    requires Lists(prefix, params, OrgsIn(prefix, params), before)
    requires var staged := WriteAll(params, OrgParams(prefix, org)); Lists(prefix, staged, OrgsIn(prefix, staged), after)
    ensures o in after <==>
      if o.name == StagedName(org) then ReadOrg(prefix, WriteAll(params, OrgParams(prefix, org)), StagedName(org)) == Some(o)
      else o in before
  {
    var staged := WriteAll(params, OrgParams(prefix, org));
    if IsSegment(StagedName(org)) {
      ReadIsPresent(prefix, staged, StagedName(org));
    } else {
      UnreadableName(prefix, staged, StagedName(org));
    }
    if o.name != StagedName(org) && IsSegment(o.name) {
      StagingLeavesOthers(prefix, params, org, o.name);
      ReadIsPresent(prefix, params, o.name);
      ReadIsPresent(prefix, staged, o.name);
    }
    NamesAreSegments(prefix, params);
    NamesAreSegments(prefix, staged);
  }

  lemma NothingListedUnder(prefix: string, params: Params, name: string)
    requires NothingUnder(prefix, params, name)
    ensures name !in OrgsIn(prefix, params)
  {
  }

  /** Staging an organization in a store that has nothing under its name adds the
      organization it reads back as to the listing, when it does, and nothing else. */
  lemma StagingAddsOne(prefix: string, params: Params, org: Org, before: seq<Org>, after: seq<Org>, o: Org)
    requires prefix != "" && NothingUnder(prefix, params, StagedName(org)) && org.minAdmins <= MAX_INT
    requires HasTeam(org) && Survives(org)
    requires Lists(prefix, params, OrgsIn(prefix, params), before)
    requires var staged := WriteAll(params, OrgParams(prefix, org)); Lists(prefix, staged, OrgsIn(prefix, staged), after)
    ensures o in after <==> o in before || ReadsBack(prefix, org, o)
  {
    StagingChangesOne(prefix, params, org, before, after, o);
    StagingRoundTrip(prefix, params, org);
    var read := ReadOrg(prefix, WriteAll(params, OrgParams(prefix, org)), StagedName(org));
    if ReadsBack(prefix, org, o) {
      ReadsBackUnique(prefix, org, o, read.value);
    }
    NothingListedUnder(prefix, params, StagedName(org));
  }

  lemma NamesAreSegments(prefix: string, params: Params)
    ensures forall n :: n in OrgsIn(prefix, params) ==> IsSegment(n)
  {
    forall full | full in params && Parse(prefix, full).Some? ensures IsSegment(Parse(prefix, full).value.org) {
      ParseInverse(prefix, full);
    }
  }

  /** An organization that reads as something has parameters of its own. */
  lemma ReadIsPresent(prefix: string, params: Params, name: string)
    requires prefix != "" && IsSegment(name)
    ensures ReadOrg(prefix, params, name).Some? ==> name in OrgsIn(prefix, params) && ReadOrg(prefix, params, name).value.name == name
  {
    FieldNames();
    ParseOf(prefix, Key(name, "", CONSOLE_APP));
  }
}
