/** What the roster shows of a person in one organization, said of directory accounts,
    the mapping and GitHub alone (pkg/roster/roster.go). */
module StandingMeaning {
  import opened Text
  import opened Strings
  import opened Indexing
  import opened OrgState
  import opened Config
  import opened Directory
  import opened Mapping
  import opened Liveness
  import opened LivenessMeaning
  import opened Roster
  import opened RenderSpec
  import opened Pipeline
  import PlanMeaning
  import RenderMeaning
  import Sorting

  // ----- domains -----

  /** Domain i is the last configured under the name, in any case. */
  ghost predicate LastNamed(domains: seq<Domain>, name: string, i: nat) {
    && i < |domains| && SameLetters(domains[i].name, name)
    && forall j :: i < j < |domains| ==> !SameLetters(domains[j].name, name)
  }

  lemma {:induction false} LastDomain(domains: seq<Domain>, name: string)
    ensures Lower(name) in IndexBy(domains, DomainKey) <==> exists i: nat :: LastNamed(domains, name, i)
    ensures forall i: nat :: LastNamed(domains, name, i) ==>
      Lower(name) in IndexBy(domains, DomainKey) && IndexBy(domains, DomainKey)[Lower(name)] == domains[i]
  {
    if domains != [] {
      var n := |domains| - 1;
      var rest, last := domains[..n], domains[n];
      LastDomain(rest, name);
      FoldsIff(last.name, name);
      if SameLetters(last.name, name) {
        assert LastNamed(domains, name, n);
        assert forall i: nat :: LastNamed(domains, name, i) ==> i == n;
      } else {
        forall i: nat ensures LastNamed(domains, name, i) <==> LastNamed(rest, name, i) {
          if LastNamed(rest, name, i) {
            assert forall j :: i < j < |domains| ==> domains[j] == (if j < n then rest[j] else last);
          }
        }
      }
    }
  }

  lemma OneLast(domains: seq<Domain>, name: string, i: nat, j: nat)
    requires LastNamed(domains, name, i) && LastNamed(domains, name, j)
    ensures i == j
  {
  }

  /** The last domain configured under the name, if any, takes part in sync. */
  ghost predicate SwitchedOn(domains: seq<Domain>, name: string) {
    forall i: nat :: LastNamed(domains, name, i) ==> domains[i].syncs
  }

  /** A domain takes part in sync unless the last configured under its name, in any
      case, is switched off. */
  lemma SyncsIff(config: Config, name: string)
    ensures Syncs(config, name) <==> SwitchedOn(Domains(config.sources), name)
  {
    var domains := Domains(config.sources);
    LastDomain(domains, name);
    if i: nat :| LastNamed(domains, name, i) {
      forall j: nat | LastNamed(domains, name, j) ensures j == i {
        OneLast(domains, name, i, j);
      }
    }
  }

  lemma {:induction false} DomainsAre(sources: seq<Source>, d: Domain)
    ensures d in Domains(sources) <==> exists s :: s in sources && d in s.domains
  {
    if sources != [] {
      DomainsAre(sources[..|sources| - 1], d);
      assert sources == sources[..|sources| - 1] + [sources[|sources| - 1]];
    }
  }

  /** The domain of an address is what follows its first '@'. */
  lemma EmailDomainIs(local: string, domain: string)
    requires '@' !in local
    ensures EmailDomain(local + "@" + domain) == domain
  {
    assert local + "@" + domain == local + ['@'] + domain;
    IndexOfFirst(local, domain, '@');
  }

  lemma NoDomain(email: string)
    requires '@' !in email
    ensures EmailDomain(email) == ""
  {
  }

  lemma {:induction false} SameFirstAt(a: string, b: string)
    requires SameLetters(a, b)
    ensures IndexOf(a, '@') == IndexOf(b, '@')
  {
    if a != "" {
      assert SameLetters(a[1..], b[1..]);
      SameFirstAt(a[1..], b[1..]);
      assert a[0] == '@' <==> b[0] == '@';
    }
  }

  lemma SameDomain(a: string, b: string)
    requires SameLetters(a, b)
    ensures SameLetters(EmailDomain(a), EmailDomain(b))
  {
    SameFirstAt(a, b);
  }

  lemma SyncsInAnyCase(config: Config, a: string, b: string)
    requires SameLetters(a, b)
    ensures Syncs(config, a) <==> Syncs(config, b)
  {
    FoldsIff(a, b);
  }

  // ----- declared sources -----

  /** The address is a name, an '@' and the domain, the '@' the first. */
  ghost predicate At(email: string, domain: string) {
    exists local :: email == local + "@" + domain && '@' !in local
  }

  lemma AtIff(email: string, domain: string)
    ensures At(email, domain) <==> '@' in email && EmailDomain(email) == domain
  {
    var i := IndexOf(email, '@');
    if '@' in email && EmailDomain(email) == domain {
      assert email == email[..i] + "@" + email[i + 1..];
    }
    if local :| email == local + "@" + domain && '@' !in local {
      EmailDomainIs(local, domain);
    }
  }

  /** A source of that name has a domain, in any case, that one of the addresses is at. */
  ghost predicate SourceFor(sources: seq<Source>, emails: seq<string>, name: string) {
    exists src, d, e, domain ::
      src in sources && src.name == name && d in src.domains && e in emails && At(e, domain) && SameLetters(d.name, domain)
  }

  lemma FoldedAt(email: string)
    ensures HasAt(Lower(email)) <==> '@' in email
    ensures SameLetters(EmailDomain(Lower(email)), EmailDomain(email))
  {
    FoldedIs(email);
    SameFirstAt(Lower(email), email);
    SameDomain(Lower(email), email);
  }

  lemma CoversIff(src: Source, email: string)
    ensures HasAt(Lower(email)) && Covers(src, EmailDomain(Lower(email))) <==>
      exists d, domain :: d in src.domains && At(email, domain) && SameLetters(d.name, domain)
  {
    FoldedAt(email);
    var folded, plain := EmailDomain(Lower(email)), EmailDomain(email);
    FoldsIff(folded, plain);
    forall d | d in src.domains ensures EqualFold(d.name, folded) <==> SameLetters(d.name, plain) {
      FoldsIff(d.name, plain);
    }
    AtIff(email, plain);
    if d, domain :| d in src.domains && At(email, domain) && SameLetters(d.name, domain) {
      AtIff(email, domain);
    }
  }

  /** The sources declared for somebody are those with a domain of their addresses. */
  lemma DeclaredIff(config: Config, emails: seq<string>, name: string)
    ensures name in SourcesFor(config, emails) <==> SourceFor(config.sources, emails, name)
  {
    SourcesForMeans(config, emails, name);
    forall src, e {
      CoversIff(src, e);
    }
    if Declared(config, emails, name) {
      var e :| e in emails && HasAt(Lower(e)) && SourceCovers(config.sources, EmailDomain(Lower(e)), name);
      var src :| src in config.sources && src.name == name && Covers(src, EmailDomain(Lower(e)));
    }
    if src, d, e, domain :|
        src in config.sources && src.name == name && d in src.domains && e in emails && At(e, domain) && SameLetters(d.name, domain) {
      assert Covers(src, EmailDomain(Lower(e)));
      assert SourceCovers(config.sources, EmailDomain(Lower(e)), name);
    }
  }

  // ----- groups -----

  /** Some snapshot's group of that name lists the address, in any case. */
  ghost predicate Lists(snapshots: seq<Snapshot>, group: string, email: string) {
    exists s, h, m :: s in snapshots && h in s.groups && m in s.groups[h] && SameLetters(h, group) && SameLetters(m, email)
  }

  lemma ListsIff(snapshots: seq<Snapshot>, group: string, email: string)
    ensures Lower(group) in MemberOf(snapshots, Lower(email)) <==> Lists(snapshots, group, email)
  {
    if Lower(group) in MemberOf(snapshots, Lower(email)) {
      var s, h :| s in snapshots && h in s.groups && ListsAddress(s.groups[h], Lower(email)) && Lower(h) == Lower(group);
      var m :| m in s.groups[h] && Lower(m) == Lower(email);
      FoldsIff(h, group);
      FoldsIff(m, email);
    }
    if s, h, m :| s in snapshots && h in s.groups && m in s.groups[h] && SameLetters(h, group) && SameLetters(m, email) {
      FoldsIff(h, group);
      FoldsIff(m, email);
      assert ListsAddress(s.groups[h], Lower(email));
    }
  }

  /** A live account the person reaches is listed by the group, in a domain that syncs. */
  ghost predicate GroupHolds(inp: Inputs, e: Entry, group: string) {
    && Syncs(inp.config, EmailDomain(group))
    && exists a :: a in Accounts(inp.snapshots) && ReachesName(inp, e, a.user.name) && a.user.live &&
         Lists(inp.snapshots, group, a.user.email)
  }

  lemma GroupIff(inp: Inputs, e: Entry, group: string)
    requires Resolve(inp, e).Some?
    ensures Lower(group) in Resolve(inp, e).value.groups <==> GroupHolds(inp, e, group)
  {
    ResolvedGroupsMean(inp, e, Lower(group));
    FoldedIs(group);
    SameDomain(Lower(group), group);
    SyncsInAnyCase(inp.config, EmailDomain(Lower(group)), EmailDomain(group));
    forall a | a in Accounts(inp.snapshots)
      ensures BringsGroup(inp, Lower(group))(a.user) <==>
        a.user.live && Lists(inp.snapshots, group, a.user.email) && Syncs(inp.config, EmailDomain(group))
    {
      ListsIff(inp.snapshots, group, a.user.email);
    }
  }

  // ----- addresses -----

  /** Account i, by which the person is known in some source, has the address. */
  ghost predicate KnownAt(inp: Inputs, e: Entry, address: string, i: nat) {
    && i < |Accounts(inp.snapshots)| && KnownBy(inp, e, Accounts(inp.snapshots)[i].source, i)
    && SameLetters(Accounts(inp.snapshots)[i].user.email, address)
  }

  /** The address is the person's: that of a live account they are known by; or one
      their entry lists and no account they are known by has. */
  ghost predicate Theirs(inp: Inputs, e: Entry, address: string) {
    || (exists i: nat :: KnownAt(inp, e, address, i) && Accounts(inp.snapshots)[i].user.live)
    || ((forall i: nat :: !KnownAt(inp, e, address, i)) && exists x :: x in e.emails && SameLetters(x, address))
  }

  lemma KnownSource(inp: Inputs, e: Entry, source: string, i: nat)
    requires KnownBy(inp, e, source, i)
    ensures Accounts(inp.snapshots)[i].source == source
  {
  }

  lemma IdentityWith(inp: Inputs, e: Entry, address: string, live: bool)
    requires Resolve(inp, e).Some?
    ensures var d := Resolve(inp, e).value.directories;
      (exists s :: s in d && EqualFold(d[s].email, address) && d[s].live == live) <==>
      exists i: nat :: KnownAt(inp, e, address, i) && Accounts(inp.snapshots)[i].user.live == live
  {
    var accounts, d := Accounts(inp.snapshots), Resolve(inp, e).value.directories;
    forall i: nat | KnownAt(inp, e, address, i) && accounts[i].user.live == live
      ensures exists s :: s in d && EqualFold(d[s].email, address) && d[s].live == live
    {
      ResolvedIdentity(inp, e, accounts[i].source);
      FoldsIff(accounts[i].user.email, address);
      assert d[accounts[i].source].live == live;
    }
    forall s | s in d && EqualFold(d[s].email, address) && d[s].live == live
      ensures exists i: nat :: KnownAt(inp, e, address, i) && accounts[i].user.live == live
    {
      ResolvedIdentity(inp, e, s);
      var i: nat :| KnownBy(inp, e, s, i);
      KnownSource(inp, e, s, i);
      FoldsIff(accounts[i].user.email, address);
      assert KnownAt(inp, e, address, i);
    }
  }

  lemma AddressIff(inp: Inputs, e: Entry, address: string)
    requires Resolve(inp, e).Some?
    ensures MatchesMember(address, e, Resolve(inp, e).value) <==> Theirs(inp, e, address)
  {
    IdentityWith(inp, e, address, true);
    IdentityWith(inp, e, address, false);
    ListedInAnyCase(e.emails, address);
    MatchesIs(address, e, Resolve(inp, e).value);
  }

  lemma ListedInAnyCase(list: seq<string>, value: string)
    ensures (exists x :: x in list && EqualFold(x, value)) <==> exists x :: x in list && SameLetters(x, value)
  {
    forall x {
      FoldsIff(x, value);
    }
  }

  lemma MatchesIs(address: string, e: Entry, l: Record)
    ensures MatchesMember(address, e, l) <==>
      || (exists s :: s in l.directories && EqualFold(l.directories[s].email, address) && l.directories[s].live == true)
      || (!(exists s :: s in l.directories && EqualFold(l.directories[s].email, address) && l.directories[s].live == false) &&
          exists x :: x in e.emails && EqualFold(x, address))
  {
  }

  // ----- teams -----

  lemma DesiredAre(inp: Inputs, org: Org, e: Entry, name: string)
    ensures name in StandingIn(inp, org, e).desiredTeams <==>
      name in org.teams && var l := Resolve(inp, e); Wants(org, e, l, GrantLive(inp.config, org, e, l, PersonLive(e, l)), name)
  {
    var l := Resolve(inp, e);
    var isLive := GrantLive(inp.config, org, e, l, PersonLive(e, l));
    Sorting.AscendingSound(set n | n in org.teams && Wants(org, e, l, isLive, n));
  }

  /** Who a team mapped to directories wants: somebody some directory knows, live here,
      who is in one of its groups or has one of its addresses. */
  lemma MappedTeamIff(inp: Inputs, org: Org, e: Entry, name: string)
    requires name in org.teams && !org.teams[name].pinned
    ensures name in StandingIn(inp, org, e).desiredTeams <==>
      && (e.class_ == CLASS_BOT || LiveHere(inp, org, e)) && Reached(inp, e, AnyUser())
      && ((exists g :: g in org.teams[name].groups && GroupHolds(inp, e, g)) ||
          exists m :: m in org.teams[name].members && Theirs(inp, e, m))
  {
    DesiredAre(inp, org, e, name);
    GrantLiveMeans(inp, org, e);
    ResolveMeans(inp, e);
    if Resolve(inp, e).Some? {
      forall g {
        GroupIff(inp, e, g);
      }
      forall m {
        AddressIff(inp, e, m);
      }
    }
  }

  /** Who a pinned team wants: whoever's entry names it, in any case. */
  lemma PinnedTeamIff(inp: Inputs, org: Org, e: Entry, name: string)
    requires name in org.teams && org.teams[name].pinned
    ensures name in StandingIn(inp, org, e).desiredTeams <==>
      exists p :: p in e.pinned && SameLetters(p, org.name + "/" + name)
  {
    DesiredAre(inp, org, e, name);
    ListedInAnyCase(e.pinned, org.name + "/" + name);
  }

  /** The managed teams shown are those the login sits in, in any case. */
  lemma SeatsShownIff(org: Org, state: State, login: string, name: string)
    ensures name in ManagedTeams(org, state, login) <==>
      name in state.teamMembers && name in org.teams && PlanMeaning.OnList(state.teamMembers[name], login)
  {
    ManagedMeans(org, state, login, name);
    if name in state.teamMembers {
      PlanMeaning.ListedIff(state.teamMembers[name], login);
      RenderMeaning.ByLowerKeys(state.teamMembers[name], Lower(login));
    }
  }

  // ----- the lifecycle -----

  lemma DisplayedIff(inp: Inputs, e: Entry)
    ensures PersonOf(inp, e).displayOnly <==> OnlyDisplayed(inp, e)
  {
    ResolveMeans(inp, e);
  }

  /** What the lifecycle shown is made of. */
  lemma ShownParts(inp: Inputs, rin: RenderInputs, e: Entry)
    requires Wired(inp, rin)
    ensures var m, invited := Shown(inp, rin, e), PlanMeaning.IsInvited(rin.state, e.github);
      && (m.member <==> PlanMeaning.IsMember(rin.state, e.github) || invited)
      && (m.invitationPending <==> invited)
      && (m.displayOnly <==> OnlyDisplayed(inp, e))
      && (!m.displayOnly ==> (m.live <==> e.class_ == CLASS_BOT || LiveHere(inp, rin.org, e)))
      && m.teams == ManagedTeams(rin.org, rin.state, e.github)
      && m.state == StateOf(m)
  {
    StandingOf(inp, rin, e);
    StandingFlags(inp, rin, e);
    PlanMeaning.CurrentIff(rin.state, e.github);
    PlanMeaning.InvitedIff(rin.state, e.github);
    DisplayedIff(inp, e);
    GrantLiveMeans(inp, rin.org, e);
  }

  /** The teams shown are the teams wanted. */
  ghost predicate InPlace(inp: Inputs, rin: RenderInputs, e: Entry)
    requires Wired(inp, rin)
  {
    forall name :: name in Shown(inp, rin, e).teams <==> name in Shown(inp, rin, e).desiredTeams
  }

  lemma InPlaceIff(inp: Inputs, rin: RenderInputs, e: Entry)
    requires Wired(inp, rin)
    ensures InPlace(inp, rin, e) <==> Shown(inp, rin, e).teams == Shown(inp, rin, e).desiredTeams
  {
    StandingOf(inp, rin, e);
    StandingFlags(inp, rin, e);
    var m, l := Shown(inp, rin, e), Resolve(inp, e);
    var isLive := GrantLive(inp.config, rin.org, e, l, PersonLive(e, l));
    Sorting.AscendingSound(set n | n in rin.org.teams && Wants(rin.org, e, l, isLive, n));
    Sorting.AscendingSound(set slug | slug in rin.state.teamMembers && slug in rin.org.teams &&
      Lower(e.github) in ByLower(rin.state.teamMembers[slug]));
    Sorting.LessIsStrictOrder();
    if InPlace(inp, rin, e) {
      Sorting.SortedListUnique(m.teams, m.desiredTeams, Less);
    }
  }

  /** Live here, as the home-company rule has it, or a bot. */
  ghost predicate Active(inp: Inputs, rin: RenderInputs, e: Entry) {
    e.class_ == CLASS_BOT || LiveHere(inp, rin.org, e)
  }

  /** The lifecycle, case by case: whom it shows as what. */
  lemma LifecycleIff(inp: Inputs, rin: RenderInputs, e: Entry)
    requires Wired(inp, rin)
    ensures var m, member, invited, displayed := Shown(inp, rin, e), PlanMeaning.IsMember(rin.state, e.github),
        PlanMeaning.IsInvited(rin.state, e.github), OnlyDisplayed(inp, e);
      && (m.state == StateDisplayOnly <==> displayed && (member || invited))
      && (m.state == StateInvited <==> !displayed && invited)
      && (m.state == StateLeaving <==> !displayed && !invited && member && !Active(inp, rin, e))
      && (m.state == StateSynced <==> !displayed && !invited && member && Active(inp, rin, e) && InPlace(inp, rin, e))
      && (m.state == StatePending <==>
           && !displayed && !invited && Active(inp, rin, e)
           && if member then !InPlace(inp, rin, e) else m.desiredTeams != [])
      && (m.state == StateNone <==> !member && !invited && (displayed || !Active(inp, rin, e) || m.desiredTeams == []))
  {
    ShownParts(inp, rin, e);
    InPlaceIff(inp, rin, e);
  }

  // ----- groups known to be absent -----

  /** Some snapshot reports the group absent, in any case. */
  ghost predicate ReportedAbsent(snapshots: seq<Snapshot>, group: string) {
    exists s, g :: s in snapshots && g in s.absentGroups && SameLetters(g, group)
  }

  lemma {:induction false} FoldAllAre(groups: seq<string>, group: string)
    ensures Lower(group) in FoldAll(groups) <==> exists g :: g in groups && SameLetters(g, group)
  {
    if groups != [] {
      var rest, last := groups[..|groups| - 1], groups[|groups| - 1];
      assert groups == rest + [last];
      FoldAllAre(rest, group);
      FoldsIff(last, group);
    }
  }

  lemma {:induction false} FoldedGroupsAre(snapshots: seq<Snapshot>, group: string)
    ensures Lower(group) in FoldedGroups(snapshots) <==> ReportedAbsent(snapshots, group)
  {
    if snapshots != [] {
      var rest, last := snapshots[..|snapshots| - 1], snapshots[|snapshots| - 1];
      assert snapshots == rest + [last];
      FoldedGroupsAre(rest, group);
      FoldAllAre(last.absentGroups, group);
    }
  }

  lemma AbsentIff(inp: Inputs, r: Roster, group: string)
    requires IsJoin(inp, r)
    ensures Lower(group) in r.absentGroups <==> ReportedAbsent(inp.snapshots, group)
  {
    Sorting.SortStringsElements(FoldedGroups(inp.snapshots));
    FoldedGroupsAre(inp.snapshots, group);
  }

  lemma {:induction false} FirstAbsentIs(groups: seq<string>, absent: seq<string>)
    ensures AbsentBacking(groups, absent) != "" <==>
      exists i :: 0 <= i < |groups| && groups[i] != "" && Lower(groups[i]) in absent && forall j :: 0 <= j < i ==> Lower(groups[j]) !in absent
  {
    if groups != [] {
      var rest := groups[1..];
      FirstAbsentIs(rest, absent);
      if Lower(groups[0]) !in absent {
        if i :| 0 <= i < |rest| && rest[i] != "" && Lower(rest[i]) in absent && forall j :: 0 <= j < i ==> Lower(rest[j]) !in absent {
          assert groups[i + 1] != "" && Lower(groups[i + 1]) in absent;
          assert forall j :: 0 <= j < i + 1 ==> groups[j] == if j == 0 then groups[0] else rest[j - 1];
        }
        if i :| 0 <= i < |groups| && groups[i] != "" && Lower(groups[i]) in absent && forall j :: 0 <= j < i ==> Lower(groups[j]) !in absent {
          assert rest[i - 1] == groups[i];
          assert forall j :: 0 <= j < i - 1 ==> rest[j] == groups[j + 1];
        }
      }
    }
  }

  /** A team keeps its residents exactly when pinned, or when, of its groups some
      snapshot reports absent, the first has a name. */
  lemma KeepsResidentsIff(inp: Inputs, rin: RenderInputs, name: string)
    requires Wired(inp, rin) && name in rin.org.teams
    ensures KeepsResidents(rin, name) <==>
      var team := rin.org.teams[name];
      || team.pinned
      || exists i :: 0 <= i < |team.groups| && team.groups[i] != "" && ReportedAbsent(inp.snapshots, team.groups[i]) &&
           forall j :: 0 <= j < i ==> !ReportedAbsent(inp.snapshots, team.groups[j])
  {
    var groups := rin.org.teams[name].groups;
    FirstAbsentIs(groups, rin.roster.absentGroups);
    forall g {
      AbsentIff(inp, rin.roster, g);
    }
  }
}
