/** The liveness index: one record of directory accounts per display name, reached
    by name or by address (pkg/roster/roster.go, livenessIndexes and
    resolveLiveness). The records live on the heap and are shared between the
    two indexes; each is tied to a value computed from the snapshots alone. */
module Liveness {
  import opened Text
  import opened Indexing
  import opened OrgState
  import opened Config
  import opened Directory
  import opened Mapping

  datatype Inputs = Inputs(
    config: Config,
    snapshots: seq<Snapshot>,
    entries: seq<Entry>,
    orgs: map<string, State>)

  datatype Identity = Identity(email: string, live: bool)

  /** The value of one record. */
  datatype Record = Record(
    live: bool,
    syncedLive: bool,
    hasSynced: bool,
    email: string,
    emailLive: bool,
    sources: seq<string>,
    directories: map<string, Identity>,
    groups: set<string>)

  const BLANK := Record(false, false, false, "", false, [], map[], {})

  // ----- domains and groups -----

  function DomainKey(d: Domain): string { Lower(d.name) }

  function Domains(sources: seq<Source>): seq<Domain> {
    if sources == [] then [] else Domains(sources[..|sources| - 1]) + sources[|sources| - 1].domains
  }

  /** A domain takes part unless the last configuration of it says otherwise. */
  predicate Syncs(config: Config, domain: string) {
    var known := IndexBy(Domains(config.sources), DomainKey);
    Lower(domain) in known ==> known[Lower(domain)].syncs
  }

  predicate ListsAddress(members: seq<string>, address: string) {
    exists m :: m in members && Lower(m) == address
  }

  /** The folded groups that list an address, in any snapshot. */
  function MemberOf(snapshots: seq<Snapshot>, address: string): set<string> {
    set s, g | s in snapshots && g in s.groups && ListsAddress(s.groups[g], address) :: Lower(g)
  }

  // ----- folding accounts into records -----

  datatype Account = Account(source: string, user: User)

  function AccountsOf(s: Snapshot): seq<Account> {
    seq(|s.users|, i requires 0 <= i < |s.users| => Account(s.source, s.users[i]))
  }

  /** Every account, in the order the snapshots list them. */
  function Accounts(snapshots: seq<Snapshot>): seq<Account> {
    if snapshots == [] then []
    else Accounts(snapshots[..|snapshots| - 1]) + AccountsOf(snapshots[|snapshots| - 1])
  }

  function AppendUnique(list: seq<string>, value: string): seq<string> {
    if value in list then list else list + [value]
  }

  /** The synced groups a live account brings. */
  function GroupsBrought(inp: Inputs, user: User): set<string> {
    if user.live then set g | g in MemberOf(inp.snapshots, Lower(user.email)) && Syncs(inp.config, EmailDomain(g))
    else {}
  }

  function Absorb(inp: Inputs, r: Record, a: Account): Record {
    var u, synced := a.user, Syncs(inp.config, EmailDomain(a.user.email));
    var takeEmail := r.email == "" || (u.live && !r.emailLive);
    Record(
      r.live || u.live,
      r.syncedLive || (synced && u.live),
      r.hasSynced || synced,
      if takeEmail then u.email else r.email,
      if takeEmail then u.live else r.emailLive,
      AppendUnique(r.sources, a.source),
      r.directories[a.source := Identity(u.email, u.live)],
      r.groups + GroupsBrought(inp, u))
  }

  /** One account joins its name's record; a nameless account joins nobody. */
  function RecordsWith(inp: Inputs, records: map<string, Record>, a: Account): map<string, Record> {
    if a.user.name == "" then records
    else records[a.user.name := Absorb(inp, if a.user.name in records then records[a.user.name] else BLANK, a)]
  }

  /** The last account holding an address owns it. */
  function OwnersWith(owners: map<string, string>, a: Account): map<string, string> {
    if a.user.name == "" || a.user.email == "" then owners else owners[Lower(a.user.email) := a.user.name]
  }

  /** The record of each display name over some accounts. */
  function Records(inp: Inputs, accounts: seq<Account>): map<string, Record> {
    if accounts == [] then map[]
    else RecordsWith(inp, Records(inp, accounts[..|accounts| - 1]), accounts[|accounts| - 1])
  }

  /** Which display name each folded address leads to. */
  function Owners(accounts: seq<Account>): map<string, string> {
    if accounts == [] then map[]
    else OwnersWith(Owners(accounts[..|accounts| - 1]), accounts[|accounts| - 1])
  }

  lemma RecordsStep(inp: Inputs, accounts: seq<Account>, a: Account)
    ensures Records(inp, accounts + [a]) == RecordsWith(inp, Records(inp, accounts), a)
    ensures Owners(accounts + [a]) == OwnersWith(Owners(accounts), a)
  {
    assert (accounts + [a])[..|accounts|] == accounts;
  }

  // ----- the heap -----

  class Live {
    const name: string
    var live: bool
    var syncedLive: bool
    var hasSynced: bool
    var email: string
    var emailLive: bool
    var sources: seq<string>
    var directories: map<string, Identity>
    var groups: set<string>

    function Value(): Record
      reads this
    {
      Record(live, syncedLive, hasSynced, email, emailLive, sources, directories, groups)
    }

    constructor (name: string)
      ensures this.name == name && Value() == BLANK
    {
      this.name := name;
      live, syncedLive, hasSynced, email, emailLive := false, false, false, "", false;
      sources, directories, groups := [], map[], {};
    }

    /** Folds one account of this person in. */
    method Fold(inp: Inputs, synced: map<string, bool>, memberOf: map<string, set<string>>, source: string, user: User)
      requires SyncMap(inp.config, synced) && GroupMap(inp.snapshots, memberOf)
      modifies this
      ensures Value() == Absorb(inp, old(Value()), Account(source, user))
    {
      live := live || user.live;
      sources := AppendUnique(sources, source);
      directories := directories[source := Identity(user.email, user.live)];
      if SyncsBy(synced, EmailDomain(user.email)) {
        hasSynced := true;
        syncedLive := syncedLive || user.live;
      }
      if email == "" || (user.live && !emailLive) {
        email := user.email;
        emailLive := user.live;
      }
      AddGroups(inp, synced, memberOf, user);
    }

    /** Adds another record of the same person. */
    method MergeFrom(l: Live)
      requires l != this
      modifies this
      ensures Value() == Merge(old(Value()), l.Value())
    {
      live := live || l.live;
      syncedLive := syncedLive || l.syncedLive;
      hasSynced := hasSynced || l.hasSynced;
      sources := sources + l.sources;
      directories := directories + l.directories;
      groups := groups + l.groups;
      if email == "" || (l.emailLive && !emailLive) {
        email := l.email;
        emailLive := l.emailLive;
      }
    }

    /** A live account's synced groups count, in arbitrary order. */
    method AddGroups(inp: Inputs, synced: map<string, bool>, memberOf: map<string, set<string>>, user: User)
      requires SyncMap(inp.config, synced) && GroupMap(inp.snapshots, memberOf)
      modifies this`groups
      ensures groups == old(groups) + GroupsBrought(inp, user)
    {
      if !user.live {
        return;
      }
      var listed := Lookup(memberOf, Lower(user.email));
      var todo := listed;
      while todo != {}
        invariant todo <= listed
        invariant forall g :: g in groups <==> g in old(groups) || (g in listed - todo && SyncsBy(synced, EmailDomain(g)))
      {
        var g :| g in todo;
        todo := todo - {g};
        if SyncsBy(synced, EmailDomain(g)) {
          groups := groups + {g};
        }
      }
      assert listed == MemberOf(inp.snapshots, Lower(user.email));
    }
  }

  /** The sync switch of each configured domain, as syncedDomains collects it. */
  ghost predicate SyncMap(config: Config, synced: map<string, bool>) {
    SyncMapOf(Domains(config.sources), synced)
  }

  ghost predicate SyncMapOf(domains: seq<Domain>, synced: map<string, bool>) {
    var known := IndexBy(domains, DomainKey);
    synced.Keys == known.Keys && forall k :: k in known ==> synced[k] == known[k].syncs
  }

  predicate SyncsBy(synced: map<string, bool>, domain: string) {
    Lower(domain) in synced ==> synced[Lower(domain)]
  }

  ghost predicate GroupMap(snapshots: seq<Snapshot>, memberOf: map<string, set<string>>) {
    forall e :: Lookup(memberOf, e) == MemberOf(snapshots, e)
  }

  method SyncedDomains(config: Config) returns (synced: map<string, bool>)
    ensures SyncMap(config, synced)
  {
    synced := map[];
    for i := 0 to |config.sources|
      invariant SyncMapOf(Domains(config.sources[..i]), synced)
    {
      synced := AddDomains(synced, Domains(config.sources[..i]), config.sources[i].domains);
      assert config.sources[..i + 1][..i] == config.sources[..i];
    }
    assert config.sources[..|config.sources|] == config.sources;
  }

  method AddDomains(start: map<string, bool>, ghost before: seq<Domain>, domains: seq<Domain>)
    returns (synced: map<string, bool>)
    requires SyncMapOf(before, start)
    ensures SyncMapOf(before + domains, synced)
  {
    synced := start;
    assert before + domains[..0] == before;
    for j := 0 to |domains|
      invariant SyncMapOf(before + domains[..j], synced)
    {
      assert before + domains[..j + 1] == before + domains[..j] + [domains[j]];
      IndexByAppend(before + domains[..j], DomainKey, domains[j]);
      synced := synced[Lower(domains[j].name) := domains[j].syncs];
    }
    assert before + domains[..|domains|] == before + domains;
  }

  /** g, folded, is a group that lists the address e in one of the snapshots. */
  ghost predicate Grouped(snapshots: seq<Snapshot>, e: string, g: string) {
    exists s, h :: s in snapshots && h in s.groups && Lower(h) == g && ListsAddress(s.groups[h], e)
  }

  function Lookup(memberOf: map<string, set<string>>, e: string): set<string> {
    if e in memberOf then memberOf[e] else {}
  }

  /** Inverts every group listing into one member-to-groups view. */
  method GroupsByMember(snapshots: seq<Snapshot>) returns (memberOf: map<string, set<string>>)
    ensures GroupMap(snapshots, memberOf)
  {
    memberOf := map[];
    for i := 0 to |snapshots|
      invariant forall e, g :: g in Lookup(memberOf, e) <==> Grouped(snapshots[..i], e, g)
    {
      memberOf := AddListings(memberOf, snapshots[..i], snapshots[i]);
      assert snapshots[..i + 1] == snapshots[..i] + [snapshots[i]];
    }
    assert snapshots[..|snapshots|] == snapshots;
    forall e ensures Lookup(memberOf, e) == MemberOf(snapshots, e) {
      assert forall g :: g in Lookup(memberOf, e) <==> g in MemberOf(snapshots, e);
    }
  }

  lemma ListsSnoc(members: seq<string>, m: string, e: string)
    ensures ListsAddress(members + [m], e) <==> ListsAddress(members, e) || Lower(m) == e
  {
    if Lower(m) == e {
      assert m in members + [m];
    }
    if ListsAddress(members, e) {
      var x :| x in members && Lower(x) == e;
      assert x in members + [m];
    }
  }

  /** Adds one snapshot's groups, in arbitrary order. */
  method AddListings(start: map<string, set<string>>, ghost before: seq<Snapshot>, snap: Snapshot)
    returns (memberOf: map<string, set<string>>)
    requires forall e, g :: g in Lookup(start, e) <==> Grouped(before, e, g)
    ensures forall e, g :: g in Lookup(memberOf, e) <==> Grouped(before + [snap], e, g)
  {
    memberOf := start;
    var todo := snap.groups.Keys;
    while todo != {}
      invariant todo <= snap.groups.Keys
      invariant forall e, g :: g in Lookup(memberOf, e) <==>
        (Grouped(before, e, g) || exists h :: h in snap.groups.Keys - todo && Lower(h) == g && ListsAddress(snap.groups[h], e))
    {
      var group :| group in todo;
      todo := todo - {group};
      ghost var current := memberOf;
      var members := snap.groups[group];
      for j := 0 to |members|
        invariant forall e, g :: g in Lookup(memberOf, e) <==>
          (g in Lookup(current, e) || (g == Lower(group) && ListsAddress(members[..j], e)))
      {
        assert members[..j + 1] == members[..j] + [members[j]];
        var email := Lower(members[j]);
        ghost var last := memberOf;
        memberOf := memberOf[email := Lookup(memberOf, email) + {Lower(group)}];
        forall e, g
          ensures g in Lookup(memberOf, e) <==>
            (g in Lookup(current, e) || (g == Lower(group) && ListsAddress(members[..j + 1], e)))
        {
          ListsSnoc(members[..j], members[j], e);
          assert g in Lookup(memberOf, e) <==> g in Lookup(last, e) || (e == email && g == Lower(group));
        }
      }
      assert members[..|members|] == members;
    }
  }

  // ----- the two indexes -----

  /** The heap indexes hold exactly these records and owners, and an address
      shares the object its owner's name leads to. */
  ghost predicate Holds(records: map<string, Record>, owners: map<string, string>,
                        byName: map<string, Live>, byEmail: map<string, Live>)
    reads set n | n in byName :: byName[n]
  {
    && byName.Keys == records.Keys
    && (forall n :: n in byName ==> byName[n].name == n && byName[n].Value() == records[n])
    && byEmail.Keys == owners.Keys
    && (forall e :: e in byEmail ==> owners[e] in byName && byEmail[e] == byName[owners[e]])
  }

  ghost predicate Mirrors(inp: Inputs, accounts: seq<Account>, byName: map<string, Live>, byEmail: map<string, Live>)
    reads set n | n in byName :: byName[n]
  {
    Holds(Records(inp, accounts), Owners(accounts), byName, byEmail)
  }

  /** The record a name leads to, created on first sight, now also reached by its
      address. */
  method Place(ghost records: map<string, Record>, ghost owners: map<string, string>,
               byName: map<string, Live>, byEmail: map<string, Live>, a: Account)
    returns (l: Live, byName': map<string, Live>, byEmail': map<string, Live>)
    requires Holds(records, owners, byName, byEmail) && a.user.name != ""
    ensures Holds(records[a.user.name := l.Value()], OwnersWith(owners, a), byName', byEmail')
    ensures byName' == byName[a.user.name := l]
    ensures if a.user.name in byName then l == byName[a.user.name] else fresh(l)
    ensures l.Value() == if a.user.name in records then records[a.user.name] else BLANK
  {
    if a.user.name in byName {
      l := byName[a.user.name];
    } else {
      l := new Live(a.user.name);
    }
    byName' := byName[a.user.name := l];
    byEmail' := if a.user.email != "" then byEmail[Lower(a.user.email) := l] else byEmail;
  }

  lemma PlacedAbsorbs(inp: Inputs, records: map<string, Record>, a: Account, v: Record)
    requires a.user.name != "" && v == if a.user.name in records then records[a.user.name] else BLANK
    ensures var placed := records[a.user.name := v];
      placed[a.user.name := Absorb(inp, placed[a.user.name], a)] == RecordsWith(inp, records, a)
  {
  }

  /** Folds one account into the record its name leads to. */
  method FoldInto(inp: Inputs, ghost records: map<string, Record>, ghost owners: map<string, string>,
                  synced: map<string, bool>, memberOf: map<string, set<string>>,
                  ghost byName: map<string, Live>, ghost byEmail: map<string, Live>, l: Live, a: Account)
    requires SyncMap(inp.config, synced) && GroupMap(inp.snapshots, memberOf)
    requires Holds(records, owners, byName, byEmail)
    requires a.user.name in byName && byName[a.user.name] == l && a.user.name in records
    modifies l
    ensures Holds(records[a.user.name := Absorb(inp, records[a.user.name], a)], owners, byName, byEmail)
  {
    l.Fold(inp, synced, memberOf, a.source, a.user);
  }

  /** Folds one account into the indexes. */
  method FoldAccount(inp: Inputs, ghost records: map<string, Record>, ghost owners: map<string, string>,
                     synced: map<string, bool>, memberOf: map<string, set<string>>,
                     byName: map<string, Live>, byEmail: map<string, Live>, a: Account)
    returns (byName': map<string, Live>, byEmail': map<string, Live>)
    requires SyncMap(inp.config, synced) && GroupMap(inp.snapshots, memberOf)
    requires Holds(records, owners, byName, byEmail)
    modifies set n | n in byName :: byName[n]
    ensures Holds(RecordsWith(inp, records, a), OwnersWith(owners, a), byName', byEmail')
    ensures forall n :: n in byName' ==> (n in byName && byName'[n] == byName[n]) || fresh(byName'[n])
  {
    byName', byEmail' := byName, byEmail;
    if a.user.name == "" {
      return;
    }
    var l;
    l, byName', byEmail' := Place(records, owners, byName, byEmail, a);
    PlacedAbsorbs(inp, records, a, l.Value());
    FoldInto(inp, records[a.user.name := l.Value()], OwnersWith(owners, a), synced, memberOf, byName', byEmail', l, a);
  }

  lemma OneMoreAccount(before: seq<Account>, accounts: seq<Account>, j: nat)
    requires j < |accounts|
    ensures before + accounts[..j + 1] == before + accounts[..j] + [accounts[j]]
  {
  }

  /** Folds one snapshot's users, in listing order. */
  method FoldSnapshot(inp: Inputs, ghost before: seq<Account>, synced: map<string, bool>,
                      memberOf: map<string, set<string>>, byName: map<string, Live>, byEmail: map<string, Live>, snap: Snapshot)
    returns (byName': map<string, Live>, byEmail': map<string, Live>)
    requires SyncMap(inp.config, synced) && GroupMap(inp.snapshots, memberOf)
    requires Mirrors(inp, before, byName, byEmail)
    modifies set n | n in byName :: byName[n]
    ensures Mirrors(inp, before + AccountsOf(snap), byName', byEmail')
    ensures forall n :: n in byName' ==> (n in byName && byName'[n] == byName[n]) || fresh(byName'[n])
  {
    byName', byEmail' := byName, byEmail;
    assert before + AccountsOf(snap)[..0] == before;
    for j := 0 to |snap.users|
      invariant Mirrors(inp, before + AccountsOf(snap)[..j], byName', byEmail')
      invariant forall n :: n in byName' ==> (n in byName && byName'[n] == byName[n]) || fresh(byName'[n])
    {
      var a := Account(snap.source, snap.users[j]);
      ghost var accounts := before + AccountsOf(snap)[..j];
      byName', byEmail' :=
        FoldAccount(inp, Records(inp, accounts), Owners(accounts), synced, memberOf, byName', byEmail', a);
      OneMoreAccount(before, AccountsOf(snap), j);
      RecordsStep(inp, accounts, a);
    }
    assert AccountsOf(snap)[..|snap.users|] == AccountsOf(snap);
  }

  /** One view per person over every snapshot, by name and by address. */
  method LivenessIndexes(inp: Inputs) returns (byName: map<string, Live>, byEmail: map<string, Live>)
    ensures Mirrors(inp, Accounts(inp.snapshots), byName, byEmail)
    ensures forall n :: n in byName ==> fresh(byName[n])
  {
    var synced := SyncedDomains(inp.config);
    var memberOf := GroupsByMember(inp.snapshots);
    byName, byEmail := map[], map[];
    ghost var accounts: seq<Account> := [];
    for i := 0 to |inp.snapshots|
      invariant Mirrors(inp, accounts, byName, byEmail)
      invariant accounts == Accounts(inp.snapshots[..i])
      invariant forall n :: n in byName ==> fresh(byName[n])
    {
      byName, byEmail := FoldSnapshot(inp, accounts, synced, memberOf, byName, byEmail, inp.snapshots[i]);
      assert inp.snapshots[..i + 1][..i] == inp.snapshots[..i];
      accounts := accounts + AccountsOf(inp.snapshots[i]);
    }
    assert inp.snapshots[..|inp.snapshots|] == inp.snapshots;
  }

  // ----- one entry's record -----

  /** The names some addresses lead to, each once, first address first. */
  function NamesOf(emails: seq<string>, owners: map<string, string>): seq<string> {
    if emails == [] then []
    else
      var rest, e := NamesOf(emails[..|emails| - 1], owners), Lower(emails[|emails| - 1]);
      if e in owners then AppendUnique(rest, owners[e]) else rest
  }

  /** The directory spellings an entry accounts for: by address, then by name. */
  function Claims(entry: Entry, records: map<string, Record>, owners: map<string, string>): seq<string> {
    var names := NamesOf(entry.emails, owners);
    if entry.name in records then AppendUnique(names, entry.name) else names
  }

  function Merge(m: Record, l: Record): Record {
    var takeEmail := m.email == "" || (l.emailLive && !m.emailLive);
    Record(
      m.live || l.live,
      m.syncedLive || l.syncedLive,
      m.hasSynced || l.hasSynced,
      if takeEmail then l.email else m.email,
      if takeEmail then l.emailLive else m.emailLive,
      m.sources + l.sources,
      m.directories + l.directories,
      m.groups + l.groups)
  }

  function MergeAll(names: seq<string>, records: map<string, Record>): Record
    requires forall n :: n in names ==> n in records
  {
    if names == [] then BLANK
    else Merge(MergeAll(names[..|names| - 1], records), records[names[|names| - 1]])
  }

  /** One claimed record is taken as it is; several are merged. */
  function ResolveClaims(names: seq<string>, records: map<string, Record>): Option<Record>
    requires forall n :: n in names ==> n in records
  {
    if |names| == 0 then None
    else if |names| == 1 then Some(records[names[0]])
    else Some(MergeAll(names, records))
  }

  lemma {:induction false} NamesKnown(emails: seq<string>, inp: Inputs, accounts: seq<Account>)
    ensures forall n :: n in NamesOf(emails, Owners(accounts)) ==> n in Records(inp, accounts)
  {
    OwnersKnown(inp, accounts);
    if emails != [] {
      NamesKnown(emails[..|emails| - 1], inp, accounts);
    }
  }

  lemma {:induction false} OwnersKnown(inp: Inputs, accounts: seq<Account>)
    ensures forall e :: e in Owners(accounts) ==> Owners(accounts)[e] in Records(inp, accounts)
  {
    if accounts != [] {
      OwnersKnown(inp, accounts[..|accounts| - 1]);
    }
  }

  function Resolve(inp: Inputs, entry: Entry): Option<Record> {
    var accounts := Accounts(inp.snapshots);
    NamesKnown(entry.emails, inp, accounts);
    ResolveClaims(Claims(entry, Records(inp, accounts), Owners(accounts)), Records(inp, accounts))
  }

  /** records are the objects of the claimed names, each once. */
  ghost predicate Collected(byName: map<string, Live>, records: seq<Live>, claimed: seq<string>) {
    |records| == |claimed| && forall j :: 0 <= j < |claimed| ==> claimed[j] in byName && records[j] == byName[claimed[j]]
  }

  /** Collects the records an entry claims, skipping objects already seen. */
  method CollectRecords(ghost known: map<string, Record>, ghost owners: map<string, string>, entry: Entry,
                        byName: map<string, Live>, byEmail: map<string, Live>)
    returns (records: seq<Live>, claimed: seq<string>)
    requires Holds(known, owners, byName, byEmail)
    ensures Collected(byName, records, claimed)
    ensures claimed == Claims(entry, known, owners)
  {
    records, claimed := [], [];
    for i := 0 to |entry.emails|
      invariant claimed == NamesOf(entry.emails[..i], owners)
      invariant Collected(byName, records, claimed)
    {
      assert entry.emails[..i + 1][..i] == entry.emails[..i];
      var e := Lower(entry.emails[i]);
      if e in byEmail {
        assert byEmail[e].name == owners[e];
        if byEmail[e] !in records {
          records, claimed := records + [byEmail[e]], claimed + [byEmail[e].name];
        }
      }
    }
    assert entry.emails[..|entry.emails|] == entry.emails;
    if entry.name in byName && byName[entry.name] !in records {
      records, claimed := records + [byName[entry.name]], claimed + [entry.name];
    }
  }

  /** Several records of a person spanning directories become one new one. */
  method MergeRecords(name: string, records: seq<Live>, ghost claimed: seq<string>, ghost known: map<string, Record>)
    returns (merged: Live)
    requires |records| == |claimed|
    requires forall j :: 0 <= j < |claimed| ==> claimed[j] in known && records[j].Value() == known[claimed[j]]
    ensures fresh(merged) && merged.Value() == MergeAll(claimed, known)
  {
    merged := new Live(name);
    for i := 0 to |records|
      invariant merged.Value() == MergeAll(claimed[..i], known)
      invariant fresh(merged)
      invariant forall j :: 0 <= j < |claimed| ==> records[j].Value() == known[claimed[j]]
    {
      assert claimed[..i + 1][..i] == claimed[..i];
      merged.MergeFrom(records[i]);
    }
    assert claimed[..|claimed|] == claimed;
  }

  /** The record behind an entry: shared with the index when one name is claimed,
      merged when several are. */
  method ResolveLiveness(inp: Inputs, entry: Entry, byName: map<string, Live>, byEmail: map<string, Live>)
    returns (resolved: Live?, claimed: seq<string>)
    requires Mirrors(inp, Accounts(inp.snapshots), byName, byEmail)
    ensures claimed == Claims(entry, Records(inp, Accounts(inp.snapshots)), Owners(Accounts(inp.snapshots)))
    ensures (if resolved == null then None else Some(resolved.Value())) == Resolve(inp, entry)
  {
    ghost var accounts := Accounts(inp.snapshots);
    NamesKnown(entry.emails, inp, accounts);
    var records: seq<Live>;
    records, claimed := CollectRecords(Records(inp, accounts), Owners(accounts), entry, byName, byEmail);
    if |records| == 0 {
      resolved := null;
    } else if |records| == 1 {
      resolved := records[0];
    } else {
      resolved := MergeRecords(entry.name, records, claimed, Records(inp, Accounts(inp.snapshots)));
    }
  }
}
