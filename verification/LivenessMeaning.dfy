/** What the liveness index means, said of directory accounts alone. */
module LivenessMeaning {
  import opened Text
  import opened Config
  import opened Directory
  import opened Mapping
  import opened Liveness

  /** Some account of the display name n has the property p. */
  ghost predicate AnAccount(accounts: seq<Account>, n: string, p: User -> bool) {
    exists a :: a in accounts && a.user.name == n && p(a.user)
  }

  function AnyUser(): User -> bool { (u: User) => true }

  function LiveUser(): User -> bool { (u: User) => u.live }

  function SyncedUser(config: Config): User -> bool { (u: User) => Syncs(config, EmailDomain(u.email)) }

  function LiveSyncedUser(config: Config): User -> bool { (u: User) => u.live && Syncs(config, EmailDomain(u.email)) }

  /** A live account that the synced group g lists, in any snapshot. */
  function BringsGroup(inp: Inputs, g: string): User -> bool {
    (u: User) => u.live && g in MemberOf(inp.snapshots, Lower(u.email)) && Syncs(inp.config, EmailDomain(g))
  }

  lemma SomeSnoc(accounts: seq<Account>, a: Account, n: string, p: User -> bool)
    ensures AnAccount(accounts + [a], n, p) <==> AnAccount(accounts, n, p) || (a.user.name == n && p(a.user))
  {
    if a.user.name == n && p(a.user) {
      assert a in accounts + [a];
    }
    if AnAccount(accounts, n, p) {
      var b :| b in accounts && b.user.name == n && p(b.user);
      assert b in accounts + [a];
    }
  }

  /** What one account does to the flags of a record. */
  lemma FlagsOne(inp: Inputs, records: map<string, Record>, a: Account, n: string)
    requires n != ""
    ensures n in RecordsWith(inp, records, a) <==> n in records || a.user.name == n
    ensures n in RecordsWith(inp, records, a) ==>
      var after, here := RecordsWith(inp, records, a)[n], a.user.name == n;
      && (after.live <==> (n in records && records[n].live) || (here && a.user.live))
      && (after.hasSynced <==> (n in records && records[n].hasSynced) || (here && SyncedUser(inp.config)(a.user)))
      && (after.syncedLive <==> (n in records && records[n].syncedLive) || (here && LiveSyncedUser(inp.config)(a.user)))
  {
  }

  /** A name has a record when some account bears it, and the record's flags say
      whether some account of that name is live, synced, or both. */
  lemma {:induction false} RecordMeans(inp: Inputs, accounts: seq<Account>, n: string)
    requires n != ""
    ensures n in Records(inp, accounts) <==> AnAccount(accounts, n, AnyUser())
    ensures n in Records(inp, accounts) ==>
      var r := Records(inp, accounts)[n];
      && (r.live <==> AnAccount(accounts, n, LiveUser()))
      && (r.hasSynced <==> AnAccount(accounts, n, SyncedUser(inp.config)))
      && (r.syncedLive <==> AnAccount(accounts, n, LiveSyncedUser(inp.config)))
  {
    if accounts != [] {
      var rest, a := accounts[..|accounts| - 1], accounts[|accounts| - 1];
      assert accounts == rest + [a];
      RecordMeans(inp, rest, n);
      RecordsStep(inp, rest, a);
      FlagsOne(inp, Records(inp, rest), a, n);
      SomeSnoc(rest, a, n, AnyUser());
      SomeSnoc(rest, a, n, LiveUser());
      SomeSnoc(rest, a, n, SyncedUser(inp.config));
      SomeSnoc(rest, a, n, LiveSyncedUser(inp.config));
      if n !in Records(inp, rest) {
        NoneOf(rest, n, LiveUser());
        NoneOf(rest, n, SyncedUser(inp.config));
        NoneOf(rest, n, LiveSyncedUser(inp.config));
      }
    }
  }

  lemma NoneOf(accounts: seq<Account>, n: string, p: User -> bool)
    requires !AnAccount(accounts, n, AnyUser())
    ensures !AnAccount(accounts, n, p)
  {
  }

  lemma NamelessHasNoRecord(inp: Inputs, accounts: seq<Account>)
    ensures "" !in Records(inp, accounts)
  {
  }

  /** What one account does to the groups of a record. */
  lemma GroupsOne(inp: Inputs, records: map<string, Record>, a: Account, n: string, g: string)
    requires n in RecordsWith(inp, records, a)
    ensures g in RecordsWith(inp, records, a)[n].groups <==>
      (n in records && g in records[n].groups) || (a.user.name != "" && a.user.name == n && BringsGroup(inp, g)(a.user))
  {
  }

  /** What one account does to the identities of a record. */
  lemma DirectoriesOne(inp: Inputs, records: map<string, Record>, a: Account, n: string, source: string)
    requires n in RecordsWith(inp, records, a)
    ensures var after := RecordsWith(inp, records, a)[n].directories;
      if a.user.name != "" && a.user.name == n && a.source == source then
        source in after && after[source] == Identity(a.user.email, a.user.live)
      else
        (source in after <==> n in records && source in records[n].directories) &&
        (source in after ==> after[source] == records[n].directories[source])
  {
  }

  /** What one account does to the sources of a record. */
  lemma SourcesOne(inp: Inputs, records: map<string, Record>, a: Account, n: string, source: string)
    requires n in RecordsWith(inp, records, a)
    ensures source in RecordsWith(inp, records, a)[n].sources <==>
      (n in records && source in records[n].sources) || (a.user.name != "" && a.user.name == n && a.source == source)
  {
  }

  /** A record's groups are the synced groups of its live accounts. */
  lemma {:induction false} GroupsMean(inp: Inputs, accounts: seq<Account>, n: string, g: string)
    requires n in Records(inp, accounts)
    ensures g in Records(inp, accounts)[n].groups <==> AnAccount(accounts, n, BringsGroup(inp, g))
  {
    var rest, a := accounts[..|accounts| - 1], accounts[|accounts| - 1];
    assert accounts == rest + [a];
    NamelessHasNoRecord(inp, accounts);
    RecordsStep(inp, rest, a);
    SomeSnoc(rest, a, n, BringsGroup(inp, g));
    GroupsOne(inp, Records(inp, rest), a, n, g);
    if n in Records(inp, rest) {
      GroupsMean(inp, rest, n, g);
    } else {
      RecordMeans(inp, rest, n);
      NoneOf(rest, n, BringsGroup(inp, g));
    }
  }

  /** Account i is the last of the display name n in its source. */
  ghost predicate LastIn(accounts: seq<Account>, n: string, source: string, i: nat) {
    && i < |accounts| && accounts[i].user.name == n && accounts[i].source == source
    && forall j :: i < j < |accounts| ==> !(accounts[j].user.name == n && accounts[j].source == source)
  }

  lemma LastInSnoc(accounts: seq<Account>, a: Account, n: string, source: string, i: nat)
    ensures LastIn(accounts + [a], n, source, i) <==>
      if a.user.name == n && a.source == source then i == |accounts| else LastIn(accounts, n, source, i)
  {
    var longer := accounts + [a];
    assert longer[|accounts|] == a && forall j :: 0 <= j < |accounts| ==> longer[j] == accounts[j];
    if LastIn(accounts, n, source, i) && !(a.user.name == n && a.source == source) {
      assert forall j :: i < j < |longer| ==> longer[j] == (if j < |accounts| then accounts[j] else a);
    }
  }

  /** A record keeps, under each source, the last account of that name there. */
  lemma {:induction false} DirectoriesMean(inp: Inputs, accounts: seq<Account>, n: string, source: string)
    requires n in Records(inp, accounts)
    ensures source in Records(inp, accounts)[n].directories <==> exists i: nat :: LastIn(accounts, n, source, i)
    ensures forall i: nat :: LastIn(accounts, n, source, i) ==>
      source in Records(inp, accounts)[n].directories &&
      Records(inp, accounts)[n].directories[source] == Identity(accounts[i].user.email, accounts[i].user.live)
  {
    var rest, a := accounts[..|accounts| - 1], accounts[|accounts| - 1];
    assert accounts == rest + [a];
    NamelessHasNoRecord(inp, accounts);
    RecordsStep(inp, rest, a);
    DirectoriesOne(inp, Records(inp, rest), a, n, source);
    forall i: nat {
      LastInSnoc(rest, a, n, source, i);
    }
    if n in Records(inp, rest) {
      DirectoriesMean(inp, rest, n, source);
    } else {
      RecordMeans(inp, rest, n);
      forall i: nat ensures !LastIn(rest, n, source, i) {
        assert LastIn(rest, n, source, i) ==> AnAccount(rest, n, AnyUser());
      }
    }
    if a.user.name == n && a.source == source {
      assert LastIn(accounts, n, source, |rest|);
    }
  }

  /** A name has an account in a source exactly when it has a last one there. */
  lemma {:induction false} SomeHasLast(accounts: seq<Account>, n: string, source: string)
    ensures (exists a :: a in accounts && a.user.name == n && a.source == source) <==>
      exists i: nat :: LastIn(accounts, n, source, i)
  {
    if accounts != [] {
      var rest, a := accounts[..|accounts| - 1], accounts[|accounts| - 1];
      assert accounts == rest + [a];
      SomeHasLast(rest, n, source);
      forall i: nat {
        LastInSnoc(rest, a, n, source, i);
      }
      if a.user.name == n && a.source == source {
        assert LastIn(accounts, n, source, |rest|);
      }
    }
  }

  /** The sources of a record are the sources of the accounts of its name. */
  lemma {:induction false} SourcesMean(inp: Inputs, accounts: seq<Account>, n: string, source: string)
    requires n in Records(inp, accounts)
    ensures source in Records(inp, accounts)[n].sources <==> exists a :: a in accounts && a.user.name == n && a.source == source
  {
    var rest, a := accounts[..|accounts| - 1], accounts[|accounts| - 1];
    assert accounts == rest + [a];
    assert a in accounts;
    NamelessHasNoRecord(inp, accounts);
    RecordsStep(inp, rest, a);
    SourcesOne(inp, Records(inp, rest), a, n, source);
    if n in Records(inp, rest) {
      SourcesMean(inp, rest, n, source);
    } else {
      RecordMeans(inp, rest, n);
      forall b | b in rest ensures b.user.name != n {
        assert b.user.name == n ==> AnAccount(rest, n, AnyUser());
      }
    }
  }

  /** An address leads to the last account that holds it. */
  ghost predicate LastHolder(accounts: seq<Account>, e: string, i: nat) {
    && i < |accounts| && HeldBy(accounts[i], e)
    && forall j :: i < j < |accounts| ==> !HeldBy(accounts[j], e)
  }

  predicate HeldBy(a: Account, e: string) {
    a.user.name != "" && a.user.email != "" && Lower(a.user.email) == e
  }

  lemma {:induction false} OwnersMean(accounts: seq<Account>, e: string)
    ensures e in Owners(accounts) <==> exists i: nat :: LastHolder(accounts, e, i)
    ensures forall i: nat :: LastHolder(accounts, e, i) ==> e in Owners(accounts) && Owners(accounts)[e] == accounts[i].user.name
  {
    if accounts != [] {
      var n := |accounts| - 1;
      var rest, a := accounts[..n], accounts[n];
      OwnersMean(rest, e);
      if HeldBy(a, e) {
        assert LastHolder(accounts, e, n);
        assert forall i: nat :: LastHolder(accounts, e, i) ==> i == n;
      } else {
        forall i: nat ensures LastHolder(accounts, e, i) <==> LastHolder(rest, e, i) {
          if LastHolder(rest, e, i) {
            assert forall j :: i < j < |accounts| ==> accounts[j] == (if j < n then rest[j] else a);
          }
        }
      }
    }
  }

  // ----- one entry -----

  /** The entry accounts for the display name n: its own, or that of the last
      account holding one of its addresses. */
  ghost predicate ReachesName(inp: Inputs, entry: Entry, n: string) {
    n != "" &&
    (n == entry.name ||
     exists e, i: nat :: e in entry.emails && LastHolder(Accounts(inp.snapshots), Lower(e), i) &&
       Accounts(inp.snapshots)[i].user.name == n)
  }

  /** Some account the entry reaches has the property p. */
  ghost predicate Reached(inp: Inputs, entry: Entry, p: User -> bool) {
    exists a :: a in Accounts(inp.snapshots) && ReachesName(inp, entry, a.user.name) && p(a.user)
  }

  predicate LeadsTo(owners: map<string, string>, e: string, n: string) {
    Lower(e) in owners && owners[Lower(e)] == n
  }

  lemma {:induction false} NamesOfMeans(emails: seq<string>, owners: map<string, string>, n: string)
    ensures n in NamesOf(emails, owners) <==> exists e :: e in emails && LeadsTo(owners, e, n)
  {
    if emails != [] {
      var rest, last := emails[..|emails| - 1], emails[|emails| - 1];
      assert forall e :: e in emails <==> e in rest || e == last by { assert emails == rest + [last]; }
      NamesOfMeans(rest, owners, n);
      assert n in NamesOf(emails, owners) <==>
        n in NamesOf(rest, owners) || LeadsTo(owners, last, n);
      assert last in emails;
    }
  }

  lemma ClaimsMean(inp: Inputs, entry: Entry, n: string)
    ensures n in Claims(entry, Records(inp, Accounts(inp.snapshots)), Owners(Accounts(inp.snapshots))) <==>
      ReachesName(inp, entry, n) && n in Records(inp, Accounts(inp.snapshots))
  {
    var accounts := Accounts(inp.snapshots);
    var records, owners := Records(inp, accounts), Owners(accounts);
    NamesOfMeans(entry.emails, owners, n);
    NamelessHasNoRecord(inp, accounts);
    OwnersKnown(inp, accounts);
    forall e | e in entry.emails
      ensures LeadsTo(owners, e, n) <==>
        exists i: nat :: LastHolder(accounts, Lower(e), i) && accounts[i].user.name == n
    {
      OwnersMean(accounts, Lower(e));
    }
  }

  lemma {:induction false} MergeAllMeans(names: seq<string>, records: map<string, Record>)
    requires forall n :: n in names ==> n in records
    ensures var m := MergeAll(names, records);
      && (m.live <==> exists n :: n in names && records[n].live)
      && (m.hasSynced <==> exists n :: n in names && records[n].hasSynced)
      && (m.syncedLive <==> exists n :: n in names && records[n].syncedLive)
  {
    if names != [] {
      var rest, last := names[..|names| - 1], names[|names| - 1];
      assert names == rest + [last];
      MergeAllMeans(rest, records);
    }
  }

  lemma {:induction false} MergeAllGroups(names: seq<string>, records: map<string, Record>, g: string)
    requires forall n :: n in names ==> n in records
    ensures g in MergeAll(names, records).groups <==> exists n :: n in names && g in records[n].groups
  {
    if names != [] {
      var rest, last := names[..|names| - 1], names[|names| - 1];
      assert names == rest + [last];
      MergeAllGroups(rest, records, g);
    }
  }

  lemma {:induction false} MergeAllSources(names: seq<string>, records: map<string, Record>, source: string)
    requires forall n :: n in names ==> n in records
    ensures source in MergeAll(names, records).sources <==> exists n :: n in names && source in records[n].sources
  {
    if names != [] {
      var rest, last := names[..|names| - 1], names[|names| - 1];
      assert names == rest + [last];
      MergeAllSources(rest, records, source);
    }
  }

  /** Of the claimed names that have an identity in a source, the last is at p. */
  ghost predicate LastWith(names: seq<string>, records: map<string, Record>, source: string, p: nat)
    requires forall n :: n in names ==> n in records
  {
    && p < |names| && source in records[names[p]].directories
    && forall q :: p < q < |names| ==> source !in records[names[q]].directories
  }

  /** Of several claimed records, the last with an identity in a source gives it. */
  lemma {:induction false} MergeAllDirectories(names: seq<string>, records: map<string, Record>, source: string)
    requires forall n :: n in names ==> n in records
    ensures source in MergeAll(names, records).directories <==> exists p: nat :: LastWith(names, records, source, p)
    ensures forall p: nat :: LastWith(names, records, source, p) ==>
      source in MergeAll(names, records).directories &&
      MergeAll(names, records).directories[source] == records[names[p]].directories[source]
  {
    if names != [] {
      var rest, last := names[..|names| - 1], names[|names| - 1];
      assert names == rest + [last];
      MergeAllDirectories(rest, records, source);
      if source in records[last].directories {
        assert LastWith(names, records, source, |rest|);
        assert forall p: nat :: LastWith(names, records, source, p) ==> p == |rest|;
      } else {
        forall p: nat ensures LastWith(names, records, source, p) <==> LastWith(rest, records, source, p) {
          assert forall q :: 0 <= q < |names| ==> names[q] == (if q < |rest| then rest[q] else last);
        }
      }
    }
  }

  /** A single claimed record reads the same taken as it is or merged alone. */
  lemma SingleIsMerged(names: seq<string>, records: map<string, Record>)
    requires |names| == 1 && names[0] in records
    ensures var m, r := MergeAll(names, records), records[names[0]];
      && m.live == r.live && m.hasSynced == r.hasSynced && m.syncedLive == r.syncedLive
      && m.groups == r.groups && m.directories == r.directories && m.sources == r.sources
  {
    assert names[..0] == [];
  }

  /** What holds of some claimed record holds of some reached account. */
  lemma ClaimedIffReached(inp: Inputs, entry: Entry, names: seq<string>, p: User -> bool)
    requires names == Claims(entry, Records(inp, Accounts(inp.snapshots)), Owners(Accounts(inp.snapshots)))
    ensures (exists n :: n in names && AnAccount(Accounts(inp.snapshots), n, p)) <==> Reached(inp, entry, p)
  {
    var accounts := Accounts(inp.snapshots);
    forall n ensures n in names <==> ReachesName(inp, entry, n) && n in Records(inp, accounts) {
      ClaimsMean(inp, entry, n);
    }
    forall a | a in accounts && ReachesName(inp, entry, a.user.name) ensures a.user.name in names {
      RecordMeans(inp, accounts, a.user.name);
      assert AnAccount(accounts, a.user.name, AnyUser());
    }
    if Reached(inp, entry, p) {
      var a :| a in accounts && ReachesName(inp, entry, a.user.name) && p(a.user);
      assert AnAccount(accounts, a.user.name, p);
    }
  }

  /** An entry resolves when it reaches an account, and what it resolves to is
      live, synced or both when some account it reaches is. */
  lemma ResolveMeans(inp: Inputs, entry: Entry)
    ensures Resolve(inp, entry).Some? <==> Reached(inp, entry, AnyUser())
    ensures Resolve(inp, entry).Some? ==>
      var r := Resolve(inp, entry).value;
      && (r.live <==> Reached(inp, entry, LiveUser()))
      && (r.hasSynced <==> Reached(inp, entry, SyncedUser(inp.config)))
      && (r.syncedLive <==> Reached(inp, entry, LiveSyncedUser(inp.config)))
  {
    var accounts := Accounts(inp.snapshots);
    var records := Records(inp, accounts);
    var names := Claims(entry, records, Owners(accounts));
    NamesKnown(entry.emails, inp, accounts);
    ClaimedIffReached(inp, entry, names, AnyUser());
    ClaimedIffReached(inp, entry, names, LiveUser());
    ClaimedIffReached(inp, entry, names, SyncedUser(inp.config));
    ClaimedIffReached(inp, entry, names, LiveSyncedUser(inp.config));
    NamelessHasNoRecord(inp, accounts);
    forall n | n in names
      ensures AnAccount(accounts, n, AnyUser())
      ensures records[n].live <==> AnAccount(accounts, n, LiveUser())
      ensures records[n].hasSynced <==> AnAccount(accounts, n, SyncedUser(inp.config))
      ensures records[n].syncedLive <==> AnAccount(accounts, n, LiveSyncedUser(inp.config))
    {
      RecordMeans(inp, accounts, n);
    }
    MergeAllMeans(names, records);
    if |names| == 1 {
      SingleIsMerged(names, records);
    }
    if |names| >= 1 {
      assert names[0] in names;
    }
  }

  /** The groups an entry resolves to are the synced groups, of any snapshot, that
      list the address of a live account it reaches. */
  lemma ResolvedGroupsMean(inp: Inputs, entry: Entry, g: string)
    requires Resolve(inp, entry).Some?
    ensures g in Resolve(inp, entry).value.groups <==> Reached(inp, entry, BringsGroup(inp, g))
  {
    var accounts := Accounts(inp.snapshots);
    var records := Records(inp, accounts);
    var names := Claims(entry, records, Owners(accounts));
    NamesKnown(entry.emails, inp, accounts);
    ClaimedIffReached(inp, entry, names, BringsGroup(inp, g));
    forall n | n in names ensures g in records[n].groups <==> AnAccount(accounts, n, BringsGroup(inp, g)) {
      GroupsMean(inp, accounts, n, g);
    }
    MergeAllGroups(names, records, g);
    if |names| == 1 {
      SingleIsMerged(names, records);
    }
  }

  // ----- which account is the identity kept -----

  /** The entry's r-th address leads to the display name n. */
  ghost predicate EmailLeads(inp: Inputs, entry: Entry, r: nat, n: string) {
    r < |entry.emails| && exists i: nat ::
      LastHolder(Accounts(inp.snapshots), Lower(entry.emails[r]), i) && Accounts(inp.snapshots)[i].user.name == n
  }

  /** Where the entry first claims the display name n: at an address, or else, after
      all of them, by its own name. */
  ghost predicate FirstClaim(inp: Inputs, entry: Entry, n: string, r: nat) {
    && n != ""
    && (if r < |entry.emails| then EmailLeads(inp, entry, r, n) else r == |entry.emails| && n == entry.name)
    && forall q: nat :: q < r ==> !EmailLeads(inp, entry, q, n)
  }

  /** The account an entry is known by in a source: of the names it claims that have
      an account there the last claimed, and of that name's accounts there the last. */
  ghost predicate KnownBy(inp: Inputs, entry: Entry, source: string, i: nat) {
    var accounts := Accounts(inp.snapshots);
    && i < |accounts| && LastIn(accounts, accounts[i].user.name, source, i)
    && exists r: nat :: FirstClaim(inp, entry, accounts[i].user.name, r) && NoneClaimedAfter(inp, entry, source, r)
  }

  /** No name claimed after r has an account in the source. */
  ghost predicate NoneClaimedAfter(inp: Inputs, entry: Entry, source: string, r: nat) {
    forall a, q: nat :: a in Accounts(inp.snapshots) && a.source == source && FirstClaim(inp, entry, a.user.name, q) ==> q <= r
  }

  /** The first address of the list that leads to n. */
  ghost predicate FirstLead(emails: seq<string>, owners: map<string, string>, n: string, r: nat) {
    r < |emails| && LeadsTo(owners, emails[r], n) && forall q: nat :: q < r ==> !LeadsTo(owners, emails[q], n)
  }

  lemma {:induction false} HasFirstLead(emails: seq<string>, owners: map<string, string>, n: string)
    ensures n in NamesOf(emails, owners) <==> exists r: nat :: FirstLead(emails, owners, n, r)
  {
    if emails != [] {
      var rest, last := emails[..|emails| - 1], emails[|emails| - 1];
      assert emails == rest + [last];
      HasFirstLead(rest, owners, n);
      if n in NamesOf(rest, owners) {
        var r: nat :| FirstLead(rest, owners, n, r);
        assert FirstLead(emails, owners, n, r);
      } else {
        LeadsAtLast(emails, owners, n);
        assert FirstLead(emails, owners, n, |rest|) <==> LeadsTo(owners, last, n);
      }
    }
  }

  lemma LeadsAtLast(emails: seq<string>, owners: map<string, string>, n: string)
    requires emails != [] && n !in NamesOf(emails[..|emails| - 1], owners)
    ensures forall r: nat :: FirstLead(emails, owners, n, r) <==> r == |emails| - 1 && LeadsTo(owners, emails[|emails| - 1], n)
  {
    var rest := emails[..|emails| - 1];
    NamesOfMeans(rest, owners, n);
    forall q: nat | q < |rest| ensures !LeadsTo(owners, emails[q], n) {
      assert rest[q] in rest;
    }
  }

  /** Names come in the order of their first addresses, each once. */
  lemma {:induction false} NamesInOrder(emails: seq<string>, owners: map<string, string>, p: nat, q: nat, r: nat, t: nat)
    requires p < q < |NamesOf(emails, owners)|
    requires FirstLead(emails, owners, NamesOf(emails, owners)[p], r) && FirstLead(emails, owners, NamesOf(emails, owners)[q], t)
    ensures r < t
  {
    var rest := emails[..|emails| - 1];
    var before, after := NamesOf(rest, owners), NamesOf(emails, owners);
    assert before[p] == after[p] && before[p] in before;
    HasFirstLead(rest, owners, after[p]);
    var r': nat :| FirstLead(rest, owners, after[p], r');
    assert FirstLead(emails, owners, after[p], r') && r == r';
    if q < |before| {
      assert before[q] in before;
      HasFirstLead(rest, owners, after[q]);
      var t': nat :| FirstLead(rest, owners, after[q], t');
      assert FirstLead(emails, owners, after[q], t') && t == t';
      NamesInOrder(rest, owners, p, q, r, t);
    } else {
      HasFirstLead(rest, owners, after[q]);
      LeadsAtLast(emails, owners, after[q]);
    }
  }

  lemma LeadsAlike(inp: Inputs, entry: Entry, r: nat, n: string)
    requires r < |entry.emails|
    ensures LeadsTo(Owners(Accounts(inp.snapshots)), entry.emails[r], n) <==> EmailLeads(inp, entry, r, n)
  {
    OwnersMean(Accounts(inp.snapshots), Lower(entry.emails[r]));
  }

  function ClaimsOf(inp: Inputs, entry: Entry): seq<string> {
    Claims(entry, Records(inp, Accounts(inp.snapshots)), Owners(Accounts(inp.snapshots)))
  }

  /** A name claimed at an address is first claimed at its first address. */
  lemma FirstClaimIsLead(inp: Inputs, entry: Entry, n: string, r: nat)
    requires n in NamesOf(entry.emails, Owners(Accounts(inp.snapshots)))
    ensures n != ""
    ensures FirstClaim(inp, entry, n, r) <==> FirstLead(entry.emails, Owners(Accounts(inp.snapshots)), n, r)
  {
    var owners := Owners(Accounts(inp.snapshots));
    NamesKnown(entry.emails, inp, Accounts(inp.snapshots));
    NamelessHasNoRecord(inp, Accounts(inp.snapshots));
    HasFirstLead(entry.emails, owners, n);
    forall q: nat | q < |entry.emails| {
      LeadsAlike(inp, entry, q, n);
    }
  }

  /** A name claimed at no address is claimed after all of them, as the entry's own. */
  lemma FirstClaimIsName(inp: Inputs, entry: Entry, n: string, r: nat)
    requires n !in NamesOf(entry.emails, Owners(Accounts(inp.snapshots)))
    ensures FirstClaim(inp, entry, n, r) <==> n != "" && n == entry.name && r == |entry.emails|
  {
    var owners := Owners(Accounts(inp.snapshots));
    NamesOfMeans(entry.emails, owners, n);
    forall q: nat | q < |entry.emails| ensures !EmailLeads(inp, entry, q, n) {
      LeadsAlike(inp, entry, q, n);
      assert entry.emails[q] in entry.emails;
    }
  }

  lemma ClaimHasRank(inp: Inputs, entry: Entry, p: nat)
    requires p < |ClaimsOf(inp, entry)|
    ensures exists r: nat :: FirstClaim(inp, entry, ClaimsOf(inp, entry)[p], r)
  {
    var owners, n := Owners(Accounts(inp.snapshots)), ClaimsOf(inp, entry)[p];
    NamelessHasNoRecord(inp, Accounts(inp.snapshots));
    HasFirstLead(entry.emails, owners, n);
    if n in NamesOf(entry.emails, owners) {
      var r: nat :| FirstLead(entry.emails, owners, n, r);
      FirstClaimIsLead(inp, entry, n, r);
    } else {
      FirstClaimIsName(inp, entry, n, |entry.emails|);
    }
  }

  /** Claims come in the order they are first made. */
  lemma ClaimsInOrder(inp: Inputs, entry: Entry, p: nat, q: nat, r: nat, t: nat)
    requires p < q < |ClaimsOf(inp, entry)|
    requires FirstClaim(inp, entry, ClaimsOf(inp, entry)[p], r) && FirstClaim(inp, entry, ClaimsOf(inp, entry)[q], t)
    ensures r < t
  {
    var owners, claims := Owners(Accounts(inp.snapshots)), ClaimsOf(inp, entry);
    var names := NamesOf(entry.emails, owners);
    assert claims[p] == names[p] && claims[p] in names;
    FirstClaimIsLead(inp, entry, claims[p], r);
    if q < |names| {
      assert claims[q] == names[q] && claims[q] in names;
      FirstClaimIsLead(inp, entry, claims[q], t);
      NamesInOrder(entry.emails, owners, p, q, r, t);
    } else {
      FirstClaimIsName(inp, entry, claims[q], t);
    }
  }

  lemma FirstClaimReaches(inp: Inputs, entry: Entry, n: string, r: nat)
    requires FirstClaim(inp, entry, n, r)
    ensures ReachesName(inp, entry, n)
  {
    if r < |entry.emails| {
      assert entry.emails[r] in entry.emails;
    }
  }

  lemma FirstClaimUnique(inp: Inputs, entry: Entry, n: string, q: nat, r: nat)
    requires FirstClaim(inp, entry, n, q) && FirstClaim(inp, entry, n, r)
    ensures q == r
  {
  }

  /** A name with an account in the source, first claimed at r, is a claim with an
      identity there; and conversely. */
  lemma ClaimWith(inp: Inputs, entry: Entry, source: string, a: Account, r: nat) returns (p: nat)
    requires a in Accounts(inp.snapshots) && a.source == source && FirstClaim(inp, entry, a.user.name, r)
    ensures p < |ClaimsOf(inp, entry)| && ClaimsOf(inp, entry)[p] == a.user.name
    ensures a.user.name in Records(inp, Accounts(inp.snapshots))
    ensures source in Records(inp, Accounts(inp.snapshots))[a.user.name].directories
  {
    var accounts, n := Accounts(inp.snapshots), a.user.name;
    FirstClaimReaches(inp, entry, n, r);
    RecordMeans(inp, accounts, n);
    assert AnAccount(accounts, n, AnyUser());
    ClaimsMean(inp, entry, n);
    p :| p < |ClaimsOf(inp, entry)| && ClaimsOf(inp, entry)[p] == n;
    SomeHasLast(accounts, n, source);
    DirectoriesMean(inp, accounts, n, source);
  }

  lemma ClaimsKnown(inp: Inputs, entry: Entry)
    ensures forall n :: n in ClaimsOf(inp, entry) ==> n in Records(inp, Accounts(inp.snapshots))
  {
    NamesKnown(entry.emails, inp, Accounts(inp.snapshots));
  }

  /** The account an entry is known by belongs to the last claim with an identity. */
  lemma KnownByIsLast(inp: Inputs, entry: Entry, source: string, i: nat) returns (p: nat)
    requires KnownBy(inp, entry, source, i)
    ensures forall n :: n in ClaimsOf(inp, entry) ==> n in Records(inp, Accounts(inp.snapshots))
    ensures LastWith(ClaimsOf(inp, entry), Records(inp, Accounts(inp.snapshots)), source, p)
    ensures ClaimsOf(inp, entry)[p] == Accounts(inp.snapshots)[i].user.name
  {
    var accounts, claims := Accounts(inp.snapshots), ClaimsOf(inp, entry);
    var records := Records(inp, accounts);
    ClaimsKnown(inp, entry);
    var r: nat :| FirstClaim(inp, entry, accounts[i].user.name, r) && NoneClaimedAfter(inp, entry, source, r);
    p := ClaimWith(inp, entry, source, accounts[i], r);
    forall q | p < q < |claims| ensures source !in records[claims[q]].directories {
      ClaimHasRank(inp, entry, q);
      var t: nat :| FirstClaim(inp, entry, claims[q], t);
      ClaimsInOrder(inp, entry, p, q, r, t);
      assert claims[q] in claims;
      DirectoriesMean(inp, accounts, claims[q], source);
      SomeHasLast(accounts, claims[q], source);
      assert forall a :: a in accounts && a.user.name == claims[q] && a.source == source ==> t <= r;
    }
  }

  /** The last claim with an identity is the account the entry is known by. */
  lemma LastIsKnownBy(inp: Inputs, entry: Entry, source: string, p: nat) returns (i: nat)
    requires forall n :: n in ClaimsOf(inp, entry) ==> n in Records(inp, Accounts(inp.snapshots))
    requires LastWith(ClaimsOf(inp, entry), Records(inp, Accounts(inp.snapshots)), source, p)
    ensures KnownBy(inp, entry, source, i)
  {
    var accounts, claims := Accounts(inp.snapshots), ClaimsOf(inp, entry);
    var n := claims[p];
    assert n in claims;
    DirectoriesMean(inp, accounts, n, source);
    i :| LastIn(accounts, n, source, i);
    ClaimHasRank(inp, entry, p);
    var r: nat :| FirstClaim(inp, entry, n, r);
    forall a, q: nat | a in accounts && a.source == source && FirstClaim(inp, entry, a.user.name, q) ensures q <= r {
      var m := ClaimWith(inp, entry, source, a, q);
      if m < p {
        ClaimsInOrder(inp, entry, m, p, q, r);
      } else if m == p {
        FirstClaimUnique(inp, entry, n, q, r);
      }
    }
    assert NoneClaimedAfter(inp, entry, source, r);
  }

  /** Under each source a resolved entry carries the account it is known by there. */
  lemma ResolvedIdentity(inp: Inputs, entry: Entry, source: string)
    requires Resolve(inp, entry).Some?
    ensures source in Resolve(inp, entry).value.directories <==> exists i: nat :: KnownBy(inp, entry, source, i)
    ensures forall i: nat :: KnownBy(inp, entry, source, i) ==>
      source in Resolve(inp, entry).value.directories &&
      var u := Accounts(inp.snapshots)[i].user;
      Resolve(inp, entry).value.directories[source] == Identity(u.email, u.live)
  {
    var accounts, names := Accounts(inp.snapshots), ClaimsOf(inp, entry);
    var records := Records(inp, accounts);
    ClaimsKnown(inp, entry);
    if |names| == 1 {
      SingleIsMerged(names, records);
    }
    MergeAllDirectories(names, records, source);
    forall i: nat | KnownBy(inp, entry, source, i)
      ensures source in Resolve(inp, entry).value.directories
      ensures Resolve(inp, entry).value.directories[source] == Identity(accounts[i].user.email, accounts[i].user.live)
    {
      var p := KnownByIsLast(inp, entry, source, i);
      DirectoriesMean(inp, accounts, names[p], source);
    }
    if source in Resolve(inp, entry).value.directories {
      var p: nat :| LastWith(names, records, source, p);
      var i := LastIsKnownBy(inp, entry, source, p);
    }
  }

  /** An account an entry is known by is one it reaches. */
  lemma KnownByReaches(inp: Inputs, entry: Entry, source: string, i: nat)
    requires KnownBy(inp, entry, source, i)
    ensures ReachesName(inp, entry, Accounts(inp.snapshots)[i].user.name)
  {
    var r: nat :| FirstClaim(inp, entry, Accounts(inp.snapshots)[i].user.name, r) && NoneClaimedAfter(inp, entry, source, r);
    FirstClaimReaches(inp, entry, Accounts(inp.snapshots)[i].user.name, r);
  }

  /** The sources of a resolved entry are those of the accounts it reaches. */
  lemma ResolvedSources(inp: Inputs, entry: Entry, source: string)
    requires Resolve(inp, entry).Some?
    ensures source in Resolve(inp, entry).value.sources <==>
      exists a :: a in Accounts(inp.snapshots) && ReachesName(inp, entry, a.user.name) && a.source == source
  {
    var accounts, names := Accounts(inp.snapshots), ClaimsOf(inp, entry);
    var records := Records(inp, accounts);
    ClaimsKnown(inp, entry);
    if |names| == 1 {
      SingleIsMerged(names, records);
    }
    MergeAllSources(names, records, source);
    forall n | n in names ensures source in records[n].sources <==> exists a :: a in accounts && a.user.name == n && a.source == source {
      SourcesMean(inp, accounts, n, source);
    }
    forall a | a in accounts && ReachesName(inp, entry, a.user.name) ensures a.user.name in names {
      RecordMeans(inp, accounts, a.user.name);
      assert AnAccount(accounts, a.user.name, AnyUser());
      ClaimsMean(inp, entry, a.user.name);
    }
    forall n | n in names ensures ReachesName(inp, entry, n) {
      ClaimsMean(inp, entry, n);
    }
  }
}
