/** Over any run that does not fail, the parameter store answers as the
    in-process store does. */
module SsmRefinement {
  import opened Indexing
  import opened Strings
  import opened Mapping
  import opened Memory
  import opened Ssm
  import SsmStore
  import Pipeline

  function NameOf(op: Op): string {
    match op
    case OpPut(e) => e.name
    case OpDelete(name) => name
  }

  /** What an operation that is applied leaves. */
  function Effect(last: map<string, Entry>, op: Op): map<string, Entry> {
    match op
    case OpPut(e) => last[Slug(e.name) := Reread(e)]
    case OpDelete(name) => last - {Slug(name)}
  }

  /** What a successful or refused operation leaves in a clean parameter store. */
  function SsmAfter(last: map<string, Entry>, op: Op): map<string, Entry> {
    if op.OpPut? && SsmStore.RefusesBySlug(last, op.entry).Some? then last else Effect(last, op)
  }

  function SsmAfterAll(ops: seq<Op>): map<string, Entry> {
    if ops == [] then map[] else SsmAfter(SsmAfterAll(ops[..|ops| - 1]), ops[|ops| - 1])
  }

  /** Names used together have slugs, and different ones. */
  ghost predicate SlugsApart(names: set<string>) {
    && (forall n :: n in names ==> Slug(n) != "")
    && (forall n, m :: n in names && m in names && Slug(n) == Slug(m) ==> n == m)
  }

  ghost predicate Within(ops: seq<Op>, names: set<string>) {
    && (forall op :: op in ops ==> NameOf(op) in names)
    && (forall op :: op in ops && op.OpPut? ==> CommaFree(op.entry))
  }

  function SlugMap(names: set<string>): map<string, string> {
    map n | n in names :: Slug(n)
  }

  ghost predicate Injective(key: map<string, string>) {
    forall n, m :: n in key && m in key && key[n] == key[m] ==> n == m
  }

  /** The two stores hold the same people, up to revision, one under names and the
      other under their keys. */
  ghost predicate Matches(key: map<string, string>, entries: Entries, last: map<string, Entry>) {
    && entries.Keys <= key.Keys
    && (forall n :: n in entries ==> key[n] in last && last[key[n]] == entries[n].(revision := ""))
    && (forall s :: s in last ==> exists n :: n in entries && key[n] == s)
  }

  lemma SameClashes(key: map<string, string>, entries: Entries, last: map<string, Entry>, e: Entry)
    requires Matches(key, entries, last)
    ensures (exists s :: s in last && Conflict(e, last[s])) <==> (exists n :: n in entries && Conflict(e, entries[n]))
  {
    forall n | n in entries ensures Conflict(e, last[key[n]]) == Conflict(e, entries[n]) {
      RevisionIgnored(entries[n], e, "");
    }
    if exists s :: s in last && Conflict(e, last[s]) {
      var s :| s in last && Conflict(e, last[s]);
      var n :| n in entries && key[n] == s;
      assert Conflict(e, entries[n]);
    }
  }

  lemma SamePresence(key: map<string, string>, entries: Entries, last: map<string, Entry>, name: string)
    requires Injective(key) && Matches(key, entries, last) && name in key
    ensures key[name] in last <==> name in entries
  {
    if key[name] in last {
      var n :| n in entries && key[n] == key[name];
    }
  }

  lemma SameVerdict(key: map<string, string>, entries: Entries, last: map<string, Entry>, e: Entry)
    requires Injective(key) && Matches(key, entries, last) && e.name in key
    ensures SsmStore.RefusesAt(last, key[e.name], e) == Refuses(entries, e)
  {
    SamePresence(key, entries, last, e.name);
    SameClashes(key, entries, last, e);
  }

  lemma StoringMatches(key: map<string, string>, entries: Entries, last: map<string, Entry>, stored: Entry)
    requires Injective(key) && Matches(key, entries, last) && stored.name in key
    ensures Matches(key, entries[stored.name := stored], last[key[stored.name] := stored.(revision := "")])
  {
    var next, later := entries[stored.name := stored], last[key[stored.name] := stored.(revision := "")];
    forall s | s in later ensures exists n :: n in next && key[n] == s {
      if s in last {
        var n :| n in entries && key[n] == s;
        assert n in next;
      } else {
        assert stored.name in next;
      }
    }
  }

  lemma DeletingMatches(key: map<string, string>, entries: Entries, last: map<string, Entry>, name: string)
    requires Injective(key) && Matches(key, entries, last) && name in key
    ensures Matches(key, entries - {name}, last - {key[name]})
  {
    forall s | s in last - {key[name]} ensures exists n :: n in entries - {name} && key[n] == s {
      var n :| n in entries && key[n] == s;
      assert n in entries - {name};
    }
  }

  lemma PutMatches(key: map<string, string>, m: MemoryState, last: map<string, Entry>, e: Entry)
    requires Injective(key) && Matches(key, m.entries, last) && e.name in key && CommaFree(e)
    ensures Matches(key, AfterPut(m, e).entries,
      if SsmStore.RefusesAt(last, key[e.name], e).Some? then last else last[key[e.name] := Reread(e)])
  {
    SameVerdict(key, m.entries, last, e);
    AfterPutIs(m, e);
    if Refuses(m.entries, e).None? {
      AcceptedIsReread(m.entries, e);
      StoringMatches(key, m.entries, last, e.(revision := Itoa(m.revision + 1)));
    }
  }

  lemma AcceptedIsReread(entries: Entries, e: Entry)
    requires Refuses(entries, e).None? && CommaFree(e)
    ensures Reread(e) == e.(revision := "")
  {
    RereadIff(e);
  }

  /** The parameter store refines the in-process one over every run. */
  lemma {:induction false} RunsMatch(names: set<string>, ops: seq<Op>)
    requires SlugsApart(names) && Within(ops, names)
    ensures Matches(SlugMap(names), AfterAll(EMPTY, ops).entries, SsmAfterAll(ops))
  {
    if ops != [] {
      var rest, last := ops[..|ops| - 1], ops[|ops| - 1];
      assert ops == rest + [last];
      assert last in ops && forall op :: op in rest ==> op in ops;
      RunsMatch(names, rest);
      StepMatches(names, AfterAll(EMPTY, rest), SsmAfterAll(rest), last);
    }
  }

  lemma StepMatches(names: set<string>, m: MemoryState, last: map<string, Entry>, op: Op)
    requires SlugsApart(names) && Matches(SlugMap(names), m.entries, last) && NameOf(op) in names
    requires op.OpPut? ==> CommaFree(op.entry)
    ensures Matches(SlugMap(names), After(m, op).entries, SsmAfter(last, op))
  {
    assert Injective(SlugMap(names));
    match op {
      case OpPut(e) => PutMatches(SlugMap(names), m, last, e);
      case OpDelete(name) => DeletingMatches(SlugMap(names), m.entries, last, name);
    }
  }

  /** Hence a read after any run gives the entry last put, revision aside, or
      nothing, exactly as the in-process store would, and the next write is
      refused by one exactly when it is by the other. */
  lemma ReadsAgree(names: set<string>, ops: seq<Op>, name: string, e: Entry)
    requires SlugsApart(names) && Within(ops, names) && name in names && e.name in names
    ensures var entries, last := AfterAll(EMPTY, ops).entries, SsmAfterAll(ops);
      && (Slug(name) in last <==> name in entries)
      && (name in entries ==> last[Slug(name)] == entries[name].(revision := ""))
      && SsmStore.RefusesBySlug(last, e) == Refuses(entries, e)
  {
    var key := SlugMap(names);
    RunsMatch(names, ops);
    assert Injective(key) && key[name] == Slug(name) && key[e.name] == Slug(e.name);
    SamePresence(key, AfterAll(EMPTY, ops).entries, SsmAfterAll(ops), name);
    SameVerdict(key, AfterAll(EMPTY, ops).entries, SsmAfterAll(ops), e);
  }

  // ----- the store object -----

  method PerformOne(store: SsmStore.Store, op: Op) returns (ok: bool)
    requires store.Valid() && store.dirty == {} && Slug(NameOf(op)) != ""
    modifies store
    ensures store.Valid()
    ensures ok ==> store.last == SsmAfter(old(store.last), op) && store.dirty == {}
  {
    match op {
      case OpPut(e) =>
        var r := store.Put(e);
        ok := !r.Failed?;
      case OpDelete(name) =>
        ok := store.Delete(name);
    }
  }

  /** Performs the operations one after another, stopping at one that fails. */
  method Perform(store: SsmStore.Store, ops: seq<Op>) returns (ok: bool)
    requires store.Valid() && store.last == map[] && store.dirty == {}
    requires forall op :: op in ops ==> Slug(NameOf(op)) != ""
    modifies store
    ensures store.Valid()
    ensures ok ==> store.last == SsmAfterAll(ops) && store.dirty == {}
  {
    for i := 0 to |ops|
      invariant store.Valid() && store.last == SsmAfterAll(ops[..i]) && store.dirty == {}
    {
      assert ops[..i + 1][..i] == ops[..i];
      ok := PerformOne(store, ops[i]);
      if !ok {
        return;
      }
    }
    assert ops[..|ops|] == ops;
    ok := true;
  }

  // ----- runs that go on past a failure -----

  /** What became of an operation. */
  datatype Outcome = Applied | Refused | Failed

  /** What the last applied operation on the slug left: an entry, or nobody. */
  function LastApplied(ops: seq<Op>, outcomes: seq<Outcome>, slug: string): Option<Entry>
    requires |ops| == |outcomes|
  {
    if ops == [] then None
    else
      var n := |ops| - 1;
      if outcomes[n] == Applied && Slug(NameOf(ops[n])) == slug then
        match ops[n] case OpPut(e) => Some(Reread(e)) case OpDelete(_) => None
      else LastApplied(ops[..n], outcomes[..n], slug)
  }

  /** Operation i on the slug failed, and none was applied to it since. */
  ghost predicate FailedAt(ops: seq<Op>, outcomes: seq<Outcome>, slug: string, i: nat)
    requires |ops| == |outcomes|
  {
    && i < |ops| && outcomes[i] == Failed && Slug(NameOf(ops[i])) == slug
    && forall j :: i < j < |ops| ==> !(outcomes[j] == Applied && Slug(NameOf(ops[j])) == slug)
  }

  ghost predicate Outstanding(ops: seq<Op>, outcomes: seq<Outcome>, slug: string)
    requires |ops| == |outcomes|
  {
    exists i: nat :: FailedAt(ops, outcomes, slug, i)
  }

  lemma FailedAtSnoc(ops: seq<Op>, outcomes: seq<Outcome>, op: Op, outcome: Outcome, slug: string, i: nat)
    requires |ops| == |outcomes|
    ensures FailedAt(ops + [op], outcomes + [outcome], slug, i) <==>
      if i == |ops| then outcome == Failed && Slug(NameOf(op)) == slug
      else FailedAt(ops, outcomes, slug, i) && !(outcome == Applied && Slug(NameOf(op)) == slug)
  {
    var n, longer, later := |ops|, ops + [op], outcomes + [outcome];
    assert forall j :: 0 <= j < n ==> longer[j] == ops[j] && later[j] == outcomes[j];
    assert longer[n] == op && later[n] == outcome;
  }

  lemma OutstandingSnoc(ops: seq<Op>, outcomes: seq<Outcome>, op: Op, outcome: Outcome, slug: string)
    requires |ops| == |outcomes|
    ensures Outstanding(ops + [op], outcomes + [outcome], slug) <==>
      if Slug(NameOf(op)) != slug || outcome == Refused then Outstanding(ops, outcomes, slug) else outcome == Failed
  {
    forall i: nat {
      FailedAtSnoc(ops, outcomes, op, outcome, slug, i);
    }
    assert FailedAt(ops + [op], outcomes + [outcome], slug, |ops|) <==> outcome == Failed && Slug(NameOf(op)) == slug;
  }

  /** Slugs are dirty only while an operation on them is outstanding, and every other is
      as last applied. */
  ghost predicate AsApplied(last: map<string, Entry>, dirty: set<string>, ops: seq<Op>, outcomes: seq<Outcome>)
    requires |ops| == |outcomes|
  {
    && (forall slug :: slug in dirty ==> Outstanding(ops, outcomes, slug))
    && forall slug :: slug !in dirty ==> ReadFrom(last, slug) == LastApplied(ops, outcomes, slug)
  }

  function ReadFrom(last: map<string, Entry>, slug: string): Option<Entry> {
    if slug in last then Some(last[slug]) else None
  }

  /** What one operation on slug may do to the store. */
  predicate Became(last: map<string, Entry>, dirty: set<string>, op: Op, outcome: Outcome, last': map<string, Entry>, dirty': set<string>) {
    var slug := Slug(NameOf(op));
    match outcome
    case Applied => last' == Effect(last, op) && dirty' == dirty - {slug}
    case Refused => last' == last && dirty' == dirty
    case Failed => (last' == last && dirty' == dirty) || (last' == last - {slug} && dirty' == dirty + {slug})
  }

  lemma OneMore(last: map<string, Entry>, dirty: set<string>, last': map<string, Entry>, dirty': set<string>,
                ops: seq<Op>, outcomes: seq<Outcome>, op: Op, outcome: Outcome)
    requires |ops| == |outcomes| && AsApplied(last, dirty, ops, outcomes) && Became(last, dirty, op, outcome, last', dirty')
    ensures AsApplied(last', dirty', ops + [op], outcomes + [outcome])
  {
    assert (ops + [op])[..|ops|] == ops && (outcomes + [outcome])[..|ops|] == outcomes;
    forall slug {
      OutstandingSnoc(ops, outcomes, op, outcome, slug);
    }
  }

  /** Performs one operation, and says what became of it. */
  method TryOne(store: SsmStore.Store, op: Op) returns (outcome: Outcome)
    requires store.Valid() && Slug(NameOf(op)) != ""
    modifies store
    ensures store.Valid() && Became(old(store.last), old(store.dirty), op, outcome, store.last, store.dirty)
  {
    match op {
      case OpPut(e) =>
        var r := store.Put(e);
        outcome := match r case Stored => Applied case RefusedFor(_) => Refused case Failed => Failed;
      case OpDelete(name) =>
        var ok := store.Delete(name);
        outcome := if ok then Applied else Failed;
    }
  }

  /** Performs every operation, whatever becomes of it, and reads one person: they are
      as last applied, unless an operation on them failed since. */
  method TryAll(store: SsmStore.Store, ops: seq<Op>, name: string) returns (outcomes: seq<Outcome>, r: Option<Entry>)
    requires store.Valid() && store.last == map[] && store.dirty == {}
    requires Slug(name) != "" && forall op :: op in ops ==> Slug(NameOf(op)) != ""
    modifies store
    ensures store.Valid() && |outcomes| == |ops|
    ensures !Outstanding(ops, outcomes, Slug(name)) ==> r == LastApplied(ops, outcomes, Slug(name))
  {
    outcomes := [];
    for i := 0 to |ops|
      invariant store.Valid() && |outcomes| == i
      invariant AsApplied(store.last, store.dirty, ops[..i], outcomes)
    {
      assert ops[..i + 1] == ops[..i] + [ops[i]];
      ghost var last, dirty := store.last, store.dirty;
      var outcome := TryOne(store, ops[i]);
      OneMore(last, dirty, store.last, store.dirty, ops[..i], outcomes, ops[i], outcome);
      outcomes := outcomes + [outcome];
    }
    assert ops[..|ops|] == ops;
    r := store.Get(name);
  }

  /** A read of the store object after any run that does not fail gives the entry the
      in-process store holds, revision aside. */
  method GetAfter(store: SsmStore.Store, ghost names: set<string>, ops: seq<Op>, name: string) returns (ok: bool, r: Option<Entry>)
    requires store.Valid() && store.last == map[] && store.dirty == {}
    requires SlugsApart(names) && Within(ops, names) && name in names
    modifies store
    ensures store.Valid()
    ensures ok ==> r == var entries := AfterAll(EMPTY, ops).entries;
      if name in entries then Some(entries[name].(revision := "")) else None
  {
    ok := Perform(store, ops);
    if !ok {
      return false, None;
    }
    r := store.Get(name);
    ReadsAgree(names, ops, name, ZERO.(name := name));
  }

  /** So does a write: it is refused exactly when the in-process store refuses it. */
  method PutAfter(store: SsmStore.Store, ghost names: set<string>, ops: seq<Op>, e: Entry) returns (ok: bool, r: SsmStore.PutResult)
    requires store.Valid() && store.last == map[] && store.dirty == {}
    requires SlugsApart(names) && Within(ops, names) && e.name in names
    modifies store
    ensures store.Valid()
    ensures ok && !r.Failed? ==>
      r == match Refuses(AfterAll(EMPTY, ops).entries, e) case Some(reason) => SsmStore.RefusedFor(reason) case None => SsmStore.Stored
  {
    ok := Perform(store, ops);
    if !ok {
      return false, SsmStore.Failed;
    }
    r := store.Put(e);
    ReadsAgree(names, ops, e.name, e);
  }

  /** e is an entry the in-process store holds, revision aside. */
  ghost predicate Held(entries: Entries, e: Entry) {
    e.name in entries && e == entries[e.name].(revision := "")
  }

  lemma HeldApart(entries: Entries, a: Entry, b: Entry)
    requires Sound(entries) && Held(entries, a) && Held(entries, b) && a.name != b.name
    ensures Pipeline.EntryKey(a) != Pipeline.EntryKey(b)
  {
    assert !Conflict(entries[a.name], entries[b.name]);
  }

  lemma HeldHasLogin(entries: Entries, e: Entry)
    requires Sound(entries) && Held(entries, e)
    ensures e.github != ""
  {
  }

  lemma ListedIsHeld(key: map<string, string>, entries: Entries, last: map<string, Entry>, slug: string)
    requires Sound(entries) && Matches(key, entries, last) && slug in last
    ensures Held(entries, last[slug]) && key[last[slug].name] == slug
  {
    var n :| n in entries && key[n] == slug;
  }

  /** What a sound store holds under different names has names and logins apart. */
  lemma HeldDistinct(entries: Entries, all: seq<Entry>)
    requires Sound(entries) && forall i :: 0 <= i < |all| ==> Held(entries, all[i])
    requires forall i, j :: 0 <= i < j < |all| ==> all[i].name != all[j].name
    ensures Pipeline.EntriesDistinct(all)
  {
    forall i, j | 0 <= i < j < |all| ensures Pipeline.EntryKey(all[i]) != Pipeline.EntryKey(all[j]) {
      HeldApart(entries, all[i], all[j]);
    }
    forall e | e in all ensures e.github != "" {
      HeldHasLogin(entries, e);
    }
  }

  /** What matches a sound store is listed with names and logins apart. */
  lemma MatchingListing(key: map<string, string>, entries: Entries, last: map<string, Entry>, all: seq<Entry>)
    requires Sound(entries) && Matches(key, entries, last) && SsmStore.OnceEach(last, all)
    ensures Pipeline.EntriesDistinct(all)
  {
    var slugs :| SsmStore.ListedAs(last, slugs, all) && forall s :: s in slugs <==> s in last;
    forall i | 0 <= i < |all| ensures Held(entries, all[i]) && key[all[i].name] == slugs[i] {
      ListedIsHeld(key, entries, last, slugs[i]);
    }
    HeldDistinct(entries, all);
  }

  /** What the parameter store lists after a run that does not fail is what the
      decisions assume of entries. */
  lemma ListingFeedsPipeline(names: set<string>, ops: seq<Op>, prefix: string, params: Params, all: seq<Entry>)
    requires SlugsApart(names) && Within(ops, names)
    requires SsmStore.Consistent(prefix, params, SsmAfterAll(ops), {})
    requires SsmStore.OnceEach(SsmStore.PeopleIn(prefix, params), all)
    ensures Pipeline.EntriesDistinct(all)
  {
    SsmStore.CleanPeople(prefix, params, SsmAfterAll(ops));
    RunsMatch(names, ops);
    RunsKeepSound(ops);
    MatchingListing(SlugMap(names), AfterAll(EMPTY, ops).entries, SsmAfterAll(ops), all);
  }
}
