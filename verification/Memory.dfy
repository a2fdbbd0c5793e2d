/** The in-process mapping store, and what its writes keep over any run
    (pkg/mapping/memory.go). */
module Memory {
  import opened Text
  import opened Indexing
  import opened Strings
  import opened Mapping
  import Sorting
  import Pipeline

  type Entries = map<string, Entry>

  ghost predicate ListsAll(entries: Entries, all: seq<Entry>) {
    && (forall e :: e in all <==> exists n :: n in entries && entries[n] == e)
    && NoDup(all)
  }

  /** all holds the entries of some names, once each. */
  ghost predicate ListsSome(entries: Entries, names: set<string>, all: seq<Entry>)
    requires names <= entries.Keys
  {
    && NoDup(all)
    && (forall e :: e in all ==> e.name in names && entries[e.name] == e)
    && (forall n :: n in names ==> entries[n] in all)
  }

  lemma ListsOneMore(entries: Entries, names: set<string>, all: seq<Entry>, n: string)
    requires names <= entries.Keys && ListsSome(entries, names, all)
    requires n in entries && n !in names && entries[n].name == n
    ensures ListsSome(entries, names + {n}, all + [entries[n]])
  {
    NoDupSnoc(all, entries[n]);
  }

  function Existing(entries: Entries, name: string): Entry {
    if name in entries then entries[name] else ZERO
  }

  /** Whether a write is refused, and why. */
  function Refuses(entries: Entries, e: Entry): Option<StoreError> {
    var existing := Existing(entries, e.name);
    if !ValidEntry(e) then Some(Invalid)
    else if existing.k8s != "" && e.k8s != existing.k8s then Some(Immutable)
    else if exists n :: n in entries && Conflict(e, entries[n]) then Some(Duplicate)
    else None
  }

  lemma RefusesIsCheck(entries: Entries, e: Entry, all: seq<Entry>)
    requires ListsAll(entries, all)
    ensures CheckInvariants(e, Existing(entries, e.name), all) == Refuses(entries, e)
  {
    if exists n :: n in entries && Conflict(e, entries[n]) {
      var n :| n in entries && Conflict(e, entries[n]);
      assert entries[n] in all;
    }
  }

  lemma ListedByName(entries: Entries, names: seq<string>, all: seq<Entry>)
    requires Sorting.StrictlySortedBy(names, Less) && forall n :: n in names <==> n in entries
    requires |all| == |names|
    requires forall j :: 0 <= j < |all| ==> names[j] in entries && all[j] == entries[names[j]] && all[j].name == names[j]
    ensures ListsAll(entries, all)
    ensures forall i, j :: 0 <= i < j < |all| ==> Less(all[i].name, all[j].name)
  {
    forall i, j | 0 <= i < j < |all| ensures Less(all[i].name, all[j].name) && all[i] != all[j] {
      assert Less(names[i], names[j]);
      LessIrreflexive(names[i]);
    }
    forall n | n in entries ensures entries[n] in all {
      var i :| 0 <= i < |names| && names[i] == n;
      assert all[i] == entries[n];
    }
  }

  ghost predicate FiledByName(entries: Entries) {
    forall n :: n in entries ==> entries[n].name == n
  }

  lemma SoundIsFiled(entries: Entries)
    requires Sound(entries)
    ensures FiledByName(entries)
  {
  }

  class Store {
    var entries: Entries
    var revision: nat

    ghost predicate Valid()
      reads this
    {
      Sound(entries)
    }

    constructor ()
      ensures Valid() && entries == map[] && revision == 0
    {
      entries, revision := map[], 0;
    }

    /** The stored values, in arbitrary order. */
    method Values() returns (all: seq<Entry>)
      requires Valid()
      ensures ListsAll(entries, all)
    {
      SoundIsFiled(entries);
      all := [];
      var todo := entries.Keys;
      while todo != {}
        invariant todo <= entries.Keys
        invariant ListsSome(entries, entries.Keys - todo, all)
      {
        var n :| n in todo;
        ListsOneMore(entries, entries.Keys - todo, all, n);
        todo := todo - {n};
        all := all + [entries[n]];
      }
    }

    method Get(name: string) returns (r: Option<Entry>)
      ensures r == if name in entries then Some(entries[name]) else None
    {
      if name !in entries {
        return None;
      }
      r := Some(entries[name]);
    }

    /** Every entry, sorted by name. */
    method List() returns (all: seq<Entry>)
      requires Valid()
      ensures ListsAll(entries, all)
      ensures forall i, j :: 0 <= i < j < |all| ==> Less(all[i].name, all[j].name)
    {
      var names := SortedNames();
      SoundIsFiled(entries);
      all := EntriesOf(names);
      ListedByName(entries, names, all);
    }

    method EntriesOf(names: seq<string>) returns (all: seq<Entry>)
      requires FiledByName(entries) && forall n :: n in names ==> n in entries
      ensures |all| == |names|
      ensures forall j :: 0 <= j < |all| ==> names[j] in entries && all[j] == entries[names[j]] && all[j].name == names[j]
    {
      all := [];
      for i := 0 to |names|
        invariant |all| == i
        invariant forall j :: 0 <= j < i ==> names[j] in entries && all[j] == entries[names[j]] && all[j].name == names[j]
      {
        assert names[i] in names;
        all := all + [entries[names[i]]];
      }
    }

    method SortedNames() returns (names: seq<string>)
      ensures forall n :: n in names <==> n in entries
      ensures Sorting.StrictlySortedBy(names, Less)
    {
      names := [];
      var todo := entries.Keys;
      while todo != {}
        invariant todo <= entries.Keys && NoDup(names)
        invariant forall n :: n in names <==> n in entries.Keys - todo
      {
        var n :| n in todo;
        todo := todo - {n};
        NoDupSnoc(names, n);
        names := names + [n];
      }
      Sorting.SortDistinct(names);
      Sorting.SortStringsElements(names);
      names := Sorting.SortStrings(names);
    }

    /** Stores an entry under its name unless a rule would break. */
    method Put(e: Entry) returns (refused: Option<StoreError>)
      requires Valid()
      modifies this
      ensures Valid()
      ensures refused == Refuses(old(entries), e)
      ensures MemoryState(entries, revision) == AfterPut(MemoryState(old(entries), old(revision)), e)
    {
      var existing := Existing(entries, e.name);
      var all := Values();
      RefusesIsCheck(entries, e, all);
      refused := CheckInvariants(e, existing, all);
      if refused.Some? {
        return;
      }
      PutKeepsSound(MemoryState(entries, revision), e);
      revision := revision + 1;
      entries := entries[e.name := e.(revision := Itoa(revision))];
    }

    method Delete(name: string)
      requires Valid()
      modifies this
      ensures Valid()
      ensures MemoryState(entries, revision) == AfterDelete(MemoryState(old(entries), old(revision)), name)
    {
      entries := entries - {name};
    }
  }

  // ----- runs -----

  datatype MemoryState = MemoryState(entries: Entries, revision: nat)

  datatype Op = OpPut(entry: Entry) | OpDelete(name: string)

  function AfterPut(m: MemoryState, e: Entry): MemoryState {
    if Refuses(m.entries, e).Some? then m
    else MemoryState(m.entries[e.name := e.(revision := Itoa(m.revision + 1))], m.revision + 1)
  }

  function AfterDelete(m: MemoryState, name: string): MemoryState {
    m.(entries := m.entries - {name})
  }

  function After(m: MemoryState, op: Op): MemoryState {
    match op
    case OpPut(e) => AfterPut(m, e)
    case OpDelete(name) => AfterDelete(m, name)
  }

  function AfterAll(m: MemoryState, ops: seq<Op>): MemoryState {
    if ops == [] then m else After(AfterAll(m, ops[..|ops| - 1]), ops[|ops| - 1])
  }

  const EMPTY := MemoryState(map[], 0)

  /** Every entry is valid and filed under its name, and no two entries share a
      login, an address or a non-empty abbreviation, whatever the case. */
  ghost predicate Sound(entries: Entries) {
    EachValid(entries) && NoneClash(entries)
  }

  ghost predicate EachValid(entries: Entries) {
    forall n :: n in entries ==> entries[n].name == n && ValidEntry(entries[n])
  }

  ghost predicate NoneClash(entries: Entries) {
    forall n, m :: n in entries && m in entries ==> !Conflict(entries[n], entries[m])
  }

  /** The revision plays no part in the rules. */
  lemma RevisionIgnored(a: Entry, b: Entry, revision: string)
    ensures ValidEntry(a.(revision := revision)) == ValidEntry(a)
    ensures Conflict(a.(revision := revision), b) == Conflict(a, b)
    ensures Conflict(b, a.(revision := revision)) == Conflict(b, a)
  {
  }

  lemma StoringKeepsEachValid(entries: Entries, stored: Entry)
    requires EachValid(entries) && ValidEntry(stored)
    ensures EachValid(entries[stored.name := stored])
  {
  }

  lemma StoringClashesWithNone(entries: Entries, stored: Entry)
    requires NoneClash(entries) && forall n :: n in entries ==> !Conflict(stored, entries[n])
    ensures NoneClash(entries[stored.name := stored])
  {
    forall n | n in entries ensures !Conflict(entries[n], stored) {
      ConflictSymmetric(stored, entries[n]);
    }
  }

  /** A valid entry that clashes with none may be stored. */
  lemma StoringKeepsSound(entries: Entries, stored: Entry)
    requires Sound(entries) && ValidEntry(stored) && forall n :: n in entries ==> !Conflict(stored, entries[n])
    ensures Sound(entries[stored.name := stored])
  {
    StoringKeepsEachValid(entries, stored);
    StoringClashesWithNone(entries, stored);
  }

  /** What is not refused is valid and clashes with nothing, whatever its revision. */
  lemma AcceptedIsFree(entries: Entries, e: Entry, revision: string)
    requires Refuses(entries, e).None?
    ensures ValidEntry(e.(revision := revision))
    ensures forall n :: n in entries ==> !Conflict(e.(revision := revision), entries[n])
  {
    RevisionIgnored(e, e, revision);
    forall n | n in entries ensures !Conflict(e.(revision := revision), entries[n]) {
      RevisionIgnored(e, entries[n], revision);
    }
  }

  lemma AcceptedKeepsSound(entries: Entries, e: Entry, revision: string)
    requires Sound(entries) && Refuses(entries, e).None?
    ensures Sound(entries[e.name := e.(revision := revision)])
  {
    AcceptedIsFree(entries, e, revision);
    StoringKeepsSound(entries, e.(revision := revision));
  }

  lemma AfterPutIs(m: MemoryState, e: Entry)
    ensures AfterPut(m, e).entries ==
      if Refuses(m.entries, e).Some? then m.entries else m.entries[e.name := e.(revision := Itoa(m.revision + 1))]
  {
  }

  lemma PutKeepsSound(m: MemoryState, e: Entry)
    requires Sound(m.entries)
    ensures Sound(AfterPut(m, e).entries)
  {
    AfterPutIs(m, e);
    if Refuses(m.entries, e).None? {
      AcceptedKeepsSound(m.entries, e, Itoa(m.revision + 1));
    }
  }

  /** The mapping's invariants hold after any run of puts and deletes. */
  lemma {:induction false} RunsKeepSound(ops: seq<Op>)
    ensures Sound(AfterAll(EMPTY, ops).entries)
  {
    if ops != [] {
      RunsKeepSound(ops[..|ops| - 1]);
      var last := ops[|ops| - 1];
      if last.OpPut? {
        PutKeepsSound(AfterAll(EMPTY, ops[..|ops| - 1]), last.entry);
      }
    }
  }

  /** An assigned abbreviation outlives every run that does not delete its name. */
  lemma {:induction false} AbbreviationIsImmutable(m: MemoryState, ops: seq<Op>, name: string)
    requires name in m.entries && m.entries[name].k8s != ""
    requires OpDelete(name) !in ops
    ensures name in AfterAll(m, ops).entries
    ensures AfterAll(m, ops).entries[name].k8s == m.entries[name].k8s
  {
    if ops != [] {
      var rest, last := ops[..|ops| - 1], ops[|ops| - 1];
      assert ops == rest + [last];
      assert OpDelete(name) !in rest && last != OpDelete(name);
      AbbreviationIsImmutable(m, rest, name);
    }
  }

  /** A sound store lists entries the decision pipeline may rely on. */
  lemma SoundFeedsPipeline(entries: Entries, all: seq<Entry>)
    requires Sound(entries) && ListsAll(entries, all)
    ensures Pipeline.EntriesDistinct(all)
  {
    forall i, j | 0 <= i < j < |all|
      ensures all[i].name != all[j].name && Lower(all[i].github) != Lower(all[j].github)
    {
      assert all[i] in all && all[j] in all;
      var n :| n in entries && entries[n] == all[i];
      var m :| m in entries && entries[m] == all[j];
      assert !Conflict(entries[n], entries[m]);
    }
    forall e | e in all ensures e.github != "" {
      var n :| n in entries && entries[n] == e;
    }
  }
}
