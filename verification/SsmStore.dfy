/** The parameter-backed mapping store as an object whose every write may fail,
    and its refinement of the in-process store (pkg/mapping/ssm.go). */
module SsmStore {
  import opened Text
  import opened Indexing
  import opened Strings
  import opened Mapping
  import opened Ssm

  // ----- parameters and people -----

  /** full is one of the parameters of slug. */
  predicate IsOf(prefix: string, slug: string, full: string) {
    exists f :: f in FIELDS && full == Path(prefix, slug) + f
  }

  function FieldsAt(prefix: string, params: Params, slug: string): Params {
    map f | f in FIELDS && Path(prefix, slug) + f in params :: params[Path(prefix, slug) + f]
  }

  /** The person the parameters of slug describe. */
  function EntryAt(prefix: string, params: Params, slug: string): Entry {
    EntryFrom(FieldsAt(prefix, params, slug))
  }

  /** Under the prefix there are only people's fields. */
  ghost predicate OnlyPeople(prefix: string, params: Params) {
    forall full :: full in params && prefix <= full ==> exists slug :: '/' !in slug && IsOf(prefix, slug, full)
  }

  /** The parameters hold exactly the people of `last`, by slug; the slugs in
      dirty were left half-written. */
  ghost predicate Consistent(prefix: string, params: Params, last: map<string, Entry>, dirty: set<string>) {
    && OnlyPeople(prefix, params)
    && (forall s :: s in last ==> IsSegment(s) && EntryAt(prefix, params, s) == last[s] && Path(prefix, s) + NAME in params)
    && (forall s, f :: IsSegment(s) && s !in last && s !in dirty && f in FIELDS ==> Path(prefix, s) + f !in params)
  }

  lemma FieldsAreSegments(f: string)
    requires f in FIELDS
    ensures IsSegment(f)
  {
  }

  lemma SamePathField(prefix: string, slug: string, f: string, g: string)
    requires Path(prefix, slug) + f == Path(prefix, slug) + g
    ensures f == g
  {
    var p := Path(prefix, slug);
    assert (p + f)[|p|..] == f && (p + g)[|p|..] == g;
  }

  /** A name under one slug's path belongs to that slug. */
  lemma UnderPath(prefix: string, slug: string, s: string, f: string)
    requires '/' !in slug && '/' !in s && Path(prefix, slug) <= Path(prefix, s) + f
    ensures slug == s
  {
    var full := Path(prefix, s) + f;
    var rest := full[|prefix|..];
    var tail := full[|Path(prefix, slug)|..];
    assert rest == s + ['/'] + f;
    assert full == Path(prefix, slug) + tail;
    assert rest == slug + ['/'] + tail;
    IndexOfFirst(s, f, '/');
    IndexOfFirst(slug, tail, '/');
    assert rest[..|s|] == s && rest[..|slug|] == slug;
  }

  lemma OtherSlugUntouched(prefix: string, slug: string, s: string, f: string)
    requires '/' !in slug && '/' !in s && s != slug
    ensures !IsOf(prefix, slug, Path(prefix, s) + f)
  {
    forall g | g in FIELDS ensures Path(prefix, s) + f != Path(prefix, slug) + g {
      if Path(prefix, s) + f == Path(prefix, slug) + g {
        UnderPath(prefix, slug, s, f);
      }
    }
  }

  // ----- what writes do to the parameters -----

  /** Only parameters of slug changed, and only people's fields were added. */
  ghost predicate OnlyTouches(prefix: string, slug: string, before: Params, after: Params) {
    forall full :: !IsOf(prefix, slug, full) ==> (full in before <==> full in after) && (full in before ==> after[full] == before[full])
  }

  lemma OthersRead(prefix: string, slug: string, before: Params, after: Params, s: string)
    requires OnlyTouches(prefix, slug, before, after) && '/' !in slug && '/' !in s && s != slug
    ensures FieldsAt(prefix, after, s) == FieldsAt(prefix, before, s)
    ensures EntryAt(prefix, after, s) == EntryAt(prefix, before, s)
  {
    forall f | f in FIELDS ensures Path(prefix, s) + f in before <==> Path(prefix, s) + f in after {
      OtherSlugUntouched(prefix, slug, s, f);
    }
    forall f | f in FIELDS && Path(prefix, s) + f in before ensures after[Path(prefix, s) + f] == before[Path(prefix, s) + f] {
      OtherSlugUntouched(prefix, slug, s, f);
    }
  }

  /** Every field of slug is as the entry writes it. */
  ghost predicate Wrote(prefix: string, slug: string, e: Entry, after: Params) {
    forall f :: f in FIELDS ==>
      (Path(prefix, slug) + f in after <==> Writes(e, f)) && (Writes(e, f) ==> after[Path(prefix, slug) + f] == FieldText(e, f))
  }

  lemma WroteReads(prefix: string, slug: string, e: Entry, after: Params)
    requires Wrote(prefix, slug, e, after)
    ensures EntryAt(prefix, after, slug) == Reread(e) && Path(prefix, slug) + NAME in after
  {
    var read := FieldsAt(prefix, after, slug);
    forall f ensures f in read <==> f in ValuesOf(e) {}
    forall f | f in read ensures read[f] == ValuesOf(e)[f] {}
    assert read == ValuesOf(e);
    NameIsWritten(e);
  }

  lemma NameIsWritten(e: Entry)
    ensures NAME in FIELDS && Writes(e, NAME)
  {
    assert FIELDS[0] == NAME;
    assert forall i :: 0 <= i < |CLEARABLE| ==> CLEARABLE[i] != NAME;
  }

  lemma TouchKeepsOnlyPeople(prefix: string, slug: string, before: Params, after: Params)
    requires OnlyPeople(prefix, before) && OnlyTouches(prefix, slug, before, after) && '/' !in slug
    ensures OnlyPeople(prefix, after)
  {
  }

  /** A write that changes only one slug leaves the rest of the store consistent. */
  lemma TouchConsistent(prefix: string, slug: string, before: Params, after: Params, last: map<string, Entry>, dirty: set<string>)
    requires Consistent(prefix, before, last, dirty) && OnlyTouches(prefix, slug, before, after) && '/' !in slug
    ensures Consistent(prefix, after, last - {slug}, dirty + {slug})
  {
    TouchKeepsOnlyPeople(prefix, slug, before, after);
    forall s | s in last && s != slug
      ensures EntryAt(prefix, after, s) == last[s] && Path(prefix, s) + NAME in after
    {
      OthersRead(prefix, slug, before, after, s);
      OtherSlugUntouched(prefix, slug, s, NAME);
    }
    forall s, f | IsSegment(s) && s !in last && s !in dirty && s != slug && f in FIELDS ensures Path(prefix, s) + f !in after {
      OtherSlugUntouched(prefix, slug, s, f);
    }
  }

  lemma Settled(prefix: string, slug: string, stored: Entry, after: Params, last: map<string, Entry>, dirty: set<string>)
    requires Consistent(prefix, after, last - {slug}, dirty + {slug}) && IsSegment(slug)
    requires EntryAt(prefix, after, slug) == stored && Path(prefix, slug) + NAME in after
    ensures Consistent(prefix, after, last[slug := stored], dirty - {slug})
  {
  }

  /** Nobody is filed under the empty slug. */
  lemma Unslugged(prefix: string, after: Params, last: map<string, Entry>, dirty: set<string>)
    requires Consistent(prefix, after, last - {""}, dirty + {""}) && "" !in last
    ensures Consistent(prefix, after, last, dirty)
  {
    assert last - {""} == last;
  }

  /** A slug touched and then written in full is clean again. */
  lemma PutConsistent(prefix: string, slug: string, e: Entry, after: Params, last: map<string, Entry>, dirty: set<string>)
    requires Consistent(prefix, after, last - {slug}, dirty + {slug}) && Wrote(prefix, slug, e, after)
    requires '/' !in slug && "" !in last
    ensures slug != "" ==> Consistent(prefix, after, last[slug := Reread(e)], dirty - {slug})
    ensures slug == "" ==> Consistent(prefix, after, last, dirty)
  {
    WroteReads(prefix, slug, e, after);
    if slug == "" {
      Unslugged(prefix, after, last, dirty);
    } else {
      Settled(prefix, slug, Reread(e), after, last, dirty);
    }
  }

  /** A slug touched and then emptied is clean again. */
  lemma DeleteConsistent(prefix: string, slug: string, after: Params, last: map<string, Entry>, dirty: set<string>)
    requires Consistent(prefix, after, last - {slug}, dirty + {slug})
    requires forall f :: f in FIELDS ==> Path(prefix, slug) + f !in after
    ensures Consistent(prefix, after, last - {slug}, dirty - {slug})
  {
  }

  /** The parameter of one field is as it was. */
  predicate SameField(prefix: string, slug: string, before: Params, after: Params, f: string) {
    var full := Path(prefix, slug) + f;
    (full in after <==> full in before) && (full in before ==> after[full] == before[full])
  }

  /** The parameter of one field is as the entry has it. */
  predicate AsWritten(prefix: string, slug: string, e: Entry, after: Params, f: string) {
    var full := Path(prefix, slug) + f;
    (full in after <==> Writes(e, f)) && (Writes(e, f) ==> after[full] == FieldText(e, f))
  }

  /** Each field of slug is as it was, or as the entry has it. */
  ghost predicate Partly(prefix: string, slug: string, e: Entry, before: Params, after: Params) {
    forall f :: f in FIELDS ==> SameField(prefix, slug, before, after, f) || AsWritten(prefix, slug, e, after, f)
  }

  /** The first n fields of slug are gone, and the others as they were. */
  ghost predicate Emptied(prefix: string, slug: string, before: Params, after: Params, n: nat) {
    forall j :: 0 <= j < |FIELDS| ==>
      if j < n then Path(prefix, slug) + FIELDS[j] !in after else SameField(prefix, slug, before, after, FIELDS[j])
  }

  // ----- the store -----

  datatype PutResult = Stored | RefusedFor(reason: StoreError) | Failed

  /** The slugs some parameter names. */
  function SlugsOf(prefix: string, params: Params): set<string> {
    set full | full in params && SplitName(prefix, full).Some? :: SplitName(prefix, full).value.slug
  }

  /** fields holds what the parameters among seen say of slug, for every known field. */
  ghost predicate ReadsFields(prefix: string, params: Params, seen: set<string>, slug: string, fields: Params) {
    forall f :: f in FIELDS ==>
      (f in fields <==> Path(prefix, slug) + f in seen && Path(prefix, slug) + f in params) &&
      (f in fields ==> fields[f] == params[Path(prefix, slug) + f])
  }

  lemma ReadsWhole(prefix: string, params: Params, slug: string, fields: Params)
    requires ReadsFields(prefix, params, params.Keys, slug, fields)
    ensures EntryFrom(fields) == EntryAt(prefix, params, slug)
  {
    var at := FieldsAt(prefix, params, slug);
    forall f | f in FIELDS ensures ValueOf(fields, f) == ValueOf(at, f) {}
    SameValues(fields, at);
  }

  lemma SameValues(a: Params, b: Params)
    requires forall f :: f in FIELDS ==> ValueOf(a, f) == ValueOf(b, f)
    ensures EntryFrom(a) == EntryFrom(b)
  {
    assert NAME in FIELDS && GITHUB in FIELDS && EMAILS in FIELDS && K8S in FIELDS;
    assert CLASS in FIELDS && PINNED in FIELDS && APPROVED_BY in FIELDS && APPROVED_AT in FIELDS;
  }

  /** Reading one more parameter of slug. */
  lemma ReadOne(prefix: string, params: Params, seen: set<string>, slug: string, fields: Params, full: string)
    requires ReadsFields(prefix, params, seen, slug, fields) && full in params && full !in seen
    requires SplitName(prefix, full).Some? && SplitName(prefix, full).value.slug == slug
    ensures ReadsFields(prefix, params, seen + {full}, slug, fields[SplitName(prefix, full).value.field := params[full]])
  {
    var key := SplitName(prefix, full).value;
    SplitNameInverse(prefix, full);
    forall f | f in FIELDS && Path(prefix, slug) + f == full ensures f == key.field {
      SamePathField(prefix, slug, f, key.field);
    }
  }

  /** A parameter that is not of slug leaves what was read of it. */
  lemma ReadOther(prefix: string, params: Params, seen: set<string>, slug: string, fields: Params, full: string)
    requires ReadsFields(prefix, params, seen, slug, fields) && IsSegment(slug)
    requires SplitName(prefix, full).None? || SplitName(prefix, full).value.slug != slug
    ensures ReadsFields(prefix, params, seen + {full}, slug, fields)
  {
    forall f | f in FIELDS ensures Path(prefix, slug) + f != full {
      FieldsAreSegments(f);
      SplitNameOf(prefix, slug, f);
    }
  }

  function Group(byPerson: map<string, Params>, slug: string): Params {
    if slug in byPerson then byPerson[slug] else map[]
  }

  /** byPerson holds the fields of every person with a parameter in seen. */
  ghost predicate Gathers(prefix: string, params: Params, seen: set<string>, byPerson: map<string, Params>) {
    && (forall s :: s in byPerson <==>
         exists full :: full in seen && SplitName(prefix, full).Some? && SplitName(prefix, full).value.slug == s)
    && (forall s :: IsSegment(s) ==> ReadsFields(prefix, params, seen, s, Group(byPerson, s)))
  }

  lemma GatherNothing(prefix: string, params: Params, seen: set<string>, byPerson: map<string, Params>, full: string)
    requires Gathers(prefix, params, seen, byPerson) && full in params && SplitName(prefix, full).None?
    ensures Gathers(prefix, params, seen + {full}, byPerson)
  {
    forall s | IsSegment(s) ensures ReadsFields(prefix, params, seen + {full}, s, Group(byPerson, s)) {
      ReadOther(prefix, params, seen, s, Group(byPerson, s), full);
    }
  }

  lemma GatherOne(prefix: string, params: Params, seen: set<string>, byPerson: map<string, Params>, full: string)
    requires Gathers(prefix, params, seen, byPerson) && full in params && full !in seen && SplitName(prefix, full).Some?
    ensures var key := SplitName(prefix, full).value;
      Gathers(prefix, params, seen + {full}, byPerson[key.slug := Group(byPerson, key.slug)[key.field := params[full]]])
  {
    var key := SplitName(prefix, full).value;
    var after := byPerson[key.slug := Group(byPerson, key.slug)[key.field := params[full]]];
    SplitNameInverse(prefix, full);
    assert full in seen + {full};
    forall s | IsSegment(s) ensures ReadsFields(prefix, params, seen + {full}, s, Group(after, s)) {
      if s == key.slug {
        ReadOne(prefix, params, seen, s, Group(byPerson, s), full);
      } else {
        ReadOther(prefix, params, seen, s, Group(byPerson, s), full);
      }
    }
  }

  /** What is gathered from all the parameters describes the people in them. */
  lemma GatheredPeople(prefix: string, params: Params, byPerson: map<string, Params>)
    requires Gathers(prefix, params, params.Keys, byPerson)
    ensures (map s | s in byPerson :: EntryFrom(byPerson[s])) == PeopleIn(prefix, params)
  {
    assert byPerson.Keys == SlugsOf(prefix, params);
    forall s | s in byPerson ensures EntryFrom(byPerson[s]) == EntryAt(prefix, params, s) {
      var full :| full in params.Keys && SplitName(prefix, full).Some? && SplitName(prefix, full).value.slug == s;
      SplitNameInverse(prefix, full);
      assert Group(byPerson, s) == byPerson[s];
      ReadsWhole(prefix, params, s, byPerson[s]);
    }
  }

  /** all holds the entry of each person once, in the order of slugs. */
  ghost predicate ListedAs(people: map<string, Entry>, slugs: seq<string>, all: seq<Entry>) {
    && NoDup(slugs) && |slugs| == |all|
    && forall i :: 0 <= i < |slugs| ==> slugs[i] in people && people[slugs[i]] == all[i]
  }

  /** all holds the entry of each person once, in some order. */
  ghost predicate OnceEach(people: map<string, Entry>, all: seq<Entry>) {
    exists slugs :: ListedAs(people, slugs, all) && forall s :: s in slugs <==> s in people
  }

  /** The people the parameters under the prefix describe. */
  ghost function PeopleIn(prefix: string, params: Params): map<string, Entry> {
    map s | s in SlugsOf(prefix, params) :: EntryAt(prefix, params, s)
  }

  lemma OnceEachElements(people: map<string, Entry>, all: seq<Entry>)
    requires OnceEach(people, all)
    ensures forall e :: e in all <==> exists s :: s in people && people[s] == e
  {
    var slugs :| ListedAs(people, slugs, all) && forall s :: s in slugs <==> s in people;
    forall s | s in people ensures people[s] in all {
      var i :| 0 <= i < |slugs| && slugs[i] == s;
      assert all[i] == people[s];
    }
    forall e | e in all ensures exists s :: s in people && people[s] == e {
      var i :| 0 <= i < |all| && all[i] == e;
      assert people[slugs[i]] == e;
    }
  }

  /** The values of a map, in arbitrary order. */
  method ListPeople(people: map<string, Entry>) returns (all: seq<Entry>)
    ensures OnceEach(people, all)
  {
    all := [];
    ghost var slugs: seq<string> := [];
    var todo := people.Keys;
    while todo != {}
      invariant todo <= people.Keys
      invariant ListedAs(people, slugs, all) && forall s :: s in slugs <==> s in people.Keys - todo
    {
      var s :| s in todo;
      todo := todo - {s};
      NoDupSnoc(slugs, s);
      slugs := slugs + [s];
      all := all + [people[s]];
    }
  }

  class Store {
    const prefix: string
    var params: Params
    /** The people the store holds, by slug, as they read back. */
    ghost var last: map<string, Entry>
    /** Slugs whose latest write stopped midway. */
    ghost var dirty: set<string>

    ghost predicate Valid()
      reads this
    {
      Consistent(prefix, params, last, dirty)
    }

    constructor (prefix: string, params: Params)
      requires forall full :: full in params ==> !(prefix <= full)
      ensures Valid() && this.prefix == prefix && this.params == params && last == map[] && dirty == {}
    {
      this.prefix, this.params := prefix, params;
      last, dirty := map[], {};
      new;
      forall s, f | IsSegment(s) && f in FIELDS ensures Path(prefix, s) + f !in params {
        assert prefix <= Path(prefix, s) + f;
      }
    }

    /** A call may fail, with or without having taken effect. */
    method PutParameter(name: string, value: string) returns (ok: bool)
      modifies this`params
      ensures params == old(params)[name := value] || (!ok && params == old(params))
    {
      ok := *;
      var lost: bool := *;
      if ok || !lost {
        params := params[name := value];
      }
    }

    /** Deleting an absent parameter succeeds. */
    method DeleteParameter(name: string) returns (ok: bool)
      modifies this`params
      ensures params == old(params) - {name} || (!ok && params == old(params))
    {
      ok := *;
      var lost: bool := *;
      if ok || !lost {
        params := params - {name};
      }
    }

    /** Reads the parameters under one path, in arbitrary order. */
    method ReadPath(slug: string) returns (found: bool, fields: Params)
      requires '/' !in slug
      ensures found <==> exists full :: full in params && Path(prefix, slug) <= full
      ensures slug != "" ==> ReadsFields(prefix, params, params.Keys, slug, fields)
    {
      var todo := params.Keys;
      found, fields := false, map[];
      while todo != {}
        invariant todo <= params.Keys
        invariant found <==> exists full :: full in params.Keys - todo && Path(prefix, slug) <= full
        invariant slug != "" ==> ReadsFields(prefix, params, params.Keys - todo, slug, fields)
      {
        var full :| full in todo;
        ghost var seen := params.Keys - todo;
        todo := todo - {full};
        assert params.Keys - todo == seen + {full};
        if slug != "" {
          ReadStep(prefix, params, seen, slug, fields, full);
        }
        if Path(prefix, slug) <= full {
          found := true;
          var key := SplitName(prefix, full);
          if key.Some? {
            fields := fields[key.value.field := params[full]];
          }
        }
      }
      assert params.Keys - todo == params.Keys;
    }

    /** Reads one entry. A clean slug reads as last written, or as absent. */
    method Get(name: string) returns (r: Option<Entry>)
      requires Valid()
      ensures Slug(name) != "" && Slug(name) !in dirty ==>
        r == if Slug(name) in last then Some(last[Slug(name)]) else None
    {
      SlugHasNoSlash(name);
      var found, fields := ReadPath(Slug(name));
      if Slug(name) != "" {
        ReadsWhole(prefix, params, Slug(name), fields);
        if Slug(name) !in dirty {
          FoundIff(prefix, params, last, dirty, Slug(name));
        }
      }
      r := if found then Some(EntryFrom(fields)) else None;
    }

    /** Every person with a parameter, half-written ones included. */
    method List() returns (all: seq<Entry>)
      ensures OnceEach(PeopleIn(prefix, params), all)
    {
      var byPerson := Collect();
      var people := map s | s in byPerson :: EntryFrom(byPerson[s]);
      GatheredPeople(prefix, params, byPerson);
      all := ListPeople(people);
    }

    /** Groups the parameters by person, in arbitrary order. */
    method Collect() returns (byPerson: map<string, Params>)
      ensures Gathers(prefix, params, params.Keys, byPerson)
    {
      byPerson := map[];
      var todo := params.Keys;
      while todo != {}
        invariant todo <= params.Keys
        invariant Gathers(prefix, params, params.Keys - todo, byPerson)
      {
        var full :| full in todo;
        ghost var seen := params.Keys - todo;
        todo := todo - {full};
        assert params.Keys - todo == seen + {full};
        var key := SplitName(prefix, full);
        if key.None? {
          GatherNothing(prefix, params, seen, byPerson, full);
        } else {
          GatherOne(prefix, params, seen, byPerson, full);
          var fields := if key.value.slug in byPerson then byPerson[key.value.slug] else map[];
          byPerson := byPerson[key.value.slug := fields[key.value.field := params[full]]];
        }
      }
      assert params.Keys - todo == params.Keys;
    }

    /** Writes the non-empty fields, in arbitrary order, stopping at a failure. */
    method WriteFields(slug: string, e: Entry) returns (ok: bool)
      requires '/' !in slug
      modifies this`params
      ensures OnlyTouches(prefix, slug, old(params), params)
      ensures Partly(prefix, slug, e, old(params), params)
      ensures ok ==> forall f :: f in FIELDS && Writes(e, f) ==>
        Path(prefix, slug) + f in params && params[Path(prefix, slug) + f] == FieldText(e, f)
    {
      var values := ValuesOf(e);
      var todo := values.Keys;
      while todo != {}
        invariant todo <= values.Keys
        invariant OnlyTouches(prefix, slug, old(params), params)
        invariant Partly(prefix, slug, e, old(params), params)
        invariant forall f :: f in values.Keys - todo ==>
          Path(prefix, slug) + f in params && params[Path(prefix, slug) + f] == values[f]
      {
        var f :| f in todo;
        todo := todo - {f};
        ghost var before := params;
        ok := PutParameter(Path(prefix, slug) + f, values[f]);
        TouchOne(prefix, slug, old(params), before, params, f);
        PartlyOne(prefix, slug, e, old(params), before, params, f);
        forall g | g in values.Keys && Path(prefix, slug) + g == Path(prefix, slug) + f ensures g == f {
          SamePathField(prefix, slug, g, f);
        }
        if !ok {
          return;
        }
      }
      ok := true;
    }

    /** Removes the clearable fields the entry leaves empty, in order, stopping at a failure. */
    method ClearFields(slug: string, e: Entry) returns (ok: bool)
      requires '/' !in slug
      modifies this`params
      ensures OnlyTouches(prefix, slug, old(params), params)
      ensures Partly(prefix, slug, e, old(params), params)
      ensures ok ==> forall f :: f in FIELDS && !Writes(e, f) ==> Path(prefix, slug) + f !in params
      ensures forall f :: f in FIELDS && Writes(e, f) && Path(prefix, slug) + f in old(params) ==>
        Path(prefix, slug) + f in params && params[Path(prefix, slug) + f] == old(params)[Path(prefix, slug) + f]
    {
      for i := 0 to |CLEARABLE|
        invariant OnlyTouches(prefix, slug, old(params), params)
        invariant Partly(prefix, slug, e, old(params), params)
        invariant forall j :: 0 <= j < i && !Writes(e, CLEARABLE[j]) ==> Path(prefix, slug) + CLEARABLE[j] !in params
        invariant forall f :: f in FIELDS && Writes(e, f) && Path(prefix, slug) + f in old(params) ==>
          Path(prefix, slug) + f in params && params[Path(prefix, slug) + f] == old(params)[Path(prefix, slug) + f]
      {
        var field := CLEARABLE[i];
        if Writes(e, field) {
          continue;
        }
        ghost var before := params;
        ok := DeleteParameter(Path(prefix, slug) + field);
        assert field in FIELDS;
        TouchOne(prefix, slug, old(params), before, params, field);
        PartlyOne(prefix, slug, e, old(params), before, params, field);
        forall g | g in FIELDS && Path(prefix, slug) + g == Path(prefix, slug) + field ensures g == field {
          SamePathField(prefix, slug, g, field);
        }
        if !ok {
          return;
        }
      }
      ok := true;
      forall f | f in FIELDS && !Writes(e, f) ensures Path(prefix, slug) + f !in params {
        UnwrittenIsClearable(e, f);
        var j :| 0 <= j < |CLEARABLE| && CLEARABLE[j] == f;
      }
    }

    /** Writes an entry after checking it against everything stored. */
    method Put(e: Entry) returns (r: PutResult)
      requires Valid()
      modifies this
      ensures Valid()
      ensures OnlyTouches(prefix, Slug(e.name), old(params), params)
      ensures Partly(prefix, Slug(e.name), e, old(params), params)
      ensures r.Stored? && Slug(e.name) != "" ==> last == old(last)[Slug(e.name) := Reread(e)] && dirty == old(dirty) - {Slug(e.name)}
      ensures r.Stored? && Slug(e.name) == "" ==> last == old(last) && dirty == old(dirty)
      ensures r.RefusedFor? ==> params == old(params) && last == old(last) && dirty == old(dirty)
      ensures r.Failed? ==>
        (last == old(last) && dirty == old(dirty)) ||
        (last == old(last) - {Slug(e.name)} && dirty == old(dirty) + {Slug(e.name)})
      ensures old(dirty) == {} && Slug(e.name) != "" && !r.Failed? ==>
        r == match RefusesBySlug(old(last), e) case Some(reason) => RefusedFor(reason) case None => Stored
    {
      var slug := Slug(e.name);
      SlugHasNoSlash(e.name);
      var unreadable: bool := *;
      if unreadable {
        return Failed;
      }
      var found := Get(e.name);
      var existing := if found.Some? then found.value else ZERO;
      var all := List();
      var refused := CheckInvariants(e, existing, all);
      if dirty == {} && slug != "" {
        CleanPeople(prefix, params, last);
        OnceEachElements(last, all);
        CheckedBySlug(last, e, all);
      }
      if refused.Some? {
        return RefusedFor(refused.value);
      }
      ghost var before := params;
      var ok := WriteFields(slug, e);
      if ok {
        ghost var written := params;
        ok := ClearFields(slug, e);
        PartlyTwice(prefix, slug, e, before, written, params);
      }
      TouchConsistent(prefix, slug, before, params, last, dirty);
      if !ok {
        last, dirty := last - {slug}, dirty + {slug};
        return Failed;
      }
      PutConsistent(prefix, slug, e, params, last, dirty);
      if slug != "" {
        last, dirty := last[slug := Reread(e)], dirty - {slug};
      }
      r := Stored;
    }

    /** Removes every field of a person, stopping at a failure. */
    method Delete(name: string) returns (ok: bool)
      requires Valid()
      modifies this
      ensures Valid()
      ensures OnlyTouches(prefix, Slug(name), old(params), params)
      ensures exists n: nat :: n <= |FIELDS| && Emptied(prefix, Slug(name), old(params), params, n)
      ensures ok ==> last == old(last) - {Slug(name)} && dirty == old(dirty) - {Slug(name)}
      ensures !ok ==> last == old(last) - {Slug(name)} && dirty == old(dirty) + {Slug(name)}
    {
      var slug := Slug(name);
      SlugHasNoSlash(name);
      for i := 0 to |FIELDS|
        invariant last == old(last) && dirty == old(dirty)
        invariant OnlyTouches(prefix, slug, old(params), params)
        invariant Emptied(prefix, slug, old(params), params, i)
      {
        ghost var before := params;
        ok := DeleteParameter(Path(prefix, slug) + FIELDS[i]);
        assert FIELDS[i] in FIELDS;
        EmptiedOne(prefix, slug, old(params), before, params, i);
        TouchOne(prefix, slug, old(params), before, params, FIELDS[i]);
        if !ok {
          TouchConsistent(prefix, slug, old(params), params, last, dirty);
          last, dirty := last - {slug}, dirty + {slug};
          return;
        }
      }
      ok := true;
      assert Emptied(prefix, slug, old(params), params, |FIELDS|);
      TouchConsistent(prefix, slug, old(params), params, last, dirty);
      DeleteConsistent(prefix, slug, params, last, dirty);
      last, dirty := last - {slug}, dirty - {slug};
    }
  }

  lemma UnwrittenIsClearable(e: Entry, f: string)
    requires f in FIELDS && !Writes(e, f)
    ensures f in CLEARABLE
  {
  }

  /** Touching one more field of slug. */
  lemma TouchOne(prefix: string, slug: string, start: Params, before: Params, after: Params, f: string)
    requires OnlyTouches(prefix, slug, start, before) && f in FIELDS
    requires forall full :: full != Path(prefix, slug) + f ==>
      (full in before <==> full in after) && (full in before ==> after[full] == before[full])
    ensures OnlyTouches(prefix, slug, start, after)
  {
    assert IsOf(prefix, slug, Path(prefix, slug) + f);
  }

  /** Writing or clearing one more field of slug as the entry has it. */
  lemma PartlyOne(prefix: string, slug: string, e: Entry, start: Params, before: Params, after: Params, f: string)
    requires Partly(prefix, slug, e, start, before) && f in FIELDS
    requires after == before || (if Writes(e, f) then after == before[Path(prefix, slug) + f := FieldText(e, f)]
      else after == before - {Path(prefix, slug) + f})
    ensures Partly(prefix, slug, e, start, after)
  {
    forall g | g in FIELDS && g != f ensures Path(prefix, slug) + g != Path(prefix, slug) + f {
      if Path(prefix, slug) + g == Path(prefix, slug) + f {
        SamePathField(prefix, slug, g, f);
      }
    }
  }

  lemma PartlyTwice(prefix: string, slug: string, e: Entry, start: Params, before: Params, after: Params)
    requires Partly(prefix, slug, e, start, before) && Partly(prefix, slug, e, before, after)
    ensures Partly(prefix, slug, e, start, after)
  {
  }

  /** Deleting one more field of slug, or failing to. */
  lemma EmptiedOne(prefix: string, slug: string, start: Params, before: Params, after: Params, i: nat)
    requires i < |FIELDS| && Emptied(prefix, slug, start, before, i)
    requires after == before || after == before - {Path(prefix, slug) + FIELDS[i]}
    ensures Emptied(prefix, slug, start, after, i) || Emptied(prefix, slug, start, after, i + 1)
    ensures after == before - {Path(prefix, slug) + FIELDS[i]} ==> Emptied(prefix, slug, start, after, i + 1)
  {
    forall j | 0 <= j < |FIELDS| && j != i ensures Path(prefix, slug) + FIELDS[j] != Path(prefix, slug) + FIELDS[i] {
      if Path(prefix, slug) + FIELDS[j] == Path(prefix, slug) + FIELDS[i] {
        SamePathField(prefix, slug, FIELDS[j], FIELDS[i]);
        FieldsApart(i, j);
      }
    }
  }

  lemma FieldsApart(i: nat, j: nat)
    requires i < |FIELDS| && j < |FIELDS| && FIELDS[i] == FIELDS[j]
    ensures i == j
  {
  }

  /** Whether a write under slug is refused by a clean store. */
  function RefusesAt(last: map<string, Entry>, slug: string, e: Entry): Option<StoreError> {
    var existing := if slug in last then last[slug] else ZERO;
    if !ValidEntry(e) then Some(Invalid)
    else if existing.k8s != "" && e.k8s != existing.k8s then Some(Immutable)
    else if exists s :: s in last && Conflict(e, last[s]) then Some(Duplicate)
    else None
  }

  function RefusesBySlug(last: map<string, Entry>, e: Entry): Option<StoreError> {
    RefusesAt(last, Slug(e.name), e)
  }

  lemma CheckedBySlug(last: map<string, Entry>, e: Entry, all: seq<Entry>)
    requires forall x :: x in all <==> exists s :: s in last && last[s] == x
    ensures CheckInvariants(e, if Slug(e.name) in last then last[Slug(e.name)] else ZERO, all) == RefusesBySlug(last, e)
  {
    if exists s :: s in last && Conflict(e, last[s]) {
      var s :| s in last && Conflict(e, last[s]);
      assert last[s] in all;
    }
  }

  lemma CleanSlug(prefix: string, params: Params, last: map<string, Entry>, slug: string)
    requires Consistent(prefix, params, last, {})
    ensures slug in SlugsOf(prefix, params) <==> slug in last
  {
    if slug in last {
      FieldsAreSegments(NAME);
      SplitNameOf(prefix, slug, NAME);
    }
    if slug in SlugsOf(prefix, params) {
      var full :| full in params && SplitName(prefix, full).Some? && SplitName(prefix, full).value.slug == slug;
      SplitNameInverse(prefix, full);
      assert Path(prefix, slug) <= full;
      FoundIff(prefix, params, last, {}, slug);
    }
  }

  /** A clean store's parameters describe exactly the people it holds. */
  lemma CleanPeople(prefix: string, params: Params, last: map<string, Entry>)
    requires Consistent(prefix, params, last, {})
    ensures PeopleIn(prefix, params) == last
  {
    forall s {
      CleanSlug(prefix, params, last, s);
    }
    ThesePeople(prefix, params, last);
  }

  lemma ThesePeople(prefix: string, params: Params, last: map<string, Entry>)
    requires forall s :: s in SlugsOf(prefix, params) <==> s in last
    requires forall s :: s in last ==> EntryAt(prefix, params, s) == last[s]
    ensures PeopleIn(prefix, params) == last
  {
    var slugs, people := SlugsOf(prefix, params), PeopleIn(prefix, params);
    assert people.Keys == slugs == last.Keys;
  }

  /** A create interrupted after its first write is listed, with an empty login. */
  lemma HalfWrittenIsListed(prefix: string, slug: string, name: string)
    requires IsSegment(slug)
    ensures var params := map[Path(prefix, slug) + NAME := name];
      && slug in PeopleIn(prefix, params)
      && PeopleIn(prefix, params)[slug].name == name && PeopleIn(prefix, params)[slug].github == ""
  {
    var params := map[Path(prefix, slug) + NAME := name];
    FieldsAreSegments(NAME);
    SplitNameOf(prefix, slug, NAME);
    assert Path(prefix, slug) + NAME in params;
    assert Path(prefix, slug) + GITHUB !in params by {
      if Path(prefix, slug) + GITHUB == Path(prefix, slug) + NAME {
        SamePathField(prefix, slug, GITHUB, NAME);
      }
    }
    var fields := FieldsAt(prefix, params, slug);
    assert NAME in fields && GITHUB !in fields;
  }

  // ----- trying again after an interruption -----

  /** The parameters of slug are some of the fields the entry is written as: what an
      interrupted create or delete of it leaves. */
  ghost predicate HoldsPart(prefix: string, params: Params, slug: string, e: Entry, part: set<string>) {
    && part <= ValuesOf(e).Keys
    && FieldsAt(prefix, params, slug) == map f | f in part :: ValuesOf(e)[f]
  }

  /** What part of an entry reads as. */
  lemma PartReads(prefix: string, params: Params, slug: string, e: Entry, part: set<string>)
    requires HoldsPart(prefix, params, slug, e, part) && CommaFree(e) && ValidEntry(e)
    ensures var read := EntryAt(prefix, params, slug);
      && read.name == (if NAME in part then e.name else "")
      && read.github == (if GITHUB in part then e.github else "")
      && read.k8s == (if K8S in part then e.k8s else "")
      && read.emails == (if EMAILS in part then e.emails else [])
  {
    RereadIff(e);
    RereadFields(e);
  }

  /** What is left of an entry clashes with the whole of it: its name is gone, and its
      login, an address or its abbreviation is there. */
  predicate ClashesWithItself(part: set<string>) {
    NAME !in part && (GITHUB in part || EMAILS in part || K8S in part)
  }

  lemma ClashOfPart(e: Entry, read: Entry, part: set<string>)
    requires e.name != "" && e.github != "" && (K8S in part ==> e.k8s != "") && (EMAILS in part ==> e.emails != [])
    requires read.name == (if NAME in part then e.name else "") && read.github == (if GITHUB in part then e.github else "")
    requires read.k8s == (if K8S in part then e.k8s else "") && read.emails == (if EMAILS in part then e.emails else [])
    ensures Conflict(e, read) <==> ClashesWithItself(part)
  {
    LowerEmpty(e.github);
    LowerEmpty(e.k8s);
    assert Lower("") == "";
    if EMAILS in part {
      assert e.emails[0] in e.emails && EqualFold(e.emails[0], e.emails[0]);
    }
  }

  lemma SelfConflict(prefix: string, params: Params, slug: string, e: Entry, part: set<string>)
    requires HoldsPart(prefix, params, slug, e, part) && CommaFree(e) && ValidEntry(e)
    ensures Conflict(e, EntryAt(prefix, params, slug)) <==> ClashesWithItself(part)
  {
    PartReads(prefix, params, slug, e, part);
    assert TrimSpace("") == "";
    PartIsWritten(e, part);
    ClashOfPart(e, EntryAt(prefix, params, slug), part);
  }

  lemma PartIsWritten(e: Entry, part: set<string>)
    requires part <= ValuesOf(e).Keys
    ensures (K8S in part ==> e.k8s != "") && (EMAILS in part ==> e.emails != [])
  {
    assert K8S in part ==> Writes(e, K8S);
    assert EMAILS in part ==> Writes(e, EMAILS);
  }

  /** Somebody else the parameters describe clashes with the entry. */
  ghost predicate OthersClash(prefix: string, params: Params, slug: string, e: Entry) {
    exists s :: s in PeopleIn(prefix, params) && s != slug && Conflict(e, PeopleIn(prefix, params)[s])
  }

  lemma PartIsListed(prefix: string, params: Params, slug: string, e: Entry, part: set<string>)
    requires HoldsPart(prefix, params, slug, e, part) && IsSegment(slug) && part != {}
    ensures slug in PeopleIn(prefix, params) && PeopleIn(prefix, params)[slug] == EntryAt(prefix, params, slug)
  {
    var f :| f in part;
    assert f in FieldsAt(prefix, params, slug);
    FieldsAreSegments(f);
    SplitNameOf(prefix, slug, f);
  }

  /** The same entry put again over what an interruption left of it is refused exactly
      when somebody else clashes with it, or it clashes with what is left of itself. */
  lemma RetryIff(prefix: string, params: Params, slug: string, e: Entry, part: set<string>, existing: Entry, all: seq<Entry>)
    requires HoldsPart(prefix, params, slug, e, part) && IsSegment(slug) && CommaFree(e) && ValidEntry(e)
    requires existing == EntryAt(prefix, params, slug) || (part == {} && existing == ZERO)
    requires OnceEach(PeopleIn(prefix, params), all)
    ensures CheckInvariants(e, existing, all) ==
      if OthersClash(prefix, params, slug, e) || ClashesWithItself(part) then Some(Duplicate) else None
  {
    var people := PeopleIn(prefix, params);
    OnceEachElements(people, all);
    PartReads(prefix, params, slug, e, part);
    SelfConflict(prefix, params, slug, e, part);
    if part != {} {
      PartIsListed(prefix, params, slug, e, part);
    }
    if s :| s in people && s != slug && Conflict(e, people[s]) {
      assert people[s] in all;
    }
    if slug in people && Conflict(e, people[slug]) {
      assert people[slug] in all;
    }
  }

  const PLAIN := Entry("a", "a", [], "", CLASS_EMPLOYEE, [], "", "", "")

  /** For example: a create that wrote the login and then failed is refused when put
      again, though there is nobody else. */
  lemma RetryRefusedExample(prefix: string, all: seq<Entry>)
    requires OnceEach(PeopleIn(prefix, map[Path(prefix, "a") + GITHUB := "a"]), all)
    ensures var params := map[Path(prefix, "a") + GITHUB := "a"];
      CheckInvariants(PLAIN, EntryAt(prefix, params, "a"), all) == Some(Duplicate)
  {
    var params := map[Path(prefix, "a") + GITHUB := "a"];
    LoginAlone(prefix);
    PlainIsValid();
    assert IsSegment("a");
    RetryIff(prefix, params, "a", PLAIN, {GITHUB}, EntryAt(prefix, params, "a"), all);
  }

  lemma PlainIsValid()
    ensures ValidEntry(PLAIN) && CommaFree(PLAIN)
  {
    assert TrimSpace("a") == "a";
  }

  lemma LoginAlone(prefix: string)
    ensures HoldsPart(prefix, map[Path(prefix, "a") + GITHUB := "a"], "a", PLAIN, {GITHUB})
  {
    var params := map[Path(prefix, "a") + GITHUB := "a"];
    assert GITHUB in FIELDS && Writes(PLAIN, GITHUB) && ValuesOf(PLAIN)[GITHUB] == "a";
    forall f | f in FIELDS && Path(prefix, "a") + f in params ensures f == GITHUB {
      SamePathField(prefix, "a", f, GITHUB);
    }
    assert Path(prefix, "a") + GITHUB in params;
  }

  /** A create that stopped anywhere leaves part of the entry. */
  lemma CreateLeavesPart(prefix: string, slug: string, e: Entry, before: Params, after: Params)
    requires Partly(prefix, slug, e, before, after) && FieldsAt(prefix, before, slug) == map[]
    ensures HoldsPart(prefix, after, slug, e, FieldsAt(prefix, after, slug).Keys)
  {
    var read := FieldsAt(prefix, after, slug);
    assert forall f :: f in FIELDS ==> (f in FieldsAt(prefix, before, slug) <==> Path(prefix, slug) + f in before);
    forall f | f in read ensures f in ValuesOf(e) && read[f] == ValuesOf(e)[f] {
      assert !SameField(prefix, slug, before, after, f);
    }
  }

  /** The fields a delete has still to remove after n. */
  function Undeleted(part: set<string>, n: nat): set<string>
    requires n <= |FIELDS|
  {
    set f | f in part && f !in FIELDS[..n]
  }

  /** So does a delete that stopped after n fields. */
  lemma DeleteLeavesPart(prefix: string, slug: string, e: Entry, part: set<string>, before: Params, after: Params, n: nat)
    requires HoldsPart(prefix, before, slug, e, part) && n <= |FIELDS| && Emptied(prefix, slug, before, after, n)
    ensures HoldsPart(prefix, after, slug, e, Undeleted(part, n))
  {
    var was, read := FieldsAt(prefix, before, slug), FieldsAt(prefix, after, slug);
    forall f | f in FIELDS
      ensures f in read <==> f in was && f !in FIELDS[..n]
      ensures f in read ==> read[f] == was[f]
    {
      var j :| 0 <= j < |FIELDS| && FIELDS[j] == f;
      assert f in FIELDS[..n] <==> j < n by {
        if f in FIELDS[..n] {
          var i :| 0 <= i < n && FIELDS[i] == f;
          FieldsApart(i, j);
        }
      }
    }
  }

  /** Deleting removes the name first, so that the entry cannot be put again until the
      login and whatever else it must not share are gone as well. */
  lemma DeletedClashIff(e: Entry, n: nat)
    requires n <= |FIELDS|
    ensures ClashesWithItself(Undeleted(ValuesOf(e).Keys, n)) <==>
      n == 1 || (n == 2 && (e.emails != [] || e.k8s != "")) || (n == 3 && e.k8s != "")
  {
    assert FIELDS[0] == NAME && FIELDS[1] == GITHUB && FIELDS[2] == EMAILS && FIELDS[3] == K8S;
    NameIsWritten(e);
    GoneIff(NAME, 0, n);
    GoneIff(GITHUB, 1, n);
    GoneIff(EMAILS, 2, n);
    GoneIff(K8S, 3, n);
    assert forall i :: 0 <= i < |CLEARABLE| ==> CLEARABLE[i] != GITHUB;
    assert Writes(e, GITHUB) && (Writes(e, EMAILS) <==> e.emails != []) && (Writes(e, K8S) <==> e.k8s != "");
  }

  lemma GoneIff(f: string, j: nat, n: nat)
    requires j < |FIELDS| && FIELDS[j] == f && n <= |FIELDS|
    ensures f in FIELDS[..n] <==> j < n
  {
    if f in FIELDS[..n] {
      var i :| 0 <= i < n && FIELDS[i] == f;
      FieldsApart(i, j);
    }
    if j < n {
      assert FIELDS[..n][j] == f;
    }
  }

  /** An update that stopped anywhere can always be put again, unless somebody else
      clashes with it: the name is there throughout. */
  lemma UpdateRetries(prefix: string, slug: string, e: Entry, before: Params, after: Params, all: seq<Entry>)
    requires Partly(prefix, slug, e, before, after) && IsSegment(slug) && ValidEntry(e)
    requires Path(prefix, slug) + NAME in before && EntryAt(prefix, before, slug).name == e.name
    requires EntryAt(prefix, before, slug).k8s in {"", e.k8s} && OnceEach(PeopleIn(prefix, after), all)
    ensures CheckInvariants(e, EntryAt(prefix, after, slug), all) ==
      if OthersClash(prefix, after, slug, e) then Some(Duplicate) else None
  {
    var people := PeopleIn(prefix, after);
    OnceEachElements(people, all);
    NameIsWritten(e);
    KeptOrWritten(prefix, slug, e, before, after, NAME);
    KeptOrWritten(prefix, slug, e, before, after, K8S);
    if s :| s in people && s != slug && Conflict(e, people[s]) {
      assert people[s] in all;
    }
  }

  lemma KeptOrWritten(prefix: string, slug: string, e: Entry, before: Params, after: Params, f: string)
    requires Partly(prefix, slug, e, before, after) && f in FIELDS
    ensures ValueOf(FieldsAt(prefix, after, slug), f) in {ValueOf(FieldsAt(prefix, before, slug), f), FieldText(e, f)}
  {
    assert Writes(e, f) || FieldText(e, f) == "";
  }

  /** One parameter under the path, or not. */
  lemma ReadStep(prefix: string, params: Params, seen: set<string>, slug: string, fields: Params, full: string)
    requires ReadsFields(prefix, params, seen, slug, fields) && full in params && full !in seen && IsSegment(slug)
    ensures ReadsFields(prefix, params, seen + {full}, slug,
      if Path(prefix, slug) <= full && SplitName(prefix, full).Some?
      then fields[SplitName(prefix, full).value.field := params[full]] else fields)
  {
    if Path(prefix, slug) <= full && SplitName(prefix, full).Some? {
      SplitNameInverse(prefix, full);
      UnderPath(prefix, slug, SplitName(prefix, full).value.slug, SplitName(prefix, full).value.field);
      ReadOne(prefix, params, seen, slug, fields, full);
    } else {
      if !(Path(prefix, slug) <= full) {
        NotUnder(prefix, slug, full);
      }
      ReadOther(prefix, params, seen, slug, fields, full);
    }
  }

  lemma NotUnder(prefix: string, slug: string, full: string)
    requires !(Path(prefix, slug) <= full)
    ensures SplitName(prefix, full).None? || SplitName(prefix, full).value.slug != slug
  {
    if SplitName(prefix, full).Some? {
      SplitNameInverse(prefix, full);
    }
  }

  /** A clean slug has parameters exactly when the store holds that person. */
  lemma FoundIff(prefix: string, params: Params, last: map<string, Entry>, dirty: set<string>, slug: string)
    requires Consistent(prefix, params, last, dirty) && IsSegment(slug) && slug !in dirty
    ensures slug in last <==> exists full :: full in params && Path(prefix, slug) <= full
  {
    if slug in last {
      assert Path(prefix, slug) <= Path(prefix, slug) + NAME;
    }
    forall full | full in params && Path(prefix, slug) <= full ensures slug in last {
      assert prefix <= Path(prefix, slug);
      var s :| '/' !in s && IsOf(prefix, s, full);
      var f :| f in FIELDS && full == Path(prefix, s) + f;
      UnderPath(prefix, slug, s, f);
    }
  }
}
