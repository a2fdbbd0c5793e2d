/** The mapping store over flat parameters, one per field of a person
    (pkg/mapping/ssm.go). */
module Ssm {
  import opened Text
  import opened Indexing
  import opened Strings
  import opened Mapping

  type Params = map<string, string>

  const NAME := "name"
  const GITHUB := "github"
  const EMAILS := "emails"
  const K8S := "k8s"
  const CLASS := "class"
  const PINNED := "pinned"
  const APPROVED_BY := "approvedBy"
  const APPROVED_AT := "approvedAt"

  const FIELDS := [NAME, GITHUB, EMAILS, K8S, CLASS, PINNED, APPROVED_BY, APPROVED_AT]
  const CLEARABLE := [K8S, EMAILS, PINNED, APPROVED_BY, APPROVED_AT]

  // ----- paths -----

  /** Runs of anything but lowercase letters and digits become one dash. */
  function Dashed(s: string, afterDash: bool): string {
    if s == "" then ""
    else if IsLowerAlnum(s[0]) then [s[0]] + Dashed(s[1..], false)
    else (if afterDash then "" else "-") + Dashed(s[1..], true)
  }

  function TrimDashLeft(s: string): string {
    if s != "" && s[0] == '-' then TrimDashLeft(s[1..]) else s
  }

  function TrimDashRight(s: string): string {
    if s != "" && s[|s| - 1] == '-' then TrimDashRight(s[..|s| - 1]) else s
  }

  /** The path segment of a person. */
  function Slug(name: string): string {
    TrimDashRight(TrimDashLeft(Dashed(Lower(name), false)))
  }

  lemma {:induction false} DashedHasNoSlash(s: string, afterDash: bool)
    ensures '/' !in Dashed(s, afterDash)
  {
    if s != "" {
      DashedHasNoSlash(s[1..], false);
      DashedHasNoSlash(s[1..], true);
    }
  }

  lemma {:induction false} TrimDashHasNoSlash(s: string)
    requires '/' !in s
    ensures '/' !in TrimDashLeft(s) && '/' !in TrimDashRight(s)
    decreases |s|
  {
    if s != "" {
      TrimDashHasNoSlash(s[1..]);
      TrimDashHasNoSlash(s[..|s| - 1]);
    }
  }

  lemma SlugHasNoSlash(name: string)
    ensures '/' !in Slug(name)
  {
    DashedHasNoSlash(Lower(name), false);
    TrimDashHasNoSlash(Dashed(Lower(name), false));
    TrimDashHasNoSlash(TrimDashLeft(Dashed(Lower(name), false)));
  }

  /** The words of a text: its runs of lowercase letters and digits. */
  function Words(s: string): (r: seq<string>)
    ensures s != "" && IsLowerAlnum(s[0]) ==> r != []
  {
    if s == "" then []
    else if !IsLowerAlnum(s[0]) then Words(s[1..])
    else if |s| > 1 && IsLowerAlnum(s[1]) then [[s[0]] + Words(s[1..])[0]] + Words(s[1..])[1..]
    else [[s[0]]] + Words(s[1..])
  }

  predicate IsWord(w: string) {
    w != "" && forall i :: 0 <= i < |w| ==> IsLowerAlnum(w[i])
  }

  lemma {:induction false} WordsAreWords(s: string)
    ensures forall w :: w in Words(s) ==> IsWord(w)
  {
    if s != "" {
      WordsAreWords(s[1..]);
      if IsLowerAlnum(s[0]) && |s| > 1 && IsLowerAlnum(s[1]) {
        var rest := Words(s[1..]);
        assert rest[0] in rest;
        assert forall w :: w in Words(s) ==> w == [s[0]] + rest[0] || w in rest[1..];
      }
    }
  }

  lemma {:induction false} JoinedEnds(words: seq<string>)
    requires words != [] && forall w :: w in words ==> IsWord(w)
    ensures var j := Join(words, '-'); j != "" && IsLowerAlnum(j[0]) && IsLowerAlnum(j[|j| - 1])
  {
    assert words[0] in words;
    if |words| > 1 {
      JoinedEnds(words[1..]);
    }
  }

  /** Dashed text is its words joined, with a dash where it trails off. */
  lemma {:induction false} DashedIs(s: string)
    ensures Dashed(s, true) == Join(Words(s), '-') + Trail(s, Words(s))
  {
    if s != "" {
      DashedIs(s[1..]);
      if IsLowerAlnum(s[0]) && |s| > 1 {
        WordJoins(s);
      } else if |s| > 1 {
        assert s[1..][|s| - 2] == s[|s| - 1];
      } else if IsLowerAlnum(s[0]) {
        assert Words(s[1..]) == [] && Words(s) == [[s[0]]];
        JoinCons([s[0]], []);
        assert [[s[0]]] + [] == [[s[0]]];
      }
    }
  }

  /** Dashes after a dash are dropped; after a letter the first is kept. */
  lemma DashedAfter(s: string)
    ensures Dashed(s, false) == if s != "" && !IsLowerAlnum(s[0]) then "-" + Dashed(s, true) else Dashed(s, true)
  {
    if s != "" && !IsLowerAlnum(s[0]) {
      assert Dashed(s, true) == Dashed(s[1..], true);
    }
  }

  lemma JoinCons(w: string, words: seq<string>)
    ensures Join([w] + words, '-') == if words == [] then w else w + "-" + Join(words, '-')
  {
    assert ([w] + words)[1..] == words;
  }

  lemma JoinGrows(c: char, words: seq<string>)
    requires words != []
    ensures Join([[c] + words[0]] + words[1..], '-') == [c] + Join(words, '-')
  {
    assert words == [words[0]] + words[1..];
    JoinCons([c] + words[0], words[1..]);
    JoinCons(words[0], words[1..]);
  }

  /** The dash that text leaves after its words. */
  function Trail(s: string, words: seq<string>): string {
    if s != "" && words != [] && !IsLowerAlnum(s[|s| - 1]) then "-" else ""
  }

  lemma WordJoins(s: string)
    requires |s| > 1 && IsLowerAlnum(s[0])
    requires Dashed(s[1..], true) == Join(Words(s[1..]), '-') + Trail(s[1..], Words(s[1..]))
    ensures Dashed(s, true) == Join(Words(s), '-') + Trail(s, Words(s))
  {
    if IsLowerAlnum(s[1]) {
      WordGoesOn(s, s[1..], Words(s[1..]));
    } else {
      WordEnds(s, s[1..], Words(s[1..]));
    }
  }

  lemma WordGoesOn(s: string, rest: string, words: seq<string>)
    requires |s| > 1 && rest == s[1..] && words == Words(rest) && IsLowerAlnum(s[0]) && IsLowerAlnum(s[1])
    requires Dashed(rest, true) == Join(words, '-') + Trail(rest, words)
    ensures Dashed(s, true) == Join(Words(s), '-') + Trail(s, Words(s))
  {
    DashedAfter(rest);
    JoinGrows(s[0], words);
    assert Words(s) == [[s[0]] + words[0]] + words[1..];
    assert Trail(s, Words(s)) == Trail(rest, words);
  }

  lemma WordEnds(s: string, rest: string, words: seq<string>)
    requires |s| > 1 && rest == s[1..] && words == Words(rest) && IsLowerAlnum(s[0]) && !IsLowerAlnum(s[1])
    requires Dashed(rest, true) == Join(words, '-') + Trail(rest, words)
    ensures Dashed(s, true) == Join(Words(s), '-') + Trail(s, Words(s))
  {
    DashedAfter(rest);
    JoinCons([s[0]], words);
    assert Words(s) == [[s[0]]] + words;
    assert Dashed(s, true) == [s[0]] + ("-" + Dashed(rest, true));
    if words == [] {
      AllGaps(rest);
    } else {
      Regroup([s[0]], Join(words, '-'), Trail(rest, words));
      assert Trail(s, Words(s)) == Trail(rest, words);
    }
  }

  lemma Regroup(a: string, b: string, c: string)
    ensures a + ("-" + (b + c)) == (a + "-" + b) + c
  {
  }

  lemma {:induction false} AllGaps(s: string)
    requires s != "" && Words(s) == []
    ensures !IsLowerAlnum(s[|s| - 1])
  {
    if |s| > 1 {
      AllGaps(s[1..]);
    }
  }

  lemma {:induction false} TrimsNothing(s: string)
    requires s == "" || (s[0] != '-' && s[|s| - 1] != '-')
    ensures TrimDashLeft(s) == s && TrimDashRight(s) == s && TrimDashRight(s + "-") == s
  {
    assert (s + "-")[..|s|] == s;
  }

  /** A slug is the words of the folded name, joined by dashes. */
  lemma SlugIs(name: string)
    ensures Slug(name) == Join(Words(Lower(name)), '-')
  {
    var s := Lower(name);
    var words := Words(s);
    var joined := Join(words, '-');
    WordsAreWords(s);
    DashedIs(s);
    DashedAfter(s);
    if words != [] {
      JoinedEnds(words);
    }
    assert Dashed(s, true) in {joined, joined + "-"} by {
      assert joined + "" == joined;
    }
    TrimFirst(joined, s);
  }

  lemma TrimFirst(joined: string, s: string)
    requires joined == "" || (joined[0] != '-' && joined[|joined| - 1] != '-')
    requires Dashed(s, false) in {joined, joined + "-", "-" + joined, "-" + (joined + "-")}
    ensures TrimDashRight(TrimDashLeft(Dashed(s, false))) == joined
  {
    TrimsNothing(joined);
    assert ("-" + joined)[1..] == joined && ("-" + (joined + "-"))[1..] == joined + "-";
    if joined == "" {
      assert joined + "-" == "-" && ("-" + "-")[1..] == "-" && "-"[1..] == "";
    } else {
      assert (joined + "-")[0] == joined[0];
    }
  }

  function Path(prefix: string, slug: string): string {
    prefix + slug + "/"
  }

  datatype Key = Key(slug: string, field: string)

  /** A parameter name taken apart: one slug and one field under the prefix. */
  function SplitName(prefix: string, full: string): Option<Key> {
    if !(prefix <= full) then None
    else
      var rest := full[|prefix|..];
      var i := IndexOf(rest, '/');
      if i < 0 then None
      else if rest[..i] == "" || rest[i + 1..] == "" || '/' in rest[i + 1..] then None
      else Some(Key(rest[..i], rest[i + 1..]))
  }

  lemma SplitNameOf(prefix: string, slug: string, field: string)
    requires IsSegment(slug) && IsSegment(field)
    ensures SplitName(prefix, Path(prefix, slug) + field) == Some(Key(slug, field))
  {
    var full := Path(prefix, slug) + field;
    var rest := full[|prefix|..];
    assert rest == slug + ['/'] + field;
    IndexOfFirst(slug, field, '/');
    CutAround(slug, field);
  }

  lemma CutAround(a: string, b: string)
    ensures var whole := a + ['/'] + b; whole[..|a|] == a && whole[|a| + 1..] == b
  {
  }

  lemma SplitNameInverse(prefix: string, full: string)
    requires SplitName(prefix, full).Some?
    ensures var key := SplitName(prefix, full).value;
      full == Path(prefix, key.slug) + key.field && IsSegment(key.slug) && IsSegment(key.field)
  {
    var rest := full[|prefix|..];
    var i := IndexOf(rest, '/');
    assert full == prefix + rest && rest == rest[..i] + "/" + rest[i + 1..];
  }

  /** Taking apart and putting together are inverse, on proper segments. */
  lemma SplitNameIff(prefix: string, full: string, slug: string, field: string)
    ensures SplitName(prefix, full) == Some(Key(slug, field)) <==>
      full == Path(prefix, slug) + field && IsSegment(slug) && IsSegment(field)
  {
    if IsSegment(slug) && IsSegment(field) {
      SplitNameOf(prefix, slug, field);
    }
    if SplitName(prefix, full).Some? {
      SplitNameInverse(prefix, full);
    }
  }

  lemma PathInjective(prefix: string, s1: string, f1: string, s2: string, f2: string)
    requires IsSegment(s1) && IsSegment(f1) && IsSegment(s2) && IsSegment(f2)
    requires Path(prefix, s1) + f1 == Path(prefix, s2) + f2
    ensures s1 == s2 && f1 == f2
  {
    SplitNameIff(prefix, Path(prefix, s1) + f1, s1, f1);
    SplitNameIff(prefix, Path(prefix, s1) + f1, s2, f2);
  }

  // ----- encoding -----

  predicate IsField(f: string) {
    f in FIELDS
  }

  /** The text one field of an entry is written as. */
  function FieldText(e: Entry, f: string): string {
    if f == NAME then e.name
    else if f == GITHUB then e.github
    else if f == EMAILS then Join(e.emails, ',')
    else if f == K8S then e.k8s
    else if f == CLASS then e.class_
    else if f == PINNED then Join(e.pinned, ',')
    else if f == APPROVED_BY then e.approvedBy
    else if f == APPROVED_AT then e.approvedAt
    else ""
  }

  /** Empty optional fields are not written. */
  predicate Writes(e: Entry, f: string) {
    if f == EMAILS then |e.emails| > 0
    else if f == PINNED then |e.pinned| > 0
    else IsField(f) && (f !in CLEARABLE || FieldText(e, f) != "")
  }

  /** The parameters an entry is written as, by field. */
  function ValuesOf(e: Entry): Params {
    map f | f in FIELDS && Writes(e, f) :: FieldText(e, f)
  }

  function ValueOf(fields: Params, field: string): string {
    if field in fields then fields[field] else ""
  }

  function ListOf(value: string): seq<string> {
    if value == "" then [] else Split(value, ',')
  }

  /** The entry a person's parameters describe; a field without one is empty. */
  function EntryFrom(fields: Params): Entry {
    Entry(
      ValueOf(fields, NAME), ValueOf(fields, GITHUB), ListOf(ValueOf(fields, EMAILS)), ValueOf(fields, K8S),
      ValueOf(fields, CLASS), ListOf(ValueOf(fields, PINNED)), ValueOf(fields, APPROVED_BY), ValueOf(fields, APPROVED_AT), "")
  }

  predicate CommaFree(e: Entry) {
    (forall x :: x in e.emails ==> ',' !in x) && (forall x :: x in e.pinned ==> ',' !in x)
  }

  /** What a stored entry reads back as. */
  function Reread(e: Entry): Entry {
    EntryFrom(ValuesOf(e))
  }

  /** What is written for a field is what it reads as. */
  lemma ValuesRead(e: Entry, f: string)
    requires IsField(f)
    ensures ValueOf(ValuesOf(e), f) == FieldText(e, f)
  {
  }

  lemma RereadFields(e: Entry)
    ensures Reread(e) == e.(revision := "", emails := ListOf(Join(e.emails, ',')), pinned := ListOf(Join(e.pinned, ',')))
  {
    ValuesRead(e, NAME);
    ValuesRead(e, GITHUB);
    ValuesRead(e, EMAILS);
    ValuesRead(e, K8S);
    ValuesRead(e, CLASS);
    ValuesRead(e, PINNED);
    ValuesRead(e, APPROVED_BY);
    ValuesRead(e, APPROVED_AT);
  }

  lemma ListRoundTrip(items: seq<string>)
    requires forall x :: x in items ==> x != ""
    ensures ListOf(Join(items, ',')) == items <==> forall x :: x in items ==> ',' !in x
  {
    if |items| > 0 {
      JoinNonEmpty(items, ',');
      SplitJoinIff(items, ',');
    }
  }

  /** A valid entry reads back as written, but for its revision, exactly when no
      address or pin holds a comma. */
  lemma RereadIff(e: Entry)
    requires ValidEntry(e)
    ensures Reread(e) == e.(revision := "") <==> CommaFree(e)
  {
    forall x | x in e.emails ensures x != "" {
      assert PlausibleEmail(x);
    }
    ListRoundTrip(e.emails);
    ListRoundTrip(e.pinned);
    RereadFields(e);
  }

  const SPLIT_ADDRESS := Entry("A", "a", [",@c"], "", CLASS_EMPLOYEE, [], "", "", "")

  /** The rules let a comma through: an address that comes back as two. */
  lemma CommaIsLost()
    ensures ValidEntry(SPLIT_ADDRESS) && Reread(SPLIT_ADDRESS) != SPLIT_ADDRESS
  {
    CommaIsPlausible();
    assert ValidEntry(SPLIT_ADDRESS);
    RereadIff(SPLIT_ADDRESS);
    assert !CommaFree(SPLIT_ADDRESS) by { assert ",@c" in SPLIT_ADDRESS.emails; }
  }

  lemma CommaIsPlausible()
    ensures PlausibleEmail(",@c") && ',' in ",@c"
  {
    var email := ",@c";
    assert email[1..] == "@c" && email[1..][1..] == "c" && Lower("c") == "c" && Lower("@c") == "@c";
    assert Lower(email) == email && TrimSpace(email) == email;
    assert email[1] == '@' && email[0] == ',';
  }
}
