/** The string operations the stores encode with, by their results on ASCII. */
module Strings {

  // ----- split and join -----

  /** strings.Split on a one-character separator: never empty. */
  function Split(s: string, c: char): (r: seq<string>)
    ensures |r| > 0
  {
    if s == "" then [""]
    else
      var rest := Split(s[1..], c);
      if s[0] == c then [""] + rest else [[s[0]] + rest[0]] + rest[1..]
  }

  /** strings.Join with a one-character separator. */
  function Join(items: seq<string>, c: char): string {
    if |items| == 0 then ""
    else if |items| == 1 then items[0]
    else items[0] + [c] + Join(items[1..], c)
  }

  lemma {:induction false} SplitPieces(s: string, c: char)
    ensures forall x :: x in Split(s, c) ==> c !in x
  {
    if s != "" {
      SplitPieces(s[1..], c);
      var rest := Split(s[1..], c);
      assert rest[0] in rest;
      forall x | x in Split(s, c) ensures c !in x {
        if s[0] == c {
          assert x == "" || x in rest;
        } else {
          assert x == [s[0]] + rest[0] || x in rest[1..];
        }
      }
    }
  }

  /** Text up to the first separator is the first piece. */
  lemma {:induction false} SplitHead(x: string, s: string, c: char)
    requires c !in x
    ensures Split(x + [c] + s, c) == [x] + Split(s, c)
  {
    if x == "" {
      assert x + [c] + s == [c] + s;
    } else {
      assert (x + [c] + s)[1..] == x[1..] + [c] + s;
      SplitHead(x[1..], s, c);
      assert x == [x[0]] + x[1..];
    }
  }

  lemma {:induction false} SplitWhole(x: string, c: char)
    requires c !in x
    ensures Split(x, c) == [x]
  {
    if x != "" {
      SplitWhole(x[1..], c);
      assert x == [x[0]] + x[1..];
    }
  }

  /** Joining and splitting gives the list back exactly when no item holds the separator. */
  lemma {:induction false} SplitJoinIff(items: seq<string>, c: char)
    requires items != []
    ensures Split(Join(items, c), c) == items <==> forall x :: x in items ==> c !in x
  {
    SplitPieces(Join(items, c), c);
    if forall x :: x in items ==> c !in x {
      SplitJoin(items, c);
    }
  }

  lemma {:induction false} SplitJoin(items: seq<string>, c: char)
    requires items != [] && forall x :: x in items ==> c !in x
    ensures Split(Join(items, c), c) == items
  {
    if |items| == 1 {
      SplitWhole(items[0], c);
    } else {
      SplitHead(items[0], Join(items[1..], c), c);
      SplitJoin(items[1..], c);
      assert items == [items[0]] + items[1..];
    }
  }

  lemma JoinNonEmpty(items: seq<string>, c: char)
    requires items != [] && forall x :: x in items ==> x != ""
    ensures Join(items, c) != ""
  {
    assert items[0] in items;
  }

  /** strings.IndexByte: the first position of c, or -1. */
  function IndexOf(s: string, c: char): (i: int)
    ensures -1 <= i < |s|
    ensures i >= 0 ==> s[i] == c && c !in s[..i]
    ensures i < 0 <==> c !in s
  {
    if s == "" then -1
    else if s[0] == c then 0
    else
      assert s == [s[0]] + s[1..];
      var rest := IndexOf(s[1..], c);
      assert rest >= 0 ==> s[..rest + 1] == [s[0]] + s[1..][..rest];
      if rest < 0 then -1 else rest + 1
  }

  lemma {:induction false} JoinSplit(s: string, c: char)
    ensures Join(Split(s, c), c) == s
  {
    if s != "" {
      JoinSplit(s[1..], c);
      var rest := Split(s[1..], c);
      if s[0] == c {
        assert Split(s, c)[1..] == rest;
      } else if |rest| > 1 {
        assert Split(s, c)[1..] == rest[1..];
      }
      assert s == [s[0]] + s[1..];
    }
  }

  lemma {:induction false} IndexOfFirst(x: string, s: string, c: char)
    requires c !in x
    ensures IndexOf(x + [c] + s, c) == |x|
  {
    if x == "" {
      assert x + [c] + s == [c] + s;
    } else {
      assert (x + [c] + s)[1..] == x[1..] + [c] + s;
      IndexOfFirst(x[1..], s, c);
    }
  }

  // ----- trimming -----

  predicate IsSpace(c: char) {
    c == ' ' || ('\t' <= c <= '\r')
  }

  function TrimLeft(s: string): string {
    if s != "" && IsSpace(s[0]) then TrimLeft(s[1..]) else s
  }

  function TrimRight(s: string): string {
    if s != "" && IsSpace(s[|s| - 1]) then TrimRight(s[..|s| - 1]) else s
  }

  /** strings.TrimSpace. */
  function TrimSpace(s: string): string {
    TrimRight(TrimLeft(s))
  }

  predicate Trimmed(s: string) {
    TrimSpace(s) == s
  }

  /** Trimming leaves nothing to trim. */
  lemma TrimSpaceTrims(s: string)
    ensures Trimmed(TrimSpace(s))
  {
    TrimLeftStarts(s);
    TrimRightEnds(TrimLeft(s));
  }

  lemma {:induction false} TrimLeftStarts(s: string)
    ensures TrimLeft(s) == "" || !IsSpace(TrimLeft(s)[0])
  {
    if s != "" && IsSpace(s[0]) {
      TrimLeftStarts(s[1..]);
    }
  }

  lemma {:induction false} TrimRightEnds(s: string)
    ensures TrimRight(s) == "" || !IsSpace(TrimRight(s)[|TrimRight(s)| - 1])
    ensures TrimRight(s) != "" ==> TrimRight(s)[0] == s[0]
  {
    if s != "" && IsSpace(s[|s| - 1]) {
      TrimRightEnds(s[..|s| - 1]);
    }
  }

  // ----- comma lists -----

  function TrimNonEmpty(parts: seq<string>): seq<string> {
    if parts == [] then []
    else
      var rest, t := TrimNonEmpty(parts[..|parts| - 1]), TrimSpace(parts[|parts| - 1]);
      if t != "" then rest + [t] else rest
  }

  /** splitList: comma-separated, trimmed, empties dropped. */
  function SplitList(v: string): seq<string> {
    if TrimSpace(v) == "" then [] else TrimNonEmpty(Split(v, ','))
  }

  predicate ListItem(x: string) {
    x != "" && Trimmed(x) && ',' !in x
  }

  lemma {:induction false} TrimNonEmptyMakes(parts: seq<string>)
    requires forall p :: p in parts ==> ',' !in p
    ensures forall x :: x in TrimNonEmpty(parts) ==> ListItem(x)
  {
    if parts != [] {
      var last := parts[|parts| - 1];
      assert last in parts;
      TrimNonEmptyMakes(parts[..|parts| - 1]);
      TrimSpaceTrims(last);
      TrimPart(last, ',');
    }
  }

  lemma TrimPart(s: string, c: char)
    requires c !in s
    ensures c !in TrimSpace(s)
  {
    TrimLeftPart(s, c);
    TrimRightPart(TrimLeft(s), c);
  }

  lemma {:induction false} TrimLeftPart(s: string, c: char)
    requires c !in s
    ensures c !in TrimLeft(s)
  {
    if s != "" && IsSpace(s[0]) {
      TrimLeftPart(s[1..], c);
    }
  }

  lemma {:induction false} TrimRightPart(s: string, c: char)
    requires c !in s
    ensures c !in TrimRight(s)
  {
    if s != "" && IsSpace(s[|s| - 1]) {
      TrimRightPart(s[..|s| - 1], c);
    }
  }

  lemma {:induction false} TrimNonEmptyKeeps(parts: seq<string>)
    requires forall p :: p in parts ==> ListItem(p)
    ensures TrimNonEmpty(parts) == parts
  {
    if parts != [] {
      assert parts[|parts| - 1] in parts;
      TrimNonEmptyKeeps(parts[..|parts| - 1]);
      assert parts == parts[..|parts| - 1] + [parts[|parts| - 1]];
    }
  }

  lemma {:induction false} BlankHasNoParts(v: string)
    requires TrimSpace(v) == ""
    ensures forall i :: 0 <= i < |v| ==> IsSpace(v[i])
  {
    TrimLeftStarts(v);
    if v != "" {
      if !IsSpace(v[0]) {
        TrimRightEnds(v);
        NonBlankStays(v);
      } else {
        BlankHasNoParts(v[1..]);
      }
    }
  }

  lemma {:induction false} NonBlankStays(s: string)
    requires s != "" && !IsSpace(s[0])
    ensures TrimRight(s) != ""
  {
    if IsSpace(s[|s| - 1]) {
      NonBlankStays(s[..|s| - 1]);
    }
  }

  /** A list survives being written with commas and read back exactly when its items
      are non-empty, trimmed and comma-free. */
  lemma SplitListJoinIff(items: seq<string>)
    ensures SplitList(Join(items, ',')) == items <==> forall x :: x in items ==> ListItem(x)
  {
    var v := Join(items, ',');
    SplitPieces(v, ',');
    TrimNonEmptyMakes(Split(v, ','));
    if items != [] && forall x :: x in items ==> ListItem(x) {
      SplitJoin(items, ',');
      TrimNonEmptyKeeps(items);
      assert TrimSpace(v) != "" by { JoinNotBlank(items); }
    }
  }

  lemma TrimmedStart(s: string)
    requires s != "" && Trimmed(s)
    ensures !IsSpace(s[0])
  {
    TrimLeftShrinks(s);
    TrimRightShrinks(TrimLeft(s));
  }

  lemma JoinNotBlank(items: seq<string>)
    requires items != [] && ListItem(items[0])
    ensures TrimSpace(Join(items, ',')) != ""
  {
    var v, x := Join(items, ','), items[0];
    assert v[..|x|] == x && v[0] == x[0];
    TrimmedStart(x);
    if TrimSpace(v) == "" {
      BlankHasNoParts(v);
    }
  }

  lemma {:induction false} TrimLeftShrinks(s: string)
    ensures |TrimLeft(s)| <= |s| && (s != "" && IsSpace(s[0]) ==> |TrimLeft(s)| < |s|)
  {
    if s != "" && IsSpace(s[0]) {
      TrimLeftShrinks(s[1..]);
    }
  }

  lemma {:induction false} TrimRightShrinks(s: string)
    ensures |TrimRight(s)| <= |s|
  {
    if s != "" && IsSpace(s[|s| - 1]) {
      TrimRightShrinks(s[..|s| - 1]);
    }
  }

  /** One segment of a parameter path. */
  predicate IsSegment(s: string) {
    s != "" && '/' !in s
  }

  // ----- decimal numbers -----

  function Digit(d: nat): char
    requires d < 10
  {
    (d + '0' as int) as char
  }

  /** strconv.Itoa on naturals. */
  function Itoa(n: nat): (s: string)
    ensures s != ""
  {
    if n < 10 then [Digit(n)] else Itoa(n / 10) + [Digit(n % 10)]
  }

  predicate Digits(s: string) {
    s != "" && forall i :: 0 <= i < |s| ==> '0' <= s[i] <= '9'
  }

  function Decimal(s: string): int
    requires Digits(s)
  {
    var last := s[|s| - 1] as int - '0' as int;
    if |s| == 1 then last else Decimal(s[..|s| - 1]) * 10 + last
  }

  const MAX_INT := 0x7FFF_FFFF_FFFF_FFFF

  /** strconv.Atoi with its error dropped: an optional sign and digits, clamped to
      64 bits, 0 when malformed. */
  function Atoi(s: string): int {
    if Digits(s) then
      if Decimal(s) > MAX_INT then MAX_INT else Decimal(s)
    else if |s| > 1 && (s[0] == '-' || s[0] == '+') && Digits(s[1..]) then
      var n := Decimal(s[1..]);
      if s[0] == '+' then (if n > MAX_INT then MAX_INT else n)
      else (if n > MAX_INT + 1 then -(MAX_INT + 1) else -n)
    else 0
  }

  lemma {:induction false} ItoaDecimal(n: nat)
    ensures Digits(Itoa(n)) && Decimal(Itoa(n)) == n
  {
    if n >= 10 {
      ItoaDecimal(n / 10);
      assert Itoa(n)[..|Itoa(n)| - 1] == Itoa(n / 10);
    }
  }

  lemma {:induction false} DigitsTrimmed(s: string)
    requires Digits(s)
    ensures Trimmed(s)
  {
  }

  lemma AtoiItoa(n: nat)
    requires n <= MAX_INT
    ensures Atoi(TrimSpace(Itoa(n))) == n
  {
    ItoaDecimal(n);
    DigitsTrimmed(Itoa(n));
  }
}
