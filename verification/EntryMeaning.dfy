/** Which mapping entries the stores accept, said of characters, letters and pieces
    (pkg/mapping/mapping.go). */
module EntryMeaning {
  import opened Text
  import opened Strings
  import opened Indexing
  import opened Mapping
  import opened Memory

  // ----- characters -----

  predicate SmallLetterOrDigit(c: char) { 'a' <= c <= 'z' || '0' <= c <= '9' }

  predicate LetterOrDigit(c: char) { SmallLetterOrDigit(c) || 'A' <= c <= 'Z' }

  /** What Go takes for white space, of ASCII. */
  const WHITE := [' ', '\t', '\n', 11 as char, 12 as char, '\r']

  predicate AllOf(s: string, test: char -> bool) {
    forall i :: 0 <= i < |s| ==> test(s[i])
  }

  lemma WhiteIs(c: char)
    ensures IsSpace(c) <==> c in WHITE
  {
  }

  /** Trimmed text neither begins nor ends in white space. */
  lemma TrimmedIff(s: string)
    ensures Trimmed(s) <==> s == "" || (s[0] !in WHITE && s[|s| - 1] !in WHITE)
  {
    if s != "" {
      WhiteIs(s[0]);
      WhiteIs(s[|s| - 1]);
      if !IsSpace(s[0]) && !IsSpace(s[|s| - 1]) {
        assert TrimLeft(s) == s && TrimRight(s) == s;
      }
      TrimSpaceTrims(s);
      if Trimmed(s) {
        TrimLeftStarts(s);
        TrimRightEnds(TrimLeft(s));
      }
    }
  }

  lemma {:induction false} TrimLeftCuts(s: string) returns (n: nat)
    ensures n <= |s| && TrimLeft(s) == s[n..] && forall i :: 0 <= i < n ==> s[i] in WHITE
  {
    n := 0;
    if s != "" {
      WhiteIs(s[0]);
      if IsSpace(s[0]) {
        var m := TrimLeftCuts(s[1..]);
        n := m + 1;
        assert s[1..][m..] == s[n..];
        forall i | 0 <= i < n ensures s[i] in WHITE {
          if i > 0 {
            assert s[1..][i - 1] == s[i];
          }
        }
      }
    }
  }

  lemma {:induction false} TrimRightCuts(s: string) returns (n: nat)
    ensures n <= |s| && TrimRight(s) == s[..n] && forall i :: n <= i < |s| ==> s[i] in WHITE
  {
    n := |s|;
    if s != "" {
      WhiteIs(s[|s| - 1]);
      if IsSpace(s[|s| - 1]) {
        n := TrimRightCuts(s[..|s| - 1]);
      }
    }
  }

  /** Trimming takes white space off both ends and nothing else. */
  lemma TrimSpaceCuts(s: string) returns (from: nat, to: nat)
    ensures from <= to <= |s| && TrimSpace(s) == s[from..to] && Trimmed(s[from..to])
    ensures forall i :: 0 <= i < from || to <= i < |s| ==> s[i] in WHITE
  {
    from := TrimLeftCuts(s);
    var n := TrimRightCuts(s[from..]);
    to := from + n;
    assert s[from..][..n] == s[from..to];
    TrimSpaceTrims(s);
    forall i | to <= i < |s| ensures s[i] in WHITE {
      assert s[from..][i - from] == s[i];
    }
  }

  // ----- logins and abbreviations -----

  /** A dash at the end, or before another. */
  ghost predicate LooseDash(s: string) {
    exists i :: 0 <= i < |s| && s[i] == '-' && (i == |s| - 1 || s[i + 1] == '-')
  }

  lemma LooseDashStep(s: string)
    requires s != ""
    ensures LooseDash(s) <==> (s[0] == '-' && (|s| == 1 || s[1] == '-')) || LooseDash(s[1..])
  {
    var rest := s[1..];
    if i :| 0 <= i < |rest| && rest[i] == '-' && (i == |rest| - 1 || rest[i + 1] == '-') {
      assert s[i + 1] == '-';
    }
    if i :| 0 <= i < |s| && s[i] == '-' && (i == |s| - 1 || s[i + 1] == '-') && i > 0 {
      assert rest[i - 1] == '-';
    }
  }

  /** A piece after the first is empty exactly when a dash is loose. */
  lemma {:induction false} LaterPieceEmpty(s: string)
    ensures Split(s, '-')[0] == "" <==> s == "" || s[0] == '-'
    ensures "" in Split(s, '-')[1..] <==> LooseDash(s)
  {
    if s != "" {
      var rest := Split(s[1..], '-');
      LaterPieceEmpty(s[1..]);
      LooseDashStep(s);
      assert "" in rest <==> rest[0] == "" || "" in rest[1..] by { assert rest == [rest[0]] + rest[1..]; }
      if s[0] == '-' {
        assert Split(s, '-')[1..] == rest;
      } else {
        assert Split(s, '-')[1..] == rest[1..];
      }
    }
  }

  lemma {:induction false} LastPieceEmpty(s: string)
    ensures var pieces := Split(s, '-'); pieces[|pieces| - 1] == "" <==> s == "" || s[|s| - 1] == '-'
  {
    if s != "" {
      var rest := Split(s[1..], '-');
      LastPieceEmpty(s[1..]);
      if s[0] != '-' && |rest| > 1 {
        assert Split(s, '-')[|rest| - 1] == rest[|rest| - 1];
        OnePiece(s[1..]);
      }
    }
  }

  lemma {:induction false} OnePiece(s: string)
    ensures |Split(s, '-')| == 1 <==> '-' !in s
  {
    if s != "" {
      OnePiece(s[1..]);
      assert s == [s[0]] + s[1..];
    }
  }

  lemma AllOfCons(c: char, s: string, test: char -> bool)
    ensures AllOf([c] + s, test) <==> test(c) && AllOf(s, test)
  {
    var all := [c] + s;
    if AllOf(all, test) {
      assert test(all[0]);
      forall i | 0 <= i < |s| ensures test(s[i]) {
        assert test(all[i + 1]);
      }
    }
    if test(c) && AllOf(s, test) {
      forall i | 0 <= i < |all| ensures test(all[i]) {
        assert i > 0 ==> all[i] == s[i - 1];
      }
    }
  }

  lemma {:induction false} PiecesHold(s: string, test: char -> bool)
    ensures (forall p :: p in Split(s, '-') ==> AllOf(p, test)) <==> AllOf(s, (c: char) => c == '-' || test(c))
  {
    if s != "" {
      var rest, pieces := Split(s[1..], '-'), Split(s, '-');
      var both := (c: char) => c == '-' || test(c);
      PiecesHold(s[1..], test);
      AllOfCons(s[0], s[1..], both);
      assert s == [s[0]] + s[1..];
      if s[0] == '-' {
        assert forall p :: p in pieces <==> p == "" || p in rest;
      } else {
        var first := [s[0]] + rest[0];
        assert rest == [rest[0]] + rest[1..];
        assert forall p :: p in pieces <==> p == first || p in rest[1..];
        assert forall p :: p in rest <==> p == rest[0] || p in rest[1..];
        AllOfCons(s[0], rest[0], test);
      }
    }
  }

  /** Every piece is non-empty and made of letters and digits. */
  ghost predicate LoginPieces(s: string) {
    forall p :: p in Split(s, '-') ==> p != "" && AllOf(p, LetterOrDigit)
  }

  lemma EmptyPiece(s: string)
    ensures "" in Split(s, '-') <==>
      s == "" || s[0] == '-' || s[|s| - 1] == '-' || exists i :: 0 <= i < |s| - 1 && s[i] == '-' && s[i + 1] == '-'
  {
    LaterPieceEmpty(s);
    var pieces := Split(s, '-');
    assert pieces == [pieces[0]] + pieces[1..];
    if s != "" && s[|s| - 1] == '-' {
      assert LooseDash(s);
    }
    if i :| 0 <= i < |s| - 1 && s[i] == '-' && s[i + 1] == '-' {
      assert LooseDash(s);
    }
  }

  /** A possible GitHub login: up to 39 characters, words of letters and digits joined
      by single dashes. */
  lemma ValidLoginIff(s: string)
    ensures ValidLogin(s) <==> |s| <= 39 && LoginPieces(s)
  {
    EmptyPiece(s);
    PiecesHold(s, LetterOrDigit);
    forall i | 0 <= i < |s| ensures IsLowerAlnum(LowerChar(s[i])) <==> LetterOrDigit(s[i]) {}
    assert LoginPieces(s) <==> "" !in Split(s, '-') && AllOf(s, (c: char) => c == '-' || LetterOrDigit(c));
  }

  /** Whether a login is possible does not depend on the case of its letters. */
  lemma ValidInAnyCase(a: string, b: string)
    requires SameLetters(a, b)
    ensures ValidLogin(a) <==> ValidLogin(b)
  {
    forall i | 0 <= i < |a| ensures LowerChar(a[i]) == LowerChar(b[i]) && (a[i] == '-' <==> b[i] == '-') {
      LowerCharsIff(a[i], b[i]);
    }
  }

  /** A DNS label: words of small letters and digits joined by dashes, the first and
      the last not empty. */
  lemma Dns1123Iff(s: string)
    ensures Dns1123(s) <==>
      var pieces := Split(s, '-');
      pieces[0] != "" && pieces[|pieces| - 1] != "" && forall p :: p in pieces ==> AllOf(p, SmallLetterOrDigit)
  {
    LaterPieceEmpty(s);
    LastPieceEmpty(s);
    PiecesHold(s, SmallLetterOrDigit);
    forall i | 0 <= i < |s| ensures IsLowerAlnum(s[i]) <==> SmallLetterOrDigit(s[i]) {}
  }

  // ----- addresses -----

  /** The text is a name, an '@' and a domain, none empty, the '@' the first. */
  ghost predicate Parts(email: string, name: string, domain: string) {
    email == name + "@" + domain && name != "" && '@' !in name && domain != ""
  }

  /** A name and a domain around an '@', in small letters without blanks or tabs, and
      with no white space at either end. */
  ghost predicate LooksLikeAnAddress(email: string) {
    && (exists name, domain :: Parts(email, name, domain))
    && (forall i :: 0 <= i < |email| ==> !('A' <= email[i] <= 'Z'))
    && ' ' !in email && '\t' !in email
    && email[0] !in WHITE && email[|email| - 1] !in WHITE
  }

  lemma PartsAt(email: string, name: string, domain: string)
    requires Parts(email, name, domain)
    ensures 0 < IndexOf(email, '@') && IndexOf(email, '@') != |email| - 1
  {
    assert name + "@" + domain == name + ['@'] + domain;
    IndexOfFirst(name, domain, '@');
  }

  lemma MiddleParts(email: string, at: int)
    requires 0 < at < |email| - 1 && email[at] == '@' && '@' !in email[..at]
    ensures Parts(email, email[..at], email[at + 1..])
  {
    assert email == email[..at] + "@" + email[at + 1..];
  }

  lemma AtMiddle(email: string)
    ensures 0 < IndexOf(email, '@') && IndexOf(email, '@') != |email| - 1 <==> exists name, domain :: Parts(email, name, domain)
  {
    var at := IndexOf(email, '@');
    if 0 < at && at != |email| - 1 {
      MiddleParts(email, at);
    }
    if name, domain :| Parts(email, name, domain) {
      PartsAt(email, name, domain);
    }
  }

  /** Text is as trimmed and folded exactly when white space bounds it nowhere and no
      letter is a capital. */
  lemma TrimmedAndFolded(s: string)
    ensures s == Lower(TrimSpace(s)) <==> Trimmed(s) && Lower(s) == s
  {
    if s == Lower(TrimSpace(s)) {
      LowerAt(TrimSpace(s));
      var from, to := TrimSpaceCuts(s);
      assert from == 0 && to == |s|;
      assert s[0..|s|] == s;
    }
  }

  lemma PlausibleEmailIff(email: string)
    ensures PlausibleEmail(email) <==> LooksLikeAnAddress(email)
  {
    AtMiddle(email);
    TrimmedAndFolded(email);
    TrimmedIff(email);
    FoldedIs(email);
  }

  // ----- entries -----

  /** An entry the rules accept by itself. */
  ghost predicate WellFormed(e: Entry) {
    && e.name != "" && e.name[0] !in WHITE && e.name[|e.name| - 1] !in WHITE
    && e.class_ in {"employee", "bot"}
    && |e.github| <= 39 && LoginPieces(e.github)
    && (forall x :: x in e.emails ==> LooksLikeAnAddress(x))
    && (e.k8s != "" ==> |e.k8s| <= 20 && Dns1123(e.k8s))
    && (forall x :: x in e.pinned ==> '/' in x)
  }

  lemma WellFormedIff(e: Entry)
    ensures ValidEntry(e) <==> WellFormed(e)
  {
    TrimmedIff(e.name);
    ValidLoginIff(e.github);
    forall x {
      PlausibleEmailIff(x);
    }
  }

  /** Two entries claim one login, address or abbreviation, in any case. */
  ghost predicate Clash(a: Entry, b: Entry) {
    || SameLetters(a.github, b.github)
    || (a.k8s != "" && SameLetters(a.k8s, b.k8s))
    || exists x, y :: x in a.emails && y in b.emails && SameLetters(x, y)
  }

  lemma ClashIff(a: Entry, b: Entry)
    ensures Conflict(a, b) <==> b.name != a.name && Clash(a, b)
  {
    FoldsIff(a.github, b.github);
    FoldsIff(a.k8s, b.k8s);
    forall x, y {
      FoldsIff(x, y);
    }
    FoldsIff(b.github, a.github);
    FoldsIff(b.k8s, a.k8s);
  }

  /** Why a put is refused, in order: the entry is not well formed; it would change an
      abbreviation once given; it clashes with an entry of another name. Otherwise it is
      stored under the next revision. */
  lemma PutDoes(m: MemoryState, e: Entry)
    ensures var changes := e.name in m.entries && m.entries[e.name].k8s != "" && e.k8s != m.entries[e.name].k8s;
      var clashes := exists n :: n in m.entries && m.entries[n].name != e.name && Clash(e, m.entries[n]);
      && (Refuses(m.entries, e) == Some(Invalid) <==> !WellFormed(e))
      && (Refuses(m.entries, e) == Some(Immutable) <==> WellFormed(e) && changes)
      && (Refuses(m.entries, e) == Some(Duplicate) <==> WellFormed(e) && !changes && clashes)
      && (WellFormed(e) && !changes && !clashes ==>
           AfterPut(m, e) == MemoryState(m.entries[e.name := e.(revision := Itoa(m.revision + 1))], m.revision + 1))
  {
    WellFormedIff(e);
    forall n | n in m.entries {
      ClashIff(e, m.entries[n]);
    }
  }
}
