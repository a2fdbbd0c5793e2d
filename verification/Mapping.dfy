/** The person-to-identity entry and the rules over all entries (pkg/mapping/mapping.go). */
module Mapping {
  import opened Text
  import opened Indexing
  import opened Strings

  const CLASS_EMPLOYEE := "employee"
  const CLASS_BOT := "bot"
  const MAX_ABBREV_LEN := 20
  const MAX_LOGIN_LEN := 39

  datatype Entry = Entry(
    name: string,
    github: string,
    emails: seq<string>,
    k8s: string,
    class_: string,
    pinned: seq<string>,
    approvedBy: string,
    approvedAt: string,
    revision: string)

  /** What a lookup compares against when there is no entry. */
  const ZERO := Entry("", "", [], "", "", [], "", "", "")

  datatype StoreError = Invalid | Immutable | Duplicate

  // ----- one entry -----

  predicate IsLowerAlnum(c: char) { 'a' <= c <= 'z' || '0' <= c <= '9' }

  /** A DNS-1123 label. */
  predicate Dns1123(s: string) {
    && s != "" && IsLowerAlnum(s[0]) && IsLowerAlnum(s[|s| - 1])
    && forall i :: 0 <= i < |s| ==> IsLowerAlnum(s[i]) || s[i] == '-'
  }

  /** A possible GitHub username. */
  predicate ValidLogin(s: string) {
    && 1 <= |s| <= MAX_LOGIN_LEN
    && (forall i :: 0 <= i < |s| ==> IsLowerAlnum(LowerChar(s[i])) || s[i] == '-')
    && s[0] != '-' && s[|s| - 1] != '-'
    && !exists i :: 0 <= i < |s| - 1 && s[i] == '-' && s[i + 1] == '-'
  }

  predicate PlausibleEmail(email: string) {
    && email == Lower(TrimSpace(email))
    && 0 < IndexOf(email, '@') && IndexOf(email, '@') != |email| - 1
    && ' ' !in email && '\t' !in email
  }

  predicate ValidEntry(e: Entry) {
    && TrimSpace(e.name) != "" && Trimmed(e.name)
    && (e.class_ == CLASS_EMPLOYEE || e.class_ == CLASS_BOT)
    && ValidLogin(e.github)
    && (forall x :: x in e.emails ==> PlausibleEmail(x))
    && (e.k8s != "" ==> Dns1123(e.k8s) && |e.k8s| <= MAX_ABBREV_LEN)
    && (forall x :: x in e.pinned ==> '/' in x)
  }

  // ----- all entries -----

  predicate SharedEmail(a: seq<string>, b: seq<string>) {
    exists x, y :: x in a && y in b && EqualFold(x, y)
  }

  /** Two entries of different names claim one abbreviation, login or address. */
  predicate Conflict(next: Entry, other: Entry) {
    other.name != next.name &&
    ((next.k8s != "" && EqualFold(other.k8s, next.k8s)) ||
     EqualFold(other.github, next.github) ||
     SharedEmail(next.emails, other.emails))
  }

  /** Why a write is refused, if it is: existing is what the store has under the
      name, or ZERO, and all is the whole store. */
  function CheckInvariants(next: Entry, existing: Entry, all: seq<Entry>): Option<StoreError> {
    if !ValidEntry(next) then Some(Invalid)
    else if existing.k8s != "" && next.k8s != existing.k8s then Some(Immutable)
    else if exists other :: other in all && Conflict(next, other) then Some(Duplicate)
    else None
  }

  lemma SharedEmailSymmetric(a: seq<string>, b: seq<string>)
    ensures SharedEmail(a, b) <==> SharedEmail(b, a)
  {
  }

  /** Clashing is mutual, except that an empty abbreviation clashes with nothing. */
  lemma ConflictSymmetric(a: Entry, b: Entry)
    ensures Conflict(a, b) <==> Conflict(b, a)
  {
    SharedEmailSymmetric(a.emails, b.emails);
    LowerEmpty(a.k8s);
    LowerEmpty(b.k8s);
  }
}
