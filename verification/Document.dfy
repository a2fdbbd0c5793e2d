/** The rendered membership document (pkg/peribolos). */
module Document {
  import opened Text
  import opened Indexing
  import opened OrgState

  datatype Mode = RemovalsOnly | Full

  datatype TeamDoc = TeamDoc(maintainers: seq<string>, members: seq<string>)

  datatype OrgDoc = OrgDoc(admins: seq<string>, members: seq<string>, teams: map<string, TeamDoc>)

  /** Organization name to stanza. */
  type Doc = map<string, OrgDoc>

  datatype DesiredMember = DesiredMember(login: string, admin: bool)

  /** m after each login has claimed its folded key, the last spelling winning. */
  function Claim(m: map<string, DesiredMember>, logins: seq<string>, admin: bool): map<string, DesiredMember> {
    if logins == [] then m
    else
      var last := logins[|logins| - 1];
      Claim(m, logins[..|logins| - 1], admin)[Lower(last) := DesiredMember(last, admin)]
  }

  lemma ClaimStep(m: map<string, DesiredMember>, logins: seq<string>, admin: bool, i: nat)
    requires i < |logins|
    ensures Claim(m, logins[..i + 1], admin) ==
      Claim(m, logins[..i], admin)[Lower(logins[i]) := DesiredMember(logins[i], admin)]
  {
    assert logins[..i + 1][..i] == logins[..i];
  }

  lemma {:induction false} ClaimSound(m: map<string, DesiredMember>, logins: seq<string>, admin: bool)
    ensures forall k :: k in Claim(m, logins, admin) <==> k in m || k in ByLower(logins)
    ensures forall k :: k in ByLower(logins) ==> Claim(m, logins, admin)[k] == DesiredMember(ByLower(logins)[k], admin)
    ensures forall k :: k in m && k !in ByLower(logins) ==> Claim(m, logins, admin)[k] == m[k]
  {
    if logins != [] {
      ClaimSound(m, logins[..|logins| - 1], admin);
    }
  }

  /** Everyone the stanza wants in the organization. Owners claim second, so a
      login on both lists is an owner. */
  function Desired(cfg: OrgDoc): map<string, DesiredMember> {
    Claim(Claim(map[], cfg.members, false), cfg.admins, true)
  }

  /** Everyone the stanza wants in one team; a maintainer's spelling wins. */
  function TeamDesired(team: TeamDoc): map<string, string> {
    ByLower(team.members) + ByLower(team.maintainers)
  }

  lemma DesiredSound(cfg: OrgDoc)
    ensures forall k :: k in Desired(cfg) <==> k in ByLower(cfg.members) || k in ByLower(cfg.admins)
    ensures forall k :: k in Desired(cfg) ==>
      && Lower(Desired(cfg)[k].login) == k
      && (Desired(cfg)[k].login in cfg.admins || Desired(cfg)[k].login in cfg.members)
      && (Desired(cfg)[k].admin <==> k in ByLower(cfg.admins))
  {
    ClaimSound(map[], cfg.members, false);
    ClaimSound(Claim(map[], cfg.members, false), cfg.admins, true);
    IndexBySound(cfg.members, LoginKey);
    IndexBySound(cfg.admins, LoginKey);
  }

  lemma TeamDesiredSound(team: TeamDoc)
    ensures forall k :: k in TeamDesired(team) ==>
      && Lower(TeamDesired(team)[k]) == k
      && (TeamDesired(team)[k] in team.members || TeamDesired(team)[k] in team.maintainers)
    ensures forall x :: x in team.members || x in team.maintainers ==> Lower(x) in TeamDesired(team)
  {
    IndexBySound(team.members, LoginKey);
    IndexBySound(team.maintainers, LoginKey);
  }
}
