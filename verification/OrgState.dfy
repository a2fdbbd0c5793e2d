/** One GitHub organization as the service reads it (pkg/orgstate). */
module OrgState {
  import opened Text
  import opened Indexing

  datatype Role = RoleAdmin | RoleMember

  datatype Member = Member(login: string, role: Role)

  /** An invitation by address, not by account, has an empty login. */
  datatype Invitation = Invitation(id: int, login: string)

  datatype State = State(
    members: seq<Member>,
    invitations: seq<Invitation>,
    teams: seq<string>,
    teamMembers: map<string, seq<string>>)

  function MemberKey(m: Member): string { Lower(m.login) }

  function LoginKey(login: string): string { Lower(login) }

  /** Members by folded login. */
  function Current(members: seq<Member>): map<string, Member> {
    IndexBy(members, MemberKey)
  }

  /** Invitations that carry a login, by folded login. */
  function Invited(invitations: seq<Invitation>): map<string, Invitation> {
    if invitations == [] then map[]
    else
      var last := invitations[|invitations| - 1];
      var rest := Invited(invitations[..|invitations| - 1]);
      if last.login == "" then rest else rest[Lower(last.login) := last]
  }

  /** A login list by folded login. */
  function ByLower(logins: seq<string>): map<string, string> {
    IndexBy(logins, LoginKey)
  }

  /** Facts of GitHub: an invitation ID names one invitation, a login has one invitation. */
  ghost predicate InvitationsDistinct(invitations: seq<Invitation>) {
    forall i, j :: 0 <= i < j < |invitations| ==>
      && invitations[i].id != invitations[j].id
      && (invitations[i].login != "" ==> !EqualFold(invitations[i].login, invitations[j].login))
  }

  /** A fact of GitHub: member logins are distinct up to case. */
  ghost predicate MembersDistinct(members: seq<Member>) {
    DistinctBy(members, MemberKey)
  }

  lemma {:induction false} InvitedSound(invitations: seq<Invitation>)
    ensures forall k :: k in Invited(invitations) ==>
      Invited(invitations)[k] in invitations && Lower(Invited(invitations)[k].login) == k && Invited(invitations)[k].login != ""
    ensures forall v :: v in invitations && v.login != "" ==> Lower(v.login) in Invited(invitations)
  {
    if invitations != [] {
      var rest := invitations[..|invitations| - 1];
      InvitedSound(rest);
      assert invitations == rest + [invitations[|invitations| - 1]];
    }
  }

  lemma InvitedStep(invitations: seq<Invitation>, i: nat)
    requires i < |invitations|
    ensures Invited(invitations[..i + 1]) ==
      if invitations[i].login == "" then Invited(invitations[..i])
      else Invited(invitations[..i])[Lower(invitations[i].login) := invitations[i]]
  {
    assert invitations[..i + 1][..i] == invitations[..i];
  }
}
