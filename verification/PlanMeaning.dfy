/** What a plan does, said of the letters of logins: logins are GitHub's, which does
    not tell cases apart (pkg/reconciler/reconciler.go). */
module PlanMeaning {
  import opened Text
  import opened Indexing
  import opened OrgState
  import opened Document
  import opened PlanSpec

  // ----- who is where, in any case -----

  ghost predicate OnList(list: seq<string>, login: string) {
    exists x :: x in list && SameLetters(x, login)
  }

  ghost predicate IsMember(s: State, login: string) {
    exists m :: m in s.members && SameLetters(m.login, login)
  }

  /** Invited under a login, not by address. */
  ghost predicate IsInvited(s: State, login: string) {
    exists v :: v in s.invitations && v.login != "" && SameLetters(v.login, login)
  }

  ghost predicate Wanted(cfg: OrgDoc, login: string) {
    OnList(cfg.admins, login) || OnList(cfg.members, login)
  }

  lemma ListedIff(list: seq<string>, login: string)
    ensures Lower(login) in ByLower(list) <==> OnList(list, login)
  {
    IndexBySound(list, LoginKey);
    forall x {
      FoldsIff(x, login);
    }
  }

  lemma DesiredIff(cfg: OrgDoc, login: string)
    ensures Lower(login) in Desired(cfg) <==> Wanted(cfg, login)
    ensures Wanted(cfg, login) ==> (Desired(cfg)[Lower(login)].admin <==> OnList(cfg.admins, login))
    ensures Wanted(cfg, login) ==> var x := Desired(cfg)[Lower(login)].login;
      SameLetters(x, login) && (x in cfg.admins || x in cfg.members)
  {
    DesiredSound(cfg);
    ListedIff(cfg.admins, login);
    ListedIff(cfg.members, login);
    if Wanted(cfg, login) {
      FoldsIff(Desired(cfg)[Lower(login)].login, login);
    }
  }

  lemma CurrentIff(s: State, login: string)
    ensures Lower(login) in Current(s.members) <==> IsMember(s, login)
  {
    IndexBySound(s.members, MemberKey);
    forall m: Member {
      FoldsIff(m.login, login);
    }
    if Lower(login) in Current(s.members) {
      assert SameLetters(Current(s.members)[Lower(login)].login, login);
    }
  }

  lemma InvitedIff(s: State, login: string)
    ensures Lower(login) in Invited(s.invitations) <==> IsInvited(s, login)
  {
    InvitedSound(s.invitations);
    forall v: Invitation {
      FoldsIff(v.login, login);
    }
    if Lower(login) in Invited(s.invitations) {
      assert SameLetters(Invited(s.invitations)[Lower(login)].login, login);
    }
  }

  lemma OnlyMember(s: State, m: Member)
    requires MembersDistinct(s.members) && m in s.members
    ensures Lower(m.login) in Current(s.members) && Current(s.members)[Lower(m.login)] == m
  {
    IndexByDistinct(s.members, MemberKey, m);
  }

  // ----- the organization -----

  function Leave(login: string): Action { Action(RemoveMember, login, "", false, 0) }

  function Withdraw(v: Invitation): Action { Action(CancelInvite, v.login, "", false, v.id) }

  function Turn(login: string, admin: bool): Action { Action(SetRole, login, "", admin, 0) }

  function Ask(login: string, admin: bool): Action {
    Action(if admin then AddAdmin else AddMember, login, "", admin, 0)
  }

  /** A member is removed exactly when the document wants no login of those letters. */
  lemma RemovesIff(cfg: OrgDoc, s: State, login: string)
    requires MembersDistinct(s.members)
    ensures Owes(cfg, s, Leave(login)) <==> (exists m :: m in s.members && m.login == login) && !Wanted(cfg, login)
  {
    DesiredIff(cfg, login);
    IndexBySound(s.members, MemberKey);
    forall m | m in s.members && m.login == login ensures Current(s.members)[Lower(login)] == m && Lower(login) in Current(s.members) {
      OnlyMember(s, m);
    }
  }

  /** Some owed action of this shape names a login of these letters. */
  ghost predicate Invites(cfg: OrgDoc, s: State, login: string, admin: bool) {
    exists x :: Owes(cfg, s, Ask(x, admin)) && SameLetters(x, login)
  }

  lemma AskedIs(cfg: OrgDoc, s: State, x: string, admin: bool)
    ensures Owes(cfg, s, Ask(x, admin)) <==>
      var k := Lower(x);
      && k in Desired(cfg) && k !in Current(s.members) && k !in Invited(s.invitations)
      && Desired(cfg)[k] == DesiredMember(x, admin)
  {
  }

  /** Somebody is invited exactly when wanted and, in any case, neither in nor invited;
      and as what the document says. */
  lemma InvitesIff(cfg: OrgDoc, s: State, login: string, admin: bool)
    ensures Invites(cfg, s, login, admin) <==>
      Wanted(cfg, login) && (admin <==> OnList(cfg.admins, login)) && !IsMember(s, login) && !IsInvited(s, login)
  {
    DesiredIff(cfg, login);
    CurrentIff(s, login);
    InvitedIff(s, login);
    if x :| Owes(cfg, s, Ask(x, admin)) && SameLetters(x, login) {
      FoldsIff(x, login);
      AskedIs(cfg, s, x, admin);
    }
    if Wanted(cfg, login) {
      var x := Desired(cfg)[Lower(login)].login;
      FoldsIff(x, login);
      AskedIs(cfg, s, x, admin);
    }
  }

  /** An invitation is withdrawn exactly when the document wants no login of its
      letters. */
  lemma WithdrawsIff(cfg: OrgDoc, s: State, v: Invitation)
    requires InvitationsDistinct(s.invitations)
    ensures Owes(cfg, s, Withdraw(v)) <==> v in s.invitations && v.login != "" && !Wanted(cfg, v.login)
  {
    DesiredIff(cfg, v.login);
    InvitedSound(s.invitations);
  }

  /** A role is set exactly on a member the document wants in the other role. */
  lemma TurnsIff(cfg: OrgDoc, s: State, login: string, admin: bool)
    requires MembersDistinct(s.members)
    ensures Owes(cfg, s, Turn(login, admin)) <==>
      && (exists m :: m in s.members && m.login == login && (m.role == RoleAdmin) != admin)
      && Wanted(cfg, login) && (admin <==> OnList(cfg.admins, login))
  {
    DesiredIff(cfg, login);
    IndexBySound(s.members, MemberKey);
    forall m | m in s.members && m.login == login ensures Current(s.members)[Lower(login)] == m && Lower(login) in Current(s.members) {
      OnlyMember(s, m);
    }
  }

  // ----- teams -----

  function Join(login: string, slug: string): Action { Action(TeamAdd, login, slug, false, 0) }

  function Quit(login: string, slug: string): Action { Action(TeamRemove, login, slug, false, 0) }

  ghost predicate WantedIn(cfg: OrgDoc, slug: string, login: string)
    requires slug in cfg.teams
  {
    OnList(cfg.teams[slug].members, login) || OnList(cfg.teams[slug].maintainers, login)
  }

  lemma TeamDesiredIff(cfg: OrgDoc, slug: string, login: string)
    requires slug in cfg.teams
    ensures Lower(login) in TeamDesired(cfg.teams[slug]) <==> WantedIn(cfg, slug, login)
  {
    ListedIff(cfg.teams[slug].members, login);
    ListedIff(cfg.teams[slug].maintainers, login);
  }

  ghost predicate GivesSeat(cfg: OrgDoc, s: State, slug: string, login: string) {
    exists x :: Owes(cfg, s, Join(x, slug)) && SameLetters(x, login)
  }

  ghost predicate TakesSeat(cfg: OrgDoc, s: State, slug: string, login: string) {
    exists x :: Owes(cfg, s, Quit(x, slug)) && SameLetters(x, login)
  }

  lemma JoinIs(cfg: OrgDoc, s: State, slug: string, x: string)
    ensures Owes(cfg, s, Join(x, slug)) <==>
      && slug in cfg.teams && slug in s.teamMembers
      && Lower(x) in TeamDesired(cfg.teams[slug]) && TeamDesired(cfg.teams[slug])[Lower(x)] == x
      && Lower(x) !in ByLower(s.teamMembers[slug])
  {
  }

  lemma QuitIs(cfg: OrgDoc, s: State, slug: string, x: string)
    ensures Owes(cfg, s, Quit(x, slug)) <==>
      && slug in cfg.teams && slug in s.teamMembers
      && Lower(x) in ByLower(s.teamMembers[slug]) && ByLower(s.teamMembers[slug])[Lower(x)] == x
      && Lower(x) !in TeamDesired(cfg.teams[slug])
  {
  }

  /** A seat is given exactly to somebody wanted in the team and, in any case, not in it. */
  lemma JoinsIff(cfg: OrgDoc, s: State, slug: string, login: string)
    ensures GivesSeat(cfg, s, slug, login) <==>
      slug in cfg.teams && slug in s.teamMembers && WantedIn(cfg, slug, login) && !OnList(s.teamMembers[slug], login)
  {
    if slug in cfg.teams && slug in s.teamMembers {
      TeamDesiredIff(cfg, slug, login);
      TeamDesiredSound(cfg.teams[slug]);
      ListedIff(s.teamMembers[slug], login);
      if Lower(login) in TeamDesired(cfg.teams[slug]) {
        var x := TeamDesired(cfg.teams[slug])[Lower(login)];
        FoldsIff(x, login);
        JoinIs(cfg, s, slug, x);
      }
    }
    if x :| Owes(cfg, s, Join(x, slug)) && SameLetters(x, login) {
      FoldsIff(x, login);
      JoinIs(cfg, s, slug, x);
    }
  }

  /** A seat is taken exactly from somebody in the team whom it wants under no case. */
  lemma QuitsIff(cfg: OrgDoc, s: State, slug: string, login: string)
    ensures TakesSeat(cfg, s, slug, login) <==>
      slug in cfg.teams && slug in s.teamMembers && OnList(s.teamMembers[slug], login) && !WantedIn(cfg, slug, login)
  {
    if slug in cfg.teams && slug in s.teamMembers {
      TeamDesiredIff(cfg, slug, login);
      ListedIff(s.teamMembers[slug], login);
      IndexBySound(s.teamMembers[slug], LoginKey);
      if Lower(login) in ByLower(s.teamMembers[slug]) {
        var x := ByLower(s.teamMembers[slug])[Lower(login)];
        FoldsIff(x, login);
        QuitIs(cfg, s, slug, x);
      }
    }
    if x :| Owes(cfg, s, Quit(x, slug)) && SameLetters(x, login) {
      FoldsIff(x, login);
      QuitIs(cfg, s, slug, x);
    }
  }

  // ----- whole plans -----

  /** A plan holds nothing but these. */
  lemma ShapesOnly(cfg: OrgDoc, s: State, a: Action)
    ensures Owes(cfg, s, a) ==>
      || a == Leave(a.login) || a == Withdraw(Invitation(a.invitationId, a.login)) || a == Turn(a.login, a.admin)
      || a == Ask(a.login, a.admin) || a == Join(a.login, a.team) || a == Quit(a.login, a.team)
  {
  }

  /** Case makes no difference: a member whose login has the letters of a wanted one is
      neither invited again nor removed. */
  lemma CaseIsNoChange(doc: Doc, org: string, s: State, opts: Options, actions: seq<Action>, m: Member, wanted: string, a: Action)
    requires org in doc && Answers(doc, org, s, opts, Planned(actions))
    requires m in s.members && SameLetters(m.login, wanted) && (wanted in doc[org].admins || wanted in doc[org].members)
    ensures a in actions && SameLetters(a.login, wanted) ==> a.kind !in {AddAdmin, AddMember, RemoveMember, CancelInvite}
  {
    FoldsIff(m.login, wanted);
    FoldsIff(a.login, wanted);
    FoldsIff(wanted, wanted);
    DesiredIff(doc[org], wanted);
    CurrentIff(s, wanted);
  }

  // ----- refusals -----

  /** The team slug is the document's and unknown to GitHub. */
  ghost predicate Unknown(cfg: OrgDoc, s: State, slug: string) {
    slug in cfg.teams && slug !in s.teamMembers
  }

  /** And the first such in byte order. */
  ghost predicate FirstUnknown(cfg: OrgDoc, s: State, slug: string) {
    Unknown(cfg, s, slug) && forall t :: Unknown(cfg, s, t) && t != slug ==> Before(slug, t)
  }

  /** The document asks for access somebody does not have. */
  ghost predicate AsksForMore(cfg: OrgDoc, s: State) {
    || (exists login :: Wanted(cfg, login) && !IsMember(s, login) && !IsInvited(s, login))
    || exists slug, login ::
         slug in cfg.teams && slug in s.teamMembers && WantedIn(cfg, slug, login) && !OnList(s.teamMembers[slug], login)
  }

  lemma GrantsIff(cfg: OrgDoc, s: State)
    ensures (exists a :: Owes(cfg, s, a) && Grants(a)) <==> AsksForMore(cfg, s)
  {
    forall a | Owes(cfg, s, a) && Grants(a) ensures AsksForMore(cfg, s) {
      GrantAsks(cfg, s, a);
    }
    forall login | Wanted(cfg, login) && !IsMember(s, login) && !IsInvited(s, login) ensures exists a :: Owes(cfg, s, a) && Grants(a) {
      InvitesIff(cfg, s, login, OnList(cfg.admins, login));
      var x :| Owes(cfg, s, Ask(x, OnList(cfg.admins, login)));
      assert Grants(Ask(x, OnList(cfg.admins, login)));
    }
    forall slug, login | slug in cfg.teams && slug in s.teamMembers && WantedIn(cfg, slug, login) && !OnList(s.teamMembers[slug], login)
      ensures exists a :: Owes(cfg, s, a) && Grants(a)
    {
      JoinsIff(cfg, s, slug, login);
      var x :| Owes(cfg, s, Join(x, slug));
      assert Grants(Join(x, slug));
    }
  }

  lemma GrantAsks(cfg: OrgDoc, s: State, a: Action)
    requires Owes(cfg, s, a) && Grants(a)
    ensures AsksForMore(cfg, s)
  {
    FoldsIff(a.login, a.login);
    ShapesOnly(cfg, s, a);
    if a.kind == TeamAdd {
      assert GivesSeat(cfg, s, a.team, a.login);
      JoinsIff(cfg, s, a.team, a.login);
    } else {
      assert Invites(cfg, s, a.login, a.admin);
      InvitesIff(cfg, s, a.login, a.admin);
    }
  }

  lemma FirstIs(cfg: OrgDoc, s: State, slug: string)
    requires MissingTeam(cfg, s, slug)
    ensures FirstUnknown(cfg, s, slug) <==> forall t :: MissingTeam(cfg, s, t) ==> !Less(t, slug)
  {
    forall t ensures Unknown(cfg, s, t) <==> MissingTeam(cfg, s, t) {}
    forall t | Unknown(cfg, s, t) && t != slug ensures Before(slug, t) <==> !Less(t, slug) {
      LessIff(slug, t);
      LessTotal(slug, t);
      if Less(slug, t) && Less(t, slug) {
        LessTransitive(slug, t, slug);
        LessIrreflexive(slug);
      }
    }
    LessIrreflexive(slug);
  }

  /** Why there is no plan, each refusal exactly when the ones before it do not apply:
      no such organization; too few owners; a team GitHub does not know, the first; a
      removals-only document that asks for more. */
  lemma RefusedIff(doc: Doc, org: string, s: State, opts: Options, v: Verdict)
    requires Answers(doc, org, s, opts, v)
    ensures v == Refused(NoSuchOrg) <==> org !in doc
    ensures org in doc ==>
      var cfg := doc[org];
      var few, unknown := |cfg.admins| < opts.minAdmins, exists slug :: Unknown(cfg, s, slug);
      && (v == Refused(BelowMinAdmins) <==> few)
      && (forall slug :: v == Refused(UnknownTeam(slug)) <==> !few && FirstUnknown(cfg, s, slug))
      && (v == Refused(RemovalsOnlyAdds) <==> !few && !unknown && opts.mode == RemovalsOnly && AsksForMore(cfg, s))
      && (v.Planned? <==> !few && !unknown && !(opts.mode == RemovalsOnly && AsksForMore(cfg, s)))
  {
    if org in doc {
      var cfg := doc[org];
      GrantsIff(cfg, s);
      forall slug ensures Unknown(cfg, s, slug) <==> MissingTeam(cfg, s, slug) {}
      forall slug ensures v == Refused(UnknownTeam(slug)) <==> |cfg.admins| >= opts.minAdmins && FirstUnknown(cfg, s, slug) {
        UnknownIff(cfg, s, opts, v, slug);
      }
    }
  }

  lemma UnknownIff(cfg: OrgDoc, s: State, opts: Options, v: Verdict, slug: string)
    requires AnswersStanza(cfg, s, opts, v)
    ensures v == Refused(UnknownTeam(slug)) <==> |cfg.admins| >= opts.minAdmins && FirstUnknown(cfg, s, slug)
  {
    if MissingTeam(cfg, s, slug) {
      FirstIs(cfg, s, slug);
      if v.Refused? && v.reason.UnknownTeam? {
        LessTotal(slug, v.reason.slug);
      }
    }
  }

  // ----- the order -----

  /** The kinds in the order they run within one team, or within the organization. */
  const ORDER := [SetRole, AddAdmin, AddMember, CancelInvite, RemoveMember, TeamAdd, TeamRemove]

  lemma RankIsPlace(kind: ActionKind)
    ensures Rank(kind) < |ORDER| && ORDER[Rank(kind)] == kind
  {
  }

  /** Actions run team by team, the organization's own first; within a team by kind, in
      the order above; and within a kind by folded login. */
  lemma RunsInOrder(cfg: OrgDoc, s: State, actions: seq<Action>, i: nat, j: nat)
    requires IsPlan(cfg, s, actions) && i < j < |actions|
    ensures var a, b := actions[i], actions[j];
      || Before(a.team, b.team)
      || (a.team == b.team && exists p, q :: 0 <= p < q < |ORDER| && ORDER[p] == a.kind && ORDER[q] == b.kind)
      || (a.team == b.team && a.kind == b.kind && Before(Lower(a.login), Lower(b.login)))
  {
    var a, b := actions[i], actions[j];
    assert ActionLess(a, b);
    LessIff(a.team, b.team);
    LessIff(Lower(a.login), Lower(b.login));
    RankIsPlace(a.kind);
    RankIsPlace(b.kind);
    if a.team == b.team && Rank(a.kind) < Rank(b.kind) {
      assert ORDER[Rank(a.kind)] == a.kind && ORDER[Rank(b.kind)] == b.kind;
    }
  }
}
