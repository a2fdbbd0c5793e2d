/** What a plan is: the changes a document owes to a live organization, in the
    one order the reconciler prints them (pkg/reconciler/reconciler.go). */
module PlanSpec {
  import opened Text
  import opened Sorting
  import opened OrgState
  import opened Document

  datatype ActionKind = SetRole | AddAdmin | AddMember | CancelInvite | RemoveMember | TeamAdd | TeamRemove

  datatype Action = Action(kind: ActionKind, login: string, team: string, admin: bool, invitationId: int)

  datatype Options = Options(mode: Mode, minAdmins: int)

  datatype Refusal =
    | NoSuchOrg
    | BelowMinAdmins
    | UnknownTeam(slug: string)
    | RemovalsOnlyAdds

  datatype Verdict = Planned(actions: seq<Action>) | Refused(reason: Refusal)

  // ----- order -----

  function Rank(kind: ActionKind): nat {
    match kind
    case SetRole => 0
    case AddAdmin => 1
    case AddMember => 2
    case CancelInvite => 3
    case RemoveMember => 4
    case TeamAdd => 5
    case TeamRemove => 6
  }

  /** Team, then kind, then folded login: the comparator of sortActions. */
  predicate ActionLess(a: Action, b: Action) {
    if a.team != b.team then Less(a.team, b.team)
    else if Rank(a.kind) != Rank(b.kind) then Rank(a.kind) < Rank(b.kind)
    else Less(Lower(a.login), Lower(b.login))
  }

  /** The comparator cannot tell a and b apart. */
  predicate SameKey(a: Action, b: Action) {
    a.team == b.team && a.kind == b.kind && EqualFold(a.login, b.login)
  }

  lemma ActionLessIrreflexive(a: Action, b: Action)
    requires SameKey(a, b)
    ensures !ActionLess(a, b)
  {
    LessIrreflexive(Lower(a.login));
  }

  lemma ActionLessTransitive(a: Action, b: Action, c: Action)
    requires ActionLess(a, b) && ActionLess(b, c)
    ensures ActionLess(a, c)
  {
    if a.team == b.team == c.team {
      if Rank(a.kind) == Rank(b.kind) == Rank(c.kind) {
        LessTransitive(Lower(a.login), Lower(b.login), Lower(c.login));
      }
    } else if a.team != b.team && b.team != c.team {
      LessTransitive(a.team, b.team, c.team);
      LessIrreflexive(a.team);
      assert a.team != c.team by {
        if a.team == c.team { LessTransitive(a.team, b.team, a.team); }
      }
    }
  }

  lemma ActionLessTotal(a: Action, b: Action)
    ensures SameKey(a, b) || ActionLess(a, b) || ActionLess(b, a)
  {
    LessTotal(a.team, b.team);
    LessTotal(Lower(a.login), Lower(b.login));
  }

  lemma ActionOrderIsStrict()
    ensures StrictOrder(ActionLess)
  {
    forall a: Action { ActionLessIrreflexive(a, a); }
    forall a, b, c | ActionLess(a, b) && ActionLess(b, c) ensures ActionLess(a, c) {
      ActionLessTransitive(a, b, c);
    }
  }

  ghost predicate StrictlySorted(s: seq<Action>) {
    StrictlySortedBy(s, ActionLess)
  }

  lemma SortedUnique(p: seq<Action>, q: seq<Action>)
    requires StrictlySorted(p) && StrictlySorted(q)
    requires forall a :: a in p <==> a in q
    ensures p == q
  {
    ActionOrderIsStrict();
    SortedListUnique(p, q, ActionLess);
  }

  lemma TailMembership(s: seq<Action>, a: Action)
    requires s != [] && StrictlySorted(s)
    ensures a in s[1..] <==> a in s && a != s[0]
  {
    ActionOrderIsStrict();
    TailHas(s, ActionLess, a);
  }

  // ----- what is owed -----

  /** The organization-level changes, given who is wanted, present and invited. */
  predicate OrgOwed(desired: map<string, DesiredMember>, current: map<string, Member>,
                    invited: map<string, Invitation>, a: Action)
  {
    var k := Lower(a.login);
    match a.kind
    case SetRole =>
      k in desired && k in current && (current[k].role == RoleAdmin) != desired[k].admin &&
      a == Action(SetRole, current[k].login, "", desired[k].admin, 0)
    case AddAdmin =>
      k in desired && k !in current && k !in invited && desired[k].admin &&
      a == Action(AddAdmin, desired[k].login, "", true, 0)
    case AddMember =>
      k in desired && k !in current && k !in invited && !desired[k].admin &&
      a == Action(AddMember, desired[k].login, "", false, 0)
    case RemoveMember =>
      k in current && k !in desired && a == Action(RemoveMember, current[k].login, "", false, 0)
    case CancelInvite =>
      k in invited && k !in desired && a == Action(CancelInvite, invited[k].login, "", false, invited[k].id)
    case _ => false
  }

  /** The changes to the team slug, given who is wanted in it and who is there. */
  predicate TeamOwed(slug: string, desired: map<string, string>, live: map<string, string>, a: Action) {
    var k := Lower(a.login);
    match a.kind
    case TeamAdd => k in desired && k !in live && a == Action(TeamAdd, desired[k], slug, false, 0)
    case TeamRemove => k in live && k !in desired && a == Action(TeamRemove, live[k], slug, false, 0)
    case _ => false
  }

  /** A change of organization-level membership the document owes. */
  predicate OwesOrg(cfg: OrgDoc, s: State, a: Action) {
    OrgOwed(Desired(cfg), Current(s.members), Invited(s.invitations), a)
  }

  /** A change of one team's membership the document owes. */
  predicate OwesTeam(cfg: OrgDoc, s: State, a: Action) {
    && a.team in cfg.teams && a.team in s.teamMembers
    && TeamOwed(a.team, TeamDesired(cfg.teams[a.team]), ByLower(s.teamMembers[a.team]), a)
  }

  predicate Owes(cfg: OrgDoc, s: State, a: Action) {
    OwesOrg(cfg, s, a) || OwesTeam(cfg, s, a)
  }

  /** Before sorting, no two owed changes look alike to the comparator. */
  lemma OwedKeysDistinct(cfg: OrgDoc, s: State, a: Action, b: Action)
    requires Owes(cfg, s, a) && Owes(cfg, s, b) && SameKey(a, b)
    ensures a == b
  {
  }

  predicate Grants(a: Action) {
    a.kind == AddMember || a.kind == AddAdmin || a.kind == TeamAdd
  }

  // ----- the verdict -----

  ghost predicate MissingTeam(cfg: OrgDoc, s: State, slug: string) {
    slug in cfg.teams && slug !in s.teamMembers
  }

  /** actions is the plan: everything owed, once, in order. */
  ghost predicate IsPlan(cfg: OrgDoc, s: State, actions: seq<Action>) {
    StrictlySorted(actions) && forall a :: a in actions <==> Owes(cfg, s, a)
  }

  /** v is what BuildPlan answers for a stanza; the refusals are tried in this order. */
  ghost predicate AnswersStanza(cfg: OrgDoc, s: State, opts: Options, v: Verdict) {
    if |cfg.admins| < opts.minAdmins then v == Refused(BelowMinAdmins)
    else if exists slug :: MissingTeam(cfg, s, slug) then
      && v.Refused? && v.reason.UnknownTeam? && MissingTeam(cfg, s, v.reason.slug)
      && forall slug :: MissingTeam(cfg, s, slug) ==> !Less(slug, v.reason.slug)
    else if opts.mode == RemovalsOnly && exists a :: Owes(cfg, s, a) && Grants(a) then
      v == Refused(RemovalsOnlyAdds)
    else v.Planned? && IsPlan(cfg, s, v.actions)
  }

  /** v is what BuildPlan answers. */
  ghost predicate Answers(doc: Doc, org: string, s: State, opts: Options, v: Verdict) {
    if org !in doc then v == Refused(NoSuchOrg) else AnswersStanza(doc[org], s, opts, v)
  }

  /** The verdict is canonical: whatever order maps are walked in, equal inputs
      give one action list (and so one plan hash), or one refusal. */
  lemma VerdictUnique(doc: Doc, org: string, s: State, opts: Options, v: Verdict, w: Verdict)
    requires Answers(doc, org, s, opts, v) && Answers(doc, org, s, opts, w)
    ensures v == w
  {
    if v.Planned? && w.Planned? {
      SortedUnique(v.actions, w.actions);
    } else if v.Refused? && w.Refused? && v.reason.UnknownTeam? && w.reason.UnknownTeam? {
      LessTotal(v.reason.slug, w.reason.slug);
    }
  }
}
