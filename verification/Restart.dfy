/** Stopping a plan anywhere and planning again owes exactly what was left. */
module Restart {
  import opened Text
  import opened Indexing
  import opened OrgState
  import opened Document
  import opened PlanSpec
  import opened Execution

  // ----- how each write moves the maps the planner reads -----

  function Promote(current: map<string, Member>, k: string, role: Role): map<string, Member> {
    if k in current then current[k := current[k].(role := role)] else current
  }

  lemma {:induction false} WithRoleCurrent(members: seq<Member>, k: string, role: Role)
    ensures Current(WithRole(members, k, role)) == Promote(Current(members), k, role)
  {
    if members != [] {
      var rest := members[..|members| - 1];
      var last := members[|members| - 1];
      WithRoleCurrent(rest, k, role);
      var next := if Lower(last.login) == k then last.(role := role) else last;
      IndexByAppend(WithRole(rest, k, role), MemberKey, next);
      PromoteCommutes(Current(rest), last, k, role);
    }
  }

  lemma PromoteCommutes(current: map<string, Member>, m: Member, k: string, role: Role)
    ensures Promote(current[MemberKey(m) := m], k, role) ==
      Promote(current, k, role)[MemberKey(m) := if MemberKey(m) == k then m.(role := role) else m]
  {
  }

  lemma InviteInvited(s: State, id: int, login: string)
    requires login != ""
    ensures Invited(Invite(s, id, login).invitations) == Invited(s.invitations)[Lower(login) := Invitation(id, login)]
  {
    assert (s.invitations + [Invitation(id, login)])[..|s.invitations|] == s.invitations;
  }

  lemma {:induction false} WithoutIdSound(invitations: seq<Invitation>, id: int)
    ensures forall v :: v in WithoutId(invitations, id) <==> v in invitations && v.id != id
  {
    if invitations != [] {
      WithoutIdSound(invitations[..|invitations| - 1], id);
      assert invitations == invitations[..|invitations| - 1] + [invitations[|invitations| - 1]];
    }
  }

  lemma {:induction false} WithoutIdDistinct(invitations: seq<Invitation>, id: int)
    requires InvitationsDistinct(invitations)
    ensures InvitationsDistinct(WithoutId(invitations, id))
  {
    if invitations != [] {
      var rest := invitations[..|invitations| - 1];
      WithoutIdDistinct(rest, id);
      WithoutIdSound(rest, id);
    }
  }

  lemma InvitedIs(invitations: seq<Invitation>, v: Invitation)
    requires InvitationsDistinct(invitations) && v in invitations && v.login != ""
    ensures Lower(v.login) in Invited(invitations) && Invited(invitations)[Lower(v.login)] == v
  {
    InvitedSound(invitations);
  }

  /** Cancelling an invitation by ID forgets its login and no other. */
  lemma CancelInvited(invitations: seq<Invitation>, v: Invitation)
    requires InvitationsDistinct(invitations) && v in invitations && v.login != ""
    ensures Invited(WithoutId(invitations, v.id)) == Invited(invitations) - {Lower(v.login)}
  {
    WithoutIdSound(invitations, v.id);
    InvitedAmong(WithoutId(invitations, v.id), invitations);
    forall k {
      CancelledIs(invitations, v, k);
    }
  }

  lemma CancelledIs(invitations: seq<Invitation>, v: Invitation, k: string)
    requires InvitationsDistinct(invitations) && v in invitations && v.login != ""
    ensures k in Invited(WithoutId(invitations, v.id)) <==> k in Invited(invitations) && k != Lower(v.login)
  {
    var kept := WithoutId(invitations, v.id);
    WithoutIdSound(invitations, v.id);
    WithoutIdDistinct(invitations, v.id);
    InvitedIs(invitations, v);
    if k in Invited(kept) {
      InvitedSound(kept);
      InvitedIs(invitations, Invited(kept)[k]);
    }
    if k in Invited(invitations) && k != Lower(v.login) {
      InvitedSound(invitations);
      InvitedIs(kept, Invited(invitations)[k]);
    }
  }

  /** Some of the invitations answer a login as all of them do. */
  lemma InvitedAmong(some: seq<Invitation>, all: seq<Invitation>)
    requires InvitationsDistinct(all) && forall v :: v in some ==> v in all
    ensures forall k :: k in Invited(some) ==> k in Invited(all) && Invited(all)[k] == Invited(some)[k]
  {
    InvitedSound(some);
    forall k | k in Invited(some) ensures k in Invited(all) && Invited(all)[k] == Invited(some)[k] {
      InvitedIs(all, Invited(some)[k]);
    }
  }

  // ----- one owed write settles exactly itself -----

  predicate IsInvite(a: Action) {
    a.kind == AddAdmin || a.kind == AddMember
  }

  /** Nobody without a login is invited: such an invitation could never be told
      from an invitation by address. */
  predicate InvitesNamed(plan: seq<Action>) {
    forall a :: a in plan && IsInvite(a) ==> a.login != ""
  }

  /** What a team still holds after the folded logins in gone left it. */
  ghost predicate TeamsLost(before: map<string, seq<string>>, after: map<string, seq<string>>, gone: set<string>) {
    before.Keys == after.Keys && forall slug :: slug in before ==> ByLower(after[slug]) == ByLower(before[slug]) - gone
  }

  lemma RoleSettled(desired: map<string, DesiredMember>, current: map<string, Member>,
                    invited: map<string, Invitation>, a: Action, b: Action)
    requires OrgOwed(desired, current, invited, a) && a.kind == SetRole
    requires forall k :: k in current ==> Lower(current[k].login) == k
    ensures OrgOwed(desired, Promote(current, Lower(a.login), RoleOf(a.admin)), invited, b) <==>
      OrgOwed(desired, current, invited, b) && b != a
  {
  }

  lemma InviteSettled(desired: map<string, DesiredMember>, current: map<string, Member>,
                      invited: map<string, Invitation>, a: Action, id: int, b: Action)
    requires OrgOwed(desired, current, invited, a) && (a.kind == AddAdmin || a.kind == AddMember)
    requires forall k :: k in desired ==> Lower(desired[k].login) == k
    ensures OrgOwed(desired, current, invited[Lower(a.login) := Invitation(id, a.login)], b) <==>
      OrgOwed(desired, current, invited, b) && b != a
  {
  }

  lemma StepRole(cfg: OrgDoc, s: State, a: Action, s': State)
    requires OwesOrg(cfg, s, a) && a.kind == SetRole && MembershipSet(s, a.login, a.admin, s')
    ensures s'.invitations == s.invitations && s'.teamMembers == s.teamMembers
    ensures forall b :: OwesOrg(cfg, s', b) <==> OwesOrg(cfg, s, b) && b != a
  {
    var desired, current, invited := Desired(cfg), Current(s.members), Invited(s.invitations);
    WithRoleCurrent(s.members, Lower(a.login), RoleOf(a.admin));
    IndexBySound(s.members, MemberKey);
    forall b { RoleSettled(desired, current, invited, a, b); }
  }

  lemma InviteKeepsDistinct(s: State, id: int, login: string)
    requires InvitationsDistinct(s.invitations) && FreshId(s.invitations, id) && login != "" && Lower(login) !in Invited(s.invitations)
    ensures InvitationsDistinct(Invite(s, id, login).invitations)
  {
    InvitedSound(s.invitations);
  }

  lemma StepInvite(cfg: OrgDoc, s: State, a: Action, s': State)
    requires InvitationsDistinct(s.invitations) && a.login != ""
    requires OwesOrg(cfg, s, a) && a.kind in {AddAdmin, AddMember} && MembershipSet(s, a.login, a.admin, s')
    ensures InvitationsDistinct(s'.invitations) && s'.teamMembers == s.teamMembers
    ensures forall b :: OwesOrg(cfg, s', b) <==> OwesOrg(cfg, s, b) && b != a
  {
    var desired, current, invited := Desired(cfg), Current(s.members), Invited(s.invitations);
    DesiredSound(cfg);
    var id :| FreshId(s.invitations, id) && s' == Invite(s, id, a.login);
    InviteKeepsDistinct(s, id, a.login);
    InviteInvited(s, id, a.login);
    forall b { InviteSettled(desired, current, invited, a, id, b); }
  }

  lemma StepMembership(cfg: OrgDoc, s: State, a: Action, s': State)
    requires InvitationsDistinct(s.invitations) && (IsInvite(a) ==> a.login != "")
    requires OwesOrg(cfg, s, a) && a.kind in {SetRole, AddAdmin, AddMember} && MembershipSet(s, a.login, a.admin, s')
    ensures InvitationsDistinct(s'.invitations) && s'.teamMembers == s.teamMembers
    ensures forall b :: OwesOrg(cfg, s', b) <==> OwesOrg(cfg, s, b) && b != a
  {
    if a.kind == SetRole {
      StepRole(cfg, s, a, s');
    } else {
      StepInvite(cfg, s, a, s');
    }
  }

  lemma LeaverSettled(desired: map<string, DesiredMember>, current: map<string, Member>,
                      invited: map<string, Invitation>, a: Action, b: Action)
    requires OrgOwed(desired, current, invited, a) && a.kind == RemoveMember
    requires forall k :: k in current ==> Lower(current[k].login) == k
    ensures OrgOwed(desired, current - {Lower(a.login)}, invited, b) <==> OrgOwed(desired, current, invited, b) && b != a
  {
  }

  lemma StepLeave(cascade: bool, cfg: OrgDoc, s: State, a: Action, s': State)
    requires OwesOrg(cfg, s, a) && a.kind == RemoveMember && s' == MemberRemoved(cascade, s, a.login)
    ensures s'.invitations == s.invitations
    ensures TeamsLost(s.teamMembers, s'.teamMembers, if cascade then {Lower(a.login)} else {})
    ensures forall b :: OwesOrg(cfg, s', b) <==> OwesOrg(cfg, s, b) && b != a
  {
    var k := Lower(a.login);
    IndexByWithout(s.members, MemberKey, k);
    IndexBySound(s.members, MemberKey);
    var desired, current, invited := Desired(cfg), Current(s.members), Invited(s.invitations);
    forall b { LeaverSettled(desired, current, invited, a, b); }
    forall slug | slug in s.teamMembers ensures ByLower(Without(s.teamMembers[slug], LoginKey, k)) == ByLower(s.teamMembers[slug]) - {k} {
      IndexByWithout(s.teamMembers[slug], LoginKey, k);
    }
  }

  lemma CancelSettled(desired: map<string, DesiredMember>, current: map<string, Member>,
                      invited: map<string, Invitation>, a: Action, b: Action)
    requires OrgOwed(desired, current, invited, a) && a.kind == CancelInvite
    requires forall k :: k in invited ==> Lower(invited[k].login) == k
    ensures OrgOwed(desired, current, invited - {Lower(a.login)}, b) <==> OrgOwed(desired, current, invited, b) && b != a
  {
  }

  lemma StepCancel(cfg: OrgDoc, s: State, a: Action, s': State)
    requires InvitationsDistinct(s.invitations)
    requires OwesOrg(cfg, s, a) && a.kind == CancelInvite
    requires s' == s.(invitations := WithoutId(s.invitations, a.invitationId))
    ensures InvitationsDistinct(s'.invitations) && s'.teamMembers == s.teamMembers
    ensures forall b :: OwesOrg(cfg, s', b) <==> OwesOrg(cfg, s, b) && b != a
  {
    var desired, current, invited := Desired(cfg), Current(s.members), Invited(s.invitations);
    InvitedSound(s.invitations);
    WithoutIdDistinct(s.invitations, a.invitationId);
    CancelInvited(s.invitations, invited[Lower(a.login)]);
    forall b { CancelSettled(desired, current, invited, a, b); }
  }

  lemma JoinSettled(slug: string, desired: map<string, string>, live: map<string, string>, a: Action, b: Action)
    requires TeamOwed(slug, desired, live, a) && a.kind == TeamAdd && forall k :: k in live ==> Lower(live[k]) == k
    ensures TeamOwed(slug, desired, live[Lower(a.login) := a.login], b) <==> TeamOwed(slug, desired, live, b) && b != a
  {
  }

  lemma LossSettled(slug: string, desired: map<string, string>, live: map<string, string>, a: Action, b: Action)
    requires TeamOwed(slug, desired, live, a) && a.kind == TeamRemove && forall k :: k in live ==> Lower(live[k]) == k
    ensures TeamOwed(slug, desired, live - {Lower(a.login)}, b) <==> TeamOwed(slug, desired, live, b) && b != a
  {
  }

  lemma StepTeam(cfg: OrgDoc, s: State, a: Action, s': State)
    requires OwesTeam(cfg, s, a) && Step(false, s, a, s')
    ensures s'.members == s.members && s'.invitations == s.invitations && s'.teamMembers.Keys == s.teamMembers.Keys
    ensures forall b :: OwesTeam(cfg, s', b) <==> OwesTeam(cfg, s, b) && b != a
  {
    var k, roster := Lower(a.login), s.teamMembers[a.team];
    var desired, live := TeamDesired(cfg.teams[a.team]), ByLower(roster);
    TeamDesiredSound(cfg.teams[a.team]);
    IndexBySound(roster, LoginKey);
    if a.kind == TeamAdd {
      IndexByAppend(roster, LoginKey, a.login);
      forall b { JoinSettled(a.team, desired, live, a, b); }
    } else {
      IndexByWithout(roster, LoginKey, k);
      forall b { LossSettled(a.team, desired, live, a, b); }
    }
  }

  // ----- whole runs -----

  predicate IsTeamKind(kind: ActionKind) {
    kind == TeamAdd || kind == TeamRemove
  }

  /** The folded logins that lost their teams by leaving the organization. */
  ghost function EvictedBy(cascade: bool, done: seq<Action>): set<string> {
    if cascade then set a | a in done && a.kind == RemoveMember :: Lower(a.login) else {}
  }

  /** A team removal that an eviction already carried out. */
  predicate Vanished(gone: set<string>, b: Action) {
    b.kind == TeamRemove && Lower(b.login) in gone
  }

  /** A resident the document wants in a team, but not in the organization: the
      eviction takes the seat and a new plan wants it back. */
  ghost predicate Displaced(cfg: OrgDoc, s: State, gone: set<string>, b: Action) {
    var k := Lower(b.login);
    && k in gone && b.team in cfg.teams && b.team in s.teamMembers
    && k in TeamDesired(cfg.teams[b.team]) && k in ByLower(s.teamMembers[b.team])
    && b == Action(TeamAdd, TeamDesired(cfg.teams[b.team])[k], b.team, false, 0)
  }

  /** What is still owed when rest is left to run and gone have been evicted. */
  ghost predicate Left(cfg: OrgDoc, s: State, gone: set<string>, rest: seq<Action>, b: Action) {
    (b in rest && !Vanished(gone, b)) || Displaced(cfg, s, gone, b)
  }

  /** What holds of the state s after the first k actions of the plan for s0. */
  ghost predicate Reached(cascade: bool, cfg: OrgDoc, s0: State, plan: seq<Action>, k: nat, s: State)
    requires k <= |plan|
  {
    var gone := EvictedBy(cascade, plan[..k]);
    && InvitationsDistinct(s.invitations)
    && s.teamMembers.Keys == s0.teamMembers.Keys
    && (forall b :: Owes(cfg, s, b) <==> Left(cfg, s0, gone, plan[k..], b))
    && ((forall b :: b in plan[..k] ==> !IsTeamKind(b.kind)) ==> TeamsLost(s0.teamMembers, s.teamMembers, gone))
  }

  lemma OwedKinds(cfg: OrgDoc, s: State, b: Action)
    ensures OwesOrg(cfg, s, b) ==> !IsTeamKind(b.kind)
    ensures OwesTeam(cfg, s, b) ==> IsTeamKind(b.kind)
  {
  }

  lemma RestMembership(plan: seq<Action>, k: nat, b: Action)
    requires StrictlySorted(plan) && k < |plan|
    ensures b in plan[k + 1..] <==> b in plan[k..] && b != plan[k]
    ensures b in plan <==> b in plan[..k] || b in plan[k..]
  {
    assert plan[k..][1..] == plan[k + 1..];
    TailMembership(plan[k..], b);
    assert plan == plan[..k] + plan[k..];
  }

  lemma EvictedStep(cascade: bool, plan: seq<Action>, k: nat)
    requires k < |plan|
    ensures EvictedBy(cascade, plan[..k + 1]) == EvictedBy(cascade, plan[..k]) +
      if cascade && plan[k].kind == RemoveMember then {Lower(plan[k].login)} else {}
  {
    assert plan[..k + 1] == plan[..k] + [plan[k]];
    if cascade {
      forall q | q in EvictedBy(cascade, plan[..k]) || (plan[k].kind == RemoveMember && q == Lower(plan[k].login))
        ensures q in EvictedBy(cascade, plan[..k + 1])
      {
        if q in EvictedBy(cascade, plan[..k]) {
          var a :| a in plan[..k] && a.kind == RemoveMember && Lower(a.login) == q;
          assert a in plan[..k + 1];
        } else {
          assert plan[k] in plan[..k + 1];
        }
      }
    }
  }

  /** Organization removals run before any team action. */
  lemma OrgFirst(cfg: OrgDoc, s0: State, plan: seq<Action>, k: nat)
    requires IsPlan(cfg, s0, plan) && k < |plan| && !IsTeamKind(plan[k].kind)
    ensures forall b :: b in plan[..k + 1] ==> !IsTeamKind(b.kind)
  {
    assert plan[k] in plan;
    forall b | b in plan[..k + 1] ensures !IsTeamKind(b.kind) {
      var i :| 0 <= i < k + 1 && plan[i] == b;
    }
  }

  /** Team changes owed once only evictions have touched the teams. */
  lemma OwedAfterEviction(cfg: OrgDoc, s0: State, s: State, gone: set<string>, b: Action)
    requires TeamsLost(s0.teamMembers, s.teamMembers, gone)
    ensures OwesTeam(cfg, s, b) <==> (OwesTeam(cfg, s0, b) && !Vanished(gone, b)) || Displaced(cfg, s0, gone, b)
  {
  }

  lemma StepOrg(cascade: bool, cfg: OrgDoc, s: State, a: Action, s': State)
    requires InvitationsDistinct(s.invitations) && (IsInvite(a) ==> a.login != "")
    requires OwesOrg(cfg, s, a) && Step(cascade, s, a, s')
    ensures InvitationsDistinct(s'.invitations)
    ensures TeamsLost(s.teamMembers, s'.teamMembers, EvictedBy(cascade, [a]))
    ensures forall b :: OwesOrg(cfg, s', b) <==> OwesOrg(cfg, s, b) && b != a
  {
    if cascade && a.kind == RemoveMember {
      assert EvictedBy(cascade, [a]) == {Lower(a.login)} by { assert a in [a]; }
    } else {
      assert EvictedBy(cascade, [a]) == {};
    }
    match a.kind {
      case RemoveMember =>
        StepLeave(cascade, cfg, s, a, s');
      case CancelInvite =>
        StepCancel(cfg, s, a, s');
      case _ =>
        StepMembership(cfg, s, a, s');
    }
  }

  lemma OwedAfterOrg(cfg: OrgDoc, s0: State, plan: seq<Action>, k: nat, gone: set<string>, gone': set<string>,
                     s: State, s': State, b: Action)
    requires IsPlan(cfg, s0, plan) && k < |plan|
    requires forall c :: c in plan[..k + 1] ==> !IsTeamKind(c.kind)
    requires Owes(cfg, s, b) <==> Left(cfg, s0, gone, plan[k..], b)
    requires OwesOrg(cfg, s', b) <==> OwesOrg(cfg, s, b) && b != plan[k]
    requires TeamsLost(s0.teamMembers, s'.teamMembers, gone')
    ensures Owes(cfg, s', b) <==> Left(cfg, s0, gone', plan[k + 1..], b)
  {
    assert forall c :: c in plan[..k] ==> c in plan[..k + 1] by { assert plan[..k + 1] == plan[..k] + [plan[k]]; }
    RestMembership(plan, k, b);
    OwedKinds(cfg, s, b);
    OwedKinds(cfg, s', b);
    OwedKinds(cfg, s0, b);
    if IsTeamKind(b.kind) {
      OwedAfterEviction(cfg, s0, s', gone', b);
    }
  }

  lemma AdvanceOrg(cascade: bool, cfg: OrgDoc, s0: State, plan: seq<Action>, k: nat, s: State, s': State)
    requires IsPlan(cfg, s0, plan) && k < |plan| && (IsInvite(plan[k]) ==> plan[k].login != "")
    requires Reached(cascade, cfg, s0, plan, k, s) && Step(cascade, s, plan[k], s')
    requires !IsTeamKind(plan[k].kind)
    ensures Reached(cascade, cfg, s0, plan, k + 1, s')
  {
    var a, gone, gone' := plan[k], EvictedBy(cascade, plan[..k]), EvictedBy(cascade, plan[..k + 1]);
    EvictedStep(cascade, plan, k);
    OrgFirst(cfg, s0, plan, k);
    assert plan[..k + 1] == plan[..k] + [a];
    assert a in plan[k..] && Owes(cfg, s, a) by { assert Left(cfg, s0, gone, plan[k..], a); }
    OwedKinds(cfg, s, a);
    StepOrg(cascade, cfg, s, a, s');
    assert TeamsLost(s0.teamMembers, s'.teamMembers, gone') by {
      TeamsLostTwice(s0.teamMembers, s.teamMembers, s'.teamMembers, gone, EvictedBy(cascade, [a]));
      EvictedStep(cascade, [a], 0);
      assert [a][..0] == [] && [a][..1] == [a];
      assert gone' == gone + EvictedBy(cascade, [a]);
    }
    forall b ensures Owes(cfg, s', b) <==> Left(cfg, s0, gone', plan[k + 1..], b) {
      OwedAfterOrg(cfg, s0, plan, k, gone, gone', s, s', b);
    }
  }

  lemma TeamsLostTwice(t0: map<string, seq<string>>, t1: map<string, seq<string>>, t2: map<string, seq<string>>,
                       gone: set<string>, more: set<string>)
    requires TeamsLost(t0, t1, gone) && TeamsLost(t1, t2, more)
    ensures TeamsLost(t0, t2, gone + more)
  {
    forall slug | slug in t0 ensures ByLower(t2[slug]) == ByLower(t0[slug]) - (gone + more) {
      assert ByLower(t2[slug]) == ByLower(t0[slug]) - gone - more;
    }
  }

  /** The one team action a, run or found already done. */
  lemma SettleTeam(cascade: bool, cfg: OrgDoc, s0: State, gone: set<string>, rest: seq<Action>, s: State, a: Action, s': State)
    requires OwesTeam(cfg, s0, a) && a in rest && Step(cascade, s, a, s')
    requires forall c :: Owes(cfg, s, c) <==> Left(cfg, s0, gone, rest, c)
    ensures s'.invitations == s.invitations && s'.teamMembers.Keys == s.teamMembers.Keys
    ensures forall b :: Owes(cfg, s', b) <==> Owes(cfg, s, b) && b != a
  {
    OwedKinds(cfg, s0, a);
    OwedKinds(cfg, s, a);
    if Vanished(gone, a) {
      AlreadyGone(cfg, s0, gone, rest, s, a, s');
    } else {
      assert Left(cfg, s0, gone, rest, a) && Owes(cfg, s, a);
      StepTeam(cfg, s, a, s');
      forall b ensures Owes(cfg, s', b) <==> Owes(cfg, s, b) && b != a {
        OwedKinds(cfg, s, b);
        OwedKinds(cfg, s', b);
      }
    }
  }

  lemma LeftAfterTeam(cfg: OrgDoc, s0: State, gone: set<string>, plan: seq<Action>, k: nat, s: State, b: Action)
    requires StrictlySorted(plan) && k < |plan| && !Displaced(cfg, s0, gone, plan[k])
    requires Owes(cfg, s, b) <==> Left(cfg, s0, gone, plan[k..], b)
    ensures Left(cfg, s0, gone, plan[k + 1..], b) <==> Owes(cfg, s, b) && b != plan[k]
  {
    RestMembership(plan, k, b);
  }

  lemma OwedAfterTeam(cascade: bool, cfg: OrgDoc, s0: State, gone: set<string>, plan: seq<Action>, k: nat, s: State, s': State)
    requires IsPlan(cfg, s0, plan) && k < |plan| && IsTeamKind(plan[k].kind) && Step(cascade, s, plan[k], s')
    requires forall b :: Owes(cfg, s, b) <==> Left(cfg, s0, gone, plan[k..], b)
    ensures s'.invitations == s.invitations && s'.teamMembers.Keys == s.teamMembers.Keys
    ensures forall b :: Owes(cfg, s', b) <==> Left(cfg, s0, gone, plan[k + 1..], b)
  {
    var a := plan[k];
    assert a in plan[k..] && a in plan;
    OwedKinds(cfg, s0, a);
    SettleTeam(cascade, cfg, s0, gone, plan[k..], s, a, s');
    NeverDisplaced(cfg, s0, gone, a);
    forall b ensures Owes(cfg, s', b) <==> Left(cfg, s0, gone, plan[k + 1..], b) {
      LeftAfterTeam(cfg, s0, gone, plan, k, s, b);
    }
  }

  lemma AdvanceTeam(cascade: bool, cfg: OrgDoc, s0: State, plan: seq<Action>, k: nat, s: State, s': State)
    requires IsPlan(cfg, s0, plan) && k < |plan|
    requires Reached(cascade, cfg, s0, plan, k, s) && Step(cascade, s, plan[k], s')
    requires IsTeamKind(plan[k].kind)
    ensures Reached(cascade, cfg, s0, plan, k + 1, s')
  {
    EvictedStep(cascade, plan, k);
    OwedAfterTeam(cascade, cfg, s0, EvictedBy(cascade, plan[..k]), plan, k, s, s');
    assert plan[..k + 1] == plan[..k] + [plan[k]];
    assert plan[k] in plan[..k + 1];
  }

  /** What the plan does to a team is never a seat an eviction took. */
  lemma NeverDisplaced(cfg: OrgDoc, s0: State, gone: set<string>, a: Action)
    requires OwesTeam(cfg, s0, a)
    ensures !Displaced(cfg, s0, gone, a)
  {
  }

  lemma OwedIsLeft(cfg: OrgDoc, s0: State, gone: set<string>, rest: seq<Action>, s: State, b: Action)
    requires forall c :: Owes(cfg, s, c) <==> Left(cfg, s0, gone, rest, c)
    requires Owes(cfg, s, b)
    ensures Left(cfg, s0, gone, rest, b)
  {
  }

  /** Removing someone an eviction already took changes nothing. */
  lemma AlreadyGone(cfg: OrgDoc, s0: State, gone: set<string>, rest: seq<Action>, s: State, a: Action, s': State)
    requires OwesTeam(cfg, s0, a) && Vanished(gone, a) && a.team in s.teamMembers
    requires forall b :: Owes(cfg, s, b) <==> Left(cfg, s0, gone, rest, b)
    requires s' == TeamLeft(s, a.team, a.login)
    ensures s' == s
  {
    var k, live := Lower(a.login), ByLower(s.teamMembers[a.team]);
    IndexBySound(s.teamMembers[a.team], LoginKey);
    if k in live {
      var b := Action(TeamRemove, live[k], a.team, false, 0);
      assert OwesTeam(cfg, s, b) && Vanished(gone, b);
      OwedIsLeft(cfg, s0, gone, rest, s, b);
      assert false;
    }
    WithoutAbsent(s.teamMembers[a.team], LoginKey, k);
    assert s'.teamMembers == s.teamMembers;
  }

  /** Every state of every run of the plan. */
  lemma {:induction false} RunReaches(cascade: bool, cfg: OrgDoc, plan: seq<Action>, states: seq<State>, k: nat)
    requires k <= |plan| && InvitesNamed(plan[..k]) && Trace(cascade, states, plan[..k])
    requires InvitationsDistinct(states[0].invitations) && IsPlan(cfg, states[0], plan)
    ensures Reached(cascade, cfg, states[0], plan, k, states[k])
  {
    if k == 0 {
      assert plan[0..] == plan;
    } else {
      TracePrefix(cascade, states, plan, k);
      assert plan[..k] == plan[..k - 1] + [plan[k - 1]];
      assert plan[k - 1] in plan[..k];
      RunReaches(cascade, cfg, plan, states[..k], k - 1);
      if IsTeamKind(plan[k - 1].kind) {
        AdvanceTeam(cascade, cfg, states[0], plan, k - 1, states[k - 1], states[k]);
      } else {
        AdvanceOrg(cascade, cfg, states[0], plan, k - 1, states[k - 1], states[k]);
      }
    }
  }

  // ----- the theorems -----

  /** The plan that is left once evictions have done part of its work. */
  function Remaining(gone: set<string>, rest: seq<Action>): seq<Action> {
    if rest == [] then []
    else if Vanished(gone, rest[0]) then Remaining(gone, rest[1..])
    else [rest[0]] + Remaining(gone, rest[1..])
  }

  lemma {:induction false} RemainingSound(gone: set<string>, rest: seq<Action>)
    requires StrictlySorted(rest)
    ensures StrictlySorted(Remaining(gone, rest))
    ensures forall b :: b in Remaining(gone, rest) <==> b in rest && !Vanished(gone, b)
  {
    if rest != [] {
      RemainingSound(gone, rest[1..]);
      assert rest == [rest[0]] + rest[1..];
      var tail := Remaining(gone, rest[1..]);
      forall j | 0 <= j < |tail| ensures ActionLess(rest[0], tail[j]) {
        assert tail[j] in rest[1..];
        var i :| 0 <= i < |rest[1..]| && rest[1..][i] == tail[j];
        assert rest[i + 1] == tail[j];
      }
    }
  }

  lemma {:induction false} RemainingAll(rest: seq<Action>)
    ensures Remaining({}, rest) == rest
  {
    if rest != [] {
      RemainingAll(rest[1..]);
    }
  }

  /** What is left of a plan after its first n actions: the rest, less the seats
      that left with their holders. */
  ghost function LeftAfter(cascade: bool, plan: seq<Action>, n: nat): seq<Action>
    requires n <= |plan|
  {
    Remaining(EvictedBy(cascade, plan[..n]), plan[n..])
  }

  /** k is a member the document drops while keeping a team seat for them. */
  ghost predicate Torn(cfg: OrgDoc, s: State, slug: string, k: string) {
    && slug in cfg.teams && slug in s.teamMembers
    && k in TeamDesired(cfg.teams[slug]) && k in ByLower(s.teamMembers[slug])
    && k in Current(s.members) && k !in Desired(cfg)
  }

  /** The actions done so far invited nobody without a login, and evicted nobody the
      document still wants in a team they sat in. */
  ghost predicate Clean(cascade: bool, cfg: OrgDoc, s0: State, done: seq<Action>) {
    InvitesNamed(done) && !exists slug, q :: q in EvictedBy(cascade, done) && Torn(cfg, s0, slug, q)
  }

  lemma TornDisplaces(cfg: OrgDoc, s0: State, gone: set<string>, slug: string, q: string)
    requires q in gone && Torn(cfg, s0, slug, q)
    ensures exists b :: Displaced(cfg, s0, gone, b) && !OwesTeam(cfg, s0, b) && IsTeamKind(b.kind)
  {
    TeamDesiredSound(cfg.teams[slug]);
    var b := Action(TeamAdd, TeamDesired(cfg.teams[slug])[q], slug, false, 0);
    assert Displaced(cfg, s0, gone, b);
  }

  lemma DisplacedIsTorn(cascade: bool, cfg: OrgDoc, s0: State, plan: seq<Action>, k: nat, b: Action)
    requires IsPlan(cfg, s0, plan) && k <= |plan| && Displaced(cfg, s0, EvictedBy(cascade, plan[..k]), b)
    ensures Torn(cfg, s0, b.team, Lower(b.login))
  {
    var a :| a in plan[..k] && a.kind == RemoveMember && Lower(a.login) == Lower(b.login);
    assert a in plan && Owes(cfg, s0, a);
  }

  /** No write makes a member: people arrive by accepting an invitation. */
  lemma StepAdmitsNobody(cascade: bool, s: State, a: Action, s': State)
    requires Step(cascade, s, a, s')
    ensures Current(s'.members).Keys <= Current(s.members).Keys
  {
    if a.kind == RemoveMember {
      IndexByWithout(s.members, MemberKey, Lower(a.login));
    } else if a.kind in {SetRole, AddAdmin, AddMember} {
      WithRoleCurrent(s.members, Lower(a.login), RoleOf(a.admin));
    }
  }

  lemma {:induction false} RunAdmitsNobody(cascade: bool, plan: seq<Action>, states: seq<State>, k: nat)
    requires k <= |plan| && Trace(cascade, states, plan[..k])
    ensures Current(states[k].members).Keys <= Current(states[0].members).Keys
  {
    if k > 0 {
      TracePrefix(cascade, states, plan, k);
      RunAdmitsNobody(cascade, plan, states[..k], k - 1);
      StepAdmitsNobody(cascade, states[k - 1], plan[k - 1], states[k]);
    }
  }

  /** An invitation of nobody is owed again, however far the plan has run. */
  lemma BlankInviteLingers(cascade: bool, cfg: OrgDoc, plan: seq<Action>, states: seq<State>, k: nat, a: Action)
    requires k <= |plan| && Trace(cascade, states, plan[..k]) && IsPlan(cfg, states[0], plan)
    requires a in plan && IsInvite(a) && a.login == ""
    ensures Owes(cfg, states[k], a)
  {
    RunAdmitsNobody(cascade, plan, states, k);
    InvitedSound(states[k].invitations);
    assert Owes(cfg, states[0], a);
    LowerEmpty(a.login);
  }

  lemma DoneIsNotLeft(plan: seq<Action>, k: nat, a: Action)
    requires StrictlySorted(plan) && k <= |plan| && a in plan[..k]
    ensures a !in plan[k..]
  {
    if a in plan[k..] {
      var i :| 0 <= i < k && plan[i] == a;
      var j :| 0 <= j < |plan| - k && plan[k..][j] == a;
      assert plan[k + j] == a;
      assert ActionLess(plan[i], plan[k + j]);
      ActionLessIrreflexive(a, a);
    }
  }

  /** After k actions exactly what is left of the plan is owed, if and only if those
      actions were clean. */
  lemma OwedIsLeftIff(cascade: bool, cfg: OrgDoc, plan: seq<Action>, states: seq<State>, k: nat)
    requires k <= |plan| && Trace(cascade, states, plan[..k])
    requires InvitationsDistinct(states[0].invitations) && IsPlan(cfg, states[0], plan)
    ensures IsPlan(cfg, states[k], LeftAfter(cascade, plan, k)) <==> Clean(cascade, cfg, states[0], plan[..k])
  {
    var s0, s, gone := states[0], states[k], EvictedBy(cascade, plan[..k]);
    RemainingSound(gone, plan[k..]);
    if InvitesNamed(plan[..k]) {
      RunReaches(cascade, cfg, plan, states, k);
      CleanIffNoneDisplaced(cascade, cfg, s0, plan, k, s);
    } else {
      var a :| a in plan[..k] && IsInvite(a) && a.login == "";
      assert a in plan;
      BlankInviteLingers(cascade, cfg, plan, states, k, a);
      DoneIsNotLeft(plan, k, a);
    }
  }

  lemma CleanIffNoneDisplaced(cascade: bool, cfg: OrgDoc, s0: State, plan: seq<Action>, k: nat, s: State)
    requires k <= |plan| && IsPlan(cfg, s0, plan) && InvitesNamed(plan[..k]) && Reached(cascade, cfg, s0, plan, k, s)
    ensures (forall b :: b in LeftAfter(cascade, plan, k) <==> Owes(cfg, s, b)) <==> Clean(cascade, cfg, s0, plan[..k])
  {
    var gone := EvictedBy(cascade, plan[..k]);
    RemainingSound(gone, plan[k..]);
    if slug, q :| q in gone && Torn(cfg, s0, slug, q) {
      TornDisplaces(cfg, s0, gone, slug, q);
      var b :| Displaced(cfg, s0, gone, b) && !OwesTeam(cfg, s0, b) && IsTeamKind(b.kind);
      OwedKinds(cfg, s0, b);
      assert forall c :: c in plan[k..] ==> c in plan;
      assert Owes(cfg, s, b);
    } else {
      forall b ensures !Displaced(cfg, s0, gone, b) {
        if Displaced(cfg, s0, gone, b) {
          DisplacedIsTorn(cascade, cfg, s0, plan, k, b);
        }
      }
    }
  }

  /** Restart, with or without the team cascade: run the first k actions and plan
      again. The new plan is what was left of the old one if and only if those
      actions were clean; and then it is the only answer. */
  lemma RestartAnywhere(cascade: bool, doc: Doc, org: string, opts: Options, plan: seq<Action>, states: seq<State>, k: nat, v: Verdict)
    requires k <= |plan| && Trace(cascade, states, plan[..k])
    requires InvitationsDistinct(states[0].invitations) && Answers(doc, org, states[0], opts, Planned(plan))
    ensures Answers(doc, org, states[k], opts, Planned(LeftAfter(cascade, plan, k))) <==>
      Clean(cascade, doc[org], states[0], plan[..k])
    ensures Clean(cascade, doc[org], states[0], plan[..k]) ==>
      (Answers(doc, org, states[k], opts, v) <==> v == Planned(LeftAfter(cascade, plan, k)))
  {
    var cfg, left := doc[org], LeftAfter(cascade, plan, k);
    OwedIsLeftIff(cascade, cfg, plan, states, k);
    RunKeepsTeams(cascade, plan, states, k);
    RemainingSound(EvictedBy(cascade, plan[..k]), plan[k..]);
    assert forall slug :: MissingTeam(cfg, states[k], slug) <==> MissingTeam(cfg, states[0], slug);
    forall b | b in left ensures b in plan {
      assert b in plan[k..];
    }
    if Answers(doc, org, states[k], opts, Planned(left)) && Answers(doc, org, states[k], opts, v) {
      VerdictUnique(doc, org, states[k], opts, v, Planned(left));
    }
  }

  lemma {:induction false} RunKeepsTeams(cascade: bool, plan: seq<Action>, states: seq<State>, k: nat)
    requires k <= |plan| && Trace(cascade, states, plan[..k])
    ensures states[k].teamMembers.Keys == states[0].teamMembers.Keys
  {
    if k > 0 {
      TracePrefix(cascade, states, plan, k);
      RunKeepsTeams(cascade, plan, states[..k], k - 1);
    }
  }

  lemma NothingEvicted(plan: seq<Action>, k: nat)
    requires k <= |plan|
    ensures LeftAfter(false, plan, k) == plan[k..]
  {
    RemainingAll(plan[k..]);
  }

  /** Without the cascade the new verdict is the rest of the plan, action for action. */
  lemma RestartExactly(doc: Doc, org: string, opts: Options, plan: seq<Action>, states: seq<State>, k: nat)
    requires k <= |plan| && Trace(false, states, plan[..k])
    requires InvitationsDistinct(states[0].invitations) && Answers(doc, org, states[0], opts, Planned(plan))
    ensures (forall v :: Answers(doc, org, states[k], opts, v) <==> v == Planned(plan[k..])) <==> InvitesNamed(plan[..k])
  {
    NothingEvicted(plan, k);
    forall v {
      RestartAnywhere(false, doc, org, opts, plan, states, k, v);
    }
    RestartAnywhere(false, doc, org, opts, plan, states, k, Planned(plan[k..]));
  }

  /** A run that stopped at its first error resumes: whether or not the failing
      write took effect, planning again gives what is left after the writes that
      did, if and only if those were clean. */
  lemma RecoversFromError(cascade: bool, doc: Doc, org: string, opts: Options, plan: seq<Action>, states: seq<State>, done: nat,
                          s: State, v: Verdict)
    requires done < |plan| && Trace(cascade, states, plan[..done])
    requires s == states[done] || Step(cascade, states[done], plan[done], s)
    requires InvitationsDistinct(states[0].invitations) && Answers(doc, org, states[0], opts, Planned(plan))
    ensures var n := if s == states[done] then done else done + 1;
      && (Answers(doc, org, s, opts, Planned(LeftAfter(cascade, plan, n))) <==> Clean(cascade, doc[org], states[0], plan[..n]))
      && (Clean(cascade, doc[org], states[0], plan[..n]) ==>
           (Answers(doc, org, s, opts, v) <==> v == Planned(LeftAfter(cascade, plan, n))))
  {
    if s == states[done] {
      RestartAnywhere(cascade, doc, org, opts, plan, states, done, v);
    } else {
      var longer := states + [s];
      assert Trace(cascade, longer, plan[..done + 1]) by {
        assert forall i :: 0 <= i < done ==> plan[..done + 1][i] == plan[..done][i];
      }
      RestartAnywhere(cascade, doc, org, opts, plan, longer, done + 1, v);
    }
  }

  /** Somebody evicted by a full run was a member the document drops. */
  lemma EvictedIff(cfg: OrgDoc, s0: State, plan: seq<Action>, q: string)
    requires IsPlan(cfg, s0, plan)
    ensures q in EvictedBy(true, plan) <==> q in Current(s0.members) && q !in Desired(cfg)
  {
    IndexBySound(s0.members, MemberKey);
    if q in Current(s0.members) && q !in Desired(cfg) {
      var leaver := Action(RemoveMember, Current(s0.members)[q].login, "", false, 0);
      assert OwesOrg(cfg, s0, leaver) && leaver in plan;
    }
    if q in EvictedBy(true, plan) {
      var a :| a in plan && a.kind == RemoveMember && Lower(a.login) == q;
      assert Owes(cfg, s0, a);
    }
  }

  /** A full run leaves nothing to do exactly when it invited nobody without a
      login and, with the cascade, no removed login held a team seat the document
      still wants for it. */
  lemma ConvergesIff(cascade: bool, cfg: OrgDoc, plan: seq<Action>, states: seq<State>)
    requires Trace(cascade, states, plan) && InvitationsDistinct(states[0].invitations) && IsPlan(cfg, states[0], plan)
    ensures IsPlan(cfg, states[|plan|], []) <==>
      InvitesNamed(plan) && !(cascade && exists slug, k :: Torn(cfg, states[0], slug, k))
  {
    assert plan[..|plan|] == plan && LeftAfter(cascade, plan, |plan|) == [];
    OwedIsLeftIff(cascade, cfg, plan, states, |plan|);
    forall slug, q | Torn(cfg, states[0], slug, q) ensures q in EvictedBy(true, plan) {
      EvictedIff(cfg, states[0], plan, q);
    }
  }

  /** For example: a document wanting only the empty login never settles. */
  lemma BlankInviteExample(id: int)
    ensures var cfg, empty, invite := OrgDoc([], [""], map[]), State([], [], [], map[]), Action(AddMember, "", "", false, 0);
      && IsPlan(cfg, empty, [invite])
      && Step(false, empty, invite, Invite(empty, id, ""))
      && IsPlan(cfg, Invite(empty, id, ""), [invite])
  {
    var cfg, empty, invite := OrgDoc([], [""], map[]), State([], [], [], map[]), Action(AddMember, "", "", false, 0);
    DesiredSound(cfg);
    assert [""][..0] == [] && ByLower([""]) == map["" := ""];
    assert FreshId(empty.invitations, id);
    assert [Invitation(id, "")][..0] == [];
    assert Invited([Invitation(id, "")]) == map[];
    forall a ensures Owes(cfg, empty, a) <==> a == invite {
      LowerEmpty(a.login);
    }
    forall a ensures Owes(cfg, Invite(empty, id, ""), a) <==> a == invite {
      LowerEmpty(a.login);
    }
  }

  /** The stanza's claim about one wanted login. */
  ghost predicate Seated(cfg: OrgDoc, s: State, k: string) {
    (exists m :: m in s.members && Lower(m.login) == k && (m.role == RoleAdmin <==> k in ByLower(cfg.admins))) ||
    ((forall m :: m in s.members ==> Lower(m.login) != k) &&
     exists v :: v in s.invitations && v.login != "" && Lower(v.login) == k)
  }

  /** The organization is as the document says: wanted people are in with their
      role or invited, nobody else is in or invited, and named teams match. */
  ghost predicate Conforms(cfg: OrgDoc, s: State) {
    && (forall k :: k in ByLower(cfg.members) || k in ByLower(cfg.admins) ==> Seated(cfg, s, k))
    && (forall m :: m in s.members ==> Lower(m.login) in ByLower(cfg.members) || Lower(m.login) in ByLower(cfg.admins))
    && (forall v :: v in s.invitations && v.login != "" ==>
         Lower(v.login) in ByLower(cfg.members) || Lower(v.login) in ByLower(cfg.admins))
    && (forall slug :: slug in cfg.teams && slug in s.teamMembers ==>
         ByLower(s.teamMembers[slug]).Keys == ByLower(cfg.teams[slug].members).Keys + ByLower(cfg.teams[slug].maintainers).Keys)
  }

  lemma SettledIfConforms(cfg: OrgDoc, s: State, b: Action)
    requires MembersDistinct(s.members) && Conforms(cfg, s)
    ensures !Owes(cfg, s, b)
  {
    var k := Lower(b.login);
    DesiredSound(cfg);
    IndexBySound(s.members, MemberKey);
    InvitedSound(s.invitations);
    if k in Desired(cfg) && k in Current(s.members) {
      assert Current(s.members)[k] in s.members;
      var m :| m in s.members && Lower(m.login) == k && (m.role == RoleAdmin <==> k in ByLower(cfg.admins));
      IndexByDistinct(s.members, MemberKey, m);
    }
  }

  lemma WantedIsSeated(cfg: OrgDoc, s: State, k: string)
    requires (forall b :: !OwesOrg(cfg, s, b)) && k in Desired(cfg)
    ensures Seated(cfg, s, k)
  {
    var want, current, invited := Desired(cfg)[k], Current(s.members), Invited(s.invitations);
    DesiredSound(cfg);
    IndexBySound(s.members, MemberKey);
    InvitedSound(s.invitations);
    if k in current {
      assert !OwesOrg(cfg, s, Action(SetRole, current[k].login, "", want.admin, 0));
    } else {
      assert !OwesOrg(cfg, s, Action(if want.admin then AddAdmin else AddMember, want.login, "", want.admin, 0));
      assert invited[k] in s.invitations;
    }
  }

  lemma NobodyElse(cfg: OrgDoc, s: State)
    requires forall b :: !OwesOrg(cfg, s, b)
    ensures forall k :: k in Current(s.members) || k in Invited(s.invitations) ==> k in Desired(cfg)
  {
    var current, invited := Current(s.members), Invited(s.invitations);
    IndexBySound(s.members, MemberKey);
    InvitedSound(s.invitations);
    forall k | k in current ensures k in Desired(cfg) {
      assert !OwesOrg(cfg, s, Action(RemoveMember, current[k].login, "", false, 0));
    }
    forall k | k in invited ensures k in Desired(cfg) {
      assert !OwesOrg(cfg, s, Action(CancelInvite, invited[k].login, "", false, invited[k].id));
    }
  }

  lemma TeamMatches(cfg: OrgDoc, s: State, slug: string)
    requires (forall b :: !OwesTeam(cfg, s, b)) && slug in cfg.teams && slug in s.teamMembers
    ensures ByLower(s.teamMembers[slug]).Keys == TeamDesired(cfg.teams[slug]).Keys
  {
    var wanted, live := TeamDesired(cfg.teams[slug]), ByLower(s.teamMembers[slug]);
    TeamDesiredSound(cfg.teams[slug]);
    IndexBySound(s.teamMembers[slug], LoginKey);
    forall k | k in wanted ensures k in live {
      assert !OwesTeam(cfg, s, Action(TeamAdd, wanted[k], slug, false, 0));
    }
    forall k | k in live ensures k in wanted {
      assert !OwesTeam(cfg, s, Action(TeamRemove, live[k], slug, false, 0));
    }
  }

  lemma ConformsIfSettled(cfg: OrgDoc, s: State)
    requires forall b :: !Owes(cfg, s, b)
    ensures Conforms(cfg, s)
  {
    forall b ensures !OwesOrg(cfg, s, b) && !OwesTeam(cfg, s, b) {
      assert !Owes(cfg, s, b);
    }
    DesiredSound(cfg);
    IndexBySound(s.members, MemberKey);
    InvitedSound(s.invitations);
    NobodyElse(cfg, s);
    forall k | k in Desired(cfg) ensures Seated(cfg, s, k) {
      WantedIsSeated(cfg, s, k);
    }
    forall slug | slug in cfg.teams && slug in s.teamMembers
      ensures ByLower(s.teamMembers[slug]).Keys == TeamDesired(cfg.teams[slug]).Keys
    {
      TeamMatches(cfg, s, slug);
    }
  }

  /** Nothing to do means the organization is as the document says, and conversely. */
  lemma EmptyPlanIffConforms(cfg: OrgDoc, s: State)
    requires MembersDistinct(s.members)
    ensures IsPlan(cfg, s, []) <==> Conforms(cfg, s)
  {
    if Conforms(cfg, s) {
      forall b ensures !Owes(cfg, s, b) {
        SettledIfConforms(cfg, s, b);
      }
    }
    if IsPlan(cfg, s, []) {
      ConformsIfSettled(cfg, s);
    }
  }
}
