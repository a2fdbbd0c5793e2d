/** BuildPlan as the reconciler runs it: loops that fill maps and append to the
    plan, walking maps in arbitrary order, then a sort and a last gate
    (pkg/reconciler/reconciler.go). */
module Reconciler {
  import opened Text
  import opened Indexing
  import opened OrgState
  import opened Document
  import opened PlanSpec

  class Plan {
    const org: string
    var actions: seq<Action>

    constructor (org: string)
      ensures this.org == org && actions == []
    {
      this.org := org;
      actions := [];
    }
  }

  method DesiredRoles(cfg: OrgDoc) returns (desired: map<string, DesiredMember>)
    ensures desired == Desired(cfg)
  {
    desired := map[];
    for i := 0 to |cfg.members|
      invariant desired == Claim(map[], cfg.members[..i], false)
    {
      ClaimStep(map[], cfg.members, false, i);
      desired := desired[Lower(cfg.members[i]) := DesiredMember(cfg.members[i], false)];
    }
    assert cfg.members[..|cfg.members|] == cfg.members;
    ghost var members := desired;
    for i := 0 to |cfg.admins|
      invariant desired == Claim(members, cfg.admins[..i], true)
    {
      ClaimStep(members, cfg.admins, true, i);
      desired := desired[Lower(cfg.admins[i]) := DesiredMember(cfg.admins[i], true)];
    }
    assert cfg.admins[..|cfg.admins|] == cfg.admins;
  }

  method CurrentMembers(state: State) returns (current: map<string, Member>)
    ensures current == Current(state.members)
  {
    current := map[];
    for i := 0 to |state.members|
      invariant current == Current(state.members[..i])
    {
      IndexByStep(state.members, MemberKey, i);
      current := current[Lower(state.members[i].login) := state.members[i]];
    }
    assert state.members[..|state.members|] == state.members;
  }

  method PendingInvitations(state: State) returns (invited: map<string, Invitation>)
    ensures invited == Invited(state.invitations)
  {
    invited := map[];
    for i := 0 to |state.invitations|
      invariant invited == Invited(state.invitations[..i])
    {
      InvitedStep(state.invitations, i);
      var invitation := state.invitations[i];
      if invitation.login == "" {
        continue;
      }
      invited := invited[Lower(invitation.login) := invitation];
    }
    assert state.invitations[..|state.invitations|] == state.invitations;
  }

  /** Every wanted login: promoted, demoted, added, or left alone. */
  method PlanWanted(plan: Plan, desired: map<string, DesiredMember>, current: map<string, Member>,
                    invited: map<string, Invitation>)
    requires plan.actions == []
    requires forall k :: k in desired ==> Lower(desired[k].login) == k
    requires forall k :: k in current ==> Lower(current[k].login) == k
    modifies plan`actions
    ensures NoDup(plan.actions)
    ensures forall a :: a in plan.actions <==>
      OrgOwed(desired, current, invited, a) && a.kind in {SetRole, AddAdmin, AddMember}
  {
    var todo := desired.Keys;
    while todo != {}
      invariant todo <= desired.Keys
      invariant NoDup(plan.actions)
      invariant forall a :: a in plan.actions <==>
        && OrgOwed(desired, current, invited, a)
        && a.kind in {SetRole, AddAdmin, AddMember}
        && Lower(a.login) in desired.Keys - todo
    {
      var login :| login in todo;
      todo := todo - {login};
      var want := desired[login];
      if login in current && (current[login].role == RoleAdmin) != want.admin {
        plan.actions := plan.actions + [Action(SetRole, current[login].login, "", want.admin, 0)];
      } else if login in current {
        // Nothing to change.
      } else if login in invited {
        // An invitation is already out.
      } else if want.admin {
        plan.actions := plan.actions + [Action(AddAdmin, want.login, "", true, 0)];
      } else {
        plan.actions := plan.actions + [Action(AddMember, want.login, "", false, 0)];
      }
    }
  }

  /** Members nobody wants. */
  method PlanLeavers(plan: Plan, desired: map<string, DesiredMember>, current: map<string, Member>,
                     ghost invited: map<string, Invitation>)
    requires forall k :: k in current ==> Lower(current[k].login) == k
    requires NoDup(plan.actions) && forall a :: a in plan.actions ==> a.kind != RemoveMember
    modifies plan`actions
    ensures NoDup(plan.actions)
    ensures forall a :: a in plan.actions <==>
      a in old(plan.actions) || (OrgOwed(desired, current, invited, a) && a.kind == RemoveMember)
  {
    ghost var before := plan.actions;
    var todo := current.Keys;
    while todo != {}
      invariant todo <= current.Keys
      invariant NoDup(plan.actions)
      invariant forall a :: a in plan.actions <==> (a in before ||
        (OrgOwed(desired, current, invited, a) && a.kind == RemoveMember && Lower(a.login) in current.Keys - todo))
    {
      var login :| login in todo;
      todo := todo - {login};
      if login !in desired {
        plan.actions := plan.actions + [Action(RemoveMember, current[login].login, "", false, 0)];
      }
    }
  }

  /** Invitations nobody wants. */
  method PlanWithdrawals(plan: Plan, desired: map<string, DesiredMember>, ghost current: map<string, Member>,
                         invited: map<string, Invitation>)
    requires forall k :: k in invited ==> Lower(invited[k].login) == k
    requires NoDup(plan.actions) && forall a :: a in plan.actions ==> a.kind != CancelInvite
    modifies plan`actions
    ensures NoDup(plan.actions)
    ensures forall a :: a in plan.actions <==>
      a in old(plan.actions) || (OrgOwed(desired, current, invited, a) && a.kind == CancelInvite)
  {
    ghost var before := plan.actions;
    var todo := invited.Keys;
    while todo != {}
      invariant todo <= invited.Keys
      invariant NoDup(plan.actions)
      invariant forall a :: a in plan.actions <==> (a in before ||
        (OrgOwed(desired, current, invited, a) && a.kind == CancelInvite && Lower(a.login) in invited.Keys - todo))
    {
      var login :| login in todo;
      todo := todo - {login};
      if login !in desired {
        plan.actions := plan.actions + [Action(CancelInvite, invited[login].login, "", false, invited[login].id)];
      }
    }
  }

  /** Organization-level actions, appended in whatever order the maps are walked. */
  method PlanOrg(plan: Plan, desired: map<string, DesiredMember>, current: map<string, Member>, invited: map<string, Invitation>)
    requires plan.actions == []
    requires forall k :: k in desired ==> Lower(desired[k].login) == k
    requires forall k :: k in current ==> Lower(current[k].login) == k
    requires forall k :: k in invited ==> Lower(invited[k].login) == k
    modifies plan`actions
    ensures NoDup(plan.actions)
    ensures forall a :: a in plan.actions <==> OrgOwed(desired, current, invited, a)
  {
    PlanWanted(plan, desired, current, invited);
    PlanLeavers(plan, desired, current, invited);
    PlanWithdrawals(plan, desired, current, invited);
  }

  method PlanMembership(plan: Plan, cfg: OrgDoc, state: State)
    requires plan.actions == []
    modifies plan`actions
    ensures NoDup(plan.actions)
    ensures forall a :: a in plan.actions <==> OwesOrg(cfg, state, a)
  {
    var desired := DesiredRoles(cfg);
    var current := CurrentMembers(state);
    var invited := PendingInvitations(state);
    DesiredSound(cfg);
    IndexBySound(state.members, MemberKey);
    InvitedSound(state.invitations);
    PlanOrg(plan, desired, current, invited);
  }

  method FoldLogins(start: map<string, string>, logins: seq<string>) returns (m: map<string, string>)
    ensures m == start + ByLower(logins)
  {
    m := start;
    for i := 0 to |logins|
      invariant m == start + ByLower(logins[..i])
    {
      IndexByStep(logins, LoginKey, i);
      m := m[Lower(logins[i]) := logins[i]];
    }
    assert logins[..|logins|] == logins;
  }

  /** One team's actions. A resident who is wanted gets none. */
  method PlanTeam(plan: Plan, slug: string, desired: map<string, string>, live: map<string, string>)
    requires forall k :: k in desired ==> Lower(desired[k]) == k
    requires forall k :: k in live ==> Lower(live[k]) == k
    requires NoDup(plan.actions)
    requires forall a :: a in plan.actions ==> !TeamOwed(slug, desired, live, a)
    modifies plan`actions
    ensures NoDup(plan.actions)
    ensures forall a :: a in plan.actions <==> a in old(plan.actions) || TeamOwed(slug, desired, live, a)
  {
    ghost var before := plan.actions;
    var todo := desired.Keys;
    while todo != {}
      invariant todo <= desired.Keys
      invariant NoDup(plan.actions)
      invariant forall a :: a in plan.actions <==> (a in before ||
        (TeamOwed(slug, desired, live, a) && a.kind == TeamAdd && Lower(a.login) in desired.Keys - todo))
    {
      var login :| login in todo;
      todo := todo - {login};
      if login !in live {
        plan.actions := plan.actions + [Action(TeamAdd, desired[login], slug, false, 0)];
      }
    }

    todo := live.Keys;
    while todo != {}
      invariant todo <= live.Keys
      invariant NoDup(plan.actions)
      invariant forall a :: a in plan.actions <==> (a in before ||
        (TeamOwed(slug, desired, live, a) && (a.kind == TeamAdd || Lower(a.login) in live.Keys - todo)))
    {
      var login :| login in todo;
      todo := todo - {login};
      if login !in desired {
        plan.actions := plan.actions + [Action(TeamRemove, live[login], slug, false, 0)];
      }
    }
  }

  /** The actions of one rendered team that has a member list. */
  method PlanSlug(plan: Plan, cfg: OrgDoc, state: State, slug: string)
    requires slug in cfg.teams && slug in state.teamMembers
    requires NoDup(plan.actions)
    requires forall a :: a in plan.actions ==> !(OwesTeam(cfg, state, a) && a.team == slug)
    modifies plan`actions
    ensures NoDup(plan.actions)
    ensures forall a :: a in plan.actions <==> a in old(plan.actions) || (OwesTeam(cfg, state, a) && a.team == slug)
  {
    var desired := FoldLogins(map[], cfg.teams[slug].members);
    desired := FoldLogins(desired, cfg.teams[slug].maintainers);
    var live := FoldLogins(map[], state.teamMembers[slug]);
    forall a ensures TeamOwed(slug, desired, live, a) <==> OwesTeam(cfg, state, a) && a.team == slug {
      SlugOwed(cfg, state, slug, desired, live, a);
    }
    TeamDesiredSound(cfg.teams[slug]);
    IndexBySound(state.teamMembers[slug], LoginKey);
    assert desired == TeamDesired(cfg.teams[slug]) && live == ByLower(state.teamMembers[slug]);
    PlanTeam(plan, slug, desired, live);
  }

  lemma SlugOwed(cfg: OrgDoc, state: State, slug: string, desired: map<string, string>, live: map<string, string>, a: Action)
    requires slug in cfg.teams && slug in state.teamMembers
    requires desired == TeamDesired(cfg.teams[slug]) && live == ByLower(state.teamMembers[slug])
    ensures TeamOwed(slug, desired, live, a) <==> OwesTeam(cfg, state, a) && a.team == slug
  {
  }

  /** The least slug not yet handled, so that slugs are taken in sort order. */
  method LeastSlug(slugs: set<string>) returns (least: string)
    requires slugs != {}
    ensures least in slugs && forall x :: x in slugs ==> !Less(x, least)
  {
    least :| least in slugs;
    LessIrreflexive(least);
    var todo := slugs - {least};
    while todo != {}
      invariant least in slugs && todo <= slugs
      invariant forall x :: x in slugs - todo ==> !Less(x, least)
    {
      var x :| x in todo;
      todo := todo - {x};
      if Less(x, least) {
        forall y | y in slugs - todo ensures !Less(y, x) {
          if Less(y, x) {
            if y == x { LessIrreflexive(x); } else { LessTransitive(y, x, least); }
          }
        }
        least := x;
      }
    }
  }

  /** Plans the rendered teams in slug order, giving up at the first that has no
      member list. */
  method PlanTeams(plan: Plan, cfg: OrgDoc, state: State) returns (unknown: seq<string>)
    requires NoDup(plan.actions)
    requires forall a :: a in plan.actions ==> !OwesTeam(cfg, state, a)
    modifies plan`actions
    ensures |unknown| <= 1
    ensures unknown == [] ==>
      && (forall slug :: !MissingTeam(cfg, state, slug))
      && NoDup(plan.actions)
      && forall a :: a in plan.actions <==> a in old(plan.actions) || OwesTeam(cfg, state, a)
    ensures unknown != [] ==>
      && MissingTeam(cfg, state, unknown[0])
      && forall slug :: MissingTeam(cfg, state, slug) ==> !Less(slug, unknown[0])
  {
    ghost var before := plan.actions;
    var todo := cfg.teams.Keys;
    while todo != {}
      invariant todo <= cfg.teams.Keys
      invariant forall slug :: slug in cfg.teams.Keys - todo ==> slug in state.teamMembers
      invariant NoDup(plan.actions)
      invariant forall a :: a in plan.actions <==>
        a in before || (OwesTeam(cfg, state, a) && a.team in cfg.teams.Keys - todo)
    {
      var slug := LeastSlug(todo);
      if slug !in state.teamMembers {
        return [slug];
      }
      todo := todo - {slug};
      PlanSlug(plan, cfg, state, slug);
    }
    unknown := [];
  }

  /** Insertion into a sorted list, after the entries that must precede a. */
  function InsertAction(s: seq<Action>, a: Action): (r: seq<Action>)
    ensures multiset(r) == multiset(s) + multiset{a}
  {
    if s == [] || ActionLess(a, s[0]) then [a] + s
    else
      assert s == [s[0]] + s[1..];
      [s[0]] + InsertAction(s[1..], a)
  }

  lemma {:induction false} InsertSorted(s: seq<Action>, a: Action)
    requires StrictlySorted(s) && forall b :: b in s ==> !SameKey(a, b)
    ensures StrictlySorted(InsertAction(s, a))
    ensures forall b :: b in InsertAction(s, a) <==> b == a || b in s
  {
    if s == [] {
    } else if ActionLess(a, s[0]) {
      forall j | 0 < j < |s| ensures ActionLess(a, s[j]) {
        ActionLessTransitive(a, s[0], s[j]);
      }
    } else {
      assert s == [s[0]] + s[1..];
      InsertSorted(s[1..], a);
      ActionLessTotal(a, s[0]);
      var r := InsertAction(s[1..], a);
      forall j | 0 <= j < |r| ensures ActionLess(s[0], r[j]) {
        assert r[j] in r;
      }
    }
  }

  /** Sorting distinct keys leaves them strictly ordered. */
  method SortActions(plan: Plan)
    requires forall i, j :: 0 <= i < j < |plan.actions| ==> !SameKey(plan.actions[i], plan.actions[j])
    modifies plan`actions
    ensures StrictlySorted(plan.actions)
    ensures multiset(plan.actions) == multiset(old(plan.actions))
    ensures forall a :: a in plan.actions <==> a in old(plan.actions)
  {
    var before := plan.actions;
    var sorted := [];
    for i := 0 to |before|
      invariant StrictlySorted(sorted)
      invariant multiset(sorted) == multiset(before[..i])
      invariant forall a :: a in sorted <==> a in before[..i]
    {
      assert before[..i + 1] == before[..i] + [before[i]];
      InsertSorted(sorted, before[i]);
      sorted := InsertAction(sorted, before[i]);
    }
    assert before[..|before|] == before;
    plan.actions := sorted;
  }

  /** The last gate: a removals-only plan may not grant. */
  method CheckInvariants(plan: Plan, opts: Options) returns (ok: bool)
    ensures ok <==> !(opts.mode == RemovalsOnly && exists a :: a in plan.actions && Grants(a))
  {
    var adds := 0;
    for i := 0 to |plan.actions|
      invariant adds >= 0
      invariant adds > 0 <==> exists a :: a in plan.actions[..i] && Grants(a)
    {
      assert plan.actions[..i + 1] == plan.actions[..i] + [plan.actions[i]];
      if Grants(plan.actions[i]) {
        assert plan.actions[i] in plan.actions[..i + 1];
        adds := adds + 1;
      }
    }
    assert plan.actions[..|plan.actions|] == plan.actions;
    ok := !(opts.mode == RemovalsOnly && adds > 0);
  }

  /** The plan that turns the organization into what the document wants, or why there is none. */
  method BuildPlan(doc: Doc, org: string, state: State, opts: Options) returns (v: Verdict)
    ensures Answers(doc, org, state, opts, v)
  {
    if org !in doc {
      return Refused(NoSuchOrg);
    }
    var cfg := doc[org];
    if |cfg.admins| < opts.minAdmins {
      return Refused(BelowMinAdmins);
    }
    var plan := new Plan(org);
    PlanMembership(plan, cfg, state);
    var unknown := PlanTeams(plan, cfg, state);
    if unknown != [] {
      return Refused(UnknownTeam(unknown[0]));
    }
    forall i, j | 0 <= i < j < |plan.actions| ensures !SameKey(plan.actions[i], plan.actions[j]) {
      assert plan.actions[i] in plan.actions && plan.actions[j] in plan.actions;
      if SameKey(plan.actions[i], plan.actions[j]) {
        OwedKeysDistinct(cfg, state, plan.actions[i], plan.actions[j]);
      }
    }
    SortActions(plan);
    var ok := CheckInvariants(plan, opts);
    if !ok {
      return Refused(RemovalsOnlyAdds);
    }
    v := Planned(plan.actions);
  }
}
