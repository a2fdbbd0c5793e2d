/** GitHub behind the reconciler's Writer, and the loop that runs a plan against
    it (pkg/reconciler/reconciler.go, Writer and Execute). */
module Execution {
  import opened Text
  import opened Indexing
  import opened OrgState
  import opened PlanSpec

  // ----- what each write does to the organization -----

  function WithRole(members: seq<Member>, k: string, role: Role): seq<Member> {
    if members == [] then []
    else
      var last := members[|members| - 1];
      WithRole(members[..|members| - 1], k, role) + [if Lower(last.login) == k then last.(role := role) else last]
  }

  function RoleOf(admin: bool): Role {
    if admin then RoleAdmin else RoleMember
  }

  predicate FreshId(invitations: seq<Invitation>, id: int) {
    forall v :: v in invitations ==> v.id != id
  }

  /** An insider's role changes; an outsider is invited under a fresh ID. */
  ghost predicate MembershipSet(s: State, login: string, admin: bool, s': State) {
    if Lower(login) in Current(s.members) then
      s' == s.(members := WithRole(s.members, Lower(login), RoleOf(admin)))
    else
      exists id :: FreshId(s.invitations, id) && s' == Invite(s, id, login)
  }

  function Invite(s: State, id: int, login: string): State {
    s.(invitations := s.invitations + [Invitation(id, login)])
  }

  function WithoutId(invitations: seq<Invitation>, id: int): seq<Invitation> {
    if invitations == [] then []
    else
      var last := invitations[|invitations| - 1];
      WithoutId(invitations[..|invitations| - 1], id) + (if last.id == id then [] else [last])
  }

  function Expelled(teams: map<string, seq<string>>, k: string): map<string, seq<string>> {
    map slug | slug in teams :: Without(teams[slug], LoginKey, k)
  }

  /** cascade says whether leaving the organization also leaves its teams. */
  function MemberRemoved(cascade: bool, s: State, login: string): State {
    s.(members := Without(s.members, MemberKey, Lower(login)),
       teamMembers := if cascade then Expelled(s.teamMembers, Lower(login)) else s.teamMembers)
  }

  function TeamJoined(s: State, slug: string, login: string): State
    requires slug in s.teamMembers
  {
    if Lower(login) in ByLower(s.teamMembers[slug]) then s
    else s.(teamMembers := s.teamMembers[slug := s.teamMembers[slug] + [login]])
  }

  function TeamLeft(s: State, slug: string, login: string): State
    requires slug in s.teamMembers
  {
    s.(teamMembers := s.teamMembers[slug := Without(s.teamMembers[slug], LoginKey, Lower(login))])
  }

  /** One successful write. */
  ghost predicate Step(cascade: bool, s: State, a: Action, s': State) {
    match a.kind
    case RemoveMember => s' == MemberRemoved(cascade, s, a.login)
    case CancelInvite => s' == s.(invitations := WithoutId(s.invitations, a.invitationId))
    case TeamAdd => a.team in s.teamMembers && s' == TeamJoined(s, a.team, a.login)
    case TeamRemove => a.team in s.teamMembers && s' == TeamLeft(s, a.team, a.login)
    case _ => MembershipSet(s, a.login, a.admin, s')
  }

  /** The states passed through while the actions succeed one after another. */
  ghost predicate Trace(cascade: bool, states: seq<State>, actions: seq<Action>) {
    |states| == |actions| + 1 &&
    forall i :: 0 <= i < |actions| ==> Step(cascade, states[i], actions[i], states[i + 1])
  }

  lemma TracePrefix(cascade: bool, states: seq<State>, actions: seq<Action>, k: nat)
    requires 0 < k <= |actions| && Trace(cascade, states, actions[..k])
    ensures Trace(cascade, states[..k], actions[..k - 1])
    ensures Step(cascade, states[k - 1], actions[k - 1], states[k])
  {
    assert forall i :: 0 <= i < k ==> actions[..k][i] == actions[i];
    assert Step(cascade, states[k - 1], actions[..k][k - 1], states[k]);
    assert forall i :: 0 <= i < k - 1 ==> actions[..k - 1][i] == actions[..k][i];
  }

  // ----- the writer -----

  /** GitHub. Any call may fail, and a failed call may or may not have taken
      effect: a response can be lost after the write. */
  class GitHub {
    const cascade: bool
    var state: State

    constructor (cascade: bool, state: State)
      ensures this.cascade == cascade && this.state == state
    {
      this.cascade := cascade;
      this.state := state;
    }

    method SetMembership(login: string, admin: bool) returns (ok: bool)
      modifies this`state
      ensures MembershipSet(old(state), login, admin, state) || (!ok && state == old(state))
    {
      ok := *;
      var lost: bool := *;
      if !ok && lost {
        return;
      }
      var current := Current(state.members);
      if Lower(login) in current {
        state := state.(members := WithRole(state.members, Lower(login), RoleOf(admin)));
      } else {
        var id := 0;
        for i := 0 to |state.invitations|
          invariant forall j :: 0 <= j < i ==> state.invitations[j].id < id
        {
          if state.invitations[i].id >= id {
            id := state.invitations[i].id + 1;
          }
        }
        assert FreshId(state.invitations, id);
        state := Invite(state, id, login);
      }
    }

    method RemoveMember(login: string) returns (ok: bool)
      modifies this`state
      ensures state == MemberRemoved(cascade, old(state), login) || (!ok && state == old(state))
    {
      ok := *;
      var lost: bool := *;
      if ok || !lost {
        state := MemberRemoved(cascade, state, login);
      }
    }

    method CancelInvite(id: int) returns (ok: bool)
      modifies this`state
      ensures state == old(state).(invitations := WithoutId(old(state).invitations, id)) || (!ok && state == old(state))
    {
      ok := *;
      var lost: bool := *;
      if ok || !lost {
        state := state.(invitations := WithoutId(state.invitations, id));
      }
    }

    /** Fails on an unknown team. */
    method AddTeamMember(slug: string, login: string) returns (ok: bool)
      modifies this`state
      ensures (slug in old(state).teamMembers && state == TeamJoined(old(state), slug, login)) || (!ok && state == old(state))
    {
      if slug !in state.teamMembers {
        return false;
      }
      ok := *;
      var lost: bool := *;
      if ok || !lost {
        state := TeamJoined(state, slug, login);
      }
    }

    method RemoveTeamMember(slug: string, login: string) returns (ok: bool)
      modifies this`state
      ensures (slug in old(state).teamMembers && state == TeamLeft(old(state), slug, login)) || (!ok && state == old(state))
    {
      if slug !in state.teamMembers {
        return false;
      }
      ok := *;
      var lost: bool := *;
      if ok || !lost {
        state := TeamLeft(state, slug, login);
      }
    }

    /** Dispatches one action to its one call. */
    method Perform(a: Action) returns (ok: bool)
      modifies this`state
      ensures Step(cascade, old(state), a, state) || (!ok && state == old(state))
    {
      match a.kind
      case SetRole | AddAdmin | AddMember => ok := SetMembership(a.login, a.admin);
      case RemoveMember => ok := RemoveMember(a.login);
      case CancelInvite => ok := CancelInvite(a.invitationId);
      case TeamAdd => ok := AddTeamMember(a.team, a.login);
      case TeamRemove => ok := RemoveTeamMember(a.team, a.login);
    }

    /** Performs the plan action by action until one fails. done counts the
        actions reported; ghost states are those passed through, the last being
        where the run left GitHub unless the failing call took effect. */
    method Execute(actions: seq<Action>) returns (done: nat, ok: bool, ghost states: seq<State>)
      modifies this`state
      ensures done <= |actions| && (ok <==> done == |actions|)
      ensures Trace(cascade, states, actions[..done]) && states[0] == old(state)
      ensures ok ==> state == states[done]
      ensures !ok ==> state == states[done] || Step(cascade, states[done], actions[done], state)
    {
      done := 0;
      states := [state];
      while done < |actions|
        invariant done <= |actions|
        invariant Trace(cascade, states, actions[..done]) && states[0] == old(state)
        invariant state == states[done]
      {
        ok := Perform(actions[done]);
        if !ok {
          return;
        }
        states := states + [state];
        done := done + 1;
      }
      ok := true;
    }
  }
}
