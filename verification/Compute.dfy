/** The broker's read side end to end: join, render, plan (pkg/broker/broker.go,
    compute; pkg/broker/removals.go, sweepOrg). */
module Compute {
  import opened Text
  import opened Indexing
  import opened Sorting
  import opened Config
  import opened Mapping
  import opened Document
  import opened OrgState
  import opened PlanSpec
  import opened Liveness
  import opened Roster
  import opened RenderSpec
  import opened Pipeline
  import Join
  import Safety
  import Render
  import Reconciler

  /** Everything one computation reads. config decides which organizations exist
      and how they are guarded; inp.config is the one joined with. */
  datatype World = World(config: Config, inp: Inputs, unhealthy: seq<string>)

  datatype Computed =
    | NotConfigured
    | NotRendered(adding: seq<string>)
    | NothingToRemove
    | Decided(verdict: Verdict)

  function FindOrg(orgs: seq<Org>, name: string): Option<Org> {
    if orgs == [] then None
    else if orgs[0].name == name then Some(orgs[0])
    else FindOrg(orgs[1..], name)
  }

  /** The owner guard: the organization's own when positive, else the global one. */
  function MinAdminsFor(config: Config, name: string): int {
    var org := FindOrg(config.orgs, name);
    if org.Some? && org.value.minAdmins > 0 then org.value.minAdmins else config.minAdmins
  }

  /** out is what a computation answers in the given mode. */
  ghost predicate Computes(w: World, name: string, mode: Mode, out: Computed)
    requires name in w.inp.orgs
  {
    var org := FindOrg(w.config.orgs, name);
    if org.None? then out == NotConfigured
    else
      exists roster :: IsJoin(w.inp, roster) &&
        var rin := RenderInputs(mode, org.value, roster, w.inp.orgs[name], w.unhealthy);
        match RenderOf(rin)
        case WouldAdd(adding) => out == NotRendered(adding)
        case Rendered(result) =>
          if mode == RemovalsOnly && result.removing == [] then out == NothingToRemove
          else
            out.Decided? && Answers(result.doc, name, rin.state, Options(mode, MinAdminsFor(w.config, name)), out.verdict)
  }

  method Run(w: World, name: string, mode: Mode) returns (out: Computed)
    requires name in w.inp.orgs
    ensures Computes(w, name, mode, out)
  {
    var org := FindOrg(w.config.orgs, name);
    if org.None? {
      return NotConfigured;
    }
    var roster := Join.Run(w.inp);
    var rin := RenderInputs(mode, org.value, roster, w.inp.orgs[name], w.unhealthy);
    var outcome := Render.Run(rin);
    match outcome {
      case WouldAdd(adding) => out := NotRendered(adding);
      case Rendered(result) =>
        if mode == RemovalsOnly && |result.removing| == 0 {
          out := NothingToRemove;
        } else {
          var v := Reconciler.BuildPlan(result.doc, name, rin.state, Options(mode, MinAdminsFor(w.config, name)));
          out := Decided(v);
        }
    }
  }

  // ----- which organization, and which minimum -----

  lemma {:induction false} FindOrgMeans(orgs: seq<Org>, name: string)
    ensures FindOrg(orgs, name).None? <==> forall o :: o in orgs ==> o.name != name
    ensures forall o :: OrgsDistinct(orgs) && o in orgs && o.name == name ==> FindOrg(orgs, name) == Some(o)
  {
    if orgs != [] {
      FindOrgMeans(orgs[1..], name);
      assert orgs == [orgs[0]] + orgs[1..];
      if OrgsDistinct(orgs) {
        forall o | o in orgs && o.name == name ensures FindOrg(orgs, name) == Some(o) {
          var i :| 0 <= i < |orgs| && orgs[i] == o;
          assert i > 0 ==> orgs[1..][i - 1] == o;
        }
      }
    }
  }

  /** An unknown name, and only that, is answered as not configured. */
  lemma NotConfiguredIff(w: World, name: string, mode: Mode, out: Computed)
    requires name in w.inp.orgs && Computes(w, name, mode, out)
    ensures out.NotConfigured? <==> forall o :: o in w.config.orgs ==> o.name != name
  {
    FindOrgMeans(w.config.orgs, name);
  }

  /** The organization's owners. */
  function OwnersOf(members: seq<Member>): set<Member> {
    set m | m in members && m.role == RoleAdmin
  }

  lemma {:induction false} LoginsApart(members: seq<Member>)
    requires MembersDistinct(members)
    ensures |Logins(members)| == |members| && NoDup(Logins(members))
    ensures forall i, j :: 0 <= i < j < |members| ==> !EqualFold(Logins(members)[i], Logins(members)[j])
    ensures forall i :: 0 <= i < |members| ==> Logins(members)[i] == members[i].login
  {
    if members != [] {
      LoginsApart(members[..|members| - 1]);
      forall i, j | 0 <= i < j < |members| ensures members[i].login != members[j].login {
        assert MemberKey(members[i]) != MemberKey(members[j]);
      }
    }
  }

  lemma {:induction false} NothingToDedup(values: seq<string>)
    requires forall i, j :: 0 <= i < j < |values| ==> !EqualFold(values[i], values[j])
    ensures DedupFold(values) == values
  {
    if values != [] {
      NothingToDedup(values[..|values| - 1]);
    }
  }

  lemma {:induction false} OwnersApart(members: seq<Member>)
    requires MembersDistinct(members)
    ensures MembersDistinct(Filter(members, HasRole(true))) && |Filter(members, HasRole(true))| == |OwnersOf(members)|
  {
    if members != [] {
      var rest, last := members[..|members| - 1], members[|members| - 1];
      assert members == rest + [last];
      OwnersApart(rest);
      FilterSound(rest, HasRole(true));
      forall m | m in rest ensures MemberKey(m) != MemberKey(last) {
        var i :| 0 <= i < |rest| && rest[i] == m;
        assert members[i] == m;
      }
      OwnersSnoc(rest, last);
    }
  }

  lemma OwnersSnoc(rest: seq<Member>, last: Member)
    ensures OwnersOf(rest + [last]) == OwnersOf(rest) + if last.role == RoleAdmin then {last} else {}
  {
    var all := rest + [last];
    assert forall m :: m in all <==> m in rest || m == last;
  }

  /** The rendered stanza names each owner once. */
  lemma AdminsCount(rin: RenderInputs)
    requires MembersDistinct(rin.state.members)
    ensures |StanzaFor(rin).admins| == |OwnersOf(rin.state.members)|
  {
    var owners := Filter(rin.state.members, HasRole(true));
    OwnersApart(rin.state.members);
    LoginsApart(owners);
    NothingToDedup(Logins(owners));
    assert |SortStrings(Logins(owners))| == |multiset(SortStrings(Logins(owners)))|;
  }

  /** The pass a decision was made on. */
  lemma DecidedOn(w: World, name: string, mode: Mode, v: Verdict, o: Org) returns (rin: RenderInputs)
    requires name in w.inp.orgs && Computes(w, name, mode, Decided(v)) && FindOrg(w.config.orgs, name) == Some(o) && o.name == name
    ensures rin == RenderInputs(mode, o, rin.roster, w.inp.orgs[name], w.unhealthy)
    ensures Safety.PlannedFrom(rin, Options(mode, MinAdminsFor(w.config, name)), v)
  {
    var roster :| IsJoin(w.inp, roster) &&
      var pass := RenderInputs(mode, o, roster, w.inp.orgs[name], w.unhealthy);
      RenderOf(pass).Rendered? &&
      Answers(RenderOf(pass).result.doc, name, pass.state, Options(mode, MinAdminsFor(w.config, name)), v);
    rin := RenderInputs(mode, o, roster, w.inp.orgs[name], w.unhealthy);
  }

  lemma TooFewComesFirst(cfg: OrgDoc, s: State, opts: Options, v: Verdict)
    requires AnswersStanza(cfg, s, opts, v)
    ensures v == Refused(BelowMinAdmins) <==> |cfg.admins| < opts.minAdmins
  {
  }

  /** A computation that reaches the planner is refused for too few owners exactly when
      there are fewer than the organization's own minimum, where it sets one, and else
      than the global one. */
  lemma RefusedBelowMinimumIff(w: World, name: string, mode: Mode, v: Verdict, o: Org)
    requires name in w.inp.orgs && MembersDistinct(w.inp.orgs[name].members) && Computes(w, name, mode, Decided(v))
    requires OrgsDistinct(w.config.orgs) && o in w.config.orgs && o.name == name
    ensures v == Refused(BelowMinAdmins) <==>
      |OwnersOf(w.inp.orgs[name].members)| < if o.minAdmins > 0 then o.minAdmins else w.config.minAdmins
  {
    FindOrgMeans(w.config.orgs, name);
    var rin := DecidedOn(w, name, mode, v, o);
    var opts := Options(mode, MinAdminsFor(w.config, name));
    Safety.PlannedForStanza(rin, opts, v);
    TooFewComesFirst(StanzaFor(rin), rin.state, opts, v);
    AdminsCount(rin);
  }

  // ----- recomputing from equal inputs -----

  predicate NameLess(p: Person, q: Person) {
    Less(p.name, q.name)
  }

  lemma NamesOrder()
    ensures StrictOrder(NameLess)
  {
    forall p: Person { LessIrreflexive(p.name); }
    forall p: Person, q: Person, r: Person | NameLess(p, q) && NameLess(q, r) ensures NameLess(p, r) {
      LessTransitive(p.name, q.name, r.name);
    }
  }

  lemma {:induction false} PeopleDistinct(inp: Inputs, entries: seq<Entry>)
    requires DistinctBy(entries, EntryName)
    ensures NoDup(PeopleOf(inp, entries))
    ensures |PeopleOf(inp, entries)| == |entries|
    ensures forall i :: 0 <= i < |entries| ==> PeopleOf(inp, entries)[i].name == entries[i].name
  {
    if entries != [] {
      PeopleDistinct(inp, entries[..|entries| - 1]);
    }
  }

  /** A name-ordered arrangement of people with distinct names is strictly ordered. */
  lemma ArrangedStrictly(people: seq<Person>, sorted: seq<Person>)
    requires NoDup(people) && multiset(sorted) == multiset(people) && InNameOrder(sorted)
    requires forall i, j :: 0 <= i < j < |people| ==> people[i].name != people[j].name
    ensures StrictlySortedBy(sorted, NameLess)
  {
    NoDupMultiset(people);
    NoDupMultiset(sorted);
    forall i, j | 0 <= i < j < |sorted| ensures NameLess(sorted[i], sorted[j]) {
      LessTotal(sorted[i].name, sorted[j].name);
      assert sorted[i] in multiset(people) && sorted[j] in multiset(people);
      var a :| 0 <= a < |people| && people[a] == sorted[i];
      var b :| 0 <= b < |people| && people[b] == sorted[j];
    }
  }

  /** Joined people are strictly ordered by name. */
  lemma PeopleSorted(inp: Inputs, r: Roster)
    requires IsJoin(inp, r) && DistinctBy(inp.entries, EntryName)
    ensures StrictlySortedBy(r.people, NameLess)
  {
    PeopleDistinct(inp, inp.entries);
    ArrangedStrictly(PeopleOf(inp, inp.entries), r.people);
  }

  /** The join is a function of its inputs. */
  lemma RosterUnique(inp: Inputs, r1: Roster, r2: Roster)
    requires IsJoin(inp, r1) && IsJoin(inp, r2) && DistinctBy(inp.entries, EntryName)
    ensures r1 == r2
  {
    PeopleSorted(inp, r1);
    PeopleSorted(inp, r2);
    NamesOrder();
    assert forall p :: p in r1.people <==> p in multiset(r1.people);
    assert forall p :: p in r2.people <==> p in multiset(r2.people);
    SortedListUnique(r1.people, r2.people, NameLess);
  }

  /** Recomputing from equal inputs never changes the plan, whatever order maps are
      walked in: the hash an operator approved is reproducible. */
  lemma ComputeUnique(w: World, name: string, mode: Mode, a: Computed, b: Computed)
    requires name in w.inp.orgs && DistinctBy(w.inp.entries, EntryName)
    requires Computes(w, name, mode, a) && Computes(w, name, mode, b)
    ensures a == b
  {
    var org := FindOrg(w.config.orgs, name);
    if org.Some? {
      var opts := Options(mode, MinAdminsFor(w.config, name));
      forall r1, r2 | IsJoin(w.inp, r1) && IsJoin(w.inp, r2) ensures r1 == r2 {
        RosterUnique(w.inp, r1, r2);
      }
      forall doc, s, u, v | Answers(doc, name, s, opts, u) && Answers(doc, name, s, opts, v) ensures u == v {
        VerdictUnique(doc, name, s, opts, u, v);
      }
    }
  }
}
