/** The broker's apply protocol: operators, the reconcile loop and the removals
    sweep interleave over one lock, one plan store and a changing world
    (pkg/broker/broker.go, runs.go, reconcile.go, removals.go). */
module Broker {
  import opened Indexing
  import opened Document
  import opened Plans

  /** Who is behind a run. An operator approved a hash for an organization. */
  datatype Trigger = Operator(org: string, approved: Hash, async_: bool) | Reconcile | Sweep

  /** One Execute of one plan; todo is what a pass has left after it. */
  datatype Run = Run(id: nat, trigger: Trigger, entry: Stored, todo: seq<string>)

  /** Where a request or pass stands. */
  datatype Pc =
    | Idle
    | Waiting(org: string, approved: Hash, async_: bool)
    | Applying(org: string, approved: Hash, async_: bool)
    | Passing(sweep: bool, todo: seq<string>)
    | Executing(run: Run, done: nat)
    | Executed(run: Run, ok: bool)
    | Drifted(plan: Stored)
    | Peeking
    | Leaving

  /** What happened, in order. */
  datatype Event =
    | Put(entry: Stored)
    | Acquired(t: nat)
    | Released(t: nat)
    | Started(t: nat, run: Run)
    | Wrote(t: nat, id: nat, step: nat)
    | Ended(t: nat, id: nat, ok: bool)
    /** An audit record of the run `of`, or of a refusal that never ran. */
    | Recorded(t: nat, of: Option<nat>)

  datatype System = System(
    now: int,
    plans: map<Hash, Stored>,
    holder: Option<nat>,
    pcs: map<nat, Pc>,
    runs: nat,
    log: seq<Event>)

  function PcOf(s: System, t: nat): Pc {
    if t in s.pcs then s.pcs[t] else Idle
  }

  function At(s: System, t: nat, pc: Pc): System {
    s.(pcs := s.pcs[t := pc])
  }

  function Logged(s: System, e: Event): System {
    s.(log := s.log + [e])
  }

  predicate HoldsLock(pc: Pc) {
    !pc.Idle? && !pc.Waiting?
  }

  // ----- steps -----

  function StorePlan(s: System, e: Stored): System {
    Logged(s.(plans := PutAt(s.plans, e, s.now)), Put(e))
  }

  function Take(s: System, t: nat, pc: Pc): System {
    Logged(At(s, t, pc).(holder := Some(t)), Acquired(t))
  }

  function Release(s: System, t: nat): System {
    Logged(At(s, t, Idle).(holder := None), Released(t))
  }

  function Start(s: System, t: nat, trigger: Trigger, e: Stored, todo: seq<string>): System {
    var run := Run(s.runs, trigger, e, todo);
    Logged(At(s, t, Executing(run, 0)).(runs := s.runs + 1), Started(t, run))
  }

  function PassTrigger(sweep: bool): Trigger {
    if sweep then Sweep else Reconcile
  }

  function PassMode(sweep: bool): Mode {
    if sweep then RemovalsOnly else Full
  }

  /** handlePlan: a plan computed from the world of the moment is stored. */
  ghost predicate PlanStep(s: System, s': System, t: nat) {
    PcOf(s, t).Idle? && exists e :: s' == StorePlan(s, e)
  }

  /** An apply request finds its hash in the store, whatever its organization, or is
      turned away. */
  ghost predicate LookupStep(s: System, s': System, t: nat) {
    PcOf(s, t).Idle? && exists org, approved, async_ ::
      GetAt(s.plans, approved, s.now).Some? && s' == At(s, t, Waiting(org, approved, async_))
  }

  ghost predicate AcquireStep(s: System, s': System, t: nat) {
    PcOf(s, t).Waiting? && s.holder.None? &&
    var pc := PcOf(s, t);
    s' == Take(s, t, Applying(pc.org, pc.approved, pc.async_))
  }

  /** apply and applyStreaming: recompute, compare, and run only on a match. The
      fresh plan depends on a world free to have changed. */
  ghost predicate ApplyStep(s: System, s': System, t: nat) {
    PcOf(s, t).Applying? &&
    var pc := PcOf(s, t);
    || s' == At(s, t, Leaving)  // computing, or building the writer, failed
    || exists actions, stamp ::
         var plan := Stored(pc.org, Full, actions, stamp);
         if HashOf(plan) != pc.approved then s' == At(s, t, if pc.async_ then Leaving else Drifted(plan))
         else s' == Start(s, t, Operator(pc.org, pc.approved, pc.async_), plan, [])
  }

  /** A drifted synchronous apply stores the fresh plan for review. */
  ghost predicate DriftStep(s: System, s': System, t: nat) {
    PcOf(s, t).Drifted? && s' == At(StorePlan(s, PcOf(s, t).plan), t, Leaving)
  }

  /** Execute performs one action, or ends: after the last, or at the first error. */
  ghost predicate ExecuteStep(s: System, s': System, t: nat) {
    PcOf(s, t).Executing? &&
    var run, done := PcOf(s, t).run, PcOf(s, t).done;
    if done < |run.entry.actions| then
      || s' == Logged(At(s, t, Executing(run, done + 1)), Wrote(t, run.id, done))
      || s' == Logged(At(s, t, Executed(run, false)), Ended(t, run.id, false))
    else s' == Logged(At(s, t, Executed(run, true)), Ended(t, run.id, true))
  }

  /** The run is recorded, successful or not. */
  ghost predicate RecordStep(s: System, s': System, t: nat) {
    PcOf(s, t).Executed? &&
    var run := PcOf(s, t).run;
    s' == Logged(At(s, t, if run.trigger.Operator? then Leaving else Passing(run.trigger.Sweep?, run.todo)), Recorded(t, Some(run.id)))
  }

  /** RunReconcile and RunRemovals try the lock once; finding it taken they give up. */
  ghost predicate BeginPassStep(s: System, s': System, t: nat) {
    PcOf(s, t).Idle? && s.holder.None? &&
    exists sweep, orgs :: s' == Take(s, t, Passing(sweep, orgs))
  }

  /** One organization of a pass: left alone, refused (a sweep, and a missing
      writer, record that), or run. */
  ghost predicate PassStep(s: System, s': System, t: nat) {
    PcOf(s, t).Passing? &&
    var sweep, todo := PcOf(s, t).sweep, PcOf(s, t).todo;
    if todo == [] then s' == At(s, t, Leaving)
    else
      || s' == At(s, t, Passing(sweep, todo[1..]))
      || s' == Logged(At(s, t, Passing(sweep, todo[1..])), Recorded(t, None))
      || exists actions, stamp ::
           s' == Start(s, t, PassTrigger(sweep), Stored(todo[0], PassMode(sweep), actions, stamp), todo[1..])
  }

  /** handleRunReconcile takes the lock only to see that it can. */
  ghost predicate PeekStep(s: System, s': System, t: nat) {
    PcOf(s, t).Idle? && s.holder.None? && s' == Take(s, t, Peeking)
  }

  ghost predicate ReleaseStep(s: System, s': System, t: nat) {
    (PcOf(s, t).Leaving? || PcOf(s, t).Peeking?) && s' == Release(s, t)
  }

  ghost predicate TickStep(s: System, s': System) {
    exists now :: s.now <= now && s' == s.(now := now)
  }

  ghost predicate ThreadStep(s: System, s': System, t: nat) {
    || PlanStep(s, s', t) || LookupStep(s, s', t) || AcquireStep(s, s', t) || ApplyStep(s, s', t)
    || DriftStep(s, s', t) || ExecuteStep(s, s', t) || RecordStep(s, s', t) || BeginPassStep(s, s', t)
    || PassStep(s, s', t) || PeekStep(s, s', t) || ReleaseStep(s, s', t)
  }

  ghost predicate Next(s: System, s': System) {
    TickStep(s, s') || exists t :: ThreadStep(s, s', t)
  }

  ghost predicate Init(s: System) {
    s.plans == map[] && s.holder == None && s.pcs == map[] && s.runs == 0 && s.log == []
  }

  ghost predicate Behaviour(states: seq<System>) {
    |states| > 0 && Init(states[0]) && forall i :: 0 <= i < |states| - 1 ==> Next(states[i], states[i + 1])
  }

  // ----- one writer, one record -----

  /** The discipline the log must follow, as an automaton: the lock passes from
      hand to hand, its holder runs one plan at a time, and a run that ended, well
      or badly, owes exactly one record before anything else happens under the
      lock. Broken is where any breach leads. */
  datatype Watch = Free | Held(t: nat) | Running(t: nat, id: nat) | Owing(t: nat, id: nat) | Broken

  function Observe(w: Watch, e: Event): Watch {
    match e
    case Put(_) => w
    case Acquired(t) => if w == Free then Held(t) else Broken
    case Released(t) => if w == Held(t) then Free else Broken
    case Started(t, run) => if w == Held(t) then Running(t, run.id) else Broken
    case Wrote(t, id, _) => if w == Running(t, id) then w else Broken
    case Ended(t, id, _) => if w == Running(t, id) then Owing(t, id) else Broken
    case Recorded(t, Some(id)) => if w == Owing(t, id) then Held(t) else Broken
    case Recorded(t, None) => if w == Held(t) then w else Broken
  }

  function Watched(log: seq<Event>): Watch {
    if log == [] then Free else Observe(Watched(log[..|log| - 1]), log[|log| - 1])
  }

  /** What the automaton should be seeing. */
  function Expected(s: System): Watch {
    if s.holder.None? then Free
    else
      match PcOf(s, s.holder.value)
      case Executing(run, _) => Running(s.holder.value, run.id)
      case Executed(run, _) => Owing(s.holder.value, run.id)
      case _ => Held(s.holder.value)
  }

  // ----- approved is what runs -----

  /** A plan under this hash was stored before position n. */
  ghost predicate PutBefore(log: seq<Event>, n: nat, h: Hash) {
    exists i :: 0 <= i < n && i < |log| && log[i].Put? && HashOf(log[i].entry) == h
  }

  ghost predicate ApprovedRuns(log: seq<Event>) {
    forall n :: 0 <= n < |log| && log[n].Started? && log[n].run.trigger.Operator? ==>
      HashOf(log[n].run.entry) == log[n].run.trigger.approved && PutBefore(log, n, log[n].run.trigger.approved)
  }

  /** The hash a request carries, if any. */
  function ApprovedBy(pc: Pc): Option<Hash> {
    match pc
    case Waiting(_, h, _) => Some(h)
    case Applying(_, h, _) => Some(h)
    case _ => None
  }

  // ----- the invariant -----

  ghost predicate LockInv(s: System) {
    forall t: nat :: HoldsLock(PcOf(s, t)) <==> s.holder == Some(t)
  }

  ghost predicate PlansInv(s: System) {
    && (forall h :: h in s.plans ==> HashOf(s.plans[h]) == h && PutBefore(s.log, |s.log|, h))
    && (forall t :: ApprovedBy(PcOf(s, t)).Some? ==> PutBefore(s.log, |s.log|, ApprovedBy(PcOf(s, t)).value))
  }

  ghost predicate Inv(s: System) {
    LockInv(s) && PlansInv(s) && ApprovedRuns(s.log) && Watched(s.log) == Expected(s)
  }

  lemma PutBeforeGrows(log: seq<Event>, n: nat, e: Event, h: Hash)
    requires PutBefore(log, n, h) && n <= |log|
    ensures PutBefore(log + [e], n, h) && PutBefore(log + [e], |log| + 1, h)
  {
    var i :| 0 <= i < n && i < |log| && log[i].Put? && HashOf(log[i].entry) == h;
    assert (log + [e])[i] == log[i];
  }

  lemma ObserveNext(log: seq<Event>, e: Event)
    ensures Watched(log + [e]) == Observe(Watched(log), e)
  {
    assert (log + [e])[..|log|] == log;
  }

  lemma RunsGrow(log: seq<Event>, e: Event)
    requires ApprovedRuns(log)
    requires e.Started? && e.run.trigger.Operator? ==>
      HashOf(e.run.entry) == e.run.trigger.approved && PutBefore(log, |log|, e.run.trigger.approved)
    ensures ApprovedRuns(log + [e])
  {
    var longer := log + [e];
    forall n | 0 <= n < |longer| && longer[n].Started? && longer[n].run.trigger.Operator?
      ensures HashOf(longer[n].run.entry) == longer[n].run.trigger.approved && PutBefore(longer, n, longer[n].run.trigger.approved)
    {
      PutBeforeGrows(log, n, e, longer[n].run.trigger.approved);
    }
  }

  /** Storing a plan keeps every stored plan under its own hash, and logged. */
  lemma StoreKeeps(s: System, e: Stored)
    requires Inv(s)
    ensures Inv(StorePlan(s, e))
  {
    var s' := StorePlan(s, e);
    ObserveNext(s.log, Put(e));
    RunsGrow(s.log, Put(e));
    forall h | h in s'.plans ensures HashOf(s'.plans[h]) == h && PutBefore(s'.log, |s'.log|, h) {
      if h == HashOf(e) {
        assert s'.log[|s.log|] == Put(e);
      } else {
        PutBeforeGrows(s.log, |s.log|, Put(e), h);
      }
    }
    forall t | ApprovedBy(PcOf(s', t)).Some? ensures PutBefore(s'.log, |s'.log|, ApprovedBy(PcOf(s', t)).value) {
      assert PcOf(s', t) == PcOf(s, t);
      PutBeforeGrows(s.log, |s.log|, Put(e), ApprovedBy(PcOf(s, t)).value);
    }
  }

  /** A move of one thread that logs nothing and leaves the lock alone. */
  lemma MoveKeeps(s: System, t: nat, pc: Pc)
    requires Inv(s)
    requires HoldsLock(PcOf(s, t)) == HoldsLock(pc)
    requires ApprovedBy(pc).Some? ==> PutBefore(s.log, |s.log|, ApprovedBy(pc).value)
    requires s.holder == Some(t) ==> Expected(At(s, t, pc)) == Expected(s)
    ensures Inv(At(s, t, pc))
  {
    var s' := At(s, t, pc);
    assert forall u :: PcOf(s', u) == if u == t then pc else PcOf(s, u);
  }

  /** A move of the lock's holder that logs one event other than a Put. */
  lemma LogKeeps(s: System, t: nat, pc: Pc, e: Event, s': System)
    requires Inv(s) && s'.plans == s.plans && s'.log == s.log + [e]
    requires forall u :: PcOf(s', u) == if u == t then pc else PcOf(s, u)
    requires ApprovedBy(pc).Some? ==> PutBefore(s.log, |s.log|, ApprovedBy(pc).value)
    requires e.Started? && e.run.trigger.Operator? ==>
      HashOf(e.run.entry) == e.run.trigger.approved && PutBefore(s.log, |s.log|, e.run.trigger.approved)
    requires LockInv(s') && Observe(Expected(s), e) == Expected(s')
    ensures Inv(s')
  {
    ObserveNext(s.log, e);
    RunsGrow(s.log, e);
    forall h | h in s'.plans ensures HashOf(s'.plans[h]) == h && PutBefore(s'.log, |s'.log|, h) {
      PutBeforeGrows(s.log, |s.log|, e, h);
    }
    forall u | ApprovedBy(PcOf(s', u)).Some? ensures PutBefore(s'.log, |s'.log|, ApprovedBy(PcOf(s', u)).value) {
      PutBeforeGrows(s.log, |s.log|, e, ApprovedBy(PcOf(s', u)).value);
    }
  }

  lemma TickKeeps(s: System, s': System)
    requires Inv(s) && TickStep(s, s')
    ensures Inv(s')
  {
    assert forall t :: PcOf(s', t) == PcOf(s, t);
  }

  lemma LookupKeeps(s: System, s': System, t: nat)
    requires Inv(s) && LookupStep(s, s', t)
    ensures Inv(s')
  {
    var org, approved, async_ :| GetAt(s.plans, approved, s.now).Some? && s' == At(s, t, Waiting(org, approved, async_));
    MoveKeeps(s, t, Waiting(org, approved, async_));
  }

  /** Whoever takes a free lock, to apply what they waited with, to pass over the
      organizations, or to peek, keeps the invariant. */
  lemma TakeKeeps(s: System, t: nat, pc: Pc)
    requires Inv(s) && s.holder.None? && (pc.Applying? || pc.Passing? || pc.Peeking?)
    requires ApprovedBy(pc).Some? ==> ApprovedBy(pc) == ApprovedBy(PcOf(s, t))
    ensures Inv(Take(s, t, pc))
  {
    LogKeeps(s, t, pc, Acquired(t), Take(s, t, pc));
  }

  lemma ReleaseKeeps(s: System, s': System, t: nat)
    requires Inv(s) && ReleaseStep(s, s', t)
    ensures Inv(s')
  {
    assert HoldsLock(PcOf(s, t));
    LogKeeps(s, t, Idle, Released(t), s');
  }

  lemma StartKeeps(s: System, t: nat, trigger: Trigger, e: Stored, todo: seq<string>)
    requires Inv(s) && s.holder == Some(t) && Expected(s) == Held(t)
    requires trigger.Operator? ==> HashOf(e) == trigger.approved && PutBefore(s.log, |s.log|, trigger.approved)
    ensures Inv(Start(s, t, trigger, e, todo))
  {
    var s' := Start(s, t, trigger, e, todo);
    LogKeeps(s, t, PcOf(s', t), Started(t, Run(s.runs, trigger, e, todo)), s');
  }

  lemma ApplyKeeps(s: System, s': System, t: nat)
    requires Inv(s) && ApplyStep(s, s', t)
    ensures Inv(s')
  {
    var pc := PcOf(s, t);
    assert HoldsLock(pc) && ApprovedBy(pc) == Some(pc.approved);
    if s' == At(s, t, Leaving) {
      MoveKeeps(s, t, Leaving);
    } else {
      var actions, stamp :|
        var plan := Stored(pc.org, Full, actions, stamp);
        if HashOf(plan) != pc.approved then s' == At(s, t, if pc.async_ then Leaving else Drifted(plan))
        else s' == Start(s, t, Operator(pc.org, pc.approved, pc.async_), plan, []);
      var plan := Stored(pc.org, Full, actions, stamp);
      if HashOf(plan) != pc.approved {
        MoveKeeps(s, t, if pc.async_ then Leaving else Drifted(plan));
      } else {
        StartKeeps(s, t, Operator(pc.org, pc.approved, pc.async_), plan, []);
      }
    }
  }

  lemma DriftKeeps(s: System, s': System, t: nat)
    requires Inv(s) && DriftStep(s, s', t)
    ensures Inv(s')
  {
    assert HoldsLock(PcOf(s, t));
    var stored := StorePlan(s, PcOf(s, t).plan);
    StoreKeeps(s, PcOf(s, t).plan);
    assert PcOf(stored, t) == PcOf(s, t);
    MoveKeeps(stored, t, Leaving);
  }

  lemma ExecuteKeeps(s: System, s': System, t: nat)
    requires Inv(s) && ExecuteStep(s, s', t)
    ensures Inv(s')
  {
    assert HoldsLock(PcOf(s, t));
    LogKeeps(s, t, PcOf(s', t), s'.log[|s.log|], s');
  }

  lemma RecordKeeps(s: System, s': System, t: nat)
    requires Inv(s) && RecordStep(s, s', t)
    ensures Inv(s')
  {
    assert HoldsLock(PcOf(s, t));
    LogKeeps(s, t, PcOf(s', t), Recorded(t, Some(PcOf(s, t).run.id)), s');
  }

  lemma PassKeeps(s: System, s': System, t: nat)
    requires Inv(s) && PassStep(s, s', t)
    ensures Inv(s')
  {
    var sweep, todo := PcOf(s, t).sweep, PcOf(s, t).todo;
    assert HoldsLock(PcOf(s, t));
    if todo == [] {
      MoveKeeps(s, t, Leaving);
    } else if s' == At(s, t, Passing(sweep, todo[1..])) {
      MoveKeeps(s, t, Passing(sweep, todo[1..]));
    } else if s' == Logged(At(s, t, Passing(sweep, todo[1..])), Recorded(t, None)) {
      LogKeeps(s, t, Passing(sweep, todo[1..]), Recorded(t, None), s');
    } else {
      var actions, stamp :|
        s' == Start(s, t, PassTrigger(sweep), Stored(todo[0], PassMode(sweep), actions, stamp), todo[1..]);
      StartKeeps(s, t, PassTrigger(sweep), Stored(todo[0], PassMode(sweep), actions, stamp), todo[1..]);
    }
  }

  lemma NextKeeps(s: System, s': System)
    requires Inv(s) && Next(s, s')
    ensures Inv(s')
  {
    if TickStep(s, s') {
      TickKeeps(s, s');
    } else {
      var t :| ThreadStep(s, s', t);
      if PlanStep(s, s', t) {
        var e :| s' == StorePlan(s, e);
        StoreKeeps(s, e);
      }
      else if LookupStep(s, s', t) { LookupKeeps(s, s', t); }
      else if AcquireStep(s, s', t) {
        var pc := PcOf(s, t);
        TakeKeeps(s, t, Applying(pc.org, pc.approved, pc.async_));
      }
      else if ApplyStep(s, s', t) { ApplyKeeps(s, s', t); }
      else if DriftStep(s, s', t) { DriftKeeps(s, s', t); }
      else if ExecuteStep(s, s', t) { ExecuteKeeps(s, s', t); }
      else if RecordStep(s, s', t) { RecordKeeps(s, s', t); }
      else if BeginPassStep(s, s', t) {
        var sweep, orgs :| s' == Take(s, t, Passing(sweep, orgs));
        TakeKeeps(s, t, Passing(sweep, orgs));
      }
      else if PassStep(s, s', t) { PassKeeps(s, s', t); }
      else if PeekStep(s, s', t) { TakeKeeps(s, t, Peeking); }
      else { ReleaseKeeps(s, s', t); }
    }
  }

  lemma {:induction false} BehavioursKeep(states: seq<System>, n: nat)
    requires Behaviour(states) && n < |states|
    ensures Inv(states[n])
  {
    if n > 0 {
      BehavioursKeep(states, n - 1);
      NextKeeps(states[n - 1], states[n]);
    }
  }

  // ----- the theorems -----

  /** Approved is what runs: in every interleaving, each operator-triggered Execute
      runs exactly the organization, mode and actions of a plan stored earlier
      under the approved hash, though the lookup is not scoped by organization. */
  lemma ApprovedIsWhatRuns(states: seq<System>, n: nat, i: nat)
    requires Behaviour(states) && n < |states| && i < |states[n].log|
    requires states[n].log[i].Started? && states[n].log[i].run.trigger.Operator?
    ensures var run := states[n].log[i].run;
      exists j :: 0 <= j < i && states[n].log[j].Put? &&
        var plan := states[n].log[j].entry;
        HashOf(plan) == run.trigger.approved &&
        plan.org == run.entry.org && plan.mode == run.entry.mode && plan.actions == run.entry.actions
  {
    BehavioursKeep(states, n);
    var log := states[n].log;
    var run := log[i].run;
    assert PutBefore(log, i, run.trigger.approved);
    var j :| 0 <= j < i && j < |log| && log[j].Put? && HashOf(log[j].entry) == run.trigger.approved;
    assert HashOf(run.entry) == HashOf(log[j].entry);
  }

  lemma {:induction false} BrokenStays(log: seq<Event>, n: nat)
    requires n <= |log| && Watched(log[..n]) == Broken
    ensures Watched(log) == Broken
    decreases |log| - n
  {
    if n < |log| {
      assert log[..n + 1][..n] == log[..n];
      BrokenStays(log, n + 1);
    } else {
      assert log[..n] == log;
    }
  }

  /** In every interleaving the discipline of the lock is never breached. */
  lemma NeverBroken(states: seq<System>, n: nat, i: nat)
    requires Behaviour(states) && n < |states| && i <= |states[n].log|
    ensures Watched(states[n].log[..i]) != Broken
  {
    BehavioursKeep(states, n);
    if Watched(states[n].log[..i]) == Broken {
      BrokenStays(states[n].log, i);
    }
  }

  /** One writer: at most one thread is inside Execute, and every write to GitHub
      happens while the writing run is the one the lock's holder started. */
  lemma OneWriter(states: seq<System>, n: nat, t: nat, u: nat, i: nat)
    requires Behaviour(states) && n < |states|
    ensures PcOf(states[n], t).Executing? && PcOf(states[n], u).Executing? ==> t == u
    ensures i < |states[n].log| && states[n].log[i].Wrote? ==>
      Watched(states[n].log[..i]) == Running(states[n].log[i].t, states[n].log[i].id)
  {
    BehavioursKeep(states, n);
    var log := states[n].log;
    assert PcOf(states[n], t).Executing? ==> HoldsLock(PcOf(states[n], t));
    assert PcOf(states[n], u).Executing? ==> HoldsLock(PcOf(states[n], u));
    if i < |log| {
      NeverBroken(states, n, i + 1);
      assert log[..i + 1][..i] == log[..i];
    }
  }

  /** From the moment a run ends until its thread's next event under the lock, the
      record is owed; so the run's record is what that thread does next. */
  lemma {:induction false} OwedUntilRecorded(log: seq<Event>, i: nat, k: nat)
    requires i < k <= |log| && log[i].Ended? && Watched(log) != Broken
    requires forall j :: i < j < k ==> log[j].Put?
    ensures Watched(log[..k]) == Owing(log[i].t, log[i].id)
  {
    assert log[..k][..k - 1] == log[..k - 1];
    if Watched(log[..k]) == Broken {
      BrokenStays(log, k);
    }
    if k > i + 1 {
      OwedUntilRecorded(log, i, k - 1);
    }
  }

  /** One record: the first thing logged after a run ends, plans being stored aside,
      is the one record of that run, by the thread that ran it, before the lock is
      released or anything else runs. */
  lemma RecordFollowsRun(states: seq<System>, n: nat, i: nat, k: nat)
    requires Behaviour(states) && n < |states| && i < k < |states[n].log|
    requires states[n].log[i].Ended? && !states[n].log[k].Put?
    requires forall j :: i < j < k ==> states[n].log[j].Put?
    ensures states[n].log[k] == Recorded(states[n].log[i].t, Some(states[n].log[i].id))
  {
    var log := states[n].log;
    NeverBroken(states, n, |log|);
    assert log[..|log|] == log;
    OwedUntilRecorded(log, i, k);
    NeverBroken(states, n, k + 1);
    assert log[..k + 1][..k] == log[..k];
  }

  // ----- counting -----

  function Starts(log: seq<Event>, id: nat): nat {
    if log == [] then 0
    else
      var e := log[|log| - 1];
      Starts(log[..|log| - 1], id) + if e.Started? && e.run.id == id then 1 else 0
  }

  function Ends(log: seq<Event>, id: nat): nat {
    if log == [] then 0
    else
      var e := log[|log| - 1];
      Ends(log[..|log| - 1], id) + if e.Ended? && e.id == id then 1 else 0
  }

  function Records(log: seq<Event>, id: nat): nat {
    if log == [] then 0
    else
      var e := log[|log| - 1];
      Records(log[..|log| - 1], id) + if e.Recorded? && e.of == Some(id) then 1 else 0
  }

  /** While the discipline holds, every start is ended unless running, and every
      end recorded unless owed. */
  lemma {:induction false} Balance(log: seq<Event>, id: nat)
    requires Watched(log) != Broken
    ensures Starts(log, id) == Ends(log, id) + if Watched(log).Running? && Watched(log).id == id then 1 else 0
    ensures Ends(log, id) == Records(log, id) + if Watched(log).Owing? && Watched(log).id == id then 1 else 0
  {
    if log != [] {
      Balance(log[..|log| - 1], id);
    }
  }

  /** A step logs at most one event, and numbers the run it starts afresh. */
  ghost predicate Extends(s: System, s': System) {
    || (s'.log == s.log && s'.runs == s.runs)
    || exists e :: s'.log == s.log + [e] &&
         if e.Started? then e.run.id == s.runs && s'.runs == s.runs + 1 else s'.runs == s.runs
  }

  lemma NextExtends(s: System, s': System)
    requires Next(s, s')
    ensures Extends(s, s')
  {
    if !TickStep(s, s') {
      var t :| ThreadStep(s, s', t);
      if RunStep(s, s', t) {
        RunExtends(s, s', t);
      } else {
        QuietExtends(s, s', t);
      }
    }
  }

  ghost predicate RunStep(s: System, s': System, t: nat) {
    ApplyStep(s, s', t) || ExecuteStep(s, s', t) || RecordStep(s, s', t) || PassStep(s, s', t)
  }

  lemma RunExtends(s: System, s': System, t: nat)
    requires RunStep(s, s', t)
    ensures Extends(s, s')
  {
  }

  lemma QuietExtends(s: System, s': System, t: nat)
    requires ThreadStep(s, s', t) && !RunStep(s, s', t)
    ensures Extends(s, s')
  {
  }

  lemma {:induction false} StartedOnce(states: seq<System>, n: nat, id: nat)
    requires Behaviour(states) && n < |states|
    ensures Starts(states[n].log, id) == if id < states[n].runs then 1 else 0
  {
    if n > 0 {
      StartedOnce(states, n - 1, id);
      NextExtends(states[n - 1], states[n]);
      if states[n].log != states[n - 1].log {
        var e :| states[n].log == states[n - 1].log + [e];
        assert states[n].log[..|states[n - 1].log|] == states[n - 1].log;
      }
    }
  }

  /** Whenever the lock is free, every run so far has ended and been recorded
      exactly once. */
  lemma RecordedExactlyOnce(states: seq<System>, n: nat, id: nat)
    requires Behaviour(states) && n < |states| && states[n].holder.None? && id < states[n].runs
    ensures Starts(states[n].log, id) == 1 && Ends(states[n].log, id) == 1 && Records(states[n].log, id) == 1
  {
    BehavioursKeep(states, n);
    StartedOnce(states, n, id);
    Balance(states[n].log, id);
  }

  // ----- modes and drift -----

  /** What a run may do follows from who started it: a sweep removes only. */
  ghost predicate ModesFit(log: seq<Event>) {
    forall i :: 0 <= i < |log| && log[i].Started? ==>
      log[i].run.entry.mode == if log[i].run.trigger == Sweep then RemovalsOnly else Full
  }

  lemma NextFits(s: System, s': System)
    requires ModesFit(s.log) && Next(s, s')
    ensures ModesFit(s'.log)
  {
    if !TickStep(s, s') {
      var t :| ThreadStep(s, s', t);
      if RunStep(s, s', t) {
        StartsFit(s, s', t);
      }
    }
  }

  lemma StartsFit(s: System, s': System, t: nat)
    requires ModesFit(s.log) && RunStep(s, s', t)
    ensures ModesFit(s'.log)
  {
  }

  /** In every interleaving, runs started by a sweep are removals-only, and all others
      are full. */
  lemma {:induction false} SweepsOnlyRemove(states: seq<System>, n: nat)
    requires Behaviour(states) && n < |states|
    ensures ModesFit(states[n].log)
  {
    if n > 0 {
      SweepsOnlyRemove(states[..n], n - 1);
      NextFits(states[n - 1], states[n]);
    }
  }

  /** A plan that drifted under a waiting operator is there to be reviewed. */
  lemma DriftIsStored(s: System, s': System, t: nat)
    requires DriftStep(s, s', t)
    ensures var plan := PcOf(s, t).plan;
      GetAt(s'.plans, HashOf(plan), s'.now) == Some(plan.(createdAt := s.now)) && s'.log == s.log + [Put(plan)]
  {
  }
}
