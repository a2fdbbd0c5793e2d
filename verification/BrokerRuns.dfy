/** What runs write, and that all the protocol allows can happen: an approved plan runs
    to any action it may fail at, and a pass serves every organization (pkg/broker). */
module BrokerRuns {
  import opened Indexing
  import opened Document
  import opened Plans
  import opened Broker
  import PlanSpec

  // ----- what a run writes -----

  /** The steps a run has written, in order. */
  function WritesOf(log: seq<Event>, id: nat): seq<nat> {
    if log == [] then []
    else
      var e := log[|log| - 1];
      WritesOf(log[..|log| - 1], id) + if e.Wrote? && e.id == id then [e.step] else []
  }

  /** The first k steps. */
  function Steps(k: nat): seq<nat> {
    seq(k, i requires 0 <= i < k => i)
  }

  lemma StepsSnoc(k: nat)
    ensures Steps(k) + [k] == Steps(k + 1) && |Steps(k)| == k
  {
  }

  lemma WritesSnoc(log: seq<Event>, e: Event)
    ensures forall id :: WritesOf(log + [e], id) == WritesOf(log, id) + if e.Wrote? && e.id == id then [e.step] else []
  {
    assert (log + [e])[..|log|] == log;
  }

  lemma {:induction false} NoWrites(log: seq<Event>, id: nat)
    requires forall i :: 0 <= i < |log| && log[i].Wrote? ==> log[i].id != id
    ensures WritesOf(log, id) == []
  {
    if log != [] {
      NoWrites(log[..|log| - 1], id);
    }
  }

  /** A run has written some of its actions, from the first on. */
  ghost predicate InOrder(log: seq<Event>, run: Run) {
    var written := WritesOf(log, run.id);
    |written| <= |run.entry.actions| && written == Steps(|written|)
  }

  /** And if it ended, it did so well exactly when it wrote them all. */
  ghost predicate Fits(log: seq<Event>, run: Run) {
    && InOrder(log, run)
    && forall j :: 0 <= j < |log| && log[j].Ended? && log[j].id == run.id ==>
         (log[j].ok <==> |WritesOf(log, run.id)| == |run.entry.actions|)
  }

  ghost predicate Wrought(log: seq<Event>) {
    forall i :: 0 <= i < |log| && log[i].Started? ==> Fits(log, log[i].run)
  }

  ghost predicate Numbered(s: System) {
    forall i :: 0 <= i < |s.log| ==>
      && (s.log[i].Started? ==> s.log[i].run.id < s.runs)
      && (s.log[i].Wrote? || s.log[i].Ended? ==> s.log[i].id < s.runs)
  }

  /** The run has not ended, and its number is no other's. */
  ghost predicate Alone(log: seq<Event>, run: Run) {
    forall i :: 0 <= i < |log| ==>
      && (log[i].Ended? ==> log[i].id != run.id)
      && (log[i].Started? && log[i].run.id == run.id ==> log[i].run == run)
  }

  /** The run has not ended, and has written as many steps as it has done. */
  ghost predicate Underway(s: System, run: Run, done: nat) {
    run.id < s.runs && done <= |run.entry.actions| && WritesOf(s.log, run.id) == Steps(done) && Alone(s.log, run)
  }

  ghost predicate RunsInv(s: System) {
    && Numbered(s) && Wrought(s.log)
    && forall t: nat :: PcOf(s, t).Executing? ==> Underway(s, PcOf(s, t).run, PcOf(s, t).done)
  }

  /** A step that starts, writes and ends nothing. */
  ghost predicate Quiet(s: System, s': System) {
    && s'.runs == s.runs
    && (forall t: nat :: PcOf(s', t).Executing? ==> PcOf(s', t) == PcOf(s, t))
    && (s'.log == s.log || exists e :: s'.log == s.log + [e] && !e.Started? && !e.Wrote? && !e.Ended?)
  }

  ghost predicate StartStep(s: System, s': System, t: nat) {
    HoldsLock(PcOf(s, t)) && exists trigger, e, todo :: s' == Start(s, t, trigger, e, todo)
  }

  lemma NextShape(s: System, s': System)
    requires Next(s, s')
    ensures Quiet(s, s') || exists t: nat :: StartStep(s, s', t) || ExecuteStep(s, s', t)
  {
    if !TickStep(s, s') {
      var t :| ThreadStep(s, s', t);
      if ApplyStep(s, s', t) {
        ApplyShape(s, s', t);
      } else if PassStep(s, s', t) {
        PassShape(s, s', t);
      } else if !ExecuteStep(s, s', t) {
        QuietShape(s, s', t);
      }
    }
  }

  lemma ApplyShape(s: System, s': System, t: nat)
    requires ApplyStep(s, s', t)
    ensures Quiet(s, s') || StartStep(s, s', t)
  {
  }

  lemma PassShape(s: System, s': System, t: nat)
    requires PassStep(s, s', t)
    ensures Quiet(s, s') || StartStep(s, s', t)
  {
  }

  lemma QuietShape(s: System, s': System, t: nat)
    requires ThreadStep(s, s', t) && !ApplyStep(s, s', t) && !PassStep(s, s', t) && !ExecuteStep(s, s', t)
    ensures Quiet(s, s')
  {
  }

  lemma QuietKeeps(s: System, s': System)
    requires RunsInv(s) && Quiet(s, s')
    ensures RunsInv(s')
  {
    if s'.log != s.log {
      var e :| s'.log == s.log + [e] && !e.Started? && !e.Wrote? && !e.Ended?;
      WritesSnoc(s.log, e);
      forall i | 0 <= i < |s'.log| && s'.log[i].Started? ensures Fits(s'.log, s'.log[i].run) {
        OthersFit(s.log, e, s.log[i].run);
      }
    }
  }

  /** Nobody but the lock's holder executes. */
  lemma OnlyHolder(s: System, t: nat, u: nat)
    requires Inv(s) && HoldsLock(PcOf(s, t)) && PcOf(s, u).Executing?
    ensures u == t
  {
    assert HoldsLock(PcOf(s, u));
  }

  /** What is logged of others leaves a run as it was. */
  lemma OthersFit(log: seq<Event>, e: Event, run: Run)
    requires Fits(log, run) && (e.Wrote? || e.Ended? ==> e.id != run.id)
    ensures Fits(log + [e], run)
  {
    WritesSnoc(log, e);
  }

  lemma AllFit(log: seq<Event>, e: Event, run: Run)
    requires Wrought(log) && Alone(log, run) && Fits(log + [e], run)
    requires (e.Started? && e.run == run) || (!e.Started? && (e.Wrote? || e.Ended? ==> e.id == run.id))
    ensures Wrought(log + [e])
  {
    var longer := log + [e];
    forall i | 0 <= i < |longer| && longer[i].Started? ensures Fits(longer, longer[i].run) {
      if longer[i].run != run {
        assert longer[i] == log[i];
        OthersFit(log, e, log[i].run);
      }
    }
  }

  lemma WroteFits(log: seq<Event>, e: Event, run: Run, done: nat)
    requires Alone(log, run) && WritesOf(log, run.id) == Steps(done) && done < |run.entry.actions|
    requires e.Wrote? && e.id == run.id && e.step == done
    ensures Fits(log + [e], run) && WritesOf(log + [e], run.id) == Steps(done + 1)
  {
    WritesSnoc(log, e);
    StepsSnoc(done);
    assert forall j :: 0 <= j < |log + [e]| && (log + [e])[j].Ended? ==> (log + [e])[j] == log[j];
  }

  lemma EndedFits(log: seq<Event>, e: Event, run: Run, done: nat)
    requires Alone(log, run) && WritesOf(log, run.id) == Steps(done) && done <= |run.entry.actions|
    requires e.Ended? && e.id == run.id && (e.ok <==> done == |run.entry.actions|)
    ensures Fits(log + [e], run)
  {
    WritesSnoc(log, e);
  }

  lemma NumberedSnoc(s: System, s': System, e: Event)
    requires Numbered(s) && s'.log == s.log + [e] && s.runs <= s'.runs
    requires (e.Started? ==> e.run.id < s'.runs) && (e.Wrote? || e.Ended? ==> e.id < s'.runs)
    ensures Numbered(s')
  {
  }

  lemma StartKeepsRuns(s: System, s': System, t: nat)
    requires Inv(s) && RunsInv(s) && StartStep(s, s', t)
    ensures RunsInv(s')
  {
    var trigger, e, todo :| s' == Start(s, t, trigger, e, todo);
    var run := Run(s.runs, trigger, e, todo);
    NoWrites(s.log, s.runs);
    WritesSnoc(s.log, Started(t, run));
    assert Steps(0) == [];
    AllFit(s.log, Started(t, run), run);
    NumberedSnoc(s, s', Started(t, run));
    forall u: nat | PcOf(s', u).Executing? ensures Underway(s', PcOf(s', u).run, PcOf(s', u).done) {
      if u != t {
        OnlyHolder(s, t, u);
      }
    }
  }

  lemma WriteKeepsRuns(s: System, s': System, t: nat)
    requires Inv(s) && RunsInv(s) && ExecuteStep(s, s', t)
    ensures RunsInv(s')
  {
    var run, done := PcOf(s, t).run, PcOf(s, t).done;
    forall u: nat | PcOf(s, u).Executing? ensures u == t {
      OnlyHolder(s, t, u);
    }
    if PcOf(s', t).Executing? {
      WroteKeeps(s, s', t, run, done);
    } else {
      EndedKeeps(s, s', t, run, done);
    }
  }

  lemma WroteKeeps(s: System, s': System, t: nat, run: Run, done: nat)
    requires Numbered(s) && Wrought(s.log) && Underway(s, run, done) && done < |run.entry.actions|
    requires forall u: nat :: u != t ==> !PcOf(s, u).Executing?
    requires s' == Logged(At(s, t, Executing(run, done + 1)), Wrote(t, run.id, done))
    ensures RunsInv(s')
  {
    WroteFits(s.log, Wrote(t, run.id, done), run, done);
    AllFit(s.log, Wrote(t, run.id, done), run);
    NumberedSnoc(s, s', Wrote(t, run.id, done));
    assert forall u: nat :: u != t ==> PcOf(s', u) == PcOf(s, u);
  }

  lemma EndedKeeps(s: System, s': System, t: nat, run: Run, done: nat)
    requires Numbered(s) && Wrought(s.log) && Underway(s, run, done)
    requires forall u: nat :: u != t ==> !PcOf(s, u).Executing?
    requires var ok := done == |run.entry.actions|; s' == Logged(At(s, t, Executed(run, ok)), Ended(t, run.id, ok))
    ensures RunsInv(s')
  {
    var e := Ended(t, run.id, done == |run.entry.actions|);
    EndedFits(s.log, e, run, done);
    AllFit(s.log, e, run);
    NumberedSnoc(s, s', e);
    assert forall u: nat :: u != t ==> PcOf(s', u) == PcOf(s, u);
  }

  lemma NextKeepsRuns(s: System, s': System)
    requires Inv(s) && RunsInv(s) && Next(s, s')
    ensures RunsInv(s')
  {
    NextShape(s, s');
    if Quiet(s, s') {
      QuietKeeps(s, s');
    } else {
      var t: nat :| StartStep(s, s', t) || ExecuteStep(s, s', t);
      if StartStep(s, s', t) {
        StartKeepsRuns(s, s', t);
      } else {
        WriteKeepsRuns(s, s', t);
      }
    }
  }

  lemma InitFits(s: System)
    requires Init(s)
    ensures RunsInv(s)
  {
  }

  lemma {:induction false} RunsKeep(states: seq<System>, n: nat)
    requires Behaviour(states) && n < |states|
    ensures RunsInv(states[n])
  {
    if n == 0 {
      InitFits(states[0]);
    } else {
      var s, s' := states[n - 1], states[n];
      RunsKeep(states, n - 1);
      BehavioursKeep(states, n - 1);
      assert Next(s, s');
      NextKeepsRuns(s, s');
    }
  }

  /** In every interleaving, what a run wrote is its actions from the first on, in order
      and each once; and of a run that ended it was all of them exactly if it ended
      well. */
  lemma RunsWriteInOrder(states: seq<System>, n: nat, i: nat)
    requires Behaviour(states) && n < |states| && i < |states[n].log| && states[n].log[i].Started?
    ensures var log, run := states[n].log, states[n].log[i].run;
      var written := WritesOf(log, run.id);
      && |written| <= |run.entry.actions| && (forall k :: 0 <= k < |written| ==> written[k] == k)
      && forall j :: 0 <= j < |log| && log[j].Ended? && log[j].id == run.id ==> (log[j].ok <==> |written| == |run.entry.actions|)
  {
    RunsKeep(states, n);
    assert Fits(states[n].log, states[n].log[i].run);
  }

  /** A request that waits is not dropped: its next step takes the lock, with what it
      was approved for. */
  lemma RequestsWait(s: System, s': System, t: nat)
    requires Next(s, s') && PcOf(s, t).Waiting? && PcOf(s', t) != PcOf(s, t)
    ensures s.holder.None? && s'.holder == Some(t) && s'.log == s.log + [Acquired(t)]
    ensures PcOf(s', t) == Applying(PcOf(s, t).org, PcOf(s, t).approved, PcOf(s, t).async_)
  {
    assert !TickStep(s, s');
    var u :| ThreadStep(s, s', u);
    if u != t {
      OthersStay(s, s', u, t);
    }
    OwnWait(s, s', t);
  }

  lemma OwnWait(s: System, s': System, t: nat)
    requires ThreadStep(s, s', t) && PcOf(s, t).Waiting?
    ensures AcquireStep(s, s', t)
  {
  }

  lemma OthersStay(s: System, s': System, t: nat, u: nat)
    requires ThreadStep(s, s', t) && u != t
    ensures PcOf(s', u) == PcOf(s, u)
  {
    if RunStep(s, s', t) {
      OthersStayInRuns(s, s', t, u);
    }
  }

  lemma OthersStayInRuns(s: System, s': System, t: nat, u: nat)
    requires RunStep(s, s', t) && u != t
    ensures PcOf(s', u) == PcOf(s, u)
  {
    if ApplyStep(s, s', t) {
    } else if PassStep(s, s', t) {
    }
  }

  // ----- what can happen -----

  ghost predicate Path(states: seq<System>) {
    |states| > 0 && forall i :: 0 <= i < |states| - 1 ==> Next(states[i], states[i + 1])
  }

  /** Some steps lead from the one to the other. */
  ghost predicate Leads(s: System, s': System) {
    exists states :: Path(states) && states[0] == s && states[|states| - 1] == s'
  }

  lemma OneStep(s: System, s': System, t: nat)
    requires ThreadStep(s, s', t)
    ensures Leads(s, s')
  {
    assert Path([s, s']);
  }

  lemma Onwards(a: System, b: System, c: System)
    requires Leads(a, b) && Leads(b, c)
    ensures Leads(a, c)
  {
    var p :| Path(p) && p[0] == a && p[|p| - 1] == b;
    var q :| Path(q) && q[0] == b && q[|q| - 1] == c;
    var r := p + q[1..];
    forall i | 0 <= i < |r| - 1 ensures Next(r[i], r[i + 1]) {
      if i >= |p| - 1 {
        assert r[i] == q[i - |p| + 1] && r[i + 1] == q[i - |p| + 2];
      }
    }
    assert Path(r);
  }

  function Writes(t: nat, id: nat, from: nat, to: nat): seq<Event>
    requires from <= to
  {
    seq(to - from, i requires 0 <= i < to - from => Wrote(t, id, from + i))
  }

  lemma {:induction false} CanWrite(s: System, t: nat, run: Run, from: nat, to: nat)
    requires PcOf(s, t) == Executing(run, from) && from <= to <= |run.entry.actions|
    ensures Leads(s, s.(pcs := s.pcs[t := Executing(run, to)], log := s.log + Writes(t, run.id, from, to)))
    decreases |run.entry.actions| - from
  {
    if from == to {
      assert Path([s]);
      assert s == s.(pcs := s.pcs[t := Executing(run, to)], log := s.log + Writes(t, run.id, from, to));
    } else {
      var next := Logged(At(s, t, Executing(run, from + 1)), Wrote(t, run.id, from));
      OneStep(s, next, t);
      CanWrite(next, t, run, from + 1, to);
      assert s.log + Writes(t, run.id, from, to) == next.log + Writes(t, run.id, from + 1, to);
      assert s.pcs[t := Executing(run, to)] == next.pcs[t := Executing(run, to)];
      Onwards(s, next, s.(pcs := s.pcs[t := Executing(run, to)], log := s.log + Writes(t, run.id, from, to)));
    }
  }

  /** A run of which the first k actions are written, and its record. */
  function RunEvents(t: nat, run: Run, k: nat): seq<Event> {
    [Started(t, run)] + Writes(t, run.id, 0, k) + [Ended(t, run.id, k == |run.entry.actions|), Recorded(t, Some(run.id))]
  }

  lemma CanRun(s: System, t: nat, trigger: Trigger, e: Stored, todo: seq<string>, k: nat, after: Pc) returns (s': System)
    requires StartsHere(s, t, trigger, e, todo) && k <= |e.actions|
    requires after == if trigger.Operator? then Leaving else Passing(trigger == Sweep, todo)
    ensures Leads(s, s') && s'.log == s.log + RunEvents(t, Run(s.runs, trigger, e, todo), k)
    ensures s'.pcs == s.pcs[t := after] && s'.runs == s.runs + 1 && s'.holder == s.holder && s'.plans == s.plans
  {
    var run := Run(s.runs, trigger, e, todo);
    var a := CanBegin(s, t, trigger, e, todo, k);
    s' := CanEnd(a, t, run, k, after);
    Onwards(s, a, s');
  }

  lemma CanBegin(s: System, t: nat, trigger: Trigger, e: Stored, todo: seq<string>, k: nat) returns (s': System)
    requires StartsHere(s, t, trigger, e, todo) && k <= |e.actions|
    ensures var run := Run(s.runs, trigger, e, todo);
      && Leads(s, s') && s'.log == s.log + [Started(t, run)] + Writes(t, run.id, 0, k)
      && s' == s.(pcs := s.pcs[t := Executing(run, k)], runs := s.runs + 1, log := s'.log)
  {
    var run := Run(s.runs, trigger, e, todo);
    var a := Start(s, t, trigger, e, todo);
    OneStep(s, a, t);
    CanWrite(a, t, run, 0, k);
    s' := a.(pcs := a.pcs[t := Executing(run, k)], log := a.log + Writes(t, run.id, 0, k));
    Onwards(s, a, s');
  }

  lemma CanEnd(s: System, t: nat, run: Run, k: nat, after: Pc) returns (s': System)
    requires PcOf(s, t) == Executing(run, k) && k <= |run.entry.actions|
    requires after == if run.trigger.Operator? then Leaving else Passing(run.trigger == Sweep, run.todo)
    ensures Leads(s, s') && s' == s.(pcs := s.pcs[t := after], log := s'.log)
    ensures s'.log == s.log + [Ended(t, run.id, k == |run.entry.actions|), Recorded(t, Some(run.id))]
  {
    var ok := k == |run.entry.actions|;
    var a := Logged(At(s, t, Executed(run, ok)), Ended(t, run.id, ok));
    assert ExecuteStep(s, a, t);
    OneStep(s, a, t);
    s' := Logged(At(a, t, after), Recorded(t, Some(run.id)));
    assert RecordStep(a, s', t);
    OneStep(a, s', t);
    Onwards(s, a, s');
  }

  ghost predicate StartsHere(s: System, t: nat, trigger: Trigger, e: Stored, todo: seq<string>) {
    var s' := Start(s, t, trigger, e, todo);
    ApplyStep(s, s', t) || PassStep(s, s', t)
  }

  ghost predicate AtRest(s: System, t: nat) {
    s.holder == None && PcOf(s, t) == Idle
  }

  /** Somebody asks for a plan to be applied and gets the lock. */
  lemma CanAsk(s: System, t: nat, org: string, approved: Hash, async_: bool) returns (s': System)
    requires AtRest(s, t) && GetAt(s.plans, approved, s.now).Some?
    ensures Leads(s, s') && s'.log == s.log + [Acquired(t)] && s'.holder == Some(t)
    ensures PcOf(s', t) == Applying(org, approved, async_) && s'.runs == s.runs && s'.plans == s.plans && s'.now == s.now
  {
    var a := At(s, t, Waiting(org, approved, async_));
    assert LookupStep(s, a, t);
    OneStep(s, a, t);
    s' := Take(a, t, Applying(org, approved, async_));
    assert AcquireStep(a, s', t);
    OneStep(a, s', t);
    Onwards(s, a, s');
  }

  lemma CanLeave(s: System, t: nat) returns (s': System)
    requires PcOf(s, t) == Leaving
    ensures Leads(s, s') && s'.log == s.log + [Released(t)] && AtRest(s', t)
  {
    s' := Release(s, t);
    OneStep(s, s', t);
  }

  /** While the world still calls for what an operator reviewed, it runs: to its end, or
      up to any action, and then the lock is free again. */
  lemma ReviewedCanRun(s: System, t: nat, plan: Stored, async_: bool, k: nat) returns (s': System)
    requires AtRest(s, t) && plan.mode == Full && k <= |plan.actions|
    ensures Leads(s, s') && AtRest(s', t)
    ensures s'.log == s.log + [Put(plan), Acquired(t)] +
      RunEvents(t, Run(s.runs, Operator(plan.org, HashOf(plan), async_), plan, []), k) + [Released(t)]
  {
    var a := StorePlan(s, plan);
    assert PlanStep(s, a, t);
    OneStep(s, a, t);
    var b := CanAsk(a, t, plan.org, HashOf(plan), async_);
    var trigger := Operator(plan.org, HashOf(plan), async_);
    MatchStarts(b, t, plan, async_);
    var c := CanRun(b, t, trigger, plan, [], k, Leaving);
    s' := CanLeave(c, t);
    Onwards(s, a, b);
    Onwards(s, b, c);
    Onwards(s, c, s');
  }

  lemma MatchStarts(s: System, t: nat, plan: Stored, async_: bool)
    requires PcOf(s, t) == Applying(plan.org, HashOf(plan), async_) && plan.mode == Full
    ensures StartsHere(s, t, Operator(plan.org, HashOf(plan), async_), plan, [])
  {
    assert plan == Stored(plan.org, Full, plan.actions, plan.createdAt);
  }

  /** And when it calls for something else nothing runs, and whoever waits for an answer
      is left the fresh plan to review. */
  lemma DriftCanBeSeen(s: System, t: nat, approved: Hash, now: Stored, async_: bool) returns (s': System)
    requires AtRest(s, t) && GetAt(s.plans, approved, s.now).Some? && now.mode == Full && HashOf(now) != approved
    ensures Leads(s, s') && AtRest(s', t)
    ensures s'.log == s.log + [Acquired(t)] + (if async_ then [] else [Put(now)]) + [Released(t)]
    ensures !async_ ==> GetAt(s'.plans, HashOf(now), s'.now).Some?
  {
    var a := CanAsk(s, t, now.org, approved, async_);
    var b := At(a, t, if async_ then Leaving else Drifted(now));
    DriftApplies(a, b, t, approved, now, async_);
    OneStep(a, b, t);
    Onwards(s, a, b);
    if async_ {
      s' := CanLeave(b, t);
      Onwards(s, b, s');
    } else {
      var c := At(StorePlan(b, now), t, Leaving);
      assert DriftStep(b, c, t);
      OneStep(b, c, t);
      Onwards(s, b, c);
      s' := Release(c, t);
      OneStep(c, s', t);
      Onwards(s, c, s');
    }
  }

  /** Or nothing runs because computing, or building the writer, failed. */
  lemma ApplyCanFail(s: System, t: nat, org: string, approved: Hash, async_: bool) returns (s': System)
    requires AtRest(s, t) && GetAt(s.plans, approved, s.now).Some?
    ensures Leads(s, s') && AtRest(s', t) && s'.log == s.log + [Acquired(t), Released(t)]
  {
    var a := CanAsk(s, t, org, approved, async_);
    var b := At(a, t, Leaving);
    assert ApplyStep(a, b, t);
    OneStep(a, b, t);
    s' := CanLeave(b, t);
    Onwards(s, a, b);
    Onwards(s, b, s');
  }

  lemma DriftApplies(s: System, s': System, t: nat, approved: Hash, now: Stored, async_: bool)
    requires PcOf(s, t) == Applying(now.org, approved, async_) && now.mode == Full && HashOf(now) != approved
    requires s' == At(s, t, if async_ then Leaving else Drifted(now))
    ensures ApplyStep(s, s', t)
  {
    assert now == Stored(now.org, Full, now.actions, now.createdAt);
  }

  /** What a pass makes of one organization: nothing, a record that it was refused, or a
      run whose first k actions are written. */
  datatype Service =
    | LeftAlone(org: string)
    | TurnedAway(org: string)
    | Served(org: string, actions: seq<PlanSpec.Action>, stamp: int, k: nat)

  function OrgsOf(work: seq<Service>): seq<string> {
    seq(|work|, i requires 0 <= i < |work| => work[i].org)
  }

  ghost predicate Doable(work: seq<Service>) {
    forall w :: w in work && w.Served? ==> w.k <= |w.actions|
  }

  function ServiceRun(runs: nat, sweep: bool, work: seq<Service>): Run
    requires work != [] && work[0].Served?
  {
    Run(runs, if sweep then Sweep else Reconcile,
      Stored(work[0].org, if sweep then RemovalsOnly else Full, work[0].actions, work[0].stamp), OrgsOf(work[1..]))
  }

  /** What is logged of the first organization, and how many runs there are then. */
  function HeadEvents(t: nat, runs: nat, sweep: bool, work: seq<Service>): seq<Event>
    requires work != []
  {
    match work[0]
    case LeftAlone(_) => []
    case TurnedAway(_) => [Recorded(t, None)]
    case Served(_, _, _, k) => RunEvents(t, ServiceRun(runs, sweep, work), k)
  }

  function RunsAfter(runs: nat, w: Service): nat {
    if w.Served? then runs + 1 else runs
  }

  function PassEvents(t: nat, runs: nat, sweep: bool, work: seq<Service>): seq<Event>
    decreases |work|
  {
    if work == [] then []
    else HeadEvents(t, runs, sweep, work) + PassEvents(t, RunsAfter(runs, work[0]), sweep, work[1..])
  }

  lemma {:induction false} CanServe(s: System, t: nat, sweep: bool, work: seq<Service>) returns (s': System)
    requires PcOf(s, t) == Passing(sweep, OrgsOf(work)) && Doable(work)
    ensures Leads(s, s') && s'.log == s.log + PassEvents(t, s.runs, sweep, work)
    ensures PcOf(s', t) == Passing(sweep, [])
    decreases |work|
  {
    if work == [] {
      assert Path([s]);
      assert OrgsOf(work) == [];
      s' := s;
    } else {
      var a := CanServeOne(s, t, sweep, work);
      assert Doable(work[1..]);
      s' := CanServe(a, t, sweep, work[1..]);
      Onwards(s, a, s');
      Joined(s.log, HeadEvents(t, s.runs, sweep, work), PassEvents(t, a.runs, sweep, work[1..]));
    }
  }

  lemma Joined<T>(a: seq<T>, b: seq<T>, c: seq<T>)
    ensures (a + b) + c == a + (b + c)
  {
  }

  lemma PassStarts(s: System, t: nat, sweep: bool, work: seq<Service>)
    requires work != [] && work[0].Served? && PcOf(s, t) == Passing(sweep, OrgsOf(work))
    ensures var run := ServiceRun(s.runs, sweep, work); StartsHere(s, t, run.trigger, run.entry, run.todo)
  {
    var run := ServiceRun(s.runs, sweep, work);
    assert OrgsOf(work)[1..] == run.todo;
    assert run.entry == Stored(OrgsOf(work)[0], PassMode(sweep), work[0].actions, work[0].stamp);
    assert PassStep(s, Start(s, t, run.trigger, run.entry, run.todo), t);
  }

  lemma CanServeOne(s: System, t: nat, sweep: bool, work: seq<Service>) returns (s': System)
    requires work != [] && PcOf(s, t) == Passing(sweep, OrgsOf(work)) && Doable(work)
    ensures Leads(s, s') && PcOf(s', t) == Passing(sweep, OrgsOf(work[1..]))
    ensures s'.log == s.log + HeadEvents(t, s.runs, sweep, work) && s'.runs == RunsAfter(s.runs, work[0])
  {
    if work[0].Served? {
      var run := ServiceRun(s.runs, sweep, work);
      PassStarts(s, t, sweep, work);
      s' := CanRun(s, t, run.trigger, run.entry, run.todo, work[0].k, Passing(sweep, run.todo));
    } else {
      s' := CanPassOver(s, t, sweep, work);
    }
  }

  lemma CanPassOver(s: System, t: nat, sweep: bool, work: seq<Service>) returns (s': System)
    requires work != [] && !work[0].Served? && PcOf(s, t) == Passing(sweep, OrgsOf(work))
    ensures Leads(s, s') && PcOf(s', t) == Passing(sweep, OrgsOf(work[1..]))
    ensures s'.log == s.log + HeadEvents(t, s.runs, sweep, work) && s'.runs == s.runs
  {
    s' := At(s, t, Passing(sweep, OrgsOf(work[1..])));
    assert OrgsOf(work)[1..] == OrgsOf(work[1..]);
    if work[0].TurnedAway? {
      s' := Logged(s', Recorded(t, None));
    }
    assert PassStep(s, s', t);
    OneStep(s, s', t);
  }

  /** A pass can leave alone, turn away or serve each of its organizations, in order and
      as far as each goes, one failing never stopping the others. */
  lemma PassCanServe(s: System, t: nat, sweep: bool, work: seq<Service>) returns (s': System)
    requires AtRest(s, t) && Doable(work)
    ensures Leads(s, s') && AtRest(s', t)
    ensures s'.log == s.log + [Acquired(t)] + PassEvents(t, s.runs, sweep, work) + [Released(t)]
  {
    var a := Take(s, t, Passing(sweep, OrgsOf(work)));
    assert BeginPassStep(s, a, t);
    OneStep(s, a, t);
    var b := CanServe(a, t, sweep, work);
    var c := At(b, t, Leaving);
    OneStep(b, c, t);
    s' := CanLeave(c, t);
    Onwards(s, a, b);
    Onwards(s, b, c);
    Onwards(s, c, s');
  }

  /** Asking for a pass takes the lock for a moment and lets it go. */
  lemma CanPeek(s: System, t: nat) returns (s': System)
    requires AtRest(s, t)
    ensures Leads(s, s') && AtRest(s', t) && s'.log == s.log + [Acquired(t), Released(t)]
  {
    var a := Take(s, t, Peeking);
    OneStep(s, a, t);
    s' := Release(a, t);
    OneStep(a, s', t);
    Onwards(s, a, s');
  }
}
