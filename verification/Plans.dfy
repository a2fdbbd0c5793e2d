/** The broker's plans, kept by content hash for a limited time
    (pkg/broker/plans.go). */
module Plans {
  import opened Indexing
  import opened Document
  import opened PlanSpec

  /** A plan's content: organization, mode and exact action list. SHA-256 is taken
      to be injective, so the hash is the content it hashes. */
  datatype Hash = Hash(org: string, mode: Mode, actions: seq<Action>)

  datatype Stored = Stored(org: string, mode: Mode, actions: seq<Action>, createdAt: int)

  function HashOf(e: Stored): Hash {
    Hash(e.org, e.mode, e.actions)
  }

  /** One hour, in seconds. */
  const PLAN_TTL := 3600

  predicate Expired(e: Stored, now: int) {
    now - e.createdAt > PLAN_TTL
  }

  function Evict(plans: map<Hash, Stored>, now: int): map<Hash, Stored> {
    map h | h in plans && !Expired(plans[h], now) :: plans[h]
  }

  function PutAt(plans: map<Hash, Stored>, e: Stored, now: int): map<Hash, Stored> {
    Evict(plans, now)[HashOf(e) := e.(createdAt := now)]
  }

  function GetAt(plans: map<Hash, Stored>, h: Hash, now: int): Option<Stored> {
    if h !in plans || Expired(plans[h], now) then None else Some(plans[h])
  }

  /** A clock that never runs backwards. */
  class Clock {
    var now: int

    constructor (now: int)
      ensures this.now == now
    {
      this.now := now;
    }

    method Now() returns (t: int)
      modifies this
      ensures t == now && now >= old(now)
    {
      var elapsed: int := *;
      if elapsed > 0 {
        now := now + elapsed;
      }
      t := now;
    }
  }

  class PlanStore {
    var plans: map<Hash, Stored>
    /** Every plan ever put, the last under each hash: a store that never evicts. */
    ghost var log: map<Hash, Stored>

    ghost predicate Valid(clock: Clock)
      reads this, clock
    {
      && (forall h :: h in plans ==> h in log && plans[h] == log[h])
      && (forall h :: h in log && h !in plans ==> Expired(log[h], clock.now))
      && (forall h :: h in log ==> log[h].createdAt <= clock.now && HashOf(log[h]) == h)
    }

    constructor (clock: Clock)
      ensures Valid(clock) && plans == map[] && log == map[]
    {
      plans, log := map[], map[];
    }

    /** Drops expired plans, in arbitrary order, reading the clock for each. */
    method EvictExpired(clock: Clock)
      requires Valid(clock)
      modifies this`plans, clock
      ensures Valid(clock) && clock.now >= old(clock.now)
    {
      var todo := plans.Keys;
      while todo != {}
        invariant Valid(clock) && clock.now >= old(clock.now)
        invariant todo <= plans.Keys
      {
        var h :| h in todo;
        todo := todo - {h};
        var now := clock.Now();
        if Expired(plans[h], now) {
          plans := plans - {h};
        }
      }
    }

    /** Evicts, then files the plan by content with the time of day. */
    method Put(clock: Clock, e: Stored) returns (h: Hash)
      requires Valid(clock)
      modifies this, clock
      ensures Valid(clock) && clock.now >= old(clock.now)
      ensures h == HashOf(e) && log == old(log)[h := e.(createdAt := clock.now)]
    {
      h := HashOf(e);
      EvictExpired(clock);
      var now := clock.Now();
      plans := plans[h := e.(createdAt := now)];
      log := log[h := e.(createdAt := now)];
    }

    /** Answers as the store that never evicts would: the last plan put under the
        hash, if it is no older than the limit. */
    method Get(clock: Clock, h: Hash) returns (r: Option<Stored>)
      requires Valid(clock)
      modifies clock
      ensures Valid(clock) && clock.now >= old(clock.now)
      ensures r == GetAt(log, h, clock.now)
    {
      if h !in plans {
        var now := clock.Now();
        return None;
      }
      var now := clock.Now();
      r := if Expired(plans[h], now) then None else Some(plans[h]);
    }
  }

  // ----- runs -----

  /** A plan put at a time. */
  datatype PutEvent = PutEvent(entry: Stored, at: int)

  ghost predicate InOrder(events: seq<PutEvent>) {
    forall i, j :: 0 <= i < j < |events| ==> events[i].at <= events[j].at
  }

  function Evicting(events: seq<PutEvent>): map<Hash, Stored> {
    if events == [] then map[]
    else PutAt(Evicting(events[..|events| - 1]), events[|events| - 1].entry, events[|events| - 1].at)
  }

  function Keeping(events: seq<PutEvent>): map<Hash, Stored> {
    if events == [] then map[]
    else
      var last := events[|events| - 1];
      Keeping(events[..|events| - 1])[HashOf(last.entry) := last.entry.(createdAt := last.at)]
  }

  lemma {:induction false} EvictedAreExpired(events: seq<PutEvent>, now: int)
    requires InOrder(events) && (events != [] ==> events[|events| - 1].at <= now)
    ensures forall h :: h in Evicting(events) ==> h in Keeping(events) && Keeping(events)[h] == Evicting(events)[h]
    ensures forall h :: h in Keeping(events) && h !in Evicting(events) ==> Expired(Keeping(events)[h], now)
  {
    if events != [] {
      EvictedAreExpired(events[..|events| - 1], events[|events| - 1].at);
    }
  }

  /** Eviction cannot be observed: after any puts, a lookup answers as if nothing
      had ever been evicted. */
  lemma EvictionIsUnobservable(events: seq<PutEvent>, h: Hash, now: int)
    requires InOrder(events) && (events != [] ==> events[|events| - 1].at <= now)
    ensures GetAt(Evicting(events), h, now) == GetAt(Keeping(events), h, now)
  {
    EvictedAreExpired(events, now);
  }

  /** What a lookup finds: the content asked for, from the last put of it, within the
      hour. */
  lemma {:induction false} FoundWasPut(events: seq<PutEvent>, h: Hash, now: int)
    ensures GetAt(Keeping(events), h, now).Some? <==>
      exists i :: 0 <= i < |events| && HashOf(events[i].entry) == h && now - events[i].at <= 60 * 60 &&
        forall j :: i < j < |events| ==> HashOf(events[j].entry) != h
  {
    if events != [] {
      var n := |events| - 1;
      FoundWasPut(events[..n], h, now);
      if HashOf(events[n].entry) != h {
        assert forall i :: 0 <= i < n ==> events[..n][i] == events[i];
      }
    }
  }
}
