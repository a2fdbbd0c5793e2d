/** The last-known-good rule: a failed fetch never looks like everybody leaving
    (pkg/directory/cache.go). */
module DirectoryCache {
  import opened Indexing
  import opened Directory

  /** One attempt to read a source: a snapshot, or an error. */
  type Attempt = Option<Snapshot>

  /** The most recent successful attempt, if any. */
  function LastGood(history: seq<Attempt>): Option<Snapshot> {
    if history == [] then None
    else if history[|history| - 1].Some? then history[|history| - 1]
    else LastGood(history[..|history| - 1])
  }

  /** The latest attempt succeeded. */
  predicate LatestSucceeded(history: seq<Attempt>) {
    history != [] && history[|history| - 1].Some?
  }

  lemma {:induction false} LastGoodMeans(history: seq<Attempt>, s: Snapshot)
    ensures LastGood(history) == Some(s) <==>
      exists i :: 0 <= i < |history| && history[i] == Some(s) && forall j :: i < j < |history| ==> history[j].None?
  {
    if history != [] {
      var n := |history| - 1;
      LastGoodMeans(history[..n], s);
      if history[n].None? {
        assert forall i :: 0 <= i < n ==> history[..n][i] == history[i];
      }
    }
  }

  datatype Health = Health(source: string, healthy: bool, ready: bool)

  class Cache {
    const name: string
    var snapshot: Option<Snapshot>
    var lastErr: bool
    /** Every attempt since the cache was created. */
    ghost var history: seq<Attempt>

    ghost predicate Valid()
      reads this
    {
      && snapshot == LastGood(history)
      && (lastErr <==> history != [] && history[|history| - 1].None?)
    }

    constructor (name: string)
      ensures this.name == name && Valid() && history == []
    {
      this.name := name;
      snapshot, lastErr, history := None, false, [];
    }

    /** Replaces the snapshot on success; on failure keeps it and notes the error. */
    method Refresh(fetched: Attempt) returns (ok: bool)
      requires Valid()
      modifies this
      ensures Valid() && history == old(history) + [fetched]
      ensures ok <==> fetched.Some?
    {
      history := history + [fetched];
      assert history[..|history| - 1] == old(history);
      if fetched.None? {
        lastErr := true;
        return false;
      }
      snapshot := fetched;
      lastErr := false;
      ok := true;
    }

    /** Injects a snapshot, as a successful read would. */
    method Set(s: Snapshot)
      requires Valid()
      modifies this
      ensures Valid() && history == old(history) + [Some(s)]
    {
      history := history + [Some(s)];
      snapshot := Some(s);
      lastErr := false;
    }

    /** Healthy means the latest attempt succeeded; ready, that some attempt has. */
    method Status() returns (h: Health)
      requires Valid()
      ensures h == Health(name, LatestSucceeded(history), LastGood(history).Some?)
    {
      h := Health(name, !lastErr && snapshot.Some?, snapshot.Some?);
    }

    /** The last good read, stale or not. */
    method Snapshot() returns (s: Option<Snapshot>)
      requires Valid()
      ensures s == LastGood(history)
    {
      s := snapshot;
    }
  }

  function Names(caches: seq<Cache>): seq<string> {
    seq(|caches|, i requires 0 <= i < |caches| => caches[i].name)
  }

  /** The cache at i is the last of its name. */
  ghost predicate LastNamed(caches: seq<Cache>, i: nat) {
    i < |caches| && forall j :: i < j < |caches| ==> caches[j].name != caches[i].name
  }

  lemma {:induction false} EveryNameHasLast(caches: seq<Cache>, i: nat) returns (k: nat)
    requires i < |caches|
    ensures i <= k && LastNamed(caches, k) && caches[k].name == caches[i].name
    decreases |caches| - i
  {
    if LastNamed(caches, i) {
      k := i;
    } else {
      var j :| i < j < |caches| && caches[j].name == caches[i].name;
      k := EveryNameHasLast(caches, j);
    }
  }

  /** No cache object is listed twice. */
  ghost predicate Separate(caches: seq<Cache>) {
    forall i, j :: 0 <= i < j < |caches| ==> caches[i] != caches[j]
  }

  /** The attempts that fall to one cache object, in order. */
  function AttemptsOf(caches: seq<Cache>, fetched: seq<Attempt>, c: Cache): seq<Attempt>
    requires |fetched| == |caches|
  {
    if caches == [] then []
    else
      var n := |caches| - 1;
      AttemptsOf(caches[..n], fetched[..n], c) + if caches[n] == c then [fetched[n]] else []
  }

  /** A cache listed once gets the one attempt at its place. */
  lemma {:induction false} OneAttempt(caches: seq<Cache>, fetched: seq<Attempt>, i: nat)
    requires |fetched| == |caches| && i < |caches| && Separate(caches)
    ensures AttemptsOf(caches, fetched, caches[i]) == [fetched[i]]
  {
    var n := |caches| - 1;
    if i < n {
      OneAttempt(caches[..n], fetched[..n], i);
      assert caches[..n][i] == caches[i];
    } else {
      NoAttempt(caches[..n], fetched[..n], caches[n]);
    }
  }

  lemma {:induction false} NoAttempt(caches: seq<Cache>, fetched: seq<Attempt>, c: Cache)
    requires |fetched| == |caches| && c !in caches
    ensures AttemptsOf(caches, fetched, c) == []
  {
    if caches != [] {
      var n := |caches| - 1;
      assert caches[n] in caches;
      NoAttempt(caches[..n], fetched[..n], c);
    }
  }

  class CacheSet {
    var caches: seq<Cache>

    ghost predicate Valid()
      reads this, caches
    {
      forall c :: c in caches ==> c.Valid()
    }

    /** One new cache per source, in order. */
    constructor (sources: seq<string>)
      ensures Valid() && Names(caches) == sources && Separate(caches)
      ensures forall c :: c in caches ==> fresh(c) && c.history == []
    {
      var built: seq<Cache> := [];
      for i := 0 to |sources|
        invariant |built| == i && Separate(built)
        invariant forall j :: 0 <= j < i ==> built[j].name == sources[j]
        invariant forall c :: c in built ==> fresh(c) && c.Valid() && c.history == []
      {
        var c := new Cache(sources[i]);
        built := built + [c];
      }
      caches := built;
    }

    /** Brings the caches in line with the sources: a surviving name keeps its cache
        object, the last if it had several; a new one gets a new cache, a missing one
        is dropped. */
    method Reconcile(sources: seq<string>) returns (changed: bool)
      requires Valid()
      modifies this
      ensures Valid()
      ensures forall n :: n in Names(caches) <==> n in sources
      ensures changed <==> !(forall n :: n in Names(old(caches)) <==> n in sources)
      ensures changed ==> Names(caches) == sources
      ensures !changed ==> caches == old(caches)
      ensures forall i: nat :: LastNamed(old(caches), i) && old(caches)[i].name in sources ==> old(caches)[i] in caches
      ensures forall c :: c in caches ==> c in old(caches) || (fresh(c) && c.history == [])
    {
      var existing := ByName();
      var next;
      next, changed := Wanted(existing, sources);
      var dropped := AnyDropped(existing.Keys, sources);
      changed := changed || dropped;
      assert forall n :: n in Names(old(caches)) <==> n in existing;
      if changed {
        caches := next;
        forall i: nat | LastNamed(old(caches), i) && old(caches)[i].name in sources ensures old(caches)[i] in next {
          var j :| 0 <= j < |sources| && sources[j] == old(caches)[i].name;
          assert next[j] == existing[sources[j]];
        }
        assert Names(caches) == sources;
      }
    }

    /** The caches of the sources, in their order, and whether some cache is new. */
    method Wanted(existing: map<string, Cache>, sources: seq<string>) returns (next: seq<Cache>, added: bool)
      requires forall n :: n in existing ==> existing[n].name == n && existing[n].Valid()
      ensures |next| == |sources|
      ensures forall j :: 0 <= j < |sources| ==> next[j].name == sources[j]
      ensures forall j :: 0 <= j < |sources| && sources[j] in existing ==> next[j] == existing[sources[j]]
      ensures forall c :: c in next ==> c.Valid() && (c in existing.Values || (fresh(c) && c.history == []))
      ensures added <==> exists j :: 0 <= j < |sources| && sources[j] !in existing
    {
      next, added := [], false;
      for i := 0 to |sources|
        invariant |next| == i
        invariant forall j :: 0 <= j < i ==> next[j].name == sources[j]
        invariant forall j :: 0 <= j < i && sources[j] in existing ==> next[j] == existing[sources[j]]
        invariant forall c :: c in next ==> c.Valid() && (c in existing.Values || (fresh(c) && c.history == []))
        invariant added <==> exists j :: 0 <= j < i && sources[j] !in existing
      {
        if sources[i] in existing {
          next := next + [existing[sources[i]]];
        } else {
          var c := new Cache(sources[i]);
          next := next + [c];
          added := true;
        }
      }
    }

    /** Whether some existing name is no longer wanted. */
    static method AnyDropped(existing: set<string>, sources: seq<string>) returns (dropped: bool)
      ensures dropped <==> exists n :: n in existing && n !in sources
    {
      dropped := false;
      var todo := existing;
      while todo != {}
        invariant todo <= existing
        invariant dropped <==> exists n :: n in existing - todo && n !in sources
      {
        var n :| n in todo;
        todo := todo - {n};
        if n !in sources {
          dropped := true;
        }
      }
    }

    /** The caches by name, the last of a name winning. */
    method ByName() returns (existing: map<string, Cache>)
      ensures forall n :: n in existing <==> n in Names(caches)
      ensures forall n :: n in existing ==> existing[n] in caches && existing[n].name == n
      ensures forall i: nat :: LastNamed(caches, i) ==> caches[i].name in existing && existing[caches[i].name] == caches[i]
    {
      existing := map[];
      for i := 0 to |caches|
        invariant forall n :: n in existing <==> exists j :: 0 <= j < i && caches[j].name == n
        invariant forall n :: n in existing ==> existing[n] in caches && existing[n].name == n
        invariant forall j :: 0 <= j < i && (forall k :: j < k < i ==> caches[k].name != caches[j].name) ==>
          existing[caches[j].name] == caches[j]
      {
        existing := existing[caches[i].name := caches[i]];
      }
      forall n ensures n in existing <==> n in Names(caches) {
        if n in existing {
          var j :| 0 <= j < |caches| && caches[j].name == n;
          assert Names(caches)[j] == n;
        }
        if n in Names(caches) {
          var j :| 0 <= j < |Names(caches)| && Names(caches)[j] == n;
          assert caches[j].name == n;
        }
      }
    }

    /** Attempts every source in turn, past failures, and names those that failed. */
    method Refresh(fetched: seq<Attempt>) returns (failed: set<string>)
      requires Valid() && |fetched| == |caches|
      modifies caches
      ensures Valid() && caches == old(caches)
      ensures forall c :: c in caches ==> c.history == old(c.history) + AttemptsOf(caches, fetched, c)
      ensures forall n :: n in failed <==> exists i :: 0 <= i < |caches| && caches[i].name == n && fetched[i].None?
    {
      failed := {};
      for i := 0 to |caches|
        invariant Valid() && caches == old(caches)
        invariant forall c :: c in caches ==> c.history == old(c.history) + AttemptsOf(caches[..i], fetched[..i], c)
        invariant forall n :: n in failed <==> exists j :: 0 <= j < i && caches[j].name == n && fetched[j].None?
      {
        assert caches[..i + 1][..i] == caches[..i] && fetched[..i + 1][..i] == fetched[..i];
        var ok := caches[i].Refresh(fetched[i]);
        if !ok {
          failed := failed + {caches[i].name};
        }
      }
      assert caches[..|caches|] == caches && fetched[..|caches|] == fetched;
    }

    /** The sources whose latest attempt failed, or that were never read. */
    method Unhealthy() returns (names: seq<string>)
      requires Valid()
      ensures forall n :: n in names <==> exists c :: c in caches && c.name == n && !LatestSucceeded(c.history)
    {
      names := [];
      for i := 0 to |caches|
        invariant forall n :: n in names <==> exists j :: 0 <= j < i && caches[j].name == n && !LatestSucceeded(caches[j].history)
      {
        var status := caches[i].Status();
        if !status.healthy {
          names := names + [status.source];
        }
      }
    }
  }
}
