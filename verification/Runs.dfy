/** One asynchronous apply: its transcript, and the watchers it fans out to
    (pkg/broker/runs.go). Each method runs under the run's mutex, so an
    interleaving is a sequence of whole calls and channel receives. */
module Runs {
  datatype Status = RunRunning | RunSucceeded | RunFailed

  /** What a channel buffers. */
  const TAIL := 64

  /** A watcher's channel and what became of it. start is how many lines the
      watcher's snapshot held; got is what it has received; sent lists the
      positions of the lines put into the channel; missed says a line was dropped
      because the buffer was full, left that the watcher unsubscribed. */
  datatype Channel = Channel(
    start: nat,
    buffer: seq<string>,
    closed: bool,
    got: seq<string>,
    sent: seq<nat>,
    missed: bool,
    left: bool)

  /** panicked is set by a send on, or a close of, a closed channel. */
  datatype Transcript = Transcript(
    lines: seq<string>,
    status: Status,
    channels: seq<Channel>,
    subscribers: set<nat>,
    panicked: bool)

  // ----- calls -----

  /** A line offered to a channel; a full buffer drops it. */
  function Offer(c: Channel, line: string, position: nat): Channel {
    if |c.buffer| < TAIL then c.(buffer := c.buffer + [line], sent := c.sent + [position])
    else c.(missed := true)
  }

  function OfferAll(channels: seq<Channel>, to: set<nat>, line: string, position: nat): seq<Channel> {
    seq(|channels|, i requires 0 <= i < |channels| => if i in to then Offer(channels[i], line, position) else channels[i])
  }

  function CloseAll(channels: seq<Channel>, these: set<nat>): seq<Channel> {
    seq(|channels|, i requires 0 <= i < |channels| => if i in these then channels[i].(closed := true) else channels[i])
  }

  predicate AnyClosed(channels: seq<Channel>, these: set<nat>) {
    exists i :: i in these && i < |channels| && channels[i].closed
  }

  function Append(s: Transcript, line: string): Transcript {
    s.(lines := s.lines + [line],
       channels := OfferAll(s.channels, s.subscribers, line, |s.lines|),
       panicked := s.panicked || AnyClosed(s.channels, s.subscribers))
  }

  function Finish(s: Transcript, status: Status): Transcript {
    s.(status := status,
       channels := CloseAll(s.channels, s.subscribers),
       subscribers := {},
       panicked := s.panicked || AnyClosed(s.channels, s.subscribers))
  }

  /** A snapshot of a live run opens a channel for what follows. */
  function Snapshot(s: Transcript): Transcript {
    if s.status != RunRunning then s
    else s.(channels := s.channels + [Channel(|s.lines|, [], false, [], [], false, false)],
            subscribers := s.subscribers + {|s.channels|})
  }

  function Unsubscribe(s: Transcript, c: nat): Transcript
    requires c < |s.channels|
  {
    if c !in s.subscribers then s
    else s.(subscribers := s.subscribers - {c},
            channels := s.channels[c := s.channels[c].(closed := true, left := true)],
            panicked := s.panicked || s.channels[c].closed)
  }

  /** A watcher takes the next buffered line. */
  function Receive(s: Transcript, c: nat): Transcript
    requires c < |s.channels|
  {
    var ch := s.channels[c];
    if ch.buffer == [] then s
    else s.(channels := s.channels[c := ch.(buffer := ch.buffer[1..], got := ch.got + [ch.buffer[0]])])
  }

  /** The object behind a run id. */
  class Run {
    var lines: seq<string>
    var status: Status
    var channels: seq<Channel>
    var subscribers: set<nat>
    var panicked: bool

    function State(): Transcript
      reads this
    {
      Transcript(lines, status, channels, subscribers, panicked)
    }

    constructor ()
      ensures State() == CREATED
    {
      lines, status, channels, subscribers, panicked := [], RunRunning, [], {}, false;
    }

    /** Adds a line to the transcript and offers it to each watcher, in arbitrary
        order, without waiting for any. */
    method AppendLine(line: string)
      requires forall c :: c in subscribers ==> c < |channels|
      modifies this
      ensures State() == Append(old(State()), line)
    {
      var position := |lines|;
      lines := lines + [line];
      var todo := subscribers;
      while todo != {}
        invariant todo <= subscribers == old(subscribers)
        invariant lines == old(lines) + [line] && status == old(status)
        invariant channels == OfferAll(old(channels), subscribers - todo, line, position)
        invariant panicked == (old(panicked) || AnyClosed(old(channels), subscribers - todo))
      {
        var c :| c in todo;
        ghost var done := subscribers - todo;
        todo := todo - {c};
        assert subscribers - todo == done + {c};
        panicked := panicked || channels[c].closed;
        channels := channels[c := Offer(channels[c], line, position)];
        assert channels == OfferAll(old(channels), done + {c}, line, position);
      }
      assert subscribers - todo == subscribers;
    }

    /** Ends the run and closes every channel. */
    method FinishRun(status: Status)
      requires forall c :: c in subscribers ==> c < |channels|
      modifies this
      ensures State() == Finish(old(State()), status)
    {
      this.status := status;
      ghost var all := subscribers;
      while subscribers != {}
        invariant subscribers <= all && this.status == status && lines == old(lines)
        invariant channels == CloseAll(old(channels), all - subscribers)
        invariant panicked == (old(panicked) || AnyClosed(old(channels), all - subscribers))
      {
        var c :| c in subscribers;
        ghost var done := all - subscribers;
        panicked := panicked || channels[c].closed;
        channels := channels[c := channels[c].(closed := true)];
        subscribers := subscribers - {c};
        assert all - subscribers == done + {c};
        assert channels == CloseAll(old(channels), done + {c});
      }
      assert all - subscribers == all;
    }

    /** A copy of the transcript, and, while the run lives, a channel for the rest. */
    method TakeSnapshot() returns (copied: seq<string>, st: Status, tail: int)
      modifies this
      ensures State() == Snapshot(old(State()))
      ensures copied == old(lines) && st == old(status)
      ensures tail == if old(status) == RunRunning then |old(channels)| else -1
    {
      copied, st := lines, status;
      if status != RunRunning {
        return copied, st, -1;
      }
      tail := |channels|;
      channels := channels + [Channel(|lines|, [], false, [], [], false, false)];
      subscribers := subscribers + {tail};
    }

    method Leave(c: nat)
      requires c < |channels|
      modifies this
      ensures State() == Unsubscribe(old(State()), c)
    {
      if c in subscribers {
        subscribers := subscribers - {c};
        panicked := panicked || channels[c].closed;
        channels := channels[c := channels[c].(closed := true, left := true)];
      }
    }
  }

  // ----- interleavings -----

  datatype Call =
    | CallAppend(line: string)
    | CallFinish(status: Status)
    | CallSnapshot
    | CallUnsubscribe(c: nat)
    | CallReceive(c: nat)

  const CREATED := Transcript([], RunRunning, [], {}, false)

  /** The apply narrates and then finishes, once; a watcher uses a channel it got. */
  predicate Allowed(s: Transcript, call: Call) {
    match call
    case CallAppend(_) => s.status == RunRunning
    case CallFinish(status) => s.status == RunRunning && status != RunRunning
    case CallSnapshot => true
    case CallUnsubscribe(c) => c < |s.channels|
    case CallReceive(c) => c < |s.channels|
  }

  function After(s: Transcript, call: Call): Transcript
    requires Allowed(s, call)
  {
    match call
    case CallAppend(line) => Append(s, line)
    case CallFinish(status) => Finish(s, status)
    case CallSnapshot => Snapshot(s)
    case CallUnsubscribe(c) => Unsubscribe(s, c)
    case CallReceive(c) => Receive(s, c)
  }

  ghost predicate Interleaving(states: seq<Transcript>, calls: seq<Call>) {
    && |states| == |calls| + 1 && states[0] == CREATED
    && forall i :: 0 <= i < |calls| ==> Allowed(states[i], calls[i]) && states[i + 1] == After(states[i], calls[i])
  }

  // ----- what every interleaving keeps -----

  function Pick(lines: seq<string>, positions: seq<nat>): seq<string>
    requires forall i :: 0 <= i < |positions| ==> positions[i] < |lines|
  {
    seq(|positions|, i requires 0 <= i < |positions| => lines[positions[i]])
  }

  /** Positions in increasing order, from start on, within the lines. */
  ghost predicate Increasing(positions: seq<nat>, start: nat, end: nat) {
    && (forall i :: 0 <= i < |positions| ==> start <= positions[i] < end)
    && (forall i, j :: 0 <= i < j < |positions| ==> positions[i] < positions[j])
  }

  /** A channel has carried some of the lines since its snapshot, in order and once
      each, and all of them while it listened and nothing was dropped. */
  ghost predicate ChannelInv(lines: seq<string>, c: Channel) {
    && c.start <= |lines|
    && Increasing(c.sent, c.start, |lines|)
    && Pick(lines, c.sent) == c.got + c.buffer
    && (!c.missed && !c.left ==> |c.sent| == |lines| - c.start)
  }

  ghost predicate Carrying(s: Transcript) {
    forall c: nat :: c < |s.channels| ==> ChannelInv(s.lines, s.channels[c])
  }

  /** Open channels are the subscribers', and nothing was done to a closed one. */
  ghost predicate Orderly(s: Transcript) {
    && !s.panicked
    && (forall c :: c in s.subscribers ==> c < |s.channels|)
    && (forall c: nat :: c < |s.channels| ==> (c in s.subscribers <==> !s.channels[c].closed))
    && (forall c: nat :: c < |s.channels| && s.channels[c].left ==> s.channels[c].closed)
    && (s.status != RunRunning ==> s.subscribers == {})
    && (s.status == RunRunning ==> forall c: nat :: c < |s.channels| && s.channels[c].closed ==> s.channels[c].left)
  }

  ghost predicate Inv(s: Transcript) {
    Carrying(s) && Orderly(s)
  }

  lemma PickGrows(lines: seq<string>, line: string, positions: seq<nat>)
    requires forall i :: 0 <= i < |positions| ==> positions[i] < |lines|
    ensures Pick(lines + [line], positions) == Pick(lines, positions)
  {
  }

  lemma PickSnoc(lines: seq<string>, positions: seq<nat>, position: nat)
    requires forall i :: 0 <= i < |positions| ==> positions[i] < |lines|
    requires position < |lines|
    ensures Pick(lines, positions + [position]) == Pick(lines, positions) + [lines[position]]
  {
  }

  lemma OfferKeeps(lines: seq<string>, line: string, c: Channel)
    requires ChannelInv(lines, c)
    ensures ChannelInv(lines + [line], Offer(c, line, |lines|))
  {
    PickGrows(lines, line, c.sent);
    if |c.buffer| < TAIL {
      PickSnoc(lines + [line], c.sent, |lines|);
      assert (c.got + c.buffer) + [line] == c.got + (c.buffer + [line]);
    }
  }

  lemma LaterLineKeeps(lines: seq<string>, line: string, c: Channel)
    requires ChannelInv(lines, c) && c.left
    ensures ChannelInv(lines + [line], c)
  {
    PickGrows(lines, line, c.sent);
  }

  lemma AppendKeeps(s: Transcript, line: string)
    requires Inv(s) && s.status == RunRunning
    ensures Inv(Append(s, line))
  {
    var s' := Append(s, line);
    forall c: nat | c < |s'.channels| ensures ChannelInv(s'.lines, s'.channels[c]) {
      if c in s.subscribers {
        OfferKeeps(s.lines, line, s.channels[c]);
      } else {
        LaterLineKeeps(s.lines, line, s.channels[c]);
      }
    }
  }

  lemma ReceiveKeeps(s: Transcript, c: nat)
    requires Inv(s) && c < |s.channels|
    ensures Inv(Receive(s, c))
  {
    var ch := s.channels[c];
    if ch.buffer != [] {
      assert (ch.got + [ch.buffer[0]]) + ch.buffer[1..] == ch.got + ch.buffer;
    }
  }

  lemma FreshIsSound(lines: seq<string>)
    ensures ChannelInv(lines, Channel(|lines|, [], false, [], [], false, false))
  {
    assert Pick(lines, []) == [];
  }

  lemma SnapshotCarries(s: Transcript)
    requires Carrying(s)
    ensures Carrying(Snapshot(s))
  {
    FreshIsSound(s.lines);
    var s' := Snapshot(s);
    forall c: nat | c < |s'.channels| ensures ChannelInv(s'.lines, s'.channels[c]) {
      assert c < |s.channels| ==> s'.channels[c] == s.channels[c];
    }
  }

  lemma SnapshotKeeps(s: Transcript)
    requires Inv(s)
    ensures Inv(Snapshot(s))
  {
    SnapshotCarries(s);
  }

  lemma CallKeeps(s: Transcript, call: Call)
    requires Inv(s) && Allowed(s, call)
    ensures Inv(After(s, call))
  {
    match call
    case CallAppend(line) => AppendKeeps(s, line);
    case CallFinish(status) =>
    case CallSnapshot => SnapshotKeeps(s);
    case CallUnsubscribe(c) =>
    case CallReceive(c) => ReceiveKeeps(s, c);
  }

  lemma {:induction false} InterleavingsKeep(states: seq<Transcript>, calls: seq<Call>, n: nat)
    requires Interleaving(states, calls) && n <= |calls|
    ensures Inv(states[n])
  {
    if n > 0 {
      InterleavingsKeep(states, calls, n - 1);
      CallKeeps(states[n - 1], calls[n - 1]);
    }
  }

  // ----- the theorems -----

  /** What a watcher has seen: its snapshot, then its tail. */
  function Seen(s: Transcript, c: nat): seq<string>
    requires c < |s.channels| && s.channels[c].start <= |s.lines|
  {
    s.lines[..s.channels[c].start] + s.channels[c].got
  }

  /** No send on a closed channel, no double close, and a finished run has no
      subscribers, in every interleaving. */
  lemma ChannelsAreSafe(states: seq<Transcript>, calls: seq<Call>, n: nat)
    requires Interleaving(states, calls) && n <= |calls|
    ensures !states[n].panicked
    ensures states[n].status != RunRunning ==>
      states[n].subscribers == {} && forall c: nat :: c < |states[n].channels| ==> states[n].channels[c].closed
  {
    InterleavingsKeep(states, calls, n);
  }

  /** A watcher sees a subsequence of the transcript, no line twice. */
  lemma WatchersSeeInOrder(states: seq<Transcript>, calls: seq<Call>, n: nat, c: nat)
    requires Interleaving(states, calls) && n <= |calls| && c < |states[n].channels|
    ensures states[n].channels[c].start <= |states[n].lines|
    ensures exists positions :: Increasing(positions, 0, |states[n].lines|) && Pick(states[n].lines, positions) == Seen(states[n], c)
  {
    InterleavingsKeep(states, calls, n);
    var s := states[n];
    var ch := s.channels[c];
    var positions := seq(ch.start, i requires 0 <= i < ch.start => i) + ch.sent[..|ch.got|];
    forall i | 0 <= i < |ch.got| ensures s.lines[ch.sent[i]] == ch.got[i] {
      assert Pick(s.lines, ch.sent)[i] == (ch.got + ch.buffer)[i];
    }
    assert Increasing(positions, 0, |s.lines|);
    assert Pick(s.lines, positions) == Seen(s, c);
  }

  // ----- what becomes of a line -----

  /** Call m appends a line while the watcher c is subscribed and its buffer holds 64. */
  ghost predicate Overflows(states: seq<Transcript>, calls: seq<Call>, m: nat, c: nat)
    requires |states| == |calls| + 1
  {
    m < |calls| && calls[m].CallAppend? && c < |states[m].channels| && c in states[m].subscribers && |states[m].channels[c].buffer| == 64
  }

  /** Call m ends the watcher c's subscription. */
  ghost predicate Departs(states: seq<Transcript>, calls: seq<Call>, m: nat, c: nat)
    requires |states| == |calls| + 1
  {
    m < |calls| && calls[m] == CallUnsubscribe(c) && c < |states[m].channels| && c in states[m].subscribers
  }

  /** Buffers hold 64 lines at most, and channels are only added. */
  lemma {:induction false} BuffersAreBounded(states: seq<Transcript>, calls: seq<Call>, n: nat)
    requires Interleaving(states, calls) && n <= |calls|
    ensures forall c: nat :: c < |states[n].channels| ==> |states[n].channels[c].buffer| <= 64
  {
    if n > 0 {
      BuffersAreBounded(states, calls, n - 1);
      assert Allowed(states[n - 1], calls[n - 1]);
    }
  }

  /** What one call does to what the model remembers of a channel. */
  lemma FlagsStep(s: Transcript, call: Call, c: nat)
    requires Allowed(s, call) && c < |After(s, call).channels|
    requires forall d: nat :: d < |s.channels| ==> |s.channels[d].buffer| <= 64
    ensures c < |s.channels| ==>
      && (After(s, call).channels[c].missed <==>
           s.channels[c].missed || (call.CallAppend? && c in s.subscribers && |s.channels[c].buffer| == 64))
      && (After(s, call).channels[c].left <==> s.channels[c].left || (call == CallUnsubscribe(c) && c in s.subscribers))
    ensures c >= |s.channels| ==> !After(s, call).channels[c].missed && !After(s, call).channels[c].left
  {
  }

  /** A watcher missed a line exactly when one was appended while it was subscribed and
      64 lines were waiting for it. */
  lemma {:induction false} MissedIff(states: seq<Transcript>, calls: seq<Call>, n: nat, c: nat)
    requires Interleaving(states, calls) && n <= |calls| && c < |states[n].channels|
    ensures states[n].channels[c].missed <==> exists m: nat :: m < n && Overflows(states, calls, m, c)
  {
    if n > 0 {
      var s, call := states[n - 1], calls[n - 1];
      BuffersAreBounded(states, calls, n - 1);
      FlagsStep(s, call, c);
      if c < |s.channels| {
        MissedIff(states, calls, n - 1, c);
      } else {
        NobodyYet(states, calls, n - 1, c);
      }
      assert Overflows(states, calls, n - 1, c) <==>
        call.CallAppend? && c < |s.channels| && c in s.subscribers && |s.channels[c].buffer| == 64;
    }
  }

  /** And left exactly when its subscription was ended. */
  lemma {:induction false} LeftIff(states: seq<Transcript>, calls: seq<Call>, n: nat, c: nat)
    requires Interleaving(states, calls) && n <= |calls| && c < |states[n].channels|
    ensures states[n].channels[c].left <==> exists m: nat :: m < n && Departs(states, calls, m, c)
  {
    if n > 0 {
      var s, call := states[n - 1], calls[n - 1];
      BuffersAreBounded(states, calls, n - 1);
      FlagsStep(s, call, c);
      if c < |s.channels| {
        LeftIff(states, calls, n - 1, c);
      } else {
        NobodyYet(states, calls, n - 1, c);
      }
      assert Departs(states, calls, n - 1, c) <==> call == CallUnsubscribe(c) && c < |s.channels| && c in s.subscribers;
    }
  }

  /** Channels are only ever added. */
  lemma {:induction false} NobodyYet(states: seq<Transcript>, calls: seq<Call>, n: nat, c: nat)
    requires Interleaving(states, calls) && n <= |calls| && c >= |states[n].channels|
    ensures forall m: nat :: m <= n ==> c >= |states[m].channels|
  {
    if n > 0 {
      assert Allowed(states[n - 1], calls[n - 1]);
      NobodyYet(states, calls, n - 1, c);
    }
  }

  /** A watcher's channel opens with the first snapshot of a live run that makes room
      for it, and its tail starts where that snapshot stopped. */
  lemma {:induction false} OpensAt(states: seq<Transcript>, calls: seq<Call>, n: nat, c: nat) returns (m: nat)
    requires Interleaving(states, calls) && n <= |calls| && c < |states[n].channels|
    ensures m < n && calls[m].CallSnapshot? && states[m].status == RunRunning && |states[m].channels| == c
    ensures states[n].channels[c].start == |states[m].lines|
  {
    assert Allowed(states[n - 1], calls[n - 1]);
    if c < |states[n - 1].channels| {
      m := OpensAt(states, calls, n - 1, c);
    } else {
      m := n - 1;
    }
  }

  /** A line appended while a watcher is subscribed and fewer than 64 lines wait for it
      joins them. */
  lemma LineIsDelivered(states: seq<Transcript>, calls: seq<Call>, m: nat, c: nat)
    requires Interleaving(states, calls) && m < |calls| && calls[m].CallAppend?
    requires c < |states[m].channels| && c in states[m].subscribers && |states[m].channels[c].buffer| < 64
    ensures c < |states[m + 1].channels|
    ensures states[m + 1].channels[c].buffer == states[m].channels[c].buffer + [calls[m].line]
  {
    assert Allowed(states[m], calls[m]);
  }

  /** A watcher that receives while a line waits for it gets the one that waited
      longest. */
  lemma LineIsReceived(states: seq<Transcript>, calls: seq<Call>, m: nat, c: nat)
    requires Interleaving(states, calls) && m < |calls| && calls[m] == CallReceive(c) && c < |states[m].channels|
    requires states[m].channels[c].buffer != []
    ensures c < |states[m + 1].channels|
    ensures states[m + 1].channels[c].got == states[m].channels[c].got + [states[m].channels[c].buffer[0]]
    ensures states[m].channels[c].buffer == [states[m].channels[c].buffer[0]] + states[m + 1].channels[c].buffer
  {
    assert Allowed(states[m], calls[m]);
  }

  /** A watcher that stayed, and never had a line appended while 64 waited for it, has
      seen the whole transcript but for the lines that wait. */
  lemma PatientWatchersSeeAll(states: seq<Transcript>, calls: seq<Call>, n: nat, c: nat)
    requires Interleaving(states, calls) && n <= |calls| && c < |states[n].channels|
    requires forall m: nat :: m < n ==> !Overflows(states, calls, m, c) && !Departs(states, calls, m, c)
    ensures states[n].channels[c].start <= |states[n].lines|
    ensures Seen(states[n], c) + states[n].channels[c].buffer == states[n].lines
  {
    InterleavingsKeep(states, calls, n);
    MissedIff(states, calls, n, c);
    LeftIff(states, calls, n, c);
    AllCarried(states[n].lines, states[n].channels[c]);
  }

  lemma CarriedAt(lines: seq<string>, c: Channel, i: nat)
    requires ChannelInv(lines, c) && |c.sent| == |lines| - c.start && i < |c.sent|
    ensures i < |c.got + c.buffer| && (c.got + c.buffer)[i] == lines[c.start + i]
  {
    ContiguousPositions(c.sent, c.start, |lines|, i);
    assert Pick(lines, c.sent)[i] == lines[c.sent[i]];
  }

  /** A channel that carried every line since its snapshot holds the rest of them. */
  lemma AllCarried(lines: seq<string>, c: Channel)
    requires ChannelInv(lines, c) && |c.sent| == |lines| - c.start
    ensures lines[..c.start] + c.got + c.buffer == lines
  {
    var tail := c.got + c.buffer;
    assert |tail| == |Pick(lines, c.sent)|;
    forall i | 0 <= i < |tail| ensures tail[i] == lines[c.start..][i] {
      CarriedAt(lines, c, i);
    }
    Rejoined(lines, c.start, c.got, c.buffer);
  }

  lemma Rejoined(lines: seq<string>, n: nat, a: seq<string>, b: seq<string>)
    requires n <= |lines| && |a + b| == |lines| - n && forall i :: 0 <= i < |a + b| ==> (a + b)[i] == lines[n..][i]
    ensures lines[..n] + a + b == lines
  {
    assert a + b == lines[n..];
    assert lines[..n] + a + b == lines[..n] + (a + b);
  }

  /** As many increasing positions as there is room for are all of them. */
  lemma ContiguousPositions(positions: seq<nat>, start: nat, end: nat, i: nat)
    requires start <= end && Increasing(positions, start, end) && |positions| == end - start
    ensures i < |positions| ==> positions[i] == start + i
  {
    if i < |positions| {
      AtLeast(positions, start, end, i);
      AtMost(positions, start, end, |positions| - 1 - i);
    }
  }

  lemma {:induction false} AtLeast(positions: seq<nat>, start: nat, end: nat, i: nat)
    requires Increasing(positions, start, end) && i < |positions|
    ensures positions[i] >= start + i
  {
    if i > 0 {
      AtLeast(positions, start, end, i - 1);
    }
  }

  lemma {:induction false} AtMost(positions: seq<nat>, start: nat, end: nat, back: nat)
    requires Increasing(positions, start, end) && back < |positions|
    ensures positions[|positions| - 1 - back] <= end - 1 - back
  {
    if back > 0 {
      AtMost(positions, start, end, back - 1);
    }
  }

  /** Some interleaving ends here. */
  ghost predicate Reachable(s: Transcript) {
    exists states, calls :: Interleaving(states, calls) && states[|calls|] == s
  }

  lemma CallReaches(s: Transcript, call: Call)
    requires Reachable(s) && Allowed(s, call)
    ensures Reachable(After(s, call))
  {
    var states, calls :| Interleaving(states, calls) && states[|calls|] == s;
    var longer, more := states + [After(s, call)], calls + [call];
    assert Interleaving(longer, more) && longer[|more|] == After(s, call);
  }

  lemma {:induction false} CanKeepUp(lines: seq<string>) returns (s: Transcript)
    ensures Reachable(s) && s.lines == lines && s.status == RunRunning && s.subscribers == {0} && |s.channels| == 1
    ensures s.channels[0].start == 0 && s.channels[0].buffer == [] && s.channels[0].got == lines
  {
    if lines == [] {
      assert Interleaving([CREATED], []);
      CallReaches(CREATED, CallSnapshot);
      s := Snapshot(CREATED);
    } else {
      var n := |lines| - 1;
      var t := CanKeepUp(lines[..n]);
      CallReaches(t, CallAppend(lines[n]));
      var u := Append(t, lines[n]);
      CallReaches(u, CallReceive(0));
      s := Receive(u, 0);
      assert lines == lines[..n] + [lines[n]];
    }
  }

  /** A watcher there from the start that takes each line as it comes can see any run to
      its end, however long; and one that comes after it can see it too. */
  lemma CanSeeItAll(lines: seq<string>, status: Status) returns (s: Transcript)
    requires status != RunRunning
    ensures Reachable(s) && s.lines == lines && s.status == status && |s.channels| == 1
    ensures s.channels[0].start == 0 && Seen(s, 0) == lines
    ensures Reachable(Snapshot(s)) && Snapshot(s).lines == lines && |Snapshot(s).channels| == 1
  {
    var t := CanKeepUp(lines);
    CallReaches(t, CallFinish(status));
    s := Finish(t, status);
    CallReaches(s, CallSnapshot);
    assert lines[..0] + lines == lines;
  }

  /** A finished run's transcript is final. */
  lemma {:induction false} FinishedIsFinal(states: seq<Transcript>, calls: seq<Call>, n: nat, m: nat)
    requires Interleaving(states, calls) && n <= m <= |calls| && states[n].status != RunRunning
    ensures states[m].lines == states[n].lines && states[m].status == states[n].status
    decreases m - n
  {
    if n < m {
      FinishedIsFinal(states, calls, n, m - 1);
      assert Allowed(states[m - 1], calls[m - 1]);
    }
  }
}
