/** Fork/join over a buffered channel, as registry search and parallel provider
    probing do it: n goroutines each send one message into a channel of capacity
    n, a closer waits for all of them and closes it, a receiver drains it. The
    search limits running goroutines with a semaphore; probing has none (its
    limit is n) and its receiver returns at the first success. */
module ForkJoin {
  import opened Sets
  import opened Wrappers

  datatype Config = Config(n: nat, limit: nat, eager: bool)

  /** Waiting for a slot, running with one, message sent, slot given back, gone. */
  datatype Worker = Waiting | Running | Sent | Leaving | Gone

  datatype Msg<T> = Msg(sender: nat, result: Result<T, string>)

  datatype State<T> = State(
    workers: seq<Worker>,
    slots: nat,              // tokens in the semaphore channel
    buffer: seq<Msg<T>>,     // the result channel
    closed: bool,
    received: seq<Msg<T>>,
    returned: bool)          // the receiver has left its loop

  datatype Action =
    | Acquire(w: nat)   // take a semaphore slot
    | Cancel(w: nat)    // context done while waiting: send its error
    | Send(w: nat)      // the call returned: send what it returned
    | Release(w: nat)   // deferred slot release
    | Depart(w: nat)    // deferred wg.Done
    | Close             // wg.Wait returned
    | Receive
    | Drained           // channel closed and empty

  predicate HasSent(x: Worker) { x.Sent? || x.Leaving? || x.Gone? }

  predicate HoldsSlot(x: Worker) { x.Running? || x.Sent? }

  function Init<T>(c: Config): State<T> {
    State(seq(c.n, _ => Waiting), 0, [], false, [], false)
  }

  predicate Enabled<T>(c: Config, s: State<T>, a: Action) {
    match a
    case Acquire(w) => w < |s.workers| && s.workers[w].Waiting? && s.slots < c.limit
    case Cancel(w) => !c.eager && w < |s.workers| && s.workers[w].Waiting? && |s.buffer| < c.n
    case Send(w) => w < |s.workers| && s.workers[w].Running? && |s.buffer| < c.n
    case Release(w) => w < |s.workers| && s.workers[w].Sent? && s.slots > 0
    case Depart(w) => w < |s.workers| && s.workers[w].Leaving?
    case Close => !s.closed && forall w :: 0 <= w < |s.workers| ==> s.workers[w].Gone?
    case Receive => !s.returned && s.buffer != []
    case Drained => !s.returned && s.buffer == [] && s.closed
  }

  function Apply<T>(c: Config, outcome: nat -> Result<T, string>, s: State<T>, a: Action): State<T>
    requires Enabled(c, s, a)
  {
    match a
    case Acquire(w) => s.(workers := s.workers[w := Running], slots := s.slots + 1)
    case Cancel(w) =>
      s.(workers := s.workers[w := Leaving], buffer := s.buffer + [Msg(w, Err("context done"))])
    case Send(w) => s.(workers := s.workers[w := Sent], buffer := s.buffer + [Msg(w, outcome(w))])
    case Release(w) => s.(workers := s.workers[w := Leaving], slots := s.slots - 1)
    case Depart(w) => s.(workers := s.workers[w := Gone])
    case Close => s.(closed := true)
    case Receive =>
      s.(buffer := s.buffer[1..], received := s.received + [s.buffer[0]],
         returned := c.eager && s.buffer[0].result.Ok?)
    case Drained => s.(returned := true)
  }

  function After<T>(c: Config, outcome: nat -> Result<T, string>, acts: seq<Action>): Option<State<T>> {
    if acts == [] then Some(Init(c))
    else
      var before := After(c, outcome, acts[..|acts| - 1]);
      var a := acts[|acts| - 1];
      if before.Some? && Enabled(c, before.value, a) then Some(Apply(c, outcome, before.value, a)) else None
  }

  // ----- what every interleaving keeps -----

  function Traffic<T>(s: State<T>): seq<Msg<T>> {
    s.received + s.buffer
  }

  function CountSlots(workers: seq<Worker>): nat {
    if workers == [] then 0
    else CountSlots(workers[..|workers| - 1]) + if HoldsSlot(workers[|workers| - 1]) then 1 else 0
  }

  ghost predicate SentBy<T>(msgs: seq<Msg<T>>, w: nat) {
    exists k :: 0 <= k < |msgs| && msgs[k].sender == w
  }

  ghost predicate MsgOk<T>(c: Config, outcome: nat -> Result<T, string>, workers: seq<Worker>, m: Msg<T>) {
    && m.sender < |workers| && HasSent(workers[m.sender])
    && (m.result == outcome(m.sender) || (!c.eager && m.result.Err?))
  }

  /** One message per goroutine that has sent, in no fixed order. */
  ghost predicate TrafficOk<T>(c: Config, outcome: nat -> Result<T, string>, workers: seq<Worker>, msgs: seq<Msg<T>>) {
    && (forall k :: 0 <= k < |msgs| ==> MsgOk(c, outcome, workers, msgs[k]))
    && (forall j, k :: 0 <= j < k < |msgs| ==> msgs[j].sender != msgs[k].sender)
    && (forall w :: 0 <= w < |workers| && HasSent(workers[w]) ==> SentBy(msgs, w))
  }

  ghost predicate TrafficInv<T>(c: Config, outcome: nat -> Result<T, string>, s: State<T>) {
    TrafficOk(c, outcome, s.workers, Traffic(s))
  }

  ghost predicate Inv<T>(c: Config, outcome: nat -> Result<T, string>, s: State<T>)
  {
    && |s.workers| == c.n
    && s.slots == CountSlots(s.workers) <= c.limit
    && TrafficInv(c, outcome, s)
    && (s.closed ==> forall w :: 0 <= w < c.n ==> s.workers[w].Gone?)
    && (c.eager ==> forall k :: 0 <= k < |s.received| && s.received[k].result.Ok? ==>
          s.returned && k == |s.received| - 1)
    && (s.returned ==>
          || (s.closed && s.buffer == [])
          || (c.eager && s.received != [] && s.received[|s.received| - 1].result.Ok?))
  }

  lemma {:induction false} CountSlotsUpdate(workers: seq<Worker>, w: nat, x: Worker)
    requires w < |workers|
    ensures CountSlots(workers[w := x]) ==
      CountSlots(workers) - (if HoldsSlot(workers[w]) then 1 else 0) + (if HoldsSlot(x) then 1 else 0)
  {
    var n := |workers| - 1;
    if w < n {
      CountSlotsUpdate(workers[..n], w, x);
      assert workers[w := x][..n] == workers[..n][w := x];
    } else {
      assert workers[w := x][..n] == workers[..n];
    }
  }

  lemma {:induction false} CountSlotsNone(workers: seq<Worker>)
    requires forall w :: 0 <= w < |workers| ==> !HoldsSlot(workers[w])
    ensures CountSlots(workers) == 0
  {
    if workers != [] { CountSlotsNone(workers[..|workers| - 1]); }
  }

  lemma InitInv<T>(c: Config, outcome: nat -> Result<T, string>)
    ensures Inv(c, outcome, Init<T>(c))
  {
    CountSlotsNone(Init<T>(c).workers);
  }

  /** A goroutine that has not sent yet finds room in the channel. */
  lemma RoomToSend<T>(c: Config, outcome: nat -> Result<T, string>, s: State<T>, w: nat)
    requires Inv(c, outcome, s) && w < c.n && !HasSent(s.workers[w])
    ensures |Traffic(s)| < c.n
  {
    var msgs := Traffic(s);
    var senders := set k | 0 <= k < |msgs| :: msgs[k].sender;
    DistinctCount(msgs, |msgs|);
    assert senders <= Below(c.n) - {w};
    SubsetCardinality(senders, Below(c.n) - {w});
  }

  function Below(n: nat): (r: set<nat>)
    ensures |r| == n && forall i: nat :: i in r <==> i < n
  {
    if n == 0 then {} else Below(n - 1) + {n - 1}
  }

  lemma {:induction false} DistinctCount<T>(msgs: seq<Msg<T>>, m: nat)
    requires m <= |msgs|
    requires forall j, k :: 0 <= j < k < |msgs| ==> msgs[j].sender != msgs[k].sender
    ensures |set k | 0 <= k < m :: msgs[k].sender| == m
  {
    if m > 0 {
      DistinctCount(msgs, m - 1);
      var less := set k | 0 <= k < m - 1 :: msgs[k].sender;
      assert (set k | 0 <= k < m :: msgs[k].sender) == less + {msgs[m - 1].sender};
      assert msgs[m - 1].sender !in less;
    }
  }

  lemma SentByGrows<T>(msgs: seq<Msg<T>>, m: Msg<T>, w: nat)
    ensures SentBy(msgs + [m], w) <==> SentBy(msgs, w) || m.sender == w
  {
    var more := msgs + [m];
    if SentBy(msgs, w) {
      var k :| 0 <= k < |msgs| && msgs[k].sender == w;
      assert more[k].sender == w;
    }
    if m.sender == w { assert more[|msgs|].sender == w; }
    if SentBy(more, w) {
      var k :| 0 <= k < |more| && more[k].sender == w;
      if k < |msgs| { assert msgs[k].sender == w; }
    }
  }

  /** A goroutine sends: one message more, from one that had not sent. */
  lemma PostKeepsTraffic<T>(c: Config, outcome: nat -> Result<T, string>, workers: seq<Worker>, msgs: seq<Msg<T>>,
                            x: Worker, m: Msg<T>)
    requires TrafficOk(c, outcome, workers, msgs) && m.sender < |workers| && !HasSent(workers[m.sender]) && HasSent(x)
    requires m.result == outcome(m.sender) || (!c.eager && m.result.Err?)
    ensures TrafficOk(c, outcome, workers[m.sender := x], msgs + [m])
  {
    var after := workers[m.sender := x];
    forall k | 0 <= k < |msgs + [m]| ensures MsgOk(c, outcome, after, (msgs + [m])[k]) {
      if k < |msgs| { assert MsgOk(c, outcome, workers, msgs[k]); }
    }
    forall v | 0 <= v < |after| && HasSent(after[v]) ensures SentBy(msgs + [m], v) {
      SentByGrows(msgs, m, v);
    }
  }

  /** A goroutine moves on without sending. */
  lemma MoveKeepsTraffic<T>(c: Config, outcome: nat -> Result<T, string>, workers: seq<Worker>, msgs: seq<Msg<T>>,
                            w: nat, x: Worker)
    requires TrafficOk(c, outcome, workers, msgs) && w < |workers| && HasSent(workers[w]) == HasSent(x)
    ensures TrafficOk(c, outcome, workers[w := x], msgs)
  {
    forall k | 0 <= k < |msgs| ensures MsgOk(c, outcome, workers[w := x], msgs[k]) {
      assert MsgOk(c, outcome, workers, msgs[k]);
    }
  }

  lemma StepKeepsTraffic<T>(c: Config, outcome: nat -> Result<T, string>, s: State<T>, a: Action)
    requires Inv(c, outcome, s) && Enabled(c, s, a)
    ensures TrafficInv(c, outcome, Apply(c, outcome, s, a))
  {
    var s' := Apply(c, outcome, s, a);
    var msgs := Traffic(s);
    match a
    case Cancel(w) =>
      assert Traffic(s') == msgs + [Msg(w, Err("context done"))];
      PostKeepsTraffic(c, outcome, s.workers, msgs, s'.workers[w], Msg(w, Err("context done")));
    case Send(w) =>
      assert Traffic(s') == msgs + [Msg(w, outcome(w))];
      PostKeepsTraffic(c, outcome, s.workers, msgs, s'.workers[w], Msg(w, outcome(w)));
    case Acquire(w) => MoveKeepsTraffic(c, outcome, s.workers, msgs, w, s'.workers[w]);
    case Release(w) => MoveKeepsTraffic(c, outcome, s.workers, msgs, w, s'.workers[w]);
    case Depart(w) => MoveKeepsTraffic(c, outcome, s.workers, msgs, w, s'.workers[w]);
    case _ => assert Traffic(s') == msgs;
  }

  lemma StepKeepsInv<T>(c: Config, outcome: nat -> Result<T, string>, s: State<T>, a: Action)
    requires Inv(c, outcome, s) && Enabled(c, s, a)
    ensures Inv(c, outcome, Apply(c, outcome, s, a))
  {
    var s' := Apply(c, outcome, s, a);
    StepKeepsTraffic(c, outcome, s, a);
    if a.Acquire? || a.Cancel? || a.Send? || a.Release? || a.Depart? {
      CountSlotsUpdate(s.workers, a.w, s'.workers[a.w]);
    }
  }

  lemma {:induction false} EveryRunKeepsInv<T>(c: Config, outcome: nat -> Result<T, string>, acts: seq<Action>)
    requires After(c, outcome, acts).Some?
    ensures Inv(c, outcome, After(c, outcome, acts).value)
  {
    if acts == [] {
      InitInv(c, outcome);
    } else {
      EveryRunKeepsInv(c, outcome, acts[..|acts| - 1]);
      StepKeepsInv(c, outcome, After(c, outcome, acts[..|acts| - 1]).value, acts[|acts| - 1]);
    }
  }

  // ----- results for every run -----

  /** The channel keeps the order of sending: over any continuation of a run what
      was received or buffered stays, in place, and later messages follow. */
  lemma {:induction false} ChannelKeepsOrder<T>(c: Config, outcome: nat -> Result<T, string>, acts: seq<Action>, more: seq<Action>)
    requires After(c, outcome, acts + more).Some?
    ensures After(c, outcome, acts).Some?
    ensures var s, t := After(c, outcome, acts).value, After(c, outcome, acts + more).value;
      s.received <= t.received && s.received + s.buffer <= t.received + t.buffer
  {
    if more == [] {
      assert acts + more == acts;
    } else {
      var n := |more| - 1;
      assert (acts + more)[..|acts + more| - 1] == acts + more[..n];
      ChannelKeepsOrder(c, outcome, acts, more[..n]);
      StepKeepsOrder(c, outcome, After(c, outcome, acts + more[..n]).value, more[n]);
    }
  }

  lemma StepKeepsOrder<T>(c: Config, outcome: nat -> Result<T, string>, s: State<T>, a: Action)
    requires Enabled(c, s, a)
    ensures var t := Apply(c, outcome, s, a);
      s.received <= t.received && s.received + s.buffer <= t.received + t.buffer
  {
    if a.Receive? { assert s.received + s.buffer == (s.received + [s.buffer[0]]) + s.buffer[1..]; }
  }

  /** Whoever is about to send finds room, so the channel never makes a goroutine
      wait and the default arm of a select around the send is dead. */
  lemma SendNeverBlocks<T>(c: Config, outcome: nat -> Result<T, string>, acts: seq<Action>, w: nat)
    requires After(c, outcome, acts).Some? && w < c.n
    requires var s := After(c, outcome, acts).value; w < |s.workers| && !HasSent(s.workers[w])
    ensures |After(c, outcome, acts).value.buffer| < c.n
  {
    EveryRunKeepsInv(c, outcome, acts);
    RoomToSend(c, outcome, After(c, outcome, acts).value, w);
  }

  /** Nothing is sent once the channel is closed. */
  lemma NoSendAfterClose<T>(c: Config, outcome: nat -> Result<T, string>, acts: seq<Action>, w: nat)
    requires After(c, outcome, acts).Some? && After(c, outcome, acts).value.closed
    ensures var s := After(c, outcome, acts).value; !Enabled(c, s, Send(w)) && !Enabled(c, s, Cancel(w))
  {
    EveryRunKeepsInv(c, outcome, acts);
  }

  lemma {:induction false} SlotsAreHolders(workers: seq<Worker>)
    ensures CountSlots(workers) == |set w: nat | w < |workers| && (workers[w].Running? || workers[w].Sent?)|
  {
    if workers != [] {
      var n := |workers| - 1;
      SlotsAreHolders(workers[..n]);
      var before := set w: nat | w < n && (workers[..n][w].Running? || workers[..n][w].Sent?);
      assert (set w: nat | w < |workers| && (workers[w].Running? || workers[w].Sent?))
          == before + if HoldsSlot(workers[n]) then {n} else {};
    }
  }

  /** At most `limit` goroutines are between taking and giving back a slot. */
  lemma AtMostLimitRunning<T>(c: Config, outcome: nat -> Result<T, string>, acts: seq<Action>)
    requires After(c, outcome, acts).Some?
    ensures var workers := After(c, outcome, acts).value.workers;
      |set w: nat | w < |workers| && (workers[w].Running? || workers[w].Sent?)| <= c.limit
  {
    EveryRunKeepsInv(c, outcome, acts);
    SlotsAreHolders(After(c, outcome, acts).value.workers);
  }

  ghost predicate OnePerGoroutine<T>(n: nat, msgs: seq<Msg<T>>) {
    && |msgs| == n
    && (forall j, k :: 0 <= j < k < |msgs| ==> msgs[j].sender != msgs[k].sender)
    && (forall k :: 0 <= k < |msgs| ==> msgs[k].sender < n)
    && (forall w :: 0 <= w < n ==> SentBy(msgs, w))
  }

  /** When the search's receiver is done it holds exactly one message per
      goroutine: what its call returned, or the error of a cancelled wait. */
  lemma NothingIsLost<T>(c: Config, outcome: nat -> Result<T, string>, acts: seq<Action>)
    requires !c.eager && After(c, outcome, acts).Some? && After(c, outcome, acts).value.returned
    ensures var msgs := After(c, outcome, acts).value.received;
      && OnePerGoroutine(c.n, msgs)
      && forall k :: 0 <= k < |msgs| ==> msgs[k].result == outcome(msgs[k].sender) || msgs[k].result.Err?
  {
    EveryRunKeepsInv(c, outcome, acts);
    var s := After(c, outcome, acts).value;
    assert Traffic(s) == s.received;
    AllSendersCounted(c, outcome, s);
  }

  lemma AllSendersCounted<T>(c: Config, outcome: nat -> Result<T, string>, s: State<T>)
    requires Inv(c, outcome, s) && s.closed
    ensures |Traffic(s)| == c.n
  {
    var msgs := Traffic(s);
    var senders := set k | 0 <= k < |msgs| :: msgs[k].sender;
    DistinctCount(msgs, |msgs|);
    forall w | w in Below(c.n) ensures w in senders {
      assert s.workers[w].Gone?;
      assert SentBy(msgs, w);
    }
    assert senders == Below(c.n);
  }

  /** What the probing loop returns: the success it stopped at, if any. */
  function Verdict<T>(s: State<T>): Option<Msg<T>> {
    if s.received != [] && s.received[|s.received| - 1].result.Ok? then Some(s.received[|s.received| - 1]) else None
  }

  /** Parallel probing returns a success exactly when some provider succeeds, and
      then the answer is that provider's own. */
  lemma ProbingVerdict<T>(c: Config, outcome: nat -> Result<T, string>, acts: seq<Action>)
    requires c.eager && After(c, outcome, acts).Some? && After(c, outcome, acts).value.returned
    ensures var v := Verdict(After(c, outcome, acts).value);
      && (v.Some? <==> exists w: nat :: w < c.n && outcome(w).Ok?)
      && (v.Some? ==> v.value.sender < c.n && v.value.result == outcome(v.value.sender))
  {
    EveryRunKeepsInv(c, outcome, acts);
    var s := After(c, outcome, acts).value;
    var msgs := Traffic(s);
    if Verdict(s).Some? {
      assert msgs[|s.received| - 1] == s.received[|s.received| - 1];
    } else {
      assert msgs == s.received;
      forall w: nat | w < c.n ensures !outcome(w).Ok? {
        assert s.workers[w].Gone?;
        assert SentBy(msgs, w);
        var k :| 0 <= k < |msgs| && msgs[k].sender == w;
        assert msgs[k].result == outcome(w);
      }
    }
  }

  // ----- progress and termination -----

  lemma {:induction false} SlotCounted(workers: seq<Worker>, w: nat)
    requires w < |workers| && HoldsSlot(workers[w])
    ensures CountSlots(workers) > 0
  {
    if w < |workers| - 1 { SlotCounted(workers[..|workers| - 1], w); }
  }

  /** No run gets stuck: until the receiver has returned and the channel is
      closed, some step is possible without any cancellation. */
  lemma Progress<T>(c: Config, outcome: nat -> Result<T, string>, s: State<T>) returns (a: Action)
    requires Inv(c, outcome, s) && c.limit > 0 && !(s.returned && s.closed)
    ensures Enabled(c, s, a) && !a.Cancel?
  {
    if w: nat :| w < c.n && s.workers[w].Leaving? {
      a := Depart(w);
    } else if w: nat :| w < c.n && s.workers[w].Sent? {
      SlotCounted(s.workers, w);
      a := Release(w);
    } else if w: nat :| w < c.n && s.workers[w].Running? {
      RoomToSend(c, outcome, s, w);
      a := Send(w);
    } else if w: nat :| w < c.n && s.workers[w].Waiting? {
      CountSlotsNone(s.workers);
      a := Acquire(w);
    } else {
      a := if !s.closed then Close else if s.buffer != [] then Receive else Drained;
    }
  }

  function WorkerLeft(x: Worker): nat {
    match x
    case Waiting => 4
    case Running => 3
    case Sent => 2
    case Leaving => 1
    case Gone => 0
  }

  function WorkersLeft(workers: seq<Worker>): nat {
    if workers == [] then 0 else WorkersLeft(workers[..|workers| - 1]) + WorkerLeft(workers[|workers| - 1])
  }

  lemma {:induction false} WorkersLeftUpdate(workers: seq<Worker>, w: nat, x: Worker)
    requires w < |workers|
    ensures WorkersLeft(workers[w := x]) == WorkersLeft(workers) - WorkerLeft(workers[w]) + WorkerLeft(x)
  {
    var n := |workers| - 1;
    if w < n {
      WorkersLeftUpdate(workers[..n], w, x);
      assert workers[w := x][..n] == workers[..n][w := x];
    } else {
      assert workers[w := x][..n] == workers[..n];
    }
  }

  function StepsLeft<T>(c: Config, s: State<T>): int {
    WorkersLeft(s.workers) + (if s.closed then 0 else 1) + (c.n - |s.received|) + (if s.returned then 0 else 1)
  }

  lemma {:induction false} WorkersLeftInitially(n: nat)
    ensures WorkersLeft(seq(n, _ => Waiting)) == 4 * n
  {
    if n > 0 {
      WorkersLeftInitially(n - 1);
      assert seq(n, _ => Waiting)[..n - 1] == seq(n - 1, _ => Waiting);
    }
  }

  lemma TrafficAtMostN<T>(c: Config, outcome: nat -> Result<T, string>, s: State<T>)
    requires Inv(c, outcome, s)
    ensures |Traffic(s)| <= c.n
  {
    var msgs := Traffic(s);
    var senders := set k | 0 <= k < |msgs| :: msgs[k].sender;
    DistinctCount(msgs, |msgs|);
    assert senders <= Below(c.n);
    SubsetCardinality(senders, Below(c.n));
  }

  lemma StepLowersStepsLeft<T>(c: Config, outcome: nat -> Result<T, string>, s: State<T>, a: Action)
    requires Inv(c, outcome, s) && Enabled(c, s, a)
    ensures StepsLeft(c, Apply(c, outcome, s, a)) < StepsLeft(c, s)
  {
    if a.Acquire? || a.Cancel? || a.Send? || a.Release? || a.Depart? {
      WorkersLeftUpdate(s.workers, a.w, Apply(c, outcome, s, a).workers[a.w]);
    }
  }

  /** Every run, whatever the interleaving and cancellations, has at most
      5n + 2 steps. */
  lemma {:induction false} RunsAreBounded<T>(c: Config, outcome: nat -> Result<T, string>, acts: seq<Action>)
    requires After(c, outcome, acts).Some?
    ensures 0 <= StepsLeft(c, After(c, outcome, acts).value)
    ensures |acts| + StepsLeft(c, After(c, outcome, acts).value) <= 5 * c.n + 2
  {
    EveryRunKeepsInv(c, outcome, acts);
    TrafficAtMostN(c, outcome, After(c, outcome, acts).value);
    if acts == [] {
      WorkersLeftInitially(c.n);
    } else {
      RunsAreBounded(c, outcome, acts[..|acts| - 1]);
      EveryRunKeepsInv(c, outcome, acts[..|acts| - 1]);
      StepLowersStepsLeft(c, outcome, After(c, outcome, acts[..|acts| - 1]).value, acts[|acts| - 1]);
    }
  }
}
