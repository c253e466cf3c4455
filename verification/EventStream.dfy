/** The event-stream protocol between the Underleaf agent (UA) and the event consumer.

    The UA keeps, per origin node, an append-only log with strictly increasing sequence
    numbers. The consumer dials, sends a copy of `nodeSequences`, and receives each node's
    events after the sequence number it named. Received events go through a bounded channel
    to a second goroutine that filters and handles them. The stream may fail at any time and
    is then reopened, while events of earlier connections are still in the channel, so the
    same events may be queued several times. Every interleaving of the two goroutines, the
    UA and the network is a sequence of `Action`s. */
module EventStream {
  import opened Basics
  import opened MeshTypes

  /** Capacity of eventCh. */
  const BUFFER_SIZE: nat := 1000

  datatype Link =
    | Down
    | Requested(lastSeen: map<NodeId, nat>)  // nodeSequences copied, stream not open yet
    | Up(cursor: map<NodeId, nat>)           // index of the next event to receive, per node

  datatype State = State(
    logs: map<NodeId, seq<Event>>,       // what the UA has emitted so far
    link: Link,
    hand: Option<Event>,                 // received, waiting for room in the channel
    eventCh: seq<Event>,
    nodeSequences: map<NodeId, nat>,
    handled: seq<Event>,                 // history: events that passed the filter
    skipped: seq<Event>,                 // history: events the filter dropped
    received: nat,                       // history: number of receives
    stopped: bool)

  datatype Action =
    | Append(event: Event)               // the UA emits an event
    | Dial                               // connection up, request built
    | OpenStream(ok: bool)               // StreamEvents succeeds or fails
    | Recv(node: NodeId)                 // the next event of `node` arrives
    | Push                               // the received event enters the channel
    | Process                            // processEventLoop takes one event
    | StreamError                        // Recv fails
    | Stop

  function Init(): State {
    State(map[], Down, None, [], map[], [], [], 0, false)
  }

  function Log(s: State, n: NodeId): seq<Event> {
    if n in s.logs then s.logs[n] else []
  }

  /** A missing entry reads as 0. */
  function LastSeq(sequences: map<NodeId, nat>, n: NodeId): nat {
    if n in sequences then sequences[n] else 0
  }

  function LogEnd(log: seq<Event>): nat {
    if log == [] then 0 else log[|log| - 1].seqNo
  }

  /** The number of leading events of a log numbered below `bound`. */
  function CountBelow(log: seq<Event>, bound: nat): (k: nat)
    ensures k <= |log|
  {
    if log == [] then 0
    else if log[|log| - 1].seqNo < bound then |log|
    else CountBelow(log[..|log| - 1], bound)
  }

  function Cursor(s: State, n: NodeId): nat
    requires s.link.Up?
  {
    LastSeq(s.link.cursor, n)
  }

  /** HandleEvent's filter: true when the event is dropped. */
  predicate Stale(sequences: map<NodeId, nat>, e: Event) {
    var last := LastSeq(sequences, e.node);
    e.seqNo <= last && last > 0
  }

  predicate Enabled(s: State, a: Action) {
    match a
    case Append(e) => LogEnd(Log(s, e.node)) < e.seqNo
    case Dial => s.link.Down? && !s.stopped
    case OpenStream(_) => s.link.Requested?
    case Recv(n) => s.link.Up? && s.hand.None? && Cursor(s, n) < |Log(s, n)|
    case Push => s.hand.Some? && |s.eventCh| < BUFFER_SIZE
    case Process => s.eventCh != []
    case StreamError => s.link.Up? && s.hand.None?
    case Stop => !s.stopped
  }

  function Apply(s: State, a: Action): State
    requires Enabled(s, a)
  {
    match a
    case Append(e) => s.(logs := s.logs[e.node := Log(s, e.node) + [e]])
    case Dial => s.(link := Requested(s.nodeSequences))
    case OpenStream(ok) =>
      if ok then
        s.(link := Up(map n | n in s.logs :: CountBelow(s.logs[n], LastSeq(s.link.lastSeen, n) + 1)))
      else s.(link := Down)
    case Recv(n) =>
      s.(hand := Some(Log(s, n)[Cursor(s, n)]), received := s.received + 1,
         link := Up(s.link.cursor[n := Cursor(s, n) + 1]))
    case Push => s.(hand := None, eventCh := s.eventCh + [s.hand.value])
    case Process =>
      var e := s.eventCh[0];
      if Stale(s.nodeSequences, e) then s.(eventCh := s.eventCh[1..], skipped := s.skipped + [e])
      else s.(eventCh := s.eventCh[1..], handled := s.handled + [e],
              nodeSequences := s.nodeSequences[e.node := e.seqNo])
    case StreamError => s.(link := Down)
    case Stop => s.(stopped := true, link := Down, hand := None)
  }

  /** A schedule may name steps that cannot be taken; they change nothing. */
  function Step(s: State, a: Action): State {
    if Enabled(s, a) then Apply(s, a) else s
  }

  function Run(actions: seq<Action>): State {
    if actions == [] then Init() else Step(Run(actions[..|actions| - 1]), actions[|actions| - 1])
  }

  /** The events of node `n` in `es`, in order. */
  function Of(es: seq<Event>, n: NodeId): seq<Event> {
    if es == [] then [] else
      Of(es[..|es| - 1], n) + (if es[|es| - 1].node == n then [es[|es| - 1]] else [])
  }

  /** Everything received and not yet processed, oldest first. */
  function Pipeline(s: State): seq<Event> {
    s.eventCh + (if s.hand.Some? then [s.hand.value] else [])
  }

  // ----- facts about logs -----

  ghost predicate LogOf(log: seq<Event>, n: NodeId) {
    && (forall i :: 0 <= i < |log| ==> log[i].node == n && 0 < log[i].seqNo)
    && (forall i, j :: 0 <= i < j < |log| ==> log[i].seqNo < log[j].seqNo)
  }

  lemma {:induction false} CountBelowIs(log: seq<Event>, n: NodeId, bound: nat, k: nat)
    requires LogOf(log, n) && k <= |log|
    requires forall i :: 0 <= i < k ==> log[i].seqNo < bound
    requires forall i :: k <= i < |log| ==> bound <= log[i].seqNo
    ensures CountBelow(log, bound) == k
  {
    if k < |log| {
      CountBelowIs(log[..|log| - 1], n, bound, k);
    } else if log != [] {
      assert log[|log| - 1].seqNo < bound;
    }
  }

  /** Resuming after event k-1 of a log means starting at index k. */
  lemma ResumePoint(log: seq<Event>, n: NodeId, k: nat)
    requires LogOf(log, n) && k <= |log|
    ensures CountBelow(log, (if k == 0 then 0 else log[k - 1].seqNo) + 1) == k
    ensures k < |log| ==> CountBelow(log, log[k].seqNo) == k
  {
    CountBelowIs(log, n, (if k == 0 then 0 else log[k - 1].seqNo) + 1, k);
    if k < |log| {
      CountBelowIs(log, n, log[k].seqNo, k);
    }
  }

  lemma {:induction false} OfConcat(a: seq<Event>, b: seq<Event>, n: NodeId)
    ensures Of(a + b, n) == Of(a, n) + Of(b, n)
  {
    if b == [] {
      assert a + b == a;
    } else {
      assert (a + b)[..|a + b| - 1] == a + b[..|b| - 1];
      OfConcat(a, b[..|b| - 1], n);
    }
  }

  lemma OfSnoc(es: seq<Event>, e: Event, n: NodeId)
    ensures Of(es + [e], n) == Of(es, n) + (if e.node == n then [e] else [])
  {
    assert (es + [e])[..|es|] == es;
  }

  lemma OfHead(es: seq<Event>, n: NodeId)
    requires es != []
    ensures Of(es, n) == (if es[0].node == n then [es[0]] else []) + Of(es[1..], n)
  {
    assert es == [es[0]] + es[1..];
    OfConcat([es[0]], es[1..], n);
    assert [es[0]][..0] == [];
  }

  // ----- the invariant -----

  /** The queued events `q` of one node never jump ahead: each is an event of `log` at most
      one position past those handled (`frontier` of them) or queued before it. */
  ghost predicate Chained(log: seq<Event>, q: seq<Event>, frontier: nat) {
    q == [] ||
    var p := CountBelow(log, q[0].seqNo);
    p < |log| && log[p] == q[0] && p <= frontier && Chained(log, q[1..], Max(frontier, p + 1))
  }

  /** How many events of the log are handled once all of `q` has been processed. */
  ghost function Reach(log: seq<Event>, q: seq<Event>, frontier: nat): nat {
    if q == [] then frontier
    else Reach(log, q[1..], Max(frontier, CountBelow(log, q[0].seqNo) + 1))
  }

  /** The protocol as one origin node sees it. */
  datatype NodeView = NodeView(log: seq<Event>, done: seq<Event>, last: nat, queued: seq<Event>, resume: Resume)
  datatype Resume = Closed | Asked(lastSeen: nat) | Streaming(cursor: nat)

  function View(s: State, n: NodeId): NodeView {
    NodeView(Log(s, n), Of(s.handled, n), LastSeq(s.nodeSequences, n), Of(Pipeline(s), n),
             match s.link
             case Down => Closed
             case Requested(lastSeen) => Asked(LastSeq(lastSeen, n))
             case Up(_) => Streaming(Cursor(s, n)))
  }

  ghost predicate ViewInv(v: NodeView, n: NodeId) {
    var h := |v.done|;
    && LogOf(v.log, n)
    && h <= |v.log| && v.done == v.log[..h]
    && v.last == LogEnd(v.done)
    && Chained(v.log, v.queued, h)
    && (v.resume.Asked? ==> v.resume.lastSeen <= LogEnd(v.log))
    && (v.resume.Asked? ==> CountBelow(v.log, v.resume.lastSeen + 1) <= Reach(v.log, v.queued, h))
    && (v.resume.Streaming? ==> v.resume.cursor <= Reach(v.log, v.queued, h))
  }

  ghost predicate Inv(s: State) {
    && (forall n :: ViewInv(View(s, n), n))
    && |s.eventCh| <= BUFFER_SIZE
    && (s.hand.Some? ==> s.link.Up?)
    && (s.stopped ==> s.link.Down?)
  }

  lemma {:induction false} ReachBounds(log: seq<Event>, q: seq<Event>, f: nat)
    requires Chained(log, q, f) && f <= |log|
    ensures f <= Reach(log, q, f) <= |log|
    decreases |q|
  {
    if q != [] {
      ReachBounds(log, q[1..], Max(f, CountBelow(log, q[0].seqNo) + 1));
    }
  }

  lemma {:induction false} ChainSnoc(log: seq<Event>, q: seq<Event>, f: nat, e: Event)
    requires Chained(log, q, f)
    requires var p := CountBelow(log, e.seqNo); p < |log| && log[p] == e && p <= Reach(log, q, f)
    ensures Chained(log, q + [e], f)
    ensures Reach(log, q + [e], f) == Max(Reach(log, q, f), CountBelow(log, e.seqNo) + 1)
    decreases |q|
  {
    if q == [] {
      assert (q + [e])[1..] == [];
    } else {
      ChainSnoc(log, q[1..], Max(f, CountBelow(log, q[0].seqNo) + 1), e);
      assert (q + [e])[1..] == q[1..] + [e];
    }
  }

  lemma {:induction false} ChainGrow(log: seq<Event>, n: NodeId, x: Event, q: seq<Event>, f: nat)
    requires LogOf(log + [x], n) && Chained(log, q, f)
    ensures Chained(log + [x], q, f) && Reach(log + [x], q, f) == Reach(log, q, f)
    decreases |q|
  {
    if q != [] {
      var p := CountBelow(log, q[0].seqNo);
      assert LogOf(log, n) by {
        assert forall i :: 0 <= i < |log| ==> log[i] == (log + [x])[i];
      }
      ResumePoint(log + [x], n, p);
      assert (log + [x])[p] == q[0];
      ChainGrow(log, n, x, q[1..], Max(f, p + 1));
    }
  }

  lemma {:induction false} CountBelowGrow(log: seq<Event>, x: Event, bound: nat)
    requires bound <= x.seqNo
    ensures CountBelow(log + [x], bound) == CountBelow(log, bound)
  {
    assert (log + [x])[..|log|] == log;
  }

  lemma {:induction false} ChainPrefix(log: seq<Event>, q: seq<Event>, e: Event, f: nat)
    requires Chained(log, q + [e], f)
    ensures Chained(log, q, f)
    decreases |q|
  {
    if q != [] {
      assert (q + [e])[1..] == q[1..] + [e];
      ChainPrefix(log, q[1..], e, Max(f, CountBelow(log, q[0].seqNo) + 1));
    }
  }

  // ----- every step keeps the invariant, node by node -----

  lemma LogGrows(log: seq<Event>, n: NodeId, x: Event)
    requires LogOf(log, n) && x.node == n && LogEnd(log) < x.seqNo
    ensures LogOf(log + [x], n) && LogEnd(log + [x]) == x.seqNo
    ensures forall k :: 0 <= k <= |log| ==> (log + [x])[..k] == log[..k]
  {
  }

  lemma ViewGrow(v: NodeView, n: NodeId, x: Event)
    requires ViewInv(v, n) && x.node == n && LogEnd(v.log) < x.seqNo
    ensures ViewInv(v.(log := v.log + [x]), n)
  {
    LogGrows(v.log, n, x);
    ChainGrow(v.log, n, x, v.queued, |v.done|);
    if v.resume.Asked? {
      CountBelowGrow(v.log, x, v.resume.lastSeen + 1);
    }
  }

  lemma ViewDial(v: NodeView, n: NodeId)
    requires ViewInv(v, n)
    ensures ViewInv(v.(resume := Asked(v.last)), n)
  {
    ResumePoint(v.log, n, |v.done|);
    ReachBounds(v.log, v.queued, |v.done|);
  }

  lemma ViewRecv(v: NodeView, n: NodeId)
    requires ViewInv(v, n) && v.resume.Streaming? && v.resume.cursor < |v.log|
    ensures var c := v.resume.cursor;
            ViewInv(v.(queued := v.queued + [v.log[c]], resume := Streaming(c + 1)), n)
  {
    ResumePoint(v.log, n, v.resume.cursor);
    ChainSnoc(v.log, v.queued, |v.done|, v.log[v.resume.cursor]);
  }

  /** What processing the channel's head `e` does to the view of node `n`. */
  predicate Processed(v: NodeView, v': NodeView, e: Event, n: NodeId) {
    && v'.log == v.log && v'.resume == v.resume
    && v.queued == (if e.node == n then [e] else []) + v'.queued
    && (if e.node != n || (e.seqNo <= v.last && v.last > 0) then v'.done == v.done && v'.last == v.last
        else v'.done == v.done + [e] && v'.last == e.seqNo)
  }

  lemma ViewProcess(v: NodeView, v': NodeView, e: Event, n: NodeId)
    requires ViewInv(v, n) && Processed(v, v', e, n)
    ensures ViewInv(v', n)
  {
    if e.node != n {
      assert v' == v;
    } else {
      assert v.queued[0] == e && v.queued[1..] == v'.queued;
      var h, p := |v.done|, CountBelow(v.log, e.seqNo);
      if p == h {
        assert v.log[..h + 1] == v.log[..h] + [v.log[h]];
      } else {
        assert v.log[p].seqNo <= v.log[h - 1].seqNo;
      }
    }
  }

  lemma ViewLost(v: NodeView, n: NodeId, q: seq<Event>)
    requires ViewInv(v, n)
    requires q == v.queued || exists e :: v.queued == q + [e]
    ensures ViewInv(v.(queued := q, resume := Closed), n)
  {
    if q != v.queued {
      var e :| v.queued == q + [e];
      ChainPrefix(v.log, q, e, |v.done|);
    }
  }

  lemma PipelineOf(s: State, n: NodeId)
    ensures Of(Pipeline(s), n) ==
            if s.hand.Some? && s.hand.value.node == n then Of(s.eventCh, n) + [s.hand.value]
            else Of(s.eventCh, n)
  {
    if s.hand.Some? {
      OfSnoc(s.eventCh, s.hand.value, n);
    } else {
      assert Pipeline(s) == s.eventCh;
    }
  }

  lemma AppendKeeps(s: State, e: Event, n: NodeId)
    requires ViewInv(View(s, n), n) && Enabled(s, Append(e))
    ensures ViewInv(View(Apply(s, Append(e)), n), n)
  {
    var s' := Apply(s, Append(e));
    assert Pipeline(s') == Pipeline(s);
    if e.node == n {
      ViewGrow(View(s, n), n, e);
      assert View(s', n) == View(s, n).(log := Log(s, n) + [e]);
    } else {
      assert View(s', n) == View(s, n);
    }
  }

  lemma DialKeeps(s: State, n: NodeId)
    requires ViewInv(View(s, n), n) && Enabled(s, Dial)
    ensures ViewInv(View(Apply(s, Dial), n), n)
  {
    var s' := Apply(s, Dial);
    assert Pipeline(s') == Pipeline(s);
    ViewDial(View(s, n), n);
    assert View(s', n) == View(s, n).(resume := Asked(View(s, n).last));
  }

  lemma OpenView(s: State, ok: bool, n: NodeId)
    requires Enabled(s, OpenStream(ok))
    ensures var v := View(s, n);
            View(Apply(s, OpenStream(ok)), n) ==
            v.(resume := if ok then Streaming(CountBelow(v.log, v.resume.lastSeen + 1)) else Closed)
  {
    assert Pipeline(Apply(s, OpenStream(ok))) == Pipeline(s);
  }

  lemma OpenKeeps(s: State, ok: bool, n: NodeId)
    requires ViewInv(View(s, n), n) && Enabled(s, OpenStream(ok))
    ensures ViewInv(View(Apply(s, OpenStream(ok)), n), n)
  {
    OpenView(s, ok, n);
  }

  lemma RecvView(s: State, m: NodeId, n: NodeId)
    requires Enabled(s, Recv(m)) && Log(s, m)[Cursor(s, m)].node == m
    ensures var v, v' := View(s, n), View(Apply(s, Recv(m)), n);
            if m != n then v' == v
            else v' == v.(queued := v.queued + [Log(s, n)[Cursor(s, n)]], resume := Streaming(Cursor(s, n) + 1))
  {
    var s' := Apply(s, Recv(m));
    assert Pipeline(s) == s.eventCh && Pipeline(s') == s.eventCh + [s'.hand.value];
    OfSnoc(s.eventCh, s'.hand.value, n);
  }

  lemma RecvKeeps(s: State, m: NodeId, n: NodeId)
    requires ViewInv(View(s, n), n) && Enabled(s, Recv(m))
    requires Log(s, m)[Cursor(s, m)].node == m
    ensures ViewInv(View(Apply(s, Recv(m)), n), n)
  {
    RecvView(s, m, n);
    if m == n {
      ViewRecv(View(s, n), n);
    }
  }

  lemma PushKeeps(s: State, n: NodeId)
    requires ViewInv(View(s, n), n) && Enabled(s, Push)
    ensures ViewInv(View(Apply(s, Push), n), n)
  {
    assert Pipeline(Apply(s, Push)) == Pipeline(s);
    assert View(Apply(s, Push), n) == View(s, n);
  }

  lemma ProcessQueue(s: State, s': State, n: NodeId)
    requires s.eventCh != [] && s'.eventCh == s.eventCh[1..] && s'.hand == s.hand
    ensures Of(Pipeline(s), n) == (if s.eventCh[0].node == n then [s.eventCh[0]] else []) + Of(Pipeline(s'), n)
  {
    assert Pipeline(s)[0] == s.eventCh[0] && Pipeline(s)[1..] == Pipeline(s');
    OfHead(Pipeline(s), n);
  }

  lemma ProcessHistory(s: State, n: NodeId)
    requires Enabled(s, Process)
    ensures var v, v', e := View(s, n), View(Apply(s, Process), n), s.eventCh[0];
            if e.node != n || (e.seqNo <= v.last && v.last > 0) then v'.done == v.done && v'.last == v.last
            else v'.done == v.done + [e] && v'.last == e.seqNo
  {
    OfSnoc(s.handled, s.eventCh[0], n);
  }

  lemma ProcessFrame(s: State, n: NodeId)
    requires Enabled(s, Process)
    ensures var v, v' := View(s, n), View(Apply(s, Process), n);
            v'.log == v.log && v'.resume == v.resume
  {
  }

  lemma ProcessKeeps(s: State, n: NodeId)
    requires ViewInv(View(s, n), n) && Enabled(s, Process)
    ensures ViewInv(View(Apply(s, Process), n), n)
  {
    ProcessFrame(s, n);
    ProcessHistory(s, n);
    ProcessQueue(s, Apply(s, Process), n);
    ViewProcess(View(s, n), View(Apply(s, Process), n), s.eventCh[0], n);
  }

  lemma LinkLostKeeps(s: State, a: Action, n: NodeId)
    requires ViewInv(View(s, n), n) && Enabled(s, a) && (a.StreamError? || a.Stop?)
    ensures ViewInv(View(Apply(s, a), n), n)
  {
    var s' := Apply(s, a);
    PipelineOf(s, n);
    PipelineOf(s', n);
    ViewLost(View(s, n), n, Of(Pipeline(s'), n));
    assert View(s', n) == View(s, n).(queued := Of(Pipeline(s'), n), resume := Closed);
  }

  lemma StepKeeps(s: State, a: Action)
    requires Inv(s)
    ensures Inv(Step(s, a))
  {
    if Enabled(s, a) {
      forall n ensures ViewInv(View(Apply(s, a), n), n) {
        assert ViewInv(View(s, n), n);
        match a
        case Append(e) => AppendKeeps(s, e, n);
        case Dial => DialKeeps(s, n);
        case OpenStream(ok) => OpenKeeps(s, ok, n);
        case Recv(m) =>
          assert ViewInv(View(s, m), m);
          RecvKeeps(s, m, n);
        case Push => PushKeeps(s, n);
        case Process => ProcessKeeps(s, n);
        case StreamError => LinkLostKeeps(s, a, n);
        case Stop => LinkLostKeeps(s, a, n);
      }
    }
  }

  lemma {:induction false} RunInv(actions: seq<Action>)
    ensures Inv(Run(actions))
  {
    if actions != [] {
      RunInv(actions[..|actions| - 1]);
      StepKeeps(Run(actions[..|actions| - 1]), actions[|actions| - 1]);
    }
  }

  // ----- main results -----

  /** The events of `n` handled so far are exactly the prefix of its log numbered up to
      nodeSequences[n]. */
  predicate ExactlyOnce(s: State, n: NodeId) {
    && Of(s.handled, n) == Log(s, n)[..CountBelow(Log(s, n), LastSeq(s.nodeSequences, n) + 1)]
    && LastSeq(s.nodeSequences, n) == LogEnd(Of(s.handled, n))
  }

  lemma InvExact(s: State, n: NodeId)
    requires ViewInv(View(s, n), n)
    ensures ExactlyOnce(s, n)
  {
    ResumePoint(Log(s, n), n, |Of(s.handled, n)|);
  }

  /** Exactly once, in order, without gaps: whatever the schedule of appends, disconnects,
      receives and processing. */
  lemma ExactlyOnceInOrder(actions: seq<Action>)
    ensures forall n :: ExactlyOnce(Run(actions), n)
  {
    RunInv(actions);
    forall n ensures ExactlyOnce(Run(actions), n) {
      assert ViewInv(View(Run(actions), n), n);
      InvExact(Run(actions), n);
    }
  }

  /** Every received event is handled, skipped or still on its way. */
  predicate ReceivedAccounted(s: State) {
    s.received == |s.handled| + |s.skipped| + |s.eventCh| + (if s.hand.Some? then 1 else 0)
  }

  lemma ApplyAccounts(s: State, a: Action)
    requires Enabled(s, a) && !a.Stop? && ReceivedAccounted(s)
    ensures ReceivedAccounted(Apply(s, a)) && Apply(s, a).stopped == s.stopped
  {
  }

  /** This holds while the consumer runs. */
  lemma {:induction false} ReceivedAreAccounted(actions: seq<Action>)
    ensures !Run(actions).stopped ==> ReceivedAccounted(Run(actions))
  {
    if actions != [] {
      var k := |actions| - 1;
      ReceivedAreAccounted(actions[..k]);
      if Enabled(Run(actions[..k]), actions[k]) && !actions[k].Stop? && !Run(actions[..k]).stopped {
        ApplyAccounts(Run(actions[..k]), actions[k]);
      }
    }
  }

  /** The channel holds at most 1000 events, and a received event enters as soon as there is room. */
  lemma ChannelBounded(actions: seq<Action>)
    ensures |Run(actions).eventCh| <= 1000
    ensures Run(actions).hand.Some? ==> (Enabled(Run(actions), Push) <==> |Run(actions).eventCh| < 1000)
  {
    RunInv(actions);
  }

  predicate Drains(a: Action) {
    a.Recv? || a.Push? || a.Process?
  }

  /** Per node, the number of log events not yet received. */
  ghost function Backlog(logs: map<NodeId, seq<Event>>, cursor: map<NodeId, nat>): map<NodeId, nat> {
    map n | n in logs :: Max(0, |logs[n]| - LastSeq(cursor, n)) as nat
  }

  /** Steps still needed: three per event not received, two for the event in hand, one per
      queued event. */
  ghost function Remaining(s: State): nat
    requires s.link.Up?
  {
    3 * SumMap(Backlog(s.logs, s.link.cursor)) + (if s.hand.Some? then 2 else 0) + |s.eventCh|
  }

  lemma BacklogShrinks(logs: map<NodeId, seq<Event>>, cursor: map<NodeId, nat>, n: NodeId)
    requires n in logs && LastSeq(cursor, n) < |logs[n]|
    ensures var b := Backlog(logs, cursor);
            b[n] > 0 && Backlog(logs, cursor[n := LastSeq(cursor, n) + 1]) == b[n := b[n] - 1]
  {
  }

  lemma RecvBacklog(logs: map<NodeId, seq<Event>>, cursor: map<NodeId, nat>, n: NodeId)
    requires n in logs && LastSeq(cursor, n) < |logs[n]|
    ensures SumMap(Backlog(logs, cursor[n := LastSeq(cursor, n) + 1])) == SumMap(Backlog(logs, cursor)) - 1
  {
    var b := Backlog(logs, cursor);
    BacklogShrinks(logs, cursor, n);
    SumMapSet(b, n, b[n] - 1);
  }

  lemma DrainStep(s: State, a: Action)
    requires s.link.Up? && Drains(a) && Enabled(s, a)
    ensures Apply(s, a).link.Up? && Apply(s, a).logs == s.logs
    ensures Remaining(Apply(s, a)) == Remaining(s) - 1
  {
    if a.Recv? {
      RecvBacklog(s.logs, s.link.cursor, a.node);
    }
  }

  lemma NothingLeft(s: State, n: NodeId)
    requires ViewInv(View(s, n), n) && s.link.Up? && Pipeline(s) == [] && Cursor(s, n) >= |Log(s, n)|
    ensures Of(s.handled, n) == Log(s, n)
  {
    var v := View(s, n);
    assert v.queued == [];
    assert v.log[..|v.log|] == v.log;
  }

  lemma CaughtUp(s: State)
    requires Inv(s) && s.link.Up?
    ensures Remaining(s) == 0 <==> forall a | Drains(a) :: !Enabled(s, a)
    ensures Remaining(s) == 0 ==> forall n :: Of(s.handled, n) == Log(s, n)
  {
    var b := Backlog(s.logs, s.link.cursor);
    SumMapZero(b);
    if Remaining(s) == 0 {
      forall n ensures Of(s.handled, n) == Log(s, n) && Cursor(s, n) >= |Log(s, n)| {
        assert ViewInv(View(s, n), n);
        assert n in s.logs ==> b[n] == 0;
        NothingLeft(s, n);
      }
    } else if s.eventCh != [] {
      assert Enabled(s, Process) && Drains(Process);
    } else if s.hand.Some? {
      assert Enabled(s, Push) && Drains(Push);
    } else {
      var n :| n in s.logs && b[n] != 0;
      assert Enabled(s, Recv(n)) && Drains(Recv(n));
    }
  }

  function RunFrom(s: State, actions: seq<Action>): State
    decreases |actions|
  {
    if actions == [] then s else RunFrom(Step(s, actions[0]), actions[1..])
  }

  /** Every action is a drain step that can be taken when its turn comes. */
  predicate DrainRun(s: State, actions: seq<Action>)
    decreases |actions|
  {
    actions == [] ||
    (Drains(actions[0]) && Enabled(s, actions[0]) && DrainRun(Apply(s, actions[0]), actions[1..]))
  }

  /** Once the logs stop growing and the stream stays up, no schedule can take more than
      Remaining(s) receive, push and process steps; one that takes fewer can be continued, and
      after exactly that many every event of every log has been handled. */
  lemma {:induction false} CatchUp(s: State, actions: seq<Action>)
    requires Inv(s) && s.link.Up? && DrainRun(s, actions)
    ensures var s' := RunFrom(s, actions);
            && |actions| <= Remaining(s)
            && (|actions| < Remaining(s) <==> exists a :: Drains(a) && Enabled(s', a))
            && (|actions| == Remaining(s) ==> forall n :: Of(s'.handled, n) == Log(s, n))
    decreases |actions|
  {
    if actions == [] {
      CaughtUp(s);
      if Remaining(s) > 0 {
        var a :| Drains(a) && Enabled(s, a);
      }
    } else {
      DrainStep(s, actions[0]);
      StepKeeps(s, actions[0]);
      CatchUp(Apply(s, actions[0]), actions[1..]);
      assert forall n :: Log(Apply(s, actions[0]), n) == Log(s, n);
    }
  }

  // ----- the filter on its own -----

  /** nodeSequences after the consumer took `es`, whatever their origin (a file, for instance). */
  function Sequences(es: seq<Event>): map<NodeId, nat> {
    if es == [] then map[] else
      var before, e := Sequences(es[..|es| - 1]), es[|es| - 1];
      if Stale(before, e) then before else before[e.node := e.seqNo]
  }

  lemma {:induction false} SequencesAreMaxima(es: seq<Event>, n: NodeId)
    ensures forall j :: 0 <= j < |es| && es[j].node == n ==> es[j].seqNo <= LastSeq(Sequences(es), n)
    ensures LastSeq(Sequences(es), n) == 0
            || exists j :: 0 <= j < |es| && es[j].node == n && es[j].seqNo == LastSeq(Sequences(es), n)
  {
    if es != [] {
      var k := |es| - 1;
      SequencesAreMaxima(es[..k], n);
      assert forall j :: 0 <= j < k ==> es[..k][j] == es[j];
      if es[k].node == n && !Stale(Sequences(es[..k]), es[k]) {
        assert es[k].seqNo == LastSeq(Sequences(es), n);
      }
    }
  }

  /** For any input, an event is handled iff every earlier event of its node has a smaller
      number, numbers 0 not counting. */
  lemma FilterKeepsRecords(es: seq<Event>, i: nat)
    requires i < |es|
    ensures !Stale(Sequences(es[..i]), es[i]) <==>
            forall j :: 0 <= j < i && es[j].node == es[i].node ==> es[j].seqNo < es[i].seqNo || es[j].seqNo == 0
  {
    SequencesAreMaxima(es[..i], es[i].node);
    assert forall j :: 0 <= j < i ==> es[..i][j] == es[j];
  }
}
