/** Where a reopened stream goes on, and which events can come twice. */
module Resumption {
  import opened Basics
  import opened EventStream
  import opened MeshTypes

  // ----- resuming -----

  predicate KeepsLink(a: Action) {
    a.Append? || a.Push? || a.Process? || a.Recv?
  }

  /** Whatever happens between the dial and the opening of the stream, each node's stream starts
      at the number of its events that were handled at the dial: nothing handled by then is sent
      again, and nothing is left out. */
  lemma ResumesAtHandled(before: seq<Action>, between: seq<Action>, n: NodeId)
    requires Enabled(Run(before), Dial) && forall a :: a in between ==> KeepsLink(a)
    ensures var s := RunFrom(Step(Run(before), Dial), between);
            && Enabled(s, OpenStream(true))
            && Cursor(Apply(s, OpenStream(true)), n) == |Of(Run(before).handled, n)|
  {
    RunInv(before);
    assert ViewInv(View(Run(before), n), n);
    StepKeeps(Run(before), Dial);
    WhileRequested(Step(Run(before), Dial), between, n, |Of(Run(before).handled, n)|);
  }

  /** A stream was asked for after event `h` of the node's log. */
  ghost predicate AskedAfter(s: State, n: NodeId, h: nat) {
    s.link.Requested? && h <= |Log(s, n)| && LastSeq(s.link.lastSeen, n) == LogEnd(Log(s, n)[..h])
  }

  lemma {:induction false} WhileRequested(s: State, actions: seq<Action>, n: NodeId, h: nat)
    requires Inv(s) && AskedAfter(s, n, h) && forall a :: a in actions ==> KeepsLink(a)
    ensures var s' := RunFrom(s, actions);
            s'.link.Requested? && Cursor(Apply(s', OpenStream(true)), n) == h
    decreases |actions|
  {
    if actions == [] {
      assert ViewInv(View(s, n), n);
      ResumePoint(Log(s, n), n, h);
    } else {
      var a := actions[0];
      StepKeeps(s, a);
      assert a in actions && forall b :: b in actions[1..] ==> b in actions;
      StepAsked(s, a, n, h);
      WhileRequested(Step(s, a), actions[1..], n, h);
    }
  }

  lemma StepAsked(s: State, a: Action, n: NodeId, h: nat)
    requires AskedAfter(s, n, h) && KeepsLink(a)
    ensures AskedAfter(Step(s, a), n, h)
  {
    assert Log(Step(s, a), n)[..h] == Log(s, n)[..h];
  }

  // ----- duplicates come from overlapping connections only -----

  /** The oldest `m` events on their way are, node by node, the next ones of the log. */
  ghost predicate CleanPrefix(s: State, m: nat) {
    m <= |Pipeline(s)| && forall n :: NextOf(Log(s, n), |Of(s.handled, n)|, Of(Pipeline(s)[..m], n))
  }

  ghost predicate NextOf(log: seq<Event>, h: nat, q: seq<Event>) {
    h + |q| <= |log| && q == log[h..h + |q|]
  }

  /** The current connection, or the request for one, goes on where all that is on its way ends. */
  ghost predicate Seamless(s: State) {
    && CleanPrefix(s, |Pipeline(s)|)
    && (s.link.Requested? ==> Pipeline(s) == [] && s.link.lastSeen == s.nodeSequences)
    && (s.link.Up? ==> CursorsMeet(s))
  }

  ghost predicate CursorsMeet(s: State)
    requires s.link.Up?
  {
    forall n :: Cursor(s, n) == OnItsWay(s, n)
  }

  /** How far a node's events have come: those handled and those on their way. */
  function OnItsWay(s: State, n: NodeId): nat {
    |Of(s.handled, n)| + |Of(Pipeline(s), n)|
  }

  lemma WholePipeline(s: State)
    ensures Pipeline(s)[..|Pipeline(s)|] == Pipeline(s)
  {
  }

  lemma DialSeamless(s: State)
    requires Inv(s) && Enabled(s, Dial) && Pipeline(s) == []
    ensures Seamless(Apply(s, Dial))
  {
    forall n
      ensures NextOf(Log(s, n), |Of(s.handled, n)|, [])
    {
      assert ViewInv(View(s, n), n);
    }
    assert Pipeline(Apply(s, Dial)) == [];
  }

  lemma NextOfGrows(log: seq<Event>, more: seq<Event>, h: nat, q: seq<Event>)
    requires NextOf(log, h, q) && |log| <= |more| && more[..|log|] == log
    ensures NextOf(more, h, q)
  {
    assert more[h..h + |q|] == more[..|log|][h..h + |q|];
  }

  /** Appending to a log, and moving the received event into the channel, keep a clean prefix. */
  lemma StillClean(s: State, s': State, m: nat)
    requires CleanPrefix(s, m) && s'.handled == s.handled && m <= |Pipeline(s')|
    requires Pipeline(s')[..m] == Pipeline(s)[..m]
    requires LogsGrow(s, s')
    ensures CleanPrefix(s', m)
  {
    forall n
      ensures NextOf(Log(s', n), |Of(s'.handled, n)|, Of(Pipeline(s')[..m], n))
    {
      assert NextOf(Log(s, n), |Of(s.handled, n)|, Of(Pipeline(s)[..m], n));
      NextOfGrows(Log(s, n), Log(s', n), |Of(s.handled, n)|, Of(Pipeline(s)[..m], n));
    }
  }

  lemma CleanTail(log: seq<Event>, h: nat, p: seq<Event>, n: NodeId)
    requires p != [] && NextOf(log, h, Of(p, n))
    ensures if p[0].node == n then h < |log| && log[h] == p[0] && NextOf(log, h + 1, Of(p[1..], n))
            else NextOf(log, h, Of(p[1..], n))
  {
    OfHead(p, n);
    if p[0].node == n {
      var q := Of(p, n);
      assert q[0] == p[0] && q[1..] == Of(p[1..], n);
    } else {
      assert [] + Of(p[1..], n) == Of(p[1..], n);
    }
  }

  /** A clean event is not stale. */
  lemma CleanIsNew(s: State, m: nat)
    requires Inv(s) && s.eventCh != [] && m > 0 && CleanPrefix(s, m)
    ensures !Stale(s.nodeSequences, s.eventCh[0])
  {
    var e, p := s.eventCh[0], Pipeline(s)[..m];
    assert p[0] == e;
    assert NextOf(Log(s, e.node), |Of(s.handled, e.node)|, Of(p, e.node));
    CleanTail(Log(s, e.node), |Of(s.handled, e.node)|, p, e.node);
    assert ViewInv(View(s, e.node), e.node);
    NextIsNew(View(s, e.node), e.node, e);
  }

  /** Taking a clean event: it is the next of its node's log, so it is handled. */
  lemma CleanIsHandled(s: State, m: nat)
    requires Inv(s) && Enabled(s, Process) && m > 0 && CleanPrefix(s, m)
    ensures Apply(s, Process).skipped == s.skipped && Apply(s, Process).handled == s.handled + [s.eventCh[0]]
    ensures CleanPrefix(Apply(s, Process), m - 1)
  {
    var s', e, p := Apply(s, Process), s.eventCh[0], Pipeline(s)[..m];
    CleanIsNew(s, m);
    assert p[0] == e && p[1..] == Pipeline(s')[..m - 1];
    forall n
      ensures NextOf(Log(s', n), |Of(s'.handled, n)|, Of(Pipeline(s')[..m - 1], n))
    {
      assert NextOf(Log(s, n), |Of(s.handled, n)|, Of(p, n));
      CleanTail(Log(s, n), |Of(s.handled, n)|, p, n);
      OfSnoc(s.handled, e, n);
    }
  }

  lemma NextIsNew(v: NodeView, n: NodeId, e: Event)
    requires ViewInv(v, n) && |v.done| < |v.log| && e == v.log[|v.done|]
    ensures !(e.seqNo <= v.last && v.last > 0)
  {
  }

  /** What one step does to a clean prefix of length m: a step of the second goroutine takes one
      event of it, which is not skipped; a stop can drop the event in hand. */
  function CleanLeft(s: State, a: Action, m: nat): nat {
    if a.Process? && s.eventCh != [] && m > 0 then m - 1
    else if a.Stop? && !s.stopped && m > |s.eventCh| then |s.eventCh|
    else m
  }

  lemma CleanStep(s: State, a: Action, m: nat)
    requires Inv(s) && CleanPrefix(s, m)
    ensures CleanPrefix(Step(s, a), CleanLeft(s, a, m))
    ensures m > 0 ==> Step(s, a).skipped == s.skipped
  {
    if Enabled(s, a) {
      var s', m' := Apply(s, a), CleanLeft(s, a, m);
      if a.Process? {
        if m > 0 {
          CleanIsHandled(s, m);
        } else {
          StepKeeps(s, a);
          EmptyClean(s');
        }
      } else {
        FewerClean(s, m, m');
        OtherSteps(s, a, m');
        StillClean(s, s', m');
      }
    }
  }

  lemma EmptyClean(s: State)
    requires Inv(s)
    ensures CleanPrefix(s, 0)
  {
    forall n
      ensures NextOf(Log(s, n), |Of(s.handled, n)|, [])
    {
      assert ViewInv(View(s, n), n);
    }
    assert Pipeline(s)[..0] == [];
  }

  lemma NextOfPrefix(log: seq<Event>, h: nat, q: seq<Event>, more: seq<Event>)
    requires NextOf(log, h, q + more)
    ensures NextOf(log, h, q)
  {
    assert q == (q + more)[..|q|];
  }

  lemma FewerClean(s: State, m: nat, fewer: nat)
    requires CleanPrefix(s, m) && fewer <= m
    ensures CleanPrefix(s, fewer)
  {
    var p := Pipeline(s);
    assert p[..m] == p[..fewer] + p[fewer..m];
    forall n
      ensures NextOf(Log(s, n), |Of(s.handled, n)|, Of(p[..fewer], n))
    {
      OfConcat(p[..fewer], p[fewer..m], n);
      NextOfPrefix(Log(s, n), |Of(s.handled, n)|, Of(p[..fewer], n), Of(p[fewer..m], n));
    }
  }

  /** The logs of `s'` start as those of `s`. */
  ghost predicate LogsGrow(s: State, s': State) {
    forall n :: |Log(s, n)| <= |Log(s', n)| && Log(s', n)[..|Log(s, n)|] == Log(s, n)
  }

  lemma OtherSteps(s: State, a: Action, m: nat)
    requires Enabled(s, a) && !a.Process? && m <= |Pipeline(s)| && (a.Stop? ==> m <= |s.eventCh|)
    ensures var s' := Apply(s, a);
            && s'.handled == s.handled && s'.skipped == s.skipped && LogsGrow(s, s')
            && m <= |Pipeline(s')| && Pipeline(s')[..m] == Pipeline(s)[..m]
  {
  }

  /** A received event continues what is on its way. */
  lemma RecvSeamless(s: State, m: NodeId)
    requires Inv(s) && Seamless(s) && Enabled(s, Recv(m))
    ensures Seamless(Apply(s, Recv(m)))
  {
    var s' := Apply(s, Recv(m));
    WholePipeline(s);
    WholePipeline(s');
    forall n
      ensures NextOf(Log(s', n), |Of(s'.handled, n)|, Of(Pipeline(s'), n)) && Cursor(s', n) == OnItsWay(s', n)
    {
      assert ViewInv(View(s, m), m);
      assert NextOf(Log(s, n), |Of(s.handled, n)|, Of(Pipeline(s), n)) && Cursor(s, n) == OnItsWay(s, n);
      RecvOne(s, m, n);
    }
  }

  lemma RecvOne(s: State, m: NodeId, n: NodeId)
    requires Enabled(s, Recv(m)) && Log(s, m)[Cursor(s, m)].node == m
    requires NextOf(Log(s, n), |Of(s.handled, n)|, Of(Pipeline(s), n)) && Cursor(s, n) == OnItsWay(s, n)
    ensures var s' := Apply(s, Recv(m));
            NextOf(Log(s', n), |Of(s'.handled, n)|, Of(Pipeline(s'), n)) && Cursor(s', n) == OnItsWay(s', n)
  {
    RecvView(s, m, n);
    if n == m {
      NextOfSnoc(Log(s, n), |Of(s.handled, n)|, Of(Pipeline(s), n));
    }
  }

  lemma NextOfSnoc(log: seq<Event>, h: nat, q: seq<Event>)
    requires NextOf(log, h, q) && h + |q| < |log|
    ensures NextOf(log, h, q + [log[h + |q|]])
  {
  }

  lemma OpenSeamless(s: State, ok: bool)
    requires Inv(s) && Seamless(s) && Enabled(s, OpenStream(ok))
    ensures Seamless(Apply(s, OpenStream(ok)))
  {
    var s' := Apply(s, OpenStream(ok));
    WholePipeline(s);
    assert Pipeline(s') == Pipeline(s) == [];
    EmptyClean(s);
    StillClean(s, s', 0);
    if ok {
      forall n
        ensures Cursor(s', n) == OnItsWay(s', n)
      {
        assert ViewInv(View(s, n), n);
        ResumePoint(Log(s, n), n, |Of(s.handled, n)|);
      }
    }
  }

  lemma ProcessFacts(s: State)
    requires Enabled(s, Process)
    ensures Pipeline(s) == [s.eventCh[0]] + Pipeline(Apply(s, Process))
    ensures Apply(s, Process).link == s.link
  {
  }

  lemma ProcessSeamless(s: State)
    requires Inv(s) && Seamless(s) && Enabled(s, Process)
    ensures Seamless(Apply(s, Process)) && Apply(s, Process).skipped == s.skipped
  {
    var s' := Apply(s, Process);
    ProcessFacts(s);
    assert CleanPrefix(s', |Pipeline(s')|) && s'.skipped == s.skipped && s'.handled == s.handled + [s.eventCh[0]] by {
      CleanIsHandled(s, |Pipeline(s)|);
    }
    assert s'.link.Up? ==> CursorsMeet(s') by {
      if s.link.Up? {
        ProcessCursors(s);
      }
    }
  }

  lemma ProcessCursors(s: State)
    requires Enabled(s, Process) && s.link.Up? && CursorsMeet(s)
    requires Apply(s, Process).handled == s.handled + [s.eventCh[0]]
    ensures CursorsMeet(Apply(s, Process))
  {
    var s' := Apply(s, Process);
    ProcessFacts(s);
    forall n
      ensures Cursor(s', n) == OnItsWay(s', n)
    {
      HeadMoves(Pipeline(s), s.handled, n);
      assert Cursor(s, n) == OnItsWay(s, n);
    }
  }

  lemma HeadMoves(p: seq<Event>, handled: seq<Event>, n: NodeId)
    requires p != []
    ensures |Of(handled + [p[0]], n)| + |Of(p[1..], n)| == |Of(handled, n)| + |Of(p, n)|
  {
    OfHead(p, n);
    OfSnoc(handled, p[0], n);
  }

  /** Until the next dial, the connection stays seamless and nothing is skipped. */
  lemma SeamlessStep(s: State, a: Action)
    requires Inv(s) && Seamless(s) && !a.Dial?
    ensures Seamless(Step(s, a)) && Step(s, a).skipped == s.skipped
  {
    if Enabled(s, a) {
      match a
      case Recv(n) => RecvSeamless(s, n);
      case OpenStream(ok) => OpenSeamless(s, ok);
      case Process => ProcessSeamless(s);
      case _ => OtherSeamless(s, a);
    }
  }

  lemma OtherSeamless(s: State, a: Action)
    requires Inv(s) && Seamless(s) && Enabled(s, a) && (a.Append? || a.Push? || a.StreamError? || a.Stop?)
    ensures Seamless(Apply(s, a)) && Apply(s, a).skipped == s.skipped
  {
    var s' := Apply(s, a);
    var m := |Pipeline(s')|;
    FewerClean(s, |Pipeline(s)|, m);
    OtherSteps(s, a, m);
    StillClean(s, s', m);
    if s'.link.Up? {
      OtherCursors(s, a);
    }
  }

  lemma OtherCursors(s: State, a: Action)
    requires Enabled(s, a) && (a.Append? || a.Push?) && s.link.Up? && CursorsMeet(s)
    ensures CursorsMeet(Apply(s, a))
  {
    var s' := Apply(s, a);
    assert Pipeline(s') == Pipeline(s);
    forall n
      ensures Cursor(s', n) == OnItsWay(s', n)
    {
      assert Cursor(s, n) == OnItsWay(s, n);
    }
  }

  lemma {:induction false} SeamlessRun(s: State, actions: seq<Action>)
    requires Inv(s) && Seamless(s) && forall a :: a in actions ==> !a.Dial?
    ensures var s' := RunFrom(s, actions);
            Inv(s') && Seamless(s') && s'.skipped == s.skipped
    decreases |actions|
  {
    if actions != [] {
      assert actions[0] in actions && forall b :: b in actions[1..] ==> b in actions;
      StepKeeps(s, actions[0]);
      SeamlessStep(s, actions[0]);
      SeamlessRun(Step(s, actions[0]), actions[1..]);
    }
  }

  function Taken(s: State): nat { |s.handled| + |s.skipped| }

  /** Everything on its way is clean, or at least what completes `total` processed events. */
  ghost predicate CleanUpTo(s: State, total: nat, m: nat) {
    && CleanPrefix(s, m)
    && (Taken(s) + m >= total || (s.stopped && m == |Pipeline(s)|))
  }

  lemma CleanUpToStep(s: State, a: Action, total: nat, m: nat)
    requires Inv(s) && CleanUpTo(s, total, m)
    ensures CleanUpTo(Step(s, a), total, CleanLeft(s, a, m))
    ensures Taken(s) <= Taken(Step(s, a))
    ensures Taken(Step(s, a)) <= total ==> Step(s, a).skipped == s.skipped
  {
    CleanStep(s, a, m);
    TakenStep(s, a);
  }

  /** How many events a step takes from the channel, and what it can add to the skipped. */
  lemma TakenStep(s: State, a: Action)
    ensures Taken(Step(s, a)) == Taken(s) + (if a.Process? && s.eventCh != [] then 1 else 0)
    ensures !(a.Process? && s.eventCh != []) ==> Step(s, a).skipped == s.skipped
  {
  }

  lemma {:induction false} CleanRun(s: State, actions: seq<Action>, total: nat, m: nat)
    requires Inv(s) && CleanUpTo(s, total, m)
    ensures Taken(s) <= Taken(RunFrom(s, actions))
    ensures Taken(RunFrom(s, actions)) <= total ==> RunFrom(s, actions).skipped == s.skipped
    decreases |actions|
  {
    if actions != [] {
      var s', m' := Step(s, actions[0]), CleanLeft(s, actions[0], m);
      assert Inv(s') && CleanUpTo(s', total, m') && Taken(s) <= Taken(s') by {
        StepKeeps(s, actions[0]);
        CleanUpToStep(s, actions[0], total, m);
      }
      CleanUpToStep(s, actions[0], total, m);
      CleanRun(s', actions[1..], total, m');
    }
  }

  /** Duplicates come from overlapping connections only: when a dial finds nothing on its way,
      no event received before the next dial is ever skipped. Whatever follows that dial, as long
      as no more events are processed than had been by then or were on their way, none of the
      skipped ones is new. */
  lemma CleanDialSkipsNothing(before: seq<Action>, first: seq<Action>, rest: seq<Action>)
    requires Enabled(Run(before), Dial) && Pipeline(Run(before)) == []
    requires forall a :: a in first ==> !a.Dial?
    ensures var s := RunFrom(Step(Run(before), Dial), first);
            var t := RunFrom(s, rest);
            && s.skipped == Run(before).skipped
            && (Taken(t) <= Taken(s) + |Pipeline(s)| ==> t.skipped == s.skipped)
  {
    RunInv(before);
    StepKeeps(Run(before), Dial);
    DialSeamless(Run(before));
    SeamlessRun(Step(Run(before), Dial), first);
    var s := RunFrom(Step(Run(before), Dial), first);
    CleanRun(s, rest, Taken(s) + |Pipeline(s)|, |Pipeline(s)|);
  }
}
