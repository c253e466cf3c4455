/** Channels: binding as initiator or listener, and which connections are open. The effects of
    a bind are kept as a trace of dials, closes and waits. */
module Channel {
  import opened Basics

  type ChannelId = string

  const SWITCHING_PROTOCOLS := 101
  const SERVICE_UNAVAILABLE := 503
  const MAX_ATTEMPTS := 10

  datatype Effect = Dial(conn: nat) | Close(conn: nat) | Wait(seconds: real)

  /** How one upgrade attempt goes. While waiting after a 503 the context may be cancelled,
      some seconds into the wait. */
  datatype AttemptIo =
    | DialFails
    | RequestFails
    | WriteFails
    | ReadFails
    | Answer(status: int, cancelledAfter: Option<real>)

  type Script = nat -> AttemptIo  // what happens at each attempt, counted from 1

  datatype Active =
    | Initiator(conn: nat, localAddr: string)
    | Listener(conn: nat)  // the session runs over the connection and closes it

  // ----- what an initiator's retries do -----

  /** The wait in seconds after an attempt: doubling from two, at most sixteen. */
  function Backoff(attempt: nat): (r: real)
    requires attempt >= 1
    ensures 2.0 <= r <= 16.0
  {
    if attempt == 1 then 2.0 else NextBackoff(Backoff(attempt - 1))
  }

  /** 2, 4, 8 seconds, and 16 from the fourth attempt on. */
  lemma {:induction false} BackoffIs(attempt: nat)
    requires attempt >= 1
    ensures Backoff(attempt) == if attempt == 1 then 2.0 else if attempt == 2 then 4.0
                                else if attempt == 3 then 8.0 else 16.0
  {
    if attempt > 1 {
      BackoffIs(attempt - 1);
    }
  }

  /** A 503 before the tenth attempt is waited for in full, or until the cancellation; nothing
      else is. */
  lemma PauseIs(a: AttemptIo, attempt: nat)
    requires attempt >= 1
    requires a.Answer? && a.cancelledAfter.Some? ==> 0.0 <= a.cancelledAfter.value <= Backoff(attempt)
    ensures PauseTrace(a, attempt) ==
            if a.Answer? && a.status == 503 && attempt != 10 then
              [Wait(if a.cancelledAfter.Some? then a.cancelledAfter.value else Backoff(attempt))]
            else []
  {
  }

  function NextBackoff(backoff: real): real { if 2.0 * backoff <= 16.0 then 2.0 * backoff else 16.0 }

  predicate Upgraded(io: AttemptIo) { io.Answer? && io.status == SWITCHING_PROTOCOLS }

  /** The listener is not there yet and the wait runs its course. */
  predicate NotReady(io: AttemptIo) { io.Answer? && io.status == SERVICE_UNAVAILABLE && io.cancelledAfter.None? }

  function Clamp(t: real, upper: real): real
  {
    if t < 0.0 then 0.0 else if t > upper then upper else t
  }

  /** The effects of one attempt, without the wait after it. */
  function OnceTrace(a: AttemptIo, conn: nat): seq<Effect> {
    if a.DialFails? then []
    else if Upgraded(a) then [Dial(conn)]
    else [Dial(conn), Close(conn)]
  }

  /** The wait after an attempt: a full one, one cut short, or none. */
  function PauseTrace(a: AttemptIo, attempt: nat): seq<Effect>
    requires attempt >= 1
  {
    if attempt == MAX_ATTEMPTS || !a.Answer? || a.status != SERVICE_UNAVAILABLE then []
    else if a.cancelledAfter.Some? then [Wait(Clamp(a.cancelledAfter.value, Backoff(attempt)))]
    else [Wait(Backoff(attempt))]
  }

  /** Everything an attempt does. */
  function AttemptTrace(a: AttemptIo, attempt: nat, conn: nat): seq<Effect>
    requires attempt >= 1
  {
    OnceTrace(a, conn) + PauseTrace(a, attempt)
  }

  /** The effects from the given attempt on, where the next connection dialled gets number conn. */
  function Retries(io: Script, attempt: nat, conn: nat): seq<Effect>
    requires 1 <= attempt <= MAX_ATTEMPTS
    decreases MAX_ATTEMPTS - attempt, conn
  {
    var once := AttemptTrace(io(attempt), attempt, conn);
    if attempt < MAX_ATTEMPTS && NotReady(io(attempt)) then once + Retries(io, attempt + 1, conn + 1) else once
  }

  /** Attempt k is the first not answered by a full wait, and it is upgraded. */
  predicate ConnectsAt(io: Script, k: nat) {
    1 <= k <= MAX_ATTEMPTS && Upgraded(io(k)) && NotReadyBefore(io, k)
  }

  predicate NotReadyBefore(io: Script, k: nat) { forall j :: 1 <= j < k ==> NotReady(io(j)) }

  ghost predicate Connects(io: Script) { exists k: nat :: ConnectsAt(io, k) }

  /** An initiator connects iff one of its ten attempts is answered with 101 after nothing but
      503s waited for in full. */
  lemma ConnectsExactly(io: Script)
    ensures Connects(io) <==>
            exists k: nat :: 1 <= k <= 10 && AnswersWith(io, k, 101) && forall j :: 1 <= j < k ==> WaitsFully(io, j)
  {
    if Connects(io) {
      var k: nat :| ConnectsAt(io, k);
      assert AnswersWith(io, k, 101) && forall j :: 1 <= j < k ==> NotReady(io(j)) && WaitsFully(io, j);
    }
    if k: nat :| 1 <= k <= 10 && AnswersWith(io, k, 101) && forall j :: 1 <= j < k ==> WaitsFully(io, j) {
      forall j | 1 <= j < k
        ensures NotReady(io(j))
      {
        assert WaitsFully(io, j);
      }
      assert ConnectsAt(io, k);
    }
  }

  predicate AnswersWith(io: Script, k: nat, status: int) {
    io(k).Answer? && io(k).status == status
  }

  predicate WaitsFully(io: Script, j: nat) {
    io(j) == Answer(503, None)
  }

  // ----- what a trace leaves open, waits and dials -----

  function After(open: set<nat>, e: Effect): set<nat> {
    match e
    case Dial(c) => open + {c}
    case Close(c) => open - {c}
    case Wait(_) => open
  }

  function OpenAfter(open: set<nat>, trace: seq<Effect>): set<nat>
    decreases |trace|
  {
    if |trace| == 0 then open else OpenAfter(After(open, trace[0]), trace[1..])
  }

  function Dials(trace: seq<Effect>): nat {
    if trace == [] then 0 else (if trace[0].Dial? then 1 else 0) + Dials(trace[1..])
  }

  function Waited(trace: seq<Effect>): real {
    if trace == [] then 0.0 else (if trace[0].Wait? then trace[0].seconds else 0.0) + Waited(trace[1..])
  }

  lemma {:induction false} OpenAfterConcat(open: set<nat>, s: seq<Effect>, t: seq<Effect>)
    ensures OpenAfter(open, s + t) == OpenAfter(OpenAfter(open, s), t)
    decreases |s|
  {
    if s == [] {
      assert s + t == t;
    } else {
      assert (s + t)[1..] == s[1..] + t;
      OpenAfterConcat(After(open, s[0]), s[1..], t);
    }
  }

  lemma Head(open: set<nat>, e: Effect, t: seq<Effect>)
    ensures OpenAfter(open, [e] + t) == OpenAfter(After(open, e), t)
    ensures Dials([e] + t) == (if e.Dial? then 1 else 0) + Dials(t)
    ensures Waited([e] + t) == (if e.Wait? then e.seconds else 0.0) + Waited(t)
  {
    assert ([e] + t)[1..] == t;
  }

  lemma DialClose(open: set<nat>, conn: nat, rest: seq<Effect>)
    requires conn !in open
    ensures var all := [Dial(conn)] + ([Close(conn)] + rest);
            && OpenAfter(open, all) == OpenAfter(open, rest)
            && Dials(all) == 1 + Dials(rest) && Waited(all) == Waited(rest)
  {
    Head(open, Dial(conn), [Close(conn)] + rest);
    Head(open + {conn}, Close(conn), rest);
    assert open + {conn} - {conn} == open;
  }

  /** A dial, its close, and a wait after it. */
  lemma Attempt(open: set<nat>, conn: nat, wait: real, rest: seq<Effect>)
    requires conn !in open
    ensures var all := [Dial(conn), Close(conn), Wait(wait)] + rest;
            && OpenAfter(open, all) == OpenAfter(open, rest)
            && Dials(all) == 1 + Dials(rest) && Waited(all) == wait + Waited(rest)
  {
    DialClose(open, conn, [Wait(wait)] + rest);
    Head(open, Wait(wait), rest);
    assert [Dial(conn), Close(conn), Wait(wait)] + rest == [Dial(conn)] + ([Close(conn)] + ([Wait(wait)] + rest));
  }

  /** A dial, alone or with its close. */
  lemma LastAttempt(open: set<nat>, conn: nat)
    requires conn !in open
    ensures OpenAfter(open, [Dial(conn)]) == open + {conn} && OpenAfter(open, [Dial(conn), Close(conn)]) == open
    ensures Dials([Dial(conn)]) == 1 && Dials([Dial(conn), Close(conn)]) == 1
    ensures Waited([Dial(conn)]) == 0.0 && Waited([Dial(conn), Close(conn)]) == 0.0
  {
    assert [Dial(conn)] + [] == [Dial(conn)] && [Close(conn)] + [] == [Close(conn)];
    assert [Dial(conn), Close(conn)] == [Dial(conn)] + [Close(conn)];
    Head(open, Dial(conn), []);
    Head(open, Dial(conn), [Close(conn)]);
    Head(open + {conn}, Close(conn), []);
    assert open + {conn} - {conn} == open;
  }

  /** The four ways an attempt shapes the trace. */
  lemma RetriesCases(io: Script, attempt: nat, conn: nat)
    requires 1 <= attempt <= MAX_ATTEMPTS
    ensures var t := Retries(io, attempt, conn);
            if attempt < MAX_ATTEMPTS && NotReady(io(attempt))
            then t == [Dial(conn), Close(conn), Wait(Backoff(attempt))] + Retries(io, attempt + 1, conn + 1)
            else || t == [] || t == [Dial(conn), Close(conn)] || (Upgraded(io(attempt)) && t == [Dial(conn)])
                 || CutShort(t, attempt, conn)
  {
    assert [Dial(conn), Close(conn)] + [] == [Dial(conn), Close(conn)];
    assert [Dial(conn), Close(conn)] + [Wait(Backoff(attempt))] == [Dial(conn), Close(conn), Wait(Backoff(attempt))];
  }

  predicate CutShort(t: seq<Effect>, attempt: nat, conn: nat)
    requires 1 <= attempt
  {
    && attempt < MAX_ATTEMPTS
    && |t| == 3 && t[2].Wait? && t == [Dial(conn), Close(conn), t[2]] && 0.0 <= t[2].seconds <= Backoff(attempt)
  }

  /** The backoff of every wait still possible. */
  function BackoffLeft(attempt: nat): real
    requires 1 <= attempt <= MAX_ATTEMPTS
    decreases MAX_ATTEMPTS - attempt
  {
    if attempt == MAX_ATTEMPTS then 0.0 else Backoff(attempt) + BackoffLeft(attempt + 1)
  }

  lemma BackoffLeftAtStart()
    ensures BackoffLeft(1) == 110.0
  {
    assert Backoff(4) == 16.0;
    assert Backoff(7) == Backoff(8) == Backoff(9) == 16.0;
    assert BackoffLeft(7) == 48.0;
    assert BackoffLeft(4) == 96.0;
  }

  lemma {:induction false} RetryBoundsFrom(io: Script, attempt: nat, conn: nat)
    requires 1 <= attempt <= MAX_ATTEMPTS
    ensures Dials(Retries(io, attempt, conn)) <= MAX_ATTEMPTS + 1 - attempt
    ensures Waited(Retries(io, attempt, conn)) <= BackoffLeft(attempt)
    decreases MAX_ATTEMPTS - attempt
  {
    RetriesCases(io, attempt, conn);
    if attempt < MAX_ATTEMPTS && NotReady(io(attempt)) {
      Attempt({}, conn, Backoff(attempt), Retries(io, attempt + 1, conn + 1));
      RetryBoundsFrom(io, attempt + 1, conn + 1);
    } else {
      LeftNonnegative(attempt);
      LastTotals(Retries(io, attempt, conn), attempt, conn);
    }
  }

  /** An attempt without a full wait after it dials at most once and waits at most its backoff. */
  lemma LastTotals(t: seq<Effect>, attempt: nat, conn: nat)
    requires 1 <= attempt <= MAX_ATTEMPTS
    requires t == [] || t == [Dial(conn), Close(conn)] || t == [Dial(conn)] || CutShort(t, attempt, conn)
    ensures Dials(t) <= 1 && Waited(t) <= BackoffLeft(attempt)
  {
    LeftNonnegative(attempt);
    LastAttempt({}, conn);
    if |t| == 3 {
      LeftNonnegative(attempt + 1);
      Attempt({}, conn, t[2].seconds, []);
      assert [Dial(conn), Close(conn), t[2]] + [] == t;
    }
  }

  lemma {:induction false} LeftNonnegative(attempt: nat)
    requires 1 <= attempt <= MAX_ATTEMPTS
    ensures BackoffLeft(attempt) >= 0.0
    decreases MAX_ATTEMPTS - attempt
  {
    if attempt < MAX_ATTEMPTS {
      LeftNonnegative(attempt + 1);
    }
  }

  /** However the attempts go, an initiator dials at most ten times and waits at most 110
      seconds between attempts. */
  lemma RetryBounds(io: Script, conn: nat)
    ensures Dials(Retries(io, 1, conn)) <= 10
    ensures Waited(Retries(io, 1, conn)) <= 110.0
  {
    RetryBoundsFrom(io, 1, conn);
    BackoffLeftAtStart();
  }

  /** Both bounds are met by a listener that appears just in time for the last attempt, and by
      one that never appears. */
  lemma {:induction false} RetryBoundsTight(io: Script, attempt: nat, conn: nat)
    requires 1 <= attempt <= MAX_ATTEMPTS
    requires forall j :: attempt <= j < MAX_ATTEMPTS ==> NotReady(io(j))
    requires !io(MAX_ATTEMPTS).DialFails?
    ensures Dials(Retries(io, attempt, conn)) == MAX_ATTEMPTS + 1 - attempt
    ensures Waited(Retries(io, attempt, conn)) == BackoffLeft(attempt)
    decreases MAX_ATTEMPTS - attempt
  {
    if attempt < MAX_ATTEMPTS {
      RetriesCases(io, attempt, conn);
      Attempt({}, conn, Backoff(attempt), Retries(io, attempt + 1, conn + 1));
      RetryBoundsTight(io, attempt + 1, conn + 1);
    } else {
      LastAttempt({}, conn);
    }
  }

  /** No connection of this bind is open, or exactly one. */
  ghost predicate AtMostOneMore(open: set<nat>, now: set<nat>, conn: nat) {
    now == open || exists c :: c >= conn && now == open + {c}
  }

  /** The prefixes of a dial, its close and a wait, and of what follows them. */
  lemma AttemptPrefix(open: set<nat>, conn: nat, p: seq<Effect>)
    requires conn !in open && p != [] && p[0] == Dial(conn)
    requires |p| >= 2 ==> p[1] == Close(conn)
    requires |p| >= 3 ==> p[2].Wait?
    ensures |p| == 1 ==> OpenAfter(open, p) == open + {conn}
    ensures |p| == 2 ==> OpenAfter(open, p) == open
    ensures |p| >= 3 ==> OpenAfter(open, p) == OpenAfter(open, p[3..])
  {
    LastAttempt(open, conn);
    if |p| >= 3 {
      Attempt(open, conn, p[2].seconds, p[3..]);
      assert p == [Dial(conn), Close(conn), Wait(p[2].seconds)] + p[3..];
    } else {
      assert p == [Dial(conn)] || p == [Dial(conn), Close(conn)];
    }
  }

  /** What a prefix of the effects looks like, and what of it belongs to later attempts. */
  lemma RetriesPrefix(io: Script, attempt: nat, conn: nat, n: nat)
    requires 1 <= attempt <= MAX_ATTEMPTS && 1 <= n <= |Retries(io, attempt, conn)|
    ensures var p := Retries(io, attempt, conn)[..n];
            && p[0] == Dial(conn)
            && (n >= 2 ==> p[1] == Close(conn))
            && (n >= 3 ==> p[2].Wait?)
            && (n > 3 ==> attempt < MAX_ATTEMPTS && n - 3 <= |Retries(io, attempt + 1, conn + 1)|
                          && p[3..] == Retries(io, attempt + 1, conn + 1)[..n - 3])
  {
    RetriesCases(io, attempt, conn);
  }

  /** After every effect, at most one connection dialled by this bind is open. */
  lemma {:induction false} OneAtATime(io: Script, attempt: nat, conn: nat, open: set<nat>, n: nat)
    requires 1 <= attempt <= MAX_ATTEMPTS
    requires forall c :: c in open ==> c < conn
    requires n <= |Retries(io, attempt, conn)|
    ensures AtMostOneMore(open, OpenAfter(open, Retries(io, attempt, conn)[..n]), conn)
    decreases MAX_ATTEMPTS - attempt
  {
    if n >= 1 {
      RetriesPrefix(io, attempt, conn, n);
      AttemptPrefix(open, conn, Retries(io, attempt, conn)[..n]);
      if n > 3 {
        OneAtATime(io, attempt + 1, conn + 1, open, n - 3);
      }
    }
  }

  lemma ConnectsLater(io: Script, attempt: nat, k: nat)
    requires ConnectsAt(io, k) && 1 <= attempt <= MAX_ATTEMPTS
    requires NotReadyBefore(io, attempt)
    ensures attempt <= k && (attempt < k ==> NotReady(io(attempt)) && !Upgraded(io(attempt)))
  {
    assert k < attempt ==> NotReady(io(k));
  }

  /** The whole trace leaves open what was open before, and one connection more exactly when
      some attempt is upgraded after nothing but full waits. */
  lemma {:induction false} EndsOpenIffConnects(io: Script, attempt: nat, conn: nat, open: set<nat>)
    requires 1 <= attempt <= MAX_ATTEMPTS
    requires forall c :: c in open ==> c < conn
    requires NotReadyBefore(io, attempt)
    ensures forall k: nat :: ConnectsAt(io, k) ==> k >= attempt
    ensures forall k: nat :: ConnectsAt(io, k) ==>
              OpenAfter(open, Retries(io, attempt, conn)) == open + {conn + (k - attempt)}
    ensures !Connects(io) ==> OpenAfter(open, Retries(io, attempt, conn)) == open
    decreases MAX_ATTEMPTS - attempt
  {
    forall k: nat | ConnectsAt(io, k)
      ensures k >= attempt && (attempt < k ==> NotReady(io(attempt)))
    {
      ConnectsLater(io, attempt, k);
    }
    RetriesCases(io, attempt, conn);
    LastAttempt(open, conn);
    if attempt < MAX_ATTEMPTS && NotReady(io(attempt)) {
      Attempt(open, conn, Backoff(attempt), Retries(io, attempt + 1, conn + 1));
      EndsOpenIffConnects(io, attempt + 1, conn + 1, open);
    } else if Upgraded(io(attempt)) {
      assert ConnectsAt(io, attempt);
    } else if |Retries(io, attempt, conn)| == 3 {
      var wait := Retries(io, attempt, conn)[2];
      Attempt(open, conn, wait.seconds, []);
      assert [Dial(conn), Close(conn), wait] + [] == [Dial(conn), Close(conn), wait];
    }
  }

  /** An attempt after full waits only that is neither upgraded nor followed by a full wait ends
      the bind without a connection. */
  lemma GivesUp(io: Script, attempt: nat)
    requires 1 <= attempt <= MAX_ATTEMPTS && !Upgraded(io(attempt))
    requires NotReadyBefore(io, attempt)
    requires NotReady(io(attempt)) ==> attempt == MAX_ATTEMPTS
    ensures !Connects(io)
  {
    forall k: nat | ConnectsAt(io, k)
      ensures false
    {
      ConnectsLater(io, attempt, k);
    }
  }

  function BusyTrace(attempt: nat, conn: nat): seq<Effect>
    requires attempt >= 1
  {
    [Dial(conn), Close(conn), Wait(Backoff(attempt))]
  }

  /** The effects of the attempts before the given one, when each ran into a full wait. */
  function Before(attempt: nat, conn: nat): seq<Effect>
    requires attempt >= 1
  {
    if attempt == 1 then [] else Before(attempt - 1, conn) + BusyTrace(attempt - 1, conn + attempt - 2)
  }

  lemma BusyThenLeft(io: Script, attempt: nat, conn: nat)
    requires 1 <= attempt < MAX_ATTEMPTS && NotReady(io(attempt))
    ensures Retries(io, attempt, conn) == BusyTrace(attempt, conn) + Retries(io, attempt + 1, conn + 1)
  {
    RetriesCases(io, attempt, conn);
  }

  lemma Associates(a: seq<Effect>, b: seq<Effect>, c: seq<Effect>)
    ensures (a + b) + c == a + (b + c)
  {
  }

  /** What was done and what is left make up the whole. */
  lemma {:induction false} BeforeAndLeft(io: Script, attempt: nat, conn: nat)
    requires 1 <= attempt <= MAX_ATTEMPTS && NotReadyBefore(io, attempt)
    ensures Before(attempt, conn) + Retries(io, attempt, conn + attempt - 1) == Retries(io, 1, conn)
  {
    if attempt > 1 {
      var k, c := attempt - 1, conn + attempt - 2;
      var before, busy, left := Before(k, conn), BusyTrace(k, c), Retries(io, attempt, c + 1);
      assert before + (busy + left) == Retries(io, 1, conn) by {
        BeforeAndLeft(io, k, conn);
        BusyThenLeft(io, k, c);
      }
      assert Before(attempt, conn) == before + busy;
      Associates(before, busy, left);
    } else {
      assert [] + Retries(io, 1, conn) == Retries(io, 1, conn);
    }
  }

  lemma BusyAppended(io: Script, was: seq<Effect>, attempt: nat, conn: nat)
    requires 1 <= attempt < MAX_ATTEMPTS && NotReady(io(attempt))
    ensures was + Before(attempt, conn) + AttemptTrace(io(attempt), attempt, conn + attempt - 1)
         == was + Before(attempt + 1, conn)
  {
    var b, t := Before(attempt, conn), AttemptTrace(io(attempt), attempt, conn + attempt - 1);
    assert t == BusyTrace(attempt, conn + attempt - 1);
    assert was + b + t == was + (b + t);
  }

  /** The attempt that connects. */
  ghost function ConnectingAttempt(io: Script): (k: nat)
    requires Connects(io)
    ensures ConnectsAt(io, k)
    ensures forall j: nat :: ConnectsAt(io, j) ==> j == k
  {
    var k: nat :| ConnectsAt(io, k);
    assert forall j: nat :: ConnectsAt(io, j) && j < k ==> NotReady(io(j));
    assert forall j: nat :: ConnectsAt(io, j) && k < j ==> NotReady(io(k));
    k
  }

  /** The connection the bind ends up with, if any. */
  ghost function UpgradedConn(io: Script, conn: nat): (c: Option<nat>)
    ensures c.Some? <==> Connects(io)
    ensures c.Some? ==> c.value >= conn
  {
    if Connects(io) then Some(conn + ConnectingAttempt(io) - 1) else None
  }

  /** Once an attempt is not followed by another, what was done is the whole. */
  lemma LastTrace(io: Script, attempt: nat, conn: nat, was: seq<Effect>)
    requires 1 <= attempt <= MAX_ATTEMPTS && NotReadyBefore(io, attempt)
    requires NotReady(io(attempt)) ==> attempt == MAX_ATTEMPTS
    ensures was + Before(attempt, conn) + AttemptTrace(io(attempt), attempt, conn + attempt - 1)
         == was + Retries(io, 1, conn)
  {
    BeforeAndLeft(io, attempt, conn);
    Associates(was, Before(attempt, conn), AttemptTrace(io(attempt), attempt, conn + attempt - 1));
  }

  lemma LastConn(io: Script, attempt: nat, conn: nat)
    requires 1 <= attempt <= MAX_ATTEMPTS && NotReadyBefore(io, attempt)
    requires NotReady(io(attempt)) ==> attempt == MAX_ATTEMPTS
    ensures UpgradedConn(io, conn) == if Upgraded(io(attempt)) then Some(conn + attempt - 1) else None
  {
    if Upgraded(io(attempt)) {
      assert ConnectsAt(io, attempt);
    } else {
      GivesUp(io, attempt);
    }
  }

  // ----- the provider -----

  /** Whether an initiator bind is to dial at all. */
  predicate Proceeds(bound: bool, grant: string, tlsOk: bool) { grant != "" && !bound && tlsOk }

  /** The effects of an initiator bind: its attempts and, when no local relay listener can be
      opened, the close of the connection it got. */
  ghost function InitiatorTrace(proceeds: bool, io: Script, listenOk: bool, conn: nat): seq<Effect> {
    if !proceeds then []
    else if Connects(io) && !listenOk then Retries(io, 1, conn) + [Close(UpgradedConn(io, conn).value)]
    else Retries(io, 1, conn)
  }

  /** Every open connection belongs to one active channel; nothing else is open. A relay that
      ends closes its connection and leaves the channel active. */
  ghost predicate Accounts(active: map<ChannelId, Active>, open: set<nat>, dialled: nat) {
    && (forall c :: c in open ==> c < dialled && exists id :: id in active && active[id].conn == c)
    && (forall id :: id in active ==> active[id].conn < dialled)
    && (forall i, j :: i in active && j in active && active[i].conn == active[j].conn ==> i == j)
  }

  lemma AccountsWith(active: map<ChannelId, Active>, open: set<nat>, dialled: nat, id: ChannelId, ch: Active,
                     dialled': nat)
    requires Accounts(active, open, dialled) && id !in active && dialled <= ch.conn < dialled'
    ensures Accounts(active[id := ch], open + {ch.conn}, dialled')
  {
    var more := active[id := ch];
    forall c | c in open + {ch.conn}
      ensures c < dialled' && exists j :: j in more && more[j].conn == c
    {
      if c == ch.conn {
        assert id in more;
      } else {
        var j :| j in active && active[j].conn == c;
        assert j in more;
      }
    }
  }

  lemma AccountsWithout(active: map<ChannelId, Active>, open: set<nat>, dialled: nat, id: ChannelId)
    requires Accounts(active, open, dialled) && id in active
    ensures Accounts(active - {id}, open - {active[id].conn}, dialled)
  {
    var rest := active - {id};
    forall c | c in open - {active[id].conn}
      ensures c < dialled && exists j :: j in rest && rest[j].conn == c
    {
      var j :| j in active && active[j].conn == c;
      assert j in rest;
    }
  }

  /** One initiator channel was added, and its connection, not open before, is open. */
  predicate Recorded(active: map<ChannelId, Active>, open: set<nat>, active': map<ChannelId, Active>, open': set<nat>,
                     id: ChannelId, localAddr: string) {
    && id in active' && active' == active[id := Initiator(active'[id].conn, localAddr)]
    && active'[id].conn !in open && open' == open + {active'[id].conn}
  }

  lemma {:induction false} TotalsConcat(s: seq<Effect>, t: seq<Effect>)
    ensures Dials(s + t) == Dials(s) + Dials(t) && Waited(s + t) == Waited(s) + Waited(t)
  {
    if s == [] {
      assert s + t == t;
    } else {
      assert (s + t)[1..] == s[1..] + t;
      TotalsConcat(s[1..], t);
    }
  }

  /** Whatever happens, an initiator bind dials at most ten times, waits at most 110 seconds,
      never has more than one connection of its own open, and ends with one open exactly when
      it connected and got its local listener. */
  lemma InitiatorBounds(proceeds: bool, io: Script, listenOk: bool, conn: nat, open: set<nat>)
    requires forall c :: c in open ==> c < conn
    ensures var t := InitiatorTrace(proceeds, io, listenOk, conn);
            && Dials(t) <= 10
            && Waited(t) <= 110.0
            && (forall n :: 0 <= n <= |t| ==> AtMostOneMore(open, OpenAfter(open, t[..n]), conn))
            && (OpenAfter(open, t) != open <==> proceeds && Connects(io) && listenOk)
  {
    if proceeds {
      var t, r := InitiatorTrace(proceeds, io, listenOk, conn), Retries(io, 1, conn);
      RetryBounds(io, conn);
      EndsOpenIffConnects(io, 1, conn, open);
      assert t[..|r|] == r && r[..|r|] == r;
      if t != r {
        var c := UpgradedConn(io, conn).value;
        TotalsConcat(r, [Close(c)]);
        OpenAfterConcat(open, r, [Close(c)]);
        assert open + {c} - {c} == open;
        assert t[..|t|] == t;
      }
      forall n | 0 <= n <= |t|
        ensures AtMostOneMore(open, OpenAfter(open, t[..n]), conn)
      {
        if n <= |r| {
          assert t[..n] == r[..n];
          OneAtATime(io, 1, conn, open, n);
        } else {
          assert t[..n] == t;
        }
      }
    }
  }

  class HyphaeProvider {
    var active: map<ChannelId, Active>
    var openConns: set<nat>  // connections dialled and not yet closed
    var dialled: nat         // connections so far; the next one gets this number
    ghost var trace: seq<Effect>

    ghost predicate Valid()
      reads this
    {
      Traced() && Accounts(active, openConns, dialled)
    }

    ghost predicate Traced()
      reads this
    {
      openConns == OpenAfter({}, trace)
    }

    constructor ()
      ensures Valid() && active == map[] && openConns == {} && trace == []
    {
      active, openConns, dialled, trace := map[], {}, 0, [];
    }

    ghost method Append(e: Effect)
      requires openConns == After(OpenAfter({}, trace), e)
      modifies this`trace
      ensures Traced() && trace == old(trace) + [e]
    {
      OpenAfterConcat({}, trace, [e]);
      trace := trace + [e];
    }

    method DialConn() returns (conn: nat)
      requires Traced()
      modifies this`openConns, this`dialled, this`trace
      ensures Traced() && conn == old(dialled) && dialled == conn + 1
      ensures openConns == old(openConns) + {conn} && trace == old(trace) + [Dial(conn)]
    {
      conn := dialled;
      openConns, dialled := openConns + {conn}, dialled + 1;
      Append(Dial(conn));
    }

    method CloseConn(conn: nat)
      requires Traced()
      modifies this`openConns, this`trace
      ensures Traced() && openConns == old(openConns) - {conn} && trace == old(trace) + [Close(conn)]
    {
      openConns := openConns - {conn};
      Append(Close(conn));
    }

    method WaitFor(seconds: real)
      requires Traced()
      modifies this`trace
      ensures Traced() && trace == old(trace) + [Wait(seconds)]
    {
      Append(Wait(seconds));
    }

    /** One attempt: dials, asks for the upgrade, and closes the connection unless upgraded. */
    method UpgradeOnce(io: AttemptIo) returns (upgraded: Option<nat>)
      requires Traced() && forall c :: c in openConns ==> c < dialled
      modifies this`openConns, this`dialled, this`trace
      ensures Traced()
      ensures upgraded == if Upgraded(io) then Some(old(dialled)) else None
      ensures trace == old(trace) + OnceTrace(io, old(dialled))
      ensures openConns == if Upgraded(io) then old(openConns) + {old(dialled)} else old(openConns)
      ensures dialled == if io.DialFails? then old(dialled) else old(dialled) + 1
    {
      if io.DialFails? {
        return None;
      }
      var conn := DialConn();
      if io.RequestFails? || io.WriteFails? || io.ReadFails? || io.status != SWITCHING_PROTOCOLS {
        CloseConn(conn);
        return None;
      }
      upgraded := Some(conn);
    }

    /** One attempt and the wait after it; another is to follow when the listener was not ready
        and the wait ran its course. */
    method AttemptUpgrade(io: AttemptIo, attempt: nat, backoff: real) returns (upgraded: Option<nat>, again: bool)
      requires Traced() && (forall c :: c in openConns ==> c < dialled) && attempt >= 1 && backoff == Backoff(attempt)
      modifies this`openConns, this`dialled, this`trace
      ensures Traced() && again == (NotReady(io) && attempt != MAX_ATTEMPTS)
      ensures upgraded == if Upgraded(io) then Some(old(dialled)) else None
      ensures trace == old(trace) + AttemptTrace(io, attempt, old(dialled))
      ensures openConns == if Upgraded(io) then old(openConns) + {old(dialled)} else old(openConns)
      ensures dialled == if io.DialFails? then old(dialled) else old(dialled) + 1
    {
      ghost var was, once := trace, OnceTrace(io, dialled);
      upgraded := UpgradeOnce(io);
      if !io.Answer? || io.status != SERVICE_UNAVAILABLE || attempt == MAX_ATTEMPTS {
        assert once + [] == once;
        return upgraded, false;
      }
      again := io.cancelledAfter.None?;
      WaitFor(if again then backoff else Clamp(io.cancelledAfter.value, backoff));
      Associates(was, once, PauseTrace(io, attempt));
    }

    /** The attempts before the given one were made, each ran into a full wait, and none left a
        connection open. */
    ghost predicate Tried(io: Script, attempt: nat, was: seq<Effect>, conn: nat)
      requires attempt >= 1
      reads this
    {
      Traced() && dialled == conn + attempt - 1 && trace == was + Before(attempt, conn) && NotReadyBefore(io, attempt)
    }

    /** One round of the retry loop. */
    method TryAttempt(io: Script, attempt: nat, backoff: real, ghost was: seq<Effect>, ghost first: nat)
      returns (upgraded: Option<nat>, again: bool)
      requires 1 <= attempt <= MAX_ATTEMPTS && backoff == Backoff(attempt) && Tried(io, attempt, was, first)
      requires forall c :: c in openConns ==> c < dialled
      modifies this`openConns, this`dialled, this`trace
      ensures again ==> attempt < MAX_ATTEMPTS && Tried(io, attempt + 1, was, first) && openConns == old(openConns)
      ensures !again ==> Traced() && trace == was + Retries(io, 1, first) && upgraded == UpgradedConn(io, first)
      ensures !again ==> openConns == if upgraded.Some? then old(openConns) + {upgraded.value} else old(openConns)
      ensures dialled >= old(dialled) && (!again && upgraded.Some? ==> upgraded.value < dialled)
    {
      upgraded, again := AttemptUpgrade(io(attempt), attempt, backoff);
      if again {
        BusyAppended(io, was, attempt, first);
      } else {
        LastTrace(io, attempt, first, was);
        LastConn(io, attempt, first);
      }
    }

    /** Dials until upgraded, waiting between attempts while the listener is not ready; every
        connection it does not return is closed. */
    method DialUntilUpgraded(io: Script) returns (upgraded: Option<nat>)
      requires Traced() && forall c :: c in openConns ==> c < dialled
      modifies this`openConns, this`dialled, this`trace
      ensures Traced()
      ensures trace == old(trace) + Retries(io, 1, old(dialled))
      ensures upgraded == UpgradedConn(io, old(dialled))
      ensures upgraded.Some? ==> upgraded.value < dialled
      ensures openConns == if upgraded.Some? then old(openConns) + {upgraded.value} else old(openConns)
      ensures dialled >= old(dialled)
    {
      var attempt := 1;
      var backoff := 2.0;
      while attempt <= MAX_ATTEMPTS
        invariant 1 <= attempt <= MAX_ATTEMPTS && backoff == Backoff(attempt)
        invariant Tried(io, attempt, old(trace), old(dialled))
        invariant openConns == old(openConns)
      {
        var conn, again := TryAttempt(io, attempt, backoff, old(trace), old(dialled));
        if !again {
          return conn;
        }
        backoff := NextBackoff(backoff);
        attempt := attempt + 1;
      }
    }

    method BindInitiator(id: ChannelId, grant: string, tlsOk: bool, io: Script, listenOk: bool, localAddr: string)
      returns (ok: bool)
      requires Valid()
      modifies this
      ensures Valid()
      ensures trace ==
              old(trace) + InitiatorTrace(Proceeds(id in old(active), grant, tlsOk), io, listenOk, old(dialled))
      ensures ok <==> grant != "" && (id in old(active) || (tlsOk && Connects(io) && listenOk))
      ensures grant == "" || id in old(active) || !tlsOk ==> trace == old(trace)
      ensures grant != "" && id !in old(active) && tlsOk ==>
                |trace| >= |old(trace)| + |Retries(io, 1, old(dialled))|
                && trace[|old(trace)|..][..|Retries(io, 1, old(dialled))|] == Retries(io, 1, old(dialled))
      ensures !ok || id in old(active) ==> active == old(active) && openConns == old(openConns)
      ensures ok && id !in old(active) ==> Recorded(old(active), old(openConns), active, openConns, id, localAddr)
    {
      if grant == "" {
        return false;
      }
      if id in active {
        return true;
      }
      if !tlsOk {
        return false;
      }
      ok := OpenInitiator(id, io, listenOk, localAddr);
    }

    method OpenInitiator(id: ChannelId, io: Script, listenOk: bool, localAddr: string) returns (ok: bool)
      requires Valid() && id !in active
      modifies this
      ensures Valid()
      ensures trace == old(trace) + InitiatorTrace(true, io, listenOk, old(dialled))
      ensures ok <==> Connects(io) && listenOk
      ensures !ok ==> active == old(active) && openConns == old(openConns)
      ensures ok ==> Recorded(old(active), old(openConns), active, openConns, id, localAddr)
    {
      ghost var open, next := openConns, dialled;
      var upgraded := DialUntilUpgraded(io);
      if upgraded.None? {
        return false;
      }
      if !listenOk {
        CloseConn(upgraded.value);
        assert openConns == open;
        return false;
      }
      AccountsWith(active, open, next, id, Initiator(upgraded.value, localAddr), dialled);
      active := active[id := Initiator(upgraded.value, localAddr)];
      ok := true;
    }

    /** Registers as listener: a single attempt, then a session over the connection. */
    method BindListener(id: ChannelId, tlsOk: bool, io: AttemptIo, sessionOk: bool) returns (ok: bool)
      requires Valid()
      modifies this
      ensures Valid()
      ensures ok <==> id in old(active) || (tlsOk && Upgraded(io) && sessionOk)
      ensures !ok || id in old(active) ==> active == old(active) && openConns == old(openConns)
      ensures ok && id !in old(active) ==>
                && id in active && active == old(active)[id := Listener(active[id].conn)]
                && active[id].conn !in old(openConns) && openConns == old(openConns) + {active[id].conn}
      ensures old(dialled) <= dialled <= old(dialled) + 1
    {
      if id in active {
        return true;
      }
      if !tlsOk {
        return false;
      }
      ghost var open, next := openConns, dialled;
      var upgraded := UpgradeOnce(io);
      if upgraded.None? {
        return false;
      }
      if !sessionOk {
        CloseConn(upgraded.value);
        assert openConns == open;
        return false;
      }
      AccountsWith(active, open, next, id, Listener(upgraded.value), dialled);
      active := active[id := Listener(upgraded.value)];
      ok := true;
    }

    /** Forgets the channel and closes its connection, which may be closed already. */
    method UnbindChannel(id: ChannelId)
      requires Valid()
      modifies this
      ensures Valid()
      ensures active == old(active) - {id}
      ensures openConns == if id in old(active) then old(openConns) - {old(active)[id].conn} else old(openConns)
      ensures dialled == old(dialled)
    {
      if id in active {
        var ch := active[id];
        AccountsWithout(active, openConns, dialled, id);
        active := active - {id};
        CloseConn(ch.conn);
      }
    }

    /** Unbinds every channel; nothing stays open. */
    method CloseAll()
      requires Valid()
      modifies this
      ensures Valid() && active == map[] && openConns == {}
    {
      var ids := active.Keys;
      while ids != {}
        invariant Valid() && active.Keys == ids
      {
        var id :| id in ids;
        ids := ids - {id};
        UnbindChannel(id);
      }
    }

    /** The initiator's relay is over: its connection is closed, its channel stays active. */
    method EndRelay(id: ChannelId)
      requires Valid() && id in active && active[id].Initiator?
      modifies this
      ensures Valid() && active == old(active) && openConns == old(openConns) - {active[id].conn}
    {
      CloseConn(active[id].conn);
    }

    /** The relay address of an initiator. */
    function LocalAddr(id: ChannelId): (addr: Option<string>)
      reads this
      ensures addr.Some? <==> id in active && active[id].Initiator? && active[id].localAddr != ""
      ensures addr.Some? ==> addr.value == active[id].localAddr
    {
      if id in active && active[id].Initiator? && active[id].localAddr != "" then Some(active[id].localAddr) else None
    }
  }
}
