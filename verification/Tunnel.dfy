/** The agent tunnel: callers queue requests, the socket loop forwards them, and every caller learns one
    outcome. */
module Tunnel {
  /** Capacity of the per-agent queue. */
  const DEPTH := 16

  datatype Outcome = NoTunnel | Overloaded | Disconnected | Answered(response: string) | TimedOut | AgentDropped

  /** A call holds a clone of the sender of one socket, then waits for its answer, then is resolved. */
  datatype Status = Holding(epoch: nat) | Waiting | Resolved(outcome: Outcome)

  /** One `forward` call, with the request id it drew. */
  datatype Call = Call(id: string, status: Status)

  /** The socket task: its loop runs, was left, has unregistered the agent, or has ended. */
  datatype Phase = Closed | Running | Exiting | Unregistered

  datatype State = State(epoch: nat, phase: Phase, calls: seq<Call>, queue: seq<nat>, pending: map<string, nat>,
                         replies: seq<(string, string)>)

  const START := State(0, Closed, [], [], map[], [])

  datatype Event =
    | Connect  // a socket registers a fresh queue for the agent
    | Begin(id: string)  // a caller looks the tunnel up
    | TrySend(n: nat)  // and offers its request
    | Receive(sent: bool)  // the loop takes a request and writes its frame
    | Reply(id: string, response: string)  // the agent answers, with whatever id
    | Timeout(n: nat)  // a caller gives up
    | Break  // the loop ends: close, failed ping, silence
    | Unregister
    | Release  // the task's queue and pending map are dropped

  predicate Enabled(s: State, e: Event) {
    match e
    case Connect => s.phase == Closed
    case Begin(_) => true
    case TrySend(n) => n < |s.calls| && s.calls[n].status.Holding?
    case Receive(_) => s.phase == Running && s.queue != [] && s.queue[0] < |s.calls|
    case Reply(_, _) => s.phase == Running
    case Timeout(n) => n < |s.calls| && s.calls[n].status == Waiting
    case Break => s.phase == Running
    case Unregister => s.phase == Exiting
    case Release => s.phase == Unregistered
  }

  function Resolve(calls: seq<Call>, n: nat, o: Outcome): seq<Call> {
    if n < |calls| then calls[n := calls[n].(status := Resolved(o))] else calls
  }

  /** A dropped or used responder reaches its caller only if that caller still waits. */
  function Notify(calls: seq<Call>, n: nat, o: Outcome): seq<Call> {
    if n < |calls| && calls[n].status == Waiting then Resolve(calls, n, o) else calls
  }

  predicate Registered(s: State) {
    s.phase == Running || s.phase == Exiting
  }

  /** Whether the request of call `n` sits in the queue or behind a pending responder. */
  predicate Held(s: State, n: nat) {
    n in s.queue || n in s.pending.Values
  }

  /** A call after its request, if held, has been dropped. */
  function LetGo(s: State, n: nat): Call
    requires n < |s.calls|
  {
    if Held(s, n) && s.calls[n].status == Waiting then s.calls[n].(status := Resolved(AgentDropped)) else s.calls[n]
  }

  function Next(s: State, e: Event): State
    requires Enabled(s, e)
  {
    match e
    case Connect => s.(epoch := s.epoch + 1, phase := Running, queue := [], pending := map[])
    case Begin(id) => s.(calls := s.calls + [Call(id, if Registered(s) then Holding(s.epoch) else Resolved(NoTunnel))])
    case TrySend(n) =>
      if s.calls[n].status.epoch != s.epoch || s.phase == Closed then s.(calls := Resolve(s.calls, n, Disconnected))
      else if |s.queue| >= DEPTH then s.(calls := Resolve(s.calls, n, Overloaded))
      else s.(calls := s.calls[n := s.calls[n].(status := Waiting)], queue := s.queue + [n])
    case Receive(sent) =>
      var n := s.queue[0];
      var id := s.calls[n].id;
      s.(queue := s.queue[1..], pending := s.pending[id := n],
         calls := if id in s.pending then Notify(s.calls, s.pending[id], AgentDropped) else s.calls,
         phase := if sent then Running else Exiting)
    case Reply(id, response) =>
      var s' := s.(replies := s.replies + [(id, response)]);
      if id in s.pending then s'.(pending := s.pending - {id},
        calls := Notify(s.calls, s.pending[id], Answered(response)))
      else s'
    case Timeout(n) => s.(calls := Resolve(s.calls, n, TimedOut))
    case Break => s.(phase := Exiting)
    case Unregister => s.(phase := Unregistered)
    case Release =>
      s.(phase := Closed, queue := [], pending := map[],
         calls := seq(|s.calls|, n requires 0 <= n < |s.calls| => LetGo(s, n)))
  }

  ghost predicate ValidRun(s: State, es: seq<Event>)
    decreases |es|
  {
    es == [] || (Enabled(s, es[0]) && ValidRun(Next(s, es[0]), es[1..]))
  }

  ghost function Run(s: State, es: seq<Event>): State
    requires ValidRun(s, es)
    decreases |es|
  {
    if es == [] then s else Run(Next(s, es[0]), es[1..])
  }

  // ---------- The invariant ----------

  /** A waiting call's request is in exactly one place: the queue, or the pending map under its own id. */
  ghost predicate CallOk(s: State, n: nat)
    requires n < |s.calls|
  {
    match s.calls[n].status
    case Holding(epoch) => epoch <= s.epoch && n !in s.queue && n !in s.pending.Values
    case Waiting => n in s.queue || (s.calls[n].id in s.pending && s.pending[s.calls[n].id] == n)
    case Resolved(Answered(response)) => (s.calls[n].id, response) in s.replies
    case Resolved(_) => true
  }

  ghost predicate Inv(s: State) {
    && |s.queue| <= DEPTH
    && (forall i :: 0 <= i < |s.queue| ==> s.queue[i] < |s.calls| && s.queue[i] !in s.pending.Values)
    && (forall i, j :: 0 <= i < j < |s.queue| ==> s.queue[i] != s.queue[j])
    && (forall id :: id in s.pending ==> s.pending[id] < |s.calls| && s.calls[s.pending[id]].id == id)
    && (forall n :: 0 <= n < |s.calls| ==> CallOk(s, n))
    && (s.phase == Closed ==> s.queue == [] && s.pending == map[])
  }

  lemma {:induction false} StartInv()
    ensures Inv(START)
  {
  }

  lemma {:induction false} ResolveInv(s: State, s': State, n: nat, o: Outcome)
    requires Inv(s) && n < |s.calls| && s' == s.(calls := Resolve(s.calls, n, o), replies := s'.replies)
    requires forall r :: r in s.replies ==> r in s'.replies
    requires o.Answered? ==> (s.calls[n].id, o.response) in s'.replies
    ensures Inv(s')
  {
    forall k | 0 <= k < |s'.calls| ensures CallOk(s', k) {
      assert CallOk(s, k);
    }
  }

  lemma {:induction false} BeginInv(s: State, id: string)
    requires Inv(s)
    ensures Inv(Next(s, Begin(id)))
  {
    var s' := Next(s, Begin(id));
    forall k | 0 <= k < |s'.calls| ensures CallOk(s', k) {
      if k < |s.calls| { assert CallOk(s, k); }
    }
  }

  lemma {:induction false} TrySendInv(s: State, n: nat)
    requires Inv(s) && Enabled(s, TrySend(n))
    ensures Inv(Next(s, TrySend(n)))
  {
    var s' := Next(s, TrySend(n));
    assert CallOk(s, n);
    if s'.queue == s.queue {
      ResolveInv(s, s', n, s'.calls[n].status.outcome);
    } else {
      forall k | 0 <= k < |s'.calls| ensures CallOk(s', k) { assert CallOk(s, k); }
    }
  }

  lemma {:induction false} ReceiveInv(s: State, sent: bool)
    requires Inv(s) && Enabled(s, Receive(sent))
    ensures Inv(Next(s, Receive(sent)))
  {
    var s' := Next(s, Receive(sent));
    var n := s.queue[0];
    var id := s.calls[n].id;
    assert forall k :: k in s.queue <==> k == n || k in s'.queue;
    assert n in s'.pending.Values by { assert s'.pending[id] == n; }
    forall k | k in s'.pending.Values ensures k == n || k in s.pending.Values {
      var x :| x in s'.pending && s'.pending[x] == k;
      if x != id { assert s.pending[x] == k; }
    }
    forall k | 0 <= k < |s'.calls| ensures CallOk(s', k) {
      assert CallOk(s, k);
    }
  }

  lemma {:induction false} ReplyInv(s: State, id: string, response: string)
    requires Inv(s) && Enabled(s, Reply(id, response))
    ensures Inv(Next(s, Reply(id, response)))
  {
    var s' := Next(s, Reply(id, response));
    forall k | k in s'.pending.Values ensures k in s.pending.Values {
      var x :| x in s'.pending && s'.pending[x] == k;
      assert s.pending[x] == k;
    }
    assert forall r :: r in s.replies ==> r in s'.replies;
    assert (id, response) in s'.replies;
    forall k | 0 <= k < |s'.calls| ensures CallOk(s', k) {
      assert CallOk(s, k);
    }
  }

  lemma {:induction false} ReleaseInv(s: State)
    requires Inv(s) && Enabled(s, Release)
    ensures Inv(Next(s, Release))
    ensures forall n :: 0 <= n < |s.calls| ==> Next(s, Release).calls[n].status != Waiting
  {
    var s' := Next(s, Release);
    forall k | 0 <= k < |s'.calls| ensures CallOk(s', k) && s'.calls[k].status != Waiting {
      assert CallOk(s, k);
    }
  }

  lemma {:induction false} StepInv(s: State, e: Event)
    requires Inv(s) && Enabled(s, e)
    ensures Inv(Next(s, e))
  {
    match e
    case Connect => forall k | 0 <= k < |s.calls| ensures CallOk(Next(s, e), k) { assert CallOk(s, k); }
    case Begin(id) => BeginInv(s, id);
    case TrySend(n) => TrySendInv(s, n);
    case Receive(sent) => ReceiveInv(s, sent);
    case Reply(id, response) => ReplyInv(s, id, response);
    case Timeout(n) => ResolveInv(s, Next(s, e), n, TimedOut);
    case Break => forall k | 0 <= k < |s.calls| ensures CallOk(Next(s, e), k) { assert CallOk(s, k); }
    case Unregister => forall k | 0 <= k < |s.calls| ensures CallOk(Next(s, e), k) { assert CallOk(s, k); }
    case Release => ReleaseInv(s);
  }

  lemma {:induction false} RunInv(s: State, es: seq<Event>)
    requires Inv(s) && ValidRun(s, es)
    ensures Inv(Run(s, es))
    decreases |es|
  {
    hide Inv, Next;
    if es != [] {
      StepInv(s, es[0]);
      RunInv(Next(s, es[0]), es[1..]);
    }
  }

  // ---------- Main results ----------

  /** One step resolves calls only in these ways, and never changes a resolved call or a request id. */
  ghost predicate StepResolves(s: State, e: Event, s': State, n: nat)
    requires n < |s.calls| <= |s'.calls|
  {
    && s'.calls[n].id == s.calls[n].id
    && (s.calls[n].status.Resolved? ==> s'.calls[n] == s.calls[n])
    && (s'.calls[n] != s.calls[n] && s'.calls[n].status.Resolved? ==>
          match s'.calls[n].status.outcome
          case NoTunnel => false
          case Overloaded => e == TrySend(n) && |s.queue| == DEPTH
          case Disconnected => e == TrySend(n) && s.calls[n].status.Holding?
            && (s.phase == Closed || s.calls[n].status.epoch != s.epoch)
          case Answered(response) => e == Reply(s.calls[n].id, response) && s.calls[n].status == Waiting
          case TimedOut => e == Timeout(n)
          case AgentDropped => s.calls[n].status == Waiting && (e == Release || e.Receive?))
  }

  lemma {:induction false} StepOutcome(s: State, e: Event, n: nat)
    requires Inv(s) && Enabled(s, e) && n < |s.calls|
    ensures |s.calls| <= |Next(s, e).calls| && StepResolves(s, e, Next(s, e), n)
  {
    assert CallOk(s, n);
  }

  /** An answer reaches exactly one waiting caller at most, and only the one whose request id it carries. */
  lemma {:induction false} AnswerReachesItsCaller(s: State, id: string, response: string, n: nat, m: nat)
    requires Inv(s) && Enabled(s, Reply(id, response)) && n < |s.calls| && m < |s.calls| && n != m
    ensures var s' := Next(s, Reply(id, response));
      && (s'.calls[n] != s.calls[n] ==> s.calls[n].id == id && s'.calls[n].status == Resolved(Answered(response)))
      && (s'.calls[n] != s.calls[n] ==> s'.calls[m] == s.calls[m])
  {
    StepOutcome(s, Reply(id, response), n);
  }

  /** And it does reach that one: a call whose request the loop has taken, and that still waits, is answered by
      the first reply to its id, and nobody else changes. */
  lemma {:induction false} AnswerIsDelivered(s: State, response: string, n: nat)
    requires Inv(s) && n < |s.calls| && s.calls[n].status == Waiting && n !in s.queue
    requires Enabled(s, Reply(s.calls[n].id, response))
    ensures var s' := Next(s, Reply(s.calls[n].id, response));
      && |s'.calls| == |s.calls| && s'.calls[n].status == Resolved(Answered(response))
      && forall m :: 0 <= m < |s.calls| && m != n ==> s'.calls[m] == s.calls[m]
  {
    assert CallOk(s, n);
  }

  /** Nothing in a run ends the wait of call `n`: no reply to its id, no time-out of its own, no end of the socket
      task, and no other call under its id. */
  predicate Undisturbed(es: seq<Event>, n: nat, id: string) {
    forall i :: 0 <= i < |es| ==>
      match es[i]
      case Reply(x, _) => x != id
      case Begin(x) => x != id
      case Timeout(m) => m != n
      case Release => false
      case _ => true
  }

  ghost predicate Taken(s: State, n: nat, id: string) {
    && n < |s.calls| && s.calls[n] == Call(id, Waiting) && n !in s.queue
    && forall m :: 0 <= m < |s.calls| && m != n ==> s.calls[m].id != id
  }

  lemma {:induction false} StaysTaken(s: State, e: Event, n: nat, id: string)
    requires Inv(s) && Enabled(s, e) && Taken(s, n, id) && Undisturbed([e], n, id)
    ensures Taken(Next(s, e), n, id)
  {
    assert CallOk(s, n) && [e][0] == e;
    var s' := Next(s, e);
    forall m | 0 <= m < |s.calls| ensures s'.calls[m].id == s.calls[m].id { StepOutcome(s, e, m); }
    StepOutcome(s, e, n);
    if e.Receive? { assert forall k :: k in s'.queue ==> k in s.queue; }
  }

  /** A taken request whose reply comes before its time-out and before the end of the socket task ends answered,
      whatever else happens in between. */
  lemma {:induction false} ReplyAnswers(s: State, es: seq<Event>, n: nat, id: string, response: string)
    requires Inv(s) && ValidRun(s, es) && Taken(s, n, id) && Undisturbed(es, n, id)
    ensures Taken(Run(s, es), n, id)
    ensures Enabled(Run(s, es), Reply(id, response)) ==>
      Next(Run(s, es), Reply(id, response)).calls[n].status == Resolved(Answered(response))
    decreases |es|
  {
    if es == [] {
      if Enabled(s, Reply(id, response)) { AnswerIsDelivered(s, response, n); }
    } else {
      assert [es[0]][0] == es[0];
      StepInv(s, es[0]);
      StaysTaken(s, es[0], n, id);
      hide Inv, Next, Taken, Enabled;
      ReplyAnswers(Next(s, es[0]), es[1..], n, id, response);
    }
  }

  /** How many requests the loop takes. */
  function Receives(es: seq<Event>): nat {
    if es == [] then 0 else (if es[0].Receive? then 1 else 0) + Receives(es[1..])
  }

  /** Requests are taken in the order in which they were queued: the one with `k` before it leaves the queue with
      the next `k + 1` that the loop takes. */
  lemma {:induction false} ServedInOrder(s: State, es: seq<Event>, k: nat)
    requires Inv(s) && ValidRun(s, es) && k < |s.queue| && forall i :: 0 <= i < |es| ==> es[i] != Release
    ensures Receives(es) <= k ==>
      var q := Run(s, es).queue; |q| > k - Receives(es) && q[k - Receives(es)] == s.queue[k]
    ensures Receives(es) > k ==> s.queue[k] !in Run(s, es).queue
    decreases |es|
  {
    if es != [] {
      var e := es[0];
      StepInv(s, e);
      QueueStep(s, e, k);
      hide Inv, Next, Enabled;
      if e.Receive? && k == 0 {
        StaysOut(Next(s, e), es[1..], s.queue[0]);
      } else {
        ServedInOrder(Next(s, e), es[1..], if e.Receive? then k - 1 else k);
      }
    }
  }

  lemma {:induction false} QueueStep(s: State, e: Event, k: nat)
    requires Inv(s) && Enabled(s, e) && e != Release && k < |s.queue|
    ensures var s' := Next(s, e);
      if e.Receive? && k == 0 then
        && s.queue[0] !in s'.queue && s.queue[0] < |s'.calls| && !s'.calls[s.queue[0]].status.Holding?
      else
        var j := if e.Receive? then k - 1 else k;
        j < |s'.queue| && s'.queue[j] == s.queue[k]
  {
    assert CallOk(s, s.queue[0]);
  }

  /** A request that has left the queue does not come back. */
  lemma {:induction false} StaysOut(s: State, es: seq<Event>, n: nat)
    requires Inv(s) && ValidRun(s, es) && n < |s.calls| && !s.calls[n].status.Holding? && n !in s.queue
    ensures n !in Run(s, es).queue
    decreases |es|
  {
    if es != [] {
      StepInv(s, es[0]);
      StepOutcome(s, es[0], n);
      NotHoldingAgain(s, es[0], n);
      hide Inv, Next, Enabled;
      StaysOut(Next(s, es[0]), es[1..], n);
    }
  }

  lemma {:induction false} NotHoldingAgain(s: State, e: Event, n: nat)
    requires Enabled(s, e) && n < |s.calls| && !s.calls[n].status.Holding? && n !in s.queue
    ensures n < |Next(s, e).calls| && !Next(s, e).calls[n].status.Holding? && n !in Next(s, e).queue
  {
  }

  /** Whether a socket is registered, told from the events. */
  function LinkUp(up: bool, es: seq<Event>): bool
    decreases |es|
  {
    if es == [] then up else LinkUp(es[0] == Connect || (up && es[0] != Unregister), es[1..])
  }

  lemma {:induction false} PhaseTellsLink(s: State, es: seq<Event>)
    requires ValidRun(s, es)
    ensures Run(s, es).phase == Running || Run(s, es).phase == Exiting <==>
            LinkUp(s.phase == Running || s.phase == Exiting, es)
    decreases |es|
  {
    if es != [] { PhaseTellsLink(Next(s, es[0]), es[1..]); }
  }

  /** A call finds a tunnel exactly between the registration of a socket and its removal, and its request is then
      queued exactly when that socket is still the agent's, its task has not ended and fewer than 16 wait. */
  lemma {:induction false} CallFindsTunnel(es: seq<Event>, id: string, n: nat)
    requires ValidRun(START, es)
    ensures var s := Run(START, es); var s' := Next(s, Begin(id));
      && |s'.calls| == |s.calls| + 1 && s'.calls[|s.calls|].id == id
      && s'.calls[|s.calls|].status == (if LinkUp(false, es) then Holding(s.epoch) else Resolved(NoTunnel))
    ensures var s := Run(START, es); Enabled(s, TrySend(n)) ==>
      && (Next(s, TrySend(n)).calls[n].status == Waiting <==>
            s.phase != Closed && s.calls[n].status.epoch == s.epoch && |s.queue| < 16)
      && (Next(s, TrySend(n)).calls[n].status == Waiting ==> Next(s, TrySend(n)).queue == s.queue + [n])
  {
    PhaseTellsLink(START, es);
    hide Run, ValidRun, LinkUp;
  }

  /** Every outcome is final: whatever happens later, a resolved call stays as it is. */
  lemma {:induction false} OutcomesAreFinal(s: State, es: seq<Event>, n: nat)
    requires Inv(s) && ValidRun(s, es) && n < |s.calls| && s.calls[n].status.Resolved?
    ensures |Run(s, es).calls| >= |s.calls| && Run(s, es).calls[n] == s.calls[n]
    decreases |es|
  {
    hide Inv, Next;
    if es != [] {
      StepInv(s, es[0]);
      StepOutcome(s, es[0], n);
      OutcomesAreFinal(Next(s, es[0]), es[1..], n);
    }
  }

  /** Over every run from the start: the queue stays within its capacity; an answered call got a response
      that the agent sent under its own id; and once the socket task has ended, no call is left waiting. */
  lemma {:induction false} TunnelSafety(es: seq<Event>)
    requires ValidRun(START, es)
    ensures var s := Run(START, es);
      && |s.queue| <= 16
      && (forall c :: c in s.calls && c.status.Resolved? && c.status.outcome.Answered? ==>
        (c.id, c.status.outcome.response) in s.replies)
      && (s.phase == Closed ==> forall c :: c in s.calls ==> c.status != Waiting)
  {
    StartInv();
    RunInv(START, es);
    var s := Run(START, es);
    forall c | c in s.calls
      ensures c.status.Resolved? && c.status.outcome.Answered? ==> (c.id, c.status.outcome.response) in s.replies
      ensures s.phase == Closed ==> c.status != Waiting
    {
      var n :| 0 <= n < |s.calls| && s.calls[n] == c;
      assert CallOk(s, n);
    }
  }

  /** What one caller can always still do, and what ending the socket does to it. */
  function OwnStep(s: State, n: nat): Event
    requires n < |s.calls| && !s.calls[n].status.Resolved?
  {
    if s.calls[n].status.Holding? then TrySend(n) else Timeout(n)
  }

  /** No call hangs: a caller that has not been resolved is at most two steps of its own from an outcome,
      and leaving the loop resolves every waiting call in two more steps of the socket task. */
  lemma {:induction false} NoCallHangs(s: State, n: nat)
    requires Inv(s) && n < |s.calls| && !s.calls[n].status.Resolved?
    ensures Enabled(s, OwnStep(s, n))
    ensures var s' := Next(s, OwnStep(s, n));
      s'.calls[n].status.Resolved?
        || (s'.calls[n].status == Waiting && Next(s', OwnStep(s', n)).calls[n].status.Resolved?)
    ensures s.phase == Exiting ==> forall c :: c in Next(Next(s, Unregister), Release).calls ==> c.status != Waiting
  {
    if s.phase == Exiting {
      StepInv(s, Unregister);
      ReleaseInv(Next(s, Unregister));
    }
  }

  // ---------- The code of each section ----------

  /** The registry entry and socket task of one agent, with its callers. */
  class AgentTunnel {
    var epoch: nat
    var phase: Phase
    var calls: seq<Call>
    var queue: seq<nat>
    var pending: map<string, nat>
    ghost var replies: seq<(string, string)>

    ghost function Abs(): State
      reads this
    {
      State(epoch, phase, calls, queue, pending, replies)
    }

    constructor ()
      ensures Abs() == START
    {
      epoch, phase, calls, queue, pending, replies := 0, Closed, [], [], map[], [];
    }

    method RegisterTunnel()
      requires Enabled(Abs(), Connect)
      modifies this
      ensures Abs() == Next(old(Abs()), Connect)
    {
      epoch := epoch + 1;
      queue, pending := [], map[];
      phase := Running;
    }

    /** First half of `forward`: find the agent's sender. */
    method BeginForward(id: string) returns (n: nat)
      modifies this`calls
      ensures n == |old(calls)| && Abs() == Next(old(Abs()), Begin(id))
    {
      n := |calls|;
      if phase == Running || phase == Exiting {
        calls := calls + [Call(id, Holding(epoch))];
      } else {
        calls := calls + [Call(id, Resolved(NoTunnel))];
      }
    }

    /** Second half: offer the request without waiting for room. */
    method TrySendRequest(n: nat)
      requires Enabled(Abs(), TrySend(n))
      modifies this`calls, this`queue
      ensures Abs() == Next(old(Abs()), TrySend(n))
    {
      var c := calls[n];
      if c.status.epoch != epoch || phase == Closed {
        calls := calls[n := c.(status := Resolved(Disconnected))];
      } else if |queue| >= DEPTH {
        calls := calls[n := c.(status := Resolved(Overloaded))];
      } else {
        calls := calls[n := c.(status := Waiting)];
        queue := queue + [n];
      }
    }

    /** A responder is used or dropped. */
    method NotifyCaller(n: nat, o: Outcome)
      modifies this`calls
      ensures calls == Notify(old(calls), n, o)
    {
      if n < |calls| && calls[n].status == Waiting {
        calls := calls[n := calls[n].(status := Resolved(o))];
      }
    }

    method OnRequest(sent: bool)
      requires Enabled(Abs(), Receive(sent))
      modifies this
      ensures Abs() == Next(old(Abs()), Receive(sent))
    {
      var n := queue[0];
      queue := queue[1..];
      var id := calls[n].id;
      if id in pending {
        NotifyCaller(pending[id], AgentDropped);
      }
      pending := pending[id := n];
      if !sent {
        phase := Exiting;
      }
    }

    method OnReply(id: string, response: string)
      requires Enabled(Abs(), Reply(id, response))
      modifies this
      ensures Abs() == Next(old(Abs()), Reply(id, response))
      ensures Inv(old(Abs())) ==>
        forall n :: 0 <= n < |old(calls)| && old(calls[n]) == Call(id, Waiting) && n !in old(queue) ==>
          n < |calls| && calls[n].status == Resolved(Answered(response))
    {
      ghost var before := Abs();
      if Inv(before) {
        forall n | 0 <= n < |calls| && calls[n] == Call(id, Waiting) && n !in queue
          ensures n < |Next(before, Reply(id, response)).calls| &&
                  Next(before, Reply(id, response)).calls[n].status == Resolved(Answered(response))
        {
          AnswerIsDelivered(before, response, n);
        }
      }
      hide Inv;
      replies := replies + [(id, response)];
      if id in pending {
        var n := pending[id];
        pending := pending - {id};
        NotifyCaller(n, Answered(response));
      }
    }

    /** After the loop: the agent is unregistered first, then queue and pending map are dropped, and every
        responder in them with them. */
    method Shutdown()
      requires phase == Exiting && Inv(Abs())
      modifies this
      ensures Abs() == Next(Next(old(Abs()), Unregister), Release)
    {
      ghost var s := Next(Abs(), Unregister);
      phase := Unregistered;
      for n := 0 to |calls|
        invariant |calls| == |s.calls| && Abs() == s.(calls := calls)
        invariant forall k :: n <= k < |calls| ==> calls[k] == s.calls[k]
        invariant forall k :: 0 <= k < n ==> calls[k] == LetGo(s, k)
      {
        if n in queue || n in pending.Values {
          NotifyCaller(n, AgentDropped);
        }
      }
      queue, pending := [], map[];
      phase := Closed;
    }
  }
}
