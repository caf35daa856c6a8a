/** The send half of TcpSession as a transition system: any number of threads call
    Send, worker threads pick up completions, and the peer or the kernel may break the
    connection at any time.  The session lock is recursive: ProcessSend calls
    RegisterSend while holding it. */
module TcpSend {
  import opened CoreValues
  import opened Sums

  type Buffer = nat

  /** Where a thread stands.  `held` says that it holds the session lock throughout,
      as RegisterSend does when ProcessSend calls it. */
  datatype Pc =
    | Outside
    | Pushing(b: Buffer)         // Send: passed IsConnected
    | Registering(held: bool)    // about to call RegisterSend
    | Draining(held: bool)       // RegisterSend: passed IsConnected
    | Posting(held: bool)        // event filled, about to call WSASend
    | Completed                  // ProcessSend: event cleared, about to lock

  datatype Attempt = Attempt(batch: seq<Buffer>, ok: bool)

  /** Histories: `pushed`, the order of Send; `attempts`, the calls of WSASend; and
      `abandoned`, how often the pipeline was left registered on a dead connection.
    `filled` marks an event that is full but not yet passed to WSASend.  `failures`
    counts the calls of WSASend that failed on the spot and left the connection up. */
  datatype State = State(
    threads: seq<Pc>, connected: bool, registered: bool, locked: bool,
    queue: seq<Buffer>, event: seq<Buffer>, filled: bool, outstanding: nat,
    pushed: seq<Buffer>, attempts: seq<Attempt>, abandoned: nat, failures: nat)

  datatype Step =
    | BeginSend(t: nat, b: Buffer)
    | Push(t: nat)
    | CheckConnected(t: nat)
    | Drain(t: nat)
    | Post(t: nat)
    | PostFails(t: nat, fatal: bool)
    | Complete(t: nat, empty: bool)
    | LockAndLook(t: nat)
    | Disconnect(t: nat)

  predicate Enabled(s: State, step: Step) {
    && step.t < |s.threads|
    && var pc := s.threads[step.t];
       match step
       case BeginSend(_, _) => pc.Outside? && s.connected
       case Push(_) => pc.Pushing? && !s.locked
       case CheckConnected(_) => pc.Registering?
       case Drain(_) => pc.Draining? && (pc.held || !s.locked)
       case Post(_) => pc.Posting?
       case PostFails(_, _) => pc.Posting?
       case Complete(_, _) => pc.Outside? && s.outstanding > 0
       case LockAndLook(_) => pc.Completed? && !s.locked
       case Disconnect(_) => true
  }

  function Apply(s: State, step: Step): State
    requires Enabled(s, step)
  {
    var t := step.t;
    var pc := s.threads[t];
    match step
    case BeginSend(_, b) => s.(threads := s.threads[t := Pushing(b)])
    case Push(_) =>
      s.(threads := s.threads[t := if s.registered then Outside else Registering(false)],
         queue := s.queue + [pc.b], pushed := s.pushed + [pc.b], registered := true)
    case CheckConnected(_) =>
      if s.connected then s.(threads := s.threads[t := Draining(pc.held)])
      else s.(threads := s.threads[t := Outside], abandoned := s.abandoned + 1, locked := s.locked && !pc.held)
    case Drain(_) =>
      s.(threads := s.threads[t := Posting(pc.held)], event := s.event + s.queue, queue := [], filled := true)
    case Post(_) =>
      s.(threads := s.threads[t := Outside], locked := s.locked && !pc.held, filled := false,
         outstanding := s.outstanding + 1, attempts := s.attempts + [Attempt(s.event, true)])
    case PostFails(_, fatal) =>
      s.(threads := s.threads[t := Outside], locked := s.locked && !pc.held, filled := false,
         event := [], registered := false, connected := s.connected && !fatal,
         attempts := s.attempts + [Attempt(s.event, false)], failures := if fatal then s.failures else s.failures + 1)
    case Complete(_, empty) =>
      if empty
      then s.(event := [], outstanding := s.outstanding - 1, connected := false, abandoned := s.abandoned + 1)
      else s.(threads := s.threads[t := Completed], event := [], outstanding := s.outstanding - 1)
    case LockAndLook(_) =>
      if s.queue == [] then s.(threads := s.threads[t := Outside], registered := false)
      else s.(threads := s.threads[t := Registering(true)], locked := true)
    case Disconnect(_) => s.(connected := false)
  }

  ghost predicate Init(s: State) {
    && (forall t :: 0 <= t < |s.threads| ==> s.threads[t].Outside?)
    && s == State(s.threads, true, false, false, [], [], false, 0, [], [], 0, 0)
  }

  /** A WSASend that fails on the spot with an error that does not close the connection. */
  predicate SoftFailure(step: Step) { step.PostFails? && !step.fatal }

  /** A step; soft failures are among them only if mayFail. */
  ghost predicate Next(s: State, s': State, mayFail: bool) {
    exists step :: Enabled(s, step) && (SoftFailure(step) ==> mayFail) && s' == Apply(s, step)
  }

  ghost predicate Behaviour(run: seq<State>, mayFail: bool) {
    && run != [] && Init(run[0])
    && forall i :: 0 <= i < |run| - 1 ==> Next(run[i], run[i + 1], mayFail)
  }

  // --------------------------------------------------------------- counting

  /** Holders of the _sendRegistered flag. */
  function Owns(pc: Pc): nat {
    if pc.Registering? || pc.Draining? || pc.Posting? || pc.Completed? then 1 else 0
  }

  function Holds(pc: Pc): nat {
    if (pc.Registering? || pc.Draining? || pc.Posting?) && pc.held then 1 else 0
  }

  function Fills(pc: Pc): nat { if pc.Posting? then 1 else 0 }

  datatype Measure = Owners | Holders | Fillers

  function Weight(m: Measure, pc: Pc): nat {
    match m case Owners => Owns(pc) case Holders => Holds(pc) case Fillers => Fills(pc)
  }

  function Weights(m: Measure, ts: seq<Pc>): (ws: seq<nat>)
    ensures |ws| == |ts| && forall i :: 0 <= i < |ts| ==> ws[i] == Weight(m, ts[i])
  {
    seq(|ts|, i requires 0 <= i < |ts| => Weight(m, ts[i]))
  }

  function Total(m: Measure, ts: seq<Pc>): nat { Sum(Weights(m, ts)) }

  lemma Change(m: Measure, ts: seq<Pc>, t: nat, pc: Pc)
    requires t < |ts|
    ensures Total(m, ts[t := pc]) + Weight(m, ts[t]) == Total(m, ts) + Weight(m, pc)
    ensures Weight(m, ts[t]) <= Total(m, ts)
  {
    assert Weights(m, ts[t := pc]) == Weights(m, ts)[t := Weight(m, pc)];
    SumUpdate(Weights(m, ts), t, Weight(m, pc));
    SumAtLeast(Weights(m, ts), t);
  }

  // -------------------------------------------------------------- invariant

  function Offered(attempts: seq<Attempt>): seq<Buffer> {
    if attempts == [] then [] else Offered(attempts[..|attempts| - 1]) + attempts[|attempts| - 1].batch
  }

  /** The registered flag is one token, the lock another, a filled event a third. */
  ghost predicate Counts(s: State) {
    && Total(Owners, s.threads) + s.outstanding + s.abandoned == (if s.registered then 1 else 0)
    && Total(Holders, s.threads) == (if s.locked then 1 else 0)
    && Total(Fillers, s.threads) == (if s.filled then 1 else 0)
  }

  ghost predicate Shape(s: State) {
    && (s.abandoned > 0 ==> !s.connected)
    && (s.event != [] ==> s.filled || s.outstanding > 0)
    && (s.filled ==> s.event != [])
    && (forall t :: 0 <= t < |s.threads| && (s.threads[t].Registering? || s.threads[t].Draining?) ==> s.queue != [])
    && (s.connected && s.queue != [] && !s.registered ==> s.failures > 0)
  }

  /** Offered to the socket, then waiting in the event, then queued: the order of Send. */
  ghost predicate Fifo(s: State) {
    && s.pushed == Offered(s.attempts) + (if s.filled then s.event else []) + s.queue
    && (forall i :: 0 <= i < |s.attempts| ==> s.attempts[i].batch != [])
  }

  ghost predicate Inv(s: State) { Counts(s) && Shape(s) && Fifo(s) }

  /** A thread that owns the flag is the only one, and nothing is outstanding. */
  lemma SoleOwner(s: State, t: nat)
    requires Inv(s) && t < |s.threads| && Owns(s.threads[t]) == 1
    ensures s.registered && s.outstanding == 0 && s.abandoned == 0
    ensures forall u :: 0 <= u < |s.threads| && u != t ==> Owns(s.threads[u]) == 0
    ensures s.threads[t].Posting? <==> s.filled
  {
    var ws := Weights(Owners, s.threads);
    SumAtLeast(ws, t);
    forall u | 0 <= u < |s.threads| && u != t
      ensures Owns(s.threads[u]) == 0
    {
      SumAtLeastTwo(ws, t, u);
    }
    if s.filled {
      var u := SumWitness(Weights(Fillers, s.threads));
    } else {
      SumAtLeast(Weights(Fillers, s.threads), t);
    }
  }

  lemma NoOwner(s: State)
    requires Inv(s) && (!s.registered || s.outstanding > 0)
    ensures forall u :: 0 <= u < |s.threads| ==> Owns(s.threads[u]) == 0
    ensures !s.filled
  {
    forall u | 0 <= u < |s.threads|
      ensures Owns(s.threads[u]) == 0
    {
      SumAtLeast(Weights(Owners, s.threads), u);
    }
    if s.filled {
      var u := SumWitness(Weights(Fillers, s.threads));
      SumAtLeast(Weights(Owners, s.threads), u);
    }
  }

  lemma OfferedMore(attempts: seq<Attempt>, a: Attempt)
    ensures Offered(attempts + [a]) == Offered(attempts) + a.batch
  {
    assert (attempts + [a])[..|attempts|] == attempts;
  }

  lemma FifoAfterPost(s: State, s': State, a: Attempt)
    requires Fifo(s) && s.filled && a.batch == s.event != []
    requires s'.pushed == s.pushed && s'.attempts == s.attempts + [a] && !s'.filled && s'.queue == s.queue
    requires Offered(s'.attempts) == Offered(s.attempts) + a.batch
    ensures Fifo(s')
  {
    assert Offered(s'.attempts) + [] == Offered(s'.attempts);
  }

  lemma FifoAfterDrain(s: State, s': State)
    requires Fifo(s) && !s.filled && s.event == []
    requires s'.pushed == s.pushed && s'.attempts == s.attempts
    requires s'.filled && s'.event == s.event + s.queue && s'.queue == []
    ensures Fifo(s')
  {
    var offered := Offered(s.attempts);
    assert offered + [] == offered && [] + s.queue == s.queue;
    assert offered + s.queue + [] == offered + s.queue;
  }

  lemma FifoUnmoved(s: State, s': State)
    requires Fifo(s) && s'.pushed == s.pushed && s'.attempts == s.attempts && s'.queue == s.queue
    requires s'.filled == s.filled && (s.filled ==> s'.event == s.event)
    ensures Fifo(s')
  {
  }

  /** How a step moves one of the totals. */
  lemma StepTotal(m: Measure, s: State, step: Step)
    requires Enabled(s, step)
    ensures var s' := Apply(s, step);
            Total(m, s'.threads) + Weight(m, s.threads[step.t]) == Total(m, s.threads) + Weight(m, s'.threads[step.t])
  {
    var s' := Apply(s, step);
    assert s'.threads == s.threads[step.t := s'.threads[step.t]];
    Change(m, s.threads, step.t, s'.threads[step.t]);
  }

  lemma OwnerStep(s: State, step: Step)
    requires Inv(s) && Enabled(s, step) && Owns(s.threads[step.t]) == 1
    ensures var s' := Apply(s, step);
            s'.outstanding + s'.abandoned + Owns(s'.threads[step.t]) == (if s'.registered then 1 else 0)
  {
    SoleOwner(s, step.t);
  }

  lemma OutsiderStep(s: State, step: Step)
    requires Enabled(s, step) && Owns(s.threads[step.t]) == 0
    ensures var s' := Apply(s, step);
            s'.outstanding + s'.abandoned + Owns(s'.threads[step.t]) + (if s.registered then 1 else 0) ==
            s.outstanding + s.abandoned + (if s'.registered then 1 else 0)
  {
  }

  lemma StepOwners(s: State, step: Step)
    requires Inv(s) && Enabled(s, step)
    ensures var s' := Apply(s, step);
            Total(Owners, s'.threads) + s'.outstanding + s'.abandoned == (if s'.registered then 1 else 0)
  {
    StepTotal(Owners, s, step);
    if Owns(s.threads[step.t]) == 1 {
      SoleOwner(s, step.t);
      OwnerStep(s, step);
    } else {
      OutsiderStep(s, step);
    }
  }

  lemma HolderStep(s: State, step: Step)
    requires Enabled(s, step) && (Holds(s.threads[step.t]) == 1 ==> s.locked)
    ensures var s' := Apply(s, step);
            Holds(s'.threads[step.t]) + (if s.locked then 1 else 0) ==
            Holds(s.threads[step.t]) + (if s'.locked then 1 else 0)
  {
  }

  lemma StepHolders(s: State, step: Step)
    requires Inv(s) && Enabled(s, step)
    ensures var s' := Apply(s, step); Total(Holders, s'.threads) == (if s'.locked then 1 else 0)
  {
    StepTotal(Holders, s, step);
    SumAtLeast(Weights(Holders, s.threads), step.t);
    HolderStep(s, step);
  }

  lemma FillerStep(s: State, step: Step)
    requires Enabled(s, step) && (Owns(s.threads[step.t]) == 1 ==> (s.threads[step.t].Posting? <==> s.filled))
    ensures var s' := Apply(s, step);
            Fills(s'.threads[step.t]) + (if s.filled then 1 else 0) ==
            Fills(s.threads[step.t]) + (if s'.filled then 1 else 0)
  {
  }

  lemma StepFillers(s: State, step: Step)
    requires Inv(s) && Enabled(s, step)
    ensures var s' := Apply(s, step); Total(Fillers, s'.threads) == (if s'.filled then 1 else 0)
  {
    StepTotal(Fillers, s, step);
    if Owns(s.threads[step.t]) == 1 {
      SoleOwner(s, step.t);
    }
    FillerStep(s, step);
  }

  lemma StepShape(s: State, step: Step)
    requires Inv(s) && Enabled(s, step)
    ensures Shape(Apply(s, step))
  {
    if Owns(s.threads[step.t]) == 1 {
      SoleOwner(s, step.t);
    } else if !s.registered || s.outstanding > 0 {
      NoOwner(s);
    }
  }

  lemma FifoPush(s: State, step: Step)
    requires Inv(s) && Enabled(s, step) && step.Push?
    ensures Fifo(Apply(s, step))
  {
    var front := Offered(s.attempts) + (if s.filled then s.event else []);
    assert front + (s.queue + [s.threads[step.t].b]) == front + s.queue + [s.threads[step.t].b];
  }

  lemma FifoPost(s: State, step: Step)
    requires Inv(s) && Enabled(s, step) && (step.Post? || step.PostFails?)
    ensures Fifo(Apply(s, step))
  {
    SoleOwner(s, step.t);
    var a := Attempt(s.event, step.Post?);
    OfferedMore(s.attempts, a);
    FifoAfterPost(s, Apply(s, step), a);
  }

  lemma FifoDrain(s: State, step: Step)
    requires Inv(s) && Enabled(s, step) && step.Drain?
    ensures Fifo(Apply(s, step))
  {
    SoleOwner(s, step.t);
    FifoAfterDrain(s, Apply(s, step));
  }

  lemma FifoOther(s: State, step: Step)
    requires Inv(s) && Enabled(s, step) && !step.Push? && !step.Post? && !step.PostFails? && !step.Drain?
    ensures Fifo(Apply(s, step))
  {
    if step.Complete? {
      NoOwner(s);
    }
    FifoUnmoved(s, Apply(s, step));
  }

  lemma StepFifo(s: State, step: Step)
    requires Inv(s) && Enabled(s, step)
    ensures Fifo(Apply(s, step))
  {
    if step.Push? {
      FifoPush(s, step);
    } else if step.Post? || step.PostFails? {
      FifoPost(s, step);
    } else if step.Drain? {
      FifoDrain(s, step);
    } else {
      FifoOther(s, step);
    }
  }

  lemma StepInv(s: State, step: Step)
    requires Inv(s) && Enabled(s, step)
    ensures Inv(Apply(s, step))
  {
    StepOwners(s, step);
    StepHolders(s, step);
    StepFillers(s, step);
    StepShape(s, step);
    StepFifo(s, step);
  }

  // ----------------------------------------------------------- main results

  lemma InitInv(s: State)
    requires Init(s)
    ensures Inv(s)
  {
    SumZero(Weights(Owners, s.threads));
    SumZero(Weights(Holders, s.threads));
    SumZero(Weights(Fillers, s.threads));
  }

  lemma StepFailures(s: State, step: Step)
    requires Enabled(s, step) && !SoftFailure(step)
    ensures Apply(s, step).failures == s.failures
  {
  }

  lemma NextInv(s: State, s': State, mayFail: bool)
    requires Inv(s) && Next(s, s', mayFail)
    ensures Inv(s') && (!mayFail ==> s'.failures == s.failures)
  {
    var step :| Enabled(s, step) && (SoftFailure(step) ==> mayFail) && s' == Apply(s, step);
    StepInv(s, step);
    if !mayFail {
      StepFailures(s, step);
    }
  }

  lemma {:induction false} BehaviourInv(run: seq<State>, mayFail: bool, i: nat)
    requires Behaviour(run, mayFail) && i < |run|
    ensures Inv(run[i]) && (!mayFail ==> run[i].failures == 0)
  {
    if i == 0 {
      InitInv(run[0]);
    } else {
      BehaviourInv(run, mayFail, i - 1);
      assert Next(run[i - 1], run[i], mayFail);
      NextInv(run[i - 1], run[i], mayFail);
    }
  }

  /** In every interleaving, failing or not: at most one WSASend is outstanding, none
      was posted without buffers, a second one is never about to be posted beside it,
      and what was offered to the socket is a prefix of the order of Send. */
  lemma SendSafety(run: seq<State>, mayFail: bool, i: nat)
    requires Behaviour(run, mayFail) && i < |run|
    ensures var s := run[i];
            && s.outstanding <= 1
            && (forall k :: 0 <= k < |s.attempts| ==> s.attempts[k].batch != [])
            && (forall t :: 0 <= t < |s.threads| && s.threads[t].Posting? ==>
                  s.outstanding == 0 && forall u :: 0 <= u < |s.threads| && s.threads[u].Posting? ==> u == t)
            && Offered(s.attempts) <= s.pushed
  {
    BehaviourInv(run, mayFail, i);
    var s := run[i];
    forall t | 0 <= t < |s.threads| && s.threads[t].Posting?
      ensures s.outstanding == 0 && forall u :: 0 <= u < |s.threads| && s.threads[u].Posting? ==> u == t
    {
      SoleOwner(s, t);
    }
  }

  /** Buffers are queued on a live connection and nobody is going to send them. */
  ghost predicate Stranded(s: State) {
    && s.connected && s.queue != [] && s.outstanding == 0
    && forall t :: 0 <= t < |s.threads| ==> Owns(s.threads[t]) == 0
  }

  /** In other words: the connection is up, the queue is not empty and the flag is free. */
  lemma StrandedMeans(s: State)
    requires Inv(s)
    ensures Stranded(s) <==> s.connected && s.queue != [] && !s.registered
  {
    if Stranded(s) {
      SumZero(Weights(Owners, s.threads));
    } else if !s.registered {
      NoOwner(s);
    }
  }

  /** The one way to strand a buffer: with more queued behind it, a WSASend on a live
      connection fails on the spot and the error does not close the connection. */
  lemma StrandsExactly(s: State, step: Step)
    requires Inv(s) && Enabled(s, step) && !Stranded(s)
    ensures Stranded(Apply(s, step)) <==> SoftFailure(step) && s.connected && s.queue != []
  {
    StrandedMeans(s);
    StepInv(s, step);
    StrandedMeans(Apply(s, step));
  }

  lemma NotStranded(s: State)
    requires Inv(s) && s.failures == 0
    ensures !Stranded(s)
  {
    StrandedMeans(s);
  }

  lemma Extend(run: seq<State>, step: Step, s': State)
    requires Behaviour(run, true) && Enabled(run[|run| - 1], step) && s' == Apply(run[|run| - 1], step)
    ensures Behaviour(run + [s'], true)
  {
    var longer := run + [s'];
    forall i | 0 <= i < |longer| - 1
      ensures Next(longer[i], longer[i + 1], true)
    {
      if i < |run| - 1 {
        assert Next(run[i], run[i + 1], true);
      }
    }
  }

  /** Thread 0 has filled the event with buffer 10, and thread 1 is about to queue 11. */
  function AboutToFail(): State {
    State([Posting(false), Pushing(11)], true, true, false, [], [10], true, 0, [10], [], 0, 0)
  }

  lemma ReachAboutToFail() returns (run: seq<State>)
    ensures Behaviour(run, true) && run[|run| - 1] == AboutToFail()
  {
    var s0 := State([Outside, Outside], true, false, false, [], [], false, 0, [], [], 0, 0);
    var s1 := s0.(threads := [Pushing(10), Outside]);
    var s2 := s0.(threads := [Pushing(10), Pushing(11)]);
    var s3 := State([Registering(false), Pushing(11)], true, true, false, [10], [], false, 0, [10], [], 0, 0);
    var s4 := s3.(threads := [Draining(false), Pushing(11)]);
    run := [s0];
    Extend(run, BeginSend(0, 10), s1);
    run := run + [s1];
    Extend(run, BeginSend(1, 11), s2);
    run := run + [s2];
    Extend(run, Push(0), s3);
    run := run + [s3];
    Extend(run, CheckConnected(0), s4);
    run := run + [s4];
    Extend(run, Drain(0), AboutToFail());
    run := run + [AboutToFail()];
  }

  /** Thread 1 queues behind thread 0's registration; then thread 0's WSASend fails
      with an error that does not close the connection. */
  lemma FailureStrands() returns (run: seq<State>)
    ensures Behaviour(run, true) && Stranded(run[|run| - 1])
  {
    run := ReachAboutToFail();
    var s1 := AboutToFail().(threads := [Posting(false), Outside], queue := [11], pushed := [10, 11]);
    var s2 := State([Outside, Outside], true, false, false, [11], [], false, 0, [10, 11], [Attempt([10], false)], 0, 1);
    Extend(run, Push(1), s1);
    run := run + [s1];
    Extend(run, PostFails(0, false), s2);
    run := run + [s2];
  }

  /** A queued buffer on a live connection always has a registrar or a completion to
      come, in every interleaving and whatever closes the connection, exactly when there
      are no soft failures. */
  lemma NotStrandedExactly(mayFail: bool)
    ensures (forall run: seq<State>, i :: Behaviour(run, mayFail) && 0 <= i < |run| ==> !Stranded(run[i])) <==> !mayFail
  {
    if mayFail {
      var run := FailureStrands();
      assert Stranded(run[|run| - 1]);
    } else {
      forall run: seq<State>, i | Behaviour(run, mayFail) && 0 <= i < |run|
        ensures !Stranded(run[i])
      {
        BehaviourInv(run, mayFail, i);
        NotStranded(run[i]);
      }
    }
  }

  // --------------------------------------------------------------- progress

  function PcWork(pc: Pc): nat {
    match pc
    case Outside => 0
    case Pushing(_) => 20
    case Registering(_) => 4
    case Draining(_) => 3
    case Posting(_) => 7
    case Completed => 5
  }

  function PcWorks(ts: seq<Pc>): (ws: seq<nat>)
    ensures |ws| == |ts| && forall i :: 0 <= i < |ts| ==> ws[i] == PcWork(ts[i])
  {
    seq(|ts|, i requires 0 <= i < |ts| => PcWork(ts[i]))
  }

  function Work(s: State): nat {
    Sum(PcWorks(s.threads)) + 10 * |s.queue| + 6 * s.outstanding
  }

  /** Nothing goes wrong and nothing new is sent. */
  predicate Benign(step: Step) {
    step.Push? || step.CheckConnected? || step.Drain? || step.Post? || step.LockAndLook? || (step.Complete? &&
              !step.empty)
  }

  lemma StepWork(s: State, step: Step)
    requires Enabled(s, step) && Benign(step)
    ensures var s' := Apply(s, step);
            Work(s') + PcWork(s.threads[step.t]) + 10 * |s.queue| + 6 * s.outstanding ==
            Work(s) + PcWork(s'.threads[step.t]) + 10 * |s'.queue| + 6 * s'.outstanding
  {
    var s' := Apply(s, step);
    assert PcWorks(s'.threads) == PcWorks(s.threads)[step.t := PcWork(s'.threads[step.t])];
    SumUpdate(PcWorks(s.threads), step.t, PcWork(s'.threads[step.t]));
  }

  ghost predicate Flushed(s: State) {
    && (forall t :: 0 <= t < |s.threads| ==> s.threads[t].Outside?)
    && s.outstanding == 0 && s.queue == [] && Offered(s.attempts) == s.pushed
  }

  /** What a thread inside the pipeline does next. */
  function OwnStep(pc: Pc, t: nat): Step {
    if pc.Pushing? then Push(t)
    else if pc.Registering? then CheckConnected(t)
    else if pc.Draining? then Drain(t)
    else if pc.Posting? then Post(t)
    else LockAndLook(t)
  }

  lemma IdleMeansFlushed(s: State)
    requires Inv(s) && s.connected && s.failures == 0
    requires forall t: nat :: t < |s.threads| ==> s.threads[t].Outside?
    ensures s.outstanding == 0 ==> Flushed(s)
  {
    SumZero(Weights(Owners, s.threads));
    SumZero(Weights(Fillers, s.threads));
  }

  /** A thread inside the pipeline can go on, unless another one holds the lock. */
  lemma OwnStepWorks(s: State, t: nat)
    requires Inv(s) && s.connected && t < |s.threads| && !s.threads[t].Outside?
    requires s.locked ==> Holds(s.threads[t]) == 1
    ensures var step := OwnStep(s.threads[t], t);
            Benign(step) && Enabled(s, step) && Work(Apply(s, step)) < Work(s)
  {
    StepWork(s, OwnStep(s.threads[t], t));
  }

  lemma CompleteWorks(s: State)
    requires Inv(s) && s.connected && s.failures == 0 && |s.threads| > 0 && !Flushed(s)
    requires forall t: nat :: t < |s.threads| ==> s.threads[t].Outside?
    ensures Enabled(s, Complete(0, false)) && Work(Apply(s, Complete(0, false))) < Work(s)
  {
    IdleMeansFlushed(s);
    StepWork(s, Complete(0, false));
  }

  /** The thread holding the lock can go on; without one, any thread inside can; and
      with nobody inside, the outstanding send can complete. */
  lemma CanAdvance(s: State) returns (step: Step)
    requires Inv(s) && s.connected && s.failures == 0 && |s.threads| > 0 && !Flushed(s)
    ensures Benign(step) && Enabled(s, step) && Work(Apply(s, step)) < Work(s)
  {
    if s.locked {
      var t := SumWitness(Weights(Holders, s.threads));
      step := OwnStep(s.threads[t], t);
      OwnStepWorks(s, t);
    } else if t: nat :| t < |s.threads| && !s.threads[t].Outside? {
      step := OwnStep(s.threads[t], t);
      OwnStepWorks(s, t);
    } else {
      step := Complete(0, false);
      CompleteWorks(s);
    }
  }

  ghost predicate Leads(s: State, steps: seq<Step>, end: State)
    decreases |steps|
  {
    if steps == [] then s == end
    else Enabled(s, steps[0]) && Leads(Apply(s, steps[0]), steps[1..], end)
  }

  /** Threads inside Send that have not queued their buffer yet. */
  function InPush(ts: seq<Pc>): nat {
    if ts == [] then 0 else (if ts[0].Pushing? then 1 else 0) + InPush(ts[1..])
  }

  lemma {:induction false} NoPush(ts: seq<Pc>)
    requires forall t :: 0 <= t < |ts| ==> ts[t].Outside?
    ensures InPush(ts) == 0
  {
    if ts != [] {
      NoPush(ts[1..]);
    }
  }

  lemma {:induction false} InPushUpdate(ts: seq<Pc>, t: nat, pc: Pc)
    requires t < |ts|
    ensures InPush(ts[t := pc]) + (if ts[t].Pushing? then 1 else 0) == InPush(ts) + (if pc.Pushing? then 1 else 0)
  {
    if t == 0 {
      assert ts[t := pc][1..] == ts[1..];
    } else {
      assert ts[t := pc][1..] == ts[1..][t - 1 := pc];
      InPushUpdate(ts[1..], t - 1, pc);
    }
  }

  lemma PushCount(s: State, step: Step)
    requires Enabled(s, step) && Benign(step)
    ensures var s' := Apply(s, step);
            s.pushed <= s'.pushed && |s'.pushed| + InPush(s'.threads) == |s.pushed| + InPush(s.threads)
  {
    InPushUpdate(s.threads, step.t, Apply(s, step).threads[step.t]);
  }

  lemma LeadsCons(s: State, step: Step, rest: seq<Step>, end: State)
    requires Enabled(s, step) && Leads(Apply(s, step), rest, end)
    ensures Leads(s, [step] + rest, end)
  {
    assert ([step] + rest)[1..] == rest;
  }

  /** A run of benign steps, after which `more` buffers have been queued in all. */
  ghost predicate LeadsBenignly(s: State, steps: seq<Step>, end: State, more: nat) {
    && Leads(s, steps, end) && (forall k :: 0 <= k < |steps| ==> Benign(steps[k]))
    && s.pushed <= end.pushed && |end.pushed| == |s.pushed| + more
  }

  lemma BenignCons(s: State, step: Step, rest: seq<Step>, end: State, more: nat, more': nat)
    requires Enabled(s, step) && Benign(step) && LeadsBenignly(Apply(s, step), rest, end, more')
    requires s.pushed <= Apply(s, step).pushed && |s.pushed| + more == |Apply(s, step).pushed| + more'
    ensures LeadsBenignly(s, [step] + rest, end, more)
  {
    LeadsCons(s, step, rest, end);
  }

  lemma BenignKeeps(s: State, step: Step)
    requires Enabled(s, step) && Benign(step)
    ensures var s' := Apply(s, step);
            s'.connected == s.connected && s'.failures == s.failures && |s'.threads| == |s.threads|
  {
  }

  /** From every state a live, failure-free session can reach, the threads at hand can
      get every buffer sent so far to the socket, in order. */
  lemma {:induction false} CanFlush(s: State) returns (steps: seq<Step>, end: State)
    requires Inv(s) && s.connected && s.failures == 0 && |s.threads| > 0
    ensures LeadsBenignly(s, steps, end, InPush(s.threads)) && Flushed(end)
    decreases Work(s)
  {
    if Flushed(s) {
      steps, end := [], s;
      NoPush(s.threads);
    } else {
      var step := CanAdvance(s);
      var s' := Apply(s, step);
      StepInv(s, step);
      BenignKeeps(s, step);
      PushCount(s, step);
      var rest;
      rest, end := CanFlush(s');
      BenignCons(s, step, rest, end, InPush(s.threads), InPush(s'.threads));
      steps := [step] + rest;
    }
  }

  lemma DownStep(s: State, step: Step)
    requires Enabled(s, step) && !s.connected
    ensures var s' := Apply(s, step);
            && !s'.connected && |s'.threads| == |s.threads|
            && s.pushed <= s'.pushed && |s'.pushed| + InPush(s'.threads) == |s.pushed| + InPush(s.threads)
  {
    var s' := Apply(s, step);
    assert s'.threads == s.threads[step.t := s'.threads[step.t]];
    InPushUpdate(s.threads, step.t, s'.threads[step.t]);
  }

  /** A disconnected session stays down and takes nothing more, but for the calls of Send
      that were already past their check. */
  lemma {:induction false} DownForGood(s: State, steps: seq<Step>, end: State)
    requires !s.connected && Leads(s, steps, end)
    ensures !end.connected && s.pushed <= end.pushed && |end.pushed| <= |s.pushed| + InPush(s.threads)
    decreases |steps|
  {
    if steps != [] {
      DownStep(s, steps[0]);
      DownForGood(Apply(s, steps[0]), steps[1..], end);
    }
  }

  lemma DisconnectIsFinal(s: State, t: nat, steps: seq<Step>, end: State)
    requires t < |s.threads| && Leads(Apply(s, Disconnect(t)), steps, end)
    ensures !end.connected && s.pushed <= end.pushed && |end.pushed| <= |s.pushed| + InPush(s.threads)
  {
    DownForGood(Apply(s, Disconnect(t)), steps, end);
  }

  // ---------------------------------------------------------------- session

  function PostSteps(answer: Answer): seq<Step> {
    [CheckConnected(0), Drain(0), if answer.Accepted? then Post(0) else PostFails(0, answer.fatal)]
  }

  /** RegisterSend on a live connection, seen as three steps. */
  lemma PostLeads(s: State, held: bool, answer: Answer)
    requires s.threads == [Registering(held)] && s.locked == held && s.connected
    ensures var batch := Attempt(s.event + s.queue, answer.Accepted?);
            var posted := s.(threads := [Outside], locked := false, queue := [], filled := false,
                      attempts := s.attempts + [batch]);
            Leads(s, PostSteps(answer),
                  if answer.Accepted? then posted.(event := s.event + s.queue, outstanding := s.outstanding + 1)
                  else posted.(event := [], registered := false, connected := !answer.fatal,
                            failures := if answer.fatal then s.failures else s.failures + 1))
  {
    var s1 := Apply(s, CheckConnected(0));
    assert s1.threads == [Draining(held)];
    var s2 := Apply(s1, Drain(0));
    assert s2.threads == [Posting(held)];
    var last := if answer.Accepted? then Post(0) else PostFails(0, answer.fatal);
    var s3 := Apply(s2, last);
    assert s3.threads == [Outside];
    LeadsCons(s2, last, [], s3);
    LeadsCons(s1, Drain(0), [last], s3);
    LeadsCons(s, CheckConnected(0), [Drain(0), last], s3);
    assert [CheckConnected(0)] + [Drain(0), last] == PostSteps(answer);
    assert [last] + [] == [last] && [Drain(0)] + [last] == [Drain(0), last];
  }

  lemma CheckLeads(s: State, held: bool)
    requires s.threads == [Registering(held)] && s.locked == held && !s.connected
    ensures Leads(s, [CheckConnected(0)], s.(threads := [Outside], locked := false, abandoned := s.abandoned + 1))
  {
    var s1 := Apply(s, CheckConnected(0));
    assert s1.threads == [Outside];
    LeadsCons(s, CheckConnected(0), [], s1);
    assert [CheckConnected(0)] + [] == [CheckConnected(0)];
  }

  /** The send half of the session object, run by one thread.  Each call is exactly the
      given run of that thread's steps. */
  class TcpSession {
    var connected: bool
    var sendRegistered: bool
    var sendQueue: seq<Buffer>
    var sendEvent: seq<Buffer>
    ghost var filled: bool
    ghost var outstanding: nat
    ghost var pushed: seq<Buffer>
    ghost var attempts: seq<Attempt>
    ghost var abandoned: nat
    ghost var failures: nat

    ghost function View(pc: Pc, locked: bool): State
      reads this
    {
      State([pc], connected, sendRegistered, locked, sendQueue, sendEvent, filled, outstanding,
            pushed, attempts, abandoned, failures)
    }

    constructor ()
      ensures Init(View(Outside, false))
    {
      connected, sendRegistered, sendQueue, sendEvent := true, false, [], [];
      filled, outstanding, pushed, attempts, abandoned, failures := false, 0, [], [], 0, 0;
    }

    method DrainQueue()
      modifies this`sendQueue, this`sendEvent
      ensures sendEvent == old(sendEvent + sendQueue) && sendQueue == []
    {
      while sendQueue != []
        invariant sendEvent + sendQueue == old(sendEvent + sendQueue)
        decreases |sendQueue|
      {
        sendEvent := sendEvent + [sendQueue[0]];
        sendQueue := sendQueue[1..];
      }
      assert sendEvent + [] == sendEvent;
    }

    /** WSASend and what follows it. */
    method Submit(answer: Answer)
      modifies this
      ensures sendQueue == old(sendQueue) && pushed == old(pushed) && abandoned == old(abandoned) && !filled
      ensures attempts == old(attempts) + [Attempt(old(sendEvent), answer.Accepted?)]
      ensures answer.Accepted? ==>
                && outstanding == old(outstanding) + 1 && sendEvent == old(sendEvent)
                && sendRegistered == old(sendRegistered) && connected == old(connected) && failures == old(failures)
      ensures answer.Refused? ==>
                && outstanding == old(outstanding) && sendEvent == [] && !sendRegistered
                && connected == (old(connected) && !answer.fatal)
                && failures == old(failures) + if answer.fatal then 0 else 1
    {
      attempts := attempts + [Attempt(sendEvent, answer.Accepted?)];
      filled := false;
      if answer.Accepted? {
        outstanding := outstanding + 1;
      } else {
        if answer.fatal {
          connected := false;
        } else {
          failures := failures + 1;
        }
        sendEvent := [];
        sendRegistered := false;
      }
    }

    /** Called with the session lock held exactly when a completion finds more to send. */
    method RegisterSend(ghost held: bool, answer: Answer) returns (ghost steps: seq<Step>)
      modifies this
      ensures steps == if old(connected) then PostSteps(answer) else [CheckConnected(0)]
      ensures Leads(old(View(Registering(held), held)), steps, View(Outside, false))
    {
      if !connected {
        CheckLeads(View(Registering(held), held), held);
        abandoned := abandoned + 1;
        return [CheckConnected(0)];
      }
      PostLeads(View(Registering(held), held), held, answer);
      steps := PostSteps(answer);
      DrainQueue();
      Submit(answer);
    }

    method Send(b: Buffer, answer: Answer) returns (ghost steps: seq<Step>)
      modifies this
      ensures steps == if !old(connected) then []
                       else [BeginSend(0, b), Step.Push(0)] + if old(sendRegistered) then [] else PostSteps(answer)
      ensures Leads(old(View(Outside, false)), steps, View(Outside, false))
    {
      if !connected {
        return [];
      }
      ghost var s0 := View(Outside, false);
      ghost var s1 := Apply(s0, BeginSend(0, b));
      assert s1.threads == [Pushing(b)];
      ghost var s2 := Apply(s1, Step.Push(0));
      ghost var rest: seq<Step> := [];
      sendQueue := sendQueue + [b];
      pushed := pushed + [b];
      var registerSend := !sendRegistered;
      sendRegistered := true;
      assert s2 == View(if registerSend then Registering(false) else Outside, false);
      if registerSend {
        rest := RegisterSend(false, answer);
      }
      LeadsCons(s1, Step.Push(0), rest, View(Outside, false));
      LeadsCons(s0, BeginSend(0, b), [Step.Push(0)] + rest, View(Outside, false));
      steps := [BeginSend(0, b), Step.Push(0)] + rest;
      assert steps == [BeginSend(0, b)] + ([Step.Push(0)] + rest);
    }

    /** What remains under the lock: free the flag, or send what has been queued meanwhile. */
    method SendMore(answer: Answer) returns (ghost steps: seq<Step>)
      modifies this
      ensures steps == [LockAndLook(0)] +
                       (if old(sendQueue) == [] then []
                        else if old(connected) then PostSteps(answer) else [CheckConnected(0)])
      ensures Leads(old(View(Completed, false)), steps, View(Outside, false))
    {
      ghost var s1 := View(Completed, false);
      ghost var s2 := Apply(s1, LockAndLook(0));
      ghost var rest: seq<Step> := [];
      if sendQueue == [] {
        sendRegistered := false;
        assert s2 == View(Outside, false);
      } else {
        assert s2 == View(Registering(true), true);
        rest := RegisterSend(true, answer);
      }
      LeadsCons(s1, LockAndLook(0), rest, View(Outside, false));
      steps := [LockAndLook(0)] + rest;
    }

    /** Completion of the outstanding send with this many bytes. */
    method ProcessSend(numOfBytes: nat, answer: Answer) returns (ghost steps: seq<Step>)
      requires outstanding > 0
      modifies this
      ensures steps == [Complete(0, numOfBytes == 0)] +
                       (if numOfBytes == 0 then []
                        else [LockAndLook(0)] +
                             (if old(sendQueue) == [] then []
                              else if old(connected) then PostSteps(answer) else [CheckConnected(0)]))
      ensures Leads(old(View(Outside, false)), steps, View(Outside, false))
      ensures numOfBytes == 0 ==> !connected
    {
      ghost var s0 := View(Outside, false);
      ghost var s1 := Apply(s0, Complete(0, numOfBytes == 0));
      ghost var rest: seq<Step> := [];
      sendEvent := [];
      outstanding := outstanding - 1;
      if numOfBytes == 0 {
        connected := false;
        abandoned := abandoned + 1;
        assert s1 == View(Outside, false);
      } else {
        assert s1 == View(Completed, false);
        rest := SendMore(answer);
      }
      LeadsCons(s0, Complete(0, numOfBytes == 0), rest, View(Outside, false));
      steps := [Complete(0, numOfBytes == 0)] + rest;
    }
  }
}
