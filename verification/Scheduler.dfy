/** The job scheduler as a transition system over any number of threads and
    job queues.  Each atomic or locked action of JobQueue::Push,
    JobQueue::Execute and ThreadManager::DoGlobalQueueWork is one step; steps
    of different threads interleave freely. */
module Scheduler {
  import opened Sums

  type JobId = nat

  /** Where a thread stands inside JobQueue::Execute. */
  datatype Phase =
    | Draining                                  // about to PopAll
    | Running(batch: seq<JobId>, next: nat)     // batch[next] is executing, or all are done
    | Subtracted                                // fetch_sub did not reach zero
    | HandingOff                                // time slice over, about to push to the global queue

  datatype ExecFrame = NoExec | Exec(queue: nat, phase: Phase)

  /** Where a thread stands inside JobQueue::Push. */
  datatype PushFrame =
    | NoPush
    | Counted(queue: nat, job: JobId, first: bool, pushOnly: bool)  // after fetch_add
    | Queued(queue: nat, first: bool, pushOnly: bool)               // after _jobs.Push

  datatype Thread = Thread(exec: ExecFrame, push: PushFrame)

  /** `arrived` and `ran` are histories: the order of _jobs.Push and of job execution. */
  datatype Queue = Queue(count: int, jobs: seq<JobId>, arrived: seq<JobId>, ran: seq<JobId>)

  datatype State = State(threads: seq<Thread>, queues: seq<Queue>, global: seq<nat>)

  datatype Step =
    | BeginPush(t: nat, q: nat, job: JobId, pushOnly: bool)
    | Enqueue(t: nat)
    | FinishPush(t: nat)
    | PopAll(t: nat)
    | FinishJob(t: nat)
    | Subtract(t: nat)
    | CheckTime(t: nat, timeUp: bool)
    | HandOff(t: nat)
    | TakeGlobal(t: nat)

  predicate InJob(th: Thread) {
    th.exec.Exec? && th.exec.phase.Running? && th.exec.phase.next < |th.exec.phase.batch|
  }

  predicate Executing(th: Thread, q: nat) {
    th.exec.Exec? && th.exec.queue == q && th.exec.phase.Running?
  }

  predicate Enabled(s: State, step: Step) {
    && step.t < |s.threads|
    && var th := s.threads[step.t];
       match step
       // a thread pushes from outside any Execute, or from inside a running job
       case BeginPush(_, q, _, _) => th.push.NoPush? && (th.exec.NoExec? || InJob(th)) && q < |s.queues|
       case Enqueue(_) => th.push.Counted? && th.push.queue < |s.queues|
       case FinishPush(_) => th.push.Queued?
       case PopAll(_) => th.push.NoPush? && th.exec.Exec? && th.exec.phase.Draining? && th.exec.queue < |s.queues|
       case FinishJob(_) => th.push.NoPush? && InJob(th) && th.exec.queue < |s.queues|
       case Subtract(_) =>
         && th.push.NoPush? && th.exec.Exec? && th.exec.phase.Running? && th.exec.queue < |s.queues|
         && th.exec.phase.next == |th.exec.phase.batch|
       case CheckTime(_, _) => th.push.NoPush? && th.exec.Exec? && th.exec.phase.Subtracted?
       case HandOff(_) => th.push.NoPush? && th.exec.Exec? && th.exec.phase.HandingOff?
       case TakeGlobal(_) => th.push.NoPush? && th.exec.NoExec? && s.global != []
  }

  function SetThread(s: State, t: nat, th: Thread): State
    requires t < |s.threads|
  {
    s.(threads := s.threads[t := th])
  }

  function SetQueue(s: State, q: nat, queue: Queue): State
    requires q < |s.queues|
  {
    s.(queues := s.queues[q := queue])
  }

  function Apply(s: State, step: Step): State
    requires Enabled(s, step)
  {
    var t := step.t;
    var th := s.threads[t];
    match step
    case BeginPush(_, q, job, pushOnly) =>
      var queue := s.queues[q];
      SetQueue(SetThread(s, t, th.(push := Counted(q, job, queue.count == 0, pushOnly))),
               q, queue.(count := queue.count + 1))
    case Enqueue(_) =>
      var p := th.push;
      var queue := s.queues[p.queue];
      SetQueue(SetThread(s, t, th.(push := Queued(p.queue, p.first, p.pushOnly))),
               p.queue, queue.(jobs := queue.jobs + [p.job], arrived := queue.arrived + [p.job]))
    case FinishPush(_) =>
      var p := th.push;
      if !p.first then
        SetThread(s, t, th.(push := NoPush))
      else if th.exec.NoExec? && !p.pushOnly then
        // LCurrentJobQueue is null: execute in place
        SetThread(s, t, Thread(Exec(p.queue, Draining), NoPush))
      else
        SetThread(s, t, th.(push := NoPush)).(global := s.global + [p.queue])
    case PopAll(_) =>
      var q := th.exec.queue;
      SetQueue(SetThread(s, t, th.(exec := Exec(q, Running(s.queues[q].jobs, 0)))),
               q, s.queues[q].(jobs := []))
    case FinishJob(_) =>
      var q := th.exec.queue;
      var r := th.exec.phase;
      SetQueue(SetThread(s, t, th.(exec := Exec(q, Running(r.batch, r.next + 1)))),
               q, s.queues[q].(ran := s.queues[q].ran + [r.batch[r.next]]))
    case Subtract(_) =>
      var q := th.exec.queue;
      var n := |th.exec.phase.batch|;
      var prev := s.queues[q].count;
      SetQueue(SetThread(s, t, th.(exec := if prev == n then NoExec else Exec(q, Subtracted))),
               q, s.queues[q].(count := prev - n))
    case CheckTime(_, timeUp) =>
      SetThread(s, t, th.(exec := Exec(th.exec.queue, if timeUp then HandingOff else Draining)))
    case HandOff(_) =>
      SetThread(s, t, th.(exec := NoExec)).(global := s.global + [th.exec.queue])
    case TakeGlobal(_) =>
      SetThread(s, t, th.(exec := Exec(s.global[0], Draining))).(global := s.global[1..])
  }

  ghost predicate Init(s: State) {
    && (forall t :: 0 <= t < |s.threads| ==> s.threads[t] == Thread(NoExec, NoPush))
    && (forall q :: 0 <= q < |s.queues| ==> s.queues[q] == Queue(0, [], [], []))
    && s.global == []
  }

  ghost predicate Next(s: State, s': State) {
    exists step :: Enabled(s, step) && s' == Apply(s, step)
  }

  /** A finite interleaving from an initial state. */
  ghost predicate Behaviour(run: seq<State>) {
    && run != []
    && Init(run[0])
    && forall i :: 0 <= i < |run| - 1 ==> Next(run[i], run[i + 1])
  }

  // ---------------------------------------------------------------- counting

  /** The ownership tokens of q held by one thread. */
  function TokenOf(th: Thread, q: nat): nat {
    (if !th.push.NoPush? && th.push.queue == q && th.push.first then 1 else 0) +
    (if th.exec.Exec? && th.exec.queue == q then 1 else 0)
  }

  /** The part of q's _jobCount that one thread accounts for: a push between its
      fetch_add and its _jobs.Push, or a batch not yet subtracted. */
  function OwedOf(th: Thread, q: nat): nat {
    (if th.push.Counted? && th.push.queue == q then 1 else 0) +
    (if Executing(th, q) then |th.exec.phase.batch| else 0)
  }

  function TokenWeights(ts: seq<Thread>, q: nat): (ws: seq<nat>)
    ensures |ws| == |ts| && forall i :: 0 <= i < |ts| ==> ws[i] == TokenOf(ts[i], q)
  {
    seq(|ts|, i requires 0 <= i < |ts| => TokenOf(ts[i], q))
  }

  function OwedWeights(ts: seq<Thread>, q: nat): (ws: seq<nat>)
    ensures |ws| == |ts| && forall i :: 0 <= i < |ts| ==> ws[i] == OwedOf(ts[i], q)
  {
    seq(|ts|, i requires 0 <= i < |ts| => OwedOf(ts[i], q))
  }

  function ThreadTokens(s: State, q: nat): nat { Sum(TokenWeights(s.threads, q)) }

  /** All ownership tokens of q: in threads, and entries in the global queue. */
  function Tokens(s: State, q: nat): nat { ThreadTokens(s, q) + multiset(s.global)[q] }

  function Owed(s: State, q: nat): nat { Sum(OwedWeights(s.threads, q)) }

  lemma ThreadChange(ts: seq<Thread>, t: nat, th: Thread, q: nat)
    requires t < |ts|
    ensures Sum(TokenWeights(ts[t := th], q)) + TokenOf(ts[t], q) == Sum(TokenWeights(ts, q)) + TokenOf(th, q)
    ensures Sum(OwedWeights(ts[t := th], q)) + OwedOf(ts[t], q) == Sum(OwedWeights(ts, q)) + OwedOf(th, q)
  {
    assert TokenWeights(ts[t := th], q) == TokenWeights(ts, q)[t := TokenOf(th, q)];
    SumUpdate(TokenWeights(ts, q), t, TokenOf(th, q));
    assert OwedWeights(ts[t := th], q) == OwedWeights(ts, q)[t := OwedOf(th, q)];
    SumUpdate(OwedWeights(ts, q), t, OwedOf(th, q));
  }

  // --------------------------------------------------------------- invariant

  predicate ThreadWf(s: State, th: Thread) {
    && (!th.push.NoPush? ==> th.push.queue < |s.queues| && (th.exec.NoExec? || InJob(th)))
    && (th.exec.Exec? ==> th.exec.queue < |s.queues|)
    && (th.exec.Exec? && th.exec.phase.Running? ==> th.exec.phase.next <= |th.exec.phase.batch|)
  }

  ghost predicate Wf(s: State) {
    && (forall t :: 0 <= t < |s.threads| ==> ThreadWf(s, s.threads[t]))
    && (forall i :: 0 <= i < |s.global| ==> s.global[i] < |s.queues|)
  }

  /** One token while the counter is positive, none at zero; and the counter is
      what is queued plus what threads owe. */
  ghost predicate Owned(s: State, q: nat)
    requires q < |s.queues|
  {
    && Tokens(s, q) == (if s.queues[q].count > 0 then 1 else 0)
    && s.queues[q].count == |s.queues[q].jobs| + Owed(s, q)
  }

  /** The unfinished part of the batch of q a thread has in hand. */
  function Rest(th: Thread, q: nat): seq<JobId> {
    if Executing(th, q) && th.exec.phase.next <= |th.exec.phase.batch|
    then th.exec.phase.batch[th.exec.phase.next..] else []
  }

  function InHand(ts: seq<Thread>, q: nat): seq<JobId> {
    if ts == [] then [] else Rest(ts[0], q) + InHand(ts[1..], q)
  }

  /** What has run, then the rest of the batch in hand, then the queue, is the
      order of arrival. */
  ghost predicate Fifo(s: State, q: nat)
    requires q < |s.queues|
  {
    s.queues[q].arrived == s.queues[q].ran + InHand(s.threads, q) + s.queues[q].jobs
  }

  ghost predicate Inv(s: State) {
    && Wf(s)
    && (forall q :: 0 <= q < |s.queues| ==> Owned(s, q))
    && (forall q :: 0 <= q < |s.queues| ==> Fifo(s, q))
  }

  /** The holder of a token is alone: no other thread and no global entry has one. */
  lemma SoleOwner(s: State, t: nat, q: nat)
    requires t < |s.threads| && q < |s.queues| && Owned(s, q) && TokenOf(s.threads[t], q) > 0
    ensures s.queues[q].count > 0 && multiset(s.global)[q] == 0 && TokenOf(s.threads[t], q) == 1
    ensures forall u :: 0 <= u < |s.threads| && u != t ==> TokenOf(s.threads[u], q) == 0
  {
    var ws := TokenWeights(s.threads, q);
    SumAtLeast(ws, t);
    forall u | 0 <= u < |s.threads| && u != t
      ensures TokenOf(s.threads[u], q) == 0
    {
      SumAtLeastTwo(ws, t, u);
    }
  }

  lemma {:induction false} InHandNone(ts: seq<Thread>, q: nat)
    requires forall u :: 0 <= u < |ts| ==> Rest(ts[u], q) == []
    ensures InHand(ts, q) == []
  {
    if ts != [] {
      InHandNone(ts[1..], q);
    }
  }

  lemma InitInv(s: State)
    requires Init(s)
    ensures Inv(s)
  {
    forall q | 0 <= q < |s.queues|
      ensures Owned(s, q) && Fifo(s, q)
    {
      InHandNone(s.threads, q);
      SumZero(TokenWeights(s.threads, q));
      SumZero(OwedWeights(s.threads, q));
    }
  }

  lemma WfStep(s: State, step: Step)
    requires Wf(s) && Enabled(s, step)
    ensures Wf(Apply(s, step))
  {
  }

  lemma GlobalPop(global: seq<nat>)
    requires global != []
    ensures multiset(global) == multiset(global[1..]) + multiset{global[0]}
  {
    assert global == [global[0]] + global[1..];
  }

  /** A step changes one thread; its token and debt move the sums by exactly that much. */
  lemma StepSums(s: State, step: Step, q: nat)
    requires Enabled(s, step)
    ensures var s' := Apply(s, step);
            var th, th' := s.threads[step.t], s'.threads[step.t];
            && s'.threads == s.threads[step.t := th']
            && |s'.queues| == |s.queues|
            && ThreadTokens(s', q) + TokenOf(th, q) == ThreadTokens(s, q) + TokenOf(th', q)
            && Owed(s', q) + OwedOf(th, q) == Owed(s, q) + OwedOf(th', q)
            && OwedOf(th, q) <= Owed(s, q)
  {
    var s' := Apply(s, step);
    assert s'.threads == s.threads[step.t := s'.threads[step.t]];
    ThreadChange(s.threads, step.t, s'.threads[step.t], q);
    SumAtLeast(OwedWeights(s.threads, q), step.t);
  }

  lemma StepGlobal(s: State, step: Step, q: nat)
    requires Enabled(s, step)
    ensures var th := s.threads[step.t];
            multiset(Apply(s, step).global)[q] ==
              match step
              case FinishPush(_) =>
                multiset(s.global)[q] + (if th.push.first && !(th.exec.NoExec? && !th.push.pushOnly) &&
                          th.push.queue == q then 1 else 0)
              case HandOff(_) => multiset(s.global)[q] + (if th.exec.queue == q then 1 else 0)
              case TakeGlobal(_) => multiset(s.global)[q] - (if s.global[0] == q then 1 else 0)
              case _ => multiset(s.global)[q]
  {
    if step.TakeGlobal? {
      GlobalPop(s.global);
    }
  }

  /** What a step does to q's counter, it does to what is queued and owed. */
  lemma DebtMove(s: State, step: Step, q: nat)
    requires Enabled(s, step) && ThreadWf(s, s.threads[step.t]) && q < |s.queues|
    ensures var s' := Apply(s, step);
            var th, th' := s.threads[step.t], s'.threads[step.t];
            s'.queues[q].count + |s.queues[q].jobs| + OwedOf(th, q) ==
            s.queues[q].count + |s'.queues[q].jobs| + OwedOf(th', q)
  {
  }

  /** A token of q appears, in the thread or in the global queue, exactly when the counter
      leaves zero, and goes exactly when it comes back to zero. */
  lemma TokenMove(s: State, step: Step, q: nat)
    requires Enabled(s, step) && ThreadWf(s, s.threads[step.t]) && q < |s.queues|
    requires var th, count := s.threads[step.t], s.queues[q].count;
             count >= OwedOf(th, q) && TokenOf(th, q) <= (if count > 0 then 1 else 0)
    ensures var s' := Apply(s, step);
            var th, th' := s.threads[step.t], s'.threads[step.t];
            TokenOf(th', q) + multiset(s'.global)[q] + (if s.queues[q].count > 0 then 1 else 0) ==
            TokenOf(th, q) + multiset(s.global)[q] + (if s'.queues[q].count > 0 then 1 else 0)
  {
    StepGlobal(s, step, q);
  }

  lemma OwnedStep(s: State, step: Step, q: nat)
    requires Inv(s) && Enabled(s, step) && q < |s.queues|
    ensures Owned(Apply(s, step), q)
  {
    assert ThreadWf(s, s.threads[step.t]);
    assert Owned(s, q);
    SumAtLeast(TokenWeights(s.threads, q), step.t);
    StepSums(s, step, q);
    DebtMove(s, step, q);
    TokenMove(s, step, q);
  }

  lemma {:induction false} InHandSole(ts: seq<Thread>, t: nat, q: nat)
    requires t < |ts| && forall u :: 0 <= u < |ts| && u != t ==> Rest(ts[u], q) == []
    ensures InHand(ts, q) == Rest(ts[t], q)
  {
    if t == 0 {
      InHandNone(ts[1..], q);
      assert Rest(ts[0], q) + [] == Rest(ts[0], q);
    } else {
      assert forall u :: 0 <= u < |ts| - 1 ==> ts[1..][u] == ts[u + 1];
      InHandSole(ts[1..], t - 1, q);
      assert Rest(ts[0], q) == [] && [] + InHand(ts[1..], q) == InHand(ts[1..], q);
    }
  }

  lemma {:induction false} InHandKeep(ts: seq<Thread>, t: nat, th: Thread, q: nat)
    requires t < |ts| && Rest(th, q) == Rest(ts[t], q)
    ensures InHand(ts[t := th], q) == InHand(ts, q)
  {
    if t == 0 {
      assert ts[t := th][1..] == ts[1..];
    } else {
      assert ts[t := th][1..] == ts[1..][t - 1 := th];
      InHandKeep(ts[1..], t - 1, th, q);
    }
  }

  /** A thread without a token of q has nothing of q in hand, before and after its step. */
  lemma NothingInHand(s: State, step: Step, q: nat)
    requires Enabled(s, step) && TokenOf(s.threads[step.t], q) == 0
    ensures Rest(Apply(s, step).threads[step.t], q) == Rest(s.threads[step.t], q) == []
  {
  }

  /** How the concatenation of batches in hand moves in a step. */
  lemma StepInHand(s: State, step: Step, q: nat)
    requires q < |s.queues| && Owned(s, q) && Enabled(s, step)
    ensures var s' := Apply(s, step);
            var th, th' := s.threads[step.t], s'.threads[step.t];
            if TokenOf(th, q) > 0
            then InHand(s.threads, q) == Rest(th, q) && InHand(s'.threads, q) == Rest(th', q)
            else InHand(s'.threads, q) == InHand(s.threads, q)
  {
    var t := step.t;
    var th' := Apply(s, step).threads[t];
    assert Apply(s, step).threads == s.threads[t := th'];
    if TokenOf(s.threads[t], q) > 0 {
      SoleOwner(s, t, q);
      InHandSole(s.threads, t, q);
      InHandSole(s.threads[t := th'], t, q);
    } else {
      NothingInHand(s, step, q);
      InHandKeep(s.threads, t, th', q);
    }
  }

  /** What a step adds to the arrival order of q. */
  function Arriving(s: State, step: Step, q: nat): seq<JobId>
    requires Enabled(s, step)
  {
    var p := s.threads[step.t].push;
    if step.Enqueue? && p.queue == q then [p.job] else []
  }

  /** Every step keeps the concatenation ran ++ in hand ++ queued, up to the arrival. */
  ghost predicate JobsMove(was: Queue, now: Queue, rest: seq<JobId>, rest': seq<JobId>, more: seq<JobId>) {
    && now.arrived == was.arrived + more
    && now.ran + rest' + now.jobs == was.ran + rest + (was.jobs + more)
  }

  lemma PopGlue(ran: seq<JobId>, jobs: seq<JobId>)
    ensures ran + jobs + [] == ran + [] + (jobs + [])
  {
  }

  lemma RunGlue(ran: seq<JobId>, job: JobId, rest: seq<JobId>, jobs: seq<JobId>)
    ensures ran + [job] + rest + jobs == ran + ([job] + rest) + (jobs + [])
  {
  }

  lemma PopAllMoves(s: State, step: Step, q: nat)
    requires Enabled(s, step) && ThreadWf(s, s.threads[step.t]) && q < |s.queues| && step.PopAll?
    ensures var s' := Apply(s, step);
            JobsMove(s.queues[q], s'.queues[q], Rest(s.threads[step.t], q), Rest(s'.threads[step.t], q),
                     Arriving(s, step, q))
  {
    var was := s.queues[q];
    var rest' := Rest(Apply(s, step).threads[step.t], q);
    if s.threads[step.t].exec.queue == q {
      assert rest' == was.jobs[0..] == was.jobs;
      PopGlue(was.ran, was.jobs);
    } else {
      assert rest' == [];
    }
  }

  lemma FinishJobMoves(s: State, step: Step, q: nat)
    requires Enabled(s, step) && ThreadWf(s, s.threads[step.t]) && q < |s.queues| && step.FinishJob?
    ensures var s' := Apply(s, step);
            JobsMove(s.queues[q], s'.queues[q], Rest(s.threads[step.t], q), Rest(s'.threads[step.t], q),
                     Arriving(s, step, q))
  {
    var was := s.queues[q];
    var r := s.threads[step.t].exec.phase;
    var rest' := Rest(Apply(s, step).threads[step.t], q);
    if s.threads[step.t].exec.queue == q {
      assert rest' == r.batch[r.next + 1..];
      assert r.batch[r.next..] == [r.batch[r.next]] + rest';
      RunGlue(was.ran, r.batch[r.next], rest', was.jobs);
    } else {
      assert rest' == [];
    }
  }

  lemma EnqueueMoves(s: State, step: Step, q: nat)
    requires Enabled(s, step) && ThreadWf(s, s.threads[step.t]) && q < |s.queues| && step.Enqueue?
    ensures var s' := Apply(s, step);
            JobsMove(s.queues[q], s'.queues[q], Rest(s.threads[step.t], q), Rest(s'.threads[step.t], q),
                     Arriving(s, step, q))
  {
  }

  lemma StepStays(s: State, step: Step, q: nat)
    requires Enabled(s, step) && ThreadWf(s, s.threads[step.t]) && q < |s.queues|
    requires !step.PopAll? && !step.FinishJob? && !step.Enqueue?
    ensures var s' := Apply(s, step);
            && Arriving(s, step, q) == []
            && Rest(s'.threads[step.t], q) == Rest(s.threads[step.t], q)
            && s'.queues[q] == s.queues[q].(count := s'.queues[q].count)
  {
  }

  lemma StepJobs(s: State, step: Step, q: nat)
    requires Enabled(s, step) && ThreadWf(s, s.threads[step.t]) && q < |s.queues|
    ensures var s' := Apply(s, step);
            JobsMove(s.queues[q], s'.queues[q], Rest(s.threads[step.t], q), Rest(s'.threads[step.t], q),
                     Arriving(s, step, q))
  {
    if step.PopAll? {
      PopAllMoves(s, step, q);
    } else if step.FinishJob? {
      FinishJobMoves(s, step, q);
    } else if step.Enqueue? {
      EnqueueMoves(s, step, q);
    } else {
      StepStays(s, step, q);
    }
  }

  /** A thread without a token of q leaves what ran alone and only appends. */
  lemma StepBystander(s: State, step: Step, q: nat)
    requires Enabled(s, step) && q < |s.queues| && TokenOf(s.threads[step.t], q) == 0
    ensures var now := Apply(s, step).queues[q];
            now.ran == s.queues[q].ran && now.jobs == s.queues[q].jobs + Arriving(s, step, q)
    ensures Apply(s, step).queues[q].arrived == s.queues[q].arrived + Arriving(s, step, q)
  {
  }

  lemma FifoGlue(was: Queue, now: Queue, hand: seq<JobId>, hand': seq<JobId>, more: seq<JobId>)
    requires was.arrived == was.ran + hand + was.jobs
    requires JobsMove(was, now, hand, hand', more)
    ensures now.arrived == now.ran + hand' + now.jobs
  {
    assert was.ran + hand + (was.jobs + more) == was.ran + hand + was.jobs + more;
  }

  lemma FifoStep(s: State, step: Step, q: nat)
    requires Inv(s) && Enabled(s, step) && q < |s.queues|
    ensures Fifo(Apply(s, step), q)
  {
    var s' := Apply(s, step);
    var was, now := s.queues[q], s'.queues[q];
    var hand, hand', more := InHand(s.threads, q), InHand(s'.threads, q), Arriving(s, step, q);
    assert Owned(s, q);
    assert JobsMove(was, now, hand, hand', more) by {
      assert ThreadWf(s, s.threads[step.t]);
      StepInHand(s, step, q);
      StepJobs(s, step, q);
      if TokenOf(s.threads[step.t], q) == 0 {
        StepBystander(s, step, q);
      }
    }
    assert Fifo(s, q);
    FifoGlue(was, now, hand, hand', more);
  }

  lemma StepInv(s: State, step: Step)
    requires Inv(s) && Enabled(s, step)
    ensures Inv(Apply(s, step))
  {
    WfStep(s, step);
    forall q | 0 <= q < |s.queues|
      ensures Owned(Apply(s, step), q) && Fifo(Apply(s, step), q)
    {
      OwnedStep(s, step, q);
      FifoStep(s, step, q);
    }
  }

  // ------------------------------------------------------------ main results

  lemma NextInv(s: State, s': State)
    requires Inv(s) && Next(s, s')
    ensures Inv(s')
  {
    var step :| Enabled(s, step) && s' == Apply(s, step);
    StepInv(s, step);
  }

  lemma {:induction false} BehaviourInv(run: seq<State>, i: nat)
    requires Behaviour(run) && i < |run|
    ensures Inv(run[i])
  {
    if i == 0 {
      InitInv(run[0]);
    } else {
      BehaviourInv(run, i - 1);
      assert Next(run[i - 1], run[i]);
      NextInv(run[i - 1], run[i]);
    }
  }

  /** In no interleaving do two threads stand in Execute of the same queue, nor is a
      queue in the global queue while a thread stands there, nor twice in it. */
  lemma MutualExclusion(run: seq<State>, i: nat, q: nat, t: nat)
    requires Behaviour(run) && i < |run|
    requires t < |run[i].threads| && run[i].threads[t].exec.Exec? && run[i].threads[t].exec.queue == q
    ensures forall u :: 0 <= u < |run[i].threads| && u != t ==>
              !(run[i].threads[u].exec.Exec? && run[i].threads[u].exec.queue == q)
    ensures q !in run[i].global
  {
    BehaviourInv(run, i);
    assert ThreadWf(run[i], run[i].threads[t]);
    assert Owned(run[i], q);
    SoleOwner(run[i], t, q);
    forall u | 0 <= u < |run[i].threads| && u != t
      ensures !(run[i].threads[u].exec.Exec? && run[i].threads[u].exec.queue == q)
    {
      assert TokenOf(run[i].threads[u], q) == 0;
    }
  }

  lemma GlobalAtMostOnce(run: seq<State>, i: nat, q: nat)
    requires Behaviour(run) && i < |run|
    ensures multiset(run[i].global)[q] <= 1
  {
    BehaviourInv(run, i);
    if q in run[i].global {
      assert Owned(run[i], q);
    }
  }

  /** What has run is always a prefix, in order, of what was queued: no job runs
      twice, none is skipped or overtaken. */
  lemma RunsInArrivalOrder(run: seq<State>, i: nat, q: nat)
    requires Behaviour(run) && i < |run| && q < |run[i].queues|
    ensures run[i].queues[q].ran <= run[i].queues[q].arrived
  {
    BehaviourInv(run, i);
    assert Fifo(run[i], q);
  }

  /** Some thread is between its fetch_add and its _jobs.Push on q. */
  ghost predicate PushInFlight(s: State, q: nat) {
    exists u :: 0 <= u < |s.threads| && s.threads[u].push.Counted? && s.threads[u].push.queue == q
  }

  /** With t the sole executor of q, q's debt beyond t's batch is the pushes in flight. */
  lemma OwedBesides(s: State, t: nat, q: nat)
    requires t < |s.threads| && Executing(s.threads[t], q) && s.threads[t].push.NoPush?
    requires forall u :: 0 <= u < |s.threads| && u != t ==> TokenOf(s.threads[u], q) == 0
    ensures var n := |s.threads[t].exec.phase.batch|;
            Owed(s, q) >= n && (Owed(s, q) == n <==> !PushInFlight(s, q))
  {
    var ws := OwedWeights(s.threads, q);
    SumAtLeast(ws, t);
    if u :| 0 <= u < |s.threads| && s.threads[u].push.Counted? && s.threads[u].push.queue == q {
      SumAtLeastTwo(ws, t, u);
    } else {
      forall u | 0 <= u < |ws| && u != t
        ensures ws[u] == 0
      {
        assert TokenOf(s.threads[u], q) == 0;
      }
      SumZero(ws[t := 0]);
      SumUpdate(ws, t, 0);
    }
  }

  /** fetch_sub gives the queue up exactly when nothing is queued and no push is
      between its fetch_add and its _jobs.Push; in particular never after an
      empty batch. */
  lemma ReleaseExactly(run: seq<State>, i: nat, t: nat)
    requires Behaviour(run) && i < |run| && Enabled(run[i], Subtract(t))
    ensures var s := run[i];
            var q := s.threads[t].exec.queue;
            var released := Apply(s, Subtract(t)).threads[t].exec.NoExec?;
            && (released <==> s.queues[q].jobs == [] && !PushInFlight(s, q))
            && (s.threads[t].exec.phase.batch == [] ==> !released)
  {
    var s := run[i];
    var q := s.threads[t].exec.queue;
    var n := |s.threads[t].exec.phase.batch|;
    BehaviourInv(run, i);
    assert ThreadWf(s, s.threads[t]);
    assert Owned(s, q);
    SoleOwner(s, t, q);
    OwedBesides(s, t, q);
  }

  /** Executing the given steps one after another leads from s to end. */
  ghost predicate Leads(s: State, steps: seq<Step>, end: State)
    decreases |steps|
  {
    if steps == [] then s == end
    else Enabled(s, steps[0]) && Leads(Apply(s, steps[0]), steps[1..], end)
  }

  // --------------------------------------------------------- global queue

  /** The queue that a step hands to the global queue: at the end of a time slice, or by
      the first pusher inside an Execute or told to push only. */
  function Enters(s: State, step: Step): seq<nat>
    requires Enabled(s, step)
  {
    var th := s.threads[step.t];
    if step.HandOff? then [th.exec.queue]
    else if step.FinishPush? && th.push.first && (th.exec.Exec? || th.push.pushOnly) then [th.push.queue]
    else []
  }

  /** The queue that a worker stands in after taking one from the global queue. */
  function Takes(s: State, step: Step): seq<nat>
    requires Enabled(s, step)
  {
    var th := Apply(s, step).threads[step.t];
    if step.TakeGlobal? && th.exec.Exec? then [th.exec.queue] else []
  }

  ghost function Entered(s: State, steps: seq<Step>): seq<nat>
    decreases |steps|
  {
    if steps == [] || !Enabled(s, steps[0]) then []
    else Enters(s, steps[0]) + Entered(Apply(s, steps[0]), steps[1..])
  }

  ghost function Taken(s: State, steps: seq<Step>): seq<nat>
    decreases |steps|
  {
    if steps == [] || !Enabled(s, steps[0]) then []
    else Takes(s, steps[0]) + Taken(Apply(s, steps[0]), steps[1..])
  }

  lemma StepIsFifo(s: State, step: Step)
    requires Enabled(s, step)
    ensures s.global + Enters(s, step) == Takes(s, step) + Apply(s, step).global
  {
  }

  lemma FifoChain(g0: seq<nat>, in0: seq<nat>, out0: seq<nat>, g1: seq<nat>, in1: seq<nat>, out1: seq<nat>,
            g2: seq<nat>)
    requires g0 + in0 == out0 + g1 && g1 + in1 == out1 + g2
    ensures g0 + (in0 + in1) == out0 + out1 + g2
  {
    assert g0 + (in0 + in1) == g0 + in0 + in1;
    assert out0 + g1 + in1 == out0 + (g1 + in1);
    assert out0 + (out1 + g2) == out0 + out1 + g2;
  }

  /** The global queue is first in, first out: what stands in it and what enters it during
      any run is what is taken from it, in that order, and what is left. */
  lemma {:induction false} GlobalIsFifo(s: State, steps: seq<Step>, end: State)
    requires Leads(s, steps, end)
    ensures s.global + Entered(s, steps) == Taken(s, steps) + end.global
    decreases |steps|
  {
    if steps == [] {
      assert s.global + [] == [] + s.global;
    } else {
      var s1 := Apply(s, steps[0]);
      StepIsFifo(s, steps[0]);
      GlobalIsFifo(s1, steps[1..], end);
      FifoChain(s.global, Enters(s, steps[0]), Takes(s, steps[0]), s1.global, Entered(s1, steps[1..]),
                Taken(s1, steps[1..]), end.global);
    }
  }

  /** So a job queue that waits is not overtaken: in any run, the first ones taken are
      those that were waiting, in their order. */
  lemma NoneOvertaken(s: State, steps: seq<Step>, end: State)
    requires Leads(s, steps, end)
    ensures |Taken(s, steps)| >= |s.global| ==> Taken(s, steps)[..|s.global|] == s.global
    ensures |Taken(s, steps)| <= |s.global| ==> Taken(s, steps) == s.global[..|Taken(s, steps)|]
  {
    GlobalIsFifo(s, steps, end);
    var all := s.global + Entered(s, steps);
    assert all[..|s.global|] == s.global && all[..|Taken(s, steps)|] == Taken(s, steps);
    var taken := Taken(s, steps);
    assert |taken| >= |s.global| ==> taken[..|s.global|] == all[..|taken|][..|s.global|] == all[..|s.global|];
    assert |taken| <= |s.global| ==> s.global[..|taken|] == all[..|s.global|][..|taken|] == all[..|taken|];
  }

  lemma {:induction false} OthersKeepThread(s: State, steps: seq<Step>, end: State, t: nat)
    requires Leads(s, steps, end) && t < |s.threads| && forall k :: 0 <= k < |steps| ==> steps[k].t != t
    ensures t < |end.threads| && end.threads[t] == s.threads[t]
    decreases |steps|
  {
    if steps != [] {
      OthersKeepThread(Apply(s, steps[0]), steps[1..], end, t);
    }
  }

  lemma PushBegins(s: State, t: nat, q: nat, job: JobId, pushOnly: bool)
    requires Enabled(s, BeginPush(t, q, job, pushOnly))
    ensures Apply(s, BeginPush(t, q, job, pushOnly)).threads[t] ==
            s.threads[t].(push := Counted(q, job, s.queues[q].count == 0, pushOnly))
  {
  }

  lemma PushEnds(s: State, t: nat, q: nat, first: bool, pushOnly: bool)
    requires Enabled(s, FinishPush(t)) && s.threads[t].push == Queued(q, first, pushOnly)
    ensures var inPlace := first && s.threads[t].exec.NoExec? && !pushOnly;
            var end := Apply(s, FinishPush(t));
            && end.threads[t] == Thread(if inPlace then Exec(q, Draining) else s.threads[t].exec, NoPush)
            && end.global == s.global + (if first && !inPlace then [q] else [])
            && end.queues == s.queues
  {
  }

  lemma PushQueues(s: State, t: nat, q: nat, job: JobId, first: bool, pushOnly: bool)
    requires Enabled(s, Enqueue(t)) && s.threads[t].push == Counted(q, job, first, pushOnly)
    ensures var s' := Apply(s, Enqueue(t));
            && s'.threads[t] == s.threads[t].(push := Queued(q, first, pushOnly))
            && |s'.queues| == |s.queues| && s'.queues[q].jobs == s.queues[q].jobs + [job]
  {
  }

  /** The thread takes a step, and then others take some. */
  ghost predicate StepThenOthers(s: State, step: Step, others: seq<Step>, end: State) {
    Enabled(s, step) && Leads(Apply(s, step), others, end) && forall k :: 0 <= k < |others| ==> others[k].t != step.t
  }

  lemma PushBegun(s: State, t: nat, q: nat, job: JobId, pushOnly: bool, others: seq<Step>, s1: State)
    requires StepThenOthers(s, BeginPush(t, q, job, pushOnly), others, s1)
    ensures t < |s.threads| && q < |s.queues| && t < |s1.threads|
    ensures s1.threads[t] == s.threads[t].(push := Counted(q, job, s.queues[q].count == 0, pushOnly))
  {
    PushBegins(s, t, q, job, pushOnly);
    OthersKeepThread(Apply(s, BeginPush(t, q, job, pushOnly)), others, s1, t);
  }

  lemma PushQueued(s1: State, t: nat, q: nat, job: JobId, first: bool, pushOnly: bool, others: seq<Step>, s2: State)
    requires t < |s1.threads| && s1.threads[t].push == Counted(q, job, first, pushOnly)
    requires StepThenOthers(s1, Enqueue(t), others, s2)
    ensures t < |s2.threads| && s2.threads[t] == s1.threads[t].(push := Queued(q, first, pushOnly))
  {
    PushQueues(s1, t, q, job, first, pushOnly);
    OthersKeepThread(Apply(s1, Enqueue(t)), others, s2, t);
  }

  /** A whole push by one thread, with steps `a` and `b` of others in between.  If it found
      the counter at zero, the thread executes the queue in place when it is outside any
      Execute and was not told to push only, and hands it to the global queue otherwise. */
  lemma PushOutcome(s: State, t: nat, q: nat, job: JobId, pushOnly: bool, a: seq<Step>, s1: State, b: seq<Step>,
            s2: State)
    requires StepThenOthers(s, BeginPush(t, q, job, pushOnly), a, s1)
    requires StepThenOthers(s1, Enqueue(t), b, s2)
    requires Enabled(s2, FinishPush(t))
    ensures var first := s.queues[q].count == 0;
            var inPlace := first && s.threads[t].exec.NoExec? && !pushOnly;
            var end := Apply(s2, FinishPush(t));
            && end.threads[t] == Thread(if inPlace then Exec(q, Draining) else s.threads[t].exec, NoPush)
            && end.global == s2.global + (if first && !inPlace then [q] else [])
            && end.queues == s2.queues
  {
    PushBegun(s, t, q, job, pushOnly, a, s1);
    var first := s.queues[q].count == 0;
    PushQueued(s1, t, q, job, first, pushOnly, b, s2);
    PushEnds(s2, t, q, first, pushOnly);
  }

  /** A slice that is over: whatever others do meanwhile, the thread's next step is to hand
      its queue to the global queue, and with it the thread is out of Execute. */
  lemma SliceEnds(s: State, t: nat, others: seq<Step>, s1: State)
    requires StepThenOthers(s, CheckTime(t, true), others, s1)
    ensures Enabled(s1, HandOff(t)) && forall step :: Enabled(s1, step) && step.t == t ==> step == HandOff(t)
    ensures var end := Apply(s1, HandOff(t));
            end.threads[t] == Thread(NoExec, NoPush) && end.global == s1.global + [s.threads[t].exec.queue]
  {
    OthersKeepThread(Apply(s, CheckTime(t, true)), others, s1, t);
  }

  /** A slice that is not: the thread's next step is to pop the next batch of that queue. */
  lemma SliceGoesOn(s: State, t: nat, others: seq<Step>, s1: State)
    requires StepThenOthers(s, CheckTime(t, false), others, s1)
    ensures t < |s1.threads| && s1.threads[t] == s.threads[t].(exec := Exec(s.threads[t].exec.queue, Draining))
    ensures forall step :: Enabled(s1, step) && step.t == t ==> step == PopAll(t)
  {
    OthersKeepThread(Apply(s, CheckTime(t, false)), others, s1, t);
  }

  // ------------------------------------------------------------- quiescence

  ghost predicate Quiescent(s: State) {
    && (forall t :: 0 <= t < |s.threads| ==> s.threads[t] == Thread(NoExec, NoPush))
    && s.global == []
  }

  /** No lost wakeup: when every thread is idle and the global queue is empty, every
      counter is zero and every job ever queued has run, once and in order. */
  lemma QuiescentMeansDone(s: State, q: nat)
    requires Inv(s) && Quiescent(s) && q < |s.queues|
    ensures s.queues[q].count == 0 && s.queues[q].jobs == [] && s.queues[q].ran == s.queues[q].arrived
  {
    assert Owned(s, q) && Fifo(s, q);
    SumZero(TokenWeights(s.threads, q));
    InHandNone(s.threads, q);
  }

  // -------------------------------------------------------------- progress

  function ThreadWork(th: Thread): nat {
    (match th.push case NoPush => 0 case Counted(_, _, _, _) => 30 case Queued(_, _, _) => 15) +
    (match th.exec
     case NoExec => 0
     case Exec(_, phase) =>
       match phase
       case Draining => 5
       case Running(batch, next) => (if next <= |batch| then 5 * (|batch| - next) else 0) + 7
       case Subtracted => 6
       case HandingOff => 7)
  }

  function Works(ts: seq<Thread>): (ws: seq<nat>)
    ensures |ws| == |ts| && forall i :: 0 <= i < |ts| ==> ws[i] == ThreadWork(ts[i])
  {
    seq(|ts|, i requires 0 <= i < |ts| => ThreadWork(ts[i]))
  }

  function Lengths(qs: seq<Queue>): (ws: seq<nat>)
    ensures |ws| == |qs| && forall i :: 0 <= i < |qs| ==> ws[i] == 10 * |qs[i].jobs|
  {
    seq(|qs|, i requires 0 <= i < |qs| => 10 * |qs[i].jobs|)
  }

  /** The work left if no further push begins. */
  function Work(s: State): nat {
    Sum(Works(s.threads)) + Sum(Lengths(s.queues)) + 6 * |s.global|
  }

  lemma StepWork(s: State, step: Step, q: nat)
    requires Enabled(s, step)
    requires q < |s.queues|
    requires var s' := Apply(s, step); forall r :: 0 <= r < |s.queues| && r != q ==> s'.queues[r] == s.queues[r]
    ensures var s' := Apply(s, step);
            Work(s') + ThreadWork(s.threads[step.t]) + 10 * |s.queues[q].jobs| + 6 * |s.global| ==
            Work(s) + ThreadWork(s'.threads[step.t]) + 10 * |s'.queues[q].jobs| + 6 * |s'.global|
  {
    var s' := Apply(s, step);
    var t := step.t;
    assert Works(s'.threads) == Works(s.threads)[t := ThreadWork(s'.threads[t])];
    SumUpdate(Works(s.threads), t, ThreadWork(s'.threads[t]));
    assert Lengths(s'.queues) == Lengths(s.queues)[q := 10 * |s'.queues[q].jobs|];
    SumUpdate(Lengths(s.queues), q, 10 * |s'.queues[q].jobs|);
  }

  /** The two kinds of step that cost time without progress: a batch popped empty, and a
      hand-over because the time slice is over. */
  predicate PopsNothing(s: State, step: Step)
    requires Enabled(s, step)
  {
    step.PopAll? && s.queues[s.threads[step.t].exec.queue].jobs == []
  }

  predicate HandsOver(step: Step) { step.CheckTime? && step.timeUp }

  /** A batch is popped empty only while a push to its queue is between its fetch_add and
      its _jobs.Push. */
  lemma PopsNothingMeansPush(s: State, step: Step)
    requires Inv(s) && Enabled(s, step) && PopsNothing(s, step)
    ensures PushInFlight(s, s.threads[step.t].exec.queue)
  {
    var q := s.threads[step.t].exec.queue;
    assert Owned(s, q);
    SoleOwner(s, step.t, q);
    if !PushInFlight(s, q) {
      forall u | 0 <= u < |s.threads|
        ensures OwedOf(s.threads[u], q) == 0
      {
        if u != step.t {
          assert TokenOf(s.threads[u], q) == 0;
        }
      }
      SumZero(OwedWeights(s.threads, q));
    }
  }

  /** An owner that finds no push in flight pops a non-empty batch. */
  lemma NonEmptyBatch(s: State, t: nat)
    requires Inv(s) && Enabled(s, PopAll(t))
    requires forall u :: 0 <= u < |s.threads| ==> s.threads[u].push.NoPush?
    ensures s.queues[s.threads[t].exec.queue].jobs != []
  {
    if PopsNothing(s, PopAll(t)) {
      PopsNothingMeansPush(s, PopAll(t));
    }
  }

  lemma AdvancePush(s: State, t: nat) returns (step: Step)
    requires Inv(s) && t < |s.threads| && !s.threads[t].push.NoPush?
    ensures !step.BeginPush? && Enabled(s, step) && Work(Apply(s, step)) < Work(s)
  {
    assert ThreadWf(s, s.threads[t]);
    step := if s.threads[t].push.Counted? then Enqueue(t) else FinishPush(t);
    StepWork(s, step, s.threads[t].push.queue);
  }

  lemma AdvanceExec(s: State, t: nat) returns (step: Step)
    requires Inv(s) && t < |s.threads| && s.threads[t].exec.Exec?
    requires forall u :: 0 <= u < |s.threads| ==> s.threads[u].push.NoPush?
    ensures !step.BeginPush? && Enabled(s, step) && Work(Apply(s, step)) < Work(s)
  {
    assert ThreadWf(s, s.threads[t]);
    step := match s.threads[t].exec.phase
      case Draining => PopAll(t)
      case Running(batch, next) => if next < |batch| then FinishJob(t) else Subtract(t)
      case Subtracted => CheckTime(t, false)
      case HandingOff => HandOff(t);
    if step.PopAll? {
      NonEmptyBatch(s, t);
    }
    StepWork(s, step, s.threads[t].exec.queue);
  }

  /** Deadlock freedom: short of quiescence some thread can take a step that begins
      no push and leaves less work. */
  lemma CanAdvance(s: State) returns (step: Step)
    requires Inv(s) && |s.threads| > 0 && !Quiescent(s)
    ensures !step.BeginPush? && Enabled(s, step) && Work(Apply(s, step)) < Work(s)
  {
    if t :| 0 <= t < |s.threads| && !s.threads[t].push.NoPush? {
      step := AdvancePush(s, t);
    } else if t :| 0 <= t < |s.threads| && s.threads[t].exec.Exec? {
      step := AdvanceExec(s, t);
    } else {
      step := TakeGlobal(0);
      assert s.threads[0].push.NoPush? && s.threads[0].exec.NoExec?;
      assert s.global != [] by {
        assert forall t :: 0 <= t < |s.threads| ==> s.threads[t] == Thread(NoExec, NoPush);
      }
      assert s.global[0] < |s.queues|;
      StepWork(s, step, s.global[0]);
    }
  }

  lemma LeadsCons(s: State, step: Step, rest: seq<Step>, end: State)
    requires Enabled(s, step) && Leads(Apply(s, step), rest, end)
    ensures Leads(s, [step] + rest, end)
  {
    assert ([step] + rest)[1..] == rest;
  }

  /** What the wasted steps of a run may add to the work. */
  ghost function Waste(s: State, steps: seq<Step>): nat
    decreases |steps|
  {
    if steps == [] || !Enabled(s, steps[0]) then 0
    else
      (if PopsNothing(s, steps[0]) then 3 else if HandsOver(steps[0]) then 2 else 0) +
      Waste(Apply(s, steps[0]), steps[1..])
  }

  /** The queue a step works on. */
  function QueueOf(s: State, step: Step): nat
    requires Enabled(s, step)
  {
    match step
    case BeginPush(_, q, _, _) => q
    case Enqueue(t) => s.threads[t].push.queue
    case FinishPush(t) => s.threads[t].push.queue
    case TakeGlobal(_) => s.global[0]
    case _ => s.threads[step.t].exec.queue
  }

  lemma StepTouchesOne(s: State, step: Step)
    requires Wf(s) && Enabled(s, step)
    ensures var s' := Apply(s, step);
            QueueOf(s, step) < |s.queues| &&
            forall r :: 0 <= r < |s.queues| && r != QueueOf(s, step) ==> s'.queues[r] == s.queues[r]
  {
    assert ThreadWf(s, s.threads[step.t]);
  }

  /** Every other step that begins no push leaves less work. */
  lemma StepCost(s: State, step: Step)
    requires Wf(s) && Enabled(s, step) && !step.BeginPush?
    ensures Work(Apply(s, step)) < Work(s) + if PopsNothing(s, step) then 3 else if HandsOver(step) then 2 else 0
  {
    assert ThreadWf(s, s.threads[step.t]);
    StepTouchesOne(s, step);
    StepWork(s, step, QueueOf(s, step));
  }

  /** However the threads are scheduled, a run that begins no push is no longer than the
      work at its start, but for batches popped empty, each while a push is in flight,
      and hand-overs at the end of a time slice. */
  lemma {:induction false} RunBound(s: State, steps: seq<Step>, end: State)
    requires Inv(s) && Leads(s, steps, end) && forall k :: 0 <= k < |steps| ==> !steps[k].BeginPush?
    ensures |steps| + Work(end) <= Work(s) + Waste(s, steps)
    ensures Inv(end)
    decreases |steps|
  {
    if steps != [] {
      StepInv(s, steps[0]);
      StepCost(s, steps[0]);
      RunBound(Apply(s, steps[0]), steps[1..], end);
    }
  }

  /** And a run that cannot go on without a new push has finished everything. */
  lemma StuckMeansDone(s: State, q: nat)
    requires Inv(s) && |s.threads| > 0 && q < |s.queues|
    requires forall step :: Enabled(s, step) ==> step.BeginPush?
    ensures Quiescent(s) && s.queues[q].ran == s.queues[q].arrived && s.queues[q].count == 0
  {
    if !Quiescent(s) {
      var step := CanAdvance(s);
    }
    QuiescentMeansDone(s, q);
  }

  /** Every job queued in s, and perhaps more, has run in end. */
  ghost predicate RanAll(s: State, end: State) {
    && |end.queues| == |s.queues|
    && forall q :: 0 <= q < |s.queues| ==>
         end.queues[q].ran == end.queues[q].arrived && s.queues[q].arrived <= end.queues[q].arrived
  }

  lemma QuiescentRanAll(s: State)
    requires Inv(s) && Quiescent(s)
    ensures RanAll(s, s)
  {
    forall q | 0 <= q < |s.queues|
      ensures s.queues[q].ran == s.queues[q].arrived
    {
      QuiescentMeansDone(s, q);
    }
  }

  lemma ArrivedGrows(s: State, step: Step)
    requires Enabled(s, step)
    ensures var s' := Apply(s, step);
            && |s'.threads| == |s.threads| && |s'.queues| == |s.queues|
            && forall q :: 0 <= q < |s.queues| ==> s.queues[q].arrived <= s'.queues[q].arrived
  {
  }

  /** From every reachable state the threads can finish without new pushes, and when
      they have, every job queued so far or still being pushed has run. */
  lemma {:induction false} CanDrain(s: State) returns (steps: seq<Step>, end: State)
    requires Inv(s) && |s.threads| > 0
    ensures Leads(s, steps, end) && (forall k :: 0 <= k < |steps| ==> !steps[k].BeginPush?)
    ensures Quiescent(end) && RanAll(s, end)
    decreases Work(s)
  {
    if Quiescent(s) {
      steps, end := [], s;
      QuiescentRanAll(s);
    } else {
      var step := CanAdvance(s);
      StepInv(s, step);
      ArrivedGrows(s, step);
      var rest;
      rest, end := CanDrain(Apply(s, step));
      LeadsCons(s, step, rest, end);
      steps := [step] + rest;
    }
  }
}
