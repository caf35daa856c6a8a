/** The reserved-job timer: a heap of jobs ordered by execution time, drained by
    whichever thread wins the `distributing` flag. */
module JobTimers {

  datatype Item = Item(time: real, owner: nat, job: nat)

  predicate Earliest(x: Item, items: multiset<Item>) {
    x in items && forall y :: y in items ==> x.time <= y.time
  }

  predicate InOrder(batch: seq<Item>) {
    forall i, j :: 0 <= i < j < |batch| ==> batch[i].time <= batch[j].time
  }

  /** Popping the heap top while it is due can produce exactly these sequences: every
      due item, in nondecreasing time, ties in any order. */
  ghost predicate IsDrain(items: multiset<Item>, now: real, batch: seq<Item>) {
    && InOrder(batch)
    && (forall x :: multiset(batch)[x] == if x.time <= now then items[x] else 0)
  }

  lemma {:induction false} EarliestExists(items: multiset<Item>)
    requires items != multiset{}
    ensures exists x :: Earliest(x, items)
    decreases |items|
  {
    var x :| x in items;
    var rest := items - multiset{x};
    if rest == multiset{} {
      assert items == multiset{x};
      assert Earliest(x, items);
    } else {
      EarliestExists(rest);
      var y :| Earliest(y, rest);
      assert forall z :: z in items ==> z == x || z in rest;
      assert Earliest(if x.time <= y.time then x else y, items);
    }
  }

  lemma DrainedItems(was: multiset<Item>, left: multiset<Item>, now: real, batch: seq<Item>)
    requires left + multiset(batch) == was
    requires forall x :: x in left ==> now < x.time
    requires forall i :: 0 <= i < |batch| ==> batch[i].time <= now
    requires InOrder(batch)
    ensures IsDrain(was, now, batch)
  {
    forall x: Item
      ensures multiset(batch)[x] == if x.time <= now then was[x] else 0
    {
      if x in multiset(batch) {
        assert x in batch;
      } else if x.time <= now {
        assert x !in left;
      }
    }
  }

  /** Adding the heap top to a sorted batch that precedes the heap. */
  ghost predicate Precedes(batch: seq<Item>, items: multiset<Item>, now: real) {
    && InOrder(batch)
    && (forall i :: 0 <= i < |batch| ==> batch[i].time <= now)
    && (forall i, x :: 0 <= i < |batch| && x in items ==> batch[i].time <= x.time)
  }

  lemma PopTop(batch: seq<Item>, items: multiset<Item>, now: real, top: Item)
    requires Precedes(batch, items, now) && Earliest(top, items) && top.time <= now
    ensures Precedes(batch + [top], items - multiset{top}, now)
    ensures items - multiset{top} + multiset(batch + [top]) == items + multiset(batch)
  {
    assert forall x :: x in items - multiset{top} ==> x in items;
  }

  function Alive(batch: seq<Item>, alive: set<nat>): seq<Item> {
    if batch == [] then []
    else if batch[0].owner in alive then [batch[0]] + Alive(batch[1..], alive)
    else Alive(batch[1..], alive)
  }

  function Gone(batch: seq<Item>, alive: set<nat>): seq<Item> {
    if batch == [] then []
    else if batch[0].owner in alive then Gone(batch[1..], alive)
    else [batch[0]] + Gone(batch[1..], alive)
  }

  predicate NoneBefore(batch: seq<Item>, t: real) {
    forall i :: 0 <= i < |batch| ==> t <= batch[i].time
  }

  lemma {:induction false} SplitByOwner(batch: seq<Item>, alive: set<nat>)
    ensures multiset(Alive(batch, alive)) + multiset(Gone(batch, alive)) == multiset(batch)
    ensures forall x :: x in Alive(batch, alive) ==> x.owner in alive
    ensures forall x :: x in Gone(batch, alive) ==> x.owner !in alive
  {
    if batch != [] {
      SplitByOwner(batch[1..], alive);
      assert batch == [batch[0]] + batch[1..];
    }
  }

  lemma InOrderCons(x: Item, rest: seq<Item>)
    requires InOrder(rest) && NoneBefore(rest, x.time)
    ensures InOrder([x] + rest)
  {
  }

  lemma {:induction false} SplitInOrder(batch: seq<Item>, alive: set<nat>)
    requires InOrder(batch)
    ensures InOrder(Alive(batch, alive)) && InOrder(Gone(batch, alive))
    ensures forall t :: NoneBefore(batch, t) ==> NoneBefore(Alive(batch, alive), t) && NoneBefore(Gone(batch, alive), t)
  {
    if batch != [] {
      var rest := batch[1..];
      SplitInOrder(rest, alive);
      assert NoneBefore(rest, batch[0].time);
      assert forall t :: NoneBefore(batch, t) ==> t <= batch[0].time && NoneBefore(rest, t);
      if batch[0].owner in alive {
        InOrderCons(batch[0], Alive(rest, alive));
      } else {
        InOrderCons(batch[0], Gone(rest, alive));
      }
    }
  }

  /** Of these items, exactly the due ones have gone out, each once: to their owners those
      whose owner is there, and dropped the others, both in the order of their times. */
  ghost predicate HandedOut(items: multiset<Item>, now: real, alive: set<nat>, pushed: seq<Item>, dropped: seq<Item>) {
    && (forall x :: multiset(pushed)[x] + multiset(dropped)[x] == if x.time <= now then items[x] else 0)
    && (forall x :: x in pushed ==> x.owner in alive) && (forall x :: x in dropped ==> x.owner !in alive)
    && InOrder(pushed) && InOrder(dropped)
  }

  lemma DrainHandsOut(items: multiset<Item>, now: real, alive: set<nat>, batch: seq<Item>)
    requires IsDrain(items, now, batch)
    ensures HandedOut(items, now, alive, Alive(batch, alive), Gone(batch, alive))
  {
    SplitByOwner(batch, alive);
    SplitInOrder(batch, alive);
    forall x: Item
      ensures multiset(Alive(batch, alive))[x] + multiset(Gone(batch, alive))[x] ==
              if x.time <= now then items[x] else 0
    {
      assert multiset(batch)[x] == (multiset(Alive(batch, alive)) + multiset(Gone(batch, alive)))[x];
    }
  }

  class JobTimer {
    var items: multiset<Item>
    var distributing: bool
    ghost var pushed: seq<Item>    // handed to their owner's queue, in order
    ghost var dropped: seq<Item>   // owner already gone

    constructor ()
      ensures items == multiset{} && !distributing && pushed == [] && dropped == []
    {
      items := multiset{};
      distributing := false;
      pushed := [];
      dropped := [];
    }

    method Reserve(serverTime: real, afterTime: real, owner: nat, job: nat)
      modifies this`items
      ensures items == old(items) + multiset{Item(serverTime + afterTime, owner, job)}
    {
      var executeTime := serverTime + afterTime;
      items := items + multiset{Item(executeTime, owner, job)};
    }

    /** The locked loop of Distribute. */
    method PopDue(now: real) returns (batch: seq<Item>)
      modifies this`items
      ensures IsDrain(old(items), now, batch) && items + multiset(batch) == old(items)
      ensures forall x :: x in items ==> now < x.time
    {
      batch := [];
      while items != multiset{}
        invariant items + multiset(batch) == old(items)
        invariant Precedes(batch, items, now)
        decreases |items|
      {
        EarliestExists(items);
        var top :| Earliest(top, items);
        if now < top.time {
          break;
        }
        PopTop(batch, items, now, top);
        batch := batch + [top];
        items := items - multiset{top};
      }
      DrainedItems(old(items), items, now, batch);
    }

    method HandOut(batch: seq<Item>, alive: set<nat>)
      modifies this`pushed, this`dropped
      ensures pushed == old(pushed) + Alive(batch, alive) && dropped == old(dropped) + Gone(batch, alive)
    {
      var i := 0;
      while i < |batch|
        invariant 0 <= i <= |batch|
        invariant pushed + Alive(batch[i..], alive) == old(pushed) + Alive(batch, alive)
        invariant dropped + Gone(batch[i..], alive) == old(dropped) + Gone(batch, alive)
      {
        assert batch[i..][1..] == batch[i + 1..];
        if batch[i].owner in alive {
          pushed := pushed + [batch[i]];
        } else {
          dropped := dropped + [batch[i]];
        }
        i := i + 1;
      }
    }

    /** Owners in `alive` can still be locked; the jobs of the others are dropped. */
    method Distribute(now: real, alive: set<nat>) returns (ghost batch: seq<Item>)
      modifies this
      ensures old(distributing) ==>
                distributing && items == old(items) && pushed == old(pushed) && dropped == old(dropped)
      ensures !old(distributing) ==>
                && !distributing
                && IsDrain(old(items), now, batch) && items + multiset(batch) == old(items)
                && pushed == old(pushed) + Alive(batch, alive) && dropped == old(dropped) + Gone(batch, alive)
                && HandedOut(old(items), now, alive, pushed[|old(pushed)|..], dropped[|old(dropped)|..])
                && (forall x :: items[x] == if x.time <= now then 0 else old(items)[x])
    {
      batch := [];
      var was := distributing;
      distributing := true;
      if was {
        return;
      }
      var due := PopDue(now);
      batch := due;
      HandOut(due, alive);
      distributing := false;
      DrainHandsOut(old(items), now, alive, due);
      assert pushed[|old(pushed)|..] == Alive(due, alive) && dropped[|old(dropped)|..] == Gone(due, alive);
      forall x
        ensures items[x] == if x.time <= now then 0 else old(items)[x]
      {
        assert old(items)[x] == items[x] + multiset(due)[x];
      }
    }
  }

  // --------------------------------------------------- many threads at once

  datatype Pc =
    | Idle
    | Collecting(now: real)                                // won the flag
    | Dispatching(now: real, batch: seq<Item>, next: nat)  // popped, handing out

  datatype Holder = Nobody | Thread(t: nat)

  /** One job leaving the timer, in which round of Distribute and at what time. */
  datatype Event = Event(item: Item, alive: bool, round: nat, now: real)

  /** Histories: who holds the flag, the round count, everything reserved, and the
      events in order. */
  datatype State = State(
    threads: seq<Pc>, items: multiset<Item>, distributing: bool,
    holder: Holder, rounds: nat, reserved: multiset<Item>, log: seq<Event>)

  datatype Step =
    | Reserve(item: Item)
    | Enter(t: nat, now: real)
    | Collect(t: nat, batch: seq<Item>)
    | Dispatch(t: nat, alive: bool)
    | Leave(t: nat)

  ghost predicate Enabled(s: State, step: Step) {
    match step
    case Reserve(_) => true
    case Enter(t, _) => t < |s.threads| && s.threads[t].Idle?
    case Collect(t, batch) => t < |s.threads| && s.threads[t].Collecting? && IsDrain(s.items, s.threads[t].now, batch)
    case Dispatch(t, _) => t < |s.threads| && s.threads[t].Dispatching? && s.threads[t].next < |s.threads[t].batch|
    case Leave(t) => t < |s.threads| && s.threads[t].Dispatching? && s.threads[t].next == |s.threads[t].batch|
  }

  ghost function Apply(s: State, step: Step): State
    requires Enabled(s, step)
  {
    match step
    case Reserve(item) => s.(items := s.items + multiset{item}, reserved := s.reserved + multiset{item})
    case Enter(t, now) =>
      if s.distributing then s
      else s.(distributing := true, holder := Thread(t), rounds := s.rounds + 1,
                threads := s.threads[t := Collecting(now)])
    case Collect(t, batch) =>
      s.(items := s.items - multiset(batch), threads := s.threads[t := Dispatching(s.threads[t].now, batch, 0)])
    case Dispatch(t, alive) =>
      var pc := s.threads[t];
      s.(threads := s.threads[t := pc.(next := pc.next + 1)],
         log := s.log + [Event(pc.batch[pc.next], alive, s.rounds, pc.now)])
    case Leave(t) => s.(distributing := false, holder := Nobody, threads := s.threads[t := Idle])
  }

  ghost predicate Init(s: State) {
    && (forall t :: 0 <= t < |s.threads| ==> s.threads[t].Idle?)
    && s == State(s.threads, multiset{}, false, Nobody, 0, multiset{}, [])
  }

  ghost predicate Next(s: State, s': State) {
    exists step :: Enabled(s, step) && s' == Apply(s, step)
  }

  ghost predicate Behaviour(run: seq<State>) {
    && run != [] && Init(run[0])
    && forall i :: 0 <= i < |run| - 1 ==> Next(run[i], run[i + 1])
  }

  function Items(log: seq<Event>): multiset<Item> {
    if log == [] then multiset{} else Items(log[..|log| - 1]) + multiset{log[|log| - 1].item}
  }

  /** What the thread holding the flag has popped and not handed out yet. */
  function InHand(s: State): seq<Item> {
    if s.holder.Thread? && s.holder.t < |s.threads| && s.threads[s.holder.t].Dispatching? &&
       s.threads[s.holder.t].next <= |s.threads[s.holder.t].batch|
    then s.threads[s.holder.t].batch[s.threads[s.holder.t].next..]
    else []
  }

  ghost predicate Exclusive(s: State) {
    && (s.distributing <==> s.holder.Thread?)
    && (s.holder.Thread? ==> s.holder.t < |s.threads|)
    && (forall t :: 0 <= t < |s.threads| ==> (s.threads[t].Idle? <==> s.holder != Thread(t)))
  }

  ghost predicate Conserved(s: State) {
    s.reserved == s.items + multiset(InHand(s)) + Items(s.log)
  }

  /** A batch in hand is sorted, due, and no earlier than what its round handed out. */
  ghost predicate BatchOk(s: State, pc: Pc) {
    pc.Dispatching? ==>
      && pc.next <= |pc.batch|
      && InOrder(pc.batch)
      && (forall i :: 0 <= i < |pc.batch| ==> pc.batch[i].time <= pc.now)
      && (forall i, k :: 0 <= i < |s.log| && pc.next <= k < |pc.batch| && s.log[i].round == s.rounds ==>
            s.log[i].item.time <= pc.batch[k].time)
  }

  /** Jobs leave no earlier than due, rounds do not interleave, and within a round times
      do not go down. */
  ghost predicate LogOk(log: seq<Event>, rounds: nat) {
    && (forall i :: 0 <= i < |log| ==> log[i].round <= rounds && log[i].item.time <= log[i].now)
    && (forall i, j :: 0 <= i < j < |log| ==> log[i].round <= log[j].round)
    && (forall i, j :: 0 <= i < j < |log| && log[i].round == log[j].round ==> log[i].item.time <= log[j].item.time)
  }

  /** No job has left in the current round. */
  ghost predicate NewRound(s: State) {
    forall i :: 0 <= i < |s.log| ==> s.log[i].round < s.rounds
  }

  ghost predicate Ordered(s: State) {
    && (forall t :: 0 <= t < |s.threads| ==> BatchOk(s, s.threads[t]))
    && (forall t :: 0 <= t < |s.threads| && s.threads[t].Collecting? ==> NewRound(s))
    && LogOk(s.log, s.rounds)
  }

  ghost predicate Inv(s: State) { Exclusive(s) && Conserved(s) && Ordered(s) }

  lemma ExclusiveStep(s: State, step: Step)
    requires Inv(s) && Enabled(s, step)
    ensures Exclusive(Apply(s, step))
  {
    var s' := Apply(s, step);
    forall t | 0 <= t < |s'.threads|
      ensures s'.threads[t].Idle? <==> s'.holder != Thread(t)
    {
      assert s.threads[t].Idle? <==> s.holder != Thread(t);
    }
  }

  lemma DrainFits(items: multiset<Item>, now: real, batch: seq<Item>)
    requires IsDrain(items, now, batch)
    ensures items - multiset(batch) + multiset(batch) == items
  {
    assert forall x :: multiset(batch)[x] <= items[x];
  }

  lemma DrainIsDue(s: State, now: real, batch: seq<Item>)
    requires IsDrain(s.items, now, batch)
    ensures forall i :: 0 <= i < |batch| ==> batch[i].time <= now
  {
    forall i | 0 <= i < |batch|
      ensures batch[i].time <= now
    {
      assert batch[i] in multiset(batch);
    }
  }

  lemma ConservedCollect(s: State, step: Step)
    requires Inv(s) && Enabled(s, step) && step.Collect?
    ensures Conserved(Apply(s, step))
  {
    DrainFits(s.items, s.threads[step.t].now, step.batch);
    assert InHand(s) == [] && InHand(Apply(s, step)) == step.batch[0..] == step.batch;
  }

  lemma ItemsMore(log: seq<Event>, e: Event)
    ensures Items(log + [e]) == Items(log) + multiset{e.item}
  {
    assert (log + [e])[..|log|] == log;
  }

  lemma NextInHand(batch: seq<Item>, next: nat)
    requires next < |batch|
    ensures multiset(batch[next..]) == multiset{batch[next]} + multiset(batch[next + 1..])
  {
    assert batch[next..] == [batch[next]] + batch[next + 1..];
  }

  lemma ConservedDispatch(s: State, step: Step)
    requires Inv(s) && Enabled(s, step) && step.Dispatch?
    ensures Conserved(Apply(s, step))
  {
    var pc := s.threads[step.t];
    var s' := Apply(s, step);
    assert InHand(s) == pc.batch[pc.next..] && InHand(s') == pc.batch[pc.next + 1..];
    NextInHand(pc.batch, pc.next);
    ItemsMore(s.log, Event(pc.batch[pc.next], step.alive, s.rounds, pc.now));
  }

  lemma ConservedLeave(s: State, step: Step)
    requires Inv(s) && Enabled(s, step) && step.Leave?
    ensures Conserved(Apply(s, step))
  {
    var pc := s.threads[step.t];
    assert InHand(s) == pc.batch[pc.next..] == [] == InHand(Apply(s, step));
  }

  lemma ConservedOther(s: State, step: Step)
    requires Inv(s) && Enabled(s, step) && (step.Reserve? || step.Enter?)
    ensures Conserved(Apply(s, step))
  {
    assert InHand(Apply(s, step)) == InHand(s);
  }

  lemma ConservedStep(s: State, step: Step)
    requires Inv(s) && Enabled(s, step)
    ensures Conserved(Apply(s, step))
  {
    if step.Collect? {
      ConservedCollect(s, step);
    } else if step.Dispatch? {
      ConservedDispatch(s, step);
    } else if step.Leave? {
      ConservedLeave(s, step);
    } else {
      ConservedOther(s, step);
    }
  }

  /** While one thread collects or dispatches, all others are idle. */
  lemma OthersIdle(s: State, step: Step)
    requires Exclusive(s) && Enabled(s, step) && (step.Collect? || step.Dispatch? || step.Leave?)
    ensures var s' := Apply(s, step);
            |s'.threads| == |s.threads| && forall t :: 0 <= t < |s.threads| && t != step.t ==> s'.threads[t].Idle?
  {
    assert s.holder == Thread(step.t);
    forall t | 0 <= t < |s.threads| && t != step.t
      ensures Apply(s, step).threads[t].Idle?
    {
      assert Apply(s, step).threads[t] == s.threads[t];
    }
  }

  lemma OrderedAlone(s: State, t: nat)
    requires t < |s.threads| && s.threads[t].Dispatching? && BatchOk(s, s.threads[t]) && LogOk(s.log, s.rounds)
    requires forall u :: 0 <= u < |s.threads| && u != t ==> s.threads[u].Idle?
    ensures Ordered(s)
  {
  }

  lemma NewBatchOk(s: State, pc: Pc)
    requires pc.Dispatching? && pc.next == 0 && NewRound(s)
    requires InOrder(pc.batch)
    requires forall i :: 0 <= i < |pc.batch| ==> pc.batch[i].time <= pc.now
    ensures BatchOk(s, pc)
  {
  }

  lemma OrderedCollect(s: State, step: Step)
    requires Inv(s) && Enabled(s, step) && step.Collect?
    ensures Ordered(Apply(s, step))
  {
    var s' := Apply(s, step);
    DrainIsDue(s, s.threads[step.t].now, step.batch);
    NewBatchOk(s', s'.threads[step.t]);
    OthersIdle(s, step);
    OrderedAlone(s', step.t);
  }

  lemma LogGrows(log: seq<Event>, e: Event)
    requires LogOk(log, e.round) && e.item.time <= e.now
    requires forall i :: 0 <= i < |log| && log[i].round == e.round ==> log[i].item.time <= e.item.time
    ensures LogOk(log + [e], e.round)
  {
  }

  lemma RestBatchOk(s: State, s': State, pc: Pc, e: Event)
    requires pc.Dispatching? && pc.next < |pc.batch| && BatchOk(s, pc) && e.item == pc.batch[pc.next]
    requires s'.rounds == s.rounds && s'.log == s.log + [e]
    ensures BatchOk(s', pc.(next := pc.next + 1))
  {
  }

  lemma OrderedDispatch(s: State, step: Step)
    requires Inv(s) && Enabled(s, step) && step.Dispatch?
    ensures Ordered(Apply(s, step))
  {
    var pc := s.threads[step.t];
    var e := Event(pc.batch[pc.next], step.alive, s.rounds, pc.now);
    assert BatchOk(s, pc);
    LogGrows(s.log, e);
    RestBatchOk(s, Apply(s, step), pc, e);
    OthersIdle(s, step);
    OrderedAlone(Apply(s, step), step.t);
  }

  lemma OrderedEnter(s: State, step: Step)
    requires Inv(s) && Enabled(s, step) && step.Enter?
    ensures Ordered(Apply(s, step))
  {
    var s' := Apply(s, step);
    forall t | 0 <= t < |s.threads|
      ensures BatchOk(s', s'.threads[t])
    {
      assert BatchOk(s, s.threads[t]);
      assert s.distributing || s.threads[t].Idle?;
    }
  }

  lemma OrderedReserve(s: State, step: Step)
    requires Inv(s) && Enabled(s, step) && step.Reserve?
    ensures Ordered(Apply(s, step))
  {
    var s' := Apply(s, step);
    forall t | 0 <= t < |s.threads|
      ensures BatchOk(s', s'.threads[t])
    {
      assert BatchOk(s, s.threads[t]);
    }
  }

  lemma OrderedLeave(s: State, step: Step)
    requires Inv(s) && Enabled(s, step) && step.Leave?
    ensures Ordered(Apply(s, step))
  {
    OthersIdle(s, step);
  }

  lemma OrderedStep(s: State, step: Step)
    requires Inv(s) && Enabled(s, step)
    ensures Ordered(Apply(s, step))
  {
    if step.Collect? {
      OrderedCollect(s, step);
    } else if step.Dispatch? {
      OrderedDispatch(s, step);
    } else if step.Enter? {
      OrderedEnter(s, step);
    } else if step.Leave? {
      OrderedLeave(s, step);
    } else {
      OrderedReserve(s, step);
    }
  }

  lemma NextInv(s: State, s': State)
    requires Inv(s) && Next(s, s')
    ensures Inv(s')
  {
    var step :| Enabled(s, step) && s' == Apply(s, step);
    ExclusiveStep(s, step);
    ConservedStep(s, step);
    OrderedStep(s, step);
  }

  lemma {:induction false} BehaviourInv(run: seq<State>, i: nat)
    requires Behaviour(run) && i < |run|
    ensures Inv(run[i])
  {
    if i > 0 {
      BehaviourInv(run, i - 1);
      assert Next(run[i - 1], run[i]);
      NextInv(run[i - 1], run[i]);
    }
  }

  ghost predicate Leads(s: State, steps: seq<Step>, end: State)
    decreases |steps|
  {
    if steps == [] then s == end
    else Enabled(s, steps[0]) && Leads(Apply(s, steps[0]), steps[1..], end)
  }

  /** The items of the Reserve calls of a run. */
  function Asked(steps: seq<Step>): multiset<Item> {
    if steps == [] then multiset{}
    else (if steps[0].Reserve? then multiset{steps[0].item} else multiset{}) + Asked(steps[1..])
  }

  lemma ReserveStep(s: State, step: Step)
    requires Enabled(s, step)
    ensures Apply(s, step).reserved == s.reserved + if step.Reserve? then multiset{step.item} else multiset{}
  {
  }

  lemma {:induction false} ReservedExactly(s: State, steps: seq<Step>, end: State)
    requires Leads(s, steps, end)
    ensures end.reserved == s.reserved + Asked(steps)
    decreases |steps|
  {
    if steps != [] {
      ReserveStep(s, steps[0]);
      ReservedExactly(Apply(s, steps[0]), steps[1..], end);
    }
  }

  lemma {:induction false} InvLeads(s: State, steps: seq<Step>, end: State)
    requires Inv(s) && Leads(s, steps, end)
    ensures Inv(end)
    decreases |steps|
  {
    if steps != [] {
      var s1 := Apply(s, steps[0]);
      assert Next(s, s1);
      NextInv(s, s1);
      InvLeads(s1, steps[1..], end);
    }
  }

  /** Whatever Reserve was called for is, exactly once, pending, in hand, or gone. */
  lemma CallsConserved(s: State, steps: seq<Step>, end: State)
    requires Init(s) && Leads(s, steps, end)
    ensures Asked(steps) == end.items + multiset(InHand(end)) + Items(end.log)
  {
    ReservedExactly(s, steps, end);
    InvLeads(s, steps, end);
  }

  /** The step is none of thread t's. */
  predicate Foreign(step: Step, t: nat) { step.Reserve? || step.t != t }

  lemma {:induction false} OthersKeepThread(s: State, steps: seq<Step>, end: State, t: nat)
    requires Leads(s, steps, end) && t < |s.threads| && forall k :: 0 <= k < |steps| ==> Foreign(steps[k], t)
    ensures t < |end.threads| && end.threads[t] == s.threads[t]
    decreases |steps|
  {
    if steps != [] {
      OthersKeepThread(Apply(s, steps[0]), steps[1..], end, t);
    }
  }

  /** A round that began at `now` collects, in order, everything that is due then, with
      what others have reserved meanwhile, and leaves nothing due behind. */
  lemma RoundCollectsDue(s: State, t: nat, now: real, others: seq<Step>, s1: State, batch: seq<Item>)
    requires Enabled(s, Enter(t, now)) && Leads(Apply(s, Enter(t, now)), others, s1)
    requires forall k :: 0 <= k < |others| ==> Foreign(others[k], t)
    requires Enabled(s1, Collect(t, batch))
    ensures !s.distributing && InOrder(batch)
    ensures forall x :: multiset(batch)[x] == if x.time <= now then s1.items[x] else 0
    ensures var end := Apply(s1, Collect(t, batch));
            && end.threads[t] == Dispatching(now, batch, 0)
            && forall x :: end.items[x] == if x.time <= now then 0 else s1.items[x]
  {
    OthersKeepThread(Apply(s, Enter(t, now)), others, s1, t);
  }

  /** In every interleaving of Reserve and Distribute calls: a reserved job is exactly
      once pending, in the one batch being handed out, or gone; none leaves before its
      time; and rounds do not interleave, each handing out in nondecreasing time. */
  lemma TimerConservation(run: seq<State>, i: nat)
    requires Behaviour(run) && i < |run|
    ensures var s := run[i];
            && s.reserved == s.items + multiset(InHand(s)) + Items(s.log)
            && (forall t, u :: 0 <= t < u < |s.threads| ==> s.threads[t].Idle? || s.threads[u].Idle?)
            && (forall k :: 0 <= k < |s.log| ==> s.log[k].item.time <= s.log[k].now)
            && (forall j, k :: 0 <= j < k < |s.log| ==>
                  s.log[j].round < s.log[k].round || (s.log[j].round == s.log[k].round &&
                            s.log[j].item.time <= s.log[k].item.time))
  {
    BehaviourInv(run, i);
  }
}
