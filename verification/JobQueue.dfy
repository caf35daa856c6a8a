/** JobQueue on one thread: Push and Execute as they are written, run on jobs that
    may themselves push further jobs to the same queue. */
module JobQueues {
  import opened LockQueues

  /** A job, and the jobs its callback pushes to the same queue, in order. */
  datatype Job = Job(id: nat, children: seq<Job>)

  function Size(js: seq<Job>): nat {
    if js == [] then 0 else 1 + Size(js[0].children) + Size(js[1..])
  }

  lemma {:induction false} SizeAppend(a: seq<Job>, b: seq<Job>)
    ensures Size(a + b) == Size(a) + Size(b)
  {
    if a == [] {
      assert a + b == b;
    } else {
      assert (a + b)[1..] == a[1..] + b;
      SizeAppend(a[1..], b);
    }
  }

  /** The reference: a one-at-a-time FIFO.  Run the oldest job, then queue its children. */
  function Bfs(js: seq<Job>): seq<nat>
    decreases Size(js)
  {
    if js == [] then []
    else
      SizeAppend(js[1..], js[0].children);
      [js[0].id] + Bfs(js[1..] + js[0].children)
  }

  function Ids(js: seq<Job>): (ids: seq<nat>)
    ensures |ids| == |js| && forall i :: 0 <= i < |js| ==> ids[i] == js[i].id
  {
    seq(|js|, i requires 0 <= i < |js| => js[i].id)
  }

  /** The next level of the forest. */
  function Children(js: seq<Job>): seq<Job> {
    if js == [] then [] else js[0].children + Children(js[1..])
  }

  lemma {:induction false} ChildrenSize(js: seq<Job>)
    ensures Size(js) == |js| + Size(Children(js))
  {
    if js != [] {
      ChildrenSize(js[1..]);
      SizeAppend(js[0].children, Children(js[1..]));
    }
  }

  /** Level by level. */
  function LevelOrder(js: seq<Job>): seq<nat>
    decreases Size(js)
  {
    if js == [] then []
    else
      ChildrenSize(js);
      Ids(js) + LevelOrder(Children(js))
  }

  /** Draining a whole batch first and queueing all children behind `tail` is what the
      one-at-a-time FIFO does. */
  lemma {:induction false} BatchIsFifo(batch: seq<Job>, tail: seq<Job>)
    ensures Bfs(batch + tail) == Ids(batch) + Bfs(tail + Children(batch))
  {
    if batch == [] {
      assert batch + tail == tail && tail + Children(batch) == tail;
    } else {
      var js := batch + tail;
      assert js[1..] + js[0].children == batch[1..] + (tail + batch[0].children);
      BatchIsFifo(batch[1..], tail + batch[0].children);
      assert (tail + batch[0].children) + Children(batch[1..]) == tail + Children(batch);
      assert Ids(batch) == [batch[0].id] + Ids(batch[1..]);
    }
  }

  /** In particular from an empty queue behind it. */
  lemma BatchWhole(js: seq<Job>)
    ensures Bfs(js) == Ids(js) + Bfs(Children(js))
  {
    BatchIsFifo(js, []);
    assert js + [] == js && [] + Children(js) == Children(js);
  }

  /** The FIFO order is breadth-first. */
  lemma {:induction false} BfsIsLevelOrder(js: seq<Job>)
    ensures Bfs(js) == LevelOrder(js)
    decreases Size(js)
  {
    if js != [] {
      ChildrenSize(js);
      BatchWhole(js);
      BfsIsLevelOrder(Children(js));
    }
  }

  /** All nodes of the forest, as a multiset of ids. */
  function Nodes(js: seq<Job>): multiset<nat> {
    if js == [] then multiset{} else multiset{js[0].id} + Nodes(js[0].children) + Nodes(js[1..])
  }

  lemma {:induction false} NodesAppend(a: seq<Job>, b: seq<Job>)
    ensures Nodes(a + b) == Nodes(a) + Nodes(b)
  {
    if a == [] {
      assert a + b == b;
    } else {
      assert (a + b)[1..] == a[1..] + b;
      NodesAppend(a[1..], b);
    }
  }

  /** Every node of the forest is run, each exactly once. */
  lemma {:induction false} BfsRunsEachNodeOnce(js: seq<Job>)
    ensures multiset(Bfs(js)) == Nodes(js) && |Bfs(js)| == Size(js)
    decreases Size(js)
  {
    if js != [] {
      SizeAppend(js[1..], js[0].children);
      NodesAppend(js[1..], js[0].children);
      var next := js[1..] + js[0].children;
      BfsRunsEachNodeOnce(next);
      assert Bfs(js) == [js[0].id] + Bfs(next);
    }
  }

  // ------------------------------------------------------- with a time slice

  /** Draining batch after batch, when the k-th look at the clock, after a batch that did
      not empty the queue, finds the slice over: what it runs. */
  function SliceRuns(js: seq<Job>, timeUp: nat -> bool, k: nat): seq<nat>
    decreases Size(js)
  {
    ChildrenSize(js);
    if Children(js) == [] || timeUp(k) then Ids(js) else Ids(js) + SliceRuns(Children(js), timeUp, k + 1)
  }

  /** And what it leaves waiting. */
  function SliceLeaves(js: seq<Job>, timeUp: nat -> bool, k: nat): seq<Job>
    decreases Size(js)
  {
    ChildrenSize(js);
    if Children(js) == [] || timeUp(k) then Children(js) else SliceLeaves(Children(js), timeUp, k + 1)
  }

  lemma Regroup(a: seq<nat>, b: seq<nat>, c: seq<nat>)
    ensures a + (b + c) == a + b + c
  {
  }

  /** Whatever the clock says, what has run is the one-at-a-time FIFO order cut off where
      waiting begins, and at least the jobs waiting at the start have run. */
  lemma {:induction false} SliceIsFifo(js: seq<Job>, timeUp: nat -> bool, k: nat)
    ensures SliceRuns(js, timeUp, k) + Bfs(SliceLeaves(js, timeUp, k)) == Bfs(js)
    ensures Ids(js) <= SliceRuns(js, timeUp, k)
    decreases Size(js)
  {
    ChildrenSize(js);
    BatchWhole(js);
    if Children(js) != [] && !timeUp(k) {
      SliceIsFifo(Children(js), timeUp, k + 1);
      Regroup(Ids(js), SliceRuns(Children(js), timeUp, k + 1), Bfs(SliceLeaves(js, timeUp, k)));
    }
  }

  /** The slice is long enough for js: no look at the clock before the last level is
      done finds it over. */
  predicate LongEnough(js: seq<Job>, timeUp: nat -> bool, k: nat)
    decreases Size(js)
  {
    ChildrenSize(js);
    Children(js) == [] || (!timeUp(k) && LongEnough(Children(js), timeUp, k + 1))
  }

  /** Everything runs, each job of the forest once and breadth-first, exactly when the
      slice is long enough; in particular when time is never up. */
  lemma {:induction false} SliceRunsAllExactly(js: seq<Job>, timeUp: nat -> bool, k: nat)
    ensures var all := SliceLeaves(js, timeUp, k) == [];
            && (all <==> LongEnough(js, timeUp, k))
            && (all <==> SliceRuns(js, timeUp, k) == LevelOrder(js))
            && (all <==> multiset(SliceRuns(js, timeUp, k)) == Nodes(js))
    ensures (forall i :: !timeUp(i)) ==> LongEnough(js, timeUp, k)
    decreases Size(js)
  {
    ChildrenSize(js);
    SliceIsFifo(js, timeUp, k);
    BfsIsLevelOrder(js);
    BfsRunsEachNodeOnce(js);
    var ids, rest := SliceRuns(js, timeUp, k), Bfs(SliceLeaves(js, timeUp, k));
    BfsRunsEachNodeOnce(SliceLeaves(js, timeUp, k));
    assert multiset(ids + rest) == multiset(ids) + multiset(rest);
    if Children(js) != [] && !timeUp(k) {
      SliceRunsAllExactly(Children(js), timeUp, k + 1);
    }
  }

  /** The loop, with `ran` run and `waiting` waiting before its k-th look at the clock, is
      on the way to this end. */
  ghost predicate HeadsFor(ran: seq<nat>, waiting: seq<Job>, timeUp: nat -> bool, k: nat, ranEnd: seq<nat>,
            left: seq<Job>) {
    ran + SliceRuns(waiting, timeUp, k) == ranEnd && SliceLeaves(waiting, timeUp, k) == left
  }

  /** One more batch ends the slice or leads on to the next look at the clock. */
  lemma SliceTurn(ran: seq<nat>, waiting: seq<Job>, timeUp: nat -> bool, k: nat, ranEnd: seq<nat>, left: seq<Job>)
    requires HeadsFor(ran, waiting, timeUp, k, ranEnd, left)
    ensures Size(waiting) == |waiting| + Size(Children(waiting))
    ensures if Children(waiting) == [] || timeUp(k) then ranEnd == ran + Ids(waiting) && left == Children(waiting)
            else HeadsFor(ran + Ids(waiting), Children(waiting), timeUp, k + 1, ranEnd, left)
  {
    ChildrenSize(waiting);
    if Children(waiting) != [] && !timeUp(k) {
      Regroup(ran, Ids(waiting), SliceRuns(Children(waiting), timeUp, k + 1));
    }
  }

  /** LCurrentJobQueue of the running thread. */
  class ThreadLocal {
    var current: JobQueue?

    constructor ()
      ensures current == null
    {
      current := null;
    }
  }

  /** The shared queue of job queues waiting for a worker. */
  class GlobalQueue {
    var queues: seq<JobQueue>

    constructor ()
      ensures queues == []
    {
      queues := [];
    }

    method Push(q: JobQueue)
      modifies this
      ensures queues == old(queues) + [q]
    {
      queues := queues + [q];
    }
  }

  class JobQueue {
    const jobs: LockQueue<Job>
    var jobCount: int
    ghost var outstanding: nat   // popped by Execute, not yet subtracted
    ghost var ran: seq<nat>      // ids in order of execution

    ghost predicate Valid()
      reads this, jobs
    {
      NoNulls(jobs.items) && jobCount == |jobs.items| + outstanding
    }

    ghost function Waiting(): seq<Job>
      reads this, jobs
    {
      Leading(jobs.items)
    }

    constructor ()
      ensures Valid() && Waiting() == [] && jobCount == 0 && outstanding == 0 && ran == []
      ensures fresh(jobs)
    {
      jobs := new LockQueue();
      jobCount := 0;
      outstanding := 0;
      ran := [];
    }

    /** What Execute leaves behind when it started with `was` run and `todo` waiting: it
        has run and left waiting what the slice allows, and the queue is given up empty,
        or passed on through the global queue. */
    ghost predicate Drained(was: seq<nat>, todo: seq<Job>, timeUp: nat -> bool, globalWas: seq<JobQueue>,
              global: GlobalQueue)
      reads this, jobs, global
    {
      && ran == was + SliceRuns(todo, timeUp, 0) && Waiting() == SliceLeaves(todo, timeUp, 0)
      && jobCount == |Waiting()|
      && global.queues == globalWas + if Waiting() == [] then [] else [this]
    }

    /** A push that finds the counter at zero takes the queue over: it executes in
        place, or hands the queue to the global queue when it stands inside another
        Execute or was told to push only.  Any other push just queues. */
    method Push(job: Job, pushOnly: bool, tls: ThreadLocal, global: GlobalQueue, timeUp: nat -> bool)
      requires Valid() && (tls.current == null ==> outstanding == 0)
      modifies this, jobs, tls, global
      ensures Valid() && outstanding == old(outstanding) && tls.current == old(tls.current)
      ensures old(jobCount) != 0 || old(tls.current) != null || pushOnly ==>
                && Waiting() == old(Waiting()) + [job] && jobCount == old(jobCount) + 1 && ran == old(ran)
                && global.queues == old(global.queues) + (if old(jobCount) == 0 then [this] else [])
      ensures old(jobCount) == 0 && old(tls.current) == null && !pushOnly ==>
                Drained(old(ran), [job], timeUp, old(global.queues), global)
      decreases if tls.current == null then 2 else 0, 0
    {
      LeadingAppend(jobs.items, job);
      var prevCount := jobCount;
      jobCount := jobCount + 1;
      jobs.Push(Some(job));
      assert prevCount == 0 && outstanding == 0 ==> Waiting() == [job];
      if prevCount == 0 {
        if tls.current == null && !pushOnly {
          Execute(tls, global, timeUp);
        } else {
          global.Push(this);
        }
      }
    }

    /** The callback: it is recorded as run and pushes its children, which from inside
        Execute only queues them. */
    method RunJob(job: Job, tls: ThreadLocal, global: GlobalQueue, timeUp: nat -> bool)
      requires Valid() && tls.current == this && outstanding > 0
      modifies this, jobs, tls, global
      ensures Valid() && tls.current == this && outstanding == old(outstanding)
      ensures ran == old(ran) + [job.id] && Waiting() == old(Waiting()) + job.children
      ensures global.queues == old(global.queues)
      decreases 0, 1
    {
      ran := ran + [job.id];
      var k := 0;
      while k < |job.children|
        invariant 0 <= k <= |job.children|
        invariant Valid() && tls.current == this && outstanding == old(outstanding)
        invariant ran == old(ran) + [job.id] && Waiting() == old(Waiting()) + job.children[..k]
        invariant global.queues == old(global.queues)
      {
        Push(job.children[k], false, tls, global, timeUp);
        k := k + 1;
      }
    }

    /** The loop over one popped batch. */
    method RunBatch(batch: seq<Job>, tls: ThreadLocal, global: GlobalQueue, timeUp: nat -> bool)
      requires Valid() && tls.current == this && outstanding == |batch|
      modifies this, jobs, tls, global
      ensures Valid() && tls.current == this && outstanding == |batch|
      ensures ran == old(ran) + Ids(batch) && Waiting() == old(Waiting()) + Children(batch)
      ensures global.queues == old(global.queues)
      decreases 0, 2
    {
      var i := 0;
      while i < |batch|
        invariant 0 <= i <= |batch| && outstanding == |batch|
        invariant Valid() && tls.current == this && global.queues == old(global.queues)
        invariant ran == old(ran) + Ids(batch[..i])
        invariant Waiting() + Children(batch[i..]) == old(Waiting()) + Children(batch)
      {
        assert batch[i..][1..] == batch[i + 1..];
        assert Ids(batch[..i + 1]) == Ids(batch[..i]) + [batch[i].id];
        RunJob(batch[i], tls, global, timeUp);
        i := i + 1;
      }
      assert batch[..i] == batch;
    }

    /** One turn of Execute: pop everything, run it, subtract, and see whether that
        releases the queue. */
    method DrainOnce(tls: ThreadLocal, global: GlobalQueue, timeUp: nat -> bool) returns (released: bool)
      requires Valid() && outstanding == 0 && tls.current == this
      modifies this, jobs, tls, global
      ensures Valid() && outstanding == 0 && tls.current == this && global.queues == old(global.queues)
      ensures ran == old(ran) + Ids(old(Waiting())) && Waiting() == Children(old(Waiting()))
      ensures jobCount == |Waiting()| && released == (Waiting() == [])
      decreases 0, 3
    {
      var batch := jobs.PopAll();
      outstanding := |batch|;
      RunBatch(batch, tls, global, timeUp);
      var prevCount := jobCount;
      jobCount := jobCount - |batch|;
      outstanding := 0;
      released := prevCount == |batch|;
      LeadingAt(jobs.items);
    }

    /** The loop of Execute, up to the release or the end of the time slice. */
    method DrainSlice(tls: ThreadLocal, global: GlobalQueue, timeUp: nat -> bool) returns (released: bool)
      requires Valid() && outstanding == 0 && tls.current == this
      modifies this, jobs, tls, global
      ensures Valid() && outstanding == 0 && tls.current == this && global.queues == old(global.queues)
      ensures HeadsFor(old(ran), old(Waiting()), timeUp, 0, ran, Waiting())
      ensures jobCount == |Waiting()| && released == (Waiting() == [])
      decreases 0, 4
    {
      ghost var waiting := Waiting();
      ghost var ranEnd, left := ran + SliceRuns(waiting, timeUp, 0), SliceLeaves(waiting, timeUp, 0);
      var k := 0;
      while true
        invariant Valid() && outstanding == 0 && tls.current == this && k >= 0
        invariant waiting == Waiting() && HeadsFor(ran, waiting, timeUp, k, ranEnd, left)
        invariant global.queues == old(global.queues)
        decreases Size(waiting)
      {
        SliceTurn(ran, waiting, timeUp, k, ranEnd, left);
        released := DrainOnce(tls, global, timeUp);
        waiting := Children(waiting);
        if released {
          return;
        }
        if timeUp(k) {
          return;
        }
        k := k + 1;
      }
    }

    /** timeUp(k) says whether the k-th look at the clock, after a batch that did not
        empty the queue, finds the time slice over. */
    method Execute(tls: ThreadLocal, global: GlobalQueue, timeUp: nat -> bool)
      requires Valid() && outstanding == 0 && tls.current == null
      modifies this, jobs, tls, global
      ensures Valid() && outstanding == 0 && tls.current == null
      ensures Drained(old(ran), old(Waiting()), timeUp, old(global.queues), global)
      ensures LongEnough(old(Waiting()), timeUp, 0) ==> jobCount == 0 && ran == old(ran) + Bfs(old(Waiting()))
      decreases if tls.current == null then 1 else 0, 0
    {
      ghost var todo := Waiting();
      tls.current := this;
      var released := DrainSlice(tls, global, timeUp);
      tls.current := null;
      if !released {
        global.Push(this);
      }
      SliceRunsAllExactly(todo, timeUp, 0);
      BfsIsLevelOrder(todo);
    }
  }
}
