/** The send buffer allocator: each thread bump-allocates from a chunk of its own;
    buffers keep their chunk alive by reference counting; a chunk nobody refers to
    goes to a shared pool and is reset when a thread takes it again.  The steps of
    different threads interleave freely. */
module SendBufferPool {
  import opened CoreValues

  // ---------------------------------------------------------------- one chunk

  datatype Chunk = Chunk(bytes: seq<Byte>, open: bool, used: nat)

  predicate ChunkWf(c: Chunk) {
    |c.bytes| == SEND_BUFFER_CHUNK_SIZE && c.used <= SEND_BUFFER_CHUNK_SIZE
  }

  function FreeSize(c: Chunk): nat
    requires ChunkWf(c)
  {
    SEND_BUFFER_CHUNK_SIZE - c.used
  }

  function ResetChunk(c: Chunk): Chunk { c.(open := false, used := 0) }

  function CloseChunk(c: Chunk, writeSize: nat): Chunk { c.(open := false, used := c.used + writeSize) }

  function FreshChunk(): (c: Chunk)
    ensures ChunkWf(c)
  {
    Chunk(seq(SEND_BUFFER_CHUNK_SIZE, i => 0), false, 0)
  }

  /** The chunk object.  Its buffer is an array written in place; the assertions that
      crash the process are preconditions. */
  class SendBufferChunk {
    const buffer: array<Byte>
    var open: bool
    var usedSize: nat

    ghost predicate Valid()
      reads this
    {
      buffer.Length == SEND_BUFFER_CHUNK_SIZE && usedSize <= buffer.Length
    }

    ghost function Value(): (c: Chunk)
      requires Valid()
      reads this, buffer
      ensures ChunkWf(c)
    {
      Chunk(buffer[..], open, usedSize)
    }

    constructor ()
      ensures Valid() && Value() == FreshChunk() && fresh(buffer)
    {
      buffer := new Byte[SEND_BUFFER_CHUNK_SIZE](_ => 0);
      open := false;
      usedSize := 0;
      new;
      assert buffer[..] == FreshChunk().bytes;
    }

    method Reset()
      requires Valid()
      modifies this
      ensures Valid() && Value() == ResetChunk(old(Value()))
      ensures !open && usedSize == 0 && buffer[..] == old(buffer[..])
    {
      open := false;
      usedSize := 0;
    }

    /** Gives out the place where the next allocSize bytes start, or nothing if they do not fit. */
    method Open(allocSize: nat) returns (ok: bool, start: nat)
      requires Valid() && allocSize <= SEND_BUFFER_CHUNK_SIZE && !open
      modifies this
      ensures Valid() && ok == (old(usedSize) + allocSize <= SEND_BUFFER_CHUNK_SIZE)
      ensures ok ==> start == old(usedSize) && start + allocSize <= buffer.Length
      ensures Value() == if ok then old(Value()).(open := true) else old(Value())
    {
      start := usedSize;
      if allocSize > buffer.Length - usedSize {
        return false, start;
      }
      open := true;
      return true, start;
    }

    method Close(writeSize: nat)
      requires Valid() && open && usedSize + writeSize <= buffer.Length
      modifies this
      ensures Valid() && Value() == CloseChunk(old(Value()), writeSize)
      ensures !open && usedSize == old(usedSize) + writeSize && buffer[..] == old(buffer[..])
    {
      open := false;
      usedSize := usedSize + writeSize;
    }
  }

  /** LSendBufferChunk of a thread. */
  class ThreadLocal {
    var chunk: SendBufferChunk?

    constructor ()
      ensures chunk == null
    {
      chunk := null;
    }
  }

  /** The manager as one thread sees it.  What happens to the chunk it gives up is the
      reference counting of the transition system below. */
  class SendBufferManager {
    var sendBufferChunks: seq<SendBufferChunk>

    ghost predicate Valid()
      reads this, sendBufferChunks
    {
      forall i :: 0 <= i < |sendBufferChunks| ==> sendBufferChunks[i].Valid()
    }

    constructor ()
      ensures Valid() && sendBufferChunks == []
    {
      sendBufferChunks := [];
    }

    /** The most recently returned chunk, or a new one. */
    method Pop() returns (c: SendBufferChunk)
      requires Valid()
      modifies this
      ensures Valid() && c.Valid()
      ensures old(sendBufferChunks) != [] ==> old(sendBufferChunks) == sendBufferChunks + [c]
      ensures old(sendBufferChunks) == [] ==>
                sendBufferChunks == [] && fresh(c) && fresh(c.buffer) && c.Value() == FreshChunk()
    {
      if sendBufferChunks != [] {
        c := sendBufferChunks[|sendBufferChunks| - 1];
        sendBufferChunks := sendBufferChunks[..|sendBufferChunks| - 1];
      } else {
        c := new SendBufferChunk();
      }
    }

    method Push(c: SendBufferChunk)
      requires Valid() && c.Valid()
      modifies this
      ensures Valid() && sendBufferChunks == old(sendBufferChunks) + [c]
    {
      sendBufferChunks := sendBufferChunks + [c];
    }

    /** Room for size bytes: behind what the thread's chunk already holds when that
        fits, and otherwise at the start of another chunk, which becomes the thread's. */
    method Open(size: nat, tls: ThreadLocal) returns (c: SendBufferChunk, start: nat)
      requires Valid() && size <= SEND_BUFFER_CHUNK_SIZE
      requires tls.chunk != null ==> tls.chunk.Valid() && !tls.chunk.open && tls.chunk !in sendBufferChunks
      modifies this, tls, tls.chunk, sendBufferChunks
      ensures tls.chunk == c && c.Valid() && c.open && c.usedSize == start && start + size <= SEND_BUFFER_CHUNK_SIZE
      ensures var reuse := old(tls.chunk != null && tls.chunk.usedSize + size <= SEND_BUFFER_CHUNK_SIZE);
              && (reuse ==>
                    && c == old(tls.chunk) && start == old(tls.chunk.usedSize)
                    && sendBufferChunks == old(sendBufferChunks))
              && (!reuse ==> start == 0 && c != old(tls.chunk))
              && (!reuse && old(sendBufferChunks) == [] ==> fresh(c) && sendBufferChunks == [])
              && (!reuse && old(sendBufferChunks) != [] ==> old(sendBufferChunks) == sendBufferChunks + [c])
      ensures old(allocated(c)) ==> c.buffer[..] == old(c.buffer[..])
    {
      if tls.chunk == null {
        var popped := Pop();
        assert old(sendBufferChunks) != [] ==> popped in old(sendBufferChunks);
        tls.chunk := popped;
        tls.chunk.Reset();
      }
      if tls.chunk.buffer.Length - tls.chunk.usedSize < size {
        var popped := Pop();
        assert old(sendBufferChunks) != [] ==> popped in old(sendBufferChunks);
        tls.chunk := popped;
        tls.chunk.Reset();
      }
      c := tls.chunk;
      var ok;
      ok, start := c.Open(size);
    }
  }

  // ----------------------------------------------------------- the allocator

  datatype Local = NoChunk | Own(chunk: nat)

  /** Where a thread stands inside SendBufferManager::Open. */
  datatype Pc =
    | Idle
    | Popped(size: nat)   // took a chunk, about to Reset it
    | Ready(size: nat)    // reset, about to open a buffer

  datatype Thread = Thread(local: Local, pc: Pc)

  /** `content` is what the buffer's own holders wrote; `live` until the last reference
      to it is gone. */
  datatype Buffer = Buffer(chunk: nat, start: nat, size: nat, closed: bool, live: bool, content: seq<Byte>)

  datatype Extent = Extent(start: nat, size: nat)

  /** `returning` holds chunks whose last reference is gone and which PushGlobal has
      not put into the pool yet.  `laid` is a history: the places of the buffers closed
      on each chunk since it was last reset, in order. */
  datatype State = State(
    threads: seq<Thread>, chunks: seq<Chunk>, buffers: seq<Buffer>, pool: seq<nat>, returning: set<nat>,
    laid: seq<seq<Extent>>)

  datatype Step =
    | Take(t: nat, size: nat)
    | Reset(t: nat)
    | OpenBuffer(t: nat, size: nat)
    | Write(b: nat, at: nat, v: Byte)
    | Close(b: nat, writeSize: nat)
    | Drop(b: nat)
    | Return(c: nat)
    | ThreadExit(t: nat)

  predicate Owns(th: Thread, c: nat) { th.local == Own(c) }

  predicate LiveOn(b: Buffer, c: nat) { b.live && b.chunk == c }

  /** Some shared_ptr to the chunk exists outside the pool. */
  predicate Referenced(s: State, c: nat) {
    (exists t :: 0 <= t < |s.threads| && Owns(s.threads[t], c)) ||
    (exists b :: 0 <= b < |s.buffers| && LiveOn(s.buffers[b], c))
  }

  /** What a reference to c going away leaves: the deleter runs for the last one. */
  function Release(s: State, c: nat): State {
    if Referenced(s, c) then s else s.(returning := s.returning + {c})
  }

  predicate Enabled(s: State, step: Step) {
    match step
    case Take(t, size) =>
      && t < |s.threads| && s.threads[t].pc.Idle? && size <= SEND_BUFFER_CHUNK_SIZE
      && (s.threads[t].local.Own? ==>
            var c := s.threads[t].local.chunk;
            c < |s.chunks| && ChunkWf(s.chunks[c]) && !s.chunks[c].open && FreeSize(s.chunks[c]) < size)
      && (s.pool != [] ==> s.pool[|s.pool| - 1] < |s.chunks|)
    case Reset(t) =>
      && t < |s.threads| && s.threads[t].pc.Popped? && s.threads[t].local.Own?
      && s.threads[t].local.chunk < |s.chunks| && s.threads[t].local.chunk < |s.laid|
    case OpenBuffer(t, size) =>
      && t < |s.threads| && s.threads[t].local.Own? && s.threads[t].local.chunk < |s.chunks|
      && (s.threads[t].pc.Idle? || s.threads[t].pc == Ready(size))
      && var c := s.chunks[s.threads[t].local.chunk];
         ChunkWf(c) && !c.open && size <= FreeSize(c)
    case Write(b, at, _) =>
      && b < |s.buffers| && s.buffers[b].live && s.buffers[b].chunk < |s.chunks| && at < s.buffers[b].size
      && at < |s.buffers[b].content| && s.buffers[b].start + at < |s.chunks[s.buffers[b].chunk].bytes|
    case Close(b, writeSize) =>
      && b < |s.buffers| && s.buffers[b].live && !s.buffers[b].closed && s.buffers[b].chunk < |s.chunks|
      && writeSize <= s.buffers[b].size && writeSize <= |s.buffers[b].content| && s.buffers[b].chunk < |s.laid|
    case Drop(b) => b < |s.buffers| && s.buffers[b].live
    case Return(c) => c in s.returning
    case ThreadExit(t) => t < |s.threads| && s.threads[t].pc.Idle? && s.threads[t].local.Own?
  }

  function Apply(s: State, step: Step): State
    requires Enabled(s, step)
  {
    match step
    case Take(t, size) =>
      var previous := s.threads[t].local;
      var c := if s.pool == [] then |s.chunks| else s.pool[|s.pool| - 1];
      var s1 := s.(chunks := if s.pool == [] then s.chunks + [FreshChunk()] else s.chunks,
                   laid := if s.pool == [] then s.laid + [[]] else s.laid,
                   pool := if s.pool == [] then [] else s.pool[..|s.pool| - 1],
                   threads := s.threads[t := Thread(Own(c), Popped(size))]);
      if previous.Own? then Release(s1, previous.chunk) else s1
    case Reset(t) =>
      var c := s.threads[t].local.chunk;
      s.(chunks := s.chunks[c := ResetChunk(s.chunks[c])],
         laid := s.laid[c := []],
         threads := s.threads[t := s.threads[t].(pc := Ready(s.threads[t].pc.size))])
    case OpenBuffer(t, size) =>
      var c := s.threads[t].local.chunk;
      var chunk := s.chunks[c];
      s.(chunks := s.chunks[c := chunk.(open := true)],
         threads := s.threads[t := s.threads[t].(pc := Idle)],
         buffers := s.buffers + [Buffer(c, chunk.used, size, false, true, chunk.bytes[chunk.used..chunk.used + size])])
    case Write(b, at, v) =>
      var buf := s.buffers[b];
      var chunk := s.chunks[buf.chunk];
      s.(chunks := s.chunks[buf.chunk := chunk.(bytes := chunk.bytes[buf.start + at := v])],
         buffers := s.buffers[b := buf.(content := buf.content[at := v])])
    case Close(b, writeSize) =>
      var buf := s.buffers[b];
      s.(chunks := s.chunks[buf.chunk := CloseChunk(s.chunks[buf.chunk], writeSize)],
         laid := s.laid[buf.chunk := s.laid[buf.chunk] + [Extent(buf.start, writeSize)]],
         buffers := s.buffers[b := buf.(size := writeSize, closed := true, content := buf.content[..writeSize])])
    case Drop(b) =>
      Release(s.(buffers := s.buffers[b := s.buffers[b].(live := false)]), s.buffers[b].chunk)
    case Return(c) => s.(returning := s.returning - {c}, pool := s.pool + [c])
    case ThreadExit(t) =>
      Release(s.(threads := s.threads[t := Thread(NoChunk, Idle)]), s.threads[t].local.chunk)
  }

  ghost predicate Init(s: State) {
    && (forall t :: 0 <= t < |s.threads| ==> s.threads[t] == Thread(NoChunk, Idle))
    && s.chunks == [] && s.buffers == [] && s.pool == [] && s.returning == {} && s.laid == []
  }

  ghost predicate Next(s: State, s': State) {
    exists step :: Enabled(s, step) && s' == Apply(s, step)
  }

  ghost predicate Behaviour(run: seq<State>) {
    && run != [] && Init(run[0])
    && forall i :: 0 <= i < |run| - 1 ==> Next(run[i], run[i + 1])
  }

  // -------------------------------------------------------------- invariant

  ghost predicate Bounds(s: State) {
    && (forall t :: 0 <= t < |s.threads| && s.threads[t].local.Own? ==> s.threads[t].local.chunk < |s.chunks|)
    && (forall t :: 0 <= t < |s.threads| && !s.threads[t].pc.Idle? ==>
              s.threads[t].local.Own? && s.threads[t].pc.size <= SEND_BUFFER_CHUNK_SIZE)
    && (forall b :: 0 <= b < |s.buffers| ==> s.buffers[b].chunk < |s.chunks|)
    && (forall i :: 0 <= i < |s.pool| ==> s.pool[i] < |s.chunks|)
    && (forall c :: c in s.returning ==> c < |s.chunks|)
    && (forall c :: 0 <= c < |s.chunks| ==> ChunkWf(s.chunks[c]))
  }

  /** No chunk has two owning threads, or is in the pool twice. */
  ghost predicate Distinct(s: State) {
    && (forall t, u :: 0 <= t < u < |s.threads| && s.threads[t].local.Own? ==> s.threads[t].local != s.threads[u].local)
    && (forall i, j :: 0 <= i < j < |s.pool| ==> s.pool[i] != s.pool[j])
    && (forall i :: 0 <= i < |s.pool| ==> s.pool[i] !in s.returning)
  }

  /** Nothing refers to a chunk in the pool or on its way there. */
  ghost predicate Unreferenced(s: State) {
    && (forall i :: 0 <= i < |s.pool| ==> !Referenced(s, s.pool[i]))
    && (forall c :: c in s.returning ==> !Referenced(s, c))
  }

  /** The thread is in the middle of taking the chunk over. */
  predicate Taking(th: Thread, c: nat) { !th.pc.Idle? && Owns(th, c) }

  /** A chunk being taken over has no live buffer; once reset it is empty and shut. */
  ghost predicate Settled(s: State) {
    && (forall t, b :: 0 <= t < |s.threads| && 0 <= b < |s.buffers| && s.buffers[b].live ==>
          !Taking(s.threads[t], s.buffers[b].chunk))
    && (forall t, c :: 0 <= t < |s.threads| && 0 <= c < |s.chunks| && Taking(s.threads[t], c) ==>
          s.threads[t].pc.Ready? ==> !s.chunks[c].open && s.chunks[c].used == 0)
  }

  ghost predicate Placed(s: State) { Distinct(s) && Unreferenced(s) && Settled(s) }

  /** One live buffer on its chunk: a closed one lies below the used mark, an open one
      starts at it and stays inside the chunk; and it holds what was written to it. */
  ghost predicate Fits(b: Buffer, c: Chunk) {
    && |b.content| == b.size && b.start + b.size <= |c.bytes|
    && (if b.closed then b.start + b.size <= c.used else c.open && b.start == c.used)
    && c.bytes[b.start..b.start + b.size] == b.content
  }

  /** Both live, on one chunk. */
  predicate Beside(a: Buffer, b: Buffer) { a.live && b.live && a.chunk == b.chunk }

  ghost predicate Apart(a: Buffer, b: Buffer) { a.closed && a.start + a.size <= b.start }

  ghost predicate Layout(s: State) {
    && (forall b :: 0 <= b < |s.buffers| && s.buffers[b].live && s.buffers[b].chunk < |s.chunks| ==>
          Fits(s.buffers[b], s.chunks[s.buffers[b].chunk]))
    && (forall a, b :: 0 <= a < b < |s.buffers| && Beside(s.buffers[a], s.buffers[b]) ==>
          Apart(s.buffers[a], s.buffers[b]))
  }

  /** The first starts at 0, and each other where the one before it ends. */
  predicate Gapless(es: seq<Extent>) {
    forall i :: 0 <= i < |es| ==> es[i].start == if i == 0 then 0 else es[i - 1].start + es[i - 1].size
  }

  function EndOf(es: seq<Extent>): nat {
    if es == [] then 0 else es[|es| - 1].start + es[|es| - 1].size
  }

  /** The used mark is where the last buffer closed since the reset ends. */
  ghost predicate Packed(s: State) {
    && |s.laid| == |s.chunks|
    && forall c :: 0 <= c < |s.chunks| ==> Gapless(s.laid[c]) && s.chunks[c].used == EndOf(s.laid[c])
  }

  ghost predicate Inv(s: State) { Bounds(s) && Placed(s) && Layout(s) && Packed(s) }

  /** The chunk taken was nobody's. */
  lemma TakenWasFree(s: State, step: Step)
    requires Inv(s) && Enabled(s, step) && step.Take?
    ensures var c := if s.pool == [] then |s.chunks| else s.pool[|s.pool| - 1];
            && !Referenced(s, c) && c !in s.returning
            && Apply(s, step).threads[step.t] == Thread(Own(c), Popped(step.size))
  {
  }

  lemma TakeDistinct(s: State, step: Step)
    requires Inv(s) && Enabled(s, step) && step.Take?
    ensures Distinct(Apply(s, step))
  {
    TakenWasFree(s, step);
  }

  lemma TakePlaced(s: State, step: Step)
    requires Inv(s) && Enabled(s, step) && step.Take?
    ensures Unreferenced(Apply(s, step)) && Settled(Apply(s, step))
  {
    TakenWasFree(s, step);
  }

  lemma TakeBounds(s: State, step: Step)
    requires Inv(s) && Enabled(s, step) && step.Take?
    ensures Bounds(Apply(s, step))
  {
  }

  lemma TakeLayout(s: State, step: Step)
    requires Inv(s) && Enabled(s, step) && step.Take?
    ensures Layout(Apply(s, step))
  {
  }

  lemma OpenBufferPlaced(s: State, step: Step)
    requires Inv(s) && Enabled(s, step) && step.OpenBuffer?
    ensures Placed(Apply(s, step))
  {
  }

  lemma OpenBufferBounds(s: State, step: Step)
    requires Inv(s) && Enabled(s, step) && step.OpenBuffer?
    ensures Bounds(Apply(s, step))
  {
  }

  lemma OpenBufferLayout(s: State, step: Step)
    requires Inv(s) && Enabled(s, step) && step.OpenBuffer?
    ensures Layout(Apply(s, step))
  {
    var s' := Apply(s, step);
    var added := s'.buffers[|s.buffers|];
    assert Fits(added, s'.chunks[added.chunk]);
    forall a | 0 <= a < |s.buffers| && s.buffers[a].live
      ensures Fits(s.buffers[a], s'.chunks[s.buffers[a].chunk])
      ensures s.buffers[a].chunk == added.chunk ==> Apart(s.buffers[a], added)
    {
      assert Fits(s.buffers[a], s.chunks[s.buffers[a].chunk]);
    }
  }

  lemma DropDistinct(s: State, step: Step)
    requires Inv(s) && Enabled(s, step) && step.Drop?
    ensures Distinct(Apply(s, step))
  {
  }

  lemma DropPlaced(s: State, step: Step)
    requires Inv(s) && Enabled(s, step) && step.Drop?
    ensures Unreferenced(Apply(s, step)) && Settled(Apply(s, step))
  {
  }

  lemma DropBounds(s: State, step: Step)
    requires Bounds(s) && Enabled(s, step) && step.Drop?
    ensures Bounds(Apply(s, step))
  {
  }

  lemma DropLayout(s: State, step: Step)
    requires Bounds(s) && Layout(s) && Enabled(s, step) && step.Drop?
    ensures Layout(Apply(s, step))
  {
    var s' := Apply(s, step);
    forall a, b | 0 <= a < b < |s.buffers| && Beside(s'.buffers[a], s'.buffers[b])
      ensures Apart(s'.buffers[a], s'.buffers[b])
    {
      assert Beside(s.buffers[a], s.buffers[b]);
    }
  }

  lemma ThreadExitDistinct(s: State, step: Step)
    requires Inv(s) && Enabled(s, step) && step.ThreadExit?
    ensures Distinct(Apply(s, step))
  {
  }

  lemma ThreadExitPlaced(s: State, step: Step)
    requires Inv(s) && Enabled(s, step) && step.ThreadExit?
    ensures Unreferenced(Apply(s, step)) && Settled(Apply(s, step))
  {
  }

  lemma ThreadExitLayout(s: State, step: Step)
    requires Bounds(s) && Layout(s) && Enabled(s, step) && step.ThreadExit?
    ensures Bounds(Apply(s, step)) && Layout(Apply(s, step))
  {
  }

  lemma ResetPlaced(s: State, step: Step)
    requires Inv(s) && Enabled(s, step) && step.Reset?
    ensures Distinct(Apply(s, step)) && Unreferenced(Apply(s, step))
  {
  }

  lemma ResetSettled(s: State, step: Step)
    requires Inv(s) && Enabled(s, step) && step.Reset?
    ensures Settled(Apply(s, step))
  {
  }

  lemma ResetLayout(s: State, step: Step)
    requires Inv(s) && Enabled(s, step) && step.Reset?
    ensures Bounds(Apply(s, step)) && Layout(Apply(s, step))
  {
  }

  /** Steps that keep who refers to what keep the answers of Referenced. */
  lemma SameReferences(s: State, s': State)
    requires s'.threads == s.threads && |s'.buffers| == |s.buffers|
    requires forall b :: 0 <= b < |s.buffers| ==>
               s'.buffers[b].live == s.buffers[b].live && s'.buffers[b].chunk == s.buffers[b].chunk
    ensures forall c :: Referenced(s', c) <==> Referenced(s, c)
  {
    forall c
      ensures Referenced(s', c) <==> Referenced(s, c)
    {
      assert forall b :: 0 <= b < |s.buffers| ==> (LiveOn(s'.buffers[b], c) <==> LiveOn(s.buffers[b], c));
    }
  }

  lemma ClosePlaced(s: State, step: Step)
    requires Inv(s) && Enabled(s, step) && step.Close?
    ensures Bounds(Apply(s, step)) && Placed(Apply(s, step))
  {
    SameReferences(s, Apply(s, step));
  }

  /** The open buffer is the last one on its chunk. */
  lemma OpenIsLast(s: State, a: nat, b: nat)
    requires Layout(s) && a < |s.buffers| && b < |s.buffers| && a != b
    requires Beside(s.buffers[a], s.buffers[b]) && !s.buffers[b].closed
    ensures a < b && Apart(s.buffers[a], s.buffers[b])
  {
    assert Beside(s.buffers[b], s.buffers[a]);
    assert b < a ==> Apart(s.buffers[b], s.buffers[a]);
  }

  lemma CloseLayout(s: State, step: Step)
    requires Bounds(s) && Layout(s) && Enabled(s, step) && step.Close?
    ensures Layout(Apply(s, step))
  {
    var s' := Apply(s, step);
    var buf := s.buffers[step.b];
    assert Fits(buf, s.chunks[buf.chunk]);
    forall a | 0 <= a < |s.buffers| && a != step.b && s.buffers[a].live
      ensures Fits(s'.buffers[a], s'.chunks[s'.buffers[a].chunk])
    {
      assert Fits(s.buffers[a], s.chunks[s.buffers[a].chunk]);
      if s.buffers[a].chunk == buf.chunk {
        OpenIsLast(s, a, step.b);
      }
    }
    assert Fits(s'.buffers[step.b], s'.chunks[buf.chunk]);
  }

  lemma ReturnPlaced(s: State, step: Step)
    requires Inv(s) && Enabled(s, step) && step.Return?
    ensures Placed(Apply(s, step))
  {
  }

  lemma ReturnLayout(s: State, step: Step)
    requires Inv(s) && Enabled(s, step) && step.Return?
    ensures Bounds(Apply(s, step)) && Layout(Apply(s, step))
  {
  }

  lemma SliceUntouched(bytes: seq<Byte>, at: nat, v: Byte, lo: nat, hi: nat)
    requires at < |bytes| && lo <= hi <= |bytes| && !(lo <= at < hi)
    ensures bytes[at := v][lo..hi] == bytes[lo..hi]
  {
  }

  lemma SliceTouched(bytes: seq<Byte>, at: nat, v: Byte, lo: nat, hi: nat)
    requires lo <= at < hi <= |bytes|
    ensures bytes[at := v][lo..hi] == bytes[lo..hi][at - lo := v]
  {
  }

  /** Writing to a live buffer writes the same byte to its content. */
  lemma WriteFits(b: Buffer, c: Chunk, at: nat, v: Byte)
    requires Fits(b, c) && at < b.size
    ensures Fits(b.(content := b.content[at := v]), c.(bytes := c.bytes[b.start + at := v]))
  {
    SliceTouched(c.bytes, b.start + at, v, b.start, b.start + b.size);
  }

  lemma WriteElsewhere(b: Buffer, c: Chunk, at: nat, v: Byte)
    requires Fits(b, c) && at < |c.bytes| && !(b.start <= at < b.start + b.size)
    ensures Fits(b, c.(bytes := c.bytes[at := v]))
  {
    SliceUntouched(c.bytes, at, v, b.start, b.start + b.size);
  }

  /** A write into one live buffer leaves every other one as it was. */
  lemma WriteIsolated(s: State, step: Step, a: nat)
    requires Bounds(s) && Layout(s) && Enabled(s, step) && step.Write? && a < |s.buffers| && s.buffers[a].live
    ensures var s' := Apply(s, step); Fits(s'.buffers[a], s'.chunks[s'.buffers[a].chunk])
  {
    var b, buf, other := step.b, s.buffers[step.b], s.buffers[a];
    assert Fits(other, s.chunks[other.chunk]);
    if a == b {
      WriteFits(buf, s.chunks[buf.chunk], step.at, step.v);
    } else if other.chunk == buf.chunk {
      assert Beside(buf, other) && (if a < b then Apart(other, buf) else Apart(buf, other));
      WriteElsewhere(other, s.chunks[buf.chunk], buf.start + step.at, step.v);
    }
  }

  lemma WritePlaced(s: State, step: Step)
    requires Inv(s) && Enabled(s, step) && step.Write?
    ensures Bounds(Apply(s, step)) && Placed(Apply(s, step))
  {
    SameReferences(s, Apply(s, step));
  }

  lemma WriteLayout(s: State, step: Step)
    requires Bounds(s) && Layout(s) && Enabled(s, step) && step.Write?
    ensures Layout(Apply(s, step))
  {
    var s' := Apply(s, step);
    forall a | 0 <= a < |s'.buffers| && s'.buffers[a].live && s'.buffers[a].chunk < |s'.chunks|
      ensures Fits(s'.buffers[a], s'.chunks[s'.buffers[a].chunk])
    {
      WriteIsolated(s, step, a);
    }
    forall a, b | 0 <= a < b < |s'.buffers| && Beside(s'.buffers[a], s'.buffers[b])
      ensures Apart(s'.buffers[a], s'.buffers[b])
    {
      assert Apart(s.buffers[a], s.buffers[b]);
    }
  }

  lemma GaplessMore(es: seq<Extent>, e: Extent)
    requires Gapless(es) && e.start == EndOf(es)
    ensures Gapless(es + [e]) && EndOf(es + [e]) == e.start + e.size
  {
  }

  lemma PackedClose(s: State, step: Step)
    requires Inv(s) && Enabled(s, step) && step.Close?
    ensures Packed(Apply(s, step))
  {
    var s' := Apply(s, step);
    var buf := s.buffers[step.b];
    assert Fits(buf, s.chunks[buf.chunk]);
    GaplessMore(s.laid[buf.chunk], Extent(buf.start, step.writeSize));
    forall c | 0 <= c < |s.chunks|
      ensures Gapless(s'.laid[c]) && s'.chunks[c].used == EndOf(s'.laid[c])
    {
      if c != buf.chunk {
        assert s'.laid[c] == s.laid[c] && s'.chunks[c] == s.chunks[c];
      }
    }
  }

  lemma PackedOther(s: State, step: Step)
    requires Packed(s) && Enabled(s, step) && !step.Close?
    ensures Packed(Apply(s, step))
  {
  }

  lemma PackedStep(s: State, step: Step)
    requires Inv(s) && Enabled(s, step)
    ensures Packed(Apply(s, step))
  {
    if step.Close? {
      PackedClose(s, step);
    } else {
      PackedOther(s, step);
    }
  }

  lemma StepInv(s: State, step: Step)
    requires Inv(s) && Enabled(s, step)
    ensures Inv(Apply(s, step))
  {
    PackedStep(s, step);
    match step
    case Take(_, _) => TakeDistinct(s, step); TakePlaced(s, step); TakeBounds(s, step); TakeLayout(s, step);
    case Reset(_) => ResetPlaced(s, step); ResetSettled(s, step); ResetLayout(s, step);
    case OpenBuffer(_, _) => OpenBufferPlaced(s, step); OpenBufferBounds(s, step); OpenBufferLayout(s, step);
    case Write(_, _, _) => WritePlaced(s, step); WriteLayout(s, step);
    case Close(_, _) => ClosePlaced(s, step); CloseLayout(s, step);
    case Drop(_) => DropDistinct(s, step); DropPlaced(s, step); DropBounds(s, step); DropLayout(s, step);
    case Return(_) => ReturnPlaced(s, step); ReturnLayout(s, step);
    case ThreadExit(_) => ThreadExitDistinct(s, step); ThreadExitPlaced(s, step); ThreadExitLayout(s, step);
  }

  // ----------------------------------------------------------- main results

  lemma InitInv(s: State)
    requires Init(s)
    ensures Inv(s)
  {
  }

  lemma NextInv(s: State, s': State)
    requires Inv(s) && Next(s, s')
    ensures Inv(s')
  {
    var step :| Enabled(s, step) && s' == Apply(s, step);
    StepInv(s, step);
  }

  lemma InvGoesOn(run: seq<State>, i: nat)
    requires Behaviour(run) && i + 1 < |run| && Inv(run[i])
    ensures Inv(run[i + 1])
  {
    assert Next(run[i], run[i + 1]);
    NextInv(run[i], run[i + 1]);
  }

  lemma {:induction false} BehaviourInv(run: seq<State>, i: nat)
    requires Behaviour(run) && i < |run|
    ensures Inv(run[i])
  {
    if i == 0 {
      InitInv(run[0]);
    } else {
      BehaviourInv(run, i - 1);
      InvGoesOn(run, i - 1);
    }
  }

  /** The thread has the chunk to itself, and has closed its last buffer on it. */
  predicate MayOpen(s: State, t: nat, c: nat) {
    t < |s.threads| && s.threads[t] == Thread(Own(c), Idle) && c < |s.chunks| && !s.chunks[c].open
  }

  /** The buffer that this step opens starts behind those already laid on the chunk. */
  predicate OpensAtEnd(s: State, t: nat, c: nat, size: nat)
    requires Enabled(s, OpenBuffer(t, size)) && c < |s.laid|
  {
    var buffers := Apply(s, OpenBuffer(t, size)).buffers;
    && |buffers| == |s.buffers| + 1
    && var b := buffers[|s.buffers|]; b.chunk == c && b.start == EndOf(s.laid[c]) && b.size == size
  }

  /** In every interleaving, a live buffer lies inside its chunk's 6000 bytes, below the
      used mark once it is closed and from it on while it is open, and the chunk still
      holds exactly what the buffer's holders wrote. */
  lemma LiveBufferIntact(run: seq<State>, i: nat, b: nat)
    requires Behaviour(run) && i < |run| && b < |run[i].buffers| && run[i].buffers[b].live
    ensures var s := run[i];
            var x := s.buffers[b];
            && x.chunk < |s.chunks|
            && var c := s.chunks[x.chunk];
               && x.start + x.size <= SEND_BUFFER_CHUNK_SIZE == |c.bytes|
               && (if x.closed then x.start + x.size <= c.used else c.open && x.start == c.used)
               && c.bytes[x.start..x.start + x.size] == x.content
  {
    BehaviourInv(run, i);
    assert Fits(run[i].buffers[b], run[i].chunks[run[i].buffers[b].chunk]);
  }

  /** In every interleaving and for every order of dropping buffers: live buffers on one
      chunk never overlap, closed ones lie below the used mark, the open one above it
      and inside the chunk, and each still holds exactly what its holders wrote. */
  lemma LiveBuffersNeverOverlap(run: seq<State>, i: nat, a: nat, b: nat)
    requires Behaviour(run) && i < |run| && a < b < |run[i].buffers|
    requires run[i].buffers[a].live && run[i].buffers[b].live && run[i].buffers[a].chunk == run[i].buffers[b].chunk
    ensures var s := run[i];
            var x, y := s.buffers[a], s.buffers[b];
            && x.closed && x.start + x.size <= y.start
            && x.chunk < |s.chunks|
            && var c := s.chunks[x.chunk];
               && x.start + x.size <= c.used <= SEND_BUFFER_CHUNK_SIZE == |c.bytes|
               && y.start + y.size <= (if y.closed then c.used else SEND_BUFFER_CHUNK_SIZE)
               && (!y.closed ==> y.start == c.used)
               && c.bytes[x.start..x.start + x.size] == x.content
               && c.bytes[y.start..y.start + y.size] == y.content
  {
    BehaviourInv(run, i);
    assert Apart(run[i].buffers[a], run[i].buffers[b]);
    assert Fits(run[i].buffers[a], run[i].chunks[run[i].buffers[a].chunk]);
    assert Fits(run[i].buffers[b], run[i].chunks[run[i].buffers[b].chunk]);
  }

  lemma {:induction false} DistinctOnce(xs: seq<nat>, c: nat)
    requires forall i, j :: 0 <= i < j < |xs| ==> xs[i] != xs[j]
    ensures c in xs ==> multiset(xs)[c] == 1
  {
    if xs != [] {
      DistinctOnce(xs[1..], c);
      assert xs == [xs[0]] + xs[1..];
    }
  }

  /** Allocation packs: the buffers closed on a chunk since its reset lie side by side from
      its start, the used mark is where they end, and a thread opens its next buffer right
      there, on the same chunk, whenever it fits; only otherwise does it take another. */
  lemma AllocationPacks(run: seq<State>, i: nat, c: nat)
    requires Behaviour(run) && i < |run| && c < |run[i].chunks|
    ensures var s := run[i];
            && |s.laid| == |s.chunks| && Gapless(s.laid[c]) && s.chunks[c].used == EndOf(s.laid[c])
            && forall t: nat, size: nat | MayOpen(s, t, c) && size <= SEND_BUFFER_CHUNK_SIZE ::
                 if EndOf(s.laid[c]) + size <= SEND_BUFFER_CHUNK_SIZE
                 then Enabled(s, OpenBuffer(t, size)) && !Enabled(s, Take(t, size)) && OpensAtEnd(s, t, c, size)
                 else Enabled(s, Take(t, size)) && !Enabled(s, OpenBuffer(t, size))
  {
    BehaviourInv(run, i);
    assert ChunkWf(run[i].chunks[c]);
  }

  /** A chunk in the pool, or about to be reset, has no live buffer and no other
      thread; and no chunk is in the pool twice. */
  lemma RecycledOnlyWhenFree(run: seq<State>, i: nat, c: nat)
    requires Behaviour(run) && i < |run|
    ensures var s := run[i];
            && (c in s.pool ==> !Referenced(s, c) && multiset(s.pool)[c] == 1)
            && (forall t :: 0 <= t < |s.threads| && Enabled(s, Reset(t)) && s.threads[t].local == Own(c) ==>
                  (forall b :: 0 <= b < |s.buffers| ==> !LiveOn(s.buffers[b], c)) &&
                  (forall u :: 0 <= u < |s.threads| && u != t ==> !Owns(s.threads[u], c)) && c !in s.pool)
  {
    BehaviourInv(run, i);
    var s := run[i];
    DistinctOnce(s.pool, c);
    forall t | 0 <= t < |s.threads| && Enabled(s, Reset(t)) && s.threads[t].local == Own(c)
      ensures (forall b :: 0 <= b < |s.buffers| ==> !LiveOn(s.buffers[b], c)) &&
              (forall u :: 0 <= u < |s.threads| && u != t ==> !Owns(s.threads[u], c)) && c !in s.pool
    {
      assert Owns(s.threads[t], c);
    }
  }

  /** The pool is a stack: the chunk that came back last is the next one taken. */
  lemma TakesLatest(s: State, c: nat, t: nat, size: nat)
    requires Enabled(s, Return(c))
    requires Enabled(Apply(s, Return(c)), Take(t, size))
    ensures var s' := Apply(Apply(s, Return(c)), Take(t, size));
            s'.threads[t] == Thread(Own(c), Popped(size)) && s'.pool == s.pool && s'.chunks == s.chunks
  {
  }

  lemma KeepsOwned(s: State, step: Step, c: nat, t: nat)
    requires Enabled(s, step) && t < |s.threads| && Owns(s.threads[t], c)
    ensures var s' := Apply(s, step); Referenced(s', c) || c in s'.returning
  {
    assert ((step.Take? || step.ThreadExit?) && t == step.t) || Owns(Apply(s, step).threads[t], c);
  }

  lemma KeepsLive(s: State, step: Step, c: nat, b: nat)
    requires Enabled(s, step) && b < |s.buffers| && LiveOn(s.buffers[b], c)
    ensures var s' := Apply(s, step); Referenced(s', c) || c in s'.returning
  {
    assert (step.Drop? && b == step.b) || LiveOn(Apply(s, step).buffers[b], c);
  }

  /** In use, in the pool, or on its way there. */
  predicate Accounted(s: State, c: nat) { Referenced(s, c) || c in s.pool || c in s.returning }

  lemma KeepsChunk(s: State, step: Step, c: nat)
    requires Enabled(s, step) && c < |Apply(s, step).chunks| && (c < |s.chunks| ==> Accounted(s, c))
    ensures Accounted(Apply(s, step), c)
  {
    var s' := Apply(s, step);
    if c >= |s.chunks| || (step.Take? && c in s.pool && c !in s'.pool) {
      assert Owns(s'.threads[step.t], c);
    } else if c in s.pool || c in s.returning {
    } else if t: nat :| t < |s.threads| && Owns(s.threads[t], c) {
      KeepsOwned(s, step, c, t);
    } else {
      var b: nat :| b < |s.buffers| && LiveOn(s.buffers[b], c);
      KeepsLive(s, step, c, b);
    }
  }

  lemma NextKeeps(s: State, s': State, c: nat)
    requires Next(s, s') && c < |s'.chunks| && (c < |s.chunks| ==> Accounted(s, c))
    ensures Accounted(s', c)
  {
    var step :| Enabled(s, step) && s' == Apply(s, step);
    KeepsChunk(s, step, c);
  }

  /** No chunk is lost: one that nobody refers to is in the pool or on its way there. */
  lemma {:induction false} NoChunkLost(run: seq<State>, i: nat, c: nat)
    requires Behaviour(run) && i < |run| && c < |run[i].chunks|
    ensures Referenced(run[i], c) || c in run[i].pool || c in run[i].returning
  {
    if i > 0 {
      if c < |run[i - 1].chunks| {
        NoChunkLost(run, i - 1, c);
      }
      NextKeeps(run[i - 1], run[i], c);
    }
  }

  // ------------------------------------------------------------ stale bytes

  lemma Extend(run: seq<State>, step: Step, s': State)
    requires Behaviour(run) && Enabled(run[|run| - 1], step) && s' == Apply(run[|run| - 1], step)
    ensures Behaviour(run + [s'])
  {
    var longer := run + [s'];
    forall i | 0 <= i < |longer| - 1
      ensures Next(longer[i], longer[i + 1])
    {
      if i < |run| - 1 {
        assert Next(run[i], run[i + 1]);
      }
    }
  }

  /** Thread 0 has chunk 0 to itself, and sends one packet of six bytes from it. */
  ghost predicate OnlyChunk(s: State, bytes: seq<Byte>) {
    && |s.threads| == 2 && s.threads[1] == Thread(NoChunk, Idle)
    && s.threads[0] == Thread(Own(0), Idle)
    && |s.chunks| == |s.laid| == 1 && ChunkWf(s.chunks[0]) && s.chunks[0].bytes == bytes
    && s.pool == [] && s.returning == {}
    && |s.buffers| == 1 && s.buffers[0].live && s.buffers[0].chunk == 0
  }

  lemma OpenFirst() returns (run: seq<State>)
    ensures Behaviour(run)
    ensures var s := run[|run| - 1];
            && OnlyChunk(s, FreshChunk().bytes) && s.chunks[0] == FreshChunk().(open := true)
            && s.buffers == [Buffer(0, 0, 6, false, true, FreshChunk().bytes[0..6])]
  {
    var idle := Thread(NoChunk, Idle);
    var s0 := State([idle, idle], [], [], [], {}, []);
    run := [s0];
    var s1 := Apply(s0, Take(0, 6));
    Extend(run, Take(0, 6), s1);
    run := run + [s1];
    assert s1 == State([Thread(Own(0), Popped(6)), idle], [FreshChunk()], [], [], {}, [[]]);
    var s2 := Apply(s1, Reset(0));
    Extend(run, Reset(0), s2);
    run := run + [s2];
    assert s2 == State([Thread(Own(0), Ready(6)), idle], [FreshChunk()], [], [], {}, [[]]);
    var s3 := Apply(s2, OpenBuffer(0, 6));
    Extend(run, OpenBuffer(0, 6), s3);
    run := run + [s3];
  }

  /** The two bytes of a number are written behind size and id, and the buffer is closed. */
  lemma WriteFirst(lo: Byte, hi: Byte) returns (run: seq<State>)
    ensures Behaviour(run)
    ensures var s := run[|run| - 1];
            OnlyChunk(s, FreshChunk().bytes[4 := lo][5 := hi]) && !s.chunks[0].open
  {
    run := OpenFirst();
    var s := run[|run| - 1];
    var s1 := Apply(s, Write(0, 4, lo));
    Extend(run, Write(0, 4, lo), s1);
    run := run + [s1];
    var s2 := Apply(s1, Write(0, 5, hi));
    Extend(run, Write(0, 5, hi), s2);
    run := run + [s2];
    var s3 := Apply(s2, Close(0, 6));
    Extend(run, Close(0, 6), s3);
    run := run + [s3];
  }

  /** The thread ends, the packet has been sent, and the chunk goes back to the pool. */
  lemma Recycle(was: seq<State>, bytes: seq<Byte>) returns (run: seq<State>)
    requires Behaviour(was) && OnlyChunk(was[|was| - 1], bytes)
    ensures Behaviour(run)
    ensures var s := run[|run| - 1];
            && s.threads == [Thread(NoChunk, Idle), Thread(NoChunk, Idle)] && s.pool == [0] && s.returning == {}
            && |s.chunks| == |s.laid| == 1 && ChunkWf(s.chunks[0]) && s.chunks[0].bytes == bytes && |s.buffers| == 1
  {
    var s := was[|was| - 1];
    var s1 := Apply(s, ThreadExit(0));
    Extend(was, ThreadExit(0), s1);
    run := was + [s1];
    assert LiveOn(s1.buffers[0], 0);
    assert s1.returning == {};
    var s2 := Apply(s1, Drop(0));
    Extend(run, Drop(0), s2);
    run := run + [s2];
    assert !Referenced(s1.(buffers := s1.buffers[0 := s1.buffers[0].(live := false)]), 0);
    assert s2.returning == {0};
    var s3 := Apply(s2, Return(0));
    Extend(run, Return(0), s3);
    run := run + [s3];
  }

  /** Reset does not clear the bytes: a buffer that has just been opened, and that nobody
      has written to, may hold any number where a packet's sequence number stands. */
  lemma StaleBytes(lo: Byte, hi: Byte) returns (run: seq<State>)
    ensures Behaviour(run) && |run| >= 2 && Next(run[|run| - 2], run[|run| - 1])
    ensures var was, s := run[|run| - 2], run[|run| - 1];
            && |s.buffers| == |was.buffers| + 1
            && var b := s.buffers[|s.buffers| - 1];
               b.live && !b.closed && b.size == 6 && |b.content| == 6 && b.content[4] == lo && b.content[5] == hi
  {
    var written := WriteFirst(lo, hi);
    var bytes := FreshChunk().bytes[4 := lo][5 := hi];
    run := Recycle(written, bytes);
    var s := run[|run| - 1];
    var s1 := Apply(s, Take(1, 6));
    Extend(run, Take(1, 6), s1);
    run := run + [s1];
    var s2 := Apply(s1, Reset(1));
    Extend(run, Reset(1), s2);
    run := run + [s2];
    var s3 := Apply(s2, OpenBuffer(1, 6));
    Extend(run, OpenBuffer(1, 6), s3);
    run := run + [s3];
    assert s3.buffers[1].content == bytes[0..6];
  }

  /** Zero bytes from a position on. */
  predicate ZeroFrom(bytes: seq<Byte>, at: nat) {
    forall k :: at <= k < |bytes| ==> bytes[k] == 0
  }

  /** No chunk is taken from the pool, and buffers are closed at their full size. */
  predicate Unrecycled(s: State, step: Step)
    requires Enabled(s, step)
  {
    (step.Take? ==> s.pool == []) && (step.Close? ==> step.writeSize == s.buffers[step.b].size)
  }

  /** Nothing has been written behind the open buffer, or in a chunk about to be reset. */
  predicate CleanBehind(s: State, b: Buffer) {
    b.live && !b.closed && b.chunk < |s.chunks| ==> ZeroFrom(s.chunks[b.chunk].bytes, b.start + b.size)
  }

  predicate CleanPopped(s: State, th: Thread) {
    th.pc.Popped? && th.local.Own? && th.local.chunk < |s.chunks| ==> ZeroFrom(s.chunks[th.local.chunk].bytes, 0)
  }

  /** Nor behind the used mark of a chunk that is shut. */
  ghost predicate Clean(s: State) {
    && (forall c :: 0 <= c < |s.chunks| && !s.chunks[c].open ==> ZeroFrom(s.chunks[c].bytes, s.chunks[c].used))
    && (forall b :: 0 <= b < |s.buffers| ==> CleanBehind(s, s.buffers[b]))
    && (forall t :: 0 <= t < |s.threads| ==> CleanPopped(s, s.threads[t]))
  }

  lemma CleanWrite(s: State, step: Step)
    requires Inv(s) && Clean(s) && Enabled(s, step) && step.Write?
    ensures Clean(Apply(s, step))
  {
    var s' := Apply(s, step);
    var buf := s.buffers[step.b];
    assert Fits(buf, s.chunks[buf.chunk]);
    forall b | 0 <= b < |s.buffers| && s.buffers[b].live
      ensures CleanBehind(s', s'.buffers[b])
    {
      assert CleanBehind(s, s.buffers[b]) && Fits(s.buffers[b], s.chunks[s.buffers[b].chunk]);
      if b != step.b && s.buffers[b].chunk == buf.chunk {
        assert if b < step.b then Apart(s.buffers[b], buf) else Apart(buf, s.buffers[b]);
      }
    }
    forall t | 0 <= t < |s.threads|
      ensures CleanPopped(s', s.threads[t])
    {
      assert CleanPopped(s, s.threads[t]) && !Taking(s.threads[t], buf.chunk);
    }
  }

  lemma CleanClose(s: State, step: Step)
    requires Inv(s) && Clean(s) && Enabled(s, step) && step.Close? && Unrecycled(s, step)
    ensures Clean(Apply(s, step))
  {
    var s' := Apply(s, step);
    var buf := s.buffers[step.b];
    assert CleanBehind(s, buf) && Fits(buf, s.chunks[buf.chunk]);
    forall b | 0 <= b < |s.buffers|
      ensures CleanBehind(s', s'.buffers[b])
    {
      assert CleanBehind(s, s.buffers[b]);
    }
    forall t | 0 <= t < |s.threads|
      ensures CleanPopped(s', s.threads[t])
    {
      assert CleanPopped(s, s.threads[t]);
    }
  }

  lemma CleanTake(s: State, step: Step)
    requires Inv(s) && Clean(s) && Enabled(s, step) && step.Take? && Unrecycled(s, step)
    ensures Clean(Apply(s, step))
  {
    var s' := Apply(s, step);
    forall b | 0 <= b < |s.buffers|
      ensures CleanBehind(s', s.buffers[b])
    {
      assert CleanBehind(s, s.buffers[b]);
    }
    forall t | 0 <= t < |s.threads|
      ensures CleanPopped(s', s'.threads[t])
    {
      assert CleanPopped(s, s.threads[t]);
    }
  }

  lemma CleanReset(s: State, step: Step)
    requires Inv(s) && Clean(s) && Enabled(s, step) && step.Reset?
    ensures Clean(Apply(s, step))
  {
    var s' := Apply(s, step);
    assert CleanPopped(s, s.threads[step.t]);
    forall b | 0 <= b < |s.buffers|
      ensures CleanBehind(s', s.buffers[b])
    {
      assert CleanBehind(s, s.buffers[b]);
    }
    forall t | 0 <= t < |s.threads|
      ensures CleanPopped(s', s'.threads[t])
    {
      assert CleanPopped(s, s.threads[t]);
    }
  }

  lemma CleanOpen(s: State, step: Step)
    requires Inv(s) && Clean(s) && Enabled(s, step) && step.OpenBuffer?
    ensures Clean(Apply(s, step))
  {
    var s' := Apply(s, step);
    forall b | 0 <= b < |s'.buffers|
      ensures CleanBehind(s', s'.buffers[b])
    {
      if b < |s.buffers| {
        assert CleanBehind(s, s.buffers[b]);
      }
    }
    forall t | 0 <= t < |s.threads|
      ensures CleanPopped(s', s'.threads[t])
    {
      assert CleanPopped(s, s.threads[t]);
    }
  }

  lemma CleanOther(s: State, step: Step)
    requires Clean(s) && Enabled(s, step) && (step.Drop? || step.Return? || step.ThreadExit?)
    ensures Clean(Apply(s, step))
  {
    var s' := Apply(s, step);
    forall b | 0 <= b < |s.buffers|
      ensures CleanBehind(s', s'.buffers[b])
    {
      assert CleanBehind(s, s.buffers[b]);
    }
    forall t | 0 <= t < |s.threads|
      ensures CleanPopped(s', s'.threads[t])
    {
      assert CleanPopped(s, s.threads[t]);
    }
  }

  lemma CleanStep(s: State, step: Step)
    requires Inv(s) && Clean(s) && Enabled(s, step) && Unrecycled(s, step)
    ensures Clean(Apply(s, step))
  {
    match step
    case Take(_, _) => CleanTake(s, step);
    case Reset(_) => CleanReset(s, step);
    case OpenBuffer(_, _) => CleanOpen(s, step);
    case Write(_, _, _) => CleanWrite(s, step);
    case Close(_, _) => CleanClose(s, step);
    case _ => CleanOther(s, step);
  }

  ghost predicate LeadsUnrecycled(s: State, steps: seq<Step>, end: State)
    decreases |steps|
  {
    if steps == [] then s == end
    else Enabled(s, steps[0]) && Unrecycled(s, steps[0]) && LeadsUnrecycled(Apply(s, steps[0]), steps[1..], end)
  }

  lemma {:induction false} StaysClean(s: State, steps: seq<Step>, end: State)
    requires Inv(s) && Clean(s) && LeadsUnrecycled(s, steps, end)
    ensures Inv(end) && Clean(end)
    decreases |steps|
  {
    if steps != [] {
      StepInv(s, steps[0]);
      CleanStep(s, steps[0]);
      StaysClean(Apply(s, steps[0]), steps[1..], end);
    }
  }

  /** As long as no chunk is recycled, a buffer that has just been opened is all zero. */
  lemma FreshBytesAreZero(s: State, steps: seq<Step>, end: State, t: nat, size: nat)
    requires Init(s) && LeadsUnrecycled(s, steps, end) && Enabled(end, OpenBuffer(t, size))
    ensures var buffers := Apply(end, OpenBuffer(t, size)).buffers;
            |buffers| > 0 && ZeroFrom(buffers[|buffers| - 1].content, 0)
  {
    InitInv(s);
    StaysClean(s, steps, end);
  }
}
