/** The receive half of TcpSession: receive buffer and parser together. */
module TcpReceive {
  import opened CoreValues
  import opened RecvBuffers
  import opened TcpFraming

  const BUFFER_SIZE := 0x10000

  /** The parse of `all` has come to p: d is what is delivered, beginning with d0. */
  ghost predicate ParsedUpTo(d0: seq<Bytes>, d: seq<Bytes>, all: Bytes, p: nat) {
    p <= |all| && d + Packets(all[p..]) == d0 + Packets(all) && Rest(all[p..]) == Rest(all)
  }

  ghost predicate ParsedFully(d0: seq<Bytes>, d: seq<Bytes>, all: Bytes, p: nat) {
    p <= |all| && d == d0 + Packets(all) && all[p..] == Rest(all)
  }

  lemma SliceOfSlice(s: Bytes, lo: nat, hi: nat, from: nat, to: nat)
    requires lo <= hi <= |s| && from <= to <= hi - lo
    ensures s[lo..hi][from..to] == s[lo + from..lo + to]
  {
    var mid := s[lo..hi];
    forall k | 0 <= k < to - from
      ensures mid[from..to][k] == s[lo + from..lo + to][k]
    {
      assert mid[from..to][k] == mid[from + k] == s[lo + from + k];
    }
    assert |mid[from..to]| == |s[lo + from..lo + to]|;
  }

  lemma ParseStart(d0: seq<Bytes>, all: Bytes)
    ensures ParsedUpTo(d0, d0, all, 0)
  {
    assert all[0..] == all;
  }

  lemma ParsePeel(d0: seq<Bytes>, d: seq<Bytes>, all: Bytes, p: nat, size: nat)
    requires ParsedUpTo(d0, d, all, p) && HasFrame(all[p..]) && size == Word(all[p..], 0)
    ensures p + size <= |all| && ParsedUpTo(d0, d + [all[p..p + size]], all, p + size)
  {
    var s := all[p..];
    assert s[..size] == all[p..p + size] && s[size..] == all[p + size..];
    var more := Packets(all[p + size..]);
    assert d + ([all[p..p + size]] + more) == d + [all[p..p + size]] + more;
  }

  lemma ParseHalt(d0: seq<Bytes>, d: seq<Bytes>, all: Bytes, p: nat)
    requires ParsedUpTo(d0, d, all, p) && !HasFrame(all[p..])
    ensures ParsedFully(d0, d, all, p)
  {
    assert d + [] == d;
  }

  /** One look at the header at p either ends the parse or peels one frame off. */
  lemma ParseStep(d0: seq<Bytes>, d: seq<Bytes>, all: Bytes, p: nat)
    requires ParsedUpTo(d0, d, all, p) && p + HEADER <= |all|
    ensures var size := all[p] as int + 256 * (all[p + 1] as int);
            if size < HEADER || |all| - p < size then ParsedFully(d0, d, all, p)
            else ParsedUpTo(d0, d + [all[p..p + size]], all, p + size)
  {
    var size := all[p] as int + 256 * (all[p + 1] as int);
    assert Word(all[p..], 0) == size;
    if HasFrame(all[p..]) {
      ParsePeel(d0, d, all, p, size);
    } else {
      ParseHalt(d0, d, all, p);
    }
  }

  lemma ParseEnd(d0: seq<Bytes>, d: seq<Bytes>, all: Bytes, p: nat)
    requires ParsedUpTo(d0, d, all, p) && |all| - p < HEADER
    ensures ParsedFully(d0, d, all, p)
  {
    ParseHalt(d0, d, all, p);
  }

  lemma {:induction false} RestShorter(s: Bytes)
    ensures |Rest(s)| <= |s|
  {
    if HasFrame(s) {
      RestShorter(s[Word(s, 0)..]);
    }
  }

  // ------------------------------------------------------ room in the buffer

  const CAPACITY := BUFFER_SIZE * BUFFER_COUNT

  /** All bytes taken in, and how far the buffer is filled. */
  datatype Progress = Progress(received: Bytes, filled: nat)

  const START := Progress([], 0)

  predicate ProgressWf(p: Progress) { |Rest(p.received)| <= p.filled <= CAPACITY }

  /** The room the next receive is posted with. */
  function Room(p: Progress): nat
    requires ProgressWf(p)
  {
    CAPACITY - p.filled
  }

  /** A receive that fits: parse, consume, clean. */
  function After(p: Progress, chunk: Bytes): (p': Progress)
    requires ProgressWf(p) && |chunk| <= Room(p)
    ensures ProgressWf(p')
  {
    var all := p.received + chunk;
    ParseAppend(p.received, chunk);
    RestShorter(Rest(p.received) + chunk);
    var filled := p.filled + |chunk|;
    Progress(all, if Rest(all) == [] || CAPACITY - filled > BUFFER_SIZE then |Rest(all)| else filled)
  }

  /** The kernel cuts the stream into these receives, none empty, each within the room
      it was posted with and of at most m bytes. */
  predicate Receives(p: Progress, chunks: seq<Bytes>, m: nat)
    requires ProgressWf(p)
    decreases |chunks|
  {
    chunks == [] ||
    (0 < |chunks[0]| <= Room(p) && |chunks[0]| <= m && Receives(After(p, chunks[0]), chunks[1..], m))
  }

  function AfterAll(p: Progress, chunks: seq<Bytes>, m: nat): (p': Progress)
    requires ProgressWf(p) && Receives(p, chunks, m)
    ensures ProgressWf(p')
    decreases |chunks|
  {
    if chunks == [] then p else AfterAll(After(p, chunks[0]), chunks[1..], m)
  }

  /** No beginning of the stream leaves f or more bytes unfinished. */
  ghost predicate RestsUnder(stream: Bytes, f: nat) {
    forall n :: 0 <= n <= |stream| ==> |Rest(stream[..n])| < f
  }

  /** Receives of at most m bytes always leave Clean enough room to compact. */
  lemma {:induction false} AlwaysCompacts(p: Progress, chunks: seq<Bytes>, m: nat, stream: Bytes, f: nat)
    requires ProgressWf(p) && Receives(p, chunks, m) && p.filled == |Rest(p.received)|
    requires RestsUnder(stream, f) && p.received + Flatten(chunks) <= stream && m + f <= CAPACITY - BUFFER_SIZE
    ensures var p' := AfterAll(p, chunks, m); p'.filled == |Rest(p'.received)| < f
    decreases |chunks|
  {
    assert p.received == stream[..|p.received|];
    if chunks != [] {
      var p' := After(p, chunks[0]);
      assert p'.received + Flatten(chunks[1..]) == p.received + Flatten(chunks);
      assert p'.received == stream[..|p'.received|];
      AlwaysCompacts(p', chunks[1..], m, stream, f);
    }
  }

  /** Every header the parser meets announces at least its own length. */
  predicate SaneHeaders(s: Bytes) {
    |s| >= HEADER ==> Word(s, 0) >= HEADER && (HasFrame(s) ==> SaneHeaders(s[Word(s, 0)..]))
  }

  lemma {:induction false} SaneRests(s: Bytes, n: nat)
    requires SaneHeaders(s) && n <= |s|
    ensures |Rest(s[..n])| < 65535
    decreases |s|
  {
    if HasFrame(s[..n]) {
      var size := Word(s, 0);
      assert s[..n][size..] == s[size..][..n - size];
      SaneRests(s[size..], n - size);
    }
  }

  /** Whoever sends, as long as the headers are sane the session never runs out of room
      with receives of at most eight buffer sizes, and one byte more. */
  lemma RoomForSaneHeaders(chunks: seq<Bytes>, m: nat)
    requires SaneHeaders(Flatten(chunks)) && m <= 8 * BUFFER_SIZE + 1 && Receives(START, chunks, m)
    ensures Room(AfterAll(START, chunks, m)) > CAPACITY - 65535
  {
    var stream := Flatten(chunks);
    forall n | 0 <= n <= |stream|
      ensures |Rest(stream[..n])| < 65535
    {
      SaneRests(stream, n);
    }
    assert START.received + stream == stream;
    AlwaysCompacts(START, chunks, m, stream, 65535);
  }

  lemma CutRestShort(packets: seq<Packet>, n: nat)
    requires AllSendable(packets) && packets != [] && n < |Frame(packets[0])|
    ensures n <= |Stream(packets)| && |Rest(Stream(packets)[..n])| == n
  {
    CutShort(packets[0], Stream(packets[1..]), n);
  }

  lemma CutStream(packets: seq<Packet>, n: nat)
    requires AllSendable(packets) && packets != [] && |Frame(packets[0])| <= n <= |Stream(packets)|
    requires |Stream(packets)| == |Frame(packets[0])| + |Stream(packets[1..])|
    ensures Stream(packets)[..n] == Frame(packets[0]) + Stream(packets[1..])[..n - |Frame(packets[0])|]
  {
  }

  lemma CutRestLong(packets: seq<Packet>, n: nat)
    requires AllSendable(packets) && packets != [] && |Frame(packets[0])| <= n <= |Stream(packets)|
    requires |Stream(packets)| == |Frame(packets[0])| + |Stream(packets[1..])|
    ensures Rest(Stream(packets)[..n]) == Rest(Stream(packets[1..])[..n - |Frame(packets[0])|])
  {
    CutStream(packets, n);
    ParseOne(packets[0], Stream(packets[1..])[..n - |Frame(packets[0])|]);
  }

  /** What a stream cut at n leaves unfinished, one packet at a time. */
  lemma CutRest(packets: seq<Packet>, n: nat)
    requires AllSendable(packets) && packets != [] && n <= |Stream(packets)|
    ensures var size := |Frame(packets[0])|;
            && |Stream(packets)| == size + |Stream(packets[1..])|
            && |Rest(Stream(packets)[..n])| ==
               if n < size then n else |Rest(Stream(packets[1..])[..n - size])|
  {
    StreamLength(packets);
    if n < |Frame(packets[0])| {
      CutRestShort(packets, n);
    } else {
      CutRestLong(packets, n);
    }
  }

  lemma {:induction false} EncodedRests(packets: seq<Packet>, n: nat)
    requires AllSendable(packets) && n <= |Stream(packets)|
    ensures |Rest(Stream(packets)[..n])| < SEND_BUFFER_CHUNK_SIZE
    decreases |packets|
  {
    if packets != [] {
      CutRest(packets, n);
      if n >= |Frame(packets[0])| {
        EncodedRests(packets[1..], n - |Frame(packets[0])|);
      }
    }
  }

  // ------------------------------------------------- a receive without room

  /** A packet that fills a send buffer chunk, and a stream of them. */
  function FullPacket(): (p: Packet)
    ensures Sendable(p) && |Frame(p)| == SEND_BUFFER_CHUNK_SIZE
  {
    Packet(0, seq(SEND_BUFFER_CHUNK_SIZE - HEADER, i => 0))
  }

  function FullPackets(k: nat): (packets: seq<Packet>)
    ensures AllSendable(packets) && |packets| == k
  {
    if k == 0 then [] else [FullPacket()] + FullPackets(k - 1)
  }

  lemma {:induction false} FullLength(k: nat)
    ensures |Stream(FullPackets(k))| == SEND_BUFFER_CHUNK_SIZE * k
  {
    if k > 0 {
      FullLength(k - 1);
      assert FullPackets(k)[1..] == FullPackets(k - 1);
    }
  }

  lemma FullCut(k: nat, n: nat)
    requires 0 < k && n <= SEND_BUFFER_CHUNK_SIZE * k
    ensures |Stream(FullPackets(k))| == SEND_BUFFER_CHUNK_SIZE * k
    ensures |Stream(FullPackets(k - 1))| == SEND_BUFFER_CHUNK_SIZE * (k - 1)
    ensures |Rest(Stream(FullPackets(k))[..n])| ==
            if n < SEND_BUFFER_CHUNK_SIZE then n
            else |Rest(Stream(FullPackets(k - 1))[..n - SEND_BUFFER_CHUNK_SIZE])|
  {
    FullLength(k);
    FullLength(k - 1);
    CutRest(FullPackets(k), n);
    assert FullPackets(k)[1..] == FullPackets(k - 1);
  }

  lemma ModLess(n: nat)
    requires SEND_BUFFER_CHUNK_SIZE <= n
    ensures (n - SEND_BUFFER_CHUNK_SIZE) % SEND_BUFFER_CHUNK_SIZE == n % SEND_BUFFER_CHUNK_SIZE
  {
  }

  lemma {:induction false} FullRests(k: nat, n: nat)
    requires n <= SEND_BUFFER_CHUNK_SIZE * k
    ensures n <= |Stream(FullPackets(k))| && |Rest(Stream(FullPackets(k))[..n])| == n % SEND_BUFFER_CHUNK_SIZE
  {
    if k == 0 {
      FullLength(0);
    } else {
      FullCut(k, n);
      if n >= SEND_BUFFER_CHUNK_SIZE {
        FullRests(k - 1, n - SEND_BUFFER_CHUNK_SIZE);
        ModLess(n);
      }
    }
  }

  lemma ReceivesCons(p: Progress, chunk: Bytes, rest: seq<Bytes>, m: nat)
    requires ProgressWf(p) && 0 < |chunk| <= Room(p) && |chunk| <= m && Receives(After(p, chunk), rest, m)
    ensures Receives(p, [chunk] + rest, m)
    ensures AfterAll(p, [chunk] + rest, m) == AfterAll(After(p, chunk), rest, m)
    ensures Flatten([chunk] + rest) == chunk + Flatten(rest)
  {
    assert ([chunk] + rest)[1..] == rest;
  }

  lemma AfterCut(s: Bytes, i: nat, j: nat, filled: nat)
    requires i <= j <= |s| && |Rest(s[..i])| <= filled <= CAPACITY - (j - i)
    ensures After(Progress(s[..i], filled), s[i..j]) ==
              var filled' := filled + (j - i);
              Progress(s[..j],
                       if |Rest(s[..j])| == 0 || CAPACITY - filled' > BUFFER_SIZE then |Rest(s[..j])| else filled')
  {
    assert s[..i] + s[i..j] == s[..j];
  }

  /** Of a stream of full packets, 5999 bytes are unfinished and compacted; then 583825
      come at once and leave exactly one buffer size, which is too little for Clean; the
      next receive fills it. */
  lemma FillsUp(s: Bytes, m: nat) returns (chunks: seq<Bytes>)
    requires m >= 583825 && |s| >= CAPACITY
    requires |Rest(s[..5999])| == 5999 && |Rest(s[..589824])| == 1824 && |Rest(s[..655360])| == 1360
    ensures Receives(START, chunks, m) && Room(AfterAll(START, chunks, m)) == 0 && Flatten(chunks) <= s
  {
    var a, b, c := s[..5999], s[5999..589824], s[589824..655360];
    assert s[..0] == [] && s[0..5999] == a;
    AfterCut(s, 0, 5999, 0);
    AfterCut(s, 5999, 589824, 5999);
    AfterCut(s, 589824, 655360, 589824);
    var p1, p2 := Progress(a, 5999), Progress(s[..589824], 589824);
    ReceivesCons(p2, c, [], m);
    ReceivesCons(p1, b, [c] + [], m);
    ReceivesCons(START, a, [b] + ([c] + []), m);
    chunks := [a] + ([b] + ([c] + []));
    assert a + (b + (c + [])) == s[..655360];
  }

  lemma RunsOutOfRoom(m: nat) returns (packets: seq<Packet>, chunks: seq<Bytes>)
    requires m >= 583825
    ensures AllSendable(packets) && Receives(START, chunks, m) && Flatten(chunks) <= Stream(packets)
    ensures Room(AfterAll(START, chunks, m)) == 0
  {
    packets := FullPackets(110);
    FullLength(110);
    FullRests(110, 5999);
    FullRests(110, 589824);
    FullRests(110, 655360);
    chunks := FillsUp(Stream(packets), m);
  }

  /** On a stream of encoded packets, however it is cut, a receive is never posted
      without room exactly when no receive takes more than 583824 bytes: the buffer's
      capacity less one buffer size less one send buffer chunk. */
  lemma RoomExactly(m: nat)
    ensures (forall packets, chunks ::
                AllSendable(packets) && Receives(START, chunks, m) && Flatten(chunks) <= Stream(packets) ==>
                  Room(AfterAll(START, chunks, m)) > 0) <==> m <= 583824
  {
    if m <= 583824 {
      forall packets, chunks |
        AllSendable(packets) && Receives(START, chunks, m) && Flatten(chunks) <= Stream(packets)
        ensures Room(AfterAll(START, chunks, m)) > 0
      {
        forall n | 0 <= n <= |Stream(packets)|
          ensures |Rest(Stream(packets)[..n])| < SEND_BUFFER_CHUNK_SIZE
        {
          EncodedRests(packets, n);
        }
        assert START.received + Flatten(chunks) == Flatten(chunks);
        AlwaysCompacts(START, chunks, m, Stream(packets), SEND_BUFFER_CHUNK_SIZE);
      }
    } else {
      var packets, chunks := RunsOutOfRoom(m);
    }
  }

  // ------------------------------------------------- the receive in flight

  /** Where the session's one receive stands: posted with the kernel, completed and being
      processed, or neither. */
  datatype Phase = Unposted | Posted | Processing

  datatype Link = Link(connected: bool, phase: Phase, progress: Progress)

  /** ProcessRecv is Completed and then, unless it disconnects, RegisterRecv is
      Registered; the session may be disconnected at any time. */
  datatype Event =
    | Completed(chunk: Bytes)
    | Registered(answer: Answer)
    | Disconnected

  /** ProcessConnect, about to call RegisterRecv. */
  const CONNECTED := Link(true, Processing, START)

  predicate Possible(l: Link, e: Event) {
    match e
    case Completed(_) => l.phase.Posted?
    case Registered(_) => l.phase.Processing?
    case Disconnected => true
  }

  function Apply(l: Link, e: Event): (l': Link)
    requires ProgressWf(l.progress) && Possible(l, e)
    ensures ProgressWf(l'.progress)
  {
    match e
    case Completed(chunk) =>
      if 0 < |chunk| <= Room(l.progress) then l.(phase := Processing, progress := After(l.progress, chunk))
      else l.(connected := false, phase := Unposted)
    case Registered(answer) =>
      if !l.connected then l.(phase := Unposted)
      else if answer.Accepted? then l.(phase := Posted)
      else l.(phase := Unposted, connected := !answer.fatal)
    case Disconnected => l.(connected := false)
  }

  /** A completion with nothing, or with more than fits. */
  lemma BadCompletion(l: Link, n: nat)
    requires ProgressWf(l.progress) && l.phase.Posted? && !(0 < n <= Room(l.progress))
    ensures forall chunk: Bytes :: |chunk| == n ==>
              Apply(l, Completed(chunk)) == l.(connected := false, phase := Unposted)
  {
  }

  /** The connection is up and nobody is going to receive from it any more. */
  predicate Deaf(l: Link) { l.connected && l.phase.Unposted? }

  /** A WSARecv that fails on the spot with an error that does not close the connection. */
  predicate SoftFailure(e: Event) { e.Registered? && e.answer == Refused(false) }

  /** The one way to go deaf. */
  lemma DeafensExactly(l: Link, e: Event)
    requires ProgressWf(l.progress) && Possible(l, e) && !Deaf(l)
    ensures Deaf(Apply(l, e)) <==> SoftFailure(e) && l.connected
  {
  }

  /** Events in order; soft failures are among them only if mayFail. */
  predicate Run(l: Link, events: seq<Event>, mayFail: bool)
    requires ProgressWf(l.progress)
    decreases |events|
  {
    events == [] ||
    (Possible(l, events[0]) && (SoftFailure(events[0]) ==> mayFail) && Run(Apply(l, events[0]), events[1..], mayFail))
  }

  function ApplyAll(l: Link, events: seq<Event>, mayFail: bool): Link
    requires ProgressWf(l.progress) && Run(l, events, mayFail)
    decreases |events|
  {
    if events == [] then l else ApplyAll(Apply(l, events[0]), events[1..], mayFail)
  }

  lemma {:induction false} NeverDeaf(l: Link, events: seq<Event>)
    requires ProgressWf(l.progress) && Run(l, events, false) && !Deaf(l)
    ensures !Deaf(ApplyAll(l, events, false))
    decreases |events|
  {
    if events != [] {
      DeafensExactly(l, events[0]);
      NeverDeaf(Apply(l, events[0]), events[1..]);
    }
  }

  predicate KeepsHearing(events: seq<Event>, mayFail: bool) {
    Run(CONNECTED, events, mayFail) ==> !Deaf(ApplyAll(CONNECTED, events, mayFail))
  }

  lemma GoesDeaf() returns (events: seq<Event>)
    ensures !KeepsHearing(events, true)
  {
    events := [Registered(Refused(false))];
    var deaf := Apply(CONNECTED, events[0]);
    assert Run(deaf, events[1..], true) && ApplyAll(deaf, events[1..], true) == deaf;
    assert Run(CONNECTED, events, true) && ApplyAll(CONNECTED, events, true) == deaf;
  }

  /** A live session always has a receive posted or being processed, whatever arrives and
      whatever closes the connection, exactly when there are no soft failures. */
  lemma HearsExactly(mayFail: bool)
    ensures (forall events :: KeepsHearing(events, mayFail)) <==> !mayFail
  {
    if mayFail {
      var events := GoesDeaf();
      assert !KeepsHearing(events, mayFail);
    } else {
      forall events
        ensures KeepsHearing(events, mayFail)
      {
        if Run(CONNECTED, events, mayFail) {
          NeverDeaf(CONNECTED, events);
        }
      }
    }
  }

  function Completions(events: seq<Event>): nat {
    if events == [] then 0 else (if events[0].Completed? then 1 else 0) + Completions(events[1..])
  }

  lemma {:induction false} DownForGood(l: Link, events: seq<Event>, mayFail: bool)
    requires ProgressWf(l.progress) && Run(l, events, mayFail) && !l.connected
    ensures !ApplyAll(l, events, mayFail).connected
    ensures Completions(events) <= if l.phase.Posted? then 1 else 0
    decreases |events|
  {
    if events != [] {
      DownForGood(Apply(l, events[0]), events[1..], mayFail);
    }
  }

  /** Once disconnected a session stays down, and only the receive already posted can still
      complete. */
  lemma DisconnectIsFinal(l: Link, events: seq<Event>, mayFail: bool)
    requires ProgressWf(l.progress) && Run(Apply(l, Disconnected), events, mayFail)
    ensures !ApplyAll(Apply(l, Disconnected), events, mayFail).connected && Completions(events) <= 1
  {
    DownForGood(Apply(l, Disconnected), events, mayFail);
  }

  // ---------------------------------------------------------------- session

  class TcpSession {
    const recvBuffer: RecvBuffer
    var connected: bool
    var receiving: bool                // the receive event has an owner
    ghost var received: Bytes          // every byte taken in so far
    ghost var delivered: seq<Bytes>    // the frames passed to OnRecv
    ghost var asked: nat               // room offered by the last WSARecv

    ghost predicate Valid()
      reads this, recvBuffer, recvBuffer.buffer
    {
      && recvBuffer.Valid() && recvBuffer.bufferSize == BUFFER_SIZE
      && delivered == Packets(received) && recvBuffer.Contents() == Rest(received)
    }

    ghost function Now(): (p: Progress)
      requires Valid()
      reads this, recvBuffer, recvBuffer.buffer
      ensures ProgressWf(p) && Room(p) == recvBuffer.FreeSize()
    {
      Progress(received, recvBuffer.writePos)
    }

    ghost function Status(): (l: Link)
      requires Valid()
      reads this, recvBuffer, recvBuffer.buffer
      ensures ProgressWf(l.progress)
    {
      Link(connected, if receiving then Posted else Unposted, Now())
    }

    method Disconnect()
      modifies this`connected
      ensures !connected
    {
      connected := false;
    }

    /** Posts the next receive for all the room there is, unless disconnected. */
    method RegisterRecv(answer: Answer)
      requires Valid() && !receiving
      modifies this`asked, this`receiving, this`connected
      ensures Valid() && Now() == old(Now())
      ensures Status() == Apply(old(Status()).(phase := Processing), Registered(answer))
      ensures receiving == (old(connected) && answer.Accepted?) && (receiving ==> asked == Room(Now()))
      ensures connected == (old(connected) && answer != Refused(true))
    {
      if !connected {
        return;
      }
      receiving := true;
      asked := recvBuffer.FreeSize();
      if answer.Refused? {
        if answer.fatal {
          Disconnect();
        }
        receiving := false;
      }
    }

    /** Connects, and posts the first receive. */
    constructor (answer: Answer)
      ensures Valid() && fresh(recvBuffer) && fresh(recvBuffer.buffer)
      ensures Status() == Apply(CONNECTED, Registered(answer)) && (receiving ==> asked == CAPACITY)
    {
      recvBuffer := new RecvBuffer(BUFFER_SIZE);
      connected := true;
      receiving := false;
      received := [];
      delivered := [];
      new;
      RegisterRecv(answer);
    }

    /** header->size of the frame at an offset of the unread bytes. */
    method SizeAt(offset: nat) returns (size: nat)
      requires recvBuffer.Valid() && offset + HEADER <= recvBuffer.DataSize()
      ensures var all := recvBuffer.Contents(); size == all[offset] as int + 256 * (all[offset + 1] as int)
    {
      var at := recvBuffer.readPos + offset;
      size := recvBuffer.buffer[at] as int + 256 * (recvBuffer.buffer[at + 1] as int);
    }

    /** The bytes OnRecv is shown for it. */
    ghost method FrameAt(offset: nat, size: nat) returns (frame: Bytes)
      requires recvBuffer.Valid() && offset + size <= recvBuffer.DataSize()
      ensures frame == recvBuffer.Contents()[offset..offset + size]
    {
      var at := recvBuffer.readPos + offset;
      frame := recvBuffer.buffer[at..at + size];
      var whole := recvBuffer.buffer[..];
      assert frame == whole[at..at + size] && recvBuffer.Contents() == whole[recvBuffer.readPos..recvBuffer.writePos];
      SliceOfSlice(whole, recvBuffer.readPos, recvBuffer.writePos, offset, offset + size);
    }

    /** Looks at the header at processLen, and hands the frame to OnRecv if it is whole. */
    method TakeFrame(processLen: nat) returns (size: nat, whole: bool)
      requires recvBuffer.Valid() && processLen + HEADER <= recvBuffer.DataSize()
      modifies this`delivered
      ensures var all := recvBuffer.Contents();
              && size == all[processLen] as int + 256 * (all[processLen + 1] as int)
              && whole == (HEADER <= size <= |all| - processLen)
              && delivered == if whole then old(delivered) + [all[processLen..processLen + size]] else old(delivered)
    {
      size := SizeAt(processLen);
      if recvBuffer.DataSize() - processLen < size || size < HEADER {
        return size, false;
      }
      var frame := FrameAt(processLen, size);
      delivered := delivered + [frame];
      whole := true;
    }

    /** Hands each whole frame among the unread bytes to OnRecv; nothing is consumed yet. */
    method IsParsingPacket() returns (processLen: nat)
      requires recvBuffer.Valid()
      modifies this`delivered
      ensures delivered == old(delivered) + Packets(recvBuffer.Contents())
      ensures processLen <= recvBuffer.DataSize() && recvBuffer.Contents()[processLen..] == Rest(recvBuffer.Contents())
    {
      ghost var all := recvBuffer.Contents();
      var len := recvBuffer.DataSize();
      processLen := 0;
      ParseStart(delivered, all);
      while len - processLen >= HEADER
        invariant ParsedUpTo(old(delivered), delivered, all, processLen)
        decreases len - processLen
      {
        ParseStep(old(delivered), delivered, all, processLen);
        var size, whole := TakeFrame(processLen);
        if !whole {
          return;
        }
        processLen := processLen + size;
      }
      ParseEnd(old(delivered), delivered, all, processLen);
    }

    /** Parses, consumes what was parsed, and cleans the buffer. */
    method Consume()
      requires recvBuffer.Valid() && recvBuffer.bufferSize == BUFFER_SIZE
      modifies this`delivered, recvBuffer, recvBuffer.buffer
      ensures recvBuffer.Valid()
      ensures delivered == old(delivered) + Packets(old(recvBuffer.Contents()))
      ensures recvBuffer.Contents() == Rest(old(recvBuffer.Contents()))
      ensures recvBuffer.writePos == if recvBuffer.Contents() == [] || CAPACITY - old(recvBuffer.writePos) > BUFFER_SIZE
                                     then |recvBuffer.Contents()| else old(recvBuffer.writePos)
    {
      var dataSize := recvBuffer.DataSize();
      var processLen := IsParsingPacket();
      assert processLen <= recvBuffer.DataSize() == dataSize;
      var read := recvBuffer.OnRead(processLen);
      if dataSize < processLen || !read {
        assert false;   // the "OnRead Overflow" disconnect is unreachable
      }
      recvBuffer.Clean();
    }

    /** Takes note of a chunk that the buffer has just taken in behind `unread`. */
    method TakeIn(ghost before: Progress, ghost unread: Bytes, ghost chunk: Bytes)
      requires recvBuffer.Valid() && recvBuffer.bufferSize == BUFFER_SIZE
      requires ProgressWf(before) && |chunk| <= Room(before)
      requires received == before.received && delivered == Packets(received) && unread == Rest(received)
      requires recvBuffer.Contents() == unread + chunk && recvBuffer.writePos == before.filled + |chunk|
      modifies this`received, this`delivered, recvBuffer, recvBuffer.buffer
      ensures Valid() && Now() == After(before, chunk)
    {
      ParseAppend(received, chunk);
      received := received + chunk;
      Consume();
    }

    /** The rest of ProcessRecv, once the buffer has taken the chunk in. */
    method Finish(ghost link: Link, ghost unread: Bytes, ghost chunk: Bytes, answer: Answer)
      requires recvBuffer.Valid() && recvBuffer.bufferSize == BUFFER_SIZE
      requires link.phase.Posted? && link.connected == connected && !receiving
      requires ProgressWf(link.progress) && 0 < |chunk| <= Room(link.progress)
      requires received == link.progress.received && delivered == Packets(received) && unread == Rest(received)
      requires recvBuffer.Contents() == unread + chunk && recvBuffer.writePos == link.progress.filled + |chunk|
      modifies this, recvBuffer, recvBuffer.buffer
      ensures Valid() && (receiving ==> asked == Room(Now()))
      ensures Status() == Apply(Apply(link, Completed(chunk)), Registered(answer))
    {
      TakeIn(link.progress, unread, chunk);
      assert Status().(phase := Processing) == Apply(link, Completed(chunk));
      RegisterRecv(answer);
    }

    /** Completion of a receive of numOfBytes bytes, placed behind writePos by the kernel.
        Whatever the sizes, the session has then delivered the greedy parse of all bytes
        received, buffers the rest, and tries to post the next receive.  Nothing, or more
        than fits, disconnects. */
    method ProcessRecv(numOfBytes: nat, answer: Answer)
      requires Valid() && receiving
      modifies this, recvBuffer, recvBuffer.buffer
      ensures Valid() && (receiving ==> asked == Room(Now()))
      ensures 0 < numOfBytes <= old(recvBuffer.FreeSize()) ==>
                var chunk := old(recvBuffer.buffer[recvBuffer.writePos..recvBuffer.writePos + numOfBytes]);
                Status() == Apply(Apply(old(Status()), Completed(chunk)), Registered(answer))
      ensures !(0 < numOfBytes <= old(recvBuffer.FreeSize())) ==>
                && Status() == old(Status()).(connected := false, phase := Unposted) && delivered == old(delivered)
                && (forall chunk: Bytes :: |chunk| == numOfBytes ==> Status() == Apply(old(Status()), Completed(chunk)))
                && !connected && !receiving
    {
      receiving := false;
      if numOfBytes == 0 {
        BadCompletion(old(Status()), 0);
        Disconnect();
        return;
      }
      ghost var link, unread, at := old(Status()), recvBuffer.Contents(), recvBuffer.writePos;
      var written := recvBuffer.OnWrite(numOfBytes);
      if !written {
        BadCompletion(old(Status()), numOfBytes);
        Disconnect();
        return;
      }
      ghost var chunk := recvBuffer.buffer[at..recvBuffer.writePos];
      Finish(link, unread, chunk, answer);
    }
  }
}
