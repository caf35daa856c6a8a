/** TCP frames: the greedy parser, the encoder, and the round trip between them. */
module TcpFraming {
  import opened CoreValues

  type Bytes = seq<Byte>

  const HEADER := 4                  // sizeof(TcpPacketHeader): uint16 size, uint16 id

  /** A little-endian uint16. */
  function Word(s: Bytes, at: nat): nat
    requires at + 2 <= |s|
  {
    s[at] as int + 256 * (s[at + 1] as int)
  }

  /** A whole frame stands at the front. */
  predicate HasFrame(s: Bytes) {
    |s| >= HEADER && HEADER <= Word(s, 0) <= |s|
  }

  /** The frames a greedy parse delivers, and what it leaves in the buffer. */
  function Packets(s: Bytes): seq<Bytes> {
    if HasFrame(s) then [s[..Word(s, 0)]] + Packets(s[Word(s, 0)..]) else []
  }

  function Rest(s: Bytes): Bytes {
    if HasFrame(s) then Rest(s[Word(s, 0)..]) else s
  }

  function Flatten(parts: seq<Bytes>): Bytes {
    if parts == [] then [] else parts[0] + Flatten(parts[1..])
  }

  lemma Reassemble(part: Bytes, parts: seq<Bytes>, rest: Bytes)
    ensures Flatten([part] + parts) + rest == part + (Flatten(parts) + rest)
  {
    assert ([part] + parts)[1..] == parts;
  }

  lemma ParseOnce(s: Bytes)
    requires HasFrame(s)
    ensures Packets(s) == [s[..Word(s, 0)]] + Packets(s[Word(s, 0)..])
    ensures Rest(s) == Rest(s[Word(s, 0)..])
    ensures s == s[..Word(s, 0)] + s[Word(s, 0)..]
  {
  }

  /** Parsing loses and invents nothing. */
  lemma {:induction false} ParseConserves(s: Bytes)
    ensures Flatten(Packets(s)) + Rest(s) == s
    decreases |s|
  {
    if HasFrame(s) {
      var head, tail := s[..Word(s, 0)], s[Word(s, 0)..];
      var more, rest := Packets(tail), Rest(tail);
      assert Flatten(more) + rest == tail by {
        ParseConserves(tail);
      }
      Reassemble(head, more, rest);
      ParseOnce(s);
    } else {
      assert [] + s == s;
    }
  }

  /** Parsing may stop anywhere and resume with the rest. */
  lemma {:induction false} ParseAppend(a: Bytes, b: Bytes)
    ensures Packets(a + b) == Packets(a) + Packets(Rest(a) + b)
    ensures Rest(a + b) == Rest(Rest(a) + b)
  {
    if HasFrame(a) {
      var n := Word(a, 0);
      assert HasFrame(a + b) && Word(a + b, 0) == n;
      assert (a + b)[..n] == a[..n] && (a + b)[n..] == a[n..] + b;
      ParseAppend(a[n..], b);
    }
  }

  /** A session fed chunk by chunk: what was delivered, and what is buffered. */
  function Feed(delivered: seq<Bytes>, buffered: Bytes, chunks: seq<Bytes>): (seq<Bytes>, Bytes)
    decreases |chunks|
  {
    if chunks == [] then (delivered, buffered)
    else Feed(delivered + Packets(buffered + chunks[0]), Rest(buffered + chunks[0]), chunks[1..])
  }

  lemma FlattenStep(sofar: Bytes, chunks: seq<Bytes>)
    requires chunks != []
    ensures sofar + chunks[0] + Flatten(chunks[1..]) == sofar + Flatten(chunks)
  {
  }

  lemma FeedStep(sofar: Bytes, chunks: seq<Bytes>)
    requires chunks != []
    ensures Feed(Packets(sofar), Rest(sofar), chunks) ==
            Feed(Packets(sofar + chunks[0]), Rest(sofar + chunks[0]), chunks[1..])
  {
    ParseAppend(sofar, chunks[0]);
  }

  lemma {:induction false} FeedFrom(sofar: Bytes, chunks: seq<Bytes>)
    ensures Feed(Packets(sofar), Rest(sofar), chunks) ==
            (Packets(sofar + Flatten(chunks)), Rest(sofar + Flatten(chunks)))
    decreases |chunks|
  {
    if chunks == [] {
      assert sofar + Flatten(chunks) == sofar;
    } else {
      FeedStep(sofar, chunks);
      FlattenStep(sofar, chunks);
      FeedFrom(sofar + chunks[0], chunks[1..]);
    }
  }

  /** Delivery does not depend on how the stream was cut into receives. */
  lemma SegmentationIndependent(cut1: seq<Bytes>, cut2: seq<Bytes>)
    requires Flatten(cut1) == Flatten(cut2)
    ensures Feed([], [], cut1) == Feed([], [], cut2) == (Packets(Flatten(cut1)), Rest(Flatten(cut1)))
  {
    FeedFrom([], cut1);
    FeedFrom([], cut2);
    assert [] + Flatten(cut1) == Flatten(cut1) == Flatten(cut2) == [] + Flatten(cut2);
  }

  // ---------------------------------------------------------------- encoder

  datatype Packet = Packet(id: nat, payload: Bytes)

  datatype FrameResult =
    | Framed(frame: Bytes)
    | Crash       // an ASSERT_CRASH fires
    | Overrun     // the 16-bit size wrapped below the header: the write leaves the buffer

  function WordBytes(x: nat): (b: Bytes)
    requires x < 65536
    ensures |b| == 2 && Word(b, 0) == x
  {
    [x % 256, x / 256]
  }

  predicate Sendable(p: Packet) {
    p.id < 65536 && HEADER + |p.payload| <= SEND_BUFFER_CHUNK_SIZE
  }

  function Frame(p: Packet): Bytes
    requires Sendable(p)
  {
    WordBytes(HEADER + |p.payload|) + WordBytes(p.id) + p.payload
  }

  function Decode(frame: Bytes): Packet
    requires |frame| >= HEADER
  {
    Packet(Word(frame, 2), frame[HEADER..])
  }

  /** MakeSendBufferImpl, with its uint16 casts: a frame comes out exactly for
      payloads that fit a send buffer chunk together with the header. */
  method MakeSendBuffer(p: Packet) returns (r: FrameResult)
    requires p.id < 65536
    ensures r.Framed? <==> Sendable(p)
    ensures r.Framed? ==> r.frame == Frame(p)
  {
    var dataSize := |p.payload| % 65536;
    var packetSize := (dataSize + HEADER) % 65536;
    if packetSize > SEND_BUFFER_CHUNK_SIZE {
      return Crash;      // SendBufferChunk::Open
    }
    if packetSize < HEADER {
      return Overrun;
    }
    if dataSize < |p.payload| {
      return Crash;      // SerializeToArray into too small a space
    }
    var frame := WordBytes(packetSize) + WordBytes(p.id) + p.payload;
    return Framed(frame);
  }

  /** Decoding a frame gives the packet back, and a frame is parsed as one frame
      whatever follows it. */
  lemma FrameRoundTrip(p: Packet, more: Bytes)
    requires Sendable(p)
    ensures |Frame(p)| == HEADER + |p.payload| && Decode(Frame(p)) == p
    ensures HasFrame(Frame(p) + more) && Word(Frame(p) + more, 0) == |Frame(p)|
    ensures (Frame(p) + more)[..|Frame(p)|] == Frame(p) && (Frame(p) + more)[|Frame(p)|..] == more
  {
    assert Frame(p)[..2] == WordBytes(HEADER + |p.payload|) && Frame(p)[2..4] == WordBytes(p.id);
    assert Frame(p)[HEADER..] == p.payload;
    assert Word(Frame(p), 0) == Word(Frame(p)[..2], 0) && Word(Frame(p), 2) == Word(Frame(p)[2..4], 0);
  }

  function Stream(packets: seq<Packet>): Bytes
    requires forall i :: 0 <= i < |packets| ==> Sendable(packets[i])
  {
    if packets == [] then [] else Frame(packets[0]) + Stream(packets[1..])
  }

  predicate AllHaveHeaders(frames: seq<Bytes>) {
    forall i :: 0 <= i < |frames| ==> |frames[i]| >= HEADER
  }

  function DecodeAll(frames: seq<Bytes>): seq<Packet>
    requires AllHaveHeaders(frames)
  {
    if frames == [] then [] else [Decode(frames[0])] + DecodeAll(frames[1..])
  }

  /** A frame cut short is not taken for a frame. */
  lemma CutShort(p: Packet, more: Bytes, n: nat)
    requires Sendable(p) && n < |Frame(p)|
    ensures !HasFrame((Frame(p) + more)[..n])
  {
    FrameRoundTrip(p, more);
    assert n >= 2 ==> Word((Frame(p) + more)[..n], 0) == Word(Frame(p) + more, 0);
  }

  lemma ParseOne(p: Packet, more: Bytes)
    requires Sendable(p)
    ensures Packets(Frame(p) + more) == [Frame(p)] + Packets(more) && Rest(Frame(p) + more) == Rest(more)
  {
    FrameRoundTrip(p, more);
  }

  predicate AllSendable(packets: seq<Packet>) {
    forall i :: 0 <= i < |packets| ==> Sendable(packets[i])
  }

  /** The first n bytes of the stream stop inside packet k, or at its start. */
  predicate StopsAt(packets: seq<Packet>, n: nat, k: nat)
    requires AllSendable(packets)
  {
    && k <= |packets|
    && |Stream(packets[..k])| <= n
    && (if k < |packets| then n < |Stream(packets[..k + 1])| else n == |Stream(packets)|)
  }

  lemma StopsLater(packets: seq<Packet>, n: nat, left: nat, j: nat)
    requires AllSendable(packets) && packets != [] && n == |Frame(packets[0])| + left && StopsAt(packets[1..], left, j)
    ensures StopsAt(packets, n, j + 1)
  {
    assert packets[..j + 1][0] == packets[0] && packets[..j + 1][1..] == packets[1..][..j];
    if j + 1 < |packets| {
      assert packets[..j + 2][0] == packets[0] && packets[..j + 2][1..] == packets[1..][..j + 1];
    }
  }

  function Arrived(packets: seq<Packet>, n: nat): Bytes
    requires AllSendable(packets) && n <= |Stream(packets)|
  {
    Stream(packets)[..n]
  }

  /** The parse of these bytes delivers exactly these packets, id and payload intact. */
  ghost predicate Decoded(bytes: Bytes, packets: seq<Packet>) {
    AllHaveHeaders(Packets(bytes)) && DecodeAll(Packets(bytes)) == packets
  }

  /** From the first n bytes of the stream exactly the first k packets have been
      delivered, those whose frames have arrived whole. */
  ghost predicate Delivered(packets: seq<Packet>, n: nat, k: nat)
    requires AllSendable(packets) && n <= |Stream(packets)|
  {
    && StopsAt(packets, n, k)
    && Decoded(Arrived(packets, n), packets[..k])
    && (n == |Stream(packets)| ==> Rest(Arrived(packets, n)) == [])
  }

  lemma DeliveredNone(packets: seq<Packet>, n: nat)
    requires AllSendable(packets) && packets != [] && n < |Frame(packets[0])|
    ensures Delivered(packets, n, 0)
  {
    CutShort(packets[0], Stream(packets[1..]), n);
    assert packets[..1][1..] == [];
    assert packets[..0] == [];
  }

  lemma DecodeOne(p: Packet, more: Bytes, packets: seq<Packet>)
    requires Sendable(p) && Decoded(more, packets)
    ensures Decoded(Frame(p) + more, [p] + packets)
  {
    ParseOne(p, more);
    FrameRoundTrip(p, more);
    assert ([Frame(p)] + Packets(more))[1..] == Packets(more);
  }

  lemma StreamLength(packets: seq<Packet>)
    requires AllSendable(packets) && packets != []
    ensures |Stream(packets)| == |Frame(packets[0])| + |Stream(packets[1..])|
  {
  }

  lemma ArrivedOne(packets: seq<Packet>, n: nat, left: nat)
    requires AllSendable(packets) && packets != [] && n == |Frame(packets[0])| + left <= |Stream(packets)|
    ensures left <= |Stream(packets[1..])|
    ensures Arrived(packets, n) == Frame(packets[0]) + Arrived(packets[1..], left)
  {
  }

  lemma DeliveredOne(packets: seq<Packet>, n: nat, left: nat, j: nat)
    requires AllSendable(packets) && packets != [] && n == |Frame(packets[0])| + left <= |Stream(packets)|
    requires left <= |Stream(packets[1..])| && Delivered(packets[1..], left, j)
    ensures Delivered(packets, n, j + 1)
  {
    ArrivedOne(packets, n, left);
    StopsLater(packets, n, left, j);
    DecodeOne(packets[0], Arrived(packets[1..], left), packets[1..][..j]);
    assert packets[..j + 1] == [packets[0]] + packets[1..][..j];
    StreamLength(packets);
    ParseOne(packets[0], Arrived(packets[1..], left));
  }

  lemma DeliveredNothing(n: nat)
    requires n <= |Stream([])|
    ensures Delivered([], n, 0)
  {
    assert Arrived([], n) == [];
  }

  /** End to end: whatever part of the stream has arrived, some prefix of the packets
      sent has been delivered, and all of them once the whole stream is there. */
  lemma {:induction false} EndToEnd(packets: seq<Packet>, n: nat) returns (k: nat)
    requires AllSendable(packets) && n <= |Stream(packets)|
    ensures Delivered(packets, n, k) && (n == |Stream(packets)| ==> k == |packets|)
    decreases |packets|
  {
    if packets == [] {
      k := 0;
      DeliveredNothing(n);
    } else {
      StreamLength(packets);
      if n < |Frame(packets[0])| {
        k := 0;
        DeliveredNone(packets, n);
      } else {
        var left := n - |Frame(packets[0])|;
        var j := EndToEnd(packets[1..], left);
        k := j + 1;
        DeliveredOne(packets, n, left, j);
      }
    }
  }
}
