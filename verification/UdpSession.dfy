/** UdpSession: the pending-packet table with retries, and the session object whose
    methods realise it together with the receive history of ReliableUdp. */
module UdpSessions {
  import opened ReliableUdp

  type Buffer = nat   // identity of a shared send buffer

  datatype Pending = Pending(buffer: Buffer, sequence: Seq16, timestamp: real, retryCount: nat)

  /** An Update call under way: the entries it has listed and not sent again yet. */
  datatype Updating = Idle | Resending(now: real, left: seq<Seq16>)

  /** `wire` lists the packets handed to the socket, each with the sequence it carried. */
  datatype Sender = Sender(
    connected: bool, pending: map<Seq16, Pending>, next: Seq16, wire: seq<(Buffer, Seq16)>, updating: Updating)

  function SendOne(s: Sender, buffer: Buffer, time: real): Sender {
    s.(pending := s.pending[s.next := Pending(buffer, s.next, time, 0)],
       next := Wrap(s.next + 1),
       wire := if s.connected then s.wire + [(buffer, s.next)] else s.wire)
  }

  predicate IsDue(p: Pending, now: real, interval: real) { now - p.timestamp >= interval }

  function Bump(p: Pending, now: real, interval: real): Pending {
    if IsDue(p, now, interval) then p.(timestamp := now, retryCount := p.retryCount + 1) else p
  }

  function Due(m: map<Seq16, Pending>, now: real, interval: real): set<Seq16> {
    set k | k in m && IsDue(m[k], now, interval)
  }

  function StillResending(now: real, left: seq<Seq16>): Updating {
    if left == [] then Idle else Resending(now, left)
  }

  /** The locked loop of Update: due entries age and are listed, and one entry past the
      limit disconnects. */
  function Scanned(s: Sender, now: real, order: seq<Seq16>, interval: real): Sender {
    s.(connected := s.connected &&
         forall k :: k in s.pending ==> Bump(s.pending[k], now, interval).retryCount <= MAX_RETRY,
       pending := map k | k in s.pending :: Bump(s.pending[k], now, interval),
       updating := StillResending(now, order))
  }

  /** order lists every element of keys exactly once. */
  ghost predicate Enumerates(order: seq<Seq16>, keys: set<Seq16>) {
    && (forall k :: k in order <==> k in keys)
    && (forall i, j :: 0 <= i < j < |order| ==> order[i] != order[j])
  }

  /** Inside that loop: `left` is still to be looked at, `list` is what was due so far, and
      `up` whether the session is still connected. */
  ghost predicate HalfScanned(was: map<Seq16, Pending>, m: map<Seq16, Pending>, left: set<Seq16>, list: seq<Seq16>,
            up: bool, now: real, interval: real) {
    && left <= was.Keys && m.Keys == was.Keys
    && (forall k :: k in was ==> m[k] == if k in left then was[k] else Bump(was[k], now, interval))
    && Enumerates(list, Due(was, now, interval) - left)
    && (up <==> forall k :: k in was && k !in left ==> Bump(was[k], now, interval).retryCount <= MAX_RETRY)
  }

  lemma ScanEntry(was: map<Seq16, Pending>, m: map<Seq16, Pending>, left: set<Seq16>, list: seq<Seq16>, up: bool,
            now: real, interval: real, k: Seq16)
    requires HalfScanned(was, m, left, list, up, now, interval) && k in left
    ensures k in m
    ensures var p := Bump(m[k], now, interval);
            HalfScanned(was, m[k := p], left - {k}, if IsDue(m[k], now, interval) then list + [k] else list,
                        up && p.retryCount <= MAX_RETRY, now, interval)
  {
    assert k !in list;
  }

  lemma ScanEnd(s: Sender, m: map<Seq16, Pending>, list: seq<Seq16>, up: bool, now: real, interval: real)
    requires HalfScanned(s.pending, m, {}, list, up, now, interval)
    ensures Enumerates(list, Due(s.pending, now, interval))
    ensures Scanned(s, now, list, interval) ==
            s.(connected := s.connected && up, pending := m, updating := StillResending(now, list))
  {
    assert Due(s.pending, now, interval) - {} == Due(s.pending, now, interval);
    assert m == map k | k in s.pending :: Bump(s.pending[k], now, interval);
  }

  /** One turn of the second loop, which runs without the lock: an entry that is still
      there is sent again under a new number, and the old entry stays. */
  function ResendNext(s: Sender): Sender {
    if s.updating.Resending? && s.updating.left != [] then
      var q := s.updating.left[0];
      var s' := s.(updating := StillResending(s.updating.now, s.updating.left[1..]));
      if q in s.pending then SendOne(s', s.pending[q].buffer, s.updating.now) else s'
    else s
  }

  function RemoveAcked(m: map<Seq16, Pending>, s: Seq16, bits: nat): map<Seq16, Pending> {
    m - AckSet(s, bits)
  }

  // -------------------------------------------------- acknowledgement batches

  function HandleAcks(m: map<Seq16, Pending>, acks: seq<(Seq16, nat)>): map<Seq16, Pending> {
    if acks == [] then m else HandleAcks(RemoveAcked(m, acks[0].0, acks[0].1), acks[1..])
  }

  ghost predicate AckedBy(acks: seq<(Seq16, nat)>, q: Seq16) {
    exists a :: a in acks && q in AckSet(a.0, a.1)
  }

  lemma {:induction false} HandleAcksIsSubtraction(m: map<Seq16, Pending>, acks: seq<(Seq16, nat)>)
    ensures HandleAcks(m, acks) == map q | q in m && !AckedBy(acks, q) :: m[q]
  {
    if acks != [] {
      var m' := RemoveAcked(m, acks[0].0, acks[0].1);
      HandleAcksIsSubtraction(m', acks[1..]);
      assert acks == [acks[0]] + acks[1..];
      forall q | q in m
        ensures q in m' && !AckedBy(acks[1..], q) <==> !AckedBy(acks, q)
      {
        if q in AckSet(acks[0].0, acks[0].1) {
          assert acks[0] in acks;
        }
      }
    }
  }

  /** Acknowledgements may be reordered and duplicated at will: only which ones
      arrive matters. */
  lemma AcksCommute(m: map<Seq16, Pending>, acks: seq<(Seq16, nat)>, acks': seq<(Seq16, nat)>)
    requires forall a :: a in acks <==> a in acks'
    ensures HandleAcks(m, acks) == HandleAcks(m, acks')
  {
    HandleAcksIsSubtraction(m, acks);
    HandleAcksIsSubtraction(m, acks');
    assert forall q :: AckedBy(acks, q) <==> AckedBy(acks', q);
  }

  /** What the receiver of s reports removes from the sender's table exactly s and the
      32 numbers before it whose slot is set. */
  lemma AckCodec(m: map<Seq16, Pending>, history: seq<bool>, s: Seq16, q: Seq16)
    requires |history| == WINDOW_SIZE && q in m
    ensures var m' := RemoveAcked(m, s, AckBits(history, s, BITFIELD_SIZE));
            && (q !in m' <==> q == s || (1 <= Wrap(s - q) <= BITFIELD_SIZE && history[q % WINDOW_SIZE]))
            && (q in m' ==> m'[q] == m[q])
  {
    AckRoundTrip(history, s, q);
  }

  // ------------------------------------------------------------------- runs

  /** What a packet sent with Send puts on the wire. */
  function SendPlain(s: Sender, buffer: Buffer, number: Seq16): Sender {
    s.(wire := if s.connected then s.wire + [(buffer, number)] else s.wire)
  }

  /** The atomic actions on the sending half.  An unreliable packet carries whatever
      number its buffer happens to hold.  Acknowledgements and further sends may
      fall between the scan of an Update and its resends, and between the resends; and a
      send the socket refuses, or anyone else, may disconnect the session at any time. */
  datatype Event =
    | Send(buffer: Buffer, time: real)
    | Unreliable(buffer: Buffer, number: Seq16)
    | Ack(latest: Seq16, bits: nat)
    | Scan(now: real, order: seq<Seq16>)
    | Resend
    | Disconnect

  ghost predicate Possible(s: Sender, e: Event, interval: real) {
    match e
    case Scan(now, order) => s.updating.Idle? && Enumerates(order, Due(s.pending, now, interval))
    case Resend => s.updating.Resending? && s.updating.left != []
    case _ => true
  }

  function Apply(s: Sender, e: Event, interval: real): Sender {
    match e
    case Send(buffer, time) => SendOne(s, buffer, time)
    case Unreliable(buffer, number) => SendPlain(s, buffer, number)
    case Ack(latest, bits) => s.(pending := RemoveAcked(s.pending, latest, bits))
    case Scan(now, order) => Scanned(s, now, order, interval)
    case Resend => ResendNext(s)
    case Disconnect => s.(connected := false)
  }

  ghost predicate PossibleRun(s: Sender, run: seq<Event>, interval: real)
    decreases |run|
  {
    run == [] || (Possible(s, run[0], interval) && PossibleRun(Apply(s, run[0], interval), run[1..], interval))
  }

  function ApplyAll(s: Sender, run: seq<Event>, interval: real): Sender
    decreases |run|
  {
    if run == [] then s else ApplyAll(Apply(s, run[0], interval), run[1..], interval)
  }

  function Resends(n: nat): seq<Event> {
    if n == 0 then [] else [Resend] + Resends(n - 1)
  }

  /** A whole call of Update, with nothing in between. */
  function UpdateRun(now: real, order: seq<Seq16>): seq<Event> {
    [Scan(now, order)] + Resends(|order|)
  }

  lemma UpdateIsScanAndResends(s: Sender, now: real, order: seq<Seq16>, interval: real)
    ensures var scanned := Scanned(s, now, order, interval);
            var run := UpdateRun(now, order);
            && ApplyAll(s, run, interval) == ApplyAll(scanned, Resends(|order|), interval)
            && (PossibleRun(s, run, interval) <==>
                Possible(s, Scan(now, order), interval) && PossibleRun(scanned, Resends(|order|), interval))
  {
    assert UpdateRun(now, order)[1..] == Resends(|order|);
  }

  /** n resends from a and k from b are possible alike and end alike. */
  ghost predicate EndAlike(a: Sender, n: nat, b: Sender, k: nat, interval: real) {
    && ApplyAll(a, Resends(n), interval) == ApplyAll(b, Resends(k), interval)
    && (PossibleRun(a, Resends(n), interval) <==> PossibleRun(b, Resends(k), interval))
  }

  lemma EndStep(a: Sender, n: nat, b: Sender, k: nat, interval: real)
    requires EndAlike(a, n, b, k, interval) && k > 0 && Possible(b, Resend, interval)
    ensures EndAlike(a, n, ResendNext(b), k - 1, interval)
  {
    assert Resends(k)[1..] == Resends(k - 1);
  }

  // --------------------------------------------------------- retransmission

  /** The k-th number from n on. */
  function Number(n: Seq16, k: nat): Seq16 { Wrap(n + k) }

  /** The next n numbers are not in the table. */
  ghost predicate FreeNumbers(s: Sender, n: nat) {
    forall q :: q in s.pending ==> Wrap(q - s.next) >= n
  }

  /** Old entries stay; listed ones have a new time and one more retry. */
  ghost predicate Kept(was: Sender, end: Sender, now: real, order: seq<Seq16>) {
    forall q :: q in was.pending ==>
      var p := was.pending[q];
      && q in end.pending
      && end.pending[q] == if q in order then p.(timestamp := now, retryCount := p.retryCount + 1) else p
  }

  /** Each listed packet is pending once more, under the next number in turn, and nothing
      else is new. */
  ghost predicate Refiled(was: Sender, end: Sender, now: real, order: seq<Seq16>) {
    && (forall k :: 0 <= k < |order| ==>
          var q := Number(was.next, k);
          && order[k] in was.pending && q in end.pending
          && end.pending[q] == Pending(was.pending[order[k]].buffer, q, now, 0))
    && (forall q :: q in end.pending ==> q in was.pending || Wrap(q - was.next) < |order|)
    && end.next == Number(was.next, |order|)
  }

  /** Each listed packet has been put on the wire again, in order, with that number. */
  ghost predicate Resent(was: Sender, end: Sender, order: seq<Seq16>) {
    && was.wire <= end.wire && |end.wire| == |was.wire| + |order|
    && forall k :: 0 <= k < |order| ==>
         && order[k] in was.pending
         && end.wire[|was.wire| + k] == (was.pending[order[k]].buffer, Number(was.next, k))
  }

  /** No entry is past the limit once the listed ones have been retried. */
  ghost predicate NoneExhausted(was: Sender, order: seq<Seq16>) {
    forall q :: q in was.pending ==> was.pending[q].retryCount + (if q in order then 1 else 0) <= MAX_RETRY
  }

  /** What a whole Update does to the table, the numbers and the wire. */
  ghost predicate Retransmitted(was: Sender, end: Sender, now: real, order: seq<Seq16>, interval: real) {
    && (forall q :: q in order <==> q in was.pending && now - was.pending[q].timestamp >= interval)
    && Kept(was, end, now, order) && Refiled(was, end, now, order) && end.updating.Idle?
    && (end.connected <==> was.connected && NoneExhausted(was, order))
    && (if end.connected then Resent(was, end, order) else end.wire == was.wire)
  }

  /** The second loop alone, from s. */
  ghost predicate ResentFrom(s: Sender, end: Sender, now: real, list: seq<Seq16>) {
    && (forall q :: q in s.pending ==> q in end.pending && end.pending[q] == s.pending[q])
    && Refiled(s, end, now, list) && end.updating.Idle? && end.connected == s.connected
    && (if s.connected then Resent(s, end, list) else end.wire == s.wire)
  }

  /** The list without its last number, with the numbers above it moved down by one. */
  function Squeezed(list: seq<nat>): (out: seq<nat>)
    requires list != [] && forall i, j :: 0 <= i < j < |list| ==> list[i] != list[j]
    ensures |out| == |list| - 1
    ensures forall i :: 0 <= i < |out| ==>
              out[i] == if list[i] > list[|list| - 1] then list[i] - 1 else list[i]
  {
    seq(|list| - 1, i requires 0 <= i < |list| - 1 => if list[i] > list[|list| - 1] then list[i] - 1 else list[i])
  }

  /** Distinct numbers below n are at most n. */
  lemma {:induction false} DistinctBelow(list: seq<nat>, n: nat)
    requires forall i, j :: 0 <= i < j < |list| ==> list[i] != list[j]
    requires forall i :: 0 <= i < |list| ==> list[i] < n
    ensures |list| <= n
    decreases |list|
  {
    if list != [] {
      var last := |list| - 1;
      assert forall i :: 0 <= i < last ==> list[i] != list[last];
      DistinctBelow(Squeezed(list), n - 1);
    }
  }

  lemma NumberNext(n: Seq16, k: nat)
    ensures Number(n, 0) == n && Number(Wrap(n + 1), k) == Number(n, k + 1)
  {
  }

  /** How far a number is from the next one, and from the one after. */
  lemma LaterNumber(n: Seq16, q: Seq16)
    ensures Wrap(q - Wrap(n + 1)) == if q == n then 65535 else Wrap(q - n) - 1
  {
    assert Wrap(q - Wrap(n + 1)) == Wrap(q - n - 1);
  }

  /** One turn of the loop with a free number ahead. */
  ghost predicate Turned(s: Sender, s1: Sender, q: Seq16, now: real) {
    && q in s.pending && s.next !in s.pending
    && s1.pending == s.pending[s.next := Pending(s.pending[q].buffer, s.next, now, 0)]
    && s1.next == Wrap(s.next + 1) && s1.connected == s.connected
    && s1.wire == if s.connected then s.wire + [(s.pending[q].buffer, s.next)] else s.wire
  }

  lemma FreeLater(s: Sender, s1: Sender, n: nat)
    requires 0 < n <= 65536 && FreeNumbers(s, n) && s1.next == Wrap(s.next + 1)
    requires s1.pending.Keys == s.pending.Keys + {s.next}
    ensures FreeNumbers(s1, n - 1)
  {
    forall q | q in s1.pending
      ensures Wrap(q - s1.next) >= n - 1
    {
      LaterNumber(s.next, q);
      assert q in s.pending.Keys || q == s.next;
    }
  }

  lemma TurnResends(s: Sender, now: real, list: seq<Seq16>)
    requires list != [] && s.updating == Resending(now, list) && list[0] in s.pending
    requires 0 < |list| <= 65536 && FreeNumbers(s, |list|)
    ensures var s1 := ResendNext(s);
            && Turned(s, s1, list[0], now) && s1.updating == StillResending(now, list[1..])
            && FreeNumbers(s1, |list| - 1)
  {
    assert Wrap(s.next - s.next) == 0;
    FreeLater(s, ResendNext(s), |list|);
  }

  lemma RefiledEntry(s: Sender, s1: Sender, end: Sender, now: real, list: seq<Seq16>, k: nat)
    requires 0 < k < |list| && Turned(s, s1, list[0], now) && list[k] in s.pending
    requires Refiled(s1, end, now, list[1..])
    ensures var q := Number(s.next, k);
            q in end.pending && end.pending[q] == Pending(s.pending[list[k]].buffer, q, now, 0)
  {
    NumberNext(s.next, k - 1);
    assert list[1..][k - 1] == list[k] && list[k] != s.next;
    assert Number(s1.next, k - 1) in end.pending;
  }

  lemma RefiledOnly(s: Sender, s1: Sender, end: Sender, now: real, list: seq<Seq16>)
    requires list != [] && Turned(s, s1, list[0], now) && Refiled(s1, end, now, list[1..])
    ensures forall q :: q in end.pending ==> q in s.pending || Wrap(q - s.next) < |list|
  {
    forall q | q in end.pending && q !in s.pending
      ensures Wrap(q - s.next) < |list|
    {
      LaterNumber(s.next, q);
    }
  }

  lemma RefiledCons(s: Sender, s1: Sender, end: Sender, now: real, list: seq<Seq16>)
    requires 0 < |list| <= 65536 && Turned(s, s1, list[0], now)
    requires forall k :: 0 <= k < |list| ==> list[k] in s.pending
    requires Refiled(s1, end, now, list[1..]) && s.next in end.pending && end.pending[s.next] == s1.pending[s.next]
    ensures Refiled(s, end, now, list)
  {
    NumberNext(s.next, 0);
    forall k | 0 < k < |list|
      ensures var q := Number(s.next, k);
              q in end.pending && end.pending[q] == Pending(s.pending[list[k]].buffer, q, now, 0)
    {
      RefiledEntry(s, s1, end, now, list, k);
    }
    RefiledOnly(s, s1, end, now, list);
    NumberNext(s.next, |list| - 1);
  }

  lemma ResentCons(s: Sender, s1: Sender, end: Sender, now: real, list: seq<Seq16>)
    requires list != [] && Turned(s, s1, list[0], now) && s.connected
    requires forall k :: 0 <= k < |list| ==> list[k] in s.pending
    requires Resent(s1, end, list[1..])
    ensures Resent(s, end, list)
  {
    forall k | 0 <= k < |list|
      ensures end.wire[|s.wire| + k] == (s.pending[list[k]].buffer, Number(s.next, k))
    {
      if k == 0 {
        NumberNext(s.next, 0);
        assert end.wire[|s.wire|] == s1.wire[|s.wire|];
      } else {
        NumberNext(s.next, k - 1);
        assert list[1..][k - 1] == list[k] && list[k] != s.next;
        assert end.wire[|s1.wire| + (k - 1)] == (s1.pending[list[k]].buffer, Number(s1.next, k - 1));
      }
    }
  }

  lemma AllResentCons(s: Sender, s1: Sender, end: Sender, now: real, list: seq<Seq16>)
    requires 0 < |list| <= 65536 && Turned(s, s1, list[0], now)
    requires forall k :: 0 <= k < |list| ==> list[k] in s.pending
    requires ResentFrom(s1, end, now, list[1..])
    ensures ResentFrom(s, end, now, list)
  {
    RefiledCons(s, s1, end, now, list);
    if s.connected {
      ResentCons(s, s1, end, now, list);
    }
  }

  lemma {:induction false} ResendsResend(s: Sender, now: real, list: seq<Seq16>, interval: real)
    requires s.updating == StillResending(now, list) && |list| <= 65536 && FreeNumbers(s, |list|)
    requires forall k :: 0 <= k < |list| ==> list[k] in s.pending
    ensures ResentFrom(s, ApplyAll(s, Resends(|list|), interval), now, list)
    decreases |list|
  {
    if list == [] {
      NumberNext(s.next, 0);
    } else {
      var s1 := ResendNext(s);
      TurnResends(s, now, list);
      assert Resends(|list|)[1..] == Resends(|list| - 1);
      ResendsResend(s1, now, list[1..], interval);
      AllResentCons(s, s1, ApplyAll(s1, Resends(|list| - 1), interval), now, list);
    }
  }

  /** Aging changes neither the buffers nor the numbers. */
  lemma ScanKeeps(s: Sender, now: real, order: seq<Seq16>, interval: real, end: Sender)
    requires Enumerates(order, Due(s.pending, now, interval))
    requires ResentFrom(Scanned(s, now, order, interval), end, now, order)
    ensures Retransmitted(s, end, now, order, interval)
  {
    var scanned := Scanned(s, now, order, interval);
    assert forall q :: q in s.pending ==> scanned.pending[q].buffer == s.pending[q].buffer;
    assert scanned.connected <==> s.connected && NoneExhausted(s, order);
  }

  /** Retransmission: whatever is due is aged and kept, and filed and sent again, with its
      own buffer, under the next numbers in order, if these are free; when the session is
      or gets disconnected, nothing reaches the wire. */
  lemma UpdateRetransmits(s: Sender, now: real, order: seq<Seq16>, interval: real)
    requires Possible(s, Scan(now, order), interval) && FreeNumbers(s, |order|)
    ensures Retransmitted(s, ApplyAll(s, UpdateRun(now, order), interval), now, order, interval)
  {
    var scanned := Scanned(s, now, order, interval);
    DistinctBelow(order, 65536);
    UpdateIsScanAndResends(s, now, order, interval);
    assert forall k :: 0 <= k < |order| ==> order[k] in order;
    ResendsResend(scanned, now, order, interval);
    ScanKeeps(s, now, order, interval, ApplyAll(scanned, Resends(|order|), interval));
  }

  /** After a disconnect nothing reaches the wire any more, and the session stays down. */
  lemma {:induction false} SilentOnceDown(s: Sender, run: seq<Event>, interval: real)
    requires !s.connected
    ensures var end := ApplyAll(s, run, interval); !end.connected && end.wire == s.wire
    decreases |run|
  {
    if run != [] {
      SilentOnceDown(Apply(s, run[0], interval), run[1..], interval);
    }
  }

  lemma DisconnectSilences(s: Sender, run: seq<Event>, interval: real)
    ensures var end := ApplyAll(s, [Disconnect] + run, interval); !end.connected && end.wire == s.wire
  {
    assert ([Disconnect] + run)[1..] == run;
    SilentOnceDown(Apply(s, Disconnect, interval), run, interval);
  }

  /** While connected, no pending packet has been retried more than five times. */
  predicate RetriesBounded(s: Sender) {
    s.connected ==> forall k :: k in s.pending ==> s.pending[k].retryCount <= MAX_RETRY
  }

  lemma {:induction false} RetryBound(s: Sender, run: seq<Event>, interval: real)
    requires RetriesBounded(s)
    ensures RetriesBounded(ApplyAll(s, run, interval))
    decreases |run|
  {
    if run != [] {
      RetryBound(Apply(s, run[0], interval), run[1..], interval);
    }
  }

  // ----------------------------------------------------- an unanswered packet

  /** How many sequence numbers an event uses up. */
  function Uses(s: Sender, e: Event): nat {
    match e
    case Send(_, _) => 1
    case Resend => if s.updating.Resending? && s.updating.left != [] && s.updating.left[0] in s.pending then 1 else 0
    case _ => 0
  }

  /** Time of the last scan. */
  function Clock(e: Event, last: real): real {
    if e.Scan? then e.now else last
  }

  function LastUpdate(run: seq<Event>, last: real): real
    decreases |run|
  {
    if run == [] then last else LastUpdate(run[1..], Clock(run[0], last))
  }

  ghost predicate Answers(e: Event, q: Seq16) {
    e.Ack? && q in AckSet(e.latest, e.bits)
  }

  /** A run that never acknowledges q, with scan times that never go back and are at
      most `gap` apart, and that uses at most n sequence numbers; `last` is the time of
      the scan before it. */
  ghost predicate Unanswered(s: Sender, run: seq<Event>, q: Seq16, last: real, interval: real, gap: real, n: nat)
    decreases |run|
  {
    run == [] ||
    (var e := run[0];
     && Possible(s, e, interval) && !Answers(e, q) && Uses(s, e) <= n
     && last <= Clock(e, last) <= last + gap
     && Unanswered(Apply(s, e, interval), run[1..], q, Clock(e, last), interval, gap, n - Uses(s, e)))
  }

  /** The entry q, first sent at t, against the last scan: every retry took at most
      interval + gap. */
  ghost predicate OnSchedule(s: Sender, q: Seq16, t: real, last: real, interval: real, gap: real) {
    s.connected ==>
      && q in s.pending
      && s.pending[q].timestamp <= t + s.pending[q].retryCount as real * (interval + gap)
      && last < s.pending[q].timestamp + interval
  }

  /** With n numbers to use and q more than n away, q is not used again. */
  lemma NumbersLeft(s: Sender, e: Event, q: Seq16, interval: real, n: nat)
    requires Uses(s, e) <= n <= Wrap(q - s.next)
    ensures n - Uses(s, e) <= Wrap(q - Apply(s, e, interval).next)
    ensures Uses(s, e) == 1 ==> s.next != q
  {
  }

  lemma OneMoreTime(r: real, x: real)
    ensures (r + 1.0) * x == r * x + x
  {
  }

  lemma ScanOnSchedule(s: Sender, e: Event, q: Seq16, t: real, last: real, interval: real, gap: real)
    requires OnSchedule(s, q, t, last, interval, gap) && e.Scan?
    requires interval > 0.0 && gap >= 0.0 && last <= e.now <= last + gap
    ensures OnSchedule(Apply(s, e, interval), q, t, e.now, interval, gap)
  {
    if s.connected {
      var p := s.pending[q];
      var p' := Bump(p, e.now, interval);
      if IsDue(p, e.now, interval) {
        OneMoreTime(p.retryCount as real, interval + gap);
        assert p'.retryCount as real == p.retryCount as real + 1.0;
      }
      assert p'.timestamp <= t + p'.retryCount as real * (interval + gap) && e.now < p'.timestamp + interval;
    }
  }

  lemma StepOnSchedule(s: Sender, e: Event, q: Seq16, t: real, last: real, interval: real, gap: real)
    requires OnSchedule(s, q, t, last, interval, gap) && !Answers(e, q) && (Uses(s, e) == 1 ==> s.next != q)
    requires interval > 0.0 && gap >= 0.0 && last <= Clock(e, last) <= last + gap
    ensures OnSchedule(Apply(s, e, interval), q, t, Clock(e, last), interval, gap)
  {
    if e.Scan? {
      ScanOnSchedule(s, e, q, t, last, interval, gap);
    }
  }

  lemma ScaleMonotone(a: real, b: real, x: real)
    requires a <= b && x >= 0.0
    ensures a * x <= b * x
  {
    assert (b - a) * x >= 0.0;
  }

  /** At most five retries on schedule put a horizon on the last scan. */
  lemma ScheduleHorizon(s: Sender, q: Seq16, t: real, last: real, interval: real, gap: real)
    requires OnSchedule(s, q, t, last, interval, gap) && RetriesBounded(s) && interval > 0.0 && gap >= 0.0
    ensures s.connected ==> last < t + 6.0 * interval + 5.0 * gap
  {
    if s.connected {
      ScaleMonotone(s.pending[q].retryCount as real, 5.0, interval + gap);
    }
  }

  /** Some prefix of the run, over by the deadline, ends disconnected. */
  lemma {:induction false} DeadlinePrefix(s: Sender, run: seq<Event>, q: Seq16, t: real, last: real, interval: real,
            gap: real, n: nat)
    returns (i: nat)
    requires OnSchedule(s, q, t, last, interval, gap) && Unanswered(s, run, q, last, interval, gap, n)
    requires interval > 0.0 && gap >= 0.0 && RetriesBounded(s) && n <= Wrap(q - s.next)
    requires last <= t + 6.0 * (interval + gap) && LastUpdate(run, last) >= t + 6.0 * interval + 5.0 * gap
    ensures i <= |run| && LastUpdate(run[..i], last) <= t + 6.0 * (interval + gap)
    ensures !ApplyAll(s, run[..i], interval).connected
    decreases |run|
  {
    if last >= t + 6.0 * interval + 5.0 * gap {
      ScheduleHorizon(s, q, t, last, interval, gap);
      i := 0;
    } else {
      var e := run[0];
      var s' := Apply(s, e, interval);
      NumbersLeft(s, e, q, interval, n);
      StepOnSchedule(s, e, q, t, last, interval, gap);
      RetryBound(s, [e], interval);
      assert ApplyAll(s, [e], interval) == s';
      var k := DeadlinePrefix(s', run[1..], q, t, Clock(e, last), interval, gap, n - Uses(s, e));
      i := k + 1;
      assert run[..i][1..] == run[1..][..k];
    }
  }

  /** A packet sent at t, never acknowledged afterwards while at most n more numbers are
      used, and scans going on past the deadline. */
  ghost predicate Unheard(s: Sender, buffer: Buffer, t: real, run: seq<Event>, interval: real, gap: real, n: nat) {
    && RetriesBounded(s) && interval > 0.0 && gap >= 0.0
    && Unanswered(SendOne(s, buffer, t), run, s.next, t, interval, gap, n)
    && LastUpdate(run, t) >= t + 6.0 * (interval + gap)
  }

  ghost predicate DownBy(s: Sender, run: seq<Event>, last: real, interval: real, deadline: real) {
    exists i :: 0 <= i <= |run| && LastUpdate(run[..i], last) <= deadline && !ApplyAll(s, run[..i], interval).connected
  }

  /** It brings the session down by t + 6 * (interval + gap), as long as its number is
      not used again: the next 65535 numbers are others. */
  lemma UnansweredDisconnects(s: Sender, buffer: Buffer, t: real, run: seq<Event>, interval: real, gap: real, n: nat)
    requires Unheard(s, buffer, t, run, interval, gap, n) && n <= 65535
    ensures DownBy(SendOne(s, buffer, t), run, t, interval, t + 6.0 * (interval + gap))
  {
    var i := DeadlinePrefix(SendOne(s, buffer, t), run, s.next, t, t, interval, gap, n);
  }

  // ------------------------------------------------- a number used once more

  /** Packet 1 alone is pending. */
  ghost predicate Only(s: Sender, p: Pending, next: Seq16) {
    s.connected && s.pending == map[1 := p] && s.next == next && s.updating.Idle?
  }

  /** With interval 1 and gap 10: packet 1 stays unanswered, at most n numbers are used,
      and the session is up as long as the last scan is not past 66. */
  ghost predicate Outlives(s: Sender, run: seq<Event>, last: real, n: nat)
    decreases |run|
  {
    && (last <= 66.0 ==> s.connected)
    && if run == [] then last >= 66.0
       else
         var e := run[0];
         && Possible(s, e, 1.0) && !Answers(e, 1) && Uses(s, e) <= n
         && last <= Clock(e, last) <= last + 10.0
         && Outlives(Apply(s, e, 1.0), run[1..], Clock(e, last), n - Uses(s, e))
  }

  lemma OutlivesCons(s: Sender, e: Event, rest: seq<Event>, last: real, n: nat)
    requires s.connected && Possible(s, e, 1.0) && !Answers(e, 1) && Uses(s, e) <= n
    requires last <= Clock(e, last) <= last + 10.0
    requires Outlives(Apply(s, e, 1.0), rest, Clock(e, last), n - Uses(s, e))
    ensures Outlives(s, [e] + rest, last, n)
  {
    assert ([e] + rest)[1..] == rest;
  }

  lemma {:induction false} OutlivesRun(s: Sender, run: seq<Event>, last: real, n: nat)
    requires Outlives(s, run, last, n)
    ensures Unanswered(s, run, 1, last, 1.0, 10.0, n) && LastUpdate(run, last) >= 66.0
    decreases |run|
  {
    if run != [] {
      OutlivesRun(Apply(s, run[0], 1.0), run[1..], Clock(run[0], last), n - Uses(s, run[0]));
    }
  }

  lemma {:induction false} OutlivesPrefix(s: Sender, run: seq<Event>, last: real, n: nat, i: nat)
    requires Outlives(s, run, last, n) && i <= |run| && LastUpdate(run[..i], last) <= 66.0
    ensures ApplyAll(s, run[..i], 1.0).connected
    decreases |run|
  {
    if i > 0 {
      assert run[..i][1..] == run[1..][..i - 1];
      OutlivesPrefix(Apply(s, run[0], 1.0), run[1..], Clock(run[0], last), n - Uses(s, run[0]), i - 1);
    }
  }

  /** An acknowledgement with an empty field covers one number. */
  lemma AckOne(q: Seq16)
    ensures AckSet(q, 0) == {q}
  {
    forall i: nat | i <= BITFIELD_SIZE && Covers(0, i)
      ensures i == 0
    {
      if i > 0 {
        ZeroBit(i - 1);
      }
    }
    assert Covers(0, 0) && Wrap(q - 0) == q;
  }

  /** Number 1, used again at 59.5, is not due at 60, and at 70 only on its first retry. */
  lemma LateEnd(s: Sender, p: Pending, n: nat) returns (run: seq<Event>)
    requires Only(s, p, 1) && n >= 1
    ensures Outlives(s, run, 50.0, n)
  {
    var s1 := Apply(s, Send(0, 59.5), 1.0);
    var s2 := Apply(s1, Scan(60.0, []), 1.0);
    var s3 := Apply(s2, Scan(70.0, [1]), 1.0);
    assert Only(s1, Pending(0, 1, 59.5, 0), 2);
    assert Due(s1.pending, 60.0, 1.0) == {};
    assert Only(s2, Pending(0, 1, 59.5, 0), 2);
    assert Due(s2.pending, 70.0, 1.0) == {1};
    assert Outlives(s3, [], 70.0, n - 1);
    OutlivesCons(s2, Scan(70.0, [1]), [], 60.0, n - 1);
    OutlivesCons(s1, Scan(60.0, []), [Scan(70.0, [1])] + [], 50.0, n - 1);
    run := [Scan(60.0, [])] + ([Scan(70.0, [1])] + []);
    OutlivesCons(s, Send(0, 59.5), run, 50.0, n);
    run := [Send(0, 59.5)] + run;
  }

  /** k packets sent and acknowledged at once, up to number 0, and then number 1 again. */
  lemma {:induction false} RoundTheClock(s: Sender, p: Pending, k: nat, n: nat) returns (run: seq<Event>)
    requires k <= 65535 && Only(s, p, Wrap(1 - k)) && n >= k + 1
    ensures Outlives(s, run, 50.0, n)
    decreases k
  {
    if k == 0 {
      run := LateEnd(s, p, n);
    } else {
      var q := s.next;
      var s1 := Apply(s, Send(0, 50.0), 1.0);
      var s2 := Apply(s1, Ack(q, 0), 1.0);
      AckOne(q);
      assert s2.pending == map[1 := p];
      run := RoundTheClock(s2, p, k - 1, n - 1);
      OutlivesCons(s1, Ack(q, 0), run, 50.0, n - 1);
      OutlivesCons(s, Send(0, 50.0), [Ack(q, 0)] + run, 50.0, n);
      run := [Send(0, 50.0)] + ([Ack(q, 0)] + run);
    }
  }

  /** Packet 1 after c retries, the last one at this time. */
  function Retried(c: nat, time: real): Pending { Pending(0, 1, time, c) }

  lemma RetryScan(s: Sender, c: nat, time: real, now: real)
    requires c < 5 && Only(s, Retried(c, time), 2 + c) && now >= time + 1.0
    ensures Possible(s, Scan(now, [1]), 1.0)
    ensures Apply(s, Scan(now, [1]), 1.0) ==
            s.(pending := map[1 := Retried(c + 1, now)], updating := Resending(now, [1]))
  {
    assert Due(s.pending, now, 1.0) == {1};
    assert Scanned(s, now, [1], 1.0).pending == map[1 := Retried(c + 1, now)];
  }

  /** The resent copy is acknowledged, the old entry is not. */
  lemma AckCopy(s: Sender, p: Pending, copy: Pending, q: Seq16)
    requires s.connected && q != 1 && s.pending == map[1 := p][q := copy] && s.next == Wrap(q + 1) && s.updating.Idle?
    ensures !Answers(Ack(q, 0), 1) && Only(Apply(s, Ack(q, 0), 1.0), p, Wrap(q + 1))
  {
    AckOne(q);
    assert Apply(s, Ack(q, 0), 1.0).pending == map[1 := p];
  }

  function RetryRun(c: nat, now: real, end: seq<Event>): seq<Event>
    requires c < 5
  {
    [Scan(now, [1])] + ([Resend] + ([Ack(2 + c, 0)] + end))
  }

  function AfterRetry(s: Sender, c: nat, now: real): Sender
    requires c < 5
  {
    Apply(Apply(Apply(s, Scan(now, [1]), 1.0), Resend, 1.0), Ack(2 + c, 0), 1.0)
  }

  /** The next retry: packet 1 is sent again under another number, and only that one is
      acknowledged. */
  lemma RetryRound(s: Sender, c: nat, time: real, now: real)
    requires c < 5 && Only(s, Retried(c, time), 2 + c) && now >= time + 1.0
    ensures !Answers(Ack(2 + c, 0), 1) && Only(AfterRetry(s, c, now), Retried(c + 1, now), 3 + c)
  {
    RetryScan(s, c, time, now);
    var s2 := Apply(Apply(s, Scan(now, [1]), 1.0), Resend, 1.0);
    AckCopy(s2, Retried(c + 1, now), Pending(0, 2 + c, now, 0), 2 + c);
  }

  lemma RetryMidway(s: Sender, c: nat, time: real, now: real)
    requires c < 5 && Only(s, Retried(c, time), 2 + c) && now >= time + 1.0
    ensures var s1 := Apply(s, Scan(now, [1]), 1.0);
            && s1.connected && Possible(s1, Resend, 1.0) && Uses(s1, Resend) == 1 && Apply(s1, Resend, 1.0).connected
  {
    RetryScan(s, c, time, now);
  }

  lemma RetryOutlives(s: Sender, c: nat, time: real, now: real, end: seq<Event>, n: nat)
    requires c < 5 && Only(s, Retried(c, time), 2 + c) && time + 1.0 <= now <= time + 10.0 && n >= 1
    requires Outlives(AfterRetry(s, c, now), end, now, n - 1)
    ensures Outlives(s, RetryRun(c, now, end), time, n)
  {
    var s1 := Apply(s, Scan(now, [1]), 1.0);
    var s2 := Apply(s1, Resend, 1.0);
    RetryMidway(s, c, time, now);
    assert Outlives(s2, [Ack(2 + c, 0)] + end, now, n - 1) by {
      RetryRound(s, c, time, now);
      OutlivesCons(s2, Ack(2 + c, 0), end, now, n - 1);
    }
    OutlivesCons(s1, Resend, [Ack(2 + c, 0)] + end, now, n);
    assert Possible(s, Scan(now, [1]), 1.0) by {
      RetryScan(s, c, time, now);
    }
    OutlivesCons(s, Scan(now, [1]), [Resend] + ([Ack(2 + c, 0)] + end), time, n);
  }

  /** From any state with p alone pending, there is a run the session outlives. */
  ghost predicate Survivable(p: Pending, next: Seq16, last: real, n: nat) {
    forall s :: Only(s, p, next) ==> exists run :: Outlives(s, run, last, n)
  }

  lemma RetryBack(c: nat, time: real, n: nat)
    requires c < 5 && n >= 1 && Survivable(Retried(c + 1, time + 10.0), 3 + c, time + 10.0, n - 1)
    ensures Survivable(Retried(c, time), 2 + c, time, n)
  {
    var p, next := Retried(c, time), 2 + c;
    forall s | Only(s, p, next)
      ensures exists run :: Outlives(s, run, time, n)
    {
      RetryRound(s, c, time, time + 10.0);
      var end :| Outlives(AfterRetry(s, c, time + 10.0), end, time + 10.0, n - 1);
      RetryOutlives(s, c, time, time + 10.0, end, n);
    }
  }

  lemma AfterFive(p: Pending, n: nat)
    requires n >= 65531
    ensures Survivable(p, 7, 50.0, n)
  {
    assert Wrap(1 - 65530) == 7;
    forall s | Only(s, p, 7)
      ensures exists run :: Outlives(s, run, 50.0, n)
    {
      var run := RoundTheClock(s, p, 65530, n);
    }
  }

  /** After c retries, ten seconds apart, the rest of the five. */
  lemma {:induction false} FiveRetries(c: nat, time: real, n: nat)
    requires c <= 5 && time == 10.0 * c as real && n >= 65536 - c
    ensures Survivable(Retried(c, time), 2 + c, time, n)
    decreases 5 - c
  {
    if c == 5 {
      AfterFive(Retried(c, time), n);
    } else {
      FiveRetries(c + 1, time + 10.0, n - 1);
      RetryBack(c, time, n);
    }
  }

  /** With 65536 further numbers the entry is overwritten, as if the packet were new. */
  lemma ReuseOutlives(n: nat) returns (s: Sender, run: seq<Event>)
    requires n >= 65536
    ensures Unheard(s, 0, 0.0, run, 1.0, 10.0, n) && !DownBy(SendOne(s, 0, 0.0), run, 0.0, 1.0, 66.0)
  {
    s := Sender(true, map[], 1, [], Idle);
    FiveRetries(0, 0.0, n);
    assert Only(SendOne(s, 0, 0.0), Retried(0, 0.0), 2);
    run :| Outlives(SendOne(s, 0, 0.0), run, 0.0, n);
    OutlivesRun(SendOne(s, 0, 0.0), run, 0.0, n);
    forall i | 0 <= i <= |run| && LastUpdate(run[..i], 0.0) <= 66.0
      ensures ApplyAll(SendOne(s, 0, 0.0), run[..i], 1.0).connected
    {
      OutlivesPrefix(SendOne(s, 0, 0.0), run, 0.0, n, i);
    }
  }

  /** A packet nobody acknowledges always brings the session down by the deadline,
      exactly when fewer than 65536 further numbers are used. */
  lemma DeadlineExactly(n: nat)
    ensures (forall s, buffer, t, run, interval, gap :: Unheard(s, buffer, t, run, interval, gap, n) ==>
                DownBy(SendOne(s, buffer, t), run, t, interval, t + 6.0 * (interval + gap))) <==> n <= 65535
  {
    if n <= 65535 {
      forall s, buffer, t, run, interval, gap | Unheard(s, buffer, t, run, interval, gap, n)
        ensures DownBy(SendOne(s, buffer, t), run, t, interval, t + 6.0 * (interval + gap))
      {
        UnansweredDisconnects(s, buffer, t, run, interval, gap, n);
      }
    } else {
      var s, run := ReuseOutlives(n);
    }
  }

  // ---------------------------------------------------------------- session

  class UdpSession {
    var connected: bool
    var pendingAckMap: map<Seq16, Pending>
    const receiveHistory: array<bool>
    var latestSeq: Seq16
    var sendSeq: Seq16
    const resendInterval := 0.1
    ghost var wire: seq<(Buffer, Seq16)>
    ghost var dispatched: seq<Seq16>   // packets passed to a handler

    ghost predicate Valid()
      reads this
    {
      receiveHistory.Length == WINDOW_SIZE
    }

    ghost function Sending(): Sender
      reads this
    {
      Sender(connected, pendingAckMap, sendSeq, wire, Idle)
    }

    /** The sending half inside an Update call with this much left to send again. */
    ghost function Midway(now: real, left: seq<Seq16>): Sender
      reads this
    {
      Sending().(updating := StillResending(now, left))
    }

    ghost function Receiving(): (r: Receiver)
      requires Valid()
      reads this, receiveHistory
      ensures ReceiverWf(r)
    {
      Receiver(receiveHistory[..], latestSeq)
    }

    constructor ()
      ensures Valid() && fresh(receiveHistory)
      ensures Sending() == Sender(true, map[], 1, [], Idle) && Receiving() == FreshReceiver() && dispatched == []
    {
      connected := true;   // ProcessConnect, at creation
      pendingAckMap := map[];
      receiveHistory := new bool[WINDOW_SIZE](_ => false);
      latestSeq := 0;
      sendSeq := 1;
      wire := [];
      dispatched := [];
      new;
      assert receiveHistory[..] == FreshReceiver().history;
    }

    /** The number is what stands in the buffer's header. */
    method Send(buffer: Buffer, ghost number: Seq16)
      requires Valid()
      modifies this`wire
      ensures Valid() && Sending() == SendPlain(old(Sending()), buffer, number)
      ensures wire == if connected then old(wire) + [(buffer, number)] else old(wire)
    {
      if connected {
        wire := wire + [(buffer, number)];
      }
    }

    method SendReliable(buffer: Buffer, timestamp: real)
      requires Valid()
      modifies this
      ensures Valid() && Sending() == SendOne(old(Sending()), buffer, timestamp)
      ensures sendSeq == (old(sendSeq) + 1) % 65536 && connected == old(connected)
      ensures pendingAckMap == old(pendingAckMap)[old(sendSeq) := Pending(buffer, old(sendSeq), timestamp, 0)]
      ensures wire == if connected then old(wire) + [(buffer, old(sendSeq))] else old(wire)
      ensures latestSeq == old(latestSeq) && dispatched == old(dispatched)
    {
      var seq16 := sendSeq;
      sendSeq := Wrap(sendSeq + 1);
      pendingAckMap := pendingAckMap[seq16 := Pending(buffer, seq16, timestamp, 0)];
      Send(buffer, seq16);
    }

    /** One entry of the table: age it if it is due, and disconnect if it is past the limit. */
    method VisitEntry(k: Seq16, serverTime: real) returns (due: bool)
      requires k in pendingAckMap
      modifies this`pendingAckMap, this`connected
      ensures due == IsDue(old(pendingAckMap[k]), serverTime, resendInterval)
      ensures pendingAckMap == old(pendingAckMap)[k := Bump(old(pendingAckMap[k]), serverTime, resendInterval)]
      ensures connected == (old(connected) && pendingAckMap[k].retryCount <= MAX_RETRY)
    {
      var pkt := pendingAckMap[k];
      due := serverTime - pkt.timestamp >= resendInterval;
      if due {
        pkt := pkt.(timestamp := serverTime, retryCount := pkt.retryCount + 1);
        pendingAckMap := pendingAckMap[k := pkt];
      }
      if pkt.retryCount > MAX_RETRY {
        connected := false;
      }
    }

    /** The locked half of Update.  The table is walked in whatever order the hash map
        has; the list is in the order in which the due entries were met. */
    method ScanPending(serverTime: real) returns (resendList: seq<Seq16>)
      requires Valid()
      modifies this`pendingAckMap, this`connected
      ensures Enumerates(resendList, Due(old(pendingAckMap), serverTime, resendInterval))
      ensures Sending() == Scanned(old(Sending()), serverTime, resendList, resendInterval).(updating := Idle)
    {
      resendList := [];
      ghost var up := true;
      var left := pendingAckMap.Keys;
      while left != {}
        invariant HalfScanned(old(pendingAckMap), pendingAckMap, left, resendList, up, serverTime, resendInterval)
        invariant connected == (old(connected) && up)
        decreases left
      {
        var k :| k in left;
        ScanEntry(old(pendingAckMap), pendingAckMap, left, resendList, up, serverTime, resendInterval, k);
        left := left - {k};
        var due := VisitEntry(k, serverTime);
        if due {
          resendList := resendList + [k];
        }
        up := up && pendingAckMap[k].retryCount <= MAX_RETRY;
      }
      ScanEnd(old(Sending()), pendingAckMap, resendList, up, serverTime, resendInterval);
    }

    /** The unlocked half of Update. */
    method ResendListed(resendList: seq<Seq16>, serverTime: real)
      requires Valid()
      modifies this
      ensures Valid() && latestSeq == old(latestSeq) && dispatched == old(dispatched)
      ensures EndAlike(old(Midway(serverTime, resendList)), |resendList|, Sending(), 0, resendInterval)
    {
      var i := 0;
      ghost var n := |resendList|;
      ghost var start := Midway(serverTime, resendList);
      ghost var now := start;
      while i < |resendList|
        invariant 0 <= i <= |resendList| == n && Valid()
        invariant now == Midway(serverTime, resendList[i..])
        invariant EndAlike(start, n, now, n - i, resendInterval)
        invariant latestSeq == old(latestSeq) && dispatched == old(dispatched)
      {
        EndStep(start, n, now, n - i, resendInterval);
        now := ResendNext(now);
        assert resendList[i..][1..] == resendList[i + 1..];
        if resendList[i] in pendingAckMap {
          SendReliable(pendingAckMap[resendList[i]].buffer, serverTime);
        }
        i := i + 1;
      }
    }

    /** One undisturbed call: a scan and its resends. */
    method Update(serverTime: real) returns (ghost order: seq<Seq16>)
      requires Valid()
      modifies this
      ensures Valid() && latestSeq == old(latestSeq) && dispatched == old(dispatched)
      ensures PossibleRun(old(Sending()), UpdateRun(serverTime, order), resendInterval)
      ensures Sending() == ApplyAll(old(Sending()), UpdateRun(serverTime, order), resendInterval)
      ensures FreeNumbers(old(Sending()), |order|) ==>
                Retransmitted(old(Sending()), Sending(), serverTime, order, resendInterval)
    {
      var resendList := ScanPending(serverTime);
      ResendListed(resendList, serverTime);
      order := resendList;
      UpdateIsScanAndResends(old(Sending()), serverTime, order, resendInterval);
      if FreeNumbers(old(Sending()), |order|) {
        UpdateRetransmits(old(Sending()), serverTime, order, resendInterval);
      }
    }

    method HandleAck(latest: Seq16, bitfield: nat)
      requires Valid()
      modifies this
      ensures Valid() && Sending() == old(Sending()).(pending := RemoveAcked(old(pendingAckMap), latest, bitfield))
      ensures latestSeq == old(latestSeq) && dispatched == old(dispatched)
    {
      var i := 0;
      while i <= BITFIELD_SIZE
        invariant 0 <= i <= BITFIELD_SIZE + 1
        invariant pendingAckMap == old(pendingAckMap) - AckedFirst(latest, bitfield, i)
        invariant Sending() == old(Sending()).(pending := pendingAckMap) && latestSeq == old(latestSeq) &&
                  dispatched == old(dispatched)
      {
        var ackSeq := Wrap(latest - i);
        AckedNext(latest, bitfield, i);
        if i == 0 || Bit(bitfield, i - 1) {
          if ackSeq in pendingAckMap {
            pendingAckMap := pendingAckMap - {ackSeq};
          }
        }
        i := i + 1;
      }
    }

    method CheckAndRecordReceiveHistory(s: Seq16) returns (accepted: bool)
      requires Valid()
      modifies this`latestSeq, receiveHistory
      ensures accepted == Accepts(old(Receiving()), s) && Receiving() == Record(old(Receiving()), s)
    {
      if !SeqGreater(s, Wrap(latestSeq - WINDOW_SIZE)) {
        return false;
      }
      if receiveHistory[s % WINDOW_SIZE] {
        return false;
      }
      receiveHistory[s % WINDOW_SIZE] := true;
      latestSeq := if SeqGreater(s, latestSeq) then s else latestSeq;
      return true;
    }

    method GenerateAckBitfield(latest: Seq16) returns (bitfield: nat)
      requires Valid()
      ensures bitfield == AckBits(receiveHistory[..], latest, BITFIELD_SIZE)
    {
      bitfield := 0;
      var i := 1;
      while i <= BITFIELD_SIZE
        invariant 1 <= i <= BITFIELD_SIZE + 1
        invariant bitfield == AckBits(receiveHistory[..], latest, i - 1)
      {
        var s := Wrap(latest - i);
        if SeqGreater(latest, s) && receiveHistory[s % WINDOW_SIZE] {
          bitfield := SetBit(bitfield, i - 1);
        }
        i := i + 1;
      }
    }

    /** HandlePacket for a UDP header: record, acknowledge what was accepted while the
        session is connected, and pass every packet, accepted or not, to its handler. */
    method HandlePacket(s: Seq16) returns (ack: seq<(Seq16, nat)>)
      requires Valid()
      modifies this, receiveHistory
      ensures Valid() && Sending() == old(Sending()) && dispatched == old(dispatched) + [s]
      ensures Receiving() == if s > 0 then Record(old(Receiving()), s) else old(Receiving())
      ensures ack == if connected && s > 0 && Accepts(old(Receiving()), s)
                     then [(s, AckBits(Receiving().history, s, BITFIELD_SIZE))] else []
    {
      ack := [];
      if s > 0 {
        var isNew := CheckAndRecordReceiveHistory(s);
        if isNew {
          var bits := GenerateAckBitfield(s);
          if connected {   // Send
            ack := [(s, bits)];
          }
        }
      }
      dispatched := dispatched + [s];
    }
  }
}
