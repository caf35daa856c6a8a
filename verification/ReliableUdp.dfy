/** Reliable UDP: 16-bit wrapping sequence numbers, a 1024-slot receive history, a
    32-bit selective acknowledgement field, pending packets with retries. */
module ReliableUdp {

  const WINDOW_SIZE := 1024
  const BITFIELD_SIZE := 32
  const MAX_RETRY := 5

  type Seq16 = x: int | 0 <= x < 65536

  /** Conversion of an int to uint16. */
  function Wrap(x: int): Seq16 { x % 65536 }

  /** static_cast<int16>(a - b) > 0 */
  predicate SeqGreater(a: Seq16, b: Seq16) { 0 < Wrap(a - b) < 32768 }

  /** Stepping back n from s lands at distance n from s. */
  lemma WrapDistance(s: Seq16, n: nat)
    requires n < 65536
    ensures Wrap(s - Wrap(s - n)) == n
  {
    if s >= n {
      assert Wrap(s - n) == s - n;
    } else {
      assert Wrap(s - n) == s - n + 65536;
    }
  }

  lemma WrapBack(s: Seq16, q: Seq16)
    ensures Wrap(s - Wrap(s - q)) == q
  {
    if s >= q {
      assert Wrap(s - q) == s - q;
    } else {
      assert Wrap(s - q) == s - q + 65536;
    }
  }

  // ------------------------------------------------------------- bit fields

  /** (bits >> k) & 1 */
  predicate Bit(bits: nat, k: nat) {
    if k == 0 then bits % 2 == 1 else Bit(bits / 2, k - 1)
  }

  /** bits | (1 << k) */
  function SetBit(bits: nat, k: nat): nat {
    if k == 0 then (if bits % 2 == 1 then bits else bits + 1)
    else 2 * SetBit(bits / 2, k - 1) + bits % 2
  }

  lemma SetBitHalves(bits: nat, k: nat)
    ensures SetBit(bits, k) % 2 == if k == 0 then 1 else bits % 2
    ensures SetBit(bits, k) / 2 == if k == 0 then bits / 2 else SetBit(bits / 2, k - 1)
  {
  }

  lemma {:induction false} SetBitBit(bits: nat, k: nat, j: nat)
    ensures Bit(SetBit(bits, k), j) <==> j == k || Bit(bits, j)
  {
    SetBitHalves(bits, k);
    if k > 0 && j > 0 {
      SetBitBit(bits / 2, k - 1, j - 1);
    }
  }

  lemma {:induction false} ZeroBit(k: nat)
    ensures !Bit(0, k)
  {
    if k > 0 {
      ZeroBit(k - 1);
    }
  }

  function Pow2(n: nat): (p: nat)
    ensures p > 0
  {
    if n == 0 then 1 else 2 * Pow2(n - 1)
  }

  lemma Halved(x: nat, h: nat)
    ensures x < 2 * h <==> x / 2 < h
  {
  }

  /** Setting a bit below n keeps an n-bit word an n-bit word. */
  lemma {:induction false} SetBitFits(bits: nat, k: nat, n: nat)
    requires k < n && bits < Pow2(n)
    ensures SetBit(bits, k) < Pow2(n)
  {
    Halved(bits, Pow2(n - 1));
    Halved(SetBit(bits, k), Pow2(n - 1));
    SetBitHalves(bits, k);
    if k > 0 {
      SetBitFits(bits / 2, k - 1, n - 1);
    }
  }

  lemma MultipleUp(e: int, d: int)
    requires e >= 1 && d >= 0
    ensures e * d >= d
  {
    assert (e - 1) * d >= 0;
    assert (e - 1) * d == e * d - d;
  }

  lemma MultipleDown(e: int, d: int)
    requires e <= -1 && d >= 0
    ensures e * d <= -d
  {
    MultipleUp(-e, d);
    assert (-e) * d == -(e * d);
  }

  lemma SmallMultiple(e: int, d: int)
    requires d > 0 && -d < e * d < d
    ensures e == 0
  {
    if e >= 1 {
      MultipleUp(e, d);
    } else if e <= -1 {
      MultipleDown(e, d);
    }
  }

  lemma QuotientIs(x: nat, d: nat, q: nat)
    requires d > 0 && 0 <= x - q * d < d
    ensures x / d == q
  {
    var c, m: int := x / d, x % d;
    assert x == c * d + m && 0 <= m < d;
    assert (c - q) * d == c * d - q * d;
    SmallMultiple(c - q, d);
  }

  lemma HalfPower(bits: nat, k: nat)
    requires k > 0
    ensures bits / Pow2(k) == bits / 2 / Pow2(k - 1)
  {
    var p := Pow2(k - 1);
    var q := bits / 2 / p;
    assert bits / 2 == q * p + bits / 2 % p;
    assert q * Pow2(k) == 2 * (q * p);
    assert 0 <= bits - q * Pow2(k) < Pow2(k);
    QuotientIs(bits, Pow2(k), q);
  }

  /** The shifts and masks they stand for. */
  lemma {:induction false} BitMeans(bits: nat, k: nat)
    ensures Bit(bits, k) <==> bits / Pow2(k) % 2 == 1
    ensures SetBit(bits, k) == if Bit(bits, k) then bits else bits + Pow2(k)
  {
    if k > 0 {
      HalfPower(bits, k);
      BitMeans(bits / 2, k - 1);
    }
  }

  // --------------------------------------------------------- receiving side

  datatype Receiver = Receiver(history: seq<bool>, latest: Seq16)

  predicate ReceiverWf(r: Receiver) { |r.history| == WINDOW_SIZE }

  function FreshReceiver(): (r: Receiver)
    ensures ReceiverWf(r) && r.latest == 0 && forall k :: 0 <= k < WINDOW_SIZE ==> !r.history[k]
  {
    Receiver(seq(WINDOW_SIZE, i => false), 0)
  }

  predicate Accepts(r: Receiver, s: Seq16)
    requires ReceiverWf(r)
  {
    SeqGreater(s, Wrap(r.latest - WINDOW_SIZE)) && !r.history[s % WINDOW_SIZE]
  }

  function Record(r: Receiver, s: Seq16): (r': Receiver)
    requires ReceiverWf(r)
    ensures ReceiverWf(r')
  {
    if Accepts(r, s)
    then Receiver(r.history[s % WINDOW_SIZE := true], if SeqGreater(s, r.latest) then s else r.latest)
    else r
  }

  /** The acknowledgement field for s: bit i - 1 stands for s - i, 1 <= i <= n. */
  function AckBits(history: seq<bool>, s: Seq16, n: nat): nat
    requires |history| == WINDOW_SIZE && n <= BITFIELD_SIZE
  {
    if n == 0 then 0
    else
      var bits := AckBits(history, s, n - 1);
      if SeqGreater(s, Wrap(s - n)) && history[Wrap(s - n) % WINDOW_SIZE] then SetBit(bits, n - 1) else bits
  }

  lemma {:induction false} AckBitsBit(history: seq<bool>, s: Seq16, n: nat, k: nat)
    requires |history| == WINDOW_SIZE && n <= BITFIELD_SIZE
    ensures Bit(AckBits(history, s, n), k) <==> k < n && history[Wrap(s - k - 1) % WINDOW_SIZE]
  {
    if n == 0 {
      ZeroBit(k);
    } else {
      var bits := AckBits(history, s, n - 1);
      AckBitsBit(history, s, n - 1, k);
      WrapDistance(s, n);
      assert SeqGreater(s, Wrap(s - n));
      if history[Wrap(s - n) % WINDOW_SIZE] {
        SetBitBit(bits, n - 1, k);
      }
    }
  }

  /** The field fits its 32-bit word. */
  lemma {:induction false} AckBitsFit(history: seq<bool>, s: Seq16, n: nat)
    requires |history| == WINDOW_SIZE && n <= BITFIELD_SIZE
    ensures AckBits(history, s, n) < Pow2(n)
  {
    if n > 0 {
      AckBitsFit(history, s, n - 1);
      SetBitFits(AckBits(history, s, n - 1), n - 1, n);
    }
  }

  /** i == 0 || (bitfield & (1 << (i - 1))) */
  predicate Covers(bits: nat, i: nat) { i == 0 || Bit(bits, i - 1) }

  /** The numbers the first n looks at the field stand for. */
  function AckedFirst(s: Seq16, bits: nat, n: nat): set<Seq16> {
    set i: nat | i < n && Covers(bits, i) :: Wrap(s - i)
  }

  lemma AckedNext(s: Seq16, bits: nat, n: nat)
    ensures AckedFirst(s, bits, n + 1) == AckedFirst(s, bits, n) + if Covers(bits, n) then {Wrap(s - n)} else {}
  {
  }

  /** The sequence numbers an acknowledgement stands for. */
  function AckSet(s: Seq16, bits: nat): set<Seq16> {
    AckedFirst(s, bits, BITFIELD_SIZE + 1)
  }

  /** Encoding the history and decoding the acknowledgement gives s and exactly those
      of the 32 numbers before it whose slot is set. */
  lemma AckRoundTrip(history: seq<bool>, s: Seq16, q: Seq16)
    requires |history| == WINDOW_SIZE
    ensures q in AckSet(s, AckBits(history, s, BITFIELD_SIZE)) <==>
              q == s || (1 <= Wrap(s - q) <= BITFIELD_SIZE && history[q % WINDOW_SIZE])
  {
    var bits := AckBits(history, s, BITFIELD_SIZE);
    var d := Wrap(s - q);
    WrapDistance(s, d);
    assert Wrap(s - d) == q by { WrapBack(s, q); }
    assert d <= BITFIELD_SIZE && Covers(bits, d) ==> q in AckSet(s, bits);
    if d > 0 {
      AckBitsBit(history, s, BITFIELD_SIZE, d - 1);
    }
    if q in AckSet(s, bits) {
      var i: nat :| i <= BITFIELD_SIZE && Covers(bits, i) && q == Wrap(s - i);
      WrapDistance(s, i);
    }
  }

  /** All arrivals, in the order they come; a packet with sequence 0 is not reliable. */
  function RecordAll(r: Receiver, arrivals: seq<Seq16>): (r': Receiver)
    requires ReceiverWf(r)
    ensures ReceiverWf(r')
    decreases |arrivals|
  {
    if arrivals == [] then r
    else RecordAll(if arrivals[0] > 0 then Record(r, arrivals[0]) else r, arrivals[1..])
  }

  function Accepted(r: Receiver, arrivals: seq<Seq16>): seq<Seq16>
    requires ReceiverWf(r)
    decreases |arrivals|
  {
    if arrivals == [] then []
    else if arrivals[0] > 0 && Accepts(r, arrivals[0])
    then [arrivals[0]] + Accepted(Record(r, arrivals[0]), arrivals[1..])
    else Accepted(r, arrivals[1..])
  }

  function SetSlots(history: seq<bool>): nat {
    if history == [] then 0 else (if history[0] then 1 else 0) + SetSlots(history[1..])
  }

  lemma {:induction false} SetSlotsUpdate(history: seq<bool>, k: nat)
    requires k < |history| && !history[k]
    ensures SetSlots(history[k := true]) == SetSlots(history) + 1
  {
    if k == 0 {
      assert history[k := true][1..] == history[1..];
    } else {
      assert history[k := true][1..] == history[1..][k - 1 := true];
      SetSlotsUpdate(history[1..], k - 1);
    }
  }

  lemma {:induction false} SetSlotsBound(history: seq<bool>)
    ensures SetSlots(history) <= |history|
    ensures (forall k :: 0 <= k < |history| ==> !history[k]) ==> SetSlots(history) == 0
    ensures SetSlots(history) == |history| ==> forall k :: 0 <= k < |history| ==> history[k]
  {
    if history != [] {
      SetSlotsBound(history[1..]);
      assert forall k :: 1 <= k < |history| ==> history[k] == history[1..][k - 1];
    }
  }

  /** The slots of the listed numbers are free in r, and all different. */
  ghost predicate FreshSlots(r: Receiver, acc: seq<Seq16>)
    requires ReceiverWf(r)
  {
    && (forall i :: 0 <= i < |acc| ==> !r.history[acc[i] % WINDOW_SIZE])
    && (forall i, j :: 0 <= i < j < |acc| ==> acc[i] % WINDOW_SIZE != acc[j] % WINDOW_SIZE)
  }

  lemma FreshSlotsCons(r: Receiver, s: Seq16, acc: seq<Seq16>)
    requires ReceiverWf(r) && Accepts(r, s) && FreshSlots(Record(r, s), acc)
    ensures FreshSlots(r, [s] + acc)
  {
    forall i | 0 <= i < |acc|
      ensures !r.history[acc[i] % WINDOW_SIZE] && acc[i] % WINDOW_SIZE != s % WINDOW_SIZE
    {
      assert !Record(r, s).history[acc[i] % WINDOW_SIZE];
    }
  }

  /** At most once, over any arrivals and any number of wraps: the slot of an accepted
      number was free and stays taken, so accepted numbers differ modulo 1024. */
  lemma {:induction false} AtMostOnce(r: Receiver, arrivals: seq<Seq16>)
    requires ReceiverWf(r)
    ensures FreshSlots(r, Accepted(r, arrivals))
    ensures SetSlots(RecordAll(r, arrivals).history) == SetSlots(r.history) + |Accepted(r, arrivals)|
    decreases |arrivals|
  {
    if arrivals != [] {
      var s := arrivals[0];
      if s > 0 && Accepts(r, s) {
        SetSlotsUpdate(r.history, s % WINDOW_SIZE);
        AtMostOnce(Record(r, s), arrivals[1..]);
        FreshSlotsCons(r, s, Accepted(Record(r, s), arrivals[1..]));
      } else {
        AtMostOnce(r, arrivals[1..]);
      }
    }
  }

  /** Slots are never cleared, so a session accepts at most 1024 numbers in its whole
      life; once it has, it accepts nothing any more. */
  lemma LifetimeLimit(arrivals: seq<Seq16>, s: Seq16)
    ensures |Accepted(FreshReceiver(), arrivals)| <= WINDOW_SIZE
    ensures |Accepted(FreshReceiver(), arrivals)| == WINDOW_SIZE ==> !Accepts(RecordAll(FreshReceiver(), arrivals), s)
  {
    AtMostOnce(FreshReceiver(), arrivals);
    SetSlotsBound(FreshReceiver().history);
    SetSlotsBound(RecordAll(FreshReceiver(), arrivals).history);
  }

  // ------------------------------------------- the window, without wrapping

  /** Numbers as they were issued, before they wrapped; 0 stands for the start. */
  function Wraps(xs: seq<int>): (ws: seq<Seq16>)
    ensures |ws| == |xs| && forall i :: 0 <= i < |xs| ==> ws[i] == Wrap(xs[i])
  {
    seq(|xs|, i requires 0 <= i < |xs| => Wrap(xs[i]))
  }

  /** The greatest number accepted, or the 0 the session starts from. */
  function Top(accepted: seq<int>): (t: int)
    ensures t >= 0 && (t == 0 || t in accepted) && forall x :: x in accepted ==> x <= t
  {
    if accepted == [] then 0
    else
      var t := Top(accepted[..|accepted| - 1]);
      var x := accepted[|accepted| - 1];
      assert accepted == accepted[..|accepted| - 1] + [x];
      if x > t then x else t
  }

  predicate SlotTaken(accepted: seq<int>, x: int) {
    exists a :: a in accepted && a % WINDOW_SIZE == x % WINDOW_SIZE
  }

  /** A window of 1024 numbers below the greatest one, open above, each slot usable once. */
  predicate InWindow(accepted: seq<int>, x: int) {
    x != 0 && x > Top(accepted) - WINDOW_SIZE && !SlotTaken(accepted, x)
  }

  /** The numbers such a window accepts, in order, behind those it has accepted before. */
  function Windowed(accepted: seq<int>, xs: seq<int>): seq<int>
    decreases |xs|
  {
    if xs == [] then accepted
    else Windowed(if InWindow(accepted, xs[0]) then accepted + [xs[0]] else accepted, xs[1..])
  }

  /** All of xs, and 0, lie among n consecutive integers that start at lo. */
  predicate Within(xs: seq<int>, lo: int, n: nat) {
    lo <= 0 < lo + n && forall i :: 0 <= i < |xs| ==> lo <= xs[i] < lo + n
  }

  /** r is what a session keeps of the numbers accepted. */
  ghost predicate Tracks(r: Receiver, accepted: seq<int>) {
    && ReceiverWf(r) && r.latest == Wrap(Top(accepted))
    && forall k :: 0 <= k < WINDOW_SIZE ==> (r.history[k] <==> SlotTaken(accepted, k))
  }

  lemma WrapShift(x: int, k: int)
    ensures Wrap(x + 65536 * k) == Wrap(x)
  {
  }

  /** Two wraps tell which number is greater while the numbers are less than 32768 apart. */
  lemma GreaterUnwrapped(a: int, b: int)
    requires -32768 < a - b < 32768
    ensures SeqGreater(Wrap(a), Wrap(b)) <==> a > b
  {
    WrapShift(Wrap(a) - Wrap(b), a / 65536 - b / 65536);
    assert a == Wrap(a) + 65536 * (a / 65536) && b == Wrap(b) + 65536 * (b / 65536);
    assert Wrap(Wrap(a) - Wrap(b)) == Wrap(a - b);
  }

  lemma SlotShift(x: nat, k: int)
    ensures (x + WINDOW_SIZE * k) % WINDOW_SIZE == x % WINDOW_SIZE
  {
  }

  lemma WrapSlot(x: int)
    ensures Wrap(x) % WINDOW_SIZE == x % WINDOW_SIZE
  {
    assert x == Wrap(x) + WINDOW_SIZE * (64 * (x / 65536));
    SlotShift(Wrap(x), 64 * (x / 65536));
  }

  lemma SlotTakenMore(accepted: seq<int>, x: int, k: int)
    ensures SlotTaken(accepted + [x], k) <==> SlotTaken(accepted, k) || x % WINDOW_SIZE == k % WINDOW_SIZE
  {
    if x % WINDOW_SIZE == k % WINDOW_SIZE {
      assert x in accepted + [x];
    }
    if a :| a in accepted && a % WINDOW_SIZE == k % WINDOW_SIZE {
      assert a in accepted + [x];
    }
  }

  lemma TopMore(accepted: seq<int>, x: int)
    ensures Top(accepted + [x]) == if x > Top(accepted) then x else Top(accepted)
  {
    assert (accepted + [x])[..|accepted|] == accepted;
  }

  /** A number that is not 0, and close to it and to the greatest one accepted. */
  predicate Near(accepted: seq<int>, x: int) {
    x != 0 && -31744 < x < 31744 && -31744 < x - Top(accepted) < 31744
  }

  lemma WithinNear(accepted: seq<int>, x: int, lo: int)
    requires Within(accepted, lo, 31744) && Within([x], lo, 31744) && x != 0
    ensures Near(accepted, x) && Within(accepted + [x], lo, 31744)
  {
    assert [x][0] == x;
  }

  lemma GuardUnwrapped(top: int, x: int)
    requires -31744 < x - top < 31744
    ensures SeqGreater(Wrap(x), Wrap(Wrap(top) - WINDOW_SIZE)) <==> x > top - WINDOW_SIZE
  {
    GreaterUnwrapped(x, top - WINDOW_SIZE);
    WrapShift(Wrap(top) - WINDOW_SIZE, top / 65536);
    assert top == Wrap(top) + 65536 * (top / 65536);
    assert Wrap(Wrap(top) - WINDOW_SIZE) == Wrap(top - WINDOW_SIZE);
  }

  /** The guard and the slot test, on the wrapped number. */
  lemma AcceptsUnwrapped(r: Receiver, accepted: seq<int>, x: int)
    requires Tracks(r, accepted) && Near(accepted, x)
    ensures Wrap(x) != 0 && (Accepts(r, Wrap(x)) <==> InWindow(accepted, x))
  {
    GuardUnwrapped(Top(accepted), x);
    WrapSlot(x);
    assert SlotTaken(accepted, x % WINDOW_SIZE) <==> SlotTaken(accepted, x);
  }

  lemma SlotsTrack(history: seq<bool>, accepted: seq<int>, x: int, slot: nat)
    requires |history| == WINDOW_SIZE && slot == x % WINDOW_SIZE
    requires forall k :: 0 <= k < WINDOW_SIZE ==> (history[k] <==> SlotTaken(accepted, k))
    ensures forall k :: 0 <= k < WINDOW_SIZE ==> (history[slot := true][k] <==> SlotTaken(accepted + [x], k))
  {
    forall k | 0 <= k < WINDOW_SIZE
      ensures history[slot := true][k] <==> SlotTaken(accepted + [x], k)
    {
      SlotTakenMore(accepted, x, k);
    }
  }

  lemma RecordTracks(r: Receiver, accepted: seq<int>, x: int)
    requires Tracks(r, accepted) && Near(accepted, x) && InWindow(accepted, x)
    ensures Tracks(Record(r, Wrap(x)), accepted + [x])
  {
    AcceptsUnwrapped(r, accepted, x);
    GreaterUnwrapped(x, Top(accepted));
    TopMore(accepted, x);
    WrapSlot(x);
    SlotsTrack(r.history, accepted, x, Wrap(x) % WINDOW_SIZE);
  }

  /** What the session accepts, and where it stands after these arrivals. */
  ghost predicate Follows(r: Receiver, accepted: seq<int>, xs: seq<int>) {
    && ReceiverWf(r)
    && Wraps(accepted) + Accepted(r, Wraps(xs)) == Wraps(Windowed(accepted, xs))
    && Tracks(RecordAll(r, Wraps(xs)), Windowed(accepted, xs))
  }

  lemma WrapsCons(x: int, rest: seq<int>)
    ensures Wraps([x] + rest) == [Wrap(x)] + Wraps(rest)
  {
    var all := [x] + rest;
    assert all[0] == x && forall i :: 1 <= i < |all| ==> all[i] == rest[i - 1];
  }

  lemma WrapsMore(accepted: seq<int>, x: int)
    ensures Wraps(accepted + [x]) == Wraps(accepted) + [Wrap(x)]
  {
    var all := accepted + [x];
    assert all[|accepted|] == x && forall i :: 0 <= i < |accepted| ==> all[i] == accepted[i];
  }

  lemma Regroup(a: seq<Seq16>, b: seq<Seq16>, c: seq<Seq16>)
    ensures a + b + c == a + (b + c)
  {
  }

  lemma FollowsAccepted(r: Receiver, accepted: seq<int>, x: int, rest: seq<int>)
    requires Tracks(r, accepted) && Near(accepted, x) && InWindow(accepted, x)
    ensures Follows(Record(r, Wrap(x)), accepted + [x], rest) ==> Follows(r, accepted, [x] + rest)
  {
    AcceptsUnwrapped(r, accepted, x);
    WrapsCons(x, rest);
    WrapsMore(accepted, x);
    assert ([x] + rest)[1..] == rest && ([Wrap(x)] + Wraps(rest))[1..] == Wraps(rest);
    Regroup(Wraps(accepted), [Wrap(x)], Accepted(Record(r, Wrap(x)), Wraps(rest)));
  }

  lemma FollowsRejected(r: Receiver, accepted: seq<int>, x: int, rest: seq<int>)
    requires Tracks(r, accepted) && (x == 0 || (Near(accepted, x) && !InWindow(accepted, x)))
    ensures Follows(r, accepted, rest) ==> Follows(r, accepted, [x] + rest)
  {
    WrapsCons(x, rest);
    assert ([x] + rest)[1..] == rest && ([Wrap(x)] + Wraps(rest))[1..] == Wraps(rest);
    if x != 0 {
      AcceptsUnwrapped(r, accepted, x);
    }
  }

  lemma {:induction false} WindowFrom(r: Receiver, accepted: seq<int>, xs: seq<int>, lo: int)
    requires Tracks(r, accepted) && Within(accepted, lo, 31744) && Within(xs, lo, 31744)
    ensures Follows(r, accepted, xs)
    decreases |xs|
  {
    if xs == [] {
      assert Wraps(accepted) + [] == Wraps(accepted);
    } else {
      var x, rest := xs[0], xs[1..];
      assert xs == [x] + rest && Within(rest, lo, 31744) && Within([x], lo, 31744);
      if x != 0 {
        WithinNear(accepted, x, lo);
      }
      if InWindow(accepted, x) {
        RecordTracks(r, accepted, x);
        WindowFrom(Record(r, Wrap(x)), accepted + [x], rest, lo);
        FollowsAccepted(r, accepted, x, rest);
      } else {
        WindowFrom(r, accepted, rest, lo);
        FollowsRejected(r, accepted, x, rest);
      }
    }
  }

  /** A number 31744 ahead is taken for an old one. */
  lemma TooFarAhead()
    ensures !Follows(FreshReceiver(), [], [31744])
  {
    assert InWindow([], 31744);
    assert Windowed([], [31744]) == [31744];
    assert Wraps([31744]) == [31744];
    assert !Accepts(FreshReceiver(), 31744);
    assert Accepted(FreshReceiver(), [31744]) == [];
  }

  /** The 16-bit comparison and the 1024 bits implement the window exactly for arrivals
      that lie, together with 0, within 31744 consecutive numbers: half the number space
      less the window. */
  lemma WindowExactly(n: nat)
    ensures (forall xs, lo :: Within(xs, lo, n) ==> Follows(FreshReceiver(), [], xs)) <==> n <= 31744
  {
    if n <= 31744 {
      forall xs, lo | Within(xs, lo, n)
        ensures Follows(FreshReceiver(), [], xs)
      {
        assert Within(xs, lo, 31744) && Within([], lo, 31744);
        WindowFrom(FreshReceiver(), [], xs, lo);
      }
    } else {
      TooFarAhead();
      assert Within([31744], 0, n);
    }
  }
}
