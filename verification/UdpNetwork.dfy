/** Two UdpSessions over a network that may lose, duplicate and reorder: everything
    ever put on the wire stays deliverable, any number of times and in any order. */
module UdpNetwork {
  import opened ReliableUdp
  import opened UdpSessions

  /** `issued` counts sequence numbers used so far, beginning with `start`; `accepted`
      and `erased` are the numbers the receiver accepted and HandleAck removed. */
  datatype Net = Net(
    start: Seq16, issued: nat, interval: real,
    sender: Sender, receiver: Receiver, acks: set<(Seq16, nat)>,
    accepted: set<Seq16>, erased: set<Seq16>)

  datatype Step =
    | Sending(e: Event)
    | DeliverData(q: Seq16)
    | DeliverAck(ack: (Seq16, nat))

  ghost predicate OnWire(s: Sender, q: Seq16) {
    exists p :: p in s.wire && p.1 == q
  }

  ghost predicate Init(n: Net) {
    && n.issued == 0 && n.sender == Sender(true, map[], n.start, [], Idle)
    && n.receiver == FreshReceiver() && n.acks == {} && n.accepted == {} && n.erased == {}
  }

  /** At most `limit` sequence numbers are ever used.  An unreliable packet carries number
      0 if its place in the chunk was never used before; if `stale`, it may carry any. */
  ghost predicate Enabled(n: Net, step: Step, limit: nat, stale: bool) {
    && ReceiverWf(n.receiver)
    && match step
       case Sending(e) =>
         && !e.Ack? && Possible(n.sender, e, n.interval) && n.issued + Uses(n.sender, e) <= limit
         && (e.Unreliable? ==> stale || e.number == 0)
       case DeliverData(q) => OnWire(n.sender, q)
       case DeliverAck(ack) => ack in n.acks
  }

  ghost function Next(n: Net, step: Step, limit: nat, stale: bool): Net
    requires Enabled(n, step, limit, stale)
  {
    match step
    case Sending(e) => n.(sender := Apply(n.sender, e, n.interval), issued := n.issued + Uses(n.sender, e))
    case DeliverData(q) =>
      if q > 0 && Accepts(n.receiver, q) then
        var r := Record(n.receiver, q);
        n.(receiver := r, accepted := n.accepted + {q}, acks := n.acks + {(q, AckBits(r.history, q, BITFIELD_SIZE))})
      else n
    case DeliverAck(ack) =>
      n.(sender := Apply(n.sender, Ack(ack.0, ack.1), n.interval),
         erased := n.erased + (n.sender.pending.Keys * AckSet(ack.0, ack.1)))
  }

  ghost predicate Steps(n: Net, n': Net, limit: nat, stale: bool) {
    exists step :: Enabled(n, step, limit, stale) && n' == Next(n, step, limit, stale)
  }

  ghost predicate Behaviour(run: seq<Net>, limit: nat, stale: bool) {
    && run != [] && Init(run[0])
    && forall i :: 0 <= i < |run| - 1 ==> Steps(run[i], run[i + 1], limit, stale)
  }

  predicate Issued(start: Seq16, issued: nat, q: Seq16) { Wrap(q - start) < issued }

  /** The sender's table and wire hold numbers it has issued, but for unreliable packets
      with number 0. */
  ghost predicate SenderInv(s: Sender, start: Seq16, issued: nat) {
    && s.next == Wrap(start + issued)
    && (forall q :: q in s.pending ==> Issued(start, issued, q))
    && (forall p :: p in s.wire ==> p.1 == 0 || Issued(start, issued, p.1))
  }

  ghost predicate Inv(n: Net) {
    && n.issued <= WINDOW_SIZE && ReceiverWf(n.receiver)
    && SenderInv(n.sender, n.start, n.issued)
    && (forall q :: q in n.accepted ==> Issued(n.start, n.issued, q))
    && (forall k :: 0 <= k < WINDOW_SIZE && n.receiver.history[k] ==>
              exists b :: b in n.accepted && b % WINDOW_SIZE == k)
    && (forall ack, q :: ack in n.acks && q in AckSet(ack.0, ack.1) ==> n.receiver.history[q % WINDOW_SIZE])
    && n.erased <= n.accepted
  }

  lemma IssueOne(start: Seq16, issued: nat, q: Seq16)
    requires issued < 65536
    ensures Issued(start, issued + 1, q) <==> Issued(start, issued, q) || q == Wrap(start + issued)
    ensures Wrap(Wrap(start + issued) + 1) == Wrap(start + (issued + 1))
  {
  }

  lemma SendInv(s: Sender, start: Seq16, issued: nat, buffer: Buffer, time: real)
    requires SenderInv(s, start, issued) && issued < 65536
    ensures SenderInv(SendOne(s, buffer, time), start, issued + 1)
  {
    var s' := SendOne(s, buffer, time);
    IssueOne(start, issued, s.next);
    forall q | q in s'.pending
      ensures Issued(start, issued + 1, q)
    {
      IssueOne(start, issued, q);
    }
    forall p | p in s'.wire
      ensures p.1 == 0 || Issued(start, issued + 1, p.1)
    {
      IssueOne(start, issued, p.1);
    }
  }

  lemma EventInv(s: Sender, e: Event, start: Seq16, issued: nat, interval: real)
    requires SenderInv(s, start, issued) && Possible(s, e, interval) && issued + Uses(s, e) <= 65536
    requires e.Unreliable? ==> e.number == 0
    ensures SenderInv(Apply(s, e, interval), start, issued + Uses(s, e))
  {
    match e
    case Send(buffer, time) => SendInv(s, start, issued, buffer, time);
    case Resend =>
      var q := s.updating.left[0];
      if q in s.pending {
        SendInv(s, start, issued, s.pending[q].buffer, s.updating.now);
      }
    case _ =>
  }

  /** 1024 divides 65536, so among 1024 consecutive numbers, even across the wrap,
      no two share a slot. */
  lemma SameSlot(start: Seq16, a: Seq16, b: Seq16)
    requires Wrap(a - start) < WINDOW_SIZE && Wrap(b - start) < WINDOW_SIZE && a % WINDOW_SIZE == b % WINDOW_SIZE
    ensures a == b
  {
    var da: int, db: int := Wrap(a - start), Wrap(b - start);
    assert a - start == da || a - start == da - 65536;
    assert b - start == db || b - start == db - 65536;
    var ka: int, kb: int := a / WINDOW_SIZE, b / WINDOW_SIZE;
    assert a - b == WINDOW_SIZE * (ka - kb);
    assert da - db == a - b || da - db == a - b + 65536 || da - db == a - b - 65536;
    var k: int := if da - db == a - b then ka - kb else if da - db == a - b + 65536 then ka - kb + 64 else ka - kb - 64;
    assert da - db == WINDOW_SIZE * k;
  }

  lemma DataInv(n: Net, q: Seq16, limit: nat)
    requires Inv(n) && Enabled(n, DeliverData(q), limit, false)
    ensures Inv(Next(n, DeliverData(q), limit, false))
  {
    var n' := Next(n, DeliverData(q), limit, false);
    if q > 0 && Accepts(n.receiver, q) {
      forall k | 0 <= k < WINDOW_SIZE && n'.receiver.history[k]
        ensures exists b :: b in n'.accepted && b % WINDOW_SIZE == k
      {
        if k == q % WINDOW_SIZE {
          assert q in n'.accepted;
        } else {
          var b :| b in n.accepted && b % WINDOW_SIZE == k;
          assert b in n'.accepted;
        }
      }
      forall ack, r | ack in n'.acks && r in AckSet(ack.0, ack.1)
        ensures n'.receiver.history[r % WINDOW_SIZE]
      {
        if ack !in n.acks {
          AckRoundTrip(n'.receiver.history, q, r);
        }
      }
    }
  }

  lemma AckInv(n: Net, ack: (Seq16, nat), limit: nat)
    requires Inv(n) && Enabled(n, DeliverAck(ack), limit, false)
    ensures Inv(Next(n, DeliverAck(ack), limit, false))
  {
    forall q | q in n.sender.pending && q in AckSet(ack.0, ack.1)
      ensures q in n.accepted
    {
      assert n.receiver.history[q % WINDOW_SIZE];
      var b :| b in n.accepted && b % WINDOW_SIZE == q % WINDOW_SIZE;
      SameSlot(n.start, q, b);
    }
  }

  lemma StepInv(n: Net, step: Step, limit: nat)
    requires Inv(n) && Enabled(n, step, limit, false) && limit <= WINDOW_SIZE
    ensures Inv(Next(n, step, limit, false))
  {
    match step
    case Sending(e) => EventInv(n.sender, e, n.start, n.issued, n.interval);
    case DeliverData(q) => DataInv(n, q, limit);
    case DeliverAck(ack) => AckInv(n, ack, limit);
  }

  lemma NextInv(n: Net, n': Net, limit: nat)
    requires Inv(n) && Steps(n, n', limit, false) && limit <= WINDOW_SIZE
    ensures Inv(n')
  {
    var step :| Enabled(n, step, limit, false) && n' == Next(n, step, limit, false);
    StepInv(n, step, limit);
  }

  lemma {:induction false} BehaviourInv(run: seq<Net>, limit: nat, i: nat)
    requires Behaviour(run, limit, false) && i < |run| && limit <= WINDOW_SIZE
    ensures Inv(run[i])
  {
    if i > 0 {
      BehaviourInv(run, limit, i - 1);
      assert Steps(run[i - 1], run[i], limit, false);
      NextInv(run[i - 1], run[i], limit);
    }
  }

  // ------------------------------------------------------------ conservation

  /** Every number used so far is pending or has been acknowledged, and not both. */
  ghost predicate Accounted(n: Net) {
    && n.issued <= 65536 && n.sender.next == Wrap(n.start + n.issued)
    && (forall q :: q in n.sender.pending ==> Issued(n.start, n.issued, q) && q !in n.erased)
    && (forall q :: q in n.erased ==> Issued(n.start, n.issued, q))
    && (forall q :: Issued(n.start, n.issued, q) ==> q in n.sender.pending || q in n.erased)
  }

  lemma SendAccounted(n: Net, buffer: Buffer, time: real, s: Sender)
    requires Accounted(n) && n.issued < 65536
    requires s.pending == n.sender.pending && s.next == n.sender.next
    ensures Accounted(n.(sender := SendOne(s, buffer, time), issued := n.issued + 1))
  {
    forall q
      ensures Issued(n.start, n.issued + 1, q) <==> Issued(n.start, n.issued, q) || q == n.sender.next
    {
      IssueOne(n.start, n.issued, q);
    }
    IssueOne(n.start, n.issued, 0);
    assert !Issued(n.start, n.issued, n.sender.next);
  }

  lemma EventAccounted(n: Net, e: Event, limit: nat, stale: bool)
    requires Accounted(n) && Enabled(n, Sending(e), limit, stale) && limit <= 65536
    ensures Accounted(Next(n, Sending(e), limit, stale))
  {
    match e
    case Send(buffer, time) => SendAccounted(n, buffer, time, n.sender);
    case Resend =>
      var u := n.sender.updating;
      var s := n.sender.(updating := StillResending(u.now, u.left[1..]));
      if u.left[0] in n.sender.pending {
        SendAccounted(n, n.sender.pending[u.left[0]].buffer, u.now, s);
      }
    case _ =>
  }

  lemma StepAccounted(n: Net, n': Net, limit: nat, stale: bool)
    requires Accounted(n) && Steps(n, n', limit, stale) && limit <= 65536
    ensures Accounted(n')
  {
    var step :| Enabled(n, step, limit, stale) && n' == Next(n, step, limit, stale);
    if step.Sending? {
      EventAccounted(n, step.e, limit, stale);
    }
  }

  /** No packet is forgotten and none is kept after its acknowledgement, over any network
      behaviour, as long as no number is used twice. */
  lemma {:induction false} PendingOrAcked(run: seq<Net>, limit: nat, stale: bool, i: nat)
    requires Behaviour(run, limit, stale) && i < |run| && limit <= 65536
    ensures Accounted(run[i])
  {
    if i > 0 {
      PendingOrAcked(run, limit, stale, i - 1);
      assert Steps(run[i - 1], run[i], limit, stale);
      StepAccounted(run[i - 1], run[i], limit, stale);
    }
  }

  // ----------------------------------------------------------- no number used

  /** With no number ever used there is nothing to remove, whatever the wire carries. */
  ghost predicate Silent(n: Net) {
    n.issued == 0 && n.sender.pending == map[] && n.erased == {}
  }

  lemma SilentStep(n: Net, n': Net, stale: bool)
    requires Silent(n) && Steps(n, n', 0, stale)
    ensures Silent(n')
  {
    var step :| Enabled(n, step, 0, stale) && n' == Next(n, step, 0, stale);
    if step.Sending? && step.e.Resend? {
      assert Uses(n.sender, step.e) == 0;
    }
  }

  lemma {:induction false} SilentBehaviour(run: seq<Net>, stale: bool, i: nat)
    requires Behaviour(run, 0, stale) && i < |run|
    ensures Silent(run[i])
  {
    if i > 0 {
      SilentBehaviour(run, stale, i - 1);
      assert Steps(run[i - 1], run[i], 0, stale);
      SilentStep(run[i - 1], run[i], stale);
    }
  }

  /** No acknowledgement ever removed a packet the peer did not accept. */
  ghost predicate NoFalseAck(run: seq<Net>) {
    forall i :: 0 <= i < |run| ==> run[i].erased <= run[i].accepted
  }

  // ----------------------------------------------------- how it goes wrong

  ghost function Start(): Net {
    Net(1, 0, 1.0, Sender(true, map[], 1, [], Idle), FreshReceiver(), {}, {}, {})
  }

  function SendsOf(count: nat): Sender {
    if count == 0 then Sender(true, map[], 1, [], Idle) else SendOne(SendsOf(count - 1), 0, 0.0)
  }

  ghost function Sent(count: nat): Net {
    Start().(sender := SendsOf(count), issued := count)
  }

  lemma OneMoreSent(was: Sender, count: nat)
    requires was.connected && was.next == count < 65535
    ensures var s := SendOne(was, 0, 0.0);
            && s.connected && s.next == count + 1
            && s.pending.Keys == was.pending.Keys + {count}
            && s.wire == was.wire + [(0, count)]
  {
  }

  lemma {:induction false} SendsFacts(count: nat, q: Seq16)
    requires count < 65535
    ensures var s := SendsOf(count);
            && s.connected && s.next == count + 1
            && (1 <= q <= count ==> q in s.pending.Keys && (0, q) in s.wire)
  {
    if count > 0 {
      SendsFacts(count - 1, q);
      OneMoreSent(SendsOf(count - 1), count);
    }
  }

  lemma Extend(run: seq<Net>, step: Step, n': Net, limit: nat, stale: bool)
    requires Behaviour(run, limit, stale) && Enabled(run[|run| - 1], step, limit, stale)
    requires n' == Next(run[|run| - 1], step, limit, stale)
    ensures Behaviour(run + [n'], limit, stale)
  {
    var longer := run + [n'];
    forall i | 0 <= i < |longer| - 1
      ensures Steps(longer[i], longer[i + 1], limit, stale)
    {
      if i < |run| - 1 {
        assert Steps(run[i], run[i + 1], limit, stale);
      } else {
        assert longer[i] == run[i] && longer[i + 1] == n';
      }
    }
  }

  lemma {:induction false} SendsRun(count: nat, limit: nat, stale: bool) returns (run: seq<Net>)
    requires count <= limit
    ensures Behaviour(run, limit, stale) && run[|run| - 1] == Sent(count)
  {
    if count == 0 {
      run := [Start()];
      assert Start() == Sent(0);
    } else {
      run := SendsRun(count - 1, limit, stale);
      Extend(run, Sending(Event.Send(0, 0.0)), Sent(count), limit, stale);
      run := run + [Sent(count)];
    }
  }

  /** The peer gets 1025 and then 2.  Numbers 1 and 1025 share a slot, so the
      acknowledgement for 2 also covers 1. */
  ghost function Got1025(): Receiver {
    Record(FreshReceiver(), 1025)
  }

  ghost function Got2(): Receiver {
    Record(Got1025(), 2)
  }

  lemma BothAccepted()
    ensures Accepts(FreshReceiver(), 1025) && Accepts(Got1025(), 2)
    ensures Got2().history[1]
  {
    assert SeqGreater(1025, Wrap(0 - WINDOW_SIZE));
    assert Got1025() == Receiver(FreshReceiver().history[1 := true], 1025);
    assert SeqGreater(2, Wrap(1025 - WINDOW_SIZE));
  }

  ghost function LastAck(): (Seq16, nat) {
    (2, AckBits(Got2().history, 2, BITFIELD_SIZE))
  }

  lemma SharedSlot()
    ensures 1 in AckSet(2, AckBits(Got2().history, 2, BITFIELD_SIZE))
  {
    BothAccepted();
    assert Wrap(2 - 1) == 1;
    AckRoundTrip(Got2().history, 2, 1);
  }

  /** Number 1 is pending, 1025 and 2 are on the wire, and the peer has got nothing. */
  ghost predicate Ripe(n: Net) {
    && n.receiver == FreshReceiver() && n.acks == {} && n.accepted == {} && n.erased == {}
    && 1 in n.sender.pending && OnWire(n.sender, 1025) && OnWire(n.sender, 2)
  }

  ghost function After1025(n: Net): Net {
    n.(receiver := Got1025(), accepted := {1025},
       acks := {(1025, AckBits(Got1025().history, 1025, BITFIELD_SIZE))})
  }

  ghost function After2(n: Net): Net {
    After1025(n).(receiver := Got2(), accepted := {1025, 2}, acks := After1025(n).acks + {LastAck()})
  }

  lemma Deliver1025(n: Net, limit: nat, stale: bool)
    requires Ripe(n)
    ensures Enabled(n, DeliverData(1025), limit, stale)
    ensures Next(n, DeliverData(1025), limit, stale) == After1025(n)
  {
    BothAccepted();
    assert n.accepted + {1025} == {1025};
  }

  lemma Deliver2(n: Net, limit: nat, stale: bool)
    requires Ripe(n)
    ensures Enabled(After1025(n), DeliverData(2), limit, stale)
    ensures Next(After1025(n), DeliverData(2), limit, stale) == After2(n)
  {
    BothAccepted();
    assert After1025(n).receiver == Got1025();
    assert After1025(n).accepted + {2} == {1025, 2};
  }

  lemma DeliverLastAck(n: Net, limit: nat, stale: bool)
    requires Ripe(n)
    ensures Enabled(After2(n), DeliverAck(LastAck()), limit, stale)
    ensures var last := Next(After2(n), DeliverAck(LastAck()), limit, stale); 1 in last.erased && 1 !in last.accepted
  {
    SharedSlot();
  }

  lemma RipeFails(was: seq<Net>, limit: nat, stale: bool) returns (run: seq<Net>)
    requires Behaviour(was, limit, stale) && Ripe(was[|was| - 1])
    ensures Behaviour(run, limit, stale) && !NoFalseAck(run)
  {
    var n := was[|was| - 1];
    Deliver1025(n, limit, stale);
    Extend(was, DeliverData(1025), After1025(n), limit, stale);
    run := was + [After1025(n)];
    Deliver2(n, limit, stale);
    Extend(run, DeliverData(2), After2(n), limit, stale);
    run := run + [After2(n)];
    DeliverLastAck(n, limit, stale);
    var last := Next(After2(n), DeliverAck(LastAck()), limit, stale);
    Extend(run, DeliverAck(LastAck()), last, limit, stale);
    run := run + [last];
    assert run[|run| - 1] == last;
  }

  /** One more number than slots: 1 to 1025 are sent. */
  lemma FalseAck(limit: nat, stale: bool) returns (run: seq<Net>)
    requires limit > WINDOW_SIZE
    ensures Behaviour(run, limit, stale) && !NoFalseAck(run)
  {
    run := SendsRun(1025, limit, stale);
    SendsFacts(1025, 1);
    SendsFacts(1025, 2);
    SendsFacts(1025, 1025);
    assert (0, 2) in Sent(1025).sender.wire && (0, 1025) in Sent(1025).sender.wire;
    run := RipeFails(run, limit, stale);
  }

  /** One reliable packet, and two unreliable ones whose headers still hold the bytes of
      1025 and 2. */
  lemma StaleFalseAck(limit: nat) returns (run: seq<Net>)
    requires limit > 0
    ensures Behaviour(run, limit, true) && !NoFalseAck(run)
  {
    run := SendsRun(1, limit, true);
    SendsFacts(1, 1);
    var n := Sent(1);
    var n1 := n.(sender := SendPlain(n.sender, 0, 1025));
    Extend(run, Sending(Unreliable(0, 1025)), n1, limit, true);
    run := run + [n1];
    var n2 := n1.(sender := SendPlain(n1.sender, 0, 2));
    Extend(run, Sending(Unreliable(0, 2)), n2, limit, true);
    run := run + [n2];
    assert n2.sender.wire == n.sender.wire + [(0, 1025)] + [(0, 2)];
    assert (0, 1025) in n2.sender.wire && (0, 2) in n2.sender.wire;
    run := RipeFails(run, limit, true);
  }

  /** The protocol never acknowledges falsely, over any network behaviour and across
      the 16-bit wrap, exactly when at most 1024 sequence numbers are used and no
      unreliable packet carries a stale number, or when no number is used at all. */
  lemma NoFalseAckExactly(limit: nat, stale: bool)
    ensures (forall run: seq<Net> :: Behaviour(run, limit, stale) ==> NoFalseAck(run)) <==>
            limit <= WINDOW_SIZE && (!stale || limit == 0)
  {
    if limit > WINDOW_SIZE {
      var run := FalseAck(limit, stale);
    } else if stale && limit > 0 {
      var run := StaleFalseAck(limit);
    } else {
      forall run: seq<Net> | Behaviour(run, limit, stale)
        ensures NoFalseAck(run)
      {
        forall i | 0 <= i < |run|
          ensures run[i].erased <= run[i].accepted
        {
          if stale {
            SilentBehaviour(run, stale, i);
          } else {
            BehaviourInv(run, limit, i);
          }
        }
      }
    }
  }
}
