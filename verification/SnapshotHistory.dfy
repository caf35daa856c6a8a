/** Room's lag-compensation history: one vector of time-stamped snapshots. */
module SnapshotHistory {

  type Snapshot = nat   // identity of a captured snapshot

  datatype Entry = Entry(time: real, snapshot: Snapshot)

  const HISTORY_SECONDS := 0.5

  predicate Sorted(buffer: seq<Entry>) {
    forall i, j :: 0 <= i < j < |buffer| ==> buffer[i].time <= buffer[j].time
  }

  /** The position behind every stamp <= t, where std::upper_bound points. */
  predicate IsUpperBound(buffer: seq<Entry>, t: real, at: nat) {
    && at <= |buffer|
    && (forall i :: 0 <= i < at ==> buffer[i].time <= t)
    && (forall i :: at <= i < |buffer| ==> t < buffer[i].time)
  }

  /** The position of the first stamp >= t, where std::lower_bound points. */
  predicate IsLowerBound(buffer: seq<Entry>, t: real, at: nat) {
    && at <= |buffer|
    && (forall i :: 0 <= i < at ==> buffer[i].time < t)
    && (forall i :: at <= i < |buffer| ==> t <= buffer[i].time)
  }

  /** Insertion behind equal stamps, as a function. */
  function Inserted(buffer: seq<Entry>, e: Entry): seq<Entry> {
    if buffer == [] || e.time < buffer[0].time then [e] + buffer
    else [buffer[0]] + Inserted(buffer[1..], e)
  }

  lemma {:induction false} InsertedAt(buffer: seq<Entry>, e: Entry, at: nat)
    requires IsUpperBound(buffer, e.time, at)
    ensures Inserted(buffer, e) == buffer[..at] + [e] + buffer[at..]
  {
    if at > 0 {
      InsertedAt(buffer[1..], e, at - 1);
      assert buffer[..at] == [buffer[0]] + buffer[1..][..at - 1] && buffer[1..][at - 1..] == buffer[at..];
    }
  }

  /** What the pruning keeps, in order. */
  function Kept(buffer: seq<Entry>, cutoff: real): seq<Entry> {
    if buffer == [] then []
    else (if buffer[0].time < cutoff then [] else [buffer[0]]) + Kept(buffer[1..], cutoff)
  }

  lemma {:induction false} KeptAppend(a: seq<Entry>, b: seq<Entry>, cutoff: real)
    ensures Kept(a + b, cutoff) == Kept(a, cutoff) + Kept(b, cutoff)
  {
    if a == [] {
      assert a + b == b;
    } else {
      assert (a + b)[1..] == a[1..] + b;
      KeptAppend(a[1..], b, cutoff);
      var head := if a[0].time < cutoff then [] else [a[0]];
      assert head + (Kept(a[1..], cutoff) + Kept(b, cutoff)) == head + Kept(a[1..], cutoff) + Kept(b, cutoff);
    }
  }

  lemma KeptNext(buffer: seq<Entry>, i: nat, cutoff: real)
    requires i < |buffer|
    ensures Kept(buffer[..i + 1], cutoff) ==
            Kept(buffer[..i], cutoff) + if buffer[i].time < cutoff then [] else [buffer[i]]
  {
    assert buffer[..i + 1] == buffer[..i] + [buffer[i]];
    KeptAppend(buffer[..i], [buffer[i]], cutoff);
    assert Kept([buffer[i]], cutoff) == if buffer[i].time < cutoff then [] else [buffer[i]];
  }

  function Add(buffer: seq<Entry>, e: Entry): seq<Entry> {
    Kept(Inserted(buffer, e), e.time - HISTORY_SECONDS)
  }

  predicate NoneBefore(buffer: seq<Entry>, t: real) {
    forall i :: 0 <= i < |buffer| ==> t <= buffer[i].time
  }

  lemma SortedCons(e: Entry, rest: seq<Entry>)
    requires Sorted(rest) && NoneBefore(rest, e.time)
    ensures Sorted([e] + rest)
  {
  }

  lemma {:induction false} InsertedSorted(buffer: seq<Entry>, e: Entry)
    requires Sorted(buffer)
    ensures Sorted(Inserted(buffer, e))
    ensures forall t :: NoneBefore(buffer, t) && t <= e.time ==> NoneBefore(Inserted(buffer, e), t)
  {
    if buffer == [] || e.time < buffer[0].time {
      SortedCons(e, buffer);
    } else {
      InsertedSorted(buffer[1..], e);
      assert NoneBefore(buffer[1..], buffer[0].time);
      SortedCons(buffer[0], Inserted(buffer[1..], e));
      assert forall t :: NoneBefore(buffer, t) ==> t <= buffer[0].time && NoneBefore(buffer[1..], t);
    }
  }

  lemma {:induction false} InsertedKeepsAll(buffer: seq<Entry>, e: Entry)
    ensures multiset(Inserted(buffer, e)) == multiset(buffer) + multiset{e}
  {
    if buffer != [] && !(e.time < buffer[0].time) {
      InsertedKeepsAll(buffer[1..], e);
      assert buffer == [buffer[0]] + buffer[1..];
    }
  }

  lemma {:induction false} KeptSorted(buffer: seq<Entry>, cutoff: real)
    requires Sorted(buffer)
    ensures Sorted(Kept(buffer, cutoff))
    ensures forall t :: NoneBefore(buffer, t) ==> NoneBefore(Kept(buffer, cutoff), t)
  {
    if buffer != [] {
      KeptSorted(buffer[1..], cutoff);
      assert NoneBefore(buffer[1..], buffer[0].time);
      SortedCons(buffer[0], Kept(buffer[1..], cutoff));
      assert forall t :: NoneBefore(buffer, t) ==> t <= buffer[0].time && NoneBefore(buffer[1..], t);
    }
  }

  lemma AddSorted(buffer: seq<Entry>, e: Entry)
    requires Sorted(buffer)
    ensures Sorted(Add(buffer, e))
  {
    InsertedSorted(buffer, e);
    KeptSorted(Inserted(buffer, e), e.time - HISTORY_SECONDS);
  }

  class Room {
    var snapshotBuffer: seq<Entry>

    ghost predicate Valid()
      reads this
    {
      Sorted(snapshotBuffer)
    }

    constructor ()
      ensures Valid() && snapshotBuffer == []
    {
      snapshotBuffer := [];
    }

    /** std::upper_bound: bisection over [first, first + count). */
    method UpperBound(t: real) returns (first: nat)
      requires Valid()
      ensures IsUpperBound(snapshotBuffer, t, first)
    {
      first := 0;
      var count := |snapshotBuffer|;
      while count > 0
        invariant 0 <= first && 0 <= count && first + count <= |snapshotBuffer|
        invariant forall i :: 0 <= i < first ==> snapshotBuffer[i].time <= t
        invariant forall i :: first + count <= i < |snapshotBuffer| ==> t < snapshotBuffer[i].time
        decreases count
      {
        var half := count / 2;
        if t < snapshotBuffer[first + half].time {
          count := half;
        } else {
          first := first + half + 1;
          count := count - half - 1;
        }
      }
    }

    method LowerBound(t: real) returns (first: nat)
      requires Valid()
      ensures IsLowerBound(snapshotBuffer, t, first)
    {
      first := 0;
      var count := |snapshotBuffer|;
      while count > 0
        invariant 0 <= first && 0 <= count && first + count <= |snapshotBuffer|
        invariant forall i :: 0 <= i < first ==> snapshotBuffer[i].time < t
        invariant forall i :: first + count <= i < |snapshotBuffer| ==> t <= snapshotBuffer[i].time
        decreases count
      {
        var half := count / 2;
        if snapshotBuffer[first + half].time < t {
          first := first + half + 1;
          count := count - half - 1;
        } else {
          count := half;
        }
      }
    }

    /** remove_if and erase: survivors move down in order, the tail is cut off. */
    method EraseBefore(cutoff: real)
      modifies this
      ensures snapshotBuffer == Kept(old(snapshotBuffer), cutoff)
    {
      var result, i := 0, 0;
      ghost var was := snapshotBuffer;
      while i < |snapshotBuffer|
        invariant 0 <= result <= i <= |was| == |snapshotBuffer|
        invariant snapshotBuffer[..result] == Kept(was[..i], cutoff)
        invariant snapshotBuffer[i..] == was[i..]
      {
        KeptNext(was, i, cutoff);
        assert snapshotBuffer[i] == was[i..][0] == was[i];
        assert snapshotBuffer[i + 1..] == was[i..][1..] == was[i + 1..];
        assert snapshotBuffer[..result] + [] == snapshotBuffer[..result];
        if !(snapshotBuffer[i].time < cutoff) {
          ghost var before := snapshotBuffer;
          snapshotBuffer := snapshotBuffer[result := snapshotBuffer[i]];
          result := result + 1;
          assert snapshotBuffer[..result] == before[..result - 1] + [was[i]];
        }
        i := i + 1;
      }
      assert was[..i] == was;
      snapshotBuffer := snapshotBuffer[..result];
    }

    method AddSnapshot(timestamp: real, snapshot: Snapshot)
      requires Valid()
      modifies this
      ensures Valid() && snapshotBuffer == Add(old(snapshotBuffer), Entry(timestamp, snapshot))
    {
      var e := Entry(timestamp, snapshot);
      var at := UpperBound(timestamp);
      InsertedAt(snapshotBuffer, e, at);
      AddSorted(snapshotBuffer, e);
      snapshotBuffer := snapshotBuffer[..at] + [e] + snapshotBuffer[at..];
      EraseBefore(timestamp - HISTORY_SECONDS);
    }

    /** The earliest snapshot at or after t; null exactly when all are earlier.  The
        source reads the first and last stamp for its log before it looks at the
        result, so it needs a non-empty history. */
    method FindSnapshot(t: real) returns (found: bool, e: Entry)
      requires Valid() && snapshotBuffer != []
      ensures found <==> exists i :: 0 <= i < |snapshotBuffer| && t <= snapshotBuffer[i].time
      ensures found ==> exists i :: 0 <= i < |snapshotBuffer| && e == snapshotBuffer[i] && t <= e.time &&
                          forall j :: 0 <= j < i ==> snapshotBuffer[j].time < t
    {
      var at := LowerBound(t);
      if at == |snapshotBuffer| {
        return false, snapshotBuffer[0];
      }
      return true, snapshotBuffer[at];
    }
  }

  // ------------------------------------------------------------ whole runs

  /** The history after these AddSnapshot calls, the last one last. */
  function AddAll(adds: seq<Entry>): seq<Entry> {
    if adds == [] then [] else Add(AddAll(adds[..|adds| - 1]), adds[|adds| - 1])
  }

  function InsertAll(xs: seq<Entry>): seq<Entry> {
    if xs == [] then [] else Inserted(InsertAll(xs[..|xs| - 1]), xs[|xs| - 1])
  }

  /** No later call came more than half a second, by its own stamp, after e. */
  predicate Outlasts(e: Entry, later: seq<Entry>) {
    forall i :: 0 <= i < |later| ==> e.time >= later[i].time - HISTORY_SECONDS
  }

  /** The snapshots that outlast all later calls, in the order of the calls. */
  function Survivors(adds: seq<Entry>): seq<Entry> {
    if adds == [] then []
    else (if Outlasts(adds[0], adds[1..]) then [adds[0]] else []) + Survivors(adds[1..])
  }

  /** The entries with one stamp, in order. */
  function AtTime(xs: seq<Entry>, t: real): seq<Entry> {
    if xs == [] then [] else (if xs[0].time == t then [xs[0]] else []) + AtTime(xs[1..], t)
  }

  lemma Regroup(a: seq<Entry>, b: seq<Entry>, e: Entry)
    ensures a + (b + [e]) == a + b + [e]
  {
  }

  lemma OutlastsMore(x: Entry, later: seq<Entry>, e: Entry)
    ensures Outlasts(x, later + [e]) <==> Outlasts(x, later) && !(x.time < e.time - HISTORY_SECONDS)
  {
    assert (later + [e])[|later|] == e;
    assert forall i :: 0 <= i < |later| ==> (later + [e])[i] == later[i];
  }

  lemma {:induction false} SurvivorsAppend(adds: seq<Entry>, e: Entry)
    ensures Survivors(adds + [e]) == Kept(Survivors(adds), e.time - HISTORY_SECONDS) + [e]
  {
    if adds == [] {
    } else {
      var later := adds[1..];
      var cutoff := e.time - HISTORY_SECONDS;
      assert (adds + [e])[1..] == later + [e];
      SurvivorsAppend(later, e);
      OutlastsMore(adds[0], later, e);
      var head := if Outlasts(adds[0], later) then [adds[0]] else [];
      KeptAppend(head, Survivors(later), cutoff);
      assert Kept(head, cutoff) == if Outlasts(adds[0], later + [e]) then [adds[0]] else [];
      Regroup(Kept(head, cutoff), Kept(Survivors(later), cutoff), e);
    }
  }

  /** Pruning and inserting commute. */
  lemma {:induction false} KeptInserted(buffer: seq<Entry>, e: Entry, cutoff: real)
    ensures Kept(Inserted(buffer, e), cutoff) ==
              if e.time < cutoff then Kept(buffer, cutoff) else Inserted(Kept(buffer, cutoff), e)
  {
    if buffer == [] || e.time < buffer[0].time {
      assert Inserted(buffer, e)[1..] == buffer;
    } else {
      KeptInserted(buffer[1..], e, cutoff);
      assert Inserted(buffer, e)[1..] == Inserted(buffer[1..], e);
      var kept := Kept(buffer[1..], cutoff);
      assert ([buffer[0]] + kept)[1..] == kept && [] + kept == kept;
      assert [] + Kept(Inserted(buffer[1..], e), cutoff) == Kept(Inserted(buffer[1..], e), cutoff);
    }
  }

  lemma {:induction false} KeptInsertAll(xs: seq<Entry>, cutoff: real)
    ensures Kept(InsertAll(xs), cutoff) == InsertAll(Kept(xs, cutoff))
  {
    if xs != [] {
      var front, last := xs[..|xs| - 1], xs[|xs| - 1];
      assert xs == front + [last];
      KeptInsertAll(front, cutoff);
      KeptInserted(InsertAll(front), last, cutoff);
      KeptAppend(front, [last], cutoff);
      var kept := Kept(front, cutoff);
      assert (kept + [last])[..|kept|] == kept && kept + [] == kept;
      assert Kept([last], cutoff) == if last.time < cutoff then [] else [last];
    }
  }

  lemma InsertAllAppend(xs: seq<Entry>, e: Entry)
    ensures InsertAll(xs + [e]) == Inserted(InsertAll(xs), e)
  {
    assert (xs + [e])[..|xs|] == xs;
  }

  lemma AddToSorted(xs: seq<Entry>, e: Entry)
    ensures Add(InsertAll(xs), e) == InsertAll(Kept(xs, e.time - HISTORY_SECONDS) + [e])
  {
    var cutoff := e.time - HISTORY_SECONDS;
    KeptInserted(InsertAll(xs), e, cutoff);
    KeptInsertAll(xs, cutoff);
    InsertAllAppend(Kept(xs, cutoff), e);
  }

  /** After any calls, with stamps in any order, the history is the stable sort of
      exactly the snapshots that outlast all later calls. */
  lemma {:induction false} HistoryIsSortedSurvivors(adds: seq<Entry>)
    ensures AddAll(adds) == InsertAll(Survivors(adds))
  {
    if adds != [] {
      var front, last := adds[..|adds| - 1], adds[|adds| - 1];
      assert adds == front + [last];
      HistoryIsSortedSurvivors(front);
      AddToSorted(Survivors(front), last);
      SurvivorsAppend(front, last);
    }
  }

  lemma {:induction false} NoneAtTime(xs: seq<Entry>, t: real)
    requires forall i :: 0 <= i < |xs| ==> xs[i].time != t
    ensures AtTime(xs, t) == []
  {
    if xs != [] {
      NoneAtTime(xs[1..], t);
    }
  }

  lemma {:induction false} InsertedStable(buffer: seq<Entry>, e: Entry, t: real)
    requires Sorted(buffer)
    ensures AtTime(Inserted(buffer, e), t) == AtTime(buffer, t) + if e.time == t then [e] else []
  {
    if buffer == [] {
    } else if e.time < buffer[0].time {
      assert Inserted(buffer, e)[1..] == buffer;
      if e.time == t {
        NoneAtTime(buffer, t);
      }
    } else {
      var head := if buffer[0].time == t then [buffer[0]] else [];
      var tail := if e.time == t then [e] else [];
      InsertedStable(buffer[1..], e, t);
      assert Inserted(buffer, e)[1..] == Inserted(buffer[1..], e);
      assert head + (AtTime(buffer[1..], t) + tail) == head + AtTime(buffer[1..], t) + tail;
    }
  }

  lemma {:induction false} AtTimeAppend(a: seq<Entry>, b: seq<Entry>, t: real)
    ensures AtTime(a + b, t) == AtTime(a, t) + AtTime(b, t)
  {
    if a == [] {
      assert a + b == b;
    } else {
      assert (a + b)[1..] == a[1..] + b;
      AtTimeAppend(a[1..], b, t);
      var head := if a[0].time == t then [a[0]] else [];
      assert head + (AtTime(a[1..], t) + AtTime(b, t)) == head + AtTime(a[1..], t) + AtTime(b, t);
    }
  }

  /** What InsertAll is: a sorted permutation that leaves equal stamps in order. */
  lemma {:induction false} InsertAllIsStableSort(xs: seq<Entry>, t: real)
    ensures Sorted(InsertAll(xs)) && multiset(InsertAll(xs)) == multiset(xs)
    ensures AtTime(InsertAll(xs), t) == AtTime(xs, t)
  {
    if xs != [] {
      var front, last := xs[..|xs| - 1], xs[|xs| - 1];
      assert xs == front + [last];
      InsertAllIsStableSort(front, t);
      InsertedSorted(InsertAll(front), last);
      InsertedKeepsAll(InsertAll(front), last);
      InsertedStable(InsertAll(front), last, t);
      AtTimeAppend(front, [last], t);
    }
  }

  /** The history is empty, and FindSnapshot may not be called, exactly before the first
      AddSnapshot: a call never prunes its own snapshot. */
  lemma EmptyExactly(adds: seq<Entry>)
    ensures AddAll(adds) == [] <==> adds == []
  {
    if adds != [] {
      var front, last := adds[..|adds| - 1], adds[|adds| - 1];
      assert adds == front + [last];
      HistoryIsSortedSurvivors(adds);
      SurvivorsAppend(front, last);
      InsertAllIsStableSort(Survivors(adds), last.time);
      assert last in multiset(Survivors(adds));
    }
  }
}
