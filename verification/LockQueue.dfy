/** The locked FIFO of ServerCore.  A C++ null element (a null shared_ptr) is None. */
module LockQueues {

  datatype Option<+T> = None | Some(value: T)

  /** The elements in front of the first null. */
  function Leading<T>(items: seq<Option<T>>): (out: seq<T>)
    ensures |out| <= |items|
  {
    if items == [] || items[0].None? then [] else [items[0].value] + Leading(items[1..])
  }

  lemma {:induction false} LeadingAt<T>(items: seq<Option<T>>)
    ensures forall i :: 0 <= i < |Leading(items)| ==> items[i] == Some(Leading(items)[i])
    ensures |Leading(items)| < |items| ==> items[|Leading(items)|].None?
  {
    if items != [] && items[0].Some? {
      LeadingAt(items[1..]);
    }
  }

  predicate NoNulls<T>(items: seq<Option<T>>) {
    forall i :: 0 <= i < |items| ==> items[i].Some?
  }

  lemma {:induction false} LeadingAppend<T>(items: seq<Option<T>>, x: T)
    requires NoNulls(items)
    ensures Leading(items + [Some(x)]) == Leading(items) + [x] && |Leading(items)| == |items|
  {
    if items == [] {
    } else {
      assert (items + [Some(x)])[1..] == items[1..] + [Some(x)];
      LeadingAppend(items[1..], x);
    }
  }

  class LockQueue<T> {
    var items: seq<Option<T>>

    constructor ()
      ensures items == []
    {
      items := [];
    }

    method Push(item: Option<T>)
      modifies this
      ensures items == old(items) + [item]
    {
      items := items + [item];
    }

    /** An empty queue and a queued null look alike to the caller. */
    method Pop() returns (item: Option<T>)
      modifies this
      ensures old(items) == [] ==> item == None && items == []
      ensures old(items) != [] ==> old(items) == [item] + items
    {
      if items == [] {
        return None;
      }
      item := items[0];
      items := items[1..];
    }

    /** Takes everything up to the first null, and swallows that null: the elements
        behind it stay queued. */
    method PopAll() returns (out: seq<T>)
      modifies this
      ensures out == Leading(old(items))
      ensures items == old(items)[if |out| < |old(items)| then |out| + 1 else |out|..]
      ensures NoNulls(old(items)) ==> items == [] && |out| == |old(items)|
    {
      out := [];
      ghost var rest := items;   // not yet taken over, with the element in hand
      var item := Pop();
      while item.Some?
        invariant |out| <= |old(items)| && rest == old(items)[|out|..]
        invariant if rest == [] then item.None? && items == [] else rest == [item] + items
        invariant out + Leading(rest) == Leading(old(items))
        decreases |rest|
      {
        assert out + ([item.value] + Leading(items)) == out + [item.value] + Leading(items);
        rest := items;
        out := out + [item.value];
        item := Pop();
      }
      assert out + [] == out;
      assert rest != [] ==> items == rest[1..];
    }
  }
}
