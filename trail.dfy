/** The bounded trail of recent positions: a `collections.deque` created
    with `maxlen=MAX_TRAIL_LENGTH` (position_tracking.py:13-14), appended to
    while the tracked point moves and cleared on every reset. */
module Trail {

  const MaxTrailLength: nat := 1000

  /** The newest `n` elements of `s`, oldest first. */
  function Keep<T>(s: seq<T>, n: nat): (r: seq<T>)
    ensures |r| == if |s| <= n then |s| else n
    ensures r == s[|s| - |r|..]
  {
    if |s| <= n then s else s[|s| - n..]
  }

  /** `deque.append(x)` on a deque bounded by `capacity`: the element goes
      at the newest end and, at capacity, the oldest element is dropped. */
  function Appended<T>(items: seq<T>, x: T, capacity: nat): (r: seq<T>)
    ensures |r| <= capacity
    ensures |items| < capacity ==> r == items + [x]
    ensures 0 < capacity == |items| ==> r == items[1..] + [x]
    ensures capacity == 0 ==> r == []
    ensures forall y :: y in r ==> y in items || y == x
  {
    Keep(items + [x], capacity)
  }

  /** Appending `xs` one element after another, oldest first. */
  function AppendAll<T>(items: seq<T>, xs: seq<T>, capacity: nat): (r: seq<T>)
    requires |items| <= capacity
    ensures |r| <= capacity
    decreases |xs|
  {
    if xs == [] then items
    else Appended(AppendAll(items, xs[..|xs| - 1], capacity), xs[|xs| - 1], capacity)
  }

  lemma KeepAppend<T>(s: seq<T>, x: T, n: nat)
    ensures Keep(Keep(s, n) + [x], n) == Keep(s + [x], n)
  {
    var k := Keep(s, n);
    if 0 < n <= |s| {
      assert (k + [x])[1..] == s[|s| + 1 - n..] + [x];
      assert (s + [x])[|s| + 1 - n..] == s[|s| + 1 - n..] + [x];
    }
  }

  /** Whatever was appended, the deque holds exactly the newest `capacity`
      elements of everything it ever received, oldest first. */
  lemma {:induction false} AppendAllKeepsNewest<T>(items: seq<T>, xs: seq<T>, capacity: nat)
    requires |items| <= capacity
    ensures AppendAll(items, xs, capacity) == Keep(items + xs, capacity)
    decreases |xs|
  {
    if xs == [] {
      assert items + xs == items;
    } else {
      var front := xs[..|xs| - 1];
      var x := xs[|xs| - 1];
      AppendAllKeepsNewest(items, front, capacity);
      KeepAppend(items + front, x, capacity);
      assert items + front + [x] == items + xs by {
        assert front + [x] == xs;
      }
    }
  }

  /** After `capacity + 1` appends to an empty deque the oldest one has been
      evicted and the other `capacity` remain in order. */
  lemma OldestEvicted<T>(xs: seq<T>, capacity: nat)
    requires |xs| == capacity + 1
    ensures AppendAll([], xs, capacity) == xs[1..]
  {
    AppendAllKeepsNewest([], xs, capacity);
    assert [] + xs == xs;
  }

  /** The deque object itself, updated in place. */
  class History<T> {
    const capacity: nat
    var items: seq<T>

    ghost predicate Valid()
      reads this
    {
      |items| <= capacity
    }

    constructor (capacity: nat)
      ensures Valid() && this.capacity == capacity && items == []
    {
      this.capacity := capacity;
      items := [];
    }

    method Append(x: T)
      requires Valid()
      modifies this
      ensures Valid()
      ensures items == Appended(old(items), x, capacity)
    {
      items := items + [x];
      if |items| > capacity {
        items := items[1..];
      }
    }

    method Clear()
      requires Valid()
      modifies this
      ensures Valid() && items == []
    {
      items := [];
    }
  }
}
