/**
 * The solver's priority queue: an array of (priority, item) entries kept in
 * ascending priority. Enqueue pushes the new entry and re-sorts the array
 * with a stable sort; because the array was sorted before, the new entry
 * ends up after every entry whose priority is not larger, and every other
 * entry keeps its place in the order. Dequeue removes the first entry.
 */
module PriorityQueues {
  import opened Wrappers

  datatype Entry<T> = Entry(priority: int, item: T)

  /** Ascending priority order. */
  ghost predicate Sorted<T>(q: seq<Entry<T>>) {
    forall i, j :: 0 <= i < j < |q| ==> q[i].priority <= q[j].priority
  }

  /**
   * The position a stable sort gives an entry of priority `p` appended to
   * `q`: after the last entry whose priority is not larger than `p`.
   */
  function InsertPos<T>(q: seq<Entry<T>>, p: int): (k: nat)
    ensures k <= |q|
    ensures forall i :: k <= i < |q| ==> q[i].priority > p
    ensures k > 0 ==> q[k - 1].priority <= p
    decreases |q|
  {
    if |q| == 0 || q[|q| - 1].priority <= p then |q| else InsertPos(q[..|q| - 1], p)
  }

  /** The array after push and the stable sort. */
  function Insert<T>(q: seq<Entry<T>>, e: Entry<T>): seq<Entry<T>> {
    var k := InsertPos(q, e.priority);
    q[..k] + [e] + q[k..]
  }

  /** The entries of priority `p`, in array order. */
  function WithPriority<T>(q: seq<Entry<T>>, p: int): (r: seq<Entry<T>>)
    ensures forall i :: 0 <= i < |r| ==> r[i] in q && r[i].priority == p
    decreases |q|
  {
    if |q| == 0 then []
    else WithPriority(q[..|q| - 1], p) + (if q[|q| - 1].priority == p then [q[|q| - 1]] else [])
  }

  lemma {:induction false} WithPriorityConcat<T>(a: seq<Entry<T>>, b: seq<Entry<T>>, p: int)
    ensures WithPriority(a + b, p) == WithPriority(a, p) + WithPriority(b, p)
    decreases |b|
  {
    if |b| == 0 {
      assert a + b == a;
    } else {
      assert (a + b)[..|a + b| - 1] == a + b[..|b| - 1];
      WithPriorityConcat(a, b[..|b| - 1], p);
    }
  }

  /** An array of entries all above `p` has none of priority `p`. */
  lemma {:induction false} WithPriorityNone<T>(q: seq<Entry<T>>, p: int)
    requires forall i :: 0 <= i < |q| ==> q[i].priority != p
    ensures WithPriority(q, p) == []
    decreases |q|
  {
    if |q| > 0 {
      WithPriorityNone(q[..|q| - 1], p);
    }
  }

  /** The inserted array holds the old entries and the new one, and nothing else. */
  lemma InsertMembers<T>(q: seq<Entry<T>>, e: Entry<T>)
    ensures forall x :: x in Insert(q, e) <==> x in q || x == e
  {
    var k := InsertPos(q, e.priority);
    assert q == q[..k] + q[k..];
  }

  /** Inserting into a sorted array keeps it sorted. */
  lemma InsertSorted<T>(q: seq<Entry<T>>, e: Entry<T>)
    requires Sorted(q)
    ensures Sorted(Insert(q, e))
  {
    var k := InsertPos(q, e.priority);
    var r := Insert(q, e);
    forall i, j | 0 <= i < j < |r|
      ensures r[i].priority <= r[j].priority
    {
      if j < k {
        assert r[i] == q[i] && r[j] == q[j];
      } else if j == k {
        assert r[i] == q[i];
      } else if i < k {
        assert r[i] == q[i] && r[j] == q[j - 1];
      } else if i > k {
        assert r[i] == q[i - 1] && r[j] == q[j - 1];
      }
    }
  }

  /** Insertion adds the entry and loses nothing: a permutation of the pushed array. */
  lemma InsertPermutes<T>(q: seq<Entry<T>>, e: Entry<T>)
    ensures |Insert(q, e)| == |q| + 1
    ensures multiset(Insert(q, e)) == multiset(q + [e])
  {
    var k := InsertPos(q, e.priority);
    assert q == q[..k] + q[k..];
  }

  /** The entries of priority `p` in the inserted array, split around the new entry. */
  lemma InsertPieces<T>(q: seq<Entry<T>>, e: Entry<T>, p: int)
    ensures var k := InsertPos(q, e.priority);
      WithPriority(Insert(q, e), p) ==
        WithPriority(q[..k], p) + (if p == e.priority then [e] else []) + WithPriority(q[k..], p) &&
      WithPriority(q, p) == WithPriority(q[..k], p) + WithPriority(q[k..], p)
  {
    var k := InsertPos(q, e.priority);
    var pre, post := q[..k], q[k..];
    assert Insert(q, e) == (pre + [e]) + post;
    WithPriorityConcat(pre + [e], post, p);
    WithPriorityConcat(pre, [e], p);
    assert [e][..0] == [];
    assert q == pre + post;
    WithPriorityConcat(pre, post, p);
  }

  /**
   * Stability: for every priority, the entries of that priority keep their
   * order, and the new entry comes after all earlier entries of its own
   * priority (first in, first out among equals).
   */
  lemma InsertStable<T>(q: seq<Entry<T>>, e: Entry<T>, p: int)
    requires Sorted(q)
    ensures WithPriority(Insert(q, e), p) ==
      WithPriority(q, p) + (if p == e.priority then [e] else [])
  {
    var k := InsertPos(q, e.priority);
    InsertPieces(q, e, p);
    if p <= e.priority {
      AfterSlotNone(q, e.priority, p);
      var a := WithPriority(q[..k], p);
      assert a + (if p == e.priority then [e] else []) + [] == a + [] + (if p == e.priority then [e] else []);
    } else {
      BeforeSlotNone(q, e.priority, p);
    }
  }

  /** No entry after the slot of priority `ep` has a priority `p <= ep`. */
  lemma AfterSlotNone<T>(q: seq<Entry<T>>, ep: int, p: int)
    requires p <= ep
    ensures WithPriority(q[InsertPos(q, ep)..], p) == []
  {
    var post := q[InsertPos(q, ep)..];
    assert forall i :: 0 <= i < |post| ==> post[i].priority > ep;
    WithPriorityNone(post, p);
  }

  /** In a sorted array, no entry before the slot of priority `ep` has a priority `p > ep`. */
  lemma BeforeSlotNone<T>(q: seq<Entry<T>>, ep: int, p: int)
    requires Sorted(q) && p > ep
    ensures WithPriority(q[..InsertPos(q, ep)], p) == []
  {
    var k := InsertPos(q, ep);
    var pre := q[..k];
    assert forall i :: 0 <= i < |pre| ==> pre[i].priority <= q[k - 1].priority <= ep;
    WithPriorityNone(pre, p);
  }

  /** The first entry of a sorted array has the least priority. */
  lemma FrontIsMinimal<T>(q: seq<Entry<T>>)
    requires Sorted(q) && |q| > 0
    ensures forall e :: e in q ==> q[0].priority <= e.priority
  {
  }

  /** The scan of the stable sort for the pushed entry: back over the entries of larger priority. */
  method FindSlot<T>(q: seq<Entry<T>>, priority: int) returns (k: nat)
    ensures k == InsertPos(q, priority)
  {
    k := |q|;
    while k > 0 && q[k - 1].priority > priority
      invariant 0 <= k <= |q|
      invariant InsertPos(q, priority) == InsertPos(q[..k], priority)
    {
      assert q[..k - 1] == q[..k][..k - 1];
      k := k - 1;
    }
    assert q[..k][..k] == q[..k];
  }

  class PriorityQueue<T> {
    /** The entries, in ascending priority. */
    var items: seq<Entry<T>>

    ghost predicate Valid()
      reads this
    {
      Sorted(items)
    }

    constructor ()
      ensures items == [] && Valid()
    {
      items := [];
    }

    /** push, then the stable sort: the entry lands after every entry of no larger priority. */
    method Enqueue(item: T, priority: int)
      requires Valid()
      modifies this
      ensures items == Insert(old(items), Entry(priority, item))
      ensures Valid()
    {
      var k := FindSlot(items, priority);
      ghost var before := items;
      items := items[..k] + [Entry(priority, item)] + items[k..];
      InsertSorted(before, Entry(priority, item));
    }

    /** shift: the entry of least priority, earliest enqueued among equals; None when empty. */
    method Dequeue() returns (r: Option<T>)
      requires Valid()
      modifies this
      ensures old(items) == [] ==> r == None && items == []
      ensures old(items) != [] ==> r == Some(old(items)[0].item) && items == old(items)[1..]
      ensures Valid()
    {
      if |items| == 0 {
        return None;
      }
      r := Some(items[0].item);
      items := items[1..];
    }

    predicate IsEmpty()
      reads this
    {
      |items| == 0
    }
  }
}
