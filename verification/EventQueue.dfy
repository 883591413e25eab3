/** The event reorder queue: a binary heap in an array (src/event_route.h:17-41,
    src/event_route.cpp:176-241). */
module EventQueue {
  import opened Config
  import opened Translation
  import opened SortedQueue

  function Parent(i: nat): nat
    requires i > 0
  {
    (i - 1) / 2
  }

  /** No slot is less than its parent, but perhaps for the one at `except`. */
  ghost predicate HeapBut(c: seq<Slot>, except: int) {
    forall j :: 0 < j < |c| && j != except ==> !Less(c[j], c[Parent(j)])
  }

  /** No slot is less than its parent, but perhaps for the children of `hole`. */
  ghost predicate HeapAbove(c: seq<Slot>, hole: int) {
    forall j :: 0 < j < |c| && Parent(j) != hole ==> !Less(c[j], c[Parent(j)])
  }

  /** The children of i are not less than the parent of i. */
  ghost predicate Grand(c: seq<Slot>, i: int) {
    forall j :: 0 < j < |c| && Parent(j) == i && 0 < i < |c| ==> !Less(c[j], c[Parent(i)])
  }

  function Swapped(c: seq<Slot>, i: nat, j: nat): (r: seq<Slot>)
    requires i < |c| && j < |c|
  {
    c[i := c[j]][j := c[i]]
  }

  lemma SwapKeeps(c: seq<Slot>, i: nat, j: nat)
    requires i < |c| && j < |c|
    ensures multiset(Swapped(c, i, j)) == multiset(c)
  {
  }

  lemma SwapAt(c: seq<Slot>, i: nat, j: nat)
    requires i < |c| && j < |c| && i != j
    ensures var r := Swapped(c, i, j);
      |r| == |c| && r[i] == c[j] && r[j] == c[i] && forall k :: 0 <= k < |c| && k != i && k != j ==> r[k] == c[k]
  {
  }

  /** One turn of the sift-up loop. */
  lemma SiftUpStep(c: seq<Slot>, i: nat)
    requires 0 < i < |c| && HeapBut(c, i) && Grand(c, i) && Less(c[i], c[Parent(i)])
    ensures var r := Swapped(c, i, Parent(i)); HeapBut(r, Parent(i)) && Grand(r, Parent(i))
  {
    var p := Parent(i);
    var r := Swapped(c, i, p);
    SwapAt(c, i, p);
    forall j | 0 < j < |r| && j != p ensures !Less(r[j], r[Parent(j)]) {
      if Parent(j) == p && j != i {
        assert !Less(c[j], c[p]);
      } else if Parent(j) == i {
        assert !Less(c[j], c[p]);
      }
    }
    forall j | 0 < j < |r| && Parent(j) == p && 0 < p ensures !Less(r[j], r[Parent(p)]) {
      assert !Less(c[p], c[Parent(p)]);
      if j != i { assert !Less(c[j], c[p]); }
    }
  }

  /** One turn of the sift-down loop: `s` is the least child. */
  lemma SiftDownStep(c: seq<Slot>, i: nat, s: nat)
    requires i < |c| && HeapAbove(c, i) && Grand(c, i)
    requires 0 < s < |c| && Parent(s) == i && Less(c[s], c[i])
    requires forall j :: 0 < j < |c| && Parent(j) == i ==> !Less(c[j], c[s])
    ensures var r := Swapped(c, i, s); HeapAbove(r, s) && Grand(r, s)
  {
    var r := Swapped(c, i, s);
    SwapAt(c, i, s);
    forall j | 0 < j < |r| && Parent(j) != s ensures !Less(r[j], r[Parent(j)]) {
      if Parent(j) == i {
        assert !Less(c[j], c[s]);
      } else if j == i {
        assert !Less(c[s], c[Parent(i)]);
      }
    }
    forall j | 0 < j < |r| && Parent(j) == s ensures !Less(r[j], r[Parent(s)]) {
      assert !Less(c[j], c[s]);
    }
  }

  /** The sift-down loop stops where neither child is less. */
  lemma SiftDownDone(c: seq<Slot>, i: nat)
    requires i < |c| && HeapAbove(c, i)
    requires forall j :: 0 < j < |c| && Parent(j) == i ==> !Less(c[j], c[i])
    ensures HeapBut(c, -1)
  {
  }

  /** The root of a heap is its least slot. */
  lemma {:induction false} RootIsLeast(c: seq<Slot>, j: nat)
    requires HeapBut(c, -1) && j < |c|
    ensures !Less(c[j], c[0])
  {
    if j > 0 {
      RootIsLeast(c, Parent(j));
      assert !Less(c[j], c[Parent(j)]);
    }
  }

  /** The root is the head of the sorted contents. */
  lemma RootIsFirst(c: seq<Slot>, q: seq<Slot>)
    requires HeapBut(c, -1) && Sorted(q) && multiset(c) == multiset(q) && c != []
    ensures q != [] && c[0] == q[0]
  {
    assert |multiset(c)| == |multiset(q)|;
    assert q[0] in multiset(c) && c[0] in multiset(q);
    var j :| 0 <= j < |c| && c[j] == q[0];
    var k :| 0 <= k < |q| && q[k] == c[0];
    RootIsLeast(c, j);
    FirstIsLess(q, k);
  }

  /** Appending at the end disturbs nothing but the new place. */
  lemma Appended(c: seq<Slot>, s: Slot)
    requires HeapBut(c, -1)
    ensures HeapBut(c + [s], |c|) && Grand(c + [s], |c|)
  {
    var r := c + [s];
    forall j | 0 < j < |r| && j != |c| ensures !Less(r[j], r[Parent(j)]) {
      assert !Less(c[j], c[Parent(j)]);
    }
  }

  function WithoutRoot(c: seq<Slot>): seq<Slot>
    requires |c| > 1
  {
    c[..|c| - 1][0 := c[|c| - 1]]
  }

  /** Moving the last slot to the root disturbs nothing but the root's children. */
  lemma RootReplaced(c: seq<Slot>)
    requires HeapBut(c, -1) && |c| > 1
    ensures HeapAbove(WithoutRoot(c), 0) && Grand(WithoutRoot(c), 0)
  {
    var r := WithoutRoot(c);
    forall j | 0 < j < |r| && Parent(j) != 0 ensures !Less(r[j], r[Parent(j)]) {
      assert !Less(c[j], c[Parent(j)]);
    }
  }

  /** It takes exactly the root out of the contents. */
  lemma RootGone(c: seq<Slot>, q: seq<Slot>)
    requires HeapBut(c, -1) && multiset(c) == multiset(q) && c != [] && q != [] && c[0] == q[0]
    ensures |c| > 1 ==>
              HeapAbove(WithoutRoot(c), 0) && Grand(WithoutRoot(c), 0) && multiset(WithoutRoot(c)) == multiset(q[1..])
    ensures |c| == 1 ==> multiset(q[1..]) == multiset{}
  {
    hide WithoutRoot, HeapAbove, Grand, HeapBut;
    WithoutHead(q);
    WithoutHead(c);
    if |c| > 1 {
      RootReplaced(c);
      SameRest(c);
    }
  }

  lemma WithoutHead(q: seq<Slot>)
    requires q != []
    ensures multiset(q[1..]) == multiset(q) - multiset{q[0]}
  {
    assert q == [q[0]] + q[1..];
  }

  /** With the last slot in the root's place the rest holds the same slots. */
  lemma SameRest(c: seq<Slot>)
    requires |c| > 1
    ensures multiset(WithoutRoot(c)) == multiset(c[1..])
  {
    var mid, last := c[1..|c| - 1], c[|c| - 1];
    assert WithoutRoot(c) == [last] + mid;
    assert c[1..] == mid + [last];
  }

  lemma TailBefore(q: seq<Slot>, next: nat)
    requires Before(q, next) && q != []
    ensures Before(q[1..], next)
  {
  }

  /** c holds the slots of the sorted queue q, in some arrangement. */
  ghost predicate Arranged(c: seq<Slot>, q: seq<Slot>, next: nat) {
    |c| == |q| && multiset(c) == multiset(q) && Sorted(q) && Before(q, next)
  }

  lemma RootDropped(c: seq<Slot>, q: seq<Slot>, next: nat)
    requires HeapBut(c, -1) && Arranged(c, q, next) && c != []
    ensures Arranged(if |c| > 1 then WithoutRoot(c) else [], q[1..], next)
    ensures |c| > 1 ==> HeapAbove(WithoutRoot(c), 0) && Grand(WithoutRoot(c), 0)
  {
    RootIsFirst(c, q);
    SortedTail(q);
    TailBefore(q, next);
    RootGone(c, q);
    hide Sorted, Before, HeapAbove, Grand, HeapBut;
  }

  class EventReorderQueue {
    const heap: array<Slot>
    var size: nat
    var nextSeq: nat
    ghost var queue: seq<Slot>     // the contents, sorted

    ghost predicate Shape()
      reads this, heap
    {
      size <= heap.Length && Arranged(heap[..size], queue, nextSeq)
    }

    ghost predicate Valid()
      reads this, heap
    {
      Shape() && HeapBut(heap[..size], -1)
    }

    constructor (capacity: nat)
      ensures Valid() && queue == [] && nextSeq == 0 && heap.Length == capacity && fresh(heap)
    {
      var blank := Slot(MrEvent(0, 0, 0, false, Unknown), 0);
      heap := new Slot[capacity](_ => blank);
      size, nextSeq, queue := 0, 0, [];
    }

    /** A full queue refuses; otherwise the event takes its place among the contents. */
    method Push(ev: MrEvent) returns (ok: bool)
      requires Valid()
      modifies this, heap
      ensures Valid()
      ensures ok <==> |old(queue)| < heap.Length
      ensures ok ==> queue == Insert(old(queue), Slot(ev, old(nextSeq))) && nextSeq == old(nextSeq) + 1
      ensures !ok ==> queue == old(queue) && nextSeq == old(nextSeq)
    {
      if size == heap.Length {
        return false;
      }
      ghost var c, s := heap[..size], Slot(ev, nextSeq);
      Appended(c, s);
      InsertSorted(queue, s);
      InsertMembers(queue, s);
      heap[size] := Slot(ev, nextSeq);
      size := size + 1;
      nextSeq := nextSeq + 1;
      queue := Insert(queue, s);
      assert heap[..size] == c + [s];
      hide Sorted, Before, Insert, HeapBut, Grand;
      SiftUp(size - 1);
      return true;
    }

    method SiftUp(last: nat)
      requires Shape() && last < size && HeapBut(heap[..size], last) && Grand(heap[..size], last)
      modifies heap
      ensures Valid()
    {
      hide Sorted, Before;
      var i := last;
      while i > 0
        invariant 0 <= i < size && Shape() && HeapBut(heap[..size], i) && Grand(heap[..size], i)
      {
        var parent := (i - 1) / 2;
        if !Less(heap[i], heap[parent]) {
          break;
        }
        SiftUpStep(heap[..size], i);
        SwapSlots(i, parent);
        i := parent;
      }
      SiftUpDone(heap[..size], i);
    }

    lemma SiftUpDone(c: seq<Slot>, i: nat)
      requires i < |c| && HeapBut(c, i) && (i > 0 ==> !Less(c[i], c[Parent(i)]))
      ensures HeapBut(c, -1)
    {
    }

    method SwapSlots(i: nat, j: nat)
      requires Shape() && i < size && j < size && i != j
      modifies heap
      ensures Shape() && heap[..size] == Swapped(old(heap[..size]), i, j)
    {
      hide Sorted, Before;
      ghost var c := heap[..size];
      SwapKeeps(c, i, j);
      heap[i], heap[j] := heap[j], heap[i];
      assert heap[..size] == Swapped(c, i, j);
    }

    /** The least slot, if any. */
    method PeekMin() returns (ev: Option<MrEvent>)
      requires Valid()
      ensures ev == if queue == [] then None else Some(queue[0].ev)
    {
      if size == 0 {
        return None;
      }
      RootIsFirst(heap[..size], queue);
      return Some(heap[0].ev);
    }

    /** Drops the least slot, if any. */
    method PopMin()
      requires Valid()
      modifies this, heap
      ensures Valid() && nextSeq == old(nextSeq)
      ensures queue == if old(queue) == [] then [] else old(queue)[1..]
    {
      if size == 0 {
        return;
      }
      DropRoot();
      if size > 0 {
        hide Sorted, HeapAbove, Grand, HeapBut;
        SiftDown();
      }
    }

    /** The last slot takes the root's place, and the queue loses its head. */
    method DropRoot()
      requires Valid() && size > 0
      modifies this, heap
      ensures Shape() && nextSeq == old(nextSeq) && size == old(size) - 1
      ensures old(queue) != [] && queue == old(queue)[1..]
      ensures size > 0 ==> HeapAbove(heap[..size], 0) && Grand(heap[..size], 0)
      ensures size == 0 ==> HeapBut(heap[..size], -1)
    {
      ghost var c := heap[..size];
      RootDropped(c, queue, nextSeq);
      hide Arranged, HeapAbove, HeapBut, Grand;
      size := size - 1;
      heap[0] := heap[size];
      queue := queue[1..];
      assert heap[..size] == if |c| > 1 then c[..size][0 := c[size]] else [];
    }

    method SiftDown()
      requires Shape() && size > 0 && HeapAbove(heap[..size], 0) && Grand(heap[..size], 0)
      modifies heap
      ensures Valid()
    {
      hide Sorted, Before;
      var i := 0;
      while true
        invariant 0 <= i < size && Shape() && HeapAbove(heap[..size], i) && Grand(heap[..size], i)
        decreases size - i
      {
        var smallest := LeastOfThree(i);
        if smallest == i {
          break;
        }
        SiftDownStep(heap[..size], i, smallest);
        SwapSlots(i, smallest);
        i := smallest;
      }
      SiftDownDone(heap[..size], i);
    }

    /** The least of slot i and its children. */
    method LeastOfThree(i: nat) returns (smallest: nat)
      requires size <= heap.Length && i < size
      ensures smallest < size && (smallest == i || (smallest > i && Parent(smallest) == i && Less(heap[smallest], heap[i])))
      ensures forall j :: 0 < j < size && Parent(j) == i ==> !Less(heap[..size][j], heap[..size][smallest])
    {
      var left := 2 * i + 1;
      var right := 2 * i + 2;
      smallest := i;
      if left < size && Less(heap[left], heap[smallest]) {
        smallest := left;
      }
      if right < size && Less(heap[right], heap[smallest]) {
        smallest := right;
      }
      assert forall j :: j > 0 && Parent(j) == i ==> j == left || j == right;
    }

    method Clear()
      requires Valid()
      modifies this
      ensures Valid() && queue == [] && nextSeq == old(nextSeq)
    {
      size := 0;
      queue := [];
    }
  }
}
