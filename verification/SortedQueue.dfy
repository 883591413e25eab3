/** What the event reorder queue means: its contents in (sample time, arrival) order. */
module SortedQueue {
  import opened Config
  import opened Translation

  datatype Slot = Slot(ev: MrEvent, seqNo: nat)

  /** Earlier sample time first; equal times in arrival order. */
  predicate Less(a: Slot, b: Slot) {
    if a.ev.sampleTime != b.ev.sampleTime then a.ev.sampleTime < b.ev.sampleTime
    else a.seqNo < b.seqNo
  }

  ghost predicate Sorted(q: seq<Slot>) {
    forall i, j :: 0 <= i < j < |q| ==> Less(q[i], q[j])
  }

  /** Every slot is older than the next arrival. */
  ghost predicate Before(q: seq<Slot>, next: nat) {
    forall i :: 0 <= i < |q| ==> q[i].seqNo < next
  }

  /** The queue with one more slot at its place. */
  function Insert(q: seq<Slot>, s: Slot): (r: seq<Slot>)
    ensures |r| == |q| + 1
  {
    if q == [] || Less(s, q[0]) then [s] + q else [q[0]] + Insert(q[1..], s)
  }

  /** The queue after the events have arrived in turn, the first with number `next`. */
  function InsertAll(q: seq<Slot>, next: nat, evs: seq<MrEvent>): (r: seq<Slot>)
    ensures |r| == |q| + |evs|
  {
    if evs == [] then q
    else Insert(InsertAll(q, next, evs[..|evs| - 1]), Slot(evs[|evs| - 1], next + |evs| - 1))
  }

  // ---------------------------------------------------------------- order

  lemma {:induction false} InsertMembers(q: seq<Slot>, s: Slot)
    ensures multiset(Insert(q, s)) == multiset(q) + multiset{s}
    ensures forall x :: x in Insert(q, s) <==> x in q || x == s
  {
    if q == [] || Less(s, q[0]) {
    } else {
      InsertMembers(q[1..], s);
      assert q == [q[0]] + q[1..];
    }
  }

  /** Sorted, with x before everything: prepending keeps the order. */
  lemma Prepend(x: Slot, q: seq<Slot>)
    requires Sorted(q) && forall y :: y in q ==> Less(x, y)
    ensures Sorted([x] + q)
  {
    var r := [x] + q;
    forall i, j | 0 <= i < j < |r| ensures Less(r[i], r[j]) {
      assert r[j] == q[j - 1];
      if i > 0 { assert r[i] == q[i - 1]; }
    }
  }

  lemma FirstIsLess(q: seq<Slot>, k: nat)
    requires Sorted(q) && k < |q|
    ensures k > 0 ==> Less(q[0], q[k])
  {
  }

  lemma {:induction false} InsertSorted(q: seq<Slot>, s: Slot)
    requires Sorted(q) && Before(q, s.seqNo)
    ensures Sorted(Insert(q, s)) && Before(Insert(q, s), s.seqNo + 1)
  {
    if q == [] {
    } else if Less(s, q[0]) {
      forall y | y in q ensures Less(s, y) {
        var k :| 0 <= k < |q| && q[k] == y;
        FirstIsLess(q, k);
      }
      Prepend(s, q);
    } else {
      SortedTail(q);
      InsertSorted(q[1..], s);
      InsertMembers(q[1..], s);
      forall y | y in Insert(q[1..], s) ensures Less(q[0], y) {
        if y in q[1..] {
          var k :| 0 <= k < |q[1..]| && q[1..][k] == y;
          FirstIsLess(q, k + 1);
        }
      }
      Prepend(q[0], Insert(q[1..], s));
    }
  }

  lemma {:induction false} InsertAllSorted(q: seq<Slot>, next: nat, evs: seq<MrEvent>)
    requires Sorted(q) && Before(q, next)
    ensures Sorted(InsertAll(q, next, evs)) && Before(InsertAll(q, next, evs), next + |evs|)
  {
    if evs != [] {
      InsertAllSorted(q, next, evs[..|evs| - 1]);
      InsertSorted(InsertAll(q, next, evs[..|evs| - 1]), Slot(evs[|evs| - 1], next + |evs| - 1));
    }
  }

  /** Slots that arrived with `evs`. */
  ghost predicate Arrived(next: nat, evs: seq<MrEvent>, s: Slot) {
    next <= s.seqNo < next + |evs| && s.ev == evs[s.seqNo - next]
  }

  lemma {:induction false} InsertAllMembers(q: seq<Slot>, next: nat, evs: seq<MrEvent>)
    ensures forall s :: s in InsertAll(q, next, evs) <==> s in q || Arrived(next, evs, s)
  {
    if evs != [] {
      var front, last := evs[..|evs| - 1], Slot(evs[|evs| - 1], next + |evs| - 1);
      InsertAllMembers(q, next, front);
      InsertMembers(InsertAll(q, next, front), last);
      forall s ensures Arrived(next, evs, s) <==> Arrived(next, front, s) || s == last {
      }
    }
  }

  lemma LessTotal(a: Slot, b: Slot)
    ensures Less(a, b) || Less(b, a) || (a.ev.sampleTime == b.ev.sampleTime && a.seqNo == b.seqNo)
    ensures !(Less(a, b) && Less(b, a))
  {
  }

  /** Equal sample times leave in the order of arrival. */
  lemma EqualTimesInArrivalOrder(q: seq<Slot>, i: int, j: int)
    requires Sorted(q) && 0 <= i < j < |q|
    ensures q[i].ev.sampleTime <= q[j].ev.sampleTime
    ensures q[i].ev.sampleTime == q[j].ev.sampleTime ==> q[i].seqNo < q[j].seqNo
  {
    assert Less(q[i], q[j]);
  }

  /** Contents and order determine the queue: two sorted arrangements of the same slots are equal. */
  lemma {:induction false} SortedUnique(p: seq<Slot>, q: seq<Slot>)
    requires Sorted(p) && Sorted(q) && multiset(p) == multiset(q)
    ensures p == q
  {
    if p != [] {
      assert |multiset(p)| == |p| && |multiset(q)| == |q|;
      SameFirst(p, q);
      assert p == [p[0]] + p[1..] && q == [q[0]] + q[1..];
      assert multiset(p[1..]) == multiset(p) - multiset{p[0]};
      assert multiset(q[1..]) == multiset(q) - multiset{q[0]};
      SortedTail(p);
      SortedTail(q);
      SortedUnique(p[1..], q[1..]);
    } else {
      assert |multiset(q)| == 0;
    }
  }

  lemma SortedTail(p: seq<Slot>)
    requires Sorted(p) && p != []
    ensures Sorted(p[1..])
  {
    forall i, j | 0 <= i < j < |p[1..]| ensures Less(p[1..][i], p[1..][j]) {
      assert Less(p[i + 1], p[j + 1]);
    }
  }

  lemma SameFirst(p: seq<Slot>, q: seq<Slot>)
    requires Sorted(p) && Sorted(q) && multiset(p) == multiset(q) && |p| == |q| > 0
    ensures p[0] == q[0]
  {
    assert p[0] in multiset(q) && q[0] in multiset(p);
    var i :| 0 <= i < |q| && q[i] == p[0];
    var j :| 0 <= j < |p| && p[j] == q[0];
    FirstIsLess(q, i);
    FirstIsLess(p, j);
    LessTotal(p[0], q[0]);
  }
}
