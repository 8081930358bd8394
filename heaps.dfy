/**
 * The binary min-heap that Go's container/heap package maintains over a slice.
 * The simulator uses it three times: pQueue (ordered by GetCmpVal), ReqHeap
 * (ordered by remaining service time) and the kernel's event priorityQueue
 * (ordered by event time). Each of those types supplies only Len/Less/Swap and
 * a Push that appends at the end and a Pop that removes the last slot; the
 * sifting is container/heap's `up` and `down`, written out here.
 */
module Heaps {

  /** Slot i (not the root) is no smaller than its parent. */
  ghost predicate ParentOrdered<T>(s: seq<T>, key: T -> real, i: nat)
    requires 0 < i < |s|
  {
    key(s[(i - 1) / 2]) <= key(s[i])
  }

  /** Heap order over a sequence: no element is smaller than its parent. */
  ghost predicate IsHeap<T>(s: seq<T>, key: T -> real)
  {
    forall i :: 0 < i < |s| ==> ParentOrdered(s, key, i)
  }

  /** Heap order except possibly between slot j and its parent (sifting up from j). */
  ghost predicate HeapExceptUp<T>(s: seq<T>, key: T -> real, j: nat)
  {
    j < |s| &&
    (forall i :: 0 < i < |s| && i != j ==> ParentOrdered(s, key, i)) &&
    (j > 0 ==> forall c :: 0 < c < |s| && (c - 1) / 2 == j ==> key(s[(j - 1) / 2]) <= key(s[c]))
  }

  /** Heap order except possibly between slot i and its children (sifting down from i). */
  ghost predicate HeapExceptDown<T>(s: seq<T>, key: T -> real, i: nat)
  {
    i < |s| &&
    (forall k :: 0 < k < |s| && (k - 1) / 2 != i ==> ParentOrdered(s, key, k)) &&
    (i > 0 ==> forall c :: 0 < c < |s| && (c - 1) / 2 == i ==> key(s[(i - 1) / 2]) <= key(s[c]))
  }

  /** Swapping two slots keeps the stored multiset. */
  function Swap<T>(s: seq<T>, i: nat, j: nat): (r: seq<T>)
    requires i < |s| && j < |s|
    ensures |r| == |s| && r[i] == s[j] && r[j] == s[i]
    ensures forall k :: 0 <= k < |s| && k != i && k != j ==> r[k] == s[k]
    ensures multiset(r) == multiset(s)
  {
    s[i := s[j]][j := s[i]]
  }

  /** In a heap the root has the least key. */
  lemma {:induction false} RootIsMinimal<T>(s: seq<T>, key: T -> real, k: nat)
    requires IsHeap(s, key) && k < |s|
    ensures key(s[0]) <= key(s[k])
    decreases k
  {
    if k > 0 {
      assert ParentOrdered(s, key, k);
      RootIsMinimal(s, key, (k - 1) / 2);
    }
  }

  /** One exchange of container/heap's `up` moves the defect one level up. */
  lemma {:induction false} SiftUpStep<T>(s: seq<T>, key: T -> real, j: nat)
    requires HeapExceptUp(s, key, j) && j > 0
    requires key(s[j]) < key(s[(j - 1) / 2])
    ensures HeapExceptUp(Swap(s, (j - 1) / 2, j), key, (j - 1) / 2)
  {
    var p := (j - 1) / 2;
    var r := Swap(s, p, j);
    forall i | 0 < i < |r| && i != p ensures ParentOrdered(r, key, i) {
      var q := (i - 1) / 2;
      if i == j {
      } else if q == j {
        // a child of j: its new parent is the old parent of j
        assert key(s[p]) <= key(s[i]);
      } else if q == p {
        // the sibling of j
        assert ParentOrdered(s, key, i);
      } else {
        assert ParentOrdered(s, key, i);
      }
    }
    if p > 0 {
      forall c | 0 < c < |r| && (c - 1) / 2 == p ensures key(r[(p - 1) / 2]) <= key(r[c]) {
        assert ParentOrdered(s, key, p);
        if c != j {
          assert ParentOrdered(s, key, c);
        }
      }
    }
  }

  /** One exchange of container/heap's `down` moves the defect one level down. */
  lemma {:induction false} SiftDownStep<T>(s: seq<T>, key: T -> real, i: nat, j: nat)
    requires HeapExceptDown(s, key, i)
    requires 0 < j < |s| && (j - 1) / 2 == i
    requires forall c :: 0 < c < |s| && (c - 1) / 2 == i ==> key(s[j]) <= key(s[c])
    requires key(s[j]) < key(s[i])
    ensures HeapExceptDown(Swap(s, i, j), key, j)
  {
    var r := Swap(s, i, j);
    forall k | 0 < k < |r| && (k - 1) / 2 != j ensures ParentOrdered(r, key, k) {
      var q := (k - 1) / 2;
      if k == i {
        assert key(s[(i - 1) / 2]) <= key(s[j]);
      } else if k == j {
      } else if q == i {
        assert key(s[j]) <= key(s[k]);
      } else {
        assert ParentOrdered(s, key, k);
      }
    }
    forall c | 0 < c < |r| && (c - 1) / 2 == j ensures key(r[(j - 1) / 2]) <= key(r[c]) {
      assert ParentOrdered(s, key, c);
    }
  }

  class Heap<T> {
    /** The order: Less(i, j) is key(elems[i]) < key(elems[j]). */
    const key: T -> real
    /** The underlying slice. */
    var elems: seq<T>

    ghost predicate Valid()
      reads this
    {
      IsHeap(elems, key)
    }

    /** heap.Init on an empty slice. */
    constructor (key: T -> real)
      ensures this.key == key && elems == [] && Valid()
    {
      this.key := key;
      elems := [];
    }

    function Len(): (n: nat)
      reads this
      ensures n == |elems|
    {
      |elems|
    }

    /** heap.Push: append at the end (the slice type's Push), then sift up. */
    method Push(x: T)
      requires Valid()
      modifies this
      ensures Valid()
      ensures multiset(elems) == old(multiset(elems)) + multiset{x}
      ensures |elems| == old(|elems|) + 1
    {
      ghost var s0 := elems;
      elems := elems + [x];
      var j: nat := |elems| - 1;
      forall i | 0 < i < |elems| && i != j ensures ParentOrdered(elems, key, i) {
        assert ParentOrdered(s0, key, i);
      }
      while j > 0 && key(elems[j]) < key(elems[(j - 1) / 2])
        invariant HeapExceptUp(elems, key, j)
        invariant multiset(elems) == old(multiset(elems)) + multiset{x}
        invariant |elems| == old(|elems|) + 1
        decreases j
      {
        var p := (j - 1) / 2;
        SiftUpStep(elems, key, j);
        elems := Swap(elems, p, j);
        j := p;
      }
      forall i | 0 < i < |elems| ensures ParentOrdered(elems, key, i) {
      }
    }

    /** container/heap's `down` from slot i over the whole slice. */
    method SiftDown(i0: nat)
      requires HeapExceptDown(elems, key, i0)
      modifies this
      ensures Valid()
      ensures multiset(elems) == old(multiset(elems)) && |elems| == old(|elems|)
    {
      var i: nat := i0;
      while true
        invariant HeapExceptDown(elems, key, i)
        invariant multiset(elems) == old(multiset(elems)) && |elems| == old(|elems|)
        decreases |elems| - i
      {
        var j1 := 2 * i + 1;
        if j1 >= |elems| {
          forall k | 0 < k < |elems| ensures ParentOrdered(elems, key, k) {
          }
          break;
        }
        var j: nat := j1;
        if j1 + 1 < |elems| && key(elems[j1 + 1]) < key(elems[j1]) {
          j := j1 + 1;
        }
        forall c | 0 < c < |elems| && (c - 1) / 2 == i ensures key(elems[j]) <= key(elems[c]) {
          assert c == j1 || c == j1 + 1;
        }
        if !(key(elems[j]) < key(elems[i])) {
          forall k | 0 < k < |elems| ensures ParentOrdered(elems, key, k) {
          }
          break;
        }
        SiftDownStep(elems, key, i, j);
        elems := Swap(elems, i, j);
        i := j;
      }
    }

    /**
     * heap.Pop: swap the root with the last slot, remove the last slot (the
     * slice type's Pop) and sift the new root down. Go sifts before shrinking
     * the slice but only within the first n-1 slots, so the order of the two
     * steps does not matter. Popping an empty heap is an index fault in Go.
     */
    method Pop() returns (x: T)
      requires Valid() && |elems| > 0
      modifies this
      ensures Valid()
      ensures x == old(elems[0])
      ensures forall y :: y in old(elems) ==> key(x) <= key(y)
      ensures multiset(elems) + multiset{x} == old(multiset(elems))
      ensures |elems| == old(|elems|) - 1
    {
      forall y | y in elems ensures key(elems[0]) <= key(y) {
        var k :| 0 <= k < |elems| && elems[k] == y;
        RootIsMinimal(elems, key, k);
      }
      ghost var s0 := elems;
      var n := |elems| - 1;
      elems := Swap(elems, 0, n);
      x := elems[n];
      ghost var s1 := elems;
      elems := elems[..n];
      assert s1 == elems + [x];
      if n > 0 {
        forall k | 0 < k < |elems| && (k - 1) / 2 != 0 ensures ParentOrdered(elems, key, k) {
          assert ParentOrdered(s0, key, k);
        }
        SiftDown(0);
      }
    }
  }
}
