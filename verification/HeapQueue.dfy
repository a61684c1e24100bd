/** Python's `heapq` on a list, ordered by due time only: entries due at the same time may leave in any order. */
module HeapQueue {

  /** An item and when it is due. */
  datatype Timed<T> = Timed(when: real, item: T)

  function Parent(k: nat): nat
    requires k > 0
  {
    (k - 1) / 2
  }

  /** No entry is due before its parent. */
  ghost predicate IsHeap<T>(h: seq<Timed<T>>) {
    HeapFrom(h, 0)
  }

  /** The order holds below every parent from `lo` on. */
  ghost predicate HeapFrom<T>(h: seq<Timed<T>>, lo: nat) {
    forall k :: 0 < k < |h| && Parent(k) >= lo ==> h[Parent(k)].when <= h[k].when
  }

  /** The root is due first. */
  lemma {:induction false} RootFirst<T>(h: seq<Timed<T>>, k: nat)
    requires IsHeap(h) && k < |h|
    ensures h[0].when <= h[k].when
  {
    if k > 0 {
      RootFirst(h, Parent(k));
    }
  }

  lemma SwapKeeps<T>(h: seq<T>, i: nat, j: nat)
    requires i < |h| && j < |h|
    ensures multiset(h[i := h[j]][j := h[i]]) == multiset(h)
  {
  }

  /** As a heap that grows upwards from a new last entry at `i`. */
  ghost predicate RisesAt<T>(h: seq<Timed<T>>, i: nat) {
    && (forall k :: 0 < k < |h| && k != i ==> h[Parent(k)].when <= h[k].when)
    && (forall k :: 0 < k < |h| && Parent(k) == i && i > 0 ==> h[Parent(i)].when <= h[k].when)
  }

  lemma RiseStep<T>(h: seq<Timed<T>>, i: nat, p: nat)
    requires 0 < i < |h| && p == Parent(i) && RisesAt(h, i) && h[p].when > h[i].when
    ensures RisesAt(h[i := h[p]][p := h[i]], p)
  {
    var g := h[i := h[p]][p := h[i]];
    forall k | 0 < k < |g| && k != p
      ensures g[Parent(k)].when <= g[k].when
    {
      assert h[Parent(k)].when <= h[k].when || k == i;
    }
    forall k | 0 < k < |g| && Parent(k) == p && p > 0
      ensures g[Parent(p)].when <= g[k].when
    {
      assert h[Parent(p)].when <= h[p].when;
      assert k == i || h[p].when <= h[k].when;
    }
  }

  /** `heappush` */
  method HeapPush<T(==)>(h: seq<Timed<T>>, entry: Timed<T>) returns (r: seq<Timed<T>>)
    requires IsHeap(h)
    ensures IsHeap(r) && multiset(r) == multiset(h) + multiset{entry}
  {
    r := h + [entry];
    var i := |h|;
    while i > 0 && r[Parent(i)].when > r[i].when
      invariant 0 <= i < |r| && RisesAt(r, i)
      invariant multiset(r) == multiset(h) + multiset{entry}
    {
      RiseStep(r, i, Parent(i));
      SwapKeeps(r, i, Parent(i));
      r := r[i := r[Parent(i)]][Parent(i) := r[i]];
      i := Parent(i);
    }
  }

  /** In order from `lo` on, except that the entry at `i` may be due too late for its place. */
  ghost predicate SinksAt<T>(h: seq<Timed<T>>, lo: nat, i: nat) {
    && (forall k :: 0 < k < |h| && Parent(k) >= lo && Parent(k) != i ==> h[Parent(k)].when <= h[k].when)
    && (forall k :: 0 < k < |h| && Parent(k) == i && i > 0 && Parent(i) >= lo ==> h[Parent(i)].when <= h[k].when)
  }

  /** The child of `i` that is due first, or `i` itself when neither is due before it. */
  function Sink<T>(h: seq<Timed<T>>, i: nat): (j: nat)
    requires i < |h|
    ensures j < |h| && (j == i || (j > 0 && Parent(j) == i && h[j].when < h[i].when))
    ensures forall k :: 0 < k < |h| && Parent(k) == i ==> h[j].when <= h[k].when
  {
    var left, right := 2 * i + 1, 2 * i + 2;
    var a := if left < |h| && h[left].when < h[i].when then left else i;
    var b := if right < |h| && h[right].when < h[a].when then right else a;
    assert forall k :: 0 < k < |h| && Parent(k) == i ==> k == left || k == right;
    b
  }

  lemma SinkStep<T>(h: seq<Timed<T>>, lo: nat, i: nat, j: nat)
    requires i < |h| && SinksAt(h, lo, i) && j == Sink(h, i) && j != i && lo <= i
    ensures SinksAt(h[i := h[j]][j := h[i]], lo, j)
  {
    var g := h[i := h[j]][j := h[i]];
    forall k | 0 < k < |g| && Parent(k) >= lo && Parent(k) != j
      ensures g[Parent(k)].when <= g[k].when
    {
      if k == i {
        assert h[Parent(i)].when <= h[j].when;
      } else if Parent(k) == i {
        assert h[j].when <= h[k].when;
      } else {
        assert h[Parent(k)].when <= h[k].when;
      }
    }
    forall k | 0 < k < |g| && Parent(k) == j
      ensures g[Parent(j)].when <= g[k].when
    {
      assert h[j].when <= h[k].when;
    }
  }

  method SiftDown<T(==)>(h: seq<Timed<T>>, lo: nat, at: nat) returns (r: seq<Timed<T>>)
    requires at < |h| && lo <= at && SinksAt(h, lo, at)
    ensures HeapFrom(r, lo) && multiset(r) == multiset(h)
  {
    r := h;
    var i := at;
    while Sink(r, i) != i
      invariant lo <= i < |r| == |h| && SinksAt(r, lo, i) && multiset(r) == multiset(h)
      decreases |r| - i
    {
      var j := Sink(r, i);
      SinkStep(r, lo, i, j);
      SwapKeeps(r, i, j);
      r := r[i := r[j]][j := r[i]];
      i := j;
    }
  }

  lemma LastToFront<T>(h: seq<Timed<T>>, rest: seq<Timed<T>>)
    requires |h| > 1 && rest == h[..|h| - 1][0 := h[|h| - 1]]
    ensures multiset(h) == multiset(rest) + multiset{h[0]}
    ensures IsHeap(h) ==> SinksAt(rest, 0, 0)
  {
    var n := |h| - 1;
    assert h == h[..n] + [h[n]];
    assert h[..n] == [h[0]] + h[1..n] && rest == [h[n]] + h[1..n];
  }

  /** `heappop` */
  method HeapPop<T(==)>(h: seq<Timed<T>>) returns (entry: Timed<T>, r: seq<Timed<T>>)
    requires IsHeap(h) && h != []
    ensures entry == h[0] && (forall e :: e in h ==> entry.when <= e.when)
    ensures IsHeap(r) && multiset(h) == multiset(r) + multiset{entry}
    ensures |r| == |h| - 1
  {
    entry := h[0];
    forall e | e in h
      ensures entry.when <= e.when
    {
      var k :| 0 <= k < |h| && h[k] == e;
      RootFirst(h, k);
    }
    var n := |h| - 1;
    if n == 0 {
      assert h == [entry];
      return entry, [];
    }
    var rest := h[..n][0 := h[n]];
    LastToFront(h, rest);
    r := SiftDown(rest, 0, 0);
    assert |multiset(r)| == |multiset(h)| - 1;
  }

  /** `heapify` */
  method Heapify<T(==)>(h: seq<Timed<T>>) returns (r: seq<Timed<T>>)
    ensures IsHeap(r) && multiset(r) == multiset(h)
  {
    r := h;
    var i := |h| / 2;
    while i > 0
      invariant 0 <= i <= |h| == |r| && HeapFrom(r, i) && multiset(r) == multiset(h)
    {
      i := i - 1;
      r := SiftDown(r, i, i);
      assert |r| == |multiset(r)| == |multiset(h)|;
    }
  }
}
