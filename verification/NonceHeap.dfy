/**
 * The binary heap of nonces in the pools: `nonceHeap` (core/pool/ele_list.go) under the sift loops of the library
 * functions `heap.Init`, `heap.Push`, `heap.Pop` and `heap.Remove` that work through it.
 */
module NonceHeaps {

  function Parent(k: nat): nat
    requires k > 0
  {
    (k - 1) / 2
  }

  /** No smaller than its parent. */
  ghost predicate AboveParent(h: seq<nat>, k: nat)
    requires 0 < k < |h|
  {
    h[Parent(k)] <= h[k]
  }

  /** The first `n` nonces form a heap. */
  ghost predicate IsHeap(h: seq<nat>, n: nat)
    requires n <= |h|
  {
    forall k :: 0 < k < n ==> AboveParent(h, k)
  }

  /** The top of a heap is the smallest nonce. */
  lemma {:induction false} HeapMin(h: seq<nat>, n: nat, i: nat)
    requires i < n <= |h| && IsHeap(h, n)
    ensures h[0] <= h[i]
  {
    if i > 0 {
      assert AboveParent(h, i);
      HeapMin(h, n, Parent(i));
    }
  }

  ghost function Swapped(h: seq<nat>, i: nat, j: nat): seq<nat>
    requires i < |h| && j < |h|
  {
    h[i := h[j]][j := h[i]]
  }

  lemma {:induction false} SwappedSame(h: seq<nat>, i: nat, j: nat)
    requires i < |h| && j < |h|
    ensures |Swapped(h, i, j)| == |h| && multiset(Swapped(h, i, j)) == multiset(h)
    ensures forall n :: i < n <= |h| && j < n ==> Swapped(h, i, j)[n..] == h[n..]
  {
  }

  // ---------------------------------------------------------------- moving up

  /** A heap, except that `j` may be too small; what lies below `j` is no smaller than the parent of `j`. */
  ghost predicate TooLow(h: seq<nat>, n: nat, j: nat)
    requires n <= |h|
  {
    forall k :: 0 < k < n ==>
      && (k != j ==> AboveParent(h, k))
      && (j > 0 && Parent(k) == j ==> h[Parent(j)] <= h[k])
  }

  lemma {:induction false} UpStep(h: seq<nat>, n: nat, j: nat)
    requires 0 < j < n <= |h| && TooLow(h, n, j) && !AboveParent(h, j)
    ensures TooLow(Swapped(h, Parent(j), j), n, Parent(j))
  {
    var i := Parent(j);
    var g := Swapped(h, i, j);
    assert i > 0 ==> AboveParent(h, i);
    forall k | 0 < k < n
      ensures k != i ==> AboveParent(g, k)
      ensures i > 0 && Parent(k) == i ==> g[Parent(i)] <= g[k]
    {
      assert k != j ==> AboveParent(h, k);
    }
  }

  // ---------------------------------------------------------------- moving down

  /**
   * Among the first `n` nonces, pairs of a parent from `lo` on and its child are in order, except that `i` may be too
   * large for its children, and, if `top`, too small for its parent; the children of `i` are no smaller than its parent.
   */
  ghost predicate TooHigh(h: seq<nat>, n: nat, lo: nat, i: nat, top: bool)
    requires n <= |h|
  {
    forall k :: 0 < k < n && Parent(k) >= lo ==>
      && (Parent(k) != i && !(top && k == i) ==> AboveParent(h, k))
      && (Parent(k) == i && i > 0 && Parent(i) >= lo ==> h[Parent(i)] <= h[k])
  }

  /** In order from `lo` on, except that `but` may be too small for its parent. */
  ghost predicate HeapFrom(h: seq<nat>, n: nat, lo: nat, but: int)
    requires n <= |h|
  {
    forall k :: 0 < k < n && Parent(k) >= lo && k != but ==> AboveParent(h, k)
  }

  /** The smaller child of `i` changes places with it. */
  lemma {:induction false} DownStep(h: seq<nat>, n: nat, lo: nat, i: nat, top: bool, j: nat)
    requires lo <= i < j < n <= |h| && Parent(j) == i && TooHigh(h, n, lo, i, top) && !AboveParent(h, j)
    requires forall k :: 0 < k < n && Parent(k) == i ==> h[j] <= h[k]
    ensures TooHigh(Swapped(h, i, j), n, lo, j, false)
  {
    var g := Swapped(h, i, j);
    forall k | 0 < k < n && Parent(k) >= lo
      ensures Parent(k) != j ==> AboveParent(g, k)
      ensures Parent(k) == j ==> g[Parent(j)] <= g[k]
    {
      assert Parent(k) != i && !(top && k == i) ==> AboveParent(h, k);
    }
  }

  lemma {:induction false} DownDone(h: seq<nat>, n: nat, lo: nat, i: nat, top: bool)
    requires n <= |h| && TooHigh(h, n, lo, i, top) && forall k :: 0 < k < n && Parent(k) == i ==> h[i] <= h[k]
    ensures HeapFrom(h, n, lo, if top then i else -1)
  {
  }

  class NonceHeap {
    var h: seq<nat>

    constructor ()
      ensures h == []
    {
      h := [];
    }

    predicate Less(i: nat, j: nat)
      requires i < |h| && j < |h|
      reads this
    {
      h[i] < h[j]
    }

    method Swap(i: nat, j: nat)
      requires i < |h| && j < |h|
      modifies this
      ensures h == Swapped(old(h), i, j)
    {
      h := h[i := h[j]][j := h[i]];
    }

    /** `Push` of the heap interface. */
    method Push(x: nat)
      modifies this
      ensures h == old(h) + [x]
    {
      h := h + [x];
    }

    /** `Pop` of the heap interface: the last nonce goes. */
    method Pop() returns (x: nat)
      requires h != []
      modifies this
      ensures old(h) == h + [x]
    {
      x := h[|h| - 1];
      h := h[..|h| - 1];
    }

    /** Sift a nonce up until its parent is no larger. */
    method Up(start: nat, n: nat)
      requires start < n <= |h| && TooLow(h, n, start)
      modifies this
      ensures |h| == |old(h)| && IsHeap(h, n) && multiset(h) == multiset(old(h)) && h[n..] == old(h)[n..]
    {
      hide TooLow, Swapped;
      var j: nat := start;
      while j > 0 && Less(j, Parent(j))
        invariant 0 <= j < n <= |h| == |old(h)| && TooLow(h, n, j) && multiset(h) == multiset(old(h)) && h[n..] == old(h)[n..]
        decreases j
      {
        UpStep(h, n, j);
        SwappedSame(h, Parent(j), j);
        Swap(Parent(j), j);
        j := Parent(j);
      }
      UpDone(h, n, j);
    }

    /** Sift a nonce down until its children are no smaller; says whether it moved. */
    method Down(start: nat, n: nat, ghost lo: nat) returns (moved: bool)
      requires lo <= start < |h| && n <= |h| && TooHigh(h, n, lo, start, true)
      modifies this
      ensures |h| == |old(h)| && multiset(h) == multiset(old(h)) && h[n..] == old(h)[n..]
      ensures HeapFrom(h, n, lo, if moved then -1 else start) && (!moved ==> h == old(h))
    {
      hide TooHigh, Swapped, HeapFrom;
      var i := start;
      while 2 * i + 1 < n
        invariant start <= i < |h| == |old(h)| && TooHigh(h, n, lo, i, i == start) && (i == start ==> h == old(h))
        invariant multiset(h) == multiset(old(h)) && h[n..] == old(h)[n..]
        decreases n - i
      {
        var j := 2 * i + 1;
        if j + 1 < n && Less(j + 1, j) {
          j := j + 1;
        }
        if !Less(j, i) {
          break;
        }
        DownStep(h, n, lo, i, i == start, j);
        SwappedSame(h, i, j);
        Swap(i, j);
        i := j;
      }
      DownDone(h, n, lo, i, i == start);
      return i > start;
    }

    /** `heap.Init`: sift every parent down, the last one first. */
    method HeapInit()
      modifies this
      ensures |h| == |old(h)| && IsHeap(h, |h|) && multiset(h) == multiset(old(h))
    {
      hide TooHigh;
      var n := |h|;
      for i := n / 2 downto 0
        invariant |h| == n && HeapFrom(h, n, i, -1) && multiset(h) == multiset(old(h))
      {
        InitStep(h, n, i);
        var moved := Down(i, n, i);
      }
    }

    /** `heap.Push`: append and sift up. */
    method HeapPush(x: nat)
      requires IsHeap(h, |h|)
      modifies this
      ensures IsHeap(h, |h|) && multiset(h) == multiset(old(h)) + multiset{x}
    {
      hide TooLow;
      PushStart(h, x);
      Push(x);
      Up(|h| - 1, |h|);
    }

    /** `heap.Pop`: the last nonce takes the place of the top and sifts down. */
    method HeapPop() returns (x: nat)
      requires h != [] && IsHeap(h, |h|)
      modifies this
      ensures IsHeap(h, |h|) && x == old(h)[0] && multiset(h) + multiset{x} == multiset(old(h))
    {
      hide TooHigh, Swapped;
      var n := |h| - 1;
      RemoveStart(h, 0);
      Swap(0, n);
      var moved := Down(0, n, 0);
      ghost var g := h;
      x := Pop();
      PopEnd(old(h), g, h, x, 0);
    }

    /** `heap.Remove`: the last nonce takes the place and sifts down or up. */
    method HeapRemove(i: nat) returns (x: nat)
      requires i < |h| && IsHeap(h, |h|)
      modifies this
      ensures IsHeap(h, |h|) && x == old(h)[i] && multiset(h) + multiset{x} == multiset(old(h))
    {
      hide TooHigh, TooLow, Swapped;
      var n := |h| - 1;
      if n != i {
        RemoveStart(h, i);
        Swap(i, n);
        var moved := Down(i, n, 0);
        if !moved {
          Lifted(h, n, i);
          Up(i, n);
        }
      }
      ghost var g := h;
      x := Pop();
      PopEnd(old(h), g, h, x, i);
    }
  }

  lemma {:induction false} UpDone(h: seq<nat>, n: nat, j: nat)
    requires j < n <= |h| && TooLow(h, n, j) && (j > 0 ==> AboveParent(h, j))
    ensures IsHeap(h, n)
  {
  }

  lemma {:induction false} InitStep(h: seq<nat>, n: nat, i: nat)
    requires n <= |h| && HeapFrom(h, n, i + 1, -1)
    ensures TooHigh(h, n, i, i, true)
  {
  }

  lemma {:induction false} PushStart(h: seq<nat>, x: nat)
    requires IsHeap(h, |h|)
    ensures TooLow(h + [x], |h| + 1, |h|)
  {
    forall k | 0 < k < |h| + 1 && k != |h|
      ensures AboveParent(h + [x], k)
    {
      assert AboveParent(h, k);
    }
  }

  /** The last nonce has taken the place of `i`: it may be too large or too small there. */
  lemma {:induction false} RemoveStart(h: seq<nat>, i: nat)
    requires i < |h| && IsHeap(h, |h|)
    ensures TooHigh(Swapped(h, i, |h| - 1), |h| - 1, 0, i, true)
    ensures |Swapped(h, i, |h| - 1)| == |h| && Swapped(h, i, |h| - 1)[|h| - 1] == h[i] && multiset(Swapped(h, i, |h| - 1)) == multiset(h)
  {
    var n := |h| - 1;
    var g := Swapped(h, i, n);
    forall k | 0 < k < n
      ensures Parent(k) != i && k != i ==> AboveParent(g, k)
      ensures Parent(k) == i && i > 0 ==> g[Parent(i)] <= g[k]
    {
      assert AboveParent(h, k) && (i > 0 ==> AboveParent(h, i));
    }
  }

  /** It did not move down: it may still be too small. */
  lemma {:induction false} Lifted(h: seq<nat>, n: nat, i: nat)
    requires n <= |h| && TooHigh(h, n, 0, i, true) && HeapFrom(h, n, 0, i)
    ensures TooLow(h, n, i)
  {
  }

  lemma {:induction false} PopEnd(was: seq<nat>, g: seq<nat>, h: seq<nat>, x: nat, i: nat)
    requires i < |was| == |g| && g == h + [x] && multiset(g) == multiset(was) && g[|h|..] == [was[i]] && IsHeap(g, |h|)
    ensures IsHeap(h, |h|) && x == was[i] && multiset(h) + multiset{x} == multiset(was)
  {
    assert g[|h|] == x;
    forall k | 0 < k < |h|
      ensures AboveParent(h, k)
    {
      assert AboveParent(g, k);
    }
  }
}
