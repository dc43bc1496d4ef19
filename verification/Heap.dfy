/** Binary heaps as container/heap keeps them, over the Less and Swap of a slice. */
module Heap {
  ghost predicate Ordering<T(!new)>(less: (T, T) -> bool) {
    && (forall a :: !less(a, a))
    && (forall a, b :: less(a, b) ==> !less(b, a))
    && (forall a, b, c {:trigger less(a, b), less(b, c)} {:trigger less(a, c), less(a, b)} ::
          !less(a, b) && !less(b, c) ==> !less(a, c))
  }

  function Parent(i: nat): nat {
    if i == 0 then 0 else (i - 1) / 2
  }

  /** Among the first n elements, each one but the exception is no less than its parent. */
  ghost predicate Ordered<T>(less: (T, T) -> bool, s: seq<T>, n: nat, exception: int) {
    n <= |s| && forall i :: 0 < i < n && i != exception ==> !less(s[i], s[Parent(i)])
  }

  /** Among the first n elements, each one but hole and its children is no less than its parent. */
  ghost predicate OrderedAround<T>(less: (T, T) -> bool, s: seq<T>, n: nat, hole: nat) {
    n <= |s| && forall i :: 0 < i < n && i != hole && Parent(i) != hole ==> !less(s[i], s[Parent(i)])
  }

  /** The children of hole are no less than its parent. */
  ghost predicate Bridged<T>(less: (T, T) -> bool, s: seq<T>, n: nat, hole: nat) {
    n <= |s| && hole <= |s| && forall i :: 0 < i < n && Parent(i) == hole && 0 < hole ==> !less(s[i], s[Parent(hole)])
  }

  ghost predicate IsHeap<T>(less: (T, T) -> bool, s: seq<T>) {
    Ordered(less, s, |s|, 0)
  }

  function Swapped<T>(s: seq<T>, i: nat, j: nat): (r: seq<T>)
    requires i < |s| && j < |s|
    ensures |r| == |s|
  {
    s[i := s[j]][j := s[i]]
  }

  lemma SwapKeeps<T>(s: seq<T>, i: nat, j: nat)
    requires i < |s| && j < |s|
    ensures multiset(Swapped(s, i, j)) == multiset(s)
  {
  }

  lemma {:induction false} RootIsLeast<T(!new)>(less: (T, T) -> bool, s: seq<T>, i: nat)
    requires Ordering(less) && IsHeap(less, s) && i < |s|
    ensures !less(s[i], s[0])
    decreases i
  {
    if i > 0 {
      RootIsLeast(less, s, Parent(i));
      assert !less(s[i], s[Parent(i)]);
    }
  }

  lemma UpStep<T(!new)>(less: (T, T) -> bool, s: seq<T>, j: nat)
    requires Ordering(less) && 0 < j < |s| && less(s[j], s[Parent(j)])
    requires Ordered(less, s, |s|, j) && Bridged(less, s, |s|, j)
    ensures var r := Swapped(s, Parent(j), j);
            Ordered(less, r, |s|, Parent(j)) && Bridged(less, r, |s|, Parent(j))
  {
    var p := Parent(j);
    var r := Swapped(s, p, j);
    forall i | 0 < i < |s| && i != p
      ensures !less(r[i], r[Parent(i)])
    {
      if i != j && Parent(i) == p {
        assert !less(s[i], s[p]) && !less(s[p], s[j]);
      }
    }
    forall i | 0 < i < |s| && Parent(i) == p && 0 < p
      ensures !less(r[i], r[Parent(p)])
    {
      assert !less(s[p], s[Parent(p)]);
      if i != j {
        assert !less(s[i], s[p]);
      }
    }
  }

  /** The child of i that down compares with i: the right one only if it is less than the left one. */
  function LesserChild<T>(less: (T, T) -> bool, s: seq<T>, n: nat, i: nat): nat
    requires 2 * i + 1 < n <= |s|
  {
    if 2 * i + 2 < n && less(s[2 * i + 2], s[2 * i + 1]) then 2 * i + 2 else 2 * i + 1
  }

  lemma DownStep<T(!new)>(less: (T, T) -> bool, s: seq<T>, n: nat, i: nat)
    requires Ordering(less) && 2 * i + 1 < n <= |s|
    requires OrderedAround(less, s, n, i) && Bridged(less, s, n, i)
    requires less(s[LesserChild(less, s, n, i)], s[i])
    ensures var j := LesserChild(less, s, n, i);
            var r := Swapped(s, i, j);
            OrderedAround(less, r, n, j) && Bridged(less, r, n, j) && !less(r[j], r[Parent(j)])
  {
    var j := LesserChild(less, s, n, i);
    var r := Swapped(s, i, j);
    assert Parent(j) == i;
    forall k | 0 < k < n && k != j && Parent(k) != j
      ensures !less(r[k], r[Parent(k)])
    {
      if Parent(k) == i {
        assert k == 2 * i + 1 || k == 2 * i + 2;
      } else if k == i {
        assert !less(s[j], s[Parent(i)]);
      }
    }
    forall k | 0 < k < n && Parent(k) == j
      ensures !less(r[k], r[Parent(j)])
    {
      assert !less(s[k], s[j]);
    }
  }

  lemma DownStops<T(!new)>(less: (T, T) -> bool, s: seq<T>, n: nat, i: nat)
    requires Ordering(less) && i <= n <= |s| && OrderedAround(less, s, n, i)
    requires 2 * i + 1 < n ==> !less(s[LesserChild(less, s, n, i)], s[i])
    ensures Ordered(less, s, n, i)
  {
    forall k | 0 < k < n && k != i
      ensures !less(s[k], s[Parent(k)])
    {
      if Parent(k) == i {
        assert k == 2 * i + 1 || k == 2 * i + 2;
        var j := LesserChild(less, s, n, i);
        assert !less(s[k], s[j]) && !less(s[j], s[i]);
      }
    }
  }

  /** Moving the element at j up until its parent is not greater. */
  function SiftUp<T>(less: (T, T) -> bool, s: seq<T>, j: nat): (r: seq<T>)
    requires j < |s|
    ensures |r| == |s|
    decreases j
  {
    if j == 0 || !less(s[j], s[Parent(j)]) then s
    else SiftUp(less, Swapped(s, Parent(j), j), Parent(j))
  }

  predicate Sinks<T>(less: (T, T) -> bool, s: seq<T>, n: nat, i: nat)
    requires i <= n <= |s|
  {
    2 * i + 1 < n && less(s[LesserChild(less, s, n, i)], s[i])
  }

  /** Moving the element at i down, among the first n, until no child is less. */
  function SiftDown<T>(less: (T, T) -> bool, s: seq<T>, n: nat, i: nat): (r: seq<T>)
    requires i <= n <= |s|
    ensures |r| == |s|
    decreases n - i
  {
    if !Sinks(less, s, n, i) then s
    else
      var j := LesserChild(less, s, n, i);
      SiftDown(less, Swapped(s, i, j), n, j)
  }

  /** The slice after heap.Push. */
  function Pushed<T>(less: (T, T) -> bool, s: seq<T>, x: T): seq<T> {
    SiftUp(less, s + [x], |s|)
  }

  /** The slice after heap.Pop; what it returns is the first element. */
  function Popped<T>(less: (T, T) -> bool, s: seq<T>): (r: seq<T>)
    requires |s| > 0
    ensures |r| == |s| - 1
  {
    SiftDown(less, Swapped(s, 0, |s| - 1), |s| - 1, 0)[..|s| - 1]
  }

  /** The slice after the element at i becomes x and heap.Fix is called there. */
  function Fixed<T>(less: (T, T) -> bool, s: seq<T>, i: nat, x: T): (r: seq<T>)
    requires i < |s|
    ensures |r| == |s|
  {
    var changed := s[i := x];
    if Sinks(less, changed, |s|, i) then SiftDown(less, changed, |s|, i) else SiftUp(less, changed, i)
  }

  lemma {:induction false} SiftUpOk<T(!new)>(less: (T, T) -> bool, s: seq<T>, j: nat)
    requires Ordering(less) && j < |s| && Ordered(less, s, |s|, j) && Bridged(less, s, |s|, j)
    ensures IsHeap(less, SiftUp(less, s, j)) && multiset(SiftUp(less, s, j)) == multiset(s)
    decreases j
  {
    if j > 0 && less(s[j], s[Parent(j)]) {
      UpStep(less, s, j);
      SwapKeeps(s, Parent(j), j);
      SiftUpOk(less, Swapped(s, Parent(j), j), Parent(j));
    }
  }

  lemma {:induction false} SiftDownKeeps<T>(less: (T, T) -> bool, s: seq<T>, n: nat, i: nat)
    requires i <= n <= |s|
    ensures multiset(SiftDown(less, s, n, i)) == multiset(s) && SiftDown(less, s, n, i)[n..] == s[n..]
    decreases n - i
  {
    if Sinks(less, s, n, i) {
      var j := LesserChild(less, s, n, i);
      SwapKeeps(s, i, j);
      SiftDownKeeps(less, Swapped(s, i, j), n, j);
    }
  }

  /** Sifting down restores the order; above the start only if the element moves or fits its parent. */
  lemma {:induction false} SiftDownOk<T(!new)>(less: (T, T) -> bool, s: seq<T>, n: nat, i: nat)
    requires Ordering(less) && i <= n <= |s| && OrderedAround(less, s, n, i) && Bridged(less, s, n, i)
    requires Sinks(less, s, n, i) || i == 0 || (i < n && !less(s[i], s[Parent(i)]))
    ensures Ordered(less, SiftDown(less, s, n, i), n, 0)
    decreases n - i
  {
    if Sinks(less, s, n, i) {
      DownStep(less, s, n, i);
      var j := LesserChild(less, s, n, i);
      SiftDownOk(less, Swapped(s, i, j), n, j);
    } else {
      DownStops(less, s, n, i);
    }
  }

  lemma PushedOk<T(!new)>(less: (T, T) -> bool, s: seq<T>, x: T)
    requires Ordering(less) && IsHeap(less, s)
    ensures IsHeap(less, Pushed(less, s, x)) && multiset(Pushed(less, s, x)) == multiset(s) + multiset{x}
  {
    SiftUpOk(less, s + [x], |s|);
  }

  lemma PoppedKeeps<T>(less: (T, T) -> bool, s: seq<T>)
    requires |s| > 0
    ensures multiset(Popped(less, s)) + multiset{s[0]} == multiset(s)
  {
    var n := |s| - 1;
    var t := Swapped(s, 0, n);
    SwapKeeps(s, 0, n);
    SiftDownKeeps(less, t, n, 0);
    var d := SiftDown(less, t, n, 0);
    assert d[n] == s[0];
    LastOfBag(d);
  }

  lemma LastOfBag<T>(s: seq<T>)
    requires |s| > 0
    ensures multiset(s[..|s| - 1]) + multiset{s[|s| - 1]} == multiset(s)
  {
    assert s == s[..|s| - 1] + [s[|s| - 1]];
  }

  lemma PoppedIsHeap<T(!new)>(less: (T, T) -> bool, s: seq<T>)
    requires Ordering(less) && IsHeap(less, s) && |s| > 0
    ensures IsHeap(less, Popped(less, s))
  {
    SiftDownOk(less, Swapped(s, 0, |s| - 1), |s| - 1, 0);
  }

  lemma PoppedOk<T(!new)>(less: (T, T) -> bool, s: seq<T>)
    requires Ordering(less) && IsHeap(less, s) && |s| > 0
    ensures IsHeap(less, Popped(less, s)) && multiset(Popped(less, s)) + multiset{s[0]} == multiset(s)
    ensures forall y :: y in s ==> !less(y, s[0])
  {
    forall i | 0 <= i < |s|
      ensures !less(s[i], s[0])
    {
      RootIsLeast(less, s, i);
    }
    PoppedKeeps(less, s);
    PoppedIsHeap(less, s);
  }

  /** Whatever value one element of a heap gets, fixing there makes it a heap again. */
  lemma FixedOk<T(!new)>(less: (T, T) -> bool, s: seq<T>, i: nat, x: T)
    requires Ordering(less) && IsHeap(less, s) && i < |s|
    ensures IsHeap(less, Fixed(less, s, i, x)) && multiset(Fixed(less, s, i, x)) == multiset(s[i := x])
  {
    var r := s[i := x];
    forall k | 0 < k < |s| && Parent(k) == i && 0 < i
      ensures !less(r[k], r[Parent(i)])
    {
      assert !less(s[k], s[i]) && !less(s[i], s[Parent(i)]);
    }
    if Sinks(less, r, |s|, i) {
      SiftDownKeeps(less, r, |s|, i);
      SiftDownOk(less, r, |s|, i);
    } else {
      DownStops(less, r, |s|, i);
      SiftUpOk(less, r, i);
    }
  }

  class PriorityQueue<T> {
    const less: (T, T) -> bool
    var items: seq<T>

    constructor (less: (T, T) -> bool, items: seq<T>)
      ensures this.less == less && this.items == items
    {
      this.less := less;
      this.items := items;
    }

    method Swap(i: nat, j: nat)
      requires i < |items| && j < |items|
      modifies this
      ensures items == Swapped(old(items), i, j)
    {
      items := items[i := items[j]][j := items[i]];
    }

    method Up(start: nat)
      requires start < |items|
      modifies this
      ensures items == SiftUp(less, old(items), start)
    {
      var j: nat := start;
      while true
        invariant j < |items| && SiftUp(less, items, j) == SiftUp(less, old(items), start)
        decreases j
      {
        var i := if j == 0 then 0 else (j - 1) / 2;
        if i == j || !less(items[j], items[i]) {
          break;
        }
        Swap(i, j);
        j := i;
      }
    }

    /** Moves the element at start down among the first n; moved says whether it went anywhere. */
    method Down(start: nat, n: nat) returns (moved: bool)
      requires start <= n <= |items|
      modifies this
      ensures items == SiftDown(less, old(items), n, start)
      ensures moved == Sinks(less, old(items), n, start)
    {
      var i: nat := start;
      while true
        invariant start <= i <= n <= |items|
        invariant SiftDown(less, items, n, i) == SiftDown(less, old(items), n, start)
        invariant if i == start then items == old(items) else Sinks(less, old(items), n, start)
        decreases n - i
      {
        var j1 := 2 * i + 1;
        if j1 >= n {
          break;
        }
        var j := j1;
        var j2 := j1 + 1;
        if j2 < n && less(items[j2], items[j1]) {
          j := j2;
        }
        if !less(items[j], items[i]) {
          break;
        }
        Swap(i, j);
        i := j;
      }
      moved := i > start;
    }

    /** heap.Push */
    method Push(x: T)
      modifies this
      ensures items == Pushed(less, old(items), x)
    {
      items := items + [x];
      Up(|items| - 1);
    }

    /** heap.Pop */
    method Pop() returns (x: T)
      requires |items| > 0
      modifies this
      ensures x == old(items)[0] && items == Popped(less, old(items))
    {
      var n := |items| - 1;
      Swap(0, n);
      SiftDownKeeps(less, items, n, 0);
      assert items[n..] == [old(items)[0]];
      var _ := Down(0, n);
      assert items[n] == items[n..][0];
      x := items[n];
      items := items[..n];
    }

    /** The element at i is overwritten, then heap.Fix. */
    method Update(i: nat, x: T)
      requires i < |items|
      modifies this
      ensures items == Fixed(less, old(items), i, x)
    {
      items := items[i := x];
      var moved := Down(i, |items|);
      if !moved {
        Up(i);
      }
    }
  }
}
