/** Batches: a list handed on in pieces, in order. */
module Batches {
  function Concat<T>(parts: seq<seq<T>>): seq<T> {
    if parts == [] then [] else Concat(parts[..|parts| - 1]) + parts[|parts| - 1]
  }

  lemma ConcatSnoc<T>(parts: seq<seq<T>>, last: seq<T>)
    ensures Concat(parts + [last]) == Concat(parts) + last
  {
    assert (parts + [last])[..|parts|] == parts;
  }

  lemma {:induction false} ConcatAppend<T>(a: seq<seq<T>>, b: seq<seq<T>>)
    ensures Concat(a + b) == Concat(a) + Concat(b)
    decreases |b|
  {
    if b == [] {
      assert a + b == a;
    } else {
      assert (a + b)[..|a + b| - 1] == a + b[..|b| - 1];
      ConcatAppend(a, b[..|b| - 1]);
    }
  }

  lemma {:induction false} FromSomePart<T>(parts: seq<seq<T>>, x: T) returns (i: nat)
    requires x in Concat(parts)
    ensures i < |parts| && x in parts[i]
  {
    i := |parts| - 1;
    if x !in parts[i] {
      i := FromSomePart(parts[..i], x);
    }
  }

  /** Every batch but the last has exactly size elements, and none is empty. */
  ghost predicate Cut<T>(batches: seq<seq<T>>, size: nat) {
    && (forall i :: 0 <= i < |batches| ==> 1 <= |batches[i]| <= size)
    && (forall i :: 0 <= i < |batches| - 1 ==> |batches[i]| == size)
  }

  lemma ConcatOfOne<T>(part: seq<T>)
    ensures Concat([part]) == part
  {
    assert [part][..0] == [];
  }

  /** The list cut into batches of size elements, the last with what is left. */
  function CutOf<T>(list: seq<T>, size: nat): seq<seq<T>>
    requires size > 0
    decreases |list|
  {
    if list == [] then [] else if |list| <= size then [list] else [list[..size]] + CutOf(list[size..], size)
  }

  lemma {:induction false} CutOfIsCut<T>(list: seq<T>, size: nat)
    requires size > 0
    ensures Concat(CutOf(list, size)) == list && Cut(CutOf(list, size), size)
    decreases |list|
  {
    if 0 < |list| <= size {
      ConcatOfOne(list);
    } else if size < |list| {
      var first, rest := list[..size], CutOf(list[size..], size);
      CutOfIsCut(list[size..], size);
      ConcatOfOne(first);
      ConcatAppend([first], rest);
      assert list == first + list[size..];
      assert forall i :: 0 < i < |[first] + rest| ==> ([first] + rest)[i] == rest[i - 1];
    }
  }

  /** There is one way to cut a list. */
  lemma {:induction false} OneCut<T>(batches: seq<seq<T>>, size: nat)
    requires size > 0 && Cut(batches, size)
    ensures batches == CutOf(Concat(batches), size)
  {
    if |batches| > 0 {
      var first, rest := batches[0], batches[1..];
      assert batches == [first] + rest;
      ConcatAppend([first], rest);
      ConcatOfOne(first);
      OneCut(rest, size);
      if |rest| > 0 {
        assert rest[..|rest| - 1] + [rest[|rest| - 1]] == rest;
        assert Concat(rest) != [];
        assert (first + Concat(rest))[..size] == first && (first + Concat(rest))[size..] == Concat(rest);
      }
    }
  }
}
