/** Duplicate removal at a consumer: a high-water mark per source. */
module Dedup {
  import opened Protocol

  predicate IsDup<B>(e: Envelope<B>, marks: Counters) {
    e.id < At(marks, e.src)
  }

  /** The messages of q that a consumer with these marks accepts, in order. */
  function Accept<B>(q: seq<Envelope<B>>, marks: Counters): seq<Envelope<B>> {
    if q == [] then []
    else if IsDup(q[0], marks) then Accept(q[1..], marks)
    else [q[0]] + Accept(q[1..], marks[q[0].src := q[0].id + 1])
  }

  /** The marks after reading all of q. */
  function Marks<B>(q: seq<Envelope<B>>, marks: Counters): Counters {
    if q == [] then marks
    else if IsDup(q[0], marks) then Marks(q[1..], marks)
    else Marks(q[1..], marks[q[0].src := q[0].id + 1])
  }

  lemma InFront<T>(x: T, a: seq<T>, b: seq<T>)
    ensures [x] + (a + b) == ([x] + a) + b
  {
  }

  lemma {:induction false} AcceptAppend<B>(q: seq<Envelope<B>>, e: Envelope<B>, marks: Counters)
    ensures Accept(q + [e], marks) ==
            Accept(q, marks) + if IsDup(e, Marks(q, marks)) then [] else [e]
    ensures Marks(q + [e], marks) ==
            if IsDup(e, Marks(q, marks)) then Marks(q, marks) else Marks(q, marks)[e.src := e.id + 1]
  {
    if q == [] {
      assert (q + [e])[1..] == [];
    } else {
      assert (q + [e])[1..] == q[1..] + [e] && (q + [e])[0] == q[0];
      if IsDup(q[0], marks) {
        AcceptAppend(q[1..], e, marks);
      } else {
        var marks' := marks[q[0].src := q[0].id + 1];
        AcceptAppend(q[1..], e, marks');
        InFront(q[0], Accept(q[1..], marks'), if IsDup(e, Marks(q[1..], marks')) then [] else [e]);
      }
    }
  }

  /** Two mark tables that agree on every source in q accept the same messages of q. */
  lemma {:induction false} AcceptDependsOnSources<B>(q: seq<Envelope<B>>, m: Counters, n: Counters)
    requires forall e :: e in q ==> At(m, e.src) == At(n, e.src)
    ensures Accept(q, m) == Accept(q, n)
    ensures forall s :: At(m, s) == At(n, s) ==> At(Marks(q, m), s) == At(Marks(q, n), s)
  {
    if q != [] {
      assert q[0] in q;
      assert forall e :: e in q[1..] ==> e in q;
      if IsDup(q[0], m) {
        AcceptDependsOnSources(q[1..], m, n);
      } else {
        AcceptDependsOnSources(q[1..], m[q[0].src := q[0].id + 1], n[q[0].src := q[0].id + 1]);
      }
    }
  }
}
