/** Why the interrupted delivery must come first. After a crash, a worker that reads two queues may take
    the head of the other one; the ids it then uses were already used for something else. */
module TwoInputs {
  import opened Protocol
  import opened Dedup
  import opened CrashNetwork

  /** bodies as src numbers them from n on. */
  function RunFrom<B>(src: string, n: nat, bodies: seq<B>): (r: seq<Envelope<B>>)
    ensures |r| == |bodies|
  {
    seq(|bodies|, i requires 0 <= i < |bodies| => Envelope(src, n + i, bodies[i]))
  }

  /** The first attempt published lost, the second one publishes next with the same ids. */
  function Overlaid<B>(lost: seq<B>, next: seq<B>): seq<B> {
    lost + if |lost| <= |next| then next[|lost|..] else []
  }

  lemma {:induction false} AcceptRun<B>(src: string, n: nat, bodies: seq<B>, marks: Counters)
    requires n <= At(marks, src) <= n + |bodies|
    ensures Accept(RunFrom(src, n, bodies), marks) ==
            RunFrom(src, At(marks, src), bodies[At(marks, src) - n..])
    ensures Marks(RunFrom(src, n, bodies), marks) ==
            if At(marks, src) == n + |bodies| then marks else marks[src := n + |bodies|]
    decreases |bodies|
  {
    var run := RunFrom(src, n, bodies);
    if bodies != [] {
      assert run[1..] == RunFrom(src, n + 1, bodies[1..]);
      if n < At(marks, src) {
        AcceptRun(src, n + 1, bodies[1..], marks);
      } else {
        var marks' := marks[src := n + 1];
        AcceptRun(src, n + 1, bodies[1..], marks');
        assert bodies == [bodies[0]] + bodies[1..];
        assert marks'[src := n + |bodies|] == marks[src := n + |bodies|];
      }
    }
  }

  lemma {:induction false} AcceptConcat<B>(a: seq<Envelope<B>>, b: seq<Envelope<B>>, marks: Counters)
    ensures Accept(a + b, marks) == Accept(a, marks) + Accept(b, Marks(a, marks))
  {
    if a == [] {
      assert a + b == b;
    } else {
      assert (a + b)[1..] == a[1..] + b;
      AcceptConcat(a[1..], b, marks);
      AcceptConcat(a[1..], b, marks[a[0].src := a[0].id + 1]);
    }
  }

  /** What a consumer accepts when lost was published from id n on, and then, after a crash, next was
      published from the same id on. */
  lemma ReusedIds<B>(src: string, n: nat, lost: seq<B>, next: seq<B>, marks: Counters)
    requires At(marks, src) == n
    ensures Accept(RunFrom(src, n, lost) + RunFrom(src, n, next), marks) == RunFrom(src, n, Overlaid(lost, next))
  {
    AcceptConcat(RunFrom(src, n, lost), RunFrom(src, n, next), marks);
    AcceptRun(src, n, lost, marks);
    var marks' := Marks(RunFrom(src, n, lost), marks);
    if |lost| <= |next| {
      AcceptRun(src, n, next, marks');
    } else {
      AllOld(src, n, next, marks');
    }
  }

  lemma {:induction false} AllOld<B>(src: string, n: nat, bodies: seq<B>, marks: Counters)
    requires n + |bodies| <= At(marks, src)
    ensures Accept(RunFrom(src, n, bodies), marks) == []
    decreases |bodies|
  {
    if bodies != [] {
      assert RunFrom(src, n, bodies)[1..] == RunFrom(src, n + 1, bodies[1..]);
      AllOld(src, n + 1, bodies[1..], marks);
    }
  }

  /** The crash stays invisible exactly when what was published of the interrupted delivery is a prefix
      of what the next delivery publishes on that key. */
  lemma HarmlessIffPrefix<B>(src: string, n: nat, lost: seq<B>, next: seq<B>, marks: Counters)
    requires At(marks, src) == n
    ensures Accept(RunFrom(src, n, lost) + RunFrom(src, n, next), marks) == RunFrom(src, n, next)
            <==> lost <= next
  {
    ReusedIds(src, n, lost, next, marks);
    var over := Overlaid(lost, next);
    if RunFrom(src, n, over) == RunFrom(src, n, next) {
      assert |over| == |next|;
      forall i | 0 <= i < |lost|
        ensures lost[i] == next[i]
      {
        assert RunFrom(src, n, over)[i].body == RunFrom(src, n, next)[i].body;
      }
    }
  }

  /** A node that walks a map in another order when it takes the delivery up again loses what the other order begins
      with: of a batch of two bodies the consumer gets one twice, and the other not at all. */
  lemma OtherOrderLoses<B>(src: string, n: nat, x: B, y: B, marks: Counters)
    requires At(marks, src) == n && x != y
    ensures Accept(RunFrom(src, n, [x]) + RunFrom(src, n, [y, x]), marks) == RunFrom(src, n, [x, x])
    ensures Accept(RunFrom(src, n, [x]) + RunFrom(src, n, [y, x]), marks) != RunFrom(src, n, [y, x])
  {
    ReusedIds(src, n, [x], [y, x], marks);
    assert Overlaid([x], [y, x]) == [x, x];
    HarmlessIffPrefix(src, n, [x], [y, x], marks);
    assert [x][0] != [y, x][0];
  }
}
