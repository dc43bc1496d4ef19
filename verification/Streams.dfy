/** What a worker's log accounts for, and the messages of one source, as lists. */
module Streams {
  import opened Protocol
  import opened Dedup
  import opened CrashNetwork

  function Deliveries<B>(log: seq<Record<B>>): (r: seq<Envelope<B>>)
    ensures |r| == |log|
  {
    seq(|log|, i requires 0 <= i < |log| => log[i].delivery)
  }

  /** The messages of one source. */
  function Sourced<B>(src: string, q: seq<Envelope<B>>): seq<Envelope<B>> {
    if q == [] then []
    else Sourced(src, q[..|q| - 1]) + if q[|q| - 1].src == src then [q[|q| - 1]] else []
  }

  /** The bodies published under one key. */
  function BodiesTo<B>(key: string, outs: seq<Out<B>>): seq<B> {
    if outs == [] then []
    else BodiesTo(key, outs[..|outs| - 1]) + if outs[|outs| - 1].key == key then [outs[|outs| - 1].body] else []
  }

  /** bodies as one source numbers them, from zero. */
  function Stream<B>(src: string, bodies: seq<B>): (r: seq<Envelope<B>>)
    ensures |r| == |bodies|
  {
    seq(|bodies|, i requires 0 <= i < |bodies| => Envelope(src, i, bodies[i]))
  }

  /** Everything a crash-free node publishes for these deliveries. */
  function Outputs<S, B>(node: Node<S, B>, log: seq<Record<B>>): seq<Out<B>> {
    if log == [] then []
    else
      var before := log[..|log| - 1];
      Outputs(node, before) + node.process(Replay(node, before).node, log[|log| - 1].delivery).1
  }

  lemma {:induction false} SourcedConcat<B>(src: string, a: seq<Envelope<B>>, b: seq<Envelope<B>>)
    ensures Sourced(src, a + b) == Sourced(src, a) + Sourced(src, b)
  {
    if b == [] {
      assert a + b == a;
    } else {
      assert (a + b)[..|a + b| - 1] == a + b[..|b| - 1];
      SourcedConcat(src, a, b[..|b| - 1]);
    }
  }

  lemma {:induction false} BodiesConcat<B>(key: string, a: seq<Out<B>>, b: seq<Out<B>>)
    ensures BodiesTo(key, a + b) == BodiesTo(key, a) + BodiesTo(key, b)
  {
    if b == [] {
      assert a + b == a;
    } else {
      assert (a + b)[..|a + b| - 1] == a + b[..|b| - 1];
      BodiesConcat(key, a, b[..|b| - 1]);
    }
  }

  lemma SourcedOne<B>(src: string, e: Envelope<B>)
    ensures Sourced(src, [e]) == if e.src == src then [e] else []
  {
    assert [e][..0] == [];
    assert Sourced(src, [e][..0]) == [];
  }

  lemma BodiesOne<B>(key: string, o: Out<B>)
    ensures BodiesTo(key, [o]) == if o.key == key then [o.body] else []
  {
    assert [o][..0] == [];
    assert BodiesTo(key, [o][..0]) == [];
  }

  /** The messages of queue q that worker w has yet to accept. */
  function Waiting<S, B>(node: Node<S, B>, w: Worker<S, B>, q: nat): seq<Envelope<B>>
    requires q < |w.queues|
  {
    Accept(w.queues[q], Replay(node, w.log).marks)
  }

  lemma StreamGrows<B>(src: string, bodies: seq<B>, body: B)
    ensures Stream(src, bodies + [body]) == Stream(src, bodies) + [Envelope(src, |bodies|, body)]
  {
  }
}
