/** The vocabulary every worker shares: numbered messages, per-name counters, and what the
    counters become when messages are published, accepted or replayed. */
module Protocol {
  datatype Option<+T> = None | Some(value: T)

  /** A message in a queue, with the sequence id its sender gave it. */
  datatype Envelope<B> = Envelope(src: string, id: nat, body: B)

  /** A message a node wants to publish under a routing key. */
  datatype Out<B> = Out(key: string, body: B)

  /** A routing key and the sequence id used for it. */
  datatype Dest = Dest(key: string, id: nat)

  /** One line of the recovery log. */
  datatype Record<B> = Record(delivery: Envelope<B>, dests: seq<Dest>)

  /** A Go map from names to numbers; a missing name reads as zero. */
  type Counters = map<string, nat>

  function At(m: Counters, name: string): nat {
    if name in m then m[name] else 0
  }

  /** The counters after publishing outs in order. */
  function Bump<B>(c: Counters, outs: seq<Out<B>>): Counters {
    if outs == [] then c
    else
      var before := Bump(c, outs[..|outs| - 1]);
      var key := outs[|outs| - 1].key;
      before[key := At(before, key) + 1]
  }

  /** The ids given to outs when they are published in order. */
  function Numbered<B>(c: Counters, outs: seq<Out<B>>): (r: seq<Dest>)
    ensures |r| == |outs|
  {
    if outs == [] then []
    else
      var init := outs[..|outs| - 1];
      var key := outs[|outs| - 1].key;
      Numbered(c, init) + [Dest(key, At(Bump(c, init), key))]
  }

  /** The counters after recovering the ids of one log record. */
  function RecoverIds(c: Counters, dests: seq<Dest>): Counters {
    if dests == [] then c
    else
      var last := dests[|dests| - 1];
      RecoverIds(c, dests[..|dests| - 1])[last.key := last.id + 1]
  }

  /** Recovering the ids of published messages restores the counters that publishing left behind. */
  lemma {:induction false} RecoverIdsUndoesCrash<B>(c: Counters, outs: seq<Out<B>>)
    ensures RecoverIds(c, Numbered(c, outs)) == Bump(c, outs)
  {
    if outs != [] {
      var init := outs[..|outs| - 1];
      RecoverIdsUndoesCrash(c, init);
      var ds := Numbered(c, outs);
      assert ds[..|ds| - 1] == Numbered(c, init);
    }
  }

  lemma BumpStep<B>(c: Counters, outs: seq<Out<B>>, i: nat)
    requires i < |outs|
    ensures Bump(c, outs[..i + 1]) ==
            Bump(c, outs[..i])[outs[i].key := At(Bump(c, outs[..i]), outs[i].key) + 1]
    ensures Numbered(c, outs[..i + 1]) ==
            Numbered(c, outs[..i]) + [Dest(outs[i].key, At(Bump(c, outs[..i]), outs[i].key))]
  {
    assert outs[..i + 1][..i] == outs[..i];
  }

  lemma {:induction false} BumpMonotone<B>(c: Counters, outs: seq<Out<B>>, i: nat, j: nat, key: string)
    requires i <= j <= |outs|
    ensures At(Bump(c, outs[..i]), key) <= At(Bump(c, outs[..j]), key)
    decreases j
  {
    if i < j {
      BumpStep(c, outs, j - 1);
      BumpMonotone(c, outs, i, j - 1, key);
    }
  }

  /** Messages published one after another under one key get consecutive ids. */
  lemma {:induction false} ConsecutiveIds<B>(c: Counters, outs: seq<Out<B>>, key: string)
    requires forall i :: 0 <= i < |outs| ==> outs[i].key == key
    ensures forall i :: 0 <= i < |outs| ==> Numbered(c, outs)[i] == Dest(key, At(c, key) + i)
    ensures At(Bump(c, outs), key) == At(c, key) + |outs|
  {
    if outs != [] {
      ConsecutiveIds(c, outs[..|outs| - 1], key);
    }
  }

  /** A republished message reuses an id that the first attempt already consumed. */
  lemma RepublishedIdIsOld<B>(c: Counters, outs: seq<Out<B>>, i: nat, j: nat)
    requires i < j <= |outs|
    ensures At(Bump(c, outs[..i]), outs[i].key) < At(Bump(c, outs[..j]), outs[i].key)
  {
    BumpStep(c, outs, i);
    BumpMonotone(c, outs, i + 1, j, outs[i].key);
  }
}
