/** The objects of one worker, updated in place, against the functions the network is built from. */
module WorkerKernel {
  import opened Protocol
  import opened Dedup
  import opened CrashNetwork
  import Streams

  class Generator {
    var sequenceIds: Counters

    constructor ()
      ensures sequenceIds == map[]
    {
      sequenceIds := map[];
    }

    method NextId(key: string) returns (id: nat)
      modifies this
      ensures id == At(old(sequenceIds), key)
      ensures sequenceIds == old(sequenceIds)[key := id + 1]
    {
      if key !in sequenceIds {
        id := 0;
        sequenceIds := sequenceIds[key := 1];
      } else {
        id := sequenceIds[key];
        sequenceIds := sequenceIds[key := sequenceIds[key] + 1];
      }
    }

    method RecoverId(d: Dest)
      modifies this
      ensures sequenceIds == old(sequenceIds)[d.key := d.id + 1]
    {
      sequenceIds := sequenceIds[d.key := d.id + 1];
    }
  }

  class DupHandler {
    var dupsByWorker: Counters

    constructor ()
      ensures dupsByWorker == map[]
    {
      dupsByWorker := map[];
    }

    method RecoverSequenceId(src: string, id: nat)
      modifies this
      ensures dupsByWorker == old(dupsByWorker)[src := id + 1]
    {
      dupsByWorker := dupsByWorker[src := id + 1];
    }

    method IsDuplicate(src: string, id: nat) returns (dup: bool)
      modifies this
      ensures dup <==> id < At(old(dupsByWorker), src)
      ensures dupsByWorker == if dup then old(dupsByWorker) else old(dupsByWorker)[src := id + 1]
    {
      var nextSequenceId := At(dupsByWorker, src);
      if id < nextSequenceId {
        return true;
      }
      dupsByWorker := dupsByWorker[src := id + 1];
      return false;
    }
  }

  /** A message on the wire: the key it was published under and what the broker carries. */
  datatype Publication<B> = Publication(key: string, message: Envelope<B>)

  /** outs as a worker with these counters publishes them. */
  function Publications<B>(uuid: string, c: Counters, outs: seq<Out<B>>): (r: seq<Publication<B>>)
    ensures |r| == |outs|
  {
    if outs == [] then []
    else
      var init, last := outs[..|outs| - 1], outs[|outs| - 1];
      Publications(uuid, c, init) + [Publication(last.key, Envelope(uuid, At(Bump(c, init), last.key), last.body))]
  }

  /** What a live worker does to its memory for one message: nothing, if it is a duplicate. */
  function Live<S, B>(node: Node<S, B>, mem: Mem<S>, e: Envelope<B>): Mem<S> {
    if IsDup(e, mem.marks) then mem
    else
      var (s, outs) := node.process(mem.node, e);
      Mem(s, Bump(mem.counters, outs), mem.marks[e.src := e.id + 1])
  }

  /** The memory of a live worker after these messages. */
  function LiveAll<S, B>(node: Node<S, B>, mem: Mem<S>, es: seq<Envelope<B>>): Mem<S> {
    if es == [] then mem else Live(node, LiveAll(node, mem, es[..|es| - 1]), es[|es| - 1])
  }

  /** What goes out for a message: nothing, if it is a duplicate. */
  function OutFor<S, B>(uuid: string, node: Node<S, B>, mem: Mem<S>, e: Envelope<B>): seq<Publication<B>> {
    if IsDup(e, mem.marks) then [] else Publications(uuid, mem.counters, node.process(mem.node, e).1)
  }

  function AllOut<S, B>(uuid: string, node: Node<S, B>, mem: Mem<S>, es: seq<Envelope<B>>): seq<Publication<B>> {
    if es == [] then []
    else
      var init := es[..|es| - 1];
      AllOut(uuid, node, mem, init) + OutFor(uuid, node, LiveAll(node, mem, init), es[|es| - 1])
  }

  lemma LiveNext<S, B>(uuid: string, node: Node<S, B>, mem: Mem<S>, es: seq<Envelope<B>>, i: nat,
                       before: seq<Publication<B>>)
    requires i < |es|
    ensures LiveAll(node, mem, es[..i + 1]) == Live(node, LiveAll(node, mem, es[..i]), es[i])
    ensures before + AllOut(uuid, node, mem, es[..i + 1]) ==
            before + AllOut(uuid, node, mem, es[..i]) + OutFor(uuid, node, LiveAll(node, mem, es[..i]), es[i])
  {
    assert es[..i + 1][..i] == es[..i];
  }

  /** Logging what a live worker did makes its memory the replay of its log again. */
  lemma LiveIsReplay<S(!new), B(!new)>(node: Node<S, B>, log: seq<Record<B>>, e: Envelope<B>)
    requires ReplayFaithful(node)
    ensures var mem := Replay(node, log);
            var outs := node.process(mem.node, e).1;
            !IsDup(e, mem.marks) ==>
              Replay(node, log + [Record(e, Numbered(mem.counters, outs))]) == Live(node, mem, e)
  {
    var mem := Replay(node, log);
    var outs := node.process(mem.node, e).1;
    RecoverIdsUndoesCrash(mem.counters, outs);
    var log' := log + [Record(e, Numbered(mem.counters, outs))];
    assert log'[..|log|] == log;
  }

  lemma AcceptNext<B>(q: seq<Envelope<B>>, i: nat, marks: Counters)
    requires i < |q|
    ensures Accept(q[..i + 1], marks) ==
            Accept(q[..i], marks) + if IsDup(q[i], Marks(q[..i], marks)) then [] else [q[i]]
    ensures Marks(q[..i + 1], marks) ==
            if IsDup(q[i], Marks(q[..i], marks)) then Marks(q[..i], marks)
            else Marks(q[..i], marks)[q[i].src := q[i].id + 1]
  {
    assert q[..i + 1] == q[..i] + [q[i]];
    AcceptAppend(q[..i], q[i], marks);
  }

  class Worker<S(!new), B(!new)> {
    const uuid: string
    const node: Node<S, B>
    const sequenceIdGen: Generator
    const dup: DupHandler
    var state: S
    var log: seq<Record<B>>
    var published: seq<Publication<B>>

    function Memory(): Mem<S>
      reads this, sequenceIdGen, dup
    {
      Mem(state, sequenceIdGen.sequenceIds, dup.dupsByWorker)
    }

    /** A worker that starts on an existing log, with everything in memory at its initial value. */
    constructor (uuid: string, node: Node<S, B>, log: seq<Record<B>>)
      ensures this.uuid == uuid && this.node == node && this.log == log && published == []
      ensures Memory() == Mem(node.init, map[], map[]) && fresh(sequenceIdGen) && fresh(dup)
    {
      this.uuid := uuid;
      this.node := node;
      this.log := log;
      state := node.init;
      published := [];
      sequenceIdGen := new Generator();
      dup := new DupHandler();
    }

    method Publish(outs: seq<Out<B>>) returns (sequenceIds: seq<Dest>)
      modifies this`published, sequenceIdGen
      ensures sequenceIds == Numbered(old(sequenceIdGen.sequenceIds), outs)
      ensures sequenceIdGen.sequenceIds == Bump(old(sequenceIdGen.sequenceIds), outs)
      ensures published == old(published) + Publications(uuid, old(sequenceIdGen.sequenceIds), outs)
    {
      sequenceIds := [];
      ghost var c := sequenceIdGen.sequenceIds;
      for i := 0 to |outs|
        invariant sequenceIds == Numbered(c, outs[..i])
        invariant sequenceIdGen.sequenceIds == Bump(c, outs[..i])
        invariant published == old(published) + Publications(uuid, c, outs[..i])
      {
        var id := sequenceIdGen.NextId(outs[i].key);
        sequenceIds := sequenceIds + [Dest(outs[i].key, id)];
        published := published + [Publication(outs[i].key, Envelope(uuid, id, outs[i].body))];
        assert outs[..i + 1][..i] == outs[..i];
      }
      assert outs[..|outs|] == outs;
    }

    /** One turn of the consume loop: duplicate check, node and publishing, log. */
    method Consume(e: Envelope<B>)
      modifies this`state, this`log, this`published, sequenceIdGen, dup
      ensures Memory() == Live(node, old(Memory()), e)
      ensures published == old(published) + OutFor(uuid, node, old(Memory()), e)
      ensures var outs := node.process(old(state), e).1;
              log == if IsDup(e, old(Memory()).marks) then old(log)
                     else old(log) + [Record(e, Numbered(old(sequenceIdGen.sequenceIds), outs))]
      ensures Streams.Deliveries(log) ==
              Streams.Deliveries(old(log)) + if IsDup(e, old(Memory()).marks) then [] else [e]
      ensures ReplayFaithful(node) && old(Memory()) == Replay(node, old(log)) ==> Memory() == Replay(node, log)
    {
      if ReplayFaithful(node) {
        LiveIsReplay(node, log, e);
      }
      var isDuplicate := dup.IsDuplicate(e.src, e.id);
      if !isDuplicate {
        var (s, outs) := node.process(state, e);
        state := s;
        var sequenceIds := Publish(outs);
        log := log + [Record(e, sequenceIds)];
      }
    }

    /** The consume loop over a stretch of deliveries logs exactly those that are not duplicates. */
    method ConsumeAll(deliveries: seq<Envelope<B>>)
      modifies this`state, this`log, this`published, sequenceIdGen, dup
      ensures Streams.Deliveries(log) == Streams.Deliveries(old(log)) + Accept(deliveries, old(Memory()).marks)
      ensures Memory().marks == Marks(deliveries, old(Memory()).marks)
      ensures Memory() == LiveAll(node, old(Memory()), deliveries)
      ensures published == old(published) + AllOut(uuid, node, old(Memory()), deliveries)
      ensures ReplayFaithful(node) && old(Memory()) == Replay(node, old(log)) ==> Memory() == Replay(node, log)
    {
      ghost var marks, mem := Memory().marks, Memory();
      ghost var faithful := ReplayFaithful(node) && Memory() == Replay(node, log);
      ghost var logged, accepted: seq<Envelope<B>> := Streams.Deliveries(log), [];
      for i := 0 to |deliveries|
        invariant Streams.Deliveries(log) == logged + accepted && accepted == Accept(deliveries[..i], marks)
        invariant Memory().marks == Marks(deliveries[..i], marks)
        invariant faithful ==> Memory() == Replay(node, log)
        invariant Memory() == LiveAll(node, mem, deliveries[..i])
        invariant published == old(published) + AllOut(uuid, node, mem, deliveries[..i])
      {
        AcceptNext(deliveries, i, marks);
        LiveNext(uuid, node, mem, deliveries, i, old(published));
        ghost var more := if IsDup(deliveries[i], Memory().marks) then [] else [deliveries[i]];
        assert (logged + accepted) + more == logged + (accepted + more);
        Consume(deliveries[i]);
        accepted := accepted + more;
      }
      assert deliveries[..|deliveries|] == deliveries;
    }

    /** Start-up: every logged record goes to the node, the generator and the duplicate handler. */
    method Recover()
      requires Memory() == Mem(node.init, map[], map[])
      modifies this`state, sequenceIdGen, dup
      ensures Memory() == Replay(node, log)
    {
      for i := 0 to |log|
        invariant Memory() == Replay(node, log[..i])
      {
        var record := log[i];
        var ids := record.dests;
        ghost var before := Replay(node, log[..i]);
        assert log[..i + 1][..i] == log[..i];
        state := node.replay(state, record.delivery);
        for j := 0 to |ids|
          invariant sequenceIdGen.sequenceIds == RecoverIds(before.counters, ids[..j])
          invariant state == node.replay(before.node, record.delivery) && dup.dupsByWorker == before.marks
        {
          sequenceIdGen.RecoverId(ids[j]);
          assert ids[..j + 1][..j] == ids[..j];
        }
        assert ids[..|ids|] == ids;
        assert before == Replay(node, log[..i + 1][..i]);
        dup.RecoverSequenceId(record.delivery.src, record.delivery.id);
      }
      assert log[..|log|] == log;
    }
  }

  /** A worker process that dies after any number of deliveries and is restarted on the same log holds
      exactly what it held before. */
  method Restart<S(!new), B(!new)>(uuid: string, node: Node<S, B>, deliveries: seq<Envelope<B>>)
    returns (before: Worker<S, B>, after: Worker<S, B>)
    requires ReplayFaithful(node)
    ensures after.log == before.log && after.Memory() == before.Memory()
    ensures Streams.Deliveries(after.log) == Accept(deliveries, map[])
  {
    before := new Worker(uuid, node, []);
    before.ConsumeAll(deliveries);
    after := new Worker(uuid, node, before.log);
    after.Recover();
  }
}
