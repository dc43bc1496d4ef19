/** The worker's objects against the network: what they publish is what the steps of the network publish, and consumers
    accept it. */
module WorkerRuns {
  import opened Protocol
  import opened Dedup
  import opened CrashNetwork
  import opened Simulation
  import opened Streams
  import opened TwoInputs
  import WorkerKernel

  type Publication<B> = WorkerKernel.Publication<B>

  /** Message i goes out under key and id of the i-th destination logged, with the worker's id and body i. */
  lemma {:induction false} PublicationIs<B>(uuid: string, c: Counters, outs: seq<Out<B>>, i: nat)
    requires i < |outs|
    ensures Numbered(c, outs)[i].key == outs[i].key
    ensures WorkerKernel.Publications(uuid, c, outs)[i] ==
            WorkerKernel.Publication(outs[i].key, Envelope(uuid, Numbered(c, outs)[i].id, outs[i].body))
  {
    var init := outs[..|outs| - 1];
    if i < |init| {
      PublicationIs(uuid, c, init, i);
      assert Numbered(c, outs)[i] == Numbered(c, init)[i];
      assert WorkerKernel.Publications(uuid, c, outs)[i] == WorkerKernel.Publications(uuid, c, init)[i];
    }
  }

  /** The messages under one key. */
  function MessagesTo<B>(key: string, pubs: seq<Publication<B>>): seq<Envelope<B>> {
    if pubs == [] then []
    else
      var init, last := MessagesTo(key, pubs[..|pubs| - 1]), pubs[|pubs| - 1];
      if last.key == key then init + [last.message] else init
  }

  lemma {:induction false} CountsTo<B>(c: Counters, outs: seq<Out<B>>, key: string)
    ensures At(Bump(c, outs), key) == At(c, key) + |BodiesTo(key, outs)|
  {
    if outs != [] {
      CountsTo(c, outs[..|outs| - 1], key);
    }
  }

  lemma RunSnoc<B>(src: string, n: nat, bodies: seq<B>, body: B)
    ensures RunFrom(src, n, bodies + [body]) == RunFrom(src, n, bodies) + [Envelope(src, n + |bodies|, body)]
  {
  }

  /** Under one key the bodies go out in order, with consecutive ids from the counter on. */
  lemma {:induction false} OneKeyIsRun<B>(uuid: string, c: Counters, outs: seq<Out<B>>, key: string)
    ensures MessagesTo(key, WorkerKernel.Publications(uuid, c, outs)) == RunFrom(uuid, At(c, key), BodiesTo(key, outs))
  {
    if outs != [] {
      var init, last := outs[..|outs| - 1], outs[|outs| - 1];
      OneKeyIsRun(uuid, c, init, key);
      CountsTo(c, init, key);
      assert WorkerKernel.Publications(uuid, c, outs)[..|init|] == WorkerKernel.Publications(uuid, c, init);
      if last.key == key {
        RunSnoc(uuid, At(c, key), BodiesTo(key, init), last.body);
      } else {
        assert BodiesTo(key, init) + [] == BodiesTo(key, init);
      }
    }
  }

  /** A consumer that has accepted everything before accepts all that is published under its key, in order. */
  lemma PublishedIsAccepted<B>(uuid: string, c: Counters, outs: seq<Out<B>>, key: string, marks: Counters)
    requires At(marks, uuid) == At(c, key)
    ensures var msgs := MessagesTo(key, WorkerKernel.Publications(uuid, c, outs));
            && Accept(msgs, marks) == msgs && |msgs| == |BodiesTo(key, outs)|
            && (forall i :: 0 <= i < |msgs| ==> msgs[i] == Envelope(uuid, At(c, key) + i, BodiesTo(key, outs)[i]))
            && At(Marks(msgs, marks), uuid) == At(Bump(c, outs), key)
  {
    OneKeyIsRun(uuid, c, outs, key);
    CountsTo(c, outs, key);
    AcceptRun(uuid, At(c, key), BodiesTo(key, outs), marks);
    assert BodiesTo(key, outs)[0..] == BodiesTo(key, outs);
  }

  // The steps of the network.

  function PublishSteps<B>(p: nat, n: nat): seq<Action<B>> {
    if n == 0 then [] else PublishSteps(p, n - 1) + [Publish(p)]
  }

  lemma FromSnoc<S, B>(cfg: Config<S, B>, ws: seq<Worker<S, B>>, acts: seq<Action<B>>, a: Action<B>)
    requires |cfg.nodes| == |cfg.uuid| == |cfg.inputs| == |cfg.bindings| == |ws|
    ensures From(cfg, ws, acts + [a]) == Step(cfg, From(cfg, ws, acts), a)
  {
    assert (acts + [a])[..|acts|] == acts;
  }

  /** The worker in the middle of a delivery: n of its messages are out. */
  ghost predicate Partway<S, B>(w: Worker<S, B>, q: nat, mem: Mem<S>, outs: seq<Out<B>>, n: nat) {
    n <= |outs| && w.phase == Publishing(q, Numbered(mem.counters, outs[..n]), outs) &&
    w.mem == mem.(counters := Bump(mem.counters, outs[..n]))
  }

  lemma SentPartway<S, B>(w: Worker<S, B>, q: nat, mem: Mem<S>, outs: seq<Out<B>>, n: nat)
    requires Partway(w, q, mem, outs, n) && n < |outs|
    ensures CanPublish(w) && Partway(Sent(w), q, mem, outs, n + 1)
  {
    BumpStep(mem.counters, outs, n);
  }

  lemma EnqueuedPartway<S, B>(w: Worker<S, B>, q: nat, mem: Mem<S>, outs: seq<Out<B>>, n: nat, to: nat, e: Envelope<B>)
    requires Partway(w, q, mem, outs, n) && to < |w.queues|
    ensures Partway(Enqueue(w, to, e), q, mem, outs, n)
  {
  }

  /** Step n sends out publication n. */
  lemma NextIsPublication<S, B>(cfg: Config<S, B>, ws: seq<Worker<S, B>>, p: nat, q: nat, mem: Mem<S>,
                                outs: seq<Out<B>>, n: nat)
    requires p < |ws| && p < |cfg.uuid| && Partway(ws[p], q, mem, outs, n) && n < |outs|
    ensures CanPublish(ws[p])
    ensures WorkerKernel.Publications(cfg.uuid[p], mem.counters, outs)[n] ==
            WorkerKernel.Publication(NextDest(ws[p]).key, NextMessage(cfg, ws, p))
  {
    PublicationIs(cfg.uuid[p], mem.counters, outs, n);
    NumberedAt(mem.counters, outs, n);
  }

  lemma {:induction false} NumberedAt<B>(c: Counters, outs: seq<Out<B>>, i: nat)
    requires i < |outs|
    ensures Numbered(c, outs)[i] == Dest(outs[i].key, At(Bump(c, outs[..i]), outs[i].key))
  {
    var init := outs[..|outs| - 1];
    if i < |init| {
      NumberedAt(c, init, i);
      assert init[..i] == outs[..i] && Numbered(c, outs)[i] == Numbered(c, init)[i];
    }
  }

  lemma StepPublishes<S, B>(cfg: Config<S, B>, ws: seq<Worker<S, B>>, p: nat)
    requires |cfg.nodes| == |cfg.uuid| == |cfg.inputs| == |cfg.bindings| == |ws| && p < |ws| && CanPublish(ws[p])
    ensures Step(cfg, ws, Publish(p)) ==
            Deliver(ws[p := Sent(ws[p])], cfg.bindings[p], NextDest(ws[p]).key, NextMessage(cfg, ws, p))
  {
  }

  lemma DeliverKeepsPartway<S, B>(ws: seq<Worker<S, B>>, binding: map<string, Port>, key: string, e: Envelope<B>,
                                  p: nat, q: nat, mem: Mem<S>, outs: seq<Out<B>>, n: nat)
    requires p < |ws| && Partway(ws[p], q, mem, outs, n)
    ensures var ws' := Deliver(ws, binding, key, e); Partway(ws'[p], q, mem, outs, n) && ws'[p].log == ws[p].log
  {
    if key in binding && binding[key].worker == p && binding[key].queue < |ws[p].queues| {
      EnqueuedPartway(ws[p], q, mem, outs, n, binding[key].queue, e);
    }
  }

  /** A step of publishing: the publication joins the queue that its key is bound to, and nothing else. */
  lemma PublishStep<S, B>(cfg: Config<S, B>, ws: seq<Worker<S, B>>, p: nat, q: nat, mem: Mem<S>, outs: seq<Out<B>>,
                          n: nat)
    requires |cfg.nodes| == |cfg.uuid| == |cfg.inputs| == |cfg.bindings| == |ws| && p < |ws|
    requires Partway(ws[p], q, mem, outs, n) && n < |outs|
    ensures CanPublish(ws[p])
    ensures var pub := WorkerKernel.Publications(cfg.uuid[p], mem.counters, outs)[n];
            Step(cfg, ws, Publish(p)) == Deliver(ws[p := Sent(ws[p])], cfg.bindings[p], pub.key, pub.message)
    ensures Partway(Step(cfg, ws, Publish(p))[p], q, mem, outs, n + 1) && Step(cfg, ws, Publish(p))[p].log == ws[p].log
  {
    NextIsPublication(cfg, ws, p, q, mem, outs, n);
    SentPartway(ws[p], q, mem, outs, n);
    StepPublishes(cfg, ws, p);
    DeliverKeepsPartway(ws[p := Sent(ws[p])], cfg.bindings[p], NextDest(ws[p]).key, NextMessage(cfg, ws, p), p, q, mem,
                        outs, n + 1);
  }

  /** The head of a queue stays where it is while messages join. */
  ghost predicate HeadIs<S, B>(w: Worker<S, B>, q: nat, e: Envelope<B>) {
    q < |w.queues| && |w.queues[q]| > 0 && w.queues[q][0] == e
  }

  lemma PublishKeepsHead<S, B>(cfg: Config<S, B>, ws: seq<Worker<S, B>>, p: nat, q: nat, e: Envelope<B>)
    requires |cfg.nodes| == |cfg.uuid| == |cfg.inputs| == |cfg.bindings| == |ws| && p < |ws| && HeadIs(ws[p], q, e)
    ensures HeadIs(Step(cfg, ws, Publish(p))[p], q, e)
  {
  }

  /** The publications of a delivery join the queues that their keys are bound to, one after another. */
  function Delivered<S, B>(ws: seq<Worker<S, B>>, binding: map<string, Port>, pubs: seq<Publication<B>>)
    : (r: seq<Worker<S, B>>)
    ensures |r| == |ws|
  {
    if pubs == [] then ws
    else
      var last := pubs[|pubs| - 1];
      Deliver(Delivered(ws, binding, pubs[..|pubs| - 1]), binding, last.key, last.message)
  }

  ghost predicate SameQueues<S, B>(a: seq<Worker<S, B>>, b: seq<Worker<S, B>>) {
    |a| == |b| && forall v :: 0 <= v < |a| ==> a[v].queues == b[v].queues
  }

  /** What joins the queues depends on the queues alone. */
  lemma SameJoins<S, B>(a: seq<Worker<S, B>>, b: seq<Worker<S, B>>, binding: map<string, Port>, key: string,
                        e: Envelope<B>)
    requires SameQueues(a, b)
    ensures SameQueues(Deliver(a, binding, key, e), Deliver(b, binding, key, e))
  {
  }

  /** How far worker p has got, n steps on. */
  lemma {:induction false} PublishRun<S, B>(cfg: Config<S, B>, ws: seq<Worker<S, B>>, p: nat, q: nat, mem: Mem<S>,
                                            outs: seq<Out<B>>, n: nat, e: Envelope<B>)
    requires |cfg.nodes| == |cfg.uuid| == |cfg.inputs| == |cfg.bindings| == |ws| && p < |ws| && n <= |outs|
    requires Partway(ws[p], q, mem, outs, 0) && HeadIs(ws[p], q, e)
    ensures var ws' := From(cfg, ws, PublishSteps(p, n));
            Partway(ws'[p], q, mem, outs, n) && HeadIs(ws'[p], q, e) && ws'[p].log == ws[p].log
  {
    if n > 0 {
      var before := From(cfg, ws, PublishSteps(p, n - 1));
      PublishRun(cfg, ws, p, q, mem, outs, n - 1, e);
      FromSnoc(cfg, ws, PublishSteps(p, n - 1), Publish(p));
      PublishStep(cfg, before, p, q, mem, outs, n - 1);
      PublishKeepsHead(cfg, before, p, q, e);
    }
  }

  lemma SentJoined<S, B>(ws: seq<Worker<S, B>>, p: nat, joined: seq<Worker<S, B>>)
    requires p < |ws| && CanPublish(ws[p]) && SameQueues(ws, joined)
    ensures SameQueues(ws[p := Sent(ws[p])], joined)
  {
  }

  lemma PublishJoins<S, B>(cfg: Config<S, B>, ws: seq<Worker<S, B>>, p: nat, q: nat, mem: Mem<S>, outs: seq<Out<B>>,
                           n: nat, joined: seq<Worker<S, B>>)
    requires |cfg.nodes| == |cfg.uuid| == |cfg.inputs| == |cfg.bindings| == |ws| && p < |ws|
    requires Partway(ws[p], q, mem, outs, n) && n < |outs| && SameQueues(ws, joined)
    ensures var pub := WorkerKernel.Publications(cfg.uuid[p], mem.counters, outs)[n];
            SameQueues(Step(cfg, ws, Publish(p)), Deliver(joined, cfg.bindings[p], pub.key, pub.message))
  {
    var pub := WorkerKernel.Publications(cfg.uuid[p], mem.counters, outs)[n];
    PublishStep(cfg, ws, p, q, mem, outs, n);
    SentJoined(ws, p, joined);
    SameJoins(ws[p := Sent(ws[p])], joined, cfg.bindings[p], pub.key, pub.message);
  }

  /** And what has joined the queues. */
  lemma {:induction false} PublishRunJoins<S, B>(cfg: Config<S, B>, ws: seq<Worker<S, B>>, p: nat, q: nat, mem: Mem<S>,
                                                 outs: seq<Out<B>>, n: nat, e: Envelope<B>)
    requires |cfg.nodes| == |cfg.uuid| == |cfg.inputs| == |cfg.bindings| == |ws| && p < |ws| && n <= |outs|
    requires Partway(ws[p], q, mem, outs, 0) && HeadIs(ws[p], q, e)
    ensures var pubs := WorkerKernel.Publications(cfg.uuid[p], mem.counters, outs);
            SameQueues(From(cfg, ws, PublishSteps(p, n)), Delivered(ws, cfg.bindings[p], pubs[..n]))
  {
    if n > 0 {
      var pubs := WorkerKernel.Publications(cfg.uuid[p], mem.counters, outs);
      PublishRunJoins(cfg, ws, p, q, mem, outs, n - 1, e);
      PublishRun(cfg, ws, p, q, mem, outs, n - 1, e);
      FromSnoc(cfg, ws, PublishSteps(p, n - 1), Publish(p));
      assert pubs[..n][..n - 1] == pubs[..n - 1] && pubs[..n][n - 1] == pubs[n - 1];
      PublishJoins(cfg, From(cfg, ws, PublishSteps(p, n - 1)), p, q, mem, outs, n - 1,
                   Delivered(ws, cfg.bindings[p], pubs[..n - 1]));
    }
  }

  /** A turn of the consume loop as steps of the network. */
  function TurnSteps<B>(p: nat, q: nat, n: nat): seq<Action<B>> {
    [Start(p, q)] + PublishSteps(p, n) + [Log(p)]
  }

  /** The turn is the network's: taking the head of a queue, publishing and logging leave memory, log and queues where
      Worker.Consume says, and every message goes to the queue that its key is bound to. */
  lemma ConsumeIsTurn<S, B>(cfg: Config<S, B>, ws: seq<Worker<S, B>>, p: nat, q: nat)
    requires |cfg.nodes| == |cfg.uuid| == |cfg.inputs| == |cfg.bindings| == |ws|
    requires p < |ws| && ws[p].phase.Idle? && Has(ws, p, q) && !IsDup(ws[p].queues[q][0], ws[p].mem.marks)
    ensures var w, e := ws[p], ws[p].queues[q][0];
            var outs := cfg.nodes[p].process(w.mem.node, e).1;
            var ws' := From(cfg, ws, TurnSteps(p, q, |outs|));
            && ws'[p].mem == WorkerKernel.Live(cfg.nodes[p], w.mem, e)
            && ws'[p].log == w.log + [Record(e, Numbered(w.mem.counters, outs))] && ws'[p].phase == Acking(q)
            && SameQueues(ws', Delivered(ws, cfg.bindings[p],
                                         WorkerKernel.Publications(cfg.uuid[p], w.mem.counters, outs)))
  {
    var w, e := ws[p], ws[p].queues[q][0];
    var (s, outs) := cfg.nodes[p].process(w.mem.node, e);
    var mem := Mem(s, w.mem.counters, w.mem.marks[e.src := e.id + 1]);
    var begun := ws[p := Begin(cfg.nodes[p], w, q)];
    Begun(cfg, ws, p, q);
    var out := From(cfg, begun, PublishSteps(p, |outs|));
    PublishRun(cfg, begun, p, q, mem, outs, |outs|, e);
    PublishRunJoins(cfg, begun, p, q, mem, outs, |outs|, e);
    FromConcat(cfg, ws, [Start(p, q)], PublishSteps(p, |outs|));
    FromSnoc(cfg, ws, [Start(p, q)] + PublishSteps(p, |outs|), Log(p));
    var pubs := WorkerKernel.Publications(cfg.uuid[p], w.mem.counters, outs);
    assert pubs[..|outs|] == pubs;
    DeliveredAlike(begun, ws, cfg.bindings[p], pubs);
    LogsRecord(cfg, out, p, q, mem, outs, e);
  }

  lemma LogsRecord<S, B>(cfg: Config<S, B>, ws: seq<Worker<S, B>>, p: nat, q: nat, mem: Mem<S>, outs: seq<Out<B>>,
                         e: Envelope<B>)
    requires |cfg.nodes| == |cfg.uuid| == |cfg.inputs| == |cfg.bindings| == |ws| && p < |ws|
    requires Partway(ws[p], q, mem, outs, |outs|) && HeadIs(ws[p], q, e)
    ensures var ws' := Step(cfg, ws, Log(p));
            && ws'[p].mem == mem.(counters := Bump(mem.counters, outs)) && ws'[p].phase == Acking(q)
            && ws'[p].log == ws[p].log + [Record(e, Numbered(mem.counters, outs))] && SameQueues(ws', ws)
  {
    assert outs[..|outs|] == outs;
    LogStep(cfg, ws, p);
  }

  /** Taking a new message. */
  lemma Begun<S, B>(cfg: Config<S, B>, ws: seq<Worker<S, B>>, p: nat, q: nat)
    requires |cfg.nodes| == |cfg.uuid| == |cfg.inputs| == |cfg.bindings| == |ws|
    requires p < |ws| && ws[p].phase.Idle? && Has(ws, p, q) && !IsDup(ws[p].queues[q][0], ws[p].mem.marks)
    ensures var e := ws[p].queues[q][0]; var (s, outs) := cfg.nodes[p].process(ws[p].mem.node, e);
            var begun := ws[p := Begin(cfg.nodes[p], ws[p], q)];
            && From(cfg, ws, [Start(p, q)]) == begun && SameQueues(begun, ws) && begun[p].log == ws[p].log
            && Partway(begun[p], q, Mem(s, ws[p].mem.counters, ws[p].mem.marks[e.src := e.id + 1]), outs, 0)
            && HeadIs(begun[p], q, e)
  {
    var outs := cfg.nodes[p].process(ws[p].mem.node, ws[p].queues[q][0]).1;
    assert outs[..0] == [];
    FromOne(cfg, ws, Start(p, q));
  }

  lemma {:induction false} DeliveredAlike<S, B>(a: seq<Worker<S, B>>, b: seq<Worker<S, B>>, binding: map<string, Port>,
                                                pubs: seq<Publication<B>>)
    requires SameQueues(a, b)
    ensures SameQueues(Delivered(a, binding, pubs), Delivered(b, binding, pubs))
  {
    if pubs != [] {
      var init, last := pubs[..|pubs| - 1], pubs[|pubs| - 1];
      DeliveredAlike(a, b, binding, init);
      SameJoins(Delivered(a, binding, init), Delivered(b, binding, init), binding, last.key, last.message);
    }
  }
}
