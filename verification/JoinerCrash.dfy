/** A crash that is visible. The joiner of query 3 reads reviews and names from two queues. It is interrupted after
    publishing a total and before logging it; taking the other queue first, it loses the total
    published from there. */
module JoinerCrash {
  import opened Protocol
  import opened Dedup
  import opened Messages
  import opened Joiner
  import opened JoinerNodes
  import TopJoiner
  import opened CrashNetwork
  import opened Simulation
  import opened Streams
  import opened LiveMemory
  import opened ExactlyOnce

  type JoinerWorker = Worker<NodeState, Body>

  function Joining(): Node<NodeState, Body> {
    AsNode(TopJoiner.TopKind(), "k")
  }

  function Sink(): Node<NodeState, Body> {
    CrashNetwork.Node(NodeState(map[], map[]), (s: NodeState, e: Envelope<Body>) => (s, []),
                      (s: NodeState, e: Envelope<Body>) => s)
  }

  /** The joiner with its queue of reviews and its queue of names, and a consumer. */
  function Pair(): Config<NodeState, Body> {
    Config([Joining(), Sink()], ["joiner", "sink"], [2, 1], [map["k" := Port(1, 0)], map[]],
           (w: nat, src: string) => if src == "names" then 1 else 0)
  }

  lemma PairValid()
    ensures Valid(Pair())
  {
    ReplayIsFaithful(TopJoiner.TopKind(), "k");
    assert ReplayFaithful(Sink());
  }

  function Reader(queue: seq<Envelope<Body>>): JoinerWorker {
    Worker([queue], [], Mem(NodeState(map[], map[]), map[], map[]), Idle, None)
  }

  function Two(w: JoinerWorker, sink: seq<Envelope<Body>>): seq<JoinerWorker> {
    [w, Reader(sink)]
  }

  lemma Booted()
    ensures Boot(Pair()) == Two(Worker([[], []], [], Mem(NodeState(map[], map[]), map[], map[]), Idle, None), [])
  {
    var ws := Boot(Pair());
    assert ws[0].queues == [[], []] && ws[1].queues == [[]];
  }

  lemma StepArrive(w: JoinerWorker, sink: seq<Envelope<Body>>, q: nat, e: Envelope<Body>)
    requires |w.queues| == 2 && e.src == (if q == 1 then "names" else "reviews") && q < 2
    ensures Step(Pair(), Two(w, sink), Arrive(0, q, e)) == Two(Enqueue(w, q, e), sink)
  {
    assert "joiner"[0] == 'j' && "sink"[0] == 's' && "names"[0] == 'n' && "reviews"[0] == 'r';
    assert e.src !in Pair().uuid;
  }

  lemma StepStart(w: JoinerWorker, sink: seq<Envelope<Body>>, q: nat)
    requires w.phase.Idle? && q < |w.queues| && |w.queues[q]| > 0
    ensures Step(Pair(), Two(w, sink), Start(0, q)) == Two(Begin(Joining(), w, q), sink)
  {
  }

  lemma StepPublish(w: JoinerWorker, sink: seq<Envelope<Body>>)
    requires CanPublish(w) && NextDest(w).key == "k"
    ensures Step(Pair(), Two(w, sink), Publish(0)) ==
            Two(Sent(w), sink + [Envelope("joiner", NextDest(w).id, w.phase.outs[|w.phase.sent|].body)])
  {
    var e := Envelope("joiner", NextDest(w).id, w.phase.outs[|w.phase.sent|].body);
    assert Reader(sink).queues[0 := sink + [e]] == Reader(sink + [e]).queues;
    assert Step(Pair(), Two(w, sink), Publish(0)) == Deliver(Two(Sent(w), sink), map["k" := Port(1, 0)], "k", e);
  }

  lemma StepLog(w: JoinerWorker, sink: seq<Envelope<Body>>)
    requires w.phase.Publishing? && |w.phase.sent| == |w.phase.outs|
    requires w.phase.queue < |w.queues| && |w.queues[w.phase.queue]| > 0
    ensures Step(Pair(), Two(w, sink), Log(0)) == Two(Logged(w), sink)
  {
  }

  lemma StepAck(w: JoinerWorker, sink: seq<Envelope<Body>>)
    requires w.phase.Acking? && w.phase.queue < |w.queues| && |w.queues[w.phase.queue]| > 0
    ensures var q := w.phase.queue;
            Step(Pair(), Two(w, sink), Ack(0)) ==
              Two(w.(queues := w.queues[q := w.queues[q][1..]], phase := Idle), sink)
  {
  }

  lemma StepCrash(w: JoinerWorker, sink: seq<Envelope<Body>>)
    ensures Step(Pair(), Two(w, sink), Crash(0)) == Two(w.(phase := Down), sink)
    ensures w.phase.Down? ==>
              Step(Pair(), Two(w, sink), Recover(0)) == Two(w.(mem := Replay(Joining(), w.log), phase := Idle), sink)
  {
  }

  /** A run that has led here, with what it has left behind, and with the interrupted delivery always taken up first. */
  ghost predicate Reached(acts: seq<Action<Body>>, ws: seq<JoinerWorker>, r: seq<Body>) {
    Exec(Pair(), acts) == ws && Residue(Pair(), acts, 0, "k") == r && ResumesAt(Pair(), acts, 0)
  }

  lemma Next(acts: seq<Action<Body>>, ws: seq<JoinerWorker>, r: seq<Body>, a: Action<Body>, ws': seq<JoinerWorker>)
    requires Reached(acts, ws, r) && |ws| == 2 && Step(Pair(), ws, a) == ws' && Tidy(ws, a)
    ensures Reached(acts + [a], ws', NextResidue(ws, a, 0, "k", r))
  {
    var acts' := acts + [a];
    assert acts'[..|acts|] == acts;
    forall n | 0 <= n < |acts'| && acts'[n].w == 0
      ensures Tidy(Exec(Pair(), acts'[..n]), acts'[n])
    {
      assert n < |acts| ==> acts'[..n] == acts[..n] && acts'[n] == acts[n];
    }
  }

  /** A delivery that publishes nothing, from beginning to end. */
  function Quietly(w: JoinerWorker, q: nat): JoinerWorker
    requires q < |w.queues| && |w.queues[q]| > 0
  {
    var e := w.queues[q][0];
    Worker(w.queues[q := w.queues[q][1..]], w.log + [Record(e, [])],
           Mem(Joining().process(w.mem.node, e).0, w.mem.counters, w.mem.marks[e.src := e.id + 1]), Idle, None)
  }

  lemma QuietDelivery(acts: seq<Action<Body>>, w: JoinerWorker, q: nat)
    requires Reached(acts, Two(w, []), []) && w.phase.Idle? && w.partial.None? && q < |w.queues| && |w.queues[q]| > 0
    requires !IsDup(w.queues[q][0], w.mem.marks) && Joining().process(w.mem.node, w.queues[q][0]).1 == []
    ensures Reached(acts + [Start(0, q)] + [Log(0)] + [Ack(0)], Two(Quietly(w, q), []), [])
  {
    var begun := Begin(Joining(), w, q);
    StepStart(w, [], q);
    Next(acts, Two(w, []), [], Start(0, q), Two(begun, []));
    StepLog(begun, []);
    Next(acts + [Start(0, q)], Two(begun, []), [], Log(0), Two(Logged(begun), []));
    StepAck(Logged(begun), []);
    Next(acts + [Start(0, q)] + [Log(0)], Two(Logged(begun), []), [], Ack(0), Two(Quietly(w, q), []));
  }

  // The run: game 2 gets its name, game 1 a review; then a review of game 2 and the name of game 1 come in.

  const NAME2: Envelope<Body> := Envelope("names", 0, NameIn("c", GameName(2, "b")))
  const REVIEW1: Envelope<Body> := Envelope("reviews", 0, ReviewIn("c", ScoredReview(1, 3, "")))
  const REVIEW2: Envelope<Body> := Envelope("reviews", 1, ReviewIn("c", ScoredReview(2, 5, "")))
  const NAME1: Envelope<Body> := Envelope("names", 1, NameIn("c", GameName(1, "a")))
  const TOTAL1: Body := ReviewsOut("c", [ScoredReview(1, 3, "a")])
  const TOTAL2: Body := ReviewsOut("c", [ScoredReview(2, 5, "b")])

  function Known2(): NodeState {
    NodeState(map["c" := map[2 := Info("b", 0, false)]], map[])
  }

  function KnownBoth(): NodeState {
    NodeState(map["c" := map[2 := Info("b", 0, false), 1 := Info("", 3, false)]], map[])
  }

  /** The joiner as the network runs it, for a message that publishes nothing or one total. */
  lemma Processes(st: NodeState, e: Envelope<Body>, outs: seq<Body>)
    requires Processed(TopJoiner.TopKind(), st, e.body, false).1 == outs
    ensures Joining().process(st, e).0 == Processed(TopJoiner.TopKind(), st, e.body, false).0
    ensures outs == [] ==> Joining().process(st, e).1 == []
    ensures |outs| == 1 ==> Joining().process(st, e).1 == [Out("k", outs[0])]
  {
  }

  lemma NameArrives()
    ensures Joining().process(NodeState(map[], map[]), NAME2) == (Known2(), [])
  {
    var none: map<string, Games> := map[];
    assert none["c" := map[2 := Info("b", 0, false)]] == Known2().games;
    Processes(NodeState(map[], map[]), NAME2, []);
  }

  lemma ReviewArrives()
    ensures Joining().process(Known2(), REVIEW1) == (KnownBoth(), [])
  {
    assert map[2 := Info("b", 0, false)][1 := Info("", 3, false)] ==
           map[2 := Info("b", 0, false), 1 := Info("", 3, false)];
    assert Known2().games["c" := map[2 := Info("b", 0, false), 1 := Info("", 3, false)]] == KnownBoth().games;
    Processes(Known2(), REVIEW1, []);
  }

  /** Each of the two waiting messages has a total published, one of either game. */
  lemma BothPublish()
    ensures Joining().process(KnownBoth(), REVIEW2).1 == [Out("k", TOTAL2)]
    ensures Joining().process(KnownBoth(), NAME1).1 == [Out("k", TOTAL1)]
  {
    Processes(KnownBoth(), REVIEW2, [TOTAL2]);
    Processes(KnownBoth(), NAME1, [TOTAL1]);
  }

  lemma QueueChanges(a: seq<Envelope<Body>>, b: seq<Envelope<Body>>, x: seq<Envelope<Body>>)
    ensures [a, b][0 := x] == [x, b] && [a, b][1 := x] == [a, x]
  {
  }

  lemma OneIn(e: Envelope<Body>)
    ensures var none: seq<Envelope<Body>> := []; none + [e] == [e] && [e][1..] == []
  {
  }

  function Marked1(): Counters { map["names" := 1] }

  function Marked2(): Counters { map["names" := 1, "reviews" := 1] }

  /** The worker with both games known and the two messages waiting. */
  function Loaded(log: seq<Record<Body>>): JoinerWorker {
    Worker([[REVIEW2], [NAME1]], log, Mem(KnownBoth(), map[], Marked2()), Idle, None)
  }

  function Started(log: seq<Record<Body>>, st: NodeState, marks: Counters): JoinerWorker {
    Worker([[], []], log, Mem(st, map[], marks), Idle, None)
  }

  lemma StartedQuietly(log: seq<Record<Body>>, st: NodeState, marks: Counters, q: nat, e: Envelope<Body>,
                       st': NodeState)
    requires q < 2 && !IsDup(e, marks) && Joining().process(st, e) == (st', [])
    ensures var w := Enqueue(Started(log, st, marks), q, e);
            && w.queues[q] == [e] && Quietly(w, q) == Started(log + [Record(e, [])], st', marks[e.src := e.id + 1])
  {
    OneIn(e);
    if q == 0 {
      QueueChanges([], [], [e]);
      QueueChanges([e], [], []);
    } else {
      QueueChanges([], [], [e]);
      QueueChanges([], [e], []);
    }
  }

  /** A message comes in and is processed, and nothing is published. */
  lemma Digested(acts: seq<Action<Body>>, log: seq<Record<Body>>, st: NodeState, marks: Counters, q: nat,
                 e: Envelope<Body>,
                 st': NodeState) returns (acts': seq<Action<Body>>, log': seq<Record<Body>>)
    requires Reached(acts, Two(Started(log, st, marks), []), []) && q < 2 &&
             e.src == (if q == 1 then "names" else "reviews")
    requires !IsDup(e, marks) && Joining().process(st, e) == (st', [])
    ensures Reached(acts', Two(Started(log', st', marks[e.src := e.id + 1]), []), [])
  {
    var w := Started(log, st, marks);
    var w1 := Enqueue(w, q, e);
    StartedQuietly(log, st, marks, q, e, st');
    StepArrive(w, [], q, e);
    Next(acts, Two(w, []), [], Arrive(0, q, e), Two(w1, []));
    QuietDelivery(acts + [Arrive(0, q, e)], w1, q);
    acts' := acts + [Arrive(0, q, e)] + [Start(0, q)] + [Log(0)] + [Ack(0)];
    log' := log + [Record(e, [])];
  }

  lemma FirstReview() returns (acts: seq<Action<Body>>, log: seq<Record<Body>>)
    ensures Reached(acts, Two(Started(log, KnownBoth(), Marked2()), []), [])
  {
    Booted();
    NameArrives();
    ReviewArrives();
    assert Reached([], Two(Started([], NodeState(map[], map[]), map[]), []), []);
    acts, log := Digested([], [], NodeState(map[], map[]), map[], 1, NAME2, Known2());
    assert "reviews" !in Marked1() by {
      assert "reviews"[0] == 'r' && "names"[0] == 'n';
    }
    acts, log := Digested(acts, log, Known2(), Marked1(), 0, REVIEW1, KnownBoth());
    assert Marked1()["reviews" := 1] == Marked2();
  }

  lemma BothIn(log: seq<Record<Body>>)
    ensures Enqueue(Enqueue(Started(log, KnownBoth(), Marked2()), 0, REVIEW2), 1, NAME1) == Loaded(log)
  {
    OneIn(REVIEW2);
    OneIn(NAME1);
    QueueChanges([], [], [REVIEW2]);
    QueueChanges([REVIEW2], [], [NAME1]);
  }

  lemma IdleReplays(acts: seq<Action<Body>>, w: JoinerWorker, sink: seq<Envelope<Body>>)
    requires Exec(Pair(), acts) == Two(w, sink) && w.phase.Idle?
    ensures Replay(Joining(), w.log) == w.mem
  {
    PairValid();
    assert ReplayFaithful(Pair().nodes[0]);
    ReplayEqualsLive(Pair(), acts, 0);
  }

  lemma BothWaiting() returns (acts: seq<Action<Body>>, log: seq<Record<Body>>)
    ensures Reached(acts, Two(Loaded(log), []), []) && Replay(Joining(), log) == Loaded(log).mem
  {
    acts, log := FirstReview();
    var w := Started(log, KnownBoth(), Marked2());
    var w1 := Enqueue(w, 0, REVIEW2);
    BothIn(log);
    StepArrive(w, [], 0, REVIEW2);
    Next(acts, Two(w, []), [], Arrive(0, 0, REVIEW2), Two(w1, []));
    StepArrive(w1, [], 1, NAME1);
    Next(acts + [Arrive(0, 0, REVIEW2)], Two(w1, []), [], Arrive(0, 1, NAME1), Two(Loaded(log), []));
    acts := acts + [Arrive(0, 0, REVIEW2)] + [Arrive(0, 1, NAME1)];
    IdleReplays(acts, Loaded(log), []);
  }

  /** The worker in the middle of the delivery at the head of queue q, about to publish total. */
  lemma Taken(log: seq<Record<Body>>, partial: Option<nat>, q: nat, sink: seq<Envelope<Body>>)
    requires q < 2
    ensures var w := Loaded(log).(partial := partial); var begun := Begin(Joining(), w, q);
            && Step(Pair(), Two(w, sink), Start(0, q)) == Two(begun, sink)
            && Takes(Two(w, sink), Start(0, q), 0)
            && begun.phase == Publishing(q, [], [Out("k", if q == 0 then TOTAL2 else TOTAL1)])
            && begun.mem.counters == map[] && begun.queues == w.queues && begun.log == log && begun.partial == partial
  {
    BothPublish();
    var w := Loaded(log).(partial := partial);
    StepStart(w, sink, q);
    assert "reviews" in Marked2() && "names" in Marked2();
    assert !IsDup(REVIEW2, Marked2()) && !IsDup(NAME1, Marked2());
  }

  /** The only message of a delivery goes out. */
  lemma TotalOut(w: JoinerWorker, q: nat, total: Body, sink: seq<Envelope<Body>>)
    requires w.phase == Publishing(q, [], [Out("k", total)]) && w.mem.counters == map[]
    ensures CanPublish(w) && NextDest(w) == Dest("k", 0)
    ensures Step(Pair(), Two(w, sink), Publish(0)) == Two(Sent(w), sink + [Envelope("joiner", 0, total)])
    ensures Sent(w).phase == Publishing(q, [Dest("k", 0)], [Out("k", total)])
  {
    StepPublish(w, sink);
    var none: seq<Dest> := [];
    assert none + [Dest("k", 0)] == [Dest("k", 0)];
  }

  lemma Published() returns (acts: seq<Action<Body>>, log: seq<Record<Body>>, w: JoinerWorker,
                             sink: seq<Envelope<Body>>)
    ensures Reached(acts, Two(w, sink), [TOTAL2]) && w.partial == Some(0)
    ensures w.queues == Loaded(log).queues && w.log == log && Replay(Joining(), log) == Loaded(log).mem
  {
    acts, log := BothWaiting();
    Taken(log, None, 0, []);
    var begun := Begin(Joining(), Loaded(log), 0);
    assert Loaded(log).(partial := None) == Loaded(log);
    Next(acts, Two(Loaded(log), []), [], Start(0, 0), Two(begun, []));
    TotalOut(begun, 0, TOTAL2, []);
    w, sink := Sent(begun), [] + [Envelope("joiner", 0, TOTAL2)];
    Next(acts + [Start(0, 0)], Two(begun, []), [], Publish(0), Two(w, sink));
    FirstLeft(begun, sink);
    acts := acts + [Start(0, 0)] + [Publish(0)];
  }

  lemma FirstLeft(begun: JoinerWorker, sink: seq<Envelope<Body>>)
    requires begun.phase == Publishing(0, [], [Out("k", TOTAL2)]) && begun.mem.counters == map[]
    ensures NextResidue(Two(begun, []), Publish(0), 0, "k", []) == [TOTAL2]
  {
    assert begun.phase.outs[..0] == [];
    var none: seq<Body> := [];
    assert none + [TOTAL2] == [TOTAL2];
  }

  /** The review of game 2 is taken, its total published, and the joiner crashes and recovers. */
  lemma Interrupted() returns (acts: seq<Action<Body>>, log: seq<Record<Body>>, sink: seq<Envelope<Body>>)
    ensures Reached(acts, Two(Loaded(log).(partial := Some(0)), sink), [TOTAL2])
  {
    var w;
    acts, log, w, sink := Published();
    var down := w.(phase := Down);
    StepCrash(w, sink);
    Next(acts, Two(w, sink), [TOTAL2], Crash(0), Two(down, sink));
    StepCrash(down, sink);
    Next(acts + [Crash(0)], Two(down, sink), [TOTAL2], Recover(0), Two(Loaded(log).(partial := Some(0)), sink));
    acts := acts + [Crash(0)] + [Recover(0)];
  }

  lemma ExecNext(acts: seq<Action<Body>>, a: Action<Body>)
    ensures Exec(Pair(), acts + [a]) == Step(Pair(), Exec(Pair(), acts), a)
  {
    assert (acts + [a])[..|acts|] == acts;
  }

  lemma OtherTaken(acts: seq<Action<Body>>, log: seq<Record<Body>>, sink: seq<Envelope<Body>>)
    requires Exec(Pair(), acts) == Two(Loaded(log).(partial := Some(0)), sink)
    ensures var run := acts + [Start(0, 1)] + [Publish(0)];
            && Takes(Exec(Pair(), acts), Start(0, 1), 0)
            && CanLog(Exec(Pair(), run), 0) && Exec(Pair(), run)[0].phase.outs == [Out("k", TOTAL1)]
  {
    var w := Loaded(log).(partial := Some(0));
    var begun := Begin(Joining(), w, 1);
    Taken(log, Some(0), 1, sink);
    ExecNext(acts, Start(0, 1));
    TotalOut(begun, 1, TOTAL1, sink);
    ExecNext(acts + [Start(0, 1)], Publish(0));
  }

  lemma OneTotal(total: Body)
    ensures BodiesTo("k", [Out("k", total)]) == [total]
  {
    BodiesOne("k", Out("k", total));
  }

  /** Exactly once fails for the joiner of query 3. It has published the total of game 2 and crashed; it takes the
      name of game 1 from its other queue, publishes that game's total under the same id, and logs it. The log
      accounts for the total of game 1, which the consumer has dropped as a duplicate. */
  lemma OtherQueueFirstIsVisible() returns (acts: seq<Action<Body>>)
    ensures Valid(Pair()) && ResumesAt(Pair(), acts, 0)
    ensures Takes(Exec(Pair(), acts), Start(0, 1), 0) && Residue(Pair(), acts, 0, "k") == [TOTAL2]
    ensures var run := acts + [Start(0, 1)] + [Publish(0)];
            && CanLog(Exec(Pair(), run), 0) && Exec(Pair(), run)[0].phase.outs == [Out("k", TOTAL1)]
            && !Exact(Pair(), Exec(Pair(), run + [Log(0)]), 0, "k")
  {
    var log, sink;
    acts, log, sink := Interrupted();
    PairValid();
    OtherTaken(acts, log, sink);
    InterruptedThenOther(Pair(), acts, [Publish(0)], 0, 1, "k");
    OneTotal(TOTAL1);
    assert [TOTAL2][0] != [TOTAL1][0];
  }
}
