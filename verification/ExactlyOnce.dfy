/** Exactly once on every schedule. What consumers see of a producer is its logged output and, behind that, what
    attempts that were never logged have left; it stays exact exactly as long as every delivery logged continues what
    was left. */
module ExactlyOnce {
  import opened Protocol
  import opened Dedup
  import opened CrashNetwork
  import opened Simulation
  import opened LiveMemory
  import opened Streams
  import opened TwoInputs

  // The consumer.

  /** What worker w has accepted from src, and then what waits for it in queue q. */
  ghost function Visible<S, B>(node: Node<S, B>, w: Worker<S, B>, q: nat, src: string): seq<Envelope<B>>
    requires q < |w.queues|
  {
    Sourced(src, Deliveries(w.log)) + Sourced(src, Waiting(node, w, q))
  }

  lemma Behind<T>(a: seq<T>, b: seq<T>, c: seq<T>)
    ensures a + (b + c) == (a + b) + c
  {
  }

  lemma WaitingEnqueue<S, B>(node: Node<S, B>, w: Worker<S, B>, to: nat, e: Envelope<B>, q: nat, src: string)
    requires to < |w.queues| && q < |w.queues|
    ensures Sourced(src, Waiting(node, Enqueue(w, to, e), q)) ==
            Sourced(src, Waiting(node, w, q)) +
            if to == q && e.src == src && e.id >= ReachedMark(node, w, q, src) then [e] else []
  {
    var marks := Replay(node, w.log).marks;
    if to == q {
      AcceptAppend(w.queues[q], e, marks);
      var more := if IsDup(e, Marks(w.queues[q], marks)) then [] else [e];
      SourcedConcat(src, Accept(w.queues[q], marks), more);
      SourcedOne(src, e);
    }
  }

  lemma VisibleEnqueue<S, B>(node: Node<S, B>, w: Worker<S, B>, to: nat, e: Envelope<B>, q: nat, src: string)
    requires to < |w.queues| && q < |w.queues|
    ensures Visible(node, Enqueue(w, to, e), q, src) ==
            Visible(node, w, q, src) +
            if to == q && e.src == src && e.id >= ReachedMark(node, w, q, src) then [e] else []
  {
    WaitingEnqueue(node, w, to, e, q, src);
    Behind(Sourced(src, Deliveries(w.log)), Sourced(src, Waiting(node, w, q)),
           if to == q && e.src == src && e.id >= ReachedMark(node, w, q, src) then [e] else []);
  }

  lemma HeadMoves<B>(src: string, log: seq<Envelope<B>>, e: Envelope<B>, rest: seq<Envelope<B>>)
    ensures Sourced(src, log + [e]) + Sourced(src, rest) == Sourced(src, log) + Sourced(src, [e] + rest)
    ensures e.src != src ==> Sourced(src, log + [e]) == Sourced(src, log)
  {
    SourcedConcat(src, log, [e]);
    SourcedConcat(src, [e], rest);
    SourcedOne(src, e);
    Behind(Sourced(src, log), Sourced(src, [e]), Sourced(src, rest));
  }

  /** Logging moves the head of a queue from what waits to what is accepted. */
  lemma VisibleLog<S(!new), B(!new)>(cfg: Config<S, B>, ws: seq<Worker<S, B>>, v: nat, q: nat, src: string)
    requires Shaped(cfg, ws) && v < |ws| && q < |ws[v].queues| && cfg.home(v, src) == q
    requires ws[v].phase.Publishing? && MemOk(cfg.nodes[v], ws[v]) && |ws[v].phase.sent| == |ws[v].phase.outs|
    ensures Visible(cfg.nodes[v], Logged(ws[v]), q, src) == Visible(cfg.nodes[v], ws[v], q, src)
  {
    var w, marks, h := ws[v], Replay(cfg.nodes[v], ws[v].log).marks, ws[v].phase.queue;
    var e := w.queues[h][0];
    var before, after := Waiting(cfg.nodes[v], w, q), Waiting(cfg.nodes[v], Logged(w), q);
    LoggedQueues(cfg, ws, v, h, marks, q);
    LoggedMarks(cfg.nodes[v], w);
    HeadMoves(src, Deliveries(w.log), e, after);
    if h == q {
      assert before == [e] + after;
    } else {
      assert Homed(cfg, v, h, w.queues[h]) && e in w.queues[h];
      assert before == after && e.src != src;
    }
  }

  lemma LoggedMarks<S, B>(node: Node<S, B>, w: Worker<S, B>)
    requires w.phase.Publishing? && w.phase.queue < |w.queues| && |w.queues[w.phase.queue]| > 0
    ensures var e := w.queues[w.phase.queue][0];
            && Replay(node, Logged(w).log).marks == Replay(node, w.log).marks[e.src := e.id + 1]
            && Deliveries(Logged(w).log) == Deliveries(w.log) + [e]
  {
    assert Logged(w).log[..|w.log|] == w.log;
  }

  predicate CanLog<S, B>(ws: seq<Worker<S, B>>, p: nat) {
    p < |ws| && ws[p].phase.Publishing? && |ws[p].phase.sent| == |ws[p].phase.outs| && Has(ws, p, ws[p].phase.queue)
  }

  /** The message that a step puts into queue q of worker v. */
  function Incoming<S, B>(cfg: Config<S, B>, ws: seq<Worker<S, B>>, a: Action<B>, v: nat, q: nat): Option<Envelope<B>>
    requires Sized(cfg, ws)
  {
    match a
    case Arrive(w, to, e) =>
      if w == v && to == q && e.src !in cfg.uuid && cfg.home(w, e.src) == q then Some(e) else None
    case Publish(p) =>
      if p < |ws| && CanPublish(ws[p]) && NextDest(ws[p]).key in cfg.bindings[p] &&
         cfg.bindings[p][NextDest(ws[p]).key] == Port(v, q)
      then Some(NextMessage(cfg, ws, p)) else None
    case _ => None
  }

  /** How one step changes what is visible of src at worker v. */
  ghost predicate ViewKept<S, B>(node: Node<S, B>, w: Worker<S, B>, w': Worker<S, B>, q: nat, src: string,
                                 incoming: Option<Envelope<B>>)
  {
    && q < |w.queues| == |w'.queues|
    && var grows := incoming.Some? && incoming.value.src == src && incoming.value.id >= ReachedMark(node, w, q, src);
    && Visible(node, w', q, src) == Visible(node, w, q, src) + (if grows then [incoming.value] else [])
    && ReachedMark(node, w', q, src) == if grows then incoming.value.id + 1 else ReachedMark(node, w, q, src)
  }

  lemma ViewEnqueue<S, B>(node: Node<S, B>, w: Worker<S, B>, to: nat, e: Envelope<B>, q: nat, src: string)
    requires to < |w.queues| && q < |w.queues|
    ensures ViewKept(node, w, Enqueue(w, to, e), q, src, if to == q then Some(e) else None)
  {
    VisibleEnqueue(node, w, to, e, q, src);
    ReachedAfterEnqueue(node, w, to, e, q, src);
  }

  lemma ViewPublish<S(!new), B(!new)>(cfg: Config<S, B>, ws: seq<Worker<S, B>>, p: nat, v: nat, q: nat, src: string)
    requires Shaped(cfg, ws) && v < |ws| && q < |ws[v].queues| && p < |ws|
    ensures ViewKept(cfg.nodes[v], ws[v], Step(cfg, ws, Publish(p))[v], q, src, Incoming(cfg, ws, Publish(p), v, q))
  {
    if CanPublish(ws[p]) {
      var ws1, key := ws[p := Sent(ws[p])], NextDest(ws[p]).key;
      assert ws1[v].queues == ws[v].queues && ws1[v].log == ws[v].log;
      if key in cfg.bindings[p] && cfg.bindings[p][key].worker == v && cfg.bindings[p][key].queue < |ws1[v].queues| {
        ViewEnqueue(cfg.nodes[v], ws1[v], cfg.bindings[p][key].queue, NextMessage(cfg, ws, p), q, src);
        ViewAsBefore(cfg.nodes[v], ws[v], ws1[v], q, src);
      } else {
        ViewSame(cfg.nodes[v], ws[v], Step(cfg, ws, Publish(p))[v], q, src);
      }
    } else {
      ViewSame(cfg.nodes[v], ws[v], ws[v], q, src);
    }
  }

  /** Only queues and log matter for what is visible. */
  lemma ViewAsBefore<S, B>(node: Node<S, B>, w: Worker<S, B>, w': Worker<S, B>, q: nat, src: string)
    requires w'.queues == w.queues && w'.log == w.log && q < |w.queues|
    ensures Visible(node, w', q, src) == Visible(node, w, q, src) &&
            ReachedMark(node, w', q, src) == ReachedMark(node, w, q, src)
  {
  }

  lemma ViewLog<S(!new), B(!new)>(cfg: Config<S, B>, ws: seq<Worker<S, B>>, v: nat, q: nat, src: string)
    requires Shaped(cfg, ws) && v < |ws| && q < |ws[v].queues| && cfg.home(v, src) == q
    requires MemOk(cfg.nodes[v], ws[v]) && CanLog(ws, v)
    ensures ViewKept(cfg.nodes[v], ws[v], Logged(ws[v]), q, src, None)
  {
    VisibleLog(cfg, ws, v, q, src);
    LoggedReached(cfg, ws, v, q, src);
  }

  /** Taking the head of a queue and crashing leave queues and log; an acknowledged head was a duplicate. */
  lemma ViewOther<S, B>(cfg: Config<S, B>, ws: seq<Worker<S, B>>, a: Action<B>, v: nat, q: nat, src: string)
    requires Sized(cfg, ws) && v < |ws| && q < |ws[v].queues| && MemOk(cfg.nodes[v], ws[v])
    requires a.Start? || a.Ack? || a.Crash? || a.Recover?
    ensures ViewKept(cfg.nodes[v], ws[v], Step(cfg, ws, a)[v], q, src, None)
  {
    if a.Ack? && a.w == v && ws[v].phase.Acking? {
      ViewAck(cfg.nodes[v], ws[v], q, src);
    } else {
      ViewSame(cfg.nodes[v], ws[v], Step(cfg, ws, a)[v], q, src);
    }
  }

  lemma ViewSame<S, B>(node: Node<S, B>, w: Worker<S, B>, w': Worker<S, B>, q: nat, src: string)
    requires w'.queues == w.queues && w'.log == w.log && q < |w.queues|
    ensures ViewKept(node, w, w', q, src, None)
  {
  }

  /** The worker without the head it has acknowledged. */
  function Acked<S, B>(w: Worker<S, B>): Worker<S, B>
    requires w.phase.Acking? && w.phase.queue < |w.queues| && |w.queues[w.phase.queue]| > 0
  {
    w.(queues := w.queues[w.phase.queue := w.queues[w.phase.queue][1..]], phase := Idle)
  }

  lemma ViewAck<S, B>(node: Node<S, B>, w: Worker<S, B>, q: nat, src: string)
    requires MemOk(node, w) && w.phase.Acking? && q < |w.queues|
    ensures ViewKept(node, w, Acked(w), q, src, None)
  {
    var base := Replay(node, w.log);
    assert IsDup(w.queues[w.phase.queue][0], base.marks);
  }

  lemma ViewStep<S(!new), B(!new)>(cfg: Config<S, B>, ws: seq<Worker<S, B>>, a: Action<B>, v: nat, q: nat, src: string)
    requires Shaped(cfg, ws) && v < |ws| && q < |ws[v].queues| && cfg.home(v, src) == q
    requires MemOk(cfg.nodes[v], ws[v])
    ensures ViewKept(cfg.nodes[v], ws[v], Step(cfg, ws, a)[v], q, src, Incoming(cfg, ws, a, v, q))
  {
    if a.Publish? {
      if a.w < |ws| {
        ViewPublish(cfg, ws, a.w, v, q, src);
      }
    } else if a.Arrive? {
      ViewArrive(cfg, ws, a, v, q, src);
    } else if a.Log? {
      if a.w == v && CanLog(ws, v) {
        ViewLog(cfg, ws, v, q, src);
      }
    } else {
      ViewOther(cfg, ws, a, v, q, src);
    }
  }

  lemma ViewArrive<S, B>(cfg: Config<S, B>, ws: seq<Worker<S, B>>, a: Action<B>, v: nat, q: nat, src: string)
    requires Sized(cfg, ws) && v < |ws| && q < |ws[v].queues| && a.Arrive?
    ensures ViewKept(cfg.nodes[v], ws[v], Step(cfg, ws, a)[v], q, src, Incoming(cfg, ws, a, v, q))
  {
    if a.w == v && a.queue < |ws[v].queues| {
      ViewEnqueue(cfg.nodes[v], ws[v], a.queue, a.e, q, src);
    }
  }

  // The producer.

  /** What the producer's log accounts for under one key. */
  function Produced<S, B>(node: Node<S, B>, log: seq<Record<B>>, k: string): seq<B> {
    BodiesTo(k, Outputs(node, log))
  }

  /** What the delivery in progress has published under one key. */
  function SentTo<S, B>(w: Worker<S, B>, k: string): seq<B> {
    if w.phase.Publishing? && |w.phase.sent| <= |w.phase.outs| then BodiesTo(k, w.phase.outs[..|w.phase.sent|]) else []
  }

  lemma {:induction false} BumpCounts<B>(c: Counters, outs: seq<Out<B>>, k: string)
    ensures At(Bump(c, outs), k) == At(c, k) + |BodiesTo(k, outs)|
  {
    if outs != [] {
      BumpCounts(c, outs[..|outs| - 1], k);
    }
  }

  lemma LoggedProduces<S(!new), B(!new)>(node: Node<S, B>, w: Worker<S, B>, k: string)
    requires ReplayFaithful(node) && MemOk(node, w) && w.phase.Publishing? && |w.phase.sent| == |w.phase.outs|
    ensures Produced(node, Logged(w).log, k) == Produced(node, w.log, k) + BodiesTo(k, w.phase.outs)
    ensures At(Replay(node, Logged(w).log).counters, k) ==
            At(Replay(node, w.log).counters, k) + |BodiesTo(k, w.phase.outs)|
  {
    ReplayIsLive(node, w);
    assert w.phase.outs[..|w.phase.sent|] == w.phase.outs;
    BumpCounts(Replay(node, w.log).counters, w.phase.outs, k);
    assert Logged(w).log[..|w.log|] == w.log;
    BodiesConcat(k, Outputs(node, w.log), w.phase.outs);
  }

  lemma SentToGrows<S, B>(w: Worker<S, B>, k: string)
    requires CanPublish(w)
    ensures var o := w.phase.outs[|w.phase.sent|];
            SentTo(Sent(w), k) == SentTo(w, k) + if o.key == k then [o.body] else []
  {
    var n := |w.phase.sent|;
    assert w.phase.outs[..n + 1][..n] == w.phase.outs[..n];
  }

  /** What attempts that were never logged have left behind the logged output, after one more step. */
  function NextResidue<S, B>(ws: seq<Worker<S, B>>, a: Action<B>, p: nat, k: string, r: seq<B>): seq<B> {
    if p >= |ws| then r
    else if a == Publish(p) && CanPublish(ws[p]) && NextDest(ws[p]).key == k && |SentTo(ws[p], k)| >= |r| then
      r + [ws[p].phase.outs[|ws[p].phase.sent|].body]
    else if a == Log(p) && CanLog(ws, p) then []
    else r
  }

  function Residue<S, B>(cfg: Config<S, B>, acts: seq<Action<B>>, p: nat, k: string): seq<B>
    requires |cfg.nodes| == |cfg.uuid| == |cfg.inputs| == |cfg.bindings|
  {
    if acts == [] then []
    else
      var init := acts[..|acts| - 1];
      NextResidue(Exec(cfg, init), acts[|acts| - 1], p, k, Residue(cfg, init, p, k))
  }

  predicate Takes<S, B>(ws: seq<Worker<S, B>>, a: Action<B>, p: nat) {
    a.Start? && a.w == p && p < |ws| && ws[p].phase.Idle? && Has(ws, p, a.queue) &&
    !IsDup(ws[p].queues[a.queue][0], ws[p].mem.marks)
  }

  /** What earlier attempts had left when worker p last took a delivery. */
  function Lost<S, B>(cfg: Config<S, B>, acts: seq<Action<B>>, p: nat, k: string): seq<B>
    requires |cfg.nodes| == |cfg.uuid| == |cfg.inputs| == |cfg.bindings|
  {
    if acts == [] then []
    else
      var init := acts[..|acts| - 1];
      if Takes(Exec(cfg, init), acts[|acts| - 1], p) then Residue(cfg, init, p, k) else Lost(cfg, init, p, k)
  }

  /** While a delivery is published, it overlays what was left before it. */
  ghost predicate Overlays<S, B>(ws: seq<Worker<S, B>>, p: nat, k: string, lost: seq<B>, r: seq<B>) {
    p < |ws| && ws[p].phase.Publishing? ==>
      |ws[p].phase.sent| <= |ws[p].phase.outs| && r == Overlaid(lost, SentTo(ws[p], k))
  }

  lemma OverlaidGrows<B>(lost: seq<B>, sent: seq<B>, body: B)
    ensures Overlaid(lost, sent + [body]) ==
            if |sent| >= |Overlaid(lost, sent)| then Overlaid(lost, sent) + [body] else Overlaid(lost, sent)
    ensures |sent| <= |Overlaid(lost, sent)|
  {
  }

  /** A step that does not concern the phase of worker p keeps it. */
  lemma PhaseKept<S, B>(cfg: Config<S, B>, ws: seq<Worker<S, B>>, a: Action<B>, p: nat)
    requires Sized(cfg, ws) && p < |ws| && (a.w != p || a.Arrive?)
    ensures Step(cfg, ws, a)[p].phase == ws[p].phase && Step(cfg, ws, a)[p].log == ws[p].log
  {
  }

  lemma OverlaysStep<S, B>(cfg: Config<S, B>, ws: seq<Worker<S, B>>, a: Action<B>, p: nat, k: string, lost: seq<B>,
                           r: seq<B>)
    requires Sized(cfg, ws) && p < |ws| && Overlays(ws, p, k, lost, r)
    ensures Overlays(Step(cfg, ws, a), p, k, if Takes(ws, a, p) then r else lost, NextResidue(ws, a, p, k, r))
  {
    if a.w != p || a.Arrive? {
      PhaseKept(cfg, ws, a, p);
    } else if a.Publish? && CanPublish(ws[p]) {
      SentToGrows(ws[p], k);
      OverlaidGrows(lost, SentTo(ws[p], k), ws[p].phase.outs[|ws[p].phase.sent|].body);
      assert Step(cfg, ws, a)[p].phase == Sent(ws[p]).phase;
    }
  }

  lemma {:induction false} AlwaysOverlays<S, B>(cfg: Config<S, B>, acts: seq<Action<B>>, p: nat, k: string)
    requires |cfg.nodes| == |cfg.uuid| == |cfg.inputs| == |cfg.bindings| && p < |cfg.nodes|
    ensures Overlays(Exec(cfg, acts), p, k, Lost(cfg, acts, p, k), Residue(cfg, acts, p, k))
  {
    if acts != [] {
      var init := acts[..|acts| - 1];
      AlwaysOverlays(cfg, init, p, k);
      OverlaysStep(cfg, Exec(cfg, init), acts[|acts| - 1], p, k, Lost(cfg, init, p, k), Residue(cfg, init, p, k));
    }
  }

  // The link between them.

  /** The consumer sees the logged output and the residue behind it, and its mark is right behind both. */
  ghost predicate Link<S, B>(cfg: Config<S, B>, ws: seq<Worker<S, B>>, p: nat, k: string, r: seq<B>) {
    && Sized(cfg, ws) && p < |ws| && k in cfg.bindings[p] && Bound(cfg, p, k)
    && var port, src := cfg.bindings[p][k], cfg.uuid[p];
    && var produced := Produced(cfg.nodes[p], ws[p].log, k);
    && port.queue < |ws[port.worker].queues|
    && At(Replay(cfg.nodes[p], ws[p].log).counters, k) == |produced|
    && Visible(cfg.nodes[port.worker], ws[port.worker], port.queue, src) == Stream(src, produced + r)
    && ReachedMark(cfg.nodes[port.worker], ws[port.worker], port.queue, src) == |produced| + |r|
  }

  ghost predicate Steady<S(!new), B(!new)>(cfg: Config<S, B>, ws: seq<Worker<S, B>>) {
    Shaped(cfg, ws) && forall w {:trigger MemOk(cfg.nodes[w], ws[w])} :: 0 <= w < |ws| ==> MemOk(cfg.nodes[w], ws[w])
  }

  /** The log of worker p changes when it logs, and at no other time. */
  lemma LogKept<S, B>(cfg: Config<S, B>, ws: seq<Worker<S, B>>, a: Action<B>, p: nat)
    requires Sized(cfg, ws) && p < |ws|
    ensures Step(cfg, ws, a)[p].log == if a == Log(p) && CanLog(ws, p) then Logged(ws[p]).log else ws[p].log
  {
  }

  /** The next id of worker p under a key is behind what it logged and what it has sent of this delivery. */
  lemma NextIdIs<S, B>(node: Node<S, B>, w: Worker<S, B>, k: string)
    requires MemOk(node, w) && CanPublish(w) && NextDest(w).key == k
    ensures NextDest(w).id == At(Replay(node, w.log).counters, k) + |SentTo(w, k)|
  {
    BumpCounts(Replay(node, w.log).counters, w.phase.outs[..|w.phase.sent|], k);
  }

  /** What comes in from p on this link is what p publishes under this key. */
  lemma OnlyThisKey<S(!new), B(!new)>(cfg: Config<S, B>, ws: seq<Worker<S, B>>, a: Action<B>, p: nat, k: string)
    requires Shaped(cfg, ws) && p < |ws| && k in cfg.bindings[p]
    ensures var port := cfg.bindings[p][k];
            var incoming := Incoming(cfg, ws, a, port.worker, port.queue);
            (incoming.Some? && incoming.value.src == cfg.uuid[p]) <==>
            (a == Publish(p) && CanPublish(ws[p]) && NextDest(ws[p]).key == k)
  {
    assert cfg.uuid[p] in cfg.uuid;
    if a.Publish? && a.w < |ws| && CanPublish(ws[a.w]) {
      assert Distinct(cfg, p, a.w) && OneKey(cfg, p, NextDest(ws[a.w]).key, k);
    }
  }

  lemma StreamOfMore<B>(src: string, a: seq<B>, r: seq<B>, body: B)
    ensures Stream(src, a + (r + [body])) == Stream(src, a + r) + [Envelope(src, |a| + |r|, body)]
  {
    assert a + (r + [body]) == (a + r) + [body];
    StreamGrows(src, a + r, body);
  }

  /** A message of worker p comes in on this link. */
  lemma LinkGrows<S, B>(cfg: Config<S, B>, ws: seq<Worker<S, B>>, ws': seq<Worker<S, B>>, p: nat, k: string, r: seq<B>,
                        e: Envelope<B>)
    requires Link(cfg, ws, p, k, r) && Sized(cfg, ws') && ws'[p].log == ws[p].log && e.src == cfg.uuid[p]
    requires var port := cfg.bindings[p][k];
             ViewKept(cfg.nodes[port.worker], ws[port.worker], ws'[port.worker], port.queue, e.src, Some(e))
    ensures var next := |Produced(cfg.nodes[p], ws[p].log, k)| + |r|;
            && (e.id == next ==> Link(cfg, ws', p, k, r + [e.body]))
            && (e.id < next ==> Link(cfg, ws', p, k, r))
  {
    StreamOfMore(e.src, Produced(cfg.nodes[p], ws[p].log, k), r, e.body);
  }

  lemma IncomingIs<S(!new), B(!new)>(cfg: Config<S, B>, ws: seq<Worker<S, B>>, p: nat, k: string)
    requires Sized(cfg, ws) && p < |ws| && CanPublish(ws[p]) && NextDest(ws[p]).key == k && k in cfg.bindings[p]
    ensures Incoming(cfg, ws, Publish(p), cfg.bindings[p][k].worker, cfg.bindings[p][k].queue) ==
            Some(NextMessage(cfg, ws, p))
  {
  }

  lemma LinkPublish<S(!new), B(!new)>(cfg: Config<S, B>, ws: seq<Worker<S, B>>, p: nat, k: string, r: seq<B>)
    requires Steady(cfg, ws) && Link(cfg, ws, p, k, r) && CanPublish(ws[p]) && NextDest(ws[p]).key == k
    requires |SentTo(ws[p], k)| <= |r|
    ensures Link(cfg, Step(cfg, ws, Publish(p)), p, k, NextResidue(ws, Publish(p), p, k, r))
  {
    var port, ws' := cfg.bindings[p][k], Step(cfg, ws, Publish(p));
    assert MemOk(cfg.nodes[p], ws[p]) && MemOk(cfg.nodes[port.worker], ws[port.worker]);
    LogKept(cfg, ws, Publish(p), p);
    NextIdIs(cfg.nodes[p], ws[p], k);
    ViewStep(cfg, ws, Publish(p), port.worker, port.queue, cfg.uuid[p]);
    IncomingIs(cfg, ws, p, k);
    LinkGrows(cfg, ws, ws', p, k, r, NextMessage(cfg, ws, p));
  }

  lemma LinkQuiet<S(!new), B(!new)>(cfg: Config<S, B>, ws: seq<Worker<S, B>>, a: Action<B>, p: nat, k: string,
                                    r: seq<B>)
    requires Steady(cfg, ws) && Link(cfg, ws, p, k, r)
    requires !(a == Publish(p) && CanPublish(ws[p]) && NextDest(ws[p]).key == k) && !(a == Log(p) && CanLog(ws, p))
    ensures Link(cfg, Step(cfg, ws, a), p, k, r)
  {
    var port := cfg.bindings[p][k];
    assert MemOk(cfg.nodes[port.worker], ws[port.worker]);
    LogKept(cfg, ws, a, p);
    OnlyThisKey(cfg, ws, a, p, k);
    ViewStep(cfg, ws, a, port.worker, port.queue, cfg.uuid[p]);
  }

  /** Logging leaves what is visible as it is, and lets the log account for the delivery. */
  lemma LinkLog<S(!new), B(!new)>(cfg: Config<S, B>, ws: seq<Worker<S, B>>, p: nat, k: string, r: seq<B>)
    requires Steady(cfg, ws) && Link(cfg, ws, p, k, r) && CanLog(ws, p)
    ensures var port, ws' := cfg.bindings[p][k], Step(cfg, ws, Log(p));
            var produced := Produced(cfg.nodes[p], ws[p].log, k);
            && port.queue < |ws'[port.worker].queues|
            && Produced(cfg.nodes[p], ws'[p].log, k) == produced + BodiesTo(k, ws[p].phase.outs)
            && Visible(cfg.nodes[port.worker], ws'[port.worker], port.queue, cfg.uuid[p]) ==
               Stream(cfg.uuid[p], produced + r)
    ensures r == BodiesTo(k, ws[p].phase.outs) ==> Link(cfg, Step(cfg, ws, Log(p)), p, k, [])
  {
    var port := cfg.bindings[p][k];
    assert MemOk(cfg.nodes[p], ws[p]) && MemOk(cfg.nodes[port.worker], ws[port.worker]);
    LogKept(cfg, ws, Log(p), p);
    assert ReplayFaithful(cfg.nodes[p]);
    LoggedProduces(cfg.nodes[p], ws[p], k);
    OnlyThisKey(cfg, ws, Log(p), p, k);
    ViewStep(cfg, ws, Log(p), port.worker, port.queue, cfg.uuid[p]);
    var all := Produced(cfg.nodes[p], ws[p].log, k) + BodiesTo(k, ws[p].phase.outs);
    assert all + [] == all;
  }

  lemma StreamDetermines<B>(src: string, a: seq<B>, b: seq<B>)
    ensures Stream(src, a) == Stream(src, b) <==> a == b
  {
    if Stream(src, a) == Stream(src, b) {
      forall i | 0 <= i < |a|
        ensures a[i] == b[i]
      {
        assert Stream(src, a)[i].body == Stream(src, b)[i].body;
      }
    }
  }

  lemma OverlaidIs<B>(lost: seq<B>, next: seq<B>)
    ensures Overlaid(lost, next) == next <==> lost <= next
  {
    if Overlaid(lost, next) == next {
      assert next[..|lost|] == Overlaid(lost, next)[..|lost|] == lost;
    }
  }

  lemma SteadyStep<S(!new), B(!new)>(cfg: Config<S, B>, ws: seq<Worker<S, B>>, a: Action<B>)
    requires Steady(cfg, ws)
    ensures Steady(cfg, Step(cfg, ws, a))
  {
    ShapedStep(cfg, ws, a);
    forall w | 0 <= w < |ws|
      ensures MemOk(cfg.nodes[w], Step(cfg, ws, a)[w])
    {
      assert MemOk(cfg.nodes[w], ws[w]) && ReplayFaithful(cfg.nodes[w]);
      StepOk(cfg, ws, a, w);
    }
  }

  lemma ShapedStep<S(!new), B(!new)>(cfg: Config<S, B>, ws: seq<Worker<S, B>>, a: Action<B>)
    requires Shaped(cfg, ws)
    ensures Shaped(cfg, Step(cfg, ws, a))
  {
    if a.w < |ws| && Step(cfg, ws, a) != ws {
      match a
      case Arrive(w, q, e) => ShapedEnqueue(cfg, ws, w, q, e);
      case Publish(p) => SendShaped(cfg, ws, p, NextMessage(cfg, ws, p));
      case Start(w, _) => ShapedReplace(cfg, ws, w, Step(cfg, ws, a)[w]);
      case Log(w) => ShapedReplace(cfg, ws, w, Step(cfg, ws, a)[w]);
      case Ack(w) => ShapedReplace(cfg, ws, w, Step(cfg, ws, a)[w]);
      case Crash(w) => ShapedReplace(cfg, ws, w, Step(cfg, ws, a)[w]);
      case Recover(w) => ShapedReplace(cfg, ws, w, Step(cfg, ws, a)[w]);
    }
  }

  lemma {:induction false} AlwaysSteady<S(!new), B(!new)>(cfg: Config<S, B>, acts: seq<Action<B>>)
    requires Valid(cfg)
    ensures Steady(cfg, Exec(cfg, acts))
  {
    if acts == [] {
      BootRelated(cfg);
    } else {
      AlwaysSteady(cfg, acts[..|acts| - 1]);
      SteadyStep(cfg, Exec(cfg, acts[..|acts| - 1]), acts[|acts| - 1]);
    }
  }

  lemma BootLinked<S(!new), B(!new)>(cfg: Config<S, B>, p: nat, k: string)
    requires Valid(cfg) && p < |cfg.nodes| && k in cfg.bindings[p]
    ensures Link(cfg, Boot(cfg), p, k, [])
  {
    assert Bound(cfg, p, k);
  }

  // The theorems.

  /** A delivery of worker p is logged harmlessly, for a key, if it begins with what earlier attempts left. */
  ghost predicate Continues<S, B>(cfg: Config<S, B>, acts: seq<Action<B>>, p: nat, k: string)
    requires |cfg.nodes| == |cfg.uuid| == |cfg.inputs| == |cfg.bindings|
    requires CanLog(Exec(cfg, acts), p)
  {
    Lost(cfg, acts, p, k) <= BodiesTo(k, Exec(cfg, acts)[p].phase.outs)
  }

  /** Every delivery that worker p logs begins with what earlier attempts left under the key. */
  ghost predicate Harmless<S, B>(cfg: Config<S, B>, acts: seq<Action<B>>, p: nat, k: string)
    requires |cfg.nodes| == |cfg.uuid| == |cfg.inputs| == |cfg.bindings|
  {
    acts == [] ||
    var init := acts[..|acts| - 1];
    Harmless(cfg, init, p, k) &&
    (acts[|acts| - 1] == Log(p) && CanLog(Exec(cfg, init), p) ==> Continues(cfg, init, p, k))
  }

  /** The consumer at the other end sees exactly what the producer's log accounts for. */
  ghost predicate Exact<S, B>(cfg: Config<S, B>, ws: seq<Worker<S, B>>, p: nat, k: string)
    requires Sized(cfg, ws) && p < |ws| && k in cfg.bindings[p]
  {
    var port := cfg.bindings[p][k];
    port.worker < |ws| && port.queue < |ws[port.worker].queues| &&
    Visible(cfg.nodes[port.worker], ws[port.worker], port.queue, cfg.uuid[p]) ==
    Stream(cfg.uuid[p], Produced(cfg.nodes[p], ws[p].log, k))
  }

  lemma AllSentResidue<S(!new), B(!new)>(cfg: Config<S, B>, acts: seq<Action<B>>, p: nat, k: string)
    requires Valid(cfg) && p < |cfg.nodes| && CanLog(Exec(cfg, acts), p)
    ensures Residue(cfg, acts, p, k) == BodiesTo(k, Exec(cfg, acts)[p].phase.outs) <==> Continues(cfg, acts, p, k)
  {
    var w := Exec(cfg, acts)[p];
    AlwaysOverlays(cfg, acts, p, k);
    assert w.phase.outs[..|w.phase.sent|] == w.phase.outs;
    OverlaidIs(Lost(cfg, acts, p, k), BodiesTo(k, w.phase.outs));
  }

  lemma SentWithinResidue<S, B>(cfg: Config<S, B>, acts: seq<Action<B>>, p: nat, k: string)
    requires |cfg.nodes| == |cfg.uuid| == |cfg.inputs| == |cfg.bindings| && p < |cfg.nodes|
    ensures |SentTo(Exec(cfg, acts)[p], k)| <= |Residue(cfg, acts, p, k)|
  {
    AlwaysOverlays(cfg, acts, p, k);
    if Exec(cfg, acts)[p].phase.Publishing? {
      var sent, lost := SentTo(Exec(cfg, acts)[p], k), Lost(cfg, acts, p, k);
      assert |sent| <= |Overlaid(lost, sent)|;
    }
  }

  lemma {:induction false} HarmlessLinked<S(!new), B(!new)>(cfg: Config<S, B>, acts: seq<Action<B>>, p: nat, k: string)
    requires Valid(cfg) && p < |cfg.nodes| && k in cfg.bindings[p] && Harmless(cfg, acts, p, k)
    ensures Link(cfg, Exec(cfg, acts), p, k, Residue(cfg, acts, p, k))
  {
    if acts == [] {
      BootLinked(cfg, p, k);
    } else {
      var init, a := acts[..|acts| - 1], acts[|acts| - 1];
      var ws, r := Exec(cfg, init), Residue(cfg, init, p, k);
      HarmlessLinked(cfg, init, p, k);
      AlwaysSteady(cfg, init);
      SentWithinResidue(cfg, init, p, k);
      if a == Publish(p) && CanPublish(ws[p]) && NextDest(ws[p]).key == k {
        LinkPublish(cfg, ws, p, k, r);
      } else if a == Log(p) && CanLog(ws, p) {
        AllSentResidue(cfg, init, p, k);
        LinkLog(cfg, ws, p, k, r);
      } else {
        LinkQuiet(cfg, ws, a, p, k, r);
      }
    }
  }

  /** Exactly once. On every schedule on which worker p logs harmlessly, and whatever other workers do, what a consumer
      has accepted from p and is still to accept is the output p's log accounts for under the key that leads there,
      numbered from zero, in order, none missing and none repeated; behind it, while a delivery is in progress or
      interrupted, comes what was published of it. */
  lemma AcceptedExactlyOnce<S(!new), B(!new)>(cfg: Config<S, B>, acts: seq<Action<B>>, p: nat, k: string)
    requires Valid(cfg) && p < |cfg.nodes| && k in cfg.bindings[p] && Harmless(cfg, acts, p, k)
    ensures var ws := Exec(cfg, acts);
            var port, src := cfg.bindings[p][k], cfg.uuid[p];
            && port.worker < |ws| && port.queue < |ws[port.worker].queues|
            && Visible(cfg.nodes[port.worker], ws[port.worker], port.queue, src) ==
               Stream(src, Produced(cfg.nodes[p], ws[p].log, k) + Residue(cfg, acts, p, k))
            && (ws[p].partial.None? ==> Exact(cfg, ws, p, k))
  {
    HarmlessLinked(cfg, acts, p, k);
    NothingPartial(cfg, acts, p, k);
    var produced := Produced(cfg.nodes[p], Exec(cfg, acts)[p].log, k);
    assert produced + [] == produced;
  }

  lemma {:induction false} NothingPartial<S, B>(cfg: Config<S, B>, acts: seq<Action<B>>, p: nat, k: string)
    requires |cfg.nodes| == |cfg.uuid| == |cfg.inputs| == |cfg.bindings| && p < |cfg.nodes|
    ensures Exec(cfg, acts)[p].partial.None? ==> Residue(cfg, acts, p, k) == []
  {
    if acts != [] {
      NothingPartial(cfg, acts[..|acts| - 1], p, k);
    }
  }

  /** The exact condition, for one delivery: when it is logged, the consumer sees what the log accounts for if and only
      if it begins with what earlier attempts had left under the key. */
  lemma ExactIffContinues<S(!new), B(!new)>(cfg: Config<S, B>, acts: seq<Action<B>>, p: nat, k: string)
    requires Valid(cfg) && p < |cfg.nodes| && k in cfg.bindings[p] && Harmless(cfg, acts, p, k)
    requires CanLog(Exec(cfg, acts), p)
    ensures Exact(cfg, Exec(cfg, acts + [Log(p)]), p, k) <==> Continues(cfg, acts, p, k)
  {
    var ws, r := Exec(cfg, acts), Residue(cfg, acts, p, k);
    HarmlessLinked(cfg, acts, p, k);
    AlwaysSteady(cfg, acts);
    AllSentResidue(cfg, acts, p, k);
    LinkLog(cfg, ws, p, k, r);
    assert (acts + [Log(p)])[..|acts|] == acts;
    var produced, next := Produced(cfg.nodes[p], ws[p].log, k), BodiesTo(k, ws[p].phase.outs);
    StreamDetermines(cfg.uuid[p], produced + r, produced + next);
    assert (produced + r)[|produced|..] == r && (produced + next)[|produced|..] == next;
  }

  /** Whenever worker p has logged, the consumer sees what the log accounts for. */
  ghost predicate ExactAtLogs<S, B>(cfg: Config<S, B>, acts: seq<Action<B>>, p: nat, k: string)
    requires |cfg.nodes| == |cfg.uuid| == |cfg.inputs| == |cfg.bindings|
    requires p < |cfg.nodes| && k in cfg.bindings[p]
  {
    acts == [] ||
    var init := acts[..|acts| - 1];
    ExactAtLogs(cfg, init, p, k) &&
    (acts[|acts| - 1] == Log(p) && CanLog(Exec(cfg, init), p) ==> Exact(cfg, Exec(cfg, acts), p, k))
  }

  /** The exact condition, for a whole run: at every log append of worker p the consumer sees what the log accounts for,
      if and only if every delivery logged begins with what earlier attempts had left. */
  lemma {:induction false} ExactIffHarmless<S(!new), B(!new)>(cfg: Config<S, B>, acts: seq<Action<B>>,
                                                              p: nat, k: string)
    requires Valid(cfg) && p < |cfg.nodes| && k in cfg.bindings[p]
    ensures ExactAtLogs(cfg, acts, p, k) <==> Harmless(cfg, acts, p, k)
  {
    if acts != [] {
      var init := acts[..|acts| - 1];
      ExactIffHarmless(cfg, init, p, k);
      if acts[|acts| - 1] == Log(p) && CanLog(Exec(cfg, init), p) && Harmless(cfg, init, p, k) {
        ExactIffContinues(cfg, init, p, k);
        assert acts == init + [Log(p)];
      }
    }
  }

  // A producer that takes up an interrupted delivery first.

  /** After a crash in the middle of publishing, the interrupted delivery is the next one worker p processes. */
  ghost predicate ResumesAt<S, B>(cfg: Config<S, B>, acts: seq<Action<B>>, p: nat)
    requires |cfg.nodes| == |cfg.uuid| == |cfg.inputs| == |cfg.bindings|
  {
    forall n {:trigger acts[n]} :: 0 <= n < |acts| && acts[n].w == p ==> Tidy(Exec(cfg, acts[..n]), acts[n])
  }

  /** What was left is a beginning of what the interrupted delivery publishes. */
  ghost predicate Resumable<S, B>(node: Node<S, B>, w: Worker<S, B>, k: string, r: seq<B>) {
    var base := Replay(node, w.log);
    match w.partial
    case None => r == []
    case Some(q) =>
      && q < |w.queues| && Accept(w.queues[q], base.marks) != []
      && r <= BodiesTo(k, node.process(base.node, Accept(w.queues[q], base.marks)[0]).1)
      && (w.phase.Publishing? ==> w.phase.queue == q)
  }

  lemma ResumableEnqueue<S, B>(node: Node<S, B>, w: Worker<S, B>, k: string, r: seq<B>, to: nat, e: Envelope<B>)
    requires Resumable(node, w, k, r) && to < |w.queues|
    ensures Resumable(node, Enqueue(w, to, e), k, r)
  {
    AcceptAppend(w.queues[to], e, Replay(node, w.log).marks);
  }

  /** While worker w publishes, its delivery is the first that the queue has for it. */
  lemma HeadIsNext<S, B>(node: Node<S, B>, w: Worker<S, B>)
    requires MemOk(node, w) && w.phase.Publishing?
    ensures var base, q := Replay(node, w.log), w.phase.queue;
            && q < |w.queues| && Accept(w.queues[q], base.marks) != []
            && node.process(base.node, Accept(w.queues[q], base.marks)[0]).1 == w.phase.outs
            && |w.phase.sent| <= |w.phase.outs|
  {
  }

  lemma SentIsPrefix<B>(outs: seq<Out<B>>, n: nat, k: string)
    requires n <= |outs|
    ensures BodiesTo(k, outs[..n]) <= BodiesTo(k, outs)
  {
    BodiesConcat(k, outs[..n], outs[n..]);
    assert outs == outs[..n] + outs[n..];
  }

  lemma LongerPrefix<B>(r: seq<B>, sent: seq<B>, body: B, all: seq<B>)
    requires r <= all && sent + [body] <= all && |sent| == |r|
    ensures r + [body] <= all
  {
    assert sent == all[..|sent|] == r;
  }

  /** Publishing one message more keeps what was left a beginning of what the delivery publishes. */
  lemma ResidueStaysPrefix<S, B>(node: Node<S, B>, ws: seq<Worker<S, B>>, p: nat, k: string, r: seq<B>)
    requires p < |ws| && MemOk(node, ws[p]) && CanPublish(ws[p])
    requires |SentTo(ws[p], k)| <= |r| && r <= BodiesTo(k, ws[p].phase.outs)
    ensures NextResidue(ws, Publish(p), p, k, r) <= BodiesTo(k, ws[p].phase.outs)
  {
    var w, n := ws[p], |ws[p].phase.sent|;
    SentToGrows(w, k);
    SentIsPrefix(w.phase.outs, n + 1, k);
    assert Sent(w).phase.outs[..n + 1] == w.phase.outs[..n + 1];
    if NextResidue(ws, Publish(p), p, k, r) != r {
      LongerPrefix(r, SentTo(w, k), w.phase.outs[n].body, BodiesTo(k, w.phase.outs));
    }
  }

  lemma ResumableSent<S, B>(node: Node<S, B>, ws: seq<Worker<S, B>>, p: nat, k: string, r: seq<B>)
    requires p < |ws| && MemOk(node, ws[p]) && Resumable(node, ws[p], k, r) && CanPublish(ws[p])
    requires |SentTo(ws[p], k)| <= |r|
    ensures Resumable(node, Sent(ws[p]), k, NextResidue(ws, Publish(p), p, k, r))
  {
    HeadIsNext(node, ws[p]);
    ResidueStaysPrefix(node, ws, p, k, r);
  }

  lemma ResumablePublish<S, B>(cfg: Config<S, B>, ws: seq<Worker<S, B>>, v: nat, p: nat, k: string, r: seq<B>)
    requires Sized(cfg, ws) && p < |ws| && v < |ws| && MemOk(cfg.nodes[p], ws[p]) && CanPublish(ws[v])
    requires Resumable(cfg.nodes[p], ws[p], k, r) && |SentTo(ws[p], k)| <= |r|
    ensures Resumable(cfg.nodes[p], Step(cfg, ws, Publish(v))[p], k, NextResidue(ws, Publish(v), p, k, r))
  {
    var ws1, key, r' := ws[v := Sent(ws[v])], NextDest(ws[v]).key, NextResidue(ws, Publish(v), p, k, r);
    if v == p {
      ResumableSent(cfg.nodes[p], ws, p, k, r);
    }
    assert Resumable(cfg.nodes[p], ws1[p], k, r');
    if key in cfg.bindings[v] && cfg.bindings[v][key].worker == p && cfg.bindings[v][key].queue < |ws1[p].queues| {
      ResumableEnqueue(cfg.nodes[p], ws1[p], k, r', cfg.bindings[v][key].queue, NextMessage(cfg, ws, v));
    }
  }

  lemma ResumableOther<S, B>(cfg: Config<S, B>, ws: seq<Worker<S, B>>, a: Action<B>, p: nat, k: string, r: seq<B>)
    requires Sized(cfg, ws) && p < |ws| && MemOk(cfg.nodes[p], ws[p])
    requires Resumable(cfg.nodes[p], ws[p], k, r) && !a.Publish? && !a.Arrive? && (a.w == p ==> Tidy(ws, a))
    ensures Resumable(cfg.nodes[p], Step(cfg, ws, a)[p], k, NextResidue(ws, a, p, k, r))
  {
    if a.Ack? && a.w == p && ws[p].phase.Acking? {
      ResumableAck(cfg.nodes[p], ws[p], k, r);
    } else if a.Start? && a.w == p && ws[p].phase.Idle? && Has(ws, p, a.queue) {
      ResumableBegin(cfg.nodes[p], ws, p, a.queue, k, r);
    }
  }

  lemma ResumableAck<S, B>(node: Node<S, B>, w: Worker<S, B>, k: string, r: seq<B>)
    requires MemOk(node, w) && w.phase.Acking? && Resumable(node, w, k, r)
    ensures Resumable(node, Acked(w), k, r)
  {
    var base := Replay(node, w.log);
    assert IsDup(w.queues[w.phase.queue][0], base.marks);
  }

  lemma ResumableBegin<S, B>(node: Node<S, B>, ws: seq<Worker<S, B>>, p: nat, q: nat, k: string, r: seq<B>)
    requires p < |ws| && MemOk(node, ws[p]) && ws[p].phase.Idle? && Has(ws, p, q) && Tidy(ws, Start(p, q))
    requires Resumable(node, ws[p], k, r)
    ensures Resumable(node, Begin(node, ws[p], q), k, r)
  {
  }

  lemma ResumableStep<S, B>(cfg: Config<S, B>, ws: seq<Worker<S, B>>, a: Action<B>, p: nat, k: string, r: seq<B>)
    requires Sized(cfg, ws) && p < |ws| && MemOk(cfg.nodes[p], ws[p])
    requires Resumable(cfg.nodes[p], ws[p], k, r) && |SentTo(ws[p], k)| <= |r|
    requires a.w == p ==> Tidy(ws, a)
    ensures Resumable(cfg.nodes[p], Step(cfg, ws, a)[p], k, NextResidue(ws, a, p, k, r))
  {
    if a.Publish? {
      if a.w < |ws| && CanPublish(ws[a.w]) {
        ResumablePublish(cfg, ws, a.w, p, k, r);
      }
    } else if a.Arrive? {
      if a.w == p && a.queue < |ws[p].queues| {
        ResumableEnqueue(cfg.nodes[p], ws[p], k, r, a.queue, a.e);
      }
    } else {
      ResumableOther(cfg, ws, a, p, k, r);
    }
  }

  lemma {:induction false} ResumesResumable<S(!new), B(!new)>(cfg: Config<S, B>, acts: seq<Action<B>>,
                                                              p: nat, k: string)
    requires |cfg.nodes| == |cfg.uuid| == |cfg.inputs| == |cfg.bindings| && p < |cfg.nodes|
    requires ReplayFaithful(cfg.nodes[p]) && ResumesAt(cfg, acts, p)
    ensures Resumable(cfg.nodes[p], Exec(cfg, acts)[p], k, Residue(cfg, acts, p, k))
  {
    if acts != [] {
      var init, a := acts[..|acts| - 1], acts[|acts| - 1];
      ResumesAtPrefix(cfg, acts, p);
      ResumesResumable(cfg, init, p, k);
      MemAlwaysOk(cfg, init, p);
      SentWithinResidue(cfg, init, p, k);
      ResumableStep(cfg, Exec(cfg, init), a, p, k, Residue(cfg, init, p, k));
    }
  }

  lemma ResumesAtPrefix<S, B>(cfg: Config<S, B>, acts: seq<Action<B>>, p: nat)
    requires |cfg.nodes| == |cfg.uuid| == |cfg.inputs| == |cfg.bindings| && acts != [] && ResumesAt(cfg, acts, p)
    ensures ResumesAt(cfg, acts[..|acts| - 1], p)
    ensures acts[|acts| - 1].w == p ==> Tidy(Exec(cfg, acts[..|acts| - 1]), acts[|acts| - 1])
  {
    var init := acts[..|acts| - 1];
    assert acts[|acts| - 1] == acts[|acts| - 1];
    forall n | 0 <= n < |init| && init[n].w == p
      ensures Tidy(Exec(cfg, init[..n]), init[n])
    {
      assert acts[n] == init[n] && acts[..n] == init[..n];
    }
  }

  /** A producer that takes up an interrupted delivery first logs harmlessly under every key, whatever others do. */
  lemma {:induction false} ResumingIsHarmless<S(!new), B(!new)>(cfg: Config<S, B>, acts: seq<Action<B>>,
                                                                p: nat, k: string)
    requires Valid(cfg) && p < |cfg.nodes| && ResumesAt(cfg, acts, p)
    ensures Harmless(cfg, acts, p, k)
  {
    if acts != [] {
      var init := acts[..|acts| - 1];
      ResumesAtPrefix(cfg, acts, p);
      ResumingIsHarmless(cfg, init, p, k);
      if acts[|acts| - 1] == Log(p) && CanLog(Exec(cfg, init), p) {
        LoggedIsResumed(cfg, init, p, k);
      }
    }
  }

  lemma LoggedIsResumed<S(!new), B(!new)>(cfg: Config<S, B>, acts: seq<Action<B>>, p: nat, k: string)
    requires Valid(cfg) && p < |cfg.nodes| && ResumesAt(cfg, acts, p) && CanLog(Exec(cfg, acts), p)
    ensures Continues(cfg, acts, p, k)
  {
    var w := Exec(cfg, acts)[p];
    assert ReplayFaithful(cfg.nodes[p]);
    ResumesResumable(cfg, acts, p, k);
    MemAlwaysOk(cfg, acts, p);
    SentWithinResidue(cfg, acts, p, k);
    AllSentResidue(cfg, acts, p, k);
    assert w.phase.outs[..|w.phase.sent|] == w.phase.outs;
  }

  /** A producer with one input queue needs no such care. */
  lemma SingleInputIsHarmless<S(!new), B(!new)>(cfg: Config<S, B>, acts: seq<Action<B>>, p: nat, k: string)
    requires Valid(cfg) && p < |cfg.nodes| && cfg.inputs[p] <= 1
    ensures Harmless(cfg, acts, p, k)
  {
    forall n | 0 <= n < |acts| && acts[n].w == p
      ensures Tidy(Exec(cfg, acts[..n]), acts[n])
    {
      PartialAlwaysInRange(cfg, acts[..n], p);
    }
    ResumingIsHarmless(cfg, acts, p, k);
  }

  /** What is left behind stays what it was while a delivery is published, and nothing is logged meanwhile. */
  lemma {:induction false} LostKept<S, B>(cfg: Config<S, B>, acts: seq<Action<B>>, more: seq<Action<B>>,
                                          p: nat, k: string)
    requires |cfg.nodes| == |cfg.uuid| == |cfg.inputs| == |cfg.bindings| && p < |cfg.nodes|
    requires forall n {:trigger more[n]} :: 0 <= n < |more| && more[n].w == p ==> more[n].Publish?
    ensures Lost(cfg, acts + more, p, k) == Lost(cfg, acts, p, k)
    ensures Harmless(cfg, acts + more, p, k) == Harmless(cfg, acts, p, k)
  {
    if more == [] {
      assert acts + more == acts;
    } else {
      var init, a := more[..|more| - 1], more[|more| - 1];
      assert (acts + more)[..|acts + more| - 1] == acts + init && (acts + more)[|acts + more| - 1] == a;
      assert more[|more| - 1] == a && forall n :: 0 <= n < |init| ==> init[n] == more[n];
      LostKept(cfg, acts, init, p, k);
    }
  }

  /** The exact condition, where an interrupted delivery is not taken up first. A worker that did so until now takes
      another one instead, publishes all of it and logs it: the consumer then sees what the log accounts for, under a
      key, if and only if what was published of the interrupted delivery begins what the other one publishes there. */
  lemma InterruptedThenOther<S(!new), B(!new)>(cfg: Config<S, B>, acts: seq<Action<B>>, more: seq<Action<B>>,
                                               p: nat, q: nat, k: string)
    requires Valid(cfg) && p < |cfg.nodes| && k in cfg.bindings[p]
    requires ResumesAt(cfg, acts, p) && Takes(Exec(cfg, acts), Start(p, q), p)
    requires forall n {:trigger more[n]} :: 0 <= n < |more| && more[n].w == p ==> more[n].Publish?
    requires CanLog(Exec(cfg, acts + [Start(p, q)] + more), p)
    ensures Resumable(cfg.nodes[p], Exec(cfg, acts)[p], k, Residue(cfg, acts, p, k))
    ensures var run := acts + [Start(p, q)] + more;
            Exact(cfg, Exec(cfg, run + [Log(p)]), p, k) <==>
            Residue(cfg, acts, p, k) <= BodiesTo(k, Exec(cfg, run)[p].phase.outs)
  {
    var started := acts + [Start(p, q)];
    assert started[..|started| - 1] == acts && started[|started| - 1] == Start(p, q);
    assert ReplayFaithful(cfg.nodes[p]);
    ResumingIsHarmless(cfg, acts, p, k);
    ResumesResumable(cfg, acts, p, k);
    LostKept(cfg, started, more, p, k);
    ExactIffContinues(cfg, started + more, p, k);
  }
}
