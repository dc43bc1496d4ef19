/** Crashes are invisible: every schedule with crashes leaves the same logs as some schedule without. */
module Simulation {
  import opened Protocol
  import opened Dedup
  import opened CrashNetwork

  /** mem and phase are those of a worker that replayed its log and then got partway through the head
      of one of its queues. */
  ghost predicate Midway<S, B>(node: Node<S, B>, base: Mem<S>, queues: seq<seq<Envelope<B>>>,
                               phase: Phase<B>, mem: Mem<S>)
  {
    && phase.Publishing?
    && phase.queue < |queues| && |queues[phase.queue]| > 0
    && var e := queues[phase.queue][0];
    && !IsDup(e, base.marks)
    && var (s, outs) := node.process(base.node, e);
    && phase.outs == outs && |phase.sent| <= |outs|
    && phase.sent == Numbered(base.counters, outs[..|phase.sent|])
    && mem == Mem(s, Bump(base.counters, outs[..|phase.sent|]), base.marks[e.src := e.id + 1])
  }

  /** The crash-free queues are what a consumer with these marks would accept from the others. */
  ghost predicate Filtered<B>(marks: Counters, c: seq<seq<Envelope<B>>>, f: seq<seq<Envelope<B>>>) {
    |c| == |f| && forall q :: 0 <= q < |c| ==> f[q] == Accept(c[q], marks)
  }

  /** The crash-free worker is idle, or it has published part of the head that partial names. */
  ghost predicate CleanPhase<S, B>(node: Node<S, B>, base: Mem<S>, f: Worker<S, B>) {
    match f.partial
    case None => f.phase.Idle? && f.mem == base
    case Some(q) => Midway(node, base, f.queues, f.phase, f.mem) && f.phase.queue == q && |f.phase.sent| > 0
  }

  /** The crashing worker has published no more than done messages of the interrupted delivery. */
  ghost predicate DirtyPhase<S, B>(node: Node<S, B>, base: Mem<S>, c: Worker<S, B>, done: nat) {
    match c.phase
    case Down => true
    case Idle => c.mem == base
    case Acking(q) => c.mem == base && q < |c.queues| && |c.queues[q]| > 0 && IsDup(c.queues[q][0], base.marks)
    case Publishing(q, sent, _) =>
      && Midway(node, base, c.queues, c.phase, c.mem)
      && (c.partial == None ==> sent == [])
      && (c.partial.Some? ==> q == c.partial.value && |sent| <= done)
  }

  function Done<S, B>(f: Worker<S, B>): nat {
    if f.phase.Publishing? then |f.phase.sent| else 0
  }

  /** What the crashing worker c has in common with the crash-free worker f. */
  ghost predicate Alike<S, B>(node: Node<S, B>, c: Worker<S, B>, f: Worker<S, B>) {
    var base := Replay(node, c.log);
    && c.log == f.log && c.partial == f.partial
    && Filtered(base.marks, c.queues, f.queues)
    && CleanPhase(node, base, f)
    && DirtyPhase(node, base, c, Done(f))
  }

  /** The mark that worker w will have for src once it has read the whole of its queue q. */
  ghost function ReachedMark<S, B>(node: Node<S, B>, w: Worker<S, B>, q: nat, src: string): nat
    requires q < |w.queues|
  {
    At(Marks(w.queues[q], Replay(node, w.log).marks), src)
  }

  /** On the queue it feeds, the crash-free sender's next id is the mark the consumer will reach. */
  ghost predicate InStep<S, B>(cfg: Config<S, B>, c: seq<Worker<S, B>>, f: seq<Worker<S, B>>, p: nat, k: string) {
    && |cfg.nodes| == |cfg.uuid| == |cfg.inputs| == |cfg.bindings| == |c| == |f|
    && p < |c| && k in cfg.bindings[p] && Bound(cfg, p, k)
    && var port := cfg.bindings[p][k];
    && port.queue < |c[port.worker].queues|
    && ReachedMark(cfg.nodes[port.worker], c[port.worker], port.queue, cfg.uuid[p]) == At(f[p].mem.counters, k)
  }

  ghost predicate Homed<S, B>(cfg: Config<S, B>, w: nat, q: nat, queue: seq<Envelope<B>>) {
    forall e :: e in queue ==> cfg.home(w, e.src) == q
  }

  ghost predicate Shaped<S(!new), B(!new)>(cfg: Config<S, B>, c: seq<Worker<S, B>>) {
    && Valid(cfg) && |c| == |cfg.nodes|
    && (forall w :: 0 <= w < |c| ==> |c[w].queues| == cfg.inputs[w])
    && (forall w, q {:trigger Homed(cfg, w, q, c[w].queues[q])} ::
          0 <= w < |c| && 0 <= q < |c[w].queues| ==> Homed(cfg, w, q, c[w].queues[q]))
  }

  ghost predicate AllAlike<S, B>(cfg: Config<S, B>, c: seq<Worker<S, B>>, f: seq<Worker<S, B>>) {
    |c| == |f| == |cfg.nodes| && forall w {:trigger Alike(cfg.nodes[w], c[w], f[w])} :: 0 <= w < |c| ==>
      Alike(cfg.nodes[w], c[w], f[w])
  }

  ghost predicate AllInStep<S, B>(cfg: Config<S, B>, c: seq<Worker<S, B>>, f: seq<Worker<S, B>>) {
    |c| == |cfg.bindings| && forall p, k {:trigger InStep(cfg, c, f, p, k)} ::
      0 <= p < |c| && k in cfg.bindings[p] ==> InStep(cfg, c, f, p, k)
  }

  ghost predicate Related<S(!new), B(!new)>(cfg: Config<S, B>, c: seq<Worker<S, B>>, f: seq<Worker<S, B>>) {
    Shaped(cfg, c) && AllAlike(cfg, c, f) && AllInStep(cfg, c, f)
  }

  lemma BootRelated<S(!new), B(!new)>(cfg: Config<S, B>)
    requires Valid(cfg)
    ensures Related(cfg, Boot(cfg), Boot(cfg))
  {
    var ws := Boot(cfg);
    forall p, k | 0 <= p < |ws| && k in cfg.bindings[p]
      ensures InStep(cfg, ws, ws, p, k)
    {
      assert Bound(cfg, p, k);
    }
  }

  lemma ShapedEnqueue<S(!new), B(!new)>(cfg: Config<S, B>, c: seq<Worker<S, B>>, w: nat, q: nat, e: Envelope<B>)
    requires Shaped(cfg, c) && w < |c| && q < |c[w].queues| && cfg.home(w, e.src) == q
    ensures Shaped(cfg, c[w := Enqueue(c[w], q, e)])
  {
    var d := c[w := Enqueue(c[w], q, e)];
    forall v, r | 0 <= v < |d| && 0 <= r < |d[v].queues|
      ensures Homed(cfg, v, r, d[v].queues[r])
    {
      assert Homed(cfg, v, r, c[v].queues[r]);
    }
  }

  lemma ShapedReplace<S(!new), B(!new)>(cfg: Config<S, B>, c: seq<Worker<S, B>>, w: nat, c': Worker<S, B>)
    requires Shaped(cfg, c) && w < |c| && |c'.queues| == |c[w].queues|
    requires forall q :: 0 <= q < |c'.queues| ==>
               (c'.queues[q] == c[w].queues[q] || (|c[w].queues[q]| > 0 && c'.queues[q] == c[w].queues[q][1..]))
    ensures Shaped(cfg, c[w := c'])
  {
    var d := c[w := c'];
    forall v, r | 0 <= v < |d| && 0 <= r < |d[v].queues|
      ensures Homed(cfg, v, r, d[v].queues[r])
    {
      assert Homed(cfg, v, r, c[v].queues[r]);
      assert forall e :: e in d[v].queues[r] ==> e in c[v].queues[r];
    }
  }

  lemma ReachedAfterEnqueue<S, B>(node: Node<S, B>, w: Worker<S, B>, q: nat, e: Envelope<B>, other: nat, src: string)
    requires q < |w.queues| && other < |w.queues|
    ensures ReachedMark(node, Enqueue(w, q, e), other, src) ==
            if other == q && src == e.src && e.id >= ReachedMark(node, w, q, src) then e.id + 1
            else ReachedMark(node, w, other, src)
  {
    AcceptAppend(w.queues[q], e, Replay(node, w.log).marks);
  }

  /** Replacing a worker by one that reaches the same marks, and a sender by one with the same counters. */
  lemma InStepReplace<S(!new), B(!new)>(cfg: Config<S, B>, c: seq<Worker<S, B>>, f: seq<Worker<S, B>>,
                                        w: nat, c': Worker<S, B>, f': Worker<S, B>)
    requires |f| == |c| && w < |c|
    requires |c'.queues| == |c[w].queues| && f'.mem.counters == f[w].mem.counters
    requires forall q, s :: 0 <= q < |c'.queues| && cfg.home(w, s) == q && w < |cfg.nodes| ==>
               ReachedMark(cfg.nodes[w], c', q, s) == ReachedMark(cfg.nodes[w], c[w], q, s)
    ensures AllInStep(cfg, c, f) ==> AllInStep(cfg, c[w := c'], f[w := f'])
  {
    if AllInStep(cfg, c, f) {
      forall p, k | 0 <= p < |c| && k in cfg.bindings[p]
        ensures InStep(cfg, c[w := c'], f[w := f'], p, k)
      {
        assert InStep(cfg, c, f, p, k);
      }
    }
  }

  /** A change to one worker that keeps its queues and log keeps the relation. */
  lemma LocalChange<S(!new), B(!new)>(cfg: Config<S, B>, c: seq<Worker<S, B>>, f: seq<Worker<S, B>>,
                                      w: nat, c': Worker<S, B>)
    requires Related(cfg, c, f) && w < |c|
    requires c'.queues == c[w].queues && c'.log == c[w].log
    requires Alike(cfg.nodes[w], c', f[w])
    ensures Related(cfg, c[w := c'], f)
  {
    ShapedReplace(cfg, c, w, c');
    InStepReplace(cfg, c, f, w, c', f[w]);
    assert f[w := f[w]] == f;
  }

  lemma MidwayAppend<S, B>(node: Node<S, B>, base: Mem<S>, w: Worker<S, B>, q: nat, e: Envelope<B>)
    requires q < |w.queues| && Midway(node, base, w.queues, w.phase, w.mem)
    ensures Midway(node, base, Enqueue(w, q, e).queues, w.phase, w.mem)
  {
  }

  lemma FilteredAppend<B>(marks: Counters, c: seq<seq<Envelope<B>>>, f: seq<seq<Envelope<B>>>, q: nat, e: Envelope<B>)
    requires Filtered(marks, c, f) && q < |c|
    ensures Filtered(marks, c[q := c[q] + [e]],
                     if IsDup(e, Marks(c[q], marks)) then f else f[q := f[q] + [e]])
  {
    AcceptAppend(c[q], e, marks);
  }

  lemma CleanAppend<S, B>(node: Node<S, B>, base: Mem<S>, f: Worker<S, B>, q: nat, e: Envelope<B>)
    requires q < |f.queues| && CleanPhase(node, base, f)
    ensures CleanPhase(node, base, Enqueue(f, q, e))
  {
    if f.partial.Some? {
      MidwayAppend(node, base, f, q, e);
    }
  }

  lemma DirtyAppend<S, B>(node: Node<S, B>, base: Mem<S>, c: Worker<S, B>, done: nat, q: nat, e: Envelope<B>)
    requires q < |c.queues| && DirtyPhase(node, base, c, done)
    ensures DirtyPhase(node, base, Enqueue(c, q, e), done)
  {
    if c.phase.Publishing? {
      MidwayAppend(node, base, c, q, e);
    }
  }

  /** One message joins one queue of the crashing network; the crash-free one gets it unless it is old. */
  lemma EnqueueBoth<S, B>(node: Node<S, B>, c: Worker<S, B>, f: Worker<S, B>, q: nat, e: Envelope<B>)
    requires q < |c.queues| && q < |f.queues| && Alike(node, c, f)
    ensures Alike(node, Enqueue(c, q, e), if e.id < ReachedMark(node, c, q, e.src) then f else Enqueue(f, q, e))
  {
    var base := Replay(node, c.log);
    FilteredAppend(base.marks, c.queues, f.queues, q, e);
    CleanAppend(node, base, f, q, e);
    DirtyAppend(node, base, c, Done(f), q, e);
  }

  /** The schedule of the crash-free network that matches one step of the crashing network. */
  ghost predicate Matches<S(!new), B(!new)>(cfg: Config<S, B>, c': seq<Worker<S, B>>,
                                            f: seq<Worker<S, B>>, clean: seq<Action<B>>)
    requires |cfg.nodes| == |cfg.uuid| == |cfg.inputs| == |cfg.bindings| == |f|
  {
    CrashFree(clean) && Related(cfg, c', From(cfg, f, clean))
  }

  lemma FromOne<S, B>(cfg: Config<S, B>, ws: seq<Worker<S, B>>, a: Action<B>)
    requires |cfg.nodes| == |cfg.uuid| == |cfg.inputs| == |cfg.bindings| == |ws|
    ensures From(cfg, ws, [a]) == Step(cfg, ws, a)
  {
    assert [a][..0] == [];
    assert From(cfg, ws, []) == ws;
  }

  lemma FromTwo<S, B>(cfg: Config<S, B>, ws: seq<Worker<S, B>>, a: Action<B>, b: Action<B>)
    requires |cfg.nodes| == |cfg.uuid| == |cfg.inputs| == |cfg.bindings| == |ws|
    ensures From(cfg, ws, [a, b]) == Step(cfg, Step(cfg, ws, a), b)
  {
    FromOne(cfg, ws, a);
    assert [a, b][..1] == [a];
  }

  lemma MatchesThen<S(!new), B(!new)>(cfg: Config<S, B>, c': seq<Worker<S, B>>, f: seq<Worker<S, B>>,
                                      first: seq<Action<B>>, last: seq<Action<B>>, f': seq<Worker<S, B>>)
    requires |cfg.nodes| == |cfg.uuid| == |cfg.inputs| == |cfg.bindings| == |f|
    requires CrashFree(first) && CrashFree(last) && From(cfg, From(cfg, f, first), last) == f'
    requires Related(cfg, c', f')
    ensures Matches(cfg, c', f, first + last)
  {
    FromConcat(cfg, f, first, last);
  }

  lemma MatchArrive<S(!new), B(!new)>(cfg: Config<S, B>, c: seq<Worker<S, B>>, f: seq<Worker<S, B>>, a: Action<B>)
    returns (clean: seq<Action<B>>)
    requires Related(cfg, c, f) && a.Arrive?
    ensures Matches(cfg, Step(cfg, c, a), f, clean)
  {
    clean := [];
    var w, q, e := a.w, a.queue, a.e;
    if w < |c| && q < |c[w].queues| && e.src !in cfg.uuid && cfg.home(w, e.src) == q {
      var isOld := e.id < ReachedMark(cfg.nodes[w], c[w], q, e.src);
      clean := if isOld then [] else [a];
      FromOne(cfg, f, a);
      ArriveAlike(cfg, c, f, w, q, e);
      ShapedEnqueue(cfg, c, w, q, e);
      var c', f' := c[w := Enqueue(c[w], q, e)], if isOld then f else f[w := Enqueue(f[w], q, e)];
      ArriveInStep(cfg, c, f, w, q, e);
      assert Related(cfg, c', f');
    }
  }

  lemma ArriveAlike<S(!new), B(!new)>(cfg: Config<S, B>, c: seq<Worker<S, B>>, f: seq<Worker<S, B>>, w: nat, q: nat,
                                      e: Envelope<B>)
    requires AllAlike(cfg, c, f) && w < |c| && q < |c[w].queues|
    ensures |f[w].queues| == |c[w].queues|
    ensures AllAlike(cfg, c[w := Enqueue(c[w], q, e)],
                     if e.id < ReachedMark(cfg.nodes[w], c[w], q, e.src) then f else f[w := Enqueue(f[w], q, e)])
  {
    assert Alike(cfg.nodes[w], c[w], f[w]);
    EnqueueBoth(cfg.nodes[w], c[w], f[w], q, e);
  }

  /** What comes in from outside the network is of no concern to its senders. */
  lemma ArriveInStep<S(!new), B(!new)>(cfg: Config<S, B>, c: seq<Worker<S, B>>, f: seq<Worker<S, B>>, w: nat, q: nat,
                                       e: Envelope<B>)
    requires AllInStep(cfg, c, f) && |f| == |c| && w < |c| && q < |c[w].queues| && q < |f[w].queues|
    requires |cfg.uuid| == |c| && e.src !in cfg.uuid
    ensures AllInStep(cfg, c[w := Enqueue(c[w], q, e)], f)
    ensures AllInStep(cfg, c[w := Enqueue(c[w], q, e)], f[w := Enqueue(f[w], q, e)])
  {
    var c', f' := c[w := Enqueue(c[w], q, e)], f[w := Enqueue(f[w], q, e)];
    forall p, k | 0 <= p < |c| && k in cfg.bindings[p]
      ensures InStep(cfg, c', f, p, k) && InStep(cfg, c', f', p, k)
    {
      assert InStep(cfg, c, f, p, k) && cfg.uuid[p] in cfg.uuid;
      if cfg.bindings[p][k].worker == w {
        ReachedAfterEnqueue(cfg.nodes[w], c[w], q, e, cfg.bindings[p][k].queue, cfg.uuid[p]);
      }
    }
  }

  lemma BeginAlike<S, B>(node: Node<S, B>, c: Worker<S, B>, f: Worker<S, B>, q: nat)
    requires Alike(node, c, f) && c.phase.Idle? && q < |c.queues| && |c.queues[q]| > 0
    requires c.partial.Some? && !IsDup(c.queues[q][0], c.mem.marks) ==> c.partial.value == q
    ensures Alike(node, Begin(node, c, q), f)
  {
    var begun := Begin(node, c, q);
    if begun.phase.Publishing? {
      assert begun.phase.outs[..0] == [];
      assert Midway(node, Replay(node, c.log), c.queues, begun.phase, begun.mem);
    }
  }

  lemma MatchStart<S(!new), B(!new)>(cfg: Config<S, B>, c: seq<Worker<S, B>>, f: seq<Worker<S, B>>, a: Action<B>)
    requires Related(cfg, c, f) && a.Start? && Tidy(c, a)
    ensures Related(cfg, Step(cfg, c, a), f)
  {
    if a.w < |c| && c[a.w].phase.Idle? && Has(c, a.w, a.queue) {
      assert Alike(cfg.nodes[a.w], c[a.w], f[a.w]);
      BeginAlike(cfg.nodes[a.w], c[a.w], f[a.w], a.queue);
      LocalChange(cfg, c, f, a.w, Begin(cfg.nodes[a.w], c[a.w], a.queue));
    }
  }

  /** How publishing moved the counters of the crash-free worker: by one for a new message, not at all
      for one that it had already published. */
  ghost predicate Counted(before: Counters, after: Counters, d: Dest, isNew: bool) {
    if isNew then At(before, d.key) == d.id && after == before[d.key := d.id + 1]
    else d.id < At(before, d.key) && after == before
  }

  lemma SendInStep<S(!new), B(!new)>(cfg: Config<S, B>, c: seq<Worker<S, B>>, f: seq<Worker<S, B>>,
                                     p: nat, g: Worker<S, B>, isNew: bool, e: Envelope<B>, q: nat, k: string)
    requires Shaped(cfg, c) && |f| == |c| && p < |c| && CanPublish(c[p])
    requires |f[p].queues| == |c[p].queues| && |g.queues| == |c[p].queues|
    requires Counted(f[p].mem.counters, g.mem.counters, NextDest(c[p]), isNew)
    requires e.src == cfg.uuid[p] && e.id == NextDest(c[p]).id
    requires NextDest(c[p]).key in cfg.bindings[p] ==> InStep(cfg, c, f, p, NextDest(c[p]).key)
    requires InStep(cfg, c, f, q, k)
    ensures var key := NextDest(c[p]).key;
            InStep(cfg, Deliver(c[p := Sent(c[p])], cfg.bindings[p], key, e),
                   if isNew then Deliver(f[p := g], cfg.bindings[p], key, e) else f[p := g], q, k)
  {
    var key, to := NextDest(c[p]).key, cfg.bindings[q][k];
    var c' := Deliver(c[p := Sent(c[p])], cfg.bindings[p], key, e);
    var f' := if isNew then Deliver(f[p := g], cfg.bindings[p], key, e) else f[p := g];
    SendCounts(cfg, f, p, g, key, e, isNew, q);
    assert At(g.mem.counters, k) == if isNew && key == k then e.id + 1 else At(f[p].mem.counters, k);
    if key in cfg.bindings[p] && cfg.bindings[p][key].worker == to.worker {
      SendReached(cfg, c, p, e, cfg.bindings[p][key], to, cfg.uuid[q]);
      assert Distinct(cfg, p, q) && OneKey(cfg, p, key, k);
    } else {
      assert c'[to.worker].queues == c[to.worker].queues && c'[to.worker].log == c[to.worker].log;
      assert q == p ==> key != k;
    }
  }

  lemma SendCounts<S(!new), B(!new)>(cfg: Config<S, B>, f: seq<Worker<S, B>>, p: nat, g: Worker<S, B>,
                                     key: string, e: Envelope<B>, isNew: bool, q: nat)
    requires |f| == |cfg.bindings| && p < |f| && q < |f|
    ensures var f' := if isNew then Deliver(f[p := g], cfg.bindings[p], key, e) else f[p := g];
            f'[q].mem == if q == p then g.mem else f[q].mem
  {
  }

  /** What the sender keeps of itself does not matter for what the consumer reaches. */
  lemma SendReached<S(!new), B(!new)>(cfg: Config<S, B>, c: seq<Worker<S, B>>, p: nat, e: Envelope<B>,
                                      port: Port, to: Port, src: string)
    requires |c| == |cfg.nodes| && p < |c| && CanPublish(c[p]) && to.worker == port.worker < |c|
    requires port.queue < |c[port.worker].queues| && to.queue < |c[port.worker].queues|
    ensures var v := port.worker;
            ReachedMark(cfg.nodes[v], Enqueue(c[p := Sent(c[p])][v], port.queue, e), to.queue, src) ==
            if to.queue == port.queue && src == e.src && e.id >= ReachedMark(cfg.nodes[v], c[v], port.queue, src)
            then e.id + 1 else ReachedMark(cfg.nodes[v], c[v], to.queue, src)
  {
    var w := c[p := Sent(c[p])][port.worker];
    ReachedAfterEnqueue(cfg.nodes[port.worker], w, port.queue, e, to.queue, src);
  }

  lemma DeliverAlike<S, B>(nodes: seq<Node<S, B>>, c: seq<Worker<S, B>>, f: seq<Worker<S, B>>,
                           binding: map<string, Port>, key: string, isNew: bool, e: Envelope<B>, w: nat)
    requires |f| == |c| == |nodes| && w < |c| && Alike(nodes[w], c[w], f[w])
    requires key in binding ==>
               && binding[key].worker < |c|
               && binding[key].queue < |c[binding[key].worker].queues|
               && |f[binding[key].worker].queues| == |c[binding[key].worker].queues|
               && (isNew <==> e.id >= ReachedMark(nodes[binding[key].worker], c[binding[key].worker],
                                                  binding[key].queue, e.src))
    ensures Alike(nodes[w], Deliver(c, binding, key, e)[w], (if isNew then Deliver(f, binding, key, e) else f)[w])
  {
    if key in binding && w == binding[key].worker {
      EnqueueBoth(nodes[w], c[w], f[w], binding[key].queue, e);
    }
  }

  lemma SendShaped<S(!new), B(!new)>(cfg: Config<S, B>, c: seq<Worker<S, B>>, p: nat, e: Envelope<B>)
    requires Shaped(cfg, c) && p < |c| && CanPublish(c[p]) && e.src == cfg.uuid[p]
    ensures Shaped(cfg, Deliver(c[p := Sent(c[p])], cfg.bindings[p], NextDest(c[p]).key, e))
  {
    var key := NextDest(c[p]).key;
    ShapedReplace(cfg, c, p, Sent(c[p]));
    if key in cfg.bindings[p] {
      var port := cfg.bindings[p][key];
      assert Bound(cfg, p, key);
      ShapedEnqueue(cfg, c[p := Sent(c[p])], port.worker, port.queue, e);
    }
  }

  lemma QueueCounts<S, B>(cfg: Config<S, B>, c: seq<Worker<S, B>>, f: seq<Worker<S, B>>)
    requires AllAlike(cfg, c, f)
    ensures forall w :: 0 <= w < |c| ==> |f[w].queues| == |c[w].queues|
  {
    forall w | 0 <= w < |c|
      ensures |f[w].queues| == |c[w].queues|
    {
      assert Alike(cfg.nodes[w], c[w], f[w]);
    }
  }

  lemma SendAllAlike<S, B>(cfg: Config<S, B>, c: seq<Worker<S, B>>, f: seq<Worker<S, B>>,
                           p: nat, g: Worker<S, B>, isNew: bool, e: Envelope<B>)
    requires AllAlike(cfg, c, f) && p < |c| && CanPublish(c[p]) && p < |cfg.bindings| && p < |cfg.uuid|
    requires Alike(cfg.nodes[p], Sent(c[p]), g)
    requires NextDest(c[p]).key in cfg.bindings[p] ==> InStep(cfg, c, f, p, NextDest(c[p]).key)
    requires Counted(f[p].mem.counters, g.mem.counters, NextDest(c[p]), isNew)
    requires e.src == cfg.uuid[p] && e.id == NextDest(c[p]).id
    ensures var key := NextDest(c[p]).key;
            AllAlike(cfg, Deliver(c[p := Sent(c[p])], cfg.bindings[p], key, e),
                     if isNew then Deliver(f[p := g], cfg.bindings[p], key, e) else f[p := g])
  {
    var key := NextDest(c[p]).key;
    var c1, f1 := c[p := Sent(c[p])], f[p := g];
    assert AllAlike(cfg, c1, f1);
    QueueCounts(cfg, c1, f1);
    forall w | 0 <= w < |c|
      ensures Alike(cfg.nodes[w], Deliver(c1, cfg.bindings[p], key, e)[w],
                    (if isNew then Deliver(f1, cfg.bindings[p], key, e) else f1)[w])
    {
      assert Alike(cfg.nodes[w], c1[w], f1[w]);
      DeliverAlike(cfg.nodes, c1, f1, cfg.bindings[p], key, isNew, e, w);
    }
  }

  /** Publishing, seen from both networks. Worker p of the crash-free network is f[p] before and g
      after; a new message is published by both, an old one only by the crashing worker. */
  lemma SendBoth<S(!new), B(!new)>(cfg: Config<S, B>, c: seq<Worker<S, B>>, f: seq<Worker<S, B>>,
                                   p: nat, g: Worker<S, B>, isNew: bool, e: Envelope<B>)
    requires Related(cfg, c, f) && p < |c| && CanPublish(c[p])
    requires Alike(cfg.nodes[p], Sent(c[p]), g)
    requires Counted(f[p].mem.counters, g.mem.counters, NextDest(c[p]), isNew)
    requires e.src == cfg.uuid[p] && e.id == NextDest(c[p]).id
    ensures var key := NextDest(c[p]).key;
            Related(cfg, Deliver(c[p := Sent(c[p])], cfg.bindings[p], key, e),
                    if isNew then Deliver(f[p := g], cfg.bindings[p], key, e) else f[p := g])
  {
    var key := NextDest(c[p]).key;
    var c2 := Deliver(c[p := Sent(c[p])], cfg.bindings[p], key, e);
    var f2 := if isNew then Deliver(f[p := g], cfg.bindings[p], key, e) else f[p := g];
    SendShaped(cfg, c, p, e);
    SendAllAlike(cfg, c, f, p, g, isNew, e);
    assert AllInStep(cfg, c2, f2) by {
      assert Alike(cfg.nodes[p], c[p], f[p]);
      forall q, k | 0 <= q < |c| && k in cfg.bindings[q]
        ensures InStep(cfg, c2, f2, q, k)
      {
        SendInStep(cfg, c, f, p, g, isNew, e, q, k);
      }
    }
  }

  lemma MidwaySent<S, B>(node: Node<S, B>, base: Mem<S>, w: Worker<S, B>)
    requires Midway(node, base, w.queues, w.phase, w.mem) && CanPublish(w)
    ensures Midway(node, base, w.queues, Sent(w).phase, Sent(w).mem)
  {
    BumpStep(base.counters, w.phase.outs, |w.phase.sent|);
  }

  /** Resending a message that an earlier attempt already published. */
  lemma ResentAlike<S, B>(node: Node<S, B>, c: Worker<S, B>, f: Worker<S, B>)
    requires Alike(node, c, f) && CanPublish(c) && c.partial.Some? && |c.phase.sent| < Done(f)
    ensures Alike(node, Sent(c), f) && Counted(f.mem.counters, f.mem.counters, NextDest(c), false)
  {
    var base := Replay(node, c.log);
    MidwaySent(node, base, c);
    assert f.queues[f.phase.queue] == Accept(c.queues[c.phase.queue], base.marks);
    RepublishedIdIsOld(base.counters, c.phase.outs, |c.phase.sent|, |f.phase.sent|);
  }

  /** Sending the next message of a delivery for the first time. */
  lemma SentAlike<S, B>(node: Node<S, B>, c: Worker<S, B>, f: Worker<S, B>)
    requires Alike(node, c, f) && CanPublish(c) && (c.partial.None? || |c.phase.sent| == Done(f))
    ensures var g := f.(mem := c.mem, phase := c.phase);
            Alike(node, Sent(c), Sent(g))
            && Counted(f.mem.counters, Sent(g).mem.counters, NextDest(c), true)
  {
    var base := Replay(node, c.log);
    var g := f.(mem := c.mem, phase := c.phase);
    assert f.queues[c.phase.queue] == Accept(c.queues[c.phase.queue], base.marks);
    MidwaySent(node, base, c);
    assert Midway(node, base, f.queues, c.phase, c.mem);
    MidwaySent(node, base, g);
    if c.partial.None? {
      assert c.phase.outs[..0] == [];
    }
  }

  /** The crash-free worker takes the delivery the crashing worker is busy with, unless it already has. */
  lemma CatchUp<S(!new), B(!new)>(cfg: Config<S, B>, c: seq<Worker<S, B>>, f: seq<Worker<S, B>>, p: nat)
    returns (clean: seq<Action<B>>)
    requires Related(cfg, c, f) && p < |c| && c[p].phase.Publishing?
    requires c[p].partial.None? || |c[p].phase.sent| == Done(f[p])
    ensures CrashFree(clean)
    ensures From(cfg, f, clean) == f[p := f[p].(mem := c[p].mem, phase := c[p].phase)]
  {
    assert Alike(cfg.nodes[p], c[p], f[p]);
    var q := c[p].phase.queue;
    if c[p].partial.None? {
      clean := [Start(p, q)];
      FromOne(cfg, f, Start(p, q));
      assert c[p].phase.outs[..0] == [];
    } else {
      clean := [];
      assert f[p] == f[p].(mem := c[p].mem, phase := c[p].phase);
    }
  }

  /** The message worker p is about to publish. */
  function NextMessage<S, B>(cfg: Config<S, B>, c: seq<Worker<S, B>>, p: nat): Envelope<B>
    requires p < |c| && p < |cfg.uuid| && CanPublish(c[p])
  {
    Envelope(cfg.uuid[p], NextDest(c[p]).id, c[p].phase.outs[|c[p].phase.sent|].body)
  }

  lemma MatchResend<S(!new), B(!new)>(cfg: Config<S, B>, c: seq<Worker<S, B>>, f: seq<Worker<S, B>>, a: Action<B>)
    requires Related(cfg, c, f) && a.Publish? && a.w < |c| && CanPublish(c[a.w])
    requires c[a.w].partial.Some? && |c[a.w].phase.sent| < Done(f[a.w])
    ensures Related(cfg, Step(cfg, c, a), f)
  {
    var p := a.w;
    ResentAlike(cfg.nodes[p], c[p], f[p]);
    SendBoth(cfg, c, f, p, f[p], false, NextMessage(cfg, c, p));
    assert f[p := f[p]] == f;
  }

  lemma PublishCleanly<S, B>(cfg: Config<S, B>, c: seq<Worker<S, B>>, f: seq<Worker<S, B>>, p: nat)
    requires |cfg.nodes| == |cfg.uuid| == |cfg.inputs| == |cfg.bindings| == |f| == |c|
    requires p < |f| && CanPublish(c[p]) && f[p].mem == c[p].mem && f[p].phase == c[p].phase
    ensures From(cfg, f, [Publish(p)]) ==
            Deliver(f[p := Sent(f[p])], cfg.bindings[p], NextDest(c[p]).key, NextMessage(cfg, c, p))
  {
    FromOne(cfg, f, Publish(p));
  }

  lemma SendRelated<S(!new), B(!new)>(cfg: Config<S, B>, c: seq<Worker<S, B>>, f: seq<Worker<S, B>>, p: nat)
    requires Related(cfg, c, f) && p < |c| && CanPublish(c[p])
    requires c[p].partial.None? || |c[p].phase.sent| == Done(f[p])
    ensures var key := NextDest(c[p]).key;
            Related(cfg, Deliver(c[p := Sent(c[p])], cfg.bindings[p], key, NextMessage(cfg, c, p)),
                    Deliver(f[p := Sent(f[p].(mem := c[p].mem, phase := c[p].phase))], cfg.bindings[p], key,
                            NextMessage(cfg, c, p)))
  {
    SentAlike(cfg.nodes[p], c[p], f[p]);
    SendBoth(cfg, c, f, p, Sent(f[p].(mem := c[p].mem, phase := c[p].phase)), true, NextMessage(cfg, c, p));
  }

  lemma MatchSend<S(!new), B(!new)>(cfg: Config<S, B>, c: seq<Worker<S, B>>, f: seq<Worker<S, B>>, p: nat)
    returns (clean: seq<Action<B>>)
    requires Related(cfg, c, f) && p < |c| && CanPublish(c[p])
    requires c[p].partial.None? || |c[p].phase.sent| == Done(f[p])
    ensures Matches(cfg, Step(cfg, c, Publish(p)), f, clean)
  {
    var catchUp := CatchUp(cfg, c, f, p);
    var g := f[p].(mem := c[p].mem, phase := c[p].phase);
    SendRelated(cfg, c, f, p);
    PublishCleanly(cfg, c, f[p := g], p);
    assert f[p := g][p := Sent(g)] == f[p := Sent(g)];
    MatchesThen(cfg, Step(cfg, c, Publish(p)), f, catchUp, [Publish(p)],
                Deliver(f[p := Sent(g)], cfg.bindings[p], NextDest(c[p]).key, NextMessage(cfg, c, p)));
    clean := catchUp + [Publish(p)];
  }

  lemma MatchPublish<S(!new), B(!new)>(cfg: Config<S, B>, c: seq<Worker<S, B>>, f: seq<Worker<S, B>>, a: Action<B>)
    returns (clean: seq<Action<B>>)
    requires Related(cfg, c, f) && a.Publish?
    ensures Matches(cfg, Step(cfg, c, a), f, clean)
  {
    clean := [];
    if a.w < |c| && CanPublish(c[a.w]) {
      assert Alike(cfg.nodes[a.w], c[a.w], f[a.w]);
      if c[a.w].partial.Some? && |c[a.w].phase.sent| < Done(f[a.w]) {
        MatchResend(cfg, c, f, a);
      } else {
        clean := MatchSend(cfg, c, f, a.w);
      }
    }
  }

  /** Logging a delivery turns its copy at the head of the queue into a duplicate. */
  lemma LoggedQueues<S(!new), B(!new)>(cfg: Config<S, B>, c: seq<Worker<S, B>>, w: nat, q: nat, m: Counters, other: nat)
    requires Shaped(cfg, c) && w < |c| && q < |c[w].queues| && other < |c[w].queues| && |c[w].queues[q]| > 0
    requires !IsDup(c[w].queues[q][0], m)
    ensures var e := c[w].queues[q][0];
            var m' := m[e.src := e.id + 1];
            && Accept(c[w].queues[other], m') ==
                 (if other == q then Accept(c[w].queues[q], m)[1..] else Accept(c[w].queues[other], m))
            && forall s :: cfg.home(w, s) == other ==>
                 At(Marks(c[w].queues[other], m'), s) == At(Marks(c[w].queues[other], m), s)
  {
    var e := c[w].queues[q][0];
    assert Homed(cfg, w, q, c[w].queues[q]) && Homed(cfg, w, other, c[w].queues[other]);
    assert e in c[w].queues[q];
    if other != q {
      AcceptDependsOnSources(c[w].queues[other], m[e.src := e.id + 1], m);
    }
  }

  function Logged<S, B>(w: Worker<S, B>): Worker<S, B>
    requires w.phase.Publishing? && w.phase.queue < |w.queues| && |w.queues[w.phase.queue]| > 0
  {
    w.(log := w.log + [Record(w.queues[w.phase.queue][0], w.phase.sent)],
       phase := Acking(w.phase.queue), partial := None)
  }

  /** After the log append, replaying the log gives exactly what the worker has in memory. */
  lemma ReplayIsLive<S(!new), B(!new)>(node: Node<S, B>, w: Worker<S, B>)
    requires ReplayFaithful(node)
    requires Midway(node, Replay(node, w.log), w.queues, w.phase, w.mem) && |w.phase.sent| == |w.phase.outs|
    ensures Replay(node, Logged(w).log) == w.mem
  {
    var base, e := Replay(node, w.log), w.queues[w.phase.queue][0];
    assert w.phase.outs[..|w.phase.sent|] == w.phase.outs;
    RecordIsMem(node, base, e, w.phase.sent, w.phase.outs, w.mem);
    ReplaySnoc(node, w.log, Record(e, w.phase.sent));
  }

  lemma {:induction false} RecordIsMem<S(!new), B(!new)>(node: Node<S, B>, base: Mem<S>, e: Envelope<B>,
                                                         sent: seq<Dest>, outs: seq<Out<B>>, mem: Mem<S>)
    requires ReplayFaithful(node) && sent == Numbered(base.counters, outs)
    requires mem == Mem(node.process(base.node, e).0, Bump(base.counters, outs), base.marks[e.src := e.id + 1])
    ensures ReplayRecord(node, base, Record(e, sent)) == mem
  {
    RecoverIdsUndoesCrash(base.counters, outs);
    Replayed(node, base.node, e);
  }

  lemma ReplaySnoc<S, B>(node: Node<S, B>, log: seq<Record<B>>, r: Record<B>)
    ensures Replay(node, log + [r]) == ReplayRecord(node, Replay(node, log), r)
  {
    assert (log + [r])[..|log|] == log;
  }

  lemma Replayed<S(!new), B(!new)>(node: Node<S, B>, s: S, e: Envelope<B>)
    requires ReplayFaithful(node)
    ensures node.replay(s, e) == node.process(s, e).0
  {
  }

  function Finished<S, B>(w: Worker<S, B>): Worker<S, B>
    requires w.phase.Publishing? && w.phase.queue < |w.queues| && |w.queues[w.phase.queue]| > 0
  {
    var q := w.phase.queue;
    Logged(w).(queues := w.queues[q := w.queues[q][1..]], phase := Idle)
  }

  lemma LoggedFiltered<S(!new), B(!new)>(cfg: Config<S, B>, c: seq<Worker<S, B>>, f: seq<seq<Envelope<B>>>,
                                         p: nat, q: nat, m: Counters)
    requires Shaped(cfg, c) && p < |c| && Has(c, p, q) && !IsDup(c[p].queues[q][0], m)
    requires Filtered(m, c[p].queues, f)
    ensures |f[q]| > 0 && f[q][0] == c[p].queues[q][0]
    ensures var e := c[p].queues[q][0];
            Filtered(m[e.src := e.id + 1], c[p].queues, f[q := f[q][1..]])
  {
    forall other | 0 <= other < |c[p].queues| {
      LoggedQueues(cfg, c, p, q, m, other);
    }
  }

  lemma LoggedAlike<S(!new), B(!new)>(cfg: Config<S, B>, c: seq<Worker<S, B>>, f: Worker<S, B>, p: nat)
    requires Shaped(cfg, c) && p < |c| && Alike(cfg.nodes[p], c[p], f)
    requires c[p].phase.Publishing? && |c[p].phase.sent| == |c[p].phase.outs| && Has(c, p, c[p].phase.queue)
    ensures |f.queues| == |c[p].queues| && |f.queues[c[p].phase.queue]| > 0
    ensures Alike(cfg.nodes[p], Logged(c[p]), Finished(f.(mem := c[p].mem, phase := c[p].phase)))
  {
    LoggedFiltered(cfg, c, f.queues, p, c[p].phase.queue, Replay(cfg.nodes[p], c[p].log).marks);
    LoggedPhases(cfg.nodes[p], c[p], f);
    assert Filtered(c[p].mem.marks, Logged(c[p]).queues, Finished(f.(mem := c[p].mem, phase := c[p].phase)).queues);
  }

  lemma LoggedPhases<S(!new), B(!new)>(node: Node<S, B>, c: Worker<S, B>, f: Worker<S, B>)
    requires ReplayFaithful(node) && c.log == f.log
    requires Midway(node, Replay(node, c.log), c.queues, c.phase, c.mem) && |c.phase.sent| == |c.phase.outs|
    requires |f.queues| == |c.queues| && |f.queues[c.phase.queue]| > 0
    requires f.queues[c.phase.queue][0] == c.queues[c.phase.queue][0]
    ensures var f' := Finished(f.(mem := c.mem, phase := c.phase));
            && Replay(node, Logged(c).log) == c.mem && Logged(c).log == f'.log && f'.mem == c.mem
            && DirtyPhase(node, c.mem, Logged(c), 0) && CleanPhase(node, c.mem, f')
  {
    ReplayIsLive(node, c);
  }

  lemma LoggedReached<S(!new), B(!new)>(cfg: Config<S, B>, c: seq<Worker<S, B>>, p: nat, q: nat, s: string)
    requires Shaped(cfg, c) && p < |c| && q < |c[p].queues| && cfg.home(p, s) == q
    requires c[p].phase.Publishing? && |c[p].phase.sent| == |c[p].phase.outs|
    requires Midway(cfg.nodes[p], Replay(cfg.nodes[p], c[p].log), c[p].queues, c[p].phase, c[p].mem)
    ensures ReachedMark(cfg.nodes[p], Logged(c[p]), q, s) == ReachedMark(cfg.nodes[p], c[p], q, s)
  {
    LoggedQueues(cfg, c, p, c[p].phase.queue, Replay(cfg.nodes[p], c[p].log).marks, q);
    ReplayIsLive(cfg.nodes[p], c[p]);
  }

  lemma LoggedRelated<S(!new), B(!new)>(cfg: Config<S, B>, c: seq<Worker<S, B>>, f: seq<Worker<S, B>>, p: nat)
    requires Related(cfg, c, f) && p < |c|
    requires c[p].phase.Publishing? && |c[p].phase.sent| == |c[p].phase.outs| && Has(c, p, c[p].phase.queue)
    requires c[p].mem.counters == f[p].mem.counters
    ensures Has(f, p, c[p].phase.queue)
    ensures Related(cfg, c[p := Logged(c[p])],
                    f[p := Finished(f[p].(mem := c[p].mem, phase := c[p].phase))])
  {
    assert Alike(cfg.nodes[p], c[p], f[p]);
    LoggedAlike(cfg, c, f[p], p);
    forall q, s | 0 <= q < |c[p].queues| && cfg.home(p, s) == q
      ensures ReachedMark(cfg.nodes[p], Logged(c[p]), q, s) == ReachedMark(cfg.nodes[p], c[p], q, s)
    {
      LoggedReached(cfg, c, p, q, s);
    }
    ShapedReplace(cfg, c, p, Logged(c[p]));
    InStepReplace(cfg, c, f, p, Logged(c[p]), Finished(f[p].(mem := c[p].mem, phase := c[p].phase)));
  }

  lemma CaughtUpCounters<S, B>(node: Node<S, B>, c: Worker<S, B>, f: Worker<S, B>)
    requires Alike(node, c, f) && c.phase.Publishing? && |c.phase.sent| == |c.phase.outs|
    ensures c.partial.None? || |c.phase.sent| == Done(f)
    ensures c.mem.counters == f.mem.counters
  {
    var base := Replay(node, c.log);
    assert f.queues[c.phase.queue] == Accept(c.queues[c.phase.queue], base.marks);
    assert c.phase.outs[..|c.phase.sent|] == c.phase.outs;
  }

  lemma FinishCleanly<S, B>(cfg: Config<S, B>, f: seq<Worker<S, B>>, p: nat)
    requires |cfg.nodes| == |cfg.uuid| == |cfg.inputs| == |cfg.bindings| == |f|
    requires p < |f| && f[p].phase.Publishing? && |f[p].phase.sent| == |f[p].phase.outs|
    requires Has(f, p, f[p].phase.queue)
    ensures From(cfg, f, [Log(p), Ack(p)]) == f[p := Finished(f[p])]
  {
    FromTwo(cfg, f, Log(p), Ack(p));
    assert Step(cfg, f, Log(p)) == f[p := Logged(f[p])];
  }

  lemma LogStep<S, B>(cfg: Config<S, B>, c: seq<Worker<S, B>>, p: nat)
    requires |cfg.nodes| == |cfg.uuid| == |cfg.inputs| == |cfg.bindings| == |c| && p < |c|
    requires c[p].phase.Publishing? && |c[p].phase.sent| == |c[p].phase.outs| && Has(c, p, c[p].phase.queue)
    ensures Step(cfg, c, Log(p)) == c[p := Logged(c[p])]
  {
  }

  lemma MatchLog<S(!new), B(!new)>(cfg: Config<S, B>, c: seq<Worker<S, B>>, f: seq<Worker<S, B>>, a: Action<B>)
    returns (clean: seq<Action<B>>)
    requires Related(cfg, c, f) && a.Log?
    ensures Matches(cfg, Step(cfg, c, a), f, clean)
  {
    clean := [];
    var p := a.w;
    if p < |c| && c[p].phase.Publishing? && |c[p].phase.sent| == |c[p].phase.outs| && Has(c, p, c[p].phase.queue) {
      assert Alike(cfg.nodes[p], c[p], f[p]);
      CaughtUpCounters(cfg.nodes[p], c[p], f[p]);
      LoggedRelated(cfg, c, f, p);
      var catchUp := CatchUp(cfg, c, f, p);
      var g := f[p].(mem := c[p].mem, phase := c[p].phase);
      FinishCleanly(cfg, f[p := g], p);
      assert f[p := g][p := Finished(g)] == f[p := Finished(g)];
      LogStep(cfg, c, p);
      MatchesThen(cfg, c[p := Logged(c[p])], f, catchUp, [a, Ack(p)], f[p := Finished(g)]);
      clean := catchUp + [a, Ack(p)];
    }
  }

  lemma MatchAck<S(!new), B(!new)>(cfg: Config<S, B>, c: seq<Worker<S, B>>, f: seq<Worker<S, B>>, a: Action<B>)
    requires Related(cfg, c, f) && a.Ack?
    ensures Related(cfg, Step(cfg, c, a), f)
  {
    var w := a.w;
    if w < |c| && c[w].phase.Acking? && Has(c, w, c[w].phase.queue) {
      assert Alike(cfg.nodes[w], c[w], f[w]);
      var c' := Step(cfg, c, a)[w];
      ShapedReplace(cfg, c, w, c');
      InStepReplace(cfg, c, f, w, c', f[w]);
      assert f[w := f[w]] == f;
    }
  }

  lemma MatchStep<S(!new), B(!new)>(cfg: Config<S, B>, c: seq<Worker<S, B>>, f: seq<Worker<S, B>>, a: Action<B>)
    returns (clean: seq<Action<B>>)
    requires Related(cfg, c, f) && Tidy(c, a)
    ensures Matches(cfg, Step(cfg, c, a), f, clean)
  {
    clean := [];
    match a
    case Arrive(_, _, _) => clean := MatchArrive(cfg, c, f, a);
    case Start(_, _) => MatchStart(cfg, c, f, a);
    case Publish(_) => clean := MatchPublish(cfg, c, f, a);
    case Log(_) => clean := MatchLog(cfg, c, f, a);
    case Ack(_) => MatchAck(cfg, c, f, a);
    case Crash(w) =>
      if w < |c| {
        assert Alike(cfg.nodes[w], c[w], f[w]);
        LocalChange(cfg, c, f, w, c[w].(phase := Down));
      }
    case Recover(w) =>
      if w < |c| && c[w].phase.Down? {
        assert Alike(cfg.nodes[w], c[w], f[w]);
        LocalChange(cfg, c, f, w, Step(cfg, c, a)[w]);
      }
  }

  lemma {:induction false} Simulate<S(!new), B(!new)>(cfg: Config<S, B>, acts: seq<Action<B>>)
    returns (clean: seq<Action<B>>)
    requires Valid(cfg) && Resumes(cfg, acts)
    ensures CrashFree(clean) && Related(cfg, Exec(cfg, acts), Exec(cfg, clean))
  {
    if acts == [] {
      BootRelated(cfg);
      return [];
    }
    var init := acts[..|acts| - 1];
    var before := Simulate(cfg, init);
    var more := MatchStep(cfg, Exec(cfg, init), Exec(cfg, before), acts[|acts| - 1]);
    FromConcat(cfg, Boot(cfg), before, more);
    clean := before + more;
  }

  /** Crashes are invisible: some schedule without crashes leaves every worker with the same log. */
  lemma CrashInvisible<S(!new), B(!new)>(cfg: Config<S, B>, acts: seq<Action<B>>) returns (clean: seq<Action<B>>)
    requires Valid(cfg) && Resumes(cfg, acts)
    ensures CrashFree(clean)
    ensures forall w :: 0 <= w < |cfg.nodes| ==> Exec(cfg, acts)[w].log == Exec(cfg, clean)[w].log
  {
    clean := Simulate(cfg, acts);
    forall w | 0 <= w < |cfg.nodes|
      ensures Exec(cfg, acts)[w].log == Exec(cfg, clean)[w].log
    {
      assert Alike(cfg.nodes[w], Exec(cfg, acts)[w], Exec(cfg, clean)[w]);
    }
  }

  ghost predicate PartialInRange<S, B>(cfg: Config<S, B>, w: nat, x: Worker<S, B>) {
    && w < |cfg.inputs| && |x.queues| == cfg.inputs[w]
    && (x.partial.Some? ==> x.partial.value < |x.queues|)
    && (x.phase.Publishing? ==> x.phase.queue < |x.queues|)
  }

  lemma {:induction false} PartialAlwaysInRange<S, B>(cfg: Config<S, B>, acts: seq<Action<B>>, w: nat)
    requires |cfg.nodes| == |cfg.uuid| == |cfg.inputs| == |cfg.bindings| && w < |cfg.nodes|
    ensures PartialInRange(cfg, w, Exec(cfg, acts)[w])
  {
    if acts != [] {
      var init := acts[..|acts| - 1];
      PartialAlwaysInRange(cfg, init, w);
      PartialStaysInRange(cfg, Exec(cfg, init), acts[|acts| - 1], w);
    }
  }

  lemma PartialStaysInRange<S, B>(cfg: Config<S, B>, ws: seq<Worker<S, B>>, a: Action<B>, w: nat)
    requires |cfg.nodes| == |cfg.uuid| == |cfg.inputs| == |cfg.bindings| == |ws| && w < |ws|
    requires PartialInRange(cfg, w, ws[w])
    ensures PartialInRange(cfg, w, Step(cfg, ws, a)[w])
  {
  }

  /** Only workers with several input queues have to be asked: with one, the interrupted delivery is the head. */
  lemma {:induction false} SingleInputResumes<S, B>(cfg: Config<S, B>, acts: seq<Action<B>>)
    requires |cfg.nodes| == |cfg.uuid| == |cfg.inputs| == |cfg.bindings|
    requires forall n {:trigger acts[n]} :: 0 <= n < |acts| && acts[n].w < |cfg.nodes| && cfg.inputs[acts[n].w] > 1 ==>
               Tidy(Exec(cfg, acts[..n]), acts[n])
    ensures Resumes(cfg, acts)
  {
    if acts != [] {
      var init, a := acts[..|acts| - 1], acts[|acts| - 1];
      forall n | 0 <= n < |init| && init[n].w < |cfg.nodes| && cfg.inputs[init[n].w] > 1
        ensures Tidy(Exec(cfg, init[..n]), init[n])
      {
        assert acts[n] == init[n] && acts[..n] == init[..n];
      }
      SingleInputResumes(cfg, init);
      assert acts[|acts| - 1] == a;
      if a.w < |cfg.nodes| {
        PartialAlwaysInRange(cfg, init, a.w);
      }
    }
  }
}
