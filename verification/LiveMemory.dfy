/** What a worker has in memory is at every point what its log gives back, whatever the schedule. */
module LiveMemory {
  import opened Protocol
  import opened Dedup
  import opened CrashNetwork
  import opened Simulation

  /** Between deliveries memory is the replay of the log; during one, that and what was done of it. */
  ghost predicate MemOk<S, B>(node: Node<S, B>, w: Worker<S, B>) {
    var base := Replay(node, w.log);
    match w.phase
    case Down => true
    case Idle => w.mem == base
    case Acking(q) => w.mem == base && q < |w.queues| && |w.queues[q]| > 0 && IsDup(w.queues[q][0], base.marks)
    case Publishing(_, _, _) => Midway(node, base, w.queues, w.phase, w.mem)
  }

  lemma BeginOk<S, B>(node: Node<S, B>, w: Worker<S, B>, q: nat)
    requires MemOk(node, w) && w.phase.Idle? && q < |w.queues| && |w.queues[q]| > 0
    ensures MemOk(node, Begin(node, w, q))
  {
    var w' := Begin(node, w, q);
    if w'.phase.Publishing? {
      assert w'.phase.outs[..0] == [];
    }
  }

  lemma EnqueueOk<S, B>(node: Node<S, B>, w: Worker<S, B>, q: nat, e: Envelope<B>)
    requires MemOk(node, w) && q < |w.queues|
    ensures MemOk(node, Enqueue(w, q, e))
  {
    if w.phase.Publishing? {
      MidwayAppend(node, Replay(node, w.log), w, q, e);
    }
  }

  lemma SentOk<S, B>(node: Node<S, B>, w: Worker<S, B>)
    requires MemOk(node, w) && CanPublish(w)
    ensures MemOk(node, Sent(w))
  {
    MidwaySent(node, Replay(node, w.log), w);
  }

  lemma LoggedOk<S(!new), B(!new)>(node: Node<S, B>, w: Worker<S, B>)
    requires ReplayFaithful(node) && MemOk(node, w) && w.phase.Publishing? && |w.phase.sent| == |w.phase.outs|
    ensures MemOk(node, Logged(w))
  {
    ReplayIsLive(node, w);
  }

  predicate Sized<S, B>(cfg: Config<S, B>, ws: seq<Worker<S, B>>) {
    |cfg.nodes| == |cfg.uuid| == |cfg.inputs| == |cfg.bindings| == |ws|
  }

  lemma PublishOk<S, B>(cfg: Config<S, B>, ws: seq<Worker<S, B>>, p: nat, w: nat)
    requires Sized(cfg, ws) && p < |ws| && w < |ws| && MemOk(cfg.nodes[w], ws[w])
    ensures MemOk(cfg.nodes[w], Step(cfg, ws, Publish(p))[w])
  {
    if CanPublish(ws[p]) {
      if p == w {
        SentOk(cfg.nodes[p], ws[p]);
      }
      var ws1, key := ws[p := Sent(ws[p])], NextDest(ws[p]).key;
      assert MemOk(cfg.nodes[w], ws1[w]);
      if key in cfg.bindings[p] && cfg.bindings[p][key].worker == w && cfg.bindings[p][key].queue < |ws1[w].queues| {
        EnqueueOk(cfg.nodes[w], ws1[w], cfg.bindings[p][key].queue, NextMessage(cfg, ws, p));
      }
    }
  }

  lemma StepOk<S(!new), B(!new)>(cfg: Config<S, B>, ws: seq<Worker<S, B>>, a: Action<B>, w: nat)
    requires Sized(cfg, ws) && w < |ws| && ReplayFaithful(cfg.nodes[w]) && MemOk(cfg.nodes[w], ws[w])
    ensures MemOk(cfg.nodes[w], Step(cfg, ws, a)[w])
  {
    if a.w < |ws| {
      match a
      case Publish(p) => PublishOk(cfg, ws, p, w);
      case Arrive(v, q, e) =>
        if v == w && q < |ws[w].queues| {
          EnqueueOk(cfg.nodes[w], ws[w], q, e);
        }
      case Start(v, q) =>
        if v == w && ws[w].phase.Idle? && Has(ws, w, q) {
          BeginOk(cfg.nodes[w], ws[w], q);
        }
      case Log(v) =>
        if v == w && ws[w].phase.Publishing? && |ws[w].phase.sent| == |ws[w].phase.outs| {
          LoggedOk(cfg.nodes[w], ws[w]);
        }
      case _ =>
    }
  }

  lemma {:induction false} MemAlwaysOk<S(!new), B(!new)>(cfg: Config<S, B>, acts: seq<Action<B>>, w: nat)
    requires |cfg.nodes| == |cfg.uuid| == |cfg.inputs| == |cfg.bindings|
    requires w < |cfg.nodes| && ReplayFaithful(cfg.nodes[w])
    ensures MemOk(cfg.nodes[w], Exec(cfg, acts)[w])
  {
    if acts != [] {
      var init := acts[..|acts| - 1];
      MemAlwaysOk(cfg, init, w);
      StepOk(cfg, Exec(cfg, init), acts[|acts| - 1], w);
    }
  }

  /** Replay equals live. On every schedule, crashes and any order of queues included, replaying the log of a worker
      between deliveries gives exactly the node state, counters and marks it has in memory. */
  lemma ReplayEqualsLive<S(!new), B(!new)>(cfg: Config<S, B>, acts: seq<Action<B>>, w: nat)
    requires |cfg.nodes| == |cfg.uuid| == |cfg.inputs| == |cfg.bindings|
    requires w < |cfg.nodes| && ReplayFaithful(cfg.nodes[w])
    ensures var worker := Exec(cfg, acts)[w];
            worker.phase.Idle? || worker.phase.Acking? ==> worker.mem == Replay(cfg.nodes[w], worker.log)
  {
    MemAlwaysOk(cfg, acts, w);
  }
}
