/** Workers that exchange numbered messages over FIFO queues and may crash between any two steps.
    A schedule is a list of actions; an action that is not enabled leaves the network unchanged. */
module CrashNetwork {
  import opened Protocol
  import opened Dedup

  /** A deterministic node: what it does live, and what it does when a log record is replayed. */
  datatype Node<!S, !B> = Node(
    init: S,
    process: (S, Envelope<B>) -> (S, seq<Out<B>>),
    replay: (S, Envelope<B>) -> S)

  /** Everything a worker keeps in memory. */
  datatype Mem<S> = Mem(node: S, counters: Counters, marks: Counters)

  datatype Phase<B> =
    | Down
    | Idle
    | Publishing(queue: nat, sent: seq<Dest>, outs: seq<Out<B>>)
    | Acking(queue: nat)

  /** queues and log survive a crash; mem and phase do not. The field partial is a history variable:
      the input queue whose head has been published in part but not logged. */
  datatype Worker<S, B> = Worker(
    queues: seq<seq<Envelope<B>>>,
    log: seq<Record<B>>,
    mem: Mem<S>,
    phase: Phase<B>,
    partial: Option<nat>)

  datatype Port = Port(worker: nat, queue: nat)

  /** bindings[w] maps the routing keys of worker w to input queues; home says on which of its input
      queues a worker receives a source. */
  datatype Config<!S, !B> = Config(
    nodes: seq<Node<S, B>>,
    uuid: seq<string>,
    inputs: seq<nat>,
    bindings: seq<map<string, Port>>,
    home: (nat, string) -> nat)

  ghost predicate ReplayFaithful<S(!new), B(!new)>(node: Node<S, B>) {
    forall s: S, e: Envelope<B> :: node.replay(s, e) == node.process(s, e).0
  }

  /** Worker ids are distinct, a worker reaches a consumer under one key only, and replay is faithful. */
  ghost predicate Valid<S(!new), B(!new)>(cfg: Config<S, B>) {
    && |cfg.nodes| == |cfg.uuid| == |cfg.inputs| == |cfg.bindings|
    && (forall i, j {:trigger Distinct(cfg, i, j)} :: Distinct(cfg, i, j))
    && (forall p, k {:trigger Bound(cfg, p, k)} :: Bound(cfg, p, k))
    && (forall p, k, l {:trigger OneKey(cfg, p, k, l)} :: OneKey(cfg, p, k, l))
    && (forall p {:trigger ReplayFaithful(cfg.nodes[p])} :: 0 <= p < |cfg.nodes| ==> ReplayFaithful(cfg.nodes[p]))
  }

  ghost predicate Distinct<S, B>(cfg: Config<S, B>, i: nat, j: nat) {
    i < |cfg.uuid| && j < |cfg.uuid| && i != j ==> cfg.uuid[i] != cfg.uuid[j]
  }

  /** A key that is bound leads to an input queue that its consumer reads this worker from. */
  ghost predicate Bound<S, B>(cfg: Config<S, B>, p: nat, k: string) {
    p < |cfg.bindings| && p < |cfg.uuid| && k in cfg.bindings[p] ==>
      var port := cfg.bindings[p][k];
      port.worker < |cfg.nodes| && port.worker < |cfg.inputs| && port.queue < cfg.inputs[port.worker] &&
      cfg.home(port.worker, cfg.uuid[p]) == port.queue
  }

  ghost predicate OneKey<S, B>(cfg: Config<S, B>, p: nat, k: string, l: string) {
    (p < |cfg.bindings| && k in cfg.bindings[p] && l in cfg.bindings[p] &&
     cfg.bindings[p][k].worker == cfg.bindings[p][l].worker) ==> k == l
  }

  /** Reading one log record back: internal/worker/worker.go:166-191. */
  function ReplayRecord<S, B>(node: Node<S, B>, mem: Mem<S>, r: Record<B>): Mem<S> {
    Mem(node.replay(mem.node, r.delivery),
        RecoverIds(mem.counters, r.dests),
        mem.marks[r.delivery.src := r.delivery.id + 1])
  }

  function Replay<S, B>(node: Node<S, B>, log: seq<Record<B>>): Mem<S> {
    if log == [] then Mem(node.init, map[], map[])
    else ReplayRecord(node, Replay(node, log[..|log| - 1]), log[|log| - 1])
  }

  datatype Action<B> =
    | Arrive(w: nat, queue: nat, e: Envelope<B>)
    | Start(w: nat, queue: nat)
    | Publish(w: nat)
    | Log(w: nat)
    | Ack(w: nat)
    | Crash(w: nat)
    | Recover(w: nat)

  predicate Has<S, B>(ws: seq<Worker<S, B>>, w: nat, queue: nat) {
    w < |ws| && queue < |ws[w].queues| && |ws[w].queues[queue]| > 0
  }

  function Enqueue<S, B>(w: Worker<S, B>, queue: nat, e: Envelope<B>): Worker<S, B>
    requires queue < |w.queues|
  {
    w.(queues := w.queues[queue := w.queues[queue] + [e]])
  }

  function Deliver<S, B>(ws: seq<Worker<S, B>>, binding: map<string, Port>, key: string, e: Envelope<B>)
    : (r: seq<Worker<S, B>>)
    ensures |r| == |ws|
  {
    if key in binding && binding[key].worker < |ws| && binding[key].queue < |ws[binding[key].worker].queues| then
      var port := binding[key];
      ws[port.worker := Enqueue(ws[port.worker], port.queue, e)]
    else ws
  }

  /** Taking the head of a queue: the duplicate check, then the node. */
  function Begin<S, B>(node: Node<S, B>, w: Worker<S, B>, queue: nat): Worker<S, B>
    requires queue < |w.queues| && |w.queues[queue]| > 0
  {
    var e := w.queues[queue][0];
    if IsDup(e, w.mem.marks) then w.(phase := Acking(queue))
    else
      var (s, outs) := node.process(w.mem.node, e);
      w.(mem := Mem(s, w.mem.counters, w.mem.marks[e.src := e.id + 1]),
         phase := Publishing(queue, [], outs))
  }

  predicate CanPublish<S, B>(w: Worker<S, B>) {
    w.phase.Publishing? && |w.phase.sent| < |w.phase.outs|
  }

  /** The next id and message of a worker in the middle of publishing. */
  function NextDest<S, B>(w: Worker<S, B>): Dest
    requires CanPublish(w)
  {
    var key := w.phase.outs[|w.phase.sent|].key;
    Dest(key, At(w.mem.counters, key))
  }

  function Sent<S, B>(w: Worker<S, B>): Worker<S, B>
    requires CanPublish(w)
  {
    var d := NextDest(w);
    w.(mem := w.mem.(counters := w.mem.counters[d.key := d.id + 1]),
       phase := w.phase.(sent := w.phase.sent + [d]),
       partial := Some(w.phase.queue))
  }

  function Step<S, B>(cfg: Config<S, B>, ws: seq<Worker<S, B>>, a: Action<B>): (r: seq<Worker<S, B>>)
    requires |cfg.nodes| == |cfg.uuid| == |cfg.inputs| == |cfg.bindings| == |ws|
    ensures |r| == |ws|
  {
    if a.w >= |ws| then ws
    else
      var w := ws[a.w];
      match a
      case Arrive(_, q, e) =>
        if q < |w.queues| && e.src !in cfg.uuid && cfg.home(a.w, e.src) == q
        then ws[a.w := Enqueue(w, q, e)] else ws
      case Start(_, q) =>
        if w.phase.Idle? && Has(ws, a.w, q) then ws[a.w := Begin(cfg.nodes[a.w], w, q)] else ws
      case Publish(_) =>
        if CanPublish(w) then
          var d := NextDest(w);
          var body := w.phase.outs[|w.phase.sent|].body;
          Deliver(ws[a.w := Sent(w)], cfg.bindings[a.w], d.key, Envelope(cfg.uuid[a.w], d.id, body))
        else ws
      case Log(_) =>
        if w.phase.Publishing? && |w.phase.sent| == |w.phase.outs| && Has(ws, a.w, w.phase.queue) then
          ws[a.w := w.(log := w.log + [Record(w.queues[w.phase.queue][0], w.phase.sent)],
                       phase := Acking(w.phase.queue),
                       partial := None)]
        else ws
      case Ack(_) =>
        if w.phase.Acking? && Has(ws, a.w, w.phase.queue) then
          ws[a.w := w.(queues := w.queues[w.phase.queue := w.queues[w.phase.queue][1..]], phase := Idle)]
        else ws
      case Crash(_) => ws[a.w := w.(phase := Down)]
      case Recover(_) =>
        if w.phase.Down? then ws[a.w := w.(mem := Replay(cfg.nodes[a.w], w.log), phase := Idle)] else ws
  }

  function Fresh<S, B>(node: Node<S, B>, inputs: nat): Worker<S, B> {
    Worker(seq(inputs, i => []), [], Replay(node, []), Idle, None)
  }

  function Boot<S, B>(cfg: Config<S, B>): (r: seq<Worker<S, B>>)
    requires |cfg.nodes| == |cfg.inputs|
    ensures |r| == |cfg.nodes|
  {
    seq(|cfg.nodes|, i requires 0 <= i < |cfg.nodes| => Fresh(cfg.nodes[i], cfg.inputs[i]))
  }

  /** The network after a schedule, from the given start. */
  function From<S, B>(cfg: Config<S, B>, ws: seq<Worker<S, B>>, acts: seq<Action<B>>): (r: seq<Worker<S, B>>)
    requires |cfg.nodes| == |cfg.uuid| == |cfg.inputs| == |cfg.bindings| == |ws|
    ensures |r| == |ws|
  {
    if acts == [] then ws
    else Step(cfg, From(cfg, ws, acts[..|acts| - 1]), acts[|acts| - 1])
  }

  function Exec<S, B>(cfg: Config<S, B>, acts: seq<Action<B>>): (r: seq<Worker<S, B>>)
    requires |cfg.nodes| == |cfg.uuid| == |cfg.inputs| == |cfg.bindings|
    ensures |r| == |cfg.nodes|
  {
    From(cfg, Boot(cfg), acts)
  }

  predicate CrashFree<B>(acts: seq<Action<B>>) {
    forall i :: 0 <= i < |acts| ==> !acts[i].Crash? && !acts[i].Recover?
  }

  /** A step that takes a new message off one queue is tidy when no other queue's head is half published. */
  predicate Tidy<S, B>(ws: seq<Worker<S, B>>, a: Action<B>) {
    (a.Start? && Has(ws, a.w, a.queue) && ws[a.w].partial.Some? &&
     !IsDup(ws[a.w].queues[a.queue][0], ws[a.w].mem.marks)) ==> ws[a.w].partial.value == a.queue
  }

  /** After a crash in the middle of publishing, the interrupted delivery is the next one processed. */
  predicate Resumes<S, B>(cfg: Config<S, B>, acts: seq<Action<B>>)
    requires |cfg.nodes| == |cfg.uuid| == |cfg.inputs| == |cfg.bindings|
  {
    acts == [] ||
    (Resumes(cfg, acts[..|acts| - 1]) &&
     Tidy(Exec(cfg, acts[..|acts| - 1]), acts[|acts| - 1]))
  }

  lemma {:induction false} FromConcat<S, B>(cfg: Config<S, B>, ws: seq<Worker<S, B>>,
                                            a: seq<Action<B>>, b: seq<Action<B>>)
    requires |cfg.nodes| == |cfg.uuid| == |cfg.inputs| == |cfg.bindings| == |ws|
    ensures From(cfg, ws, a + b) == From(cfg, From(cfg, ws, a), b)
  {
    if b == [] {
      assert a + b == a;
    } else {
      var init := b[..|b| - 1];
      assert (a + b)[..|a + b| - 1] == a + init;
      FromConcat(cfg, ws, a, init);
    }
  }
}
