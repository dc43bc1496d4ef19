/** EOFs as barriers. A pipeline of stages, each a ring of workers with one FIFO queue per worker; the last queues are
    sinks. Every worker may run at any time; what a node emits for a message, an EOF included, is arbitrary. */
module EofBarrier {
  import opened Bytes
  import opened EofRing

  type Client = string

  datatype Item = Data(client: Client, body: int) | Eof(client: Client, visited: seq<byte>)

  type Queue = seq<Item>
  type Queues = seq<seq<Queue>>

  /** queues[s][w] is the input of worker w of stage s; queues[|peers|] are the sinks. closed remembers
      at which worker the EOF of a client entered. */
  datatype State = State(queues: Queues, closed: map<Client, nat>)

  /** peers[s] is the number of workers of stage s; single says that the last stage sends its EOF to
      the first sink only. Between two stages the EOF always goes to worker 0. */
  datatype Config = Config(peers: seq<byte>, sinks: nat, single: bool)

  datatype Action =
    | Feed(w: nat, client: Client, body: int)
    | Close(w: nat, client: Client)
    | Emit(s: nat, w: nat, target: nat, body: int)
    | Done(s: nat, w: nat)
    | PassEof(s: nat, w: nat)

  ghost predicate ValidConfig(cfg: Config) {
    |cfg.peers| > 0 && cfg.sinks > 0 && forall s :: 0 <= s < |cfg.peers| ==> cfg.peers[s] > 0
  }

  function Width(cfg: Config, s: nat): nat {
    if s < |cfg.peers| then cfg.peers[s] as int else cfg.sinks
  }

  predicate Shape(cfg: Config, q: Queues) {
    |q| == |cfg.peers| + 1 && forall s :: 0 <= s < |q| ==> |q[s]| == Width(cfg, s)
  }

  function Put(q: Queues, s: nat, w: nat, queue: Queue): (r: Queues)
    requires s < |q| && w < |q[s]|
    ensures |r| == |q| && forall t :: 0 <= t < |q| ==> |r[t]| == |q[t]|
    ensures forall t, v :: 0 <= t < |q| && 0 <= v < |q[t]| ==> r[t][v] == if t == s && v == w then queue else q[t][v]
  {
    q[s := q[s][w := queue]]
  }

  function Push(q: Queues, s: nat, w: nat, item: Item): (r: Queues)
    ensures |r| == |q| && forall t :: 0 <= t < |q| ==> |r[t]| == |q[t]|
  {
    if s < |q| && w < |q[s]| then Put(q, s, w, q[s][w] + [item]) else q
  }

  predicate IsTarget(cfg: Config, s: nat, w: nat) {
    w == 0 || (s == |cfg.peers| && !cfg.single)
  }

  /** The output of a stage whose next one is stage s. */
  function OutputOf(cfg: Config, s: nat): Output
    requires Width(cfg, s) < 256
  {
    Output(Width(cfg, s) as byte, s < |cfg.peers| || cfg.single)
  }

  /** The targets are where the worker's initialisation has the EOF go. */
  lemma TargetsAreInitialised(cfg: Config, s: nat, w: nat)
    requires 0 < w + 1 <= Width(cfg, s) < 256 && s <= |cfg.peers|
    ensures IsTarget(cfg, s, w) <==> IsEofTarget([OutputOf(cfg, s)], Target(0, w))
  {
  }

  /** A released EOF reaches every target queue of the next stage. */
  function Broadcast(cfg: Config, q: Queues, s: nat, item: Item): (r: Queues)
    requires s < |q|
    ensures |r| == |q| && forall t :: 0 <= t < |q| ==> |r[t]| == |q[t]|
  {
    q[s := seq(|q[s]|, w requires 0 <= w < |q[s]| => if IsTarget(cfg, s, w) then q[s][w] + [item] else q[s][w])]
  }

  predicate Busy(cfg: Config, q: Queues, s: nat, w: nat) {
    s < |cfg.peers| && s < |q| && w < |q[s]| && |q[s][w]| > 0
  }

  function Step(cfg: Config, st: State, a: Action): State
    requires Shape(cfg, st.queues)
  {
    var q := st.queues;
    match a
    case Feed(w, c, body) =>
      if c in st.closed then st else st.(queues := Push(q, 0, w, Data(c, body)))
    case Close(w, c) =>
      if c in st.closed || w >= |q[0]| then st
      else State(Push(q, 0, w, Eof(c, [])), st.closed[c := w])
    case Emit(s, w, target, body) =>
      if Busy(cfg, q, s, w) then st.(queues := Push(q, s + 1, target, Data(q[s][w][0].client, body))) else st
    case Done(s, w) =>
      if Busy(cfg, q, s, w) && q[s][w][0].Data? then st.(queues := Put(q, s, w, q[s][w][1..])) else st
    case PassEof(s, w) =>
      if Busy(cfg, q, s, w) && q[s][w][0].Eof? then
        var c := q[s][w][0].client;
        var popped := Put(q, s, w, q[s][w][1..]);
        if w >= 256 then st else
        match HandleEof(w as byte, cfg.peers[s], q[s][w][0].visited)
        case Forward(to, visited) => st.(queues := Push(popped, s, to as int, Eof(c, visited)))
        case Release => st.(queues := Broadcast(cfg, popped, s + 1, Eof(c, [])))
      else st
  }

  function Boot(cfg: Config): (st: State)
    ensures Shape(cfg, st.queues)
  {
    State(seq(|cfg.peers| + 1, s requires 0 <= s <= |cfg.peers| => seq(Width(cfg, s), w => [])), map[])
  }

  function Exec(cfg: Config, acts: seq<Action>): (st: State)
    ensures Shape(cfg, st.queues)
  {
    if acts == [] then Boot(cfg)
    else
      var before := Exec(cfg, acts[..|acts| - 1]);
      StepKeepsShape(cfg, before, acts[|acts| - 1]);
      Step(cfg, before, acts[|acts| - 1])
  }

  lemma StepKeepsShape(cfg: Config, st: State, a: Action)
    requires Shape(cfg, st.queues)
    ensures Shape(cfg, Step(cfg, st, a).queues)
  {
  }

  // What holds of one queue and one client.

  ghost predicate NoData(queue: Queue, c: Client) {
    forall i :: 0 <= i < |queue| ==> !(queue[i].Data? && queue[i].client == c)
  }

  ghost predicate NoEof(queue: Queue, c: Client) {
    forall i :: 0 <= i < |queue| ==> !(queue[i].Eof? && queue[i].client == c)
  }

  /** The queue holds one EOF of c, and nothing of c after it. */
  ghost predicate Sealed(queue: Queue, c: Client, visited: seq<byte>) {
    exists i :: SealedAt(queue, c, visited, i)
  }

  ghost predicate SealedAt(queue: Queue, c: Client, visited: seq<byte>, i: int) {
    && 0 <= i < |queue| && queue[i] == Eof(c, visited)
    && (forall j :: 0 <= j < i ==> !(queue[j].Eof? && queue[j].client == c))
    && (forall j :: i < j < |queue| ==> queue[j].client != c)
  }

  lemma SealedPop(queue: Queue, c: Client, visited: seq<byte>)
    requires Sealed(queue, c, visited) && queue[0] != Eof(c, visited)
    ensures Sealed(queue[1..], c, visited)
  {
    var i :| SealedAt(queue, c, visited, i);
    assert SealedAt(queue[1..], c, visited, i - 1);
  }

  lemma SealedHead(queue: Queue, c: Client, visited: seq<byte>)
    requires Sealed(queue, c, visited) && queue[0].Eof? && queue[0].client == c
    ensures queue[0].visited == visited && NoData(queue[1..], c) && NoEof(queue[1..], c)
  {
    var i :| SealedAt(queue, c, visited, i);
    assert i == 0;
  }

  lemma SealedAppend(queue: Queue, c: Client, visited: seq<byte>, item: Item)
    requires Sealed(queue, c, visited) && item.client != c
    ensures Sealed(queue + [item], c, visited)
  {
    var i :| SealedAt(queue, c, visited, i);
    assert SealedAt(queue + [item], c, visited, i);
  }

  lemma SealedNew(queue: Queue, c: Client, visited: seq<byte>)
    requires NoEof(queue, c)
    ensures Sealed(queue + [Eof(c, visited)], c, visited)
  {
    assert SealedAt(queue + [Eof(c, visited)], c, visited, |queue|);
  }

  // The invariant, client by client.

  /** Position (s, w) comes before the token at (ts, tw). */
  predicate Before(s: nat, w: nat, ts: nat, tw: nat) {
    s < ts || (s == ts && w < tw)
  }

  ghost predicate CellOk(cfg: Config, queue: Queue, c: Client, s: nat, w: nat, ts: nat, tw: nat) {
    if ts < |cfg.peers| && s == ts && w == tw then tw < 256 && Sealed(queue, c, Span(0, tw))
    else if ts == |cfg.peers| && s == ts && IsTarget(cfg, s, w) then Sealed(queue, c, [])
    else NoEof(queue, c) && (Before(s, w, ts, tw) ==> NoData(queue, c))
  }

  /** The token of c is at worker tw of stage ts, or, with ts = |peers|, has reached the sinks. */
  ghost predicate TokenAt(cfg: Config, q: Queues, c: Client, ts: nat, tw: nat) {
    && ts <= |cfg.peers| && (if ts < |cfg.peers| then tw < Width(cfg, ts) else tw == 0)
    && forall s, w {:trigger CellOk(cfg, q[s][w], c, s, w, ts, tw)} ::
         0 <= s < |q| && 0 <= w < |q[s]| ==> CellOk(cfg, q[s][w], c, s, w, ts, tw)
  }

  ghost predicate Open(q: Queues, c: Client) {
    forall s, w {:trigger NoEof(q[s][w], c)} :: 0 <= s < |q| && 0 <= w < |q[s]| ==> NoEof(q[s][w], c)
  }

  /** An EOF that entered elsewhere never leaves stage 0. */
  ghost predicate Stuck(cfg: Config, queue: Queue, c: Client, s: nat, w: nat, entry: nat) {
    if s > 0 then NoEof(queue, c)
    else forall i :: 0 <= i < |queue| && queue[i].Eof? && queue[i].client == c ==>
           entry <= w < 256 && queue[i].visited == Span(entry, w)
  }

  ghost predicate AllStuck(cfg: Config, q: Queues, c: Client, entry: nat) {
    forall s, w {:trigger Stuck(cfg, q[s][w], c, s, w, entry)} ::
      0 <= s < |q| && 0 <= w < |q[s]| ==> Stuck(cfg, q[s][w], c, s, w, entry)
  }

  ghost predicate ClientOk(cfg: Config, st: State, c: Client) {
    if c !in st.closed then Open(st.queues, c)
    else if st.closed[c] == 0 then exists ts, tw :: TokenAt(cfg, st.queues, c, ts, tw)
    else AllStuck(cfg, st.queues, c, st.closed[c])
  }

  // One queue at a time.

  lemma CellPush(cfg: Config, queue: Queue, c: Client, s: nat, w: nat, ts: nat, tw: nat, item: Item)
    requires CellOk(cfg, queue, c, s, w, ts, tw)
    requires item.client != c || (item.Data? && ts < |cfg.peers| && s > ts)
    ensures CellOk(cfg, queue + [item], c, s, w, ts, tw)
  {
    if item.client != c {
      if ts < |cfg.peers| && s == ts && w == tw {
        SealedAppend(queue, c, Span(0, tw), item);
      } else if ts == |cfg.peers| && s == ts && IsTarget(cfg, s, w) {
        SealedAppend(queue, c, [], item);
      }
    }
  }

  lemma CellPop(cfg: Config, queue: Queue, c: Client, s: nat, w: nat, ts: nat, tw: nat)
    requires CellOk(cfg, queue, c, s, w, ts, tw) && s < |cfg.peers|
    requires |queue| > 0 && (queue[0].client != c || queue[0].Data?)
    ensures CellOk(cfg, queue[1..], c, s, w, ts, tw)
  {
    if ts < |cfg.peers| && s == ts && w == tw {
      SealedPop(queue, c, Span(0, tw));
    }
  }

  // One step at a time, for a client whose token is somewhere.

  lemma TokenPush(cfg: Config, q: Queues, c: Client, ts: nat, tw: nat, s: nat, w: nat, item: Item)
    requires TokenAt(cfg, q, c, ts, tw)
    requires item.client != c || (item.Data? && ts < |cfg.peers| && s > ts)
    ensures TokenAt(cfg, Push(q, s, w, item), c, ts, tw)
  {
    if s < |q| && w < |q[s]| {
      assert CellOk(cfg, q[s][w], c, s, w, ts, tw);
      CellPush(cfg, q[s][w], c, s, w, ts, tw, item);
    }
  }

  lemma TokenBroadcast(cfg: Config, q: Queues, c: Client, ts: nat, tw: nat, s: nat, item: Item)
    requires TokenAt(cfg, q, c, ts, tw) && item.client != c && s < |q|
    ensures TokenAt(cfg, Broadcast(cfg, q, s, item), c, ts, tw)
  {
    var r := Broadcast(cfg, q, s, item);
    forall v, w | 0 <= v < |r| && 0 <= w < |r[v]|
      ensures CellOk(cfg, r[v][w], c, v, w, ts, tw)
    {
      assert CellOk(cfg, q[v][w], c, v, w, ts, tw);
      CellPush(cfg, q[v][w], c, v, w, ts, tw, item);
    }
  }

  lemma TokenPop(cfg: Config, q: Queues, c: Client, ts: nat, tw: nat, s: nat, w: nat)
    requires TokenAt(cfg, q, c, ts, tw) && Busy(cfg, q, s, w)
    requires q[s][w][0].client != c || q[s][w][0].Data?
    ensures TokenAt(cfg, Put(q, s, w, q[s][w][1..]), c, ts, tw)
  {
    assert CellOk(cfg, q[s][w], c, s, w, ts, tw);
    CellPop(cfg, q[s][w], c, s, w, ts, tw);
  }

  /** Only a stage that the token has not left has anything of the client. */
  lemma HeadMeansNotPassed(cfg: Config, q: Queues, c: Client, ts: nat, tw: nat, s: nat, w: nat)
    requires TokenAt(cfg, q, c, ts, tw) && Busy(cfg, q, s, w) && q[s][w][0].client == c
    ensures ts < |cfg.peers| && s >= ts
  {
    assert CellOk(cfg, q[s][w], c, s, w, ts, tw);
  }

  /** The head EOF of a client is its token. */
  lemma HeadIsToken(cfg: Config, q: Queues, c: Client, ts: nat, tw: nat, s: nat, w: nat)
    requires TokenAt(cfg, q, c, ts, tw) && Busy(cfg, q, s, w)
    requires q[s][w][0].Eof? && q[s][w][0].client == c
    ensures s == ts && w == tw && w < 256 && q[s][w][0].visited == Span(0, w)
    ensures NoData(q[s][w][1..], c) && NoEof(q[s][w][1..], c)
  {
    assert CellOk(cfg, q[s][w], c, s, w, ts, tw);
    SealedHead(q[s][w], c, Span(0, tw));
  }

  lemma TokenForward(cfg: Config, q: Queues, c: Client, s: nat, w: nat)
    requires TokenAt(cfg, q, c, s, w) && Busy(cfg, q, s, w) && w < 255 && w + 1 < |q[s]| == Width(cfg, s)
    requires NoData(q[s][w][1..], c) && NoEof(q[s][w][1..], c)
    ensures TokenAt(cfg, Push(Put(q, s, w, q[s][w][1..]), s, w + 1, Eof(c, Span(0, w + 1))), c, s, w + 1)
  {
    var popped := Put(q, s, w, q[s][w][1..]);
    var r := Push(popped, s, w + 1, Eof(c, Span(0, w + 1)));
    forall v, x | 0 <= v < |r| && 0 <= x < |r[v]|
      ensures CellOk(cfg, r[v][x], c, v, x, s, w + 1)
    {
      assert CellOk(cfg, q[v][x], c, v, x, s, w);
      if v == s && x == w + 1 {
        SealedNew(q[v][x], c, Span(0, w + 1));
      }
    }
  }

  lemma TokenRelease(cfg: Config, q: Queues, c: Client, s: nat, w: nat)
    requires ValidConfig(cfg) && Shape(cfg, q)
    requires TokenAt(cfg, q, c, s, w) && Busy(cfg, q, s, w) && w + 1 == |q[s]|
    requires NoData(q[s][w][1..], c) && NoEof(q[s][w][1..], c)
    ensures TokenAt(cfg, Broadcast(cfg, Put(q, s, w, q[s][w][1..]), s + 1, Eof(c, [])), c, s + 1, 0)
  {
    var popped := Put(q, s, w, q[s][w][1..]);
    var r := Broadcast(cfg, popped, s + 1, Eof(c, []));
    assert Span(0, 0) == [];
    forall v, x | 0 <= v < |r| && 0 <= x < |r[v]|
      ensures CellOk(cfg, r[v][x], c, v, x, s + 1, 0)
    {
      assert CellOk(cfg, q[v][x], c, v, x, s, w);
      if v == s + 1 && IsTarget(cfg, v, x) {
        SealedNew(q[v][x], c, []);
      }
    }
  }

  /** A change of some queues in which no EOF of c is new. */
  ghost predicate NoNewEof(q: Queues, r: Queues, c: Client) {
    && |r| == |q| && (forall s :: 0 <= s < |q| ==> |r[s]| == |q[s]|)
    && forall s, w {:trigger r[s][w]} :: 0 <= s < |q| && 0 <= w < |q[s]| ==>
         forall item :: item in r[s][w] && item.Eof? && item.client == c ==> item in q[s][w]
  }

  lemma NoNewEofKeeps(cfg: Config, q: Queues, r: Queues, c: Client, entry: nat)
    requires NoNewEof(q, r, c)
    ensures Open(q, c) ==> Open(r, c)
    ensures AllStuck(cfg, q, c, entry) ==> AllStuck(cfg, r, c, entry)
  {
    forall s, w | 0 <= s < |r| && 0 <= w < |r[s]|
      ensures NoEof(q[s][w], c) ==> NoEof(r[s][w], c)
      ensures Stuck(cfg, q[s][w], c, s, w, entry) ==> Stuck(cfg, r[s][w], c, s, w, entry)
    {
      forall i | 0 <= i < |r[s][w]| && r[s][w][i].Eof? && r[s][w][i].client == c
        ensures r[s][w][i] in q[s][w]
      {
        assert r[s][w][i] in r[s][w];
      }
    }
  }

  lemma StuckForward(cfg: Config, q: Queues, c: Client, w: nat, entry: nat)
    requires ValidConfig(cfg) && Shape(cfg, q) && entry > 0 && AllStuck(cfg, q, c, entry) && Busy(cfg, q, 0, w)
    requires q[0][w][0].Eof? && q[0][w][0].client == c
    ensures entry <= w < 255
    ensures HandleEof(w as byte, cfg.peers[0], q[0][w][0].visited) == Forward((w + 1) as byte, Span(entry, w + 1))
    ensures AllStuck(cfg, Push(Put(q, 0, w, q[0][w][1..]), 0, w + 1, Eof(c, Span(entry, w + 1))), c, entry)
  {
    assert Stuck(cfg, q[0][w], c, 0, w, entry);
    RingStep(entry, w as byte, cfg.peers[0]);
    assert q[0][w][0].visited == Span(entry, w);
    var popped := Put(q, 0, w, q[0][w][1..]);
    NoNewEofKeeps(cfg, q, popped, c, entry);
    var r := Push(popped, 0, w + 1, Eof(c, Span(entry, w + 1)));
    forall s, x | 0 <= s < |r| && 0 <= x < |r[s]|
      ensures Stuck(cfg, r[s][x], c, s, x, entry)
    {
      assert Stuck(cfg, popped[s][x], c, s, x, entry);
    }
  }

  lemma OtherPassToken(cfg: Config, st: State, c: Client, s: nat, w: nat, ts: nat, tw: nat)
    requires ValidConfig(cfg) && Shape(cfg, st.queues) && TokenAt(cfg, st.queues, c, ts, tw)
    requires Busy(cfg, st.queues, s, w) && st.queues[s][w][0].Eof? && st.queues[s][w][0].client != c
    ensures TokenAt(cfg, Step(cfg, st, PassEof(s, w)).queues, c, ts, tw)
  {
    var q: Queues := st.queues;
    TokenPop(cfg, q, c, ts, tw, s, w);
    var popped := Put(q, s, w, q[s][w][1..]);
    if w < 256 {
      match HandleEof(w as byte, cfg.peers[s], q[s][w][0].visited)
      case Forward(to, visited) =>
        TokenPush(cfg, popped, c, ts, tw, s, to as int, Eof(q[s][w][0].client, visited));
      case Release =>
        TokenBroadcast(cfg, popped, c, ts, tw, s + 1, Eof(q[s][w][0].client, []));
    }
  }

  lemma OtherPassEof(cfg: Config, st: State, c: Client, s: nat, w: nat)
    requires ValidConfig(cfg) && Shape(cfg, st.queues) && ClientOk(cfg, st, c)
    requires Busy(cfg, st.queues, s, w) && st.queues[s][w][0].Eof? && st.queues[s][w][0].client != c
    ensures ClientOk(cfg, Step(cfg, st, PassEof(s, w)), c)
  {
    if c in st.closed && st.closed[c] == 0 {
      var ts: nat, tw: nat :| TokenAt(cfg, st.queues, c, ts, tw);
      OtherPassToken(cfg, st, c, s, w, ts, tw);
    } else {
      OtherPassKeeps(cfg, st, c, s, w);
      NoNewEofKeeps(cfg, st.queues, Step(cfg, st, PassEof(s, w)).queues, c, if c in st.closed then st.closed[c] else 0);
    }
  }

  lemma OtherPassKeeps(cfg: Config, st: State, c: Client, s: nat, w: nat)
    requires Shape(cfg, st.queues)
    requires Busy(cfg, st.queues, s, w) && st.queues[s][w][0].Eof? && st.queues[s][w][0].client != c
    ensures NoNewEof(st.queues, Step(cfg, st, PassEof(s, w)).queues, c)
  {
    var q: Queues := st.queues;
    var popped := Put(q, s, w, q[s][w][1..]);
    assert NoNewEof(q, popped, c);
    if w < 256 {
      match HandleEof(w as byte, cfg.peers[s], q[s][w][0].visited)
      case Forward(to, visited) => OtherPushKeeps(q, popped, c, s, to as int, Eof(q[s][w][0].client, visited));
      case Release => OtherBroadcastKeeps(cfg, q, popped, c, s + 1, Eof(q[s][w][0].client, []));
    }
  }

  lemma OtherPushKeeps(q: Queues, r: Queues, c: Client, s: nat, w: nat, item: Item)
    requires NoNewEof(q, r, c) && item.client != c
    ensures NoNewEof(q, Push(r, s, w, item), c)
  {
  }

  lemma OtherBroadcastKeeps(cfg: Config, q: Queues, r: Queues, c: Client, s: nat, item: Item)
    requires NoNewEof(q, r, c) && item.client != c && s < |r|
    ensures NoNewEof(q, Broadcast(cfg, r, s, item), c)
  {
  }

  lemma StepForwards(cfg: Config, st: State, c: Client, s: nat, w: nat)
    requires Shape(cfg, st.queues) && Busy(cfg, st.queues, s, w) && w < 255 && w + 1 < |st.queues[s]|
    requires st.queues[s][w][0] == Eof(c, Span(0, w))
    ensures Step(cfg, st, PassEof(s, w)).queues ==
            Push(Put(st.queues, s, w, st.queues[s][w][1..]), s, w + 1, Eof(c, Span(0, w + 1)))
  {
    RingStep(0, w as byte, cfg.peers[s]);
    assert HandleEof(w as byte, cfg.peers[s], Span(0, w)) == Forward((w + 1) as byte, Span(0, w + 1));
  }

  lemma StepReleases(cfg: Config, st: State, c: Client, s: nat, w: nat)
    requires Shape(cfg, st.queues) && Busy(cfg, st.queues, s, w) && w + 1 == |st.queues[s]|
    requires st.queues[s][w][0] == Eof(c, Span(0, w))
    ensures Step(cfg, st, PassEof(s, w)).queues ==
            Broadcast(cfg, Put(st.queues, s, w, st.queues[s][w][1..]), s + 1, Eof(c, []))
  {
    RingStep(0, w as byte, cfg.peers[s]);
  }

  lemma TokenPassEof(cfg: Config, st: State, c: Client, s: nat, w: nat, ts: nat, tw: nat)
    requires ValidConfig(cfg) && Shape(cfg, st.queues) && TokenAt(cfg, st.queues, c, ts, tw)
    requires Busy(cfg, st.queues, s, w) && st.queues[s][w][0].Eof? && st.queues[s][w][0].client == c
    ensures var r := Step(cfg, st, PassEof(s, w)).queues;
            TokenAt(cfg, r, c, s, w + 1) || TokenAt(cfg, r, c, s + 1, 0)
  {
    HeadIsToken(cfg, st.queues, c, ts, tw, s, w);
    if w + 1 < |st.queues[s]| {
      StepForwards(cfg, st, c, s, w);
      TokenForward(cfg, st.queues, c, s, w);
    } else {
      StepReleases(cfg, st, c, s, w);
      TokenRelease(cfg, st.queues, c, s, w);
    }
  }

  /** A client whose EOF is at the head of a queue has been closed. */
  lemma HeadIsClosed(cfg: Config, st: State, c: Client, s: nat, w: nat)
    requires ClientOk(cfg, st, c) && Busy(cfg, st.queues, s, w)
    ensures st.queues[s][w][0].Eof? && st.queues[s][w][0].client == c ==> c in st.closed
  {
    if c !in st.closed {
      assert NoEof(st.queues[s][w], c);
    }
  }

  lemma StuckPass(cfg: Config, st: State, c: Client, s: nat, w: nat)
    requires ValidConfig(cfg) && Shape(cfg, st.queues) && c in st.closed && st.closed[c] > 0
    requires AllStuck(cfg, st.queues, c, st.closed[c])
    requires Busy(cfg, st.queues, s, w) && st.queues[s][w][0].Eof? && st.queues[s][w][0].client == c
    ensures AllStuck(cfg, Step(cfg, st, PassEof(s, w)).queues, c, st.closed[c])
  {
    assert Stuck(cfg, st.queues[s][w], c, s, w, st.closed[c]);
    StuckForward(cfg, st.queues, c, w, st.closed[c]);
  }

  lemma OwnPassEof(cfg: Config, st: State, c: Client, s: nat, w: nat)
    requires ValidConfig(cfg) && Shape(cfg, st.queues) && ClientOk(cfg, st, c)
    requires Busy(cfg, st.queues, s, w) && st.queues[s][w][0].Eof? && st.queues[s][w][0].client == c
    ensures ClientOk(cfg, Step(cfg, st, PassEof(s, w)), c)
  {
    HeadIsClosed(cfg, st, c, s, w);
    if st.closed[c] > 0 {
      StuckPass(cfg, st, c, s, w);
    } else {
      var ts: nat, tw: nat :| TokenAt(cfg, st.queues, c, ts, tw);
      TokenPassEof(cfg, st, c, s, w, ts, tw);
    }
  }

  lemma CloseOk(cfg: Config, st: State, c: Client, w: nat)
    requires ValidConfig(cfg) && Shape(cfg, st.queues) && c !in st.closed && Open(st.queues, c) && w < |st.queues[0]|
    ensures ClientOk(cfg, Step(cfg, st, Close(w, c)), c)
  {
    var q, r := st.queues, Push(st.queues, 0, w, Eof(c, []));
    if w == 0 {
      assert Span(0, 0) == [];
      forall s, x | 0 <= s < |r| && 0 <= x < |r[s]|
        ensures CellOk(cfg, r[s][x], c, s, x, 0, 0)
      {
        assert NoEof(q[s][x], c);
        if s == 0 && x == 0 {
          SealedNew(q[s][x], c, []);
        }
      }
      assert TokenAt(cfg, r, c, 0, 0);
    } else {
      assert Span(w, w) == [];
      forall s, x | 0 <= s < |r| && 0 <= x < |r[s]|
        ensures Stuck(cfg, r[s][x], c, s, x, w)
      {
        assert NoEof(q[s][x], c);
      }
    }
  }

  lemma EmitOk(cfg: Config, st: State, c: Client, a: Action)
    requires ValidConfig(cfg) && Shape(cfg, st.queues) && ClientOk(cfg, st, c)
    requires a.Emit? && Busy(cfg, st.queues, a.s, a.w)
    ensures ClientOk(cfg, Step(cfg, st, a), c)
  {
    var q: Queues, r: Queues := st.queues, Step(cfg, st, a).queues;
    var item := Data(q[a.s][a.w][0].client, a.body);
    if c in st.closed && st.closed[c] == 0 {
      var ts, tw :| TokenAt(cfg, q, c, ts, tw);
      if item.client == c {
        HeadMeansNotPassed(cfg, q, c, ts, tw, a.s, a.w);
      }
      TokenPush(cfg, q, c, ts, tw, a.s + 1, a.target, item);
      assert TokenAt(cfg, r, c, ts, tw);
    } else {
      NoNewEofKeeps(cfg, q, r, c, if c in st.closed then st.closed[c] else 0);
    }
  }

  lemma StepOk(cfg: Config, st: State, a: Action, c: Client)
    requires ValidConfig(cfg) && Shape(cfg, st.queues) && ClientOk(cfg, st, c)
    ensures ClientOk(cfg, Step(cfg, st, a), c)
  {
    var q: Queues := st.queues;
    var st' := Step(cfg, st, a);
    if st' == st {
      return;
    }
    match a
    case Feed(w, client, body) =>
      if c in st.closed && st.closed[c] == 0 {
        var ts, tw :| TokenAt(cfg, q, c, ts, tw);
        TokenPush(cfg, q, c, ts, tw, 0, w, Data(client, body));
        assert TokenAt(cfg, st'.queues, c, ts, tw);
      } else {
        NoNewEofKeeps(cfg, q, st'.queues, c, if c in st.closed then st.closed[c] else 0);
      }
    case Close(w, client) =>
      if client == c {
        CloseOk(cfg, st, c, w);
      } else if c in st.closed && st.closed[c] == 0 {
        var ts, tw :| TokenAt(cfg, q, c, ts, tw);
        TokenPush(cfg, q, c, ts, tw, 0, w, Eof(client, []));
        assert TokenAt(cfg, st'.queues, c, ts, tw);
      } else {
        NoNewEofKeeps(cfg, q, st'.queues, c, if c in st.closed then st.closed[c] else 0);
      }
    case Emit(_, _, _, _) => EmitOk(cfg, st, c, a);
    case Done(s, w) =>
      if c in st.closed && st.closed[c] == 0 {
        var ts, tw :| TokenAt(cfg, q, c, ts, tw);
        TokenPop(cfg, q, c, ts, tw, s, w);
        assert TokenAt(cfg, st'.queues, c, ts, tw);
      } else {
        NoNewEofKeeps(cfg, q, st'.queues, c, if c in st.closed then st.closed[c] else 0);
      }
    case PassEof(s, w) =>
      if q[s][w][0].client == c {
        OwnPassEof(cfg, st, c, s, w);
      } else {
        OtherPassEof(cfg, st, c, s, w);
      }
  }

  lemma {:induction false} AlwaysOk(cfg: Config, acts: seq<Action>, c: Client)
    requires ValidConfig(cfg)
    ensures ClientOk(cfg, Exec(cfg, acts), c)
  {
    if acts != [] {
      AlwaysOk(cfg, acts[..|acts| - 1], c);
      StepOk(cfg, Exec(cfg, acts[..|acts| - 1]), acts[|acts| - 1], c);
    }
  }

  ghost predicate HasEof(queue: Queue, c: Client) {
    exists i :: 0 <= i < |queue| && queue[i].Eof? && queue[i].client == c
  }

  /** Nothing of c, neither data nor an EOF, follows an EOF of c. */
  ghost predicate EofIsLast(queue: Queue, c: Client) {
    forall i, j :: 0 <= i < j < |queue| && queue[i].Eof? && queue[i].client == c ==> queue[j].client != c
  }

  /** The barrier, for any number of stages and any schedule: in no sink does anything of a client, be it
      data from any worker or a second EOF, come after its EOF. */
  lemma NothingAfterEof(cfg: Config, acts: seq<Action>, c: Client, sink: nat)
    requires ValidConfig(cfg) && sink < cfg.sinks
    ensures EofIsLast(Exec(cfg, acts).queues[|cfg.peers|][sink], c)
  {
    AlwaysOk(cfg, acts, c);
    var st := Exec(cfg, acts);
    var k := |cfg.peers|;
    if c !in st.closed {
      assert NoEof(st.queues[k][sink], c);
    } else if st.closed[c] > 0 {
      assert Stuck(cfg, st.queues[k][sink], c, k, sink, st.closed[c]);
    } else {
      var ts: nat, tw: nat :| TokenAt(cfg, st.queues, c, ts, tw);
      assert CellOk(cfg, st.queues[k][sink], c, k, sink, ts, tw);
    }
  }

  /** The same between stages: while the EOF of a client waits at a stage, earlier stages hold nothing of it. */
  lemma NothingBehindEof(cfg: Config, acts: seq<Action>, c: Client, s: nat, w: nat, earlier: nat, v: nat)
    requires ValidConfig(cfg) && earlier < s <= |cfg.peers| && w < Width(cfg, s) && v < Width(cfg, earlier)
    ensures var q := Exec(cfg, acts).queues;
            HasEof(q[s][w], c) ==> NoData(q[earlier][v], c) && NoEof(q[earlier][v], c)
  {
    AlwaysOk(cfg, acts, c);
    var st := Exec(cfg, acts);
    if c !in st.closed {
      assert NoEof(st.queues[s][w], c);
    } else if st.closed[c] > 0 {
      assert Stuck(cfg, st.queues[s][w], c, s, w, st.closed[c]);
    } else {
      var ts: nat, tw: nat :| TokenAt(cfg, st.queues, c, ts, tw);
      assert CellOk(cfg, st.queues[s][w], c, s, w, ts, tw);
      assert CellOk(cfg, st.queues[earlier][v], c, earlier, v, ts, tw);
    }
  }

  ghost predicate Drained(cfg: Config, q: Queues) {
    forall s, w {:trigger q[s][w]} :: 0 <= s < |cfg.peers| && s < |q| && 0 <= w < |q[s]| ==> q[s][w] == []
  }

  /** A drained pipeline holds no token, so the token of a client that entered at worker 0 is in the sinks. */
  lemma DrainedTokenInSinks(cfg: Config, q: Queues, c: Client, ts: nat, tw: nat)
    requires Shape(cfg, q) && TokenAt(cfg, q, c, ts, tw)
    ensures Drained(cfg, q) ==> ts == |cfg.peers|
  {
    if ts < |cfg.peers| {
      assert CellOk(cfg, q[ts][tw], c, ts, tw, ts, tw);
      assert q[ts][tw] != [];
    }
  }

  /** When every stage has drained, a closed client's EOF is in each target sink exactly if it entered
      the pipeline at worker 0. */
  lemma DeliveredIffEntersAtZero(cfg: Config, acts: seq<Action>, c: Client, sink: nat)
    requires ValidConfig(cfg) && sink < cfg.sinks && IsTarget(cfg, |cfg.peers|, sink)
    requires c in Exec(cfg, acts).closed && Drained(cfg, Exec(cfg, acts).queues)
    ensures HasEof(Exec(cfg, acts).queues[|cfg.peers|][sink], c) <==> Exec(cfg, acts).closed[c] == 0
  {
    AlwaysOk(cfg, acts, c);
    var st := Exec(cfg, acts);
    var k := |cfg.peers|;
    if st.closed[c] > 0 {
      assert Stuck(cfg, st.queues[k][sink], c, k, sink, st.closed[c]);
    } else {
      var ts: nat, tw: nat :| TokenAt(cfg, st.queues, c, ts, tw);
      DrainedTokenInSinks(cfg, st.queues, c, ts, tw);
      assert CellOk(cfg, st.queues[k][sink], c, k, sink, ts, tw);
    }
  }
}
