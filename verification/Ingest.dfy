/** Ingest: a client sends a file in batches and waits for each to be acknowledged; the gateway publishes chunks.
    The gateway may crash, losing its memory and the connection; the client then sends its batch again.
    internal/client/file_reader.go and internal/gateway/chunk/sender.go. */
module Ingest {
  import opened Protocol
  import opened Dedup

  type Line = string

  /** What is published: a batch of lines, or the end of the file. */
  datatype Body = Batch(lines: seq<Line>) | Eof

  /** What travels to the gateway. */
  datatype Frame = Row(line: Line, batch: nat) | End(batch: nat)

  datatype Phase = Sending | AwaitAck | AwaitFinalAck | Done

  /** start is the line the batch begins at, sent counts its lines sent, pos is where the file reader stands. */
  datatype Client = Client(batch: nat, start: nat, sent: nat, pos: nat, phase: Phase)

  /** A message being published to one queue after another. last says that the end of the file came with it. */
  datatype Job = Job(id: nat, body: Body, todo: seq<nat>, last: bool)

  datatype Gateway = Gateway(chunk: seq<Line>, job: Option<Job>)

  datatype State = State(client: Client, wire: seq<Frame>, gateway: Gateway, acks: nat,
                         queues: seq<seq<Envelope<Body>>>)

  /** size is both the client's batch size and the gateway's chunk size. route gives the queues that the message with
      a certain id goes to: the source hashes the id. */
  datatype Setup = Setup(lines: seq<Line>, size: nat, source: string, route: nat -> seq<nat>)

  datatype Action = SendRow | SendEnd | Receive | Work | ReadAck | Crash | Reconnect

  const INITIAL: Client := Client(0, 0, 0, 0, Sending)

  function Init(queues: nat): State {
    State(INITIAL, [], Gateway([], None), 0, seq(queues, _ => []))
  }

  function RowSent(su: Setup, st: State): State {
    var c := st.client;
    if c.phase == Sending && c.sent < su.size && c.pos < |su.lines| then
      var next := c.(sent := c.sent + 1, pos := c.pos + 1);
      st.(wire := st.wire + [Row(su.lines[c.pos], c.batch)],
          client := if next.sent == su.size then next.(phase := AwaitAck) else next)
    else st
  }

  function EndSent(su: Setup, st: State): State {
    var c := st.client;
    if c.phase == Sending && c.sent < su.size && c.pos == |su.lines| then
      st.(wire := st.wire + [End(c.batch)], client := c.(phase := AwaitFinalAck))
    else st
  }

  /** The gateway takes one frame; a full chunk, or the end, starts the publishing. */
  function Received(su: Setup, g: Gateway, frame: Frame): Gateway {
    var chunk := if frame.Row? then g.chunk + [frame.line] else g.chunk;
    if |chunk| >= su.size || frame.End?
    then Gateway([], Some(Job(frame.batch, Batch(chunk), su.route(frame.batch), frame.End?)))
    else Gateway(chunk, None)
  }

  function Publish(queues: seq<seq<Envelope<Body>>>, q: nat, e: Envelope<Body>): (r: seq<seq<Envelope<Body>>>)
    ensures |r| == |queues|
  {
    if q < |queues| then queues[q := queues[q] + [e]] else queues
  }

  /** One publication; or, once a batch is in all its queues, the acknowledgement, and only then the end of the file. */
  function Worked(su: Setup, st: State): State {
    if st.gateway.job.None? then st
    else
      var job := st.gateway.job.value;
      if job.todo != [] then
        st.(queues := Publish(st.queues, job.todo[0], Envelope(su.source, job.id, job.body)),
            gateway := st.gateway.(job := Some(job.(todo := job.todo[1..]))))
      else if job.body.Batch? then
        var next := if job.last then Some(Job(job.id + 1, Eof, su.route(job.id + 1), false)) else None;
        st.(acks := st.acks + 1, gateway := st.gateway.(job := next))
      else st.(gateway := st.gateway.(job := None))
  }

  function AckRead(su: Setup, st: State): State {
    var c := st.client;
    if st.acks > 0 && c.phase == AwaitAck then
      st.(acks := st.acks - 1, client := Client(c.batch + 1, c.start + su.size, 0, c.pos, Sending))
    else if st.acks > 0 && c.phase == AwaitFinalAck then st.(acks := st.acks - 1, client := c.(phase := Done))
    else st
  }

  /** The file has no more lines for the batch: what the client sends next, or has sent last, is the End. */
  predicate AtEnd(su: Setup, c: Client) {
    c.phase == AwaitFinalAck || (c.phase == Sending && c.pos == |su.lines|)
  }

  /** What the client does when it finds the connection broken. At the end of the file it goes back to line one. */
  function Rewound(su: Setup, c: Client): Client {
    if c.phase == Done then c
    else if AtEnd(su, c) then c.(sent := 0, pos := 0, phase := Sending)
    else c.(sent := 0, pos := if c.start <= |su.lines| then c.start else |su.lines|, phase := Sending)
  }

  function FrameTaken(su: Setup, st: State): State {
    if st.wire != [] && st.gateway.job.None?
    then st.(wire := st.wire[1..], gateway := Received(su, st.gateway, st.wire[0]))
    else st
  }

  function Step(su: Setup, st: State, a: Action): State {
    match a
    case SendRow => RowSent(su, st)
    case SendEnd => EndSent(su, st)
    case Receive => FrameTaken(su, st)
    case Work => Worked(su, st)
    case ReadAck => AckRead(su, st)
    case Crash => State(Rewound(su, st.client), [], Gateway([], None), 0, st.queues)
    case Reconnect => State(Rewound(su, st.client), [], st.gateway, 0, st.queues)
  }

  function Exec(su: Setup, st: State, acts: seq<Action>): State {
    if acts == [] then st else Step(su, Exec(su, st, acts[..|acts| - 1]), acts[|acts| - 1])
  }

  // What the queues should hold.

  /** The first line of batch i. */
  function Start(size: nat, i: nat): nat {
    if i == 0 then 0 else Start(size, i - 1) + size
  }

  /** Batch i has all its lines. */
  predicate Full(su: Setup, i: nat) {
    Start(su.size, i) + su.size <= |su.lines|
  }

  function Content(su: Setup, i: nat): Body {
    var start := Start(su.size, i);
    if start > |su.lines| then Eof
    else if start + su.size <= |su.lines| then Batch(su.lines[start..start + su.size])
    else Batch(su.lines[start..])
  }

  /** The messages with an id below m that go to queue q, each once and in order. */
  function Expected(su: Setup, q: nat, m: nat): seq<Envelope<Body>> {
    if m == 0 then []
    else Expected(su, q, m - 1) + if q in su.route(m - 1) then [Envelope(su.source, m - 1, Content(su, m - 1))] else []
  }

  function Mark(su: Setup, q: nat, m: nat): (r: nat)
    ensures r <= m
  {
    if m == 0 then 0 else if q in su.route(m - 1) then m else Mark(su, q, m - 1)
  }

  /** Behind this queue a consumer accepts exactly the messages below m. */
  ghost predicate HoldsAt(su: Setup, queue: seq<Envelope<Body>>, q: nat, m: nat) {
    && Accept(queue, map[]) == Expected(su, q, m)
    && At(Marks(queue, map[]), su.source) == Mark(su, q, m)
  }

  /** Behind this queue a consumer accepts exactly the messages below some number from lo to hi. */
  ghost predicate Within(su: Setup, queue: seq<Envelope<Body>>, q: nat, lo: nat, hi: nat) {
    exists m :: lo <= m <= hi && HoldsAt(su, queue, q, m)
  }

  lemma NotRouted(su: Setup, queue: seq<Envelope<Body>>, q: nat, m: nat, hi: nat)
    requires q !in su.route(m) && Within(su, queue, q, m, hi) && m < hi
    ensures Within(su, queue, q, m + 1, hi)
  {
    assert HoldsAt(su, queue, q, m) ==> HoldsAt(su, queue, q, m + 1);
  }

  lemma {:induction false} MarkPassed(su: Setup, q: nat, m: nat, n: nat)
    requires q in su.route(m) && m < n
    ensures m < Mark(su, q, n)
  {
    if m + 1 < n {
      MarkPassed(su, q, m, n - 1);
    }
  }

  /** Publishing message m, for the first time or again, leaves a queue with the messages it had and with m. */
  lemma PublishedOnce(su: Setup, queue: seq<Envelope<Body>>, q: nat, m: nat, n: nat)
    requires q in su.route(m) && HoldsAt(su, queue, q, n) && m <= n
    ensures HoldsAt(su, queue + [Envelope(su.source, m, Content(su, m))], q, if m == n then m + 1 else n)
  {
    AcceptAppend(queue, Envelope(su.source, m, Content(su, m)), map[]);
    if m < n {
      MarkPassed(su, q, m, n);
    }
  }

  lemma PublishedWithin(su: Setup, queue: seq<Envelope<Body>>, q: nat, m: nat, hi: nat)
    requires q in su.route(m) && Within(su, queue, q, m, hi) && m < hi
    ensures Within(su, queue + [Envelope(su.source, m, Content(su, m))], q, m + 1, hi)
  {
    var n :| m <= n <= hi && HoldsAt(su, queue, q, n);
    PublishedOnce(su, queue, q, m, n);
  }

  lemma {:induction false} ExpectedGrows(su: Setup, q: nat, m: nat, n: nat)
    requires m <= n
    ensures Expected(su, q, m) <= Expected(su, q, n)
    decreases n
  {
    if m < n {
      ExpectedGrows(su, q, m, n - 1);
    }
  }

  // The invariant.

  ghost predicate Position(su: Setup, c: Client) {
    && c.start == Start(su.size, c.batch) <= |su.lines|
    && match c.phase
       case Sending => c.pos == c.start + c.sent <= |su.lines| && c.sent < su.size
       case AwaitAck => c.pos == c.start + c.sent <= |su.lines| && c.sent == su.size
       case _ => c.pos == c.start + c.sent == |su.lines| && c.sent < su.size
  }

  function Rows(lines: seq<Line>, batch: nat): (r: seq<Frame>)
    ensures |r| == |lines| && forall i :: 0 <= i < |r| ==> r[i] == Row(lines[i], batch)
  {
    seq(|lines|, i requires 0 <= i < |lines| => Row(lines[i], batch))
  }

  /** The chunk and the frames under way are the lines of the batch sent so far. */
  ghost predicate Collecting(su: Setup, st: State) {
    var c, have := st.client, |st.gateway.chunk|;
    && have <= c.sent && have < su.size && c.start + c.sent <= |su.lines|
    && st.gateway.chunk == su.lines[c.start..c.start + have]
    && st.wire == Rows(su.lines[c.start + have..c.start + c.sent], c.batch) +
                  (if c.phase == AwaitFinalAck then [End(c.batch)] else [])
  }

  ghost predicate AllWithin(su: Setup, queues: seq<seq<Envelope<Body>>>, lo: nat, hi: nat) {
    AllBut(su, queues, [], lo, hi)
  }

  /** The same of every queue but those to do. */
  ghost predicate AllBut(su: Setup, queues: seq<seq<Envelope<Body>>>, todo: seq<nat>, lo: nat, hi: nat) {
    forall q {:trigger Within(su, queues[q], q, lo, hi)} :: 0 <= q < |queues| && q !in todo ==>
      Within(su, queues[q], q, lo, hi)
  }

  /** As far as the queues can be while the client is at batch b: in the last batch, at the EOF. */
  function Top(su: Setup, b: nat): nat {
    if Full(su, b) then b + 1 else b + 2
  }

  ghost predicate Quiet(st: State) {
    st.wire == [] && st.gateway.chunk == []
  }

  ghost predicate WithoutJob(su: Setup, st: State) {
    var c := st.client;
    if c.phase == Done then Quiet(st) && st.acks == 0 && AllWithin(su, st.queues, c.batch + 2, c.batch + 2)
    else if st.acks == 0 then Collecting(su, st) && AllWithin(su, st.queues, c.batch, Top(su, c.batch))
    else
      && st.acks == 1 && Quiet(st)
      && (c.phase == AwaitAck || c.phase == AwaitFinalAck)
      && (c.phase == AwaitAck ==> AllWithin(su, st.queues, c.batch + 1, c.batch + 1))
      && (c.phase == AwaitFinalAck ==> AllWithin(su, st.queues, c.batch + 2, c.batch + 2))
  }

  ghost predicate WithJob(su: Setup, st: State, job: Job) {
    var c := st.client;
    && Quiet(st)
    && job.body == Content(su, job.id)
    && (forall q :: q in job.todo ==> q in su.route(job.id))
    && AllWithin(su, st.queues, job.id, Top(su, c.batch))
    && AllBut(su, st.queues, job.todo, job.id + 1, Top(su, c.batch))
    && if job.body.Batch?
       then job.id == c.batch && st.acks == 0 && (c.phase == if job.last then AwaitFinalAck else AwaitAck)
       else job.id == c.batch + 1 && !job.last &&
            ((c.phase == AwaitFinalAck && st.acks == 1) || (c.phase == Done && st.acks == 0))
  }

  ghost predicate Inv(su: Setup, st: State) {
    && Position(su, st.client)
    && if st.gateway.job.None? then WithoutJob(su, st) else WithJob(su, st, st.gateway.job.value)
  }

  lemma InitHolds(su: Setup, queues: nat)
    requires su.size > 0
    ensures Inv(su, Init(queues))
  {
    var all := Init(queues).queues;
    forall q | 0 <= q < |all|
      ensures Within(su, all[q], q, 0, Top(su, 0))
    {
      assert HoldsAt(su, all[q], q, 0);
    }
  }

  lemma RowsSnoc(lines: seq<Line>, line: Line, batch: nat)
    ensures Rows(lines + [line], batch) == Rows(lines, batch) + [Row(line, batch)]
  {
  }

  lemma RowKeepsCollecting(su: Setup, st: State)
    requires Collecting(su, st) && Position(su, st.client) && st.client.phase == Sending && st.client.pos < |su.lines|
    ensures Collecting(su, RowSent(su, st))
  {
    var c, have := st.client, |st.gateway.chunk|;
    var before := su.lines[c.start + have..c.start + c.sent];
    RowsSnoc(before, su.lines[c.pos], c.batch);
    assert RowSent(su, st).wire == Rows(before, c.batch) + [Row(su.lines[c.pos], c.batch)];
    assert su.lines[c.start + have..c.start + c.sent + 1] == before + [su.lines[c.pos]];
  }

  lemma RowKeeps(su: Setup, st: State)
    requires su.size > 0 && Inv(su, st)
    ensures Inv(su, RowSent(su, st))
  {
    if st.client.phase == Sending && st.client.pos < |su.lines| {
      RowKeepsCollecting(su, st);
    }
  }

  lemma EndKeeps(su: Setup, st: State)
    requires su.size > 0 && Inv(su, st)
    ensures Inv(su, EndSent(su, st))
  {
  }

  /** A new job: the queues it does not go to are past it already. */
  lemma JobBegins(su: Setup, queues: seq<seq<Envelope<Body>>>, m: nat, hi: nat)
    requires AllWithin(su, queues, m, hi) && m < hi
    ensures AllBut(su, queues, su.route(m), m + 1, hi)
  {
    forall q: nat | 0 <= q < |queues| && q !in su.route(m)
      ensures Within(su, queues[q], q, m + 1, hi)
    {
      assert Within(su, queues[q], q, m, hi);
      NotRouted(su, queues[q], q, m, hi);
    }
  }

  lemma Wider(su: Setup, queues: seq<seq<Envelope<Body>>>, lo: nat, hi: nat, lo': nat, hi': nat)
    requires AllWithin(su, queues, lo, hi) && lo' <= lo && hi <= hi'
    ensures AllWithin(su, queues, lo', hi')
  {
    forall q | 0 <= q < |queues|
      ensures Within(su, queues[q], q, lo', hi')
    {
      assert Within(su, queues[q], q, lo, hi);
    }
  }

  lemma RowUnderWay(su: Setup, st: State)
    requires Collecting(su, st) && |st.gateway.chunk| < st.client.sent
    ensures var c, have := st.client, |st.gateway.chunk|;
            && st.wire != [] && st.wire[0] == Row(su.lines[c.start + have], c.batch)
            && st.wire[1..] == Rows(su.lines[c.start + have + 1..c.start + c.sent], c.batch) +
                               (if c.phase == AwaitFinalAck then [End(c.batch)] else [])
            && st.gateway.chunk + [su.lines[c.start + have]] == su.lines[c.start..c.start + have + 1]
  {
    var c, have := st.client, |st.gateway.chunk|;
    var rest := su.lines[c.start + have..c.start + c.sent];
    assert rest[1..] == su.lines[c.start + have + 1..c.start + c.sent];
    assert Rows(rest, c.batch)[1..] == Rows(rest[1..], c.batch);
  }

  lemma RowCollected(su: Setup, st: State)
    requires Inv(su, st) && st.gateway.job.None?
    requires st.acks == 0 && st.client.phase != Done && |st.gateway.chunk| < st.client.sent
    requires |st.gateway.chunk| + 1 < su.size
    ensures Inv(su, FrameTaken(su, st))
  {
    RowUnderWay(su, st);
  }

  lemma LastRowTaken(su: Setup, st: State)
    requires Collecting(su, st) && Position(su, st.client) && st.client.phase == AwaitAck && st.gateway.job.None?
    requires |st.gateway.chunk| + 1 == su.size
    ensures FrameTaken(su, st) == st.(wire := [], gateway := Gateway([], Some(
              Job(st.client.batch, Content(su, st.client.batch), su.route(st.client.batch), false))))
  {
    RowUnderWay(su, st);
    var c := st.client;
    assert su.lines[c.start + su.size..c.start + c.sent] == [];
  }

  lemma ChunkFilled(su: Setup, st: State)
    requires Inv(su, st) && st.gateway.job.None?
    requires st.acks == 0 && st.client.phase != Done && |st.gateway.chunk| < st.client.sent
    requires |st.gateway.chunk| + 1 == su.size
    ensures Inv(su, FrameTaken(su, st))
  {
    LastRowTaken(su, st);
    JobBegins(su, st.queues, st.client.batch, Top(su, st.client.batch));
  }

  lemma EndUnderWay(su: Setup, st: State)
    requires Collecting(su, st) && |st.gateway.chunk| == st.client.sent && st.wire != []
    ensures st.client.phase == AwaitFinalAck && st.wire == [End(st.client.batch)] && st.wire[1..] == []
    ensures st.client.start + st.client.sent == |su.lines| ==> st.gateway.chunk == su.lines[st.client.start..]
  {
    var c := st.client;
    assert su.lines[c.start + c.sent..c.start + c.sent] == [];
  }

  lemma EndReceived(su: Setup, st: State)
    requires su.size > 0 && Inv(su, st) && st.gateway.job.None? && st.wire != []
    requires st.acks == 0 && st.client.phase != Done && |st.gateway.chunk| == st.client.sent
    ensures Inv(su, FrameTaken(su, st))
  {
    EndUnderWay(su, st);
    JobBegins(su, st.queues, st.client.batch, Top(su, st.client.batch));
  }

  lemma ReceiveKeeps(su: Setup, st: State)
    requires su.size > 0 && Inv(su, st)
    ensures Inv(su, FrameTaken(su, st))
  {
    if st.wire != [] && st.gateway.job.None? {
      if |st.gateway.chunk| < st.client.sent {
        if |st.gateway.chunk| + 1 < su.size {
          RowCollected(su, st);
        } else {
          ChunkFilled(su, st);
        }
      } else {
        EndReceived(su, st);
      }
    }
  }

  lemma PublishKeeps(su: Setup, st: State, job: Job)
    requires su.size > 0 && Inv(su, st) && st.gateway.job == Some(job) && job.todo != []
    ensures Inv(su, Worked(su, st))
  {
    var q, queues, hi := job.todo[0], st.queues, Top(su, st.client.batch);
    var queues' := Worked(su, st).queues;
    if q < |queues| {
      assert q in job.todo && Within(su, queues[q], q, job.id, hi);
      PublishedWithin(su, queues[q], q, job.id, hi);
    }
    forall p | 0 <= p < |queues'|
      ensures Within(su, queues'[p], p, job.id, hi)
      ensures p !in job.todo[1..] ==> Within(su, queues'[p], p, job.id + 1, hi)
    {
      if p != q {
        assert queues'[p] == queues[p] && Within(su, queues[p], p, job.id, hi);
        assert p !in job.todo[1..] ==> p !in job.todo;
      }
    }
  }

  lemma WorkKeeps(su: Setup, st: State)
    requires su.size > 0 && Inv(su, st)
    ensures Inv(su, Worked(su, st))
  {
    if st.gateway.job.Some? {
      var job := st.gateway.job.value;
      if job.todo != [] {
        PublishKeeps(su, st, job);
      } else {
        assert job.todo == [];
        if job.last {
          JobBegins(su, st.queues, job.id + 1, Top(su, st.client.batch));
        }
      }
    }
  }

  /** Between two batches nothing is under way. */
  lemma BatchBegins(su: Setup, st: State)
    requires su.size > 0 && Position(su, st.client) && st.client.phase == Sending && st.client.sent == 0
    requires Quiet(st) && st.acks == 0 && st.gateway.job.None? &&
             AllWithin(su, st.queues, st.client.batch, Top(su, st.client.batch))
    ensures Inv(su, st)
  {
    assert Rows(su.lines[st.client.start..st.client.start], st.client.batch) == [];
  }

  lemma AckKeeps(su: Setup, st: State)
    requires su.size > 0 && Inv(su, st)
    ensures Inv(su, AckRead(su, st))
  {
    if st.acks > 0 && st.client.phase == AwaitAck {
      var b := st.client.batch + 1;
      Wider(su, st.queues, b, b, b, Top(su, b));
      BatchBegins(su, AckRead(su, st));
    }
  }

  /** The batches' lines, up to batch i. */
  function LinesUpTo(su: Setup, i: nat): seq<Line> {
    if i == 0 then []
    else LinesUpTo(su, i - 1) + if Content(su, i - 1).Batch? then Content(su, i - 1).lines else []
  }

  /** The batches cut the file into pieces of the batch size, and the last one has what is left. */
  lemma {:induction false} BatchesAreTheFile(su: Setup, i: nat)
    requires Start(su.size, i) <= |su.lines|
    ensures LinesUpTo(su, i) == su.lines[..Start(su.size, i)]
    ensures !Full(su, i) ==> LinesUpTo(su, i + 1) == su.lines && Content(su, i + 1) == Eof
  {
    var start := Start(su.size, i);
    if i > 0 {
      BatchesAreTheFile(su, i - 1);
      assert su.lines[..start] == su.lines[..start - su.size] + su.lines[start - su.size..start];
    }
    assert su.lines == su.lines[..start] + su.lines[start..];
  }
}
