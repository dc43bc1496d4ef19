/** Whole runs of ingest: which crashes and broken connections they may have, and that what comes out is exact. While
    the last batch of a file is sent again, the network may be in states that it does not see otherwise. */
module IngestRuns {
  import opened Protocol
  import opened Dedup
  import opened Ingest

  /** The client can take up the batch where it began: it has not come to the end of the file, or this is
      the first batch. */
  predicate Resumable(su: Setup, c: Client) {
    c.phase != Done && (AtEnd(su, c) ==> c.start == 0)
  }

  /** Consumers of every queue that message m goes to have seen it. */
  ghost predicate AllSeen(su: Setup, queues: seq<seq<Envelope<Body>>>, m: nat) {
    forall q {:trigger Seen(su, queues[q], q, m)} :: 0 <= q < |queues| ==> Seen(su, queues[q], q, m)
  }

  predicate Seen(su: Setup, queue: seq<Envelope<Body>>, q: nat, m: nat) {
    q in su.route(m) ==> m < At(Marks(queue, map[]), su.source)
  }

  /** Behind the chunk that the gateway holds, the batch fills a chunk before it ends. */
  predicate FillsAgain(su: Setup, st: State) {
    |st.gateway.chunk| + |su.lines| >= st.client.start + su.size
  }

  /** What goes wrong with the chunk when the last batch is sent again has been seen before: the batch, and the EOF if
      the client would be done before that is published. */
  ghost predicate RepetitionSeen(su: Setup, st: State) {
    && AllSeen(su, st.queues, st.client.batch)
    && (FillsAgain(su, st) ==> AllSeen(su, st.queues, st.client.batch + 1))
  }

  /** The gateway may crash while the client can take up its batch; and once the client is done, if the EOF has been
      seen. A connection may break without a crash when the client is done. Otherwise the client must be able to take
      up its batch. If that is full, the gateway may hold nothing of it; if it is the last, the gateway may hold no
      lines of it or the repetition must have been seen, while a publication in progress does no harm. */
  ghost predicate Allowed(su: Setup, st: State, a: Action) {
    && (a.Crash? ==>
          if st.client.phase == Done then AllSeen(su, st.queues, st.client.batch + 1) else Resumable(su, st.client))
    && (a.Reconnect? && st.client.phase != Done ==>
          && Resumable(su, st.client)
          && if Full(su, st.client.batch) then st.gateway == Gateway([], None)
             else st.gateway.chunk == [] || RepetitionSeen(su, st))
  }

  // The last batch, sent again.

  ghost predicate LastBatch(su: Setup, c: Client) {
    && c.start == Start(su.size, c.batch) <= |su.lines| && !Full(su, c.batch)
    && c.phase != AwaitAck && c.pos == c.start + c.sent <= |su.lines|
  }

  ghost predicate OfBatch(wire: seq<Frame>, b: nat) {
    forall i :: 0 <= i < |wire| ==> wire[i].batch == b
  }

  /** The job of the last batch, or that of the EOF. */
  ghost predicate LastJob(su: Setup, b: nat, job: Job) {
    && (forall q :: q in job.todo ==> q in su.route(job.id))
    && if job.body.Batch? then job.id == b else job.id == b + 1 && !job.last
  }

  /** Everything has been seen; whatever is published now is dropped. */
  ghost predicate Settled(su: Setup, st: State) {
    && AllWithin(su, st.queues, st.client.batch + 2, st.client.batch + 2)
    && |st.gateway.chunk| < su.size
    && (st.gateway.job.Some? ==> st.gateway.chunk == [] && LastJob(su, st.client.batch, st.gateway.job.value))
  }

  /** A publication goes on that leads to the EOF, whatever the client does meanwhile. */
  ghost predicate Running(su: Setup, st: State) {
    var b := st.client.batch;
    && st.gateway.job.Some? && st.gateway.chunk == [] && LastJob(su, b, st.gateway.job.value)
    && var job := st.gateway.job.value;
       && AllWithin(su, st.queues, job.id, b + 2) && AllBut(su, st.queues, job.todo, job.id + 1, b + 2)
       && (job.body.Batch? ==>
             && job.last && st.acks == 0 && st.client.phase != Done
             && (job.body == Content(su, b) || AllWithin(su, st.queues, b + 1, b + 2)))
  }

  /** The batch has been seen, and the End will come before a chunk is full. */
  ghost predicate Resending(su: Setup, st: State) {
    var c, ends := st.client, if st.client.phase == AwaitFinalAck then 1 else 0;
    && st.gateway.job.None? && st.acks == 0 && (c.phase == Sending || c.phase == AwaitFinalAck)
    && AllWithin(su, st.queues, c.batch + 1, c.batch + 2)
    && ends <= |st.wire| && |st.gateway.chunk| + |st.wire| + |su.lines| < c.pos + su.size + ends
    && (forall i :: 0 <= i < |st.wire| ==> (st.wire[i].End? <==> ends == 1 && i == |st.wire| - 1))
  }

  ghost predicate Again(su: Setup, st: State) {
    LastBatch(su, st.client) && OfBatch(st.wire, st.client.batch) &&
    (Settled(su, st) || Running(su, st) || Resending(su, st))
  }

  ghost predicate Consistent(su: Setup, st: State) {
    Inv(su, st) || Again(su, st)
  }

  /** The client stays at the last batch, and sends nothing but that. */
  lemma LastStays(su: Setup, st: State, a: Action)
    requires LastBatch(su, st.client) && OfBatch(st.wire, st.client.batch)
    requires a.Crash? || a.Reconnect? ==> st.client.phase == Done || Resumable(su, st.client)
    ensures var st' := Step(su, st, a);
            LastBatch(su, st'.client) && OfBatch(st'.wire, st'.client.batch) && st'.client.batch == st.client.batch
  {
    if a.Work? {
      assert Worked(su, st).client == st.client && Worked(su, st).wire == st.wire;
    }
  }

  /** A message that a consumer has seen changes nothing, whatever is in it. */
  lemma SeenIsDropped(su: Setup, queue: seq<Envelope<Body>>, q: nat, m: nat, body: Body, n: nat)
    requires q in su.route(m) && HoldsAt(su, queue, q, n) && m < n
    ensures HoldsAt(su, queue + [Envelope(su.source, m, body)], q, n)
  {
    AcceptAppend(queue, Envelope(su.source, m, body), map[]);
    MarkPassed(su, q, m, n);
  }

  lemma SeenWithin(su: Setup, queue: seq<Envelope<Body>>, q: nat, m: nat, body: Body, lo: nat, hi: nat)
    requires q in su.route(m) && Within(su, queue, q, lo, hi) && m < lo
    ensures Within(su, queue + [Envelope(su.source, m, body)], q, lo, hi)
  {
    var n :| lo <= n <= hi && HoldsAt(su, queue, q, n);
    SeenIsDropped(su, queue, q, m, body, n);
  }

  /** Publishing a message that all have seen. */
  lemma DroppedEverywhere(su: Setup, queues: seq<seq<Envelope<Body>>>, q: nat, m: nat, body: Body, lo: nat, hi: nat)
    requires AllWithin(su, queues, lo, hi) && q in su.route(m) && m < lo
    ensures AllWithin(su, Publish(queues, q, Envelope(su.source, m, body)), lo, hi)
  {
    var queues' := Publish(queues, q, Envelope(su.source, m, body));
    forall p | 0 <= p < |queues'|
      ensures Within(su, queues'[p], p, lo, hi)
    {
      assert Within(su, queues[p], p, lo, hi);
      if p == q {
        SeenWithin(su, queues[p], p, m, body, lo, hi);
      }
    }
  }

  /** Publishing a message for those who have not seen it. */
  lemma OneLessToDo(su: Setup, queues: seq<seq<Envelope<Body>>>, todo: seq<nat>, m: nat, hi: nat)
    requires AllWithin(su, queues, m, hi) && AllBut(su, queues, todo, m + 1, hi) && m < hi
    requires todo != [] && todo[0] in su.route(m)
    ensures var queues' := Publish(queues, todo[0], Envelope(su.source, m, Content(su, m)));
            AllWithin(su, queues', m, hi) && AllBut(su, queues', todo[1..], m + 1, hi)
  {
    var q := todo[0];
    var queues' := Publish(queues, q, Envelope(su.source, m, Content(su, m)));
    if q < |queues| {
      assert Within(su, queues[q], q, m, hi);
      PublishedWithin(su, queues[q], q, m, hi);
    }
    forall p | 0 <= p < |queues'|
      ensures Within(su, queues'[p], p, m, hi)
      ensures p !in todo[1..] ==> Within(su, queues'[p], p, m + 1, hi)
    {
      if p != q {
        assert queues'[p] == queues[p] && Within(su, queues[p], p, m, hi);
        assert p !in todo[1..] ==> p !in todo;
      }
    }
  }

  /** What holds of all holds of all but some. */
  lemma AllIsAllBut(su: Setup, queues: seq<seq<Envelope<Body>>>, todo: seq<nat>, lo: nat, hi: nat)
    requires AllWithin(su, queues, lo, hi)
    ensures AllBut(su, queues, todo, lo, hi)
  {
    forall q | 0 <= q < |queues| && q !in todo
      ensures Within(su, queues[q], q, lo, hi)
    {
      assert Within(su, queues[q], q, lo, hi);
    }
  }

  lemma SettledWork(su: Setup, st: State)
    requires LastBatch(su, st.client) && Settled(su, st)
    ensures Settled(su, Worked(su, st))
  {
    if st.gateway.job.Some? && st.gateway.job.value.todo != [] {
      var job, b := st.gateway.job.value, st.client.batch;
      DroppedEverywhere(su, st.queues, job.todo[0], job.id, job.body, b + 2, b + 2);
    }
  }

  lemma SettledStays(su: Setup, st: State, a: Action)
    requires su.size > 0 && LastBatch(su, st.client) && OfBatch(st.wire, st.client.batch) && Settled(su, st)
    requires Allowed(su, st, a)
    ensures Settled(su, Step(su, st, a))
  {
    LastStays(su, st, a);
    if a.Work? {
      SettledWork(su, st);
    }
  }

  lemma RunningWork(su: Setup, st: State)
    requires LastBatch(su, st.client) && Running(su, st) && st.gateway.job.value.todo != []
    ensures Running(su, Worked(su, st))
  {
    var job, b := st.gateway.job.value, st.client.batch;
    if job.body == Content(su, job.id) {
      OneLessToDo(su, st.queues, job.todo, job.id, b + 2);
      if AllWithin(su, st.queues, b + 1, b + 2) && job.id == b {
        DroppedEverywhere(su, st.queues, job.todo[0], b, job.body, b + 1, b + 2);
      }
    } else {
      DroppedEverywhere(su, st.queues, job.todo[0], b, job.body, b + 1, b + 2);
      Wider(su, Worked(su, st).queues, b + 1, b + 2, b, b + 2);
      AllIsAllBut(su, Worked(su, st).queues, job.todo[1..], b + 1, b + 2);
    }
  }

  lemma RunningDone(su: Setup, st: State)
    requires su.size > 0 && LastBatch(su, st.client) && Running(su, st) && st.gateway.job.value.todo == []
    ensures Running(su, Worked(su, st)) || Settled(su, Worked(su, st))
  {
    var job, b := st.gateway.job.value, st.client.batch;
    assert job.todo == [];
    if job.body.Batch? {
      JobBegins(su, st.queues, b + 1, b + 2);
    }
  }

  /** Breaking off while the client can take up its batch leads back to the beginning of the batch. */
  lemma CrashBegins(su: Setup, st: State)
    requires su.size > 0 && Resumable(su, st.client) && Position(su, Rewound(su, st.client))
    requires AllWithin(su, st.queues, st.client.batch, Top(su, st.client.batch))
    ensures Inv(su, Step(su, st, Crash))
  {
    BatchBegins(su, Step(su, st, Crash));
  }

  lemma LastRewinds(su: Setup, c: Client)
    requires su.size > 0 && LastBatch(su, c) && Resumable(su, c)
    ensures Position(su, Rewound(su, c)) && Rewound(su, c) == Client(c.batch, c.start, 0, c.start, Sending)
  {
  }

  /** A queue that has seen message m, or never gets it, is past it. */
  lemma SeenIsAll(su: Setup, queues: seq<seq<Envelope<Body>>>, m: nat, hi: nat)
    requires AllWithin(su, queues, m, hi) && AllSeen(su, queues, m) && m < hi
    ensures AllWithin(su, queues, m + 1, hi)
  {
    forall q | 0 <= q < |queues|
      ensures Within(su, queues[q], q, m + 1, hi)
    {
      assert Within(su, queues[q], q, m, hi) && Seen(su, queues[q], q, m);
      if q !in su.route(m) {
        NotRouted(su, queues[q], q, m, hi);
      }
    }
  }

  lemma RunningStays(su: Setup, st: State, a: Action)
    requires su.size > 0 && LastBatch(su, st.client) && OfBatch(st.wire, st.client.batch) && Running(su, st)
    requires Allowed(su, st, a)
    ensures Consistent(su, Step(su, st, a))
  {
    var b := st.client.batch;
    LastStays(su, st, a);
    if a.Work? {
      if st.gateway.job.value.todo != [] {
        RunningWork(su, st);
      } else {
        RunningDone(su, st);
      }
    } else if a.Crash? {
      if st.client.phase == Done {
        SeenIsAll(su, st.queues, b + 1, b + 2);
      } else {
        Wider(su, st.queues, st.gateway.job.value.id, b + 2, b, b + 2);
        LastRewinds(su, st.client);
        CrashBegins(su, st);
      }
    }
  }

  lemma ResendingTakes(su: Setup, st: State)
    requires su.size > 0 && LastBatch(su, st.client) && OfBatch(st.wire, st.client.batch) && Resending(su, st)
    ensures Resending(su, FrameTaken(su, st)) || Running(su, FrameTaken(su, st))
  {
    var b := st.client.batch;
    if st.wire != [] && st.wire[0].End? {
      Wider(su, st.queues, b + 1, b + 2, b, b + 2);
      AllIsAllBut(su, st.queues, su.route(b), b + 1, b + 2);
    }
  }

  lemma ResendingBreaks(su: Setup, st: State)
    requires su.size > 0 && LastBatch(su, st.client) && Resending(su, st) && Allowed(su, st, Reconnect)
    ensures Resending(su, Step(su, st, Reconnect)) || Settled(su, Step(su, st, Reconnect))
  {
    LastRewinds(su, st.client);
    if FillsAgain(su, st) {
      SeenIsAll(su, st.queues, st.client.batch + 1, st.client.batch + 2);
    }
  }

  lemma ResendingStays(su: Setup, st: State, a: Action)
    requires su.size > 0 && LastBatch(su, st.client) && OfBatch(st.wire, st.client.batch) && Resending(su, st)
    requires Allowed(su, st, a)
    ensures Consistent(su, Step(su, st, a))
  {
    var b := st.client.batch;
    LastStays(su, st, a);
    match a
    case Receive => ResendingTakes(su, st);
    case Reconnect => ResendingBreaks(su, st);
    case Crash =>
      Wider(su, st.queues, b + 1, b + 2, b, b + 2);
      LastRewinds(su, st.client);
      CrashBegins(su, st);
    case _ =>
  }

  // Every state.

  /** However far the batch has got, its queues hold the batches before it. */
  lemma QueuesSoFar(su: Setup, st: State)
    requires Inv(su, st)
    ensures AllWithin(su, st.queues, st.client.batch, Top(su, st.client.batch))
  {
    var b, hi := st.client.batch, Top(su, st.client.batch);
    if st.gateway.job.Some? {
      Wider(su, st.queues, st.gateway.job.value.id, hi, b, hi);
    } else if st.client.phase == Done {
      Wider(su, st.queues, b + 2, b + 2, b, hi);
    } else if st.acks == 1 {
      var lo := if st.client.phase == AwaitAck then b + 1 else b + 2;
      Wider(su, st.queues, lo, lo, b, hi);
    }
  }

  lemma QueuesFrom(su: Setup, st: State)
    requires su.size > 0 && Consistent(su, st)
    ensures AllWithin(su, st.queues, st.client.batch, Top(su, st.client.batch))
    ensures Start(su.size, st.client.batch) <= |su.lines|
  {
    var b := st.client.batch;
    if Inv(su, st) {
      QueuesSoFar(su, st);
    } else if Settled(su, st) {
      Wider(su, st.queues, b + 2, b + 2, b, b + 2);
    } else if Running(su, st) {
      Wider(su, st.queues, st.gateway.job.value.id, b + 2, b, b + 2);
    } else {
      Wider(su, st.queues, b + 1, b + 2, b, b + 2);
    }
  }

  lemma CrashKeeps(su: Setup, st: State)
    requires su.size > 0 && Inv(su, st) && Resumable(su, st.client)
    ensures Inv(su, Step(su, st, Crash))
  {
    QueuesSoFar(su, st);
    CrashBegins(su, st);
  }

  /** A client that is done has the gateway idle, or publishing the EOF. */
  lemma DoneState(su: Setup, st: State)
    requires su.size > 0 && Inv(su, st) && st.client.phase == Done
    ensures LastBatch(su, st.client) && OfBatch(st.wire, st.client.batch) && Step(su, st, Reconnect) == st
    ensures AllWithin(su, st.queues, st.client.batch + 1, st.client.batch + 2)
  {
    var b := st.client.batch;
    if st.gateway.job.None? {
      Wider(su, st.queues, b + 2, b + 2, b + 1, b + 2);
    }
  }

  lemma DoneBreaks(su: Setup, st: State)
    requires su.size > 0 && Inv(su, st) && st.client.phase == Done && Allowed(su, st, Crash)
    ensures Again(su, Step(su, st, Crash))
  {
    DoneState(su, st);
    SeenIsAll(su, st.queues, st.client.batch + 1, st.client.batch + 2);
  }

  /** The last batch of a file: a broken connection leaves a publication running, or lines that have been seen. */
  lemma LastBreaks(su: Setup, st: State)
    requires su.size > 0 && Inv(su, st) && !Full(su, st.client.batch) && st.client.phase != Done
    requires Allowed(su, st, Reconnect) && st.gateway != Gateway([], None)
    ensures Again(su, Step(su, st, Reconnect))
  {
    var b := st.client.batch;
    assert LastBatch(su, st.client);
    LastRewinds(su, st.client);
    QueuesSoFar(su, st);
    if st.gateway.job.None? {
      SeenIsAll(su, st.queues, b, b + 2);
      if FillsAgain(su, st) {
        SeenIsAll(su, st.queues, b + 1, b + 2);
      }
    }
  }

  lemma ReconnectKeeps(su: Setup, st: State)
    requires su.size > 0 && Inv(su, st) && Allowed(su, st, Reconnect)
    ensures Consistent(su, Step(su, st, Reconnect))
  {
    if st.client.phase == Done {
      DoneState(su, st);
    } else if st.gateway == Gateway([], None) {
      CrashKeeps(su, st);
      assert Step(su, st, Reconnect) == Step(su, st, Crash);
    } else {
      LastBreaks(su, st);
    }
  }

  lemma InvStep(su: Setup, st: State, a: Action)
    requires su.size > 0 && Inv(su, st) && Allowed(su, st, a)
    ensures Consistent(su, Step(su, st, a))
  {
    match a
    case SendRow => RowKeeps(su, st);
    case SendEnd => EndKeeps(su, st);
    case Receive => ReceiveKeeps(su, st);
    case Work => WorkKeeps(su, st);
    case ReadAck => AckKeeps(su, st);
    case Crash =>
      if st.client.phase == Done {
        DoneBreaks(su, st);
      } else {
        CrashKeeps(su, st);
      }
    case Reconnect => ReconnectKeeps(su, st);
  }

  lemma AgainStep(su: Setup, st: State, a: Action)
    requires su.size > 0 && Again(su, st) && Allowed(su, st, a)
    ensures Consistent(su, Step(su, st, a))
  {
    if Settled(su, st) {
      LastStays(su, st, a);
      SettledStays(su, st, a);
    } else if Running(su, st) {
      RunningStays(su, st, a);
    } else {
      ResendingStays(su, st, a);
    }
  }

  lemma StepKeeps(su: Setup, st: State, a: Action)
    requires su.size > 0 && Consistent(su, st) && Allowed(su, st, a)
    ensures Consistent(su, Step(su, st, a))
  {
    if Inv(su, st) {
      InvStep(su, st, a);
    } else {
      AgainStep(su, st, a);
    }
  }

  ghost predicate AllAllowed(su: Setup, st: State, acts: seq<Action>) {
    forall i :: 0 <= i < |acts| ==> Allowed(su, Exec(su, st, acts[..i]), acts[i])
  }

  lemma {:induction false} RunKeeps(su: Setup, st: State, acts: seq<Action>)
    requires su.size > 0 && Consistent(su, st) && AllAllowed(su, st, acts)
    ensures Consistent(su, Exec(su, st, acts))
  {
    if acts != [] {
      var init := acts[..|acts| - 1];
      forall i | 0 <= i < |init|
        ensures Allowed(su, Exec(su, st, init[..i]), init[i])
      {
        assert init[..i] == acts[..i];
      }
      RunKeeps(su, st, init);
      StepKeeps(su, Exec(su, st, init), acts[|acts| - 1]);
    }
  }

  /** The number of the file's last batch, which is not full. */
  function LastFrom(su: Setup, i: nat): (n: nat)
    requires su.size > 0
    ensures i <= n && !Full(su, n) && (Start(su.size, i) <= |su.lines| ==> Start(su.size, n) <= |su.lines|)
    decreases |su.lines| - Start(su.size, i)
  {
    if Full(su, i) then LastFrom(su, i + 1) else i
  }

  function Last(su: Setup): nat
    requires su.size > 0
  {
    LastFrom(su, 0)
  }

  lemma {:induction false} StartGrows(size: nat, i: nat, j: nat)
    requires i < j
    ensures Start(size, i) + size <= Start(size, j)
  {
    if i + 1 < j {
      StartGrows(size, i, j - 1);
    }
  }

  /** A batch that begins in the file is full or the last. */
  lemma LastIsUnique(su: Setup, b: nat)
    requires su.size > 0 && Start(su.size, b) <= |su.lines|
    ensures b <= Last(su) && (Full(su, b) <==> b < Last(su))
  {
    var n := Last(su);
    if n < b {
      StartGrows(su.size, n, b);
    } else if b < n {
      StartGrows(su.size, b, n);
    }
  }

  /** All that should ever come out behind queue q: the batches up to the last, and the EOF. */
  function Whole(su: Setup, q: nat): seq<Envelope<Body>>
    requires su.size > 0
  {
    Expected(su, q, Last(su) + 2)
  }

  /** What a consumer accepts from the queue is a beginning of what it should, and all of it once the client is done and
      the gateway idle. */
  ghost predicate Delivered(su: Setup, st: State, q: nat)
    requires su.size > 0 && q < |st.queues|
  {
    var accepted := Accept(st.queues[q], map[]);
    && accepted <= Whole(su, q)
    && (st.client.phase == Done && st.gateway.job.None? ==> accepted == Whole(su, q))
  }

  /** What a consumer accepts goes no further than the client, its EOF included. */
  ghost predicate NothingAhead(su: Setup, st: State, q: nat)
    requires q < |st.queues|
  {
    Accept(st.queues[q], map[]) <= Expected(su, q, st.client.batch + 2)
  }

  /** Ingest is exactly once. However lines, publications, acknowledgements and crashes interleave, what a consumer
      accepts from a queue is at every point a beginning of the batches routed there, each once, in order and
      complete, and nothing from ahead of the client; when the client is done and the gateway idle, it is all of them
      and the EOF. */
  lemma IngestExactlyOnce(su: Setup, queues: nat, acts: seq<Action>, q: nat)
    requires su.size > 0 && AllAllowed(su, Init(queues), acts) && q < queues
    ensures var st := Exec(su, Init(queues), acts);
            && |st.queues| == queues && Delivered(su, st, q)
            && NothingAhead(su, st, q)
  {
    InitHolds(su, queues);
    ExactFrom(su, Init(queues), acts, q);
  }

  lemma ExactFrom(su: Setup, st: State, acts: seq<Action>, q: nat)
    requires su.size > 0 && Consistent(su, st) && AllAllowed(su, st, acts) && q < |st.queues|
    ensures var st' := Exec(su, st, acts);
            && |st'.queues| == |st.queues| && Delivered(su, st', q)
            && NothingAhead(su, st', q)
  {
    RunKeeps(su, st, acts);
    QueueCount(su, st, acts);
    ConsistentDelivers(su, Exec(su, st, acts), q);
  }

  lemma {:induction false} WithinWhole(su: Setup, q: nat, b: nat)
    requires su.size > 0 && Start(su.size, b) <= |su.lines|
    ensures Expected(su, q, b + 2) <= Whole(su, q)
  {
    LastIsUnique(su, b);
    ExpectedGrows(su, q, b + 2, Last(su) + 2);
  }

  /** A queue that holds the messages below m holds a beginning of all. */
  lemma {:induction false} HeldIsPrefix(su: Setup, queue: seq<Envelope<Body>>, q: nat, m: nat, b: nat)
    requires su.size > 0 && HoldsAt(su, queue, q, m) && m <= b + 2 && Start(su.size, b) <= |su.lines|
    ensures Accept(queue, map[]) <= Expected(su, q, b + 2) <= Whole(su, q)
  {
    ExpectedGrows(su, q, m, b + 2);
    WithinWhole(su, q, b);
  }

  lemma ConsistentDelivers(su: Setup, st: State, q: nat)
    requires su.size > 0 && Consistent(su, st) && q < |st.queues|
    ensures Delivered(su, st, q) && NothingAhead(su, st, q)
  {
    var b, hi := st.client.batch, Top(su, st.client.batch);
    QueuesFrom(su, st);
    assert Within(su, st.queues[q], q, b, hi);
    var m :| b <= m <= hi && HoldsAt(su, st.queues[q], q, m);
    HeldIsPrefix(su, st.queues[q], q, m, b);
    if st.client.phase == Done && st.gateway.job.None? {
      DoneDelivers(su, st, q);
    }
  }

  lemma DoneDelivers(su: Setup, st: State, q: nat)
    requires su.size > 0 && Consistent(su, st) && q < |st.queues|
    requires st.client.phase == Done && st.gateway.job.None?
    ensures Accept(st.queues[q], map[]) == Whole(su, q)
  {
    var b := st.client.batch;
    assert AllWithin(su, st.queues, b + 2, b + 2) && Start(su.size, b) <= |su.lines| && !Full(su, b);
    assert Within(su, st.queues[q], q, b + 2, b + 2);
    LastIsUnique(su, b);
  }

  lemma {:induction false} QueueCount(su: Setup, st: State, acts: seq<Action>)
    ensures |Exec(su, st, acts).queues| == |st.queues|
  {
    if acts != [] {
      QueueCount(su, st, acts[..|acts| - 1]);
    }
  }
}
