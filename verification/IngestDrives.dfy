/** Runs of ingest without crashes and broken connections, driven from a state that may have been left by one. */
module IngestDrives {
  import opened Protocol
  import opened Dedup
  import opened Ingest
  import opened IngestRuns

  // Runs without further faults.

  ghost predicate FaultFree(acts: seq<Action>) {
    forall i :: 0 <= i < |acts| ==> !acts[i].Crash? && !acts[i].Reconnect?
  }

  ghost predicate Leads(su: Setup, st: State, acts: seq<Action>, st': State) {
    FaultFree(acts) && Exec(su, st, acts) == st'
  }

  lemma Onward(su: Setup, st: State, acts: seq<Action>, mid: State, a: Action, st': State)
    requires Leads(su, st, acts, mid) && !a.Crash? && !a.Reconnect? && Step(su, mid, a) == st'
    ensures Leads(su, st, acts + [a], st')
  {
    assert (acts + [a])[..|acts|] == acts;
  }

  lemma {:induction false} Joined(su: Setup, st: State, first: seq<Action>, mid: State, more: seq<Action>, st': State)
    requires Leads(su, st, first, mid) && Leads(su, mid, more, st')
    ensures Leads(su, st, first + more, st')
    decreases |more|
  {
    if more == [] {
      assert first + more == first;
    } else {
      var init, last := more[..|more| - 1], more[|more| - 1];
      Joined(su, st, first, mid, init, Exec(su, mid, init));
      Onward(su, st, first + init, Exec(su, mid, init), last, st');
      assert first + more == first + init + [last];
    }
  }

  // Rows.

  /** The client is about to send a row, and nothing but a chunk is under way. */
  ghost predicate Clear(su: Setup, st: State) {
    && st.client.phase == Sending && st.client.sent < su.size && st.client.pos <= |su.lines|
    && st.wire == [] && st.gateway.job.None? && |st.gateway.chunk| < su.size
  }

  lemma RowGoesThrough(su: Setup, st: State)
    requires Clear(su, st) && st.client.pos < |su.lines|
    ensures var c, line := st.client, su.lines[st.client.pos];
            FrameTaken(su, RowSent(su, st)) == st.(
              client := Client(c.batch, c.start, c.sent + 1, c.pos + 1,
                               if c.sent + 1 == su.size then AwaitAck else Sending),
              gateway := Received(su, st.gateway, Row(line, c.batch)))
  {
    var row := Row(su.lines[st.client.pos], st.client.batch);
    assert RowSent(su, st).wire == [row] && [row][1..] == [];
  }

  /** The chunk with j lines from start put behind it. */
  function Grown(su: Setup, chunk: seq<Line>, start: nat, j: nat): (r: seq<Line>)
    requires start + j <= |su.lines|
    ensures |r| == |chunk| + j
  {
    if j == 0 then chunk else Grown(su, chunk, start, j - 1) + [su.lines[start + j - 1]]
  }

  lemma {:induction false} GrownByLines(su: Setup, chunk: seq<Line>, start: nat, j: nat)
    requires start + j <= |su.lines|
    ensures Grown(su, chunk, start, j) == chunk + su.lines[start..start + j]
  {
    if j > 0 {
      GrownByLines(su, chunk, start, j - 1);
      assert su.lines[start..start + j] == su.lines[start..start + j - 1] + [su.lines[start + j - 1]];
    }
  }

  /** The client's side once j rows have gone out. */
  function RowsOn(su: Setup, c: Client, j: nat): Client {
    Client(c.batch, c.start, c.sent + j, c.pos + j, if c.sent + j == su.size then AwaitAck else Sending)
  }

  function AfterRows(su: Setup, st: State, j: nat): State
    requires st.client.pos + j <= |su.lines|
  {
    st.(client := RowsOn(su, st.client, j), gateway := Gateway(Grown(su, st.gateway.chunk, st.client.pos, j), None))
  }

  lemma OneMoreRow(su: Setup, st: State, j: nat)
    requires Clear(su, st) && 0 < j && st.client.pos + j <= |su.lines|
    requires st.client.sent + j <= su.size && |st.gateway.chunk| + j < su.size
    ensures FrameTaken(su, RowSent(su, AfterRows(su, st, j - 1))) == AfterRows(su, st, j)
  {
    RowGoesThrough(su, AfterRows(su, st, j - 1));
  }

  /** While the chunk has room, rows are put behind what it held. */
  lemma {:induction false} RowsCollected(su: Setup, st: State, j: nat) returns (acts: seq<Action>)
    requires Clear(su, st) && st.client.pos + j <= |su.lines|
    requires st.client.sent + j <= su.size && |st.gateway.chunk| + j < su.size
    ensures Leads(su, st, acts, AfterRows(su, st, j))
  {
    if j == 0 {
      acts := [];
    } else {
      acts := RowsCollected(su, st, j - 1);
      var mid := AfterRows(su, st, j - 1);
      OneMoreRow(su, st, j);
      Onward(su, st, acts, mid, SendRow, RowSent(su, mid));
      Onward(su, st, acts + [SendRow], RowSent(su, mid), Receive, AfterRows(su, st, j));
      acts := acts + [SendRow] + [Receive];
    }
  }

  /** The rows have filled the chunk, and it starts to go out under the number of the batch. */
  function Filled(su: Setup, st: State): State
    requires |st.gateway.chunk| < su.size && st.client.pos + su.size - |st.gateway.chunk| <= |su.lines|
  {
    var c, j := st.client, su.size - |st.gateway.chunk|;
    st.(client := RowsOn(su, c, j),
        gateway := Gateway([], Some(
          Job(c.batch, Batch(Grown(su, st.gateway.chunk, c.pos, j)), su.route(c.batch), false))))
  }

  lemma FilledJob(su: Setup, st: State)
    requires |st.gateway.chunk| < su.size && st.client.pos + su.size - |st.gateway.chunk| <= |su.lines|
    ensures var c, j := st.client, su.size - |st.gateway.chunk|;
            Filled(su, st).gateway.job ==
            Some(Job(c.batch, Batch(st.gateway.chunk + su.lines[c.pos..c.pos + j]), su.route(c.batch), false))
  {
    GrownByLines(su, st.gateway.chunk, st.client.pos, su.size - |st.gateway.chunk|);
  }

  lemma ChunkFills(su: Setup, st: State) returns (acts: seq<Action>)
    requires Clear(su, st) && st.client.sent == 0 && st.client.pos + su.size - |st.gateway.chunk| <= |su.lines|
    ensures Leads(su, st, acts, Filled(su, st))
  {
    var j := su.size - |st.gateway.chunk| - 1;
    acts := RowsCollected(su, st, j);
    var mid := AfterRows(su, st, j);
    RowGoesThrough(su, mid);
    Onward(su, st, acts, mid, SendRow, RowSent(su, mid));
    Onward(su, st, acts + [SendRow], RowSent(su, mid), Receive, Filled(su, st));
    acts := acts + [SendRow] + [Receive];
  }

  /** The rest of the file and the End have been taken, and the chunk starts to go out. */
  function Ended(su: Setup, st: State): State
    requires st.client.pos <= |su.lines|
  {
    var c, j := st.client, |su.lines| - st.client.pos;
    st.(client := RowsOn(su, c, j).(phase := AwaitFinalAck),
        gateway := Gateway([], Some(
          Job(c.batch, Batch(Grown(su, st.gateway.chunk, c.pos, j)), su.route(c.batch), true))))
  }

  /** All rows and the End are out, but the End has not been taken. */
  function EndOnWire(su: Setup, st: State): State
    requires st.client.pos <= |su.lines|
  {
    var mid := AfterRows(su, st, |su.lines| - st.client.pos);
    mid.(client := mid.client.(phase := AwaitFinalAck), wire := [End(st.client.batch)])
  }

  lemma EndSentOff(su: Setup, st: State) returns (acts: seq<Action>)
    requires Clear(su, st) && |st.gateway.chunk| + |su.lines| - st.client.pos < su.size
    requires st.client.sent + |su.lines| - st.client.pos < su.size
    ensures Leads(su, st, acts, EndOnWire(su, st))
  {
    var j := |su.lines| - st.client.pos;
    acts := RowsCollected(su, st, j);
    Onward(su, st, acts, AfterRows(su, st, j), SendEnd, EndOnWire(su, st));
    acts := acts + [SendEnd];
  }

  lemma FileEnds(su: Setup, st: State) returns (acts: seq<Action>)
    requires Clear(su, st) && |st.gateway.chunk| + |su.lines| - st.client.pos < su.size
    requires st.client.sent + |su.lines| - st.client.pos < su.size
    ensures Leads(su, st, acts, Ended(su, st))
  {
    acts := EndSentOff(su, st);
    Onward(su, st, acts, EndOnWire(su, st), Receive, Ended(su, st));
    acts := acts + [Receive];
  }

  // Publications.

  function PublishAll(queues: seq<seq<Envelope<Body>>>, todo: seq<nat>, e: Envelope<Body>)
    : (r: seq<seq<Envelope<Body>>>)
    ensures |r| == |queues|
    decreases |todo|
  {
    if todo == [] then queues else PublishAll(Publish(queues, todo[0], e), todo[1..], e)
  }

  function Message(su: Setup, job: Job): Envelope<Body> {
    Envelope(su.source, job.id, job.body)
  }

  function Drained(su: Setup, st: State): State
    requires st.gateway.job.Some?
  {
    var job := st.gateway.job.value;
    st.(queues := PublishAll(st.queues, job.todo, Message(su, job)),
        gateway := st.gateway.(job := Some(job.(todo := []))))
  }

  lemma {:induction false} Drains(su: Setup, st: State) returns (acts: seq<Action>)
    requires st.gateway.job.Some?
    ensures Leads(su, st, acts, Drained(su, st))
    decreases |st.gateway.job.value.todo|
  {
    if st.gateway.job.value.todo == [] {
      acts := [];
    } else {
      var rest := Drains(su, Worked(su, st));
      Onward(su, st, [], st, Work, Worked(su, st));
      Joined(su, st, [] + [Work], Worked(su, st), rest, Drained(su, st));
      acts := [] + [Work] + rest;
    }
  }

  /** A job of lines is through, and acknowledged. */
  lemma JobDone(su: Setup, st: State) returns (acts: seq<Action>)
    requires st.gateway.job.Some? && st.gateway.job.value.body.Batch?
    ensures Leads(su, st, acts, Worked(su, Drained(su, st)))
  {
    acts := Drains(su, st);
    Onward(su, st, acts, Drained(su, st), Work, Worked(su, Drained(su, st)));
    acts := acts + [Work];
  }

  /** How far the consumers' marks for the client have come. */
  ghost predicate MarksUpTo(su: Setup, queues: seq<seq<Envelope<Body>>>, m: nat) {
    forall q {:trigger queues[q]} :: 0 <= q < |queues| ==> At(Marks(queues[q], map[]), su.source) <= m
  }

  lemma {:induction false} MarksStay(su: Setup, queues: seq<seq<Envelope<Body>>>, todo: seq<nat>, e: Envelope<Body>,
                                     m: nat)
    requires MarksUpTo(su, queues, m) && e.src == su.source && e.id < m
    ensures MarksUpTo(su, PublishAll(queues, todo, e), m)
    decreases |todo|
  {
    if todo != [] {
      var q := todo[0];
      if q < |queues| {
        AcceptAppend(queues[q], e, map[]);
      }
      MarksStay(su, Publish(queues, q, e), todo[1..], e, m);
    }
  }

  /** The same of one queue. */
  lemma {:induction false} MarkStays(su: Setup, queues: seq<seq<Envelope<Body>>>, todo: seq<nat>, e: Envelope<Body>,
                                     q: nat, m: nat)
    requires q < |queues| && At(Marks(queues[q], map[]), su.source) <= m && e.src == su.source && e.id < m
    ensures At(Marks(PublishAll(queues, todo, e)[q], map[]), su.source) <= m
    decreases |todo|
  {
    if todo != [] {
      AcceptAppend(queues[q], e, map[]);
      MarkStays(su, Publish(queues, todo[0], e), todo[1..], e, q, m);
    }
  }

  lemma {:induction false} AcceptedStays(queues: seq<seq<Envelope<Body>>>, todo: seq<nat>, e: Envelope<Body>, q: nat)
    requires q < |queues| && e in Accept(queues[q], map[])
    ensures e in Accept(PublishAll(queues, todo, e)[q], map[])
    decreases |todo|
  {
    if todo != [] {
      AcceptAppend(queues[q], e, map[]);
      AcceptedStays(Publish(queues, todo[0], e), todo[1..], e, q);
    }
  }

  /** A message not below the mark is accepted. */
  lemma {:induction false} PublishedIsAccepted(queues: seq<seq<Envelope<Body>>>, todo: seq<nat>, e: Envelope<Body>,
                                               q: nat)
    requires q < |queues| && q in todo && At(Marks(queues[q], map[]), e.src) <= e.id
    ensures e in Accept(PublishAll(queues, todo, e)[q], map[])
    decreases |todo|
  {
    if todo[0] == q {
      AcceptAppend(queues[q], e, map[]);
      AcceptedStays(Publish(queues, q, e), todo[1..], e, q);
    } else {
      PublishedIsAccepted(Publish(queues, todo[0], e), todo[1..], e, q);
    }
  }

  lemma {:induction false} ExpectedMember(su: Setup, q: nat, m: nat, e: Envelope<Body>)
    requires e in Expected(su, q, m)
    ensures e.id < m && e.body == Content(su, e.id)
  {
    if e in Expected(su, q, m - 1) {
      ExpectedMember(su, q, m - 1, e);
    }
  }

  lemma {:induction false} AcceptedIsBelowMark(queue: seq<Envelope<Body>>, e: Envelope<Body>)
    requires e in Accept(queue, map[])
    ensures e.id < At(Marks(queue, map[]), e.src)
  {
    if queue != [] {
      var init, last := queue[..|queue| - 1], queue[|queue| - 1];
      assert queue == init + [last];
      AcceptAppend(init, last, map[]);
      if e in Accept(init, map[]) {
        AcceptedIsBelowMark(init, e);
      }
    }
  }

  lemma HeldMarks(su: Setup, queues: seq<seq<Envelope<Body>>>, lo: nat, hi: nat)
    requires AllWithin(su, queues, lo, hi)
    ensures MarksUpTo(su, queues, hi)
  {
    forall q | 0 <= q < |queues|
      ensures At(Marks(queues[q], map[]), su.source) <= hi
    {
      assert Within(su, queues[q], q, lo, hi);
    }
  }

  // Whole batches.

  /** Between two batches, with some chunk left at the gateway and some acknowledgements under way. */
  ghost predicate Between(su: Setup, st: State) {
    Clear(su, st) && st.client.sent == 0
  }

  /** A batch later: what the chunk held and the first lines have gone out, the last lines are the chunk. */
  function NextBatch(su: Setup, st: State): State
    requires |st.gateway.chunk| < su.size && st.client.pos + su.size <= |su.lines|
  {
    var c, k := st.client, |st.gateway.chunk|;
    var e := Envelope(su.source, c.batch, Batch(Grown(su, st.gateway.chunk, c.pos, su.size - k)));
    State(Client(c.batch + 1, c.start + su.size, 0, c.pos + su.size, Sending), [],
          Gateway(Grown(su, [], c.pos + su.size - k, k), None), st.acks, PublishAll(st.queues, su.route(c.batch), e))
  }

  /** The chunk is out and acknowledged, and the rest of the batch makes the next chunk. */
  lemma RestCollected(su: Setup, st: State) returns (acts: seq<Action>)
    requires Between(su, st) && st.client.pos + su.size <= |su.lines|
    ensures Leads(su, Worked(su, Drained(su, Filled(su, st))), acts,
                  NextBatch(su, st).(client := RowsOn(su, st.client, su.size), acks := st.acks + 1))
  {
    var out, k := Worked(su, Drained(su, Filled(su, st))), |st.gateway.chunk|;
    if k == 0 {
      acts := [];
    } else {
      acts := RowsCollected(su, out, k);
    }
  }

  lemma BatchGoesOut(su: Setup, st: State) returns (acts: seq<Action>)
    requires Between(su, st) && st.client.pos + su.size <= |su.lines|
    ensures Leads(su, st, acts, NextBatch(su, st))
  {
    acts := ChunkFills(su, st);
    var filled := Filled(su, st);
    var more := JobDone(su, filled);
    Joined(su, st, acts, filled, more, Worked(su, Drained(su, filled)));
    acts := acts + more;
    more := RestCollected(su, st);
    var rest := NextBatch(su, st).(client := RowsOn(su, st.client, su.size), acks := st.acks + 1);
    Joined(su, st, acts, Worked(su, Drained(su, filled)), more, rest);
    acts := acts + more;
    Onward(su, st, acts, rest, ReadAck, NextBatch(su, st));
    acts := acts + [ReadAck];
  }

  /** At the beginning of the batch it is at. */
  ghost predicate AtStart(su: Setup, st: State) {
    Between(su, st) && st.client.pos == st.client.start == Start(su.size, st.client.batch)
  }

  lemma OneBatch(su: Setup, st: State) returns (acts: seq<Action>)
    requires su.size > 0 && AtStart(su, st) && MarksUpTo(su, st.queues, Last(su)) && Full(su, st.client.batch)
    ensures Leads(su, st, acts, NextBatch(su, st)) && AtStart(su, NextBatch(su, st))
    ensures MarksUpTo(su, NextBatch(su, st).queues, Last(su))
  {
    LastIsUnique(su, st.client.batch);
    acts := BatchGoesOut(su, st);
    var e := Envelope(su.source, st.client.batch,
                      Batch(Grown(su, st.gateway.chunk, st.client.pos, su.size - |st.gateway.chunk|)));
    MarksStay(su, st.queues, su.route(st.client.batch), e, Last(su));
  }

  /** On to the last batch. The chunk keeps its length and the acknowledgements their number. */
  lemma {:induction false} ToLastBatch(su: Setup, st: State) returns (acts: seq<Action>, st': State)
    requires su.size > 0 && AtStart(su, st) && MarksUpTo(su, st.queues, Last(su))
    ensures Leads(su, st, acts, st') && AtStart(su, st') && st'.client.batch == Last(su)
    ensures |st'.gateway.chunk| == |st.gateway.chunk| && st'.acks == st.acks
    ensures |st'.queues| == |st.queues| && MarksUpTo(su, st'.queues, Last(su))
    decreases |su.lines| - st.client.pos
  {
    LastIsUnique(su, st.client.batch);
    if st.client.batch == Last(su) {
      acts, st' := [], st;
    } else {
      var next := NextBatch(su, st);
      acts := OneBatch(su, st);
      var more;
      more, st' := ToLastBatch(su, next);
      Joined(su, st, acts, next, more, st');
      acts := acts + more;
    }
  }

  /** The gateway comes to the end of what it is publishing. */
  lemma JobEnds(su: Setup, st: State, b: nat, m: nat) returns (acts: seq<Action>, st': State)
    requires MarksUpTo(su, st.queues, m) && b + 2 <= m
    requires st.gateway.job.Some? ==> LastJob(su, b, st.gateway.job.value)
    ensures Leads(su, st, acts, st') && st'.client == st.client && st'.wire == st.wire
    ensures st'.gateway == Gateway(st.gateway.chunk, None)
    ensures |st'.queues| == |st.queues| && MarksUpTo(su, st'.queues, m)
    decreases st.gateway.job.Some?, st.gateway.job.Some? && st.gateway.job.value.body.Batch?
  {
    if st.gateway.job.None? {
      acts, st' := [], st;
    } else {
      var job := st.gateway.job.value;
      acts := Drains(su, st);
      MarksStay(su, st.queues, job.todo, Message(su, job), m);
      var mid := Worked(su, Drained(su, st));
      Onward(su, st, acts, Drained(su, st), Work, mid);
      var more;
      more, st' := JobEnds(su, mid, b, m);
      Joined(su, st, acts + [Work], mid, more, st');
      acts := acts + [Work] + more;
    }
  }
}
