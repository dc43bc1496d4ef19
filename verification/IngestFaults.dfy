/** The bounds of the ingest theorem are exact: which crashes and broken connections the delivery survives. */
module IngestFaults {
  import opened Protocol
  import opened Dedup
  import opened Ingest
  import opened IngestRuns
  import opened IngestDrives

  /** Whatever happens from here on within the bounds, the consumers get what they should. */
  ghost predicate StaysExact(su: Setup, st: State)
    requires su.size > 0
  {
    forall acts {:trigger AllAllowed(su, st, acts)} :: AllAllowed(su, st, acts) ==> AllDelivered(su, Exec(su, st, acts))
  }

  ghost predicate AllDelivered(su: Setup, st: State)
    requires su.size > 0
  {
    forall q {:trigger Delivered(su, st, q)} :: 0 <= q < |st.queues| ==> Delivered(su, st, q)
  }

  /** Every message goes to some queue. */
  ghost predicate Routed(su: Setup, queues: nat) {
    forall id: nat {:trigger su.route(id)} :: exists q: nat :: q in su.route(id) && q < queues
  }

  /** From here consumers can go wrong without any further fault. */
  ghost predicate Spoiled(su: Setup, st: State)
    requires su.size > 0
  {
    exists acts {:trigger FaultFree(acts)} :: FaultFree(acts) && !AllDelivered(su, Exec(su, st, acts))
  }

  lemma SpoiledAlong(su: Setup, st: State, acts: seq<Action>, st': State)
    requires su.size > 0 && Leads(su, st, acts, st') && Spoiled(su, st')
    ensures Spoiled(su, st)
  {
    var more :| FaultFree(more) && !AllDelivered(su, Exec(su, st', more));
    Joined(su, st, acts, st', more, Exec(su, st', more));
  }

  lemma SpoiledIsNotExact(su: Setup, st: State)
    requires su.size > 0 && Spoiled(su, st)
    ensures !StaysExact(su, st)
  {
    var acts :| FaultFree(acts) && !AllDelivered(su, Exec(su, st, acts));
    assert AllAllowed(su, st, acts);
  }

  /** The message under way is new to the consumers of queue q, and not one they should get. */
  ghost predicate Wrong(su: Setup, st: State, q: nat)
    requires su.size > 0
  {
    && st.gateway.job.Some? && q < |st.queues|
    && var job := st.gateway.job.value;
       && At(Marks(st.queues[q], map[]), su.source) <= job.id && q in job.todo
       && (job.id >= Last(su) + 2 || job.body != Content(su, job.id))
  }

  lemma WrongSpoils(su: Setup, st: State, q: nat)
    requires su.size > 0 && Wrong(su, st, q)
    ensures Spoiled(su, st)
  {
    var job := st.gateway.job.value;
    var e := Message(su, job);
    PublishedIsAccepted(st.queues, job.todo, e, q);
    var acts := Drains(su, st);
    if e in Whole(su, q) {
      ExpectedMember(su, q, Last(su) + 2, e);
    }
    assert !Delivered(su, Drained(su, st), q);
  }

  /** A wrong message that no queue has seen anything like is wrong for some queue. */
  lemma NewSpoils(su: Setup, st: State)
    requires su.size > 0 && Routed(su, |st.queues|) && st.gateway.job.Some?
    requires var job := st.gateway.job.value;
             && MarksUpTo(su, st.queues, job.id) && job.todo == su.route(job.id)
             && (job.id >= Last(su) + 2 || job.body != Content(su, job.id))
    ensures Spoiled(su, st)
  {
    var q: nat :| q in su.route(st.gateway.job.value.id) && q < |st.queues|;
    WrongSpoils(su, st, q);
  }

  /** What is known of any state in the last batch. */
  lemma InLastBatch(su: Setup, st: State)
    requires su.size > 0 && Consistent(su, st) && !Full(su, st.client.batch)
    ensures var c := st.client;
            && c.batch == Last(su) && c.start == Start(su.size, c.batch) <= |su.lines| < c.start + su.size
            && |st.gateway.chunk| < su.size && (st.gateway.chunk != [] ==> st.gateway.job.None?)
            && (st.gateway.job.Some? ==> LastJob(su, c.batch, st.gateway.job.value))
            && MarksUpTo(su, st.queues, c.batch + 2)
            && (0 < c.start ==> su.size <= c.start)
  {
    QueuesFrom(su, st);
    HeldMarks(su, st.queues, st.client.batch, st.client.batch + 2);
    LastIsUnique(su, st.client.batch);
    if st.client.batch > 0 {
      StartGrows(su.size, 0, st.client.batch);
    }
  }

  // What goes wrong.

  /** A chunk left over shifts every batch, up to the last, which comes out with the wrong number of lines. */
  lemma ChunkLeftSpoils(su: Setup, st: State)
    requires su.size > 0 && AtStart(su, st) && MarksUpTo(su, st.queues, Last(su)) && Routed(su, |st.queues|)
    requires st.gateway.chunk != []
    ensures Spoiled(su, st)
  {
    var acts, last := ToLastBatch(su, st);
    LastIsUnique(su, Last(su));
    var k, left := |last.gateway.chunk|, |su.lines| - last.client.pos;
    var more: seq<Action>, wrong: State;
    if k + left < su.size {
      more := FileEnds(su, last);
      wrong := Ended(su, last);
    } else {
      more := ChunkFills(su, last);
      wrong := Filled(su, last);
    }
    NewSpoils(su, wrong);
    SpoiledAlong(su, last, more, wrong);
    SpoiledAlong(su, st, acts, last);
  }

  /** An acknowledgement too many: every batch is taken for delivered while it is still under way. In the end the client
      is done and the gateway idle, but the End is still on its way, and with it the last lines and the EOF. */
  lemma StaleAck(su: Setup, st: State) returns (acts: seq<Action>, st': State)
    requires su.size > 0 && AtStart(su, st) && MarksUpTo(su, st.queues, Last(su))
    requires st.gateway.chunk == [] && st.acks == 1
    ensures Leads(su, st, acts, st') && st'.client.phase == Done && st'.gateway.job.None? && st'.wire == [End(Last(su))]
    ensures |st'.queues| == |st.queues| && MarksUpTo(su, st'.queues, Last(su))
  {
    var last;
    acts, last := ToLastBatch(su, st);
    LastIsUnique(su, Last(su));
    var more := EndSentOff(su, last);
    Joined(su, st, acts, last, more, EndOnWire(su, last));
    acts := acts + more;
    st' := AckRead(su, EndOnWire(su, last));
    Onward(su, st, acts, EndOnWire(su, last), ReadAck, st');
    acts := acts + [ReadAck];
  }

  /** A client that is done too early has not had its EOF delivered. */
  lemma DoneTooEarly(su: Setup, st: State, q: nat)
    requires su.size > 0 && q < |st.queues| && !Seen(su, st.queues[q], q, Last(su) + 1)
    requires st.client.phase == Done && st.gateway.job.None?
    ensures Spoiled(su, st)
  {
    var n := Last(su) + 1;
    var eof := Envelope(su.source, n, Content(su, n));
    assert eof in Whole(su, q);
    if eof in Accept(st.queues[q], map[]) {
      AcceptedIsBelowMark(st.queues[q], eof);
    }
    var none: seq<Action> := [];
    assert FaultFree(none) && Exec(su, st, none) == st && !Delivered(su, st, q);
  }

  /** The state in which the sender's job has survived a broken connection. */
  lemma JobLeftSpoils(su: Setup, st: State)
    requires su.size > 0 && Consistent(su, st) && Full(su, st.client.batch) && st.gateway.job.Some? &&
             Routed(su, |st.queues|)
    ensures Spoiled(su, Step(su, st, Reconnect))
  {
    var job, m := st.gateway.job.value, Last(su);
    var broken := Step(su, st, Reconnect);
    LastIsUnique(su, st.client.batch);
    HeldMarks(su, st.queues, job.id, Top(su, st.client.batch));
    var acts := JobDone(su, broken);
    var early := Worked(su, Drained(su, broken));
    MarksStay(su, st.queues, job.todo, Message(su, job), m);
    var more, done := StaleAck(su, early);
    var q: nat :| q in su.route(m + 1) && q < |done.queues|;
    DoneTooEarly(su, done, q);
    SpoiledAlong(su, early, more, done);
    SpoiledAlong(su, broken, acts, early);
  }

  /** A batch under way, full: the client has not come to the end of the file. */
  lemma FullBatchUnderWay(su: Setup, st: State)
    requires Consistent(su, st) && Full(su, st.client.batch)
    ensures Resumable(su, st.client) && st.client.phase in {Sending, AwaitAck}
    ensures st.client.pos == st.client.start + st.client.sent && st.client.start == Start(su.size, st.client.batch)
    ensures st.gateway.chunk != [] ==> st.gateway.job.None? && st.acks == 0 && |st.gateway.chunk| < su.size
  {
  }

  lemma StaysConsistent(su: Setup, st: State)
    requires su.size > 0 && Consistent(su, st)
    ensures StaysExact(su, st)
  {
    forall acts | AllAllowed(su, st, acts)
      ensures AllDelivered(su, Exec(su, st, acts))
    {
      var st' := Exec(su, st, acts);
      RunKeeps(su, st, acts);
      forall q | 0 <= q < |st'.queues|
        ensures Delivered(su, st', q)
      {
        ConsistentDelivers(su, st', q);
      }
    }
  }

  /** A connection that breaks during a full batch, without a crash, is harmless if and only if the gateway holds
      nothing of the batch: neither lines of it nor a publication in progress. */
  lemma ReconnectHarmlessIff(su: Setup, st: State)
    requires su.size > 0 && Consistent(su, st) && Full(su, st.client.batch) && Routed(su, |st.queues|)
    ensures StaysExact(su, Step(su, st, Reconnect)) <==> st.gateway == Gateway([], None)
  {
    var broken := Step(su, st, Reconnect);
    FullBatchUnderWay(su, st);
    if st.gateway == Gateway([], None) {
      StepKeeps(su, st, Reconnect);
      StaysConsistent(su, broken);
    } else {
      if st.gateway.job.Some? {
        JobLeftSpoils(su, st);
      } else {
        LastIsUnique(su, st.client.batch);
        HeldMarks(su, st.queues, st.client.batch, Top(su, st.client.batch));
        ChunkLeftSpoils(su, broken);
      }
      SpoiledIsNotExact(su, broken);
    }
  }

  /** What goes out in place of the batch, if a chunk is left: the chunk, and the beginning of the batch behind it. */
  lemma ReconnectMixes(su: Setup, st: State) returns (acts: seq<Action>)
    requires su.size > 0 && Consistent(su, st) && Full(su, st.client.batch) && st.gateway.job.None?
    ensures FaultFree(acts) && |st.gateway.chunk| < su.size
    ensures var c, have := st.client, |st.gateway.chunk|;
            Exec(su, Step(su, st, Reconnect), acts).gateway.job ==
            Some(Job(c.batch, Batch(st.gateway.chunk + su.lines[c.start..c.start + su.size - have]),
                     su.route(c.batch), false))
  {
    var broken := Step(su, st, Reconnect);
    FullBatchUnderWay(su, st);
    BrokenInBatch(su, st);
    acts := ChunkFills(su, broken);
    FilledJob(su, broken);
  }

  /** The client is back at the first line of its batch; the gateway goes on. */
  lemma BrokenInBatch(su: Setup, st: State)
    requires su.size > 0 && Consistent(su, st) && Full(su, st.client.batch) && st.gateway.job.None?
    ensures var c := st.client;
            && Step(su, st, Reconnect) ==
               State(Client(c.batch, c.start, 0, c.start, Sending), [], Gateway(st.gateway.chunk, None), 0, st.queues)
            && Clear(su, Step(su, st, Reconnect))
  {
    FullBatchUnderWay(su, st);
  }

  // The end of the file, of more than a batch.

  /** Past the last batch, a chunk or the End with what is left goes out under the number behind that of the EOF. */
  lemma PastTheEof(su: Setup, st: State)
    requires su.size > 0 && Routed(su, |st.queues|) && Between(su, st)
    requires st.client.batch == Last(su) + 2 && MarksUpTo(su, st.queues, Last(su) + 2)
    ensures Spoiled(su, st)
  {
    var acts: seq<Action>, wrong: State;
    if st.client.pos + su.size - |st.gateway.chunk| <= |su.lines| {
      acts := ChunkFills(su, st);
      wrong := Filled(su, st);
    } else {
      acts := FileEnds(su, st);
      wrong := Ended(su, st);
    }
    NewSpoils(su, wrong);
    SpoiledAlong(su, st, acts, wrong);
  }

  lemma TwoMore(su: Setup, st: State)
    requires su.size > 0 && Routed(su, |st.queues|) && Between(su, st) && st.client.pos + su.size <= |su.lines|
    requires st.client.batch == Last(su) + 1 && MarksUpTo(su, st.queues, Last(su) + 2)
    ensures Spoiled(su, st)
  {
    var acts, next := BatchFollows(su, st, Last(su) + 2);
    PastTheEof(su, next);
    SpoiledAlong(su, st, acts, next);
  }

  lemma BatchFollows(su: Setup, st: State, m: nat) returns (acts: seq<Action>, next: State)
    requires Between(su, st) && st.client.pos + su.size <= |su.lines|
    requires st.client.batch < m && MarksUpTo(su, st.queues, m)
    ensures Leads(su, st, acts, next) && next == NextBatch(su, st) && MarksUpTo(su, next.queues, m)
  {
    acts := BatchGoesOut(su, st);
    next := NextBatch(su, st);
    var k := |st.gateway.chunk|;
    MarksStay(su, st.queues, su.route(st.client.batch),
              Envelope(su.source, st.client.batch, Batch(Grown(su, st.gateway.chunk, st.client.pos, su.size - k))), m);
  }

  /** The End comes a batch too late, and the EOF goes out under the number behind its own. */
  lemma EofTooLate(su: Setup, st: State)
    requires su.size > 0 && Routed(su, |st.queues|) && Clear(su, st)
    requires |st.gateway.chunk| + |su.lines| - st.client.pos < su.size
    requires st.client.sent + |su.lines| - st.client.pos < su.size
    requires st.client.batch == Last(su) + 1 && MarksUpTo(su, st.queues, Last(su) + 2)
    ensures Spoiled(su, st)
  {
    var acts := FileEnds(su, st);
    var ended := Ended(su, st);
    var more := JobDone(su, ended);
    var wrong := Worked(su, Drained(su, ended));
    MarksStay(su, st.queues, su.route(st.client.batch), Message(su, ended.gateway.job.value), Last(su) + 2);
    NewSpoils(su, wrong);
    SpoiledAlong(su, ended, more, wrong);
    SpoiledAlong(su, st, acts, ended);
  }

  /** The chunk is full before the End comes: it goes out, and the rest with the End. */
  lemma FullThenLate(su: Setup, st: State)
    requires su.size > 0 && Routed(su, |st.queues|) && Between(su, st)
    requires |su.lines| < st.client.pos + su.size <= |su.lines| + |st.gateway.chunk|
    requires st.client.batch == Last(su) + 1 && MarksUpTo(su, st.queues, Last(su) + 2)
    ensures Spoiled(su, st)
  {
    var acts := ChunkFills(su, st);
    var filled := Filled(su, st);
    var more := JobDone(su, filled);
    var rest := Worked(su, Drained(su, filled));
    MarksStay(su, st.queues, su.route(st.client.batch), Message(su, filled.gateway.job.value), Last(su) + 2);
    EofTooLate(su, rest);
    SpoiledAlong(su, filled, more, rest);
    SpoiledAlong(su, st, acts, filled);
  }

  /** The file goes out again behind itself, under numbers that it should not have. */
  lemma FileAgain(su: Setup, st: State)
    requires su.size > 0 && Routed(su, |st.queues|) && Between(su, st) && st.client.pos == 0
    requires st.client.batch == Last(su) && su.size <= |su.lines| && MarksUpTo(su, st.queues, Last(su) + 2)
    ensures Spoiled(su, st)
  {
    var acts, next := BatchFollows(su, st, Last(su) + 2);
    if next.client.pos + su.size <= |su.lines| {
      TwoMore(su, next);
    } else if next.client.pos + su.size <= |su.lines| + |next.gateway.chunk| {
      FullThenLate(su, next);
    } else {
      EofTooLate(su, next);
    }
    SpoiledAlong(su, st, acts, next);
  }

  /** A client that has come to the end of a file of more than a batch goes back to its first line. Whatever the gateway
      holds by then, that is not made good. */
  lemma BackToTheStart(su: Setup, st: State, a: Action)
    requires su.size > 0 && Consistent(su, st) && AtEnd(su, st.client) && st.client.start > 0
    requires Routed(su, |st.queues|) && (a.Crash? || a.Reconnect?)
    ensures Spoiled(su, Step(su, st, a))
  {
    var broken := Step(su, st, a);
    EndIsLast(su, st);
    InLastBatch(su, st);
    var acts, idle := JobEnds(su, broken, st.client.batch, st.client.batch + 2);
    FileAgain(su, idle);
    SpoiledAlong(su, broken, acts, idle);
  }

  lemma EndIsLast(su: Setup, st: State)
    requires su.size > 0 && Consistent(su, st) && AtEnd(su, st.client)
    ensures !Full(su, st.client.batch)
  {
  }

  /** After a crash at the end of a file of more than a batch, the first lines of the file go out under the number of
      its last batch. They are never that batch, being too many. */
  lemma FirstLinesGoOutAsLast(su: Setup, st: State) returns (acts: seq<Action>)
    requires su.size > 0 && Consistent(su, st) && AtEnd(su, st.client) && st.client.start > 0
    ensures var b := st.client.batch;
            su.size <= |su.lines| && FaultFree(acts) &&
            Exec(su, Step(su, st, Crash), acts).gateway.job ==
              Some(Job(b, Batch(su.lines[..su.size]), su.route(b), false)) &&
            Content(su, b) != Batch(su.lines[..su.size])
  {
    EndIsLast(su, st);
    InLastBatch(su, st);
    var crashed := Step(su, st, Crash);
    acts := ChunkFills(su, crashed);
    FilledJob(su, crashed);
    assert [] + su.lines[0..su.size] == su.lines[..su.size];
  }

  // The last batch, sent again from where it began.

  /** The chunk that was left goes out in front of the batch, to a queue that has not seen the batch. */
  lemma UnseenBatchSpoils(su: Setup, st: State, q: nat)
    requires su.size > 0 && Between(su, st) && st.gateway.chunk != [] && q < |st.queues|
    requires st.client.batch == Last(su) && st.client.pos == Start(su.size, Last(su))
    requires !Seen(su, st.queues[q], q, Last(su))
    ensures Spoiled(su, st)
  {
    LastIsUnique(su, Last(su));
    var acts: seq<Action>, wrong: State;
    if |st.gateway.chunk| + |su.lines| - st.client.pos < su.size {
      acts := FileEnds(su, st);
      wrong := Ended(su, st);
    } else {
      acts := ChunkFills(su, st);
      wrong := Filled(su, st);
    }
    WrongSpoils(su, wrong, q);
    SpoiledAlong(su, st, acts, wrong);
  }

  /** The client is told that its batch is done before the End has come in. */
  lemma EarlyAck(su: Setup, st: State) returns (acts: seq<Action>, done: State)
    requires su.size > 0 && Between(su, st) && |su.lines| - st.client.pos < su.size
    requires |st.gateway.chunk| + |su.lines| >= st.client.pos + su.size
    ensures Leads(su, st, acts, done) && done.client.phase == Done && done.gateway.job.None?
    ensures done.queues == Drained(su, Filled(su, st)).queues
  {
    acts := ChunkFills(su, st);
    var filled := Filled(su, st);
    var more := JobDone(su, filled);
    var rest := Worked(su, Drained(su, filled));
    Joined(su, st, acts, filled, more, rest);
    acts := acts + more;
    more := EndSentOff(su, rest);
    Joined(su, st, acts, rest, more, EndOnWire(su, rest));
    acts := acts + more;
    done := AckRead(su, EndOnWire(su, rest));
    Onward(su, st, acts, EndOnWire(su, rest), ReadAck, done);
    acts := acts + [ReadAck];
  }

  /** The client is done while a queue has not seen the EOF. */
  lemma UnseenEofSpoils(su: Setup, st: State, q: nat)
    requires su.size > 0 && Between(su, st) && |su.lines| - st.client.pos < su.size && q < |st.queues|
    requires |st.gateway.chunk| + |su.lines| >= st.client.pos + su.size && st.client.batch == Last(su)
    requires !Seen(su, st.queues[q], q, Last(su) + 1)
    ensures Spoiled(su, st)
  {
    var acts, done := EarlyAck(su, st);
    MarkStays(su, st.queues, su.route(st.client.batch), Message(su, Filled(su, st).gateway.job.value), q, Last(su) + 1);
    DoneTooEarly(su, done, q);
    SpoiledAlong(su, st, acts, done);
  }

  lemma UnseenSpoils(su: Setup, st: State)
    requires su.size > 0 && Consistent(su, st) && !Full(su, st.client.batch) && Resumable(su, st.client)
    requires st.gateway.chunk != [] && !RepetitionSeen(su, st)
    ensures Spoiled(su, Step(su, st, Reconnect))
  {
    var broken, b := Step(su, st, Reconnect), st.client.batch;
    InLastBatch(su, st);
    if !AllSeen(su, st.queues, b) {
      var q :| 0 <= q < |st.queues| && !Seen(su, st.queues[q], q, b);
      UnseenBatchSpoils(su, broken, q);
    } else {
      var q :| 0 <= q < |st.queues| && !Seen(su, st.queues[q], q, b + 1);
      UnseenEofSpoils(su, broken, q);
    }
  }

  /** A connection that breaks during the last batch, without a crash, is harmless if and only if the client can take up
      the batch where it began, and the gateway holds no lines of it or what goes wrong with them has been seen before.
      A publication in progress goes on to the EOF, and the repetition is dropped. */
  lemma ReconnectInLastBatchIff(su: Setup, st: State)
    requires su.size > 0 && Consistent(su, st) && !Full(su, st.client.batch) && st.client.phase != Done
    requires Routed(su, |st.queues|)
    ensures StaysExact(su, Step(su, st, Reconnect)) <==>
            Resumable(su, st.client) && (st.gateway.chunk == [] || RepetitionSeen(su, st))
  {
    var broken := Step(su, st, Reconnect);
    if Allowed(su, st, Reconnect) {
      StepKeeps(su, st, Reconnect);
      StaysConsistent(su, broken);
    } else {
      if Resumable(su, st.client) {
        UnseenSpoils(su, st);
      } else {
        BackToTheStart(su, st, Reconnect);
      }
      SpoiledIsNotExact(su, broken);
    }
  }

  // Crashes.

  /** A crash of the gateway before the client is done is harmless if and only if the client can take up its batch where
      it began: it has not come to the end of the file, or the file has no full batch. */
  lemma CrashHarmlessIff(su: Setup, st: State)
    requires su.size > 0 && Consistent(su, st) && st.client.phase != Done && Routed(su, |st.queues|)
    ensures StaysExact(su, Step(su, st, Crash)) <==> !AtEnd(su, st.client) || st.client.start == 0
  {
    var crashed := Step(su, st, Crash);
    if Resumable(su, st.client) {
      StepKeeps(su, st, Crash);
      StaysConsistent(su, crashed);
    } else {
      BackToTheStart(su, st, Crash);
      SpoiledIsNotExact(su, crashed);
    }
  }

  /** Once the client is done and the gateway has nothing, nothing happens any more. */
  lemma {:induction false} Rests(su: Setup, st: State, acts: seq<Action>)
    requires st.client.phase == Done && st.wire == [] && st.gateway == Gateway([], None) && st.acks == 0
    ensures Exec(su, st, acts) == st
  {
    if acts != [] {
      Rests(su, st, acts[..|acts| - 1]);
    }
  }

  lemma DoneIsNearlyAll(su: Setup, st: State)
    requires su.size > 0 && Consistent(su, st) && st.client.phase == Done
    ensures !Full(su, st.client.batch) && Start(su.size, st.client.batch) <= |su.lines|
    ensures AllWithin(su, st.queues, st.client.batch + 1, st.client.batch + 2)
  {
    var b := st.client.batch;
    if Inv(su, st) {
      DoneState(su, st);
    } else if Settled(su, st) {
      Wider(su, st.queues, b + 2, b + 2, b + 1, b + 2);
    }
  }

  lemma SeenMeansAll(su: Setup, queue: seq<Envelope<Body>>, q: nat, m: nat)
    requires Within(su, queue, q, m, m + 1)
    ensures Accept(queue, map[]) == Expected(su, q, m + 1) <==> Seen(su, queue, q, m)
  {
    assert HoldsAt(su, queue, q, m) || HoldsAt(su, queue, q, m + 1);
    assert q in su.route(m) ==> |Expected(su, q, m)| < |Expected(su, q, m + 1)|;
  }

  /** A crash after the client was done loses the EOF for good, exactly where it had not been seen yet. */
  lemma CrashWhenDoneIff(su: Setup, st: State)
    requires su.size > 0 && Consistent(su, st) && st.client.phase == Done
    ensures StaysExact(su, Step(su, st, Crash)) <==> AllSeen(su, st.queues, st.client.batch + 1)
  {
    var crashed, b := Step(su, st, Crash), st.client.batch;
    var none: seq<Action> := [];
    assert AllAllowed(su, crashed, none);
    DoneIsNearlyAll(su, st);
    LastIsUnique(su, b);
    forall q: nat | q < |st.queues|
      ensures Delivered(su, crashed, q) <==> Seen(su, st.queues[q], q, b + 1)
    {
      assert Within(su, st.queues[q], q, b + 1, b + 2);
      SeenMeansAll(su, st.queues[q], q, b + 1);
      HeldIsPrefix(su, st.queues[q], q, if HoldsAt(su, st.queues[q], q, b + 1) then b + 1 else b + 2, b);
    }
    forall acts: seq<Action>
      ensures Exec(su, crashed, acts) == crashed
    {
      Rests(su, crashed, acts);
    }
  }

  /** The bounds are exact: in every state that a run within them can reach, a crash or a broken connection is
      harmless if and only if they allow it. */
  lemma FaultHarmlessIff(su: Setup, st: State, a: Action)
    requires su.size > 0 && Consistent(su, st) && Routed(su, |st.queues|) && (a.Crash? || a.Reconnect?)
    ensures StaysExact(su, Step(su, st, a)) <==> Allowed(su, st, a)
  {
    if a.Crash? {
      if st.client.phase == Done {
        CrashWhenDoneIff(su, st);
      } else {
        CrashHarmlessIff(su, st);
      }
    } else if st.client.phase == Done {
      StepKeeps(su, st, Reconnect);
      StaysConsistent(su, Step(su, st, Reconnect));
    } else if Full(su, st.client.batch) {
      FullBatchUnderWay(su, st);
      ReconnectHarmlessIff(su, st);
    } else {
      ReconnectInLastBatchIff(su, st);
    }
  }

  /** From the beginning of the last batch: the client is done while the EOF has been published nowhere. */
  lemma DoneBeforeEof(su: Setup, st: State) returns (acts: seq<Action>, done: State)
    requires su.size > 0 && AtStart(su, st) && st.client.batch == Last(su) && st.gateway.chunk == []
    requires MarksUpTo(su, st.queues, Last(su))
    ensures Leads(su, st, acts, done) && done.client.phase == Done && done.client.batch == Last(su)
    ensures |done.queues| == |st.queues| && MarksUpTo(su, done.queues, Last(su) + 1)
  {
    LastIsUnique(su, Last(su));
    acts := FileEnds(su, st);
    var ended := Ended(su, st);
    var job := ended.gateway.job.value;
    var more := JobDone(su, ended);
    var out := Worked(su, Drained(su, ended));
    Joined(su, st, acts, ended, more, out);
    acts := acts + more;
    done := AckRead(su, out);
    Onward(su, st, acts, out, ReadAck, done);
    acts := acts + [ReadAck];
    MarksWiden(su, st.queues, Last(su), Last(su) + 1);
    MarksStay(su, st.queues, job.todo, Message(su, job), Last(su) + 1);
  }

  lemma EofUnseen(su: Setup, st: State)
    requires su.size > 0 && Consistent(su, st) && st.client.phase == Done && st.client.batch == Last(su)
    requires MarksUpTo(su, st.queues, Last(su) + 1) && Routed(su, |st.queues|)
    ensures !StaysExact(su, Step(su, st, Crash))
  {
    var q: nat :| q in su.route(Last(su) + 1) && q < |st.queues|;
    assert !Seen(su, st.queues[q], q, Last(su) + 1);
    CrashWhenDoneIff(su, st);
  }

  /** The EOF can be lost, whatever the file: a run without faults leads to a client that is done while the EOF has been
      published nowhere, and a crash then leaves it so. */
  lemma EofCanBeLost(su: Setup, queues: nat) returns (acts: seq<Action>)
    requires su.size > 0 && Routed(su, queues)
    ensures FaultFree(acts)
    ensures var st := Exec(su, Init(queues), acts);
            st.client.phase == Done && !StaysExact(su, Step(su, st, Crash))
  {
    var init := Init(queues);
    InitHolds(su, queues);
    assert MarksUpTo(su, init.queues, Last(su));
    var last, more, done;
    acts, last := ToLastBatch(su, init);
    more, done := DoneBeforeEof(su, last);
    Joined(su, init, acts, last, more, done);
    acts := acts + more;
    assert AllAllowed(su, init, acts);
    RunKeeps(su, init, acts);
    EofUnseen(su, done);
  }

  lemma MarksWiden(su: Setup, queues: seq<seq<Envelope<Body>>>, m: nat, n: nat)
    requires MarksUpTo(su, queues, m) && m <= n
    ensures MarksUpTo(su, queues, n)
  {
  }
}
