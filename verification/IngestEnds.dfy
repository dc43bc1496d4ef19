/** The two ends as the repository has them: loops over a reader and a map of chunks, against the steps above. */
module IngestEnds {
  import opened Protocol
  import opened Ingest

  /** A row of a client, or with no message the end of its file. */
  datatype Item = Item(msg: Option<Line>, clientId: string, batchNum: nat)

  datatype Sent = Published(dst: nat, clientId: string, id: nat, body: Body) | Acked(clientId: string)

  /** One message, to every destination. */
  function ToAll(dsts: nat, clientId: string, id: nat, body: Body): seq<Sent> {
    seq(dsts, d requires 0 <= d => Published(d, clientId, id, body))
  }

  /** What the gateway does for a job, from beginning to end. */
  function JobOutput(dsts: nat, clientId: string, job: Job): seq<Sent> {
    ToAll(dsts, clientId, job.id, job.body) + [Acked(clientId)] +
    if job.last then ToAll(dsts, clientId, job.id + 1, Eof) else []
  }

  function ChunkOf(chunks: map<string, seq<Line>>, clientId: string): seq<Line> {
    if clientId in chunks then chunks[clientId] else []
  }

  class Sender {
    const dsts: nat
    const maxChunkSize: nat
    var chunks: map<string, seq<Line>>
    var sent: seq<Sent>

    constructor (dsts: nat, maxChunkSize: nat)
      ensures this.dsts == dsts && this.maxChunkSize == maxChunkSize && chunks == map[] && sent == []
    {
      this.dsts, this.maxChunkSize := dsts, maxChunkSize;
      chunks, sent := map[], [];
    }

    method Publish(clientId: string, id: nat, body: Body)
      modifies this`sent
      ensures sent == old(sent) + ToAll(dsts, clientId, id, body)
    {
      for d := 0 to dsts
        invariant sent == old(sent) + ToAll(d, clientId, id, body)
      {
        sent := sent + [Published(d, clientId, id, body)];
      }
    }

    method SendChunk(eof: bool, clientId: string, batchNum: nat)
      modifies this
      ensures var chunk := ChunkOf(old(chunks), clientId);
              if |chunk| >= maxChunkSize || eof
              then sent == old(sent) + JobOutput(dsts, clientId, Job(batchNum, Batch(chunk), [], eof)) &&
                   chunks == (if eof then old(chunks) - {clientId} else old(chunks)[clientId := []])
              else sent == old(sent) && chunks == old(chunks)
    {
      var chunk := if clientId in chunks then chunks[clientId] else [];
      if |chunk| >= maxChunkSize || eof {
        Publish(clientId, batchNum, Batch(chunk));
        chunks := chunks[clientId := []];
        sent := sent + [Acked(clientId)];
      }
      if eof {
        Publish(clientId, batchNum + 1, Eof);
        chunks := chunks - {clientId};
        assert chunks == old(chunks) - {clientId};
      }
    }

    /** For its client this is the step Received of the network, and the job it starts is carried out. */
    method UpdateChunk(item: Item)
      modifies this
      ensures var su := Setup([], maxChunkSize, "", _ => []);
              var frame := if item.msg.Some? then Row(item.msg.value, item.batchNum) else End(item.batchNum);
              var g := Received(su, Gateway(ChunkOf(old(chunks), item.clientId), None), frame);
              && ChunkOf(chunks, item.clientId) == g.chunk
              && chunks - {item.clientId} == old(chunks) - {item.clientId}
              && sent == old(sent) + if g.job.Some? then JobOutput(dsts, item.clientId, g.job.value) else []
    {
      if item.msg.Some? {
        if item.clientId !in chunks {
          chunks := chunks[item.clientId := []];
        }
        chunks := chunks[item.clientId := chunks[item.clientId] + [item.msg.value]];
      }
      SendChunk(item.msg.None?, item.clientId, item.batchNum);
      assert chunks - {item.clientId} == old(chunks) - {item.clientId};
    }
  }

  datatype Result = Ok | EndOfFile | Failed

  /** One turn of the client's main loop: how many messages the connection takes, and whether an acknowledgement
      comes. */
  datatype Turn = Turn(room: nat, acked: bool)

  function Lesser(a: nat, b: nat): nat {
    if a <= b then a else b
  }

  /** The rows that go out in a turn. */
  function RowsTaken(su: Setup, c: Client, room: nat): nat
    requires c.pos <= |su.lines|
  {
    Lesser(room, Lesser(su.size, |su.lines| - c.pos))
  }

  function SendRows(n: nat): seq<Action> {
    if n == 0 then [] else SendRows(n - 1) + [SendRow]
  }

  /** The End goes out in a turn: the file is through, the batch not full, and the connection takes it. */
  predicate EndTaken(su: Setup, c: Client, room: nat)
    requires c.pos <= |su.lines|
  {
    var n := RowsTaken(su, c, room);
    n < su.size && c.pos + n == |su.lines| && n < room
  }

  /** What goes out in a turn, as steps of the network. */
  function SendActions(su: Setup, c: Client, room: nat): seq<Action>
    requires c.pos <= |su.lines|
  {
    SendRows(RowsTaken(su, c, room)) + if EndTaken(su, c, room) then [SendEnd] else []
  }

  /** A turn as steps of the network: what goes out, and what the client then hears. Behind less than a batch or the End
      it only hears that the connection is broken. */
  function TurnActions(su: Setup, c: Client, t: Turn): seq<Action>
    requires c.pos <= |su.lines|
  {
    var through := RowsTaken(su, c, t.room) == su.size || EndTaken(su, c, t.room);
    SendActions(su, c, t.room) + [if through && t.acked then ReadAck else Crash]
  }

  /** The network as the client sees it at the beginning of a turn. */
  function Facing(c: Client, t: Turn): State {
    State(c, [], Gateway([], None), if t.acked then 1 else 0, [])
  }

  /** The client's side when n rows of its batch have gone out. */
  function Under(su: Setup, c: Client, n: nat): Client {
    c.(sent := n, pos := c.pos + n, phase := if n == su.size then AwaitAck else Sending)
  }

  /** What a turn comes to: acknowledged or not after a full batch, after the End, or a connection that took no more. */
  function AfterTurn(su: Setup, c: Client, t: Turn): Client {
    if c.phase == Done || c.pos > |su.lines| then c
    else
      var n := RowsTaken(su, c, t.room);
      var under := Under(su, c, n);
      if n == su.size then
        if t.acked then Client(c.batch + 1, c.start + su.size, 0, under.pos, Sending) else Rewound(su, under)
      else if EndTaken(su, c, t.room) then
        if t.acked then under.(phase := Done) else Rewound(su, under.(phase := AwaitFinalAck))
      else Rewound(su, under)
  }

  function AfterTurns(su: Setup, turns: seq<Turn>): Client {
    if turns == [] then INITIAL else AfterTurn(su, AfterTurns(su, turns[..|turns| - 1]), turns[|turns| - 1])
  }

  /** What goes out in a turn: the next rows of the file under the number of the batch, and behind the last of them the
      End. */
  function TurnFrames(su: Setup, c: Client, t: Turn): seq<Frame> {
    if c.phase == Done || c.pos > |su.lines| then []
    else
      Rows(su.lines[c.pos..c.pos + RowsTaken(su, c, t.room)], c.batch) +
      if EndTaken(su, c, t.room) then [End(c.batch)] else []
  }

  /** The frames of one turn after another. */
  function AllFrames(su: Setup, turns: seq<Turn>): seq<Frame> {
    if turns == [] then []
    else
      var init, last := turns[..|turns| - 1], turns[|turns| - 1];
      AllFrames(su, init) + TurnFrames(su, AfterTurns(su, init), last)
  }

  lemma ExecOne(su: Setup, st: State, acts: seq<Action>, a: Action)
    ensures Exec(su, st, acts + [a]) == Step(su, Exec(su, st, acts), a)
  {
    assert (acts + [a])[..|acts|] == acts;
  }

  /** The state after n rows. */
  function RowsOut(su: Setup, st: State, n: nat): State {
    if n == 0 then st else RowSent(su, RowsOut(su, st, n - 1))
  }

  lemma {:induction false} RowsByExec(su: Setup, st: State, n: nat)
    ensures Exec(su, st, SendRows(n)) == RowsOut(su, st, n)
  {
    if n > 0 {
      RowsByExec(su, st, n - 1);
      ExecOne(su, st, SendRows(n - 1), SendRow);
    }
  }

  lemma {:induction false} RowsOutAre(su: Setup, st: State, n: nat)
    requires st.client.phase == Sending && st.client.sent == 0 && su.size > 0
    requires n <= su.size && st.client.pos + n <= |su.lines|
    ensures RowsOut(su, st, n) == WithRows(su, st, n)
  {
    if n > 0 {
      RowsOutAre(su, st, n - 1);
      NextRowOut(su, st, n);
    } else {
      NoRowOut(su, st);
    }
  }

  /** The state with n rows of the batch gone out. */
  function WithRows(su: Setup, st: State, n: nat): State
    requires st.client.pos + n <= |su.lines|
  {
    var c := st.client;
    st.(client := Under(su, c, n), wire := st.wire + Rows(su.lines[c.pos..c.pos + n], c.batch))
  }

  lemma NoRowOut(su: Setup, st: State)
    requires st.client.phase == Sending && st.client.sent == 0 && su.size > 0 && st.client.pos <= |su.lines|
    ensures WithRows(su, st, 0) == st
  {
    var c := st.client;
    assert st.wire + Rows([], c.batch) == st.wire && su.lines[c.pos..c.pos] == [];
  }

  lemma NextRowOut(su: Setup, st: State, n: nat)
    requires st.client.phase == Sending && 0 < n <= su.size && st.client.pos + n <= |su.lines|
    ensures RowSent(su, WithRows(su, st, n - 1)) == WithRows(su, st, n)
  {
    OneRowOut(su, WithRows(su, st, n - 1), n - 1);
    NextRow(su, st.client, n, st.wire);
  }

  lemma NextRow(su: Setup, c: Client, n: nat, wire: seq<Frame>)
    requires 0 < n && c.pos + n <= |su.lines|
    ensures wire + Rows(su.lines[c.pos..c.pos + n - 1], c.batch) + [Row(su.lines[c.pos + n - 1], c.batch)] ==
            wire + Rows(su.lines[c.pos..c.pos + n], c.batch)
  {
    RowsSnoc(su.lines[c.pos..c.pos + n - 1], su.lines[c.pos + n - 1], c.batch);
    assert su.lines[c.pos..c.pos + n] == su.lines[c.pos..c.pos + n - 1] + [su.lines[c.pos + n - 1]];
  }

  lemma OneRowOut(su: Setup, st: State, n: nat)
    requires st.client.phase == Sending && st.client.sent == n < su.size && st.client.pos < |su.lines|
    ensures var c := st.client;
            RowSent(su, st) ==
            st.(client := c.(sent := n + 1, pos := c.pos + 1, phase := if n + 1 == su.size then AwaitAck else Sending),
                wire := st.wire + [Row(su.lines[c.pos], c.batch)])
  {
  }

  lemma RowsOnWire(su: Setup, c: Client, t: Turn)
    requires su.size > 0 && c.phase == Sending && c.sent == 0 && c.pos <= |su.lines|
    ensures var n := RowsTaken(su, c, t.room); var mid := Exec(su, Facing(c, t), SendRows(n));
            && mid.wire == Rows(su.lines[c.pos..c.pos + n], c.batch)
            && mid.client == Under(su, c, n) && mid.acks == (if t.acked then 1 else 0)
  {
    var n := RowsTaken(su, c, t.room);
    RowsByExec(su, Facing(c, t), n);
    RowsOutAre(su, Facing(c, t), n);
    assert [] + Rows(su.lines[c.pos..c.pos + n], c.batch) == Rows(su.lines[c.pos..c.pos + n], c.batch);
  }

  /** What goes out in a turn is what the network has on its wire by then. */
  lemma FramesAreWire(su: Setup, c: Client, t: Turn)
    requires su.size > 0 && c.phase == Sending && c.sent == 0 && c.pos <= |su.lines|
    ensures TurnFrames(su, c, t) == Exec(su, Facing(c, t), SendActions(su, c, t.room)).wire
  {
    var n := RowsTaken(su, c, t.room);
    RowsOnWire(su, c, t);
    if EndTaken(su, c, t.room) {
      EndBehind(su, Facing(c, t), SendRows(n));
      FramesWithEnd(su, c, t);
    } else {
      FramesWithoutEnd(su, c, t);
    }
  }

  lemma FramesWithEnd(su: Setup, c: Client, t: Turn)
    requires c.phase != Done && c.pos <= |su.lines| && EndTaken(su, c, t.room)
    ensures var n := RowsTaken(su, c, t.room);
            && SendActions(su, c, t.room) == SendRows(n) + [SendEnd]
            && TurnFrames(su, c, t) == Rows(su.lines[c.pos..c.pos + n], c.batch) + [End(c.batch)]
  {
  }

  lemma FramesWithoutEnd(su: Setup, c: Client, t: Turn)
    requires c.phase != Done && c.pos <= |su.lines| && !EndTaken(su, c, t.room)
    ensures var n := RowsTaken(su, c, t.room);
            && SendActions(su, c, t.room) == SendRows(n)
            && TurnFrames(su, c, t) == Rows(su.lines[c.pos..c.pos + n], c.batch)
  {
  }

  lemma EndBehind(su: Setup, st: State, acts: seq<Action>)
    requires var c := Exec(su, st, acts).client; c.phase == Sending && c.sent < su.size && c.pos == |su.lines|
    ensures var mid := Exec(su, st, acts);
            Exec(su, st, acts + [SendEnd]).wire == mid.wire + [End(mid.client.batch)]
  {
    ExecOne(su, st, acts, SendEnd);
  }

  /** The turns so far, and one more. */
  lemma TurnNext(su: Setup, turns: seq<Turn>, n: nat, sent: seq<Frame>)
    requires n < |turns|
    ensures var before := AfterTurns(su, turns[..n]);
            && AfterTurns(su, turns[..n + 1]) == AfterTurn(su, before, turns[n])
            && sent + AllFrames(su, turns[..n]) + TurnFrames(su, before, turns[n]) ==
               sent + AllFrames(su, turns[..n + 1])
  {
    assert turns[..n + 1] == turns[..n] + [turns[n]];
    ClientNext(su, turns[..n], turns[n]);
    FramesNext(su, turns[..n], turns[n]);
    Regrouped(sent, AllFrames(su, turns[..n]), TurnFrames(su, AfterTurns(su, turns[..n]), turns[n]));
  }

  lemma ClientNext(su: Setup, turns: seq<Turn>, t: Turn)
    ensures AfterTurns(su, turns + [t]) == AfterTurn(su, AfterTurns(su, turns), t)
  {
    assert (turns + [t])[..|turns|] == turns;
  }

  lemma FramesNext(su: Setup, turns: seq<Turn>, t: Turn)
    ensures AllFrames(su, turns + [t]) == AllFrames(su, turns) + TurnFrames(su, AfterTurns(su, turns), t)
  {
    assert (turns + [t])[..|turns|] == turns;
  }

  lemma Regrouped<T>(a: seq<T>, b: seq<T>, c: seq<T>)
    ensures a + b + c == a + (b + c)
  {
  }

  /** A turn of the main loop is a run of the network, on the client's side. */
  lemma TurnIsRun(su: Setup, c: Client, t: Turn)
    requires su.size > 0 && c.phase == Sending && c.sent == 0 && c.pos <= |su.lines|
    ensures AfterTurn(su, c, t) == Exec(su, Facing(c, t), TurnActions(su, c, t)).client
  {
    var n, st := RowsTaken(su, c, t.room), Facing(c, t);
    RowsOnWire(su, c, t);
    if !EndTaken(su, c, t.room) {
      FramesWithoutEnd(su, c, t);
    }
    if n == su.size {
      Heard(su, st, SendRows(n), t.acked);
    } else if EndTaken(su, c, t.room) {
      EndThenHeard(su, st, n, t.acked);
    } else {
      Heard(su, st, SendRows(n), false);
    }
  }

  lemma EndThenHeard(su: Setup, st: State, n: nat, acked: bool)
    requires st.client.phase == Sending && n < su.size && st.client.pos + n == |su.lines|
    requires Exec(su, st, SendRows(n)).client == Under(su, st.client, n)
    requires Exec(su, st, SendRows(n)).acks == if acked then 1 else 0
    ensures Exec(su, st, SendRows(n) + [SendEnd] + [if acked then ReadAck else Crash]).client ==
            if acked then Under(su, st.client, n).(phase := Done)
            else Rewound(su, Under(su, st.client, n).(phase := AwaitFinalAck))
  {
    ExecOne(su, st, SendRows(n), SendEnd);
    Heard(su, st, SendRows(n) + [SendEnd], acked);
  }

  /** The last step of a turn. */
  lemma Heard(su: Setup, st: State, acts: seq<Action>, acked: bool)
    ensures var mid := Exec(su, st, acts);
            Exec(su, st, acts + [if acked then ReadAck else Crash]).client ==
            if acked then AckRead(su, mid).client else Rewound(su, mid.client)
  {
    ExecOne(su, st, acts, if acked then ReadAck else Crash);
  }

  class BatchProcessor {
    const lines: seq<Line>
    const batchSize: nat
    var pos: nat
    var wire: seq<Frame>
    /** How many more messages the connection takes before it breaks. */
    var room: nat

    constructor (lines: seq<Line>, batchSize: nat, room: nat)
      ensures this.lines == lines && this.batchSize == batchSize && pos == 0 && wire == [] && this.room == room
    {
      this.lines, this.batchSize := lines, batchSize;
      pos, wire, this.room := 0, [], room;
    }

    method SendMessage(frame: Frame) returns (ok: bool)
      modifies this`wire, this`room
      ensures ok == (old(room) > 0)
      ensures wire == (if ok then old(wire) + [frame] else old(wire)) && room == (if ok then old(room) - 1 else 0)
    {
      ok := room > 0;
      if ok {
        wire, room := wire + [frame], room - 1;
      }
    }

    /** The rows of one batch, as far as the file and the connection go. */
    method SendBatch(startLine: nat, currentBatch: nat) returns (lineCount: nat, result: Result)
      requires pos <= |lines|
      modifies this
      ensures startLine <= lineCount <= startLine + batchSize
      ensures var n := lineCount - startLine;
              && old(pos) + n <= |lines|
              && wire == old(wire) + Rows(lines[old(pos)..old(pos) + n], currentBatch)
              && room == old(room) - n
              && pos == old(pos) + n + (if result == Failed then 1 else 0)
      ensures result == Ok ==> lineCount == startLine + batchSize
      ensures result == EndOfFile ==> pos == |lines| && lineCount < startLine + batchSize
      ensures result == Failed ==> room == 0 && lineCount < startLine + batchSize && pos <= |lines|
    {
      lineCount := startLine;
      while lineCount < startLine + batchSize
        invariant startLine <= lineCount <= startLine + batchSize
        invariant pos == old(pos) + (lineCount - startLine) <= |lines|
        invariant wire == old(wire) + Rows(lines[old(pos)..pos], currentBatch)
        invariant room == old(room) - (lineCount - startLine)
      {
        if pos == |lines| {
          return lineCount, EndOfFile;
        }
        var record := lines[pos];
        RowsSnoc(lines[old(pos)..pos], record, currentBatch);
        assert lines[old(pos)..pos + 1] == lines[old(pos)..pos] + [record];
        pos := pos + 1;
        var ok := SendMessage(Row(record, currentBatch));
        if !ok {
          return lineCount, Failed;
        }
        lineCount := lineCount + 1;
      }
      return lineCount, Ok;
    }

    /** The End, and the last acknowledgement; without it the reader goes back to the first line. */
    method HandleFinalBatch(currentBatch: nat, acked: bool) returns (ok: bool)
      modifies this
      ensures ok == (old(room) > 0 && acked)
      ensures wire == old(wire) + if old(room) > 0 then [End(currentBatch)] else []
      ensures pos == if ok then old(pos) else 0
    {
      var sent := SendMessage(End(currentBatch));
      ok := sent && acked;
      if !ok {
        RewindReader(0);
      }
    }

    /** The body of the main loop: a batch, and what the client hears. */
    method TakeTurn(currentBatch: nat, batchStartLine: nat, t: Turn, ghost su: Setup)
      returns (nextBatch: nat, nextStart: nat, done: bool)
      requires batchSize > 0 && pos <= |lines| && su.lines == lines && su.size == batchSize
      modifies this
      ensures var c := Client(currentBatch, batchStartLine, 0, old(pos), Sending); var c' := AfterTurn(su, c, t);
              && wire == old(wire) + TurnFrames(su, c, t) && pos <= |lines|
              && c'.batch == nextBatch && c'.start == nextStart && c'.pos == pos
              && (if done then c'.phase == Done else c' == Client(nextBatch, nextStart, 0, pos, Sending))
    {
      nextBatch, nextStart, done := currentBatch, batchStartLine, false;
      room := t.room;
      var lineCount, result := SendBatch(batchStartLine, currentBatch);
      if result == EndOfFile {
        done := HandleFinalBatch(currentBatch, t.acked);
      } else if result == Failed || !t.acked {
        RewindReader(batchStartLine);
      } else {
        nextBatch, nextStart := currentBatch + 1, lineCount;
      }
    }

    /** The main loop. Turn by turn the client is where the network's steps take it, until it is done, and has sent the
        frames that the network has on its wire. */
    method ProcessCSVBatches(turns: seq<Turn>, ghost su: Setup)
      returns (currentBatch: nat, batchStartLine: nat, done: bool, used: nat)
      requires batchSize > 0 && pos == 0 && su.lines == lines && su.size == batchSize
      modifies this
      ensures used <= |turns| && (done || used == |turns|)
      ensures var c := AfterTurns(su, turns[..used]);
              && c.batch == currentBatch && c.start == batchStartLine && c.pos == pos
              && c.phase == if done then Done else Sending
      ensures wire == old(wire) + AllFrames(su, turns[..used])
    {
      currentBatch, batchStartLine, done, used := 0, 0, false, 0;
      while used < |turns| && !done
        invariant used <= |turns| && pos <= |lines|
        invariant var c := AfterTurns(su, turns[..used]);
                  && c.batch == currentBatch && c.start == batchStartLine && c.pos == pos
                  && (if done then c.phase == Done else c == Client(currentBatch, batchStartLine, 0, pos, Sending))
        invariant wire == old(wire) + AllFrames(su, turns[..used])
      {
        TurnNext(su, turns, used, old(wire));
        currentBatch, batchStartLine, done := TakeTurn(currentBatch, batchStartLine, turns[used], su);
        used := used + 1;
      }
    }

    method RewindReader(batchStartLine: nat)
      modifies this`pos
      ensures pos == if batchStartLine <= |lines| then batchStartLine else |lines|
    {
      pos := 0;
      for i := 0 to batchStartLine
        invariant pos == if i <= |lines| then i else |lines|
      {
        if pos < |lines| {
          pos := pos + 1;
        }
      }
    }
  }

  // Source ids.

  /** The source a client's messages carry: its id without the dashes. */
  function SourceOf(clientId: string): string {
    if clientId == "" then ""
    else (if clientId[0] == '-' then [] else [clientId[0]]) + SourceOf(clientId[1..])
  }

  predicate Dashless(s: string) {
    '-' !in s
  }

  lemma {:induction false} SourceOfDashless(c: string)
    requires Dashless(c)
    ensures SourceOf(c) == c
  {
    if c != "" {
      SourceOfDashless(c[1..]);
      assert c == [c[0]] + c[1..];
    }
  }

  lemma {:induction false} SourceConcat(a: string, b: string)
    ensures SourceOf(a + b) == SourceOf(a) + SourceOf(b)
  {
    if a == "" {
      assert a + b == b;
    } else {
      assert (a + b)[1..] == a[1..] + b;
      SourceConcat(a[1..], b);
    }
  }

  lemma SourceJoins(g: string, c: string)
    requires Dashless(g) && Dashless(c)
    ensures SourceOf(c) == c && SourceOf(g + "-" + c) == g + c
  {
    SourceOfDashless(g);
    SourceOfDashless(c);
    SourceConcat(g + "-", c);
    SourceConcat(g, "-");
    assert "-"[1..] == "" && SourceOf("-") == "";
    assert g + "" == g;
  }

  /** Two clients share a source, and so lose each other's messages as duplicates, exactly if their gateway ids and
      client numbers read the same when written together. */
  lemma SharedSourceIff(g: string, c: string, g': string, c': string)
    requires Dashless(g) && Dashless(c) && Dashless(g') && Dashless(c')
    ensures SourceOf(g + "-" + c) == SourceOf(g' + "-" + c') <==> g + c == g' + c'
  {
    SourceJoins(g, c);
    SourceJoins(g', c');
  }

  lemma SharedSourceExample()
    ensures SourceOf("1" + "-" + "11") == SourceOf("11" + "-" + "1")
  {
    SharedSourceIff("1", "11", "11", "1");
  }
}
