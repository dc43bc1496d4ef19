/** Frames on a TCP connection: pkg/message/client_msg.go:59-82 writes them, the gateway's read loop in
    internal/gateway/data_listener.go:45-93 puts them together again. */
module Stream {
  import opened Bytes
  import opened Codec
  import opened Protocol
  import opened Batches

  const LEN_FIELD_SIZE: nat := 4

  /** A batch number and the bytes of one row; no bytes at all mean the end of the file. */
  datatype Message = Message(batch: nat, payload: seq<byte>)

  predicate FitsFrame(m: Message) {
    m.batch < WORD && |m.payload| < WORD
  }

  function Frame(m: Message): (b: seq<byte>)
    ensures |b| == 8 + |m.payload|
  {
    ToBytes(4, m.batch) + EncodeLength(|m.payload|) + m.payload
  }

  method SendMessage(batchNum: nat, dataLen: nat, data: seq<byte>) returns (finalMessage: seq<byte>)
    ensures dataLen == |data| % WORD ==> finalMessage == Frame(Message(batchNum, data))
  {
    finalMessage := [];
    finalMessage := finalMessage + ToBytes(4, batchNum);
    finalMessage := finalMessage + ToBytes(4, dataLen);
    finalMessage := finalMessage + data;
  }

  /** Batch number and length of the row come first, in four bytes each. */
  lemma FrameBytes(payload: seq<byte>)
    requires |payload| == 3
    ensures Frame(Message(258, payload)) == [0, 0, 1, 2] + [0, 0, 0, 3] + payload
  {
    WordRange();
    assert ToBytes(2, 258) == [1, 2] && ToBytes(2, 3) == [0, 3];
  }

  function Frames(ms: seq<Message>): seq<byte> {
    if ms == [] then [] else Frame(ms[0]) + Frames(ms[1..])
  }

  /** The gateway counts the bytes it has behind a header in 32 bits. */
  predicate Lacking(bytesIn: nat, payloadSize: nat) {
    bytesIn % WORD < payloadSize
  }

  /** Taking one frame off the buffer. */
  function Next(buf: seq<byte>): (r: Option<(Message, seq<byte>)>)
    ensures r.Some? ==> |r.value.1| < |buf|
  {
    if |buf| < 8 then None
    else
      var payloadSize, rest := FromBytes(buf[4..8]), buf[8..];
      if Lacking(|rest|, payloadSize) then None
      else Some((Message(FromBytes(buf[..4]), rest[..payloadSize]), rest[payloadSize..]))
  }

  /** All the frames in the buffer, what is left, and whether the last frame was an end of file. */
  function Parse(buf: seq<byte>, finished: bool): (seq<Message>, seq<byte>, bool)
    decreases |buf|
  {
    var next := Next(buf);
    if next.None? then ([], buf, finished)
    else
      var (m, rest) := next.value;
      var (ms, left, fin) := Parse(rest, m.payload == []);
      ([m] + ms, left, fin)
  }

  datatype State = State(items: seq<Message>, buf: seq<byte>, finished: bool)

  /** One read of the socket. */
  function Feed(st: State, chunk: seq<byte>): State {
    if st.finished then st
    else
      var (ms, left, fin) := Parse(st.buf + chunk, false);
      State(st.items + ms, left, fin)
  }

  function FeedAll(chunks: seq<seq<byte>>): State {
    if chunks == [] then State([], [], false) else Feed(FeedAll(chunks[..|chunks| - 1]), chunks[|chunks| - 1])
  }

  class Reassembler {
    var buf: seq<byte>
    var items: seq<Message>
    var finished: bool

    constructor ()
      ensures buf == [] && items == [] && !finished
    {
      buf, items, finished := [], [], false;
    }

    /** The inner loop. */
    method Drain()
      modifies this
      ensures var (ms, left, fin) := Parse(old(buf), old(finished));
              items == old(items) + ms && buf == left && finished == fin
    {
      ghost var (ms, left, fin) := Parse(buf, finished);
      while |buf| >= LEN_FIELD_SIZE * 2
        invariant var (ms', left', fin') := Parse(buf, finished);
                  old(items) + ms == items + ms' && left == left' && fin == fin'
        decreases |buf|
      {
        var taken := TakeFrame();
        if !taken {
          return;
        }
      }
    }

    /** One turn of it. */
    method TakeFrame() returns (taken: bool)
      requires |buf| >= LEN_FIELD_SIZE * 2
      modifies this
      ensures match Next(old(buf))
              case None => !taken && buf == old(buf) && items == old(items) && finished == old(finished)
              case Some((m, rest)) => taken && buf == rest && items == old(items) + [m] && finished == (m.payload == [])
    {
      var batchNumBytes := buf[..LEN_FIELD_SIZE];
      var batchNum := FromBytes(batchNumBytes);
      buf := buf[LEN_FIELD_SIZE..];
      var payloadSizeBytes := buf[..LEN_FIELD_SIZE];
      var payloadSize := FromBytes(payloadSizeBytes);
      buf := buf[LEN_FIELD_SIZE..];
      assert payloadSizeBytes == old(buf)[4..8] && buf == old(buf)[8..];
      if Lacking(|buf|, payloadSize) {
        buf := batchNumBytes + (payloadSizeBytes + buf);
        assert buf == old(buf);
        return false;
      }
      finished := payloadSize == 0;
      items := items + [Message(batchNum, buf[..payloadSize])];
      buf := buf[payloadSize..];
      return true;
    }

    /** The outer loop, over what the reads bring until the file has ended. */
    method HandleData(chunks: seq<seq<byte>>)
      requires buf == [] && items == [] && !finished
      modifies this
      ensures State(items, buf, finished) == FeedAll(chunks)
    {
      var i := 0;
      while !finished && i < |chunks|
        invariant i <= |chunks| && State(items, buf, finished) == FeedAll(chunks[..i])
      {
        buf := buf + chunks[i];
        assert chunks[..i + 1][..i] == chunks[..i];
        Drain();
        i := i + 1;
      }
      if finished {
        FinishedIgnores(chunks, i);
      } else {
        assert chunks[..i] == chunks;
      }
    }
  }

  lemma {:induction false} FinishedIgnores(chunks: seq<seq<byte>>, i: nat)
    requires i <= |chunks| && FeedAll(chunks[..i]).finished
    ensures FeedAll(chunks) == FeedAll(chunks[..i])
    decreases |chunks|
  {
    if i < |chunks| {
      assert chunks[..|chunks| - 1][..i] == chunks[..i];
      FinishedIgnores(chunks[..|chunks| - 1], i);
    } else {
      assert chunks[..i] == chunks;
    }
  }

  // Reassembly.

  lemma HeaderCut(b: seq<byte>)
    requires 8 <= |b|
    ensures b[..4] == b[..8][..4] && b[4..8] == b[..8][4..]
  {
  }

  lemma HeaderParts(batch: seq<byte>, size: seq<byte>, payload: seq<byte>)
    requires |batch| == 4 && |size| == 4
    ensures var b := batch + size + payload; b[..4] == batch && b[4..8] == size
  {
  }

  lemma Header(m: Message, b: seq<byte>)
    requires FitsFrame(m) && 8 <= |b| && b[..8] == Frame(m)[..8]
    ensures FromBytes(b[..4]) == m.batch && FromBytes(b[4..8]) == |m.payload|
  {
    HeaderCut(b);
    HeaderCut(Frame(m));
    HeaderParts(ToBytes(4, m.batch), EncodeLength(|m.payload|), m.payload);
    WordRange();
    FromToBytes(4, m.batch);
    FromToBytes(4, |m.payload|);
  }

  /** A whole frame is taken off, whatever follows. */
  lemma NextWhole(m: Message, rest: seq<byte>)
    requires FitsFrame(m) && |m.payload| + |rest| < WORD
    ensures Next(Frame(m) + rest) == Some((m, rest))
  {
    var buf := Frame(m) + rest;
    assert buf[..8] == Frame(m)[..8];
    Header(m, buf);
    assert buf[8..] == m.payload + rest;
    assert (m.payload + rest)[..|m.payload|] == m.payload;
    assert (m.payload + rest)[|m.payload|..] == rest;
  }

  /** An incomplete frame is left in the buffer. */
  lemma NextPart(m: Message, buf: seq<byte>)
    requires FitsFrame(m) && buf < Frame(m)
    ensures Next(buf) == None
  {
    if |buf| >= 8 {
      assert buf[..8] == Frame(m)[..|buf|][..8] == Frame(m)[..8];
      Header(m, buf);
    }
  }

  /** items are the first k messages, rest the beginning of the next one, and together they are the bytes got. */
  ghost predicate Split(ms: seq<Message>, got: seq<byte>, items: seq<Message>, rest: seq<byte>, k: nat) {
    && k <= |ms| && items == ms[..k]
    && got == Frames(items) + rest
    && if k < |ms| then rest < Frame(ms[k]) else rest == []
  }

  ghost predicate AllFit(ms: seq<Message>) {
    forall i :: 0 <= i < |ms| ==> FitsFrame(ms[i])
  }

  lemma PrefixOfTail(m: Message, ms: seq<Message>, b: seq<byte>)
    requires b <= Frame(m) + Frames(ms) && |b| >= |Frame(m)|
    ensures b == Frame(m) + b[|Frame(m)|..] && b[|Frame(m)|..] <= Frames(ms)
  {
    assert (Frame(m) + Frames(ms))[..|b|] == b;
    assert (Frame(m) + Frames(ms))[|Frame(m)|..] == Frames(ms);
  }

  lemma {:induction false} ParseSplits(ms: seq<Message>, b: seq<byte>, finished: bool) returns (k: nat)
    requires AllFit(ms) && b <= Frames(ms) && |b| < 8 + WORD
    ensures var (items, rest, fin) := Parse(b, finished);
            Split(ms, b, items, rest, k) && fin == (if k == 0 then finished else ms[k - 1].payload == [])
    decreases |ms|
  {
    if ms != [] && |b| >= |Frame(ms[0])| {
      var b' := b[|Frame(ms[0])|..];
      PrefixOfTail(ms[0], ms[1..], b);
      NextWhole(ms[0], b');
      var j := ParseSplits(ms[1..], b', ms[0].payload == []);
      k := j + 1;
      SplitCons(ms, b', Parse(b', ms[0].payload == []).0, Parse(b', ms[0].payload == []).1, j);
    } else {
      k := 0;
      if ms != [] {
        assert (Frame(ms[0]) + Frames(ms[1..]))[..|b|] == Frame(ms[0])[..|b|];
        NextPart(ms[0], b);
      }
    }
  }

  lemma SplitCons(ms: seq<Message>, b: seq<byte>, items: seq<Message>, rest: seq<byte>, j: nat)
    requires ms != [] && Split(ms[1..], b, items, rest, j)
    ensures Split(ms, Frame(ms[0]) + b, [ms[0]] + items, rest, j + 1)
  {
    var all := [ms[0]] + items;
    assert all[1..] == items;
    assert Frame(ms[0]) + (Frames(items) + rest) == (Frame(ms[0]) + Frames(items)) + rest;
  }

  lemma {:induction false} FramesAppend(a: seq<Message>, b: seq<Message>)
    ensures Frames(a + b) == Frames(a) + Frames(b)
  {
    if a == [] {
      assert a + b == b;
    } else {
      assert (a + b)[1..] == a[1..] + b;
      FramesAppend(a[1..], b);
    }
  }

  lemma SplitAppend(ms: seq<Message>, got: seq<byte>, items: seq<Message>, buf: seq<byte>, k: nat,
                    chunk: seq<byte>, more: seq<Message>, rest: seq<byte>, j: nat)
    requires Split(ms, got, items, buf, k) && Split(ms[k..], buf + chunk, more, rest, j)
    ensures Split(ms, got + chunk, items + more, rest, k + j)
  {
    FramesAppend(items, more);
    assert ms[..k + j] == ms[..k] + ms[k..][..j];
    Regrouped(Frames(items), buf, chunk);
    Regrouped(Frames(items), Frames(more), rest);
  }

  lemma Regrouped(a: seq<byte>, b: seq<byte>, c: seq<byte>)
    ensures (a + b) + c == a + (b + c)
  {
  }

  lemma RemainingBytes(ms: seq<Message>, got: seq<byte>, items: seq<Message>, buf: seq<byte>, k: nat, chunk: seq<byte>)
    requires Split(ms, got, items, buf, k) && got + chunk <= Frames(ms)
    ensures buf + chunk <= Frames(ms[k..])
  {
    FramesAppend(ms[..k], ms[k..]);
    assert ms == ms[..k] + ms[k..];
    var all := Frames(items) + Frames(ms[k..]);
    assert got + chunk == Frames(items) + (buf + chunk);
    assert all[..|got + chunk|] == got + chunk;
    assert all[|Frames(items)|..] == Frames(ms[k..]);
    assert (got + chunk)[|Frames(items)|..] == buf + chunk;
  }

  /** Only the last message may be an end of file. */
  ghost predicate EndsOnce(ms: seq<Message>) {
    forall i :: 0 <= i < |ms| - 1 ==> ms[i].payload != []
  }

  /** A read never brings more than readSize bytes, and an incomplete frame with a read behind it can be counted. */
  ghost predicate Countable(ms: seq<Message>, readSize: nat) {
    AllFit(ms) && readSize < WORD && forall i :: 0 <= i < |ms| ==> |ms[i].payload| + readSize <= WORD
  }

  ghost predicate InStep(ms: seq<Message>, got: seq<byte>, st: State, k: nat) {
    && Split(ms, got, st.items, st.buf, k)
    && st.finished == (k > 0 && ms[k - 1].payload == [])
  }

  lemma FeedKeeps(ms: seq<Message>, readSize: nat, got: seq<byte>, st: State, k: nat, chunk: seq<byte>)
    returns (k': nat)
    requires Countable(ms, readSize) && EndsOnce(ms) && InStep(ms, got, st, k)
    requires got + chunk <= Frames(ms) && |chunk| <= readSize
    ensures InStep(ms, got + chunk, Feed(st, chunk), k')
  {
    RemainingBytes(ms, got, st.items, st.buf, k, chunk);
    if st.finished {
      assert k == |ms| && ms[k..] == [];
      assert got + chunk == got;
      k' := k;
    } else {
      var j := ParseSplits(ms[k..], st.buf + chunk, false);
      var (more, rest, fin) := Parse(st.buf + chunk, false);
      SplitAppend(ms, got, st.items, st.buf, k, chunk, more, rest, j);
      k' := k + j;
    }
  }

  /** Reassembly. However the bytes of the frames are cut into reads, the messages handed on are at every point the
      first ones sent, in order and intact, and what the buffer holds between two reads is a proper beginning of the
      next frame; the loop is finished exactly when the end of the file has been handed on. */
  lemma {:induction false} ReadsGiveMessages(ms: seq<Message>, readSize: nat, chunks: seq<seq<byte>>) returns (k: nat)
    requires Countable(ms, readSize) && EndsOnce(ms) && Concat(chunks) <= Frames(ms)
    requires forall i :: 0 <= i < |chunks| ==> |chunks[i]| <= readSize
    ensures InStep(ms, Concat(chunks), FeedAll(chunks), k)
  {
    if chunks == [] {
      k := 0;
      assert ms[..0] == [];
    } else {
      var init, last := chunks[..|chunks| - 1], chunks[|chunks| - 1];
      k := ReadsGiveMessages(ms, readSize, init);
      k := FeedKeeps(ms, readSize, Concat(init), FeedAll(init), k, last);
    }
  }

  /** A split with messages to come is not yet all the bytes. */
  lemma PartIsShorter(ms: seq<Message>, got: seq<byte>, items: seq<Message>, rest: seq<byte>, k: nat)
    requires Split(ms, got, items, rest, k)
    ensures k < |ms| ==> |got| < |Frames(ms)|
  {
    if k < |ms| {
      FramesAppend(ms[..k], ms[k..]);
      assert ms == ms[..k] + ms[k..];
      assert |Frames(ms[k..])| >= |Frame(ms[k])|;
    }
  }

  /** When all the bytes are in, so are all the messages. */
  lemma AllBytesAllMessages(ms: seq<Message>, readSize: nat, chunks: seq<seq<byte>>)
    requires Countable(ms, readSize) && EndsOnce(ms) && Concat(chunks) == Frames(ms)
    requires forall i :: 0 <= i < |chunks| ==> |chunks[i]| <= readSize
    ensures var st := FeedAll(chunks);
            st.items == ms && st.buf == [] && (st.finished <==> ms != [] && ms[|ms| - 1].payload == [])
  {
    var k := ReadsGiveMessages(ms, readSize, chunks);
    PartIsShorter(ms, Frames(ms), FeedAll(chunks).items, FeedAll(chunks).buf, k);
    assert ms[..|ms|] == ms;
  }

  /** The 32-bit count tells a complete frame from an incomplete one, for every payload size, exactly while fewer than
      2^32 bytes have come in behind the header (or where the count is at its largest, which any payload fits). */
  lemma CountIsFaithfulIff(bytesIn: nat)
    ensures (forall size: nat {:trigger Lacking(bytesIn, size)} :: size < WORD ==>
             (Lacking(bytesIn, size) <==> bytesIn < size))
            <==> bytesIn < WORD || bytesIn % WORD == WORD - 1
  {
    if bytesIn >= WORD && bytesIn % WORD < WORD - 1 {
      assert Lacking(bytesIn, bytesIn % WORD + 1);
    }
  }
}
