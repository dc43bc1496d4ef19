/** The recovery log as text: pkg/recovery, pkg/amqp/header.go and pkg/sequence. A line is a list of fields; how the
    CSV layer stores the fields is not part of this model. */
module LogRecord {
  import opened Protocol
  import opened Decimal

  const SEPARATOR: char := '-'
  const HEADER_LEN: nat := 4

  type uint8 = x: nat | x < 256
  type uint64 = x: nat | x < 0x1_0000_0000_0000_0000

  datatype Header = Header(sequenceId: string, clientId: string, originId: uint8, messageId: uint8)

  datatype Destination = Destination(key: string, id: uint64)

  datatype LogLine = LogLine(header: Header, sequenceIds: seq<Destination>, msg: string)

  /** Where the last separator is, or the length if there is none. */
  function LastIndex(s: string): (i: nat)
    ensures i <= |s| && (i < |s| ==> s[i] == SEPARATOR)
    ensures forall j :: 0 <= j < |s| && (j > i || i == |s|) ==> s[j] != SEPARATOR
  {
    if s == "" then 0
    else if s[|s| - 1] == SEPARATOR then |s| - 1
    else
      var i := LastIndex(s[..|s| - 1]);
      assert forall j :: 0 <= j < |s| - 1 ==> s[..|s| - 1][j] == s[j];
      if i == |s| - 1 then |s| else i
  }

  function SplitIdAtLastIndex(s: string): Option<(string, string)> {
    var i := LastIndex(s);
    if i == |s| then None else Some((s[..i], s[i + 1..]))
  }

  /** A name and a number, as destinations and sources alike are written. */
  function Joined(name: string, id: nat): string {
    name + [SEPARATOR] + Print(id)
  }

  function ParseJoined(s: string): Option<(string, uint64)> {
    var parts := SplitIdAtLastIndex(s);
    if parts.None? then None
    else
      var id := ParseUint(parts.value.1);
      if id.None? then None else Some((parts.value.0, id.value))
  }

  /** Name and number come back whatever the name is: empty, or itself with separators. */
  lemma JoinedRoundTrip(name: string, id: uint64)
    ensures ParseJoined(Joined(name, id)) == Some((name, id))
  {
    var s := Joined(name, id);
    assert s[|name|] == SEPARATOR;
    assert forall j :: |name| < j < |s| ==> s[j] == Print(id)[j - |name| - 1];
    assert LastIndex(s) == |name|;
    assert s[..|name|] == name && s[|name| + 1..] == Print(id);
    PrintParses(id);
  }

  function PrintHeader(h: Header): seq<string> {
    [h.sequenceId, h.clientId, Print(h.originId), Print(h.messageId)]
  }

  /** The two numbers are cut to a byte. */
  function ParseHeader(line: seq<string>): Option<Header> {
    if |line| < HEADER_LEN then None
    else
      var originId, messageId := ParseInt(line[2]), ParseInt(line[3]);
      if originId.None? || messageId.None? then None
      else Some(Header(line[0], line[1], originId.value % 256, messageId.value % 256))
  }

  function PrintIds(ids: seq<Destination>): (r: seq<string>)
    ensures |r| == |ids|
  {
    seq(|ids|, i requires 0 <= i < |ids| => Joined(ids[i].key, ids[i].id))
  }

  function PrintLine(r: LogLine): seq<string> {
    PrintHeader(r.header) + [Print(|r.sequenceIds|)] + PrintIds(r.sequenceIds) + [r.msg]
  }

  /** A parse succeeds, is given up with an error, or takes the process down. */
  datatype Parsed<+T> = Done(value: T) | Failed | Panics

  /** The first n destinations of fields. */
  function ParseIds(fields: seq<string>, n: nat): (r: Option<seq<Destination>>)
    requires n <= |fields|
    ensures r.Some? ==> |r.value| == n
  {
    if n == 0 then Some([])
    else
      var init, last := ParseIds(fields, n - 1), ParseJoined(fields[n - 1]);
      if init.None? || last.None? then None else Some(init.value + [Destination(last.value.0, last.value.1)])
  }

  const MAX_INT: int := 0x7fff_ffff_ffff_ffff

  /** A negative count asks for a slice of negative capacity; so does the largest one, which wraps around. */
  function DstsFromStrings(fields: seq<string>): Parsed<seq<Destination>> {
    if fields == [] then Failed
    else
      var count := ParseInt(fields[0]);
      if count.None? then Failed
      else if count.value < 0 || count.value == MAX_INT then Panics
      else if |fields| < count.value + 1 then Failed
      else
        var ids := ParseIds(fields[1..], count.value);
        if ids.None? then Failed else Done(ids.value)
  }

  /** A line of four fields has its fourth to third field asked for. */
  function ParseLine(line: seq<string>): Parsed<LogLine> {
    var header := ParseHeader(line);
    if header.None? then Failed
    else if |line| == HEADER_LEN then Panics
    else
      match DstsFromStrings(line[HEADER_LEN..|line| - 1])
      case Done(ids) => Done(LogLine(header.value, ids, line[|line| - 1]))
      case Failed => Failed
      case Panics => Panics
  }

  lemma FirstIds(ids: seq<Destination>, n: nat)
    requires 0 < n <= |ids|
    ensures ids[..n] == ids[..n - 1] + [Destination(ids[n - 1].key, ids[n - 1].id)]
  {
  }

  lemma {:induction false} IdsRoundTrip(ids: seq<Destination>, n: nat)
    requires n <= |ids|
    ensures ParseIds(PrintIds(ids), n) == Some(ids[..n])
  {
    if n > 0 {
      var last := ids[n - 1];
      IdsRoundTrip(ids, n - 1);
      JoinedRoundTrip(last.key, last.id);
      assert PrintIds(ids)[n - 1] == Joined(last.key, last.id);
      FirstIds(ids, n);
    }
  }

  lemma HeaderRoundTrip(h: Header, more: seq<string>)
    ensures ParseHeader(PrintHeader(h) + more) == Some(h)
  {
    var line := PrintHeader(h) + more;
    assert line[0] == h.sequenceId && line[1] == h.clientId && line[2] == Print(h.originId) &&
           line[3] == Print(h.messageId);
    PrintParses(h.originId);
    PrintParses(h.messageId);
  }

  lemma CountThenIds(count: string, fields: seq<string>, ids: seq<Destination>)
    requires ParseInt(count) == Some(|fields|) && |fields| < MAX_INT && ParseIds(fields, |fields|) == Some(ids)
    ensures DstsFromStrings([count] + fields) == Done(ids)
  {
    assert ([count] + fields)[1..] == fields;
  }

  lemma DstsRoundTrip(ids: seq<Destination>)
    requires |ids| < MAX_INT
    ensures DstsFromStrings([Print(|ids|)] + PrintIds(ids)) == Done(ids)
  {
    PrintParses(|ids|);
    IdsRoundTrip(ids, |ids|);
    assert ids[..|ids|] == ids;
    CountThenIds(Print(|ids|), PrintIds(ids), ids);
  }

  /** Log-record round trip: what is parsed from a printed record is the record, whatever its keys, ids and message. */
  lemma LineRoundTrip(r: LogLine)
    requires |r.sequenceIds| < MAX_INT
    ensures ParseLine(PrintLine(r)) == Done(r)
  {
    var fields := [Print(|r.sequenceIds|)] + PrintIds(r.sequenceIds);
    var line := PrintLine(r);
    assert line == PrintHeader(r.header) + (fields + [r.msg]);
    HeaderRoundTrip(r.header, fields + [r.msg]);
    assert line[HEADER_LEN..|line| - 1] == fields;
    DstsRoundTrip(r.sequenceIds);
  }

  /** The fields that count destinations with a number no list can have. */
  predicate BadCount(field: string) {
    var count := ParseInt(field);
    count.Some? && (count.value < 0 || count.value == MAX_INT)
  }

  /** Reading a line panics exactly if its header can be read and either nothing comes behind that, or at least two
      fields of which the first is a negative or the greatest number. Any other line is a record or is skipped. */
  lemma LinePanicsIff(line: seq<string>)
    ensures ParseLine(line).Panics? <==>
            ParseHeader(line).Some? &&
            (|line| == HEADER_LEN || (|line| >= HEADER_LEN + 2 && BadCount(line[HEADER_LEN])))
  {
    if |line| >= HEADER_LEN + 2 {
      assert line[HEADER_LEN..|line| - 1][0] == line[HEADER_LEN];
    }
  }

  /** These fields are a count and, behind it, at least as many destinations. */
  predicate Destinations(fields: seq<string>) {
    fields != [] &&
    var count := ParseInt(fields[0]);
    && count.Some? && 0 <= count.value < MAX_INT && count.value < |fields|
    && forall i :: 1 <= i <= count.value ==> ParseJoined(fields[i]).Some?
  }

  lemma {:induction false} IdsParseIff(fields: seq<string>, n: nat)
    requires n <= |fields|
    ensures var ids := ParseIds(fields, n);
            && (ids.Some? <==> forall i :: 0 <= i < n ==> ParseJoined(fields[i]).Some?)
            && (ids.Some? ==> forall i :: 0 <= i < n ==>
                  Some((ids.value[i].key, ids.value[i].id)) == ParseJoined(fields[i]))
  {
    if n > 0 {
      IdsParseIff(fields, n - 1);
    }
  }

  lemma DstsParseIff(fields: seq<string>)
    ensures var dsts := DstsFromStrings(fields);
            && (dsts.Done? <==> Destinations(fields))
            && (dsts.Done? ==> ParseInt(fields[0]) == Some(|dsts.value|))
            && (dsts.Done? ==> forall i :: 0 <= i < |dsts.value| ==>
                  Some((dsts.value[i].key, dsts.value[i].id)) == ParseJoined(fields[i + 1]))
  {
    if fields != [] {
      var count := ParseInt(fields[0]);
      if count.Some? && 0 <= count.value < MAX_INT && count.value < |fields| {
        IdsParseIff(fields[1..], count.value);
        assert forall i :: 1 <= i <= count.value ==> fields[i] == fields[1..][i - 1];
      }
    }
  }

  /** A line is a record exactly if its header can be read and what is between header and message is a count with at
      least as many destinations behind it; more fields than that are passed over. */
  lemma LineParsesIff(line: seq<string>)
    ensures ParseLine(line).Done? <==>
            ParseHeader(line).Some? && |line| > HEADER_LEN && Destinations(line[HEADER_LEN..|line| - 1])
    ensures ParseLine(line).Done? ==>
              var r := ParseLine(line).value;
              && Some(r.header) == ParseHeader(line) && r.msg == line[|line| - 1]
              && ParseInt(line[HEADER_LEN]) == Some(|r.sequenceIds|)
              && forall i :: 0 <= i < |r.sequenceIds| ==>
                   Some((r.sequenceIds[i].key, r.sequenceIds[i].id)) == ParseJoined(line[HEADER_LEN + 1 + i])
  {
    if |line| > HEADER_LEN {
      DstsParseIff(line[HEADER_LEN..|line| - 1]);
    }
  }

  /** A line cut off behind its header, and one with a negative count, are of that kind. */
  lemma DamagedLinePanics(h: Header, msg: string)
    ensures ParseLine(PrintHeader(h)) == Panics
    ensures ParseLine(PrintHeader(h) + ["-1", msg]) == Panics
  {
    HeaderRoundTrip(h, []);
    assert PrintHeader(h) + [] == PrintHeader(h);
    HeaderRoundTrip(h, ["-1", msg]);
    var line := PrintHeader(h) + ["-1", msg];
    assert line[HEADER_LEN..|line| - 1] == ["-1"];
    assert "-1"[1..] == "1" && "1"[..0] == "";
    assert Value("1") == Some(1);
    assert ParseInt("-1") == Some(-1);
  }

  /** A record as its fields: the source with the id of the delivery, client, origin, kind of message, the number of
      destinations, each with the id used there, and the message. */
  lemma FieldsOfRecord(client: string, key: string, msg: string)
    ensures PrintLine(LogLine(Header(Joined("src", 305), client, 3, 0), [Destination(key, 30), Destination("k-1", 3)],
                              msg)) ==
            ["src-305", client, "3", "0", "2", key + "-30", "k-1-3", msg]
  {
    Texts();
    assert Print(3) == "3" && Print(30) == "30" && Print(0) == "0" && Print(2) == "2";
    assert Joined("src", 305) == "src-305" && Joined("k-1", 3) == "k-1-3" && Joined(key, 30) == key + "-30";
    assert PrintIds([Destination(key, 30), Destination("k-1", 3)]) == [key + "-30", "k-1-3"];
  }

  /** Origin and kind of message are cut to a byte. */
  lemma CutToByte(src: string, client: string)
    ensures ParseHeader([src, client, "305", "-305"]) == Some(Header(src, client, 49, 207))
  {
    Texts();
    Signs();
    PrintParses(305);
  }

  method ToString(r: LogLine) returns (recordStr: seq<string>)
    ensures recordStr == PrintLine(r)
  {
    recordStr := PrintHeader(r.header);
    recordStr := recordStr + [Print(|r.sequenceIds|)];
    ghost var before := recordStr;
    for i := 0 to |r.sequenceIds|
      invariant recordStr == before + PrintIds(r.sequenceIds[..i])
    {
      recordStr := recordStr + [Joined(r.sequenceIds[i].key, r.sequenceIds[i].id)];
      assert PrintIds(r.sequenceIds[..i + 1]) ==
             PrintIds(r.sequenceIds[..i]) + [Joined(r.sequenceIds[i].key, r.sequenceIds[i].id)];
    }
    assert r.sequenceIds[..|r.sequenceIds|] == r.sequenceIds;
    recordStr := recordStr + [r.msg];
  }

  /** What a log file gives back: lines that cannot be parsed are left out. None: reading it panics. */
  function Recovered(lines: seq<seq<string>>): Option<seq<LogLine>> {
    if lines == [] then Some([])
    else
      var before := Recovered(lines[..|lines| - 1]);
      if before.None? then None
      else
        match ParseLine(lines[|lines| - 1])
        case Done(r) => Some(before.value + [r])
        case Failed => before
        case Panics => None
  }

  /** Recovery goes down exactly on logs that have a line on which it panics. */
  lemma {:induction false} LogPanicsIff(lines: seq<seq<string>>)
    ensures Recovered(lines).None? <==> exists i :: 0 <= i < |lines| && ParseLine(lines[i]).Panics?
  {
    if lines != [] {
      var init := lines[..|lines| - 1];
      LogPanicsIff(init);
      assert forall i :: 0 <= i < |init| ==> init[i] == lines[i];
    }
  }

  /** A later line does not bring back a process that is down. */
  lemma {:induction false} PanicIsFinal(lines: seq<seq<string>>, i: nat)
    requires i <= |lines| && Recovered(lines[..i]).None?
    ensures Recovered(lines).None?
    decreases |lines|
  {
    if i < |lines| {
      assert lines[..|lines| - 1][..i] == lines[..i];
      PanicIsFinal(lines[..|lines| - 1], i);
    } else {
      assert lines[..i] == lines;
    }
  }

  class Handler {
    var lines: seq<seq<string>>

    constructor ()
      ensures lines == []
    {
      lines := [];
    }

    method Log(r: LogLine)
      requires |r.sequenceIds| < MAX_INT
      modifies this
      ensures lines == old(lines) + [PrintLine(r)]
      ensures Recovered(old(lines)).Some? ==> Recovered(lines) == Some(Recovered(old(lines)).value + [r])
    {
      var recordStr := ToString(r);
      LineRoundTrip(r);
      lines := lines + [recordStr];
      assert lines[..|lines| - 1] == old(lines);
    }

    method Recover() returns (records: Option<seq<LogLine>>)
      ensures records == Recovered(lines)
    {
      var rs: seq<LogLine> := [];
      for i := 0 to |lines|
        invariant Recovered(lines[..i]) == Some(rs)
      {
        assert lines[..i + 1][..i] == lines[..i];
        match ParseLine(lines[i])
        case Failed =>
        case Panics =>
          PanicIsFinal(lines, i + 1);
          return None;
        case Done(r) =>
          rs := rs + [r];
      }
      assert lines[..|lines|] == lines;
      return Some(rs);
    }
  }

  function PrintAll(rs: seq<LogLine>): (lines: seq<seq<string>>)
    ensures |lines| == |rs|
  {
    seq(|rs|, i requires 0 <= i < |rs| => PrintLine(rs[i]))
  }

  /** A log holding nothing but printed records gives back those records, all and in order. */
  lemma {:induction false} LogRoundTrip(rs: seq<LogLine>)
    requires forall r :: r in rs ==> |r.sequenceIds| < MAX_INT
    ensures Recovered(PrintAll(rs)) == Some(rs)
  {
    if rs != [] {
      var init, last := rs[..|rs| - 1], rs[|rs| - 1];
      assert rs == init + [last];
      LogRoundTrip(init);
      assert PrintAll(rs)[..|rs| - 1] == PrintAll(init);
      LineRoundTrip(last);
    }
  }

  // The records of the crash network, in the log's own terms.

  /** How one processed delivery is logged. */
  function Logged(delivery: Envelope<string>, dests: seq<Dest>, clientId: string, originId: uint8,
                  messageId: uint8): LogLine
    requires forall d :: d in dests ==> d.id < 0x1_0000_0000_0000_0000
  {
    LogLine(Header(Joined(delivery.src, delivery.id), clientId, originId, messageId),
            seq(|dests|, i requires 0 <= i < |dests| =>
                assert dests[i] in dests; Destination(dests[i].key, dests[i].id)),
            delivery.body)
  }

  /** The line gives back everything that replaying the delivery needs: its source and id, its client, origin and
      kind, the ids used, the message. */
  lemma RecordRoundTrip(delivery: Envelope<string>, dests: seq<Dest>, clientId: string, originId: uint8,
                        messageId: uint8)
    requires delivery.id < 0x1_0000_0000_0000_0000 && |dests| < MAX_INT
    requires forall d :: d in dests ==> d.id < 0x1_0000_0000_0000_0000
    ensures var parsed := ParseLine(PrintLine(Logged(delivery, dests, clientId, originId, messageId)));
            && parsed.Done?
            && parsed.value.header.clientId == clientId
            && parsed.value.header.originId == originId && parsed.value.header.messageId == messageId
            && ParseJoined(parsed.value.header.sequenceId) == Some((delivery.src, delivery.id))
            && parsed.value.msg == delivery.body
            && |parsed.value.sequenceIds| == |dests|
            && forall i :: 0 <= i < |dests| ==> parsed.value.sequenceIds[i].key == dests[i].key &&
                                                parsed.value.sequenceIds[i].id == dests[i].id
  {
    LineRoundTrip(Logged(delivery, dests, clientId, originId, messageId));
    JoinedRoundTrip(delivery.src, delivery.id);
  }
}
