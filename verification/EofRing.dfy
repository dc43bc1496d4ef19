/** The token that closes a client's data at one stage: internal/worker/worker.go:208-283. */
module EofRing {
  import opened Bytes

  /** What a worker does with an EOF: pass it to a peer with the list of workers that have seen it, or
      release it to the stage's outputs. */
  datatype EofStep = Forward(to: byte, visited: seq<byte>) | Release

  /** The linear search of pkg/message/eof.go:41-48. */
  method Contains(visited: seq<byte>, v: byte) returns (found: bool)
    ensures found <==> v in visited
  {
    for i := 0 to |visited|
      invariant v !in visited[..i]
    {
      if visited[i] == v {
        return true;
      }
    }
    return false;
  }

  function Visit(id: byte, visited: seq<byte>): seq<byte> {
    if id in visited then visited else visited + [id]
  }

  function HandleEof(id: byte, peers: byte, visited: seq<byte>): EofStep {
    var seen := Visit(id, visited);
    if |seen| % 256 < peers as int then Forward(((id as int + 1) % 256) as byte, seen) else Release
  }

  method HandleEofMessage(id: byte, peers: byte, visited: seq<byte>) returns (step: EofStep)
    ensures step == HandleEof(id, peers, visited)
  {
    var workersVisited := visited;
    var seen := Contains(workersVisited, id);
    if !seen {
      workersVisited := workersVisited + [id];
    }
    if |workersVisited| % 256 < peers as int {
      return Forward(((id as int + 1) % 256) as byte, workersVisited);
    }
    return Release;
  }

  /** Seen once more or twice, the worker is on the list once; and the EOF is passed on exactly if the list then names
      fewer workers than there are peers. */
  lemma ListedOnce(id: byte, peers: byte, visited: seq<byte>)
    requires NoRepeats(visited) && |visited| < 256
    ensures var step, workers := HandleEof(id, peers, visited), (set v | v in visited) + {id};
            && (|workers| < 256 ==> (step.Forward? <==> |workers| < peers as int))
            && (step.Forward? ==> NoRepeats(step.visited) && (set v | v in step.visited) == workers)
  {
    var seen := Visit(id, visited);
    assert (set v | v in seen) == (set v | v in visited) + {id};
    Distinct(seen);
  }

  lemma {:induction false} Distinct<T>(s: seq<T>)
    requires NoRepeats(s)
    ensures |set x | x in s| == |s|
  {
    if s != [] {
      var init, last := s[..|s| - 1], s[|s| - 1];
      Distinct(init);
      assert s == init + [last];
      assert (set x | x in s) == (set x | x in init) + {last};
    }
  }

  /** first, first + 1, ..., last - 1. */
  function Span(first: nat, last: nat): (r: seq<byte>)
    requires first <= last <= 256
    ensures |r| == last - first
    ensures forall i :: 0 <= i < |r| ==> r[i] as int == first + i
  {
    seq(last - first, i requires 0 <= i < last - first => (first + i) as byte)
  }

  /** A token that entered at worker first and was passed on peer by peer has been seen by exactly the
      workers in between; it is released only by the last peer, and only if it entered at worker 0. */
  lemma RingStep(first: nat, id: byte, peers: byte)
    requires first <= id as int < peers as int
    ensures HandleEof(id, peers, Span(first, id as int)) ==
            if first == 0 && id as int == peers as int - 1 then Release
            else Forward(((id as int + 1) % 256) as byte, Span(first, id as int + 1))
  {
    assert id !in Span(first, id as int);
    assert Span(first, id as int) + [id] == Span(first, id as int + 1);
  }

  /** The workers a token visits from worker id on, and whether the stage releases it in the end. A key
      past the last peer is bound to no queue. */
  function Walk(id: byte, peers: byte, visited: seq<byte>): (r: (seq<byte>, bool))
    requires id < peers
    decreases peers as int - id as int
  {
    match HandleEof(id, peers, visited)
    case Release => ([id], true)
    case Forward(to, seen) =>
      if id < to < peers then
        var (rest, released) := Walk(to, peers, seen);
        ([id] + rest, released)
      else ([id], false)
  }

  /** Entering at worker entry, the token visits entry, entry + 1, ..., peers - 1 once each, and is
      released if and only if entry is 0. */
  lemma RingReleasedIffEntersAtZero(entry: byte, peers: byte)
    requires entry < peers
    ensures Walk(entry, peers, []) == (Span(entry as int, peers as int), entry == 0)
  {
    assert Span(entry as int, entry as int) == [];
    WalkFrom(entry as int, entry, peers);
  }

  lemma {:induction false} WalkFrom(first: nat, id: byte, peers: byte)
    requires first <= id as int < peers as int
    ensures Walk(id, peers, Span(first, id as int)) == (Span(id as int, peers as int), first == 0)
    decreases peers as int - id as int
  {
    RingStep(first, id, peers);
    if id as int < peers as int - 1 {
      assert HandleEof(id, peers, Span(first, id as int)) == Forward(id + 1, Span(first, id as int + 1));
      WalkFrom(first, id + 1, peers);
      assert [id] + Span(id as int + 1, peers as int) == Span(id as int, peers as int);
    } else {
      assert [id] == Span(id as int, peers as int);
    }
  }

  /** A stage without peers releases an empty EOF at once. */
  lemma NoPeersReleases(id: byte)
    ensures HandleEof(id, 0, []) == Release
  {
  }

  /** An output of a stage: internal/worker/init.go:98-130. A non-scalable output has no consumers. */
  datatype Output = Output(consumers: byte, single: bool)

  /** Where an EOF goes: an output of the stage and one of its queues. */
  datatype Target = Target(output: nat, queue: nat)

  predicate IsEofTarget(outputs: seq<Output>, t: Target) {
    t.output < |outputs| &&
    var o := outputs[t.output];
    if o.consumers == 0 then t.queue == 0
    else t.queue < o.consumers as int && (!o.single || t.queue == 0)
  }

  ghost predicate NoRepeats<T>(s: seq<T>) {
    forall i, j :: 0 <= i < j < |s| ==> s[i] != s[j]
  }

  /** initOutputQueues: every EOF destination of the stage, each exactly once. */
  method InitOutputQueues(outputs: seq<Output>) returns (outputsEof: seq<Target>)
    ensures forall t :: t in outputsEof <==> IsEofTarget(outputs, t)
    ensures NoRepeats(outputsEof)
  {
    outputsEof := [];
    for i := 0 to |outputs|
      invariant forall t :: t in outputsEof <==> t.output < i && IsEofTarget(outputs, t)
      invariant NoRepeats(outputsEof)
    {
      if outputs[i].consumers == 0 {
        outputsEof := outputsEof + [Target(i, 0)];
      } else {
        for j := 0 to outputs[i].consumers
          invariant forall t :: t in outputsEof <==>
                      IsEofTarget(outputs, t) && (t.output < i || (t.output == i && t.queue < j as int))
          invariant NoRepeats(outputsEof)
        {
          if !outputs[i].single || j == 0 {
            outputsEof := outputsEof + [Target(i, j as int)];
          }
        }
      }
    }
  }
}
