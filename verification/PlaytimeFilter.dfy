/** The playtime node: one heap per client, published and dropped at the client's EOF. */
module PlaytimeFilter {
  import opened Messages
  import opened Protocol
  import opened Batches
  import opened Bytes
  import opened EofRing
  import Heap
  import opened Playtime
  import opened TopVotes
  import CrashNetwork

  datatype Message = Games(client: string, releases: seq<Release>) | Eof(client: string, visited: seq<byte>) | Unknown

  datatype Output = Longest(client: string, releases: seq<Release>) | EofOut(client: string, step: EofStep)

  type Heaps = map<string, seq<Release>>

  function HeapOf(heaps: Heaps, client: string): seq<Release> {
    if client in heaps then heaps[client] else []
  }

  /** The heaps after a message; publishing makes no difference to them. */
  function NextHeaps(n: nat, id: byte, heaps: Heaps, msg: Message): Heaps
    requires n > 0
  {
    match msg
    case Games(c, releases) => heaps[c := OfferAll(n, HeapOf(heaps, c), releases)]
    case Eof(c, visited) => if id in visited then heaps else heaps - {c}
    case Unknown => heaps
  }

  /** The answer to a message; sorted is the client's heap as the library sorts it. */
  function Outputs(id: byte, peers: byte, agg: bool, heaps: Heaps, msg: Message, sorted: seq<Release>, recovery: bool)
    : seq<Output>
  {
    if !msg.Eof? || recovery then []
    else
      (if msg.client in heaps && id !in msg.visited then [Longest(msg.client, sorted)] else [])
      + if agg then [] else [EofOut(msg.client, HandleEof(id, peers, msg.visited))]
  }

  /** sorted is what the library's sort may make of the heap that a message publishes, if it publishes one. */
  ghost predicate SortOf(sorted: seq<Release>, id: byte, heaps: Heaps, msg: Message) {
    msg.Eof? && id !in msg.visited && msg.client in heaps ==>
      LongestFirst(sorted) && multiset(sorted) == multiset(heaps[msg.client])
  }

  ghost predicate HeapsOk(n: nat, heaps: Heaps) {
    forall c :: c in heaps ==> Heap.IsHeap(Less, heaps[c]) && |heaps[c]| <= n
  }

  lemma {:induction false} OfferedStaysHeap(n: nat, h: seq<Release>, xs: seq<Release>)
    requires n > 0 && Heap.IsHeap(Less, h) && |h| <= n
    ensures Heap.IsHeap(Less, OfferAll(n, h, xs)) && |OfferAll(n, h, xs)| <= n
  {
    if |xs| > 0 {
      var init := xs[..|xs| - 1];
      OfferedStaysHeap(n, h, init);
      var before := OfferAll(n, h, init);
      LessOrders();
      Heap.PushedOk(Less, before, xs[|xs| - 1]);
      if |before| >= n {
        Heap.PoppedOk(Less, before);
        Heap.PushedOk(Less, Heap.Popped(Less, before), xs[|xs| - 1]);
      }
    }
  }

  lemma OneHeapOk(n: nat, heaps: Heaps, client: string, releases: seq<Release>)
    requires n > 0 && HeapsOk(n, heaps)
    ensures HeapsOk(n, heaps[client := OfferAll(n, HeapOf(heaps, client), releases)])
  {
    LessOrders();
    OfferedStaysHeap(n, HeapOf(heaps, client), releases);
  }

  class Filter {
    const n: byte
    const id: byte
    const peers: byte
    const agg: bool
    var clientHeaps: Heaps

    ghost predicate Valid()
      reads this
    {
      n > 0 && HeapsOk(n as int, clientHeaps)
    }

    constructor (n: byte, id: byte, peers: byte, agg: bool)
      requires n > 0
      ensures Valid() && clientHeaps == map[]
      ensures this.n == n && this.id == id && this.peers == peers && this.agg == agg
    {
      this.n, this.id, this.peers, this.agg := n, id, peers, agg;
      clientHeaps := map[];
    }

    method ProcessGame(releases: seq<Release>, client: string)
      requires Valid()
      modifies this
      ensures Valid() && clientHeaps == NextHeaps(n as int, id, old(clientHeaps), Games(client, releases))
    {
      OneHeapOk(n as int, clientHeaps, client, releases);
      if client !in clientHeaps {
        clientHeaps := clientHeaps[client := []];
      }
      var clientHeap := new Heap.PriorityQueue(Less, clientHeaps[client]);
      UpdateReleases(clientHeap, releases, n as int);
      clientHeaps := clientHeaps[client := clientHeap.items];
      assert clientHeaps == old(clientHeaps)[client := clientHeap.items];
    }

    /** The client's heap is published on the worker's first sight of the EOF; an aggregator keeps the EOF. */
    method ProcessEof(client: string, visited: seq<byte>, recovery: bool)
      returns (outs: seq<Output>, ghost sorted: seq<Release>)
      requires Valid()
      modifies this
      ensures Valid() && clientHeaps == NextHeaps(n as int, id, old(clientHeaps), Eof(client, visited))
      ensures outs == Outputs(id, peers, agg, old(clientHeaps), Eof(client, visited), sorted, recovery)
      ensures !recovery ==> SortOf(sorted, id, old(clientHeaps), Eof(client, visited))
    {
      outs, sorted := [], [];
      var seen := Contains(visited, id);
      if !seen {
        if !recovery && client in clientHeaps {
          var top := TopNReleases(clientHeaps[client], n as int);
          outs, sorted := [Longest(client, top)], top;
        }
        clientHeaps := clientHeaps - {client};
      }
      if !agg && !recovery {
        var step := HandleEofMessage(id, peers, visited);
        outs := outs + [EofOut(client, step)];
      }
    }

    method Process(msg: Message, recovery: bool) returns (outs: seq<Output>, ghost sorted: seq<Release>)
      requires Valid()
      modifies this
      ensures Valid() && clientHeaps == NextHeaps(n as int, id, old(clientHeaps), msg)
      ensures outs == Outputs(id, peers, agg, old(clientHeaps), msg, sorted, recovery)
      ensures !recovery ==> SortOf(sorted, id, old(clientHeaps), msg)
    {
      outs, sorted := [], [];
      match msg
      case Games(client, releases) =>
        ProcessGame(releases, client);
      case Eof(client, visited) =>
        outs, sorted := ProcessEof(client, visited, recovery);
      case Unknown =>
    }
  }

  // Whole streams of messages, of any clients.

  /** The heaps after these messages. */
  function HeapsAfter(n: nat, id: byte, msgs: seq<Message>): Heaps
    requires n > 0
  {
    if msgs == [] then map[]
    else NextHeaps(n, id, HeapsAfter(n, id, msgs[..|msgs| - 1]), msgs[|msgs| - 1])
  }

  /** What a client has sent since this worker first saw its EOF, if anything. */
  function Since(id: byte, msgs: seq<Message>, client: string): Option<seq<Release>> {
    if msgs == [] then None
    else
      var before, last := Since(id, msgs[..|msgs| - 1], client), msgs[|msgs| - 1];
      if last == Unknown || last.client != client then before
      else if last.Games? then Some((if before.Some? then before.value else []) + last.releases)
      else if id in last.visited then before
      else None
  }

  /** A client's heap is what its releases since then leave. */
  lemma {:induction false} HeldSince(n: nat, id: byte, msgs: seq<Message>, client: string)
    requires n > 0
    ensures var heaps, since := HeapsAfter(n, id, msgs), Since(id, msgs, client);
            && (client in heaps <==> since.Some?)
            && (since.Some? ==> heaps[client] == OfferAll(n, [], since.value))
  {
    if msgs != [] {
      var init, last := msgs[..|msgs| - 1], msgs[|msgs| - 1];
      HeldSince(n, id, init, client);
      if last.Games? && last.client == client {
        var before := Since(id, init, client);
        BatchesConcatenate(n, [], if before.Some? then before.value else [], last.releases);
      }
    }
  }

  /** When and what the node publishes, whatever the order of messages and clients: on the worker's first sight of a
      client's EOF, the n longest playtimes of all that the client has sent since the one before, if it has sent
      anything. Behind it the EOF goes on round the ring, unless the node aggregates. Nothing else is answered. */
  lemma PublishedOnFirstSight(n: nat, id: byte, peers: byte, agg: bool, msgs: seq<Message>, msg: Message,
                              sorted: seq<Release>)
    requires n > 0 && SortOf(sorted, id, HeapsAfter(n, id, msgs), msg)
    ensures var outs := Outputs(id, peers, agg, HeapsAfter(n, id, msgs), msg, sorted, false);
            if !msg.Eof? then outs == []
            else
              var since := if id in msg.visited then None else Since(id, msgs, msg.client);
              && outs == (if since.Some? then [Longest(msg.client, sorted)] else []) +
                         (if agg then [] else [EofOut(msg.client, HandleEof(id, peers, msg.visited))])
              && (since.Some? ==> Ranking(n, Playtimes(sorted), multiset(Playtimes(since.value))) &&
                                  multiset(sorted) <= multiset(since.value))
    ensures Outputs(id, peers, agg, HeapsAfter(n, id, msgs), msg, sorted, true) == []
  {
    if msg.Eof? {
      HeldSince(n, id, msgs, msg.client);
      var since := Since(id, msgs, msg.client);
      if id !in msg.visited && since.Some? {
        PublishedIsExact(n, since.value, sorted);
      }
    }
  }

  /** What a filter that has received these batches of a client publishes at the client's EOF: the n
      longest of all playtimes, from the longest down. */
  method PublishedForClient(n: byte, id: byte, peers: byte, agg: bool, client: string, batches: seq<seq<Release>>)
    returns (outs: seq<Output>)
    requires n > 0
    ensures |outs| == (if batches == [] then 0 else 1) + if agg then 0 else 1
    ensures batches != [] ==>
              && outs[0].Longest? && outs[0].client == client
              && Ranking(n as int, Playtimes(outs[0].releases), multiset(Playtimes(Concat(batches))))
              && multiset(outs[0].releases) <= multiset(Concat(batches))
    ensures !agg ==> outs[|outs| - 1] == EofOut(client, HandleEof(id, peers, []))
  {
    var f := new Filter(n, id, peers, agg);
    for i := 0 to |batches|
      invariant f.Valid() && fresh(f) && f.n == n && f.id == id && f.peers == peers && f.agg == agg
      invariant client in f.clientHeaps <==> i > 0
      invariant HeapOf(f.clientHeaps, client) == OfferAll(n as int, [], Concat(batches[..i]))
    {
      var _, _ := f.Process(Games(client, batches[i]), false);
      assert batches[..i + 1][..i] == batches[..i];
      BatchesConcatenate(n as int, [], Concat(batches[..i]), batches[i]);
    }
    assert batches[..|batches|] == batches;
    ghost var sorted;
    outs, sorted := f.Process(Eof(client, []), false);
    if batches != [] {
      PublishedIsExact(n as int, Concat(batches), sorted);
    }
  }

  datatype Body = In(msg: Message) | Sent(out: Output)

  /** The node as the crash network runs it. The library sort is a parameter. */
  function AsNode(n: nat, id: byte, peers: byte, agg: bool, key: string, sort: seq<Release> -> seq<Release>)
    : CrashNetwork.Node<Heaps, Body>
    requires n > 0
  {
    CrashNetwork.Node(
      map[],
      (heaps: Heaps, e: Envelope<Body>) =>
        if e.body.In? then
          var msg := e.body.msg;
          (NextHeaps(n, id, heaps, msg),
           AsOuts(key, Outputs(id, peers, agg, heaps, msg, Sorted(heaps, msg, sort), false)))
        else (heaps, []),
      (heaps: Heaps, e: Envelope<Body>) => if e.body.In? then NextHeaps(n, id, heaps, e.body.msg) else heaps)
  }

  function Sorted(heaps: Heaps, msg: Message, sort: seq<Release> -> seq<Release>): seq<Release> {
    if msg.Eof? then sort(HeapOf(heaps, msg.client)) else []
  }

  function AsOuts(key: string, outs: seq<Output>): seq<Out<Body>> {
    seq(|outs|, i requires 0 <= i < |outs| => Out(key, Sent(outs[i])))
  }

  /** The node publishes its answers in order, under its one key. */
  lemma PublishesAnswers(n: nat, id: byte, peers: byte, agg: bool, key: string, sort: seq<Release> -> seq<Release>,
                         heaps: Heaps, e: Envelope<Body>, i: nat)
    requires n > 0 && e.body.In?
    ensures var sorted := if e.body.msg.Eof? then sort(HeapOf(heaps, e.body.msg.client)) else [];
            var answers := Outputs(id, peers, agg, heaps, e.body.msg, sorted, false);
            var (heaps', outs) := AsNode(n, id, peers, agg, key, sort).process(heaps, e);
            && heaps' == NextHeaps(n, id, heaps, e.body.msg) && |outs| == |answers|
            && (i < |outs| ==> outs[i] == Out(key, Sent(answers[i])))
  {
  }

  lemma ReplayIsFaithful(n: nat, id: byte, peers: byte, agg: bool, key: string, sort: seq<Release> -> seq<Release>)
    requires n > 0
    ensures CrashNetwork.ReplayFaithful(AsNode(n, id, peers, agg, key, sort))
  {
  }
}
