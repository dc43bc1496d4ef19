/** The percentile aggregator: internal/worker/aggregator/percentile.go. */
module PercentileAggregator {
  import opened Protocol
  import opened Messages
  import opened EofCounts
  import opened Aggregator
  import opened Batches
  import opened TopN
  import Bags
  import CrashNetwork

  /** No entry comes after a greater one, by votes and then by game id. */
  ghost predicate Sorted(s: seq<ScoredReview>) {
    forall i, j :: 0 <= i < j < |s| ==> NotAbove(s[i], s[j])
  }

  predicate NotAbove(a: ScoredReview, b: ScoredReview) {
    a.votes < b.votes || (a.votes == b.votes && a.gameId <= b.gameId)
  }

  /** The cut-off index, in exact arithmetic. */
  function PercentileIdx(n: nat, length: nat): nat
    requires length > 0
  {
    var idx := n * length / 100;
    if idx >= length then length - 1 else idx
  }

  /** An entry can be put where everything before it is not above it and the next one is not below it. */
  lemma InsertedSorted(s: seq<ScoredReview>, x: ScoredReview, i: nat, a: nat, b: nat)
    requires Sorted(s) && i <= |s| && a < b <= |s|
    requires i > 0 ==> !Less(x, s[i - 1])
    requires i < |s| ==> Less(x, s[i])
    ensures var r := s[..i] + [x] + s[i..]; NotAbove(r[a], r[b])
  {
    var r := s[..i] + [x] + s[i..];
    if b == i {
      assert r[a] == s[a] && (a < i - 1 ==> NotAbove(s[a], s[i - 1]));
    } else if a == i {
      assert r[b] == s[b - 1] && (i < b - 1 ==> NotAbove(s[i], s[b - 1]));
    } else {
      assert r[a] == (if a < i then s[a] else s[a - 1]) && r[b] == if b < i then s[b] else s[b - 1];
    }
  }

  lemma InsertedThere(s: seq<ScoredReview>, x: ScoredReview, i: nat)
    requires Sorted(s) && i <= |s|
    requires i > 0 ==> !Less(x, s[i - 1])
    requires i < |s| ==> Less(x, s[i])
    ensures var r := s[..i] + [x] + s[i..]; Sorted(r) && multiset(r) == multiset(s) + multiset{x}
  {
    var r := s[..i] + [x] + s[i..];
    Bags.Inserted(s, x, i);
    forall a, b | 0 <= a < b < |r|
      ensures NotAbove(r[a], r[b])
    {
      InsertedSorted(s, x, i, a, b);
    }
  }

  method Insert(s: seq<ScoredReview>, x: ScoredReview) returns (r: seq<ScoredReview>)
    requires Sorted(s)
    ensures Sorted(r) && multiset(r) == multiset(s) + multiset{x}
  {
    var i := 0;
    while i < |s| && !Less(x, s[i])
      invariant 0 <= i <= |s|
      invariant i > 0 ==> !Less(x, s[i - 1])
    {
      i := i + 1;
    }
    r := s[..i] + [x] + s[i..];
    InsertedThere(s, x, i);
  }

  /** Sorting upwards by votes, ties by game id. */
  method Sort(s: seq<ScoredReview>) returns (r: seq<ScoredReview>)
    ensures Sorted(r) && multiset(r) == multiset(s)
  {
    r := [];
    for i := 0 to |s|
      invariant Sorted(r) && multiset(r) == multiset(s[..i])
    {
      r := Insert(r, s[i]);
      assert s[..i + 1] == s[..i] + [s[i]];
    }
    assert s[..|s|] == s;
  }

  /** kept is the part of some sorted arrangement of all that starts at the cut-off index. */
  ghost predicate IsPercentile(n: nat, kept: seq<ScoredReview>, all: seq<ScoredReview>) {
    exists sorted :: IsCut(n, kept, all, sorted)
  }

  ghost predicate IsCut(n: nat, kept: seq<ScoredReview>, all: seq<ScoredReview>, sorted: seq<ScoredReview>) {
    |all| > 0 && |sorted| == |all| && Sorted(sorted) && multiset(sorted) == multiset(all) &&
    kept == sorted[PercentileIdx(n, |all|)..]
  }

  /** Every list has a sorted arrangement, and so a percentile. */
  lemma {:induction false} SomeSorted(s: seq<ScoredReview>) returns (r: seq<ScoredReview>)
    ensures Sorted(r) && multiset(r) == multiset(s)
  {
    if s == [] {
      r := [];
    } else {
      var init := SomeSorted(s[..|s| - 1]);
      var x := s[|s| - 1];
      assert s == s[..|s| - 1] + [x];
      var i := Place(init, x, |init|);
      r := init[..i] + [x] + init[i..];
      InsertedThere(init, x, i);
    }
  }

  /** Where x goes among the first n. */
  lemma {:induction false} Place(s: seq<ScoredReview>, x: ScoredReview, n: nat) returns (i: nat)
    requires Sorted(s) && n <= |s| && (n < |s| ==> Less(x, s[n]))
    ensures i <= n && (i > 0 ==> !Less(x, s[i - 1])) && (i < |s| ==> Less(x, s[i]))
  {
    if n == 0 || !Less(x, s[n - 1]) {
      i := n;
    } else {
      i := Place(s, x, n - 1);
    }
  }

  lemma SomePercentile(n: nat, all: seq<ScoredReview>) returns (kept: seq<ScoredReview>)
    requires all != []
    ensures IsPercentile(n, kept, all)
  {
    var sorted := SomeSorted(all);
    assert |multiset(sorted)| == |sorted| && |multiset(all)| == |all|;
    kept := sorted[PercentileIdx(n, |all|)..];
    assert IsCut(n, kept, all, sorted);
  }

  datatype NodeState = NodeState(reviews: map<string, seq<ScoredReview>>, eofs: map<string, nat>)

  datatype Body =
    | Reviews(client: string, reviews: seq<ScoredReview>)
    | Eof(client: string)
    | Other
    | Batch(client: string, reviews: seq<ScoredReview>)
    | EofOut(client: string)

  /** Publishing sorts the client's entries, but the reset that follows drops them. */
  function Processed(expected: nat, st: NodeState, msg: Body): NodeState {
    match msg
    case Reviews(c, r) => st.(reviews := Saved(st.reviews, r, c))
    case Eof(c) =>
      if Counted(st.eofs, c) >= expected then NodeState(st.reviews - {c}, st.eofs - {c})
      else st.(eofs := st.eofs[c := Counted(st.eofs, c)])
    case _ => st
  }

  function BatchesFor(client: string, batches: seq<seq<ScoredReview>>): seq<Body> {
    seq(|batches|, i requires 0 <= i < |batches| => Batch(client, batches[i]))
  }

  /** The message brings the client's count to the EOFs expected. */
  predicate LastEof(expected: nat, st: NodeState, msg: Body) {
    msg.Eof? && Counted(st.eofs, msg.client) >= expected
  }

  /** The answer to a message; sorted is the list of the client's entries as the library sorts it. */
  function Outputs(n: nat, batchSize: nat, expected: nat, st: NodeState, msg: Body, sorted: seq<ScoredReview>,
                   recovery: bool): seq<Body>
    requires batchSize > 0
  {
    if !LastEof(expected, st, msg) || recovery then []
    else if msg.client !in st.reviews || sorted == [] then [EofOut(msg.client)]
    else BatchesFor(msg.client, CutOf(sorted[PercentileIdx(n, |sorted|)..], batchSize)) + [EofOut(msg.client)]
  }

  /** sorted is what the library's sort may make of the entries that a message publishes, if it publishes any. */
  ghost predicate SortOf(sorted: seq<ScoredReview>, expected: nat, st: NodeState, msg: Body) {
    LastEof(expected, st, msg) && msg.client in st.reviews ==>
      Sorted(sorted) && multiset(sorted) == multiset(st.reviews[msg.client])
  }

  /** No entries to take a percentile of: the cut-off index would be -1. */
  predicate Panics(expected: nat, st: NodeState, msg: Body, recovery: bool) {
    LastEof(expected, st, msg) && !recovery && msg.client in st.reviews && st.reviews[msg.client] == []
  }

  class Node {
    const n: nat
    const batchSize: nat
    const agg: EofCounter
    var scoredReviews: map<string, seq<ScoredReview>>

    constructor (n: nat, batchSize: nat, expectedEofs: nat)
      ensures this.n == n && this.batchSize == batchSize && fresh(agg)
      ensures agg.expectedEofs == expectedEofs && agg.eofsRecv == map[] && scoredReviews == map[]
    {
      this.n, this.batchSize := n, batchSize;
      agg := new EofCounter(expectedEofs);
      scoredReviews := map[];
    }

    method Save(reviews: seq<ScoredReview>, client: string)
      modifies this
      ensures scoredReviews == Saved(old(scoredReviews), reviews, client)
    {
      if client !in scoredReviews {
        scoredReviews := scoredReviews[client := []];
      }
      scoredReviews := scoredReviews[client := scoredReviews[client] + reviews];
    }

    /** The client's entries are sorted in place; those from the cut-off on are returned. */
    method GetGamesInPercentile(client: string) returns (games: Option<seq<ScoredReview>>)
      requires client in scoredReviews ==> scoredReviews[client] != []
      modifies this
      ensures games.Some? <==> client in old(scoredReviews)
      ensures games.Some? ==> client in scoredReviews
      ensures games.Some? ==> IsCut(n, games.value, old(scoredReviews)[client], scoredReviews[client])
      ensures scoredReviews - {client} == old(scoredReviews) - {client}
      ensures games.None? ==> scoredReviews == old(scoredReviews)
    {
      if client !in scoredReviews {
        return None;
      }
      var reviews := Sort(scoredReviews[client]);
      assert |multiset(reviews)| == |multiset(scoredReviews[client])|;
      assert |reviews| == |scoredReviews[client]|;
      ghost var all := scoredReviews[client];
      scoredReviews := scoredReviews[client := reviews];
      assert scoredReviews - {client} == old(scoredReviews) - {client};
      var idx := PercentileIdx(n, |reviews|);
      assert IsCut(n, reviews[idx..], all, reviews);
      return Some(reviews[idx..]);
    }

    function NextBatch(data: seq<ScoredReview>, start: nat): (r: (seq<ScoredReview>, nat))
      requires start <= |data|
    {
      var end := if start + batchSize > |data| then |data| else start + batchSize;
      (data[start..end], end)
    }

    method SendBatches(msg: seq<ScoredReview>) returns (published: seq<seq<ScoredReview>>)
      requires batchSize > 0
      ensures Concat(published) == msg && Cut(published, batchSize)
    {
      published := [];
      var start := 0;
      while start < |msg|
        invariant start <= |msg| && Concat(published) == msg[..start]
        invariant Cut(published, batchSize)
        invariant start < |msg| ==> forall i :: 0 <= i < |published| ==> |published[i]| == batchSize
      {
        var (batch, nextStart) := NextBatch(msg, start);
        ConcatSnoc(published, batch);
        assert msg[..nextStart] == msg[..start] + batch;
        published := published + [batch];
        start := nextStart;
      }
      assert msg[..start] == msg;
    }

    function Contents(): NodeState
      reads this, agg
    {
      NodeState(scoredReviews, agg.eofsRecv)
    }

    method ProcessEof(client: string, recovery: bool) returns (outs: seq<Body>, ghost sorted: seq<ScoredReview>)
      requires batchSize > 0 && !Panics(agg.expectedEofs, Contents(), Eof(client), recovery)
      modifies this, agg
      ensures Contents() == Processed(agg.expectedEofs, old(Contents()), Eof(client))
      ensures outs == Outputs(n, batchSize, agg.expectedEofs, old(Contents()), Eof(client), sorted, recovery)
      ensures !recovery ==> SortOf(sorted, agg.expectedEofs, old(Contents()), Eof(client))
    {
      outs, sorted := [], [];
      var reached := agg.Count(client);
      if reached {
        if !recovery {
          var games := GetGamesInPercentile(client);
          if games.Some? {
            sorted := scoredReviews[client];
            var published := SendBatches(games.value);
            OneCut(published, batchSize);
            outs := BatchesFor(client, published);
          }
          outs := outs + [EofOut(client)];
        }
        scoredReviews := scoredReviews - {client};
        assert scoredReviews == old(scoredReviews) - {client};
      }
    }

    method Process(msg: Body, recovery: bool) returns (outs: seq<Body>, ghost sorted: seq<ScoredReview>)
      requires batchSize > 0 && !Panics(agg.expectedEofs, Contents(), msg, recovery)
      modifies this, agg
      ensures Contents() == Processed(agg.expectedEofs, old(Contents()), msg)
      ensures outs == Outputs(n, batchSize, agg.expectedEofs, old(Contents()), msg, sorted, recovery)
      ensures !recovery ==> SortOf(sorted, agg.expectedEofs, old(Contents()), msg)
    {
      outs, sorted := [], [];
      match msg
      case Reviews(c, r) => Save(r, c);
      case Eof(c) => outs, sorted := ProcessEof(c, recovery);
      case _ =>
    }
  }

  function Saved(all: map<string, seq<ScoredReview>>, reviews: seq<ScoredReview>, client: string)
    : map<string, seq<ScoredReview>>
  {
    all[client := (if client in all then all[client] else []) + reviews]
  }

  // The result does not depend on the order of arrival.

  lemma LeastFirst(s: seq<ScoredReview>, t: seq<ScoredReview>)
    requires Sorted(s) && Sorted(t) && multiset(s) == multiset(t) && |s| > 0 && |t| > 0
    ensures NotAbove(s[0], t[0])
  {
    assert t[0] in multiset(s);
    var i :| 0 <= i < |s| && s[i] == t[0];
  }

  lemma SameFirst(s: seq<ScoredReview>, t: seq<ScoredReview>)
    requires Sorted(s) && Sorted(t) && multiset(s) == multiset(t) && OneEntryEach(s) && |s| > 0 && |t| > 0
    ensures s[0] == t[0]
  {
    LeastFirst(s, t);
    LeastFirst(t, s);
    assert t[0] in multiset(s);
    var i :| 0 <= i < |s| && s[i] == t[0];
  }

  /** Distinct games have one sorted arrangement. */
  lemma {:induction false} SortedIsUnique(s: seq<ScoredReview>, t: seq<ScoredReview>)
    requires Sorted(s) && Sorted(t) && multiset(s) == multiset(t) && OneEntryEach(s)
    ensures s == t
    decreases |s|
  {
    assert |multiset(s)| == |s| && |multiset(t)| == |t|;
    if |s| > 0 {
      SameFirst(s, t);
      Bags.SameTail(s, t);
      SortedIsUnique(s[1..], t[1..]);
      assert s == [s[0]] + s[1..] && t == [t[0]] + t[1..];
    }
  }

  /** The percentile of distinct games is the same for any order of arrival and any batching. */
  lemma PercentileIsOrderIndependent(n: nat, a: seq<ScoredReview>, b: seq<ScoredReview>,
                                     keptA: seq<ScoredReview>, keptB: seq<ScoredReview>)
    requires IsPercentile(n, keptA, a) && IsPercentile(n, keptB, b)
    requires multiset(a) == multiset(b) && OneEntryEach(a)
    ensures keptA == keptB
  {
    var s: seq<ScoredReview> :| IsCut(n, keptA, a, s);
    var t: seq<ScoredReview> :| IsCut(n, keptB, b, t);
    forall i, j | 0 <= i < j < |s|
      ensures s[i].gameId != s[j].gameId
    {
      OneEntryReordered(a, s, i, j);
    }
    SortedIsUnique(s, t);
  }

  lemma DroppedShare(n: nat, length: nat)
    requires length > 0
    ensures var idx := PercentileIdx(n, length);
            if n < 100 then idx * 100 <= n * length < idx * 100 + 100 else idx == length - 1
  {
    if n < 100 {
      assert n * length < 100 * length;
    } else {
      assert n * length >= 100 * length;
    }
  }

  lemma KeptEntryNotBelow(n: nat, kept: seq<ScoredReview>, all: seq<ScoredReview>, sorted: seq<ScoredReview>,
                          k: ScoredReview, d: ScoredReview)
    requires IsCut(n, kept, all, sorted)
    requires k in kept && d in sorted[..PercentileIdx(n, |all|)]
    ensures NotAbove(d, k)
  {
    var idx := PercentileIdx(n, |all|);
    var i :| 0 <= i < |kept| && kept[i] == k;
    var j :| 0 <= j < idx && sorted[..idx][j] == d;
    assert sorted[idx + i] == k && sorted[j] == d;
  }

  /** What is kept is never empty, is part of what arrived, and is nowhere below what is dropped. What is dropped is n
      hundredths of the entries, rounded down, but never the last one. */
  lemma KeptAboveDropped(n: nat, kept: seq<ScoredReview>, all: seq<ScoredReview>)
    requires IsPercentile(n, kept, all)
    ensures kept != [] && multiset(kept) <= multiset(all)
    ensures var dropped := |all| - |kept|;
            if n < 100 then dropped * 100 <= n * |all| < dropped * 100 + 100 else dropped == |all| - 1
    ensures forall k, d :: k in multiset(kept) && d in multiset(all) - multiset(kept) ==> NotAbove(d, k)
  {
    DroppedShare(n, |all|);
    var s: seq<ScoredReview> :| IsCut(n, kept, all, s);
    var dropped := s[..PercentileIdx(n, |all|)];
    assert s == dropped + kept;
    assert multiset(all) - multiset(kept) == multiset(dropped);
    forall k, d | k in multiset(kept) && d in multiset(dropped)
      ensures NotAbove(d, k)
    {
      KeptEntryNotBelow(n, kept, all, s, k, d);
    }
  }

  // Whole streams of messages, of any clients.

  /** What the node holds after these messages. */
  function StateAfter(expected: nat, msgs: seq<Body>): NodeState {
    if msgs == [] then NodeState(map[], map[])
    else Processed(expected, StateAfter(expected, msgs[..|msgs| - 1]), msgs[|msgs| - 1])
  }

  function EofsIn(msgs: seq<Body>, client: string): nat {
    if msgs == [] then 0
    else EofsIn(msgs[..|msgs| - 1], client) + if msgs[|msgs| - 1] == Eof(client) then 1 else 0
  }

  /** What a client has sent since its last completed round of EOFs, if any message of entries. */
  function Since(expected: nat, msgs: seq<Body>, client: string): Option<seq<ScoredReview>> {
    if msgs == [] || (msgs[|msgs| - 1] == Eof(client) && EofsIn(msgs, client) % Round(expected) == 0) then None
    else
      var before, last := Since(expected, msgs[..|msgs| - 1], client), msgs[|msgs| - 1];
      if last.Reviews? && last.client == client
      then Some((if before.Some? then before.value else []) + last.reviews)
      else before
  }

  /** A client's entries are all it has sent since then, and its count is how far the round has got. */
  lemma {:induction false} HeldSince(expected: nat, msgs: seq<Body>, client: string)
    requires expected < 256
    ensures var st, since := StateAfter(expected, msgs), Since(expected, msgs, client);
            && (client in st.reviews <==> since.Some?)
            && (since.Some? ==> st.reviews[client] == since.value)
            && At(st.eofs, client) == EofsIn(msgs, client) % Round(expected)
  {
    if msgs == [] {
      ResidueIsModulo(0, Round(expected));
    } else {
      var init, last := msgs[..|msgs| - 1], msgs[|msgs| - 1];
      HeldSince(expected, init, client);
      if last == Eof(client) {
        CountsRounds(expected, StateAfter(expected, init).eofs, client, EofsIn(init, client));
      }
    }
  }

  /** What the node answers, whatever the order of messages and clients: nothing, but for the EOF that completes a
      round. Then the percentile of all entries of the client since its last round goes out, cut into batches, and one
      EOF behind it; and the client is forgotten. */
  lemma PublishedAtLastEof(n: nat, batchSize: nat, expected: nat, msgs: seq<Body>, msg: Body,
                           sorted: seq<ScoredReview>) returns (batches: seq<seq<ScoredReview>>)
    requires batchSize > 0 && expected < 256
    requires var st := StateAfter(expected, msgs);
             SortOf(sorted, expected, st, msg) && !Panics(expected, st, msg, false)
    ensures var outs := Outputs(n, batchSize, expected, StateAfter(expected, msgs), msg, sorted, false);
            var st := Processed(expected, StateAfter(expected, msgs), msg);
            if msg.Eof? && (EofsIn(msgs, msg.client) + 1) % Round(expected) == 0
            then
              var since := Since(expected, msgs, msg.client);
              && |outs| == |batches| + 1 && outs[|batches|] == EofOut(msg.client)
              && (forall i :: 0 <= i < |batches| ==> outs[i] == Batch(msg.client, batches[i]))
              && (if since.Some? then IsPercentile(n, Concat(batches), since.value) && Cut(batches, batchSize)
                  else batches == [])
              && msg.client !in st.reviews && msg.client !in st.eofs
            else outs == []
    ensures Outputs(n, batchSize, expected, StateAfter(expected, msgs), msg, sorted, true) == []
  {
    batches := [];
    if msg.Eof? {
      HeldSince(expected, msgs, msg.client);
      CountsRounds(expected, StateAfter(expected, msgs).eofs, msg.client, EofsIn(msgs, msg.client));
      var since := Since(expected, msgs, msg.client);
      if (EofsIn(msgs, msg.client) + 1) % Round(expected) == 0 && since.Some? {
        var kept := PercentileOf(n, sorted, since.value);
        batches := CutOf(kept, batchSize);
        CutOfIsCut(kept, batchSize);
      }
    }
  }

  lemma PercentileOf(n: nat, sorted: seq<ScoredReview>, all: seq<ScoredReview>) returns (kept: seq<ScoredReview>)
    requires all != [] && Sorted(sorted) && multiset(sorted) == multiset(all)
    ensures |sorted| == |all| && kept == sorted[PercentileIdx(n, |all|)..] && IsPercentile(n, kept, all)
  {
    assert |multiset(sorted)| == |sorted| && |multiset(all)| == |all|;
    kept := sorted[PercentileIdx(n, |all|)..];
    assert IsCut(n, kept, all, sorted);
  }

  /** The node panics exactly when an EOF completes a round of a client that has sent messages since the last, but no
      entry in any. */
  lemma PanicsIff(expected: nat, msgs: seq<Body>, msg: Body)
    requires expected < 256
    ensures Panics(expected, StateAfter(expected, msgs), msg, false) <==>
            msg.Eof? && (EofsIn(msgs, msg.client) + 1) % Round(expected) == 0 &&
            Since(expected, msgs, msg.client) == Some([])
  {
    if msg.Eof? {
      HeldSince(expected, msgs, msg.client);
      CountsRounds(expected, StateAfter(expected, msgs).eofs, msg.client, EofsIn(msgs, msg.client));
    }
  }

  /** The node as the crash network runs it. The library sort is a parameter. */
  function AsNode(n: nat, batchSize: nat, expected: nat, key: string,
                  sort: seq<ScoredReview> -> seq<ScoredReview>): CrashNetwork.Node<NodeState, Body>
    requires batchSize > 0
  {
    CrashNetwork.Node(
      NodeState(map[], map[]),
      (st: NodeState, e: Envelope<Body>) =>
        var sorted := if e.body.Eof? && e.body.client in st.reviews then sort(st.reviews[e.body.client]) else [];
        var outs := Outputs(n, batchSize, expected, st, e.body, sorted, false);
        (Processed(expected, st, e.body), seq(|outs|, i requires 0 <= i < |outs| => Out(key, outs[i]))),
      (st: NodeState, e: Envelope<Body>) => Processed(expected, st, e.body))
  }

  /** The node publishes its answers in order, under its one key. */
  lemma PublishesAnswers(n: nat, batchSize: nat, expected: nat, key: string,
                         sort: seq<ScoredReview> -> seq<ScoredReview>, st: NodeState, e: Envelope<Body>, i: nat)
    requires batchSize > 0
    ensures var sorted := if e.body.Eof? && e.body.client in st.reviews then sort(st.reviews[e.body.client]) else [];
            var answers := Outputs(n, batchSize, expected, st, e.body, sorted, false);
            var (st', outs) := AsNode(n, batchSize, expected, key, sort).process(st, e);
            && st' == Processed(expected, st, e.body) && |outs| == |answers|
            && (i < |outs| ==> outs[i] == Out(key, answers[i]))
  {
  }

  /** Replaying a delivery without publishing leaves the node exactly as processing it live did. */
  lemma ReplayIsFaithful(n: nat, batchSize: nat, expected: nat, key: string,
                         sort: seq<ScoredReview> -> seq<ScoredReview>)
    requires batchSize > 0
    ensures CrashNetwork.ReplayFaithful(AsNode(n, batchSize, expected, key, sort))
  {
  }
}
