/** The top-N node: a heap and an EOF count per client, updated in place. */
module TopNFilter {
  import opened Messages
  import opened Protocol
  import opened EofCounts
  import Bags
  import Heap
  import opened TopN
  import opened TopVotes
  import CrashNetwork

  datatype State = State(top: map<string, seq<ScoredReview>>, eofsRecv: map<string, nat>)

  datatype Message = Scored(client: string, reviews: seq<ScoredReview>) | Eof(client: string) | Unknown

  datatype Output = Ranked(client: string, reviews: seq<ScoredReview>) | EofOut(client: string)

  function HeapOf(top: map<string, seq<ScoredReview>>, client: string): seq<ScoredReview> {
    if client in top then top[client] else []
  }

  function UpdatedTop(n: nat, top: map<string, seq<ScoredReview>>, reviews: seq<ScoredReview>, client: string)
    : map<string, seq<ScoredReview>>
    requires n > 0
  {
    if reviews == [] then top else top[client := OfferAll(n, HeapOf(top, client), reviews)]
  }

  /** What one message does. During recovery nothing is published. */
  function Processed(n: nat, expected: nat, st: State, msg: Message, recovery: bool): (State, seq<Output>)
    requires n > 0
  {
    match msg
    case Scored(c, reviews) => (st.(top := UpdatedTop(n, st.top, reviews, c)), [])
    case Eof(c) =>
      if Counted(st.eofsRecv, c) < expected then
        (st.(eofsRecv := st.eofsRecv[c := Counted(st.eofsRecv, c)]), [])
      else
        (State(st.top - {c}, st.eofsRecv - {c}),
         if recovery then []
         else if expected > 0 then [Ranked(c, Drained(HeapOf(st.top, c)))]
         else [Ranked(c, Drained(HeapOf(st.top, c))), EofOut(c)])
    case Unknown => (st, [])
  }

  lemma DrainedNext(h: seq<ScoredReview>, ranked: seq<ScoredReview>)
    requires |h| > 0
    ensures Drained(h) + ranked == Drained(Heap.Popped(Less, h)) + ([h[0]] + ranked)
  {
  }

  class Filter {
    const n: nat
    const expectedEofs: nat
    var top: map<string, seq<ScoredReview>>
    var eofsRecv: map<string, nat>

    constructor (n: nat, expectedEofs: nat)
      ensures this.n == n && this.expectedEofs == expectedEofs && top == map[] && eofsRecv == map[]
    {
      this.n := n;
      this.expectedEofs := expectedEofs;
      top := map[];
      eofsRecv := map[];
    }

    /** Updates the game if it is already in the heap; notInTop says that it is not. */
    method FixHeap(msg: ScoredReview, client: string) returns (notInTop: bool)
      modifies this`top
      ensures notInTop == (IndexOf(HeapOf(old(top), client), msg.gameId) == |HeapOf(old(top), client)|)
      ensures var h := HeapOf(old(top), client); var i := IndexOf(h, msg.gameId);
              top == old(top)[client := if i == |h| then h else Heap.Fixed(Less, h, i, h[i].(votes := msg.votes))]
    {
      if client !in top {
        top := top[client := []];
        return true;
      }
      var clientTop := top[client];
      for i := 0 to |clientTop|
        invariant top == old(top)
        invariant forall j :: 0 <= j < i ==> clientTop[j].gameId != msg.gameId
      {
        if clientTop[i].gameId == msg.gameId {
          var h := new Heap.PriorityQueue(Less, clientTop);
          h.Update(i, clientTop[i].(votes := msg.votes));
          top := top[client := h.items];
          return false;
        }
      }
      assert top[client := clientTop] == top;
      return true;
    }

    method UpdateGame(msg: ScoredReview, client: string)
      requires n > 0
      modifies this`top
      ensures top == old(top)[client := Offer(n, HeapOf(old(top), client), msg)]
    {
      var notInTop := FixHeap(msg, client);
      if notInTop {
        var h := new Heap.PriorityQueue(Less, top[client]);
        if |h.items| < n {
          h.Push(msg);
        } else if msg.votes > h.items[0].votes {
          var _ := h.Pop();
          h.Push(msg);
        }
        top := top[client := h.items];
      }
    }

    method UpdateTop(reviews: seq<ScoredReview>, client: string)
      requires n > 0
      modifies this`top
      ensures top == UpdatedTop(n, old(top), reviews, client)
    {
      for i := 0 to |reviews|
        invariant top == UpdatedTop(n, old(top), reviews[..i], client)
      {
        UpdateGame(reviews[i], client);
        assert reviews[..i + 1][..i] == reviews[..i];
      }
      assert reviews[..|reviews|] == reviews;
    }

    method GetTopNScoredReviews(client: string) returns (ranked: seq<ScoredReview>)
      ensures ranked == Drained(HeapOf(top, client))
    {
      if client !in top {
        return [];
      }
      var clientTop := new Heap.PriorityQueue(Less, top[client]);
      ghost var all := Drained(top[client]);
      ranked := [];
      while |clientTop.items| > 0
        invariant all == Drained(clientTop.items) + ranked && clientTop.less == Less
        decreases |clientTop.items|
      {
        ghost var h := clientTop.items;
        var x := clientTop.Pop();
        DrainedNext(h, ranked);
        ranked := [x] + ranked;
      }
    }

    method Process(msg: Message, recovery: bool) returns (outs: seq<Output>)
      requires n > 0
      modifies this
      ensures (State(top, eofsRecv), outs) == Processed(n, expectedEofs, old(State(top, eofsRecv)), msg, recovery)
    {
      outs := [];
      match msg
      case Scored(c, reviews) =>
        UpdateTop(reviews, c);
      case Eof(c) =>
        eofsRecv := eofsRecv[c := Counted(eofsRecv, c)];
        if eofsRecv[c] >= expectedEofs {
          if !recovery {
            var ranked := GetTopNScoredReviews(c);
            outs := [Ranked(c, ranked)];
            if expectedEofs == 0 {
              outs := outs + [EofOut(c)];
              assert outs == [Ranked(c, ranked), EofOut(c)];
            }
          }
          top := top - {c};
          eofsRecv := eofsRecv - {c};
          assert eofsRecv == old(eofsRecv) - {c};
        }
      case Unknown =>
    }
  }

  // Whole streams of messages, of any clients.

  /** What the node holds after these messages. */
  function StateAfter(n: nat, expected: nat, msgs: seq<Message>): State
    requires n > 0
  {
    if msgs == [] then State(map[], map[])
    else Processed(n, expected, StateAfter(n, expected, msgs[..|msgs| - 1]), msgs[|msgs| - 1], false).0
  }

  function EofsIn(msgs: seq<Message>, client: string): nat {
    if msgs == [] then 0
    else
      EofsIn(msgs[..|msgs| - 1], client) +
      if msgs[|msgs| - 1].Eof? && msgs[|msgs| - 1].client == client then 1 else 0
  }

  /** With the last message the client's EOFs complete a round. */
  predicate RoundEnds(expected: nat, msgs: seq<Message>, client: string) {
    msgs != [] && msgs[|msgs| - 1].Eof? && msgs[|msgs| - 1].client == client &&
    EofsIn(msgs, client) % Round(expected) == 0
  }

  /** The reviews of a client since its last completed round of EOFs. */
  function ReviewsSince(expected: nat, msgs: seq<Message>, client: string): seq<ScoredReview> {
    if msgs == [] || RoundEnds(expected, msgs, client) then []
    else
      var before, last := ReviewsSince(expected, msgs[..|msgs| - 1], client), msgs[|msgs| - 1];
      if last.Scored? && last.client == client then before + last.reviews else before
  }

  lemma OfferedInTwo(n: nat, h: seq<ScoredReview>, a: seq<ScoredReview>, b: seq<ScoredReview>)
    requires n > 0
    ensures OfferAll(n, h, a + b) == OfferAll(n, OfferAll(n, h, a), b)
    decreases |b|
  {
    if b == [] {
      assert a + b == a;
    } else {
      assert (a + b)[..|a + b| - 1] == a + b[..|b| - 1];
      OfferedInTwo(n, h, a, b[..|b| - 1]);
    }
  }

  /** The client's heap is what these reviews leave, and its count is that of k EOFs. */
  predicate Held(n: nat, expected: nat, st: State, client: string, reviews: seq<ScoredReview>, k: nat)
    requires n > 0
  {
    HeapOf(st.top, client) == OfferAll(n, [], reviews) && At(st.eofsRecv, client) == k % Round(expected)
  }

  lemma ScoredNext(n: nat, expected: nat, st: State, client: string, more: seq<ScoredReview>,
                   reviews: seq<ScoredReview>, k: nat)
    requires n > 0 && Held(n, expected, st, client, reviews, k)
    ensures Held(n, expected, Processed(n, expected, st, Scored(client, more), false).0, client, reviews + more, k)
  {
    OfferedInTwo(n, [], reviews, more);
  }

  lemma EofNext(n: nat, expected: nat, st: State, client: string, reviews: seq<ScoredReview>, k: nat)
    requires n > 0 && expected < 256 && Held(n, expected, st, client, reviews, k)
    ensures Held(n, expected, Processed(n, expected, st, Eof(client), false).0, client,
                 if (k + 1) % Round(expected) == 0 then [] else reviews, k + 1)
  {
    CountsRounds(expected, st.eofsRecv, client, k);
  }

  lemma OtherNext(n: nat, expected: nat, st: State, msg: Message, client: string, reviews: seq<ScoredReview>, k: nat)
    requires n > 0 && Held(n, expected, st, client, reviews, k) && (msg.Unknown? || msg.client != client)
    ensures Held(n, expected, Processed(n, expected, st, msg, false).0, client, reviews, k)
  {
  }

  /** A client's heap holds what its reviews since the last round leave, and its count is how far the round has got. */
  lemma {:induction false} HeldSince(n: nat, expected: nat, msgs: seq<Message>, client: string)
    requires n > 0 && expected < 256
    ensures Held(n, expected, StateAfter(n, expected, msgs), client, ReviewsSince(expected, msgs, client),
                 EofsIn(msgs, client))
  {
    if msgs == [] {
      ResidueIsModulo(0, Round(expected));
    } else {
      var init, last := msgs[..|msgs| - 1], msgs[|msgs| - 1];
      var st, reviews, k := StateAfter(n, expected, init), ReviewsSince(expected, init, client), EofsIn(init, client);
      HeldSince(n, expected, init, client);
      if last.Unknown? || last.client != client {
        OtherNext(n, expected, st, last, client, reviews, k);
      } else if last.Scored? {
        ScoredNext(n, expected, st, client, last.reviews, reviews, k);
      } else {
        EofNext(n, expected, st, client, reviews, k);
      }
    }
  }

  /** When the heap goes out. Live and from the start, whatever the order of messages and clients: a message is answered
      only if it is an EOF that completes a round of ExpectedEofs. The answer is then one ranking, of all reviews the
      client has sent since its last round, and behind it the EOF if none are expected; and the client is forgotten. */
  lemma PublishedAtLastEof(n: nat, expected: nat, msgs: seq<Message>, msg: Message)
    requires n > 0 && expected < 256
    ensures var (st, outs) := Processed(n, expected, StateAfter(n, expected, msgs), msg, false);
            if msg.Eof? && (EofsIn(msgs, msg.client) + 1) % Round(expected) == 0
            then
              && outs == [Ranked(msg.client, Drained(OfferAll(n, [], ReviewsSince(expected, msgs, msg.client))))] +
                         (if expected == 0 then [EofOut(msg.client)] else [])
              && msg.client !in st.top && msg.client !in st.eofsRecv
            else outs == []
    ensures Processed(n, expected, StateAfter(n, expected, msgs), msg, true).1 == []
  {
    if msg.Eof? {
      HeldSince(n, expected, msgs, msg.client);
      CountsRounds(expected, StateAfter(n, expected, msgs).eofsRecv, msg.client, EofsIn(msgs, msg.client));
    }
  }

  /** The node as the crash network runs it, publishing under one key. */
  function AsNode(n: nat, expected: nat, key: string): CrashNetwork.Node<State, Either>
    requires n > 0
  {
    CrashNetwork.Node(
      State(map[], map[]),
      (st: State, e: Envelope<Either>) =>
        if e.body.In? then
          var (st', outs) := Processed(n, expected, st, e.body.msg, false);
          (st', seq(|outs|, i requires 0 <= i < |outs| => Out(key, Sent(outs[i]))))
        else (st, []),
      (st: State, e: Envelope<Either>) => if e.body.In? then Processed(n, expected, st, e.body.msg, true).0 else st)
  }

  datatype Either = In(msg: Message) | Sent(out: Output)

  /** The node publishes its answers in order, under its one key. */
  lemma PublishesAnswers(n: nat, expected: nat, key: string, st: State, e: Envelope<Either>, i: nat)
    requires n > 0 && e.body.In?
    ensures var (st', answers) := Processed(n, expected, st, e.body.msg, false);
            var (st'', outs) := AsNode(n, expected, key).process(st, e);
            && st'' == st' && |outs| == |answers| && (i < |outs| ==> outs[i] == Out(key, Sent(answers[i])))
  {
  }

  /** Replaying a delivery without publishing leaves the node exactly as processing it live did. */
  lemma ReplayIsFaithful(n: nat, expected: nat, key: string)
    requires n > 0
    ensures CrashNetwork.ReplayFaithful(AsNode(n, expected, key))
  {
  }

  /** The EOF count never wraps: it stays below the number of EOFs expected. */
  predicate CountsBelow(expected: nat, st: State) {
    forall c :: c in st.eofsRecv ==> 0 < st.eofsRecv[c] < expected
  }

  lemma CountsStayBelow(n: nat, expected: nat, st: State, msg: Message, recovery: bool)
    requires n > 0 && expected < 256 && CountsBelow(expected, st)
    ensures CountsBelow(expected, Processed(n, expected, st, msg, recovery).0)
    ensures msg.Eof? ==> Counted(st.eofsRecv, msg.client) == At(st.eofsRecv, msg.client) + 1 || expected == 0
  {
  }

  /** Draining a heap ranks its votes. */
  lemma DrainedRanking(n: nat, h: seq<ScoredReview>, seen: map<int, nat>)
    requires TopOk(n, h, seen)
    ensures StrictlyDescending(Drained(h)) && Reported(Drained(h), seen)
    ensures Ranking(n, Messages.VotesOf(Drained(h)), Votes(seen))
  {
    DrainedDescends(h);
    SameBagSameVotes(Drained(h), h);
    TopIsTopVotes(n, h, seen);
    DrainedReported(Drained(h), seen);
  }

  /** What a client's heap publishes at its last EOF: its games from the most voted down, whose votes are the
      n largest of the latest votes of every game in the stream, each under a name that came with it. */
  lemma PublishedRanking(n: nat, reviews: seq<ScoredReview>)
    requires n > 0 && NeverDecreases(map[], reviews)
    ensures var ranked := Drained(OfferAll(n, [], reviews));
            && StrictlyDescending(ranked)
            && Ranking(n, Messages.VotesOf(ranked), Votes(Latest(map[], reviews)))
            && Reported(ranked, Latest(map[], reviews))
            && NamesFrom(multiset(ranked), reviews)
  {
    NoneSeen(n);
    OfferAllKeeps(n, [], map[], reviews);
    DrainedRanking(n, OfferAll(n, [], reviews), Latest(map[], reviews));
    DrainedDescends(OfferAll(n, [], reviews));
    EntriesCarryNames(n, reviews);
  }

  lemma DrainedReported(ranked: seq<ScoredReview>, seen: map<int, nat>)
    requires Current(multiset(ranked), seen)
    ensures Reported(ranked, seen)
  {
    forall i, j | 0 <= i < j < |ranked|
      ensures ranked[i].gameId != ranked[j].gameId
    {
      CurrentDistinct(ranked, seen, i, j);
    }
    forall i | 0 <= i < |ranked|
      ensures ranked[i].gameId in seen && seen[ranked[i].gameId] == ranked[i].votes
    {
      assert ranked[i] in multiset(ranked);
    }
  }

  lemma SameBagSameVotes(a: seq<ScoredReview>, b: seq<ScoredReview>)
    requires multiset(a) == multiset(b)
    ensures multiset(Messages.VotesOf(a)) == multiset(Messages.VotesOf(b))
  {
    var f := (r: ScoredReview) => r.votes;
    Bags.SameBagSameMeasures(f, a, b);
    assert Messages.VotesOf(a) == Bags.Measured(f, a) && Messages.VotesOf(b) == Bags.Measured(f, b);
  }
}
