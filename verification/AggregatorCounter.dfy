/** The counter aggregator of query 4: internal/worker/aggregator/counter.go. It collects names into batches. */
module CounterAggregator {
  import opened Protocol
  import opened Messages
  import opened EofCounts
  import opened Aggregator
  import opened Batches
  import CrashNetwork

  datatype Output = Batch(names: seq<GameName>) | EofOut

  datatype NodeState = NodeState(games: map<string, seq<GameName>>, eofs: map<string, nat>)

  function Buffer(games: map<string, seq<GameName>>, client: string): seq<GameName> {
    if client in games then games[client] else []
  }

  datatype Message = Name(client: string, name: GameName) | Eof(client: string) | Unknown

  /** The client's buffer goes out: it is full, or the client's EOFs are all there. */
  predicate Due(batchSize: nat, expected: nat, saved: nat, eofs: nat) {
    saved > 0 && (saved >= batchSize || eofs >= expected)
  }

  /** What one message does. Recovery saves the names but cuts no batches. */
  function Processed(batchSize: nat, expected: nat, st: NodeState, msg: Message, recovery: bool)
    : (NodeState, seq<Output>)
  {
    match msg
    case Name(c, m) =>
      var saved := Buffer(st.games, c) + [m];
      if !recovery && Due(batchSize, expected, |saved|, At(st.eofs, c))
      then (st.(games := st.games[c := []]), [Batch(saved)])
      else (st.(games := st.games[c := saved]), [])
    case Eof(c) =>
      var n := Counted(st.eofs, c);
      if n < expected then (st.(eofs := st.eofs[c := n]), [])
      else
        var saved := Buffer(st.games, c);
        (NodeState(st.games - {c}, st.eofs - {c}),
         if recovery then [] else (if Due(batchSize, expected, |saved|, n) then [Batch(saved)] else []) + [EofOut])
    case Unknown => (st, [])
  }

  class Node {
    const batchSize: nat
    const agg: EofCounter
    var games: map<string, seq<GameName>>

    constructor (batchSize: nat, expectedEofs: nat)
      ensures this.batchSize == batchSize && games == map[] && fresh(agg)
      ensures agg.expectedEofs == expectedEofs && agg.eofsRecv == map[]
    {
      this.batchSize := batchSize;
      games := map[];
      agg := new EofCounter(expectedEofs);
    }

    method Save(msg: GameName, client: string)
      modifies this`games
      ensures games == old(games)[client := Buffer(old(games), client) + [msg]]
    {
      if client !in games {
        games := games[client := []];
      }
      games := games[client := games[client] + [msg]];
    }

    /** eofs is how many EOFs of the client have been counted. */
    method Publish(client: string, eofs: nat) returns (outs: seq<Output>)
      modifies this`games
      ensures var saved := Buffer(old(games), client);
              if Due(batchSize, agg.expectedEofs, |saved|, eofs)
              then outs == [Batch(saved)] && games == old(games)[client := []]
              else outs == [] && games == old(games)
    {
      outs := [];
      if client in games && |games[client]| > 0 && (|games[client]| >= batchSize || eofs >= agg.expectedEofs) {
        outs := [Batch(games[client])];
        games := games[client := games[client][..0]];
      }
    }

    method Process(msg: Message, recovery: bool) returns (outs: seq<Output>)
      modifies this`games, agg
      ensures (NodeState(games, agg.eofsRecv), outs) ==
              Processed(batchSize, agg.expectedEofs, old(NodeState(games, agg.eofsRecv)), msg, recovery)
    {
      outs := [];
      match msg
      case Name(c, m) =>
        Save(m, c);
        if !recovery {
          outs := Publish(c, At(agg.eofsRecv, c));
          assert outs != [] ==> games == old(games)[c := []];
        }
      case Eof(c) =>
        var n := Counted(agg.eofsRecv, c);
        var reached := agg.Count(c);
        if reached {
          if !recovery {
            outs := Publish(c, n);
            outs := outs + [EofOut];
          }
          games := games - {c};
          assert games == old(games) - {c};
        }
      case Unknown =>
    }
  }

  // One client's stream, without crashes.

  /** What the node holds of one client. */
  datatype Client = Client(saved: seq<GameName>, eofs: nat)

  function View(st: NodeState, client: string): Client {
    Client(Buffer(st.games, client), At(st.eofs, client))
  }

  datatype Event = NameEvent(name: GameName) | EofEvent

  function Step(batchSize: nat, expected: nat, cl: Client, ev: Event, recovery: bool): (Client, seq<Output>) {
    match ev
    case NameEvent(m) =>
      var saved := cl.saved + [m];
      if !recovery && Due(batchSize, expected, |saved|, cl.eofs) then (Client([], cl.eofs), [Batch(saved)])
      else (Client(saved, cl.eofs), [])
    case EofEvent =>
      var n := (cl.eofs + 1) % 256;
      if n < expected then (Client(cl.saved, n), [])
      else
        (Client([], 0),
         if recovery then [] else (if |cl.saved| > 0 then [Batch(cl.saved)] else []) + [EofOut])
  }

  /** The node treats every client by itself. */
  lemma ClientsAreSeparate(batchSize: nat, expected: nat, st: NodeState, msg: Message, recovery: bool, other: string)
    ensures var (st', outs) := Processed(batchSize, expected, st, msg, recovery);
            if msg.Name? && msg.client == other
            then (View(st', other), outs) == Step(batchSize, expected, View(st, other), NameEvent(msg.name), recovery)
            else if msg.Eof? && msg.client == other
            then (View(st', other), outs) == Step(batchSize, expected, View(st, other), EofEvent, recovery)
            else View(st', other) == View(st, other)
    ensures recovery || msg.Unknown? ==> Processed(batchSize, expected, st, msg, recovery).1 == []
  {
  }

  function Run(batchSize: nat, expected: nat, evs: seq<Event>, recovery: bool): Client {
    if evs == [] then Client([], 0)
    else Step(batchSize, expected, Run(batchSize, expected, evs[..|evs| - 1], recovery), evs[|evs| - 1], recovery).0
  }

  function Emitted(batchSize: nat, expected: nat, evs: seq<Event>): seq<Output> {
    if evs == [] then []
    else
      var init := evs[..|evs| - 1];
      Emitted(batchSize, expected, init) +
      Step(batchSize, expected, Run(batchSize, expected, init, false), evs[|evs| - 1], false).1
  }

  function Names(evs: seq<Event>): seq<GameName> {
    if evs == [] then []
    else Names(evs[..|evs| - 1]) + if evs[|evs| - 1].NameEvent? then [evs[|evs| - 1].name] else []
  }

  function EofsIn(evs: seq<Event>): nat {
    if evs == [] then 0 else EofsIn(evs[..|evs| - 1]) + if evs[|evs| - 1].EofEvent? then 1 else 0
  }

  function BatchesOf(outs: seq<Output>): seq<seq<GameName>> {
    if outs == [] then []
    else BatchesOf(outs[..|outs| - 1]) + if outs[|outs| - 1].Batch? then [outs[|outs| - 1].names] else []
  }

  function EofsOut(outs: seq<Output>): nat {
    if outs == [] then 0 else EofsOut(outs[..|outs| - 1]) + if outs[|outs| - 1].EofOut? then 1 else 0
  }

  lemma {:induction false} OutputsAppend(a: seq<Output>, b: seq<Output>)
    ensures BatchesOf(a + b) == BatchesOf(a) + BatchesOf(b)
    ensures EofsOut(a + b) == EofsOut(a) + EofsOut(b)
    decreases |b|
  {
    if b == [] {
      assert a + b == a;
    } else {
      assert (a + b)[..|a + b| - 1] == a + b[..|b| - 1];
      OutputsAppend(a, b[..|b| - 1]);
    }
  }

  ghost predicate Conserved(outs: seq<Output>, cl: Client, evs: seq<Event>, expected: nat) {
    && Concat(BatchesOf(outs)) + cl.saved == Names(evs)
    && cl.eofs == Residue(EofsIn(evs), Round(expected))
    && EofsOut(outs) == Rounds(EofsIn(evs), Round(expected))
  }

  lemma {:induction false} RunConserves(batchSize: nat, expected: nat, evs: seq<Event>)
    requires expected < 256
    ensures Conserved(Emitted(batchSize, expected, evs), Run(batchSize, expected, evs, false), evs, expected)
  {
    if evs != [] {
      var init, last := evs[..|evs| - 1], evs[|evs| - 1];
      RunConserves(batchSize, expected, init);
      var cl := Run(batchSize, expected, init, false);
      var (cl', outs) := Step(batchSize, expected, cl, last, false);
      StepConserves(cl, last, batchSize, expected);
      ConservedSnoc(Emitted(batchSize, expected, init), outs, cl, cl', evs, expected);
    }
  }

  /** Batch conservation. Whatever the order of names and EOFs, the batches sent so far and the buffer make up
      everything saved, in order; and one EOF has gone out for every ExpectedEofs EOFs. */
  lemma BatchesConserve(batchSize: nat, expected: nat, evs: seq<Event>)
    requires expected < 256
    ensures var outs := Emitted(batchSize, expected, evs); var cl := Run(batchSize, expected, evs, false);
            && Concat(BatchesOf(outs)) + cl.saved == Names(evs)
            && cl.eofs == EofsIn(evs) % Round(expected)
            && EofsOut(outs) == EofsIn(evs) / Round(expected)
  {
    RunConserves(batchSize, expected, evs);
    ResidueIsModulo(EofsIn(evs), Round(expected));
  }

  /** When the last of the expected EOFs comes in, the EOF goes out behind everything saved for the client. */
  lemma EofGoesOutLast(batchSize: nat, expected: nat, evs: seq<Event>)
    requires expected < 256 && evs != [] && evs[|evs| - 1].EofEvent? && EofsIn(evs) % Round(expected) == 0
    ensures var outs := Emitted(batchSize, expected, evs);
            outs != [] && outs[|outs| - 1] == EofOut && Concat(BatchesOf(outs)) == Names(evs)
  {
    var init := evs[..|evs| - 1];
    RunConserves(batchSize, expected, init);
    RunConserves(batchSize, expected, evs);
    ResidueIsModulo(EofsIn(evs), Round(expected));
    StepConserves(Run(batchSize, expected, init, false), EofEvent, batchSize, expected);
  }

  lemma SentAndSaved<T>(sent: seq<T>, saved: seq<T>, out: seq<T>, saved': seq<T>, names: seq<T>, more: seq<T>)
    requires sent + saved == names && out + saved' == saved + more
    ensures (sent + out) + saved' == names + more
  {
    assert (sent + out) + saved' == sent + (out + saved');
    assert sent + (saved + more) == (sent + saved) + more;
  }

  lemma {:induction false} ConservedSnoc(before: seq<Output>, outs: seq<Output>, cl: Client, cl': Client,
                                         evs: seq<Event>, expected: nat)
    requires evs != [] && Conserved(before, cl, evs[..|evs| - 1], expected)
    requires var last := evs[|evs| - 1];
             && Concat(BatchesOf(outs)) + cl'.saved == cl.saved + (if last.NameEvent? then [last.name] else [])
             && cl'.eofs == (if last.NameEvent? then cl.eofs else
                             if cl.eofs + 1 < Round(expected) then cl.eofs + 1 else 0)
             && EofsOut(outs) == (if last.EofEvent? && cl.eofs + 1 >= Round(expected) then 1 else 0)
    ensures Conserved(before + outs, cl', evs, expected)
  {
    var init, last := evs[..|evs| - 1], evs[|evs| - 1];
    var more: seq<GameName> := if last.NameEvent? then [last.name] else [];
    OutputsAppend(before, outs);
    ConcatAppend(BatchesOf(before), BatchesOf(outs));
    SentAndSaved(Concat(BatchesOf(before)), cl.saved, Concat(BatchesOf(outs)), cl'.saved, Names(init), more);
    assert Names(evs) == Names(init) + more;
    CountersNext(init, last, Round(expected));
    assert evs == init + [last];
  }

  lemma CountersNext(init: seq<Event>, last: Event, round: nat)
    requires round > 0
    ensures var k, evs := EofsIn(init), init + [last];
            && EofsIn(evs) == (if last.EofEvent? then k + 1 else k)
            && (last.EofEvent? ==>
                  && Residue(EofsIn(evs), round) == (if Residue(k, round) + 1 < round then Residue(k, round) + 1 else 0)
                  && Rounds(EofsIn(evs), round) == Rounds(k, round) + if Residue(k, round) + 1 < round then 0 else 1)
  {
    assert (init + [last])[..|init|] == init;
  }

  lemma StepConserves(cl: Client, ev: Event, batchSize: nat, expected: nat)
    requires expected < 256 && cl.eofs < Round(expected)
    ensures var (cl', outs) := Step(batchSize, expected, cl, ev, false);
            && Concat(BatchesOf(outs)) + cl'.saved == cl.saved + (if ev.NameEvent? then [ev.name] else [])
            && cl'.eofs == (if ev.NameEvent? then cl.eofs else if cl.eofs + 1 < Round(expected) then cl.eofs + 1 else 0)
            && EofsOut(outs) == (if ev.EofEvent? && cl.eofs + 1 == Round(expected) then 1 else 0)
            && (ev.EofEvent? && cl.eofs + 1 == Round(expected) ==>
                  outs != [] && outs[|outs| - 1] == EofOut && cl'.saved == [])
  {
    var outs := Step(batchSize, expected, cl, ev, false).1;
    if outs != [] {
      var first := outs[..1];
      assert first[..0] == [] && first == [outs[0]];
      assert BatchesOf(first) == if outs[0].Batch? then [outs[0].names] else [];
      assert EofsOut(first) == if outs[0].Batch? then 0 else 1;
      if |outs| == 2 {
        assert outs[..|outs| - 1] == first;
      } else {
        assert outs == first;
      }
      assert BatchesOf(outs)[..0] == [] && Concat(BatchesOf(outs)) == if outs[0].Batch? then outs[0].names else [];
    }
  }

  // Replay.

  /** The size at which a live node cuts a batch. */
  function CutSize(batchSize: nat, expected: nat): (r: nat)
    ensures r > 0
  {
    if expected == 0 || batchSize == 0 then 1 else batchSize
  }

  /** The live buffer is what remains of the replayed one after whole batches have been cut off. */
  ghost predicate Remainder(size: nat, live: Client, replayed: Client)
    requires size > 0
  {
    && live.eofs == replayed.eofs
    && |live.saved| == Residue(|replayed.saved|, size)
    && |live.saved| <= |replayed.saved|
    && live.saved == replayed.saved[|replayed.saved| - |live.saved|..]
  }

  lemma SuffixSnoc<T>(l: seq<T>, r: seq<T>, x: T)
    requires |l| <= |r| && l == r[|r| - |l|..]
    ensures l + [x] == (r + [x])[|r| - |l|..]
  {
  }

  lemma NameKeepsRemainder(batchSize: nat, expected: nat, live: Client, replayed: Client, m: GameName)
    requires live.eofs < Round(expected) && Remainder(CutSize(batchSize, expected), live, replayed)
    ensures Remainder(CutSize(batchSize, expected), Step(batchSize, expected, live, NameEvent(m), false).0,
                      Step(batchSize, expected, replayed, NameEvent(m), true).0)
  {
    SuffixSnoc(live.saved, replayed.saved, m);
  }

  lemma RemainderStep(batchSize: nat, expected: nat, live: Client, replayed: Client, ev: Event)
    requires expected < 256 && live.eofs < Round(expected)
    requires Remainder(CutSize(batchSize, expected), live, replayed)
    ensures Remainder(CutSize(batchSize, expected), Step(batchSize, expected, live, ev, false).0,
                      Step(batchSize, expected, replayed, ev, true).0)
    ensures Step(batchSize, expected, live, ev, false).0.eofs < Round(expected)
  {
    if ev.NameEvent? {
      NameKeepsRemainder(batchSize, expected, live, replayed, ev.name);
    }
  }

  /** Replay keeps every name saved since the last reset, of which the live buffer is the remainder. */
  lemma {:induction false} LiveIsRemainderOfReplay(batchSize: nat, expected: nat, evs: seq<Event>)
    requires expected < 256
    ensures Remainder(CutSize(batchSize, expected), Run(batchSize, expected, evs, false),
                      Run(batchSize, expected, evs, true))
    ensures Run(batchSize, expected, evs, false).eofs < Round(expected)
  {
    if evs != [] {
      var init := evs[..|evs| - 1];
      LiveIsRemainderOfReplay(batchSize, expected, init);
      RemainderStep(batchSize, expected, Run(batchSize, expected, init, false), Run(batchSize, expected, init, true),
                    evs[|evs| - 1]);
    }
  }

  /** No batch is empty or larger than size, and if full is set, none is smaller. */
  ghost predicate Sized(batches: seq<seq<GameName>>, size: nat, full: bool) {
    forall i :: 0 <= i < |batches| ==> 1 <= |batches[i]| <= size && (full ==> |batches[i]| == size)
  }

  /** No batch is empty, none is larger than the size at which batches are cut, and up to the first completed round
      none is smaller. */
  lemma {:induction false} BatchesAreCut(batchSize: nat, expected: nat, evs: seq<Event>)
    requires expected < 256
    ensures Sized(BatchesOf(Emitted(batchSize, expected, evs)), CutSize(batchSize, expected),
                  EofsIn(evs) < Round(expected))
  {
    if evs != [] {
      var init, last := evs[..|evs| - 1], evs[|evs| - 1];
      var cl := Run(batchSize, expected, init, false);
      BatchesAreCut(batchSize, expected, init);
      LiveIsRemainderOfReplay(batchSize, expected, init);
      RunConserves(batchSize, expected, init);
      if EofsIn(evs) < Round(expected) {
        ResidueIsModulo(EofsIn(init), Round(expected));
        WithinRound(EofsIn(init), Round(expected));
      }
      StepCuts(batchSize, expected, cl, last);
      OutputsAppend(Emitted(batchSize, expected, init), Step(batchSize, expected, cl, last, false).1);
    }
  }

  lemma StepCuts(batchSize: nat, expected: nat, cl: Client, ev: Event)
    requires expected < 256 && cl.eofs < Round(expected) && |cl.saved| < CutSize(batchSize, expected)
    ensures Sized(BatchesOf(Step(batchSize, expected, cl, ev, false).1), CutSize(batchSize, expected),
                  ev.NameEvent? || cl.eofs + 1 < Round(expected))
  {
    var outs := Step(batchSize, expected, cl, ev, false).1;
    if outs != [] {
      BatchesOfTwo(outs);
    }
  }

  lemma BatchesOfTwo(outs: seq<Output>)
    requires 0 < |outs| <= 2 && (|outs| == 2 ==> outs[1] == EofOut)
    ensures BatchesOf(outs) == if outs[0].Batch? then [outs[0].names] else []
  {
    assert outs[..1][..0] == [] && outs[..1] == [outs[0]] && BatchesOf(outs[..1][..0]) == [];
    assert BatchesOf(outs[..1]) == if outs[0].Batch? then [outs[0].names] else [];
    assert |outs| == 2 ==> outs[..1] == outs[..|outs| - 1];
    assert |outs| == 1 ==> outs[..1] == outs;
  }

  /** The names of the client since its last completed round of EOFs. */
  function SinceRound(expected: nat, evs: seq<Event>): seq<GameName> {
    if evs == [] || (evs[|evs| - 1].EofEvent? && EofsIn(evs) % Round(expected) == 0) then []
    else SinceRound(expected, evs[..|evs| - 1]) + if evs[|evs| - 1].NameEvent? then [evs[|evs| - 1].name] else []
  }

  /** An EOF completes a round exactly if it is the last that the count wants. */
  lemma RoundCompletes(evs: seq<Event>, round: nat)
    requires round > 0 && evs != [] && evs[|evs| - 1].EofEvent?
    ensures EofsIn(evs) % round == 0 <==> Residue(EofsIn(evs[..|evs| - 1]), round) + 1 == round
  {
    ResidueIsModulo(EofsIn(evs), round);
  }

  lemma ReplayCountsEofs(batchSize: nat, expected: nat, evs: seq<Event>)
    requires expected < 256
    ensures Run(batchSize, expected, evs, true).eofs == Residue(EofsIn(evs), Round(expected))
  {
    LiveIsRemainderOfReplay(batchSize, expected, evs);
    RunConserves(batchSize, expected, evs);
  }

  lemma {:induction false} ReplaySavesSinceRound(batchSize: nat, expected: nat, evs: seq<Event>)
    requires expected < 256
    ensures Run(batchSize, expected, evs, true).saved == SinceRound(expected, evs)
  {
    if evs != [] {
      var init := evs[..|evs| - 1];
      ReplaySavesSinceRound(batchSize, expected, init);
      if evs[|evs| - 1].EofEvent? {
        ReplayCountsEofs(batchSize, expected, init);
        RoundCompletes(evs, Round(expected));
      }
    }
  }

  /** Replay restores the live node exactly when fewer names than fill a batch have come in since the last completed
      round of EOFs, so that no batch has been cut. */
  lemma ReplayEqualsLiveIffNoBatchCut(batchSize: nat, expected: nat, evs: seq<Event>)
    requires expected < 256
    ensures Run(batchSize, expected, evs, false) == Run(batchSize, expected, evs, true)
            <==> |SinceRound(expected, evs)| < CutSize(batchSize, expected)
  {
    ReplaySavesSinceRound(batchSize, expected, evs);
    LiveIsRemainderOfReplay(batchSize, expected, evs);
    var replayed := Run(batchSize, expected, evs, true);
    ResidueIsModulo(|replayed.saved|, CutSize(batchSize, expected));
    assert replayed.saved[0..] == replayed.saved;
  }

  /** After a crash past that point, the next name sends out again every name since the last completed round. */
  lemma CrashRepublishes(batchSize: nat, expected: nat, evs: seq<Event>, m: GameName)
    requires 0 < expected < 256 && batchSize > 0
    requires |SinceRound(expected, evs)| >= batchSize
    ensures var replayed := Run(batchSize, expected, evs, true);
            Step(batchSize, expected, replayed, NameEvent(m), false).1 == [Batch(SinceRound(expected, evs) + [m])]
    ensures var live := Run(batchSize, expected, evs, false);
            var outs := Step(batchSize, expected, live, NameEvent(m), false).1;
            |live.saved| == |SinceRound(expected, evs)| % batchSize &&
            (outs == [] || (outs == [Batch(live.saved + [m])] && |live.saved| + 1 == batchSize))
  {
    ReplaySavesSinceRound(batchSize, expected, evs);
    LiveIsRemainderOfReplay(batchSize, expected, evs);
    ResidueIsModulo(|SinceRound(expected, evs)|, batchSize);
  }

  /** Two names fill a batch of two; a third one after a crash sends all three. */
  lemma CrashRepublishesExample(a: GameName, b: GameName, c: GameName)
    ensures var evs := [NameEvent(a), NameEvent(b)];
            && Emitted(2, 1, evs) == [Batch([a, b])]
            && Step(2, 1, Run(2, 1, evs, true), NameEvent(c), false).1 == [Batch([a, b, c])]
            && Step(2, 1, Run(2, 1, evs, false), NameEvent(c), false).1 == []
  {
    var evs := [NameEvent(a), NameEvent(b)];
    assert evs[..1] == [NameEvent(a)] && evs[..1][..0] == [];
    assert Run(2, 1, evs[..1], false) == Client([a], 0) && Run(2, 1, evs[..1], true) == Client([a], 0);
    assert Emitted(2, 1, evs[..1]) == [];
    assert [a] + [b] == [a, b] && [a, b] + [c] == [a, b, c];
  }

  datatype Body = In(msg: Message) | Sent(out: Output)

  function AsNode(batchSize: nat, expected: nat, key: string): CrashNetwork.Node<NodeState, Body> {
    CrashNetwork.Node(
      NodeState(map[], map[]),
      (st: NodeState, e: Envelope<Body>) =>
        if e.body.In? then
          var (st', outs) := Processed(batchSize, expected, st, e.body.msg, false);
          (st', seq(|outs|, i requires 0 <= i < |outs| => Out(key, Sent(outs[i]))))
        else (st, []),
      (st: NodeState, e: Envelope<Body>) =>
        if e.body.In? then Processed(batchSize, expected, st, e.body.msg, true).0 else st)
  }

  /** The node publishes its answers in order, under its one key. */
  lemma PublishesAnswers(batchSize: nat, expected: nat, key: string, st: NodeState, e: Envelope<Body>, i: nat)
    requires e.body.In?
    ensures var (st', answers) := Processed(batchSize, expected, st, e.body.msg, false);
            var (st'', outs) := AsNode(batchSize, expected, key).process(st, e);
            && st'' == st' && |outs| == |answers| && (i < |outs| ==> outs[i] == Out(key, Sent(answers[i])))
  {
  }

  /** Since it cuts batches only live, this node does not meet what the crash network asks of a node, whatever its
      parameters. */
  lemma ReplayIsNotFaithful(batchSize: nat, expected: nat, key: string)
    ensures !CrashNetwork.ReplayFaithful(AsNode(batchSize, expected, key))
  {
    var node := AsNode(batchSize, expected, key);
    var g := GameName(0, "");
    var saved := seq(batchSize, _ => g);
    var st := NodeState(map["" := saved], map[]);
    var e: Envelope<Body> := Envelope("", 0, In(Name("", g)));
    assert Processed(batchSize, expected, st, e.body.msg, true).0.games[""] == saved + [g];
    assert node.replay(st, e) != node.process(st, e).0;
  }
}
