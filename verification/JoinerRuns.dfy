/** Joiners over whole streams of messages, of any clients: what they answer, and when their barrier opens. */
module JoinerRuns {
  import opened Protocol
  import opened Messages
  import opened Batches
  import opened Joiner
  import opened JoinerNodes
  import TopJoiner
  import CounterJoiner
  import PercentileJoiner

  /** What a message tells a joiner about a client's games. */
  function EventOf(msg: Body, client: string): Option<Event> {
    match msg
    case ReviewIn(c, r) => if c == client then Some(Review(r.gameId, r.votes, r.gameName)) else None
    case NameIn(c, m) => if c == client then Some(Name(m.gameId, m.gameName)) else None
    case _ => None
  }

  /** EOFs of both origins are among these. */
  predicate Both(origins: seq<nat>) {
    REVIEW_ORIGIN in origins && GAME_ORIGIN in origins
  }

  /** The origins of the client's EOFs since the last time that both had come. */
  function OriginsSince(log: seq<Body>, client: string): seq<nat> {
    if log == [] then []
    else
      var before, last := OriginsSince(log[..|log| - 1], client), log[|log| - 1];
      if !last.EofIn? || last.client != client then before
      else if Both(before + [last.origin]) then []
      else before + [last.origin]
  }

  /** With the last message, EOFs of both origins have come again. */
  predicate Completes(log: seq<Body>, client: string) {
    log != [] && log[|log| - 1].EofIn? && log[|log| - 1].client == client &&
    Both(OriginsSince(log[..|log| - 1], client) + [log[|log| - 1].origin])
  }

  function EventsSince(log: seq<Body>, client: string): seq<Event> {
    if log == [] || Completes(log, client) then []
    else
      var before, ev := EventsSince(log[..|log| - 1], client), EventOf(log[|log| - 1], client);
      if ev.Some? then before + [ev.value] else before
  }

  /** What a joiner of this kind knows of a client's games after these events. */
  function KnownAfter(kind: Kind, evs: seq<Event>): Known {
    if evs == [] then None
    else
      var known := KnownAfter(kind, evs[..|evs| - 1]);
      match evs[|evs| - 1]
      case Review(id, votes, name) => Some(kind.onReview(known, ScoredReview(id, votes, name)))
      case Name(id, name) => Some(kind.onName(known, GameName(id, name)))
  }

  lemma KnownNext(kind: Kind, evs: seq<Event>, ev: Event)
    ensures KnownAfter(kind, evs + [ev]) ==
            Some(match ev
                 case Review(id, votes, name) => kind.onReview(KnownAfter(kind, evs), ScoredReview(id, votes, name))
                 case Name(id, name) => kind.onName(KnownAfter(kind, evs), GameName(id, name)))
  {
    assert (evs + [ev])[..|evs|] == evs;
  }

  /** What the joiner answers to an event. */
  function Answer(kind: Kind, client: string, known: Known, ev: Event): seq<Body> {
    match ev
    case Review(id, votes, name) => kind.reviewOut(client, known, ScoredReview(id, votes, name))
    case Name(id, name) => kind.nameOut(client, known, GameName(id, name))
  }

  /** The joiner's state is that of these games and these EOFs of the client. */
  ghost predicate Holds(kind: Kind, st: NodeState, client: string, evs: seq<Event>, origins: seq<nat>) {
    && Lookup(st.games, client) == KnownAfter(kind, evs)
    && (Recv(st.eofs, client).review <==> REVIEW_ORIGIN in origins)
    && (Recv(st.eofs, client).game <==> GAME_ORIGIN in origins)
  }

  lemma EofNext(kind: Kind, st: NodeState, client: string, origin: nat, evs: seq<Event>, origins: seq<nat>)
    requires Holds(kind, st, client, evs, origins)
    ensures var (st', outs) := Processed(kind, st, EofIn(client, origin), false);
            if Both(origins + [origin])
            then
              && outs == kind.flush(client, KnownAfter(kind, evs)) + [EofOut(client)]
              && client !in st'.games && client !in st'.eofs
            else outs == [] && Holds(kind, st', client, evs, origins + [origin])
  {
  }

  lemma EventNext(kind: Kind, st: NodeState, msg: Body, client: string, evs: seq<Event>, origins: seq<nat>)
    requires Holds(kind, st, client, evs, origins) && EventOf(msg, client).Some?
    ensures var (st', outs) := Processed(kind, st, msg, false); var ev := EventOf(msg, client).value;
            Holds(kind, st', client, evs + [ev], origins) && outs == Answer(kind, client, KnownAfter(kind, evs), ev)
  {
    KnownNext(kind, evs, EventOf(msg, client).value);
  }

  /** Whatever messages of whatever clients have come, the joiner holds what the client's messages since its last
      opening call for. */
  lemma {:induction false} HoldsSince(kind: Kind, log: seq<Body>, client: string)
    ensures Holds(kind, LiveState(kind, log), client, EventsSince(log, client), OriginsSince(log, client))
  {
    if log != [] {
      var init, last := log[..|log| - 1], log[|log| - 1];
      var st, evs, origins := LiveState(kind, init), EventsSince(init, client), OriginsSince(init, client);
      HoldsSince(kind, init, client);
      if EventOf(last, client).Some? {
        EventNext(kind, st, last, client, evs, origins);
      } else if last.EofIn? && last.client == client {
        EofNext(kind, st, client, last.origin, evs, origins);
      } else {
        OtherNext(kind, st, last, client);
      }
    }
  }

  lemma OtherNext(kind: Kind, st: NodeState, msg: Body, client: string)
    requires EventOf(msg, client).None? && (msg.EofIn? ==> msg.client != client)
    ensures var st' := Processed(kind, st, msg, false).0;
            Lookup(st'.games, client) == Lookup(st.games, client) && Recv(st'.eofs, client) == Recv(st.eofs, client)
  {
  }

  /** The barrier, for a joiner of any kind and any stream before: an EOF is answered, with the flush and then one EOF,
      and the client forgotten, if and only if with it EOFs of both origins have come since the last time. */
  lemma BarrierOpensIff(kind: Kind, log: seq<Body>, client: string, origin: nat)
    ensures var (st, outs) := Processed(kind, LiveState(kind, log), EofIn(client, origin), false);
            if Both(OriginsSince(log, client) + [origin])
            then
              && outs == kind.flush(client, KnownAfter(kind, EventsSince(log, client))) + [EofOut(client)]
              && client !in st.games && client !in st.eofs
            else
              && outs == []
              && Lookup(st.games, client) == KnownAfter(kind, EventsSince(log, client))
  {
    HoldsSince(kind, log, client);
    EofNext(kind, LiveState(kind, log), client, origin, EventsSince(log, client), OriginsSince(log, client));
  }

  /** Everything answered to the client's reviews and names since the last opening. */
  function Said(kind: Kind, log: seq<Body>, client: string): seq<Body> {
    if log == [] || Completes(log, client) then []
    else
      var init, last := log[..|log| - 1], log[|log| - 1];
      if EventOf(last, client).Some?
      then Said(kind, init, client) + Processed(kind, LiveState(kind, init), last, false).1
      else Said(kind, init, client)
  }

  /** All answers to a list of events. */
  function Answers(kind: Kind, client: string, evs: seq<Event>): seq<Body> {
    if evs == [] then []
    else
      var init := evs[..|evs| - 1];
      Answers(kind, client, init) + Answer(kind, client, KnownAfter(kind, init), evs[|evs| - 1])
  }

  lemma {:induction false} SaidIsAnswers(kind: Kind, log: seq<Body>, client: string)
    ensures Said(kind, log, client) == Answers(kind, client, EventsSince(log, client))
  {
    if log != [] && !Completes(log, client) {
      var init, ev := log[..|log| - 1], EventOf(log[|log| - 1], client);
      SaidIsAnswers(kind, init, client);
      if ev.Some? {
        var evs := EventsSince(init, client);
        HoldsSince(kind, init, client);
        EventNext(kind, LiveState(kind, init), log[|log| - 1], client, evs, OriginsSince(init, client));
        assert (evs + [ev.value])[..|evs|] == evs;
      }
    }
  }

  // The joiner of query 3.

  /** The totals of one client among what was published. */
  function TotalsOf(bodies: seq<Body>, client: string): seq<ScoredReview> {
    if bodies == [] then []
    else
      var last := bodies[|bodies| - 1];
      TotalsOf(bodies[..|bodies| - 1], client) + if last.ReviewsOut? && last.client == client then last.reviews else []
  }

  lemma {:induction false} TotalsConcat(a: seq<Body>, b: seq<Body>, client: string)
    ensures TotalsOf(a + b, client) == TotalsOf(a, client) + TotalsOf(b, client)
    decreases |b|
  {
    if b == [] {
      assert a + b == a;
    } else {
      assert (a + b)[..|a + b| - 1] == a + b[..|b| - 1];
      TotalsConcat(a, b[..|b| - 1], client);
    }
  }

  lemma OneTotal(outs: seq<Body>, client: string)
    ensures |outs| == 0 ==> TotalsOf(outs, client) == []
    ensures |outs| == 1 ==>
              TotalsOf(outs, client) ==
              (if outs[0].ReviewsOut? && outs[0].client == client then outs[0].reviews else [])
  {
    if |outs| == 1 {
      assert outs[..0] == [];
    }
  }

  lemma {:induction false} TopKnows(evs: seq<Event>)
    ensures KnownAfter(TopJoiner.TopKind(), evs) == GatherAll(evs)
  {
    if evs != [] {
      TopKnows(evs[..|evs| - 1]);
    }
  }

  lemma {:induction false} TopAnswers(client: string, evs: seq<Event>)
    ensures TotalsOf(Answers(TopJoiner.TopKind(), client, evs), client) == TopJoiner.Emitted(evs)
  {
    if evs != [] {
      var init, kind := evs[..|evs| - 1], TopJoiner.TopKind();
      var answer := Answer(kind, client, KnownAfter(kind, init), evs[|evs| - 1]);
      TopAnswers(client, init);
      TopKnows(init);
      OneTotal(answer, client);
      TotalsConcat(Answers(kind, client, init), answer, client);
    }
  }

  /** The joiner of query 3 over any stream: to a client's messages since its last opening it has answered the running
      totals; an EOF is answered with one EOF if EOFs of both origins are there, and not at all otherwise. */
  lemma TopJoinerRun(log: seq<Body>, client: string, origin: nat)
    ensures TotalsOf(Said(TopJoiner.TopKind(), log, client), client) == TopJoiner.Emitted(EventsSince(log, client))
    ensures var (st, outs) := Processed(TopJoiner.TopKind(), LiveState(TopJoiner.TopKind(), log),
                                        EofIn(client, origin), false);
            if Both(OriginsSince(log, client) + [origin])
            then outs == [EofOut(client)] && client !in st.games && client !in st.eofs
            else outs == [] && Lookup(st.games, client) == GatherAll(EventsSince(log, client))
  {
    SaidIsAnswers(TopJoiner.TopKind(), log, client);
    TopAnswers(client, EventsSince(log, client));
    TopKnows(EventsSince(log, client));
    BarrierOpensIff(TopJoiner.TopKind(), log, client, origin);
    assert [] + [EofOut(client)] == [EofOut(client)];
  }

  // The joiner of query 4.

  /** The names of one client among what was published. */
  function NamesOf(bodies: seq<Body>, client: string): seq<GameName> {
    if bodies == [] then []
    else
      var last := bodies[|bodies| - 1];
      NamesOf(bodies[..|bodies| - 1], client) + if last.NameOut? && last.client == client then [last.name] else []
  }

  lemma {:induction false} NamesConcat(a: seq<Body>, b: seq<Body>, client: string)
    ensures NamesOf(a + b, client) == NamesOf(a, client) + NamesOf(b, client)
    decreases |b|
  {
    if b == [] {
      assert a + b == a;
    } else {
      assert (a + b)[..|a + b| - 1] == a + b[..|b| - 1];
      NamesConcat(a, b[..|b| - 1], client);
    }
  }

  lemma {:induction false} NamesThere(client: string, names: seq<GameName>)
    ensures NamesOf(CounterJoiner.Names(client, names), client) == names
  {
    if names != [] {
      var init := names[..|names| - 1];
      NamesThere(client, init);
      assert CounterJoiner.Names(client, names)[..|names| - 1] == CounterJoiner.Names(client, init);
      assert names == init + [names[|names| - 1]];
    }
  }

  lemma {:induction false} CounterKnows(target: nat, evs: seq<Event>)
    ensures KnownAfter(CounterJoiner.CounterKind(target), evs) == CounterJoiner.Run(target, evs)
  {
    if evs != [] {
      CounterKnows(target, evs[..|evs| - 1]);
    }
  }

  lemma {:induction false} CounterAnswers(target: nat, client: string, evs: seq<Event>)
    ensures NamesOf(Answers(CounterJoiner.CounterKind(target), client, evs), client) ==
            CounterJoiner.Published(target, evs)
  {
    if evs != [] {
      var init, last, kind := evs[..|evs| - 1], evs[|evs| - 1], CounterJoiner.CounterKind(target);
      CounterAnswers(target, client, init);
      CounterKnows(target, init);
      NamesThere(client, CounterJoiner.EventOut(target, CounterJoiner.Run(target, init), last));
      NamesConcat(Answers(kind, client, init), Answer(kind, client, KnownAfter(kind, init), last), client);
    }
  }

  /** The joiner of query 4 over any stream: to a client's messages since its last opening it has answered the games
      that reached the target, each as often as they did; an EOF is answered with one EOF if EOFs of both origins are
      there, and not at all otherwise. */
  lemma CounterJoinerRun(target: nat, log: seq<Body>, client: string, origin: nat)
    ensures NamesOf(Said(CounterJoiner.CounterKind(target), log, client), client) ==
            CounterJoiner.Published(target, EventsSince(log, client))
    ensures var kind := CounterJoiner.CounterKind(target);
            var (st, outs) := Processed(kind, LiveState(kind, log), EofIn(client, origin), false);
            if Both(OriginsSince(log, client) + [origin])
            then outs == [EofOut(client)] && client !in st.games && client !in st.eofs
            else outs == [] && Lookup(st.games, client) == CounterJoiner.Run(target, EventsSince(log, client))
  {
    SaidIsAnswers(CounterJoiner.CounterKind(target), log, client);
    CounterAnswers(target, client, EventsSince(log, client));
    CounterKnows(target, EventsSince(log, client));
    BarrierOpensIff(CounterJoiner.CounterKind(target), log, client, origin);
    assert [] + [EofOut(client)] == [EofOut(client)];
  }

  // The joiner of query 5.

  lemma {:induction false} PercentileKnows(size: nat, walk: PercentileJoiner.Walk, evs: seq<Event>)
    ensures KnownAfter(PercentileJoiner.PercentileKind(size, walk), evs) == GatherAll(evs)
  {
    if evs != [] {
      PercentileKnows(size, walk, evs[..|evs| - 1]);
    }
  }

  lemma {:induction false} PercentileAnswers(size: nat, walk: PercentileJoiner.Walk, client: string, evs: seq<Event>)
    ensures Answers(PercentileJoiner.PercentileKind(size, walk), client, evs) == []
  {
    if evs != [] {
      PercentileAnswers(size, walk, client, evs[..|evs| - 1]);
    }
  }

  /** These messages are the client's reviews in batches of at most size, all but the last full. */
  ghost predicate InBatches(bodies: seq<Body>, client: string, size: nat, reviews: seq<ScoredReview>) {
    && (forall i :: 0 <= i < |bodies| ==> bodies[i].ReviewsOut? && bodies[i].client == client)
    && var batches := seq(|bodies|, i requires 0 <= i < |bodies| =>
                          if bodies[i].ReviewsOut? then bodies[i].reviews else []);
       Concat(batches) == reviews && Cut(batches, size)
  }

  lemma FlushInBatches(size: nat, walk: PercentileJoiner.Walk, client: string, games: Games)
    ensures InBatches(PercentileJoiner.Flush(size, walk, client, Some(games)), client, PercentileJoiner.Size(size),
                      PercentileJoiner.Wanted(games, walk(games)))
  {
    var batches := CutOf(PercentileJoiner.Wanted(games, walk(games)), PercentileJoiner.Size(size));
    var bodies := PercentileJoiner.Flush(size, walk, client, Some(games));
    CutOfIsCut(PercentileJoiner.Wanted(games, walk(games)), PercentileJoiner.Size(size));
    assert seq(|bodies|, i requires 0 <= i < |bodies| =>
               if bodies[i].ReviewsOut? then bodies[i].reviews else []) == batches;
  }

  lemma FlushThenEof(size: nat, walk: PercentileJoiner.Walk, client: string, known: Known)
    ensures var outs := PercentileJoiner.Flush(size, walk, client, known) + [EofOut(client)];
            && outs != [] && outs[|outs| - 1] == EofOut(client)
            && InBatches(outs[..|outs| - 1], client, if size == 0 then 1 else size,
                         if known.None? then [] else PercentileJoiner.Wanted(known.value, walk(known.value)))
  {
    var flush := PercentileJoiner.Flush(size, walk, client, known);
    assert (flush + [EofOut(client)])[..|flush|] == flush;
    if known.Some? {
      FlushInBatches(size, walk, client, known.value);
    }
  }

  /** The joiner of query 5 over any stream: a client's messages are not answered until an EOF with which EOFs of both
      origins are there; that is answered with the publishable games gathered since the last opening, in batches, and
      then one EOF, and the client is forgotten. */
  lemma PercentileJoinerRun(size: nat, walk: PercentileJoiner.Walk, log: seq<Body>, client: string, origin: nat)
    ensures Said(PercentileJoiner.PercentileKind(size, walk), log, client) == []
    ensures var kind, known := PercentileJoiner.PercentileKind(size, walk), GatherAll(EventsSince(log, client));
            var (st, outs) := Processed(kind, LiveState(kind, log), EofIn(client, origin), false);
            if Both(OriginsSince(log, client) + [origin])
            then
              && outs != [] && outs[|outs| - 1] == EofOut(client)
              && InBatches(outs[..|outs| - 1], client, if size == 0 then 1 else size,
                           if known.None? then [] else PercentileJoiner.Wanted(known.value, walk(known.value)))
              && client !in st.games && client !in st.eofs
            else outs == [] && Lookup(st.games, client) == known
  {
    var kind, known := PercentileJoiner.PercentileKind(size, walk), GatherAll(EventsSince(log, client));
    SaidIsAnswers(kind, log, client);
    PercentileAnswers(size, walk, client, EventsSince(log, client));
    PercentileKnows(size, walk, EventsSince(log, client));
    BarrierOpensIff(kind, log, client, origin);
    FlushThenEof(size, walk, client, known);
  }
}
