/** The fan-in barrier: several producers send data of a client and then one EOF each, over FIFO queues to one consumer.
    Aggregators, and the filter behind the joiners, count the EOFs; joiners wait for one of either origin. */
module FanIn {
  import Joiner
  import Aggregator
  import EofCounts

  type Client = string

  datatype Item = Data(client: Client, from: nat, body: int) | Eof(client: Client, from: nat)

  /** home(p) is the queue that producer p sends to. */
  datatype Config = Config(producers: nat, queues: nat, home: nat -> nat)

  /** put and taken remember everything that was sent, and everything the consumer has handled. */
  datatype State = State(queues: seq<seq<Item>>, closed: set<(nat, Client)>, put: seq<Item>, taken: seq<Item>)

  datatype Action = Put(from: nat, client: Client, body: int) | Close(from: nat, client: Client) | Take(queue: nat)

  ghost predicate ValidConfig(cfg: Config) {
    forall p {:trigger cfg.home(p)} :: 0 <= p < cfg.producers ==> cfg.home(p) < cfg.queues
  }

  function Sent(cfg: Config, st: State, item: Item): State {
    var q := cfg.home(item.from);
    if q < |st.queues| then st.(queues := st.queues[q := st.queues[q] + [item]], put := st.put + [item]) else st
  }

  /** A producer sends nothing of a client behind its EOF. */
  function Step(cfg: Config, st: State, a: Action): State {
    match a
    case Put(p, c, body) => if p < cfg.producers && (p, c) !in st.closed then Sent(cfg, st, Data(c, p, body)) else st
    case Close(p, c) =>
      if p < cfg.producers && (p, c) !in st.closed
      then Sent(cfg, st.(closed := st.closed + {(p, c)}), Eof(c, p)) else st
    case Take(q) =>
      if q < |st.queues| && st.queues[q] != []
      then st.(queues := st.queues[q := st.queues[q][1..]], taken := st.taken + [st.queues[q][0]]) else st
  }

  function Boot(cfg: Config): State {
    State(seq(cfg.queues, _ => []), {}, [], [])
  }

  function Exec(cfg: Config, acts: seq<Action>): State {
    if acts == [] then Boot(cfg) else Step(cfg, Exec(cfg, acts[..|acts| - 1]), acts[|acts| - 1])
  }

  /** What one producer has in a list, of one client. */
  function Own(s: seq<Item>, p: nat, c: Client): seq<Item> {
    if s == [] then []
    else Own(s[..|s| - 1], p, c) + if s[|s| - 1].from == p && s[|s| - 1].client == c then [s[|s| - 1]] else []
  }

  function Alone(x: Item, p: nat, c: Client): seq<Item> {
    if x.from == p && x.client == c then [x] else []
  }

  lemma OwnSnoc(s: seq<Item>, x: Item, p: nat, c: Client)
    ensures Own(s + [x], p, c) == Own(s, p, c) + Alone(x, p, c)
  {
    assert (s + [x])[..|s|] == s;
  }

  lemma {:induction false} OwnConcat(a: seq<Item>, b: seq<Item>, p: nat, c: Client)
    ensures Own(a + b, p, c) == Own(a, p, c) + Own(b, p, c)
    decreases |b|
  {
    if b == [] {
      assert a + b == a;
    } else {
      assert (a + b)[..|a + b| - 1] == a + b[..|b| - 1];
      OwnConcat(a, b[..|b| - 1], p, c);
    }
  }

  lemma OwnHead(s: seq<Item>, p: nat, c: Client)
    requires s != []
    ensures Own(s, p, c) == Alone(s[0], p, c) + Own(s[1..], p, c)
  {
    assert s == [s[0]] + s[1..];
    OwnConcat([s[0]], s[1..], p, c);
    OwnSnoc([], s[0], p, c);
    assert [] + [s[0]] == [s[0]];
  }

  lemma {:induction false} OwnMember(s: seq<Item>, x: Item)
    ensures x in Own(s, x.from, x.client) <==> x in s
  {
    if s != [] {
      assert s == s[..|s| - 1] + [s[|s| - 1]];
      OwnMember(s[..|s| - 1], x);
    }
  }

  lemma {:induction false} OwnIsOwn(s: seq<Item>, p: nat, c: Client, x: Item)
    requires x in Own(s, p, c)
    ensures x.from == p && x.client == c && x in s
  {
    assert s == s[..|s| - 1] + [s[|s| - 1]];
    if x in Own(s[..|s| - 1], p, c) {
      OwnIsOwn(s[..|s| - 1], p, c, x);
    }
  }

  /** Data, and an EOF behind it exactly if the producer has closed the client. */
  ghost predicate Proper(s: seq<Item>, closed: bool) {
    && (forall i :: 0 <= i < |s| - 1 ==> s[i].Data?)
    && (|s| > 0 ==> (s[|s| - 1].Eof? <==> closed))
    && (closed ==> |s| > 0)
  }

  /** One producer and one client: what was put is what was taken and what waits, all of it in one queue. */
  ghost predicate LaneOk(cfg: Config, st: State, p: nat, c: Client) {
    var home := cfg.home(p);
    && home < |st.queues|
    && Own(st.put, p, c) == Own(st.taken, p, c) + Own(st.queues[home], p, c)
    && (forall q :: 0 <= q < |st.queues| && q != home ==> Own(st.queues[q], p, c) == [])
    && Proper(Own(st.put, p, c), (p, c) in st.closed)
  }

  lemma BootLane(cfg: Config, p: nat, c: Client)
    requires ValidConfig(cfg) && p < cfg.producers
    ensures LaneOk(cfg, Boot(cfg), p, c)
  {
  }

  lemma ProperSnoc(s: seq<Item>, x: Item)
    requires Proper(s, false)
    ensures Proper(s + [x], x.Eof?)
  {
  }

  lemma SentHere(put: seq<Item>, taken: seq<Item>, queue: seq<Item>, x: Item, p: nat, c: Client)
    requires Own(put, p, c) == Own(taken, p, c) + Own(queue, p, c)
    ensures Own(put + [x], p, c) == Own(taken, p, c) + Own(queue + [x], p, c)
  {
    OwnSnoc(put, x, p, c);
    OwnSnoc(queue, x, p, c);
    Behind(Own(taken, p, c), Own(queue, p, c), Alone(x, p, c));
  }

  lemma SentElsewhere(s: seq<Item>, x: Item, p: nat, c: Client)
    requires Alone(x, p, c) == []
    ensures Own(s + [x], p, c) == Own(s, p, c)
  {
    OwnSnoc(s, x, p, c);
    Behind(Own(s, p, c), [], []);
  }

  lemma SentLane(cfg: Config, st: State, item: Item, closed: set<(nat, Client)>, p: nat, c: Client)
    requires LaneOk(cfg, st, p, c) && (item.from, item.client) !in st.closed
    requires closed == if item.Eof? then st.closed + {(item.from, item.client)} else st.closed
    ensures LaneOk(cfg, Sent(cfg, st.(closed := closed), item), p, c)
  {
    if cfg.home(item.from) < |st.queues| {
      if item.from == p && item.client == c {
        OwnLane(cfg, st, item, closed);
      } else {
        OtherLane(cfg, st, item, closed, p, c);
      }
    }
  }

  lemma OwnLane(cfg: Config, st: State, item: Item, closed: set<(nat, Client)>)
    requires LaneOk(cfg, st, item.from, item.client) && (item.from, item.client) !in st.closed
    requires closed == if item.Eof? then st.closed + {(item.from, item.client)} else st.closed
    ensures LaneOk(cfg, Sent(cfg, st.(closed := closed), item), item.from, item.client)
  {
    var p, c := item.from, item.client;
    SentHere(st.put, st.taken, st.queues[cfg.home(p)], item, p, c);
    OwnSnoc(st.put, item, p, c);
    ProperSnoc(Own(st.put, p, c), item);
  }

  lemma OtherLane(cfg: Config, st: State, item: Item, closed: set<(nat, Client)>, p: nat, c: Client)
    requires LaneOk(cfg, st, p, c) && Alone(item, p, c) == [] && cfg.home(item.from) < |st.queues|
    requires (p, c) in closed <==> (p, c) in st.closed
    ensures LaneOk(cfg, Sent(cfg, st.(closed := closed), item), p, c)
  {
    SentElsewhere(st.put, item, p, c);
    SentElsewhere(st.queues[cfg.home(item.from)], item, p, c);
  }

  lemma Behind(a: seq<Item>, b: seq<Item>, x: seq<Item>)
    ensures (a + b) + x == a + (b + x)
    ensures a + [] == a
  {
  }

  lemma TakenHere(st: State, q: nat, p: nat, c: Client)
    requires q < |st.queues| && st.queues[q] != []
    ensures Own(st.taken + [st.queues[q][0]], p, c) + Own(st.queues[q][1..], p, c) ==
            Own(st.taken, p, c) + Own(st.queues[q], p, c)
    ensures Own(st.queues[q], p, c) == [] ==>
              Own(st.taken + [st.queues[q][0]], p, c) == Own(st.taken, p, c) && Own(st.queues[q][1..], p, c) == []
  {
    var x, rest := st.queues[q][0], Own(st.queues[q][1..], p, c);
    OwnHead(st.queues[q], p, c);
    OwnSnoc(st.taken, x, p, c);
    Behind(Own(st.taken, p, c), Alone(x, p, c), rest);
    if Own(st.queues[q], p, c) == [] {
      NoneOfBoth(Alone(x, p, c), rest);
    }
  }

  lemma NoneOfBoth(a: seq<Item>, b: seq<Item>)
    ensures a + b == [] ==> a == [] && b == []
  {
    assert |a + b| == |a| + |b|;
  }

  lemma TakenLane(cfg: Config, st: State, q: nat, p: nat, c: Client)
    requires LaneOk(cfg, st, p, c) && q < |st.queues| && st.queues[q] != []
    ensures LaneOk(cfg, Step(cfg, st, Take(q)), p, c)
  {
    TakenHere(st, q, p, c);
  }

  /** What waits of one producer and one client. */
  function Waits(cfg: Config, st: State, p: nat, c: Client): seq<Item> {
    if cfg.home(p) < |st.queues| then Own(st.queues[cfg.home(p)], p, c) else []
  }

  // Counting EOFs.

  function EofCount(s: seq<Item>, c: Client): nat {
    if s == [] then 0
    else EofCount(s[..|s| - 1], c) + if s[|s| - 1].Eof? && s[|s| - 1].client == c then 1 else 0
  }

  /** The producers whose EOF is in the list. */
  ghost function Arrived(s: seq<Item>, c: Client): set<nat> {
    set i | 0 <= i < |s| && s[i] == Eof(c, s[i].from) :: s[i].from
  }

  lemma ArrivedIff(s: seq<Item>, c: Client, p: nat)
    ensures p in Arrived(s, c) <==> Eof(c, p) in s
  {
  }

  lemma ArrivedSnoc(s: seq<Item>, x: Item, c: Client)
    ensures Arrived(s + [x], c) == Arrived(s, c) + if x.Eof? && x.client == c then {x.from} else {}
    ensures EofCount(s + [x], c) == EofCount(s, c) + if x.Eof? && x.client == c then 1 else 0
  {
    assert (s + [x])[..|s|] == s;
    forall p
      ensures p in Arrived(s + [x], c) <==> p in Arrived(s, c) + (if x.Eof? && x.client == c then {x.from} else {})
    {
      ArrivedIff(s + [x], c, p);
      ArrivedIff(s, c, p);
    }
  }

  /** Every EOF counted is that of another producer. */
  ghost predicate CountOk(cfg: Config, st: State, c: Client) {
    && EofCount(st.taken, c) == |Arrived(st.taken, c)|
    && (forall p :: p in Arrived(st.taken, c) ==> p < cfg.producers)
    && (forall q, i {:trigger st.queues[q][i]} :: 0 <= q < |st.queues| && 0 <= i < |st.queues[q]| ==>
          st.queues[q][i].from < cfg.producers)
  }

  ghost predicate AllOk(cfg: Config, st: State, c: Client) {
    CountOk(cfg, st, c) && forall p {:trigger LaneOk(cfg, st, p, c)} :: 0 <= p < cfg.producers ==> LaneOk(cfg, st, p, c)
  }

  /** A producer whose EOF has been taken has nothing left of the client, and will have nothing. */
  lemma ArrivedIsDone(cfg: Config, st: State, p: nat, c: Client)
    requires LaneOk(cfg, st, p, c)
    ensures Eof(c, p) in st.taken <==> (p, c) in st.closed && Waits(cfg, st, p, c) == []
    ensures Eof(c, p) in st.taken ==> Own(st.taken, p, c) == Own(st.put, p, c)
  {
    var all, taken, left := Own(st.put, p, c), Own(st.taken, p, c), Own(st.queues[cfg.home(p)], p, c);
    OwnMember(st.taken, Eof(c, p));
    if Eof(c, p) in taken {
      var i :| 0 <= i < |taken| && taken[i] == Eof(c, p);
      assert all[i].Eof?;
      assert |left| == 0;
    } else if (p, c) in st.closed && left == [] {
      var last := taken[|taken| - 1];
      assert all == taken && last in Own(st.taken, p, c);
      OwnIsOwn(st.taken, p, c, last);
    }
  }

  /** An EOF is taken once. */
  lemma EofIsNew(cfg: Config, st: State, q: nat, x: Item)
    requires AllOk(cfg, st, x.client) && q < |st.queues| && x in st.queues[q] && x.Eof?
    ensures x.from !in Arrived(st.taken, x.client) && x.from < cfg.producers
  {
    var i :| 0 <= i < |st.queues[q]| && st.queues[q][i] == x;
    assert LaneOk(cfg, st, x.from, x.client);
    OwnMember(st.queues[q], x);
    ArrivedIsDone(cfg, st, x.from, x.client);
    ArrivedIff(st.taken, x.client, x.from);
  }

  lemma TakenCounts(cfg: Config, st: State, q: nat, c: Client)
    requires AllOk(cfg, st, c) && q < |st.queues| && st.queues[q] != []
    ensures CountOk(cfg, Step(cfg, st, Take(q)), c)
  {
    var x := st.queues[q][0];
    ArrivedSnoc(st.taken, x, c);
    if x.Eof? && x.client == c {
      EofIsNew(cfg, st, q, x);
    }
  }

  lemma SentCounts(cfg: Config, st: State, item: Item, closed: set<(nat, Client)>, c: Client)
    requires CountOk(cfg, st, c) && item.from < cfg.producers
    ensures CountOk(cfg, Sent(cfg, st.(closed := closed), item), c)
  {
  }

  lemma StepOk(cfg: Config, st: State, a: Action, c: Client)
    requires AllOk(cfg, st, c)
    ensures AllOk(cfg, Step(cfg, st, a), c)
  {
    var st' := Step(cfg, st, a);
    if st' != st {
      if a.Take? {
        TakenCounts(cfg, st, a.queue, c);
      } else {
        SentCounts(cfg, st, if a.Put? then Data(a.client, a.from, a.body) else Eof(a.client, a.from), st'.closed, c);
      }
      forall p | 0 <= p < cfg.producers
        ensures LaneOk(cfg, st', p, c)
      {
        assert LaneOk(cfg, st, p, c);
        match a
        case Put(from, client, body) => SentLane(cfg, st, Data(client, from, body), st.closed, p, c);
        case Close(from, client) => SentLane(cfg, st, Eof(client, from), st.closed + {(from, client)}, p, c);
        case Take(q) => TakenLane(cfg, st, q, p, c);
      }
    }
  }

  lemma {:induction false} AlwaysOk(cfg: Config, acts: seq<Action>, c: Client)
    requires ValidConfig(cfg)
    ensures AllOk(cfg, Exec(cfg, acts), c)
  {
    if acts == [] {
      forall p | 0 <= p < cfg.producers
        ensures LaneOk(cfg, Boot(cfg), p, c)
      {
        BootLane(cfg, p, c);
      }
    } else {
      AlwaysOk(cfg, acts[..|acts| - 1], c);
      StepOk(cfg, Exec(cfg, acts[..|acts| - 1]), acts[|acts| - 1], c);
    }
  }

  lemma {:induction false} FullSet(s: set<nat>, n: nat)
    requires forall p :: p in s ==> p < n
    ensures |s| <= n
    ensures |s| == n <==> forall p :: 0 <= p < n ==> p in s
  {
    if n > 0 {
      var rest := s - {n - 1};
      FullSet(rest, n - 1);
      if n - 1 !in s {
        assert rest == s;
      } else {
        assert s == rest + {n - 1};
      }
    } else {
      assert s == {};
    }
  }

  /** Nothing of the client is in any queue. */
  ghost predicate NothingOf(st: State, c: Client) {
    forall q, i {:trigger st.queues[q][i]} :: 0 <= q < |st.queues| && 0 <= i < |st.queues[q]| ==>
      st.queues[q][i].client != c
  }

  ghost predicate AllClosed(cfg: Config, st: State, c: Client) {
    forall p :: 0 <= p < cfg.producers ==> (p, c) in st.closed
  }

  /** The client is through: nothing of it waits, and nothing will come. */
  ghost predicate Finished(cfg: Config, st: State, c: Client) {
    AllClosed(cfg, st, c) && NothingOf(st, c)
  }

  /** Whatever waits anywhere waits in the queue of its producer. */
  lemma WaitingHasOwner(cfg: Config, st: State, q: nat, x: Item)
    requires AllOk(cfg, st, x.client) && q < |st.queues| && x in st.queues[q]
    ensures x.from < cfg.producers && Waits(cfg, st, x.from, x.client) != []
  {
    var i :| 0 <= i < |st.queues[q]| && st.queues[q][i] == x;
    OwnMember(st.queues[q], x);
    assert LaneOk(cfg, st, x.from, x.client);
  }

  lemma WaitsWhenThere(cfg: Config, st: State, p: nat, c: Client)
    requires Waits(cfg, st, p, c) != []
    ensures !NothingOf(st, c)
  {
    var queue := st.queues[cfg.home(p)];
    var x := Own(queue, p, c)[0];
    OwnIsOwn(queue, p, c, x);
    var i :| 0 <= i < |queue| && queue[i] == x;
    assert st.queues[cfg.home(p)][i].client == c;
  }

  lemma NothingIff(cfg: Config, st: State, c: Client)
    requires AllOk(cfg, st, c)
    ensures NothingOf(st, c) <==> forall p :: 0 <= p < cfg.producers ==> Waits(cfg, st, p, c) == []
  {
    if p: nat :| Waits(cfg, st, p, c) != [] {
      WaitsWhenThere(cfg, st, p, c);
    }
    if !NothingOf(st, c) {
      var q, i :| 0 <= q < |st.queues| && 0 <= i < |st.queues[q]| && st.queues[q][i].client == c;
      WaitingHasOwner(cfg, st, q, st.queues[q][i]);
    }
  }

  /** The fan-in barrier. On every schedule, as many EOFs of a client have been handled as there are producers if and
      only if every producer has closed the client and no queue holds anything of it. Then everything put has been
      handled. */
  lemma LastEofIff(cfg: Config, acts: seq<Action>, c: Client)
    requires ValidConfig(cfg)
    ensures var st := Exec(cfg, acts);
            && EofCount(st.taken, c) <= cfg.producers
            && (EofCount(st.taken, c) == cfg.producers <==> Finished(cfg, st, c))
            && (EofCount(st.taken, c) == cfg.producers ==>
                  forall p :: 0 <= p < cfg.producers ==> Own(st.taken, p, c) == Own(st.put, p, c))
  {
    var st := Exec(cfg, acts);
    AlwaysOk(cfg, acts, c);
    FullSet(Arrived(st.taken, c), cfg.producers);
    NothingIff(cfg, st, c);
    forall p | 0 <= p < cfg.producers
      ensures p in Arrived(st.taken, c) <==> (p, c) in st.closed && Waits(cfg, st, p, c) == []
      ensures p in Arrived(st.taken, c) ==> Own(st.taken, p, c) == Own(st.put, p, c)
    {
      assert LaneOk(cfg, st, p, c);
      ArrivedIsDone(cfg, st, p, c);
      ArrivedIff(st.taken, c, p);
    }
  }

  lemma ExecNext(cfg: Config, acts: seq<Action>, more: seq<Action>)
    requires more != []
    ensures Exec(cfg, acts + more) == Step(cfg, Exec(cfg, acts + more[..|more| - 1]), more[|more| - 1])
  {
    assert (acts + more)[..|acts + more| - 1] == acts + more[..|more| - 1];
  }

  /** It stays that way: of a client that all have closed nothing more is put or handled. */
  lemma {:induction false} FinishedForGood(cfg: Config, acts: seq<Action>, more: seq<Action>, c: Client)
    requires Finished(cfg, Exec(cfg, acts), c)
    ensures Finished(cfg, Exec(cfg, acts + more), c)
    ensures EofCount(Exec(cfg, acts + more).taken, c) == EofCount(Exec(cfg, acts).taken, c)
    decreases |more|
  {
    if more == [] {
      assert acts + more == acts;
    } else {
      var init := more[..|more| - 1];
      FinishedForGood(cfg, acts, init, c);
      ExecNext(cfg, acts, more);
      FinishedStep(cfg, Exec(cfg, acts + init), more[|more| - 1], c);
    }
  }

  lemma FinishedStep(cfg: Config, st: State, a: Action, c: Client)
    requires Finished(cfg, st, c)
    ensures Finished(cfg, Step(cfg, st, a), c)
    ensures EofCount(Step(cfg, st, a).taken, c) == EofCount(st.taken, c)
  {
    if a.Take? && a.queue < |st.queues| && st.queues[a.queue] != [] {
      ArrivedSnoc(st.taken, st.queues[a.queue][0], c);
    }
  }

  /** The consumers' counters. An aggregator told the number of its producers gives the client up on the EOF with which
      everything of it has been handled, and not before. */
  lemma AggregatorOpensIff(cfg: Config, acts: seq<Action>, c: Client)
    requires ValidConfig(cfg) && 0 < cfg.producers < 256
    ensures var st := Exec(cfg, acts);
            Aggregator.AfterEofs(cfg.producers, c, EofCount(st.taken, c)).1 <==> Finished(cfg, st, c)
  {
    LastEofIff(cfg, acts, c);
    Aggregator.ReachedExactlyAtExpected(cfg.producers, c, EofCount(Exec(cfg, acts).taken, c));
    EofCounts.WithinRound(EofCount(Exec(cfg, acts).taken, c), cfg.producers);
  }

  /** The origins of the EOFs of a client, in order. */
  function Origins(s: seq<Item>, c: Client): seq<nat> {
    if s == [] then []
    else Origins(s[..|s| - 1], c) + if s[|s| - 1].Eof? && s[|s| - 1].client == c then [s[|s| - 1].from] else []
  }

  lemma {:induction false} OriginsMember(s: seq<Item>, c: Client, p: nat)
    ensures p in Origins(s, c) <==> Eof(c, p) in s
  {
    if s != [] {
      assert s == s[..|s| - 1] + [s[|s| - 1]];
      OriginsMember(s[..|s| - 1], c, p);
    }
  }

  /** A joiner has two producers, told apart by the origin of their EOFs. Both its marks are set exactly when everything
      of the client, from either queue, has been handled. */
  lemma JoinerOpensIff(cfg: Config, acts: seq<Action>, c: Client)
    requires ValidConfig(cfg) && cfg.producers == 2
    ensures var st := Exec(cfg, acts); Joiner.Opened(c, Origins(st.taken, c)) <==> Finished(cfg, st, c)
  {
    var st := Exec(cfg, acts);
    LastEofIff(cfg, acts, c);
    AlwaysOk(cfg, acts, c);
    TwoOfTwo(Arrived(st.taken, c));
    Joiner.OpensWhenBothSidesArrived(c, Origins(st.taken, c));
    OriginArrived(st.taken, c, Joiner.REVIEW_ORIGIN);
    OriginArrived(st.taken, c, Joiner.GAME_ORIGIN);
  }

  lemma OriginArrived(s: seq<Item>, c: Client, p: nat)
    ensures p in Origins(s, c) <==> p in Arrived(s, c)
  {
    OriginsMember(s, c, p);
    ArrivedIff(s, c, p);
  }

  lemma TwoOfTwo(s: set<nat>)
    requires forall p :: p in s ==> p < 2
    ensures |s| == 2 <==> Joiner.REVIEW_ORIGIN in s && Joiner.GAME_ORIGIN in s
  {
    FullSet(s, 2);
  }
}
