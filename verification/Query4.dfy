/** Query 4 from end to end: sharded joiners that publish a game when its votes reach the target, and the aggregator
    that sends the names on in batches. */
module Query4 {
  import Joiner
  import CounterJoiner
  import CounterAggregator
  import EofCounts
  import opened Messages
  import opened Sums
  import opened Batches
  import opened Sharding

  type Event = Joiner.Event

  ghost predicate AllPublished(target: nat, shards: seq<seq<Event>>, names: seq<seq<GameName>>) {
    |names| == |shards| && forall j :: 0 <= j < |shards| ==> names[j] == CounterJoiner.Published(target, shards[j])
  }

  function OfGame(id: int): GameName -> nat {
    (m: GameName) => if m.gameId == id then 1 else 0
  }

  /** How often a game is in a list. */
  function Times(names: seq<GameName>, id: int): nat {
    SumOf(OfGame(id), names)
  }

  lemma OneOut(target: nat, known: Joiner.Known, ev: Event, id: int)
    ensures var out := CounterJoiner.EventOut(target, known, ev);
            |out| <= 1 && Times(out, id) == (if ev.gameId == id then |out| else 0)
  {
    var out := CounterJoiner.EventOut(target, known, ev);
    if out != [] {
      assert out[..0] == [] && SumOf(OfGame(id), out[..0]) == 0;
    }
  }

  lemma {:induction false} TimesPublished(target: nat, evs: seq<Event>, id: int)
    ensures Times(CounterJoiner.Published(target, evs), id) == |CounterJoiner.EmittedFor(target, evs, id)|
  {
    if evs != [] {
      var init := evs[..|evs| - 1];
      var known := CounterJoiner.Run(target, init);
      TimesPublished(target, init, id);
      OneOut(target, known, evs[|evs| - 1], id);
      SumAppend(OfGame(id), CounterJoiner.Published(target, init),
                CounterJoiner.EventOut(target, known, evs[|evs| - 1]));
    }
  }

  lemma {:induction false} PublishedMember(target: nat, evs: seq<Event>, m: GameName)
    requires m in CounterJoiner.Published(target, evs)
    ensures m in CounterJoiner.EmittedFor(target, evs, m.gameId)
  {
    var init, last := evs[..|evs| - 1], evs[|evs| - 1];
    if m in CounterJoiner.Published(target, init) {
      PublishedMember(target, init, m);
    }
  }

  /** With one name per game no name is late. */
  lemma OnceIsTimely(target: nat, evs: seq<Event>, id: int)
    requires Joiner.NamedOnce(evs)
    ensures CounterJoiner.NoLateName(target, evs, id)
  {
    forall i | 0 <= i < |evs| && evs[i].Name? && evs[i].gameId == id
      ensures !CounterJoiner.Reached(target, evs[..i], id)
    {
      assert forall k :: 0 <= k < i ==> evs[..i][k] == evs[k];
    }
  }

  lemma ShardKeepsUnnamed(part: seq<Event>, all: seq<Event>, shard: int -> nat, j: nat)
    requires IsShard(part, all, shard, j) && CounterJoiner.ReviewsUnnamed(all)
    ensures CounterJoiner.ReviewsUnnamed(part)
  {
    forall i | 0 <= i < |part| && part[i].Review?
      ensures part[i].gameName == ""
    {
      var k := ShardOnlyHas(part, all, shard, j, i);
    }
  }

  ghost predicate Proper(all: seq<Event>) {
    Joiner.NamesNonempty(all) && Joiner.NamedOnce(all) && CounterJoiner.ReviewsUnnamed(all)
  }

  /** The votes that a joiner does not count: those of its first message for the client, if that is a review. */
  function Uncounted(part: seq<Event>, id: int): nat {
    if part != [] && part[0].Review? && part[0].gameId == id then part[0].votes else 0
  }

  /** A game is due when its name has come and the votes counted for it reach the target. */
  predicate Due(target: nat, all: seq<Event>, part: seq<Event>, id: int) {
    Joiner.Named(all, id) && Joiner.Total(all, id) >= target + Uncounted(part, id)
  }

  /** The same, of the joiner that the game is routed to. */
  predicate DueIn(target: nat, all: seq<Event>, shard: int -> nat, shards: seq<seq<Event>>, id: int) {
    shard(id) < |shards| && Due(target, all, shards[shard(id)], id)
  }

  lemma OwnShardPublishes(target: nat, part: seq<Event>, all: seq<Event>, shard: int -> nat, id: int)
    requires target > 0 && Proper(all) && IsShard(part, all, shard, shard(id))
    ensures Times(CounterJoiner.Published(target, part), id) == if Due(target, all, part, id) then 1 else 0
  {
    ShardKeepsNonempty(part, all, shard, shard(id));
    ShardKeepsNamedOnce(part, all, shard, shard(id));
    ShardKeepsUnnamed(part, all, shard, shard(id));
    OnceIsTimely(target, part, id);
    TimesPublished(target, part, id);
    CounterJoiner.EmittedOnceAtTarget(target, part, id);
    ShardKnows(part, all, shard, shard(id), id);
    if part != [] {
      CounterJoiner.CountedIsTotalButFirst(part, id);
    }
  }

  lemma OtherShardPublishes(target: nat, part: seq<Event>, all: seq<Event>, shard: int -> nat, j: nat, id: int)
    requires target > 0 && Proper(all) && IsShard(part, all, shard, j) && shard(id) != j
    ensures Times(CounterJoiner.Published(target, part), id) == 0
  {
    ShardKeepsNonempty(part, all, shard, j);
    ShardKeepsNamedOnce(part, all, shard, j);
    ShardKeepsUnnamed(part, all, shard, j);
    OnceIsTimely(target, part, id);
    TimesPublished(target, part, id);
    CounterJoiner.EmittedOnceAtTarget(target, part, id);
    ShardIgnores(part, all, shard, j, id);
  }

  lemma TimesConcat(names: seq<seq<GameName>>, k: nat, id: int)
    requires k < |names|
    ensures Times(Concat(names[..k + 1]), id) == Times(Concat(names[..k]), id) + Times(names[k], id)
  {
    assert names[..k + 1] == names[..k] + [names[k]];
    ConcatSnoc(names[..k], names[k]);
    SumAppend(OfGame(id), Concat(names[..k]), names[k]);
  }

  lemma {:induction false} ShardsPublish(target: nat, all: seq<Event>, shard: int -> nat, shards: seq<seq<Event>>,
                                         names: seq<seq<GameName>>, id: int, k: nat)
    requires target > 0 && Proper(all) && Distributed(shards, all, shard) && AllPublished(target, shards, names)
    requires k <= |shards|
    ensures Times(Concat(names[..k]), id) ==
            if shard(id) < k && DueIn(target, all, shard, shards, id) then 1 else 0
  {
    if k > 0 {
      ShardsPublish(target, all, shard, shards, names, id, k - 1);
      TimesConcat(names, k - 1, id);
      if shard(id) == k - 1 {
        OwnShardPublishes(target, shards[k - 1], all, shard, id);
      } else {
        OtherShardPublishes(target, shards[k - 1], all, shard, k - 1, id);
      }
    }
  }

  /** What is published of a game carries a name that came in for it. */
  ghost predicate Carried(all: seq<Event>, names: seq<GameName>) {
    forall m :: m in names ==> Joiner.Name(m.gameId, m.gameName) in all
  }

  lemma ShardCarries(target: nat, part: seq<Event>, all: seq<Event>, shard: int -> nat, j: nat)
    requires target > 0 && Proper(all) && IsShard(part, all, shard, j)
    ensures Carried(all, CounterJoiner.Published(target, part))
  {
    ShardKeepsNonempty(part, all, shard, j);
    ShardKeepsNamedOnce(part, all, shard, j);
    ShardKeepsUnnamed(part, all, shard, j);
    forall m | m in CounterJoiner.Published(target, part)
      ensures Joiner.Name(m.gameId, m.gameName) in all
    {
      OnceIsTimely(target, part, m.gameId);
      PublishedMember(target, part, m);
      CounterJoiner.EmittedOnceAtTarget(target, part, m.gameId);
      var i :| 0 <= i < |part| && part[i] == Joiner.Name(m.gameId, m.gameName);
      var k := ShardOnlyHas(part, all, shard, j, i);
    }
  }

  lemma {:induction false} ShardsCarry(target: nat, all: seq<Event>, shard: int -> nat, shards: seq<seq<Event>>,
                                       names: seq<seq<GameName>>, k: nat)
    requires target > 0 && Proper(all) && Distributed(shards, all, shard) && AllPublished(target, shards, names)
    requires k <= |shards|
    ensures Carried(all, Concat(names[..k]))
  {
    if k > 0 {
      ShardsCarry(target, all, shard, shards, names, k - 1);
      assert names[..k] == names[..k - 1] + [names[k - 1]];
      ConcatSnoc(names[..k - 1], names[k - 1]);
      ShardCarries(target, shards[k - 1], all, shard, k - 1);
    }
  }

  /** What the aggregator receives of a client: the joiners' names in any order, and the last of the EOFs at the end. */
  ghost predicate Gathered(expected: nat, names: seq<seq<GameName>>, evs: seq<CounterAggregator.Event>) {
    && evs != [] && evs[|evs| - 1].EofEvent?
    && CounterAggregator.EofsIn(evs) % EofCounts.Round(expected) == 0
    && multiset(CounterAggregator.Names(evs)) == multiset(Concat(names))
  }

  /** Query 4 from end to end, without crashes. Whatever function of the game id splits the games, in whatever order
      each joiner reads its share, and however names and EOFs interleave on their way to the aggregator: when the last
      EOF goes out, the batches ahead of it hold every game that is due exactly once and no other, under a name that
      came in. A game is due when it has a name and all its votes reach the target, of which the votes of its joiner's
      first message do not count. */
  lemma Query4IsExact(target: nat, expected: nat, batchSize: nat, all: seq<Event>, shard: int -> nat,
                      shards: seq<seq<Event>>, names: seq<seq<GameName>>, evs: seq<CounterAggregator.Event>)
    requires target > 0 && expected < 256 && Proper(all)
    requires Distributed(shards, all, shard) && AllPublished(target, shards, names) && Gathered(expected, names, evs)
    ensures var outs := CounterAggregator.Emitted(batchSize, expected, evs);
            && outs != [] && outs[|outs| - 1] == CounterAggregator.EofOut
            && var sent := Concat(CounterAggregator.BatchesOf(outs));
               && Carried(all, sent)
               && forall id :: Times(sent, id) == if DueIn(target, all, shard, shards, id) then 1 else 0
  {
    CounterAggregator.EofGoesOutLast(batchSize, expected, evs);
    var sent := Concat(CounterAggregator.BatchesOf(CounterAggregator.Emitted(batchSize, expected, evs)));
    assert names[..|shards|] == names;
    ShardsCarry(target, all, shard, shards, names, |shards|);
    forall m | m in sent
      ensures m in Concat(names)
    {
      assert m in multiset(sent);
    }
    forall id: int
      ensures Times(sent, id) == if DueIn(target, all, shard, shards, id) then 1 else 0
    {
      ShardsPublish(target, all, shard, shards, names, id, |shards|);
      SumOfBag(OfGame(id), sent, Concat(names));
    }
  }

  function NameEvents(names: seq<GameName>): seq<CounterAggregator.Event> {
    seq(|names|, i requires 0 <= i < |names| => CounterAggregator.NameEvent(names[i]))
  }

  lemma {:induction false} NamesThenEofs(names: seq<GameName>, k: nat)
    ensures var evs := NameEvents(names) + seq(k, _ => CounterAggregator.EofEvent);
            CounterAggregator.Names(evs) == names && CounterAggregator.EofsIn(evs) == k
    decreases |names| + k
  {
    var evs := NameEvents(names) + seq(k, _ => CounterAggregator.EofEvent);
    if k > 0 {
      NamesThenEofs(names, k - 1);
      assert evs[..|evs| - 1] == NameEvents(names) + seq(k - 1, _ => CounterAggregator.EofEvent);
    } else if names != [] {
      var init := names[..|names| - 1];
      NamesThenEofs(init, 0);
      assert evs == NameEvents(names);
      assert evs[..|evs| - 1] == NameEvents(init) + seq(0, _ => CounterAggregator.EofEvent);
      assert names == init + [names[|names| - 1]];
    }
  }

  /** Any number of shards will do: routing in the order of arrival gives such a run. */
  lemma SomeRun(target: nat, expected: nat, all: seq<Event>, shard: int -> nat, k: nat)
      returns (shards: seq<seq<Event>>, names: seq<seq<GameName>>, evs: seq<CounterAggregator.Event>)
    requires expected > 0 && forall id :: shard(id) < k
    ensures Distributed(shards, all, shard) && AllPublished(target, shards, names) && Gathered(expected, names, evs)
  {
    shards := seq(k, j requires 0 <= j < k => Routed(all, shard, j));
    names := seq(k, j requires 0 <= j < k => CounterJoiner.Published(target, shards[j]));
    forall j: nat | j < k
      ensures IsShard(shards[j], all, shard, j)
    {
      RoutedIsShard(all, shard, j);
    }
    evs := NameEvents(Concat(names)) + seq(expected, _ => CounterAggregator.EofEvent);
    NamesThenEofs(Concat(names), expected);
  }
}
