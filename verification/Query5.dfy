/** Query 5 from end to end: sharded joiners that flush at the EOF, and the percentile of what they flush. */
module Query5 {
  import Bags
  import opened Messages
  import opened Joiner
  import opened TopN
  import opened Sharding
  import opened Batches
  import opened PercentileJoiner
  import opened PercentileAggregator

  /** The entry of a game whose name and some of whose votes have come in. */
  ghost predicate IsJoined(all: seq<Event>, r: ScoredReview) {
    Named(all, r.gameId) && Total(all, r.gameId) > 0 && r.votes == Total(all, r.gameId) &&
    Name(r.gameId, r.gameName) in all
  }

  /** The one-shot join, in some order. */
  ghost predicate IsJoin(all: seq<Event>, s: seq<ScoredReview>) {
    OneEntryEach(s) && forall r: ScoredReview :: r in s <==> IsJoined(all, r)
  }

  /** What a joiner publishes at the EOF, for some order of its map. */
  ghost predicate IsFlush(part: seq<Event>, flushed: seq<ScoredReview>) {
    if part == [] then flushed == [] else exists order :: IsFlushIn(part, flushed, order)
  }

  ghost predicate IsFlushIn(part: seq<Event>, flushed: seq<ScoredReview>, order: seq<int>)
    requires part != []
  {
    Bags.KeyOrder(GatherAll(part).value, order) && flushed == Wanted(GatherAll(part).value, order)
  }

  lemma FlushIsJoin(part: seq<Event>, flushed: seq<ScoredReview>)
    requires NamesNonempty(part) && NamedOnce(part) && IsFlush(part, flushed)
    ensures IsJoin(part, flushed)
  {
    if part != [] {
      var order: seq<int> :| IsFlushIn(part, flushed, order);
      forall r: ScoredReview
        ensures r in flushed <==> IsJoined(part, r)
      {
        FlushIsExact(part, order, r);
      }
      forall i, j | 0 <= i < j < |flushed|
        ensures flushed[i].gameId != flushed[j].gameId
      {
        WantedDistinct(GatherAll(part).value, order, i, j);
      }
    }
  }

  lemma ShardJoins(part: seq<Event>, all: seq<Event>, shard: int -> nat, j: nat, r: ScoredReview)
    requires IsShard(part, all, shard, j)
    ensures IsJoined(part, r) <==> IsJoined(all, r) && shard(r.gameId) == j
  {
    if shard(r.gameId) == j {
      ShardKnows(part, all, shard, j, r.gameId);
      var e := Name(r.gameId, r.gameName);
      assert multiset(part)[e] == multiset(all)[e];
      assert e in part <==> e in multiset(part);
    } else {
      ShardIgnores(part, all, shard, j, r.gameId);
    }
  }

  /** Joined entries of the first k shards. */
  ghost predicate IsJoinUpTo(all: seq<Event>, s: seq<ScoredReview>, shard: int -> nat, k: nat) {
    OneEntryEach(s) && forall r: ScoredReview :: r in s <==> IsJoined(all, r) && shard(r.gameId) < k
  }

  lemma JoinNext(all: seq<Event>, a: seq<ScoredReview>, b: seq<ScoredReview>, shard: int -> nat, k: nat)
    requires IsJoinUpTo(all, a, shard, k) && OneEntryEach(b)
    requires forall r: ScoredReview :: r in b <==> IsJoined(all, r) && shard(r.gameId) == k
    ensures IsJoinUpTo(all, a + b, shard, k + 1)
  {
    forall i, j | 0 <= i < j < |a + b|
      ensures (a + b)[i].gameId != (a + b)[j].gameId
    {
      if i < |a| <= j {
        assert a[i] in a && b[j - |a|] in b;
      }
    }
  }

  ghost predicate AllFlushed(shards: seq<seq<Event>>, flushed: seq<seq<ScoredReview>>) {
    |flushed| == |shards| && forall j :: 0 <= j < |shards| ==> IsFlush(shards[j], flushed[j])
  }

  lemma {:induction false} ShardsJoin(all: seq<Event>, shard: int -> nat, shards: seq<seq<Event>>,
                                      flushed: seq<seq<ScoredReview>>, k: nat)
    requires NamesNonempty(all) && NamedOnce(all) && Distributed(shards, all, shard) && AllFlushed(shards, flushed)
    requires k <= |shards|
    ensures IsJoinUpTo(all, Concat(flushed[..k]), shard, k)
  {
    if k > 0 {
      var j := k - 1;
      ShardsJoin(all, shard, shards, flushed, j);
      assert flushed[..k] == flushed[..j] + [flushed[j]];
      ConcatSnoc(flushed[..j], flushed[j]);
      ShardKeepsNonempty(shards[j], all, shard, j);
      ShardKeepsNamedOnce(shards[j], all, shard, j);
      FlushIsJoin(shards[j], flushed[j]);
      forall r: ScoredReview
        ensures r in flushed[j] <==> IsJoined(all, r) && shard(r.gameId) == j
      {
        ShardJoins(shards[j], all, shard, j, r);
      }
      JoinNext(all, Concat(flushed[..j]), flushed[j], shard, j);
    }
  }

  /** Two lists of the same join hold the same entries. */
  lemma JoinsHaveOneBag(all: seq<Event>, a: seq<ScoredReview>, b: seq<ScoredReview>)
    requires IsJoin(all, a) && IsJoin(all, b)
    ensures multiset(a) == multiset(b)
  {
    forall r: ScoredReview
      ensures multiset(a)[r] == multiset(b)[r]
    {
      EntryCount(a, r);
      EntryCount(b, r);
      assert r in a <==> IsJoined(all, r);
    }
  }

  lemma EntryCount(a: seq<ScoredReview>, r: ScoredReview)
    requires OneEntryEach(a)
    ensures multiset(a)[r] == if r in a then 1 else 0
  {
    if r in a {
      var i :| 0 <= i < |a| && a[i] == r;
      OnceInBag(a, i);
    }
  }

  /** Query 5 is exact. Whatever function of the game id splits the games, in whatever order each joiner reads its share
      and walks its map, and however the entries are batched and interleaved on the way, what is kept is the percentile
      of the one-shot join: it is the same list for every deployment. */
  lemma ShardedIsOneShot(n: nat, all: seq<Event>, shard: int -> nat, shards: seq<seq<Event>>,
                         flushed: seq<seq<ScoredReview>>, agg: seq<ScoredReview>, kept: seq<ScoredReview>,
                         join: seq<ScoredReview>, reference: seq<ScoredReview>)
    requires NamesNonempty(all) && NamedOnce(all) && Distributed(shards, all, shard) && AllFlushed(shards, flushed)
    requires multiset(agg) == multiset(Concat(flushed)) && IsPercentile(n, kept, agg)
    requires IsJoin(all, join) && IsPercentile(n, reference, join)
    ensures kept == reference
  {
    ShardsJoin(all, shard, shards, flushed, |shards|);
    assert flushed[..|shards|] == flushed;
    assert IsJoin(all, Concat(flushed));
    JoinsHaveOneBag(all, Concat(flushed), join);
    PercentileIsOrderIndependent(n, join, agg, reference, kept);
  }

  lemma SomeFlush(part: seq<Event>) returns (flushed: seq<ScoredReview>)
    ensures IsFlush(part, flushed)
  {
    if part == [] {
      flushed := [];
    } else {
      var order := Bags.SomeKeyOrder(GatherAll(part).value);
      flushed := Wanted(GatherAll(part).value, order);
      assert IsFlushIn(part, flushed, order);
    }
  }

  lemma {:induction false} SomeFlushes(shards: seq<seq<Event>>) returns (flushed: seq<seq<ScoredReview>>)
    ensures AllFlushed(shards, flushed)
  {
    if shards == [] {
      flushed := [];
    } else {
      var init := SomeFlushes(shards[..|shards| - 1]);
      var last := SomeFlush(shards[|shards| - 1]);
      flushed := init + [last];
    }
  }

  /** Any number of shards will do: routing in the order of arrival gives a run of the pipeline, with a percentile
      unless there is nothing to take it of. */
  lemma SomeRun(n: nat, all: seq<Event>, shard: int -> nat, k: nat)
      returns (shards: seq<seq<Event>>, flushed: seq<seq<ScoredReview>>, agg: seq<ScoredReview>,
               kept: seq<ScoredReview>)
    requires forall id :: shard(id) < k
    ensures Distributed(shards, all, shard) && AllFlushed(shards, flushed)
    ensures multiset(agg) == multiset(Concat(flushed)) && (agg != [] ==> IsPercentile(n, kept, agg))
  {
    shards := seq(k, j requires 0 <= j < k => Routed(all, shard, j));
    forall j: nat | j < k
      ensures IsShard(shards[j], all, shard, j)
    {
      RoutedIsShard(all, shard, j);
    }
    flushed := SomeFlushes(shards);
    agg := Concat(flushed);
    kept := [];
    if agg != [] {
      kept := SomePercentile(n, agg);
    }
  }
}
