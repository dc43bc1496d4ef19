/** Query 3 from end to end: sharded joiners, a heap per joiner, and a heap over their results. */
module Query3 {
  import opened Messages
  import opened Joiner
  import opened TopVotes
  import opened TopN
  import opened Sharding
  import opened Batches
  import Bags
  import TopJoiner
  import TopNFilter
  import opened Reviews
  import opened Sums

  /** A game counts once its name and one of its reviews have come in. */
  predicate Joined(all: seq<Event>, id: int) {
    Named(all, id) && Reviewed(all, id)
  }

  /** The one-shot query: the votes of every joined game. */
  ghost function OneShot(all: seq<Event>): (votes: map<int, nat>)
    ensures forall id :: id in votes <==> Joined(all, id)
    ensures forall id :: id in votes ==> votes[id] == Total(all, id)
  {
    var ids := set i | 0 <= i < |all| :: all[i].gameId;
    forall id | Joined(all, id)
      ensures id in ids
    {
      var i :| 0 <= i < |all| && all[i].Name? && all[i].gameId == id;
    }
    map id | id in ids && Joined(all, id) :: Total(all, id)
  }

  /** What a joiner's heap publishes once the client's EOF has come. */
  function Published(n: nat, part: seq<Event>): seq<ScoredReview>
    requires n > 0
  {
    Drained(OfferAll(n, [], TopJoiner.Emitted(part)))
  }

  ghost function LatestOf(part: seq<Event>): map<int, nat> {
    Latest(map[], TopJoiner.Emitted(part))
  }

  ghost function Only(votes: map<int, nat>, shard: int -> nat, j: nat): map<int, nat> {
    map id | id in votes && shard(id) == j :: votes[id]
  }

  ghost function UpTo(votes: map<int, nat>, shard: int -> nat, j: nat): map<int, nat> {
    map id | id in votes && shard(id) < j :: votes[id]
  }

  /** The last totals a joiner reports are the one-shot votes of its games. */
  lemma ShardReportsTotals(part: seq<Event>, all: seq<Event>, shard: int -> nat, j: nat, id: int)
    requires IsShard(part, all, shard, j) && NamesNonempty(all) && NamedOnce(all)
    ensures NeverDecreases(map[], TopJoiner.Emitted(part))
    ensures id in LatestOf(part) <==> id in Only(OneShot(all), shard, j)
    ensures id in LatestOf(part) ==> LatestOf(part)[id] == Only(OneShot(all), shard, j)[id]
  {
    ShardKeepsNonempty(part, all, shard, j);
    ShardKeepsNamedOnce(part, all, shard, j);
    TopJoiner.TotalsAreRunningSums(part, id);
    if shard(id) == j {
      ShardKnows(part, all, shard, j, id);
    } else {
      ShardIgnores(part, all, shard, j, id);
    }
  }

  lemma ShardReports(part: seq<Event>, all: seq<Event>, shard: int -> nat, j: nat)
    requires IsShard(part, all, shard, j) && NamesNonempty(all) && NamedOnce(all)
    ensures NeverDecreases(map[], TopJoiner.Emitted(part))
    ensures LatestOf(part) == Only(OneShot(all), shard, j)
  {
    forall id: int
      ensures id in LatestOf(part) <==> id in Only(OneShot(all), shard, j)
      ensures id in LatestOf(part) ==> LatestOf(part)[id] == Only(OneShot(all), shard, j)[id]
    {
      ShardReportsTotals(part, all, shard, j, id);
    }
    ShardReportsTotals(part, all, shard, j, 0);
  }

  lemma UpToSplit(votes: map<int, nat>, shard: int -> nat, k: nat)
    ensures UpTo(votes, shard, k).Keys !! Only(votes, shard, k).Keys
    ensures UpTo(votes, shard, k + 1) == UpTo(votes, shard, k) + Only(votes, shard, k)
  {
  }

  lemma UpToNext(votes: map<int, nat>, shard: int -> nat, k: nat)
    ensures Votes(UpTo(votes, shard, k + 1)) == Votes(UpTo(votes, shard, k)) + Votes(Only(votes, shard, k))
  {
    UpToSplit(votes, shard, k);
    VotesDisjoint(UpTo(votes, shard, k), Only(votes, shard, k));
  }

  lemma UpToNone(votes: map<int, nat>, shard: int -> nat)
    ensures Votes(UpTo(votes, shard, 0)) == multiset{}
  {
    assert UpTo(votes, shard, 0).Keys == {};
  }

  lemma SumNext(bags: seq<Bag>, last: Bag)
    ensures Sum(bags + [last]) == Sum(bags) + last
  {
    assert (bags + [last])[..|bags|] == bags;
  }

  lemma VotesOfAppend(a: seq<ScoredReview>, b: seq<ScoredReview>)
    ensures multiset(VotesOf(a + b)) == multiset(VotesOf(a)) + multiset(VotesOf(b))
  {
    assert VotesOf(a + b) == VotesOf(a) + VotesOf(b);
  }

  lemma EntriesAppend(a: seq<ScoredReview>, b: seq<ScoredReview>, votes: map<int, nat>, shard: int -> nat, k: nat)
    requires Reported(a, UpTo(votes, shard, k)) && Reported(b, Only(votes, shard, k))
    ensures Reported(a + b, UpTo(votes, shard, k + 1))
  {
  }

  /** A joiner's result: the top of its own games, each entry with its votes. */
  ghost predicate IsShardTop(n: nat, top: seq<ScoredReview>, votes: map<int, nat>, shard: int -> nat, j: nat) {
    Reported(top, Only(votes, shard, j)) && IsTop(n, multiset(VotesOf(top)), Votes(Only(votes, shard, j)))
  }

  lemma PublishedIsShardTop(n: nat, part: seq<Event>, all: seq<Event>, shard: int -> nat, j: nat)
    requires n > 0 && NamesNonempty(all) && NamedOnce(all) && IsShard(part, all, shard, j)
    ensures IsShardTop(n, Published(n, part), OneShot(all), shard, j)
  {
    ShardReports(part, all, shard, j);
    TopNFilter.PublishedRanking(n, TopJoiner.Emitted(part));
  }

  ghost predicate AllShardTops(n: nat, tops: seq<seq<ScoredReview>>, votes: map<int, nat>, shard: int -> nat) {
    forall j :: 0 <= j < |tops| ==> IsShardTop(n, tops[j], votes, shard, j)
  }

  lemma {:induction false} ShardEntries(n: nat, tops: seq<seq<ScoredReview>>, votes: map<int, nat>, shard: int -> nat)
    requires AllShardTops(n, tops, votes, shard)
    ensures Reported(Concat(tops), UpTo(votes, shard, |tops|))
  {
    if tops != [] {
      var k := |tops| - 1;
      ShardEntries(n, tops[..k], votes, shard);
      assert IsShardTop(n, tops[k], votes, shard, k);
      EntriesAppend(Concat(tops[..k]), tops[k], votes, shard, k);
    }
  }

  /** The joiners' tops, the votes they are taken of, and what both add up to. */
  lemma {:induction false} ShardParts(n: nat, tops: seq<seq<ScoredReview>>, votes: map<int, nat>, shard: int -> nat)
      returns (bags: seq<Bag>, parts: seq<Bag>)
    requires AllShardTops(n, tops, votes, shard)
    ensures AreTops(n, bags, parts)
    ensures Sum(bags) == multiset(VotesOf(Concat(tops))) && Sum(parts) == Votes(UpTo(votes, shard, |tops|))
  {
    if tops == [] {
      bags, parts := [], [];
      UpToNone(votes, shard);
    } else {
      var k := |tops| - 1;
      bags, parts := ShardParts(n, tops[..k], votes, shard);
      assert IsShardTop(n, tops[k], votes, shard, k);
      VotesOfAppend(Concat(tops[..k]), tops[k]);
      UpToNext(votes, shard, k);
      bags, parts := NextPart(n, bags, parts, multiset(VotesOf(tops[k])), Votes(Only(votes, shard, k)));
    }
  }

  ghost predicate AreTops(n: nat, bags: seq<Bag>, parts: seq<Bag>) {
    |bags| == |parts| && forall i :: 0 <= i < |parts| ==> IsTop(n, bags[i], parts[i])
  }

  lemma NextPart(n: nat, bags: seq<Bag>, parts: seq<Bag>, top: Bag, part: Bag)
    returns (bags': seq<Bag>, parts': seq<Bag>)
    requires AreTops(n, bags, parts) && IsTop(n, top, part)
    ensures AreTops(n, bags', parts') && Sum(bags') == Sum(bags) + top && Sum(parts') == Sum(parts) + part
  {
    bags', parts' := bags + [top], parts + [part];
    SumNext(bags, top);
    SumNext(parts, part);
  }

  lemma TopOfAllParts(n: nat, top: Bag, bags: seq<Bag>, parts: seq<Bag>)
    requires AreTops(n, bags, parts) && IsTop(n, top, Sum(bags))
    ensures IsTop(n, top, Sum(parts))
  {
    var none: Bag := multiset{};
    assert Sum(bags) + none == Sum(bags) && Sum(parts) + none == Sum(parts);
    TopOfTops(n, top, bags, parts, none);
  }

  // The heap over the joiners' results.

  /** Entries that are reordered stay entries. */
  lemma EntriesReordered(s: seq<ScoredReview>, t: seq<ScoredReview>, votes: map<int, nat>)
    requires Reported(s, votes) && multiset(s) == multiset(t)
    ensures Reported(t, votes)
  {
    forall i | 0 <= i < |t|
      ensures t[i].gameId in votes && votes[t[i].gameId] == t[i].votes
    {
      assert t[i] in multiset(s);
    }
    forall i, j | 0 <= i < j < |t|
      ensures t[i].gameId != t[j].gameId
    {
      OneEntryReordered(s, t, i, j);
    }
  }

  /** A game reported once is reported with its votes, which cannot go down. */
  lemma {:induction false} OnceEach(agg: seq<ScoredReview>, votes: map<int, nat>)
    requires Reported(agg, votes)
    ensures NeverDecreases(map[], agg)
    ensures forall id :: id in Latest(map[], agg) ==> id in votes && Latest(map[], agg)[id] == votes[id]
    ensures forall id :: id in Latest(map[], agg) <==> exists i :: 0 <= i < |agg| && agg[i].gameId == id
    ensures Reported(agg, Latest(map[], agg))
  {
    if agg != [] {
      OnceEach(agg[..|agg| - 1], votes);
    }
  }

  lemma AllReported(agg: seq<ScoredReview>, votes: map<int, nat>)
    requires Reported(agg, votes)
    ensures Votes(Latest(map[], agg)) == multiset(VotesOf(agg))
  {
    OnceEach(agg, votes);
    VotesSplit(agg, Latest(map[], agg));
    var rest := Others(agg, Latest(map[], agg));
    Bags.SomeOrNone(rest.Keys);
  }

  /** The aggregating heap ranks whatever entries it gets, in any order. */
  lemma AggregatedRanking(n: nat, agg: seq<ScoredReview>, entries: seq<ScoredReview>, votes: map<int, nat>)
    requires n > 0 && Reported(entries, votes) && multiset(agg) == multiset(entries)
    ensures var ranked := Drained(OfferAll(n, [], agg));
            && StrictlyDescending(ranked)
            && Ranking(n, VotesOf(ranked), multiset(VotesOf(entries)))
            && Reported(ranked, votes)
            && NamesFrom(multiset(ranked), agg)
  {
    EntriesReordered(entries, agg, votes);
    OnceEach(agg, votes);
    TopNFilter.PublishedRanking(n, agg);
    AllReported(agg, votes);
    TopNFilter.SameBagSameVotes(agg, entries);
  }

  ghost predicate AllPublished(n: nat, shards: seq<seq<Event>>, tops: seq<seq<ScoredReview>>)
    requires n > 0
  {
    |tops| == |shards| && forall j :: 0 <= j < |shards| ==> tops[j] == Published(n, shards[j])
  }

  // The names.

  /** Every entry carries a name that came in for its game. */
  ghost predicate Carried(all: seq<Event>, s: seq<ScoredReview>) {
    forall r :: r in s ==> Name(r.gameId, r.gameName) in all
  }

  lemma ShardCarries(n: nat, part: seq<Event>, all: seq<Event>, shard: int -> nat, j: nat)
    requires n > 0 && NamesNonempty(all) && NamedOnce(all) && IsShard(part, all, shard, j)
    ensures Carried(all, Published(n, part))
  {
    var totals := TopJoiner.Emitted(part);
    ShardReports(part, all, shard, j);
    ShardKeepsNonempty(part, all, shard, j);
    TopNFilter.PublishedRanking(n, totals);
    TopJoiner.TotalsCarryNames(part);
    forall r | r in Published(n, part)
      ensures Name(r.gameId, r.gameName) in all
    {
      assert r in multiset(Published(n, part));
      var i :| 0 <= i < |totals| && totals[i].gameId == r.gameId && totals[i].gameName == r.gameName;
      assert totals[i] in totals;
      var k :| 0 <= k < |part| && part[k] == Name(r.gameId, r.gameName);
      var at := ShardOnlyHas(part, all, shard, j, k);
    }
  }

  lemma RankedCarries(n: nat, all: seq<Event>, tops: seq<seq<ScoredReview>>, agg: seq<ScoredReview>,
                      ranked: seq<ScoredReview>)
    requires forall j :: 0 <= j < |tops| ==> Carried(all, tops[j])
    requires multiset(agg) == multiset(Concat(tops)) && NamesFrom(multiset(ranked), agg)
    ensures Carried(all, ranked)
  {
    forall r | r in ranked
      ensures Name(r.gameId, r.gameName) in all
    {
      assert r in multiset(ranked);
      var i :| 0 <= i < |agg| && agg[i].gameId == r.gameId && agg[i].gameName == r.gameName;
      assert agg[i] in multiset(agg);
      var j := FromSomePart(tops, agg[i]);
      assert Carried(all, tops[j]);
    }
  }

  /** Sharded query 3 is one-shot query 3. Whatever function of the game id splits the games, in whatever order
      each joiner reads its share of reviews and names, and in whatever order the joiners' results arrive, the final
      list ranks the n largest vote totals of all joined games, and every entry is a joined game with its total. */
  lemma ShardedIsOneShot(n: nat, all: seq<Event>, shard: int -> nat, shards: seq<seq<Event>>,
                         tops: seq<seq<ScoredReview>>, agg: seq<ScoredReview>)
    requires n > 0 && NamesNonempty(all) && NamedOnce(all)
    requires Distributed(shards, all, shard) && AllPublished(n, shards, tops)
    requires multiset(agg) == multiset(Concat(tops))
    ensures var ranked := Drained(OfferAll(n, [], agg));
            && StrictlyDescending(ranked)
            && Ranking(n, VotesOf(ranked), Votes(OneShot(all)))
            && Reported(ranked, OneShot(all))
            && Carried(all, ranked)
  {
    var votes := OneShot(all);
    forall j | 0 <= j < |tops|
      ensures IsShardTop(n, tops[j], votes, shard, j)
    {
      PublishedIsShardTop(n, shards[j], all, shard, j);
    }
    forall j | 0 <= j < |tops|
      ensures Carried(all, tops[j])
    {
      ShardCarries(n, shards[j], all, shard, j);
    }
    assert UpTo(votes, shard, |tops|) == votes;
    ShardEntries(n, tops, votes, shard);
    AggregatedRanking(n, agg, Concat(tops), votes);
    var bags, parts := ShardParts(n, tops, votes, shard);
    TopOfAllParts(n, multiset(VotesOf(Drained(OfferAll(n, [], agg)))), bags, parts);
    RankedCarries(n, all, tops, agg, Drained(OfferAll(n, [], agg)));
  }

  /** Any number of shards will do: routing in the order of arrival gives a run of the pipeline. */
  lemma SomeRun(n: nat, all: seq<Event>, shard: int -> nat, k: nat)
      returns (shards: seq<seq<Event>>, tops: seq<seq<ScoredReview>>, agg: seq<ScoredReview>)
    requires n > 0 && forall id :: shard(id) < k
    ensures |shards| == k && Distributed(shards, all, shard) && AllPublished(n, shards, tops)
    ensures multiset(agg) == multiset(Concat(tops))
  {
    shards := seq(k, j requires 0 <= j < k => Routed(all, shard, j));
    tops := seq(k, j requires 0 <= j < k => Published(n, shards[j]));
    agg := Concat(tops);
    forall j: nat | j < k
      ensures IsShard(shards[j], all, shard, j)
    {
      RoutedIsShard(all, shard, j);
    }
  }

  // From the raw reviews and names.

  function NameEvents(names: seq<GameName>): (evs: seq<Event>)
    ensures |evs| == |names|
  {
    seq(|names|, i requires 0 <= i < |names| => Name(names[i].gameId, names[i].gameName))
  }

  /** The reviews with the wanted score, by game, for the games whose names were sent. */
  ghost function ReviewCounts(reviews: seq<RawReview>, target: int, names: seq<GameName>): (counts: map<int, nat>)
    ensures forall id :: id in counts <==>
                         Matching(reviews, target, id) > 0 && exists i :: 0 <= i < |names| && names[i].gameId == id
    ensures forall id :: id in counts ==> counts[id] == Matching(reviews, target, id)
  {
    var ids := set i | 0 <= i < |names| :: names[i].gameId;
    map id | id in ids && Matching(reviews, target, id) > 0 :: Matching(reviews, target, id)
  }

  ghost predicate ProperNames(names: seq<GameName>) {
    && (forall i :: 0 <= i < |names| ==> names[i].gameName != "")
    && (forall i, j :: 0 <= i < j < |names| ==> names[i].gameId != names[j].gameId)
  }

  lemma {:induction false} OnlyReviews(outs: seq<seq<ScoredReview>>)
    ensures forall i :: 0 <= i < |AllEvents(outs)| ==> AllEvents(outs)[i].Review?
  {
    if outs != [] {
      OnlyReviews(outs[..|outs| - 1]);
    }
  }

  lemma NamesComeAfter(outs: seq<seq<ScoredReview>>, names: seq<GameName>, i: nat)
    ensures var a := |AllEvents(outs)|; var all := AllEvents(outs) + NameEvents(names);
            i < |all| ==> if i < a then all[i].Review? else all[i] == Name(names[i - a].gameId, names[i - a].gameName)
  {
    OnlyReviews(outs);
  }

  lemma NamedByMessage(outs: seq<seq<ScoredReview>>, names: seq<GameName>, id: int)
    ensures var all := AllEvents(outs) + NameEvents(names);
            && (Named(all, id) <==> exists i :: 0 <= i < |names| && names[i].gameId == id)
            && Total(all, id) == Total(AllEvents(outs), id)
            && (Reviewed(all, id) <==> Reviewed(AllEvents(outs), id))
  {
    var a, b := AllEvents(outs), NameEvents(names);
    OnlyReviews(outs);
    TotalAppend(a, b, id);
    TotalIsSum(b, id);
    SumOfNothing(VotesFor(id), b);
    ReviewedAppend(a, b, id);
    forall i | 0 <= i < |names| && names[i].gameId == id
      ensures Named(a + b, id)
    {
      assert (a + b)[|a| + i] == b[i];
    }
    if Named(a + b, id) {
      var i :| 0 <= i < |a + b| && (a + b)[i].Name? && (a + b)[i].gameId == id;
      NamesComeAfter(outs, names, i);
      assert names[i - |a|].gameId == id;
    }
  }

  lemma ProperEvents(outs: seq<seq<ScoredReview>>, names: seq<GameName>)
    requires ProperNames(names)
    ensures var all := AllEvents(outs) + NameEvents(names); NamesNonempty(all) && NamedOnce(all)
  {
    var all := AllEvents(outs) + NameEvents(names);
    forall i | 0 <= i < |all| && all[i].Name?
      ensures all[i].gameName != ""
    {
      NamesComeAfter(outs, names, i);
    }
    forall i, j | 0 <= i < j < |all| && all[i].Name? && all[j].Name?
      ensures all[i].gameId != all[j].gameId
    {
      NamesComeAfter(outs, names, i);
      NamesComeAfter(outs, names, j);
    }
  }

  lemma OneShotCountsReviews(batches: seq<seq<RawReview>>, target: int, outs: seq<seq<ScoredReview>>,
                             names: seq<GameName>)
    requires AllScored(batches, target, outs) && ProperNames(names)
    ensures var all := AllEvents(outs) + NameEvents(names);
            && NamesNonempty(all) && NamedOnce(all)
            && OneShot(all) == ReviewCounts(Concat(batches), target, names)
  {
    var all := AllEvents(outs) + NameEvents(names);
    ProperEvents(outs, names);
    forall id: int
      ensures id in OneShot(all) <==> id in ReviewCounts(Concat(batches), target, names)
      ensures id in OneShot(all) ==> OneShot(all)[id] == ReviewCounts(Concat(batches), target, names)[id]
    {
      NamedByMessage(outs, names, id);
      VotesAreConserved(batches, target, outs, id);
      ReviewedIffMatching(batches, target, outs, id);
    }
  }

  /** Query 3 end to end: from reviews in any batches, and names, to the list of the n games with the most reviews of
      the wanted score among the games named, each under its name. */
  lemma Query3IsExact(n: nat, batches: seq<seq<RawReview>>, target: int, outs: seq<seq<ScoredReview>>,
                      names: seq<GameName>, shard: int -> nat, shards: seq<seq<Event>>,
                      tops: seq<seq<ScoredReview>>, agg: seq<ScoredReview>)
    requires n > 0 && AllScored(batches, target, outs) && ProperNames(names)
    requires Distributed(shards, AllEvents(outs) + NameEvents(names), shard) && AllPublished(n, shards, tops)
    requires multiset(agg) == multiset(Concat(tops))
    ensures var ranked := Drained(OfferAll(n, [], agg)); var counts := ReviewCounts(Concat(batches), target, names);
            && StrictlyDescending(ranked) && Ranking(n, VotesOf(ranked), Votes(counts)) && Reported(ranked, counts)
            && forall r :: r in ranked ==> GameName(r.gameId, r.gameName) in names
  {
    OneShotCountsReviews(batches, target, outs, names);
    ShardedIsOneShot(n, AllEvents(outs) + NameEvents(names), shard, shards, tops, agg);
    forall r | r in Drained(OfferAll(n, [], agg))
      ensures GameName(r.gameId, r.gameName) in names
    {
      CarriedIsSent(outs, names, r);
    }
  }

  lemma CarriedIsSent(outs: seq<seq<ScoredReview>>, names: seq<GameName>, r: ScoredReview)
    requires Name(r.gameId, r.gameName) in AllEvents(outs) + NameEvents(names)
    ensures GameName(r.gameId, r.gameName) in names
  {
    var all := AllEvents(outs) + NameEvents(names);
    var i :| 0 <= i < |all| && all[i] == Name(r.gameId, r.gameName);
    NamesComeAfter(outs, names, i);
    assert names[i - |AllEvents(outs)|] in names;
  }
}
