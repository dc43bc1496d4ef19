/** Games split among joiners by a function of the game id, each joiner reading its share in any order. */
module Sharding {
  import opened Joiner
  import opened Sums
  import opened Reviews

  /** Joiner j receives exactly the events of its games, in some order. */
  ghost predicate IsShard(part: seq<Event>, all: seq<Event>, shard: int -> nat, j: nat) {
    forall e: Event :: multiset(part)[e] == if shard(e.gameId) == j then multiset(all)[e] else 0
  }

  ghost predicate Distributed(shards: seq<seq<Event>>, all: seq<Event>, shard: int -> nat) {
    && (forall j :: 0 <= j < |shards| ==> IsShard(shards[j], all, shard, j))
    && (forall id :: shard(id) < |shards|)
  }

  /** The events of shard j, in their order in all. */
  function Routed(all: seq<Event>, shard: int -> nat, j: nat): seq<Event> {
    if all == [] then []
    else
      var last := all[|all| - 1];
      Routed(all[..|all| - 1], shard, j) + if shard(last.gameId) == j then [last] else []
  }

  /** Routing in the order of arrival is one way of splitting the events. */
  lemma {:induction false} RoutedIsShard(all: seq<Event>, shard: int -> nat, j: nat)
    ensures IsShard(Routed(all, shard, j), all, shard, j)
  {
    if all != [] {
      RoutedIsShard(all[..|all| - 1], shard, j);
      assert all == all[..|all| - 1] + [all[|all| - 1]];
    }
  }

  lemma ShardIsRouted(part: seq<Event>, all: seq<Event>, shard: int -> nat, j: nat)
    requires IsShard(part, all, shard, j)
    ensures multiset(part) == multiset(Routed(all, shard, j))
  {
    RoutedIsShard(all, shard, j);
  }

  lemma {:induction false} RoutedSum(f: Event -> nat, all: seq<Event>, shard: int -> nat, j: nat)
    requires forall e: Event :: shard(e.gameId) != j ==> f(e) == 0
    ensures SumOf(f, Routed(all, shard, j)) == SumOf(f, all)
  {
    if all != [] {
      RoutedSum(f, all[..|all| - 1], shard, j);
      var init, last := Routed(all[..|all| - 1], shard, j), all[|all| - 1];
      SumAppend(f, init, if shard(last.gameId) == j then [last] else []);
      assert SumOf(f, [last]) == f(last);
    }
  }

  /** What is summed over one game's events is summed in full by its joiner. */
  lemma ShardSum(f: Event -> nat, part: seq<Event>, all: seq<Event>, shard: int -> nat, j: nat)
    requires IsShard(part, all, shard, j) && forall e: Event :: shard(e.gameId) != j ==> f(e) == 0
    ensures SumOf(f, part) == SumOf(f, all)
  {
    ShardIsRouted(part, all, shard, j);
    SumOfBag(f, part, Routed(all, shard, j));
    RoutedSum(f, all, shard, j);
  }

  lemma InBag(s: seq<Event>, i: nat)
    requires i < |s|
    ensures multiset(s)[s[i]] > 0
  {
    assert s[i] in multiset(s);
  }

  lemma FromBag(s: seq<Event>, e: Event) returns (i: nat)
    requires multiset(s)[e] > 0
    ensures i < |s| && s[i] == e
  {
    assert e in s;
    i :| 0 <= i < |s| && s[i] == e;
  }

  lemma ShardHas(part: seq<Event>, all: seq<Event>, shard: int -> nat, j: nat, i: nat) returns (k: nat)
    requires IsShard(part, all, shard, j) && i < |all| && shard(all[i].gameId) == j
    ensures k < |part| && part[k] == all[i]
  {
    InBag(all, i);
    k := FromBag(part, all[i]);
  }

  lemma ShardOnlyHas(part: seq<Event>, all: seq<Event>, shard: int -> nat, j: nat, i: nat) returns (k: nat)
    requires IsShard(part, all, shard, j) && i < |part|
    ensures k < |all| && all[k] == part[i] && shard(part[i].gameId) == j
  {
    InBag(part, i);
    k := FromBag(all, part[i]);
  }

  /** A game's joiner knows of it all there is to know. */
  lemma ShardKnows(part: seq<Event>, all: seq<Event>, shard: int -> nat, j: nat, id: int)
    requires IsShard(part, all, shard, j) && shard(id) == j
    ensures Total(part, id) == Total(all, id)
    ensures Reviewed(part, id) <==> Reviewed(all, id)
    ensures Named(part, id) <==> Named(all, id)
  {
    TotalIsSum(part, id);
    TotalIsSum(all, id);
    ShardSum(VotesFor(id), part, all, shard, j);
    forall i | 0 <= i < |all| && all[i].gameId == id
      ensures exists k :: 0 <= k < |part| && part[k] == all[i]
    {
      var k := ShardHas(part, all, shard, j, i);
    }
    forall i | 0 <= i < |part|
      ensures exists k :: 0 <= k < |all| && all[k] == part[i]
    {
      var k := ShardOnlyHas(part, all, shard, j, i);
    }
  }

  /** And the other joiners know nothing. */
  lemma ShardIgnores(part: seq<Event>, all: seq<Event>, shard: int -> nat, j: nat, id: int)
    requires IsShard(part, all, shard, j) && shard(id) != j
    ensures !Reviewed(part, id) && !Named(part, id) && !Mentioned(part, id)
  {
    forall i | 0 <= i < |part|
      ensures part[i].gameId != id
    {
      var k := ShardOnlyHas(part, all, shard, j, i);
    }
  }

  lemma ShardKeepsNonempty(part: seq<Event>, all: seq<Event>, shard: int -> nat, j: nat)
    requires IsShard(part, all, shard, j) && NamesNonempty(all)
    ensures NamesNonempty(part)
  {
    forall i | 0 <= i < |part| && part[i].Name?
      ensures part[i].gameName != ""
    {
      var k := ShardOnlyHas(part, all, shard, j, i);
    }
  }

  function NamesFor(id: int): Event -> nat {
    (e: Event) => if e.Name? && e.gameId == id then 1 else 0
  }

  lemma {:induction false} NamedOnceCount(evs: seq<Event>, id: int)
    requires NamedOnce(evs)
    ensures SumOf(NamesFor(id), evs) <= 1
    ensures !Named(evs, id) ==> SumOf(NamesFor(id), evs) == 0
  {
    if evs != [] {
      Grows(evs, id);
      NamedOnceCount(evs[..|evs| - 1], id);
    }
  }

  lemma TwoNamesCount(evs: seq<Event>, i: nat, k: nat)
    requires i < k < |evs| && evs[i].Name? && evs[k].Name? && evs[i].gameId == evs[k].gameId
    ensures SumOf(NamesFor(evs[i].gameId), evs) >= 2
  {
    var f := NamesFor(evs[i].gameId);
    assert evs == evs[..i] + [evs[i]] + evs[i + 1..k] + [evs[k]] + evs[k + 1..];
    SumAppend(f, evs[..i] + [evs[i]] + evs[i + 1..k] + [evs[k]], evs[k + 1..]);
    SumAppend(f, evs[..i] + [evs[i]] + evs[i + 1..k], [evs[k]]);
    SumAppend(f, evs[..i] + [evs[i]], evs[i + 1..k]);
    SumAppend(f, evs[..i], [evs[i]]);
    assert SumOf(f, [evs[i]]) == 1 && SumOf(f, [evs[k]]) == 1;
  }

  lemma ShardKeepsNamedOnce(part: seq<Event>, all: seq<Event>, shard: int -> nat, j: nat)
    requires IsShard(part, all, shard, j) && NamedOnce(all)
    ensures NamedOnce(part)
  {
    forall i, k | 0 <= i < k < |part| && part[i].Name? && part[k].Name?
      ensures part[i].gameId != part[k].gameId
    {
      var id := part[i].gameId;
      if part[k].gameId == id {
        var at := ShardOnlyHas(part, all, shard, j, i);
        TwoNamesCount(part, i, k);
        ShardSum(NamesFor(id), part, all, shard, j);
        NamedOnceCount(all, id);
      }
    }
  }
}
