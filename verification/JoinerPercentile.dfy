/** The joiner of query 5: internal/worker/joiner/percentile.go. It accumulates, and publishes at the EOF. */
module PercentileJoiner {
  import Bags
  import opened Protocol
  import opened Messages
  import opened Joiner
  import opened JoinerNodes
  import CrashNetwork
  import opened Batches

  predicate Publishable(info: Info) {
    info.gameName != "" && info.votes != 0
  }

  function Scored(games: Games, id: int): ScoredReview
    requires id in games
  {
    ScoredReview(id, games[id].votes, games[id].gameName)
  }

  /** The entries to publish, in the given order of the keys. */
  function Wanted(games: Games, order: seq<int>): seq<ScoredReview>
    requires forall id :: id in order ==> id in games
  {
    if order == [] then []
    else
      var id := order[|order| - 1];
      assert forall k :: k in order[..|order| - 1] ==> k in order;
      Wanted(games, order[..|order| - 1]) + if Publishable(games[id]) then [Scored(games, id)] else []
  }

  /** Some order for the keys of every map. */
  ghost function SomeWalk(games: Games): (order: seq<int>)
    ensures Bags.KeyOrder(games, order)
  {
    Bags.SomeOrder(games)
  }

  /** A way of walking the maps; Go's is not fixed, so nothing may hang on it. */
  type Walk = w: Games -> seq<int> | forall games :: Bags.KeyOrder(games, w(games))
    ghost witness (games: Games) => SomeWalk(games)

  /** Batches without a size, or with size one, hold one review each. */
  function Size(batchSize: nat): nat {
    if batchSize == 0 then 1 else batchSize
  }

  /** What the second EOF publishes, ahead of the EOF. */
  function Flush(batchSize: nat, walk: Walk, client: string, known: Known): seq<Body> {
    if known.None? then [] else Batched(client, CutOf(Wanted(known.value, walk(known.value)), Size(batchSize)))
  }

  function Batched(client: string, batches: seq<seq<ScoredReview>>): seq<Body> {
    seq(|batches|, i requires 0 <= i < |batches| => ReviewsOut(client, batches[i]))
  }

  function PercentileKind(batchSize: nat, walk: Walk): Kind {
    Kind((k, r) => AddVotes(k, r), (k, m) => SetName(k, m), (c, k, r) => [], (c, k, m) => [],
         (c, k) => Flush(batchSize, walk, c, k))
  }

  lemma OneMore(a: seq<ScoredReview>, b: seq<ScoredReview>, c: seq<ScoredReview>)
    ensures a + (b + c) == (a + b) + c && a + [] == a
  {
  }

  class Node {
    const joiner: State
    const batchSize: nat

    function Contents(): NodeState
      reads this, joiner
    {
      NodeState(joiner.gameInfoByClient, joiner.eofsByClient)
    }

    constructor (batchSize: nat)
      ensures this.batchSize == batchSize
      ensures fresh(joiner) && joiner.gameInfoByClient == map[] && joiner.eofsByClient == map[]
    {
      this.batchSize := batchSize;
      joiner := new State();
    }

    method ProcessReview(client: string, msg: ScoredReview)
      modifies joiner`gameInfoByClient
      ensures joiner.gameInfoByClient ==
              old(joiner.gameInfoByClient)[client := AddVotes(Lookup(old(joiner.gameInfoByClient), client), msg)]
    {
      if client !in joiner.gameInfoByClient {
        joiner.gameInfoByClient := joiner.gameInfoByClient[client := map[msg.gameId := Info("", msg.votes, false)]];
        return;
      }
      var userInfo := joiner.gameInfoByClient[client];
      if msg.gameId !in userInfo {
        joiner.gameInfoByClient := joiner.gameInfoByClient[client :=
          userInfo[msg.gameId := Info("", msg.votes, false)]];
      } else {
        var info := userInfo[msg.gameId];
        joiner.gameInfoByClient := joiner.gameInfoByClient[client :=
          userInfo[msg.gameId := Info(info.gameName, info.votes + msg.votes, false)]];
      }
    }

    method ProcessGame(client: string, msg: GameName)
      modifies joiner`gameInfoByClient
      ensures joiner.gameInfoByClient ==
              old(joiner.gameInfoByClient)[client := SetName(Lookup(old(joiner.gameInfoByClient), client), msg)]
    {
      if client !in joiner.gameInfoByClient {
        joiner.gameInfoByClient := joiner.gameInfoByClient[client := map[msg.gameId := Info(msg.gameName, 0, false)]];
        return;
      }
      var userInfo := joiner.gameInfoByClient[client];
      if msg.gameId !in userInfo {
        joiner.gameInfoByClient := joiner.gameInfoByClient[client :=
          userInfo[msg.gameId := Info(msg.gameName, 0, false)]];
      } else {
        var info := userInfo[msg.gameId];
        joiner.gameInfoByClient := joiner.gameInfoByClient[client :=
          userInfo[msg.gameId := Info(msg.gameName, info.votes, false)]];
      }
    }

    /** The published batches for one client's games, walked in any order. */
    method ProcessBatch(userInfo: Games, order: seq<int>) returns (published: seq<seq<ScoredReview>>)
      requires forall id :: id in order ==> id in userInfo
      ensures Concat(published) == Wanted(userInfo, order)
      ensures Cut(published, Size(batchSize))
    {
      var reviews: seq<ScoredReview> := [];
      published := [];
      ghost var size, wanted: seq<ScoredReview> := Size(batchSize), [];
      for i := 0 to |order|
        invariant forall id :: id in order[..i] ==> id in userInfo
        invariant Concat(published) + reviews == wanted && wanted == Wanted(userInfo, order[..i])
        invariant |reviews| < size && forall j :: 0 <= j < |published| ==> |published[j]| == size
      {
        var id := order[i];
        var info := userInfo[id];
        assert order[..i + 1][..i] == order[..i];
        if info.gameName == "" || info.votes == 0 {
          continue;
        }
        ghost var r := [ScoredReview(id, info.votes, info.gameName)];
        OneMore(Concat(published), reviews, r);
        wanted := wanted + r;
        reviews := reviews + [ScoredReview(id, info.votes, info.gameName)];
        if |reviews| >= batchSize {
          ConcatSnoc(published, reviews);
          published := published + [reviews];
          reviews := [];
        }
      }
      assert order[..|order|] == order;
      if |reviews| > 0 {
        ConcatSnoc(published, reviews);
        published := published + [reviews];
      }
    }

    /** Both EOFs are in: the client's games are flushed, then forgotten. */
    method ProcessEof(client: string, origin: nat, walk: Walk, recovery: bool) returns (outs: seq<Body>)
      modifies joiner
      ensures (Contents(), outs) ==
              Processed(PercentileKind(batchSize, walk), old(Contents()), EofIn(client, origin), recovery)
    {
      outs := [];
      var complete := joiner.MarkEof(client, origin);
      if complete {
        if !recovery {
          if client in joiner.gameInfoByClient {
            var userInfo := joiner.gameInfoByClient[client];
            var batches := ProcessBatch(userInfo, walk(userInfo));
            OneCut(batches, Size(batchSize));
            outs := Batched(client, batches);
          }
          outs := outs + [EofOut(client)];
        }
        joiner.Forget(client);
        assert joiner.eofsByClient == old(joiner.eofsByClient) - {client};
      }
    }

    /** One delivery, or one record of the log when recovery is set. */
    method Process(msg: Body, walk: Walk, recovery: bool) returns (outs: seq<Body>)
      modifies joiner
      ensures (Contents(), outs) == Processed(PercentileKind(batchSize, walk), old(Contents()), msg, recovery)
    {
      outs := [];
      match msg
      case ReviewIn(c, r) =>
        ProcessReview(c, r);
      case NameIn(c, m) =>
        ProcessGame(c, m);
      case EofIn(c, origin) =>
        outs := ProcessEof(c, origin, walk, recovery);
      case _ =>
    }

    /** A fresh joiner reads back its log and is then what it was before it went down. */
    method Recover(log: seq<Body>, walk: Walk)
      requires joiner.gameInfoByClient == map[] && joiner.eofsByClient == map[]
      modifies joiner
      ensures Contents() == LiveState(PercentileKind(batchSize, walk), log)
    {
      for i := 0 to |log|
        invariant Contents() == LiveState(PercentileKind(batchSize, walk), log[..i])
      {
        var _ := Process(log[i], walk, true);
        assert log[..i + 1][..i] == log[..i];
      }
      assert log[..|log|] == log;
    }
  }

  /** As a node of the network the joiner is replayed as it ran. */
  lemma ReplaysAsItRan(batchSize: nat, walk: Walk, key: string)
    ensures CrashNetwork.ReplayFaithful(AsNode(PercentileKind(batchSize, walk), key))
  {
  }

  lemma {:induction false} WantedMembers(games: Games, order: seq<int>, r: ScoredReview)
    requires forall id :: id in order ==> id in games
    ensures r in Wanted(games, order) <==>
            r.gameId in order && Publishable(games[r.gameId]) && r == Scored(games, r.gameId)
  {
    if |order| > 0 {
      var init := order[..|order| - 1];
      assert order == init + [order[|order| - 1]];
      WantedMembers(games, init, r);
    }
  }

  lemma {:induction false} WantedDistinct(games: Games, order: seq<int>, i: nat, j: nat)
    requires forall id :: id in order ==> id in games
    requires forall a, b :: 0 <= a < b < |order| ==> order[a] != order[b]
    requires i < j < |Wanted(games, order)|
    ensures Wanted(games, order)[i].gameId != Wanted(games, order)[j].gameId
  {
    var init, last := order[..|order| - 1], order[|order| - 1];
    assert forall id :: id in init ==> id in order;
    var before := Wanted(games, init);
    if j < |before| {
      WantedDistinct(games, init, i, j);
    } else {
      assert before[i] in before;
      WantedMembers(games, init, before[i]);
    }
  }

  /** For any order in which Go walks the map, the flush publishes exactly the games with a name and some
      votes, each with the sum of its votes and the name that arrived. */
  lemma FlushIsExact(evs: seq<Event>, order: seq<int>, r: ScoredReview)
    requires NamesNonempty(evs) && NamedOnce(evs) && evs != [] && Bags.KeyOrder(GatherAll(evs).value, order)
    ensures r in Wanted(GatherAll(evs).value, order) <==>
            Named(evs, r.gameId) && Total(evs, r.gameId) > 0 && r.votes == Total(evs, r.gameId) &&
            Name(r.gameId, r.gameName) in evs
  {
    GatherTracks(evs, r.gameId);
    WantedMembers(GatherAll(evs).value, order, r);
    if Named(evs, r.gameId) {
      NameIsUnique(evs, r.gameId, r.gameName, GatherAll(evs).value[r.gameId].gameName);
    }
  }

  lemma NameIsUnique(evs: seq<Event>, id: int, a: string, b: string)
    requires NamedOnce(evs)
    ensures Name(id, a) in evs && Name(id, b) in evs ==> a == b
  {
    if Name(id, a) in evs && Name(id, b) in evs {
      var i :| 0 <= i < |evs| && evs[i] == Name(id, a);
      var j :| 0 <= j < |evs| && evs[j] == Name(id, b);
      assert i == j;
    }
  }
}
