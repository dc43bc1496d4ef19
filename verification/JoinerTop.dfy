/** The joiner of query 3: internal/worker/joiner/top.go. */
module TopJoiner {
  import opened Protocol
  import opened Messages
  import opened Joiner
  import opened JoinerNodes
  import CrashNetwork
  import TopN

  function PublishedOnReview(known: Known, msg: ScoredReview): Option<ScoredReview> {
    if known.None? || msg.gameId !in known.value || known.value[msg.gameId].gameName == "" then None
    else
      var info := known.value[msg.gameId];
      Some(ScoredReview(msg.gameId, info.votes + msg.votes, info.gameName))
  }

  function PublishedOnName(known: Known, msg: GameName): Option<ScoredReview> {
    if known.None? || msg.gameId !in known.value then None
    else Some(ScoredReview(msg.gameId, known.value[msg.gameId].votes, msg.gameName))
  }

  function TopKind(): Kind {
    Kind((k, r) => AddVotes(k, r), (k, m) => SetName(k, m),
         (c, k, r) => Reported(c, PublishedOnReview(k, r)), (c, k, m) => Reported(c, PublishedOnName(k, m)),
         (c, k) => [])
  }

  function Reported(client: string, out: Option<ScoredReview>): seq<Body> {
    if out.Some? then [ReviewsOut(client, [out.value])] else []
  }

  class Node {
    const joiner: State

    function Contents(): NodeState
      reads this, joiner
    {
      NodeState(joiner.gameInfoByClient, joiner.eofsByClient)
    }

    constructor ()
      ensures fresh(joiner) && joiner.gameInfoByClient == map[] && joiner.eofsByClient == map[]
    {
      joiner := new State();
    }

    method ProcessReview(client: string, msg: ScoredReview, recovery: bool) returns (out: Option<ScoredReview>)
      modifies joiner`gameInfoByClient
      ensures joiner.gameInfoByClient ==
              old(joiner.gameInfoByClient)[client := AddVotes(Lookup(old(joiner.gameInfoByClient), client), msg)]
      ensures out == if recovery then None else PublishedOnReview(Lookup(old(joiner.gameInfoByClient), client), msg)
    {
      out := None;
      if client !in joiner.gameInfoByClient {
        joiner.gameInfoByClient := joiner.gameInfoByClient[client := map[msg.gameId := Info("", msg.votes, false)]];
        return;
      }
      var userInfo := joiner.gameInfoByClient[client];
      if msg.gameId !in userInfo {
        joiner.gameInfoByClient := joiner.gameInfoByClient[client :=
          userInfo[msg.gameId := Info("", msg.votes, false)]];
        return;
      }
      var info := userInfo[msg.gameId];
      joiner.gameInfoByClient := joiner.gameInfoByClient[client :=
          userInfo[msg.gameId := Info(info.gameName, info.votes + msg.votes, false)]];
      if info.gameName == "" {
        return;
      }
      if !recovery {
        out := Some(ScoredReview(msg.gameId, info.votes + msg.votes, info.gameName));
      }
    }

    method ProcessGame(client: string, msg: GameName, recovery: bool) returns (out: Option<ScoredReview>)
      modifies joiner`gameInfoByClient
      ensures joiner.gameInfoByClient ==
              old(joiner.gameInfoByClient)[client := SetName(Lookup(old(joiner.gameInfoByClient), client), msg)]
      ensures out == if recovery then None else PublishedOnName(Lookup(old(joiner.gameInfoByClient), client), msg)
    {
      out := None;
      if client !in joiner.gameInfoByClient {
        joiner.gameInfoByClient := joiner.gameInfoByClient[client := map[msg.gameId := Info(msg.gameName, 0, false)]];
        return;
      }
      var userInfo := joiner.gameInfoByClient[client];
      if msg.gameId !in userInfo {
        joiner.gameInfoByClient := joiner.gameInfoByClient[client :=
          userInfo[msg.gameId := Info(msg.gameName, 0, false)]];
        return;
      }
      var info := userInfo[msg.gameId];
      joiner.gameInfoByClient := joiner.gameInfoByClient[client :=
          userInfo[msg.gameId := Info(msg.gameName, info.votes, false)]];
      if !recovery {
        out := Some(ScoredReview(msg.gameId, info.votes, msg.gameName));
      }
    }

    method ProcessEof(client: string, origin: nat, recovery: bool) returns (outs: seq<Body>)
      modifies joiner
      ensures (Contents(), outs) == Processed(TopKind(), old(Contents()), EofIn(client, origin), recovery)
    {
      outs := [];
      var complete := joiner.MarkEof(client, origin);
      if complete {
        if !recovery {
          outs := outs + [EofOut(client)];
        }
        joiner.Forget(client);
        assert joiner.eofsByClient == old(joiner.eofsByClient) - {client};
      }
    }

    /** One delivery, or one record of the log when recovery is set. */
    method Process(msg: Body, recovery: bool) returns (outs: seq<Body>)
      modifies joiner
      ensures (Contents(), outs) == Processed(TopKind(), old(Contents()), msg, recovery)
    {
      outs := [];
      match msg
      case ReviewIn(c, r) =>
        var out := ProcessReview(c, r, recovery);
        outs := Reported(c, out);
      case NameIn(c, m) =>
        var out := ProcessGame(c, m, recovery);
        outs := Reported(c, out);
      case EofIn(c, origin) =>
        outs := ProcessEof(c, origin, recovery);
      case _ =>
    }

    /** A fresh joiner reads back its log and is then what it was before it went down. */
    method Recover(log: seq<Body>)
      requires joiner.gameInfoByClient == map[] && joiner.eofsByClient == map[]
      modifies joiner
      ensures Contents() == LiveState(TopKind(), log)
    {
      for i := 0 to |log|
        invariant Contents() == LiveState(TopKind(), log[..i])
      {
        var _ := Process(log[i], true);
        assert log[..i + 1][..i] == log[..i];
      }
      assert log[..|log|] == log;
    }
  }

  /** As a node of the network the joiner is replayed as it ran. */
  lemma ReplaysAsItRan(key: string)
    ensures CrashNetwork.ReplayFaithful(AsNode(TopKind(), key))
  {
  }

  function EventOut(known: Known, ev: Event): seq<ScoredReview> {
    var out := match ev
      case Review(id, votes, name) => PublishedOnReview(known, ScoredReview(id, votes, name))
      case Name(id, name) => PublishedOnName(known, GameName(id, name));
    if out.Some? then [out.value] else []
  }

  /** Everything published for a client, in order. */
  function Emitted(evs: seq<Event>): seq<ScoredReview> {
    if evs == [] then []
    else Emitted(evs[..|evs| - 1]) + EventOut(GatherAll(evs[..|evs| - 1]), evs[|evs| - 1])
  }

  /** What the downstream heap knows of a game after these events. */
  ghost predicate Reports(evs: seq<Event>, latest: map<int, nat>, id: int) {
    && (id in latest ==> latest[id] == Total(evs, id) && Named(evs, id))
    && (Named(evs, id) && Reviewed(evs, id) ==> id in latest)
    && (NamedOnce(evs) && id in latest ==> Reviewed(evs, id))
  }

  lemma LatestSnoc(msgs: seq<ScoredReview>, msg: ScoredReview)
    ensures TopN.Latest(map[], msgs + [msg]) == TopN.Latest(map[], msgs)[msg.gameId := msg.votes]
    ensures TopN.NeverDecreases(map[], msgs + [msg]) <==>
            TopN.NeverDecreases(map[], msgs) && TopN.NotLess(TopN.Latest(map[], msgs), msg)
  {
    assert (msgs + [msg])[..|msgs|] == msgs;
  }

  /** A message about a game already mentioned, once the name is there, publishes the running total. */
  lemma OutIsTotal(evs: seq<Event>)
    requires |evs| > 0 && NamesNonempty(evs)
    ensures var init, last := evs[..|evs| - 1], evs[|evs| - 1];
            var id := last.gameId; var out := EventOut(GatherAll(init), last);
            if Mentioned(init, id) && Named(evs, id)
            then |out| == 1 && out[0].gameId == id && out[0].votes == Total(evs, id)
            else out == []
  {
    Grows(evs, evs[|evs| - 1].gameId);
    GatherTracks(evs[..|evs| - 1], evs[|evs| - 1].gameId);
  }

  lemma TotalSnoc(evs: seq<Event>, id: int)
    requires |evs| > 0
    ensures var init, last := evs[..|evs| - 1], evs[|evs| - 1];
            Total(init, id) <= Total(evs, id) && (last.gameId != id ==> Total(evs, id) == Total(init, id))
  {
  }

  lemma ReportsSnoc(evs: seq<Event>, latest: map<int, nat>, id: int)
    requires |evs| > 0 && NamesNonempty(evs)
    requires Reports(evs[..|evs| - 1], latest, id)
    ensures var init, last := evs[..|evs| - 1], evs[|evs| - 1];
            Reports(evs, if Mentioned(init, last.gameId) && Named(evs, last.gameId)
                         then latest[last.gameId := Total(evs, last.gameId)] else latest, id)
  {
    var init, last := evs[..|evs| - 1], evs[|evs| - 1];
    Grows(evs, id);
    TotalSnoc(evs, id);
    MentionedMeans(init, id);
    MentionedMeans(evs, id);
  }

  /** Totals. In every interleaving of reviews and non-empty names, the totals published for a game never
      decrease, and once its name and a review have arrived the last one is the sum of its votes. With one
      name per game, nothing is published for any other game. */
  lemma {:induction false} TotalsAreRunningSums(evs: seq<Event>, id: int)
    requires NamesNonempty(evs)
    ensures TopN.NeverDecreases(map[], Emitted(evs))
    ensures Reports(evs, TopN.Latest(map[], Emitted(evs)), id)
  {
    if |evs| > 0 {
      var init, last := evs[..|evs| - 1], evs[|evs| - 1];
      Grows(evs, last.gameId);
      TotalsAreRunningSums(init, id);
      TotalsAreRunningSums(init, last.gameId);
      TotalSnoc(evs, last.gameId);
      OutIsTotal(evs);
      ReportsSnoc(evs, TopN.Latest(map[], Emitted(init)), id);
      var out := EventOut(GatherAll(init), last);
      if out != [] {
        assert Emitted(evs) == Emitted(init) + [out[0]];
        LatestSnoc(Emitted(init), out[0]);
      } else {
        assert Emitted(evs) == Emitted(init);
      }
    }
  }

  /** Every total goes out under a name that has arrived for its game. */
  lemma {:induction false} TotalsCarryNames(evs: seq<Event>)
    requires NamesNonempty(evs)
    ensures forall r :: r in Emitted(evs) ==> Name(r.gameId, r.gameName) in evs
  {
    if evs != [] {
      var init, last := evs[..|evs| - 1], evs[|evs| - 1];
      Grows(evs, last.gameId);
      TotalsCarryNames(init);
      GatherTracks(init, last.gameId);
      assert evs == init + [last];
    }
  }
}
