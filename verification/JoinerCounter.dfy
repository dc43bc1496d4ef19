/** The joiner of query 4: internal/worker/joiner/counter.go. It publishes a game once its votes reach a target. */
module CounterJoiner {
  import opened Protocol
  import opened Messages
  import opened Joiner
  import opened JoinerNodes
  import CrashNetwork

  predicate Crosses(target: nat, info: Info, votes: nat) {
    info.gameName != "" && info.votes + votes >= target
  }

  /** A client's first message, if it is a review, leaves no votes behind. */
  function OnReview(target: nat, known: Known, msg: ScoredReview): Games {
    if known.None? then map[msg.gameId := Info(msg.gameName, 0, false)]
    else if msg.gameId !in known.value then known.value[msg.gameId := Info("", msg.votes, false)]
    else
      var info := known.value[msg.gameId];
      if info.sent then known.value
      else if Crosses(target, info, msg.votes) then known.value[msg.gameId := Info(msg.gameName, info.votes, true)]
      else known.value[msg.gameId := Info(info.gameName, info.votes + msg.votes, false)]
  }

  function PublishedOnReview(target: nat, known: Known, msg: ScoredReview): seq<GameName> {
    if known.Some? && msg.gameId in known.value && !known.value[msg.gameId].sent &&
       Crosses(target, known.value[msg.gameId], msg.votes)
    then [GameName(msg.gameId, known.value[msg.gameId].gameName)] else []
  }

  function OnName(target: nat, known: Known, msg: GameName): Games {
    if known.None? then map[msg.gameId := Info(msg.gameName, 0, false)]
    else if msg.gameId !in known.value then known.value[msg.gameId := Info(msg.gameName, 0, false)]
    else
      var info := known.value[msg.gameId];
      known.value[msg.gameId := Info(msg.gameName, info.votes, info.votes >= target)]
  }

  function PublishedOnName(target: nat, known: Known, msg: GameName): seq<GameName> {
    if known.Some? && msg.gameId in known.value && known.value[msg.gameId].votes >= target then [msg] else []
  }

  function Names(client: string, names: seq<GameName>): seq<Body> {
    seq(|names|, i requires 0 <= i < |names| => NameOut(client, names[i]))
  }

  function CounterKind(target: nat): Kind {
    Kind((k, r) => OnReview(target, k, r), (k, m) => OnName(target, k, m),
         (c, k, r) => Names(c, PublishedOnReview(target, k, r)),
         (c, k, m) => Names(c, PublishedOnName(target, k, m)), (c, k) => [])
  }

  class Node {
    const joiner: State
    const target: nat

    function Contents(): NodeState
      reads this, joiner
    {
      NodeState(joiner.gameInfoByClient, joiner.eofsByClient)
    }

    constructor (target: nat)
      ensures this.target == target
      ensures fresh(joiner) && joiner.gameInfoByClient == map[] && joiner.eofsByClient == map[]
    {
      this.target := target;
      joiner := new State();
    }

    method ProcessReview(client: string, msg: ScoredReview, recovery: bool) returns (out: seq<GameName>)
      modifies joiner`gameInfoByClient
      ensures joiner.gameInfoByClient ==
              old(joiner.gameInfoByClient)[client :=
                OnReview(target, Lookup(old(joiner.gameInfoByClient), client), msg)]
      ensures out == if recovery then []
              else PublishedOnReview(target, Lookup(old(joiner.gameInfoByClient), client), msg)
    {
      out := [];
      if client !in joiner.gameInfoByClient {
        joiner.gameInfoByClient := joiner.gameInfoByClient[client := map[msg.gameId := Info(msg.gameName, 0, false)]];
        return;
      }
      var userInfo := joiner.gameInfoByClient[client];
      if msg.gameId !in userInfo {
        joiner.gameInfoByClient := joiner.gameInfoByClient[client :=
          userInfo[msg.gameId := Info("", msg.votes, false)]];
        return;
      }
      var info := userInfo[msg.gameId];
      if info.sent {
        assert joiner.gameInfoByClient[client := userInfo] == joiner.gameInfoByClient;
        return;
      }
      if info.gameName != "" && info.votes + msg.votes >= target {
        if !recovery {
          out := [GameName(msg.gameId, info.gameName)];
        }
        joiner.gameInfoByClient := joiner.gameInfoByClient[client :=
          userInfo[msg.gameId := Info(msg.gameName, info.votes, true)]];
      } else {
        joiner.gameInfoByClient := joiner.gameInfoByClient[client :=
          userInfo[msg.gameId := Info(info.gameName, info.votes + msg.votes, false)]];
      }
    }

    method ProcessGame(client: string, msg: GameName, recovery: bool) returns (out: seq<GameName>)
      modifies joiner`gameInfoByClient
      ensures joiner.gameInfoByClient ==
              old(joiner.gameInfoByClient)[client := OnName(target, Lookup(old(joiner.gameInfoByClient), client), msg)]
      ensures out == if recovery then [] else PublishedOnName(target, Lookup(old(joiner.gameInfoByClient), client), msg)
    {
      out := [];
      if client !in joiner.gameInfoByClient {
        joiner.gameInfoByClient := joiner.gameInfoByClient[client := map[msg.gameId := Info(msg.gameName, 0, false)]];
        return;
      }
      var userInfo := joiner.gameInfoByClient[client];
      if msg.gameId !in userInfo {
        joiner.gameInfoByClient := joiner.gameInfoByClient[client :=
          userInfo[msg.gameId := Info(msg.gameName, 0, false)]];
        return;
      }
      var info := userInfo[msg.gameId];
      if info.votes >= target {
        if !recovery {
          out := [msg];
        }
        joiner.gameInfoByClient := joiner.gameInfoByClient[client :=
          userInfo[msg.gameId := Info(msg.gameName, info.votes, true)]];
      } else {
        joiner.gameInfoByClient := joiner.gameInfoByClient[client :=
          userInfo[msg.gameId := Info(msg.gameName, info.votes, false)]];
      }
    }

    method ProcessEof(client: string, origin: nat, recovery: bool) returns (outs: seq<Body>)
      modifies joiner
      ensures (Contents(), outs) == Processed(CounterKind(target), old(Contents()), EofIn(client, origin), recovery)
    {
      outs := [];
      var complete := joiner.MarkEof(client, origin);
      if complete {
        if !recovery {
          outs := outs + [EofOut(client)];
        }
        joiner.Forget(client);
        assert joiner.eofsByClient == old(joiner.eofsByClient) - {client};
      }
    }

    /** One delivery, or one record of the log when recovery is set. */
    method Process(msg: Body, recovery: bool) returns (outs: seq<Body>)
      modifies joiner
      ensures (Contents(), outs) == Processed(CounterKind(target), old(Contents()), msg, recovery)
    {
      outs := [];
      match msg
      case ReviewIn(c, r) =>
        var out := ProcessReview(c, r, recovery);
        outs := Names(c, out);
        assert recovery ==> outs == [];
      case NameIn(c, m) =>
        var out := ProcessGame(c, m, recovery);
        outs := Names(c, out);
        assert recovery ==> outs == [];
      case EofIn(c, origin) =>
        outs := ProcessEof(c, origin, recovery);
      case _ =>
    }

    /** A fresh joiner reads back its log and is then what it was before it went down. */
    method Recover(log: seq<Body>)
      requires joiner.gameInfoByClient == map[] && joiner.eofsByClient == map[]
      modifies joiner
      ensures Contents() == LiveState(CounterKind(target), log)
    {
      for i := 0 to |log|
        invariant Contents() == LiveState(CounterKind(target), log[..i])
      {
        var _ := Process(log[i], true);
        assert log[..i + 1][..i] == log[..i];
      }
      assert log[..|log|] == log;
    }
  }

  /** As a node of the network the joiner is replayed as it ran. */
  lemma ReplaysAsItRan(target: nat, key: string)
    ensures CrashNetwork.ReplayFaithful(AsNode(CounterKind(target), key))
  {
  }

  function AfterEvent(target: nat, known: Known, ev: Event): Games {
    match ev
    case Review(id, votes, name) => OnReview(target, known, ScoredReview(id, votes, name))
    case Name(id, name) => OnName(target, known, GameName(id, name))
  }

  function EventOut(target: nat, known: Known, ev: Event): seq<GameName> {
    match ev
    case Review(id, votes, name) => PublishedOnReview(target, known, ScoredReview(id, votes, name))
    case Name(id, name) => PublishedOnName(target, known, GameName(id, name))
  }

  function Run(target: nat, evs: seq<Event>): Known {
    if evs == [] then None else Some(AfterEvent(target, Run(target, evs[..|evs| - 1]), evs[|evs| - 1]))
  }

  /** Everything published for a client, in order. */
  function Published(target: nat, evs: seq<Event>): seq<GameName> {
    if evs == [] then []
    else
      var init := evs[..|evs| - 1];
      Published(target, init) + EventOut(target, Run(target, init), evs[|evs| - 1])
  }

  /** Everything published about one game for a client. */
  function EmittedFor(target: nat, evs: seq<Event>, id: int): seq<GameName> {
    if evs == [] then []
    else
      var init, last := evs[..|evs| - 1], evs[|evs| - 1];
      EmittedFor(target, init, id) + if last.gameId == id then EventOut(target, Run(target, init), last) else []
  }

  /** The votes that count: all but those of the client's very first message, if that is a review. */
  function Counted(evs: seq<Event>, id: int): nat {
    if evs == [] then 0
    else
      var init, last := evs[..|evs| - 1], evs[|evs| - 1];
      Counted(init, id) + if last.Review? && last.gameId == id && init != [] then last.votes else 0
  }

  lemma {:induction false} CountedIsTotalButFirst(evs: seq<Event>, id: int)
    requires |evs| > 0
    ensures Counted(evs, id) + (if evs[0].Review? && evs[0].gameId == id then evs[0].votes else 0) == Total(evs, id)
  {
    if |evs| > 1 {
      CountedIsTotalButFirst(evs[..|evs| - 1], id);
    }
  }

  /** Reviews come from the language filter, which leaves the name empty (internal/worker/filter/text.go:110). */
  ghost predicate ReviewsUnnamed(evs: seq<Event>) {
    forall i :: 0 <= i < |evs| && evs[i].Review? ==> evs[i].gameName == ""
  }

  predicate Reached(target: nat, evs: seq<Event>, id: int) {
    Named(evs, id) && Counted(evs, id) >= target
  }

  ghost predicate Tracks(target: nat, known: Known, evs: seq<Event>, id: int) {
    && (known.Some? <==> evs != [])
    && (known.Some? && id in known.value <==> Mentioned(evs, id))
    && (Mentioned(evs, id) ==>
          var info := known.value[id];
          if Reached(target, evs, id) then info.sent
          else !info.sent && info.votes == Counted(evs, id) && (info.gameName != "" <==> Named(evs, id)))
    && (known.Some? && id in known.value && known.value[id].gameName != "" ==>
        Name(id, known.value[id].gameName) in evs)
  }

  /** No name arrives for the game once it has been published. */
  ghost predicate NoLateName(target: nat, evs: seq<Event>, id: int) {
    forall i :: 0 <= i < |evs| && evs[i].Name? && evs[i].gameId == id ==> !Reached(target, evs[..i], id)
  }

  ghost predicate Sane(target: nat, evs: seq<Event>, id: int) {
    NamesNonempty(evs) && ReviewsUnnamed(evs) && NoLateName(target, evs, id)
  }

  lemma SaneInit(target: nat, evs: seq<Event>, id: int)
    requires |evs| > 0 && Sane(target, evs, id)
    ensures var init, last := evs[..|evs| - 1], evs[|evs| - 1];
            Sane(target, init, id) && (last.Name? && last.gameId == id ==> !Reached(target, init, id))
  {
    var init := evs[..|evs| - 1];
    forall i | 0 <= i < |init|
      ensures init[i] == evs[i] && init[..i] == evs[..i]
    {
    }
  }

  lemma {:induction false} UnmentionedCountsNothing(evs: seq<Event>, id: int)
    requires !Mentioned(evs, id)
    ensures Counted(evs, id) == 0
  {
    if |evs| > 0 {
      Grows(evs, id);
      UnmentionedCountsNothing(evs[..|evs| - 1], id);
    }
  }

  lemma TracksOther(target: nat, evs: seq<Event>, id: int)
    requires |evs| > 0 && evs[|evs| - 1].gameId != id
    requires Tracks(target, Run(target, evs[..|evs| - 1]), evs[..|evs| - 1], id)
    ensures Tracks(target, Run(target, evs), evs, id)
  {
    Grows(evs, id);
    assert forall e :: e in evs[..|evs| - 1] ==> e in evs;
  }

  lemma TracksOwn(target: nat, evs: seq<Event>)
    requires target > 0 && |evs| > 0 && Sane(target, evs, evs[|evs| - 1].gameId)
    requires Tracks(target, Run(target, evs[..|evs| - 1]), evs[..|evs| - 1], evs[|evs| - 1].gameId)
    ensures var init, last := evs[..|evs| - 1], evs[|evs| - 1]; var id := last.gameId;
            && Tracks(target, Run(target, evs), evs, id)
            && var out := EventOut(target, Run(target, init), last);
               if Reached(target, evs, id) && !Reached(target, init, id)
               then |out| == 1 && out[0].gameId == id && Name(id, out[0].gameName) in evs
               else out == []
  {
    var init, last := evs[..|evs| - 1], evs[|evs| - 1];
    SaneInit(target, evs, last.gameId);
    Grows(evs, last.gameId);
    MentionedMeans(init, last.gameId);
    if !Mentioned(init, last.gameId) {
      UnmentionedCountsNothing(init, last.gameId);
    }
    assert last in evs && forall e :: e in init ==> e in evs;
  }

  lemma {:induction false} RunTracks(target: nat, evs: seq<Event>, id: int)
    requires target > 0 && Sane(target, evs, id)
    ensures Tracks(target, Run(target, evs), evs, id)
  {
    if |evs| > 0 {
      SaneInit(target, evs, id);
      RunTracks(target, evs[..|evs| - 1], id);
      if evs[|evs| - 1].gameId == id {
        TracksOwn(target, evs);
      } else {
        TracksOther(target, evs, id);
      }
    }
  }

  lemma ReachedStays(target: nat, evs: seq<Event>, id: int)
    requires |evs| > 0
    ensures Reached(target, evs[..|evs| - 1], id) ==> Reached(target, evs, id)
    ensures evs[|evs| - 1].gameId != id ==> (Reached(target, evs[..|evs| - 1], id) <==> Reached(target, evs, id))
  {
    Grows(evs, id);
  }

  /** The threshold join, for every interleaving in which no name arrives for the game after it was published: it is
      published exactly when a name has arrived and its counted votes have reached the target, once, under a name that
      arrived. */
  lemma {:induction false} EmittedOnceAtTarget(target: nat, evs: seq<Event>, id: int)
    requires target > 0 && Sane(target, evs, id)
    ensures |EmittedFor(target, evs, id)| == if Named(evs, id) && Counted(evs, id) >= target then 1 else 0
    ensures forall x :: x in EmittedFor(target, evs, id) ==> x.gameId == id && Name(id, x.gameName) in evs
  {
    if |evs| > 0 {
      var init, last := evs[..|evs| - 1], evs[|evs| - 1];
      SaneInit(target, evs, id);
      EmittedOnceAtTarget(target, init, id);
      ReachedStays(target, evs, id);
      assert forall e :: e in init ==> e in evs;
      if last.gameId == id {
        RunTracks(target, init, id);
        TracksOwn(target, evs);
      }
    }
  }

  /** The first review of a client is lost: five votes and a name do not reach a target of five. */
  lemma FirstReviewIsDropped()
    ensures var evs := [Review(1, 5, ""), Name(1, "a")];
            Total(evs, 1) == 5 && Named(evs, 1) && EmittedFor(5, evs, 1) == []
  {
    var evs := [Review(1, 5, ""), Name(1, "a")];
    assert evs[1].Name? && evs[1].gameId == 1;
    assert evs[..1] == [Review(1, 5, "")] && evs[..1][..0] == [];
    assert Run(5, evs[..1][..0]) == None;
    assert Run(5, evs[..1]) == Some(map[1 := Info("", 0, false)]);
  }

  lemma RunNext(target: nat, evs: seq<Event>, ev: Event, id: int)
    ensures Run(target, evs + [ev]) == Some(AfterEvent(target, Run(target, evs), ev))
    ensures ev.gameId == id ==> EmittedFor(target, evs + [ev], id) ==
                                EmittedFor(target, evs, id) + EventOut(target, Run(target, evs), ev)
  {
    assert (evs + [ev])[..|evs|] == evs;
  }

  /** What is known of one game, and of no other. */
  function OnlyGame(info: Info): Known {
    Some(map[1 := info])
  }

  lemma OnlyGameUpdated(target: nat, info: Info, ev: Event)
    requires ev.gameId == 1
    ensures var info' := AfterEvent(target, OnlyGame(info), ev)[1];
            AfterEvent(target, OnlyGame(info), ev) == map[1 := info']
  {
  }

  /** The condition on names is needed: whatever came before, a name for a published game and then a review of as many
      votes as the target have it published a second time, one on the name or the other on the review. */
  lemma LateNameRepeats(target: nat, evs: seq<Event>, id: int, name: string)
    requires target > 0 && Sane(target, evs, id) && Reached(target, evs, id) && name != ""
    ensures |EmittedFor(target, evs + [Name(id, name)] + [Review(id, target, "")], id)| == 2
  {
    EmittedOnceAtTarget(target, evs, id);
    RunTracks(target, evs, id);
    MentionedMeans(evs, id);
    RunNext(target, evs, Name(id, name), id);
    RunNext(target, evs + [Name(id, name)], Review(id, target, ""), id);
  }

  /** One such run: a second name lets a game be published again. */
  lemma SecondNameRepeats()
    ensures var evs := [Name(1, "a"), Review(1, 1, ""), Review(1, 1, ""), Name(1, "a"), Review(1, 1, "")];
            EmittedFor(2, evs, 1) == [GameName(1, "a"), GameName(1, "a")]
  {
    var name, review := Name(1, "a"), Review(1, 1, "");
    RunNext(2, [], name, 1);
    RunNext(2, [] + [name], review, 1);
    OnlyGameUpdated(2, Info("a", 0, false), review);
    RunNext(2, [] + [name] + [review], review, 1);
    OnlyGameUpdated(2, Info("a", 1, false), review);
    var three := [] + [name] + [review] + [review];
    assert Run(2, three) == OnlyGame(Info("", 1, true)) && EmittedFor(2, three, 1) == [GameName(1, "a")];
    RunNext(2, three, name, 1);
    OnlyGameUpdated(2, Info("", 1, true), name);
    RunNext(2, three + [name], review, 1);
    assert three + [name] + [review] == [name, review, review, name, review];
  }
}
