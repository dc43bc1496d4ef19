/** What the three joiners share: internal/worker/joiner/joiner.go. */
module Joiner {
  import opened Protocol
  import opened Messages

  datatype Info = Info(gameName: string, votes: nat, sent: bool)

  type Games = map<int, Info>

  /** Which of the two EOFs of a client have arrived. */
  datatype Eofs = Eofs(review: bool, game: bool)

  const REVIEW_ORIGIN: nat := 0
  const GAME_ORIGIN: nat := 1

  function Recv(eofs: map<string, Eofs>, client: string): Eofs {
    if client in eofs then eofs[client] else Eofs(false, false)
  }

  function Marked(eofs: map<string, Eofs>, client: string, origin: nat): Eofs {
    var recv := Recv(eofs, client);
    Eofs(origin == REVIEW_ORIGIN || recv.review, origin == GAME_ORIGIN || recv.game)
  }

  predicate BothArrived(eofs: map<string, Eofs>, client: string, origin: nat) {
    var m := Marked(eofs, client, origin);
    m.review && m.game
  }

  class State {
    var eofsByClient: map<string, Eofs>
    var gameInfoByClient: map<string, Games>

    constructor ()
      ensures eofsByClient == map[] && gameInfoByClient == map[]
    {
      eofsByClient := map[];
      gameInfoByClient := map[];
    }

    /** The barrier: complete says that both EOFs are there; the caller then publishes and calls Forget. */
    method MarkEof(client: string, origin: nat) returns (complete: bool)
      modifies this`eofsByClient
      ensures eofsByClient == old(eofsByClient)[client := Marked(old(eofsByClient), client, origin)]
      ensures complete == BothArrived(old(eofsByClient), client, origin)
    {
      var recv := Eofs(false, false);
      if client in eofsByClient {
        recv := eofsByClient[client];
      }
      eofsByClient := eofsByClient[client :=
        Eofs(origin == REVIEW_ORIGIN || recv.review, origin == GAME_ORIGIN || recv.game)];
      complete := eofsByClient[client].review && eofsByClient[client].game;
    }

    method Forget(client: string)
      modifies this
      ensures gameInfoByClient == old(gameInfoByClient) - {client}
      ensures eofsByClient == old(eofsByClient) - {client}
    {
      gameInfoByClient := gameInfoByClient - {client};
      eofsByClient := eofsByClient - {client};
    }
  }

  /** The marks after EOFs of a client from these origins, none of which was forgotten. */
  function MarksAfter(client: string, origins: seq<nat>): map<string, Eofs> {
    if origins == [] then map[]
    else
      var before := MarksAfter(client, origins[..|origins| - 1]);
      before[client := Marked(before, client, origins[|origins| - 1])]
  }

  /** Some EOF of these has opened the barrier. */
  predicate Opened(client: string, origins: seq<nat>) {
    origins != [] &&
    var init := origins[..|origins| - 1];
    (Opened(client, init) || BothArrived(MarksAfter(client, init), client, origins[|origins| - 1]))
  }

  /** The barrier opens once EOFs of both origins have come, in any order, however often either repeats. */
  lemma {:induction false} OpensWhenBothSidesArrived(client: string, origins: seq<nat>)
    ensures Opened(client, origins) <==> REVIEW_ORIGIN in origins && GAME_ORIGIN in origins
    ensures var m := Recv(MarksAfter(client, origins), client);
            (m.review <==> REVIEW_ORIGIN in origins) && (m.game <==> GAME_ORIGIN in origins)
  {
    if |origins| > 0 {
      var init, last := origins[..|origins| - 1], origins[|origins| - 1];
      OpensWhenBothSidesArrived(client, init);
      assert origins == init + [last];
    }
  }

  /** What a client's joiner receives: votes for a game, or a game's name. A review may carry a name, too. */
  datatype Event = Review(gameId: int, votes: nat, gameName: string) | Name(gameId: int, gameName: string)

  /** All votes received for a game. */
  function Total(evs: seq<Event>, id: int): nat {
    if evs == [] then 0
    else
      var last := evs[|evs| - 1];
      Total(evs[..|evs| - 1], id) + if last.Review? && last.gameId == id then last.votes else 0
  }

  predicate Mentioned(evs: seq<Event>, id: int) {
    exists i :: 0 <= i < |evs| && evs[i].gameId == id
  }

  predicate Reviewed(evs: seq<Event>, id: int) {
    exists i :: 0 <= i < |evs| && evs[i].Review? && evs[i].gameId == id
  }

  predicate Named(evs: seq<Event>, id: int) {
    exists i :: 0 <= i < |evs| && evs[i].Name? && evs[i].gameId == id
  }

  ghost predicate NamesNonempty(evs: seq<Event>) {
    forall i :: 0 <= i < |evs| && evs[i].Name? ==> evs[i].gameName != ""
  }

  /** At most one name message per game. */
  ghost predicate NamedOnce(evs: seq<Event>) {
    forall i, j :: 0 <= i < j < |evs| && evs[i].Name? && evs[j].Name? ==> evs[i].gameId != evs[j].gameId
  }

  lemma Grows(evs: seq<Event>, id: int)
    requires evs != []
    ensures var init, last := evs[..|evs| - 1], evs[|evs| - 1];
            && (Mentioned(evs, id) <==> Mentioned(init, id) || last.gameId == id)
            && (Reviewed(evs, id) <==> Reviewed(init, id) || (last.Review? && last.gameId == id))
            && (Named(evs, id) <==> Named(init, id) || (last.Name? && last.gameId == id))
            && (NamesNonempty(evs) ==> NamesNonempty(init))
            && (NamedOnce(evs) ==> NamedOnce(init) && (last.Name? ==> !Named(init, last.gameId)))
  {
    var init, last := evs[..|evs| - 1], evs[|evs| - 1];
    assert forall i :: 0 <= i < |init| ==> evs[i] == init[i];
  }

  lemma MentionedMeans(evs: seq<Event>, id: int)
    ensures Mentioned(evs, id) <==> Reviewed(evs, id) || Named(evs, id)
  {
  }

  // How votes and names are gathered; the counter joiner does it in its own way.

  /** What is known of a client's games; None before its first message. */
  type Known = Option<Games>

  function Lookup(games: map<string, Games>, client: string): Known {
    if client in games then Some(games[client]) else None
  }

  function AddVotes(known: Known, msg: ScoredReview): Games {
    if known.None? then map[msg.gameId := Info("", msg.votes, false)]
    else if msg.gameId !in known.value then known.value[msg.gameId := Info("", msg.votes, false)]
    else
      var info := known.value[msg.gameId];
      known.value[msg.gameId := Info(info.gameName, info.votes + msg.votes, false)]
  }

  function SetName(known: Known, msg: GameName): Games {
    if known.None? then map[msg.gameId := Info(msg.gameName, 0, false)]
    else if msg.gameId !in known.value then known.value[msg.gameId := Info(msg.gameName, 0, false)]
    else known.value[msg.gameId := Info(msg.gameName, known.value[msg.gameId].votes, false)]
  }

  function Gather(known: Known, ev: Event): Games {
    match ev
    case Review(id, votes, name) => AddVotes(known, ScoredReview(id, votes, name))
    case Name(id, name) => SetName(known, GameName(id, name))
  }

  function GatherAll(evs: seq<Event>): Known {
    if evs == [] then None else Some(Gather(GatherAll(evs[..|evs| - 1]), evs[|evs| - 1]))
  }

  /** Known are exactly the games mentioned, each with its votes so far and a name that has arrived, if any has. */
  ghost predicate Tracks(known: Known, evs: seq<Event>, id: int) {
    && (known.Some? <==> evs != [])
    && (known.Some? && id in known.value <==> Mentioned(evs, id))
    && (Mentioned(evs, id) ==>
          (known.value[id].votes == Total(evs, id) && (known.value[id].gameName != "" <==> Named(evs, id))))
    && (known.Some? && id in known.value && known.value[id].gameName != "" ==>
        Name(id, known.value[id].gameName) in evs)
  }

  lemma {:induction false} GatherTracks(evs: seq<Event>, id: int)
    requires NamesNonempty(evs)
    ensures Tracks(GatherAll(evs), evs, id)
    ensures !Mentioned(evs, id) ==> Total(evs, id) == 0
  {
    if |evs| > 0 {
      Grows(evs, id);
      GatherTracks(evs[..|evs| - 1], id);
      assert evs[|evs| - 1] in evs && forall e :: e in evs[..|evs| - 1] ==> e in evs;
    }
  }
}
