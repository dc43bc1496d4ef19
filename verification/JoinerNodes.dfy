/** The joiners as nodes of the crash network: every message kind, EOFs included, live and in recovery. */
module JoinerNodes {
  import opened Protocol
  import opened Messages
  import opened Joiner
  import CrashNetwork

  datatype NodeState = NodeState(games: map<string, Games>, eofs: map<string, Eofs>)

  datatype Body =
    | ReviewIn(client: string, review: ScoredReview)
    | NameIn(client: string, name: GameName)
    | EofIn(client: string, origin: nat)
    | Other
    | ReviewsOut(client: string, reviews: seq<ScoredReview>)
    | NameOut(client: string, name: GameName)
    | EofOut(client: string)

  /** What tells one joiner from another. */
  datatype Kind = Kind(
    onReview: (Known, ScoredReview) -> Games,
    onName: (Known, GameName) -> Games,
    reviewOut: (string, Known, ScoredReview) -> seq<Body>,
    nameOut: (string, Known, GameName) -> seq<Body>,
    flush: (string, Known) -> seq<Body>)

  /** One message. Recovery takes the same turns but neither publishes nor sends the EOF on. */
  function Processed(kind: Kind, st: NodeState, msg: Body, recovery: bool): (NodeState, seq<Body>) {
    match msg
    case ReviewIn(c, r) =>
      (st.(games := st.games[c := kind.onReview(Lookup(st.games, c), r)]),
       if recovery then [] else kind.reviewOut(c, Lookup(st.games, c), r))
    case NameIn(c, m) =>
      (st.(games := st.games[c := kind.onName(Lookup(st.games, c), m)]),
       if recovery then [] else kind.nameOut(c, Lookup(st.games, c), m))
    case EofIn(c, origin) =>
      if BothArrived(st.eofs, c, origin) then
        (NodeState(st.games - {c}, st.eofs - {c}),
         if recovery then [] else kind.flush(c, Lookup(st.games, c)) + [EofOut(c)])
      else (st.(eofs := st.eofs[c := Marked(st.eofs, c, origin)]), [])
    case _ => (st, [])
  }

  function AsNode(kind: Kind, key: string): CrashNetwork.Node<NodeState, Body> {
    CrashNetwork.Node(
      NodeState(map[], map[]),
      (st: NodeState, e: Envelope<Body>) =>
        var (st', outs) := Processed(kind, st, e.body, false);
        (st', seq(|outs|, i requires 0 <= i < |outs| => Out(key, outs[i]))),
      (st: NodeState, e: Envelope<Body>) => Processed(kind, st, e.body, true).0)
  }

  /** What a log of deliveries leaves behind when it is processed live. */
  function LiveState(kind: Kind, log: seq<Body>): NodeState {
    if log == [] then NodeState(map[], map[])
    else Processed(kind, LiveState(kind, log[..|log| - 1]), log[|log| - 1], false).0
  }

  /** A joiner of any such kind is replayed as it ran. */
  lemma ReplayIsFaithful(kind: Kind, key: string)
    ensures CrashNetwork.ReplayFaithful(AsNode(kind, key))
  {
  }

  /** A record of the log does what the delivery did, but nothing is sent. */
  lemma RecoveryIsSilent(kind: Kind, st: NodeState, msg: Body)
    ensures Processed(kind, st, msg, true) == (Processed(kind, st, msg, false).0, [])
  {
  }

  /** Clients do not see each other: a message leaves every other client's games and marks as they were. */
  lemma ClientsAreSeparate(kind: Kind, st: NodeState, msg: Body, recovery: bool, other: string)
    requires msg.ReviewIn? || msg.NameIn? || msg.EofIn? ==> msg.client != other
    ensures var st' := Processed(kind, st, msg, recovery).0;
            Lookup(st'.games, other) == Lookup(st.games, other) &&
            (other in st'.eofs <==> other in st.eofs) && (other in st.eofs ==> st'.eofs[other] == st.eofs[other])
  {
  }
}
