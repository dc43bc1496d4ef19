/** The messages the stateful nodes exchange, after decoding. */
module Messages {
  datatype ScoredReview = ScoredReview(gameId: int, votes: nat, gameName: string)

  datatype GameName = GameName(gameId: int, gameName: string)

  datatype Release = Release(gameId: int, gameName: string, avgPlaytime: int)

  function VotesOf(s: seq<ScoredReview>): (r: seq<int>)
    ensures |r| == |s|
  {
    seq(|s|, i requires 0 <= i < |s| => s[i].votes)
  }
}
