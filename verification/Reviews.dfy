/** What the review filter makes of one batch of reviews: pkg/message/review.go:108-149. */
module Reviews {
  import opened Protocol
  import opened Messages
  import opened Joiner
  import opened Batches
  import opened Sums
  import Bags

  datatype RawReview = RawReview(gameId: int, gameName: string, text: string, score: int)

  /** The texts of a game's reviews with the wanted score, in the order of the batch. */
  function Texts(m: seq<RawReview>, target: int, id: int): seq<string> {
    if m == [] then []
    else
      var last := m[|m| - 1];
      Texts(m[..|m| - 1], target, id) + if last.score == target && last.gameId == id then [last.text] else []
  }

  /** How many reviews of a game have the wanted score. */
  function Matching(m: seq<RawReview>, target: int, id: int): nat {
    |Texts(m, target, id)|
  }

  /** The name in the first of a game's reviews with the wanted score. */
  function FirstName(m: seq<RawReview>, target: int, id: int): string {
    if m == [] then ""
    else
      var init, last := m[..|m| - 1], m[|m| - 1];
      if Matching(init, target, id) == 0 && last.score == target && last.gameId == id then last.gameName
      else FirstName(init, target, id)
  }

  predicate Matches(r: RawReview, target: int, id: int) {
    r.score == target && r.gameId == id
  }

  /** The texts and the name are those at the places in the batch where a review of the game has the wanted score. */
  ghost predicate Places(m: seq<RawReview>, target: int, id: int, at: seq<nat>) {
    && (forall i :: 0 <= i < |m| ==> (Matches(m[i], target, id) <==> i in at))
    && (forall k :: 0 <= k < |at| ==> at[k] < |m|)
    && (forall j, k :: 0 <= j < k < |at| ==> at[j] < at[k])
  }

  function PlacesOf(m: seq<RawReview>, target: int, id: int): (at: seq<nat>)
    ensures forall k :: 0 <= k < |at| ==> at[k] < |m|
  {
    if m == [] then []
    else
      var init, last := m[..|m| - 1], m[|m| - 1];
      PlacesOf(init, target, id) + if Matches(last, target, id) then [|init|] else []
  }

  lemma PlacesNext(m: seq<RawReview>, target: int, id: int, at: seq<nat>)
    requires m != [] && Places(m[..|m| - 1], target, id, at)
    ensures Places(m, target, id, if Matches(m[|m| - 1], target, id) then at + [|m| - 1] else at + [])
  {
    var k := |m| - 1;
    assert at + [] == at;
    assert forall i :: 0 <= i < k ==> m[..k][i] == m[i];
    assert forall i :: 0 <= i < k ==> (i in at + [k] <==> i in at);
  }

  lemma {:induction false} ArePlaces(m: seq<RawReview>, target: int, id: int)
    ensures Places(m, target, id, PlacesOf(m, target, id))
  {
    if m != [] {
      ArePlaces(m[..|m| - 1], target, id);
      PlacesNext(m, target, id, PlacesOf(m[..|m| - 1], target, id));
    }
  }

  /** The texts at these places. */
  function TextsAt(m: seq<RawReview>, at: seq<nat>): (r: seq<string>)
    requires forall k :: 0 <= k < |at| ==> at[k] < |m|
    ensures |r| == |at| && forall k :: 0 <= k < |at| ==> r[k] == m[at[k]].text
  {
    seq(|at|, k requires 0 <= k < |at| => m[at[k]].text)
  }

  lemma TextsAtNext(m: seq<RawReview>, at: seq<nat>)
    requires m != [] && forall k :: 0 <= k < |at| ==> at[k] < |m| - 1
    ensures TextsAt(m, at + []) == TextsAt(m[..|m| - 1], at) + []
    ensures TextsAt(m, at + [|m| - 1]) == TextsAt(m[..|m| - 1], at) + [m[|m| - 1].text]
  {
  }

  lemma {:induction false} TextsFromPlaces(m: seq<RawReview>, target: int, id: int)
    ensures Texts(m, target, id) == TextsAt(m, PlacesOf(m, target, id))
  {
    if m != [] {
      TextsFromPlaces(m[..|m| - 1], target, id);
      TextsAtNext(m, PlacesOf(m[..|m| - 1], target, id));
    }
  }

  lemma {:induction false} NameFromPlaces(m: seq<RawReview>, target: int, id: int)
    ensures var at := PlacesOf(m, target, id); FirstName(m, target, id) == if at == [] then "" else m[at[0]].gameName
  {
    if m != [] {
      NameFromPlaces(m[..|m| - 1], target, id);
      TextsFromPlaces(m[..|m| - 1], target, id);
    }
  }

  /** A game's texts are those of its reviews with the wanted score, each once and in the order of the batch; its name
      is that of the first. */
  lemma WhereMatching(m: seq<RawReview>, target: int, id: int) returns (at: seq<nat>)
    ensures Places(m, target, id, at) && Texts(m, target, id) == TextsAt(m, at)
    ensures FirstName(m, target, id) == if at == [] then "" else m[at[0]].gameName
  {
    at := PlacesOf(m, target, id);
    ArePlaces(m, target, id);
    TextsFromPlaces(m, target, id);
    NameFromPlaces(m, target, id);
  }

  ghost predicate HasVotes(r: seq<ScoredReview>, id: int, votes: nat) {
    exists i :: 0 <= i < |r| && r[i].gameId == id && r[i].votes == votes
  }

  /** r has one entry for each game with a matching review, with the number of those reviews as its votes
      and the first name given. */
  ghost predicate IsScored(m: seq<RawReview>, target: int, r: seq<ScoredReview>) {
    && (forall i, j :: 0 <= i < j < |r| ==> r[i].gameId != r[j].gameId)
    && (forall i :: 0 <= i < |r| ==> r[i].votes == Matching(m, target, r[i].gameId) && r[i].votes > 0)
    && (forall i :: 0 <= i < |r| ==> r[i].gameName == FirstName(m, target, r[i].gameId))
    && (forall id :: Matching(m, target, id) > 0 ==> HasVotes(r, id, Matching(m, target, id)))
  }

  /** The counts and the names by game. */
  ghost predicate Counts(m: seq<RawReview>, target: int, votes: map<int, nat>, names: map<int, string>) {
    && names.Keys == votes.Keys
    && forall id :: (id in votes <==> Matching(m, target, id) > 0) &&
                    (id in votes ==> votes[id] == Matching(m, target, id) && names[id] == FirstName(m, target, id))
  }

  method CountVotes(m: seq<RawReview>, target: int) returns (votes: map<int, nat>, names: map<int, string>)
    ensures Counts(m, target, votes, names)
  {
    votes, names := map[], map[];
    for i := 0 to |m|
      invariant Counts(m[..i], target, votes, names)
    {
      var msg := m[i];
      assert m[..i + 1][..i] == m[..i];
      if msg.score != target {
        continue;
      }
      if msg.gameId in votes {
        votes := votes[msg.gameId := votes[msg.gameId] + 1];
      } else {
        votes := votes[msg.gameId := 1];
        names := names[msg.gameId := msg.gameName];
      }
    }
    assert m[..|m|] == m;
  }

  /** r has one entry for each of the games done, with its votes and its name. */
  ghost predicate Collected(r: seq<ScoredReview>, votes: map<int, nat>, names: map<int, string>, done: set<int>) {
    && done <= votes.Keys == names.Keys
    && (forall i :: 0 <= i < |r| ==> r[i].gameId in done)
    && (forall i :: 0 <= i < |r| ==> r[i].votes == votes[r[i].gameId] && r[i].gameName == names[r[i].gameId])
    && (forall i, j :: 0 <= i < j < |r| ==> r[i].gameId != r[j].gameId)
    && (forall id :: id in done ==> HasVotes(r, id, votes[id]))
  }

  lemma HasVotesSnoc(r: seq<ScoredReview>, last: ScoredReview, id: int, votes: nat)
    ensures HasVotes(r, id, votes) || (last.gameId == id && last.votes == votes) ==> HasVotes(r + [last], id, votes)
  {
    if last.gameId == id && last.votes == votes {
      assert (r + [last])[|r|] == last;
    } else if HasVotes(r, id, votes) {
      var i :| 0 <= i < |r| && r[i].gameId == id && r[i].votes == votes;
      assert (r + [last])[i] == r[i];
    }
  }

  lemma CollectedSnoc(r: seq<ScoredReview>, votes: map<int, nat>, names: map<int, string>, done: set<int>, k: int)
    requires Collected(r, votes, names, done) && k in votes && k !in done
    ensures Collected(r + [ScoredReview(k, votes[k], names[k])], votes, names, done + {k})
  {
    var last := ScoredReview(k, votes[k], names[k]);
    forall id | id in done + {k}
      ensures HasVotes(r + [last], id, votes[id])
    {
      HasVotesSnoc(r, last, id, votes[id]);
    }
  }

  /** Go walks the counts in an order of its own. */
  method ToScoredReviewMessage(m: seq<RawReview>, target: int) returns (r: seq<ScoredReview>)
    ensures IsScored(m, target, r)
  {
    var votes, names := CountVotes(m, target);
    r := [];
    var keys := votes.Keys;
    while keys != {}
      invariant keys <= votes.Keys
      invariant Collected(r, votes, names, votes.Keys - keys)
      decreases |keys|
    {
      ghost var some: int := Bags.Member(keys);
      var k: int :| k in keys;
      CollectedSnoc(r, votes, names, votes.Keys - keys, k);
      r := r + [ScoredReview(k, votes[k], names[k])];
      assert votes.Keys - (keys - {k}) == (votes.Keys - keys) + {k};
      keys := keys - {k};
    }
  }

  method ToReviewWithTextMessage(m: seq<RawReview>, target: int) returns (r: map<int, seq<string>>)
    ensures forall id :: id in r <==> Matching(m, target, id) > 0
    ensures forall id :: id in r ==> r[id] == Texts(m, target, id)
  {
    r := map[];
    for i := 0 to |m|
      invariant forall id :: id in r <==> Matching(m[..i], target, id) > 0
      invariant forall id :: id in r ==> r[id] == Texts(m[..i], target, id)
    {
      var msg := m[i];
      assert m[..i + 1][..i] == m[..i];
      if msg.score != target {
        continue;
      }
      if msg.gameId in r {
        r := r[msg.gameId := r[msg.gameId] + [msg.text]];
      } else {
        r := r[msg.gameId := [msg.text]];
      }
    }
    assert m[..|m|] == m;
  }

  /** The scored reviews of a batch as its joiners receive them. */
  function Events(r: seq<ScoredReview>): (evs: seq<Event>)
    ensures |evs| == |r|
  {
    seq(|r|, i requires 0 <= i < |r| => Review(r[i].gameId, r[i].votes, r[i].gameName))
  }

  function VotesFor(id: int): Event -> nat {
    (e: Event) => if e.Review? && e.gameId == id then e.votes else 0
  }

  lemma {:induction false} TotalIsSum(evs: seq<Event>, id: int)
    ensures Total(evs, id) == SumOf(VotesFor(id), evs)
  {
    if evs != [] {
      TotalIsSum(evs[..|evs| - 1], id);
    }
  }

  lemma TotalAppend(a: seq<Event>, b: seq<Event>, id: int)
    ensures Total(a + b, id) == Total(a, id) + Total(b, id)
  {
    TotalIsSum(a, id);
    TotalIsSum(b, id);
    TotalIsSum(a + b, id);
    SumAppend(VotesFor(id), a, b);
  }

  lemma SumOfOne<T>(f: T -> nat, s: seq<T>, i: nat)
    requires i < |s| && forall k :: 0 <= k < |s| && k != i ==> f(s[k]) == 0
    ensures SumOf(f, s) == f(s[i])
  {
    assert s == s[..i] + [s[i]] + s[i + 1..];
    SumAppend(f, s[..i] + [s[i]], s[i + 1..]);
    SumAppend(f, s[..i], [s[i]]);
    SumOfNothing(f, s[..i]);
    SumOfNothing(f, s[i + 1..]);
  }

  /** A game's votes in one batch come from the only entry it has. */
  lemma ScoredTotal(m: seq<RawReview>, target: int, r: seq<ScoredReview>, id: int)
    requires IsScored(m, target, r)
    ensures Total(Events(r), id) == Matching(m, target, id)
  {
    TotalIsSum(Events(r), id);
    if Matching(m, target, id) > 0 {
      assert HasVotes(r, id, Matching(m, target, id));
      var i :| 0 <= i < |r| && r[i].gameId == id && r[i].votes == Matching(m, target, id);
      SumOfOne(VotesFor(id), Events(r), i);
    } else {
      SumOfNothing(VotesFor(id), Events(r));
    }
  }

  lemma {:induction false} TextsAppend(a: seq<RawReview>, b: seq<RawReview>, target: int, id: int)
    ensures Texts(a + b, target, id) == Texts(a, target, id) + Texts(b, target, id)
    decreases |b|
  {
    if b == [] {
      assert a + b == a;
    } else {
      assert (a + b)[..|a + b| - 1] == a + b[..|b| - 1];
      TextsAppend(a, b[..|b| - 1], target, id);
    }
  }

  ghost predicate AllScored(batches: seq<seq<RawReview>>, target: int, outs: seq<seq<ScoredReview>>) {
    |outs| == |batches| && forall i :: 0 <= i < |outs| ==> IsScored(batches[i], target, outs[i])
  }

  /** Everything published for the batches, in order. */
  function AllEvents(outs: seq<seq<ScoredReview>>): seq<Event> {
    if outs == [] then [] else AllEvents(outs[..|outs| - 1]) + Events(outs[|outs| - 1])
  }

  /** Votes are conserved: however the reviews are cut into batches, and in whatever order Go walks its maps, the
      votes published for a game add up to its reviews with the wanted score. */
  lemma {:induction false} VotesAreConserved(batches: seq<seq<RawReview>>, target: int, outs: seq<seq<ScoredReview>>,
                                             id: int)
    requires AllScored(batches, target, outs)
    ensures Total(AllEvents(outs), id) == Matching(Concat(batches), target, id)
    decreases |batches|
  {
    if batches != [] {
      var k := |batches| - 1;
      VotesAreConserved(batches[..k], target, outs[..k], id);
      TotalAppend(AllEvents(outs[..k]), Events(outs[k]), id);
      ScoredTotal(batches[k], target, outs[k], id);
      TextsAppend(Concat(batches[..k]), batches[k], target, id);
    }
  }

  lemma NoVotesNoEvent(m: seq<RawReview>, target: int, r: seq<ScoredReview>, id: int)
    requires IsScored(m, target, r)
    ensures Reviewed(Events(r), id) <==> Matching(m, target, id) > 0
  {
    if Matching(m, target, id) > 0 {
      var i :| 0 <= i < |r| && r[i].gameId == id && r[i].votes == Matching(m, target, id);
      assert Events(r)[i].Review? && Events(r)[i].gameId == id;
    }
  }

  lemma ReviewedAppend(a: seq<Event>, b: seq<Event>, id: int)
    ensures Reviewed(a + b, id) <==> Reviewed(a, id) || Reviewed(b, id)
  {
    if Reviewed(a, id) {
      var i :| 0 <= i < |a| && a[i].Review? && a[i].gameId == id;
      assert (a + b)[i] == a[i];
    } else if Reviewed(b, id) {
      var i :| 0 <= i < |b| && b[i].Review? && b[i].gameId == id;
      assert (a + b)[|a| + i] == b[i];
    }
  }

  /** A game is reported at all exactly if one of its reviews has the wanted score. */
  lemma {:induction false} ReviewedIffMatching(batches: seq<seq<RawReview>>, target: int,
                                               outs: seq<seq<ScoredReview>>, id: int)
    requires AllScored(batches, target, outs)
    ensures Reviewed(AllEvents(outs), id) <==> Matching(Concat(batches), target, id) > 0
    decreases |batches|
  {
    if batches != [] {
      var k := |batches| - 1;
      ReviewedIffMatching(batches[..k], target, outs[..k], id);
      ReviewedAppend(AllEvents(outs[..k]), Events(outs[k]), id);
      NoVotesNoEvent(batches[k], target, outs[k], id);
      TextsAppend(Concat(batches[..k]), batches[k], target, id);
    }
  }
}
