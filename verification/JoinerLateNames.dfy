/** Names that arrive late at the joiner of query 4: exactly when it publishes a game more than once. */
module LateNames {
  import opened Joiner
  import opened CounterJoiner

  predicate NameOf(ev: Event, id: int) {
    ev.Name? && ev.gameId == id
  }

  /** The event with which the game's name and enough counted votes are there. */
  predicate PublishedFirst(target: nat, evs: seq<Event>, id: int, i: nat) {
    i < |evs| && !Reached(target, evs[..i], id) && Reached(target, evs[..i + 1], id)
  }

  /** The first name for the game after event i. */
  predicate NextName(evs: seq<Event>, id: int, i: nat, j: nat) {
    i < j < |evs| && NameOf(evs[j], id) && forall m :: i < m < j ==> !NameOf(evs[m], id)
  }

  /** The game was published on a name, or the votes it had before, and those behind the late name, are enough again. */
  predicate EnoughAgain(target: nat, evs: seq<Event>, id: int, i: nat, j: nat)
    requires i < j < |evs|
  {
    evs[i].Name? || Counted(evs[..i], id) + Total(evs[j + 1..], id) >= target
  }

  ghost predicate PublishedAgain(target: nat, evs: seq<Event>, id: int) {
    exists i, j {:trigger PublishedFirst(target, evs, id, i), NextName(evs, id, i, j)} ::
      PublishedFirst(target, evs, id, i) && NextName(evs, id, i, j) && EnoughAgain(target, evs, id, i, j)
  }

  lemma Taken(evs: seq<Event>, n: nat)
    requires n < |evs|
    ensures evs[..n + 1] == evs[..n] + [evs[n]] && evs[..n + 1][..n] == evs[..n] && evs[..n + 1][n] == evs[n]
  {
  }

  lemma {:induction false} ReachedLater(target: nat, evs: seq<Event>, id: int, m: nat, n: nat)
    requires m <= n <= |evs| && Reached(target, evs[..m], id)
    ensures Reached(target, evs[..n], id)
  {
    if m < n {
      Taken(evs, n - 1);
      ReachedLater(target, evs, id, m, n - 1);
      ReachedStays(target, evs[..n], id);
    }
  }

  lemma {:induction false} SomeFirst(target: nat, evs: seq<Event>, id: int, n: nat) returns (i: nat)
    requires n <= |evs| && Reached(target, evs[..n], id)
    ensures i < n && PublishedFirst(target, evs, id, i)
  {
    assert n > 0 by {
      assert evs[..0] == [];
    }
    if Reached(target, evs[..n - 1], id) {
      i := SomeFirst(target, evs, id, n - 1);
    } else {
      i := n - 1;
    }
  }

  lemma {:induction false} SomeNext(evs: seq<Event>, id: int, i: nat, m: nat) returns (j: nat)
    requires i < m < |evs| && NameOf(evs[m], id)
    ensures j <= m && NextName(evs, id, i, j)
    decreases m
  {
    if n :| i < n < m && NameOf(evs[n], id) {
      j := SomeNext(evs, id, i, n);
    } else {
      j := m;
    }
  }

  /** Up to the late name the run is one that the theorem about timely names is about. */
  lemma TimelyUntil(target: nat, evs: seq<Event>, id: int, i: nat, n: nat)
    requires NamesNonempty(evs) && ReviewsUnnamed(evs) && PublishedFirst(target, evs, id, i) && n <= |evs|
    requires forall m :: i < m < n ==> !NameOf(evs[m], id)
    ensures Sane(target, evs[..n], id)
  {
    forall m | 0 <= m < n && NameOf(evs[..n][m], id)
      ensures !Reached(target, evs[..n][..m], id)
    {
      assert evs[..n][..m] == evs[..m] && evs[..n][m] == evs[m];
      if Reached(target, evs[..m], id) {
        ReachedLater(target, evs, id, m, i);
      }
    }
  }

  ghost predicate Holds(target: nat, evs: seq<Event>, id: int, votes: nat, sent: bool) {
    var known := Run(target, evs);
    known.Some? && id in known.value && known.value[id].votes == votes && known.value[id].sent == sent
  }

  lemma PublishedStays(target: nat, evs: seq<Event>, ev: Event, id: int, votes: nat)
    requires Holds(target, evs, id, votes, true) && !NameOf(ev, id)
    ensures Holds(target, evs + [ev], id, votes, true)
  {
    RunNext(target, evs, ev, id);
  }

  /** A published game keeps the votes it had before it was published, whatever reviews follow. */
  lemma {:induction false} VotesKept(target: nat, evs: seq<Event>, id: int, i: nat, n: nat)
    requires target > 0 && NamesNonempty(evs) && ReviewsUnnamed(evs) && PublishedFirst(target, evs, id, i)
    requires i < n <= |evs| && forall m :: i < m < n ==> !NameOf(evs[m], id)
    ensures Holds(target, evs[..n], id, Counted(evs[..i], id), true)
  {
    if n == i + 1 {
      FirstPublication(target, evs, id, i);
    } else {
      VotesKept(target, evs, id, i, n - 1);
      Taken(evs, n - 1);
      PublishedStays(target, evs[..n - 1], evs[n - 1], id, Counted(evs[..i], id));
    }
  }

  lemma FirstPublication(target: nat, evs: seq<Event>, id: int, i: nat)
    requires target > 0 && NamesNonempty(evs) && ReviewsUnnamed(evs) && PublishedFirst(target, evs, id, i)
    ensures Holds(target, evs[..i + 1], id, Counted(evs[..i], id), true)
    ensures evs[i].Name? <==> Counted(evs[..i], id) >= target
  {
    var before, after := evs[..i], evs[..i + 1];
    Taken(evs, i);
    TimelyUntil(target, evs, id, i, i);
    TimelyUntil(target, evs, id, i, i + 1);
    RunTracks(target, before, id);
    RunTracks(target, after, id);
    ReachedStays(target, after, id);
    Grows(after, id);
    MentionedMeans(before, id);
    if !Mentioned(before, id) {
      UnmentionedCountsNothing(before, id);
    }
    RunNext(target, before, evs[i], id);
  }

  /** A game that is open and has a name: votes add up until they reach the target, and then it is published. */
  ghost predicate Counting(target: nat, evs: seq<Event>, id: int, votes: nat, emitted: nat) {
    if votes < target then
      Holds(target, evs, id, votes, false) && Run(target, evs).value[id].gameName != "" &&
      |EmittedFor(target, evs, id)| == emitted
    else |EmittedFor(target, evs, id)| > emitted
  }

  /** The late name publishes the game at once, or opens it again with the votes it had. */
  lemma LateName(target: nat, evs: seq<Event>, id: int, i: nat, j: nat)
    requires target > 0 && NamesNonempty(evs) && ReviewsUnnamed(evs)
    requires PublishedFirst(target, evs, id, i) && NextName(evs, id, i, j)
    ensures Counting(target, evs[..j + 1], id, Counted(evs[..i], id), 1)
  {
    TimelyUntil(target, evs, id, i, j);
    VotesKept(target, evs, id, i, j);
    EmittedOnceAtTarget(target, evs[..j], id);
    ReachedLater(target, evs, id, i + 1, j);
    Taken(evs, j);
    RunNext(target, evs[..j], evs[j], id);
  }

  lemma CountingNext(target: nat, evs: seq<Event>, ev: Event, id: int, votes: nat, emitted: nat)
    requires Counting(target, evs, id, votes, emitted) && (ev.Name? ==> ev.gameName != "")
    ensures Counting(target, evs + [ev], id, votes + (if ev.Review? && ev.gameId == id then ev.votes else 0), emitted)
  {
    RunNext(target, evs, ev, id);
    assert (evs + [ev])[..|evs|] == evs;
  }

  lemma {:induction false} CountsOn(target: nat, evs: seq<Event>, more: seq<Event>, id: int, votes: nat, emitted: nat)
    requires NamesNonempty(more) && Counting(target, evs, id, votes, emitted)
    ensures Counting(target, evs + more, id, votes + Total(more, id), emitted)
    decreases |more|
  {
    if more == [] {
      assert evs + more == evs;
    } else {
      var init, last := more[..|more| - 1], more[|more| - 1];
      assert NamesNonempty(init);
      CountsOn(target, evs, init, id, votes, emitted);
      CountingNext(target, evs + init, last, id, votes + Total(init, id), emitted);
      assert evs + more == evs + init + [last];
    }
  }

  /** With a late name, the votes decide. */
  lemma LateNameDecides(target: nat, evs: seq<Event>, id: int, i: nat, j: nat)
    requires target > 0 && NamesNonempty(evs) && ReviewsUnnamed(evs)
    requires PublishedFirst(target, evs, id, i) && NextName(evs, id, i, j)
    ensures |EmittedFor(target, evs, id)| > 1 <==> EnoughAgain(target, evs, id, i, j)
  {
    FirstPublication(target, evs, id, i);
    LateName(target, evs, id, i, j);
    var behind := evs[j + 1..];
    assert NamesNonempty(behind) && evs == evs[..j + 1] + behind;
    CountsOn(target, evs[..j + 1], behind, id, Counted(evs[..i], id), 1);
  }

  /** The exact condition, for every run of non-empty names and reviews without names: a game is published more than
      once if and only if a name for it comes after the event that had it published first, and either that event was a
      name, or the votes counted before that event and those that come behind the late name reach the target together.
      */
  lemma PublishedAgainIff(target: nat, evs: seq<Event>, id: int)
    requires target > 0 && NamesNonempty(evs) && ReviewsUnnamed(evs)
    ensures |EmittedFor(target, evs, id)| > 1 <==> PublishedAgain(target, evs, id)
  {
    if i, j :| PublishedFirst(target, evs, id, i) && NextName(evs, id, i, j) && EnoughAgain(target, evs, id, i, j) {
      LateNameDecides(target, evs, id, i, j);
    }
    if |EmittedFor(target, evs, id)| > 1 {
      if NoLateName(target, evs, id) {
        EmittedOnceAtTarget(target, evs, id);
      } else {
        var m :| 0 <= m < |evs| && NameOf(evs[m], id) && Reached(target, evs[..m], id);
        var i := SomeFirst(target, evs, id, m);
        var j := SomeNext(evs, id, i, m);
        LateNameDecides(target, evs, id, i, j);
      }
    }
  }
}
