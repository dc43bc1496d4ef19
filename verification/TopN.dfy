/** The heap of the n games with the most votes, under updates: internal/worker/hybrid/top_n. */
module TopN {
  import Bags
  import opened Messages
  import opened Heap
  import opened TopVotes

  predicate Less(a: ScoredReview, b: ScoredReview) {
    if a.votes != b.votes then a.votes < b.votes else a.gameId < b.gameId
  }

  lemma LessOrders()
    ensures Ordering(Less)
  {
  }

  /** The first entry of the game, or the length. */
  function IndexOf(h: seq<ScoredReview>, id: int): (i: nat)
    ensures i <= |h| && (i < |h| ==> h[i].gameId == id)
    ensures forall j :: 0 <= j < i ==> h[j].gameId != id
  {
    if |h| > 0 && h[0].gameId == id then 0
    else if |h| == 0 then 0
    else
      assert forall j :: 0 <= j < |h[1..]| ==> h[1..][j] == h[j + 1];
      1 + IndexOf(h[1..], id)
  }

  /** One scored review offered to a client's heap. */
  function Offer(n: nat, h: seq<ScoredReview>, msg: ScoredReview): seq<ScoredReview>
    requires n > 0
  {
    var i := IndexOf(h, msg.gameId);
    if i < |h| then Fixed(Less, h, i, h[i].(votes := msg.votes))
    else if |h| < n then Pushed(Less, h, msg)
    else if msg.votes > h[0].votes then Pushed(Less, Popped(Less, h), msg)
    else h
  }

  function OfferAll(n: nat, h: seq<ScoredReview>, msgs: seq<ScoredReview>): seq<ScoredReview>
    requires n > 0
  {
    if msgs == [] then h else Offer(n, OfferAll(n, h, msgs[..|msgs| - 1]), msgs[|msgs| - 1])
  }

  /** The last votes reported for each game. */
  function Latest(seen: map<int, nat>, msgs: seq<ScoredReview>): map<int, nat> {
    if msgs == [] then seen
    else Latest(seen, msgs[..|msgs| - 1])[msgs[|msgs| - 1].gameId := msgs[|msgs| - 1].votes]
  }

  predicate NotLess(seen: map<int, nat>, msg: ScoredReview) {
    msg.gameId in seen ==> seen[msg.gameId] <= msg.votes
  }

  /** No game's votes ever go down. */
  predicate NeverDecreases(seen: map<int, nat>, msgs: seq<ScoredReview>) {
    msgs == [] ||
    (NeverDecreases(seen, msgs[..|msgs| - 1]) && NotLess(Latest(seen, msgs[..|msgs| - 1]), msgs[|msgs| - 1]))
  }

  ghost predicate Holds(bag: multiset<ScoredReview>, id: int) {
    exists r :: r in bag && r.gameId == id
  }

  /** Each entry is one game, once, with its latest votes. */
  ghost predicate Current(bag: multiset<ScoredReview>, seen: map<int, nat>) {
    && (forall r :: r in bag ==> bag[r] == 1 && r.gameId in seen && seen[r.gameId] == r.votes)
    && (forall r, s :: r in bag && s in bag && r.gameId == s.gameId ==> r == s)
  }

  ghost predicate NoneAhead(bag: multiset<ScoredReview>, seen: map<int, nat>) {
    forall id {:trigger Holds(bag, id)} :: id in seen && !Holds(bag, id) ==> Below(bag, seen[id])
  }

  ghost predicate Below(bag: multiset<ScoredReview>, votes: nat) {
    forall r :: r in bag ==> votes <= r.votes
  }

  /** The heap holds n of the games seen (all of them, if fewer), each once and with its latest votes, and
      no game outside has more votes than one inside. */
  ghost predicate TopOk(n: nat, h: seq<ScoredReview>, seen: map<int, nat>) {
    && IsHeap(Less, h)
    && |h| == (if |seen| < n then |seen| else n)
    && Current(multiset(h), seen)
    && NoneAhead(multiset(h), seen)
  }

  lemma IndexIsHolds(h: seq<ScoredReview>, id: int)
    ensures IndexOf(h, id) < |h| <==> Holds(multiset(h), id)
  {
    if Holds(multiset(h), id) {
      var r :| r in multiset(h) && r.gameId == id;
      assert r in h;
    }
    if IndexOf(h, id) < |h| {
      assert h[IndexOf(h, id)] in multiset(h);
    }
  }

  /** A game in the heap gets its new votes. */
  lemma UpdateKeeps(bag: multiset<ScoredReview>, seen: map<int, nat>, old': ScoredReview, votes: nat)
    requires Current(bag, seen) && NoneAhead(bag, seen) && old' in bag && old'.votes <= votes
    ensures var bag' := bag - multiset{old'} + multiset{old'.(votes := votes)};
            Current(bag', seen[old'.gameId := votes]) && NoneAhead(bag', seen[old'.gameId := votes]) && |bag'| == |bag|
  {
    var new' := old'.(votes := votes);
    var bag' := bag - multiset{old'} + multiset{new'};
    var seen' := seen[old'.gameId := votes];
    assert new' in bag';
    forall id | Holds(bag, id)
      ensures Holds(bag', id)
    {
      var r :| r in bag && r.gameId == id;
      assert r == old' || r in bag';
    }
    forall id | id in seen' && !Holds(bag', id)
      ensures Below(bag', seen'[id])
    {
      assert Below(bag, seen[id]);
    }
  }

  /** A game not in the heap joins it while there is room. */
  lemma InsertKeeps(bag: multiset<ScoredReview>, seen: map<int, nat>, msg: ScoredReview)
    requires Current(bag, seen) && NoneAhead(bag, seen) && !Holds(bag, msg.gameId)
    requires forall id :: id in seen ==> Holds(bag, id)
    ensures var bag' := bag + multiset{msg};
            Current(bag', seen[msg.gameId := msg.votes]) && NoneAhead(bag', seen[msg.gameId := msg.votes])
  {
    var bag' := bag + multiset{msg};
    assert msg in bag';
    forall id | id in seen
      ensures Holds(bag', id)
    {
      assert Holds(bag, id);
      var r :| r in bag && r.gameId == id;
      assert r in bag';
    }
  }

  /** A game not in the heap replaces the last one, having more votes. */
  lemma ReplaceKeeps(bag: multiset<ScoredReview>, seen: map<int, nat>, least: ScoredReview, msg: ScoredReview)
    requires Current(bag, seen) && NoneAhead(bag, seen) && !Holds(bag, msg.gameId)
    requires least in bag && Below(bag, least.votes) && msg.votes > least.votes && NotLess(seen, msg)
    ensures var bag' := bag - multiset{least} + multiset{msg};
            Current(bag', seen[msg.gameId := msg.votes]) && NoneAhead(bag', seen[msg.gameId := msg.votes])
  {
    var bag' := bag - multiset{least} + multiset{msg};
    var seen' := seen[msg.gameId := msg.votes];
    assert msg in bag';
    forall id | id in seen' && !Holds(bag', id)
      ensures Below(bag', seen'[id])
    {
      if Holds(bag, id) {
        var r :| r in bag && r.gameId == id;
        assert r == least || r in bag';
      } else {
        assert Below(bag, seen[id]);
      }
    }
  }

  /** A game not in the heap stays outside, not having more votes than the last one. */
  lemma RejectKeeps(bag: multiset<ScoredReview>, seen: map<int, nat>, least: ScoredReview, msg: ScoredReview)
    requires Current(bag, seen) && NoneAhead(bag, seen) && !Holds(bag, msg.gameId)
    requires least in bag && Below(bag, least.votes) && msg.votes <= least.votes
    ensures Current(bag, seen[msg.gameId := msg.votes]) && NoneAhead(bag, seen[msg.gameId := msg.votes])
  {
  }

  ghost function Ids(h: seq<ScoredReview>): (ids: set<int>)
    ensures forall id :: id in ids <==> exists i :: 0 <= i < |h| && h[i].gameId == id
  {
    set i | 0 <= i < |h| :: h[i].gameId
  }

  /** As many entries as games seen means that every game seen is in the heap. */
  lemma {:induction false} IdCount(h: seq<ScoredReview>)
    requires forall i, j :: 0 <= i < j < |h| ==> h[i].gameId != h[j].gameId
    ensures |Ids(h)| == |h|
  {
    if |h| > 0 {
      var init := h[..|h| - 1];
      IdCount(init);
      assert Ids(h) == Ids(init) + {h[|h| - 1].gameId};
    }
  }

  lemma TwiceInBag(h: seq<ScoredReview>, i: nat, j: nat)
    requires i < j < |h|
    ensures h[i] in multiset(h) && h[j] in multiset(h)
    ensures h[i] == h[j] ==> multiset(h)[h[i]] >= 2
  {
    var a, b := h[..j], h[j..];
    assert h == a + b;
    assert h[i] == a[i] && h[j] == b[0];
    assert h[i] in multiset(a) && h[j] in multiset(b);
  }

  /** No game has two entries. */
  ghost predicate OneEntryEach(s: seq<ScoredReview>) {
    forall i, j :: 0 <= i < j < |s| ==> s[i].gameId != s[j].gameId
  }

  lemma OnceInBag(s: seq<ScoredReview>, a: nat)
    requires OneEntryEach(s) && a < |s|
    ensures multiset(s)[s[a]] == 1
  {
    assert s == s[..a] + [s[a]] + s[a + 1..];
    assert s[a] !in s[..a] && s[a] !in s[a + 1..];
  }

  /** That does not depend on the order. */
  lemma OneEntryReordered(s: seq<ScoredReview>, t: seq<ScoredReview>, i: nat, j: nat)
    requires OneEntryEach(s) && multiset(s) == multiset(t) && i < j < |t|
    ensures t[i].gameId != t[j].gameId
  {
    TwiceInBag(t, i, j);
    assert t[i] in multiset(s) && t[j] in multiset(s);
    var a :| 0 <= a < |s| && s[a] == t[i];
    var b :| 0 <= b < |s| && s[b] == t[j];
    if a == b {
      OnceInBag(s, a);
    }
  }

  lemma CurrentDistinct(h: seq<ScoredReview>, seen: map<int, nat>, i: nat, j: nat)
    requires Current(multiset(h), seen) && i < j < |h|
    ensures h[i].gameId != h[j].gameId
  {
    TwiceInBag(h, i, j);
  }

  lemma FullMeansAll(h: seq<ScoredReview>, seen: map<int, nat>)
    requires Current(multiset(h), seen) && |h| == |seen|
    ensures forall id :: id in seen ==> Holds(multiset(h), id)
  {
    forall i, j | 0 <= i < j < |h|
      ensures h[i].gameId != h[j].gameId
    {
      CurrentDistinct(h, seen, i, j);
    }
    IdCount(h);
    forall id | id in Ids(h)
      ensures id in seen.Keys && Holds(multiset(h), id)
    {
      var i :| 0 <= i < |h| && h[i].gameId == id;
      assert h[i] in multiset(h);
    }
    SameSize(Ids(h), seen.Keys);
  }

  lemma SameSize(a: set<int>, b: set<int>)
    requires a <= b && |a| == |b|
    ensures a == b
  {
    assert |b - a| == |b| - |a|;
    Bags.SomeOrNone(b - a);
    assert b == a + (b - a);
  }

  /** heap.Fix on a game already there. */
  lemma OfferUpdates(n: nat, h: seq<ScoredReview>, seen: map<int, nat>, msg: ScoredReview)
    requires n > 0 && TopOk(n, h, seen) && NotLess(seen, msg) && IndexOf(h, msg.gameId) < |h|
    ensures TopOk(n, Offer(n, h, msg), seen[msg.gameId := msg.votes])
  {
    var i := IndexOf(h, msg.gameId);
    var x := h[i].(votes := msg.votes);
    LessOrders();
    FixedOk(Less, h, i, x);
    assert h[i] in multiset(h);
    assert multiset(h[i := x]) == multiset(h) - multiset{h[i]} + multiset{x};
    UpdateKeeps(multiset(h), seen, h[i], msg.votes);
    assert seen[msg.gameId := msg.votes].Keys == seen.Keys;
    assert |seen[msg.gameId := msg.votes]| == |seen|;
  }

  lemma OutsideIsNew(n: nat, h: seq<ScoredReview>, seen: map<int, nat>, id: int)
    requires TopOk(n, h, seen) && !Holds(multiset(h), id) && |h| < n
    ensures id !in seen
    ensures forall g :: g in seen ==> Holds(multiset(h), g)
  {
    FullMeansAll(h, seen);
  }

  lemma OfferInserts(n: nat, h: seq<ScoredReview>, seen: map<int, nat>, msg: ScoredReview)
    requires n > 0 && TopOk(n, h, seen) && !Holds(multiset(h), msg.gameId) && |h| < n
    ensures TopOk(n, Pushed(Less, h, msg), seen[msg.gameId := msg.votes])
  {
    LessOrders();
    PushedOk(Less, h, msg);
    OutsideIsNew(n, h, seen, msg.gameId);
    InsertKeeps(multiset(h), seen, msg);
    PushedLength(h, msg);
    assert seen[msg.gameId := msg.votes].Keys == seen.Keys + {msg.gameId};
    assert |seen[msg.gameId := msg.votes]| == |seen| + 1;
  }

  lemma PushedLength(h: seq<ScoredReview>, msg: ScoredReview)
    ensures |Pushed(Less, h, msg)| == |h| + 1
  {
  }

  lemma LeastIsFirst(h: seq<ScoredReview>)
    requires IsHeap(Less, h) && |h| > 0
    ensures h[0] in multiset(h) && Below(multiset(h), h[0].votes)
  {
    LessOrders();
    forall r | r in multiset(h)
      ensures h[0].votes <= r.votes
    {
      assert r in h;
      var i :| 0 <= i < |h| && h[i] == r;
      RootIsLeast(Less, h, i);
    }
  }

  /** When a game is outside a full heap, its arrival does not change how many entries there should be. */
  lemma FullStaysFull(n: nat, h: seq<ScoredReview>, seen: map<int, nat>, id: int, votes: nat)
    requires |h| == (if |seen| < n then |seen| else n) && |h| >= n
    ensures |h| == (if |seen[id := votes]| < n then |seen[id := votes]| else n)
  {
    assert seen.Keys <= seen[id := votes].Keys;
    assert |seen[id := votes]| >= |seen| by {
      if id in seen {
        assert seen[id := votes].Keys == seen.Keys;
      } else {
        assert seen[id := votes].Keys == seen.Keys + {id};
      }
    }
  }

  lemma OfferReplaces(n: nat, h: seq<ScoredReview>, seen: map<int, nat>, msg: ScoredReview)
    requires n > 0 && TopOk(n, h, seen) && NotLess(seen, msg) && !Holds(multiset(h), msg.gameId)
    requires |h| >= n && msg.votes > h[0].votes
    ensures TopOk(n, Pushed(Less, Popped(Less, h), msg), seen[msg.gameId := msg.votes])
  {
    LessOrders();
    LeastIsFirst(h);
    PoppedOk(Less, h);
    PushedOk(Less, Popped(Less, h), msg);
    PushedLength(Popped(Less, h), msg);
    ReplaceKeeps(multiset(h), seen, h[0], msg);
    assert multiset(h) - multiset{h[0]} == multiset(Popped(Less, h));
    FullStaysFull(n, h, seen, msg.gameId, msg.votes);
  }

  lemma OfferRejects(n: nat, h: seq<ScoredReview>, seen: map<int, nat>, msg: ScoredReview)
    requires n > 0 && TopOk(n, h, seen) && !Holds(multiset(h), msg.gameId)
    requires |h| >= n && msg.votes <= h[0].votes
    ensures TopOk(n, h, seen[msg.gameId := msg.votes])
  {
    LeastIsFirst(h);
    RejectKeeps(multiset(h), seen, h[0], msg);
    FullStaysFull(n, h, seen, msg.gameId, msg.votes);
  }

  lemma OfferKeeps(n: nat, h: seq<ScoredReview>, seen: map<int, nat>, msg: ScoredReview)
    requires n > 0 && TopOk(n, h, seen) && NotLess(seen, msg)
    ensures TopOk(n, Offer(n, h, msg), seen[msg.gameId := msg.votes])
  {
    IndexIsHolds(h, msg.gameId);
    if IndexOf(h, msg.gameId) < |h| {
      OfferUpdates(n, h, seen, msg);
    } else if |h| < n {
      OfferInserts(n, h, seen, msg);
    } else if msg.votes > h[0].votes {
      OfferReplaces(n, h, seen, msg);
    } else {
      OfferRejects(n, h, seen, msg);
    }
  }

  /** Top-N under updates, for every stream in which no game's votes go down. */
  lemma {:induction false} OfferAllKeeps(n: nat, h: seq<ScoredReview>, seen: map<int, nat>, msgs: seq<ScoredReview>)
    requires n > 0 && TopOk(n, h, seen) && NeverDecreases(seen, msgs)
    ensures TopOk(n, OfferAll(n, h, msgs), Latest(seen, msgs))
  {
    if msgs != [] {
      var init := msgs[..|msgs| - 1];
      OfferAllKeeps(n, h, seen, init);
      OfferKeeps(n, OfferAll(n, h, init), Latest(seen, init), msgs[|msgs| - 1]);
    }
  }

  lemma NoneSeen(n: nat)
    ensures TopOk(n, [], map[])
  {
  }

  // The names.

  /** One of the messages is about this game, under this name. */
  predicate Gives(msgs: seq<ScoredReview>, id: int, name: string) {
    exists i :: 0 <= i < |msgs| && msgs[i].gameId == id && msgs[i].gameName == name
  }

  ghost predicate NamesFrom(bag: multiset<ScoredReview>, msgs: seq<ScoredReview>) {
    forall r :: r in bag ==> Gives(msgs, r.gameId, r.gameName)
  }

  lemma GivesMore(msgs: seq<ScoredReview>, id: int, name: string)
    requires msgs != []
    ensures var last := msgs[|msgs| - 1];
            Gives(msgs, id, name) <==>
            Gives(msgs[..|msgs| - 1], id, name) || (last.gameId == id && last.gameName == name)
  {
    var init := msgs[..|msgs| - 1];
    assert forall i :: 0 <= i < |init| ==> init[i] == msgs[i];
  }

  lemma OfferedName(n: nat, h: seq<ScoredReview>, msg: ScoredReview, r: ScoredReview)
    requires n > 0 && IsHeap(Less, h) && r in multiset(Offer(n, h, msg))
    ensures r == msg || exists s :: s in multiset(h) && s.gameId == r.gameId && s.gameName == r.gameName
  {
    LessOrders();
    var i := IndexOf(h, msg.gameId);
    if i < |h| {
      var x := h[i].(votes := msg.votes);
      FixedOk(Less, h, i, x);
      assert multiset(h[i := x]) == multiset(h) - multiset{h[i]} + multiset{x};
      assert r == x || r in multiset(h);
      assert h[i] in multiset(h);
    } else if |h| < n {
      PushedOk(Less, h, msg);
    } else if msg.votes > h[0].votes {
      PoppedOk(Less, h);
      PushedOk(Less, Popped(Less, h), msg);
      assert r == msg || r in multiset(Popped(Less, h));
    }
  }

  lemma OfferedStaysHeap(n: nat, h: seq<ScoredReview>, msg: ScoredReview)
    requires n > 0 && IsHeap(Less, h)
    ensures IsHeap(Less, Offer(n, h, msg))
  {
    LessOrders();
    var i := IndexOf(h, msg.gameId);
    if i < |h| {
      FixedOk(Less, h, i, h[i].(votes := msg.votes));
    } else if |h| < n {
      PushedOk(Less, h, msg);
    } else {
      PoppedOk(Less, h);
      PushedOk(Less, Popped(Less, h), msg);
    }
  }

  /** Whatever the stream, an entry of the heap carries a name that came with its game. */
  lemma {:induction false} EntriesCarryNames(n: nat, msgs: seq<ScoredReview>)
    requires n > 0
    ensures IsHeap(Less, OfferAll(n, [], msgs)) && NamesFrom(multiset(OfferAll(n, [], msgs)), msgs)
  {
    if msgs != [] {
      var init, last := msgs[..|msgs| - 1], msgs[|msgs| - 1];
      var before := OfferAll(n, [], init);
      EntriesCarryNames(n, init);
      OfferedStaysHeap(n, before, last);
      forall r | r in multiset(Offer(n, before, last))
        ensures Gives(msgs, r.gameId, r.gameName)
      {
        OfferedName(n, before, last, r);
        GivesMore(msgs, r.gameId, r.gameName);
      }
    }
  }

  // Publishing.

  /** What popping everything into a slice from the back gives. */
  function Drained(h: seq<ScoredReview>): (r: seq<ScoredReview>)
    ensures |r| == |h|
    decreases |h|
  {
    if h == [] then [] else Drained(Popped(Less, h)) + [h[0]]
  }

  /** From the most voted down, and under equal votes from the greatest game id down. */
  ghost predicate StrictlyDescending(s: seq<ScoredReview>) {
    forall i, j :: 0 <= i < j < |s| ==>
      s[i].votes > s[j].votes || (s[i].votes == s[j].votes && s[i].gameId > s[j].gameId)
  }

  ghost predicate DistinctGames(bag: multiset<ScoredReview>) {
    && (forall r :: r in bag ==> bag[r] == 1)
    && (forall r, s :: r in bag && s in bag && r.gameId == s.gameId ==> r == s)
  }

  /** Popping a heap of distinct games leaves games strictly above the popped one. */
  lemma PoppedAbove(h: seq<ScoredReview>)
    requires IsHeap(Less, h) && DistinctGames(multiset(h)) && |h| > 0
    ensures IsHeap(Less, Popped(Less, h)) && DistinctGames(multiset(Popped(Less, h)))
    ensures multiset(Popped(Less, h)) + multiset{h[0]} == multiset(h)
    ensures forall r :: r in multiset(Popped(Less, h)) ==> Less(h[0], r)
  {
    LessOrders();
    PoppedOk(Less, h);
    var bag := multiset(Popped(Less, h));
    assert h[0] in multiset(h);
    forall r | r in bag
      ensures Less(h[0], r)
    {
      assert r in multiset(h) && r in h;
    }
  }

  lemma AppendDescends(s: seq<ScoredReview>, last: ScoredReview)
    requires StrictlyDescending(s) && forall r :: r in multiset(s) ==> Less(last, r)
    ensures StrictlyDescending(s + [last])
  {
    forall i | 0 <= i < |s|
      ensures Less(last, s[i])
    {
      assert s[i] in multiset(s);
    }
  }

  /** The published list holds the heap's entries from the most voted down, ties broken by game id. */
  lemma {:induction false} DrainedDescends(h: seq<ScoredReview>)
    requires IsHeap(Less, h) && DistinctGames(multiset(h))
    ensures multiset(Drained(h)) == multiset(h) && StrictlyDescending(Drained(h))
    decreases |h|
  {
    if |h| > 0 {
      PoppedAbove(h);
      DrainedDescends(Popped(Less, h));
      AppendDescends(Drained(Popped(Less, h)), h[0]);
    }
  }

  ghost predicate Reported(h: seq<ScoredReview>, seen: map<int, nat>) {
    && OneEntryEach(h)
    && (forall i :: 0 <= i < |h| ==> h[i].gameId in seen && seen[h[i].gameId] == h[i].votes)
  }

  /** seen without the games of h. */
  ghost function Others(h: seq<ScoredReview>, seen: map<int, nat>): (rest: map<int, nat>)
    requires Reported(h, seen)
    ensures forall id :: id in rest <==> id in seen && forall i :: 0 <= i < |h| ==> h[i].gameId != id
    ensures forall id :: id in rest ==> rest[id] == seen[id]
  {
    if h == [] then seen
    else
      var k := |h| - 1;
      Without(Others(h[..k], seen), h[k].gameId)
  }

  lemma VotesOfSnoc(h: seq<ScoredReview>, last: ScoredReview)
    ensures multiset(Messages.VotesOf(h + [last])) == multiset(Messages.VotesOf(h)) + multiset{last.votes}
  {
    assert Messages.VotesOf(h + [last]) == Messages.VotesOf(h) + [last.votes];
  }

  lemma OthersSnoc(h: seq<ScoredReview>, last: ScoredReview, seen: map<int, nat>)
    requires Reported(h + [last], seen)
    ensures Reported(h, seen) && last.gameId in Others(h, seen) && Others(h, seen)[last.gameId] == last.votes
    ensures Others(h + [last], seen) == Without(Others(h, seen), last.gameId)
  {
    var s := h + [last];
    assert s[..|s| - 1] == h && s[|s| - 1] == last;
    assert forall i :: 0 <= i < |h| ==> s[i] == h[i];
  }

  /** Taking the heap's games out of what was seen leaves the rest of the votes. */
  lemma {:induction false} VotesSplit(h: seq<ScoredReview>, seen: map<int, nat>)
    requires Reported(h, seen)
    ensures Votes(seen) == multiset(Messages.VotesOf(h)) + Votes(Others(h, seen))
  {
    if |h| > 0 {
      var init, last := h[..|h| - 1], h[|h| - 1];
      assert h == init + [last];
      OthersSnoc(init, last, seen);
      VotesSplit(init, seen);
      VotesTake(Others(init, seen), last.gameId);
      VotesOfSnoc(init, last);
      BagAssoc(multiset(Messages.VotesOf(init)), multiset{last.votes}, Votes(Others(h, seen)));
    }
  }

  lemma TopIsReported(n: nat, h: seq<ScoredReview>, seen: map<int, nat>)
    requires TopOk(n, h, seen)
    ensures Reported(h, seen)
  {
    forall i, j | 0 <= i < j < |h|
      ensures h[i].gameId != h[j].gameId
    {
      CurrentDistinct(h, seen, i, j);
    }
    forall i | 0 <= i < |h|
      ensures h[i].gameId in seen && seen[h[i].gameId] == h[i].votes
    {
      assert h[i] in multiset(h);
    }
  }

  lemma RestIsBelow(n: nat, h: seq<ScoredReview>, seen: map<int, nat>, x: int, y: int)
    requires TopOk(n, h, seen) && Reported(h, seen)
    requires x in multiset(Messages.VotesOf(h)) && y in Votes(Others(h, seen))
    ensures y <= x
  {
    VotesSize(Others(h, seen));
    var id :| id in Others(h, seen) && Others(h, seen)[id] == y;
    assert x in Messages.VotesOf(h);
    var i :| 0 <= i < |h| && Messages.VotesOf(h)[i] == x;
    assert h[i] in multiset(h);
    assert !Holds(multiset(h), id) by {
      IndexIsHolds(h, id);
    }
    assert Below(multiset(h), seen[id]);
  }

  /** The votes in the heap are the n largest of the latest votes of all games seen. */
  lemma TopIsTopVotes(n: nat, h: seq<ScoredReview>, seen: map<int, nat>)
    requires TopOk(n, h, seen)
    ensures IsTop(n, multiset(Messages.VotesOf(h)), Votes(seen))
  {
    TopIsReported(n, h, seen);
    VotesSplit(h, seen);
    VotesSize(seen);
    var top := multiset(Messages.VotesOf(h));
    assert Votes(seen) - top == Votes(Others(h, seen));
    forall x, y | x in top && y in Votes(Others(h, seen))
      ensures y <= x
    {
      RestIsBelow(n, h, seen, x, y);
    }
  }
}
