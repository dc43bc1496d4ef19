/** The joiner of query 3 on the crash network: behind any crashes, consumers get the running totals of what it has
    logged. */
module CrashedJoiner {
  import opened Protocol
  import opened Joiner
  import opened JoinerNodes
  import opened JoinerRuns
  import opened CrashNetwork
  import opened Streams
  import opened ExactlyOnce
  import TopJoiner
  import TopN

  function Top(key: string): CrashNetwork.Node<NodeState, Body> {
    AsNode(TopJoiner.TopKind(), key)
  }

  /** The messages that a log accounts for. */
  function MessagesOf(log: seq<Record<Body>>): (r: seq<Body>)
    ensures |r| == |log|
  {
    seq(|log|, i requires 0 <= i < |log| => log[i].delivery.body)
  }

  function OriginsOf(msgs: seq<Body>, client: string): seq<nat> {
    if msgs == [] then []
    else
      var before, last := OriginsOf(msgs[..|msgs| - 1], client), msgs[|msgs| - 1];
      if last.EofIn? && last.client == client then before + [last.origin] else before
  }

  /** The client's two EOFs have not both come. */
  predicate StillOpen(msgs: seq<Body>, client: string) {
    !Both(OriginsOf(msgs, client))
  }

  /** Everything that a joiner has published, for any client. */
  function AllSaid(kind: Kind, msgs: seq<Body>): seq<Body> {
    if msgs == [] then []
    else
      var init := msgs[..|msgs| - 1];
      AllSaid(kind, init) + Processed(kind, LiveState(kind, init), msgs[|msgs| - 1], false).1
  }

  /** All that the joiner publishes goes out under its key. */
  lemma {:induction false} AllUnderKey(key: string, bodies: seq<Body>)
    ensures BodiesTo(key, seq(|bodies|, i requires 0 <= i < |bodies| => Out(key, bodies[i]))) == bodies
  {
    if bodies != [] {
      var init, outs := bodies[..|bodies| - 1], seq(|bodies|, i requires 0 <= i < |bodies| => Out(key, bodies[i]));
      AllUnderKey(key, init);
      assert outs[..|outs| - 1] == seq(|init|, i requires 0 <= i < |init| => Out(key, init[i]));
      assert bodies == init + [bodies[|bodies| - 1]];
    }
  }

  /** While a client is open, its messages since the last opening are all its messages. */
  lemma {:induction false} OpenFromTheStart(msgs: seq<Body>, client: string)
    requires StillOpen(msgs, client)
    ensures OriginsSince(msgs, client) == OriginsOf(msgs, client) && !Completes(msgs, client)
  {
    if msgs != [] {
      var init := msgs[..|msgs| - 1];
      assert StillOpen(init, client);
      OpenFromTheStart(init, client);
    }
  }

  /** Of what is answered to one message, a client gets only what is answered to its own. */
  lemma OthersTotals(st: NodeState, msg: Body, client: string)
    requires EventOf(msg, client).None?
    ensures TotalsOf(Processed(TopJoiner.TopKind(), st, msg, false).1, client) == []
  {
    OneTotal(Processed(TopJoiner.TopKind(), st, msg, false).1, client);
  }

  lemma {:induction false} OpenTotals(msgs: seq<Body>, client: string)
    requires StillOpen(msgs, client)
    ensures TotalsOf(AllSaid(TopJoiner.TopKind(), msgs), client) ==
            TotalsOf(Said(TopJoiner.TopKind(), msgs, client), client)
  {
    if msgs != [] {
      var init, last, kind := msgs[..|msgs| - 1], msgs[|msgs| - 1], TopJoiner.TopKind();
      var outs := Processed(kind, LiveState(kind, init), last, false).1;
      assert StillOpen(init, client);
      OpenFromTheStart(msgs, client);
      OpenTotals(init, client);
      TotalsConcat(AllSaid(kind, init), outs, client);
      if EventOf(last, client).Some? {
        TotalsConcat(Said(kind, init, client), outs, client);
      } else {
        OthersTotals(LiveState(kind, init), last, client);
      }
    }
  }

  /** As a node of the network the joiner publishes what it answers to the messages in its log. */
  lemma {:induction false} LoggedSaid(log: seq<Record<Body>>, key: string)
    ensures Replay(Top(key), log).node == LiveState(TopJoiner.TopKind(), MessagesOf(log))
    ensures BodiesTo(key, Outputs(Top(key), log)) == AllSaid(TopJoiner.TopKind(), MessagesOf(log))
  {
    if log != [] {
      var init, e, kind := log[..|log| - 1], log[|log| - 1].delivery, TopJoiner.TopKind();
      LoggedSaid(init, key);
      assert MessagesOf(log)[..|log| - 1] == MessagesOf(init);
      AllUnderKey(key, Processed(kind, LiveState(kind, MessagesOf(init)), e.body, false).1);
      BodiesConcat(key, Outputs(Top(key), init), Top(key).process(Replay(Top(key), init).node, e).1);
    }
  }

  lemma LoggedTotals(log: seq<Record<Body>>, key: string, client: string)
    requires StillOpen(MessagesOf(log), client)
    ensures TotalsOf(BodiesTo(key, Outputs(Top(key), log)), client) ==
            TopJoiner.Emitted(EventsSince(MessagesOf(log), client))
  {
    LoggedSaid(log, key);
    OpenTotals(MessagesOf(log), client);
    TopJoinerRun(MessagesOf(log), client, REVIEW_ORIGIN);
  }

  /** The joiner of query 3 behind crashes. On every schedule of any network on which it logs harmlessly, and between
      its deliveries, its consumer has received or is still to receive, of a client that is not through, exactly the
      totals that the reviews and names in its log call for: for each game they never decrease, and the last one is
      the sum of all votes logged, once a name and a review are. */
  lemma TotalsBehindCrashes(cfg: Config<NodeState, Body>, acts: seq<Action<Body>>, p: nat, key: string,
                            client: string, id: int)
    requires Valid(cfg) && p < |cfg.nodes| && cfg.nodes[p] == Top(key) && key in cfg.bindings[p]
    requires Harmless(cfg, acts, p, key) && Exec(cfg, acts)[p].partial.None?
    requires StillOpen(MessagesOf(Exec(cfg, acts)[p].log), client)
    ensures var ws, port := Exec(cfg, acts), cfg.bindings[p][key];
            var evs, bodies := EventsSince(MessagesOf(ws[p].log), client), BodiesTo(key, Outputs(Top(key), ws[p].log));
            && port.worker < |ws| && port.queue < |ws[port.worker].queues|
            && Visible(cfg.nodes[port.worker], ws[port.worker], port.queue, cfg.uuid[p]) == Stream(cfg.uuid[p], bodies)
            && TotalsOf(bodies, client) == TopJoiner.Emitted(evs)
            && (NamesNonempty(evs) ==>
                  && TopN.NeverDecreases(map[], TotalsOf(bodies, client))
                  && TopJoiner.Reports(evs, TopN.Latest(map[], TotalsOf(bodies, client)), id))
  {
    var log := Exec(cfg, acts)[p].log;
    AcceptedExactlyOnce(cfg, acts, p, key);
    LoggedTotals(log, key, client);
    if NamesNonempty(EventsSince(MessagesOf(log), client)) {
      TopJoiner.TotalsAreRunningSums(EventsSince(MessagesOf(log), client), id);
    }
  }
}
