/** What the gateway's sender and the client's loop send, against the steps of the ingest network. */
module IngestSends {
  import opened Protocol
  import opened Dedup
  import opened Ingest
  import opened IngestEnds

  // The gateway.

  function WorkSteps(n: nat): seq<Action> {
    if n == 0 then [] else WorkSteps(n - 1) + [Work]
  }

  /** The state after n steps of work. */
  function WorkedOn(su: Setup, st: State, n: nat): State {
    if n == 0 then st else Worked(su, WorkedOn(su, st, n - 1))
  }

  lemma {:induction false} WorkedByExec(su: Setup, st: State, n: nat)
    ensures Exec(su, st, WorkSteps(n)) == WorkedOn(su, st, n)
  {
    if n > 0 {
      WorkedByExec(su, st, n - 1);
      ExecOne(su, st, WorkSteps(n - 1), Work);
    }
  }

  lemma {:induction false} WorkInTwo(su: Setup, st: State, a: nat, b: nat)
    ensures WorkedOn(su, st, a + b) == WorkedOn(su, WorkedOn(su, st, a), b)
  {
    if b > 0 {
      WorkInTwo(su, st, a, b - 1);
      assert WorkedOn(su, st, a + b) == Worked(su, WorkedOn(su, st, a + b - 1));
    }
  }

  /** What one message of the sender does: destination d is the queue that the route of the id has in place d, messages
      carry the client's source, and an acknowledgement goes to the client. */
  function Effect(su: Setup, st: State, sent: Sent): State {
    match sent
    case Published(d, c, id, body) =>
      if d < |su.route(id)|
      then st.(queues := Ingest.Publish(st.queues, su.route(id)[d], Envelope(SourceOf(c), id, body))) else st
    case Acked(c) => if SourceOf(c) == su.source then st.(acks := st.acks + 1) else st
  }

  function Effects(su: Setup, st: State, sents: seq<Sent>): State {
    if sents == [] then st else Effect(su, Effects(su, st, sents[..|sents| - 1]), sents[|sents| - 1])
  }

  lemma EffectsSnoc(su: Setup, st: State, sents: seq<Sent>, sent: Sent)
    ensures Effects(su, st, sents + [sent]) == Effect(su, Effects(su, st, sents), sent)
  {
    assert (sents + [sent])[..|sents|] == sents;
  }

  lemma {:induction false} EffectsInTwo(su: Setup, st: State, a: seq<Sent>, b: seq<Sent>)
    ensures Effects(su, st, a + b) == Effects(su, Effects(su, st, a), b)
    decreases |b|
  {
    if b == [] {
      assert a + b == a;
    } else {
      assert (a + b)[..|a + b| - 1] == a + b[..|b| - 1] && (a + b)[|a + b| - 1] == b[|b| - 1];
      EffectsInTwo(su, st, a, b[..|b| - 1]);
    }
  }

  /** The effects touch queues and acknowledgements only. */
  lemma {:induction false} EffectsElsewhere(su: Setup, st: State, sents: seq<Sent>)
    ensures var st' := Effects(su, st, sents);
            st' == st.(queues := st'.queues, acks := st'.acks)
  {
    if sents != [] {
      EffectsElsewhere(su, st, sents[..|sents| - 1]);
    }
  }

  /** The first n destinations have their copy of the job's message. */
  lemma {:induction false} CopiesOut(su: Setup, st: State, dsts: nat, clientId: string, job: Job, n: nat)
    requires SourceOf(clientId) == su.source
    requires st.gateway.job == Some(job) && job.todo == su.route(job.id) && |job.todo| == dsts && n <= dsts
    ensures WorkedOn(su, st, n) ==
            Effects(su, st, ToAll(n, clientId, job.id, job.body)).(
              gateway := st.gateway.(job := Some(job.(todo := job.todo[n..]))))
    ensures ToAll(n, clientId, job.id, job.body) == ToAll(dsts, clientId, job.id, job.body)[..n]
  {
    var route := su.route(job.id);
    if n > 0 {
      var before := ToAll(n - 1, clientId, job.id, job.body);
      CopiesOut(su, st, dsts, clientId, job, n - 1);
      EffectsElsewhere(su, st, before);
      assert ToAll(n, clientId, job.id, job.body) == before + [Published(n - 1, clientId, job.id, job.body)];
      EffectsSnoc(su, st, before, Published(n - 1, clientId, job.id, job.body));
      assert route[n - 1..][0] == route[n - 1] && route[n - 1..][1..] == route[n..];
    } else {
      assert route[0..] == route && ToAll(0, clientId, job.id, job.body) == [];
    }
  }

  /** All copies are out, and the acknowledgement behind them. */
  lemma CopiesThenAck(su: Setup, st: State, dsts: nat, clientId: string, job: Job)
    requires SourceOf(clientId) == su.source
    requires st.gateway.job == Some(job) && job.todo == su.route(job.id) && |job.todo| == dsts && job.body.Batch?
    ensures WorkedOn(su, st, dsts + 1) ==
            Effects(su, st, ToAll(dsts, clientId, job.id, job.body) + [Acked(clientId)]).(
              gateway := st.gateway.(
                job := if job.last then Some(Job(job.id + 1, Eof, su.route(job.id + 1), false)) else None))
  {
    var copies := ToAll(dsts, clientId, job.id, job.body);
    CopiesOut(su, st, dsts, clientId, job, dsts);
    EffectsElsewhere(su, st, copies);
    EffectsSnoc(su, st, copies, Acked(clientId));
    assert job.todo[dsts..] == [];
    AckWorked(su, WorkedOn(su, st, dsts), job.(todo := []));
  }

  /** Once a batch is in all its queues, work is to acknowledge it. */
  lemma AckWorked(su: Setup, st: State, job: Job)
    requires st.gateway.job == Some(job) && job.todo == [] && job.body.Batch?
    ensures Worked(su, st) ==
            st.(acks := st.acks + 1,
                gateway := st.gateway.(
                  job := if job.last then Some(Job(job.id + 1, Eof, su.route(job.id + 1), false)) else None))
  {
  }

  /** How many steps a job takes, the last of an EOF being to put it away. */
  function JobSteps(dsts: nat, job: Job): nat {
    dsts + 1 + if job.last then dsts + 1 else 0
  }

  lemma WorkedOutput(su: Setup, st: State, dsts: nat, clientId: string, job: Job)
    requires SourceOf(clientId) == su.source
    requires st.gateway.job == Some(job) && job.todo == su.route(job.id) && job.body.Batch?
    requires |su.route(job.id)| == dsts && |su.route(job.id + 1)| == dsts
    ensures WorkedOn(su, st, JobSteps(dsts, job)) ==
            Effects(su, st, JobOutput(dsts, clientId, job)).(gateway := st.gateway.(job := None))
  {
    CopiesThenAck(su, st, dsts, clientId, job);
    if job.last {
      var first := ToAll(dsts, clientId, job.id, job.body) + [Acked(clientId)];
      EofIsWork(su, st, WorkedOn(su, st, dsts + 1), first, dsts, clientId, job);
      OutputLast(dsts, clientId, job);
    } else {
      OutputNotLast(dsts, clientId, job);
    }
  }

  /** The sender's output for a job is what the network's gateway does until no job is left: the same copies in the same
      queues under the same ids, and the same acknowledgement. */
  lemma OutputIsWork(su: Setup, st: State, dsts: nat, clientId: string, job: Job)
    requires SourceOf(clientId) == su.source
    requires st.gateway.job == Some(job) && job.todo == su.route(job.id) && job.body.Batch?
    requires |su.route(job.id)| == dsts && |su.route(job.id + 1)| == dsts
    ensures Exec(su, st, WorkSteps(JobSteps(dsts, job))) ==
            Effects(su, st, JobOutput(dsts, clientId, job)).(gateway := st.gateway.(job := None))
  {
    WorkedByExec(su, st, JobSteps(dsts, job));
    WorkedOutput(su, st, dsts, clientId, job);
  }

  lemma OutputLast(dsts: nat, clientId: string, job: Job)
    requires job.last
    ensures JobSteps(dsts, job) == (dsts + 1) + (dsts + 1)
    ensures JobOutput(dsts, clientId, job) ==
            ToAll(dsts, clientId, job.id, job.body) + [Acked(clientId)] + ToAll(dsts, clientId, job.id + 1, Eof)
  {
  }

  lemma OutputNotLast(dsts: nat, clientId: string, job: Job)
    requires !job.last
    ensures JobSteps(dsts, job) == dsts + 1
    ensures JobOutput(dsts, clientId, job) == ToAll(dsts, clientId, job.id, job.body) + [Acked(clientId)]
  {
  }

  /** Two states with the same queues and acknowledgements stay so. */
  lemma {:induction false} EffectsAlike(su: Setup, a: State, b: State, sents: seq<Sent>)
    requires a.queues == b.queues && a.acks == b.acks
    ensures Effects(su, a, sents).queues == Effects(su, b, sents).queues
    ensures Effects(su, a, sents).acks == Effects(su, b, sents).acks
  {
    if sents != [] {
      EffectsAlike(su, a, b, sents[..|sents| - 1]);
    }
  }

  lemma EofIsWork(su: Setup, st: State, acked: State, first: seq<Sent>, dsts: nat, clientId: string, job: Job)
    requires SourceOf(clientId) == su.source
    requires job.last && |su.route(job.id + 1)| == dsts
    requires first == ToAll(dsts, clientId, job.id, job.body) + [Acked(clientId)]
    requires acked == WorkedOn(su, st, dsts + 1)
    requires acked == Effects(su, st, first).(
               gateway := st.gateway.(job := Some(Job(job.id + 1, Eof, su.route(job.id + 1), false))))
    ensures WorkedOn(su, st, (dsts + 1) + (dsts + 1)) ==
            Effects(su, st, first + ToAll(dsts, clientId, job.id + 1, Eof)).(gateway := st.gateway.(job := None))
  {
    var copies, mid := ToAll(dsts, clientId, job.id + 1, Eof), Effects(su, st, first);
    var eof: Option<Job> := Some(Job(job.id + 1, Eof, su.route(job.id + 1), false));
    WorkInTwo(su, st, dsts + 1, dsts + 1);
    EofOut(su, acked, dsts, clientId, job.id + 1);
    EffectsOn(su, acked, mid, copies);
    EffectsInTwo(su, st, first, copies);
    PutAway(Effects(su, acked, copies), Effects(su, mid, copies), st.gateway, eof);
    assert WorkedOn(su, st, (dsts + 1) + (dsts + 1)) == WorkedOn(su, acked, dsts + 1);
    assert acked.gateway == Effects(su, acked, copies).gateway;
  }

  lemma PutAway(a: State, b: State, g: Gateway, job: Option<Job>)
    requires a == b.(gateway := g.(job := job))
    ensures a.(gateway := a.gateway.(job := None)) == b.(gateway := g.(job := None))
  {
  }

  /** The copies of the EOF are out, and the job is put away. */
  lemma EofOut(su: Setup, st: State, dsts: nat, clientId: string, id: nat)
    requires SourceOf(clientId) == su.source
    requires st.gateway.job == Some(Job(id, Eof, su.route(id), false)) && |su.route(id)| == dsts
    ensures WorkedOn(su, st, dsts + 1) ==
            Effects(su, st, ToAll(dsts, clientId, id, Eof)).(gateway := st.gateway.(job := None))
  {
    var eof := Job(id, Eof, su.route(id), false);
    CopiesOut(su, st, dsts, clientId, eof, dsts);
    assert WorkedOn(su, st, dsts + 1) == Worked(su, WorkedOn(su, st, dsts));
    EffectsElsewhere(su, st, ToAll(dsts, clientId, id, Eof));
    assert eof.todo[dsts..] == [];
  }

  /** The effects do not depend on the gateway. */
  lemma EffectsOn(su: Setup, a: State, b: State, sents: seq<Sent>)
    requires a == b.(gateway := a.gateway)
    ensures Effects(su, a, sents) == Effects(su, b, sents).(gateway := a.gateway)
  {
    EffectsAlike(su, a, b, sents);
    EffectsElsewhere(su, a, sents);
    EffectsElsewhere(su, b, sents);
  }

  /** The order of the output: the copies of the batch, then the acknowledgement, then the copies of the EOF. */
  lemma OutputInOrder(dsts: nat, clientId: string, job: Job)
    ensures var out := JobOutput(dsts, clientId, job);
            && |out| == dsts + 1 + (if job.last then dsts else 0) && out[dsts] == Acked(clientId)
            && (forall d :: 0 <= d < dsts ==> out[d] == Published(d, clientId, job.id, job.body))
            && (forall i :: dsts < i < |out| ==> out[i] == Published(i - dsts - 1, clientId, job.id + 1, Eof))
  {
  }

  // At one queue.

  /** The copies that go to queue q. */
  function CopiesFor(su: Setup, q: nat, sents: seq<Sent>): seq<Envelope<Body>> {
    if sents == [] then []
    else
      var before, last := CopiesFor(su, q, sents[..|sents| - 1]), sents[|sents| - 1];
      if last.Published? && last.dst < |su.route(last.id)| && su.route(last.id)[last.dst] == q
      then before + [Envelope(SourceOf(last.clientId), last.id, last.body)] else before
  }

  lemma {:induction false} CopiesJoin(su: Setup, st: State, q: nat, sents: seq<Sent>)
    requires q < |st.queues|
    ensures |Effects(su, st, sents).queues| == |st.queues|
    ensures Effects(su, st, sents).queues[q] == st.queues[q] + CopiesFor(su, q, sents)
  {
    if sents != [] {
      CopiesJoin(su, st, q, sents[..|sents| - 1]);
    }
  }

  lemma {:induction false} CopiesInTwo(su: Setup, q: nat, a: seq<Sent>, b: seq<Sent>)
    ensures CopiesFor(su, q, a + b) == CopiesFor(su, q, a) + CopiesFor(su, q, b)
    decreases |b|
  {
    if b == [] {
      assert a + b == a;
    } else {
      assert (a + b)[..|a + b| - 1] == a + b[..|b| - 1];
      CopiesInTwo(su, q, a, b[..|b| - 1]);
    }
  }

  /** No message goes to a queue twice. */
  ghost predicate OnceEach(route: seq<nat>) {
    forall i, j :: 0 <= i < j < |route| ==> route[i] != route[j]
  }

  lemma {:induction false} OneCopy(su: Setup, q: nat, n: nat, clientId: string, id: nat, body: Body)
    requires SourceOf(clientId) == su.source
    requires n <= |su.route(id)| && OnceEach(su.route(id))
    ensures CopiesFor(su, q, ToAll(n, clientId, id, body)) ==
            if q in su.route(id)[..n] then [Envelope(su.source, id, body)] else []
  {
    var route := su.route(id);
    if n > 0 {
      OneCopy(su, q, n - 1, clientId, id, body);
      assert ToAll(n, clientId, id, body)[..n - 1] == ToAll(n - 1, clientId, id, body);
      assert route[..n] == route[..n - 1] + [route[n - 1]];
    }
  }

  /** What a consumer should get of a job. */
  function DueFor(su: Setup, q: nat, job: Job): seq<Envelope<Body>> {
    var batch := if q in su.route(job.id) then [Envelope(su.source, job.id, job.body)] else [];
    if job.last && q in su.route(job.id + 1) then batch + [Envelope(su.source, job.id + 1, Eof)] else batch
  }

  lemma OutputIsDue(su: Setup, q: nat, dsts: nat, clientId: string, job: Job)
    requires SourceOf(clientId) == su.source
    requires |su.route(job.id)| == dsts && |su.route(job.id + 1)| == dsts
    requires OnceEach(su.route(job.id)) && OnceEach(su.route(job.id + 1))
    ensures CopiesFor(su, q, JobOutput(dsts, clientId, job)) == DueFor(su, q, job)
  {
    AllCopies(su, q, dsts, clientId, job.id, job.body);
    CopiesThenNone(su, q, ToAll(dsts, clientId, job.id, job.body), clientId);
    if job.last {
      AllCopies(su, q, dsts, clientId, job.id + 1, Eof);
      OutputLast(dsts, clientId, job);
      EofBehind(su, q, ToAll(dsts, clientId, job.id, job.body), ToAll(dsts, clientId, job.id + 1, Eof), clientId);
    } else {
      OutputNotLast(dsts, clientId, job);
    }
  }

  lemma EofBehind(su: Setup, q: nat, copies: seq<Sent>, eofs: seq<Sent>, clientId: string)
    ensures var out := CopiesFor(su, q, copies + [Acked(clientId)] + eofs);
            && out == CopiesFor(su, q, copies) + CopiesFor(su, q, eofs)
            && (CopiesFor(su, q, eofs) == [] ==> out == CopiesFor(su, q, copies))
  {
    CopiesThenNone(su, q, copies, clientId);
    CopiesInTwo(su, q, copies + [Acked(clientId)], eofs);
    NothingMore(CopiesFor(su, q, copies));
  }

  lemma NothingMore(a: seq<Envelope<Body>>)
    ensures a + [] == a
  {
  }

  lemma CopiesThenNone(su: Setup, q: nat, copies: seq<Sent>, clientId: string)
    ensures CopiesFor(su, q, copies + [Acked(clientId)]) == CopiesFor(su, q, copies)
  {
    assert (copies + [Acked(clientId)])[..|copies|] == copies;
  }

  lemma AllCopies(su: Setup, q: nat, dsts: nat, clientId: string, id: nat, body: Body)
    requires SourceOf(clientId) == su.source
    requires |su.route(id)| == dsts && OnceEach(su.route(id))
    ensures CopiesFor(su, q, ToAll(dsts, clientId, id, body)) ==
            if q in su.route(id) then [Envelope(su.source, id, body)] else []
  {
    OneCopy(su, q, dsts, clientId, id, body);
    assert su.route(id)[..dsts] == su.route(id);
  }

  lemma BothAccepted(queue: seq<Envelope<Body>>, due: seq<Envelope<Body>>, source: string, id: nat)
    requires At(Marks(queue, map[]), source) <= id && |due| <= 2
    requires forall i :: 0 <= i < |due| ==> due[i].src == source && id <= due[i].id
    requires |due| == 2 ==> due[0].id < due[1].id
    ensures Accept(queue + due, map[]) == Accept(queue, map[]) + due
  {
    if |due| == 0 {
      assert queue + due == queue && Accept(queue, map[]) + due == Accept(queue, map[]);
    } else if |due| == 1 {
      AcceptAppend(queue, due[0], map[]);
      assert due == [due[0]];
    } else {
      TwoAccepted(queue, due[0], due[1], source);
      assert due == [due[0], due[1]];
    }
  }

  lemma TwoAccepted(queue: seq<Envelope<Body>>, a: Envelope<Body>, b: Envelope<Body>, source: string)
    requires At(Marks(queue, map[]), source) <= a.id < b.id && a.src == source && b.src == source
    ensures Accept(queue + [a, b], map[]) == Accept(queue, map[]) + [a, b]
  {
    AcceptAppend(queue, a, map[]);
    AcceptAppend(queue + [a], b, map[]);
    assert queue + [a, b] == (queue + [a]) + [b];
    assert Accept(queue, map[]) + [a, b] == (Accept(queue, map[]) + [a]) + [b];
  }

  /** A consumer that has seen nothing of the batch accepts the sender's copy of it, and behind it the EOF if the batch
      is the last: each once, under its own id. */
  lemma OutputIsAccepted(su: Setup, st: State, q: nat, dsts: nat, clientId: string, job: Job)
    requires SourceOf(clientId) == su.source
    requires |su.route(job.id)| == dsts && |su.route(job.id + 1)| == dsts
    requires OnceEach(su.route(job.id)) && OnceEach(su.route(job.id + 1))
    requires q < |st.queues| && At(Marks(st.queues[q], map[]), su.source) <= job.id
    ensures var queues := Effects(su, st, JobOutput(dsts, clientId, job)).queues;
            |queues| == |st.queues| && Accept(queues[q], map[]) == Accept(st.queues[q], map[]) + DueFor(su, q, job)
  {
    CopiesJoin(su, st, q, JobOutput(dsts, clientId, job));
    OutputIsDue(su, q, dsts, clientId, job);
    BothAccepted(st.queues[q], DueFor(su, q, job), su.source, job.id);
  }
}
