/** What both aggregators share: internal/worker/aggregator/aggregator.go. */
module Aggregator {
  import opened Protocol
  import opened EofCounts

  class EofCounter {
    const expectedEofs: nat
    var eofsRecv: map<string, nat>

    constructor (expectedEofs: nat)
      ensures this.expectedEofs == expectedEofs && eofsRecv == map[]
    {
      this.expectedEofs := expectedEofs;
      eofsRecv := map[];
    }

    /** Counts an EOF of the client; the count is dropped once the last one has arrived. */
    method Count(client: string) returns (reached: bool)
      modifies this
      ensures reached == (Counted(old(eofsRecv), client) >= expectedEofs)
      ensures eofsRecv == if reached then old(eofsRecv) - {client}
                          else old(eofsRecv)[client := Counted(old(eofsRecv), client)]
    {
      eofsRecv := eofsRecv[client := Counted(eofsRecv, client)];
      reached := eofsRecv[client] >= expectedEofs;
      if reached {
        eofsRecv := eofsRecv - {client};
        assert eofsRecv == old(eofsRecv) - {client};
      }
    }
  }

  /** What k EOFs of a client, one after another, do to a counter, and whether the last was the last expected. */
  function AfterEofs(expected: nat, client: string, k: nat): (Counters, bool) {
    if k == 0 then (map[], false)
    else
      var eofs := AfterEofs(expected, client, k - 1).0;
      var reached := Counted(eofs, client) >= expected;
      (if reached then eofs - {client} else eofs[client := Counted(eofs, client)], reached)
  }

  /** The count runs out exactly on every EOF number ExpectedEofs (on each one, if none are expected). */
  lemma {:induction false} ReachedExactlyAtExpected(expected: nat, client: string, k: nat)
    requires expected < 256
    ensures At(AfterEofs(expected, client, k).0, client) == k % Round(expected)
    ensures AfterEofs(expected, client, k).1 <==> k > 0 && k % Round(expected) == 0
  {
    if k > 0 {
      ReachedExactlyAtExpected(expected, client, k - 1);
      CountsRounds(expected, AfterEofs(expected, client, k - 1).0, client, k - 1);
    } else {
      ResidueIsModulo(0, Round(expected));
    }
  }
}
