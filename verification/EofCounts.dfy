/** Counting a client's EOFs, as the aggregators and the top-N node do, and the rounds that the count goes through. */
module EofCounts {
  import opened Protocol
  import opened Division

  /** The EOF count is one byte wide. */
  function Counted(eofs: Counters, client: string): nat {
    (At(eofs, client) + 1) % 256
  }

  /** How many EOFs end a round: one, if none are expected. */
  function Round(expected: nat): (r: nat)
    ensures r > 0
  {
    if expected == 0 then 1 else expected
  }

  lemma RoundStep(k: nat, round: nat)
    requires round > 0
    ensures k % round + 1 < round ==> (k + 1) % round == k % round + 1 && (k + 1) / round == k / round
    ensures k % round + 1 >= round ==> (k + 1) % round == 0 && (k + 1) / round == k / round + 1
  {
    var q, r := k / round, k % round;
    assert k + 1 == q * round + r + 1;
    if r + 1 < round {
      Quotient(q, r + 1, round);
    } else {
      assert k + 1 == (q + 1) * round;
      Quotient(q + 1, 0, round);
    }
  }

  /** k modulo round and k divided by round, counted up one at a time. */
  function Residue(k: nat, round: nat): (r: nat)
    requires round > 0
    ensures r < round
  {
    if k == 0 then 0 else if Residue(k - 1, round) + 1 < round then Residue(k - 1, round) + 1 else 0
  }

  function Rounds(k: nat, round: nat): nat
    requires round > 0
  {
    if k == 0 then 0 else Rounds(k - 1, round) + if Residue(k - 1, round) + 1 < round then 0 else 1
  }

  lemma {:induction false} ResidueIsModulo(k: nat, round: nat)
    requires round > 0
    ensures Residue(k, round) == k % round && Rounds(k, round) == k / round
  {
    if k == 0 {
      Quotient(0, 0, round);
    } else {
      ResidueIsModulo(k - 1, round);
      RoundStep(k - 1, round);
    }
  }

  /** Up to a round's length the residue is the number itself. */
  lemma WithinRound(k: nat, round: nat)
    requires round > 0 && k <= round
    ensures k % round == if k == round then 0 else k
  {
    if k == round {
      Quotient(1, 0, round);
    } else {
      Quotient(0, k, round);
    }
  }

  /** Counting from k EOFs on, the count runs out exactly when the next one completes a round. */
  lemma CountsRounds(expected: nat, eofs: Counters, client: string, k: nat)
    requires expected < 256 && At(eofs, client) == k % Round(expected)
    ensures Counted(eofs, client) >= expected <==> (k + 1) % Round(expected) == 0
    ensures Counted(eofs, client) < expected ==> Counted(eofs, client) == (k + 1) % Round(expected)
  {
    RoundStep(k, Round(expected));
  }
}
