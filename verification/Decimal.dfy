/** Decimal numbers as text. */
module Decimal {
  import opened Protocol

  predicate IsDigit(c: char) {
    '0' <= c <= '9'
  }

  function Digit(n: nat): (c: char)
    requires n < 10
    ensures IsDigit(c) && c as int - '0' as int == n
  {
    ('0' as int + n) as char
  }

  function Print(n: nat): (s: string)
    ensures s != "" && forall i :: 0 <= i < |s| ==> IsDigit(s[i])
  {
    if n < 10 then [Digit(n)] else Print(n / 10) + [Digit(n % 10)]
  }

  /** The value of a text that is nothing but digits. */
  function Value(s: string): Option<nat> {
    if s == "" then Some(0)
    else
      var high, last := Value(s[..|s| - 1]), s[|s| - 1];
      if high.Some? && IsDigit(last) then Some(10 * high.value + (last as int - '0' as int)) else None
  }

  /** An unsigned number of 64 bits; no sign is taken. */
  function ParseUint(s: string): Option<nat> {
    var v := Value(s);
    if s == "" || v.None? || v.value >= 0x1_0000_0000_0000_0000 then None else v
  }

  /** A signed number of 64 bits, with an optional sign. */
  function ParseInt(s: string): Option<int> {
    var signed := s != "" && (s[0] == '-' || s[0] == '+');
    var digits := if signed then s[1..] else s;
    var v := Value(digits);
    if digits == "" || v.None? then None
    else
      var magnitude: int := v.value;
      var n := if signed && s[0] == '-' then -magnitude else magnitude;
      if -0x8000_0000_0000_0000 <= n < 0x8000_0000_0000_0000 then Some(n) else None
  }

  lemma Texts()
    ensures Print(305) == "305" && Value("305") == Some(305) && ParseUint("305") == Some(305)
  {
    assert Print(3) == "3" && Print(30) == "30";
    ValueOfPrint(305);
  }

  /** Signs are read where a signed number is. */
  lemma Signs()
    ensures ParseInt("-305") == Some(-305) && ParseInt("+305") == Some(305) && ParseInt("-") == None
    ensures ParseUint("-305") == None
  {
    Texts();
    assert "-305"[1..] == "305" && "+305"[1..] == "305" && "-"[1..] == "";
    NotADigit("", '-', "305");
    assert "" + ['-'] + "305" == "-305";
  }

  /** What has something else than digits in it is no number. */
  lemma {:induction false} NotADigit(before: string, c: char, behind: string)
    requires !IsDigit(c)
    ensures Value(before + [c] + behind) == None
    decreases |behind|
  {
    var s := before + [c] + behind;
    if behind == "" {
      assert s[|s| - 1] == c;
    } else {
      assert s[..|s| - 1] == before + [c] + behind[..|behind| - 1];
      NotADigit(before, c, behind[..|behind| - 1]);
    }
  }

  lemma {:induction false} ValueOfPrint(n: nat)
    ensures Value(Print(n)) == Some(n)
  {
    var s := Print(n);
    if n < 10 {
      assert s[..|s| - 1] == "";
    } else {
      assert s[..|s| - 1] == Print(n / 10);
      ValueOfPrint(n / 10);
    }
  }

  lemma PrintParses(n: nat)
    ensures n < 0x1_0000_0000_0000_0000 ==> ParseUint(Print(n)) == Some(n)
    ensures n < 0x8000_0000_0000_0000 ==> ParseInt(Print(n)) == Some(n)
  {
    ValueOfPrint(n);
    assert Print(n)[0] != '-' && Print(n)[0] != '+';
  }
}
