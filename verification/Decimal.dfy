/** Decimal numbers as text: what the %d verb prints, and what strconv.Atoi reads on a 64-bit machine. */
module Decimal {
  import opened Options

  const MIN_INT := -0x8000_0000_0000_0000
  const MAX_INT := 0x7FFF_FFFF_FFFF_FFFF

  predicate IsDigit(c: char) {
    '0' <= c <= '9'
  }

  function DigitOf(d: nat): (c: char)
    requires d < 10
    ensures IsDigit(c) && ValueOf(c) == d
  {
    d as char + '0'
  }

  function ValueOf(c: char): nat
    requires IsDigit(c)
  {
    (c - '0') as nat
  }

  function PrintNat(n: nat): (s: string)
    ensures |s| > 0 && forall i :: 0 <= i < |s| ==> IsDigit(s[i])
  {
    if n < 10 then [DigitOf(n)] else PrintNat(n / 10) + [DigitOf(n % 10)]
  }

  function Print(n: int): string {
    if n < 0 then "-" + PrintNat(-n) else PrintNat(n)
  }

  function ReadNat(s: string): (r: Option<nat>) {
    if s == [] then Some(0)
    else if !IsDigit(s[|s| - 1]) then None
    else match ReadNat(s[..|s| - 1])
      case None => None
      case Some(front) => Some(10 * front + ValueOf(s[|s| - 1]))
  }

  function Atoi(s: string): Option<int> {
    var negative := s != [] && s[0] == '-';
    var digits := if s != [] && (s[0] == '-' || s[0] == '+') then s[1..] else s;
    if digits == [] then None
    else match ReadNat(digits)
      case None => None
      case Some(n) =>
        var value := (if negative then -1 else 1) * n;
        if MIN_INT <= value <= MAX_INT then Some(value) else None
  }

  lemma {:induction false} ReadPrinted(n: nat)
    ensures ReadNat(PrintNat(n)) == Some(n)
    decreases n
  {
    var s := PrintNat(n);
    if n < 10 {
      assert s[..|s| - 1] == [];
    } else {
      assert s[..|s| - 1] == PrintNat(n / 10);
      ReadPrinted(n / 10);
    }
  }

  /** Every 64-bit integer is read back as it was printed. */
  lemma AtoiPrint(n: int)
    ensures Atoi(Print(n)) == if MIN_INT <= n <= MAX_INT then Some(n) else None
  {
    var s := Print(n);
    if n < 0 {
      ReadPrinted(-n);
      assert s[0] == '-' && s[1..] == PrintNat(-n);
    } else {
      ReadPrinted(n);
      assert IsDigit(s[0]);
    }
  }

  /** A plus sign may stand before a number; a sign alone, or nothing, is not one. */
  lemma SignsAlone(n: nat)
    ensures Atoi("+" + PrintNat(n)) == Atoi(PrintNat(n))
    ensures Atoi("") == None && Atoi("+") == None && Atoi("-") == None
  {
    assert ("+" + PrintNat(n))[1..] == PrintNat(n);
    assert IsDigit(PrintNat(n)[0]);
  }
}
