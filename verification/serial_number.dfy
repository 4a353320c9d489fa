/** Decimal serial-number arithmetic of src/rgnb.cpp: LargeSum adds two decimal
    strings digit by digit into a string as wide as the longer one, and
    IncrementNumber adds an int to an identity string that way. */
module SerialNumber {
  import opened Base

  const OVERFLOW_ERROR: string := "UE serial number overflow"

  /** `c - '0'` in the source. */
  function CharVal(c: char): int
  {
    c as int - '0' as int
  }

  /** `static_cast<char>(v + '0')` for a remainder v of a division by 10. */
  function DigitChar(v: int): char
    requires -9 <= v <= 9
  {
    (v + '0' as int) as char
  }

  predicate IsDigit(c: char)
  {
    '0' <= c <= '9'
  }

  predicate IsDigits(s: string)
  {
    forall i :: 0 <= i < |s| ==> IsDigit(s[i])
  }

  /** The number a digit string denotes, most significant digit first. */
  function Value(s: string): nat
    requires IsDigits(s)
  {
    if |s| == 0 then 0 else Value(s[..|s| - 1]) * 10 + CharVal(s[|s| - 1])
  }

  /** A digit string of width n denotes a number below 10^n. */
  lemma {:induction false} ValueBelow(s: string)
    requires IsDigits(s)
    ensures Value(s) < Pow10(|s|)
  {
    if |s| > 0 {
      ValueBelow(s[..|s| - 1]);
    }
  }

  lemma ValueAppend(hi: string, c: char)
    requires IsDigits(hi) && IsDigit(c)
    ensures IsDigits(hi + [c])
    ensures Value(hi + [c]) == Value(hi) * 10 + CharVal(c)
  {
    assert (hi + [c])[..|hi|] == hi;
  }

  /** The shorter operand with its last character removed (empty stays empty). */
  function Init(x: string): string
  {
    if |x| == 0 then x else x[..|x| - 1]
  }

  /** The last digit of the shorter operand, 0 once it is used up. */
  function LastVal(x: string): int
  {
    if |x| == 0 then 0 else CharVal(x[|x| - 1])
  }

  /** The two loops of LargeSum as one recursion from the least significant position:
      x (the shorter) is aligned to the right of y, each position adds the two digits
      and the carry with C++ truncating / and %, and the final carry comes back out. */
  function Add(x: string, y: string, carry: int): (r: (string, int))
    requires |x| <= |y|
    ensures |r.0| == |y|
    decreases |y|
  {
    if |y| == 0 then ("", carry)
    else
      var sum := LastVal(x) + CharVal(y[|y| - 1]) + carry;
      var rest := Add(Init(x), y[..|y| - 1], TDiv(sum, 10));
      (rest.0 + [DigitChar(TMod(sum, 10))], rest.1)
  }

  /** On digit strings the recursion is schoolbook addition: the digits produced and
      the carry left over together denote x + y + carry. */
  lemma {:induction false} AddIsAddition(x: string, y: string, carry: int)
    requires |x| <= |y| && IsDigits(x) && IsDigits(y) && 0 <= carry <= 1
    ensures IsDigits(Add(x, y, carry).0)
    ensures 0 <= Add(x, y, carry).1 <= 1
    ensures Value(Add(x, y, carry).0) + Add(x, y, carry).1 * Pow10(|y|)
            == Value(x) + Value(y) + carry
  {
    if |y| > 0 {
      var y' := y[..|y| - 1];
      ValueSplit(x);
      ValueSplit(y);
      assert Init(y) == y';
      var sum := LastVal(x) + LastVal(y) + carry;
      var c', d := sum / 10, sum % 10;
      assert TDiv(sum, 10) == c' && TMod(sum, 10) == d && 0 <= c' <= 1;
      var rest := Add(Init(x), y', c');
      assert Add(x, y, carry) == (rest.0 + [DigitChar(d)], rest.1);
      AddIsAddition(Init(x), y', c');
      assert IsDigits(rest.0 + [DigitChar(d)]) &&
             Value(rest.0 + [DigitChar(d)]) == Value(rest.0) * 10 + d by {
        ValueAppend(rest.0, DigitChar(d));
      }
      assert Pow10(|y|) == 10 * Pow10(|y'|);
      CarryStep(Value(rest.0), rest.1, Pow10(|y'|), Value(Init(x)), Value(y'), LastVal(x), LastVal(y), carry, sum);
    }
  }

  /** The arithmetic of one schoolbook step, kept apart from the strings. */
  lemma CarryStep(hi: int, out: int, p: int, vx: int, vy: int, dx: int, dy: int, cin: int, sum: int)
    requires 0 <= out <= 1 && sum == dx + dy + cin && 0 <= sum
    requires hi + out * p == vx + vy + sum / 10
    ensures (hi * 10 + sum % 10) + out * (10 * p) == (vx * 10 + dx) + (vy * 10 + dy) + cin
  {
    if out == 0 {
    } else {
      assert hi + p == vx + vy + sum / 10;
    }
  }

  /** The last digit and the rest of a digit string. */
  lemma ValueSplit(x: string)
    requires IsDigits(x)
    ensures IsDigits(Init(x)) && 0 <= LastVal(x) <= 9
    ensures Value(x) == Value(Init(x)) * 10 + LastVal(x)
  {
  }

  /** Operands of equal width commute position by position. */
  lemma {:induction false} AddSymmetric(x: string, y: string, carry: int)
    requires |x| == |y|
    ensures Add(x, y, carry) == Add(y, x, carry)
  {
    if |y| > 0 {
      AddSymmetric(Init(x), y[..|y| - 1], TDiv(LastVal(x) + CharVal(y[|y| - 1]) + carry, 10));
    }
  }

  /** Starting without a carry, no carry is left exactly when the sum fits the width
      of the longer operand, and then the digits denote the sum. */
  lemma {:induction false} AddWithoutCarry(x: string, y: string)
    requires |x| <= |y| && IsDigits(x) && IsDigits(y)
    ensures Add(x, y, 0).1 == 0 <==> Value(x) + Value(y) < Pow10(|y|)
    ensures Add(x, y, 0).1 == 0 ==> IsDigits(Add(x, y, 0).0) && Value(Add(x, y, 0).0) == Value(x) + Value(y)
  {
    var sum := Add(x, y, 0);
    AddIsAddition(x, y, 0);
    ValueBelow(sum.0);
    if sum.1 != 0 {
      assert sum.1 * Pow10(|y|) == Pow10(|y|);
    }
  }

  /** LargeSum: swaps so the shorter operand comes first, adds, and raises the
      overflow error when a carry is left over. */
  function LargeSum(a: string, b: string): (r: Result<string, string>)
    ensures r.Success? ==> |r.value| == Max(|a|, |b|)
    ensures r.Failure? ==> r.error == OVERFLOW_ERROR
    ensures IsDigits(a) && IsDigits(b) ==>
              (r.Success? <==> Value(a) + Value(b) < Pow10(Max(|a|, |b|)))
    ensures IsDigits(a) && IsDigits(b) && r.Success? ==>
              IsDigits(r.value) && Value(r.value) == Value(a) + Value(b)
  {
    var (x, y) := if |a| > |b| then (b, a) else (a, b);
    var (digits, carry) := Add(x, y, 0);
    if IsDigits(a) && IsDigits(b) then
      AddWithoutCarry(x, y);
      if carry != 0 then Failure(OVERFLOW_ERROR) else Success(digits)
    else
      if carry != 0 then Failure(OVERFLOW_ERROR) else Success(digits)
  }

  /** LargeSum does not depend on the order of its arguments. */
  lemma LargeSumSymmetric(a: string, b: string)
    ensures LargeSum(a, b) == LargeSum(b, a)
  {
    if |a| == |b| {
      AddSymmetric(a, b, 0);
    }
  }

  /** std::to_string on a non-negative int. */
  function NatToString(n: nat): (r: string)
    ensures |r| > 0 && IsDigits(r) && Value(r) == n
    ensures |r| > 1 ==> r[0] != '0'
  {
    if n < 10 then [DigitChar(n)]
    else
      var hi := NatToString(n / 10);
      ValueAppend(hi, DigitChar(n % 10));
      assert (hi + [DigitChar(n % 10)])[0] == hi[0];
      hi + [DigitChar(n % 10)]
  }

  /** std::to_string on an int: a leading '-' for negative values. */
  function IntToString(n: int): (r: string)
    ensures n >= 0 ==> r == NatToString(n)
    ensures n < 0 ==> r == "-" + NatToString(-n)
  {
    if n >= 0 then NatToString(n) else "-" + NatToString(-n)
  }

  /** IncrementNumber: the identity string s with delta added as LargeSum adds. For a
      non-negative delta no wider than s, the width of s and its leading zeros survive. */
  function IncrementNumber(s: string, delta: int): (r: Result<string, string>)
    ensures r.Failure? ==> r.error == OVERFLOW_ERROR
    ensures r.Success? ==> |r.value| == Max(|s|, |IntToString(delta)|)
    ensures delta >= 0 && IsDigits(s) ==>
              (r.Success? <==> Value(s) + delta < Pow10(Max(|s|, |IntToString(delta)|)))
    ensures delta >= 0 && IsDigits(s) && r.Success? ==>
              IsDigits(r.value) && Value(r.value) == Value(s) + delta
    ensures delta >= 0 && IsDigits(s) && |IntToString(delta)| <= |s| && r.Success? ==> |r.value| == |s|
  {
    LargeSum(s, IntToString(delta))
  }
}
