/** Decimal numbers and words: the few string helpers the other modules share. */
module Text {

  predicate IsDigit(c: char) {
    '0' <= c <= '9'
  }

  predicate AllDigits(s: string) {
    forall i :: 0 <= i < |s| ==> IsDigit(s[i])
  }

  function Digit(d: nat): (c: char)
    requires d < 10
    ensures IsDigit(c) && DigitValue(c) == d
  {
    "0123456789"[d]
  }

  function DigitValue(c: char): nat {
    if IsDigit(c) then c as int - '0' as int else 0
  }

  /** strconv.Itoa on a number that is not negative. */
  function Itoa(n: nat): (s: string)
    ensures |s| >= 1 && AllDigits(s)
    ensures Value(s) == n
  {
    if n < 10 then
      [Digit(n)]
    else
      var front := Itoa(n / 10);
      var s := front + [Digit(n % 10)];
      assert s[..|s| - 1] == front;
      s
  }

  /** The number a digit string stands for. */
  function Value(s: string): nat {
    if s == "" then 0 else 10 * Value(s[..|s| - 1]) + DigitValue(s[|s| - 1])
  }

  /** strconv.Itoa on any integer. */
  function ItoaInt(n: int): string {
    if n < 0 then "-" + Itoa(-n) else Itoa(n)
  }

  lemma ItoaIntInjective(m: int, n: int)
    requires ItoaInt(m) == ItoaInt(n)
    ensures m == n
  {
    var x, y := if m < 0 then -m else m, if n < 0 then -n else n;
    assert IsDigit(Itoa(x)[0]) && IsDigit(Itoa(y)[0]);
    assert m < 0 ==> ItoaInt(m)[0] == '-' && ItoaInt(m)[1..] == Itoa(x);
    assert n < 0 ==> ItoaInt(n)[0] == '-' && ItoaInt(n)[1..] == Itoa(y);
    assert Value(Itoa(x)) == x && Value(Itoa(y)) == y;
  }

  predicate HasPrefix(s: string, p: string) {
    p <= s
  }

  predicate HasSuffix(s: string, suffix: string) {
    |suffix| <= |s| && s[|s| - |suffix|..] == suffix
  }

  function TrimSuffix(s: string, suffix: string): string {
    if HasSuffix(s, suffix) then s[..|s| - |suffix|] else s
  }

  lemma SuffixOfConcat(a: string, b: string, suffix: string)
    requires |suffix| <= |b|
    ensures HasSuffix(a + b, suffix) <==> HasSuffix(b, suffix)
  {
    assert (a + b)[|a + b| - |suffix|..] == b[|b| - |suffix|..];
  }
}
