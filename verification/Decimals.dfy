/** Digits, and Python's decimal text of a natural number: `str(n)`, `f"{n:0{w}d}"` and `int(s)`. */
module Decimals {

  predicate IsDigit(c: char) {
    '0' <= c <= '9'
  }

  predicate IsLowerHexDigit(c: char) {
    IsDigit(c) || 'a' <= c <= 'f'
  }

  predicate IsHexDigit(c: char) {
    IsLowerHexDigit(c) || 'A' <= c <= 'F'
  }

  predicate AllDigits(s: string) {
    forall i :: 0 <= i < |s| ==> IsDigit(s[i])
  }

  function Value(s: string): nat
    requires AllDigits(s)
  {
    if s == "" then 0
    else Value(s[..|s| - 1]) * 10 + (s[|s| - 1] as int - '0' as int)
  }

  function Digit(d: nat): (c: char)
    requires d < 10
    ensures IsDigit(c)
  {
    ('0' as int + d) as char
  }

  function Print(n: nat): (s: string)
    ensures s != "" && AllDigits(s)
  {
    if n < 10 then [Digit(n)] else Print(n / 10) + [Digit(n % 10)]
  }

  function Zeros(n: nat): (s: string)
    ensures |s| == n && AllDigits(s)
  {
    seq(n, _ => '0')
  }

  /** `f"{n:0{width}d}"`: at least `width` characters, never truncated. */
  function Pad(n: nat, width: nat): (s: string)
    ensures AllDigits(s) && |s| >= width
  {
    var s := Print(n);
    if |s| >= width then s else Zeros(width - |s|) + s
  }

  /** A numeral without superfluous leading zeros. */
  predicate Canonical(s: string) {
    s != "" && AllDigits(s) && (|s| > 1 ==> s[0] != '0')
  }

  function Pow10(k: nat): (p: nat)
    ensures p >= 1
  {
    if k == 0 then 1 else 10 * Pow10(k - 1)
  }

  /** Printing loses nothing: `int(str(n)) == n`. */
  lemma {:induction false} ValueOfPrint(n: nat)
    ensures Value(Print(n)) == n
  {
    if n < 10 {
      assert Print(n)[..0] == "";
    } else {
      ValueOfPrint(n / 10);
      assert Print(n)[..|Print(n)| - 1] == Print(n / 10);
    }
  }

  lemma {:induction false} ValueOfZeros(n: nat, s: string)
    requires AllDigits(s)
    ensures Value(Zeros(n) + s) == Value(s)
    decreases |s|, n
  {
    if s != "" {
      var front := s[..|s| - 1];
      assert (Zeros(n) + s)[..n + |s| - 1] == Zeros(n) + front;
      ValueOfZeros(n, front);
    } else if n > 0 {
      assert Zeros(n) + s == Zeros(n);
      assert Zeros(n)[..n - 1] == Zeros(n - 1) + s;
      ValueOfZeros(n - 1, s);
    }
  }

  /** Zero padding is transparent to `int`. */
  lemma ValueOfPad(n: nat, width: nat)
    ensures Value(Pad(n, width)) == n
  {
    ValueOfPrint(n);
    var s := Print(n);
    if |s| < width {
      ValueOfZeros(width - |s|, s);
    }
  }

  lemma {:induction false} PrintWidth(n: nat, k: nat)
    requires k >= 1
    ensures |Print(n)| <= k <==> n < Pow10(k)
  {
    if k == 1 {
      assert Pow10(1) == 10 * Pow10(0) == 10;
    } else if n >= 10 {
      PrintWidth(n / 10, k - 1);
    }
  }

  /** The padded field keeps its width exactly for the numbers that fit. */
  lemma PadWidth(n: nat, width: nat)
    requires width >= 1
    ensures |Pad(n, width)| == width <==> n < Pow10(width)
  {
    PrintWidth(n, width);
  }

  /** A canonical numeral is the printed form of its value. */
  lemma {:induction false} PrintOfValue(s: string)
    requires Canonical(s)
    ensures Print(Value(s)) == s
    ensures |s| > 1 ==> Value(s) >= 10
  {
    var front := s[..|s| - 1];
    if |s| == 1 {
      assert front == "";
    } else {
      assert s == front + [s[|s| - 1]];
      PrintOfValue(front);
      assert Value(front) >= 1 by {
        if |front| == 1 {
          assert front[..0] == "";
        }
      }
    }
  }

  /** Two different canonical numerals denote different numbers. */
  lemma CanonicalUnique(a: string, b: string)
    requires Canonical(a) && Canonical(b) && Value(a) == Value(b)
    ensures a == b
  {
    PrintOfValue(a);
    PrintOfValue(b);
  }
}
