/** Decimal numerals and character search. */
module Text {
  import opened Options

  predicate IsDigit(c: char) {
    '0' <= c <= '9'
  }

  predicate AllDigits(s: string) {
    forall i :: 0 <= i < |s| ==> IsDigit(s[i])
  }

  function DigitChar(d: nat): (c: char)
    requires d < 10
    ensures IsDigit(c) && c as int - '0' as int == d
  {
    (d + '0' as int) as char
  }

  /** The decimal numeral of `n`. */
  function Digits(n: nat): (s: string)
    ensures s != "" && AllDigits(s)
  {
    if n < 10 then [DigitChar(n)] else Digits(n / 10) + [DigitChar(n % 10)]
  }

  /** The number a digit string stands for. */
  function Value(s: string): nat
    requires AllDigits(s)
  {
    if s == "" then 0 else 10 * Value(s[..|s| - 1]) + (s[|s| - 1] as int - '0' as int)
  }

  lemma {:induction false} ValueOfDigits(n: nat)
    ensures Value(Digits(n)) == n
  {
    if n >= 10 {
      ValueOfDigits(n / 10);
      assert Digits(n)[..|Digits(n)| - 1] == Digits(n / 10);
    }
  }

  function Tens(k: nat): nat {
    if k == 0 then 1 else 10 * Tens(k - 1)
  }

  lemma TensTimes(x: nat, k: nat)
    requires k > 0
    ensures x * Tens(k) == 10 * (x * Tens(k - 1))
  {
  }

  lemma ValueSnoc(s: string, c: char)
    requires AllDigits(s) && IsDigit(c)
    ensures AllDigits(s + [c]) && Value(s + [c]) == 10 * Value(s) + (c as int - '0' as int)
  {
    assert (s + [c])[..|s|] == s;
  }

  /** A digit string is positional notation to base ten. */
  lemma {:induction false} ValueConcat(a: string, b: string)
    requires AllDigits(a) && AllDigits(b)
    ensures AllDigits(a + b) && Value(a + b) == Value(a) * Tens(|b|) + Value(b)
    decreases |b|
  {
    if b == "" {
      assert a + b == a;
    } else {
      var front, c := b[..|b| - 1], b[|b| - 1];
      ValueConcat(a, front);
      assert a + b == a + front + [c] && b == front + [c];
      ValueSnoc(a + front, c);
      ValueSnoc(front, c);
      TensTimes(Value(a), |b|);
    }
  }

  lemma ValueOne(c: char)
    requires IsDigit(c)
    ensures AllDigits([c]) && Value([c]) == c as int - '0' as int
  {
    ValueSnoc("", c);
    assert "" + [c] == [c];
  }

  /** A numeral has no leading zero: it is as short as it can be. */
  lemma {:induction false} DigitBounds(n: nat)
    requires n > 0
    ensures Tens(|Digits(n)| - 1) <= n < Tens(|Digits(n)|)
  {
    if n >= 10 {
      DigitBounds(n / 10);
    }
  }

  lemma DigitsInjective(m: nat, n: nat)
    requires Digits(m) == Digits(n)
    ensures m == n
  {
    ValueOfDigits(m);
    ValueOfDigits(n);
  }

  /** The first position of `c`. */
  function Find(s: string, c: char): (r: Option<nat>)
    ensures r.None? ==> c !in s
    ensures r.Some? ==> r.value < |s| && s[r.value] == c && c !in s[..r.value]
  {
    if s == "" then None
    else if s[0] == c then Some(0)
    else
      var r := Find(s[1..], c);
      assert s == [s[0]] + s[1..];
      if r.None? then None
      else
        assert s[..r.value + 1] == [s[0]] + s[1..][..r.value];
        Some(r.value + 1)
  }

  /** Searching past text without `c` finds the `c` right behind it. */
  lemma FindAt(a: string, c: char, b: string)
    requires c !in a
    ensures Find(a + [c] + b, c) == Some(|a|)
  {
    var s := a + [c] + b;
    assert s[|a|] == c;
    var r := Find(s, c);
    forall i | 0 <= i < |a| ensures s[i] != c {
      assert s[i] == a[i];
    }
    forall i | 0 <= i < r.value ensures s[i] != c {
      assert s[i] == s[..r.value][i];
    }
  }

  /** A string splits in one way at its last separator. */
  lemma LastSplit(a: string, d: string, b: string, e: string, c: char)
    requires a + [c] + d == b + [c] + e && c !in d && c !in e
    ensures a == b && d == e
  {
    var s := a + [c] + d;
    assert s[|a|] == c && s[|b|] == c;
    forall i | |a| < i < |s| ensures s[i] != c {
      assert s[i] == d[i - |a| - 1];
    }
    forall i | |b| < i < |s| ensures s[i] != c {
      assert s[i] == e[i - |b| - 1];
    }
    assert |a| == |b|;
    assert a == s[..|a|] && b == s[..|b|];
    assert d == s[|a| + 1..] && e == s[|b| + 1..];
  }
}
