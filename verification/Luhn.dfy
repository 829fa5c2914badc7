/** luhnOk of extensions/sniffy.js, against Annex B of ISO/IEC 7812-1. */
module Luhn {
  import opened Text

  type Digit = d: int | 0 <= d < 10

  /** Not one of the characters replace(/[ -]/g, "") removes. */
  predicate Kept(c: Unit) { c != ' ' as int && c != '-' as int }

  predicate IsDigit(c: Unit) { '0' as int <= c <= '9' as int }

  // ---------------------------------------------------------------- the checksum

  /** A digit's share: every second digit from the right is doubled and the digits of the product are added. */
  function Share(d: Digit, doubled: bool): int { if doubled then 2 * d / 10 + 2 * d % 10 else d }

  predicate Doubled(n: nat, i: nat)
    requires i < n
  {
    (n - 1 - i) % 2 == 1
  }

  /** The shares of the first k of n digits. */
  function Sum(d: seq<Digit>, k: nat): int
    requires k <= |d|
  {
    if k == 0 then 0 else Sum(d, k - 1) + Share(d[k - 1], Doubled(|d|, k - 1))
  }

  predicate Valid(d: seq<Digit>) { Sum(d, |d|) % 10 == 0 }

  predicate AllDigits(t: Text) {
    forall i | 0 <= i < |t| :: IsDigit(t[i])
  }

  function Digits(t: Text): (d: seq<Digit>)
    requires AllDigits(t)
    ensures |d| == |t| && forall i | 0 <= i < |t| :: d[i] == t[i] - 48
  {
    seq(|t|, i requires 0 <= i < |t| => t[i] - 48)
  }

  predicate Accepts(d: Text) { 13 <= |d| <= 19 && AllDigits(d) && Valid(Digits(d)) }

  method LuhnOk(s: Text) returns (ok: bool)
    ensures ok <==> Accepts(Filter(s, Kept))
  {
    var d := Filter(s, Kept);
    var nonDigit := AnyNonDigit(d);
    if |d| < 13 || |d| > 19 || nonDigit { return false; }
    ghost var digits := Digits(d);
    var sum, alt := 0, false;
    var i := |d| - 1;
    Parity(|d|, i);
    while i >= 0
      invariant -1 <= i < |d|
      invariant i >= 0 ==> alt == Doubled(|d|, i)
      invariant sum + Sum(digits, i + 1) == Sum(digits, |d|)
    {
      hide *;
      Parity(|d|, i);
      ShareIs(digits[i], alt);
      SumTurn(digits, i);
      var n := d[i] - 48;
      if alt {
        n := n * 2;
        if n > 9 { n := n - 9; }
      }
      sum := sum + n;
      alt := !alt;
      i := i - 1;
    }
    return sum % 10 == 0;
  }

  lemma Parity(n: nat, i: nat)
    requires i < n
    ensures i > 0 ==> Doubled(n, i - 1) == !Doubled(n, i)
    ensures !Doubled(n, n - 1)
  {
  }

  /** Subtracting 9 from a two-digit product adds its digits. */
  lemma ShareIs(n: Digit, alt: bool)
    ensures Share(n, alt) == if !alt then n else if n * 2 > 9 then n * 2 - 9 else n * 2
  {
  }

  lemma SumTurn(d: seq<Digit>, i: nat)
    requires i < |d|
    ensures Sum(d, i + 1) == Sum(d, i) + Share(d[i], Doubled(|d|, i)) && Sum(d, 0) == 0
  {
    hide Share, Doubled;
  }

  /** /\D/.test(d) */
  method AnyNonDigit(d: Text) returns (found: bool)
    ensures found <==> !AllDigits(d)
  {
    found := false;
    for i := 0 to |d|
      invariant found <==> !AllDigits(d[..i])
    {
      if !IsDigit(d[i]) { found := true; }
      assert d[..i + 1] == d[..i] + [d[i]];
    }
    assert d[..|d|] == d;
  }

  /** Spaces and dashes change nothing. */
  lemma SeparatorsDoNotMatter(a: Text, c: Unit, b: Text)
    requires c == ' ' as int || c == '-' as int
    ensures Accepts(Filter(a + [c] + b, Kept)) <==> Accepts(Filter(a + b, Kept))
  {
    FilterNoise(a, c, b, Kept);
  }

  // ---------------------------------------------------------------- the checksum of the standard

  /** Annex B, two digits at a time from the right: the last one counts as it is, the one before it twice, and of a product
      with two digits their sum. */
  function FromRight(d: seq<Digit>): int
    decreases |d|
  {
    if d == [] then 0
    else if |d| == 1 then d[0]
    else
      var n := |d|;
      FromRight(d[..n - 2]) + [0, 2, 4, 6, 8, 1, 3, 5, 7, 9][d[n - 2]] + d[n - 1]
  }

  lemma {:induction false} SumOfPrefix(d: seq<Digit>, k: nat)
    requires |d| >= 2 && k <= |d| - 2
    ensures Sum(d, k) == Sum(d[..|d| - 2], k)
  {
    if k > 0 {
      SumOfPrefix(d, k - 1);
      assert Doubled(|d|, k - 1) == Doubled(|d| - 2, k - 1);
      hide Doubled, Share;
    }
  }

  lemma LastTwo(d: seq<Digit>)
    requires |d| >= 2
    ensures var n := |d|; Sum(d, n) == Sum(d, n - 2) + [0, 2, 4, 6, 8, 1, 3, 5, 7, 9][d[n - 2]] + d[n - 1]
  {
    var n := |d|;
    SumTurn(d, n - 1);
    SumTurn(d, n - 2);
    assert Doubled(n, n - 2) && !Doubled(n, n - 1);
    TwiceIs(d[n - 2]);
    hide Doubled, Sum;
  }

  lemma TwiceIs(x: Digit)
    ensures Share(x, true) == [0, 2, 4, 6, 8, 1, 3, 5, 7, 9][x]
  {
  }

  lemma {:induction false} SumIsFromRight(d: seq<Digit>)
    ensures Sum(d, |d|) == FromRight(d)
    decreases |d|
  {
    if |d| >= 2 {
      SumIsFromRight(d[..|d| - 2]);
      SumOfPrefix(d, |d| - 2);
      LastTwo(d);
      hide Doubled, Share, Sum;
    }
  }

  predicate IsSeparator(c: Unit) { c == ' ' as int || c == '-' as int }

  lemma DigitsConcat(a: Text, b: Text)
    ensures AllDigits(a + b) <==> AllDigits(a) && AllDigits(b)
  {
    hide IsDigit;
    if AllDigits(a + b) {
      assert forall i | 0 <= i < |a| :: a[i] == (a + b)[i];
      assert forall i | 0 <= i < |b| :: b[i] == (a + b)[|a| + i];
    }
  }

  lemma {:induction false} FilterKeeps(s: Text)
    ensures AllDigits(Filter(s, Kept)) <==> forall i | 0 <= i < |s| :: IsDigit(s[i]) || IsSeparator(s[i])
  {
    if s != [] {
      FilterKeeps(s[1..]);
      var head: Text := if Kept(s[0]) then [s[0]] else [];
      DigitsConcat(head, Filter(s[1..], Kept));
      assert AllDigits(head) <==> IsDigit(s[0]) || IsSeparator(s[0]);
      assert s == [s[0]] + s[1..];
      hide AllDigits, IsDigit, IsSeparator;
    }
  }

  /** A CARD NUMBER IS ACCEPTED exactly if it has nothing but digits, blanks and dashes, has 13 to 19 digits, and the
      standard's sum of these is a multiple of ten. */
  lemma AcceptedExactly(s: Text)
    ensures Accepts(Filter(s, Kept)) <==>
      && (forall i | 0 <= i < |s| :: '0' as int <= s[i] <= '9' as int || s[i] == ' ' as int || s[i] == '-' as int)
      && 13 <= |Filter(s, Kept)| <= 19 && AllDigits(Filter(s, Kept)) && FromRight(Digits(Filter(s, Kept))) % 10 == 0
  {
    FilterKeeps(s);
    if AllDigits(Filter(s, Kept)) {
      SumIsFromRight(Digits(Filter(s, Kept)));
    }
    hide Filter, Sum, FromRight, AllDigits, Digits;
  }

  // ---------------------------------------------------------------- what the checksum detects

  /** Sums of sequences of one length differ by the shares of the positions where they differ. */
  lemma {:induction false} SumChange(d: seq<Digit>, e: seq<Digit>, k: nat, i: nat)
    requires |d| == |e| && i < k <= |d| && forall j | 0 <= j < k && j != i :: d[j] == e[j]
    ensures Sum(e, k) - Sum(d, k) == Share(e[i], Doubled(|d|, i)) - Share(d[i], Doubled(|d|, i))
  {
    if k - 1 == i {
      SumSame(d, e, i);
    } else {
      SumChange(d, e, k - 1, i);
    }
  }

  lemma {:induction false} SumSame(d: seq<Digit>, e: seq<Digit>, k: nat)
    requires |d| == |e| && k <= |d| && forall j | 0 <= j < k :: d[j] == e[j]
    ensures Sum(e, k) == Sum(d, k)
  {
    if k > 0 {
      SumSame(d, e, k - 1);
    }
  }

  lemma SharesDiffer(x: Digit, y: Digit, doubled: bool)
    ensures (Share(x, doubled) - Share(y, doubled)) % 10 == 0 <==> x == y
  {
  }

  /** EVERY SINGLE-DIGIT ERROR IS DETECTED. */
  lemma SingleErrorDetected(d: seq<Digit>, i: nat, x: Digit)
    requires Valid(d) && i < |d|
    ensures Valid(d[i := x]) <==> x == d[i]
  {
    var e := d[i := x];
    SumChange(d, e, |d|, i);
    SharesDiffer(x, d[i], Doubled(|d|, i));
    ModDifference(Sum(d, |d|), Sum(e, |d|));
  }

  lemma ModDifference(m: int, n: int)
    requires m % 10 == 0
    ensures n % 10 == 0 <==> (n - m) % 10 == 0
  {
  }

  /** A SWAP OF NEIGHBOURS IS DETECTED, except of equal digits and of 0 with 9. */
  lemma SwapDetected(d: seq<Digit>, i: nat)
    requires Valid(d) && i + 1 < |d|
    ensures Valid(d[i := d[i + 1]][i + 1 := d[i]]) <==> Undetected(d[i], d[i + 1])
  {
    assert Doubled(|d|, i) == !Doubled(|d|, i + 1);
    hide Share, Sum, Doubled, Undetected;
    var e := d[i := d[i + 1]];
    var f := e[i + 1 := d[i]];
    SumChange(d, e, |d|, i);
    SumChange(e, f, |d|, i + 1);
    SwapShares(d[i], d[i + 1]);
    ModDifference(Sum(d, |d|), Sum(f, |d|));
  }

  predicate Undetected(x: Digit, y: Digit) { x == y || (x == 0 && y == 9) || (x == 9 && y == 0) }

  lemma SwapShares(x: Digit, y: Digit)
    ensures (Share(y, true) - Share(x, true) + Share(x, false) - Share(y, false)) % 10 == 0 <==> Undetected(x, y)
    ensures (Share(y, false) - Share(x, false) + Share(x, true) - Share(y, true)) % 10 == 0 <==> Undetected(x, y)
  {
    assert Share(x, true) == (if x < 5 then 2 * x else 2 * x - 9) && Share(y, true) == (if y < 5 then 2 * y else 2 * y - 9);
  }

  /** EXACTLY ONE FINAL DIGIT completes any digits. */
  lemma OneCheckDigit(p: seq<Digit>, x: Digit)
    ensures Valid(p + [x]) <==> x == (10 - Sum(p + [0], |p|) % 10) % 10
  {
    hide *;
    var d, e := p + [0], p + [x];
    SumSame(d, e, |p|);
    SumLast(e);
    Completes(Sum(d, |p|), x);
    ValidIs(e);
  }

  lemma SumLast(d: seq<Digit>)
    requires d != []
    ensures Sum(d, |d|) == Sum(d, |d| - 1) + d[|d| - 1]
  {
  }

  lemma ValidIs(d: seq<Digit>)
    ensures Valid(d) <==> Sum(d, |d|) % 10 == 0
  {
    hide Sum;
  }

  lemma Completes(m: int, x: Digit)
    ensures (m + x) % 10 == 0 <==> x == (10 - m % 10) % 10
  {
    var q, r := m / 10, m % 10;
    assert m + x == 10 * q + (r + x);
  }
}
