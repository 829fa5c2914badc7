/** JavaScript strings: sequences of UTF-16 code units, surrogates included. */
module Text {

  type Unit = x: int | 0 <= x < 0x1_0000

  type Text = seq<Unit>

  function Code(c: char): Unit { if c as int < 0x1_0000 then c as int else 0xfffd }

  /** An ASCII literal as code units. */
  function T(s: string): (t: Text)
    ensures |t| == |s|
    ensures forall i | 0 <= i < |s| :: t[i] == Code(s[i])
  {
    seq(|s|, i requires 0 <= i < |s| => Code(s[i]))
  }

  function LowerUnit(c: Unit): Unit { if 'A' as int <= c <= 'Z' as int then c + 32 else c }

  /** toLowerCase on ASCII. */
  function Lower(t: Text): (r: Text)
    ensures |r| == |t| && forall i | 0 <= i < |t| :: r[i] == LowerUnit(t[i])
  {
    seq(|t|, i requires 0 <= i < |t| => LowerUnit(t[i]))
  }

  /** Position of the first `c`, or |t|. */
  function IndexOf(t: Text, c: Unit): (k: nat)
    ensures k <= |t| && (k < |t| ==> t[k] == c) && forall i | 0 <= i < k :: t[i] != c
  {
    if t == [] || t[0] == c then 0 else 1 + IndexOf(t[1..], c)
  }

  /** replace(/[^...]/g, ""): the characters of a class, in order. */
  function Filter(t: Text, keep: Unit -> bool): (r: Text)
    ensures forall i | 0 <= i < |r| :: keep(r[i])
    decreases |t|
  {
    if t == [] then [] else (if keep(t[0]) then [t[0]] else []) + Filter(t[1..], keep)
  }

  lemma {:induction false} FilterConcat(a: Text, b: Text, keep: Unit -> bool)
    ensures Filter(a + b, keep) == Filter(a, keep) + Filter(b, keep)
    decreases |a|
  {
    if a == [] {
      assert a + b == b;
    } else {
      assert (a + b)[1..] == a[1..] + b;
      FilterConcat(a[1..], b, keep);
    }
  }

  lemma {:induction false} FilterAll(t: Text, keep: Unit -> bool)
    requires forall i | 0 <= i < |t| :: keep(t[i])
    ensures Filter(t, keep) == t
    decreases |t|
  {
    if t != [] {
      FilterAll(t[1..], keep);
    }
  }

  /** A character outside the class can be put anywhere. */
  lemma FilterNoise(a: Text, c: Unit, b: Text, keep: Unit -> bool)
    requires !keep(c)
    ensures Filter(a + [c] + b, keep) == Filter(a + b, keep)
  {
    assert Filter([c], keep) == [];
    hide Filter;
    FilterConcat(a + [c], b, keep);
    FilterConcat(a, [c], keep);
    FilterConcat(a, b, keep);
    assert Filter(a, keep) + [] == Filter(a, keep);
  }
}
