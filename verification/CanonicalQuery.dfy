/** The canonical query string of signRequest in extensions/aws_sigv4.js. */
module CanonicalQuery {
  import opened Text
  import opened Utf8
  import opened UriEncoding

  datatype Param = Param(key: Text, value: Text)

  const AMPERSAND: Unit := 0x26
  const EQUALS: Unit := 0x3d

  // ---------------------------------------------------------------- the order of keys

  /** `a < b` on JavaScript strings: by UTF-16 units. */
  predicate Less(a: Text, b: Text) {
    b != [] && (a == [] || a[0] < b[0] || (a[0] == b[0] && Less(a[1..], b[1..])))
  }

  lemma {:induction false} LessTotal(a: Text, b: Text)
    ensures a == b || Less(a, b) || Less(b, a)
    ensures !(Less(a, b) && Less(b, a)) && !Less(a, a)
  {
    if a != [] && b != [] {
      LessTotal(a[1..], b[1..]);
      LessTotal(a[1..], a[1..]);
      assert a == [a[0]] + a[1..] && b == [b[0]] + b[1..];
    } else if a != [] {
      LessTotal(a[1..], a[1..]);
    }
  }

  lemma {:induction false} LessTrans(a: Text, b: Text, c: Text)
    requires !Less(b, a) && !Less(c, b)
    ensures !Less(c, a)
  {
    if a != [] && b != [] && c != [] && a[0] == c[0] {
      LessTrans(a[1..], b[1..], c[1..]);
    }
  }

  /** They agree on the first k units; there `a` ends, or has the smaller unit. */
  predicate PartsAt(a: Text, b: Text, k: nat) {
    k <= |a| && k < |b| && a[..k] == b[..k] && (k == |a| || a[k] < b[k])
  }

  /** `a` comes before `b` in the order of their UTF-16 units. */
  predicate Before(a: Text, b: Text) {
    exists k | 0 <= k < |b| :: PartsAt(a, b, k)
  }

  /** THE ORDER is that of the first unit in which two strings differ, and a string that ends there comes first. */
  lemma {:induction false} LessExactly(a: Text, b: Text)
    ensures Less(a, b) <==> Before(a, b)
  {
    if b != [] {
      if a == [] || a[0] != b[0] {
        assert PartsAt(a, b, 0) <==> a == [] || a[0] < b[0];
        forall k | 0 < k < |b| && k <= |a| ensures a[..k] != b[..k] {
          assert a[..k][0] == a[0] && b[..k][0] == b[0];
        }
      } else {
        LessExactly(a[1..], b[1..]);
        forall k | 0 <= k < |b| - 1 ensures PartsAt(a, b, k + 1) <==> PartsAt(a[1..], b[1..], k) {
          if k < |a| { SamePrefix(a, b, k); }
        }
        if Before(a, b) {
          var k :| 0 <= k < |b| && PartsAt(a, b, k);
          assert PartsAt(a[1..], b[1..], k - 1);
        }
        if Before(a[1..], b[1..]) {
          var k :| 0 <= k < |b| - 1 && PartsAt(a[1..], b[1..], k);
          assert PartsAt(a, b, k + 1);
        }
      }
    }
  }

  lemma SamePrefix(a: Text, b: Text, k: nat)
    requires a != [] && b != [] && a[0] == b[0] && k < |a| && k < |b|
    ensures a[..k + 1] == b[..k + 1] <==> a[1..][..k] == b[1..][..k]
  {
    assert a[..k + 1] == [a[0]] + a[1..][..k] && b[..k + 1] == [b[0]] + b[1..][..k];
    assert a[..k + 1][1..] == a[1..][..k] && b[..k + 1][1..] == b[1..][..k];
  }

  predicate Sorted(s: seq<Param>) {
    forall i, j | 0 <= i < j < |s| :: !Less(s[j].key, s[i].key)
  }

  /** Each key equals the next ones or comes before them. */
  predicate Ordered(s: seq<Param>) {
    forall i, j | 0 <= i < j < |s| :: s[i].key == s[j].key || Before(s[i].key, s[j].key)
  }

  lemma SortedIsOrdered(s: seq<Param>)
    ensures Sorted(s) <==> Ordered(s)
  {
    hide Less, Before;
    forall i, j | 0 <= i < j < |s|
      ensures !Less(s[j].key, s[i].key) <==> s[i].key == s[j].key || Before(s[i].key, s[j].key)
    {
      LessTotal(s[i].key, s[j].key);
      LessExactly(s[i].key, s[j].key);
    }
  }

  // ---------------------------------------------------------------- a stable sort by key

  /** Before the first entry whose key is not smaller. */
  function Insert(x: Param, s: seq<Param>): seq<Param> {
    if s == [] || !Less(s[0].key, x.key) then [x] + s else [s[0]] + Insert(x, s[1..])
  }

  /** qpairs.sort(...): the order of entries with equal keys is kept. */
  function Sort(s: seq<Param>): seq<Param> { if s == [] then [] else Insert(s[0], Sort(s[1..])) }

  /** The entries of one key, in order. */
  function Of(s: seq<Param>, key: Text): seq<Param> {
    if s == [] then [] else (if s[0].key == key then [s[0]] else []) + Of(s[1..], key)
  }

  function One(x: Param, key: Text): seq<Param> { if x.key == key then [x] else [] }

  lemma OfHead(x: Param, s: seq<Param>, key: Text)
    ensures Of([x] + s, key) == One(x, key) + Of(s, key)
  {
    assert ([x] + s)[1..] == s;
  }

  lemma {:induction false} InsertMembers(x: Param, s: seq<Param>)
    ensures multiset(Insert(x, s)) == multiset{x} + multiset(s)
  {
    hide Less;
    if s != [] && Less(s[0].key, x.key) {
      InsertMembers(x, s[1..]);
      assert s == [s[0]] + s[1..];
    }
  }

  lemma InsertLater(x: Param, s: seq<Param>)
    requires s != [] && Less(s[0].key, x.key)
    ensures Insert(x, s) == [s[0]] + Insert(x, s[1..]) && s == [s[0]] + s[1..] && s[0].key != x.key
  {
    LessTotal(x.key, x.key);
    hide Less;
  }

  lemma {:induction false} InsertKeeps(x: Param, s: seq<Param>, key: Text)
    ensures Of(Insert(x, s), key) == One(x, key) + Of(s, key)
  {
    hide Less, Of;
    if s == [] || !Less(s[0].key, x.key) {
      OfHead(x, s, key);
    } else {
      InsertKeeps(x, s[1..], key);
      InsertLater(x, s);
      OfHead(s[0], Insert(x, s[1..]), key);
      OfHead(s[0], s[1..], key);
      hide Insert;
      Swap(One(s[0], key), One(x, key), Of(s[1..], key));
    }
  }

  lemma Swap(a: seq<Param>, b: seq<Param>, c: seq<Param>)
    ensures a == [] || b == [] ==> a + (b + c) == b + (a + c)
  {
    assert [] + (b + c) == b + c && [] + c == c;
  }

  lemma {:induction false} InsertSorted(x: Param, s: seq<Param>)
    requires Sorted(s)
    ensures Sorted(Insert(x, s))
  {
    var t := Insert(x, s);
    if s == [] {
    } else if !Less(s[0].key, x.key) {
      forall j | 0 <= j < |s| ensures !Less(s[j].key, x.key) {
        if j > 0 { LessTrans(x.key, s[0].key, s[j].key); }
      }
    } else {
      InsertSorted(x, s[1..]);
      InsertMembers(x, s[1..]);
      LessTotal(s[0].key, x.key);
      var rest := Insert(x, s[1..]);
      forall j | 0 <= j < |rest| ensures !Less(rest[j].key, s[0].key) {
        assert rest[j] in multiset(rest);
        assert rest[j] == x || rest[j] in s[1..];
      }
    }
    hide Less;
  }

  lemma {:induction false} SortKeeps(s: seq<Param>, key: Text)
    ensures Sorted(Sort(s)) && multiset(Sort(s)) == multiset(s) && Of(Sort(s), key) == Of(s, key)
  {
    if s != [] {
      SortKeeps(s[1..], key);
      InsertSorted(s[0], Sort(s[1..]));
      InsertKeeps(s[0], Sort(s[1..]), key);
      InsertMembers(s[0], Sort(s[1..]));
      OfHead(s[0], s[1..], key);
      assert s == [s[0]] + s[1..];
      hide Insert, Sorted, Of;
    }
  }

  /** THE SORT IS BY KEY, STABLE, AND LOSES NOTHING: keys come in the order of their UTF-16 units, the entries are the same, and
      those of one key keep their order. */
  lemma SortIsStable(s: seq<Param>, key: Text)
    ensures Ordered(Sort(s)) && multiset(Sort(s)) == multiset(s) && Of(Sort(s), key) == Of(s, key)
  {
    SortKeeps(s, key);
    SortedIsOrdered(Sort(s));
    hide Sort, Sorted, Ordered, Of;
  }

  // ---------------------------------------------------------------- independence of the order

  /** Equal keys only with equal values. */
  predicate Consistent(s: seq<Param>) {
    forall i, j | 0 <= i < j < |s| :: s[i].key == s[j].key ==> s[i] == s[j]
  }

  lemma FirstIsLeast(a: seq<Param>, b: seq<Param>)
    requires Sorted(b) && a != [] && a[0] in b
    ensures !Less(a[0].key, b[0].key)
  {
    LessTotal(a[0].key, a[0].key);
    var i :| 0 <= i < |b| && b[i] == a[0];
    assert i > 0 ==> !Less(b[i].key, b[0].key);
    hide Less;
  }

  lemma SameMembers(a: seq<Param>, b: seq<Param>, x: Param)
    requires multiset(a) == multiset(b)
    ensures x in a <==> x in b
    ensures |a| == |b|
  {
    assert x in multiset(a) <==> x in multiset(b);
    assert |multiset(a)| == |multiset(b)|;
  }

  lemma SameTails(a: seq<Param>, b: seq<Param>)
    requires multiset(a) == multiset(b) && a != [] && b != [] && a[0] == b[0]
    ensures multiset(a[1..]) == multiset(b[1..])
  {
    assert a == [a[0]] + a[1..] && b == [b[0]] + b[1..];
    assert multiset(a[1..]) == multiset(a) - multiset{a[0]};
    assert multiset(b[1..]) == multiset(b) - multiset{b[0]};
  }

  /** A consistent multiset of entries has only one sorted arrangement, whatever sorts it. */
  lemma {:induction false} SortedIsUnique(a: seq<Param>, b: seq<Param>)
    requires Sorted(a) && Sorted(b) && multiset(a) == multiset(b) && Consistent(a)
    ensures a == b
  {
    if a == [] {
      SameMembers(a, b, Param([], []));
    } else {
      hide Less;
      SameMembers(a, b, a[0]);
      SameMembers(a, b, b[0]);
      FirstIsLeast(a, b);
      FirstIsLeast(b, a);
      LessTotal(a[0].key, b[0].key);
      var j :| 0 <= j < |a| && a[j] == b[0];
      assert a[0] == b[0];
      SameTails(a, b);
      SortedIsUnique(a[1..], b[1..]);
      assert a == [a[0]] + a[1..] && b == [b[0]] + b[1..];
    }
  }

  lemma {:induction false} OfConcat(a: seq<Param>, b: seq<Param>, key: Text)
    ensures Of(a + b, key) == Of(a, key) + Of(b, key)
  {
    if a == [] {
      assert a + b == b;
    } else {
      assert a + b == [a[0]] + (a[1..] + b) && a == [a[0]] + a[1..];
      OfConcat(a[1..], b, key);
      OfHead(a[0], a[1..] + b, key);
      OfHead(a[0], a[1..], key);
      hide Of;
    }
  }

  /** Where entry i stands among the entries of its key. */
  lemma OfAt(s: seq<Param>, i: nat)
    requires i < |s|
    ensures var k := |Of(s[..i], s[i].key)|; k < |Of(s, s[i].key)| && Of(s, s[i].key)[k] == s[i]
  {
    assert s == s[..i] + s[i..];
    OfConcat(s[..i], s[i..], s[i].key);
    assert Of(s[i..], s[i].key)[0] == s[i];
  }

  /** Two different entries with one key: exchanging them changes the sorted order. */
  lemma ExchangeShows(s: seq<Param>, i: nat, j: nat)
    requires i < j < |s| && s[i].key == s[j].key && s[i] != s[j]
    ensures var t := s[i := s[j]][j := s[i]]; multiset(t) == multiset(s) && Sort(t) != Sort(s)
  {
    var t := s[i := s[j]][j := s[i]];
    var key := s[i].key;
    assert t[..i] == s[..i] && t[i] == s[j];
    SortKeeps(s, key);
    SortKeeps(t, key);
    OfAt(s, i);
    OfAt(t, i);
    hide Sort, Of, Sorted;
  }

  // ---------------------------------------------------------------- the string

  function PairText(p: Param): Text { EncodeUri(p.key, true) + [EQUALS] + EncodeUri(p.value, true) }

  /** map(...).join("&") */
  function Join(s: seq<Param>): Text {
    if s == [] then [] else if |s| == 1 then PairText(s[0]) else PairText(s[0]) + [AMPERSAND] + Join(s[1..])
  }

  function Canonical(s: seq<Param>): Text { Join(Sort(s)) }

  lemma {:induction false} EscapedHasNo(t: Text)
    requires Escaped(t, true)
    ensures AMPERSAND !in t && EQUALS !in t
    decreases |t|
  {
    if t != [] {
      if IsLiteral(t[0], true) && Escaped(t[1..], true) {
        EscapedHasNo(t[1..]);
        assert t == [t[0]] + t[1..];
      } else {
        EscapedHasNo(t[3..]);
        assert t == [t[0], t[1], t[2]] + t[3..];
      }
      hide Escaped;
    }
  }

  /** Splitting at the first c is unambiguous. */
  lemma SplitAt(a: Text, b: Text, x: Text, y: Text, c: Unit)
    requires c !in a && c !in b && a + [c] + x == b + [c] + y
    ensures a == b && x == y
  {
    var s, t := a + [c] + x, b + [c] + y;
    assert s[|a|] == c && t[|b|] == c && (forall i | 0 <= i < |a| :: s[i] == a[i]) && (forall i | 0 <= i < |b| :: t[i] == b[i]);
    assert |a| == |b|;
    assert s[..|a|] == a && t[..|b|] == b && s[|a| + 1..] == x && t[|b| + 1..] == y;
  }

  /** A string with every high surrogate followed by the low surrogate its encoding implies. */
  function Completed(s: Text): Text {
    if s == [] then [] else (if IsHigh(s[0]) then [s[0], 0xdc00] else [s[0]]) + Completed(s[1..])
  }

  lemma {:induction false} UnitBytesDecode(s: Text)
    ensures Decode(UnitBytes(s)) == Completed(s)
  {
    if s != [] {
      hide Encode, Decode, Short, Long, Joined, IsHigh;
      UnitBytesDecode(s[1..]);
      EncodeOne(s[0]);
      if IsHigh(s[0]) {
        DecodeLong(s[0], 0, UnitBytes(s[1..]));
      } else {
        DecodeShort(s[0], UnitBytes(s[1..]));
      }
    } else {
      assert Decode([]) == [];
    }
  }

  lemma {:induction false} CompletedInjective(s: Text, t: Text)
    requires Completed(s) == Completed(t)
    ensures s == t
  {
    hide IsHigh;
    if s != [] && t != [] {
      assert Completed(s)[0] == s[0] && Completed(t)[0] == t[0];
      var n := if IsHigh(s[0]) then 2 else 1;
      assert Completed(s)[n..] == Completed(s[1..]) && Completed(t)[n..] == Completed(t[1..]);
      CompletedInjective(s[1..], t[1..]);
      assert s == [s[0]] + s[1..] && t == [t[0]] + t[1..];
    }
  }

  /** No two strings have the same encoding, surrogates or not. */
  lemma UriInjective(s: Text, t: Text)
    requires EncodeUri(s, true) == EncodeUri(t, true)
    ensures s == t
  {
    hide *;
    DecodeUri(s, true);
    DecodeUri(t, true);
    UnitBytesDecode(s);
    UnitBytesDecode(t);
    CompletedInjective(s, t);
  }

  lemma PairInjective(p: Param, q: Param)
    requires PairText(p) == PairText(q)
    ensures p == q
  {
    hide EncodeUri;
    NoMarks(p);
    NoMarks(q);
    SplitAt(EncodeUri(p.key, true), EncodeUri(q.key, true), EncodeUri(p.value, true), EncodeUri(q.value, true), EQUALS);
    UriInjective(p.key, q.key);
    UriInjective(p.value, q.value);
  }

  lemma NoMarks(p: Param)
    ensures EQUALS !in EncodeUri(p.key, true) && AMPERSAND !in PairText(p) && PairText(p) != []
  {
    hide EncodeUri;
    OutputIsEscaped(p.key, true);
    OutputIsEscaped(p.value, true);
    EscapedHasNo(EncodeUri(p.key, true));
    EscapedHasNo(EncodeUri(p.value, true));
    hide Escaped;
  }

  /** No two lists of entries have the same query string. */
  lemma {:induction false} JoinInjective(s: seq<Param>, t: seq<Param>)
    requires Join(s) == Join(t)
    ensures s == t
  {
    hide PairText;
    if s != [] { NoMarks(s[0]); }
    if t != [] { NoMarks(t[0]); }
    if s != [] && t != [] {
      JoinAnd(s);
      JoinAnd(t);
      if |s| > 1 && |t| > 1 {
        SplitAt(PairText(s[0]), PairText(t[0]), Join(s[1..]), Join(t[1..]), AMPERSAND);
        JoinInjective(s[1..], t[1..]);
        PairInjective(s[0], t[0]);
        assert s == [s[0]] + s[1..] && t == [t[0]] + t[1..];
      } else if |s| == 1 && |t| == 1 {
        PairInjective(s[0], t[0]);
      }
    }
  }

  lemma JoinAnd(s: seq<Param>)
    requires s != []
    ensures AMPERSAND in Join(s) <==> |s| > 1
  {
    hide PairText;
    NoMarks(s[0]);
    if |s| > 1 {
      assert Join(s)[|PairText(s[0])|] == AMPERSAND;
    }
  }

  /** THE CANONICAL QUERY DOES NOT DEPEND ON THE ORDER of the parameters exactly when no key occurs with two
      different values. */
  lemma CanonicalIffConsistent(s: seq<Param>)
    ensures (forall t | multiset(t) == multiset(s) :: Canonical(t) == Canonical(s)) <==> Consistent(s)
  {
    hide Sort, Join, Sorted;
    if Consistent(s) {
      forall t | multiset(t) == multiset(s) ensures Canonical(t) == Canonical(s) {
        SortKeeps(s, []);
        SortKeeps(t, []);
        ConsistentSort(s);
        SortedIsUnique(Sort(s), Sort(t));
      }
    } else {
      var i, j :| 0 <= i < j < |s| && s[i].key == s[j].key && s[i] != s[j];
      ExchangeShows(s, i, j);
      var t := s[i := s[j]][j := s[i]];
      if Canonical(t) == Canonical(s) {
        JoinInjective(Sort(t), Sort(s));
      }
      assert multiset(t) == multiset(s) && Canonical(t) != Canonical(s);
    }
  }

  lemma ConsistentSort(s: seq<Param>)
    requires Consistent(s)
    ensures Consistent(Sort(s))
  {
    hide Sort, Sorted;
    SortKeeps(s, []);
    var t := Sort(s);
    forall i, j | 0 <= i < j < |t| && t[i].key == t[j].key ensures t[i] == t[j] {
      assert t[i] in multiset(s) && t[j] in multiset(s);
      var m :| 0 <= m < |s| && s[m] == t[i];
      var n :| 0 <= n < |s| && s[n] == t[j];
    }
  }

  // ---------------------------------------------------------------- the query read back

  /** What stands before the first c, and behind it. */
  function Front(t: Text, c: Unit): Text { t[..IndexOf(t, c)] }

  function Back(t: Text, c: Unit): Text { if IndexOf(t, c) < |t| then t[IndexOf(t, c) + 1..] else [] }

  lemma CutAt(a: Text, c: Unit, b: Text)
    requires c !in a
    ensures Front(a + [c] + b, c) == a && Back(a + [c] + b, c) == b && Front(a, c) == a && Back(a, c) == []
  {
    var t := a + [c] + b;
    assert t[|a|] == c && forall i | 0 <= i < |a| :: t[i] == a[i];
    assert IndexOf(t, c) == |a|;
    assert IndexOf(a, c) == |a|;
  }

  /** The parameters of a query string: split at each `&`, and each of them at its first `=`, then percent-decoded. */
  function ReadQuery(t: Text): seq<(seq<int>, seq<int>)>
    decreases |t|
  {
    if t == [] then []
    else
      var p := Front(t, '&' as int);
      [(PercentDecode(Front(p, '=' as int)), PercentDecode(Back(p, '=' as int)))]
      + (if |Back(t, '&' as int)| < |t| then ReadQuery(Back(t, '&' as int)) else [])
  }

  /** The UTF-8 of the keys and values, unit by unit. */
  function Octets(s: seq<Param>): seq<(seq<int>, seq<int>)> {
    if s == [] then [] else [(UnitBytes(s[0].key), UnitBytes(s[0].value))] + Octets(s[1..])
  }

  lemma ReadPair(p: Param)
    ensures PercentDecode(Front(PairText(p), '=' as int)) == UnitBytes(p.key)
    ensures PercentDecode(Back(PairText(p), '=' as int)) == UnitBytes(p.value)
  {
    NoMarks(p);
    assert EQUALS == '=' as int;
    hide EncodeUri, PercentDecode, UnitBytes, Front, Back;
    CutAt(EncodeUri(p.key, true), EQUALS, EncodeUri(p.value, true));
    DecodeUri(p.key, true);
    DecodeUri(p.value, true);
  }

  /** THE QUERY STRING SPELLS THE PARAMETERS in the order given: each key before its value. */
  lemma {:induction false} QueryReadBack(s: seq<Param>)
    ensures ReadQuery(Join(s)) == Octets(s)
  {
    if s != [] {
      NoMarks(s[0]);
      ReadPair(s[0]);
      QueryReadBack(s[1..]);
      assert AMPERSAND == '&' as int;
      var front := PairText(s[0]);
      CutAt(front, AMPERSAND, Join(s[1..]));
      hide PairText, PercentDecode, UnitBytes, Front, Back;
      if |s| == 1 {
        assert Octets(s[1..]) == [];
      } else {
        JoinFront(s);
      }
    }
  }

  lemma JoinFront(s: seq<Param>)
    requires |s| > 1
    ensures Join(s) == PairText(s[0]) + [AMPERSAND] + Join(s[1..]) && Join(s[1..]) != []
  {
    NoMarks(s[1]);
    hide PairText;
  }

  /** The canonical query holds unreserved characters, escapes, `=` and `&`: a slash in a parameter is escaped. */
  lemma {:induction false} QueryAlphabet(s: seq<Param>, c: Unit)
    requires c in Join(s)
    ensures IsUnreserved(c) || c == '%' as int || c == '=' as int || c == '&' as int
  {
    hide EncodeUri, IsUnreserved;
    if s != [] {
      if c in PairText(s[0]) { PairAlphabet(s[0], c); }
      hide PairText;
      if |s| > 1 && c in Join(s[1..]) {
        QueryAlphabet(s[1..], c);
      }
    }
  }

  lemma PairAlphabet(p: Param, c: Unit)
    requires c in PairText(p)
    ensures IsUnreserved(c) || c == '%' as int || c == '=' as int
  {
    hide EncodeUri, IsUnreserved, IsLiteral;
    OutputIsEscaped(p.key, true);
    OutputIsEscaped(p.value, true);
    if c in EncodeUri(p.key, true) { EscapedAlphabet(EncodeUri(p.key, true), c); }
    if c in EncodeUri(p.value, true) { EscapedAlphabet(EncodeUri(p.value, true), c); }
  }

  lemma {:induction false} EscapedAlphabet(t: Text, c: Unit)
    requires Escaped(t, true) && c in t
    ensures IsUnreserved(c) || c == '%' as int
    decreases |t|
  {
    if IsLiteral(t[0], true) && Escaped(t[1..], true) {
      assert t == [t[0]] + t[1..];
      if c in t[1..] { EscapedAlphabet(t[1..], c); }
    } else {
      assert t == [t[0], t[1], t[2]] + t[3..];
      if c in t[3..] { EscapedAlphabet(t[3..], c); }
    }
  }

  lemma SortTwo(p: Param, q: Param)
    requires Less(q.key, p.key)
    ensures Canonical([p, q]) == PairText(q) + [AMPERSAND] + PairText(p)
  {
    assert [p, q][1..] == [q] && [q][1..] == [] && [q, p][1..] == [p];
    hide PairText, Less;
    assert Sort([]) == [] && Insert(q, []) == [q] && Sort([q]) == [q];
    assert Insert(p, []) == [p] && Insert(p, [q]) == [q] + [p] && [q] + [p] == [q, p];
    assert Sort([p, q]) == [q, p];
    assert Join([p]) == PairText(p);
  }

  /** Two parameters given in the wrong order, `b=x&a=y`. */
  lemma TwoParameters(x: Text, y: Text)
    ensures Canonical([Param(T("b"), x), Param(T("a"), y)]) == T("a=") + EncodeUri(y, true) + T("&b=") + EncodeUri(x, true)
  {
    var a, b := T("a"), T("b");
    assert a == [0x61] && b == [0x62] && T("a=") == [0x61, 0x3d] && T("&b=") == [0x26, 0x62, 0x3d];
    assert Less(a, b);
    KeptExactly(a, true);
    KeptExactly(b, true);
    hide EncodeUri, T, Canonical, Less;
    SortTwo(Param(b, x), Param(a, y));
    PairTextIs(Param(a, y));
    PairTextIs(Param(b, x));
    hide PairText;
    assert a + [EQUALS] == T("a=") && [AMPERSAND] + (b + [EQUALS]) == T("&b=");
    Nested(T("a=") + EncodeUri(y, true), [AMPERSAND], b + [EQUALS], EncodeUri(x, true));
  }

  lemma PairTextIs(p: Param)
    ensures PairText(p) == EncodeUri(p.key, true) + [EQUALS] + EncodeUri(p.value, true)
  {
    hide EncodeUri;
  }

  lemma Nested<X>(a: seq<X>, b: seq<X>, c: seq<X>, d: seq<X>)
    ensures a + b + (c + d) == a + (b + c) + d
  {
  }
}
