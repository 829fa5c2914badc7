/** Small vocabulary shared by the other modules. */
module Basics {

  datatype Option<+T> = None | Some(value: T) {
    function GetOr(default: T): T {
      match this
      case Some(v) => v
      case None => default
    }
  }

  lemma Assoc<X>(a: seq<X>, b: seq<X>, c: seq<X>)
    ensures a + b + c == a + (b + c)
  {
  }

  predicate HasPrefix<X(==)>(s: seq<X>, p: seq<X>) { |p| <= |s| && s[..|p|] == p }

  lemma Starts<X>(p: seq<X>, rest: seq<X>)
    ensures HasPrefix(p + rest, p) && (p + rest)[|p|..] == rest
  {
  }

  lemma Differs<X>(s: seq<X>, p: seq<X>, i: nat)
    requires i < |p| && (i < |s| ==> s[i] != p[i])
    ensures !HasPrefix(s, p)
  {
    assert |p| <= |s| ==> s[..|p|][i] == s[i];
  }
}
