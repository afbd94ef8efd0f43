/** The few value types and string helpers every other module shares. */
module Strings {

  datatype Option<+T> = None | Some(value: T)

  /** `strings.CutPrefix(name, "*.")`: the base name, and whether the wildcard label was there. */
  function CutWildcard(name: string): (r: (string, bool))
  {
    if |name| >= 2 && name[0] == '*' && name[1] == '.' then (name[2..], true) else (name, false)
  }

  /** The name has a wildcard label. */
  predicate IsWildcard(name: string) {
    |name| >= 2 && name[0] == '*' && name[1] == '.'
  }

  lemma WildcardIsCut(name: string)
    ensures CutWildcard(name).1 == IsWildcard(name)
    ensures name == if CutWildcard(name).1 then "*." + CutWildcard(name).0 else CutWildcard(name).0
  {
    if CutWildcard(name).1 { assert name[..2] == "*." && name == name[..2] + name[2..]; }
  }

  /** A name is recovered from its base and its wildcard flag, so distinct names give distinct pairs. */
  lemma CutWildcardInjective(a: string, b: string)
    requires CutWildcard(a) == CutWildcard(b)
    ensures a == b
  {
    assert |a| >= 2 ==> a == a[..2] + a[2..];
    assert |b| >= 2 ==> b == b[..2] + b[2..];
    if CutWildcard(a).1 {
      assert a[..2] == "*." == b[..2];
    }
  }

  predicate IsDigit(c: char) {
    '0' <= c <= '9'
  }

  predicate AllDigits(s: string) {
    forall c <- s :: IsDigit(c)
  }

  lemma SubsetIsSmaller<T>(a: set<T>, b: set<T>)
    requires a <= b
    ensures |a| <= |b|
  {
    assert b == a + (b - a);
  }

  predicate NoDuplicates<T(==)>(s: seq<T>) {
    forall i, j :: 0 <= i < j < |s| ==> s[i] != s[j]
  }
}
