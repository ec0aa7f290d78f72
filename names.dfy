/** Character names, the order used to compare them, and the support key
    built from two names (CharacterManager.UnlockSupport and
    CampfireManager.GetSupportKey build it the same way). */
module Names {

  type Name = string

  /** `a.CompareTo(b) < 0`, taken here as the ordinal (code-point)
      lexicographic order: a proper prefix comes first. */
  predicate Less(a: Name, b: Name)
  {
    if a == [] then b != []
    else if b == [] then false
    else if a[0] != b[0] then a[0] < b[0]
    else Less(a[1..], b[1..])
  }

  lemma {:induction false} LessIrreflexive(a: Name)
    ensures !Less(a, a)
  {
    if a != [] {
      LessIrreflexive(a[1..]);
    }
  }

  lemma {:induction false} LessAsymmetric(a: Name, b: Name)
    ensures Less(a, b) ==> !Less(b, a)
  {
    if a != [] && b != [] && a[0] == b[0] {
      LessAsymmetric(a[1..], b[1..]);
    }
  }

  lemma {:induction false} LessTransitive(a: Name, b: Name, c: Name)
    ensures Less(a, b) && Less(b, c) ==> Less(a, c)
  {
    if a != [] && b != [] && c != [] && a[0] == b[0] && b[0] == c[0] {
      LessTransitive(a[1..], b[1..], c[1..]);
    }
  }

  /** Two different names are always ordered one way or the other. */
  lemma {:induction false} LessConnected(a: Name, b: Name)
    ensures a != b ==> Less(a, b) || Less(b, a)
  {
    if a != [] && b != [] && a[0] == b[0] {
      LessConnected(a[1..], b[1..]);
      if a[1..] == b[1..] {
        assert a == [a[0]] + a[1..] && b == [b[0]] + b[1..];
      }
    }
  }

  /** The key of a support conversation: both names concatenated, the one
      that does not sort after the other first. */
  function SupportKey(a: Name, b: Name): Name
  {
    if Less(a, b) then a + b else b + a
  }

  /** The key is one of the two concatenations, and its first name does
      not sort after its second. */
  lemma SupportKeyOrdered(a: Name, b: Name)
    ensures var key := SupportKey(a, b);
      (key == a + b && !Less(b, a)) || (key == b + a && !Less(a, b))
  {
    LessAsymmetric(a, b);
  }

  /** The key does not depend on the order in which the two names are given. */
  lemma SupportKeySymmetric(a: Name, b: Name)
    ensures SupportKey(a, b) == SupportKey(b, a)
  {
    LessAsymmetric(a, b);
    LessConnected(a, b);
  }

  /** With two different names, the smaller one always comes first. */
  lemma SupportKeySmallerFirst(a: Name, b: Name)
    requires Less(a, b)
    ensures SupportKey(a, b) == a + b && SupportKey(b, a) == a + b
  {
    LessAsymmetric(a, b);
  }
}
