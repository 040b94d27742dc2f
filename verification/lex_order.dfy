/**
 The order behind Swift's `<` and `>` on strings, taken here as plain
 lexicographic order on characters: compare position by position, and a proper
 prefix comes first.
 */
module LexOrder {

  /** The length of the longest common prefix of `a` and `b`: the position of
      their first difference, if any. */
  function CommonPrefix(a: string, b: string): (k: nat)
    ensures k <= |a| && k <= |b| && a[..k] == b[..k]
    ensures k < |a| && k < |b| ==> a[k] != b[k]
  {
    if |a| == 0 || |b| == 0 || a[0] != b[0] then
      0
    else
      var k' := CommonPrefix(a[1..], b[1..]);
      assert a[..k' + 1] == [a[0]] + a[1..][..k'];
      assert b[..k' + 1] == [b[0]] + b[1..][..k'];
      k' + 1
  }

  /** The order read off at the first difference: `a` comes first when it ends
      there while `b` goes on, or when its character there is the smaller. */
  predicate BeforeAtFirstDifference(a: string, b: string) {
    var k := CommonPrefix(a, b);
    k < |b| && (k == |a| || a[k] < b[k])
  }

  /** `a < b` on strings, compared character by character. */
  predicate Less(a: string, b: string)
    decreases |a|
  {
    if |a| == 0 then |b| > 0
    else if |b| == 0 then false
    else if a[0] != b[0] then a[0] < b[0]
    else Less(a[1..], b[1..])
  }

  /** `a < b` holds exactly when `a` is a proper prefix of `b`, or `a` has the
      smaller character at the first position where the two differ. */
  lemma {:induction false} LessAtFirstDifference(a: string, b: string)
    ensures Less(a, b) <==> BeforeAtFirstDifference(a, b)
    decreases |a|
  {
    if |a| > 0 && |b| > 0 && a[0] == b[0] {
      LessAtFirstDifference(a[1..], b[1..]);
    }
  }

  /** `s1 > s2` on strings. */
  predicate Greater(s1: string, s2: string): (r: bool)
    ensures r <==> BeforeAtFirstDifference(s2, s1)
  {
    LessAtFirstDifference(s2, s1);
    Less(s2, s1)
  }

  lemma {:induction false} LessIrreflexive(a: string)
    ensures !Less(a, a)
  {
    if |a| > 0 {
      LessIrreflexive(a[1..]);
    }
  }

  lemma {:induction false} LessAsymmetric(a: string, b: string)
    requires Less(a, b)
    ensures !Less(b, a)
  {
    if |a| > 0 && |b| > 0 && a[0] == b[0] {
      LessAsymmetric(a[1..], b[1..]);
    }
  }

  lemma {:induction false} LessTransitive(a: string, b: string, c: string)
    requires Less(a, b) && Less(b, c)
    ensures Less(a, c)
  {
    if |a| > 0 && a[0] == b[0] && b[0] == c[0] {
      LessTransitive(a[1..], b[1..], c[1..]);
    }
  }

  /** Any two different strings are ordered one way or the other. */
  lemma {:induction false} LessConnected(a: string, b: string)
    requires a != b
    ensures Less(a, b) || Less(b, a)
  {
    if |a| > 0 && |b| > 0 && a[0] == b[0] {
      assert a == [a[0]] + a[1..] && b == [b[0]] + b[1..];
      LessConnected(a[1..], b[1..]);
    }
  }
}
