/** Facts about sequences and their permutations that several modules need. */
module Sequences {

  lemma Reassociate<T>(a: seq<T>, b: seq<T>, c: seq<T>)
    ensures a + (b + c) == (a + b) + c
  {
  }

  lemma HasMember<T>(s: seq<T>)
    ensures s != [] ==> exists x :: x in s
  {
    if s != [] {
      assert s[0] in s;
    }
  }

  lemma PermutationHasSameMembers<T>(a: seq<T>, b: seq<T>)
    requires multiset(a) == multiset(b)
    ensures |a| == |b| && forall x :: x in a <==> x in b
  {
    assert |multiset(a)| == |a| && |multiset(b)| == |b|;
    assert forall x :: x in a <==> x in multiset(a);
    assert forall x :: x in b <==> x in multiset(b);
  }

  /** Takes the last element of a sequence out of a permutation of it. */
  lemma FindLast<T>(front: seq<T>, last: T, b: seq<T>) returns (before: seq<T>, after: seq<T>)
    requires multiset(front + [last]) == multiset(b)
    ensures b == before + ([last] + after) && multiset(front) == multiset(before + after)
  {
    assert last in multiset(front + [last]);
    assert last in b;
    var i :| 0 <= i < |b| && b[i] == last;
    before, after := b[..i], b[i + 1..];
    assert b == before + ([last] + after);
    assert multiset(front) == multiset(front + [last]) - multiset{last};
    assert multiset(before + after) == multiset(before + ([last] + after)) - multiset{last};
  }
}
