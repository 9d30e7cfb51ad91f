/** Lists that hold the same elements in another order. */
module Sequences {
  lemma {:induction false} CountedTwice<T>(s: seq<T>, x: T) returns (i: nat, j: nat)
    requires multiset(s)[x] >= 2
    ensures i < j < |s| && s[i] == x == s[j]
  {
    assert s == [s[0]] + s[1..];
    if s[0] == x {
      assert x in multiset(s[1..]);
      j :| 0 < j < |s| && s[j] == x by { var k :| 0 <= k < |s[1..]| && s[1..][k] == x; assert s[k + 1] == x; }
      i := 0;
    } else {
      assert multiset(s)[x] == multiset(s[1..])[x];
      i, j := CountedTwice(s[1..], x);
      i, j := i + 1, j + 1;
    }
  }

  lemma TwiceCounted<T>(s: seq<T>, i: nat, j: nat)
    requires i < j < |s| && s[i] == s[j]
    ensures multiset(s)[s[i]] >= 2
  {
    assert s == s[..j] + s[j..];
    assert s[i] == s[..j][i] && s[j] == s[j..][0];
    assert s[i] in multiset(s[..j]) && s[j] in multiset(s[j..]);
  }

  lemma PermutedMembers<T>(a: seq<T>, b: seq<T>)
    requires multiset(a) == multiset(b)
    ensures forall x :: x in a <==> x in b
  {
    forall x ensures x in a <==> x in b { assert x in a <==> x in multiset(a); assert x in b <==> x in multiset(b); }
  }

  /** An element at two places of a list is at two places of every reordering of it. */
  lemma RepeatPermuted<T>(a: seq<T>, b: seq<T>, i: nat, j: nat) returns (k: nat, m: nat)
    requires multiset(a) == multiset(b) && i < j < |a| && a[i] == a[j]
    ensures k < m < |b| && b[k] == a[i] == b[m]
  {
    TwiceCounted(a, i, j);
    k, m := CountedTwice(b, a[i]);
  }
}
