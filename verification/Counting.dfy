/** Counting the entries of a sequence of numbers. */
module Counting {
  /** The numbers below n, in order. */
  function Upto(n: nat): seq<nat> {
    if n == 0 then [] else Upto(n - 1) + [n - 1]
  }

  lemma {:induction false} UptoCounts(n: nat, t: nat)
    ensures multiset(Upto(n))[t] == if t < n then 1 else 0
  {
    if n > 0 {
      UptoCounts(n - 1, t);
      var before: seq<nat>, last: nat := Upto(n - 1), n - 1;
      assert multiset(before + [last]) == multiset(before) + multiset{last};
    }
  }

  lemma TwiceCounts(a: seq<nat>, i: nat, j: nat)
    requires i < j < |a| && a[i] == a[j]
    ensures multiset(a)[a[i]] >= 2
  {
    assert a == a[..j] + a[j..];
    assert a[i] in multiset(a[..j]) by { assert a[..j][i] == a[i]; }
    assert a[i] in multiset(a[j..]) by { assert a[j..][0] == a[i]; }
  }

  lemma UptoSnoc(n: nat)
    ensures Upto(n + 1) == Upto(n) + [n]
  {
  }

  lemma CountsSnoc(a: seq<nat>, x: nat)
    ensures multiset(a + [x]) == multiset(a) + multiset{x}
  {
  }

  lemma CountsCons(x: nat, a: seq<nat>)
    ensures multiset([x] + a) == multiset{x} + multiset(a)
  {
  }
}
