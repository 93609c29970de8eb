/** Facts about sequences that proofs elsewhere name. */
module Sequences {
  lemma Associate<T>(x: seq<T>, y: seq<T>, z: seq<T>)
    ensures x + (y + z) == x + y + z
  {
  }

  lemma NothingBefore<T>(x: seq<T>)
    ensures [] + x == x
  {
  }

  lemma NothingAfter<T>(x: seq<T>)
    ensures x + [] == x
  {
  }

  ghost predicate NoRepeats<T>(xs: seq<T>) {
    forall j, k :: 0 <= j < k < |xs| ==> xs[j] != xs[k]
  }

  lemma NoRepeatsConcat<T>(a: seq<T>, b: seq<T>)
    ensures NoRepeats(a + b) <==> NoRepeats(a) && NoRepeats(b) && forall x :: x in a ==> x !in b
  {
    var all := a + b;
    assert forall k :: 0 <= k < |a| ==> all[k] == a[k];
    assert forall k :: 0 <= k < |b| ==> all[|a| + k] == b[k];
    if NoRepeats(all) {
      forall j, k | 0 <= j < k < |b| ensures b[j] != b[k] {
        assert all[|a| + j] != all[|a| + k];
      }
      forall x | x in a
        ensures x !in b
      {
        var j :| 0 <= j < |a| && a[j] == x;
        forall k | 0 <= k < |b| ensures b[k] != x { assert all[j] != all[|a| + k]; }
      }
    }
    if NoRepeats(a) && NoRepeats(b) && forall x :: x in a ==> x !in b {
      forall j, k | 0 <= j < k < |all|
        ensures all[j] != all[k]
      {
        if j < |a| <= k {
          assert a[j] in a && b[k - |a|] in b;
        }
      }
    }
  }

  lemma PrefixHasNoRepeats<T>(xs: seq<T>)
    requires xs != [] && NoRepeats(xs)
    ensures NoRepeats(xs[..|xs| - 1]) && xs[|xs| - 1] !in xs[..|xs| - 1]
    ensures forall x :: x in xs <==> x in xs[..|xs| - 1] || x == xs[|xs| - 1]
  {
    assert xs == xs[..|xs| - 1] + [xs[|xs| - 1]];
  }
}
