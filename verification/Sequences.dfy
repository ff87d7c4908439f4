/** Equalities between sequences that the proofs name instead of leaving them to be found. */
module Sequences {
  lemma Reassociate<T>(a: seq<T>, b: seq<T>, c: seq<T>)
    ensures (a + b) + c == a + (b + c)
  {
  }

  lemma SliceOfDrop<T>(s: seq<T>, k: nat, a: nat, b: nat)
    requires a <= b && k + b <= |s|
    ensures s[k..][a..b] == s[k + a..k + b]
  {
    var left, right := s[k..][a..b], s[k + a..k + b];
    assert |left| == |right|;
    assert forall i :: 0 <= i < |left| ==> left[i] == s[k + a + i] && right[i] == s[k + a + i];
  }
}
