/** Elements and slices of sequences. */
module Sequences {

  ghost predicate NoDuplicates(s: seq<nat>) {
    forall i, j :: 0 <= i < j < |s| ==> s[i] != s[j]
  }

  ghost function Elems(s: seq<nat>): set<nat> {
    set x | x in s
  }

  lemma SliceOfSlice<T>(s: seq<T>, start: nat, n: nat, done: nat, k: nat)
    requires start + n <= |s| && done + k <= n
    ensures s[start..start + n][done..done + k] == s[start + done..start + done + k]
  {
    var whole := s[start..start + n];
    var part, direct := whole[done..done + k], s[start + done..start + done + k];
    forall x | 0 <= x < k
      ensures part[x] == direct[x]
    {
      assert part[x] == whole[done + x];
    }
  }

  lemma SliceSplits<T>(s: seq<T>, lo: nat, mid: nat, hi: nat)
    requires lo <= mid <= hi <= |s|
    ensures s[lo..hi] == s[lo..mid] + s[mid..hi]
  {
  }

  lemma SliceBehind<T>(a: seq<T>, b: seq<T>, lo: nat, hi: nat)
    requires lo <= hi <= |b|
    ensures (a + b)[|a| + lo..|a| + hi] == b[lo..hi]
  {
    var part, direct := (a + b)[|a| + lo..|a| + hi], b[lo..hi];
    forall x | 0 <= x < hi - lo
      ensures part[x] == direct[x]
    {
      assert part[x] == (a + b)[|a| + (lo + x)];
    }
  }
}
