/** Common prefixes of sequences. */
module Prefixes {

  /** Length of the longest common prefix of a and b. */
  function Lcp<T(==)>(a: seq<T>, b: seq<T>): (r: nat)
    ensures r <= |a| && r <= |b| && a[..r] == b[..r]
    ensures r < |a| && r < |b| ==> a[r] != b[r]
  {
    if a == [] || b == [] || a[0] != b[0] then 0
    else
      var r := Lcp(a[1..], b[1..]);
      assert a[..1 + r] == [a[0]] + a[1..][..r];
      assert b[..1 + r] == [b[0]] + b[1..][..r];
      1 + r
  }
}
