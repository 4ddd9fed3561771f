/** Linear scans. Every lookup in the core is a `for _, x := range s`
    loop that returns the first element satisfying a test. */
module Lookup {

  /** Index of the first element of `s` satisfying `p`, or `|s|` when no
      element does. */
  function FirstIndex<T>(s: seq<T>, p: T -> bool): (r: nat)
    ensures r <= |s|
    ensures r < |s| ==> p(s[r])
    ensures forall j :: 0 <= j < r ==> !p(s[j])
    ensures r < |s| <==> exists i :: 0 <= i < |s| && p(s[i])
    decreases |s|
  {
    if |s| == 0 then 0
    else if p(s[0]) then 0
    else 1 + FirstIndex(s[1..], p)
  }
}
