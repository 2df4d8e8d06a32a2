/** Index lists `[0, 1, ..., n - 1]`, the shape of both the canvas's
    `completedNodes` and the literature review's `completedSteps`. */
module Ranges {

  /** `[0, 1, ..., n - 1]`, or `[]` when `n <= 0`. */
  function Upto(n: int): (r: seq<int>)
    ensures |r| == if n <= 0 then 0 else n
    ensures forall i :: 0 <= i < |r| ==> r[i] == i
  {
    if n <= 0 then [] else seq(n, i requires 0 <= i < n => i)
  }

  /** One step more is one element more. */
  lemma UptoSnoc(n: int)
    requires n >= 0
    ensures Upto(n + 1) == Upto(n) + [n]
  {
    var a, b := Upto(n + 1), Upto(n) + [n];
    assert |a| == |b|;
    forall i | 0 <= i < |a|
      ensures a[i] == b[i]
    {
    }
  }
}
