/** Ordered, first-match-wins search, the shape of every `for ... of` loop with an early `return` in the script. */
module Search {
  /** The position of the first element satisfying `accepts`, or `|s|` when none does. */
  function FirstIndex<T>(s: seq<T>, accepts: T -> bool): (k: nat)
    ensures k <= |s|
    ensures k < |s| ==> accepts(s[k])
    ensures forall j | 0 <= j < k :: !accepts(s[j])
  {
    if s == [] then 0 else if accepts(s[0]) then 0 else 1 + FirstIndex(s[1..], accepts)
  }

}
