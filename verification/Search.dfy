/** Linear search, shared by the models that look a row up by its key. */
module Search {

  /** The first position that satisfies `p`, or the length. */
  function FirstIndex<T>(items: seq<T>, p: T -> bool): (i: nat)
    ensures i <= |items|
    ensures i < |items| ==> p(items[i])
    ensures forall j :: 0 <= j < i ==> !p(items[j])
  {
    if items == [] || p(items[0]) then 0 else 1 + FirstIndex(items[1..], p)
  }
}
