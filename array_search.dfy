/** First-match search over a sequence, as JavaScript's `Array.prototype.findIndex`
    and the document's `getElementById` (the first element in document order) perform it. */
module ArraySearch {

  /** The index of the first element of `s` satisfying `p`, or -1 when none does. */
  function FindIndex<T>(s: seq<T>, p: T -> bool): (r: int)
    ensures -1 <= r < |s|
    ensures r == -1 <==> forall j | 0 <= j < |s| :: !p(s[j])
    ensures 0 <= r ==> p(s[r]) && forall j | 0 <= j < r :: !p(s[j])
  {
    if |s| == 0 then -1
    else if p(s[0]) then 0
    else
      var r := FindIndex(s[1..], p);
      if r == -1 then -1 else r + 1
  }
}
