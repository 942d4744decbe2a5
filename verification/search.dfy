/**
 * First-match search over a sequence, the `foreach … if (…) return` idiom
 * the program uses for attributes, properties and resolved fields.
 */
module Search {
  import opened Wrappers

  /** `i` is the position of the first element of `s` satisfying `p`. */
  ghost predicate IsFirst<T>(s: seq<T>, p: T -> bool, i: int) {
    && 0 <= i < |s|
    && p(s[i])
    && forall j :: 0 <= j < i ==> !p(s[j])
  }

  /** No element of `s` satisfies `p`. */
  ghost predicate NoneMatch<T>(s: seq<T>, p: T -> bool) {
    forall j :: 0 <= j < |s| ==> !p(s[j])
  }

  /** The position of the first element satisfying `p`, scanning from the front. */
  function FirstIndex<T>(s: seq<T>, p: T -> bool): (r: Option<nat>)
    ensures r.Some? ==> IsFirst(s, p, r.value)
    ensures r.None? <==> NoneMatch(s, p)
    decreases |s|
  {
    if |s| == 0 then None
    else if p(s[0]) then Some(0)
    else
      match FirstIndex(s[1..], p)
      case None => None
      case Some(i) => Some(i + 1)
  }

  /** The first element satisfying `p`, or `None` (PHP `null`) when there is none. */
  function Find<T>(s: seq<T>, p: T -> bool): (r: Option<T>)
    ensures r.Some? <==> exists i :: IsFirst(s, p, i)
    ensures forall i | IsFirst(s, p, i) :: r == Some(s[i])
  {
    match FirstIndex(s, p)
    case None => None
    case Some(i) => Some(s[i])
  }

  /** The first match is unique: any position satisfying `IsFirst` is the one `FirstIndex` returns. */
  lemma {:induction false} FirstIndexIsTheFirst<T>(s: seq<T>, p: T -> bool, i: int)
    requires IsFirst(s, p, i)
    ensures FirstIndex(s, p) == Some(i)
  {
  }

  /** Appending to a sequence leaves an existing first match where it was. */
  lemma {:induction false} FirstIndexAppend<T>(s: seq<T>, x: T, p: T -> bool)
    ensures FirstIndex(s + [x], p) ==
      (if FirstIndex(s, p).Some? then FirstIndex(s, p)
       else if p(x) then Some(|s|) else None)
  {
    var t := s + [x];
    match FirstIndex(s, p)
    case Some(i) =>
      assert IsFirst(t, p, i);
      FirstIndexIsTheFirst(t, p, i);
    case None =>
      if p(x) {
        assert IsFirst(t, p, |s|);
        FirstIndexIsTheFirst(t, p, |s|);
      } else {
        assert NoneMatch(t, p);
      }
  }
}
