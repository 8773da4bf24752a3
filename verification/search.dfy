/**
 * Forward pattern search with wrap-around (addrRegexp, codewalk.go:470-495).
 * The regular-expression engine itself is a parameter: whether a pattern
 * compiles, and the leftmost match of a compiled pattern in a byte string.
 */
module Search {
  import opened Wrappers
  import opened Buffer
  import opened Stepper

  /** A match [lo, hi), if any, lies inside the text it was found in. */
  predicate Fits(m: Option<Range>, text: seq<Byte>) {
    m.Some? ==> m.value.lo <= m.value.hi <= |text|
  }

  /** The leftmost match of a pattern in a byte string (regexp.FindIndex). */
  type Finder = find: (string, seq<Byte>) -> Option<Range> | forall p, t :: Fits(find(p, t), t)
    witness (p: string, t: seq<Byte>) => None

  /**
   * Search for pattern from hi to the end of the buffer and, failing that
   * with hi > 0, once more from the start. A pattern that does not compile
   * fails first; a backward search fails next.
   */
  function AddrRegexp(compiles: string -> bool, find: Finder, data: seq<Byte>, hi: nat, dir: Dir, pattern: string)
    : (r: Result<Range, AddrError>)
    requires hi <= |data|
    ensures !compiles(pattern) ==> r == Err(BadPattern(pattern))
    ensures compiles(pattern) && dir == Bwd ==> r == Err(ReverseSearch)
    ensures r.Ok? ==> r.value.lo <= r.value.hi <= |data|
    ensures r.Ok? ==>
      || (hi <= r.value.lo && find(pattern, data[hi..]) == Some(Range(r.value.lo - hi, r.value.hi - hi)))
      || (0 < hi && find(pattern, data[hi..]).None? && find(pattern, data) == Some(Range(r.value.lo, r.value.hi)))
    ensures compiles(pattern) && dir != Bwd && find(pattern, data[hi..]).Some? ==> r.Ok? && hi <= r.value.lo
    ensures r.Err? && compiles(pattern) && dir != Bwd ==>
      r.error == NoMatch(pattern) && find(pattern, data[hi..]).None? && (hi == 0 || find(pattern, data).None?)
  {
    if !compiles(pattern) then Err(BadPattern(pattern))
    else if dir == Bwd then Err(ReverseSearch)
    else
      match find(pattern, data[hi..])
      case Some(m) =>
        assert Fits(find(pattern, data[hi..]), data[hi..]);
        Ok(Range(m.lo + hi, m.hi + hi))
      case None =>
        if hi > 0 then
          match find(pattern, data)
          case Some(m) =>
            assert Fits(find(pattern, data), data);
            Ok(Range(m.lo, m.hi))
          case None => Err(NoMatch(pattern))
        else Err(NoMatch(pattern))
  }
}
