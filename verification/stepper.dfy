/**
 * Moving a range by a count of lines or runes in a direction
 * (addrNumber, codewalk.go:385-468).
 */
module Stepper {
  import opened Wrappers
  import opened Buffer
  import opened LineIndex

  /** The direction pending in an address: none yet, '+' or '-'. */
  datatype Dir = NoDir | Fwd | Bwd

  /** Why an address could not be resolved. */
  datatype AddrError =
    | InvalidAddress(b: Byte)   // "invalid address syntax near " and the byte read as a rune
    | OutOfRange                // "address out of range"
    | BadPattern(pattern: string)  // the pattern does not compile
    | NoMatch(pattern: string)  // "no match for pattern"
    | ReverseSearch             // "reverse search not implemented"
    | IndexPanic                // an index the Go code takes out of bounds

  /**
   * The byte length of the rune at the head of a non-empty byte string
   * (utf8.DecodeRune's size): at least 1 and at most what is left.
   */
  type Decoder = size: seq<Byte> -> nat | forall s :: 0 < |s| ==> 1 <= size(s) <= |s|
    witness (s: seq<Byte>) => 1

  /** A byte that begins a rune, that is, not a UTF-8 continuation byte 10xxxxxx. */
  predicate IsLead(b: Byte) {
    b & 0xC0 != 0x80
  }

  /** The number of rune-starting bytes in s. */
  function Leads(s: seq<Byte>): nat {
    if |s| == 0 then 0 else Leads(s[..|s| - 1]) + (if IsLead(s[|s| - 1]) then 1 else 0)
  }

  /**
   * Forward over n runes from pos; fails when the buffer ends first
   * (codewalk.go:399-409). Every rune is at least one byte wide.
   */
  function RuneForward(size: Decoder, data: seq<Byte>, pos: nat, n: nat): (r: Option<nat>)
    requires pos <= |data|
    ensures n == 0 ==> r == Some(pos)
    ensures r.Some? ==> pos + n <= r.value <= |data|
    ensures |data| < pos + n ==> r.None?
    decreases n
  {
    if n == 0 then Some(pos)
    else if pos == |data| then None
    else RuneForward(size, data, pos + size(data[pos..]), n - 1)
  }

  /**
   * The forward line scan from hi, lo marking the start of the line being
   * selected: each newline met uses up one of the n lines, the one before
   * last moves lo past itself and the last one ends the range
   * (codewalk.go:420-430).
   */
  function ScanLines(data: seq<Byte>, lo: nat, hi: nat, n: nat): (r: Option<Range>)
    requires lo <= hi <= |data| && 1 <= n
    ensures r.Some? ==> lo <= r.value.lo < r.value.hi <= |data| && hi < r.value.hi
    decreases |data| - hi
  {
    if hi == |data| then None
    else if data[hi] != NL then ScanLines(data, lo, hi + 1, n)
    else if n == 1 then Some(Range(lo, hi + 1))
    else if n == 2 then ScanLines(data, hi + 1, hi + 1, 1)
    else ScanLines(data, lo, hi + 1, n - 1)
  }

  /** The forward scan fails exactly when fewer than n newlines remain from hi. */
  lemma {:induction false} ScanLinesFails(data: seq<Byte>, lo: nat, hi: nat, n: nat)
    requires lo <= hi <= |data| && 1 <= n
    ensures ScanLines(data, lo, hi, n).None? <==> CountNl(data[hi..]) < n
    decreases |data| - hi
  {
    if hi == |data| {
      assert data[hi..] == [];
    } else {
      CountNlStepBack(data, hi, |data|);
      assert data[hi..] == data[hi..|data|] && data[hi + 1..] == data[hi + 1..|data|];
      if data[hi] != NL {
        ScanLinesFails(data, lo, hi + 1, n);
      } else if n == 2 {
        ScanLinesFails(data, hi + 1, hi + 1, 1);
      } else if n > 2 {
        ScanLinesFails(data, lo, hi + 1, n - 1);
      }
    }
  }

  /** A successful forward scan ends just past the n-th newline from hi. */
  lemma {:induction false} ScanLinesEnd(data: seq<Byte>, lo: nat, hi: nat, n: nat)
    requires lo <= hi <= |data| && 1 <= n
    ensures var r := ScanLines(data, lo, hi, n);
      r.Some? ==> data[r.value.hi - 1] == NL && CountNl(data[hi..r.value.hi]) == n
    decreases |data| - hi
  {
    var r := ScanLines(data, lo, hi, n);
    if hi < |data| && r.Some? {
      if data[hi] != NL {
        ScanLinesEnd(data, lo, hi + 1, n);
      } else if n == 1 {
        assert data[hi..hi + 1] == [data[hi]];
        assert [data[hi]][..0] == [];
      } else if n == 2 {
        ScanLinesEnd(data, hi + 1, hi + 1, 1);
      } else {
        ScanLinesEnd(data, lo, hi + 1, n - 1);
      }
      CountNlStepBack(data, hi, r.value.hi);
    }
  }

  /** The selected line holds no newline but its last byte; for n == 1 it starts at lo. */
  lemma {:induction false} ScanLinesOneLine(data: seq<Byte>, lo: nat, hi: nat, n: nat)
    requires lo <= hi <= |data| && 1 <= n
    requires n == 1 ==> NL !in data[lo..hi]
    ensures var r := ScanLines(data, lo, hi, n);
      && (r.Some? ==> NL !in data[r.value.lo..r.value.hi - 1])
      && (r.Some? && n == 1 ==> r.value.lo == lo)
    decreases |data| - hi
  {
    var r := ScanLines(data, lo, hi, n);
    if hi < |data| && r.Some? {
      if data[hi] != NL {
        assert data[lo..hi + 1] == data[lo..hi] + [data[hi]];
        ScanLinesOneLine(data, lo, hi + 1, n);
      } else if n == 1 {
        assert data[lo..hi + 1 - 1] == data[lo..hi];
      } else if n == 2 {
        assert data[hi + 1..hi + 1] == [];
        ScanLinesOneLine(data, hi + 1, hi + 1, 1);
      } else {
        ScanLinesOneLine(data, lo, hi + 1, n - 1);
      }
    }
  }

  /** For n >= 2 the selected line starts just past the (n-1)-th newline from hi. */
  lemma {:induction false} ScanLinesStart(data: seq<Byte>, lo: nat, hi: nat, n: nat)
    requires lo <= hi <= |data| && 2 <= n
    ensures var r := ScanLines(data, lo, hi, n);
      r.Some? ==> hi < r.value.lo && data[r.value.lo - 1] == NL && CountNl(data[hi..r.value.lo]) == n - 1
    decreases |data| - hi
  {
    var r := ScanLines(data, lo, hi, n);
    if hi < |data| && r.Some? {
      if data[hi] != NL {
        ScanLinesStart(data, lo, hi + 1, n);
        CountNlStepBack(data, hi, r.value.lo);
      } else if n == 2 {
        assert data[hi + 1..hi + 1] == [];
        ScanLinesOneLine(data, hi + 1, hi + 1, 1);
        assert data[hi..hi + 1] == [data[hi]];
        assert [data[hi]][..0] == [];
      } else {
        ScanLinesStart(data, lo, hi + 1, n - 1);
        CountNlStepBack(data, hi, r.value.lo);
      }
    }
  }

  /**
   * Forward by n lines (codewalk.go:410-430): hi first snaps to the next
   * line start unless it is 0, then the n-th line from there is selected;
   * n == 0 gives the empty range at the snapped offset.
   */
  function LineForward(data: seq<Byte>, hi: nat, n: nat): (r: Result<Range, AddrError>)
    requires hi <= |data|
    ensures var s := if hi > 0 then LineEnd(data, hi) else 0;
      && (n == 0 ==> r == Ok(Range(s, s)))
      && (0 < n ==> (r.Err? <==> CountNl(data[s..]) < n))
      && (r.Err? ==> r.error == OutOfRange)
      && (r.Ok? && 0 < n ==>
            && s <= r.value.lo < r.value.hi <= |data|
            && IsLineStart(data, r.value.lo)
            && data[r.value.hi - 1] == NL
            && NL !in data[r.value.lo..r.value.hi - 1]
            && CountNl(data[s..r.value.lo]) == n - 1)
  {
    var s := if hi > 0 then LineEnd(data, hi) else 0;
    if n == 0 then Ok(Range(s, s))
    else
      assert data[s..s] == [];
      ScanLinesFails(data, s, s, n);
      ScanLinesEnd(data, s, s, n);
      ScanLinesOneLine(data, s, s, n);
      var r := match ScanLines(data, s, s, n)
        case None => Err(OutOfRange)
        case Some(line) => Ok(line);
      if n == 1 then assert data[s..s] == []; r
      else ScanLinesStart(data, s, s, n); r
  }

  /**
   * Backward over n rune-starting bytes, looking first at the byte at pos
   * itself and never at offset 0 (codewalk.go:433-445).
   */
  function RuneBackward(data: seq<Byte>, pos: nat, n: nat): (r: Option<nat>)
    requires pos <= |data|
    requires 0 < pos && 0 < n ==> pos < |data|
    ensures n == 0 ==> r == Some(pos)
    ensures r.None? <==> 0 < n && (pos == 0 || Leads(data[1..pos + 1]) < n)
    ensures r.Some? && 0 < n ==> r.value < pos && IsLead(data[r.value + 1])
    ensures r.Some? && 0 < n ==> Leads(data[r.value + 1..pos + 1]) == n
    decreases pos
  {
    if n == 0 then Some(pos)
    else if pos == 0 then None
    else
      var n' := if IsLead(data[pos]) then n - 1 else n;
      assert data[1..pos + 1][..pos - 1] == data[1..pos];
      var r := RuneBackward(data, pos - 1, n');
      if r.None? then r
      else if n' == 0 then
        assert data[pos..pos + 1] == [data[pos]];
        assert [data[pos]][..0] == [];
        r
      else
        assert data[r.value + 1..pos + 1][..pos - r.value - 1] == data[r.value + 1..pos];
        r
  }

  /**
   * The backward line scan from lo: every line start met uses up one of
   * the n lines; hi keeps the line start met before the last one
   * (codewalk.go:454-464). Running past offset 0 fails.
   */
  function ScanBack(data: seq<Byte>, lo: nat, hi: nat, n: nat): (r: Option<Range>)
    requires lo <= |data| && 1 <= n
    ensures r.None? <==> CountNl(data[..lo]) < n - 1
    ensures r.Some? ==> r.value.lo <= lo && IsLineStart(data, r.value.lo)
    ensures r.Some? ==> CountNl(data[r.value.lo..lo]) == n - 1
    ensures r.Some? && n == 1 ==> r.value.hi == hi
    ensures r.Some? && 2 <= n ==> r.value.hi <= lo && IsLineStart(data, r.value.hi)
    ensures r.Some? && 2 <= n ==> CountNl(data[r.value.hi..lo]) == n - 2
    decreases lo
  {
    if lo > 0 && data[lo - 1] != NL then
      var r := ScanBack(data, lo - 1, hi, n);
      BackPastText(data, lo, hi, n, r);
      r
    else if n == 1 then
      assert data[lo..lo] == [];
      Some(Range(lo, hi))
    else if lo == 0 then
      assert data[..0] == [];
      None
    else
      var r := if n == 2 then ScanBack(data, lo - 1, lo, 1) else ScanBack(data, lo - 1, hi, n - 1);
      BackPastNewline(data, lo, hi, n, r);
      r
  }

  /** The six facts ScanBack promises, gathered for its step lemmas. */
  predicate BackScanned(data: seq<Byte>, lo: nat, hi: nat, n: nat, r: Option<Range>)
    requires lo <= |data| && 1 <= n
  {
    && (r.None? <==> CountNl(data[..lo]) < n - 1)
    && (r.Some? ==> r.value.lo <= lo && IsLineStart(data, r.value.lo))
    && (r.Some? ==> CountNl(data[r.value.lo..lo]) == n - 1)
    && (r.Some? && n == 1 ==> r.value.hi == hi)
    && (r.Some? && 2 <= n ==> r.value.hi <= lo && IsLineStart(data, r.value.hi))
    && (r.Some? && 2 <= n ==> CountNl(data[r.value.hi..lo]) == n - 2)
  }

  /** Stepping back over a byte that is not a newline uses up no line. */
  lemma BackPastText(data: seq<Byte>, lo: nat, hi: nat, n: nat, r: Option<Range>)
    requires 0 < lo <= |data| && 1 <= n && data[lo - 1] != NL
    requires BackScanned(data, lo - 1, hi, n, r)
    ensures BackScanned(data, lo, hi, n, r)
  {
    CountNlStep(data, 0, lo - 1);
    assert data[0..lo] == data[..lo] && data[0..lo - 1] == data[..lo - 1];
    if r.Some? {
      CountNlStep(data, r.value.lo, lo - 1);
      if 2 <= n {
        CountNlStep(data, r.value.hi, lo - 1);
      }
    }
  }

  /**
   * Stepping back over a newline uses up one line; when two lines were
   * left, lo itself becomes the line start kept in hi.
   */
  lemma BackPastNewline(data: seq<Byte>, lo: nat, hi: nat, n: nat, r: Option<Range>)
    requires 0 < lo <= |data| && 2 <= n && data[lo - 1] == NL
    requires BackScanned(data, lo - 1, if n == 2 then lo else hi, n - 1, r)
    ensures BackScanned(data, lo, hi, n, r)
  {
    CountNlStep(data, 0, lo - 1);
    assert data[0..lo] == data[..lo] && data[0..lo - 1] == data[..lo - 1];
    if r.Some? {
      CountNlStep(data, r.value.lo, lo - 1);
      if n == 2 {
        assert data[lo..lo] == [];
      } else {
        CountNlStep(data, r.value.hi, lo - 1);
      }
    }
  }

  /**
   * Backward by n lines (codewalk.go:446-464): lo first snaps back to the
   * start of its line s. The result spans from the line start n - 1
   * newlines before s to the one n - 2 newlines before s (s itself when
   * n <= 2), so that -1, like -0, is the empty range at s.
   */
  function LineBackward(data: seq<Byte>, lo: nat, n: nat): (r: Result<Range, AddrError>)
    requires lo <= |data|
    ensures var s := LineStart(data, lo);
      && (n == 0 ==> r == Ok(Range(s, s)))
      && (0 < n ==> (r.Err? <==> CountNl(data[..s]) < n - 1))
      && (r.Err? ==> r.error == OutOfRange)
      && (r.Ok? ==> r.value.lo <= r.value.hi <= s)
      && (r.Ok? ==> IsLineStart(data, r.value.lo) && IsLineStart(data, r.value.hi))
      && (r.Ok? && 0 < n ==> CountNl(data[r.value.lo..s]) == n - 1)
      && (r.Ok? && 0 < n ==> CountNl(data[r.value.hi..s]) == if n <= 2 then 0 else n - 2)
  {
    var s := LineStart(data, lo);
    if n == 0 then Ok(Range(s, s))
    else
      match ScanBack(data, s, s, n)
      case None => Err(OutOfRange)
      case Some(r) =>
        assert n <= 2 ==> data[s..s] == [];
        if n < 2 || r.lo <= r.hi then Ok(r)
        else
          CountNlSplit(data, r.hi, r.lo, s);
          CountGrowsPastNewline(data, r.hi, r.lo);
          Ok(r)
  }

  /** Where the Go code would index past the buffer: a backward rune step from the buffer end. */
  predicate Panics(data: seq<Byte>, lo: nat, dir: Dir, n: nat, charOffset: bool) {
    dir == Bwd && charOffset && 0 < n && 0 < lo && |data| <= lo
  }

  /**
   * Apply a count in a direction to [lo, hi) (addrNumber). With no
   * direction the range is first reset to [0, 0) and the step is forward.
   * A rune step gives an empty range; a line step gives a range of lines.
   */
  function AddrNumber(size: Decoder, data: seq<Byte>, lo: nat, hi: nat, dir: Dir, n: nat, charOffset: bool)
    : (r: Result<Range, AddrError>)
    requires lo <= |data| && hi <= |data|
    requires !Panics(data, lo, dir, n, charOffset)
    ensures r.Err? ==> r.error == OutOfRange
    ensures r.Ok? ==> r.value.lo <= r.value.hi <= |data|
    ensures r.Ok? && charOffset ==> r.value.lo == r.value.hi
    ensures r.Ok? && dir == Fwd ==> hi <= r.value.lo
    ensures r.Ok? && dir == Bwd ==> r.value.hi <= lo
  {
    match dir
    case Bwd =>
      if charOffset then
        match RuneBackward(data, lo, n)
        case None => Err(OutOfRange)
        case Some(p) => Ok(Range(p, p))
      else LineBackward(data, lo, n)
    case _ =>
      var from := if dir == NoDir then 0 else hi;
      if charOffset then
        match RuneForward(size, data, from, n)
        case None => Err(OutOfRange)
        case Some(p) => Ok(Range(p, p))
      else LineForward(data, from, n)
  }

  /** Stepping a runes and then b runes is stepping a + b runes. */
  lemma {:induction false} RuneForwardAdds(size: Decoder, data: seq<Byte>, pos: nat, a: nat, b: nat)
    requires pos <= |data|
    ensures RuneForward(size, data, pos, a + b) ==
      match RuneForward(size, data, pos, a)
      case None => None
      case Some(p) => RuneForward(size, data, p, b)
    decreases a
  {
    if a > 0 && pos < |data| {
      RuneForwardAdds(size, data, pos + size(data[pos..]), a - 1, b);
    }
  }

  /**
   * From the start of the buffer, n lines forward is line n: the bytes from
   * the first byte of line n to the first byte of line n + 1; a line past
   * the last newline is out of range.
   */
  lemma ForwardFromStartIsLine(data: seq<Byte>, n: nat)
    ensures LineForward(data, 0, n) ==
      if n <= CountNl(data) then Ok(Range(LineToByte(data, n), LineToByte(data, n + 1)))
      else Err(OutOfRange)
  {
    assert data[0..] == data;
    var r := LineForward(data, 0, n);
    if n == 0 {
      assert r == Ok(Range(0, 0));
    } else if CountNl(data) < n {
      assert r.Err?;
    } else {
      assert r.Ok?;
      var lo, hi := r.value.lo, r.value.hi;
      assert data[0..lo] == data[..lo];
      LineIsNumbered(data, lo, hi, n);
      assert r == Ok(Range(lo, hi));
    }
  }

  /**
   * A line (a line start, then bytes up to and including the next
   * newline) with n - 1 newlines before it is line n.
   */
  lemma LineIsNumbered(data: seq<Byte>, lo: nat, hi: nat, n: nat)
    requires 1 <= n && lo < hi <= |data|
    requires IsLineStart(data, lo) && CountNl(data[..lo]) == n - 1
    requires data[hi - 1] == NL && NL !in data[lo..hi - 1]
    ensures lo == LineToByte(data, n) && hi == LineToByte(data, n + 1)
  {
    CountNlEmpty(data[lo..hi - 1]);
    CountNlStep(data, lo, hi - 1);
    CountNlSplit(data, 0, lo, hi);
    assert data[0..lo] == data[..lo] && data[0..hi] == data[..hi];
    assert CountNl(data[..hi]) == n;
    PrefixCountBound(data, hi);
    var a := LineToByte(data, n);
    if n == 1 {
      assert data[..0] == [];
    }
    assert IsLineStart(data, a) && CountNl(data[..a]) == n - 1;
    LineStartsByPrefixCount(data, lo, a);
    var b := LineToByte(data, n + 1);
    assert IsLineStart(data, b) && CountNl(data[..b]) == n;
    LineStartsByPrefixCount(data, hi, b);
  }

  /** Backing up one line, like backing up none, gives the empty range at the start of the current line. */
  lemma BackOneLineIsEmpty(data: seq<Byte>, lo: nat)
    requires lo <= |data|
    ensures LineBackward(data, lo, 1) == Ok(Range(LineStart(data, lo), LineStart(data, lo)))
  {
    var s := LineStart(data, lo);
    var r := LineBackward(data, lo, 1);
    assert data[s..s] == [];
    LineStartsDifferInCount(data, r.value.lo, s, s);
  }

  /**
   * Backing up one rune from offset 2 of the bytes C3 A9 78 ("é" then "x")
   * stops at offset 1, inside the two-byte rune: the scan looks at the
   * byte at lo before the bytes below it.
   */
  lemma RuneBackwardCanSplitRune(data: seq<Byte>)
    requires data == [0xC3, 0xA9, 0x78]
    ensures RuneBackward(data, 2, 1) == Some(1)
    ensures !IsLead(data[1])
  {
  }
}
