/**
 * The offset computations around a resolved range: widening it to whole
 * lines and recording its first and last line (codewalk.go:180-188), and
 * cutting a file print at the highlighted lines and at a context mark a
 * few lines above them (codewalk.go:257-276).
 */
module Snippet {
  import opened Buffer
  import opened LineIndex

  /**
   * Widen [lo, hi) to whole lines: lo moves back to the start of its line,
   * hi moves forward to just past a newline or to the end of the buffer
   * (an empty range at offset 0 takes in the whole first line).
   */
  function ExpandToLines(data: seq<Byte>, lo: nat, hi: nat): (r: Range)
    requires lo <= |data| && hi <= |data|
    ensures r.lo <= lo && IsLineStart(data, r.lo) && NL !in data[r.lo..lo]
    ensures hi <= r.hi <= |data|
    ensures r.hi == |data| || (0 < r.hi && data[r.hi - 1] == NL)
    ensures 0 < |data| ==> 0 < r.hi
    ensures 0 < r.hi ==> NL !in data[(if hi == 0 then 0 else hi - 1)..r.hi - 1]
  {
    Range(LineStart(data, lo), LineEnd(data, hi))
  }

  /** A range whose ends already sit on line boundaries is left as it is. */
  lemma ExpandAlignedIsIdentity(data: seq<Byte>, lo: nat, hi: nat)
    requires lo <= |data| && hi <= |data|
    requires IsLineStart(data, lo)
    requires hi == |data| || (0 < hi && data[hi - 1] == NL)
    ensures ExpandToLines(data, lo, hi) == Range(lo, hi)
  {
  }

  /** Widening to whole lines is idempotent. */
  lemma ExpandIdempotent(data: seq<Byte>, lo: nat, hi: nat)
    requires lo <= |data| && hi <= |data|
    ensures var r := ExpandToLines(data, lo, hi);
            ExpandToLines(data, r.lo, r.hi) == r
  {
    var r := ExpandToLines(data, lo, hi);
    if 0 < |data| {
      ExpandAlignedIsIdentity(data, r.lo, r.hi);
    }
  }

  /** The first and last line a codewalk step records for its range. */
  datatype LineSpan = LineSpan(first: nat, last: nat)

  /**
   * The lines of a step whose address resolved to [lo, hi): the line of
   * the first byte and the line of the last byte of the range widened to
   * whole lines (codewalk.go:180-188).
   */
  function StepLines(data: seq<Byte>, lo: nat, hi: nat): (r: LineSpan)
    requires lo <= |data| && hi <= |data|
    ensures 1 <= r.first <= LineCount(data) && 1 <= r.last <= LineCount(data)
  {
    var e := ExpandToLines(data, lo, hi);
    PrefixCountBound(data, e.lo);
    PrefixCountBound(data, if 0 < e.hi then e.hi - 1 else |data|);
    LineSpan(ByteToLine(data, e.lo), ByteToLine(data, e.hi - 1))
  }

  /**
   * Printing a step's recorded lines highlights exactly the widened range
   * the step's address resolved to, whenever that range is not empty.
   * A Go slice is never longer than MaxInt, so no line number here wraps.
   */
  lemma StepLinesPrintBack(data: seq<Byte>, lo: nat, hi: nat)
    requires |data| < MaxInt
    requires lo <= |data| && hi <= |data|
    requires ExpandToLines(data, lo, hi).lo < ExpandToLines(data, lo, hi).hi
    ensures var e := ExpandToLines(data, lo, hi);
      var s := StepLines(data, lo, hi);
      var p := FileprintSpans(data, s.first, s.last);
      p.lo == e.lo && p.hi == e.hi
  {
    var e := ExpandToLines(data, lo, hi);
    assert StepLines(data, lo, hi) == LineSpan(ByteToLine(data, e.lo), ByteToLine(data, e.hi - 1));
    LinesOfWholeLines(data, e.lo, e.hi);
  }

  /** The lines of the first and last bytes of a range of whole lines print back as that range. */
  lemma LinesOfWholeLines(data: seq<Byte>, a: nat, b: nat)
    requires |data| < MaxInt
    requires a < b <= |data| && IsLineStart(data, a)
    requires b == |data| || data[b - 1] == NL
    ensures ByteToLine(data, a) <= LineCount(data) && ByteToLine(data, b - 1) <= LineCount(data)
    ensures var p := FileprintSpans(data, ByteToLine(data, a), ByteToLine(data, b - 1));
      p.lo == a && p.hi == b
  {
    var first := ByteToLine(data, a);
    var last := ByteToLine(data, b - 1);
    PrefixCountBound(data, a);
    PrefixCountBound(data, b - 1);
    CountNlAtMostLength(data[..b - 1]);
    LineToByteOfByteToLine(data, a);
    FirstLineNotAfterLast(data, a, b);
    LastLinePrintsBack(data, b);
    var p := FileprintSpans(data, first, last);
    assert p.lo == LineToByte(data, first);
    assert p.hi == LineToByte(data, last + 1);
  }

  /** The line of a range's first byte is not after the line of its last byte. */
  lemma FirstLineNotAfterLast(data: seq<Byte>, a: nat, b: nat)
    requires a < b <= |data|
    ensures ByteToLine(data, a) <= ByteToLine(data, b - 1)
  {
    CountNlSplit(data, 0, a, b - 1);
    assert data[0..a] == data[..a] && data[0..b - 1] == data[..b - 1];
  }

  /** For an end offset past a newline or at the buffer end, the line after its last byte starts there. */
  lemma LastLinePrintsBack(data: seq<Byte>, b: nat)
    requires 0 < b <= |data| && (b == |data| || data[b - 1] == NL)
    ensures LineToByte(data, ByteToLine(data, b - 1) + 1) == b
  {
    var k := b - 1;
    var last := ByteToLine(data, k);
    assert last == 1 + CountNl(data[..k]);
    CountNlStep(data, 0, k);
    assert data[0..b] == data[..b] && data[0..k] == data[..k];
    var r := LineToByte(data, last + 1);
    if data[k] == NL {
      PrefixCountBound(data, b);
      LineStartsByPrefixCount(data, r, b);
    } else {
      assert data[..b] == data;
    }
  }

  /**
   * When the widened range is empty, at a line start past offset 0, the
   * step records a last line one below its first line.
   */
  lemma EmptyStepInvertsLines(data: seq<Byte>, lo: nat, hi: nat)
    requires lo <= |data| && hi <= |data|
    requires 0 < ExpandToLines(data, lo, hi).lo == ExpandToLines(data, lo, hi).hi
    ensures StepLines(data, lo, hi).last + 1 == StepLines(data, lo, hi).first
  {
    var e := ExpandToLines(data, lo, hi);
    var k := e.hi - 1;
    CountNlStep(data, 0, k);
    assert data[0..e.hi] == data[..e.hi] && data[0..k] == data[..k];
    if e.hi == |data| {
      assert data[..|data|] == data;
    }
  }

  /** How many newlines the context mark looks back over. */
  const ContextLines: nat := 4

  /**
   * Scanning left from mark, stop just after the n-th newline met, or at
   * offset 0 when fewer than n newlines precede mark (codewalk.go:270-276).
   */
  function MarkFrom(data: seq<Byte>, mark: nat, n: nat): (r: nat)
    requires mark <= |data| && 1 <= n
    ensures r <= mark
    ensures CountNl(data[..mark]) < n ==> r == 0
    ensures n <= CountNl(data[..mark]) ==> 0 < r && data[r - 1] == NL && CountNl(data[r..mark]) == n - 1
    decreases mark
  {
    if mark == 0 then
      assert data[..0] == [];
      0
    else if data[mark - 1] == NL && n == 1 then
      MarkHere(data, mark);
      mark
    else
      var r := MarkFrom(data, mark - 1, if data[mark - 1] == NL then n - 1 else n);
      MarkStep(data, mark, n, r);
      r
  }

  /** The three facts MarkFrom promises, gathered for its step lemmas. */
  predicate Marked(data: seq<Byte>, mark: nat, n: nat, r: nat)
    requires mark <= |data|
  {
    && r <= mark
    && (CountNl(data[..mark]) < n ==> r == 0)
    && (n <= CountNl(data[..mark]) ==> 0 < r && data[r - 1] == NL && CountNl(data[r..mark]) == n - 1)
  }

  /** A newline just before mark is the first one met leftward. */
  lemma MarkHere(data: seq<Byte>, mark: nat)
    requires 0 < mark <= |data| && data[mark - 1] == NL
    ensures Marked(data, mark, 1, mark)
  {
    assert data[mark..mark] == [];
  }

  /** Scanning on from mark - 1, with one newline fewer to meet when data[mark - 1] is one. */
  lemma MarkStep(data: seq<Byte>, mark: nat, n: nat, r: nat)
    requires 0 < mark <= |data| && 1 <= n && !(data[mark - 1] == NL && n == 1)
    requires Marked(data, mark - 1, if data[mark - 1] == NL then n - 1 else n, r)
    ensures Marked(data, mark, n, r)
  {
    CountNlStep(data, 0, mark - 1);
    assert data[0..mark] == data[..mark] && data[0..mark - 1] == data[..mark - 1];
    if r <= mark - 1 {
      CountNlStep(data, r, mark - 1);
    }
  }

  /**
   * The offset where the leading context of a block starting at lo begins:
   * just after the fourth newline before lo, or 0 when there are fewer.
   */
  function ContextMark(data: seq<Byte>, lo: nat): (mark: nat)
    requires lo <= |data|
    ensures mark <= lo
    ensures mark == 0 <==> CountNl(data[..lo]) < ContextLines
    ensures mark > 0 ==> data[mark - 1] == NL && CountNl(data[mark..lo]) == ContextLines - 1
  {
    MarkFrom(data, lo, ContextLines)
  }

  /** The three cut points of a file print: context mark, highlight start and highlight end. */
  datatype Spans = Spans(mark: nat, lo: nat, hi: nat)

  /** The bounds of Go's 64-bit int, the type the line numbers are parsed into. */
  const MaxInt := 0x7fff_ffff_ffff_ffff
  const MinInt := -0x8000_0000_0000_0000

  predicate IsInt(n: int) {
    MinInt <= n <= MaxInt
  }

  /** n + 1 in Go's int arithmetic, where MaxInt + 1 wraps around to MinInt. */
  function Succ(n: int): (r: int)
    requires IsInt(n)
    ensures IsInt(r)
  {
    if n == MaxInt then MinInt else n + 1
  }

  /**
   * The offsets a file print is cut at when lines loLine..hiLine are
   * highlighted: a hiLine below loLine is raised to loLine, the highlight
   * runs from the start of loLine to the start of the line after hiLine,
   * and the context mark sits four lines above the highlight. The line
   * after hiLine is computed in Go's int, so for hiLine == MaxInt it wraps
   * to MinInt and the highlight end falls back to offset 0.
   */
  function FileprintSpans(data: seq<Byte>, loLine: int, hiLine: int): (r: Spans)
    requires IsInt(loLine) && IsInt(hiLine)
    ensures r.mark <= r.lo <= |data| && r.hi <= |data|
    ensures r.lo == |data| || IsLineStart(data, r.lo)
    ensures r.hi == |data| || IsLineStart(data, r.hi)
    ensures r.lo == LineToByte(data, loLine)
    ensures var top := if hiLine < loLine then loLine else hiLine;
      top < MaxInt ==> r.lo <= r.hi && r.hi == LineToByte(data, top + 1)
    ensures loLine == MaxInt || hiLine == MaxInt ==> r.hi == 0
    ensures r.mark == ContextMark(data, r.lo)
  {
    var hiLine' := if hiLine < loLine then loLine else hiLine;
    var lo := LineToByte(data, loLine);
    var hi := LineToByte(data, Succ(hiLine'));
    HighlightEnd(data, loLine, hiLine');
    Spans(ContextMark(data, lo), lo, hi)
  }

  /** The highlight end computed from the wrapped successor of a raised hiLine. */
  lemma HighlightEnd(data: seq<Byte>, loLine: int, top: int)
    requires IsInt(loLine) && IsInt(top) && loLine <= top
    ensures var hi := LineToByte(data, Succ(top));
      (top < MaxInt ==> LineToByte(data, loLine) <= hi && hi == LineToByte(data, top + 1)) &&
      (top == MaxInt ==> hi == 0)
  {
    if top < MaxInt {
      LineToByteMonotone(data, loLine, top + 1);
    }
  }

  /**
   * Highlighting from line 1 to the last representable line number: the
   * end wraps to offset 0 as well, but the highlight starts at 0 too, so
   * all three offsets are 0 and the page prints the data once, unhighlighted.
   */
  lemma FileprintWrapsFromFirstLine(data: seq<Byte>)
    ensures FileprintSpans(data, 1, MaxInt) == Spans(0, 0, 0)
  {
  }

  /**
   * Highlighting the last representable line number: the highlight start
   * lands at the end of the data while its end wraps to offset 0, so the
   * highlight is skipped and the page prints the data twice over.
   */
  lemma FileprintWrapsAtMaxInt(data: seq<Byte>, hiLine: int)
    requires |data| < MaxInt - 1 && IsInt(hiLine)
    ensures var p := FileprintSpans(data, MaxInt, hiLine);
      p.lo == |data| && p.hi == 0
  {
    CountNlAtMostLength(data);
  }
}
