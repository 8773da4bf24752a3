/**
 * Conversion between 1-based line numbers and byte offsets
 * (lineToByte and byteToLine, codewalk.go:497-526).
 */
module LineIndex {
  import opened Buffer

  /**
   * Scanning from offset i, the offset just after the k-th newline, or
   * the buffer length when fewer than k newlines remain (the range loop
   * of codewalk.go:504-511).
   */
  function NewlineEnd(data: seq<Byte>, i: nat, k: nat): (r: nat)
    requires i <= |data| && 1 <= k
    ensures i <= r <= |data|
    ensures CountNl(data[i..]) < k ==> r == |data|
    ensures k <= CountNl(data[i..]) ==> i < r && data[r - 1] == NL && CountNl(data[i..r]) == k
    decreases |data| - i
  {
    if i == |data| then
      assert data[i..] == [];
      |data|
    else if data[i] == NL && k == 1 then
      NewlineEndHere(data, i);
      i + 1
    else
      var r := NewlineEnd(data, i + 1, if data[i] == NL then k - 1 else k);
      NewlineEndStep(data, i, k, r);
      r
  }

  /** The three facts NewlineEnd promises, gathered for its step lemmas. */
  predicate NewlineEnded(data: seq<Byte>, i: nat, k: nat, r: nat)
    requires i <= |data|
  {
    && i <= r <= |data|
    && (CountNl(data[i..]) < k ==> r == |data|)
    && (k <= CountNl(data[i..]) ==> i < r && data[r - 1] == NL && CountNl(data[i..r]) == k)
  }

  /** A newline at i is the first one met from i. */
  lemma NewlineEndHere(data: seq<Byte>, i: nat)
    requires i < |data| && data[i] == NL
    ensures NewlineEnded(data, i, 1, i + 1)
  {
    CountNlStepBack(data, i, |data|);
    CountNlStepBack(data, i, i + 1);
    assert data[i..] == data[i..|data|] && data[i + 1..i + 1] == [];
  }

  /** Scanning on from i + 1, with one newline fewer to meet when data[i] is one. */
  lemma NewlineEndStep(data: seq<Byte>, i: nat, k: nat, r: nat)
    requires i < |data| && 1 <= k && !(data[i] == NL && k == 1)
    requires NewlineEnded(data, i + 1, if data[i] == NL then k - 1 else k, r)
    ensures NewlineEnded(data, i, k, r)
  {
    CountNlStepBack(data, i, |data|);
    assert data[i..] == data[i..|data|] && data[i + 1..] == data[i + 1..|data|];
    if i + 1 <= r {
      CountNlStepBack(data, i, r);
    }
  }

  /**
   * The offset of the first byte of line n. Line numbers start at 1; any
   * n <= 1 is offset 0, and a line past the last newline clamps to the
   * buffer length instead of failing.
   */
  function LineToByte(data: seq<Byte>, n: int): (r: nat)
    ensures r <= |data|
    ensures n <= 1 ==> r == 0
    ensures n > 1 && CountNl(data) < n - 1 ==> r == |data|
    ensures n > 1 && n - 1 <= CountNl(data) ==> 0 < r && data[r - 1] == NL && CountNl(data[..r]) == n - 1
  {
    if n <= 1 then 0
    else
      assert data[0..] == data;
      var r := NewlineEnd(data, 0, n - 1);
      assert data[0..r] == data[..r];
      r
  }

  /**
   * Walking from offset j with line number l, the line number reached at
   * offset i; the walk never meets an i outside [j, |data|) and then runs
   * to the end (the range loop of codewalk.go:517-524).
   */
  function LineNumberFrom(data: seq<Byte>, i: int, j: nat, l: nat): (r: nat)
    requires j <= |data|
    ensures r == l + CountNl(data[j..(if j <= i < |data| then i else |data|)])
    decreases |data| - j
  {
    if j == |data| then l
    else if j == i then l
    else
      var k := if j <= i < |data| then i else |data|;
      CountNlStepBack(data, j, k);
      LineNumberFrom(data, i, j + 1, if data[j] == NL then l + 1 else l)
  }

  /**
   * The line number of the byte at offset i: one more than the newlines
   * before i. An i outside [0, |data|) counts every newline in the buffer.
   */
  function ByteToLine(data: seq<Byte>, i: int): (r: nat)
    ensures r == 1 + CountNl(data[..(if 0 <= i < |data| then i else |data|)])
    ensures r >= 1
  {
    LineNumberFrom(data, i, 0, 1)
  }

  /** The number of lines is one more than the number of newlines, so at most one more than the number of bytes. */
  function LineCount(data: seq<Byte>): (n: nat)
    ensures 1 <= n <= |data| + 1
  {
    CountNlAtMostLength(data);
    1 + CountNl(data)
  }

  /** Every line number of the buffer maps to an offset that maps back to the same line. */
  lemma ByteToLineOfLineToByte(data: seq<Byte>, n: int)
    requires 1 <= n <= LineCount(data)
    ensures ByteToLine(data, LineToByte(data, n)) == n
  {
    var r := LineToByte(data, n);
    assert data[..|data|] == data;
  }

  /** Any offset maps to a line whose first byte is the start of the line holding that offset. */
  lemma LineToByteOfByteToLine(data: seq<Byte>, i: nat)
    requires i <= |data|
    ensures LineToByte(data, ByteToLine(data, i)) == LineStart(data, i)
  {
    var n := ByteToLine(data, i);
    var s := LineStart(data, i);
    assert data[..|data|] == data;
    assert CountNl(data[..i]) == n - 1;
    CountNlSplit(data, 0, s, i);
    CountNlEmpty(data[s..i]);
    assert data[0..s] == data[..s] && data[0..i] == data[..i];
    CountNlSplit(data, 0, i, |data|);
    assert data[0..|data|] == data;
    var r := LineToByte(data, n);
    if n == 1 {
      LineStartsDifferInCount(data, 0, s, s);
    } else {
      LineStartsByPrefixCount(data, r, s);
    }
  }

  /** LineToByte never moves backwards as the line number grows. */
  lemma LineToByteMonotone(data: seq<Byte>, m: int, n: int)
    requires m <= n
    ensures LineToByte(data, m) <= LineToByte(data, n)
  {
    var a := LineToByte(data, m);
    var b := LineToByte(data, n);
    if m > 1 && n - 1 <= CountNl(data) && a > b {
      assert data[..a] == data[0..a];
      CountGrowsPastNewline(data, b, a);
    }
  }
}
