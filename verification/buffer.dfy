/** The byte buffer an address is evaluated against: its newlines and its line boundaries. */
module Buffer {

  /** One byte of the buffer. */
  type Byte = bv8

  /** The line terminator. */
  const NL: Byte := 10

  /** A byte interval [lo, hi) of the buffer. */
  datatype Range = Range(lo: nat, hi: nat)

  /** The number of newline bytes in s. */
  function CountNl(s: seq<Byte>): nat {
    if |s| == 0 then 0 else CountNl(s[..|s| - 1]) + (if s[|s| - 1] == NL then 1 else 0)
  }

  /** Offset i is the first byte of a line: the buffer start, or just after a newline. */
  predicate IsLineStart(data: seq<Byte>, i: nat) {
    i == 0 || (i <= |data| && data[i - 1] == NL)
  }

  lemma {:induction false} CountNlEmpty(s: seq<Byte>)
    ensures CountNl(s) == 0 <==> NL !in s
    decreases |s|
  {
    if |s| > 0 {
      CountNlEmpty(s[..|s| - 1]);
      assert s == s[..|s| - 1] + [s[|s| - 1]];
    }
  }

  lemma {:induction false} CountNlAtMostLength(s: seq<Byte>)
    ensures CountNl(s) <= |s|
    decreases |s|
  {
    if |s| > 0 {
      CountNlAtMostLength(s[..|s| - 1]);
    }
  }

  lemma {:induction false} CountNlAppend(a: seq<Byte>, b: seq<Byte>)
    ensures CountNl(a + b) == CountNl(a) + CountNl(b)
    decreases |b|
  {
    if |b| == 0 {
      assert a + b == a;
    } else {
      CountNlAppend(a, b[..|b| - 1]);
      assert (a + b)[..|a + b| - 1] == a + b[..|b| - 1];
    }
  }

  lemma CountNlSplit(data: seq<Byte>, a: nat, b: nat, c: nat)
    requires a <= b <= c <= |data|
    ensures CountNl(data[a..c]) == CountNl(data[a..b]) + CountNl(data[b..c])
  {
    assert data[a..c] == data[a..b] + data[b..c];
    CountNlAppend(data[a..b], data[b..c]);
  }

  /** Counting newlines one byte further. */
  lemma CountNlStep(data: seq<Byte>, a: nat, b: nat)
    requires a <= b < |data|
    ensures CountNl(data[a..b + 1]) == CountNl(data[a..b]) + (if data[b] == NL then 1 else 0)
  {
    assert data[a..b + 1][..b - a] == data[a..b];
  }

  /** A prefix holds no more newlines than the whole buffer. */
  lemma PrefixCountBound(data: seq<Byte>, i: nat)
    requires i <= |data|
    ensures CountNl(data[..i]) <= CountNl(data)
  {
    CountNlSplit(data, 0, i, |data|);
    assert data[0..i] == data[..i] && data[0..|data|] == data;
  }

  /** Counting newlines from one byte earlier. */
  lemma CountNlStepBack(data: seq<Byte>, a: nat, b: nat)
    requires a < b <= |data|
    ensures CountNl(data[a..b]) == (if data[a] == NL then 1 else 0) + CountNl(data[a + 1..b])
  {
    CountNlSplit(data, a, a + 1, b);
    assert data[a..a + 1] == [data[a]];
    assert [data[a]][..0] == [];
  }

  /** A newline at b - 1 makes the prefix up to b count strictly more newlines than any shorter prefix. */
  lemma CountGrowsPastNewline(data: seq<Byte>, a: nat, b: nat)
    requires a < b <= |data| && data[b - 1] == NL
    ensures CountNl(data[a..b]) >= 1
    ensures CountNl(data[..a]) < CountNl(data[..b])
  {
    assert data[b - 1] in data[a..b];
    CountNlEmpty(data[a..b]);
    CountNlSplit(data, 0, a, b);
    assert data[..a] == data[0..a] && data[..b] == data[0..b];
  }

  /** Two line starts at or below e with the same number of newlines up to e are the same offset. */
  lemma LineStartsDifferInCount(data: seq<Byte>, a: nat, b: nat, e: nat)
    requires a <= e && b <= e && e <= |data|
    requires IsLineStart(data, a) && IsLineStart(data, b)
    requires CountNl(data[a..e]) == CountNl(data[b..e])
    ensures a == b
  {
    if a < b {
      CountGrowsPastNewline(data, a, b);
      CountNlSplit(data, a, b, e);
    } else if b < a {
      CountGrowsPastNewline(data, b, a);
      CountNlSplit(data, b, a, e);
    }
  }

  /** Two line starts preceded by the same number of newlines are the same offset. */
  lemma LineStartsByPrefixCount(data: seq<Byte>, a: nat, b: nat)
    requires a <= |data| && b <= |data|
    requires IsLineStart(data, a) && IsLineStart(data, b)
    requires CountNl(data[..a]) == CountNl(data[..b])
    ensures a == b
  {
    if a < b {
      CountGrowsPastNewline(data, a, b);
    } else if b < a {
      CountGrowsPastNewline(data, b, a);
    }
  }

  /**
   * The start of the line holding offset i: step left while the byte
   * before is not a newline (the loops at codewalk.go:181-183 and 447-449).
   */
  function LineStart(data: seq<Byte>, i: nat): (r: nat)
    requires i <= |data|
    ensures r <= i && IsLineStart(data, r)
    ensures NL !in data[r..i]
    decreases i
  {
    if i > 0 && data[i - 1] != NL then
      var r := LineStart(data, i - 1);
      assert data[r..i] == data[r..i - 1] + [data[i - 1]];
      r
    else i
  }

  /**
   * The end of the line holding offset i: step right until the byte before
   * is a newline or the buffer ends; offset 0 always takes one step
   * (the loop at codewalk.go:184-186; for i > 0 also the snap at 411-415).
   */
  function LineEnd(data: seq<Byte>, i: nat): (r: nat)
    requires i <= |data|
    ensures i <= r <= |data|
    ensures r == |data| || (0 < r && data[r - 1] == NL)
    ensures 0 < r ==> NL !in data[(if i == 0 then 0 else i - 1)..r - 1]
    decreases |data| - i
  {
    if i < |data| && (i == 0 || data[i - 1] != NL) then
      var r := LineEnd(data, i + 1);
      assert i > 0 ==> data[i - 1..r - 1] == [data[i - 1]] + data[i..r - 1];
      r
    else i
  }
}
