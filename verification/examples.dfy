/**
 * The evaluator on concrete buffers: the documented sample addresses, the
 * wrap-around search, a step over a multi-byte rune, and the places where
 * the evaluation departs from sam's reading of an address.
 */
module AddressExamples {
  import opened Wrappers
  import opened Buffer
  import opened Stepper
  import opened Search
  import opened Address
  import Utf8

  /** The pattern's characters, read as byte values, appear in text from offset k on. */
  predicate MatchesAt(p: string, text: seq<Byte>, k: nat) {
    k + |p| <= |text| && forall j :: 0 <= j < |p| ==> text[k + j] as int == p[j] as int
  }

  /** From offset i on, the first place p occurs in text. */
  function FirstAt(p: string, text: seq<Byte>, i: nat): (m: Option<Range>)
    requires i <= |text|
    ensures Fits(m, text)
    ensures m.Some? ==> i <= m.value.lo && m.value.hi == m.value.lo + |p|
    ensures m.Some? ==> MatchesAt(p, text, m.value.lo)
    ensures forall k :: i <= k && (m.None? || k < m.value.lo) ==> !MatchesAt(p, text, k)
    decreases |text| - i
  {
    if |text| < i + |p| then None
    else if MatchesAt(p, text, i) then Some(Range(i, i + |p|))
    else FirstAt(p, text, i + 1)
  }

  /** A stand-in engine whose patterns match their own characters literally. */
  function Literal(p: string, text: seq<Byte>): (m: Option<Range>)
    ensures Fits(m, text)
  {
    FirstAt(p, text, 0)
  }

  /** Every pattern compiles, matches literally, and runes are read as UTF-8. */
  function LiteralEnv(): Env {
    Env((p: string) => true, Literal, Utf8.RuneSize)
  }

  /** "line1\nline2\nline3\n" */
  const Lines: seq<Byte> := [
    0x6C, 0x69, 0x6E, 0x65, 0x31, 0x0A,
    0x6C, 0x69, 0x6E, 0x65, 0x32, 0x0A,
    0x6C, 0x69, 0x6E, 0x65, 0x33, 0x0A]

  /** Line 1 is [0, 6), line 2 is [6, 12) and line 3 is [12, 18). */
  lemma LineSteps()
    ensures LineForward(Lines, 0, 1) == Ok(Range(0, 6))
    ensures LineForward(Lines, 0, 2) == Ok(Range(6, 12))
    ensures LineForward(Lines, 12, 1) == Ok(Range(12, 18))
  {
    FirstLineScan();
    SecondLineScan();
    ThirdLineScan();
  }

  lemma FirstLineScan()
    ensures ScanLines(Lines, 0, 0, 1) == Some(Range(0, 6))
    ensures ScanLines(Lines, 0, 0, 2) == ScanLines(Lines, 6, 6, 1)
  {
    assert Lines[0..5] == [0x6C, 0x69, 0x6E, 0x65, 0x31] && Lines[5] == NL;
    ScanToNewline(Lines, 0, 5, 1);
    ScanToNewline(Lines, 0, 5, 2);
  }

  lemma SecondLineScan()
    ensures ScanLines(Lines, 6, 6, 1) == Some(Range(6, 12))
  {
    assert Lines[6..11] == [0x6C, 0x69, 0x6E, 0x65, 0x32] && Lines[11] == NL;
    ScanToNewline(Lines, 6, 11, 1);
  }

  lemma ThirdLineScan()
    ensures LineEnd(Lines, 12) == 12
    ensures ScanLines(Lines, 12, 12, 1) == Some(Range(12, 18))
  {
    assert Lines[12..17] == [0x6C, 0x69, 0x6E, 0x65, 0x33] && Lines[17] == NL;
    ScanToNewline(Lines, 12, 17, 1);
  }

  /**
   * Scanning from a line start lo whose line ends with the newline at j:
   * one line is [lo, j + 1), and two lines go on from j + 1.
   */
  lemma ScanToNewline(data: seq<Byte>, lo: nat, j: nat, n: nat)
    requires lo <= j < |data| && NL !in data[lo..j] && data[j] == NL && 1 <= n <= 2
    ensures n == 1 ==> ScanLines(data, lo, lo, n) == Some(Range(lo, j + 1))
    ensures n == 2 ==> ScanLines(data, lo, lo, n) == ScanLines(data, j + 1, j + 1, 1)
  {
    ScanSkipsText(data, lo, lo, j, n);
  }

  /** The line counts the examples below take, as addrNumber steps on Lines. */
  lemma LineNumbers()
    ensures Number(LiteralEnv(), Lines, 0, 0, NoDir, 1, false) == Ok(Range(0, 6))
    ensures Number(LiteralEnv(), Lines, 0, 0, NoDir, 2, false) == Ok(Range(6, 12))
    ensures Number(LiteralEnv(), Lines, 6, 6, NoDir, 2, false) == Ok(Range(6, 12))
    ensures Number(LiteralEnv(), Lines, 6, 12, Fwd, 1, false) == Ok(Range(12, 18))
  {
    LineSteps();
  }

  /** The line scan passes over bytes that are not newlines. */
  lemma {:induction false} ScanSkipsText(data: seq<Byte>, lo: nat, hi: nat, j: nat, n: nat)
    requires lo <= hi <= j <= |data| && 1 <= n
    requires NL !in data[hi..j]
    ensures ScanLines(data, lo, hi, n) == ScanLines(data, lo, j, n)
    decreases j - hi
  {
    if hi < j {
      assert data[hi] == data[hi..j][0];
      assert data[hi + 1..j] == data[hi..j][1..];
      ScanSkipsText(data, lo, hi + 1, j, n);
    }
  }

  /** One digit followed by a non-digit is a count of that digit's value. */
  lemma LeadingDigit(env: Env, data: seq<Byte>, ch: char, rest: string, c: Cursor, r: Range)
    requires IsDigit(ch) && (rest == [] || !IsDigit(rest[0])) && Valid(data, c)
    requires Number(env, data, c.lo, c.hi, c.dir, ch as int - '0' as int, c.charOffset) == Ok(r)
    ensures Token(env, data, [ch] + rest, c) == Ok((Cursor(r.lo, r.hi, NoDir, ch, false), rest))
  {
    var addr := [ch] + rest;
    assert addr[0] == ch;
    DigitRunOfNumeral([ch], rest, 1);
    assert addr[..1] == [ch] && addr[1..] == rest;
    assert DecimalValue([ch]) == ch as int - '0' as int by {
      assert [ch][..0] == [];
    }
    var t := NumberToken(env, data, addr, c);
    assert t == Ok((Cursor(r.lo, r.hi, NoDir, ch, false), 1));
    assert !(ch == '+' || ch == '-') && ch != '$' && ch != '#';
  }

  /** A leading "1" on Lines from offset 0 is line 1, whatever follows it. */
  lemma LineOneToken(rest: string)
    requires rest == [] || !IsDigit(rest[0])
    ensures Token(LiteralEnv(), Lines, ['1'] + rest, Start(0)) == Ok((Cursor(0, 6, NoDir, '1', false), rest))
  {
    LineNumbers();
    LeadingDigit(LiteralEnv(), Lines, '1', rest, Start(0), Range(0, 6));
  }

  /** A leading "2" on Lines from offset 0 is line 2, whatever follows it. */
  lemma LineTwoToken(rest: string)
    requires rest == [] || !IsDigit(rest[0])
    ensures Token(LiteralEnv(), Lines, ['2'] + rest, Start(0)) == Ok((Cursor(6, 12, NoDir, '2', false), rest))
  {
    LineNumbers();
    LeadingDigit(LiteralEnv(), Lines, '2', rest, Start(0), Range(6, 12));
  }

  /** "2" is line 2. */
  lemma SampleAddresses()
    ensures AddrToByteRange(LiteralEnv(), Lines, "2", 0) == Ok(Range(6, 12))
  {
    LineNumbers();
    LeadingDigit(LiteralEnv(), Lines, '2', "", Start(0), Range(6, 12));
    assert ['2'] + "" == "2";
  }

  /** "2+" is line 3: the pending '+' takes one line step at the end. */
  lemma PendingDirectionSteps()
    ensures AddrToByteRange(LiteralEnv(), Lines, "2+", 0) == Ok(Range(12, 18))
  {
    var env := LiteralEnv();
    var c := Cursor(6, 12, NoDir, '2', false);
    LineTwoToken("+");
    assert ['2'] + "+" == "2+";
    EvalStep(env, Lines, "2+", Start(0), c, "+");
    TrailingSignSteps(env, Lines, '+', c);
    LineNumbers();
  }

  /** "2+," is line 2 to the end of the buffer: a pending '+' is dropped at the ','. */
  lemma DirectionDroppedAtComma()
    ensures AddrToByteRange(LiteralEnv(), Lines, "2+,", 0) == Ok(Range(6, 18))
  {
    var env := LiteralEnv();
    var c := Cursor(6, 12, NoDir, '2', false);
    LineTwoToken("+,");
    assert ['2'] + "+," == "2+,";
    EvalStep(env, Lines, "2+,", Start(0), c, "+,");
    SignDroppedAtComma(env, Lines, '+', c);
    assert ['+', ','] == "+,";
  }

  /** On ASCII bytes a rune step of n is a step of n bytes. */
  lemma {:induction false} AsciiRunesAreBytes(data: seq<Byte>, pos: nat, n: nat)
    requires pos <= |data|
    requires forall k :: 0 <= k < |data| ==> data[k] < 0x80
    ensures RuneForward(Utf8.RuneSize, data, pos, n) == if pos + n <= |data| then Some(pos + n) else None
    decreases n
  {
    if n > 0 && pos < |data| {
      assert data[pos..][0] == data[pos];
      AsciiRunesAreBytes(data, pos + 1, n - 1);
    }
  }

  /** The first two bytes of Lines are one rune each. */
  lemma OneRuneSteps()
    ensures RuneForward(Utf8.RuneSize, Lines, 0, 1) == Some(1)
    ensures RuneForward(Utf8.RuneSize, Lines, 1, 1) == Some(2)
  {
    assert Lines[0..][0] == 0x6C && Lines[1..][0] == 0x69;
  }

  /**
   * "#++" is the empty range at offset 2, not at offset 1: the second '+'
   * takes the first '+' as a rune step, and the '#' still holds for the
   * step the trailing '+' takes at the end. This holds on any buffer whose
   * first two bytes are one rune each.
   */
  lemma RuneModeOutlastsSigns(env: Env, data: seq<Byte>)
    requires RuneForward(env.runeSize, data, 0, 1) == Some(1)
    requires RuneForward(env.runeSize, data, 1, 1) == Some(2)
    ensures AddrToByteRange(env, data, "#++", 0) == Ok(Range(2, 2))
  {
    var c1 := Cursor(0, 0, NoDir, '#', true);
    var c2 := Cursor(0, 0, Fwd, '+', true);
    var c3 := Cursor(1, 1, Fwd, '+', true);
    HashStep(env, data, "++", Start(0));
    assert ['#'] + "++" == "#++";
    SignStep(env, data, '+', "+", c1);
    assert ['+'] + "+" == "++";
    SignAfterSign(env, data, '+', "", c2, Range(1, 1));
    assert ['+'] + "" == "+";
  }

  /**
   * With the '#' between the signs, "+#+" takes one rune step, not two:
   * the second '+' follows '#', not a sign, so the first '+' never takes
   * its step and only the trailing one does.
   */
  lemma HashSeparatesSigns(env: Env, data: seq<Byte>)
    requires RuneForward(env.runeSize, data, 0, 1) == Some(1)
    ensures AddrToByteRange(env, data, "+#+", 0) == Ok(Range(1, 1))
  {
    var c1 := Cursor(0, 0, Fwd, '+', false);
    var c2 := Cursor(0, 0, Fwd, '#', true);
    SignStep(env, data, '+', "#+", Start(0));
    assert ['+'] + "#+" == "+#+";
    HashStep(env, data, "+", c1);
    assert ['#'] + "+" == "#+";
    TrailingSignSteps(env, data, '+', c2);
  }

  /** So on Lines "#++" is [2, 2). */
  lemma RuneModeOnLines()
    ensures AddrToByteRange(LiteralEnv(), Lines, "#++", 0) == Ok(Range(2, 2))
  {
    OneRuneSteps();
    RuneModeOutlastsSigns(LiteralEnv(), Lines);
  }

  /** The euro sign E2 82 AC is one three-byte rune. */
  lemma EuroIsOneRune(data: seq<Byte>)
    requires data == [0xE2, 0x82, 0xAC, 0x61]
    ensures RuneForward(Utf8.RuneSize, data, 0, 1) == Some(3)
  {
    assert data[0..] == data;
    assert Utf8.RuneSize(data) == 3;
  }

  /**
   * An address that starts with U+00E9, two bytes C3 A9 in a Go string,
   * fails naming the first of those bytes, C3.
   */
  lemma InvalidNamesFirstByte(env: Env, data: seq<Byte>, rest: string, start: nat)
    requires start <= |data|
    ensures AddrToByteRange(env, data, ['\U{00E9}'] + rest, start) == Err(InvalidAddress(0xC3))
  {
    InvalidAddressFails(env, data, '\U{00E9}', rest, start);
    assert Utf8.Encode('\U{00E9}')[0] == 0xC3;
  }

  /** "+#1" over the bytes of "€a" steps over the whole three-byte euro sign. */
  lemma RuneStepOverEuro(data: seq<Byte>)
    requires data == [0xE2, 0x82, 0xAC, 0x61]
    ensures AddrToByteRange(LiteralEnv(), data, "+#1", 0) == Ok(Range(3, 3))
  {
    var env := LiteralEnv();
    EuroIsOneRune(data);
    var c1 := Cursor(0, 0, Fwd, '+', false);
    var c2 := Cursor(0, 0, Fwd, '#', true);
    var c3 := Cursor(3, 3, NoDir, '1', false);
    assert "+#1"[1..] == "#1" && "#1"[1..] == "1";
    assert Token(env, data, "+#1", Start(0)) == Ok((c1, "#1"));
    assert Token(env, data, "#1", c1) == Ok((c2, "1"));
    assert Number(env, data, 0, 0, Fwd, 1, true) == Ok(Range(3, 3));
    LeadingDigit(LiteralEnv(), data, '1', "", c2, Range(3, 3));
    assert ['1'] + "" == "1";
    assert Eval(env, data, "1", c2) == Ok(Range(3, 3));
    assert Eval(env, data, "#1", c1) == Ok(Range(3, 3));
  }

  /** A text that starts with the pattern matches at offset 0. */
  lemma LiteralAtStart(p: string, text: seq<Byte>)
    requires MatchesAt(p, text, 0)
    ensures Literal(p, text) == Some(Range(0, |p|))
  {
  }

  /** A text shorter than the pattern has no match. */
  lemma LiteralTooShort(p: string, text: seq<Byte>)
    requires |text| < |p|
    ensures Literal(p, text) == None
  {
  }

  /**
   * Searching "abcXabc" for abc: from offset 4 the match is the second
   * abc; from the end the search wraps to the first.
   */
  lemma SearchWrapsAround(data: seq<Byte>)
    requires data == [0x61, 0x62, 0x63, 0x58, 0x61, 0x62, 0x63]
    ensures AddrRegexp((p: string) => true, Literal, data, 4, NoDir, "abc") == Ok(Range(4, 7))
    ensures AddrRegexp((p: string) => true, Literal, data, 7, NoDir, "abc") == Ok(Range(0, 3))
  {
    var p := "abc";
    assert p[0] as int == 0x61 && p[1] as int == 0x62 && p[2] as int == 0x63;
    assert MatchesAt(p, data[4..], 0);
    LiteralAtStart(p, data[4..]);
    LiteralTooShort(p, data[7..]);
    assert MatchesAt(p, data, 0);
    LiteralAtStart(p, data);
  }

  /** "$" is the empty range at the end of the buffer. */
  lemma EndAddress()
    ensures AddrToByteRange(LiteralEnv(), Lines, "$", 0) == Ok(Range(18, 18))
  {
    DollarIsEnd(LiteralEnv(), Lines, 0);
  }

  /** "2" is line 2 from offset 6 as well. */
  lemma SecondLineFrom6()
    ensures Eval(LiteralEnv(), Lines, "2", Start(6)) == Ok(Range(6, 12))
  {
    LineNumbers();
    LeadingDigit(LiteralEnv(), Lines, '2', "", Start(6), Range(6, 12));
    assert ['2'] + "" == "2";
  }

  /** "1,2" runs from the start of line 1 to the end of line 2. */
  lemma LineSpanAddress()
    ensures AddrToByteRange(LiteralEnv(), Lines, "1,2", 0) == Ok(Range(0, 12))
  {
    var env := LiteralEnv();
    var c := Cursor(0, 6, NoDir, '1', false);
    LineOneToken(",2");
    assert ['1'] + ",2" == "1,2";
    EvalStep(env, Lines, "1,2", Start(0), c, ",2");
    SecondLineFrom6();
    assert ",2"[1..] == "2";
    assert Eval(env, Lines, ",2", c) == Ok(Range(0, 12));
  }

  /** "0,$" is the whole buffer. */
  lemma WholeBufferAddress()
    ensures AddrToByteRange(LiteralEnv(), Lines, "0,$", 0) == Ok(Range(0, 18))
  {
    var env := LiteralEnv();
    LeadingDigit(LiteralEnv(), Lines, '0', ",$", Start(0), Range(0, 0));
    assert ['0'] + ",$" == "0,$" && ",$"[1..] == "$";
    EndAddress();
    var c := Cursor(0, 0, NoDir, '0', false);
    assert Eval(env, Lines, ",$", c) == Ok(Range(0, 18));
  }
}
