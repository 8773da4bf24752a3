/**
 * The sam-style address evaluator (addrToByteRange, codewalk.go:291-383):
 * an address such as "2", "1,2", "$", "+#5" or "/re/" is read left to
 * right and resolved to a byte range of the buffer.
 */
module Address {
  import opened Wrappers
  import opened Buffer
  import opened LineIndex
  import opened Stepper
  import opened Search
  import Utf8

  /** What the evaluator needs from outside: the regular-expression engine and the UTF-8 decoder. */
  datatype Env = Env(compiles: string -> bool, find: Finder, runeSize: Decoder)

  /**
   * The evaluator's running state: the current range, the pending
   * direction, the previous address character and whether the next count
   * is in runes ('#').
   */
  datatype Cursor = Cursor(lo: nat, hi: nat, dir: Dir, prevc: char, charOffset: bool)

  /** The state an evaluation starts from: the empty range at p, nothing pending. */
  function Start(p: nat): Cursor {
    Cursor(p, p, NoDir, '\0', false)
  }

  /** The current range is an ordered range of the buffer. */
  predicate Valid(data: seq<Byte>, c: Cursor) {
    c.lo <= c.hi <= |data|
  }

  predicate IsDigit(ch: char) {
    '0' <= ch <= '9'
  }

  predicate AllDigits(s: string) {
    forall k :: 0 <= k < |s| ==> IsDigit(s[k])
  }

  /** The end of the run of digits that starts the address (codewalk.go:333-338). */
  function DigitRun(addr: string, i: nat): (r: nat)
    requires 1 <= i <= |addr|
    ensures i <= r <= |addr|
    ensures forall k :: i <= k < r ==> IsDigit(addr[k])
    ensures r == |addr| || !IsDigit(addr[r])
    decreases |addr| - i
  {
    if i < |addr| && IsDigit(addr[i]) then DigitRun(addr, i + 1) else i
  }

  function Pow10(k: nat): (r: nat)
    ensures 1 <= r
  {
    if k == 0 then 1 else 10 * Pow10(k - 1)
  }

  /** The value of a decimal numeral (strconv.Atoi on digits alone): k digits stay below 10^k. */
  function DecimalValue(s: string): (v: nat)
    requires AllDigits(s)
    ensures v < Pow10(|s|)
  {
    if |s| == 0 then 0
    else DecimalValue(s[..|s| - 1]) * 10 + (s[|s| - 1] as int - '0' as int)
  }

  /** The decimal numeral of n, without leading zeros. */
  function Decimal(n: nat): (s: string)
    ensures 0 < |s| && AllDigits(s)
  {
    var d := ('0' as int + n % 10) as char;
    if n < 10 then [d] else Decimal(n / 10) + [d]
  }

  /** Reading a numeral back gives the number it was written from. */
  lemma {:induction false} DecimalRoundTrip(n: nat)
    ensures DecimalValue(Decimal(n)) == n
  {
    var s := Decimal(n);
    if n >= 10 {
      DecimalRoundTrip(n / 10);
      assert s[..|s| - 1] == Decimal(n / 10);
    }
  }

  /** Where a "/pattern/" token ends: the offset of its closing slash, and where the rest of the address begins. */
  datatype PatternEnd = PatternEnd(close: nat, next: nat)

  /**
   * Scan a "/pattern/" token from offset i for the closing '/', skipping
   * the character after each backslash (codewalk.go:352-365). Without a
   * closing slash the pattern runs to the end, one past it when the last
   * character is a backslash.
   */
  function ScanPattern(addr: string, i: nat): (r: PatternEnd)
    requires 1 <= i <= |addr| + 1
    requires i == |addr| + 1 ==> 0 < |addr| && addr[|addr| - 1] == '\\'
    ensures i <= r.close <= |addr| + 1
    ensures r.close < |addr| ==> addr[r.close] == '/' && r.next == r.close + 1
    ensures |addr| <= r.close ==> r.next == r.close
    ensures r.close == |addr| + 1 ==> 0 < |addr| && addr[|addr| - 1] == '\\'
    decreases |addr| + 1 - i
  {
    if |addr| <= i then PatternEnd(i, i)
    else if addr[i] == '\\' then ScanPattern(addr, i + 2)
    else if addr[i] == '/' then PatternEnd(i, i + 1)
    else ScanPattern(addr, i + 1)
  }

  /** A pattern as written between slashes: every '/' and the character after each backslash is escaped. */
  predicate Escaped(p: string)
    decreases |p|
  {
    if |p| == 0 then true
    else if p[0] == '\\' then 2 <= |p| && Escaped(p[2..])
    else p[0] != '/' && Escaped(p[1..])
  }

  /** The scan of "/" + p + "/" + rest stops at the slash after p, for every escaped p. */
  lemma {:induction false} ScanPatternDelimits(p: string, rest: string, i: nat)
    requires 1 <= i <= |p| + 1 && Escaped(p[i - 1..])
    ensures var addr := "/" + p + "/" + rest;
      ScanPattern(addr, i) == PatternEnd(|p| + 1, |p| + 2)
    decreases |p| + 1 - i
  {
    var addr := "/" + p + "/" + rest;
    var q := p[i - 1..];
    if i <= |p| {
      assert addr[i] == q[0];
      if q[0] == '\\' {
        assert q[2..] == p[i + 1..];
        ScanPatternDelimits(p, rest, i + 2);
      } else {
        assert q[1..] == p[i..];
        ScanPatternDelimits(p, rest, i + 1);
      }
    }
  }

  /** The Go code panics on a backward rune step from the very end of the buffer; that is reported as IndexPanic. */
  function Number(env: Env, data: seq<Byte>, lo: nat, hi: nat, dir: Dir, n: nat, charOffset: bool)
    : (r: Result<Range, AddrError>)
    requires lo <= hi <= |data|
    ensures r.Ok? ==> r.value.lo <= r.value.hi <= |data|
    ensures Panics(data, lo, dir, n, charOffset) <==> r == Err(IndexPanic)
  {
    if Panics(data, lo, dir, n, charOffset) then Err(IndexPanic)
    else AddrNumber(env.runeSize, data, lo, hi, dir, n, charOffset)
  }

  /** The characters an address may start a token with: + - $ # / and the digits. */
  predicate Addressing(ch: char) {
    ch == '+' || ch == '-' || ch == '$' || ch == '#' || ch == '/' || IsDigit(ch)
  }

  function DirOf(ch: char): Dir {
    if ch == '+' then Fwd else Bwd
  }

  /**
   * A '+' or '-' (codewalk.go:316-320): right after another sign it first
   * takes that sign's step of count 1, then becomes the pending direction.
   */
  function SignToken(env: Env, data: seq<Byte>, ch: char, c: Cursor): (r: Result<Cursor, AddrError>)
    requires (ch == '+' || ch == '-') && Valid(data, c)
    ensures r.Ok? ==> Valid(data, r.value) && r.value.dir == DirOf(ch) && r.value.prevc == ch
    ensures r.Ok? ==> r.value.charOffset == c.charOffset
    ensures r.Err? ==> !r.error.InvalidAddress?
  {
    if c.prevc == '+' || c.prevc == '-' then
      match Number(env, data, c.lo, c.hi, DirOf(c.prevc), 1, c.charOffset)
      case Err(e) => Err(e)
      case Ok(r) => Ok(Cursor(r.lo, r.hi, DirOf(ch), ch, c.charOffset))
    else Ok(c.(dir := DirOf(ch), prevc := ch))
  }

  /**
   * A run of digits (codewalk.go:332-349): a count in the pending
   * direction, after which neither a direction nor '#' is pending. The
   * result also holds where the run ends.
   */
  function NumberToken(env: Env, data: seq<Byte>, addr: string, c: Cursor): (r: Result<(Cursor, nat), AddrError>)
    requires addr != [] && IsDigit(addr[0]) && Valid(data, c)
    ensures r.Ok? ==> Valid(data, r.value.0) && r.value.1 == DigitRun(addr, 1)
    ensures r.Ok? ==> r.value.0.dir == NoDir && !r.value.0.charOffset && r.value.0.prevc == addr[0]
    ensures r.Err? ==> !r.error.InvalidAddress?
  {
    var i := DigitRun(addr, 1);
    match Number(env, data, c.lo, c.hi, c.dir, DecimalValue(addr[..i]), c.charOffset)
    case Err(e) => Err(e)
    case Ok(r) => Ok((Cursor(r.lo, r.hi, NoDir, addr[0], false), i))
  }

  /**
   * A "/pattern/" (codewalk.go:351-368): a search from the current hi in
   * the pending direction; the direction and '#' stay pending. The result
   * also holds where the rest of the address begins.
   */
  function PatternToken(env: Env, data: seq<Byte>, addr: string, c: Cursor): (r: Result<(Cursor, nat), AddrError>)
    requires addr != [] && addr[0] == '/' && Valid(data, c)
    ensures r.Ok? ==> Valid(data, r.value.0) && 1 <= r.value.1 <= |addr|
    ensures r.Ok? ==> r.value.0.dir == c.dir && r.value.0.charOffset == c.charOffset
    ensures r.Err? ==> !r.error.InvalidAddress?
  {
    var end := ScanPattern(addr, 1);
    if |addr| < end.close then Err(IndexPanic)
    else
      match AddrRegexp(env.compiles, env.find, data, c.hi, c.dir, addr[1..end.close])
      case Err(e) => Err(e)
      case Ok(r) => Ok((c.(lo := r.lo, hi := r.hi, prevc := '/'), end.next))
  }

  /**
   * One pass of the evaluation loop on an address that does not start with
   * ',' (codewalk.go:304-373): the new state and the rest of the address.
   */
  function Token(env: Env, data: seq<Byte>, addr: string, c: Cursor): (r: Result<(Cursor, string), AddrError>)
    requires addr != [] && addr[0] != ','
    requires Valid(data, c)
    ensures r.Ok? ==> Valid(data, r.value.0)
    ensures r.Ok? ==> |r.value.1| < |addr| && r.value.1 == addr[|addr| - |r.value.1|..]
    ensures Addressing(addr[0]) ==> !(r.Err? && r.error.InvalidAddress?)
    ensures !Addressing(addr[0]) ==> r == Err(InvalidAddress(Utf8.Encode(addr[0])[0]))
  {
    var ch := addr[0];
    if ch == '+' || ch == '-' then
      match SignToken(env, data, ch, c)
      case Err(e) => Err(e)
      case Ok(c') => Ok((c', addr[1..]))
    else if ch == '$' then
      Ok((Cursor(|data|, |data|, if 1 < |addr| then Fwd else c.dir, ch, c.charOffset), addr[1..]))
    else if ch == '#' then
      Ok((c.(charOffset := true, prevc := ch), addr[1..]))
    else if IsDigit(ch) then
      match NumberToken(env, data, addr, c)
      case Err(e) => Err(e)
      case Ok((c', i)) => Ok((c', addr[i..]))
    else if ch == '/' then
      match PatternToken(env, data, addr, c)
      case Err(e) => Err(e)
      case Ok((c', j)) => Ok((c', addr[j..]))
    else Err(InvalidAddress(Utf8.Encode(ch)[0]))
  }

  /** At the end of the address a pending direction takes one step of count 1 (codewalk.go:376-378). */
  function Finish(env: Env, data: seq<Byte>, c: Cursor): (r: Result<Range, AddrError>)
    requires Valid(data, c)
    ensures r.Ok? ==> r.value.lo <= r.value.hi <= |data|
    ensures c.dir == NoDir ==> r == Ok(Range(c.lo, c.hi))
  {
    if c.dir == NoDir then Ok(Range(c.lo, c.hi))
    else Number(env, data, c.lo, c.hi, c.dir, 1, c.charOffset)
  }

  /**
   * Evaluate the rest of an address from state c. A ',' ends the left
   * address where it stands, dropping any pending direction; the right
   * address starts afresh at the left's hi, and an empty right address
   * means the end of the buffer.
   */
  function Eval(env: Env, data: seq<Byte>, addr: string, c: Cursor): (r: Result<Range, AddrError>)
    requires Valid(data, c)
    ensures r.Ok? ==> r.value.lo <= |data| && r.value.hi <= |data|
    ensures r.Ok? && ',' !in addr ==> r.value.lo <= r.value.hi
    decreases |addr|
  {
    if addr == [] then Finish(env, data, c)
    else if addr[0] == ',' then
      if |addr| == 1 then Ok(Range(c.lo, |data|))
      else
        match Eval(env, data, addr[1..], Start(c.hi))
        case Err(e) => Err(e)
        case Ok(right) => Ok(Range(c.lo, right.hi))
    else
      match Token(env, data, addr, c)
      case Err(e) => Err(e)
      case Ok((c', rest)) =>
        assert ',' !in addr ==> ',' !in rest;
        Eval(env, data, rest, c')
  }

  /** The byte range of an address evaluated from offset start (addrToByteRange). */
  function AddrToByteRange(env: Env, data: seq<Byte>, addr: string, start: nat): (r: Result<Range, AddrError>)
    requires start <= |data|
    ensures r.Ok? ==> r.value.lo <= |data| && r.value.hi <= |data|
    ensures r.Ok? && ',' !in addr ==> r.value.lo <= r.value.hi
  {
    Eval(env, data, addr, Start(start))
  }

  /**
   * Evaluate an address up to its first ',' outside a pattern, or its end,
   * without finishing a pending direction: the state reached and the rest
   * of the address, which is empty or starts with ','.
   */
  function Run(env: Env, data: seq<Byte>, addr: string, c: Cursor): (r: Result<(Cursor, string), AddrError>)
    requires Valid(data, c)
    ensures r.Ok? ==> Valid(data, r.value.0) && |r.value.1| <= |addr|
    ensures r.Ok? ==> r.value.1 == [] || r.value.1[0] == ','
    decreases |addr|
  {
    if addr == [] || addr[0] == ',' then Ok((c, addr))
    else
      match Token(env, data, addr, c)
      case Err(e) => Err(e)
      case Ok((c', rest)) => Run(env, data, rest, c')
  }

  /**
   * An address is its part before the first ',' evaluated on its own,
   * then: with nothing left, the pending direction finished; with ','
   * last, the range stretched to the end of the buffer; otherwise the
   * left range's lo with the hi of the rest evaluated from the left hi.
   */
  lemma {:induction false} EvalSplitsAtComma(env: Env, data: seq<Byte>, addr: string, c: Cursor)
    requires Valid(data, c)
    ensures Eval(env, data, addr, c) ==
      match Run(env, data, addr, c)
      case Err(e) => Err(e)
      case Ok((left, rest)) =>
        if rest == [] then Finish(env, data, left)
        else if |rest| == 1 then Ok(Range(left.lo, |data|))
        else
          match Eval(env, data, rest[1..], Start(left.hi))
          case Err(e) => Err(e)
          case Ok(right) => Ok(Range(left.lo, right.hi))
    decreases |addr|
  {
    if addr != [] && addr[0] != ',' {
      match Token(env, data, addr, c)
      case Err(e) =>
      case Ok((c', rest)) => EvalSplitsAtComma(env, data, rest, c');
    }
  }

  /** The digit run of a numeral followed by anything but a digit ends with the numeral. */
  lemma {:induction false} DigitRunOfNumeral(s: string, rest: string, i: nat)
    requires 1 <= i <= |s| && AllDigits(s)
    requires rest == [] || !IsDigit(rest[0])
    ensures DigitRun(s + rest, i) == |s|
    decreases |s| - i
  {
    var addr := s + rest;
    if i < |s| {
      assert addr[i] == s[i];
      DigitRunOfNumeral(s, rest, i + 1);
    } else if rest != [] {
      assert addr[i] == rest[0];
    }
  }

  /**
   * A numeral N followed by anything but a digit steps N lines (or runes
   * after '#') in the pending direction, then evaluation goes on with the
   * rest of the address, nothing pending and N's first digit as the
   * previous character (codewalk.go:332-349).
   */
  lemma NumberStep(env: Env, data: seq<Byte>, n: nat, rest: string, c: Cursor)
    requires Valid(data, c)
    requires rest == [] || !IsDigit(rest[0])
    ensures var moved := Number(env, data, c.lo, c.hi, c.dir, n, c.charOffset);
      Eval(env, data, Decimal(n) + rest, c) ==
        if moved.Err? then Err(moved.error)
        else Eval(env, data, rest, Cursor(moved.value.lo, moved.value.hi, NoDir, Decimal(n)[0], false))
  {
    var s := Decimal(n);
    var addr := s + rest;
    DigitRunOfNumeral(s, rest, 1);
    assert addr[..|s|] == s && addr[|s|..] == rest && addr[0] == s[0];
    DecimalRoundTrip(n);
    assert IsDigit(addr[0]);
    match Number(env, data, c.lo, c.hi, c.dir, n, c.charOffset)
    case Err(e) =>
      assert Token(env, data, addr, c) == Err(e);
    case Ok(r) =>
      var c' := Cursor(r.lo, r.hi, NoDir, s[0], false);
      assert Token(env, data, addr, c) == Ok((c', rest));
  }

  /**
   * A decimal line number N selects line N: from the first byte of line N
   * up to the first byte of line N + 1, wherever evaluation starts; a
   * number past the last newline is out of range.
   */
  lemma LineNumberAddress(env: Env, data: seq<Byte>, n: nat, start: nat)
    requires start <= |data|
    ensures AddrToByteRange(env, data, Decimal(n), start) ==
      if n <= CountNl(data) then Ok(Range(LineToByte(data, n), LineToByte(data, n + 1)))
      else Err(OutOfRange)
  {
    var addr := Decimal(n);
    var c := Start(start);
    var i := DigitRun(addr, 1);
    assert i == |addr| && addr[..i] == addr;
    DecimalRoundTrip(n);
    ForwardFromStartIsLine(data, n);
    assert addr[i..] == [];
    assert IsDigit(addr[0]);
    var step := Number(env, data, start, start, NoDir, n, false);
    assert step == LineForward(data, 0, n);
    match step
    case Err(e) =>
      assert Token(env, data, addr, c) == Err(e);
    case Ok(r) =>
      var c' := Cursor(r.lo, r.hi, NoDir, addr[0], false);
      assert Token(env, data, addr, c) == Ok((c', []));
      assert Eval(env, data, [], c') == Ok(Range(r.lo, r.hi));
      assert Eval(env, data, addr, c) == Eval(env, data, [], c');
  }

  /**
   * Once the pattern compiles, a backward search fails whatever the
   * buffer holds.
   */
  lemma BackwardSearchFails(env: Env, data: seq<Byte>, p: string, start: nat)
    requires start <= |data|
    requires Escaped(p) && env.compiles(p)
    ensures AddrToByteRange(env, data, "-/" + p + "/", start) == Err(ReverseSearch)
  {
    var c' := Start(start).(dir := Bwd, prevc := '-');
    var tail := "/" + p + "/";
    assert "-/" + p + "/" == ['-'] + tail;
    BackwardPatternFails(env, data, p, c');
    PatternFails(env, data, tail, c', ReverseSearch);
    SignStep(env, data, '-', tail, Start(start));
  }

  /** A pattern token that fails ends the evaluation with its error. */
  lemma PatternFails(env: Env, data: seq<Byte>, addr: string, c: Cursor, e: AddrError)
    requires addr != [] && addr[0] == '/' && Valid(data, c)
    requires PatternToken(env, data, addr, c) == Err(e)
    ensures Eval(env, data, addr, c) == Err(e)
  {
    assert Token(env, data, addr, c) == Err(e);
  }

  /** The pattern token of "/p/" refuses a backward search once p compiles. */
  lemma BackwardPatternFails(env: Env, data: seq<Byte>, p: string, c: Cursor)
    requires Valid(data, c) && c.dir == Bwd
    requires Escaped(p) && env.compiles(p)
    ensures PatternToken(env, data, "/" + p + "/", c) == Err(ReverseSearch)
  {
    var tail := "/" + p + "/";
    assert tail == "/" + p + "/" + "";
    assert p[0..] == p;
    ScanPatternDelimits(p, "", 1);
    assert tail[1..|p| + 1] == p;
  }

  /**
   * A search does not clear the pending direction: "+/p/" finds p forward
   * from start and then takes one more line step from the match.
   */
  lemma SearchKeepsDirection(env: Env, data: seq<Byte>, p: string, start: nat, m: Range)
    requires start <= |data| && Escaped(p)
    requires AddrRegexp(env.compiles, env.find, data, start, Fwd, p) == Ok(m)
    ensures AddrToByteRange(env, data, "+/" + p + "/", start) == Number(env, data, m.lo, m.hi, Fwd, 1, false)
  {
    var c := Start(start);
    var c' := c.(dir := Fwd, prevc := '+');
    assert "+/" + p + "/" == ['+'] + ("/" + p + "/" + "");
    SignStep(env, data, '+', "/" + p + "/" + "", c);
    PatternStep(env, data, p, "", c', m);
  }

  /** A "/p/" with p's slashes escaped moves the range to the search result and keeps the rest pending. */
  lemma PatternStep(env: Env, data: seq<Byte>, p: string, rest: string, c: Cursor, m: Range)
    requires Valid(data, c) && Escaped(p)
    requires AddrRegexp(env.compiles, env.find, data, c.hi, c.dir, p) == Ok(m)
    ensures Eval(env, data, "/" + p + "/" + rest, c) == Eval(env, data, rest, c.(lo := m.lo, hi := m.hi, prevc := '/'))
  {
    var addr := "/" + p + "/" + rest;
    var c' := c.(lo := m.lo, hi := m.hi, prevc := '/');
    PatternTokenCloses(env, data, p, rest, c, m);
    assert addr[0] == '/' && addr[|p| + 2..] == rest;
    assert Token(env, data, addr, c) == Ok((c', rest));
    EvalStep(env, data, addr, c, c', rest);
  }

  /** The pattern token of "/p/rest" searches for p and ends right after the closing '/'. */
  lemma PatternTokenCloses(env: Env, data: seq<Byte>, p: string, rest: string, c: Cursor, m: Range)
    requires Valid(data, c) && Escaped(p)
    requires AddrRegexp(env.compiles, env.find, data, c.hi, c.dir, p) == Ok(m)
    ensures PatternToken(env, data, "/" + p + "/" + rest, c) == Ok((c.(lo := m.lo, hi := m.hi, prevc := '/'), |p| + 2))
  {
    var addr := "/" + p + "/" + rest;
    assert p[0..] == p;
    ScanPatternDelimits(p, rest, 1);
    assert addr[1..|p| + 1] == p;
  }

  /** "$" alone is the empty range at the end of the buffer, from any start. */
  lemma DollarIsEnd(env: Env, data: seq<Byte>, start: nat)
    requires start <= |data|
    ensures AddrToByteRange(env, data, "$", start) == Ok(Range(|data|, |data|))
  {
    assert "$"[1..] == [];
    assert Token(env, data, "$", Start(start)) == Ok((Cursor(|data|, |data|, NoDir, '$', false), []));
  }

  /**
   * A '$' moves to the empty range at the end of the buffer. When more of
   * the address follows, it also leaves a forward direction pending, so a
   * count right after it steps forward from the end; a '$' at the very
   * end keeps whatever direction was pending. '#' is kept.
   */
  lemma DollarStep(env: Env, data: seq<Byte>, rest: string, c: Cursor)
    requires Valid(data, c)
    ensures Eval(env, data, ['$'] + rest, c) ==
      Eval(env, data, rest, Cursor(|data|, |data|, if rest == [] then c.dir else Fwd, '$', c.charOffset))
  {
    assert (['$'] + rest)[0] == '$' && (['$'] + rest)[1..] == rest;
  }

  /** An address whose first character starts no token is an error naming that character. */
  lemma InvalidAddressFails(env: Env, data: seq<Byte>, ch: char, rest: string, start: nat)
    requires start <= |data| && ch != ',' && !Addressing(ch)
    ensures AddrToByteRange(env, data, [ch] + rest, start) == Err(InvalidAddress(Utf8.Encode(ch)[0]))
  {
    assert ([ch] + rest)[0] == ch;
  }

  /** A sign at the end of an address takes its step of count 1 from the current range. */
  lemma TrailingSignSteps(env: Env, data: seq<Byte>, ch: char, c: Cursor)
    requires (ch == '+' || ch == '-') && Valid(data, c)
    requires c.prevc != '+' && c.prevc != '-'
    ensures Eval(env, data, [ch], c) == Number(env, data, c.lo, c.hi, DirOf(ch), 1, c.charOffset)
  {
    var d := c.(dir := DirOf(ch), prevc := ch);
    assert [ch][1..] == [];
    assert Token(env, data, [ch], c) == Ok((d, []));
  }

  /** A sign just before a ',' is dropped: the left range stands and the right runs to the end. */
  lemma SignDroppedAtComma(env: Env, data: seq<Byte>, ch: char, c: Cursor)
    requires (ch == '+' || ch == '-') && Valid(data, c)
    requires c.prevc != '+' && c.prevc != '-'
    ensures Eval(env, data, [ch, ','], c) == Ok(Range(c.lo, |data|))
  {
    var d := c.(dir := DirOf(ch), prevc := ch);
    assert [ch, ','][1..] == [','];
    assert Token(env, data, [ch, ','], c) == Ok((d, [',']));
  }

  /** A sign after anything but a sign only becomes the pending direction. */
  lemma SignStep(env: Env, data: seq<Byte>, ch: char, rest: string, c: Cursor)
    requires (ch == '+' || ch == '-') && Valid(data, c)
    requires c.prevc != '+' && c.prevc != '-'
    ensures Eval(env, data, [ch] + rest, c) == Eval(env, data, rest, c.(dir := DirOf(ch), prevc := ch))
  {
    assert ([ch] + rest)[0] == ch && ([ch] + rest)[1..] == rest;
  }

  /**
   * A sign right after a sign first takes the earlier sign's step of
   * count 1, then becomes the pending direction; '#' stays in force.
   */
  lemma SignAfterSign(env: Env, data: seq<Byte>, ch: char, rest: string, c: Cursor, r: Range)
    requires (ch == '+' || ch == '-') && Valid(data, c)
    requires c.prevc == '+' || c.prevc == '-'
    requires Number(env, data, c.lo, c.hi, DirOf(c.prevc), 1, c.charOffset) == Ok(r)
    ensures Eval(env, data, [ch] + rest, c) == Eval(env, data, rest, Cursor(r.lo, r.hi, DirOf(ch), ch, c.charOffset))
  {
    assert ([ch] + rest)[0] == ch && ([ch] + rest)[1..] == rest;
  }

  /**
   * A '#' switches the following signs and numbers to rune steps, until
   * the next digit run or ',' switches them back; it also becomes the
   * previous character, so a sign right after it does not take the step
   * a sign before it left pending. Range and direction stay as they are.
   */
  lemma HashStep(env: Env, data: seq<Byte>, rest: string, c: Cursor)
    requires Valid(data, c)
    ensures Eval(env, data, ['#'] + rest, c) == Eval(env, data, rest, c.(charOffset := true, prevc := '#'))
  {
    assert (['#'] + rest)[0] == '#' && (['#'] + rest)[1..] == rest;
  }

  /** Evaluation proceeds token by token up to the first ','. */
  lemma EvalStep(env: Env, data: seq<Byte>, addr: string, c: Cursor, c': Cursor, rest: string)
    requires addr != [] && addr[0] != ',' && Valid(data, c)
    requires Token(env, data, addr, c) == Ok((c', rest))
    ensures Eval(env, data, addr, c) == Eval(env, data, rest, c')
  {
  }
}
