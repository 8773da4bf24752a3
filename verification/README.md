# Codewalk addresses and the toolchain proxy, in Dafny

This project models two small pieces of the Go website server.

**Codewalk addresses** (`internal/codewalk/codewalk.go`). A codewalk step names a region of a source file with a sam-style address, such as `2`, `1,2`, `$`, `+#5` or `/re/`. `addrToByteRange` reads the address left to right and resolves it to a byte range `[lo, hi)`. The model covers:

- the evaluator loop and its `','` recursion;
- `addrNumber`, which takes line and rune steps forward and backward;
- `addrRegexp`, a forward search that wraps around to the start;
- `lineToByte` and `byteToLine`;
- widening a range to whole lines and recording the step's line numbers;
- the cut points of a file print, including the context mark four lines above the highlight.

**Toolchain proxy** (`internal/dl/server.go`). The model covers:

- the module version list, with one line per downloadable archive;
- the redirect from a module proxy path to the file on the download host.

Modules:

- `Buffer`: bytes, newline counting and line boundaries.
- `LineIndex`: line number ↔ byte offset.
- `Snippet`: line widening, step lines and file-print cut points.
- `Stepper`: `addrNumber` and its scans.
- `Search`: `addrRegexp`.
- `Address`: the evaluator.
- `Utf8`: a UTF-8 rune-size function that follows section 4 of RFC 3629, and the UTF-8 encoding of a character.
- `AddressExamples`: concrete buffers.
- `Toolchain`: the version list and the redirect.
- `Wrappers`: `Option` and `Result`.

Three things come from outside the evaluator and are parameters of `Address.Env`:

- whether a pattern compiles;
- the leftmost match of a compiled pattern;
- the size of the rune at a position (`utf8.DecodeRune`).

A match is only required to lie inside the searched bytes. A rune size is only required to be between 1 and the bytes left.

The evaluator models the Go code as written, including these quirks:

- A pending `+`/`-` is dropped when a `','` is reached. `"2+,"` is line 2 to the end of the buffer.
- `#` survives `+` and `-` signs. Only a digit run or a `','` clears it.
- `#` also counts as the previous character, so a sign right after it does not take the step of a sign before it: `"+#+"` takes one rune step and `"#++"` takes two.
- A bare number resets the range to `[0, 0)` before it steps.
- `-1` is the empty range at the start of the current line, the same as `-0`.
- `-#n` looks at the byte at `lo` before the bytes below it, so it can stop inside a multi-byte rune.
- After a `/re/` the pending direction is kept.
- The loop reads the address byte by byte, so the error for a character that starts no token names the first byte of its UTF-8 encoding, read as a Latin-1 rune (C3 for `é`).

Two inputs make the Go code index out of bounds. The evaluator reports both as `IndexPanic`:

- a backward rune step from the very end of the buffer;
- an unterminated pattern ending in a backslash that escapes nothing (`/a\` panics, `/a\\` does not).

A `','` address can produce `lo > hi`, for example `"3,1"`. A reader might expect `lo <= hi`; the code does not guarantee it. The model keeps what the code does: `Address.Eval` promises `lo <= hi` only for addresses without a `','`.

The file print computes the line after `hi` as `hi+1` in Go's 64-bit `int`. For `hi` (or `lo`, when `hi` is below it) equal to the largest `int`, the sum wraps to the smallest `int`, and `lineToByte` maps it to offset 0. The highlight then starts at `lineToByte(lo)` and ends at 0, so the `lo < hi` test never lets a highlight through. The page prints `data[:lineToByte(lo)]` and then the whole file again from offset 0. The whole file appears twice only when `lineToByte(lo)` is the end of the file, for example when `lo` is also the largest `int`. With `lo` equal to 1 the first part is empty and the file appears once, unhighlighted. `Snippet.FileprintSpans` models the wrap. `Snippet.FileprintWrapsAtMaxInt` exhibits the doubled file, and `Snippet.FileprintWrapsFromFirstLine` the single copy.

## Model

| member | source | states |
|---|---|---|
| Buffer.LineStart | internal/codewalk/codewalk.go:181-183 | The result is at or before i. It is a line start, and no newline lies between it and i. |
| Buffer.LineEnd | internal/codewalk/codewalk.go:184-186 | The result is at or after i and within the buffer. It is the buffer end or just past a newline, and no newline lies before it from i - 1 on, so it is the first such offset. |
| LineIndex.NewlineEnd | internal/codewalk/codewalk.go:504-511 | From i, the result is the buffer end when fewer than k newlines remain, and otherwise just past the k-th newline, with exactly k newlines between i and it. |
| LineIndex.LineToByte | internal/codewalk/codewalk.go:499-512 | Any n <= 1 gives 0. A line past the last newline clamps to the buffer length. Otherwise the result is just past the (n-1)-th newline. |
| LineIndex.LineNumberFrom | internal/codewalk/codewalk.go:517-525 | Continuing the count l from j, the result adds the newlines from j up to i, or up to the buffer end when i is outside [j, len). |
| LineIndex.LineCount | internal/codewalk/codewalk.go:515-526 | The largest line number byteToLine returns is between 1 and one more than the number of bytes. |
| LineIndex.ByteToLine | internal/codewalk/codewalk.go:515-526 | The line number is one more than the newlines before i. An i outside the buffer counts every newline. |
| LineIndex.ByteToLineOfLineToByte | internal/codewalk/codewalk.go:499-526 | For every line number from 1 to the line count, the line of that line's first byte is the same number. |
| LineIndex.LineToByteOfByteToLine | internal/codewalk/codewalk.go:499-526 | For every offset, the first byte of its line is the start of the line holding that offset. |
| LineIndex.LineToByteMonotone | internal/codewalk/codewalk.go:499-512 | A larger line number never maps to an earlier offset. |
| Snippet.ExpandToLines | internal/codewalk/codewalk.go:180-186 | lo moves back to a line start with no newline skipped. hi moves forward to the buffer end or just past the first newline at or after hi - 1. The widened range contains the original. |
| Snippet.ExpandIdempotent | internal/codewalk/codewalk.go:180-186 | Widening an already widened range changes nothing. |
| Snippet.StepLines | internal/codewalk/codewalk.go:180-188 | The recorded first and last lines are both between 1 and the line count. |
| Snippet.StepLinesPrintBack | internal/codewalk/codewalk.go:180-188 | Printing the recorded lines highlights exactly the widened range when that range is not empty. |
| Snippet.EmptyStepInvertsLines | internal/codewalk/codewalk.go:187-188 | When the widened range is empty and past offset 0, the recorded last line is one below the first. |
| Snippet.LinesOfWholeLines | internal/codewalk/codewalk.go:257-263 | For a range of whole lines, printing from the line of its first byte to the line of its last byte cuts at exactly the range's ends. |
| Snippet.MarkFrom | internal/codewalk/codewalk.go:270-276 | With fewer than n newlines before the start, the scan reaches 0. Otherwise it stops just after the n-th newline, with n - 1 newlines between there and the start. |
| Snippet.ContextMark | internal/codewalk/codewalk.go:267-276 | mark <= lo. mark is 0 exactly when fewer than four newlines precede lo. Otherwise data[mark-1] is a newline and data[mark..lo] holds exactly three. |
| Snippet.FileprintSpans | internal/codewalk/codewalk.go:257-276 | For 64-bit line numbers, mark <= lo <= len and hi <= len, both line starts or the buffer end. mark is the context mark of lo. lo is the first byte of loLine. With hiLine first raised to loLine and below the largest int, lo <= hi and hi is the first byte of the line after hiLine. At the largest int, hiLine+1 wraps and hi is 0. |
| Snippet.HighlightEnd | internal/codewalk/codewalk.go:259-263 | With hiLine already raised to at least loLine: below the largest int, the end is the first byte of the line after hiLine and not before lo. At the largest int, the successor wraps and the end is 0. |
| Snippet.FileprintWrapsAtMaxInt | internal/codewalk/codewalk.go:259-263 | With lo the largest int, on any buffer shorter than that, the highlight starts at the buffer end and ends at offset 0. |
| Snippet.FileprintWrapsFromFirstLine | internal/codewalk/codewalk.go:259-276 | From line 1 to the largest int, on any buffer, mark, lo and hi are all 0, so nothing is highlighted and the file is printed once. |
| Stepper.RuneForward | internal/codewalk/codewalk.go:399-408 | Zero steps stay put. A success moves at least one byte per rune and stays in the buffer. More runes than bytes left always fails. |
| Stepper.RuneForwardAdds | internal/codewalk/codewalk.go:399-408 | Stepping a runes and then b runes is the same as stepping a + b runes. |
| Stepper.ScanLines | internal/codewalk/codewalk.go:420-430 | A found range starts at or after lo, ends past hi and inside the buffer, and is not empty. |
| Stepper.ScanLinesFails | internal/codewalk/codewalk.go:420-430 | The forward line scan fails exactly when fewer than n newlines remain. |
| Stepper.LineForward | internal/codewalk/codewalk.go:410-430 | From the end s of hi's line, 0 lines is [s, s). n lines fails with OutOfRange exactly when fewer than n newlines follow s. Otherwise the result is the single whole line n - 1 newlines after s: it starts at a line start and ends just past its only newline. |
| Stepper.ForwardFromStartIsLine | internal/codewalk/codewalk.go:410-430 | From offset 0, n lines forward is [lineToByte(n), lineToByte(n+1)) for n up to the newline count, and OutOfRange past it. |
| Stepper.LineIsNumbered | internal/codewalk/codewalk.go:499-512 | A line start with n - 1 newlines before it, running to just past the next newline, is exactly [lineToByte(n), lineToByte(n+1)). |
| Stepper.RuneBackward | internal/codewalk/codewalk.go:433-445 | Zero steps stay put. The scan fails exactly when it reaches 0 or meets fewer than n lead bytes in data[1..pos]. On success it stops one below the n-th lead byte, counting down from pos. |
| Stepper.RuneBackwardCanSplitRune | internal/codewalk/codewalk.go:433-445 | On the bytes C3 A9 78, one rune back from offset 2 lands at offset 1. That is a continuation byte, inside "é". |
| Stepper.ScanBack | internal/codewalk/codewalk.go:454-464 | The backward scan fails exactly when fewer than n - 1 newlines precede lo. Otherwise lo ends n - 1 newlines back at a line start, and hi ends at the line start met before it. |
| Stepper.LineBackward | internal/codewalk/codewalk.go:446-464 | From the start s of lo's line, 0 lines is [s, s). n lines fails with OutOfRange exactly when fewer than n - 1 newlines precede s. Otherwise lo and hi are line starts n - 1 and max(n - 2, 0) newlines before s. |
| Stepper.BackOneLineIsEmpty | internal/codewalk/codewalk.go:446-464 | One line back is the empty range at the start of the current line. |
| Stepper.AddrNumber | internal/codewalk/codewalk.go:391-467 | Every error is OutOfRange. A result is an ordered range of the buffer. A rune step gives an empty range. A forward step lands at or after hi, and a backward step ends at or before lo. |
| Search.AddrRegexp | internal/codewalk/codewalk.go:473-496 | A bad pattern fails first, then a backward search. A match in data[hi..] is taken, shifted by hi. Failing that, with hi > 0, the search wraps to the first match in the whole buffer. Otherwise it fails with NoMatch. |
| Address.DigitRun | internal/codewalk/codewalk.go:333-338 | The digit run is maximal. |
| Address.DecimalValue | internal/codewalk/codewalk.go:339 | A numeral of k digits has a value below 10^k. |
| Address.DecimalRoundTrip | internal/codewalk/codewalk.go:339-343 | Reading a numeral back gives the number it was written from. |
| Address.ScanPattern | internal/codewalk/codewalk.go:351-365 | The scan stops at a '/' and resumes after it, or runs off the end. It runs one past the end only after a final backslash. That the '/' is the first unescaped one is stated by `ScanPatternDelimits`. |
| Address.ScanPatternDelimits | internal/codewalk/codewalk.go:351-365 | For every pattern written with its slashes escaped, the scan of "/p/rest" closes right after p. |
| Address.Number | internal/codewalk/codewalk.go:433-438 | The call fails with IndexPanic exactly when a backward rune step starts at the buffer end. |
| Address.SignToken | internal/codewalk/codewalk.go:316-320 | A sign becomes the pending direction and the previous character, keeps '#', and stays inside the buffer. Its only errors come from the step it may take, never InvalidAddress. |
| Address.NumberToken | internal/codewalk/codewalk.go:332-349 | The token ends where the maximal digit run ends (`DigitRun(addr, 1)`). After it no direction and no '#' are pending, and the previous character is its first digit. What count it steps is `NumberStep`. |
| Address.DigitRunOfNumeral | internal/codewalk/codewalk.go:333-338 | The digit run of a numeral followed by a non-digit ends exactly at the numeral's end. |
| Address.NumberStep | internal/codewalk/codewalk.go:332-349 | A numeral N followed by a non-digit steps exactly N in the pending direction and mode. Evaluation then goes on with the rest, with nothing pending and N's first digit as the previous character. An error of the step is the address's error. |
| Address.PatternToken | internal/codewalk/codewalk.go:350-369 | A pattern token keeps the pending direction and '#', and resumes inside the address. Its errors are never InvalidAddress. |
| Address.BackwardPatternFails | internal/codewalk/codewalk.go:350-369 | With a backward direction pending, "/p/" with a compiling p fails with ReverseSearch. |
| Address.Token | internal/codewalk/codewalk.go:303-373 | One loop pass consumes a non-empty prefix and keeps the range ordered inside the buffer. A first character outside + - $ # / and the digits fails with InvalidAddress naming the first byte of its UTF-8 encoding. Any other first character never gives InvalidAddress. |
| Address.Finish | internal/codewalk/codewalk.go:376-378 | With no pending direction, the range is returned unchanged. |
| Address.Eval | internal/codewalk/codewalk.go:295-383 | Results lie inside the buffer and are ordered when the address has no ','. |
| Address.AddrToByteRange | internal/codewalk/codewalk.go:293-383 | Results lie inside the buffer and are ordered when the address has no ','. |
| Address.EvalSplitsAtComma | internal/codewalk/codewalk.go:303-315 | An address is its part before the first ',' evaluated alone, then finished. A trailing ',' stretches to the buffer end. Otherwise the rest is evaluated afresh from the left hi and keeps the left lo. |
| Address.LineNumberAddress | internal/codewalk/codewalk.go:332-349 | The address "N" selects line N, [lineToByte(N), lineToByte(N+1)), from any start. It is OutOfRange past the last newline. |
| Address.SignStep | internal/codewalk/codewalk.go:316-320 | A sign that does not follow a sign only becomes the pending direction. The rest of the address goes on from the same range, with '#' unchanged. |
| Address.SignAfterSign | internal/codewalk/codewalk.go:316-320 | A sign right after a sign first takes the earlier sign's step of count 1, still in rune mode if '#' was given. It then becomes the pending direction. |
| Address.HashStep | internal/codewalk/codewalk.go:329-372 | '#' switches the following signs and numbers to rune steps, until the next digit run or ',' switches them back. It also becomes the previous character, so a sign right after it takes no step for an earlier sign. Range and direction stay as they are. |
| Address.TrailingSignSteps | internal/codewalk/codewalk.go:376-378 | A sign that ends the address, and does not follow a sign, takes one step of count 1 in its direction from the current range. |
| Address.SignDroppedAtComma | internal/codewalk/codewalk.go:308-315 | A sign followed by a final ',' is dropped. The result runs from the current lo to the end of the buffer. |
| Address.PatternStep | internal/codewalk/codewalk.go:351-370 | A "/p/" whose search from the current hi succeeds moves the range to the match. The pending direction and '#' stay, and evaluation goes on right after the closing '/'. |
| Address.SearchKeepsDirection | internal/codewalk/codewalk.go:366-378 | "+/p/" is not the match of p: after the forward search succeeds, the '+' still pending takes one more line step from the match. |
| Address.DollarIsEnd | internal/codewalk/codewalk.go:322-327 | "$" alone is [len, len) on every buffer and from every start. |
| Address.DollarStep | internal/codewalk/codewalk.go:322-327 | A '$' moves to [len, len). With more address after it, a forward direction is left pending. A final '$' keeps the pending direction, and '#' is kept. |
| Address.InvalidAddressFails | internal/codewalk/codewalk.go:304-307 | An address starting with any character other than ',', + - $ # / or a digit fails with an error naming the first byte of that character's UTF-8 encoding. |
| Address.BackwardSearchFails | internal/codewalk/codewalk.go:478-482 | "-/p/" with a compiling p fails with ReverseSearch on every buffer. |
| AddressExamples.SampleAddresses | internal/codewalk/codewalk.go:295-383 | On "line1\nline2\nline3\n", "2" is [6, 12). |
| AddressExamples.LineSpanAddress | internal/codewalk/codewalk.go:308-315 | On the same buffer, "1,2" is [0, 12). |
| AddressExamples.EndAddress | internal/codewalk/codewalk.go:322-327 | On the same buffer, "$" is [18, 18). |
| AddressExamples.WholeBufferAddress | internal/codewalk/codewalk.go:308-327 | On the same buffer, "0,$" is [0, 18). |
| AddressExamples.PendingDirectionSteps | internal/codewalk/codewalk.go:376-378 | On the same buffer, "2+" is line 3, [12, 18). |
| AddressExamples.DirectionDroppedAtComma | internal/codewalk/codewalk.go:308-315 | On the same buffer, "2+," is [6, 18): the pending '+' is dropped at the ','. |
| AddressExamples.RuneModeOutlastsSigns | internal/codewalk/codewalk.go:316-331 | On any buffer whose first two bytes are one rune each, "#++" is [2, 2), not [1, 1): the second '+' takes the first one's rune step, and '#' still holds for the final step. |
| AddressExamples.HashSeparatesSigns | internal/codewalk/codewalk.go:316-372 | On any buffer whose first byte is one rune, "+#+" is [1, 1): the '#' between the signs stops the second from stepping for the first. |
| AddressExamples.InvalidNamesFirstByte | internal/codewalk/codewalk.go:304-307 | An address starting with U+00E9 fails naming the byte C3. |
| AddressExamples.RuneStepOverEuro | internal/codewalk/codewalk.go:399-408 | On the bytes of "€a", "+#1" steps over the whole three-byte rune, to [3, 3). |
| AddressExamples.AsciiRunesAreBytes | internal/codewalk/codewalk.go:399-408 | On ASCII bytes, n runes forward is n bytes forward, or failure past the end. |
| AddressExamples.SearchWrapsAround | internal/codewalk/codewalk.go:484-490 | In "abcXabc", abc from offset 4 is [4, 7). From the end it wraps to [0, 3). |
| Utf8.RuneSize | internal/codewalk/codewalk.go:402 | An empty input has size 0, and ASCII has size 1. Any other size is at most 4 and at most the bytes left. Every byte after the first is a continuation byte. |
| Utf8.Encode | internal/codewalk/codewalk.go:304-307 | One to four bytes. One byte exactly below U+0080, equal to the code point. Otherwise the lead byte is C0 + cp/64, E0 + cp/4096 or F0 + cp/0x40000 by length (at least C2), continuation bytes follow, and the last holds the low six bits. |
| Utf8.DecodesEncoding | internal/codewalk/codewalk.go:304-307 | The rune-size function reads the encoding of any character, whatever follows, as exactly one rune of that length. |
| Toolchain.Listed | internal/dl/server.go:91-93 | A file is listed when its kind is archive and its arch is not bootstrap. |
| Toolchain.ModuleArch | internal/dl/server.go:99-102 | No module name is armv6l. Every architecture other than armv6l keeps its name. |
| Toolchain.Entry | internal/dl/server.go:94-104 | Every entry starts with "v0.0.1-". An entry built from fields without a newline has none. |
| Toolchain.FileLines | internal/dl/server.go:90-105 | The lines of one release are the entries of its listed files in stored order, each followed by a newline. |
| Toolchain.ReleaseLines | internal/dl/server.go:89-106 | The lines of a group of releases are the entries of the listed files of all its releases in order, each followed by a newline. |
| Toolchain.ToolchainList | internal/dl/server.go:87-107 | The list is the entry of each listed file followed by a newline: stable releases first, then unstable, then archived, files in stored order. |
| Toolchain.ListLinesAreEntries | internal/dl/server.go:87-107 | When no field holds a newline, the lines of the list are exactly the entries of the listed files, in order. |
| Toolchain.OneEntryPerListedFile | internal/dl/server.go:91-93 | There is one entry per file with kind archive and an arch other than bootstrap. |
| Toolchain.ModuleArchMerges | internal/dl/server.go:99-102 | Two architectures get the same module name exactly when they are equal or are armv6l and arm. |
| Toolchain.Find | internal/dl/server.go:294 | The result is the first occurrence of the separator at or after i. None means there is none. |
| Toolchain.After | internal/dl/server.go:294 | When the separator occurs, the result is everything after its first occurrence. Otherwise it is empty. |
| Toolchain.ToolchainRedirect | internal/dl/server.go:288-301 | A method other than GET, HEAD or OPTIONS is refused. A redirect happens exactly when the text after the first "/@v/" starts with v0. or v1. and has no '/'. The target is the download host plus that text. |
| Toolchain.RedirectUnderRoute | internal/dl/server.go:45 | Under the registered route, a v0./v1. file name without '/' redirects to the download host under the same name. Anything else is NotFound. |
| Toolchain.ListPathNotForwarded | internal/dl/server.go:45-46 | The list path under the route is not redirected. |

## Left out

- HTTP plumbing and page rendering are I/O and templating: `ServeHTTP`, `redir`, `codewalkDir`, the HTML writing in `codewalkFileprint`, `getHandler`, `listHandler`, `serveJSON` and `uploadHandler`. The HTTP response writing in `toolchainList` and `toolchainRedirect` is also left out.
- Reading files and decoding codewalk XML in `loadCodewalk` is file I/O. Only the widening and line recording after `addrToByteRange` are modelled.
- The Go `regexp` engine is a parameter: a "compiles" predicate and a leftmost-match function whose matches lie inside the searched bytes.
- `utf8.DecodeRune` is a parameter. Any size between 1 and the bytes left is allowed. `Utf8.RuneSize` is one concrete choice, used by the examples.
- `strconv.Atoi`: numbers are unbounded naturals, so the overflow error of a very long digit run is not modelled.
- `strconv.Atoi` on the `lo`/`hi` form values of `codewalkFileprint`: the line numbers are inputs in Go's `int` range. Atoi's 0 for text that does not parse and its clamping of out-of-range values are not modelled; both give numbers in that range.
- `Address.Token`: the address is a string of Unicode characters, so an address that is not valid UTF-8 is not modelled. Apart from the byte named in the error, the loop only tests ASCII characters, which are one byte each.
- `Address.Eval`: when the right side of a `','` fails, Go returns `(lo, 0, err)`. The model returns only the error, which is all the callers read.
- `Address.Eval`: it does not promise `lo <= hi` for addresses with a `','`, because the code does not guarantee it.
- `Stepper.AddrNumber`: the backward rune step that indexes past the buffer is excluded by a precondition. `Address.Number` reports it as `IndexPanic`.
- The list data comes from the datastore, memcache or the embedded file, and is an input. Sorting and validation (`versionLess`, `fileRe`) are not part of this model, nor are the secret and key helpers.
- `Utf8.RuneSize`: it is not proved to agree with `utf8.DecodeRune` beyond the stated bounds.
