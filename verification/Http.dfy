/**
 * HTTP body framing (quilon-rt/src/http.rs): the blank line that ends a head, the chunked
 * decoder, and the incremental verdict on a request body that is still arriving.
 *
 * Text is modelled as its UTF-8 bytes and `usize` as a 64-bit word. The decoder is a method
 * with the source's loop, proved against `Dechunked`; which bodies it accepts, and how they
 * differ from those of RFC 9112, is the subject of `ChunkedGrammar`.
 */
module Http {
  import opened Wrappers

  newtype byte = b: int | 0 <= b < 256
  type Bytes = seq<byte>

  const USIZE_MAX: nat := 0xFFFF_FFFF_FFFF_FFFF

  const CR: byte := 13
  const LF: byte := 10
  const CRLF: Bytes := [13, 10]

  // ---------------------------------------------------------------- searching

  predicate OccursAt(haystack: Bytes, needle: Bytes, at: nat) {
    at + |needle| <= |haystack| && haystack[at..at + |needle|] == needle
  }

  /** The earliest window equal to `needle`, by the linear scan the source makes. */
  method FindSubslice(haystack: Bytes, needle: Bytes) returns (found: Option<nat>)
    ensures found == Find(haystack, needle, 0)
  {
    var at := 0;
    while at + |needle| <= |haystack|
      invariant Find(haystack, needle, 0) == Find(haystack, needle, at)
    {
      if haystack[at..at + |needle|] == needle {
        return Some(at);
      }
      at := at + 1;
    }
    return None;
  }

  function Find(haystack: Bytes, needle: Bytes, from: nat): (found: Option<nat>)
    ensures found.Some? ==> found.value + |needle| <= |haystack|
    decreases |haystack| - from
  {
    if from + |needle| > |haystack| then None
    else if OccursAt(haystack, needle, from) then Some(from)
    else Find(haystack, needle, from + 1)
  }

  /** Nothing occurs before the place found, and something occurs nowhere only if None. */
  lemma FindIsEarliest(haystack: Bytes, needle: Bytes, from: nat)
    ensures var found := Find(haystack, needle, from);
            && (found.Some? ==> from <= found.value && OccursAt(haystack, needle, found.value))
            && (forall j: nat :: from <= j && OccursAt(haystack, needle, j)
                                 ==> found.Some? && found.value <= j)
    decreases |haystack| - from
  {
    if from + |needle| <= |haystack| && !OccursAt(haystack, needle, from) {
      FindIsEarliest(haystack, needle, from + 1);
    }
  }

  lemma FindIsStable(haystack: Bytes, more: Bytes, needle: Bytes)
    requires Find(haystack, needle, 0).Some?
    ensures Find(haystack + more, needle, 0) == Find(haystack, needle, 0)
  {
    var at := Find(haystack, needle, 0).value;
    var all := haystack + more;
    FindIsEarliest(haystack, needle, 0);
    FindIsEarliest(all, needle, 0);
    assert OccursAt(all, needle, at);
    var found := Find(all, needle, 0).value;
    assert all[found..found + |needle|] == haystack[found..found + |needle|];
    assert OccursAt(haystack, needle, found);
  }

  const FULL: Bytes := [13, 10, 13, 10]
  const BARE: Bytes := [10, 10]
  const LATE: Bytes := [13, 10, 10]
  const EARLY: Bytes := [10, 13, 10]

  datatype Blank = Blank(at: nat, span: nat)

  function Earlier(best: Option<Blank>, candidate: Option<nat>, span: nat): Option<Blank> {
    if candidate.None? then best
    else if best.Some? && best.value.at <= candidate.value then best
    else Some(Blank(candidate.value, span))
  }

  /** The earliest match over the four spellings; a tie keeps the earlier spelling. */
  function FindBlankLine(raw: Bytes): Option<Blank> {
    Earlier(Earlier(Earlier(Earlier(None, Find(raw, FULL, 0), 4), Find(raw, BARE, 0), 2),
                    Find(raw, LATE, 0), 3), Find(raw, EARLY, 0), 3)
  }

  /** A blank line of `span` bytes begins at `at`, said byte by byte. */
  predicate BlankAt(raw: Bytes, at: nat, span: nat) {
    || (span == 2 && at + 2 <= |raw| && raw[at] == LF && raw[at + 1] == LF)
    || (span == 3 && at + 3 <= |raw| && raw[at] != raw[at + 1] && raw[at + 2] == LF
        && ((raw[at] == CR && raw[at + 1] == LF) || (raw[at] == LF && raw[at + 1] == CR)))
    || (span == 4 && at + 4 <= |raw| && raw[at] == CR && raw[at + 1] == LF
        && raw[at + 2] == CR && raw[at + 3] == LF)
  }

  lemma BlankAtIsASpelling(raw: Bytes, at: nat, span: nat)
    ensures BlankAt(raw, at, span) <==>
            || (span == 4 && OccursAt(raw, FULL, at))
            || (span == 2 && OccursAt(raw, BARE, at))
            || (span == 3 && OccursAt(raw, LATE, at))
            || (span == 3 && OccursAt(raw, EARLY, at))
  {
    if span == 2 && at + 2 <= |raw| {
      assert raw[at..at + 2] == [raw[at], raw[at + 1]];
    }
    if span == 3 && at + 3 <= |raw| {
      assert raw[at..at + 3] == [raw[at], raw[at + 1], raw[at + 2]];
    }
    if span == 4 && at + 4 <= |raw| {
      assert raw[at..at + 4] == [raw[at], raw[at + 1], raw[at + 2], raw[at + 3]];
    }
  }

  /** The four-way search finds the first blank line there is, and its only spelling. */
  lemma BlankLineIsEarliest(raw: Bytes)
    ensures var found := FindBlankLine(raw);
            && (found.Some? ==> BlankAt(raw, found.value.at, found.value.span))
            && (forall at: nat, span: nat :: BlankAt(raw, at, span)
                  ==> found.Some? && (found.value.at < at || found.value == Blank(at, span)))
  {
    var found := FindBlankLine(raw);
    if found.Some? {
      FoundIsBlank(raw);
    }
    forall at: nat, span: nat | BlankAt(raw, at, span)
      ensures found.Some? && (found.value.at < at || found.value == Blank(at, span))
    {
      BlankIsFound(raw, at, span);
      if found.value.at == at {
        FoundIsBlank(raw);
      }
    }
  }

  lemma FoundIsBlank(raw: Bytes)
    requires FindBlankLine(raw).Some?
    ensures BlankAt(raw, FindBlankLine(raw).value.at, FindBlankLine(raw).value.span)
  {
    var blank := FindBlankLine(raw).value;
    FindIsEarliest(raw, FULL, 0);
    FindIsEarliest(raw, BARE, 0);
    FindIsEarliest(raw, LATE, 0);
    FindIsEarliest(raw, EARLY, 0);
    BlankAtIsASpelling(raw, blank.at, blank.span);
  }

  lemma BlankIsFound(raw: Bytes, at: nat, span: nat)
    requires BlankAt(raw, at, span)
    ensures FindBlankLine(raw).Some? && FindBlankLine(raw).value.at <= at
  {
    BlankAtIsASpelling(raw, at, span);
    FindIsEarliest(raw, FULL, 0);
    FindIsEarliest(raw, BARE, 0);
    FindIsEarliest(raw, LATE, 0);
    FindIsEarliest(raw, EARLY, 0);
  }

  /** No byte received later can move a blank line already found. */
  lemma BlankLineIsStable(raw: Bytes, more: Bytes)
    requires FindBlankLine(raw).Some?
    ensures FindBlankLine(raw + more) == FindBlankLine(raw)
  {
    var here := FindBlankLine(raw).value;
    BlankLineIsEarliest(raw);
    BlankLineIsEarliest(raw + more);
    assert BlankAt(raw + more, here.at, here.span);
    var there := FindBlankLine(raw + more).value;
    assert BlankAt(raw, there.at, there.span);
  }

  // ---------------------------------------------------------------- numbers

  /** How many bytes a leading character of Unicode White_Space takes; 0 when there is none. */
  function LeadingSpace(s: Bytes): (width: nat)
    ensures width <= |s|
  {
    if |s| >= 1 && (9 <= s[0] <= 13 || s[0] == 32) then 1
    else if |s| >= 2 && s[0] == 0xC2 && (s[1] == 0x85 || s[1] == 0xA0) then 2
    else if |s| >= 3 && WideSpace(s[0], s[1], s[2]) then 3
    else 0
  }

  function TrailingSpace(s: Bytes): (width: nat)
    ensures width <= |s|
  {
    var n := |s|;
    if n >= 1 && (9 <= s[n - 1] <= 13 || s[n - 1] == 32) then 1
    else if n >= 2 && s[n - 2] == 0xC2 && (s[n - 1] == 0x85 || s[n - 1] == 0xA0) then 2
    else if n >= 3 && WideSpace(s[n - 3], s[n - 2], s[n - 1]) then 3
    else 0
  }

  predicate WideSpace(a: byte, b: byte, c: byte) {
    || (a == 0xE1 && b == 0x9A && c == 0x80)
    || (a == 0xE2 && b == 0x80 && (0x80 <= c <= 0x8A || c == 0xA8 || c == 0xA9 || c == 0xAF))
    || (a == 0xE2 && b == 0x81 && c == 0x9F)
    || (a == 0xE3 && b == 0x80 && c == 0x80)
  }

  function TrimStart(s: Bytes): Bytes
    decreases |s|
  {
    if LeadingSpace(s) == 0 then s else TrimStart(s[LeadingSpace(s)..])
  }

  function TrimEnd(s: Bytes): Bytes
    decreases |s|
  {
    if TrailingSpace(s) == 0 then s else TrimEnd(s[..|s| - TrailingSpace(s)])
  }

  function Trim(s: Bytes): Bytes { TrimEnd(TrimStart(s)) }

  function DigitOf(b: byte): Option<nat> {
    if 48 <= b <= 57 then Some(b as int - 48)
    else if 65 <= b <= 70 then Some(b as int - 55)
    else if 97 <= b <= 102 then Some(b as int - 87)
    else None
  }

  predicate AllDigits(digits: Bytes, radix: nat) {
    forall i :: 0 <= i < |digits| ==> DigitOf(digits[i]).Some? && DigitOf(digits[i]).value < radix
  }

  function Numeral(digits: Bytes, radix: nat): nat
    requires AllDigits(digits, radix)
  {
    if digits == [] then 0
    else Numeral(digits[..|digits| - 1], radix) * radix + DigitOf(digits[|digits| - 1]).value
  }

  /**
   * `usize::from_str_radix`: one leading `+` allowed, at least one digit, no overflow. Bytes
   * that are no UTF-8 hold a byte that is neither digit nor white space, so the source's
   * separate UTF-8 refusal is the same `None`.
   */
  function ParseUsize(text: Bytes, radix: nat): Option<nat> {
    var digits := if |text| > 0 && text[0] == 43 then text[1..] else text;
    if digits == [] || !AllDigits(digits, radix) || Numeral(digits, radix) > USIZE_MAX then None
    else Some(Numeral(digits, radix))
  }

  function BeforeSemicolon(line: Bytes): Bytes {
    var at := Find(line, [59], 0);
    if at.Some? then line[..at.value] else line
  }

  /** The chunk size a size line announces: hexadecimal, its extension ignored. */
  function SizeOf(line: Bytes): Option<nat> {
    ParseUsize(Trim(BeforeSemicolon(line)), 16)
  }

  function HexDigit(d: nat): (b: byte)
    requires d < 16
    ensures DigitOf(b) == Some(d)
  {
    if d < 10 then (48 + d) as byte else (87 + d) as byte
  }

  /** A number as the shortest lower-case hexadecimal numeral, the way a sender writes it. */
  function Hex(n: nat): (digits: Bytes)
    ensures digits != [] && AllDigits(digits, 16) && Numeral(digits, 16) == n
  {
    if n < 16 then
      var digits := [HexDigit(n)];
      assert Numeral(digits, 16) == Numeral(digits[..0], 16) * 16 + n;
      digits
    else
      var front := Hex(n / 16);
      var digits := front + [HexDigit(n % 16)];
      assert digits[..|digits| - 1] == front;
      digits
  }

  lemma DigitsBeforeSemicolon(digits: Bytes, extension: Bytes)
    requires AllDigits(digits, 16)
    requires extension == [] || extension[0] == 59
    ensures BeforeSemicolon(digits + extension) == digits
  {
    var line := digits + extension;
    FindIsEarliest(line, [59], 0);
    forall i: nat | i < |digits| ensures !OccursAt(line, [59], i) {
      assert line[i..i + 1] == [digits[i]];
    }
    if extension != [] {
      assert line[|digits|..|digits| + 1] == [59];
      assert OccursAt(line, [59], |digits|);
      assert line[..|digits|] == digits;
    } else {
      assert line == digits;
    }
  }

  lemma DigitsAreTrim(digits: Bytes)
    requires digits != [] && AllDigits(digits, 16)
    ensures Trim(digits) == digits
  {
    assert DigitOf(digits[0]).Some? && DigitOf(digits[|digits| - 1]).Some?;
  }

  /** Every 64-bit size a sender writes in hexadecimal, with any extension, is read back. */
  lemma SizeRoundTrip(n: nat, extension: Bytes)
    requires n <= USIZE_MAX
    requires extension == [] || extension[0] == 59
    ensures SizeOf(Hex(n) + extension) == Some(n)
  {
    SizeOfDigits(Hex(n), extension);
  }

  lemma SizeOfDigits(digits: Bytes, extension: Bytes)
    requires digits != [] && AllDigits(digits, 16) && Numeral(digits, 16) <= USIZE_MAX
    requires extension == [] || extension[0] == 59
    ensures SizeOf(digits + extension) == Some(Numeral(digits, 16))
  {
    DigitsBeforeSemicolon(digits, extension);
    DigitsAreTrim(digits);
    ParseDigits(digits);
  }

  lemma ParseDigits(digits: Bytes)
    requires digits != [] && AllDigits(digits, 16) && Numeral(digits, 16) <= USIZE_MAX
    ensures ParseUsize(digits, 16) == Some(Numeral(digits, 16))
  {
    assert DigitOf(digits[0]).Some?;
  }

  // ---------------------------------------------------------------- dechunking

  datatype BodyProgress =
    | Complete(body: Bytes)
    | Incomplete
    | TooLarge
    | Malformed(reason: Reason)

  datatype Reason = BadChunks | BadEncoding | BadLength | Closed

  /** The decoder of a chunked body; the loop is proved against `Dechunked`. */
  method DechunkProgress(body: Bytes, cap: nat) returns (verdict: BodyProgress)
    requires |body| <= USIZE_MAX / 2 && cap <= USIZE_MAX
    ensures verdict == Dechunked([], body, cap)
  {
    var decoded: Bytes := [];
    var rest := body;
    ghost var answer := Dechunked([], body, cap);
    while true
      invariant |decoded| + |rest| <= |body|
      invariant answer == Dechunked(decoded, rest, cap)
      decreases |rest|
    {
      var lineEnd := FindSubslice(rest, CRLF);
      if lineEnd.None? {
        return Incomplete;
      }
      var size := SizeOf(rest[..lineEnd.value]);
      if size.None? {
        return Malformed(BadChunks);
      }
      rest := rest[lineEnd.value + 2..];
      assert answer == AfterLine(decoded, size, rest, cap);
      if size.value == 0 {
        return Complete(decoded);
      }
      // checked_add twice: a sum that leaves the word is larger than any cap
      if |decoded| + size.value > USIZE_MAX || |decoded| + size.value > cap {
        return TooLarge;
      }
      if size.value + 2 > USIZE_MAX {
        return TooLarge;
      }
      if |rest| < size.value + 2 {
        return Incomplete;
      }
      if rest[size.value..size.value + 2] != CRLF {
        return Malformed(BadChunks);
      }
      decoded := decoded + rest[..size.value];
      rest := rest[size.value + 2..];
    }
  }

  function Dechunked(decoded: Bytes, rest: Bytes, cap: nat): BodyProgress
    decreases |rest|
  {
    var end := Find(rest, CRLF, 0);
    if end.None? then Incomplete
    else AfterLine(decoded, SizeOf(rest[..end.value]), rest[end.value + 2..], cap)
  }

  /** What follows a size line, given the size it announced. */
  function AfterLine(decoded: Bytes, size: Option<nat>, data: Bytes, cap: nat): BodyProgress
    decreases |data|
  {
    if size.None? then Malformed(BadChunks)
    else if size.value == 0 then Complete(decoded)
    else if |decoded| + size.value > cap || size.value + 2 > USIZE_MAX then TooLarge
    else if |data| < size.value + 2 then Incomplete
    else if data[size.value..size.value + 2] != CRLF then Malformed(BadChunks)
    else Dechunked(decoded + data[..size.value], data[size.value + 2..], cap)
  }

  lemma CutFacts(rest: Bytes, more: Bytes)
    requires Find(rest, CRLF, 0).Some?
    ensures var end := Find(rest, CRLF, 0).value;
            && Find(rest + more, CRLF, 0) == Some(end)
            && (rest + more)[..end] == rest[..end]
            && (rest + more)[end + 2..] == rest[end + 2..] + more
            && rest == rest[..end] + CRLF + rest[end + 2..]
  {
    FindIsStable(rest, more, CRLF);
    FindIsEarliest(rest, CRLF, 0);
    var end := Find(rest, CRLF, 0).value;
    assert rest[end..end + 2] == CRLF;
    assert (rest + more)[end + 2..] == rest[end + 2..] + more;
  }

  lemma DataFacts(data: Bytes, size: nat, more: Bytes)
    requires size + 2 <= |data|
    ensures (data + more)[..size] == data[..size]
    ensures (data + more)[size..size + 2] == data[size..size + 2]
    ensures (data + more)[size + 2..] == data[size + 2..] + more
    ensures data == data[..size] + data[size..size + 2] + data[size + 2..]
  {
  }

  /** A verdict other than "more bytes needed" is final, whatever arrives afterwards. */
  lemma {:induction false} DechunkedIsStable(decoded: Bytes, rest: Bytes, more: Bytes, cap: nat)
    requires !Dechunked(decoded, rest, cap).Incomplete?
    ensures Dechunked(decoded, rest + more, cap) == Dechunked(decoded, rest, cap)
    decreases |rest|
  {
    CutFacts(rest, more);
    var end := Find(rest, CRLF, 0).value;
    AfterLineIsStable(decoded, SizeOf(rest[..end]), rest[end + 2..], more, cap);
  }

  lemma {:induction false} AfterLineIsStable(decoded: Bytes, size: Option<nat>, data: Bytes,
                                             more: Bytes, cap: nat)
    requires !AfterLine(decoded, size, data, cap).Incomplete?
    ensures AfterLine(decoded, size, data + more, cap) == AfterLine(decoded, size, data, cap)
    decreases |data|
  {
    if size.Some? && size.value + 2 <= |data| {
      DataFacts(data, size.value, more);
      if size.value > 0 && |decoded| + size.value <= cap && size.value + 2 <= USIZE_MAX
         && data[size.value..size.value + 2] == CRLF {
        DechunkedIsStable(decoded + data[..size.value], data[size.value + 2..], more, cap);
      }
    }
  }

  /** A chunked body cut into its parts: size line and data of each chunk, last line, the rest. */
  datatype Framing =
    | Last(line: Bytes, tail: Bytes)
    | Piece(line: Bytes, data: Bytes, next: Framing)

  function Wire(framing: Framing): Bytes {
    match framing
    case Last(line, tail) => line + CRLF + tail
    case Piece(line, data, next) => line + CRLF + (data + CRLF + Wire(next))
  }

  function Payload(framing: Framing): Bytes {
    match framing
    case Last(_, _) => []
    case Piece(_, data, next) => data + Payload(next)
  }

  /** Every size line announces, as the decoder reads it, the data that follows. */
  ghost predicate WellFramed(framing: Framing) {
    match framing
    case Last(line, _) => CutsAtEnd(line) && SizeOf(line) == Some(0)
    case Piece(line, data, next) => GoodPiece(line, data) && WellFramed(next)
  }

  ghost predicate GoodPiece(line: Bytes, data: Bytes) {
    CutsAtEnd(line) && data != [] && SizeOf(line) == Some(|data|) && |data| + 2 <= USIZE_MAX
  }

  /** The line's own CRLF is the first one a reader meets. */
  ghost predicate CutsAtEnd(line: Bytes) {
    forall i: nat :: i < |line| ==> !OccursAt(line + CRLF, CRLF, i)
  }

  lemma FirstCut(line: Bytes, more: Bytes)
    requires CutsAtEnd(line)
    ensures Find(line + CRLF + more, CRLF, 0) == Some(|line|)
  {
    var all := line + CRLF + more;
    FindIsEarliest(all, CRLF, 0);
    assert OccursAt(all, CRLF, |line|);
    forall at: nat | at < |line| ensures !OccursAt(all, CRLF, at) {
      assert all[at..at + 2] == (line + CRLF)[at..at + 2];
      assert !OccursAt(line + CRLF, CRLF, at);
    }
  }

  lemma CutLine(rest: Bytes)
    requires Find(rest, CRLF, 0).Some?
    ensures CutsAtEnd(rest[..Find(rest, CRLF, 0).value])
  {
    var end := Find(rest, CRLF, 0).value;
    var line := rest[..end];
    FindIsEarliest(rest, CRLF, 0);
    assert line + CRLF == rest[..end + 2];
    forall i: nat | i < |line| ensures !OccursAt(line + CRLF, CRLF, i) {
      assert rest[i..i + 2] == (line + CRLF)[i..i + 2];
      assert !OccursAt(rest, CRLF, i);
    }
  }

  lemma WireFacts(line: Bytes, piece: Bytes, after: Bytes)
    requires CutsAtEnd(line)
    ensures var body := line + CRLF + (piece + CRLF + after);
            && Find(body, CRLF, 0) == Some(|line|)
            && body[..|line|] == line
            && body[|line| + 2..] == piece + CRLF + after
    ensures var data := piece + CRLF + after;
            && data[..|piece|] == piece
            && data[|piece|..|piece| + 2] == CRLF
            && data[|piece| + 2..] == after
  {
    var data := piece + CRLF + after;
    var body := line + CRLF + data;
    FirstCut(line, data);
    assert body[|line| + 2..] == data;
    assert data[|piece|..|piece| + 2] == CRLF;
  }

  lemma DechunkPiece(decoded: Bytes, line: Bytes, data: Bytes, after: Bytes, cap: nat)
    requires GoodPiece(line, data)
    ensures Dechunked(decoded, line + CRLF + (data + CRLF + after), cap) ==
            if |decoded| + |data| > cap then TooLarge
            else Dechunked(decoded + data, after, cap)
  {
    WireFacts(line, data, after);
  }

  lemma DechunkLast(decoded: Bytes, line: Bytes, tail: Bytes, cap: nat)
    requires CutsAtEnd(line) && SizeOf(line) == Some(0)
    ensures Dechunked(decoded, line + CRLF + tail, cap) == Complete(decoded)
  {
    FirstCut(line, tail);
    assert (line + CRLF + tail)[..|line|] == line;
  }

  /** Decoding a framed body yields its payload if it fits the cap, and TooLarge if not. */
  lemma {:induction false} FramedDecodes(decoded: Bytes, framing: Framing, cap: nat)
    requires WellFramed(framing) && |decoded| <= cap
    ensures Dechunked(decoded, Wire(framing), cap) ==
            if |decoded + Payload(framing)| <= cap then Complete(decoded + Payload(framing))
            else TooLarge
    decreases framing
  {
    match framing
    case Last(line, tail) =>
      DechunkLast(decoded, line, tail, cap);
      assert decoded + [] == decoded;
    case Piece(line, data, next) =>
      DechunkPiece(decoded, line, data, Wire(next), cap);
      JoinPiece(decoded, line, data, next);
      if |decoded| + |data| <= cap {
        FramedDecodes(decoded + data, next, cap);
      }
  }

  /** Whatever is decoded was framed: the decoder accepts nothing but the grammar. */
  lemma {:induction false} DecodedIsFramed(decoded: Bytes, body: Bytes, cap: nat)
    returns (framing: Framing)
    requires Dechunked(decoded, body, cap).Complete? && |decoded| <= cap
    ensures WellFramed(framing) && Wire(framing) == body
    ensures Dechunked(decoded, body, cap) == Complete(decoded + Payload(framing))
    ensures |decoded + Payload(framing)| <= cap
    decreases |body|
  {
    CutFacts(body, []);
    CutLine(body);
    var end := Find(body, CRLF, 0).value;
    framing := RestIsFramed(decoded, body[..end], SizeOf(body[..end]), body[end + 2..], cap);
  }

  lemma {:induction false} RestIsFramed(decoded: Bytes, line: Bytes, size: Option<nat>, data: Bytes,
                                        cap: nat)
    returns (framing: Framing)
    requires CutsAtEnd(line) && SizeOf(line) == size
    requires AfterLine(decoded, size, data, cap).Complete? && |decoded| <= cap
    ensures WellFramed(framing) && Wire(framing) == line + CRLF + data
    ensures AfterLine(decoded, size, data, cap) == Complete(decoded + Payload(framing))
    ensures |decoded + Payload(framing)| <= cap
    decreases |data|
  {
    if size.value == 0 {
      framing := Last(line, data);
      JoinLast(decoded, line, data);
    } else {
      var piece, after := data[..size.value], data[size.value + 2..];
      DataFacts(data, size.value, []);
      var next := DecodedIsFramed(decoded + piece, after, cap);
      framing := Piece(line, piece, next);
      JoinPiece(decoded, line, piece, next);
    }
  }

  lemma JoinLast(decoded: Bytes, line: Bytes, tail: Bytes)
    requires CutsAtEnd(line) && SizeOf(line) == Some(0)
    ensures WellFramed(Last(line, tail)) && Wire(Last(line, tail)) == line + CRLF + tail
    ensures decoded + Payload(Last(line, tail)) == decoded
  {
  }

  lemma JoinPiece(decoded: Bytes, line: Bytes, data: Bytes, next: Framing)
    requires GoodPiece(line, data) && WellFramed(next)
    ensures WellFramed(Piece(line, data, next))
    ensures Wire(Piece(line, data, next)) == line + CRLF + (data + CRLF + Wire(next))
    ensures decoded + Payload(Piece(line, data, next)) == decoded + data + Payload(next)
  {
    assert decoded + (data + Payload(next)) == decoded + data + Payload(next);
  }

  /** The cap only ever turns an answer into TooLarge: any cap that fits gives the answer. */
  lemma CapIsOnlyABound(body: Bytes, cap: nat, other: nat, payload: Bytes)
    requires Dechunked([], body, cap) == Complete(payload)
    ensures |payload| <= cap
    ensures Dechunked([], body, other) ==
            if |payload| <= other then Complete(payload) else TooLarge
  {
    var framing := DecodedIsFramed([], body, cap);
    FramedDecodes([], framing, other);
    assert [] + Payload(framing) == Payload(framing);
  }

  function Flat(pieces: seq<Bytes>): Bytes {
    if pieces == [] then [] else pieces[0] + Flat(pieces[1..])
  }

  /** What a sender writes: each piece under its hexadecimal size and an extension of its own. */
  datatype Sent = Sent(data: Bytes, extension: Bytes)

  function Encode(pieces: seq<Sent>, lastExtension: Bytes, tail: Bytes): Framing {
    if pieces == [] then Last(Hex(0) + lastExtension, tail)
    else Piece(Hex(|pieces[0].data|) + pieces[0].extension, pieces[0].data, Encode(pieces[1..], lastExtension, tail))
  }

  function SentData(pieces: seq<Sent>): Bytes {
    if pieces == [] then [] else pieces[0].data + SentData(pieces[1..])
  }

  ghost predicate PlainExtension(extension: Bytes) {
    (extension == [] || extension[0] == 59) && forall i: nat :: !OccursAt(extension, CRLF, i)
  }

  lemma HexCutsAtEnd(n: nat, extension: Bytes)
    requires PlainExtension(extension)
    ensures CutsAtEnd(Hex(n) + extension)
  {
    var digits := Hex(n);
    var all := digits + extension + CRLF;
    forall i: nat | i < |digits + extension| ensures !OccursAt(all, CRLF, i) {
      assert all[i..i + 2] == [all[i], all[i + 1]];
      if i < |digits| {
        assert DigitOf(digits[i]).Some? && DigitOf(CR).None?;
      } else if i + 1 < |digits + extension| {
        var j := i - |digits|;
        assert extension[j..j + 2] == [all[i], all[i + 1]];
        assert !OccursAt(extension, CRLF, j);
      } else {
        assert all[i + 1] == CR;
      }
    }
  }

  ghost predicate Sendable(piece: Sent) {
    0 < |piece.data| <= USIZE_MAX / 2 && PlainExtension(piece.extension)
  }

  lemma {:induction false} EncodeIsFramed(pieces: seq<Sent>, lastExtension: Bytes, tail: Bytes)
    requires forall i :: 0 <= i < |pieces| ==> Sendable(pieces[i])
    requires PlainExtension(lastExtension)
    ensures WellFramed(Encode(pieces, lastExtension, tail))
    ensures Payload(Encode(pieces, lastExtension, tail)) == SentData(pieces)
    decreases |pieces|
  {
    if pieces == [] {
      HexCutsAtEnd(0, lastExtension);
      SizeRoundTrip(0, lastExtension);
    } else {
      HexCutsAtEnd(|pieces[0].data|, pieces[0].extension);
      SizeRoundTrip(|pieces[0].data|, pieces[0].extension);
      EncodeIsFramed(pieces[1..], lastExtension, tail);
    }
  }

  /** Sending any non-empty pieces chunked and decoding them gives back their concatenation. */
  lemma ChunkedRoundTrip(pieces: seq<Sent>, lastExtension: Bytes, tail: Bytes, cap: nat)
    requires forall i :: 0 <= i < |pieces| ==> Sendable(pieces[i])
    requires PlainExtension(lastExtension)
    ensures Dechunked([], Wire(Encode(pieces, lastExtension, tail)), cap) ==
            if |SentData(pieces)| <= cap then Complete(SentData(pieces)) else TooLarge
  {
    EncodeIsFramed(pieces, lastExtension, tail);
    FramedDecodes([], Encode(pieces, lastExtension, tail), cap);
    assert [] + SentData(pieces) == SentData(pieces);
  }

  // ---------------------------------------------------------------- framing

  function LowerCase(b: byte): byte { if 65 <= b <= 90 then b + 32 else b }

  const CHUNKED: Bytes := [99, 104, 117, 110, 107, 101, 100]

  function AfterLastComma(s: Bytes): Bytes
    decreases |s|
  {
    var at := Find(s, [44], 0);
    if at.None? then s else AfterLastComma(s[at.value + 1..])
  }

  /** The last coding named is `chunked`, in any case. */
  predicate IsChunked(encoding: Bytes) {
    var token := Trim(AfterLastComma(encoding));
    |token| == |CHUNKED| && forall i :: 0 <= i < |token| ==> LowerCase(token[i]) == CHUNKED[i]
  }

  /** What the headers of a request say about its body. */
  datatype Plan = ByChunks | Unsupported | BadCount | Exactly(count: nat)

  function PlanOf(encoding: Bytes, length: Bytes): Plan {
    if IsChunked(encoding) then ByChunks
    else if encoding != [] then Unsupported
    else
      var expected := ParseUsize(Trim(length), 10);
      if expected.None? then BadCount else Exactly(expected.value)
  }

  function Framed(plan: Plan, body: Bytes, cap: nat): BodyProgress {
    match plan
    case ByChunks => Dechunked([], body, cap)
    case Unsupported => Malformed(BadEncoding)
    case BadCount => Malformed(BadLength)
    case Exactly(count) =>
      if count > cap then TooLarge
      else if |body| >= count then Complete(body[..count])
      else Incomplete
  }

  /** The bytes after the blank line, when there is one. */
  function BodyOf(raw: Bytes): Option<Bytes> {
    var blank := FindBlankLine(raw);
    if blank.None? then None
    else
      FoundIsBlank(raw);
      Some(raw[blank.value.at + blank.value.span..])
  }

  lemma BodyGrows(raw: Bytes, more: Bytes)
    requires BodyOf(raw).Some?
    ensures BodyOf(raw + more) == Some(BodyOf(raw).value + more)
  {
    FoundIsBlank(raw);
    BlankLineIsStable(raw, more);
    var blank := FindBlankLine(raw).value;
    assert (raw + more)[blank.at + blank.span..] == raw[blank.at + blank.span..] + more;
  }

  /** The verdict on a request body, from all bytes of the connection received so far. */
  function Progress(raw: Bytes, plan: Plan, cap: nat): BodyProgress {
    if BodyOf(raw).None? then Incomplete else Framed(plan, BodyOf(raw).value, cap)
  }

  /** Once the verdict is not Incomplete, every longer reception has the same verdict. */
  lemma ProgressIsStable(raw: Bytes, more: Bytes, plan: Plan, cap: nat)
    requires !Progress(raw, plan, cap).Incomplete?
    ensures Progress(raw + more, plan, cap) == Progress(raw, plan, cap)
  {
    BodyGrows(raw, more);
    FramedIsStable(plan, BodyOf(raw).value, more, cap);
  }

  lemma FramedIsStable(plan: Plan, body: Bytes, more: Bytes, cap: nat)
    requires !Framed(plan, body, cap).Incomplete?
    ensures Framed(plan, body + more, cap) == Framed(plan, body, cap)
  {
    match plan
    case ByChunks => DechunkedIsStable([], body, more, cap);
    case Exactly(count) =>
      if count <= |body| {
        assert (body + more)[..count] == body[..count];
      }
    case _ =>
  }

  /** Ask after every arrival; an empty read is the peer's close, and the body never finishes. */
  function Read(ask: Bytes -> BodyProgress, raw: Bytes, arrivals: seq<Bytes>): BodyProgress
    decreases |arrivals|
  {
    if !ask(raw).Incomplete? then ask(raw)
    else if arrivals == [] || arrivals[0] == [] then Malformed(Closed)
    else Read(ask, raw + arrivals[0], arrivals[1..])
  }

  lemma {:induction false} ReadExactly(ask: Bytes -> BodyProgress, raw: Bytes, arrivals: seq<Bytes>)
    requires forall i :: 0 <= i < |arrivals| ==> arrivals[i] != []
    requires forall some, more :: !ask(some).Incomplete? ==> ask(some + more) == ask(some)
    ensures var whole := ask(raw + Flat(arrivals));
            Read(ask, raw, arrivals) == if whole.Incomplete? then Malformed(Closed) else whole
    decreases |arrivals|
  {
    if arrivals == [] {
      assert raw + Flat(arrivals) == raw;
    } else {
      assert raw + Flat(arrivals) == raw + arrivals[0] + Flat(arrivals[1..]);
      if ask(raw).Incomplete? {
        ReadExactly(ask, raw + arrivals[0], arrivals[1..]);
      }
    }
  }

  function ReadBody(arrivals: seq<Bytes>, plan: Plan, cap: nat): BodyProgress {
    Read(raw => Progress(raw, plan, cap), [], arrivals)
  }

  /** Reading until a verdict is final gives the verdict on all the bytes the peer sends. */
  lemma ReadBodyExactly(arrivals: seq<Bytes>, plan: Plan, cap: nat)
    requires forall i :: 0 <= i < |arrivals| ==> arrivals[i] != []
    ensures var whole := Progress(Flat(arrivals), plan, cap);
            ReadBody(arrivals, plan, cap) == if whole.Incomplete? then Malformed(Closed) else whole
  {
    var ask := raw => Progress(raw, plan, cap);
    forall some, more | !ask(some).Incomplete? ensures ask(some + more) == ask(some) {
      ProgressIsStable(some, more, plan, cap);
    }
    ReadExactly(ask, [], arrivals);
    assert [] + Flat(arrivals) == Flat(arrivals);
  }

  /** The answer depends on the bytes alone, never on how they were cut on the way. */
  lemma ArrivalIndependent(one: seq<Bytes>, two: seq<Bytes>, plan: Plan, cap: nat)
    requires Flat(one) == Flat(two)
    requires forall i :: 0 <= i < |one| ==> one[i] != []
    requires forall i :: 0 <= i < |two| ==> two[i] != []
    ensures ReadBody(one, plan, cap) == ReadBody(two, plan, cap)
  {
    ReadBodyExactly(one, plan, cap);
    ReadBodyExactly(two, plan, cap);
  }

  datatype Reply = Body(body: Bytes) | BadFraming | Truncated(expected: nat, got: nat) | BadHeader

  /** The body of a reply received to its end. */
  function FrameBody(raw: Bytes, bodiless: bool, encoding: Bytes, length: Bytes): Reply {
    if BodyOf(raw).None? || bodiless then Body([])
    else if IsChunked(encoding) then
      var verdict := Dechunked([], BodyOf(raw).value, USIZE_MAX);
      if verdict.Complete? then Body(verdict.body) else BadFraming
    else if length == [] then Body(BodyOf(raw).value)
    else
      var expected, body := ParseUsize(Trim(length), 10), BodyOf(raw).value;
      if expected.None? then BadHeader
      else if |body| >= expected.value then Body(body[..expected.value])
      else Truncated(expected.value, |body|)
  }

  /**
   * The two framings agree: for headers both understand, the incremental verdict is
   * `Complete(body)` exactly when the reply framing would give `body` and it fits the cap.
   */
  lemma FramingsAgree(raw: Bytes, encoding: Bytes, length: Bytes, cap: nat, body: Bytes)
    requires cap <= USIZE_MAX && BodyOf(raw).Some?
    requires IsChunked(encoding) || (encoding == [] && length != [])
    ensures Progress(raw, PlanOf(encoding, length), cap) == Complete(body) <==>
            FrameBody(raw, false, encoding, length) == Body(body) && |body| <= cap
  {
    if IsChunked(encoding) {
      CapsAgree(BodyOf(raw).value, cap, body);
    }
  }

  lemma CapsAgree(rest: Bytes, cap: nat, body: Bytes)
    requires cap <= USIZE_MAX
    ensures Dechunked([], rest, cap) == Complete(body) <==>
            Dechunked([], rest, USIZE_MAX) == Complete(body) && |body| <= cap
  {
    if Dechunked([], rest, cap) == Complete(body) {
      CapIsOnlyABound(rest, cap, USIZE_MAX, body);
    }
    if Dechunked([], rest, USIZE_MAX) == Complete(body) {
      CapIsOnlyABound(rest, USIZE_MAX, cap, body);
    }
  }
}
