/**
 * Which bodies the chunked decoder accepts (quilon-rt/src/http.rs), against the grammar of
 * section 7.1 of RFC 9112. Neither grammar here uses the decoder or its parsers: a size line is
 * described by its spelling, an extension and a trailer by the productions of the RFC.
 */
module ChunkedGrammar {
  import opened Wrappers
  import opened Http

  // ---------------------------------------------------------------- white space

  /** The code points of Unicode White_Space. */
  predicate IsWhite(c: nat) {
    || 0x9 <= c <= 0xD || c == 0x20 || c == 0x85 || c == 0xA0 || c == 0x1680
    || 0x2000 <= c <= 0x200A || c == 0x2028 || c == 0x2029 || c == 0x202F || c == 0x205F || c == 0x3000
  }

  /** UTF-8 (section 3 of RFC 3629) below the supplementary planes. */
  function Utf8(c: nat): (bytes: Bytes)
    requires c < 0x1_0000
    ensures 1 <= |bytes| <= 3
  {
    if c < 0x80 then [c as byte]
    else if c < 0x800 then [(0xC0 + c / 64) as byte, (0x80 + c % 64) as byte]
    else [(0xE0 + c / 4096) as byte, (0x80 + c / 64 % 64) as byte, (0x80 + c % 64) as byte]
  }

  predicate AllWhite(spaces: seq<nat>) { forall i :: 0 <= i < |spaces| ==> IsWhite(spaces[i]) }

  function Pad(spaces: seq<nat>): Bytes
    requires AllWhite(spaces)
  {
    if spaces == [] then [] else Utf8(spaces[0]) + Pad(spaces[1..])
  }

  /** A white character is recognised at either end of any text, and at its full width. */
  lemma WhiteIsSeen(c: nat, text: Bytes)
    requires IsWhite(c)
    ensures LeadingSpace(Utf8(c) + text) == |Utf8(c)|
    ensures TrailingSpace(text + Utf8(c)) == |Utf8(c)|
    ensures forall i :: 0 <= i < |Utf8(c)| ==> Utf8(c)[i] != 59
  {
    var bytes := Utf8(c);
    var before, after := bytes + text, text + bytes;
    assert forall i :: 0 <= i < |bytes| ==> before[i] == bytes[i] && after[|text| + i] == bytes[i];
  }

  /** What is recognised as white space is a white character. */
  lemma SeenIsWhite(bytes: Bytes) returns (c: nat)
    requires |bytes| > 0 && LeadingSpace(bytes) == |bytes|
    ensures IsWhite(c) && Utf8(c) == bytes
  {
    if |bytes| == 1 {
      c := bytes[0] as int;
    } else if |bytes| == 2 {
      c := if bytes[1] == 0x85 then 0x85 else 0xA0;
    } else if bytes[0] == 0xE1 {
      c := 0x1680;
    } else if bytes[0] == 0xE3 {
      c := 0x3000;
    } else if bytes[1] == 0x81 {
      c := 0x205F;
    } else {
      c := 0x2000 + (bytes[2] as int - 0x80);
    }
  }

  lemma {:induction false} TrimStartPad(spaces: seq<nat>, text: Bytes)
    requires AllWhite(spaces) && LeadingSpace(text) == 0
    ensures TrimStart(Pad(spaces) + text) == text
    decreases |spaces|
  {
    if spaces == [] {
      assert Pad(spaces) + text == text;
    } else {
      var rest := Pad(spaces[1..]) + text;
      assert Pad(spaces) + text == Utf8(spaces[0]) + rest;
      WhiteIsSeen(spaces[0], rest);
      assert (Utf8(spaces[0]) + rest)[|Utf8(spaces[0])|..] == rest;
      TrimStartPad(spaces[1..], text);
    }
  }

  lemma {:induction false} PadAtEnd(spaces: seq<nat>, c: nat)
    requires AllWhite(spaces) && IsWhite(c)
    ensures AllWhite(spaces + [c]) && Pad(spaces + [c]) == Pad(spaces) + Utf8(c)
    decreases |spaces|
  {
    if spaces == [] {
      assert [] + [c] == [c] && [c][1..] == [];
      assert Pad([c]) == Utf8(c) + Pad([]);
    } else {
      PadAtEnd(spaces[1..], c);
      assert (spaces + [c])[1..] == spaces[1..] + [c];
      Regroup(Utf8(spaces[0]), Pad(spaces[1..]), Utf8(c));
    }
  }

  lemma {:induction false} TrimEndPad(text: Bytes, spaces: seq<nat>)
    requires AllWhite(spaces) && TrailingSpace(text) == 0
    ensures TrimEnd(text + Pad(spaces)) == text
    decreases |spaces|
  {
    if spaces == [] {
      assert text + Pad(spaces) == text;
    } else {
      var front, c := spaces[..|spaces| - 1], spaces[|spaces| - 1];
      assert spaces == front + [c];
      PadAtEnd(front, c);
      var rest := text + Pad(front);
      assert text + Pad(spaces) == rest + Utf8(c);
      WhiteIsSeen(c, rest);
      assert (rest + Utf8(c))[..|rest|] == rest;
      TrimEndPad(text, front);
    }
  }

  lemma PadAtStart(c: nat, spaces: seq<nat>)
    requires AllWhite(spaces) && IsWhite(c)
    ensures AllWhite([c] + spaces) && Pad([c] + spaces) == Utf8(c) + Pad(spaces)
  {
    assert ([c] + spaces)[1..] == spaces;
  }

  lemma Regroup(a: Bytes, b: Bytes, c: Bytes)
    ensures a + (b + c) == (a + b) + c
  {
  }

  lemma LeadingChar(text: Bytes) returns (c: nat)
    requires LeadingSpace(text) > 0
    ensures IsWhite(c) && Utf8(c) == text[..LeadingSpace(text)]
  {
    c := SeenIsWhite(text[..LeadingSpace(text)]);
  }

  lemma TrailingChar(text: Bytes) returns (c: nat)
    requires TrailingSpace(text) > 0
    ensures IsWhite(c) && Utf8(c) == text[|text| - TrailingSpace(text)..]
  {
    var end := text[|text| - TrailingSpace(text)..];
    assert LeadingSpace(end) == |end|;
    c := SeenIsWhite(end);
  }

  lemma {:induction false} TrimStartSplits(text: Bytes) returns (spaces: seq<nat>)
    ensures AllWhite(spaces) && text == Pad(spaces) + TrimStart(text)
    decreases |text|
  {
    var width := LeadingSpace(text);
    spaces := [];
    if width > 0 {
      var c := LeadingChar(text);
      var others := TrimStartSplits(text[width..]);
      spaces := [c] + others;
      PadAtStart(c, others);
      StartsWith(text, width, Utf8(c), Pad(others), TrimStart(text[width..]));
    }
  }

  lemma StartsWith(text: Bytes, width: nat, c: Bytes, others: Bytes, rest: Bytes)
    requires width <= |text| && c == text[..width] && text[width..] == others + rest
    ensures text == (c + others) + rest
  {
    assert text == text[..width] + text[width..];
  }

  lemma EndsWith(text: Bytes, at: nat, rest: Bytes, others: Bytes, c: Bytes)
    requires at <= |text| && c == text[at..] && text[..at] == rest + others
    ensures text == rest + (others + c)
  {
    assert text == text[..at] + text[at..];
  }

  lemma TrimEndStep(text: Bytes)
    requires TrailingSpace(text) > 0
    ensures TrimEnd(text) == TrimEnd(text[..|text| - TrailingSpace(text)])
  {
  }

  lemma {:induction false} TrimEndSplits(text: Bytes) returns (spaces: seq<nat>)
    ensures AllWhite(spaces) && text == TrimEnd(text) + Pad(spaces)
    decreases |text|
  {
    spaces := [];
    if TrailingSpace(text) > 0 {
      TrimEndStep(text);
      var c := TrailingChar(text);
      var at := |text| - TrailingSpace(text);
      var others := TrimEndSplits(text[..at]);
      spaces := others + [c];
      PadAtEnd(others, c);
      EndsWith(text, at, TrimEnd(text), Pad(others), Utf8(c));
    } else {
      assert TrimEnd(text) == text;
    }
  }

  lemma {:induction false} PadHasNoSemicolon(spaces: seq<nat>)
    requires AllWhite(spaces)
    ensures 59 !in Pad(spaces)
    decreases |spaces|
  {
    if spaces != [] {
      WhiteIsSeen(spaces[0], []);
      PadHasNoSemicolon(spaces[1..]);
    }
  }

  // ---------------------------------------------------------------- size lines

  /** How a size line may be written: white space around a hexadecimal number, a plus sign
      before it, an extension after a semicolon. */
  datatype SizeText = SizeText(before: seq<nat>, plus: bool, digits: Bytes, after: seq<nat>, extension: Bytes)

  predicate Spelt(t: SizeText) {
    && AllWhite(t.before) && AllWhite(t.after)
    && t.digits != [] && AllDigits(t.digits, 16)
    && (t.extension == [] || t.extension[0] == 59)
  }

  function Number(t: SizeText): Bytes { (if t.plus then [43] else []) + t.digits }

  function Spelling(t: SizeText): Bytes
    requires Spelt(t)
  {
    Pad(t.before) + (Number(t) + Pad(t.after)) + t.extension
  }

  /** A line that announces `n`: one of the spellings of a 64-bit number. */
  ghost predicate SizeLine(line: Bytes, n: nat) {
    n <= USIZE_MAX && exists t: SizeText :: Announces(t, line, n)
  }

  ghost predicate Announces(t: SizeText, line: Bytes, n: nat) {
    Spelt(t) && Spelling(t) == line && Numeral(t.digits, 16) == n
  }

  lemma CutAtSemicolon(text: Bytes, extension: Bytes)
    requires 59 !in text && (extension == [] || extension[0] == 59)
    ensures BeforeSemicolon(text + extension) == text
  {
    var line := text + extension;
    FindIsEarliest(line, [59], 0);
    forall i: nat | i < |text| ensures !OccursAt(line, [59], i) {
      assert line[i..i + 1] == [text[i]];
    }
    if extension != [] {
      assert line[|text|..|text| + 1] == [59];
      assert OccursAt(line, [59], |text|);
      assert line[..|text|] == text;
    } else {
      assert line == text;
    }
  }

  lemma BeforeSemicolonSplits(line: Bytes) returns (extension: Bytes)
    ensures line == BeforeSemicolon(line) + extension && (extension == [] || extension[0] == 59)
  {
    var at := Find(line, [59], 0);
    FindIsEarliest(line, [59], 0);
    if at.Some? {
      extension := line[at.value..];
      assert line[at.value..at.value + 1] == [59];
      assert extension[0] == line[at.value..at.value + 1][0];
    } else {
      extension := [];
    }
  }

  lemma NumberEnds(t: SizeText)
    requires Spelt(t)
    ensures Number(t) != [] && LeadingSpace(Number(t) + Pad(t.after)) == 0 && TrailingSpace(Number(t)) == 0
    ensures 59 !in Number(t)
  {
    var number := Number(t);
    assert number[|number| - 1] == t.digits[|t.digits| - 1];
    assert DigitOf(t.digits[|t.digits| - 1]).Some? && DigitOf(t.digits[0]).Some?;
    assert (number + Pad(t.after))[0] == number[0];
    assert forall i :: 0 <= i < |t.digits| ==> DigitOf(t.digits[i]).Some?;
  }

  lemma SpellingTrims(t: SizeText)
    requires Spelt(t)
    ensures Trim(BeforeSemicolon(Spelling(t))) == Number(t)
  {
    NumberEnds(t);
    PadHasNoSemicolon(t.before);
    PadHasNoSemicolon(t.after);
    var text := Pad(t.before) + (Number(t) + Pad(t.after));
    assert 59 !in text;
    CutAtSemicolon(text, t.extension);
    TrimStartPad(t.before, Number(t) + Pad(t.after));
    TrimEndPad(Number(t), t.after);
  }

  lemma ParseNumber(t: SizeText)
    requires Spelt(t)
    ensures ParseUsize(Number(t), 16) ==
            if Numeral(t.digits, 16) <= USIZE_MAX then Some(Numeral(t.digits, 16)) else None
  {
    assert DigitOf(t.digits[0]).Some?;
    var number := Number(t);
    assert (if number[0] == 43 then number[1..] else number) == t.digits;
  }

  /** The size line parser accepts these spellings and no others. */
  lemma SizeOfExactly(line: Bytes, n: nat)
    ensures SizeOf(line) == Some(n) <==> SizeLine(line, n)
  {
    if SizeOf(line) == Some(n) {
      var t := SizeIsSpelt(line, n);
      assert Announces(t, line, n);
    }
    forall t: SizeText | n <= USIZE_MAX && Announces(t, line, n) ensures SizeOf(line) == Some(n) {
      SpellingTrims(t);
      ParseNumber(t);
    }
  }

  lemma SizeIsSpelt(line: Bytes, n: nat) returns (t: SizeText)
    requires SizeOf(line) == Some(n)
    ensures n <= USIZE_MAX && Announces(t, line, n)
  {
    var text := BeforeSemicolon(line);
    var extension := BeforeSemicolonSplits(line);
    var before := TrimStartSplits(text);
    var after := TrimEndSplits(TrimStart(text));
    t := NumberIsSpelt(Trim(text), n, before, after, extension);
  }

  lemma NumberIsSpelt(number: Bytes, n: nat, before: seq<nat>, after: seq<nat>, extension: Bytes)
    returns (t: SizeText)
    requires ParseUsize(number, 16) == Some(n) && AllWhite(before) && AllWhite(after)
    requires extension == [] || extension[0] == 59
    ensures n <= USIZE_MAX && Announces(t, Pad(before) + (number + Pad(after)) + extension, n)
  {
    var plus := |number| > 0 && number[0] == 43;
    t := SizeText(before, plus, if plus then number[1..] else number, after, extension);
    assert Number(t) == number;
  }

  // ---------------------------------------------------------------- what is accepted

  ghost predicate NoCrlf(line: Bytes) { forall i: nat :: !OccursAt(line, CRLF, i) }

  lemma CutIsNoCrlf(line: Bytes)
    ensures CutsAtEnd(line) <==> NoCrlf(line)
  {
    var all := line + CRLF;
    forall i: nat | i < |line| ensures OccursAt(all, CRLF, i) <==> OccursAt(line, CRLF, i) {
      assert all[i..i + 2] == [all[i], all[i + 1]];
      if i + 1 < |line| {
        assert line[i..i + 2] == [line[i], line[i + 1]];
      } else {
        assert all[i + 1] == CR;
      }
    }
  }

  /** The grammar of accepted bodies. Whatever follows the last size line is not looked at. */
  ghost predicate Accepted(framing: Framing) {
    match framing
    case Last(line, _) => NoCrlf(line) && SizeLine(line, 0)
    case Piece(line, data, next) =>
      && NoCrlf(line) && data != [] && SizeLine(line, |data|) && |data| + 2 <= USIZE_MAX
      && Accepted(next)
  }

  lemma {:induction false} AcceptedIsWellFramed(framing: Framing)
    ensures Accepted(framing) <==> WellFramed(framing)
    decreases framing
  {
    CutIsNoCrlf(framing.line);
    match framing
    case Last(line, _) => SizeOfExactly(line, 0);
    case Piece(line, data, next) =>
      SizeOfExactly(line, |data|);
      AcceptedIsWellFramed(next);
  }

  /** The decoder answers `Complete(payload)` exactly on the accepted framings of it that fit. */
  lemma CompleteExactly(body: Bytes, cap: nat, payload: Bytes)
    ensures Dechunked([], body, cap) == Complete(payload) <==>
            && |payload| <= cap
            && exists framing: Framing ::
                 Accepted(framing) && Wire(framing) == body && Payload(framing) == payload
  {
    if Dechunked([], body, cap) == Complete(payload) {
      var framing := DecodedIsFramed([], body, cap);
      AcceptedIsWellFramed(framing);
      assert [] + Payload(framing) == Payload(framing);
    }
    forall framing: Framing
      | |payload| <= cap && Accepted(framing) && Wire(framing) == body && Payload(framing) == payload
      ensures Dechunked([], body, cap) == Complete(payload)
    {
      AcceptedDecodes(framing, cap);
    }
  }

  lemma AcceptedDecodes(framing: Framing, cap: nat)
    requires Accepted(framing)
    ensures Dechunked([], Wire(framing), cap) ==
            if |Payload(framing)| <= cap then Complete(Payload(framing)) else TooLarge
  {
    AcceptedIsWellFramed(framing);
    FramedDecodes([], framing, cap);
    assert [] + Payload(framing) == Payload(framing);
  }

  lemma CutOnce(one: Bytes, rest: Bytes, two: Bytes, other: Bytes)
    requires CutsAtEnd(one) && CutsAtEnd(two) && one + CRLF + rest == two + CRLF + other
    ensures one == two && rest == other
  {
    var body := one + CRLF + rest;
    FirstCut(one, rest);
    FirstCut(two, other);
    assert one == body[..|one|] && two == body[..|two|];
    assert rest == body[|one| + 2..] && other == body[|two| + 2..];
  }

  lemma SplitOnce(one: Bytes, rest: Bytes, two: Bytes, other: Bytes)
    requires |one| == |two| && one + CRLF + rest == two + CRLF + other
    ensures one == two && rest == other
  {
    var body := one + CRLF + rest;
    assert one == body[..|one|] && two == body[..|one|];
    assert rest == body[|one| + 2..] && other == body[|one| + 2..];
  }

  /** A body is cut into accepted parts in one way only. */
  lemma {:induction false} FramingIsUnique(one: Framing, two: Framing)
    requires WellFramed(one) && WellFramed(two) && Wire(one) == Wire(two)
    ensures one == two
    decreases one
  {
    CutOnce(one.line, AfterFirst(one), two.line, AfterFirst(two));
    if one.Piece? && two.Piece? {
      SplitOnce(one.data, Wire(one.next), two.data, Wire(two.next));
      FramingIsUnique(one.next, two.next);
    }
  }

  function AfterFirst(framing: Framing): (rest: Bytes)
    ensures Wire(framing) == framing.line + CRLF + rest
  {
    match framing
    case Last(_, tail) => tail
    case Piece(_, data, next) => data + CRLF + Wire(next)
  }

  // ---------------------------------------------------------------- section 7.1 of RFC 9112

  predicate IsBws(s: Bytes) { forall i :: 0 <= i < |s| ==> s[i] == 32 || s[i] == 9 }

  predicate IsTchar(b: byte) {
    || 48 <= b <= 57 || 65 <= b <= 90 || 94 <= b <= 122 || b == 33 || 35 <= b <= 39
    || b == 42 || b == 43 || b == 45 || b == 46 || b == 124 || b == 126
  }

  predicate IsToken(s: Bytes) { s != [] && forall i :: 0 <= i < |s| ==> IsTchar(s[i]) }

  /** A tab, a space, a visible character or one beyond ASCII. */
  predicate IsText(b: byte) { b == 9 || 32 <= b <= 126 || b >= 128 }

  /** Between the quotes: text other than a quote or a backslash, or a backslash and any text. */
  predicate IsQuotedBody(s: Bytes)
    decreases |s|
  {
    || s == []
    || (IsText(s[0]) && s[0] != 34 && s[0] != 92 && IsQuotedBody(s[1..]))
    || (|s| >= 2 && s[0] == 92 && IsText(s[1]) && IsQuotedBody(s[2..]))
  }

  predicate IsQuoted(s: Bytes) {
    |s| >= 2 && s[0] == 34 && s[|s| - 1] == 34 && IsQuotedBody(s[1..|s| - 1])
  }

  datatype ExtensionValue = ExtensionValue(before: Bytes, after: Bytes, text: Bytes)

  /** `BWS ";" BWS name [ BWS "=" BWS value ]` */
  datatype ChunkExtension = ChunkExtension(before: Bytes, after: Bytes, name: Bytes, value: Option<ExtensionValue>)

  predicate ExtensionOk(e: ChunkExtension) {
    && IsBws(e.before) && IsBws(e.after) && IsToken(e.name)
    && (e.value.Some? ==>
          && IsBws(e.value.value.before) && IsBws(e.value.value.after)
          && (IsToken(e.value.value.text) || IsQuoted(e.value.value.text)))
  }

  function ValueWire(value: Option<ExtensionValue>): Bytes {
    if value.None? then [] else value.value.before + [61] + value.value.after + value.value.text
  }

  function ExtensionWire(es: seq<ChunkExtension>): Bytes {
    if es == [] then []
    else es[0].before + ([59] + es[0].after + es[0].name + ValueWire(es[0].value) + ExtensionWire(es[1..]))
  }

  predicate ExtensionsOk(es: seq<ChunkExtension>) { forall i :: 0 <= i < |es| ==> ExtensionOk(es[i]) }

  /** `1*HEXDIG [ chunk-ext ]` */
  ghost predicate RfcLine(line: Bytes, n: nat) {
    exists digits: Bytes, es: seq<ChunkExtension> :: RfcLineOf(line, n, digits, es)
  }

  predicate RfcLineOf(line: Bytes, n: nat, digits: Bytes, es: seq<ChunkExtension>) {
    && digits != [] && AllDigits(digits, 16) && Numeral(digits, 16) == n
    && ExtensionsOk(es) && line == digits + ExtensionWire(es)
  }

  datatype Field = Field(name: Bytes, value: Bytes)

  predicate FieldOk(f: Field) { IsToken(f.name) && forall i :: 0 <= i < |f.value| ==> IsText(f.value[i]) }

  function Fields(fs: seq<Field>): Bytes {
    if fs == [] then [] else fs[0].name + [58] + fs[0].value + CRLF + Fields(fs[1..])
  }

  /** `*( field-line CRLF ) CRLF` */
  ghost predicate RfcTail(tail: Bytes) {
    exists fs: seq<Field> :: (forall i :: 0 <= i < |fs| ==> FieldOk(fs[i])) && tail == Fields(fs) + CRLF
  }

  /** `*chunk last-chunk trailer-section CRLF` */
  ghost predicate RfcFramed(framing: Framing) {
    match framing
    case Last(line, tail) => RfcLine(line, 0) && RfcTail(tail)
    case Piece(line, data, next) => data != [] && RfcLine(line, |data|) && RfcFramed(next)
  }

  ghost predicate IsRfcBody(body: Bytes) {
    exists framing: Framing :: RfcFramed(framing) && Wire(framing) == body
  }

  /** The last chunk's `1*("0")` is every numeral of value zero. */
  lemma {:induction false} ZeroIsAllZeros(digits: Bytes)
    requires AllDigits(digits, 16)
    ensures Numeral(digits, 16) == 0 <==> forall i :: 0 <= i < |digits| ==> digits[i] == 48
    decreases |digits|
  {
    if digits != [] {
      var front := digits[..|digits| - 1];
      ZeroIsAllZeros(front);
      assert forall i :: 0 <= i < |front| ==> front[i] == digits[i];
    }
  }

  /** No carriage return and no line feed. */
  predicate OneLine(s: Bytes) { forall i :: 0 <= i < |s| ==> s[i] != CR && s[i] != LF }

  lemma {:induction false} QuotedIsOneLine(s: Bytes)
    requires IsQuotedBody(s)
    ensures OneLine(s)
    decreases |s|
  {
    if s != [] {
      if IsText(s[0]) && s[0] != 34 && s[0] != 92 && IsQuotedBody(s[1..]) {
        QuotedIsOneLine(s[1..]);
        assert s == [s[0]] + s[1..];
      } else {
        QuotedIsOneLine(s[2..]);
        assert s == [s[0], s[1]] + s[2..];
      }
    }
  }

  lemma ValueIsOneLine(value: Option<ExtensionValue>)
    requires value.Some? ==>
               && IsBws(value.value.before) && IsBws(value.value.after)
               && (IsToken(value.value.text) || IsQuoted(value.value.text))
    ensures OneLine(ValueWire(value))
  {
    if value.Some? {
      var text := value.value.text;
      if !IsToken(text) {
        QuotedIsOneLine(text[1..|text| - 1]);
        assert text == [text[0]] + text[1..|text| - 1] + [text[|text| - 1]];
      }
      assert OneLine(text);
    }
  }

  lemma {:induction false} ExtensionIsOneLine(es: seq<ChunkExtension>)
    requires ExtensionsOk(es)
    ensures OneLine(ExtensionWire(es))
    decreases |es|
  {
    if es != [] {
      ValueIsOneLine(es[0].value);
      ExtensionIsOneLine(es[1..]);
    }
  }

  lemma RfcLineHasNoCrlf(line: Bytes, n: nat)
    requires RfcLine(line, n)
    ensures NoCrlf(line)
  {
    var digits: Bytes, es: seq<ChunkExtension> :| RfcLineOf(line, n, digits, es);
    ExtensionIsOneLine(es);
    assert forall i :: 0 <= i < |digits| ==> DigitOf(digits[i]).Some?;
    assert OneLine(line);
    forall i: nat | i + 2 <= |line| ensures !OccursAt(line, CRLF, i) {
      assert line[i..i + 2][0] == line[i];
    }
  }

  lemma {:induction false} BwsIsPad(s: Bytes) returns (spaces: seq<nat>)
    requires IsBws(s)
    ensures AllWhite(spaces) && Pad(spaces) == s
    decreases |s|
  {
    if s == [] {
      spaces := [];
    } else {
      var others := BwsIsPad(s[1..]);
      spaces := [s[0] as int] + others;
      assert spaces[1..] == others && Utf8(s[0] as int) == [s[0]];
    }
  }

  /** A line is the RFC's exactly when, of the accepted spellings, it has one with nothing
      before the digits and only the RFC's own extension after them. */
  lemma RfcLineExactly(line: Bytes, n: nat)
    ensures RfcLine(line, n) <==>
            exists t: SizeText, es: seq<ChunkExtension> ::
              && Announces(t, line, n) && t.before == [] && !t.plus
              && ExtensionsOk(es) && ExtensionWire(es) == Pad(t.after) + t.extension
  {
    if RfcLine(line, n) {
      var digits: Bytes, es: seq<ChunkExtension> :| RfcLineOf(line, n, digits, es);
      var t := SpeltAsRfc(digits, es);
      assert Announces(t, line, n) && ExtensionWire(es) == Pad(t.after) + t.extension;
    }
    forall t: SizeText, es: seq<ChunkExtension>
      | && Announces(t, line, n) && t.before == [] && !t.plus
        && ExtensionsOk(es) && ExtensionWire(es) == Pad(t.after) + t.extension
      ensures RfcLine(line, n)
    {
      PlainSpelling(t);
      assert RfcLineOf(line, n, t.digits, es);
    }
  }

  lemma SpeltAsRfc(digits: Bytes, es: seq<ChunkExtension>) returns (t: SizeText)
    requires digits != [] && AllDigits(digits, 16) && ExtensionsOk(es)
    ensures Spelt(t) && t.before == [] && !t.plus && t.digits == digits
    ensures Spelling(t) == digits + ExtensionWire(es) && ExtensionWire(es) == Pad(t.after) + t.extension
  {
    if es == [] {
      t := SizeText([], false, digits, [], []);
      PlainSpelling(t);
    } else {
      var after := BwsIsPad(es[0].before);
      var extension := [59] + es[0].after + es[0].name + ValueWire(es[0].value) + ExtensionWire(es[1..]);
      t := SizeText([], false, digits, after, extension);
      PlainSpelling(t);
    }
  }

  lemma PlainSpelling(t: SizeText)
    requires Spelt(t) && t.before == [] && !t.plus
    ensures Spelling(t) == t.digits + (Pad(t.after) + t.extension)
  {
    assert Number(t) == t.digits;
    Regroup(t.digits, Pad(t.after), t.extension);
  }

  lemma RfcLineIsSizeLine(line: Bytes, n: nat)
    requires RfcLine(line, n) && n <= USIZE_MAX
    ensures SizeLine(line, n)
  {
    RfcLineExactly(line, n);
  }

  /** Every body of the RFC that can be in memory is accepted. */
  lemma {:induction false} RfcIsAccepted(framing: Framing)
    requires RfcFramed(framing) && |Wire(framing)| <= USIZE_MAX / 2
    ensures Accepted(framing)
    decreases framing
  {
    match framing
    case Last(line, _) =>
      RfcLineHasNoCrlf(line, 0);
      RfcLineIsSizeLine(line, 0);
    case Piece(line, data, next) =>
      RfcLineHasNoCrlf(line, |data|);
      RfcLineIsSizeLine(line, |data|);
      RfcIsAccepted(next);
  }

  /** Every chunked body of RFC 9112 decodes to its payload, or is too large for the cap. */
  lemma RfcBodyDecodes(framing: Framing, cap: nat)
    requires RfcFramed(framing) && |Wire(framing)| <= USIZE_MAX / 2
    ensures Dechunked([], Wire(framing), cap) ==
            if |Payload(framing)| <= cap then Complete(Payload(framing)) else TooLarge
  {
    RfcIsAccepted(framing);
    AcceptedDecodes(framing, cap);
  }

  /** An accepted body is one of the RFC exactly when its own lines and tail are. */
  lemma AcceptedIsRfcExactly(framing: Framing)
    requires Accepted(framing) && |Wire(framing)| <= USIZE_MAX / 2
    ensures IsRfcBody(Wire(framing)) <==> RfcFramed(framing)
  {
    forall other: Framing | RfcFramed(other) && Wire(other) == Wire(framing) ensures other == framing {
      RfcIsAccepted(other);
      AcceptedIsWellFramed(other);
      AcceptedIsWellFramed(framing);
      FramingIsUnique(other, framing);
    }
  }

  // ---------------------------------------------------------------- beyond the RFC

  lemma {:induction false} RfcStartsWithDigit(framing: Framing)
    requires RfcFramed(framing)
    ensures Wire(framing) != [] && DigitOf(Wire(framing)[0]).Some?
  {
    var n := if framing.Last? then 0 else |framing.data|;
    var digits: Bytes, es: seq<ChunkExtension> :| RfcLineOf(framing.line, n, digits, es);
    assert Wire(framing)[0] == digits[0];
  }

  lemma ZeroAnnounced(t: SizeText)
    requires Spelt(t) && t.digits == [48]
    ensures SizeLine(Spelling(t), 0)
  {
    assert Numeral([48], 16) == Numeral([48][..0], 16) * 16 + 0;
    assert Announces(t, Spelling(t), 0);
  }

  /** A zero with something before it is complete and not in the grammar of the RFC. */
  lemma PrefixedZero(t: SizeText, tail: Bytes, cap: nat)
    requires Spelt(t) && t.digits == [48] && NoCrlf(Spelling(t))
    requires DigitOf(Spelling(t)[0]).None?
    ensures var body := Spelling(t) + CRLF + tail;
            Dechunked([], body, cap) == Complete([]) && !IsRfcBody(body)
  {
    var framing := Last(Spelling(t), tail);
    ZeroAnnounced(t);
    AcceptedDecodes(framing, cap);
    forall other: Framing | RfcFramed(other) ensures Wire(other) != Wire(framing) {
      RfcStartsWithDigit(other);
      assert Wire(framing)[0] == Spelling(t)[0];
    }
  }

  function Ended(line: Bytes): Bytes { line + CRLF + CRLF }

  /** A plus sign, as in `+0`. */
  lemma PlusIsAccepted(cap: nat)
    ensures Dechunked([], Ended([43, 48]), cap) == Complete([]) && !IsRfcBody(Ended([43, 48]))
  {
    var t := PlusZero();
    ShortLineHasNoCrlf(Spelling(t));
    PrefixedZero(t, CRLF, cap);
  }

  lemma PlusZero() returns (t: SizeText)
    ensures Spelt(t) && t.digits == [48] && Spelling(t) == [43, 48]
  {
    t := SizeText([], true, [48], [], []);
    assert Number(t) + Pad([]) == [43, 48];
  }

  /** White space before the number, here a no-break space. */
  lemma PaddingIsAccepted(cap: nat)
    ensures Dechunked([], Ended([0xC2, 0xA0, 48]), cap) == Complete([]) && !IsRfcBody(Ended([0xC2, 0xA0, 48]))
  {
    var t := NoBreakZero();
    ShortLineHasNoCrlf(Spelling(t));
    PrefixedZero(t, CRLF, cap);
  }

  lemma NoBreakZero() returns (t: SizeText)
    ensures Spelt(t) && t.digits == [48] && Spelling(t) == [0xC2, 0xA0, 48]
  {
    t := SizeText([0xA0], false, [48], [], []);
    PadAtStart(0xA0, []);
    assert Utf8(0xA0) == [0xC2, 0xA0];
    assert Pad([0xA0]) == [0xC2, 0xA0] + [];
    assert Number(t) + Pad([]) == [48];
  }

  lemma ShortLineHasNoCrlf(line: Bytes)
    requires OneLine(line)
    ensures NoCrlf(line)
  {
    forall i: nat | i + 2 <= |line| ensures !OccursAt(line, CRLF, i) {
      assert line[i..i + 2][0] == line[i];
    }
  }

  /** A last line that nothing follows: the final CRLF is not waited for. */
  lemma MissingEndIsAccepted(cap: nat)
    ensures Dechunked([], [48, 13, 10], cap) == Complete([]) && !IsRfcBody([48, 13, 10])
  {
    var t := SizeText([], false, [48], [], []);
    assert Spelling(t) == [48];
    ShortLineHasNoCrlf([48]);
    ZeroAnnounced(t);
    var framing := Last([48], []);
    assert Wire(framing) == [48, 13, 10];
    AcceptedDecodes(framing, cap);
    AcceptedIsRfcExactly(framing);
    forall fs: seq<Field> ensures Fields(fs) + CRLF != [] {
      assert |Fields(fs) + CRLF| >= 2;
    }
  }
}
