/**
 * Which headers announce which framing (quilon-rt/src/http.rs): the codings that make a body
 * chunked, and the decimal lengths that count one.
 */
module FramingHeaders {
  import opened Wrappers
  import opened Http
  import opened ChunkedGrammar

  // ---------------------------------------------------------------- a list of codings

  const COMMA: Bytes := [44]

  /** Codings as a header lists them. */
  function Listed(codings: seq<Bytes>): Bytes
    requires codings != []
  {
    if |codings| == 1 then codings[0] else codings[0] + COMMA + Listed(codings[1..])
  }

  /** The word `chunked`, each letter in either case. */
  predicate IsWord(word: Bytes) {
    |word| == 7 && forall i :: 0 <= i < 7 ==> IsLetter(word[i], "chunked"[i], "CHUNKED"[i])
  }

  predicate IsLetter(b: byte, lower: char, upper: char) { b as int == lower as int || b as int == upper as int }

  /** The word, with any white space around it. */
  ghost predicate NamesChunked(coding: Bytes) {
    exists before: seq<nat>, word: Bytes, after: seq<nat> :: WordIn(coding, before, word, after)
  }

  ghost predicate WordIn(coding: Bytes, before: seq<nat>, word: Bytes, after: seq<nat>) {
    AllWhite(before) && AllWhite(after) && coding == Pad(before) + (word + Pad(after)) && IsWord(word)
  }

  lemma CommaFound(text: Bytes, rest: Bytes)
    requires 44 !in text
    ensures Find(text, COMMA, 0).None?
    ensures Find(text + COMMA + rest, COMMA, 0) == Some(|text|)
  {
    var all := text + COMMA + rest;
    FindIsEarliest(text, COMMA, 0);
    FindIsEarliest(all, COMMA, 0);
    assert all[|text|..|text| + 1] == COMMA;
    assert OccursAt(all, COMMA, |text|);
    forall i: nat | i < |text| ensures !OccursAt(all, COMMA, i) && !OccursAt(text, COMMA, i) {
      assert all[i..i + 1] == [text[i]] && text[i..i + 1] == [text[i]];
    }
  }

  lemma {:induction false} LastOfList(codings: seq<Bytes>)
    requires codings != [] && forall i :: 0 <= i < |codings| ==> 44 !in codings[i]
    ensures AfterLastComma(Listed(codings)) == codings[|codings| - 1]
    decreases |codings|
  {
    CommaFound(codings[0], []);
    if |codings| > 1 {
      var rest := Listed(codings[1..]);
      CommaFound(codings[0], rest);
      assert (codings[0] + COMMA + rest)[|codings[0]| + 1..] == rest;
      LastOfList(codings[1..]);
    }
  }

  lemma {:induction false} FirstComma(text: Bytes) returns (first: Bytes, rest: Bytes)
    requires 44 in text
    ensures text == first + COMMA + rest && 44 !in first
    decreases |text|
  {
    if text[0] == 44 {
      first, rest := [], text[1..];
    } else {
      first, rest := FirstComma(text[1..]);
      first := [text[0]] + first;
    }
  }

  /** Every header value is a list of codings. */
  lemma {:induction false} EncodingIsAList(encoding: Bytes) returns (codings: seq<Bytes>)
    ensures codings != [] && Listed(codings) == encoding
    ensures forall i :: 0 <= i < |codings| ==> 44 !in codings[i]
    decreases |encoding|
  {
    codings := [encoding];
    if 44 in encoding {
      var first, rest := FirstComma(encoding);
      codings := EncodingIsAList(rest);
      ListedFirst(first, codings);
      codings := [first] + codings;
    }
  }

  lemma ListedFirst(first: Bytes, others: seq<Bytes>)
    requires others != []
    ensures Listed([first] + others) == first + COMMA + Listed(others)
  {
    assert ([first] + others)[1..] == others;
  }

  lemma WordIsLowerCased(word: Bytes)
    ensures IsWord(word) <==>
            |word| == |CHUNKED| && forall i :: 0 <= i < |word| ==> LowerCase(word[i]) == CHUNKED[i]
  {
    forall i | 0 <= i < 7
      ensures "chunked"[i] as int == CHUNKED[i] as int && "CHUNKED"[i] as int + 32 == CHUNKED[i] as int
    {
    }
  }

  /** Trimming gives the text between the white space at either end. */
  lemma Trimmed(before: seq<nat>, text: Bytes, after: seq<nat>)
    requires AllWhite(before) && AllWhite(after)
    requires LeadingSpace(text + Pad(after)) == 0 && TrailingSpace(text) == 0
    ensures Trim(Pad(before) + (text + Pad(after))) == text
  {
    TrimStartPad(before, text + Pad(after));
    TrimEndPad(text, after);
  }

  lemma TrimSplits(text: Bytes) returns (before: seq<nat>, after: seq<nat>)
    ensures AllWhite(before) && AllWhite(after) && text == Pad(before) + (Trim(text) + Pad(after))
  {
    before := TrimStartSplits(text);
    after := TrimEndSplits(TrimStart(text));
  }

  lemma WordIsTrim(word: Bytes, more: Bytes)
    requires IsWord(word)
    ensures LeadingSpace(word + more) == 0 && TrailingSpace(word) == 0
  {
    assert (word + more)[0] == word[0];
    assert word[6] == 100 || word[6] == 68;
  }

  lemma NamesChunkedExactly(coding: Bytes)
    ensures NamesChunked(coding) <==> IsWord(Trim(coding))
  {
    if IsWord(Trim(coding)) {
      var before, after := TrimSplits(coding);
      assert WordIn(coding, before, Trim(coding), after);
    }
    forall before: seq<nat>, word: Bytes, after: seq<nat> | WordIn(coding, before, word, after)
      ensures IsWord(Trim(coding))
    {
      WordIsTrim(word, Pad(after));
      Trimmed(before, word, after);
    }
  }

  /** A body is chunked exactly when the last of the listed codings is, whatever its case. */
  lemma ChunkedIsTheLastCoding(codings: seq<Bytes>)
    requires codings != [] && forall i :: 0 <= i < |codings| ==> 44 !in codings[i]
    ensures IsChunked(Listed(codings)) <==> NamesChunked(codings[|codings| - 1])
  {
    LastOfList(codings);
    var last := codings[|codings| - 1];
    NamesChunkedExactly(last);
    WordIsLowerCased(Trim(last));
  }

  // ---------------------------------------------------------------- decimal lengths

  function DecimalDigit(d: nat): (b: byte)
    requires d < 10
    ensures DigitOf(b) == Some(d)
  {
    (48 + d) as byte
  }

  /** A number as the shortest decimal numeral, the way a sender writes it. */
  function Decimal(n: nat): (digits: Bytes)
    ensures digits != [] && AllDigits(digits, 10) && Numeral(digits, 10) == n
  {
    if n < 10 then
      var digits := [DecimalDigit(n)];
      assert Numeral(digits, 10) == Numeral(digits[..0], 10) * 10 + n;
      digits
    else
      var front := Decimal(n / 10);
      var digits := front + [DecimalDigit(n % 10)];
      assert digits[..|digits| - 1] == front;
      digits
  }

  lemma DigitsAreTrimmed(digits: Bytes, more: Bytes)
    requires digits != [] && AllDigits(digits, 10)
    ensures LeadingSpace(digits + more) == 0 && TrailingSpace(digits) == 0
    ensures digits[0] != 43
  {
    assert DigitOf(digits[0]).Some? && DigitOf(digits[|digits| - 1]).Some?;
    assert (digits + more)[0] == digits[0];
  }

  /** Every 64-bit length a sender writes in decimal, with white space around it, is read back. */
  lemma LengthRoundTrip(n: nat, before: seq<nat>, after: seq<nat>)
    requires n <= USIZE_MAX && AllWhite(before) && AllWhite(after)
    ensures PlanOf([], Pad(before) + (Decimal(n) + Pad(after))) == Exactly(n)
  {
    DigitsAreTrimmed(Decimal(n), Pad(after));
    Trimmed(before, Decimal(n), after);
    ChunkedIsTheLastCoding([[]]);
    NothingNamed();
  }

  /** A length that does not fit 64 bits is refused, not wrapped. */
  lemma LongLengthIsRefused(n: nat, before: seq<nat>, after: seq<nat>)
    requires n > USIZE_MAX && AllWhite(before) && AllWhite(after)
    ensures PlanOf([], Pad(before) + (Decimal(n) + Pad(after))) == BadCount
  {
    DigitsAreTrimmed(Decimal(n), Pad(after));
    Trimmed(before, Decimal(n), after);
    ChunkedIsTheLastCoding([[]]);
    NothingNamed();
  }

  // ---------------------------------------------------------------- what the headers decide

  /** A request whose codings end in another than `chunked` is refused as soon as its head is
      complete, whatever its length header says; and for nothing else. */
  lemma EncodingRefusedExactly(raw: Bytes, codings: seq<Bytes>, length: Bytes, cap: nat)
    requires codings != [] && forall i :: 0 <= i < |codings| ==> 44 !in codings[i]
    requires BodyOf(raw).Some?
    ensures Progress(raw, PlanOf(Listed(codings), length), cap) == Malformed(BadEncoding) <==>
            codings != [[]] && !NamesChunked(codings[|codings| - 1])
  {
    ChunkedIsTheLastCoding(codings);
    ListIsEmpty(codings);
    PlanRefuses(PlanOf(Listed(codings), length), BodyOf(raw).value, cap);
    NothingNamed();
  }

  lemma NothingNamed()
    ensures !NamesChunked([])
  {
    assert Trim([]) == [];
    NamesChunkedExactly([]);
  }

  lemma PlanRefuses(plan: Plan, body: Bytes, cap: nat)
    ensures Framed(plan, body, cap) == Malformed(BadEncoding) <==> plan.Unsupported?
  {
    if plan.ByChunks? {
      BrokenChunksOnly([], body, cap);
    }
  }

  lemma {:induction false} BrokenChunksOnly(decoded: Bytes, rest: Bytes, cap: nat)
    ensures Dechunked(decoded, rest, cap) != Malformed(BadEncoding)
    decreases |rest|
  {
    var end := Find(rest, CRLF, 0);
    if end.Some? {
      var size, data := SizeOf(rest[..end.value]), rest[end.value + 2..];
      if size.Some? && 0 < size.value && size.value + 2 <= |data| {
        BrokenChunksOnly(decoded + data[..size.value], data[size.value + 2..], cap);
      }
    }
  }

  lemma ListIsEmpty(codings: seq<Bytes>)
    requires codings != []
    ensures Listed(codings) == [] <==> codings == [[]]
  {
    if |codings| == 1 {
      assert codings == [codings[0]];
    }
  }

  /** A reply with a length is cut to it, or said to be cut short and by how much; one without is
      taken to the end of what was received; one that has no body has none. */
  lemma ReplyExactly(raw: Bytes, encoding: Bytes, n: nat, before: seq<nat>, after: seq<nat>)
    requires BodyOf(raw).Some? && !IsChunked(encoding)
    requires n <= USIZE_MAX && AllWhite(before) && AllWhite(after)
    ensures var received := BodyOf(raw).value;
            var length := Pad(before) + (Decimal(n) + Pad(after));
            && (n <= |received| ==> FrameBody(raw, false, encoding, length) == Body(received[..n]))
            && (n > |received| ==> FrameBody(raw, false, encoding, length) == Truncated(n, |received|))
            && FrameBody(raw, false, encoding, []) == Body(received)
            && FrameBody(raw, true, encoding, length) == FrameBody(raw, true, encoding, []) == Body([])
  {
    DigitsAreTrimmed(Decimal(n), Pad(after));
    Trimmed(before, Decimal(n), after);
    assert Pad(before) + (Decimal(n) + Pad(after)) != [];
  }
}
