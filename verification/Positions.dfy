/**
 * Byte offsets and editor positions (src/source_map.rs): a table of line starts searched by
 * halving, zero-based lines and UTF-16 columns one way, byte offsets the other way.
 *
 * A text is its sequence of Unicode scalar values; offsets count its UTF-8 bytes (section 3 of
 * RFC 3629), columns its UTF-16 code units (section 2.1 of RFC 2781). A position is a pair of
 * 32-bit numbers, so both casts are written out.
 */
module Positions {

  type Scalar = c: nat | c <= 0x10_FFFF && !(0xD800 <= c <= 0xDFFF)
  type Text = seq<Scalar>

  const LF: Scalar := 10
  const U32: nat := 0x1_0000_0000

  function Utf8Len(c: Scalar): (n: nat)
    ensures 1 <= n <= 4
  {
    if c < 0x80 then 1 else if c < 0x800 then 2 else if c < 0x1_0000 then 3 else 4
  }

  function Utf16Len(c: Scalar): (n: nat)
    ensures 1 <= n <= 2
  {
    if c < 0x1_0000 then 1 else 2
  }

  function Bytes(t: Text): nat { if t == [] then 0 else Bytes(t[..|t| - 1]) + Utf8Len(t[|t| - 1]) }

  function Units(t: Text): nat { if t == [] then 0 else Utf16Len(t[0]) + Units(t[1..]) }

  /** The byte offset of the boundary before character `k`. */
  function Offset(t: Text, k: nat): nat
    requires k <= |t|
  {
    Bytes(t[..k])
  }

  lemma OffsetStep(t: Text, k: nat)
    requires k < |t|
    ensures Offset(t, k + 1) == Offset(t, k) + Utf8Len(t[k])
  {
    assert t[..k + 1][..k] == t[..k];
  }

  lemma {:induction false} OffsetGrows(t: Text, i: nat, j: nat)
    requires i < j <= |t|
    ensures Offset(t, i) < Offset(t, j)
    decreases j
  {
    OffsetStep(t, j - 1);
    if i < j - 1 {
      OffsetGrows(t, i, j - 1);
    }
  }

  lemma LaterOffset(t: Text, i: nat, j: nat)
    requires i <= |t| && j <= |t| && Offset(t, i) < Offset(t, j)
    ensures i < j
  {
    if j < i {
      OffsetGrows(t, j, i);
    }
  }

  // ---------------------------------------------------------------- lines

  /** The offsets just after each newline, and 0. */
  function Starts(t: Text): (starts: seq<nat>)
    ensures |starts| > 0 && starts[0] == 0
  {
    if t == [] then [0]
    else Starts(t[..|t| - 1]) + (if t[|t| - 1] == LF then [Bytes(t)] else [])
  }

  method LineStarts(t: Text) returns (starts: seq<nat>)
    ensures starts == Starts(t)
  {
    starts := [0];
    var offset, k := 0, 0;
    while k < |t|
      invariant k <= |t| && offset == Offset(t, k) && starts == Starts(t[..k])
    {
      OffsetStep(t, k);
      assert t[..k + 1][..k] == t[..k];
      offset := offset + Utf8Len(t[k]);
      if t[k] == LF {
        starts := starts + [offset];
      }
      k := k + 1;
    }
    assert t[..k] == t;
  }

  /** Newlines that end at or before a byte offset, counted one by one. */
  function NewlinesBefore(t: Text, offset: nat): nat {
    if t == [] then 0
    else NewlinesBefore(t[..|t| - 1], offset) + (if t[|t| - 1] == LF && Bytes(t) <= offset then 1 else 0)
  }

  ghost predicate Ascending(s: seq<nat>) {
    forall i, j :: 0 <= i < j < |s| ==> s[i] < s[j]
  }

  lemma {:induction false} StartsAscend(t: Text)
    ensures Ascending(Starts(t)) && forall i :: 0 <= i < |Starts(t)| ==> Starts(t)[i] <= Bytes(t)
    decreases |t|
  {
    if t != [] {
      StartsAscend(t[..|t| - 1]);
    }
  }

  /** The line is the last start at or before the offset. */
  ghost predicate LineOf(starts: seq<nat>, offset: nat, line: nat) {
    line < |starts| && starts[line] <= offset && (line + 1 < |starts| ==> offset < starts[line + 1])
  }

  lemma OneLine(starts: seq<nat>, offset: nat, a: nat, b: nat)
    requires Ascending(starts) && LineOf(starts, offset, a) && LineOf(starts, offset, b)
    ensures a == b
  {
  }

  lemma {:induction false} CountedLine(t: Text, offset: nat)
    ensures LineOf(Starts(t), offset, NewlinesBefore(t, offset))
    decreases |t|
  {
    if t != [] {
      var front := t[..|t| - 1];
      CountedLine(front, offset);
      StartsAscend(front);
      StartsAscend(t);
      var line := NewlinesBefore(front, offset);
      assert line + 1 < |Starts(front)| ==> Starts(front)[line + 1] <= Bytes(front) < Bytes(t);
    }
  }

  /** Search by halving: the exact start, or the line before the insertion point. */
  method LineAt(starts: seq<nat>, offset: nat) returns (line: nat, start: nat)
    requires |starts| > 0 && starts[0] == 0 && Ascending(starts)
    ensures line >= 1 && LineOf(starts, offset, line - 1) && start == starts[line - 1]
  {
    var low, high := 0, |starts|;
    while low < high
      invariant low <= high <= |starts|
      invariant forall i :: 0 <= i < low ==> starts[i] < offset
      invariant forall i :: high <= i < |starts| ==> offset < starts[i]
      decreases high - low
    {
      var middle := low + (high - low) / 2;
      if starts[middle] == offset {
        return middle + 1, starts[middle];
      }
      if starts[middle] < offset {
        low := middle + 1;
      } else {
        high := middle;
      }
    }
    line, start := low, starts[low - 1];
  }

  /** The searched line is the counted line, for every offset at all. */
  method LineNumber(t: Text, offset: nat) returns (line: nat)
    ensures line == NewlinesBefore(t, offset) + 1
  {
    var starts := LineStarts(t);
    StartsAscend(t);
    var start;
    line, start := LineAt(starts, offset);
    CountedLine(t, offset);
    OneLine(starts, offset, line - 1, NewlinesBefore(t, offset));
  }

  // ---------------------------------------------------------------- boundaries

  /** The character that starts at a byte offset; the length at the end of the text. */
  function CharAt(t: Text, offset: nat): (k: nat)
    ensures k <= |t|
  {
    if t == [] || Bytes(t) == offset then |t| else CharAt(t[..|t| - 1], offset)
  }

  predicate IsBoundary(t: Text, offset: nat) { Offset(t, CharAt(t, offset)) == offset }

  lemma {:induction false} CharAtOffset(t: Text, k: nat)
    requires k <= |t|
    ensures CharAt(t, Offset(t, k)) == k
    decreases |t|
  {
    if k == |t| {
      assert t[..k] == t;
    } else {
      var front := t[..|t| - 1];
      assert t[..|t|] == t && front[..k] == t[..k];
      OffsetGrows(t, k, |t|);
      CharAtOffset(front, k);
    }
  }

  /** The last boundary at or before an index, which an index past the end is clamped to. */
  method FloorCharBoundary(t: Text, index: nat) returns (offset: nat)
    ensures IsBoundary(t, offset) && offset <= index
    ensures forall k: nat :: k <= |t| && Offset(t, k) <= index ==> Offset(t, k) <= offset
  {
    assert t[..|t|] == t;
    offset := if index < Bytes(t) then index else Bytes(t);
    forall k: nat | k <= |t| ensures Offset(t, k) <= Bytes(t) {
      if k < |t| {
        OffsetGrows(t, k, |t|);
      }
    }
    CharAtOffset(t, 0);
    while offset > 0 && !IsBoundary(t, offset)
      invariant offset <= index
      invariant forall k: nat :: k <= |t| && Offset(t, k) <= index ==> Offset(t, k) <= offset
    {
      forall k: nat | k <= |t| ensures Offset(t, k) != offset {
        CharAtOffset(t, k);
      }
      offset := offset - 1;
    }
  }

  // ---------------------------------------------------------------- positions

  /** Where the line of character `k` begins. */
  function LineStart(t: Text, k: nat): (s: nat)
    requires k <= |t|
    ensures s <= k && (forall i :: s <= i < k ==> t[i] != LF) && (s > 0 ==> t[s - 1] == LF)
  {
    if k == 0 || t[k - 1] == LF then k else LineStart(t, k - 1)
  }

  function Line(t: Text, k: nat): nat
    requires k <= |t|
  {
    NewlinesBefore(t, Offset(t, k))
  }

  function Column(t: Text, k: nat): nat
    requires k <= |t|
  {
    Units(t[LineStart(t, k)..k])
  }

  lemma {:induction false} StartsHold(t: Text, s: nat)
    requires s <= |t| && (s > 0 ==> t[s - 1] == LF)
    ensures Offset(t, s) in Starts(t)
    decreases |t|
  {
    if s == |t| {
      assert t[..s] == t;
    } else {
      var front := t[..|t| - 1];
      assert front[..s] == t[..s];
      if s > 0 {
        assert front[s - 1] == LF;
      }
      StartsHold(front, s);
    }
  }

  lemma {:induction false} StartsAreBoundaries(t: Text, i: nat)
    returns (s: nat)
    requires i < |Starts(t)|
    ensures s <= |t| && Offset(t, s) == Starts(t)[i] && (s > 0 ==> t[s - 1] == LF)
    decreases |t|
  {
    if t == [] {
      s := 0;
    } else {
      var front := t[..|t| - 1];
      if i < |Starts(front)| {
        s := StartsAreBoundaries(front, i);
        assert front[..s] == t[..s];
      } else {
        s := |t|;
        assert t[..s] == t;
      }
    }
  }

  /** The table's entry for a character's line is the offset where that line begins. */
  lemma LineStartsHere(t: Text, k: nat)
    requires k <= |t|
    ensures Line(t, k) < |Starts(t)| && Starts(t)[Line(t, k)] == Offset(t, LineStart(t, k))
  {
    var s, offset := LineStart(t, k), Offset(t, k);
    CountedLine(t, offset);
    StartsAscend(t);
    StartsHold(t, s);
    var i :| 0 <= i < |Starts(t)| && Starts(t)[i] == Offset(t, s);
    if s < k {
      OffsetGrows(t, s, k);
    }
    if i + 1 < |Starts(t)| {
      var next := StartsAreBoundaries(t, i + 1);
      assert Starts(t)[i] < Starts(t)[i + 1];
      LaterOffset(t, s, next);
      assert t[next - 1] == LF;
      OffsetGrows(t, k, next);
    }
    OneLine(Starts(t), offset, i, Line(t, k));
  }

  /** The character a byte offset falls on: its own start, or the character it is inside of. */
  function CharOf(t: Text, offset: nat): (k: nat)
    ensures k <= |t|
  {
    if t == [] || Bytes(t) <= offset then |t| else CharOf(t[..|t| - 1], offset)
  }

  lemma {:induction false} CharOfIsLast(t: Text, offset: nat)
    ensures var k := CharOf(t, offset);
            Offset(t, k) <= offset && (k < |t| ==> offset < Offset(t, k + 1))
    decreases |t|
  {
    assert t[..|t|] == t;
    if t != [] && Bytes(t) > offset {
      var front, k := t[..|t| - 1], CharOf(t, offset);
      CharOfIsLast(front, offset);
      assert front[..k] == t[..k];
      if k < |front| {
        assert front[..k + 1] == t[..k + 1];
      }
    }
  }

  /** A boundary falls on the character it is the start of. */
  lemma BoundaryIsItsOwn(t: Text, k: nat)
    requires k <= |t|
    ensures CharOf(t, Offset(t, k)) == k
  {
    var last := CharOf(t, Offset(t, k));
    CharOfIsLast(t, Offset(t, k));
    if last < k {
      if last + 1 < k {
        OffsetGrows(t, last + 1, k);
      }
    } else if k < last {
      OffsetGrows(t, k, last);
    }
  }

  /** The protocol position of a byte offset, both numbers cast to 32 bits. */
  datatype Position = Position(line: nat, character: nat)

  function PositionOf(t: Text, byteOffset: nat): Position {
    var k := CharOf(t, byteOffset);
    Position(Line(t, k) % U32, Column(t, k) % U32)
  }

  /** The last boundary at or before an offset is where the character it falls on starts. */
  lemma FloorIsCharOf(t: Text, byteOffset: nat, offset: nat)
    requires IsBoundary(t, offset) && offset <= byteOffset
    requires forall k: nat :: k <= |t| && Offset(t, k) <= byteOffset ==> Offset(t, k) <= offset
    ensures CharAt(t, offset) == CharOf(t, byteOffset)
  {
    var k, last := CharAt(t, offset), CharOf(t, byteOffset);
    CharOfIsLast(t, byteOffset);
    if last < k {
      if last + 1 < k {
        OffsetGrows(t, last + 1, k);
      }
    } else if k < last {
      OffsetGrows(t, k, last);
    }
  }

  /** The UTF-16 length of a stretch of text, summed character by character. */
  method CountUnits(t: Text, from: nat, upto: nat) returns (units: nat)
    requires from <= upto <= |t|
    ensures units == Units(t[from..upto])
  {
    units := 0;
    var i := upto;
    while i > from
      invariant from <= i <= upto && units == Units(t[i..upto])
    {
      i := i - 1;
      assert t[i..upto][1..] == t[i + 1..upto];
      units := units + Utf16Len(t[i]);
    }
  }

  method PositionUtf16(t: Text, byteOffset: nat) returns (line: nat, column: nat)
    ensures Position(line, column) == PositionOf(t, byteOffset)
  {
    var starts := LineStarts(t);
    StartsAscend(t);
    var offset := FloorCharBoundary(t, byteOffset);
    var oneBased, lineStart := LineAt(starts, offset);
    ghost var k := CharAt(t, offset);
    FloorIsCharOf(t, byteOffset, offset);
    CountedLine(t, offset);
    OneLine(starts, offset, oneBased - 1, Line(t, k));
    LineStartsHere(t, k);
    CharAtOffset(t, LineStart(t, k));
    var units := CountUnits(t, CharAt(t, lineStart), CharAt(t, offset));
    line, column := (oneBased - 1) % U32, units % U32;
  }

  /** The walk along a line: stop at the newline, the column or the end. */
  function Walk(t: Text, k: nat, remaining: nat): nat
    requires k <= |t|
    decreases |t| - k
  {
    if k == |t| then Bytes(t)
    else if t[k] == LF || remaining == 0 then Offset(t, k)
    else Walk(t, k + 1, if remaining < Utf16Len(t[k]) then 0 else remaining - Utf16Len(t[k]))
  }

  function ByteOffset(t: Text, line: nat, character: nat): nat {
    if line >= |Starts(t)| then Bytes(t) else Walk(t, CharAt(t, Starts(t)[line]), character)
  }

  method ByteOffsetOf(t: Text, line: nat, character: nat) returns (offset: nat)
    requires line < U32 && character < U32
    ensures offset == ByteOffset(t, line, character)
  {
    var starts := LineStarts(t);
    if line >= |starts| {
      return Bytes(t);
    }
    var k, remaining: nat := CharAt(t, starts[line]), character;
    ghost var s := StartsAreBoundaries(t, line);
    CharAtOffset(t, s);
    offset := starts[line];
    while k < |t|
      invariant k <= |t| && offset == Offset(t, k)
      invariant Walk(t, k, remaining) == ByteOffset(t, line, character)
    {
      if t[k] == LF || remaining == 0 {
        return;
      }
      OffsetStep(t, k);
      remaining := if remaining < Utf16Len(t[k]) then 0 else remaining - Utf16Len(t[k]);
      offset := offset + Utf8Len(t[k]);
      k := k + 1;
    }
    assert t[..k] == t;
  }

  lemma UnitsStep(t: Text, s: nat, i: nat)
    requires s < i <= |t|
    ensures Units(t[s..i]) == Utf16Len(t[s]) + Units(t[s + 1..i])
  {
    assert t[s..i][1..] == t[s + 1..i];
  }

  /** Where a walk stops: the first character at its column, or at the newline, or at the end. */
  ghost predicate Stops(t: Text, s: nat, k: nat, remaining: nat) {
    && s <= k <= |t|
    && (forall i :: s <= i < k ==> t[i] != LF && Units(t[s..i]) < remaining)
    && (k < |t| && t[k] != LF ==> remaining <= Units(t[s..k]))
  }

  lemma {:induction false} WalkStops(t: Text, s: nat, remaining: nat) returns (k: nat)
    requires s <= |t|
    ensures Stops(t, s, k, remaining) && Walk(t, s, remaining) == Offset(t, k)
    decreases |t| - s
  {
    k := s;
    if s == |t| {
      assert t[..s] == t;
    } else if t[s] != LF && remaining > 0 {
      var left := if remaining < Utf16Len(t[s]) then 0 else remaining - Utf16Len(t[s]);
      k := WalkStops(t, s + 1, left);
      StopsEarlier(t, s, k, remaining, left);
    }
  }

  lemma StopsEarlier(t: Text, s: nat, k: nat, remaining: nat, left: nat)
    requires s < |t| && t[s] != LF && 0 < remaining && Stops(t, s + 1, k, left)
    requires left == if remaining < Utf16Len(t[s]) then 0 else remaining - Utf16Len(t[s])
    ensures Stops(t, s, k, remaining)
  {
    forall i | s < i <= k ensures Units(t[s..i]) == Utf16Len(t[s]) + Units(t[s + 1..i]) {
      UnitsStep(t, s, i);
    }
  }

  /** The characters of one line share its start. */
  lemma OnLine(t: Text, s: nat, i: nat, line: nat)
    requires i <= |t| && s <= |t| && line < |Starts(t)| && Starts(t)[line] == Offset(t, s)
    ensures Line(t, i) == line <==> LineStart(t, i) == s
  {
    LineStartsHere(t, i);
    StartsAscend(t);
    CharAtOffset(t, s);
    CharAtOffset(t, LineStart(t, i));
  }

  lemma {:induction false} SameStart(t: Text, s: nat, i: nat)
    requires s <= i <= |t| && (s > 0 ==> t[s - 1] == LF) && forall j :: s <= j < i ==> t[j] != LF
    ensures LineStart(t, i) == s
    decreases i
  {
    if s < i {
      SameStart(t, s, i - 1);
    }
  }

  lemma LastLine(t: Text)
    ensures |Starts(t)| == Line(t, |t|) + 1
  {
    assert t[..|t|] == t;
    CountedLine(t, Bytes(t));
    StartsAscend(t);
  }

  /**
   * What any position at all means: a line past the last one is the end of the text; otherwise
   * the first character of the line at or past the column, or the line's end if there is none.
   */
  lemma ByteOffsetExactly(t: Text, line: nat, character: nat) returns (k: nat)
    ensures k <= |t| && ByteOffset(t, line, character) == Offset(t, k)
    ensures line > Line(t, |t|) ==> k == |t|
    ensures line <= Line(t, |t|) ==>
              && Line(t, k) == line && (k < |t| && t[k] != LF ==> character <= Column(t, k))
              && forall i: nat :: i < k && Line(t, i) == line ==> Column(t, i) < character
  {
    LastLine(t);
    if line >= |Starts(t)| {
      k := |t|;
      assert t[..k] == t;
    } else {
      var s := StartsAreBoundaries(t, line);
      CharAtOffset(t, s);
      k := WalkStops(t, s, character);
      SameStart(t, s, k);
      OnLine(t, s, k, line);
      forall i: nat | i < k && Line(t, i) == line ensures Column(t, i) < character {
        OnLine(t, s, i, line);
      }
    }
  }

  // ---------------------------------------------------------------- there and back

  /** Walking a line by the units of a stretch of it ends where the stretch ends. */
  lemma {:induction false} WalkBack(t: Text, s: nat, k: nat)
    requires s <= k <= |t| && forall i :: s <= i < k ==> t[i] != LF
    ensures Walk(t, s, Units(t[s..k])) == Offset(t, k)
    decreases k - s
  {
    if s < k {
      assert t[s..k][1..] == t[s + 1..k];
      WalkBack(t, s + 1, k);
    } else if k == |t| {
      assert t[..k] == t;
    }
  }

  /** With two units too few, the walk stops before it gets there. */
  lemma {:induction false} WalkShort(t: Text, s: nat, k: nat, remaining: nat)
    requires s <= k <= |t| && remaining + 2 <= Units(t[s..k])
    ensures Walk(t, s, remaining) < Offset(t, k)
    decreases k - s
  {
    OffsetGrows(t, s, k);
    assert t[s..k][1..] == t[s + 1..k];
    if t[s] != LF && remaining > 0 {
      var left := if remaining < Utf16Len(t[s]) then 0 else remaining - Utf16Len(t[s]);
      if left + 2 <= Units(t[s + 1..k]) {
        WalkShort(t, s + 1, k, left);
      } else {
        assert remaining == 1 && Utf16Len(t[s]) == 2;
        ShortRest(t, s + 1, k);
      }
    }
  }

  /** A stretch that still has a unit is at least a character. */
  lemma ShortRest(t: Text, s: nat, k: nat)
    requires s <= k <= |t| && Units(t[s..k]) > 0
    ensures Walk(t, s, 0) < Offset(t, k)
  {
    OffsetGrows(t, s, k);
  }

  /** A walk never leaves its line. */
  lemma {:induction false} WalkStaysInLine(t: Text, s: nat, remaining: nat, next: nat)
    requires s < next <= |t| && t[next - 1] == LF
    ensures Walk(t, s, remaining) < Offset(t, next)
    decreases next - s
  {
    OffsetGrows(t, s, next);
    if t[s] != LF && remaining > 0 {
      WalkStaysInLine(t, s + 1, if remaining < Utf16Len(t[s]) then 0 else remaining - Utf16Len(t[s]), next);
    }
  }

  lemma WrongLine(t: Text, k: nat, line: nat, character: nat)
    requires k <= |t| && line < Line(t, k)
    ensures ByteOffset(t, line, character) < Offset(t, k)
  {
    LineStartsHere(t, k);
    StartsAscend(t);
    CountedLine(t, Offset(t, k));
    var s := StartsAreBoundaries(t, line);
    var next := StartsAreBoundaries(t, line + 1);
    CharAtOffset(t, s);
    assert Starts(t)[line] < Starts(t)[line + 1] <= Starts(t)[Line(t, k)];
    LaterOffset(t, s, next);
    WalkStaysInLine(t, s, character, next);
  }

  lemma CharRoundTrip(t: Text, k: nat)
    requires k <= |t|
    ensures ByteOffset(t, Line(t, k) % U32, Column(t, k) % U32) == Offset(t, k) <==>
            Line(t, k) < U32 && Column(t, k) < U32
  {
    LineStartsHere(t, k);
    CharAtOffset(t, LineStart(t, k));
    if Line(t, k) >= U32 {
      WrongLine(t, k, Line(t, k) % U32, Column(t, k) % U32);
    } else if Column(t, k) >= U32 {
      WalkShort(t, LineStart(t, k), k, Column(t, k) % U32);
    } else {
      WalkBack(t, LineStart(t, k), k);
    }
  }

  /**
   * From any byte offset to its position and back: the start of the character it falls on, the
   * offset itself if it is a boundary, exactly when line and column fit the protocol's 32 bits.
   */
  lemma RoundTripExactly(t: Text, byteOffset: nat)
    ensures var k, position := CharOf(t, byteOffset), PositionOf(t, byteOffset);
            ByteOffset(t, position.line, position.character) == Offset(t, k) <==>
            Line(t, k) < U32 && Column(t, k) < U32
  {
    CharRoundTrip(t, CharOf(t, byteOffset));
  }

  /** Every boundary of a text whose lines and columns fit comes back, the end included. */
  lemma BoundaryRoundTrip(t: Text, k: nat)
    requires k <= |t|
    ensures var position := PositionOf(t, Offset(t, k));
            ByteOffset(t, position.line, position.character) == Offset(t, k) <==>
            Line(t, k) < U32 && Column(t, k) < U32
  {
    BoundaryIsItsOwn(t, k);
    RoundTripExactly(t, Offset(t, k));
  }

  // ---------------------------------------------------------------- a text that does not fit

  function Newlines(n: nat): Text { seq(n, _ => LF) }

  lemma {:induction false} NewlinesCounted(n: nat, offset: nat)
    requires offset >= Bytes(Newlines(n))
    ensures NewlinesBefore(Newlines(n), offset) == n
  {
    if n > 0 {
      assert Newlines(n)[..n - 1] == Newlines(n - 1);
      NewlinesCounted(n - 1, offset);
    }
  }

  /** After 2^32 newlines the line number wraps, and the end of the text does not come back. */
  lemma EndOfManyLinesIsLost()
    ensures var t := Newlines(U32); var position := PositionOf(t, Bytes(t));
            ByteOffset(t, position.line, position.character) != Bytes(t)
  {
    var t := Newlines(U32);
    assert t[..U32] == t;
    NewlinesCounted(U32, Bytes(t));
    BoundaryRoundTrip(t, U32);
  }
}
