/**
 * The chunked decoder's other verdicts (quilon-rt/src/http.rs), each said exactly: what a body
 * that is not `Complete` looks like after the chunks that are whole. Which lines announce which
 * size is `ChunkedGrammar.SizeOfExactly`.
 */
module ChunkedVerdicts {
  import opened Wrappers
  import opened Http
  import opened ChunkedGrammar

  datatype Chunk = Chunk(line: Bytes, data: Bytes)

  /** A whole chunk: its size line announces its data, and a size that the word holds with its CRLF. */
  ghost predicate Whole(c: Chunk) {
    NoCrlf(c.line) && c.data != [] && SizeOf(c.line) == Some(|c.data|) && |c.data| + 2 <= USIZE_MAX
  }

  /** A chunk as it is sent, and what comes after it. */
  function ChunkFirst(c: Chunk, more: Bytes): Bytes { c.line + CRLF + (c.data + CRLF + more) }

  function Sent(chunks: seq<Chunk>): Bytes {
    if chunks == [] then []
    else ChunkFirst(chunks[0], Sent(chunks[1..]))
  }

  function DataOf(chunks: seq<Chunk>): Bytes {
    if chunks == [] then [] else chunks[0].data + DataOf(chunks[1..])
  }

  ghost predicate LineFirst(rest: Bytes, line: Bytes, data: Bytes) {
    NoCrlf(line) && rest == line + CRLF + data
  }

  /** A size that can be taken: not zero, within what is left of the cap, and of the word. */
  predicate Fits(n: nat, left: int) { 0 < n <= left && n + 2 <= USIZE_MAX }

  /**
   * What the size a line announces, if it is a size line, and the bytes after the line make of
   * the verdict: data still arriving, a size beyond the cap, a line that is no size line or data
   * that no CRLF ends where the size says.
   */
  predicate SizeShows(verdict: BodyProgress, size: Option<nat>, data: Bytes, left: int) {
    match verdict
    case Complete(_) => false
    case Incomplete => size.Some? && Fits(size.value, left) && |data| < size.value + 2
    case TooLarge => size.Some? && size.value > 0 && !Fits(size.value, left)
    case Malformed(reason) =>
      && reason == BadChunks
      && (size.None? || (Fits(size.value, left) && size.value + 2 <= |data|
                         && data[size.value..size.value + 2] != CRLF))
  }

  /** How a verdict other than `Complete` shows in what follows the whole chunks. */
  ghost predicate Shows(verdict: BodyProgress, rest: Bytes, left: int) {
    || (verdict == Incomplete && NoCrlf(rest))
    || exists line: Bytes, data: Bytes :: LineFirst(rest, line, data) && SizeShows(verdict, SizeOf(line), data, left)
  }

  // ---------------------------------------------------------------- one step

  lemma NoLineYet(decoded: Bytes, rest: Bytes, cap: nat)
    ensures NoCrlf(rest) <==> Find(rest, CRLF, 0).None?
    ensures NoCrlf(rest) ==> Dechunked(decoded, rest, cap) == Incomplete
  {
    FindIsEarliest(rest, CRLF, 0);
    var found := Find(rest, CRLF, 0);
    assert found.Some? ==> OccursAt(rest, CRLF, found.value);
  }

  lemma LineIsCut(decoded: Bytes, rest: Bytes, line: Bytes, data: Bytes, cap: nat)
    requires LineFirst(rest, line, data)
    ensures Dechunked(decoded, rest, cap) == AfterLine(decoded, SizeOf(line), data, cap)
  {
    CutIsNoCrlf(line);
    FirstCut(line, data);
    assert rest[..|line|] == line && rest[|line| + 2..] == data;
  }

  /** The size is that of a whole chunk which fits. */
  predicate TakesChunk(size: Option<nat>, data: Bytes, left: int) {
    && size.Some? && Fits(size.value, left) && size.value + 2 <= |data|
    && data[size.value..size.value + 2] == CRLF
  }

  lemma SizeDecides(decoded: Bytes, size: Option<nat>, data: Bytes, cap: nat, verdict: BodyProgress)
    requires |decoded| <= cap
    ensures SizeShows(verdict, size, data, cap - |decoded|) ==> AfterLine(decoded, size, data, cap) == verdict
    ensures var v := AfterLine(decoded, size, data, cap);
            v.Complete? || TakesChunk(size, data, cap - |decoded|) || SizeShows(v, size, data, cap - |decoded|)
  {
  }

  lemma RestDecides(decoded: Bytes, rest: Bytes, cap: nat, verdict: BodyProgress)
    requires |decoded| <= cap && Shows(verdict, rest, cap - |decoded|)
    ensures Dechunked(decoded, rest, cap) == verdict
  {
    if verdict == Incomplete && NoCrlf(rest) {
      NoLineYet(decoded, rest, cap);
    } else {
      var line: Bytes, data: Bytes :|
        LineFirst(rest, line, data) && SizeShows(verdict, SizeOf(line), data, cap - |decoded|);
      LineIsCut(decoded, rest, line, data, cap);
      SizeDecides(decoded, SizeOf(line), data, cap, verdict);
    }
  }

  lemma FirstLine(body: Bytes) returns (line: Bytes, data: Bytes)
    requires !NoCrlf(body)
    ensures LineFirst(body, line, data)
  {
    NoLineYet([], body, 0);
    CutFacts(body, []);
    CutLine(body);
    var end := Find(body, CRLF, 0).value;
    line, data := body[..end], body[end + 2..];
    CutIsNoCrlf(line);
  }

  lemma ChunkTaken(body: Bytes, line: Bytes, data: Bytes, left: int)
    requires LineFirst(body, line, data) && TakesChunk(SizeOf(line), data, left)
    ensures Next(c => Whole(c), body, left)
  {
    var n := SizeOf(line).value;
    DataFacts(data, n, []);
    var c := Chunk(line, data[..n]);
    assert Whole(c) && body == ChunkFirst(c, data[n + 2..]);
  }

  lemma NextStep(decoded: Bytes, body: Bytes, cap: nat)
    requires |decoded| <= cap && !Dechunked(decoded, body, cap).Complete?
    ensures Shows(Dechunked(decoded, body, cap), body, cap - |decoded|) || Next(c => Whole(c), body, cap - |decoded|)
  {
    if NoCrlf(body) {
      NoLineYet(decoded, body, cap);
    } else {
      var line, data := FirstLine(body);
      LineIsCut(decoded, body, line, data, cap);
      SizeDecides(decoded, SizeOf(line), data, cap, Incomplete);
      if TakesChunk(SizeOf(line), data, cap - |decoded|) {
        ChunkTaken(body, line, data, cap - |decoded|);
      }
    }
  }

  lemma OneChunk(decoded: Bytes, c: Chunk, more: Bytes, cap: nat)
    requires Whole(c) && |decoded| + |c.data| <= cap
    ensures Dechunked(decoded, ChunkFirst(c, more), cap) == Dechunked(decoded + c.data, more, cap)
  {
    CutIsNoCrlf(c.line);
    DechunkPiece(decoded, c.line, c.data, more, cap);
  }

  // ---------------------------------------------------------------- whole runs

  /** A decoder, from what it has decoded and what is left; which chunks it takes; and how a
      verdict shows in what is left of the body and of the cap. */
  type Decoder = (Bytes, Bytes) -> BodyProgress
  type Taken = Chunk -> bool
  type Sign = (BodyProgress, Bytes, int) -> bool

  ghost predicate AllTaken(taken: Taken, chunks: seq<Chunk>) {
    forall i :: 0 <= i < |chunks| ==> taken(chunks[i])
  }

  ghost predicate TakesChunks(decoder: Decoder, taken: Taken, cap: nat) {
    forall decoded, c, more :: taken(c) && |decoded| + |c.data| <= cap ==>
      decoder(decoded, ChunkFirst(c, more)) == decoder(decoded + c.data, more)
  }

  ghost predicate Next(taken: Taken, body: Bytes, left: int) {
    exists c: Chunk, more: Bytes :: taken(c) && |c.data| <= left && body == ChunkFirst(c, more)
  }

  ghost predicate StopsRightly(decoder: Decoder, taken: Taken, sign: Sign, cap: nat) {
    forall decoded, rest :: |decoded| <= cap && !decoder(decoded, rest).Complete? ==>
      sign(decoder(decoded, rest), rest, cap - |decoded|) || Next(taken, rest, cap - |decoded|)
  }

  lemma SentFirst(c: Chunk, more: seq<Chunk>, rest: Bytes)
    ensures Sent([c] + more) + rest == ChunkFirst(c, Sent(more) + rest)
    ensures DataOf([c] + more) == c.data + DataOf(more)
  {
    assert ([c] + more)[1..] == more;
  }

  lemma {:induction false} ChunksDecode(decoder: Decoder, taken: Taken, decoded: Bytes, chunks: seq<Chunk>,
                                        rest: Bytes, cap: nat)
    requires TakesChunks(decoder, taken, cap) && AllTaken(taken, chunks)
    requires |decoded| + |DataOf(chunks)| <= cap
    ensures decoder(decoded, Sent(chunks) + rest) == decoder(decoded + DataOf(chunks), rest)
    decreases |chunks|
  {
    if chunks == [] {
      assert Sent(chunks) + rest == rest && decoded + DataOf(chunks) == decoded;
    } else {
      var c, others := chunks[0], chunks[1..];
      assert chunks == [c] + others;
      SentFirst(c, others, rest);
      ChunksDecode(decoder, taken, decoded + c.data, others, rest, cap);
      assert decoded + (c.data + DataOf(others)) == decoded + c.data + DataOf(others);
    }
  }

  lemma {:induction false} VerdictShows(decoder: Decoder, taken: Taken, sign: Sign, decoded: Bytes, body: Bytes,
                                        cap: nat)
    returns (chunks: seq<Chunk>, rest: Bytes)
    requires TakesChunks(decoder, taken, cap) && StopsRightly(decoder, taken, sign, cap)
    requires |decoded| <= cap && !decoder(decoded, body).Complete?
    ensures AllTaken(taken, chunks) && body == Sent(chunks) + rest && |decoded| + |DataOf(chunks)| <= cap
    ensures sign(decoder(decoded, body), rest, cap - |decoded| - |DataOf(chunks)|)
    decreases |body|
  {
    chunks, rest := [], body;
    if !sign(decoder(decoded, body), body, cap - |decoded|) {
      var c: Chunk, more: Bytes :| taken(c) && |c.data| <= cap - |decoded| && body == ChunkFirst(c, more);
      chunks, rest := VerdictShows(decoder, taken, sign, decoded + c.data, more, cap);
      SentFirst(c, chunks, rest);
      chunks := [c] + chunks;
    }
  }

  /** Whole chunks that fit the cap, and then what shows the verdict. */
  ghost predicate Ends(body: Bytes, chunks: seq<Chunk>, rest: Bytes, cap: nat, verdict: BodyProgress) {
    && AllTaken(c => Whole(c), chunks) && body == Sent(chunks) + rest && |DataOf(chunks)| <= cap
    && Shows(verdict, rest, cap - |DataOf(chunks)|)
  }

  lemma TakesWhole(cap: nat)
    ensures TakesChunks((decoded, rest) => Dechunked(decoded, rest, cap), c => Whole(c), cap)
  {
    forall decoded, c, more | Whole(c) && |decoded| + |c.data| <= cap
      ensures Dechunked(decoded, ChunkFirst(c, more), cap) == Dechunked(decoded + c.data, more, cap)
    {
      OneChunk(decoded, c, more, cap);
    }
  }

  lemma StopsAtSigns(cap: nat)
    ensures StopsRightly((decoded, rest) => Dechunked(decoded, rest, cap), c => Whole(c),
                         (verdict, rest, left) => Shows(verdict, rest, left), cap)
  {
    forall decoded, rest | |decoded| <= cap && !Dechunked(decoded, rest, cap).Complete?
      ensures Shows(Dechunked(decoded, rest, cap), rest, cap - |decoded|) || Next(c => Whole(c), rest, cap - |decoded|)
    {
      NextStep(decoded, rest, cap);
    }
  }

  lemma VerdictEnds(body: Bytes, cap: nat) returns (chunks: seq<Chunk>, rest: Bytes)
    requires !Dechunked([], body, cap).Complete?
    ensures Ends(body, chunks, rest, cap, Dechunked([], body, cap))
  {
    TakesWhole(cap);
    StopsAtSigns(cap);
    chunks, rest := VerdictShows((decoded, rest) => Dechunked(decoded, rest, cap), c => Whole(c),
                                 (verdict, rest, left) => Shows(verdict, rest, left), [], body, cap);
  }

  lemma WholeDecode(chunks: seq<Chunk>, rest: Bytes, cap: nat)
    requires AllTaken(c => Whole(c), chunks) && |DataOf(chunks)| <= cap
    ensures Dechunked([], Sent(chunks) + rest, cap) == Dechunked(DataOf(chunks), rest, cap)
  {
    TakesWhole(cap);
    ChunksDecode((decoded, rest) => Dechunked(decoded, rest, cap), c => Whole(c), [], chunks, rest, cap);
    assert [] + DataOf(chunks) == DataOf(chunks);
  }

  lemma EndsDecides(body: Bytes, chunks: seq<Chunk>, rest: Bytes, cap: nat, verdict: BodyProgress)
    requires Ends(body, chunks, rest, cap, verdict)
    ensures Dechunked([], body, cap) == verdict
  {
    var decoded := DataOf(chunks);
    RestDecides(decoded, rest, cap, verdict);
    assert Dechunked(decoded, rest, cap) == verdict;
    WholeDecode(chunks, rest, cap);
  }

  /**
   * Every verdict but `Complete`, exactly. More bytes are asked for while a size line or announced
   * data are still arriving; a body is too large once a size line announces more than the cap has
   * left, before those data arrive; it is malformed when a line is no size line or when data are
   * not ended where their size says; and each only after whole chunks that fit.
   */
  lemma VerdictExactly(body: Bytes, cap: nat, verdict: BodyProgress)
    requires !verdict.Complete?
    ensures Dechunked([], body, cap) == verdict <==> exists chunks, rest :: Ends(body, chunks, rest, cap, verdict)
  {
    if Dechunked([], body, cap) == verdict {
      var chunks, rest := VerdictEnds(body, cap);
    }
    forall chunks, rest | Ends(body, chunks, rest, cap, verdict) ensures Dechunked([], body, cap) == verdict {
      EndsDecides(body, chunks, rest, cap, verdict);
    }
  }
}
