/** The chunked transfer coding of section 7.1 of RFC 9112, without extensions and trailers:
    the resumable decoder of HttpRequest as a function, and the grammar it refines. */
module Chunked {
  import opened Text

  const SIZE_MODULUS: nat := 0x1_0000_0000_0000_0000    // size_t has 64 bits
  const SIGN_BOUND: int := 0x8000_0000_0000_0000
  type PtrDiff = n: int | -SIGN_BOUND <= n < SIGN_BOUND
  const MAX_BEFORE_SHIFT: nat := 0x0FFF_FFFF_FFFF_FFFF  // numeric_limits<size_t>::max() >> 4

  predicate IsHex(c: char) {
    '0' <= c <= '9' || 'a' <= c <= 'f' || 'A' <= c <= 'F'
  }

  function HexDigit(c: char): (d: nat)
    requires IsHex(c)
    ensures d < 16
  {
    if '0' <= c <= '9' then c as int - '0' as int
    else if 'a' <= c <= 'f' then c as int - 'a' as int + 10
    else c as int - 'A' as int + 10
  }

  /** `(size << 4) + digit` on size_t. */
  function ShiftAdd(size: nat, digit: nat): nat {
    ((size * 16) % SIZE_MODULUS + digit) % SIZE_MODULUS
  }

  /** `static_cast<ptrdiff_t>(size)` and back. */
  function Signed(size: nat): PtrDiff
    requires size < SIZE_MODULUS
  {
    if size < SIGN_BOUND then size else size - SIZE_MODULUS
  }

  function Unsigned(n: PtrDiff): nat {
    if n >= 0 then n else n + SIZE_MODULUS
  }

  // ---------- the decoder ----------

  datatype Skipped = SkipNeedsMore | SkipBad | SkippedTo(next: nat)

  /** ValidateAndSkipCRLF. */
  function SkipCrlf(buf: string, pos: nat): Skipped {
    if pos + 1 >= |buf| then SkipNeedsMore
    else if buf[pos] != '\r' || buf[pos + 1] != '\n' then SkipBad
    else SkippedTo(pos + 2)
  }

  datatype SizeRead = SizeNeedsMore | SizeBad | SizeIs(size: nat, next: nat)

  /** The digit loop of ParseChunkSize, entered with `size` read so far. */
  function ReadSize(buf: string, pos: nat, size: nat, sawDigit: bool): (r: SizeRead)
    requires size < SIZE_MODULUS
    ensures r.SizeIs? ==> pos < r.next <= |buf| && r.size < SIZE_MODULUS
    decreases |buf| - pos
  {
    if pos < |buf| && buf[pos] != '\r' then
      if !IsHex(buf[pos]) then SizeBad
      else if size > MAX_BEFORE_SHIFT then SizeBad
      else ReadSize(buf, pos + 1, size * 16 + HexDigit(buf[pos]), true)
    else if !sawDigit then SizeNeedsMore
    else match SkipCrlf(buf, pos)
         case SkipNeedsMore => SizeNeedsMore
         case SkipBad => SizeBad
         case SkippedTo(next) => SizeIs(size, next)
  }

  /** How the decoder left its loop; `next` is next_chunk_size_, -1 before a size line. */
  datatype Decoded =
    | More(pos: nat, next: PtrDiff, body: string)
    | Finished(body: string)
    | Failed(status: Status)

  /** AdvanceChunkedBody from a loop head. */
  function Decode(buf: string, pos: nat, next: PtrDiff, body: string, limit: nat): Decoded
    requires pos <= |buf|
    decreases |buf| - pos, 1
  {
    if next == -1 then
      match ReadSize(buf, pos, 0, false)
      case SizeNeedsMore => More(pos, -1, body)
      case SizeBad => Failed(BadRequest)
      case SizeIs(size, start) =>
        DecodeData(buf, start, Signed(size), body, limit)
    else
      DecodeData(buf, pos, next, body, limit)
  }

  /** The rest of one iteration, with the chunk size known. */
  function DecodeData(buf: string, pos: nat, next: PtrDiff, body: string, limit: nat): Decoded
    requires pos <= |buf|
    decreases |buf| - pos, 0
  {
    if next == 0 then
      match SkipCrlf(buf, pos)
      case SkipNeedsMore => More(pos, 0, body)
      case SkipBad => Failed(BadRequest)
      case SkippedTo(end) => if end != |buf| then Failed(BadRequest) else Finished(body)
    else
      var size := Unsigned(next);
      if size > limit || |body| > limit - size then Failed(PayloadTooLarge)
      else if pos + size + 2 > |buf| then More(pos, next, body)
      else
        var body' := body + buf[pos..pos + size];
        match SkipCrlf(buf, pos + size)
        case SkipNeedsMore => More(pos, next, body')
        case SkipBad => Failed(BadRequest)
        case SkippedTo(end) => Decode(buf, end, -1, body', limit)
  }

  /** One iteration of the loop. */
  lemma DecodeUnfold(buf: string, pos: nat, next: PtrDiff, body: string, limit: nat)
    requires pos <= |buf|
    ensures Decode(buf, pos, next, body, limit) ==
            if next == -1 then
              match ReadSize(buf, pos, 0, false)
              case SizeNeedsMore => More(pos, -1, body)
              case SizeBad => Failed(BadRequest)
              case SizeIs(size, start) => DecodeData(buf, start, Signed(size), body, limit)
            else DecodeData(buf, pos, next, body, limit)
  {}

  // ---------- the grammar ----------

  predicate IsHexText(t: string) {
    forall i | 0 <= i < |t| :: IsHex(t[i])
  }

  /** The value of hex digits read behind `acc`; HexFrom(0, t) is the number written as `t`. */
  function HexFrom(acc: nat, t: string): nat
    requires IsHexText(t)
    decreases |t|
  {
    if t == "" then acc else HexFrom(acc * 16 + HexDigit(t[0]), t[1..])
  }

  predicate IsSize(t: string, value: nat) {
    t != "" && IsHexText(t) && HexFrom(0, t) == value
  }

  datatype Chunk = Chunk(size: string, data: string)

  predicate ValidChunk(c: Chunk) {
    c.data != "" && IsSize(c.size, |c.data|)
  }

  predicate ValidChunks(chunks: seq<Chunk>) {
    forall i | 0 <= i < |chunks| :: ValidChunk(chunks[i])
  }

  function PrintChunk(c: Chunk): string {
    c.size + CRLF + (c.data + CRLF)
  }

  function PrintChunks(chunks: seq<Chunk>): string {
    if chunks == [] then "" else PrintChunk(chunks[0]) + PrintChunks(chunks[1..])
  }

  /** A whole chunked body: the chunks, a size line of value zero, and an empty trailer section. */
  function PrintBody(chunks: seq<Chunk>, last: string): string {
    PrintChunks(chunks) + (last + CRLF + CRLF)
  }

  function Payload(chunks: seq<Chunk>): string {
    if chunks == [] then "" else chunks[0].data + Payload(chunks[1..])
  }

  ghost predicate IsChunkedBody(text: string, payload: string) {
    exists chunks, last ::
      ValidChunks(chunks) && IsSize(last, 0) && text == PrintBody(chunks, last) && payload == Payload(chunks)
  }

  // ---------- 64-bit arithmetic ----------

  /** Behind the shift guard nothing wraps, and the guard fires exactly when the value would not fit. */
  lemma ShiftAddExact(size: nat, digit: nat)
    requires digit < 16
    ensures size <= MAX_BEFORE_SHIFT ==> ShiftAdd(size, digit) == size * 16 + digit < SIZE_MODULUS
    ensures size > MAX_BEFORE_SHIFT ==> size * 16 + digit >= SIZE_MODULUS
  {}

  lemma {:induction false} HexFromGrows(acc: nat, t: string)
    requires IsHexText(t)
    ensures HexFrom(acc, t) >= acc
    decreases |t|
  {
    if t != "" {
      HexFromGrows(acc * 16 + HexDigit(t[0]), t[1..]);
    }
  }

  /** A complete size line is rejected exactly when the number written on it reaches 2^64,
      and otherwise read as that number. */
  lemma {:induction false} ReadSizeExact(buf: string, pos: nat, acc: nat, saw: bool, t: string)
    requires IsHexText(t) && (saw || t != "") && acc < SIZE_MODULUS
    requires HasAt(buf, pos, t) && HasAt(buf, pos + |t|, CRLF)
    ensures ReadSize(buf, pos, acc, saw)
         == if HexFrom(acc, t) < SIZE_MODULUS then SizeIs(HexFrom(acc, t), pos + |t| + 2) else SizeBad
    decreases |t|
  {
    if t == "" {
      HasAtChars(buf, pos, CRLF);
      assert At(buf, pos + 0) == '\r' && At(buf, pos + 1) == '\n';
    } else {
      assert buf[pos..pos + |t|] == t;
      assert buf[pos] == t[0] && IsHex(t[0]);
      ShiftAddExact(acc, HexDigit(t[0]));
      var acc' := acc * 16 + HexDigit(t[0]);
      if acc > MAX_BEFORE_SHIFT {
        HexFromGrows(acc', t[1..]);
      } else {
        assert buf[pos + 1..pos + 1 + |t[1..]|] == t[1..];
        ReadSizeExact(buf, pos + 1, acc', true, t[1..]);
      }
    }
  }

  /** Conversely, a size is only ever read from a complete size line that says so. */
  lemma {:induction false} ReadSizeSound(buf: string, pos: nat, acc: nat, saw: bool) returns (t: string)
    requires acc < SIZE_MODULUS && ReadSize(buf, pos, acc, saw).SizeIs?
    ensures IsHexText(t) && (saw || t != "")
    ensures HasAt(buf, pos, t) && HasAt(buf, pos + |t|, CRLF)
    ensures ReadSize(buf, pos, acc, saw) == SizeIs(HexFrom(acc, t), pos + |t| + 2)
    ensures HexFrom(acc, t) < SIZE_MODULUS
    decreases |buf| - pos
  {
    if pos < |buf| && buf[pos] != '\r' {
      var d := HexDigit(buf[pos]);
      ShiftAddExact(acc, d);
      var t' := ReadSizeSound(buf, pos + 1, acc * 16 + d, true);
      t := [buf[pos]] + t';
      assert t[1..] == t';
      assert buf[pos..pos + |t|] == t;
    } else {
      t := "";
      assert buf[pos..pos + 2] == CRLF;
    }
  }

  lemma {:induction false} ReadSizeIsLocal(a: string, u: string, pos: nat, acc: nat, saw: bool)
    requires acc < SIZE_MODULUS && a <= u && !ReadSize(a, pos, acc, saw).SizeNeedsMore?
    ensures ReadSize(u, pos, acc, saw) == ReadSize(a, pos, acc, saw)
    decreases |a| - pos
  {
    if pos < |a| && a[pos] != '\r' && IsHex(a[pos]) && acc <= MAX_BEFORE_SHIFT {
      ReadSizeIsLocal(a, u, pos + 1, acc * 16 + HexDigit(a[pos]), true);
    }
  }

  /** A size whose signed cast is negative, the sentinel -1 included, is refused before the
      iteration in which it was read ends. */
  lemma NegativeSizesAreRefused(buf: string, pos: nat, size: nat, body: string, limit: nat)
    requires pos <= |buf| && |body| <= limit < SIGN_BOUND <= size < SIZE_MODULUS
    ensures Signed(size) < 0 && Unsigned(Signed(size)) == size
    ensures DecodeData(buf, pos, Signed(size), body, limit) == Failed(PayloadTooLarge)
  {}

  /** The bound test of AppendChunkData cannot wrap: std::string never holds more than
      PTRDIFF_MAX - 1 bytes. */
  lemma AppendBoundDoesNotWrap(length: nat, pos: nat, size: nat, limit: nat)
    requires pos <= length < SIGN_BOUND - 1 && size <= limit < SIGN_BOUND
    ensures (pos + (size + 2) % SIZE_MODULUS) % SIZE_MODULUS == pos + size + 2
  {}

  // ---------- soundness and completeness ----------

  /** `text` stands at `pos` and is the rest of the buffer. */
  predicate EndsWithAt(buf: string, pos: nat, text: string) {
    pos <= |buf| && buf[pos..] == text
  }

  lemma EndsWithConcat(buf: string, pos: nat, a: string, b: string)
    ensures EndsWithAt(buf, pos, a + b) <==> HasAt(buf, pos, a) && EndsWithAt(buf, pos + |a|, b)
  {
    if pos <= |buf| && |a| <= |buf[pos..]| {
      assert buf[pos..] == buf[pos..pos + |a|] + buf[pos + |a|..];
      if buf[pos..] == a + b {
        assert buf[pos..][..|a|] == a && buf[pos..][|a|..] == b;
      }
    }
  }

  function ChunkLength(c: Chunk): nat {
    |c.size| + 2 + |c.data| + 2
  }

  predicate ChunkAt(buf: string, pos: nat, c: Chunk) {
    && HasAt(buf, pos, c.size) && HasAt(buf, pos + |c.size|, CRLF)
    && HasAt(buf, pos + |c.size| + 2, c.data) && HasAt(buf, pos + |c.size| + 2 + |c.data|, CRLF)
  }

  predicate LastAt(buf: string, pos: nat, last: string) {
    && HasAt(buf, pos, last) && HasAt(buf, pos + |last|, CRLF)
    && HasAt(buf, pos + |last| + 2, CRLF) && pos + |last| + 4 == |buf|
  }

  /** The printed body read piece by piece from `pos` to the end of the buffer. */
  predicate BodyAt(buf: string, pos: nat, chunks: seq<Chunk>, last: string)
    decreases |chunks|
  {
    if chunks == [] then LastAt(buf, pos, last)
    else ChunkAt(buf, pos, chunks[0]) && BodyAt(buf, pos + ChunkLength(chunks[0]), chunks[1..], last)
  }

  lemma PrintChunkAt(buf: string, pos: nat, c: Chunk)
    ensures HasAt(buf, pos, PrintChunk(c)) <==> ChunkAt(buf, pos, c)
    ensures |PrintChunk(c)| == ChunkLength(c)
  {
    hide HasAt;
    HasAtConcat(buf, pos, c.size + CRLF, c.data + CRLF);
    HasAtConcat(buf, pos, c.size, CRLF);
    HasAtConcat(buf, pos + |c.size| + 2, c.data, CRLF);
  }

  lemma PrintLastAt(buf: string, pos: nat, last: string)
    ensures EndsWithAt(buf, pos, last + CRLF + CRLF) <==> LastAt(buf, pos, last)
  {
    EndsWithConcat(buf, pos, last + CRLF, CRLF);
    HasAtConcat(buf, pos, last, CRLF);
  }

  lemma {:induction false} PrintBodyAt(buf: string, pos: nat, chunks: seq<Chunk>, last: string)
    ensures EndsWithAt(buf, pos, PrintBody(chunks, last)) <==> BodyAt(buf, pos, chunks, last)
    decreases |chunks|
  {
    var end := last + CRLF + CRLF;
    if chunks == [] {
      assert "" + end == end;
      PrintLastAt(buf, pos, last);
    } else {
      var c, rest := PrintChunk(chunks[0]), PrintChunks(chunks[1..]);
      assert c + rest + end == c + (rest + end);
      EndsWithConcat(buf, pos, c, PrintBody(chunks[1..], last));
      PrintChunkAt(buf, pos, chunks[0]);
      PrintBodyAt(buf, pos + ChunkLength(chunks[0]), chunks[1..], last);
    }
  }

  lemma CrlfAt(buf: string, pos: nat)
    ensures HasAt(buf, pos, CRLF) <==> SkipCrlf(buf, pos) == SkippedTo(pos + 2)
  {
    if HasAt(buf, pos, CRLF) {
      HasAtChars(buf, pos, CRLF);
      assert At(buf, pos + 0) == '\r' && At(buf, pos + 1) == '\n';
    }
  }

  /** One iteration over a chunk that is there completely. */
  lemma DecodeStep(buf: string, pos: nat, body: string, limit: nat, size: nat, start: nat)
    requires pos <= |buf| && 0 < size < SIGN_BOUND && |body| + size <= limit
    requires ReadSize(buf, pos, 0, false) == SizeIs(size, start)
    requires SkipCrlf(buf, start + size) == SkippedTo(start + size + 2)
    ensures Decode(buf, pos, -1, body, limit)
         == Decode(buf, start + size + 2, -1, body + buf[start..start + size], limit)
  {}

  lemma DecodeOneChunk(buf: string, pos: nat, body: string, limit: nat, c: Chunk)
    requires ValidChunk(c) && ChunkAt(buf, pos, c) && |body| + |c.data| <= limit < SIGN_BOUND
    ensures pos + ChunkLength(c) <= |buf|
    ensures Decode(buf, pos, -1, body, limit) == Decode(buf, pos + ChunkLength(c), -1, body + c.data, limit)
  {
    hide PrintChunk, Decode, ReadSize;
    var start := pos + |c.size| + 2;
    ReadSizeExact(buf, pos, 0, false, c.size);
    CrlfAt(buf, start + |c.data|);
    DecodeStep(buf, pos, body, limit, |c.data|, start);
  }

  lemma DecodeLast(buf: string, pos: nat, body: string, limit: nat, last: string)
    requires IsSize(last, 0) && LastAt(buf, pos, last)
    ensures Decode(buf, pos, -1, body, limit) == Finished(body)
  {
    ReadSizeExact(buf, pos, 0, false, last);
    CrlfAt(buf, pos + |last| + 2);
  }

  lemma UnconsBody(buf: string, pos: nat, chunks: seq<Chunk>, last: string)
    requires chunks != [] && ValidChunks(chunks) && BodyAt(buf, pos, chunks, last)
    ensures var c, rest := chunks[0], chunks[1..];
            && ValidChunk(c) && ChunkAt(buf, pos, c)
            && ValidChunks(rest) && BodyAt(buf, pos + ChunkLength(c), rest, last)
            && Payload(chunks) == c.data + Payload(rest)
  {}

  lemma ConsBody(buf: string, pos: nat, c: Chunk, rest: seq<Chunk>, last: string)
    requires ValidChunk(c) && ValidChunks(rest)
    requires ChunkAt(buf, pos, c) && BodyAt(buf, pos + ChunkLength(c), rest, last)
    ensures ValidChunks([c] + rest) && BodyAt(buf, pos, [c] + rest, last)
    ensures Payload([c] + rest) == c.data + Payload(rest)
  {
    hide ChunkAt, LastAt, ValidChunk;
    var chunks := [c] + rest;
    assert chunks[0] == c && chunks[1..] == rest;
  }

  /** Every body of the grammar within the limit is decoded to its payload. */
  lemma {:induction false} DecodeComplete(buf: string, pos: nat, body: string, limit: nat,
                                          chunks: seq<Chunk>, last: string)
    requires BodyAt(buf, pos, chunks, last) && ValidChunks(chunks) && IsSize(last, 0)
    requires |body| + |Payload(chunks)| <= limit < SIGN_BOUND
    ensures pos <= |buf| && Decode(buf, pos, -1, body, limit) == Finished(body + Payload(chunks))
    decreases |chunks|
  {
    hide ChunkAt;
    if chunks == [] {
      DecodeLast(buf, pos, body, limit, last);
      assert body + "" == body;
    } else {
      var c, rest := chunks[0], chunks[1..];
      UnconsBody(buf, pos, chunks, last);
      DecodeOneChunk(buf, pos, body, limit, c);
      DecodeComplete(buf, pos + ChunkLength(c), body + c.data, limit, rest, last);
      assert body + c.data + Payload(rest) == body + Payload(chunks);
    }
  }

  /** Where decoding finishes there is a zero size line that ends the buffer, or a complete
      chunk that fits and behind which decoding goes on. */
  lemma DecodeStepSound(buf: string, pos: nat, body: string, limit: nat) returns (c: Chunk)
    requires pos <= |buf| && |body| <= limit < SIGN_BOUND && Decode(buf, pos, -1, body, limit).Finished?
    ensures c.data == "" ==>
            && IsSize(c.size, 0) && LastAt(buf, pos, c.size)
            && Decode(buf, pos, -1, body, limit) == Finished(body)
    ensures c.data != "" ==>
            && ValidChunk(c) && ChunkAt(buf, pos, c) && |body| + |c.data| <= limit
            && Decode(buf, pos, -1, body, limit) == Decode(buf, pos + ChunkLength(c), -1, body + c.data, limit)
  {
    hide ChunkAt;
    var t := ReadSizeSound(buf, pos, 0, false);
    var size, start := HexFrom(0, t), pos + |t| + 2;
    FinishedStep(buf, pos, body, limit, size, start);
    if size == 0 {
      c := Chunk(t, "");
      CrlfAt(buf, start);
    } else {
      DecodeStep(buf, pos, body, limit, size, start);
      c := MakeChunk(buf, pos, t, size);
    }
  }

  lemma MakeChunk(buf: string, pos: nat, t: string, size: nat) returns (c: Chunk)
    requires IsSize(t, size) && size > 0 && HasAt(buf, pos, t) && HasAt(buf, pos + |t|, CRLF)
    requires SkipCrlf(buf, pos + |t| + 2 + size) == SkippedTo(pos + |t| + 2 + size + 2)
    ensures ValidChunk(c) && ChunkAt(buf, pos, c)
    ensures c.size == t && |c.data| == size && c.data == buf[pos + |t| + 2..pos + |t| + 2 + size]
  {
    var start := pos + |t| + 2;
    c := Chunk(t, buf[start..start + size]);
    CrlfAt(buf, start + size);
  }

  lemma FinishedStep(buf: string, pos: nat, body: string, limit: nat, size: nat, start: nat)
    requires pos <= |buf| && |body| <= limit < SIGN_BOUND && Decode(buf, pos, -1, body, limit).Finished?
    requires ReadSize(buf, pos, 0, false) == SizeIs(size, start) && size < SIZE_MODULUS
    ensures size == 0 ==>
            && SkipCrlf(buf, start) == SkippedTo(start + 2) && start + 2 == |buf|
            && Decode(buf, pos, -1, body, limit) == Finished(body)
    ensures size > 0 ==>
            && size < SIGN_BOUND && |body| + size <= limit
            && SkipCrlf(buf, start + size) == SkippedTo(start + size + 2)
  {
    if size >= SIGN_BOUND {
      NegativeSizesAreRefused(buf, start, size, body, limit);
    }
  }

  /** Whatever the decoder finishes on is a body of the grammar within the limit. */
  lemma {:induction false} DecodeSound(buf: string, pos: nat, body: string, limit: nat)
    returns (chunks: seq<Chunk>, last: string)
    requires pos <= |buf| && |body| <= limit < SIGN_BOUND && Decode(buf, pos, -1, body, limit).Finished?
    ensures ValidChunks(chunks) && IsSize(last, 0) && BodyAt(buf, pos, chunks, last)
    ensures Decode(buf, pos, -1, body, limit) == Finished(body + Payload(chunks))
    ensures |body + Payload(chunks)| <= limit
    decreases |buf| - pos
  {
    hide ChunkAt;
    var c := DecodeStepSound(buf, pos, body, limit);
    if c.data == "" {
      chunks, last := [], c.size;
      assert body + "" == body;
    } else {
      var rest;
      rest, last := DecodeSound(buf, pos + ChunkLength(c), body + c.data, limit);
      chunks := [c] + rest;
      ConsBody(buf, pos, c, rest, last);
      assert body + c.data + Payload(rest) == body + Payload(chunks);
    }
  }

  /** Chunked decoding is sound and complete for the grammar. */
  lemma DecodesExactlyTheGrammar(buf: string, limit: nat, payload: string)
    requires limit < SIGN_BOUND
    ensures Decode(buf, 0, -1, "", limit) == Finished(payload) <==>
            IsChunkedBody(buf, payload) && |payload| <= limit
  {
    if Decode(buf, 0, -1, "", limit) == Finished(payload) {
      var chunks, last := DecodeSound(buf, 0, "", limit);
      PrintBodyAt(buf, 0, chunks, last);
      assert buf[0..] == buf && "" + Payload(chunks) == payload;
    }
    if IsChunkedBody(buf, payload) && |payload| <= limit {
      var chunks, last :| ValidChunks(chunks) && IsSize(last, 0) && buf == PrintBody(chunks, last)
                          && payload == Payload(chunks);
      assert buf[0..] == buf;
      PrintBodyAt(buf, 0, chunks, last);
      DecodeComplete(buf, 0, "", limit, chunks, last);
      assert "" + payload == payload;
    }
  }

  // ---------- resumption ----------

  /** A kept chunk size has passed the limit test, and the body respects the limit. */
  predicate WithinLimit(next: int, body: string, limit: nat) {
    && -1 <= next
    && |body| <= limit < SIGN_BOUND
    && (next > 0 ==> |body| + next <= limit)
  }

  /** Resuming on a longer buffer from where the decoder stopped is the same as decoding the
      longer buffer from the start; failures are final, and data behind a finished body is one. */
  lemma {:induction false} DecodeResumes(a: string, u: string, pos: nat, next: PtrDiff, body: string, limit: nat)
    requires a <= u && pos <= |a| && WithinLimit(next, body, limit)
    ensures match Decode(a, pos, next, body, limit)
            case More(p, n, b) =>
              && pos <= p <= |a| && WithinLimit(n, b, limit)
              && Decode(u, pos, next, body, limit) == Decode(u, p, n, b, limit)
            case Finished(b) =>
              && |b| <= limit
              && Decode(u, pos, next, body, limit) == if u == a then Finished(b) else Failed(BadRequest)
            case Failed(status) => Decode(u, pos, next, body, limit) == Failed(status)
    decreases |a| - pos, 1
  {
    if next == -1 {
      var r := ReadSize(a, pos, 0, false);
      if !r.SizeNeedsMore? {
        ReadSizeIsLocal(a, u, pos, 0, false);
        if r.SizeIs? {
          DecodeDataResumes(a, u, r.next, Signed(r.size), body, limit);
        }
      }
    } else {
      DecodeDataResumes(a, u, pos, next, body, limit);
    }
  }

  lemma {:induction false} DecodeDataResumes(a: string, u: string, pos: nat, next: PtrDiff, body: string, limit: nat)
    requires a <= u && pos <= |a| && |body| <= limit < SIGN_BOUND
    ensures match DecodeData(a, pos, next, body, limit)
            case More(p, n, b) =>
              && pos <= p <= |a| && WithinLimit(n, b, limit)
              && DecodeData(u, pos, next, body, limit) == Decode(u, p, n, b, limit)
            case Finished(b) =>
              && |b| <= limit
              && DecodeData(u, pos, next, body, limit) == if u == a then Finished(b) else Failed(BadRequest)
            case Failed(status) => DecodeData(u, pos, next, body, limit) == Failed(status)
    decreases |a| - pos, 0
  {
    if next != 0 {
      var size := Unsigned(next);
      if size <= limit && |body| <= limit - size && pos + size + 2 <= |a| {
        var end := pos + size;
        assert u[pos..end] == a[pos..end];
        if SkipCrlf(a, end).SkippedTo? {
          DecodeResumes(a, u, end + 2, -1, body + a[pos..end], limit);
        }
      }
    }
  }

  // ---------- which waiting states can still finish ----------

  function WithoutCr(u: string): string {
    if u != "" && u[|u| - 1] == '\r' then u[..|u| - 1] else u
  }

  /** The unread bytes can be continued to the end of a body within the limit. */
  predicate CanComplete(u: string, next: int, body: string, limit: nat) {
    if next == -1 then
      var t := WithoutCr(u);
      u == "" || (t != "" && IsHexText(t) && (HexFrom(0, t) == 0 || |body| + HexFrom(0, t) <= limit))
    else if next == 0 then u == "" || u == "\r"
    else |u| <= next || (|u| == next + 1 && u[next] == '\r')
  }

  ghost predicate CanFinish(buf: string, pos: nat, next: PtrDiff, body: string, limit: nat)
    requires pos <= |buf|
  {
    exists v :: Decode(buf + v, pos, next, body, limit).Finished?
  }

  lemma {:induction false} HexFromConcat(acc: nat, t: string, s: string)
    requires IsHexText(t) && IsHexText(s)
    ensures IsHexText(t + s) && HexFrom(acc, t + s) == HexFrom(HexFrom(acc, t), s)
    decreases |t|
  {
    if t == "" {
      assert t + s == s;
    } else {
      assert (t + s)[0] == t[0] && (t + s)[1..] == t[1..] + s;
      HexFromConcat(acc * 16 + HexDigit(t[0]), t[1..], s);
    }
  }

  lemma HexPrefixIsSmaller(t: string, size: string)
    requires t <= size && IsHexText(size)
    ensures IsHexText(t) && HexFrom(0, t) <= HexFrom(0, size)
  {
    var s := size[|t|..];
    assert t + s == size && IsHexText(t) && IsHexText(s);
    HexFromConcat(0, t, s);
    HexFromGrows(HexFrom(0, t), s);
  }

  /** Unread bytes that start a body of the grammar within the limit can be continued. */
  lemma ContinuesBody(buf: string, pos: nat, body: string, limit: nat, chunks: seq<Chunk>, last: string)
    requires pos <= |buf| && buf[pos..] <= PrintBody(chunks, last)
    requires ValidChunks(chunks) && IsSize(last, 0) && |body| + |Payload(chunks)| <= limit < SIGN_BOUND
    ensures CanFinish(buf, pos, -1, body, limit)
  {
    hide Decode, BodyAt, PrintBody, Payload;
    var whole := PrintBody(chunks, last);
    var v := whole[|buf| - pos..];
    assert (buf + v)[pos..] == buf[pos..] + v == whole;
    PrintBodyAt(buf + v, pos, chunks, last);
    DecodeComplete(buf + v, pos, body, limit, chunks, last);
  }

  lemma ZeroIsSize()
    ensures IsSize("0", 0)
  {
    assert "0"[1..] == "";
  }

  lemma NothingToPrint()
    ensures PrintChunks([]) == "" && Payload([]) == ""
  {}

  lemma OneChunkBody(c: Chunk)
    ensures c.size + CRLF <= PrintBody([c], "0") && Payload([c]) == c.data
  {
    var line, data, end := c.size + CRLF, c.data + CRLF, "0" + CRLF + CRLF;
    assert [c][1..] == [];
    assert PrintChunks([c]) == line + data + "" == line + data;
    assert line + data + end == line + (data + end);
    assert Payload([c]) == c.data + "";
  }

  lemma SizeLineCanFinish(buf: string, pos: nat, body: string, limit: nat)
    requires pos <= |buf| && |body| <= limit < SIGN_BOUND && CanComplete(buf[pos..], -1, body, limit)
    ensures CanFinish(buf, pos, -1, body, limit)
  {
    hide CanFinish, PrintChunks;
    var u := buf[pos..];
    var t := WithoutCr(u);
    ZeroIsSize();
    assert PrintChunks([]) == "" by { NothingToPrint(); }
    if u == "" {
      ContinuesBody(buf, pos, body, limit, [], "0");
    } else {
      assert u == t || u == t + "\r";
      var n := HexFrom(0, t);
      if n == 0 {
        assert PrintBody([], t) == "" + (t + CRLF + CRLF) == t + CRLF + CRLF;
        ContinuesBody(buf, pos, body, limit, [], t);
      } else {
        var c := Chunk(t, seq(n, _ => 'x'));
        assert ValidChunk(c) && ValidChunks([c]);
        OneChunkBody(c);
        ContinuesBody(buf, pos, body, limit, [c], "0");
      }
    }
  }

  lemma LastCrlfCanFinish(buf: string, pos: nat, body: string, limit: nat)
    requires pos <= |buf| && CanComplete(buf[pos..], 0, body, limit)
    ensures CanFinish(buf, pos, 0, body, limit)
  {
    var u := buf[pos..];
    var b := buf + CRLF[|u|..];
    assert b[pos..] == u + CRLF[|u|..] == CRLF;
    assert b[pos] == b[pos..][0] && b[pos + 1] == b[pos..][1];
    assert Decode(b, pos, 0, body, limit).Finished?;
  }

  lemma DataCanFinish(buf: string, pos: nat, next: PtrDiff, body: string, limit: nat)
    requires pos <= |buf| && next > 0 && WithinLimit(next, body, limit)
    requires CanComplete(buf[pos..], next, body, limit)
    ensures CanFinish(buf, pos, next, body, limit)
  {
    hide Decode, LastAt;
    var u, last := buf[pos..], CRLF + "0" + CRLF + CRLF;
    var v := if |u| <= next then seq(next - |u|, _ => 'x') + last else last[1..];
    var b, end := buf + v, pos + next;
    assert b[end..] == last by {
      if |u| > next {
        assert b[end..] == [u[next]] + last[1..];
      }
    }
    LastChunkBehind(b, end);
    ZeroIsSize();
    DecodeLast(b, end + 2, body + b[pos..end], limit, "0");
    DecodeKept(b, pos, next, body, limit);
    assert Decode(b, pos, next, body, limit).Finished?;
  }

  /** One iteration over a kept chunk that is there completely. */
  lemma DecodeKept(buf: string, pos: nat, next: PtrDiff, body: string, limit: nat)
    requires pos + next + 2 <= |buf| && next > 0 && WithinLimit(next, body, limit)
    requires SkipCrlf(buf, pos + next) == SkippedTo(pos + next + 2)
    ensures Decode(buf, pos, next, body, limit)
         == Decode(buf, pos + next + 2, -1, body + buf[pos..pos + next], limit)
  {}

  lemma LastChunkBehind(b: string, end: nat)
    requires end <= |b| && b[end..] == CRLF + "0" + CRLF + CRLF
    ensures SkipCrlf(b, end) == SkippedTo(end + 2) && LastAt(b, end + 2, "0")
  {
    assert b[end + 2..] == b[end..][2..] == "0" + CRLF + CRLF;
    assert EndsWithAt(b, end + 2, "0" + CRLF + CRLF);
    PrintLastAt(b, end + 2, "0");
    assert b[end] == b[end..][0] && b[end + 1] == b[end..][1];
  }

  lemma SliceOfSlice(s: string, pos: nat, m: nat, n: nat)
    requires m <= n && pos + n <= |s|
    ensures s[pos..pos + m] <= s[pos..pos + n]
  {}

  /** Where decoding finishes there is a size line whose value fits. */
  lemma FinishedSizeLine(buf: string, pos: nat, body: string, limit: nat) returns (t: string)
    requires pos <= |buf| && |body| <= limit < SIGN_BOUND && Decode(buf, pos, -1, body, limit).Finished?
    ensures t != "" && IsHexText(t) && (HexFrom(0, t) == 0 || |body| + HexFrom(0, t) <= limit)
    ensures HasAt(buf, pos, t) && HasAt(buf, pos + |t|, CRLF)
  {
    hide Decode, ReadSize, HasAt;
    var c := DecodeStepSound(buf, pos, body, limit);
    t := c.size;
  }

  /** A waiting size line that some continuation completes holds the digits of a fitting size. */
  lemma SizeLineFinishes(buf: string, pos: nat, body: string, limit: nat, v: string)
    requires pos <= |buf| && |body| <= limit < SIGN_BOUND && ReadSize(buf, pos, 0, false).SizeNeedsMore?
    requires Decode(buf + v, pos, -1, body, limit).Finished?
    ensures CanComplete(buf[pos..], -1, body, limit)
  {
    hide Decode, ReadSize, DecodeData;
    var u, b := buf[pos..], buf + v;
    var t := FinishedSizeLine(b, pos, body, limit);
    var n := |t|;
    assert b[pos..pos + n] == t;
    assert u == b[pos..pos + |u|];
    if |u| <= n {
      SliceOfSlice(b, pos, |u|, n);
      HexPrefixIsSmaller(u, t);
    } else if |u| == n + 1 {
      assert b[pos + n] == b[pos + n..pos + n + 2][0] == '\r';
      assert u == t + "\r" && u[..|u| - 1] == t;
    } else {
      assert buf[pos..pos + n] == b[pos..pos + n] && buf[pos + n..pos + n + 2] == b[pos + n..pos + n + 2];
      ReadSizeExact(buf, pos, 0, false, t);
    }
  }

  lemma DataFinishes(buf: string, pos: nat, next: PtrDiff, body: string, limit: nat, v: string)
    requires pos <= |buf| && next >= 0 && WithinLimit(next, body, limit)
    requires Decode(buf, pos, next, body, limit) == More(pos, next, body)
    requires Decode(buf + v, pos, next, body, limit).Finished?
    ensures CanComplete(buf[pos..], next, body, limit)
  {
    hide ReadSize;
    var u, b, end := buf[pos..], buf + v, pos + next;
    assert SkipCrlf(b, end).SkippedTo?;
    if |u| == next + 1 {
      assert u[next] == b[end] == '\r';
    } else if |u| > next + 1 {
      assert SkipCrlf(buf, end) == SkippedTo(end + 2);
      if next > 0 {
        DecodeKept(buf, pos, next, body, limit);
        DecodeResumes(buf, buf, end + 2, -1, body + buf[pos..end], limit);
      }
    }
  }

  /** A waiting decoder can still finish exactly if its unread bytes are the start of a size line
      with a fitting size, of the kept chunk's data, or of the CRLF behind it. */
  lemma WaitingCanFinish(buf: string, pos: nat, next: PtrDiff, body: string, limit: nat,
                         p: nat, n: PtrDiff, b: string)
    requires pos <= |buf| && WithinLimit(next, body, limit)
    requires Decode(buf, pos, next, body, limit) == More(p, n, b)
    ensures p <= |buf|
    ensures CanFinish(buf, pos, next, body, limit) <==> CanComplete(buf[p..], n, b, limit)
  {
    hide Decode, CanComplete;
    DecodeResumes(buf, buf, pos, next, body, limit);
    forall v ensures Decode(buf + v, pos, next, body, limit) == Decode(buf + v, p, n, b, limit) {
      DecodeResumes(buf, buf + v, pos, next, body, limit);
    }
    assert CanFinish(buf, pos, next, body, limit) <==> CanFinish(buf, p, n, b, limit);
    StoppedCanFinish(buf, p, n, b, limit);
  }

  lemma WaitsForSize(buf: string, pos: nat, body: string, limit: nat)
    requires pos <= |buf| && Decode(buf, pos, -1, body, limit) == More(pos, -1, body)
    requires |body| <= limit < SIGN_BOUND
    ensures ReadSize(buf, pos, 0, false).SizeNeedsMore?
  {
    var r := ReadSize(buf, pos, 0, false);
    if r.SizeIs? {
      DecodeDataResumes(buf, buf, r.next, Signed(r.size), body, limit);
    }
  }

  lemma StoppedCanFinish(buf: string, pos: nat, next: PtrDiff, body: string, limit: nat)
    requires pos <= |buf| && WithinLimit(next, body, limit)
    requires Decode(buf, pos, next, body, limit) == More(pos, next, body)
    ensures CanFinish(buf, pos, next, body, limit) <==> CanComplete(buf[pos..], next, body, limit)
  {
    hide Decode, CanComplete, ReadSize;
    if CanComplete(buf[pos..], next, body, limit) {
      if next == -1 {
        SizeLineCanFinish(buf, pos, body, limit);
      } else if next == 0 {
        LastCrlfCanFinish(buf, pos, body, limit);
      } else {
        DataCanFinish(buf, pos, next, body, limit);
      }
    }
    if CanFinish(buf, pos, next, body, limit) {
      var v :| Decode(buf + v, pos, next, body, limit).Finished?;
      if next == -1 {
        WaitsForSize(buf, pos, body, limit);
        SizeLineFinishes(buf, pos, body, limit, v);
      } else {
        DataFinishes(buf, pos, next, body, limit, v);
      }
    }
  }

  lemma {:induction false} NoDigitIsRefused(buf: string, pos: nat, acc: nat, saw: bool)
    requires pos <= |buf| && acc < SIZE_MODULUS && ReadSize(buf, pos, acc, saw).SizeNeedsMore?
    requires saw || pos == |buf| || buf[pos] != '\r'
    ensures ReadSize(buf + "x", pos, acc, saw) == SizeBad
    decreases |buf| - pos
  {
    if pos < |buf| && buf[pos] != '\r' {
      NoDigitIsRefused(buf, pos + 1, acc * 16 + HexDigit(buf[pos]), true);
    }
  }

  /** A waiting decoder can be made to refuse, unless a size line starts with CR. */
  lemma WaitingIsRefused(buf: string, pos: nat, next: PtrDiff, body: string, limit: nat) returns (v: string)
    requires pos <= |buf| && WithinLimit(next, body, limit)
    requires Decode(buf, pos, next, body, limit) == More(pos, next, body)
    requires next != -1 || pos == |buf| || buf[pos] != '\r'
    ensures Decode(buf + v, pos, next, body, limit).Failed?
  {
    if next == -1 {
      v := "x";
      WaitsForSize(buf, pos, body, limit);
      NoDigitIsRefused(buf, pos, 0, false);
    } else {
      v := seq(next + 2, _ => 'x');
      hide Decode, ReadSize;
      assert |buf| <= pos + next + 1 by { WaitsForData(buf, pos, next, body, limit); }
      assert (buf + v)[pos + next + 1] == 'x';
      RefusedData(buf + v, pos, next, body, limit);
    }
  }

  lemma WaitsForData(buf: string, pos: nat, next: PtrDiff, body: string, limit: nat)
    requires pos <= |buf| && next >= 0 && WithinLimit(next, body, limit)
    requires Decode(buf, pos, next, body, limit) == More(pos, next, body)
    ensures |buf| <= pos + next + 1
  {
    hide ReadSize;
    var end := pos + next;
    if |buf| > end + 1 && SkipCrlf(buf, end).SkippedTo? && next > 0 {
      DecodeKept(buf, pos, next, body, limit);
      DecodeResumes(buf, buf, end + 2, -1, body + buf[pos..end], limit);
    }
  }

  lemma RefusedData(buf: string, pos: nat, next: PtrDiff, body: string, limit: nat)
    requires pos + next + 1 < |buf| && next >= 0 && WithinLimit(next, body, limit) && buf[pos + next + 1] != '\n'
    ensures Decode(buf, pos, next, body, limit) == Failed(BadRequest)
  {}

  lemma CrWaits(buf: string, pos: nat, body: string, limit: nat)
    requires pos < |buf| && buf[pos] == '\r'
    ensures Decode(buf, pos, -1, body, limit) == More(pos, -1, body)
  {}

  /** A waiting decoder goes on waiting whatever comes, neither finished nor refused, exactly if its
      unread bytes are a size line that starts with CR. */
  lemma WaitsForEverExactly(buf: string, pos: nat, next: PtrDiff, body: string, limit: nat,
                            p: nat, n: PtrDiff, b: string)
    requires pos <= |buf| && WithinLimit(next, body, limit)
    requires Decode(buf, pos, next, body, limit) == More(p, n, b)
    ensures (forall v :: Decode(buf + v, pos, next, body, limit).More?) <==> n == -1 && At(buf, p) == '\r'
  {
    hide Decode;
    DecodeResumes(buf, buf, pos, next, body, limit);
    forall v ensures Decode(buf + v, pos, next, body, limit) == Decode(buf + v, p, n, b, limit) {
      DecodeResumes(buf, buf + v, pos, next, body, limit);
    }
    if n == -1 && At(buf, p) == '\r' {
      forall v ensures Decode(buf + v, p, -1, b, limit).More? {
        CrWaits(buf + v, p, b, limit);
      }
    } else {
      var v := WaitingIsRefused(buf, p, n, b, limit);
      assert !Decode(buf + v, pos, next, body, limit).More?;
    }
  }

  /** The decoder has finished on `text`, or waits in a state that can complete. */
  predicate OnTrack(text: string, d: Decoded, limit: nat) {
    match d
    case Finished(_) => true
    case Failed(_) => false
    case More(p, n, b) => p <= |text| && CanComplete(text[p..], n, b, limit)
  }

  /** Text received from the start of a body is the beginning of some body within the limit exactly
      if the decoder has finished on it or waits in a state that can complete. */
  lemma BeginningsOfBodies(text: string, limit: nat)
    requires limit < SIGN_BOUND
    ensures (exists v, payload :: IsChunkedBody(text + v, payload) && |payload| <= limit) <==>
            OnTrack(text, Decode(text, 0, -1, "", limit), limit)
  {
    hide Decode, CanComplete, IsChunkedBody;
    forall v, payload
      ensures Decode(text + v, 0, -1, "", limit) == Finished(payload) <==>
              IsChunkedBody(text + v, payload) && |payload| <= limit
    {
      DecodesExactlyTheGrammar(text + v, limit, payload);
    }
    forall v ensures Decode(text + v, 0, -1, "", limit).Finished? ==>
                     IsChunkedBody(text + v, Decode(text + v, 0, -1, "", limit).body) {}
    assert CanFinish(text, 0, -1, "", limit) <==>
           exists v, payload :: IsChunkedBody(text + v, payload) && |payload| <= limit;
    match Decode(text, 0, -1, "", limit)
    case Finished(_) =>
      assert text + "" == text;
    case Failed(_) =>
      forall v ensures Decode(text + v, 0, -1, "", limit).Failed? {
        DecodeResumes(text, text + v, 0, -1, "", limit);
      }
    case More(p, n, b) =>
      WaitingCanFinish(text, 0, -1, "", limit, p, n, b);
  }

  /** What the buffer held before the read position: whole chunks whose data is the body so far,
      then, when a chunk size is kept, its size line. */
  ghost predicate History(buf: string, pos: nat, next: int, body: string) {
    exists chunks, t :: IsHistory(buf, pos, next, body, chunks, t)
  }

  predicate IsHistory(buf: string, pos: nat, next: int, body: string, chunks: seq<Chunk>, t: string) {
    && ValidChunks(chunks) && body == Payload(chunks)
    && (next != -1 ==> next >= 0 && IsSize(t, next))
    && pos <= |buf|
    && buf[..pos] == PrintChunks(chunks) + if next == -1 then "" else t + CRLF
  }

  lemma PrintChunksCons(c: Chunk, rest: seq<Chunk>)
    ensures PrintChunks([c] + rest) == PrintChunk(c) + PrintChunks(rest)
    ensures Payload([c] + rest) == c.data + Payload(rest)
  {
    hide PrintChunk;
    assert ([c] + rest)[1..] == rest;
  }

  lemma {:induction false} PrintChunksAppend(chunks: seq<Chunk>, c: Chunk)
    ensures PrintChunks(chunks + [c]) == PrintChunks(chunks) + PrintChunk(c)
    ensures Payload(chunks + [c]) == Payload(chunks) + c.data
    decreases |chunks|
  {
    hide PrintChunk, PrintChunks, Payload;
    NothingToPrint();
    if chunks == [] {
      PrintChunksCons(c, []);
      assert [] + [c] == [c] + [] && PrintChunk(c) + "" == "" + PrintChunk(c) && c.data + "" == "" + c.data;
    } else {
      var first, rest := chunks[0], chunks[1..];
      PrintChunksCons(first, rest);
      PrintChunksCons(first, rest + [c]);
      PrintChunksAppend(rest, c);
      assert chunks == [first] + rest && chunks + [c] == [first] + (rest + [c]);
      assert PrintChunk(first) + (PrintChunks(rest) + PrintChunk(c)) == PrintChunks(chunks) + PrintChunk(c);
      assert first.data + (Payload(rest) + c.data) == Payload(chunks) + c.data;
    }
  }

  lemma AppendLine(buf: string, pos: nat, end: nat, line: string)
    requires HasAt(buf, pos, line) && end == pos + |line| && HasAt(buf, end, CRLF)
    ensures buf[..end + 2] == buf[..pos] + (line + CRLF)
  {
    HasAtConcat(buf, pos, line, CRLF);
    assert buf[..end + 2] == buf[..pos] + buf[pos..end + 2];
  }

  /** Reading a size line keeps the history. */
  lemma HistoryAfterSize(buf: string, pos: nat, body: string, size: nat, start: nat)
    requires History(buf, pos, -1, body) && ReadSize(buf, pos, 0, false) == SizeIs(size, start)
    requires size < SIGN_BOUND
    ensures History(buf, start, size, body)
  {
    var chunks, t :| IsHistory(buf, pos, -1, body, chunks, t);
    var digits := ReadSizeSound(buf, pos, 0, false);
    AppendLine(buf, pos, pos + |digits|, digits);
    assert PrintChunks(chunks) + "" == PrintChunks(chunks);
    assert IsHistory(buf, start, size, body, chunks, digits);
  }

  /** Appending a chunk's data keeps the history: its bytes are in the body exactly once. */
  lemma HistoryAfterData(buf: string, pos: nat, next: int, body: string)
    requires History(buf, pos, next, body) && next > 0 && pos + next + 2 <= |buf|
    requires SkipCrlf(buf, pos + next) == SkippedTo(pos + next + 2)
    ensures History(buf, pos + next + 2, -1, body + buf[pos..pos + next])
  {
    hide PrintChunks;
    var chunks, t :| IsHistory(buf, pos, next, body, chunks, t);
    var end := pos + next;
    var c := Chunk(t, buf[pos..end]);
    PrintChunksAppend(chunks, c);
    var all := chunks + [c];
    assert ValidChunks(all) by { assert ValidChunk(c); }
    CrlfAt(buf, end);
    AppendLine(buf, pos, end, c.data);
    assert PrintChunks(chunks) + (t + CRLF) + (c.data + CRLF) == PrintChunks(all) + "";
    assert IsHistory(buf, end + 2, -1, body + c.data, all, "");
  }

  /** One loop iteration that consumed a chunk keeps the history, whether it read the size line
      itself or found the size kept from an earlier call. */
  lemma IterationKeepsHistory(buf: string, pos: nat, next: PtrDiff, body: string, start: nat, size: PtrDiff)
    requires pos <= |buf| && History(buf, pos, next, body)
    requires if next == -1 then 0 <= size && ReadSize(buf, pos, 0, false) == SizeIs(size, start)
             else start == pos && size == next
    requires size > 0 && start + size + 2 <= |buf|
    requires SkipCrlf(buf, start + size) == SkippedTo(start + size + 2)
    ensures History(buf, start + size + 2, -1, body + buf[start..start + size])
  {
    if next == -1 {
      HistoryAfterSize(buf, pos, body, size, start);
    }
    HistoryAfterData(buf, start, size, body);
  }

  lemma HistoryOfLonger(buf: string, u: string, pos: nat, next: int, body: string)
    requires History(buf, pos, next, body) && buf <= u
    ensures History(u, pos, next, body)
  {
    var chunks, t :| IsHistory(buf, pos, next, body, chunks, t);
    assert u[..pos] == buf[..pos];
    assert IsHistory(u, pos, next, body, chunks, t);
  }

  /** From a loop head whose body is the decode of the bytes read, the decoder only stops at
      positions with the same property. */
  lemma {:induction false} DecodeKeepsHistory(buf: string, pos: nat, next: PtrDiff, body: string, limit: nat)
    requires pos <= |buf| && WithinLimit(next, body, limit) && History(buf, pos, next, body)
    requires Decode(buf, pos, next, body, limit).More?
    ensures var d := Decode(buf, pos, next, body, limit);
            History(buf, d.pos, d.next, d.body)
    decreases |buf| - pos, if next == -1 then 1 else 0
  {
    if next == -1 {
      var r := ReadSize(buf, pos, 0, false);
      if r.SizeIs? {
        var t := ReadSizeSound(buf, pos, 0, false);
        if r.size < SIGN_BOUND {
          HistoryAfterSize(buf, pos, body, r.size, r.next);
          if r.size == 0 || |body| + r.size <= limit {
            DecodeKeepsHistory(buf, r.next, r.size, body, limit);
          }
        } else {
          NegativeSizesAreRefused(buf, r.next, r.size, body, limit);
        }
      }
    } else if next > 0 && pos + next + 2 <= |buf| {
      HistoryAfterData(buf, pos, next, body);
      DecodeKeepsHistory(buf, pos + next + 2, -1, body + buf[pos..pos + next], limit);
    }
  }
}
