/** Which status a chunked body is refused with. */
module ChunkRefusals {
  import opened Text
  import opened Chunked

  /** The chunks stand at `pos`, one behind the other, up to `end`. */
  predicate ChunksAt(buf: string, pos: nat, chunks: seq<Chunk>, end: nat)
    decreases |chunks|
  {
    if chunks == [] then end == pos
    else ChunkAt(buf, pos, chunks[0]) && ChunksAt(buf, pos + ChunkLength(chunks[0]), chunks[1..], end)
  }

  /** Behind complete chunks that fit, a size line announces more than the limit leaves. */
  ghost predicate IsTooLarge(buf: string, pos: nat, body: string, limit: nat) {
    exists chunks, end, t :: TooLargeBehind(buf, pos, body, limit, chunks, end, t)
  }

  predicate TooLargeBehind(buf: string, pos: nat, body: string, limit: nat, chunks: seq<Chunk>, end: nat, t: string) {
    && ValidChunks(chunks) && ChunksAt(buf, pos, chunks, end)
    && t != "" && IsHexText(t) && HasAt(buf, end, t) && HasAt(buf, end + |t|, CRLF)
    && |body| + |Payload(chunks)| <= limit < |body| + |Payload(chunks)| + HexFrom(0, t)
    && 0 < HexFrom(0, t) < 0x1_0000_0000_0000_0000
  }

  lemma SizeIsRefused(buf: string, pos: nat, body: string, limit: nat, t: string)
    requires pos <= |buf| && |body| <= limit < SIGN_BOUND && t != "" && IsHexText(t)
    requires HasAt(buf, pos, t) && HasAt(buf, pos + |t|, CRLF)
    requires |body| + HexFrom(0, t) > limit && HexFrom(0, t) < 0x1_0000_0000_0000_0000
    ensures Decode(buf, pos, -1, body, limit) == Failed(PayloadTooLarge)
  {
    hide HexFrom;
    ReadSizeExact(buf, pos, 0, false, t);
  }

  /** 413 comes of nothing else, and always of that. */
  lemma {:induction false} TooLargeIsRefused(buf: string, pos: nat, body: string, limit: nat,
                                             chunks: seq<Chunk>, end: nat, t: string)
    requires |body| <= limit < SIGN_BOUND && TooLargeBehind(buf, pos, body, limit, chunks, end, t)
    ensures pos <= |buf| && Decode(buf, pos, -1, body, limit) == Failed(PayloadTooLarge)
    decreases |chunks|
  {
    hide ChunkAt, Decode;
    if chunks == [] {
      SizeIsRefused(buf, pos, body, limit, t);
    } else {
      var c, rest := chunks[0], chunks[1..];
      assert ValidChunk(c) && Payload(chunks) == c.data + Payload(rest);
      DecodeOneChunk(buf, pos, body, limit, c);
      TooLargeIsRefused(buf, pos + ChunkLength(c), body + c.data, limit, rest, end, t);
    }
  }

  /** Where decoding fails, a size line is refused, or does not fit, or something else is wrong, or a
      complete chunk stands there and it fails behind it. */
  lemma FailedStep(buf: string, pos: nat, body: string, limit: nat) returns (t: string)
    requires pos <= |buf| && |body| <= limit < SIGN_BOUND
    requires Decode(buf, pos, -1, body, limit) == Failed(PayloadTooLarge)
    ensures t != "" && IsHexText(t) && HasAt(buf, pos, t) && HasAt(buf, pos + |t|, CRLF)
    ensures 0 < HexFrom(0, t) < 0x1_0000_0000_0000_0000
    ensures |body| + HexFrom(0, t) <= limit ==>
              SkipCrlf(buf, pos + |t| + 2 + HexFrom(0, t)) == SkippedTo(pos + |t| + 2 + HexFrom(0, t) + 2)
  {
    hide HexFrom;
    t := ReadSizeSound(buf, pos, 0, false);
  }

  lemma {:induction false} RefusedAsTooLarge(buf: string, pos: nat, body: string, limit: nat)
    returns (chunks: seq<Chunk>, end: nat, t: string)
    requires pos <= |buf| && |body| <= limit < SIGN_BOUND
    requires Decode(buf, pos, -1, body, limit) == Failed(PayloadTooLarge)
    ensures TooLargeBehind(buf, pos, body, limit, chunks, end, t)
    decreases |buf| - pos
  {
    hide ChunkAt, Decode, DecodeData, HexFrom;
    t := FailedStep(buf, pos, body, limit);
    var size := HexFrom(0, t);
    if |body| + size > limit {
      chunks, end := [], pos;
    } else {
      var c := MakeChunk(buf, pos, t, size);
      DecodeOneChunk(buf, pos, body, limit, c);
      var rest;
      rest, end, t := RefusedAsTooLarge(buf, pos + ChunkLength(c), body + c.data, limit);
      chunks := [c] + rest;
      assert chunks[0] == c && chunks[1..] == rest;
    }
  }

  /** A chunked body is refused with 413 exactly if, behind complete chunks that fit, a size line that
      is below 2^64 announces more than the limit leaves; every other refusal is 400. */
  lemma RefusalsExactly(buf: string, limit: nat)
    requires limit < SIGN_BOUND
    ensures Decode(buf, 0, -1, "", limit) == Failed(PayloadTooLarge) <==> IsTooLarge(buf, 0, "", limit)
    ensures match Decode(buf, 0, -1, "", limit)
            case Failed(status) => status == BadRequest || status == PayloadTooLarge
            case _ => true
  {
    hide Decode, TooLargeBehind;
    if Decode(buf, 0, -1, "", limit) == Failed(PayloadTooLarge) {
      var chunks, end, t := RefusedAsTooLarge(buf, 0, "", limit);
    }
    if IsTooLarge(buf, 0, "", limit) {
      var chunks, end, t :| TooLargeBehind(buf, 0, "", limit, chunks, end, t);
      TooLargeIsRefused(buf, 0, "", limit, chunks, end, t);
    }
    OnlyTwoStatuses(buf, 0, -1, "", limit);
  }

  lemma {:induction false} OnlyTwoStatuses(buf: string, pos: nat, next: PtrDiff, body: string, limit: nat)
    requires pos <= |buf|
    ensures match Decode(buf, pos, next, body, limit)
            case Failed(status) => status == BadRequest || status == PayloadTooLarge
            case _ => true
    decreases |buf| - pos, 1
  {
    if next == -1 {
      var r := ReadSize(buf, pos, 0, false);
      if r.SizeIs? {
        DataHasTwoStatuses(buf, r.next, Signed(r.size), body, limit);
      }
    } else {
      DataHasTwoStatuses(buf, pos, next, body, limit);
    }
  }

  lemma {:induction false} DataHasTwoStatuses(buf: string, pos: nat, next: PtrDiff, body: string, limit: nat)
    requires pos <= |buf|
    ensures match DecodeData(buf, pos, next, body, limit)
            case Failed(status) => status == BadRequest || status == PayloadTooLarge
            case _ => true
    decreases |buf| - pos, 0
  {
    if next != 0 {
      var size := Unsigned(next);
      if pos + size + 2 <= |buf| && SkipCrlf(buf, pos + size).SkippedTo? {
        OnlyTwoStatuses(buf, pos + size + 2, -1, body + buf[pos..pos + size], limit);
      }
    }
  }
}
