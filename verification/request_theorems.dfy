/** Whole requests under any delivery: cutting into pieces, completeness, soundness, and the
    round trip of printed requests. */
module RequestTheorems {
  import opened Text
  import opened Scanner
  import opened RequestHead
  import opened HeadTheorems
  import opened HeadRefusals
  import opened Chunked
  import opened RequestParser
  import opened StreamParser

  // ---------- any number of pieces ----------

  /** One call of Parse per received piece, until one throws. */
  function ParseAll(r: Request, pieces: seq<string>): Result<Request>
    decreases |pieces|
  {
    if pieces == [] then Ok(r)
    else match Parse(r, pieces[0])
         case Err(status) => Err(status)
         case Ok(r') => ParseAll(r', pieces[1..])
  }

  predicate NonEmpty(pieces: seq<string>) {
    forall i | 0 <= i < |pieces| :: pieces[i] != ""
  }

  /** Some piece was received after the request had completed by Content-Length. */
  ghost predicate CompletedEarly(r: Request, pieces: seq<string>) {
    exists k :: 0 < k < |pieces| && FinishedByLength(Parse(r, Concat(pieces[..k])))
  }

  /** The first piece has not completed the request: the other pieces decide. */
  lemma CompletedEarlyLater(r: Request, r1: Request, pieces: seq<string>)
    requires |pieces| > 1 && !FinishedByLength(Parse(r, pieces[0]))
    requires forall b :: FinishedByLength(Parse(r, pieces[0] + b)) <==> FinishedByLength(Parse(r1, b))
    ensures CompletedEarly(r, pieces) <==> CompletedEarly(r1, pieces[1..])
  {
    hide Parse, FinishedByLength;
    var a, rest := pieces[0], pieces[1..];
    forall k | 0 < k < |pieces| ensures Concat(pieces[..k]) == a + Concat(rest[..k - 1]) {
      assert pieces[..k][1..] == rest[..k - 1];
    }
    assert a + "" == a;
    if CompletedEarly(r, pieces) {
      var k :| 0 < k < |pieces| && FinishedByLength(Parse(r, Concat(pieces[..k])));
      assert k > 1 by { assert rest[..0] == []; }
      assert FinishedByLength(Parse(r1, Concat(rest[..k - 1])));
    }
    if CompletedEarly(r1, rest) {
      var k :| 0 < k < |rest| && FinishedByLength(Parse(r1, Concat(rest[..k])));
      assert Concat(pieces[..k + 1]) == a + Concat(rest[..(k + 1) - 1]);
      assert FinishedByLength(Parse(r, Concat(pieces[..k + 1])));
    }
  }

  /** Nothing can complete by Content-Length behind an error or behind a chunked body. */
  lemma NeverCompletedEarly(r: Request, pieces: seq<string>)
    requires Valid(r) && r.phase != DonePhase && NonEmpty(pieces) && |pieces| > 1
    requires !FinishedByLength(Parse(r, pieces[0]))
    requires Parse(r, pieces[0]).Ok? ==> Parse(r, pieces[0]).value.phase == DonePhase
    ensures !CompletedEarly(r, pieces)
  {
    hide Parse, Valid;
    forall k | 0 < k < |pieces| ensures !FinishedByLength(Parse(r, Concat(pieces[..k]))) {
      assert pieces[..k][0] == pieces[0];
      ParseExtends(r, pieces[0], Concat(pieces[..k][1..]));
    }
  }

  lemma ConcatIsNonEmpty(pieces: seq<string>)
    requires pieces != [] && NonEmpty(pieces)
    ensures Concat(pieces) != ""
  {}

  /** Any cutting of the input is equivalent to one call, exactly when no piece arrives after
      the request completed by Content-Length. */
  lemma {:induction false} AnyCuttingIsOneCall(r: Request, pieces: seq<string>)
    requires Valid(r) && r.phase != DonePhase && pieces != [] && NonEmpty(pieces)
    ensures ParseAll(r, pieces) == Parse(r, Concat(pieces)) <==> !CompletedEarly(r, pieces)
    decreases |pieces|
  {
    hide Parse, Valid;
    var a, rest := pieces[0], pieces[1..];
    var o := Parse(r, a);
    if rest == [] {
      assert Concat(pieces) == a + "" == a;
      assert o == ParseAll(r, pieces);
    } else {
      ConcatIsNonEmpty(rest);
      ParseExtends(r, a, Concat(rest));
      ParseKeepsValid(r, a);
      if o.Err? {
        NeverCompletedEarly(r, pieces);
      } else if o.value.phase == DonePhase {
        ParseKeepsValid(o.value, rest[0]);
        assert ParseAll(r, pieces) == Err(BadRequest) by { DoneRefuses(o.value, rest[0]); }
        if FinishedByLength(o) {
          assert pieces[..1] == [a] && Concat([a]) == a + "" == a;
          assert CompletedEarly(r, pieces);
        } else {
          NeverCompletedEarly(r, pieces);
        }
      } else {
        AnyCuttingIsOneCall(o.value, rest);
        forall b ensures Parse(r, a + b) == Parse(o.value, b) {
          ParseExtends(r, a, b);
        }
        CompletedEarlyLater(r, o.value, pieces);
      }
    }
  }

  lemma DoneRefuses(r: Request, b: string)
    requires r.phase == DonePhase
    ensures Parse(r, b) == Err(BadRequest)
  {}

  /** Whatever the pieces are, a request that they complete is the one of a single call. */
  lemma {:induction false} DoneIsOneCall(r: Request, pieces: seq<string>)
    requires Valid(r) && r.phase != DonePhase
    requires ParseAll(r, pieces).Ok? && ParseAll(r, pieces).value.phase == DonePhase
    ensures Parse(r, Concat(pieces)) == ParseAll(r, pieces)
    ensures Valid(ParseAll(r, pieces).value) && ParseAll(r, pieces).value.limit == r.limit
    decreases |pieces|
  {
    hide Parse, Valid;
    var a, rest := pieces[0], pieces[1..];
    var r' := Parse(r, a).value;
    ParseKeepsValid(r, a);
    if rest == [] {
      assert Concat(pieces) == a + "" == a;
      assert ParseAll(r', rest) == Ok(r');
    } else {
      if r'.phase == DonePhase {
        DoneRefuses(r', rest[0]);
      }
      ParseExtends(r, a, Concat(rest));
      DoneIsOneCall(r', rest);
    }
  }

  // ---------- done means: a request of the grammar was received ----------

  /** `t` is a body with the given payload, framed as the head says. */
  ghost predicate IsBody(fields: Fields, t: string, payload: string, limit: nat) {
    if fields.contentLength == -1 then IsChunkedBody(t, payload) && |payload| <= limit
    else |t| == fields.contentLength && payload == t
  }

  function Completed(rest: string, body: string, fields: Fields, limit: nat): Request {
    Request(DonePhase, rest, 0, -1, body, fields, limit)
  }

  function AtBody(buffer: string, fields: Fields, limit: nat): Request {
    Request(BodyPhase, buffer, 0, -1, "", fields, limit)
  }

  /** From the start of the body, the reader finishes exactly on framed bodies; what it leaves in
      the buffer is what follows a Content-Length body. */
  lemma BodyIsReadExactly(buffer: string, fields: Fields, limit: nat, rest: string, body: string)
    requires Framed(fields, limit) && limit < SIGN_BOUND
    ensures AdvanceBody(AtBody(buffer, fields, limit)) == Ok(Completed(rest, body, fields, limit)) <==>
            exists t :: buffer == t + rest && IsBody(fields, t, body, limit)
                        && (fields.contentLength == -1 ==> rest == "")
  {
    hide Decode, IsChunkedBody;
    var n := fields.contentLength;
    if n == -1 {
      DecodesExactlyTheGrammar(buffer, limit, body);
      DecodeAtEnd("", -1, "", limit);
      assert buffer == buffer + "";
      forall t | buffer == t + "" ensures t == buffer { assert t + "" == t; }
      assert IsBody(fields, buffer, body, limit) <==> Decode(buffer, 0, -1, "", limit) == Finished(body);
    } else {
      forall t | buffer == t + rest && |t| == n ensures t == buffer[..n] && rest == buffer[n..] {}
      if n <= |buffer| {
        assert buffer == buffer[..n] + buffer[n..];
        assert buffer[0..] == buffer;
        assert IsBody(fields, buffer[..n], buffer[..n], limit);
      }
    }
  }

  /** The first call moves to the body exactly on text that starts with a valid printed head. */
  lemma HeadIsReadExactly(text: string, limit: nat, src: Source)
    requires ValidSource(src) && HasAt(text, 0, PrintHead(src)) && Meaning(src, limit).Ok?
    ensures |PrintHead(src)| <= |text|
    ensures AdvanceHeader(Initial(limit).(buffer := text))
         == Ok(AtBody(text[|PrintHead(src)|..], Meaning(src, limit).value, limit))
  {
    hide ParseHead, Find, PrintHead, ValidSource, HeadAt, Meaning;
    PrintHeadAt(text, src);
    HeadComplete(text, src, limit);
    CursorIsEndOfHeader(text, limit);
  }

  lemma HeadWasPrinted(text: string, limit: nat) returns (src: Source)
    requires Parse(Initial(limit), text).Ok? && Parse(Initial(limit), text).value.phase != HeaderPhase
    ensures ValidSource(src) && HasAt(text, 0, PrintHead(src)) && Meaning(src, limit).Ok?
  {
    hide ParseHead, Find, PrintHead, ValidSource, HeadAt, Meaning, AdvanceBody;
    assert "" + text == text;
    src := HeadSound(text, limit);
    PrintHeadAt(text, src);
  }

  lemma MeaningIsFramed(src: Source, limit: nat)
    requires Meaning(src, limit).Ok?
    ensures Framed(Meaning(src, limit).value, limit)
  {
    FramingIsDecided(src, limit);
  }

  lemma ParseFromStart(text: string, limit: nat, src: Source)
    requires ValidSource(src) && HasAt(text, 0, PrintHead(src)) && Meaning(src, limit).Ok?
    ensures |PrintHead(src)| <= |text|
    ensures Parse(Initial(limit), text)
         == AdvanceBody(AtBody(text[|PrintHead(src)|..], Meaning(src, limit).value, limit))
  {
    hide AdvanceHeader, AdvanceBody, PrintHead, ValidSource, Meaning;
    HeadIsReadExactly(text, limit, src);
    assert "" + text == text;
  }

  /** kDone is reached exactly on requests of the grammar, with exactly their fields, their body
      and what was sent behind them. */
  lemma DoneMeansOneRequest(text: string, limit: nat, fields: Fields, body: string, rest: string)
    requires limit < SIGN_BOUND
    ensures Parse(Initial(limit), text) == Ok(Completed(rest, body, fields, limit)) <==>
            exists src, t :: ValidSource(src) && Meaning(src, limit) == Ok(fields)
                             && text == PrintHead(src) + t + rest && IsBody(fields, t, body, limit)
                             && (fields.contentLength == -1 ==> rest == "")
  {
    hide Parse, PrintHead, ValidSource, Meaning, IsBody;
    if Parse(Initial(limit), text) == Ok(Completed(rest, body, fields, limit)) {
      var src, t := DoneWasPrinted(text, limit, fields, body, rest);
    }
    forall src, t | ValidSource(src) && Meaning(src, limit) == Ok(fields)
                    && text == PrintHead(src) + t + rest && IsBody(fields, t, body, limit)
                    && (fields.contentLength == -1 ==> rest == "")
      ensures Parse(Initial(limit), text) == Ok(Completed(rest, body, fields, limit))
    {
      assert text[0..0 + |PrintHead(src)|] == PrintHead(src) && text[|PrintHead(src)|..] == t + rest;
      ParseFromStart(text, limit, src);
      MeaningIsFramed(src, limit);
      BodyIsReadExactly(t + rest, fields, limit, rest, body);
    }
  }

  lemma DoneWasPrinted(text: string, limit: nat, fields: Fields, body: string, rest: string)
    returns (src: Source, t: string)
    requires limit < SIGN_BOUND && Parse(Initial(limit), text) == Ok(Completed(rest, body, fields, limit))
    ensures ValidSource(src) && Meaning(src, limit) == Ok(fields)
    ensures text == PrintHead(src) + t + rest && IsBody(fields, t, body, limit)
    ensures fields.contentLength == -1 ==> rest == ""
  {
    hide Parse, AdvanceBody, PrintHead, ValidSource, Meaning, IsBody;
    src := HeadWasPrinted(text, limit);
    ParseFromStart(text, limit, src);
    var buffer := text[|PrintHead(src)|..];
    MeaningIsFramed(src, limit);
    BodyKeepsFields(buffer, Meaning(src, limit).value, limit);
    BodyIsReadExactly(buffer, fields, limit, rest, body);
    t :| buffer == t + rest && IsBody(fields, t, body, limit) && (fields.contentLength == -1 ==> rest == "");
    assert text == text[0..0 + |PrintHead(src)|] + buffer == PrintHead(src) + t + rest;
  }

  lemma BodyKeepsFields(buffer: string, fields: Fields, limit: nat)
    ensures AdvanceBody(AtBody(buffer, fields, limit)).Ok? ==>
            AdvanceBody(AtBody(buffer, fields, limit)).value.fields == fields
  {}

  /** Any text that starts with a printed head is decided by its header map: with acceptable headers
      the parser goes on to the body with exactly what they say, and otherwise it throws the status
      of the first header that fails. */
  lemma HeadsDecideRequests(text: string, limit: nat, src: Source)
    requires ValidSource(src) && HasAt(text, 0, PrintHead(src))
    ensures var h := HeaderMap(src.headers);
            if Acceptable(h, limit) then
              |PrintHead(src)| <= |text| &&
              exists f :: Says(f, src, h, limit)
                          && Parse(Initial(limit), text) == AdvanceBody(AtBody(text[|PrintHead(src)|..], f, limit))
            else Parse(Initial(limit), text) == Err(Refusal(h, limit))
  {
    hide ParseHead, PrintHead, ValidSource, Meaning, Acceptable, Refusal, Says, AdvanceBody, HeaderMap, HeadAt, HasAt, Find;
    MeaningExactly(src, limit);
    if Meaning(src, limit).Ok? {
      ParseFromStart(text, limit, src);
    } else {
      PrintHeadAt(text, src);
      HeadComplete(text, src, limit);
      NoBlankLineInHead(text, src);
      FirstBlankLineIs(text, SectionStart(src) + Length(src.headers));
      assert "" + text == text;
    }
  }

  // ---------- round trip under any delivery ----------

  /** A printed request ends in kDone with its fields and payload however it is cut, and no
      proper prefix of it does. */
  lemma RequestSurvivesAnyDelivery(src: Source, t: string, payload: string, limit: nat, pieces: seq<string>)
    requires limit < SIGN_BOUND && ValidSource(src) && Meaning(src, limit).Ok?
    requires IsBody(Meaning(src, limit).value, t, payload, limit)
    requires NonEmpty(pieces) && Concat(pieces) == PrintHead(src) + t
    ensures ParseAll(Initial(limit), pieces) == Ok(Completed("", payload, Meaning(src, limit).value, limit))
    ensures forall k | 0 <= k < |PrintHead(src) + t| ::
              var o := Parse(Initial(limit), (PrintHead(src) + t)[..k]);
              o.Ok? && o.value.phase != DonePhase
  {
    hide Parse, PrintHead, ValidSource, Meaning, IsBody, Valid;
    var r := Initial(limit);
    var text := PrintHead(src) + t;
    InitialIsValid(limit);
    assert text == PrintHead(src) + t + "";
    DoneMeansOneRequest(text, limit, Meaning(src, limit).value, payload, "");
    forall k | 0 <= k < |text| ensures Parse(r, text[..k]).Ok? && Parse(r, text[..k]).value.phase != DonePhase {
      assert text[..k] + text[k..] == text;
      ParseExtends(r, text[..k], text[k..]);
    }
    assert pieces != [] by { PrintHeadIsNotEmpty(src); }
    forall k | 0 < k < |pieces| ensures !FinishedByLength(Parse(r, Concat(pieces[..k]))) {
      ConcatSplits(pieces, k);
      ConcatIsNonEmpty(pieces[k..]);
      var j := |Concat(pieces[..k])|;
      assert j < |text| && Concat(pieces[..k]) == text[..j];
    }
    AnyCuttingIsOneCall(r, pieces);
  }

  lemma PrintHeadIsNotEmpty(src: Source)
    ensures PrintHead(src) != ""
  {}

  lemma {:induction false} ConcatSplits(pieces: seq<string>, k: nat)
    requires k <= |pieces|
    ensures Concat(pieces) == Concat(pieces[..k]) + Concat(pieces[k..])
    decreases k
  {
    if k == 0 {
      assert pieces[0..] == pieces && pieces[..0] == [];
    } else {
      ConcatSplits(pieces[1..], k - 1);
      assert pieces[1..][..k - 1] == pieces[..k][1..] && pieces[1..][k - 1..] == pieces[k..];
      assert Concat(pieces[..k]) == pieces[0] + Concat(pieces[..k][1..]);
    }
  }

  // ---------- sending blocks as chunks ----------

  function HexChar(d: nat): char
    requires d < 16
  {
    if d < 10 then ('0' as int + d) as char else ('a' as int + d - 10) as char
  }

  function HexText(n: nat): string {
    if n < 16 then [HexChar(n)] else HexText(n / 16) + [HexChar(n % 16)]
  }

  lemma {:induction false} HexFromAppend(acc: nat, t: string, c: char)
    requires IsHexText(t) && IsHex(c)
    ensures IsHexText(t + [c]) && HexFrom(acc, t + [c]) == HexFrom(acc, t) * 16 + HexDigit(c)
    decreases |t|
  {
    if t == "" {
      assert t + [c] == [c] && [c][1..] == "";
    } else {
      assert (t + [c])[1..] == t[1..] + [c];
      HexFromAppend(acc * 16 + HexDigit(t[0]), t[1..], c);
    }
  }

  lemma {:induction false} HexTextIsSize(n: nat)
    ensures IsSize(HexText(n), n)
  {
    assert HexDigit(HexChar(n % 16)) == n % 16;
    if n < 16 {
      assert HexText(n)[1..] == "";
    } else {
      HexTextIsSize(n / 16);
      HexFromAppend(0, HexText(n / 16), HexChar(n % 16));
    }
  }

  function ChunksOf(blocks: seq<string>): seq<Chunk> {
    if blocks == [] then [] else [Chunk(HexText(|blocks[0]|), blocks[0])] + ChunksOf(blocks[1..])
  }

  lemma {:induction false} ChunksCarryBlocks(blocks: seq<string>)
    requires NonEmpty(blocks)
    ensures ValidChunks(ChunksOf(blocks)) && Payload(ChunksOf(blocks)) == Concat(blocks)
  {
    if blocks != [] {
      HexTextIsSize(|blocks[0]|);
      ChunksCarryBlocks(blocks[1..]);
      assert ChunksOf(blocks)[1..] == ChunksOf(blocks[1..]);
    }
  }

  /** Non-empty blocks sent as chunks behind a chunked head, in any pieces, arrive as their
      concatenation. */
  lemma ChunkedRoundTrip(src: Source, blocks: seq<string>, limit: nat, pieces: seq<string>)
    requires limit < SIGN_BOUND && ValidSource(src) && Meaning(src, limit).Ok?
    requires Meaning(src, limit).value.contentLength == -1
    requires NonEmpty(blocks) && |Concat(blocks)| <= limit
    requires NonEmpty(pieces) && Concat(pieces) == PrintHead(src) + PrintBody(ChunksOf(blocks), "0")
    ensures ParseAll(Initial(limit), pieces)
         == Ok(Completed("", Concat(blocks), Meaning(src, limit).value, limit))
  {
    hide ParseAll, PrintHead, ValidSource, Meaning, PrintBody;
    ChunksCarryBlocks(blocks);
    assert IsSize("0", 0) by { assert "0"[1..] == ""; }
    assert IsChunkedBody(PrintBody(ChunksOf(blocks), "0"), Concat(blocks));
    RequestSurvivesAnyDelivery(src, PrintBody(ChunksOf(blocks), "0"), Concat(blocks), limit, pieces);
  }
}
