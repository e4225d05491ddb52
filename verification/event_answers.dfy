/** What every client is sent, over whole runs: nothing before its request is complete or refused, then
    the printed form of what RequestHandler::Run returned, of the page for a status that was thrown, or
    of what its CGI program wrote. */
module EventAnswers {
  import opened Text
  import opened Scanner
  import opened RequestHead
  import opened HeadTheorems
  import opened HeadRefusals
  import opened RequestParser
  import opened RequestTheorems
  import opened HttpResponses
  import opened CgiResponses
  import opened CgiTheorems
  import opened Kernels
  import opened EventLoop
  import opened EventTheorems
  import opened EventRuns
  import opened EventRequests
  import Chunked

  /** The bytes sent with those still in write_buffer_ are the printed response. */
  predicate IsAnswered(c: Client, res: Response, date: string) {
    c.sent + c.out == ToText(res, date)
  }

  /** What a client gets when its CGI program is over: a program that failed is a bare 500, output
      that cannot be read, or has no content type, is a 500 with a page. */
  predicate IsCgiAnswer(chunks: seq<string>, exited: bool, res: Response) {
    if exited then
      match ParseOutput(Concat(chunks))
      case Ok(parsed) => res == parsed
      case Err(_) => res == ErrorPage(500)
    else res == Response(500, "Internal Server Error", map[], "")
  }

  /** The client waits for nothing but the rest of its request. */
  predicate IsWaiting(c: Client) {
    c.sent == "" && c.out == "" && c.interest == Reading && c.cgi == None
  }

  /** A client's history and what it is sent, `heard` being what the received bytes amount to. */
  ghost predicate AnsweredAsReceived(c: Client, heard: Result<Request>) {
    // before Run is entered: unanswered, or told the status that its bytes are refused with
    && (c.asked == [] && heard.Ok? ==> c.causes == [] && IsWaiting(c))
    && (c.asked == [] && heard.Err? ==>
          exists date :: c.causes == [Threw(heard.status, date)] && c.interest == Writing
                         && IsAnswered(c, ErrorPage(Code(heard.status)), date))
    // then Run has returned, once, before anything else
    && (c.asked != [] <==> c.causes != [] && c.causes[0].Ran?)
    && (forall i | 1 <= i < |c.causes| :: !c.causes[i].Ran?)
    // its response, to be written, with no throw and no CGI since
    && (forall response, stray, date | c.causes == [Ran(Sync(response, stray), date)] ::
          IsAnswered(c, response, date) && c.interest == Writing)
    // the response of an asynchronous result, not to be written yet
    && (forall q, fd, pid, date | c.causes == [Ran(Async(q, fd, pid), date)] ::
          c.sent == "" && c.out == ToText(WithStatus(200), date) && c.interest == Reading)
    // the page for a thrown status
    && (forall i, status, date | 0 <= i == |c.causes| - 1 && c.causes[i] == Threw(status, date) ::
          c.interest == Writing && (!c.overlapped ==> IsAnswered(c, ErrorPage(Code(status)), date)))
    // the end of the CGI that Run started; epoll may refuse the new mask
    && (forall i, chunks, exited, told, date | 0 <= i == |c.causes| - 1 && c.causes[i] == Ended(chunks, exited, told, date) ::
          && IsAsync(c.causes) && (told ==> c.interest == Writing)
          && (!c.overlapped ==> exists res :: IsCgiAnswer(chunks, exited, res) && IsAnswered(c, res, date)))
  }

  lemma ReplyIsCgiAnswer(chunks: seq<string>, exited: bool, told: bool, date: string)
    ensures IsCgiAnswer(chunks, exited, Reply(Ended(chunks, exited, told, date)))
  {
    hide ParseOutput, ErrorPage;
  }

  lemma LastCauseIsAnswered(c: Client)
    requires ClientOk(c) && Settled(c) && c.causes != []
    ensures var a := c.causes[|c.causes| - 1];
            && (!c.overlapped ==> IsAnswered(c, Reply(a), a.date))
            && (c.interest == Reading ==> c.sent == "")
            && (a.Ran? ==> !c.overlapped && (c.interest == if a.dispatch.Async? then Reading else Writing))
            && (a.Threw? ==> c.interest == Writing)
            && (a.Ended? ==> IsAsync(c.causes) && (a.told ==> c.interest == Writing))
  {
    hide Valid, Reply, ToText;
  }

  lemma RunReturnsFirst(c: Client)
    requires ClientOk(c)
    ensures c.asked != [] <==> c.causes != [] && c.causes[0].Ran?
    ensures forall i | 1 <= i < |c.causes| :: !c.causes[i].Ran?
    ensures c.asked == [] ==> !c.overlapped
  {
    hide Valid, TextOf;
  }

  lemma NothingIsWaiting(c: Client)
    requires ClientOk(c) && Settled(c) && c.asked == [] && !c.threw
    ensures c.causes == [] && IsWaiting(c)
  {
    hide Valid, ToText, Reply;
  }

  lemma HistoryMeansAnswers(c: Client)
    requires ClientOk(c) && Settled(c) && (c.asked == [] ==> ParsedWhatWasReceived(c))
    ensures AnsweredAsReceived(c, ParseAll(Initial(c.limit), c.pieces))
  {
    hide ClientOk, Settled, ToText, ParseAll, ErrorPage, IsCgiAnswer, IsWaiting, ParseOutput;
    RunReturnsFirst(c);
    if c.asked == [] && !c.threw {
      NothingIsWaiting(c);
    }
    if c.causes != [] {
      LastCauseIsAnswered(c);
      var a := c.causes[|c.causes| - 1];
      if a.Ended? {
        ReplyIsCgiAnswer(a.chunks, a.exited, a.told, a.date);
      }
      if |c.causes| == 1 {
        assert c.causes == [a];
      }
    }
  }

  // ---------- over whole runs ----------

  /** In every state that a run without a leaking timeout passes between two steps, every client is
      sent exactly what its history calls for, and epoll watches for what that needs. */
  lemma ClientsAreAnswered(w: World, steps: seq<Step>, end: World, p: Ptr)
    requires IsInit(w) && IsRun(w, steps, end) && NeverLeaks(w, steps) && IsClient(end, p)
    ensures var c := end.heap[p].client;
            AnsweredAsReceived(c, ParseAll(Initial(c.limit), c.pieces))
  {
    InitHasInv(w);
    assert AllHeard(w);
    hide IsInit, Inv, Clean, AllHeard, ClientOk, Settled, AnsweredAsReceived, ParsedWhatWasReceived;
    RunKeepsInv(w, steps, end);
    RunKeepsHeard(w, steps, end);
    InvHasClient(end, p);
    ClientIsHeard(end, p);
    HistoryMeansAnswers(end.heap[p].client);
  }

  lemma InvHasClient(w: World, p: Ptr)
    requires Inv(w, None, None) && IsClient(w, p)
    ensures ClientOk(w.heap[p].client) && Settled(w.heap[p].client)
  {
    hide KernelOk, Registered, Linked, BatchOk, CgisOk, Reaped, ClientOk, Settled;
  }

  /** A client whose bytes are refused is told so: what it is sent starts with the status line of the
      status that the parser refuses them with. */
  lemma RefusedRequestsAreTold(w: World, steps: seq<Step>, end: World, p: Ptr, status: Status)
    requires IsInit(w) && IsRun(w, steps, end) && NeverLeaks(w, steps) && IsClient(end, p)
    requires var c := end.heap[p].client;
             c.asked == [] && ParseAll(Initial(c.limit), c.pieces) == Err(status)
    ensures var c := end.heap[p].client;
            "HTTP/1.1 " + Announced(status) + "\r\n" <= c.sent + c.out && c.interest == Writing
  {
    ClientsAreAnswered(w, steps, end, p);
    hide IsInit, IsRun, NeverLeaks, ParseAll, Announced, ToText, ErrorPage, Code;
    var c := end.heap[p].client;
    var date :| c.causes == [Threw(status, date)] && IsAnswered(c, ErrorPage(Code(status)), date);
    ErrorPageSays(status, date);
  }

  /** Pieces that start with a head whose headers are not acceptable never complete a request. */
  lemma RefusedHeadNeverCompletes(limit: nat, pieces: seq<string>, k: nat, src: Source)
    requires limit < Chunked.SIGN_BOUND && k <= |pieces|
    requires ValidSource(src) && HasAt(Concat(pieces), 0, PrintHead(src)) && !Acceptable(HeaderMap(src.headers), limit)
    ensures !Completes(limit, pieces[..k])
  {
    hide ParseAll, Parse, ParseHead, PrintHead, ValidSource, Meaning, Acceptable, Refusal, Says, IsBody, HeaderMap;
    if Completes(limit, pieces[..k]) {
      CompletedIsRequest(limit, pieces[..k]);
      var r := ParseAll(Initial(limit), pieces[..k]).value;
      var other, t :| ValidSource(other) && Meaning(other, limit) == Ok(r.fields)
                      && Concat(pieces[..k]) == PrintHead(other) + t + r.buffer && IsBody(r.fields, t, r.body, limit);
      ConcatSplits(pieces, k);
      var text := Concat(pieces);
      assert text[0..|PrintHead(other)|] == PrintHead(other);
      MeaningExactly(other, limit);
      HeadsAreAcceptedExactly(text, other, limit);
      HeadsAreAcceptedExactly(text, src, limit);
    }
  }

  lemma RefusedHeadIsRefused(limit: nat, pieces: seq<string>, src: Source)
    requires limit < Chunked.SIGN_BOUND && NonEmpty(pieces)
    requires ValidSource(src) && HasAt(Concat(pieces), 0, PrintHead(src)) && !Acceptable(HeaderMap(src.headers), limit)
    ensures ParseAll(Initial(limit), pieces) == Err(Refusal(HeaderMap(src.headers), limit))
  {
    hide ParseAll, Parse, PrintHead, ValidSource, Acceptable, Refusal, HeaderMap;
    var r, text := Initial(limit), Concat(pieces);
    HeadsDecideRequests(text, limit, src);
    PrintHeadIsNotEmpty(src);
    InitialIsValid(limit);
    AnyCuttingIsOneCall(r, pieces);
    if CompletedEarly(r, pieces) {
      var k :| 0 < k < |pieces| && FinishedByLength(Parse(r, Concat(pieces[..k])));
      ConcatSplits(pieces, k);
      ParseExtends(r, Concat(pieces[..k]), Concat(pieces[k..]));
    }
  }

  /** From header values to the answer: a client whose bytes start with a printed head that the server
      does not accept, in whatever pieces they came, is sent the status of the first header that
      fails, and no action is taken for it. */
  lemma RefusedHeadsAreTold(w: World, steps: seq<Step>, end: World, p: Ptr, src: Source)
    requires IsInit(w) && IsRun(w, steps, end) && NeverLeaks(w, steps) && IsClient(end, p)
    requires var c := end.heap[p].client;
             && ValidSource(src) && HasAt(Concat(c.pieces), 0, PrintHead(src))
             && !Acceptable(HeaderMap(src.headers), c.limit)
    ensures var c := end.heap[p].client;
            && c.asked == [] && c.interest == Writing
            && "HTTP/1.1 " + Announced(Refusal(HeaderMap(src.headers), c.limit)) + "\r\n" <= c.sent + c.out
  {
    hide IsInit, IsRun, NeverLeaks, ParseAll, PrintHead, ValidSource, Acceptable, Refusal, HeaderMap, Announced,
         Completes, Concat;
    var c := end.heap[p].client;
    RunIsEnteredExactlyOnCompletion(w, steps, end, p);
    forall k | 0 <= k <= |c.pieces| ensures !Completes(c.limit, c.pieces[..k]) {
      RefusedHeadNeverCompletes(c.limit, c.pieces, k, src);
    }
    RefusedHeadIsRefused(c.limit, c.pieces, src);
    RefusedRequestsAreTold(w, steps, end, p, Refusal(HeaderMap(src.headers), c.limit));
  }

  /** The last thing that happened to the client is that its CGI program ended, with this output. */
  predicate CgiEndedWith(c: Client, output: string, date: string) {
    c.causes != [] &&
    match c.causes[|c.causes| - 1]
    case Ended(chunks, exited, _, d) => exited && Concat(chunks) == output && d == date
    case _ => false
  }

  lemma ReadableOutputIsSent(c: Client, heard: Result<Request>, output: string, date: string)
    requires AnsweredAsReceived(c, heard) && !c.overlapped && CgiEndedWith(c, output, date) && ParseOutput(output).Ok?
    ensures IsAnswered(c, ParseOutput(output).value, date)
  {
    hide ParseOutput, ToText, ErrorPage, IsWaiting;
    var i := |c.causes| - 1;
    assert c.causes[i] == Ended(c.causes[i].chunks, true, c.causes[i].told, date);
  }

  /** A client whose CGI program ended well is sent the response that the program printed, with exactly
      its body, unless something else had been sent before. */
  lemma CgiOutputIsSent(w: World, steps: seq<Step>, end: World, p: Ptr, date: string,
                        lines: seq<CgiLine>, blank: string, body: string, res: Response)
    requires IsInit(w) && IsRun(w, steps, end) && NeverLeaks(w, steps) && IsClient(end, p)
    requires !end.heap[p].client.overlapped
    requires CgiEndedWith(end.heap[p].client, PrintCgi(lines) + blank + body, date)
    requires lines != [] && (forall j | 0 <= j < |lines| :: ValidLine(lines[j])) && IsEol(blank, false)
    requires |PrintCgi(lines)| <= MAX_HEADER_SIZE
    requires StoreAll(INITIAL, lines) == Ok(res) && "content-type" in res.headers
    requires || (lines[|lines| - 1].eol == CRLF && blank == CRLF)
             || (blank == "\n" && Find(PrintCgi(lines) + blank + body, BLANK_LINE, 0).None?)
    ensures IsAnswered(end.heap[p].client, res.(body := body), date)
  {
    hide IsInit, IsRun, NeverLeaks, ParseAll, PrintCgi, StoreAll, ParseOutput, ValidLine, AnsweredAsReceived,
         CgiEndedWith, IsAnswered, Find;
    ClientsAreAnswered(w, steps, end, p);
    PrintedOutputIsExact(lines, blank, body, res);
    var c := end.heap[p].client;
    ReadableOutputIsSent(c, ParseAll(Initial(c.limit), c.pieces), PrintCgi(lines) + blank + body, date);
  }
}
