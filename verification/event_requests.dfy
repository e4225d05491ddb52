/** RequestHandler::Run is entered exactly when the bytes that recv returned on a connection complete
    a request, and with that request. */
module EventRequests {
  import opened Text
  import opened RequestHead
  import opened HeadTheorems
  import opened RequestParser
  import opened RequestTheorems
  import opened StreamParser
  import opened Kernels
  import opened EventLoop
  import opened EventTheorems
  import opened Timeouts
  import opened EventRuns
  import opened HttpResponses
  import Chunked

  /** The received pieces end in a complete request. */
  predicate Completes(limit: nat, pieces: seq<string>) {
    ParseAll(Initial(limit), pieces).Ok? && ParseAll(Initial(limit), pieces).value.phase == DonePhase
  }

  /** Run was entered with what the first pieces amount to, if they ever completed a request. */
  ghost predicate AskedWhatWasReceived(c: Client) {
    && (c.asked != [] <==> exists k :: 0 <= k <= |c.pieces| && Completes(c.limit, c.pieces[..k]))
    && (forall k | 0 <= k <= |c.pieces| && Completes(c.limit, c.pieces[..k]) ::
          c.asked == [ParseAll(Initial(c.limit), c.pieces[..k]).value])
  }

  /** Before Run is entered: the parser is where the received bytes leave it, or has refused them with
      the one status that was thrown. */
  predicate ParsedWhatWasReceived(c: Client) {
    match ParseAll(Initial(c.limit), c.pieces)
    case Ok(r) => !c.threw && c.req == r
    case Err(status) => c.threw && |c.causes| == 1 && c.causes[0].Threw? && c.causes[0].status == status
  }

  ghost predicate Heard(c: Client) {
    && c.limit < Chunked.SIGN_BOUND && NonEmpty(c.pieces) && AskedWhatWasReceived(c)
    && (c.asked == [] ==> ParsedWhatWasReceived(c))
  }

  ghost predicate AllHeard(w: World) {
    forall p | IsClient(w, p) :: Heard(w.heap[p].client)
  }

  // ---------- one piece more ----------

  lemma {:induction false} OnePieceMore(r: Request, pieces: seq<string>, data: string)
    ensures ParseAll(r, pieces + [data])
         == match ParseAll(r, pieces)
            case Err(status) => Err(status)
            case Ok(r') => Parse(r', data)
    decreases |pieces|
  {
    hide Parse;
    var more := pieces + [data];
    if pieces == [] {
      assert more[0] == data && more[1..] == [];
    } else {
      assert more[0] == pieces[0] && more[1..] == pieces[1..] + [data];
      match Parse(r, pieces[0])
      case Err(_) =>
      case Ok(r') => OnePieceMore(r', pieces[1..], data);
    }
  }

  /** Nothing completes a request that is complete already. */
  lemma {:induction false} CompletesOnce(limit: nat, pieces: seq<string>, k: nat)
    requires k < |pieces| && Completes(limit, pieces[..k])
    ensures ParseAll(Initial(limit), pieces).Err?
    decreases |pieces|
  {
    hide Parse;
    var n := |pieces| - 1;
    assert pieces[..n] + [pieces[n]] == pieces;
    OnePieceMore(Initial(limit), pieces[..n], pieces[n]);
    if k < n {
      assert pieces[..n][..k] == pieces[..k];
      CompletesOnce(limit, pieces[..n], k);
    } else {
      DoneRefuses(ParseAll(Initial(limit), pieces[..n]).value, pieces[n]);
    }
  }

  /** What HandleEpollIn makes of a client's history. */
  predicate HearsMore(c: Client, c': Client, data: string, date: string) {
    && c'.limit == c.limit && c'.pieces == c.pieces + [data]
    && match Parse(c.req, data)
       case Err(status) => c'.threw && c'.asked == c.asked && c'.causes == c.causes + [Threw(status, date)]
       case Ok(r) =>
         && c'.req == r && c'.threw == c.threw
         && c'.asked == if r.phase == DonePhase then c.asked + [r] else c.asked
  }

  lemma PiecesBefore(c: Client, c': Client, data: string)
    requires c'.limit == c.limit && c'.pieces == c.pieces + [data]
    ensures forall k | 0 <= k <= |c.pieces| :: c'.pieces[..k] == c.pieces[..k]
    ensures c'.pieces[..|c'.pieces|] == c'.pieces
  {}

  lemma HearingOneMore(c: Client, c': Client, data: string, date: string)
    requires Heard(c) && ClientOk(c) && !c.threw && data != "" && HearsMore(c, c', data, date)
    ensures Heard(c')
  {
    hide Parse, Valid, TextOf, ClientOk, ParseAll, Completes;
    PiecesBefore(c, c', data);
    OnePieceMore(Initial(c.limit), c.pieces, data);
    if c.asked == [] {
      NothingYet(c);
      FirstHearing(c, c', data, date);
    } else {
      AskedIsDone(c);
      DoneRefuses(c.req, data);
      var k :| 0 <= k <= |c.pieces| && Completes(c.limit, c.pieces[..k]);
      assert c'.pieces[..k] == c.pieces[..k] && Completes(c.limit, c'.pieces[..k]);
      AskedBefore(c, c', k);
    }
  }

  lemma NothingYet(c: Client)
    requires ClientOk(c) && c.asked == [] && !c.threw
    ensures c.causes == []
  {}

  lemma AskedIsDone(c: Client)
    requires ClientOk(c) && c.asked != [] && !c.threw
    ensures Valid(c.req) && c.req.phase == DonePhase
  {}

  lemma FirstHearing(c: Client, c': Client, data: string, date: string)
    requires Heard(c) && c.asked == [] && !c.threw && c.causes == [] && data != "" && HearsMore(c, c', data, date)
    requires forall k | 0 <= k <= |c.pieces| :: c'.pieces[..k] == c.pieces[..k]
    requires c'.pieces[..|c'.pieces|] == c'.pieces
    requires ParseAll(Initial(c.limit), c'.pieces) == Parse(c.req, data)
    ensures Heard(c')
  {
    hide Parse, ParseAll;
    var limit, n := c.limit, |c.pieces|;
    assert forall k | 0 <= k <= n :: !Completes(limit, c.pieces[..k]);
    if Completes(limit, c'.pieces) {
      assert c'.asked == [] + [ParseAll(Initial(limit), c'.pieces).value];
      assert Completes(limit, c'.pieces[..n + 1]);
    }
  }

  lemma AskedBefore(c: Client, c': Client, k: nat)
    requires Heard(c) && c.asked != [] && c'.limit == c.limit && c'.asked == c.asked
    requires |c'.pieces| == |c.pieces| + 1 && c'.pieces[..|c.pieces|] == c.pieces && NonEmpty(c'.pieces)
    requires k <= |c.pieces| && Completes(c.limit, c'.pieces[..k])
    ensures Heard(c')
  {
    hide ParseAll, ParsedWhatWasReceived;
    CompletesOnce(c.limit, c'.pieces, k);
    forall j | 0 <= j <= |c'.pieces| && Completes(c.limit, c'.pieces[..j])
      ensures j <= |c.pieces| && c'.pieces[..j] == c.pieces[..j]
    {
      assert c'.pieces[..|c'.pieces|] == c'.pieces;
    }
  }

  // ---------- every step keeps the histories ----------

  /** Nothing happened to the connection's input. */
  predicate SameInput(c: Client, c': Client) {
    c'.limit == c.limit && c'.pieces == c.pieces && c'.asked == c.asked && c'.threw == c.threw && c'.req == c.req
    && (c.asked == [] ==> c'.causes == c.causes)
  }

  lemma SameInputIsHeard(c: Client, c': Client)
    requires Heard(c) && SameInput(c, c')
    ensures Heard(c')
  {}

  lemma SetClientKeepsHeard(w: World, p: Ptr, c: Client)
    requires AllHeard(w) && Heard(c)
    ensures AllHeard(SetClient(w, p, c))
  {
    hide Heard;
  }

  lemma UpdateKeepsHeard(w: World, p: Ptr, c: Client)
    requires AllHeard(w) && IsClient(w, p) && SameInput(w.heap[p].client, c)
    ensures AllHeard(SetClient(w, p, c))
  {
    SameInputIsHeard(w.heap[p].client, c);
    SetClientKeepsHeard(w, p, c);
  }

  lemma OtherSocketsKeepHeard(w: World, w': World)
    requires AllHeard(w)
    requires forall x | IsClient(w', x) :: IsClient(w, x) && w'.heap[x].client == w.heap[x].client
    ensures AllHeard(w')
  {
    hide Heard;
  }

  lemma RemovedKeepsHeard(w: World, w': World, p: Ptr)
    requires AllHeard(w) && p in w.heap && Removed(w, w', p)
    ensures AllHeard(w')
  {
    hide Heard;
    forall x | IsClient(w', x) ensures Heard(w'.heap[x].client) {
      assert x in w'.heap.Keys && IsClient(w, x);
      SameInputIsHeard(w.heap[x].client, w'.heap[x].client);
    }
  }

  lemma NewClientIsHeard(fd: int, limit: nat)
    requires limit < Chunked.SIGN_BOUND
    ensures Heard(NewClient(fd, limit))
  {}

  lemma ClientInKeepsHeard(w: World, p: Ptr, os: Os)
    requires AllHeard(w) && IsClient(w, p) && Contract(w, os)
    requires ClientOk(w.heap[p].client) && !w.heap[p].client.threw
    ensures AllHeard(ClientIn(w, p, os).w)
  {
    hide Heard, ClientOk, Parse, Open, Fork, AllHeard;
    var c, w' := w.heap[p].client, ClientIn(w, p, os).w;
    if os.received.Some? {
      var c' := w'.heap[p].client;
      HearingIsRecorded(w, p, os);
      ClientIsHeard(w, p);
      HearingOneMore(c, c', os.received.value, os.date);
      SetClientKeepsHeard(w, p, c');
      OtherSocketsKeepHeard(SetClient(w, p, c'), w');
    }
  }

  lemma ClientIsHeard(w: World, p: Ptr)
    requires AllHeard(w) && IsClient(w, p)
    ensures Heard(w.heap[p].client)
  {}

  lemma ResultIsRecorded(w: World, p: Ptr, c: Client, os: Os)
    requires IsClient(w, p) && Contract(w, os)
    ensures var w' := TakeResult(w, p, c, os).w;
            && IsClient(w', p)
            && (var c' := w'.heap[p].client;
                c'.limit == c.limit && c'.pieces == c.pieces && c'.asked == c.asked && c'.threw == c.threw && c'.req == c.req)
            && forall x | IsClient(w', x) && x != p :: IsClient(w, x) && w'.heap[x].client == w.heap[x].client
  {
    hide Open, Fork, ToText, NewCgi;
  }

  lemma HearingIsRecorded(w: World, p: Ptr, os: Os)
    requires IsClient(w, p) && Contract(w, os) && os.received.Some?
    ensures var w' := ClientIn(w, p, os).w;
            && IsClient(w', p) && HearsMore(w.heap[p].client, w'.heap[p].client, os.received.value, os.date)
            && forall x | IsClient(w', x) && x != p :: IsClient(w, x) && w'.heap[x].client == w.heap[x].client
  {
    hide Parse, TakeResult;
    var c := w.heap[p].client;
    match Parse(c.req, os.received.value)
    case Err(_) =>
    case Ok(r) => ResultIsRecorded(w, p, Entered(c.(pieces := c.pieces + [os.received.value]), r, os), os);
  }

  lemma ClientOutKeepsHeard(w: World, p: Ptr, os: Os)
    requires AllHeard(w) && IsClient(w, p)
    ensures AllHeard(ClientOut(w, p, os).w)
  {
    hide Heard, AllHeard;
    var w' := ClientOut(w, p, os).w;
    UpdateKeepsHeard(w, p, w'.heap[p].client);
    OtherSocketsKeepHeard(SetClient(w, p, w'.heap[p].client), w');
  }

  lemma CatchKeepsHeard(w: World, p: Ptr, status: Status, os: Os)
    requires AllHeard(w) && IsClient(w, p)
    ensures AllHeard(CatchStatus(w, p, status, os).w)
  {
    hide Heard, AllHeard, Unwatch;
    var w' := CatchStatus(w, p, status, os).w;
    UpdateKeepsHeard(w, p, w'.heap[p].client);
    OtherSocketsKeepHeard(SetClient(w, p, w'.heap[p].client), w');
  }

  lemma ClientEventKeepsHeard(w: World, e: Event, os: Os)
    requires AllHeard(w) && IsClient(w, e.ptr) && Contract(w, os)
    requires EventOk(w, e) && ClientOk(w.heap[e.ptr].client)
    ensures AllHeard(ClientEvent(w, e, os).w)
  {
    hide Heard, AllHeard, ClientOk, ClientIn, ClientOut, CatchStatus, Unwatch;
    if e.readable {
      ClientInKeepsHeard(w, e.ptr, os);
      var w1 := ClientIn(w, e.ptr, os).w;
      if ClientIn(w, e.ptr, os).ThrewStatus? {
        CatchKeepsHeard(w1, e.ptr, ClientIn(w, e.ptr, os).status, os);
      }
      OtherSocketsKeepHeard(w1, Deregister(w1, e.ptr));
    } else if e.writable {
      ClientOutKeepsHeard(w, e.ptr, os);
      var w1 := ClientOut(w, e.ptr, os).w;
      OtherSocketsKeepHeard(w1, Deregister(w1, e.ptr));
    }
  }

  lemma ServerEventKeepsHeard(w: World, e: Event, os: Os)
    requires AllHeard(w) && Contract(w, os)
    ensures AllHeard(ServerEvent(w, e, os).w)
  {
    hide Heard, AllHeard, Open;
    if os.accepted.Some? && e.readable {
      var a := os.accepted.value;
      NewClientIsHeard(a.fd, a.limit);
      SetClientKeepsHeard(w, a.ptr, NewClient(a.fd, a.limit));
      OtherSocketsKeepHeard(SetClient(w, a.ptr, NewClient(a.fd, a.limit)), ServerEvent(w, e, os).w);
    }
  }

  /** A CGI is attached only after Run was entered. */
  predicate OwnerHasAsked(w: World, q: Ptr)
    requires OwnerIsLive(w, q)
  {
    var g := w.heap[q].cgi;
    g.owner.Some? ==> w.heap[g.owner.value].client.asked != []
  }

  lemma CgiEventKeepsHeard(w: World, e: Event, os: Os)
    requires AllHeard(w) && OwnerIsLive(w, e.ptr) && OwnerHasAsked(w, e.ptr)
    ensures AllHeard(CgiEvent(w, e, os).w)
  {
    hide Heard, AllHeard, Unwatch, Reap, TellOwner;
    var g, w' := w.heap[e.ptr].cgi, CgiEvent(w, e, os).w;
    if g.owner.Some? && e.ptr != g.owner.value {
      var o := g.owner.value;
      OwnerStays(w.heap[o].client, g, os);
      UpdateKeepsHeard(w, o, w'.heap[o].client);
      OtherSocketsKeepHeard(SetClient(w, o, w'.heap[o].client), w');
    } else {
      OtherSocketsKeepHeard(w, w');
    }
  }

  lemma FinishKeepsHeard(h: Handled, p: Ptr, registered: bool)
    requires AllHeard(h.w) && CanFinish(h, p, registered)
    ensures AllHeard(Finish(h, p, registered))
  {
    hide Heard, AllHeard, Remove, Removed, SafeToDelete, Watch;
    var w1 := Register(h.w, h.created, registered);
    if h.created.Some? && !registered {
      var q := h.created.value;
      SafeIsLive(h.w, q);
      var w0 := h.w.(sockets := h.w.sockets[FdOf(h.w.heap[q]) := q]);
      OtherSocketsKeepHeard(h.w, w0);
      StillSafe(h.w, w0, q);
      RemoveIsRemoved(w0, q);
      RemovedKeepsHeard(w0, w1, q);
    } else {
      OtherSocketsKeepHeard(h.w, w1);
    }
    if h.remove {
      RemoveIsRemoved(w1, p);
      SafeIsLive(w1, p);
      RemovedKeepsHeard(w1, Remove(w1, p), p);
    }
  }

  lemma StillSafe(w: World, w': World, p: Ptr)
    requires SafeToDelete(w, p) && w'.heap == w.heap
    ensures SafeToDelete(w', p) && p in w'.heap
  {}

  lemma SafeIsLive(w: World, p: Ptr)
    requires SafeToDelete(w, p)
    ensures p in w.heap
  {}

  lemma BatchFacts(w: World)
    requires Inv(w, None, None) && w.batch != []
    ensures var e, w0 := w.batch[0], w.(batch := w.batch[1..]);
            && EventOk(w0, e) && (IsClient(w0, e.ptr) ==> ClientOk(w0.heap[e.ptr].client))
            && (IsCgi(w0, e.ptr) ==> OwnerIsLive(w0, e.ptr) && OwnerHasAsked(w0, e.ptr))
  {
    BatchTail(w);
    var e, w0 := w.batch[0], w.(batch := w.batch[1..]);
    if IsCgi(w0, e.ptr) {
      CgiFacts(w0, e.ptr);
      if w0.heap[e.ptr].cgi.owner.Some? {
        var p := w0.heap[e.ptr].cgi.owner.value;
        ClientFacts(w0, p);
        AttachedHasAsked(w0.heap[p].client);
      }
    }
    hide Linked, BatchOk, Reaped, KernelOk, ClientOk, Registered, CgisOk;
  }

  lemma AttachedHasAsked(c: Client)
    requires ClientOk(c) && c.cgi.Some?
    ensures c.asked != []
  {}

  lemma CallKeepsHeard(w: World, os: Os)
    requires Ready(w) && Contract(w, os) && AllHeard(w)
    requires var e, w0 := w.batch[0], w.(batch := w.batch[1..]);
             && EventOk(w0, e) && (IsClient(w0, e.ptr) ==> ClientOk(w0.heap[e.ptr].client))
             && (IsCgi(w0, e.ptr) ==> OwnerIsLive(w0, e.ptr) && OwnerHasAsked(w0, e.ptr))
    ensures AllHeard(Call(w, os).w)
  {
    hide AllHeard, ClientEvent, ServerEvent, CgiEvent, ClientOk, EventOk;
    var e, w0 := w.batch[0], w.(batch := w.batch[1..]);
    OtherSocketsKeepHeard(w, w0);
    match w.heap[e.ptr] {
      case ServerSocket(_) => ServerEventKeepsHeard(w0, e, os);
      case ClientSocket(_) => ClientEventKeepsHeard(w0, e, os);
      case CgiSocket(_) => CgiEventKeepsHeard(w0, e, os);
    }
  }

  lemma HandleNextKeepsHeard(w: World, os: Os)
    requires Inv(w, None, None) && w.batch != [] && Contract(w, os) && AllHeard(w)
    ensures Defined(w, os) && AllHeard(HandleNext(w, os))
  {
    hide Inv, AllHeard, ClientOk, Finish, CanFinish, Call, Ready, EventOk, Contract;
    HandleNextKeepsInv(w, os);
    BatchFacts(w);
    CallKeepsHeard(w, os);
    FinishKeepsHeard(Call(w, os), w.batch[0].ptr, os.registered);
  }

  lemma {:induction false} ExpireAllKeepsHeard(w: World, late: seq<Ptr>)
    requires AllHeard(w) && CanExpire(w, late)
    ensures AllHeard(ExpireAll(w, late))
    decreases |late|
  {
    hide AllHeard, SafeToDelete, Remove, Removed, Unwatch;
    if late != [] {
      var p := late[0];
      var w0 := OnTimeout(w, p);
      OtherSocketsKeepHeard(w, w0);
      RemoveIsRemoved(w0, p);
      RemovedKeepsHeard(w0, Remove(w0, p), p);
      ExpireAllKeepsHeard(Expire(w, p), late[1..]);
    }
  }

  lemma StepKeepsHeard(w: World, step: Step)
    requires Inv(w, None, None) && Enabled(w, step) && AllHeard(w)
    ensures AllHeard(Next(w, step))
  {
    hide Inv, AllHeard, HandleNext, ExpireAll, CanExpire, Late, ForeignAct;
    match step
    case Handle(os) =>
      DefinedMeansContract(w, os);
      HandleNextKeepsHeard(w, os);
    case TimeOut(late) => ExpireAllKeepsHeard(w, late);
    case _ => OtherSocketsKeepHeard(w, Next(w, step));
  }

  lemma {:induction false} RunKeepsHeard(w: World, steps: seq<Step>, end: World)
    requires Inv(w, None, None) && Clean(w.kernel) && AllHeard(w)
    requires IsRun(w, steps, end) && NeverLeaks(w, steps)
    ensures AllHeard(end)
    decreases |steps|
  {
    hide Inv, Clean, Enabled, Next, Leaks, AllHeard;
    if steps != [] {
      StepKeepsInv(w, steps[0]);
      StepKeepsHeard(w, steps[0]);
      RunKeepsHeard(Next(w, steps[0]), steps[1..], end);
    }
  }

  // ---------- what RequestHandler::Run is given ----------

  /** In every run without a leaking timeout: RequestHandler::Run has been entered for a connection if
      and only if the first pieces that recv returned on it complete a request, and then exactly
      once, with what these pieces amount to. */
  lemma RunIsEnteredExactlyOnCompletion(w: World, steps: seq<Step>, end: World, p: Ptr)
    requires IsInit(w) && IsRun(w, steps, end) && NeverLeaks(w, steps) && IsClient(end, p)
    ensures AskedWhatWasReceived(end.heap[p].client)
    ensures end.heap[p].client.limit < Chunked.SIGN_BOUND && NonEmpty(end.heap[p].client.pieces)
  {
    InitHasInv(w);
    assert AllHeard(w);
    hide Inv, Clean, AllHeard, AskedWhatWasReceived;
    RunKeepsHeard(w, steps, end);
    ClientIsHeard(end, p);
    HeardMeansAsked(end.heap[p].client);
  }

  lemma HeardMeansAsked(c: Client)
    requires Heard(c)
    ensures AskedWhatWasReceived(c) && c.limit < Chunked.SIGN_BOUND && NonEmpty(c.pieces)
  {}

  /** The text is one request of the grammar, with these fields and this body, and `rest` behind it. */
  ghost predicate IsRequest(text: string, limit: nat, fields: Fields, body: string, rest: string) {
    exists src, t :: ValidSource(src) && Meaning(src, limit) == Ok(fields)
                     && text == PrintHead(src) + t + rest && IsBody(fields, t, body, limit)
                     && (fields.contentLength == -1 ==> rest == "")
  }

  /** Pieces that complete a request are, joined, exactly that request. */
  lemma CompletedIsRequest(limit: nat, pieces: seq<string>)
    requires limit < Chunked.SIGN_BOUND && Completes(limit, pieces)
    ensures var r := ParseAll(Initial(limit), pieces).value;
            IsRequest(Concat(pieces), limit, r.fields, r.body, r.buffer)
  {
    hide Parse, ParseAll, PrintHead, ValidSource, Meaning, IsBody, Valid;
    var r := ParseAll(Initial(limit), pieces).value;
    InitialIsValid(limit);
    DoneIsOneCall(Initial(limit), pieces);
    DoneIsCompleted(r);
    DoneMeansOneRequest(Concat(pieces), limit, r.fields, r.body, r.buffer);
  }

  lemma DoneIsCompleted(r: Request)
    requires Valid(r) && r.phase == DonePhase
    ensures r == Completed(r.buffer, r.body, r.fields, r.limit)
  {}

  /** Conversely, once the joined pieces are a request, some first pieces have completed one. */
  lemma {:induction false} RequestIsCompleted(limit: nat, pieces: seq<string>, k: nat,
                                              fields: Fields, body: string, rest: string)
    requires limit < Chunked.SIGN_BOUND && NonEmpty(pieces) && k <= |pieces|
    requires IsRequest(Concat(pieces[..k]), limit, fields, body, rest)
    ensures exists j :: 0 <= j <= k && Completes(limit, pieces[..j])
    decreases k
  {
    hide Parse, PrintHead, ValidSource, Meaning, IsBody, Valid, Concat;
    var r, first := Initial(limit), pieces[..k];
    DoneMeansOneRequest(Concat(first), limit, fields, body, rest);
    InitialIsValid(limit);
    SomethingWasReceived(limit, first, fields, body, rest);
    AnyCuttingIsOneCall(r, first);
    if CompletedEarly(r, first) {
      var j :| 0 < j < |first| && FinishedByLength(Parse(r, Concat(first[..j])));
      assert first[..j] == pieces[..j];
      var early := Parse(r, Concat(pieces[..j])).value;
      ParseKeepsValid(r, Concat(pieces[..j]));
      DoneIsCompleted(early);
      DoneMeansOneRequest(Concat(pieces[..j]), limit, early.fields, early.body, early.buffer);
      RequestIsCompleted(limit, pieces, j, early.fields, early.body, early.buffer);
    } else {
      assert Completes(limit, pieces[..k]);
    }
  }

  lemma SomethingWasReceived(limit: nat, pieces: seq<string>, fields: Fields, body: string, rest: string)
    requires IsRequest(Concat(pieces), limit, fields, body, rest)
    ensures pieces != []
  {
    hide ValidSource, Meaning, IsBody, PrintHead;
    var src, t :| ValidSource(src) && Meaning(src, limit) == Ok(fields)
                  && Concat(pieces) == PrintHead(src) + t + rest && IsBody(fields, t, body, limit);
    PrintHeadIsNotEmpty(src);
  }

  /** The bytes received in the first `k` pieces are one request, and `r` is what it says. */
  ghost predicate ReceivedIn(c: Client, k: nat, r: Request) {
    k <= |c.pieces| && IsRequest(Concat(c.pieces[..k]), c.limit, r.fields, r.body, r.buffer)
  }

  /** In terms of the bytes: RequestHandler::Run is entered for a connection if and only if the bytes
      of some first pieces are a request of the grammar, and is given exactly the request that the
      bytes received until then are. */
  lemma RunIsGivenTheReceivedRequest(w: World, steps: seq<Step>, end: World, p: Ptr)
    requires IsInit(w) && IsRun(w, steps, end) && NeverLeaks(w, steps) && IsClient(end, p)
    ensures var c := end.heap[p].client;
            && |c.asked| <= 1
            && (c.asked != [] <==> exists k, r :: ReceivedIn(c, k, r))
            && (c.asked != [] ==> exists k :: ReceivedIn(c, k, c.asked[0]))
  {
    RunIsEnteredExactlyOnCompletion(w, steps, end, p);
    hide IsInit, IsRun, NeverLeaks;
    GivenWhatWasReceived(end.heap[p].client);
  }

  lemma GivenWhatWasReceived(c: Client)
    requires AskedWhatWasReceived(c) && c.limit < Chunked.SIGN_BOUND && NonEmpty(c.pieces)
    ensures |c.asked| <= 1
    ensures c.asked != [] <==> exists k, r :: ReceivedIn(c, k, r)
    ensures c.asked != [] ==> exists k :: ReceivedIn(c, k, c.asked[0])
  {
    hide IsRequest, ParseAll;
    if c.asked != [] {
      var k :| 0 <= k <= |c.pieces| && Completes(c.limit, c.pieces[..k]);
      CompletedIsRequest(c.limit, c.pieces[..k]);
      assert ReceivedIn(c, k, c.asked[0]);
    } else {
      forall k, r | ReceivedIn(c, k, r) ensures false {
        RequestIsCompleted(c.limit, c.pieces, k, r.fields, r.body, r.buffer);
      }
    }
  }
}
