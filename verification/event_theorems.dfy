/** What every handler, removal and timeout of the event loop keeps: ownership, live pointers, one
    dispatch per connection, send accounting, reaping, and the interest list. */
module EventTheorems {
  import opened Text
  import opened RequestParser
  import opened EventLoop
  import Chunked
  import opened StreamParser
  import opened Kernels
  import opened HttpResponses
  import CgiResponses

  // ---------- the invariant ----------

  /** sockets_ maps exactly the descriptor of each live socket to it; a socket being handed to
      Webserv (`pending`) is not in it yet. */
  ghost predicate Registered(w: World, pending: Option<Ptr>) {
    && (forall fd | fd in w.sockets :: w.sockets[fd] in w.heap && FdOf(w.heap[w.sockets[fd]]) == fd)
    && (forall p | p in w.heap ::
          if Some(p) == pending then FdOf(w.heap[p]) !in w.sockets
          else FdOf(w.heap[p]) in w.sockets && w.sockets[FdOf(w.heap[p])] == p)
    && (pending.Some? ==> pending.value in w.heap)
  }

  /** cgi_socket_ and owner_ are live and point at each other. */
  ghost predicate Linked(w: World) {
    && (forall p | IsClient(w, p) && w.heap[p].client.cgi.Some? ::
          var q := w.heap[p].client.cgi.value; IsCgi(w, q) && w.heap[q].cgi.owner == Some(p))
    && (forall q | IsCgi(w, q) && w.heap[q].cgi.owner.Some? ::
          var p := w.heap[q].cgi.owner.value; IsClient(w, p) && w.heap[p].client.cgi == Some(q))
  }

  /** What the pending event may assume about its socket. */
  predicate EventOk(w: World, e: Event) {
    e.ptr in w.heap &&
    (IsClient(w, e.ptr) ==>
       var c := w.heap[e.ptr].client;
       && !(e.readable && e.writable)
       && (e.readable ==> c.sent == "" && !c.threw)
       && (e.writable ==> c.interest == Writing))
  }

  predicate Distinct(batch: seq<Event>) {
    forall i, j | 0 <= i < j < |batch| :: batch[i].ptr != batch[j].ptr
  }

  /** Every pointer left in the batch is live. */
  predicate BatchOk(w: World) {
    Distinct(w.batch) && forall i | 0 <= i < |w.batch| :: EventOk(w, w.batch[i])
  }

  /** The response that a cause calls for. */
  function Reply(a: Cause): Response {
    match a
    case Ran(Sync(response, _), _) => response
    case Ran(Async(_, _, _), _) => WithStatus(200)
    case Threw(status, _) => ErrorPage(Code(status))
    case Ended(chunks, exited, _, _) =>
      var parsed := CgiResponses.ParseOutput(Concat(chunks));
      if !exited then WithStatus(500) else if parsed.Ok? then parsed.value else ErrorPage(500)
  }

  /** What the client is to be sent: the printed response to the last cause. */
  function TextOf(causes: seq<Cause>): string {
    if causes == [] then "" else var a := causes[|causes| - 1]; ToText(Reply(a), a.date)
  }

  predicate IsAsync(causes: seq<Cause>) {
    causes != [] && causes[0].Ran? && causes[0].dispatch.Async?
  }

  /** Run returns first and once, unless Parse has thrown; a CGI ends only where one was started. */
  predicate CausesOk(causes: seq<Cause>, asked: bool, threw: bool, cgi: bool) {
    && (asked <==> causes != [] && causes[0].Ran?)
    && (asked ==> forall i | 1 <= i < |causes| :: !causes[i].Ran?)
    && (asked && threw ==> |causes| > 1)
    && (!asked ==> if threw then |causes| == 1 && causes[0].Threw? else causes == [])
    && (cgi ==> IsAsync(causes))
    && (forall i | 0 <= i < |causes| :: causes[i].Ended? ==> IsAsync(causes))
  }

  /** One dispatch, and the parser is valid unless it threw. */
  ghost predicate HistoryOk(c: Client) {
    && |c.asked| <= 1
    && (!c.threw ==> Valid(c.req) && (|c.asked| == 1 <==> c.req.phase == DonePhase))
    && (c.interest == Writing && !c.threw ==> |c.asked| == 1)
    && (c.overlapped ==> c.threw && |c.asked| == 1)
    && CausesOk(c.causes, c.asked != [], c.threw, c.cgi.Some?)
  }

  /** Besides, the bytes sent so far with write_buffer_ are the current response, unless a CGI finished
      after extra input had already been answered. */
  ghost predicate ClientOk(c: Client) {
    HistoryOk(c) && (!c.overlapped ==> c.sent + c.out == TextOf(c.causes))
  }

  /** The mask that belongs to the last cause. */
  predicate MaskFits(causes: seq<Cause>, mask: Interest) {
    causes != [] ==>
      match causes[|causes| - 1]
      case Ran(dispatch, _) => mask == if dispatch.Async? then Reading else Writing
      case Threw(_, _) => mask == Writing
      case Ended(_, _, told, _) => told ==> mask == Writing
  }

  /** Nothing is sent before EPOLLOUT is asked for, and a parser that threw is not read again. */
  predicate Settled(c: Client) {
    && MaskFits(c.causes, c.interest)
    && (c.threw ==> c.interest == Writing)
    && (c.sent != "" ==> c.interest == Writing)
  }

  ghost predicate ClientsOk(w: World, dying: Option<Ptr>) {
    forall p | IsClient(w, p) ::
      var c := w.heap[p].client;
      && ClientOk(c)
      && (Some(p) != dying ==> Settled(c))
      && (c.cgi.Some? && c.cgi != dying && Some(p) != dying && c.interest == Writing ==> c.threw)
  }

  /** The child is waited for once, and all that was read is kept. */
  predicate CgiOk(g: Cgi) {
    (g.waits == if g.pid > 0 then 0 else 1) && g.readBuffer == Concat(g.chunks)
  }

  ghost predicate CgisOk(w: World, dying: Option<Ptr>) {
    forall q | IsCgi(w, q) :: CgiOk(w.heap[q].cgi) && (Some(q) != dying ==> w.heap[q].cgi.pid > 0)
  }

  function LiveCgis(w: World): set<Ptr> {
    set p | p in w.heap && w.heap[p].CgiSocket?
  }

  /** Every deleted CgiSocket has waited for its child exactly once, and none is lost. */
  predicate Reaped(w: World) {
    && (forall i | 0 <= i < |w.buried| :: w.buried[i].waits == 1 && w.buried[i].pid <= 0)
    && w.forked == |w.buried| + |LiveCgis(w)|
  }

  /** Everything but the kernel's part. */
  ghost predicate Owned(w: World, pending: Option<Ptr>, dying: Option<Ptr>) {
    && Registered(w, pending) && Linked(w) && BatchOk(w)
    && ClientsOk(w, dying) && CgisOk(w, dying) && Reaped(w)
    && (dying.Some? ==> dying.value in w.heap && dying != pending && !InBatch(w, dying.value))
    && (pending.Some? ==> !InBatch(w, pending.value))
  }

  predicate InBatch(w: World, p: Ptr) {
    exists i :: 0 <= i < |w.batch| && w.batch[i].ptr == p
  }

  ghost predicate Inv(w: World, pending: Option<Ptr>, dying: Option<Ptr>) {
    Owned(w, pending, dying) && KernelOk(w.kernel, w.heap.Keys, pending, dying)
  }

  // ---------- what the sockets know of each other does not depend on the kernel ----------

  lemma LinksIgnoreKernel(w: World, k: Kernel)
    requires Linked(w)
    ensures Linked(w.(kernel := k))
  {
    var w' := w.(kernel := k);
    assert forall x :: (IsClient(w', x) <==> IsClient(w, x)) && (IsCgi(w', x) <==> IsCgi(w, x));
  }

  lemma BatchIgnoresKernel(w: World, k: Kernel)
    requires BatchOk(w)
    ensures BatchOk(w.(kernel := k))
  {
    var w' := w.(kernel := k);
    forall i | 0 <= i < |w'.batch| ensures EventOk(w', w'.batch[i]) {
      assert EventOk(w, w.batch[i]);
    }
  }

  lemma LocalRulesIgnoreKernel(w: World, k: Kernel, dying: Option<Ptr>)
    requires ClientsOk(w, dying) && CgisOk(w, dying) && Reaped(w)
    ensures var w' := w.(kernel := k);
            ClientsOk(w', dying) && CgisOk(w', dying) && Reaped(w')
  {
    hide ClientOk, Settled, CgiOk;
    var w' := w.(kernel := k);
    forall x | IsClient(w', x) ensures IsClient(w, x) {}
    forall x | IsCgi(w', x) ensures IsCgi(w, x) {}
    assert LiveCgis(w') == LiveCgis(w);
  }

  lemma OwnedIgnoresKernel(w: World, k: Kernel, pending: Option<Ptr>, dying: Option<Ptr>)
    requires Owned(w, pending, dying)
    ensures Owned(w.(kernel := k), pending, dying)
  {
    hide Linked, BatchOk, ClientsOk, CgisOk, Reaped;
    LinksIgnoreKernel(w, k);
    BatchIgnoresKernel(w, k);
    LocalRulesIgnoreKernel(w, k, dying);
    assert forall p :: InBatch(w.(kernel := k), p) ==> InBatch(w, p);
  }

  // ---------- deletion ----------

  lemma DeletionIsSafe(w: World, pending: Option<Ptr>, dying: Option<Ptr>, p: Ptr)
    requires Owned(w, pending, dying) && p in w.heap
    ensures SafeToDelete(w, p)
  {}

  /** What deleting `p` leaves behind: only back-pointers to it are cleared. */
  ghost predicate Removed(w: World, w': World, p: Ptr)
    requires p in w.heap
  {
    && w'.heap.Keys == w.heap.Keys - {p}
    && w'.batch == w.batch && w'.forked == w.forked
    && w'.sockets == w.sockets - {FdOf(w.heap[p])}
    && (forall x | x in w.heap && x != p && w.heap[x].ServerSocket? :: w'.heap[x] == w.heap[x])
    && (forall x | x in w.heap && x != p && w.heap[x].ClientSocket? ::
          w'.heap[x].ClientSocket?
          && (w'.heap[x].client == w.heap[x].client || w'.heap[x].client == w.heap[x].client.(cgi := None)))
    && (forall x | x in w.heap && x != p && w.heap[x].CgiSocket? ::
          w'.heap[x].CgiSocket?
          && (w'.heap[x].cgi == w.heap[x].cgi || w'.heap[x].cgi == w.heap[x].cgi.(owner := None)))
    && w'.buried == if w.heap[p].CgiSocket? then w.buried + [LastWait(w.heap[p].cgi)] else w.buried
  }

  /** The child handling of ~CgiSocket. */
  function LastWait(g: Cgi): Cgi {
    if g.pid > 0 then g.(pid := -1, waits := g.waits + 1) else g
  }

  lemma DetachIsRemoved(w: World, p: Ptr)
    requires SafeToDelete(w, p)
    ensures Removed(w, Detach(w.(sockets := w.sockets - {FdOf(w.heap[p])}), p), p)
  {}

  lemma RemoveIsRemoved(w: World, p: Ptr)
    requires SafeToDelete(w, p)
    ensures Removed(w, Remove(w, p), p)
  {
    hide Detach;
    DetachIsRemoved(w, p);
  }

  /** The destructors end in closing the descriptor. */
  lemma RemoveCloses(w: World, p: Ptr)
    requires SafeToDelete(w, p)
    ensures ClosesFile(w.kernel, Remove(w, p).kernel, p)
  {
    hide Detach, ClosesFile, Close, Reap;
    CloseIsClosed(w.kernel, p);
    if w.heap[p].CgiSocket? {
      ReapIsClosed(w.kernel, w.heap[p].cgi.pid, p);
    }
  }

  lemma RemoveKeepsLinks(w: World, p: Ptr)
    requires Linked(w) && SafeToDelete(w, p)
    ensures Linked(Remove(w, p))
  {
    var w1 := Detach(w.(sockets := w.sockets - {FdOf(w.heap[p])}), p);
    DetachKeepsLinks(w, p);
    hide Detach, Linked;
    LinksIgnoreKernel(w1, Remove(w, p).kernel);
  }

  lemma DetachKeepsLinks(w: World, p: Ptr)
    requires Linked(w) && SafeToDelete(w, p)
    ensures Linked(Detach(w.(sockets := w.sockets - {FdOf(w.heap[p])}), p))
  {
    DetachIsRemoved(w, p);
    var w' := Detach(w.(sockets := w.sockets - {FdOf(w.heap[p])}), p);
    forall x | IsClient(w', x) && w'.heap[x].client.cgi.Some?
      ensures IsCgi(w', w'.heap[x].client.cgi.value) && w'.heap[w'.heap[x].client.cgi.value].cgi.owner == Some(x)
    {
      assert IsClient(w, x) && w.heap[x].client.cgi == w'.heap[x].client.cgi;
    }
    forall x | IsCgi(w', x) && w'.heap[x].cgi.owner.Some?
      ensures IsClient(w', w'.heap[x].cgi.owner.value) && w'.heap[w'.heap[x].cgi.owner.value].client.cgi == Some(x)
    {
      assert IsCgi(w, x) && w.heap[x].cgi.owner == w'.heap[x].cgi.owner;
    }
  }

  lemma RemovedKeepsSockets(w: World, w': World, p: Ptr, pending: Option<Ptr>)
    requires Registered(w, pending) && BatchOk(w) && p in w.heap && Removed(w, w', p) && !InBatch(w, p)
    ensures Registered(w', if pending == Some(p) then None else pending) && BatchOk(w')
  {
    forall x | x in w'.heap ensures FdOf(w'.heap[x]) == FdOf(w.heap[x]) {}
  }

  lemma RemovedKeepsClients(w: World, w': World, p: Ptr, dying: Option<Ptr>)
    requires ClientsOk(w, dying) && CgisOk(w, dying) && p in w.heap && Removed(w, w', p) && Linked(w')
    ensures var dying' := if dying == Some(p) then None else dying;
            ClientsOk(w', dying') && CgisOk(w', dying')
  {
    hide Linked, ClientOk;
    var dying' := if dying == Some(p) then None else dying;
    forall x | IsClient(w', x)
      ensures var c := w'.heap[x].client;
              && ClientOk(c) && (Some(x) != dying' ==> Settled(c))
              && (c.cgi.Some? && c.cgi != dying' && Some(x) != dying' && c.interest == Writing ==> c.threw)
    {
      assert IsClient(w, x);
      ClientOkWithoutCgi(w.heap[x].client);
      if w'.heap[x].client.cgi.Some? {
        assert IsCgi(w', w'.heap[x].client.cgi.value) by { CgiIsLive(w', x); }
      }
    }
    forall q | IsCgi(w', q) ensures CgiOk(w'.heap[q].cgi) && (Some(q) != dying' ==> w'.heap[q].cgi.pid > 0) {
      assert IsCgi(w, q);
    }
  }

  lemma CgiIsLive(w: World, p: Ptr)
    requires Linked(w) && IsClient(w, p) && w.heap[p].client.cgi.Some?
    ensures IsCgi(w, w.heap[p].client.cgi.value)
  {}

  lemma ClientOkWithoutCgi(c: Client)
    requires ClientOk(c)
    ensures ClientOk(c.(cgi := None))
  {}

  lemma RemovedKeepsReaped(w: World, w': World, p: Ptr, dying: Option<Ptr>)
    requires Reaped(w) && CgisOk(w, dying) && p in w.heap && Removed(w, w', p)
    ensures Reaped(w')
  {
    hide LiveCgis;
    RemovedKeepsCount(w, w', p);
    if w.heap[p].CgiSocket? {
      assert IsCgi(w, p);
    }
  }

  lemma RemovedKeepsCount(w: World, w': World, p: Ptr)
    requires p in w.heap && Removed(w, w', p)
    ensures |LiveCgis(w)| == |LiveCgis(w')| + if w.heap[p].CgiSocket? then 1 else 0
  {
    if w.heap[p].CgiSocket? {
      assert LiveCgis(w') == LiveCgis(w) - {p} && p in LiveCgis(w);
    } else {
      assert LiveCgis(w') == LiveCgis(w);
    }
  }

  /** Removing a live socket that the batch no longer mentions keeps the invariant. */
  lemma RemoveKeepsOwned(w: World, pending: Option<Ptr>, dying: Option<Ptr>, p: Ptr)
    requires Owned(w, pending, dying) && p in w.heap && !InBatch(w, p)
    ensures SafeToDelete(w, p) && Removed(w, Remove(w, p), p)
    ensures Owned(Remove(w, p), if pending == Some(p) then None else pending, if dying == Some(p) then None else dying)
  {
    DeletionIsSafe(w, pending, dying, p);
    RemoveIsRemoved(w, p);
    RemoveKeepsLinks(w, p);
    hide Registered, Linked, BatchOk, ClientsOk, CgisOk, Reaped, Remove;
    var w' := Remove(w, p);
    RemovedKeepsSockets(w, w', p, pending);
    RemovedKeepsClients(w, w', p, dying);
    RemovedKeepsReaped(w, w', p, dying);
  }

  // ---------- single changes ----------

  lemma SameFdKeepsRegistered(w: World, p: Ptr, s': Socket, pending: Option<Ptr>)
    requires Registered(w, pending) && p in w.heap && FdOf(s') == FdOf(w.heap[p])
    ensures Registered(w.(heap := w.heap[p := s']), pending)
  {}

  lemma SameLinksKeepLinked(w: World, p: Ptr, s': Socket)
    requires Linked(w) && p in w.heap
    requires match s'
             case ServerSocket(_) => w.heap[p].ServerSocket?
             case ClientSocket(c) => w.heap[p].ClientSocket? && c.cgi == w.heap[p].client.cgi
             case CgiSocket(g) => w.heap[p].CgiSocket? && g.owner == w.heap[p].cgi.owner
    ensures Linked(w.(heap := w.heap[p := s']))
  {}

  lemma SameKindKeepsReaped(w: World, p: Ptr, s': Socket)
    requires Reaped(w) && p in w.heap && (w.heap[p].CgiSocket? <==> s'.CgiSocket?)
    ensures Reaped(w.(heap := w.heap[p := s']))
  {
    assert LiveCgis(w.(heap := w.heap[p := s'])) == LiveCgis(w);
  }

  lemma SetClientKeepsClients(w: World, dying: Option<Ptr>, p: Ptr, c': Client)
    requires ClientsOk(w, dying) && CgisOk(w, dying) && IsClient(w, p) && ClientOk(c')
    requires Some(p) != dying ==> Settled(c')
    requires c'.cgi.Some? && c'.cgi != dying && Some(p) != dying && c'.interest == Writing ==> c'.threw
    ensures ClientsOk(SetClient(w, p, c'), dying) && CgisOk(SetClient(w, p, c'), dying)
  {
    hide ClientOk, Settled, CgiOk;
    var w' := SetClient(w, p, c');
    forall x | IsClient(w', x) && x != p ensures IsClient(w, x) && w'.heap[x] == w.heap[x] {}
    forall x | IsCgi(w', x) ensures IsCgi(w, x) && w'.heap[x] == w.heap[x] {}
  }

  /** A client may change as long as its links stay and its local rules hold. */
  lemma SetClientKeepsOwned(w: World, pending: Option<Ptr>, dying: Option<Ptr>, p: Ptr, c': Client)
    requires Owned(w, pending, dying) && IsClient(w, p)
    requires var c := w.heap[p].client;
             && c'.fd == c.fd && c'.cgi == c.cgi && ClientOk(c')
             && (Some(p) != dying ==> Settled(c'))
             && (c.cgi.Some? && c.cgi != dying && Some(p) != dying && c'.interest == Writing ==> c'.threw)
             && (!InBatch(w, p) || (c'.sent == c.sent && c'.threw == c.threw
                                    && (c.interest == Writing ==> c'.interest == Writing)))
    ensures Owned(SetClient(w, p, c'), pending, dying)
  {
    hide ClientOk, Settled, Registered, Linked, BatchOk, ClientsOk, CgisOk, Reaped;
    var s' := ClientSocket(c');
    SameFdKeepsRegistered(w, p, s', pending);
    SameLinksKeepLinked(w, p, s');
    SameKindKeepsReaped(w, p, s');
    SetClientKeepsClients(w, dying, p, c');
    SetClientKeepsBatch(w, p, c');
  }

  lemma SetClientKeepsBatch(w: World, p: Ptr, c': Client)
    requires BatchOk(w) && IsClient(w, p)
    requires var c := w.heap[p].client;
             !InBatch(w, p) || (c'.sent == c.sent && c'.threw == c.threw
                                && (c.interest == Writing ==> c'.interest == Writing))
    ensures BatchOk(SetClient(w, p, c'))
  {
    var w' := SetClient(w, p, c');
    forall i | 0 <= i < |w'.batch| ensures EventOk(w', w'.batch[i]) {
      assert EventOk(w, w.batch[i]);
    }
  }

  lemma SetCgiKeepsOthers(w: World, dying: Option<Ptr>, q: Ptr, g': Cgi)
    requires BatchOk(w) && ClientsOk(w, dying) && CgisOk(w, dying) && IsCgi(w, q)
    requires CgiOk(g') && (Some(q) != dying ==> g'.pid > 0)
    ensures var w' := SetCgi(w, q, g');
            BatchOk(w') && ClientsOk(w', dying) && CgisOk(w', dying)
  {
    hide ClientOk, Settled, CgiOk;
    var w' := SetCgi(w, q, g');
    forall i | 0 <= i < |w'.batch| ensures EventOk(w', w'.batch[i]) {
      assert EventOk(w, w.batch[i]);
    }
    forall x | IsClient(w', x) ensures IsClient(w, x) && w'.heap[x] == w.heap[x] {}
    forall x | IsCgi(w', x) && x != q ensures IsCgi(w, x) && w'.heap[x] == w.heap[x] {}
  }

  lemma SetCgiKeepsOwned(w: World, pending: Option<Ptr>, dying: Option<Ptr>, q: Ptr, g': Cgi)
    requires Owned(w, pending, dying) && IsCgi(w, q)
    requires g'.fd == w.heap[q].cgi.fd && g'.owner == w.heap[q].cgi.owner
    requires CgiOk(g') && (Some(q) != dying ==> g'.pid > 0)
    ensures Owned(SetCgi(w, q, g'), pending, dying)
  {
    hide Registered, Linked, BatchOk, ClientsOk, CgisOk, Reaped, CgiOk;
    var s' := CgiSocket(g');
    SameFdKeepsRegistered(w, q, s', pending);
    SameLinksKeepLinked(w, q, s');
    SameKindKeepsReaped(w, q, s');
    SetCgiKeepsOthers(w, dying, q, g');
  }

  /** A socket that HandleEvent asks to remove is not held to the rules of the others. */
  lemma MarkDying(w: World, pending: Option<Ptr>, p: Ptr)
    requires Owned(w, pending, None) && p in w.heap && !InBatch(w, p) && pending != Some(p)
    ensures Owned(w, pending, Some(p))
  {
    hide ClientOk, Settled, Registered, Linked, BatchOk, Reaped;
  }

  lemma NewClientIsOk(fd: int, limit: nat)
    requires limit < Chunked.SIGN_BOUND
    ensures ClientOk(NewClient(fd, limit)) && Settled(NewClient(fd, limit))
  {
    hide Valid;
    InitialIsValid(limit);
  }

  lemma NewClientKeepsOwned(w: World, q: Ptr, fd: int, limit: nat)
    requires Owned(w, None, None) && Fresh(w, q, fd) && limit < Chunked.SIGN_BOUND
    ensures Owned(SetClient(w, q, NewClient(fd, limit)), Some(q), None)
  {
    hide ClientOk, Settled, Registered, BatchOk;
    var c := NewClient(fd, limit);
    var w' := SetClient(w, q, c);
    NewClientIsOk(fd, limit);
    NewSocketKeepsBatch(w, q, ClientSocket(c));
    NewSocketKeepsRegistered(w, q, ClientSocket(c));
    assert LiveCgis(w') == LiveCgis(w);
  }

  lemma NewSocketKeepsBatch(w: World, q: Ptr, s: Socket)
    requires BatchOk(w) && q !in w.heap
    ensures var w' := w.(heap := w.heap[q := s]);
            BatchOk(w') && !InBatch(w', q)
  {
    var w' := w.(heap := w.heap[q := s]);
    forall i | 0 <= i < |w'.batch| ensures EventOk(w', w'.batch[i]) && w'.batch[i].ptr != q {
      assert EventOk(w, w.batch[i]);
    }
  }

  lemma NewSocketKeepsRegistered(w: World, q: Ptr, s: Socket)
    requires Registered(w, None) && Fresh(w, q, FdOf(s))
    ensures Registered(w.(heap := w.heap[q := s]), Some(q))
  {}

  lemma NewCgiKeepsOthers(w: World, p: Ptr, q: Ptr, g: Cgi)
    requires Reaped(w) && ClientsOk(w, None) && CgisOk(w, None) && q !in w.heap && CgiOk(g) && g.pid > 0
    ensures var w' := SetCgi(w, q, g).(forked := w.forked + 1);
            Reaped(w') && ClientsOk(w', None) && CgisOk(w', None)
  {
    hide ClientOk, Settled, CgiOk;
    var w' := SetCgi(w, q, g).(forked := w.forked + 1);
    assert LiveCgis(w') == LiveCgis(w) + {q};
    forall x | IsClient(w', x) ensures IsClient(w, x) && w'.heap[x] == w.heap[x] {}
    forall x | IsCgi(w', x) && x != q ensures IsCgi(w, x) && w'.heap[x] == w.heap[x] {}
  }

  lemma NewCgiKeepsLinks(w: World, p: Ptr, c': Client, q: Ptr, g: Cgi)
    requires Linked(w) && IsClient(w, p) && w.heap[p].client.cgi.None? && q !in w.heap
    requires c'.cgi == Some(q) && g.owner == Some(p)
    ensures Linked(SetCgi(SetClient(w, p, c'), q, g))
  {}

  /** An asynchronous dispatch links the new CgiSocket and its client; the client had none. */
  lemma NewCgiKeepsOwned(w: World, p: Ptr, c': Client, q: Ptr, fd: int, pid: int)
    requires Owned(w, None, None) && IsClient(w, p) && !InBatch(w, p) && Fresh(w, q, fd) && pid > 0
    requires w.heap[p].client.cgi.None? && c'.fd == w.heap[p].client.fd && c'.cgi == Some(q)
    requires ClientOk(c') && Settled(c') && c'.interest == Reading
    ensures Owned(SetCgi(SetClient(w, p, c'), q, NewCgi(fd, pid, p)).(forked := w.forked + 1), Some(q), None)
  {
    hide ClientOk, Settled, Registered, Linked, BatchOk, ClientsOk, CgisOk, Reaped;
    var g := NewCgi(fd, pid, p);
    var w1 := SetClient(w, p, c');
    SameFdKeepsRegistered(w, p, ClientSocket(c'), None);
    SameKindKeepsReaped(w, p, ClientSocket(c'));
    SetClientKeepsClients(w, None, p, c');
    SetClientKeepsBatch(w, p, c');
    NewSocketKeepsRegistered(w1, q, CgiSocket(g));
    NewSocketKeepsBatch(w1, q, CgiSocket(g));
    NewCgiKeepsOthers(w1, p, q, g);
    NewCgiKeepsLinks(w, p, c', q, g);
    CountKeepsRest(SetCgi(w1, q, g), w.forked + 1, Some(q));
  }

  lemma CountKeepsRest(w: World, forked: nat, pending: Option<Ptr>)
    requires Registered(w, pending) && Linked(w) && BatchOk(w)
    ensures var w' := w.(forked := forked);
            Registered(w', pending) && Linked(w') && BatchOk(w')
  {
    var w' := w.(forked := forked);
    forall i | 0 <= i < |w'.batch| ensures EventOk(w', w'.batch[i]) {
      assert EventOk(w, w.batch[i]);
    }
    assert forall x :: IsClient(w', x) <==> IsClient(w, x);
    assert forall x :: IsCgi(w', x) <==> IsCgi(w, x);
  }

  lemma EnterKeepsOwned(w: World, q: Ptr, dying: Option<Ptr>)
    requires Owned(w, Some(q), dying)
    ensures Owned(w.(sockets := w.sockets[FdOf(w.heap[q]) := q]), None, dying)
  {
    hide ClientOk, Settled;
    var w' := w.(sockets := w.sockets[FdOf(w.heap[q]) := q]);
    assert forall i | 0 <= i < |w'.batch| :: EventOk(w, w.batch[i]) ==> EventOk(w', w'.batch[i]);
    assert LiveCgis(w') == LiveCgis(w);
    assert Linked(w') && Registered(w', None);
  }

  // ---------- handlers ----------

  /** A handler leaves the invariant, with its new socket pending and, when it asks for removal,
      its own socket dying. */
  ghost predicate HandledOk(h: Handled, p: Ptr) {
    Owned(h.w, h.created, if h.remove then Some(p) else None)
  }

  lemma RespondOk(c: Client, text: string)
    requires HistoryOk(c) && c.sent == "" && text == TextOf(c.causes)
    ensures ClientOk(Respond(c, text))
  {}

  /** The handler answers with the page for the status that was thrown. */
  lemma CatchKeepsOwned(w: World, p: Ptr, c1: Client, status: Status, os: Os)
    requires Owned(w, None, None) && IsClient(w, p) && !InBatch(w, p)
    requires HistoryOk(c1) && c1.sent == "" && c1.fd == w.heap[p].client.fd && c1.cgi == w.heap[p].client.cgi
    requires (c1.cgi.Some? ==> c1.threw) && (c1.threw || |c1.asked| == 1)
    requires c1.causes != [] && c1.causes[|c1.causes| - 1] == Threw(status, os.date)
    ensures HandledOk(CatchStatus(SetClient(w, p, c1), p, status, os), p)
  {
    hide ClientOk, HistoryOk, Owned, Unwatch, ToText, ErrorPage;
    var text := ToText(ErrorPage(Code(status)), os.date);
    var c := Respond(c1, text);
    RespondOk(c1, text);
    HistoryIsLong(c1);
    ClientOkIgnoresInterest(c, Writing);
    var w1 := SetClient(w, p, c1);
    if os.modifiedOnThrow {
      var c' := c.(interest := Writing);
      SetClientKeepsOwned(w, None, None, p, c');
      assert SetClient(w1, p, c') == SetClient(w, p, c');
    } else {
      MarkDying(w, None, p) by { InHeap(w, p); }
      SetClientKeepsOwned(w, None, Some(p), p, c);
      assert SetClient(w1, p, c) == SetClient(w, p, c);
      OwnedIgnoresKernel(SetClient(w, p, c), Unwatch(w.kernel, p), None, Some(p));
    }
  }

  lemma HistoryIsLong(c: Client)
    requires HistoryOk(c)
    ensures c.cgi.Some? ==> |c.asked| == 1
  {}

  /** A throw of Parse in the history of a client that has not thrown yet. */
  lemma ThrowKeepsHistory(c: Client, r: Request, status: Status, date: string)
    requires HistoryOk(c) && !c.threw
    ensures HistoryOk(c.(req := r, threw := true, causes := c.causes + [Threw(status, date)]))
  {
    hide Valid;
  }

  /** The one return of RequestHandler::Run in the history of a client. */
  lemma RunKeepsHistory(c: Client, r: Request, os: Os, cgi: Option<Ptr>)
    requires HistoryOk(c) && !c.threw && c.asked == [] && Valid(r) && r.phase == DonePhase
    requires cgi.Some? ==> os.dispatch.Async?
    ensures c.causes == [] && c.interest == Reading && c.cgi == None && !c.overlapped
    ensures HistoryOk(Entered(c, r, os).(cgi := cgi))
  {
    hide Valid;
  }

  /** A refused EPOLL_CTL_MOD behind it. */
  lemma RefusalKeepsHistory(c: Client, status: Status, date: string)
    requires HistoryOk(c) && |c.asked| == 1
    ensures HistoryOk(c.(causes := c.causes + [Threw(status, date)]))
  {
    hide Valid;
  }

  lemma InHeap(w: World, p: Ptr)
    requires IsClient(w, p)
    ensures p in w.heap
  {}

  lemma ClientOkIgnoresInterest(c: Client, i: Interest)
    requires ClientOk(c) && (c.threw || |c.asked| == 1)
    ensures ClientOk(c.(interest := i))
  {}

  lemma ClientFacts(w: World, p: Ptr)
    requires Owned(w, None, None) && IsClient(w, p)
    ensures var c := w.heap[p].client;
            ClientOk(c) && Settled(c) && (c.cgi.Some? && c.interest == Writing ==> c.threw)
  {}

  lemma PiecesKeepClient(c: Client, pieces: seq<string>)
    requires ClientOk(c)
    ensures ClientOk(c.(pieces := pieces))
  {}

  /** The result of RequestHandler::Run: a synchronous answer, or the one dispatch to a CGI. */
  lemma ResultKeepsOwned(w: World, p: Ptr, c: Client, r: Request, os: Os)
    requires Owned(w, None, None) && IsClient(w, p) && !InBatch(w, p) && Contract(w, os)
    requires c.fd == w.heap[p].client.fd && c.cgi == w.heap[p].client.cgi
    requires HistoryOk(c) && c.sent == "" && !c.threw && c.asked == [] && Valid(r) && r.phase == DonePhase
    ensures match TakeResult(w, p, Entered(c, r, os), os)
            case Returned(w1, created) => Owned(w1, created, None)
            case ThrewStatus(w1, status) => HandledOk(CatchStatus(w1, p, status, os), p)
            case ThrewClosed(_) => false
  {
    hide Owned, Valid, Fork, Open, HistoryOk, ToText, CatchStatus, HandledOk;
    var c1 := Entered(c, r, os);
    match os.dispatch {
      case Async(q, fd, pid) =>
        RunKeepsHistory(c, r, os, Some(q));
        var text := ToText(WithStatus(200), os.date);
        var c2 := Respond(c1, text).(cgi := Some(q));
        RespondOk(c1.(cgi := Some(q)), text);
        NewCgiKeepsOwned(w, p, c2, q, fd, pid);
        var w2 := SetCgi(SetClient(w, p, c2), q, NewCgi(fd, pid, p)).(forked := w.forked + 1);
        OwnedIgnoresKernel(w2, Open(Fork(w.kernel, pid), q), Some(q), None);
      case Sync(response, stray) =>
        var k := if stray.Some? then Fork(w.kernel, stray.value) else w.kernel;
        var w0 := w.(kernel := k);
        OwnedIgnoresKernel(w, k, None, None);
        assert InBatch(w0, p) ==> InBatch(w, p);
        RunKeepsHistory(c, r, os, None);
        var c2 := Respond(c1, ToText(response, os.date));
        RespondOk(c1, ToText(response, os.date));
        if os.modified {
          ClientOkIgnoresInterest(c2, Writing);
          SetClientKeepsOwned(w0, None, None, p, c2.(interest := Writing));
        } else {
          OkMeansHistory(c2);
          RefusalKeepsHistory(c2, os.refusal, os.date);
          CatchKeepsOwned(w0, p, c2.(causes := c2.causes + [Threw(os.refusal, os.date)]), os.refusal, os);
        }
    }
  }

  lemma OkMeansHistory(c: Client)
    requires ClientOk(c)
    ensures HistoryOk(c)
  {}

  /** Reading a client's socket: a throw of Parse, a request still incomplete, or the result of Run. */
  lemma ClientInKeepsOwned(w: World, p: Ptr, os: Os)
    requires Owned(w, None, None) && IsClient(w, p) && !InBatch(w, p) && Contract(w, os)
    requires w.heap[p].client.sent == "" && !w.heap[p].client.threw
    ensures match ClientIn(w, p, os)
            case Returned(w1, created) => Owned(w1, created, None)
            case ThrewStatus(w1, status) => HandledOk(CatchStatus(w1, p, status, os), p)
            case ThrewClosed(w1) => w1 == w
  {
    hide Owned, Parse, Valid, HistoryOk, TakeResult, CatchStatus, HandledOk, Settled, TextOf;
    var c := w.heap[p].client;
    ClientFacts(w, p);
    if os.received.Some? {
      var data := os.received.value;
      var c1 := c.(pieces := c.pieces + [data]);
      PiecesKeepClient(c, c.pieces + [data]);
      ParseKeepsClient(c1, data);
      match Parse(c.req, data) {
        case Err(status) =>
          ThrowKeepsHistory(c1, os.afterThrow, status, os.date);
          var c2 := c1.(req := os.afterThrow, threw := true, causes := c.causes + [Threw(status, os.date)]);
          CatchKeepsOwned(w, p, c2, status, os);
        case Ok(r) =>
          if r.phase != DonePhase {
            SettledIgnoresInput(c, c1.(req := r));
            SetClientKeepsOwned(w, None, None, p, c1.(req := r));
          } else {
            ResultKeepsOwned(w, p, c1, r, os);
          }
      }
    }
  }

  lemma SettledIgnoresInput(c: Client, c': Client)
    requires Settled(c)
    requires c' == c.(req := c'.req, pieces := c'.pieces)
    ensures Settled(c')
  {}

  /** Parse accepts more input only while no request is complete. */
  lemma ParseKeepsClient(c: Client, data: string)
    requires ClientOk(c) && !c.threw
    ensures Parse(c.req, data).Ok? ==>
              var r := Parse(c.req, data).value;
              c.asked == [] && Valid(r) && (r.phase != DonePhase ==> ClientOk(c.(req := r)))
  {
    ParseKeepsValid(c.req, data);
    hide Parse, Valid, CausesOk;
  }

  /** Sending moves bytes from write_buffer_ to the connection. */
  lemma SendKeepsClient(c: Client, n: nat)
    requires ClientOk(c) && Settled(c) && c.interest == Writing && n <= |c.out|
    ensures var c' := c.(sent := c.sent + c.out[..n], out := c.out[n..]);
            ClientOk(c') && Settled(c')
  {
    hide Valid, CausesOk, TextOf, MaskFits;
    assert c.sent + c.out == c.sent + c.out[..n] + c.out[n..];
  }

  lemma ClientOutKeepsOwned(w: World, p: Ptr, os: Os)
    requires Owned(w, None, None) && IsClient(w, p) && !InBatch(w, p) && w.heap[p].client.interest == Writing
    ensures match ClientOut(w, p, os)
            case Kept(w1) => Owned(w1, None, None)
            case Closed(w1) => Owned(w1, None, Some(p))
  {
    hide Owned, ClientOk, Settled;
    var c := w.heap[p].client;
    ClientFacts(w, p);
    MarkDying(w, None, p) by { InHeap(w, p); }
    if c.out != "" && os.sentBytes.Some? {
      var n := if os.sentBytes.value < |c.out| then os.sentBytes.value else |c.out|;
      SendKeepsClient(c, n);
      var c' := c.(sent := c.sent + c.out[..n], out := c.out[n..]);
      if n < |c.out| {
        SetClientKeepsOwned(w, None, None, p, c');
      } else {
        assert c.out[..n] == c.out && c.out[n..] == "";
        SetClientKeepsOwned(w, None, Some(p), p, c');
      }
    }
  }

  lemma ClientEventKeepsOwned(w: World, e: Event, os: Os)
    requires Owned(w, None, None) && IsClient(w, e.ptr) && !InBatch(w, e.ptr) && EventOk(w, e) && Contract(w, os)
    ensures HandledOk(ClientEvent(w, e, os), e.ptr)
  {
    hide Owned, ClientIn, ClientOut, Unwatch;
    if e.readable {
      ClientInKeepsOwned(w, e.ptr, os);
      MarkDying(w, None, e.ptr);
      OwnedIgnoresKernel(w, Unwatch(w.kernel, e.ptr), None, Some(e.ptr));
    } else if e.writable {
      ClientOutKeepsOwned(w, e.ptr, os);
      var r := ClientOut(w, e.ptr, os);
      if r.Closed? {
        OwnedIgnoresKernel(r.w, Unwatch(r.w.kernel, e.ptr), None, Some(e.ptr));
      }
    }
  }

  lemma ServerEventKeepsOwned(w: World, e: Event, os: Os)
    requires Owned(w, None, None) && Contract(w, os)
    ensures HandledOk(ServerEvent(w, e, os), e.ptr)
  {
    hide Owned;
    if os.accepted.Some? {
      var a := os.accepted.value;
      NewClientKeepsOwned(w, a.ptr, a.fd, a.limit);
      var c := NewClient(a.fd, a.limit);
      OwnedIgnoresKernel(SetClient(w, a.ptr, c), Open(w.kernel, a.ptr), Some(a.ptr), None);
    }
  }

  lemma CgiFacts(w: World, q: Ptr)
    requires Owned(w, None, None) && IsCgi(w, q)
    ensures OwnerIsLive(w, q) && w.heap[q].cgi.pid > 0 && CgiOk(w.heap[q].cgi)
    ensures w.heap[q].cgi.owner.Some? ==> w.heap[w.heap[q].cgi.owner.value].client.cgi == Some(q)
  {}

  /** What the owner is told is an answer to all that the CGI wrote. */
  lemma EndKeepsClient(c: Client, g: Cgi, os: Os)
    requires ClientOk(c) && Settled(c) && c.cgi.Some? && CgiOk(g)
    requires c.interest == Writing ==> c.threw
    ensures ClientOk(TellOwner(c, g, os)) && Settled(TellOwner(c, g, os))
  {
    hide Valid, ToText, ErrorPage, WithStatus, Concat, CgiResponses.ParseOutput;
  }

  /** End of a CGI's output: its child is waited for, and its owner, if it is still there, gets a
      response; only a client that had been answered for extra input can be overlapped. */
  lemma CgiEventKeepsOwned(w: World, e: Event, os: Os)
    requires Owned(w, None, None) && IsCgi(w, e.ptr) && !InBatch(w, e.ptr)
    ensures OwnerIsLive(w, e.ptr) && HandledOk(CgiEvent(w, e, os), e.ptr)
  {
    hide Owned, Valid, Unwatch, Reap, IsWatched, TellOwner, ClientOk, Settled;
    var q := e.ptr;
    CgiFacts(w, q);
    var g := w.heap[q].cgi;
    if e.readable {
      if os.cgiData.Some? {
        ConcatOneMore(g.chunks, os.cgiData.value);
        SetCgiKeepsOwned(w, None, None, q, g.(readBuffer := g.readBuffer + os.cgiData.value,
                                              chunks := g.chunks + [os.cgiData.value]));
      } else {
        var g' := g.(pid := -1, waits := g.waits + 1);
        MarkDying(w, None, q);
        SetCgiKeepsOwned(w, None, Some(q), q, g');
        var k := Unwatch(Reap(w.kernel, g.pid), q);
        var w1 := SetCgi(w, q, g').(kernel := k);
        OwnedIgnoresKernel(SetCgi(w, q, g'), k, None, Some(q));
        if g.owner.Some? {
          var p := g.owner.value;
          ClientFacts(w, p);
          EndKeepsClient(w.heap[p].client, g, os);
          OwnerStays(w.heap[p].client, g, os);
          SetClientKeepsOwned(w1, None, Some(q), p, TellOwner(w.heap[p].client, g, os));
        }
      }
    }
  }

  lemma OwnerStays(c: Client, g: Cgi, os: Os)
    ensures var c' := TellOwner(c, g, os);
            && c' == c.(causes := c'.causes, out := c'.out, overlapped := c'.overlapped, interest := c'.interest)
            && (c.interest == Writing ==> c'.interest == Writing)
  {}

  // ---------- one event, one pass, all runs ----------

  lemma BatchTail(w: World)
    requires Owned(w, None, None) && w.batch != []
    ensures var e, w0 := w.batch[0], w.(batch := w.batch[1..]);
            Owned(w0, None, None) && EventOk(w0, e) && !InBatch(w0, e.ptr)
  {
    hide ClientOk, Settled, CgiOk;
    var e, w0 := w.batch[0], w.(batch := w.batch[1..]);
    assert EventOk(w, e);
    forall i | 0 <= i < |w0.batch| ensures EventOk(w0, w0.batch[i]) && w0.batch[i].ptr != e.ptr {
      assert w0.batch[i] == w.batch[i + 1] && EventOk(w, w.batch[i + 1]);
    }
    assert Distinct(w0.batch) by {
      forall i, j | 0 <= i < j < |w0.batch| ensures w0.batch[i].ptr != w0.batch[j].ptr {
        assert w0.batch[i] == w.batch[i + 1] && w0.batch[j] == w.batch[j + 1];
      }
    }
    assert LiveCgis(w0) == LiveCgis(w);
    assert Linked(w0) && Registered(w0, None);
  }

  lemma CallIsSafe(w: World, os: Os)
    requires Owned(w, None, None) && w.batch != [] && Contract(w, os)
    ensures Ready(w) && HandledOk(Call(w, os), w.batch[0].ptr)
  {
    hide Owned, ClientEvent, ServerEvent, CgiEvent;
    var e, w0 := w.batch[0], w.(batch := w.batch[1..]);
    BatchTail(w);
    match w0.heap[e.ptr] {
      case ServerSocket(_) => ServerEventKeepsOwned(w0, e, os);
      case ClientSocket(_) => ClientEventKeepsOwned(w0, e, os);
      case CgiSocket(_) => CgiEventKeepsOwned(w0, e, os);
    }
  }

  lemma PendingFacts(w: World, q: Ptr, dying: Option<Ptr>)
    requires Owned(w, Some(q), dying)
    ensures q in w.heap && !InBatch(w, q) && SafeToDelete(w, q)
  {
    DeletionIsSafe(w, Some(q), dying, q);
  }

  lemma RegisterKeepsOwned(w: World, created: Option<Ptr>, registered: bool, dying: Option<Ptr>)
    requires Owned(w, created, dying)
    ensures created.Some? ==> SafeToDelete(w, created.value)
    ensures Owned(Register(w, created, registered), None, dying)
  {
    hide Owned, Remove;
    if created.Some? {
      var q := created.value;
      PendingFacts(w, q, dying);
      EnterKeepsOwned(w, q, dying);
      var w1 := w.(sockets := w.sockets[FdOf(w.heap[q]) := q]);
      if registered {
        OwnedIgnoresKernel(w1, Watch(w1.kernel, q), None, dying);
      } else {
        assert InBatch(w1, q) ==> InBatch(w, q);
        DyingIsNotPending(w, q, dying);
        RemoveKeepsOwned(w1, None, dying, q);
      }
    }
  }

  lemma DyingIsNotPending(w: World, q: Ptr, dying: Option<Ptr>)
    requires Owned(w, Some(q), dying)
    ensures dying != Some(q)
  {}

  predicate CanFinish(h: Handled, p: Ptr, registered: bool) {
    && (h.created.Some? ==> SafeToDelete(h.w, h.created.value))
    && (h.remove ==> SafeToDelete(Register(h.w, h.created, registered), p))
  }

  /** Registering the new socket, then removing the handled one. */
  function Finish(h: Handled, p: Ptr, registered: bool): World
    requires CanFinish(h, p, registered)
  {
    var w1 := Register(h.w, h.created, registered);
    if h.remove then Remove(w1, p) else w1
  }

  lemma DyingFacts(w: World, p: Ptr)
    requires Owned(w, None, Some(p))
    ensures p in w.heap && !InBatch(w, p)
  {}

  lemma FinishIsSafe(h: Handled, p: Ptr, registered: bool)
    requires HandledOk(h, p)
    ensures CanFinish(h, p, registered) && Owned(Finish(h, p, registered), None, None)
    ensures Finish(h, p, registered).batch == h.w.batch
  {
    hide Owned;
    var dying := if h.remove then Some(p) else None;
    RegisterKeepsOwned(h.w, h.created, registered, dying);
    if h.remove {
      var w1 := Register(h.w, h.created, registered);
      DyingFacts(w1, p);
      RemoveKeepsOwned(w1, None, dying, p);
    }
  }

  lemma CallTakesOneEvent(w: World, os: Os)
    requires Ready(w) && Contract(w, os)
    ensures Call(w, os).w.batch == w.batch[1..]
  {
    hide ClientIn, ClientOut, CatchStatus, CgiEvent;
    var e, w0 := w.batch[0], w.(batch := w.batch[1..]);
    match w.heap[e.ptr]
    case ServerSocket(_) =>
    case CgiSocket(_) => CgiKeepsBatch(w0, e, os);
    case ClientSocket(_) =>
      ClientInKeepsBatch(w0, e.ptr, os);
      if e.readable {
        if ClientIn(w0, e.ptr, os).ThrewStatus? {
          CatchKeepsBatch(ClientIn(w0, e.ptr, os).w, e.ptr, ClientIn(w0, e.ptr, os).status, os);
        }
        ClientOutKeepsBatch(ClientIn(w0, e.ptr, os).w, e.ptr, os);
      }
      ClientOutKeepsBatch(w0, e.ptr, os);
  }

  lemma ClientInKeepsBatch(w: World, p: Ptr, os: Os)
    requires IsClient(w, p) && Contract(w, os)
    ensures ClientIn(w, p, os).w.batch == w.batch
  {
    hide Parse;
  }

  lemma ClientOutKeepsBatch(w: World, p: Ptr, os: Os)
    requires IsClient(w, p)
    ensures ClientOut(w, p, os).w.batch == w.batch
  {}

  lemma CatchKeepsBatch(w: World, p: Ptr, status: Status, os: Os)
    requires IsClient(w, p)
    ensures CatchStatus(w, p, status, os).w.batch == w.batch
  {}

  lemma CgiKeepsBatch(w: World, e: Event, os: Os)
    requires OwnerIsLive(w, e.ptr)
    ensures CgiEvent(w, e, os).w.batch == w.batch
  {}

  /** Nothing that handling the next event dereferences is gone. */
  predicate Defined(w: World, os: Os) {
    Ready(w) && Contract(w, os) && CanFinish(Call(w, os), w.batch[0].ptr, os.registered)
  }

  /** The body of the batch loop of Webserv::Run for the next event. */
  function HandleNext(w: World, os: Os): World
    requires Defined(w, os)
  {
    Finish(Call(w, os), w.batch[0].ptr, os.registered)
  }

  lemma HandleNextKeepsOwned(w: World, os: Os)
    requires Owned(w, None, None) && w.batch != [] && Contract(w, os)
    ensures Defined(w, os) && Owned(HandleNext(w, os), None, None) && HandleNext(w, os).batch == w.batch[1..]
  {
    hide Owned, Call, Finish, Ready, CanFinish;
    CallIsSafe(w, os);
    FinishIsSafe(Call(w, os), w.batch[0].ptr, os.registered);
    CallTakesOneEvent(w, os);
  }

  // ---------- the interest list follows the live sockets ----------

  /** What a handler does to the kernel's state: its new socket has no entry yet, a socket that is to
      be removed has none any more, and no other entry is lost or new. */
  ghost predicate KernelHandled(k: Kernel, h: Handled, p: Ptr) {
    KernelOk(h.w.kernel, h.w.heap.Keys, h.created, if h.remove then Some(p) else None) && Continues(k, h.w.kernel)
  }

  /** The kernel's state and the addresses in use behind HandleEpollIn. */
  lemma ClientInShape(w: World, p: Ptr, os: Os)
    requires IsClient(w, p) && Contract(w, os)
    ensures var r := ClientIn(w, p, os);
            if r.Returned? && r.created.Some? then
              && os.dispatch.Async? && r.created == Some(os.dispatch.ptr)
              && r.w.heap.Keys == w.heap.Keys + {os.dispatch.ptr}
              && r.w.kernel == Open(Fork(w.kernel, os.dispatch.pid), os.dispatch.ptr)
            else
              && r.w.heap.Keys == w.heap.Keys
              && (r.w.kernel == w.kernel
                  || (os.dispatch.Sync? && os.dispatch.stray.Some? && r.w.kernel == Fork(w.kernel, os.dispatch.stray.value)))
  {
    hide Parse, Fork, Open, Respond;
  }

  lemma ClientInKernel(w: World, p: Ptr, os: Os)
    requires KernelOk(w.kernel, w.heap.Keys, None, None) && IsClient(w, p) && Contract(w, os)
    ensures var r := ClientIn(w, p, os);
            var created := if r.Returned? then r.created else None;
            KernelOk(r.w.kernel, r.w.heap.Keys, created, None) && Continues(w.kernel, r.w.kernel)
            && (created.Some? ==> created != Some(p))
  {
    ClientInShape(w, p, os);
    hide ClientIn, KernelOk, Continues, Fork, Open;
    ContinuesItself(w.kernel);
    match os.dispatch {
      case Sync(_, stray) =>
        if stray.Some? {
          ForkKernel(w.kernel, stray.value, w.heap.Keys, None, None);
        }
      case Async(q, _, pid) =>
        var k := Fork(w.kernel, pid);
        ForkKernel(w.kernel, pid, w.heap.Keys, None, None);
        OpenKernel(k, w.heap.Keys, q);
        ContinuesBoth(w.kernel, k, Open(k, q));
    }
  }

  lemma ContinuesItself(k: Kernel)
    ensures Continues(k, k)
  {}

  lemma ContinuesBoth(k: Kernel, k1: Kernel, k2: Kernel)
    requires Continues(k, k1) && Continues(k1, k2)
    ensures Continues(k, k2)
  {}

  lemma UnwatchHandled(k: Kernel, w: World, p: Ptr, created: Option<Ptr>)
    requires KernelOk(w.kernel, w.heap.Keys, created, None) && p in w.heap && created != Some(p) && Continues(k, w.kernel)
    ensures KernelHandled(k, Handled(Deregister(w, p), created, true), p)
  {
    hide KernelOk, Continues, Unwatch;
    UnwatchKernel(w.kernel, w.heap.Keys, created, p);
    ContinuesBoth(k, w.kernel, Unwatch(w.kernel, p));
  }

  lemma CatchKernel(k: Kernel, w: World, p: Ptr, status: Status, os: Os)
    requires KernelOk(w.kernel, w.heap.Keys, None, None) && IsClient(w, p) && Continues(k, w.kernel)
    ensures KernelHandled(k, CatchStatus(w, p, status, os), p)
  {
    hide KernelOk, Continues, Unwatch;
    var w' := CatchStatus(w, p, status, os).w;
    assert w'.heap.Keys == w.heap.Keys;
    UnwatchKernel(w.kernel, w.heap.Keys, None, p);
    ContinuesBoth(k, w.kernel, Unwatch(w.kernel, p));
  }

  lemma ClientOutKernel(w: World, p: Ptr, os: Os)
    requires IsClient(w, p)
    ensures var w' := ClientOut(w, p, os).w; w'.kernel == w.kernel && w'.heap.Keys == w.heap.Keys
  {}

  lemma ClientEventKernel(w: World, e: Event, os: Os)
    requires KernelOk(w.kernel, w.heap.Keys, None, None) && IsClient(w, e.ptr) && Contract(w, os)
    ensures KernelHandled(w.kernel, ClientEvent(w, e, os), e.ptr)
  {
    hide KernelOk, Continues, ClientIn, ClientOut, CatchStatus;
    ContinuesItself(w.kernel);
    var input := if e.readable then ClientIn(w, e.ptr, os) else Returned(w, None);
    if e.readable {
      ClientInKernel(w, e.ptr, os);
    }
    var w1 := input.w;
    if input.ThrewStatus? {
      CatchKernel(w.kernel, w1, e.ptr, input.status, os);
    } else if input.ThrewClosed? {
      UnwatchHandled(w.kernel, w1, e.ptr, None);
    } else if e.writable {
      ClientOutKernel(w1, e.ptr, os);
      var r := ClientOut(w1, e.ptr, os);
      if r.Closed? {
        UnwatchHandled(w.kernel, r.w, e.ptr, input.created);
      }
    }
  }

  lemma ServerEventKernel(w: World, e: Event, os: Os)
    requires KernelOk(w.kernel, w.heap.Keys, None, None) && Contract(w, os)
    ensures KernelHandled(w.kernel, ServerEvent(w, e, os), e.ptr)
  {
    hide KernelOk, Continues, Open;
    ContinuesItself(w.kernel);
    if os.accepted.Some? {
      var q := os.accepted.value.ptr;
      OpenKernel(w.kernel, w.heap.Keys, q);
      assert forall c :: SetClient(w, q, c).heap.Keys == w.heap.Keys + {q};
    }
  }

  lemma CgiEventKernel(w: World, e: Event, os: Os)
    requires KernelOk(w.kernel, w.heap.Keys, None, None) && OwnerIsLive(w, e.ptr)
    ensures KernelHandled(w.kernel, CgiEvent(w, e, os), e.ptr)
  {
    hide KernelOk, Continues, Unwatch, Reap;
    ContinuesItself(w.kernel);
    var g, w' := w.heap[e.ptr].cgi, CgiEvent(w, e, os).w;
    assert w'.heap.Keys == w.heap.Keys;
    var k := Reap(w.kernel, g.pid);
    ReapKernel(w.kernel, g.pid, w.heap.Keys, None, None);
    UnwatchKernel(k, w.heap.Keys, None, e.ptr);
    ContinuesBoth(w.kernel, k, Unwatch(k, e.ptr));
  }

  lemma CallKernel(w: World, os: Os)
    requires Ready(w) && Contract(w, os) && KernelOk(w.kernel, w.heap.Keys, None, None)
    ensures KernelHandled(w.kernel, Call(w, os), w.batch[0].ptr)
  {
    hide KernelHandled, KernelOk, ClientEvent, CgiEvent, ServerEvent;
    var e, w0 := w.batch[0], w.(batch := w.batch[1..]);
    match w.heap[e.ptr] {
      case ServerSocket(_) => ServerEventKernel(w0, e, os);
      case ClientSocket(_) => ClientEventKernel(w0, e, os);
      case CgiSocket(_) => CgiEventKernel(w0, e, os);
    }
  }

  lemma RemoveKernel(w: World, p: Ptr, pending: Option<Ptr>, dying: Option<Ptr>)
    requires SafeToDelete(w, p) && KernelOk(w.kernel, w.heap.Keys, pending, dying)
    ensures var w' := Remove(w, p);
            KernelOk(w'.kernel, w'.heap.Keys, if pending == Some(p) then None else pending,
                     if dying == Some(p) then None else dying)
    ensures Clean(w.kernel) && (pending == Some(p) || dying == Some(p)) ==> Clean(Remove(w, p).kernel)
  {
    RemoveCloses(w, p);
    RemoveIsRemoved(w, p);
    var w' := Remove(w, p);
    ClosedKeepsKernel(w.kernel, w'.kernel, p, w.heap.Keys, pending, dying);
    hide Remove, ClosesFile;
    if Clean(w.kernel) && (pending == Some(p) || dying == Some(p)) {
      assert p in w.kernel.files.Keys && w.kernel.files[p] !in w.kernel.watch;
      ClosedKeepsClean(w.kernel, w'.kernel, p);
    }
  }

  lemma RegisterKernel(w: World, created: Option<Ptr>, registered: bool, dying: Option<Ptr>)
    requires KernelOk(w.kernel, w.heap.Keys, created, dying)
    requires created.Some? ==> SafeToDelete(w, created.value) && dying != created
    ensures var w' := Register(w, created, registered);
            KernelOk(w'.kernel, w'.heap.Keys, None, dying) && (Clean(w.kernel) ==> Clean(w'.kernel))
  {
    hide Remove, Clean;
    if created.Some? {
      var q := created.value;
      var w1 := w.(sockets := w.sockets[FdOf(w.heap[q]) := q]);
      WatchKernel(w.kernel, w.heap.Keys, q, dying);
      CreatedCanGo(w, q);
      if !registered {
        RemoveKernel(w1, q, created, dying);
      }
    }
  }

  lemma CreatedCanGo(w: World, q: Ptr)
    requires SafeToDelete(w, q)
    ensures q in w.heap && SafeToDelete(w.(sockets := w.sockets[FdOf(w.heap[q]) := q]), q)
  {}

  lemma FinishKernel(k: Kernel, h: Handled, p: Ptr, registered: bool)
    requires HandledOk(h, p) && CanFinish(h, p, registered) && KernelHandled(k, h, p)
    ensures var w' := Finish(h, p, registered);
            KernelOk(w'.kernel, w'.heap.Keys, None, None) && (Clean(k) ==> Clean(w'.kernel))
  {
    hide Owned, Remove, Register, Clean, KernelOk, Continues, SafeToDelete;
    var dying := if h.remove then Some(p) else None;
    if h.created.Some? {
      DyingIsNotPending(h.w, h.created.value, dying);
    }
    if Clean(k) {
      ContinuesClean(k, h.w.kernel);
    }
    RegisterKernel(h.w, h.created, registered, dying);
    if h.remove {
      RemoveKernel(Register(h.w, h.created, registered), p, None, dying);
    }
  }

  /** Handling an event keeps the invariant, and deregisters whatever it removes. */
  lemma HandleNextKeepsInv(w: World, os: Os)
    requires Inv(w, None, None) && w.batch != [] && Contract(w, os)
    ensures Defined(w, os) && Inv(HandleNext(w, os), None, None) && HandleNext(w, os).batch == w.batch[1..]
    ensures Clean(w.kernel) ==> Clean(HandleNext(w, os).kernel)
  {
    hide Owned, Call, Finish, Ready, CanFinish, Clean, KernelOk;
    HandleNextKeepsOwned(w, os);
    CallIsSafe(w, os);
    CallKernel(w, os);
    FinishKernel(w.kernel, Call(w, os), w.batch[0].ptr, os.registered);
  }

  /** A writable client is closed exactly by a failed or a complete send; after a complete one,
      what was sent over the connection is the response. */
  lemma FullSendCloses(w: World, e: Event, os: Os)
    requires Inv(w, None, None) && IsClient(w, e.ptr) && Contract(w, os) && e.writable && !e.readable
    ensures var c := w.heap[e.ptr].client;
            var h := ClientEvent(w, e, os);
            && IsClient(h.w, e.ptr)
            && (h.remove <==> c.out != "" && (os.sentBytes.None? || os.sentBytes.value >= |c.out|))
            && (h.remove && os.sentBytes.Some? && !c.overlapped ==> h.w.heap[e.ptr].client.sent == TextOf(c.causes))
  {
    ClientFacts(w, e.ptr);
    hide Inv;
  }
}
