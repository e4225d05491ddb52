/** Webserv and the socket handlers as methods on the mutable socket table. Results of system
    calls are parameters. `heap` stands for the C++ heap: deleting a socket removes its address,
    and every dereference below is proved to hit a live one. `kernel` is what the system calls
    fork, waitpid, close and epoll_ctl act on. */
module WebservLoop {
  import opened Text
  import opened RequestParser
  import opened EventLoop
  import opened EventTheorems
  import opened EventRuns
  import opened Timeouts
  import opened Kernels
  import opened StreamParser
  import opened HttpResponses
  import CgiResponses

  datatype Thrown = Nothing | StatusException(status: Status) | ConnectionClosed

  /** How setting up a listener ends: socket() fails; setsockopt, bind or listen fails, so that the
      ServerSocket constructor throws; epoll refuses to register it; or it is registered. */
  datatype Setup = NoSocket | NotListening | Refused | Listening

  datatype Listener = Listener(fd: int, ptr: Ptr, setup: Setup)

  function Table(listeners: seq<Listener>): map<int, Ptr> {
    if listeners == [] then map[]
    else
      var last := listeners[|listeners| - 1];
      Table(listeners[..|listeners| - 1])[last.fd := last.ptr]
  }

  /** What happens for one event of a batch: other processes act, then the event is handled. */
  datatype Round = Round(others: seq<Step>, os: Os)

  function ActAll(k: Kernel, steps: seq<Step>): Kernel
    decreases |steps|
  {
    if steps == [] then k else ActAll(ForeignAct(k, steps[0]), steps[1..])
  }

  predicate CanAct(w: World, steps: seq<Step>)
    decreases |steps|
  {
    steps != [] ==> IsForeign(steps[0]) && Enabled(w, steps[0]) && CanAct(Next(w, steps[0]), steps[1..])
  }

  lemma {:induction false} OthersKeepInv(w: World, steps: seq<Step>)
    requires Inv(w, None, None) && CanAct(w, steps)
    ensures var w' := w.(kernel := ActAll(w.kernel, steps));
            Inv(w', None, None) && (Clean(w.kernel) ==> Clean(w'.kernel))
    decreases |steps|
  {
    hide Inv, Clean, ForeignAct;
    if steps == [] {
      assert w.(kernel := w.kernel) == w;
    } else {
      OtherProcessesKeepInv(w, steps[0]);
      OthersKeepInv(Next(w, steps[0]), steps[1..]);
    }
  }

  /** A table without the lines of some sockets. */
  function Without(sockets: map<int, Ptr>, gone: seq<Ptr>): map<int, Ptr> {
    map fd | fd in sockets && sockets[fd] !in gone :: sockets[fd]
  }

  class Webserv {
    var sockets: map<int, Ptr>
    var heap: map<Ptr, Socket>
    var kernel: Kernel
    ghost var batch: seq<Event>   // events not handled yet
    ghost var buried: seq<Cgi>
    ghost var forked: nat

    ghost function State(): World
      reads this
    {
      World(sockets, heap, batch, buried, forked, kernel)
    }

    ghost predicate Valid()
      reads this
    {
      Inv(State(), None, None)
    }

    constructor ()
      ensures IsInit(State()) && sockets == map[] && heap == map[]
    {
      sockets, heap, kernel := map[], map[], Kernel(map[], 0, map[], map[]);
      batch, buried, forked := [], [], 0;
    }

    /** One round of the constructor's loop; unless the listener is registered, nothing of it is left. */
    method AddListener(p: Ptr, fd: int, setup: Setup) returns (ok: bool)
      requires IsInit(State()) && Fresh(State(), p, fd)
      modifies this
      ensures IsInit(State()) && (ok <==> setup == Listening)
      ensures heap == if ok then old(heap)[p := ServerSocket(fd)] else old(heap)
      ensures sockets == if ok then old(sockets)[fd := p] else old(sockets)
    {
      hide IsInit, Open, Watch, Close, Remove;
      ghost var before := State();
      if setup == NoSocket {
        return false;
      }
      kernel := Open(kernel, p);
      if setup == NotListening {
        kernel := Close(kernel, p);  // the descriptor of the base object
        UnboundListenerGoes(before, p);
        return false;
      }
      heap := heap[p := ServerSocket(fd)];
      sockets := sockets[fd := p];
      assert State() == WithListener(before, p, fd);
      if setup == Refused {
        RefusedListenerGoes(before, p, fd);
        RemoveSocket(p);
        return false;
      }
      ListenerKeepsInit(before, p, fd);
      kernel := Watch(kernel, p);
      return true;
    }

    /** The rest of the Webserv constructor: one ServerSocket for each port, all registered, or, when
        one cannot be set up, everything deleted again and an exception. */
    method AddListeners(listeners: seq<Listener>) returns (ok: bool)
      requires IsInit(State()) && sockets == map[] && heap == map[]
      requires forall i, j | 0 <= i < j < |listeners| ::
                 listeners[i].fd != listeners[j].fd && listeners[i].ptr != listeners[j].ptr
      modifies this
      ensures ok <==> forall i | 0 <= i < |listeners| :: listeners[i].setup == Listening
      ensures ok ==> Valid() && Clean(kernel) && batch == [] && sockets == Table(listeners)
      ensures !ok ==> sockets == map[] && heap == map[]
    {
      hide Inv, IsInit, Clean;
      for i := 0 to |listeners|
        invariant IsInit(State()) && sockets == Table(listeners[..i])
        invariant forall k | 0 <= k < i :: listeners[k].setup == Listening
        invariant forall k | i <= k < |listeners| :: Fresh(State(), listeners[k].ptr, listeners[k].fd)
      {
        var l := listeners[i];
        var added := AddListener(l.ptr, l.fd, l.setup);
        if !added {
          InitHasInv(State());
          InitHasNoBatch(State());
          ClearResources();
          return false;
        }
        assert listeners[..i + 1][..i] == listeners[..i];
      }
      assert listeners[..|listeners|] == listeners;
      InitHasInv(State());
      InitHasNoBatch(State());
      return true;
    }

    // ---------- ClientSocket ----------

    method HandleEpollIn(p: Ptr, os: Os) returns (thrown: Thrown, created: Option<Ptr>)
      requires IsClient(State(), p) && Contract(State(), os)
      modifies this`heap, this`forked, this`kernel
      ensures match ClientIn(old(State()), p, os)
              case Returned(w, q) => thrown == Nothing && created == q && State() == w
              case ThrewStatus(w, status) => thrown == StatusException(status) && created == None && State() == w
              case ThrewClosed(w) => thrown == ConnectionClosed && created == None && State() == w
    {
      hide Parse, Open, Fork, ToText;
      created := None;
      if os.received.None? {
        return ConnectionClosed, None;
      }
      var c := heap[p].client;
      var parsed := Parse(c.req, os.received.value);
      c := c.(pieces := c.pieces + [os.received.value]);
      if parsed.Err? {
        c := c.(req := os.afterThrow, threw := true, causes := c.causes + [Threw(parsed.status, os.date)]);
        heap := heap[p := ClientSocket(c)];
        return StatusException(parsed.status), None;
      }
      c := c.(req := parsed.value);
      if c.req.phase != DonePhase {
        heap := heap[p := ClientSocket(c)];
        return Nothing, None;
      }
      c := c.(asked := c.asked + [c.req], causes := c.causes + [Ran(os.dispatch, os.date)]);
      match os.dispatch {
        case Async(q, fd, pid) =>
          c := Respond(c, ToText(WithStatus(200), os.date));
          heap := heap[p := ClientSocket(c.(cgi := Some(q)))];
          heap := heap[q := CgiSocket(NewCgi(fd, pid, p))];
          kernel := Open(Fork(kernel, pid), q);
          forked := forked + 1;
          return Nothing, Some(q);
        case Sync(response, stray) =>
          if stray.Some? {
            kernel := Fork(kernel, stray.value);
          }
          c := Respond(c, ToText(response, os.date));
          if os.modified {
            heap := heap[p := ClientSocket(c.(interest := Writing))];
            return Nothing, None;
          }
          c := c.(causes := c.causes + [Threw(os.refusal, os.date)]);
          heap := heap[p := ClientSocket(c)];
          return StatusException(os.refusal), None;
      }
    }

    method HandleEpollOut(p: Ptr, os: Os) returns (thrown: Thrown)
      requires IsClient(State(), p)
      modifies this`heap
      ensures match ClientOut(old(State()), p, os)
              case Kept(w) => thrown == Nothing && State() == w
              case Closed(w) => thrown == ConnectionClosed && State() == w
    {
      var c := heap[p].client;
      if c.out == "" {
        return Nothing;
      }
      if os.sentBytes.None? {
        return ConnectionClosed;
      }
      if os.sentBytes.value < |c.out| {
        var n := os.sentBytes.value;
        heap := heap[p := ClientSocket(c.(sent := c.sent + c.out[..n], out := c.out[n..]))];
        return Nothing;
      }
      heap := heap[p := ClientSocket(c.(sent := c.sent + c.out, out := ""))];
      return ConnectionClosed;
    }

    method HandleClientEvent(e: Event, os: Os) returns (created: Option<Ptr>, remove: bool)
      requires IsClient(State(), e.ptr) && Contract(State(), os)
      modifies this`heap, this`forked, this`kernel
      ensures Handled(State(), created, remove) == ClientEvent(old(State()), e, os)
    {
      var thrown := Nothing;
      created, remove := None, false;
      if e.readable {
        thrown, created := HandleEpollIn(e.ptr, os);
      }
      if thrown == Nothing && e.writable {
        thrown := HandleEpollOut(e.ptr, os);
      }
      match thrown {
        case Nothing =>
        case ConnectionClosed =>
          remove := true;
          kernel := Unwatch(kernel, e.ptr);
        case StatusException(status) =>
          var page := MakeErrorPage(Code(status));
          var text := page.ToHttpString(os.date);
          var c := Respond(heap[e.ptr].client, text);
          if os.modifiedOnThrow {
            c := c.(interest := Writing);
          } else {
            remove := true;
            kernel := Unwatch(kernel, e.ptr);
          }
          heap := heap[e.ptr := ClientSocket(c)];
          created := None;
      }
    }

    // ---------- ServerSocket and CgiSocket ----------

    method HandleServerEvent(e: Event, os: Os) returns (created: Option<Ptr>, remove: bool)
      requires Contract(State(), os)
      modifies this`heap, this`kernel
      ensures Handled(State(), created, remove) == ServerEvent(old(State()), e, os)
    {
      created, remove := None, false;
      if e.readable && os.accepted.Some? {
        var a := os.accepted.value;
        var c := NewClient(a.fd, a.limit);
        kernel := Open(kernel, a.ptr);
        heap := heap[a.ptr := ClientSocket(c)];
        created := Some(a.ptr);
      }
    }

    method HandleCgiEvent(e: Event, os: Os) returns (created: Option<Ptr>, remove: bool)
      requires OwnerIsLive(State(), e.ptr)
      modifies this`heap, this`kernel
      ensures Handled(State(), created, remove) == CgiEvent(old(State()), e, os)
    {
      created, remove := None, false;
      if !e.readable {
        return;
      }
      var g := heap[e.ptr].cgi;
      if os.cgiData.Some? {
        heap := heap[e.ptr := CgiSocket(g.(readBuffer := g.readBuffer + os.cgiData.value,
                                              chunks := g.chunks + [os.cgiData.value]))];
        return;
      }
      heap := heap[e.ptr := CgiSocket(g.(pid := -1, waits := g.waits + 1))];
      kernel := Reap(kernel, g.pid);  // waitpid
      remove := true;
      var deleted := IsWatched(kernel, e.ptr);
      kernel := Unwatch(kernel, e.ptr);
      if deleted && g.owner.Some? {
        if os.exited {
          OnCgiExecutionFinished(g.owner.value, g, os);
        } else {
          OnCgiExecutionError(g.owner.value, g, os);
        }
      }
    }

    /** A status thrown by ParseCgiResponse is answered with 500, whatever it is. */
    method OnCgiExecutionFinished(owner: Ptr, g: Cgi, os: Os)
      requires IsClient(State(), owner) && os.exited
      modifies this`heap
      ensures State() == SetClient(old(State()), owner, TellOwner(old(heap[owner].client), g, os))
    {
      hide ToText, ErrorPage, CgiResponses.ParseOutput;
      var parsed := CgiResponses.ParseCgiResponse(g.readBuffer);
      var text;
      if parsed.Ok? {
        text := ToText(parsed.value, os.date);
      } else {
        var page := MakeErrorPage(500);
        text := page.ToHttpString(os.date);
      }
      Answer(owner, text, Ended(g.chunks, true, os.modified, os.date), os);
    }

    method OnCgiExecutionError(owner: Ptr, g: Cgi, os: Os)
      requires IsClient(State(), owner) && !os.exited
      modifies this`heap
      ensures State() == SetClient(old(State()), owner, TellOwner(old(heap[owner].client), g, os))
    {
      hide ToText;
      Answer(owner, ToText(WithStatus(500), os.date), Ended(g.chunks, false, os.modified, os.date), os);
    }

    /** The end that both have in common: write_buffer_ and the mask. */
    method Answer(owner: Ptr, text: string, ended: Cause, os: Os)
      requires IsClient(State(), owner)
      modifies this`heap
      ensures var c := old(heap[owner].client);
              var c' := Respond(c.(causes := c.causes + [ended]), text);
              State() == SetClient(old(State()), owner, if os.modified then c'.(interest := Writing) else c')
    {
      var c := heap[owner].client;
      c := Respond(c.(causes := c.causes + [ended]), text);
      if os.modified {
        c := c.(interest := Writing);
      }
      heap := heap[owner := ClientSocket(c)];
    }

    // ---------- deletion ----------

    /** `sockets_.erase` and `delete`, with the destructors. */
    method RemoveSocket(p: Ptr)
      requires SafeToDelete(State(), p)
      modifies this`sockets, this`heap, this`buried, this`kernel
      ensures State() == Remove(old(State()), p)
    {
      var s := heap[p];
      sockets := sockets - {FdOf(s)};
      match s {
        case ServerSocket(_) =>
        case ClientSocket(c) =>
          if c.cgi.Some? {
            heap := heap[c.cgi.value := CgiSocket(heap[c.cgi.value].cgi.(owner := None))];  // OnSetOwner(NULL)
          }
        case CgiSocket(g) =>
          if g.owner.Some? {
            RemoveCgiSocket(g.owner.value, p);
          }
          if g.pid > 0 {
            kernel := Reap(kernel, g.pid);  // kill and waitpid
          }
          buried := buried + [LastWait(g)];
      }
      heap := heap - {p};
      kernel := Close(kernel, p);
    }

    method RemoveCgiSocket(owner: Ptr, cgi: Ptr)
      requires IsClient(State(), owner)
      modifies this`heap
      ensures var c := old(heap[owner].client);
              State() == if c.cgi == Some(cgi) then SetClient(old(State()), owner, c.(cgi := None)) else old(State())
    {
      var c := heap[owner].client;
      if c.cgi == Some(cgi) {
        heap := heap[owner := ClientSocket(c.(cgi := None))];
      }
    }

    // ---------- Webserv::Run ----------

    /** The body of the batch loop for the event `e`. */
    method HandleOne(e: Event, os: Os)
      requires Valid() && batch != [] && e == batch[0] && Contract(State(), os)
      modifies this
      ensures Valid() && batch == old(batch)[1..] && (Clean(old(kernel)) ==> Clean(kernel))
      ensures Defined(old(State()), os) && State() == HandleNext(old(State()), os)
    {
      hide Inv, Owned, KernelOk, Clean, Call, Finish, HandleNext, Defined, ClientEvent, ServerEvent, CgiEvent,
           Remove, Watch, SafeToDelete, Contract;
      HandleNextKeepsInv(State(), os);
      NextEvent(State(), os);
      ghost var before := State();
      batch := batch[1..];
      var created, remove := None, false;
      match heap[e.ptr] {
        case ServerSocket(_) => created, remove := HandleServerEvent(e, os);
        case ClientSocket(_) => created, remove := HandleClientEvent(e, os);
        case CgiSocket(_) => created, remove := HandleCgiEvent(e, os);
      }
      ghost var h := Handled(State(), created, remove);
      assert h == Call(before, os);
      LastSteps(h, e.ptr, os.registered);
      if created.Some? {
        var q := created.value;
        sockets := sockets[FdOf(heap[q]) := q];
        if os.registered {
          kernel := Watch(kernel, q);
        } else {
          RemoveSocket(q);
        }
      }
      assert State() == Register(h.w, created, os.registered);
      if remove {
        RemoveSocket(e.ptr);
      }
      assert State() == Finish(h, e.ptr, os.registered);
    }

    /** The system calls keep their contract in every state the batch passes through. */
    ghost predicate ContractAll(w: World, rounds: seq<Round>)
      requires Inv(w, None, None) && |rounds| == |w.batch|
      decreases |rounds|
    {
      rounds == [] ||
      (CanAct(w, rounds[0].others) &&
       (OthersKeepInv(w, rounds[0].others);
        var w1 := w.(kernel := ActAll(w.kernel, rounds[0].others));
        Contract(w1, rounds[0].os) &&
        (HandleNextKeepsInv(w1, rounds[0].os); ContractAll(HandleNext(w1, rounds[0].os), rounds[1..]))))
    }

    /** The for loop over what epoll_wait reported, with other processes at work between two events:
        all events are handled, in every interleaving of removals, and the table and the interest
        list are consistent again. */
    method HandleBatch(reports: seq<Report>, rounds: seq<Round>)
      requires Valid() && Clean(kernel) && batch == [] && Reports(State(), reports) && |rounds| == |reports|
      requires (ReceiveKeepsInv(State(), reports); ContractAll(Receive(State(), reports), rounds))
      modifies this
      ensures Valid() && Clean(kernel) && batch == [] && Safe(State())
    {
      hide Inv, Clean;
      ReceiveKeepsInv(State(), reports);
      var events := Batch(kernel, reports);
      batch := events;
      for i := 0 to |events|
        invariant Valid() && Clean(kernel) && batch == events[i..]
        invariant ContractAll(State(), rounds[i..])
      {
        assert rounds[i..][0] == rounds[i] && rounds[i..][1..] == rounds[i + 1..];
        OthersKeepInv(State(), rounds[i].others);
        kernel := ActAll(kernel, rounds[i].others);
        HandleOne(events[i], rounds[i].os);
        assert events[i..][1..] == events[i + 1..];
      }
      InvIsSafe(State());
    }

    // ---------- CheckTimeout ----------

    /** ClientSocket::HandleTimeout: the 408 page replaces write_buffer_ and is sent as far as the
        socket takes it, then the client is deregistered. `taken` are the results of send; after
        the last of them the socket takes no more. */
    method HandleTimeout(p: Ptr, date: string, taken: seq<int>)
      requires IsClient(State(), p)
      modifies this`heap, this`kernel
      ensures IsClient(State(), p)
      ensures var c, c', page := old(heap[p].client), heap[p].client, ToText(ErrorPage(408), date);
              && c' == Respond(c, page).(sent := c'.sent, out := c'.out)
              && c'.sent + c'.out == c.sent + page && c.sent <= c'.sent
      ensures State() == Deregister(SetClient(old(State()), p, heap[p].client), p)
    {
      hide ToText, ErrorPage;
      var before := heap[p].client;
      var res := MakeErrorPage(408);
      var page := res.ToHttpString(date);
      var c := Respond(before, page);
      var i := 0;
      while c.out != "" && i < |taken|
        invariant i <= |taken| && c == Respond(before, page).(sent := c.sent, out := c.out)
        invariant c.sent + c.out == before.sent + page && before.sent <= c.sent
        decreases |c.out|
      {
        var n := taken[i];
        if n <= 0 {
          break;
        }
        ghost var sent, out := c.sent, c.out;
        if n < |c.out| {
          c := c.(sent := c.sent + c.out[..n], out := c.out[n..]);
          assert sent + out == c.sent + c.out;
        } else {
          c := c.(sent := c.sent + c.out, out := "");
          assert sent + out == c.sent + c.out;
        }
        i := i + 1;
      }
      heap := heap[p := ClientSocket(c)];
      kernel := Unwatch(kernel, p);
    }

    /** One late socket: HandleTimeout, which does nothing for a CgiSocket, and delete. */
    method RemoveLate(p: Ptr, date: string, taken: seq<int>)
      requires p in heap && !heap[p].ServerSocket? && SafeToDelete(OnTimeout(State(), p), p)
      modifies this`sockets, this`heap, this`buried, this`kernel
      ensures State() == Expire(old(State()), p)
    {
      hide Remove, ToText, ErrorPage;
      if heap[p].ClientSocket? {
        HandleTimeout(p, date, taken);
        TimedOutClientIsForgotten(old(State()), p, heap[p].client);
      }
      RemoveSocket(p);
    }

    /** CheckTimeout: removes exactly the timed-out sockets that are not listeners, in the order of
        the table. The interest list is clean behind it exactly if no process that it has not waited
        for holds the descriptor of a CgiSocket it has removed. */
    method CheckTimeout(late: set<Ptr>, date: Ptr -> string, taken: Ptr -> seq<int>) returns (ghost order: seq<Ptr>)
      requires Valid() && batch == []
      modifies this
      ensures Valid() && batch == []
      ensures Late(old(State()), order)
      ensures forall p :: p in order <==> p in late && p in old(heap) && !old(heap)[p].ServerSocket?
      ensures CanExpire(old(State()), order) && State() == ExpireAll(old(State()), order)
      ensures sockets == Without(old(sockets), order)
      ensures Clean(old(kernel)) ==> (Clean(kernel) <==> !Leaks(old(State()), order))
    {
      hide Inv, Remove, Clean, Leaks, Removed, Expire, ExpireAll, CanExpire, SafeToDelete, Late;
      ghost var w := State();
      TableIsLive(w);
      NothingExpired(w);
      order := [];
      var todo := sockets.Keys;
      while todo != {}
        invariant Valid() && batch == [] && todo <= sockets.Keys
        invariant CanExpire(w, order) && State() == ExpireAll(w, order) && Late(w, order)
        invariant TableWithout(w, State(), order)
        invariant forall p | p in order :: p in late
        invariant forall fd | fd in w.sockets && fd !in todo ::
                    w.sockets[fd] in order <==> w.sockets[fd] in late && !w.heap[w.sockets[fd]].ServerSocket?
        decreases |todo|
      {
        SomeElement(todo);
        var fd :| fd in todo;
        todo := todo - {fd};
        var p := sockets[fd];
        EntryIsLive(w, State(), order, fd);
        if p in late && !heap[p].ServerSocket? {
          OneExpires(State(), p);
          OneMoreExpires(w, order, p);
          OneMoreIsLate(w, State(), Expire(State(), p), order, p);
          RemoveLate(p, date(p), taken(p));
          order := order + [p];
        }
      }
      AllAreInTable(w);
      LateAreLive(w, order);
      TableIsLeft(w, State(), order);
      if Clean(w.kernel) {
        PassIsCleanUnlessItLeaks(w, order);
      }
    }

    /** ClearResources: everything is deleted, and every child that got a CgiSocket was waited for
        exactly once. */
    method ClearResources()
      requires Valid() && batch == []
      modifies this
      ensures heap == map[] && sockets == map[]
      ensures |buried| == forked && forall i | 0 <= i < |buried| :: buried[i].waits == 1
    {
      hide Inv, Remove, Removed, SafeToDelete;
      var todo := sockets.Keys;
      while todo != {}
        invariant Valid() && batch == [] && todo == sockets.Keys
        decreases |todo|
      {
        SomeElement(todo);
        var fd :| fd in todo;
        todo := todo - {fd};
        var p := sockets[fd];
        TableIsLive(State());
        OneIsCleared(State(), p);
        OneIsRemoved(State(), Remove(State(), p), p);
        RemoveSocket(p);
      }
      EmptyTable(State());
    }
  }

  /** Which handler the next event calls, and that it may. */
  lemma NextEvent(w: World, os: Os)
    requires Inv(w, None, None) && w.batch != [] && Contract(w, os)
    ensures var e, w0 := w.batch[0], w.(batch := w.batch[1..]);
            && e.ptr in w.heap && Contract(w0, os)
            && (w.heap[e.ptr].ServerSocket? ==> Call(w, os) == ServerEvent(w0, e, os))
            && (w.heap[e.ptr].ClientSocket? ==> IsClient(w0, e.ptr) && Call(w, os) == ClientEvent(w0, e, os))
            && (w.heap[e.ptr].CgiSocket? ==> OwnerIsLive(w0, e.ptr) && Call(w, os) == CgiEvent(w0, e, os))
    ensures HandledOk(Call(w, os), w.batch[0].ptr)
    ensures Defined(w, os) && HandleNext(w, os) == Finish(Call(w, os), w.batch[0].ptr, os.registered)
  {
    hide Owned, KernelOk, HandledOk, ClientEvent, ServerEvent, CgiEvent, Finish, CanFinish;
    HandleNextKeepsInv(w, os);
    CallIsSafe(w, os);
  }

  /** Registering and removing, as the end of the loop body does it. */
  lemma LastSteps(h: Handled, p: Ptr, registered: bool)
    requires HandledOk(h, p)
    ensures h.created.Some? ==>
              var q := h.created.value;
              && q in h.w.heap
              && var w1 := h.w.(sockets := h.w.sockets[FdOf(h.w.heap[q]) := q]);
                 && SafeToDelete(w1, q)
                 && Register(h.w, h.created, registered)
                    == if registered then w1.(kernel := Watch(w1.kernel, q)) else Remove(w1, q)
    ensures h.created.None? ==> Register(h.w, h.created, registered) == h.w
    ensures h.remove ==> SafeToDelete(Register(h.w, h.created, registered), p)
    ensures CanFinish(h, p, registered)
    ensures Finish(h, p, registered)
         == if h.remove then Remove(Register(h.w, h.created, registered), p) else Register(h.w, h.created, registered)
  {
    FinishIsSafe(h, p, registered);
    if h.created.Some? {
      CreatedCanGo(h.w, h.created.value);
    }
    hide Owned, Remove, Watch;
  }

  /** A timed-out or cleaned-up socket leaves the table alone; the others stay what they were. */
  lemma OneIsRemoved(w: World, w': World, p: Ptr)
    requires Inv(w, None, None) && p in w.heap && Removed(w, w', p) && Inv(w', None, None)
    ensures w'.sockets == w.sockets - {FdOf(w.heap[p])} && w.sockets[FdOf(w.heap[p])] == p
    ensures forall fd | fd in w'.sockets ::
              w'.sockets[fd] in w'.heap && FdOf(w'.heap[w'.sockets[fd]]) == fd && w.sockets[fd] in w.heap
              && (w'.heap[w'.sockets[fd]].ServerSocket? <==> w.heap[w.sockets[fd]].ServerSocket?)
  {
    hide Linked, BatchOk, ClientsOk, CgisOk, Reaped, KernelOk;
    assert Registered(w', None) && Registered(w, None);
    forall fd | fd in w'.sockets
      ensures w'.heap[w'.sockets[fd]].ServerSocket? <==> w.heap[w.sockets[fd]].ServerSocket?
    {
      assert w'.sockets[fd] in w'.heap.Keys;
    }
  }

  lemma OneExpires(w: World, p: Ptr)
    requires Inv(w, None, None) && w.batch == [] && p in w.heap && !w.heap[p].ServerSocket?
    ensures SafeToDelete(OnTimeout(w, p), p) && Removed(w, Expire(w, p), p)
    ensures Inv(Expire(w, p), None, None) && Expire(w, p).batch == []
  {
    ExpireKeepsInv(w, p);
  }

  lemma {:induction false} OneMoreExpires(w: World, late: seq<Ptr>, p: Ptr)
    requires CanExpire(w, late)
    requires var w' := ExpireAll(w, late);
             p in w'.heap && !w'.heap[p].ServerSocket? && SafeToDelete(OnTimeout(w', p), p)
    ensures CanExpire(w, late + [p]) && ExpireAll(w, late + [p]) == Expire(ExpireAll(w, late), p)
    decreases |late|
  {
    hide Expire, SafeToDelete;
    var more := late + [p];
    if late == [] {
      assert more[0] == p && more[1..] == [];
      assert CanExpire(Expire(w, p), []) && ExpireAll(Expire(w, p), []) == Expire(w, p);
    } else {
      assert more[0] == late[0] && more[1..] == late[1..] + [p];
      OneMoreExpires(Expire(w, late[0]), late[1..], p);
    }
  }

  lemma NothingExpired(w: World)
    requires Inv(w, None, None)
    ensures CanExpire(w, []) && ExpireAll(w, []) == w && Late(w, []) && TableWithout(w, w, [])
  {
    TableIsLive(w);
  }

  /** The table after the sockets of `order` are removed. */
  ghost predicate TableWithout(w: World, w': World, order: seq<Ptr>) {
    && (forall fd | fd in w.sockets :: w.sockets[fd] in w.heap && FdOf(w.heap[w.sockets[fd]]) == fd)
    && (forall fd :: fd in w'.sockets <==> fd in w.sockets && w.sockets[fd] !in order)
    && (forall fd | fd in w'.sockets ::
          w'.sockets[fd] == w.sockets[fd] && w.sockets[fd] in w'.heap
          && FdOf(w'.heap[w.sockets[fd]]) == fd
          && (w'.heap[w.sockets[fd]].ServerSocket? <==> w.heap[w.sockets[fd]].ServerSocket?))
  }

  lemma EntryIsLive(w: World, w': World, order: seq<Ptr>, fd: int)
    requires TableWithout(w, w', order) && fd in w'.sockets
    ensures var p := w'.sockets[fd];
            p in w'.heap && fd in w.sockets && p == w.sockets[fd] && p in w.heap && p !in order
            && (w'.heap[p].ServerSocket? <==> w.heap[p].ServerSocket?)
  {}

  lemma OneMoreIsLate(w: World, w': World, w2: World, order: seq<Ptr>, p: Ptr)
    requires TableWithout(w, w', order) && Late(w, order) && Inv(w', None, None) && Inv(w2, None, None)
    requires p in w.heap && !w.heap[p].ServerSocket? && p !in order && p in w'.heap && Removed(w', w2, p)
    requires FdOf(w.heap[p]) in w.sockets && w.sockets[FdOf(w.heap[p])] == p
    ensures Late(w, order + [p]) && TableWithout(w, w2, order + [p])
  {
    OneIsRemoved(w', w2, p);
    hide Inv, Removed, Late;
    LongerIsLate(w, order, p);
    assert FdOf(w'.heap[p]) == FdOf(w.heap[p]);
    OneLineLess(w, w', w2, order, p);
  }

  lemma LongerIsLate(w: World, order: seq<Ptr>, p: Ptr)
    requires Late(w, order) && p in w.heap && !w.heap[p].ServerSocket? && p !in order
    ensures Late(w, order + [p])
  {}

  lemma OneLineLess(w: World, w': World, w2: World, order: seq<Ptr>, p: Ptr)
    requires TableWithout(w, w', order) && p in w.heap && FdOf(w.heap[p]) in w.sockets
    requires w.sockets[FdOf(w.heap[p])] == p && w2.sockets == w'.sockets - {FdOf(w.heap[p])}
    requires forall fd | fd in w2.sockets ::
               && w2.sockets[fd] in w2.heap && FdOf(w2.heap[w2.sockets[fd]]) == fd && w'.sockets[fd] in w'.heap
               && (w2.heap[w2.sockets[fd]].ServerSocket? <==> w'.heap[w'.sockets[fd]].ServerSocket?)
    ensures TableWithout(w, w2, order + [p])
  {
    assert forall x :: x in order + [p] <==> x in order || x == p;
  }

  lemma LateAreLive(w: World, order: seq<Ptr>)
    requires Late(w, order)
    ensures forall p | p in order :: p in w.heap && !w.heap[p].ServerSocket?
  {}

  lemma AllAreInTable(w: World)
    requires Inv(w, None, None)
    ensures forall p | p in w.heap :: FdOf(w.heap[p]) in w.sockets && w.sockets[FdOf(w.heap[p])] == p
  {}

  lemma TableIsLeft(w: World, w': World, order: seq<Ptr>)
    requires TableWithout(w, w', order)
    ensures w'.sockets == Without(w.sockets, order)
  {
    var left := Without(w.sockets, order);
    forall fd ensures fd in w'.sockets <==> fd in left {
      if fd in w.sockets && w.sockets[fd] !in order {
        assert fd in w'.sockets;
      }
    }
    forall fd | fd in left ensures left[fd] == w'.sockets[fd] {}
    assert w'.sockets == left;
  }

  /** Whatever HandleTimeout sent is gone with the client. */
  lemma TimedOutClientIsForgotten(w: World, p: Ptr, c: Client)
    requires IsClient(w, p) && SafeToDelete(OnTimeout(w, p), p)
    requires c.cgi == w.heap[p].client.cgi && c.fd == w.heap[p].client.fd
    ensures var w1 := Deregister(SetClient(w, p, c), p);
            SafeToDelete(w1, p) && Remove(w1, p) == Expire(w, p)
  {
    assert w.heap[p := ClientSocket(c)] - {p} == w.heap - {p};
    if c.cgi.Some? {
      var q := c.cgi.value;
      assert w.heap[p := ClientSocket(c)][q := w.heap[q]] - {p} == w.heap - {p};
      var g := CgiSocket(w.heap[q].cgi.(owner := None));
      assert w.heap[p := ClientSocket(c)][q := g] - {p} == w.heap[q := g] - {p};
    }
  }

  lemma OneIsCleared(w: World, p: Ptr)
    requires Inv(w, None, None) && w.batch == [] && p in w.heap
    ensures SafeToDelete(w, p) && Removed(w, Remove(w, p), p)
    ensures Inv(Remove(w, p), None, None) && Remove(w, p).batch == []
  {
    hide Owned, KernelOk, Remove;
    assert !InBatch(w, p);
    RemoveKeepsOwned(w, None, None, p);
    RemoveKernel(w, p, None, None);
  }

  lemma InitHasNoBatch(w: World)
    requires IsInit(w)
    ensures w.batch == []
  {}

  function WithListener(w: World, p: Ptr, fd: int): World {
    w.(heap := w.heap[p := ServerSocket(fd)], sockets := w.sockets[fd := p], kernel := Open(w.kernel, p))
  }

  lemma ListenerKernel(w: World, p: Ptr, fd: int)
    requires IsInit(w) && Fresh(w, p, fd)
    ensures var w1 := WithListener(w, p, fd);
            && KernelOk(w1.kernel, w1.heap.Keys, Some(p), None) && Clean(w1.kernel)
            && KernelOk(Watch(w1.kernel, p), w1.heap.Keys, None, None) && Clean(Watch(w1.kernel, p))
            && w1.kernel.procs == map[] && Watch(w1.kernel, p).procs == map[]
  {
    var w1 := WithListener(w, p, fd);
    OpenKernel(w.kernel, w.heap.Keys, p);
    assert w1.heap.Keys == w.heap.Keys + {p};
    ContinuesClean(w.kernel, w1.kernel);
    WatchKernel(w1.kernel, w1.heap.Keys, p, None);
  }

  /** A listener that epoll accepts is one more live, watched socket. */
  lemma ListenerKeepsInit(w: World, p: Ptr, fd: int)
    requires IsInit(w) && Fresh(w, p, fd)
    ensures var w1 := WithListener(w, p, fd);
            SafeToDelete(w1, p) && IsInit(w1.(kernel := Watch(w1.kernel, p)))
  {
    hide KernelOk, Clean, Watch, Open;
    ListenerKernel(w, p, fd);
    ListenerIsRegistered(w, p, fd, WithListener(w, p, fd).(kernel := Watch(Open(w.kernel, p), p)));
  }

  lemma ListenerIsRegistered(w: World, p: Ptr, fd: int, w': World)
    requires Registered(w, None) && Fresh(w, p, fd)
    requires w'.heap == w.heap[p := ServerSocket(fd)] && w'.sockets == w.sockets[fd := p]
    ensures Registered(w', None)
  {}

  /** One that cannot listen is closed before it is entered anywhere. */
  lemma UnboundListenerGoes(w: World, p: Ptr)
    requires IsInit(w) && p !in w.heap
    ensures IsInit(w.(kernel := Close(Open(w.kernel, p), p)))
  {
    hide KernelOk, Clean, Open, Close;
    OpenedAndClosed(w.kernel, w.heap.Keys, p);
  }

  /** One that epoll refuses is deleted, and all is as before. */
  lemma RefusedListenerGoes(w: World, p: Ptr, fd: int)
    requires IsInit(w) && Fresh(w, p, fd)
    ensures var w1 := WithListener(w, p, fd);
            && SafeToDelete(w1, p) && IsInit(Remove(w1, p))
            && Remove(w1, p).heap == w.heap && Remove(w1, p).sockets == w.sockets
  {
    hide KernelOk, Clean, Open, Close;
    ServerIsForgotten(w, p, fd);
    OpenedAndClosed(w.kernel, w.heap.Keys, p);
  }

  lemma ServerIsForgotten(w: World, p: Ptr, fd: int)
    requires Fresh(w, p, fd)
    ensures var w1 := WithListener(w, p, fd);
            SafeToDelete(w1, p) && Remove(w1, p) == w.(kernel := Close(Open(w.kernel, p), p))
  {
    hide Open, Close;
    assert w.heap[p := ServerSocket(fd)] - {p} == w.heap && w.sockets[fd := p] - {fd} == w.sockets;
  }

  lemma SomeElement(s: set<int>)
    requires s != {}
    ensures exists x :: x in s
  {
    if forall x :: x !in s {
      assert false;
    }
  }

  lemma TableIsLive(w: World)
    requires Inv(w, None, None)
    ensures forall fd | fd in w.sockets :: w.sockets[fd] in w.heap && FdOf(w.heap[w.sockets[fd]]) == fd
  {}

  lemma EmptyTable(w: World)
    requires Inv(w, None, None) && w.sockets.Keys == {}
    ensures w.heap == map[] && w.sockets == map[]
    ensures |w.buried| == w.forked && forall i | 0 <= i < |w.buried| :: w.buried[i].waits == 1
  {
    assert w.heap.Keys == {};
    assert LiveCgis(w) == {};
  }
}
