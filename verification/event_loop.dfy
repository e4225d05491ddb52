/** The epoll loop of Webserv with its sockets, as steps on a state. Addresses are numbers: an
    object is live while its address is in `heap`, so reading a deleted object is a violated
    precondition. Results of system calls come in as an `Os` value per event. The kernel's part
    is state as well: open files, the interest list of the epoll instance, and the processes
    that hold inherited descriptors, none of which is close-on-exec. */
module EventLoop {
  import opened Text
  import opened RequestParser
  import Chunked
  import opened StreamParser
  import opened Kernels
  import opened HttpResponses
  import CgiResponses

  /** The epoll mask of a client: EPOLLIN until a response is ready, then EPOLLOUT. */
  datatype Interest = Reading | Writing

  /** What RequestHandler::Run returned. An asynchronous result carries a response of its own, 200.
      `stray` is a child that was forked but got no CgiSocket because its constructor threw. */
  datatype Dispatch =
    | Sync(response: Response, stray: Option<int>)
    | Async(ptr: Ptr, fd: int, pid: int)

  /** What made write_buffer_ be written, and when: RequestHandler::Run returned, HandleEpollIn threw a
      status, or the CGI's output ended. `chunks` is what read returned, `exited` whether the child
      exited with 0, and `told` whether epoll accepted the new mask. */
  datatype Cause =
    | Ran(dispatch: Dispatch, date: string)
    | Threw(status: Status, date: string)
    | Ended(chunks: seq<string>, exited: bool, told: bool, date: string)

  /** ClientSocket. Behind the bar: what the history of the connection was. `limit` is the body limit
      it was made with, `pieces` is what recv has returned, `asked` are the requests that
      RequestHandler::Run was entered with, and `causes` is what has called for an answer since. */
  datatype Client = Client(
    fd: int, req: Request, cgi: Option<Ptr>, out: string, interest: Interest,
    /* | */ sent: string, threw: bool, overlapped: bool,
    limit: nat, pieces: seq<string>, asked: seq<Request>, causes: seq<Cause>)

  function NewClient(fd: int, limit: nat): Client {
    Client(fd, Initial(limit), None, "", Reading, "", false, false, limit, [], [], [])
  }

  /** CgiSocket; `waits` counts waitpid calls for its child, and `chunks` is what read has returned. */
  datatype Cgi = Cgi(fd: int, pid: int, owner: Option<Ptr>, readBuffer: string,
                     /* | */ waits: nat, chunks: seq<string>)

  function NewCgi(fd: int, pid: int, owner: Ptr): Cgi {
    Cgi(fd, pid, Some(owner), "", 0, [])
  }

  datatype Socket = ServerSocket(sfd: int) | ClientSocket(client: Client) | CgiSocket(cgi: Cgi)

  function FdOf(s: Socket): int {
    match s
    case ServerSocket(fd) => fd
    case ClientSocket(c) => c.fd
    case CgiSocket(g) => g.fd
  }

  /** One entry of the array that epoll_wait fills. */
  datatype Event = Event(ptr: Ptr, readable: bool, writable: bool)

  /** `sockets` is sockets_; `buried` and `forked` record deleted and created CgiSockets. */
  datatype World = World(sockets: map<int, Ptr>, heap: map<Ptr, Socket>, batch: seq<Event>,
                         buried: seq<Cgi>, forked: nat, kernel: Kernel)

  datatype Accepted = Accepted(ptr: Ptr, fd: int, limit: nat)

  /** The results of the system calls that handling one event may make. */
  datatype Os = Os(
    accepted: Option<Accepted>,   // accept and the ClientSocket constructor
    received: Option<string>,     // recv on a client, at least one byte; None for a result <= 0
    afterThrow: Request,          // whatever a throwing Parse leaves in the parser
    dispatch: Dispatch,           // RequestHandler::Run
    modified: bool,               // EPOLL_CTL_MOD after a response was prepared
    refusal: Status,              // what the errno of its failure is mapped to
    modifiedOnThrow: bool,        // EPOLL_CTL_MOD in the exception handler
    sentBytes: Option<nat>,       // send; None for -1
    cgiData: Option<string>,      // read on a CGI; None for a result <= 0
    exited: bool,                 // whether waitpid says that the CGI exited with 0
    registered: bool,             // EPOLL_CTL_ADD of a new socket
    date: string)                 // the time, as a Date header has it

  // ---------- handlers ----------

  function SetClient(w: World, p: Ptr, c: Client): World {
    w.(heap := w.heap[p := ClientSocket(c)])
  }

  function SetCgi(w: World, p: Ptr, g: Cgi): World {
    w.(heap := w.heap[p := CgiSocket(g)])
  }

  function Deregister(w: World, p: Ptr): World {
    w.(kernel := Unwatch(w.kernel, p))
  }

  /** Assigning write_buffer_; a response that was already partly sent is overlapped. */
  function Respond(c: Client, text: string): Client {
    c.(out := text, overlapped := c.overlapped || c.sent != "")
  }

  predicate IsClient(w: World, p: Ptr) { p in w.heap && w.heap[p].ClientSocket? }
  predicate IsCgi(w: World, p: Ptr) { p in w.heap && w.heap[p].CgiSocket? }

  /** The kernel and the allocator hand out descriptors and addresses that are not in use. */
  predicate Fresh(w: World, p: Ptr, fd: int) {
    p !in w.heap && fd !in w.sockets
  }

  /** fork returns the identity of no running process and of no child that is to be waited for. */
  predicate FreshPid(w: World, pid: int) {
    pid > 0 && pid !in w.kernel.procs && forall q | q in w.heap && w.heap[q].CgiSocket? :: w.heap[q].cgi.pid != pid
  }

  predicate Contract(w: World, os: Os) {
    && (os.received.Some? ==> os.received.value != "")
    && (os.dispatch.Async? ==> Fresh(w, os.dispatch.ptr, os.dispatch.fd) && FreshPid(w, os.dispatch.pid))
    && (os.dispatch.Sync? && os.dispatch.stray.Some? ==> FreshPid(w, os.dispatch.stray.value))
    && (os.accepted.Some? ==>
          Fresh(w, os.accepted.value.ptr, os.accepted.value.fd) && os.accepted.value.limit < Chunked.SIGN_BOUND)
  }

  /** SocketResult with the state it was returned in. */
  datatype Handled = Handled(w: World, created: Option<Ptr>, remove: bool)

  /** How HandleEpollIn is left. */
  datatype Input =
    | Returned(w: World, created: Option<Ptr>)
    | ThrewStatus(w: World, status: Status)
    | ThrewClosed(w: World)

  /** How HandleEpollOut is left; Closed is the ConnectionClosed exception. */
  datatype Output = Kept(w: World) | Closed(w: World)

  /** The part of HandleEpollIn behind RequestHandler::Run. */
  function TakeResult(w: World, p: Ptr, c: Client, os: Os): (r: Input)
    requires IsClient(w, p) && Contract(w, os)
    ensures IsClient(r.w, p)
  {
    match os.dispatch
    case Async(q, fd, pid) =>
      var w1 := SetClient(w, p, Respond(c, ToText(WithStatus(200), os.date)).(cgi := Some(q)));
      var w2 := SetCgi(w1, q, NewCgi(fd, pid, p));
      Returned(w2.(forked := w.forked + 1, kernel := Open(Fork(w.kernel, pid), q)), Some(q))
    case Sync(response, stray) =>
      var w1 := if stray.Some? then w.(kernel := Fork(w.kernel, stray.value)) else w;
      var c1 := Respond(c, ToText(response, os.date));
      if os.modified then Returned(SetClient(w1, p, c1.(interest := Writing)), None)
      else ThrewStatus(SetClient(w1, p, c1.(causes := c1.causes + [Threw(os.refusal, os.date)])), os.refusal)
  }

  /** ClientSocket::HandleEpollIn. */
  function ClientIn(w: World, p: Ptr, os: Os): (r: Input)
    requires IsClient(w, p) && Contract(w, os)
    ensures IsClient(r.w, p)
  {
    var c := w.heap[p].client;
    match os.received
    case None => ThrewClosed(w)
    case Some(data) =>
      var c1 := c.(pieces := c.pieces + [data]);
      match Parse(c.req, data)
      case Err(status) =>
        var c2 := c1.(req := os.afterThrow, threw := true, causes := c.causes + [Threw(status, os.date)]);
        ThrewStatus(SetClient(w, p, c2), status)
      case Ok(r) =>
        if r.phase != DonePhase then Returned(SetClient(w, p, c1.(req := r)), None)
        else TakeResult(w, p, Entered(c1, r, os), os)
  }

  /** The history of a client for which RequestHandler::Run was entered, and has returned. */
  function Entered(c: Client, r: Request, os: Os): Client {
    c.(req := r, asked := c.asked + [r], causes := c.causes + [Ran(os.dispatch, os.date)])
  }

  /** ClientSocket::HandleEpollOut. */
  function ClientOut(w: World, p: Ptr, os: Os): (r: Output)
    requires IsClient(w, p)
    ensures IsClient(r.w, p)
  {
    var c := w.heap[p].client;
    if c.out == "" then Kept(w)
    else match os.sentBytes
         case None => Closed(w)
         case Some(n) =>
           if n < |c.out| then Kept(SetClient(w, p, c.(sent := c.sent + c.out[..n], out := c.out[n..])))
           else Closed(SetClient(w, p, c.(sent := c.sent + c.out, out := "")))
  }

  /** The handler for ResponseStatusException in ClientSocket::HandleEvent. */
  function CatchStatus(w: World, p: Ptr, status: Status, os: Os): Handled
    requires IsClient(w, p)
  {
    var c := Respond(w.heap[p].client, ToText(ErrorPage(Code(status)), os.date));
    if os.modifiedOnThrow then Handled(SetClient(w, p, c.(interest := Writing)), None, false)
    else Handled(Deregister(SetClient(w, p, c), p), None, true)
  }

  /** ClientSocket::HandleEvent. */
  function ClientEvent(w: World, e: Event, os: Os): Handled
    requires IsClient(w, e.ptr) && Contract(w, os)
  {
    var input := if e.readable then ClientIn(w, e.ptr, os) else Returned(w, None);
    match input
    case ThrewStatus(w1, status) => CatchStatus(w1, e.ptr, status, os)
    case ThrewClosed(w1) => Handled(Deregister(w1, e.ptr), None, true)
    case Returned(w1, created) =>
      if !e.writable then Handled(w1, created, false)
      else match ClientOut(w1, e.ptr, os)
           case Kept(w2) => Handled(w2, created, false)
           case Closed(w2) => Handled(Deregister(w2, e.ptr), created, true)
  }

  /** ServerSocket::HandleEvent. */
  function ServerEvent(w: World, e: Event, os: Os): Handled
    requires Contract(w, os)
  {
    match os.accepted
    case None => Handled(w, None, false)
    case Some(a) =>
      if !e.readable then Handled(w, None, false)
      else
        Handled(SetClient(w, a.ptr, NewClient(a.fd, a.limit)).(kernel := Open(w.kernel, a.ptr)), Some(a.ptr), false)
  }

  /** A CgiSocket's owner, if any, is there to be told. */
  predicate OwnerIsLive(w: World, p: Ptr) {
    IsCgi(w, p) && (w.heap[p].cgi.owner.Some? ==> IsClient(w, w.heap[p].cgi.owner.value))
  }

  /** The response of OnCgiExecutionFinished: every exception becomes 500. */
  function Finished(output: string): Response {
    match CgiResponses.ParseOutput(output)
    case Ok(response) => response
    case Err(_) => ErrorPage(500)
  }

  /** OnCgiExecutionFinished and OnCgiExecutionError. */
  function TellOwner(c: Client, g: Cgi, os: Os): Client {
    var response := if os.exited then Finished(g.readBuffer) else WithStatus(500);
    var told := c.(causes := c.causes + [Ended(g.chunks, os.exited, os.modified, os.date)]);
    var c1 := Respond(told, ToText(response, os.date));
    if os.modified then c1.(interest := Writing) else c1
  }

  /** CgiSocket::HandleEvent. */
  function CgiEvent(w: World, e: Event, os: Os): Handled
    requires OwnerIsLive(w, e.ptr)
  {
    var g := w.heap[e.ptr].cgi;
    if !e.readable then Handled(w, None, false)
    else match os.cgiData
         case Some(data) =>
           Handled(SetCgi(w, e.ptr, g.(readBuffer := g.readBuffer + data, chunks := g.chunks + [data])), None, false)
         case None =>
           var k := Reap(w.kernel, g.pid);
           var w2 := SetCgi(w, e.ptr, g.(pid := -1, waits := g.waits + 1)).(kernel := Unwatch(k, e.ptr));
           if !IsWatched(k, e.ptr) || g.owner.None? then Handled(w2, None, true)
           else
             Handled(SetClient(w2, g.owner.value, TellOwner(w.heap[g.owner.value].client, g, os)), None, true)
  }

  // ---------- deletion ----------

  /** What a destructor dereferences is live. */
  predicate SafeToDelete(w: World, p: Ptr) {
    p in w.heap &&
    match w.heap[p]
    case ServerSocket(_) => true
    case ClientSocket(c) => c.cgi.Some? ==> IsCgi(w, c.cgi.value)
    case CgiSocket(_) => OwnerIsLive(w, p)
  }

  /** The destructors ~ClientSocket and ~CgiSocket on the other sockets. */
  function Detach(w: World, p: Ptr): World
    requires SafeToDelete(w, p)
  {
    match w.heap[p]
    case ServerSocket(_) => w.(heap := w.heap - {p})
    case ClientSocket(c) =>
      var w1 := if c.cgi.None? then w
                else SetCgi(w, c.cgi.value, w.heap[c.cgi.value].cgi.(owner := None));
      w1.(heap := w1.heap - {p})
    case CgiSocket(g) =>
      var w1 := if g.owner.None? then w
                else
                  var c := w.heap[g.owner.value].client;
                  if c.cgi == Some(p) then SetClient(w, g.owner.value, c.(cgi := None)) else w;
      var g1 := if g.pid > 0 then g.(pid := -1, waits := g.waits + 1) else g;
      w1.(heap := w1.heap - {p}, buried := w1.buried + [g1])
  }

  /** The destructors: a CgiSocket kills its child and waits for it, and the descriptor is closed last. */
  function Delete(w: World, p: Ptr): World
    requires SafeToDelete(w, p)
  {
    var waits := w.heap[p].CgiSocket? && w.heap[p].cgi.pid > 0;
    Detach(w, p).(kernel := Close(if waits then Reap(w.kernel, w.heap[p].cgi.pid) else w.kernel, p))
  }

  /** `sockets_.erase(fd)` and `delete`. */
  function Remove(w: World, p: Ptr): World
    requires SafeToDelete(w, p)
  {
    Delete(w.(sockets := w.sockets - {FdOf(w.heap[p])}), p)
  }

  // ---------- one pass of the event loop ----------

  predicate Ready(w: World) {
    w.batch != [] && w.batch[0].ptr in w.heap &&
    (w.heap[w.batch[0].ptr].CgiSocket? ==> OwnerIsLive(w, w.batch[0].ptr))
  }

  /** `socket->HandleEvent` for the next event of the batch. */
  function Call(w: World, os: Os): Handled
    requires Ready(w) && Contract(w, os)
  {
    var e, w0 := w.batch[0], w.(batch := w.batch[1..]);
    match w.heap[e.ptr]
    case ServerSocket(_) => ServerEvent(w0, e, os)
    case ClientSocket(_) => ClientEvent(w0, e, os)
    case CgiSocket(_) => CgiEvent(w0, e, os)
  }

  /** ClientSocket::HandleTimeout deregisters; a CgiSocket inherits the one that does nothing. */
  function OnTimeout(w: World, p: Ptr): World
    requires p in w.heap
  {
    if w.heap[p].ClientSocket? then Deregister(w, p) else w
  }

  /** Entering a new socket into sockets_, or deleting it again when epoll refuses it. */
  function Register(w: World, created: Option<Ptr>, registered: bool): World
    requires created.Some? ==> SafeToDelete(w, created.value)
  {
    if created.None? then w
    else
      var w1 := w.(sockets := w.sockets[FdOf(w.heap[created.value]) := created.value]);
      if registered then w1.(kernel := Watch(w1.kernel, created.value)) else Remove(w1, created.value)
  }
}
