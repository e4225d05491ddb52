/** Safety of the event loop over all runs, exactly when its interest list stays clean, and a run
    in which it does not. */
module EventRuns {
  import opened Text
  import opened StreamParser
  import opened RequestParser
  import opened Kernels
  import opened EventLoop
  import opened EventTheorems
  import opened Timeouts
  import opened RequestHead
  import opened HeadTheorems
  import opened FieldTheorems
  import opened RequestTheorems
  import opened HttpResponses

  // ---------- what epoll_wait reports ----------

  /** What epoll_wait says of one entry. */
  datatype Report = Report(file: File, readable: bool, writable: bool)

  /** The entry's pointer names the socket it was registered for, which is live. */
  predicate NamesItsSocket(w: World, r: Report) {
    var k := w.kernel;
    r.file in k.watch && k.watch[r.file] in k.files && k.files[k.watch[r.file]] == r.file
  }

  /** No event that a client's mask does not ask for. */
  predicate Asked(w: World, r: Report)
    requires r.file in w.kernel.watch
  {
    var p := w.kernel.watch[r.file];
    NamesItsSocket(w, r) && IsClient(w, p) ==>
      && (r.readable ==> w.heap[p].client.interest == Reading)
      && (r.writable ==> w.heap[p].client.interest == Writing)
  }

  /** epoll_wait reports distinct entries of the interest list. */
  predicate Reports(w: World, rs: seq<Report>) {
    && (forall i, j | 0 <= i < j < |rs| :: rs[i].file != rs[j].file)
    && (forall i | 0 <= i < |rs| :: rs[i].file in w.kernel.watch && Asked(w, rs[i]))
  }

  /** The events that Run finds in its array. */
  function Batch(k: Kernel, rs: seq<Report>): (events: seq<Event>)
    requires forall i | 0 <= i < |rs| :: rs[i].file in k.watch
    ensures |events| == |rs|
  {
    seq(|rs|, i requires 0 <= i < |rs| => Event(k.watch[rs[i].file], rs[i].readable, rs[i].writable))
  }

  function Receive(w: World, rs: seq<Report>): World
    requires Reports(w, rs)
  {
    w.(batch := Batch(w.kernel, rs))
  }

  /** Whatever is reported names the socket it is meant for. */
  ghost predicate ReportsAreLive(w: World) {
    forall rs: seq<Report>, i | Reports(w, rs) && 0 <= i < |rs| :: NamesItsSocket(w, rs[i])
  }

  lemma ReportsAreLiveExactlyWhenClean(w: World)
    ensures ReportsAreLive(w) <==> Clean(w.kernel)
  {
    if ReportsAreLive(w) {
      forall f | f in w.kernel.watch ensures w.kernel.watch[f] in w.kernel.files && w.kernel.files[w.kernel.watch[f]] == f {
        var rs := [Report(f, false, false)];
        assert Reports(w, rs) && NamesItsSocket(w, rs[0]);
      }
    }
    if Clean(w.kernel) {
      forall rs: seq<Report>, i | Reports(w, rs) && 0 <= i < |rs| ensures NamesItsSocket(w, rs[i]) {
        assert rs[i].file in w.kernel.watch;
      }
    }
  }

  lemma ReceivedBatchIsOk(w: World, rs: seq<Report>)
    requires Inv(w, None, None) && Clean(w.kernel) && Reports(w, rs)
    ensures BatchOk(Receive(w, rs))
  {
    hide ClientOk, CgiOk, MaskFits;
    var w' := Receive(w, rs);
    forall i | 0 <= i < |rs| ensures EventOk(w', w'.batch[i]) {
      assert rs[i].file in w.kernel.watch && Asked(w, rs[i]) && NamesItsSocket(w, rs[i]);
      assert w.kernel.watch[rs[i].file] in w.kernel.files.Keys;
      if IsClient(w, w.kernel.watch[rs[i].file]) {
        ClientFacts(w, w.kernel.watch[rs[i].file]);
      }
    }
    assert Distinct(w'.batch) by {
      forall i, j | 0 <= i < j < |rs| ensures w'.batch[i].ptr != w'.batch[j].ptr {
        assert NamesItsSocket(w, rs[i]) && NamesItsSocket(w, rs[j]);
      }
    }
  }

  lemma ReceiveKeepsInv(w: World, rs: seq<Report>)
    requires Inv(w, None, None) && w.batch == [] && Clean(w.kernel) && Reports(w, rs)
    ensures Inv(Receive(w, rs), None, None)
  {
    ReceivedBatchIsOk(w, rs);
    BatchKeepsLinks(w, Receive(w, rs).batch);
    BatchKeepsLocalRules(w, Receive(w, rs).batch);
    hide Registered, Linked, ClientsOk, CgisOk, Reaped, BatchOk, KernelOk, Clean, Reports;
  }

  lemma BatchKeepsLinks(w: World, batch: seq<Event>)
    requires Registered(w, None) && Linked(w)
    ensures Registered(w.(batch := batch), None) && Linked(w.(batch := batch))
  {
    var w' := w.(batch := batch);
    assert forall x :: (IsClient(w', x) <==> IsClient(w, x)) && (IsCgi(w', x) <==> IsCgi(w, x));
  }

  lemma BatchKeepsLocalRules(w: World, batch: seq<Event>)
    requires ClientsOk(w, None) && CgisOk(w, None) && Reaped(w)
    ensures var w' := w.(batch := batch);
            ClientsOk(w', None) && CgisOk(w', None) && Reaped(w')
  {
    hide ClientOk, Settled, CgiOk;
    var w' := w.(batch := batch);
    forall x | IsClient(w', x) ensures IsClient(w, x) {}
    forall x | IsCgi(w', x) ensures IsCgi(w, x) {}
    assert LiveCgis(w') == LiveCgis(w);
  }

  // ---------- runs ----------

  /** The loop's own steps, and what other processes do meanwhile: end, fork, close a file. */
  datatype Step =
    | Wait(reports: seq<Report>) | Handle(os: Os) | TimeOut(late: seq<Ptr>)
    | Exit(pid: int) | Spawn(pid: int, child: int) | Drop(pid: int, file: File)

  /** What the operating system and the loop allow next, without undefined behaviour. */
  predicate Enabled(w: World, step: Step) {
    match step
    case Wait(reports) => w.batch == [] && Reports(w, reports)
    case Handle(os) => w.batch != [] && Defined(w, os)
    case TimeOut(late) => w.batch == [] && Late(w, late) && CanExpire(w, late)
    case Exit(pid) => pid in w.kernel.procs
    case Spawn(pid, child) => pid in w.kernel.procs && FreshPid(w, child)
    case Drop(pid, file) => pid in w.kernel.procs
  }

  function Next(w: World, step: Step): World
    requires Enabled(w, step)
  {
    match step
    case Wait(reports) => Receive(w, reports)
    case Handle(os) => HandleNext(w, os)
    case TimeOut(late) => ExpireAll(w, late)
    case _ => w.(kernel := ForeignAct(w.kernel, step))
  }

  /** What a step of another process does to the kernel's state. */
  function ForeignAct(k: Kernel, step: Step): Kernel {
    match step
    case Exit(pid) => Reap(k, pid)
    case Spawn(pid, child) => if pid in k.procs then Share(k, pid, child) else k
    case Drop(pid, file) => if pid in k.procs then Forget(k, pid, file) else k
    case _ => k
  }

  predicate IsForeign(step: Step) {
    step.Exit? || step.Spawn? || step.Drop?
  }

  ghost predicate IsRun(w: World, steps: seq<Step>, end: World)
    decreases |steps|
  {
    if steps == [] then w == end
    else Enabled(w, steps[0]) && IsRun(Next(w, steps[0]), steps[1..], end)
  }

  /** In every state that the steps pass through, whatever epoll_wait reports names its socket. */
  ghost predicate AlwaysLive(w: World, steps: seq<Step>)
    decreases |steps|
  {
    && ReportsAreLive(w)
    && (steps != [] && Enabled(w, steps[0]) ==> AlwaysLive(Next(w, steps[0]), steps[1..]))
  }

  /** No call of CheckTimeout removes a CgiSocket whose descriptor a process holds that this call
      does not wait for. */
  ghost predicate NeverLeaks(w: World, steps: seq<Step>)
    decreases |steps|
  {
    steps != [] ==>
      && !(steps[0].TimeOut? && Leaks(w, steps[0].late))
      && (Enabled(w, steps[0]) ==> NeverLeaks(Next(w, steps[0]), steps[1..]))
  }

  /** After the Webserv constructor: only server sockets. */
  ghost predicate IsInit(w: World) {
    && w.batch == [] && w.buried == [] && w.forked == 0 && w.kernel.procs == map[]
    && (forall p | p in w.heap :: w.heap[p].ServerSocket?)
    && Registered(w, None) && KernelOk(w.kernel, w.heap.Keys, None, None) && Clean(w.kernel)
  }

  lemma InitHasInv(w: World)
    requires IsInit(w)
    ensures Inv(w, None, None) && Clean(w.kernel)
  {
    assert LiveCgis(w) == {};
  }

  lemma OtherProcessesKeepInv(w: World, step: Step)
    requires Inv(w, None, None) && Enabled(w, step) && IsForeign(step)
    ensures Inv(Next(w, step), None, None)
    ensures Clean(w.kernel) ==> Clean(Next(w, step).kernel)
  {
    hide Owned, KernelOk, Continues, Clean, Reap, Share, Forget;
    var k := Next(w, step).kernel;
    OwnedIgnoresKernel(w, k, None, None);
    match step {
      case Exit(pid) => ReapKernel(w.kernel, pid, w.heap.Keys, None, None);
      case Spawn(pid, child) => ShareKernel(w.kernel, pid, child, w.heap.Keys);
      case Drop(pid, file) => ForgetKernel(w.kernel, pid, file, w.heap.Keys);
      case _ =>
    }
    if Clean(w.kernel) {
      ContinuesClean(w.kernel, k);
    }
  }

  /** Every step keeps the invariant; a stale entry appears exactly with a leaking timeout. */
  lemma StepKeepsInv(w: World, step: Step)
    requires Inv(w, None, None) && Clean(w.kernel) && Enabled(w, step)
    ensures Inv(Next(w, step), None, None)
    ensures Clean(Next(w, step).kernel) <==> !(step.TimeOut? && Leaks(w, step.late))
  {
    hide Inv, Clean, HandleNext, ExpireAll, CanExpire, Late, Passed, Receive, Leaks, Reports, Defined;
    match step {
      case Wait(reports) =>
        ReceiveKeepsInv(w, reports);
        ReceiveKeepsClean(w, reports);
      case Handle(os) =>
        DefinedMeansContract(w, os);
        HandleNextKeepsInv(w, os);
      case TimeOut(late) =>
        PassIsCleanUnlessItLeaks(w, late);
        PassKeepsInv(w, late);
      case _ =>
        OtherProcessesKeepInv(w, step);
    }
  }

  lemma PassKeepsInv(w: World, late: seq<Ptr>)
    requires Inv(w, None, None) && w.batch == [] && Late(w, late)
    requires Clean(w.kernel)
    ensures CanExpire(w, late) && Inv(ExpireAll(w, late), None, None)
  {
    hide Inv, Late, Passed, ExpireAll, CanExpire;
    CleanMeansNoneIsStale(w.kernel);
    ExpireAllPasses(w, late);
  }

  lemma ReceiveKeepsClean(w: World, rs: seq<Report>)
    requires Clean(w.kernel) && Reports(w, rs)
    ensures Clean(Receive(w, rs).kernel)
  {}

  lemma DefinedMeansContract(w: World, os: Os)
    requires Defined(w, os)
    ensures Contract(w, os)
  {}

  /** Nothing that handling an event or a timeout dereferences is gone. */
  ghost predicate CanProceed(w: World) {
    && (w.batch != [] ==> forall os | Contract(w, os) :: Defined(w, os))
    && (w.batch == [] ==> forall late | Late(w, late) :: CanExpire(w, late))
  }

  /** The safety properties, spelled out. */
  ghost predicate Safe(w: World) {
    // sockets_ maps exactly each live socket's descriptor to it
    && (forall fd, p :: (fd in w.sockets && w.sockets[fd] == p) <==> (p in w.heap && FdOf(w.heap[p]) == fd))
    // a client's cgi_socket_ and a CGI's owner_ are live and name each other
    && (forall p, q :: IsClient(w, p) && w.heap[p].client.cgi == Some(q)
                       <==> IsCgi(w, q) && w.heap[q].cgi.owner == Some(p))
    // every pointer left in the batch is live
    && (forall i | 0 <= i < |w.batch| :: w.batch[i].ptr in w.heap)
    // the interest list has exactly the live sockets
    && (forall f, p :: (f in w.kernel.watch && w.kernel.watch[f] == p) <==> (p in w.heap && p in w.kernel.files && w.kernel.files[p] == f))
    && CanProceed(w)
    // RequestHandler::Run is entered at most once per connection, and only then a CGI is attached
    && (forall p | IsClient(w, p) ::
          var c := w.heap[p].client; |c.asked| <= 1 && (c.cgi.Some? ==> |c.asked| == 1))
    // sent bytes and write_buffer_ are the response, unless extra input was answered while a CGI ran
    && (forall p | IsClient(w, p) ::
          var c := w.heap[p].client;
          c.sent + c.out == TextOf(c.causes) || (c.overlapped && c.threw && |c.asked| == 1))
    // every child is waited for exactly once by the end of its socket's life, and not before
    && (forall i | 0 <= i < |w.buried| :: w.buried[i].waits == 1)
    && (forall q | IsCgi(w, q) :: w.heap[q].cgi.waits == 0 && w.heap[q].cgi.pid > 0)
    && w.forked == |w.buried| + |LiveCgis(w)|
  }

  lemma InvCanProceed(w: World)
    requires Inv(w, None, None) && Clean(w.kernel)
    ensures CanProceed(w)
  {
    hide Inv, Clean, Defined, Contract, HandleNext, CanExpire, Late;
    if w.batch != [] {
      forall os | Contract(w, os) ensures Defined(w, os) {
        HandleNextKeepsInv(w, os);
      }
    } else {
      forall late | Late(w, late) ensures CanExpire(w, late) {
        PassKeepsInv(w, late);
      }
    }
  }

  lemma InvIsSafe(w: World)
    requires Inv(w, None, None) && Clean(w.kernel)
    ensures Safe(w)
  {
    InvCanProceed(w);
    hide CanProceed, Valid, MaskFits, TextOf;
    forall i | 0 <= i < |w.batch| ensures w.batch[i].ptr in w.heap { assert EventOk(w, w.batch[i]); }
    assert w.kernel.files.Keys == w.heap.Keys;
  }

  lemma {:induction false} RunKeepsInv(w: World, steps: seq<Step>, end: World)
    requires Inv(w, None, None) && Clean(w.kernel) && IsRun(w, steps, end) && NeverLeaks(w, steps)
    ensures Inv(end, None, None) && Clean(end.kernel)
    decreases |steps|
  {
    hide Inv, Clean, Enabled, Next, Leaks;
    if steps != [] {
      StepKeepsInv(w, steps[0]);
      RunKeepsInv(Next(w, steps[0]), steps[1..], end);
    }
  }

  /** In every state of every run without a leaking timeout, whatever the system calls return, the
      event loop is safe. */
  lemma AllRunsAreSafe(w: World, steps: seq<Step>, end: World)
    requires IsInit(w) && IsRun(w, steps, end) && NeverLeaks(w, steps)
    ensures Safe(end)
  {
    InitHasInv(w);
    hide Inv, Clean;
    RunKeepsInv(w, steps, end);
    InvIsSafe(end);
  }

  /** That condition is exact: along a run, everything epoll_wait may report names its own live
      socket if and only if no call of CheckTimeout removes a CgiSocket whose descriptor a process
      still holds that the call does not wait for. */
  lemma LiveExactlyWithoutLeaks(w: World, steps: seq<Step>, end: World)
    requires IsInit(w) && IsRun(w, steps, end)
    ensures AlwaysLive(w, steps) <==> NeverLeaks(w, steps)
  {
    InitHasInv(w);
    hide Inv, Clean;
    LiveFromHere(w, steps, end);
  }

  lemma {:induction false} LiveFromHere(w: World, steps: seq<Step>, end: World)
    requires Inv(w, None, None) && Clean(w.kernel) && IsRun(w, steps, end)
    ensures AlwaysLive(w, steps) <==> NeverLeaks(w, steps)
    decreases |steps|
  {
    hide Inv, Clean, Enabled, Next, Leaks, ReportsAreLive;
    ReportsAreLiveExactlyWhenClean(w);
    if steps != [] {
      var w' := Next(w, steps[0]);
      StepKeepsInv(w, steps[0]);
      ReportsAreLiveExactlyWhenClean(w');
      if Clean(w'.kernel) {
        LiveFromHere(w', steps[1..], end);
      }
    }
  }

  // ---------- a run that leaks ----------

  /** epoll_wait may report `p` first, and handling that event is undefined, whatever else happens. */
  ghost predicate MayTouch(w: World, p: Ptr) {
    exists rs :: w.batch == [] && Reports(w, rs) && rs != [] && Receive(w, rs).batch[0].ptr == p
                 && forall os :: !Enabled(Receive(w, rs), Handle(os))
  }

  lemma StrandedEntryStays(w: World, late: seq<Ptr>, p: Ptr)
    requires Inv(w, None, None) && Clean(w.kernel) && w.batch == [] && Late(w, late) && Strands(w, late, p)
    ensures CanExpire(w, late)
    ensures var w', f := ExpireAll(w, late), w.kernel.files[p];
            && w'.batch == [] && p !in w'.heap && p !in w'.kernel.files
            && f in w'.kernel.watch && w'.kernel.watch[f] == p
  {
    hide Inv, IsStale, Late, Held, Children, ExpireAll;
    CleanMeansNoneIsStale(w.kernel);
    ExpireAllPasses(w, late);
    var w', f := ExpireAll(w, late), w.kernel.files[p];
    assert Orphaned(w, late, f) && IsStale(w'.kernel, f);
    EntryNamesSocket(w, p);
    InvHasKernel(w');
    StaleIsWatched(w'.kernel, f);
    NoFileNoSocket(w', p);
  }

  lemma StaleIsWatched(k: Kernel, f: File)
    requires IsStale(k, f)
    ensures f in k.watch
  {}

  lemma EntryNamesSocket(w: World, p: Ptr)
    requires Inv(w, None, None) && p in w.kernel.files
    ensures w.kernel.files[p] in w.kernel.watch && w.kernel.watch[w.kernel.files[p]] == p
  {}

  lemma NoFileNoSocket(w: World, p: Ptr)
    requires KernelOk(w.kernel, w.heap.Keys, None, None) && p !in w.kernel.files
    ensures p !in w.heap
  {
    assert p !in w.kernel.files.Keys;
  }

  /** Behind a leaking call of CheckTimeout epoll_wait may report the deleted socket's pointer, and
      handling that event is undefined whatever else happens. */
  lemma LeakedEntryIsReported(w: World, late: seq<Ptr>, p: Ptr)
    requires Inv(w, None, None) && Clean(w.kernel) && w.batch == [] && Late(w, late) && Strands(w, late, p)
    ensures Enabled(w, TimeOut(late))
    ensures MayTouch(Next(w, TimeOut(late)), p) && p !in Next(w, TimeOut(late)).heap
  {
    hide Inv, ExpireAll, MayTouch, Held, Children, Late;
    StrandedEntryStays(w, late, p);
    StaleIsReported(ExpireAll(w, late), w.kernel.files[p]);
  }

  lemma StaleIsReported(w: World, f: File)
    requires w.batch == [] && f in w.kernel.watch && w.kernel.watch[f] !in w.heap && w.kernel.watch[f] !in w.kernel.files
    ensures MayTouch(w, w.kernel.watch[f])
  {
    hide CanFinish, Contract;
    var rs := [Report(f, true, false)];
    assert Reports(w, rs) && rs != [];
    assert !NamesItsSocket(w, rs[0]);
    forall os ensures !Enabled(Receive(w, rs), Handle(os)) {
      assert !Ready(Receive(w, rs));
    }
  }

  const START := World(map[3 := 0], map[0 := ServerSocket(3)], [], [], 0, Kernel(map[0 := 0], 1, map[0 := 0], map[]))

  function AcceptOs(p: Ptr, fd: int): Os {
    Os(Some(Accepted(p, fd, 0)), None, Initial(0), Sync(WithStatus(200), None), true, BadRequest, true, None, None, true,
       true, "")
  }

  function DispatchOs(request: string, q: Ptr, fd: int, pid: int): Os {
    Os(None, Some(request), Initial(0), Async(q, fd, pid), true, BadRequest, true, None, None, true, true, "")
  }

  predicate IsComplete(request: string) {
    request != "" && Parse(Initial(0), request).Ok? && Parse(Initial(0), request).value.phase == DonePhase
  }

  function Dispatched(fd: int, request: string, q: Ptr, qfd: int, pid: int): Client
    requires IsComplete(request)
  {
    var r := Parse(Initial(0), request).value;
    NewClient(fd, 0).(req := r, pieces := [request], asked := [r], cgi := Some(q),
                      out := ToText(WithStatus(200), ""), causes := [Ran(Async(q, qfd, pid), "")])
  }

  lemma Accepts(w: World, s: Ptr, q: Ptr, fd: int)
    requires w.batch == [Event(s, true, false)] && s in w.heap && w.heap[s].ServerSocket? && Fresh(w, q, fd)
    ensures Defined(w, AcceptOs(q, fd))
    ensures HandleNext(w, AcceptOs(q, fd))
         == w.(batch := [], heap := w.heap[q := ClientSocket(NewClient(fd, 0))], sockets := w.sockets[fd := q],
               kernel := Watch(Open(w.kernel, q), q))
  {}

  /** The client at `p` has its request complete, and the CgiSocket at `q` is attached to it. */
  function WithCgi(w: World, p: Ptr, fd: int, request: string, q: Ptr, qfd: int, pid: int): World
    requires IsComplete(request)
  {
    w.(heap := w.heap[p := ClientSocket(Dispatched(fd, request, q, qfd, pid))][q := CgiSocket(NewCgi(qfd, pid, p))],
       forked := w.forked + 1, kernel := Open(Fork(w.kernel, pid), q))
  }

  lemma FirstInput(w: World, p: Ptr, fd: int, request: string, q: Ptr, qfd: int, pid: int)
    requires IsComplete(request) && p in w.heap && w.heap[p] == ClientSocket(NewClient(fd, 0))
    requires Fresh(w, q, qfd) && FreshPid(w, pid)
    ensures var os := DispatchOs(request, q, qfd, pid);
            Contract(w, os) && ClientIn(w, p, os) == Returned(WithCgi(w, p, fd, request, q, qfd, pid), Some(q))
  {
    hide Parse, ToText, Open, Fork, NewCgi;
    var os := DispatchOs(request, q, qfd, pid);
    assert [] + [request] == [request] && [] + [Ran(os.dispatch, "")] == [Ran(os.dispatch, "")];
    forall r: Request ensures [] + [r] == [r] {}
  }

  lemma Dispatches(w: World, p: Ptr, fd: int, rest: seq<Event>, request: string, q: Ptr, qfd: int, pid: int)
    requires w.batch == [Event(p, true, false)] + rest && IsComplete(request)
    requires p in w.heap && w.heap[p] == ClientSocket(NewClient(fd, 0)) && Fresh(w, q, qfd) && FreshPid(w, pid)
    ensures Defined(w, DispatchOs(request, q, qfd, pid))
    ensures HandleNext(w, DispatchOs(request, q, qfd, pid))
         == WithCgi(w, p, fd, request, q, qfd, pid).(batch := rest, sockets := w.sockets[qfd := q],
                                                    kernel := Watch(Open(Fork(w.kernel, pid), q), q))
  {
    hide ClientIn, ToText, IsComplete, Open, Fork, Watch;
    assert w.batch[1..] == rest;
    FirstInput(w.(batch := rest), p, fd, request, q, qfd, pid);
  }

  const CONNECTING := [Wait([Report(0, true, false)]), Handle(AcceptOs(1, 4)),
                       Wait([Report(0, true, false)]), Handle(AcceptOs(2, 5))]

  function Dispatching(request: string): seq<Step> {
    [Wait([Report(1, true, false), Report(2, true, false)]),
     Handle(DispatchOs(request, 3, 6, 100)), Handle(DispatchOs(request, 4, 7, 101))]
  }

  ghost predicate CleanRun(w: World, steps: seq<Step>, end: World) {
    IsRun(w, steps, end) && NeverLeaks(w, steps)
  }

  lemma OneStep(w: World, step: Step, w': World, steps: seq<Step>, end: World)
    requires Enabled(w, step) && Next(w, step) == w' && CleanRun(w', steps, end)
    requires step.TimeOut? ==> !Leaks(w, step.late)
    ensures CleanRun(w, [step] + steps, end)
  {
    assert ([step] + steps)[1..] == steps;
  }

  /** Two clients are connected. */
  const CONNECTED := World(map[3 := 0, 4 := 1, 5 := 2],
                           map[0 := ServerSocket(3), 1 := ClientSocket(NewClient(4, 0)), 2 := ClientSocket(NewClient(5, 0))],
                           [], [], 0, KERNEL2)

  const KERNEL2 := Kernel(map[0 := 0, 1 := 1, 2 := 2], 3, map[0 := 0, 1 := 1, 2 := 2], map[])
  const KERNEL3 := Kernel(map[0 := 0, 1 := 1, 2 := 2, 3 := 3], 4, map[0 := 0, 1 := 1, 2 := 2, 3 := 3],
                          map[100 := {0, 1, 2}])
  const KERNEL4 := Kernel(map[0 := 0, 1 := 1, 2 := 2, 3 := 3, 4 := 4], 5, map[0 := 0, 1 := 1, 2 := 2, 3 := 3, 4 := 4],
                          map[100 := {0, 1, 2}, 101 := {0, 1, 2, 3}])

  lemma KernelSteps()
    ensures Watch(Open(Fork(KERNEL2, 100), 3), 3) == KERNEL3
    ensures Watch(Open(Fork(KERNEL3, 101), 4), 4) == KERNEL4
  {
    var m := KERNEL3.files;
    assert m[0] == 0 && m[1] == 1 && m[2] == 2 && m[3] == 3;
    assert m.Values == {0, 1, 2, 3};
    var l := KERNEL2.files;
    assert l[0] == 0 && l[1] == 1 && l[2] == 2;
    assert l.Values == {0, 1, 2};
  }

  /** The first has its CGI program; the second one's request is about to be read. */
  function OneRunning(request: string): World
    requires IsComplete(request)
  {
    World(map[3 := 0, 4 := 1, 5 := 2, 6 := 3],
          map[0 := ServerSocket(3),
              1 := ClientSocket(Dispatched(4, request, 3, 6, 100)), 2 := ClientSocket(NewClient(5, 0)),
              3 := CgiSocket(NewCgi(6, 100, 1))],
          [Event(2, true, false)], [], 1, KERNEL3)
  }

  /** Each has its CGI program; the second one holds the descriptor of the first one's socket. */
  function BothRunning(request: string): World
    requires IsComplete(request)
  {
    World(map[3 := 0, 4 := 1, 5 := 2, 6 := 3, 7 := 4],
          map[0 := ServerSocket(3),
              1 := ClientSocket(Dispatched(4, request, 3, 6, 100)), 2 := ClientSocket(Dispatched(5, request, 4, 7, 101)),
              3 := CgiSocket(NewCgi(6, 100, 1)), 4 := CgiSocket(NewCgi(7, 101, 2))],
          [], [], 2, KERNEL4)
  }

  lemma ConnectTwo(steps: seq<Step>, end: World)
    requires CleanRun(CONNECTED, steps, end)
    ensures CleanRun(START, CONNECTING + steps, end)
  {
    hide CleanRun, Defined, HandleNext, NewClient;
    var w1 := START.(batch := [Event(0, true, false)]);
    Accepts(w1, 0, 1, 4);
    var w2 := HandleNext(w1, AcceptOs(1, 4));
    var w3 := w2.(batch := [Event(0, true, false)]);
    Accepts(w3, 0, 2, 5);
    assert HandleNext(w3, AcceptOs(2, 5)) == CONNECTED;
    var h1, h2 := Handle(AcceptOs(1, 4)), Handle(AcceptOs(2, 5));
    var wait := Wait([Report(0, true, false)]);
    OneStep(w3, h2, CONNECTED, steps, end);
    OneStep(w2, wait, w3, [h2] + steps, end);
    OneStep(w1, h1, w2, [wait] + ([h2] + steps), end);
    OneStep(START, wait, w1, [h1] + ([wait] + ([h2] + steps)), end);
    assert CONNECTING + steps == [wait] + ([h1] + ([wait] + ([h2] + steps)));
  }

  lemma FirstDispatch(request: string, w: World)
    requires IsComplete(request) && w == CONNECTED.(batch := [Event(1, true, false), Event(2, true, false)])
    ensures Defined(w, DispatchOs(request, 3, 6, 100))
    ensures HandleNext(w, DispatchOs(request, 3, 6, 100)) == OneRunning(request)
  {
    FirstIsFresh(w);
    FirstResult(request, w);
    KernelSteps();
    hide *;
    Dispatches(w, 1, 4, [Event(2, true, false)], request, 3, 6, 100);
  }

  lemma FirstIsFresh(w: World)
    requires w == CONNECTED.(batch := [Event(1, true, false), Event(2, true, false)])
    ensures w.batch == [Event(1, true, false)] + [Event(2, true, false)] && w.kernel == KERNEL2
    ensures 1 in w.heap && w.heap[1] == ClientSocket(NewClient(4, 0)) && Fresh(w, 3, 6) && FreshPid(w, 100)
  {}

  lemma FirstResult(request: string, w: World)
    requires IsComplete(request) && w == CONNECTED.(batch := [Event(1, true, false), Event(2, true, false)])
    ensures w.(batch := [Event(2, true, false)], sockets := w.sockets[6 := 3], forked := w.forked + 1,
               heap := w.heap[1 := ClientSocket(Dispatched(4, request, 3, 6, 100))][3 := CgiSocket(NewCgi(6, 100, 1))],
               kernel := KERNEL3)
         == OneRunning(request)
  {
    hide Parse, IsComplete, Dispatched, NewClient, KERNEL3;
  }

  lemma NoProcessYet()
    ensures 100 !in KERNEL2.procs && 101 !in KERNEL3.procs
  {}

  lemma SecondDispatch(request: string)
    requires IsComplete(request)
    ensures OneRunning(request).batch != [] && Defined(OneRunning(request), DispatchOs(request, 4, 7, 101))
    ensures HandleNext(OneRunning(request), DispatchOs(request, 4, 7, 101)) == BothRunning(request)
  {
    hide Defined, HandleNext, Parse, IsComplete, Watch, Open, Fork, KERNEL3, KERNEL4, Dispatched, NewClient;
    KernelSteps();
    var w := OneRunning(request);
    assert w.batch == [Event(2, true, false)] + [];
    assert FreshPid(w, 101) by { NoProcessYet(); }
    Dispatches(w, 2, 5, [], request, 4, 7, 101);
  }

  lemma DispatchBoth(request: string, steps: seq<Step>, end: World)
    requires IsComplete(request) && CleanRun(BothRunning(request), steps, end)
    ensures CleanRun(CONNECTED, Dispatching(request) + steps, end)
  {
    hide CleanRun, Defined, HandleNext, IsComplete, OneRunning, BothRunning, CONNECTED, Receive, Reports;
    var w := CONNECTED.(batch := [Event(1, true, false), Event(2, true, false)]);
    var wait := Wait([Report(1, true, false), Report(2, true, false)]);
    BothAreReadable(w, wait);
    FirstDispatch(request, w);
    SecondDispatch(request);
    var h1, h2 := Handle(DispatchOs(request, 3, 6, 100)), Handle(DispatchOs(request, 4, 7, 101));
    TwoHandles(CONNECTED, wait, w, h1, OneRunning(request), h2, BothRunning(request), steps, end);
    assert Dispatching(request) + steps == [wait] + ([h1] + ([h2] + steps));
  }

  lemma BothAreReadable(w: World, wait: Step)
    requires w == CONNECTED.(batch := [Event(1, true, false), Event(2, true, false)])
    requires wait == Wait([Report(1, true, false), Report(2, true, false)])
    ensures CONNECTED.batch == [] && Enabled(CONNECTED, wait) && Next(CONNECTED, wait) == w
  {}

  lemma TwoHandles(w0: World, s0: Step, w1: World, s1: Step, w2: World, s2: Step, w3: World, steps: seq<Step>, end: World)
    requires Enabled(w0, s0) && Next(w0, s0) == w1 && !s0.TimeOut?
    requires Enabled(w1, s1) && Next(w1, s1) == w2 && !s1.TimeOut?
    requires Enabled(w2, s2) && Next(w2, s2) == w3 && !s2.TimeOut?
    requires CleanRun(w3, steps, end)
    ensures CleanRun(w0, [s0] + ([s1] + ([s2] + steps)), end)
  {
    hide CleanRun, Enabled, Next;
    OneStep(w2, s2, w3, steps, end);
    OneStep(w1, s1, w2, [s2] + steps, end);
    OneStep(w0, s0, w1, [s1] + ([s2] + steps), end);
  }

  /** A request that is complete in one piece: GET / with a Host header. */
  lemma SomeRequestIsComplete() returns (request: string)
    ensures IsComplete(request)
  {
    hide Parse, HostOf, BodyLengthOf, PrintHead, ValidSource, AdvanceBody;
    var src := Source(Get, "/", None, "HTTP/1.1", [Header("Host", "a")]);
    SmallSource(src);
    request := PrintHead(src);
    PrintHeadIsNotEmpty(src);
    assert request[0..|request|] == request && request[|request|..] == "";
    ParseFromStart(request, 0, src);
    MeaningIsFramed(src, 0);
    NothingToRead(Meaning(src, 0).value);
  }

  lemma NothingToRead(fields: Fields)
    requires fields.contentLength == 0 && Framed(fields, 0)
    ensures AdvanceBody(AtBody("", fields, 0)).Ok? && AdvanceBody(AtBody("", fields, 0)).value.phase == DonePhase
  {}

  lemma SmallSource(src: Source)
    requires src == Source(Get, "/", None, "HTTP/1.1", [Header("Host", "a")])
    ensures ValidSource(src) && Meaning(src, 0).Ok? && Meaning(src, 0).value.contentLength == 0
  {
    var w := Wish("a", None, NoBody, None);
    assert Lower("Host") == "host";
    assert HeaderMap(src.headers) == map["host" := "a"];
    HostIsRecovered(HeaderMap(src.headers), w, 0);
    FramingIsRecovered(HeaderMap(src.headers), w, 0);
  }

  /** Two clients connect, each gets a CGI program, and the first client times out. Its program is
      to time out next, while the second program, which inherited the descriptor of its socket,
      is still running. */
  lemma LeakIsReachable(request: string) returns (steps: seq<Step>, end: World)
    requires IsComplete(request)
    ensures IsInit(START) && CleanRun(START, steps, end)
    ensures end.batch == [] && Late(end, [3]) && Strands(end, [3], 3)
  {
    end := FirstClientExpires(request);
    StartIsInit();
    hide CleanRun, Enabled, Next, Leaks, BothRunning, IsInit, Late, Strands;
    var last := [TimeOut([1])];
    assert CleanRun(end, [], end) by { EmptyRun(end); }
    OneStep(BothRunning(request), TimeOut([1]), end, [], end);
    assert [TimeOut([1])] + [] == last;
    DispatchBoth(request, last, end);
    ConnectTwo(Dispatching(request) + last, end);
    steps := CONNECTING + (Dispatching(request) + last);
  }

  /** So there is a run from the start to a state in which the next timeout frees a CgiSocket whose
      address epoll_wait then reports. */
  lemma FreedSocketIsReported() returns (steps: seq<Step>, w: World)
    ensures IsInit(START) && IsRun(START, steps, w) && Enabled(w, TimeOut([3]))
    ensures MayTouch(Next(w, TimeOut([3])), 3) && 3 !in Next(w, TimeOut([3])).heap
  {
    var request := SomeRequestIsComplete();
    steps, w := LeakIsReachable(request);
    InitHasInv(START);
    hide Inv, Clean, IsInit, IsRun, NeverLeaks, Next, Enabled, IsComplete, MayTouch, Strands, Late;
    RunKeepsInv(START, steps, w);
    LeakedEntryIsReported(w, [3], 3);
  }

  lemma ValuesOfFour()
    ensures forall f | 0 <= f < 5 :: f in KERNEL4.files && KERNEL4.files[f] == f
  {}

  lemma EmptyRun(w: World)
    ensures CleanRun(w, [], w)
  {}

  lemma StartIsInit()
    ensures IsInit(START)
  {}

  lemma OneClientIsLate(w: World, p: Ptr)
    requires w.batch == [] && IsClient(w, p) && SafeToDelete(OnTimeout(w, p), p)
    ensures Enabled(w, TimeOut([p])) && Next(w, TimeOut([p])) == Expire(w, p) && !Leaks(w, [p])
  {
    hide Expire, SafeToDelete, Held, Children;
    var late := [p];
    assert late[0] == p && late[1..] == [];
    assert CanExpire(Expire(w, p), late[1..]) && CanExpire(w, late);
    assert ExpireAll(w, late) == ExpireAll(Expire(w, p), late[1..]) == Expire(w, p);
  }

  lemma FirstClientExpires(request: string) returns (end: World)
    requires IsComplete(request)
    ensures var w := BothRunning(request);
            Enabled(w, TimeOut([1])) && !Leaks(w, [1]) && end == Next(w, TimeOut([1]))
    ensures end.batch == [] && Late(end, [3]) && Strands(end, [3], 3)
  {
    hide Parse, IsComplete, Enabled, Next, Leaks, ExpireAll, CanExpire, ToText;
    var w := BothRunning(request);
    assert w.heap[1].client.cgi == Some(3) && IsCgi(w, 3);
    hide Dispatched;
    OneClientIsLate(w, 1);
    end := Expire(w, 1);
    ValuesOfFour();
    SecondHoldsFirst(end);
  }

  lemma SecondHoldsFirst(w: World)
    requires 3 in w.heap && w.heap[3] == CgiSocket(Cgi(6, 100, None, "", 0, [])) && 3 in w.kernel.files && w.kernel.files[3] == 3
    requires 101 in w.kernel.procs && 3 in w.kernel.procs[101]
    ensures Late(w, [3]) && Strands(w, [3], 3)
  {
    assert Children(w, [3]) == {100};
    assert 3 in (w.kernel.procs - {100})[101];
  }
}
