/** CheckTimeout: one pass over the late sockets, and when it leaves a stale entry in the interest
    list. */
module Timeouts {
  import opened Text
  import opened Kernels
  import opened EventLoop
  import opened EventTheorems

  /** One iteration of the loop of CheckTimeout for a socket whose time is up. */
  function Expire(w: World, p: Ptr): World
    requires p in w.heap && SafeToDelete(OnTimeout(w, p), p)
  {
    Remove(OnTimeout(w, p), p)
  }

  /** Nothing that removing the late sockets in this order dereferences is gone. */
  predicate CanExpire(w: World, late: seq<Ptr>)
    decreases |late|
  {
    late != [] ==>
      && late[0] in w.heap && !w.heap[late[0]].ServerSocket? && SafeToDelete(OnTimeout(w, late[0]), late[0])
      && CanExpire(Expire(w, late[0]), late[1..])
  }

  /** The whole loop. */
  function ExpireAll(w: World, late: seq<Ptr>): World
    requires CanExpire(w, late)
    decreases |late|
  {
    if late == [] then w else ExpireAll(Expire(w, late[0]), late[1..])
  }

  /** Different sockets, none of them a listener. */
  predicate Late(w: World, late: seq<Ptr>) {
    && (forall i | 0 <= i < |late| :: late[i] in w.heap && !w.heap[late[i]].ServerSocket?)
    && (forall i, j | 0 <= i < j < |late| :: late[i] != late[j])
  }

  /** The children that the pass waits for. */
  function Children(w: World, late: seq<Ptr>): set<int> {
    set p | p in late && IsCgi(w, p) :: w.heap[p].cgi.pid
  }

  /** The CgiSocket at `p` is late, and a process that the pass does not wait for has its descriptor:
      a child that was forked while it was open, or a descendant of one. */
  predicate Strands(w: World, late: seq<Ptr>, p: Ptr) {
    && p in late && IsCgi(w, p) && p in w.kernel.files
    && Held(w.kernel.procs - Children(w, late), w.kernel.files[p])
  }

  predicate Leaks(w: World, late: seq<Ptr>) {
    exists p | p in late :: Strands(w, late, p)
  }

  // ---------- one iteration ----------

  lemma ExpireKeepsInv(w: World, p: Ptr)
    requires Inv(w, None, None) && w.batch == [] && p in w.heap
    ensures SafeToDelete(OnTimeout(w, p), p) && Inv(Expire(w, p), None, None) && Expire(w, p).batch == []
    ensures Removed(w, Expire(w, p), p)
  {
    hide Owned, Removed, Remove, SafeToDelete, KernelOk, Unwatch;
    var w0 := OnTimeout(w, p);
    OwnedIgnoresKernel(w, w0.kernel, None, None);
    assert !InBatch(w0, p);
    RemoveKeepsOwned(w0, None, None, p);
    if w.heap[p].ClientSocket? {
      UnwatchKernel(w.kernel, w.heap.Keys, None, p);
      RemoveKernel(w0, p, None, Some(p));
    } else {
      RemoveKernel(w0, p, None, None);
    }
    RemovedIgnoresKernel(w, w0.kernel, Expire(w, p), p);
  }

  lemma RemovedIgnoresKernel(w: World, k: Kernel, w': World, p: Ptr)
    requires p in w.heap && Removed(w.(kernel := k), w', p)
    ensures Removed(w, w', p) && w'.batch == w.batch
  {}

  /** What one removal does to the kernel's state. */
  function Gone(w: World, p: Ptr): Kernel {
    Close(if IsCgi(w, p) then Reap(w.kernel, w.heap[p].cgi.pid) else Unwatch(w.kernel, p), p)
  }

  lemma ExpireIsGone(w: World, p: Ptr)
    requires Inv(w, None, None) && p in w.heap && !w.heap[p].ServerSocket?
    requires SafeToDelete(OnTimeout(w, p), p)
    ensures Expire(w, p).kernel == Gone(w, p) && p in w.kernel.files
  {
    assert p in w.kernel.files.Keys;
    if IsCgi(w, p) {
      CgiFacts(w, p);
    }
    hide Inv, Detach, SafeToDelete;
  }

  function ProcsAfter(w: World, p: Ptr): map<int, set<File>> {
    if IsCgi(w, p) then w.kernel.procs - {w.heap[p].cgi.pid} else w.kernel.procs
  }

  /** A client is deregistered, the entry of a CgiSocket becomes stale, and of the stale entries those
      stay that some process still holds. */
  lemma GoneStale(w: World, p: Ptr)
    requires KernelOk(w.kernel, w.heap.Keys, None, None) && p in w.heap
    ensures p in w.kernel.files
    ensures forall f :: IsStale(Gone(w, p), f) <==>
                        (IsStale(w.kernel, f) || (IsCgi(w, p) && f == w.kernel.files[p])) && Held(ProcsAfter(w, p), f)
  {
    assert p in w.kernel.files.Keys;
    hide KernelOk, IsStale, Held, Close;
    var k, live := w.kernel, w.heap.Keys;
    if IsCgi(w, p) {
      var pid := w.heap[p].cgi.pid;
      ReapKernel(k, pid, live, None, None);
      ReapStale(k, pid, live);
      CloseStale(Reap(k, pid), p, live, None);
    } else {
      UnwatchKernel(k, live, None, p);
      UnwatchStale(k, p, live);
      CloseStale(Unwatch(k, p), p, live, Some(p));
    }
  }

  lemma GoneKeepsRest(w: World, p: Ptr)
    ensures var k := Gone(w, p);
            && k.files == w.kernel.files - {p} && k.procs == ProcsAfter(w, p)
            && (forall f | f in k.watch :: f in w.kernel.watch && k.watch[f] == w.kernel.watch[f])
  {}

  // ---------- the whole pass ----------

  lemma HeadAndRest(late: seq<Ptr>)
    requires late != []
    ensures forall x :: x in late <==> x == late[0] || x in late[1..]
  {
    assert late == [late[0]] + late[1..];
  }

  /** One late socket less: the others stay what they were. */
  lemma OthersStayLate(w: World, w1: World, late: seq<Ptr>)
    requires late != [] && Late(w, late) && Removed(w, w1, late[0])
    ensures var rest := late[1..];
            && Late(w1, rest)
            && (forall x | x in rest :: x != late[0] && (IsCgi(w1, x) <==> IsCgi(w, x)))
            && (forall x | x in rest && IsCgi(w, x) :: w1.heap[x].cgi.pid == w.heap[x].cgi.pid)
  {
    var rest := late[1..];
    forall x | x in rest ensures x in w1.heap.Keys && x != late[0] && (IsCgi(w1, x) <==> IsCgi(w, x)) {
      var i :| 0 <= i < |rest| && rest[i] == x;
      assert late[i + 1] == x && x in w.heap.Keys - {late[0]};
    }
    forall i | 0 <= i < |rest| ensures rest[i] in w1.heap && !w1.heap[rest[i]].ServerSocket? {
      assert rest[i] == late[i + 1] && rest[i] in w1.heap.Keys;
    }
  }

  lemma ChildrenSplit(w: World, w1: World, late: seq<Ptr>)
    requires late != []
    requires forall x | x in late[1..] :: IsCgi(w1, x) <==> IsCgi(w, x)
    requires forall x | x in late[1..] && IsCgi(w, x) && IsCgi(w1, x) :: w1.heap[x].cgi.pid == w.heap[x].cgi.pid
    ensures ProcsAfter(w, late[0]) - Children(w1, late[1..]) == w.kernel.procs - Children(w, late)
  {
    HeadAndRest(late);
    var own := if IsCgi(w, late[0]) then {w.heap[late[0]].cgi.pid} else {};
    assert Children(w, late) == own + Children(w1, late[1..]);
  }

  /** Some CgiSocket of the pass was watched under `f`. */
  ghost predicate Orphaned(w: World, late: seq<Ptr>, f: File) {
    exists p :: p in late && IsCgi(w, p) && p in w.kernel.files && w.kernel.files[p] == f
  }

  lemma OrphansSplit(w: World, w1: World, late: seq<Ptr>)
    requires late != [] && late[0] in w.kernel.files && w1.kernel.files == w.kernel.files - {late[0]}
    requires forall x | x in late[1..] :: x != late[0] && (IsCgi(w1, x) <==> IsCgi(w, x))
    ensures forall f :: Orphaned(w, late, f) <==>
                        (IsCgi(w, late[0]) && w.kernel.files[late[0]] == f) || Orphaned(w1, late[1..], f)
  {
    HeadAndRest(late);
    hide IsCgi;
    forall f | Orphaned(w1, late[1..], f) ensures Orphaned(w, late, f) {}
  }

  predicate StaleIsHeld(k: Kernel) {
    forall f | f in k.watch && IsStale(k, f) :: Held(k.procs, f)
  }

  /** What the pass did: the children of its CgiSockets were waited for, and of the entries of these
      sockets those stay that a process which is left has inherited. */
  ghost predicate Passed(w: World, late: seq<Ptr>, k: Kernel) {
    && k.procs == w.kernel.procs - Children(w, late)
    && (forall p :: p in k.files <==> p in w.kernel.files && p !in late)
    && (forall f | f in k.watch :: f in w.kernel.watch && k.watch[f] == w.kernel.watch[f])
    && (forall f :: IsStale(k, f) <==> (IsStale(w.kernel, f) || Orphaned(w, late, f)) && Held(k.procs, f))
  }

  lemma PassedOne(w: World, w1: World, late: seq<Ptr>, k: Kernel)
    requires late != [] && KernelOk(w.kernel, w.heap.Keys, None, None)
    requires Late(w, late) && Removed(w, w1, late[0]) && w1.kernel == Gone(w, late[0]) && Passed(w1, late[1..], k)
    ensures Passed(w, late, k)
  {
    hide KernelOk, Removed, Late, Gone, IsStale;
    assert late[0] in w.heap by { LateIsLive(w, late); }
    OthersStayLate(w, w1, late);
    ChildrenSplit(w, w1, late);
    GoneStale(w, late[0]);
    GoneKeepsRest(w, late[0]);
    OrphansSplit(w, w1, late);
    HeadAndRest(late);
    assert k.procs == ProcsAfter(w, late[0]) - Children(w1, late[1..]);
  }

  lemma LateIsLive(w: World, late: seq<Ptr>)
    requires Late(w, late) && late != []
    ensures late[0] in w.heap && !w.heap[late[0]].ServerSocket?
  {}

  lemma {:induction false} ExpireAllPasses(w: World, late: seq<Ptr>)
    requires Inv(w, None, None) && w.batch == [] && Late(w, late) && StaleIsHeld(w.kernel)
    ensures CanExpire(w, late)
    ensures Inv(ExpireAll(w, late), None, None) && ExpireAll(w, late).batch == []
    ensures Passed(w, late, ExpireAll(w, late).kernel)
    decreases |late|
  {
    if late == [] {
      NothingPasses(w);
    } else {
      hide Inv, Expire, Gone, Removed, SafeToDelete, Passed, StaleIsHeld;
      var p := late[0];
      LateIsLive(w, late);
      ExpireKeepsInv(w, p);
      ExpireIsGone(w, p);
      InvHasKernel(w);
      OthersStayLate(w, Expire(w, p), late);
      GoneIsHeld(w, p);
      ExpireAllPasses(Expire(w, p), late[1..]);
      PassedOne(w, Expire(w, p), late, ExpireAll(w, late).kernel);
    }
  }

  lemma NothingPasses(w: World)
    requires StaleIsHeld(w.kernel)
    ensures Passed(w, [], w.kernel)
  {
    assert Children(w, []) == {};
  }

  lemma GoneIsHeld(w: World, p: Ptr)
    requires KernelOk(w.kernel, w.heap.Keys, None, None) && p in w.heap
    ensures StaleIsHeld(Gone(w, p))
  {
    hide KernelOk, Gone;
    GoneStale(w, p);
    GoneKeepsRest(w, p);
  }

  /** A pass over a clean interest list leaves a stale entry behind exactly if it removes a CgiSocket
      whose descriptor a process has that the pass does not wait for. */
  lemma PassIsCleanUnlessItLeaks(w: World, late: seq<Ptr>)
    requires Inv(w, None, None) && w.batch == [] && Late(w, late) && Clean(w.kernel)
    ensures CanExpire(w, late) && (Clean(ExpireAll(w, late).kernel) <==> !Leaks(w, late))
  {
    hide Inv, Late, Passed, ExpireAll, CanExpire;
    CleanMeansNoneIsStale(w.kernel);
    ExpireAllPasses(w, late);
    PassedIsClean(w, late, ExpireAll(w, late).kernel);
  }

  lemma PassedIsClean(w: World, late: seq<Ptr>, k: Kernel)
    requires Passed(w, late, k) && Clean(w.kernel)
    ensures Clean(k) <==> !Leaks(w, late)
  {
    CleanMeansNoneIsStale(w.kernel);
    CleanMeansNoneIsStale(k);
    hide IsStale, Clean, Children;
    if Leaks(w, late) {
      var p :| p in late && Strands(w, late, p);
      assert IsStale(k, w.kernel.files[p]);
    }
    if !Clean(k) {
      var f :| IsStale(k, f);
      var p :| p in late && IsCgi(w, p) && p in w.kernel.files && w.kernel.files[p] == f;
      assert Strands(w, late, p);
    }
  }

  lemma InvHasKernel(w: World)
    requires Inv(w, None, None)
    ensures KernelOk(w.kernel, w.heap.Keys, None, None)
  {}
}
