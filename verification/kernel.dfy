/** What the operating system keeps for the event loop: open files, the interest list of the
    epoll instance, and the processes that hold inherited descriptors. No descriptor of the
    server is close-on-exec. */
module Kernels {
  import opened Text

  type Ptr = nat

  /** An open file description; never used for a second file. */
  type File = nat

  /** The kernel's part: the file of each socket's descriptor, how many files there have been, the
      pointer registered for each watched file, and what each running process inherited. */
  datatype Kernel = Kernel(files: map<Ptr, File>, fileCount: nat, watch: map<File, Ptr>, procs: map<int, set<File>>)

  /** accept, socketpair: a new file for the descriptor of the socket at `p`. */
  function Open(k: Kernel, p: Ptr): Kernel {
    k.(files := k.files[p := k.fileCount], fileCount := k.fileCount + 1)
  }

  /** A successful EPOLL_CTL_ADD. */
  function Watch(k: Kernel, p: Ptr): Kernel {
    if p in k.files then k.(watch := k.watch[k.files[p] := p]) else k
  }

  /** Whether EPOLL_CTL_DEL finds the descriptor of the socket at `p` registered. */
  predicate IsWatched(k: Kernel, p: Ptr) {
    p in k.files && k.files[p] in k.watch
  }

  /** EPOLL_CTL_DEL. */
  function Unwatch(k: Kernel, p: Ptr): Kernel {
    if p in k.files then k.(watch := k.watch - {k.files[p]}) else k
  }

  /** Some process still has a descriptor of the file. */
  predicate Held(procs: map<int, set<File>>, f: File) {
    exists pid :: pid in procs && f in procs[pid]
  }

  /** The kernel drops an entry when the last descriptor of its file is closed, not before. */
  function Sweep(k: Kernel): Kernel {
    k.(watch := map f | f in k.watch && (f in k.files.Values || Held(k.procs, f)) :: k.watch[f])
  }

  /** close() of the descriptor of the socket at `p`. */
  function Close(k: Kernel, p: Ptr): Kernel {
    Sweep(k.(files := k.files - {p}))
  }

  /** fork(): the child has a descriptor of every file that is open for a socket. */
  function Fork(k: Kernel, pid: int): Kernel {
    k.(procs := k.procs[pid := k.files.Values])
  }

  /** The process is gone: waitpid has returned, or it exited. */
  function Reap(k: Kernel, pid: int): Kernel {
    Sweep(k.(procs := k.procs - {pid}))
  }

  /** The process `pid` forks in turn. */
  function Share(k: Kernel, pid: int, child: int): Kernel
    requires pid in k.procs
  {
    k.(procs := k.procs[child := k.procs[pid]])
  }

  /** The process `pid` closes its descriptor of `file`. */
  function Forget(k: Kernel, pid: int, file: File): Kernel
    requires pid in k.procs
  {
    Sweep(k.(procs := k.procs[pid := k.procs[pid] - {file}]))
  }

  // ---------- what always holds ----------

  /** Every socket in `live` has a file of its own, and its entry in the interest list, unless it is
      not entered yet or deregistered already. Nothing refers to a file that does not exist. */
  ghost predicate KernelOk(k: Kernel, live: set<Ptr>, pending: Option<Ptr>, dying: Option<Ptr>) {
    && k.files.Keys == live
    && (forall p | p in k.files :: k.files[p] < k.fileCount)
    && (forall p, q | p in k.files && q in k.files && p != q :: k.files[p] != k.files[q])
    && (forall f | f in k.watch :: f < k.fileCount)
    && (forall pid, f | pid in k.procs && f in k.procs[pid] :: f < k.fileCount)
    && (forall p | p in k.files ::
          if Some(p) == pending || Some(p) == dying then k.files[p] !in k.watch
          else k.files[p] in k.watch && k.watch[k.files[p]] == p)
  }

  /** The interest list has no entry of a deleted socket. */
  ghost predicate Clean(k: Kernel) {
    forall f | f in k.watch :: k.watch[f] in k.files && k.files[k.watch[f]] == f
  }

  /** No entry is new, and every file that was open still is. */
  ghost predicate Continues(k: Kernel, k': Kernel) {
    && (forall f | f in k'.watch :: f in k.watch && k'.watch[f] == k.watch[f])
    && (forall p | p in k.files :: p in k'.files && k'.files[p] == k.files[p])
  }

  /** What closing the descriptor of `p` leaves: no entry of a file that is still open is lost,
      and none is new. */
  ghost predicate ClosesFile(k: Kernel, k': Kernel, p: Ptr) {
    && k'.files == k.files - {p} && k'.fileCount == k.fileCount
    && (forall pid | pid in k'.procs :: pid in k.procs && k'.procs[pid] == k.procs[pid])
    && (forall f | f in k'.watch :: f in k.watch && k'.watch[f] == k.watch[f])
    && (forall f | f in k.watch && f in k'.files.Values :: f in k'.watch)
  }

  lemma ContinuesClean(k: Kernel, k': Kernel)
    requires Clean(k) && Continues(k, k')
    ensures Clean(k')
  {}

  lemma CloseIsClosed(k: Kernel, p: Ptr)
    ensures ClosesFile(k, Close(k, p), p)
  {}

  lemma ReapIsClosed(k: Kernel, pid: int, p: Ptr)
    ensures ClosesFile(k, Close(Reap(k, pid), p), p)
  {
    var k1 := Reap(k, pid);
    var k' := Close(k1, p);
    forall f | f in k.watch && f in k'.files.Values ensures f in k'.watch {
      assert f in k.files.Values && f in k1.watch;
    }
  }

  lemma ClosedKeepsKernel(k: Kernel, k': Kernel, p: Ptr, live: set<Ptr>, pending: Option<Ptr>, dying: Option<Ptr>)
    requires KernelOk(k, live, pending, dying) && ClosesFile(k, k', p)
    ensures KernelOk(k', live - {p}, if pending == Some(p) then None else pending, if dying == Some(p) then None else dying)
  {
    forall x | x in k'.files ensures x in k.files && k'.files[x] == k.files[x] && k.files[x] in k'.files.Values {}
  }

  /** Without an entry of its own, a deleted socket leaves none behind. */
  lemma ClosedKeepsClean(k: Kernel, k': Kernel, p: Ptr)
    requires Clean(k) && ClosesFile(k, k', p) && (p in k.files ==> k.files[p] !in k.watch)
    ensures Clean(k')
  {}

  /** An entry whose socket is gone. */
  predicate IsStale(k: Kernel, f: File) {
    f in k.watch && !(k.watch[f] in k.files && k.files[k.watch[f]] == f)
  }

  lemma CleanMeansNoneIsStale(k: Kernel)
    ensures Clean(k) <==> forall f :: !IsStale(k, f)
  {
    if forall f :: !IsStale(k, f) {
      forall f | f in k.watch ensures k.watch[f] in k.files && k.files[k.watch[f]] == f {
        assert !IsStale(k, f);
      }
    }
  }

  /** The end of a process drops exactly the stale entries that no other process holds. */
  lemma ReapStale(k: Kernel, pid: int, live: set<Ptr>)
    requires KernelOk(k, live, None, None)
    ensures forall f :: IsStale(Reap(k, pid), f) <==> IsStale(k, f) && Held(k.procs - {pid}, f)
  {}

  lemma UnwatchStale(k: Kernel, p: Ptr, live: set<Ptr>)
    requires KernelOk(k, live, None, None) && p in live
    ensures forall f :: IsStale(Unwatch(k, p), f) <==> IsStale(k, f)
  {}

  /** Closing the descriptor of `p` makes its entry stale, if it still has one, and drops exactly the
      stale entries that no process holds. */
  lemma CloseStale(k: Kernel, p: Ptr, live: set<Ptr>, dying: Option<Ptr>)
    requires KernelOk(k, live, None, dying) && p in live && (dying == None || dying == Some(p))
    ensures forall f :: IsStale(Close(k, p), f) <==>
                        (IsStale(k, f) || (dying == None && f == k.files[p])) && Held(k.procs, f)
  {}

  lemma ReapKernel(k: Kernel, pid: int, live: set<Ptr>, pending: Option<Ptr>, dying: Option<Ptr>)
    requires KernelOk(k, live, pending, dying)
    ensures KernelOk(Reap(k, pid), live, pending, dying) && Continues(k, Reap(k, pid))
  {}

  lemma ForkKernel(k: Kernel, pid: int, live: set<Ptr>, pending: Option<Ptr>, dying: Option<Ptr>)
    requires KernelOk(k, live, pending, dying)
    ensures KernelOk(Fork(k, pid), live, pending, dying) && Continues(k, Fork(k, pid))
  {}

  lemma ShareKernel(k: Kernel, pid: int, child: int, live: set<Ptr>)
    requires KernelOk(k, live, None, None) && pid in k.procs
    ensures KernelOk(Share(k, pid, child), live, None, None) && Continues(k, Share(k, pid, child))
  {}

  lemma ForgetKernel(k: Kernel, pid: int, file: File, live: set<Ptr>)
    requires KernelOk(k, live, None, None) && pid in k.procs
    ensures KernelOk(Forget(k, pid, file), live, None, None) && Continues(k, Forget(k, pid, file))
  {}

  lemma OpenKernel(k: Kernel, live: set<Ptr>, q: Ptr)
    requires KernelOk(k, live, None, None) && q !in live
    ensures KernelOk(Open(k, q), live + {q}, Some(q), None) && Continues(k, Open(k, q))
  {}

  /** A descriptor that is closed before it is registered leaves nothing behind. */
  lemma OpenedAndClosed(k: Kernel, live: set<Ptr>, p: Ptr)
    requires KernelOk(k, live, None, None) && Clean(k) && p !in live
    ensures var k' := Close(Open(k, p), p);
            KernelOk(k', live, None, None) && Clean(k') && k'.procs == k.procs
  {
    hide KernelOk, Clean, Continues, ClosesFile, Open, Close;
    var k1 := Open(k, p);
    OpenKernel(k, live, p);
    NewFileIsNotWatched(k, live, p);
    ContinuesClean(k, k1);
    CloseIsClosed(k1, p);
    ClosedKeepsKernel(k1, Close(k1, p), p, live + {p}, Some(p), None);
    assert live + {p} - {p} == live;
    ClosedKeepsClean(k1, Close(k1, p), p);
  }

  lemma NewFileIsNotWatched(k: Kernel, live: set<Ptr>, p: Ptr)
    requires KernelOk(k, live, None, None)
    ensures p in Open(k, p).files && Open(k, p).files[p] !in Open(k, p).watch
    ensures Close(Open(k, p), p).procs == k.procs
  {}

  lemma WatchKernel(k: Kernel, live: set<Ptr>, q: Ptr, dying: Option<Ptr>)
    requires KernelOk(k, live, Some(q), dying) && q in live && dying != Some(q)
    ensures KernelOk(Watch(k, q), live, None, dying) && (Clean(k) ==> Clean(Watch(k, q)))
  {}

  lemma UnwatchKernel(k: Kernel, live: set<Ptr>, pending: Option<Ptr>, p: Ptr)
    requires KernelOk(k, live, pending, None) && p in live && pending != Some(p)
    ensures KernelOk(Unwatch(k, p), live, pending, Some(p)) && Continues(k, Unwatch(k, p))
  {}
}
