/** The process-per-connection server of `forkHandler.cpp` as a system of
    processes. Processes run side by side, so the accept handler of the parent
    (fork, then close the socket) and its reaping loop are several steps each;
    children exit and signals arrive between any two of them. */
module ForkSpec {
  import opened Codec
  import Echo

  type Pid = nat
  type ConnId = nat

  datatype Life = Running | Zombie | Reaped

  /** Where a process is: between handlers, in the loop over `waitpid`, or in the
      accept handler after `fork` and before `_socket.close()`. */
  datatype Place = Idle | InReapLoop | AfterFork

  /** `accepts` and `waits` count the outstanding `async_accept` and
      `async_wait`; `ready` counts signal handlers that are due to run; `pending`
      is a SIGCHLD that has arrived and has not been passed on (signals that
      arrive meanwhile are merged into it). */
  datatype Process = Process(life: Life, parent: Pid, place: Place, acceptorOpen: bool,
                             accepts: nat, waits: nat, ready: nat, pending: bool,
                             socket: Option<ConnId>, chain: Echo.Chain)

  /** `owner` records, for every accepted connection, the child forked for it,
      or None if the fork failed. `reaps` records who reaped whom. */
  datatype System = System(root: Pid, procs: map<Pid, Process>, owner: seq<Option<Pid>>, reaps: seq<(Pid, Pid)>)

  datatype Step =
    | Accepted(p: Pid, forked: Option<Pid>, childPending: bool)
    | AcceptFailed(p: Pid)
    | FinishAccept(p: Pid)
    | Notify(p: Pid)
    | RunSignal(p: Pid)
    | Reap(p: Pid, child: Pid)
    | ReapNone(p: Pid)
    | EchoEvent(p: Pid, event: Echo.Event)
    | Exit(p: Pid)
    | Kill(p: Pid)

  // ---------------------------------------------------------------- one process

  /** The constructor: one signal wait and one accept are outstanding. */
  function Started(self: Pid, junk: seq<Byte>): Process {
    Process(Running, self, Idle, true, 1, 1, 0, false, None, Echo.Idle(junk))
  }

  /** The accept handler up to and including `fork`, in the parent, or in the
      only process when `fork` fails. */
  function ForkParent(pr: Process, c: ConnId): Process
    requires pr.accepts > 0
  {
    pr.(accepts := pr.accepts - 1, socket := Some(c), place := AfterFork)
  }

  /** The copy of the process made by `fork`, and what its handler goes on to do:
      close the acceptor, cancel the signal wait and start to read. */
  function ForkChild(pr: Process, parent: Pid, c: ConnId, pending: bool): Process
    requires pr.accepts > 0
  {
    var copy := pr.(accepts := pr.accepts - 1, socket := Some(c), parent := parent, pending := pending);
    copy.(acceptorOpen := false, waits := 0, ready := copy.ready + copy.waits, chain := Echo.Read(copy.chain))
  }

  /** The rest of the accept handler in the parent. */
  function CloseAndAccept(pr: Process): Process {
    pr.(socket := None, accepts := pr.accepts + 1, place := Idle)
  }

  /** The signal handler: only a process with an open acceptor reaps. */
  function EnterSignal(pr: Process): Process
    requires pr.ready > 0
  {
    pr.(ready := pr.ready - 1, place := if pr.acceptorOpen then InReapLoop else pr.place)
  }

  /** `waitpid` reported no dead child: wait for the next signal. */
  function Rearm(pr: Process): Process {
    pr.(waits := pr.waits + 1, place := Idle)
  }

  /** Nothing is left that `run` would wait for. */
  predicate OutOfWork(pr: Process) {
    pr.place == Idle && pr.accepts == 0 && pr.waits == 0 && pr.ready == 0 && pr.chain.ops == []
  }

  // ---------------------------------------------------------------- the system

  predicate Alive(s: System, p: Pid) {
    p in s.procs && s.procs[p].life == Running
  }

  predicate IsDeadChild(s: System, p: Pid, z: Pid) {
    z in s.procs && z != p && s.procs[z].parent == p && s.procs[z].life == Zombie
  }

  ghost predicate HasDeadChild(s: System, p: Pid) {
    exists z :: IsDeadChild(s, p, z)
  }

  /** Children of `p` that have not been reaped, dead or alive. */
  ghost function Unreaped(s: System, p: Pid): set<Pid> {
    set z | z in s.procs && z != p && s.procs[z].parent == p && s.procs[z].life != Reaped
  }

  /** A process dies: it becomes a zombie and its parent gets SIGCHLD. */
  function Die(s: System, p: Pid): System
    requires p in s.procs
  {
    var dead := s.procs[p := s.procs[p].(life := Zombie, socket := None, acceptorOpen := false)];
    var parent := s.procs[p].parent;
    s.(procs := if parent in dead then dead[parent := dead[parent].(pending := true)] else dead)
  }

  ghost predicate Possible(s: System, step: Step) {
    Alive(s, step.p) && var pr := s.procs[step.p];
    match step
    case Accepted(p, forked, _) =>
      pr.place == Idle && pr.accepts > 0 && (forked.Some? ==> forked.value !in s.procs)
    case AcceptFailed(p) => pr.place == Idle && pr.accepts > 0
    case FinishAccept(p) => pr.place == AfterFork
    case Notify(p) => pr.pending && pr.waits > 0
    case RunSignal(p) => pr.place == Idle && pr.ready > 0
    case Reap(p, z) => pr.place == InReapLoop && IsDeadChild(s, p, z)
    case ReapNone(p) => pr.place == InReapLoop && !HasDeadChild(s, p)
    case EchoEvent(p, e) => pr.place == Idle && Echo.Enabled(pr.chain, e)
    case Exit(p) => OutOfWork(pr)
    case Kill(p) => p != s.root
  }

  /** A step; one that is not possible changes nothing. */
  ghost function Next(s: System, step: Step): System {
    if !Possible(s, step) then s else
    var pr := s.procs[step.p];
    match step
    case Accepted(p, forked, childPending) =>
      var c := |s.owner|;
      var parents := s.procs[p := ForkParent(pr, c)];
      s.(procs := if forked.Some? then parents[forked.value := ForkChild(pr, p, c, childPending)] else parents,
         owner := s.owner + [forked])
    case AcceptFailed(p) => s.(procs := s.procs[p := pr.(accepts := pr.accepts - 1 + 1)])
    case FinishAccept(p) => s.(procs := s.procs[p := CloseAndAccept(pr)])
    case Notify(p) => s.(procs := s.procs[p := pr.(pending := false, waits := pr.waits - 1, ready := pr.ready + 1)])
    case RunSignal(p) => s.(procs := s.procs[p := EnterSignal(pr)])
    case Reap(p, z) =>
      s.(procs := s.procs[z := s.procs[z].(life := Reaped)], reaps := s.reaps + [(p, z)])
    case ReapNone(p) => s.(procs := s.procs[p := Rearm(pr)])
    case EchoEvent(p, e) => s.(procs := s.procs[p := pr.(chain := Echo.Handle(pr.chain, e))])
    case Exit(p) => Die(s, p)
    case Kill(p) => Die(s, p)
  }

  function Initial(root: Pid, junk: seq<Byte>): System {
    System(root, map[root := Started(root, junk)], [], [])
  }

  ghost function Run(root: Pid, junk: seq<Byte>, steps: seq<Step>): System {
    if steps == [] then Initial(root, junk)
    else Next(Run(root, junk, steps[..|steps| - 1]), steps[|steps| - 1])
  }

  // ---------------------------------------------------------------- invariant

  ghost predicate RootInv(pr: Process, deadChild: bool) {
    && pr.life == Running && pr.acceptorOpen
    && pr.accepts + Count(pr.place == AfterFork) == 1
    && pr.waits + pr.ready + Count(pr.place == InReapLoop) == 1
    && (pr.socket.Some? <==> pr.place == AfterFork)
    && pr.chain == Echo.Idle(pr.chain.data) && |pr.chain.data| == Echo.BUFFER_SIZE
    && (deadChild ==> pr.pending || pr.ready > 0 || pr.place == InReapLoop)
  }

  ghost predicate ChildInv(pr: Process, p: Pid, root: Pid, owner: seq<Option<Pid>>) {
    && pr.parent == root
    && (pr.life == Running ==>
          && !pr.acceptorOpen && pr.place == Idle
          && pr.accepts == 0 && pr.waits == 0 && pr.ready <= 1
          && pr.socket.Some? && pr.socket.value < |owner| && owner[pr.socket.value] == Some(p)
          && Echo.ChainInv(pr.chain) && (pr.chain.ops == [] <==> pr.chain.failed))
  }

  ghost predicate Inv(s: System) {
    && s.root in s.procs
    && RootInv(s.procs[s.root], HasDeadChild(s, s.root))
    && s.procs[s.root].parent == s.root
    && (s.procs[s.root].place == AfterFork ==> s.procs[s.root].socket == Some(|s.owner| - 1))
    && (forall p :: p in s.procs && p != s.root ==> ChildInv(s.procs[p], p, s.root, s.owner))
    && (forall c :: 0 <= c < |s.owner| && s.owner[c].Some? ==>
          s.owner[c].value in s.procs && s.owner[c].value != s.root
          && (s.procs[s.owner[c].value].life == Running ==> s.procs[s.owner[c].value].socket == Some(c)))
    && (forall i :: 0 <= i < |s.reaps| ==> s.reaps[i].0 == s.root)
  }
}
