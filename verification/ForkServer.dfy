/** The class `server` of `forkHandler.cpp`, one object for each process, updated
    in place. `fork` makes a second object that is a copy of the first. Each
    handler does to its process what `ForkSpec` says. */
module ForkServer {
  import opened Codec
  import opened ForkSpec
  import Echo

  /** The children of one process, as the kernel keeps them. */
  class Kernel {
    var running: set<Pid>
    var zombies: set<Pid>
    var reaped: set<Pid>

    constructor (running: set<Pid>, zombies: set<Pid>)
      ensures this.running == running && this.zombies == zombies && reaped == {}
    {
      this.running, this.zombies, reaped := running, zombies, {};
    }

    /** `waitpid(-1, &status, WNOHANG)`. Any children may have died just before.
        A positive result is the child that was reaped. */
    method WaitPid() returns (pid: Option<Pid>)
      modifies this
      ensures running <= old(running) && old(zombies) <= zombies + reaped
      ensures pid.None? ==> zombies == {} && reaped == old(reaped)
                            && running == old(running + zombies) && old(zombies) == {}
      ensures pid.Some? ==> pid.value in old(running + zombies) && reaped == old(reaped) + {pid.value}
                            && running + zombies == old(running + zombies) - {pid.value}
    {
      var died: set<Pid> :| died <= running;
      running, zombies := running - died, zombies + died;
      if zombies == {} {
        return None;
      }
      var z :| z in zombies;
      running, zombies, reaped := running - {z}, zombies - {z}, reaped + {z};
      return Some(z);
    }
  }

  class Server {
    var acceptorOpen: bool
    var socket: Option<ConnId>
    const data: array<Byte>
    // the asynchronous operations outstanding
    var accepts: nat
    var waits: nat
    var ready: nat
    var ops: seq<Echo.Op>
    // the kernel's view of the process, and history
    ghost var parent: Pid
    ghost var place: Place
    ghost var pending: bool
    ghost var received: seq<Byte>
    ghost var sent: seq<Byte>
    ghost var failed: bool

    ghost function View(): Process
      reads this, data
    {
      Process(Running, parent, place, acceptorOpen, accepts, waits, ready, pending, socket,
              Echo.Chain(data[..], ops, received, sent, failed))
    }

    constructor (self: Pid)
      ensures data.Length == Echo.BUFFER_SIZE && fresh(data)
      ensures View() == Started(self, data[..])
    {
      acceptorOpen, socket, accepts, waits, ready, ops := true, None, 0, 0, 0, [];
      data := new Byte[Echo.BUFFER_SIZE];
      parent, place, pending, received, sent, failed := self, Idle, false, [], [], false;
      new;
      WaitForSignal();
      Accept();
    }

    /** The memory of the child right after `fork`. */
    constructor Fork(original: Server, ghost parent: Pid, ghost childPending: bool)
      ensures fresh(data)
      ensures View() == original.View().(parent := parent, pending := childPending)
    {
      acceptorOpen, socket := original.acceptorOpen, original.socket;
      accepts, waits, ready := original.accepts, original.waits, original.ready;
      ops := original.ops;
      data := new Byte[original.data.Length](i
        requires 0 <= i < original.data.Length
        reads original.data
        => original.data[i]);
      this.parent, this.place, this.pending := parent, original.place, childPending;
      this.received, this.sent, this.failed := original.received, original.sent, original.failed;
      new;
      assert data[..] == original.data[..];
    }

    method WaitForSignal()
      modifies this`waits
      ensures View() == old(View()).(waits := old(waits) + 1)
    {
      waits := waits + 1;
    }

    method Accept()
      modifies this`accepts
      ensures View() == old(View()).(accepts := old(accepts) + 1)
    {
      accepts := accepts + 1;
    }

    /** The signal handler. In the parent it reaps until no dead child is left,
        though children may go on dying between the turns of the loop. */
    method OnSignal(kernel: Kernel)
      requires ready > 0 && place == Idle
      modifies this`ready, this`waits, this`place, kernel
      ensures View() == if old(acceptorOpen) then Rearm(EnterSignal(old(View()))) else EnterSignal(old(View()))
      ensures acceptorOpen ==>
                && kernel.zombies == {} && kernel.running <= old(kernel.running)
                && old(kernel.zombies) <= kernel.reaped
                && kernel.running + kernel.reaped == old(kernel.running + kernel.zombies + kernel.reaped)
      ensures !acceptorOpen ==> kernel.running == old(kernel.running) && kernel.zombies == old(kernel.zombies)
                                && kernel.reaped == old(kernel.reaped)
    {
      ready := ready - 1;
      if acceptorOpen {
        place := InReapLoop;
        var reaped := kernel.WaitPid();
        while reaped.Some?
          invariant kernel.running <= old(kernel.running)
          invariant kernel.running + kernel.zombies + kernel.reaped
                    == old(kernel.running + kernel.zombies + kernel.reaped)
          invariant old(kernel.zombies) <= kernel.zombies + kernel.reaped
          invariant reaped.None? ==> kernel.zombies == {}
          invariant View() == EnterSignal(old(View()))
          decreases kernel.running + kernel.zombies, reaped.Some?
        {
          reaped := kernel.WaitPid();
        }
        WaitForSignal();
        place := Idle;
      }
    }

    /** The accept handler; `self` is the process that runs it, `c` the accepted
        connection and `forked` whether `fork` succeeds. The child that it then
        makes is returned. */
    method OnAccept(ok: bool, c: ConnId, forked: bool, ghost self: Pid, ghost childPending: bool)
      returns (child: Server?)
      requires accepts > 0 && place == Idle
      modifies this`accepts, this`socket, this`place
      ensures child != null <==> ok && forked
      ensures View() == if ok then CloseAndAccept(ForkParent(old(View()), c)) else old(View())
      ensures child != null ==> fresh(child) && fresh(child.data)
                                && child.View() == ForkChild(old(View()), self, c, childPending)
    {
      accepts := accepts - 1;
      child := null;
      if !ok {
        Accept();
        return;
      }
      socket := Some(c);
      if forked {
        child := new Server.Fork(this, self, childPending);
        child.ContinueInChild();
      }
      place := AfterFork;
      socket := None;
      Accept();
      place := Idle;
    }

    /** The child's part of the accept handler. */
    method ContinueInChild()
      modifies this`acceptorOpen, this`waits, this`ready, this`ops
      ensures View() == old(View()).(acceptorOpen := false, waits := 0, ready := old(ready) + old(waits),
                                     chain := Echo.Read(old(View()).chain))
    {
      acceptorOpen := false;
      CancelSignal();
      Read();
    }

    /** `_signal.cancel()`: outstanding waits complete, their handlers are due. */
    method CancelSignal()
      modifies this`waits, this`ready
      ensures View() == old(View()).(waits := 0, ready := old(ready) + old(waits))
    {
      waits, ready := 0, ready + waits;
    }

    method Read()
      modifies this`ops
      ensures View() == old(View()).(chain := Echo.Read(old(View()).chain))
    {
      ops := ops + [Echo.ReadOp];
    }

    method Write(length: nat)
      modifies this`ops
      ensures View() == old(View()).(chain := Echo.Write(old(View()).chain, length))
    {
      ops := ops + [Echo.WriteOp(length, 0)];
    }

    /** Read `i` completes with `bytes` in the buffer, or fails. */
    method OnRead(i: nat, ok: bool, bytes: seq<Byte>)
      requires Echo.Enabled(View().chain, if ok then Echo.ReadDone(i, bytes) else Echo.ReadFailed(i))
      modifies this`ops, this`received, this`failed, data
      ensures View() == old(View()).(chain := Echo.Handle(old(View()).chain,
                                                if ok then Echo.ReadDone(i, bytes) else Echo.ReadFailed(i)))
    {
      ops := Echo.Without(ops, i);
      if ok {
        forall k | 0 <= k < |bytes| {
          data[k] := bytes[k];
        }
        assert data[..] == bytes + old(data[..])[|bytes|..];
        received := received + bytes;
        Write(|bytes|);
      } else {
        failed := true;
      }
    }

    /** Write `i` completes, its last bytes having gone out, or fails. */
    method OnWrite(i: nat, ok: bool)
      requires Echo.Enabled(View().chain, if ok then Echo.WriteDone(i) else Echo.WriteFailed(i))
      modifies this`ops, this`sent, this`failed
      ensures View() == old(View()).(chain := Echo.Handle(old(View()).chain,
                                                if ok then Echo.WriteDone(i) else Echo.WriteFailed(i)))
    {
      if ok {
        sent := sent + data[ops[i].done..ops[i].length];
        ops := Echo.Without(ops, i);
        Read();
      } else {
        ops := Echo.Without(ops, i);
        failed := true;
      }
    }
  }
}
