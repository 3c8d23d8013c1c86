/** What the process-per-connection server guarantees in every run. */
module ForkProperties {
  import opened Codec
  import opened ForkSpec
  import Echo

  lemma AcceptedKeeps(s: System, p: Pid, forked: Option<Pid>, childPending: bool)
    requires Inv(s) && Possible(s, Accepted(p, forked, childPending))
    ensures Inv(Next(s, Accepted(p, forked, childPending)))
  {
    hide Echo.ChainInv;
    assert p == s.root;
    var s' := Next(s, Accepted(p, forked, childPending));
    if HasDeadChild(s', s.root) {
      var z :| IsDeadChild(s', s.root, z);
      assert IsDeadChild(s, s.root, z);
    }
    if forked.Some? {
      ForkedChain(s.procs[p].chain);
    }
  }

  lemma ForkedChain(c: Echo.Chain)
    requires c == Echo.Idle(c.data) && |c.data| == Echo.BUFFER_SIZE
    ensures Echo.ChainInv(Echo.Read(c)) && Echo.Read(c).ops == [Echo.ReadOp] && !Echo.Read(c).failed
  {
  }

  /** A step that changes only `p` itself, neither its life nor its family. */
  lemma LocalKeeps(s: System, p: Pid, pr: Process)
    requires Inv(s) && Alive(s, p)
    requires pr.life == Running && pr.parent == s.procs[p].parent
    requires p == s.root ==> RootInv(pr, HasDeadChild(s, s.root))
                             && (pr.place == AfterFork ==>
                                   s.procs[p].place == AfterFork && pr.socket == s.procs[p].socket)
    requires p != s.root ==> ChildInv(pr, p, s.root, s.owner) && pr.socket == s.procs[p].socket
    ensures Inv(s.(procs := s.procs[p := pr]))
  {
    hide RootInv, Echo.ChainInv;
    var s' := s.(procs := s.procs[p := pr]);
    forall z ensures IsDeadChild(s', s.root, z) <==> IsDeadChild(s, s.root, z) { }
    assert HasDeadChild(s', s.root) <==> HasDeadChild(s, s.root);
  }

  lemma ReapKeeps(s: System, p: Pid, child: Pid)
    requires Inv(s) && Possible(s, Reap(p, child))
    ensures p == s.root && Inv(Next(s, Reap(p, child)))
  {
    hide Echo.ChainInv;
    assert p == s.root;
  }

  lemma DieKeeps(s: System, p: Pid)
    requires Inv(s) && Alive(s, p) && p != s.root
    ensures Inv(Die(s, p))
  {
    hide Echo.ChainInv;
    var s' := Die(s, p);
    assert s.procs[p].parent == s.root;
    assert s'.procs[s.root] == s.procs[s.root].(pending := true);
  }

  lemma StepKeeps(s: System, step: Step)
    requires Inv(s)
    ensures Inv(Next(s, step))
  {
    if Possible(s, step) {
      var p, pr := step.p, s.procs[step.p];
      match step
      case Accepted(_, forked, childPending) => AcceptedKeeps(s, p, forked, childPending);
      case AcceptFailed(_) => LocalKeeps(s, p, pr.(accepts := pr.accepts - 1 + 1));
      case FinishAccept(_) => LocalKeeps(s, p, CloseAndAccept(pr));
      case Notify(_) => LocalKeeps(s, p, pr.(pending := false, waits := pr.waits - 1, ready := pr.ready + 1));
      case RunSignal(_) => LocalKeeps(s, p, EnterSignal(pr));
      case Reap(_, z) => ReapKeeps(s, p, z);
      case ReapNone(_) => LocalKeeps(s, p, Rearm(pr));
      case EchoEvent(_, e) => EchoKeeps(s, p, e);
      case Exit(_) => DieKeeps(s, p);
      case Kill(_) => DieKeeps(s, p);
    }
  }

  lemma EchoKeeps(s: System, p: Pid, e: Echo.Event)
    requires Inv(s) && Possible(s, EchoEvent(p, e))
    ensures Inv(Next(s, EchoEvent(p, e)))
  {
    var pr := s.procs[p];
    assert p != s.root;
    Echo.HandleKeeps(pr.chain, e);
    hide Echo.ChainInv, Echo.Enabled;
    LocalKeeps(s, p, pr.(chain := Echo.Handle(pr.chain, e)));
  }

  lemma {:induction false} RunInv(root: Pid, junk: seq<Byte>, steps: seq<Step>)
    requires |junk| == Echo.BUFFER_SIZE
    ensures Inv(Run(root, junk, steps)) && Run(root, junk, steps).root == root
  {
    if steps != [] {
      RunInv(root, junk, steps[..|steps| - 1]);
      StepKeeps(Run(root, junk, steps[..|steps| - 1]), steps[|steps| - 1]);
    }
  }

  // ---------------------------------------------------------------- zombies

  /** Zombie safety: whenever a dead child has not been reaped, the parent has a
      SIGCHLD pending, a signal handler due, or is in its reaping loop; so none is
      forgotten, although signals merge and children die during the loop. */
  lemma {:induction false} NoLostZombie(root: Pid, junk: seq<Byte>, steps: seq<Step>)
    requires |junk| == Echo.BUFFER_SIZE
    ensures var s := Run(root, junk, steps);
            && Alive(s, root)
            && var pr := s.procs[root];
               HasDeadChild(s, root) ==> pr.pending || pr.ready > 0 || pr.place == InReapLoop
  {
    RunInv(root, junk, steps);
  }

  /** A pending signal can always be passed on and a due handler run, once the
      parent's current handler has returned. */
  lemma {:induction false} ZombieIsReapable(root: Pid, junk: seq<Byte>, steps: seq<Step>)
    requires |junk| == Echo.BUFFER_SIZE && HasDeadChild(Run(root, junk, steps), root)
    ensures var s := Run(root, junk, steps);
            root in s.procs &&
            match s.procs[root].place
            case AfterFork => Possible(s, FinishAccept(root))
            case InReapLoop => exists z :: Possible(s, Reap(root, z))
            case Idle => Possible(s, RunSignal(root)) || Possible(s, Notify(root))
  {
    RunInv(root, junk, steps);
    var s := Run(root, junk, steps);
    var z :| IsDeadChild(s, root, z);
    assert s.procs[root].place == InReapLoop ==> Possible(s, Reap(root, z));
  }

  /** How many steps the parent is away from its reaping loop, once it has a
      signal to handle. */
  function Distance(pr: Process): nat {
    match pr.place
    case AfterFork => 3
    case Idle => if pr.ready == 0 then 2 else 1
    case InReapLoop => 0
  }

  ghost function DeadChildren(s: System, p: Pid): set<Pid> {
    set z | z in s.procs && IsDeadChild(s, p, z)
  }

  /** The parent's next step on its way to reap `z`. */
  function Towards(s: System, z: Pid): Step
    requires s.root in s.procs
  {
    match s.procs[s.root].place
    case AfterFork => FinishAccept(s.root)
    case Idle => if s.procs[s.root].ready == 0 then Notify(s.root) else RunSignal(s.root)
    case InReapLoop => Reap(s.root, z)
  }

  /** Of the processes other than `p`, only dead children of `p` have changed, and
      those that have are reaped. */
  ghost predicate OnlyReaps(s: System, s': System, p: Pid) {
    && s'.root == s.root && s'.procs.Keys == s.procs.Keys
    && forall c :: c in s.procs && c != p ==>
         || s'.procs[c] == s.procs[c]
         || (IsDeadChild(s, p, c) && s'.procs[c] == s.procs[c].(life := Reaped))
  }

  lemma TowardsReaps(s: System, z: Pid)
    requires Inv(s) && IsDeadChild(s, s.root, z)
    ensures var s' := Next(s, Towards(s, z));
            && OnlyReaps(s, s', s.root) && s'.root == s.root && s.root in s'.procs
            && |DeadChildren(s', s.root)| + Distance(s'.procs[s.root])
               < |DeadChildren(s, s.root)| + Distance(s.procs[s.root])
  {
    hide Echo.ChainInv;
    assert HasDeadChild(s, s.root);
    var s' := Next(s, Towards(s, z));
    if s.procs[s.root].place == InReapLoop {
      assert DeadChildren(s', s.root) == DeadChildren(s, s.root) - {z};
    } else {
      assert DeadChildren(s', s.root) == DeadChildren(s, s.root);
    }
  }

  ghost predicate TakenBy(p: Pid, steps: seq<Step>) {
    forall i :: 0 <= i < |steps| ==> steps[i].p == p
  }

  /** From every reachable state the parent alone comes, in a bounded number of its
      own steps, to a state in which every child that was dead has been reaped. */
  lemma {:induction false} ParentReapsAll(root: Pid, junk: seq<Byte>, steps: seq<Step>)
    requires |junk| == Echo.BUFFER_SIZE
    ensures var s := Run(root, junk, steps);
            exists more :: TakenBy(root, more) && |more| <= 3 + |DeadChildren(s, root)|
              && var s' := Run(root, junk, steps + more);
                 && !HasDeadChild(s', root) && s'.procs.Keys == s.procs.Keys
                 && forall z :: z in s.procs && IsDeadChild(s, root, z) ==> s'.procs[z].life == Reaped
  {
    RunInv(root, junk, steps);
    var s := Run(root, junk, steps);
    var more := ReapingSteps(s);
    RunThen(root, junk, steps, more);
    var s' := Run(root, junk, steps + more);
    forall z | z in s.procs && IsDeadChild(s, root, z) ensures s'.procs[z].life == Reaped {
      assert !IsDeadChild(s', root, z);
    }
    assert TakenBy(root, more);
  }

  /** The state after further steps from `s`. */
  ghost function RunFrom(s: System, steps: seq<Step>): System
    decreases |steps|
  {
    if steps == [] then s else RunFrom(Next(s, steps[0]), steps[1..])
  }

  lemma {:induction false} RunThen(root: Pid, junk: seq<Byte>, steps: seq<Step>, more: seq<Step>)
    ensures Run(root, junk, steps + more) == RunFrom(Run(root, junk, steps), more)
    decreases |more|
  {
    hide Next;
    if more == [] {
      assert steps + more == steps;
    } else {
      RunThen(root, junk, steps + [more[0]], more[1..]);
      assert (steps + [more[0]]) + more[1..] == steps + more;
      assert (steps + [more[0]])[..|steps|] == steps;
    }
  }

  lemma OnlyReapsNothing(s: System, p: Pid)
    ensures OnlyReaps(s, s, p)
  {
  }

  lemma OnlyReapsOnwards(a: System, b: System, c: System, p: Pid)
    requires OnlyReaps(a, b, p) && OnlyReaps(b, c, p)
    ensures OnlyReaps(a, c, p)
  {
  }

  lemma TakenByCons(p: Pid, step: Step, steps: seq<Step>)
    requires step.p == p && TakenBy(p, steps)
    ensures TakenBy(p, [step] + steps)
  {
  }

  lemma {:induction false} ReapingSteps(s: System) returns (more: seq<Step>)
    requires Inv(s)
    ensures var s' := RunFrom(s, more);
            && TakenBy(s.root, more) && Inv(s') && s'.root == s.root
            && |more| <= |DeadChildren(s, s.root)| + Distance(s.procs[s.root])
            && OnlyReaps(s, s', s.root) && !HasDeadChild(s', s.root)
    decreases |DeadChildren(s, s.root)| + Distance(s.procs[s.root])
  {
    hide Next, Distance, DeadChildren, OnlyReaps, RootInv, ChildInv;
    more := [];
    OnlyReapsNothing(s, s.root);
    if HasDeadChild(s, s.root) {
      var z :| IsDeadChild(s, s.root, z);
      var step := Towards(s, z);
      TowardsReaps(s, z);
      StepKeeps(s, step);
      var rest := ReapingSteps(Next(s, step));
      more := [step] + rest;
      assert more[1..] == rest;
      OnlyReapsOnwards(s, Next(s, step), RunFrom(s, more), s.root);
      TakenByCons(s.root, step, rest);
    }
  }

  /** The reaping loop ends: while the parent is in it the set of unreaped
      children never grows, whatever else runs, and every turn of the loop that
      does not leave it makes that set smaller. */
  lemma ReapLoopShrinks(s: System, step: Step)
    requires Inv(s) && s.procs[s.root].place == InReapLoop
    ensures Unreaped(Next(s, step), s.root) <= Unreaped(s, s.root)
    ensures Possible(s, step) && step.Reap? ==> Unreaped(Next(s, step), s.root) < Unreaped(s, s.root)
    ensures Possible(s, step) && step.ReapNone? ==>
              Next(s, step).procs[s.root].place == Idle && !HasDeadChild(Next(s, step), s.root)
  {
    hide Echo.ChainInv, Echo.Handle, Echo.Enabled;
    if Possible(s, step) {
      match step
      case Reap(p, z) =>
        assert p == s.root;
        var s' := Next(s, step);
        assert z in Unreaped(s, s.root) && z !in Unreaped(s', s.root);
      case ReapNone(p) =>
        var s' := Next(s, step);
        assert p == s.root;
        forall z ensures !IsDeadChild(s', p, z) { assert !IsDeadChild(s, p, z); }
      case _ =>
    }
  }

  // ---------------------------------------------------------------- deaths

  /** A child that dies, by itself or by a signal, stays behind dead until it is
      reaped, its parent is told, and nobody else is affected. */
  lemma {:induction false} DeathLeavesZombie(root: Pid, junk: seq<Byte>, steps: seq<Step>, p: Pid, step: Step)
    requires |junk| == Echo.BUFFER_SIZE && p != root && Alive(Run(root, junk, steps), p)
    requires var pr := Run(root, junk, steps).procs[p];
             step == Kill(p) || (step == Exit(p) && pr.chain.failed && pr.ready == 0)
    ensures var s, s' := Run(root, junk, steps), Run(root, junk, steps + [step]);
            && IsDeadChild(s', root, p) && s'.reaps == s.reaps && s'.owner == s.owner
            && root in s.procs && root in s'.procs && s'.procs[root] == s.procs[root].(pending := true)
            && s'.procs.Keys == s.procs.Keys
            && forall q :: q in s.procs && q != p && q != root ==> s'.procs[q] == s.procs[q]
  {
    RunInv(root, junk, steps);
    assert (steps + [step])[..|steps|] == steps;
    hide Echo.ChainInv, HasDeadChild;
  }

  /** Every child is reaped at most once, by its parent, and is gone exactly then. */
  lemma {:induction false} ReapedOnce(root: Pid, junk: seq<Byte>, steps: seq<Step>, p: Pid)
    requires |junk| == Echo.BUFFER_SIZE
    ensures var s := Run(root, junk, steps);
            multiset(s.reaps)[(root, p)]
            == if p in s.procs && p != root && s.procs[p].life == Reaped then 1 else 0
  {
    if steps != [] {
      var before, last := steps[..|steps| - 1], steps[|steps| - 1];
      ReapedOnce(root, junk, before, p);
      RunInv(root, junk, before);
      hide Inv, Next, Possible;
      StepReapsOnce(Run(root, junk, before), p, last);
    }
  }

  lemma StepReapsOnce(s: System, p: Pid, step: Step)
    requires Inv(s)
    ensures var s' := Next(s, step);
            var was := p in s.procs && p != s.root && s.procs[p].life == Reaped;
            var now := p in s'.procs && p != s.root && s'.procs[p].life == Reaped;
            multiset(s'.reaps)[(s.root, p)] - multiset(s.reaps)[(s.root, p)] == Count(now) - Count(was)
  {
    hide Echo.ChainInv, HasDeadChild;
    if Possible(s, step) && step.Reap? {
      ReapKeeps(s, step.p, step.child);
      assert multiset(s.reaps + [(step.p, step.child)]) == multiset(s.reaps) + multiset{(step.p, step.child)};
    }
  }

  ghost function Deaths(root: Pid, junk: seq<Byte>, steps: seq<Step>): nat {
    if steps == [] then 0 else
    var before, last := steps[..|steps| - 1], steps[|steps| - 1];
    Deaths(root, junk, before) + Count((last.Exit? || last.Kill?) && Possible(Run(root, junk, before), last))
  }

  /** How often the parent's signal handler has begun to run. */
  ghost function Handled(root: Pid, junk: seq<Byte>, steps: seq<Step>): nat {
    if steps == [] then 0 else
    var before, last := steps[..|steps| - 1], steps[|steps| - 1];
    Handled(root, junk, before) + Count(last == RunSignal(root) && Possible(Run(root, junk, before), last))
  }

  ghost function Notices(root: Pid, junk: seq<Byte>, steps: seq<Step>): nat {
    if steps == [] then 0 else
    var before, last := steps[..|steps| - 1], steps[|steps| - 1];
    Notices(root, junk, before) + Count(last == Notify(root) && Possible(Run(root, junk, before), last))
  }

  /** The parent is told of deaths, several at once perhaps, and of nothing else; its
      handler runs once for each time. */
  lemma {:induction false} NoticesAreDeaths(root: Pid, junk: seq<Byte>, steps: seq<Step>)
    requires |junk| == Echo.BUFFER_SIZE
    ensures var s := Run(root, junk, steps);
            && root in s.procs
            && Handled(root, junk, steps) + s.procs[root].ready == Notices(root, junk, steps)
            && Notices(root, junk, steps) + Count(s.procs[root].pending) <= Deaths(root, junk, steps)
  {
    RunInv(root, junk, steps);
    if steps != [] {
      var before, last := steps[..|steps| - 1], steps[|steps| - 1];
      NoticesAreDeaths(root, junk, before);
      RunInv(root, junk, before);
      hide Inv, Next, Possible;
      StepNotices(Run(root, junk, before), last);
    }
  }

  lemma StepNotices(s: System, step: Step)
    requires Inv(s)
    ensures var s' := Next(s, step);
            && s.root in s.procs && s.root in s'.procs
            && Count(step == Notify(s.root) && Possible(s, step)) + Count(s'.procs[s.root].pending)
               <= Count(s.procs[s.root].pending) + Count((step.Exit? || step.Kill?) && Possible(s, step))
            && Count(step == RunSignal(s.root) && Possible(s, step)) + s'.procs[s.root].ready
               == s.procs[s.root].ready + Count(step == Notify(s.root) && Possible(s, step))
            && (s.procs[s.root].pending && step != Notify(s.root) ==> s'.procs[s.root].pending)
  {
    hide Echo.ChainInv, HasDeadChild;
  }

  /** A signal that has arrived stays until it is passed on to the handler. */
  lemma {:induction false} SignalStays(root: Pid, junk: seq<Byte>, steps: seq<Step>, more: seq<Step>)
    requires |junk| == Echo.BUFFER_SIZE && root in Run(root, junk, steps).procs
    requires Run(root, junk, steps).procs[root].pending && Notify(root) !in more
    ensures var s' := Run(root, junk, steps + more);
            root in s'.procs && s'.procs[root].pending
  {
    if more == [] {
      assert steps + more == steps;
    } else {
      var init, last := more[..|more| - 1], more[|more| - 1];
      SignalStays(root, junk, steps, init);
      RunInv(root, junk, steps + init);
      assert (steps + more)[..|steps + more| - 1] == steps + init;
      hide Inv, Next, Possible;
      StepNotices(Run(root, junk, steps + init), last);
    }
  }

  // ---------------------------------------------------------------- accepting

  /** The parent is between handlers and has an accept outstanding: a connection can
      be accepted, into a process with any unused id or with a fork that fails, and
      an accept that fails changes nothing. */
  ghost predicate Accepts(s: System, p: Pid) {
    && Alive(s, p) && s.procs[p].place == Idle && s.procs[p].socket == None
    && (forall pid: Pid, pending: bool :: pid !in s.procs ==> Possible(s, Accepted(p, Some(pid), pending)))
    && (forall pending: bool :: Possible(s, Accepted(p, None, pending)))
    && Possible(s, AcceptFailed(p)) && Next(s, AcceptFailed(p)) == s
  }

  lemma IdleAccepts(s: System)
    requires Inv(s) && s.procs[s.root].place == Idle
    ensures Accepts(s, s.root)
  {
    hide Echo.ChainInv, ChildInv, HasDeadChild;
    var pr := s.procs[s.root];
    assert s.procs[s.root := pr.(accepts := pr.accepts - 1 + 1)] == s.procs;
  }

  /** The step that brings a parent without dead children out of its handler. */
  lemma LeavesHandler(s: System)
    requires Inv(s) && !HasDeadChild(s, s.root) && s.procs[s.root].place != Idle
    ensures var step := if s.procs[s.root].place == AfterFork then FinishAccept(s.root) else ReapNone(s.root);
            var s' := Next(s, step);
            && Inv(s') && s'.root == s.root && s'.procs.Keys == s.procs.Keys && !HasDeadChild(s', s.root)
            && s'.procs[s.root].place == Idle && s'.procs[s.root].pending == s.procs[s.root].pending
  {
    var step := if s.procs[s.root].place == AfterFork then FinishAccept(s.root) else ReapNone(s.root);
    StepKeeps(s, step);
    hide Echo.ChainInv, RootInv, ChildInv;
    forall z ensures !IsDeadChild(Next(s, step), s.root, z) { assert !IsDeadChild(s, s.root, z); }
  }

  /** The server goes on: from every reachable state the parent alone comes back, in
      a bounded number of its own steps, to a state in which no child is dead and it
      accepts the next connection. */
  lemma {:induction false} AcceptsAgain(root: Pid, junk: seq<Byte>, steps: seq<Step>)
    requires |junk| == Echo.BUFFER_SIZE
    ensures var s := Run(root, junk, steps);
            exists more :: TakenBy(root, more) && |more| <= 4 + |DeadChildren(s, root)|
              && var s' := Run(root, junk, steps + more);
                 s'.procs.Keys == s.procs.Keys && !HasDeadChild(s', root) && Accepts(s', root)
  {
    hide Run, RunFrom, Next, Inv, HasDeadChild, Accepts, TakenBy, DeadChildren;
    RunInv(root, junk, steps);
    var more := StepsToIdle(Run(root, junk, steps));
    RunThen(root, junk, steps, more);
    IdleAccepts(RunFrom(Run(root, junk, steps), more));
    assert TakenBy(root, more);
  }

  lemma {:induction false} StepsToIdle(s: System) returns (more: seq<Step>)
    requires Inv(s)
    ensures var s' := RunFrom(s, more);
            && TakenBy(s.root, more) && |more| <= 4 + |DeadChildren(s, s.root)|
            && Inv(s') && s'.root == s.root && s'.procs.Keys == s.procs.Keys
            && !HasDeadChild(s', s.root) && s'.procs[s.root].place == Idle
  {
    hide Next, Inv, HasDeadChild, TakenBy, DeadChildren, RunFrom;
    more := ReapingSteps(s);
    var s1 := RunFrom(s, more);
    RootIsThere(s1);
    if s1.procs[s.root].place != Idle {
      var step := if s1.procs[s.root].place == AfterFork then FinishAccept(s.root) else ReapNone(s.root);
      LeavesHandler(s1);
      RunFromSnoc(s, more, step);
      TakenBySnoc(s.root, more, step);
      more := more + [step];
    }
  }

  lemma RootIsThere(s: System)
    requires Inv(s)
    ensures s.root in s.procs
  {
  }

  lemma {:induction false} RunFromSnoc(s: System, steps: seq<Step>, step: Step)
    ensures RunFrom(s, steps + [step]) == Next(RunFrom(s, steps), step)
    decreases |steps|
  {
    hide Next;
    if steps == [] {
      assert RunFrom(s, [step]) == RunFrom(Next(s, step), [step][1..]);
      assert steps + [step] == [step];
    } else {
      RunFromSnoc(Next(s, steps[0]), steps[1..], step);
      assert (steps + [step])[1..] == steps[1..] + [step];
    }
  }

  lemma RunSnoc(root: Pid, junk: seq<Byte>, steps: seq<Step>, step: Step)
    ensures Run(root, junk, steps + [step]) == Next(Run(root, junk, steps), step)
  {
    assert (steps + [step])[..|steps|] == steps;
  }

  lemma TakenBySnoc(p: Pid, steps: seq<Step>, step: Step)
    requires step.p == p && TakenBy(p, steps)
    ensures TakenBy(p, steps + [step])
  {
  }

  // ---------------------------------------------------------------- roles

  /** Process roles: only the root has its acceptor open, and between handlers it
      has exactly one accept and one signal wait (or its due handler); every other
      process is a child of the root, never waits for accepts or signals, and never reaps. */
  lemma {:induction false} ProcessRoles(root: Pid, junk: seq<Byte>, steps: seq<Step>, p: Pid)
    requires |junk| == Echo.BUFFER_SIZE && Alive(Run(root, junk, steps), p)
    ensures var s := Run(root, junk, steps);
            var pr := s.procs[p];
            && (pr.acceptorOpen <==> p == root)
            && (p == root && pr.place == Idle ==> pr.accepts == 1 && pr.waits + pr.ready == 1)
            && (p != root ==> pr.parent == root && pr.accepts == 0 && pr.waits == 0 && pr.place == Idle)
            && (forall i :: 0 <= i < |s.reaps| ==> s.reaps[i].0 == root)
  {
    RunInv(root, junk, steps);
  }

  /** What one accept does: the forked child holds the new connection, is not
      accepting and starts to read; the parent still holds it and is about to
      close it, and will then accept again; a failed fork only costs the connection. */
  lemma ForkSplitsRoles(s: System, forked: Option<Pid>, childPending: bool)
    requires Inv(s) && Possible(s, Accepted(s.root, forked, childPending))
    ensures var s1 := Next(s, Accepted(s.root, forked, childPending));
            var s2 := Next(s1, FinishAccept(s.root));
            && s1.procs.Keys == s.procs.Keys + (if forked.Some? then {forked.value} else {})
            && (forked.Some? ==>
                  var child := s1.procs[forked.value];
                  && child.life == Running && !child.acceptorOpen && child.socket == Some(|s.owner|)
                  && child.accepts == 0 && child.waits == 0
                  && child.ready == s.procs[s.root].ready + s.procs[s.root].waits
                  && child.chain.received == [] && child.chain.sent == []
                  && child.chain.ops == [Echo.ReadOp] && child.chain.data == s.procs[s.root].chain.data)
            && s1.procs[s.root].place == AfterFork && s1.procs[s.root].socket == Some(|s.owner|)
            && s2.procs[s.root] == s.procs[s.root]
            && s2.owner == s.owner + [forked] && s2.reaps == s.reaps
            && (forall p :: p in s.procs && p != s.root ==> s2.procs[p] == s.procs[p])
  {
    hide Echo.ChainInv;
  }

  /** A child has no work left exactly when its echo chain has failed and the cancelled
      signal wait that it inherited has run, so it can only exit; the root never can. */
  lemma {:induction false} ChildRunsOut(root: Pid, junk: seq<Byte>, steps: seq<Step>, p: Pid)
    requires |junk| == Echo.BUFFER_SIZE && Alive(Run(root, junk, steps), p)
    ensures var s := Run(root, junk, steps);
            && (p == root ==> !OutOfWork(s.procs[p]))
            && (p != root ==> (Possible(s, Exit(p)) <==> s.procs[p].chain.failed && s.procs[p].ready == 0))
            && (p != root && !s.procs[p].chain.failed ==> |s.procs[p].chain.ops| == 1)
            && (p != root ==> s.procs[p].ready <= 1)
            && (p != root && s.procs[p].ready == 1 ==>
                  && Possible(s, RunSignal(p))
                  && Next(s, RunSignal(p)).procs[p] == s.procs[p].(ready := 0))
  {
    RunInv(root, junk, steps);
  }

  /** Every accepted connection is open in exactly one process while its child
      runs, in none if the fork failed or the child has died; only between `fork`
      and `close` does the parent hold it too. */
  lemma {:induction false} ConnectionsHeldOnce(root: Pid, junk: seq<Byte>, steps: seq<Step>, c: ConnId, p: Pid)
    requires |junk| == Echo.BUFFER_SIZE
    requires var s := Run(root, junk, steps); c < |s.owner| && Alive(s, p)
    ensures var s := Run(root, junk, steps);
            s.procs[p].socket == Some(c)
            <==> s.owner[c] == Some(p) || (p == root && s.procs[p].place == AfterFork && c == |s.owner| - 1)
  {
    RunInv(root, junk, steps);
  }

  /** All bytes that the reads of process `p` brought in. */
  ghost function DataIn(root: Pid, junk: seq<Byte>, steps: seq<Step>, p: Pid): seq<Byte> {
    if steps == [] then [] else
    var before := steps[..|steps| - 1];
    DataIn(root, junk, before, p) + ReadBy(Run(root, junk, before), p, steps[|steps| - 1])
  }

  ghost function ReadBy(s: System, p: Pid, step: Step): seq<Byte> {
    match step
    case EchoEvent(q, ReadDone(_, bytes)) => if q == p && Possible(s, step) then bytes else []
    case _ => []
  }

  lemma {:induction false} DataInIsReceived(root: Pid, junk: seq<Byte>, steps: seq<Step>, p: Pid)
    requires |junk| == Echo.BUFFER_SIZE
    ensures var s := Run(root, junk, steps);
            DataIn(root, junk, steps, p) == if p in s.procs then s.procs[p].chain.received else []
  {
    if steps != [] {
      var before, last := steps[..|steps| - 1], steps[|steps| - 1];
      DataInIsReceived(root, junk, before, p);
      RunInv(root, junk, before);
      hide Next, Inv, ReadBy;
      StepReads(Run(root, junk, before), p, last);
    }
  }

  lemma StepReads(s: System, p: Pid, step: Step)
    requires Inv(s)
    ensures var s' := Next(s, step);
            if p in s.procs then
              p in s'.procs && s'.procs[p].chain.received == s.procs[p].chain.received + ReadBy(s, p, step)
            else
              ReadBy(s, p, step) == [] && (p in s'.procs ==> s'.procs[p].chain.received == [])
  {
    hide Echo.ChainInv, ChildInv, HasDeadChild;
    if Possible(s, step) {
      match step
      case EchoEvent(q, e) =>
        Echo.StepReceives(s.procs[q].chain, e);
      case Accepted(_, _, _) =>
        assert step.p == s.root by { OnlyRootAccepts(s, step); }
      case _ =>
    }
  }

  lemma OnlyRootAccepts(s: System, step: Step)
    requires Inv(s) && step.Accepted? && Possible(s, step)
    ensures step.p == s.root
  {
  }

  /** Each child echoes from the moment it is forked: it has one operation
      outstanding on its connection until one fails, and it has sent back a prefix
      of what its reads brought in, all of it when a read is outstanding. */
  lemma {:induction false} ChildrenEcho(root: Pid, junk: seq<Byte>, steps: seq<Step>, p: Pid)
    requires |junk| == Echo.BUFFER_SIZE && Alive(Run(root, junk, steps), p) && p != root
    ensures Echo.Echoes(Run(root, junk, steps).procs[p].chain, DataIn(root, junk, steps, p))
  {
    hide Next, DataIn, Echo.Echoes, Echo.ChainInv;
    RunInv(root, junk, steps);
    DataInIsReceived(root, junk, steps, p);
    ChildChain(Run(root, junk, steps), p);
    Echo.InvEchoes(Run(root, junk, steps).procs[p].chain);
  }

  lemma ChildChain(s: System, p: Pid)
    requires Inv(s) && Alive(s, p) && p != s.root
    ensures Echo.ChainInv(s.procs[p].chain) && (s.procs[p].chain.ops == [] <==> s.procs[p].chain.failed)
  {
    hide Echo.ChainInv;
  }

  lemma EchoHappens(s: System, p: Pid, e: Echo.Event)
    requires Inv(s) && Alive(s, p) && p != s.root && Echo.Enabled(s.procs[p].chain, e)
    ensures var s' := Next(s, EchoEvent(p, e));
            && Alive(s', p) && s'.root == s.root && s'.procs[p].chain == Echo.Step(s.procs[p].chain, e)
            && s' == s.(procs := s.procs[p := s'.procs[p]])
  {
    hide Echo.ChainInv;
  }

  /** A child's reads and writes go on whatever state the other processes are in:
      whatever data of up to 1024 bytes comes while it reads is sent back, and an
      operation that fails ends its chain. */
  lemma {:induction false} ChildGoesOn(root: Pid, junk: seq<Byte>, steps: seq<Step>, p: Pid, bytes: seq<Byte>)
    requires |junk| == Echo.BUFFER_SIZE && Alive(Run(root, junk, steps), p) && p != root
    requires Run(root, junk, steps).procs[p].chain.ops == [Echo.ReadOp] && |bytes| <= 1024
    ensures var s := Run(root, junk, steps);
            var read := steps + [EchoEvent(p, Echo.ReadDone(0, bytes))];
            var s' := Run(root, junk, read + [EchoEvent(p, Echo.WriteDone(0))]);
            && Alive(s', p) && s'.procs[p].chain.sent == s.procs[p].chain.sent + bytes
            && s'.procs[p].chain.ops == [Echo.ReadOp]
    ensures var s' := Run(root, junk, steps + [EchoEvent(p, Echo.ReadFailed(0))]);
            Alive(s', p) && s'.procs[p].chain.failed && s'.procs[p].chain.ops == []
    ensures var read := steps + [EchoEvent(p, Echo.ReadDone(0, bytes))];
            var s' := Run(root, junk, read + [EchoEvent(p, Echo.WriteFailed(0))]);
            Alive(s', p) && s'.procs[p].chain.failed && s'.procs[p].chain.ops == []
  {
    hide Run, Next, Inv, Alive;
    var s := Run(root, junk, steps);
    var read := [EchoEvent(p, Echo.ReadDone(0, bytes))];
    RunInv(root, junk, steps);
    RunSnoc(root, junk, steps, EchoEvent(p, Echo.ReadFailed(0)));
    RunSnoc(root, junk, steps, read[0]);
    RunInv(root, junk, steps + read);
    RunSnoc(root, junk, steps + read, EchoEvent(p, Echo.WriteDone(0)));
    RunSnoc(root, junk, steps + read, EchoEvent(p, Echo.WriteFailed(0)));
    AliveIsThere(s, p);
    ChildChain(s, p);
    TwoEvents(s.procs[p].chain, bytes);
    EchoHappens(s, p, Echo.ReadFailed(0));
    EchoHappens(s, p, Echo.ReadDone(0, bytes));
    AliveIsThere(Next(s, read[0]), p);
    EchoHappens(Next(s, read[0]), p, Echo.WriteDone(0));
    EchoHappens(Next(s, read[0]), p, Echo.WriteFailed(0));
    AliveIsThere(Next(Next(s, read[0]), EchoEvent(p, Echo.WriteDone(0))), p);
    AliveIsThere(Next(Next(s, read[0]), EchoEvent(p, Echo.WriteFailed(0))), p);
    AliveIsThere(Next(s, EchoEvent(p, Echo.ReadFailed(0))), p);
  }

  lemma AliveIsThere(s: System, p: Pid)
    requires Alive(s, p)
    ensures p in s.procs
  {
  }

  lemma TwoEvents(c: Echo.Chain, bytes: seq<Byte>)
    requires Echo.ChainInv(c) && c.ops == [Echo.ReadOp] && |bytes| <= 1024
    ensures Echo.Enabled(c, Echo.ReadFailed(0)) && Echo.Enabled(c, Echo.ReadDone(0, bytes))
    ensures var mid := Echo.Step(c, Echo.ReadDone(0, bytes));
            && Echo.Enabled(mid, Echo.WriteDone(0)) && Echo.Enabled(mid, Echo.WriteFailed(0))
            && var end := Echo.Step(mid, Echo.WriteDone(0));
               && end.sent == c.sent + bytes && end.ops == [Echo.ReadOp]
               && Echo.Step(mid, Echo.WriteFailed(0)).failed && Echo.Step(mid, Echo.WriteFailed(0)).ops == []
    ensures Echo.Step(c, Echo.ReadFailed(0)).failed && Echo.Step(c, Echo.ReadFailed(0)).ops == []
  {
    var data := bytes + c.data[|bytes|..];
    assert Echo.Step(c, Echo.ReadDone(0, bytes))
           == Echo.Chain(data, [Echo.WriteOp(|bytes|, 0)], c.received + bytes, c.sent, c.failed);
    assert data[0..|bytes|] == bytes;
  }
}
