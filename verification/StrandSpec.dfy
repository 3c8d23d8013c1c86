/** The two-timer program of `syn_multi_thread.cpp`: any number of threads call
    `run`, the handlers of all timers share one strand, and every read, write and
    print of a handler is a step of its own, interleaved in any way. The limit
    (10 in the program) and the timers (two in the program) are parameters. */
module StrandSpec {
  import opened Codec

  type Thread = nat
  type Timer = nat

  /** Where a handler is: at the test, the print, the two halves of `++_count`,
      or the re-arming of its timer. */
  datatype Place = Test | Print | Load | Store(value: nat) | Rearm

  datatype Handler = Handler(timer: Timer, place: Place)

  /** `armed` timers wait to expire, `queued` handlers wait for the strand,
      `running` are the handlers that threads are in, `holder` is the thread the
      strand is executing on. History: `printed`, the handlers `done` in order,
      and the timers `ended`, which were not armed again. */
  datatype State = State(limit: nat, threads: set<Thread>, timers: set<Timer>,
                         count: nat, armed: set<Timer>, queued: set<Timer>,
                         holder: Option<Thread>, running: map<Thread, Handler>,
                         printed: seq<(Timer, nat)>, done: seq<Timer>, ended: set<Timer>)

  datatype Step =
    | Expire(timer: Timer)
    | Begin(thread: Thread, timer: Timer)
    | Advance(thread: Thread)

  /** The constructor arms every timer. */
  function Initial(limit: nat, threads: set<Thread>, timers: set<Timer>): State {
    State(limit, threads, timers, 0, timers, {}, None, map[], [], [], {})
  }

  predicate Possible(s: State, step: Step) {
    match step
    case Expire(x) => x in s.armed
    case Begin(t, x) => t in s.threads && t !in s.running && x in s.queued && s.holder == None
    case Advance(t) => t in s.running
  }

  /** The handler of thread `t` returns and the strand is free again. */
  function Finish(s: State, t: Thread): State
    requires t in s.running
  {
    s.(running := s.running - {t}, holder := None, done := s.done + [s.running[t].timer])
  }

  /** A step; one that is not possible changes nothing. */
  function Next(s: State, step: Step): State {
    if !Possible(s, step) then s else
    match step
    case Expire(x) => s.(armed := s.armed - {x}, queued := s.queued + {x})
    case Begin(t, x) =>
      s.(queued := s.queued - {x}, holder := Some(t), running := s.running[t := Handler(x, Test)])
    case Advance(t) =>
      var x := s.running[t].timer;
      match s.running[t].place
      case Test =>
        if s.count < s.limit then s.(running := s.running[t := Handler(x, Print)])
        else Finish(s.(ended := s.ended + {x}), t)
      case Print => s.(printed := s.printed + [(x, s.count)], running := s.running[t := Handler(x, Load)])
      case Load => s.(running := s.running[t := Handler(x, Store(s.count))])
      case Store(v) => s.(count := v + 1, running := s.running[t := Handler(x, Rearm)])
      case Rearm => Finish(s.(armed := s.armed + {x}), t)
  }

  function Run(s0: State, steps: seq<Step>): State {
    if steps == [] then s0 else Next(Run(s0, steps[..|steps| - 1]), steps[|steps| - 1])
  }

  // ---------------------------------------------------------------- one handler at a time

  /** What the handlers do when each runs alone and at once. */
  datatype Sequential = Sequential(count: nat, printed: seq<(Timer, nat)>, ended: set<Timer>, ends: nat)

  function Fire(q: Sequential, limit: nat, x: Timer): Sequential {
    if q.count < limit then q.(count := q.count + 1, printed := q.printed + [(x, q.count)])
    else q.(ended := q.ended + {x}, ends := q.ends + 1)
  }

  function FireAll(limit: nat, order: seq<Timer>): Sequential {
    if order == [] then Sequential(0, [], {}, 0)
    else Fire(FireAll(limit, order[..|order| - 1]), limit, order[|order| - 1])
  }

  lemma FireAllSnoc(limit: nat, order: seq<Timer>, x: Timer)
    ensures FireAll(limit, order + [x]) == Fire(FireAll(limit, order), limit, x)
  {
    assert (order + [x])[..|order|] == order;
  }

  lemma {:induction false} FireAllFacts(limit: nat, order: seq<Timer>)
    ensures var q := FireAll(limit, order);
            && q.count <= limit
            && |q.printed| == q.count
            && (forall i :: 0 <= i < |q.printed| ==> q.printed[i].1 == i)
            && |order| == q.count + q.ends
            && (q.ended != {} ==> q.count == limit)
  {
    if order != [] {
      FireAllFacts(limit, order[..|order| - 1]);
    }
  }

  // ---------------------------------------------------------------- invariant

  function RunningTimers(s: State): set<Timer> {
    if s.holder.Some? && s.holder.value in s.running then {s.running[s.holder.value].timer} else {}
  }

  /** Every timer is armed, queued, in a running handler, or ended. */
  ghost predicate Partition(s: State) {
    && s.timers == s.armed + s.queued + RunningTimers(s) + s.ended
    && s.armed !! s.queued !! RunningTimers(s) !! s.ended
  }

  /** The strand's holder is the only thread in a handler, and what that handler
      has done so far comes on top of what the finished handlers did one by one. */
  ghost predicate Inv(s: State) {
    var q := FireAll(s.limit, s.done);
    && Partition(s)
    && q.ended == s.ended && q.ends == |s.ended|
    && match s.holder
       case None => s.running == map[] && s.count == q.count && s.printed == q.printed
       case Some(t) =>
         && s.running.Keys == {t}
         && var x := s.running[t].timer;
            match s.running[t].place
            case Test => s.count == q.count && s.printed == q.printed
            case Print => s.count == q.count < s.limit && s.printed == q.printed
            case Load => s.count == q.count < s.limit && s.printed == q.printed + [(x, q.count)]
            case Store(v) => v == s.count == q.count < s.limit && s.printed == q.printed + [(x, q.count)]
            case Rearm => s.count == q.count + 1 <= s.limit && s.printed == q.printed + [(x, q.count)]
  }

  lemma InitialInv(limit: nat, threads: set<Thread>, timers: set<Timer>)
    ensures Inv(Initial(limit, threads, timers))
  {
  }

  lemma FinishKeepsPartition(s: State, t: Thread, x: Timer, armed: set<Timer>, ended: set<Timer>)
    requires Partition(s) && s.holder == Some(t) && s.running.Keys == {t} && s.running[t].timer == x
    requires (armed == s.armed + {x} && ended == s.ended) || (armed == s.armed && ended == s.ended + {x})
    ensures Partition(Finish(s.(armed := armed, ended := ended), t))
    ensures Finish(s.(armed := armed, ended := ended), t).running == map[]
  {
    assert (s.running - {t}).Keys == {};
  }

  lemma SamePartition(s: State, s': State)
    requires Partition(s) && s'.timers == s.timers && s'.armed == s.armed && s'.queued == s.queued
    requires s'.ended == s.ended && RunningTimers(s') == RunningTimers(s)
    ensures Partition(s')
  {
  }

  /** A step inside the handler of thread `t`. */
  lemma InsideKeeps(s: State, t: Thread)
    requires Inv(s) && s.holder == Some(t) && t in s.running
    requires s.running[t].place == Test ==> s.count < s.limit
    requires s.running[t].place != Rearm
    ensures Inv(Next(s, Advance(t)))
  {
    hide Partition, FireAll, RunningTimers;
    var s' := Next(s, Advance(t));
    InsideTimers(s, t);
    SamePartition(s, s');
  }

  lemma InsideTimers(s: State, t: Thread)
    requires s.holder == Some(t) && t in s.running && s.running[t].place != Rearm
    requires s.running[t].place == Test ==> s.count < s.limit
    ensures var s' := Next(s, Advance(t));
            && s'.running.Keys == s.running.Keys && s'.running[t].timer == s.running[t].timer
            && RunningTimers(s') == RunningTimers(s)
  {
  }

  /** Between handlers the invariant only compares with the sequential run. */
  lemma IdleInv(s: State, q: Sequential)
    requires Partition(s) && s.holder == None && s.running == map[] && q == FireAll(s.limit, s.done)
    requires s.count == q.count && s.printed == q.printed && s.ended == q.ended && |s.ended| == q.ends
    ensures Inv(s)
  {
    hide Partition, FireAll;
  }

  lemma InHandler(s: State, t: Thread)
    requires Inv(s) && s.holder == Some(t) && t in s.running
    ensures Partition(s) && s.running.Keys == {t} && s.running[t].timer in RunningTimers(s)
    ensures var q, x := FireAll(s.limit, s.done), s.running[t].timer;
            && q.ended == s.ended && q.ends == |s.ended|
            && (s.running[t].place == Test ==> s.count == q.count && s.printed == q.printed)
            && (s.running[t].place == Rearm ==>
                  q.count < s.limit && s.count == q.count + 1 && s.printed == q.printed + [(x, q.count)])
  {
    hide Partition, FireAll;
  }

  lemma Returned(s: State, t: Thread)
    requires s.running.Keys == {t}
    ensures var s' := Finish(s, t);
            && s'.running == map[] && s'.holder == None && s'.done == s.done + [s.running[t].timer]
            && s' == s.(running := s'.running, holder := s'.holder, done := s'.done)
  {
    assert (s.running - {t}).Keys == {};
  }

  /** The last step of the handler of thread `t`, which ends its timer. */
  lemma EndKeeps(s: State, t: Thread)
    requires Inv(s) && s.holder == Some(t) && t in s.running
    requires s.running[t].place == Test && s.count >= s.limit
    ensures Inv(Finish(s.(ended := s.ended + {s.running[t].timer}), t))
  {
    hide Inv, Partition, FireAll, Finish, RunningTimers;
    var x := s.running[t].timer;
    InHandler(s, t);
    FireAllSnoc(s.limit, s.done, x);
    FinishKeepsPartition(s, t, x, s.armed, s.ended + {x});
    EndedIsNew(s, x);
    var last := s.(armed := s.armed, ended := s.ended + {x});
    Returned(last, t);
    IdleInv(Finish(last, t), FireAll(s.limit, s.done + [x]));
  }

  /** The last step of the handler of thread `t`, which arms its timer. */
  lemma RearmKeeps(s: State, t: Thread)
    requires Inv(s) && s.holder == Some(t) && t in s.running && s.running[t].place == Rearm
    ensures Inv(Finish(s.(armed := s.armed + {s.running[t].timer}), t))
  {
    hide Inv, Partition, FireAll, Finish, RunningTimers;
    var x := s.running[t].timer;
    InHandler(s, t);
    FireAllSnoc(s.limit, s.done, x);
    FinishKeepsPartition(s, t, x, s.armed + {x}, s.ended);
    var last := s.(armed := s.armed + {x}, ended := s.ended);
    Returned(last, t);
    IdleInv(Finish(last, t), FireAll(s.limit, s.done + [x]));
  }

  lemma EndedIsNew(s: State, x: Timer)
    requires Partition(s) && x in RunningTimers(s)
    ensures |s.ended + {x}| == |s.ended| + 1
  {
  }

  lemma HolderOf(s: State, t: Thread)
    requires Inv(s) && t in s.running
    ensures s.holder == Some(t)
  {
    hide Partition, FireAll;
    assert t in s.running.Keys;
  }

  lemma AdvanceKeeps(s: State, t: Thread)
    requires Inv(s) && t in s.running
    ensures Inv(Next(s, Advance(t)))
  {
    hide Inv, Finish, Partition, FireAll, RunningTimers;
    HolderOf(s, t);
    var place := s.running[t].place;
    if place == Rearm {
      RearmKeeps(s, t);
    } else if place == Test && s.count >= s.limit {
      EndKeeps(s, t);
    } else {
      InsideKeeps(s, t);
    }
  }

  lemma BeginKeeps(s: State, t: Thread, x: Timer)
    requires Inv(s) && Possible(s, Begin(t, x))
    ensures Inv(Next(s, Begin(t, x)))
  {
    BeginPartition(s, t, x);
    hide FireAll, Partition;
    assert s.running[t := Handler(x, Test)].Keys == {t};
  }

  lemma ExpireKeeps(s: State, x: Timer)
    requires Inv(s) && Possible(s, Expire(x))
    ensures Inv(Next(s, Expire(x)))
  {
    ExpirePartition(s, x);
    hide FireAll, Partition;
  }

  lemma BeginPartition(s: State, t: Thread, x: Timer)
    requires Partition(s) && x in s.queued && s.holder == None
    ensures Partition(s.(queued := s.queued - {x}, holder := Some(t), running := s.running[t := Handler(x, Test)]))
  {
  }

  lemma ExpirePartition(s: State, x: Timer)
    requires Partition(s) && x in s.armed
    ensures Partition(s.(armed := s.armed - {x}, queued := s.queued + {x}))
  {
  }

  lemma NextKeeps(s: State, step: Step)
    requires Inv(s)
    ensures Inv(Next(s, step))
  {
    hide Inv;
    if Possible(s, step) {
      match step
      case Expire(x) => ExpireKeeps(s, x);
      case Begin(t, x) => BeginKeeps(s, t, x);
      case Advance(t) => AdvanceKeeps(s, t);
    }
  }

  lemma ParametersStay(s: State, step: Step)
    ensures var s' := Next(s, step); s'.limit == s.limit && s'.threads == s.threads && s'.timers == s.timers
  {
  }

  lemma {:induction false} RunInv(limit: nat, threads: set<Thread>, timers: set<Timer>, steps: seq<Step>)
    ensures var s := Run(Initial(limit, threads, timers), steps);
            Inv(s) && s.limit == limit && s.threads == threads && s.timers == timers
  {
    if steps == [] {
      InitialInv(limit, threads, timers);
    } else {
      hide Inv, Next, Initial;
      RunInv(limit, threads, timers, steps[..|steps| - 1]);
      var s := Run(Initial(limit, threads, timers), steps[..|steps| - 1]);
      NextKeeps(s, steps[|steps| - 1]);
      ParametersStay(s, steps[|steps| - 1]);
    }
  }

  // ---------------------------------------------------------------- properties

  /** Handlers never overlap: no two threads are in a handler, although several
      threads run and each handler is interrupted after every access. */
  lemma {:induction false} HandlersNeverOverlap(limit: nat, threads: set<Thread>, timers: set<Timer>,
                                                 steps: seq<Step>, t: Thread, u: Thread)
    requires var s := Run(Initial(limit, threads, timers), steps); t in s.running && u in s.running
    ensures t == u
  {
    RunInv(limit, threads, timers, steps);
  }

  /** Every interleaving is equivalent to running the finished handlers one by
      one: whenever no handler is running, the count, the output and the ended
      timers are those of that sequential run. */
  lemma {:induction false} InterleavingIsSequential(limit: nat, threads: set<Thread>, timers: set<Timer>,
                                                    steps: seq<Step>)
    requires Run(Initial(limit, threads, timers), steps).running == map[]
    ensures var s := Run(Initial(limit, threads, timers), steps);
            var q := FireAll(limit, s.done);
            s.count == q.count && s.printed == q.printed && s.ended == q.ended
  {
    RunInv(limit, threads, timers, steps);
    var s := Run(Initial(limit, threads, timers), steps);
    assert s.running.Keys == {};
  }

  /** At any moment of any run the numbers printed are 0, 1, 2 and so on without
      gap or repetition, never reaching the limit. */
  lemma {:induction false} PrintsCountUp(limit: nat, threads: set<Thread>, timers: set<Timer>, steps: seq<Step>, i: nat)
    requires i < |Run(Initial(limit, threads, timers), steps).printed|
    ensures var s := Run(Initial(limit, threads, timers), steps);
            s.printed[i].1 == i < limit
  {
    RunInv(limit, threads, timers, steps);
    FireAllFacts(limit, Run(Initial(limit, threads, timers), steps).done);
  }

  /** The timers whose handlers were begun, in the order of their beginning. */
  function Begun(s0: State, steps: seq<Step>): seq<Timer> {
    if steps == [] then [] else
    var before, last := steps[..|steps| - 1], steps[|steps| - 1];
    Begun(s0, before) + if last.Begin? && Possible(Run(s0, before), last) then [last.timer] else []
  }

  function Underway(s: State): seq<Timer> {
    if s.holder.Some? && s.holder.value in s.running then [s.running[s.holder.value].timer] else []
  }

  /** Handlers are completed in the order in which they were begun. */
  lemma {:induction false} DoneIsBegun(limit: nat, threads: set<Thread>, timers: set<Timer>, steps: seq<Step>)
    ensures var s := Run(Initial(limit, threads, timers), steps);
            s.done + Underway(s) == Begun(Initial(limit, threads, timers), steps)
  {
    if steps != [] {
      var before, last := steps[..|steps| - 1], steps[|steps| - 1];
      var s := Run(Initial(limit, threads, timers), before);
      DoneIsBegun(limit, threads, timers, before);
      RunInv(limit, threads, timers, before);
      hide Inv, Next, Possible, Underway;
      StepUnderway(s, last);
    }
  }

  lemma StepUnderway(s: State, step: Step)
    requires Inv(s)
    ensures var s' := Next(s, step);
            s'.done + Underway(s')
            == s.done + Underway(s) + if step.Begin? && Possible(s, step) then [step.timer] else []
  {
    hide Partition, FireAll;
    if Possible(s, step) && step.Advance? {
      HolderOf(s, step.thread);
    }
  }

  lemma {:induction false} FireAllPrints(limit: nat, order: seq<Timer>)
    ensures var q := FireAll(limit, order);
            && |q.printed| <= |order| && (q.count < limit ==> q.count == |order|)
            && forall i :: 0 <= i < |q.printed| ==> q.printed[i] == (order[i], i)
  {
    FireAllFacts(limit, order);
    if order != [] {
      FireAllPrints(limit, order[..|order| - 1]);
      FireAllFacts(limit, order[..|order| - 1]);
    }
  }

  /** Each count is printed by a handler of its own: the count i by the i-th handler
      begun, whichever timer it is of. */
  lemma {:induction false} EachHandlerPrints(limit: nat, threads: set<Thread>, timers: set<Timer>,
                                             steps: seq<Step>, i: nat)
    requires i < |Run(Initial(limit, threads, timers), steps).printed|
    ensures var begun := Begun(Initial(limit, threads, timers), steps);
            i < |begun| && Run(Initial(limit, threads, timers), steps).printed[i] == (begun[i], i)
  {
    RunInv(limit, threads, timers, steps);
    DoneIsBegun(limit, threads, timers, steps);
    var s := Run(Initial(limit, threads, timers), steps);
    hide Run, Begun;
    PrintedInOrder(s, i);
  }

  lemma PrintedInOrder(s: State, i: nat)
    requires Inv(s) && i < |s.printed|
    ensures var begun := s.done + Underway(s);
            i < |begun| && s.printed[i] == (begun[i], i)
  {
    hide Partition, FireAll;
    FireAllPrints(s.limit, s.done);
    FireAllFacts(s.limit, s.done);
  }

  /** A run that cannot go on, with at least one thread. */
  ghost predicate IsMaximal(s: State) {
    forall step :: !Possible(s, step)
  }

  /** Every maximal run prints exactly 0 to limit - 1 and has invoked exactly one
      handler for each of them and one more for each timer: limit + 2 of them for
      the program's two timers. */
  lemma {:induction false} MaximalRun(limit: nat, threads: set<Thread>, timers: set<Timer>, steps: seq<Step>)
    requires threads != {} && timers != {}
    requires IsMaximal(Run(Initial(limit, threads, timers), steps))
    ensures var s := Run(Initial(limit, threads, timers), steps);
            && s.count == limit == |s.printed|
            && (forall i :: 0 <= i < limit ==> s.printed[i].1 == i)
            && |s.done| == limit + |timers|
            && s.ended == timers
  {
    RunInv(limit, threads, timers, steps);
    var s := Run(Initial(limit, threads, timers), steps);
    FireAllFacts(limit, s.done);
    NothingLeft(s);
  }

  lemma NothingLeft(s: State)
    requires Inv(s) && s.threads != {} && IsMaximal(s)
    ensures s.armed == {} && s.queued == {} && s.holder == None && s.ended == s.timers
  {
    if x :| x in s.armed { assert Possible(s, Expire(x)); }
    if s.holder.Some? {
      assert s.holder.value in s.running.Keys;
      assert Possible(s, Advance(s.holder.value));
    } else if x :| x in s.queued {
      var t :| t in s.threads;
      assert Possible(s, Begin(t, x));
    }
  }

  /** The steps that a handler still has to make before its timer is armed again. */
  function PlaceWeight(p: Place): nat {
    match p
    case Test => 6
    case Print => 5
    case Load => 4
    case Store(_) => 3
    case Rearm => 9
  }

  function Measure(s: State): int {
    7 * (s.limit - s.count) + 8 * |s.armed| + 7 * |s.queued|
    + if s.holder.Some? && s.holder.value in s.running then PlaceWeight(s.running[s.holder.value].place) else 0
  }

  /** Every step that happens decreases the measure, so every run is finite: it
      has at most 7 * limit + 8 * |timers| steps that happen. */
  lemma StepsDecrease(s: State, step: Step)
    requires Inv(s) && Possible(s, step)
    ensures 0 <= Measure(Next(s, step)) < Measure(s)
  {
    hide Inv, Measure, Next;
    NextKeeps(s, step);
    CountBounded(s);
    CountBounded(Next(s, step));
    match step
    case Expire(x) => ExpireDecreases(s, x);
    case Begin(t, x) => BeginDecreases(s, t, x);
    case Advance(t) =>
      HolderOf(s, t);
      StoresCount(s, t);
      AdvanceDecreases(s, t);
  }

  lemma ExpireDecreases(s: State, x: Timer)
    requires x in s.armed && s.count <= s.limit
    ensures 0 <= Measure(Next(s, Expire(x))) < Measure(s)
  {
    assert |s.queued + {x}| <= |s.queued| + 1;
    assert |s.armed| == |s.armed - {x}| + 1;
  }

  lemma BeginDecreases(s: State, t: Thread, x: Timer)
    requires Possible(s, Begin(t, x)) && s.count <= s.limit
    ensures 0 <= Measure(Next(s, Begin(t, x))) < Measure(s)
  {
  }

  lemma AdvanceDecreases(s: State, t: Thread)
    requires t in s.running && s.holder == Some(t) && s.count <= s.limit
    requires s.running[t].place.Store? ==> s.running[t].place.value == s.count
    requires Next(s, Advance(t)).count <= Next(s, Advance(t)).limit
    ensures 0 <= Measure(Next(s, Advance(t))) < Measure(s)
  {
    var x := s.running[t].timer;
    if s.running[t].place == Rearm {
      assert Next(s, Advance(t)).armed == s.armed + {x};
      assert |s.armed + {x}| <= |s.armed| + 1;
    }
  }

  lemma StoresCount(s: State, t: Thread)
    requires Inv(s) && t in s.running
    ensures s.running[t].place.Store? ==> s.running[t].place.value == s.count
  {
    hide Partition, FireAll;
    HolderOf(s, t);
  }

  /** How many of the steps of a run were possible when they came. */
  function Happened(s0: State, steps: seq<Step>): nat {
    if steps == [] then 0 else
    var before := steps[..|steps| - 1];
    Happened(s0, before) + if Possible(Run(s0, before), steps[|steps| - 1]) then 1 else 0
  }

  lemma {:induction false} RunsAreFinite(limit: nat, threads: set<Thread>, timers: set<Timer>, steps: seq<Step>)
    ensures var s0 := Initial(limit, threads, timers);
            && Measure(Run(s0, steps)) >= 0
            && Happened(s0, steps) + Measure(Run(s0, steps)) <= 7 * limit + 8 * |timers|
  {
    var s0 := Initial(limit, threads, timers);
    if steps != [] {
      hide Inv, Measure, Initial;
      var before, last := steps[..|steps| - 1], steps[|steps| - 1];
      RunsAreFinite(limit, threads, timers, before);
      RunInv(limit, threads, timers, before);
      if Possible(Run(s0, before), last) { StepsDecrease(Run(s0, before), last); }
    }
  }

  lemma CountBounded(s: State)
    requires Inv(s)
    ensures s.count <= s.limit
  {
    FireAllFacts(s.limit, s.done);
  }

  /** Between handlers, the increments left to do plus the timers not ended is
      what it was at the start less one for every handler that has completed. */
  lemma {:induction false} EachHandlerCounts(limit: nat, threads: set<Thread>, timers: set<Timer>, steps: seq<Step>)
    requires Run(Initial(limit, threads, timers), steps).holder == None
    ensures var s := Run(Initial(limit, threads, timers), steps);
            (limit - s.count) + |s.armed + s.queued| == limit + |timers| - |s.done|
  {
    RunInv(limit, threads, timers, steps);
    var s := Run(Initial(limit, threads, timers), steps);
    FireAllFacts(limit, s.done);
    assert |s.timers| == |s.armed + s.queued| + |s.ended| by {
      assert s.timers == (s.armed + s.queued) + s.ended;
    }
  }
}
