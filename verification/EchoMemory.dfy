/** The echo session of `allocation_async/server.cpp` together with its handler
    memory: every outstanding operation keeps its handler in one block, which
    Boost.Asio frees before it calls the handler. */
module EchoMemory {
  import opened Codec
  import opened MemorySpec
  import Echo

  const OWN: MemId := 0  // the session's own `_handler_memory`

  /** `blocks` holds the handler of each outstanding operation; `asked` is the
      history of all sizes requested. */
  datatype Session = Session(chain: Echo.Chain, store: Store, blocks: seq<Addr>, asked: seq<nat>)

  /** `event` happens to an operation; the operation started next, if any, asks
      for `size` bytes, and `spot` is what `operator new` would return for them. */
  datatype Step = Step(event: Echo.Event, size: nat, spot: Addr)

  /** Every outstanding operation has a block for its handler. */
  predicate Paired(se: Session) {
    OWN in se.store.memories && |se.blocks| == |se.chain.ops|
  }

  /** Starting an operation allocates the block for its handler. */
  function Initiate(se: Session, size: nat, spot: Addr): Session
    requires OWN in se.store.memories
  {
    var p := AllocateIn(se.store.memories[OWN], se.store.heap, size, spot).0;
    se.(store := DoAllocate(se.store, OWN, size, spot), blocks := se.blocks + [p], asked := se.asked + [size])
  }

  /** The memory of completed operation `i` is freed before its handler is called. */
  function Release(se: Session, i: nat): Session
    requires OWN in se.store.memories && i < |se.blocks|
  {
    se.(store := DoFree(se.store, OWN, se.blocks[i]), blocks := Echo.Without(se.blocks, i))
  }

  /** The session while the handler of the completed operation runs. */
  function Called(se: Session, event: Echo.Event): Session
    requires Paired(se) && Echo.Enabled(se.chain, event)
  {
    Release(se, event.i).(chain := Echo.Handle(se.chain, event))
  }

  /** The step can happen: `spot` is a block that `operator new` may return. */
  ghost predicate Possible(se: Session, step: Step)
    requires Paired(se)
  {
    && Echo.Enabled(se.chain, step.event)
    && (!Echo.IsFailure(step.event) ==> IsFresh(Called(se, step.event).store, step.spot, step.size))
  }

  ghost function Next(se: Session, step: Step): (r: Session)
    requires Paired(se)
    ensures Paired(r)
  {
    if !Possible(se, step) then se
    else if Echo.IsFailure(step.event) then Called(se, step.event)
    else Initiate(Called(se, step.event), step.size, step.spot)
  }

  /** `start` on a new session whose storage is at `base`. */
  function Started(junk: seq<Byte>, base: Addr, size: nat, spot: Addr): Session {
    Initiate(New(junk, base).(chain := Echo.Read(Echo.Idle(junk))), size, spot)
  }

  function New(junk: seq<Byte>, base: Addr): Session {
    Session(Echo.Idle(junk), Store(map[OWN := Memory(base, false)], map[], map[], [], []), [], [])
  }

  ghost function Run(start: Session, steps: seq<Step>): (r: Session)
    requires Paired(start)
    ensures Paired(r)
  {
    if steps == [] then start else Next(Run(start, steps[..|steps| - 1]), steps[|steps| - 1])
  }

  /** How many of the requests do not fit the in-object storage. */
  function TooLarge(asked: seq<nat>): nat {
    if asked == [] then 0
    else TooLarge(asked[..|asked| - 1]) + if asked[|asked| - 1] < STORAGE_SIZE then 0 else 1
  }

  /** The live blocks are those of the outstanding operations. */
  ghost predicate SessionInv(se: Session) {
    && Paired(se) && se.store.memories.Keys == {OWN}
    && MemorySpec.Inv(se.store)
    && Echo.ChainInv(se.chain)
    && (forall p :: p in se.store.live <==> p in se.blocks)
    && (forall p :: p in se.store.live ==> se.asked != [] && se.store.live[p].size == se.asked[|se.asked| - 1])
    && |se.store.news| == TooLarge(se.asked)
  }

  lemma InitiateKeeps(se: Session, size: nat, spot: Addr)
    requires se.store.memories.Keys == {OWN} && MemorySpec.Inv(se.store) && Echo.ChainInv(se.chain)
    requires se.blocks == [] && se.store.live.Keys == {} && |se.chain.ops| == 1
    requires |se.store.news| == TooLarge(se.asked) && IsFresh(se.store, spot, size)
    ensures SessionInv(Initiate(se, size, spot))
  {
    hide MemorySpec.Inv, IsFresh, Echo.ChainInv;
    AllocateKeeps(se.store, OWN, size, spot);
    IdleMemory(se.store);
    assert (se.asked + [size])[..|se.asked|] == se.asked;
    assert Initiate(se, size, spot).store.live.Keys == {Initiate(se, size, spot).blocks[0]};
  }

  /** With nothing live the in-object storage is free. */
  lemma IdleMemory(s: Store)
    requires MemorySpec.Inv(s) && OWN in s.memories && s.live.Keys == {}
    ensures !s.memories[OWN].inUse
  {
  }

  /** The block of the only operation is the only live one. */
  lemma ReleaseKeeps(se: Session, i: nat)
    requires SessionInv(se) && i < |se.blocks|
    ensures var r := Release(se, i);
            && MemorySpec.Inv(r.store) && r.store.memories.Keys == {OWN}
            && r.store.live.Keys == {} && r.blocks == []
            && r.store.news == se.store.news && r.asked == se.asked && r.chain == se.chain
  {
    assert se.blocks == [se.blocks[0]];
    LiveOwner(se.store, se.blocks[i]);
    FreeKeeps(se.store, OWN, se.blocks[i]);
    hide MemorySpec.Inv, Echo.ChainInv;
  }

  lemma LiveOwner(s: Store, p: Addr)
    requires MemorySpec.Inv(s) && s.memories.Keys == {OWN} && p in s.live
    ensures s.live[p].memory == OWN
  {
    assert s.live[p].memory in s.memories;
  }

  lemma CalledKeeps(se: Session, event: Echo.Event)
    requires SessionInv(se) && Echo.Enabled(se.chain, event)
    ensures var called := Called(se, event);
            && MemorySpec.Inv(called.store) && called.store.memories.Keys == {OWN}
            && called.store.live.Keys == {} && called.blocks == [] && Echo.ChainInv(called.chain)
            && |called.chain.ops| == (if Echo.IsFailure(event) then 0 else 1)
            && |called.store.news| == TooLarge(called.asked)
  {
    Echo.HandleKeeps(se.chain, event);
    ReleaseKeeps(se, event.i);
    hide MemorySpec.Inv, Echo.Handle, Release, TooLarge;
  }

  lemma NextKeeps(se: Session, step: Step)
    requires SessionInv(se)
    ensures SessionInv(Next(se, step))
  {
    if Possible(se, step) {
      CalledKeeps(se, step.event);
      var called := Called(se, step.event);
      hide MemorySpec.Inv, Called, IsFresh, Echo.ChainInv;
      if !Echo.IsFailure(step.event) { InitiateKeeps(called, step.size, step.spot); }
    }
  }

  /** A possible step, as what its handler does. */
  lemma Taken(se: Session, event: Echo.Event, size: nat, spot: Addr)
    requires SessionInv(se) && Echo.Enabled(se.chain, event)
    requires !Echo.IsFailure(event) ==> IsFresh(Release(se, event.i).store, spot, size)
    ensures Possible(se, Step(event, size, spot))
    ensures var released := Release(se, event.i).(chain := Echo.Handle(se.chain, event));
            Next(se, Step(event, size, spot))
            == if Echo.IsFailure(event) then released else Initiate(released, size, spot)
    ensures SessionInv(Next(se, Step(event, size, spot)))
  {
    NextKeeps(se, Step(event, size, spot));
    hide SessionInv, IsFresh, Release, Initiate, Echo.Handle;
  }

  lemma StartedInv(junk: seq<Byte>, base: Addr, size: nat, spot: Addr)
    requires |junk| == Echo.BUFFER_SIZE && Disjoint(spot, size, base, STORAGE_SIZE)
    ensures SessionInv(Started(junk, base, size, spot))
  {
    InitiateKeeps(New(junk, base).(chain := Echo.Read(Echo.Idle(junk))), size, spot);
  }

  lemma {:induction false} RunKeeps(start: Session, steps: seq<Step>)
    requires SessionInv(start)
    ensures SessionInv(Run(start, steps))
  {
    if steps != [] {
      RunKeeps(start, steps[..|steps| - 1]);
      NextKeeps(Run(start, steps[..|steps| - 1]), steps[|steps| - 1]);
    }
  }

  /** The sizes that the operations started by the steps asked for. */
  ghost function Sizes(start: Session, steps: seq<Step>): seq<nat>
    requires Paired(start)
  {
    if steps == [] then [] else
    var init, last := steps[..|steps| - 1], steps[|steps| - 1];
    Sizes(start, init)
      + if Possible(Run(start, init), last) && !Echo.IsFailure(last.event) then [last.size] else []
  }

  lemma NextAsks(se: Session, step: Step)
    requires Paired(se)
    ensures Next(se, step).asked
            == se.asked + if Possible(se, step) && !Echo.IsFailure(step.event) then [step.size] else []
  {
    hide IsFresh, Echo.Handle;
  }

  lemma {:induction false} AskedAre(junk: seq<Byte>, base: Addr, size: nat, spot: Addr, steps: seq<Step>)
    ensures var start := Started(junk, base, size, spot);
            Run(start, steps).asked == [size] + Sizes(start, steps)
  {
    var start := Started(junk, base, size, spot);
    if steps != [] {
      var init, last := steps[..|steps| - 1], steps[|steps| - 1];
      AskedAre(junk, base, size, spot, init);
      NextAsks(Run(start, init), last);
      hide Next, Possible, Started;
    }
  }

  /** In every run of a session the live handler blocks are those of the
      outstanding operations, so there is at most one, and the heap is used exactly
      for the requests that do not fit the in-object storage: a session all of
      whose handlers are smaller than 1024 bytes never reaches `operator new`, and
      a session that ever asks for more does. */
  lemma {:induction false} HeapUse(junk: seq<Byte>, base: Addr, size: nat, spot: Addr, steps: seq<Step>)
    requires |junk| == Echo.BUFFER_SIZE && Disjoint(spot, size, base, STORAGE_SIZE)
    ensures var se := Run(Started(junk, base, size, spot), steps);
            && |se.store.live| == |se.chain.ops| <= 1
            && (forall p :: p in se.store.live <==> p in se.blocks)
            && se.asked == [size] + Sizes(Started(junk, base, size, spot), steps)
            && (forall p :: p in se.store.live ==> se.store.live[p].size == se.asked[|se.asked| - 1])
            && |se.store.news| == TooLarge(se.asked)
            && (se.store.news == [] <==> forall i :: 0 <= i < |se.asked| ==> se.asked[i] < STORAGE_SIZE)
  {
    StartedInv(junk, base, size, spot);
    RunKeeps(Started(junk, base, size, spot), steps);
    var se := Run(Started(junk, base, size, spot), steps);
    AskedAre(junk, base, size, spot, steps);
    hide MemorySpec.Inv;
    LiveCount(se.store.live, se.blocks);
    NoneTooLarge(se.asked);
  }

  lemma LiveCount(live: map<Addr, Live>, blocks: seq<Addr>)
    requires |blocks| <= 1 && forall p :: p in live <==> p in blocks
    ensures |live| == |blocks|
  {
    assert live.Keys == if blocks == [] then {} else {blocks[0]};
    assert |live| == |live.Keys|;
  }

  lemma {:induction false} NoneTooLarge(asked: seq<nat>)
    ensures TooLarge(asked) == 0 <==> forall i :: 0 <= i < |asked| ==> asked[i] < STORAGE_SIZE
  {
    if asked != [] {
      var init := asked[..|asked| - 1];
      NoneTooLarge(init);
      assert forall i :: 0 <= i < |init| ==> init[i] == asked[i];
    }
  }

  lemma HeapEnds(heap: map<Addr, nat>) returns (top: Addr)
    ensures forall a :: a in heap ==> a + Extent(heap[a]) <= top
  {
    top := 0;
    if heap != map[] {
      var a: Addr :| a in heap;
      var rest := HeapEnds(heap - {a});
      top := if rest < a + Extent(heap[a]) then a + Extent(heap[a]) else rest;
      assert forall b :: b in heap && b != a ==> b in heap - {a};
    }
  }

  lemma SpotExists(s: Store, size: nat) returns (spot: Addr)
    requires s.memories.Keys == {OWN}
    ensures IsFresh(s, spot, size)
  {
    spot := HeapEnds(s.heap);
    if spot < s.memories[OWN].base + STORAGE_SIZE {
      spot := s.memories[OWN].base + STORAGE_SIZE;
    }
  }

  /** Memory never holds a session up: whatever can happen next on the connection
      can happen in the session, with a block of any size for the next handler. */
  lemma {:induction false} SessionGoesOn(junk: seq<Byte>, base: Addr, size: nat, spot: Addr, steps: seq<Step>,
                                         event: Echo.Event, request: nat)
    requires |junk| == Echo.BUFFER_SIZE && Disjoint(spot, size, base, STORAGE_SIZE)
    requires Echo.Enabled(Run(Started(junk, base, size, spot), steps).chain, event)
    ensures var start := Started(junk, base, size, spot);
            exists free: Addr ::
              Run(start, steps + [Step(event, request, free)]).chain == Echo.Step(Run(start, steps).chain, event)
  {
    var start := Started(junk, base, size, spot);
    var se := Run(start, steps);
    StartedInv(junk, base, size, spot);
    RunKeeps(start, steps);
    hide MemorySpec.Inv, Started, Run, IsFresh, Echo.Step, Echo.Handle, Echo.Enabled;
    CalledKeeps(se, event);
    var free := SpotExists(Called(se, event).store, request);
    var next := Step(event, request, free);
    RunSnoc(start, steps, next);
    NextChain(se, next);
  }

  lemma RunSnoc(start: Session, steps: seq<Step>, step: Step)
    requires Paired(start)
    ensures Run(start, steps + [step]) == Next(Run(start, steps), step)
  {
    assert (steps + [step])[..|steps|] == steps;
  }

  /** The events of the steps that `operator new` does not make impossible. */
  ghost function Events(start: Session, steps: seq<Step>): seq<Echo.Event>
    requires Paired(start)
  {
    if steps == [] then [] else
    var init, last := steps[..|steps| - 1], steps[|steps| - 1];
    Events(start, init) + if Possible(Run(start, init), last) then [last.event] else []
  }

  lemma NextChain(se: Session, step: Step)
    requires Paired(se)
    ensures Next(se, step).chain == if Possible(se, step) then Echo.Step(se.chain, step.event) else se.chain
  {
    hide IsFresh, Echo.Handle;
  }

  /** All bytes that the reads of the session's steps brought in. */
  ghost function DataIn(start: Session, steps: seq<Step>): seq<Byte>
    requires Paired(start)
  {
    if steps == [] then [] else
    var init, last := steps[..|steps| - 1], steps[|steps| - 1];
    DataIn(start, init)
      + if last.event.ReadDone? && Possible(Run(start, init), last) then last.event.bytes else []
  }

  lemma NextReceives(se: Session, step: Step)
    requires Paired(se)
    ensures Next(se, step).chain.received
            == se.chain.received + if step.event.ReadDone? && Possible(se, step) then step.event.bytes else []
  {
    NextChain(se, step);
    Echo.StepReceives(se.chain, step.event);
    hide Next, IsFresh, Echo.Handle, Echo.Step;
  }

  lemma {:induction false} DataInIsReceived(junk: seq<Byte>, base: Addr, size: nat, spot: Addr, steps: seq<Step>)
    ensures var start := Started(junk, base, size, spot);
            Run(start, steps).chain.received == DataIn(start, steps)
  {
    var start := Started(junk, base, size, spot);
    if steps != [] {
      var init, last := steps[..|steps| - 1], steps[|steps| - 1];
      DataInIsReceived(junk, base, size, spot, init);
      NextReceives(Run(start, init), last);
      hide Next, Possible, Started;
    }
  }

  /** The memory does not disturb the echo: the chain of the session is a run of
      the chain alone, so it keeps its buffer while it writes, and it sends back
      what its reads bring in. */
  lemma {:induction false} SessionEchoes(junk: seq<Byte>, base: Addr, size: nat, spot: Addr, steps: seq<Step>)
    requires |junk| == Echo.BUFFER_SIZE
    ensures var start := Started(junk, base, size, spot);
            && Run(start, steps).chain == Echo.Run(junk, Events(start, steps))
            && Echo.Echoes(Run(start, steps).chain, DataIn(start, steps))
  {
    DataInIsReceived(junk, base, size, spot, steps);
    var start := Started(junk, base, size, spot);
    if steps != [] {
      var init, last := steps[..|steps| - 1], steps[|steps| - 1];
      SessionEchoes(junk, base, size, spot, init);
      NextChain(Run(start, init), last);
      hide Next, Possible, Echo.Step, Started;
      var before := Events(start, init);
      if Possible(Run(start, init), last) {
        Echo.RunSnoc(junk, before, last.event);
        assert Events(start, steps) == before + [last.event];
      } else {
        assert Events(start, steps) == before;
      }
    }
    Echo.EchoesPrefix(junk, Events(start, steps));
  }
}
