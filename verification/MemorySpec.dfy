/** The one-slot handler memory of `allocation_async/server.cpp` with its
    fallback to the global heap, at the level of addresses: any number of
    memories over one heap, used through any number of allocators. */
module MemorySpec {
  import opened Codec

  type Addr = nat
  type MemId = nat

  const STORAGE_SIZE := 1024

  /** A `handler_memory`: where `_storage` lies and `_is_use`. */
  datatype Memory = Memory(base: Addr, inUse: bool)

  /** `handler_memory::allocate`; `spot` is what `operator new(size)` would
      return. The result is the block, the memory and the heap's blocks. */
  function AllocateIn(m: Memory, heap: map<Addr, nat>, size: nat, spot: Addr): (Addr, Memory, map<Addr, nat>) {
    if !m.inUse && size < STORAGE_SIZE
    then (m.base, m.(inUse := true), heap)
    else (spot, m, heap[spot := size])
  }

  /** `handler_memory::deallocate`. */
  function DeallocateIn(m: Memory, heap: map<Addr, nat>, p: Addr): (Memory, map<Addr, nat>) {
    if p == m.base then (m.(inUse := false), heap) else (m, heap - {p})
  }

  /** Two blocks do not overlap; even an empty block has an address of its own. */
  predicate Disjoint(a: Addr, aSize: nat, b: Addr, bSize: nat) {
    a + Extent(aSize) <= b || b + Extent(bSize) <= a
  }

  function Extent(size: nat): nat {
    if size == 0 then 1 else size
  }

  // ---------------------------------------------------------------- allocators

  /** A `handler_allocator<T>`: the memory it refers to and `sizeof(T)`. */
  datatype Allocator = Allocator(memory: MemId, elementSize: nat)

  /** The converting constructor: the same memory for another element type, so `n`
      elements ask for `n` times the new element size. */
  function Rebind(a: Allocator, elementSize: nat): (r: Allocator)
    ensures Equal(r, a) && forall n: nat :: Request(r, n) == elementSize * n % SIZE_MODULUS
  {
    Allocator(a.memory, elementSize)
  }

  /** `operator==`. */
  predicate Equal(a: Allocator, b: Allocator) {
    a.memory == b.memory
  }

  /** The request for `n` elements: `sizeof(T) * n` in `size_t`. */
  function Request(a: Allocator, n: nat): nat {
    a.elementSize * n % SIZE_MODULUS
  }

  // ---------------------------------------------------------------- traces

  /** A block handed out and not yet freed: the memory it came from and the
      number of bytes requested. */
  datatype Live = Live(memory: MemId, size: nat)

  /** `news` and `deletes` are the addresses returned by `operator new` and
      given to `operator delete`, in order. */
  datatype Store = Store(memories: map<MemId, Memory>, heap: map<Addr, nat>, live: map<Addr, Live>,
                         news: seq<Addr>, deletes: seq<Addr>)

  datatype Event =
    | Allocate(via: Allocator, n: nat, spot: Addr)
    | Free(via: Allocator, p: Addr)

  /** What `operator new` promises: a block apart from every object there is. */
  ghost predicate IsFresh(s: Store, spot: Addr, size: nat) {
    && (forall m :: m in s.memories ==> Disjoint(spot, size, s.memories[m].base, STORAGE_SIZE))
    && (forall a :: a in s.heap ==> Disjoint(spot, size, a, s.heap[a]))
  }

  /** Callers free only live blocks, through an allocator for the same memory. */
  ghost predicate Allowed(s: Store, e: Event) {
    e.via.memory in s.memories &&
    match e
    case Allocate(via, n, spot) => IsFresh(s, spot, Request(via, n))
    case Free(via, p) => p in s.live && s.live[p].memory == via.memory
  }

  function DoAllocate(s: Store, m: MemId, size: nat, spot: Addr): Store
    requires m in s.memories
  {
    var (p, memory, heap) := AllocateIn(s.memories[m], s.heap, size, spot);
    Store(s.memories[m := memory], heap, s.live[p := Live(m, size)],
          s.news + (if memory == s.memories[m] then [p] else []), s.deletes)
  }

  function DoFree(s: Store, m: MemId, p: Addr): Store
    requires m in s.memories
  {
    var (memory, heap) := DeallocateIn(s.memories[m], s.heap, p);
    Store(s.memories[m := memory], heap, s.live - {p},
          s.news, s.deletes + (if p == memory.base then [] else [p]))
  }

  ghost function Next(s: Store, e: Event): Store {
    if !Allowed(s, e) then s else
    match e
    case Allocate(via, n, spot) => DoAllocate(s, via.memory, Request(via, n), spot)
    case Free(via, p) => DoFree(s, via.memory, p)
  }

  /** Memories that have just been constructed, their storage apart from each other. */
  ghost predicate IsInitial(s: Store) {
    && s.heap == map[] && s.live == map[] && s.news == [] && s.deletes == []
    && (forall m :: m in s.memories ==> !s.memories[m].inUse)
    && ApartMemories(s)
  }

  ghost predicate ApartMemories(s: Store) {
    forall m, n :: m in s.memories && n in s.memories && m != n ==>
      Disjoint(s.memories[m].base, STORAGE_SIZE, s.memories[n].base, STORAGE_SIZE)
  }

  ghost function Run(s0: Store, events: seq<Event>): Store {
    if events == [] then s0 else Next(Run(s0, events[..|events| - 1]), events[|events| - 1])
  }

  // ---------------------------------------------------------------- invariant

  /** The bytes that belong to a live block. */
  function Capacity(s: Store, p: Addr): nat {
    if p in s.heap then s.heap[p] else STORAGE_SIZE
  }

  /** Storage and heap blocks do not overlap. */
  ghost predicate Apart(s: Store) {
    && ApartMemories(s)
    && (forall a, b :: a in s.heap && b in s.heap && a != b ==> Disjoint(a, s.heap[a], b, s.heap[b]))
    && (forall a, m :: a in s.heap && m in s.memories ==> Disjoint(a, s.heap[a], s.memories[m].base, STORAGE_SIZE))
  }

  /** A live block is a heap block or the storage of its memory, and conversely. */
  ghost predicate Consistent(s: Store) {
    && (forall p :: p in s.live ==>
          s.live[p].memory in s.memories &&
          if p in s.heap then s.heap[p] == s.live[p].size
          else p == s.memories[s.live[p].memory].base && s.live[p].size < STORAGE_SIZE)
    && (forall a :: a in s.heap ==> a in s.live)
    && (forall m :: m in s.memories ==>
          (s.memories[m].inUse <==> s.memories[m].base in s.live && s.live[s.memories[m].base].memory == m))
  }

  ghost predicate Balanced(s: Store) {
    multiset(s.news) == multiset(s.heap.Keys) + multiset(s.deletes)
  }

  ghost predicate Inv(s: Store) {
    Apart(s) && Consistent(s) && Balanced(s)
  }

  lemma NotApartFromItself(a: Addr, x: nat, y: nat)
    ensures !Disjoint(a, x, a, y)
  {
  }

  /** The address of a memory's storage is no heap block and no other storage. */
  lemma BaseIsOwn(s: Store, m: MemId)
    requires Inv(s) && m in s.memories
    ensures s.memories[m].base !in s.heap
    ensures forall n :: n in s.memories && n != m ==> s.memories[n].base != s.memories[m].base
  {
    NotApartFromItself(s.memories[m].base, STORAGE_SIZE, STORAGE_SIZE);
    if s.memories[m].base in s.heap {
      NotApartFromItself(s.memories[m].base, s.heap[s.memories[m].base], STORAGE_SIZE);
    }
  }

  lemma AllocateKeeps(s: Store, m: MemId, size: nat, spot: Addr)
    requires Inv(s) && m in s.memories && IsFresh(s, spot, size)
    ensures Inv(DoAllocate(s, m, size, spot))
  {
    var memory := s.memories[m];
    BaseIsOwn(s, m);
    if !memory.inUse && size < STORAGE_SIZE {
      SlotAllocated(s, m, size, spot);
    } else {
      HeapAllocated(s, m, size, spot);
    }
  }

  lemma SlotAllocated(s: Store, m: MemId, size: nat, spot: Addr)
    requires Inv(s) && m in s.memories && !s.memories[m].inUse && size < STORAGE_SIZE
    ensures Inv(DoAllocate(s, m, size, spot))
  {
    var p := s.memories[m].base;
    var s' := DoAllocate(s, m, size, spot);
    BaseIsOwn(s, m);
    assert s' == s.(memories := s.memories[m := Memory(p, true)], live := s.live[p := Live(m, size)]);
    ApartWithSameBlocks(s, s');
    ConsistentWithSlot(s, s', m, size);
    hide Apart, Consistent;
  }

  /** Setting or clearing `_is_use` moves no block. */
  lemma ApartWithSameBlocks(s: Store, s': Store)
    requires Apart(s) && s'.heap == s.heap && s'.memories.Keys == s.memories.Keys
    requires forall m :: m in s.memories ==> s'.memories[m].base == s.memories[m].base
    ensures Apart(s')
  {
    hide Disjoint;
  }

  lemma ConsistentWithSlot(s: Store, s': Store, m: MemId, size: nat)
    requires Consistent(s) && m in s.memories && size < STORAGE_SIZE && s.memories[m].base !in s.heap
    requires forall n :: n in s.memories && n != m ==> s.memories[n].base != s.memories[m].base
    requires s'.heap == s.heap && s'.memories == s.memories[m := Memory(s.memories[m].base, true)]
    requires s'.live == s.live[s.memories[m].base := Live(m, size)]
    ensures Consistent(s')
  {
  }

  lemma HeapAllocated(s: Store, m: MemId, size: nat, spot: Addr)
    requires Inv(s) && m in s.memories && IsFresh(s, spot, size)
    requires s.memories[m].inUse || size >= STORAGE_SIZE
    ensures Inv(DoAllocate(s, m, size, spot))
  {
    FreshIsNew(s, spot, size);
    var s' := DoAllocate(s, m, size, spot);
    assert s' == s.(heap := s.heap[spot := size], live := s.live[spot := Live(m, size)], news := s.news + [spot],
                    memories := s.memories[m := s.memories[m]]);
    assert s'.memories == s.memories;
    HeapAllocatedParts(s, s', m, size, spot);
  }

  lemma HeapAllocatedParts(s: Store, s': Store, m: MemId, size: nat, spot: Addr)
    requires Inv(s) && m in s.memories && IsFresh(s, spot, size) && spot !in s.heap && spot !in s.live
    requires forall n :: n in s.memories ==> s.memories[n].base != spot
    requires s' == s.(heap := s.heap[spot := size], live := s.live[spot := Live(m, size)], news := s.news + [spot])
    ensures Inv(s')
  {
    ApartAdded(s, s', size, spot);
    BlockAdded(s.news, s.heap.Keys, s.deletes, spot);
    assert s'.heap.Keys == s.heap.Keys + {spot};
    ConsistentAdded(s, s', m, size, spot);
    hide Apart, IsFresh, Consistent;
  }

  lemma ConsistentAdded(s: Store, s': Store, m: MemId, size: nat, spot: Addr)
    requires Consistent(s) && m in s.memories && spot !in s.heap && spot !in s.live
    requires forall n :: n in s.memories ==> s.memories[n].base != spot
    requires s'.heap == s.heap[spot := size] && s'.live == s.live[spot := Live(m, size)] && s'.memories == s.memories
    ensures Consistent(s')
  {
  }

  lemma ApartAdded(s: Store, s': Store, size: nat, spot: Addr)
    requires Apart(s) && IsFresh(s, spot, size) && spot !in s.heap
    requires s'.heap == s.heap[spot := size] && s'.memories == s.memories
    ensures Apart(s')
  {
    hide Extent;
    forall a | a in s.heap ensures Disjoint(a, s.heap[a], spot, size) { Symmetric(spot, size, a, s.heap[a]); }
  }

  lemma BlockAdded(news: seq<Addr>, blocks: set<Addr>, deletes: seq<Addr>, a: Addr)
    requires multiset(news) == multiset(blocks) + multiset(deletes) && a !in blocks
    ensures multiset(news + [a]) == multiset(blocks + {a}) + multiset(deletes)
  {
    assert multiset(blocks + {a}) == multiset(blocks) + multiset{a};
  }

  lemma BlockRemoved(news: seq<Addr>, blocks: set<Addr>, deletes: seq<Addr>, a: Addr)
    requires multiset(news) == multiset(blocks) + multiset(deletes) && a in blocks
    ensures multiset(news) == multiset(blocks - {a}) + multiset(deletes + [a])
  {
    assert multiset(blocks) == multiset(blocks - {a}) + multiset{a};
  }

  lemma Symmetric(a: Addr, x: nat, b: Addr, y: nat)
    requires Disjoint(a, x, b, y)
    ensures Disjoint(b, y, a, x)
  {
  }

  lemma FreshIsNew(s: Store, spot: Addr, size: nat)
    requires Inv(s) && IsFresh(s, spot, size)
    ensures spot !in s.heap && spot !in s.live
    ensures forall m :: m in s.memories ==> s.memories[m].base != spot
  {
    if spot in s.heap { NotApartFromItself(spot, size, s.heap[spot]); }
    forall m | m in s.memories ensures s.memories[m].base != spot {
      NotApartFromItself(spot, size, STORAGE_SIZE);
    }
  }

  lemma FreeKeeps(s: Store, m: MemId, p: Addr)
    requires Inv(s) && m in s.memories && p in s.live && s.live[p].memory == m
    ensures Inv(DoFree(s, m, p))
  {
    BaseIsOwn(s, m);
    var s' := DoFree(s, m, p);
    if p == s.memories[m].base {
      StorageFreed(s, s', m, p);
    } else {
      FreedIsHeapBlock(s, m, p);
      assert s'.memories == s.memories;
      HeapFreed(s, s', p);
    }
  }

  lemma StorageFreed(s: Store, s': Store, m: MemId, p: Addr)
    requires Inv(s) && m in s.memories && p == s.memories[m].base && p !in s.heap
    requires forall n :: n in s.memories && n != m ==> s.memories[n].base != p
    requires s' == s.(memories := s.memories[m := Memory(p, false)], live := s.live - {p})
    ensures Inv(s')
  {
    ApartWithSameBlocks(s, s');
    ConsistentFreed(s, s', m, p);
    hide Apart, Consistent;
  }

  lemma ConsistentFreed(s: Store, s': Store, m: MemId, p: Addr)
    requires Consistent(s) && m in s.memories && p == s.memories[m].base && p !in s.heap
    requires forall n :: n in s.memories && n != m ==> s.memories[n].base != p
    requires s' == s.(memories := s.memories[m := Memory(p, false)], live := s.live - {p})
    ensures Consistent(s')
  {
  }

  lemma FreedIsHeapBlock(s: Store, m: MemId, p: Addr)
    requires Inv(s) && m in s.memories && p in s.live && s.live[p].memory == m && p != s.memories[m].base
    ensures p in s.heap
    ensures forall n :: n in s.memories ==> s.memories[n].base != p
  {
    forall n | n in s.memories ensures s.memories[n].base != p { BaseIsOwn(s, n); }
  }

  lemma HeapFreed(s: Store, s': Store, p: Addr)
    requires Inv(s) && p in s.heap && forall n :: n in s.memories ==> s.memories[n].base != p
    requires s' == s.(heap := s.heap - {p}, live := s.live - {p}, deletes := s.deletes + [p])
    ensures Inv(s')
  {
    hide Disjoint;
    BlockRemoved(s.news, s.heap.Keys, s.deletes, p);
    assert s'.heap.Keys == s.heap.Keys - {p};
  }

  lemma {:induction false} RunInv(s0: Store, events: seq<Event>)
    requires IsInitial(s0)
    ensures Inv(Run(s0, events))
  {
    if events != [] {
      var s, e := Run(s0, events[..|events| - 1]), events[|events| - 1];
      RunInv(s0, events[..|events| - 1]);
      if Allowed(s, e) {
        match e
        case Allocate(via, n, spot) => AllocateKeeps(s, via.memory, Request(via, n), spot);
        case Free(via, p) => FreeKeeps(s, via.memory, p);
      }
    }
  }

  // ---------------------------------------------------------------- properties

  /** After any trace in which callers free only live blocks, each once, through
      any allocator that is equal to or rebound from the one that allocated: live
      blocks do not overlap and are as large as requested, and `_is_use` says
      exactly whether the in-object storage is live. */
  lemma {:induction false} LiveBlocksAreSafe(s0: Store, events: seq<Event>, p: Addr, q: Addr)
    requires IsInitial(s0) && p in Run(s0, events).live && q in Run(s0, events).live
    ensures var s := Run(s0, events);
            && s.live[p].size <= Capacity(s, p)
            && (p != q ==> Disjoint(p, Capacity(s, p), q, Capacity(s, q)))
            && s.live[p].memory in s.memories
            && (p == s.memories[s.live[p].memory].base ==> s.memories[s.live[p].memory].inUse)
  {
    RunInv(s0, events);
    var s := Run(s0, events);
    BaseIsOwn(s, s.live[p].memory);
    BaseIsOwn(s, s.live[q].memory);
  }

  lemma {:induction false} InUseMeansLive(s0: Store, events: seq<Event>, m: MemId)
    requires IsInitial(s0) && m in Run(s0, events).memories
    ensures var s := Run(s0, events);
            s.memories[m].inUse <==> s.memories[m].base in s.live
  {
    RunInv(s0, events);
    var s := Run(s0, events);
    BaseIsOwn(s, m);
  }

  /** `operator delete` gets each block of `operator new` exactly once and never
      the in-object storage: what was obtained is what is live on the heap plus
      what was given back. */
  lemma {:induction false} HeapBlocksDeletedOnce(s0: Store, events: seq<Event>)
    requires IsInitial(s0)
    ensures var s := Run(s0, events);
            && multiset(s.news) == multiset(s.heap.Keys) + multiset(s.deletes)
            && (forall a :: a in s.heap ==> a in s.live)
            && forall a, m :: a in s.deletes && m in s0.memories ==> a != s0.memories[m].base
  {
    RunInv(s0, events);
    DeletesAvoidStorage(s0, events);
  }

  lemma InitialDeletes(s0: Store)
    requires IsInitial(s0)
    ensures s0.deletes == []
  {
  }

  lemma {:induction false} DeletesAvoidStorage(s0: Store, events: seq<Event>)
    requires IsInitial(s0)
    ensures var s := Run(s0, events);
            && s.memories.Keys == s0.memories.Keys
            && (forall m :: m in s0.memories ==> s.memories[m].base == s0.memories[m].base)
            && forall a, m :: a in s.deletes && m in s0.memories ==> a != s0.memories[m].base
  {
    hide IsInitial, IsFresh, Apart, Consistent, Balanced;
    if events == [] {
      assert s0.deletes == [] by { InitialDeletes(s0); }
    } else {
      var s, e := Run(s0, events[..|events| - 1]), events[|events| - 1];
      DeletesAvoidStorage(s0, events[..|events| - 1]);
      RunInv(s0, events[..|events| - 1]);
      if Allowed(s, e) && e.Free? && e.p != s.memories[e.via.memory].base {
        FreedIsHeapBlock(s, e.via.memory, e.p);
      }
    }
  }

  /** After any trace a request gets the in-object storage exactly when the storage
      is not live and is larger than the request, whatever was allocated and freed
      before; otherwise it gets what `operator new` returns. */
  lemma {:induction false} StorageIsReused(s0: Store, events: seq<Event>, via: Allocator, n: nat, spot: Addr)
    requires IsInitial(s0)
    requires via.memory in Run(s0, events).memories && IsFresh(Run(s0, events), spot, Request(via, n))
    ensures var s, s' := Run(s0, events), Run(s0, events + [Allocate(via, n, spot)]);
            var p := if s.memories[via.memory].base !in s.live && Request(via, n) < 1024
                     then s.memories[via.memory].base else spot;
            && p !in s.live && s'.live == s.live[p := Live(via.memory, Request(via, n))]
            && s'.news == s.news + if p == spot then [p] else []
  {
    RunInv(s0, events);
    InUseMeansLive(s0, events, via.memory);
    assert (events + [Allocate(via, n, spot)])[..|events|] == events;
    FreshIsNew(Run(s0, events), spot, Request(via, n));
  }

  /** After any trace a live block can be freed through any allocator of its memory:
      it is then not live, and the storage is free for the next request or the heap
      block has been given back. */
  lemma {:induction false} FreeReleases(s0: Store, events: seq<Event>, via: Allocator, p: Addr)
    requires IsInitial(s0)
    requires p in Run(s0, events).live && Run(s0, events).live[p].memory == via.memory
    ensures var s, s' := Run(s0, events), Run(s0, events + [Free(via, p)]);
            && via.memory in s.memories && via.memory in s'.memories
            && s'.live == s.live - {p} && s'.heap == s.heap - {p} && s'.news == s.news
            && (if p == s.memories[via.memory].base
                then !s'.memories[via.memory].inUse && s'.deletes == s.deletes
                else s'.memories == s.memories && s'.deletes == s.deletes + [p])
  {
    RunInv(s0, events);
    assert (events + [Free(via, p)])[..|events|] == events;
    var s := Run(s0, events);
    BaseIsOwn(s, via.memory);
    assert p == s.memories[via.memory].base ==> s.heap - {p} == s.heap;
    assert p != s.memories[via.memory].base ==> s.memories[via.memory := s.memories[via.memory]] == s.memories;
  }

  /** Freeing through an equal or rebound allocator is the same free. */
  lemma FreeThroughAnyEqual(s: Store, a: Allocator, b: Allocator, elementSize: nat, p: Addr)
    ensures Equal(a, b) ==> Next(s, Free(b, p)) == Next(s, Free(a, p))
    ensures Equal(Rebind(a, elementSize), a) && Next(s, Free(Rebind(a, elementSize), p)) == Next(s, Free(a, p))
  {
  }

  /** The facade's promise of room for `n` elements holds exactly when
      `sizeof(T) * n` does not wrap around; otherwise the block is too small. */
  lemma RoomForElements(s: Store, via: Allocator, n: nat, spot: Addr)
    requires Inv(s) && via.memory in s.memories && IsFresh(s, spot, Request(via, n))
    ensures var size := Request(via, n);
            var p := AllocateIn(s.memories[via.memory], s.heap, size, spot).0;
            Capacity(DoAllocate(s, via.memory, size, spot), p) >= via.elementSize * n
            <==> via.elementSize * n < SIZE_MODULUS
  {
    var total := via.elementSize * n;
    BaseIsOwn(s, via.memory);
    WrapIsSmaller(total);
  }

  lemma WrapIsSmaller(total: nat)
    ensures total % SIZE_MODULUS < SIZE_MODULUS
    ensures total < SIZE_MODULUS ==> total % SIZE_MODULUS == total
  {
  }

  /** A concrete case: two-byte elements, 2^63 of them, get the 1024-byte slot. */
  lemma WrappedRequestIsTooSmall(m: Memory)
    requires !m.inUse
    ensures var a, n := Allocator(0, 2), SIZE_MODULUS / 2;
            && AllocateIn(m, map[], Request(a, n), 0).0 == m.base
            && STORAGE_SIZE < a.elementSize * n
  {
  }
}
