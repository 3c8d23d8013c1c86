/** The classes `handler_memory` and `session` of `allocation_async/server.cpp`
    and the allocator facade, updated in place. */
module HandlerMemory {
  import opened Codec
  import opened MemorySpec
  import Echo
  import EchoMemory

  /** The global heap; addresses from `top` on have never been used. */
  class GlobalHeap {
    var blocks: map<Addr, nat>
    var top: Addr

    ghost predicate Valid()
      reads this
    {
      forall a :: a in blocks ==> a + Extent(blocks[a]) <= top
    }

    constructor ()
      ensures Valid() && blocks == map[]
    {
      blocks, top := map[], 0;
    }

    /** `operator new`. */
    method New(size: nat) returns (p: Addr)
      requires Valid()
      modifies this
      ensures Valid() && blocks == old(blocks)[p := size] && old(top) <= p && p + Extent(size) <= top
      ensures forall a :: a in old(blocks) ==> Disjoint(p, size, a, old(blocks)[a])
    {
      p := top;
      top := top + Extent(size);
      blocks := blocks[p := size];
    }

    /** `operator delete`. */
    method Delete(p: Addr)
      requires Valid() && p in blocks
      modifies this`blocks
      ensures Valid() && blocks == old(blocks) - {p}
    {
      blocks := blocks - {p};
    }

    /** The address of an object of `size` bytes outside the heap's blocks. */
    method Place(size: nat) returns (p: Addr)
      requires Valid()
      modifies this`top
      ensures Valid() && p == old(top) && top == p + Extent(size)
    {
      p := top;
      top := top + Extent(size);
    }
  }

  class Memory {
    const heap: GlobalHeap
    const base: Addr  // of _storage
    var inUse: bool

    ghost predicate Valid()
      reads this, heap
    {
      && heap.Valid()
      && base + STORAGE_SIZE <= heap.top
      && (forall a :: a in heap.blocks ==> Disjoint(a, heap.blocks[a], base, STORAGE_SIZE))
    }

    ghost function View(): MemorySpec.Memory
      reads this
    {
      MemorySpec.Memory(base, inUse)
    }

    constructor (heap: GlobalHeap)
      requires heap.Valid()
      modifies heap`top
      ensures this.heap == heap && Valid() && !inUse && base >= old(heap.top)
    {
      this.heap := heap;
      var p := heap.Place(STORAGE_SIZE);
      base := p;
      inUse := false;
    }

    /** Gives the in-object storage if it is free and large enough, else a new block. */
    method Allocate(size: nat) returns (p: Addr)
      requires Valid()
      modifies this`inUse, heap
      ensures Valid()
      ensures AllocateIn(old(View()), old(heap.blocks), size, p) == (p, View(), heap.blocks)
      ensures old(inUse) || size >= STORAGE_SIZE ==>
                && p != base && Disjoint(p, size, base, STORAGE_SIZE)
                && forall a :: a in old(heap.blocks) ==> Disjoint(p, size, a, old(heap.blocks)[a])
    {
      if !inUse && size < STORAGE_SIZE {
        inUse := true;
        return base;
      } else {
        p := heap.New(size);
      }
    }

    method Deallocate(p: Addr)
      requires Valid() && (p == base || p in heap.blocks)
      modifies this`inUse, heap`blocks
      ensures Valid()
      ensures DeallocateIn(old(View()), old(heap.blocks), p) == (View(), heap.blocks)
    {
      if p == base {
        inUse := false;
      } else {
        heap.Delete(p);
      }
    }
  }

  /** `handler_allocator<T>`: a reference to a memory and the size of T. */
  datatype HandlerAllocator = HandlerAllocator(memory: Memory, elementSize: nat) {

    function Rebound(elementSize: nat): (other: HandlerAllocator)
      ensures Equals(other) && other.elementSize == elementSize
    {
      HandlerAllocator(memory, elementSize)
    }

    predicate Equals(other: HandlerAllocator) {
      memory == other.memory
    }

    method Allocate(n: nat) returns (p: Addr)
      requires memory.Valid()
      modifies memory`inUse, memory.heap
      ensures memory.Valid()
      ensures AllocateIn(old(memory.View()), old(memory.heap.blocks), elementSize * n % SIZE_MODULUS, p)
              == (p, memory.View(), memory.heap.blocks)
      ensures old(memory.inUse) || elementSize * n % SIZE_MODULUS >= STORAGE_SIZE ==>
                && p != memory.base && Disjoint(p, elementSize * n % SIZE_MODULUS, memory.base, STORAGE_SIZE)
                && forall a :: a in old(memory.heap.blocks) ==>
                     Disjoint(p, elementSize * n % SIZE_MODULUS, a, old(memory.heap.blocks)[a])
    {
      p := memory.Allocate(elementSize * n % SIZE_MODULUS);
    }

    method Deallocate(p: Addr)
      requires memory.Valid() && (p == memory.base || p in memory.heap.blocks)
      modifies memory`inUse, memory.heap`blocks
      ensures memory.Valid()
      ensures DeallocateIn(old(memory.View()), old(memory.heap.blocks), p) == (memory.View(), memory.heap.blocks)
    {
      memory.Deallocate(p);
    }
  }

  /** The store `s` of one session is a true view of its memory and of a part of
      the heap. */
  ghost predicate PartOf(s: Store, m: MemorySpec.Memory, blocks: map<Addr, nat>) {
    && s.memories == map[EchoMemory.OWN := m]
    && forall a :: a in s.heap ==> a in blocks && blocks[a] == s.heap[a]
  }

  lemma StaysPartOf(s: Store, m: MemorySpec.Memory, blocks: map<Addr, nat>, size: nat, p: Addr, spot: Addr)
    requires PartOf(s, m, blocks)
    requires if !m.inUse && size < STORAGE_SIZE then p == m.base else spot == p && p !in blocks
    ensures var (p', m', blocks') := AllocateIn(m, blocks, size, p);
            var s' := DoAllocate(s, EchoMemory.OWN, size, spot);
            && p' == p == AllocateIn(m, s.heap, size, spot).0
            && PartOf(s', m', blocks') && blocks' - s'.heap.Keys == blocks - s.heap.Keys
  {
  }

  lemma StaysPartOfFreed(s: Store, m: MemorySpec.Memory, blocks: map<Addr, nat>, p: Addr)
    requires PartOf(s, m, blocks) && (p == m.base || p in s.heap)
    ensures var (m', blocks') := DeallocateIn(m, blocks, p);
            var s' := DoFree(s, EchoMemory.OWN, p);
            PartOf(s', m', blocks') && blocks' - s'.heap.Keys == blocks - s.heap.Keys
  {
  }

  lemma OwnBlock(se: EchoMemory.Session, i: nat)
    requires EchoMemory.SessionInv(se) && i < |se.blocks|
    ensures se.blocks[i] == se.store.memories[EchoMemory.OWN].base || se.blocks[i] in se.store.heap
  {
    EchoMemory.LiveOwner(se.store, se.blocks[i]);
  }

  class Session {
    const data: array<Byte>
    const memory: Memory
    // the outstanding operations and the blocks of their handlers
    var ops: seq<Echo.Op>
    var blocks: seq<Addr>
    // history, and the part of the heap that this session uses
    ghost var received: seq<Byte>
    ghost var sent: seq<Byte>
    ghost var failed: bool
    ghost var store: Store
    ghost var asked: seq<nat>

    ghost function Chain(): Echo.Chain
      reads this, data
    {
      Echo.Chain(data[..], ops, received, sent, failed)
    }

    ghost function View(): EchoMemory.Session
      reads this, data
    {
      EchoMemory.Session(Chain(), store, blocks, asked)
    }

    /** The session's view of its memory and of the heap is a true one. */
    ghost predicate Sound()
      reads this, memory, memory.heap
    {
      memory.Valid() && PartOf(store, memory.View(), memory.heap.blocks)
    }

    ghost predicate Valid()
      reads this, data, memory, memory.heap
    {
      Sound() && EchoMemory.Paired(View()) && EchoMemory.SessionInv(View())
    }

    /** The heap blocks that others use. */
    ghost function Others(): map<Addr, nat>
      reads this, memory, memory.heap
    {
      memory.heap.blocks - store.heap.Keys
    }

    constructor (memory: Memory)
      requires memory.Valid() && !memory.inUse
      ensures Valid() && this.memory == memory && fresh(data)
      ensures View() == EchoMemory.New(data[..], memory.base) && Others() == memory.heap.blocks
    {
      data := new Byte[Echo.BUFFER_SIZE];
      this.memory := memory;
      ops, blocks, received, sent, failed, asked := [], [], [], [], false, [];
      store := Store(map[EchoMemory.OWN := memory.View()], map[], map[], [], []);
    }

    /** `start`; `size` is what the handler of the read needs. */
    method Start(size: nat) returns (ghost spot: Addr)
      requires Valid() && View() == EchoMemory.New(data[..], memory.base)
      modifies this`ops, this`blocks, this`store, this`asked, memory`inUse, memory.heap
      ensures Valid() && View() == EchoMemory.Started(data[..], memory.base, size, spot)
      ensures Disjoint(spot, size, memory.base, STORAGE_SIZE)
      ensures Others() == old(Others())
    {
      spot := DoRead(size);
      EchoMemory.StartedInv(data[..], memory.base, size, spot);
    }

    /** The handler of an operation being started gets its block. */
    method AllocateHandler(size: nat) returns (ghost spot: Addr)
      requires Sound()
      modifies this`blocks, this`store, this`asked, memory`inUse, memory.heap
      ensures Sound() && IsFresh(old(store), spot, size)
      ensures View() == EchoMemory.Initiate(old(View()), size, spot)
      ensures Others() == old(Others())
    {
      ghost var m, all := memory.View(), memory.heap.blocks;
      assert IsFresh(store, memory.heap.top, size);
      spot := memory.heap.top;
      var p := memory.Allocate(size);
      if m.inUse || size >= STORAGE_SIZE {
        spot := p;
      }
      StaysPartOf(store, m, all, size, p, spot);
      store := DoAllocate(store, EchoMemory.OWN, size, spot);
      blocks, asked := blocks + [p], asked + [size];
    }

    method DoRead(size: nat) returns (ghost spot: Addr)
      requires Sound()
      modifies this`ops, this`blocks, this`store, this`asked, memory`inUse, memory.heap
      ensures Sound() && IsFresh(old(store), spot, size)
      ensures View() == EchoMemory.Initiate(old(View()).(chain := Echo.Read(old(Chain()))), size, spot)
      ensures Others() == old(Others())
    {
      spot := AllocateHandler(size);
      ops := ops + [Echo.ReadOp];
    }

    method DoWrite(length: nat, size: nat) returns (ghost spot: Addr)
      requires Sound()
      modifies this`ops, this`blocks, this`store, this`asked, memory`inUse, memory.heap
      ensures Sound() && IsFresh(old(store), spot, size)
      ensures View() == EchoMemory.Initiate(old(View()).(chain := Echo.Write(old(Chain()), length)), size, spot)
      ensures Others() == old(Others())
    {
      spot := AllocateHandler(size);
      ops := ops + [Echo.WriteOp(length, 0)];
    }

    /** Operation `i` has completed: its handler's memory is freed before the upcall. */
    method FreeHandler(i: nat)
      requires Valid() && i < |ops|
      modifies this`ops, this`blocks, this`store, memory`inUse, memory.heap`blocks
      ensures Sound()
      ensures View() == EchoMemory.Release(old(View()), i).(chain := old(Chain()).(ops := Echo.Without(old(ops), i)))
      ensures Others() == old(Others())
    {
      hide EchoMemory.SessionInv, DoFree, Memory.Valid, GlobalHeap.Valid;
      OwnBlock(View(), i);
      StaysPartOfFreed(store, memory.View(), memory.heap.blocks, blocks[i]);
      memory.Deallocate(blocks[i]);
      store := DoFree(store, EchoMemory.OWN, blocks[i]);
      blocks, ops := Echo.Without(blocks, i), Echo.Without(ops, i);
    }

    /** Read `i` completes with `bytes`, or fails. */
    method OnRead(i: nat, ok: bool, bytes: seq<Byte>, size: nat) returns (ghost spot: Addr)
      requires Valid()
      requires Echo.Enabled(Chain(), if ok then Echo.ReadDone(i, bytes) else Echo.ReadFailed(i))
      modifies this`ops, this`blocks, this`received, this`failed, this`store, this`asked, data
      modifies memory`inUse, memory.heap
      ensures Valid() && Others() == old(Others())
      ensures var event := if ok then Echo.ReadDone(i, bytes) else Echo.ReadFailed(i);
              && EchoMemory.Possible(old(View()), EchoMemory.Step(event, size, spot))
              && View() == EchoMemory.Next(old(View()), EchoMemory.Step(event, size, spot))
    {
      hide EchoMemory.SessionInv, EchoMemory.Release, EchoMemory.Initiate, IsFresh, PartOf;
      hide EchoMemory.Possible, EchoMemory.Next, Memory.Valid, GlobalHeap.Valid, DoFree;
      ghost var was := View();
      FreeHandler(i);
      if ok {
        forall k | 0 <= k < |bytes| {
          data[k] := bytes[k];
        }
        assert data[..] == bytes + was.chain.data[|bytes|..];
        received := received + bytes;
        assert Echo.Write(Chain(), |bytes|) == Echo.Handle(was.chain, Echo.ReadDone(i, bytes));
        hide Echo.Handle, Echo.Enabled;
        spot := DoWrite(|bytes|, size);
        EchoMemory.Taken(was, Echo.ReadDone(i, bytes), size, spot);
      } else {
        failed := true;
        spot := 0;
        assert Chain() == Echo.Handle(was.chain, Echo.ReadFailed(i));
        hide Echo.Handle, Echo.Enabled;
        EchoMemory.Taken(was, Echo.ReadFailed(i), size, spot);
      }
    }

    /** Write `i` completes, its last bytes having gone out, or fails. */
    method OnWrite(i: nat, ok: bool, size: nat) returns (ghost spot: Addr)
      requires Valid()
      requires Echo.Enabled(Chain(), if ok then Echo.WriteDone(i) else Echo.WriteFailed(i))
      modifies this`ops, this`blocks, this`sent, this`failed, this`store, this`asked
      modifies memory`inUse, memory.heap
      ensures Valid() && Others() == old(Others())
      ensures var event := if ok then Echo.WriteDone(i) else Echo.WriteFailed(i);
              && EchoMemory.Possible(old(View()), EchoMemory.Step(event, size, spot))
              && View() == EchoMemory.Next(old(View()), EchoMemory.Step(event, size, spot))
    {
      hide EchoMemory.SessionInv, EchoMemory.Release, EchoMemory.Initiate, IsFresh, PartOf;
      hide EchoMemory.Possible, EchoMemory.Next, Memory.Valid, GlobalHeap.Valid, DoFree;
      ghost var was := View();
      ghost var rest := if ok then data[ops[i].done..ops[i].length] else [];
      FreeHandler(i);
      if ok {
        sent := sent + rest;
        assert Echo.Read(Chain()) == Echo.Handle(was.chain, Echo.WriteDone(i));
        hide Echo.Handle, Echo.Enabled;
        spot := DoRead(size);
        EchoMemory.Taken(was, Echo.WriteDone(i), size, spot);
      } else {
        failed := true;
        spot := 0;
        assert Chain() == Echo.Handle(was.chain, Echo.WriteFailed(i));
        hide Echo.Handle, Echo.Enabled;
        EchoMemory.Taken(was, Echo.WriteFailed(i), size, spot);
      }
    }
  }
}
