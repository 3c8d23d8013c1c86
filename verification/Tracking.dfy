/** The classes of `custom_tracking.hpp`: completions linked through `_next` from
    each thread's `current_completion`. `TrackingSpec` sees them through `View`. */
module Tracking {
  import opened Codec
  import opened TrackingSpec

  class TrackedHandler {
    var handlerId: nat
    var treeId: nat
    ghost var index: nat  // its place in the order of creation

    constructor ()
      ensures handlerId == 0 && treeId == 0
    {
      handlerId, treeId := 0, 0;
    }
  }

  class Completion {
    const handlerId: nat
    const treeId: nat
    const next: Completion?
    ghost const index: nat

    constructor (h: TrackedHandler, next: Completion?)
      ensures handlerId == h.handlerId && treeId == h.treeId && index == h.index && this.next == next
    {
      handlerId, treeId, index, this.next := h.handlerId, h.treeId, h.index, next;
    }
  }

  /** Following `_next` from `c` visits exactly `open`, innermost first. */
  ghost predicate IsChain(c: Completion?, open: seq<Completion>)
    decreases |open|
  {
    if open == [] then c == null else c == open[0] && IsChain(open[0].next, open[1..])
  }

  lemma {:induction false} ChainSuffix(c: Completion?, open: seq<Completion>, i: nat)
    requires IsChain(c, open) && i < |open|
    ensures IsChain(open[i], open[i..])
    decreases |open|
  {
    if i > 0 {
      ChainSuffix(open[0].next, open[1..], i - 1);
      assert open[1..][i - 1..] == open[i..];
    }
  }

  lemma {:induction false} ChainUnique(c: Completion?, a: seq<Completion>, b: seq<Completion>)
    requires IsChain(c, a) && IsChain(c, b)
    ensures a == b
    decreases |a|
  {
    if a != [] && b != [] {
      ChainUnique(a[0].next, a[1..], b[1..]);
      assert a == [a[0]] + a[1..] && b == [b[0]] + b[1..];
    }
  }

  /** A chain that ends never visits a completion twice. */
  lemma ChainAcyclic(c: Completion?, open: seq<Completion>, i: nat, j: nat)
    requires IsChain(c, open) && i < j < |open|
    ensures open[i] != open[j]
  {
    ChainSuffix(c, open, i);
    ChainSuffix(c, open, j);
    if open[i] == open[j] {
      ChainUnique(open[i], open[i..], open[j..]);
    }
  }

  /** The open completions of one thread, as `TrackingSpec` sees them. */
  ghost function Opens(open: seq<Completion>): (r: seq<Open>)
    ensures |r| == |open|
  {
    seq(|open|, i requires 0 <= i < |open| => Open(open[i].index, open[i].treeId))
  }

  ghost function Stacks(open: map<Thread, seq<Completion>>): map<Thread, seq<Open>> {
    map t | t in open :: Opens(open[t])
  }

  lemma StacksUpdated(open: map<Thread, seq<Completion>>, t: Thread, s: seq<Completion>)
    ensures Stacks(open[t := s]) == Stacks(open)[t := Opens(s)]
  {
  }

  lemma OpensCons(c: Completion, open: seq<Completion>)
    ensures Opens([c] + open) == [Open(c.index, c.treeId)] + Opens(open)
  {
  }

  lemma OpensTail(open: seq<Completion>)
    requires open != []
    ensures Opens(open[1..]) == Opens(open)[1..]
  {
  }

  /** The tracking of all threads: the shared counter and each thread's
      `current_completion`, null when the thread is not in the map. */
  class Tracker {
    var nextHandlerId: nat
    var current: map<Thread, Completion?>
    ghost var created: seq<Created>
    ghost var open: map<Thread, seq<Completion>>

    ghost predicate Valid()
      reads this
    {
      current.Keys == open.Keys && forall t :: t in open ==> IsChain(current[t], open[t])
    }

    function Current(t: Thread): Completion?
      reads this
    {
      if t in current then current[t] else null
    }

    ghost function OpenOn(t: Thread): seq<Completion>
      reads this
    {
      if t in open then open[t] else []
    }

    ghost function View(): State
      reads this
    {
      State(nextHandlerId, created, Stacks(open))
    }

    /** The handler is one that `Creation` has made, not written to since. */
    ghost predicate WasCreated(h: TrackedHandler)
      reads this, h
    {
      h.index < |created| && h.handlerId == created[h.index].id && h.treeId == created[h.index].tree
    }

    constructor ()
      ensures Valid() && View() == INITIAL
    {
      nextHandlerId, current, created, open := 1, map[], [], map[];
    }

    method Creation(t: Thread, h: TrackedHandler)
      requires Valid()
      modifies this`nextHandlerId, this`created, h
      ensures Valid() && WasCreated(h) && h.index == |old(created)|
      ensures View() == Next(old(View()), TrackingSpec.Creation(t, old(h.treeId)))
      ensures h.handlerId == old(nextHandlerId)
      ensures h.treeId == if OpenOn(t) != [] then OpenOn(t)[0].treeId else old(h.treeId)
    {
      ghost var preset := h.treeId;
      h.handlerId := nextHandlerId;
      nextHandlerId := (nextHandlerId + 1) % ID_MODULUS;
      if Current(t) != null {
        h.treeId := Current(t).treeId;
      }
      h.index := |created|;
      created := created + [Created(h.handlerId, h.treeId,
                                    if Current(t) != null then Some(Current(t).index) else None, preset)];
    }

    /** The constructor of `completion`, on thread `t`. */
    method Enter(t: Thread, h: TrackedHandler) returns (c: Completion)
      requires Valid()
      modifies this`current, this`open
      ensures Valid() && open == old(open)[t := [c] + old(OpenOn(t))]
      ensures c.handlerId == h.handlerId && c.treeId == h.treeId && c.next == old(Current(t))
      ensures WasCreated(h) ==> View() == Next(old(View()), TrackingSpec.Enter(t, h.index))
    {
      c := new Completion(h, Current(t));
      OpensCons(c, OpenOn(t));
      StacksUpdated(open, t, [c] + OpenOn(t));
      assert ([c] + OpenOn(t))[1..] == OpenOn(t);
      current := current[t := c];
      open := open[t := [c] + OpenOn(t)];
    }

    /** The destructor of `completion`, on the innermost one of thread `t`. */
    method Leave(t: Thread, c: Completion)
      requires Valid() && OpenOn(t) != [] && c == OpenOn(t)[0]
      modifies this`current, this`open
      ensures Valid() && open == old(open)[t := old(OpenOn(t))[1..]] && Current(t) == c.next
      ensures View() == Next(old(View()), TrackingSpec.Leave(t))
    {
      OpensTail(OpenOn(t));
      StacksUpdated(open, t, OpenOn(t)[1..]);
      current := current[t := c.next];
      open := open[t := OpenOn(t)[1..]];
    }
  }
}
