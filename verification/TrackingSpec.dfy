/** Handler tracking as in `custom_tracking.hpp`, over whole runs of any number
    of threads: ids handed out by a shared counter, and tree ids passed on along
    the nesting of completions of each thread. */
module TrackingSpec {
  import opened Codec

  type Thread = nat

  const ID_MODULUS := 0x1_0000_0000_0000_0000  // uintmax_t is 64 bits wide

  /** A created handler: its id, its tree id, the handler that was being completed
      on the same thread when it was created, and the tree id it had before. */
  datatype Created = Created(id: nat, tree: nat, cause: Option<nat>, preset: nat)

  /** An open completion: which handler, and its copied tree id. */
  datatype Open = Open(handler: nat, tree: nat)

  /** `stacks` are the chains from `current_completion`, innermost first. */
  datatype State = State(counter: nat, created: seq<Created>, stacks: map<Thread, seq<Open>>)

  datatype Event =
    | Creation(thread: Thread, preset: nat)
    | Enter(thread: Thread, handler: nat)
    | Leave(thread: Thread)

  const INITIAL := State(1, [], map[])

  function StackOf(s: State, t: Thread): seq<Open> {
    if t in s.stacks then s.stacks[t] else []
  }

  function Next(s: State, e: Event): State {
    match e
    case Creation(t, preset) =>
      var stack := StackOf(s, t);
      var made := if stack != [] then Created(s.counter, stack[0].tree, Some(stack[0].handler), preset)
                  else Created(s.counter, preset, None, preset);
      s.(counter := (s.counter + 1) % ID_MODULUS, created := s.created + [made])
    case Enter(t, h) =>
      if h >= |s.created| then s
      else s.(stacks := s.stacks[t := [Open(h, s.created[h].tree)] + StackOf(s, t)])
    case Leave(t) =>
      if StackOf(s, t) == [] then s else s.(stacks := s.stacks[t := StackOf(s, t)[1..]])
  }

  function Run(events: seq<Event>): State {
    if events == [] then INITIAL else Next(Run(events[..|events| - 1]), events[|events| - 1])
  }

  /** The handler at the start of the causal chain that led to handler `h`. */
  function Root(created: seq<Created>, h: nat): (r: nat)
    requires h < |created|
    ensures r <= h
  {
    match created[h].cause
    case None => h
    case Some(c) => if c < h then Root(created, c) else h
  }

  /** Ids count up, causes come first, and tree ids are those of the roots. */
  ghost predicate CreatedInv(created: seq<Created>) {
    forall h :: 0 <= h < |created| ==>
      && created[h].id == (1 + h) % ID_MODULUS
      && (created[h].cause.Some? ==> created[h].cause.value < h)
      && created[h].tree == created[Root(created, h)].preset
  }

  /** Open completions are of handlers that were created, with their tree ids. */
  ghost predicate StacksInv(stacks: map<Thread, seq<Open>>, created: seq<Created>) {
    forall t, i :: t in stacks && 0 <= i < |stacks[t]| ==>
      stacks[t][i].handler < |created| && stacks[t][i].tree == created[stacks[t][i].handler].tree
  }

  ghost predicate Inv(s: State) {
    && s.counter == (1 + |s.created|) % ID_MODULUS
    && CreatedInv(s.created)
    && StacksInv(s.stacks, s.created)
  }

  lemma {:induction false} RootStays(created: seq<Created>, more: Created, h: nat)
    requires h < |created|
    ensures Root(created + [more], h) == Root(created, h) < |created|
  {
    match created[h].cause
    case Some(c) => if c < h { RootStays(created, more, c); }
    case None =>
  }

  lemma CreationKeeps(s: State, t: Thread, preset: nat)
    requires Inv(s)
    ensures Inv(Next(s, Creation(t, preset)))
  {
    hide CreatedInv, StacksInv, StackOf;
    var s' := Next(s, Creation(t, preset));
    IncrementWraps(1 + |s.created|);
    NewCause(s, t, preset);
    NewTree(s, t, preset);
    CreatedSnoc(s.created, s'.created[|s.created|]);
    StacksStay(s.stacks, s.created, s'.created);
  }

  lemma NewCause(s: State, t: Thread, preset: nat)
    requires Inv(s)
    ensures var made := Next(s, Creation(t, preset)).created[|s.created|];
            made.id == s.counter && (made.cause.Some? ==> made.cause.value < |s.created|)
  {
    hide Root;
  }

  lemma CreatedSnoc(created: seq<Created>, made: Created)
    requires CreatedInv(created) && made.id == (1 + |created|) % ID_MODULUS
    requires made.cause.Some? ==> made.cause.value < |created|
    requires made.tree == (created + [made])[Root(created + [made], |created|)].preset
    ensures CreatedInv(created + [made])
  {
    RootsStay(created, made);
    hide Root;
  }

  lemma StacksStay(stacks: map<Thread, seq<Open>>, created: seq<Created>, created': seq<Created>)
    requires StacksInv(stacks, created) && created <= created'
    ensures StacksInv(stacks, created')
  {
  }

  lemma NewTree(s: State, t: Thread, preset: nat)
    requires Inv(s)
    ensures var created, n := Next(s, Creation(t, preset)).created, |s.created|;
            Root(created, n) <= n && created[n].tree == created[Root(created, n)].preset
  {
    var created, n := Next(s, Creation(t, preset)).created, |s.created|;
    if StackOf(s, t) != [] {
      NewRoot(s.created, created[n], StackOf(s, t)[0].handler);
    } else {
      assert Root(created, n) == n;
    }
  }

  lemma RootsStay(created: seq<Created>, more: Created)
    ensures forall h :: 0 <= h < |created| ==> Root(created + [more], h) == Root(created, h) < |created|
  {
    forall h | 0 <= h < |created| ensures Root(created + [more], h) == Root(created, h) < |created| {
      RootStays(created, more, h);
    }
  }

  lemma NewRoot(created: seq<Created>, made: Created, cause: nat)
    requires made.cause == Some(cause) && cause < |created|
    ensures Root(created + [made], |created|) == Root(created, cause) < |created|
  {
    RootStays(created, made, cause);
  }

  lemma IncrementWraps(n: nat)
    ensures (n % ID_MODULUS + 1) % ID_MODULUS == (n + 1) % ID_MODULUS
  {
  }

  lemma {:induction false} RunInv(events: seq<Event>)
    ensures Inv(Run(events))
  {
    if events != [] {
      var s, e := Run(events[..|events| - 1]), events[|events| - 1];
      RunInv(events[..|events| - 1]);
      hide Root, Inv;
      match e
      case Creation(t, preset) => CreationKeeps(s, t, preset);
      case Enter(t, h) => EnterKeeps(s, t, h);
      case Leave(t) => LeaveKeeps(s, t);
    }
  }

  lemma EnterKeeps(s: State, t: Thread, h: nat)
    requires Inv(s)
    ensures Inv(Next(s, Enter(t, h)))
  {
    hide CreatedInv;
  }

  lemma LeaveKeeps(s: State, t: Thread)
    requires Inv(s)
    ensures Inv(Next(s, Leave(t)))
  {
    hide CreatedInv;
  }

  function CreationsIn(events: seq<Event>): nat {
    if events == [] then 0
    else CreationsIn(events[..|events| - 1]) + Count(events[|events| - 1].Creation?)
  }

  /** The handlers that thread `t` is completing after some events, innermost first,
      read off the entries and exits of that thread alone. */
  function Nesting(events: seq<Event>, t: Thread): seq<nat> {
    if events == [] then [] else
    var before, e := events[..|events| - 1], events[|events| - 1];
    var open := Nesting(before, t);
    match e
    case Enter(u, h) => if u == t && h < CreationsIn(before) then [h] + open else open
    case Leave(u) => if u == t && open != [] then open[1..] else open
    case Creation(_, _) => open
  }

  function Handlers(stack: seq<Open>): (r: seq<nat>)
    ensures |r| == |stack| && forall i :: 0 <= i < |r| ==> r[i] == stack[i].handler
  {
    seq(|stack|, i requires 0 <= i < |stack| => stack[i].handler)
  }

  /** Every thread's chain of completions is the nesting of its own entries and
      exits, whatever other threads do. */
  lemma {:induction false} StacksAreNesting(events: seq<Event>, t: Thread)
    ensures |Run(events).created| == CreationsIn(events)
    ensures Handlers(StackOf(Run(events), t)) == Nesting(events, t)
  {
    if events != [] {
      StacksAreNesting(events[..|events| - 1], t);
    }
  }

  /** A handler's cause is the handler that its thread was completing, innermost,
      when it was created; it keeps its own preset id. */
  lemma {:induction false} CauseIsInnermost(events: seq<Event>, t: Thread, preset: nat)
    ensures var s, s' := Run(events), Run(events + [Creation(t, preset)]);
            && |s'.created| == |s.created| + 1 && s.created <= s'.created
            && var made, nesting := s'.created[|s.created|], Nesting(events, t);
               && made.cause == (if nesting == [] then None else Some(nesting[0]))
               && made.preset == preset
               && (nesting == [] ==> made.tree == preset)
               && (nesting != [] ==> nesting[0] < |s.created| && made.tree == s.created[nesting[0]].tree)
  {
    StacksAreNesting(events, t);
    RunInv(events);
    assert (events + [Creation(t, preset)])[..|events|] == events;
  }

  /** Handler ids: two handlers ever created have the same id exactly when a
      multiple of 2^64 creations lies between them, so below that they are unique. */
  lemma {:induction false} IdsRepeatOnlyOnWrap(events: seq<Event>, i: nat, j: nat)
    requires i <= j < |Run(events).created|
    ensures Run(events).created[i].id == Run(events).created[j].id <==> (j - i) % ID_MODULUS == 0
  {
    RunInv(events);
    SameRemainder(1 + i, 1 + j);
  }

  function Creations(n: nat): seq<Event> {
    seq(n, i => Creation(0, 0))
  }

  lemma {:induction false} CreationsMade(n: nat)
    ensures |Run(Creations(n)).created| == n
  {
    if n > 0 {
      CreationsMade(n - 1);
      assert Creations(n)[..n - 1] == Creations(n - 1);
    }
  }

  /** The input at which ids repeat: 2^64 + 1 creations. */
  lemma IdsRepeat()
    ensures var created := Run(Creations(ID_MODULUS + 1)).created;
            |created| == ID_MODULUS + 1 && created[0].id == created[ID_MODULUS].id
  {
    CreationsMade(ID_MODULUS + 1);
    IdsRepeatOnlyOnWrap(Creations(ID_MODULUS + 1), 0, ID_MODULUS);
  }

  lemma SameRemainder(a: nat, b: nat)
    requires a <= b
    ensures a % ID_MODULUS == b % ID_MODULUS <==> (b - a) % ID_MODULUS == 0
  {
    var q, r := a / ID_MODULUS, b / ID_MODULUS;
    assert a == q * ID_MODULUS + a % ID_MODULUS && b == r * ID_MODULUS + b % ID_MODULUS;
  }

  /** Every handler carries the tree id that the root of its causal chain had
      before it was created, whatever completions ran in between on any thread. */
  lemma {:induction false} TreeIdIsRoots(events: seq<Event>, h: nat)
    requires h < |Run(events).created|
    ensures var created := Run(events).created;
            && Root(created, h) < |created|
            && created[Root(created, h)].cause == None
            && created[h].tree == created[Root(created, h)].preset
  {
    RunInv(events);
    RootIsCauseless(Run(events).created, h);
  }

  lemma {:induction false} RootIsCauseless(created: seq<Created>, h: nat)
    requires h < |created|
    requires forall i :: 0 <= i < |created| && created[i].cause.Some? ==> created[i].cause.value < i
    ensures Root(created, h) < |created| && created[Root(created, h)].cause == None
  {
    if created[h].cause.Some? { RootIsCauseless(created, created[h].cause.value); }
  }

  /** Since nothing but `creation` ever writes a tree id and a new handler's is 0,
      tree ids tell causal trees apart exactly when someone presets them apart. */
  lemma {:induction false} TreesToldApart(events: seq<Event>, h: nat, k: nat)
    requires h < |Run(events).created| && k < |Run(events).created|
    ensures var created := Run(events).created;
            && Root(created, h) < |created| && Root(created, k) < |created|
            && (created[h].tree == created[k].tree
                <==> created[Root(created, h)].preset == created[Root(created, k)].preset)
  {
    TreeIdIsRoots(events, h);
    TreeIdIsRoots(events, k);
  }

  /** Two unrelated handlers with the default tree id share it. */
  lemma DefaultTreesCoincide()
    ensures var created := Run([Creation(0, 0), Creation(0, 0)]).created;
            |created| == 2 && Root(created, 0) != Root(created, 1) && created[0].tree == created[1].tree
  {
    var events := [Creation(0, 0), Creation(0, 0)];
    assert events[..1] == [Creation(0, 0)] && events[..1][..0] == [];
    assert Run(events[..1]) == Next(INITIAL, Creation(0, 0));
    assert Run(events) == Next(Run(events[..1]), Creation(0, 0));
  }
}
