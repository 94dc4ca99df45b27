/**
 State tokens of generic cppgc graphs (cppgc_generic_graph.go).

 A graph's managed state lives in a Go registry under a numeric token; the
 native object stores the token and calls back to have it dropped, once when
 the state is replaced and once before the object is destroyed. Any number of
 graphs run their operations interleaved; each graph has at most one. The
 isolate may be closed by user code that an operation calls, so a graph may be
 destroyed while one of its operations is running. Isolate teardown destroys a
 graph before it closes the graph's root, so the Drop callback of a destruction
 may in turn begin operations of the dying graph.
 */
module GraphTokens {

  type Graph = nat    // identity of one graph object
  type Id = nat       // graph id, reusable once its graph is destroyed and none of its operations runs
  type Token = nat    // state id, reusable once its entry is gone
  type Obj = nat      // identity of one logical state
  type Value = nat

  datatype Managed = Managed(o: Obj, v: Value)

  datatype Entry = Entry(owner: Id, c: Managed)

  datatype Pc =
    | Cloned(c: Managed)               // initial clone made
    | Registered(c: Managed)           // graph id taken
    | Unclaimed(c: Managed)            // registration failed, clone to be dropped
    | Stored(tok: Token)               // state registered, native constructor running
    | Discarding(c: Managed)           // constructor refused, entry gone, drop to come
    | Unregistering                    // graph id to be given back
    | Orphan                           // native took the state, no wrapper was returned
    | Idle
    | Busy                             // between begin and end
    | Owned(c: Managed)                // replacement cloned
    | Fresh(tok: Token)                // replacement registered, native replace running
    | DiscardingNew(c: Managed)        // native replace failed, entry gone, drop to come
    | Replaced(prior: Token, tok: Token) // native swapped tokens and calls back for the old one
    | DroppingOld(c: Managed, tok: Token)
    | Installed(tok: Token)            // native replace returned
    | Updating(tok: Token, v: Value)   // UpdateState works on a detached copy of the value v under tok
    | Rejected(c: Managed)             // write-back refused, clone to be dropped
    | Closing
    | Finished                         // construction failed

  /** The native object: it holds a token until destruction calls back, first to
      drop the state (user code runs in Dying), then to destroy the graph. */
  datatype Cell = NoCell | Holds(tok: Token) | Dying(c: Managed) | Emptied | Destroyed

  /** stateId is the token the wrapper believes in. */
  datatype Rec = Rec(pc: Pc, id: Id, stateId: Token, cell: Cell, closed: bool, rootClosed: bool)

  datatype Loc = With(g: Graph) | Fading(g: Graph) | In(tok: Token) | Gone

  /** History of one logical state: whose it is, where it is, the last value
      written to it and the values passed to the Drop callback. */
  datatype History = History(g: Graph, loc: Loc, latest: Value, drops: seq<Value>)

  /** inUse: graph ids that are registered, or that a running operation of a
      destroyed graph remembers. fatal: a callback met an unknown graph or token. */
  datatype State = State(
    graphs: map<Graph, Rec>,
    registry: map<Id, Graph>,
    inUse: map<Id, Graph>,
    entries: map<Token, Entry>,
    objs: map<Obj, History>,
    fatal: bool)

  // ---------------------------------------------------------------- steps

  function Put(s: State, g: Graph, r: Rec): State {
    s.(graphs := s.graphs[g := r])
  }

  predicate At(s: State, g: Graph, pc: Pc) {
    g in s.graphs && s.graphs[g].pc == pc
  }

  function Goto(s: State, g: Graph, pc: Pc): State
    requires g in s.graphs
  {
    Put(s, g, s.graphs[g].(pc := pc))
  }

  /** An operation of the wrapper is running. */
  predicate InOp(pc: Pc) {
    pc.Busy? || pc.Owned? || pc.Fresh? || pc.DiscardingNew? || pc.Replaced? || pc.DroppingOld? || pc.Installed? ||
    pc.Updating? || pc.Rejected?
  }

  /** Nothing runs, or user code may: a Clone, Drop or update callback. */
  predicate Interruptible(pc: Pc) {
    pc.Orphan? || pc.Idle? || pc.Busy? || pc.Owned? || pc.DiscardingNew? || pc.DroppingOld? || pc.Updating? ||
    pc.Rejected?
  }

  /** No destruction is under way. */
  predicate Settled(cell: Cell) {
    cell.Holds? || cell.Destroyed?
  }

  /** The Clone callback produced a value owned by graph g. */
  function Make(s: State, g: Graph, c: Managed): State {
    s.(objs := s.objs[c.o := History(g, With(g), c.v, [])])
  }

  /** The Drop callback runs on c. */
  function Drop(s: State, c: Managed): State {
    if c.o in s.objs then
      s.(objs := s.objs[c.o := s.objs[c.o].(loc := Gone, drops := s.objs[c.o].drops + [c.v])])
    else s
  }

  predicate FreeId(s: State, id: Id) {
    id != 0 && id !in s.registry && id !in s.inUse
  }

  predicate FreeToken(s: State, tok: Token) {
    tok != 0 && tok !in s.entries
  }

  /** registerCppGCGraphState. */
  function Store(s: State, tok: Token, owner: Id, c: Managed): State {
    s.(entries := s.entries[tok := Entry(owner, c)],
       objs := if c.o in s.objs then s.objs[c.o := s.objs[c.o].(loc := In(tok))] else s.objs)
  }

  /** Removing a registry entry; its state now waits for the Drop callback. */
  function Unstore(s: State, tok: Token, loc: Loc): State
    requires tok in s.entries
  {
    var o := s.entries[tok].c.o;
    s.(entries := s.entries - {tok},
       objs := if o in s.objs then s.objs[o := s.objs[o].(loc := loc)] else s.objs)
  }

  /** Graph id and entry given back. */
  function Forget(s: State, id: Id): State {
    s.(registry := s.registry - {id}, inUse := s.inUse - {id})
  }

  /** The lookups of the dispatch callback and of dropCppGCGraphState. */
  predicate Known(s: State, id: Id, tok: Token) {
    id in s.registry && tok in s.entries && s.entries[tok].owner == id
  }

  /** The lookup of cppgcGraphStateValue and updateCppGCGraphState. */
  predicate Readable(s: State, id: Id, tok: Token) {
    tok in s.entries && s.entries[tok].owner == id
  }

  datatype ConstructOp =
    | CloneInitial(c: Managed)
    | RegisterGraph(id: Id)
    | RegisterState(tok: Token)
    | ConstructorTakes(ok: bool)

  datatype UnwindOp =
    | GraphIdsExhausted
    | StateIdsExhausted
    | DropUnclaimed
    | ConstructorRefuses
    | DropDiscarded
    | Unregister

  datatype ReplaceOp = CloneNew(c: Managed) | NewExhausted | RegisterNew(tok: Token)

  datatype WithdrawOp = ReplaceFails | DropNew

  datatype SwapOp =
    | ReplaceSwaps
    | ReplaceCallback
    | DropReplaced
    | Publish

  datatype LookupOp = Begin | End | Read

  datatype UpdateOp = WriteBack(c: Managed) | DropRejected | UpdateFails

  datatype CloseOp = CloseClaim | CloseRoot(ok: bool) | TearDownRoot

  datatype DestroyOp = DestroyCallsDrop | DropLast | DestroyCallback

  datatype Op =
    | Construct(c: ConstructOp)
    | Unwind(w: UnwindOp)
    | Replace(r: ReplaceOp)
    | Withdraw(y: WithdrawOp)
    | Swap(x: SwapOp)
    | Lookup(l: LookupOp)
    | Update(u: UpdateOp)
    | Close(k: CloseOp)
    | Destroy(d: DestroyOp)

  /** NewCppGCGenericGraph as far as it succeeds; ok is false when the native
      constructor took the state but no wrapper can be returned. */
  ghost predicate Constructs(s: State, s': State, g: Graph, op: ConstructOp) {
    (op.CloneInitial? <==> g !in s.graphs) &&
    var r := if g in s.graphs then s.graphs[g] else Rec(Finished, 0, 0, NoCell, false, false);
    match op
    case CloneInitial(c) => c.o !in s.objs && s' == Put(Make(s, g, c), g, r.(pc := Cloned(c)))
    case RegisterGraph(id) =>
      r.pc.Cloned? && FreeId(s, id) &&
      s' == Put(s, g, r.(pc := Registered(r.pc.c), id := id)).(
              registry := s.registry[id := g], inUse := s.inUse[id := g])
    case RegisterState(tok) =>
      r.pc.Registered? && FreeToken(s, tok) &&
      s' == Put(Store(s, tok, r.id, r.pc.c), g, r.(pc := Stored(tok), stateId := tok))
    case ConstructorTakes(ok) =>
      r.pc.Stored? && s' == Put(s, g, r.(pc := if ok then Idle else Orphan, cell := Holds(r.pc.tok)))
  }

  /** The failure paths of NewCppGCGenericGraph. */
  ghost predicate Unwinds(s: State, s': State, g: Graph, op: UnwindOp) {
    g in s.graphs &&
    var r := s.graphs[g];
    match op
    case GraphIdsExhausted => r.pc.Cloned? && s' == Goto(s, g, Unclaimed(r.pc.c))
    case StateIdsExhausted => r.pc.Registered? && s' == Goto(Forget(s, r.id), g, Unclaimed(r.pc.c))
    case DropUnclaimed => r.pc.Unclaimed? && s' == Goto(Drop(s, r.pc.c), g, Finished)
    case ConstructorRefuses =>
      r.pc.Stored? && r.pc.tok in s.entries &&
      s' == Goto(Unstore(s, r.pc.tok, With(g)), g, Discarding(s.entries[r.pc.tok].c))
    case DropDiscarded => r.pc.Discarding? && s' == Goto(Drop(s, r.pc.c), g, Unregistering)
    case Unregister => r.pc == Unregistering && s' == Goto(Forget(s, r.id), g, Finished)
  }

  /** installState up to the native replace. */
  ghost predicate Replaces(s: State, s': State, g: Graph, op: ReplaceOp) {
    g in s.graphs &&
    var r := s.graphs[g];
    match op
    case CloneNew(c) => r.pc == Busy && c.o !in s.objs && s' == Goto(Make(s, g, c), g, Owned(c))
    case NewExhausted => r.pc.Owned? && s' == Goto(Drop(s, r.pc.c), g, Busy)
    case RegisterNew(tok) =>
      r.pc.Owned? && FreeToken(s, tok) && s' == Goto(Store(s, tok, r.id, r.pc.c), g, Fresh(tok))
  }

  /** installState after the native replace has failed. */
  ghost predicate Withdraws(s: State, s': State, g: Graph, op: WithdrawOp) {
    g in s.graphs &&
    var r := s.graphs[g];
    match op
    case ReplaceFails =>
      r.pc.Fresh? && r.pc.tok in s.entries &&
      s' == Goto(Unstore(s, r.pc.tok, With(g)), g, DiscardingNew(s.entries[r.pc.tok].c))
    case DropNew => r.pc.DiscardingNew? && s' == Goto(Drop(s, r.pc.c), g, Busy)
  }

  /** The native replace, which refuses a graph whose destruction has begun and
      runs the Drop callback of the old state, and the end of installState. */
  ghost predicate Swaps(s: State, s': State, g: Graph, op: SwapOp) {
    g in s.graphs &&
    var r := s.graphs[g];
    match op
    case ReplaceSwaps =>
      r.pc.Fresh? && r.cell.Holds? &&
      s' == Put(s, g, r.(pc := Replaced(r.cell.tok, r.pc.tok), cell := Holds(r.pc.tok)))
    case ReplaceCallback =>
      r.pc.Replaced? &&
      s' == (if Known(s, r.id, r.pc.prior)
             then Goto(Unstore(s, r.pc.prior, With(g)), g, DroppingOld(s.entries[r.pc.prior].c, r.pc.tok))
             else s.(fatal := true))
    case DropReplaced => r.pc.DroppingOld? && s' == Goto(Drop(s, r.pc.c), g, Installed(r.pc.tok))
    case Publish => r.pc.Installed? && s' == Put(s, g, r.(pc := Busy, stateId := r.pc.tok))
  }

  /** begin, end and the lookup of State and UpdateState, which ends the operation when it fails. */
  ghost predicate LooksUp(s: State, s': State, g: Graph, op: LookupOp) {
    g in s.graphs &&
    var r := s.graphs[g];
    match op
    case Begin => r.pc == Idle && !r.closed && !r.rootClosed && !r.cell.Destroyed? && s' == Goto(s, g, Busy)
    case End =>
      r.pc == Busy &&
      s' == Goto(s, g, Idle).(inUse := if r.cell.Destroyed? then s.inUse - {r.id} else s.inUse)
    case Read =>
      r.pc == Busy &&
      s' == Goto(s, g, if Readable(s, r.id, r.stateId) then Updating(r.stateId, s.entries[r.stateId].c.v) else Busy)
  }

  /** The end of UpdateState; a refused write-back leaves a clone c to be dropped. */
  ghost predicate Updates(s: State, s': State, g: Graph, op: UpdateOp) {
    g in s.graphs &&
    var r := s.graphs[g];
    match op
    case WriteBack(c) =>
      r.pc.Updating? && c.o !in s.objs &&
      s' == (if Readable(s, r.id, r.pc.tok) then Goto(Written(s, r.pc.tok, c.v), g, Busy)
             else Goto(Make(s, g, c), g, Rejected(c)))
    case DropRejected => r.pc.Rejected? && s' == Goto(Drop(s, r.pc.c), g, Busy)
    case UpdateFails => r.pc.Updating? && s' == Goto(s, g, Busy)
  }

  /** updateCppGCGraphState: the same entry gets a new value. */
  function Written(s: State, tok: Token, v: Value): State
    requires tok in s.entries
  {
    var e := s.entries[tok];
    s.(entries := s.entries[tok := e.(c := Managed(e.c.o, v))],
       objs := if e.c.o in s.objs then s.objs[e.c.o := s.objs[e.c.o].(latest := v)] else s.objs)
  }

  /** The strong root is closed by Close, or by isolate teardown once its native
      dispose has returned. */
  ghost predicate Closes(s: State, s': State, g: Graph, op: CloseOp) {
    g in s.graphs &&
    var r := s.graphs[g];
    match op
    case CloseClaim => r.pc == Idle && !r.closed && s' == Put(s, g, r.(pc := Closing, closed := true))
    case CloseRoot(ok) =>
      r.pc == Closing && s' == Put(s, g, r.(pc := Idle, closed := ok, rootClosed := r.rootClosed || ok))
    case TearDownRoot => Interruptible(r.pc) && Settled(r.cell) && s' == Put(s, g, r.(rootClosed := true))
  }

  /** The native destruction of an object that nothing reaches, or whose isolate
      is torn down with the root still open. */
  ghost predicate Destroys(s: State, s': State, g: Graph, op: DestroyOp) {
    g in s.graphs &&
    var r := s.graphs[g];
    match op
    case DestroyCallsDrop =>
      r.cell.Holds? && Interruptible(r.pc) &&
      s' == (if Known(s, r.id, r.cell.tok)
             then Put(Unstore(s, r.cell.tok, Fading(g)), g, r.(cell := Dying(s.entries[r.cell.tok].c)))
             else s.(fatal := true))
    case DropLast => r.cell.Dying? && s' == Put(Drop(s, r.cell.c), g, r.(cell := Emptied))
    case DestroyCallback =>
      r.cell == Emptied &&
      s' == (if r.id in s.registry
             then Put(s, g, r.(cell := Destroyed, stateId := 0)).(
                    registry := s.registry - {r.id}, inUse := if InOp(r.pc) then s.inUse else s.inUse - {r.id})
             else s.(fatal := true))
  }

  ghost predicate Does(s: State, s': State, g: Graph, op: Op) {
    match op
    case Construct(c) => Constructs(s, s', g, c)
    case Unwind(w) => Unwinds(s, s', g, w)
    case Replace(r) => Replaces(s, s', g, r)
    case Withdraw(y) => Withdraws(s, s', g, y)
    case Swap(x) => Swaps(s, s', g, x)
    case Lookup(l) => LooksUp(s, s', g, l)
    case Update(u) => Updates(s, s', g, u)
    case Close(k) => Closes(s, s', g, k)
    case Destroy(d) => Destroys(s, s', g, d)
  }

  ghost predicate Next(s: State, s': State) {
    exists g, op :: Does(s, s', g, op)
  }

  ghost predicate Init(s: State) {
    s == State(map[], map[], map[], map[], map[], false)
  }

  // ------------------------------------------------------------ invariant

  predicate HasClone(pc: Pc) {
    pc.Cloned? || pc.Registered? || pc.Unclaimed? || pc.Discarding? || pc.Owned? || pc.DiscardingNew? ||
    pc.DroppingOld? || pc.Rejected?
  }

  predicate Constructing(pc: Pc) {
    pc.Cloned? || pc.Registered? || pc.Unclaimed? || pc.Stored? || pc.Discarding? || pc.Unregistering? || pc.Finished?
  }

  /** The native replace is under way or has returned. */
  predicate Swapped(pc: Pc) {
    pc.Replaced? || pc.DroppingOld? || pc.Installed?
  }

  /** The graph is destroyed or was never made, and no operation of it runs. */
  predicate Over(r: Rec) {
    r.pc.Finished? || (r.cell.Destroyed? && !InOp(r.pc))
  }

  predicate UsesId(r: Rec) {
    !Over(r) && !r.pc.Cloned? && !r.pc.Unclaimed?
  }

  /** The tokens that graph record r is responsible for. */
  predicate Owns(r: Rec, tok: Token) {
    || (r.cell.Holds? && tok == r.cell.tok)
    || (r.pc.Stored? && tok == r.pc.tok)
    || (r.pc.Fresh? && tok == r.pc.tok)
    || (r.pc.Replaced? && tok == r.pc.prior)
  }

  /** Where a graph is in its life. */
  predicate Shape(r: Rec) {
    && (r.cell.NoCell? <==> Constructing(r.pc))
    && (r.pc.Replaced? ==> r.cell.Holds? && r.pc.prior != r.cell.tok)
    && (Swapped(r.pc) && r.cell.Holds? ==> r.pc.tok == r.cell.tok)
    && (r.cell.Holds? && !Swapped(r.pc) ==> r.stateId == r.cell.tok)
    && (r.pc.Stored? ==> r.stateId == r.pc.tok)
    && (r.pc.Fresh? && r.cell.Holds? ==> r.pc.tok != r.cell.tok)
    && (r.pc.Updating? && r.cell.Holds? ==> r.pc.tok == r.cell.tok)
  }

  ghost predicate OwnsObj(s: State, g: Graph, o: Obj) {
    o in s.objs && s.objs[o].g == g
  }

  /** tok is registered under graph g's id and holds a state of g. */
  ghost predicate OwnEntry(s: State, g: Graph, id: Id, tok: Token) {
    Readable(s, id, tok) && OwnsObj(s, g, s.entries[tok].c.o)
  }

  ghost predicate GraphInv(s: State, g: Graph) {
    g in s.graphs ==>
      var r := s.graphs[g];
      && Shape(r)
      && (HasClone(r.pc) ==> r.pc.c.o in s.objs && s.objs[r.pc.c.o] == History(g, With(g), r.pc.c.v, []))
      && (r.cell.Dying? ==> r.cell.c.o in s.objs && s.objs[r.cell.c.o] == History(g, Fading(g), r.cell.c.v, []))
      && (UsesId(r) ==> r.id in s.inUse && s.inUse[r.id] == g && (r.id in s.registry <==> !r.cell.Destroyed?))
      && (r.cell.Holds? ==> OwnEntry(s, g, r.id, r.cell.tok))
      && (r.pc.Stored? || r.pc.Fresh? ==> OwnEntry(s, g, r.id, r.pc.tok))
      && (r.pc.Replaced? ==> OwnEntry(s, g, r.id, r.pc.prior))
      && (r.pc.Updating? && r.cell.Holds? ==> s.entries[r.pc.tok].c.v == r.pc.v)
  }

  ghost predicate IdInv(s: State, id: Id) {
    && (id in s.registry ==> id in s.inUse)
    && (id in s.inUse ==>
          var g := s.inUse[id];
          g in s.graphs && s.graphs[g].id == id && UsesId(s.graphs[g]))
  }

  ghost predicate TokenInv(s: State, tok: Token) {
    tok in s.entries ==>
      var e := s.entries[tok];
      && e.c.o in s.objs
      && var g := s.objs[e.c.o].g;
      && s.objs[e.c.o] == History(g, In(tok), e.c.v, [])
      && g in s.graphs && s.graphs[g].id == e.owner && Owns(s.graphs[g], tok)
  }

  ghost predicate ObjInv(s: State, o: Obj) {
    o in s.objs ==>
      var h := s.objs[o];
      && h.g in s.graphs
      && match h.loc
         case With(g) => g == h.g && HasClone(s.graphs[g].pc) && s.graphs[g].pc.c.o == o && h.drops == []
         case Fading(g) => g == h.g && s.graphs[g].cell.Dying? && s.graphs[g].cell.c.o == o && h.drops == []
         case In(tok) => tok in s.entries && s.entries[tok].c.o == o && h.drops == []
         case Gone => h.drops == [h.latest]
  }

  ghost predicate Inv(s: State) {
    && !s.fatal
    && (forall g: Graph :: GraphInv(s, g))
    && (forall id: Id :: IdInv(s, id))
    && (forall tok: Token :: TokenInv(s, tok))
    && (forall o: Obj :: ObjInv(s, o))
  }
}
