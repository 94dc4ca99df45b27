/**
 Process, isolate and cppgc heap lifecycle (gov8.go, isolate.go,
 isolate_advanced.go, cppgc_heap_lifecycle.go).

 lifecycleMu covers process transitions and isolate creation; every heap has
 its own mutex; the heap registry has a third that is only ever held for one
 step here. Actors are activations of Go operations on any threads.
 */
module Lifecycle {
  import opened Runs

  type Actor = nat
  type Iso = nat
  type Heap = nat

  datatype Platform = Uninitialized | Initialized | Disposed | Shutdown

  datatype MaybeHeap = NoHeap | SomeHeap(h: Heap)

  datatype Pc =
    | Initializing                               // lifecycleMu held, checks passed
    | Disposing                                  // lifecycleMu held, native V8 dispose running
    | DisposingPlatform                          // lifecycleMu held
    | Preparing(heap: MaybeHeap)                 // heap mutex held and heap checked
    | Creating(heap: MaybeHeap)                  // lifecycleMu also held, native constructor running
    | Constructed(heap: MaybeHeap, ok: bool, consumed: bool, i: Iso) // native constructor returned
    | Recorded(heap: MaybeHeap, ok: bool, i: Iso)                    // transfer recorded in the heap
    | ClosingIsolate(i: Iso)                     // isolate mutex held, native isolate dispose running
    | DisposedIsolate(i: Iso)                    // native isolate dispose returned
    | UnregisteringIsolate(i: Iso)               // closed published
    | ClosedHeap(h: Heap)                        // heap mutex held, heap closed, still registered
    | Finished

  /** Who is responsible for a native heap. Lost: taken by a constructor that made no isolate. */
  datatype Owner = Wrapper | OwnedBy(i: Iso) | Lost | Destroyed

  /** The fields of CppGCHeap (handle: whether it is nonzero) and its mutex;
      owner and transfers record what happened natively. */
  datatype HeapRec = HeapRec(
    handle: bool, closed: bool, terminated: bool, detached: bool, claimed: bool, transferred: bool,
    mu: bool, user: Actor, registered: bool, owner: Owner, transfers: nat)

  /** native: the engine isolate exists. stray: a native call failed and left it
      behind, either its dispose or a constructor that had already made it. */
  datatype IsoRec = IsoRec(native: bool, closed: bool, mu: bool, user: Actor, heap: MaybeHeap, stray: bool)

  /** lifeUser is meaningful while lifeMu is held. v8 and cppgc record that the
      engine and the explicit cppgc process are natively up. */
  datatype State = State(
    platform: Platform,
    explicit: bool,
    lifeMu: bool,
    lifeUser: Actor,
    live: set<Iso>,
    isolates: map<Iso, IsoRec>,
    heaps: map<Heap, HeapRec>,
    actors: map<Actor, Pc>,
    v8: bool,
    cppgc: bool)

  // ---------------------------------------------------------------- steps

  function Goto(s: State, a: Actor, pc: Pc): State {
    s.(actors := s.actors[a := pc])
  }

  function Lock(s: State, a: Actor, pc: Pc): State {
    Goto(s, a, pc).(lifeMu := true, lifeUser := a)
  }

  function Unlock(s: State, a: Actor): State {
    Goto(s, a, Finished).(lifeMu := false)
  }

  predicate At(s: State, a: Actor, pc: Pc) {
    a in s.actors && s.actors[a] == pc
  }

  function PutHeap(s: State, h: Heap, r: HeapRec): State {
    s.(heaps := s.heaps[h := r])
  }

  function PutIso(s: State, i: Iso, r: IsoRec): State {
    s.(isolates := s.isolates[i := r])
  }

  /** The registry of live heaps is empty. */
  ghost predicate NoHeaps(s: State) {
    forall h :: h in s.heaps ==> !s.heaps[h].registered
  }

  datatype ProcessOp =
    | BeginInitialize
    | EndInitialize(ok: bool)
    | BeginDispose
    | EndDispose(ok: bool)
    | BeginDisposePlatform
    | EndDisposePlatform(ok: bool)
    | InitializeCppGC
    | ShutdownCppGC

  ghost predicate ProcessStep(s: State, s': State, a: Actor, op: ProcessOp) {
    match op
    case BeginInitialize =>
      && a !in s.actors && !s.lifeMu && s.platform == Uninitialized && !s.explicit && NoHeaps(s)
      && s' == Lock(s, a, Initializing)
    case EndInitialize(ok) =>
      && At(s, a, Initializing)
      && s' == Unlock(s, a).(platform := if ok then Initialized else s.platform, v8 := s.v8 || ok)
    case BeginDispose =>
      && a !in s.actors && !s.lifeMu && s.platform == Initialized && s.live == {}
      && s' == Lock(s, a, Disposing).(platform := Disposed)
    case EndDispose(ok) =>
      && At(s, a, Disposing)
      && s' == Unlock(s, a).(platform := if ok then s.platform else Initialized, v8 := s.v8 && !ok)
    case BeginDisposePlatform =>
      && a !in s.actors && !s.lifeMu && s.platform == Disposed
      && s' == Lock(s, a, DisposingPlatform).(platform := Shutdown)
    case EndDisposePlatform(ok) =>
      && At(s, a, DisposingPlatform)
      && s' == Unlock(s, a).(platform := if ok then s.platform else Disposed)
    case InitializeCppGC =>
      && a !in s.actors && !s.lifeMu && s.platform == Uninitialized && !s.explicit
      && s' == Goto(s, a, Finished).(explicit := true, cppgc := true)
    case ShutdownCppGC =>
      && a !in s.actors && !s.lifeMu && s.platform == Uninitialized && s.explicit && NoHeaps(s)
      && s' == Goto(s, a, Finished).(explicit := false, cppgc := false)
  }

  predicate HeapFree(s: State, h: Heap) {
    h in s.heaps && !s.heaps[h].mu
  }

  /** checkLocked, up to thread affinity. */
  predicate Usable(r: HeapRec) {
    !r.closed && r.handle
  }

  datatype HeapOp =
    | NewHeap(h: Heap)
    | EnableDetached(h: Heap)
    | Claim(h: Heap)
    | Terminate(h: Heap)

  /** Successful heap operations; failing ones change nothing. Each holds the
      heap's mutex across its native call. */
  ghost predicate HeapStep(s: State, s': State, a: Actor, op: HeapOp) {
    match op
    case NewHeap(h) =>
      && h !in s.heaps && (s.explicit || s.platform == Initialized)
      && s' == PutHeap(s, h, HeapRec(true, false, false, false, false, false, false, 0, true, Wrapper, 0))
    case EnableDetached(h) =>
      && HeapFree(s, h)
      && var r := s.heaps[h];
      && Usable(r) && !r.detached && !r.claimed && s' == PutHeap(s, h, r.(detached := true))
    case Claim(h) =>
      && HeapFree(s, h)
      && var r := s.heaps[h];
      && Usable(r) && !r.claimed && !r.detached && !r.terminated && s' == PutHeap(s, h, r.(claimed := true))
    case Terminate(h) =>
      && HeapFree(s, h)
      && var r := s.heaps[h];
      && !r.transferred && !r.closed && !r.terminated && s' == PutHeap(s, h, r.(terminated := true))
  }

  datatype HeapCloseOp = CloseHeap(h: Heap) | UnregisterHeap

  /** CppGCHeap.Close: native close, then removal from the registry, under the heap's mutex. */
  ghost predicate HeapCloseStep(s: State, s': State, a: Actor, op: HeapCloseOp) {
    match op
    case CloseHeap(h) =>
      && a !in s.actors && HeapFree(s, h)
      && var r := s.heaps[h];
      && !r.transferred && !r.closed
      && s' == PutHeap(Goto(s, a, ClosedHeap(h)), h,
                       r.(handle := false, closed := true, mu := true, user := a, owner := Destroyed))
    case UnregisterHeap =>
      && a in s.actors && s.actors[a].ClosedHeap? && s.actors[a].h in s.heaps
      && var h := s.actors[a].h;
         s' == PutHeap(Goto(s, a, Finished), h, s.heaps[h].(mu := false, registered := false))
  }

  predicate Transferable(r: HeapRec) {
    Usable(r) && r.claimed && !r.detached && !r.terminated
  }

  /** Give the heap mutex back, if one is held. */
  function FreeHeap(s: State, m: MaybeHeap): State {
    s.(heaps := if m.SomeHeap? && m.h in s.heaps then s.heaps[m.h := s.heaps[m.h].(mu := false)] else s.heaps)
  }

  datatype CreateOp = PrepareBare | PrepareWith(h: Heap) | BeginCreate | RefuseCreate

  /** NewIsolate, and NewIsolateWithParams when there is a heap, up to the native constructor. */
  ghost predicate CreateStep(s: State, s': State, a: Actor, op: CreateOp) {
    match op
    case PrepareBare => a !in s.actors && s' == Goto(s, a, Preparing(NoHeap))
    case PrepareWith(h) =>
      && a !in s.actors && HeapFree(s, h) && Transferable(s.heaps[h])
      && s' == PutHeap(Goto(s, a, Preparing(SomeHeap(h))), h, s.heaps[h].(mu := true, user := a))
    case BeginCreate =>
      && a in s.actors && s.actors[a].Preparing? && !s.lifeMu && s.platform == Initialized
      && s' == Lock(s, a, Creating(s.actors[a].heap))
    case RefuseCreate =>
      && a in s.actors && s.actors[a].Preparing? && s.platform != Initialized
      && s' == Goto(FreeHeap(s, s.actors[a].heap), a, Finished)
  }

  datatype ConstructOp = NativeCreate(ok: bool, made: bool, consumed: bool, i: Iso) | RecordTransfer | FinishCreate

  /** The native constructor and what follows it. A failing constructor may have
      consumed the heap, and may have made an isolate that nobody gets. */
  ghost predicate ConstructStep(s: State, s': State, a: Actor, op: ConstructOp) {
    match op
    case NativeCreate(ok, made, consumed, i) =>
      && a in s.actors && s.actors[a].Creating? && i !in s.isolates && (ok ==> made)
      && var m := s.actors[a].heap;
      && (m.SomeHeap? ==> m.h in s.heaps) && (consumed ==> m.SomeHeap?)
      && s' == Goto(s, a, Constructed(m, ok, consumed, i)).(
                 isolates := if made
                             then s.isolates[i := IsoRec(true, false, false, a, if consumed then m else NoHeap, !ok)]
                             else s.isolates,
                 heaps := if m.SomeHeap? && consumed
                          then s.heaps[m.h := s.heaps[m.h].(owner := if made then OwnedBy(i) else Lost,
                                                            transfers := s.heaps[m.h].transfers + 1)]
                          else s.heaps)
    case RecordTransfer =>
      && a in s.actors && s.actors[a].Constructed?
      && var pc := s.actors[a];
      && (pc.heap.SomeHeap? ==> pc.heap.h in s.heaps)
      && s' == Goto(s, a, Recorded(pc.heap, pc.ok, pc.i)).(
                 heaps := if pc.heap.SomeHeap? && pc.consumed
                          then s.heaps[pc.heap.h := s.heaps[pc.heap.h].(handle := false, transferred := true,
                                                                        registered := false)]
                          else s.heaps)
    case FinishCreate =>
      && a in s.actors && s.actors[a].Recorded?
      && var pc := s.actors[a];
         s' == FreeHeap(Unlock(s, a), pc.heap).(live := if pc.ok then s.live + {pc.i} else s.live)
  }

  datatype CloseOp =
    | BeginClose(i: Iso)
    | NativeIsolateDispose(ok: bool)
    | PublishClosed
    | UnregisterIsolate

  /** Isolate.Close. The native dispose ends the isolate and the heap it owns; if
      it fails, both are left behind and Close goes on all the same. */
  ghost predicate CloseStep(s: State, s': State, a: Actor, op: CloseOp) {
    match op
    case BeginClose(i) =>
      && a !in s.actors && i in s.live && i in s.isolates && s.platform == Initialized
      && !s.isolates[i].mu && !s.isolates[i].closed
      && s' == PutIso(Goto(s, a, ClosingIsolate(i)), i, s.isolates[i].(mu := true, user := a))
    case NativeIsolateDispose(ok) =>
      && a in s.actors && s.actors[a].ClosingIsolate? && s.actors[a].i in s.isolates
      && var i := s.actors[a].i;
      && var m := s.isolates[i].heap;
      && s' == PutIso(Goto(s, a, DisposedIsolate(i)), i, s.isolates[i].(native := !ok, stray := !ok)).(
                 heaps := if ok && m.SomeHeap? && m.h in s.heaps
                          then s.heaps[m.h := s.heaps[m.h].(owner := Destroyed)]
                          else s.heaps)
    case PublishClosed =>
      && a in s.actors && s.actors[a].DisposedIsolate? && s.actors[a].i in s.isolates
      && var i := s.actors[a].i;
         s' == PutIso(Goto(s, a, UnregisteringIsolate(i)), i, s.isolates[i].(closed := true, mu := false))
    case UnregisterIsolate =>
      && a in s.actors && s.actors[a].UnregisteringIsolate? && !s.lifeMu
      && s' == Goto(s, a, Finished).(live := s.live - {s.actors[a].i})
  }

  datatype Op =
    | OnProcess(p: ProcessOp)
    | OnHeap(h: HeapOp)
    | OnHeapClose(x: HeapCloseOp)
    | OnCreate(c: CreateOp)
    | OnConstruct(n: ConstructOp)
    | OnClose(k: CloseOp)

  ghost predicate Does(s: State, s': State, a: Actor, op: Op) {
    match op
    case OnProcess(p) => ProcessStep(s, s', a, p)
    case OnHeap(h) => HeapStep(s, s', a, h)
    case OnHeapClose(x) => HeapCloseStep(s, s', a, x)
    case OnCreate(c) => CreateStep(s, s', a, c)
    case OnConstruct(n) => ConstructStep(s, s', a, n)
    case OnClose(k) => CloseStep(s, s', a, k)
  }

  ghost predicate Next(s: State, s': State) {
    exists a, op :: Does(s, s', a, op)
  }

  ghost predicate Init(s: State) {
    s == State(Uninitialized, false, false, 0, {}, map[], map[], map[], false, false)
  }

  // ------------------------------------------------------------ invariant

  predicate HoldsLife(pc: Pc) {
    pc.Initializing? || pc.Disposing? || pc.DisposingPlatform? || pc.Creating? || pc.Constructed? || pc.Recorded?
  }

  predicate HoldsHeap(pc: Pc) {
    (pc.Preparing? || pc.Creating? || pc.Constructed? || pc.Recorded?) && pc.heap.SomeHeap?
  }

  /** Isolate i was created by an operation that has not registered it yet. */
  predicate JustCreated(pc: Pc, i: Iso) {
    (pc.Constructed? || pc.Recorded?) && pc.ok && pc.i == i
  }

  ghost predicate ProcessInv(s: State) {
    && s.cppgc == s.explicit
    && (s.explicit ==> s.platform == Uninitialized && !(s.lifeMu && At(s, s.lifeUser, Initializing)))
    && (s.v8 ==> s.platform != Uninitialized)
    && (s.platform == Initialized ==> s.v8)
    && (s.platform == Shutdown || (s.platform == Disposed && !s.lifeMu) ==> !s.v8)
    && (s.platform != Initialized ==> s.live == {})
  }

  ghost predicate ActorInv(s: State, a: Actor) {
    a in s.actors ==>
      var pc := s.actors[a];
      && (HoldsLife(pc) ==> s.lifeMu && s.lifeUser == a)
      && (pc.Initializing? ==> s.platform == Uninitialized && !s.explicit)
      && (pc.Disposing? ==> s.platform == Disposed && s.v8)
      && (pc.DisposingPlatform? ==> s.platform == Shutdown)
      && (pc.Creating? || pc.Constructed? || pc.Recorded? ==> s.platform == Initialized)
      && (pc.Constructed? && pc.ok ==>
            && pc.i in s.isolates && pc.i !in s.live
            && s.isolates[pc.i] == IsoRec(true, false, false, a, if pc.consumed then pc.heap else NoHeap, false))
      && (pc.Recorded? && pc.ok ==>
            && pc.i in s.isolates && pc.i !in s.live
            && s.isolates[pc.i] == IsoRec(true, false, false, a, s.isolates[pc.i].heap, false))
      && (pc.ClosingIsolate? || pc.DisposedIsolate? ==>
            && pc.i in s.isolates && s.isolates[pc.i].mu && s.isolates[pc.i].user == a
            && !s.isolates[pc.i].closed && pc.i in s.live
            && s.isolates[pc.i].native == (pc.ClosingIsolate? || s.isolates[pc.i].stray)
            && !(pc.ClosingIsolate? && s.isolates[pc.i].stray))
      && (pc.UnregisteringIsolate? ==> pc.i in s.isolates && s.isolates[pc.i].closed)
  }

  const NO_HEAP := HeapRec(false, false, false, false, false, false, false, 0, false, Destroyed, 0)
  const NO_ISOLATE := IsoRec(false, false, false, 0, NoHeap, false)

  function HeapAt(s: State, h: Heap): HeapRec {
    if h in s.heaps then s.heaps[h] else NO_HEAP
  }

  function IsolateAt(s: State, i: Iso): IsoRec {
    if i in s.isolates then s.isolates[i] else NO_ISOLATE
  }

  function PcOf(s: State, a: Actor): Pc {
    if a in s.actors then s.actors[a] else Finished
  }

  /** The heap whose mutex an operation holds. */
  function Held(pc: Pc): Heap {
    if HoldsHeap(pc) then pc.heap.h else if pc.ClosedHeap? then pc.h else 0
  }

  /** What actor a at pc, holding the mutex of heap r, relies on. */
  predicate Relies(a: Actor, pc: Pc, r: HeapRec) {
    && (HoldsHeap(pc) ==>
          && r.mu && r.user == a && r.claimed && !r.detached && !r.terminated && !r.closed
          && (pc.Preparing? || pc.Creating? || (pc.Constructed? && !pc.consumed) ==>
                r.handle && r.owner == Wrapper && r.transfers == 0 && !r.transferred && r.registered)
          && (pc.Constructed? && pc.consumed ==>
                && r.handle && !r.transferred && r.transfers == 1
                && (if pc.ok then r.owner == OwnedBy(pc.i) else r.owner != Wrapper))
          && (pc.Recorded? ==> (r.handle <==> r.owner == Wrapper) && (r.transferred <==> r.transfers == 1)))
    && (pc.ClosedHeap? ==> r.mu && r.user == a && r.closed)
  }

  ghost predicate HolderInv(s: State, a: Actor) {
    Relies(a, PcOf(s, a), HeapAt(s, Held(PcOf(s, a))))
  }

  ghost predicate IsoInv(s: State, i: Iso) {
    && (i in s.live ==> i in s.isolates)
    && (i in s.isolates ==>
          var r := s.isolates[i];
          && (r.native ==> r.stray || i in s.live || (r.user in s.actors && JustCreated(s.actors[r.user], i)))
          && (r.stray ==> r.native && (r.closed || i !in s.live || At(s, r.user, DisposedIsolate(i))))
          && (r.closed && r.native ==> r.stray)
          && (!r.native && !r.closed ==> At(s, r.user, DisposedIsolate(i)))
          && (r.heap.SomeHeap? && r.native ==>
                r.heap.h in s.heaps && s.heaps[r.heap.h].owner == OwnedBy(i)))
  }

  predicate HoldsIt(pc: Pc, h: Heap) {
    (HoldsHeap(pc) && pc.heap.h == h) || pc == ClosedHeap(h)
  }

  /** Heap h with record r, its user at pc and its owner's record o. When nobody
      holds the heap's mutex, its handle says whether the wrapper owns it. */
  predicate OneOwner(h: Heap, r: HeapRec, pc: Pc, o: IsoRec) {
    && !(r.claimed && r.detached)
    && r.transfers <= 1
    && (r.transferred ==> r.transfers == 1 && !r.closed)
    && (r.transfers == 1 ==> r.claimed && !r.detached && !r.terminated && r.owner != Wrapper)
    && (r.owner.OwnedBy? || r.owner.Lost? ==> r.transfers == 1)
    && (!r.mu ==> (r.handle <==> r.owner == Wrapper) && (r.transferred <==> r.transfers == 1))
    && (r.closed ==> r.owner == Destroyed && r.transfers == 0 && !r.handle)
    && (!r.closed && !r.transferred ==> r.handle)
    && (r.mu ==> HoldsIt(pc, h))
    && (r.owner == Wrapper ==> r.registered)
    && (r.owner.OwnedBy? ==> o.native && o.heap == SomeHeap(h))
  }

  function OwnerOf(s: State, r: HeapRec): IsoRec {
    if r.owner.OwnedBy? then IsolateAt(s, r.owner.i) else NO_ISOLATE
  }

  ghost predicate HeapInv(s: State, h: Heap) {
    h in s.heaps ==>
      && OneOwner(h, s.heaps[h], PcOf(s, s.heaps[h].user), OwnerOf(s, s.heaps[h]))
      && (s.platform == Uninitialized ==> s.heaps[h].transfers == 0)
  }

  ghost predicate Inv(s: State) {
    && ProcessInv(s)
    && (forall a: Actor :: ActorInv(s, a))
    && (forall a: Actor :: HolderInv(s, a))
    && (forall i: Iso :: IsoInv(s, i))
    && (forall h: Heap :: HeapInv(s, h))
  }

  /** The heap is no longer the wrapper's. */
  predicate Left(s: State, h: Heap) {
    h in s.heaps && s.heaps[h].owner != Wrapper
  }

  predicate StaysLeft(s: State, s': State, h: Heap) {
    Left(s, h) ==> Left(s', h) && s'.heaps[h].transfers == s.heaps[h].transfers
  }

  // ------------------------------------------------- steps keep it

  /** What the invariant says about the objects an actor works on. */
  lemma AboutActor(s: State, a: Actor)
    requires Inv(s) && a in s.actors
    ensures var pc := s.actors[a];
            && ActorInv(s, a) && HolderInv(s, a)
            && (HoldsHeap(pc) ==> HeapInv(s, pc.heap.h))
            && (pc.ClosedHeap? ==> HeapInv(s, pc.h))
            && (pc.ClosingIsolate? || pc.DisposedIsolate? || pc.UnregisteringIsolate? ==>
                  IsoInv(s, pc.i) && (s.isolates[pc.i].heap.SomeHeap? ==> HeapInv(s, s.isolates[pc.i].heap.h)))
  {
    assert ActorInv(s, a) && HolderInv(s, a);
  }

  /** A step that neither makes nor closes an isolate. */
  ghost predicate LeavesIsolates(s: State, s': State) {
    && s'.live == s.live && s'.isolates == s.isolates
    && (forall b :: PcOf(s, b).Constructed? || PcOf(s, b).Recorded? || PcOf(s, b).DisposedIsolate? ==>
          PcOf(s', b) == PcOf(s, b))
  }

  ghost predicate KeepsOwner(s: State, s': State, h: Heap) {
    HeapAt(s, h).owner.OwnedBy? ==> HeapAt(s', h).owner == HeapAt(s, h).owner
  }

  lemma OthersKeepIsolates(s: State, s': State)
    requires Inv(s) && LeavesIsolates(s, s') && forall h: Heap :: KeepsOwner(s, s', h)
    ensures forall i: Iso :: IsoInv(s', i)
  {
    forall i: Iso ensures IsoInv(s', i) {
      assert IsoInv(s, i);
      if i in s.isolates {
        var r := s.isolates[i];
        assert JustCreated(PcOf(s, r.user), i) || PcOf(s, r.user).DisposedIsolate? ==>
                 PcOf(s', r.user) == PcOf(s, r.user);
        assert r.heap.SomeHeap? ==> KeepsOwner(s, s', r.heap.h);
      }
    }
  }

  lemma ProcessStepKeepsActors(s: State, s': State, a: Actor, op: ProcessOp)
    requires Inv(s) && ProcessStep(s, s', a, op)
    ensures ProcessInv(s')
    ensures forall b: Actor :: ActorInv(s', b)
  {
    assert ActorInv(s, s.lifeUser);
    assert ActorInv(s, a);
    forall b: Actor ensures ActorInv(s', b) {
      assert ActorInv(s, b);
    }
  }

  lemma ProcessStepKeepsHolders(s: State, s': State, a: Actor, op: ProcessOp)
    requires Inv(s) && ProcessStep(s, s', a, op)
    ensures LeavesIsolates(s, s')
    ensures forall b: Actor :: HolderInv(s', b)
  {
    assert ActorInv(s, s.lifeUser);
    assert ActorInv(s, a);
    forall b: Actor ensures HolderInv(s', b) {
      assert HolderInv(s, b);
    }
  }

  lemma ProcessStepKeepsHeaps(s: State, s': State, a: Actor, op: ProcessOp)
    requires Inv(s) && ProcessStep(s, s', a, op)
    ensures forall h: Heap :: HeapInv(s', h)
    ensures forall h: Heap :: StaysLeft(s, s', h) && KeepsOwner(s, s', h)
  {
    assert ActorInv(s, a);
    forall h: Heap ensures HeapInv(s', h) && StaysLeft(s, s', h) && KeepsOwner(s, s', h) {
      assert HeapInv(s, h);
    }
  }

  lemma HeapStepKeepsActors(s: State, s': State, a: Actor, op: HeapOp)
    requires Inv(s) && HeapStep(s, s', a, op)
    ensures ProcessInv(s')
    ensures forall b: Actor :: ActorInv(s', b)
  {
    assert ActorInv(s, s.lifeUser);
    if a in s.actors {
      AboutActor(s, a);
    }
    assert HeapInv(s, op.h);
    forall b: Actor ensures ActorInv(s', b) {
      assert ActorInv(s, b);
    }
  }

  lemma HeapStepKeepsHolders(s: State, s': State, a: Actor, op: HeapOp)
    requires Inv(s) && HeapStep(s, s', a, op)
    ensures LeavesIsolates(s, s')
    ensures forall b: Actor :: HolderInv(s', b)
  {
    assert ActorInv(s, s.lifeUser);
    if a in s.actors {
      AboutActor(s, a);
    }
    assert HeapInv(s, op.h);
    forall b: Actor ensures HolderInv(s', b) {
      assert HolderInv(s, b);
    }
  }

  lemma HeapStepKeepsHeaps(s: State, s': State, a: Actor, op: HeapOp)
    requires Inv(s) && HeapStep(s, s', a, op)
    ensures forall h: Heap :: HeapInv(s', h)
    ensures forall h: Heap :: StaysLeft(s, s', h) && KeepsOwner(s, s', h)
  {
    if a in s.actors {
      AboutActor(s, a);
    }
    assert HeapInv(s, op.h);
    forall h: Heap ensures HeapInv(s', h) && StaysLeft(s, s', h) && KeepsOwner(s, s', h) {
      assert HeapInv(s, h);
    }
  }

  lemma HeapCloseStepKeepsActors(s: State, s': State, a: Actor, op: HeapCloseOp)
    requires Inv(s) && HeapCloseStep(s, s', a, op)
    ensures ProcessInv(s')
    ensures forall b: Actor :: ActorInv(s', b)
  {
    assert ActorInv(s, s.lifeUser);
    if a in s.actors {
      AboutActor(s, a);
    }
    assert op.CloseHeap? ==> HeapInv(s, op.h);
    forall b: Actor ensures ActorInv(s', b) {
      assert ActorInv(s, b);
    }
  }

  lemma HeapCloseStepKeepsHolders(s: State, s': State, a: Actor, op: HeapCloseOp)
    requires Inv(s) && HeapCloseStep(s, s', a, op)
    ensures LeavesIsolates(s, s')
    ensures forall b: Actor :: HolderInv(s', b)
  {
    assert ActorInv(s, s.lifeUser);
    if a in s.actors {
      AboutActor(s, a);
    }
    assert op.CloseHeap? ==> HeapInv(s, op.h);
    forall b: Actor ensures HolderInv(s', b) {
      assert HolderInv(s, b);
    }
  }

  lemma HeapCloseStepKeepsHeaps(s: State, s': State, a: Actor, op: HeapCloseOp)
    requires Inv(s) && HeapCloseStep(s, s', a, op)
    ensures forall h: Heap :: HeapInv(s', h)
    ensures forall h: Heap :: StaysLeft(s, s', h) && KeepsOwner(s, s', h)
  {
    if a in s.actors {
      AboutActor(s, a);
    }
    assert op.CloseHeap? ==> HeapInv(s, op.h);
    forall h: Heap ensures HeapInv(s', h) && StaysLeft(s, s', h) && KeepsOwner(s, s', h) {
      assert HeapInv(s, h);
    }
  }

  lemma CreateStepKeepsActors(s: State, s': State, a: Actor, op: CreateOp)
    requires Inv(s) && CreateStep(s, s', a, op)
    ensures ProcessInv(s')
    ensures forall b: Actor :: ActorInv(s', b)
  {
    assert ActorInv(s, s.lifeUser);
    if a in s.actors {
      AboutActor(s, a);
    }
    assert op.PrepareWith? ==> HeapInv(s, op.h);
    forall b: Actor ensures ActorInv(s', b) {
      assert ActorInv(s, b);
    }
  }

  lemma CreateStepKeepsHolders(s: State, s': State, a: Actor, op: CreateOp)
    requires Inv(s) && CreateStep(s, s', a, op)
    ensures LeavesIsolates(s, s')
    ensures forall b: Actor :: HolderInv(s', b)
  {
    assert ActorInv(s, s.lifeUser);
    if a in s.actors {
      AboutActor(s, a);
    }
    assert op.PrepareWith? ==> HeapInv(s, op.h);
    forall b: Actor ensures HolderInv(s', b) {
      assert HolderInv(s, b);
    }
  }

  lemma CreateStepKeepsHeaps(s: State, s': State, a: Actor, op: CreateOp)
    requires Inv(s) && CreateStep(s, s', a, op)
    ensures forall h: Heap :: HeapInv(s', h)
    ensures forall h: Heap :: StaysLeft(s, s', h) && KeepsOwner(s, s', h)
  {
    if a in s.actors {
      AboutActor(s, a);
    }
    assert op.PrepareWith? ==> HeapInv(s, op.h);
    forall h: Heap ensures StaysLeft(s, s', h) && KeepsOwner(s, s', h) {
      assert HeapAt(s', h).owner == HeapAt(s, h).owner && HeapAt(s', h).transfers == HeapAt(s, h).transfers;
    }
    forall h: Heap ensures HeapInv(s', h) {
      assert HeapInv(s, h);
    }
  }

  lemma ConstructStepKeepsActors(s: State, s': State, a: Actor, op: ConstructOp)
    requires Inv(s) && ConstructStep(s, s', a, op)
    ensures ProcessInv(s')
    ensures forall b: Actor :: ActorInv(s', b)
  {
    assert ActorInv(s, s.lifeUser);
    if a in s.actors {
      AboutActor(s, a);
    }
    assert op.NativeCreate? ==> IsoInv(s, op.i);
    forall b: Actor ensures ActorInv(s', b) {
      assert ActorInv(s, b);
    }
  }

  lemma ConstructStepKeepsIsolates(s: State, s': State, a: Actor, op: ConstructOp)
    requires Inv(s) && ConstructStep(s, s', a, op)
    ensures forall i: Iso :: IsoInv(s', i)
    ensures forall b: Actor :: HolderInv(s', b)
  {
    assert ActorInv(s, s.lifeUser);
    if a in s.actors {
      AboutActor(s, a);
    }
    assert op.NativeCreate? ==> IsoInv(s, op.i);
    forall i: Iso ensures IsoInv(s', i) {
      assert IsoInv(s, i);
      assert i in s.isolates ==> ActorInv(s, s.isolates[i].user);
    }
    forall b: Actor ensures HolderInv(s', b) {
      assert HolderInv(s, b);
    }
  }

  lemma ConstructStepKeepsHeaps(s: State, s': State, a: Actor, op: ConstructOp)
    requires Inv(s) && ConstructStep(s, s', a, op)
    ensures forall h: Heap :: HeapInv(s', h)
    ensures forall h: Heap :: StaysLeft(s, s', h)
  {
    if a in s.actors {
      AboutActor(s, a);
    }
    assert op.NativeCreate? ==> IsoInv(s, op.i);
    forall h: Heap ensures HeapInv(s', h) && StaysLeft(s, s', h) {
      assert HeapInv(s, h);
    }
  }

  lemma CloseStepKeepsActors(s: State, s': State, a: Actor, op: CloseOp)
    requires Inv(s) && CloseStep(s, s', a, op)
    ensures ProcessInv(s')
    ensures forall b: Actor :: ActorInv(s', b)
  {
    assert ActorInv(s, s.lifeUser);
    if a in s.actors {
      AboutActor(s, a);
    }
    assert op.BeginClose? ==> IsoInv(s, op.i) && (op.i in s.isolates ==> ActorInv(s, s.isolates[op.i].user));
    forall b: Actor ensures ActorInv(s', b) {
      assert ActorInv(s, b);
    }
  }

  lemma CloseStepKeepsIsolates(s: State, s': State, a: Actor, op: CloseOp)
    requires Inv(s) && CloseStep(s, s', a, op)
    ensures forall i: Iso :: IsoInv(s', i)
    ensures forall b: Actor :: HolderInv(s', b)
  {
    assert ActorInv(s, s.lifeUser);
    if a in s.actors {
      AboutActor(s, a);
    }
    assert op.BeginClose? ==> IsoInv(s, op.i) && (op.i in s.isolates ==> ActorInv(s, s.isolates[op.i].user));
    forall i: Iso ensures IsoInv(s', i) {
      assert IsoInv(s, i);
      assert i in s.isolates ==> ActorInv(s, s.isolates[i].user);
    }
    forall b: Actor ensures HolderInv(s', b) {
      assert ActorInv(s, b) && HolderInv(s, b);
    }
  }

  lemma CloseStepKeepsHeaps(s: State, s': State, a: Actor, op: CloseOp)
    requires Inv(s) && CloseStep(s, s', a, op)
    ensures forall h: Heap :: HeapInv(s', h)
    ensures forall h: Heap :: StaysLeft(s, s', h)
  {
    if a in s.actors {
      AboutActor(s, a);
    }
    assert op.BeginClose? ==> IsoInv(s, op.i) && (op.i in s.isolates ==> ActorInv(s, s.isolates[op.i].user));
    forall h: Heap ensures HeapInv(s', h) && StaysLeft(s, s', h) {
      assert HeapInv(s, h);
    }
  }

  lemma NextKeepsInv()
    ensures forall s, s' :: Inv(s) && Next(s, s') ==> Inv(s')
  {
    forall s, s' | Inv(s) && Next(s, s') ensures Inv(s') {
      var a, op :| Does(s, s', a, op);
      match op
      case OnProcess(p) =>
        ProcessStepKeepsActors(s, s', a, p);
        ProcessStepKeepsHolders(s, s', a, p);
        ProcessStepKeepsHeaps(s, s', a, p);
        OthersKeepIsolates(s, s');
      case OnHeap(h) =>
        HeapStepKeepsActors(s, s', a, h);
        HeapStepKeepsHolders(s, s', a, h);
        HeapStepKeepsHeaps(s, s', a, h);
        OthersKeepIsolates(s, s');
      case OnHeapClose(x) =>
        HeapCloseStepKeepsActors(s, s', a, x);
        HeapCloseStepKeepsHolders(s, s', a, x);
        HeapCloseStepKeepsHeaps(s, s', a, x);
        OthersKeepIsolates(s, s');
      case OnCreate(c) =>
        CreateStepKeepsActors(s, s', a, c);
        CreateStepKeepsHolders(s, s', a, c);
        CreateStepKeepsHeaps(s, s', a, c);
        OthersKeepIsolates(s, s');
      case OnConstruct(n) =>
        ConstructStepKeepsActors(s, s', a, n);
        ConstructStepKeepsIsolates(s, s', a, n);
        ConstructStepKeepsHeaps(s, s', a, n);
      case OnClose(k) =>
        CloseStepKeepsActors(s, s', a, k);
        CloseStepKeepsIsolates(s, s', a, k);
        CloseStepKeepsHeaps(s, s', a, k);
    }
  }

  lemma RunInv(trace: seq<State>)
    requires IsRun(Init, Next, trace)
    ensures forall n: nat :: n < |trace| ==> Inv(trace[n])
  {
    NextKeepsInv();
    Invariant(Init, Next, Inv, trace);
  }

  // ------------------------------------------------------------- theorems

  predicate Stray(s: State, i: Iso) {
    i in s.isolates && s.isolates[i].stray
  }

  /** This step's native call failed and left isolate i behind: its dispose, or
      the constructor that had made it. */
  ghost predicate Strays(s: State, s': State, i: Iso) {
    || (exists a :: At(s, a, ClosingIsolate(i)) && CloseStep(s, s', a, NativeIsolateDispose(false)))
    || (exists a, consumed :: ConstructStep(s, s', a, NativeCreate(false, true, consumed, i)))
  }

  ghost predicate StraysAt(trace: seq<State>, k: nat, i: Iso) {
    k + 1 < |trace| && Strays(trace[k], trace[k + 1], i)
  }

  lemma CloseStrays(s: State, s': State, a: Actor, op: CloseOp, i: Iso)
    requires Inv(s) && CloseStep(s, s', a, op)
    ensures Stray(s', i) <==> Stray(s, i) || (At(s, a, ClosingIsolate(i)) && op == NativeIsolateDispose(false))
  {
    if a in s.actors {
      AboutActor(s, a);
    }
  }

  lemma ConstructStrays(s: State, s': State, a: Actor, op: ConstructOp, i: Iso)
    requires Inv(s) && ConstructStep(s, s', a, op)
    ensures Stray(s', i) <==>
              Stray(s, i) || (op.NativeCreate? && op == NativeCreate(false, true, op.consumed, i))
  {
  }

  lemma StepStrays(s: State, s': State, a: Actor, op: Op, i: Iso)
    requires Inv(s) && Does(s, s', a, op) && Stray(s, i) != Stray(s', i)
    ensures Stray(s', i) && Strays(s, s', i)
  {
    match op
    case OnProcess(p) => ProcessStepKeepsHolders(s, s', a, p);
    case OnHeap(x) => HeapStepKeepsHolders(s, s', a, x);
    case OnHeapClose(x) => HeapCloseStepKeepsHolders(s, s', a, x);
    case OnCreate(c) => CreateStepKeepsHolders(s, s', a, c);
    case OnConstruct(c) => ConstructStrays(s, s', a, c, i);
    case OnClose(k) => CloseStrays(s, s', a, k, i);
  }

  lemma NextStrays(s: State, s': State, i: Iso)
    requires Inv(s) && Next(s, s')
    ensures Stray(s', i) <==> Stray(s, i) || Strays(s, s', i)
  {
    if Stray(s, i) != Stray(s', i) {
      var a, op :| Does(s, s', a, op);
      StepStrays(s, s', a, op, i);
    }
  }

  /** The stray isolates are those a failed native call left behind. */
  lemma StrayIffLeft(trace: seq<State>, n: nat, i: Iso)
    requires IsRun(Init, Next, trace) && n < |trace|
    ensures Stray(trace[n], i) <==> exists k: nat :: k < n && StraysAt(trace, k, i)
  {
    RunInv(trace);
    var event := (k: nat) => StraysAt(trace, k, i);
    forall k: nat | k < n ensures Stray(trace[k + 1], i) <==> Stray(trace[k], i) || event(k) {
      assert StepAt(Next, trace, k);
      NextStrays(trace[k], trace[k + 1], i);
    }
    RaisedBy((k: nat) => k < |trace| && Stray(trace[k], i), event, 0, n);
    assert forall k: nat :: event(k) <==> StraysAt(trace, k, i);
  }

  /** While native V8 dispose runs, and whenever the engine is down, a native
      isolate exists exactly if a failed native call left it behind earlier. */
  lemma OutlivesV8IffLeft(trace: seq<State>, n: nat, a: Actor, i: Iso)
    requires IsRun(Init, Next, trace) && n < |trace|
    requires At(trace[n], a, Disposing) || !trace[n].v8
    ensures i in trace[n].isolates && trace[n].isolates[i].native <==> exists k: nat :: k < n && StraysAt(trace, k, i)
  {
    var s := trace[n];
    RunInv(trace);
    StrayIffLeft(trace, n, i);
    assert ActorInv(s, a) && IsoInv(s, i);
    assert i in s.isolates ==> ActorInv(s, s.isolates[i].user);
  }

  /** Outside the creation that makes it, a native isolate is registered as live
      unless a failed native call left it behind; a closed one is gone natively
      unless its dispose failed. */
  lemma NativeIsolatesAreLive(trace: seq<State>, n: nat, i: Iso)
    requires IsRun(Init, Next, trace) && n < |trace| && i in trace[n].isolates
    ensures trace[n].isolates[i].native && !trace[n].lifeMu ==>
              i in trace[n].live || exists k: nat :: k < n && StraysAt(trace, k, i)
    ensures trace[n].isolates[i].closed ==>
              (trace[n].isolates[i].native <==> exists k: nat :: k < n && StraysAt(trace, k, i))
  {
    var s := trace[n];
    RunInv(trace);
    StrayIffLeft(trace, n, i);
    assert IsoInv(s, i) && ActorInv(s, s.isolates[i].user);
  }

  /** The explicit cppgc process and an initialized engine are never up together. */
  lemma ExplicitCppGCExcludesV8(trace: seq<State>, n: nat, a: Actor)
    requires IsRun(Init, Next, trace) && n < |trace|
    ensures !(trace[n].cppgc && trace[n].v8)
    ensures trace[n].explicit ==> trace[n].platform == Uninitialized && !At(trace[n], a, Initializing)
  {
    RunInv(trace);
    assert ActorInv(trace[n], a);
  }

  /** Every heap has one owner: while its mutex is free the wrapper's handle is
      set exactly if the wrapper owns it, an owning isolate exists natively and
      owns no other heap; no heap is both claimed and detached, and one that was
      handed over had been claimed and not terminated. */
  lemma HeapHasOneOwner(trace: seq<State>, n: nat, h: Heap, h': Heap)
    requires IsRun(Init, Next, trace) && n < |trace| && h in trace[n].heaps && h' in trace[n].heaps
    ensures var s, r := trace[n], trace[n].heaps[h];
            && !(r.claimed && r.detached)
            && r.transfers <= 1 && (r.transfers == 1 ==> r.claimed && !r.terminated)
            && (!r.mu ==> (r.handle <==> r.owner == Wrapper) && (r.transferred <==> r.transfers == 1))
            && (r.owner.OwnedBy? ==>
                  && r.owner.i in s.isolates && s.isolates[r.owner.i].native
                  && (s.heaps[h'].owner == r.owner ==> h' == h))
  {
    RunInv(trace);
    assert HeapInv(trace[n], h) && HeapInv(trace[n], h');
  }

  lemma TransferStep(s: State, s': State, h: Heap)
    requires Inv(s) && Next(s, s') && Left(s, h)
    ensures Left(s', h) && s'.heaps[h].transfers == s.heaps[h].transfers
  {
    var a, op :| Does(s, s', a, op);
    assert StaysLeft(s, s', h) by {
      match op
      case OnProcess(p) => ProcessStepKeepsHeaps(s, s', a, p);
      case OnHeap(x) => HeapStepKeepsHeaps(s, s', a, x);
      case OnHeapClose(x) => HeapCloseStepKeepsHeaps(s, s', a, x);
      case OnCreate(c) => CreateStepKeepsHeaps(s, s', a, c);
      case OnConstruct(c) => ConstructStepKeepsHeaps(s, s', a, c);
      case OnClose(k) => CloseStepKeepsHeaps(s, s', a, k);
    }
  }

  /** A heap that left its wrapper never comes back and is not handed over again. */
  lemma TransferIsFinal(trace: seq<State>, n: nat, m: nat, h: Heap)
    requires IsRun(Init, Next, trace) && n <= m < |trace|
    requires Left(trace[n], h)
    ensures Left(trace[m], h)
    ensures trace[m].heaps[h].transfers == trace[n].heaps[h].transfers
  {
    var was := trace[n].heaps[h].transfers;
    var inv := (s: State) => Inv(s) && Left(s, h) && s.heaps[h].transfers == was;
    NextKeepsInv();
    forall s, s' | inv(s) && Next(s, s') ensures inv(s') {
      TransferStep(s, s', h);
    }
    RunInv(trace);
    StableAlongPath(Next, inv, trace, n, m);
  }

  /** The explicit cppgc process is shut down only when every heap ever made has been destroyed. */
  lemma ShutdownWithoutHeaps(trace: seq<State>, n: nat, h: Heap)
    requires IsRun(Init, Next, trace) && n < |trace| && h in trace[n].heaps
    requires trace[n].explicit && NoHeaps(trace[n])
    ensures trace[n].heaps[h].owner == Destroyed
  {
    var s := trace[n];
    RunInv(trace);
    assert HeapInv(s, h);
  }

  function Constructing(s: State, a: Actor, i: Iso): State {
    s.(actors := s.actors[a := Constructed(NoHeap, true, false, i)], lifeMu := true, lifeUser := a,
       isolates := s.isolates[i := IsoRec(true, false, false, a, NoHeap, false)])
  }

  /** NewIsolate up to the return of the native constructor. */
  lemma ConstructSteps(s: State, a: Actor, i: Iso)
    requires s.platform == Initialized && !s.lifeMu && a !in s.actors && i !in s.isolates
    ensures Leads(Next, s, Constructing(s, a, i))
  {
    var s1 := Goto(s, a, Preparing(NoHeap));
    assert Does(s, s1, a, OnCreate(PrepareBare));
    var s2 := Lock(s1, a, Creating(NoHeap));
    assert Does(s1, s2, a, OnCreate(BeginCreate));
    var s3 := Goto(s2, a, Constructed(NoHeap, true, false, i)).(
      isolates := s.isolates[i := IsoRec(true, false, false, a, NoHeap, false)]);
    assert Does(s2, s3, a, OnConstruct(NativeCreate(true, true, false, i)));
    assert s3 == Constructing(s, a, i);
    Along(Next, [s, s1, s2, s3]);
  }

  /** NewIsolate without a heap, every native call succeeding: exactly one native
      isolate appears, registered as live, and the lock is free again. */
  lemma CreateRegisters(s: State, a: Actor, i: Iso)
    requires s.platform == Initialized && !s.lifeMu && a !in s.actors && i !in s.isolates
    ensures exists s' ::
              && Leads(Next, s, s')
              && s' == s.(actors := s.actors[a := Finished], lifeUser := a, live := s.live + {i},
                          isolates := s.isolates[i := IsoRec(true, false, false, a, NoHeap, false)])
  {
    ConstructSteps(s, a, i);
    var s3 := Constructing(s, a, i);
    var s4 := Goto(s3, a, Recorded(NoHeap, true, i));
    assert Does(s3, s4, a, OnConstruct(RecordTransfer));
    var s5 := FreeHeap(Unlock(s4, a), NoHeap).(live := s.live + {i});
    assert Does(s4, s5, a, OnConstruct(FinishCreate));
    Along(Next, [s3, s4, s5]);
    Through(Next, s, s3, s5);
  }

  // ------------------------------------------------------ process transitions

  lemma ByProcess(s: State, s': State, a: Actor, op: ProcessOp)
    requires ProcessStep(s, s', a, op)
    ensures Next(s, s')
  {
    assert Does(s, s', a, OnProcess(op));
  }

  /** Initialize brings the engine up, or leaves everything as it was. */
  lemma InitializeOutcome(s: State, a: Actor, ok: bool)
    requires s.platform == Uninitialized && !s.explicit && NoHeaps(s) && !s.lifeMu && a !in s.actors
    ensures Leads(Next, s, s.(actors := s.actors[a := Finished], lifeUser := a, v8 := s.v8 || ok,
                              platform := if ok then Initialized else Uninitialized))
  {
    var s1 := Lock(s, a, Initializing);
    ByProcess(s, s1, a, BeginInitialize);
    var s2 := Unlock(s1, a).(platform := if ok then Initialized else s.platform, v8 := s.v8 || ok);
    ByProcess(s1, s2, a, EndInitialize(ok));
    assert s2 == s.(actors := s.actors[a := Finished], lifeUser := a, v8 := s.v8 || ok,
                    platform := if ok then Initialized else Uninitialized);
    Along(Next, [s, s1, s2]);
  }

  /** Dispose with no live isolate takes the engine down, or leaves it up. */
  lemma DisposeOutcome(s: State, a: Actor, ok: bool)
    requires s.platform == Initialized && s.live == {} && !s.lifeMu && a !in s.actors
    ensures Leads(Next, s, s.(actors := s.actors[a := Finished], lifeUser := a, v8 := s.v8 && !ok,
                              platform := if ok then Disposed else Initialized))
  {
    var s1 := Lock(s, a, Disposing).(platform := Disposed);
    ByProcess(s, s1, a, BeginDispose);
    var s2 := Unlock(s1, a).(platform := if ok then Disposed else Initialized, v8 := s.v8 && !ok);
    ByProcess(s1, s2, a, EndDispose(ok));
    assert s2 == s.(actors := s.actors[a := Finished], lifeUser := a, v8 := s.v8 && !ok,
                    platform := if ok then Disposed else Initialized);
    Along(Next, [s, s1, s2]);
  }

  /** DisposePlatform after Dispose ends the process's use of the engine for good, or can be tried again. */
  lemma DisposePlatformOutcome(s: State, a: Actor, ok: bool)
    requires s.platform == Disposed && !s.lifeMu && a !in s.actors
    ensures Leads(Next, s, s.(actors := s.actors[a := Finished], lifeUser := a,
                              platform := if ok then Shutdown else Disposed))
  {
    var s1 := Lock(s, a, DisposingPlatform).(platform := Shutdown);
    ByProcess(s, s1, a, BeginDisposePlatform);
    var s2 := Unlock(s1, a).(platform := if ok then Shutdown else Disposed);
    ByProcess(s1, s2, a, EndDisposePlatform(ok));
    assert s2 == s.(actors := s.actors[a := Finished], lifeUser := a, platform := if ok then Shutdown else Disposed);
    Along(Next, [s, s1, s2]);
  }

  /** The explicit cppgc process, up and down again. */
  lemma CppGCRoundTrip(s: State, a: Actor, b: Actor)
    requires s.platform == Uninitialized && !s.explicit && NoHeaps(s) && !s.lifeMu
    requires a !in s.actors && b !in s.actors && a != b
    ensures exists s1, s' ::
              && Leads(Next, s, s1) && s1.explicit && s1.cppgc && Leads(Next, s1, s')
              && s' == s.(actors := s.actors[a := Finished][b := Finished], explicit := false, cppgc := false)
  {
    var s1 := Goto(s, a, Finished).(explicit := true, cppgc := true);
    ByProcess(s, s1, a, InitializeCppGC);
    Along(Next, [s, s1]);
    var s2 := Goto(s1, b, Finished).(explicit := false, cppgc := false);
    ByProcess(s1, s2, b, ShutdownCppGC);
    Along(Next, [s1, s2]);
  }

  // ------------------------------------------------------------- whole heap lives

  const FRESH_HEAP := HeapRec(true, false, false, false, false, false, false, 0, true, Wrapper, 0)

  lemma ByHeapClose(s: State, s': State, a: Actor, op: HeapCloseOp)
    requires HeapCloseStep(s, s', a, op)
    ensures Next(s, s')
  {
    assert Does(s, s', a, OnHeapClose(op));
  }

  function HeapClosed(s: State, a: Actor, h: Heap): State
    requires h in s.heaps
  {
    s.(actors := s.actors[a := Finished],
       heaps := s.heaps[h := s.heaps[h].(handle := false, closed := true, mu := false, user := a,
                                         registered := false, owner := Destroyed)])
  }

  /** Close of a heap that its wrapper still has: it is destroyed and unregistered, and nothing else changes. */
  lemma HeapCloses(s: State, a: Actor, h: Heap)
    requires a !in s.actors && HeapFree(s, h) && !s.heaps[h].transferred && !s.heaps[h].closed
    ensures Leads(Next, s, HeapClosed(s, a, h))
  {
    var s1 := PutHeap(Goto(s, a, ClosedHeap(h)), h,
                      s.heaps[h].(handle := false, closed := true, mu := true, user := a, owner := Destroyed));
    ByHeapClose(s, s1, a, CloseHeap(h));
    var s2 := PutHeap(Goto(s1, a, Finished), h, s1.heaps[h].(mu := false, registered := false));
    ByHeapClose(s1, s2, a, UnregisterHeap);
    Along(Next, [s, s1, s2]);
    assert s2 == HeapClosed(s, a, h);
  }

  /** A new heap that is claimed can be handed over; one that is detached instead cannot. */
  lemma HeapClaims(s: State, a: Actor, h: Heap)
    requires h !in s.heaps && (s.explicit || s.platform == Initialized)
    ensures Leads(Next, s, s.(heaps := s.heaps[h := FRESH_HEAP.(claimed := true)]))
    ensures Leads(Next, s, s.(heaps := s.heaps[h := FRESH_HEAP.(detached := true)]))
    ensures Transferable(FRESH_HEAP.(claimed := true)) && !Transferable(FRESH_HEAP.(detached := true))
  {
    var s1 := PutHeap(s, h, FRESH_HEAP);
    assert HeapStep(s, s1, a, NewHeap(h)) && Does(s, s1, a, OnHeap(NewHeap(h)));
    var s2 := PutHeap(s1, h, FRESH_HEAP.(claimed := true));
    assert HeapStep(s1, s2, a, Claim(h)) && Does(s1, s2, a, OnHeap(Claim(h)));
    var s3 := PutHeap(s1, h, FRESH_HEAP.(detached := true));
    assert HeapStep(s1, s3, a, EnableDetached(h)) && Does(s1, s3, a, OnHeap(EnableDetached(h)));
    assert s2.heaps == s.heaps[h := FRESH_HEAP.(claimed := true)];
    assert s3.heaps == s.heaps[h := FRESH_HEAP.(detached := true)];
    Along(Next, [s, s1, s2]);
    Along(Next, [s, s1, s3]);
  }

  /** A heap that is terminated before it is handed over stays with its wrapper for good. */
  lemma HeapTerminates(s: State, a: Actor, h: Heap)
    requires HeapFree(s, h) && !s.heaps[h].transferred && !s.heaps[h].closed && !s.heaps[h].terminated
    ensures Leads(Next, s, s.(heaps := s.heaps[h := s.heaps[h].(terminated := true)]))
    ensures !Transferable(s.heaps[h].(terminated := true))
  {
    var s1 := PutHeap(s, h, s.heaps[h].(terminated := true));
    assert HeapStep(s, s1, a, Terminate(h)) && Does(s, s1, a, OnHeap(Terminate(h)));
    Along(Next, [s, s1]);
  }

  function HandingOver(s: State, a: Actor, h: Heap): State
    requires h in s.heaps
  {
    s.(actors := s.actors[a := Creating(SomeHeap(h))], lifeMu := true, lifeUser := a,
       heaps := s.heaps[h := s.heaps[h].(mu := true, user := a)])
  }

  lemma BeginHandOver(s: State, a: Actor, h: Heap)
    requires s.platform == Initialized && !s.lifeMu && a !in s.actors && HeapFree(s, h) && Transferable(s.heaps[h])
    ensures Leads(Next, s, HandingOver(s, a, h))
  {
    var s1 := PutHeap(Goto(s, a, Preparing(SomeHeap(h))), h, s.heaps[h].(mu := true, user := a));
    assert CreateStep(s, s1, a, PrepareWith(h)) && Does(s, s1, a, OnCreate(PrepareWith(h)));
    var s2 := Lock(s1, a, Creating(SomeHeap(h)));
    assert CreateStep(s1, s2, a, BeginCreate) && Does(s1, s2, a, OnCreate(BeginCreate));
    assert s2 == HandingOver(s, a, h);
    Along(Next, [s, s1, s2]);
  }

  lemma ByConstruct(s: State, s': State, a: Actor, op: ConstructOp)
    requires ConstructStep(s, s', a, op)
    ensures Next(s, s')
  {
    assert Does(s, s', a, OnConstruct(op));
  }

  function Recording(s: State, a: Actor, h: Heap, i: Iso): State
    requires h in s.heaps
  {
    s.(actors := s.actors[a := Recorded(SomeHeap(h), true, i)],
       isolates := s.isolates[i := IsoRec(true, false, false, a, SomeHeap(h), false)],
       heaps := s.heaps[h := s.heaps[h].(handle := false, transferred := true, registered := false,
                                         owner := OwnedBy(i), transfers := 1)])
  }

  /** The native constructor takes the heap, and the transfer is recorded. */
  lemma Record(s: State, a: Actor, h: Heap, i: Iso)
    requires a in s.actors && s.actors[a] == Creating(SomeHeap(h)) && h in s.heaps && s.heaps[h].transfers == 0
    requires i !in s.isolates
    ensures Leads(Next, s, Recording(s, a, h, i))
  {
    var m := SomeHeap(h);
    var s1 := Goto(s, a, Constructed(m, true, true, i)).(
                isolates := s.isolates[i := IsoRec(true, false, false, a, m, false)],
                heaps := s.heaps[h := s.heaps[h].(owner := OwnedBy(i), transfers := 1)]);
    ByConstruct(s, s1, a, NativeCreate(true, true, true, i));
    var s2 := Recording(s, a, h, i);
    assert s2.actors == s1.actors[a := Recorded(m, true, i)];
    assert s2.heaps == s1.heaps[h := s1.heaps[h].(handle := false, transferred := true, registered := false)];
    ByConstruct(s1, s2, a, RecordTransfer);
    Along(Next, [s, s1, s2]);
  }

  function GivenBack(s: State, a: Actor, h: Heap): State
    requires h in s.heaps
  {
    s.(actors := s.actors[a := Finished], lifeMu := false, heaps := s.heaps[h := s.heaps[h].(mu := false)])
  }

  lemma GiveBack(s: State, a: Actor, h: Heap, i: Iso)
    requires a in s.actors && s.actors[a] == Creating(SomeHeap(h)) && h in s.heaps && i !in s.isolates
    ensures Leads(Next, s, GivenBack(s, a, h))
  {
    var s1 := Goto(s, a, Constructed(SomeHeap(h), false, false, i));
    ByConstruct(s, s1, a, NativeCreate(false, false, false, i));
    var s2 := Goto(s1, a, Recorded(SomeHeap(h), false, i));
    ByConstruct(s1, s2, a, RecordTransfer);
    var s3 := GivenBack(s, a, h);
    assert s3.actors == s2.actors[a := Finished];
    ByConstruct(s2, s3, a, FinishCreate);
    Along(Next, [s, s1, s2, s3]);
  }

  /** A constructor that refuses and takes nothing gives the heap back as it was. */
  lemma RefusedHandOver(s: State, a: Actor, h: Heap, i: Iso)
    requires s.platform == Initialized && !s.lifeMu && a !in s.actors && i !in s.isolates
    requires HeapFree(s, h) && Transferable(s.heaps[h])
    ensures Leads(Next, s, s.(actors := s.actors[a := Finished], lifeUser := a,
                              heaps := s.heaps[h := s.heaps[h].(user := a)]))
  {
    BeginHandOver(s, a, h);
    var s1 := HandingOver(s, a, h);
    GiveBack(s1, a, h, i);
    var s2 := GivenBack(s1, a, h);
    Through(Next, s, s1, s2);
    assert s2.actors == s.actors[a := Finished] && s2.heaps == s.heaps[h := s.heaps[h].(user := a)];
  }

  /** NewIsolateWithParams with a transferable heap, from every reachable state:
      the isolate is live and owns the heap, whose wrapper has given it up. */
  lemma HeapTransfers(s: State, a: Actor, h: Heap, i: Iso)
    requires Inv(s) && s.platform == Initialized && !s.lifeMu && a !in s.actors && i !in s.isolates
    requires HeapFree(s, h) && Transferable(s.heaps[h])
    ensures exists s' ::
              && Leads(Next, s, s') && s'.live == s.live + {i} && !s'.lifeMu
              && s'.isolates == s.isolates[i := IsoRec(true, false, false, a, SomeHeap(h), false)]
              && h in s'.heaps && s'.heaps[h].owner == OwnedBy(i) && s'.heaps[h].transferred && !s'.heaps[h].mu
  {
    assert HeapInv(s, h);
    BeginHandOver(s, a, h);
    var s1 := HandingOver(s, a, h);
    Record(s1, a, h, i);
    var s2 := Recording(s1, a, h, i);
    Through(Next, s, s1, s2);
    var s3 := FreeHeap(Unlock(s2, a), SomeHeap(h)).(live := s.live + {i});
    ByConstruct(s2, s3, a, FinishCreate);
    Along(Next, [s2, s3]);
    Through(Next, s, s2, s3);
  }

  /** Heaps after the isolate that owns m was disposed natively. */
  function HeapEnded(heaps: map<Heap, HeapRec>, m: MaybeHeap): map<Heap, HeapRec> {
    if m.SomeHeap? && m.h in heaps then heaps[m.h := heaps[m.h].(owner := Destroyed)] else heaps
  }

  function NativelyDisposed(s: State, a: Actor, i: Iso, ok: bool): State
    requires i in s.isolates
  {
    s.(actors := s.actors[a := DisposedIsolate(i)],
       isolates := s.isolates[i := IsoRec(!ok, false, true, a, s.isolates[i].heap, !ok)],
       heaps := if ok then HeapEnded(s.heaps, s.isolates[i].heap) else s.heaps)
  }

  lemma ByClose(s: State, s': State, a: Actor, op: CloseOp)
    requires CloseStep(s, s', a, op)
    ensures Next(s, s')
  {
    assert Does(s, s', a, OnClose(op));
  }

  /** The native part of Isolate.Close. */
  lemma DisposeSteps(s: State, a: Actor, i: Iso, ok: bool)
    requires s.platform == Initialized && a !in s.actors && i in s.live && i in s.isolates
    requires !s.isolates[i].mu && !s.isolates[i].closed
    ensures Leads(Next, s, NativelyDisposed(s, a, i, ok))
  {
    var s1 := PutIso(Goto(s, a, ClosingIsolate(i)), i, s.isolates[i].(mu := true, user := a));
    ByClose(s, s1, a, BeginClose(i));
    var s2 := NativelyDisposed(s, a, i, ok);
    assert CloseStep(s1, s2, a, NativeIsolateDispose(ok)) by {
      assert s2.isolates == s1.isolates[i := s1.isolates[i].(native := !ok, stray := !ok)];
      assert s2.actors == s1.actors[a := DisposedIsolate(i)];
    }
    ByClose(s1, s2, a, NativeIsolateDispose(ok));
    Along(Next, [s, s1, s2]);
  }

  function Closed(s: State, a: Actor, i: Iso, ok: bool): State
    requires i in s.isolates
  {
    s.(actors := s.actors[a := Finished], live := s.live - {i},
       isolates := s.isolates[i := IsoRec(!ok, true, false, a, s.isolates[i].heap, !ok)],
       heaps := if ok then HeapEnded(s.heaps, s.isolates[i].heap) else s.heaps)
  }

  /** Isolate.Close of any live isolate, with either outcome of the native
      dispose: it ends closed and out of the live set. If the dispose succeeds the
      isolate is natively gone and the heap it owns, if any, is destroyed; if it
      fails both are left as they were. Nothing else changes. */
  lemma CloseUnregisters(s: State, a: Actor, i: Iso, ok: bool)
    requires s.platform == Initialized && !s.lifeMu && a !in s.actors && i in s.live && i in s.isolates
    requires !s.isolates[i].mu && !s.isolates[i].closed
    ensures Leads(Next, s, Closed(s, a, i, ok))
  {
    DisposeSteps(s, a, i, ok);
    var s2 := NativelyDisposed(s, a, i, ok);
    var s3 := PutIso(Goto(s2, a, UnregisteringIsolate(i)), i, s2.isolates[i].(closed := true, mu := false));
    ByClose(s2, s3, a, PublishClosed);
    var s4 := Goto(s3, a, Finished).(live := s.live - {i});
    ByClose(s3, s4, a, UnregisterIsolate);
    assert s4 == Closed(s, a, i, ok);
    Along(Next, [s2, s3, s4]);
    Through(Next, s, s2, s4);
  }

  /** Wherever one isolate is live and open, its Close may fail natively and V8
      then be disposed with the isolate left. */
  lemma DisposedOverIsolate(s: State, a: Actor, b: Actor, i: Iso)
    requires s.platform == Initialized && !s.lifeMu && a !in s.actors && b !in s.actors && a != b
    requires s.live == {i} && i in s.isolates && !s.isolates[i].mu && !s.isolates[i].closed
    ensures exists s1, s2 ::
              && Leads(Next, s, s1) && At(s1, b, Disposing) && i in s1.isolates && s1.isolates[i].native
              && Leads(Next, s1, s2) && !s2.v8 && i in s2.isolates && s2.isolates[i].native
  {
    CloseUnregisters(s, a, i, false);
    var c := Closed(s, a, i, false);
    var s1 := Lock(c, b, Disposing).(platform := Disposed);
    assert ProcessStep(c, s1, b, BeginDispose) && Does(c, s1, b, OnProcess(BeginDispose));
    Along(Next, [c, s1]);
    Through(Next, s, c, s1);
    var s2 := Unlock(s1, b).(v8 := false);
    assert ProcessStep(s1, s2, b, EndDispose(true)) && Does(s1, s2, b, OnProcess(EndDispose(true)));
    Along(Next, [s1, s2]);
  }

  /** A run from the start of the process to a native isolate without an engine. */
  lemma OutlivingIsReachable()
    ensures exists s, i :: Reached(Init, Next, s) && !s.v8 && i in s.isolates && s.isolates[i].native
  {
    var s0 := State(Uninitialized, false, false, 0, {}, map[], map[], map[], false, false);
    var s1 := Lock(s0, 0, Initializing);
    assert ProcessStep(s0, s1, 0, BeginInitialize) && Does(s0, s1, 0, OnProcess(BeginInitialize));
    var s2 := Unlock(s1, 0).(platform := Initialized, v8 := true);
    assert ProcessStep(s1, s2, 0, EndInitialize(true)) && Does(s1, s2, 0, OnProcess(EndInitialize(true)));
    Along(Next, [s0, s1, s2]);
    var i: Iso := 0;
    CreateRegisters(s2, 1, i);
    var s3 := s2.(actors := s2.actors[1 := Finished], lifeUser := 1, live := s2.live + {i},
                  isolates := s2.isolates[i := IsoRec(true, false, false, 1, NoHeap, false)]);
    Through(Next, s0, s2, s3);
    DisposedOverIsolate(s3, 2, 3, i);
    var t, s :| Leads(Next, s3, t) && Leads(Next, t, s) && !s.v8 && i in s.isolates && s.isolates[i].native;
    Through(Next, s3, t, s);
    Through(Next, s0, s3, s);
    assert Reached(Init, Next, s) && i in s.isolates;
  }
}
