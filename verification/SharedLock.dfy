/**
 The shared-isolate lock protocol (locker.go) and Isolate.Close (isolate.go) as
 a transition system over any number of OS threads.

 Three locks are involved. The registry mutex guards the Go-side words (locked,
 window, owners); the isolate mutex guards the closed flag; the engine lock is
 acquired by a blocking native call that runs without either. Two more words
 are read without any lock: the isolate's thread binding, by Isolate.check, and
 its native handle, by Lock as it makes its call. Each operation below is one
 atomic step of one thread: a critical section that only reads, one group of
 writes, or one native call with its outcome.
 */
module SharedLock {
  import opened Wrappers

  /** Thread ids and owner words; 0 is the word for "no thread". */
  type Word = nat
  type LockerId = nat

  /** Where a thread is inside the operation it is running. */
  datatype Pc =
    | Idle
    // SharedIsolate.Lock
    | LockRead                   // found another holder, about to read its id unprotected
    | LockAcquire                // about to read the isolate's handle and call
    | LockCall                   // in the native lock call
    | LockPublish(l: LockerId)   // owns the engine lock, not yet published
    | LockBind(l: LockerId)      // published, thread binding not yet written
    // Locker.Close, registry mutex held
    | CloseNative(l: LockerId)
    | CloseClear(l: LockerId)
    | CloseUnbind(l: LockerId)
    // Locker.UnlockWindow, registry mutex held
    | WindowNative(l: LockerId)
    | WindowMark(l: LockerId)
    | WindowUnbind(l: LockerId)
    // Locker.UnlockWindow after its closure returned
    | WindowEnd(l: LockerId)     // in the native reacquire call
    | WindowPublish(l: LockerId)
    | WindowRebind(l: LockerId)
    // SharedIsolate.Close, registry mutex held
    | DisposeNative
    | DisposeClear
    // Isolate.Close, isolate mutex held
    | DirectNative
    | DirectClear

  datatype Locker = Locker(tid: Word, closed: bool)

  datatype SharedState = SharedState(locked: bool, window: bool, ownerTid: Word, windowOwnerTid: Word)

  /** Asked and Resumed: a thread entered the native lock or reacquire call.
      direct: the isolate was disposed by Isolate.Close. */
  datatype NativeEvent =
    | Asked(t: Word)
    | Acquired(l: LockerId)
    | Released(l: LockerId)
    | WindowOpened(l: LockerId)
    | Resumed(t: Word)
    | WindowClosed(l: LockerId)
    | Disposed(direct: bool)

  /** What the engine itself holds: who owns its lock, which window is open,
      which thread each lock object was created on, and every call that reached it. */
  datatype Native = Native(
    holder: Maybe,
    window: Maybe,
    used: map<LockerId, Word>,
    disposed: bool,
    log: seq<NativeEvent>)

  /** handle: the isolate's handle word is nonzero. closures: the threads that are
      running the closure of an unlock window, and the window's locker. */
  datatype State = State(
    registered: bool,
    closed: bool,
    handle: bool,
    st: SharedState,
    boundTid: Word,
    mu: Word,
    isoMu: Word,
    threads: map<Word, Pc>,
    closures: map<Word, LockerId>,
    lockers: map<LockerId, Locker>,
    native: Native)

  function PcOf(s: State, t: Word): Pc {
    if t in s.threads then s.threads[t] else Idle
  }

  function At(s: State, t: Word, pc: Pc): State {
    s.(threads := s.threads[t := pc])
  }

  function Emit(n: Native, e: NativeEvent): Native {
    n.(log := n.log + [e])
  }

  /** Isolate.check on the calling thread. */
  predicate CheckPasses(s: State, t: Word) {
    !s.closed && s.boundTid == t
  }

  // ---------------------------------------------------------------- steps

  predicate MutexFree(s: State) {
    s.mu == 0
  }

  /** No thread is inside Isolate.Close. */
  predicate IsoFree(s: State) {
    s.isoMu == 0
  }

  // SharedIsolate.Lock

  /** Phase 1: where the checks of Lock, in source order, send the caller. */
  function Validated(s: State, t: Word, isolateEntered: bool): State {
    At(s, t,
       if !s.registered || s.closed then Idle
       else if s.st.window then if s.st.windowOwnerTid == t then Idle else LockAcquire
       else if s.st.locked then LockRead
       else if isolateEntered then Idle
       else LockAcquire)
  }

  function OwnerRead(s: State, t: Word): State {
    At(s, t, if s.st.ownerTid == t then Idle else LockAcquire)
  }

  /** Phase 2: the handle is read as the call is made; a zero handle is rejected at once. */
  function Called(s: State, t: Word): State {
    At(s, t, if s.handle then LockCall else Idle).(native := if s.handle then Emit(s.native, Asked(t)) else s.native)
  }

  datatype AskOp = Validate(isolateEntered: bool) | ReadOwner | Call

  ghost predicate AskStep(s: State, s': State, t: Word, op: AskOp) {
    var pc := PcOf(s, t);
    match op
    case Validate(entered) => pc == Idle && MutexFree(s) && IsoFree(s) && s' == Validated(s, t, entered)
    case ReadOwner => pc == LockRead && s' == OwnerRead(s, t)
    case Call => pc == LockAcquire && s' == Called(s, t)
  }

  /** The native lock call returns, with a fresh lock object l if it succeeded. */
  function Granted(s: State, t: Word, ok: bool, l: LockerId): State {
    At(s, t, if ok then LockPublish(l) else Idle).(
      native := if ok then Emit(s.native, Acquired(l)).(holder := Some(l), used := s.native.used[l := t]) else s.native)
  }

  function LockPublished(s: State, t: Word): State
    requires PcOf(s, t).LockPublish?
  {
    At(s, t, LockBind(PcOf(s, t).l)).(st := s.st.(locked := true, ownerTid := t))
  }

  function LockBound(s: State, t: Word): State
    requires PcOf(s, t).LockBind?
  {
    At(s, t, Idle).(boundTid := t, lockers := s.lockers[PcOf(s, t).l := Locker(t, false)])
  }

  datatype GrantOp = Acquire(ok: bool, l: LockerId) | Publish | Bind

  ghost predicate GrantStep(s: State, s': State, t: Word, op: GrantOp) {
    var pc := PcOf(s, t);
    match op
    case Acquire(ok, l) =>
      && pc == LockCall && (ok ==> s.native.holder == None && l !in s.native.used)
      && s' == Granted(s, t, ok, l)
    case Publish => pc.LockPublish? && MutexFree(s) && s' == LockPublished(s, t)
    case Bind => pc.LockBind? && IsoFree(s) && s' == LockBound(s, t)
  }

  // Locker.Close

  /** The checks of Locker.Close that let the caller through to the native release. */
  predicate MayClose(s: State, t: Word, l: LockerId) {
    l in s.lockers && !s.lockers[l].closed && s.registered &&
    !(s.st.window && s.st.windowOwnerTid == s.lockers[l].tid) &&
    s.st.locked && s.st.ownerTid == s.lockers[l].tid && t == s.lockers[l].tid
  }

  function MarkClosed(m: map<LockerId, Locker>, l: LockerId): map<LockerId, Locker> {
    if l in m then m[l := m[l].(closed := true)] else m
  }

  /** A caller that passes the checks keeps the mutex. A locker that is not the
      holder's is marked closed; a call from a foreign thread changes nothing. */
  function CloseEntered(s: State, t: Word, l: LockerId): State
    requires l in s.lockers
  {
    var may := MayClose(s, t, l);
    At(s, t, if may then CloseNative(l) else Idle).(
      mu := if may then t else s.mu,
      lockers := if may || MayClose(s, s.lockers[l].tid, l) then s.lockers else MarkClosed(s.lockers, l))
  }

  function CloseReleased(s: State, t: Word, ok: bool): State
    requires PcOf(s, t).CloseNative?
  {
    var l := PcOf(s, t).l;
    At(s, t, if ok then CloseClear(l) else Idle).(
      mu := if ok then s.mu else 0,
      lockers := if ok then s.lockers else MarkClosed(s.lockers, l),
      native := if ok then Emit(s.native, Released(l)).(holder := None) else s.native)
  }

  function CloseCleared(s: State, t: Word): State
    requires PcOf(s, t).CloseClear?
  {
    At(s, t, CloseUnbind(PcOf(s, t).l)).(
      st := s.st.(locked := false, ownerTid := 0), lockers := MarkClosed(s.lockers, PcOf(s, t).l))
  }

  function CloseUnbound(s: State, t: Word): State {
    At(s, t, Idle).(boundTid := 0, mu := 0)
  }

  datatype CloseOp = EnterClose(l: LockerId) | Release(ok: bool) | Clear | Unbind

  /** The native release rejects a zero handle. */
  ghost predicate CloseStep(s: State, s': State, t: Word, op: CloseOp) {
    var pc := PcOf(s, t);
    match op
    case EnterClose(l) => pc == Idle && MutexFree(s) && l in s.lockers && s' == CloseEntered(s, t, l)
    case Release(ok) => pc.CloseNative? && (ok ==> s.handle) && s' == CloseReleased(s, t, ok)
    case Clear => pc.CloseClear? && s' == CloseCleared(s, t)
    case Unbind => pc.CloseUnbind? && IsoFree(s) && s' == CloseUnbound(s, t)
  }

  // Locker.UnlockWindow

  /** The checks of UnlockWindow, apart from what is entered on the thread. */
  predicate MayOpen(s: State, t: Word, l: LockerId) {
    l in s.lockers && !s.lockers[l].closed && s.registered && s.st.locked && s.st.ownerTid == s.lockers[l].tid &&
    !s.st.window && t == s.lockers[l].tid
  }

  function WindowEntered(s: State, t: Word, l: LockerId, onTop: bool): State {
    var may := MayOpen(s, t, l) && !onTop;
    At(s, t, if may then WindowNative(l) else Idle).(mu := if may then t else s.mu)
  }

  function WindowReleased(s: State, t: Word, ok: bool): State
    requires PcOf(s, t).WindowNative?
  {
    var l := PcOf(s, t).l;
    At(s, t, if ok then WindowMark(l) else Idle).(
      mu := if ok then s.mu else 0,
      native := if ok then Emit(s.native, WindowOpened(l)).(holder := None, window := Some(l)) else s.native)
  }

  function WindowMarked(s: State, t: Word): State
    requires PcOf(s, t).WindowMark?
  {
    At(s, t, WindowUnbind(PcOf(s, t).l)).(st := SharedState(false, true, 0, t))
  }

  /** The thread goes on into its closure. */
  function WindowUnbound(s: State, t: Word): State
    requires PcOf(s, t).WindowUnbind?
  {
    At(s, t, Idle).(closures := s.closures[t := PcOf(s, t).l], boundTid := 0, mu := 0)
  }

  datatype OpenOp = EnterWindow(l: LockerId, onTop: bool) | ReleaseForWindow(ok: bool) | Mark | UnbindForWindow

  ghost predicate OpenStep(s: State, s': State, t: Word, op: OpenOp) {
    var pc := PcOf(s, t);
    match op
    case EnterWindow(l, onTop) => pc == Idle && MutexFree(s) && l in s.lockers && s' == WindowEntered(s, t, l, onTop)
    case ReleaseForWindow(ok) => pc.WindowNative? && (ok ==> s.handle) && s' == WindowReleased(s, t, ok)
    case Mark => pc.WindowMark? && s' == WindowMarked(s, t)
    case UnbindForWindow => pc.WindowUnbind? && IsoFree(s) && s' == WindowUnbound(s, t)
  }

  /** The closure returned; the window stays open if an isolate is still entered,
      otherwise the native reacquire call is made. */
  function WindowReturned(s: State, t: Word, stillEntered: bool): State
    requires t in s.closures
  {
    At(s, t, if stillEntered then Idle else WindowEnd(s.closures[t])).(
      closures := s.closures - {t},
      native := if stillEntered then s.native else Emit(s.native, Resumed(t)))
  }

  function WindowReacquired(s: State, t: Word, ok: bool): State
    requires PcOf(s, t).WindowEnd?
  {
    var l := PcOf(s, t).l;
    At(s, t, if ok then WindowPublish(l) else Idle).(
      native := if ok then Emit(s.native, WindowClosed(l)).(holder := Some(l), window := None) else s.native)
  }

  function WindowRepublished(s: State, t: Word): State
    requires PcOf(s, t).WindowPublish?
  {
    At(s, t, WindowRebind(PcOf(s, t).l)).(st := SharedState(true, false, t, 0))
  }

  function WindowRebound(s: State, t: Word): State {
    At(s, t, Idle).(boundTid := t)
  }

  datatype ResumeOp = Return(stillEntered: bool) | Reacquire(ok: bool) | Republish | Rebind

  ghost predicate ResumeStep(s: State, s': State, t: Word, op: ResumeOp) {
    var pc := PcOf(s, t);
    match op
    case Return(still) => pc == Idle && t in s.closures && s' == WindowReturned(s, t, still)
    case Reacquire(ok) => pc.WindowEnd? && (ok ==> s.native.holder == None) && s' == WindowReacquired(s, t, ok)
    case Republish => pc.WindowPublish? && MutexFree(s) && s' == WindowRepublished(s, t)
    case Rebind => pc.WindowRebind? && IsoFree(s) && s' == WindowRebound(s, t)
  }

  // SharedIsolate.Close

  predicate MayDispose(s: State) {
    s.registered && !s.st.locked && !s.st.window && !s.closed
  }

  function DisposeEntered(s: State, t: Word): State {
    At(s, t, if MayDispose(s) then DisposeNative else Idle).(mu := if MayDispose(s) then t else s.mu)
  }

  function DisposeDone(s: State, t: Word, ok: bool): State {
    At(s, t, if ok then DisposeClear else Idle).(
      mu := if ok then s.mu else 0,
      native := if ok then Emit(s.native, Disposed(false)).(disposed := true) else s.native)
  }

  function DisposeCleared(s: State, t: Word): State {
    At(s, t, Idle).(closed := true, handle := false, registered := false, mu := 0)
  }

  datatype DisposeOp = EnterDispose | NativeDispose(ok: bool) | ClearRegistry

  ghost predicate DisposeStep(s: State, s': State, t: Word, op: DisposeOp) {
    var pc := PcOf(s, t);
    match op
    case EnterDispose => pc == Idle && MutexFree(s) && IsoFree(s) && s' == DisposeEntered(s, t)
    case NativeDispose(ok) => pc == DisposeNative && s' == DisposeDone(s, t, ok)
    case ClearRegistry => pc == DisposeClear && IsoFree(s) && s' == DisposeCleared(s, t)
  }

  // Isolate.Close, which asks only for the bound thread and never consults the registry

  function DirectDone(s: State, t: Word, ok: bool): State {
    At(s, t, DirectClear).(
      native := if ok then Emit(s.native, Disposed(true)).(disposed := true) else s.native)
  }

  /** The isolate is closed whatever the native dispose reported. */
  function DirectCleared(s: State, t: Word): State {
    At(s, t, Idle).(closed := true, handle := false, isoMu := 0)
  }

  datatype DirectOp = EnterDirect | DirectDispose(ok: bool) | ClearIsolate

  ghost predicate DirectStep(s: State, s': State, t: Word, op: DirectOp) {
    var pc := PcOf(s, t);
    match op
    case EnterDirect => pc == Idle && IsoFree(s) && CheckPasses(s, t) && s' == At(s, t, DirectNative).(isoMu := t)
    case DirectDispose(ok) => pc == DirectNative && s' == DirectDone(s, t, ok)
    case ClearIsolate => pc == DirectClear && s' == DirectCleared(s, t)
  }

  datatype Op =
    | OnAsk(a: AskOp)
    | OnGrant(g: GrantOp)
    | OnClose(c: CloseOp)
    | OnOpen(o: OpenOp)
    | OnResume(r: ResumeOp)
    | OnDispose(d: DisposeOp)
    | OnDirect(i: DirectOp)

  /** One step of thread t. */
  ghost predicate Does(s: State, s': State, t: Word, op: Op) {
    t != 0 &&
    match op
    case OnAsk(a) => AskStep(s, s', t, a)
    case OnGrant(g) => GrantStep(s, s', t, g)
    case OnClose(c) => CloseStep(s, s', t, c)
    case OnOpen(o) => OpenStep(s, s', t, o)
    case OnResume(r) => ResumeStep(s, s', t, r)
    case OnDispose(d) => DisposeStep(s, s', t, d)
    case OnDirect(i) => DirectStep(s, s', t, i)
  }

  /** TryIntoShared has just succeeded: registered, bound to no thread. */
  function Start(): State {
    State(true, false, true, SharedState(false, false, 0, 0), 0, 0, 0, map[], map[], map[],
          Native(None, None, map[], false, []))
  }

  ghost predicate Init(s: State) {
    s == Start()
  }

  ghost predicate Next(s: State, s': State) {
    exists t, op :: Does(s, s', t, op)
  }

  // ------------------------------------------------------------ invariant

  predicate HoldsMutex(pc: Pc) {
    pc.CloseNative? || pc.CloseClear? || pc.CloseUnbind? ||
    pc.WindowNative? || pc.WindowMark? || pc.WindowUnbind? ||
    pc.DisposeNative? || pc.DisposeClear?
  }

  /** Inside Isolate.Close. */
  predicate Direct(pc: Pc) {
    pc.DirectNative? || pc.DirectClear?
  }

  /** Program points at which the thread owns the engine lock through its l. */
  predicate OwnsEngine(pc: Pc) {
    pc.LockPublish? || pc.LockBind? || pc.CloseNative? || pc.WindowNative? || pc.WindowPublish? || pc.WindowRebind?
  }

  /** Program points inside the registry critical section at which the engine
      lock is already released but the Go-side holder is still recorded. */
  predicate Releasing(pc: Pc) {
    pc.CloseClear? || pc.WindowMark?
  }

  /** SharedIsolate.Lock has passed its checks and not yet returned. */
  predicate PastValidation(pc: Pc) {
    pc.LockRead? || pc.LockAcquire? || pc.LockCall? || pc.LockPublish? || pc.LockBind?
  }

  predicate Published(pc: Pc) {
    pc.LockBind? || pc.CloseNative? || pc.CloseClear? || pc.WindowNative? || pc.WindowMark? || pc.WindowRebind? ||
    Direct(pc)
  }

  /** Past the native call, inside the registry critical section. */
  predicate Committed(pc: Pc) {
    pc.CloseClear? || pc.CloseUnbind? || pc.WindowMark? || pc.WindowUnbind? || pc.DisposeNative? || pc.DisposeClear?
  }

  predicate Holder(s: State, t: Word) {
    s.native.holder.Some? && s.native.holder.value in s.native.used && s.native.used[s.native.holder.value] == t
  }

  /** What holds of a thread at program point pc, in terms of the words it depends on. */
  predicate PcInv(t: Word, pc: Pc, registered: bool, closed: bool, st: SharedState, mu: Word, isoMu: Word,
                  lockers: map<LockerId, Locker>, holder: Maybe, used: map<LockerId, Word>)
  {
    && (t != 0 ==> (mu == t <==> HoldsMutex(pc)) && (isoMu == t <==> Direct(pc)))
    && (PastValidation(pc) ==> !(st.window && st.windowOwnerTid == t))
    && (OwnsEngine(pc) ==> holder == Some(pc.l) && pc.l in used && used[pc.l] == t)
    && (Published(pc) ==> st.locked && st.ownerTid == t)
    && (pc.CloseClear? ==> pc.l in used && used[pc.l] == t)
    && (pc.LockPublish? || pc.LockBind? ==> pc.l !in lockers)
    && (pc.LockPublish? ==> st.ownerTid != t)
    && (pc.CloseNative? || pc.WindowNative? ==> pc.l in lockers && !lockers[pc.l].closed)
    && (HoldsMutex(pc) || Direct(pc) ==> registered)
    && (Committed(pc) || Direct(pc) ==> !closed)
    && (pc.CloseUnbind? || pc.WindowUnbind? || pc.DisposeNative? || pc.DisposeClear? ==> !st.locked)
  }

  ghost predicate ThreadInv(s: State, t: Word) {
    && (t in s.threads ==> t != 0)
    && PcInv(t, PcOf(s, t), s.registered, s.closed, s.st, s.mu, s.isoMu, s.lockers, s.native.holder, s.native.used)
  }

  /** The part of it about unlock windows and disposal. */
  predicate WindowPcInv(t: Word, pc: Pc, st: SharedState, window: Maybe, used: map<LockerId, Word>, disposed: bool) {
    && (pc.WindowNative? ==> !st.window && window == None)
    && (pc.WindowMark? ==> !st.window && window == Some(pc.l) && pc.l in used && used[pc.l] == t)
    && (pc.WindowUnbind? || pc.WindowEnd? ==>
          st.window && st.windowOwnerTid == t && window == Some(pc.l) && pc.l in used && used[pc.l] == t)
    && (pc.WindowPublish? ==> st.window && st.windowOwnerTid == t && window == None)
    && (pc.DisposeNative? || pc.DisposeClear? ==> !st.window)
    && (pc.DisposeNative? || pc.DirectNative? ==> !disposed)
    && (pc.DisposeClear? ==> disposed)
  }

  predicate ClosureInv(t: Word, l: LockerId, pc: Pc, st: SharedState, window: Maybe, used: map<LockerId, Word>) {
    st.window && st.windowOwnerTid == t && window == Some(l) && l in used && used[l] == t && pc == Idle
  }

  ghost predicate SuspendedInv(s: State, t: Word) {
    && WindowPcInv(t, PcOf(s, t), s.st, s.native.window, s.native.used, s.native.disposed)
    && (t in s.closures ==> ClosureInv(t, s.closures[t], PcOf(s, t), s.st, s.native.window, s.native.used))
  }

  /** What holds of each Locker object handed to a caller. */
  ghost predicate LockerInv(s: State, l: LockerId) {
    l in s.lockers ==>
      && l in s.native.used
      && s.lockers[l].tid == s.native.used[l]
      && (!s.lockers[l].closed ==>
            s.native.holder == Some(l) || s.native.window == Some(l) || PcOf(s, s.lockers[l].tid) == CloseClear(l))
  }

  /** Where the thread that owns the engine lock through l can be. */
  predicate HolderInv(l: LockerId, t: Word, pc: Pc, st: SharedState, lockers: map<LockerId, Locker>) {
    && t != 0
    && (pc == LockPublish(l) || pc == WindowPublish(l) || (st.locked && st.ownerTid == t && !Releasing(pc)))
    && (l in lockers || pc == LockPublish(l) || pc == LockBind(l))
  }

  /** The recorded owner has the engine lock, or is releasing it under the registry mutex. */
  ghost predicate OwnerInv(s: State) {
    && (!s.st.locked ==> s.st.ownerTid == 0)
    && (s.st.locked ==> s.st.ownerTid != 0 && (Holder(s, s.st.ownerTid) || Releasing(PcOf(s, s.st.ownerTid))))
    && (s.native.holder.Some? ==>
          var l := s.native.holder.value;
          l in s.native.used && HolderInv(l, s.native.used[l], PcOf(s, s.native.used[l]), s.st, s.lockers))
  }

  /** The word read by Isolate.check trails the recorded owner by one step. */
  ghost predicate BindingInv(s: State) {
    && (s.boundTid != 0 ==>
          (s.st.locked && s.st.ownerTid == s.boundTid) ||
          PcOf(s, s.boundTid).CloseUnbind? || PcOf(s, s.boundTid).WindowUnbind?)
    && (s.st.locked ==>
          s.boundTid == s.st.ownerTid || PcOf(s, s.st.ownerTid).LockBind? || PcOf(s, s.st.ownerTid).WindowRebind?)
  }

  ghost predicate WindowInv(s: State) {
    && (s.st.window ==> s.st.windowOwnerTid != 0 && !(s.st.locked && s.st.ownerTid == s.st.windowOwnerTid))
    && (s.native.window.Some? ==>
          var l := s.native.window.value;
          && s.native.window != s.native.holder
          && l in s.native.used && l in s.lockers
          && ((s.st.window && s.st.windowOwnerTid == s.native.used[l]) ||
              PcOf(s, s.native.used[l]) == WindowMark(l)))
  }

  /** Where the native isolate and the words that say it is gone stand. */
  ghost predicate DisposeInv(s: State) {
    && (s.handle <==> !s.closed)
    && (!s.registered ==> s.closed && s.native.disposed)
    && (s.native.disposed ==>
          s.closed || (s.mu != 0 && PcOf(s, s.mu).DisposeClear?) || (s.isoMu != 0 && PcOf(s, s.isoMu).DirectClear?))
    && (!s.registered ==> !s.st.window && s.native.window == None)
    && (s.registered && s.closed ==> s.st.locked && Holder(s, s.st.ownerTid) && s.boundTid == s.st.ownerTid)
  }

  // --------------------------------------------------- one locker's history

  /** What the native calls made for one Locker so far amount to. */
  datatype Phase = Fresh | Held | Windowed | Finished | Broken

  function After(p: Phase, e: NativeEvent): Phase {
    match e
    case Acquired(_) => if p == Fresh then Held else Broken
    case WindowOpened(_) => if p == Held then Windowed else Broken
    case WindowClosed(_) => if p == Windowed then Held else Broken
    case Released(_) => if p == Held then Finished else Broken
    case _ => p
  }

  predicate About(e: NativeEvent, l: LockerId) {
    e == Acquired(l) || e == Released(l) || e == WindowOpened(l) || e == WindowClosed(l)
  }

  function PhaseOf(log: seq<NativeEvent>, l: LockerId): Phase {
    if log == [] then Fresh
    else
      var p := PhaseOf(log[..|log| - 1], l);
      if About(log[|log| - 1], l) then After(p, log[|log| - 1]) else p
  }

  function ExpectedPhase(n: Native, l: LockerId): Phase {
    if l !in n.used then Fresh
    else if n.holder == Some(l) then Held
    else if n.window == Some(l) then Windowed
    else Finished
  }

  ghost predicate HistoryInv(s: State, l: LockerId) {
    PhaseOf(s.native.log, l) == ExpectedPhase(s.native, l)
  }

  ghost predicate Inv(s: State) {
    && OwnerInv(s) && BindingInv(s) && WindowInv(s) && DisposeInv(s)
    && (forall t: Word :: ThreadInv(s, t))
    && (forall t: Word :: SuspendedInv(s, t))
    && (forall l: LockerId :: LockerInv(s, l))
    && (forall l: LockerId :: HistoryInv(s, l))
  }

  // ------------------------------------------------ what every step respects

  /** At pc, with this handle and engine lock, the next step can reach the engine. */
  predicate CallsEngine(pc: Pc, handle: bool, holder: Maybe) {
    || (pc.LockAcquire? && handle)
    || ((pc.CloseNative? || pc.WindowNative?) && handle)
    || ((pc.LockCall? || pc.WindowEnd?) && holder == None)
    || pc.DisposeNative? || pc.DirectNative?
  }

  /** A step of t moves only t. A cleared handle, a disposal and a mark on a
      locker stay, and Isolate.Close runs to its end. The engine is changed only
      by a call, and a window only by the operation that opens or ends it. */
  ghost predicate Forward(s: State, s': State, t: Word) {
    var pc := PcOf(s, t);
    && (forall u: Word :: u != t ==> PcOf(s', u) == PcOf(s, u))
    && (s.native.disposed ==> s'.native.disposed) && (s'.handle ==> s.handle)
    && (!IsoFree(s) ==> s'.isoMu == s.isoMu || !s'.handle)
    && (forall l: LockerId :: l in s.lockers && s.lockers[l].closed && pc != LockBind(l) ==>
          l in s'.lockers && s'.lockers[l].closed)
    && (forall l: LockerId :: l in s.native.used ==> l in s'.native.used && s'.native.used[l] == s.native.used[l])
    && (s'.native != s.native ==> CallsEngine(pc, s.handle, s.native.holder) || t in s.closures)
    && (s.native.holder.Some? && s'.native.holder != s.native.holder ==>
          s.handle && (pc.CloseNative? || pc.WindowNative?))
    && (s'.native.window != s.native.window ==> pc.WindowNative? || pc.WindowEnd?)
    && (s'.st.window != s.st.window || s'.st.windowOwnerTid != s.st.windowOwnerTid ==>
          pc.WindowMark? || pc.WindowPublish?)
    && (s'.closures != s.closures ==> pc.WindowUnbind? || t in s.closures)
  }

  /** On the way to, or in, the native lock call. */
  predicate Locking(pc: Pc) {
    pc.LockRead? || pc.LockAcquire? || pc.LockCall?
  }
}
