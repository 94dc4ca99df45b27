/**
 What the shared-lock protocol promises in every run: who may call the engine,
 when the isolate is disposed, what a window that is never closed leaves behind,
 which calls can follow a disposal, and when a held lock can be released.
 */
module SharedLockRuns {
  import opened Runs
  import opened Wrappers
  import opened SharedLock
  import opened SharedLockSteps

  /** The invariant holds in every state of every interleaving. */
  lemma RunInv(trace: seq<State>)
    requires IsRun(Init, Next, trace)
    ensures forall n: nat :: n < |trace| ==> Inv(trace[n])
  {
    InitInv();
    NextKeepsInv();
    Invariant(Init, Next, Inv, trace);
  }

  /** Isolate.check admits a thread only while that thread owns the engine lock,
      or in the last steps of its own release, inside the registry critical
      section. Between operations the thread it admits is the published holder of
      a live engine isolate, and no other thread is admitted or owns the lock. */
  lemma CheckImpliesEngineLock(trace: seq<State>, k: nat, t: Word)
    requires IsRun(Init, Next, trace) && k < |trace|
    requires t != 0 && CheckPasses(trace[k], t)
    ensures var s := trace[k];
            Holder(s, t) || (s.mu == t && !PcOf(s, t).Idle?)
    ensures var s := trace[k];
            PcOf(s, t) == Idle ==>
              && Holder(s, t) && s.st.locked && s.st.ownerTid == t && !s.native.disposed
              && forall u: Word :: u != t ==> !Holder(s, u) && !CheckPasses(s, u)
  {
    RunInv(trace);
    AboutWords(trace[k], t);
  }

  /** Conversely the holder that finished locking passes the check. */
  lemma HolderPassesCheck(trace: seq<State>, k: nat, t: Word)
    requires IsRun(Init, Next, trace) && k < |trace|
    requires PcOf(trace[k], t) == Idle && Holder(trace[k], t) && !trace[k].closed
    ensures CheckPasses(trace[k], t)
  {
    RunInv(trace);
    assert ThreadInv(trace[k], t);
  }

  // ------------------------------------------------- who Lock lets through to the engine

  /** The checks of Lock by a thread that is not interrupted. */
  function Checked(s: State, t: Word, isolateEntered: bool): State {
    var s' := Validated(s, t, isolateEntered);
    if PcOf(s', t) == LockRead then OwnerRead(s', t) else s'
  }

  lemma CheckRun(s: State, t: Word, isolateEntered: bool)
    requires t != 0 && PcOf(s, t) == Idle && MutexFree(s) && IsoFree(s)
    ensures Leads(Next, s, Checked(s, t, isolateEntered))
  {
    var s1 := Validated(s, t, isolateEntered);
    assert AskStep(s, s1, t, Validate(isolateEntered)) && Does(s, s1, t, OnAsk(Validate(isolateEntered)));
    if PcOf(s1, t) == LockRead {
      assert AskStep(s1, OwnerRead(s1, t), t, ReadOwner) && Does(s1, OwnerRead(s1, t), t, OnAsk(ReadOwner));
      Along(Next, [s, s1, OwnerRead(s1, t)]);
    } else {
      Along(Next, [s, s1]);
    }
  }

  /** A thread between operations is sent on to the engine exactly if the isolate
      is shared and open and either another thread's window is open, or no
      window is, the thread does not own the engine lock itself, and someone else
      is published as the holder or the thread has no isolate entered. Every
      other caller is back where it was, and neither has reached the engine. */
  lemma LetThroughIff(trace: seq<State>, k: nat, t: Word, isolateEntered: bool)
    requires IsRun(Init, Next, trace) && k < |trace|
    requires t != 0 && PcOf(trace[k], t) == Idle && MutexFree(trace[k]) && IsoFree(trace[k])
    ensures var s, s' := trace[k], Checked(trace[k], t, isolateEntered);
            && Leads(Next, s, s') && s' == s.(threads := s'.threads)
            && PcOf(s', t) in {Idle, LockAcquire} && (forall u: Word :: u != t ==> PcOf(s', u) == PcOf(s, u))
            && (PcOf(s', t) == LockAcquire <==>
                  && s.registered && !s.closed
                  && if s.st.window then s.st.windowOwnerTid != t
                     else !Holder(s, t) && (s.st.locked || !isolateEntered))
  {
    RunInv(trace);
    CheckRun(trace[k], t, isolateEntered);
    AboutWords(trace[k], t);
  }

  /** A thread that found a holder, and reads the owner word later without the
      mutex, goes on exactly if it does not own the engine lock itself. */
  lemma ReadsItselfIffHolder(trace: seq<State>, k: nat, t: Word)
    requires IsRun(Init, Next, trace) && k < |trace| && t != 0 && PcOf(trace[k], t) == LockRead
    ensures PcOf(OwnerRead(trace[k], t), t) == if Holder(trace[k], t) then Idle else LockAcquire
  {
    RunInv(trace);
    AboutWords(trace[k], t);
  }

  /** Thread t owns the engine lock through Locker l, which no Close has marked. */
  predicate HoldsThrough(s: State, t: Word, l: LockerId) {
    s.native.holder == Some(l) && l in s.native.used && s.native.used[l] == t && l in s.lockers && !s.lockers[l].closed
  }

  /** What the checks of the other operations amount to between critical
      sections. Locker.Close and UnlockWindow get through to the engine exactly
      for the thread that owns the lock through that Locker, UnlockWindow only
      with no window open; SharedIsolate.Close exactly on a shared open isolate
      without a window whose lock is free, or granted and not yet published. */
  lemma OperationsAllowedIff(trace: seq<State>, k: nat, t: Word, l: LockerId)
    requires IsRun(Init, Next, trace) && k < |trace|
    requires t != 0 && PcOf(trace[k], t) == Idle && MutexFree(trace[k]) && IsoFree(trace[k])
    ensures var s := trace[k];
            && (MayClose(s, t, l) <==> HoldsThrough(s, t, l) && s.registered)
            && (MayOpen(s, t, l) <==> HoldsThrough(s, t, l) && s.registered && !s.st.window)
            && (MayDispose(s) <==>
                  && s.registered && !s.closed && !s.st.window
                  && forall u: Word :: Holder(s, u) ==> PcOf(s, u).LockPublish?)
  {
    var s := trace[k];
    RunInv(trace);
    AboutWords(s, t);
    assert LockerInv(s, l);
    assert s.native.holder.Some? ==> SuspendedInv(s, s.native.used[s.native.holder.value]);
    assert s.st.locked ==> Holder(s, s.st.ownerTid);
  }

  /** In LockRead the thread still owns the engine lock: only it could give it up. */
  ghost predicate Relocking(s: State, t: Word) {
    Inv(s) && Holder(s, t) && PcOf(s, t) == LockRead
  }

  lemma RelockReturns(s: State, s': State, t: Word, op: Op)
    requires Relocking(s, t) && Does(s, s', t, op)
    ensures s' == At(s, t, Idle)
  {
    AboutWords(s, t);
    assert op == OnAsk(ReadOwner);
  }

  /** Another thread's step takes nobody's lock away. */
  lemma HolderKeepsLock(s: State, s': State, t: Word, u: Word)
    requires Inv(s) && Holder(s, t) && u != t && Forward(s, s', u)
    ensures Holder(s', t) && PcOf(s', t) == PcOf(s, t)
  {
    AboutWords(s, u);
  }

  lemma RelockingSteps(s: State, s': State, t: Word)
    requires t != 0 && Relocking(s, t) && Next(s, s')
    ensures Relocking(s', t) || (s' == At(s, t, Idle))
  {
    NextKeepsInv();
    var u, op :| Does(s, s', u, op);
    if u == t {
      RelockReturns(s, s', t, op);
    } else {
      Moves(s, s', u, op);
      HolderKeepsLock(s, s', t, u);
    }
  }

  lemma RelockBegins(s: State, s': State, t: Word, isolateEntered: bool)
    requires Inv(s) && t != 0 && AskStep(s, s', t, Validate(isolateEntered)) && Holder(s, t) && !s.st.window
    ensures Relocking(s', t) || s' == At(s, t, Idle)
  {
    NextKeepsInv();
    assert Does(s, s', t, OnAsk(Validate(isolateEntered))) && Next(s, s');
    AboutWords(s, t);
  }

  /** The call has returned with the last step, which moved nothing but the thread. */
  ghost predicate RelockOver(trace: seq<State>, n: nat, t: Word) {
    0 < n < |trace| && Holder(trace[n - 1], t) && trace[n] == At(trace[n - 1], t, Idle)
  }

  lemma {:induction false} StaysRelocking(trace: seq<State>, j: nat, n: nat, t: Word)
    requires IsRun(Init, Next, trace) && j <= n < |trace| && t != 0 && Relocking(trace[j], t)
    requires forall k :: j < k < n ==> PcOf(trace[k], t) != Idle
    ensures Relocking(trace[n], t) || RelockOver(trace, n, t)
  {
    if j < n {
      StaysRelocking(trace, j, n - 1, t);
      assert j < n - 1 ==> PcOf(trace[n - 1], t) != Idle;
      assert StepAt(Next, trace, n - 1);
      RelockingSteps(trace[n - 1], trace[n], t);
    }
  }

  /** The holder cannot lock again: as long as its call of Lock has not
      returned, it has not gone on to the engine, whatever other threads do; the
      step that ends the call changes nothing but the thread itself. */
  lemma RelockIsRefused(trace: seq<State>, j: nat, n: nat, t: Word, isolateEntered: bool)
    requires IsRun(Init, Next, trace) && j < n < |trace|
    requires t != 0 && AskStep(trace[j], trace[j + 1], t, Validate(isolateEntered))
    requires Holder(trace[j], t) && !trace[j].st.window
    requires forall k :: j < k < n ==> PcOf(trace[k], t) != Idle
    ensures (PcOf(trace[n], t) == LockRead && Holder(trace[n], t)) || RelockOver(trace, n, t)
  {
    RunInv(trace);
    RelockBegins(trace[j], trace[j + 1], t, isolateEntered);
    if Relocking(trace[j + 1], t) {
      StaysRelocking(trace, j + 1, n, t);
    } else {
      assert n == j + 1;
    }
  }

  /** The native calls made for any one Locker are one acquire, then matched
      window pairs, then at most one release; at most one Locker holds the
      engine lock and at most one has its window open. */
  lemma LockerHistories(trace: seq<State>, k: nat, l: LockerId, m: LockerId)
    requires IsRun(Init, Next, trace) && k < |trace|
    ensures var log := trace[k].native.log;
            && PhaseOf(log, l) != Broken
            && (PhaseOf(log, l) == Held && PhaseOf(log, m) == Held ==> l == m)
            && (PhaseOf(log, l) == Windowed && PhaseOf(log, m) == Windowed ==> l == m)
  {
    RunInv(trace);
    assert HistoryInv(trace[k], l) && HistoryInv(trace[k], m);
  }

  // ------------------------------------------------------------- disposal

  /** The step natively disposes the isolate. */
  ghost predicate Disposes(s: State, s': State, t: Word, op: Op) {
    Does(s, s', t, op) && !s.native.disposed && s'.native.disposed
  }

  /** A native dispose overlaps a published lock or an open window if and only if
      it is made by Isolate.Close; that caller is then the bound, published
      holder of the engine lock. */
  lemma DisposeOverlapsIffDirect(trace: seq<State>, k: nat, t: Word, op: Op)
    requires IsRun(Init, Next, trace) && k + 1 < |trace| && Disposes(trace[k], trace[k + 1], t, op)
    ensures var s := trace[k];
            && (s.st.locked || s.st.window <==> op.OnDirect?)
            && (op.OnDirect? ==> CheckPasses(s, t) && Holder(s, t) && s.st.locked && s.st.ownerTid == t)
            && (!op.OnDirect? ==>
                  && op.OnDispose? && s.native.window == None
                  && (s.native.holder == None <==> forall u: Word :: !PcOf(s, u).LockPublish?))
  {
    RunInv(trace);
    Moves(trace[k], trace[k + 1], t, op);
    var s := trace[k];
    AboutWords(s, t);
    assert s.native.holder.Some? ==> SuspendedInv(s, s.native.used[s.native.holder.value]);
    forall u: Word ensures PcOf(s, u).LockPublish? ==> s.native.holder.Some? {
      assert ThreadInv(s, u);
    }
  }

  /** Isolate.Close has closed the isolate under its own lock. */
  ghost predicate Killed(s: State, holder: Maybe, owner: Word) {
    Inv(s) && s.registered && s.closed && s.native.holder == holder && s.st.ownerTid == owner
  }

  lemma KilledDoes(s: State, s': State, t: Word, op: Op)
    requires Inv(s) && s.registered && s.closed && Does(s, s', t, op)
    ensures s'.registered && s'.closed && s'.native.holder == s.native.holder && s'.st.ownerTid == s.st.ownerTid
  {
    assert ThreadInv(s, t);
  }

  lemma KilledSteps(holder: Maybe, owner: Word)
    ensures forall s, s' :: Killed(s, holder, owner) && Next(s, s') ==> Killed(s', holder, owner)
  {
    NextKeepsInv();
    forall s, s' | Killed(s, holder, owner) && Next(s, s') ensures Killed(s', holder, owner) {
      var t, op :| Does(s, s', t, op);
      KilledDoes(s, s', t, op);
    }
  }

  /** After an Isolate.Close of a shared isolate the registry says "locked" for
      ever: the engine lock is never released, no Locker.Close succeeds,
      SharedIsolate.Close is always refused and nobody passes the check. */
  lemma DirectCloseIsFinal(trace: seq<State>, n: nat, m: nat, t: Word, l: LockerId)
    requires IsRun(Init, Next, trace) && n <= m < |trace| && t != 0
    requires trace[n].registered && trace[n].closed
    ensures var s, s' := trace[n], trace[m];
            && s.native.holder.Some? && s'.native.holder == s.native.holder
            && s'.st.locked && s'.st.ownerTid == s.st.ownerTid
            && !MayDispose(s') && !CheckPasses(s', t)
            && forall x :: !CloseStep(s', x, t, Release(true)) && !OpenStep(s', x, t, ReleaseForWindow(true))
  {
    var holder, owner := trace[n].native.holder, trace[n].st.ownerTid;
    RunInv(trace);
    KilledSteps(holder, owner);
    StableAlongPath(Next, s => Killed(s, holder, owner), trace, n, m);
  }

  // ------------------------------------------- a window that never closes

  /** Thread t left the window of l without reacquiring. */
  ghost predicate Abandoned(s: State, t: Word, l: LockerId) {
    && s.st.window && s.st.windowOwnerTid == t && s.native.window == Some(l)
    && PcOf(s, t) == Idle && t !in s.closures
  }

  ghost predicate AbandonedInv(s: State, t: Word, l: LockerId) {
    Inv(s) && Abandoned(s, t, l)
  }

  lemma AbandonedWindow(s: State, s': State, t: Word, l: LockerId, u: Word)
    requires AbandonedInv(s, t, l) && u != 0 && Forward(s, s', u)
    ensures s'.st.window && s'.st.windowOwnerTid == t && s'.native.window == Some(l) && t !in s'.closures
    ensures u != t ==> PcOf(s', t) == Idle
  {
    assert ThreadInv(s, u) && SuspendedInv(s, u);
  }

  lemma AbandonedStays(s: State, s': State, t: Word, l: LockerId, op: Op)
    requires t != 0 && AbandonedInv(s, t, l) && Does(s, s', t, op)
    ensures PcOf(s', t) == Idle
  {
    AboutWords(s, t);
  }

  lemma AbandonedSteps(t: Word, l: LockerId)
    requires t != 0
    ensures forall s, s' :: AbandonedInv(s, t, l) && Next(s, s') ==> AbandonedInv(s', t, l)
  {
    NextKeepsInv();
    forall s, s' | AbandonedInv(s, t, l) && Next(s, s') ensures AbandonedInv(s', t, l) {
      var u, op :| Does(s, s', u, op);
      Moves(s, s', u, op);
      AbandonedWindow(s, s', t, l, u);
      if u == t {
        AbandonedStays(s, s', t, l, op);
      }
    }
  }

  /** A closure that returns with an isolate still entered, or a native reacquire
      that fails, leaves its window open for the rest of the run: the thread never
      owns the engine lock or passes the check again, SharedIsolate.Close is
      refused for ever, and the isolate is disposed only by the Isolate.Close of
      another thread's lock. */
  lemma AbandonedForever(trace: seq<State>, k: nat, j: nat, t: Word, op: ResumeOp)
    requires IsRun(Init, Next, trace) && k < j < |trace|
    requires t != 0 && op in {Return(true), Reacquire(false)} && ResumeStep(trace[k], trace[k + 1], t, op)
    ensures var s := trace[j];
            && s.st.window && s.st.windowOwnerTid == t
            && !Holder(s, t) && !CheckPasses(s, t) && !MayDispose(s)
            && (s.native.disposed ==>
                  s.st.locked && s.st.ownerTid != t && (s.closed || PcOf(s, s.st.ownerTid) == DirectClear))
  {
    RunInv(trace);
    assert SuspendedInv(trace[k], t) && ThreadInv(trace[k], t);
    var l := if op.Return? then trace[k].closures[t] else PcOf(trace[k], t).l;
    AbandonedSteps(t, l);
    StableAlongPath(Next, s => AbandonedInv(s, t, l), trace, k + 1, j);
    AboutWords(trace[j], t);
  }

  // ------------------------------------------- calls after the disposal

  /** A thread has passed the checks of Lock and not made its native call yet. */
  predicate BeforeCall(pc: Pc) {
    pc.LockRead? || pc.LockAcquire?
  }

  /** Someone can still call into the engine, or be answered by it: a call to
      lock is in flight and the lock is free, the handle has not been cleared and
      a thread is on its way to such a call, or a window's closure is running. */
  ghost predicate Reachable(s: State) {
    || (s.native.holder == None && exists t: Word :: t != 0 && PcOf(s, t) == LockCall)
    || (s.handle && exists t: Word :: t != 0 && BeforeCall(PcOf(s, t)))
    || exists t: Word :: t in s.closures
  }

  ghost predicate Sealed(s: State, n: Native) {
    Inv(s) && s.native == n && n.disposed && !Reachable(s)
  }

  lemma SealedStays(s: State, s': State, n: Native, t: Word)
    requires Sealed(s, n) && t != 0 && Forward(s, s', t)
    ensures s'.native == n && s'.closures == s.closures && (s'.handle ==> s.handle)
  {
    AboutWords(s, t);
    assert PcOf(s, t) == LockCall ==> n.holder.Some?;
    assert s.handle ==> !BeforeCall(PcOf(s, t));
  }

  /** No new thread comes on its way to the engine. */
  lemma SealedAsks(s: State, s': State, n: Native, t: Word, op: AskOp)
    requires Sealed(s, n) && t != 0 && AskStep(s, s', t, op)
    ensures PcOf(s', t) != LockCall && (BeforeCall(PcOf(s', t)) ==> !s.handle)
  {
    AboutWords(s, t);
    assert s.handle ==> !BeforeCall(PcOf(s, t));
  }

  lemma SealedSteps(n: Native)
    ensures forall s, s' :: Sealed(s, n) && Next(s, s') ==> Sealed(s', n)
  {
    NextKeepsInv();
    forall s, s' | Sealed(s, n) && Next(s, s') ensures Sealed(s', n) {
      var t, op :| Does(s, s', t, op);
      Moves(s, s', t, op);
      SealedStays(s, s', n, t);
      if op.OnAsk? {
        SealedAsks(s, s', n, t, op.a);
      }
    }
  }

  /** Without such a thread no continuation makes or completes any native call. */
  lemma SealedPath(s: State, s': State)
    requires Inv(s) && s.native.disposed && !Reachable(s) && Leads(Next, s, s')
    ensures s'.native == s.native
  {
    SealedSteps(s.native);
    StableThrough(Next, x => Sealed(x, s.native), s, s');
  }

  /** Some id was never used: one more than every id in use. */
  lemma FreshLocker(used: map<LockerId, Word>) returns (l: LockerId)
    ensures l !in used
  {
    ghost var ids := used.Keys;
    l := 0;
    while ids != {}
      invariant ids <= used.Keys
      invariant forall i :: i in used && i !in ids ==> i < l
      decreases ids
    {
      ghost var i :| i in ids;
      ids := ids - {i};
      if l <= i {
        l := i + 1;
      }
    }
  }

  /** Some continuation of s adds to the engine's history. */
  ghost predicate Calls(s: State) {
    exists s' :: Leads(Next, s, s') && |s'.native.log| == |s.native.log| + 1
  }

  /** A thread on its way to the call reads the handle before it is cleared. */
  lemma LateCall(s: State, t: Word)
    requires t != 0 && s.handle && BeforeCall(PcOf(s, t)) && s.st.ownerTid != t
    ensures exists s' :: Leads(Next, s, s') && s'.native.log == s.native.log + [Asked(t)]
  {
    var last := if PcOf(s, t) == LockRead then OwnerRead(s, t) else s;
    if PcOf(s, t) == LockRead {
      assert Does(s, last, t, OnAsk(ReadOwner));
      Along(Next, [s, last]);
    } else {
      Along(Next, [s]);
    }
    assert Does(last, Called(last, t), t, OnAsk(Call));
    Along(Next, [last, Called(last, t)]);
    Through(Next, s, last, Called(last, t));
  }

  lemma LateGrant(s: State, t: Word)
    requires t != 0 && s.native.holder == None && PcOf(s, t) == LockCall
    ensures Calls(s)
  {
    var l := FreshLocker(s.native.used);
    assert Does(s, Granted(s, t, true, l), t, OnGrant(Acquire(true, l)));
    Along(Next, [s, Granted(s, t, true, l)]);
  }

  lemma LateReturn(s: State, t: Word)
    requires Inv(s) && t in s.closures
    ensures Calls(s)
  {
    AboutWords(s, t);
    assert Does(s, WindowReturned(s, t, false), t, OnResume(Return(false)));
    Along(Next, [s, WindowReturned(s, t, false)]);
  }

  /** In every reachable state such a thread leads to a native call. */
  lemma ReachableCalls(s: State)
    requires Inv(s) && s.native.disposed && Reachable(s)
    ensures Calls(s)
  {
    if t: Word :| t != 0 && s.native.holder == None && PcOf(s, t) == LockCall {
      LateGrant(s, t);
    } else if t: Word :| t != 0 && s.handle && BeforeCall(PcOf(s, t)) {
      AboutWords(s, t);
      LateCall(s, t);
    } else {
      var t: Word :| t in s.closures;
      LateReturn(s, t);
    }
  }

  /** Once the engine isolate is disposed, some continuation still calls into
      it, or is granted its lock, exactly when the engine is reachable. */
  lemma DisposedEngineUntouched(trace: seq<State>, k: nat)
    requires IsRun(Init, Next, trace) && k < |trace| && trace[k].native.disposed
    ensures (exists s' :: Leads(Next, trace[k], s') && s'.native != trace[k].native) <==> Reachable(trace[k])
  {
    var s := trace[k];
    RunInv(trace);
    if Reachable(s) {
      ReachableCalls(s);
      var s' :| Leads(Next, s, s') && |s'.native.log| == |s.native.log| + 1;
      assert s'.native != s.native;
    } else {
      forall s' | Leads(Next, s, s') ensures s'.native == s.native {
        SealedPath(s, s');
      }
    }
  }

  // ------------------------------------------------ can the lock be released

  /** The engine lock is held through l, which no failed or misplaced Close has
      marked closed, and the isolate has not been disposed or closed. */
  ghost predicate Releasable(s: State, l: LockerId) {
    && s.native.holder == Some(l) && (l in s.lockers ==> !s.lockers[l].closed)
    && s.handle && IsoFree(s) && !s.native.disposed
  }

  ghost predicate Stuck(s: State, l: LockerId) {
    Inv(s) && s.native.holder == Some(l) && !Releasable(s, l)
  }

  lemma StuckStays(s: State, s': State, l: LockerId, t: Word)
    requires Stuck(s, l) && t != 0 && Forward(s, s', t)
    ensures s'.native.holder == Some(l) && !Releasable(s', l)
  {
    AboutWords(s, t);
  }

  lemma StuckSteps(l: LockerId)
    ensures forall s, s' :: Stuck(s, l) && Next(s, s') ==> Stuck(s', l)
  {
    NextKeepsInv();
    forall s, s' | Stuck(s, l) && Next(s, s') ensures Stuck(s', l) {
      var t, op :| Does(s, s', t, op);
      Moves(s, s', t, op);
      StuckStays(s, s', l, t);
    }
  }

  /** Steps the thread at pc still has to take before it is idle. */
  function Rank(pc: Pc): nat {
    match pc
    case LockRead => 1
    case LockAcquire => 2
    case LockCall => 1
    case LockPublish(_) => 2
    case LockBind(_) => 1
    case CloseClear(_) => 2
    case CloseUnbind(_) => 1
    case WindowMark(_) => 2
    case WindowUnbind(_) => 1
    case WindowPublish(_) => 2
    case WindowRebind(_) => 1
    case DisposeNative => 1
    case _ => 0
  }

  /** What thread t, and another thread inside the registry critical section,
      still have to do before t can release. */
  function Distance(s: State, t: Word): nat {
    Rank(PcOf(s, t)) + if s.mu != 0 && s.mu != t then Rank(PcOf(s, s.mu)) else 0
  }

  predicate ReadyToRelease(s: State, t: Word) {
    PcOf(s, t).CloseNative? || PcOf(s, t).WindowNative? || (PcOf(s, t) == Idle && MutexFree(s))
  }

  /** One step nearer to the release of l, by thread u. */
  ghost predicate Nearer(s: State, s': State, l: LockerId) {
    && l in s.native.used
    && Next(s, s') && Releasable(s', l) && s'.native.used == s.native.used
    && Distance(s', s.native.used[l]) < Distance(s, s.native.used[l])
  }

  ghost predicate Approachable(s: State, l: LockerId) {
    exists s' :: Nearer(s, s', l)
  }

  /** Another thread inside Locker.Close leaves the registry critical section. */
  lemma CloserLeaves(s: State, l: LockerId)
    requires Inv(s) && Releasable(s, l) && s.mu != 0 && s.mu != s.native.used[l]
    requires PcOf(s, s.mu).CloseClear? || PcOf(s, s.mu).CloseUnbind?
    ensures Approachable(s, l)
  {
    var u := s.mu;
    assert ThreadInv(s, u);
    if PcOf(s, u).CloseClear? {
      var s' := CloseCleared(s, u);
      assert Does(s, s', u, OnClose(Clear)) && Nearer(s, s', l);
    } else {
      var s' := CloseUnbound(s, u);
      assert Does(s, s', u, OnClose(Unbind)) && Nearer(s, s', l);
    }
  }

  /** Another thread opening a window or disposing leaves it; the dispose may fail. */
  lemma OpenerLeaves(s: State, l: LockerId)
    requires Inv(s) && Releasable(s, l) && s.mu != 0 && s.mu != s.native.used[l]
    requires PcOf(s, s.mu).WindowMark? || PcOf(s, s.mu).WindowUnbind? || PcOf(s, s.mu).DisposeNative?
    ensures Approachable(s, l)
  {
    var u := s.mu;
    if PcOf(s, u).WindowMark? {
      var s' := WindowMarked(s, u);
      assert Does(s, s', u, OnOpen(Mark)) && Nearer(s, s', l);
    } else if PcOf(s, u).WindowUnbind? {
      var s' := WindowUnbound(s, u);
      assert Does(s, s', u, OnOpen(UnbindForWindow)) && Nearer(s, s', l);
    } else {
      var s' := DisposeDone(s, u, false);
      assert Does(s, s', u, OnDispose(NativeDispose(false))) && Nearer(s, s', l);
    }
  }

  lemma OtherLeaves(s: State, l: LockerId)
    requires Inv(s) && Releasable(s, l) && s.mu != 0 && s.mu != s.native.used[l]
    ensures Approachable(s, l)
  {
    assert ThreadInv(s, s.mu) && SuspendedInv(s, s.mu);
    if PcOf(s, s.mu).CloseClear? || PcOf(s, s.mu).CloseUnbind? {
      CloserLeaves(s, l);
    } else {
      OpenerLeaves(s, l);
    }
  }

  /** A holder that called Lock once more returns from it. */
  lemma RelockerReturns(s: State, l: LockerId)
    requires Inv(s) && Releasable(s, l) && Locking(PcOf(s, s.native.used[l]))
    requires s.mu == 0 || s.mu == s.native.used[l]
    ensures Approachable(s, l)
  {
    var t := s.native.used[l];
    assert ThreadInv(s, t);
    if PcOf(s, t) == LockRead {
      var s' := OwnerRead(s, t);
      assert Does(s, s', t, OnAsk(ReadOwner)) && Nearer(s, s', l);
    } else if PcOf(s, t) == LockAcquire {
      var s' := Called(s, t);
      assert Does(s, s', t, OnAsk(Call)) && Nearer(s, s', l);
    } else {
      var s' := Granted(s, t, false, 0);
      assert Does(s, s', t, OnGrant(Acquire(false, 0))) && Nearer(s, s', l);
    }
  }

  /** The holder finishes the operation it is in. */
  lemma HolderReturns(s: State, l: LockerId)
    requires Inv(s) && Releasable(s, l) && !ReadyToRelease(s, s.native.used[l])
    requires s.mu == 0 || s.mu == s.native.used[l]
    ensures Approachable(s, l)
  {
    var t := s.native.used[l];
    assert ThreadInv(s, t) && SuspendedInv(s, t);
    if Locking(PcOf(s, t)) {
      RelockerReturns(s, l);
    } else if PcOf(s, t).LockPublish? {
      var s' := LockPublished(s, t);
      assert Does(s, s', t, OnGrant(Publish)) && Nearer(s, s', l);
    } else if PcOf(s, t).LockBind? {
      var s' := LockBound(s, t);
      assert Does(s, s', t, OnGrant(Bind)) && Nearer(s, s', l);
    } else if PcOf(s, t).WindowPublish? {
      var s' := WindowRepublished(s, t);
      assert Does(s, s', t, OnResume(Republish)) && Nearer(s, s', l);
    } else {
      var s' := WindowRebound(s, t);
      assert Does(s, s', t, OnResume(Rebind)) && Nearer(s, s', l);
    }
  }

  /** Held through l, and releasable, with the same lock objects as before. */
  ghost predicate Approaching(s: State, l: LockerId, used: map<LockerId, Word>) {
    Inv(s) && Releasable(s, l) && s.native.used == used
  }

  lemma ApproachStep(s: State, l: LockerId)
    requires Inv(s) && Releasable(s, l) && !ReadyToRelease(s, s.native.used[l])
    ensures Approachable(s, l)
  {
    if s.mu != 0 && s.mu != s.native.used[l] {
      OtherLeaves(s, l);
    } else {
      HolderReturns(s, l);
    }
  }

  lemma ApproachSteps(l: LockerId, used: map<LockerId, Word>)
    requires l in used
    ensures forall s :: Approaching(s, l, used) && !ReadyToRelease(s, used[l]) ==>
              exists s' :: Next(s, s') && Approaching(s', l, used) && Distance(s', used[l]) < Distance(s, used[l])
  {
    NextKeepsInv();
    forall s | Approaching(s, l, used) && !ReadyToRelease(s, used[l])
      ensures exists s' :: Next(s, s') && Approaching(s', l, used) && Distance(s', used[l]) < Distance(s, used[l])
    {
      ApproachStep(s, l);
      var s' :| Nearer(s, s', l);
    }
  }

  lemma ReachRelease(s: State, l: LockerId)
    requires Inv(s) && Releasable(s, l)
    ensures exists s' :: Leads(Next, s, s') && Approaching(s', l, s.native.used) && ReadyToRelease(s', s.native.used[l])
  {
    var used := s.native.used;
    ApproachSteps(l, used);
    Descend(Next, x => Approaching(x, l, used), x => ReadyToRelease(x, used[l]), x => Distance(x, used[l]), s);
  }

  lemma ReleaseNow(s: State, l: LockerId)
    requires Inv(s) && Releasable(s, l) && ReadyToRelease(s, s.native.used[l])
    ensures exists s' :: Leads(Next, s, s') && s'.native.holder == None
  {
    var t := s.native.used[l];
    AboutWords(s, t);
    assert LockerInv(s, l);
    if PcOf(s, t).CloseNative? {
      var s1 := CloseReleased(s, t, true);
      assert Does(s, s1, t, OnClose(Release(true)));
      Along(Next, [s, s1]);
    } else if PcOf(s, t).WindowNative? {
      var s1 := WindowReleased(s, t, true);
      assert Does(s, s1, t, OnOpen(ReleaseForWindow(true)));
      Along(Next, [s, s1]);
    } else {
      var s1 := CloseEntered(s, t, l);
      assert Does(s, s1, t, OnClose(EnterClose(l)));
      var s2 := CloseReleased(s1, t, true);
      assert Does(s1, s2, t, OnClose(Release(true)));
      Along(Next, [s, s1, s2]);
    }
  }

  /** A held engine lock can be released by some continuation if and only if its
      Locker has not been marked closed, the isolate has not been disposed or
      closed, and no Isolate.Close is under way. A native release that fails
      marks the Locker closed, and then the lock is held for ever. */
  lemma ReleasedInSomeContinuation(trace: seq<State>, k: nat, l: LockerId)
    requires IsRun(Init, Next, trace) && k < |trace| && trace[k].native.holder == Some(l)
    ensures (exists s' :: Leads(Next, trace[k], s') && s'.native.holder != Some(l)) <==> Releasable(trace[k], l)
  {
    var s := trace[k];
    RunInv(trace);
    if Releasable(s, l) {
      ReachRelease(s, l);
      var s1 :| Leads(Next, s, s1) && Approaching(s1, l, s.native.used) && ReadyToRelease(s1, s.native.used[l]);
      ReleaseNow(s1, l);
      var s2 :| Leads(Next, s1, s2) && s2.native.holder == None;
      Through(Next, s, s1, s2);
    } else {
      StuckSteps(l);
      forall s' | Leads(Next, s, s') ensures s'.native.holder == Some(l) {
        StableThrough(Next, x => Stuck(x, l), s, s');
      }
    }
  }

  // -------------------------------------------------------- runs that exist

  /** A thread that finds the engine lock free may lock. */
  predicate MayLock(s: State, t: Word, l: LockerId) {
    && t != 0 && PcOf(s, t) == Idle && MutexFree(s) && IsoFree(s) && s.registered && !s.closed && s.handle
    && (if s.st.window then s.st.windowOwnerTid != t else !s.st.locked)
    && s.native.holder == None && l !in s.native.used
  }

  function Asking(s: State, t: Word, l: LockerId): State {
    s.(threads := s.threads[t := LockPublish(l)],
       native := s.native.(holder := Some(l), used := s.native.used[l := t],
                           log := s.native.log + [Asked(t), Acquired(l)]))
  }

  /** The state after thread t has locked through l. */
  function LockedBy(s: State, t: Word, l: LockerId): State {
    Asking(s, t, l).(threads := s.threads[t := Idle], st := s.st.(locked := true, ownerTid := t), boundTid := t,
                     lockers := s.lockers[l := Locker(t, false)])
  }

  /** Lock up to the return of its native call. */
  lemma AskRun(s: State, t: Word, l: LockerId)
    requires MayLock(s, t, l)
    ensures Leads(Next, s, Asking(s, t, l))
  {
    var s1 := Validated(s, t, false);
    assert Does(s, s1, t, OnAsk(Validate(false)));
    Along(Next, [s, s1]);
    CallRun(s1, t, l);
    Through(Next, s, s1, Asking(s1, t, l));
    assert Asking(s1, t, l) == Asking(s, t, l);
  }

  lemma CallRun(s: State, t: Word, l: LockerId)
    requires t != 0 && PcOf(s, t) == LockAcquire && s.handle && s.native.holder == None && l !in s.native.used
    ensures Leads(Next, s, Asking(s, t, l))
  {
    var s1 := Called(s, t);
    assert Does(s, s1, t, OnAsk(Call));
    var s2 := Granted(s1, t, true, l);
    assert Does(s1, s2, t, OnGrant(Acquire(true, l)));
    assert s2.native.log == s.native.log + [Asked(t), Acquired(l)];
    assert s2 == Asking(s, t, l);
    Along(Next, [s, s1, s2]);
  }

  /** Lock from entry to return. */
  lemma LockRun(s: State, t: Word, l: LockerId)
    requires MayLock(s, t, l)
    ensures Leads(Next, s, LockedBy(s, t, l))
  {
    AskRun(s, t, l);
    var s3 := Asking(s, t, l);
    var s4 := LockPublished(s3, t);
    assert Does(s3, s4, t, OnGrant(Publish));
    var s5 := LockBound(s4, t);
    assert Does(s4, s5, t, OnGrant(Bind));
    assert s5 == LockedBy(s, t, l);
    Along(Next, [s3, s4, s5]);
    Through(Next, s, s3, s5);
  }

  /** Lock whose native call fails, free lock or not: the call reached the engine and nothing else happened. */
  lemma FailedLock(s: State, t: Word)
    requires Inv(s) && t != 0 && PcOf(s, t) == LockAcquire && s.handle
    ensures Leads(Next, s, At(s, t, Idle).(native := Emit(s.native, Asked(t))))
  {
    var s1 := Called(s, t);
    assert AskStep(s, s1, t, Call) && Does(s, s1, t, OnAsk(Call));
    var s2 := Granted(s1, t, false, 0);
    assert GrantStep(s1, s2, t, Acquire(false, 0)) && Does(s1, s2, t, OnGrant(Acquire(false, 0)));
    assert s2 == At(s, t, Idle).(native := Emit(s.native, Asked(t)));
    Along(Next, [s, s1, s2]);
  }

  function DirectlyDisposed(s: State, t: Word, ok: bool): State {
    s.(threads := s.threads[t := DirectClear], isoMu := t,
       native := if ok then s.native.(disposed := true, log := s.native.log + [Disposed(true)]) else s.native)
  }

  /** Isolate.Close of the bound thread up to the return of its native call. */
  lemma DirectRun(s: State, t: Word, ok: bool)
    requires t != 0 && PcOf(s, t) == Idle && IsoFree(s) && CheckPasses(s, t)
    ensures Leads(Next, s, DirectlyDisposed(s, t, ok))
  {
    var s1 := At(s, t, DirectNative).(isoMu := t);
    var s2 := DirectDone(s1, t, ok);
    assert s2 == DirectlyDisposed(s, t, ok);
    assert DirectStep(s, s1, t, EnterDirect) && DirectStep(s1, s2, t, DirectDispose(ok));
    assert Does(s, s1, t, OnDirect(EnterDirect)) && Does(s1, s2, t, OnDirect(DirectDispose(ok)));
    Along(Next, [s, s1, s2]);
  }

  /** The holder of a lock disposes the isolate under it: thread 1 locks and calls Isolate.Close. */
  lemma HolderDisposes()
    ensures exists s :: Reached(Init, Next, s) && s.native.disposed && s.st.locked && s.st.ownerTid == 1 && Holder(s, 1)
  {
    var locked := LockedBy(Start(), 1, 0);
    LockRun(Start(), 1, 0);
    DirectRun(locked, 1, true);
    Through(Next, Start(), locked, DirectlyDisposed(locked, 1, true));
    assert Reached(Init, Next, DirectlyDisposed(locked, 1, true));
  }

  function AbandonedBy(s: State, t: Word, l: LockerId): State {
    s.(threads := s.threads[t := Idle], st := SharedState(false, true, 0, t), boundTid := 0,
       native := s.native.(holder := None, window := Some(l), log := s.native.log + [WindowOpened(l)]))
  }

  /** A window of thread t, abandoned by its closure. */
  lemma AbandonRun(s: State, t: Word, l: LockerId)
    requires t != 0 && PcOf(s, t) == Idle && MutexFree(s) && IsoFree(s) && MayOpen(s, t, l) && s.handle
    requires t !in s.closures
    ensures Leads(Next, s, AbandonedBy(s, t, l))
  {
    var s1 := WindowEntered(s, t, l, false);
    assert Does(s, s1, t, OnOpen(EnterWindow(l, false)));
    var s2 := WindowReleased(s1, t, true);
    assert Does(s1, s2, t, OnOpen(ReleaseForWindow(true)));
    var s3 := WindowMarked(s2, t);
    assert Does(s2, s3, t, OnOpen(Mark));
    Along(Next, [s, s1, s2, s3]);
    LeaveClosure(s3, t);
    assert ClosureLeft(s3, t) == AbandonedBy(s, t, l);
    Through(Next, s, s3, AbandonedBy(s, t, l));
  }

  function ClosureLeft(s: State, t: Word): State {
    s.(threads := s.threads[t := Idle], boundTid := 0, mu := 0)
  }

  lemma LeaveClosure(s: State, t: Word)
    requires t != 0 && PcOf(s, t).WindowUnbind? && IsoFree(s) && t !in s.closures
    ensures Leads(Next, s, ClosureLeft(s, t))
  {
    var s1 := WindowUnbound(s, t);
    assert Does(s, s1, t, OnOpen(UnbindForWindow));
    var s2 := WindowReturned(s1, t, true);
    assert Does(s1, s2, t, OnResume(Return(true)));
    assert s2.closures == s.closures;
    assert s2 == ClosureLeft(s, t);
    Along(Next, [s, s1, s2]);
  }

  /** An isolate whose window was abandoned is disposed by a thread that locked inside it. */
  lemma AbandonedThenDisposed()
    ensures exists s ::
              && Reached(Init, Next, s) && s.native.disposed
              && s.st.window && s.st.windowOwnerTid == 1 && Abandoned(s, 1, 0)
  {
    var locked := LockedBy(Start(), 1, 0);
    LockRun(Start(), 1, 0);
    var abandoned := AbandonedBy(locked, 1, 0);
    AbandonRun(locked, 1, 0);
    Through(Next, Start(), locked, abandoned);
    var relocked := LockedBy(abandoned, 2, 1);
    LockRun(abandoned, 2, 1);
    Through(Next, Start(), abandoned, relocked);
    DirectRun(relocked, 2, true);
    Through(Next, Start(), relocked, DirectlyDisposed(relocked, 2, true));
    assert Reached(Init, Next, DirectlyDisposed(relocked, 2, true));
  }

  function DisposedBy(s: State, t: Word): State {
    s.(threads := s.threads[t := DisposeClear], mu := t,
       native := s.native.(disposed := true, log := s.native.log + [Disposed(false)]))
  }

  lemma DisposeRun(s: State, t: Word)
    requires t != 0 && PcOf(s, t) == Idle && MutexFree(s) && IsoFree(s) && MayDispose(s)
    ensures Leads(Next, s, DisposedBy(s, t))
  {
    var s1 := DisposeEntered(s, t);
    assert Does(s, s1, t, OnDispose(EnterDispose));
    var s2 := DisposeDone(s1, t, true);
    assert Does(s1, s2, t, OnDispose(NativeDispose(true)));
    assert s2 == DisposedBy(s, t);
    Along(Next, [s, s1, s2]);
  }

  /** Thread 1 has made its call to lock when thread 2 disposes the isolate. */
  lemma DisposeOverlapsLock()
    ensures exists s :: Reached(Init, Next, s) && s.native.disposed && Reachable(s) && PcOf(s, 1) == LockCall
  {
    var s1 := Validated(Start(), 1, false);
    assert Does(Start(), s1, 1, OnAsk(Validate(false)));
    var s2 := Called(s1, 1);
    assert Does(s1, s2, 1, OnAsk(Call));
    Along(Next, [Start(), s1, s2]);
    DisposeRun(s2, 2);
    var s4 := DisposedBy(s2, 2);
    Through(Next, Start(), s2, s4);
    assert Reached(Init, Next, s4) && PcOf(s4, 1) == LockCall;
  }
}
