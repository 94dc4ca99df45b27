/**
 The shared isolate as an object: the critical sections of locker.go and
 Isolate.Close written as methods that update the Go-side words in the source's
 order. Valid() is the invariant of the transition system in SharedLock, so
 what that proves of every reachable state holds of the object between calls.
 A method runs with the registry and isolate mutexes free before and after it.
 */
module SharedIsolates {
  import opened Runs
  import opened Wrappers
  import opened SharedLock
  import opened SharedLockSteps
  import opened SharedLockRuns

  datatype Verdict = Refused | Proceed | CheckOwner

  class SharedIsolate {
    var registered: bool
    var closed: bool
    var handle: bool
    var st: SharedState
    var boundTid: Word
    var lockers: map<LockerId, Locker>
    ghost var threads: map<Word, Pc>
    ghost var closures: map<Word, LockerId>
    ghost var native: Native

    ghost function View(): State
      reads this
    {
      State(registered, closed, handle, st, boundTid, 0, 0,
            threads, closures, lockers, native)
    }

    ghost predicate Valid()
      reads this
    {
      Inv(View())
    }

    /** TryIntoShared succeeded. */
    constructor ()
      ensures Valid() && Init(View())
    {
      registered, closed, handle, st := true, false, true, SharedState(false, false, 0, 0);
      boundTid, lockers := 0, map[];
      threads, closures, native := map[], map[], Native(None, None, map[], false, []);
      new;
      InitInv();
    }

    /** Isolate.check: a thread between operations passes exactly while it owns
        the engine lock of an isolate that exists, and then nobody else does. */
    method Check(t: Word) returns (ok: bool)
      requires Valid() && t != 0 && PcOf(View(), t) == Idle
      ensures ok <==> Holder(View(), t) && !closed
      ensures ok ==> !native.disposed && forall u: Word :: u != t ==> !Holder(View(), u) && !CheckPasses(View(), u)
    {
      AboutWords(View(), t);
      ok := !closed && boundTid == t;
    }

    /** Lock, phase 1. */
    method Validate(t: Word, isolateEntered: bool) returns (v: Verdict)
      requires Valid() && t != 0 && PcOf(View(), t) == Idle
      modifies this
      ensures Valid() && View() == Validated(old(View()), t, isolateEntered)
      ensures PcOf(View(), t) == match v case Refused => Idle case Proceed => LockAcquire case CheckOwner => LockRead
      ensures v == CheckOwner <==> old(registered && !closed && !st.window && st.locked)
      ensures v == Proceed <==>
              && old(registered && !closed)
              && if old(st.window) then old(st.windowOwnerTid) != t else !old(st.locked) && !isolateEntered
    {
      DoesKeepsInv(View(), Validated(View(), t, isolateEntered), t, OnAsk(SharedLock.Validate(isolateEntered)));
      v := Proceed;
      if !registered || closed {
        v := Refused;
      } else if st.window {
        if st.windowOwnerTid == t {
          v := Refused;
        }
      } else if st.locked {
        v := CheckOwner;
      } else if isolateEntered {
        v := Refused;
      }
      threads := Validated(View(), t, isolateEntered).threads;
    }

    /** Lock between phases 1 and 2: the owner word is read without the mutex. The
        caller goes on to the engine exactly if it does not own its lock. */
    method ReadOwner(t: Word) returns (proceed: bool)
      requires Valid() && t != 0 && PcOf(View(), t) == LockRead
      modifies this
      ensures Valid() && View() == OwnerRead(old(View()), t)
      ensures proceed <==> !Holder(View(), t)
      ensures PcOf(View(), t) == if proceed then LockAcquire else Idle
    {
      DoesKeepsInv(View(), OwnerRead(View(), t), t, OnAsk(SharedLock.ReadOwner));
      AboutWords(View(), t);
      proceed := st.ownerTid != t;
      threads := OwnerRead(View(), t).threads;
    }

    /** Lock, phase 3, after the native lock call returned locker l: the caller,
        and nobody else, owns the engine lock; it passes the check unless the
        isolate was closed meanwhile, and may close the locker unless the
        registry has forgotten the isolate. */
    method Publish(t: Word, l: LockerId)
      requires Valid() && t != 0 && PcOf(View(), t) == LockPublish(l)
      modifies this
      ensures Valid() && View() == LockBound(LockPublished(old(View()), t), t)
      ensures Owns(View(), t)
      ensures MayClose(View(), t, l) <==> registered
    {
      ghost var end := LockBound(LockPublished(View(), t), t);
      PublishGivesLock(View(), t);
      st := st.(locked := true, ownerTid := t);
      boundTid := t;
      lockers := lockers[l := Locker(t, false)];
      threads := end.threads;
      assert View() == end;
    }

    /** Locker.Close; nativeOk is the outcome of a native unlock that got a handle. */
    method CloseLocker(t: Word, l: LockerId, nativeOk: bool) returns (ok: bool)
      requires Valid() && t != 0 && PcOf(View(), t) == Idle && l in lockers
      modifies this
      ensures Valid() && View() == Closing(old(View()), t, l, nativeOk)
      ensures ok <==> old(MayClose(View(), t, l)) && old(handle) && nativeOk
      ensures ok ==> Unowned(View())
      ensures !ok ==> native == old(native) && st.locked == old(st.locked) && boundTid == old(boundTid)
      ensures l in lockers
      ensures lockers[l].closed <==> !(old(MayClose(View(), lockers[l].tid, l)) && t != lockers[l].tid)
    {
      ghost var s := View();
      ghost var end := Closing(s, t, l, nativeOk);
      ClosingEffect(s, t, l, nativeOk);
      ClosingWrites(s, t, l, nativeOk);
      threads, native := end.threads, end.native;
      if lockers[l].closed {
        return false;
      }
      var own := lockers[l].tid;
      var holds := registered && !(st.window && st.windowOwnerTid == own) && st.locked && st.ownerTid == own;
      if holds && t != own {
        return false;
      }
      ok := holds && handle && nativeOk;
      lockers := lockers[l := lockers[l].(closed := true)];
      if ok {
        st := st.(locked := false, ownerTid := 0);
        boundTid := 0;
      }
      assert View() == end;
    }

    /** UnlockWindow up to the call of its closure. */
    method OpenWindow(t: Word, l: LockerId, onTop: bool, nativeOk: bool) returns (ok: bool)
      requires Valid() && t != 0 && PcOf(View(), t) == Idle && l in lockers
      modifies this
      ensures Valid() && View() == Opening(old(View()), t, l, onTop, nativeOk)
      ensures ok <==> old(MayOpen(View(), t, l)) && !onTop && old(handle) && nativeOk
      ensures ok ==> Unowned(View())
      ensures !ok ==> native == old(native) && st.locked == old(st.locked) && boundTid == old(boundTid)
    {
      ghost var s := View();
      ghost var end := Opening(s, t, l, onTop, nativeOk);
      OpeningEffect(s, t, l, onTop, nativeOk);
      threads, closures, native := end.threads, end.closures, end.native;
      if lockers[l].closed || !registered || !st.locked || st.ownerTid != lockers[l].tid || st.window {
        return false;
      }
      if t != lockers[l].tid || onTop || !handle || !nativeOk {
        return false;
      }
      st := SharedState(false, true, 0, t);
      boundTid := 0;
      return true;
    }

    /** UnlockWindow after the native reacquire returned: the caller owns the
        engine lock again, alone, passes the check unless the isolate was closed,
        and may close its locker exactly if no Close was tried in the window. */
    method CloseWindow(t: Word)
      requires Valid() && t != 0 && PcOf(View(), t).WindowPublish?
      modifies this
      ensures Valid() && View() == WindowRebound(WindowRepublished(old(View()), t), t)
      ensures Owns(View(), t)
      ensures var l := old(PcOf(View(), t)).l;
              l in lockers && (MayClose(View(), t, l) <==> !lockers[l].closed)
    {
      ghost var end := WindowRebound(WindowRepublished(View(), t), t);
      ReboundGivesLock(View(), t);
      st := SharedState(true, false, t, 0);
      boundTid := t;
      threads := end.threads;
    }

    /** SharedIsolate.Close. */
    method Dispose(t: Word, nativeOk: bool) returns (ok: bool)
      requires Valid() && t != 0 && PcOf(View(), t) == Idle
      modifies this
      ensures Valid() && View() == Disposing(old(View()), t, nativeOk)
      ensures ok <==> old(MayDispose(View())) && nativeOk
      ensures ok ==> native.disposed && forall u: Word, entered: bool :: PcOf(Validated(View(), u, entered), u) == Idle
      ensures !ok ==> native == old(native) && handle == old(handle)
    {
      ghost var end := Disposing(View(), t, nativeOk);
      assert Inv(end) by {
        DisposingRun(View(), t, nativeOk);
        LeadsKeepsInv();
      }
      threads, native := end.threads, end.native;
      if !registered || st.locked || st.window || closed || !nativeOk {
        return false;
      }
      handle := false;
      closed := true;
      registered := false;
      return true;
    }

    /** Isolate.Close, called on the shared isolate by a thread between operations:
        it goes through exactly for the thread that passes the check, and then the
        registry entry says "st.locked" although nobody passes the check any more. */
    method CloseIsolate(t: Word, nativeOk: bool) returns (ok: bool)
      requires Valid() && t != 0 && PcOf(View(), t) == Idle
      modifies this
      ensures Valid() && View() == DirectClosing(old(View()), t, nativeOk)
      ensures ok <==> old(Holder(View(), t)) && !old(closed)
      ensures ok ==> registered && st.locked && st.ownerTid == t && native.holder == old(native.holder)
      ensures ok ==> !MayDispose(View()) && forall u: Word :: !CheckPasses(View(), u)
    {
      ghost var end := DirectClosing(View(), t, nativeOk);
      AboutWords(View(), t);
      assert Inv(end) by {
        DirectClosingRun(View(), t, nativeOk);
        LeadsKeepsInv();
      }
      if boundTid != t || closed {
        return false;
      }
      threads, native := end.threads, end.native;
      handle := false;
      closed := true;
      return true;
    }
  }

  lemma DoesKeepsInv(s: State, s': State, t: Word, op: Op)
    requires Inv(s) && Does(s, s', t, op)
    ensures Inv(s')
  {
    NextKeepsInv();
    assert Next(s, s');
  }

  lemma LeadsKeepsInv()
    ensures forall s, s' :: Inv(s) && Leads(Next, s, s') ==> Inv(s')
  {
    NextKeepsInv();
    forall s, s' | Inv(s) && Leads(Next, s, s') ensures Inv(s') {
      StableThrough(Next, Inv, s, s');
    }
  }

  /** No thread owns the engine lock or passes the check. */
  ghost predicate Unowned(s: State) {
    s.native.holder == None && forall u: Word :: u != 0 ==> !CheckPasses(s, u)
  }

  /** Thread t alone owns the engine lock, and passes the check unless the isolate was closed. */
  ghost predicate Owns(s: State, t: Word) {
    && Holder(s, t) && (CheckPasses(s, t) <==> !s.closed)
    && forall u: Word :: u != t ==> !Holder(s, u) && !CheckPasses(s, u)
  }

  lemma PublishGivesLock(s: State, t: Word)
    requires Inv(s) && t != 0 && PcOf(s, t).LockPublish? && MutexFree(s) && IsoFree(s)
    ensures var s' := LockBound(LockPublished(s, t), t);
            Inv(s') && Owns(s', t) && (MayClose(s', t, PcOf(s, t).l) <==> s'.registered)
  {
    assert ThreadInv(s, t);
    var s1 := LockPublished(s, t);
    DoesKeepsInv(s, s1, t, OnGrant(Publish));
    DoesKeepsInv(s1, LockBound(s1, t), t, OnGrant(Bind));
  }

  lemma ReboundGivesLock(s: State, t: Word)
    requires Inv(s) && t != 0 && PcOf(s, t).WindowPublish? && MutexFree(s) && IsoFree(s)
    ensures var s', l := WindowRebound(WindowRepublished(s, t), t), PcOf(s, t).l;
            Inv(s') && Owns(s', t) && l in s'.lockers && (MayClose(s', t, l) <==> !s'.lockers[l].closed)
  {
    assert ThreadInv(s, t) && SuspendedInv(s, t) && LockerInv(s, PcOf(s, t).l);
    var s1 := WindowRepublished(s, t);
    DoesKeepsInv(s, s1, t, OnResume(Republish));
    DoesKeepsInv(s1, WindowRebound(s1, t), t, OnResume(Rebind));
  }

  // ------------------------------------------------- operations from entry to return

  /** Locker.Close. */
  ghost function Closing(s: State, t: Word, l: LockerId, ok: bool): State
    requires l in s.lockers
  {
    var may := MayClose(s, t, l);
    var done := may && s.handle && ok;
    At(s, t, Idle).(
      lockers := if !may && MayClose(s, s.lockers[l].tid, l) then s.lockers else MarkClosed(s.lockers, l),
      st := s.st.(locked := s.st.locked && !done, ownerTid := if done then 0 else s.st.ownerTid),
      boundTid := if done then 0 else s.boundTid,
      native := if done then Emit(s.native, Released(l)).(holder := None) else s.native)
  }

  /** UnlockWindow up to the call of its closure. */
  ghost function Opening(s: State, t: Word, l: LockerId, onTop: bool, ok: bool): State {
    var done := MayOpen(s, t, l) && !onTop && s.handle && ok;
    At(s, t, Idle).(
      st := if done then SharedState(false, true, 0, t) else s.st,
      boundTid := if done then 0 else s.boundTid,
      closures := if done then s.closures[t := l] else s.closures,
      native := if done then Emit(s.native, WindowOpened(l)).(holder := None, window := Some(l)) else s.native)
  }

  /** SharedIsolate.Close. */
  ghost function Disposing(s: State, t: Word, ok: bool): State {
    var done := MayDispose(s) && ok;
    At(s, t, Idle).(
      closed := s.closed || done,
      handle := s.handle && !done,
      registered := s.registered && !done,
      native := if done then Emit(s.native, Disposed(false)).(disposed := true) else s.native)
  }

  /** Isolate.Close. */
  ghost function DirectClosing(s: State, t: Word, ok: bool): State {
    if !CheckPasses(s, t) then s
    else
      At(s, t, Idle).(
        closed := true, handle := false,
        native := if ok then Emit(s.native, Disposed(true)).(disposed := true) else s.native)
  }

  /** What Locker.Close writes, case by case. */
  lemma ClosingWrites(s: State, t: Word, l: LockerId, ok: bool)
    requires l in s.lockers
    ensures var s', own := Closing(s, t, l, ok), s.lockers[l].tid;
            && (s.lockers[l].closed || (MayClose(s, own, l) && t != own) ==> s' == At(s, t, Idle))
            && (!s.lockers[l].closed && !(MayClose(s, own, l) && t != own) ==>
                  && s'.lockers == s.lockers[l := s.lockers[l].(closed := true)]
                  && (MayClose(s, own, l) && s.handle && ok ==>
                        s'.st == s.st.(locked := false, ownerTid := 0) && s'.boundTid == 0)
                  && (!(MayClose(s, own, l) && s.handle && ok) ==> s'.st == s.st && s'.boundTid == s.boundTid))
            && s' == s.(threads := s'.threads, lockers := s'.lockers, st := s'.st, boundTid := s'.boundTid,
                        native := s'.native)
  {
    assert s.lockers[l].closed ==> MarkClosed(s.lockers, l) == s.lockers;
  }

  /** Each of them is what the steps of the transition system do one after the other. */
  lemma ClosingRun(s: State, t: Word, l: LockerId, ok: bool)
    requires t != 0 && PcOf(s, t) == Idle && MutexFree(s) && IsoFree(s) && l in s.lockers
    ensures Leads(Next, s, Closing(s, t, l, ok))
  {
    assert s.lockers[l].closed ==> MarkClosed(s.lockers, l) == s.lockers;
    if MayClose(s, t, l) {
      ReleaseRun(s, t, l, s.handle && ok);
    } else {
      assert Does(s, CloseEntered(s, t, l), t, OnClose(EnterClose(l)));
      assert CloseEntered(s, t, l) == Closing(s, t, l, ok);
      Along(Next, [s, Closing(s, t, l, ok)]);
    }
  }

  lemma ReleaseRun(s: State, t: Word, l: LockerId, ok: bool)
    requires t != 0 && PcOf(s, t) == Idle && MutexFree(s) && IsoFree(s) && MayClose(s, t, l) && (ok ==> s.handle)
    ensures Leads(Next, s, Closing(s, t, l, ok))
  {
    var s1 := CloseEntered(s, t, l);
    assert Does(s, s1, t, OnClose(EnterClose(l)));
    var s2 := CloseReleased(s1, t, ok);
    assert Does(s1, s2, t, OnClose(Release(ok)));
    Along(Next, [s, s1, s2]);
    var end := if ok then CloseUnbound(CloseCleared(s2, t), t) else s2;
    if ok {
      UnlockSteps(s2, t);
      Through(Next, s, s2, end);
    }
    assert end == Closing(s, t, l, ok);
  }

  /** The end of Locker.Close, after the native unlock. */
  lemma UnlockSteps(s: State, t: Word)
    requires t != 0 && PcOf(s, t).CloseClear? && IsoFree(s)
    ensures Leads(Next, s, CloseUnbound(CloseCleared(s, t), t))
  {
    var s1 := CloseCleared(s, t);
    assert Does(s, s1, t, OnClose(Clear));
    assert Does(s1, CloseUnbound(s1, t), t, OnClose(Unbind));
    Along(Next, [s, s1, CloseUnbound(s1, t)]);
  }

  lemma OpeningRun(s: State, t: Word, l: LockerId, onTop: bool, ok: bool)
    requires t != 0 && PcOf(s, t) == Idle && MutexFree(s) && IsoFree(s) && l in s.lockers
    ensures Leads(Next, s, Opening(s, t, l, onTop, ok))
  {
    if MayOpen(s, t, l) && !onTop {
      SuspendRun(s, t, l, s.handle && ok);
    } else {
      assert Does(s, WindowEntered(s, t, l, onTop), t, OnOpen(EnterWindow(l, onTop)));
      assert WindowEntered(s, t, l, onTop) == Opening(s, t, l, onTop, ok);
      Along(Next, [s, Opening(s, t, l, onTop, ok)]);
    }
  }

  lemma SuspendRun(s: State, t: Word, l: LockerId, ok: bool)
    requires t != 0 && PcOf(s, t) == Idle && MutexFree(s) && IsoFree(s) && MayOpen(s, t, l) && (ok ==> s.handle)
    ensures Leads(Next, s, Opening(s, t, l, false, ok))
  {
    var s1 := WindowEntered(s, t, l, false);
    assert Does(s, s1, t, OnOpen(EnterWindow(l, false)));
    var s2 := WindowReleased(s1, t, ok);
    assert Does(s1, s2, t, OnOpen(ReleaseForWindow(ok)));
    Along(Next, [s, s1, s2]);
    var end := if ok then WindowUnbound(WindowMarked(s2, t), t) else s2;
    if ok {
      SuspendSteps(s2, t);
      Through(Next, s, s2, end);
    }
    assert end == Opening(s, t, l, false, ok);
  }

  /** The end of a window opening, after the native release. */
  lemma SuspendSteps(s: State, t: Word)
    requires t != 0 && PcOf(s, t).WindowMark? && IsoFree(s)
    ensures Leads(Next, s, WindowUnbound(WindowMarked(s, t), t))
  {
    var s1 := WindowMarked(s, t);
    assert Does(s, s1, t, OnOpen(Mark));
    assert Does(s1, WindowUnbound(s1, t), t, OnOpen(UnbindForWindow));
    Along(Next, [s, s1, WindowUnbound(s1, t)]);
  }

  lemma DisposingRun(s: State, t: Word, ok: bool)
    requires t != 0 && PcOf(s, t) == Idle && MutexFree(s) && IsoFree(s)
    ensures Leads(Next, s, Disposing(s, t, ok))
  {
    var s1 := DisposeEntered(s, t);
    assert Does(s, s1, t, OnDispose(EnterDispose));
    Along(Next, [s, s1]);
    if MayDispose(s) {
      DisposeSteps(s1, t, ok);
      var end := if ok then DisposeCleared(DisposeDone(s1, t, true), t) else DisposeDone(s1, t, false);
      Through(Next, s, s1, end);
      assert end == Disposing(s, t, ok);
    } else {
      assert s1 == Disposing(s, t, ok);
    }
  }

  /** SharedIsolate.Close from its native call. */
  lemma DisposeSteps(s: State, t: Word, ok: bool)
    requires t != 0 && PcOf(s, t) == DisposeNative && IsoFree(s)
    ensures Leads(Next, s, if ok then DisposeCleared(DisposeDone(s, t, true), t) else DisposeDone(s, t, false))
  {
    var s1 := DisposeDone(s, t, ok);
    assert Does(s, s1, t, OnDispose(NativeDispose(ok)));
    if ok {
      assert Does(s1, DisposeCleared(s1, t), t, OnDispose(ClearRegistry));
      Along(Next, [s, s1, DisposeCleared(s1, t)]);
    } else {
      Along(Next, [s, s1]);
    }
  }

  lemma DirectClosingRun(s: State, t: Word, ok: bool)
    requires t != 0 && PcOf(s, t) == Idle && IsoFree(s)
    ensures Leads(Next, s, DirectClosing(s, t, ok))
  {
    if CheckPasses(s, t) {
      DirectRun(s, t, ok);
      var s1 := DirectlyDisposed(s, t, ok);
      assert Does(s1, DirectCleared(s1, t), t, OnDirect(ClearIsolate));
      Along(Next, [s1, DirectCleared(s1, t)]);
      Through(Next, s, s1, DirectCleared(s1, t));
      assert DirectCleared(s1, t) == DirectClosing(s, t, ok);
    } else {
      Along(Next, [s]);
    }
  }

  lemma ClosingEffect(s: State, t: Word, l: LockerId, ok: bool)
    requires Inv(s) && t != 0 && PcOf(s, t) == Idle && MutexFree(s) && IsoFree(s) && l in s.lockers
    ensures var s' := Closing(s, t, l, ok);
            && Inv(s') && (MayClose(s, t, l) && s.handle && ok ==> Unowned(s'))
            && l in s'.lockers
            && (s'.lockers[l].closed <==> !(MayClose(s, s.lockers[l].tid, l) && t != s.lockers[l].tid))
  {
    ClosingRun(s, t, l, ok);
    LeadsKeepsInv();
  }

  lemma OpeningEffect(s: State, t: Word, l: LockerId, onTop: bool, ok: bool)
    requires Inv(s) && t != 0 && PcOf(s, t) == Idle && MutexFree(s) && IsoFree(s) && l in s.lockers
    ensures var s' := Opening(s, t, l, onTop, ok);
            Inv(s') && (MayOpen(s, t, l) && !onTop && s.handle && ok ==> Unowned(s'))
  {
    OpeningRun(s, t, l, onTop, ok);
    LeadsKeepsInv();
  }

  // ------------------------------------------------------------ round trips

  /** Lock followed by Close gives the isolate back as it was: in between the
      thread, and no other, passes the check and may close; afterwards the words
      and the engine lock are as before and the locker is spent. */
  lemma LockCloseRoundTrip(s: State, t: Word, u: Word, l: LockerId)
    requires Inv(s) && MayLock(s, t, l) && !s.st.window
    ensures var locked, s' := LockedBy(s, t, l), Closing(LockedBy(s, t, l), t, l, true);
            && Leads(Next, s, locked) && Leads(Next, locked, s')
            && CheckPasses(locked, t) && Holder(locked, t) && MayClose(locked, t, l)
            && (u != t ==> !CheckPasses(locked, u))
            && s' == s.(threads := s.threads[t := Idle], lockers := s.lockers[l := Locker(t, true)],
                        native := s.native.(used := s.native.used[l := t],
                                            log := s.native.log + [Asked(t), Acquired(l), Released(l)]))
            && !MayClose(s', u, l)
  {
    AboutWords(s, s.boundTid);
    var locked := LockedBy(s, t, l);
    LockRun(s, t, l);
    ClosingRun(locked, t, l, true);
    var s' := Closing(locked, t, l, true);
    assert s'.native.log == s.native.log + [Asked(t), Acquired(l), Released(l)];
  }

  /** The state after the window of thread t was left and closed. */
  function Reopened(s: State, t: Word, l: LockerId): State {
    s.(threads := s.threads[t := Idle], closures := s.closures - {t}, st := SharedState(true, false, t, 0),
       boundTid := t,
       native := s.native.(holder := Some(l), window := None, log := s.native.log + [Resumed(t), WindowClosed(l)]))
  }

  /** The end of UnlockWindow, from the return of its closure. */
  lemma ReopenRun(s: State, t: Word, l: LockerId)
    requires t != 0 && PcOf(s, t) == Idle && MutexFree(s) && IsoFree(s) && s.native.holder == None
    requires t in s.closures && s.closures[t] == l
    ensures Leads(Next, s, Reopened(s, t, l))
  {
    var s1 := WindowReturned(s, t, false);
    assert Does(s, s1, t, OnResume(Return(false)));
    var s2 := WindowReacquired(s1, t, true);
    assert Does(s1, s2, t, OnResume(Reacquire(true)));
    Along(Next, [s, s1, s2]);
    RebindSteps(s2, t);
    Through(Next, s, s2, WindowRebound(WindowRepublished(s2, t), t));
    assert WindowRebound(WindowRepublished(s2, t), t) == Reopened(s, t, l) by {
      assert s2.native.log == s.native.log + [Resumed(t), WindowClosed(l)];
    }
  }

  lemma RebindSteps(s: State, t: Word)
    requires t != 0 && PcOf(s, t).WindowPublish? && MutexFree(s) && IsoFree(s)
    ensures Leads(Next, s, WindowRebound(WindowRepublished(s, t), t))
  {
    var s1 := WindowRepublished(s, t);
    assert Does(s, s1, t, OnResume(Republish));
    assert Does(s1, WindowRebound(s1, t), t, OnResume(Rebind));
    Along(Next, [s, s1, WindowRebound(s1, t)]);
  }

  /** A window that nobody uses gives the lock back unchanged, and while it is
      open no thread passes the check. */
  lemma WindowRoundTrip(s: State, t: Word, u: Word, l: LockerId)
    requires Inv(s) && t != 0 && PcOf(s, t) == Idle && MutexFree(s) && IsoFree(s) && MayOpen(s, t, l) && s.handle
    requires s.st.windowOwnerTid == 0
    ensures var during := Opening(s, t, l, false, true);
            var s' := Reopened(during, t, l);
            && Leads(Next, s, during) && Leads(Next, during, s') && (u != 0 ==> !CheckPasses(during, u))
            && s' == s.(threads := s.threads[t := Idle],
                        native := s.native.(log := s.native.log + [WindowOpened(l), Resumed(t), WindowClosed(l)]))
  {
    AboutWords(s, t);
    assert LockerInv(s, l);
    OpeningRun(s, t, l, false, true);
    var during := Opening(s, t, l, false, true);
    ReopenRun(during, t, l);
    var s' := Reopened(during, t, l);
    assert s'.closures == s.closures && s'.native.log == s.native.log + [WindowOpened(l), Resumed(t), WindowClosed(l)];
  }
}
