/**
 Every step of the shared-lock protocol keeps the invariant, shown operation by
 operation, and what no step of any operation can undo.
 */
module SharedLockSteps {
  import opened Wrappers
  import opened SharedLock

  lemma EmitPhase(log: seq<NativeEvent>, e: NativeEvent, l: LockerId)
    ensures PhaseOf(log + [e], l) == if About(e, l) then After(PhaseOf(log, l), e) else PhaseOf(log, l)
  {
    assert (log + [e])[..|log + [e]| - 1] == log;
  }

  /** The threads that the shared words and native words name. */
  lemma AboutWords(s: State, t: Word)
    requires Inv(s)
    ensures ThreadInv(s, t) && ThreadInv(s, 0) && ThreadInv(s, s.mu) && ThreadInv(s, s.isoMu)
    ensures ThreadInv(s, s.st.ownerTid) && ThreadInv(s, s.boundTid)
    ensures SuspendedInv(s, t) && SuspendedInv(s, s.mu) && SuspendedInv(s, s.isoMu)
    ensures s.native.window.Some? ==> ThreadInv(s, s.native.used[s.native.window.value])
    ensures s.native.holder.Some? ==> ThreadInv(s, s.native.used[s.native.holder.value])
  {
  }

  /** What call e changes in the engine. */
  predicate EngineStep(n: Native, n': Native, e: NativeEvent) {
    n'.log == n.log + [e] &&
    match e
    case Acquired(l) =>
      n.holder == None && n.window == n'.window && l !in n.used &&
      n'.holder == Some(l) && l in n'.used && n'.used == n.used[l := n'.used[l]]
    case Released(l) => n.holder == Some(l) && n'.holder == None && n'.window == n.window && n'.used == n.used
    case WindowOpened(l) =>
      n.holder == Some(l) && n.window == None && n'.holder == None && n'.window == Some(l) && n'.used == n.used
    case WindowClosed(l) =>
      n.window == Some(l) && n.holder == None && n'.holder == Some(l) && n'.window == None && n'.used == n.used
    case _ => n'.holder == n.holder && n'.window == n.window && n'.used == n.used
  }

  lemma EngineKeepsHistory(n: Native, n': Native, e: NativeEvent, l: LockerId)
    requires EngineStep(n, n', e) && PhaseOf(n.log, l) == ExpectedPhase(n, l)
    requires n.holder.Some? ==> n.holder.value in n.used && n.window != n.holder
    requires n.window.Some? ==> n.window.value in n.used
    ensures PhaseOf(n'.log, l) == ExpectedPhase(n', l)
  {
    EmitPhase(n.log, e, l);
  }

  lemma AskKeepsOwner(s: State, s': State, t: Word, op: AskOp)
    requires Inv(s) && t != 0 && AskStep(s, s', t, op)
    ensures OwnerInv(s')
  {
    AboutWords(s, t);
  }

  lemma AskKeepsWords(s: State, s': State, t: Word, op: AskOp)
    requires Inv(s) && t != 0 && AskStep(s, s', t, op)
    ensures BindingInv(s') && WindowInv(s') && DisposeInv(s')
  {
    AboutWords(s, t);
  }

  lemma AskKeepsThreads(s: State, s': State, t: Word, op: AskOp)
    requires Inv(s) && t != 0 && AskStep(s, s', t, op)
    ensures forall u: Word :: ThreadInv(s', u)
  {
    assert ThreadInv(s, t);
    forall u: Word ensures ThreadInv(s', u) {
      assert ThreadInv(s, u);
    }
  }

  lemma AskKeepsSuspended(s: State, s': State, t: Word, op: AskOp)
    requires Inv(s) && t != 0 && AskStep(s, s', t, op)
    ensures forall u: Word :: SuspendedInv(s', u)
  {
    assert ThreadInv(s, t) && SuspendedInv(s, t);
    forall u: Word ensures SuspendedInv(s', u) {
      assert ThreadInv(s, u) && SuspendedInv(s, u);
    }
  }

  lemma AskKeepsLockers(s: State, s': State, t: Word, op: AskOp)
    requires Inv(s) && t != 0 && AskStep(s, s', t, op)
    ensures forall l: LockerId :: LockerInv(s', l)
    ensures forall l: LockerId :: HistoryInv(s', l)
  {
    assert ThreadInv(s, t);
    forall l: LockerId ensures LockerInv(s', l) {
      assert LockerInv(s, l);
    }
    forall l: LockerId ensures HistoryInv(s', l) {
      assert HistoryInv(s, l);
      if op.Call? && s.handle {
        EngineKeepsHistory(s.native, s'.native, Asked(t), l);
      }
    }
  }

  lemma GrantKeepsOwner(s: State, s': State, t: Word, op: GrantOp)
    requires Inv(s) && t != 0 && GrantStep(s, s', t, op)
    ensures OwnerInv(s')
  {
    AboutWords(s, t);
  }

  lemma GrantKeepsWords(s: State, s': State, t: Word, op: GrantOp)
    requires Inv(s) && t != 0 && GrantStep(s, s', t, op)
    ensures BindingInv(s') && WindowInv(s') && DisposeInv(s')
  {
    AboutWords(s, t);
  }

  lemma GrantKeepsOthers(s: State, s': State, t: Word, op: GrantOp)
    requires Inv(s) && t != 0 && GrantStep(s, s', t, op)
    ensures forall u: Word :: u != t ==> ThreadInv(s', u)
  {
    assert ThreadInv(s, t) && ThreadInv(s, s.st.ownerTid);
    assert op.Acquire? ==> LockerInv(s, op.l);
    forall u: Word | u != t ensures ThreadInv(s', u) {
      assert ThreadInv(s, u);
    }
  }

  lemma GrantKeepsOwn(s: State, s': State, t: Word, op: GrantOp)
    requires Inv(s) && t != 0 && GrantStep(s, s', t, op)
    ensures ThreadInv(s', t)
  {
    assert ThreadInv(s, t) && ThreadInv(s, s.st.ownerTid);
    assert op.Acquire? ==> LockerInv(s, op.l);
  }

  lemma GrantKeepsSuspended(s: State, s': State, t: Word, op: GrantOp)
    requires Inv(s) && t != 0 && GrantStep(s, s', t, op)
    ensures forall u: Word :: SuspendedInv(s', u)
  {
    assert ThreadInv(s, t) && SuspendedInv(s, t);
    forall u: Word ensures SuspendedInv(s', u) {
      assert ThreadInv(s, u) && SuspendedInv(s, u);
    }
  }

  lemma GrantKeepsLockers(s: State, s': State, t: Word, op: GrantOp)
    requires Inv(s) && t != 0 && GrantStep(s, s', t, op)
    ensures forall l: LockerId :: LockerInv(s', l)
    ensures forall l: LockerId :: HistoryInv(s', l)
  {
    assert ThreadInv(s, t);
    forall l: LockerId ensures LockerInv(s', l) {
      assert LockerInv(s, l);
    }
    forall l: LockerId ensures HistoryInv(s', l) {
      assert HistoryInv(s, l);
      if op.Acquire? && op.ok {
        EngineKeepsHistory(s.native, s'.native, Acquired(op.l), l);
      }
    }
  }

  lemma CloseKeepsOwner(s: State, s': State, t: Word, op: CloseOp)
    requires Inv(s) && t != 0 && CloseStep(s, s', t, op)
    ensures OwnerInv(s')
  {
    AboutWords(s, t);
    assert op.EnterClose? ==> LockerInv(s, op.l);
  }

  lemma CloseKeepsWords(s: State, s': State, t: Word, op: CloseOp)
    requires Inv(s) && t != 0 && CloseStep(s, s', t, op)
    ensures BindingInv(s') && WindowInv(s') && DisposeInv(s')
  {
    AboutWords(s, t);
    assert op.EnterClose? ==> LockerInv(s, op.l);
  }

  lemma CloseKeepsOthers(s: State, s': State, t: Word, op: CloseOp)
    requires Inv(s) && t != 0 && CloseStep(s, s', t, op)
    ensures forall u: Word :: u != t ==> ThreadInv(s', u)
  {
    assert ThreadInv(s, t);
    assert op.EnterClose? ==> LockerInv(s, op.l);
    forall u: Word | u != t ensures ThreadInv(s', u) {
      assert ThreadInv(s, u);
    }
  }

  lemma CloseKeepsOwn(s: State, s': State, t: Word, op: CloseOp)
    requires t != 0 && CloseStep(s, s', t, op) && ThreadInv(s, t) && (op.EnterClose? ==> LockerInv(s, op.l))
    requires OwnerInv(s) && BindingInv(s) && WindowInv(s) && DisposeInv(s)
    ensures ThreadInv(s', t)
  {
  }

  lemma CloseKeepsSuspended(s: State, s': State, t: Word, op: CloseOp)
    requires Inv(s) && t != 0 && CloseStep(s, s', t, op)
    ensures forall u: Word :: SuspendedInv(s', u)
  {
    assert ThreadInv(s, t) && SuspendedInv(s, t);
    forall u: Word ensures SuspendedInv(s', u) {
      assert ThreadInv(s, u) && SuspendedInv(s, u);
    }
  }

  lemma CloseKeepsLockers(s: State, s': State, t: Word, op: CloseOp)
    requires Inv(s) && t != 0 && CloseStep(s, s', t, op)
    ensures forall l: LockerId :: LockerInv(s', l)
    ensures forall l: LockerId :: HistoryInv(s', l)
  {
    assert ThreadInv(s, t);
    forall l: LockerId ensures LockerInv(s', l) {
      assert LockerInv(s, l);
    }
    forall l: LockerId ensures HistoryInv(s', l) {
      assert HistoryInv(s, l);
      if op.Release? && op.ok {
        EngineKeepsHistory(s.native, s'.native, Released(PcOf(s, t).l), l);
      }
    }
  }

  lemma OpenKeepsWords(s: State, s': State, t: Word, op: OpenOp)
    requires Inv(s) && t != 0 && OpenStep(s, s', t, op)
    ensures OwnerInv(s') && BindingInv(s') && WindowInv(s') && DisposeInv(s')
  {
    AboutWords(s, t);
    assert op.EnterWindow? ==> LockerInv(s, op.l);
  }

  lemma OpenKeepsThreads(s: State, s': State, t: Word, op: OpenOp)
    requires Inv(s) && t != 0 && OpenStep(s, s', t, op)
    ensures forall u: Word :: ThreadInv(s', u)
  {
    assert ThreadInv(s, t);
    assert op.EnterWindow? ==> LockerInv(s, op.l);
    forall u: Word ensures ThreadInv(s', u) {
      assert ThreadInv(s, u);
    }
  }

  lemma OpenKeepsSuspended(s: State, s': State, t: Word, op: OpenOp)
    requires Inv(s) && t != 0 && OpenStep(s, s', t, op)
    ensures forall u: Word :: SuspendedInv(s', u)
  {
    assert ThreadInv(s, t) && SuspendedInv(s, t);
    assert s.native.window.Some? ==> ThreadInv(s, s.native.used[s.native.window.value]);
    forall u: Word ensures SuspendedInv(s', u) {
      assert ThreadInv(s, u) && SuspendedInv(s, u);
    }
  }

  lemma OpenKeepsLockers(s: State, s': State, t: Word, op: OpenOp)
    requires Inv(s) && t != 0 && OpenStep(s, s', t, op)
    ensures forall l: LockerId :: LockerInv(s', l)
    ensures forall l: LockerId :: HistoryInv(s', l)
  {
    assert ThreadInv(s, t) && SuspendedInv(s, t);
    forall l: LockerId ensures LockerInv(s', l) {
      assert LockerInv(s, l);
    }
    forall l: LockerId ensures HistoryInv(s', l) {
      assert HistoryInv(s, l);
      if op.ReleaseForWindow? && op.ok {
        EngineKeepsHistory(s.native, s'.native, WindowOpened(PcOf(s, t).l), l);
      }
    }
  }

  lemma ResumeKeepsOwner(s: State, s': State, t: Word, op: ResumeOp)
    requires Inv(s) && t != 0 && ResumeStep(s, s', t, op)
    ensures OwnerInv(s')
  {
    AboutWords(s, t);
  }

  lemma ResumeKeepsWords(s: State, s': State, t: Word, op: ResumeOp)
    requires Inv(s) && t != 0 && ResumeStep(s, s', t, op)
    ensures BindingInv(s') && WindowInv(s') && DisposeInv(s')
  {
    AboutWords(s, t);
  }

  lemma ResumeKeepsOthers(s: State, s': State, t: Word, op: ResumeOp)
    requires Inv(s) && t != 0 && ResumeStep(s, s', t, op)
    ensures forall u: Word :: u != t ==> ThreadInv(s', u)
  {
    assert ThreadInv(s, t) && SuspendedInv(s, t);
    forall u: Word | u != t ensures ThreadInv(s', u) {
      assert ThreadInv(s, u);
    }
  }

  lemma ResumeKeepsThreads(s: State, s': State, t: Word, op: ResumeOp)
    requires Inv(s) && t != 0 && ResumeStep(s, s', t, op)
    ensures forall u: Word :: ThreadInv(s', u)
  {
    ResumeKeepsOthers(s, s', t, op);
    assert ThreadInv(s, t) && SuspendedInv(s, t);
    assert ThreadInv(s', t);
  }

  lemma ResumeKeepsSuspended(s: State, s': State, t: Word, op: ResumeOp)
    requires Inv(s) && t != 0 && ResumeStep(s, s', t, op)
    ensures forall u: Word :: SuspendedInv(s', u)
  {
    assert ThreadInv(s, t) && SuspendedInv(s, t);
    forall u: Word ensures SuspendedInv(s', u) {
      assert ThreadInv(s, u) && SuspendedInv(s, u);
    }
  }

  lemma ResumeKeepsLockers(s: State, s': State, t: Word, op: ResumeOp)
    requires Inv(s) && t != 0 && ResumeStep(s, s', t, op)
    ensures forall l: LockerId :: LockerInv(s', l)
    ensures forall l: LockerId :: HistoryInv(s', l)
  {
    assert SuspendedInv(s, t);
    forall l: LockerId ensures LockerInv(s', l) {
      assert LockerInv(s, l);
    }
    forall l: LockerId ensures HistoryInv(s', l) {
      assert HistoryInv(s, l);
      if op == Return(false) {
        EngineKeepsHistory(s.native, s'.native, Resumed(t), l);
      } else if op == Reacquire(true) {
        EngineKeepsHistory(s.native, s'.native, WindowClosed(PcOf(s, t).l), l);
      }
    }
  }

  lemma DisposeKeepsWords(s: State, s': State, t: Word, op: DisposeOp)
    requires Inv(s) && t != 0 && DisposeStep(s, s', t, op)
    ensures OwnerInv(s') && BindingInv(s') && WindowInv(s') && DisposeInv(s')
  {
    AboutWords(s, t);
  }

  lemma DisposeKeepsThreads(s: State, s': State, t: Word, op: DisposeOp)
    requires Inv(s) && t != 0 && DisposeStep(s, s', t, op)
    ensures forall u: Word :: ThreadInv(s', u)
  {
    assert ThreadInv(s, t);
    forall u: Word ensures ThreadInv(s', u) {
      assert ThreadInv(s, u);
    }
  }

  lemma DisposeKeepsSuspended(s: State, s': State, t: Word, op: DisposeOp)
    requires Inv(s) && t != 0 && DisposeStep(s, s', t, op)
    ensures forall u: Word :: SuspendedInv(s', u)
  {
    assert ThreadInv(s, t) && SuspendedInv(s, t);
    assert s.native.window.Some? ==> ThreadInv(s, s.native.used[s.native.window.value]);
    forall u: Word ensures SuspendedInv(s', u) {
      assert ThreadInv(s, u) && SuspendedInv(s, u);
    }
  }

  lemma DisposeKeepsLockers(s: State, s': State, t: Word, op: DisposeOp)
    requires Inv(s) && t != 0 && DisposeStep(s, s', t, op)
    ensures forall l: LockerId :: LockerInv(s', l)
    ensures forall l: LockerId :: HistoryInv(s', l)
  {
    assert ThreadInv(s, t);
    forall l: LockerId ensures LockerInv(s', l) {
      assert LockerInv(s, l);
    }
    forall l: LockerId ensures HistoryInv(s', l) {
      assert HistoryInv(s, l);
      if op.NativeDispose? && op.ok {
        EngineKeepsHistory(s.native, s'.native, Disposed(false), l);
      }
    }
  }

  lemma DirectKeepsWords(s: State, s': State, t: Word, op: DirectOp)
    requires Inv(s) && t != 0 && DirectStep(s, s', t, op)
    ensures OwnerInv(s') && BindingInv(s') && WindowInv(s') && DisposeInv(s')
  {
    AboutWords(s, t);
  }

  lemma DirectKeepsThreads(s: State, s': State, t: Word, op: DirectOp)
    requires Inv(s) && t != 0 && DirectStep(s, s', t, op)
    ensures forall u: Word :: ThreadInv(s', u)
  {
    assert ThreadInv(s, t) && ThreadInv(s, s.st.ownerTid);
    forall u: Word ensures ThreadInv(s', u) {
      assert ThreadInv(s, u);
    }
  }

  lemma DirectKeepsSuspended(s: State, s': State, t: Word, op: DirectOp)
    requires Inv(s) && t != 0 && DirectStep(s, s', t, op)
    ensures forall u: Word :: SuspendedInv(s', u)
  {
    AboutWords(s, t);
    forall u: Word ensures SuspendedInv(s', u) {
      assert ThreadInv(s, u) && SuspendedInv(s, u);
    }
  }

  lemma DirectKeepsLockers(s: State, s': State, t: Word, op: DirectOp)
    requires Inv(s) && t != 0 && DirectStep(s, s', t, op)
    ensures forall l: LockerId :: LockerInv(s', l)
    ensures forall l: LockerId :: HistoryInv(s', l)
  {
    assert ThreadInv(s, t);
    forall l: LockerId ensures LockerInv(s', l) {
      assert LockerInv(s, l);
    }
    forall l: LockerId ensures HistoryInv(s', l) {
      assert HistoryInv(s, l);
      if op.DirectDispose? && op.ok {
        EngineKeepsHistory(s.native, s'.native, Disposed(true), l);
      }
    }
  }

  lemma AskMoves(s: State, s': State, t: Word, op: AskOp)
    requires t != 0 && AskStep(s, s', t, op)
    ensures Forward(s, s', t)
    ensures s'.native.disposed == s.native.disposed
  {
  }

  lemma GrantMoves(s: State, s': State, t: Word, op: GrantOp)
    requires t != 0 && GrantStep(s, s', t, op)
    ensures Forward(s, s', t) && !Locking(PcOf(s', t))
    ensures s'.native.disposed == s.native.disposed
  {
  }

  lemma CloseMoves(s: State, s': State, t: Word, op: CloseOp)
    requires t != 0 && CloseStep(s, s', t, op)
    ensures Forward(s, s', t) && !Locking(PcOf(s', t))
    ensures s'.native.disposed == s.native.disposed
  {
  }

  lemma OpenMoves(s: State, s': State, t: Word, op: OpenOp)
    requires t != 0 && OpenStep(s, s', t, op)
    ensures Forward(s, s', t) && !Locking(PcOf(s', t))
    ensures s'.native.disposed == s.native.disposed
  {
  }

  lemma ResumeMoves(s: State, s': State, t: Word, op: ResumeOp)
    requires t != 0 && ResumeStep(s, s', t, op)
    ensures Forward(s, s', t) && !Locking(PcOf(s', t))
    ensures s'.native.disposed == s.native.disposed
  {
  }

  lemma DisposeMoves(s: State, s': State, t: Word, op: DisposeOp)
    requires t != 0 && DisposeStep(s, s', t, op)
    ensures Forward(s, s', t) && !Locking(PcOf(s', t))
    ensures s'.native.disposed != s.native.disposed ==> PcOf(s, t) == DisposeNative
  {
  }

  lemma DirectMoves(s: State, s': State, t: Word, op: DirectOp)
    requires t != 0 && DirectStep(s, s', t, op)
    ensures Forward(s, s', t) && !Locking(PcOf(s', t))
    ensures s'.native.disposed != s.native.disposed ==> PcOf(s, t) == DirectNative
  {
  }

  lemma Moves(s: State, s': State, t: Word, op: Op)
    requires Does(s, s', t, op)
    ensures Forward(s, s', t) && (!op.OnAsk? ==> !Locking(PcOf(s', t)))
    ensures s'.native.disposed != s.native.disposed ==>
              (op.OnDispose? && PcOf(s, t) == DisposeNative) || (op.OnDirect? && PcOf(s, t) == DirectNative)
  {
    match op
    case OnAsk(a) => AskMoves(s, s', t, a);
    case OnGrant(g) => GrantMoves(s, s', t, g);
    case OnClose(c) => CloseMoves(s, s', t, c);
    case OnOpen(o) => OpenMoves(s, s', t, o);
    case OnResume(r) => ResumeMoves(s, s', t, r);
    case OnDispose(d) => DisposeMoves(s, s', t, d);
    case OnDirect(i) => DirectMoves(s, s', t, i);
  }

  lemma InitInv()
    ensures forall s :: Init(s) ==> Inv(s)
  {
    forall s | Init(s) ensures Inv(s) {
      forall t: Word ensures ThreadInv(s, t) && SuspendedInv(s, t) {
      }
    }
  }

  lemma NextKeepsInv()
    ensures forall s, s' :: Inv(s) && Next(s, s') ==> Inv(s')
  {
    forall s, s' | Inv(s) && Next(s, s') ensures Inv(s') {
      var t, op :| Does(s, s', t, op);
      match op
      case OnAsk(a) =>
        AskKeepsOwner(s, s', t, a);
        AskKeepsWords(s, s', t, a);
        AskKeepsThreads(s, s', t, a);
        AskKeepsSuspended(s, s', t, a);
        AskKeepsLockers(s, s', t, a);
      case OnGrant(g) =>
        GrantKeepsOwner(s, s', t, g);
        GrantKeepsWords(s, s', t, g);
        GrantKeepsOthers(s, s', t, g);
        GrantKeepsOwn(s, s', t, g);
        GrantKeepsSuspended(s, s', t, g);
        GrantKeepsLockers(s, s', t, g);
      case OnClose(c) =>
        CloseKeepsOwner(s, s', t, c);
        CloseKeepsWords(s, s', t, c);
        CloseKeepsOthers(s, s', t, c);
        CloseKeepsOwn(s, s', t, c);
        CloseKeepsSuspended(s, s', t, c);
        CloseKeepsLockers(s, s', t, c);
      case OnOpen(o) =>
        OpenKeepsWords(s, s', t, o);
        OpenKeepsThreads(s, s', t, o);
        OpenKeepsSuspended(s, s', t, o);
        OpenKeepsLockers(s, s', t, o);
      case OnResume(r) =>
        ResumeKeepsOwner(s, s', t, r);
        ResumeKeepsWords(s, s', t, r);
        ResumeKeepsThreads(s, s', t, r);
        ResumeKeepsSuspended(s, s', t, r);
        ResumeKeepsLockers(s, s', t, r);
      case OnDispose(d) =>
        DisposeKeepsWords(s, s', t, d);
        DisposeKeepsThreads(s, s', t, d);
        DisposeKeepsSuspended(s, s', t, d);
        DisposeKeepsLockers(s, s', t, d);
      case OnDirect(i) =>
        DirectKeepsWords(s, s', t, i);
        DirectKeepsThreads(s, s', t, i);
        DirectKeepsSuspended(s, s', t, i);
        DirectKeepsLockers(s, s', t, i);
    }
  }
}
