/**
 The return value of a native callback (callback.go).

 A function callback whose frame carries the capability marker buffers an
 int32 result in the frame and leaves the native slot alone; the native
 trampoline applies the buffered value after the callback returns. Every other
 setter, and Get, first writes the buffered value through. Native calls may
 fail at any point; their outcomes are parameters.
 */
module ReturnValue {

  const TWO_31: int := 0x8000_0000
  const TWO_32: int := 0x1_0000_0000

  type Int32 = x: int | -0x8000_0000 <= x < 0x8000_0000
  type Word32 = x: int | 0 <= x < 0x1_0000_0000

  /** The Go conversions uint32(v) and int32(w). */
  function ToWord(v: Int32): (w: Word32)
    ensures w % TWO_32 == v % TWO_32
  {
    if v < 0 then v + TWO_32 else v
  }

  function FromWord(w: Word32): (v: Int32)
    ensures v % TWO_32 == w % TWO_32
  {
    if w >= TWO_31 then w - TWO_32 else w
  }

  /** What the native return slot holds. */
  datatype Value = Undefined | Number(n: int) | Other(tag: nat)

  /** capable: a function callback with the deferral marker; state is the
      frame word that is 0 (nothing deferred) or 1 (index holds an int32). */
  datatype Frame = Frame(capable: bool, open: bool, index: Word32, state: int, slot: Value)

  const NOTHING_DEFERRED := 0
  const INT32_DEFERRED := 1

  /** One call on the ReturnValue with the outcomes of the native calls it may make. */
  datatype Op =
    | SetInt32(v: Int32, ok: bool)
    | SetOther(w: Value, flushOk: bool, ok: bool)   // every other setter
    | Get(flushOk: bool, ok: bool)

  datatype Outcome = Written | ReadValue(value: Value) | Failed

  /** The frame after materializeDeferredInt32, and whether it succeeded. */
  function Flush(f: Frame, flushOk: bool): (Frame, bool) {
    if !f.capable || f.state == NOTHING_DEFERRED then (f, true)
    else if f.state == INT32_DEFERRED then
      if flushOk then (f.(slot := Number(FromWord(f.index)), state := NOTHING_DEFERRED), true) else (f, false)
    else (f, false)
  }

  function Apply(f: Frame, op: Op): (Frame, Outcome) {
    if !f.open then (f, Failed)
    else
      match op
      case SetInt32(v, ok) =>
        if f.capable then (f.(index := ToWord(v), state := INT32_DEFERRED), Written)
        else if ok then (f.(slot := Number(v)), Written)
        else (f, Failed)
      case SetOther(w, flushOk, ok) =>
        var (g, flushed) := Flush(f, flushOk);
        if !flushed then (g, Failed)
        else if ok then (g.(slot := w), Written)
        else (g, Failed)
      case Get(flushOk, ok) =>
        var (g, flushed) := Flush(f, flushOk);
        if flushed && ok then (g, ReadValue(g.slot)) else (g, Failed)
  }

  /** The value JavaScript receives if the callback returned now. */
  function Shown(f: Frame): Value {
    if f.capable && f.state == INT32_DEFERRED then Number(FromWord(f.index)) else f.slot
  }

  predicate Valid(f: Frame) {
    f.state == NOTHING_DEFERRED || f.state == INT32_DEFERRED
  }

  /** An accepted int32 has not reached the native slot yet. */
  predicate Pending(f: Frame) {
    f.capable && f.state == INT32_DEFERRED
  }

  /** The call gets through: the callback is still running, a pending int32 that
      has to go first is accepted natively, and so is the call's own native
      call if it makes one. */
  predicate Succeeds(f: Frame, op: Op) {
    f.open &&
    match op
    case SetInt32(_, ok) => f.capable || ok
    case SetOther(_, flushOk, ok) => ok && (Pending(f) ==> flushOk)
    case Get(flushOk, ok) => ok && (Pending(f) ==> flushOk)
  }

  /** A frame as the trampoline sets it up. */
  function Fresh(capable: bool): Frame {
    Frame(capable, true, 0, NOTHING_DEFERRED, Undefined)
  }

  function Run(f: Frame, ops: seq<Op>): (r: (Frame, seq<Outcome>))
    ensures |r.1| == |ops|
  {
    if ops == [] then (f, [])
    else
      var (g, outs) := Run(f, ops[..|ops| - 1]);
      var (h, out) := Apply(g, ops[|ops| - 1]);
      (h, outs + [out])
  }

  function WrittenBy(op: Op): Value {
    match op
    case SetInt32(v, _) => Number(v)
    case SetOther(w, _, _) => w
    case Get(_, _) => Undefined
  }

  /** The last value whose setter reported success. */
  function LastWritten(ops: seq<Op>, outs: seq<Outcome>): Value
    requires |ops| == |outs|
  {
    if ops == [] then Undefined
    else if outs[|outs| - 1] == Written then WrittenBy(ops[|ops| - 1])
    else LastWritten(ops[..|ops| - 1], outs[..|outs| - 1])
  }

  lemma WordRoundTrip(v: Int32)
    ensures FromWord(ToWord(v)) == v
  {
  }

  /** Whatever fails natively, the frame shows the last write that was reported
      successful, and the invalid deferred state is never reached. */
  lemma {:induction false} ShowsLastWrite(capable: bool, ops: seq<Op>)
    ensures var (f, outs) := Run(Fresh(capable), ops);
            && |outs| == |ops|
            && Valid(f) && f.open && f.capable == capable
            && Shown(f) == LastWritten(ops, outs)
  {
    if ops != [] {
      var n := |ops| - 1;
      ShowsLastWrite(capable, ops[..n]);
      var (g, before) := Run(Fresh(capable), ops[..n]);
      var (f, out) := Apply(g, ops[n]);
      assert (before + [out])[..|before + [out]| - 1] == before;
      if ops[n].SetInt32? {
        WordRoundTrip(ops[n].v);
      }
    }
  }

  /** Exactly when a call succeeds, and what it then shows or answers; a call that
      fails shows what was shown before. An int32 on a capable frame makes no
      native call, and the native slot changes only by a native write that succeeded. */
  lemma CallOutcome(f: Frame, op: Op)
    requires Valid(f)
    ensures var (g, out) := Apply(f, op);
            && (out != Failed <==> Succeeds(f, op))
            && (out != Failed ==> out == if op.Get? then ReadValue(Shown(f)) else Written)
            && Shown(g) == (if out == Written then WrittenBy(op) else Shown(f))
            && (op.SetInt32? && f.capable ==> g.slot == f.slot)
            && (out != Failed && !(op.SetInt32? && f.capable) ==> !Pending(g) && g.slot == Shown(g))
            && (out == Failed ==> g == f || (Pending(f) && g == f.(slot := Shown(f), state := NOTHING_DEFERRED)))
  {
    if op.SetInt32? {
      WordRoundTrip(op.v);
    }
  }

  /** In every sequence of calls, each call succeeds exactly if the frame it finds lets it. */
  lemma RunOutcomes(capable: bool, ops: seq<Op>, k: nat)
    requires k < |ops|
    ensures var f := Run(Fresh(capable), ops[..k]).0;
            && |Run(Fresh(capable), ops[..k + 1]).1| == k + 1
            && (Run(Fresh(capable), ops[..k + 1]).1[k] != Failed <==> Succeeds(f, ops[k]))
  {
    ShowsLastWrite(capable, ops[..k]);
    CallOutcome(Run(Fresh(capable), ops[..k]).0, ops[k]);
    assert ops[..k + 1][..k] == ops[..k];
  }

  /** Every Get that succeeds reads the last successful write before it. */
  lemma GetReadsLastWrite(capable: bool, ops: seq<Op>, k: nat)
    requires k < |ops|
    ensures var outs := Run(Fresh(capable), ops[..k + 1]).1;
            && |outs| == k + 1
            && (outs[k].ReadValue? ==>
                  ops[k].Get? && outs[k].value == LastWritten(ops[..k], Run(Fresh(capable), ops[..k]).1))
  {
    ShowsLastWrite(capable, ops[..k]);
    ShowsLastWrite(capable, ops[..k + 1]);
    assert ops[..k + 1][..k] == ops[..k];
  }

  /** The same call on an eager frame, succeeding exactly when the deferred one did. */
  function Eager(op: Op, out: Outcome): Op {
    var ok := out != Failed;
    match op
    case SetInt32(v, _) => SetInt32(v, ok)
    case SetOther(w, _, _) => SetOther(w, true, ok)
    case Get(_, _) => Get(true, ok)
  }

  function EagerOps(ops: seq<Op>, outs: seq<Outcome>): seq<Op>
    requires |ops| == |outs|
  {
    seq(|ops|, i requires 0 <= i < |ops| => Eager(ops[i], outs[i]))
  }

  /** One call: a deferred and an eager frame that show the same value answer
      the same and again show the same value. */
  lemma EagerStep(f: Frame, e: Frame, op: Op)
    requires Valid(f) && f.open && f.capable && e.open && !e.capable && e.slot == Shown(f)
    ensures var (g, out) := Apply(f, op);
            Apply(e, Eager(op, out)) == (e.(slot := Shown(g)), out)
  {
    if op.SetInt32? {
      WordRoundTrip(op.v);
    }
  }

  lemma {:induction false} EagerFrame(ops: seq<Op>)
    ensures var e := Run(Fresh(false), ops).0; e.open && !e.capable && Shown(e) == e.slot
  {
    ShowsLastWrite(false, ops);
  }

  /** Refinement: an eager frame whose native calls fail exactly where the
      deferred frame reported failure gives every caller the same outcomes and
      returns the same value to JavaScript. */
  lemma {:induction false} DeferredRefinesEager(ops: seq<Op>)
    ensures var (f, outs) := Run(Fresh(true), ops);
            && |outs| == |ops|
            && Run(Fresh(false), EagerOps(ops, outs)).1 == outs
            && Shown(Run(Fresh(false), EagerOps(ops, outs)).0) == Shown(f)
  {
    if ops != [] {
      var n := |ops| - 1;
      DeferredRefinesEager(ops[..n]);
      ShowsLastWrite(true, ops[..n]);
      var (g, before) := Run(Fresh(true), ops[..n]);
      var outs := Run(Fresh(true), ops).1;
      EagerFrame(EagerOps(ops[..n], before));
      EagerStep(g, Run(Fresh(false), EagerOps(ops[..n], before)).0, ops[n]);
      assert outs[..n] == before;
      assert EagerOps(ops, outs)[..n] == EagerOps(ops[..n], before);
    }
  }

  // ---------------------------------------------------------- the object

  /** The callback frame and the operations of ReturnValue on it. */
  class CallbackFrame {
    const capable: bool
    var open: bool
    var index: Word32
    var state: int
    var slot: Value

    ghost function View(): Frame
      reads this
    {
      Frame(capable, open, index, state, slot)
    }

    constructor (capable: bool)
      ensures View() == Fresh(capable)
    {
      this.capable := capable;
      open, index, state, slot := true, 0, NOTHING_DEFERRED, Undefined;
    }

    method Materialize(flushOk: bool) returns (ok: bool)
      modifies this
      ensures (View(), ok) == Flush(old(View()), flushOk)
      ensures Valid(old(View())) ==> Valid(View()) && Shown(View()) == Shown(old(View()))
      ensures Valid(old(View())) ==> (ok <==> !old(Pending(View())) || flushOk) && (ok <==> !Pending(View()))
      ensures old(Pending(View())) && ok ==> slot == old(Shown(View()))
    {
      if !capable {
        return true;
      }
      if state == NOTHING_DEFERRED {
        return true;
      }
      if state == INT32_DEFERRED {
        if !flushOk {
          return false;
        }
        slot := Number(FromWord(index));
        state := NOTHING_DEFERRED;
        return true;
      }
      return false;
    }

    method SetInt32(v: Int32, ok: bool) returns (out: Outcome)
      modifies this
      ensures (View(), out) == Apply(old(View()), Op.SetInt32(v, ok))
      ensures Valid(old(View())) ==> (out != Failed <==> Succeeds(old(View()), Op.SetInt32(v, ok)))
      ensures out == Written ==> Shown(View()) == Number(v)
      ensures capable ==> slot == old(slot)
    {
      if !open {
        return Failed;
      }
      WordRoundTrip(v);
      if capable {
        index := ToWord(v);
        state := INT32_DEFERRED;
        return Written;
      }
      if !ok {
        return Failed;
      }
      slot := Number(v);
      return Written;
    }

    method SetOther(w: Value, flushOk: bool, ok: bool) returns (out: Outcome)
      modifies this
      ensures (View(), out) == Apply(old(View()), Op.SetOther(w, flushOk, ok))
      ensures Valid(old(View())) ==> (out != Failed <==> Succeeds(old(View()), Op.SetOther(w, flushOk, ok)))
      ensures out == Written && Valid(old(View())) ==> Shown(View()) == slot == w
      ensures out == Failed && Valid(old(View())) ==> Shown(View()) == Shown(old(View()))
    {
      if !open {
        return Failed;
      }
      var flushed := Materialize(flushOk);
      if !flushed || !ok {
        return Failed;
      }
      slot := w;
      return Written;
    }

    method Get(flushOk: bool, ok: bool) returns (out: Outcome)
      modifies this
      ensures (View(), out) == Apply(old(View()), Op.Get(flushOk, ok))
      ensures Valid(old(View())) ==> (out != Failed <==> Succeeds(old(View()), Op.Get(flushOk, ok)))
      ensures Valid(old(View())) ==> Shown(View()) == Shown(old(View()))
      ensures out.ReadValue? && Valid(old(View())) ==> out.value == Shown(old(View()))
    {
      if !open {
        return Failed;
      }
      var flushed := Materialize(flushOk);
      if !flushed || !ok {
        return Failed;
      }
      return ReadValue(slot);
    }

    /** The dispatcher invalidates the borrowed scope as the callback returns:
        JavaScript receives what the frame showed, and a ReturnValue that user
        code retained fails from then on, whatever is called on it. */
    method Return()
      modifies this
      ensures View() == old(View()).(open := false)
      ensures Shown(View()) == Shown(old(View()))
      ensures forall ops: seq<Op> :: Inert(View(), ops)
    {
      open := false;
      forall ops: seq<Op> ensures Inert(View(), ops) {
        ClosedFrameIsInert(View(), ops);
      }
    }
  }

  /** The calls ops all fail and change nothing. */
  ghost predicate Inert(f: Frame, ops: seq<Op>) {
    Run(f, ops).0 == f && forall i :: 0 <= i < |ops| ==> Run(f, ops).1[i] == Failed
  }

  /** A ReturnValue retained past its callback can change nothing. */
  lemma {:induction false} ClosedFrameIsInert(f: Frame, ops: seq<Op>)
    requires !f.open
    ensures Inert(f, ops)
  {
    if ops != [] {
      ClosedFrameIsInert(f, ops[..|ops| - 1]);
    }
  }
}
