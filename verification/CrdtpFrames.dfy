/**
 Domain callback frames of the CRDTP dispatcher (crdtp_dispatcher.go).

 Native delivery reenters Go: while one SendResponse is in its native call,
 the handler of a nested callback, or the same handler, may send again through
 any frame that is still active on the thread. Each thread has a stack of
 callback and send activations; frames belong to the thread that created them.
 */
module CrdtpFrames {
  import opened Runs

  type Thread = nat
  type FrameId = nat

  /** Where a send keeps the two ownership words that native code fills in. */
  datatype Slot = Own(f: FrameId) | Heap(n: nat)

  type Words = (int, int)

  /** wrote is what this activation's native call last stored in its slot. */
  datatype Activation =
    | Callback(f: FrameId)
    | Send(f: FrameId, slot: Slot, wrote: Words)

  /** word is the atomic state: 0 expired, 1 active, 2 active with a send using
      the frame's own slot. base and send record the stack positions of the
      callback and of that send. */
  datatype Frame = Frame(tid: Thread, word: int, base: nat, send: nat)

  datatype Place = Place(t: Thread, k: nat)

  /** users records which activation each slot was last given to. */
  datatype State = State(
    stacks: map<Thread, seq<Activation>>,
    frames: map<FrameId, Frame>,
    memory: map<Slot, Words>,
    users: map<Slot, Place>)

  function Stack(s: State, t: Thread): seq<Activation> {
    if t in s.stacks then s.stacks[t] else []
  }

  /** crdtpDomainFrame.check, used by every request accessor and by SendResponse. */
  predicate Usable(s: State, t: Thread, f: FrameId) {
    f in s.frames && s.frames[f].word != 0 && s.frames[f].tid == t
  }

  predicate TopIsCallback(s: State, t: Thread) {
    |Stack(s, t)| > 0 && Stack(s, t)[|Stack(s, t)| - 1].Callback?
  }

  predicate TopIsSend(s: State, t: Thread) {
    |Stack(s, t)| > 0 && Stack(s, t)[|Stack(s, t)| - 1].Send?
  }

  function Top(s: State, t: Thread): Activation
    requires |Stack(s, t)| > 0
  {
    Stack(s, t)[|Stack(s, t)| - 1]
  }

  function Push(s: State, t: Thread, a: Activation): State {
    s.(stacks := s.stacks[t := Stack(s, t) + [a]])
  }

  function Pop(s: State, t: Thread): State
    requires |Stack(s, t)| > 0
  {
    s.(stacks := s.stacks[t := Stack(s, t)[..|Stack(s, t)| - 1]])
  }

  // ---------------------------------------------------------------- steps

  datatype Op =
    | EnterCallback(f: FrameId)
    | ReturnCallback
    | SendOwn(f: FrameId)
    | SendHeap(f: FrameId, n: nat)
    | NativeStores(words: Words)
    | ReturnSend

  function Enter(s: State, t: Thread, f: FrameId): State {
    Push(s, t, Callback(f)).(frames := s.frames[f := Frame(t, 1, |Stack(s, t)|, 0)])
  }

  function Return(s: State, t: Thread): State
    requires TopIsCallback(s, t) && Top(s, t).f in s.frames
  {
    var f := Top(s, t).f;
    Pop(s, t).(frames := s.frames[f := s.frames[f].(word := 0)])
  }

  function StartOwn(s: State, t: Thread, f: FrameId): State
    requires f in s.frames
  {
    var k := |Stack(s, t)|;
    Push(s, t, Send(f, Own(f), (0, 0))).(
      frames := s.frames[f := s.frames[f].(word := 2, send := k)],
      memory := s.memory[Own(f) := (0, 0)],
      users := s.users[Own(f) := Place(t, k)])
  }

  function StartHeap(s: State, t: Thread, f: FrameId, n: nat): State {
    Push(s, t, Send(f, Heap(n), (0, 0))).(
      memory := s.memory[Heap(n) := (0, 0)],
      users := s.users[Heap(n) := Place(t, |Stack(s, t)|)])
  }

  function Store(s: State, t: Thread, words: Words): State
    requires TopIsSend(s, t)
  {
    var a := Top(s, t);
    Push(Pop(s, t), t, a.(wrote := words)).(memory := s.memory[a.slot := words])
  }

  /** A send that took the frame's own slot gives the frame back on return. */
  function EndSend(s: State, t: Thread): State
    requires TopIsSend(s, t) && Top(s, t).f in s.frames
  {
    var a := Top(s, t);
    Pop(s, t).(frames := s.frames[a.f := s.frames[a.f].(word := if a.slot.Own? then 1 else s.frames[a.f].word)])
  }

  /** One step of thread t. The compare-and-swap from 1 to 2 decides which
      slot a send uses. */
  ghost predicate Does(s: State, s': State, t: Thread, op: Op) {
    match op
    case EnterCallback(f) => f !in s.frames && s' == Enter(s, t, f)
    case ReturnCallback => TopIsCallback(s, t) && Top(s, t).f in s.frames && s' == Return(s, t)
    case SendOwn(f) => Usable(s, t, f) && s.frames[f].word == 1 && s' == StartOwn(s, t, f)
    case SendHeap(f, n) =>
      Usable(s, t, f) && s.frames[f].word != 1 && Heap(n) !in s.users && s' == StartHeap(s, t, f, n)
    case NativeStores(words) => TopIsSend(s, t) && s' == Store(s, t, words)
    case ReturnSend => TopIsSend(s, t) && Top(s, t).f in s.frames && s' == EndSend(s, t)
  }

  ghost predicate Next(s: State, s': State) {
    exists t, op :: Does(s, s', t, op)
  }

  ghost predicate Init(s: State) {
    s == State(map[], map[], map[], map[])
  }

  // ------------------------------------------------------------ invariant

  ghost predicate FrameInv(s: State, f: FrameId) {
    f in s.frames ==>
      var r := s.frames[f];
      var stack := Stack(s, r.tid);
      && r.word in {0, 1, 2}
      && (r.word != 0 ==> r.base < |stack| && stack[r.base] == Callback(f))
      && (r.word == 2 ==> r.base < r.send < |stack| && stack[r.send].Send? && stack[r.send].slot == Own(f))
  }

  ghost predicate ActivationInv(s: State, t: Thread, k: nat) {
    k < |Stack(s, t)| ==>
      var a := Stack(s, t)[k];
      && a.f in s.frames && s.frames[a.f].tid == t && s.frames[a.f].word != 0
      && match a
         case Callback(f) => s.frames[f].base == k
         case Send(f, slot, wrote) =>
           && s.frames[f].base < k
           && slot in s.users && s.users[slot] == Place(t, k)
           && slot in s.memory && s.memory[slot] == wrote
           && (slot.Own? ==> slot.f == f && s.frames[f].word == 2 && s.frames[f].send == k)
  }

  ghost predicate Inv(s: State) {
    && (forall f: FrameId :: FrameInv(s, f))
    && (forall t: Thread, k: nat :: ActivationInv(s, t, k))
  }

  lemma KeepFrames(s: State, s': State, t: Thread, op: Op)
    requires Inv(s) && Does(s, s', t, op)
    ensures forall f: FrameId :: FrameInv(s', f)
  {
    assert |Stack(s, t)| > 0 ==> ActivationInv(s, t, |Stack(s, t)| - 1);
    forall f: FrameId ensures FrameInv(s', f) {
      assert FrameInv(s, f);
    }
  }

  lemma KeepActivations(s: State, s': State, t: Thread, op: Op)
    requires Inv(s) && Does(s, s', t, op)
    ensures forall u: Thread, k: nat :: ActivationInv(s', u, k)
  {
    assert |Stack(s, t)| > 0 ==> ActivationInv(s, t, |Stack(s, t)| - 1);
    assert op.SendOwn? || op.SendHeap? ==> FrameInv(s, op.f);
    forall u: Thread, k: nat ensures ActivationInv(s', u, k) {
      assert ActivationInv(s, u, k);
    }
  }

  lemma NextKeepsInv()
    ensures forall s, s' :: Inv(s) && Next(s, s') ==> Inv(s')
  {
    forall s, s' | Inv(s) && Next(s, s') ensures Inv(s') {
      var t, op :| Does(s, s', t, op);
      KeepFrames(s, s', t, op);
      KeepActivations(s, s', t, op);
    }
  }

  lemma RunInv(trace: seq<State>)
    requires IsRun(Init, Next, trace)
    ensures forall n: nat :: n < |trace| ==> Inv(trace[n])
  {
    NextKeepsInv();
    Invariant(Init, Next, Inv, trace);
  }

  // ------------------------------------------------------------- theorems

  /** Activation k of thread t is a send in flight. */
  predicate InFlight(s: State, t: Thread, k: nat) {
    k < |Stack(s, t)| && Stack(s, t)[k].Send?
  }

  predicate UsesOwnSlot(s: State, t: Thread, k: nat, f: FrameId) {
    InFlight(s, t, k) && Stack(s, t)[k].slot == Own(f)
  }

  /** No two sends in flight, on any threads and at any depth, share a slot. */
  lemma SlotsAreExclusive(trace: seq<State>, n: nat, t: Thread, k: nat, u: Thread, j: nat)
    requires IsRun(Init, Next, trace) && n < |trace|
    requires InFlight(trace[n], t, k) && InFlight(trace[n], u, j)
    requires Stack(trace[n], t)[k].slot == Stack(trace[n], u)[j].slot
    ensures t == u && k == j
  {
    RunInv(trace);
    assert ActivationInv(trace[n], t, k) && ActivationInv(trace[n], u, j);
  }

  /** The frame word is 2 exactly while a send using the frame's own slot is in flight. */
  lemma WordTwoIffOwnSend(trace: seq<State>, n: nat, f: FrameId)
    requires IsRun(Init, Next, trace) && n < |trace| && f in trace[n].frames
    ensures trace[n].frames[f].word == 2 <==> exists t, k :: UsesOwnSlot(trace[n], t, k, f)
  {
    var s, r := trace[n], trace[n].frames[f];
    RunInv(trace);
    assert FrameInv(s, f);
    if r.word == 2 {
      assert UsesOwnSlot(s, r.tid, r.send, f);
    }
    if t, k :| UsesOwnSlot(s, t, k, f) {
      assert ActivationInv(s, t, k);
    }
  }

  /** When a native send returns, its slot still holds what that native call
      stored there, whatever ran inside it. */
  lemma SendReadsItsOwnWords(trace: seq<State>, n: nat, t: Thread, k: nat)
    requires IsRun(Init, Next, trace) && n < |trace| && InFlight(trace[n], t, k)
    ensures var a := Stack(trace[n], t)[k];
            a.slot in trace[n].memory && trace[n].memory[a.slot] == a.wrote
  {
    RunInv(trace);
    assert ActivationInv(trace[n], t, k);
  }

  /** A frame is usable exactly by its own thread while its callback is on that thread's stack. */
  lemma UsableIffCallbackRuns(trace: seq<State>, n: nat, t: Thread, f: FrameId)
    requires IsRun(Init, Next, trace) && n < |trace|
    ensures Usable(trace[n], t, f) <==> Callback(f) in Stack(trace[n], t)
  {
    var s := trace[n];
    RunInv(trace);
    assert FrameInv(s, f);
    if Callback(f) in Stack(s, t) {
      var k :| 0 <= k < |Stack(s, t)| && Stack(s, t)[k] == Callback(f);
      assert ActivationInv(s, t, k);
    }
  }

  lemma ExpiredStep(s: State, s': State, f: FrameId)
    requires Inv(s) && Next(s, s') && f in s.frames && s.frames[f].word == 0
    ensures f in s'.frames && s'.frames[f].word == 0
  {
    var t, op :| Does(s, s', t, op);
    assert |Stack(s, t)| > 0 ==> ActivationInv(s, t, |Stack(s, t)| - 1);
  }

  /** After the callback has returned, every use of its request or responder is
      rejected for ever, on every thread. */
  lemma ExpiredForGood(trace: seq<State>, n: nat, m: nat, t: Thread, f: FrameId)
    requires IsRun(Init, Next, trace) && n <= m < |trace|
    requires f in trace[n].frames && trace[n].frames[f].word == 0
    ensures !Usable(trace[m], t, f)
  {
    var inv := (s: State) => Inv(s) && f in s.frames && s.frames[f].word == 0;
    NextKeepsInv();
    forall s, s' | inv(s) && Next(s, s') ensures inv(s') {
      ExpiredStep(s, s', f);
    }
    RunInv(trace);
    StableAlongPath(Next, inv, trace, n, m);
  }

  /** An activation on top of the given stack. */
  predicate OnTop(s: State, t: Thread, stack: seq<Activation>, a: Activation) {
    Stack(s, t) == stack + [a]
  }

  lemma StoreStep(s: State, t: Thread, stack: seq<Activation>, a: Activation, words: Words) returns (s': State)
    requires OnTop(s, t, stack, a) && a.Send?
    ensures Next(s, s') && OnTop(s', t, stack, a.(wrote := words))
    ensures forall u :: u != t ==> Stack(s', u) == Stack(s, u)
    ensures s'.frames == s.frames && s'.memory == s.memory[a.slot := words]
  {
    s' := Store(s, t, words);
    assert Does(s, s', t, NativeStores(words));
    assert Stack(s, t)[..|Stack(s, t)| - 1] == stack;
  }

  lemma ReturnStep(s: State, t: Thread, stack: seq<Activation>, a: Activation) returns (s': State)
    requires OnTop(s, t, stack, a) && a.Send? && a.slot.Own? && a.f in s.frames
    ensures Next(s, s') && Stack(s', t) == stack && (forall u :: u != t ==> Stack(s', u) == Stack(s, u))
    ensures s'.frames == s.frames[a.f := s.frames[a.f].(word := 1)] && s'.memory == s.memory
  {
    s' := EndSend(s, t);
    assert Does(s, s', t, ReturnSend);
    assert Stack(s, t)[..|Stack(s, t)| - 1] == stack;
  }

  /** A send on an idle frame that nothing interrupts: it uses the frame's own
      slot, leaves there what native code stored, and gives the frame and the
      stack back as they were. */
  lemma SendReturns(s: State, t: Thread, f: FrameId, words: Words)
    requires Usable(s, t, f) && s.frames[f].word == 1
    ensures exists s' ::
              && Leads(Next, s, s') && (forall u :: Stack(s', u) == Stack(s, u))
              && s'.frames == s.frames[f := s.frames[f].(send := |Stack(s, t)|)]
              && s'.memory == s.memory[Own(f) := words]
  {
    var a := Send(f, Own(f), (0, 0));
    var s1 := StartOwn(s, t, f);
    assert Does(s, s1, t, SendOwn(f));
    var s2 := StoreStep(s1, t, Stack(s, t), a, words);
    var s3 := ReturnStep(s2, t, Stack(s, t), a.(wrote := words));
    Along(Next, [s, s1, s2, s3]);
  }

  /** A send through a frame whose own slot is in use, nested inside that send or
      a callback above it: it takes a slot nobody has used, and leaves the frame,
      the stack and the outer send's words as they were. */
  lemma NestedSendReturns(s: State, t: Thread, f: FrameId, n: nat, words: Words)
    requires Usable(s, t, f) && s.frames[f].word == 2 && Heap(n) !in s.users
    ensures exists s' ::
              && Leads(Next, s, s') && (forall u :: Stack(s', u) == Stack(s, u))
              && s'.frames == s.frames && s'.memory == s.memory[Heap(n) := words]
  {
    var a := Send(f, Heap(n), (0, 0));
    var s1 := StartHeap(s, t, f, n);
    assert Does(s, s1, t, SendHeap(f, n));
    var s2 := StoreStep(s1, t, Stack(s, t), a, words);
    var s3 := NestedReturnStep(s2, t, Stack(s, t), a.(wrote := words));
    Along(Next, [s, s1, s2, s3]);
  }

  lemma NestedReturnStep(s: State, t: Thread, stack: seq<Activation>, a: Activation) returns (s': State)
    requires OnTop(s, t, stack, a) && a.Send? && a.slot.Heap? && a.f in s.frames
    ensures Next(s, s') && Stack(s', t) == stack && (forall u :: u != t ==> Stack(s', u) == Stack(s, u))
    ensures s'.frames == s.frames && s'.memory == s.memory
  {
    s' := EndSend(s, t);
    assert Does(s, s', t, ReturnSend);
    assert Stack(s, t)[..|Stack(s, t)| - 1] == stack;
  }

  lemma ExitStep(s: State, t: Thread, stack: seq<Activation>, f: FrameId) returns (s': State)
    requires OnTop(s, t, stack, Callback(f)) && f in s.frames
    ensures Next(s, s') && Stack(s', t) == stack && (forall u :: u != t ==> Stack(s', u) == Stack(s, u))
    ensures s'.frames == s.frames[f := s.frames[f].(word := 0)]
  {
    s' := Return(s, t);
    assert Does(s, s', t, ReturnCallback);
    assert Stack(s, t)[..|Stack(s, t)| - 1] == stack;
  }

  /** A callback from entry to return: its frame is usable by its thread in
      between and expired afterwards, and stack and other frames are as before. */
  lemma CallbackReturns(s: State, t: Thread, f: FrameId)
    requires f !in s.frames
    ensures exists s1, s' ::
              && Next(s, s1) && Usable(s1, t, f) && s1.frames[f].word == 1 && Next(s1, s')
              && (forall u :: Stack(s', u) == Stack(s, u)) && (forall u :: !Usable(s', u, f))
              && s'.frames == s.frames[f := Frame(t, 0, |Stack(s, t)|, 0)]
  {
    var s1 := Enter(s, t, f);
    assert Does(s, s1, t, EnterCallback(f));
    var s2 := ExitStep(s1, t, Stack(s, t), f);
  }
}
