/**
 Counted use of a backing store against its Close (buffer.go).

 Reads, writes and queries bracket their native call with beginUse and endUse;
 Close claims the store under the mutex, disposes it natively without the
 mutex, and takes the mutex again to record the outcome. The class below has
 one method per critical section; the transition system puts any number of
 those activations in any order.
 */
module BackingStores {
  import opened Runs
  import opened Wrappers

  type Actor = nat

  datatype Pc =
    | Using          // between beginUse and endUse
    | Disposing      // Close claimed the store, native dispose running
    | Recording      // native dispose succeeded, outcome not recorded yet
    | Releasing      // outcome recorded, allocator reference still to be released
    | Finished

  /** The fields of BackingStore; handle and allocatorRef are zero when absent. */
  datatype Fields = Fields(handle: nat, allocatorRef: nat, closed: bool, closing: bool, active: int)

  /** words: the handle or reference an activation carries from one critical
      section to its next native call. made and madeRef: what the wrapper was made
      with. disposed and released list the handles whose native dispose succeeded
      and the references that were released. */
  datatype State = State(
    f: Fields,
    actors: map<Actor, Pc>,
    words: map<Actor, nat>,
    made: nat,
    madeRef: nat,
    disposed: seq<nat>,
    released: seq<nat>)

  datatype Event =
    | BeginUse(a: Actor)
    | EndUse(a: Actor)
    | CloseClaim(a: Actor)
    | CloseDispose(a: Actor, ok: bool)
    | CloseRecord(a: Actor)
    | CloseRelease(a: Actor)

  predicate Usable(f: Fields) {
    !f.closed && f.handle != 0 && !f.closing
  }

  predicate Enabled(s: State, e: Event) {
    match e
    case BeginUse(a) => a !in s.actors
    case EndUse(a) => a in s.actors && s.actors[a] == Using
    case CloseClaim(a) => a !in s.actors
    case CloseDispose(a, _) => a in s.actors && s.actors[a] == Disposing
    case CloseRecord(a) => a in s.actors && s.actors[a] == Recording
    case CloseRelease(a) => a in s.actors && s.actors[a] == Releasing
  }

  function Goto(s: State, a: Actor, pc: Pc): State {
    s.(actors := s.actors[a := pc])
  }

  function Carry(s: State, a: Actor, word: nat): State {
    s.(words := s.words[a := word])
  }

  function WordOf(s: State, a: Actor): nat {
    if a in s.words then s.words[a] else 0
  }

  function Step(s: State, e: Event): State
    requires Enabled(s, e)
  {
    match e
    case BeginUse(a) =>
      if Usable(s.f) then Goto(Carry(s, a, s.f.handle), a, Using).(f := s.f.(active := s.f.active + 1))
      else Goto(s, a, Finished)
    case EndUse(a) => Goto(s, a, Finished).(f := s.f.(active := s.f.active - 1))
    case CloseClaim(a) =>
      if s.f.closed || s.f.handle == 0 || s.f.closing || s.f.active != 0 then Goto(s, a, Finished)
      else Goto(Carry(s, a, s.f.handle), a, Disposing).(f := s.f.(closing := true))
    case CloseDispose(a, ok) =>
      if ok then Goto(s, a, Recording).(disposed := s.disposed + [WordOf(s, a)])
      else Goto(s, a, Finished).(f := s.f.(closing := false))
    case CloseRecord(a) =>
      Goto(Carry(s, a, s.f.allocatorRef), a, if s.f.allocatorRef != 0 then Releasing else Finished).(
        f := Fields(0, 0, true, false, s.f.active))
    case CloseRelease(a) => Goto(s, a, Finished).(released := s.released + [WordOf(s, a)])
  }

  /** Isolate.backingStore handed out a wrapper, with or without a cloned allocator reference. */
  ghost predicate Init(s: State) {
    && s.f == Fields(s.made, s.madeRef, false, false, 0) && s.made != 0
    && s.actors == map[] && s.words == map[] && s.disposed == [] && s.released == []
  }

  ghost predicate Next(s: State, s': State) {
    exists e :: Enabled(s, e) && s' == Step(s, e)
  }

  function At(s: State, pc: Pc): set<Actor> {
    set a | a in s.actors && s.actors[a] == pc
  }

  /** An activation carries the word its next native call needs. */
  ghost predicate WordInv(s: State, a: Actor) {
    a in s.actors ==>
      && (s.actors[a] == Using || s.actors[a] == Disposing ==> WordOf(s, a) == s.made)
      && (s.actors[a] == Releasing ==> WordOf(s, a) == s.madeRef)
  }

  /** Every claim on the store is accounted for. */
  ghost predicate Accounts(s: State) {
    && s.f.active == |At(s, Using)|
    && (s.f.closing <==> At(s, Disposing) + At(s, Recording) != {})
    && (forall a, b :: a in At(s, Disposing) + At(s, Recording) && b in At(s, Disposing) + At(s, Recording) ==> a == b)
    && (s.f.closing ==> s.f.active == 0 && !s.f.closed)
    && (s.f.closed ==> s.f.active == 0 && s.f.handle == 0 && s.f.allocatorRef == 0)
    && (!s.f.closed ==> s.f.handle == s.made != 0 && s.f.allocatorRef == s.madeRef && At(s, Releasing) == {})
    && s.disposed == (if s.f.closed || At(s, Recording) != {} then [s.made] else [])
    && (forall a, b :: a in At(s, Releasing) && b in At(s, Releasing) ==> a == b)
    && (At(s, Releasing) != {} ==> s.madeRef != 0)
    && s.released == (if s.f.closed && s.madeRef != 0 && At(s, Releasing) == {} then [s.madeRef] else [])
  }

  ghost predicate Inv(s: State) {
    Accounts(s) && forall a: Actor :: WordInv(s, a)
  }

  /** Moving one actor changes exactly the sets it leaves and joins. */
  lemma Moved(s: State, a: Actor, pc: Pc, q: Pc)
    ensures At(Goto(s, a, pc), q) == if pc == q then At(s, q) + {a} else At(s, q) - {a}
  {
  }

  lemma MovedByStep(s: State, e: Event)
    requires Enabled(s, e)
    ensures var s' := Step(s, e);
            var pc := s'.actors[e.a];
            forall q :: At(s', q) == if pc == q then At(s, q) + {e.a} else At(s, q) - {e.a}
    ensures forall q :: e.a in At(s, q) <==> e.a in s.actors && s.actors[e.a] == q
  {
    var s' := Step(s, e);
    var pc := s'.actors[e.a];
    forall q ensures At(s', q) == if pc == q then At(s, q) + {e.a} else At(s, q) - {e.a} {
      Moved(s, e.a, pc, q);
      assert At(s', q) == At(Goto(s, e.a, pc), q);
    }
  }

  lemma KeepBegin(s: State, a: Actor)
    requires Accounts(s) && Enabled(s, BeginUse(a))
    ensures Accounts(Step(s, BeginUse(a)))
  {
    MovedByStep(s, BeginUse(a));
  }

  lemma KeepClaim(s: State, a: Actor)
    requires Accounts(s) && Enabled(s, CloseClaim(a))
    ensures Accounts(Step(s, CloseClaim(a)))
  {
    MovedByStep(s, CloseClaim(a));
  }

  lemma KeepDispose(s: State, a: Actor, ok: bool)
    requires Accounts(s) && WordInv(s, a) && Enabled(s, CloseDispose(a, ok))
    ensures Accounts(Step(s, CloseDispose(a, ok)))
  {
    MovedByStep(s, CloseDispose(a, ok));
  }

  lemma KeepRecord(s: State, a: Actor)
    requires Accounts(s) && Enabled(s, CloseRecord(a))
    ensures Accounts(Step(s, CloseRecord(a)))
  {
    MovedByStep(s, CloseRecord(a));
  }

  lemma KeepWords(s: State, e: Event)
    requires Enabled(s, e) && (e.CloseRecord? ==> !s.f.closed) && forall a: Actor :: WordInv(s, a)
    requires !s.f.closed ==> s.f.handle == s.made && s.f.allocatorRef == s.madeRef
    ensures forall a: Actor :: WordInv(Step(s, e), a)
  {
    var s' := Step(s, e);
    forall a: Actor ensures WordInv(s', a) {
      assert WordInv(s, a);
    }
  }

  lemma StepKeepsInv(s: State, e: Event)
    requires Inv(s) && Enabled(s, e)
    ensures Inv(Step(s, e))
  {
    assert e.CloseRecord? ==> e.a in At(s, Recording);
    KeepWords(s, e);
    assert WordInv(s, e.a);
    match e
    case BeginUse(a) => KeepBegin(s, a);
    case EndUse(a) => MovedByStep(s, e);
    case CloseClaim(a) => KeepClaim(s, a);
    case CloseDispose(a, ok) => KeepDispose(s, a, ok);
    case CloseRecord(a) => KeepRecord(s, a);
    case CloseRelease(a) => MovedByStep(s, e);
  }

  lemma RunInv(trace: seq<State>)
    requires IsRun(Init, Next, trace)
    ensures forall n: nat :: n < |trace| ==> Inv(trace[n])
  {
    forall s, s' | Inv(s) && Next(s, s') ensures Inv(s') {
      var e :| Enabled(s, e) && s' == Step(s, e);
      StepKeepsInv(s, e);
    }
    forall s | Init(s) ensures Inv(s) {
      assert forall pc :: At(s, pc) == {};
    }
    Invariant(Init, Next, Inv, trace);
  }

  /** Every use works on the handle the wrapper was made with, and so does the native dispose. */
  lemma UsesItsHandle(trace: seq<State>, n: nat, a: Actor)
    requires IsRun(Init, Next, trace) && n < |trace| && a in trace[n].actors
    requires trace[n].actors[a] == Using || trace[n].actors[a] == Disposing
    ensures WordOf(trace[n], a) == trace[n].made == trace[n].f.handle
  {
    RunInv(trace);
    assert WordInv(trace[n], a) && a in At(trace[n], trace[n].actors[a]);
  }

  /** Native dispose never overlaps a use, and at most one is in flight. */
  lemma DisposeExcludesUse(trace: seq<State>, n: nat, a: Actor, b: Actor)
    requires IsRun(Init, Next, trace) && n < |trace|
    requires a in trace[n].actors && trace[n].actors[a] == Disposing && b in trace[n].actors
    ensures trace[n].actors[b] != Using
    ensures trace[n].actors[b] == Disposing ==> a == b
  {
    RunInv(trace);
    var s := trace[n];
    assert a in At(s, Disposing);
    assert b in At(s, s.actors[b]);
  }

  /** Once disposed, nobody uses or disposes the store, and nobody can begin to. */
  lemma DisposedIsOver(s: State, a: Actor)
    requires Inv(s) && s.disposed != []
    ensures !Usable(s.f) && (a in s.actors ==> s.actors[a] != Using && s.actors[a] != Disposing)
  {
    assert a in s.actors ==> a in At(s, s.actors[a]);
    if At(s, Recording) != {} {
      var r :| r in At(s, Recording);
      assert forall b :: b in At(s, Disposing) ==> b == r;
    }
  }

  lemma StaysDisposed(trace: seq<State>, n: nat, m: nat)
    requires IsRun(Init, Next, trace) && n <= m < |trace| && trace[n].disposed != []
    ensures trace[m].disposed != []
  {
    forall s: State, s': State | s.disposed != [] && Next(s, s') ensures s'.disposed != [] {
    }
    StableAlongPath(Next, (s: State) => s.disposed != [], trace, n, m);
  }

  lemma StaysMade(trace: seq<State>, m: nat)
    requires IsRun(Init, Next, trace) && m < |trace|
    ensures trace[m].made == trace[0].f.handle && trace[m].madeRef == trace[0].f.allocatorRef
  {
    var h, r := trace[0].made, trace[0].madeRef;
    forall s: State, s': State | s.made == h && s.madeRef == r && Next(s, s') ensures s'.made == h && s'.madeRef == r {
    }
    StableAlongPath(Next, (s: State) => s.made == h && s.madeRef == r, trace, 0, m);
  }

  /** Dispose succeeds at most once, with the handle the wrapper was made with;
      from then on no use begins and no further native dispose is made. What is
      released is the cloned allocator reference the wrapper was made with, if
      there was one, exactly once, and nothing else. */
  lemma ClosedForGood(trace: seq<State>, n: nat, m: nat, a: Actor)
    requires IsRun(Init, Next, trace) && n <= m < |trace| && trace[n].disposed != []
    ensures var s := trace[m];
            var due := if trace[0].f.allocatorRef != 0 then [trace[0].f.allocatorRef] else [];
            && s.disposed == [trace[0].f.handle]
            && (a in s.actors ==> s.actors[a] != Using && s.actors[a] != Disposing)
            && (a !in s.actors ==> Step(s, BeginUse(a)).actors[a] == Finished)
            && s.released <= due
            && ((forall b :: b in s.actors ==> s.actors[b] == Finished) ==> s.released == due)
  {
    RunInv(trace);
    StaysDisposed(trace, n, m);
    StaysMade(trace, m);
    DisposedIsOver(trace[m], a);
  }

  /** A failed native dispose leaves the store exactly as usable as before the Close. */
  lemma FailedCloseIsUndone(trace: seq<State>, n: nat, a: Actor, b: Actor)
    requires IsRun(Init, Next, trace) && n < |trace|
    requires Enabled(trace[n], CloseDispose(a, false)) && b !in trace[n].actors && b != a
    ensures var s := Step(trace[n], CloseDispose(a, false));
            && Usable(s.f) && s.disposed == [] && s.released == []
            && Step(s, BeginUse(b)).actors[b] == Using
  {
    RunInv(trace);
    assert a in At(trace[n], Disposing);
    assert forall r :: r in At(trace[n], Recording) ==> r == a;
  }

  // ------------------------------------------------------------ the object

  datatype Error = UsedAfterClose | CloseIsActive | AlreadyClosed | IsActive | NativeFailure

  /** One backing-store reference. Each method is one critical section, run
      with the object's mutex held; the ghost fields record the activations. */
  class BackingStore {
    var handle: nat
    var allocatorRef: nat
    var closed: bool
    var closing: bool
    var active: int
    ghost var actors: map<Actor, Pc>
    ghost var words: map<Actor, nat>
    ghost const made: nat
    ghost const madeRef: nat
    ghost var disposed: seq<nat>
    ghost var released: seq<nat>

    ghost function View(): State
      reads this
    {
      State(Fields(handle, allocatorRef, closed, closing, active), actors, words, made, madeRef, disposed, released)
    }

    constructor (handle: nat, allocatorRef: nat)
      requires handle != 0
      ensures Init(View())
      ensures this.handle == handle && this.allocatorRef == allocatorRef
    {
      this.handle, this.allocatorRef := handle, allocatorRef;
      closed, closing, active := false, false, 0;
      actors, words, made, madeRef, disposed, released := map[], map[], handle, allocatorRef, [], [];
    }

    method BeginUse(ghost a: Actor) returns (r: Result<nat, Error>)
      requires Inv(View()) && a !in actors
      modifies this
      ensures View() == Step(old(View()), Event.BeginUse(a)) && Inv(View())
      ensures r.Ok? <==> Usable(old(View()).f)
      ensures r.Ok? ==> r.value == made
      ensures r.Err? ==> r.error == if old(closed) then UsedAfterClose else CloseIsActive
    {
      StepKeepsInv(View(), Event.BeginUse(a));
      if closed || handle == 0 {
        actors := actors[a := Finished];
        return Err(UsedAfterClose);
      }
      if closing {
        actors := actors[a := Finished];
        return Err(CloseIsActive);
      }
      active := active + 1;
      words := words[a := handle];
      actors := actors[a := Using];
      return Ok(handle);
    }

    method EndUse(ghost a: Actor)
      requires Inv(View()) && a in actors && actors[a] == Using
      modifies this
      ensures View() == Step(old(View()), Event.EndUse(a)) && Inv(View())
      ensures active >= 0
    {
      StepKeepsInv(View(), Event.EndUse(a));
      active := active - 1;
      actors := actors[a := Finished];
    }

    /** First critical section of Close. */
    method CloseClaim(ghost a: Actor) returns (r: Result<nat, Error>)
      requires Inv(View()) && a !in actors
      modifies this
      ensures View() == Step(old(View()), Event.CloseClaim(a)) && Inv(View())
      ensures r.Ok? <==> old(At(View(), Using) + At(View(), Disposing) + At(View(), Recording)) == {} && !old(closed)
      ensures r.Ok? ==> r.value == made
      ensures r.Err? ==> r.error == if old(closed) then AlreadyClosed else IsActive
    {
      StepKeepsInv(View(), Event.CloseClaim(a));
      if closed || handle == 0 {
        actors := actors[a := Finished];
        return Err(AlreadyClosed);
      }
      if closing || active != 0 {
        actors := actors[a := Finished];
        return Err(IsActive);
      }
      closing := true;
      words := words[a := handle];
      actors := actors[a := Disposing];
      return Ok(handle);
    }

    /** What Close does with the outcome of the native dispose call: a failure is undone at once. */
    method CloseOutcome(ghost a: Actor, ok: bool)
      requires Inv(View()) && a in actors && actors[a] == Disposing
      modifies this
      ensures View() == Step(old(View()), CloseDispose(a, ok)) && Inv(View())
      ensures ok ==> disposed == [made]
      ensures !ok ==> Usable(View().f) && disposed == []
    {
      StepKeepsInv(View(), CloseDispose(a, ok));
      assert a in At(View(), Disposing);
      if ok {
        disposed := disposed + [WordOf(View(), a)];
        actors := actors[a := Recording];
      } else {
        closing := false;
        actors := actors[a := Finished];
      }
    }

    /** Last critical section of Close; the caller then releases the reference it is handed. */
    method CloseRecord(ghost a: Actor) returns (reference: nat)
      requires Inv(View()) && a in actors && actors[a] == Recording
      modifies this
      ensures View() == Step(old(View()), Event.CloseRecord(a)) && Inv(View())
      ensures reference == madeRef == old(allocatorRef)
      ensures closed && handle == 0 && allocatorRef == 0 && released == []
    {
      StepKeepsInv(View(), Event.CloseRecord(a));
      assert a in At(View(), Recording);
      closed := true;
      handle := 0;
      reference := allocatorRef;
      allocatorRef := 0;
      closing := false;
      words := words[a := reference];
      actors := actors[a := if reference != 0 then Releasing else Finished];
    }
  }
}
