/**
 One-shot transfer of platform tasks (platform_custom.go).

 The engine posts a native task handle to Go exactly once. From then on the
 posting callback, any number of Run, Close and finalizer calls, and the
 platform teardown race for it. Every activation of one of these is an actor
 with its own program counter; the task mutex and the entry mutex are owner
 fields. A critical section that waits for nothing is one step; one that does
 (armFinalizer waits for the entry mutex while holding the task mutex) is
 spread over several. IdleTask repeats Task word for word, so one model serves both.
 */
module TaskTransfer {
  import opened Runs
  import opened Wrappers

  type TaskId = nat
  type WorkId = nat
  type Actor = nat

  /** live: the atomic handle word is nonzero. */
  datatype Task = Task(live: bool, retention: Maybe, mu: Maybe)

  datatype Entry = Entry(done: bool, next: nat, work: map<WorkId, TaskId>, mu: Maybe)

  /** Who consumes the handle: a caller of take, or the teardown loop, which
      goes on to the rest of its list afterwards. */
  datatype Via = Caller | Teardown(rest: seq<TaskId>)

  datatype Pc =
    // customPlatformDispatch for one posted task, then armFinalizer
    | Posting(k: TaskId)                 // implementation callback running
    | ArmLock(k: TaskId)                 // handle was seen nonzero
    | ArmAddLock(k: TaskId)              // holds the task mutex
    | ArmAdd(k: TaskId)                  // holds both mutexes
    | ArmRetain(k: TaskId, id: WorkId)   // holds the task mutex, task is listed
    // take or closeFromPlatform, then the native call
    | TakeLock(k: TaskId, via: Via)
    | TakeRemoveLock(k: TaskId, id: WorkId)
    | TakeRemove(k: TaskId, id: WorkId)  // holds the entry mutex
    | TakeNative(k: TaskId, via: Via)
    // dropCustomPlatformEntry
    | DropLock
    | DropSnapshot                       // holds the entry mutex
    | DropNext(rest: seq<TaskId>)
    | DropCloser
    | Finished

  /** consumed counts the native run-delete and delete calls made with a task's
      handle. poster, owner and dropper record which actor was started for a
      task's posting callback, holds its swapped-out handle, or runs teardown. */
  datatype State = State(
    registered: bool,
    entry: Entry,
    tasks: map<TaskId, Task>,
    actors: map<Actor, Pc>,
    consumed: map<TaskId, nat>,
    closerCalls: nat,
    poster: map<TaskId, Actor>,
    owner: map<TaskId, Maybe>,
    dropper: Maybe)

  // ------------------------------------------------------------- mutexes

  predicate HoldsTask(pc: Pc) {
    pc.ArmAddLock? || pc.ArmAdd? || pc.ArmRetain?
  }

  predicate HoldsEntry(pc: Pc) {
    pc.ArmAdd? || pc.TakeRemove? || pc.DropSnapshot?
  }

  predicate WantsTask(pc: Pc) {
    pc.ArmLock? || pc.TakeLock?
  }

  predicate WantsEntry(pc: Pc) {
    pc.ArmAddLock? || pc.TakeRemoveLock? || pc.DropLock?
  }

  // --------------------------------------------------------------- steps

  /** The snapshot loop visits every value of the work map, in any order. */
  predicate Enumerates(order: seq<TaskId>, work: map<WorkId, TaskId>) {
    && (forall id :: id in work ==> work[id] in order)
    && (forall j :: j in order ==> exists id :: id in work && work[id] == j)
  }

  function Goto(s: State, a: Actor, pc: Pc): State {
    s.(actors := s.actors[a := pc])
  }

  predicate TaskFree(s: State, k: TaskId) {
    k in s.tasks && s.tasks[k].mu == None
  }

  predicate EntryFree(s: State) {
    s.entry.mu == None
  }

  // Activations: the engine posts a task, somebody calls Run, Close or the
  // finalizer, the platform is torn down.

  function Posted(s: State, a: Actor, k: TaskId): State {
    Goto(s, a, Posting(k)).(
      tasks := s.tasks[k := Task(true, None, None)],
      consumed := s.consumed[k := 0], poster := s.poster[k := a], owner := s.owner[k := None])
  }

  datatype StartOp = Post(k: TaskId) | Take(k: TaskId) | BeginDrop

  ghost predicate StartStep(s: State, s': State, a: Actor, op: StartOp) {
    a !in s.actors &&
    match op
    case Post(k) => s.registered && k !in s.tasks && s' == Posted(s, a, k)
    case Take(k) => k in s.tasks && s' == Goto(s, a, TakeLock(k, Caller))
    case BeginDrop => s.registered && s' == Goto(s, a, DropLock).(registered := false, dropper := Some(a))
  }

  // customPlatformDispatch after the implementation callback, and armFinalizer

  function ArmLocked(s: State, a: Actor, k: TaskId): State
    requires k in s.tasks
  {
    var live := s.tasks[k].live;
    Goto(s, a, if live then ArmAddLock(k) else Finished).(
      tasks := if live then s.tasks[k := s.tasks[k].(mu := Some(a))] else s.tasks)
  }

  /** entry.add; when the platform is already torn down the handle is swapped
      out at once and consumed by this activation. */
  function Added(s: State, a: Actor, k: TaskId): State {
    var id, done := s.entry.next + 1, s.entry.done;
    Goto(s, a, if done then TakeNative(k, Caller) else ArmRetain(k, id)).(
      entry := if done then s.entry.(mu := None) else Entry(false, id, s.entry.work[id := k], None),
      tasks := if done then s.tasks[k := Task(false, None, None)] else s.tasks,
      owner := if done then s.owner[k := Some(a)] else s.owner)
  }

  datatype ArmOp = EndPosting | LockTask

  ghost predicate ArmStep(s: State, s': State, a: Actor, op: ArmOp) {
    a in s.actors &&
    var pc := s.actors[a];
    match op
    case EndPosting =>
      pc.Posting? && pc.k in s.tasks && s' == Goto(s, a, if s.tasks[pc.k].live then ArmLock(pc.k) else Finished)
    case LockTask => pc.ArmLock? && TaskFree(s, pc.k) && s' == ArmLocked(s, a, pc.k)
  }

  datatype ListOp = LockForAdd | Add | Retain

  ghost predicate ListStep(s: State, s': State, a: Actor, op: ListOp) {
    a in s.actors &&
    var pc := s.actors[a];
    match op
    case LockForAdd =>
      pc.ArmAddLock? && EntryFree(s) && s' == Goto(s, a, ArmAdd(pc.k)).(entry := s.entry.(mu := Some(a)))
    case Add => pc.ArmAdd? && s' == Added(s, a, pc.k)
    case Retain =>
      pc.ArmRetain? && pc.k in s.tasks &&
      s' == Goto(s, a, Finished).(tasks := s.tasks[pc.k := s.tasks[pc.k].(retention := Some(pc.id), mu := None)])
  }

  // take and closeFromPlatform

  /** Under the task mutex: swap the handle word to zero and forget the retention. */
  function Swapped(s: State, a: Actor, k: TaskId, via: Via): State
    requires k in s.tasks
  {
    var t := s.tasks[k];
    Goto(s, a,
         if !t.live then if via.Teardown? then DropNext(via.rest) else Finished
         else if via == Caller && t.retention.Some? then TakeRemoveLock(k, t.retention.value)
         else TakeNative(k, via)).(
      tasks := if t.live then s.tasks[k := Task(false, None, None)] else s.tasks,
      owner := if t.live then s.owner[k := Some(a)] else s.owner)
  }

  /** A native run-delete or delete call with the handle that was swapped out. */
  function Consumed(s: State, a: Actor, k: TaskId, via: Via): State {
    Goto(s, a, if via.Teardown? then DropNext(via.rest) else Finished).(
      consumed := s.consumed[k := (if k in s.consumed then s.consumed[k] else 0) + 1],
      owner := s.owner[k := None])
  }

  ghost predicate TakeStep(s: State, s': State, a: Actor) {
    a in s.actors &&
    var pc := s.actors[a];
    pc.TakeLock? && TaskFree(s, pc.k) && s' == Swapped(s, a, pc.k, pc.via)
  }

  datatype RemoveOp = LockForRemove | Remove

  ghost predicate RemoveStep(s: State, s': State, a: Actor, op: RemoveOp) {
    a in s.actors &&
    var pc := s.actors[a];
    match op
    case LockForRemove =>
      && pc.TakeRemoveLock? && EntryFree(s)
      && s' == Goto(s, a, TakeRemove(pc.k, pc.id)).(entry := s.entry.(mu := Some(a)))
    case Remove =>
      && pc.TakeRemove?
      && s' == Goto(s, a, TakeNative(pc.k, Caller)).(entry := s.entry.(work := s.entry.work - {pc.id}, mu := None))
  }

  ghost predicate ConsumeStep(s: State, s': State, a: Actor) {
    a in s.actors &&
    var pc := s.actors[a];
    pc.TakeNative? && s' == Consumed(s, a, pc.k, pc.via)
  }

  // dropCustomPlatformEntry

  datatype DropOp = LockForSnapshot | Snapshot(order: seq<TaskId>)

  ghost predicate DropStep(s: State, s': State, a: Actor, op: DropOp) {
    a in s.actors &&
    var pc := s.actors[a];
    match op
    case LockForSnapshot =>
      pc.DropLock? && EntryFree(s) && s' == Goto(s, a, DropSnapshot).(entry := s.entry.(mu := Some(a)))
    case Snapshot(order) =>
      && pc.DropSnapshot? && Enumerates(order, s.entry.work)
      && s' == Goto(s, a, DropNext(order)).(entry := Entry(true, s.entry.next, map[], None))
  }

  datatype LoopOp = NextTask | RunCloser

  ghost predicate LoopStep(s: State, s': State, a: Actor, op: LoopOp) {
    a in s.actors &&
    var pc := s.actors[a];
    match op
    case NextTask =>
      && pc.DropNext?
      && s' == Goto(s, a, if pc.rest == [] then DropCloser else TakeLock(pc.rest[0], Teardown(pc.rest[1..])))
    case RunCloser => pc.DropCloser? && s' == Goto(s, a, Finished).(closerCalls := s.closerCalls + 1)
  }

  datatype Op =
    | OnStart(b: StartOp)
    | OnArm(m: ArmOp)
    | OnList(l: ListOp)
    | OnTake
    | OnRemove(r: RemoveOp)
    | OnConsume
    | OnDrop(d: DropOp)
    | OnLoop(n: LoopOp)

  ghost predicate Does(s: State, s': State, a: Actor, op: Op) {
    match op
    case OnStart(b) => StartStep(s, s', a, b)
    case OnArm(m) => ArmStep(s, s', a, m)
    case OnList(l) => ListStep(s, s', a, l)
    case OnTake => TakeStep(s, s', a)
    case OnRemove(r) => RemoveStep(s, s', a, r)
    case OnConsume => ConsumeStep(s, s', a)
    case OnDrop(d) => DropStep(s, s', a, d)
    case OnLoop(n) => LoopStep(s, s', a, n)
  }

  ghost predicate Init(s: State) {
    s == State(true, Entry(false, 0, map[], None), map[], map[], map[], 0, map[], map[], None)
  }

  ghost predicate Next(s: State, s': State) {
    exists a, op :: Does(s, s', a, op)
  }

  // ----------------------------------------------------------- invariant

  /** The actor swapped the handle out and has not made its native call yet. */
  predicate Owns(pc: Pc) {
    pc.TakeRemoveLock? || pc.TakeRemove? || pc.TakeNative?
  }

  /** The posting callback has not finished deciding what becomes of the task. */
  predicate Arming(pc: Pc) {
    pc.Posting? || pc.ArmLock? || pc.ArmAddLock? || pc.ArmAdd? || pc.ArmRetain?
  }

  /** Tasks the teardown loop still has to visit. */
  function Pending(pc: Pc): seq<TaskId> {
    match pc
    case DropNext(rest) => rest
    case TakeLock(k, Teardown(rest)) => [k] + rest
    case TakeNative(_, Teardown(rest)) => rest
    case _ => []
  }

  predicate BeforeSnapshot(pc: Pc) {
    pc.DropLock? || pc.DropSnapshot?
  }

  predicate InLoop(pc: Pc) {
    pc.DropNext? || pc.DropCloser? || ((pc.TakeLock? || pc.TakeNative?) && pc.via.Teardown?)
  }

  /** Teardown still has k on its list. */
  predicate Queued(s: State, k: TaskId) {
    s.dropper.Some? && s.dropper.value in s.actors && k in Pending(s.actors[s.dropper.value])
  }

  predicate Known(s: State, k: TaskId) {
    k in s.tasks && k in s.owner && k in s.poster && k in s.consumed
  }

  ghost predicate ActorInv(s: State, a: Actor) {
    a in s.actors ==>
      var pc := s.actors[a];
      && (Arming(pc) || Owns(pc) || pc.TakeLock? ==> Known(s, pc.k))
      && (HoldsTask(pc) ==> s.tasks[pc.k].mu == Some(a) && s.tasks[pc.k].live)
      && (HoldsEntry(pc) <==> s.entry.mu == Some(a))
      && (Owns(pc) ==> s.owner[pc.k] == Some(a))
      && (Arming(pc) ==> s.poster[pc.k] == a && s.tasks[pc.k].retention == None)
      && (pc.ArmRetain? ==>
            pc.id <= s.entry.next &&
            if s.entry.done then Queued(s, pc.k) else pc.id in s.entry.work && s.entry.work[pc.id] == pc.k)
      && (pc.TakeRemoveLock? || pc.TakeRemove? ==>
            pc.id <= s.entry.next && (pc.id in s.entry.work ==> s.entry.work[pc.id] == pc.k))
      && (BeforeSnapshot(pc) || InLoop(pc) ==> s.dropper == Some(a))
      && (forall j :: j in Pending(pc) ==> j in s.tasks)
  }

  ghost predicate TaskInv(s: State, k: TaskId) {
    k in s.tasks ==>
      && Known(s, k)
      && var t := s.tasks[k];
      && (t.mu.Some? ==>
            t.mu.value in s.actors && HoldsTask(s.actors[t.mu.value]) && s.actors[t.mu.value].k == k)
      && (s.owner[k].Some? ==>
            s.owner[k].value in s.actors && Owns(s.actors[s.owner[k].value]) && s.actors[s.owner[k].value].k == k)
      // exactly one of: still in the handle word, in one actor's hands, consumed
      && s.consumed[k] == (if t.live || s.owner[k].Some? then 0 else 1)
      && (t.live ==> s.owner[k] == None)
      && (t.retention.Some? ==> t.retention.value <= s.entry.next)
      // a live task is being armed, or listed in the work map, or queued for teardown
      && (t.live ==>
            || (s.poster[k] in s.actors && Arming(s.actors[s.poster[k]]) && s.actors[s.poster[k]].k == k)
            || (t.retention.Some? && t.retention.value in s.entry.work && s.entry.work[t.retention.value] == k)
            || (s.entry.done && Queued(s, k)))
  }

  ghost predicate WorkInv(s: State, id: WorkId) {
    id in s.entry.work ==>
      && id <= s.entry.next && !s.entry.done
      && var k := s.entry.work[id];
      && Known(s, k)
      && (|| (s.tasks[k].live && s.tasks[k].retention == Some(id))
          || (s.poster[k] in s.actors && s.actors[s.poster[k]] == ArmRetain(k, id))
          || (s.owner[k].Some? && s.owner[k].value in s.actors &&
              (s.actors[s.owner[k].value] == TakeRemoveLock(k, id) || s.actors[s.owner[k].value] == TakeRemove(k, id))))
  }

  ghost predicate EntryInv(s: State) {
    && (s.entry.mu.Some? ==> s.entry.mu.value in s.actors)
    && (s.registered <==> s.dropper == None)
    && (s.dropper == None ==> !s.entry.done && s.closerCalls == 0)
    && (s.dropper.Some? ==>
          && s.dropper.value in s.actors
          && var pc := s.actors[s.dropper.value];
          && (BeforeSnapshot(pc) || InLoop(pc) || pc.Finished?)
          && (s.entry.done <==> !BeforeSnapshot(pc))
          && s.closerCalls == if pc.Finished? then 1 else 0)
  }

  ghost predicate Inv(s: State) {
    && EntryInv(s)
    && (forall a: Actor :: ActorInv(s, a))
    && (forall k: TaskId :: TaskInv(s, k))
    && (forall id: WorkId :: WorkInv(s, id))
  }

  /** What the invariant says about the task an activation works on. */
  lemma AboutActor(s: State, a: Actor)
    requires Inv(s) && a in s.actors
    ensures ActorInv(s, a) && WorkInv(s, s.entry.next + 1)
    ensures var pc := s.actors[a];
            && (Arming(pc) || Owns(pc) || pc.TakeLock? ==>
                  && TaskInv(s, pc.k) && ActorInv(s, s.poster[pc.k])
                  && (s.tasks[pc.k].retention.Some? ==> WorkInv(s, s.tasks[pc.k].retention.value)))
            && (pc.TakeRemove? ==> WorkInv(s, pc.id))
  {
    assert ActorInv(s, a);
  }

  lemma ListedAreTasks(s: State, order: seq<TaskId>)
    requires Inv(s) && Enumerates(order, s.entry.work)
    ensures forall j :: j in order ==> j in s.tasks
  {
    forall j | j in order ensures j in s.tasks {
      var id :| id in s.entry.work && s.entry.work[id] == j;
      assert WorkInv(s, id);
    }
  }

  lemma StartKeepsActors(s: State, s': State, a: Actor, op: StartOp)
    requires Inv(s) && StartStep(s, s', a, op)
    ensures forall b: Actor :: ActorInv(s', b)
  {
    assert op.Take? ==> TaskInv(s, op.k);
    forall b: Actor ensures ActorInv(s', b) {
      assert ActorInv(s, b);
    }
  }

  lemma StartKeepsTasks(s: State, s': State, a: Actor, op: StartOp)
    requires Inv(s) && StartStep(s, s', a, op)
    ensures EntryInv(s')
    ensures forall k: TaskId :: TaskInv(s', k)
    ensures forall id: WorkId :: WorkInv(s', id)
  {
    assert op.Take? ==> TaskInv(s, op.k);
    forall k: TaskId ensures TaskInv(s', k) {
      assert TaskInv(s, k);
    }
    forall id: WorkId ensures WorkInv(s', id) {
      assert WorkInv(s, id);
    }
  }

  lemma ArmKeepsActors(s: State, s': State, a: Actor, op: ArmOp)
    requires Inv(s) && ArmStep(s, s', a, op)
    ensures forall b: Actor :: ActorInv(s', b)
  {
    AboutActor(s, a);
    forall b: Actor ensures ActorInv(s', b) {
      assert ActorInv(s, b);
    }
  }

  lemma ArmKeepsTasks(s: State, s': State, a: Actor, op: ArmOp)
    requires Inv(s) && ArmStep(s, s', a, op)
    ensures EntryInv(s')
    ensures forall k: TaskId :: TaskInv(s', k)
    ensures forall id: WorkId :: WorkInv(s', id)
  {
    AboutActor(s, a);
    forall k: TaskId ensures TaskInv(s', k) {
      assert TaskInv(s, k);
    }
    forall id: WorkId ensures WorkInv(s', id) {
      assert WorkInv(s, id);
    }
  }

  lemma ListKeepsOthers(s: State, s': State, a: Actor, op: ListOp)
    requires Inv(s) && ListStep(s, s', a, op)
    ensures forall b: Actor :: b != a ==> ActorInv(s', b)
  {
    AboutActor(s, a);
    forall b: Actor | b != a ensures ActorInv(s', b) {
      assert ActorInv(s, b);
    }
  }

  lemma ListKeepsActors(s: State, s': State, a: Actor, op: ListOp)
    requires Inv(s) && ListStep(s, s', a, op)
    ensures forall b: Actor :: ActorInv(s', b)
  {
    ListKeepsOthers(s, s', a, op);
    AboutActor(s, a);
    assert ActorInv(s', a);
  }

  lemma ListKeepsTasks(s: State, s': State, a: Actor, op: ListOp)
    requires Inv(s) && ListStep(s, s', a, op)
    ensures EntryInv(s')
    ensures forall k: TaskId :: TaskInv(s', k)
    ensures forall id: WorkId :: WorkInv(s', id)
  {
    AboutActor(s, a);
    forall k: TaskId ensures TaskInv(s', k) {
      assert TaskInv(s, k);
    }
    forall id: WorkId ensures WorkInv(s', id) {
      assert WorkInv(s, id);
    }
  }

  lemma TakeKeepsOthers(s: State, s': State, a: Actor)
    requires Inv(s) && TakeStep(s, s', a)
    ensures forall b: Actor :: b != a ==> ActorInv(s', b)
  {
    AboutActor(s, a);
    forall b: Actor | b != a ensures ActorInv(s', b) {
      assert ActorInv(s, b);
    }
  }

  lemma TakeKeepsActors(s: State, s': State, a: Actor)
    requires Inv(s) && TakeStep(s, s', a)
    ensures forall b: Actor :: ActorInv(s', b)
  {
    TakeKeepsOthers(s, s', a);
    AboutActor(s, a);
    assert ActorInv(s', a);
  }

  lemma TakeKeepsTasks(s: State, s': State, a: Actor)
    requires Inv(s) && TakeStep(s, s', a)
    ensures EntryInv(s')
    ensures forall k: TaskId :: TaskInv(s', k)
    ensures forall id: WorkId :: WorkInv(s', id)
  {
    AboutActor(s, a);
    forall k: TaskId ensures TaskInv(s', k) {
      assert TaskInv(s, k);
    }
    forall id: WorkId ensures WorkInv(s', id) {
      assert WorkInv(s, id);
    }
  }

  lemma RemoveKeepsActors(s: State, s': State, a: Actor, op: RemoveOp)
    requires Inv(s) && RemoveStep(s, s', a, op)
    ensures forall b: Actor :: ActorInv(s', b)
  {
    AboutActor(s, a);
    forall b: Actor ensures ActorInv(s', b) {
      assert ActorInv(s, b);
    }
  }

  lemma RemoveKeepsTasks(s: State, s': State, a: Actor, op: RemoveOp)
    requires Inv(s) && RemoveStep(s, s', a, op)
    ensures EntryInv(s')
    ensures forall k: TaskId :: TaskInv(s', k)
    ensures forall id: WorkId :: WorkInv(s', id)
  {
    AboutActor(s, a);
    forall k: TaskId ensures TaskInv(s', k) {
      assert TaskInv(s, k);
    }
    forall id: WorkId ensures WorkInv(s', id) {
      assert WorkInv(s, id);
    }
  }

  lemma ConsumeKeepsActors(s: State, s': State, a: Actor)
    requires Inv(s) && ConsumeStep(s, s', a)
    ensures forall b: Actor :: ActorInv(s', b)
  {
    AboutActor(s, a);
    forall b: Actor ensures ActorInv(s', b) {
      assert ActorInv(s, b);
    }
  }

  lemma ConsumeKeepsTasks(s: State, s': State, a: Actor)
    requires Inv(s) && ConsumeStep(s, s', a)
    ensures EntryInv(s')
    ensures forall k: TaskId :: TaskInv(s', k)
    ensures forall id: WorkId :: WorkInv(s', id)
  {
    AboutActor(s, a);
    forall k: TaskId ensures TaskInv(s', k) {
      assert TaskInv(s, k);
    }
    forall id: WorkId ensures WorkInv(s', id) {
      assert WorkInv(s, id);
    }
  }

  lemma DropKeepsActors(s: State, s': State, a: Actor, op: DropOp)
    requires Inv(s) && DropStep(s, s', a, op)
    ensures forall b: Actor :: ActorInv(s', b)
  {
    assert ActorInv(s, a);
    if op.Snapshot? {
      ListedAreTasks(s, op.order);
    }
    forall b: Actor ensures ActorInv(s', b) {
      assert ActorInv(s, b);
    }
  }

  lemma DropKeepsTasks(s: State, s': State, a: Actor, op: DropOp)
    requires Inv(s) && DropStep(s, s', a, op)
    ensures EntryInv(s')
    ensures forall k: TaskId :: TaskInv(s', k)
    ensures forall id: WorkId :: WorkInv(s', id)
  {
    assert ActorInv(s, a);
    if op.Snapshot? {
      ListedAreTasks(s, op.order);
    }
    forall k: TaskId ensures TaskInv(s', k) {
      assert TaskInv(s, k);
    }
    forall id: WorkId ensures WorkInv(s', id) {
      assert WorkInv(s, id);
    }
  }

  lemma LoopKeepsActors(s: State, s': State, a: Actor, op: LoopOp)
    requires Inv(s) && LoopStep(s, s', a, op)
    ensures forall b: Actor :: ActorInv(s', b)
  {
    assert ActorInv(s, a);
    var pc := s.actors[a];
    assert pc.DropNext? && pc.rest != [] ==> pc.rest == [pc.rest[0]] + pc.rest[1..] && TaskInv(s, pc.rest[0]);
    forall b: Actor ensures ActorInv(s', b) {
      assert ActorInv(s, b);
    }
  }

  lemma LoopKeepsTasks(s: State, s': State, a: Actor, op: LoopOp)
    requires Inv(s) && LoopStep(s, s', a, op)
    ensures EntryInv(s')
    ensures forall k: TaskId :: TaskInv(s', k)
    ensures forall id: WorkId :: WorkInv(s', id)
  {
    assert ActorInv(s, a);
    var pc := s.actors[a];
    assert pc.DropNext? && pc.rest != [] ==> pc.rest == [pc.rest[0]] + pc.rest[1..] && TaskInv(s, pc.rest[0]);
    forall k: TaskId ensures TaskInv(s', k) {
      assert TaskInv(s, k);
    }
    forall id: WorkId ensures WorkInv(s', id) {
      assert WorkInv(s, id);
    }
  }

  lemma NextKeepsInv()
    ensures forall s, s' :: Inv(s) && Next(s, s') ==> Inv(s')
  {
    forall s, s' | Inv(s) && Next(s, s') ensures Inv(s') {
      var a, op :| Does(s, s', a, op);
      match op
      case OnStart(b) =>
        StartKeepsActors(s, s', a, b);
        StartKeepsTasks(s, s', a, b);
      case OnArm(m) =>
        ArmKeepsActors(s, s', a, m);
        ArmKeepsTasks(s, s', a, m);
      case OnList(l) =>
        ListKeepsActors(s, s', a, l);
        ListKeepsTasks(s, s', a, l);
      case OnTake =>
        TakeKeepsActors(s, s', a);
        TakeKeepsTasks(s, s', a);
      case OnRemove(r) =>
        RemoveKeepsActors(s, s', a, r);
        RemoveKeepsTasks(s, s', a, r);
      case OnConsume =>
        ConsumeKeepsActors(s, s', a);
        ConsumeKeepsTasks(s, s', a);
      case OnDrop(d) =>
        DropKeepsActors(s, s', a, d);
        DropKeepsTasks(s, s', a, d);
      case OnLoop(n) =>
        LoopKeepsActors(s, s', a, n);
        LoopKeepsTasks(s, s', a, n);
    }
  }

  lemma RunInv(trace: seq<State>)
    requires IsRun(Init, Next, trace)
    ensures forall n: nat :: n < |trace| ==> Inv(trace[n])
  {
    NextKeepsInv();
    Invariant(Init, Next, Inv, trace);
  }

  // ------------------------------------------------------------ theorems

  predicate InHands(s: State, a: Actor, k: TaskId) {
    a in s.actors && Owns(s.actors[a]) && s.actors[a].k == k
  }

  /** In every interleaving each posted handle is in exactly one place: in its
      word, in the hands of one actor about to pass it to the engine, or
      consumed; so it reaches the engine at most once. */
  lemma ConsumedAtMostOnce(trace: seq<State>, n: nat, k: TaskId)
    requires IsRun(Init, Next, trace) && n < |trace| && k in trace[n].tasks
    ensures var s := trace[n];
            && k in s.consumed && s.consumed[k] <= 1
            && (s.consumed[k] == 0 <==> s.tasks[k].live || exists a :: InHands(s, a, k))
            && (forall a, b :: InHands(s, a, k) && InHands(s, b, k) ==> a == b && !s.tasks[k].live)
  {
    var s := trace[n];
    RunInv(trace);
    assert TaskInv(s, k);
    forall a: Actor | InHands(s, a, k) ensures s.owner[k] == Some(a) {
      assert ActorInv(s, a);
    }
    assert s.owner[k].Some? ==> InHands(s, s.owner[k].value, k);
  }

  predicate PosterFinished(s: State, k: TaskId) {
    k in s.poster && s.poster[k] in s.actors && !Arming(s.actors[s.poster[k]])
  }

  predicate TornDown(s: State) {
    s.dropper.Some? && s.dropper.value in s.actors && s.actors[s.dropper.value] == Finished
  }

  /** Once teardown and a task's posting callback have finished, its handle has
      left Go: it was consumed, or one caller of take is about to consume it. */
  lemma NothingSurvivesTeardown(trace: seq<State>, n: nat, k: TaskId)
    requires IsRun(Init, Next, trace) && n < |trace| && k in trace[n].tasks
    requires TornDown(trace[n]) && PosterFinished(trace[n], k)
    ensures !trace[n].tasks[k].live
    ensures (forall a :: a in trace[n].actors ==> trace[n].actors[a] == Finished) ==>
              k in trace[n].consumed && trace[n].consumed[k] == 1
  {
    var s := trace[n];
    RunInv(trace);
    assert TaskInv(s, k);
    if s.tasks[k].retention.Some? {
      assert WorkInv(s, s.tasks[k].retention.value);
    }
  }

  /** With no activation in flight and no teardown, the work map lists exactly
      the retained unconsumed tasks, each under its own id, and nothing else is unconsumed. */
  lemma WorkMapAtRest(trace: seq<State>, n: nat, id: WorkId, k: TaskId)
    requires IsRun(Init, Next, trace) && n < |trace|
    requires trace[n].dropper == None && forall a :: a in trace[n].actors ==> trace[n].actors[a] == Finished
    ensures var s := trace[n];
            && (id in s.entry.work && s.entry.work[id] == k
                <==> k in s.tasks && s.tasks[k].live && s.tasks[k].retention == Some(id))
            && (k in s.tasks ==>
                  k in s.consumed && (s.consumed[k] == 0 <==> s.tasks[k].retention.Some? && s.tasks[k].live))
  {
    var s := trace[n];
    RunInv(trace);
    assert WorkInv(s, id) && TaskInv(s, k);
  }

  /** The closer of the platform implementation runs at most once, after every listed task. */
  lemma CloserRunsOnce(trace: seq<State>, n: nat)
    requires IsRun(Init, Next, trace) && n < |trace|
    ensures trace[n].closerCalls <= 1
    ensures trace[n].closerCalls == 1 <==> TornDown(trace[n])
  {
    RunInv(trace);
  }

  /** The activation can take a step. */
  ghost predicate CanAdvance(s: State, a: Actor) {
    a in s.actors && exists s': State, op: Op :: !op.OnStart? && Does(s, s', a, op)
  }

  /** An activation can advance unless it has finished or waits for a mutex. */
  lemma ArmingAdvances(s: State, a: Actor)
    requires Inv(s) && a in s.actors && (s.actors[a].Posting? || Arming(s.actors[a]))
    requires WantsEntry(s.actors[a]) ==> EntryFree(s)
    requires WantsTask(s.actors[a]) ==> TaskFree(s, s.actors[a].k)
    ensures CanAdvance(s, a)
  {
    assert ActorInv(s, a);
    var pc := s.actors[a];
    if pc.Posting? {
      assert Does(s, Goto(s, a, if s.tasks[pc.k].live then ArmLock(pc.k) else Finished), a, OnArm(EndPosting));
    } else if pc.ArmLock? {
      assert Does(s, ArmLocked(s, a, pc.k), a, OnArm(LockTask));
    } else if pc.ArmAddLock? {
      assert Does(s, Goto(s, a, ArmAdd(pc.k)).(entry := s.entry.(mu := Some(a))), a, OnList(LockForAdd));
    } else if pc.ArmAdd? {
      assert Does(s, Added(s, a, pc.k), a, OnList(Add));
    } else {
      assert Does(s, Goto(s, a, Finished).(tasks := s.tasks[pc.k := s.tasks[pc.k].(retention := Some(pc.id),
                                                                                     mu := None)]), a,
                  OnList(Retain));
    }
  }

  lemma TakingAdvances(s: State, a: Actor)
    requires Inv(s) && a in s.actors && (s.actors[a].TakeLock? || Owns(s.actors[a]))
    requires WantsEntry(s.actors[a]) ==> EntryFree(s)
    requires WantsTask(s.actors[a]) ==> TaskFree(s, s.actors[a].k)
    ensures CanAdvance(s, a)
  {
    assert ActorInv(s, a);
    var pc := s.actors[a];
    if pc.TakeLock? {
      assert Does(s, Swapped(s, a, pc.k, pc.via), a, OnTake);
    } else if pc.TakeRemoveLock? {
      assert Does(s, Goto(s, a, TakeRemove(pc.k, pc.id)).(entry := s.entry.(mu := Some(a))), a,
                  OnRemove(LockForRemove));
    } else if pc.TakeRemove? {
      assert Does(s, Goto(s, a, TakeNative(pc.k, Caller)).(entry := s.entry.(work := s.entry.work - {pc.id},
                                                                             mu := None)), a, OnRemove(Remove));
    } else {
      assert Does(s, Consumed(s, a, pc.k, pc.via), a, OnConsume);
    }
  }

  lemma DroppingAdvances(s: State, a: Actor)
    requires Inv(s) && a in s.actors
    requires var pc := s.actors[a]; pc.DropLock? || pc.DropSnapshot? || pc.DropNext? || pc.DropCloser?
    requires WantsEntry(s.actors[a]) ==> EntryFree(s)
    ensures CanAdvance(s, a)
  {
    assert ActorInv(s, a);
    var pc := s.actors[a];
    if pc.DropLock? {
      assert Does(s, Goto(s, a, DropSnapshot).(entry := s.entry.(mu := Some(a))), a, OnDrop(LockForSnapshot));
    } else if pc.DropSnapshot? {
      var order := ListValues(s.entry.work);
      assert Does(s, Goto(s, a, DropNext(order)).(entry := Entry(true, s.entry.next, map[], None)), a,
                  OnDrop(Snapshot(order)));
    } else if pc.DropNext? {
      var rest := pc.rest;
      assert Does(s, Goto(s, a, if rest == [] then DropCloser else TakeLock(rest[0], Teardown(rest[1..]))), a,
                  OnLoop(NextTask));
    } else {
      assert Does(s, Goto(s, a, Finished).(closerCalls := s.closerCalls + 1), a, OnLoop(RunCloser));
    }
  }

  lemma AdvancesUnlessWaiting(s: State, a: Actor)
    requires Inv(s) && a in s.actors && s.actors[a] != Finished
    requires WantsEntry(s.actors[a]) ==> EntryFree(s)
    requires WantsTask(s.actors[a]) ==> TaskFree(s, s.actors[a].k)
    ensures CanAdvance(s, a)
  {
    var pc := s.actors[a];
    if pc.Posting? || Arming(pc) {
      ArmingAdvances(s, a);
    } else if pc.TakeLock? || Owns(pc) {
      TakingAdvances(s, a);
    } else {
      DroppingAdvances(s, a);
    }
  }

  lemma ListValues(work: map<WorkId, TaskId>) returns (order: seq<TaskId>)
    ensures Enumerates(order, work)
    decreases |work|
  {
    order := [];
    if work != map[] {
      var id :| id in work;
      var rest := work - {id};
      assert rest.Keys == work.Keys - {id};
      var tail := ListValues(rest);
      order := [work[id]] + tail;
      assert forall i :: i in work ==> i == id || (i in rest && rest[i] == work[i]);
    }
  }

  /** In every run an activation that holds the entry mutex waits for nothing,
      and one that holds a task mutex waits at most for the entry mutex. */
  lemma HoldersAdvance(trace: seq<State>, n: nat, a: Actor)
    requires IsRun(Init, Next, trace) && n < |trace| && a in trace[n].actors
    requires HoldsEntry(trace[n].actors[a]) || (HoldsTask(trace[n].actors[a]) && EntryFree(trace[n]))
    ensures CanAdvance(trace[n], a)
  {
    RunInv(trace);
    AdvancesUnlessWaiting(trace[n], a);
  }

  /** No deadlock: while some activation is unfinished, some activation can take a step. */
  lemma SomeoneAdvances(trace: seq<State>, n: nat, a: Actor) returns (b: Actor)
    requires IsRun(Init, Next, trace) && n < |trace|
    requires a in trace[n].actors && trace[n].actors[a] != Finished
    ensures CanAdvance(trace[n], b)
  {
    var s := trace[n];
    RunInv(trace);
    b := a;
    if s.entry.mu.Some? {
      b := s.entry.mu.value;
      assert ActorInv(s, b);
    } else if WantsTask(s.actors[a]) {
      assert ActorInv(s, a) && TaskInv(s, s.actors[a].k);
      if s.tasks[s.actors[a].k].mu.Some? {
        b := s.tasks[s.actors[a].k].mu.value;
      }
    }
    AdvancesUnlessWaiting(s, b);
  }

  /** entry.remove by an activation that has swapped the handle out. */
  ghost function Unlist(s: State, a: Actor, k: TaskId, id: WorkId): (path: seq<State>)
    requires a in s.actors && s.actors[a] == TakeRemoveLock(k, id) && EntryFree(s)
    ensures |path| == 2 && Next(s, path[0]) && Next(path[0], path[1])
    ensures path[1] ==
            s.(actors := s.actors[a := TakeNative(k, Caller)], entry := s.entry.(work := s.entry.work - {id}))
  {
    var s1 := Goto(s, a, TakeRemove(k, id)).(entry := s.entry.(mu := Some(a)));
    var s2 := Goto(s1, a, TakeNative(k, Caller)).(entry := s1.entry.(work := s1.entry.work - {id}, mu := None));
    assert Does(s, s1, a, OnRemove(LockForRemove));
    assert Does(s1, s2, a, OnRemove(Remove));
    [s1, s2]
  }

  /** take by a new activation, up to the native call. */
  ghost function TakeOut(s: State, a: Actor, k: TaskId): (path: seq<State>)
    requires a !in s.actors && TaskFree(s, k) && s.tasks[k].live
    ensures |path| == 2 && Next(s, path[0]) && Next(path[0], path[1])
    ensures var id := s.tasks[k].retention;
            path[1] ==
            s.(actors := s.actors[a := if id.Some? then TakeRemoveLock(k, id.value) else TakeNative(k, Caller)],
               tasks := s.tasks[k := Task(false, None, None)], owner := s.owner[k := Some(a)])
  {
    var s1 := Goto(s, a, TakeLock(k, Caller));
    var s2 := Swapped(s1, a, k, Caller);
    assert Does(s, s1, a, OnStart(Take(k)));
    assert Does(s1, s2, a, OnTake);
    [s1, s2]
  }

  /** The native call of an activation that holds k's handle. */
  lemma ConsumeNow(s: State, a: Actor, k: TaskId)
    requires a in s.actors && s.actors[a] == TakeNative(k, Caller) && k in s.consumed && s.consumed[k] == 0
    ensures Next(s, s.(actors := s.actors[a := Finished], consumed := s.consumed[k := 1], owner := s.owner[k := None]))
  {
    assert Does(s, Consumed(s, a, k, Caller), a, OnConsume);
  }

  /** Run, Close or a finalizer on any live task of a reachable state, when the
      task mutex is free and nobody lists the task: the handle is consumed and
      nothing else changes. */
  lemma TakeConsumes(s: State, a: Actor, k: TaskId)
    requires Inv(s) && a !in s.actors && TaskFree(s, k) && s.tasks[k].live && s.tasks[k].retention == None
    ensures exists s' ::
              && Leads(Next, s, s')
              && s' == s.(actors := s.actors[a := Finished], tasks := s.tasks[k := Task(false, None, None)],
                         consumed := s.consumed[k := 1], owner := s.owner[k := None])
  {
    assert TaskInv(s, k);
    var out := TakeOut(s, a, k);
    ConsumeNow(out[1], a, k);
    Along(Next, [s, out[0], out[1],
                 out[1].(actors := out[1].actors[a := Finished], consumed := s.consumed[k := 1],
                         owner := out[1].owner[k := None])]);
  }

  /** The same for a listed task, which also leaves the work map. */
  lemma TakeUnlists(s: State, a: Actor, k: TaskId, id: WorkId)
    requires Inv(s) && a !in s.actors && TaskFree(s, k) && s.tasks[k].live && s.tasks[k].retention == Some(id)
    requires EntryFree(s)
    ensures exists s' ::
              && Leads(Next, s, s')
              && s' == s.(actors := s.actors[a := Finished], tasks := s.tasks[k := Task(false, None, None)],
                         entry := s.entry.(work := s.entry.work - {id}),
                         consumed := s.consumed[k := 1], owner := s.owner[k := None])
  {
    assert TaskInv(s, k);
    var out := TakeOut(s, a, k);
    var off := Unlist(out[1], a, k, id);
    ConsumeNow(off[1], a, k);
    Along(Next, [s, out[0], out[1], off[0], off[1],
                 off[1].(actors := off[1].actors[a := Finished], consumed := s.consumed[k := 1],
                         owner := off[1].owner[k := None])]);
  }

  // ------------------------------------------------ what the posting callback leaves

  function BothLocked(s: State, a: Actor, k: TaskId): State
    requires k in s.tasks
  {
    s.(actors := s.actors[a := ArmAdd(k)], tasks := s.tasks[k := s.tasks[k].(mu := Some(a))],
       entry := s.entry.(mu := Some(a)))
  }

  /** armFinalizer up to its add: both mutexes are held. */
  lemma LockBoth(s: State, a: Actor, k: TaskId)
    requires a in s.actors && s.actors[a] == Posting(k) && TaskFree(s, k) && EntryFree(s) && s.tasks[k].live
    ensures Leads(Next, s, BothLocked(s, a, k))
  {
    var s1 := Goto(s, a, ArmLock(k));
    assert ArmStep(s, s1, a, EndPosting) && Does(s, s1, a, OnArm(EndPosting));
    var s2 := ArmLocked(s1, a, k);
    assert ArmStep(s1, s2, a, LockTask) && Does(s1, s2, a, OnArm(LockTask));
    var s3 := Goto(s2, a, ArmAdd(k)).(entry := s2.entry.(mu := Some(a)));
    assert ListStep(s2, s3, a, LockForAdd) && Does(s2, s3, a, OnList(LockForAdd));
    assert s3 == BothLocked(s, a, k);
    Along(Next, [s, s1, s2, s3]);
  }

  /** A task that the implementation keeps while the platform is alive, from any
      reachable state: its posting activation finishes with the task live,
      retained under the next id, listed there and not consumed, and nothing else
      has changed. */
  lemma PostingRetains(s: State, a: Actor, k: TaskId)
    requires Inv(s) && a in s.actors && s.actors[a] == Posting(k) && s.dropper == None
    requires TaskFree(s, k) && EntryFree(s) && s.tasks[k].live
    ensures k in s.consumed && s.consumed[k] == 0
    ensures exists s' ::
              && Leads(Next, s, s')
              && var id := s.entry.next + 1;
                 s' == s.(actors := s.actors[a := Finished], tasks := s.tasks[k := Task(true, Some(id), None)],
                          entry := Entry(false, id, s.entry.work[id := k], None))
  {
    assert TaskInv(s, k) && ActorInv(s, a);
    var id := s.entry.next + 1;
    LockBoth(s, a, k);
    var s3 := BothLocked(s, a, k);
    var s4 := Added(s3, a, k);
    assert ListStep(s3, s4, a, Add) && Does(s3, s4, a, OnList(Add));
    var s5 := Goto(s4, a, Finished).(tasks := s4.tasks[k := s4.tasks[k].(retention := Some(id), mu := None)]);
    assert ListStep(s4, s5, a, Retain) && Does(s4, s5, a, OnList(Retain));
    Along(Next, [s3, s4, s5]);
    Through(Next, s, s3, s5);
  }

  /** The engine posts a task on a live platform and the implementation keeps it,
      from every reachable state with the entry mutex free. */
  lemma PostRetains(s: State, a: Actor, k: TaskId)
    requires Inv(s) && s.registered && a !in s.actors && k !in s.tasks && EntryFree(s)
    ensures exists s' ::
              && Leads(Next, s, s')
              && var id := s.entry.next + 1;
                 s' == s.(actors := s.actors[a := Finished], tasks := s.tasks[k := Task(true, Some(id), None)],
                          entry := Entry(false, id, s.entry.work[id := k], None), consumed := s.consumed[k := 0],
                          poster := s.poster[k := a], owner := s.owner[k := None])
  {
    var s1 := Posted(s, a, k);
    assert StartStep(s, s1, a, Post(k)) && Does(s, s1, a, OnStart(Post(k)));
    Along(Next, [s, s1]);
    assert Inv(s1) by {
      NextKeepsInv();
      assert Next(s, s1);
    }
    PostingRetains(s1, a, k);
    var id := s.entry.next + 1;
    var s2 := s1.(actors := s1.actors[a := Finished], tasks := s1.tasks[k := Task(true, Some(id), None)],
                  entry := Entry(false, id, s1.entry.work[id := k], None));
    Through(Next, s, s1, s2);
    assert s2.actors == s.actors[a := Finished] && s2.tasks == s.tasks[k := Task(true, Some(id), None)];
  }

  /** A task that is consumed inside its posting callback leaves nothing behind in the work map. */
  lemma ConsumedPostingEnds(s: State, a: Actor, k: TaskId)
    requires a in s.actors && s.actors[a] == Posting(k) && k in s.tasks && !s.tasks[k].live
    ensures Leads(Next, s, s.(actors := s.actors[a := Finished]))
  {
    var s1 := Goto(s, a, Finished);
    assert ArmStep(s, s1, a, EndPosting) && Does(s, s1, a, OnArm(EndPosting));
    Along(Next, [s, s1]);
  }

  /** Where an activation is that has come to add its task. */
  predicate AfterAdd(s: State, a: Actor, k: TaskId, done: bool) {
    && a in s.actors
    && if done then s.actors[a] == TakeNative(k, Caller) || s.actors[a] == Finished
       else s.actors[a].ArmRetain? || s.actors[a] == Finished
  }

  lemma StartStays(s: State, s': State, b: Actor, op: StartOp, a: Actor)
    requires a in s.actors && StartStep(s, s', b, op)
    ensures a in s'.actors && s'.actors[a] == s.actors[a]
  {
  }

  lemma ListStays(s: State, s': State, b: Actor, op: ListOp, a: Actor)
    requires a in s.actors && ListStep(s, s', b, op) && b != a
    ensures a in s'.actors && s'.actors[a] == s.actors[a]
  {
  }

  lemma TakersStay(s: State, s': State, b: Actor, op: Op, a: Actor)
    requires a in s.actors && Does(s, s', b, op) && b != a && (op.OnTake? || op.OnRemove? || op.OnConsume?)
    ensures a in s'.actors && s'.actors[a] == s.actors[a]
  {
  }

  /** A step moves no other activation. */
  lemma OthersStay(s: State, s': State, b: Actor, op: Op, a: Actor)
    requires a in s.actors && Does(s, s', b, op) && b != a
    ensures a in s'.actors && s'.actors[a] == s.actors[a]
  {
    if op.OnStart? {
      StartStays(s, s', b, op.b, a);
    } else if op.OnList? {
      ListStays(s, s', b, op.l, a);
    } else if op.OnTake? || op.OnRemove? || op.OnConsume? {
      TakersStay(s, s', b, op, a);
    }
  }

  lemma AfterAddSteps(s: State, s': State, op: Op, a: Actor, k: TaskId, done: bool)
    requires AfterAdd(s, a, k, done) && Does(s, s', a, op)
    ensures AfterAdd(s', a, k, done) && s.actors[a] != Finished && (op.OnConsume? <==> done)
  {
  }

  /** Step i of the run is the native call of activation a with the handle of k. */
  ghost predicate ConsumesAt(trace: seq<State>, i: nat, a: Actor, k: TaskId) {
    i + 1 < |trace| && ConsumeStep(trace[i], trace[i + 1], a) && trace[i].actors[a].k == k
  }

  lemma {:induction false} AddedSince(trace: seq<State>, j: nat, n: nat, a: Actor, k: TaskId, done: bool)
    requires IsRun(Init, Next, trace) && j < n < |trace| && AfterAdd(trace[j + 1], a, k, done)
    requires trace[j + 1].actors[a] != Finished
    ensures AfterAdd(trace[n], a, k, done)
    ensures !done ==> forall i: nat :: j < i < n ==> !ConsumesAt(trace, i, a, k)
    ensures done && trace[n].actors[a] == Finished ==> exists i: nat :: j < i < n && ConsumesAt(trace, i, a, k)
  {
    if j + 1 < n {
      AddedSince(trace, j, n - 1, a, k, done);
      assert StepAt(Next, trace, n - 1);
      var b, op :| Does(trace[n - 1], trace[n], b, op);
      if b != a {
        OthersStay(trace[n - 1], trace[n], b, op, a);
      } else {
        AfterAddSteps(trace[n - 1], trace[n], op, a, k, done);
        assert done ==> ConsumesAt(trace, n - 1, a, k);
      }
    }
  }

  /** A posting activation consumes the task it was started for exactly if the
      platform was already torn down when it came to add it. */
  lemma PosterConsumesIffTornDown(trace: seq<State>, j: nat, n: nat, a: Actor, k: TaskId)
    requires IsRun(Init, Next, trace) && j < n < |trace| && ListStep(trace[j], trace[j + 1], a, Add)
    requires trace[j].actors[a] == ArmAdd(k) && a in trace[n].actors && trace[n].actors[a] == Finished
    ensures (exists i: nat :: j < i < n && ConsumesAt(trace, i, a, k)) <==> trace[j].entry.done
  {
    AddedSince(trace, j, n, a, k, trace[j].entry.done);
  }

  // ------------------------------------------------------------ a whole teardown

  /** Nobody holds a mutex. */
  ghost predicate Quiet(s: State) {
    EntryFree(s) && forall k :: k in s.tasks ==> s.tasks[k].mu == None
  }

  /** The next turn of the teardown loop is to come. */
  ghost predicate TurnOver(s: State, s': State, a: Actor, rest: seq<TaskId>) {
    && Quiet(s') && s'.tasks.Keys == s.tasks.Keys && s'.registered == s.registered
    && s'.actors == s.actors[a := DropNext(rest)]
  }

  lemma CloseTask(s: State, a: Actor, k: TaskId, rest: seq<TaskId>)
    requires a in s.actors && s.actors[a] == TakeLock(k, Teardown(rest)) && Quiet(s) && k in s.tasks
    ensures exists s' :: Leads(Next, s, s') && TurnOver(s, s', a, rest)
  {
    var via := Teardown(rest);
    var s1 := Swapped(s, a, k, via);
    assert TakeStep(s, s1, a) && Does(s, s1, a, OnTake);
    if s.tasks[k].live {
      var s2 := Consumed(s1, a, k, via);
      assert ConsumeStep(s1, s2, a) && Does(s1, s2, a, OnConsume);
      Along(Next, [s, s1, s2]);
      assert TurnOver(s, s2, a, rest);
    } else {
      Along(Next, [s, s1]);
      assert TurnOver(s, s1, a, rest);
    }
  }

  /** One turn of the teardown loop. */
  lemma CloseNext(s: State, a: Actor, rest: seq<TaskId>)
    requires a in s.actors && s.actors[a] == DropNext(rest) && Quiet(s) && rest != [] && rest[0] in s.tasks
    ensures exists s' :: Leads(Next, s, s') && TurnOver(s, s', a, rest[1..])
  {
    var s1 := Goto(s, a, TakeLock(rest[0], Teardown(rest[1..])));
    assert LoopStep(s, s1, a, NextTask) && Does(s, s1, a, OnLoop(NextTask));
    Along(Next, [s, s1]);
    CloseTask(s1, a, rest[0], rest[1..]);
    var s2 :| Leads(Next, s1, s2) && TurnOver(s1, s2, a, rest[1..]);
    Through(Next, s, s1, s2);
    assert TurnOver(s, s2, a, rest[1..]);
  }

  lemma {:induction false} CloseAll(s: State, a: Actor, rest: seq<TaskId>)
    requires a in s.actors && s.actors[a] == DropNext(rest) && Quiet(s) && forall k :: k in rest ==> k in s.tasks
    ensures exists s' :: Leads(Next, s, s') && s'.actors == s.actors[a := Finished] && s'.registered == s.registered
    decreases |rest|
  {
    if rest == [] {
      var s1 := Goto(s, a, DropCloser);
      assert LoopStep(s, s1, a, NextTask) && Does(s, s1, a, OnLoop(NextTask));
      var s2 := Goto(s1, a, Finished).(closerCalls := s.closerCalls + 1);
      assert LoopStep(s1, s2, a, RunCloser) && Does(s1, s2, a, OnLoop(RunCloser));
      Along(Next, [s, s1, s2]);
      assert s2.actors == s.actors[a := Finished];
    } else {
      CloseNext(s, a, rest);
      var s1 :| Leads(Next, s, s1) && TurnOver(s, s1, a, rest[1..]);
      assert forall k :: k in s1.tasks <==> k in s1.tasks.Keys;
      CloseAll(s1, a, rest[1..]);
      var s2 :| Leads(Next, s1, s2) && s2.actors == s1.actors[a := Finished] && s2.registered == s1.registered;
      Through(Next, s, s1, s2);
      assert s2.actors == s.actors[a := Finished];
    }
  }

  /** dropCustomPlatformEntry up to its loop. */
  lemma Snapshotted(s: State, a: Actor, order: seq<TaskId>)
    requires s.registered && a !in s.actors && EntryFree(s) && Enumerates(order, s.entry.work)
    ensures Leads(Next, s, s.(actors := s.actors[a := DropNext(order)], registered := false, dropper := Some(a),
                              entry := Entry(true, s.entry.next, map[], None)))
  {
    var s1 := Goto(s, a, DropLock).(registered := false, dropper := Some(a));
    assert StartStep(s, s1, a, BeginDrop) && Does(s, s1, a, OnStart(BeginDrop));
    var s2 := Goto(s1, a, DropSnapshot).(entry := s1.entry.(mu := Some(a)));
    assert DropStep(s1, s2, a, LockForSnapshot) && Does(s1, s2, a, OnDrop(LockForSnapshot));
    var s3 := Goto(s2, a, DropNext(order)).(entry := Entry(true, s.entry.next, map[], None));
    assert DropStep(s2, s3, a, Snapshot(order)) && Does(s2, s3, a, OnDrop(Snapshot(order)));
    Along(Next, [s, s1, s2, s3]);
    assert s3 == s.(actors := s.actors[a := DropNext(order)], registered := false, dropper := Some(a),
                    entry := Entry(true, s.entry.next, map[], None));
  }

  lemma QuietAtRest(s: State)
    requires Inv(s) && forall b :: b in s.actors ==> s.actors[b] == Finished
    ensures Quiet(s)
  {
    forall k | k in s.tasks ensures s.tasks[k].mu == None {
      assert TaskInv(s, k);
    }
    assert s.entry.mu.Some? ==> ActorInv(s, s.entry.mu.value);
  }

  /** Platform teardown, from every reachable state with nothing in flight: it
      runs to its end, the closer has run, the work map is empty, and every task
      ever posted has been consumed exactly once. */
  lemma TeardownConsumesAll(s: State, a: Actor)
    requires Inv(s) && s.registered && a !in s.actors && forall b :: b in s.actors ==> s.actors[b] == Finished
    ensures exists s' ::
              && Leads(Next, s, s') && TornDown(s') && s'.closerCalls == 1 && s'.entry.work == map[]
              && s'.actors == s.actors[a := Finished]
              && forall k :: k in s'.tasks ==> !s'.tasks[k].live && k in s'.consumed && s'.consumed[k] == 1
  {
    QuietAtRest(s);
    var order := ListValues(s.entry.work);
    ListedAreTasks(s, order);
    Snapshotted(s, a, order);
    var s1 := s.(actors := s.actors[a := DropNext(order)], registered := false, dropper := Some(a),
                 entry := Entry(true, s.entry.next, map[], None));
    CloseAll(s1, a, order);
    var s' :| Leads(Next, s1, s') && s'.actors == s1.actors[a := Finished] && s'.registered == s1.registered;
    Through(Next, s, s1, s');
    assert s'.actors == s.actors[a := Finished];
    TornDownAtRest(s, s', a);
  }

  /** The only teardown of the run is over, and nothing is in flight. */
  lemma TornDownAtRest(s: State, s': State, a: Actor)
    requires Inv(s) && Leads(Next, s, s') && s.registered && a !in s.actors
    requires s'.actors == s.actors[a := Finished] && forall b :: b in s'.actors ==> s'.actors[b] == Finished
    requires !s'.registered
    ensures TornDown(s') && s'.closerCalls == 1 && s'.entry.work == map[]
    ensures forall k :: k in s'.tasks ==> !s'.tasks[k].live && k in s'.consumed && s'.consumed[k] == 1
  {
    NextKeepsInv();
    StableThrough(Next, Inv, s, s');
    assert s'.entry.work == map[] by {
      forall id: WorkId ensures id !in s'.entry.work {
        assert WorkInv(s', id);
      }
    }
    forall k | k in s'.tasks ensures !s'.tasks[k].live && k in s'.consumed && s'.consumed[k] == 1 {
      assert TaskInv(s', k);
    }
  }
}
