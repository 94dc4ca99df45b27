/**
 The ArrayBuffer-allocator registry (array_buffer_allocator.go): a mutex-guarded
 map, a lock-free pointer to the most recently used entry in front of it, and
 a wrapping 64-bit id counter.
 */
module AllocatorCache {
  import opened Runs

  type Actor = nat
  type Id = nat

  const MODULUS: nat := 0x1_0000_0000_0000_0000

  // ---------------------------------------------------- wrapping ids

  /** The uint64 increment. */
  function Succ(x: nat): (r: nat)
    requires x < MODULUS
    ensures r < MODULUS
  {
    if x + 1 == MODULUS then 0 else x + 1
  }

  /** The value d increments after start. */
  function Ahead(start: nat, d: nat): (r: nat)
    requires start < MODULUS && d < MODULUS
    ensures r < MODULUS
  {
    if start + d < MODULUS then start + d else start + d - MODULUS
  }

  predicate Refused(id: nat, occupied: set<nat>) {
    id == 0 || id in occupied
  }

  /** Every id but the counter's own value has been refused. */
  lemma ExhaustedMeans(start: nat, occupied: set<nat>)
    requires start < MODULUS
    requires forall d :: 1 <= d < MODULUS ==> Refused(Ahead(start, d), occupied)
    ensures forall v :: 0 < v < MODULUS && v != start ==> v in occupied
  {
    forall v | 0 < v < MODULUS && v != start ensures v in occupied {
      var d := if v > start then v - start else v + MODULUS - start;
      assert Ahead(start, d) == v;
    }
  }

  /** The id search of registerArrayBufferAllocator and nextCppGCGraphID: it
      finds the first free nonzero id after the counter in cyclic order, and
      reports exhaustion exactly when every nonzero id other than the
      counter's starting value is taken. */
  method NextId(start: nat, occupied: set<nat>) returns (next: nat, ok: bool)
    requires start < MODULUS
    ensures next < MODULUS
    ensures ok ==> next != 0 && next !in occupied
    ensures ok ==> exists d :: 1 <= d < MODULUS && next == Ahead(start, d) &&
                               forall c :: 1 <= c < d ==> Refused(Ahead(start, c), occupied)
    ensures !ok <==> forall v :: 0 < v < MODULUS && v != start ==> v in occupied
  {
    next := start;
    var attempts := 0;
    while attempts < MODULUS - 1
      invariant 0 <= attempts <= MODULUS - 1
      invariant next == Ahead(start, attempts)
      invariant forall c :: 1 <= c <= attempts ==> Refused(Ahead(start, c), occupied)
    {
      next := Succ(next);
      attempts := attempts + 1;
      assert next == Ahead(start, attempts);
      if next != 0 && next !in occupied {
        assert next != start;
        return next, true;
      }
    }
    ExhaustedMeans(start, occupied);
    return next, false;
  }

  // ------------------------------------------------ the cached registry

  /** ptr is the identity of the heap object; ids are reused after wrapping. */
  datatype Entry = Entry(ptr: nat, id: Id)

  datatype Slot = Nil | Ptr(e: Entry)

  datatype Pc =
    | LookupLock(id: Id)               // fast path missed
    | LookupStore(id: Id, e: Entry)    // mutex held
    | TakeSwap(id: Id, e: Entry)       // mutex held, entry deleted from the map
    | RegisterStore(e: Entry)          // mutex held, entry inserted
    | Found(result: Slot)              // a lookup has returned
    | Taken(result: Slot)              // a removal has returned
    | Registered(e: Entry)             // a registration has returned

  /** committed is the content of a plain locked map doing the same operations;
      a removal counts from the step that also clears the cached pointer. */
  datatype State = State(
    entries: map<Id, Entry>,
    active: Slot,
    mu: Mutex,
    actors: map<Actor, Pc>,
    committed: map<Id, Entry>)

  datatype Mutex = Free | By(a: Actor)

  datatype Event =
    | LookupLoad(a: Actor, id: Id)
    | LookupLocked(a: Actor)
    | LookupStored(a: Actor)
    | TakeLocked(a: Actor, id: Id)
    | TakeSwapped(a: Actor)
    | RegisterLocked(a: Actor, e: Entry)
    | RegisterStored(a: Actor)

  function Content(m: map<Id, Entry>, id: Id): Slot {
    if id in m then Ptr(m[id]) else Nil
  }

  predicate Enabled(s: State, e: Event) {
    match e
    case LookupLoad(a, _) => a !in s.actors
    case LookupLocked(a) => a in s.actors && s.actors[a].LookupLock? && s.mu == Free
    case LookupStored(a) => a in s.actors && s.actors[a].LookupStore?
    case TakeLocked(a, _) => a !in s.actors && s.mu == Free
    case TakeSwapped(a) => a in s.actors && s.actors[a].TakeSwap?
    case RegisterLocked(a, n) => a !in s.actors && s.mu == Free && n.id != 0 && n.id !in s.entries
    case RegisterStored(a) => a in s.actors && s.actors[a].RegisterStore?
  }

  function Goto(s: State, a: Actor, pc: Pc): State {
    s.(actors := s.actors[a := pc])
  }

  function Step(s: State, e: Event): State
    requires Enabled(s, e)
  {
    var a := e.a;
    match e
    case LookupLoad(_, id) =>
      if s.active.Ptr? && s.active.e.id == id then Goto(s, a, Found(s.active)) else Goto(s, a, LookupLock(id))
    case LookupLocked(_) =>
      var id := s.actors[a].id;
      if id in s.entries then Goto(s, a, LookupStore(id, s.entries[id])).(mu := By(a))
      else Goto(s, a, Found(Nil))
    case LookupStored(_) =>
      var pc := s.actors[a];
      Goto(s, a, Found(Ptr(pc.e))).(active := Ptr(pc.e), mu := Free)
    case TakeLocked(_, id) =>
      if id in s.entries then
        Goto(s, a, TakeSwap(id, s.entries[id])).(entries := s.entries - {id}, mu := By(a))
      else Goto(s, a, Taken(Nil))
    case TakeSwapped(_) =>
      var pc := s.actors[a];
      Goto(s, a, Taken(Ptr(pc.e))).(
        active := if s.active == Ptr(pc.e) then Nil else s.active, mu := Free, committed := s.committed - {pc.id})
    case RegisterLocked(_, n) =>
      Goto(s, a, RegisterStore(n)).(
        entries := s.entries[n.id := n], committed := s.committed[n.id := n], mu := By(a))
    case RegisterStored(_) => Goto(s, a, Registered(s.actors[a].e)).(active := Ptr(s.actors[a].e), mu := Free)
  }

  ghost predicate Init(s: State) {
    s == State(map[], Nil, Free, map[], map[])
  }

  ghost predicate Next(s: State, s': State) {
    exists e :: Enabled(s, e) && s' == Step(s, e)
  }

  predicate HoldsMutex(pc: Pc) {
    pc.LookupStore? || pc.TakeSwap? || pc.RegisterStore?
  }

  ghost predicate ActorInv(s: State, a: Actor) {
    a in s.actors ==>
      var pc := s.actors[a];
      && (HoldsMutex(pc) <==> s.mu == By(a))
      && (HoldsMutex(pc) ==> Content(s.committed, pc.e.id) == Ptr(pc.e))
      && (pc.LookupStore? ==> pc.e.id == pc.id && s.entries == s.committed)
      && (pc.RegisterStore? ==> s.entries == s.committed)
      && (pc.TakeSwap? ==> pc.e.id == pc.id && s.entries == s.committed - {pc.id})
  }

  ghost predicate Inv(s: State) {
    && (s.mu.By? ==> s.mu.a in s.actors)
    && (s.mu.Free? ==> s.entries == s.committed)
    && (forall id :: id in s.committed ==> s.committed[id].id == id)
    && (s.active.Ptr? ==> Content(s.committed, s.active.e.id) == s.active)
    && (forall a: Actor :: ActorInv(s, a))
  }

  lemma StepKeepsInv(s: State, e: Event)
    requires Inv(s) && Enabled(s, e)
    ensures Inv(Step(s, e))
  {
    var s' := Step(s, e);
    assert ActorInv(s, e.a);
    assert s.mu.By? ==> ActorInv(s, s.mu.a);
    forall b: Actor ensures ActorInv(s', b) {
      assert ActorInv(s, b);
    }
  }

  lemma RunInv(trace: seq<State>)
    requires IsRun(Init, Next, trace)
    ensures forall n: nat :: n < |trace| ==> Inv(trace[n])
  {
    forall s, s' | Inv(s) && Next(s, s') ensures Inv(s') {
      var e :| Enabled(s, e) && s' == Step(s, e);
      StepKeepsInv(s, e);
    }
    assert Inv(trace[0]);
    forall n: nat | n < |trace| ensures Inv(trace[n]) {
      StableAlongPath(Next, Inv, trace, 0, n);
    }
  }

  /** Outside the mutex the map is the plain map, and the cached pointer is nil
      or the map's own entry for its id. */
  lemma CacheAgreesOutsideMutex(trace: seq<State>, n: nat)
    requires IsRun(Init, Next, trace) && n < |trace| && trace[n].mu == Free
    ensures var s := trace[n];
            && s.entries == s.committed
            && (s.active.Ptr? ==> Content(s.entries, s.active.e.id) == s.active)
  {
    RunInv(trace);
  }

  // ------------------------------------------------------- linearizability

  /** Step k of the run is event e. */
  ghost predicate HappensAt(trace: seq<State>, k: nat, e: Event) {
    k + 1 < |trace| && Enabled(trace[k], e) && trace[k + 1] == Step(trace[k], e)
  }

  lemma EventOf(trace: seq<State>, k: nat) returns (e: Event)
    requires IsRun(Init, Next, trace) && k + 1 < |trace|
    ensures HappensAt(trace, k, e) && Inv(trace[k])
  {
    RunInv(trace);
    assert StepAt(Next, trace, k);
    e :| Enabled(trace[k], e) && trace[k + 1] == Step(trace[k], e);
  }

  ghost predicate Was(trace: seq<State>, m: nat, n: nat, id: Id, result: Slot) {
    exists j: nat :: m <= j <= n < |trace| && Content(trace[j].committed, id) == result
  }

  /** The map lost id at one step in between, and held what was taken just before it; nothing else changed. */
  ghost predicate Removed(trace: seq<State>, m: nat, n: nat, id: Id, result: Slot) {
    exists j: nat ::
      && m <= j < n < |trace| && Content(trace[j].committed, id) == result
      && trace[j + 1].committed == trace[j].committed - {id}
  }

  /** Where the lookup of id that actor a began with step m can be by state n, and what it has seen. */
  ghost predicate LookingUp(trace: seq<State>, m: nat, n: nat, a: Actor, id: Id)
    requires n < |trace|
  {
    && a in trace[n].actors
    && match trace[n].actors[a]
       case LookupLock(asked) => asked == id
       case LookupStore(asked, e) => asked == id && Was(trace, m, n, id, Ptr(e))
       case Found(result) => Was(trace, m, n, id, result)
       case _ => false
  }

  ghost predicate TakingOut(trace: seq<State>, m: nat, n: nat, a: Actor, id: Id)
    requires n < |trace|
  {
    && a in trace[n].actors
    && match trace[n].actors[a]
       case TakeSwap(asked, e) => asked == id
       case Taken(result) => Removed(trace, m, n, id, result)
       case _ => false
  }

  lemma WasLater(trace: seq<State>, m: nat, n: nat, id: Id)
    requires n + 1 < |trace|
    ensures forall result :: Was(trace, m, n, id, result) ==> Was(trace, m, n + 1, id, result)
    ensures forall result :: Removed(trace, m, n, id, result) ==> Removed(trace, m, n + 1, id, result)
  {
    forall result | Was(trace, m, n, id, result) ensures Was(trace, m, n + 1, id, result) {
      var j: nat :| m <= j <= n && Content(trace[j].committed, id) == result;
    }
    forall result | Removed(trace, m, n, id, result) ensures Removed(trace, m, n + 1, id, result) {
      var j: nat :| && m <= j < n && Content(trace[j].committed, id) == result
                    && trace[j + 1].committed == trace[j].committed - {id};
    }
  }

  lemma LookupStep(trace: seq<State>, m: nat, n: nat, a: Actor, id: Id, e: Event)
    requires n + 1 < |trace| && m < n && Inv(trace[n]) && HappensAt(trace, n, e) && LookingUp(trace, m, n, a, id)
    ensures LookingUp(trace, m, n + 1, a, id)
  {
    assert ActorInv(trace[n], e.a);
    WasLater(trace, m, n, id);
    assert Was(trace, m, n + 1, id, Content(trace[n].committed, id));
  }

  lemma LookupBegins(trace: seq<State>, m: nat, a: Actor, id: Id)
    requires m + 1 < |trace| && Inv(trace[m]) && HappensAt(trace, m, LookupLoad(a, id))
    ensures LookingUp(trace, m, m + 1, a, id)
  {
    assert Was(trace, m, m + 1, id, Content(trace[m].committed, id));
  }

  lemma {:induction false} LookupAlong(trace: seq<State>, m: nat, n: nat, a: Actor, id: Id)
    requires IsRun(Init, Next, trace) && m < n < |trace| && HappensAt(trace, m, LookupLoad(a, id))
    ensures LookingUp(trace, m, n, a, id)
  {
    var e := EventOf(trace, n - 1);
    if m + 1 == n {
      LookupBegins(trace, m, a, id);
    } else {
      LookupAlong(trace, m, n - 1, a, id);
      LookupStep(trace, m, n - 1, a, id, e);
    }
  }

  /** A lookup of id returns what the plain map held under id at some moment of the call. */
  lemma LookupIsLinearizable(trace: seq<State>, m: nat, n: nat, a: Actor, id: Id, result: Slot)
    requires IsRun(Init, Next, trace) && m < n < |trace| && HappensAt(trace, m, LookupLoad(a, id))
    requires a in trace[n].actors && trace[n].actors[a] == Found(result)
    ensures exists j: nat :: m <= j <= n && Content(trace[j].committed, id) == result
  {
    LookupAlong(trace, m, n, a, id);
    assert Was(trace, m, n, id, result);
  }

  lemma TakeStep(trace: seq<State>, m: nat, n: nat, a: Actor, id: Id, e: Event)
    requires n + 1 < |trace| && m < n && Inv(trace[n]) && HappensAt(trace, n, e) && TakingOut(trace, m, n, a, id)
    ensures TakingOut(trace, m, n + 1, a, id)
  {
    assert ActorInv(trace[n], a);
    WasLater(trace, m, n, id);
    if e.a == a {
      assert Removed(trace, m, n + 1, id, Ptr(trace[n].actors[a].e));
    }
  }

  lemma TakeBegins(trace: seq<State>, m: nat, a: Actor, id: Id)
    requires m + 1 < |trace| && Inv(trace[m]) && HappensAt(trace, m, TakeLocked(a, id))
    ensures TakingOut(trace, m, m + 1, a, id)
  {
    if id !in trace[m].entries {
      assert trace[m + 1].committed == trace[m].committed - {id};
      assert Removed(trace, m, m + 1, id, Nil);
    }
  }

  lemma {:induction false} TakeAlong(trace: seq<State>, m: nat, n: nat, a: Actor, id: Id)
    requires IsRun(Init, Next, trace) && m < n < |trace| && HappensAt(trace, m, TakeLocked(a, id))
    ensures TakingOut(trace, m, n, a, id)
  {
    var e := EventOf(trace, n - 1);
    if m + 1 == n {
      TakeBegins(trace, m, a, id);
    } else {
      TakeAlong(trace, m, n - 1, a, id);
      TakeStep(trace, m, n - 1, a, id, e);
    }
  }

  /** A removal of id returns what the plain map held under id, and removes
      exactly that, at one moment of the call. */
  lemma TakeIsLinearizable(trace: seq<State>, m: nat, n: nat, a: Actor, id: Id, result: Slot)
    requires IsRun(Init, Next, trace) && m < n < |trace| && HappensAt(trace, m, TakeLocked(a, id))
    requires a in trace[n].actors && trace[n].actors[a] == Taken(result)
    ensures exists j: nat ::
              && m <= j < n && Content(trace[j].committed, id) == result
              && trace[j + 1].committed == trace[j].committed - {id}
  {
    TakeAlong(trace, m, n, a, id);
    assert Removed(trace, m, n, id, result);
  }

  /** Step k registers an entry under id, or ends a removal of id. */
  ghost predicate Disturbs(trace: seq<State>, k: nat, id: Id) {
    || (exists a, e :: HappensAt(trace, k, RegisterLocked(a, e)) && e.id == id)
    || (exists a :: HappensAt(trace, k, TakeSwapped(a)) && trace[k].actors[a].id == id)
  }

  /** The map's content under id stays until a registration or removal of id changes it. */
  lemma {:induction false} Undisturbed(trace: seq<State>, m: nat, n: nat, id: Id)
    requires IsRun(Init, Next, trace) && m <= n < |trace| && forall k: nat :: m <= k < n ==> !Disturbs(trace, k, id)
    ensures Content(trace[n].committed, id) == Content(trace[m].committed, id)
  {
    if m < n {
      Undisturbed(trace, m, n - 1, id);
      var e := EventOf(trace, n - 1);
      assert !Disturbs(trace, n - 1, id);
    }
  }

  /** A lookup finds the entry that was registered under its id, from the moment
      the registration has it in the map until a removal of that id. */
  lemma RegisteredIsFound(
    trace: seq<State>, m: nat, p: nat, n: nat, a: Actor, b: Actor, entry: Entry, result: Slot)
    requires IsRun(Init, Next, trace) && m < p < n < |trace|
    requires HappensAt(trace, m, RegisterLocked(b, entry)) && HappensAt(trace, p, LookupLoad(a, entry.id))
    requires a in trace[n].actors && trace[n].actors[a] == Found(result)
    requires forall k: nat :: m < k < n ==> !Disturbs(trace, k, entry.id)
    ensures result == Ptr(entry)
  {
    LookupIsLinearizable(trace, p, n, a, entry.id, result);
    var j: nat :| p <= j <= n && Content(trace[j].committed, entry.id) == result;
    Undisturbed(trace, m + 1, j, entry.id);
  }

  /** Step k ends a locked lookup or a registration with entry e. */
  ghost predicate CachesAt(trace: seq<State>, k: nat, e: Entry) {
    exists a ::
      && (HappensAt(trace, k, LookupStored(a)) || HappensAt(trace, k, RegisterStored(a)))
      && trace[k].actors[a].e == e
  }

  /** Step k ends a removal of entry e. */
  ghost predicate UncachesAt(trace: seq<State>, k: nat, e: Entry) {
    exists a :: HappensAt(trace, k, TakeSwapped(a)) && trace[k].actors[a].e == e
  }

  /** The entry that a locked lookup or a registration ended with stays cached
      until another one caches its own, or until it is removed; as long as it is
      cached, a lookup of its id answers without the mutex. */
  lemma CachedUntilReplaced(trace: seq<State>, m: nat, n: nat, e: Entry, b: Actor)
    requires IsRun(Init, Next, trace) && m < n < |trace| && CachesAt(trace, m, e) && b !in trace[n].actors
    requires forall k: nat, other :: m < k < n && CachesAt(trace, k, other) ==> other == e
    requires forall k: nat :: m < k < n ==> !UncachesAt(trace, k, e)
    ensures trace[n].active == Ptr(e)
    ensures Step(trace[n], LookupLoad(b, e.id)).actors[b] == Found(Ptr(e))
    ensures Step(trace[n], LookupLoad(b, e.id)).mu == trace[n].mu
  {
    CachedSince(trace, m, n, e);
  }

  lemma {:induction false} CachedSince(trace: seq<State>, m: nat, n: nat, e: Entry)
    requires IsRun(Init, Next, trace) && m < n < |trace| && CachesAt(trace, m, e)
    requires forall k: nat, other :: m < k < n && CachesAt(trace, k, other) ==> other == e
    requires forall k: nat :: m < k < n ==> !UncachesAt(trace, k, e)
    ensures trace[n].active == Ptr(e)
  {
    if m + 1 < n {
      CachedSince(trace, m, n - 1, e);
      var x := EventOf(trace, n - 1);
      if x.LookupStored? || x.RegisterStored? {
        assert CachesAt(trace, n - 1, trace[n - 1].actors[x.a].e);
      } else if x.TakeSwapped? {
        assert !UncachesAt(trace, n - 1, e);
      }
    }
  }

  // ------------------------------------------------------------ the object

  /** The registry as its operations leave it between critical sections. */
  class AllocatorRegistry {
    var next: nat
    var entries: map<Id, Entry>
    var active: Slot
    var made: nat    // identities of entry objects handed out so far

    ghost predicate Valid()
      reads this
    {
      && next < MODULUS
      && (active.Ptr? ==> Content(entries, active.e.id) == active)
      && (forall id :: id in entries ==> entries[id].id == id != 0 && entries[id].ptr < made)
    }

    constructor ()
      ensures Valid() && entries == map[] && active == Nil
    {
      next, entries, active, made := 0, map[], Nil, 0;
    }

    method Register() returns (id: Id, ok: bool)
      requires Valid()
      modifies this
      ensures Valid()
      ensures ok ==> id != 0 && id !in old(entries) && entries == old(entries)[id := Entry(old(made), id)]
      ensures ok ==> active == Ptr(entries[id]) && forall k :: k in old(entries) ==> old(entries)[k] != entries[id]
      ensures !ok <==> forall v :: 0 < v < MODULUS && v != old(next) ==> v in old(entries)
      ensures !ok ==> entries == old(entries) && active == old(active)
    {
      next, ok := NextId(next, entries.Keys);
      id := next;
      if ok {
        var entry := Entry(made, id);
        made := made + 1;
        entries := entries[id := entry];
        active := Ptr(entry);
      }
    }

    /** The cached pointer answers exactly what the map would. */
    method Lookup(id: Id) returns (r: Slot)
      requires Valid()
      modifies this`active
      ensures Valid() && r == Content(entries, id)
      ensures active == if r == Nil then old(active) else r
    {
      if active.Ptr? && active.e.id == id {
        return active;
      }
      r := Content(entries, id);
      if r != Nil {
        active := r;
      }
    }

    method Take(id: Id) returns (r: Slot)
      requires Valid()
      modifies this`entries, this`active
      ensures Valid() && r == Content(old(entries), id) && entries == old(entries) - {id}
      ensures active == if old(active) == r then Nil else old(active)
    {
      r := Content(entries, id);
      if r != Nil {
        entries := entries - {id};
        if active == r {
          active := Nil;
        }
      } else {
        assert entries - {id} == entries;
      }
    }
  }
}
