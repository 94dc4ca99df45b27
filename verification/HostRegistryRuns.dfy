/**
 What the callback registry promises in every run, exactly when it fails, and
 the runs in which it does.
 */
module HostRegistryRuns {
  import opened Runs
  import opened HostRegistry
  import opened HostRegistrySteps

  lemma RunInv(trace: seq<State>)
    requires IsRun(Init, Next, trace)
    ensures forall n: nat :: n < |trace| ==> Inv(trace[n])
  {
    InitInv();
    NextKeepsInv();
    Invariant(Init, Next, Inv, trace);
  }

  // ------------------------------------------------------------- theorems

  /** The lock-free table answers exactly what the map holds, for every handle
      whose chunk was not jumped over and whose drop is not half done; during
      that half it already answers nil. */
  lemma FastTableAgrees(trace: seq<State>, n: nat, h: Handle)
    requires IsRun(Init, Next, trace) && n < |trace| && h != 0
    requires !trace[n].overlapped && !Jumped(trace[n].published, ChunkOf(h))
    ensures var s := trace[n];
            LookupIn(s, Current(s), h) == if HalfDropped(s, h) then Nil else Content(s.entries, h)
  {
    RunInv(trace);
    assert HandleInv(trace[n], h);
  }

  /** A cell reached through an older directory is the one every later directory reaches. */
  lemma OldDirectoriesShareCells(trace: seq<State>, n: nat, d: nat, h: Handle)
    requires IsRun(Init, Next, trace) && n < |trace|
    requires d < |trace[n].dirs| && ChunkOf(h) < |trace[n].dirs[d]|
    ensures var s := trace[n];
            && ChunkOf(h) < |Current(s)| && s.dirs[d][ChunkOf(h)] == Current(s)[ChunkOf(h)]
            && LookupIn(s, s.dirs[d], h) == LookupIn(s, Current(s), h)
  {
    RunInv(trace);
  }

  /** Every cached lazy getter resolves, in map and table, to a live entry of
      its own isolate, and no two keys share a handle. */
  lemma LazyGettersResolve(trace: seq<State>, n: nat, k: Key, k': Key)
    requires IsRun(Init, Next, trace) && n < |trace| && k in trace[n].lazy
    requires !trace[n].overlapped
    ensures var s := trace[n];
            && s.lazy[k] in s.entries && s.entries[s.lazy[k]].iso == k.iso
            && (!s.faulted ==> LookupIn(s, Current(s), s.lazy[k]) == Ptr(s.entries[s.lazy[k]]))
            && (k' in s.lazy && s.lazy[k'] == s.lazy[k] ==> k' == k)
  {
    var s := trace[n];
    RunInv(trace);
    assert LazyInv(s, k) && LazyInv(s, k') && HandleInv(s, s.lazy[k]) && IsoInv(s, k.iso);
  }

  lemma DoesEntries(s: State, s': State, i: Iso, op: Op, h: Handle)
    requires Sound(s) && Does(s, s', i, op) && h in s.entries
    ensures Content(s'.entries, h) == Ptr(s.entries[h]) ||
            (h !in s'.entries && i == s.entries[h].iso && PcOf(s, i) in {Idle, DropMap(h)})
  {
    assert IsoInv(s, i);
  }

  /** A registered handle keeps its entry until its own isolate drops it:
      no step of another isolate removes or replaces it. */
  lemma EntriesBelongToTheirIsolate(trace: seq<State>, n: nat, h: Handle)
    requires IsRun(Init, Next, trace) && n + 1 < |trace| && h in trace[n].entries
    requires !trace[n + 1].overlapped
    ensures Content(trace[n + 1].entries, h) != Ptr(trace[n].entries[h]) ==>
              PcOf(trace[n], trace[n].entries[h].iso) in {Idle, DropMap(h)} && h !in trace[n + 1].entries
  {
    RunInv(trace);
    assert StepAt(Next, trace, n);
    var i, op :| Does(trace[n], trace[n + 1], i, op);
    FlagStays(trace[n], trace[n + 1], i, op);
    DoesEntries(trace[n], trace[n + 1], i, op, h);
  }

  /** Dispatching h dereferences a nil chunk exactly if a handle of a higher
      chunk was published before any handle of h's chunk. */
  lemma LookupFaultsIffJumped(trace: seq<State>, n: nat, h: Handle)
    requires IsRun(Init, Next, trace) && n < |trace| && h != 0
    ensures FaultsOn(trace[n], h) <==> Jumped(trace[n].published, ChunkOf(h))
  {
    RunInv(trace);
  }

  /** A registration faults exactly if the handle it publishes is in a jumped chunk. */
  lemma PublishFaultsIffJumped(trace: seq<State>, n: nat, i: Iso, ptr: nat)
    requires IsRun(Init, Next, trace) && n < |trace| && CanPublish(trace[n], i)
    ensures Publish(trace[n], i, ptr).faulted <==> Jumped(trace[n].published, ChunkOf(PcOf(trace[n], i).h))
  {
    RunInv(trace);
    var h := PcOf(trace[n], i).h;
    PublishedTable(trace[n], h, Entry(ptr, i), h);
  }

  /** The current directory has a chunk for h. */
  predicate HasChunk(s: State, h: Handle) {
    ChunkOf(h) < |Current(s)| && Current(s)[ChunkOf(h)] != 0
  }

  lemma LaterDirectoriesHaveChunks(s: State, s': State, h: Handle)
    requires DirInv(s) && DirInv(s') && s.dirs <= s'.dirs && HasChunk(s, h)
    ensures HasChunk(s', h)
  {
    assert s'.dirs[|s.dirs| - 1] == Current(s) <= Current(s');
  }

  lemma NextKeepsChunks(h: Handle)
    ensures forall s, s' :: Inv(s) && HasChunk(s, h) && Next(s, s') ==> Inv(s') && HasChunk(s', h)
  {
    NextKeepsInv();
    forall s, s' | Inv(s) && HasChunk(s, h) && Next(s, s') ensures HasChunk(s', h) {
      var i, op :| Does(s, s', i, op);
      KeepDirectories(s, s', i, op);
      LaterDirectoriesHaveChunks(s, s', h);
    }
  }

  /** The lookups that native code makes are of published handles: once a
      publication of h has not faulted, no later lookup or drop of h does. */
  lemma PublishedHandlesNeverFault(trace: seq<State>, m: nat, n: nat, i: Iso, ptr: nat)
    requires IsRun(Init, Next, trace) && m < n < |trace|
    requires Does(trace[m], trace[m + 1], i, Publishing(ptr)) && !trace[m + 1].faulted
    ensures !FaultsOn(trace[n], PcOf(trace[m], i).h)
  {
    var h := PcOf(trace[m], i).h;
    PublishedHasChunk(trace, m, i, ptr);
    NextKeepsChunks(h);
    var inv := (s: State) => Inv(s) && HasChunk(s, h);
    StableAlongPath(Next, inv, trace, m + 1, n);
  }

  lemma PublishedHasChunk(trace: seq<State>, m: nat, i: Iso, ptr: nat)
    requires IsRun(Init, Next, trace) && m + 1 < |trace|
    requires Does(trace[m], trace[m + 1], i, Publishing(ptr)) && !trace[m + 1].faulted
    ensures Inv(trace[m + 1]) && HasChunk(trace[m + 1], PcOf(trace[m], i).h)
  {
    RunInv(trace);
    var h := PcOf(trace[m], i).h;
    PublishedTable(trace[m], h, Entry(ptr, i), h);
  }

  // ------------------------------------------------- runs that exist

  ghost predicate OthersStay(s: State, s': State, i: Iso) {
    forall j: Iso :: j != i ==> PcOf(s', j) == PcOf(s, j)
  }

  /** The counter has moved to n and nothing else that matters has changed. */
  ghost predicate UsedUp(s: State, s': State, n: nat) {
    && s' == s.(next := n, isolates := s'.isolates, reservedBy := s'.reservedBy)
    && forall j: Iso :: PcOf(s', j) == PcOf(s, j)
  }

  /** Registrations whose native context cannot be created use up handles. */
  lemma {:induction false} UseUp(s: State, i: Iso, n: nat)
    requires Running(s) && Empty(s) && PcOf(s, i) == Idle && s.next <= n
    ensures exists s' :: Leads(Next, s, s') && UsedUp(s, s', n)
    decreases n
  {
    if s.next == n {
      Along(Next, [s]);
      assert UsedUp(s, s, n);
    } else {
      UseUp(s, i, n - 1);
      var s1 :| Leads(Next, s, s1) && UsedUp(s, s1, n - 1);
      var s2 := Reserve(s1, i, Plain, n);
      assert Does(s1, s2, i, Registering(Reserving(Plain, n)));
      var s3 := Goto(s2, i, Idle);
      assert Does(s2, s3, i, Registering(Failing));
      Along(Next, [s1, s2, s3]);
      Through(Next, s, s1, s3);
      assert UsedUp(s, s3, n);
    }
  }

  function Start(): State {
    State(0, map[], map[], [[]], map[], 0, map[], map[], map[], [], false, false)
  }

  /** Isolate 1 owns the one registered handle, whose publication jumped over chunk 0; nothing is reserved. */
  ghost predicate JumpedOver(s: State) {
    && Running(s) && !s.overlapped && FaultsOn(s, 1) && PcOf(s, 1) == Idle && !Outstanding(s)
    && (forall h :: h in s.entries ==> s.entries[h].iso == 1)
  }

  lemma Jump(s: State)
    requires UsedUp(Start(), s, CHUNK)
    ensures exists s' :: Leads(Next, s, s') && JumpedOver(s')
  {
    var h := CHUNK + 1;
    var s1 := Reserve(s, 1, Plain, h);
    assert Does(s, s1, 1, Registering(Reserving(Plain, h)));
    var s2 := Publish(s1, 1, 7);
    assert Does(s1, s2, 1, Publishing(7));
    assert s2.dirs == s1.dirs + [Grown([], 1, 1)];
    assert !Outstanding(s2) by {
      assert forall u: Iso :: PcOf(s2, u) == PcOf(s, u) == Idle;
      assert forall u: Iso :: u in s2.isolates ==> PcOf(s2, u) == s2.isolates[u];
    }
    Along(Next, [s, s1, s2]);
  }

  /** A whole chunk of failed registrations makes the next publication jump over it. */
  lemma JumpIsReachable()
    ensures exists s :: Reached(Init, Next, s) && JumpedOver(s)
  {
    UseUp(Start(), 1, CHUNK);
    var s :| Leads(Next, Start(), s) && UsedUp(Start(), s, CHUNK);
    Jump(s);
    var s' :| Leads(Next, s, s') && JumpedOver(s');
    Through(Next, Start(), s, s');
  }

  /** The counter starts again below the jump. */
  ghost predicate Restarted(s: State) {
    Running(s) && !s.overlapped && FaultsOn(s, 1) && PcOf(s, 1) == Idle && s.next == 0 && Empty(s)
  }

  /** Releasing the isolate resets the counter. */
  lemma RestartBelow(s: State)
    requires JumpedOver(s)
    ensures exists s' :: Leads(Next, s, s') && Restarted(s')
  {
    var s1 := Released(s, 1, true);
    assert Does(s, s1, 1, Releasing(true));
    assert !Outstanding(s1) by {
      assert forall u: Iso :: u != 1 ==> PcOf(s1, u) == PcOf(s, u);
    }
    var s2 := ResetCounter(s1, 1);
    assert Does(s1, s2, 1, ResettingCounter);
    Along(Next, [s, s1, s2]);
    assert Restarted(s2);
  }

  lemma FaultBelow(s: State)
    requires Restarted(s)
    ensures exists s' :: Leads(Next, s, s') && !s'.overlapped && s'.faulted
  {
    var s1 := Reserve(s, 1, Plain, 1);
    assert Does(s, s1, 1, Registering(Reserving(Plain, 1)));
    var s2 := Publish(s1, 1, 8);
    assert Does(s1, s2, 1, Publishing(8));
    Along(Next, [s, s1, s2]);
  }

  /** A run without any reset under a reservation in which a registration dereferences a nil chunk. */
  lemma RegistrationFaults()
    ensures exists s :: Reached(Init, Next, s) && !s.overlapped && s.faulted
  {
    JumpIsReachable();
    var s :| Reached(Init, Next, s) && JumpedOver(s);
    RestartBelow(s);
    var s1 :| Leads(Next, s, s1) && Restarted(s1);
    FaultBelow(s1);
    var s2 :| Leads(Next, s1, s2) && !s2.overlapped && s2.faulted;
    var a :| Init(a) && Leads(Next, a, s);
    Through(Next, a, s, s1);
    Through(Next, a, s1, s2);
    assert Reached(Init, Next, s2);
  }

  // --------------------------------------------- the counter reset under a reservation

  /** Two isolates hold a reservation of the same handle. */
  ghost predicate TwoOwners(s: State) {
    exists i: Iso, j: Iso :: i != j && PcOf(s, i).Reserved? && PcOf(s, j).Reserved? && PcOf(s, i).h == PcOf(s, j).h
  }

  /** From s, and without a further reset under a reservation, some handle gets two owners. */
  ghost predicate GivesTwice(s: State) {
    exists s' :: Leads(Next, s, s') && TwoOwners(s') && (s'.overlapped ==> s.overlapped)
  }

  /** Isolate i, reset to handle h, has reserved it. */
  ghost predicate Collided(s: State, s': State, i: Iso, h: Handle) {
    && s' == s.(next := h, overlapped := true, isolates := s'.isolates, reservedBy := s'.reservedBy)
    && PcOf(s', i) == Reserved(h, Plain) && OthersStay(s, s', i)
  }

  /** After the reset isolate i registers until it gets isolate j's handle. */
  lemma Collide(s: State, i: Iso, j: Iso)
    requires CanReset(s, i) && Empty(s) && PcOf(s, j).Reserved? && PcOf(s, j).h > 0
    ensures exists s' :: Leads(Next, ResetCounter(s, i), s') && Collided(s, s', i, PcOf(s, j).h)
  {
    var s1, h := ResetCounter(s, i), PcOf(s, j).h;
    assert j in s.isolates && s.isolates[j].Reserved?;
    UseUp(s1, i, h - 1);
    var s2 :| Leads(Next, s1, s2) && UsedUp(s1, s2, h - 1);
    assert OthersStay(s, s1, i) && OthersStay(s1, s2, i);
    var s3 := Reserve(s2, i, Plain, h);
    assert Does(s2, s3, i, Registering(Reserving(Plain, h)));
    Along(Next, [s2, s3]);
    Through(Next, s1, s2, s3);
    assert Collided(s, s3, i, h);
  }

  lemma SoundOwners(s: State)
    requires Sound(s)
    ensures !TwoOwners(s)
  {
    forall i: Iso, j: Iso | i != j && PcOf(s, i).Reserved? && PcOf(s, j).Reserved?
      ensures PcOf(s, i).h != PcOf(s, j).h
    {
      assert IsoInv(s, i) && IsoInv(s, j);
    }
  }

  lemma LeadsKeepsInv()
    ensures forall s, s' :: Inv(s) && Leads(Next, s, s') ==> Inv(s')
  {
    NextKeepsInv();
    forall s, s' | Inv(s) && Leads(Next, s, s') ensures Inv(s') {
      StableThrough(Next, Inv, s, s');
    }
  }

  /** A counter reset lets some handle be handed out twice exactly if it finds
      the map empty while a reservation is unpublished. */
  lemma TwiceIffResetUnderReservation(trace: seq<State>, n: nat, i: Iso)
    requires IsRun(Init, Next, trace) && n < |trace| && !trace[n].overlapped && CanReset(trace[n], i)
    ensures GivesTwice(ResetCounter(trace[n], i)) <==> Empty(trace[n]) && Outstanding(trace[n])
  {
    var s, s1 := trace[n], ResetCounter(trace[n], i);
    RunInv(trace);
    if Empty(s) && Outstanding(s) {
      var j :| j in s.isolates && s.isolates[j].Reserved?;
      assert IsoInv(s, j);
      Collide(s, i, j);
      var s' :| Leads(Next, s1, s') && Collided(s, s', i, PcOf(s, j).h);
      assert TwoOwners(s');
    } else {
      assert Inv(s1) by {
        NextKeepsInv();
        assert Does(s, s1, i, ResettingCounter);
        assert Next(s, s1);
      }
      forall s' | Leads(Next, s1, s') && !s'.overlapped ensures !TwoOwners(s') {
        assert Inv(s') by {
          LeadsKeepsInv();
        }
        SoundOwners(s');
      }
    }
  }

  // ------------------------------------------------ what a handle with two owners breaks

  /** What a publication in a chunk that was not jumped leaves. */
  lemma PublishStep(s: State, i: Iso, ptr: nat) returns (s': State)
    requires DirInv(s) && CanPublish(s, i) && !FaultsOn(s, PcOf(s, i).h)
    ensures Next(s, s') && s' == Publish(s, i, ptr) && DirInv(s') && Running(s')
    ensures var h := PcOf(s, i).h;
            && s'.entries == s.entries[h := Entry(ptr, i)] && s'.lazy == s.lazy && s'.cachedAs == s.cachedAs
            && PcOf(s', i) == (if PcOf(s, i).w.Lazy? then Caching(h, PcOf(s, i).w.key) else Idle)
            && OthersStay(s, s', i) && s.dirs <= s'.dirs && Current(s) <= Current(s')
            && ChunkOf(h) < |Current(s')| && !FaultsOn(s', h) && LookupIn(s', Current(s'), h) == Ptr(Entry(ptr, i))
  {
    s' := Publish(s, i, ptr);
    var h, e := PcOf(s, i).h, Entry(ptr, i);
    var s1 := StepPublish(s, h, e);
    assert Does(s, s', i, Publishing(ptr));
    PublishKeepsDirectories(s, i, ptr);
    PublishedTable(s, h, e, h);
    assert Current(s') == Current(s1) && LookupIn(s', Current(s'), h) == LookupIn(s1, Current(s1), h);
  }

  /** A finished registration of handle h by isolate j, plain or lazy. */
  ghost predicate Registered(s: State, j: Iso, h: Handle, w: Wanted) {
    && Running(s) && DirInv(s) && PcOf(s, j) == Idle && h != 0
    && h in s.entries && s.entries[h].iso == j && ChunkOf(h) < |Current(s)| && !FaultsOn(s, h)
    && match w
       case Plain => h !in s.cachedAs
       case Lazy(key) => key.iso == j && key in s.lazy && s.lazy[key] == h
  }

  ghost predicate Finished(s: State, s': State, j: Iso, h: Handle, w: Wanted) {
    Leads(Next, s, s') && Registered(s', j, h, w) && OthersStay(s, s', j)
  }

  lemma CacheStep(s: State, j: Iso, h: Handle, w: Wanted)
    requires Running(s) && DirInv(s) && w.Lazy? && w.key.iso == j && PcOf(s, j) == Caching(h, w.key)
    requires h != 0 && h in s.entries && s.entries[h].iso == j && ChunkOf(h) < |Current(s)| && !FaultsOn(s, h)
    ensures exists s' :: Finished(s, s', j, h, w)
  {
    var s' := CacheLazy(s, j);
    assert Does(s, s', j, Registering(CachingKey));
    SameDirectories(s, s');
    assert Current(s') == Current(s);
    Along(Next, [s, s']);
    assert Finished(s, s', j, h, w);
  }

  lemma Finish(s: State, j: Iso, h: Handle, w: Wanted)
    requires DirInv(s) && CanPublish(s, j) && PcOf(s, j) == Reserved(h, w) && !FaultsOn(s, h) && h !in s.cachedAs
    requires w.Lazy? ==> w.key.iso == j
    ensures exists s' :: Finished(s, s', j, h, w)
  {
    var s1 := PublishStep(s, j, 1);
    Along(Next, [s, s1]);
    if w.Lazy? {
      CacheStep(s1, j, h, w);
      var s2 :| Finished(s1, s2, j, h, w);
      Through(Next, s, s1, s2);
      assert Finished(s, s2, j, h, w);
    } else {
      assert Finished(s, s1, j, h, w);
    }
  }

  /** Isolate j has cleared h's cell and not yet deleted it from the map. */
  ghost predicate Cleared(s: State, s': State, j: Iso, h: Handle) {
    && Leads(Next, s, s') && Running(s') && DirInv(s') && PcOf(s', j) == DropMap(h) && OthersStay(s, s', j)
    && !FaultsOn(s', h)
  }

  lemma ClearCell(s: State, j: Iso, h: Handle)
    requires Running(s) && DirInv(s) && PcOf(s, j) == DropFast(h) && !FaultsOn(s, h)
    ensures exists s' :: Cleared(s, s', j, h)
  {
    var s1 := LoadForDrop(s, j);
    assert Does(s, s1, j, Dropping(Loading));
    SameDirectories(s, s1);
    var s2 := StoreNil(s1, j);
    assert Does(s1, s2, j, Clearing);
    StoreKeepsDirectories(s1, j);
    assert Current(s2) == Current(s);
    Along(Next, [s, s1, s2]);
    assert Cleared(s, s2, j, h);
  }

  /** A drop of h by isolate j up to the point where its cell is cleared. */
  lemma Clear(s: State, j: Iso, h: Handle, w: Wanted)
    requires Registered(s, j, h, w)
    ensures exists s' :: Cleared(s, s', j, h)
  {
    var s1 := if w.Lazy? then DropLazy(s, j, w.key) else Goto(s, j, DropFast(h));
    assert Does(s, s1, j, Dropping(if w.Lazy? then BeginningLazyDrop(w.key) else BeginningDrop(h)));
    SameDirectories(s, s1);
    Along(Next, [s, s1]);
    ClearCell(s1, j, h);
    var s2 :| Cleared(s1, s2, j, h);
    Through(Next, s, s1, s2);
    assert Cleared(s, s2, j, h);
  }

  /** Isolates i and j have both reserved h, i for a plain callback. */
  ghost predicate Contested(s: State, i: Iso, j: Iso, h: Handle, w: Wanted) {
    && Running(s) && DirInv(s) && i != j && h != 0 && h !in s.cachedAs && !FaultsOn(s, h)
    && PcOf(s, i) == Reserved(h, Plain) && PcOf(s, j) == Reserved(h, w) && (w.Lazy? ==> w.key.iso == j)
  }

  lemma Contest(trace: seq<State>, n: nat, i: Iso, j: Iso)
    requires IsRun(Init, Next, trace) && n < |trace| && !trace[n].overlapped
    requires CanReset(trace[n], i) && Empty(trace[n]) && PcOf(trace[n], j).Reserved?
    requires !Jumped(trace[n].published, ChunkOf(PcOf(trace[n], j).h))
    ensures exists s' ::
              && Leads(Next, trace[n], s') && OthersStay(trace[n], s', i)
              && Contested(s', i, j, PcOf(trace[n], j).h, PcOf(trace[n], j).w)
  {
    var s, pc := trace[n], PcOf(trace[n], j);
    RunInv(trace);
    assert IsoInv(s, j) && CacheInv(s, pc.h);
    var s1 := ResetCounter(s, i);
    assert Does(s, s1, i, ResettingCounter);
    Along(Next, [s, s1]);
    Collide(s, i, j);
    var s2 :| Leads(Next, s1, s2) && Collided(s, s2, i, pc.h);
    Through(Next, s, s1, s2);
    SameDirectories(s, s2);
    assert Current(s2) == Current(s);
    assert Contested(s2, i, j, pc.h, pc.w);
  }

  /** Both isolates are idle, the others where they were, and the table holds an entry for h that the map lacks. */
  ghost predicate Diverged(s: State, s': State, i: Iso, j: Iso, h: Handle) {
    && Leads(Next, s, s') && PcOf(s', i) == PcOf(s', j) == Idle
    && (forall u: Iso :: u != i && u != j ==> PcOf(s', u) == PcOf(s, u))
    && h !in s'.entries && !FaultsOn(s', h) && LookupIn(s', Current(s'), h).Ptr?
  }

  /** Isolate i publishes h while isolate j is about to delete it from the map. */
  lemma PublishUnderDrop(s: State, i: Iso, j: Iso, h: Handle)
    requires Running(s) && DirInv(s) && i != j && h != 0 && !FaultsOn(s, h)
    requires PcOf(s, i) == Reserved(h, Plain) && PcOf(s, j) == DropMap(h)
    ensures exists s' :: Diverged(s, s', i, j, h)
  {
    var s1 := PublishStep(s, i, 2);
    var s2 := DeleteEntry(s1, j);
    assert Drops(s1, s2, j, Deleting) && Does(s1, s2, j, Dropping(Deleting));
    Along(Next, [s, s1, s2]);
    assert Current(s2) == Current(s1) && LookupIn(s2, Current(s2), h) == LookupIn(s1, Current(s1), h);
    assert OthersStay(s1, s2, j);
    assert Diverged(s, s2, i, j, h);
  }

  lemma Overwrite(s: State, i: Iso, j: Iso, h: Handle, w: Wanted)
    requires Contested(s, i, j, h, w)
    ensures exists s' :: Diverged(s, s', i, j, h)
  {
    Finish(s, j, h, w);
    var s1 :| Finished(s, s1, j, h, w);
    Clear(s1, j, h, w);
    var s2 :| Cleared(s1, s2, j, h);
    Through(Next, s, s1, s2);
    PublishUnderDrop(s2, i, j, h);
    var s3 :| Diverged(s2, s3, i, j, h);
    Through(Next, s, s2, s3);
    assert Diverged(s, s3, i, j, h);
  }

  /** A handle with two owners, from any reachable reset under a reservation of
      a handle whose chunk was not jumped: both isolates end up idle, and the
      table holds an entry for the handle while the map has none. */
  lemma TableOutlivesMap(trace: seq<State>, n: nat, i: Iso, j: Iso)
    requires IsRun(Init, Next, trace) && n < |trace| && !trace[n].overlapped
    requires CanReset(trace[n], i) && Empty(trace[n]) && PcOf(trace[n], j).Reserved?
    requires !Jumped(trace[n].published, ChunkOf(PcOf(trace[n], j).h))
    ensures exists s' :: Diverged(trace[n], s', i, j, PcOf(trace[n], j).h)
  {
    var s, h, w := trace[n], PcOf(trace[n], j).h, PcOf(trace[n], j).w;
    Contest(trace, n, i, j);
    var s1 :| Leads(Next, s, s1) && OthersStay(s, s1, i) && Contested(s1, i, j, h, w);
    Overwrite(s1, i, j, h, w);
    var s2 :| Diverged(s1, s2, i, j, h);
    Through(Next, s, s1, s2);
    assert Diverged(s, s2, i, j, h);
  }

  /** A step of isolate i takes over handle h, under which key caches a live entry of its own isolate. */
  ghost predicate Replaced(s: State, s': State, i: Iso, h: Handle, key: Key) {
    && Next(s, s') && h in s.entries && s.entries[h].iso == key.iso
    && key in s'.lazy && s'.lazy[key] == h && h in s'.entries && s'.entries[h].iso == i
  }

  /** Likewise from a lazy reservation: isolate i replaces the live entry of
      isolate j, and j's cached getter then resolves to it. */
  lemma GetterResolvesElsewhere(trace: seq<State>, n: nat, i: Iso, j: Iso)
    requires IsRun(Init, Next, trace) && n < |trace| && !trace[n].overlapped
    requires CanReset(trace[n], i) && Empty(trace[n]) && PcOf(trace[n], j).Reserved? && PcOf(trace[n], j).w.Lazy?
    requires !Jumped(trace[n].published, ChunkOf(PcOf(trace[n], j).h))
    ensures exists s, s' :: Leads(Next, trace[n], s) && Replaced(s, s', i, PcOf(trace[n], j).h, PcOf(trace[n], j).w.key)
    ensures i != j && PcOf(trace[n], j).w.key.iso == j
  {
    var s, h, w := trace[n], PcOf(trace[n], j).h, PcOf(trace[n], j).w;
    Contest(trace, n, i, j);
    var s1 :| Leads(Next, s, s1) && OthersStay(s, s1, i) && Contested(s1, i, j, h, w);
    Finish(s1, j, h, w);
    var s2 :| Finished(s1, s2, j, h, w);
    Through(Next, s, s1, s2);
    var s3 := PublishStep(s2, i, 2);
    assert Replaced(s2, s3, i, h, w.key);
  }

  /** Such a reset is reachable: isolate 1 has reserved handle 1 and isolate 2, which owns nothing, is released. */
  lemma ResetUnderReservation(w: Wanted) returns (trace: seq<State>)
    requires w.Lazy? ==> w.key.iso == 1
    ensures IsRun(Init, Next, trace)
    ensures var s := trace[|trace| - 1];
            && !s.overlapped && CanReset(s, 2) && Empty(s) && PcOf(s, 1) == Reserved(1, w) && s.published == []
            && forall u: Iso :: u != 1 && u != 2 ==> PcOf(s, u) == Idle
  {
    var s1 := Reserve(Start(), 1, w, 1);
    assert Does(Start(), s1, 1, Registering(Reserving(w, 1)));
    var s2 := Released(s1, 2, true);
    assert Does(s1, s2, 2, Releasing(true));
    trace := [Start(), s1, s2];
  }

  /** A reachable state in which no isolate is in an operation and table and map
      disagree: FastTableAgrees fails after a reset under a reservation. */
  lemma DisagreementIsReachable()
    ensures exists s ::
              && Reached(Init, Next, s) && (forall u: Iso :: PcOf(s, u) == Idle)
              && 1 !in s.entries && LookupIn(s, Current(s), 1).Ptr?
  {
    var trace := ResetUnderReservation(Plain);
    TableOutlivesMap(trace, |trace| - 1, 2, 1);
    var s1 := trace[|trace| - 1];
    var s2 :| Diverged(s1, s2, 2, 1, 1);
    Along(Next, trace);
    Through(Next, trace[0], s1, s2);
    assert Reached(Init, Next, s2);
  }

  // ------------------------------------------------- what each operation achieves

  /** The map, the cache and where the isolates are; the table follows by FastTableAgrees. */
  ghost predicate Holds(s: State, entries: map<Handle, Entry>, lazy: map<Key, Handle>, i: Iso) {
    s.entries == entries && s.lazy == lazy && PcOf(s, i) == Idle && !s.faulted
  }

  /** The search loop of a registration finds the first unoccupied handle after the counter. */
  method NextHandle(next: nat, entries: map<Handle, Entry>) returns (h: Handle)
    ensures h > next && h !in entries && forall g :: next < g < h ==> g in entries
  {
    h := next + 1;
    ghost var ahead := set g | g in entries && g > next;
    while h in entries
      invariant h > next && forall g :: next < g < h ==> g in entries
      invariant forall g :: g in ahead <==> g in entries && g >= h
      decreases ahead
    {
      ahead := ahead - {h};
      h := h + 1;
    }
  }

  /** Isolate i has published entry ptr under h; a lazy getter is still to be cached. */
  ghost predicate Placed(s: State, s': State, i: Iso, w: Wanted, h: Handle, ptr: nat) {
    && s'.next == h && s'.overlapped == s.overlapped && Running(s')
    && s'.entries == s.entries[h := Entry(ptr, i)] && s'.lazy == s.lazy && OthersStay(s, s', i)
    && PcOf(s', i) == (if w.Lazy? then Caching(h, w.key) else Idle)
    && LookupIn(s', Current(s'), h) == Ptr(Entry(ptr, i))
  }

  lemma PublishFirst(s: State, i: Iso, w: Wanted, h: Handle, ptr: nat)
    requires DirInv(s) && CanReserve(s, i, w, h) && !FaultsOn(s, h)
    ensures exists s' :: Leads(Next, s, s') && Placed(s, s', i, w, h, ptr)
  {
    var s1 := Reserve(s, i, w, h);
    assert Registers(s, s1, i, Reserving(w, h)) && Does(s, s1, i, Registering(Reserving(w, h)));
    SameDirectories(s, s1);
    assert Current(s1) == Current(s) && OthersStay(s, s1, i);
    var s2 := PublishStep(s1, i, ptr);
    Along(Next, [s, s1, s2]);
    assert OthersStay(s, s2, i);
    assert Placed(s, s2, i, w, h, ptr);
  }

  /** A registration whose native context is created, from every state in which
      its isolate is idle: the first unoccupied handle after the counter gets the
      new entry, in map and table, a lazy getter is cached under it, and every
      other entry and isolate is as before. */
  lemma RegisterResolves(s: State, i: Iso, w: Wanted, h: Handle, ptr: nat)
    requires DirInv(s) && Running(s) && PcOf(s, i) == Idle && !FaultsOn(s, h)
    requires h > s.next && h !in s.entries && forall g :: s.next < g < h ==> g in s.entries
    requires w.Lazy? ==> w.key.iso == i && w.key !in s.lazy
    ensures exists s' ::
              && Leads(Next, s, s') && s'.next == h && s'.overlapped == s.overlapped && OthersStay(s, s', i)
              && Holds(s', s.entries[h := Entry(ptr, i)], if w.Lazy? then s.lazy[w.key := h] else s.lazy, i)
              && LookupIn(s', Current(s'), h) == Ptr(Entry(ptr, i))
  {
    PublishFirst(s, i, w, h, ptr);
    var s1 :| Leads(Next, s, s1) && Placed(s, s1, i, w, h, ptr);
    if w.Lazy? {
      var s2 := CacheLazy(s1, i);
      CacheFirst(s1, i, h);
      Through(Next, s, s1, s2);
      assert OthersStay(s, s2, i);
    }
  }

  lemma CacheFirst(s: State, i: Iso, h: Handle)
    requires CanCache(s, i) && PcOf(s, i).h == h
    ensures var s' := CacheLazy(s, i);
            && Leads(Next, s, s') && LookupIn(s', Current(s'), h) == LookupIn(s, Current(s), h) && OthersStay(s, s', i)
            && s'.next == s.next && s'.overlapped == s.overlapped
            && Holds(s', s.entries, s.lazy[PcOf(s, i).key := h], i)
  {
    var s' := CacheLazy(s, i);
    assert Registers(s, s', i, CachingKey) && Does(s, s', i, Registering(CachingKey));
    assert Current(s') == Current(s);
    Along(Next, [s, s']);
  }

  lemma StoreAndDelete(s: State, i: Iso, h: Handle)
    requires Sound(s) && CanLoad(s, i) && PcOf(s, i) == DropFast(h)
    ensures exists s' ::
              && Leads(Next, s, s') && OthersStay(s, s', i) && Holds(s', s.entries - {h}, s.lazy, i)
  {
    var s1 := LoadForDrop(s, i);
    assert Drops(s, s1, i, Loading) && Does(s, s1, i, Dropping(Loading));
    SameDirectories(s, s1);
    var s2 := StoreNil(s1, i);
    assert Does(s1, s2, i, Clearing);
    assert !s2.faulted by {
      assert IsoInv(s, i) && HandleInv(s, h);
      assert Current(s1) == Current(s) == s1.dirs[PcOf(s1, i).d];
    }
    var s3 := DeleteEntry(s2, i);
    assert Drops(s2, s3, i, Deleting) && Does(s2, s3, i, Dropping(Deleting));
    Along(Next, [s, s1, s2, s3]);
  }

  /** A drop by the owner of an uncached handle, or of a cached lazy getter, from
      every reachable state in which its isolate is idle: exactly that entry, and
      the key that cached it, are gone. */
  lemma DropForgets(s: State, i: Iso, h: Handle, w: Wanted)
    requires Inv(s) && !s.overlapped && Running(s) && PcOf(s, i) == Idle && h in s.entries && s.entries[h].iso == i
    requires if w.Lazy? then w.key in s.lazy && s.lazy[w.key] == h else h !in s.cachedAs
    ensures exists s' ::
              && Leads(Next, s, s') && OthersStay(s, s', i)
              && Holds(s', s.entries - {h}, if w.Lazy? then s.lazy - {w.key} else s.lazy, i)
  {
    assert w.Lazy? ==> LazyInv(s, w.key);
    var s1 := if w.Lazy? then DropLazy(s, i, w.key) else Goto(s, i, DropFast(h));
    var op := if w.Lazy? then BeginningLazyDrop(w.key) else BeginningDrop(h);
    assert Drops(s, s1, i, op) && Does(s, s1, i, Dropping(op));
    assert Sound(s1) by {
      NextKeepsInv();
      assert Next(s, s1);
    }
    Along(Next, [s, s1]);
    StoreAndDelete(s1, i, h);
    var s2 :| Leads(Next, s1, s2) && OthersStay(s1, s2, i) && Holds(s2, s1.entries - {h}, s1.lazy, i);
    Through(Next, s, s1, s2);
    assert OthersStay(s, s2, i);
  }

  /** Releasing an isolate's host state: exactly its entries and its cached
      getters are gone, and the counter starts again if the map is left empty and
      the native contexts could be released. */
  lemma ReleaseForgets(s: State, i: Iso, ok: bool)
    requires Running(s) && PcOf(s, i) == Idle
    ensures exists s' ::
              && Leads(Next, s, s') && OthersStay(s, s', i)
              && Holds(s', map h | h in s.entries && s.entries[h].iso != i :: s.entries[h],
                       map k | k in s.lazy && k.iso != i :: s.lazy[k], i)
              && s'.next == if ok && (forall h :: h in s.entries ==> s.entries[h].iso == i) then 0 else s.next
  {
    var s1 := Released(s, i, ok);
    assert Does(s, s1, i, Releasing(ok));
    if ok {
      var s2 := ResetCounter(s1, i);
      assert Does(s1, s2, i, ResettingCounter);
      Along(Next, [s, s1, s2]);
      assert OthersStay(s, s2, i);
      assert forall h :: h in s1.entries <==> h in s.entries && s.entries[h].iso != i;
    } else {
      Along(Next, [s, s1]);
      assert OthersStay(s, s1, i);
    }
  }

  /** A lazy getter can find its fresh registration gone only after a reset under a reservation. */
  lemma LostOnlyAfterOverlap(trace: seq<State>, n: nat, i: Iso)
    requires IsRun(Init, Next, trace) && n < |trace| && LostRegistration(trace[n], i)
    ensures trace[n].overlapped
  {
    RunInv(trace);
    assert !trace[n].overlapped ==> IsoInv(trace[n], i);
  }

  /** The cell of h is empty, its map entry is still to be deleted, and nothing else has changed. */
  ghost predicate CellEmptied(s: State, s': State, i: Iso, h: Handle) {
    && Running(s') && PcOf(s', i) == DropMap(h) && OthersStay(s, s', i)
    && s'.entries == s.entries && s'.lazy == s.lazy && LookupIn(s', Current(s'), h) == Nil
  }

  lemma EmptyCell(s: State, i: Iso, h: Handle)
    requires Running(s) && PcOf(s, i) == DropFast(h) && !FaultsOn(s, h)
    ensures exists s' :: Leads(Next, s, s') && CellEmptied(s, s', i, h)
  {
    var s1 := LoadForDrop(s, i);
    assert Drops(s, s1, i, Loading) && Does(s, s1, i, Dropping(Loading));
    var s2 := StoreNil(s1, i);
    assert Does(s1, s2, i, Clearing);
    assert s1.dirs[PcOf(s1, i).d] == Current(s) == Current(s2);
    Along(Next, [s, s1, s2]);
    assert CellEmptied(s, s2, i, h);
  }

  /** It then drops the handle: the table has nothing under it afterwards. */
  lemma LostRegistrationDrops(s: State, i: Iso, h: Handle)
    requires LostRegistration(s, i) && PcOf(s, i).h == h && !FaultsOn(s, h)
    ensures exists s' ::
              && Leads(Next, s, s') && PcOf(s', i) == Idle && OthersStay(s, s', i)
              && s'.entries == s.entries && s'.lazy == s.lazy && LookupIn(s', Current(s'), h) == Nil
  {
    var s1 := Goto(s, i, DropFast(h));
    assert Registers(s, s1, i, Losing) && Does(s, s1, i, Registering(Losing));
    Along(Next, [s, s1]);
    EmptyCell(s1, i, h);
    var s2 :| Leads(Next, s1, s2) && CellEmptied(s1, s2, i, h);
    Through(Next, s, s1, s2);
    var s3 := DeleteEntry(s2, i);
    assert Drops(s2, s3, i, Deleting) && Does(s2, s3, i, Dropping(Deleting));
    Along(Next, [s2, s3]);
    Through(Next, s, s2, s3);
    assert LookupIn(s3, Current(s3), h) == LookupIn(s2, Current(s2), h) && s3.entries == s.entries;
    assert OthersStay(s, s1, i) && OthersStay(s2, s3, i);
    assert OthersStay(s, s3, i);
  }
}
