/**
 Every step of the callback registry keeps the invariant.
 */
module HostRegistrySteps {
  import opened HostRegistry

  /** Two handles of chunks that exist share a cell only if they are equal. */
  lemma CellsAreDistinct(s: State, g: Handle, h: Handle)
    requires DirInv(s) && g != 0 && h != 0
    requires ChunkOf(g) < |Current(s)| && ChunkOf(h) < |Current(s)| && !FaultsOn(s, h)
    requires Current(s)[ChunkOf(g)] == Current(s)[ChunkOf(h)] && OffsetOf(g) == OffsetOf(h)
    ensures g == h
  {
    assert Current(s)[ChunkOf(h)] != 0;
  }

  /** What a step that leaves the table alone does to one handle. */
  lemma TableStays(s: State, s': State, h: Handle)
    requires HandleInv(s, h) && s'.dirs == s.dirs && s'.cells == s.cells && s'.faulted == s.faulted
    requires Content(s'.entries, h) == Content(s.entries, h) && HalfDropped(s', h) == HalfDropped(s, h)
    requires h in s.entries ==> s.next <= s'.next
    ensures HandleInv(s', h)
  {
    assert Current(s') == Current(s);
    assert LookupIn(s', Current(s'), h) == LookupIn(s, Current(s), h);
  }

  lemma KeepReset(s: State, i: Iso)
    requires Sound(s) && CanReset(s, i) && !(Empty(s) && Outstanding(s))
    ensures Sound(ResetCounter(s, i))
  {
    var s' := ResetCounter(s, i);
    assert Current(s') == Current(s);
    forall g: Handle ensures HandleInv(s', g) {
      assert HandleInv(s, g);
      TableStays(s, s', g);
    }
    forall g: Handle ensures CacheInv(s', g) {
      assert CacheInv(s, g);
    }
    forall j: Iso ensures IsoInv(s', j) {
      assert IsoInv(s, j);
      assert PcOf(s, j).Reserved? ==> j in s.isolates;
    }
    forall k: Key ensures LazyInv(s', k) {
      assert LazyInv(s, k);
    }
  }

  lemma RegisterKeepsHandles(s: State, s': State, i: Iso, op: RegisterOp)
    requires Sound(s) && Registers(s, s', i, op)
    ensures forall g: Handle :: HandleInv(s', g)
    ensures forall g: Handle :: CacheInv(s', g)
  {
    assert IsoInv(s, i);
    forall g: Handle ensures HandleInv(s', g) {
      assert HandleInv(s, g);
      TableStays(s, s', g);
    }
    forall g: Handle ensures CacheInv(s', g) {
      assert CacheInv(s, g);
    }
  }

  lemma RegisterKeepsIsolates(s: State, s': State, i: Iso, op: RegisterOp)
    requires Sound(s) && Registers(s, s', i, op)
    ensures forall j: Iso :: IsoInv(s', j)
    ensures forall k: Key :: LazyInv(s', k)
  {
    assert IsoInv(s, i);
    forall j: Iso ensures IsoInv(s', j) {
      assert IsoInv(s, j);
    }
    forall k: Key ensures LazyInv(s', k) {
      assert LazyInv(s, k);
    }
  }

  lemma DropKeepsHandles(s: State, s': State, i: Iso, op: DropOp)
    requires Sound(s) && Drops(s, s', i, op)
    ensures forall g: Handle :: HandleInv(s', g)
  {
    assert IsoInv(s, i);
    forall g: Handle ensures HandleInv(s', g) {
      assert HandleInv(s, g);
      if Content(s'.entries, g) == Content(s.entries, g) {
        TableStays(s, s', g);
      } else {
        assert LookupIn(s', Current(s'), g) == LookupIn(s, Current(s), g);
      }
    }
  }

  lemma DropKeepsCache(s: State, s': State, i: Iso, op: DropOp)
    requires Sound(s) && Drops(s, s', i, op)
    ensures forall g: Handle :: CacheInv(s', g)
    ensures forall k: Key :: LazyInv(s', k)
  {
    assert IsoInv(s, i);
    assert op.BeginningLazyDrop? ==> LazyInv(s, op.key);
    forall g: Handle ensures CacheInv(s', g) {
      assert CacheInv(s, g);
    }
    forall k: Key ensures LazyInv(s', k) {
      assert LazyInv(s, k);
    }
  }

  lemma DropKeepsIsolates(s: State, s': State, i: Iso, op: DropOp)
    requires Sound(s) && Drops(s, s', i, op)
    ensures forall j: Iso :: IsoInv(s', j)
  {
    assert IsoInv(s, i);
    assert op.BeginningLazyDrop? ==> LazyInv(s, op.key);
    assert op.Loading? ==> HandleInv(s, PcOf(s, i).h);
    forall j: Iso ensures IsoInv(s', j) {
      assert IsoInv(s, j);
    }
  }

  // ------------------------------------------------------------ publication

  /** What the publication of e under h leaves in the table, seen from handle g. */
  ghost predicate Tabled(s: State, s': State, h: Handle, e: Entry, g: Handle) {
    && s.dirs <= s'.dirs && Current(s) <= Current(s') && ChunkOf(h) < |Current(s')|
    && s'.faulted == FaultsOn(s', h) && (FaultsOn(s', h) <==> FaultsOn(s, h))
    && LookupIn(s', Current(s'), g) == if g == h && !FaultsOn(s', h) then Ptr(e) else LookupIn(s, Current(s), g)
  }

  /** Growing the directory adds one cell and moves no other; a jumped chunk
      faults and leaves the table alone; otherwise exactly one cell changes. */
  lemma PublishedTable(s: State, h: Handle, e: Entry, g: Handle)
    requires DirInv(s) && !s.faulted && h != 0
    ensures Tabled(s, StepPublish(s, h, e), h, e, g)
  {
    var s', d := StepPublish(s, h, e), Current(s);
    if ChunkOf(h) >= |d| {
      var d' := Grown(d, ChunkOf(h), s.chunks + 1);
      assert s'.dirs == s.dirs + [d'] && Current(s') == d' && d'[..|d|] == d;
      assert forall b :: |d| <= b < |d'| ==> d'[b] == if b < ChunkOf(h) then 0 else s.chunks + 1;
    } else if !FaultsOn(s, h) && g != 0 && ChunkOf(g) < |d| && OffsetOf(g) == OffsetOf(h) &&
              d[ChunkOf(g)] == d[ChunkOf(h)] {
      CellsAreDistinct(s, g, h);
    }
  }

  /** What any publication of h does to every handle. */
  lemma PublishedHandles(s: State, s': State, i: Iso, h: Handle)
    requires Sound(s) && !s.faulted && PcOf(s, i).Reserved? && PcOf(s, i).h == h
    requires !PcOf(s', i).DropMap? && (forall j :: j != i ==> PcOf(s', j) == PcOf(s, j))
    requires s'.next == s.next
    requires h in s'.entries && s'.entries == s.entries[h := s'.entries[h]] && s'.entries[h].iso == i
    requires forall g :: Tabled(s, s', h, s'.entries[h], g)
    ensures forall g: Handle :: HandleInv(s', g)
  {
    forall g: Handle ensures HandleInv(s', g) {
      assert HandleInv(s, g) && IsoInv(s, i) && Tabled(s, s', h, s'.entries[h], g);
      assert g in s.entries ==> IsoInv(s, s.entries[g].iso);
      assert HalfDropped(s', g) <==> HalfDropped(s, g);
    }
  }

  lemma PublishedIsos(s: State, s': State, i: Iso, h: Handle, w: Wanted)
    requires Sound(s) && PcOf(s, i) == Reserved(h, w)
    requires PcOf(s', i) == (if w.Lazy? then Caching(h, w.key) else Idle)
    requires forall j :: j != i ==> PcOf(s', j) == PcOf(s, j)
    requires s'.next == s.next && s'.lazy == s.lazy && s'.cachedAs == s.cachedAs && s'.reservedBy == s.reservedBy
    requires h in s'.entries && s'.entries == s.entries[h := s'.entries[h]] && s'.entries[h].iso == i
    requires s.dirs <= s'.dirs
    ensures forall j :: IsoInv(s', j)
    ensures forall k :: LazyInv(s', k)
    ensures forall g :: CacheInv(s', g)
  {
    assert IsoInv(s, i) && CacheInv(s, h);
    forall j: Iso ensures IsoInv(s', j) {
      assert IsoInv(s, j);
    }
    forall k: Key ensures LazyInv(s', k) {
      assert LazyInv(s, k);
    }
    forall g: Handle ensures CacheInv(s', g) {
      assert CacheInv(s, g);
    }
  }

  lemma PublishKeepsSound(s: State, i: Iso, ptr: nat)
    requires Sound(s) && CanPublish(s, i)
    ensures Sound(Publish(s, i, ptr))
  {
    var s', pc, e := Publish(s, i, ptr), PcOf(s, i), Entry(ptr, i);
    var s1 := StepPublish(s, pc.h, e);
    PublishKeepsDirectories(s, i, ptr);
    assert Current(s') == Current(s1);
    forall g: Handle ensures Tabled(s, s', pc.h, e, g) {
      PublishedTable(s, pc.h, e, g);
      assert LookupIn(s', Current(s'), g) == LookupIn(s1, Current(s1), g);
    }
    assert Tabled(s, s', pc.h, e, pc.h);
    PublishedHandles(s, s', i, pc.h);
    PublishedIsos(s, s', i, pc.h, pc.w);
  }

  // ------------------------------------------------------------- withdrawal

  lemma ClearedLookup(s: State, i: Iso, g: Handle)
    requires Sound(s) && CanStore(s, i)
    ensures var s', h := StoreNil(s, i), PcOf(s, i).h;
            && s'.dirs == s.dirs && !s'.faulted
            && LookupIn(s', Current(s), g) == if g == h then Nil else LookupIn(s, Current(s), g)
  {
    var h, d := PcOf(s, i).h, s.dirs[PcOf(s, i).d];
    assert IsoInv(s, i) && HandleInv(s, h);
    assert d <= Current(s) && d[ChunkOf(h)] == Current(s)[ChunkOf(h)];
    if g != 0 && ChunkOf(g) < |Current(s)| && OffsetOf(g) == OffsetOf(h) &&
       Current(s)[ChunkOf(g)] == d[ChunkOf(h)] {
      CellsAreDistinct(s, g, h);
    }
  }

  lemma ClearKeepsSound(s: State, i: Iso)
    requires Sound(s) && CanStore(s, i)
    ensures Sound(StoreNil(s, i))
  {
    var s', h := StoreNil(s, i), PcOf(s, i).h;
    StoreKeepsDirectories(s, i);
    assert IsoInv(s, i);
    ClearedLookup(s, i, h);
    assert Current(s') == Current(s);
    forall g: Handle ensures HandleInv(s', g) {
      assert HandleInv(s, g);
      ClearedLookup(s, i, g);
      assert g != h ==> (HalfDropped(s', g) <==> HalfDropped(s, g));
    }
    forall g: Handle ensures CacheInv(s', g) {
      assert CacheInv(s, g);
    }
    forall j: Iso ensures IsoInv(s', j) {
      assert IsoInv(s, j);
    }
    forall k: Key ensures LazyInv(s', k) {
      assert LazyInv(s, k);
    }
  }

  /** A bulk release empties exactly the cells of the isolate's own handles. */
  lemma ReleasedLookup(s: State, i: Iso, g: Handle)
    requires Sound(s) && !s.faulted
    ensures LookupIn(StepRelease(s, i), Current(s), g) == if g in OwnedBy(s, i) then Nil else LookupIn(s, Current(s), g)
  {
    assert HandleInv(s, g);
    if g != 0 && ChunkOf(g) < |Current(s)| {
      var cell := Place(Current(s)[ChunkOf(g)], OffsetOf(g));
      if ReleasedCell(s, i, cell) {
        var h :| h in OwnedBy(s, i) && ChunkOf(h) < |Current(s)| && cell == Place(Current(s)[ChunkOf(h)], OffsetOf(h));
        assert HandleInv(s, h);
        CellsAreDistinct(s, g, h);
      }
      assert g in OwnedBy(s, i) ==> ReleasedCell(s, i, cell);
    }
  }

  lemma ReleasedHandles(s: State, s': State, i: Iso)
    requires Sound(s) && !s.faulted && PcOf(s, i) == Idle && PcOf(s', i) in {Idle, Resetting}
    requires s' == StepRelease(s, i).(isolates := s'.isolates) && (forall j :: j != i ==> PcOf(s', j) == PcOf(s, j))
    ensures forall g: Handle :: HandleInv(s', g) && CacheInv(s', g)
  {
    forall g: Handle ensures HandleInv(s', g) && CacheInv(s', g) {
      ReleasedLookup(s, i, g);
      assert LookupIn(s', Current(s), g) == LookupIn(StepRelease(s, i), Current(s), g);
      assert HandleInv(s, g) && CacheInv(s, g);
      assert g in s.cachedAs ==> LazyInv(s, s.cachedAs[g]);
    }
  }

  lemma ReleaseKeepsSound(s: State, i: Iso, ok: bool)
    requires Sound(s) && CanRelease(s, i)
    ensures Sound(Released(s, i, ok))
  {
    var s' := Released(s, i, ok);
    assert IsoInv(s, i);
    assert Current(s') == Current(s);
    SameDirectories(s, s');
    ReleasedHandles(s, s', i);
    forall j: Iso ensures IsoInv(s', j) {
      assert IsoInv(s, j);
    }
    forall k: Key ensures LazyInv(s', k) {
      assert LazyInv(s, k);
    }
  }

  // ------------------------------------------------------------ directories

  lemma FilledLonger(published: seq<Handle>, h: Handle, c: nat)
    ensures Filled(published + [h], c) <==> Filled(published, c) || ChunkOf(h) == c
  {
    var p := published + [h];
    if Filled(published, c) {
      var k :| 0 <= k < |published| && ChunkOf(published[k]) == c;
      assert p[k] == published[k];
    }
    assert ChunkOf(h) == c ==> p[|published|] == h;
  }

  lemma JumpedLonger(published: seq<Handle>, h: Handle, c: nat)
    ensures Jumped(published + [h], c) <==> Jumped(published, c) || (c < ChunkOf(h) && !Filled(published, c))
  {
    var p := published + [h];
    assert p[..|published|] == published && p[|published|] == h;
    assert forall k :: 0 <= k < |published| ==> p[k] == published[k] && p[..k] == published[..k];
    if Jumped(published, c) {
      var k :| 0 <= k < |published| && c < ChunkOf(published[k]) && !Filled(published[..k], c);
      assert c < ChunkOf(p[k]) && !Filled(p[..k], c);
    }
  }

  /** The directory that the next publication leaves mirrors the longer list. */
  lemma PublishedMirrors(d: Directory, d': Directory, published: seq<Handle>, h: Handle)
    requires Mirrors(d, published) && d <= d' && ChunkOf(h) < |d'|
    requires |d'| == |d| || (|d'| == ChunkOf(h) + 1 && d'[ChunkOf(h)] != 0)
    requires forall c :: |d| <= c < ChunkOf(h) ==> d'[c] == 0
    ensures Mirrors(d', published + [h])
  {
    var p := published + [h];
    forall k | 0 <= k < |p| ensures ChunkOf(p[k]) < |d'| {
      assert k < |published| ==> p[k] == published[k];
    }
    forall c | 0 <= c < |d'| && d'[c] != 0 ensures Filled(p, c) {
      FilledLonger(published, h, c);
      assert c < |d| ==> d[c] == d'[c];
    }
    forall c: nat ensures Jumped(p, c) <==> c < |d'| && d'[c] == 0 {
      JumpedLonger(published, h, c);
      assert c < |d| ==> d[c] == d'[c];
      assert c >= |d| ==> !Filled(published, c);
    }
  }

  lemma GrownIsWellFormed(d: Directory, c: nat, chunks: nat)
    requires WellFormed(d, chunks) && c >= |d|
    ensures var d' := Grown(d, c, chunks + 1);
            d <= d' && WellFormed(d', chunks + 1) && d'[c] != 0 && forall b :: |d| <= b < c ==> d'[b] == 0
  {
    var d' := Grown(d, c, chunks + 1);
    assert forall b :: 0 <= b < |d'| ==> d'[b] == if b < |d| then d[b] else if b < c then 0 else chunks + 1;
    assert forall b :: 0 <= b < |d| ==> d'[b] == d[b];
  }

  /** Directories only ever grow by prefix extension. */
  lemma GrowKeepsDirectories(s: State, h: Handle, e: Entry)
    requires DirInv(s) && h != 0 && ChunkOf(h) >= |Current(s)|
    ensures DirInv(StepPublish(s, h, e))
  {
    var s', d, d' := StepPublish(s, h, e), Current(s), Grown(Current(s), ChunkOf(h), s.chunks + 1);
    GrownIsWellFormed(d, ChunkOf(h), s.chunks);
    assert s'.dirs == s.dirs + [d'] && Current(s') == d';
    forall b | 0 <= b < |s'.dirs| ensures s'.dirs[b] <= d' {
      assert b < |s.dirs| ==> s.dirs[b] <= d <= d';
    }
    assert s'.cells == s.cells[Place(s.chunks + 1, OffsetOf(h)) := Ptr(e)];
  }

  lemma FillKeepsDirectories(s: State, h: Handle, e: Entry)
    requires DirInv(s) && h != 0 && ChunkOf(h) < |Current(s)|
    ensures DirInv(StepPublish(s, h, e))
  {
    var s', c := StepPublish(s, h, e), Current(s)[ChunkOf(h)];
    assert s'.dirs == s.dirs && Current(s') == Current(s);
    assert c <= s.chunks && OffsetOf(h) < CHUNK;
    forall x | x in s'.cells ensures 0 < x.ref <= s.chunks && x.off < CHUNK {
      assert x in s.cells || (c != 0 && x == Place(c, OffsetOf(h)));
    }
  }

  ghost predicate FewerCells(s: State, s': State) {
    forall x :: x in s'.cells ==> x in s.cells
  }

  lemma SameDirectories(s: State, s': State)
    requires DirInv(s) && s'.dirs == s.dirs && s'.chunks == s.chunks && s'.published == s.published
    requires FewerCells(s, s')
    ensures DirInv(s')
  {
    assert Current(s') == Current(s);
  }

  lemma PublishKeepsDirectories(s: State, i: Iso, ptr: nat)
    requires DirInv(s) && CanPublish(s, i)
    ensures DirInv(Publish(s, i, ptr))
  {
    var h, e := PcOf(s, i).h, Entry(ptr, i);
    if ChunkOf(h) < |Current(s)| {
      FillKeepsDirectories(s, h, e);
    } else {
      GrowKeepsDirectories(s, h, e);
    }
    SameDirectories(StepPublish(s, h, e), Publish(s, i, ptr));
  }

  /** The directory after handle h was published. */
  function Extended(d: Directory, chunks: nat, h: Handle): Directory {
    if ChunkOf(h) < |d| then d else Grown(d, ChunkOf(h), chunks + 1)
  }

  lemma MirrorsLonger(d: Directory, chunks: nat, published: seq<Handle>, h: Handle)
    requires WellFormed(d, chunks) && Mirrors(d, published)
    ensures Mirrors(Extended(d, chunks, h), published + [h])
  {
    if ChunkOf(h) >= |d| {
      GrownIsWellFormed(d, ChunkOf(h), chunks);
    }
    PublishedMirrors(d, Extended(d, chunks, h), published, h);
  }

  lemma PublishKeepsMirror(s: State, i: Iso, ptr: nat)
    requires DirInv(s) && Mirrored(s) && CanPublish(s, i)
    ensures Mirrored(Publish(s, i, ptr))
  {
    var h := PcOf(s, i).h;
    assert Current(Publish(s, i, ptr)) == Extended(Current(s), s.chunks, h);
    MirrorsLonger(Current(s), s.chunks, s.published, h);
  }

  lemma StoreKeepsDirectories(s: State, i: Iso)
    requires DirInv(s) && CanStore(s, i)
    ensures var s' := StoreNil(s, i);
            DirInv(s') && s'.dirs == s.dirs && s'.published == s.published
  {
    var h, d := PcOf(s, i).h, s.dirs[PcOf(s, i).d];
    assert d <= Current(s);
    assert ChunkOf(h) < |d| ==> d[ChunkOf(h)] == Current(s)[ChunkOf(h)] <= s.chunks;
  }

  lemma RegisterSameDirectories(s: State, s': State, i: Iso, op: RegisterOp)
    requires DirInv(s) && Registers(s, s', i, op)
    ensures DirInv(s') && s'.dirs == s.dirs && s'.published == s.published
  {
    SameDirectories(s, s');
  }

  lemma DropSameDirectories(s: State, s': State, i: Iso, op: DropOp)
    requires DirInv(s) && Drops(s, s', i, op)
    ensures DirInv(s') && s'.dirs == s.dirs && s'.published == s.published
  {
    SameDirectories(s, s');
  }

  lemma ReleaseSameDirectories(s: State, i: Iso, ok: bool)
    requires DirInv(s)
    ensures var s' := Released(s, i, ok); DirInv(s') && s'.dirs == s.dirs && s'.published == s.published
  {
    SameDirectories(s, Released(s, i, ok));
  }

  lemma ResetSameDirectories(s: State, i: Iso)
    requires DirInv(s)
    ensures var s' := ResetCounter(s, i); DirInv(s') && s'.dirs == s.dirs && s'.published == s.published
  {
    SameDirectories(s, ResetCounter(s, i));
  }

  lemma KeepDirectories(s: State, s': State, i: Iso, op: Op)
    requires DirInv(s) && Mirrored(s) && Does(s, s', i, op)
    ensures DirInv(s') && Mirrored(s') && s.dirs <= s'.dirs
  {
    match op
    case Publishing(ptr) =>
      PublishKeepsDirectories(s, i, ptr);
      PublishKeepsMirror(s, i, ptr);
    case Clearing => StoreKeepsDirectories(s, i);
    case Registering(r) => RegisterSameDirectories(s, s', i, r);
    case Dropping(d) => DropSameDirectories(s, s', i, d);
    case Releasing(ok) => ReleaseSameDirectories(s, i, ok);
    case ResettingCounter => ResetSameDirectories(s, i);
  }

  lemma DoesKeepsSound(s: State, s': State, i: Iso, op: Op)
    requires Sound(s) && Does(s, s', i, op) && DirInv(s') && !s'.overlapped
    ensures Sound(s')
  {
    match op
    case Registering(r) =>
      RegisterKeepsHandles(s, s', i, r);
      RegisterKeepsIsolates(s, s', i, r);
    case Publishing(ptr) => PublishKeepsSound(s, i, ptr);
    case Dropping(d) =>
      DropKeepsHandles(s, s', i, d);
      DropKeepsCache(s, s', i, d);
      DropKeepsIsolates(s, s', i, d);
    case Clearing => ClearKeepsSound(s, i);
    case Releasing(ok) => ReleaseKeepsSound(s, i, ok);
    case ResettingCounter => KeepReset(s, i);
  }

  lemma FlagStays(s: State, s': State, i: Iso, op: Op)
    requires Does(s, s', i, op)
    ensures s.overlapped ==> s'.overlapped
  {
  }

  lemma NextKeepsInv()
    ensures forall s, s' :: Inv(s) && Next(s, s') ==> Inv(s')
  {
    forall s, s' | Inv(s) && Next(s, s') ensures Inv(s') {
      var i, op :| Does(s, s', i, op);
      KeepDirectories(s, s', i, op);
      FlagStays(s, s', i, op);
      if !s'.overlapped {
        DoesKeepsSound(s, s', i, op);
      }
    }
  }

  lemma InitInv()
    ensures forall s :: Init(s) ==> Inv(s)
  {
    forall s | Init(s) ensures Inv(s) {
      forall i: Iso ensures IsoInv(s, i) {
      }
    }
  }
}
