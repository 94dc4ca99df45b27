/**
 The host-callback registry (callback.go): a mutex-guarded map from integer
 handles to callback entries, a lock-free chunked table that mirrors it for
 dispatch, and a cache from lazy getters to handles.

 The table is a directory of fixed-size chunks. Growing it publishes a new
 directory that shares the old chunks; readers and droppers may still be
 using an older one. Isolates are thread-affine, so each isolate has at most
 one operation in flight, and operations of different isolates interleave.
 */
module HostRegistry {

  const CHUNK: nat := 1024

  type Handle = nat
  type Iso = nat

  /** ptr is the identity of the heap entry. */
  datatype Entry = Entry(ptr: nat, iso: Iso)

  datatype Slot = Nil | Ptr(e: Entry)

  datatype Key = Key(iso: Iso, identity: nat)

  datatype Wanted = Plain | Lazy(key: Key)

  /** One slot of one chunk. */
  datatype Place = Place(ref: nat, off: nat)

  /** A directory lists chunk references; 0 is a nil chunk. */
  type Directory = seq<nat>

  datatype Pc =
    | Idle
    | Reserved(h: Handle, w: Wanted)     // handle taken, native context being created
    | Caching(h: Handle, key: Key)       // registered, cache entry not written yet
    | DropFast(h: Handle)                // about to load the directory
    | DropStore(h: Handle, d: nat)       // directory number d loaded
    | DropMap(h: Handle)                 // cell cleared, map entry still there
    | Resetting                          // bulk release done, counter not examined yet

  /** dirs holds every directory ever published, the last one current.
      published lists the handles published so far. overlapped and faulted record
      that the counter was reset under an unpublished reservation, and that a nil
      chunk was dereferenced. reservedBy and cachedAs record who reserved a handle
      last and the key caching it. */
  datatype State = State(
    next: nat,
    entries: map<Handle, Entry>,
    lazy: map<Key, Handle>,
    dirs: seq<Directory>,
    cells: map<Place, Slot>,
    chunks: nat,
    isolates: map<Iso, Pc>,
    reservedBy: map<Handle, Iso>,
    cachedAs: map<Handle, Key>,
    published: seq<Handle>,
    overlapped: bool,
    faulted: bool)

  function PcOf(s: State, i: Iso): Pc {
    if i in s.isolates then s.isolates[i] else Idle
  }

  function Goto(s: State, i: Iso, pc: Pc): State {
    s.(isolates := s.isolates[i := pc])
  }

  /** Handle 0 is never issued; it shares no cell because lookups reject it first. */
  function ChunkOf(h: Handle): nat {
    if h == 0 then 0 else (h - 1) / 1024
  }

  function OffsetOf(h: Handle): nat {
    if h == 0 then 0 else (h - 1) % 1024
  }

  function Content(m: map<Handle, Entry>, h: Handle): Slot {
    if h in m then Ptr(m[h]) else Nil
  }

  function Cell(s: State, ref: nat, off: nat): Slot {
    if Place(ref, off) in s.cells then s.cells[Place(ref, off)] else Nil
  }

  function Current(s: State): Directory {
    if s.dirs == [] then [] else s.dirs[|s.dirs| - 1]
  }

  /** Dispatching h dereferences a nil chunk. */
  predicate FaultsOn(s: State, h: Handle) {
    h != 0 && ChunkOf(h) < |Current(s)| && Current(s)[ChunkOf(h)] == 0
  }

  /** lookupHostCallback through one directory; where it faults it reads as nil here. */
  function LookupIn(s: State, d: Directory, h: Handle): Slot {
    if h == 0 || ChunkOf(h) >= |d| || d[ChunkOf(h)] == 0 then Nil
    else Cell(s, d[ChunkOf(h)], OffsetOf(h))
  }

  // ---------------------------------------------------------------- steps

  predicate Running(s: State) {
    !s.faulted && |s.dirs| > 0
  }

  /** The search loop of registerHostEntryAssumingIsolate: the first unoccupied handle after the counter. */
  predicate FirstFree(s: State, h: Handle) {
    h > s.next && h !in s.entries && forall g :: s.next < g < h ==> g in s.entries
  }

  function Grown(d: Directory, c: nat, ref: nat): Directory
    requires c >= |d|
  {
    d + seq(c - |d|, i => 0) + [ref]
  }

  /** publishFastHostCallbackLocked together with the map insertion, under the mutex. */
  function StepPublish(s: State, h: Handle, e: Entry): State
    requires h != 0 && |s.dirs| > 0
  {
    var d := Current(s);
    var c := ChunkOf(h);
    var grow := c >= |d|;
    var ref := if grow then s.chunks + 1 else d[c];
    s.(entries := s.entries[h := e],
       chunks := if grow then ref else s.chunks,
       dirs := if grow then s.dirs + [Grown(d, c, ref)] else s.dirs,
       cells := if ref != 0 then s.cells[Place(ref, OffsetOf(h)) := Ptr(e)] else s.cells,
       published := s.published + [h],
       faulted := s.faulted || ref == 0)
  }

  function StepStoreNil(s: State, h: Handle, d: Directory): State {
    var inRange := h != 0 && ChunkOf(h) < |d|;
    s.(faulted := s.faulted || (inRange && d[ChunkOf(h)] == 0),
       cells := if inRange && d[ChunkOf(h)] != 0 then s.cells[Place(d[ChunkOf(h)], OffsetOf(h)) := Nil] else s.cells)
  }

  function OwnedBy(s: State, i: Iso): set<Handle> {
    set h | h in s.entries && s.entries[h].iso == i
  }

  predicate ReleasedCell(s: State, i: Iso, cell: Place) {
    exists h :: h in OwnedBy(s, i) && ChunkOf(h) < |Current(s)| &&
                cell == Place(Current(s)[ChunkOf(h)], OffsetOf(h))
  }

  /** The registry part of ReleaseIsolateHostState, under the mutex. */
  function StepRelease(s: State, i: Iso): State {
    s.(entries := map h | h in s.entries && s.entries[h].iso != i :: s.entries[h],
       lazy := map k | k in s.lazy && k.iso != i :: s.lazy[k],
       cachedAs := map h | h in s.cachedAs && s.cachedAs[h].iso != i :: s.cachedAs[h],
       cells := map c | c in s.cells :: if ReleasedCell(s, i, c) then Nil else s.cells[c])
  }

  ghost predicate Empty(s: State) {
    forall h: Handle :: h !in s.entries
  }

  ghost predicate Outstanding(s: State) {
    exists j :: j in s.isolates && s.isolates[j].Reserved?
  }

  /** First critical section of a registration; a lazy getter got there by missing the cache. */
  predicate CanReserve(s: State, i: Iso, w: Wanted, h: Handle) {
    Running(s) && PcOf(s, i) == Idle && FirstFree(s, h) && (w.Lazy? ==> w.key.iso == i && w.key !in s.lazy)
  }

  function Reserve(s: State, i: Iso, w: Wanted, h: Handle): State {
    Goto(s, i, Reserved(h, w)).(next := h, reservedBy := s.reservedBy[h := i])
  }

  /** The native context could not be created; the handle stays used up. */
  predicate CanFail(s: State, i: Iso) {
    Running(s) && PcOf(s, i).Reserved?
  }

  predicate CanPublish(s: State, i: Iso) {
    Running(s) && PcOf(s, i).Reserved? && PcOf(s, i).h != 0
  }

  /** Second critical section of a registration. */
  function Publish(s: State, i: Iso, ptr: nat): State
    requires CanPublish(s, i)
  {
    var pc := PcOf(s, i);
    Goto(StepPublish(s, pc.h, Entry(ptr, i)), i, if pc.w.Lazy? then Caching(pc.h, pc.w.key) else Idle)
  }

  predicate CanCache(s: State, i: Iso) {
    Running(s) && PcOf(s, i).Caching? && PcOf(s, i).h in s.entries
  }

  function CacheLazy(s: State, i: Iso): State
    requires CanCache(s, i)
  {
    var pc := PcOf(s, i);
    Goto(s, i, Idle).(lazy := s.lazy[pc.key := pc.h], cachedAs := s.cachedAs[pc.h := pc.key])
  }

  /** registerLazyGetter found its fresh registration gone and drops the handle. */
  predicate LostRegistration(s: State, i: Iso) {
    Running(s) && PcOf(s, i).Caching? && PcOf(s, i).h !in s.entries
  }

  /** dropHostCallback is called by the owner of a handle that no lazy key caches. */
  predicate CanDrop(s: State, i: Iso, h: Handle) {
    Running(s) && PcOf(s, i) == Idle && h in s.entries && s.entries[h].iso == i && h !in s.cachedAs
  }

  predicate CanDropLazy(s: State, i: Iso, key: Key) {
    Running(s) && PcOf(s, i) == Idle && key.iso == i && key in s.lazy
  }

  /** dropNewLazyGetter removes its key first. */
  function DropLazy(s: State, i: Iso, key: Key): State
    requires CanDropLazy(s, i, key)
  {
    Goto(s, i, DropFast(s.lazy[key])).(lazy := s.lazy - {key}, cachedAs := s.cachedAs - {s.lazy[key]})
  }

  predicate CanLoad(s: State, i: Iso) {
    Running(s) && PcOf(s, i).DropFast?
  }

  function LoadForDrop(s: State, i: Iso): State
    requires CanLoad(s, i)
  {
    Goto(s, i, DropStore(PcOf(s, i).h, |s.dirs| - 1))
  }

  predicate CanStore(s: State, i: Iso) {
    Running(s) && PcOf(s, i).DropStore? && PcOf(s, i).d < |s.dirs|
  }

  function StoreNil(s: State, i: Iso): State
    requires CanStore(s, i)
  {
    var pc := PcOf(s, i);
    Goto(StepStoreNil(s, pc.h, s.dirs[pc.d]), i, DropMap(pc.h))
  }

  predicate CanDelete(s: State, i: Iso) {
    Running(s) && PcOf(s, i).DropMap?
  }

  function DeleteEntry(s: State, i: Iso): State
    requires CanDelete(s, i)
  {
    Goto(s, i, Idle).(entries := s.entries - {PcOf(s, i).h})
  }

  predicate CanRelease(s: State, i: Iso) {
    Running(s) && PcOf(s, i) == Idle
  }

  /** ok: releasing the native contexts afterwards succeeded. */
  function Released(s: State, i: Iso, ok: bool): State {
    Goto(StepRelease(s, i), i, if ok then Resetting else Idle)
  }

  predicate CanReset(s: State, i: Iso) {
    Running(s) && PcOf(s, i) == Resetting
  }

  ghost function ResetCounter(s: State, i: Iso): State {
    Goto(s, i, Idle).(next := if Empty(s) then 0 else s.next,
                      overlapped := s.overlapped || (Empty(s) && Outstanding(s)))
  }

  datatype RegisterOp = Reserving(w: Wanted, h: Handle) | Failing | CachingKey | Losing

  datatype DropOp = BeginningDrop(h: Handle) | BeginningLazyDrop(key: Key) | Loading | Deleting

  datatype Op =
    | Registering(r: RegisterOp)
    | Publishing(ptr: nat)
    | Dropping(d: DropOp)
    | Clearing
    | Releasing(ok: bool)
    | ResettingCounter

  ghost predicate Registers(s: State, s': State, i: Iso, op: RegisterOp) {
    match op
    case Reserving(w, h) => CanReserve(s, i, w, h) && s' == Reserve(s, i, w, h)
    case Failing => CanFail(s, i) && s' == Goto(s, i, Idle)
    case CachingKey => CanCache(s, i) && s' == CacheLazy(s, i)
    case Losing => LostRegistration(s, i) && s' == Goto(s, i, DropFast(PcOf(s, i).h))
  }

  ghost predicate Drops(s: State, s': State, i: Iso, op: DropOp) {
    match op
    case BeginningDrop(h) => CanDrop(s, i, h) && s' == Goto(s, i, DropFast(h))
    case BeginningLazyDrop(key) => CanDropLazy(s, i, key) && s' == DropLazy(s, i, key)
    case Loading => CanLoad(s, i) && s' == LoadForDrop(s, i)
    case Deleting => CanDelete(s, i) && s' == DeleteEntry(s, i)
  }

  /** One step of isolate i's thread. */
  ghost predicate Does(s: State, s': State, i: Iso, op: Op) {
    match op
    case Registering(r) => Registers(s, s', i, r)
    case Publishing(ptr) => CanPublish(s, i) && s' == Publish(s, i, ptr)
    case Dropping(d) => Drops(s, s', i, d)
    case Clearing => CanStore(s, i) && s' == StoreNil(s, i)
    case Releasing(ok) => CanRelease(s, i) && s' == Released(s, i, ok)
    case ResettingCounter => CanReset(s, i) && s' == ResetCounter(s, i)
  }

  ghost predicate Next(s: State, s': State) {
    exists i, op :: Does(s, s', i, op)
  }

  ghost predicate Init(s: State) {
    s == State(0, map[], map[], [[]], map[], 0, map[], map[], map[], [], false, false)
  }

  // ------------------------------------------------------------ invariant

  predicate InDrop(pc: Pc) {
    pc.DropFast? || pc.DropStore? || pc.DropMap?
  }

  /** Some isolate has cleared h's cell and not yet deleted h from the map. */
  ghost predicate HalfDropped(s: State, h: Handle) {
    h in s.entries && PcOf(s, s.entries[h].iso) == DropMap(h)
  }

  /** References are allocated in order and no chunk is listed twice. */
  ghost predicate WellFormed(d: Directory, chunks: nat) {
    && (forall c :: 0 <= c < |d| ==> d[c] <= chunks)
    && (forall b, c :: 0 <= b < c < |d| && d[b] == d[c] ==> d[b] == 0)
  }

  /** Some handle of chunk c has been published. */
  ghost predicate Filled(published: seq<Handle>, c: nat) {
    exists k :: 0 <= k < |published| && ChunkOf(published[k]) == c
  }

  /** A handle of a chunk above c was published before any handle of chunk c. */
  ghost predicate Jumped(published: seq<Handle>, c: nat) {
    exists k :: 0 <= k < |published| && c < ChunkOf(published[k]) && !Filled(published[..k], c)
  }

  /** The directory reaches the highest chunk published; its nil chunks are the ones jumped over. */
  ghost predicate Mirrors(d: Directory, published: seq<Handle>) {
    && (forall k :: 0 <= k < |published| ==> ChunkOf(published[k]) < |d|)
    && (forall c :: 0 <= c < |d| && d[c] != 0 ==> Filled(published, c))
    && (forall c: nat :: Jumped(published, c) <==> c < |d| && d[c] == 0)
  }

  ghost predicate Mirrored(s: State) {
    Mirrors(Current(s), s.published)
  }

  ghost predicate DirInv(s: State) {
    && |s.dirs| > 0
    && (forall d :: 0 <= d < |s.dirs| ==> s.dirs[d] <= Current(s))
    && WellFormed(Current(s), s.chunks)
    && (forall x :: x in s.cells ==> 0 < x.ref <= s.chunks && x.off < CHUNK)
  }

  /** Map and table on handle h: what the map holds, what the table answers. */
  predicate Agree(
    h: Handle, next: nat, inRange: bool, faults: bool, half: bool, faulted: bool, held: Slot, found: Slot)
  {
    && (held.Ptr? ==> 0 < h <= next && inRange && (!faulted ==> !faults))
    && (h != 0 && !faults ==> found == if half then Nil else held)
  }

  ghost predicate HandleInv(s: State, h: Handle) {
    Agree(h, s.next, ChunkOf(h) < |Current(s)|, FaultsOn(s, h), HalfDropped(s, h), s.faulted, Content(s.entries, h),
          LookupIn(s, Current(s), h))
  }

  ghost predicate CacheInv(s: State, h: Handle) {
    h in s.cachedAs ==> h in s.entries && s.cachedAs[h] in s.lazy && s.lazy[s.cachedAs[h]] == h
  }

  ghost predicate IsoInv(s: State, i: Iso) {
    var pc := PcOf(s, i);
    && (pc.Reserved? ==>
          && 0 < pc.h <= s.next && pc.h !in s.entries
          && pc.h in s.reservedBy && s.reservedBy[pc.h] == i
          && (pc.w.Lazy? ==> pc.w.key.iso == i && pc.w.key !in s.lazy))
    && (pc.Caching? ==>
          pc.h in s.entries && s.entries[pc.h].iso == i && pc.key.iso == i && pc.key !in s.lazy && pc.h !in s.cachedAs)
    && (InDrop(pc) ==> pc.h in s.entries && s.entries[pc.h].iso == i && pc.h !in s.cachedAs)
    && (pc.DropStore? ==> pc.d < |s.dirs| && ChunkOf(pc.h) < |s.dirs[pc.d]|)
  }

  /** Every lazy-getter key resolves to a live entry of its own isolate. */
  ghost predicate LazyInv(s: State, k: Key) {
    k in s.lazy ==>
      && s.lazy[k] in s.entries && s.entries[s.lazy[k]].iso == k.iso
      && s.lazy[k] in s.cachedAs && s.cachedAs[s.lazy[k]] == k
  }

  ghost predicate Sound(s: State) {
    && DirInv(s)
    && (forall h: Handle :: HandleInv(s, h))
    && (forall h: Handle :: CacheInv(s, h))
    && (forall i: Iso :: IsoInv(s, i))
    && (forall k: Key :: LazyInv(s, k))
  }

  /** The directories are well formed in every run; the rest needs that no reset overlapped a reservation. */
  ghost predicate Inv(s: State) {
    && DirInv(s) && Mirrored(s)
    && (!s.overlapped ==> Sound(s))
  }
}
