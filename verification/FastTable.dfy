/**
 The chunked table of callback entries as the source keeps it (callback.go):
 a directory of references to fixed-size arrays whose elements are stored in
 place. Growing replaces the directory and keeps the arrays.
 */
module FastTable {
  import opened HostRegistry

  /** Dereferencing a nil chunk is a run-time fault. */
  datatype Outcome = Fault | Found(slot: Slot)

  class Table {
    var chunks: seq<array?<Slot>>

    ghost predicate Valid()
      reads this
    {
      && (forall c :: 0 <= c < |chunks| && chunks[c] != null ==> chunks[c].Length == CHUNK)
      && (forall b, c :: 0 <= b < c < |chunks| && chunks[b] != null ==> chunks[b] != chunks[c])
    }

    ghost predicate Missing(h: Handle)
      reads this
    {
      h != 0 && ChunkOf(h) < |chunks| && chunks[ChunkOf(h)] == null
    }

    /** What the table holds for a handle. */
    ghost function At(h: Handle): Slot
      requires Valid()
      reads this, chunks
    {
      if h == 0 || ChunkOf(h) >= |chunks| || chunks[ChunkOf(h)] == null then Nil
      else chunks[ChunkOf(h)][OffsetOf(h)]
    }

    constructor ()
      ensures Valid() && chunks == []
    {
      chunks := [];
    }

    method Lookup(h: Handle) returns (r: Outcome)
      requires Valid()
      ensures r == if Missing(h) then Fault else Found(At(h))
    {
      if h == 0 || ChunkOf(h) >= |chunks| {
        return Found(Nil);
      }
      var chunk := chunks[ChunkOf(h)];
      if chunk == null {
        return Fault;
      }
      return Found(chunk[OffsetOf(h)]);
    }

    method Grow(c: nat)
      requires Valid() && c >= |chunks|
      modifies this
      ensures Valid() && |chunks| == c + 1 && old(chunks) <= chunks
      ensures chunks[c] != null && fresh(chunks[c]) && forall k :: 0 <= k < CHUNK ==> chunks[c][k] == Nil
      ensures forall b :: |old(chunks)| <= b < c ==> chunks[b] == null
    {
      var chunk := new Slot[CHUNK](_ => Nil);
      var grown := chunks;
      while |grown| < c
        invariant |chunks| <= |grown| <= c && chunks <= grown && chunks == old(chunks)
        invariant forall b :: |chunks| <= b < |grown| ==> grown[b] == null
      {
        grown := grown + [null];
      }
      chunks := grown + [chunk];
    }

    /** publishFastHostCallbackLocked. */
    method Publish(h: Handle, e: Entry) returns (r: Outcome)
      requires Valid() && h != 0
      modifies this, chunks
      ensures Valid() && old(chunks) <= chunks
      ensures r == if old(Missing(h)) then Fault else Found(Ptr(e))
      ensures r == Fault ==> chunks == old(chunks)
      ensures forall g: Handle :: At(g) == if g == h && r != Fault then Ptr(e) else old(At(g))
      ensures forall g: Handle :: Missing(g) <==>
                old(Missing(g)) || (|old(chunks)| <= ChunkOf(g) < ChunkOf(h) && g != 0)
    {
      var c := ChunkOf(h);
      if c >= |chunks| {
        Grow(c);
      }
      var chunk := chunks[c];
      if chunk == null {
        return Fault;
      }
      chunk[OffsetOf(h)] := Ptr(e);
      return Found(Ptr(e));
    }

    /** dropFastHostCallback. */
    method Drop(h: Handle) returns (r: Outcome)
      requires Valid()
      modifies chunks
      ensures Valid()
      ensures r == if Missing(h) then Fault else Found(Nil)
      ensures forall g: Handle :: At(g) == if g == h then Nil else old(At(g))
    {
      if h == 0 || ChunkOf(h) >= |chunks| {
        return Found(Nil);
      }
      var chunk := chunks[ChunkOf(h)];
      if chunk == null {
        return Fault;
      }
      chunk[OffsetOf(h)] := Nil;
      return Found(Nil);
    }
  }
}
