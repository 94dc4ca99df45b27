/**
 Every step of a graph keeps the invariant: it touches only what belongs to that
 graph, and keeps that graph's own part.
 */
module GraphTokenSteps {
  import opened GraphTokens

  // A step of graph g leaves everything of the other graphs alone.

  ghost predicate KeepsGraph(s: State, s': State, g: Graph, u: Graph) {
    u != g ==> (u in s'.graphs <==> u in s.graphs) && (u in s.graphs ==> s'.graphs[u] == s.graphs[u])
  }

  ghost predicate OthersId(s: State, g: Graph, id: Id) {
    id in s.inUse && s.inUse[id] != g
  }

  ghost predicate KeepsId(s: State, s': State, g: Graph, id: Id) {
    && (OthersId(s, g, id) ==>
          id in s'.inUse && s'.inUse[id] == s.inUse[id] && (id in s'.registry <==> id in s.registry))
    && (id in s'.inUse || id in s'.registry ==> OthersId(s, g, id) || (id in s'.inUse && s'.inUse[id] == g))
  }

  ghost predicate OthersEntry(s: State, g: Graph, tok: Token) {
    tok in s.entries && !OwnsObj(s, g, s.entries[tok].c.o)
  }

  ghost predicate KeepsEntry(s: State, s': State, g: Graph, tok: Token) {
    && (OthersEntry(s, g, tok) ==> tok in s'.entries && s'.entries[tok] == s.entries[tok])
    && (tok in s'.entries ==> OthersEntry(s, g, tok) || OwnsObj(s', g, s'.entries[tok].c.o))
  }

  ghost predicate OthersObj(s: State, g: Graph, o: Obj) {
    o in s.objs && s.objs[o].g != g
  }

  ghost predicate KeepsObj(s: State, s': State, g: Graph, o: Obj) {
    && (OthersObj(s, g, o) ==> o in s'.objs && s'.objs[o] == s.objs[o])
    && (o in s'.objs ==> OthersObj(s, g, o) || s'.objs[o].g == g)
  }

  /** The destruction of g has begun: its state has been taken from it. */
  predicate Doomed(s: State, g: Graph) {
    g in s.graphs && !s.graphs[g].cell.NoCell? && !s.graphs[g].cell.Holds?
  }

  predicate RootClosed(s: State, g: Graph) {
    g in s.graphs && s.graphs[g].rootClosed
  }

  /** Destruction is final, and only the state-drop callback begins it; a closed root stays closed. */
  ghost predicate OnlyCalledBack(s: State, s': State, g: Graph) {
    && (RootClosed(s, g) ==> RootClosed(s', g))
    && (Doomed(s, g) ==> Doomed(s', g))
    && (Doomed(s', g) ==> Doomed(s, g) || Destroys(s, s', g, DestroyCallsDrop))
  }

  ghost predicate Local(s: State, s': State, g: Graph) {
    && OnlyCalledBack(s, s', g)
    && (forall u: Graph :: KeepsGraph(s, s', g, u))
    && (forall id: Id :: KeepsId(s, s', g, id))
    && (forall tok: Token :: KeepsEntry(s, s', g, tok))
    && (forall o: Obj :: KeepsObj(s, s', g, o))
  }

  ghost predicate EntriesInv(s: State, g: Graph) {
    && (forall id: Id :: id in s.inUse && s.inUse[id] == g ==> IdInv(s, id))
    && (forall tok: Token :: tok in s.entries && OwnsObj(s, g, s.entries[tok].c.o) ==> TokenInv(s, tok))
    && (forall o: Obj :: OwnsObj(s, g, o) ==> ObjInv(s, o))
  }

  /** What is left to prove of a local step of g: its own part of the invariant. */
  ghost predicate OwnInv(s: State, g: Graph) {
    !s.fatal && GraphInv(s, g) && EntriesInv(s, g)
  }

  lemma LocalKeepsInv(s: State, s': State, g: Graph)
    requires Inv(s) && Local(s, s', g) && OwnInv(s', g)
    ensures Inv(s')
  {
    forall u, id, tok | u != g && OwnEntry(s, u, id, tok)
      ensures OwnEntry(s', u, id, tok) && s'.entries[tok] == s.entries[tok]
    {
      assert KeepsEntry(s, s', g, tok) && KeepsObj(s, s', g, s.entries[tok].c.o);
    }
    forall u: Graph ensures GraphInv(s', u) {
      assert GraphInv(s, u) && KeepsGraph(s, s', g, u);
      if u != g && u in s.graphs {
        var r := s.graphs[u];
        assert UsesId(r) ==> KeepsId(s, s', g, r.id);
        assert HasClone(r.pc) ==> KeepsObj(s, s', g, r.pc.c.o);
        assert r.cell.Dying? ==> KeepsObj(s, s', g, r.cell.c.o);
      }
    }
    forall id: Id ensures IdInv(s', id) {
      assert IdInv(s, id) && KeepsId(s, s', g, id);
      assert OthersId(s, g, id) ==> KeepsGraph(s, s', g, s.inUse[id]);
    }
    forall tok: Token ensures TokenInv(s', tok) {
      assert TokenInv(s, tok) && KeepsEntry(s, s', g, tok);
      if OthersEntry(s, g, tok) {
        assert KeepsObj(s, s', g, s.entries[tok].c.o) && KeepsGraph(s, s', g, s.objs[s.entries[tok].c.o].g);
      }
    }
    forall o: Obj ensures ObjInv(s', o) {
      assert ObjInv(s, o) && KeepsObj(s, s', g, o);
      if OthersObj(s, g, o) {
        assert KeepsGraph(s, s', g, s.objs[o].g);
        assert s.objs[o].loc.In? ==> KeepsEntry(s, s', g, s.objs[o].loc.tok);
      }
    }
  }

  /** Graph g's own part of the invariant before its step. */
  ghost predicate Facts(s: State, g: Graph) {
    g in s.graphs &&
    var r := s.graphs[g];
    && GraphInv(s, g)
    && (r.cell.Holds? ==> TokenInv(s, r.cell.tok))
    && (r.pc.Stored? || r.pc.Fresh? ==> TokenInv(s, r.pc.tok))
    && (r.pc.Replaced? ==> TokenInv(s, r.pc.prior))
    && (UsesId(r) ==> IdInv(s, r.id))
  }

  lemma About(s: State, g: Graph)
    requires Inv(s) && g in s.graphs
    ensures Facts(s, g)
  {
    assert GraphInv(s, g);
  }

  /** The token an operation of g looks up: State and UpdateState read with the
      wrapper's token, UpdateState writes back with the one it read under. */
  function Sought(r: Rec): Token {
    if r.pc.Updating? then r.pc.tok else r.stateId
  }

  /** What graph g finds by a lookup is its own. */
  ghost predicate LookupFacts(s: State, g: Graph) {
    g in s.graphs &&
    var r := s.graphs[g];
    UsesId(r) && Readable(s, r.id, Sought(r)) ==>
      Owns(r, Sought(r)) && OwnEntry(s, g, r.id, Sought(r)) && TokenInv(s, Sought(r))
  }

  /** A graph whose id is in use finds under it only the tokens it is responsible for. */
  lemma LookupIsOwn(s: State, g: Graph, tok: Token)
    requires Inv(s) && g in s.graphs && UsesId(s.graphs[g]) && Readable(s, s.graphs[g].id, tok)
    ensures Owns(s.graphs[g], tok) && OwnEntry(s, g, s.graphs[g].id, tok) && TokenInv(s, tok)
  {
    assert TokenInv(s, tok) && GraphInv(s, g);
    assert GraphInv(s, s.objs[s.entries[tok].c.o].g);
  }

  lemma AboutLookup(s: State, g: Graph)
    requires Inv(s) && g in s.graphs
    ensures LookupFacts(s, g)
  {
    var r := s.graphs[g];
    if UsesId(r) && Readable(s, r.id, Sought(r)) {
      LookupIsOwn(s, g, Sought(r));
    }
  }

  lemma ConstructIsLocal(s: State, s': State, g: Graph, op: ConstructOp)
    requires Inv(s) && Constructs(s, s', g, op)
    ensures Local(s, s', g)
  {
    if g in s.graphs {
      About(s, g);
    }
    forall id: Id ensures KeepsId(s, s', g, id) {
      assert IdInv(s, id);
    }
    forall tok: Token ensures KeepsEntry(s, s', g, tok) {
      assert TokenInv(s, tok);
    }
    forall o: Obj ensures KeepsObj(s, s', g, o) {
    }
  }

  lemma ConstructKeepsOwn(s: State, s': State, g: Graph, op: ConstructOp)
    requires Constructs(s, s', g, op) && !s.fatal && (g in s.graphs ==> Facts(s, g))
    ensures !s'.fatal && GraphInv(s', g)
  {
  }

  lemma ConstructKeepsEntries(s: State, s': State, g: Graph, op: ConstructOp)
    requires Inv(s) && Constructs(s, s', g, op)
    ensures EntriesInv(s', g)
  {
    if g in s.graphs {
      About(s, g);
    }
    forall id: Id ensures id in s'.inUse && s'.inUse[id] == g ==> IdInv(s', id) {
      assert IdInv(s, id);
    }
    forall tok: Token ensures tok in s'.entries && OwnsObj(s', g, s'.entries[tok].c.o) ==> TokenInv(s', tok) {
      assert TokenInv(s, tok);
    }
    forall o: Obj ensures OwnsObj(s', g, o) ==> ObjInv(s', o) {
      assert ObjInv(s, o);
    }
  }

  lemma UnwindIsLocal(s: State, s': State, g: Graph, op: UnwindOp)
    requires Inv(s) && Unwinds(s, s', g, op)
    ensures Local(s, s', g)
  {
    About(s, g);
    forall id: Id ensures KeepsId(s, s', g, id) {
      assert IdInv(s, id);
    }
    forall tok: Token ensures KeepsEntry(s, s', g, tok) {
      assert TokenInv(s, tok);
    }
    forall o: Obj ensures KeepsObj(s, s', g, o) {
    }
  }

  lemma UnwindKeepsOwn(s: State, s': State, g: Graph, op: UnwindOp)
    requires Unwinds(s, s', g, op) && !s.fatal && Facts(s, g)
    ensures !s'.fatal && GraphInv(s', g)
  {
  }

  lemma UnwindKeepsEntries(s: State, s': State, g: Graph, op: UnwindOp)
    requires Inv(s) && Unwinds(s, s', g, op)
    ensures EntriesInv(s', g)
  {
    About(s, g);
    forall id: Id ensures id in s'.inUse && s'.inUse[id] == g ==> IdInv(s', id) {
      assert IdInv(s, id);
    }
    forall tok: Token ensures tok in s'.entries && OwnsObj(s', g, s'.entries[tok].c.o) ==> TokenInv(s', tok) {
      assert TokenInv(s, tok);
    }
    forall o: Obj ensures OwnsObj(s', g, o) ==> ObjInv(s', o) {
      assert ObjInv(s, o);
    }
  }

  lemma ReplaceIsLocal(s: State, s': State, g: Graph, op: ReplaceOp)
    requires Inv(s) && Replaces(s, s', g, op)
    ensures Local(s, s', g)
  {
    About(s, g);
    forall id: Id ensures KeepsId(s, s', g, id) {
      assert IdInv(s, id);
    }
    forall tok: Token ensures KeepsEntry(s, s', g, tok) {
      assert TokenInv(s, tok);
    }
    forall o: Obj ensures KeepsObj(s, s', g, o) {
    }
  }

  lemma ReplaceKeepsOwn(s: State, s': State, g: Graph, op: ReplaceOp)
    requires Replaces(s, s', g, op) && !s.fatal && Facts(s, g)
    ensures !s'.fatal && GraphInv(s', g)
  {
  }

  lemma ReplaceKeepsEntries(s: State, s': State, g: Graph, op: ReplaceOp)
    requires Inv(s) && Replaces(s, s', g, op)
    ensures EntriesInv(s', g)
  {
    About(s, g);
    forall id: Id ensures id in s'.inUse && s'.inUse[id] == g ==> IdInv(s', id) {
      assert IdInv(s, id);
    }
    forall tok: Token ensures tok in s'.entries && OwnsObj(s', g, s'.entries[tok].c.o) ==> TokenInv(s', tok) {
      assert TokenInv(s, tok);
    }
    forall o: Obj ensures OwnsObj(s', g, o) ==> ObjInv(s', o) {
      assert ObjInv(s, o);
    }
  }

  lemma WithdrawIsLocal(s: State, s': State, g: Graph, op: WithdrawOp)
    requires Inv(s) && Withdraws(s, s', g, op)
    ensures Local(s, s', g)
  {
    About(s, g);
    forall id: Id ensures KeepsId(s, s', g, id) {
      assert IdInv(s, id);
    }
    forall tok: Token ensures KeepsEntry(s, s', g, tok) {
      assert TokenInv(s, tok);
    }
    forall o: Obj ensures KeepsObj(s, s', g, o) {
    }
  }

  lemma WithdrawKeepsOwn(s: State, s': State, g: Graph, op: WithdrawOp)
    requires Withdraws(s, s', g, op) && !s.fatal && Facts(s, g)
    ensures !s'.fatal && GraphInv(s', g)
  {
  }

  lemma WithdrawKeepsEntries(s: State, s': State, g: Graph, op: WithdrawOp)
    requires Inv(s) && Withdraws(s, s', g, op)
    ensures EntriesInv(s', g)
  {
    About(s, g);
    forall id: Id ensures id in s'.inUse && s'.inUse[id] == g ==> IdInv(s', id) {
      assert IdInv(s, id);
    }
    forall tok: Token ensures tok in s'.entries && OwnsObj(s', g, s'.entries[tok].c.o) ==> TokenInv(s', tok) {
      assert TokenInv(s, tok);
    }
    forall o: Obj ensures OwnsObj(s', g, o) ==> ObjInv(s', o) {
      assert ObjInv(s, o);
    }
  }

  lemma SwapIsLocal(s: State, s': State, g: Graph, op: SwapOp)
    requires Inv(s) && Swaps(s, s', g, op)
    ensures Local(s, s', g)
  {
    About(s, g);
    forall id: Id ensures KeepsId(s, s', g, id) {
      assert IdInv(s, id);
    }
    forall tok: Token ensures KeepsEntry(s, s', g, tok) {
      assert TokenInv(s, tok);
    }
    forall o: Obj ensures KeepsObj(s, s', g, o) {
    }
  }

  lemma SwapKeepsOwn(s: State, s': State, g: Graph, op: SwapOp)
    requires Swaps(s, s', g, op) && !s.fatal && Facts(s, g)
    ensures !s'.fatal && GraphInv(s', g)
  {
  }

  lemma SwapKeepsEntries(s: State, s': State, g: Graph, op: SwapOp)
    requires Inv(s) && Swaps(s, s', g, op)
    ensures EntriesInv(s', g)
  {
    About(s, g);
    forall id: Id ensures id in s'.inUse && s'.inUse[id] == g ==> IdInv(s', id) {
      assert IdInv(s, id);
    }
    forall tok: Token ensures tok in s'.entries && OwnsObj(s', g, s'.entries[tok].c.o) ==> TokenInv(s', tok) {
      assert TokenInv(s, tok);
    }
    forall o: Obj ensures OwnsObj(s', g, o) ==> ObjInv(s', o) {
      assert ObjInv(s, o);
    }
  }

  lemma LookupIsLocal(s: State, s': State, g: Graph, op: LookupOp)
    requires Inv(s) && LooksUp(s, s', g, op)
    ensures Local(s, s', g)
  {
    About(s, g);
    AboutLookup(s, g);
    forall id: Id ensures KeepsId(s, s', g, id) {
      assert IdInv(s, id);
    }
    forall tok: Token ensures KeepsEntry(s, s', g, tok) {
      assert TokenInv(s, tok);
    }
    forall o: Obj ensures KeepsObj(s, s', g, o) {
    }
  }

  lemma LookupKeepsOwn(s: State, s': State, g: Graph, op: LookupOp)
    requires LooksUp(s, s', g, op) && !s.fatal && Facts(s, g) && LookupFacts(s, g)
    ensures !s'.fatal && GraphInv(s', g)
  {
  }

  lemma LookupKeepsEntries(s: State, s': State, g: Graph, op: LookupOp)
    requires Inv(s) && LooksUp(s, s', g, op)
    ensures EntriesInv(s', g)
  {
    About(s, g);
    AboutLookup(s, g);
    forall id: Id ensures id in s'.inUse && s'.inUse[id] == g ==> IdInv(s', id) {
      assert IdInv(s, id);
    }
    forall tok: Token ensures tok in s'.entries && OwnsObj(s', g, s'.entries[tok].c.o) ==> TokenInv(s', tok) {
      assert TokenInv(s, tok);
    }
    forall o: Obj ensures OwnsObj(s', g, o) ==> ObjInv(s', o) {
      assert ObjInv(s, o);
    }
  }

  lemma UpdateIsLocal(s: State, s': State, g: Graph, op: UpdateOp)
    requires Inv(s) && Updates(s, s', g, op)
    ensures Local(s, s', g)
  {
    About(s, g);
    AboutLookup(s, g);
    forall id: Id ensures KeepsId(s, s', g, id) {
      assert IdInv(s, id);
    }
    forall tok: Token ensures KeepsEntry(s, s', g, tok) {
      assert TokenInv(s, tok);
    }
    forall o: Obj ensures KeepsObj(s, s', g, o) {
    }
  }

  lemma UpdateKeepsOwn(s: State, s': State, g: Graph, op: UpdateOp)
    requires Updates(s, s', g, op) && !s.fatal && Facts(s, g) && LookupFacts(s, g)
    ensures !s'.fatal && GraphInv(s', g)
  {
  }

  lemma UpdateKeepsObjs(s: State, s': State, g: Graph, op: UpdateOp)
    requires Inv(s) && Updates(s, s', g, op)
    ensures forall o: Obj :: OwnsObj(s', g, o) ==> ObjInv(s', o)
  {
    About(s, g);
    AboutLookup(s, g);
    forall o: Obj ensures OwnsObj(s', g, o) ==> ObjInv(s', o) {
      assert ObjInv(s, o);
    }
  }

  lemma UpdateKeepsEntries(s: State, s': State, g: Graph, op: UpdateOp)
    requires Inv(s) && Updates(s, s', g, op)
    ensures EntriesInv(s', g)
  {
    About(s, g);
    AboutLookup(s, g);
    forall id: Id ensures id in s'.inUse && s'.inUse[id] == g ==> IdInv(s', id) {
      assert IdInv(s, id);
    }
    forall tok: Token ensures tok in s'.entries && OwnsObj(s', g, s'.entries[tok].c.o) ==> TokenInv(s', tok) {
      assert TokenInv(s, tok);
    }
    UpdateKeepsObjs(s, s', g, op);
  }

  lemma CloseIsLocal(s: State, s': State, g: Graph, op: CloseOp)
    requires Inv(s) && Closes(s, s', g, op)
    ensures Local(s, s', g)
  {
    About(s, g);
    forall id: Id ensures KeepsId(s, s', g, id) {
      assert IdInv(s, id);
    }
    forall tok: Token ensures KeepsEntry(s, s', g, tok) {
      assert TokenInv(s, tok);
    }
    forall o: Obj ensures KeepsObj(s, s', g, o) {
    }
  }

  lemma CloseKeepsOwn(s: State, s': State, g: Graph, op: CloseOp)
    requires Closes(s, s', g, op) && !s.fatal && Facts(s, g)
    ensures !s'.fatal && GraphInv(s', g)
  {
  }

  lemma CloseKeepsEntries(s: State, s': State, g: Graph, op: CloseOp)
    requires Inv(s) && Closes(s, s', g, op)
    ensures EntriesInv(s', g)
  {
    About(s, g);
    forall id: Id ensures id in s'.inUse && s'.inUse[id] == g ==> IdInv(s', id) {
      assert IdInv(s, id);
    }
    forall tok: Token ensures tok in s'.entries && OwnsObj(s', g, s'.entries[tok].c.o) ==> TokenInv(s', tok) {
      assert TokenInv(s, tok);
    }
    forall o: Obj ensures OwnsObj(s', g, o) ==> ObjInv(s', o) {
      assert ObjInv(s, o);
    }
  }

  lemma DestroyIsLocal(s: State, s': State, g: Graph, op: DestroyOp)
    requires Inv(s) && Destroys(s, s', g, op)
    ensures Local(s, s', g)
  {
    About(s, g);
    forall id: Id ensures KeepsId(s, s', g, id) {
      assert IdInv(s, id);
    }
    forall tok: Token ensures KeepsEntry(s, s', g, tok) {
      assert TokenInv(s, tok);
    }
    forall o: Obj ensures KeepsObj(s, s', g, o) {
    }
  }

  lemma DestroyKeepsOwn(s: State, s': State, g: Graph, op: DestroyOp)
    requires Destroys(s, s', g, op) && !s.fatal && Facts(s, g)
    ensures !s'.fatal && GraphInv(s', g)
  {
  }

  lemma DestroyKeepsEntries(s: State, s': State, g: Graph, op: DestroyOp)
    requires Inv(s) && Destroys(s, s', g, op)
    ensures EntriesInv(s', g)
  {
    About(s, g);
    forall id: Id ensures id in s'.inUse && s'.inUse[id] == g ==> IdInv(s', id) {
      assert IdInv(s, id);
    }
    forall tok: Token ensures tok in s'.entries && OwnsObj(s', g, s'.entries[tok].c.o) ==> TokenInv(s', tok) {
      assert TokenInv(s, tok);
    }
    forall o: Obj ensures OwnsObj(s', g, o) ==> ObjInv(s', o) {
      assert ObjInv(s, o);
    }
  }

  lemma StepIsLocal(s: State, s': State, g: Graph, op: Op)
    requires Inv(s) && Does(s, s', g, op)
    ensures Local(s, s', g)
  {
    match op
    case Construct(c) => ConstructIsLocal(s, s', g, c);
    case Unwind(w) => UnwindIsLocal(s, s', g, w);
    case Replace(r) => ReplaceIsLocal(s, s', g, r);
    case Withdraw(y) => WithdrawIsLocal(s, s', g, y);
    case Swap(x) => SwapIsLocal(s, s', g, x);
    case Lookup(l) => LookupIsLocal(s, s', g, l);
    case Update(u) => UpdateIsLocal(s, s', g, u);
    case Close(k) => CloseIsLocal(s, s', g, k);
    case Destroy(d) => DestroyIsLocal(s, s', g, d);
  }

  lemma NextKeepsInv()
    ensures forall s, s' :: Inv(s) && Next(s, s') ==> Inv(s')
  {
    forall s, s' | Inv(s) && Next(s, s') ensures Inv(s') {
      var g, op :| Does(s, s', g, op);
      StepIsLocal(s, s', g, op);
      if g in s.graphs {
        About(s, g);
        AboutLookup(s, g);
      }
      match op {
        case Construct(c) =>
          ConstructKeepsOwn(s, s', g, c);
          ConstructKeepsEntries(s, s', g, c);
        case Unwind(w) =>
          UnwindKeepsOwn(s, s', g, w);
          UnwindKeepsEntries(s, s', g, w);
        case Replace(r) =>
          ReplaceKeepsOwn(s, s', g, r);
          ReplaceKeepsEntries(s, s', g, r);
        case Withdraw(y) =>
          WithdrawKeepsOwn(s, s', g, y);
          WithdrawKeepsEntries(s, s', g, y);
        case Swap(x) =>
          SwapKeepsOwn(s, s', g, x);
          SwapKeepsEntries(s, s', g, x);
        case Lookup(l) =>
          LookupKeepsOwn(s, s', g, l);
          LookupKeepsEntries(s, s', g, l);
        case Update(u) =>
          UpdateKeepsOwn(s, s', g, u);
          UpdateKeepsEntries(s, s', g, u);
        case Close(k) =>
          CloseKeepsOwn(s, s', g, k);
          CloseKeepsEntries(s, s', g, k);
        case Destroy(d) =>
          DestroyKeepsOwn(s, s', g, d);
          DestroyKeepsEntries(s, s', g, d);
      }
      LocalKeepsInv(s, s', g);
    }
  }
}
