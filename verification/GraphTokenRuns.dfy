/**
 What the token protocol promises in every run, and runs that exist from every
 reachable state.
 */
module GraphTokenRuns {
  import opened Runs
  import opened GraphTokens
  import opened GraphTokenSteps

  lemma RunInv(trace: seq<State>)
    requires IsRun(Init, Next, trace)
    ensures forall n: nat :: n < |trace| ==> Inv(trace[n])
  {
    NextKeepsInv();
    Invariant(Init, Next, Inv, trace);
  }

  // ------------------------------------------------------------- theorems

  /** No callback ever meets an unknown graph or token. */
  lemma TokensAreNeverUnknown(trace: seq<State>, n: nat)
    requires IsRun(Init, Next, trace) && n < |trace|
    ensures !trace[n].fatal
  {
    RunInv(trace);
  }

  /** Drop runs at most once on each logical state, and on the value last written to it. */
  lemma DroppedAtMostOnce(trace: seq<State>, n: nat, o: Obj)
    requires IsRun(Init, Next, trace) && n < |trace| && o in trace[n].objs
    ensures trace[n].objs[o].drops in {[], [trace[n].objs[o].latest]}
  {
    RunInv(trace);
    assert ObjInv(trace[n], o);
  }

  /** Once a graph is destroyed and no operation of it runs, or its construction
      has failed, every state ever cloned for it, installed, discarded or
      rejected, has been dropped exactly once. */
  lemma DroppedExactlyOnce(trace: seq<State>, n: nat, g: Graph, o: Obj)
    requires IsRun(Init, Next, trace) && n < |trace| && g in trace[n].graphs && Over(trace[n].graphs[g])
    requires OwnsObj(trace[n], g, o)
    ensures trace[n].objs[o].drops == [trace[n].objs[o].latest]
  {
    var s := trace[n];
    RunInv(trace);
    assert ObjInv(s, o) && GraphInv(s, g);
    assert s.objs[o].loc.In? ==> TokenInv(s, s.objs[o].loc.tok);
  }

  /** Between operations a living graph has exactly one live state: the one in
      its native object, under the token its wrapper believes in, with the last
      value written. Every other state made for it has been dropped exactly once. */
  lemma OneLiveState(trace: seq<State>, n: nat, g: Graph, o: Obj)
    requires IsRun(Init, Next, trace) && n < |trace| && At(trace[n], g, Idle) && trace[n].graphs[g].cell.Holds?
    requires OwnsObj(trace[n], g, o)
    ensures var s, r := trace[n], trace[n].graphs[g];
            && Readable(s, r.id, r.stateId) && r.cell == Holds(r.stateId)
            && if s.entries[r.stateId].c.o == o
               then s.objs[o].drops == [] && s.entries[r.stateId].c.v == s.objs[o].latest
               else s.objs[o].drops == [s.objs[o].latest]
  {
    var s := trace[n];
    RunInv(trace);
    About(s, g);
    assert ObjInv(s, o);
    if s.objs[o].loc.In? {
      assert TokenInv(s, s.objs[o].loc.tok);
    }
  }

  // ------------------------------------------------- destruction under an operation

  /** Graph g began an operation with step j and is still in it after step n. */
  ghost predicate During(trace: seq<State>, j: nat, n: nat, g: Graph) {
    && j < n < |trace| && LooksUp(trace[j], trace[j + 1], g, Begin)
    && forall k :: j < k <= n ==> g in trace[k].graphs && InOp(trace[k].graphs[g].pc)
  }

  /** Step k is the state-drop callback of g's destruction. */
  ghost predicate DropCalledAt(trace: seq<State>, k: nat, g: Graph) {
    k + 1 < |trace| && Destroys(trace[k], trace[k + 1], g, DestroyCallsDrop)
  }

  lemma NextAges(s: State, s': State, g: Graph)
    requires Inv(s) && Next(s, s')
    ensures Doomed(s', g) <==> Doomed(s, g) || Destroys(s, s', g, DestroyCallsDrop)
  {
    if Destroys(s, s', g, DestroyCallsDrop) {
      About(s, g);
    } else {
      var u, op :| Does(s, s', u, op);
      StepIsLocal(s, s', u, op);
      assert KeepsGraph(s, s', u, g);
    }
  }

  lemma AgesAlong(trace: seq<State>, k: nat, g: Graph)
    requires IsRun(Init, Next, trace) && k + 1 < |trace|
    ensures Doomed(trace[k + 1], g) <==> Doomed(trace[k], g) || DropCalledAt(trace, k, g)
  {
    RunInv(trace);
    assert StepAt(Next, trace, k);
    NextAges(trace[k], trace[k + 1], g);
  }

  lemma CalledBack(trace: seq<State>, j: nat, n: nat, g: Graph)
    requires j <= n < |trace| && !Doomed(trace[j], g)
    requires forall k: nat :: j <= k < n ==>
               (Doomed(trace[k + 1], g) <==> Doomed(trace[k], g) || DropCalledAt(trace, k, g))
    ensures Doomed(trace[n], g) <==> exists k: nat :: j <= k < n && DropCalledAt(trace, k, g)
  {
    var event := (k: nat) => DropCalledAt(trace, k, g);
    RaisedBy((k: nat) => k < |trace| && Doomed(trace[k], g), event, j, n);
    assert forall k: nat :: event(k) <==> DropCalledAt(trace, k, g);
  }

  lemma DoomedIffCalledBack(trace: seq<State>, j: nat, n: nat, g: Graph)
    requires IsRun(Init, Next, trace) && j <= n < |trace| && !Doomed(trace[j], g)
    ensures Doomed(trace[n], g) <==> exists k: nat :: j <= k < n && DropCalledAt(trace, k, g)
  {
    forall k: nat | j <= k < n
      ensures Doomed(trace[k + 1], g) <==> Doomed(trace[k], g) || DropCalledAt(trace, k, g)
    {
      AgesAlong(trace, k, g);
    }
    CalledBack(trace, j, n, g);
  }

  /** Graph g is at a lookup: State or UpdateState about to read, or UpdateState about to write back. */
  predicate AtLookup(s: State, g: Graph) {
    g in s.graphs && (s.graphs[g].pc.Busy? || s.graphs[g].pc.Updating?)
  }

  /** The lookup finds the token stale. */
  predicate Stale(s: State, g: Graph)
    requires g in s.graphs
  {
    !Readable(s, s.graphs[g].id, Sought(s.graphs[g]))
  }

  lemma StaleIffDoomed(s: State, g: Graph)
    requires Inv(s) && AtLookup(s, g)
    ensures Stale(s, g) <==> Doomed(s, g)
  {
    About(s, g);
    if !Stale(s, g) {
      LookupIsOwn(s, g, Sought(s.graphs[g]));
    }
  }

  /** An operation finds its token stale, when it reads or when it writes back,
      exactly if the state-drop callback of its graph's destruction came before
      the lookup, whether the operation had begun by then or not. */
  lemma StaleIffStateDropped(trace: seq<State>, n: nat, g: Graph)
    requires IsRun(Init, Next, trace) && n < |trace| && AtLookup(trace[n], g)
    ensures Stale(trace[n], g) <==> exists k: nat :: k < n && DropCalledAt(trace, k, g)
  {
    RunInv(trace);
    StaleIffDoomed(trace[n], g);
    DoomedIffCalledBack(trace, 0, n, g);
  }

  /** Seen from its beginning: an operation finds its token stale exactly if it
      began between the two callbacks of its graph's destruction, that is from
      the Drop callback, or if the state was dropped since it began. */
  lemma StaleIffBegunDyingOrDroppedMeanwhile(trace: seq<State>, j: nat, n: nat, g: Graph)
    requires IsRun(Init, Next, trace) && During(trace, j, n, g) && AtLookup(trace[n], g)
    ensures var cell := trace[j].graphs[g].cell;
            Stale(trace[n], g) <==>
              cell.Dying? || cell.Emptied? || exists k: nat :: j < k < n && DropCalledAt(trace, k, g)
  {
    RunInv(trace);
    StaleIffDoomed(trace[n], g);
    About(trace[j], g);
    AgesAlong(trace, j, g);
    if Doomed(trace[j], g) {
      StaysDoomed(trace, j, n, g);
    } else {
      DoomedIffCalledBack(trace, j + 1, n, g);
    }
  }

  lemma {:induction false} StaysDoomed(trace: seq<State>, j: nat, n: nat, g: Graph)
    requires IsRun(Init, Next, trace) && j <= n < |trace| && Doomed(trace[j], g)
    ensures Doomed(trace[n], g)
  {
    if j < n {
      StaysDoomed(trace, j, n - 1, g);
      AgesAlong(trace, n - 1, g);
    }
  }

  /** UpdateState of a living graph writes into the state it read: the value is
      still the one it read, the same logical state gets the new value, and
      nothing is dropped. If the graph's destruction has begun no entry changes,
      and the clone that was to be written is the operation's to drop. */
  lemma UpdateIsInPlace(trace: seq<State>, n: nat, g: Graph, c: Managed)
    requires IsRun(Init, Next, trace) && n + 1 < |trace|
    requires Updates(trace[n], trace[n + 1], g, WriteBack(c))
    ensures var s, s', r := trace[n], trace[n + 1], trace[n].graphs[g];
            var tok := r.pc.tok;
            if Doomed(s, g) then
              && s'.entries == s.entries && At(s', g, Rejected(c))
              && s'.objs == s.objs[c.o := History(g, With(g), c.v, [])]
            else
              && tok in s.entries && s.entries[tok].c.v == r.pc.v
              && s'.entries == s.entries[tok := s.entries[tok].(c := Managed(s.entries[tok].c.o, c.v))]
              && (forall o :: o in s.objs ==> o in s'.objs && s'.objs[o].drops == s.objs[o].drops)
              && s.entries[tok].c.o in s'.objs && s'.objs[s.entries[tok].c.o].latest == c.v
  {
    var s, r := trace[n], trace[n].graphs[g];
    RunInv(trace);
    About(s, g);
    if Readable(s, r.id, r.pc.tok) {
      LookupIsOwn(s, g, r.pc.tok);
    }
  }

  // ------------------------------------------------------ runs that exist

  lemma ByReplace(s: State, s': State, g: Graph, op: ReplaceOp)
    requires Replaces(s, s', g, op)
    ensures Next(s, s')
  {
    assert Does(s, s', g, Replace(op));
  }

  lemma ByWithdraw(s: State, s': State, g: Graph, op: WithdrawOp)
    requires Withdraws(s, s', g, op)
    ensures Next(s, s')
  {
    assert Does(s, s', g, Withdraw(op));
  }

  lemma BySwap(s: State, s': State, g: Graph, op: SwapOp)
    requires Swaps(s, s', g, op)
    ensures Next(s, s')
  {
    assert Does(s, s', g, Swap(op));
  }

  lemma ByLookup(s: State, s': State, g: Graph, op: LookupOp)
    requires LooksUp(s, s', g, op)
    ensures Next(s, s')
  {
    assert Does(s, s', g, Lookup(op));
  }

  lemma ByDestroy(s: State, s': State, g: Graph, op: DestroyOp)
    requires Destroys(s, s', g, op)
    ensures Next(s, s')
  {
    assert Does(s, s', g, Destroy(op));
  }

  /** A graph whose operations begin. */
  predicate Beginnable(s: State, g: Graph) {
    At(s, g, Idle) && !s.graphs[g].closed && !s.graphs[g].rootClosed && !s.graphs[g].cell.Destroyed?
  }

  predicate Open(s: State, g: Graph) {
    Beginnable(s, g) && s.graphs[g].cell.Holds?
  }

  /** State last has been dropped, for the first time. */
  function DroppedNow(objs: map<Obj, History>, last: Managed): map<Obj, History> {
    if last.o in objs then objs[last.o := objs[last.o].(loc := Gone, drops := [last.v])] else objs
  }

  function Offered(s: State, g: Graph, c: Managed, tok: Token): State
    requires g in s.graphs
  {
    s.(graphs := s.graphs[g := s.graphs[g].(pc := Fresh(tok))],
       entries := s.entries[tok := Entry(s.graphs[g].id, c)],
       objs := s.objs[c.o := History(g, In(tok), c.v, [])])
  }

  /** A replacement on its way: begun, cloned and registered under a fresh token. */
  lemma Offer(s: State, g: Graph, c: Managed, tok: Token)
    requires Beginnable(s, g) && c.o !in s.objs && FreeToken(s, tok)
    ensures Leads(Next, s, Offered(s, g, c, tok))
  {
    var s1 := Goto(s, g, Busy);
    ByLookup(s, s1, g, Begin);
    var s2 := Goto(Make(s1, g, c), g, Owned(c));
    ByReplace(s1, s2, g, CloneNew(c));
    var s3 := Goto(Store(s2, tok, s.graphs[g].id, c), g, Fresh(tok));
    ByReplace(s2, s3, g, RegisterNew(tok));
    assert s3 == Offered(s, g, c, tok);
    Along(Next, [s, s1, s2, s3]);
  }

  /** The native object of g holds prior, under which last is registered and not yet dropped. */
  predicate HoldsState(s: State, g: Graph, prior: Token, last: Managed) {
    && g in s.graphs && s.graphs[g].cell == Holds(prior) && Known(s, s.graphs[g].id, prior)
    && s.entries[prior].c == last && last.o in s.objs && s.objs[last.o].drops == []
  }

  function SwappedIn(s: State, g: Graph, prior: Token): State
    requires g in s.graphs && s.graphs[g].pc.Fresh? && prior in s.entries
  {
    var r := s.graphs[g];
    Put(Unstore(s, prior, With(g)), g, r.(pc := DroppingOld(s.entries[prior].c, r.pc.tok), cell := Holds(r.pc.tok)))
  }

  /** The native swap and the callback for the prior token. */
  lemma SwapTokens(s: State, g: Graph, prior: Token, last: Managed)
    requires HoldsState(s, g, prior, last) && s.graphs[g].pc.Fresh?
    ensures Leads(Next, s, SwappedIn(s, g, prior))
  {
    var r := s.graphs[g];
    var s1 := Put(s, g, r.(pc := Replaced(prior, r.pc.tok), cell := Holds(r.pc.tok)));
    BySwap(s, s1, g, ReplaceSwaps);
    var s2 := Goto(Unstore(s1, prior, With(g)), g, DroppingOld(last, r.pc.tok));
    BySwap(s1, s2, g, ReplaceCallback);
    assert s2 == SwappedIn(s, g, prior);
    Along(Next, [s, s1, s2]);
  }

  function Replacing(s: State, g: Graph, prior: Token, last: Managed): State
    requires g in s.graphs && s.graphs[g].pc.Fresh?
  {
    var r := s.graphs[g];
    s.(graphs := s.graphs[g := r.(pc := Installed(r.pc.tok), cell := Holds(r.pc.tok))],
       entries := s.entries - {prior}, objs := DroppedNow(s.objs, last))
  }

  /** The native replace from start to end: the prior state is dropped. */
  lemma SwapAndDrop(s: State, g: Graph, prior: Token, last: Managed)
    requires HoldsState(s, g, prior, last) && s.graphs[g].pc.Fresh?
    ensures Leads(Next, s, Replacing(s, g, prior, last))
  {
    SwapTokens(s, g, prior, last);
    var s1 := SwappedIn(s, g, prior);
    var s2 := Goto(Drop(s1, last), g, Installed(s.graphs[g].pc.tok));
    BySwap(s1, s2, g, DropReplaced);
    assert s2.objs[last.o].drops == [last.v];
    assert s2 == Replacing(s, g, prior, last);
    Along(Next, [s1, s2]);
    Through(Next, s, s1, s2);
  }

  lemma Settle(s: State, g: Graph)
    requires g in s.graphs && s.graphs[g].pc.Installed? && s.graphs[g].cell.Holds?
    ensures Leads(Next, s, Put(s, g, s.graphs[g].(pc := Idle, stateId := s.graphs[g].pc.tok)))
  {
    var s1 := Put(s, g, s.graphs[g].(pc := Busy, stateId := s.graphs[g].pc.tok));
    BySwap(s, s1, g, Publish);
    var s2 := Goto(s1, g, Idle);
    ByLookup(s1, s2, g, End);
    assert s2 == Put(s, g, s.graphs[g].(pc := Idle, stateId := s.graphs[g].pc.tok));
    Along(Next, [s, s1, s2]);
  }

  /** ReplaceState from any reachable idle graph, with every native call
      succeeding: the new state is installed under its token, the old one is
      dropped once with its last value, and nothing else changes. */
  lemma ReplaceInstalls(s: State, g: Graph, c: Managed, tok: Token)
    requires Inv(s) && Open(s, g) && c.o !in s.objs && FreeToken(s, tok)
    ensures var r := s.graphs[g];
            && Readable(s, r.id, r.stateId)
            && var last := s.entries[r.stateId].c;
            && exists s' ::
                 && Leads(Next, s, s')
                 && s' == s.(graphs := s.graphs[g := r.(stateId := tok, cell := Holds(tok))],
                             entries := s.entries[tok := Entry(r.id, c)] - {r.stateId},
                             objs := s.objs[c.o := History(g, In(tok), c.v, [])]
                                           [last.o := History(g, Gone, last.v, [last.v])])
  {
    About(s, g);
    var prior := s.graphs[g].stateId;
    var last := s.entries[prior].c;
    Offer(s, g, c, tok);
    var s1 := Offered(s, g, c, tok);
    SwapAndDrop(s1, g, prior, last);
    var s2 := Replacing(s1, g, prior, last);
    Through(Next, s, s1, s2);
    Settle(s2, g);
    Through(Next, s, s2, Put(s2, g, s2.graphs[g].(pc := Idle, stateId := tok)));
  }

  function TakenBack(s: State, g: Graph, c: Managed): State
    requires g in s.graphs && s.graphs[g].pc.Fresh?
  {
    var r := s.graphs[g];
    s.(graphs := s.graphs[g := r.(pc := Busy)], entries := s.entries - {r.pc.tok}, objs := DroppedNow(s.objs, c))
  }

  lemma TakeBack(s: State, g: Graph, c: Managed)
    requires g in s.graphs && s.graphs[g].pc.Fresh? && s.graphs[g].pc.tok in s.entries
    requires s.entries[s.graphs[g].pc.tok].c == c && c.o in s.objs && s.objs[c.o].drops == []
    ensures Leads(Next, s, TakenBack(s, g, c))
  {
    var s1 := Goto(Unstore(s, s.graphs[g].pc.tok, With(g)), g, DiscardingNew(c));
    ByWithdraw(s, s1, g, ReplaceFails);
    var s2 := Goto(Drop(s1, c), g, Busy);
    ByWithdraw(s1, s2, g, DropNew);
    assert s2.objs[c.o].drops == [c.v];
    assert s2 == TakenBack(s, g, c);
    Along(Next, [s, s1, s2]);
  }

  /** ReplaceState whose native call fails, called from the Drop callback of the
      graph's own destruction or not: the clone is dropped once and graph and
      token stay as they were. */
  lemma FailedReplaceChangesNothing(s: State, g: Graph, c: Managed, tok: Token)
    requires Beginnable(s, g) && c.o !in s.objs && FreeToken(s, tok)
    ensures Leads(Next, s, s.(objs := s.objs[c.o := History(g, Gone, c.v, [c.v])]))
  {
    Offer(s, g, c, tok);
    var s1 := Offered(s, g, c, tok);
    TakeBack(s1, g, c);
    var s2 := TakenBack(s1, g, c);
    Through(Next, s, s1, s2);
    var s3 := Goto(s2, g, Idle);
    ByLookup(s2, s3, g, End);
    Along(Next, [s2, s3]);
    Through(Next, s, s2, s3);
    assert s3.entries == s.entries && s3.graphs == s.graphs;
    assert s3 == s.(objs := s.objs[c.o := History(g, Gone, c.v, [c.v])]);
  }

  function Emptying(s: State, g: Graph, tok: Token, last: Managed): State
    requires g in s.graphs
  {
    s.(graphs := s.graphs[g := s.graphs[g].(cell := Emptied)], entries := s.entries - {tok},
       objs := DroppedNow(s.objs, last))
  }

  /** The native object drops its state before it is destroyed. */
  lemma DropState(s: State, g: Graph, tok: Token, last: Managed)
    requires HoldsState(s, g, tok, last) && Interruptible(s.graphs[g].pc)
    ensures Leads(Next, s, Emptying(s, g, tok, last))
  {
    var r := s.graphs[g];
    var s1 := Put(Unstore(s, tok, Fading(g)), g, r.(cell := Dying(last)));
    ByDestroy(s, s1, g, DestroyCallsDrop);
    var s2 := Put(Drop(s1, last), g, r.(cell := Emptied));
    ByDestroy(s1, s2, g, DropLast);
    assert s2.objs[last.o].drops == [last.v];
    assert s2 == Emptying(s, g, tok, last);
    Along(Next, [s, s1, s2]);
  }

  function TornDown(s: State, g: Graph, tok: Token, last: Managed): State
    requires g in s.graphs
  {
    var r := s.graphs[g];
    s.(graphs := s.graphs[g := r.(rootClosed := true, cell := Destroyed, stateId := 0)],
       registry := s.registry - {r.id}, entries := s.entries - {tok}, objs := DroppedNow(s.objs, last))
  }

  /** Isolate teardown under a running operation of a graph: its state is
      dropped, it is destroyed and then its root is closed. */
  lemma TearDown(s: State, g: Graph, tok: Token, last: Managed)
    requires HoldsState(s, g, tok, last) && Interruptible(s.graphs[g].pc) && InOp(s.graphs[g].pc)
    ensures Leads(Next, s, TornDown(s, g, tok, last))
  {
    var r := s.graphs[g];
    DropState(s, g, tok, last);
    var s1 := Emptying(s, g, tok, last);
    var s2 := Put(s1, g, r.(cell := Destroyed, stateId := 0)).(registry := s.registry - {r.id});
    ByDestroy(s1, s2, g, DestroyCallback);
    var s3 := Put(s2, g, r.(rootClosed := true, cell := Destroyed, stateId := 0));
    assert Closes(s2, s3, g, TearDownRoot) && Does(s2, s3, g, Close(TearDownRoot));
    Along(Next, [s1, s2, s3]);
    Through(Next, s, s1, s3);
    assert s3 == TornDown(s, g, tok, last);
  }

  function Refused(s: State, g: Graph, c: Managed): State
    requires g in s.graphs
  {
    s.(graphs := s.graphs[g := s.graphs[g].(pc := Idle)], inUse := s.inUse - {s.graphs[g].id},
       objs := s.objs[c.o := History(g, Gone, c.v, [c.v])])
  }

  /** The write-back of an operation that outlived its graph, up to its return. */
  lemma Refuse(s: State, g: Graph, c: Managed)
    requires g in s.graphs && s.graphs[g].pc.Updating? && s.graphs[g].cell.Destroyed? && c.o !in s.objs
    requires !Readable(s, s.graphs[g].id, s.graphs[g].pc.tok)
    ensures Leads(Next, s, Refused(s, g, c))
  {
    var s1 := Goto(Make(s, g, c), g, Rejected(c));
    assert Updates(s, s1, g, WriteBack(c)) && Does(s, s1, g, Update(WriteBack(c)));
    var s2 := Goto(Drop(s1, c), g, Busy);
    assert Updates(s1, s2, g, DropRejected) && Does(s1, s2, g, Update(DropRejected));
    assert s2.objs[c.o].drops == [c.v];
    var s3 := Goto(s2, g, Idle).(inUse := s.inUse - {s.graphs[g].id});
    ByLookup(s2, s3, g, End);
    assert s3 == Refused(s, g, c);
    Along(Next, [s, s1, s2, s3]);
  }

  /** UpdateState whose callback closes the isolate, from any reachable idle
      graph: the token is stale when the value is written back, the graph's state
      and the refused clone c are dropped once each, and the graph is gone. */
  lemma UpdateOutlivesGraph(s: State, g: Graph, c: Managed)
    requires Inv(s) && Open(s, g) && c.o !in s.objs
    ensures var r := s.graphs[g];
            && Readable(s, r.id, r.stateId)
            && var last := s.entries[r.stateId].c;
            && exists s' ::
                 && Leads(Next, s, s')
                 && s' == s.(graphs := s.graphs[g := r.(rootClosed := true, cell := Destroyed, stateId := 0)],
                             registry := s.registry - {r.id}, inUse := s.inUse - {r.id},
                             entries := s.entries - {r.stateId},
                             objs := s.objs[last.o := History(g, Gone, last.v, [last.v])]
                                           [c.o := History(g, Gone, c.v, [c.v])])
  {
    About(s, g);
    var tok := s.graphs[g].stateId;
    var last := s.entries[tok].c;
    var s1 := Goto(s, g, Busy);
    ByLookup(s, s1, g, Begin);
    var s2 := Goto(s1, g, Updating(tok, last.v));
    ByLookup(s1, s2, g, Read);
    Along(Next, [s, s1, s2]);
    TearDown(s2, g, tok, last);
    var s3 := TornDown(s2, g, tok, last);
    Through(Next, s, s2, s3);
    Refuse(s3, g, c);
    Through(Next, s, s3, Refused(s3, g, c));
  }

  function Removed(s: State, g: Graph): State
    requires g in s.graphs
  {
    var r := s.graphs[g];
    s.(graphs := s.graphs[g := r.(rootClosed := true, cell := Destroyed, stateId := 0)],
       registry := s.registry - {r.id}, inUse := s.inUse - {r.id})
  }

  /** The destroy callback of an idle graph, and the root that teardown closes afterwards. */
  lemma Remove(s: State, g: Graph)
    requires At(s, g, Idle) && s.graphs[g].cell.Emptied? && s.graphs[g].id in s.registry
    ensures Leads(Next, s, Removed(s, g))
  {
    var r := s.graphs[g];
    var s1 := Put(s, g, r.(cell := Destroyed, stateId := 0)).(
                registry := s.registry - {r.id}, inUse := s.inUse - {r.id});
    ByDestroy(s, s1, g, DestroyCallback);
    var s2 := Put(s1, g, r.(rootClosed := true, cell := Destroyed, stateId := 0));
    assert Closes(s1, s2, g, TearDownRoot) && Does(s1, s2, g, Close(TearDownRoot));
    assert s2 == Removed(s, g);
    Along(Next, [s, s1, s2]);
  }

  /** The end of a teardown, from the return of the Drop callback. */
  lemma FinishTearDown(s: State, g: Graph)
    requires At(s, g, Idle) && s.graphs[g].cell.Dying? && s.graphs[g].id in s.registry
    ensures Leads(Next, s, Removed(Drop(s, s.graphs[g].cell.c), g))
  {
    var r := s.graphs[g];
    var s1 := Put(Drop(s, r.cell.c), g, r.(cell := Emptied));
    ByDestroy(s, s1, g, DropLast);
    Along(Next, [s, s1]);
    Remove(s1, g);
    var s2 := Removed(s1, g);
    assert s2.graphs == Removed(Drop(s, r.cell.c), g).graphs;
    Through(Next, s, s1, s2);
  }

  /** Isolate.Close with an idle graph whose Drop callback calls State, from any
      reachable such graph: State begins, finds its token stale before the
      destroy callback, and returns; then the graph is destroyed. */
  lemma StateInsideDrop(s: State, g: Graph)
    requires Inv(s) && Open(s, g)
    ensures var r := s.graphs[g];
            && Readable(s, r.id, r.stateId)
            && var last := s.entries[r.stateId].c;
            && exists s1, s' ::
                 && Leads(Next, s, s1) && Leads(Next, s1, s')
                 && At(s1, g, Busy) && s1.graphs[g].cell == Dying(last) && !s1.graphs[g].rootClosed && Stale(s1, g)
                 && s' == s.(graphs := s.graphs[g := r.(rootClosed := true, cell := Destroyed, stateId := 0)],
                             registry := s.registry - {r.id}, inUse := s.inUse - {r.id},
                             entries := s.entries - {r.stateId},
                             objs := s.objs[last.o := History(g, Gone, last.v, [last.v])])
  {
    About(s, g);
    var r := s.graphs[g];
    var last := s.entries[r.stateId].c;
    var a := Put(Unstore(s, r.stateId, Fading(g)), g, r.(cell := Dying(last)));
    ByDestroy(s, a, g, DestroyCallsDrop);
    var s1 := Goto(a, g, Busy);
    ByLookup(a, s1, g, Begin);
    Along(Next, [s, a, s1]);
    ByLookup(s1, s1, g, Read);
    ByLookup(s1, a, g, End);
    Along(Next, [s1, s1, a]);
    FinishTearDown(a, g);
    var s' := Removed(Drop(a, last), g);
    Through(Next, s1, a, s');
    assert s'.objs[last.o].drops == [last.v];
  }

  // ------------------------------------------------------------------- Close

  lemma RootStaysClosed(s: State, s': State, g: Graph)
    requires Inv(s) && Next(s, s') && RootClosed(s, g)
    ensures RootClosed(s', g)
  {
    var u, op :| Does(s, s', u, op);
    StepIsLocal(s, s', u, op);
    assert KeepsGraph(s, s', u, g);
  }

  /** A Close that succeeded is final: no operation of the graph begins any more. */
  lemma CloseIsFinal(trace: seq<State>, k: nat, n: nat, g: Graph)
    requires IsRun(Init, Next, trace) && k < n < |trace| && Closes(trace[k], trace[k + 1], g, CloseRoot(true))
    ensures !Beginnable(trace[n], g)
    ensures n + 1 < |trace| ==> !LooksUp(trace[n], trace[n + 1], g, Begin)
  {
    RunInv(trace);
    NextKeepsInv();
    var inv := (s: State) => Inv(s) && RootClosed(s, g);
    forall s, s' | inv(s) && Next(s, s') ensures inv(s') {
      RootStaysClosed(s, s', g);
    }
    StableAlongPath(Next, inv, trace, k + 1, n);
  }

  /** Close of an idle graph that is not closed yet, in whatever state its
      object is: if the root closes, the graph refuses every operation and nothing
      else has changed; if it does not, the graph is as it was. */
  lemma CloseOutcome(s: State, g: Graph, ok: bool)
    requires At(s, g, Idle) && !s.graphs[g].closed
    ensures exists s' ::
              && Leads(Next, s, s')
              && if ok then
                   s' == s.(graphs := s.graphs[g := s.graphs[g].(closed := true, rootClosed := true)]) &&
                   !Beginnable(s', g)
                 else s' == s
  {
    var r := s.graphs[g];
    var s1 := Put(s, g, r.(pc := Closing, closed := true));
    assert Closes(s, s1, g, CloseClaim) && Does(s, s1, g, Close(CloseClaim));
    var s2 := Put(s1, g, r.(pc := Idle, closed := ok, rootClosed := r.rootClosed || ok));
    assert Closes(s1, s2, g, CloseRoot(ok)) && Does(s1, s2, g, Close(CloseRoot(ok)));
    Along(Next, [s, s1, s2]);
    assert !ok ==> s2.graphs == s.graphs;
  }

  // ------------------------------------------------------------ construction

  lemma ByConstruct(s: State, s': State, g: Graph, op: ConstructOp)
    requires Constructs(s, s', g, op)
    ensures Next(s, s')
  {
    assert Does(s, s', g, Construct(op));
  }

  lemma ByUnwind(s: State, s': State, g: Graph, op: UnwindOp)
    requires Unwinds(s, s', g, op)
    ensures Next(s, s')
  {
    assert Does(s, s', g, Unwind(op));
  }

  /** NewCppGCGenericGraph up to its native call: the clone of the initial state
      is registered under the new token for the new graph. */
  function Prepared(s: State, g: Graph, id: Id, tok: Token, c: Managed): State {
    s.(graphs := s.graphs[g := Rec(Stored(tok), id, tok, NoCell, false, false)],
       registry := s.registry[id := g], inUse := s.inUse[id := g],
       entries := s.entries[tok := Entry(id, c)],
       objs := s.objs[c.o := History(g, In(tok), c.v, [])])
  }

  function Claimed(s: State, g: Graph, id: Id, c: Managed): State {
    s.(graphs := s.graphs[g := Rec(Registered(c), id, 0, NoCell, false, false)],
       registry := s.registry[id := g], inUse := s.inUse[id := g],
       objs := s.objs[c.o := History(g, With(g), c.v, [])])
  }

  lemma Claim(s: State, g: Graph, id: Id, c: Managed)
    requires g !in s.graphs && FreeId(s, id) && c.o !in s.objs
    ensures Leads(Next, s, Claimed(s, g, id, c))
  {
    var s1 := Put(Make(s, g, c), g, Rec(Cloned(c), 0, 0, NoCell, false, false));
    ByConstruct(s, s1, g, CloneInitial(c));
    var s2 := Claimed(s, g, id, c);
    assert s2.graphs == s1.graphs[g := s2.graphs[g]];
    ByConstruct(s1, s2, g, RegisterGraph(id));
    Along(Next, [s, s1, s2]);
  }

  lemma Prepare(s: State, g: Graph, id: Id, tok: Token, c: Managed)
    requires g !in s.graphs && FreeId(s, id) && FreeToken(s, tok) && c.o !in s.objs
    ensures Leads(Next, s, Prepared(s, g, id, tok, c))
  {
    Claim(s, g, id, c);
    var s1 := Claimed(s, g, id, c);
    var s2 := Prepared(s, g, id, tok, c);
    assert s2 == Put(Store(s1, tok, id, c), g, s1.graphs[g].(pc := Stored(tok), stateId := tok)) by {
      assert s2.graphs == s1.graphs[g := s2.graphs[g]];
      assert s2.objs == s1.objs[c.o := s1.objs[c.o].(loc := In(tok))];
    }
    ByConstruct(s1, s2, g, RegisterState(tok));
    Along(Next, [s1, s2]);
    Through(Next, s, s1, s2);
  }

  /** A construction that succeeds, from every state with a free id and token:
      the graph is open, its native object holds the token, and under it the
      clone of the initial state is registered and readable. */
  lemma ConstructInstalls(s: State, g: Graph, id: Id, tok: Token, c: Managed)
    requires g !in s.graphs && FreeId(s, id) && FreeToken(s, tok) && c.o !in s.objs
    ensures exists s' ::
              && Leads(Next, s, s') && Open(s', g) && Readable(s', id, tok)
              && s' == s.(graphs := s.graphs[g := Rec(Idle, id, tok, Holds(tok), false, false)],
                          registry := s.registry[id := g], inUse := s.inUse[id := g],
                          entries := s.entries[tok := Entry(id, c)],
                          objs := s.objs[c.o := History(g, In(tok), c.v, [])])
  {
    Prepare(s, g, id, tok, c);
    var s1 := Prepared(s, g, id, tok, c);
    var s2 := Put(s1, g, s1.graphs[g].(pc := Idle, cell := Holds(tok)));
    ByConstruct(s1, s2, g, ConstructorTakes(true));
    Along(Next, [s1, s2]);
    Through(Next, s, s1, s2);
  }

  function Unwound(s: State, g: Graph, tok: Token, c: Managed): State
    requires g in s.graphs
  {
    s.(graphs := s.graphs[g := s.graphs[g].(pc := Finished)], registry := s.registry - {s.graphs[g].id},
       inUse := s.inUse - {s.graphs[g].id}, entries := s.entries - {tok}, objs := DroppedNow(s.objs, c))
  }

  /** The native constructor refuses: the entry is withdrawn, its state dropped, and the id given back. */
  lemma UnwindAll(s: State, g: Graph, tok: Token, c: Managed)
    requires At(s, g, Stored(tok)) && tok in s.entries && s.entries[tok].c == c && c.o in s.objs
    requires s.objs[c.o].drops == []
    ensures Leads(Next, s, Unwound(s, g, tok, c))
  {
    var s1 := Goto(Unstore(s, tok, With(g)), g, Discarding(c));
    ByUnwind(s, s1, g, ConstructorRefuses);
    var s2 := Goto(Drop(s1, c), g, Unregistering);
    ByUnwind(s1, s2, g, DropDiscarded);
    var s3 := Goto(Forget(s2, s.graphs[g].id), g, Finished);
    ByUnwind(s2, s3, g, Unregister);
    assert s3.objs[c.o].drops == [c.v];
    assert s3 == Unwound(s, g, tok, c);
    Along(Next, [s, s1, s2, s3]);
  }

  /** Unwinding undoes the preparation but for the record and the dropped clone. */
  lemma UnwoundPrepared(s: State, g: Graph, id: Id, tok: Token, c: Managed)
    requires g !in s.graphs && FreeId(s, id) && FreeToken(s, tok) && c.o !in s.objs
    ensures Unwound(Prepared(s, g, id, tok, c), g, tok, c) ==
            s.(graphs := s.graphs[g := Rec(Finished, id, tok, NoCell, false, false)],
               objs := s.objs[c.o := History(g, Gone, c.v, [c.v])])
  {
    var s2 := Unwound(Prepared(s, g, id, tok, c), g, tok, c);
    assert s2.entries == s.entries && s2.registry == s.registry && s2.inUse == s.inUse;
  }

  /** A construction that the native constructor refuses: the clone is dropped
      once, and id and token are free again. */
  lemma RefusedConstructionUnwinds(s: State, g: Graph, id: Id, tok: Token, c: Managed)
    requires g !in s.graphs && FreeId(s, id) && FreeToken(s, tok) && c.o !in s.objs
    ensures Leads(Next, s, s.(graphs := s.graphs[g := Rec(Finished, id, tok, NoCell, false, false)],
                              objs := s.objs[c.o := History(g, Gone, c.v, [c.v])]))
  {
    Prepare(s, g, id, tok, c);
    var s1 := Prepared(s, g, id, tok, c);
    UnwindAll(s1, g, tok, c);
    Through(Next, s, s1, Unwound(s1, g, tok, c));
    UnwoundPrepared(s, g, id, tok, c);
  }

  /** UpdateState whose callback succeeds, from every reachable open graph: the
      state keeps its token and identity and has the new value; nothing is
      dropped and nothing else changes. */
  lemma UpdateWrites(s: State, g: Graph, c: Managed)
    requires Inv(s) && Open(s, g) && c.o !in s.objs
    ensures var r := s.graphs[g];
            && Readable(s, r.id, r.stateId)
            && var e := s.entries[r.stateId];
            && e.c.o in s.objs
            && exists s' ::
                 && Leads(Next, s, s')
                 && s' == s.(entries := s.entries[r.stateId := e.(c := Managed(e.c.o, c.v))],
                             objs := s.objs[e.c.o := s.objs[e.c.o].(latest := c.v)])
  {
    About(s, g);
    var tok := s.graphs[g].stateId;
    var s1 := Goto(s, g, Busy);
    ByLookup(s, s1, g, Begin);
    var s2 := Goto(s1, g, Updating(tok, s.entries[tok].c.v));
    ByLookup(s1, s2, g, Read);
    var s3 := Goto(Written(s2, tok, c.v), g, Busy);
    assert Updates(s2, s3, g, WriteBack(c)) && Does(s2, s3, g, Update(WriteBack(c)));
    var s4 := Goto(s3, g, Idle);
    ByLookup(s3, s4, g, End);
    Along(Next, [s, s1, s2, s3, s4]);
    assert s4.graphs == s.graphs;
  }
}
