/**
 Lifetimes of CRDTP channels, dispatchers and messages (crdtp_dispatcher.go,
 crdtp.go). An actor is one activation of a Go operation, on any thread;
 reentrant activations are further actors, so every nesting is one of the
 interleavings here.
 */
module CrdtpLifetimes {
  import opened Runs

  type Actor = nat
  type ChannelId = nat
  type DispatcherId = nat
  type MessageId = nat

  datatype Pc =
    | Building(c: ChannelId)                                 // NewCRDTPUberDispatcher, channel mutex held
    | Counting(c: ChannelId, d: DispatcherId)                // native dispatcher exists, not counted yet
    | Wiring(d: DispatcherId)                                // WireDomain, dispatcher busy
    | Claimed(d: DispatcherId)                               // Dispatch, dispatcher busy
    | Dispatching(d: DispatcherId, m: MessageId)             // native dispatch running
    | Unclaiming(d: DispatcherId)                            // message given back, dispatcher still busy
    | Reading(m: MessageId)                                  // message accessor, message mutex held
    | DeletingDispatcher(d: DispatcherId)                    // native delete running
    | Uncounting(d: DispatcherId)                            // native delete returned
    | DeletingMessage(m: MessageId)
    | DeletingChannel(c: ChannelId)
    | Finished

  /** Of a native object: deletions counts the native delete calls begun,
      returned records that one has returned, gone that it reported success. */
  datatype Native = Native(deletions: nat, returned: bool, gone: bool)

  /** attached is the set of dispatchers counted in the registry entry's
      dispatchers field; user is the last actor that took the object. */
  datatype Channel = Channel(
    mu: bool, closed: bool, user: Actor, dispatchers: int, attached: set<DispatcherId>, native: Native)

  datatype Dispatcher = Dispatcher(channel: ChannelId, busy: bool, closed: bool, user: Actor, native: Native)

  datatype Message = Message(mu: bool, active: bool, closed: bool, user: Actor, native: Native)

  datatype State = State(
    actors: map<Actor, Pc>,
    channels: map<ChannelId, Channel>,
    dispatchers: map<DispatcherId, Dispatcher>,
    messages: map<MessageId, Message>)

  const ALIVE := Native(0, false, false)

  function Begun(n: Native): Native {
    n.(deletions := n.deletions + 1)
  }

  function Returned(n: Native, ok: bool): Native {
    n.(returned := true, gone := ok)
  }

  // ---------------------------------------------------------------- steps

  predicate Fresh(s: State, a: Actor) {
    a !in s.actors
  }

  predicate At(s: State, a: Actor, pc: Pc) {
    a in s.actors && s.actors[a] == pc
  }

  function Goto(s: State, a: Actor, pc: Pc): State {
    s.(actors := s.actors[a := pc])
  }

  function SetChannel(s: State, c: ChannelId, x: Channel): State {
    s.(channels := s.channels[c := x])
  }

  function SetDispatcher(s: State, d: DispatcherId, x: Dispatcher): State {
    s.(dispatchers := s.dispatchers[d := x])
  }

  function SetMessage(s: State, m: MessageId, x: Message): State {
    s.(messages := s.messages[m := x])
  }

  datatype ChannelOp =
    | NewChannel(c: ChannelId)
    | BuildDispatcher(c: ChannelId)
    | BuildFails
    | BuildSucceeds(d: DispatcherId)
    | CountDispatcher
    | CloseChannel(c: ChannelId)
    | ChannelDeleted(ok: bool)

  /** Creation and Close of channels, creation of dispatchers. Steps that only
      return an error change nothing and are left out. */
  ghost predicate ChannelStep(s: State, s': State, a: Actor, op: ChannelOp) {
    match op
    case NewChannel(c) =>
      c !in s.channels && s' == SetChannel(s, c, Channel(false, false, 0, 0, {}, ALIVE))
    case BuildDispatcher(c) =>
      && Fresh(s, a) && c in s.channels && !s.channels[c].mu && !s.channels[c].closed
      && s' == SetChannel(Goto(s, a, Building(c)), c, s.channels[c].(mu := true, user := a))
    case BuildFails =>
      && a in s.actors && s.actors[a].Building? && s.actors[a].c in s.channels
      && var c := s.actors[a].c;
         s' == SetChannel(Goto(s, a, Finished), c, s.channels[c].(mu := false))
    case BuildSucceeds(d) =>
      && a in s.actors && s.actors[a].Building? && d !in s.dispatchers
      && var c := s.actors[a].c;
         s' == SetDispatcher(Goto(s, a, Counting(c, d)), d, Dispatcher(c, true, false, a, ALIVE))
    case CountDispatcher =>
      && a in s.actors && s.actors[a].Counting?
      && var c, d := s.actors[a].c, s.actors[a].d;
      && c in s.channels && d in s.dispatchers
      && var x := s.channels[c];
         s' == SetDispatcher(
                 SetChannel(Goto(s, a, Finished), c,
                            x.(mu := false, dispatchers := x.dispatchers + 1, attached := x.attached + {d})),
                 d, s.dispatchers[d].(busy := false))
    case CloseChannel(c) =>
      && Fresh(s, a) && c in s.channels && !s.channels[c].mu && !s.channels[c].closed
      && s.channels[c].dispatchers == 0
      && s' == SetChannel(Goto(s, a, DeletingChannel(c)), c,
                          s.channels[c].(closed := true, native := Begun(s.channels[c].native)))
    case ChannelDeleted(ok) =>
      && a in s.actors && s.actors[a].DeletingChannel? && s.actors[a].c in s.channels
      && var c := s.actors[a].c;
         s' == SetChannel(Goto(s, a, Finished), c, s.channels[c].(native := Returned(s.channels[c].native, ok)))
  }

  datatype DispatcherOp =
    | WireDomain(d: DispatcherId)
    | WireReturns
    | ClaimDispatcher(d: DispatcherId)
    | ReleaseDispatcher
    | CloseDispatcher(d: DispatcherId)
    | DispatcherDeleted(ok: bool)
    | UncountDispatcher

  predicate Claimable(s: State, d: DispatcherId) {
    d in s.dispatchers && !s.dispatchers[d].closed && !s.dispatchers[d].busy
  }

  ghost predicate DispatcherStep(s: State, s': State, a: Actor, op: DispatcherOp) {
    match op
    case WireDomain(d) =>
      && Fresh(s, a) && Claimable(s, d)
      && s' == SetDispatcher(Goto(s, a, Wiring(d)), d, s.dispatchers[d].(busy := true, user := a))
    case WireReturns =>
      && a in s.actors && s.actors[a].Wiring? && s.actors[a].d in s.dispatchers
      && var d := s.actors[a].d;
         s' == SetDispatcher(Goto(s, a, Finished), d, s.dispatchers[d].(busy := false))
    case ClaimDispatcher(d) =>
      && Fresh(s, a) && Claimable(s, d)
      && s' == SetDispatcher(Goto(s, a, Claimed(d)), d, s.dispatchers[d].(busy := true, user := a))
    case ReleaseDispatcher =>
      && a in s.actors && (s.actors[a].Claimed? || s.actors[a].Unclaiming?) && s.actors[a].d in s.dispatchers
      && var d := s.actors[a].d;
         s' == SetDispatcher(Goto(s, a, Finished), d, s.dispatchers[d].(busy := false))
    case CloseDispatcher(d) =>
      && Fresh(s, a) && Claimable(s, d)
      && s' == SetDispatcher(Goto(s, a, DeletingDispatcher(d)), d,
                             s.dispatchers[d].(closed := true, user := a, native := Begun(s.dispatchers[d].native)))
    case DispatcherDeleted(ok) =>
      && a in s.actors && s.actors[a].DeletingDispatcher? && s.actors[a].d in s.dispatchers
      && var d := s.actors[a].d;
         s' == SetDispatcher(Goto(s, a, Uncounting(d)), d,
                             s.dispatchers[d].(native := Returned(s.dispatchers[d].native, ok)))
    case UncountDispatcher =>
      && a in s.actors && s.actors[a].Uncounting? && s.actors[a].d in s.dispatchers
      && var d := s.actors[a].d;
      && var c := s.dispatchers[d].channel;
      && c in s.channels
      && var x := s.channels[c];
         s' == SetChannel(Goto(s, a, Finished), c,
                          x.(dispatchers := x.dispatchers - 1, attached := x.attached - {d}))
  }

  datatype MessageOp =
    | NewMessage(m: MessageId)
    | ClaimMessage(m: MessageId)
    | DispatchReturns
    | ReadMessage(m: MessageId)
    | ReadReturns
    | CloseMessage(m: MessageId)
    | MessageDeleted(ok: bool)

  predicate MessageFree(s: State, m: MessageId) {
    m in s.messages && !s.messages[m].mu
  }

  ghost predicate MessageStep(s: State, s': State, a: Actor, op: MessageOp) {
    match op
    case NewMessage(m) => m !in s.messages && s' == SetMessage(s, m, Message(false, false, false, 0, ALIVE))
    case ClaimMessage(m) =>
      && a in s.actors && s.actors[a].Claimed?
      && MessageFree(s, m) && !s.messages[m].closed && !s.messages[m].active
      && s' == SetMessage(Goto(s, a, Dispatching(s.actors[a].d, m)), m, s.messages[m].(active := true, user := a))
    case DispatchReturns =>
      && a in s.actors && s.actors[a].Dispatching? && MessageFree(s, s.actors[a].m)
      && var m := s.actors[a].m;
         s' == SetMessage(Goto(s, a, Unclaiming(s.actors[a].d)), m, s.messages[m].(active := false))
    case ReadMessage(m) =>
      && Fresh(s, a) && MessageFree(s, m) && !s.messages[m].closed && !s.messages[m].active
      && s' == SetMessage(Goto(s, a, Reading(m)), m, s.messages[m].(mu := true, user := a))
    case ReadReturns =>
      && a in s.actors && s.actors[a].Reading? && s.actors[a].m in s.messages
      && var m := s.actors[a].m;
         s' == SetMessage(Goto(s, a, Finished), m, s.messages[m].(mu := false))
    case CloseMessage(m) =>
      && Fresh(s, a) && MessageFree(s, m) && !s.messages[m].closed && !s.messages[m].active
      && s' == SetMessage(Goto(s, a, DeletingMessage(m)), m,
                          s.messages[m].(closed := true, user := a, native := Begun(s.messages[m].native)))
    case MessageDeleted(ok) =>
      && a in s.actors && s.actors[a].DeletingMessage? && s.actors[a].m in s.messages
      && var m := s.actors[a].m;
         s' == SetMessage(Goto(s, a, Finished), m, s.messages[m].(native := Returned(s.messages[m].native, ok)))
  }

  datatype Op = OnChannel(c: ChannelOp) | OnDispatcher(d: DispatcherOp) | OnMessage(m: MessageOp)

  ghost predicate Does(s: State, s': State, a: Actor, op: Op) {
    match op
    case OnChannel(c) => ChannelStep(s, s', a, c)
    case OnDispatcher(d) => DispatcherStep(s, s', a, d)
    case OnMessage(m) => MessageStep(s, s', a, m)
  }

  ghost predicate Next(s: State, s': State) {
    exists a, op :: Does(s, s', a, op)
  }

  ghost predicate Init(s: State) {
    s == State(map[], map[], map[], map[])
  }

  // ------------------------------------------------------------ invariant

  /** The actor runs an operation that owns dispatcher d. */
  predicate UsesDispatcher(pc: Pc) {
    pc.Counting? || pc.Wiring? || pc.Claimed? || pc.Dispatching? || pc.Unclaiming?
  }

  predicate DropsDispatcher(pc: Pc) {
    pc.DeletingDispatcher? || pc.Uncounting?
  }

  ghost predicate ActorInv(s: State, a: Actor) {
    a in s.actors ==>
      var pc := s.actors[a];
      && (pc.Building? || pc.Counting? ==>
            && pc.c in s.channels && s.channels[pc.c].user == a && s.channels[pc.c].mu
            && !s.channels[pc.c].closed)
      && (pc.Counting? ==> pc.d in s.dispatchers && s.dispatchers[pc.d].channel == pc.c)
      && (UsesDispatcher(pc) ==>
            && pc.d in s.dispatchers && s.dispatchers[pc.d].user == a
            && s.dispatchers[pc.d].busy && !s.dispatchers[pc.d].closed)
      && (DropsDispatcher(pc) ==>
            && pc.d in s.dispatchers && s.dispatchers[pc.d].user == a
            && s.dispatchers[pc.d].closed && s.dispatchers[pc.d].native.deletions == 1
            && s.dispatchers[pc.d].native.returned == pc.Uncounting?)
      && (pc.Dispatching? ==>
            && pc.m in s.messages && s.messages[pc.m].user == a && s.messages[pc.m].active
            && !s.messages[pc.m].closed && !s.messages[pc.m].mu)
      && (pc.Reading? ==>
            && pc.m in s.messages && s.messages[pc.m].user == a && s.messages[pc.m].mu
            && !s.messages[pc.m].closed && !s.messages[pc.m].active)
      && (pc.DeletingMessage? ==>
            && pc.m in s.messages && s.messages[pc.m].user == a && s.messages[pc.m].closed
            && s.messages[pc.m].native == Native(1, false, false))
      && (pc.DeletingChannel? ==>
            pc.c in s.channels && s.channels[pc.c].closed && s.channels[pc.c].native.deletions == 1)
  }

  /** Counted dispatchers are the ones built and not yet uncounted. */
  predicate Uncounted(s: State, d: DispatcherId)
    requires d in s.dispatchers
  {
    var u := s.dispatchers[d].user;
    s.dispatchers[d].native.returned && !(u in s.actors && s.actors[u] == Uncounting(d))
  }

  predicate BeingCounted(s: State, d: DispatcherId)
    requires d in s.dispatchers
  {
    var u := s.dispatchers[d].user;
    u in s.actors && s.actors[u].Counting? && s.actors[u].d == d
  }

  ghost predicate ChannelInv(s: State, c: ChannelId) {
    c in s.channels ==>
      var x := s.channels[c];
      && x.dispatchers == |x.attached|
      && (forall d :: d in x.attached ==> d in s.dispatchers && s.dispatchers[d].channel == c)
      && x.native.deletions == (if x.closed then 1 else 0)
      && (x.native.gone ==> x.native.returned) && (x.native.returned ==> x.closed)
      && (x.closed ==> x.attached == {} && !x.mu)
  }

  ghost predicate DispatcherInv(s: State, d: DispatcherId) {
    d in s.dispatchers ==>
      var x := s.dispatchers[d];
      && x.channel in s.channels
      && (d in s.channels[x.channel].attached <==> !BeingCounted(s, d) && !Uncounted(s, d))
      && x.native.deletions == (if x.closed then 1 else 0)
      && (x.native.gone ==> x.native.returned) && (x.native.returned ==> x.closed)
  }

  ghost predicate MessageInv(s: State, m: MessageId) {
    m in s.messages ==>
      var x := s.messages[m];
      && x.native.deletions == (if x.closed then 1 else 0)
      && (x.native.gone ==> x.native.returned) && (x.native.returned ==> x.closed)
  }

  ghost predicate Inv(s: State) {
    && (forall a: Actor :: ActorInv(s, a))
    && (forall c: ChannelId :: ChannelInv(s, c))
    && (forall d: DispatcherId :: DispatcherInv(s, d))
    && (forall m: MessageId :: MessageInv(s, m))
  }

  // ------------------------------------------------- steps keep it

  /** What the invariant says about a dispatcher and its last user. */
  lemma AboutDispatcher(s: State, d: DispatcherId)
    requires Inv(s) && d in s.dispatchers
    ensures DispatcherInv(s, d) && ChannelInv(s, s.dispatchers[d].channel) && ActorInv(s, s.dispatchers[d].user)
  {
  }

  /** What the invariant says about the objects an actor works on. */
  lemma AboutActor(s: State, a: Actor)
    requires Inv(s) && a in s.actors
    ensures var pc := s.actors[a];
            && ActorInv(s, a)
            && (pc.Building? || pc.Counting? || pc.DeletingChannel? ==> ChannelInv(s, pc.c))
            && (UsesDispatcher(pc) || DropsDispatcher(pc) ==>
                  DispatcherInv(s, pc.d) && ChannelInv(s, s.dispatchers[pc.d].channel))
            && (pc.Dispatching? || pc.Reading? || pc.DeletingMessage? ==> MessageInv(s, pc.m))
  {
    assert ActorInv(s, a);
  }

  lemma ChannelStepKeepsActors(s: State, s': State, a: Actor, op: ChannelOp)
    requires Inv(s) && ChannelStep(s, s', a, op)
    ensures forall b: Actor :: ActorInv(s', b)
  {
    if a in s.actors {
      AboutActor(s, a);
    }
    assert op.CloseChannel? ==> ChannelInv(s, op.c);
    forall b: Actor ensures ActorInv(s', b) {
      assert ActorInv(s, b);
    }
  }

  lemma ChannelStepKeepsChannels(s: State, s': State, a: Actor, op: ChannelOp)
    requires Inv(s) && ChannelStep(s, s', a, op)
    ensures forall c: ChannelId :: ChannelInv(s', c)
  {
    if a in s.actors {
      AboutActor(s, a);
    }
    assert op.CloseChannel? ==> ChannelInv(s, op.c);
    forall c: ChannelId ensures ChannelInv(s', c) {
      assert ChannelInv(s, c);
    }
  }

  lemma ChannelStepKeepsObjects(s: State, s': State, a: Actor, op: ChannelOp)
    requires Inv(s) && ChannelStep(s, s', a, op)
    ensures forall d: DispatcherId :: DispatcherInv(s', d)
    ensures forall m: MessageId :: MessageInv(s', m)
  {
    if a in s.actors {
      AboutActor(s, a);
    }
    assert op.CloseChannel? ==> ChannelInv(s, op.c);
    forall d: DispatcherId ensures DispatcherInv(s', d) {
      if d in s.dispatchers {
        AboutDispatcher(s, d);
      }
    }
    forall m: MessageId ensures MessageInv(s', m) {
      assert MessageInv(s, m);
    }
  }

  lemma DispatcherStepKeepsActors(s: State, s': State, a: Actor, op: DispatcherOp)
    requires Inv(s) && DispatcherStep(s, s', a, op)
    ensures forall b: Actor :: ActorInv(s', b)
  {
    if a in s.actors {
      AboutActor(s, a);
    }
    if (op.WireDomain? || op.ClaimDispatcher? || op.CloseDispatcher?) && op.d in s.dispatchers {
      AboutDispatcher(s, op.d);
    }
    forall b: Actor ensures ActorInv(s', b) {
      assert ActorInv(s, b);
    }
  }

  lemma DispatcherStepKeepsObjects(s: State, s': State, a: Actor, op: DispatcherOp)
    requires Inv(s) && DispatcherStep(s, s', a, op)
    ensures forall c: ChannelId :: ChannelInv(s', c)
    ensures forall d: DispatcherId :: DispatcherInv(s', d)
    ensures forall m: MessageId :: MessageInv(s', m)
  {
    if a in s.actors {
      AboutActor(s, a);
    }
    if (op.WireDomain? || op.ClaimDispatcher? || op.CloseDispatcher?) && op.d in s.dispatchers {
      AboutDispatcher(s, op.d);
    }
    forall c: ChannelId ensures ChannelInv(s', c) {
      assert ChannelInv(s, c);
    }
    forall d: DispatcherId ensures DispatcherInv(s', d) {
      if d in s.dispatchers {
        AboutDispatcher(s, d);
      }
    }
    forall m: MessageId ensures MessageInv(s', m) {
      assert MessageInv(s, m);
    }
  }

  lemma MessageStepKeepsActors(s: State, s': State, a: Actor, op: MessageOp)
    requires Inv(s) && MessageStep(s, s', a, op)
    ensures forall b: Actor :: ActorInv(s', b)
  {
    if a in s.actors {
      AboutActor(s, a);
    }
    assert op.CloseMessage? ==> MessageInv(s, op.m);
    forall b: Actor ensures ActorInv(s', b) {
      assert ActorInv(s, b);
    }
  }

  lemma MessageStepKeepsObjects(s: State, s': State, a: Actor, op: MessageOp)
    requires Inv(s) && MessageStep(s, s', a, op)
    ensures forall c: ChannelId :: ChannelInv(s', c)
    ensures forall d: DispatcherId :: DispatcherInv(s', d)
    ensures forall m: MessageId :: MessageInv(s', m)
  {
    if a in s.actors {
      AboutActor(s, a);
    }
    assert op.CloseMessage? ==> MessageInv(s, op.m);
    forall c: ChannelId ensures ChannelInv(s', c) {
      assert ChannelInv(s, c);
    }
    forall d: DispatcherId ensures DispatcherInv(s', d) {
      if d in s.dispatchers {
        AboutDispatcher(s, d);
      }
    }
    forall m: MessageId ensures MessageInv(s', m) {
      assert MessageInv(s, m);
    }
  }

  lemma NextKeepsInv()
    ensures forall s, s' :: Inv(s) && Next(s, s') ==> Inv(s')
  {
    forall s, s' | Inv(s) && Next(s, s') ensures Inv(s') {
      var a, op :| Does(s, s', a, op);
      match op
      case OnChannel(c) =>
        ChannelStepKeepsActors(s, s', a, c);
        ChannelStepKeepsChannels(s, s', a, c);
        ChannelStepKeepsObjects(s, s', a, c);
      case OnDispatcher(d) =>
        DispatcherStepKeepsActors(s, s', a, d);
        DispatcherStepKeepsObjects(s, s', a, d);
      case OnMessage(m) =>
        MessageStepKeepsActors(s, s', a, m);
        MessageStepKeepsObjects(s, s', a, m);
    }
  }

  lemma RunInv(trace: seq<State>)
    requires IsRun(Init, Next, trace)
    ensures forall n: nat :: n < |trace| ==> Inv(trace[n])
  {
    NextKeepsInv();
    Invariant(Init, Next, Inv, trace);
  }

  // ------------------------------------------------------------- theorems

  /** While a native dispatch runs, no native delete of its dispatcher or of its
      message has begun, and no other activation uses or deletes either of them. */
  lemma DispatchExcludesDeletion(trace: seq<State>, n: nat, a: Actor, b: Actor)
    requires IsRun(Init, Next, trace) && n < |trace|
    requires a in trace[n].actors && trace[n].actors[a].Dispatching?
    ensures var s := trace[n];
            var d, m := s.actors[a].d, s.actors[a].m;
            && d in s.dispatchers && s.dispatchers[d].native == ALIVE
            && m in s.messages && s.messages[m].native == ALIVE
            && (b in s.actors && b != a ==>
                  var pc := s.actors[b];
                  && (UsesDispatcher(pc) || DropsDispatcher(pc) ==> pc.d != d)
                  && (pc.Dispatching? || pc.Reading? || pc.DeletingMessage? ==> pc.m != m))
  {
    RunInv(trace);
    AboutActor(trace[n], a);
    if b in trace[n].actors {
      AboutActor(trace[n], b);
    }
  }

  /** A message accessor in its native call excludes dispatch and deletion of the message. */
  lemma ReadExcludesDeletion(trace: seq<State>, n: nat, a: Actor, b: Actor)
    requires IsRun(Init, Next, trace) && n < |trace|
    requires a in trace[n].actors && trace[n].actors[a].Reading?
    ensures var s := trace[n];
            var m := s.actors[a].m;
            && m in s.messages && s.messages[m].native == ALIVE
            && (b in s.actors && b != a ==>
                  var pc := s.actors[b];
                  pc.Dispatching? || pc.Reading? || pc.DeletingMessage? ==> pc.m != m)
  {
    RunInv(trace);
    AboutActor(trace[n], a);
    if b in trace[n].actors {
      AboutActor(trace[n], b);
    }
  }

  /** The native delete of dispatcher d returned with a failure. */
  predicate Left(s: State, d: DispatcherId) {
    d in s.dispatchers && s.dispatchers[d].native.returned && !s.dispatchers[d].native.gone
  }

  ghost predicate DeleteFails(s: State, s': State, d: DispatcherId) {
    exists a :: At(s, a, DeletingDispatcher(d)) && DispatcherStep(s, s', a, DispatcherDeleted(false))
  }

  ghost predicate DeleteFailsAt(trace: seq<State>, k: nat, d: DispatcherId) {
    k + 1 < |trace| && DeleteFails(trace[k], trace[k + 1], d)
  }

  lemma DispatcherLeaves(s: State, s': State, a: Actor, op: DispatcherOp, d: DispatcherId)
    requires Inv(s) && DispatcherStep(s, s', a, op)
    ensures Left(s', d) <==> Left(s, d) || (At(s, a, DeletingDispatcher(d)) && op == DispatcherDeleted(false))
  {
    if a in s.actors {
      AboutActor(s, a);
    }
    if op.CloseDispatcher? {
      AboutDispatcher(s, op.d);
    }
  }

  lemma ChannelLeaves(s: State, s': State, a: Actor, op: ChannelOp, d: DispatcherId)
    requires Inv(s) && ChannelStep(s, s', a, op)
    ensures Left(s', d) <==> Left(s, d)
  {
    if a in s.actors {
      AboutActor(s, a);
    }
  }

  lemma StepLeaves(s: State, s': State, a: Actor, op: Op, d: DispatcherId)
    requires Inv(s) && Does(s, s', a, op) && Left(s, d) != Left(s', d)
    ensures Left(s', d) && DeleteFails(s, s', d)
  {
    match op
    case OnChannel(c) => ChannelLeaves(s, s', a, c, d);
    case OnDispatcher(o) => DispatcherLeaves(s, s', a, o, d);
    case OnMessage(m) =>
  }

  lemma NextLeaves(s: State, s': State, d: DispatcherId)
    requires Inv(s) && Next(s, s')
    ensures Left(s', d) <==> Left(s, d) || DeleteFails(s, s', d)
  {
    if Left(s, d) != Left(s', d) {
      var a, op :| Does(s, s', a, op);
      StepLeaves(s, s', a, op, d);
    }
  }

  lemma LeftIffFailed(trace: seq<State>, n: nat, d: DispatcherId)
    requires IsRun(Init, Next, trace) && n < |trace|
    ensures Left(trace[n], d) <==> exists k: nat :: k < n && DeleteFailsAt(trace, k, d)
  {
    RunInv(trace);
    var event := (k: nat) => DeleteFailsAt(trace, k, d);
    forall k: nat | k < n ensures Left(trace[k + 1], d) <==> Left(trace[k], d) || event(k) {
      assert StepAt(Next, trace, k);
      NextLeaves(trace[k], trace[k + 1], d);
    }
    RaisedBy((k: nat) => k < |trace| && Left(trace[k], d), event, 0, n);
    assert forall k: nat :: event(k) <==> DeleteFailsAt(trace, k, d);
  }

  /** A channel's native delete begins only after the native delete of every
      dispatcher ever built on it has returned, and such a dispatcher is then
      left exactly if its delete failed; the registry count is the number of
      dispatchers counted whose delete has not returned. */
  lemma ChannelDeletedLast(trace: seq<State>, n: nat, c: ChannelId, d: DispatcherId)
    requires IsRun(Init, Next, trace) && n < |trace| && c in trace[n].channels
    requires d in trace[n].dispatchers && trace[n].dispatchers[d].channel == c
    ensures var x := trace[n].dispatchers[d].native;
            trace[n].channels[c].native.deletions > 0 ==>
              && x.deletions == 1 && x.returned
              && (!x.gone <==> exists k: nat :: k < n && DeleteFailsAt(trace, k, d))
    ensures trace[n].channels[c].dispatchers == |trace[n].channels[c].attached|
    ensures !trace[n].dispatchers[d].native.returned && !BeingCounted(trace[n], d) ==>
              d in trace[n].channels[c].attached
  {
    RunInv(trace);
    AboutDispatcher(trace[n], d);
    LeftIffFailed(trace, n, d);
  }

  lemma ByDispatcher(s: State, s': State, a: Actor, op: DispatcherOp)
    requires DispatcherStep(s, s', a, op)
    ensures Next(s, s')
  {
    assert Does(s, s', a, OnDispatcher(op));
  }

  lemma ByChannel(s: State, s': State, a: Actor, op: ChannelOp)
    requires ChannelStep(s, s', a, op)
    ensures Next(s, s')
  {
    assert Does(s, s', a, OnChannel(op));
  }

  lemma ByMessage(s: State, s': State, a: Actor, op: MessageOp)
    requires MessageStep(s, s', a, op)
    ensures Next(s, s')
  {
    assert Does(s, s', a, OnMessage(op));
  }

  predicate MessageIdle(s: State, m: MessageId) {
    MessageFree(s, m) && !s.messages[m].closed && !s.messages[m].active
  }

  function Dispatched(s: State, a: Actor, d: DispatcherId, m: MessageId): State
    requires d in s.dispatchers && m in s.messages
  {
    s.(actors := s.actors[a := Dispatching(d, m)],
       dispatchers := s.dispatchers[d := s.dispatchers[d].(busy := true, user := a)],
       messages := s.messages[m := s.messages[m].(active := true, user := a)])
  }

  /** Dispatch up to its native call: dispatcher and message are taken together. */
  lemma DispatchBegins(s: State, a: Actor, d: DispatcherId, m: MessageId)
    requires Fresh(s, a) && Claimable(s, d) && MessageIdle(s, m)
    ensures Leads(Next, s, Dispatched(s, a, d, m))
  {
    var s1 := SetDispatcher(Goto(s, a, Claimed(d)), d, s.dispatchers[d].(busy := true, user := a));
    ByDispatcher(s, s1, a, ClaimDispatcher(d));
    var s2 := SetMessage(Goto(s1, a, Dispatching(d, m)), m, s.messages[m].(active := true, user := a));
    ByMessage(s1, s2, a, ClaimMessage(m));
    assert s2 == Dispatched(s, a, d, m);
    Along(Next, [s, s1, s2]);
  }

  function GivenBack(s: State, a: Actor, d: DispatcherId, m: MessageId): State
    requires d in s.dispatchers && m in s.messages
  {
    s.(actors := s.actors[a := Finished],
       dispatchers := s.dispatchers[d := s.dispatchers[d].(busy := false)],
       messages := s.messages[m := s.messages[m].(active := false)])
  }

  lemma DispatchEnds(s: State, a: Actor, d: DispatcherId, m: MessageId)
    requires At(s, a, Dispatching(d, m)) && d in s.dispatchers && MessageFree(s, m)
    ensures Leads(Next, s, GivenBack(s, a, d, m))
  {
    var s1 := SetMessage(Goto(s, a, Unclaiming(d)), m, s.messages[m].(active := false));
    ByMessage(s, s1, a, DispatchReturns);
    var s2 := SetDispatcher(Goto(s1, a, Finished), d, s.dispatchers[d].(busy := false));
    ByDispatcher(s1, s2, a, ReleaseDispatcher);
    assert s2 == GivenBack(s, a, d, m);
    Along(Next, [s, s1, s2]);
  }

  /** A whole Dispatch, from every state with an idle dispatcher and an idle
      message: in between both are taken, and afterwards both are as they were
      and can be used, dispatched or closed again. */
  lemma DispatchGivesBack(s: State, a: Actor, d: DispatcherId, m: MessageId)
    requires Fresh(s, a) && Claimable(s, d) && MessageIdle(s, m)
    ensures exists s1, s' ::
              && Leads(Next, s, s1) && Leads(Next, s1, s')
              && At(s1, a, Dispatching(d, m)) && !Claimable(s1, d) && !MessageIdle(s1, m)
              && Claimable(s', d) && MessageIdle(s', m)
              && s' == s.(actors := s.actors[a := Finished],
                          dispatchers := s.dispatchers[d := s.dispatchers[d].(user := a)],
                          messages := s.messages[m := s.messages[m].(user := a)])
  {
    var s1 := Dispatched(s, a, d, m);
    DispatchBegins(s, a, d, m);
    DispatchEnds(s1, a, d, m);
    assert GivenBack(s1, a, d, m) == s.(actors := s.actors[a := Finished],
                                        dispatchers := s.dispatchers[d := s.dispatchers[d].(user := a)],
                                        messages := s.messages[m := s.messages[m].(user := a)]);
  }

  /** A dispatch that finds its message closed or in use gives the dispatcher back. */
  lemma RefusedDispatchGivesBack(s: State, a: Actor, d: DispatcherId)
    requires Fresh(s, a) && Claimable(s, d)
    ensures Leads(Next, s, s.(actors := s.actors[a := Finished],
                              dispatchers := s.dispatchers[d := s.dispatchers[d].(user := a)]))
  {
    var s1 := SetDispatcher(Goto(s, a, Claimed(d)), d, s.dispatchers[d].(busy := true, user := a));
    ByDispatcher(s, s1, a, ClaimDispatcher(d));
    var s2 := SetDispatcher(Goto(s1, a, Finished), d, s.dispatchers[d].(user := a));
    ByDispatcher(s1, s2, a, ReleaseDispatcher);
    assert s2 == s.(actors := s.actors[a := Finished],
                    dispatchers := s.dispatchers[d := s.dispatchers[d].(user := a)]);
    Along(Next, [s, s1, s2]);
  }

  /** NewCRDTPUberDispatcher whose native call fails leaves the open channel as it was. */
  lemma FailedBuildGivesBack(s: State, a: Actor, c: ChannelId)
    requires Fresh(s, a) && c in s.channels && !s.channels[c].mu && !s.channels[c].closed
    ensures Leads(Next, s, s.(actors := s.actors[a := Finished],
                              channels := s.channels[c := s.channels[c].(user := a)]))
  {
    var x := s.channels[c].(user := a);
    var s1 := SetChannel(Goto(s, a, Building(c)), c, x.(mu := true));
    ByChannel(s, s1, a, BuildDispatcher(c));
    var s2 := SetChannel(Goto(s1, a, Finished), c, x);
    ByChannel(s1, s2, a, BuildFails);
    assert s2 == s.(actors := s.actors[a := Finished], channels := s.channels[c := x]);
    Along(Next, [s, s1, s2]);
  }

  /** NewCRDTPUberDispatcher on an open channel: a new idle dispatcher is counted on the channel. */
  lemma DispatcherBuilds(s: State, a: Actor, c: ChannelId, d: DispatcherId)
    requires Fresh(s, a) && c in s.channels && !s.channels[c].mu && !s.channels[c].closed && d !in s.dispatchers
    ensures Leads(Next, s,
                  s.(actors := s.actors[a := Finished],
                     channels := s.channels[c := s.channels[c].(user := a,
                                                                dispatchers := s.channels[c].dispatchers + 1,
                                                                attached := s.channels[c].attached + {d})],
                     dispatchers := s.dispatchers[d := Dispatcher(c, false, false, a, ALIVE)]))
  {
    var x := s.channels[c].(user := a);
    var s1 := SetChannel(Goto(s, a, Building(c)), c, x.(mu := true));
    ByChannel(s, s1, a, BuildDispatcher(c));
    Along(Next, [s, s1]);
    CountBuilt(s1, a, c, d);
    var s2 := Built(s1, a, c, d);
    Through(Next, s, s1, s2);
    assert s2.actors == s.actors[a := Finished];
    assert s2.channels == s.channels[c := x.(dispatchers := x.dispatchers + 1, attached := x.attached + {d})];
  }

  function Built(s: State, a: Actor, c: ChannelId, d: DispatcherId): State
    requires c in s.channels
  {
    var x := s.channels[c];
    s.(actors := s.actors[a := Finished],
       channels := s.channels[c := x.(mu := false, dispatchers := x.dispatchers + 1, attached := x.attached + {d})],
       dispatchers := s.dispatchers[d := Dispatcher(c, false, false, a, ALIVE)])
  }

  lemma CountBuilt(s: State, a: Actor, c: ChannelId, d: DispatcherId)
    requires At(s, a, Building(c)) && c in s.channels && d !in s.dispatchers
    ensures Leads(Next, s, Built(s, a, c, d))
  {
    var s1 := SetDispatcher(Goto(s, a, Counting(c, d)), d, Dispatcher(c, true, false, a, ALIVE));
    ByChannel(s, s1, a, BuildSucceeds(d));
    var s2 := Built(s, a, c, d);
    assert s2.dispatchers == s1.dispatchers[d := s1.dispatchers[d].(busy := false)];
    assert s2.actors == s1.actors[a := Finished];
    ByChannel(s1, s2, a, CountDispatcher);
    Along(Next, [s, s1, s2]);
  }

  /** WireDomain and a message accessor give back what they took. */
  lemma WireGivesBack(s: State, a: Actor, d: DispatcherId)
    requires Fresh(s, a) && Claimable(s, d)
    ensures exists s1, s' ::
              && Leads(Next, s, s1) && At(s1, a, Wiring(d)) && !Claimable(s1, d) && Leads(Next, s1, s')
              && s' == s.(actors := s.actors[a := Finished],
                          dispatchers := s.dispatchers[d := s.dispatchers[d].(user := a)])
  {
    var s1 := SetDispatcher(Goto(s, a, Wiring(d)), d, s.dispatchers[d].(busy := true, user := a));
    ByDispatcher(s, s1, a, WireDomain(d));
    Along(Next, [s, s1]);
    var s2 := SetDispatcher(Goto(s1, a, Finished), d, s.dispatchers[d].(user := a));
    ByDispatcher(s1, s2, a, WireReturns);
    Along(Next, [s1, s2]);
    assert s2 == s.(actors := s.actors[a := Finished],
                    dispatchers := s.dispatchers[d := s.dispatchers[d].(user := a)]);
  }

  lemma ReadGivesBack(s: State, a: Actor, m: MessageId)
    requires Fresh(s, a) && MessageIdle(s, m)
    ensures exists s1, s' ::
              && Leads(Next, s, s1) && At(s1, a, Reading(m)) && !MessageIdle(s1, m) && Leads(Next, s1, s')
              && s' == s.(actors := s.actors[a := Finished], messages := s.messages[m := s.messages[m].(user := a)])
  {
    var s1 := SetMessage(Goto(s, a, Reading(m)), m, s.messages[m].(mu := true, user := a));
    ByMessage(s, s1, a, ReadMessage(m));
    Along(Next, [s, s1]);
    var s2 := SetMessage(Goto(s1, a, Finished), m, s.messages[m].(user := a));
    ByMessage(s1, s2, a, ReadReturns);
    Along(Next, [s1, s2]);
    assert s2 == s.(actors := s.actors[a := Finished], messages := s.messages[m := s.messages[m].(user := a)]);
  }

  /** A new message is idle, so it can be read, dispatched and closed. */
  lemma MessageBegins(s: State, a: Actor, m: MessageId)
    requires m !in s.messages
    ensures exists s' ::
              && Leads(Next, s, s') && MessageIdle(s', m)
              && s' == s.(messages := s.messages[m := Message(false, false, false, 0, ALIVE)])
  {
    var s' := SetMessage(s, m, Message(false, false, false, 0, ALIVE));
    ByMessage(s, s', a, NewMessage(m));
    Along(Next, [s, s']);
  }

  /** Close of an idle message deletes it natively once and refuses it from then on. */
  lemma MessageCloses(s: State, a: Actor, m: MessageId, ok: bool)
    requires Inv(s) && Fresh(s, a) && MessageIdle(s, m)
    ensures exists s' ::
              && Leads(Next, s, s') && !MessageIdle(s', m)
              && s' == s.(actors := s.actors[a := Finished],
                          messages := s.messages[m := s.messages[m].(closed := true, user := a,
                                                                     native := Native(1, true, ok))])
  {
    assert MessageInv(s, m);
    var x := s.messages[m].(closed := true, user := a);
    var s1 := SetMessage(Goto(s, a, DeletingMessage(m)), m, x.(native := Native(1, false, false)));
    ByMessage(s, s1, a, CloseMessage(m));
    var s2 := SetMessage(Goto(s1, a, Finished), m, x.(native := Native(1, true, ok)));
    ByMessage(s1, s2, a, MessageDeleted(ok));
    Along(Next, [s, s1, s2]);
    assert s2 == s.(actors := s.actors[a := Finished], messages := s.messages[m := x.(native := Native(1, true, ok))]);
  }

  /** A channel's Close gets through exactly if it is open, nobody is building a
      dispatcher on it, and every dispatcher on it has been closed and uncounted. */
  lemma ChannelClosesIff(trace: seq<State>, n: nat, a: Actor, c: ChannelId)
    requires IsRun(Init, Next, trace) && n < |trace| && Fresh(trace[n], a) && c in trace[n].channels
    ensures var s := trace[n];
            (exists s' :: ChannelStep(s, s', a, CloseChannel(c))) <==>
              && !s.channels[c].closed && !s.channels[c].mu
              && forall d :: d in s.dispatchers && s.dispatchers[d].channel == c ==> Uncounted(s, d)
  {
    var s := trace[n];
    RunInv(trace);
    assert ChannelInv(s, c);
    forall d | d in s.dispatchers && s.dispatchers[d].channel == c
      ensures d in s.channels[c].attached <==> !BeingCounted(s, d) && !Uncounted(s, d)
      ensures BeingCounted(s, d) ==> s.channels[c].mu
    {
      AboutDispatcher(s, d);
    }
    if s.channels[c].dispatchers == 0 && !s.channels[c].closed && !s.channels[c].mu {
      assert s.channels[c].attached == {};
      var s' := SetChannel(Goto(s, a, DeletingChannel(c)), c,
                           s.channels[c].(closed := true, native := Begun(s.channels[c].native)));
      assert ChannelStep(s, s', a, CloseChannel(c));
    } else if !s.channels[c].closed && !s.channels[c].mu {
      var d :| d in s.channels[c].attached;
    }
  }

  function Deleted(s: State, a: Actor, d: DispatcherId, ok: bool): State
    requires d in s.dispatchers
  {
    SetDispatcher(Goto(s, a, Uncounting(d)), d,
                  s.dispatchers[d].(closed := true, user := a, native := Native(1, true, ok)))
  }

  /** Close of an idle dispatcher up to the return of the native delete. */
  lemma DeleteReturns(s: State, a: Actor, d: DispatcherId, ok: bool)
    requires Fresh(s, a) && Claimable(s, d) && s.dispatchers[d].native == ALIVE
    ensures Leads(Next, s, Deleted(s, a, d, ok))
  {
    var s1 := SetDispatcher(Goto(s, a, DeletingDispatcher(d)), d,
                            s.dispatchers[d].(closed := true, user := a, native := Native(1, false, false)));
    ByDispatcher(s, s1, a, CloseDispatcher(d));
    var s2 := Deleted(s, a, d, ok);
    assert s2 == SetDispatcher(Goto(s1, a, Uncounting(d)), d, s2.dispatchers[d]);
    ByDispatcher(s1, s2, a, DispatcherDeleted(ok));
    Along(Next, [s, s1, s2]);
  }

  function Ended(s: State, a: Actor, d: DispatcherId, ok: bool): State
    requires d in s.dispatchers && s.dispatchers[d].channel in s.channels
  {
    var c := s.dispatchers[d].channel;
    s.(actors := s.actors[a := Finished],
       dispatchers := s.dispatchers[d := s.dispatchers[d].(closed := true, user := a, native := Native(1, true, ok))],
       channels := s.channels[c := s.channels[c].(dispatchers := s.channels[c].dispatchers - 1,
                                                  attached := s.channels[c].attached - {d})])
  }

  /** Close of an idle dispatcher, with either outcome of the native delete: it
      is uncounted all the same. */
  lemma CloseUncounts(s: State, a: Actor, d: DispatcherId, ok: bool)
    requires Inv(s) && Fresh(s, a) && Claimable(s, d)
    ensures s.dispatchers[d].channel in s.channels && Leads(Next, s, Ended(s, a, d, ok))
  {
    AboutDispatcher(s, d);
    DeleteReturns(s, a, d, ok);
    var s2 := Deleted(s, a, d, ok);
    var s3 := Ended(s, a, d, ok);
    assert s3 == SetChannel(Goto(s2, a, Finished), s.dispatchers[d].channel, s3.channels[s.dispatchers[d].channel]);
    ByDispatcher(s2, s3, a, UncountDispatcher);
    Along(Next, [s2, s3]);
    Through(Next, s, s2, s3);
  }

  /** One channel with one idle dispatcher. */
  function OnePair(): State {
    State(map[0 := Finished], map[0 := Channel(false, false, 0, 1, {0}, ALIVE)],
          map[0 := Dispatcher(0, false, false, 0, ALIVE)], map[])
  }

  lemma PairIsReachable()
    ensures Reached(Init, Next, OnePair())
  {
    var s0 := State(map[], map[], map[], map[]);
    var s1 := SetChannel(s0, 0, Channel(false, false, 0, 0, {}, ALIVE));
    ByChannel(s0, s1, 0, NewChannel(0));
    var s2 := SetChannel(Goto(s1, 0, Building(0)), 0, s1.channels[0].(mu := true));
    ByChannel(s1, s2, 0, BuildDispatcher(0));
    var s3 := SetDispatcher(Goto(s2, 0, Counting(0, 0)), 0, Dispatcher(0, true, false, 0, ALIVE));
    ByChannel(s2, s3, 0, BuildSucceeds(0));
    var s4 := SetDispatcher(SetChannel(Goto(s3, 0, Finished), 0, Channel(false, false, 0, 1, {} + {0}, ALIVE)),
                            0, Dispatcher(0, false, false, 0, ALIVE));
    ByChannel(s3, s4, 0, CountDispatcher);
    assert s4.channels[0].attached == {0};
    assert s4.actors == OnePair().actors && s4.channels == OnePair().channels;
    assert s4.dispatchers == OnePair().dispatchers;
    Along(Next, [s0, s1, s2, s3, s4]);
  }

  /** A run in which a channel's native delete begins with a dispatcher left on it. */
  lemma ChannelDeletedUnderDispatcher()
    ensures exists s, c, d ::
              && Reached(Init, Next, s) && c in s.channels && s.channels[c].native.deletions > 0
              && d in s.dispatchers && s.dispatchers[d].channel == c && !s.dispatchers[d].native.gone
  {
    PairIsReachable();
    var s0 :| Init(s0) && Leads(Next, s0, OnePair());
    NextKeepsInv();
    StableThrough(Next, Inv, s0, OnePair());
    var s1 := Ended(OnePair(), 1, 0, false);
    CloseUncounts(OnePair(), 1, 0, false);
    var s2 := SetChannel(Goto(s1, 2, DeletingChannel(0)), 0,
                         s1.channels[0].(closed := true, native := Native(1, false, false)));
    ByChannel(s1, s2, 2, CloseChannel(0));
    Along(Next, [s1, s2]);
    Through(Next, OnePair(), s1, s2);
    Through(Next, s0, OnePair(), s2);
    assert Reached(Init, Next, s2);
    assert s2.channels[0].native.deletions > 0 && !s2.dispatchers[0].native.gone && s2.dispatchers[0].channel == 0;
  }

  /** Every native object is deleted at most once. */
  lemma DeletedAtMostOnce(trace: seq<State>, n: nat, c: ChannelId, d: DispatcherId, m: MessageId)
    requires IsRun(Init, Next, trace) && n < |trace|
    ensures c in trace[n].channels ==> trace[n].channels[c].native.deletions <= 1
    ensures d in trace[n].dispatchers ==> trace[n].dispatchers[d].native.deletions <= 1
    ensures m in trace[n].messages ==> trace[n].messages[m].native.deletions <= 1
  {
    RunInv(trace);
    assert ChannelInv(trace[n], c) && DispatcherInv(trace[n], d) && MessageInv(trace[n], m);
  }
}
