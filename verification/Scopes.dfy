/**
 Handle scopes and entered contexts of one isolate (scope.go,
 core_advanced.go). All calls come from the isolate's owner thread, so they
 form a sequence; callbacks nest inside native calls and contribute borrowed
 scopes that never enter the stack.
 */
module Scopes {
  import opened Runs
  import opened Wrappers

  type Id = nat

  const MAX_BORROWED: nat := 0xFFFF_FFFF

  datatype Kind = Ordinary | Borrowed | Escapable(outer: Id)

  /** at is the stack position an ordinary or escapable scope was pushed to. */
  datatype Scope = Scope(kind: Kind, closed: bool, escaped: bool, contexts: nat, at: nat)

  /** Where an entered context came from: a persistent Context or a reference living in a scope. */
  datatype Source = Persistent(c: Id) | Local(sc: Id)

  datatype Guard = Guard(src: Source, closed: bool, at: nat)

  /** stack is handleScopeStack, entered is the isolate's contextScopeStacks
      entry; contexts says of each Context whether it was closed. */
  datatype World = World(
    stack: seq<Id>, scopes: map<Id, Scope>, entered: seq<Id>, guards: map<Id, Guard>, contexts: map<Id, bool>)

  // ----------------------------------------------------------- operations

  predicate Open(w: World, s: Id) {
    s in w.scopes && !w.scopes[s].closed
  }

  predicate Innermost(w: World, s: Id) {
    |w.stack| > 0 && w.stack[|w.stack| - 1] == s
  }

  function Pushed(w: World, s: Id, kind: Kind): World {
    w.(stack := w.stack + [s], scopes := w.scopes[s := Scope(kind, false, false, 0, |w.stack|)])
  }

  function Popped(w: World): World
    requires |w.stack| > 0 && w.stack[|w.stack| - 1] in w.scopes
  {
    var s := w.stack[|w.stack| - 1];
    w.(stack := w.stack[..|w.stack| - 1], scopes := w.scopes[s := w.scopes[s].(closed := true)])
  }

  /** The destination of a new escapable scope is the innermost scope, or the
      destination of the innermost escapable scope; a borrowed one always is. */
  predicate CanEscapeTo(w: World, s: Id) {
    && Open(w, s) && !w.scopes[s].kind.Escapable?
    && (|| w.scopes[s].kind == Borrowed
        || Innermost(w, s)
        || (|w.stack| > 0 && w.stack[|w.stack| - 1] in w.scopes &&
            w.scopes[w.stack[|w.stack| - 1]].kind == Escapable(s)))
  }

  predicate CanEscape(w: World, e: Id) {
    && Open(w, e) && w.scopes[e].kind.Escapable? && Open(w, w.scopes[e].kind.outer) && !w.scopes[e].escaped
  }

  predicate CanCloseScope(w: World, s: Id) {
    Open(w, s) && w.scopes[s].kind == Ordinary && w.scopes[s].contexts == 0 && Innermost(w, s)
  }

  predicate CanCloseEscapable(w: World, e: Id) {
    && Open(w, e) && w.scopes[e].kind.Escapable? && Open(w, w.scopes[e].kind.outer) && Innermost(w, e)
  }

  predicate CanEnterLocal(w: World, sc: Id) {
    Open(w, sc) && !w.scopes[sc].kind.Escapable? && w.scopes[sc].contexts < MAX_BORROWED
  }

  predicate CanEnter(w: World, c: Id) {
    c in w.contexts && !w.contexts[c]
  }

  /** What an entered context needs to be exited: its Context, or the scope of its reference. */
  predicate Alive(w: World, src: Source) {
    match src
    case Persistent(c) => c in w.contexts && !w.contexts[c]
    case Local(sc) => Open(w, sc)
  }

  function EnteredFrom(w: World, g: Id, src: Source): World {
    w.(entered := w.entered + [g],
       guards := w.guards[g := Guard(src, false, |w.entered|)],
       scopes := if src.Local? && src.sc in w.scopes
                 then w.scopes[src.sc := w.scopes[src.sc].(contexts := w.scopes[src.sc].contexts + 1)]
                 else w.scopes)
  }

  predicate CanExit(w: World, g: Id) {
    && g in w.guards && !w.guards[g].closed
    && Alive(w, w.guards[g].src)
    && |w.entered| > 0 && w.entered[|w.entered| - 1] == g
  }

  function Exited(w: World, g: Id): World
    requires |w.entered| > 0 && g in w.guards
  {
    var src := w.guards[g].src;
    w.(entered := w.entered[..|w.entered| - 1],
       guards := w.guards[g := w.guards[g].(closed := true)],
       scopes := if src.Local? && src.sc in w.scopes && w.scopes[src.sc].contexts > 0
                 then w.scopes[src.sc := w.scopes[src.sc].(contexts := w.scopes[src.sc].contexts - 1)]
                 else w.scopes)
  }

  datatype Op =
    | NewScope(s: Id)
    | EnterCallback(s: Id)          // a callback hands out a borrowed scope
    | LeaveCallback(s: Id)
    | NewEscapable(outer: Id, e: Id)
    | Escape(e: Id)
    | CloseScope(s: Id)
    | CloseEscapable(e: Id)
    | NewContext(c: Id)
    | CloseContext(c: Id)
    | Enter(c: Id, g: Id)
    | EnterLocal(sc: Id, g: Id)
    | Exit(g: Id)

  /** The calls that change something; a refused call or a failed native call
      that rolls back changes nothing. Closing a scope pops the stack whether or
      not the native exit succeeded. Closing a Context does not ask whether it is
      entered. */
  ghost predicate Does(w: World, w': World, op: Op) {
    match op
    case NewScope(s) => s !in w.scopes && w' == Pushed(w, s, Ordinary)
    case EnterCallback(s) =>
      s !in w.scopes && w' == w.(scopes := w.scopes[s := Scope(Borrowed, false, false, 0, 0)])
    case LeaveCallback(s) =>
      Open(w, s) && w.scopes[s].kind == Borrowed && w' == w.(scopes := w.scopes[s := w.scopes[s].(closed := true)])
    case NewEscapable(o, e) => CanEscapeTo(w, o) && e !in w.scopes && w' == Pushed(w, e, Escapable(o))
    case Escape(e) => CanEscape(w, e) && w' == w.(scopes := w.scopes[e := w.scopes[e].(escaped := true)])
    case CloseScope(s) => CanCloseScope(w, s) && w' == Popped(w)
    case CloseEscapable(e) => CanCloseEscapable(w, e) && w' == Popped(w)
    case NewContext(c) => c !in w.contexts && w' == w.(contexts := w.contexts[c := false])
    case CloseContext(c) => c in w.contexts && !w.contexts[c] && w' == w.(contexts := w.contexts[c := true])
    case Enter(c, g) => CanEnter(w, c) && g !in w.guards && w' == EnteredFrom(w, g, Persistent(c))
    case EnterLocal(sc, g) => CanEnterLocal(w, sc) && g !in w.guards && w' == EnteredFrom(w, g, Local(sc))
    case Exit(g) => CanExit(w, g) && w' == Exited(w, g)
  }

  ghost predicate Next(w: World, w': World) {
    exists op :: Does(w, w', op)
  }

  function Start(): World {
    World([], map[], [], map[], map[])
  }

  ghost predicate Init(w: World) {
    w == Start()
  }

  // ------------------------------------------------------------ invariant

  /** How many of the entered contexts are references living in scope sc. */
  function EnteredIn(entered: seq<Id>, guards: map<Id, Guard>, sc: Id): nat {
    if entered == [] then 0
    else
      var g := entered[|entered| - 1];
      EnteredIn(entered[..|entered| - 1], guards, sc) + if g in guards && guards[g].src == Local(sc) then 1 else 0
  }

  ghost predicate ScopeInv(w: World, s: Id) {
    s in w.scopes ==>
      var x := w.scopes[s];
      && (!x.closed && x.kind != Borrowed ==> x.at < |w.stack| && w.stack[x.at] == s)
      && (x.kind.Escapable? ==> x.kind.outer in w.scopes && !w.scopes[x.kind.outer].kind.Escapable? && x.contexts == 0)
      && (x.kind == Ordinary && x.closed ==> x.contexts == 0)
  }

  ghost predicate CountInv(w: World, s: Id) {
    s in w.scopes ==> w.scopes[s].contexts == EnteredIn(w.entered, w.guards, s) <= MAX_BORROWED
  }

  /** Each escapable scope lies directly above its ordinary destination or above
      an escapable scope with the same destination. */
  ghost predicate LevelInv(w: World, k: nat) {
    k < |w.stack| ==>
      && Open(w, w.stack[k]) && w.scopes[w.stack[k]].kind != Borrowed && w.scopes[w.stack[k]].at == k
      && (w.scopes[w.stack[k]].kind.Escapable? ==>
            var o := w.scopes[w.stack[k]].kind.outer;
            o in w.scopes && w.scopes[o].kind == Ordinary ==>
              k > 0 && w.stack[k - 1] in w.scopes &&
              (w.stack[k - 1] == o || w.scopes[w.stack[k - 1]].kind == Escapable(o)))
  }

  ghost predicate GuardInv(w: World, g: Id) {
    g in w.guards ==>
      && (!w.guards[g].closed ==> w.guards[g].at < |w.entered| && w.entered[w.guards[g].at] == g)
      && match w.guards[g].src
         case Persistent(c) => c in w.contexts
         case Local(sc) => sc in w.scopes
  }

  ghost predicate EnteredInv(w: World, k: nat) {
    k < |w.entered| ==>
      w.entered[k] in w.guards && !w.guards[w.entered[k]].closed && w.guards[w.entered[k]].at == k
  }

  ghost predicate Inv(w: World) {
    && (forall s: Id :: ScopeInv(w, s))
    && (forall s: Id :: CountInv(w, s))
    && (forall k: nat :: LevelInv(w, k))
    && (forall g: Id :: GuardInv(w, g))
    && (forall k: nat :: EnteredInv(w, k))
  }

  /** The count does not depend on guards that are not entered. */
  lemma {:induction false} EnteredInFrame(entered: seq<Id>, guards: map<Id, Guard>, guards': map<Id, Guard>, sc: Id)
    requires forall k :: 0 <= k < |entered| ==> entered[k] in guards && entered[k] in guards' &&
                                                guards[entered[k]].src == guards'[entered[k]].src
    ensures EnteredIn(entered, guards, sc) == EnteredIn(entered, guards', sc)
  {
    if entered != [] {
      EnteredInFrame(entered[..|entered| - 1], guards, guards', sc);
    }
  }

  /** An entered context from scope sc makes the count positive. */
  lemma {:induction false} EnteredInPositive(entered: seq<Id>, guards: map<Id, Guard>, sc: Id, k: nat)
    requires k < |entered| && entered[k] in guards && guards[entered[k]].src == Local(sc)
    ensures EnteredIn(entered, guards, sc) > 0
  {
    if k < |entered| - 1 {
      EnteredInPositive(entered[..|entered| - 1], guards, sc, k);
    }
  }

  lemma {:induction false} EnteredInZero(entered: seq<Id>, guards: map<Id, Guard>, sc: Id)
    requires forall k :: 0 <= k < |entered| ==> entered[k] in guards && guards[entered[k]].src != Local(sc)
    ensures EnteredIn(entered, guards, sc) == 0
  {
    if entered != [] {
      EnteredInZero(entered[..|entered| - 1], guards, sc);
    }
  }

  lemma NothingEnteredFromNewScope(w: World, s: Id)
    requires Inv(w) && s !in w.scopes
    ensures EnteredIn(w.entered, w.guards, s) == 0
  {
    forall k | 0 <= k < |w.entered| ensures w.entered[k] in w.guards && w.guards[w.entered[k]].src != Local(s) {
      assert EnteredInv(w, k) && GuardInv(w, w.entered[k]);
    }
    EnteredInZero(w.entered, w.guards, s);
  }

  lemma EnteredInAfterEnter(w: World, g: Id, src: Source, s: Id)
    requires Inv(w) && g !in w.guards
    ensures var w' := EnteredFrom(w, g, src);
            EnteredIn(w'.entered, w'.guards, s) == EnteredIn(w.entered, w.guards, s) + if src == Local(s) then 1 else 0
  {
    var w' := EnteredFrom(w, g, src);
    assert w'.entered[..|w'.entered| - 1] == w.entered;
    forall k | 0 <= k < |w.entered| ensures w.entered[k] in w.guards {
      assert EnteredInv(w, k);
    }
    EnteredInFrame(w.entered, w.guards, w'.guards, s);
  }

  lemma EnteredInAfterExit(w: World, g: Id, s: Id)
    requires Inv(w) && CanExit(w, g)
    ensures var w' := Exited(w, g);
            EnteredIn(w.entered, w.guards, s) ==
            EnteredIn(w'.entered, w'.guards, s) + if w.guards[g].src == Local(s) then 1 else 0
  {
    var w' := Exited(w, g);
    forall k | 0 <= k < |w.entered| - 1 ensures w.entered[k] in w.guards {
      assert EnteredInv(w, k);
    }
    EnteredInFrame(w'.entered, w.guards, w'.guards, s);
  }

  lemma KeepScopes(w: World, w': World, op: Op)
    requires Inv(w) && Does(w, w', op)
    ensures forall s: Id :: ScopeInv(w', s)
  {
    assert |w.stack| > 0 ==> LevelInv(w, |w.stack| - 1);
    forall s: Id ensures ScopeInv(w', s) {
      assert ScopeInv(w, s) && CountInv(w, s);
    }
  }

  lemma KeepCounts(w: World, w': World, op: Op)
    requires Inv(w) && Does(w, w', op)
    ensures forall s: Id :: CountInv(w', s)
  {
    forall s: Id ensures CountInv(w', s) {
      assert CountInv(w, s);
      if s !in w.scopes {
        NothingEnteredFromNewScope(w, s);
      }
      match op
      case Enter(c, g) => EnteredInAfterEnter(w, g, Persistent(c), s);
      case EnterLocal(sc, g) => EnteredInAfterEnter(w, g, Local(sc), s);
      case Exit(g) => EnteredInAfterExit(w, g, s);
      case _ =>
    }
  }

  lemma KeepLevels(w: World, w': World, op: Op)
    requires Inv(w) && Does(w, w', op)
    ensures forall k: nat :: LevelInv(w', k)
  {
    assert |w.stack| > 0 ==> LevelInv(w, |w.stack| - 1);
    forall k: nat ensures LevelInv(w', k) {
      assert LevelInv(w, k);
      assert k < |w.stack| ==> ScopeInv(w, w.stack[k]);
      assert k > 0 ==> LevelInv(w, k - 1);
    }
  }

  lemma KeepGuards(w: World, w': World, op: Op)
    requires Inv(w) && Does(w, w', op)
    ensures forall g: Id :: GuardInv(w', g)
    ensures forall k: nat :: EnteredInv(w', k)
  {
    assert |w.entered| > 0 ==> EnteredInv(w, |w.entered| - 1);
    forall g: Id ensures GuardInv(w', g) {
      assert GuardInv(w, g);
    }
    forall k: nat ensures EnteredInv(w', k) {
      assert EnteredInv(w, k);
    }
  }

  lemma DoesKeepsInv(w: World, w': World, op: Op)
    requires Inv(w) && Does(w, w', op)
    ensures Inv(w')
  {
    KeepScopes(w, w', op);
    KeepCounts(w, w', op);
    KeepLevels(w, w', op);
    KeepGuards(w, w', op);
  }

  lemma NextKeepsInv()
    ensures forall w, w' :: Inv(w) && Next(w, w') ==> Inv(w')
  {
    forall w, w' | Inv(w) && Next(w, w') ensures Inv(w') {
      var op :| Does(w, w', op);
      DoesKeepsInv(w, w', op);
    }
  }

  lemma RunInv(trace: seq<World>)
    requires IsRun(Init, Next, trace)
    ensures forall n: nat :: n < |trace| ==> Inv(trace[n])
  {
    NextKeepsInv();
    Invariant(Init, Next, Inv, trace);
  }

  // ------------------------------------------------------------- theorems

  /** The stack holds distinct open scopes, and every open scope that is not
      borrowed, at the position where it was pushed. */
  lemma StackHoldsOpenScopes(trace: seq<World>, n: nat, s: Id, j: nat, k: nat)
    requires IsRun(Init, Next, trace) && n < |trace|
    ensures var w := trace[n];
            && (j < k < |w.stack| ==> w.stack[j] != w.stack[k])
            && (s in w.stack <==> Open(w, s) && w.scopes[s].kind != Borrowed)
  {
    var w := trace[n];
    RunInv(trace);
    assert LevelInv(w, j) && LevelInv(w, k) && ScopeInv(w, s);
    if s in w.stack {
      var i :| 0 <= i < |w.stack| && w.stack[i] == s;
      assert LevelInv(w, i);
    }
  }

  /** Between its destination and an escapable scope there are only escapable
      scopes with the same destination. */
  ghost predicate UnbrokenRun(w: World, o: Id, p: nat, k: nat) {
    && p < k < |w.stack| && w.stack[p] == o
    && forall j :: p < j <= k ==> w.stack[j] in w.scopes && w.scopes[w.stack[j]].kind == Escapable(o)
  }

  lemma {:induction false} RunAbove(w: World, o: Id, k: nat) returns (p: nat)
    requires Inv(w) && k < |w.stack| && w.stack[k] in w.scopes && w.scopes[w.stack[k]].kind == Escapable(o)
    requires o in w.scopes && w.scopes[o].kind == Ordinary
    ensures UnbrokenRun(w, o, p, k)
    decreases k
  {
    assert LevelInv(w, k);
    if w.stack[k - 1] == o {
      p := k - 1;
    } else {
      p := RunAbove(w, o, k - 1);
    }
  }

  /** Every escapable scope with an ordinary destination lies in an unbroken run
      of escapable scopes with that destination, directly above it; so the
      destination is open and cannot be closed before the escapable scope. */
  lemma EscapablesStandOnTheirDestination(trace: seq<World>, n: nat, e: Id)
    requires IsRun(Init, Next, trace) && n < |trace|
    requires Open(trace[n], e) && trace[n].scopes[e].kind.Escapable?
    requires var o := trace[n].scopes[e].kind.outer; o in trace[n].scopes && trace[n].scopes[o].kind == Ordinary
    ensures var w := trace[n];
            var o := w.scopes[e].kind.outer;
            && Open(w, o)
            && (exists p: nat, k: nat :: UnbrokenRun(w, o, p, k) && w.stack[k] == e)
            && !CanCloseScope(w, o)
            && (Innermost(w, e) ==> CanCloseEscapable(w, e))
  {
    var w := trace[n];
    var o := w.scopes[e].kind.outer;
    RunInv(trace);
    assert ScopeInv(w, e);
    var k := w.scopes[e].at;
    var p := RunAbove(w, o, k);
    var top: nat := |w.stack| - 1;
    assert LevelInv(w, p) && LevelInv(w, top);
  }

  // ------------------------------------------------- which calls are accepted

  /** From position p to the top of the stack there is scope s and above it only
      escapable scopes whose destination is s. */
  ghost predicate TopRun(w: World, s: Id, p: nat) {
    && p < |w.stack| && w.stack[p] == s
    && forall j :: p < j < |w.stack| ==> w.stack[j] in w.scopes && w.scopes[w.stack[j]].kind == Escapable(s)
  }

  /** A new escapable scope is accepted exactly for an open destination that is
      not escapable itself and is either borrowed, or has nothing above it on the
      stack but escapable scopes that escape to it. */
  lemma EscapableAcceptedIff(trace: seq<World>, n: nat, s: Id)
    requires IsRun(Init, Next, trace) && n < |trace|
    ensures var w := trace[n];
            CanEscapeTo(w, s) <==>
              && Open(w, s) && !w.scopes[s].kind.Escapable?
              && (w.scopes[s].kind == Borrowed || exists p: nat :: TopRun(w, s, p))
  {
    var w := trace[n];
    RunInv(trace);
    var top: nat := if |w.stack| > 0 then |w.stack| - 1 else 0;
    assert LevelInv(w, top);
    if CanEscapeTo(w, s) && w.scopes[s].kind != Borrowed {
      if Innermost(w, s) {
        assert TopRun(w, s, top);
      } else {
        var p := RunAbove(w, s, top);
        assert TopRun(w, s, p);
      }
    }
  }

  /** Step k escapes from scope e. */
  ghost predicate EscapesAt(trace: seq<World>, k: nat, e: Id) {
    k + 1 < |trace| && Does(trace[k], trace[k + 1], Escape(e))
  }

  predicate Escaped(w: World, e: Id) {
    e in w.scopes && w.scopes[e].escaped
  }

  lemma EscapeStep(w: World, w': World, e: Id)
    requires Inv(w) && Next(w, w')
    ensures Escaped(w', e) <==> Escaped(w, e) || Does(w, w', Escape(e))
  {
    var op :| Does(w, w', op);
    assert ScopeInv(w, e);
  }

  /** An escape is accepted exactly from an open escapable scope whose
      destination is open, if there was none from it before in the whole run. */
  lemma EscapesOnce(trace: seq<World>, n: nat, e: Id)
    requires IsRun(Init, Next, trace) && n < |trace|
    ensures var w := trace[n];
            CanEscape(w, e) <==>
              && Open(w, e) && w.scopes[e].kind.Escapable? && Open(w, w.scopes[e].kind.outer)
              && forall k: nat :: k < n ==> !EscapesAt(trace, k, e)
  {
    RunInv(trace);
    var event := (k: nat) => EscapesAt(trace, k, e);
    forall k: nat | k < n ensures Escaped(trace[k + 1], e) <==> Escaped(trace[k], e) || event(k) {
      assert StepAt(Next, trace, k);
      EscapeStep(trace[k], trace[k + 1], e);
    }
    RaisedBy((k: nat) => k < |trace| && Escaped(trace[k], e), event, 0, n);
    assert forall k: nat :: event(k) <==> EscapesAt(trace, k, e);
  }

  /** An ordinary scope is closed exactly if it is open, none of the entered
      contexts is a reference living in it, and every other open scope on the
      stack was opened before it. */
  lemma ScopeClosesIff(trace: seq<World>, n: nat, s: Id)
    requires IsRun(Init, Next, trace) && n < |trace|
    ensures var w := trace[n];
            CanCloseScope(w, s) <==>
              && Open(w, s) && w.scopes[s].kind == Ordinary
              && (forall k :: 0 <= k < |w.entered| ==>
                    w.entered[k] in w.guards && w.guards[w.entered[k]].src != Local(s))
              && forall u :: Open(w, u) && w.scopes[u].kind != Borrowed ==> w.scopes[u].at <= w.scopes[s].at
  {
    var w := trace[n];
    RunInv(trace);
    assert ScopeInv(w, s) && CountInv(w, s);
    forall k | 0 <= k < |w.entered| ensures w.entered[k] in w.guards {
      assert EnteredInv(w, k);
    }
    if Open(w, s) && w.scopes[s].kind == Ordinary {
      if k :| 0 <= k < |w.entered| && w.guards[w.entered[k]].src == Local(s) {
        EnteredInPositive(w.entered, w.guards, s, k);
      } else {
        EnteredInZero(w.entered, w.guards, s);
      }
      assert LevelInv(w, |w.stack| - 1);
      forall u | Open(w, u) && w.scopes[u].kind != Borrowed ensures w.scopes[u].at < |w.stack| {
        assert ScopeInv(w, u);
      }
    }
  }

  /** A context reference is entered exactly if its scope is open, not escapable,
      and fewer than 2^32 - 1 of the entered contexts live in it. */
  lemma LocalEntersIff(trace: seq<World>, n: nat, sc: Id)
    requires IsRun(Init, Next, trace) && n < |trace|
    ensures var w := trace[n];
            CanEnterLocal(w, sc) <==>
              Open(w, sc) && !w.scopes[sc].kind.Escapable? && EnteredIn(w.entered, w.guards, sc) < MAX_BORROWED
  {
    RunInv(trace);
    assert CountInv(trace[n], sc);
  }

  ghost predicate ClosesContextAt(trace: seq<World>, k: nat, c: Id) {
    k + 1 < |trace| && Does(trace[k], trace[k + 1], CloseContext(c))
  }

  predicate ContextClosed(w: World, c: Id) {
    c in w.contexts && w.contexts[c]
  }

  lemma CloseContextStep(w: World, w': World, c: Id)
    requires Next(w, w')
    ensures ContextClosed(w', c) <==> ContextClosed(w, c) || Does(w, w', CloseContext(c))
    ensures c in w.contexts ==> c in w'.contexts
  {
    var op :| Does(w, w', op);
  }

  /** A Context is entered, however often it is entered already, exactly as long
      as it has not been closed. */
  lemma ContextEntersIff(trace: seq<World>, n: nat, c: Id)
    requires IsRun(Init, Next, trace) && n < |trace| && c in trace[n].contexts
    ensures CanEnter(trace[n], c) <==> forall k: nat :: k < n ==> !ClosesContextAt(trace, k, c)
  {
    var event := (k: nat) => ClosesContextAt(trace, k, c);
    forall k: nat | k < n ensures ContextClosed(trace[k + 1], c) <==> ContextClosed(trace[k], c) || event(k) {
      assert StepAt(Next, trace, k);
      CloseContextStep(trace[k], trace[k + 1], c);
    }
    RaisedBy((k: nat) => k < |trace| && ContextClosed(trace[k], c), event, 0, n);
    assert forall k: nat :: event(k) <==> ClosesContextAt(trace, k, c);
  }

  /** Popping after a permitted close removes exactly the scope being closed. */
  lemma ClosePopsItsOwnScope(trace: seq<World>, n: nat, s: Id)
    requires IsRun(Init, Next, trace) && n < |trace|
    requires CanCloseScope(trace[n], s) || CanCloseEscapable(trace[n], s)
    ensures var w := trace[n];
            && w.stack == Popped(w).stack + [s]
            && s !in Popped(w).stack
            && forall u :: u in w.scopes && u != s ==> Popped(w).scopes[u] == w.scopes[u]
  {
    var w := trace[n];
    RunInv(trace);
    assert LevelInv(w, |w.stack| - 1);
    forall i | 0 <= i < |w.stack| - 1 ensures w.stack[i] != s {
      assert LevelInv(w, i);
    }
  }

  /** An innermost escapable scope cannot be closed exactly when its borrowed
      destination has expired. */
  lemma InnermostEscapableClosable(trace: seq<World>, n: nat, e: Id)
    requires IsRun(Init, Next, trace) && n < |trace|
    requires Open(trace[n], e) && trace[n].scopes[e].kind.Escapable? && Innermost(trace[n], e)
    ensures var w := trace[n];
            var o := w.scopes[e].kind.outer;
            && o in w.scopes
            && (!CanCloseEscapable(w, e) <==> w.scopes[o].kind == Borrowed && w.scopes[o].closed)
  {
    var w := trace[n];
    RunInv(trace);
    assert ScopeInv(w, e);
    if w.scopes[w.scopes[e].kind.outer].kind == Ordinary {
      EscapablesStandOnTheirDestination(trace, n, e);
    }
  }

  lemma ExpiredDestinationIsReachable()
    ensures exists w ::
              && Reached(Init, Next, w)
              && Open(w, 2) && w.scopes[2].kind == Escapable(1) && Innermost(w, 2) && !CanCloseEscapable(w, 2)
  {
    var w0 := Start();
    var w1 := w0.(scopes := map[1 := Scope(Borrowed, false, false, 0, 0)]);
    assert Does(w0, w1, EnterCallback(1));
    var w2 := Pushed(w1, 2, Escapable(1));
    assert Does(w1, w2, NewEscapable(1, 2));
    var w3 := w2.(scopes := w2.scopes[1 := w2.scopes[1].(closed := true)]);
    assert Does(w2, w3, LeaveCallback(1));
    Along(Next, [w0, w1, w2, w3]);
    assert Reached(Init, Next, w3);
  }

  /** A scope's counter is the number of entered contexts whose reference lives
      in it and fits 32 bits; a closed ordinary scope has none. */
  lemma CounterCountsEnteredContexts(trace: seq<World>, n: nat, s: Id, k: nat)
    requires IsRun(Init, Next, trace) && n < |trace| && s in trace[n].scopes
    ensures var w := trace[n];
            && w.scopes[s].contexts == EnteredIn(w.entered, w.guards, s) <= MAX_BORROWED
            && (w.scopes[s].kind == Ordinary && w.scopes[s].closed ==> w.scopes[s].contexts == 0)
            && (k < |w.entered| ==>
                  && w.entered[k] in w.guards
                  && (w.guards[w.entered[k]].src == Local(s) ==> !CanCloseScope(w, s)))
  {
    var w := trace[n];
    RunInv(trace);
    assert ScopeInv(w, s) && CountInv(w, s) && EnteredInv(w, k);
    if k < |w.entered| && w.guards[w.entered[k]].src == Local(s) {
      EnteredInPositive(w.entered, w.guards, s, k);
    }
  }

  /** Guard b was entered after guard a and a is still entered as long as b is. */
  ghost predicate Nested(w: World, a: Id, b: Id) {
    && a in w.guards && b in w.guards && w.guards[a].at < w.guards[b].at
    && (!w.guards[b].closed ==> !w.guards[a].closed)
  }

  lemma NestedStep(w: World, w': World, a: Id, b: Id)
    requires Inv(w) && Next(w, w') && Nested(w, a, b)
    ensures Nested(w', a, b)
  {
    var op :| Does(w, w', op);
    assert GuardInv(w, a) && GuardInv(w, b);
    assert |w.entered| > 0 ==> EnteredInv(w, |w.entered| - 1);
  }

  /** Contexts exit in reverse enter order. */
  lemma ContextsExitInReverse(trace: seq<World>, n: nat, m: nat, a: nat, b: nat)
    requires IsRun(Init, Next, trace) && n <= m < |trace| && a < b < |trace[n].entered|
    ensures var x, y := trace[n].entered[a], trace[n].entered[b];
            x in trace[m].guards && y in trace[m].guards && (trace[m].guards[x].closed ==> trace[m].guards[y].closed)
  {
    var x, y := trace[n].entered[a], trace[n].entered[b];
    RunInv(trace);
    assert EnteredInv(trace[n], a) && EnteredInv(trace[n], b);
    var inv := (w: World) => Inv(w) && Nested(w, x, y);
    NextKeepsInv();
    forall w, w' | inv(w) && Next(w, w') ensures inv(w') {
      NestedStep(w, w', x, y);
    }
    StableAlongPath(Next, inv, trace, n, m);
  }

  /** The innermost entered context. */
  predicate Last(w: World, g: Id) {
    |w.entered| > 0 && w.entered[|w.entered| - 1] == g
  }

  /** The innermost entered context is refused exit exactly if its Context was
      closed, or its reference came from a borrowed scope that has expired. */
  lemma InnermostContextExitable(trace: seq<World>, n: nat, g: Id)
    requires IsRun(Init, Next, trace) && n < |trace| && Last(trace[n], g)
    ensures var w := trace[n];
            && g in w.guards
            && (!CanExit(w, g) <==>
                match w.guards[g].src
                case Persistent(c) => c in w.contexts && w.contexts[c]
                case Local(sc) => sc in w.scopes && w.scopes[sc].kind == Borrowed && w.scopes[sc].closed)
  {
    var w := trace[n];
    RunInv(trace);
    assert EnteredInv(w, |w.entered| - 1) && GuardInv(w, g);
    if w.guards[g].src.Local? {
      var sc := w.guards[g].src.sc;
      assert ScopeInv(w, sc) && CountInv(w, sc);
      EnteredInPositive(w.entered, w.guards, sc, |w.entered| - 1);
    }
  }

  /** What src needs has been closed, for good. */
  ghost predicate Dead(w: World, src: Source) {
    match src
    case Persistent(c) => c in w.contexts && w.contexts[c]
    case Local(sc) => sc in w.scopes && w.scopes[sc].closed
  }

  /** entered is a prefix of what is entered, and its innermost context can never be exited. */
  ghost predicate Stuck(w: World, entered: seq<Id>) {
    && |entered| > 0 && entered <= w.entered
    && var g := entered[|entered| - 1]; g in w.guards && Dead(w, w.guards[g].src)
  }

  lemma StuckStep(w: World, w': World, entered: seq<Id>)
    requires Next(w, w') && Stuck(w, entered)
    ensures Stuck(w', entered)
  {
    var op :| Does(w, w', op);
    assert w.entered[|entered| - 1] == entered[|entered| - 1];
    match op
    case Exit(g) => assert |w.entered| > |entered|;
    case _ =>
  }

  /** A context that is refused exit keeps every context entered below it, and
      itself, entered for ever. */
  lemma RefusedContextStaysEntered(trace: seq<World>, n: nat, m: nat, g: Id)
    requires IsRun(Init, Next, trace) && n <= m < |trace| && Last(trace[n], g) && !CanExit(trace[n], g)
    ensures trace[n].entered <= trace[m].entered
  {
    var entered := trace[n].entered;
    InnermostContextExitable(trace, n, g);
    forall w, w' | Stuck(w, entered) && Next(w, w') ensures Stuck(w', entered) {
      StuckStep(w, w', entered);
    }
    StableAlongPath(Next, w => Stuck(w, entered), trace, n, m);
  }

  lemma ClosedContextIsReachable()
    ensures exists w ::
              && Reached(Init, Next, w)
              && Last(w, 1) && 1 in w.guards && w.guards[1] == Guard(Persistent(0), false, 0) && !CanExit(w, 1)
  {
    var w1 := Start().(contexts := map[0 := false]);
    assert Does(Start(), w1, NewContext(0));
    var w2 := EnteredFrom(w1, 1, Persistent(0));
    assert Does(w1, w2, Enter(0, 1));
    var w3 := w2.(contexts := w2.contexts[0 := true]);
    assert Does(w2, w3, CloseContext(0));
    Along(Next, [Start(), w1, w2, w3]);
    assert Reached(Init, Next, w3);
  }

  lemma ExpiredReferenceIsReachable()
    ensures exists w ::
              && Reached(Init, Next, w)
              && Last(w, 2) && 2 in w.guards && w.guards[2] == Guard(Local(1), false, 0) && !CanExit(w, 2)
  {
    var w1 := Start().(scopes := map[1 := Scope(Borrowed, false, false, 0, 0)]);
    assert Does(Start(), w1, EnterCallback(1));
    var w2 := EnteredFrom(w1, 2, Local(1));
    assert Does(w1, w2, EnterLocal(1, 2));
    var w3 := w2.(scopes := w2.scopes[1 := w2.scopes[1].(closed := true)]);
    assert Does(w2, w3, LeaveCallback(1));
    Along(Next, [Start(), w1, w2, w3]);
    assert Reached(Init, Next, w3);
  }

  // ------------------------------------------------------------ the object

  datatype Error =
    | UsedAfterClose | AlreadyClosed | NotInnermost | NotDestination | EscapedTwice
    | ClosingBorrowed | ContextStillEntered | TooManyContexts | OutOfOrder | NativeFailure

  /** An isolate's scope bookkeeping. The last argument of a method is the
      outcome of its native call; next is the identity of the next object. */
  class Isolate {
    var stack: seq<Id>
    var scopes: map<Id, Scope>
    var entered: seq<Id>
    var guards: map<Id, Guard>
    var contexts: map<Id, bool>
    var next: Id

    ghost function View(): World
      reads this
    {
      World(stack, scopes, entered, guards, contexts)
    }

    ghost predicate Valid()
      reads this
    {
      && Inv(View())
      && (forall s :: s in scopes ==> s < next)
      && (forall g :: g in guards ==> g < next)
      && (forall c :: c in contexts ==> c < next)
    }

    constructor ()
      ensures Valid() && Init(View())
    {
      stack, scopes, entered, guards, contexts, next := [], map[], [], map[], map[], 0;
    }

    method NewScope(native: bool) returns (r: Result<Id, Error>)
      requires Valid()
      modifies this
      ensures Valid() && (r.Ok? <==> native)
      ensures r.Ok? ==> Does(old(View()), View(), Op.NewScope(r.value))
      ensures r.Err? ==> View() == old(View())
    {
      if !native {
        return Err(NativeFailure);
      }
      var s := next;
      DoesKeepsInv(View(), Pushed(View(), s, Ordinary), Op.NewScope(s));
      scopes := scopes[s := Scope(Ordinary, false, false, 0, |stack|)];
      stack := stack + [s];
      next := next + 1;
      return Ok(s);
    }

    method NewEscapableScope(s: Id, native: bool) returns (r: Result<Id, Error>)
      requires Valid() && s in scopes && !scopes[s].kind.Escapable?
      modifies this
      ensures Valid() && (r.Ok? <==> old(CanEscapeTo(View(), s)) && native)
      ensures r.Ok? ==> Does(old(View()), View(), NewEscapable(s, r.value))
      ensures r.Err? ==> View() == old(View())
    {
      if scopes[s].closed {
        return Err(UsedAfterClose);
      }
      assert forall k: nat :: LevelInv(View(), k);
      if scopes[s].kind != Borrowed && (|stack| == 0 || stack[|stack| - 1] != s) {
        assert |stack| > 0 ==> LevelInv(View(), |stack| - 1);
        if |stack| == 0 || scopes[stack[|stack| - 1]].kind != Escapable(s) {
          return Err(NotDestination);
        }
      }
      if !native {
        return Err(NativeFailure);
      }
      var e := next;
      DoesKeepsInv(View(), Pushed(View(), e, Escapable(s)), NewEscapable(s, e));
      scopes := scopes[e := Scope(Escapable(s), false, false, 0, |stack|)];
      stack := stack + [e];
      next := next + 1;
      return Ok(e);
    }

    method Escape(e: Id, native: bool) returns (r: Result<(), Error>)
      requires Valid() && e in scopes && scopes[e].kind.Escapable?
      modifies this
      ensures Valid() && (r.Ok? <==> old(CanEscape(View(), e)) && native)
      ensures r.Ok? ==> Does(old(View()), View(), Op.Escape(e))
      ensures r.Err? ==> View() == old(View())
    {
      assert ScopeInv(View(), e);
      if scopes[scopes[e].kind.outer].closed || scopes[e].closed {
        return Err(UsedAfterClose);
      }
      if scopes[e].escaped {
        return Err(EscapedTwice);
      }
      if !native {
        return Err(NativeFailure);
      }
      DoesKeepsInv(View(), View().(scopes := scopes[e := scopes[e].(escaped := true)]), Op.Escape(e));
      scopes := scopes[e := scopes[e].(escaped := true)];
      return Ok(());
    }

    /** A failing native exit still closes and pops. */
    method CloseScope(s: Id, native: bool) returns (r: Result<(), Error>)
      requires Valid() && s in scopes && !scopes[s].kind.Escapable?
      modifies this
      ensures Valid() && (r.Ok? <==> old(CanCloseScope(View(), s)) && native)
      ensures old(CanCloseScope(View(), s)) ==> Does(old(View()), View(), Op.CloseScope(s))
      ensures !old(CanCloseScope(View(), s)) ==> View() == old(View())
    {
      if scopes[s].closed {
        return Err(AlreadyClosed);
      }
      if scopes[s].kind == Borrowed {
        return Err(ClosingBorrowed);
      }
      if scopes[s].contexts != 0 {
        return Err(ContextStillEntered);
      }
      if |stack| == 0 || stack[|stack| - 1] != s {
        return Err(NotInnermost);
      }
      DoesKeepsInv(View(), Popped(View()), Op.CloseScope(s));
      scopes := scopes[s := scopes[s].(closed := true)];
      stack := stack[..|stack| - 1];
      return if native then Ok(()) else Err(NativeFailure);
    }

    method CloseEscapable(e: Id, native: bool) returns (r: Result<(), Error>)
      requires Valid() && e in scopes && scopes[e].kind.Escapable?
      modifies this
      ensures Valid() && (r.Ok? <==> old(CanCloseEscapable(View(), e)) && native)
      ensures old(CanCloseEscapable(View(), e)) ==> Does(old(View()), View(), Op.CloseEscapable(e))
      ensures !old(CanCloseEscapable(View(), e)) ==> View() == old(View())
    {
      assert ScopeInv(View(), e);
      if scopes[scopes[e].kind.outer].closed {
        return Err(UsedAfterClose);
      }
      if scopes[e].closed {
        return Err(AlreadyClosed);
      }
      if |stack| == 0 || stack[|stack| - 1] != e {
        return Err(NotInnermost);
      }
      DoesKeepsInv(View(), Popped(View()), Op.CloseEscapable(e));
      scopes := scopes[e := scopes[e].(closed := true)];
      stack := stack[..|stack| - 1];
      return if native then Ok(()) else Err(NativeFailure);
    }

    method NewContext(native: bool) returns (r: Result<Id, Error>)
      requires Valid()
      modifies this
      ensures Valid() && (r.Ok? <==> native)
      ensures r.Ok? ==> Does(old(View()), View(), Op.NewContext(r.value))
      ensures r.Err? ==> View() == old(View())
    {
      if !native {
        return Err(NativeFailure);
      }
      var c := next;
      DoesKeepsInv(View(), View().(contexts := contexts[c := false]), Op.NewContext(c));
      contexts := contexts[c := false];
      next := next + 1;
      return Ok(c);
    }

    /** Context.Close: a failing native dispose still closes, and an entered Context is closed too. */
    method CloseContext(c: Id, native: bool) returns (r: Result<(), Error>)
      requires Valid() && c in contexts
      modifies this
      ensures Valid() && (r.Ok? <==> !old(contexts[c]) && native)
      ensures c in contexts && contexts[c] && View() == old(View()).(contexts := contexts)
      ensures forall g :: g in guards && guards[g].src == Persistent(c) ==> !CanExit(View(), g)
    {
      if contexts[c] {
        return Err(AlreadyClosed);
      }
      DoesKeepsInv(View(), View().(contexts := contexts[c := true]), Op.CloseContext(c));
      contexts := contexts[c := true];
      return if native then Ok(()) else Err(NativeFailure);
    }

    method Enter(c: Id, native: bool) returns (r: Result<Id, Error>)
      requires Valid() && c in contexts
      modifies this
      ensures Valid() && (r.Ok? <==> old(CanEnter(View(), c)) && native)
      ensures r.Ok? ==> Does(old(View()), View(), Op.Enter(c, r.value))
      ensures r.Err? ==> View() == old(View())
    {
      if contexts[c] {
        return Err(UsedAfterClose);
      }
      if !native {
        return Err(NativeFailure);
      }
      var g := next;
      DoesKeepsInv(View(), EnteredFrom(View(), g, Persistent(c)), Op.Enter(c, g));
      guards := guards[g := Guard(Persistent(c), false, |entered|)];
      entered := entered + [g];
      next := next + 1;
      return Ok(g);
    }

    /** ContextRef.Enter: the counter is raised before the native call and lowered if it fails. */
    method EnterLocal(sc: Id, native: bool) returns (r: Result<Id, Error>)
      requires Valid() && sc in scopes && !scopes[sc].kind.Escapable?
      modifies this
      ensures Valid() && (r.Ok? <==> old(CanEnterLocal(View(), sc)) && native)
      ensures r.Ok? ==> Does(old(View()), View(), Op.EnterLocal(sc, r.value))
      ensures r.Err? ==> View() == old(View())
    {
      if scopes[sc].closed {
        return Err(UsedAfterClose);
      }
      if scopes[sc].contexts == MAX_BORROWED {
        return Err(TooManyContexts);
      }
      assert CountInv(View(), sc);
      ghost var before := View();
      scopes := scopes[sc := scopes[sc].(contexts := scopes[sc].contexts + 1)];
      if !native {
        scopes := scopes[sc := scopes[sc].(contexts := scopes[sc].contexts - 1)];
        assert scopes == before.scopes;
        return Err(NativeFailure);
      }
      var g := next;
      DoesKeepsInv(before, EnteredFrom(before, g, Local(sc)), Op.EnterLocal(sc, g));
      guards := guards[g := Guard(Local(sc), false, |entered|)];
      entered := entered + [g];
      next := next + 1;
      return Ok(g);
    }

    /** ContextScope.Close; a failing native exit changes nothing. */
    method Exit(g: Id, native: bool) returns (r: Result<(), Error>)
      requires Valid() && g in guards
      modifies this
      ensures Valid() && (r.Ok? <==> old(CanExit(View(), g)) && native)
      ensures r.Ok? ==> Does(old(View()), View(), Op.Exit(g))
      ensures r.Err? ==> View() == old(View())
    {
      var src := guards[g].src;
      assert GuardInv(View(), g);
      if guards[g].closed {
        return Err(AlreadyClosed);
      }
      if (src.Persistent? && contexts[src.c]) || (src.Local? && scopes[src.sc].closed) {
        return Err(UsedAfterClose);
      }
      if |entered| == 0 || entered[|entered| - 1] != g {
        return Err(OutOfOrder);
      }
      if !native {
        return Err(NativeFailure);
      }
      DoesKeepsInv(View(), Exited(View(), g), Op.Exit(g));
      entered := entered[..|entered| - 1];
      if src.Local? {
        assert CountInv(old(View()), src.sc);
        EnteredInPositive(old(entered), guards, src.sc, |old(entered)| - 1);
        scopes := scopes[src.sc := scopes[src.sc].(contexts := scopes[src.sc].contexts - 1)];
      }
      guards := guards[g := guards[g].(closed := true)];
      return Ok(());
    }
  }
}
