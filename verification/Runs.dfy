/**
 Runs of a transition system: every component whose source runs on several
 threads is modelled by an initial-state predicate and a step relation, and
 what it promises is proved of every state of every run.
 */
module Runs {

  ghost predicate StepAt<S(!new)>(next: (S, S) -> bool, path: seq<S>, i: nat)
    requires i < |path| - 1
  {
    next(path[i], path[i + 1])
  }

  /** Consecutive steps, from wherever they start. */
  ghost predicate IsPath<S(!new)>(next: (S, S) -> bool, path: seq<S>) {
    |path| > 0 && forall i: nat :: i < |path| - 1 ==> StepAt(next, path, i)
  }

  /** A run starts in an initial state. */
  ghost predicate IsRun<S(!new)>(init: S -> bool, next: (S, S) -> bool, trace: seq<S>) {
    IsPath(next, trace) && init(trace[0])
  }

  /** A property that every step keeps holds from wherever it first holds. */
  lemma {:induction false} StableAlongPath<S(!new)>(
    next: (S, S) -> bool, inv: S -> bool, path: seq<S>, j: nat, k: nat)
    requires IsPath(next, path)
    requires forall s, s' :: inv(s) && next(s, s') ==> inv(s')
    requires j <= k < |path|
    requires inv(path[j])
    ensures inv(path[k])
  {
    if j < k {
      StableAlongPath(next, inv, path, j, k - 1);
      assert StepAt(next, path, k - 1);
    }
  }

  /** What holds at the start and is kept by every step holds in every state of every run. */
  lemma Invariant<S(!new)>(init: S -> bool, next: (S, S) -> bool, inv: S -> bool, trace: seq<S>)
    requires IsRun(init, next, trace)
    requires forall s :: init(s) ==> inv(s)
    requires forall s, s' :: inv(s) && next(s, s') ==> inv(s')
    ensures forall n: nat :: n < |trace| ==> inv(trace[n])
  {
    forall n: nat | n < |trace| ensures inv(trace[n]) {
      StableAlongPath(next, inv, trace, 0, n);
    }
  }

  ghost predicate Connects<S(!new)>(next: (S, S) -> bool, path: seq<S>, a: S, b: S) {
    IsPath(next, path) && path[0] == a && path[|path| - 1] == b
  }

  /** Some path leads from a to b. */
  ghost predicate Leads<S(!new)>(next: (S, S) -> bool, a: S, b: S) {
    exists path: seq<S> :: Connects(next, path, a, b)
  }

  /** Some run ends in s. */
  ghost predicate Reached<S(!new)>(init: S -> bool, next: (S, S) -> bool, s: S) {
    exists a :: init(a) && Leads(next, a, s)
  }

  lemma Along<S(!new)>(next: (S, S) -> bool, path: seq<S>)
    requires IsPath(next, path)
    ensures Leads(next, path[0], path[|path| - 1])
  {
    assert Connects(next, path, path[0], path[|path| - 1]);
  }

  lemma Through<S(!new)>(next: (S, S) -> bool, a: S, b: S, c: S)
    requires Leads(next, a, b) && Leads(next, b, c)
    ensures Leads(next, a, c)
  {
    var p :| Connects(next, p, a, b);
    var q :| Connects(next, q, b, c);
    var path := p + q[1..];
    forall i: nat | i < |path| - 1 ensures StepAt(next, path, i) {
      if i < |p| - 1 {
        assert StepAt(next, p, i);
      } else {
        assert StepAt(next, q, i - (|p| - 1));
      }
    }
    assert Connects(next, path, a, c);
  }

  /** The states of a run are those a run ends in. */
  lemma ReachedInRun<S(!new)>(init: S -> bool, next: (S, S) -> bool, trace: seq<S>, n: nat)
    requires IsRun(init, next, trace) && n < |trace|
    ensures Reached(init, next, trace[n])
  {
    var path := trace[..n + 1];
    forall i: nat | i < |path| - 1 ensures StepAt(next, path, i) {
      assert StepAt(next, trace, i);
    }
    assert Connects(next, path, trace[0], trace[n]);
  }

  /** A property that every step keeps holds wherever a path leads. */
  lemma StableThrough<S(!new)>(next: (S, S) -> bool, inv: S -> bool, a: S, b: S)
    requires forall s, s' :: inv(s) && next(s, s') ==> inv(s')
    requires inv(a) && Leads(next, a, b)
    ensures inv(b)
  {
    var path :| Connects(next, path, a, b);
    StableAlongPath(next, inv, path, 0, |path| - 1);
  }

  /** If every good state that is not yet done has a good successor of lower
      rank, a good state that is done can be reached. */
  lemma {:induction false} Descend<S(!new)>(
    next: (S, S) -> bool, good: S -> bool, done: S -> bool, rank: S -> nat, s: S)
    requires good(s)
    requires forall x :: good(x) && !done(x) ==> exists x' :: next(x, x') && good(x') && rank(x') < rank(x)
    ensures exists x :: Leads(next, s, x) && good(x) && done(x)
    decreases rank(s)
  {
    if done(s) {
      Along(next, [s]);
    } else {
      var s' :| next(s, s') && good(s') && rank(s') < rank(s);
      Descend(next, good, done, rank, s');
      var x :| Leads(next, s', x) && good(x) && done(x);
      Along(next, [s, s']);
      Through(next, s, s', x);
    }
  }

  /** A flag that only event e raises, and that stays up, is up exactly if e has happened. */
  lemma {:induction false} RaisedBy(flag: nat -> bool, e: nat -> bool, j: nat, n: nat)
    requires j <= n && !flag(j)
    requires forall k: nat :: j <= k < n ==> (flag(k + 1) <==> flag(k) || e(k))
    ensures flag(n) <==> exists k: nat :: j <= k < n && e(k)
    decreases n
  {
    if j < n {
      RaisedBy(flag, e, j, n - 1);
    }
  }
}
