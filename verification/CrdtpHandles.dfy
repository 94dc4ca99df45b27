/**
 Linear ownership of CRDTP response and serializable handles (crdtp.go,
 SendResponse in crdtp_dispatcher.go). Both types carry the same fields and
 the same rules; every method below is one critical section of their mutex,
 so any interleaving on one handle is a sequence of these methods.
 */
module CrdtpHandles {
  import opened Wrappers

  datatype Error = Consumed | Closed | InvalidOwnership

  /** What native code was told to do with a handle for good. */
  datatype Fate = Deleted(h: nat) | Taken(h: nat)

  /** The fields of one handle object and the fates its native handle has met. */
  datatype Handle = Handle(handle: nat, closed: bool, consumed: bool, fates: seq<Fate>)

  /** took: whether the native call of a consuming operation took the handle. */
  datatype Op = Query | Close | Consume(took: bool) | Detach(took: bool)

  /** withHandle. */
  function Access(x: Handle): Result<nat, Error> {
    if x.consumed then Err(Error.Consumed)
    else if x.closed || x.handle == 0 then Err(Error.Closed)
    else Ok(x.handle)
  }

  function Taking(x: Handle, took: bool): seq<Fate> {
    if took then x.fates + [Taken(x.handle)] else x.fates
  }

  function Apply(x: Handle, op: Op): Handle {
    match op
    case Query => x
    case Close =>
      if x.closed || x.consumed then x
      else Handle(0, true, false, if x.handle == 0 then x.fates else x.fates + [Deleted(x.handle)])
    case Consume(took) =>
      if Access(x).Ok? && took then Handle(0, x.closed, true, Taking(x, true)) else x
    case Detach(took) =>
      if Access(x).Ok? then Handle(0, x.closed, true, Taking(x, took)) else x
  }

  function Run(x: Handle, ops: seq<Op>): Handle
    decreases |ops|
  {
    if ops == [] then x else Apply(Run(x, ops[..|ops| - 1]), ops[|ops| - 1])
  }

  function New(h: nat): Handle {
    Handle(h, false, false, [])
  }

  /** Exactly one of three: still owned, closed, consumed. */
  predicate Linear(x: Handle, h: nat) {
    || x == Handle(h, false, false, [])
    || x == Handle(0, true, false, [Deleted(h)])
    || (x.handle == 0 && !x.closed && x.consumed && x.fates in {[], [Taken(h)]})
  }

  lemma {:induction false} RunIsLinear(h: nat, ops: seq<Op>)
    requires h != 0
    ensures Linear(Run(New(h), ops), h)
  {
    if ops != [] {
      RunIsLinear(h, ops[..|ops| - 1]);
      assert [] + [Deleted(h)] == [Deleted(h)] && [] + [Taken(h)] == [Taken(h)];
    }
  }

  /** Whatever is called, in whatever order, the native handle is deleted or
      taken at most once in all, and it is reachable exactly while neither has
      happened and no send has detached it. */
  lemma {:induction false} GivenAwayAtMostOnce(h: nat, ops: seq<Op>)
    requires h != 0
    ensures var x := Run(New(h), ops);
            && |x.fates| <= 1
            && (Access(x).Ok? <==> !x.closed && !x.consumed)
            && (Access(x).Ok? ==> x.fates == [] && Access(x) == Ok(h))
  {
    RunIsLinear(h, ops);
  }

  lemma {:induction false} RunAppends(x: Handle, ops: seq<Op>, more: seq<Op>)
    ensures Run(x, ops + more) == Run(Run(x, ops), more)
    decreases |more|
  {
    if more == [] {
      assert ops + more == ops;
    } else {
      RunAppends(x, ops, more[..|more| - 1]);
      assert (ops + more)[..|ops + more| - 1] == ops + more[..|more| - 1];
    }
  }

  lemma {:induction false} DeadRun(x: Handle, more: seq<Op>)
    requires x.handle == 0 && (x.closed || x.consumed)
    ensures Run(x, more) == x
    decreases |more|
  {
    if more != [] {
      DeadRun(x, more[..|more| - 1]);
    }
  }

  /** Once access is refused nothing changes any more: no later call reaches native code with the handle. */
  lemma RefusedForGood(h: nat, ops: seq<Op>, more: seq<Op>)
    requires h != 0 && Access(Run(New(h), ops)).Err?
    ensures Run(New(h), ops + more) == Run(New(h), ops)
  {
    RunIsLinear(h, ops);
    RunAppends(New(h), ops, more);
    DeadRun(Run(New(h), ops), more);
  }

  /** What a call does to a handle that is still owned, after any sequence of
      calls: Close deletes it natively and refuses access; a consuming call that
      took it, and a send, refuse access as consumed; every other call leaves it. */
  lemma CallEffect(h: nat, ops: seq<Op>, op: Op)
    requires h != 0 && Access(Run(New(h), ops)).Ok?
    ensures var x := Run(New(h), ops + [op]);
            match op
            case Query => x == New(h)
            case Close => x.fates == [Deleted(h)] && Access(x) == Err(Error.Closed)
            case Consume(took) =>
              if took then x.fates == [Taken(h)] && Access(x) == Err(Error.Consumed) else x == New(h)
            case Detach(took) => x.fates == (if took then [Taken(h)] else []) && Access(x) == Err(Error.Consumed)
  {
    RunIsLinear(h, ops);
    assert (ops + [op])[..|ops + [op]| - 1] == ops;
    assert [] + [Deleted(h)] == [Deleted(h)] && [] + [Taken(h)] == [Taken(h)];
  }

  /** The handle is still owned exactly if every call so far left it untouched. */
  lemma OwnedAllAlong(h: nat, ops: seq<Op>)
    requires h != 0
    ensures Access(Run(New(h), ops)).Ok? <==> forall k: nat :: k <= |ops| ==> Run(New(h), ops[..k]) == New(h)
  {
    RunIsLinear(h, ops);
    assert ops[..|ops|] == ops;
    if Access(Run(New(h), ops)).Ok? {
      forall k: nat | k <= |ops| ensures Run(New(h), ops[..k]) == New(h) {
        RunIsLinear(h, ops[..k]);
        assert ops[..k] + ops[k..] == ops;
        RunAppends(New(h), ops[..k], ops[k..]);
        if Access(Run(New(h), ops[..k])).Err? {
          DeadRun(Run(New(h), ops[..k]), ops[k..]);
        }
      }
    }
  }

  // ----------------------------------------------------------- the objects

  /** CRDTPDispatchResponse and CRDTPSerializable. born is the native handle it
      was made for and calls lists every call made on it so far. */
  class Owned {
    var handle: nat
    var closed: bool
    var consumed: bool
    ghost var fates: seq<Fate>
    ghost const born: nat
    ghost var calls: seq<Op>

    ghost function View(): Handle
      reads this
    {
      Handle(handle, closed, consumed, fates)
    }

    ghost predicate Valid()
      reads this
    {
      born != 0 && View() == Run(New(born), calls)
    }

    constructor (h: nat)
      requires h != 0
      ensures Valid() && View() == New(h) && born == h && calls == []
    {
      handle, closed, consumed, fates, born, calls := h, false, false, [], h, [];
    }

    method Checked() returns (r: Result<nat, Error>)
      ensures r == Access(View())
    {
      if consumed {
        return Err(Error.Consumed);
      }
      if closed || handle == 0 {
        return Err(Error.Closed);
      }
      return Ok(handle);
    }

    /** The handle is available exactly if no call so far has deleted, taken or
        detached it, and then it is the one the object was made for; once it is
        refused, no sequence of calls changes anything any more. */
    method WithHandle() returns (r: Result<nat, Error>)
      requires Valid()
      ensures r == Access(View())
      ensures r.Ok? <==> forall k: nat :: k <= |calls| ==> Run(New(born), calls[..k]) == New(born)
      ensures r.Ok? ==> r.value == born && fates == []
      ensures r.Err? ==> forall more: seq<Op> :: Run(View(), more) == View()
    {
      RunIsLinear(born, calls);
      OwnedAllAlong(born, calls);
      if Access(View()).Err? {
        forall more: seq<Op> ensures Run(View(), more) == View() {
          DeadRun(View(), more);
        }
      }
      r := Checked();
    }

    /** called: the native delete was called. */
    method Close() returns (called: bool)
      requires Valid()
      modifies this
      ensures Valid() && calls == old(calls) + [Op.Close] && View() == Apply(old(View()), Op.Close)
      ensures called <==> old(Access(View())).Ok?
      ensures fates == old(fates) + if called then [Deleted(born)] else []
      ensures Access(View()).Err?
    {
      RunIsLinear(born, calls);
      calls := calls + [Op.Close];
      assert calls[..|calls| - 1] == old(calls);
      if closed || consumed {
        return false;
      }
      closed := true;
      var h := handle;
      handle := 0;
      if h == 0 {
        return false;
      }
      fates := fates + [Deleted(h)];
      return true;
    }

    /** consumeCRDTPResponse and consumeCRDTPParams: word is the native consumed
        output, out the new native handle. */
    method Consume(word: int, failed: bool, out: nat) returns (r: Result<nat, Error>)
      requires Valid()
      modifies this
      ensures Valid() && calls == old(calls) + [Op.Consume(word == 1)]
      ensures View() == Apply(old(View()), Op.Consume(word == 1))
      ensures r.Ok? <==> old(Access(View())).Ok? && word == 1 && !failed && out != 0
      ensures r.Ok? ==> r.value == out
      ensures old(Access(View())).Ok? && word == 1 ==> fates == [Taken(born)] && Access(View()) == Err(Error.Consumed)
      ensures word != 1 ==> View() == old(View())
    {
      RunIsLinear(born, calls);
      var h := Checked();
      calls := calls + [Op.Consume(word == 1)];
      assert calls[..|calls| - 1] == old(calls);
      if h.Err? {
        return Err(h.error);
      }
      if word == 1 {
        fates := fates + [Taken(handle)];
        consumed := true;
        handle := 0;
      } else if word != 0 {
        return Err(InvalidOwnership);
      }
      if failed || word != 1 || out == 0 {
        return Err(InvalidOwnership);
      }
      return Ok(out);
    }

    /** A send takes the handle out of the object before the native call. */
    method Detach(took: bool)
      requires Valid() && Access(View()).Ok?
      modifies this
      ensures Valid() && calls == old(calls) + [Op.Detach(took)]
      ensures View() == Apply(old(View()), Op.Detach(took))
      ensures fates == (if took then [Taken(born)] else []) && Access(View()) == Err(Error.Consumed)
    {
      RunIsLinear(born, calls);
      calls := calls + [Op.Detach(took)];
      assert calls[..|calls| - 1] == old(calls);
      fates := if took then fates + [Taken(handle)] else fates;
      consumed := true;
      handle := 0;
    }
  }

  /** The handle part of SendResponse: both handles are checked before either is
      detached, so a refused send leaves both as they were. */
  method SendResponse(response: Owned, result: Owned?, tookResponse: bool, tookResult: bool)
    returns (r: Result<(nat, nat), Error>)
    requires response != result && response.Valid() && (result != null ==> result.Valid())
    modifies response, result
    ensures response.Valid() && (result != null ==> result.Valid())
    ensures r.Ok? <==> old(Access(response.View())).Ok? && (result != null ==> old(Access(result.View())).Ok?)
    ensures r.Ok? ==>
              && response.View() == Apply(old(response.View()), Op.Detach(tookResponse))
              && (result != null ==> result.View() == Apply(old(result.View()), Op.Detach(tookResult)))
              && r.value == (response.born, if result != null then result.born else 0)
              && Access(response.View()) == Err(Error.Consumed)
              && (result != null ==> Access(result.View()) == Err(Error.Consumed))
    ensures r.Err? ==> unchanged(response) && (result != null ==> unchanged(result))
  {
    RunIsLinear(response.born, response.calls);
    if result != null {
      RunIsLinear(result.born, result.calls);
    }
    var first := response.Checked();
    if first.Err? {
      return Err(first.error);
    }
    var resultHandle := 0;
    if result != null {
      var second := result.Checked();
      if second.Err? {
        return Err(second.error);
      }
      resultHandle := second.value;
      result.Detach(tookResult);
    }
    response.Detach(tookResponse);
    return Ok((first.value, resultHandle));
  }
}
