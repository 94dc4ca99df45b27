/**
 Fast-call signatures (fast_api.go): validation of type metadata and of
 signatures, and the flattening of an overload list into one argument array
 with an offset and a count per function.
 */
module FastApi {
  import opened Wrappers

  type Byte = x: int | 0 <= x < 0x100

  const ANY: Byte := 13
  const CALLBACK_OPTIONS: Byte := 255
  const FLOAT32: Byte := 7
  const FLOAT64: Byte := 8
  const U32_LIMIT: nat := 0x1_0000_0000

  datatype Error =
    | InvalidType | InvalidFlags | OptionsWithFlags | RangeNeedsIntegral | RestrictedNeedsFloat
    | OptionsAsReturn | InvalidRepresentation | OptionsNotLast | TooManyArguments
    | ZeroAddress | NilTypeInfo | DuplicateArity

  datatype TypeInfo = TypeInfo(typ: Byte, flags: Byte)

  datatype Signature = Signature(ret: TypeInfo, arguments: seq<TypeInfo>, repr: Byte)

  datatype MaybeSignature = NoSignature | SomeSignature(sig: Signature)

  datatype CFunction = CFunction(address: nat, typeInfo: MaybeSignature)

  /** The wire forms; uint32 fields are truncated on assignment. */
  datatype TypeWire = TypeWire(typ: Byte, flags: Byte)

  datatype FunctionWire =
    FunctionWire(address: nat, argOffset: nat, argCount: nat, returnType: Byte, returnFlags: Byte, repr: Byte)

  function ToU32(x: nat): nat {
    x % U32_LIMIT
  }

  predicate Bit(flags: Byte, value: Byte)
    requires value > 0
  {
    (flags / value) % 2 == 1
  }

  // ------------------------------------------------------------ type infos

  predicate ValidType(t: Byte) {
    t <= ANY || t == CALLBACK_OPTIONS
  }

  predicate Integral(t: Byte) {
    2 <= t <= 6
  }

  /** What V8 accepts: known flags only, none on callback options, range and
      clamp on integers, restricted on floating point. */
  predicate ValidInfo(i: TypeInfo) {
    && ValidType(i.typ)
    && i.flags < 16
    && (i.typ == CALLBACK_OPTIONS ==> i.flags == 0)
    && (Bit(i.flags, 2) || Bit(i.flags, 4) ==> Integral(i.typ))
    && (Bit(i.flags, 8) ==> i.typ == FLOAT32 || i.typ == FLOAT64)
  }

  function NewTypeInfo(typ: Byte, flags: Byte): (r: Result<TypeInfo, Error>)
    ensures r.Ok? <==> ValidInfo(TypeInfo(typ, flags))
    ensures r.Ok? ==> r.value == TypeInfo(typ, flags)
  {
    if !ValidType(typ) then Err(InvalidType)
    else if flags >= 16 then Err(InvalidFlags)
    else if typ == CALLBACK_OPTIONS && flags != 0 then Err(OptionsWithFlags)
    else if (Bit(flags, 2) || Bit(flags, 4)) && !Integral(typ) then Err(RangeNeedsIntegral)
    else if Bit(flags, 8) && typ != FLOAT32 && typ != FLOAT64 then Err(RestrictedNeedsFloat)
    else Ok(TypeInfo(typ, flags))
  }

  function Identifier(i: TypeInfo): nat {
    i.typ * 256 + i.flags
  }

  function FromIdentifier(id: nat): TypeInfo
    requires id < 0x1_0000
  {
    TypeInfo(id / 256, id % 256)
  }

  /** The identifier names exactly one type info. */
  lemma IdentifierRoundTrip(i: TypeInfo)
    ensures Identifier(i) < 0x1_0000 && FromIdentifier(Identifier(i)) == i
  {
    assert (i.typ * 256 + i.flags) / 256 == i.typ;
    assert (i.typ * 256 + i.flags) % 256 == i.flags;
  }

  // ------------------------------------------------------------ signatures

  predicate ValidArgument(args: seq<TypeInfo>, k: nat)
    requires k < |args|
  {
    ValidInfo(args[k]) && (args[k].typ == CALLBACK_OPTIONS ==> k == |args| - 1)
  }

  predicate ValidSignature(sig: Signature) {
    && ValidInfo(sig.ret) && sig.ret.typ != CALLBACK_OPTIONS
    && sig.repr <= 1
    && (forall k :: 0 <= k < |sig.arguments| ==> ValidArgument(sig.arguments, k))
    && |sig.arguments| < U32_LIMIT
  }

  predicate HasOptions(sig: Signature) {
    |sig.arguments| > 0 && sig.arguments[|sig.arguments| - 1].typ == CALLBACK_OPTIONS
  }

  function ArgumentCount(sig: Signature): nat {
    if HasOptions(sig) then |sig.arguments| - 1 else |sig.arguments|
  }

  /** ArgumentCount counts the arguments that are not callback options. */
  lemma CountExcludesOptions(sig: Signature, k: nat)
    requires ValidSignature(sig) && k < |sig.arguments|
    ensures k < ArgumentCount(sig) <==> sig.arguments[k].typ != CALLBACK_OPTIONS
  {
    assert ValidArgument(sig.arguments, k);
  }

  method NewSignature(ret: TypeInfo, arguments: seq<TypeInfo>, repr: Byte) returns (r: Result<Signature, Error>)
    ensures r.Ok? <==> ValidSignature(Signature(ret, arguments, repr))
    ensures r.Ok? ==> r.value == Signature(ret, arguments, repr)
  {
    var checked := NewTypeInfo(ret.typ, ret.flags);
    if checked.Err? {
      return Err(checked.error);
    }
    if ret.typ == CALLBACK_OPTIONS {
      return Err(OptionsAsReturn);
    }
    if repr > 1 {
      return Err(InvalidRepresentation);
    }
    for k := 0 to |arguments|
      invariant forall j :: 0 <= j < k ==> ValidArgument(arguments, j)
    {
      var arg := NewTypeInfo(arguments[k].typ, arguments[k].flags);
      if arg.Err? {
        assert !ValidArgument(arguments, k);
        return Err(arg.error);
      }
      if arguments[k].typ == CALLBACK_OPTIONS && k != |arguments| - 1 {
        assert !ValidArgument(arguments, k);
        return Err(OptionsNotLast);
      }
    }
    if |arguments| >= U32_LIMIT {
      return Err(TooManyArguments);
    }
    return Ok(Signature(ret, arguments, repr));
  }

  // ------------------------------------------------------------ flattening

  function Encode(i: TypeInfo): TypeWire {
    TypeWire(i.typ, i.flags)
  }

  function Decode(w: TypeWire): TypeInfo {
    TypeInfo(w.typ, w.flags)
  }

  method Marshal(info: MaybeSignature) returns (r: Result<seq<TypeWire>, Error>)
    ensures r.Ok? <==> info.SomeSignature? && ValidSignature(info.sig)
    ensures r.Ok? ==> |r.value| == |info.sig.arguments|
    ensures r.Ok? ==> forall k :: 0 <= k < |r.value| ==> r.value[k] == Encode(info.sig.arguments[k])
  {
    if info == NoSignature {
      return Err(NilTypeInfo);
    }
    var checked := NewSignature(info.sig.ret, info.sig.arguments, info.sig.repr);
    if checked.Err? {
      return Err(checked.error);
    }
    var args: seq<TypeWire> := [];
    for k := 0 to |info.sig.arguments|
      invariant |args| == k
      invariant forall j :: 0 <= j < k ==> args[j] == Encode(info.sig.arguments[j])
    {
      args := args + [Encode(info.sig.arguments[k])];
    }
    return Ok(args);
  }

  predicate ValidOverload(f: CFunction) {
    f.address != 0 && f.typeInfo.SomeSignature? && ValidSignature(f.typeInfo.sig)
  }

  function Arity(f: CFunction): nat {
    if f.typeInfo.SomeSignature? then ArgumentCount(f.typeInfo.sig) else 0
  }

  /** Native arguments of all the overloads together. */
  function Total(fs: seq<CFunction>): nat {
    if fs == [] then 0
    else
      var f := fs[|fs| - 1];
      Total(fs[..|fs| - 1]) + if f.typeInfo.SomeSignature? then |f.typeInfo.sig.arguments| else 0
  }

  lemma {:induction false} TotalGrows(fs: seq<CFunction>, k: nat)
    requires k <= |fs|
    ensures Total(fs[..k]) <= Total(fs)
  {
    if k == |fs| {
      assert fs[..k] == fs;
    } else {
      TotalGrows(fs[..|fs| - 1], k);
      assert fs[..|fs| - 1][..k] == fs[..k];
    }
  }

  /** The lists NewFastFunctionTemplate accepts. */
  predicate Acceptable(fs: seq<CFunction>) {
    && (forall k :: 0 <= k < |fs| ==> ValidOverload(fs[k]))
    && (forall j, k :: 0 <= j < k < |fs| ==> Arity(fs[j]) != Arity(fs[k]))
    && Total(fs) < U32_LIMIT
  }

  /** What native code reads back for one function: its slice of the flat array. */
  function DecodeFunction(f: FunctionWire, flat: seq<TypeWire>): CFunction
    requires f.argOffset + f.argCount <= |flat|
  {
    var slice := flat[f.argOffset..f.argOffset + f.argCount];
    CFunction(f.address,
              SomeSignature(Signature(TypeInfo(f.returnType, f.returnFlags),
                                      seq(|slice|, k requires 0 <= k < |slice| => Decode(slice[k])), f.repr)))
  }

  /** Slices are laid end to end from the start of the array to its end. */
  ghost predicate Tiled(functions: seq<FunctionWire>, size: nat) {
    && (forall k :: 0 <= k < |functions| ==> functions[k].argOffset + functions[k].argCount <= size)
    && (forall k :: 0 < k < |functions| ==>
          functions[k].argOffset == functions[k - 1].argOffset + functions[k - 1].argCount)
    && (if functions == [] then size == 0
        else
          var last := functions[|functions| - 1];
          functions[0].argOffset == 0 && last.argOffset + last.argCount == size)
  }

  ghost predicate DecodesTo(functions: seq<FunctionWire>, flat: seq<TypeWire>, fs: seq<CFunction>) {
    && |functions| == |fs|
    && Tiled(functions, |flat|)
    && forall k :: 0 <= k < |fs| ==> DecodeFunction(functions[k], flat) == fs[k]
  }

  /** Appending one function and its arguments extends a correct encoding. */
  lemma Extend(functions: seq<FunctionWire>, flat: seq<TypeWire>, fs: seq<CFunction>,
               f: FunctionWire, args: seq<TypeWire>, g: CFunction)
    requires DecodesTo(functions, flat, fs)
    requires f.argOffset == |flat| && f.argCount == |args| && f.address == g.address
    requires g.typeInfo.SomeSignature?
    requires g.typeInfo.sig.ret == TypeInfo(f.returnType, f.returnFlags) && g.typeInfo.sig.repr == f.repr
    requires |args| == |g.typeInfo.sig.arguments|
    requires forall k :: 0 <= k < |args| ==> args[k] == Encode(g.typeInfo.sig.arguments[k])
    ensures DecodesTo(functions + [f], flat + args, fs + [g])
  {
    var flat' := flat + args;
    assert flat'[f.argOffset..f.argOffset + f.argCount] == args;
    assert DecodeFunction(f, flat').typeInfo.sig.arguments == g.typeInfo.sig.arguments;
    forall k | 0 <= k < |fs| ensures DecodeFunction(functions[k], flat') == fs[k] {
      var x := functions[k];
      assert flat'[x.argOffset..x.argOffset + x.argCount] == flat[x.argOffset..x.argOffset + x.argCount];
      assert DecodeFunction(x, flat') == DecodeFunction(x, flat);
    }
  }

  /** The first k overloads have passed the checks; arities holds their public argument counts. */
  ghost predicate Passed(fs: seq<CFunction>, k: nat, arities: set<nat>) {
    && k <= |fs|
    && (forall j :: 0 <= j < k ==> ValidOverload(fs[j]))
    && (forall i, j :: 0 <= i < j < k ==> Arity(fs[i]) != Arity(fs[j]))
    && (forall n :: n in arities <==> exists j :: 0 <= j < k && Arity(fs[j]) == n)
    && Total(fs[..k]) < U32_LIMIT
  }

  /** Overload k passes exactly when a correct list may continue with it. */
  lemma PassOne(fs: seq<CFunction>, k: nat, arities: set<nat>)
    requires Passed(fs, k, arities) && k < |fs|
    ensures Total(fs[..k + 1]) ==
            Total(fs[..k]) + if fs[k].typeInfo.SomeSignature? then |fs[k].typeInfo.sig.arguments| else 0
    ensures var ok := ValidOverload(fs[k]) && Arity(fs[k]) !in arities && Total(fs[..k + 1]) < U32_LIMIT;
            if ok then Passed(fs, k + 1, arities + {Arity(fs[k])}) else !Acceptable(fs)
  {
    assert fs[..k + 1][..k] == fs[..k];
    TotalGrows(fs, k + 1);
  }

  /** The checks and the wire form of one overload, given what precedes it. */
  method EncodeOne(f: CFunction, arities: set<nat>, size: nat) returns (r: Result<(FunctionWire, seq<TypeWire>), Error>)
    requires size < U32_LIMIT
    ensures r.Ok? <==>
            && ValidOverload(f) && Arity(f) !in arities
            && size + |f.typeInfo.sig.arguments| < U32_LIMIT
    ensures r.Ok? ==>
              && var sig := f.typeInfo.sig;
              && r.value.0 == FunctionWire(f.address, size, |sig.arguments|, sig.ret.typ, sig.ret.flags, sig.repr)
              && |r.value.1| == |sig.arguments|
              && forall k :: 0 <= k < |r.value.1| ==> r.value.1[k] == Encode(sig.arguments[k])
  {
    if f.address == 0 {
      return Err(ZeroAddress);
    }
    var args := Marshal(f.typeInfo);
    if args.Err? {
      return Err(args.error);
    }
    var sig := f.typeInfo.sig;
    if ArgumentCount(sig) in arities {
      return Err(DuplicateArity);
    }
    if size + |args.value| >= U32_LIMIT {
      return Err(TooManyArguments);
    }
    return Ok((FunctionWire(f.address, ToU32(size), ToU32(|args.value|), sig.ret.typ, sig.ret.flags, sig.repr),
               args.value));
  }

  /** The encoding of the first k overloads. */
  ghost predicate Encoded(fs: seq<CFunction>, k: nat, functions: seq<FunctionWire>, flat: seq<TypeWire>) {
    k <= |fs| && DecodesTo(functions, flat, fs[..k]) && |flat| == Total(fs[..k])
  }

  lemma EncodeNext(fs: seq<CFunction>, k: nat, functions: seq<FunctionWire>, flat: seq<TypeWire>,
                   f: FunctionWire, args: seq<TypeWire>)
    requires k < |fs| && Encoded(fs, k, functions, flat) && fs[k].typeInfo.SomeSignature?
    requires Total(fs[..k + 1]) == Total(fs[..k]) + |args|
    requires var sig := fs[k].typeInfo.sig;
             && f == FunctionWire(fs[k].address, |flat|, |args|, sig.ret.typ, sig.ret.flags, sig.repr)
             && |args| == |sig.arguments|
             && forall i :: 0 <= i < |args| ==> args[i] == Encode(sig.arguments[i])
    ensures Encoded(fs, k + 1, functions + [f], flat + args)
  {
    Extend(functions, flat, fs[..k], f, args, fs[k]);
    assert fs[..k + 1] == fs[..k] + [fs[k]];
  }

  lemma EncodedAll(fs: seq<CFunction>, functions: seq<FunctionWire>, flat: seq<TypeWire>, arities: set<nat>)
    requires Encoded(fs, |fs|, functions, flat) && Passed(fs, |fs|, arities)
    ensures DecodesTo(functions, flat, fs) && |flat| == Total(fs) < U32_LIMIT && Acceptable(fs)
  {
    assert fs[..|fs|] == fs;
  }

  /** The overload loop of NewFastFunctionTemplate: it accepts exactly the
      acceptable lists, and then native code decodes every function's slice to
      the overload it came from; no offset or count is truncated. */
  method Flatten(fs: seq<CFunction>) returns (r: Result<(seq<FunctionWire>, seq<TypeWire>), Error>)
    ensures r.Ok? <==> Acceptable(fs)
    ensures r.Ok? ==> DecodesTo(r.value.0, r.value.1, fs) && |r.value.1| == Total(fs) < U32_LIMIT
  {
    var functions: seq<FunctionWire> := [];
    var flat: seq<TypeWire> := [];
    var arities: set<nat> := {};
    for k := 0 to |fs|
      invariant Encoded(fs, k, functions, flat) && Passed(fs, k, arities)
    {
      PassOne(fs, k, arities);
      var one := EncodeOne(fs[k], arities, |flat|);
      if one.Err? {
        return Err(one.error);
      }
      EncodeNext(fs, k, functions, flat, one.value.0, one.value.1);
      functions := functions + [one.value.0];
      flat := flat + one.value.1;
      arities := arities + {Arity(fs[k])};
    }
    EncodedAll(fs, functions, flat, arities);
    return Ok((functions, flat));
  }

  predicate InSlice(f: FunctionWire, i: nat) {
    f.argOffset <= i < f.argOffset + f.argCount
  }

  lemma {:induction false} OffsetsIncrease(functions: seq<FunctionWire>, size: nat, j: nat, k: nat)
    requires Tiled(functions, size) && j < k < |functions|
    ensures functions[j].argOffset + functions[j].argCount <= functions[k].argOffset
    decreases k
  {
    if j < k - 1 {
      OffsetsIncrease(functions, size, j, k - 1);
    }
  }

  /** No element of the flat array belongs to two functions. */
  lemma SlicesAreDisjoint(functions: seq<FunctionWire>, size: nat, j: nat, k: nat, i: nat)
    requires Tiled(functions, size) && j < |functions| && k < |functions|
    requires InSlice(functions[j], i) && InSlice(functions[k], i)
    ensures j == k
  {
    if j < k {
      OffsetsIncrease(functions, size, j, k);
    } else if k < j {
      OffsetsIncrease(functions, size, k, j);
    }
  }

  /** Every element of the flat array belongs to some function. */
  lemma {:induction false} SlicesCover(functions: seq<FunctionWire>, size: nat, i: nat) returns (k: nat)
    requires Tiled(functions, size) && i < size
    ensures k < |functions| && InSlice(functions[k], i)
    decreases |functions|
  {
    var n: nat := |functions| - 1;
    if functions[n].argOffset <= i {
      k := n;
    } else {
      var front := functions[..n];
      assert n > 0 && front[n - 1] == functions[n - 1] && front[0] == functions[0];
      forall j | 0 <= j < n ensures front[j].argOffset + front[j].argCount <= functions[n].argOffset {
        OffsetsIncrease(functions, size, j, n);
      }
      k := SlicesCover(front, functions[n].argOffset, i);
    }
  }
}
