/** `try_semantic_bytes`, `try_overload_identity_bytes` and `try_canonical_bytes` as the appends they are. */
module CatalogEncoder {
  import opened Bytes
  import opened Seqs
  import opened Wire
  import opened HostTypes
  import opened Sorting
  import opened CanonicalBytes
  import opened TypeEncoder
  import opened Catalogs
  import opened Surface
  import opened SurfaceFacts
  import opened HostTraversal
  import opened NameChecks
  import ImportChecks

  lemma RawTail(t: HostType, x: seq<u8>)
    ensures Raw(t, x) == Raw(t, []) + x
  {
    RawAppend(t, [], x);
    assert [] + x == x;
  }

  lemma FoldNext<T>(put: (T, seq<u8>) -> seq<u8>, xs: seq<T>, i: nat, rest: seq<u8>)
    requires i < |xs|
    ensures Fold(put, xs[i..], rest) == put(xs[i], Fold(put, xs[i + 1..], rest))
  {
    assert xs[i..][1..] == xs[i + 1..];
  }

  lemma FoldDone<T>(put: (T, seq<u8>) -> seq<u8>, xs: seq<T>, rest: seq<u8>)
    ensures Fold(put, xs[|xs|..], rest) == rest && Fold(put, xs[0..], rest) == Fold(put, xs, rest)
  {
    assert xs[0..] == xs;
  }

  /** Parameters with their names, as part of the semantic bytes. */
  method PushParams(out: seq<u8>, ps: seq<ImportParam>, ghost rest: seq<u8>) returns (r: seq<u8>)
    ensures r + rest == out + Fold(RawParam, Mapped(CanonParam, ps), rest)
  {
    r := out;
    ghost var qs := Mapped(CanonParam, ps);
    FoldDone(RawParam, qs, rest);
    hide Fold, Raw, PushStr;
    for i := 0 to |ps|
      invariant r + Fold(RawParam, qs[i..], rest) == out + Fold(RawParam, qs, rest)
    {
      FoldNext(RawParam, qs, i, rest);
      RawTail(qs[i].ty, [PassingByte(qs[i].passing)] + Fold(RawParam, qs[i + 1..], rest));
      r := r + PushStr(ps[i].name);
      r := TryPushType(r, ps[i].ty);
      r := r + [PassingByte(ps[i].passing)];
    }
  }

  /** Argument types and passing modes only, as part of the overload identity. */
  method PushArgs(out: seq<u8>, ps: seq<ImportParam>) returns (r: seq<u8>)
    ensures r == out + Fold(RawArg, Mapped(CanonParam, ps), [])
  {
    r := out;
    ghost var qs := Mapped(CanonParam, ps);
    FoldDone(RawArg, qs, []);
    hide Fold, Raw;
    for i := 0 to |ps|
      invariant r + Fold(RawArg, qs[i..], []) == out + Fold(RawArg, qs, [])
    {
      FoldNext(RawArg, qs, i, []);
      RawTail(qs[i].ty, [PassingByte(qs[i].passing)] + Fold(RawArg, qs[i + 1..], []));
      r := TryPushType(r, ps[i].ty);
      r := r + [PassingByte(ps[i].passing)];
    }
    assert r + [] == r;
  }

  /** `try_semantic_bytes`. */
  method EncodeSignature(f: Signature) returns (r: seq<u8>)
    ensures r == Semantic(f)
  {
    hide Fold, Raw, PushStr, PushLen;
    r := PushStr(f.name);
    r := r + PushLen(|f.params|);
    ghost var start := r;
    r := PushParams(r, f.params, TypeBytes(f.result));
    r := TryPushType(r, f.result);
    assert r == start + Fold(RawParam, Mapped(CanonParam, f.params), Raw(Canon(f.result), []));
  }

  /** `validate_function_shape`, with a budget of its own. */
  method ValidateShape(f: Signature) returns (ok: bool)
    ensures ok <==> FunctionShape(f)
  {
    hide Keys, NodesOf, PropsOf, DepthOf, Walk, Sum;
    var name := ValidateFunctionName(f.name);
    if !name.NameFine? || |f.description| > MAX_DESCRIPTION {
      return false;
    }
    var budget := new ComplexityBudget();
    var charged := budget.ChargeParameters(|f.params|);
    if charged.Over? {
      return false;
    }
    var fault := ImportChecks.CheckParamTypes(f.params, budget);
    if fault.Some? {
      return false;
    }
    WalkType(f.result, budget.nodes, budget.properties);
    var v, _ := ValidateType(f.result, budget);
    ok := v.Fine?;
  }

  /** `semantic_bytes`: the error's text is the caller's to give. */
  method SemanticOrFallback(f: Signature, message: seq<u8>) returns (r: seq<u8>)
    ensures r == SemanticOr(f, message)
  {
    var fine := ValidateShape(f);
    if fine {
      r := EncodeSignature(f);
    } else {
      r := INVALID + message;
    }
  }

  /** `try_overload_identity_bytes`. */
  method EncodeOverload(f: Signature) returns (r: seq<u8>)
    ensures r == OverloadBytes(f)
  {
    hide Fold, PushStr, PushLen;
    r := PushStr(f.name);
    r := r + PushLen(|f.params|);
    ghost var start := r;
    r := PushArgs(r, f.params);
    assert r == start + Fold(RawArg, Mapped(CanonParam, f.params), []);
  }

  method PushKeys(out: seq<u8>, keys: seq<Str>, ghost rest: seq<u8>) returns (r: seq<u8>)
    ensures r + rest == out + Section(0x52, KeyBytes, keys, rest)
  {
    hide Fold, PushLen, PushStr;
    r := out + [0x52];
    r := r + PushLen(|keys|);
    FoldDone(KeyBytes, keys, rest);
    ghost var start := r;
    for i := 0 to |keys|
      invariant r + Fold(KeyBytes, keys[i..], rest) == start + Fold(KeyBytes, keys, rest)
    {
      FoldNext(KeyBytes, keys, i, rest);
      r := r + PushStr(keys[i]);
    }
    assert r + rest == start + Fold(KeyBytes, keys, rest);
  }

  /** `push_struct_def`. */
  method PushStruct(out: seq<u8>, d: StructDef, ghost rest: seq<u8>) returns (r: seq<u8>)
    ensures r + rest == out + StructBytes(d, rest)
  {
    hide PushLen, PushStr, RawFields, Sort, CanonFields;
    RawFieldsAppend(Sort(FieldName, CanonFields(d.fields)), [], rest);
    assert [] + rest == rest;
    r := out + PushStr(d.name);
    r := PushNamedFields(r, d.fields);
  }

  method PushStructs(out: seq<u8>, ss: seq<StructDef>, ghost rest: seq<u8>) returns (r: seq<u8>)
    ensures r + rest == out + Section(0x54, StructBytes, ss, rest)
  {
    hide PushLen, StructBytes;
    r := out + [0x54];
    r := r + PushLen(|ss|);
    FoldDone(StructBytes, ss, rest);
    ghost var start := r;
    hide Fold;
    for i := 0 to |ss|
      invariant r + Fold(StructBytes, ss[i..], rest) == start + Fold(StructBytes, ss, rest)
    {
      FoldNext(StructBytes, ss, i, rest);
      r := PushStruct(r, ss[i], Fold(StructBytes, ss[i + 1..], rest));
    }
  }

  /** The semantic bytes of each function, or of its error. */
  method Semantics(fs: seq<Signature>, message: seq<u8>) returns (r: seq<seq<u8>>)
    ensures |r| == |fs| && forall i | 0 <= i < |fs| :: r[i] == SemanticOr(fs[i], message)
  {
    hide SemanticOr;
    r := [];
    for i := 0 to |fs|
      invariant |r| == i && forall k | 0 <= k < i :: r[k] == SemanticOr(fs[k], message)
    {
      var bytes := SemanticOrFallback(fs[i], message);
      r := r + [bytes];
    }
  }

  method PushFunctions(out: seq<u8>, semantics: seq<seq<u8>>, ghost fs: seq<Signature>) returns (r: seq<u8>)
    requires semantics == Mapped(Semantic, fs)
    ensures r == out + Section(0x46, SemanticBytes, fs, [])
  {
    hide PushLen, SemanticBytes, Semantic;
    r := out + [0x46];
    r := r + PushLen(|semantics|);
    FoldDone(SemanticBytes, fs, []);
    ghost var start := r;
    hide Fold;
    for i := 0 to |semantics|
      invariant r + Fold(SemanticBytes, fs[i..], []) == start + Fold(SemanticBytes, fs, [])
    {
      FoldNext(SemanticBytes, fs, i, []);
      SemanticTail(fs[i], Fold(SemanticBytes, fs[i + 1..], []));
      Regroup(r, semantics[i], Fold(SemanticBytes, fs[i + 1..], []));
      r := r + semantics[i];
    }
    assert r + [] == r;
  }

  lemma ParamTail(p: ImportParam, z: seq<u8>, y: seq<u8>)
    ensures RawParam(p, z + y) == RawParam(p, z) + y
  {
    hide PushStr, Raw;
    var mode: seq<u8> := [PassingByte(p.passing)];
    RawAppend(p.ty, mode + z, y);
    Regroup(mode, z, y);
    Regroup(PushStr(p.name), Raw(p.ty, mode + z), y);
  }

  lemma {:induction false} FoldTail(ps: seq<ImportParam>, x: seq<u8>, y: seq<u8>)
    ensures Fold(RawParam, ps, x + y) == Fold(RawParam, ps, x) + y
  {
    hide RawParam;
    if ps != [] {
      FoldTail(ps[1..], x, y);
      ParamTail(ps[0], Fold(RawParam, ps[1..], x), y);
    }
  }

  lemma SemanticTail(f: Signature, x: seq<u8>)
    ensures SemanticBytes(f, x) == Semantic(f) + x
  {
    hide Fold, Raw, PushStr, PushLen;
    var g := CanonSignature(f);
    RawTail(g.result, x);
    FoldTail(g.params, Raw(g.result, []), x);
  }

  /** In a catalog that can be built no function needs the fallback, and sorting by bytes sorts the functions. */
  lemma SortedSemantics(c: Catalog, message: seq<u8>, semantics: seq<seq<u8>>)
    requires SurfaceOk(c) && |semantics| == |c.functions|
    requires forall i | 0 <= i < |semantics| :: semantics[i] == SemanticOr(c.functions[i], message)
    ensures Sort(Id, semantics) == Mapped(Semantic, Sort(Semantic, c.functions))
  {
    hide SurfaceOk, SemanticOr, Semantic, Sort;
    forall i | 0 <= i < |semantics| ensures semantics[i] == Semantic(c.functions[i]) { FunctionsAreValid(c, i, 0); }
    assert semantics == Mapped(Semantic, c.functions);
    SortEach(Semantic, Semantic, Id, c.functions);
  }

  /** `try_canonical_bytes`; the text of an error that does not occur is the caller's to give. */
  method EncodeCatalog(c: Catalog, message: seq<u8>) returns (r: Surfaced<seq<u8>>)
    ensures r.Good? <==> SurfaceOk(c)
    ensures r.Good? ==> r.value == CatalogBytes(c)
  {
    hide SurfaceOk, Section, Sort, Semantic, SemanticOr;
    var valid := ValidateSurface(c);
    if valid.Bad? {
      return Bad(valid.error);
    }
    var structs := Sort(StructName, c.structs);
    ghost var functions := Sort(Semantic, c.functions);
    ghost var x3 := Section(0x46, SemanticBytes, functions, []);
    ghost var x2 := Section(0x54, StructBytes, structs, x3);
    var out := PushKeys(HEADER, Sort(Id, Mapped(ResourceKey, c.resources)), x2);
    out := PushStructs(out, structs, x3);
    var semantics := Semantics(c.functions, message);
    SortedSemantics(c, message, semantics);
    out := PushFunctions(out, Sort(Id, semantics), functions);
    r := Good(out);
  }
}
