/** What built catalogs are. */
module SurfaceFacts {
  import opened Bytes
  import opened Seqs
  import opened Wire
  import opened HostTypes
  import opened HostInjective
  import opened ImportLimits
  import opened HostTraversal
  import opened Sorting
  import opened CanonicalBytes
  import opened Catalogs
  import opened Surface
  import TypeEncoder

  // ---------------------------------------------------------------- overloads

  function Arg(p: ImportParam): (HostType, Passing) { (Canon(p.ty), p.passing) }

  /** The same ordered argument types, up to field order, and passing modes. */
  predicate SameArgs(f: Signature, g: Signature) { Mapped(Arg, f.params) == Mapped(Arg, g.params) }

  function RawOf(p: ImportParam): (HostType, Passing) { (p.ty, p.passing) }

  lemma ArgDecodable()
    ensures Decodable(RawArg, RawOf, WordedParam)
  {
    forall p, x, q, y | WordedParam(p) && WordedParam(q) && RawArg(p, x) == RawArg(q, y) ensures RawOf(p) == RawOf(q) && x == y {
      RawInjective(p.ty, [PassingByte(p.passing)] + x, q.ty, [PassingByte(q.passing)] + y);
      SamePrefix([PassingByte(p.passing)], x, [PassingByte(q.passing)], y);
    }
  }

  lemma ArgsEach(ps: seq<ImportParam>)
    ensures Mapped(RawOf, Mapped(CanonParam, ps)) == Mapped(Arg, ps)
  {
  }

  /** Overload identities are equal exactly for one name with the same arguments. */
  lemma OverloadExact(f: Signature, g: Signature)
    requires WordedSignature(f) && WordedSignature(g)
    ensures OverloadBytes(f) == OverloadBytes(g) <==> f.name == g.name && SameArgs(f, g)
  {
    var ps, qs := Mapped(CanonParam, f.params), Mapped(CanonParam, g.params);
    CanonSignatureWorded(f);
    CanonSignatureWorded(g);
    ArgDecodable();
    ArgsEach(f.params);
    ArgsEach(g.params);
    hide PushLen, PushStr, Fold, RawArg;
    var x, y := Fold(RawArg, ps, []), Fold(RawArg, qs, []);
    if OverloadBytes(f) == OverloadBytes(g) {
      StrInjective(f.name, PushLen(|f.params|) + x, g.name, PushLen(|g.params|) + y);
      LenInjective(|f.params|, x, |g.params|, y);
      FoldExact(RawArg, RawOf, WordedParam, ps, [], qs, []);
    } else if f.name == g.name && SameArgs(f, g) {
      assert |f.params| == |Mapped(Arg, f.params)| == |Mapped(Arg, g.params)| == |g.params|;
      FoldExact(RawArg, RawOf, WordedParam, ps, [], qs, []);
    }
  }

  /** No two functions of a built catalog share a name and their argument types and modes. */
  lemma NoAmbiguity(c: Catalog, i: nat, j: nat)
    requires SurfaceOk(c) && WordedCatalog(c) && i < j < |c.functions|
    ensures c.functions[i].name != c.functions[j].name || !SameArgs(c.functions[i], c.functions[j])
  {
    OverloadExact(c.functions[i], c.functions[j]);
  }

  lemma SemanticDistinct(f: Signature, g: Signature)
    requires WordedSignature(f) && WordedSignature(g) && Semantic(f) == Semantic(g)
    ensures f.name == g.name && SameArgs(f, g)
  {
    SignatureDecodable();
    assert SemanticBytes(f, []) == SemanticBytes(g, []);
    assert CanonSignature(f) == CanonSignature(g);
    ArgsEach(f.params);
    ArgsEach(g.params);
  }

  lemma BuiltHasNoRepeats(c: Catalog)
    requires SurfaceOk(c) && WordedCatalog(c)
    ensures NoRepeats(c)
  {
    forall i, j | 0 <= i < j < |c.functions| ensures Semantic(c.functions[i]) != Semantic(c.functions[j]) {
      if Semantic(c.functions[i]) == Semantic(c.functions[j]) {
        hide Semantic, OverloadBytes, StructsOk, FunctionOk;
        SemanticDistinct(c.functions[i], c.functions[j]);
        NoAmbiguity(c, i, j);
      }
    }
  }

  /** For built catalogs: equal canonical bytes mean the same catalog up to documentation and order, and conversely. */
  lemma BuiltBytesExact(a: Catalog, b: Catalog)
    requires SurfaceOk(a) && SurfaceOk(b) && WordedCatalog(a) && WordedCatalog(b)
    ensures CatalogBytes(a) == CatalogBytes(b) <==> Equivalent(a, b)
  {
    hide CatalogBytes, Equivalent, SurfaceOk;
    BuiltHasNoRepeats(a);
    BuiltHasNoRepeats(b);
    CatalogBytesExact(a, b);
  }

  // ---------------------------------------------------------------- import identity

  /** `HostImportSchema::from_function`, with the catalog's fingerprint. */
  function FromFunction(f: Signature, fingerprint: u64): ImportSchema { ImportSchema(f.name, f.params, f.result, fingerprint) }

  /** `function_for_import`: the first function with exactly this identity, if the identity is itself valid. */
  function FunctionForImport(c: Catalog, h: ImportSchema, fingerprint: u64): Option<nat> {
    if ImportValid(h) then FirstMatch(c.functions, h, fingerprint) else None
  }

  function FirstMatch(fs: seq<Signature>, h: ImportSchema, fingerprint: u64): (o: Option<nat>)
    ensures o.Some? ==> o.value < |fs| && FromFunction(fs[o.value], fingerprint) == h
    ensures o.None? ==> forall f <- fs :: FromFunction(f, fingerprint) != h
  {
    if fs == [] then None
    else if FromFunction(fs[0], fingerprint) == h then Some(0)
    else
      var o := FirstMatch(fs[1..], h, fingerprint);
      if o.Some? then Some(o.value + 1) else None
  }

  const INVALID: seq<u8> := [105, 110, 118, 97, 108, 105, 100, 45, 104, 111, 115, 116, 45, 115, 99, 104, 101, 109, 97, 58]

  /** `semantic_bytes`: a function of a bad shape gets the bytes of an error message instead. */
  function SemanticOr(f: Signature, message: seq<u8>): seq<u8> { if FunctionShape(f) then Semantic(f) else INVALID + message }

  /** A function of a built catalog has a good shape and is a valid import, so the bytes for invalid schemas are never used. */
  lemma FunctionsAreValid(c: Catalog, i: nat, fingerprint: u64)
    requires SurfaceOk(c) && i < |c.functions|
    ensures FunctionShape(c.functions[i]) && ImportValid(FromFunction(c.functions[i], fingerprint))
    ensures forall message :: SemanticOr(c.functions[i], message) == Semantic(c.functions[i])
  {
    hide Semantic, OverloadBytes, DepthOf, StructsOk, Declared, RefsOk, Keys;
    var f := c.functions[i];
    assert f in c.functions;
    assert FunctionOk(c, f);
    SumAtLeast(Params, c.functions, i);
    SumAtLeast(Nodes, c.functions, i);
    SumAtLeast(Props, c.functions, i);
    forall p <- f.params ensures |p.name| <= MAX_NAME && DepthOf(p.ty) <= MAX_HOST_DEPTH { assert ParamOk(c, p); }
  }

  /** Looking up the identity built from a function finds that function, and no other has it. */
  lemma LookupExact(c: Catalog, i: nat, fingerprint: u64)
    requires SurfaceOk(c) && i < |c.functions|
    ensures FunctionForImport(c, FromFunction(c.functions[i], fingerprint), fingerprint) == Some(i)
    ensures forall j | 0 <= j < |c.functions| :: FromFunction(c.functions[j], fingerprint) == FromFunction(c.functions[i], fingerprint) ==> j == i
  {
    FunctionsAreValid(c, i, fingerprint);
    forall j | 0 <= j < |c.functions| && FromFunction(c.functions[j], fingerprint) == FromFunction(c.functions[i], fingerprint) ensures j == i {
      assert OverloadBytes(c.functions[j]) == OverloadBytes(c.functions[i]);
    }
    hide SurfaceOk, ImportValid;
    var o := FirstMatch(c.functions, FromFunction(c.functions[i], fingerprint), fingerprint);
    assert c.functions[i] in c.functions;
  }

  // ---------------------------------------------------------------- named structs

  /** Every named struct in the type is a rearrangement of a declaration with distinct fields. */
  ghost predicate Matched(ss: seq<StructDef>, t: HostType)
    decreases t
  {
    match t
    case Struct(x, fs) =>
      && (exists s <- ss :: s.name == x && multiset(s.fields) == multiset(fs)) && Distinct(FieldName, fs)
      && forall f <- fs :: MatchedField(ss, f)
    case ListOf(u) => Matched(ss, u)
    case MapOf(u) => Matched(ss, u)
    case Maybe(u) => Matched(ss, u)
    case Function(ts, u) => Matched(ss, u) && forall t <- ts :: Matched(ss, t)
    case _ => true
  }

  ghost predicate MatchedField(ss: seq<StructDef>, f: HostField)
    decreases f
  {
    Matched(ss, f.ty)
  }

  /** With distinct names, comparing sorted fields means comparing them in any order. */
  lemma SameFieldsExact(a: seq<HostField>, b: seq<HostField>)
    requires Distinct(FieldName, a)
    ensures SameFields(a, b) <==> multiset(a) == multiset(b)
    ensures SameFields(a, b) ==> Distinct(FieldName, b)
  {
    if SameFields(a, b) {
      assert multiset(a) == multiset(Sort(FieldName, a)) == multiset(Sort(FieldName, b)) == multiset(b);
    }
    if multiset(a) == multiset(b) {
      Rearranged(a, b);
      SortExact(FieldName, a, b);
      SameLength(a, b);
    }
  }

  lemma Rearranged(a: seq<HostField>, b: seq<HostField>)
    requires Distinct(FieldName, a) && multiset(a) == multiset(b)
    ensures Distinct(FieldName, b)
  {
    forall i, j | 0 <= i < j < |b| ensures b[i].name != b[j].name {
      if b[i].name == b[j].name {
        Member(b, a, b[i]);
        Member(b, a, b[j]);
        var k :| 0 <= k < |a| && a[k] == b[i];
        var l :| 0 <= l < |a| && a[l] == b[j];
        assert k == l;
        Twice(b, i, j);
        Once(a, k);
      }
    }
  }

  lemma Twice<T>(xs: seq<T>, i: nat, j: nat)
    requires i < j < |xs| && xs[i] == xs[j]
    ensures multiset(xs)[xs[i]] >= 2
  {
    assert xs == xs[..j] + [xs[j]] + xs[j + 1..];
    assert xs[i] in xs[..j];
    assert multiset(xs[..j])[xs[i]] >= 1;
  }

  lemma Once(xs: seq<HostField>, k: nat)
    requires Distinct(FieldName, xs) && k < |xs|
    ensures multiset(xs)[xs[k]] == 1
  {
    assert xs == xs[..k] + [xs[k]] + xs[k + 1..];
    assert xs[k] !in xs[..k] && xs[k] !in xs[k + 1..];
    assert multiset(xs[..k])[xs[k]] == 0 && multiset(xs[k + 1..])[xs[k]] == 0;
  }

  lemma {:induction false} RefsMatched(c: Catalog, t: HostType)
    requires StructsOk(c) && RefsOk(c.structs, t)
    ensures Matched(c.structs, t)
    decreases t
  {
    match t {
      case ListOf(u) => RefsMatched(c, u);
      case MapOf(u) => RefsMatched(c, u);
      case Maybe(u) => RefsMatched(c, u);
      case Function(ts, u) =>
        RefsMatched(c, u);
        forall t <- ts ensures Matched(c.structs, t) { RefsMatched(c, t); }
      case Struct(x, fs) =>
        var s := FindStruct(c.structs, x).value;
        assert StructOk(c, s);
        SameFieldsExact(s.fields, fs);
        forall f <- fs ensures MatchedField(c.structs, f) {
          assert FieldRefsOk(c.structs, f) && f.ty < f;
          RefsMatched(c, f.ty);
        }
      case _ =>
    }
  }

  /** In every built catalog: resources anywhere in a parameter or result are declared, resources are not passed by value,
      borrows are of resources, and named structs match their declarations. */
  lemma BuiltCatalog(c: Catalog, f: Signature, p: ImportParam)
    requires SurfaceOk(c) && f in c.functions && p in f.params
    ensures forall k | k in Keys(p.ty) || k in Keys(f.result) :: Declared(c.resources, k)
    ensures Keys(p.ty) != [] ==> p.passing != ByValue
    ensures p.passing == Borrow || p.passing == BorrowMut ==> Keys(p.ty) != []
    ensures Matched(c.structs, p.ty) && Matched(c.structs, f.result)
  {
    assert FunctionOk(c, f) && ParamOk(c, p);
    RefsMatched(c, p.ty);
    RefsMatched(c, f.result);
  }

  lemma CanonNames(fs: seq<HostField>)
    requires Distinct(FieldName, fs)
    ensures Distinct(FieldName, CanonFields(fs))
  {
    TypeEncoder.CanonFieldsEach(fs);
  }

  /** Field order is all that canonical form forgets: with distinct names, two structs are equal up to it exactly when their
      fields are the same in some order. */
  lemma FieldOrderExact(x: Str, fs: seq<HostField>, y: Str, gs: seq<HostField>)
    requires Distinct(FieldName, fs) && Distinct(FieldName, gs)
    ensures Canon(Struct(x, fs)) == Canon(Struct(y, gs)) <==> x == y && multiset(CanonFields(fs)) == multiset(CanonFields(gs))
  {
    CanonNames(fs);
    CanonNames(gs);
    SortExact(FieldName, CanonFields(fs), CanonFields(gs));
  }
}
