/** Host API catalogs. */
module Catalogs {
  // Their parts, their canonical bytes and when those are equal.

  import opened Bytes
  import opened Seqs
  import opened HostTypes
  import opened HostInjective
  import opened Sorting
  import opened CanonicalBytes

  datatype Resource = Resource(key: Str, description: Str)
  datatype StructDef = StructDef(name: Str, fields: seq<HostField>, description: Str)
  datatype Signature = Signature(name: Str, params: seq<ImportParam>, result: HostType, description: Str)
  datatype Catalog = Catalog(resources: seq<Resource>, structs: seq<StructDef>, functions: seq<Signature>)

  // ---------------------------------------------------------------- canonical parts

  function ResourceKey(r: Resource): Str { r.key }
  function StructName(s: StructDef): Str { s.name }

  function CanonParam(p: ImportParam): ImportParam { p.(ty := Canon(p.ty)) }

  /** What identifies a function: no documentation, fields of named structs in order. */
  function CanonSignature(f: Signature): Signature {
    Signature(f.name, Mapped(CanonParam, f.params), Canon(f.result), [])
  }

  function CanonStruct(s: StructDef): StructDef {
    StructDef(s.name, Sort(FieldName, CanonFields(s.fields)), [])
  }

  /** The same catalog but for documentation, registration order and field order inside named structs. */
  ghost predicate Equivalent(a: Catalog, b: Catalog) {
    && multiset(Mapped(ResourceKey, a.resources)) == multiset(Mapped(ResourceKey, b.resources))
    && multiset(Mapped(CanonStruct, a.structs)) == multiset(Mapped(CanonStruct, b.structs))
    && multiset(Mapped(CanonSignature, a.functions)) == multiset(Mapped(CanonSignature, b.functions))
  }

  // ---------------------------------------------------------------- bytes

  function PassingByte(p: Passing): u8 {
    match p
    case ByValue => 0x76
    case Borrow => 0x62
    case BorrowMut => 0x6D
    case TakeOwned => 0x6F
  }

  function RawParam(p: ImportParam, rest: seq<u8>): seq<u8> {
    PushStr(p.name) + Raw(p.ty, [PassingByte(p.passing)] + rest)
  }

  /** Name, parameters with their names, types and passing modes, result; types as they stand. */
  function RawSignature(f: Signature, rest: seq<u8>): seq<u8> {
    PushStr(f.name) + (PushLen(|f.params|) + Fold(RawParam, f.params, Raw(f.result, rest)))
  }

  /** What `try_semantic_bytes` appends. */
  function SemanticBytes(f: Signature, rest: seq<u8>): seq<u8> { RawSignature(CanonSignature(f), rest) }

  function Semantic(f: Signature): seq<u8> { SemanticBytes(f, []) }

  function StructBytes(s: StructDef, rest: seq<u8>): seq<u8> {
    PushStr(s.name) + (PushLen(|s.fields|) + RawFields(Sort(FieldName, CanonFields(s.fields)), rest))
  }

  predicate WordedKey(x: Str) { Short64(x) }
  function KeyBytes(x: Str, rest: seq<u8>): seq<u8> { PushStr(x) + rest }

  function Fold<T>(put: (T, seq<u8>) -> seq<u8>, xs: seq<T>, rest: seq<u8>): seq<u8> {
    if xs == [] then rest else put(xs[0], Fold(put, xs[1..], rest))
  }

  const HEADER: seq<u8> := [0x72, 0x73, 0x73, 0x2D, 0x68, 0x61, 0x70, 0x69, 2]

  /** Resources by key, structs by name, functions by their own bytes, each after a tag and a count. */
  function CatalogBytes(c: Catalog): seq<u8> {
    HEADER + Section(0x52, KeyBytes, Sort(Id, Mapped(ResourceKey, c.resources)),
      Section(0x54, StructBytes, Sort(StructName, c.structs),
        Section(0x46, SemanticBytes, Sort(Semantic, c.functions), [])))
  }

  function Id(x: Str): Str { x }

  function Section<T>(tag: u8, put: (T, seq<u8>) -> seq<u8>, xs: seq<T>, rest: seq<u8>): seq<u8> {
    [tag] + (PushLen(|xs|) + Fold(put, xs, rest))
  }

  // ---------------------------------------------------------------- unique decoding

  predicate WordedSignature(f: Signature) {
    Short64(f.name) && Short64(f.params) && (forall p <- f.params :: WordedParam(p)) && Worded(f.result)
  }

  predicate WordedParam(p: ImportParam) { Short64(p.name) && Worded(p.ty) }

  predicate WordedStruct(s: StructDef) { Short64(s.name) && Short64(s.fields) && forall f <- s.fields :: WordedField(f) }

  /** Every length in the catalog is a machine word. */
  predicate WordedCatalog(c: Catalog) {
    && Short64(c.resources) && Short64(c.structs) && Short64(c.functions)
    && (forall r <- c.resources :: Short64(r.key))
    && (forall s <- c.structs :: WordedStruct(s))
    && (forall f <- c.functions :: WordedSignature(f))
  }

  /** `put` writes a part so that what it stands for and what follows can be told apart. */
  ghost predicate Decodable<T(!new), U>(put: (T, seq<u8>) -> seq<u8>, canon: T -> U, worded: T -> bool) {
    && (forall v, x, w, y {:trigger put(v, x), put(w, y)} | worded(v) && worded(w) && put(v, x) == put(w, y) :: canon(v) == canon(w) && x == y)
    && (forall v, w, x {:trigger put(v, x), canon(w)} | canon(v) == canon(w) :: put(v, x) == put(w, x))
  }

  lemma {:induction false} FoldExact<T(!new), U>(put: (T, seq<u8>) -> seq<u8>, canon: T -> U, worded: T -> bool, vs: seq<T>, x: seq<u8>, ws: seq<T>, y: seq<u8>)
    requires Decodable(put, canon, worded) && |vs| == |ws| && (forall v <- vs :: worded(v)) && (forall w <- ws :: worded(w))
    ensures Fold(put, vs, x) == Fold(put, ws, y) <==> Mapped(canon, vs) == Mapped(canon, ws) && x == y
  {
    if vs != [] {
      FoldExact(put, canon, worded, vs[1..], x, ws[1..], y);
      assert Mapped(canon, vs) == [canon(vs[0])] + Mapped(canon, vs[1..]);
      assert Mapped(canon, ws) == [canon(ws[0])] + Mapped(canon, ws[1..]);
      if Mapped(canon, vs) == Mapped(canon, ws) && x == y {
        assert Mapped(canon, vs)[0] == Mapped(canon, ws)[0] && Mapped(canon, vs)[1..] == Mapped(canon, ws)[1..];
      }
    }
  }

  lemma SectionExact<T(!new), U>(tag: u8, put: (T, seq<u8>) -> seq<u8>, canon: T -> U, worded: T -> bool, vs: seq<T>, x: seq<u8>, ws: seq<T>, y: seq<u8>)
    requires Decodable(put, canon, worded) && Short64(vs) && Short64(ws) && (forall v <- vs :: worded(v)) && (forall w <- ws :: worded(w))
    ensures Section(tag, put, vs, x) == Section(tag, put, ws, y) <==> Mapped(canon, vs) == Mapped(canon, ws) && x == y
  {
    hide PushLen, Fold;
    if Section(tag, put, vs, x) == Section(tag, put, ws, y) {
      SamePrefix([tag], PushLen(|vs|) + Fold(put, vs, x), [tag], PushLen(|ws|) + Fold(put, ws, y));
      LenInjective(|vs|, Fold(put, vs, x), |ws|, Fold(put, ws, y));
      FoldExact(put, canon, worded, vs, x, ws, y);
    } else if Mapped(canon, vs) == Mapped(canon, ws) && x == y {
      FoldExact(put, canon, worded, vs, x, ws, y);
    }
  }

  lemma KeyDecodable()
    ensures Decodable(KeyBytes, Id, WordedKey)
  {
    forall v, x, w, y | WordedKey(v) && WordedKey(w) && KeyBytes(v, x) == KeyBytes(w, y) ensures v == w && x == y { StrInjective(v, x, w, y); }
  }

  lemma StructDecodable()
    ensures Decodable(StructBytes, CanonStruct, WordedStruct)
  {
    forall v, x, w, y | WordedStruct(v) && WordedStruct(w) && StructBytes(v, x) == StructBytes(w, y)
      ensures CanonStruct(v) == CanonStruct(w) && x == y
    {
      hide PushLen, PushStr, RawFields;
      var fs, gs := Sort(FieldName, CanonFields(v.fields)), Sort(FieldName, CanonFields(w.fields));
      StrInjective(v.name, PushLen(|v.fields|) + RawFields(fs, x), w.name, PushLen(|w.fields|) + RawFields(gs, y));
      LenInjective(|v.fields|, RawFields(fs, x), |w.fields|, RawFields(gs, y));
      SortedWorded(v.fields);
      SortedWorded(w.fields);
      RawFieldsInjective(fs, x, gs, y);
    }
  }

  lemma SortedWorded(fs: seq<HostField>)
    requires forall f <- fs :: WordedField(f)
    ensures forall f <- Sort(FieldName, CanonFields(fs)) :: WordedField(f)
  {
    var cs := CanonFields(fs);
    CanonFieldsWorded(fs);
    forall f <- Sort(FieldName, cs) ensures WordedField(f) { Member(Sort(FieldName, cs), cs, f); }
  }

  function Itself(p: ImportParam): ImportParam { p }

  lemma ParamDecodable()
    ensures Decodable(RawParam, Itself, WordedParam)
  {
    forall p, x, q, y | WordedParam(p) && WordedParam(q) && RawParam(p, x) == RawParam(q, y) ensures p == q && x == y {
      hide PushStr, Raw;
      var r, s := [PassingByte(p.passing)] + x, [PassingByte(q.passing)] + y;
      StrInjective(p.name, Raw(p.ty, r), q.name, Raw(q.ty, s));
      RawInjective(p.ty, r, q.ty, s);
      SamePrefix([PassingByte(p.passing)], x, [PassingByte(q.passing)], y);
    }
  }

  lemma RawSignatureInjective(f: Signature, x: seq<u8>, g: Signature, y: seq<u8>)
    requires WordedSignature(f) && WordedSignature(g) && RawSignature(f, x) == RawSignature(g, y)
    ensures f.name == g.name && f.params == g.params && f.result == g.result && x == y
  {
    hide PushLen, PushStr, Raw, Fold;
    var r, s := Raw(f.result, x), Raw(g.result, y);
    StrInjective(f.name, PushLen(|f.params|) + Fold(RawParam, f.params, r), g.name, PushLen(|g.params|) + Fold(RawParam, g.params, s));
    LenInjective(|f.params|, Fold(RawParam, f.params, r), |g.params|, Fold(RawParam, g.params, s));
    ParamDecodable();
    FoldExact(RawParam, Itself, WordedParam, f.params, r, g.params, s);
    EachItself(f.params);
    EachItself(g.params);
    RawInjective(f.result, x, g.result, y);
  }

  lemma EachItself(ps: seq<ImportParam>)
    ensures Mapped(Itself, ps) == ps
  {
  }

  lemma CanonSignatureWorded(f: Signature)
    requires WordedSignature(f)
    ensures WordedSignature(CanonSignature(f))
  {
    CanonWorded(f.result);
    forall p <- CanonSignature(f).params ensures WordedParam(p) {
      var i :| 0 <= i < |f.params| && p == CanonParam(f.params[i]);
      assert WordedParam(f.params[i]);
      CanonWorded(f.params[i].ty);
    }
  }

  lemma SignatureDecodable()
    ensures Decodable(SemanticBytes, CanonSignature, WordedSignature)
  {
    forall f, x, g, y | WordedSignature(f) && WordedSignature(g) && SemanticBytes(f, x) == SemanticBytes(g, y)
      ensures CanonSignature(f) == CanonSignature(g) && x == y
    {
      CanonSignatureWorded(f);
      CanonSignatureWorded(g);
      RawSignatureInjective(CanonSignature(f), x, CanonSignature(g), y);
    }
  }

  // ---------------------------------------------------------------- whole catalogs

  function RawKey(f: Signature): seq<u8> { RawSignature(f, []) }

  /** No resource key, struct name or function is registered twice. */
  ghost predicate NoRepeats(c: Catalog) {
    Distinct(ResourceKey, c.resources) && Distinct(StructName, c.structs) && Distinct(Semantic, c.functions)
  }

  lemma KeysExact(a: seq<Resource>, b: seq<Resource>)
    requires Distinct(ResourceKey, a) && Distinct(ResourceKey, b)
    ensures Sort(Id, Mapped(ResourceKey, a)) == Sort(Id, Mapped(ResourceKey, b))
       <==> multiset(Mapped(ResourceKey, a)) == multiset(Mapped(ResourceKey, b))
  {
    SortExact(Id, Mapped(ResourceKey, a), Mapped(ResourceKey, b));
  }

  lemma StructsExact(a: seq<StructDef>, b: seq<StructDef>)
    requires Distinct(StructName, a) && Distinct(StructName, b)
    ensures Mapped(CanonStruct, Sort(StructName, a)) == Mapped(CanonStruct, Sort(StructName, b))
       <==> multiset(Mapped(CanonStruct, a)) == multiset(Mapped(CanonStruct, b))
  {
    SortEach(StructName, CanonStruct, StructName, a);
    SortEach(StructName, CanonStruct, StructName, b);
    SortExact(StructName, Mapped(CanonStruct, a), Mapped(CanonStruct, b));
  }

  lemma FunctionsExact(a: seq<Signature>, b: seq<Signature>)
    requires Distinct(Semantic, a) && Distinct(Semantic, b)
    ensures Mapped(CanonSignature, Sort(Semantic, a)) == Mapped(CanonSignature, Sort(Semantic, b))
       <==> multiset(Mapped(CanonSignature, a)) == multiset(Mapped(CanonSignature, b))
  {
    hide RawSignature;
    SortEach(Semantic, CanonSignature, RawKey, a);
    SortEach(Semantic, CanonSignature, RawKey, b);
    SortExact(RawKey, Mapped(CanonSignature, a), Mapped(CanonSignature, b));
  }

  lemma AllWorded<T>(xs: seq<T>, key: T -> Str, worded: T -> bool)
    requires forall x <- xs :: worded(x)
    ensures forall x <- Sort(key, xs) :: worded(x)
  {
    forall x <- Sort(key, xs) ensures worded(x) { Member(Sort(key, xs), xs, x); }
  }

  /** Canonical bytes are equal exactly for catalogs that agree up to documentation, registration order and field order
      inside named structs. */
  lemma CatalogBytesExact(a: Catalog, b: Catalog)
    requires WordedCatalog(a) && WordedCatalog(b) && NoRepeats(a) && NoRepeats(b)
    ensures CatalogBytes(a) == CatalogBytes(b) <==> Equivalent(a, b)
  {
    var fa, fb := Sort(Semantic, a.functions), Sort(Semantic, b.functions);
    var sa, sb := Sort(StructName, a.structs), Sort(StructName, b.structs);
    var ra, rb := Sort(Id, Mapped(ResourceKey, a.resources)), Sort(Id, Mapped(ResourceKey, b.resources));
    var x3, y3 := Section(0x46, SemanticBytes, fa, []), Section(0x46, SemanticBytes, fb, []);
    var x2, y2 := Section(0x54, StructBytes, sa, x3), Section(0x54, StructBytes, sb, y3);
    var x1, y1 := Section(0x52, KeyBytes, ra, x2), Section(0x52, KeyBytes, rb, y2);
    KeysExact(a.resources, b.resources);
    StructsExact(a.structs, b.structs);
    FunctionsExact(a.functions, b.functions);
    SectionsWorded(a);
    SectionsWorded(b);
    KeyDecodable();
    StructDecodable();
    SignatureDecodable();
    hide SemanticBytes, StructBytes, KeyBytes, Section, Sort, WordedSignature, WordedStruct;
    SectionExact(0x46, SemanticBytes, CanonSignature, WordedSignature, fa, [], fb, []);
    SectionExact(0x54, StructBytes, CanonStruct, WordedStruct, sa, x3, sb, y3);
    SectionExact(0x52, KeyBytes, Id, WordedKey, ra, x2, rb, y2);
    EachId(ra);
    EachId(rb);
    if HEADER + x1 == HEADER + y1 {
      SamePrefix(HEADER, x1, HEADER, y1);
    }
  }

  lemma EachId(xs: seq<Str>)
    ensures Mapped(Id, xs) == xs
  {
  }

  lemma SectionsWorded(c: Catalog)
    requires WordedCatalog(c)
    ensures forall k <- Sort(Id, Mapped(ResourceKey, c.resources)) :: WordedKey(k)
    ensures forall s <- Sort(StructName, c.structs) :: WordedStruct(s)
    ensures forall f <- Sort(Semantic, c.functions) :: WordedSignature(f)
  {
    hide Semantic;
    AllWorded(Mapped(ResourceKey, c.resources), Id, WordedKey);
    AllWorded(c.structs, StructName, WordedStruct);
    AllWorded(c.functions, Semantic, WordedSignature);
  }
}
