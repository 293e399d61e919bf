/** What can be written. */
module EncodeFacts {
  import opened Bytes
  import opened Seqs
  import opened Wire
  import opened Lists
  import opened Programs
  import opened HostTypes
  import opened ImportSections
  import opened ImportLimits
  import opened Sections
  import opened CallableSections
  import opened Payload
  import opened TreeWriters
  import opened SectionWriters
  import opened Encoder
  import opened SchemaOrder
  import opened WireOrder
  import opened Sorting
  import Budgets
  import Canonical
  import Codec
  import Constants
  import Ledger
  import Schemas

  // ---------------------------------------------------------------- the reader's limits are within the writer's

  lemma {:induction false} ValueWritable(depth: nat, v: Constants.Value)
    requires Constants.FitsValue(depth, v)
    ensures Writable(depth, v)
    decreases v
  {
    match v {
      case Array(vs) => forall u <- vs ensures Writable(depth + 1, u) { ValueWritable(depth + 1, u); }
      case Map(es) =>
        forall e <- es ensures WritablePair(depth + 1, e) {
          assert Constants.FitsEntry(depth + 1, e) && e.key < e && e.value < e;
          ValueWritable(depth + 1, e.key);
          ValueWritable(depth + 1, e.value);
        }
      case _ =>
    }
  }

  lemma {:induction false} SchemaWritable(depth: nat, t: Schemas.TypeSchema)
    requires Schemas.FitsSchema(depth, t)
    ensures WritableSchema(t)
    decreases t
  {
    match t {
      case Array(u) => SchemaWritable(depth + 1, u);
      case Map(u) => SchemaWritable(depth + 1, u);
      case Optional(u) => SchemaWritable(depth + 1, u);
      case Named(_, ts) => forall u <- ts ensures WritableSchema(u) { SchemaWritable(depth + 1, u); }
      case Tuple(ts) => forall u <- ts ensures WritableSchema(u) { SchemaWritable(depth + 1, u); }
      case TupleRest(ts, v) =>
        SchemaWritable(depth + 1, v);
        forall u <- ts ensures WritableSchema(u) { SchemaWritable(depth + 1, u); }
      case Callable(ts, v) =>
        SchemaWritable(depth + 1, v);
        forall u <- ts ensures WritableSchema(u) { SchemaWritable(depth + 1, u); }
      case Object(fs) =>
        forall f <- fs ensures WritableField(f) {
          assert Schemas.FitsField(depth + 1, f) && f.ty < f;
          SchemaWritable(depth + 1, f.ty);
        }
      case _ =>
    }
  }

  lemma EntryWritable(e: ImportEntry)
    requires FitsEntry(e)
    ensures WritableEntry(e)
  {
    Budgets.EntrySized(e);
  }

  lemma MetaWritable(v: Version, c: Content)
    requires FitsContent(v, c)
    ensures (c.typeMap.Some? ==> WritableTypeMap(c.typeMap.value)) && (c.debug.Some? ==> WritableDebug(c.debug.value))
    ensures WritableCallables(c.callables)
  {
    if c.typeMap.Some? {
      forall o <- c.typeMap.value.schemas ensures WritableOpt(o) {
        assert FitsOptSchema(o);
        if o.Some? { SchemaWritable(0, o.value); }
      }
    }
    if c.debug.Some? {
      var d := c.debug.value;
      forall f <- d.functions ensures WritableFunction(f) {
        assert FitsFunction(f);
        forall a <- f.args ensures WritableArg(a) { assert FitsArg(a); }
      }
      forall l <- d.locals ensures WritableLocal(l) { assert FitsLocal(l); }
    }
    forall p <- c.callables.prototypes ensures WritablePrototype(p) {
      assert FitsPrototype(p);
      if p.schema.Some? { SchemaWritable(0, p.schema.value); }
    }
    forall e <- c.callables.exports ensures WritableExport(e) { assert FitsExport(e); }
  }

  lemma DeclsWritable(ds: seq<Decl>)
    requires FitsDeclList(ds)
    ensures Short(ds) && forall d <- ds :: WritableDecl(d)
  {
    forall d <- ds ensures WritableDecl(d) {
      assert FitsDecl(d);
      SchemaWritable(0, d.body);
      forall x <- d.params ensures WritableName(x) { assert FitsString(x); }
    }
  }

  // ---------------------------------------------------------------- sorting changes nothing about what can be written

  lemma AllRearranged<T>(p: T -> bool, xs: seq<T>, ys: seq<T>)
    requires multiset(xs) == multiset(ys) && forall x <- xs :: p(x)
    ensures forall y <- ys :: p(y)
  {
    forall y <- ys ensures p(y) { Member(ys, xs, y); }
  }

  lemma ObjectWritable(fs: seq<Schemas.Field>)
    ensures WritableSchema(Schemas.Object(fs)) <==> Short(fs) && forall f <- fs :: WritableField(f)
  {
  }

  lemma {:induction false} LayWritable(t: Schemas.TypeSchema)
    ensures WritableSchema(LaySchema(t)) <==> WritableSchema(t)
    decreases t
  {
    hide Sort, LayFields, LaySchemas;
    match t {
      case Array(u) => LayWritable(u);
      case Map(u) => LayWritable(u);
      case Optional(u) => LayWritable(u);
      case Named(_, ts) => LayAllWritable(ts);
      case Tuple(ts) => LayAllWritable(ts);
      case TupleRest(ts, v) =>
        LayWritable(v);
        LayAllWritable(ts);
      case Callable(ts, v) =>
        LayWritable(v);
        LayAllWritable(ts);
      case Object(fs) =>
        LayFieldsWritable(fs);
        ObjectWritable(fs);
        ObjectWritable(Sort(Schemas.FieldName, LayFields(fs)));
      case _ =>
    }
  }

  lemma {:induction false} LayAllWritable(ts: seq<Schemas.TypeSchema>)
    ensures (forall u <- LaySchemas(ts) :: WritableSchema(u)) <==> (forall u <- ts :: WritableSchema(u))
    decreases ts
  {
    forall i | 0 <= i < |ts| ensures WritableSchema(LaySchemas(ts)[i]) <==> WritableSchema(ts[i]) { LayWritable(ts[i]); }
    hide WritableSchema, LaySchemas;
    if forall u <- LaySchemas(ts) :: WritableSchema(u) {
      forall i | 0 <= i < |ts| ensures WritableSchema(ts[i]) { assert LaySchemas(ts)[i] in LaySchemas(ts); }
    }
    if forall u <- ts :: WritableSchema(u) {
      forall i | 0 <= i < |ts| ensures WritableSchema(LaySchemas(ts)[i]) { assert ts[i] in ts; }
    }
  }

  lemma {:induction false} LayFieldsWritable(fs: seq<Schemas.Field>)
    ensures (forall f <- Sort(Schemas.FieldName, LayFields(fs)) :: WritableField(f)) <==> (forall f <- fs :: WritableField(f))
    decreases fs
  {
    forall i | 0 <= i < |fs| ensures WritableField(LayField(fs[i])) <==> WritableField(fs[i]) {
      assert fs[i].ty < fs[i];
      LayWritable(fs[i].ty);
    }
    hide WritableField, LayField, Sort, LayFields;
    var ls := LayFields(fs);
    var sorted := Sort(Schemas.FieldName, ls);
    if forall f <- sorted :: WritableField(f) {
      AllRearranged(WritableField, sorted, ls);
      forall i | 0 <= i < |fs| ensures WritableField(fs[i]) { assert ls[i] in ls; }
    }
    if forall f <- fs :: WritableField(f) {
      forall i | 0 <= i < |fs| ensures WritableField(ls[i]) { assert fs[i] in fs; }
      AllRearranged(WritableField, ls, sorted);
    }
  }

  lemma LayOptWritable(o: Option<Schemas.TypeSchema>)
    ensures WritableOpt(LayOpt(o)) <==> WritableOpt(o)
  {
    if o.Some? { LayWritable(o.value); }
  }

  lemma MappedAll<T>(p: T -> bool, f: T -> T, xs: seq<T>)
    requires forall x <- xs :: p(f(x)) <==> p(x)
    ensures (forall y <- Mapped(f, xs) :: p(y)) <==> (forall x <- xs :: p(x))
  {
    var ys := Mapped(f, xs);
    if forall y <- ys :: p(y) {
      forall i | 0 <= i < |xs| ensures p(xs[i]) { assert ys[i] in ys && xs[i] in xs; }
    }
  }

  lemma LayTypeMapWritable(m: TypeMap)
    ensures WritableTypeMap(LayTypeMap(m)) <==> WritableTypeMap(m)
  {
    hide WritableOpt, LayOpt, SortBy;
    forall o <- m.schemas ensures WritableOpt(LayOpt(o)) <==> WritableOpt(o) { LayOptWritable(o); }
    MappedAll(WritableOpt, LayOpt, m.schemas);
  }

  lemma LayCallablesWritable(c: Callables)
    ensures WritableCallables(LayCallables(c)) <==> WritableCallables(c)
  {
    hide WritableOpt, LayOpt;
    forall p <- c.prototypes ensures WritablePrototype(LayPrototype(p)) <==> WritablePrototype(p) { LayOptWritable(p.schema); }
    MappedAll(WritablePrototype, LayPrototype, c.prototypes);
  }

  lemma LayDeclsWritable(ds: seq<Decl>)
    ensures (forall d <- LayDecls(ds) :: WritableDecl(d)) <==> (forall d <- ds :: WritableDecl(d))
  {
    hide WritableSchema, LaySchema, Sort;
    forall d <- ds ensures WritableDecl(LayDecl(d)) <==> WritableDecl(d) { LayWritable(d.body); }
    hide WritableDecl, LayDecl;
    MappedAll(WritableDecl, LayDecl, ds);
    var ls := Mapped(LayDecl, ds);
    if forall d <- LayDecls(ds) :: WritableDecl(d) { AllRearranged(WritableDecl, LayDecls(ds), ls); }
    if forall d <- ls :: WritableDecl(d) { AllRearranged(WritableDecl, ls, LayDecls(ds)); }
  }

  lemma {:induction false} ZipSchemas(xs: seq<HostImport>, os: seq<Option<ImportSchema>>)
    requires |xs| == |os|
    ensures Mapped(Schema, Codec.Zip(xs, os)) == os
  {
  }

  /** A program within the reader's limits, with its schemas absent or aligned, can be written. */
  lemma FitsEncodes(p: Program)
    requires FitsContent(13, PartsOf(p)) && (p.hostSchemas == [] || |p.hostSchemas| == |p.imports|)
    ensures Encodable(p)
  {
    hide LayTypeMap, LayCallables, LayDecls, WritableTypeMap, WritableDebug, WritableCallables, WritableDecl, WritableEntry;
    var c := PartsOf(p);
    forall v <- p.constants ensures WritableConst(v) {
      assert FitsConst(v);
      ValueWritable(0, v);
    }
    forall e <- c.entries ensures WritableEntry(e) {
      assert FitsEntry(e);
      EntryWritable(e);
    }
    if p.hostSchemas != [] {
      ZipSchemas(p.imports, p.hostSchemas);
    }
    MetaWritable(13, c);
    DeclsWritable(c.decls);
    if p.typeMap.Some? { LayTypeMapWritable(p.typeMap.value); }
    LayCallablesWritable(p.callables);
    LayDeclsWritable(p.decls);
    SameMany(p.decls);
  }

  lemma SameMany(ds: seq<Decl>)
    ensures |LayDecls(ds)| == |ds|
  {
  }

  /** A program's hash maps are hash maps: entries with distinct keys. */
  ghost predicate HasMaps(p: Program) { KeyedContent(Parts(p)) }

  /** The writer's sorts give hash maps the order that decoding gives them. */
  lemma WrittenIsContent(p: Program)
    requires HasMaps(p)
    ensures PartsOf(p) == Codec.ContentOf(p)
  {
    hide LayContent, KeyedContent, Canonical.CanonContent;
    ContentLaid(Parts(p));
  }

  /** Decoded programs have hash maps. */
  lemma DecodedHasMaps(c: Content)
    ensures HasMaps(Codec.ToProgram(13, c))
  {
    hide KeyedContent;
    var d := Canonical.CanonContent(c);
    CanonIsKeyedContent(c);
    assert Codec.Zip(Mapped(Item, d.entries), Mapped(Schema, d.entries)) == d.entries;
  }

  /** Every version 13 payload a decoder accepts: encoding the program succeeds and decoding again gives the same program,
      from no more bytes. */
  lemma DecodedEncodes(bytes: seq<u8>)
    requires Codec.DecodeContent(bytes).Ok? && Codec.DecodeContent(bytes).value.version == 13
    ensures var p := Codec.Decode(bytes).value;
            var again := Codec.Image(13, PartsOf(p)).rest;
            Encodable(p) && |again| <= |bytes| && Codec.Decode(again) == Ok(p)
  {
    hide Codec.DecodeContent, FitsContent, Canonical.CanonContent, Codec.Image, Encodable;
    var d := Codec.DecodeContent(bytes).value;
    var p := Codec.Decode(bytes).value;
    Codec.DecodedIsFixedPoint(bytes);
    Codec.ContentOfProgram(d.content);
    DecodedHasMaps(d.content);
    assert p == Codec.ToProgram(13, d.content);
    WrittenIsContent(p);
    FitsEncodes(p);
  }

  // ---------------------------------------------------------------- writable but not readable

  /** The reader bounds import names; the writer does not. */
  lemma LongNameRefused(e: ImportEntry, s: Cur)
    requires MAX_NAME < |e.item.name| <= MAX_BLOB
    ensures ReadEntry(PutEntry(e, s)).Fail?
  {
    hide PutBlob, ReadBlob, PutU8, PutOption;
    ReadPutBlob(e.item.name, PutU8(e.item.arity, PutValueType(e.item.result, PutOption(e.schema, PutImportSchema, s))));
  }

  function OneImport(x: Str): Program {
    Program([], [], 0, [HostImport(x, 0, 0)], [], None, None, Callables([], [], [], [], []), [])
  }

  lemma EntriesRefused(e: ImportEntry, s: Cur)
    requires ReadEntry(PutEntry(e, s)).Fail?
    ensures ReadImports(13, PutImports(13, [e], s)).Fail?
  {
    hide ReadEntry, PutEntry, PutCount, ReadCount;
    var t := PutEntry(e, s);
    assert PutMany([e], PutEntry, s) == t by { assert [e][1..] == []; }
    if ReadCount(7, 0, PutCount(1, t)).Got? {
      CountBack(t);
    }
  }

  lemma CountBack(t: Cur)
    requires ReadCount(7, 0, PutCount(1, t)).Got?
    ensures ReadCount(7, 0, PutCount(1, t)) == Got(1, t)
  {
    ReadPutLength(1, t);
  }

  lemma NoSchemas(e: ImportEntry)
    requires e.schema.None?
    ensures Ledger.SchemasOf([e]) == []
  {
    var os := Mapped(Schema, [e]);
    assert os == [None] && os[1..] == [];
    assert Present(os) == [] + Present(os[1..]);
  }

  lemma NoCost(hs: seq<ImportSchema>, b: Budget)
    requires hs == []
    ensures Ledger.ImportsCost(hs).Plus(b) == b
  {
  }

  predicate LoneImport(c: Content, e: ImportEntry) {
    e.schema.None? && c == Content([], [], [e], None, None, Callables([], [], [], [], []), [])
  }

  lemma OneItem(c: Content, e: ImportEntry)
    requires LoneImport(c, e)
    ensures Ledger.ContentItems(13, c) == 1
  {
  }

  /** What a payload of one import debits: its count. */
  lemma OneImportCost(c: Content, e: ImportEntry, s: Cur)
    requires LoneImport(c, e)
    ensures Codec.PutPayload(13, c, s).b == s.b.(items := s.b.items + 1)
  {
    hide PutContent, Ledger.ImportsCost, Ledger.SchemasOf, Ledger.ContentItems;
    Ledger.ContentCosts(13, c, s);
    OneItem(c, e);
    NoSchemas(e);
    NoCost(Ledger.SchemasOf([e]), s.b.(items := s.b.items + 1));
  }

  lemma LonePayload(c: Content, e: ImportEntry, s: Cur)
    requires LoneImport(c, e) && s == Cur([], FullBudget.(items := MAX_ITEMS - 1))
    ensures Cur(Codec.Image(13, c).rest, FullBudget) == PutHeader(13, PutContent(13, c, s))
  {
    hide Codec.Image;
    OneImportCost(c, e, s);
    Codec.PayloadFrame(13, c, s);
    hide PutHeader, PutContent;
    assert Codec.Image(13, c).rest + [] == Codec.Image(13, c).rest;
  }

  lemma RefusedAtImports(c: Content, e: ImportEntry)
    requires LoneImport(c, e) && MAX_NAME < |e.item.name| <= MAX_BLOB
    ensures Codec.DecodeContent(Codec.Image(13, c).rest).Err?
  {
    hide PutHeader, PutMeta, PutImports, PutBlob, ReadHeader, ReadBlob, ReadImports, ReadMeta, ReadList, PutList, ReadEntry, PutEntry, Codec.Image;
    var s := Cur([], FullBudget.(items := MAX_ITEMS - 1));
    var m := PutMeta(13, c, s);
    LonePayload(c, e, s);
    ReadPutHeader(13, PutContent(13, c, s));
    NoConstants(PutBlob([], PutImports(13, [e], m)));
    ReadPutBlob([], PutImports(13, [e], m));
    LongNameRefused(e, m);
    EntriesRefused(e, m);
  }

  lemma NoConstants(t: Cur)
    ensures ReadList(1, 0, ReadConst, PutList([], PutConst, t)) == Got([], t)
  {
    ReadPutCount(0, 1, 0, t);
  }

  /** Any import name between the two limits gives a program that encodes and does not decode. */
  lemma LongNameEncodesOnly(x: Str)
    requires MAX_NAME < |x| <= MAX_BLOB
    ensures Encodable(OneImport(x)) && Codec.Decode(Codec.Image(13, PartsOf(OneImport(x))).rest).Err?
  {
    hide Codec.DecodeContent, Codec.Image;
    var p := OneImport(x);
    var e := ImportEntry(HostImport(x, 0, 0), None);
    assert PartsOf(p).entries == [e];
    RefusedAtImports(PartsOf(p), e);
  }
}
