/** What reads back. */
module ReadBack {
  import opened Wire
  import opened Lists
  import opened Programs
  import opened Sections
  import opened CallableSections
  import opened ImportSections
  import opened HostInjective
  import opened Payload
  import opened SectionWriters
  import opened Encoder
  import opened EncodeFacts
  import opened Injectivity
  import opened WireOrder
  import Codec

  /** Content the writer can write. */
  ghost predicate WritableContent(c: Content) {
    && Short(c.constants) && (forall v <- c.constants :: WritableConst(v))
    && Short(c.code) && Short(c.entries) && (forall e <- c.entries :: WritableEntry(e))
    && (c.typeMap.Some? ==> WritableTypeMap(c.typeMap.value))
    && (c.debug.Some? ==> WritableDebug(c.debug.value))
    && WritableCallables(c.callables)
    && Short(c.decls) && (forall d <- c.decls :: WritableDecl(d))
  }

  /** The schema entries of the type map, which have no count on the wire. */
  function SchemaCount(c: Content): nat { if c.typeMap.Some? then |c.typeMap.value.schemas| else 0 }

  /** As many schema entries as locals, which is what the reader takes. */
  predicate Aligned(c: Content) { c.typeMap.Some? ==> |c.typeMap.value.schemas| == |c.typeMap.value.locals| }

  lemma FitsWritable(c: Content)
    requires FitsContent(13, c)
    ensures WritableContent(c)
  {
    forall v <- c.constants ensures WritableConst(v) {
      assert FitsConst(v);
      ValueWritable(0, v);
    }
    forall e <- c.entries ensures WritableEntry(e) {
      assert FitsEntry(e);
      EntryWritable(e);
    }
    MetaWritable(13, c);
    DeclsWritable(c.decls);
  }

  lemma EntryListInjective(es: seq<ImportEntry>, x: Cur, fs: seq<ImportEntry>, y: Cur)
    requires Short(es) && Short(fs) && (forall e <- es :: WritableEntry(e)) && (forall f <- fs :: WritableEntry(f))
    requires PutList(es, PutEntry, x).rest == PutList(fs, PutEntry, y).rest
    ensures es == fs && x.rest == y.rest
  {
    hide PutCount, PutEntry;
    CountInjective(|es|, PutMany(es, PutEntry, x), |fs|, PutMany(fs, PutEntry, y));
    EntriesInjective(es, x, fs, y);
  }

  lemma FlagInjective<T, U>(o: Option<T>, p: (T, Cur) -> Cur, x: Cur, q: Option<U>, r: (U, Cur) -> Cur, y: Cur)
    requires PutOption(o, p, x).rest == PutOption(q, r, y).rest
    ensures o.Some? <==> q.Some?
    ensures o.Some? ==> p(o.value, x).rest == r(q.value, y).rest
    ensures o.None? ==> x.rest == y.rest
  {
    hide PutU8;
    ByteInjective(if o.Some? then 1 else 0, if o.Some? then p(o.value, x) else x,
                  if q.Some? then 1 else 0, if q.Some? then r(q.value, y) else y);
  }

  function AfterTypeMap(c: Content, s: Cur): Cur {
    PutOption(c.debug, PutDebug, PutCallables(c.callables, PutList(c.decls, PutDecl, s)))
  }

  lemma MetaParts(c: Content, s: Cur)
    ensures PutMeta(13, c, s) == PutOption(c.typeMap, PutTypeMap, AfterTypeMap(c, s))
  {
    hide PutTypeMap, PutDebug, PutCallables, PutDecl, PutOption, PutList;
  }

  /** Both have a type map or neither does; the flag and the locals are the same. */
  predicate SameLocals(c: Content, d: Content) {
    && (c.typeMap.Some? <==> d.typeMap.Some?)
    && (c.typeMap.Some? ==> c.typeMap.value.strict == d.typeMap.value.strict && c.typeMap.value.locals == d.typeMap.value.locals)
  }

  lemma MetaLocals(c: Content, x: Cur, d: Content, y: Cur)
    requires WritableContent(c) && WritableContent(d) && PutMeta(13, c, x).rest == PutMeta(13, d, y).rest
    ensures SameLocals(c, d)
    ensures SchemaCount(c) == SchemaCount(d) ==> c.typeMap == d.typeMap && AfterTypeMap(c, x).rest == AfterTypeMap(d, y).rest
  {
    hide PutMeta, PutOption, PutTypeMap, AfterTypeMap, WritableDebug, WritableCallables, WritableDecl, WritableEntry, WritableConst;
    MetaParts(c, x);
    MetaParts(d, y);
    FlagInjective(c.typeMap, PutTypeMap, AfterTypeMap(c, x), d.typeMap, PutTypeMap, AfterTypeMap(d, y));
    if c.typeMap.Some? {
      LocalsInjective(c.typeMap.value, AfterTypeMap(c, x), d.typeMap.value, AfterTypeMap(d, y));
      if SchemaCount(c) == SchemaCount(d) {
        TypeMapInjective(c.typeMap.value, AfterTypeMap(c, x), d.typeMap.value, AfterTypeMap(d, y));
      }
    }
  }

  lemma MetaInjective(c: Content, x: Cur, d: Content, y: Cur)
    requires WritableContent(c) && WritableContent(d) && PutMeta(13, c, x).rest == PutMeta(13, d, y).rest
    requires SchemaCount(c) == SchemaCount(d)
    ensures c.typeMap == d.typeMap && c.debug == d.debug && c.callables == d.callables && c.decls == d.decls && x.rest == y.rest
  {
    DebugInjective();
    CallablesInjective();
    DeclInjective();
    hide PutMeta, PutTypeMap, PutDebug, PutCallables, PutDecl, PutOption, PutList, WritableTypeMap, WritableDebug, WritableCallables, WritableDecl, WritableEntry, WritableConst;
    MetaLocals(c, x, d, y);
    var x1, y1 := PutList(c.decls, PutDecl, x), PutList(d.decls, PutDecl, y);
    var x2, y2 := PutCallables(c.callables, x1), PutCallables(d.callables, y1);
    OptionInjective(PutDebug, WritableDebug, c.debug, x2, d.debug, y2);
    assert c.callables == d.callables && x1.rest == y1.rest;
    ListInjective(PutDecl, WritableDecl, c.decls, x, d.decls, y);
  }

  /** Everything before the type map can be told from the bytes. */
  lemma HeadInjective(c: Content, x: Cur, d: Content, y: Cur)
    requires WritableContent(c) && WritableContent(d) && PutContent(13, c, x).rest == PutContent(13, d, y).rest
    ensures c.constants == d.constants && c.code == d.code && c.entries == d.entries && PutMeta(13, c, x).rest == PutMeta(13, d, y).rest
  {
    SmallInjective();
    hide PutConst, PutBlob, PutEntry, PutMeta, PutList, WritableTypeMap, WritableDebug, WritableCallables, WritableDecl, WritableEntry, WritableConst;
    var x1, y1 := PutMeta(13, c, x), PutMeta(13, d, y);
    var x2, y2 := PutList(c.entries, PutEntry, x1), PutList(d.entries, PutEntry, y1);
    ListInjective(PutConst, WritableConst, c.constants, PutBlob(c.code, x2), d.constants, PutBlob(d.code, y2));
    BlobInjective(c.code, x2, d.code, y2);
    EntryListInjective(c.entries, x1, d.entries, y1);
  }

  lemma HeaderInjective(v: Version, x: Cur, w: Version, y: Cur)
    requires PutHeader(v, x).rest == PutHeader(w, y).rest
    ensures v == w && x.rest == y.rest
  {
    hide PutU16;
    SamePrefix(MAGIC, PutU16(v, PutU16(0, x)).rest, MAGIC, PutU16(w, PutU16(0, y)).rest);
    HalfInjective(v, PutU16(0, x), w, PutU16(0, y));
    HalfInjective(0, x, 0, y);
  }

  /** Two contents with the same bytes agree up to the locals of their type maps, and are the same exactly when they have
      equally many schema entries; so aligned ones always are. */
  lemma ImageInjective(c: Content, d: Content)
    requires WritableContent(c) && WritableContent(d) && Codec.Image(13, c).rest == Codec.Image(13, d).rest
    ensures c.constants == d.constants && c.code == d.code && c.entries == d.entries && SameLocals(c, d)
    ensures c == d <==> SchemaCount(c) == SchemaCount(d)
    ensures Aligned(c) && Aligned(d) ==> c == d
  {
    hide PutHeader, PutContent, PutMeta, WritableContent;
    HeaderInjective(13, PutContent(13, c, Nil), 13, PutContent(13, d, Nil));
    HeadInjective(c, Nil, d, Nil);
    MetaLocals(c, Nil, d, Nil);
    if SchemaCount(c) == SchemaCount(d) {
      MetaInjective(c, Nil, d, Nil);
    }
  }

  // ---------------------------------------------------------------- programs

  lemma EncodableContent(p: Program)
    requires Encodable(p)
    ensures WritableContent(PartsOf(p))
  {
    hide LayTypeMap, LayCallables, LayDecls, WritableTypeMap, WritableDebug, WritableCallables, WritableDecl, WritableEntry, WritableConst;
    if p.typeMap.Some? { LayTypeMapWritable(p.typeMap.value); }
    LayCallablesWritable(p.callables);
    LayDeclsWritable(p.decls);
    SameMany(p.decls);
  }

  /** The content of which written bytes are an image within the limits, if a decoder takes them: it agrees with what was
      written up to the locals. */
  lemma DecodesAlike(p: Program, d: Codec.Decoded)
    requires Encodable(p) && Codec.DecodeContent(Codec.Image(13, PartsOf(p)).rest) == Ok(d)
    ensures d.version == 13 && Aligned(d.content) && Codec.Encodes(Codec.Image(13, PartsOf(p)).rest, d)
    ensures d.content.constants == p.constants && d.content.code == p.code && d.content.entries == PartsOf(p).entries
    ensures SameLocals(d.content, PartsOf(p))
    ensures d.content == PartsOf(p) <==> SchemaCount(d.content) == SchemaCount(PartsOf(p))
  {
    hide Codec.DecodeContent, Encodable, WritableContent;
    Codec.DecodeExact(Codec.Image(13, PartsOf(p)).rest, d);
    EncodableContent(p);
    VersionIs(p, d);
    FitsWritable(d.content);
    ImageInjective(d.content, PartsOf(p));
  }

  lemma VersionIs(p: Program, d: Codec.Decoded)
    requires Codec.Image(13, PartsOf(p)).rest == Codec.Image(d.version, d.content).rest
    ensures d.version == 13
  {
    hide PutHeader, PutContent;
    HeaderInjective(13, PutContent(13, PartsOf(p), Nil), d.version, PutContent(d.version, d.content, Nil));
  }

  lemma OwnIsReadable(p: Program, d: Codec.Decoded)
    requires HasMaps(p) && d.version == 13 && d.content == PartsOf(p) && Codec.Encodes(Codec.Image(13, PartsOf(p)).rest, d)
    ensures Codec.Readable(p)
  {
    hide Codec.Image, FitsContent, Codec.ContentOf, PartsOf, HasMaps;
    WrittenIsContent(p);
  }

  /** The number of schema entries is that of the decoded program. */
  lemma CountIs(v: Version, c: Content)
    ensures SchemaCount(c) == var m := Codec.ToProgram(v, c).typeMap; if m.Some? then |m.value.schemas| else 0
  {
  }

  /** A program that can be written decodes again to itself, up to the spelling of absent schemas and the recomputed local
      count, exactly when it is within the reader's limits; and if its type map is aligned, its bytes decode to nothing else. */
  lemma ReadsBackExactly(p: Program)
    requires Encodable(p) && HasMaps(p)
    ensures Codec.Decode(Codec.Image(13, PartsOf(p)).rest) == Ok(Codec.Normal(p)) <==> Codec.Readable(p)
    ensures Aligned(PartsOf(p)) && Codec.Decode(Codec.Image(13, PartsOf(p)).rest).Ok? ==> Codec.Readable(p)
  {
    hide Codec.DecodeContent, Encodable, HasMaps, Codec.Readable, Codec.ContentOf, Codec.ToProgram, Codec.Image, PartsOf, Codec.Encodes;
    var bytes := Codec.Image(13, PartsOf(p)).rest;
    WrittenIsContent(p);
    if Codec.Readable(p) {
      Codec.RoundTrip(p);
    }
    if Codec.DecodeContent(bytes).Ok? {
      var d := Codec.DecodeContent(bytes).value;
      DecodesAlike(p, d);
      CountIs(13, d.content);
      CountIs(13, PartsOf(p));
      if Codec.Decode(bytes) == Ok(Codec.Normal(p)) || Aligned(PartsOf(p)) {
        OwnIsReadable(p, d);
      }
    }
  }

  /** A misaligned program that can be written never decodes to itself: its bytes decode to nothing, or to aligned content
      with the same constants, code, imports and locals and another number of schema entries, of which they are the image. */
  lemma MisalignedReadsOther(p: Program)
    requires Encodable(p) && HasMaps(p) && !Aligned(PartsOf(p))
    ensures !Codec.Readable(p) && Codec.Decode(Codec.Image(13, PartsOf(p)).rest) != Ok(Codec.Normal(p))
    ensures var r := Codec.DecodeContent(Codec.Image(13, PartsOf(p)).rest);
            r.Ok? ==> var c := r.value.content;
              && r.value.version == 13 && Aligned(c) && SameLocals(c, PartsOf(p)) && SchemaCount(c) != SchemaCount(PartsOf(p))
              && c.constants == p.constants && c.code == p.code && c.entries == PartsOf(p).entries
              && Codec.Image(13, c).rest == Codec.Image(13, PartsOf(p)).rest
  {
    hide Codec.DecodeContent, Encodable, HasMaps, PartsOf, Codec.Image, Codec.ToProgram, Codec.ContentOf;
    ReadsBackExactly(p);
    WrittenIsContent(p);
    var r := Codec.DecodeContent(Codec.Image(13, PartsOf(p)).rest);
    if r.Ok? {
      DecodesAlike(p, r.value);
    }
  }
}
