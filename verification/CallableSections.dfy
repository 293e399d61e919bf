/** Callable metadata and guest struct declarations: the sections around the machine. */
module CallableSections {
  import opened Bytes
  import opened Seqs
  import opened Wire
  import opened Lists
  import opened Schemas
  import opened Programs
  import opened Sections

  // ---------------------------------------------------------------- fixed-size records

  function ReadScriptFunction(s: Cur): (r: Read<ScriptFunction>)
    ensures r.Got? ==> s == PutScriptFunction(r.v, r.s)
  {
    var (x, s) :- ReadU32(s);
    var (y, s) :- ReadU32(s);
    Got(ScriptFunction(x, y), s)
  }

  function PutScriptFunction(f: ScriptFunction, s: Cur): Cur { PutU32(f.entry, PutU32(f.end, s)) }

  lemma ScriptFunctionLaws()
    ensures Lawful(ReadScriptFunction, PutScriptFunction, Any, 8)
  {
    hide ReadU32, PutU32;
    forall f: ScriptFunction, s ensures ReadScriptFunction(PutScriptFunction(f, s)) == Got(f, s) { Primitives(); }
    forall f: ScriptFunction, s ensures |PutScriptFunction(f, s).rest| == 8 + |s.rest| { Lengths(); }
    forall f: ScriptFunction, a, s ensures PutScriptFunction(f, Join(a, s)) == Join(PutScriptFunction(f, a), s) { Frames(); }
    hide ReadScriptFunction, PutScriptFunction;
  }

  function ReadOptId(s: Cur): (r: Read<Option<u32>>)
    ensures r.Got? ==> s == PutOptU32(r.v, r.s)
  {
    ReadOption(BoolFlag, ReadU32, s)
  }

  function ReadRegion(s: Cur): (r: Read<Region>)
    ensures r.Got? ==> s == PutRegion(r.v, r.s)
  {
    var (x, s) :- ReadU32(s);
    var (y, s) :- ReadU32(s);
    var (id, s) :- ReadOptId(s);
    Got(Region(x, y, id), s)
  }

  function PutRegion(r: Region, s: Cur): Cur { PutU32(r.start, PutU32(r.end, PutOptU32(r.prototype, s))) }

  lemma RegionLaws()
    ensures Lawful(ReadRegion, PutRegion, Any, 9)
  {
    OptU32Laws();
    WordLaws();
    hide ReadU32, PutU32;
    forall x: Region, s ensures ReadRegion(PutRegion(x, s)) == Got(x, s) {
      Primitives();
      OptionComplete(x.prototype, BoolFlag, ReadU32, PutU32, Any, s);
      hide ReadOption, PutOption;
    }
    forall x: Region, s ensures |PutRegion(x, s).rest| >= 9 + |s.rest| { Lengths(); }
    forall x: Region, a, s ensures PutRegion(x, Join(a, s)) == Join(PutRegion(x, a), s) { Frames(); }
    hide ReadRegion, PutRegion;
  }

  function ReadBinding(s: Cur): (r: Read<Binding>)
    ensures r.Got? ==> s == PutBinding(r.v, r.s)
  {
    var (x, s) :- ReadU16(s);
    var (y, s) :- ReadU32(s);
    Got(Binding(x, y), s)
  }

  function PutBinding(b: Binding, s: Cur): Cur { PutU16(b.slot, PutU32(b.prototype, s)) }

  lemma BindingLaws()
    ensures Lawful(ReadBinding, PutBinding, Any, 6)
  {
    hide ReadU16, PutU16, ReadU32, PutU32;
    forall b: Binding, s ensures ReadBinding(PutBinding(b, s)) == Got(b, s) { Primitives(); }
    forall b: Binding, s ensures |PutBinding(b, s).rest| == 6 + |s.rest| { Lengths(); }
    forall b: Binding, a, s ensures PutBinding(b, Join(a, s)) == Join(PutBinding(b, a), s) { Frames(); }
    hide ReadBinding, PutBinding;
  }

  predicate FitsExport(e: Export) { FitsString(e.name) }

  function ReadExport(s: Cur): (r: Read<Export>)
    ensures r.Got? ==> FitsExport(r.v) && s == PutExport(r.v, r.s)
  {
    var (x, s) :- ReadString(s);
    var (y, s) :- ReadU16(s);
    Got(Export(x, y), s)
  }

  function PutExport(e: Export, s: Cur): Cur { PutBlob(e.name, PutU16(e.slot, s)) }

  lemma ExportLaws()
    ensures Lawful(ReadExport, PutExport, FitsExport, 6)
  {
    hide ReadU16, PutU16, ReadString, PutBlob;
    forall e, s | FitsExport(e) ensures ReadExport(PutExport(e, s)) == Got(e, s) { Primitives(); Strings(); }
    forall e: Export, s ensures |PutExport(e, s).rest| >= 6 + |s.rest| { Lengths(); }
    forall e: Export, a, s ensures PutExport(e, Join(a, s)) == Join(PutExport(e, a), s) { Frames(); }
    hide ReadExport, PutExport;
  }

  // ---------------------------------------------------------------- prototypes

  function ReadKind(s: Cur): (r: Read<CallableKind>)
    ensures r.Got? ==> s == PutKind(r.v, r.s)
  {
    var (x, s) :- ReadU8(s);
    if x >= 3 then Fail(InvalidValueType(x)) else Got(x, s)
  }

  function PutKind(k: CallableKind, s: Cur): Cur { PutU8(k, s) }

  /** The id is four bytes for either tag, but a host import must fit two. */
  function ReadTarget(s: Cur): (r: Read<Target>)
    ensures r.Got? ==> s == PutTarget(r.v, r.s)
  {
    var (tag, s) :- ReadU8(s);
    var (id, s) :- ReadU32(s);
    if tag == 0 then Got(Script(id), s)
    else if tag == 1 && id < 0x1_0000 then Got(Host(id), s)
    else Fail(InvalidValueType(tag))
  }

  function PutTarget(t: Target, s: Cur): Cur {
    match t
    case Script(id) => PutU8(0, PutU32(id, s))
    case Host(index) => PutU8(1, PutU32(index, s))
  }

  lemma HeaderLaws()
    ensures Lawful(ReadKind, PutKind, Any, 1)
    ensures Lawful(ReadTarget, PutTarget, Any, 5)
  {
    hide ReadU8, PutU8, ReadU32, PutU32;
    forall k: CallableKind, s ensures ReadKind(PutKind(k, s)) == Got(k, s) { Primitives(); }
    forall k: CallableKind, s ensures |PutKind(k, s).rest| == 1 + |s.rest| { Lengths(); }
    forall k: CallableKind, a, s ensures PutKind(k, Join(a, s)) == Join(PutKind(k, a), s) { Frames(); }
    hide ReadKind, PutKind;
    forall t: Target, s ensures ReadTarget(PutTarget(t, s)) == Got(t, s) { Primitives(); }
    forall t: Target, s ensures |PutTarget(t, s).rest| == 5 + |s.rest| { Lengths(); }
    forall t: Target, a, s ensures PutTarget(t, Join(a, s)) == Join(PutTarget(t, a), s) { Frames(); }
    hide ReadTarget, PutTarget;
  }

  function ReadSlots(s: Cur): (r: Read<seq<u16>>)
    ensures r.Got? ==> |r.v| <= MAX_COUNT && s == PutSlots(r.v, r.s)
  {
    ListSound(2, 0, ReadU16, PutU16, Any, s);
    ReadList(2, 0, ReadU16, s)
  }

  function PutSlots(xs: seq<u16>, s: Cur): Cur { PutList(xs, PutU16, s) }
  predicate FitsSlots(xs: seq<u16>) { |xs| <= MAX_COUNT }

  function ReadModes(s: Cur): (r: Read<seq<CaptureMode>>)
    ensures r.Got? ==> |r.v| <= MAX_COUNT && s == PutModes(r.v, r.s)
  {
    ListSound(1, 0, ReadMode, PutMode, Any, s);
    ReadList(1, 0, ReadMode, s)
  }

  function PutModes(xs: seq<CaptureMode>, s: Cur): Cur { PutList(xs, PutMode, s) }
  predicate FitsModes(xs: seq<CaptureMode>) { |xs| <= MAX_COUNT }

  lemma SlotLaws()
    ensures Lawful(ReadSlots, PutSlots, FitsSlots, 4)
    ensures Lawful(ReadModes, PutModes, FitsModes, 4)
  {
    WordLaws();
    ByteLaws();
    hide ReadU16, PutU16, ReadMode, PutMode;
    forall xs, s | FitsSlots(xs) ensures ReadSlots(PutSlots(xs, s)) == Got(xs, s) { ListComplete(xs, 2, 0, ReadU16, PutU16, Any, s); }
    forall xs: seq<u16>, s ensures |PutSlots(xs, s).rest| >= 4 + |s.rest| { ManyAtLeast(xs, PutU16, 0, s); Lengths(); }
    forall xs: seq<u16>, a, s ensures PutSlots(xs, Join(a, s)) == Join(PutSlots(xs, a), s) { ListFrame(xs, PutU16, a, s); }
    forall xs, s | FitsModes(xs) ensures ReadModes(PutModes(xs, s)) == Got(xs, s) { ListComplete(xs, 1, 0, ReadMode, PutMode, Any, s); }
    forall xs: seq<CaptureMode>, s ensures |PutModes(xs, s).rest| >= 4 + |s.rest| { ManyAtLeast(xs, PutMode, 0, s); Lengths(); }
    forall xs: seq<CaptureMode>, a, s ensures PutModes(xs, Join(a, s)) == Join(PutModes(xs, a), s) { ListFrame(xs, PutMode, a, s); }
    hide ReadSlots, PutSlots, ReadModes, PutModes;
  }

  function ReadSelf(s: Cur): (r: Read<Option<u16>>)
    ensures r.Got? ==> s == PutSelf(r.v, r.s)
  {
    ReadOption(BoolFlag, ReadU16, s)
  }

  function PutSelf(o: Option<u16>, s: Cur): Cur { PutOption(o, PutU16, s) }

  lemma SelfLaws()
    ensures Lawful(ReadSelf, PutSelf, Any, 1)
  {
    hide ReadU8, PutU8, ReadU16, PutU16;
    forall o: Option<u16>, s ensures ReadSelf(PutSelf(o, s)) == Got(o, s) { Primitives(); }
    forall o: Option<u16>, s ensures |PutSelf(o, s).rest| >= 1 + |s.rest| { Lengths(); }
    forall o: Option<u16>, a, s ensures PutSelf(o, Join(a, s)) == Join(PutSelf(o, a), s) { Frames(); }
    hide ReadSelf, PutSelf;
  }

  predicate FitsPrototype(p: Prototype) {
    && p.frameLocals <= MAX_FRAME_LOCALS
    && FitsSlots(p.params) && FitsSlots(p.sources) && FitsSlots(p.captures) && FitsModes(p.modes)
    && FitsOptSchema(p.schema)
  }

  function ReadPrototype(s: Cur): (r: Read<Prototype>)
    ensures r.Got? ==> FitsPrototype(r.v) && s == PutPrototype(r.v, r.s)
  {
    var (kind, s) :- ReadKind(s);
    var (target, s) :- ReadTarget(s);
    var (arity, s) :- ReadU8(s);
    var (locals, s) :- ReadFrameLocals(s);
    ReadLayout(Prototype(kind, target, arity, locals, [], [], [], [], None, None), s)
  }

  /** The slot lists of a prototype whose header is known. */
  function ReadLayout(p: Prototype, s: Cur): (r: Read<Prototype>)
    requires p.frameLocals <= MAX_FRAME_LOCALS
    ensures r.Got? ==> FitsPrototype(r.v) && s == PutLayout(r.v, r.s)
    ensures r.Got? ==> r.v.kind == p.kind && r.v.target == p.target && r.v.arity == p.arity && r.v.frameLocals == p.frameLocals
  {
    hide ReadSlots, PutSlots;
    var (params, s) :- ReadSlots(s);
    var (sources, s) :- ReadSlots(s);
    var (captures, s) :- ReadSlots(s);
    ReadBindings(p.(params := params, sources := sources, captures := captures), s)
  }

  /** The capture modes, self slot and schema. */
  function ReadBindings(p: Prototype, s: Cur): (r: Read<Prototype>)
    ensures r.Got? ==> r.v == p.(modes := r.v.modes, self := r.v.self, schema := r.v.schema)
    ensures r.Got? ==> FitsModes(r.v.modes) && FitsOptSchema(r.v.schema) && s == PutBindings(r.v, r.s)
  {
    var (modes, s) :- ReadModes(s);
    var (self, s) :- ReadSelf(s);
    var (schema, s) :- ReadOptSchema(s);
    Got(p.(modes := modes, self := self, schema := schema), s)
  }

  function PutPrototype(p: Prototype, s: Cur): Cur {
    PutKind(p.kind, PutTarget(p.target, PutU8(p.arity, PutCount(p.frameLocals, PutLayout(p, s)))))
  }

  function PutLayout(p: Prototype, s: Cur): Cur {
    PutSlots(p.params, PutSlots(p.sources, PutSlots(p.captures, PutBindings(p, s))))
  }

  function PutBindings(p: Prototype, s: Cur): Cur {
    PutModes(p.modes, PutSelf(p.self, PutOptSchema(p.schema, s)))
  }

  lemma PrototypeLaws()
    ensures Lawful(ReadPrototype, PutPrototype, FitsPrototype, 29)
  {
    HeaderLaws();
    SlotLaws();
    SelfLaws();
    OptSchemaLaws();
    hide ReadKind, PutKind, ReadTarget, PutTarget, ReadU8, PutU8, ReadFrameLocals, PutCount;
    hide ReadSlots, PutSlots, ReadModes, PutModes, ReadSelf, PutSelf, ReadOptSchema, PutOptSchema;
    forall p, s | FitsPrototype(p) ensures ReadPrototype(PutPrototype(p, s)) == Got(p, s) {
      ReadPutFrameLocals(p.frameLocals, PutLayout(p, s));
      ReadPutU8(p.arity, PutCount(p.frameLocals, PutLayout(p, s)));
    }
    forall p: Prototype, s ensures |PutPrototype(p, s).rest| >= 29 + |s.rest| { Lengths(); }
    forall p: Prototype, a, s ensures PutPrototype(p, Join(a, s)) == Join(PutPrototype(p, a), s) { Frames(); }
    hide ReadPrototype, PutPrototype;
  }

  // ---------------------------------------------------------------- the callable section

  ghost predicate FitsCallables(c: Callables) {
    && |c.functions| <= MAX_COUNT && FitsList(c.prototypes, FitsPrototype) && |c.regions| <= MAX_COUNT
    && |c.bindings| <= MAX_COUNT && FitsList(c.exports, FitsExport)
  }

  function ReadCallables(s: Cur): (r: Read<Callables>)
    ensures r.Got? ==> FitsCallables(r.v) && s == PutCallables(r.v, r.s)
  {
    ListSound(8, 0, ReadScriptFunction, PutScriptFunction, Any, s);
    var (functions, s) :- ReadList(8, 0, ReadScriptFunction, s);
    ListSound(29, 0, ReadPrototype, PutPrototype, FitsPrototype, s);
    var (prototypes, s) :- ReadList(29, 0, ReadPrototype, s);
    ListSound(9, 0, ReadRegion, PutRegion, Any, s);
    var (regions, s) :- ReadList(9, 0, ReadRegion, s);
    ListSound(6, 0, ReadBinding, PutBinding, Any, s);
    var (bindings, s) :- ReadList(6, 0, ReadBinding, s);
    ListSound(6, 0, ReadExport, PutExport, FitsExport, s);
    var (exports, s) :- ReadList(6, 0, ReadExport, s);
    Got(Callables(functions, prototypes, regions, bindings, exports), s)
  }

  function PutCallables(c: Callables, s: Cur): Cur {
    PutList(c.functions, PutScriptFunction, PutList(c.prototypes, PutPrototype, PutList(c.regions, PutRegion,
      PutList(c.bindings, PutBinding, PutList(c.exports, PutExport, s)))))
  }

  lemma CallablesLaws()
    ensures Lawful(ReadCallables, PutCallables, FitsCallables, 0)
  {
    ScriptFunctionLaws();
    PrototypeLaws();
    RegionLaws();
    BindingLaws();
    ExportLaws();
    hide ReadScriptFunction, PutScriptFunction, ReadPrototype, PutPrototype, ReadRegion, PutRegion;
    hide ReadBinding, PutBinding, ReadExport, PutExport;
    forall c, s | FitsCallables(c) ensures ReadCallables(PutCallables(c, s)) == Got(c, s) {
      hide ReadList, PutList;
      ListComplete(c.exports, 6, 0, ReadExport, PutExport, FitsExport, s);
      var s1 := PutList(c.exports, PutExport, s);
      ListComplete(c.bindings, 6, 0, ReadBinding, PutBinding, Any, s1);
      var s2 := PutList(c.bindings, PutBinding, s1);
      ListComplete(c.regions, 9, 0, ReadRegion, PutRegion, Any, s2);
      var s3 := PutList(c.regions, PutRegion, s2);
      ListComplete(c.prototypes, 29, 0, ReadPrototype, PutPrototype, FitsPrototype, s3);
      var s4 := PutList(c.prototypes, PutPrototype, s3);
      ListComplete(c.functions, 8, 0, ReadScriptFunction, PutScriptFunction, Any, s4);
    }
    forall c: Callables, s ensures |PutCallables(c, s).rest| >= |s.rest| {
      Lengths();
      ManyAtLeast(c.exports, PutExport, 0, s);
      var s1 := PutList(c.exports, PutExport, s);
      ManyAtLeast(c.bindings, PutBinding, 0, s1);
      var s2 := PutList(c.bindings, PutBinding, s1);
      ManyAtLeast(c.regions, PutRegion, 0, s2);
      var s3 := PutList(c.regions, PutRegion, s2);
      ManyAtLeast(c.prototypes, PutPrototype, 0, s3);
      ManyAtLeast(c.functions, PutScriptFunction, 0, PutList(c.prototypes, PutPrototype, s3));
    }
    forall c: Callables, a, s ensures PutCallables(c, Join(a, s)) == Join(PutCallables(c, a), s) {
      hide PutList;
      ListFrame(c.exports, PutExport, a, s);
      var a1 := PutList(c.exports, PutExport, a);
      ListFrame(c.bindings, PutBinding, a1, s);
      var a2 := PutList(c.bindings, PutBinding, a1);
      ListFrame(c.regions, PutRegion, a2, s);
      var a3 := PutList(c.regions, PutRegion, a2);
      ListFrame(c.prototypes, PutPrototype, a3, s);
      ListFrame(c.functions, PutScriptFunction, PutList(c.prototypes, PutPrototype, a3), s);
    }
    hide ReadCallables, PutCallables;
  }

  // ---------------------------------------------------------------- struct declarations

  function Itself(x: Str): Str { x }
  function DeclName(d: Decl): Str { d.name }

  ghost predicate FitsDecl(d: Decl) {
    FitsString(d.name) && FitsList(d.params, FitsString) && Distinct(Itself, d.params) && FitsTop(d.body)
  }

  function ReadDecl(s: Cur): (r: Read<Decl>)
    ensures r.Got? ==> FitsDecl(r.v) && s == PutDecl(r.v, r.s)
  {
    var (x, s) :- ReadString(s);
    var (n, s) :- ReadCount(1, 0, s);
    ManySound(n, ReadString, PutBlob, FitsString, s);
    var (params, s) :- ReadUnique(n, ReadString, Itself, {}, s);
    var (body, s) :- ReadTop(s);
    Got(Decl(x, params, body), s)
  }

  function PutDecl(d: Decl, s: Cur): Cur {
    PutBlob(d.name, PutList(d.params, PutBlob, PutTop(d.body, s)))
  }

  lemma DeclLaws()
    ensures Lawful(ReadDecl, PutDecl, FitsDecl, 1)
  {
    WordLaws();
    hide ReadString, PutBlob;
    forall d, s | FitsDecl(d) ensures ReadDecl(PutDecl(d, s)) == Got(d, s) {
      var t := PutTop(d.body, s);
      ReadPutSchema(0, d.body, s);
      ManyComplete(d.params, ReadString, PutBlob, FitsString, t);
      UniqueComplete(|d.params|, ReadString, Itself, {}, PutMany(d.params, PutBlob, t));
      ManyAtLeast(d.params, PutBlob, 1, t);
      ReadPutCount(|d.params|, 1, 0, PutMany(d.params, PutBlob, t));
      ReadPutString(d.name, PutList(d.params, PutBlob, t));
      hide ReadCount, PutCount, PutMany, ReadUnique, ReadTop, PutTop;
    }
    forall d: Decl, s ensures |PutDecl(d, s).rest| >= 1 + |s.rest| {
      Lengths();
      SchemaLoad(d.body, s);
      ManyAtLeast(d.params, PutBlob, 0, PutTop(d.body, s));
    }
    forall d: Decl, a, s ensures PutDecl(d, Join(a, s)) == Join(PutDecl(d, a), s) {
      Frames();
      SchemaFrame(d.body, a, s);
      ListFrame(d.params, PutBlob, PutTop(d.body, a), s);
    }
    hide ReadDecl, PutDecl;
  }

  ghost predicate FitsDeclList(ds: seq<Decl>) { FitsList(ds, FitsDecl) && Distinct(DeclName, ds) }

  function ReadDeclList(s: Cur): (r: Read<seq<Decl>>)
    ensures r.Got? ==> FitsDeclList(r.v) && s == PutDeclList(r.v, r.s)
  {
    var (n, s) :- ReadCount(1, 0, s);
    ManySound(n, ReadDecl, PutDecl, FitsDecl, s);
    ReadUnique(n, ReadDecl, DeclName, {}, s)
  }

  function PutDeclList(ds: seq<Decl>, s: Cur): Cur { PutList(ds, PutDecl, s) }

  lemma DeclListLaws()
    ensures Lawful(ReadDeclList, PutDeclList, FitsDeclList, 4)
  {
    DeclLaws();
    hide ReadDecl, PutDecl;
    forall ds, s | FitsDeclList(ds) ensures ReadDeclList(PutDeclList(ds, s)) == Got(ds, s) {
      ManyComplete(ds, ReadDecl, PutDecl, FitsDecl, s);
      UniqueComplete(|ds|, ReadDecl, DeclName, {}, PutMany(ds, PutDecl, s));
      ManyAtLeast(ds, PutDecl, 1, s);
      ReadPutCount(|ds|, 1, 0, PutMany(ds, PutDecl, s));
      hide ReadCount, PutCount, PutMany, ReadUnique;
    }
    forall ds: seq<Decl>, s ensures |PutDeclList(ds, s).rest| >= 4 + |s.rest| {
      Lengths();
      ManyAtLeast(ds, PutDecl, 0, s);
    }
    forall ds: seq<Decl>, a, s ensures PutDeclList(ds, Join(a, s)) == Join(PutDeclList(ds, a), s) {
      ListFrame(ds, PutDecl, a, s);
    }
    hide ReadDeclList, PutDeclList;
  }
}
