/** A whole VMBC payload: its sections in order, and the program they make. */
module Payload {
  import opened Bytes
  import opened Seqs
  import opened Wire
  import opened Lists
  import opened Programs
  import opened Sections
  import opened CallableSections
  import opened ImportSections
  import opened ImportLimits
  import Bytecode
  import Constants
  import HostTypes

  const MAGIC: seq<u8> := [86, 77, 66, 67]

  type Version = v: u16 | 11 <= v <= 13 witness 13

  /** What a payload holds, in wire order. */
  datatype Content = Content(
    constants: seq<Constants.Value>,
    code: seq<u8>,
    entries: seq<ImportEntry>,
    typeMap: Option<TypeMap>,
    debug: Option<DebugInfo>,
    callables: Callables,
    decls: seq<Decl>)

  // ---------------------------------------------------------------- header

  function ReadHeader(s: Cur): (r: Read<Version>)
    ensures r.Got? ==> s == PutHeader(r.v, r.s)
  {
    var (magic, s) :- ReadExact(4, s);
    if magic != MAGIC then Fail(InvalidMagic(magic))
    else
      var (v, s) :- ReadU16(s);
      if !(11 <= v <= 13) then Fail(UnsupportedVersion(v))
      else
        var (flags, s) :- ReadU16(s);
        if flags != 0 then Fail(UnsupportedFlags(flags)) else Got(v, s)
  }

  function PutHeader(v: Version, s: Cur): Cur { PutBytes(MAGIC, PutU16(v, PutU16(0, s))) }

  lemma ReadPutHeader(v: Version, s: Cur)
    ensures ReadHeader(PutHeader(v, s)) == Got(v, s)
  {
    hide PutBytes, PutU16, ReadU16, ReadExact;
    ReadPutExact(MAGIC, PutU16(v, PutU16(0, s)));
    ReadPutU16(v, PutU16(0, s));
    ReadPutU16(0, s);
  }

  // ---------------------------------------------------------------- constants, code and imports

  predicate FitsConst(v: Constants.Value) { Constants.FitsValue(0, v) }
  function ReadConst(s: Cur): Read<Constants.Value> { Constants.ReadValue(0, s) }
  function PutConst(v: Constants.Value, s: Cur): Cur { Constants.PutValue(v, s) }

  lemma ConstLaws()
    ensures Lawful(ReadConst, PutConst, FitsConst, 1)
  {
    forall v, s | FitsConst(v) ensures ReadConst(PutConst(v, s)) == Got(v, s) { Constants.ReadPutValue(0, v, s); }
    forall v, s ensures |PutConst(v, s).rest| >= 1 + |s.rest| { Constants.ValueLoad(v, s); }
    forall v, a, s ensures PutConst(v, Join(a, s)) == Join(PutConst(v, a), s) { Constants.ValueFrame(v, a, s); }
    hide Constants.ReadValue, Constants.PutValue;
  }

  function Item(e: ImportEntry): HostImport { e.item }
  function Schema(e: ImportEntry): Option<HostTypes.ImportSchema> { e.schema }
  function Bare(i: HostImport): ImportEntry { ImportEntry(i, None) }

  /** Version 11 entries have no schema; later ones pass the aggregate check. */
  ghost predicate FitsImports(v: Version, es: seq<ImportEntry>) {
    && |es| <= MAX_COUNT
    && if v == 11 then forall e <- es :: FitsLegacy(e.item) && e.schema.None?
       else All(es, FitsEntry) && AggregateValid(Present(Mapped(Schema, es)))
  }

  function PutImports(v: Version, es: seq<ImportEntry>, s: Cur): Cur {
    if v == 11 then PutList(Mapped(Item, es), PutLegacy, s) else PutList(es, PutEntry, s)
  }

  function ReadImports(v: Version, s: Cur): (r: Read<seq<ImportEntry>>)
    ensures r.Got? ==> FitsImports(v, r.v) && s == PutImports(v, r.v, r.s)
  {
    if v == 11 then
      ListSound(6, 0, ReadLegacy, PutLegacy, FitsLegacy, s);
      var (xs, s) :- ReadList(6, 0, ReadLegacy, s);
      assert Mapped(Item, Mapped(Bare, xs)) == xs;
      Got(Mapped(Bare, xs), s)
    else
      ListSound(7, 0, ReadEntry, PutEntry, FitsEntry, s);
      var (es, s) :- ReadList(7, 0, ReadEntry, s);
      if AggregateValid(Present(Mapped(Schema, es))) then Got(es, s) else Fail(InvalidHostSchemaComplexity)
  }

  lemma ReadPutImports(v: Version, es: seq<ImportEntry>, s: Cur)
    requires FitsImports(v, es)
    ensures ReadImports(v, PutImports(v, es, s)) == Got(es, s)
  {
    if v == 11 {
      LegacyLaws();
      hide ReadLegacy, PutLegacy, ReadList, PutList;
      ListComplete(Mapped(Item, es), 6, 0, ReadLegacy, PutLegacy, FitsLegacy, s);
      assert Mapped(Bare, Mapped(Item, es)) == es;
    } else {
      EntryLaws();
      hide ReadEntry, PutEntry, ReadList, PutList;
      ListComplete(es, 7, 0, ReadEntry, PutEntry, FitsEntry, s);
    }
  }

  lemma ImportsFrame(v: Version, es: seq<ImportEntry>, a: Cur, s: Cur)
    ensures PutImports(v, es, Join(a, s)) == Join(PutImports(v, es, a), s)
  {
    if v == 11 {
      LegacyLaws();
      hide PutLegacy;
      ListFrame(Mapped(Item, es), PutLegacy, a, s);
    } else {
      EntryLaws();
      hide PutEntry;
      ListFrame(es, PutEntry, a, s);
    }
  }

  // ---------------------------------------------------------------- the whole content

  ghost predicate FitsContent(v: Version, c: Content) {
    && FitsList(c.constants, FitsConst)
    && FitsBlob(c.code) && (v == 11 ==> Bytecode.CALL_SCRIPT !in c.code)
    && FitsImports(v, c.entries)
    && FitsOption(c.typeMap, FitsTypeMap) && FitsOption(c.debug, FitsDebug)
    && FitsCallables(c.callables)
    && if v == 13 then FitsDeclList(c.decls) else c.decls == []
  }

  function PutContent(v: Version, c: Content, s: Cur): Cur {
    PutList(c.constants, PutConst, PutBlob(c.code, PutImports(v, c.entries, PutMeta(v, c, s))))
  }

  function PutMeta(v: Version, c: Content, s: Cur): Cur {
    PutOption(c.typeMap, PutTypeMap, PutOption(c.debug, PutDebug, PutCallables(c.callables,
      if v == 13 then PutDeclList(c.decls, s) else s)))
  }

  function ReadContent(v: Version, s: Cur): (r: Read<Content>)
    ensures r.Got? ==> FitsContent(v, r.v) && s == PutContent(v, r.v, r.s)
  {
    ListSound(1, 0, ReadConst, PutConst, FitsConst, s);
    var (constants, s) :- ReadList(1, 0, ReadConst, s);
    var (code, s) :- ReadBlob(s);
    if v == 11 && Bytecode.CALL_SCRIPT in code then Fail(UnsupportedVersion(11))
    else
      var (entries, s) :- ReadImports(v, s);
      var (c, s) :- ReadMeta(v, s);
      Got(c.(constants := constants, code := code, entries := entries), s)
  }

  /** The sections after the imports. */
  function ReadMeta(v: Version, s: Cur): (r: Read<Content>)
    ensures r.Got? ==> FitsOption(r.v.typeMap, FitsTypeMap) && FitsOption(r.v.debug, FitsDebug) && FitsCallables(r.v.callables)
    ensures r.Got? ==> if v == 13 then FitsDeclList(r.v.decls) else r.v.decls == []
    ensures r.Got? ==> s == PutMeta(v, r.v, r.s)
  {
    OptionSound(TypeMapFlag, ReadTypeMap, PutTypeMap, FitsTypeMap, s);
    var (typeMap, s) :- ReadOption(TypeMapFlag, ReadTypeMap, s);
    OptionSound(DebugFlag, ReadDebug, PutDebug, FitsDebug, s);
    var (debug, s) :- ReadOption(DebugFlag, ReadDebug, s);
    var (callables, s) :- ReadCallables(s);
    var c := Content([], [], [], typeMap, debug, callables, []);
    if v == 13 then
      var (decls, s) :- ReadDeclList(s);
      Got(c.(decls := decls), s)
    else Got(c, s)
  }

  lemma ReadPutMeta(v: Version, c: Content, s: Cur)
    requires FitsContent(v, c)
    ensures ReadMeta(v, PutMeta(v, c, s)) == Got(c.(constants := [], code := [], entries := []), s)
  {
    TypeMapLaws();
    DebugLaws();
    CallablesLaws();
    DeclListLaws();
    hide ReadTypeMap, PutTypeMap, ReadDebug, PutDebug, ReadCallables, PutCallables, ReadDeclList, PutDeclList, ReadOption, PutOption;
    var s1 := if v == 13 then PutDeclList(c.decls, s) else s;
    var s2 := PutCallables(c.callables, s1);
    OptionComplete(c.debug, DebugFlag, ReadDebug, PutDebug, FitsDebug, s2);
    OptionComplete(c.typeMap, TypeMapFlag, ReadTypeMap, PutTypeMap, FitsTypeMap, PutOption(c.debug, PutDebug, s2));
  }

  lemma ReadPutContent(v: Version, c: Content, s: Cur)
    requires FitsContent(v, c)
    ensures ReadContent(v, PutContent(v, c, s)) == Got(c, s)
  {
    hide ReadList, PutList, ReadBlob, PutBlob, ReadImports, PutImports, ReadMeta, PutMeta, ReadConst, PutConst;
    var s1 := PutMeta(v, c, s);
    ReadPutMeta(v, c, s);
    var s2 := PutImports(v, c.entries, s1);
    ReadPutImports(v, c.entries, s1);
    ReadPutBlob(c.code, s2);
    ConstLaws();
    ListComplete(c.constants, 1, 0, ReadConst, PutConst, FitsConst, PutBlob(c.code, s2));
  }

  lemma ContentFrame(v: Version, c: Content, a: Cur, s: Cur)
    ensures PutContent(v, c, Join(a, s)) == Join(PutContent(v, c, a), s)
  {
    hide PutMeta, PutConst, PutImports, PutList, PutBlob;
    MetaFrame(v, c, a, s);
    var a1 := PutMeta(v, c, a);
    ImportsFrame(v, c.entries, a1, s);
    Frames();
    ConstLaws();
    ListFrame(c.constants, PutConst, PutBlob(c.code, PutImports(v, c.entries, a1)), s);
  }

  lemma MetaFrame(v: Version, c: Content, a: Cur, s: Cur)
    ensures PutMeta(v, c, Join(a, s)) == Join(PutMeta(v, c, a), s)
  {
    TypeMapLaws();
    DebugLaws();
    CallablesLaws();
    DeclListLaws();
    hide PutTypeMap, PutDebug, PutCallables, PutDeclList, PutOption;
    var a1 := if v == 13 then PutDeclList(c.decls, a) else a;
    var a2 := PutCallables(c.callables, a1);
    OptionFrame(c.debug, PutDebug, a2, s);
    OptionFrame(c.typeMap, PutTypeMap, PutOption(c.debug, PutDebug, a2), s);
  }
}
