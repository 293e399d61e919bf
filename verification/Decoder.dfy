/** `decode_program`, as the loops over one cursor that it is, proved against the decoding function. */
module Decoder {
  import opened Bytes
  import opened Seqs
  import opened Wire
  import opened Lists
  import opened Programs
  import opened HostTypes
  import opened HostWire
  import opened ImportSections
  import opened ImportLimits
  import opened Sections
  import opened CallableSections
  import opened Payload
  import opened Cursors
  import opened TreeReaders
  import opened SectionReaders
  import ImportChecks
  import Bytecode
  import Codec
  import Constants

  // ---------------------------------------------------------------- imports

  method GetPassing(c: Cursor) returns (r: Result<Passing>)
    requires c.Valid()
    modifies c`offset
    ensures c.Valid() && Did(ReadPassing(old(c.State())), r, c.State())
  {
    hide ReadU8;
    var x :- c.GetU8();
    match x {
      case 0 => r := Ok(ByValue);
      case 1 => r := Ok(Borrow);
      case 2 => r := Ok(BorrowMut);
      case 3 => r := Ok(TakeOwned);
      case _ => r := Err(InvalidHostParamPassing(x));
    }
  }

  method GetParam(c: Cursor) returns (r: Result<ImportParam>)
    requires c.Valid()
    modifies c`offset, c`items, c`nodes, c`props
    ensures c.Valid() && Did(ReadParam(old(c.State())), r, c.State())
  {
    hide ReadBounded, ReadHost, ReadPassing;
    var x :- c.GetBounded(MAX_NAME);
    var t :- GetHost(c, 0);
    var p :- GetPassing(c);
    r := Ok(ImportParam(x, t, p));
  }

  method GetParams(c: Cursor, n: nat) returns (r: Result<seq<ImportParam>>)
    requires c.Valid()
    modifies c`offset, c`items, c`nodes, c`props
    ensures c.Valid() && Did(ReadMany(n, ReadParam, old(c.State())), r, c.State())
  {
    hide ReadParam, PutParam, FitsParam;
    ghost var sxs := c.State();
    var xs: seq<ImportParam> := [];
    AheadNone(ReadMany(n, ReadParam, sxs));
    for i := 0 to n
      invariant c.Valid() && ReadMany(n, ReadParam, sxs) == Ahead(xs, ReadMany(n - i, ReadParam, c.State()))
    {
      var x :- GetParam(c);
      AheadOne(xs, x, ReadMany(n - i - 1, ReadParam, c.State()));
      xs := xs + [x];
    }
    AheadAll(xs, c.State());
    r := Ok(xs);
  }

  /** `read_host_import_schema`: the parameter count is debited from its own budget too, and the whole is validated. */
  method GetImportSchema(c: Cursor) returns (r: Result<ImportSchema>)
    requires c.Valid()
    modifies c`offset, c`items, c`nodes, c`props, c`params
    ensures c.Valid() && Did(ReadImportSchema(old(c.State())), r, c.State())
  {
    hide ReadBounded, ReadCount, DebitParams, ReadMany, ReadSignature, ReadParam;
    var x :- c.GetBounded(MAX_NAME);
    var n :- c.GetCount(6, 0);
    if n > MAX_HOST_PARAMETERS {
      return Err(LengthTooLarge(n));
    }
    var _ :- c.DebitHostParameters(n);
    var params :- GetParams(c, n);
    r := GetSignature(c, x, params);
  }

  method GetSignature(c: Cursor, name: Str, params: seq<ImportParam>) returns (r: Result<ImportSchema>)
    requires c.Valid()
    modifies c`offset, c`items, c`nodes, c`props
    ensures c.Valid() && Did(ReadSignature(name, params, old(c.State())), r, c.State())
  {
    hide ReadHost, ReadU64, ImportValid;
    var t :- GetHost(c, 0);
    var f :- c.GetU64();
    var h := ImportSchema(name, params, t, f);
    var fault := ImportChecks.ValidateImport(h);
    r := if fault.None? then Ok(h) else Err(InvalidHostSchemaComplexity);
  }

  method GetEntry(c: Cursor) returns (r: Result<ImportEntry>)
    requires c.Valid()
    modifies c`offset, c`items, c`nodes, c`props, c`params
    ensures c.Valid() && Did(ReadEntry(old(c.State())), r, c.State())
  {
    hide ReadBounded, ReadU8, ReadValueType, ReadImportSchema, PutImportSchema, FitsImportSchema;
    var x :- c.GetBounded(MAX_NAME);
    var arity :- c.GetU8();
    var t :- GetValueType(c);
    var present :- GetFlag(c, BoolFlag);
    if !present {
      return Ok(ImportEntry(HostImport(x, arity, t), None));
    }
    var h :- GetImportSchema(c);
    r := if h.name != x || |h.params| != arity then Err(HostSchemaImportMismatch) else Ok(ImportEntry(HostImport(x, arity, t), Some(h)));
  }

  method GetLegacy(c: Cursor) returns (r: Result<HostImport>)
    requires c.Valid()
    modifies c`offset
    ensures c.Valid() && Did(ReadLegacy(old(c.State())), r, c.State())
  {
    hide ReadString, ReadU8, ReadValueType;
    var x :- c.GetString();
    var arity :- c.GetU8();
    var t :- GetValueType(c);
    r := Ok(HostImport(x, arity, t));
  }

  method GetEntries(c: Cursor) returns (r: Result<seq<ImportEntry>>)
    requires c.Valid()
    modifies c`offset, c`items, c`nodes, c`props, c`params
    ensures c.Valid() && Did(ReadList(7, 0, ReadEntry, old(c.State())), r, c.State())
  {
    hide ReadCount, PutCount, ReadEntry, PutEntry, FitsEntry;
    var n :- c.GetCount(7, 0);
    ghost var sxs := c.State();
    var xs: seq<ImportEntry> := [];
    AheadNone(ReadMany(n, ReadEntry, sxs));
    for i := 0 to n
      invariant c.Valid() && ReadMany(n, ReadEntry, sxs) == Ahead(xs, ReadMany(n - i, ReadEntry, c.State()))
    {
      var x :- GetEntry(c);
      AheadOne(xs, x, ReadMany(n - i - 1, ReadEntry, c.State()));
      xs := xs + [x];
    }
    AheadAll(xs, c.State());
    r := Ok(xs);
  }

  method GetLegacies(c: Cursor) returns (r: Result<seq<HostImport>>)
    requires c.Valid()
    modifies c`offset, c`items
    ensures c.Valid() && Did(ReadList(6, 0, ReadLegacy, old(c.State())), r, c.State())
  {
    hide ReadCount, PutCount, ReadLegacy, PutLegacy, FitsLegacy;
    var n :- c.GetCount(6, 0);
    ghost var sxs := c.State();
    var xs: seq<HostImport> := [];
    AheadNone(ReadMany(n, ReadLegacy, sxs));
    for i := 0 to n
      invariant c.Valid() && ReadMany(n, ReadLegacy, sxs) == Ahead(xs, ReadMany(n - i, ReadLegacy, c.State()))
    {
      var x :- GetLegacy(c);
      AheadOne(xs, x, ReadMany(n - i - 1, ReadLegacy, c.State()));
      xs := xs + [x];
    }
    AheadAll(xs, c.State());
    r := Ok(xs);
  }

  method GetImports(c: Cursor, v: Version) returns (r: Result<seq<ImportEntry>>)
    requires c.Valid()
    modifies c`offset, c`items, c`nodes, c`props, c`params
    ensures c.Valid() && Did(ReadImports(v, old(c.State())), r, c.State())
  {
    hide ReadList, ReadEntry, ReadLegacy, AggregateValid;
    if v == 11 {
      var xs :- GetLegacies(c);
      return Ok(Mapped(Bare, xs));
    }
    var es :- GetEntries(c);
    var fault := ImportChecks.ValidateImports(Present(Mapped(Schema, es)));
    r := if fault.None? then Ok(es) else Err(InvalidHostSchemaComplexity);
  }

  // ---------------------------------------------------------------- payload

  method GetConstantPool(c: Cursor) returns (r: Result<seq<Constants.Value>>)
    requires c.Valid()
    modifies c`offset, c`items
    ensures c.Valid() && Did(ReadList(1, 0, ReadConst, old(c.State())), r, c.State())
  {
    hide ReadCount, PutCount, Constants.ReadValue, Constants.PutValue, Constants.FitsValue;
    var n :- c.GetCount(1, 0);
    ghost var sxs := c.State();
    var xs: seq<Constants.Value> := [];
    AheadNone(ReadMany(n, ReadConst, sxs));
    for i := 0 to n
      invariant c.Valid() && ReadMany(n, ReadConst, sxs) == Ahead(xs, ReadMany(n - i, ReadConst, c.State()))
    {
      var x :- GetConstant(c, 0);
      AheadOne(xs, x, ReadMany(n - i - 1, ReadConst, c.State()));
      xs := xs + [x];
    }
    AheadAll(xs, c.State());
    r := Ok(xs);
  }

  method GetHeader(c: Cursor) returns (r: Result<Version>)
    requires c.Valid()
    modifies c`offset
    ensures c.Valid() && Did(ReadHeader(old(c.State())), r, c.State())
  {
    hide ReadExact, ReadU16;
    var magic :- c.GetExact(4);
    if magic != MAGIC {
      return Err(InvalidMagic(magic));
    }
    var v :- c.GetU16();
    if !(11 <= v <= 13) {
      return Err(UnsupportedVersion(v));
    }
    var flags :- c.GetU16();
    r := if flags != 0 then Err(UnsupportedFlags(flags)) else Ok(v);
  }

  method GetOptTypeMap(c: Cursor) returns (r: Result<Option<TypeMap>>)
    requires c.Valid()
    modifies c`offset, c`items
    ensures c.Valid() && Did(ReadOption(TypeMapFlag, ReadTypeMap, old(c.State())), r, c.State())
  {
    hide ReadU8, ReadTypeMap, PutTypeMap, FitsTypeMap;
    var present :- GetFlag(c, TypeMapFlag);
    if !present {
      return Ok(None);
    }
    var m :- GetTypeMap(c);
    r := Ok(Some(m));
  }

  method GetOptDebug(c: Cursor) returns (r: Result<Option<DebugInfo>>)
    requires c.Valid()
    modifies c`offset, c`items
    ensures c.Valid() && Did(ReadOption(DebugFlag, ReadDebug, old(c.State())), r, c.State())
  {
    hide ReadU8, ReadDebug, PutDebug, FitsDebug;
    var present :- GetFlag(c, DebugFlag);
    if !present {
      return Ok(None);
    }
    var d :- GetDebug(c);
    r := Ok(Some(d));
  }

  method GetMeta(c: Cursor, v: Version) returns (r: Result<Content>)
    requires c.Valid()
    modifies c`offset, c`items
    ensures c.Valid() && Did(ReadMeta(v, old(c.State())), r, c.State())
  {
    hide ReadOption, ReadTypeMap, ReadDebug, ReadCallables, ReadDeclList;
    var typeMap :- GetOptTypeMap(c);
    var debug :- GetOptDebug(c);
    var callables :- GetCallables(c);
    if v != 13 {
      return Ok(Content([], [], [], typeMap, debug, callables, []));
    }
    var decls :- GetDecls(c);
    r := Ok(Content([], [], [], typeMap, debug, callables, decls));
  }

  method GetContent(c: Cursor, v: Version) returns (r: Result<Content>)
    requires c.Valid()
    modifies c`offset, c`items, c`nodes, c`props, c`params
    ensures c.Valid() && Did(ReadContent(v, old(c.State())), r, c.State())
  {
    hide ReadList, ReadConst, ReadBlob, ReadImports, ReadMeta;
    var constants :- GetConstantPool(c);
    var code :- c.GetBlob();
    if v == 11 && Bytecode.CALL_SCRIPT in code {
      return Err(UnsupportedVersion(11));
    }
    var entries :- GetImports(c, v);
    var meta :- GetMeta(c, v);
    r := Ok(meta.(constants := constants, code := code, entries := entries));
  }

  /** `decode_program`: exactly the decoding function, errors included. */
  method DecodeProgram(bytes: seq<u8>) returns (r: Result<Program>)
    ensures r == Codec.Decode(bytes)
  {
    hide ReadHeader, ReadContent, Codec.ToProgram;
    if |bytes| > MAX_PAYLOAD {
      return Err(LengthTooLarge(|bytes|));
    }
    var c := new Cursor(bytes);
    var v :- GetHeader(c);
    var content :- GetContent(c, v);
    if c.offset != |c.bytes| {
      return Err(TrailingBytes);
    }
    r := Ok(Codec.ToProgram(v, content));
  }
}
