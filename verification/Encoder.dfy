/** `encode_program`. */
module Encoder {
  // Which programs it can write, what it writes and how that relates to what can be read back.

  import opened Bytes
  import opened Wire
  import opened Lists
  import opened Programs
  import opened ImportSections
  import opened ImportLimits
  import opened Sections
  import opened CallableSections
  import opened Payload
  import opened Writers
  import opened TreeWriters
  import opened SectionWriters
  import opened WireOrder
  import Codec
  import Constants
  import ImportChecks

  /** The program's parts, with hash maps as their entries in any order. */
  function Parts(p: Program): Content {
    Content(p.constants, p.code, Codec.Zip(p.imports, p.hostSchemas), p.typeMap, p.debug, p.callables, p.decls)
  }

  /** The parts as they are written, hash maps sorted. */
  function PartsOf(p: Program): Content { LayContent(Parts(p)) }

  predicate WritableConst(v: Constants.Value) { Writable(0, v) }

  /** What `encode_program` can write: every length fits, constants are plain data of bounded depth, and host schemas are
      absent or one for each import and valid together. Names and schema depths are not limited. */
  ghost predicate Encodable(p: Program) {
    && Short(p.constants) && (forall v <- p.constants :: WritableConst(v))
    && Short(p.code) && Short(p.imports)
    && (p.hostSchemas == [] || (|p.hostSchemas| == |p.imports| && AggregateValid(Present(p.hostSchemas))))
    && (forall e <- Parts(p).entries :: WritableEntry(e))
    && (p.typeMap.Some? ==> WritableTypeMap(p.typeMap.value))
    && (p.debug.Some? ==> WritableDebug(p.debug.value))
    && WritableCallables(p.callables)
    && Short(p.decls) && (forall d <- p.decls :: WritableDecl(d))
  }

  method WriteConstants(w: Writer, v: seq<Constants.Value>, ghost s: Cur) returns (r: Result<()>)
    modifies w
    ensures r.Ok? <==> Short(v) && forall x <- v :: WritableConst(x)
    ensures r.Ok? ==> Grew(old(w.out), w.out, PutList(v, PutConst, s), s)
  {
    hide PutCount, PutMany, Constants.PutValue, Writable;
    var _ :- w.PushCount(|v|, PutMany(v, PutConst, s));
    for i := 0 to |v|
      invariant Grew(old(w.out), w.out, PutList(v, PutConst, s), PutMany(v[i..], PutConst, s))
      invariant forall k | 0 <= k < i :: WritableConst(v[k])
    {
      assert v[i] in v;
      PutsMany(v, PutConst, i, s);
      var _ :- WriteConstant(w, v[i], 0, PutMany(v[i + 1..], PutConst, s));
    }
    assert v[|v|..] == [];
    PutsNothing(PutConst, s);
    r := Ok(());
  }

  method WriteOptTypeMap(w: Writer, v: Option<TypeMap>, ghost s: Cur) returns (r: Result<()>)
    modifies w
    ensures r.Ok? <==> (v.Some? ==> WritableTypeMap(v.value))
    ensures r.Ok? ==> Grew(old(w.out), w.out, PutOption(if v.Some? then Some(LayTypeMap(v.value)) else None, PutTypeMap, s), s)
  {
    hide PutU8, PutTypeMap, WritableTypeMap, LayTypeMap;
    if v.None? {
      w.PushU8(0, s);
      return Ok(());
    }
    w.PushU8(1, PutTypeMap(LayTypeMap(v.value), s));
    r := WriteTypeMap(w, v.value, s);
  }

  method WriteOptDebug(w: Writer, v: Option<DebugInfo>, ghost s: Cur) returns (r: Result<()>)
    modifies w
    ensures r.Ok? <==> (v.Some? ==> WritableDebug(v.value))
    ensures r.Ok? ==> Grew(old(w.out), w.out, PutOption(v, PutDebug, s), s)
  {
    hide PutU8, PutDebug, WritableDebug;
    if v.None? {
      w.PushU8(0, s);
      return Ok(());
    }
    w.PushU8(1, PutDebug(v.value, s));
    r := WriteDebug(w, v.value, s);
  }

  /** The imports; with schemas, there must be one for each and all must be valid together. */
  method WriteImports(w: Writer, p: Program, ghost s: Cur) returns (r: Result<()>)
    modifies w
    ensures r.Ok? <==> Short(p.imports)
                       && (p.hostSchemas == [] || (|p.hostSchemas| == |p.imports| && AggregateValid(Present(p.hostSchemas))))
                       && forall e <- Parts(p).entries :: WritableEntry(e)
    ensures r.Ok? ==> Grew(old(w.out), w.out, PutList(Parts(p).entries, PutEntry, s), s)
  {
    hide AggregateValid, WritableEntry, PutList;
    if p.hostSchemas != [] {
      if |p.hostSchemas| != |p.imports| {
        return Err(HostSchemaImportMismatch);
      }
      var fault := ImportChecks.ValidateImports(Present(p.hostSchemas));
      if fault.Some? {
        return Err(InvalidHostSchemaComplexity);
      }
    }
    r := WriteEntries(w, Codec.Zip(p.imports, p.hostSchemas), s);
  }

  /** `encode_program`. */
  method EncodeProgram(p: Program) returns (r: Result<seq<u8>>)
    ensures r.Ok? <==> Encodable(p)
    ensures r.Ok? ==> r.value == Codec.Image(13, PartsOf(p)).rest
  {
    hide PutList, PutBlob, PutOption, PutCallables, PutBytes, PutU16, LayTypeMap, LayCallables, LayDecls;
    hide WritableConst, WritableEntry, WritableTypeMap, WritableDebug, WritableCallables, WritableDecl, AggregateValid;
    ghost var c := PartsOf(p);
    var w := new Writer();
    ghost var t1 := PutList(c.decls, PutDecl, Nil);
    ghost var t2 := PutCallables(c.callables, t1);
    ghost var t3 := PutOption(c.debug, PutDebug, t2);
    ghost var t4 := PutOption(c.typeMap, PutTypeMap, t3);
    ghost var t5 := PutList(c.entries, PutEntry, t4);
    ghost var t6 := PutList(c.constants, PutConst, PutBlob(c.code, t5));
    w.Push(MAGIC, PutU16(13, PutU16(0, t6)));
    w.PushU16(13, PutU16(0, t6));
    w.PushU16(0, t6);
    var _ :- WriteConstants(w, p.constants, PutBlob(c.code, t5));
    var _ :- w.PushBlob(p.code, t5);
    var _ :- WriteImports(w, p, t4);
    var _ :- WriteOptTypeMap(w, p.typeMap, t3);
    var _ :- WriteOptDebug(w, p.debug, t2);
    var _ :- WriteCallables(w, p.callables, t1);
    var _ :- WriteDecls(w, p.decls, Nil);
    assert w.out + [] == w.out;
    r := Ok(w.out);
  }
}
