/** Host imports and their schemas on the wire, read and validated. */
module ImportSections {
  import opened Bytes
  import opened Wire
  import opened Lists
  import opened HostTypes
  import opened HostWire
  import opened ImportLimits
  import opened Programs
  import opened Sections

  function PassingTag(p: Passing): u8 {
    match p
    case ByValue => 0
    case Borrow => 1
    case BorrowMut => 2
    case TakeOwned => 3
  }

  function ReadPassing(s: Cur): (r: Read<Passing>)
    ensures r.Got? ==> s == PutPassing(r.v, r.s)
  {
    var (x, s) :- ReadU8(s);
    match x
    case 0 => Got(ByValue, s)
    case 1 => Got(Borrow, s)
    case 2 => Got(BorrowMut, s)
    case 3 => Got(TakeOwned, s)
    case _ => Fail(InvalidHostParamPassing(x))
  }

  function PutPassing(p: Passing, s: Cur): Cur { PutU8(PassingTag(p), s) }

  predicate FitsParam(p: ImportParam) { FitsBounded(p.name, MAX_NAME) && FitsHost(0, p.ty) }

  function ReadParam(s: Cur): (r: Read<ImportParam>)
    ensures r.Got? ==> FitsParam(r.v) && s == PutParam(r.v, r.s)
  {
    var (x, s) :- ReadBounded(MAX_NAME, s);
    var (t, s) :- ReadHost(0, s);
    var (p, s) :- ReadPassing(s);
    Got(ImportParam(x, t, p), s)
  }

  function PutParam(p: ImportParam, s: Cur): Cur { PutBlob(p.name, PutHost(p.ty, PutPassing(p.passing, s))) }

  lemma ReadPutPassing(p: Passing, s: Cur)
    ensures ReadPassing(PutPassing(p, s)) == Got(p, s) && |PutPassing(p, s).rest| == 1 + |s.rest|
  {
    hide ReadU8;
    ReadPutU8(PassingTag(p), s);
  }

  lemma ReadPutParam(p: ImportParam, s: Cur)
    requires FitsParam(p)
    ensures ReadParam(PutParam(p, s)) == Got(p, s)
  {
    hide ReadBounded, PutBlob, ReadHost, PutHost, ReadPassing, PutPassing;
    ReadPutPassing(p.passing, s);
    ReadPutBounded(p.name, MAX_NAME, PutHost(p.ty, PutPassing(p.passing, s)));
    ReadPutHost(0, p.ty, PutPassing(p.passing, s));
  }

  lemma ParamLaws()
    ensures Lawful(ReadParam, PutParam, FitsParam, 6)
  {
    forall p, s | FitsParam(p) ensures ReadParam(PutParam(p, s)) == Got(p, s) { ReadPutParam(p, s); }
    forall p: ImportParam, s ensures |PutParam(p, s).rest| >= 6 + |s.rest| {
      hide PutBlob, PutHost, PutU8;
      Lengths();
      HostLoad(p.ty, PutPassing(p.passing, s));
    }
    forall p: ImportParam, a, s ensures PutParam(p, Join(a, s)) == Join(PutParam(p, a), s) {
      hide PutBlob, PutHost, PutU8;
      Frames();
      HostFrame(p.ty, PutPassing(p.passing, a), s);
    }
    hide ReadParam, PutParam;
  }

  ghost predicate FitsImportSchema(h: ImportSchema) {
    FitsBounded(h.name, MAX_NAME) && All(h.params, FitsParam) && FitsHost(0, h.result) && ImportValid(h)
  }

  function ReadImportSchema(s: Cur): (r: Read<ImportSchema>)
    ensures r.Got? ==> FitsImportSchema(r.v) && s == PutImportSchema(r.v, r.s)
  {
    var (x, s) :- ReadBounded(MAX_NAME, s);
    var (n, s) :- ReadCount(6, 0, s);
    if n > MAX_HOST_PARAMETERS then Fail(LengthTooLarge(n))
    else
      var (_, s) :- DebitParams(n, s);
      ManySound(n, ReadParam, PutParam, FitsParam, s);
      var (params, s) :- ReadMany(n, ReadParam, s);
      ReadSignature(x, params, s)
  }

  /** The result and fingerprint, then the check of the whole import. */
  function ReadSignature(name: Str, params: seq<ImportParam>, s: Cur): (r: Read<ImportSchema>)
    ensures r.Got? ==> r.v.name == name && r.v.params == params && FitsHost(0, r.v.result) && ImportValid(r.v)
    ensures r.Got? ==> s == PutHost(r.v.result, PutU64(r.v.fingerprint, r.s))
  {
    var (t, s) :- ReadHost(0, s);
    var (f, s) :- ReadU64(s);
    var h := ImportSchema(name, params, t, f);
    if ImportValid(h) then Got(h, s) else Fail(InvalidHostSchemaComplexity)
  }

  function PutImportSchema(h: ImportSchema, s: Cur): Cur {
    PutBlob(h.name, PutCount(|h.params|, ChargeParams(|h.params|,
      PutMany(h.params, PutParam, PutHost(h.result, PutU64(h.fingerprint, s))))))
  }

  lemma ReadPutImportSchema(h: ImportSchema, s: Cur)
    requires FitsImportSchema(h)
    ensures ReadImportSchema(PutImportSchema(h, s)) == Got(h, s)
  {
    hide ReadBounded, PutBlob, ReadHost, PutHost, ReadU64, PutU64, ReadCount, PutCount, ReadMany, PutMany, ReadParam, PutParam;
    var t1 := PutU64(h.fingerprint, s);
    var t2 := PutHost(h.result, t1);
    var t3 := PutMany(h.params, PutParam, t2);
    ReadPutU64(h.fingerprint, s);
    assert |t1.rest| >= 8 by { Lengths(); }
    ReadPutHost(0, h.result, t1);
    ParamLaws();
    ManyComplete(h.params, ReadParam, PutParam, FitsParam, t2);
    ManyAtLeast(h.params, PutParam, 6, t2);
    ReadPutCount(|h.params|, 6, 0, ChargeParams(|h.params|, t3));
    ReadPutBounded(h.name, MAX_NAME, PutCount(|h.params|, ChargeParams(|h.params|, t3)));
  }

  lemma ImportSchemaAtLeast(h: ImportSchema, s: Cur)
    ensures |PutImportSchema(h, s).rest| >= 1 + |s.rest|
  {
    hide PutHost, PutMany, ReadParam, PutParam;
    ParamLaws();
    var t := PutHost(h.result, PutU64(h.fingerprint, s));
    HostLoad(h.result, PutU64(h.fingerprint, s));
    ManyAtLeast(h.params, PutParam, 0, t);
  }

  lemma ImportSchemaFrame(h: ImportSchema, a: Cur, s: Cur)
    ensures PutImportSchema(h, Join(a, s)) == Join(PutImportSchema(h, a), s)
  {
    hide PutBlob, PutHost, PutU64, PutCount, ChargeParams, PutMany, ReadParam, PutParam;
    ParamLaws();
    Frames();
    HostFrame(h.result, PutU64(h.fingerprint, a), s);
    ManyFrame(h.params, PutParam, PutHost(h.result, PutU64(h.fingerprint, a)), s);
  }

  lemma ImportSchemaLaws()
    ensures Lawful(ReadImportSchema, PutImportSchema, FitsImportSchema, 1)
  {
    hide ReadImportSchema, PutImportSchema, FitsImportSchema;
    forall h, s | FitsImportSchema(h) ensures ReadImportSchema(PutImportSchema(h, s)) == Got(h, s) { ReadPutImportSchema(h, s); }
    forall h: ImportSchema, s ensures |PutImportSchema(h, s).rest| >= 1 + |s.rest| { ImportSchemaAtLeast(h, s); }
    forall h: ImportSchema, a, s ensures PutImportSchema(h, Join(a, s)) == Join(PutImportSchema(h, a), s) { ImportSchemaFrame(h, a, s); }
  }

  datatype ImportEntry = ImportEntry(item: HostImport, schema: Option<ImportSchema>)

  /** From version 12 on a name is bounded and an entry carries its schema, which must agree with it. */
  ghost predicate FitsEntry(e: ImportEntry) {
    && FitsBounded(e.item.name, MAX_NAME)
    && FitsOption(e.schema, FitsImportSchema)
    && (e.schema.Some? ==> e.schema.value.name == e.item.name && |e.schema.value.params| == e.item.arity)
  }

  function ReadEntry(s: Cur): (r: Read<ImportEntry>)
    ensures r.Got? ==> FitsEntry(r.v) && s == PutEntry(r.v, r.s)
  {
    var (x, s) :- ReadBounded(MAX_NAME, s);
    var (arity, s) :- ReadU8(s);
    var (t, s) :- ReadValueType(s);
    OptionSound(BoolFlag, ReadImportSchema, PutImportSchema, FitsImportSchema, s);
    var (o, s) :- ReadOption(BoolFlag, ReadImportSchema, s);
    if o.Some? && (o.value.name != x || |o.value.params| != arity) then Fail(HostSchemaImportMismatch)
    else Got(ImportEntry(HostImport(x, arity, t), o), s)
  }

  function PutEntry(e: ImportEntry, s: Cur): Cur {
    PutBlob(e.item.name, PutU8(e.item.arity, PutValueType(e.item.result, PutOption(e.schema, PutImportSchema, s))))
  }

  lemma ReadPutEntry(e: ImportEntry, s: Cur)
    requires FitsEntry(e)
    ensures ReadEntry(PutEntry(e, s)) == Got(e, s)
  {
    ImportSchemaLaws();
    hide ReadImportSchema, PutImportSchema, ReadBounded, PutBlob, ReadU8, PutU8, ReadOption, PutOption;
    var t := PutOption(e.schema, PutImportSchema, s);
    OptionComplete(e.schema, BoolFlag, ReadImportSchema, PutImportSchema, FitsImportSchema, s);
    ReadPutU8(e.item.result, t);
    ReadPutU8(e.item.arity, PutU8(e.item.result, t));
    ReadPutBounded(e.item.name, MAX_NAME, PutU8(e.item.arity, PutU8(e.item.result, t)));
  }

  lemma EntryLaws()
    ensures Lawful(ReadEntry, PutEntry, FitsEntry, 7)
  {
    forall e, s | FitsEntry(e) ensures ReadEntry(PutEntry(e, s)) == Got(e, s) { ReadPutEntry(e, s); }
    ImportSchemaLaws();
    hide ReadImportSchema, PutImportSchema;
    forall e: ImportEntry, s ensures |PutEntry(e, s).rest| >= 7 + |s.rest| { Lengths(); }
    forall e: ImportEntry, a, s ensures PutEntry(e, Join(a, s)) == Join(PutEntry(e, a), s) {
      hide PutBlob, PutU8, PutOption;
      Frames();
      OptionFrame(e.schema, PutImportSchema, a, s);
    }
    hide ReadEntry, PutEntry;
  }

  predicate FitsLegacy(i: HostImport) { FitsString(i.name) }

  /** A version 11 import: any name, no schema. */
  function ReadLegacy(s: Cur): (r: Read<HostImport>)
    ensures r.Got? ==> FitsLegacy(r.v) && s == PutLegacy(r.v, r.s)
  {
    var (x, s) :- ReadString(s);
    var (arity, s) :- ReadU8(s);
    var (t, s) :- ReadValueType(s);
    Got(HostImport(x, arity, t), s)
  }

  function PutLegacy(i: HostImport, s: Cur): Cur { PutBlob(i.name, PutU8(i.arity, PutValueType(i.result, s))) }

  lemma LegacyLaws()
    ensures Lawful(ReadLegacy, PutLegacy, FitsLegacy, 6)
  {
    hide ReadU8, PutU8, ReadString, PutBlob;
    forall i, s | FitsLegacy(i) ensures ReadLegacy(PutLegacy(i, s)) == Got(i, s) { Primitives(); Strings(); }
    forall i: HostImport, s ensures |PutLegacy(i, s).rest| >= 6 + |s.rest| { Lengths(); }
    forall i: HostImport, a, s ensures PutLegacy(i, Join(a, s)) == Join(PutLegacy(i, a), s) { Frames(); }
    hide ReadLegacy, PutLegacy;
  }
}
