/** The freestanding decoder's skipping of what it does not keep. */
module SlimDecoder {
  // It walks the same bytes as the full decoder but skips schemas, host import schemas, the type map, debug information and
  // struct declarations. Its cursor has only the item budget.

  import opened Bytes
  import opened Seqs
  import opened Wire
  import opened Lists
  import opened ResourceKeys
  import opened Programs
  import opened ImportSections
  import opened Payload
  import opened HostTypes
  import opened HostWire
  import opened Schemas

  /** The cursor without the host budgets the freestanding decoder does not have. */
  function Shadow(s: Cur): Cur { s.(b := Budget(s.b.items, 0, 0, 0)) }

  // ---------------------------------------------------------------- skipping

  function SkipString(s: Cur): Read<()> {
    var (_, s) :- ReadBlob(s);
    Got((), s)
  }

  function SkipKey(s: Cur): Read<()> {
    var (x, s) :- ReadBlob(s);
    if x == [] || |x| > MAX_NAME then Fail(InvalidResourceKey)
    else if !Utf8(x) then Fail(InvalidUtf8)
    else if !KeyOk(x) then Fail(InvalidResourceKey)
    else Got((), s)
  }

  function SkipSchema(depth: nat, s: Cur): Read<()>
    requires depth <= MAX_SCHEMA_DEPTH
    decreases MAX_SCHEMA_DEPTH - depth, 0
  {
    if depth >= MAX_SCHEMA_DEPTH then Fail(SchemaTooDeep)
    else
      var (_, s) :- Debit(1, s);
      var (tag, s) :- ReadU8(s);
      if tag <= 7 then Got((), s)
      else if tag == 8 then SkipString(s)
      else if tag == 9 then
        var (_, s) :- SkipString(s);
        var (n, s) :- ReadCount(1, 0, s);
        SkipSchemas(n, depth + 1, s)
      else if tag == 10 || tag == 13 || tag == 16 then SkipSchema(depth + 1, s)
      else if tag == 11 then
        var (n, s) :- ReadCount(1, 0, s);
        SkipSchemas(n, depth + 1, s)
      else if tag == 12 || tag == 15 then
        var (n, s) :- ReadCount(1, 1, s);
        var (_, s) :- SkipSchemas(n, depth + 1, s);
        SkipSchema(depth + 1, s)
      else if tag == 14 then
        var (n, s) :- ReadCount(5, 0, s);
        SkipFields(n, depth + 1, s)
      else if tag == 17 then SkipKey(s)
      else Fail(InvalidValueType(tag))
  }

  function SkipSchemas(n: nat, depth: nat, s: Cur): Read<()>
    requires depth <= MAX_SCHEMA_DEPTH
    decreases MAX_SCHEMA_DEPTH - depth, n
  {
    if n == 0 then Got((), s)
    else
      var (_, s) :- SkipSchema(depth, s);
      SkipSchemas(n - 1, depth, s)
  }

  function SkipFields(n: nat, depth: nat, s: Cur): Read<()>
    requires depth <= MAX_SCHEMA_DEPTH
    decreases MAX_SCHEMA_DEPTH - depth, n
  {
    if n == 0 then Got((), s)
    else
      var (_, s) :- SkipString(s);
      var (_, s) :- SkipSchema(depth, s);
      SkipFields(n - 1, depth, s)
  }

  function SkipHost(depth: nat, s: Cur): Read<()>
    requires depth <= MAX_SCHEMA_DEPTH
    decreases MAX_SCHEMA_DEPTH - depth, 0
  {
    if depth >= MAX_SCHEMA_DEPTH then Fail(SchemaTooDeep)
    else
      var (tag, s) :- ReadU8(s);
      if tag <= 7 then Got((), s)
      else if tag <= 10 then SkipHost(depth + 1, s)
      else if tag == 11 then
        var (n, s) :- ReadCount(1, 1, s);
        var (_, s) :- SkipHosts(n, depth + 1, s);
        SkipHost(depth + 1, s)
      else if tag == 12 then SkipString(s)
      else if tag == 13 then
        var (_, s) :- SkipString(s);
        var (n, s) :- ReadCount(1, 1, s);
        SkipHostFields(n, depth + 1, s)
      else Fail(InvalidValueType(tag))
  }

  function SkipHosts(n: nat, depth: nat, s: Cur): Read<()>
    requires depth <= MAX_SCHEMA_DEPTH
    decreases MAX_SCHEMA_DEPTH - depth, n
  {
    if n == 0 then Got((), s)
    else
      var (_, s) :- SkipHost(depth, s);
      SkipHosts(n - 1, depth, s)
  }

  function SkipHostFields(n: nat, depth: nat, s: Cur): Read<()>
    requires depth <= MAX_SCHEMA_DEPTH
    decreases MAX_SCHEMA_DEPTH - depth, n
  {
    if n == 0 then Got((), s)
    else
      var (_, s) :- SkipString(s);
      var (_, s) :- SkipHost(depth, s);
      SkipHostFields(n - 1, depth, s)
  }

  // ---------------------------------------------------------------- skipping follows reading

  lemma SkipPutString(x: seq<u8>, s: Cur)
    requires FitsBlob(x)
    ensures SkipString(PutBlob(x, s)) == Got((), s)
  {
    hide ReadBlob, PutBlob;
    ReadPutBlob(x, s);
  }

  /** Wherever the full reader finds a schema, skipping moves just as far and debits just as much. */
  lemma {:induction false} SkipPutSchema(depth: nat, t: TypeSchema, s: Cur)
    requires FitsSchema(depth, t)
    ensures SkipSchema(depth, PutSchema(t, s)) == Got((), s)
    decreases t, 1
  {
    hide PutU8, ReadU8, Charge, Debit, PutBlob, ReadBlob, PutCount, ReadCount, SkipString;
    match t {
      case Basic(k) => Schemas.ReadPutHeader(ScalarTag(k), s);
      case GenericParam(x) =>
        Schemas.ReadPutHeader(8, PutBlob(x, s));
        SkipPutString(x, s);
      case Resource(x) =>
        Schemas.ReadPutHeader(17, PutBlob(x, s));
        ReadPutBlob(x, s);
      case Array(u) =>
        Schemas.ReadPutHeader(10, PutSchema(u, s));
        SkipPutSchema(depth + 1, u, s);
      case Map(u) =>
        Schemas.ReadPutHeader(13, PutSchema(u, s));
        SkipPutSchema(depth + 1, u, s);
      case Optional(u) =>
        Schemas.ReadPutHeader(16, PutSchema(u, s));
        SkipPutSchema(depth + 1, u, s);
      case TupleRest(_, _) => SkipPutPair(depth, t, s);
      case Callable(_, _) => SkipPutPair(depth, t, s);
      case _ => SkipPutList(depth, t, s);
    }
  }

  lemma {:induction false} SkipPutList(depth: nat, t: TypeSchema, s: Cur)
    requires FitsSchema(depth, t) && (t.Named? || t.Tuple? || t.Object?)
    ensures SkipSchema(depth, PutSchema(t, s)) == Got((), s)
    decreases t, 0
  {
    hide PutU8, ReadU8, Charge, Debit, PutBlob, ReadBlob, PutCount, ReadCount, SkipString;
    match t {
      case Named(x, ts) =>
        Schemas.ReadPutHeader(9, PutBlob(x, PutParts(ts, s)));
        SkipPutString(x, PutParts(ts, s));
        SkipPutParts(depth + 1, 0, ts, s);
      case Tuple(ts) =>
        Schemas.ReadPutHeader(11, PutParts(ts, s));
        SkipPutParts(depth + 1, 0, ts, s);
      case Object(fs) =>
        Schemas.ReadPutHeader(14, PutCount(|fs|, PutFields(fs, s)));
        FieldsLoad(fs, s);
        ReadPutCount(|fs|, 5, 0, PutFields(fs, s));
        SkipPutFields(depth + 1, fs, s);
    }
  }

  lemma {:induction false} SkipPutPair(depth: nat, t: TypeSchema, s: Cur)
    requires FitsSchema(depth, t) && (t.TupleRest? || t.Callable?)
    ensures SkipSchema(depth, PutSchema(t, s)) == Got((), s)
    decreases t, 0
  {
    hide PutU8, ReadU8, Charge, Debit, PutBlob, ReadBlob, PutCount, ReadCount, SkipString;
    match t {
      case TupleRest(ts, u) =>
        SchemaLoad(u, s);
        Schemas.ReadPutHeader(12, PutParts(ts, PutSchema(u, s)));
        SkipPutParts(depth + 1, 1, ts, PutSchema(u, s));
        SkipPutSchema(depth + 1, u, s);
      case Callable(ts, u) =>
        SchemaLoad(u, s);
        Schemas.ReadPutHeader(15, PutParts(ts, PutSchema(u, s)));
        SkipPutParts(depth + 1, 1, ts, PutSchema(u, s));
        SkipPutSchema(depth + 1, u, s);
    }
  }

  lemma {:induction false} SkipPutParts(depth: nat, over: nat, ts: seq<TypeSchema>, s: Cur)
    requires depth <= MAX_SCHEMA_DEPTH && FitsSchemas(depth, ts) && |ts| <= MAX_COUNT && over <= |s.rest|
    ensures ReadCount(1, over, PutParts(ts, s)) == Got(|ts|, PutSchemas(ts, s))
    ensures SkipSchemas(|ts|, depth, PutSchemas(ts, s)) == Got((), s)
    decreases ts, 1
  {
    hide PutSchemas, SkipSchemas, FitsSchemas, ReadCount, PutCount;
    SchemasLoad(ts, s);
    ReadPutCount(|ts|, 1, over, PutSchemas(ts, s));
    SkipPutSchemas(depth, ts, s);
  }

  lemma {:induction false} SkipPutSchemas(depth: nat, ts: seq<TypeSchema>, s: Cur)
    requires depth <= MAX_SCHEMA_DEPTH && FitsSchemas(depth, ts)
    ensures SkipSchemas(|ts|, depth, PutSchemas(ts, s)) == Got((), s)
    decreases ts, 0
  {
    hide PutSchema, SkipSchema, FitsSchema;
    if ts != [] {
      SkipPutSchema(depth, ts[0], PutSchemas(ts[1..], s));
      SkipPutSchemas(depth, ts[1..], s);
    }
  }

  lemma {:induction false} SkipPutFields(depth: nat, fs: seq<Field>, s: Cur)
    requires depth <= MAX_SCHEMA_DEPTH && FitsFields(depth, fs)
    ensures SkipFields(|fs|, depth, PutFields(fs, s)) == Got((), s)
    decreases fs
  {
    hide PutBlob, SkipString, SkipSchema, PutSchema, FitsSchema, FitsString;
    if fs != [] {
      var f, t := fs[0], PutFields(fs[1..], s);
      assert f.ty < f && FitsField(depth, f);
      FieldString(depth, f);
      SkipPutString(f.name, PutSchema(f.ty, t));
      SkipPutSchema(depth, f.ty, t);
      SkipPutFields(depth, fs[1..], s);
    }
  }

  lemma FieldString(depth: nat, f: Field)
    requires FitsField(depth, f)
    ensures FitsBlob(f.name)
  {
  }

  /** Host charges are invisible to the freestanding cursor. */
  lemma Shadows()
    ensures forall v: u8, s :: Shadow(PutU8(v, s)) == PutU8(v, Shadow(s))
    ensures forall v: u64, s :: Shadow(PutU64(v, s)) == PutU64(v, Shadow(s))
    ensures forall x: seq<u8>, s :: Shadow(PutBlob(x, s)) == PutBlob(x, Shadow(s))
    ensures forall n: nat, s :: Shadow(PutCount(n, s)) == PutCount(n, Shadow(s))
    ensures forall s :: Shadow(ChargeNode(s)) == Shadow(s)
    ensures forall n: nat, s :: Shadow(ChargeProps(n, s)) == Shadow(s)
    ensures forall n: nat, s :: Shadow(ChargeParams(n, s)) == Shadow(s)
    ensures forall s :: Shadow(s).rest == s.rest
  {
  }

  lemma {:induction false} SkipPutHost(depth: nat, t: HostType, s: Cur)
    requires FitsHost(depth, t) && Room(t, s)
    ensures SkipHost(depth, Shadow(PutHost(t, s))) == Got((), Shadow(s))
    decreases t, 1
  {
    hide PutU8, ReadU8, ChargeNode, ChargeProps, PutBlob, ReadBlob, PutCount, ReadCount, SkipString, Shadow;
    Shadows();
    match t {
      case Plain(k) => ReadPutU8(ScalarTag(k), Shadow(s));
      case ListOf(u) =>
        ReadPutU8(8, Shadow(PutHost(u, s)));
        SkipPutHost(depth + 1, u, s);
      case MapOf(u) =>
        ReadPutU8(9, Shadow(PutHost(u, s)));
        SkipPutHost(depth + 1, u, s);
      case Maybe(u) =>
        ReadPutU8(10, Shadow(PutHost(u, s)));
        SkipPutHost(depth + 1, u, s);
      case Function(_, _) => SkipPutFunction(depth, t, s);
      case Handle(x) =>
        ReadPutU8(12, PutBlob(x, Shadow(s)));
        SkipPutString(x, Shadow(s));
      case Struct(_, _) => SkipPutStruct(depth, t, s);
    }
  }

  lemma {:induction false} SkipPutFunction(depth: nat, t: HostType, s: Cur)
    requires FitsHost(depth, t) && Room(t, s) && t.Function?
    ensures SkipHost(depth, Shadow(PutHost(t, s))) == Got((), Shadow(s))
    decreases t, 0
  {
    hide PutU8, ReadU8, ChargeNode, ChargeProps, PutBlob, ReadBlob, PutCount, ReadCount, SkipString, Shadow;
    Shadows();
    var ts, u := t.params, t.result;
    var p := PutHosts(ts, PutHost(u, s));
    HostLoad(u, s);
    HostsLoad(ts, PutHost(u, s));
    ReadPutU8(11, PutCount(|ts|, Shadow(p)));
    ReadPutCount(|ts|, 1, 1, Shadow(p));
    SkipPutHosts(depth + 1, ts, PutHost(u, s));
    SkipPutHost(depth + 1, u, s);
  }

  lemma {:induction false} SkipPutStruct(depth: nat, t: HostType, s: Cur)
    requires FitsHost(depth, t) && Room(t, s) && t.Struct?
    ensures SkipHost(depth, Shadow(PutHost(t, s))) == Got((), Shadow(s))
    decreases t, 0
  {
    hide PutU8, ReadU8, ChargeNode, ChargeProps, PutBlob, ReadBlob, PutCount, ReadCount, SkipString, Shadow;
    Shadows();
    var x, fs := t.name, t.fields;
    var p := PutHostFields(fs, s);
    HostFieldsLoad(fs, s);
    ReadPutU8(13, PutBlob(x, PutCount(|fs|, Shadow(p))));
    SkipPutString(x, PutCount(|fs|, Shadow(p)));
    ReadPutCount(|fs|, 1, 1, Shadow(p));
    SkipPutHostFields(depth + 1, fs, s);
  }

  lemma {:induction false} SkipPutHosts(depth: nat, ts: seq<HostType>, s: Cur)
    requires depth <= MAX_HOST_DEPTH && FitsHosts(depth, ts) && s.rest != []
    ensures SkipHosts(|ts|, depth, Shadow(PutHosts(ts, s))) == Got((), Shadow(s))
    decreases ts
  {
    if ts != [] {
      HostsLoad(ts[1..], s);
      SkipPutHost(depth, ts[0], PutHosts(ts[1..], s));
      SkipPutHosts(depth, ts[1..], s);
    }
  }

  lemma {:induction false} SkipPutHostFields(depth: nat, fs: seq<HostField>, s: Cur)
    requires depth <= MAX_HOST_DEPTH && FitsHostFields(depth, fs) && (fs != [] ==> Room(fs[|fs| - 1].ty, s))
    ensures SkipHostFields(|fs|, depth, Shadow(PutHostFields(fs, s))) == Got((), Shadow(s))
    decreases fs
  {
    hide PutBlob, SkipString, Shadow;
    if fs != [] {
      assert fs[0].ty < fs[0] && FieldFits(fs[0]);
      Shadows();
      HostFieldsLoad(fs[1..], s);
      SkipPutString(fs[0].name, Shadow(PutHost(fs[0].ty, PutHostFields(fs[1..], s))));
      SkipPutHost(depth, fs[0].ty, PutHostFields(fs[1..], s));
      SkipPutHostFields(depth, fs[1..], s);
    }
  }

  // ---------------------------------------------------------------- laws of freestanding readers

  /** Where the full writer put `v`, the freestanding reader `f` returns `proj(v)` and stops at the same place with the
      same item budget. */
  ghost predicate Mirrors<T(!new), U>(f: Cur -> Read<U>, p: (T, Cur) -> Cur, fits: T -> bool, proj: T -> U) {
    forall v, s | fits(v) :: f(Shadow(p(v, s))) == Got(proj(v), Shadow(s))
  }

  lemma {:induction false} ManyMirror<T(!new), U>(vs: seq<T>, f: Cur -> Read<U>, p: (T, Cur) -> Cur, fits: T -> bool, proj: T -> U, s: Cur)
    requires Mirrors(f, p, fits, proj) && All(vs, fits)
    ensures ReadMany(|vs|, f, Shadow(PutMany(vs, p, s))) == Got(Mapped(proj, vs), Shadow(s))
  {
    if vs != [] {
      assert fits(vs[0]);
      ManyMirror(vs[1..], f, p, fits, proj, s);
    }
  }

  lemma ListMirror<T(!new), U>(vs: seq<T>, min: nat, f: Cur -> Read<U>, p: (T, Cur) -> Cur, fits: T -> bool, proj: T -> U, s: Cur)
    requires Mirrors(f, p, fits, proj) && AtLeast(p, min) && FitsList(vs, fits)
    ensures ReadList(min, 0, f, Shadow(PutList(vs, p, s))) == Got(Mapped(proj, vs), Shadow(s))
  {
    hide PutCount, ReadCount, Shadow;
    ManyMirror(vs, f, p, fits, proj, s);
    ManyAtLeast(vs, p, min, s);
    Shadows();
    ReadPutCount(|vs|, min, 0, Shadow(PutMany(vs, p, s)));
  }

  function Lift<T, U>(proj: T -> U, o: Option<T>): Option<U> { if o.Some? then Some(proj(o.value)) else None }

  lemma OptionMirror<T(!new), U>(o: Option<T>, flag: Flag, f: Cur -> Read<U>, p: (T, Cur) -> Cur, fits: T -> bool, proj: T -> U, s: Cur)
    requires Mirrors(f, p, fits, proj) && FitsOption(o, fits)
    ensures ReadOption(flag, f, Shadow(PutOption(o, p, s))) == Got(Lift(proj, o), Shadow(s))
  {
    if o.Some? {
      ReadPutU8(1, Shadow(p(o.value, s)));
    } else {
      ReadPutU8(0, Shadow(s));
    }
  }

  function Nothing<T>(v: T): () { () }
  function Same<T>(v: T): T { v }

  lemma MappedSame<T>(vs: seq<T>)
    ensures Mapped(Same, vs) == vs
  {
  }

  // ---------------------------------------------------------------- imports

  function SkipParam(s: Cur): Read<()> {
    var (_, s) :- SkipString(s);
    var (_, s) :- SkipHost(0, s);
    var (x, s) :- ReadU8(s);
    if x > 3 then Fail(InvalidValueType(x)) else Got((), s)
  }

  function SkipImportSchema(s: Cur): Read<()> {
    var (_, s) :- SkipString(s);
    var (_, s) :- ReadList(6, 0, SkipParam, s);
    var (_, s) :- SkipHost(0, s);
    var (_, s) :- ReadExact(8, s);
    Got((), s)
  }

  /** From version 12 on an import is followed by a presence byte and a schema. */
  function SlimEntry(s: Cur): Read<HostImport> {
    var (i, s) :- ReadLegacy(s);
    var (_, s) :- ReadOption(BoolFlag, SkipImportSchema, s);
    Got(i, s)
  }

  lemma SkipPutParam(p: ImportParam, s: Cur)
    requires FitsParam(p)
    ensures SkipParam(Shadow(PutParam(p, s))) == Got((), Shadow(s))
  {
    hide SkipString, SkipHost, ReadU8, PutU8, PutBlob, PutHost, Shadow;
    var t := PutU8(PassingTag(p.passing), s);
    Shadows();
    Lengths();
    SkipPutString(p.name, Shadow(PutHost(p.ty, t)));
    SkipPutHost(0, p.ty, t);
    ReadPutU8(PassingTag(p.passing), Shadow(s));
  }

  lemma ParamsMirror(ps: seq<ImportParam>, s: Cur)
    requires |ps| <= MAX_COUNT && All(ps, FitsParam)
    ensures ReadList(6, 0, SkipParam, Shadow(PutList(ps, PutParam, s))) == Got(Mapped(Nothing, ps), Shadow(s))
  {
    forall p, s | FitsParam(p) ensures SkipParam(Shadow(PutParam(p, s))) == Got((), Shadow(s)) { SkipPutParam(p, s); }
    ParamLaws();
    hide SkipParam, PutParam, Shadow;
    ListMirror(ps, 6, SkipParam, PutParam, FitsParam, Nothing, s);
  }

  lemma ShadowSchema(h: ImportSchema, s: Cur)
    ensures Shadow(PutImportSchema(h, s)) ==
            PutBlob(h.name, Shadow(PutList(h.params, PutParam, PutHost(h.result, PutU64(h.fingerprint, s)))))
  {
    hide PutBlob, PutCount, PutMany, PutHost, PutU64;
    Shadows();
  }

  lemma SkipWord(v: u64, s: Cur)
    ensures ReadExact(8, Shadow(PutU64(v, s))) == Got(LE(v, 8), Shadow(s))
  {
    ReadPutExact(LE(v, 8), Shadow(s));
  }

  lemma SkipPutImportSchema(h: ImportSchema, s: Cur)
    requires FitsImportSchema(h)
    ensures SkipImportSchema(Shadow(PutImportSchema(h, s))) == Got((), Shadow(s))
  {
    hide SkipString, SkipHost, SkipParam, PutBlob, PutHost, PutParam, PutList, ReadList, PutU64, Shadow, ReadExact, PutImportSchema;
    var t1 := PutU64(h.fingerprint, s);
    var t2 := PutHost(h.result, t1);
    ShadowSchema(h, s);
    SkipPutString(h.name, Shadow(PutList(h.params, PutParam, t2)));
    ParamsMirror(h.params, t2);
    SkipPutHost(0, h.result, t1) by { assert |t1.rest| >= 8 by { Lengths(); } }
    SkipWord(h.fingerprint, s);
  }

  lemma EntryMirrors()
    ensures Mirrors(SlimEntry, PutEntry, FitsEntry, Item)
  {
    forall e, s | FitsEntry(e) ensures SlimEntry(Shadow(PutEntry(e, s))) == Got(Item(e), Shadow(s)) {
      forall h, s | FitsImportSchema(h) ensures SkipImportSchema(Shadow(PutImportSchema(h, s))) == Got((), Shadow(s)) {
        SkipPutImportSchema(h, s);
      }
      hide SkipImportSchema, PutImportSchema, ReadLegacy, PutBlob, PutU8, Shadow, ReadOption, PutOption;
      OptionMirror(e.schema, BoolFlag, SkipImportSchema, PutImportSchema, FitsImportSchema, Nothing, s);
      Shadows();
      LegacyLaws();
      assert ReadLegacy(PutLegacy(e.item, Shadow(PutOption(e.schema, PutImportSchema, s)))).Got?;
    }
  }

  lemma LegacyMirrors()
    ensures Mirrors(ReadLegacy, PutLegacy, FitsLegacy, Same)
  {
    LegacyLaws();
    forall i, s | FitsLegacy(i) ensures ReadLegacy(Shadow(PutLegacy(i, s))) == Got(i, Shadow(s)) {
      assert Shadow(PutLegacy(i, s)) == PutLegacy(i, Shadow(s)) by { Shadows(); }
      hide ReadLegacy, PutLegacy;
    }
  }

  function SlimImports(v: Version, s: Cur): Read<seq<HostImport>> {
    if v == 11 then ReadList(6, 0, ReadLegacy, s) else ReadList(7, 0, SlimEntry, s)
  }

  lemma ImportsMirror(v: Version, es: seq<ImportEntry>, s: Cur)
    requires FitsImports(v, es)
    ensures SlimImports(v, Shadow(PutImports(v, es, s))) == Got(Mapped(Item, es), Shadow(s))
  {
    hide ReadList, PutList, Shadow;
    if v == 11 {
      LegacyLaws();
      LegacyMirrors();
      hide ReadLegacy, PutLegacy;
      ListMirror(Mapped(Item, es), 6, ReadLegacy, PutLegacy, FitsLegacy, Same, s);
      MappedSame(Mapped(Item, es));
    } else {
      EntryLaws();
      EntryMirrors();
      hide SlimEntry, PutEntry;
      ListMirror(es, 7, SlimEntry, PutEntry, FitsEntry, Item, s);
    }
  }
}
