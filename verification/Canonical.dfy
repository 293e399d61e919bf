/** How lists of entries become maps, which never cost more. */
module Canonical {
  import opened Bytes
  import opened Seqs
  import opened Wire
  import opened Lists
  import opened Assoc
  import opened Programs
  import opened Sections
  import opened CallableSections
  import opened ImportSections
  import opened Payload
  import Constants
  import Schemas

  // ---------------------------------------------------------------- gauges

  /** The length of a cursor and its four budgets. */
  function Gauge(k: nat, c: Cur): nat {
    match k
    case 0 => |c.rest|
    case 1 => c.b.items
    case 2 => c.b.nodes
    case 3 => c.b.props
    case _ => c.b.params
  }

  predicate Leaner(a: Cur, b: Cur) {
    |a.rest| <= |b.rest| && a.b.Within(b.b)
  }

  function Weight<T>(k: nat, p: (T, Cur) -> Cur): T -> nat {
    v => Gauge(k, p(v, Nil))
  }

  lemma {:induction false} ManyGauge<T(!new)>(k: nat, vs: seq<T>, p: (T, Cur) -> Cur, s: Cur)
    requires Framing(p)
    ensures Gauge(k, PutMany(vs, p, s)) == Sum(Weight(k, p), vs) + Gauge(k, s)
  {
    if vs != [] {
      ManyGauge(k, vs[1..], p, s);
      var t := PutMany(vs[1..], p, s);
      assert Join(Nil, t) == t;
      assert p(vs[0], t) == Join(p(vs[0], Nil), t);
    }
  }

  lemma {:induction false} MappedTotal<T>(w: T -> nat, f: T -> T, vs: seq<T>)
    requires forall v <- vs :: w(f(v)) <= w(v)
    ensures Sum(w, Mapped(f, vs)) <= Sum(w, vs)
  {
    if vs != [] {
      assert vs[0] in vs;
      MappedTotal(w, f, vs[1..]);
      assert Mapped(f, vs)[1..] == Mapped(f, vs[1..]);
    }
  }

  /** Elements that become leaner make a leaner list. */
  lemma MappedLeaner<T(!new)>(vs: seq<T>, f: T -> T, p: (T, Cur) -> Cur, s: Cur, t: Cur)
    requires Framing(p) && Leaner(s, t) && forall v <- vs :: Leaner(p(f(v), Nil), p(v, Nil))
    ensures Leaner(PutMany(Mapped(f, vs), p, s), PutMany(vs, p, t))
    ensures Leaner(PutList(Mapped(f, vs), p, s), PutList(vs, p, t))
  {
    forall k: nat | k < 5 ensures Gauge(k, PutMany(Mapped(f, vs), p, s)) <= Gauge(k, PutMany(vs, p, t)) {
      ManyGauge(k, Mapped(f, vs), p, s);
      ManyGauge(k, vs, p, t);
      MappedTotal(Weight(k, p), f, vs);
    }
    Gauges(PutMany(Mapped(f, vs), p, s), PutMany(vs, p, t));
  }

  lemma Gauges(a: Cur, b: Cur)
    requires forall k: nat | k < 5 :: Gauge(k, a) <= Gauge(k, b)
    ensures Leaner(a, b)
  {
    assert Gauge(0, a) <= Gauge(0, b) && Gauge(1, a) <= Gauge(1, b) && Gauge(2, a) <= Gauge(2, b);
    assert Gauge(3, a) <= Gauge(3, b) && Gauge(4, a) <= Gauge(4, b);
  }

  /** Building a map from a list makes a leaner list. */
  lemma MapLeaner<T(!new), K(!new)>(vs: seq<T>, key: T -> K, lt: (K, K) -> bool, p: (T, Cur) -> Cur, s: Cur, t: Cur)
    requires Framing(p) && StrictOrder(lt) && Leaner(s, t)
    ensures Leaner(PutList(FromList(key, lt, vs), p, s), PutList(vs, p, t))
  {
    var m := FromList(key, lt, vs);
    forall k: nat | k < 5 ensures Gauge(k, PutMany(m, p, s)) <= Gauge(k, PutMany(vs, p, t)) {
      ManyGauge(k, m, p, s);
      ManyGauge(k, vs, p, t);
      FromListTotal(key, lt, Weight(k, p), vs);
    }
    Gauges(PutMany(m, p, s), PutMany(vs, p, t));
    FromListSorted(key, lt, vs);
  }

  lemma ManyLeaner<T(!new)>(vs: seq<T>, p: (T, Cur) -> Cur, s: Cur, t: Cur)
    requires Framing(p) && Leaner(s, t)
    ensures Leaner(PutMany(vs, p, s), PutMany(vs, p, t)) && Leaner(PutList(vs, p, s), PutList(vs, p, t))
  {
    forall k: nat | k < 5 ensures Gauge(k, PutMany(vs, p, s)) <= Gauge(k, PutMany(vs, p, t)) {
      ManyGauge(k, vs, p, s);
      ManyGauge(k, vs, p, t);
    }
    Gauges(PutMany(vs, p, s), PutMany(vs, p, t));
  }

  // ---------------------------------------------------------------- content with maps

  function CanonOpt(o: Option<Schemas.TypeSchema>): Option<Schemas.TypeSchema> {
    if o.Some? then Some(Schemas.CanonSchema(o.value)) else None
  }

  function Offset(o: Operand): u32 { o.offset }

  function CanonTypeMap(m: TypeMap): TypeMap {
    m.(schemas := Mapped(CanonOpt, m.schemas), operands := FromList(Offset, Below, m.operands))
  }

  function CanonPrototype(p: Prototype): Prototype { p.(schema := CanonOpt(p.schema)) }
  function CanonDecl(d: Decl): Decl { d.(body := Schemas.CanonSchema(d.body)) }
  function CanonDecls(ds: seq<Decl>): seq<Decl> { FromList(DeclName, Less, Mapped(CanonDecl, ds)) }

  /** The content with every hash map as its sorted association list. */
  function CanonContent(c: Content): Content {
    c.(constants := Mapped(Constants.CanonValue, c.constants),
       typeMap := if c.typeMap.Some? then Some(CanonTypeMap(c.typeMap.value)) else None,
       callables := c.callables.(prototypes := Mapped(CanonPrototype, c.callables.prototypes)),
       decls := CanonDecls(c.decls))
  }

  lemma OptIdempotent(o: Option<Schemas.TypeSchema>)
    ensures CanonOpt(CanonOpt(o)) == CanonOpt(o)
  {
    if o.Some? { Schemas.CanonIdempotent(o.value); }
  }

  lemma MappedTwice<T>(f: T -> T, vs: seq<T>)
    requires forall v <- vs :: f(f(v)) == f(v)
    ensures Mapped(f, Mapped(f, vs)) == Mapped(f, vs)
  {
  }

  lemma TypeMapIdempotent(m: TypeMap)
    ensures CanonTypeMap(CanonTypeMap(m)) == CanonTypeMap(m)
  {
    forall o | o in m.schemas ensures CanonOpt(CanonOpt(o)) == CanonOpt(o) { OptIdempotent(o); }
    MappedTwice(CanonOpt, m.schemas);
    OffsetOrder();
    FromListSorted(Offset, Below, m.operands);
    FromSorted(Offset, Below, FromList(Offset, Below, m.operands));
  }

  lemma DeclsIdempotent(ds: seq<Decl>)
    ensures CanonDecls(CanonDecls(ds)) == CanonDecls(ds)
  {
    var m := Mapped(CanonDecl, ds);
    StringOrder();
    FromListSorted(DeclName, Less, m);
    forall d | d in CanonDecls(ds) ensures CanonDecl(d) == d {
      assert d in m;
      var i :| 0 <= i < |ds| && d == CanonDecl(ds[i]);
      Schemas.CanonIdempotent(ds[i].body);
    }
    assert Mapped(CanonDecl, CanonDecls(ds)) == CanonDecls(ds);
    FromSorted(DeclName, Less, CanonDecls(ds));
  }

  /** Decoded content is its own canonical form. */
  lemma ContentIdempotent(c: Content)
    ensures CanonContent(CanonContent(c)) == CanonContent(c)
  {
    forall v | v in c.constants ensures Constants.CanonValue(Constants.CanonValue(v)) == Constants.CanonValue(v) {
      Constants.CanonIdempotent(v);
    }
    MappedTwice(Constants.CanonValue, c.constants);
    if c.typeMap.Some? { TypeMapIdempotent(c.typeMap.value); }
    forall p | p in c.callables.prototypes ensures CanonPrototype(CanonPrototype(p)) == CanonPrototype(p) {
      OptIdempotent(p.schema);
    }
    MappedTwice(CanonPrototype, c.callables.prototypes);
    DeclsIdempotent(c.decls);
  }

  // ---------------------------------------------------------------- limits are kept

  lemma DeclsFit(ds: seq<Decl>)
    requires FitsDeclList(ds)
    ensures FitsDeclList(CanonDecls(ds))
  {
    var m := Mapped(CanonDecl, ds);
    forall d | d in m ensures FitsDecl(d) {
      var i :| 0 <= i < |ds| && d == CanonDecl(ds[i]);
      assert FitsDecl(ds[i]);
      Schemas.CanonFits(0, ds[i].body);
    }
    StringOrder();
    FromListSorted(DeclName, Less, m);
    assert forall d <- CanonDecls(ds) :: FitsDecl(d);
  }

  lemma TypeMapFits(m: TypeMap)
    requires FitsTypeMap(m)
    ensures FitsTypeMap(CanonTypeMap(m))
  {
    forall i | 0 <= i < |m.schemas| ensures FitsOptSchema(CanonOpt(m.schemas[i])) {
      assert FitsOptSchema(m.schemas[i]);
      if m.schemas[i].Some? { Schemas.CanonFits(0, m.schemas[i].value); }
    }
    OffsetOrder();
    FromListSorted(Offset, Below, m.operands);
  }

  lemma ContentFits(v: Version, c: Content)
    requires FitsContent(v, c)
    ensures FitsContent(v, CanonContent(c))
  {
    forall i | 0 <= i < |c.constants| ensures FitsConst(Constants.CanonValue(c.constants[i])) {
      assert FitsConst(c.constants[i]);
      Constants.CanonFits(0, c.constants[i]);
    }
    if c.typeMap.Some? { TypeMapFits(c.typeMap.value); }
    forall i | 0 <= i < |c.callables.prototypes| ensures FitsPrototype(CanonPrototype(c.callables.prototypes[i])) {
      var p := c.callables.prototypes[i];
      assert FitsPrototype(p);
      if p.schema.Some? { Schemas.CanonFits(0, p.schema.value); }
    }
    DeclsFit(c.decls);
  }

  // ---------------------------------------------------------------- nothing costs more

  lemma OptLeaner(o: Option<Schemas.TypeSchema>, s: Cur, t: Cur)
    requires Leaner(s, t)
    ensures Leaner(PutOptSchema(CanonOpt(o), s), PutOptSchema(o, t))
  {
    if o.Some? {
      Schemas.CanonShrinks(o.value);
      Schemas.SchemaLoad(o.value, t);
      Schemas.SchemaLoad(Schemas.CanonSchema(o.value), s);
    }
  }

  lemma TypeMapLeaner(m: TypeMap, s: Cur, t: Cur)
    requires Leaner(s, t)
    ensures Leaner(PutTypeMap(CanonTypeMap(m), s), PutTypeMap(m, t))
  {
    ByteLaws();
    OptSchemaLaws();
    OperandLaws();
    OffsetOrder();
    forall o | o in m.schemas ensures Leaner(PutOptSchema(CanonOpt(o), Nil), PutOptSchema(o, Nil)) { OptLeaner(o, Nil, Nil); }
    hide PutValueType, PutOptSchema, PutOperand, PutMany, PutList;
    var c := CanonTypeMap(m);
    MapLeaner(m.operands, Offset, Below, PutOperand, s, t);
    var s1, t1 := PutList(c.operands, PutOperand, s), PutList(m.operands, PutOperand, t);
    ManyLeaner(m.optionals, PutBool, s1, t1);
    var s2, t2 := PutList(m.optionals, PutBool, s1), PutList(m.optionals, PutBool, t1);
    ManyLeaner(m.callables, PutBool, s2, t2);
    var s3, t3 := PutList(m.callables, PutBool, s2), PutList(m.callables, PutBool, t2);
    MappedLeaner(m.schemas, CanonOpt, PutOptSchema, s3, t3);
    ManyLeaner(m.locals, PutValueType, PutMany(c.schemas, PutOptSchema, s3), PutMany(m.schemas, PutOptSchema, t3));
  }

  lemma PrototypeLeaner(p: Prototype)
    ensures Leaner(PutPrototype(CanonPrototype(p), Nil), PutPrototype(p, Nil))
  {
    OptLeaner(p.schema, Nil, Nil);
    var s, t := PutOptSchema(CanonOpt(p.schema), Nil), PutOptSchema(p.schema, Nil);
    assert Leaner(PutSelf(p.self, s), PutSelf(p.self, t));
    WordLaws();
    ByteLaws();
    hide PutOptSchema, PutU16, PutMode, PutSelf, PutList;
    var s1, t1 := PutSelf(p.self, s), PutSelf(p.self, t);
    ManyLeaner(p.modes, PutMode, s1, t1);
    var s2, t2 := PutModes(p.modes, s1), PutModes(p.modes, t1);
    ManyLeaner(p.captures, PutU16, s2, t2);
    var s3, t3 := PutSlots(p.captures, s2), PutSlots(p.captures, t2);
    ManyLeaner(p.sources, PutU16, s3, t3);
    var s4, t4 := PutSlots(p.sources, s3), PutSlots(p.sources, t3);
    ManyLeaner(p.params, PutU16, s4, t4);
  }

  lemma CallablesLeaner(c: Callables, s: Cur, t: Cur)
    requires Leaner(s, t)
    ensures Leaner(PutCallables(c.(prototypes := Mapped(CanonPrototype, c.prototypes)), s), PutCallables(c, t))
  {
    ScriptFunctionLaws();
    PrototypeLaws();
    RegionLaws();
    BindingLaws();
    ExportLaws();
    forall p | p in c.prototypes ensures Leaner(PutPrototype(CanonPrototype(p), Nil), PutPrototype(p, Nil)) { PrototypeLeaner(p); }
    hide PutScriptFunction, PutPrototype, PutRegion, PutBinding, PutExport, PutList;
    ManyLeaner(c.exports, PutExport, s, t);
    var s1, t1 := PutList(c.exports, PutExport, s), PutList(c.exports, PutExport, t);
    ManyLeaner(c.bindings, PutBinding, s1, t1);
    var s2, t2 := PutList(c.bindings, PutBinding, s1), PutList(c.bindings, PutBinding, t1);
    ManyLeaner(c.regions, PutRegion, s2, t2);
    var s3, t3 := PutList(c.regions, PutRegion, s2), PutList(c.regions, PutRegion, t2);
    MappedLeaner(c.prototypes, CanonPrototype, PutPrototype, s3, t3);
    ManyLeaner(c.functions, PutScriptFunction, PutList(Mapped(CanonPrototype, c.prototypes), PutPrototype, s3), PutList(c.prototypes, PutPrototype, t3));
  }

  lemma DeclsLeaner(ds: seq<Decl>, s: Cur, t: Cur)
    requires Leaner(s, t)
    ensures Leaner(PutDeclList(CanonDecls(ds), s), PutDeclList(ds, t))
  {
    forall d | d in ds ensures Leaner(PutDecl(CanonDecl(d), Nil), PutDecl(d, Nil)) {
      Schemas.CanonShrinks(d.body);
      Schemas.SchemaLoad(d.body, Nil);
      Schemas.SchemaLoad(Schemas.CanonSchema(d.body), Nil);
      WordLaws();
      hide PutTop, PutList;
      ManyLeaner(d.params, PutBlob, PutTop(Schemas.CanonSchema(d.body), Nil), PutTop(d.body, Nil));
    }
    DeclLaws();
    StringOrder();
    hide PutDecl, PutList;
    MappedLeaner(ds, CanonDecl, PutDecl, t, t);
    MapLeaner(Mapped(CanonDecl, ds), DeclName, Less, PutDecl, s, t);
  }

  lemma OptionLeaner<T(!new)>(o: Option<T>, p: (T, Cur) -> Cur, s: Cur, t: Cur)
    requires Framing(p) && Leaner(s, t)
    ensures Leaner(PutOption(o, p, s), PutOption(o, p, t))
  {
    if o.Some? {
      assert Join(Nil, s) == s && Join(Nil, t) == t;
      assert p(o.value, s) == Join(p(o.value, Nil), s) && p(o.value, t) == Join(p(o.value, Nil), t);
    }
  }

  lemma MetaLeaner(v: Version, c: Content, s: Cur)
    requires v < 13 ==> c.decls == []
    ensures Leaner(PutMeta(v, CanonContent(c), s), PutMeta(v, c, s))
  {
    DebugLaws();
    hide PutDebug, PutTypeMap, PutCallables, PutDeclList;
    var d := CanonContent(c);
    DeclsLeaner(c.decls, s, s);
    var s1, t1 := if v == 13 then PutDeclList(d.decls, s) else s, if v == 13 then PutDeclList(c.decls, s) else s;
    CallablesLeaner(c.callables, s1, t1);
    var s2, t2 := PutCallables(d.callables, s1), PutCallables(c.callables, t1);
    OptionLeaner(c.debug, PutDebug, s2, t2);
    var s3, t3 := PutOption(c.debug, PutDebug, s2), PutOption(c.debug, PutDebug, t2);
    if c.typeMap.Some? { TypeMapLeaner(c.typeMap.value, s3, t3); }
  }

  lemma ImportsLeaner(v: Version, es: seq<ImportEntry>, s: Cur, t: Cur)
    requires Leaner(s, t)
    ensures Leaner(PutImports(v, es, s), PutImports(v, es, t))
  {
    if v == 11 {
      LegacyLaws();
      hide PutLegacy, PutList;
      ManyLeaner(Mapped(Item, es), PutLegacy, s, t);
    } else {
      EntryLaws();
      hide PutEntry, PutList;
      ManyLeaner(es, PutEntry, s, t);
    }
  }

  lemma ConstLeaner(x: Constants.Value)
    ensures Leaner(PutConst(Constants.CanonValue(x), Nil), PutConst(x, Nil))
  {
    Constants.CanonShrinks(x);
    Constants.ValueLoad(x, Nil);
    Constants.ValueLoad(Constants.CanonValue(x), Nil);
  }

  /** Canonical content is no longer and debits no budget more than the content it came from. */
  lemma ContentLeaner(v: Version, c: Content, s: Cur)
    requires v < 13 ==> c.decls == []
    ensures Leaner(PutContent(v, CanonContent(c), s), PutContent(v, c, s))
  {
    hide PutMeta, PutConst, PutImports, PutList;
    MetaLeaner(v, c, s);
    var s1, t1 := PutMeta(v, CanonContent(c), s), PutMeta(v, c, s);
    ImportsLeaner(v, c.entries, s1, t1);
    var s2, t2 := PutImports(v, c.entries, s1), PutImports(v, c.entries, t1);
    forall x | x in c.constants ensures Leaner(PutConst(Constants.CanonValue(x), Nil), PutConst(x, Nil)) { ConstLeaner(x); }
    ConstLaws();
    MappedLeaner(c.constants, Constants.CanonValue, PutConst, PutBlob(c.code, s2), PutBlob(c.code, t2));
  }
}
