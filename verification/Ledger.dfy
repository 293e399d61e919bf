/** What each part of a payload debits. */
module Ledger {
  // Explicit sums of counts, frame-local counts, schema nodes, host nodes, host properties and host parameters.

  import opened Seqs
  import opened Wire
  import opened Lists
  import opened Programs
  import opened Sections
  import opened CallableSections
  import opened ImportSections
  import opened ImportLimits
  import opened HostTypes
  import opened HostWire
  import opened Payload
  import Constants
  import Schemas

  /** Reading `v` debits exactly `w(v)` items and nothing else, whatever follows. */
  ghost predicate Costs<T(!new)>(p: (T, Cur) -> Cur, w: T -> nat) {
    forall v, s {:trigger p(v, s)} :: p(v, s).b == s.b.(items := s.b.items + w(v))
  }

  function Zero<T>(v: T): nat { 0 }

  /** A counted list debits its count and its elements. */
  function ListItems<T>(w: T -> nat, vs: seq<T>): nat { |vs| + Sum(w, vs) }

  function OptionItems<T>(w: T -> nat, o: Option<T>): nat { if o.Some? then w(o.value) else 0 }

  lemma {:induction false} ManyCosts<T(!new)>(vs: seq<T>, p: (T, Cur) -> Cur, w: T -> nat, s: Cur)
    requires Costs(p, w)
    ensures PutMany(vs, p, s).b == s.b.(items := s.b.items + Sum(w, vs))
  {
    if vs != [] {
      ManyCosts(vs[1..], p, w, s);
    }
  }

  lemma ListCosts<T(!new)>(vs: seq<T>, p: (T, Cur) -> Cur, w: T -> nat, s: Cur)
    requires Costs(p, w)
    ensures PutList(vs, p, s).b == s.b.(items := s.b.items + ListItems(w, vs))
  {
    ManyCosts(vs, p, w, s);
  }

  lemma OptionCosts<T(!new)>(o: Option<T>, p: (T, Cur) -> Cur, w: T -> nat, s: Cur)
    requires Costs(p, w)
    ensures PutOption(o, p, s).b == s.b.(items := s.b.items + OptionItems(w, o))
  {
  }

  lemma {:induction false} ZeroSum<T>(vs: seq<T>)
    ensures Sum(Zero, vs) == 0
  {
    if vs != [] {
      ZeroSum(vs[1..]);
    }
  }

  /** A counted list of elements that debit nothing. */
  lemma PlainList<T(!new)>(vs: seq<T>, p: (T, Cur) -> Cur, s: Cur)
    requires Costs(p, Zero)
    ensures PutList(vs, p, s).b == s.b.(items := s.b.items + |vs|)
  {
    ListCosts(vs, p, Zero, s);
    ZeroSum(vs);
  }

  lemma Scalars()
    ensures Costs(PutU8, Zero) && Costs(PutU16, Zero) && Costs(PutU32, Zero) && Costs(PutU64, Zero)
    ensures Costs(PutBlob, Zero) && Costs(PutBool, Zero) && Costs(PutValueType, Zero) && Costs(PutMode, Zero)
  {
  }

  // ---------------------------------------------------------------- schemas and constants

  function SchemaItems(t: Schemas.TypeSchema): nat { Schemas.ItemsOf(t) }
  function OptSchemaItems(o: Option<Schemas.TypeSchema>): nat { OptionItems(SchemaItems, o) }
  function ConstItems(v: Constants.Value): nat { Constants.ItemsOf(v) }

  lemma TreeCosts()
    ensures Costs(PutTop, SchemaItems) && Costs(PutOptSchema, OptSchemaItems) && Costs(PutConst, ConstItems)
  {
    forall t, s ensures PutTop(t, s).b == s.b.(items := s.b.items + SchemaItems(t)) { Schemas.SchemaLoad(t, s); }
    forall v, s ensures PutConst(v, s).b == s.b.(items := s.b.items + ConstItems(v)) { Constants.ValueLoad(v, s); }
    hide PutTop, PutConst;
  }

  // ---------------------------------------------------------------- type map and debug information

  function TypeMapItems(m: TypeMap): nat {
    |m.locals| + Sum(OptSchemaItems, m.schemas) + |m.callables| + |m.optionals| + |m.operands|
  }

  lemma TypeMapCosts()
    ensures Costs(PutTypeMap, TypeMapItems)
  {
    Scalars();
    TreeCosts();
    hide PutOptSchema, PutList;
    forall m, s ensures PutTypeMap(m, s).b == s.b.(items := s.b.items + TypeMapItems(m)) {
      var t1 := PutList(m.operands, PutOperand, s);
      PlainList(m.operands, PutOperand, s);
      var t2 := PutList(m.optionals, PutBool, t1);
      PlainList(m.optionals, PutBool, t1);
      var t3 := PutList(m.callables, PutBool, t2);
      PlainList(m.callables, PutBool, t2);
      var t4 := PutMany(m.schemas, PutOptSchema, t3);
      ManyCosts(m.schemas, PutOptSchema, OptSchemaItems, t3);
      ManyCosts(m.locals, PutValueType, Zero, t4);
      ZeroSum(m.locals);
    }
  }

  function FunctionItems(f: DebugFunction): nat { |f.args| }

  function DebugItems(d: DebugInfo): nat {
    |d.lines| + ListItems(FunctionItems, d.functions) + |d.locals|
  }

  lemma FunctionCosts()
    ensures Costs(PutFunction, FunctionItems)
  {
    forall f, s ensures PutFunction(f, s).b == s.b.(items := s.b.items + FunctionItems(f)) {
      PlainList(f.args, PutArg, s);
    }
  }

  lemma DebugCosts()
    ensures Costs(PutDebug, DebugItems)
  {
    FunctionCosts();
    hide PutFunction, PutList, ListItems;
    forall d, s ensures PutDebug(d, s).b == s.b.(items := s.b.items + DebugItems(d)) {
      var t1 := PutList(d.locals, PutLocal, s);
      PlainList(d.locals, PutLocal, s);
      var t2 := PutList(d.functions, PutFunction, t1);
      ListCosts(d.functions, PutFunction, FunctionItems, t1);
      PlainList(d.lines, PutLine, t2);
    }
  }

  // ---------------------------------------------------------------- callables and declarations

  /** Declared frame locals are debited although no bytes follow them. */
  function PrototypeItems(p: Prototype): nat {
    p.frameLocals + |p.params| + |p.sources| + |p.captures| + |p.modes| + OptSchemaItems(p.schema)
  }

  function CallablesItems(c: Callables): nat {
    |c.functions| + ListItems(PrototypeItems, c.prototypes) + |c.regions| + |c.bindings| + |c.exports|
  }

  lemma SlotCosts()
    ensures Costs(PutSlots, xs => |xs|) && Costs(PutModes, xs => |xs|)
  {
    Scalars();
    forall xs, s ensures PutSlots(xs, s).b == s.b.(items := s.b.items + |xs|) { PlainList(xs, PutU16, s); }
    forall xs, s ensures PutModes(xs, s).b == s.b.(items := s.b.items + |xs|) { PlainList(xs, PutMode, s); }
  }

  lemma PrototypeCosts()
    ensures Costs(PutPrototype, PrototypeItems)
  {
    TreeCosts();
    SlotCosts();
    hide PutOptSchema, PutSlots, PutModes;
  }

  lemma CallablesCosts()
    ensures Costs(PutCallables, CallablesItems)
  {
    PrototypeCosts();
    hide PutPrototype, PutList, ListItems;
    forall c, s ensures PutCallables(c, s).b == s.b.(items := s.b.items + CallablesItems(c)) {
      var t1 := PutList(c.exports, PutExport, s);
      PlainList(c.exports, PutExport, s);
      var t2 := PutList(c.bindings, PutBinding, t1);
      PlainList(c.bindings, PutBinding, t1);
      var t3 := PutList(c.regions, PutRegion, t2);
      PlainList(c.regions, PutRegion, t2);
      var t4 := PutList(c.prototypes, PutPrototype, t3);
      ListCosts(c.prototypes, PutPrototype, PrototypeItems, t3);
      PlainList(c.functions, PutScriptFunction, t4);
    }
  }

  function DeclItems(d: Decl): nat { |d.params| + SchemaItems(d.body) }

  lemma DeclCosts()
    ensures Costs(PutDecl, DeclItems)
  {
    Scalars();
    TreeCosts();
    hide PutTop;
    forall d, s ensures PutDecl(d, s).b == s.b.(items := s.b.items + DeclItems(d)) {
      PlainList(d.params, PutBlob, PutTop(d.body, s));
    }
  }

  // ---------------------------------------------------------------- imports

  /** Properties and parameters debit the shared item budget as well as their own. */
  function SchemaCost(h: ImportSchema): Budget {
    Budget(ImportParams(h) + ImportProps(h), ImportNodes(h), ImportProps(h), ImportParams(h))
  }

  lemma {:induction false} ParamsCosts(ps: seq<ImportParam>, s: Cur)
    ensures PutMany(ps, PutParam, s).b
         == Budget(Sum(ParamProps, ps), Sum(ParamNodes, ps), Sum(ParamProps, ps), 0).Plus(s.b)
  {
    if ps != [] {
      ParamsCosts(ps[1..], s);
      var t := PutMany(ps[1..], PutParam, s);
      HostLoad(ps[0].ty, PutPassing(ps[0].passing, t));
    }
  }

  lemma SchemaCosts(h: ImportSchema, s: Cur)
    ensures PutImportSchema(h, s).b == SchemaCost(h).Plus(s.b)
  {
    var t := PutU64(h.fingerprint, s);
    HostLoad(h.result, t);
    ParamsCosts(h.params, PutHost(h.result, t));
  }

  /** The schemas of the imports that have one. */
  function SchemasOf(es: seq<ImportEntry>): seq<ImportSchema> { Present(Mapped(Schema, es)) }

  function ImportsCost(hs: seq<ImportSchema>): Budget {
    Budget(Sum(ImportParams, hs) + Sum(ImportProps, hs), Sum(ImportNodes, hs), Sum(ImportProps, hs), Sum(ImportParams, hs))
  }

  lemma EntryCosts(e: ImportEntry, s: Cur)
    ensures PutEntry(e, s).b == if e.schema.Some? then SchemaCost(e.schema.value).Plus(s.b) else s.b
  {
    if e.schema.Some? {
      SchemaCosts(e.schema.value, s);
    }
  }

  lemma {:induction false} EntriesCosts(es: seq<ImportEntry>, s: Cur)
    ensures PutMany(es, PutEntry, s).b == ImportsCost(SchemasOf(es)).Plus(s.b)
  {
    hide PutEntry;
    if es != [] {
      EntriesCosts(es[1..], s);
      EntryCosts(es[0], PutMany(es[1..], PutEntry, s));
      assert Mapped(Schema, es)[1..] == Mapped(Schema, es[1..]);
      if es[0].schema.Some? {
        assert SchemasOf(es)[1..] == SchemasOf(es[1..]);
      } else {
        assert SchemasOf(es) == SchemasOf(es[1..]);
      }
    }
  }

  // ---------------------------------------------------------------- whole payload

  function MetaItems(v: Version, c: Content): nat {
    OptionItems(TypeMapItems, c.typeMap) + OptionItems(DebugItems, c.debug) + CallablesItems(c.callables)
    + if v == 13 then ListItems(DeclItems, c.decls) else 0
  }

  /** Every count read, plus frame locals, schema nodes and host properties. */
  function ContentItems(v: Version, c: Content): nat {
    ListItems(ConstItems, c.constants) + |c.entries| + MetaItems(v, c)
  }

  function HostCost(v: Version, c: Content): Budget { ImportsCost(if v == 11 then [] else SchemasOf(c.entries)) }

  lemma MetaCosts(v: Version, c: Content, s: Cur)
    ensures PutMeta(v, c, s).b == s.b.(items := s.b.items + MetaItems(v, c))
  {
    TypeMapCosts();
    DebugCosts();
    CallablesCosts();
    DeclCosts();
    hide PutTypeMap, PutDebug, PutCallables, PutDecl, PutList, PutOption, TypeMapItems, DebugItems, CallablesItems, DeclItems;
    ListCosts(c.decls, PutDecl, DeclItems, s);
    var t1 := if v == 13 then PutDeclList(c.decls, s) else s;
    var t2 := PutCallables(c.callables, t1);
    var t3 := PutOption(c.debug, PutDebug, t2);
    OptionCosts(c.debug, PutDebug, DebugItems, t2);
    OptionCosts(c.typeMap, PutTypeMap, TypeMapItems, t3);
  }

  lemma ImportsCosts(v: Version, es: seq<ImportEntry>, s: Cur)
    ensures PutImports(v, es, s).b == ImportsCost(if v == 11 then [] else SchemasOf(es)).Plus(s.b.(items := s.b.items + |es|))
  {
    if v == 11 {
      PlainList(Mapped(Item, es), PutLegacy, s);
    } else {
      EntriesCosts(es, s);
    }
  }

  lemma ContentCosts(v: Version, c: Content, s: Cur)
    ensures PutContent(v, c, s).b == HostCost(v, c).Plus(s.b.(items := s.b.items + ContentItems(v, c)))
  {
    hide PutMeta, MetaItems, ImportsCost, PutImports, ListItems, PutList;
    MetaCosts(v, c, s);
    ImportsCosts(v, c.entries, PutMeta(v, c, s));
    TreeCosts();
    ListCosts(c.constants, PutConst, ConstItems, PutBlob(c.code, PutImports(v, c.entries, PutMeta(v, c, s))));
  }
}
