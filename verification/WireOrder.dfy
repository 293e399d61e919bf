/** Content as written: a hash map has its entries in any order, and the writer sorts them. */
module WireOrder {
  import opened Bytes
  import opened Seqs
  import opened Wire
  import opened Assoc
  import opened Programs
  import opened CallableSections
  import opened Payload
  import opened Canonical
  import opened SchemaOrder
  import opened Sorting
  import Schemas

  function LayOpt(o: Option<Schemas.TypeSchema>): Option<Schemas.TypeSchema> {
    if o.Some? then Some(LaySchema(o.value)) else None
  }

  function LayOperands(os: seq<Operand>): seq<Operand> { SortBy(Offset, Below, os) }

  function LayTypeMap(m: TypeMap): TypeMap {
    m.(schemas := Mapped(LayOpt, m.schemas), operands := LayOperands(m.operands))
  }

  function LayPrototype(p: Prototype): Prototype { p.(schema := LayOpt(p.schema)) }
  function LayCallables(c: Callables): Callables { c.(prototypes := Mapped(LayPrototype, c.prototypes)) }
  function LayDecl(d: Decl): Decl { d.(body := LaySchema(d.body)) }
  function LayDecls(ds: seq<Decl>): seq<Decl> { Sort(DeclName, Mapped(LayDecl, ds)) }

  /** The content in the order the writer puts it: objects by field name, operands by offset, declarations by name. Map
      constants are written in the order their own iteration gives. */
  function LayContent(c: Content): Content {
    c.(typeMap := if c.typeMap.Some? then Some(LayTypeMap(c.typeMap.value)) else None,
       callables := LayCallables(c.callables), decls := LayDecls(c.decls))
  }

  lemma DeclsSorted(ds: seq<Decl>)
    ensures LayDecls(ds) == Mapped(LayDecl, Sort(DeclName, ds))
  {
    hide Sort, LayDecl;
    assert Mapped(LayDecl, ds) == Mapped(LayDecl, ds);
    LayNames();
    SortEach(DeclName, LayDecl, DeclName, ds);
  }

  lemma LayNames()
    ensures forall d :: DeclName(LayDecl(d)) == DeclName(d)
  {
  }

  // ---------------------------------------------------------------- hash maps

  ghost predicate KeyedOpt(o: Option<Schemas.TypeSchema>) { o.Some? ==> Keyed(o.value) }

  /** Every hash map of the content is one: no object names a field twice, no operand offset and no declared name repeats. */
  ghost predicate KeyedContent(c: Content) {
    && (c.typeMap.Some? ==> (forall o <- c.typeMap.value.schemas :: KeyedOpt(o)) && Distinct(Offset, c.typeMap.value.operands))
    && (forall p <- c.callables.prototypes :: KeyedOpt(p.schema))
    && Distinct(DeclName, c.decls) && forall d <- c.decls :: Keyed(d.body)
  }

  lemma OptLaid(o: Option<Schemas.TypeSchema>)
    requires KeyedOpt(o)
    ensures LayOpt(o) == CanonOpt(o)
  {
    if o.Some? { LayKeyed(o.value); }
  }

  lemma TypeMapLaid(m: TypeMap)
    requires (forall o <- m.schemas :: KeyedOpt(o)) && Distinct(Offset, m.operands)
    ensures LayTypeMap(m) == CanonTypeMap(m)
  {
    hide CanonOpt, LayOpt, KeyedOpt, Distinct, Below;
    forall o <- m.schemas ensures LayOpt(o) == CanonOpt(o) { OptLaid(o); }
    assert Mapped(LayOpt, m.schemas) == Mapped(CanonOpt, m.schemas);
    OffsetOrder();
    MapIsSort(Offset, Below, m.operands);
  }

  lemma DeclsLaid(ds: seq<Decl>)
    requires Distinct(DeclName, ds) && forall d <- ds :: Keyed(d.body)
    ensures LayDecls(ds) == CanonDecls(ds)
  {
    hide Keyed, Less;
    forall d <- ds ensures LayDecl(d) == CanonDecl(d) { LayKeyed(d.body); }
    assert Mapped(LayDecl, ds) == Mapped(CanonDecl, ds);
    StringOrder();
    assert Distinct(DeclName, Mapped(LayDecl, ds));
    MapIsSort(DeclName, Less, Mapped(LayDecl, ds));
  }

  /** Of hash maps, the writer's order is the canonical one. */
  lemma ContentLaid(c: Content)
    requires KeyedContent(c)
    ensures LayContent(c) == CanonContent(c).(constants := c.constants)
  {
    hide LayTypeMap, CanonTypeMap, LayDecls, CanonDecls, KeyedOpt, Distinct, Keyed, LayOpt, CanonOpt;
    if c.typeMap.Some? { TypeMapLaid(c.typeMap.value); }
    forall p <- c.callables.prototypes ensures LayPrototype(p) == CanonPrototype(p) { OptLaid(p.schema); }
    assert Mapped(LayPrototype, c.callables.prototypes) == Mapped(CanonPrototype, c.callables.prototypes);
    DeclsLaid(c.decls);
  }

  lemma OptCanon(o: Option<Schemas.TypeSchema>)
    ensures KeyedOpt(CanonOpt(o))
  {
    if o.Some? { CanonIsKeyed(o.value); }
  }

  /** Decoded content consists of hash maps. */
  lemma CanonIsKeyedContent(c: Content)
    ensures KeyedContent(CanonContent(c))
  {
    hide Keyed, KeyedOpt, CanonOpt, Below, Less;
    var d := CanonContent(c);
    if c.typeMap.Some? {
      forall o <- c.typeMap.value.schemas ensures KeyedOpt(CanonOpt(o)) { OptCanon(o); }
      OffsetOrder();
      FromListSorted(Offset, Below, c.typeMap.value.operands);
      SortedDistinct(Offset, Below, d.typeMap.value.operands);
    }
    forall p <- c.callables.prototypes ensures KeyedOpt(CanonOpt(p.schema)) { OptCanon(p.schema); }
    forall x <- c.decls ensures Keyed(CanonDecl(x).body) { CanonIsKeyed(x.body); }
    StringOrder();
    FromListSorted(DeclName, Less, Mapped(CanonDecl, c.decls));
    SortedDistinct(DeclName, Less, d.decls);
  }
}
