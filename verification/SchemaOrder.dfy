/** Schemas as written: object fields are a hash map's entries in any order, and are sorted by name. */
module SchemaOrder {
  import opened Bytes
  import opened Seqs
  import opened Assoc
  import opened Schemas
  import opened Sorting

  /** The schema with the fields of every object in the order `write_schema` sorts them into. */
  function LaySchema(t: TypeSchema): TypeSchema
    decreases t
  {
    match t
    case Named(x, ts) => Named(x, LaySchemas(ts))
    case Array(u) => Array(LaySchema(u))
    case Map(u) => Map(LaySchema(u))
    case Optional(u) => Optional(LaySchema(u))
    case Tuple(ts) => Tuple(LaySchemas(ts))
    case TupleRest(ts, u) => TupleRest(LaySchemas(ts), LaySchema(u))
    case Callable(ts, u) => Callable(LaySchemas(ts), LaySchema(u))
    case Object(fs) => Object(Sort(FieldName, LayFields(fs)))
    case _ => t
  }

  function LaySchemas(ts: seq<TypeSchema>): (r: seq<TypeSchema>)
    ensures |r| == |ts| && forall i | 0 <= i < |ts| :: r[i] == LaySchema(ts[i])
    decreases ts
  {
    if ts == [] then [] else [LaySchema(ts[0])] + LaySchemas(ts[1..])
  }

  function LayField(f: Field): Field
    decreases f
  {
    Field(f.name, LaySchema(f.ty))
  }

  function LayFields(fs: seq<Field>): (r: seq<Field>)
    ensures |r| == |fs| && forall i | 0 <= i < |fs| :: r[i] == LayField(fs[i])
    decreases fs
  {
    if fs == [] then [] else [LayField(fs[0])] + LayFields(fs[1..])
  }

  lemma LayFieldsEach(fs: seq<Field>)
    ensures LayFields(fs) == Mapped(LayField, fs)
  {
  }

  /** Sorting the entries first and laying out their schemas then comes to the same. */
  lemma LaySorted(fs: seq<Field>)
    ensures Sort(FieldName, LayFields(fs)) == Mapped(LayField, Sort(FieldName, fs))
  {
    hide LayFields, Sort;
    LayFieldsEach(fs);
    SortEach(FieldName, LayField, FieldName, fs);
  }

  // ---------------------------------------------------------------- hash maps

  /** Field lists are entries of hash maps: no object has a name twice. */
  ghost predicate Keyed(t: TypeSchema)
    decreases t
  {
    match t
    case Named(_, ts) => forall u <- ts :: Keyed(u)
    case Array(u) => Keyed(u)
    case Map(u) => Keyed(u)
    case Optional(u) => Keyed(u)
    case Tuple(ts) => forall u <- ts :: Keyed(u)
    case TupleRest(ts, v) => Keyed(v) && forall u <- ts :: Keyed(u)
    case Callable(ts, v) => Keyed(v) && forall u <- ts :: Keyed(u)
    case Object(fs) => Distinct(FieldName, fs) && forall f <- fs :: KeyedField(f)
    case _ => true
  }

  ghost predicate KeyedField(f: Field)
    decreases f
  {
    Keyed(f.ty)
  }

  lemma SortIsMap(fs: seq<Field>)
    requires Distinct(FieldName, fs)
    ensures Sort(FieldName, fs) == FromList(FieldName, Less, fs)
  {
    hide Distinct, Less;
    StringOrder();
    MapIsSort(FieldName, Less, fs);
  }

  /** Of a hash map, the writer's order is the map's canonical one. */
  lemma {:induction false} LayKeyed(t: TypeSchema)
    requires Keyed(t)
    ensures LaySchema(t) == CanonSchema(t)
    decreases t
  {
    match t {
      case Named(_, ts) => forall u <- ts ensures LaySchema(u) == CanonSchema(u) { LayKeyed(u); }
      case Array(u) => LayKeyed(u);
      case Map(u) => LayKeyed(u);
      case Optional(u) => LayKeyed(u);
      case Tuple(ts) => forall u <- ts ensures LaySchema(u) == CanonSchema(u) { LayKeyed(u); }
      case TupleRest(ts, v) =>
        LayKeyed(v);
        forall u <- ts ensures LaySchema(u) == CanonSchema(u) { LayKeyed(u); }
      case Callable(ts, v) =>
        LayKeyed(v);
        forall u <- ts ensures LaySchema(u) == CanonSchema(u) { LayKeyed(u); }
      case Object(fs) =>
        forall f <- fs ensures LayField(f) == CanonField(f) {
          assert KeyedField(f) && f.ty < f;
          LayKeyed(f.ty);
        }
        assert LayFields(fs) == CanonFields(fs);
        SortIsMap(LayFields(fs));
      case _ =>
    }
  }

  lemma {:induction false} CanonIsKeyed(t: TypeSchema)
    ensures Keyed(CanonSchema(t))
    decreases t
  {
    match t {
      case Named(_, ts) => forall u <- ts ensures Keyed(CanonSchema(u)) { CanonIsKeyed(u); }
      case Array(u) => CanonIsKeyed(u);
      case Map(u) => CanonIsKeyed(u);
      case Optional(u) => CanonIsKeyed(u);
      case Tuple(ts) => forall u <- ts ensures Keyed(CanonSchema(u)) { CanonIsKeyed(u); }
      case TupleRest(ts, v) =>
        CanonIsKeyed(v);
        forall u <- ts ensures Keyed(CanonSchema(u)) { CanonIsKeyed(u); }
      case Callable(ts, v) =>
        CanonIsKeyed(v);
        forall u <- ts ensures Keyed(CanonSchema(u)) { CanonIsKeyed(u); }
      case Object(fs) =>
        forall f <- fs ensures KeyedField(CanonField(f)) {
          assert f.ty < f;
          CanonIsKeyed(f.ty);
        }
        MapIsKeyed(CanonFields(fs));
      case _ =>
    }
  }

  lemma MapIsKeyed(fs: seq<Field>)
    requires forall f <- fs :: KeyedField(f)
    ensures Keyed(Object(FromList(FieldName, Less, fs)))
  {
    hide FromList, Less, KeyedField;
    StringOrder();
    FromListSorted(FieldName, Less, fs);
    SortedDistinct(FieldName, Less, FromList(FieldName, Less, fs));
  }
}
