/** The recursive writers: constants, guest schemas and host types, proved against the images of their values. */
module TreeWriters {
  import opened Bytes
  import opened Seqs
  import opened Wire
  import opened Writers
  import opened HostTypes
  import opened HostWire
  import opened HostInjective
  import opened SchemaOrder
  import opened Sorting
  import Constants
  import Schemas

  // ---------------------------------------------------------------- constants

  /** What `write_constant` accepts: bounded nesting, lengths that fit, no callables. */
  predicate Writable(depth: nat, v: Constants.Value)
    decreases v
  {
    && depth < MAX_CONSTANT_DEPTH
    && match v
       case Text(x) => Short(x)
       case Blob(x) => Short(x)
       case Array(vs) => Short(vs) && forall u <- vs :: Writable(depth + 1, u)
       case Map(es) => Short(es) && forall e <- es :: WritablePair(depth + 1, e)
       case Callable(_) => false
       case _ => true
  }

  predicate WritablePair(depth: nat, e: Constants.Entry)
    decreases e
  {
    Writable(depth, e.key) && Writable(depth, e.value)
  }

  method WriteLeaf(w: Writer, v: Constants.Value, ghost s: Cur) returns (r: Result<()>)
    requires !v.Array? && !v.Map?
    modifies w
    ensures r.Ok? <==> Writable(0, v)
    ensures r.Ok? ==> Grew(old(w.out), w.out, Constants.PutLeaf(v, s), s)
  {
    hide PutU8, PutU64, PutBlob;
    match v {
      case Int(i) =>
        w.PushU8(0, PutU64(ToBits(i), s));
        w.PushU64(ToBits(i), s);
      case Bool(b) =>
        w.PushU8(1, PutU8(if b then 1 else 0, s));
        w.PushU8(if b then 1 else 0, s);
      case Text(x) =>
        w.PushU8(2, PutBlob(x, s));
        var _ :- w.PushBlob(x, s);
      case Float(bits) =>
        w.PushU8(3, PutU64(bits, s));
        w.PushU64(bits, s);
      case Null => w.PushU8(4, s);
      case Blob(x) =>
        w.PushU8(5, PutBlob(x, s));
        var _ :- w.PushBlob(x, s);
      case Callable(_) => return Err(UnsupportedConstantType);
    }
    r := Ok(());
  }

  /** `write_constant`. */
  method WriteConstant(w: Writer, v: Constants.Value, depth: nat, ghost s: Cur) returns (r: Result<()>)
    modifies w
    ensures r.Ok? <==> Writable(depth, v)
    ensures r.Ok? ==> Grew(old(w.out), w.out, Constants.PutValue(v, s), s)
    decreases v, 0
  {
    hide PutU8, PutCount, Constants.PutLeaf, Constants.PutValues, Constants.PutEntries;
    if depth >= MAX_CONSTANT_DEPTH {
      return Err(LengthTooLarge(depth));
    }
    match v {
      case Array(vs) =>
        w.PushU8(6, PutCount(|vs|, Constants.PutValues(vs, s)));
        var _ :- w.PushCount(|vs|, Constants.PutValues(vs, s));
        for i := 0 to |vs|
          invariant Grew(old(w.out), w.out, Constants.PutValue(v, s), Constants.PutValues(vs[i..], s))
          invariant forall k | 0 <= k < i :: Writable(depth + 1, vs[k])
        {
          assert vs[i..][1..] == vs[i + 1..] && vs[i] in vs;
          PutsValue(vs, i, s);
          var _ :- WriteConstant(w, vs[i], depth + 1, Constants.PutValues(vs[i + 1..], s));
        }
        assert vs[|vs|..] == [];
        PutsNone(s);
      case Map(es) =>
        w.PushU8(7, PutCount(|es|, Constants.PutEntries(es, s)));
        var _ :- w.PushCount(|es|, Constants.PutEntries(es, s));
        for i := 0 to |es|
          invariant Grew(old(w.out), w.out, Constants.PutValue(v, s), Constants.PutEntries(es[i..], s))
          invariant forall k | 0 <= k < i :: WritablePair(depth + 1, es[k])
        {
          assert es[i..][1..] == es[i + 1..] && es[i] in es && es[i].key < es[i] && es[i].value < es[i];
          ghost var rest := Constants.PutEntries(es[i + 1..], s);
          PutsEntry(es, i, s);
          assert WritablePair(depth + 1, es[i]) <==> Writable(depth + 1, es[i].key) && Writable(depth + 1, es[i].value);
          var _ :- WriteConstant(w, es[i].key, depth + 1, Constants.PutValue(es[i].value, rest));
          var _ :- WriteConstant(w, es[i].value, depth + 1, rest);
        }
        assert es[|es|..] == [];
        PutsNone(s);
      case _ => r := WriteLeaf(w, v, s); return;
    }
    r := Ok(());
  }

  lemma PutsValue(vs: seq<Constants.Value>, i: nat, s: Cur)
    requires i < |vs|
    ensures Constants.PutValues(vs[i..], s) == Constants.PutValue(vs[i], Constants.PutValues(vs[i + 1..], s))
  {
    assert vs[i..][1..] == vs[i + 1..];
  }

  lemma PutsEntry(es: seq<Constants.Entry>, i: nat, s: Cur)
    requires i < |es|
    ensures Constants.PutEntries(es[i..], s) == Constants.PutValue(es[i].key, Constants.PutValue(es[i].value, Constants.PutEntries(es[i + 1..], s)))
  {
    assert es[i..][1..] == es[i + 1..];
  }

  lemma PutsNone(s: Cur)
    ensures Constants.PutValues([], s) == s && Constants.PutEntries([], s) == s
    ensures Schemas.PutSchemas([], s) == s && Schemas.PutFields([], s) == s && PutHosts([], s) == s && PutHostFields([], s) == s
  {
  }

  // ---------------------------------------------------------------- guest schemas

  /** `write_schema` has no depth limit, only lengths. */
  predicate WritableSchema(t: Schemas.TypeSchema)
    decreases t
  {
    match t
    case Basic(_) => true
    case GenericParam(x) => Short(x)
    case Resource(x) => Short(x)
    case Array(u) => WritableSchema(u)
    case Map(u) => WritableSchema(u)
    case Optional(u) => WritableSchema(u)
    case Named(x, ts) => Short(x) && Short(ts) && forall u <- ts :: WritableSchema(u)
    case Tuple(ts) => Short(ts) && forall u <- ts :: WritableSchema(u)
    case TupleRest(ts, v) => Short(ts) && WritableSchema(v) && forall u <- ts :: WritableSchema(u)
    case Callable(ts, v) => Short(ts) && WritableSchema(v) && forall u <- ts :: WritableSchema(u)
    case Object(fs) => Short(fs) && forall f <- fs :: WritableField(f)
  }

  predicate WritableField(f: Schemas.Field)
    decreases f
  {
    Short(f.name) && WritableSchema(f.ty)
  }

  /** `write_schema`: the entries of an object are sorted by name before they are written. */
  method WriteSchema(w: Writer, t: Schemas.TypeSchema, ghost s: Cur) returns (r: Result<()>)
    modifies w
    ensures r.Ok? <==> WritableSchema(t)
    ensures r.Ok? ==> Grew(old(w.out), w.out, Schemas.PutSchema(LaySchema(t), s), s)
    decreases t, 0
  {
    hide PutU8, PutBlob, Schemas.PutParts, PutCount, Schemas.PutFields, Sort, LayFields, LaySchemas;
    match t {
      case Basic(k) => w.PushU8(Schemas.ScalarTag(k), s);
      case GenericParam(x) =>
        w.PushU8(8, PutBlob(x, s));
        var _ :- w.PushBlob(x, s);
      case Resource(x) =>
        w.PushU8(17, PutBlob(x, s));
        var _ :- w.PushBlob(x, s);
      case Array(u) =>
        w.PushU8(10, Schemas.PutSchema(LaySchema(u), s));
        var _ :- WriteSchema(w, u, s);
      case Map(u) =>
        w.PushU8(13, Schemas.PutSchema(LaySchema(u), s));
        var _ :- WriteSchema(w, u, s);
      case Optional(u) =>
        w.PushU8(16, Schemas.PutSchema(LaySchema(u), s));
        var _ :- WriteSchema(w, u, s);
      case Named(x, ts) =>
        w.PushU8(9, PutBlob(x, Schemas.PutParts(LaySchemas(ts), s)));
        var _ :- w.PushBlob(x, Schemas.PutParts(LaySchemas(ts), s));
        var _ :- WriteParts(w, ts, s);
      case Tuple(ts) =>
        w.PushU8(11, Schemas.PutParts(LaySchemas(ts), s));
        var _ :- WriteParts(w, ts, s);
      case TupleRest(ts, u) =>
        w.PushU8(12, Schemas.PutParts(LaySchemas(ts), Schemas.PutSchema(LaySchema(u), s)));
        var _ :- WriteParts(w, ts, Schemas.PutSchema(LaySchema(u), s));
        var _ :- WriteSchema(w, u, s);
      case Callable(ts, u) =>
        w.PushU8(15, Schemas.PutParts(LaySchemas(ts), Schemas.PutSchema(LaySchema(u), s)));
        var _ :- WriteParts(w, ts, Schemas.PutSchema(LaySchema(u), s));
        var _ :- WriteSchema(w, u, s);
      case Object(fs) =>
        ghost var ls := Sort(Schemas.FieldName, LayFields(fs));
        w.PushU8(14, PutCount(|fs|, Schemas.PutFields(ls, s)));
        var _ :- WriteFields(w, fs, s);
    }
    r := Ok(());
  }

  method WriteParts(w: Writer, ts: seq<Schemas.TypeSchema>, ghost s: Cur) returns (r: Result<()>)
    modifies w
    ensures r.Ok? <==> Short(ts) && forall u <- ts :: WritableSchema(u)
    ensures r.Ok? ==> Grew(old(w.out), w.out, Schemas.PutParts(LaySchemas(ts), s), s)
    decreases ts, 1
  {
    hide PutCount, Schemas.PutSchema, Schemas.PutSchemas, LaySchema;
    ghost var ls := LaySchemas(ts);
    var _ :- w.PushCount(|ts|, Schemas.PutSchemas(ls, s));
    for i := 0 to |ts|
      invariant Grew(old(w.out), w.out, Schemas.PutParts(ls, s), Schemas.PutSchemas(ls[i..], s))
      invariant forall k | 0 <= k < i :: WritableSchema(ts[k])
    {
      assert ts[i] in ts;
      PutsSchema(ls, i, s);
      var _ :- WriteSchema(w, ts[i], Schemas.PutSchemas(ls[i + 1..], s));
    }
    assert ls[|ls|..] == [];
    PutsNone(s);
    r := Ok(());
  }

  method WriteFields(w: Writer, fs: seq<Schemas.Field>, ghost s: Cur) returns (r: Result<()>)
    modifies w
    ensures r.Ok? <==> Short(fs) && forall f <- fs :: WritableField(f)
    ensures r.Ok? ==> Grew(old(w.out), w.out, PutCount(|fs|, Schemas.PutFields(Sort(Schemas.FieldName, LayFields(fs)), s)), s)
    decreases fs, 1
  {
    hide PutCount, PutBlob, Schemas.PutSchema, Schemas.PutFields, Mapped, Sort, LayFields, LaySchema, WritableSchema, WritableField;
    var entries := Sort(Schemas.FieldName, fs);
    LaySorted(fs);
    ghost var ls := Mapped(LayField, entries);
    var _ :- w.PushCount(|entries|, Schemas.PutFields(ls, s));
    for i := 0 to |entries|
      invariant Grew(old(w.out), w.out, PutCount(|fs|, Schemas.PutFields(ls, s)), Schemas.PutFields(ls[i..], s))
      invariant forall k | 0 <= k < i :: WritableField(entries[k])
    {
      var f := entries[i];
      Member(entries, fs, f);
      assert f.ty < f;
      PutsField(ls, i, s);
      ghost var rest := Schemas.PutFields(ls[i + 1..], s);
      FieldWritable(f);
      var _ :- w.PushBlob(f.name, Schemas.PutSchema(LaySchema(f.ty), rest));
      var _ :- WriteSchema(w, f.ty, rest);
    }
    forall f <- fs ensures WritableField(f) { Member(fs, entries, f); }
    assert ls[|ls|..] == [];
    PutsNone(s);
    r := Ok(());
  }

  lemma FieldWritable(f: Schemas.Field)
    ensures WritableField(f) <==> Short(f.name) && WritableSchema(f.ty)
  {
    hide WritableSchema;
  }

  lemma PutsSchema(ts: seq<Schemas.TypeSchema>, i: nat, s: Cur)
    requires i < |ts|
    ensures Schemas.PutSchemas(ts[i..], s) == Schemas.PutSchema(ts[i], Schemas.PutSchemas(ts[i + 1..], s))
  {
    assert ts[i..][1..] == ts[i + 1..];
  }

  lemma PutsField(fs: seq<Schemas.Field>, i: nat, s: Cur)
    requires i < |fs|
    ensures Schemas.PutFields(fs[i..], s) == PutBlob(fs[i].name, Schemas.PutSchema(fs[i].ty, Schemas.PutFields(fs[i + 1..], s)))
  {
    assert fs[i..][1..] == fs[i + 1..];
  }

  // ---------------------------------------------------------------- host types

  /** `write_host_type_schema`: lengths and, counted from the given level, depth. */
  method WriteHost(w: Writer, t: HostType, depth: nat, ghost s: Cur) returns (r: Result<()>)
    modifies w
    ensures r.Ok? <==> Sized(t) && depth + DepthOf(t) <= MAX_HOST_DEPTH
    ensures r.Ok? ==> Grew(old(w.out), w.out, PutHost(t, s), s)
    decreases t, 0
  {
    hide PutU8, PutBlob, PutProps, PutHosts, PutHostFields;
    if depth >= MAX_HOST_DEPTH {
      return Err(LengthTooLarge(depth));
    }
    match t {
      case Plain(k) => w.PushU8(Schemas.ScalarTag(k), s);
      case ListOf(u) =>
        w.PushU8(8, PutHost(u, s));
        var _ :- WriteHost(w, u, depth + 1, s);
      case MapOf(u) =>
        w.PushU8(9, PutHost(u, s));
        var _ :- WriteHost(w, u, depth + 1, s);
      case Maybe(u) =>
        w.PushU8(10, PutHost(u, s));
        var _ :- WriteHost(w, u, depth + 1, s);
      case Function(ts, u) =>
        w.PushU8(11, PutProps(|ts|, PutHosts(ts, PutHost(u, s))));
        var _ :- WriteHosts(w, ts, depth + 1, PutHost(u, s));
        var _ :- WriteHost(w, u, depth + 1, s);
      case Handle(x) =>
        w.PushU8(12, PutBlob(x, s));
        var _ :- w.PushBlob(x, s);
      case Struct(x, fs) =>
        w.PushU8(13, PutBlob(x, PutProps(|fs|, PutHostFields(fs, s))));
        var _ :- w.PushBlob(x, PutProps(|fs|, PutHostFields(fs, s)));
        var _ :- WriteHostFields(w, fs, depth + 1, s);
    }
    r := Ok(());
  }

  lemma {:induction false} DeepestType(ts: seq<HostType>, n: nat)
    ensures DepthOfAll(ts) <= n <==> forall t <- ts :: DepthOf(t) <= n
  {
    if ts != [] {
      DeepestType(ts[1..], n);
      assert ts == [ts[0]] + ts[1..];
      assert ts[0] in ts && forall t <- ts[1..] :: t in ts;
    }
  }

  lemma {:induction false} DeepestField(fs: seq<HostField>, n: nat)
    ensures DepthOfFields(fs) <= n <==> forall f <- fs :: DepthOf(f.ty) <= n
  {
    if fs != [] {
      DeepestField(fs[1..], n);
      assert fs == [fs[0]] + fs[1..];
      assert fs[0] in fs && forall f <- fs[1..] :: f in fs;
    }
  }

  method WriteHosts(w: Writer, ts: seq<HostType>, depth: nat, ghost s: Cur) returns (r: Result<()>)
    requires depth <= MAX_HOST_DEPTH
    modifies w
    ensures r.Ok? <==> Short(ts) && (forall t <- ts :: Sized(t)) && depth + DepthOfAll(ts) <= MAX_HOST_DEPTH
    ensures r.Ok? ==> Grew(old(w.out), w.out, PutProps(|ts|, PutHosts(ts, s)), s)
    decreases ts, 1
  {
    DeepestType(ts, MAX_HOST_DEPTH - depth);
    hide PutCount, PutHost, PutHosts, DepthOf, DepthOfAll;
    var _ :- w.PushCount(|ts|, ChargeProps(|ts|, PutHosts(ts, s)));
    for i := 0 to |ts|
      invariant Grew(old(w.out), w.out, PutProps(|ts|, PutHosts(ts, s)), PutHosts(ts[i..], s))
      invariant forall k | 0 <= k < i :: Sized(ts[k]) && depth + DepthOf(ts[k]) <= MAX_HOST_DEPTH
    {
      assert ts[i] in ts;
      PutsHost(ts, i, s);
      var _ :- WriteHost(w, ts[i], depth, PutHosts(ts[i + 1..], s));
    }
    assert ts[|ts|..] == [];
    PutsNone(s);
    r := Ok(());
  }

  method WriteHostFields(w: Writer, fs: seq<HostField>, depth: nat, ghost s: Cur) returns (r: Result<()>)
    requires depth <= MAX_HOST_DEPTH
    modifies w
    ensures r.Ok? <==> Short(fs) && (forall f <- fs :: SizedField(f)) && depth + DepthOfFields(fs) <= MAX_HOST_DEPTH
    ensures r.Ok? ==> Grew(old(w.out), w.out, PutProps(|fs|, PutHostFields(fs, s)), s)
    decreases fs, 1
  {
    DeepestField(fs, MAX_HOST_DEPTH - depth);
    hide PutCount, PutBlob, PutHost, PutHostFields, DepthOf, DepthOfFields;
    var _ :- w.PushCount(|fs|, ChargeProps(|fs|, PutHostFields(fs, s)));
    for i := 0 to |fs|
      invariant Grew(old(w.out), w.out, PutProps(|fs|, PutHostFields(fs, s)), PutHostFields(fs[i..], s))
      invariant forall k | 0 <= k < i :: SizedField(fs[k]) && depth + DepthOf(fs[k].ty) <= MAX_HOST_DEPTH
    {
      assert fs[i] in fs && fs[i].ty < fs[i];
      PutsHostField(fs, i, s);
      ghost var rest := PutHostFields(fs[i + 1..], s);
      assert SizedField(fs[i]) <==> Short(fs[i].name) && Sized(fs[i].ty);
      var _ :- w.PushBlob(fs[i].name, PutHost(fs[i].ty, rest));
      var _ :- WriteHost(w, fs[i].ty, depth, rest);
    }
    assert fs[|fs|..] == [];
    PutsNone(s);
    r := Ok(());
  }

  lemma PutsHost(ts: seq<HostType>, i: nat, s: Cur)
    requires i < |ts|
    ensures PutHosts(ts[i..], s) == PutHost(ts[i], PutHosts(ts[i + 1..], s))
  {
    assert ts[i..][1..] == ts[i + 1..];
  }

  lemma PutsHostField(fs: seq<HostField>, i: nat, s: Cur)
    requires i < |fs|
    ensures PutHostFields(fs[i..], s) == PutBlob(fs[i].name, PutHost(fs[i].ty, PutHostFields(fs[i + 1..], s)))
  {
    assert fs[i..][1..] == fs[i + 1..];
  }
}
