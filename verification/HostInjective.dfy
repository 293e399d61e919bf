/** Unique decoding of host types of any depth and size. */
module HostInjective {
  import opened Bytes
  import opened Wire
  import opened Lists
  import opened Schemas
  import opened HostTypes
  import opened HostWire
  import opened ImportSections
  import opened Sections

  /** Every name and list has a length the writer can state in four bytes. */
  predicate Sized(t: HostType)
    decreases t
  {
    match t
    case Plain(_) => true
    case Handle(x) => Short(x)
    case ListOf(u) => Sized(u)
    case MapOf(u) => Sized(u)
    case Maybe(u) => Sized(u)
    case Function(ts, u) => Short(ts) && Sized(u) && forall t <- ts :: Sized(t)
    case Struct(x, fs) => Short(x) && Short(fs) && forall f <- fs :: SizedField(f)
  }

  predicate SizedField(f: HostField)
    decreases f
  {
    Short(f.name) && Sized(f.ty)
  }

  lemma SamePrefix(a: seq<u8>, x: seq<u8>, b: seq<u8>, y: seq<u8>)
    requires |a| == |b| && a + x == b + y
    ensures a == b && x == y
  {
    assert (a + x)[..|a|] == a && (b + y)[..|b|] == b;
    assert (a + x)[|a|..] == x && (b + y)[|b|..] == y;
  }

  lemma ByteInjective(v: u8, s: Cur, w: u8, t: Cur)
    requires PutU8(v, s).rest == PutU8(w, t).rest
    ensures v == w && s.rest == t.rest
  {
    SamePrefix([v], s.rest, [w], t.rest);
  }

  lemma CountInjective(n: nat, s: Cur, m: nat, t: Cur)
    requires n < 0x1_0000_0000 && m < 0x1_0000_0000 && PutCount(n, s).rest == PutCount(m, t).rest
    ensures n == m && s.rest == t.rest
  {
    Widths();
    LEInjective(n, m, 4, s.rest, t.rest);
  }

  lemma BlobInjective(x: seq<u8>, s: Cur, y: seq<u8>, t: Cur)
    requires Short(x) && Short(y) && PutBlob(x, s).rest == PutBlob(y, t).rest
    ensures x == y && s.rest == t.rest
  {
    Widths();
    assert PutBlob(x, s).rest == LE(|x|, 4) + (x + s.rest) && PutBlob(y, t).rest == LE(|y|, 4) + (y + t.rest);
    LEInjective(|x|, |y|, 4, x + s.rest, y + t.rest);
    SamePrefix(x, s.rest, y, t.rest);
  }

  lemma WordInjective(v: u64, s: Cur, w: u64, t: Cur)
    requires PutU64(v, s).rest == PutU64(w, t).rest
    ensures v == w && s.rest == t.rest
  {
    Widths();
    LEInjective(v, w, 8, s.rest, t.rest);
  }

  function TagOf(t: HostType): u8 {
    match t
    case Plain(k) => ScalarTag(k)
    case ListOf(_) => 8
    case MapOf(_) => 9
    case Maybe(_) => 10
    case Function(_, _) => 11
    case Handle(_) => 12
    case Struct(_, _) => 13
  }

  /** What follows the tag. */
  function Body(t: HostType, s: Cur): Cur {
    match t
    case Plain(_) => s
    case ListOf(u) => PutHost(u, s)
    case MapOf(u) => PutHost(u, s)
    case Maybe(u) => PutHost(u, s)
    case Function(ts, u) => PutProps(|ts|, PutHosts(ts, PutHost(u, s)))
    case Handle(x) => PutBlob(x, s)
    case Struct(x, fs) => PutBlob(x, PutProps(|fs|, PutHostFields(fs, s)))
  }

  lemma TagAndBody(t: HostType, s: Cur)
    ensures PutHost(t, s).rest == PutU8(TagOf(t), Body(t, s)).rest
  {
    hide PutBlob, PutProps;
  }

  lemma {:induction false} HostInjective(t: HostType, s: Cur, t2: HostType, s2: Cur)
    requires Sized(t) && Sized(t2) && PutHost(t, s).rest == PutHost(t2, s2).rest
    ensures t == t2 && s.rest == s2.rest
    decreases t
  {
    hide PutU8, PutBlob, PutCount;
    assert TagOf(t) == TagOf(t2) && Body(t, s).rest == Body(t2, s2).rest by {
      TagAndBody(t, s);
      TagAndBody(t2, s2);
      ByteInjective(TagOf(t), Body(t, s), TagOf(t2), Body(t2, s2));
    }
    match t {
      case Plain(_) =>
      case ListOf(u) => HostInjective(u, s, t2.item, s2);
      case MapOf(u) => HostInjective(u, s, t2.item, s2);
      case Maybe(u) => HostInjective(u, s, t2.item, s2);
      case Function(ts, u) =>
        CountInjective(|ts|, ChargeProps(|ts|, PutHosts(ts, PutHost(u, s))),
                       |t2.params|, ChargeProps(|t2.params|, PutHosts(t2.params, PutHost(t2.result, s2))));
        HostsInjective(ts, PutHost(u, s), t2.params, PutHost(t2.result, s2));
        HostInjective(u, s, t2.result, s2);
      case Handle(x) => BlobInjective(x, s, t2.key, s2);
      case Struct(x, fs) =>
        BlobInjective(x, PutProps(|fs|, PutHostFields(fs, s)), t2.name, PutProps(|t2.fields|, PutHostFields(t2.fields, s2)));
        CountInjective(|fs|, ChargeProps(|fs|, PutHostFields(fs, s)),
                       |t2.fields|, ChargeProps(|t2.fields|, PutHostFields(t2.fields, s2)));
        HostFieldsInjective(fs, s, t2.fields, s2);
    }
  }

  lemma {:induction false} HostsInjective(ts: seq<HostType>, s: Cur, ts2: seq<HostType>, s2: Cur)
    requires |ts| == |ts2| && (forall t <- ts :: Sized(t)) && (forall t <- ts2 :: Sized(t))
    requires PutHosts(ts, s).rest == PutHosts(ts2, s2).rest
    ensures ts == ts2 && s.rest == s2.rest
    decreases ts
  {
    if ts != [] {
      HostInjective(ts[0], PutHosts(ts[1..], s), ts2[0], PutHosts(ts2[1..], s2));
      HostsInjective(ts[1..], s, ts2[1..], s2);
    }
  }

  lemma {:induction false} HostFieldsInjective(fs: seq<HostField>, s: Cur, fs2: seq<HostField>, s2: Cur)
    requires |fs| == |fs2| && (forall f <- fs :: SizedField(f)) && (forall f <- fs2 :: SizedField(f))
    requires PutHostFields(fs, s).rest == PutHostFields(fs2, s2).rest
    ensures fs == fs2 && s.rest == s2.rest
    decreases fs
  {
    if fs != [] {
      hide PutBlob;
      assert fs[0].ty < fs[0];
      assert SizedField(fs[0]) && SizedField(fs2[0]);
      var t, t2 := PutHostFields(fs[1..], s), PutHostFields(fs2[1..], s2);
      BlobInjective(fs[0].name, PutHost(fs[0].ty, t), fs2[0].name, PutHost(fs2[0].ty, t2));
      HostInjective(fs[0].ty, t, fs2[0].ty, t2);
      HostFieldsInjective(fs[1..], s, fs2[1..], s2);
    }
  }

  // ---------------------------------------------------------------- imports

  predicate SizedParam(p: ImportParam) { Short(p.name) && Sized(p.ty) }

  predicate SizedSchema(h: ImportSchema) {
    Short(h.name) && Short(h.params) && (forall p <- h.params :: SizedParam(p)) && Sized(h.result)
  }

  predicate SizedEntry(e: ImportEntry) { Short(e.item.name) && (e.schema.Some? ==> SizedSchema(e.schema.value)) }

  lemma ParamInjective(p: ImportParam, s: Cur, q: ImportParam, t: Cur)
    requires SizedParam(p) && SizedParam(q) && PutParam(p, s).rest == PutParam(q, t).rest
    ensures p == q && s.rest == t.rest
  {
    hide PutBlob, PutHost, PutU8;
    BlobInjective(p.name, PutHost(p.ty, PutPassing(p.passing, s)), q.name, PutHost(q.ty, PutPassing(q.passing, t)));
    HostInjective(p.ty, PutPassing(p.passing, s), q.ty, PutPassing(q.passing, t));
    ByteInjective(PassingTag(p.passing), s, PassingTag(q.passing), t);
  }

  lemma {:induction false} ParamsInjective(ps: seq<ImportParam>, s: Cur, qs: seq<ImportParam>, t: Cur)
    requires |ps| == |qs| && (forall p <- ps :: SizedParam(p)) && (forall q <- qs :: SizedParam(q))
    requires PutMany(ps, PutParam, s).rest == PutMany(qs, PutParam, t).rest
    ensures ps == qs && s.rest == t.rest
  {
    if ps != [] {
      ParamInjective(ps[0], PutMany(ps[1..], PutParam, s), qs[0], PutMany(qs[1..], PutParam, t));
      ParamsInjective(ps[1..], s, qs[1..], t);
    }
  }

  lemma SchemaInjective(h: ImportSchema, s: Cur, k: ImportSchema, t: Cur)
    requires SizedSchema(h) && SizedSchema(k) && PutImportSchema(h, s).rest == PutImportSchema(k, t).rest
    ensures h == k && s.rest == t.rest
  {
    hide PutBlob, PutHost, PutMany, PutU64, PutCount;
    var s1, t1 := PutU64(h.fingerprint, s), PutU64(k.fingerprint, t);
    var s2, t2 := PutHost(h.result, s1), PutHost(k.result, t1);
    var s3, t3 := ChargeParams(|h.params|, PutMany(h.params, PutParam, s2)), ChargeParams(|k.params|, PutMany(k.params, PutParam, t2));
    BlobInjective(h.name, PutCount(|h.params|, s3), k.name, PutCount(|k.params|, t3));
    CountInjective(|h.params|, s3, |k.params|, t3);
    ParamsInjective(h.params, s2, k.params, t2);
    HostInjective(h.result, s1, k.result, t1);
    WordInjective(h.fingerprint, s, k.fingerprint, t);
  }

  lemma EntryInjective(e: ImportEntry, s: Cur, f: ImportEntry, t: Cur)
    requires SizedEntry(e) && SizedEntry(f) && PutEntry(e, s).rest == PutEntry(f, t).rest
    ensures e == f && s.rest == t.rest
  {
    hide PutBlob, PutImportSchema, PutU8;
    var s1, t1 := PutOption(e.schema, PutImportSchema, s), PutOption(f.schema, PutImportSchema, t);
    var s2, t2 := PutValueType(e.item.result, s1), PutValueType(f.item.result, t1);
    BlobInjective(e.item.name, PutU8(e.item.arity, s2), f.item.name, PutU8(f.item.arity, t2));
    ByteInjective(e.item.arity, s2, f.item.arity, t2);
    ByteInjective(e.item.result, s1, f.item.result, t1);
    if e.schema.Some? {
      var x := PutImportSchema(e.schema.value, s);
      if f.schema.Some? {
        ByteInjective(1, x, 1, PutImportSchema(f.schema.value, t));
        SchemaInjective(e.schema.value, s, f.schema.value, t);
      } else {
        ByteInjective(1, x, 0, t);
      }
    } else if f.schema.Some? {
      ByteInjective(0, s, 1, PutImportSchema(f.schema.value, t));
    } else {
      ByteInjective(0, s, 0, t);
    }
  }

  lemma {:induction false} EntriesInjective(es: seq<ImportEntry>, s: Cur, fs: seq<ImportEntry>, t: Cur)
    requires |es| == |fs| && (forall e <- es :: SizedEntry(e)) && (forall f <- fs :: SizedEntry(f))
    requires PutMany(es, PutEntry, s).rest == PutMany(fs, PutEntry, t).rest
    ensures es == fs && s.rest == t.rest
  {
    if es != [] {
      hide PutEntry;
      EntryInjective(es[0], PutMany(es[1..], PutEntry, s), fs[0], PutMany(fs[1..], PutEntry, t));
      EntriesInjective(es[1..], s, fs[1..], t);
    }
  }
}
