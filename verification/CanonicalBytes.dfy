/** Canonical type bytes. */
module CanonicalBytes {
  import opened Bytes
  import opened Schemas
  import opened HostTypes
  import opened HostInjective
  import opened Sorting

  // ---------------------------------------------------------------- canonical types

  function FieldName(f: HostField): Str { f.name }

  /** Fields of every named struct sorted by name. */
  function Canon(t: HostType): HostType
    decreases t
  {
    match t
    case ListOf(u) => ListOf(Canon(u))
    case MapOf(u) => MapOf(Canon(u))
    case Maybe(u) => Maybe(Canon(u))
    case Function(ts, u) => Function(CanonAll(ts), Canon(u))
    case Struct(x, fs) => Struct(x, Sort(FieldName, CanonFields(fs)))
    case _ => t
  }

  function CanonAll(ts: seq<HostType>): (r: seq<HostType>)
    ensures |r| == |ts|
    decreases ts
  {
    if ts == [] then [] else [Canon(ts[0])] + CanonAll(ts[1..])
  }

  function CanonFields(fs: seq<HostField>): (r: seq<HostField>)
    ensures |r| == |fs|
    decreases fs
  {
    if fs == [] then [] else [CanonField(fs[0])] + CanonFields(fs[1..])
  }

  function CanonField(f: HostField): (r: HostField)
    ensures r.name == f.name
    decreases f
  {
    HostField(f.name, Canon(f.ty))
  }

  // ---------------------------------------------------------------- bytes

  /** Lengths are eight bytes. */
  function PushLen(n: nat): seq<u8> { LE(n, 8) }
  function PushStr(x: Str): seq<u8> { PushLen(|x|) + x }

  function ScalarByte(k: Scalar): u8 {
    match ScalarTag(k)
    case 0 => 0x55 // U
    case 1 => 0x4E // N
    case 2 => 0x49 // I
    case 3 => 0x46 // F
    case 4 => 0x23 // #
    case 5 => 0x42 // B
    case 6 => 0x53 // S
    case _ => 0x59 // Y
  }

  /** The bytes of a type with its fields as they stand, before `rest`. */
  function Raw(t: HostType, rest: seq<u8>): seq<u8>
    decreases t
  {
    match t
    case Plain(k) => [ScalarByte(k)] + rest
    case ListOf(u) => [0x5B] + Raw(u, rest)
    case MapOf(u) => [0x7B] + Raw(u, rest)
    case Maybe(u) => [0x3F] + Raw(u, rest)
    case Function(ts, u) => [0x63] + (PushLen(|ts|) + RawAll(ts, Raw(u, rest)))
    case Handle(x) => [0x72] + (PushStr(x) + rest)
    case Struct(x, fs) => [0x6E] + (PushStr(x) + (PushLen(|fs|) + RawFields(fs, rest)))
  }

  function RawAll(ts: seq<HostType>, rest: seq<u8>): seq<u8>
    decreases ts
  {
    if ts == [] then rest else Raw(ts[0], RawAll(ts[1..], rest))
  }

  function RawFields(fs: seq<HostField>, rest: seq<u8>): seq<u8>
    decreases fs
  {
    if fs == [] then rest
    else
      assert fs[0].ty < fs[0];
      PushStr(fs[0].name) + Raw(fs[0].ty, RawFields(fs[1..], rest))
  }

  /** What `try_push_type` appends. */
  function TypeBytes(t: HostType): seq<u8> { Raw(Canon(t), []) }

  predicate Short64<T>(x: seq<T>) { |x| < 0x1_0000_0000_0000_0000 }

  /** Every name and list has a machine-word length. */
  predicate Worded(t: HostType)
    decreases t
  {
    match t
    case Plain(_) => true
    case Handle(x) => Short64(x)
    case ListOf(u) => Worded(u)
    case MapOf(u) => Worded(u)
    case Maybe(u) => Worded(u)
    case Function(ts, u) => Short64(ts) && Worded(u) && forall t <- ts :: Worded(t)
    case Struct(x, fs) => Short64(x) && Short64(fs) && forall f <- fs :: WordedField(f)
  }

  predicate WordedField(f: HostField)
    decreases f
  {
    Short64(f.name) && Worded(f.ty)
  }

  lemma LenInjective(n: nat, x: seq<u8>, m: nat, y: seq<u8>)
    requires n < 0x1_0000_0000_0000_0000 && m < 0x1_0000_0000_0000_0000 && PushLen(n) + x == PushLen(m) + y
    ensures n == m && x == y
  {
    Widths();
    LEInjective(n, m, 8, x, y);
  }

  lemma StrInjective(a: Str, x: seq<u8>, b: Str, y: seq<u8>)
    requires Short64(a) && Short64(b) && PushStr(a) + x == PushStr(b) + y
    ensures a == b && x == y
  {
    hide PushLen;
    assert PushStr(a) + x == PushLen(|a|) + (a + x) && PushStr(b) + y == PushLen(|b|) + (b + y);
    LenInjective(|a|, a + x, |b|, b + y);
    SamePrefix(a, x, b, y);
  }

  function TagByte(t: HostType): u8 {
    match t
    case Plain(k) => ScalarByte(k)
    case ListOf(_) => 0x5B
    case MapOf(_) => 0x7B
    case Maybe(_) => 0x3F
    case Function(_, _) => 0x63
    case Handle(_) => 0x72
    case Struct(_, _) => 0x6E
  }

  function AfterTag(t: HostType, rest: seq<u8>): seq<u8> {
    match t
    case Plain(_) => rest
    case ListOf(u) => Raw(u, rest)
    case MapOf(u) => Raw(u, rest)
    case Maybe(u) => Raw(u, rest)
    case Function(ts, u) => PushLen(|ts|) + RawAll(ts, Raw(u, rest))
    case Handle(x) => PushStr(x) + rest
    case Struct(x, fs) => PushStr(x) + (PushLen(|fs|) + RawFields(fs, rest))
  }

  lemma RawTag(t: HostType, rest: seq<u8>)
    ensures Raw(t, rest) == [TagByte(t)] + AfterTag(t, rest)
  {
    hide PushLen, PushStr;
  }

  lemma TagSplits(t: HostType, x: seq<u8>, u: HostType, y: seq<u8>)
    requires Raw(t, x) == Raw(u, y)
    ensures TagByte(t) == TagByte(u) && AfterTag(t, x) == AfterTag(u, y)
  {
    hide Raw;
    RawTag(t, x);
    RawTag(u, y);
    SamePrefix([TagByte(t)], AfterTag(t, x), [TagByte(u)], AfterTag(u, y));
  }

  /** No encoding is the beginning of another. */
  lemma {:induction false} RawInjective(t: HostType, x: seq<u8>, u: HostType, y: seq<u8>)
    requires Worded(t) && Worded(u) && Raw(t, x) == Raw(u, y)
    ensures t == u && x == y
    decreases t
  {
    hide Raw, RawAll, RawFields, PushLen, PushStr;
    TagSplits(t, x, u, y);
    match t {
      case Plain(_) =>
      case ListOf(v) => RawInjective(v, x, u.item, y);
      case MapOf(v) => RawInjective(v, x, u.item, y);
      case Maybe(v) => RawInjective(v, x, u.item, y);
      case Function(ts, v) =>
        LenInjective(|ts|, RawAll(ts, Raw(v, x)), |u.params|, RawAll(u.params, Raw(u.result, y)));
        RawAllInjective(ts, Raw(v, x), u.params, Raw(u.result, y));
        RawInjective(v, x, u.result, y);
      case Handle(k) => StrInjective(k, x, u.key, y);
      case Struct(n, fs) =>
        StrInjective(n, PushLen(|fs|) + RawFields(fs, x), u.name, PushLen(|u.fields|) + RawFields(u.fields, y));
        LenInjective(|fs|, RawFields(fs, x), |u.fields|, RawFields(u.fields, y));
        RawFieldsInjective(fs, x, u.fields, y);
    }
  }

  lemma {:induction false} RawAllInjective(ts: seq<HostType>, x: seq<u8>, us: seq<HostType>, y: seq<u8>)
    requires |ts| == |us| && (forall t <- ts :: Worded(t)) && (forall u <- us :: Worded(u)) && RawAll(ts, x) == RawAll(us, y)
    ensures ts == us && x == y
    decreases ts
  {
    if ts != [] {
      RawInjective(ts[0], RawAll(ts[1..], x), us[0], RawAll(us[1..], y));
      RawAllInjective(ts[1..], x, us[1..], y);
    }
  }

  lemma {:induction false} RawFieldsInjective(fs: seq<HostField>, x: seq<u8>, gs: seq<HostField>, y: seq<u8>)
    requires |fs| == |gs| && (forall f <- fs :: WordedField(f)) && (forall g <- gs :: WordedField(g)) && RawFields(fs, x) == RawFields(gs, y)
    ensures fs == gs && x == y
    decreases fs
  {
    if fs != [] {
      hide PushStr;
      assert fs[0].ty < fs[0] && WordedField(fs[0]) && WordedField(gs[0]);
      StrInjective(fs[0].name, Raw(fs[0].ty, RawFields(fs[1..], x)), gs[0].name, Raw(gs[0].ty, RawFields(gs[1..], y)));
      RawInjective(fs[0].ty, RawFields(fs[1..], x), gs[0].ty, RawFields(gs[1..], y));
      RawFieldsInjective(fs[1..], x, gs[1..], y);
    }
  }

  lemma {:induction false} CanonWorded(t: HostType)
    requires Worded(t)
    ensures Worded(Canon(t))
    decreases t
  {
    match t {
      case ListOf(u) => CanonWorded(u);
      case MapOf(u) => CanonWorded(u);
      case Maybe(u) => CanonWorded(u);
      case Function(ts, u) =>
        CanonWorded(u);
        CanonAllWorded(ts);
      case Struct(_, fs) =>
        CanonFieldsWorded(fs);
        var cs := CanonFields(fs);
        forall f <- Sort(FieldName, cs) ensures WordedField(f) { Member(Sort(FieldName, cs), cs, f); }
      case _ =>
    }
  }

  lemma {:induction false} CanonAllWorded(ts: seq<HostType>)
    requires forall t <- ts :: Worded(t)
    ensures forall t <- CanonAll(ts) :: Worded(t)
    decreases ts
  {
    if ts != [] {
      CanonWorded(ts[0]);
      CanonAllWorded(ts[1..]);
    }
  }

  lemma {:induction false} CanonFieldsWorded(fs: seq<HostField>)
    requires forall f <- fs :: WordedField(f)
    ensures forall f <- CanonFields(fs) :: WordedField(f)
    decreases fs
  {
    if fs != [] {
      assert fs[0].ty < fs[0] && WordedField(fs[0]);
      CanonWorded(fs[0].ty);
      CanonFieldsWorded(fs[1..]);
    }
  }

  /** Two types have the same bytes exactly when they differ at most in the order of fields inside named structs. */
  lemma TypeBytesExact(t: HostType, x: seq<u8>, u: HostType, y: seq<u8>)
    requires Worded(t) && Worded(u)
    ensures Raw(Canon(t), x) == Raw(Canon(u), y) <==> Canon(t) == Canon(u) && x == y
  {
    CanonWorded(t);
    CanonWorded(u);
    if Raw(Canon(t), x) == Raw(Canon(u), y) {
      RawInjective(Canon(t), x, Canon(u), y);
    }
  }
}
