/** Host type schemas on the wire, with their own two budgets. */
module HostWire {
  import opened Bytes
  import opened Wire
  import opened Schemas
  import opened ResourceKeys
  import opened HostTypes

  // ---------------------------------------------------------------- reading

  function ReadHostAtom(tag: u8, s: Cur): (r: Read<HostType>)
    ensures r.Got? ==> NamesFit(r.v) && DepthOf(r.v) == 1 && !EndsEmpty(r.v) && ChargeNode(PutU8(tag, s)) == PutHost(r.v, r.s)
  {
    if tag < 8 then Got(Plain(ScalarOf(tag)), s)
    else if tag == 12 then
      var (x, s) :- ReadBounded(MAX_NAME, s);
      if KeyOk(x) then Got(Handle(x), s) else Fail(InvalidHostResourceKey)
    else Fail(InvalidHostSchemaTag(tag))
  }

  function ReadHost(depth: nat, s: Cur): (r: Read<HostType>)
    requires depth <= MAX_HOST_DEPTH
    ensures r.Got? ==> FitsHost(depth, r.v) && Room(r.v, r.s) && s == PutHost(r.v, r.s)
    decreases MAX_HOST_DEPTH - depth, 0, 1
  {
    if depth >= MAX_HOST_DEPTH then Fail(LengthTooLarge(depth))
    else
      var (_, s) :- DebitNode(s);
      var (tag, s) :- ReadU8(s);
      if tag in {8, 9, 10} then
        var (t, s) :- ReadHost(depth + 1, s);
        Got(if tag == 8 then ListOf(t) else if tag == 9 then MapOf(t) else Maybe(t), s)
      else if tag == 11 then ReadCallable(depth + 1, s)
      else if tag == 13 then ReadStruct(depth + 1, s)
      else ReadHostAtom(tag, s)
  }

  function ReadCallable(depth: nat, s: Cur): (r: Read<HostType>)
    requires 1 <= depth <= MAX_HOST_DEPTH
    ensures r.Got? ==> FitsHost(depth - 1, r.v) && Room(r.v, r.s) && ChargeNode(PutU8(11, s)) == PutHost(r.v, r.s)
    decreases MAX_HOST_DEPTH - depth + 1, 0, 0
  {
    var (n, s) :- ReadProps(s);
    var (ts, s) :- ReadHosts(n, depth, s);
    var (t, s) :- ReadHost(depth, s);
    Got(Function(ts, t), s)
  }

  function ReadStruct(depth: nat, s: Cur): (r: Read<HostType>)
    requires 1 <= depth <= MAX_HOST_DEPTH
    ensures r.Got? ==> FitsHost(depth - 1, r.v) && Room(r.v, r.s) && ChargeNode(PutU8(13, s)) == PutHost(r.v, r.s)
    decreases MAX_HOST_DEPTH - depth + 1, 0, 0
  {
    var (x, s) :- ReadBounded(MAX_NAME, s);
    var (n, s) :- ReadProps(s);
    var (fs, s) :- ReadHostFields(n, depth, s);
    Got(Struct(x, fs), s)
  }

  /** A property count: debited as items and as properties, with one byte known to follow its elements. */
  function ReadProps(s: Cur): (r: Read<nat>)
    ensures r.Got? ==> r.v <= MAX_HOST_PROPERTIES && |r.s.rest| >= r.v + 1 && s == PutProps(r.v, r.s)
  {
    var (n, s) :- ReadCount(1, 1, s);
    if n > MAX_HOST_PROPERTIES then Fail(LengthTooLarge(n))
    else
      var (_, s) :- DebitProps(n, s);
      Got(n, s)
  }

  function ReadHosts(n: nat, depth: nat, s: Cur): (r: Read<seq<HostType>>)
    requires depth <= MAX_HOST_DEPTH
    ensures r.Got? ==> |r.v| == n && FitsHosts(depth, r.v) && s == PutHosts(r.v, r.s)
    decreases MAX_HOST_DEPTH - depth, n, 2
  {
    if n == 0 then Got([], s)
    else
      var (t, s) :- ReadHost(depth, s);
      var (ts, s) :- ReadHosts(n - 1, depth, s);
      Got([t] + ts, s)
  }

  function ReadHostFields(n: nat, depth: nat, s: Cur): (r: Read<seq<HostField>>)
    requires depth <= MAX_HOST_DEPTH
    ensures r.Got? ==> |r.v| == n && FitsHostFields(depth, r.v) && (n > 0 ==> Room(r.v[n - 1].ty, r.s)) && s == PutHostFields(r.v, r.s)
    decreases MAX_HOST_DEPTH - depth, n, 2
  {
    if n == 0 then Got([], s)
    else
      var (x, s) :- ReadBounded(MAX_NAME, s);
      var (t, s) :- ReadHost(depth, s);
      var (fs, s) :- ReadHostFields(n - 1, depth, s);
      Got([HostField(x, t)] + fs, s)
  }

  // ---------------------------------------------------------------- limits

  /** Names and counts within what the reader accepts. */
  predicate NamesFit(t: HostType)
    decreases t
  {
    match t
    case Plain(_) => true
    case Handle(x) => FitsBounded(x, MAX_NAME) && KeyOk(x)
    case ListOf(u) => NamesFit(u)
    case MapOf(u) => NamesFit(u)
    case Maybe(u) => NamesFit(u)
    case Function(ts, u) => |ts| <= MAX_HOST_PROPERTIES && NamesFit(u) && forall t <- ts :: NamesFit(t)
    case Struct(x, fs) => FitsBounded(x, MAX_NAME) && |fs| <= MAX_HOST_PROPERTIES && forall f <- fs :: FieldFits(f)
  }

  predicate FieldFits(f: HostField)
    decreases f
  {
    FitsBounded(f.name, MAX_NAME) && NamesFit(f.ty)
  }

  predicate FitsHost(depth: nat, t: HostType) {
    NamesFit(t) && depth + DepthOf(t) <= MAX_HOST_DEPTH
  }

  predicate FitsHosts(depth: nat, ts: seq<HostType>) {
    (forall t <- ts :: NamesFit(t)) && depth + DepthOfAll(ts) <= MAX_HOST_DEPTH
  }

  predicate FitsHostFields(depth: nat, fs: seq<HostField>) {
    (forall f <- fs :: FieldFits(f)) && depth + DepthOfFields(fs) <= MAX_HOST_DEPTH
  }

  /** Whether the encoding ends with a struct without fields, whose count guard wants one more byte. */
  predicate EndsEmpty(t: HostType)
    decreases t
  {
    match t
    case ListOf(u) => EndsEmpty(u)
    case MapOf(u) => EndsEmpty(u)
    case Maybe(u) => EndsEmpty(u)
    case Function(_, u) => EndsEmpty(u)
    case Struct(_, fs) =>
      if fs == [] then true
      else
        assert fs[|fs| - 1].ty < fs[|fs| - 1];
        EndsEmpty(fs[|fs| - 1].ty)
    case _ => false
  }

  predicate Room(t: HostType, s: Cur) {
    s.rest != [] || !EndsEmpty(t)
  }

  // ---------------------------------------------------------------- writing

  function PutProps(n: nat, s: Cur): Cur {
    PutCount(n, ChargeProps(n, s))
  }

  function PutHost(t: HostType, s: Cur): Cur
    decreases t
  {
    match t
    case Plain(k) => ChargeNode(PutU8(ScalarTag(k), s))
    case ListOf(u) => ChargeNode(PutU8(8, PutHost(u, s)))
    case MapOf(u) => ChargeNode(PutU8(9, PutHost(u, s)))
    case Maybe(u) => ChargeNode(PutU8(10, PutHost(u, s)))
    case Function(ts, u) => ChargeNode(PutU8(11, PutProps(|ts|, PutHosts(ts, PutHost(u, s)))))
    case Handle(x) => ChargeNode(PutU8(12, PutBlob(x, s)))
    case Struct(x, fs) => ChargeNode(PutU8(13, PutBlob(x, PutProps(|fs|, PutHostFields(fs, s)))))
  }

  function PutHosts(ts: seq<HostType>, s: Cur): Cur
    decreases ts
  {
    if ts == [] then s else PutHost(ts[0], PutHosts(ts[1..], s))
  }

  function PutHostFields(fs: seq<HostField>, s: Cur): Cur
    decreases fs
  {
    if fs == [] then s
    else
      assert fs[0].ty < fs[0];
      PutBlob(fs[0].name, PutHost(fs[0].ty, PutHostFields(fs[1..], s)))
  }

  /** The reader debits a schema exactly its nodes and properties. */
  lemma {:induction false} HostLoad(t: HostType, s: Cur)
    ensures |PutHost(t, s).rest| > |s.rest|
    ensures PutHost(t, s).b == Budget(PropsOf(t), NodesOf(t), PropsOf(t), 0).Plus(s.b)
    decreases t
  {
    match t {
      case ListOf(u) => HostLoad(u, s);
      case MapOf(u) => HostLoad(u, s);
      case Maybe(u) => HostLoad(u, s);
      case Function(ts, u) =>
        HostLoad(u, s);
        HostsLoad(ts, PutHost(u, s));
      case Struct(_, fs) => HostFieldsLoad(fs, s);
      case _ =>
    }
  }

  lemma {:induction false} HostsLoad(ts: seq<HostType>, s: Cur)
    ensures |PutHosts(ts, s).rest| >= |ts| + |s.rest|
    ensures PutHosts(ts, s).b == Budget(PropsOfAll(ts), NodesOfAll(ts), PropsOfAll(ts), 0).Plus(s.b)
    decreases ts
  {
    if ts != [] {
      HostLoad(ts[0], PutHosts(ts[1..], s));
      HostsLoad(ts[1..], s);
    }
  }

  lemma {:induction false} HostFieldsLoad(fs: seq<HostField>, s: Cur)
    ensures |PutHostFields(fs, s).rest| >= 5 * |fs| + |s.rest|
    ensures PutHostFields(fs, s).b == Budget(PropsOfFields(fs), NodesOfFields(fs), PropsOfFields(fs), 0).Plus(s.b)
    decreases fs
  {
    if fs != [] {
      assert fs[0].ty < fs[0];
      HostLoad(fs[0].ty, PutHostFields(fs[1..], s));
      HostFieldsLoad(fs[1..], s);
    }
  }

  // ---------------------------------------------------------------- round trip

  lemma ReadPutNode(tag: u8, s: Cur)
    ensures DebitNode(ChargeNode(PutU8(tag, s))) == Got((), PutU8(tag, s)) && ReadU8(PutU8(tag, s)) == Got(tag, s)
  {
    ReadPutU8(tag, s);
  }

  lemma ReadPutProps(n: nat, s: Cur)
    requires n <= MAX_HOST_PROPERTIES && n + 1 <= |s.rest|
    ensures ReadProps(PutProps(n, s)) == Got(n, s)
  {
    ReadPutCount(n, 1, 1, ChargeProps(n, s));
  }

  /** Reading a host schema inverts writing it whenever its trailing count guard has a byte to look at. */
  lemma {:induction false} ReadPutHost(depth: nat, t: HostType, s: Cur)
    requires FitsHost(depth, t) && Room(t, s)
    ensures ReadHost(depth, PutHost(t, s)) == Got(t, s)
    decreases t, 1
  {
    hide PutU8, ReadU8, ChargeNode, DebitNode, PutBlob, ReadBounded, ReadProps, PutProps;
    match t {
      case Plain(k) => ReadPutNode(ScalarTag(k), s);
      case ListOf(u) =>
        ReadPutNode(8, PutHost(u, s));
        ReadPutHost(depth + 1, u, s);
      case MapOf(u) =>
        ReadPutNode(9, PutHost(u, s));
        ReadPutHost(depth + 1, u, s);
      case Maybe(u) =>
        ReadPutNode(10, PutHost(u, s));
        ReadPutHost(depth + 1, u, s);
      case Function(ts, u) =>
        ReadPutNode(11, PutProps(|ts|, PutHosts(ts, PutHost(u, s))));
        ReadPutFunction(depth + 1, ts, u, s);
      case Handle(x) =>
        ReadPutNode(12, PutBlob(x, s));
        ReadPutBounded(x, MAX_NAME, s);
      case Struct(x, fs) =>
        ReadPutNode(13, PutBlob(x, PutProps(|fs|, PutHostFields(fs, s))));
        ReadPutStruct(depth + 1, x, fs, s);
    }
  }

  lemma ReadPutFunction(depth: nat, ts: seq<HostType>, u: HostType, s: Cur)
    requires 1 <= depth && FitsHost(depth - 1, Function(ts, u)) && Room(u, s)
    ensures ReadCallable(depth, PutProps(|ts|, PutHosts(ts, PutHost(u, s)))) == Got(Function(ts, u), s)
    decreases Function(ts, u), 0
  {
    hide ReadProps, PutProps;
    var p := PutHost(u, s);
    HostLoad(u, s);
    HostsLoad(ts, p);
    ReadPutProps(|ts|, PutHosts(ts, p));
    ReadPutHosts(depth, ts, p);
    ReadPutHost(depth, u, s);
  }

  lemma ReadPutStruct(depth: nat, x: Str, fs: seq<HostField>, s: Cur)
    requires 1 <= depth && FitsHost(depth - 1, Struct(x, fs)) && Room(Struct(x, fs), s)
    ensures ReadStruct(depth, PutBlob(x, PutProps(|fs|, PutHostFields(fs, s)))) == Got(Struct(x, fs), s)
    decreases Struct(x, fs), 0
  {
    hide ReadProps, PutProps, PutBlob, ReadBounded;
    var p := PutHostFields(fs, s);
    HostFieldsLoad(fs, s);
    ReadPutBounded(x, MAX_NAME, PutProps(|fs|, p));
    ReadPutProps(|fs|, p);
    ReadPutHostFields(depth, fs, s);
  }

  lemma {:induction false} ReadPutHosts(depth: nat, ts: seq<HostType>, s: Cur)
    requires depth <= MAX_HOST_DEPTH && FitsHosts(depth, ts) && s.rest != []
    ensures ReadHosts(|ts|, depth, PutHosts(ts, s)) == Got(ts, s)
    decreases ts
  {
    if ts != [] {
      HostsLoad(ts[1..], s);
      ReadPutHost(depth, ts[0], PutHosts(ts[1..], s));
      ReadPutHosts(depth, ts[1..], s);
      assert [ts[0]] + ts[1..] == ts;
    }
  }

  lemma {:induction false} ReadPutHostFields(depth: nat, fs: seq<HostField>, s: Cur)
    requires depth <= MAX_HOST_DEPTH && FitsHostFields(depth, fs) && (fs != [] ==> Room(fs[|fs| - 1].ty, s))
    ensures ReadHostFields(|fs|, depth, PutHostFields(fs, s)) == Got(fs, s)
    decreases fs
  {
    hide PutBlob, ReadBounded;
    if fs != [] {
      assert fs[0].ty < fs[0] && FieldFits(fs[0]);
      HostFieldsLoad(fs[1..], s);
      ReadPutBounded(fs[0].name, MAX_NAME, PutHost(fs[0].ty, PutHostFields(fs[1..], s)));
      ReadPutHost(depth, fs[0].ty, PutHostFields(fs[1..], s));
      ReadPutHostFields(depth, fs[1..], s);
      assert [HostField(fs[0].name, fs[0].ty)] + fs[1..] == fs;
    }
  }

  /** Writing a host schema only prepends. */
  lemma {:induction false} HostFrame(t: HostType, a: Cur, s: Cur)
    ensures PutHost(t, Join(a, s)) == Join(PutHost(t, a), s)
    decreases t
  {
    hide PutU8, PutBlob, PutCount, ChargeNode, ChargeProps;
    Frames();
    match t {
      case ListOf(u) => HostFrame(u, a, s);
      case MapOf(u) => HostFrame(u, a, s);
      case Maybe(u) => HostFrame(u, a, s);
      case Function(ts, u) =>
        HostFrame(u, a, s);
        HostsFrame(ts, PutHost(u, a), s);
      case Struct(_, fs) => HostFieldsFrame(fs, a, s);
      case _ =>
    }
  }

  lemma {:induction false} HostsFrame(ts: seq<HostType>, a: Cur, s: Cur)
    ensures PutHosts(ts, Join(a, s)) == Join(PutHosts(ts, a), s)
    decreases ts
  {
    if ts != [] {
      HostsFrame(ts[1..], a, s);
      HostFrame(ts[0], PutHosts(ts[1..], a), s);
    }
  }

  lemma {:induction false} HostFieldsFrame(fs: seq<HostField>, a: Cur, s: Cur)
    ensures PutHostFields(fs, Join(a, s)) == Join(PutHostFields(fs, a), s)
    decreases fs
  {
    hide PutBlob;
    if fs != [] {
      assert fs[0].ty < fs[0];
      Frames();
      HostFieldsFrame(fs[1..], a, s);
      HostFrame(fs[0].ty, PutHostFields(fs[1..], a), s);
    }
  }
}
