/** The cursor of the VMBC reader as a value, with an inverse for each read. */
module Wire {
  // `Read*` functions consume a cursor; `Put*` functions are their inverses: `Put(v, s)` is the cursor from which reading
  // `v` leaves exactly `s`, so it carries both the bytes the writer emits and the budget the reader debits.

  import opened Bytes

  const MAX_PAYLOAD: nat := 64 * 1024 * 1024
  const MAX_BLOB: nat := 16 * 1024 * 1024
  const MAX_COUNT: nat := 1_000_000
  const MAX_ITEMS: nat := 1_000_000
  const MAX_SCHEMA_DEPTH: nat := 64
  const MAX_CONSTANT_DEPTH: nat := 64
  const MAX_FRAME_LOCALS: nat := 64 * 1024
  const MAX_HOST_DEPTH: nat := 64
  const MAX_HOST_NODES: nat := 16_384
  const MAX_HOST_PROPERTIES: nat := 4_096
  const MAX_HOST_PARAMETERS: nat := 4_096

  datatype WireError =
    | UnexpectedEof
    | InvalidMagic(magic: seq<u8>)
    | UnsupportedVersion(version: u16)
    | UnsupportedFlags(flags: u16)
    | InvalidConstantTag(tag: u8)
    | InvalidBool(flag: u8)
    | InvalidTypeMapFlag(flag: u8)
    | InvalidDebugFlag(flag: u8)
    | InvalidValueType(tag: u8)
    | InvalidCaptureBindingMode(mode: u8)
    | InvalidHostSchemaTag(tag: u8)
    | InvalidHostParamPassing(mode: u8)
    | InvalidHostResourceKey
    | InvalidResourceKey
    | HostSchemaImportMismatch
    | InvalidHostSchemaComplexity
    | InvalidUtf8
    | UnsupportedConstantType
    | LengthTooLarge(len: nat)
    | SchemaTooDeep
    | TruncatedOperand(opcode: u8, expected: nat)
    | InvalidCallScriptTarget(id: u32)
    | InvalidCallScriptArity(id: u32, arity: u8, got: u8)
    | TrailingBytes

  datatype Result<+T> = Ok(value: T) | Err(error: WireError) {
    predicate IsFailure() { Err? }
    function PropagateFailure<U>(): Result<U>
      requires Err?
    {
      Err(error)
    }
    function Extract(): T
      requires Ok?
    {
      value
    }
  }

  datatype Option<+T> = None | Some(value: T)

  /** What is left of the four budgets the reader debits. */
  datatype Budget = Budget(items: nat, nodes: nat, props: nat, params: nat) {
    function Plus(o: Budget): Budget {
      Budget(items + o.items, nodes + o.nodes, props + o.props, params + o.params)
    }
    predicate Within(o: Budget) {
      items <= o.items && nodes <= o.nodes && props <= o.props && params <= o.params
    }
  }

  const Free := Budget(0, 0, 0, 0)
  const FullBudget := Budget(MAX_ITEMS, MAX_HOST_NODES, MAX_HOST_PROPERTIES, MAX_HOST_PARAMETERS)

  datatype Cur = Cur(rest: seq<u8>, b: Budget)

  const Nil := Cur([], Free)

  /** The bytes of `a` before those of `s`, with the budget of both. */
  function Join(a: Cur, s: Cur): Cur {
    Cur(a.rest + s.rest, a.b.Plus(s.b))
  }

  datatype Read<+T> = Got(v: T, s: Cur) | Fail(error: WireError) {
    predicate IsFailure() { Fail? }
    function PropagateFailure<U>(): Read<U>
      requires Fail?
    {
      Fail(error)
    }
    function Extract(): (T, Cur)
      requires Got?
    {
      (v, s)
    }
  }

  // ---------------------------------------------------------------- fixed-width primitives

  function PutBytes(x: seq<u8>, s: Cur): Cur { s.(rest := x + s.rest) }
  function PutU8(v: u8, s: Cur): Cur { PutBytes([v], s) }
  function PutU16(v: u16, s: Cur): Cur { PutBytes(LE(v, 2), s) }
  function PutU32(v: u32, s: Cur): Cur { PutBytes(LE(v, 4), s) }
  function PutU64(v: u64, s: Cur): Cur { PutBytes(LE(v, 8), s) }

  function ReadExact(n: nat, s: Cur): (r: Read<seq<u8>>)
    ensures r.Got? ==> |r.v| == n && s == PutBytes(r.v, r.s)
  {
    if n > |s.rest| then Fail(UnexpectedEof) else Got(s.rest[..n], s.(rest := s.rest[n..]))
  }

  function ReadU8(s: Cur): (r: Read<u8>)
    ensures r.Got? ==> s == PutU8(r.v, r.s)
  {
    if s.rest == [] then Fail(UnexpectedEof) else Got(s.rest[0], s.(rest := s.rest[1..]))
  }

  function ReadU16(s: Cur): (r: Read<u16>)
    ensures r.Got? ==> s == PutU16(r.v, r.s)
  {
    var (x, s) :- ReadExact(2, s);
    Widths();
    LEOfFromLE(x);
    Got(FromLE(x), s)
  }

  function ReadU32(s: Cur): (r: Read<u32>)
    ensures r.Got? ==> s == PutU32(r.v, r.s)
  {
    var (x, s) :- ReadExact(4, s);
    Widths();
    LEOfFromLE(x);
    Got(FromLE(x), s)
  }

  function ReadU64(s: Cur): (r: Read<u64>)
    ensures r.Got? ==> s == PutU64(r.v, r.s)
  {
    var (x, s) :- ReadExact(8, s);
    Widths();
    LEOfFromLE(x);
    Got(FromLE(x), s)
  }

  lemma ReadPutExact(x: seq<u8>, s: Cur)
    ensures ReadExact(|x|, PutBytes(x, s)) == Got(x, s)
  {
    assert (x + s.rest)[..|x|] == x && (x + s.rest)[|x|..] == s.rest;
  }

  lemma ReadPutU8(v: u8, s: Cur)
    ensures ReadU8(PutU8(v, s)) == Got(v, s)
  {
    assert ([v] + s.rest)[1..] == s.rest;
  }

  lemma ReadPutU16(v: u16, s: Cur)
    ensures ReadU16(PutU16(v, s)) == Got(v, s)
  {
    Widths();
    ReadPutExact(LE(v, 2), s);
    LERoundTrip(v, 2);
  }

  lemma ReadPutU64(v: u64, s: Cur)
    ensures ReadU64(PutU64(v, s)) == Got(v, s)
  {
    Widths();
    ReadPutExact(LE(v, 8), s);
    LERoundTrip(v, 8);
  }

  // ---------------------------------------------------------------- strings

  /** A length the writer can state in four bytes. */
  predicate Short<T>(x: seq<T>) { |x| < 0x1_0000_0000 }

  predicate FitsBlob(x: seq<u8>) { |x| <= MAX_BLOB }
  predicate FitsString(x: Str) { FitsBlob(x) && Utf8(x) }
  predicate FitsBounded(x: Str, limit: nat) { FitsString(x) && |x| <= limit }

  /** `read_blob`/`write_string` framing: a u32 length and the bytes. */
  function PutBlob(x: seq<u8>, s: Cur): Cur { PutBytes(LE(|x|, 4), PutBytes(x, s)) }

  function ReadBlob(s: Cur): (r: Read<seq<u8>>)
    ensures r.Got? ==> FitsBlob(r.v) && s == PutBlob(r.v, r.s)
  {
    var (n, s) :- ReadU32(s);
    if n > MAX_BLOB then Fail(LengthTooLarge(n)) else ReadExact(n, s)
  }

  function ReadString(s: Cur): (r: Read<Str>)
    ensures r.Got? ==> FitsString(r.v) && s == PutBlob(r.v, r.s)
  {
    var (x, s) :- ReadBlob(s);
    if !Utf8(x) then Fail(InvalidUtf8) else Got(x, s)
  }

  function ReadBounded(limit: nat, s: Cur): (r: Read<Str>)
    ensures r.Got? ==> FitsBounded(r.v, limit) && s == PutBlob(r.v, r.s)
  {
    var (x, s) :- ReadBlob(s);
    if |x| > limit then Fail(LengthTooLarge(|x|)) else if !Utf8(x) then Fail(InvalidUtf8) else Got(x, s)
  }

  // ---------------------------------------------------------------- budgets and counts

  function Charge(n: nat, s: Cur): Cur { s.(b := s.b.(items := s.b.items + n)) }
  function ChargeNode(s: Cur): Cur { s.(b := s.b.(nodes := s.b.nodes + 1)) }
  function ChargeProps(n: nat, s: Cur): Cur { s.(b := s.b.(props := s.b.props + n)) }
  function ChargeParams(n: nat, s: Cur): Cur { s.(b := s.b.(params := s.b.params + n)) }

  function Debit(n: nat, s: Cur): (r: Read<()>)
    ensures r.Got? ==> n <= MAX_COUNT && s == Charge(n, r.s)
  {
    if n > MAX_COUNT || n > s.b.items then Fail(LengthTooLarge(n)) else Got((), s.(b := s.b.(items := s.b.items - n)))
  }

  function DebitNode(s: Cur): (r: Read<()>)
    ensures r.Got? ==> s == ChargeNode(r.s)
  {
    if s.b.nodes == 0 then Fail(LengthTooLarge(MAX_HOST_NODES + 1)) else Got((), s.(b := s.b.(nodes := s.b.nodes - 1)))
  }

  function DebitProps(n: nat, s: Cur): (r: Read<()>)
    ensures r.Got? ==> s == ChargeProps(n, r.s)
  {
    if n > s.b.props then Fail(LengthTooLarge(n)) else Got((), s.(b := s.b.(props := s.b.props - n)))
  }

  function DebitParams(n: nat, s: Cur): (r: Read<()>)
    ensures r.Got? ==> s == ChargeParams(n, r.s)
  {
    if n > s.b.params then Fail(LengthTooLarge(n)) else Got((), s.(b := s.b.(params := s.b.params - n)))
  }

  /** `validate_count_with_overhead`: `n` items of `min` bytes and `over` more bytes must still be there. */
  predicate CountFits(n: nat, min: nat, over: nat, remaining: nat) {
    n <= MAX_COUNT && n * min + over <= remaining
  }

  /** A count on the wire is a u32 that is also debited from the item budget. */
  function PutCount(n: nat, s: Cur): Cur { PutBytes(LE(n, 4), Charge(n, s)) }

  function ReadCount(min: nat, over: nat, s: Cur): (r: Read<nat>)
    ensures r.Got? ==> CountFits(r.v, min, over, |r.s.rest|) && s == PutCount(r.v, r.s)
  {
    var (n, s) :- ReadU32(s);
    if !CountFits(n, min, over, |s.rest|) then Fail(LengthTooLarge(n))
    else
      var (_, s) :- Debit(n, s);
      Got(n, s)
  }

  /** `read_limited_count`: frame locals are counted but have no bytes of their own. */
  function ReadFrameLocals(s: Cur): (r: Read<nat>)
    ensures r.Got? ==> r.v <= MAX_FRAME_LOCALS && s == PutCount(r.v, r.s)
  {
    var (n, s) :- ReadU32(s);
    if n > MAX_FRAME_LOCALS then Fail(LengthTooLarge(n))
    else
      var (_, s) :- Debit(n, s);
      Got(n, s)
  }

  lemma ReadPutBlob(x: seq<u8>, s: Cur)
    requires FitsBlob(x)
    ensures ReadBlob(PutBlob(x, s)) == Got(x, s)
  {
    Widths();
    ReadPutExact(LE(|x|, 4), PutBytes(x, s));
    LERoundTrip(|x|, 4);
    ReadPutExact(x, s);
  }

  lemma ReadPutString(x: Str, s: Cur)
    requires FitsString(x)
    ensures ReadString(PutBlob(x, s)) == Got(x, s)
  {
    ReadPutBlob(x, s);
  }

  lemma ReadPutBounded(x: Str, limit: nat, s: Cur)
    requires FitsBounded(x, limit)
    ensures ReadBounded(limit, PutBlob(x, s)) == Got(x, s)
  {
    ReadPutBlob(x, s);
  }

  lemma ReadPutLength(n: nat, s: Cur)
    requires n <= MAX_COUNT
    ensures ReadU32(PutCount(n, s)) == Got(n, Charge(n, s))
  {
    Widths();
    ReadPutExact(LE(n, 4), Charge(n, s));
    LERoundTrip(n, 4);
  }

  lemma ReadPutCount(n: nat, min: nat, over: nat, s: Cur)
    requires CountFits(n, min, over, |s.rest|)
    ensures ReadCount(min, over, PutCount(n, s)) == Got(n, s)
  {
    ReadPutLength(n, s);
    assert |Charge(n, s).rest| == |s.rest|;
    assert Debit(n, Charge(n, s)) == Got((), s);
  }

  /** Every primitive reads back what its inverse put. */
  lemma Primitives()
    ensures forall v: u8, s {:trigger ReadU8(PutU8(v, s))} :: ReadU8(PutU8(v, s)) == Got(v, s)
    ensures forall v: u16, s {:trigger ReadU16(PutU16(v, s))} :: ReadU16(PutU16(v, s)) == Got(v, s)
    ensures forall v: u32, s {:trigger ReadU32(PutU32(v, s))} :: ReadU32(PutU32(v, s)) == Got(v, s)
    ensures forall v: u64, s {:trigger ReadU64(PutU64(v, s))} :: ReadU64(PutU64(v, s)) == Got(v, s)
    ensures forall n: nat, s {:trigger Debit(n, Charge(n, s))} :: n <= MAX_COUNT ==> Debit(n, Charge(n, s)) == Got((), s)
    ensures forall s :: DebitNode(ChargeNode(s)) == Got((), s)
    ensures forall n: nat, s :: DebitProps(n, ChargeProps(n, s)) == Got((), s)
    ensures forall n: nat, s :: DebitParams(n, ChargeParams(n, s)) == Got((), s)
  {
    Widths();
    forall v: u8, s ensures ReadU8(PutU8(v, s)) == Got(v, s) { ReadPutExact([v], s); }
    forall v: u16, s ensures ReadU16(PutU16(v, s)) == Got(v, s) { ReadPutExact(LE(v, 2), s); LERoundTrip(v, 2); }
    forall v: u32, s ensures ReadU32(PutU32(v, s)) == Got(v, s) { ReadPutExact(LE(v, 4), s); LERoundTrip(v, 4); }
    forall v: u64, s ensures ReadU64(PutU64(v, s)) == Got(v, s) { ReadPutExact(LE(v, 8), s); LERoundTrip(v, 8); }
  }

  /** Strings read back within the limits of their readers. */
  lemma Strings()
    ensures forall x: Str, s {:trigger ReadString(PutBlob(x, s))} :: FitsString(x) ==> ReadString(PutBlob(x, s)) == Got(x, s)
    ensures forall x: seq<u8>, s {:trigger ReadBlob(PutBlob(x, s))} :: FitsBlob(x) ==> ReadBlob(PutBlob(x, s)) == Got(x, s)
    ensures forall x: Str, limit: nat, s {:trigger ReadBounded(limit, PutBlob(x, s))} :: FitsBounded(x, limit) ==> ReadBounded(limit, PutBlob(x, s)) == Got(x, s)
  {
    forall x: seq<u8>, s | FitsBlob(x) ensures ReadBlob(PutBlob(x, s)) == Got(x, s) { ReadPutBlob(x, s); }
  }

  lemma ReadPutFrameLocals(n: nat, s: Cur)
    requires n <= MAX_FRAME_LOCALS
    ensures ReadFrameLocals(PutCount(n, s)) == Got(n, s)
  {
    ReadPutLength(n, s);
    assert Debit(n, Charge(n, s)) == Got((), s);
  }

  lemma PutBytesFrame(x: seq<u8>, a: Cur, s: Cur)
    ensures PutBytes(x, Join(a, s)) == Join(PutBytes(x, a), s)
  {
    assert x + (a.rest + s.rest) == (x + a.rest) + s.rest;
  }

  /** Putting acts only on the front of a cursor. */
  lemma Frames()
    ensures forall s: Cur :: Join(Nil, s) == s
    ensures forall v: u8, a: Cur, s: Cur :: PutU8(v, Join(a, s)) == Join(PutU8(v, a), s)
    ensures forall v: u16, a: Cur, s: Cur :: PutU16(v, Join(a, s)) == Join(PutU16(v, a), s)
    ensures forall v: u32, a: Cur, s: Cur :: PutU32(v, Join(a, s)) == Join(PutU32(v, a), s)
    ensures forall v: u64, a: Cur, s: Cur :: PutU64(v, Join(a, s)) == Join(PutU64(v, a), s)
    ensures forall x: seq<u8>, a: Cur, s: Cur :: PutBytes(x, Join(a, s)) == Join(PutBytes(x, a), s)
    ensures forall x: seq<u8>, a: Cur, s: Cur :: PutBlob(x, Join(a, s)) == Join(PutBlob(x, a), s)
    ensures forall n: nat, a: Cur, s: Cur :: PutCount(n, Join(a, s)) == Join(PutCount(n, a), s)
    ensures forall n: nat, a: Cur, s: Cur :: Charge(n, Join(a, s)) == Join(Charge(n, a), s)
    ensures forall a: Cur, s: Cur :: ChargeNode(Join(a, s)) == Join(ChargeNode(a), s)
    ensures forall n: nat, a: Cur, s: Cur :: ChargeProps(n, Join(a, s)) == Join(ChargeProps(n, a), s)
    ensures forall n: nat, a: Cur, s: Cur :: ChargeParams(n, Join(a, s)) == Join(ChargeParams(n, a), s)
  {
    forall x: seq<u8>, a: Cur, s: Cur ensures PutBytes(x, Join(a, s)) == Join(PutBytes(x, a), s) { PutBytesFrame(x, a, s); }
    hide PutBytes;
    forall n: nat, a: Cur, s: Cur ensures Charge(n, Join(a, s)) == Join(Charge(n, a), s) { }
  }

  /** What each primitive adds to the length. */
  lemma Lengths()
    ensures forall v: u8, s :: |PutU8(v, s).rest| == 1 + |s.rest|
    ensures forall v: u16, s :: |PutU16(v, s).rest| == 2 + |s.rest|
    ensures forall v: u32, s :: |PutU32(v, s).rest| == 4 + |s.rest|
    ensures forall v: u64, s :: |PutU64(v, s).rest| == 8 + |s.rest|
    ensures forall x: seq<u8>, s :: |PutBlob(x, s).rest| == 4 + |x| + |s.rest|
    ensures forall n: nat, s :: |PutCount(n, s).rest| == 4 + |s.rest|
  {
  }
}
