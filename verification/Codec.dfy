/** Whole programs. */
module Codec {
  // `encode_program` and `decode_program`: what they accept, what they return and how they invert each other.

  import opened Bytes
  import opened Seqs
  import opened Wire
  import opened Programs
  import opened HostTypes
  import opened ImportSections
  import opened Payload
  import opened Canonical
  import Bytecode

  // ---------------------------------------------------------------- bytes and costs of a payload

  function PutPayload(v: Version, c: Content, s: Cur): Cur { PutHeader(v, PutContent(v, c, s)) }

  /** The bytes of a payload and the budgets its reader debits. */
  function Image(v: Version, c: Content): Cur { PutPayload(v, c, Nil) }

  lemma PayloadFrame(v: Version, c: Content, s: Cur)
    ensures PutPayload(v, c, s) == Join(Image(v, c), s)
  {
    hide PutContent, PutBytes, PutU16;
    Frames();
    ContentFrame(v, c, Nil, s);
  }

  datatype Decoded = Decoded(version: Version, content: Content, left: Budget)

  /** Everything a payload holds, in wire order, and what is left of the budgets. */
  function DecodeContent(bytes: seq<u8>): Result<Decoded> {
    if |bytes| > MAX_PAYLOAD then Err(LengthTooLarge(|bytes|))
    else
      match ReadHeader(Cur(bytes, FullBudget))
      case Fail(e) => Err(e)
      case Got(v, s) =>
        match ReadContent(v, s)
        case Fail(e) => Err(e)
        case Got(c, t) => if t.rest != [] then Err(TrailingBytes) else Ok(Decoded(v, c, t.b))
  }

  /** Content `c` of version `v` is what `bytes` encode, within every limit and leaving `left` of the budgets. */
  ghost predicate Encodes(bytes: seq<u8>, d: Decoded) {
    && |bytes| <= MAX_PAYLOAD
    && FitsContent(d.version, d.content)
    && bytes == Image(d.version, d.content).rest
    && FullBudget == Image(d.version, d.content).b.Plus(d.left)
  }

  lemma ImageSplit(bytes: seq<u8>, d: Decoded)
    ensures Cur(bytes, FullBudget) == PutPayload(d.version, d.content, Cur([], d.left))
       <==> bytes == Image(d.version, d.content).rest && FullBudget == Image(d.version, d.content).b.Plus(d.left)
  {
    hide PutPayload;
    PayloadFrame(d.version, d.content, Cur([], d.left));
  }

  lemma DecodeSound(bytes: seq<u8>)
    requires DecodeContent(bytes).Ok?
    ensures Encodes(bytes, DecodeContent(bytes).value)
  {
    hide ReadContent, PutContent, PutHeader, FitsContent, Image;
    ImageSplit(bytes, DecodeContent(bytes).value);
  }

  lemma DecodeComplete(bytes: seq<u8>, d: Decoded)
    requires Encodes(bytes, d)
    ensures DecodeContent(bytes) == Ok(d)
  {
    hide ReadContent, PutContent, ReadHeader, PutHeader, FitsContent, Image;
    ImageSplit(bytes, d);
    ReadPutHeader(d.version, PutContent(d.version, d.content, Cur([], d.left)));
    ReadPutContent(d.version, d.content, Cur([], d.left));
  }

  /** A decoder accepts a payload exactly when its bytes are the image of content within every limit, and it then
      returns that content and what the image leaves of the budgets. */
  lemma DecodeExact(bytes: seq<u8>, d: Decoded)
    ensures DecodeContent(bytes) == Ok(d) <==> Encodes(bytes, d)
  {
    hide DecodeContent, Encodes;
    if DecodeContent(bytes) == Ok(d) {
      DecodeSound(bytes);
    } else if Encodes(bytes, d) {
      DecodeComplete(bytes, d);
    }
  }

  // ---------------------------------------------------------------- programs

  function MaxSlot<T>(slot: T -> u16, xs: seq<T>): nat {
    if xs == [] then 0 else Max(slot(xs[0]) as int + 1, MaxSlot(slot, xs[1..]))
  }

  function BindingSlot(b: Binding): u16 { b.slot }
  function ExportSlot(e: Export): u16 { e.slot }

  /** Local slots are not on the wire: code, type map, bindings and exports determine them. */
  function LocalCount(c: Content): nat {
    Max(Bytecode.InferLocals(c.code),
      Max(if c.typeMap.Some? then |c.typeMap.value.locals| else 0,
        Max(MaxSlot(BindingSlot, c.callables.bindings), MaxSlot(ExportSlot, c.callables.exports))))
  }

  /** The program a decoder builds from a payload's content. */
  function ToProgram(v: Version, raw: Content): Program {
    var c := CanonContent(raw);
    Program(c.constants, c.code, LocalCount(c), Mapped(Item, c.entries), if v == 11 then [] else Mapped(Schema, c.entries),
            c.typeMap, c.debug, c.callables, c.decls)
  }

  /** `decode_program`. */
  function Decode(bytes: seq<u8>): Result<Program> {
    match DecodeContent(bytes)
    case Err(e) => Err(e)
    case Ok(d) => Ok(ToProgram(d.version, d.content))
  }

  function Zip(xs: seq<HostImport>, os: seq<Option<ImportSchema>>): (r: seq<ImportEntry>)
    ensures |r| == |xs|
    ensures forall i | 0 <= i < |xs| :: r[i] == ImportEntry(xs[i], if i < |os| then os[i] else None)
  {
    seq(|xs|, i requires 0 <= i < |xs| => ImportEntry(xs[i], if i < |os| then os[i] else None))
  }

  /** What `encode_program` writes: hash maps sorted by key, constants as they are. */
  function ContentOf(p: Program): Content {
    var c := Content(p.constants, p.code, Zip(p.imports, p.hostSchemas), p.typeMap, p.debug, p.callables, p.decls);
    CanonContent(c).(constants := p.constants)
  }

  function ProgramBytes(p: Program): seq<u8> { Image(13, ContentOf(p)).rest }

  /** The limits of the reader, on what the writer would write. */
  ghost predicate Readable(p: Program) {
    && FitsContent(13, ContentOf(p))
    && |ProgramBytes(p)| <= MAX_PAYLOAD
    && Image(13, ContentOf(p)).b.Within(FullBudget)
  }

  /** A program as decoding returns it: maps sorted, schemas aligned, locals recomputed. */
  function Normal(p: Program): Program { ToProgram(13, ContentOf(p)) }

  /** Within the reader's limits, decoding what was encoded gives the program back, with its hash maps in canonical
      order, absent schemas spelled out and the local count recomputed. */
  lemma RoundTrip(p: Program)
    requires Readable(p)
    ensures Decode(ProgramBytes(p)) == Ok(Normal(p))
  {
    hide Image, DecodeContent, FitsContent, ContentOf, ToProgram;
    var c := ContentOf(p);
    var b := Image(13, c).b;
    var left := Budget(FullBudget.items - b.items, FullBudget.nodes - b.nodes, FullBudget.props - b.props, FullBudget.params - b.params);
    DecodeComplete(ProgramBytes(p), Decoded(13, c, left));
  }

  lemma ContentOfProgram(c: Content)
    ensures ContentOf(ToProgram(13, c)) == CanonContent(c)
  {
    var d := CanonContent(c);
    ContentIdempotent(c);
    assert Zip(Mapped(Item, d.entries), Mapped(Schema, d.entries)) == d.entries;
  }

  /** Every version 13 payload a decoder accepts decodes to a fixed point of encoding and decoding. */
  lemma DecodedIsFixedPoint(bytes: seq<u8>)
    requires DecodeContent(bytes).Ok? && DecodeContent(bytes).value.version == 13
    ensures var p := Decode(bytes).value; Readable(p) && |ProgramBytes(p)| <= |bytes| && Decode(ProgramBytes(p)) == Ok(p)
  {
    hide Image, DecodeContent, FitsContent, CanonContent;
    var d := DecodeContent(bytes).value;
    var c := d.content;
    DecodeExact(bytes, d);
    ContentOfProgram(c);
    ContentFits(13, c);
    ImageLeaner(13, c);
    var p := Decode(bytes).value;
    assert Readable(p);
    RoundTrip(p);
    ContentIdempotent(c);
  }

  lemma ImageLeaner(v: Version, c: Content)
    requires v < 13 ==> c.decls == []
    ensures Leaner(Image(v, CanonContent(c)), Image(v, c))
  {
    hide PutContent;
    ContentLeaner(v, c, Nil);
  }
}
