/** Bytes read as another program. */
module Misaligned {
  // A program that the writer accepts, with one schema entry too many in its type map, whose bytes the reader takes for a
  // different program: the entries of that list have no count, so everything behind it is read one byte early.

  import opened Bytes
  import opened Seqs
  import opened Wire
  import opened Lists
  import opened Programs
  import opened Sections
  import opened CallableSections
  import opened Payload
  import opened Encoder
  import opened EncodeFacts
  import opened WireOrder
  import opened ReadBack
  import opened Schemas
  import Codec
  import Ledger

  function Zeros(n: nat): seq<u8> { seq(n, _ => 0) }

  /** A debug function name that holds the counts the reader will look for. */
  const NAME: Str := Zeros(10) + ([1] + (Zeros(3) + ([26] + Zeros(3))))

  /** No locals, but one schema entry. */
  function Written(): Program {
    Program([], [], 0, [], [], Some(TypeMap(false, [], [None], [], [], [])),
            Some(DebugInfo(None, [], [DebugFunction(NAME, [])], [])), Callables([], [], [], [], []), [])
  }

  /** No debug information, but a script function and an export. */
  function Found(): Content {
    Content([], [], [], Some(TypeMap(false, [], [], [], [], [])), None,
            Callables([ScriptFunction(0x1_0000, 0x12_0000)], [], [], [], [Export(Zeros(26), 0)]), [])
  }

  // ---------------------------------------------------------------- the bytes of both

  lemma Merge(m: nat, n: nat, t: seq<u8>)
    ensures Zeros(m) + (Zeros(n) + t) == Zeros(m + n) + t && Zeros(m) + Zeros(n) == Zeros(m + n)
  {
  }

  lemma {:induction false} LEZero(n: nat)
    ensures LE(0, n) == Zeros(n)
  {
    if n > 0 { LEZero(n - 1); }
  }

  lemma Low(v: u8, n: nat)
    requires n > 0
    ensures LE(v, n) == [v] + Zeros(n - 1)
  {
    LEZero(n - 1);
  }

  lemma High(v: u8)
    ensures LE(0x1_0000 * v, 4) == Zeros(2) + ([v] + Zeros(1))
  {
    hide LE;
    Low(v, 2);
    Shift(0x100 * v);
    Shift(v);
    LEStep(256 * (0x100 * v), 4);
    LEStep(256 * v, 3);
    assert [0] + ([0] + ([v] + Zeros(1))) == Zeros(2) + ([v] + Zeros(1));
  }

  lemma Shift(v: nat)
    ensures (256 * v) % 256 == 0 && (256 * v) / 256 == v
  {
  }

  lemma LEStep(v: nat, n: nat)
    requires n > 0
    ensures LE(v, n) == [v % 256] + LE(v / 256, n - 1)
  {
  }

  /** A small number in the first or the third byte of a word. */
  lemma Words(v: u8, t: seq<u8>)
    ensures LE(v, 4) + t == [v] + (Zeros(3) + t)
    ensures LE(0x1_0000 * v, 4) + t == Zeros(2) + ([v] + (Zeros(1) + t))
  {
    hide LE;
    Low(v, 4);
    Regroup([v], Zeros(3), t);
    High(v);
    Regroup(Zeros(2), [v] + Zeros(1), t);
    Regroup([v], Zeros(1), t);
  }

  lemma EmptyList<T>(p: (T, Cur) -> Cur, s: Cur)
    ensures PutList([], p, s).rest == Zeros(4) + s.rest
  {
    LEZero(4);
  }

  lemma OneList<T>(v: T, p: (T, Cur) -> Cur, s: Cur)
    ensures PutList([v], p, s).rest == [1] + (Zeros(3) + p(v, s).rest)
  {
    hide LE;
    assert [v][1..] == [];
    assert PutMany([v], p, s) == p(v, s);
    Words(1, p(v, s).rest);
  }

  /** Everything behind the counts in the name. */
  function Tail(): seq<u8> { [1] + (Zeros(3) + ([26] + Zeros(35))) }

  lemma NameTail()
    ensures NAME + Zeros(32) == Zeros(10) + Tail()
  {
    Merge(3, 32, []);
  }

  lemma WrittenTail()
    ensures AfterTypeMap(PartsOf(Written()), Nil).rest == [1] + (Zeros(5) + ([1] + (Zeros(3) + ([18] + (Zeros(13) + Tail())))))
  {
    hide PutList, PutDecl, PutScriptFunction, PutPrototype, PutRegion, PutBinding, PutExport, PutArg, PutLine, PutLocal, Tail, Zeros;
    WrittenParts();
    var c := PartsOf(Written());
    var t1 := PutList(c.decls, PutDecl, Nil);
    EmptyList(PutDecl, Nil);
    var t2 := PutCallables(c.callables, t1);
    var u1 := PutList([], PutExport, t1);
    var u2 := PutList([], PutBinding, u1);
    var u3 := PutList([], PutRegion, u2);
    var u4 := PutList([], PutPrototype, u3);
    EmptyList(PutExport, t1);
    EmptyList(PutBinding, u1);
    EmptyList(PutRegion, u2);
    EmptyList(PutPrototype, u3);
    EmptyList(PutScriptFunction, u4);
    assert t1.rest == Zeros(4) by { assert Zeros(4) + [] == Zeros(4); }
    Merge(4, 4, []);
    Merge(4, 8, []);
    Merge(4, 12, []);
    Merge(4, 16, []);
    Merge(4, 20, []);
    assert t2.rest == Zeros(24);
    DebugBytes(t2);
  }

  lemma DebugBytes(s: Cur)
    requires s.rest == Zeros(24)
    ensures PutOption(Some(DebugInfo(None, [], [DebugFunction(NAME, [])], [])), PutDebug, s).rest
         == [1] + (Zeros(5) + ([1] + (Zeros(3) + ([18] + (Zeros(13) + Tail())))))
  {
    hide PutList, PutArg, PutLine, PutLocal, Tail, Zeros;
    var f := DebugFunction(NAME, []);
    var t1 := PutList([], PutLocal, s);
    EmptyList(PutLocal, s);
    var t2 := PutList([], PutArg, t1);
    EmptyList(PutArg, t1);
    Merge(4, 24, []);
    Merge(4, 28, []);
    assert t2.rest == Zeros(32);
    NameLength();
    NameTail();
    Words(18, Zeros(10) + Tail());
    Merge(3, 10, Tail());
    var t3 := PutFunction(f, t1);
    assert t3.rest == LE(18, 4) + (NAME + t2.rest);
    assert t3.rest == [18] + (Zeros(13) + Tail());
    var t4 := PutList([f], PutFunction, t1);
    OneList(f, PutFunction, t1);
    var t5 := PutList([], PutLine, t4);
    EmptyList(PutLine, t4);
    ZeroByte();
    Merge(1, 4, t4.rest);
  }

  lemma NameLength()
    ensures |NAME| == 18
  {
  }

  lemma ZeroByte()
    ensures [0] == Zeros(1)
  {
  }

  lemma WrittenParts()
    ensures PartsOf(Written()) ==
              Content([], [], [], Some(TypeMap(false, [], [None], [], [], [])), Some(DebugInfo(None, [], [DebugFunction(NAME, [])], [])),
                      Callables([], [], [], [], []), [])
  {
    var m := TypeMap(false, [], [None], [], [], []);
    assert Mapped(LayOpt, m.schemas) == [None];
  }

  lemma NoSchema(s: Cur)
    ensures PutMany([None], PutOptSchema, s).rest == [0] + s.rest
  {
    var none: seq<Option<TypeSchema>> := [None];
    assert none[1..] == [];
  }

  lemma WrittenBytes()
    ensures PutMeta(13, PartsOf(Written()), Nil).rest
         == [1] + (Zeros(18) + ([1] + (Zeros(5) + ([1] + (Zeros(3) + ([18] + (Zeros(13) + Tail())))))))
  {
    hide AfterTypeMap, PutList, Tail, Zeros;
    var c := PartsOf(Written());
    WrittenParts();
    MetaParts(c, Nil);
    WrittenTail();
    var s := AfterTypeMap(c, Nil);
    var t1 := PutList([], PutOperand, s);
    var t2 := PutList([], PutBool, t1);
    var t3 := PutList([], PutBool, t2);
    EmptyList(PutOperand, s);
    EmptyList(PutBool, t1);
    EmptyList(PutBool, t2);
    Merge(4, 4, s.rest);
    Merge(4, 8, s.rest);
    LEZero(4);
    ZeroByte();
    NoSchema(t3);
    Merge(1, 12, s.rest);
    Merge(4, 13, s.rest);
    Merge(1, 17, s.rest);
  }

  lemma FoundCallables()
    ensures AfterTypeMap(Found(), Nil).rest == Zeros(1) + ([1] + (Zeros(5) + ([1] + (Zeros(3) + ([18] + (Zeros(13) + Tail()))))))
  {
    hide PutList, PutDecl, PutPrototype, PutRegion, PutBinding, LE;
    var f, e := ScriptFunction(0x1_0000, 0x12_0000), Export(Zeros(26), 0);
    var t1 := PutList([], PutDecl, Nil);
    EmptyList(PutDecl, Nil);
    LEZero(2);
    Words(26, Zeros(26) + (Zeros(2) + t1.rest));
    Merge(26, 6, []);
    Merge(3, 32, []);
    Merge(2, 4, []);
    assert PutExport(e, t1).rest == LE(26, 4) + (Zeros(26) + (LE(0, 2) + t1.rest));
    assert PutExport(e, t1).rest == [26] + Zeros(35);
    var t2 := PutList([e], PutExport, t1);
    OneList(e, PutExport, t1);
    assert t2.rest == Tail();
    FoundRest(t2, f);
  }

  lemma FoundRest(s: Cur, f: ScriptFunction)
    requires s.rest == Tail() && f == ScriptFunction(0x1_0000, 0x12_0000)
    ensures PutOption(None, PutDebug, PutList([f], PutScriptFunction, PutList([], PutPrototype, PutList([], PutRegion, PutList([], PutBinding, s))))).rest
         == Zeros(1) + ([1] + (Zeros(5) + ([1] + (Zeros(3) + ([18] + (Zeros(13) + Tail()))))))
  {
    hide PutList, PutPrototype, PutRegion, PutBinding, Tail, Zeros, LE;
    var t1 := PutList([], PutBinding, s);
    var t2 := PutList([], PutRegion, t1);
    var t3 := PutList([], PutPrototype, t2);
    EmptyList(PutBinding, s);
    EmptyList(PutRegion, t1);
    EmptyList(PutPrototype, t2);
    Merge(4, 4, Tail());
    Merge(4, 8, Tail());
    assert t3.rest == Zeros(12) + Tail();
    Words(18, t3.rest);
    Merge(1, 12, Tail());
    var end := [18] + (Zeros(13) + Tail());
    assert LE(0x12_0000, 4) + t3.rest == Zeros(2) + end;
    Words(1, Zeros(2) + end);
    Merge(1, 2, end);
    assert PutScriptFunction(f, t3).rest == LE(0x1_0000, 4) + (LE(0x12_0000, 4) + t3.rest);
    OneList(f, PutScriptFunction, t3);
    Merge(3, 2, [1] + (Zeros(3) + end));
    ZeroByte();
  }

  lemma FoundBytes()
    ensures PutMeta(13, Found(), Nil).rest
         == [1] + (Zeros(18) + ([1] + (Zeros(5) + ([1] + (Zeros(3) + ([18] + (Zeros(13) + Tail())))))))
  {
    hide AfterTypeMap, PutList, Tail, Zeros;
    var c := Found();
    MetaParts(c, Nil);
    FoundCallables();
    var s := AfterTypeMap(c, Nil);
    var t := [1] + (Zeros(5) + ([1] + (Zeros(3) + ([18] + (Zeros(13) + Tail())))));
    var t1 := PutList([], PutOperand, s);
    var t2 := PutList([], PutBool, t1);
    var t3 := PutList([], PutBool, t2);
    EmptyList(PutOperand, s);
    EmptyList(PutBool, t1);
    EmptyList(PutBool, t2);
    Merge(4, 1, t);
    Merge(4, 5, t);
    Merge(4, 9, t);
    LEZero(4);
    ZeroByte();
    Merge(4, 13, t);
    Merge(1, 17, t);
  }

  lemma SameBytes()
    ensures Codec.Image(13, Found()).rest == Codec.Image(13, PartsOf(Written())).rest
  {
    hide PutMeta;
    WrittenParts();
    WrittenBytes();
    FoundBytes();
  }

  // ---------------------------------------------------------------- what the reader makes of them

  lemma {:induction false} ZerosAreText(n: nat)
    ensures Utf8(Zeros(n))
  {
    if n > 0 {
      ZerosAreText(n - 1);
      assert Zeros(n)[1..] == Zeros(n - 1);
    }
  }

  lemma FoundFits()
    ensures FitsContent(13, Found())
  {
    ZerosAreText(26);
  }

  lemma FoundCosts(s: Cur)
    ensures Codec.PutPayload(13, Found(), s).b == s.b.(items := s.b.items + 2)
  {
    hide PutContent, Ledger.ImportsCost, Ledger.SchemasOf, Ledger.ContentItems;
    Ledger.ContentCosts(13, Found(), s);
    FoundItems();
    NoCost(Ledger.SchemasOf([]), s.b.(items := s.b.items + 2));
  }

  lemma FoundItems()
    ensures Ledger.ContentItems(13, Found()) == 2 && Ledger.SchemasOf(Found().entries) == []
  {
  }

  lemma FoundReadable(bytes: seq<u8>)
    requires bytes == Codec.Image(13, Found()).rest && |bytes| <= MAX_PAYLOAD
    ensures Codec.DecodeContent(bytes).Ok? && Codec.DecodeContent(bytes).value.content == Found()
  {
    hide Codec.DecodeContent, Codec.PutPayload, FitsContent;
    var left := FullBudget.(items := MAX_ITEMS - 2);
    FoundFits();
    FoundCosts(Nil);
    Codec.DecodeComplete(bytes, Codec.Decoded(13, Found(), left));
  }

  lemma ShortBytes()
    ensures |Codec.Image(13, Found()).rest| == 103
  {
    hide PutMeta, Tail;
    FoundBytes();
    TailLength();
  }

  lemma TailLength()
    ensures |Tail()| == 40
  {
  }

  lemma WrittenEncodes()
    ensures Encodable(Written()) && HasMaps(Written()) && !Aligned(PartsOf(Written()))
  {
    WrittenParts();
    assert Parts(Written()).entries == [];
    assert |NAME| == 18;
  }

  /** The program encodes, and its bytes decode without an error to a program with other debug information and callables. */
  lemma ReadAsAnother()
    ensures var p, q := Written(), Codec.ToProgram(13, Found());
            && Encodable(p) && HasMaps(p) && !Aligned(PartsOf(p))
            && Codec.Decode(Codec.Image(13, PartsOf(p)).rest) == Ok(q)
            && p.debug.Some? && q.debug.None? && p.callables.exports == [] && |q.callables.exports| == 1
  {
    hide Codec.DecodeContent, Codec.Image, Encodable, HasMaps, PartsOf;
    WrittenEncodes();
    SameBytes();
    ShortBytes();
    FoundReadable(Codec.Image(13, Found()).rest);
    FoundVersion();
  }

  lemma FoundVersion()
    requires Codec.DecodeContent(Codec.Image(13, Found()).rest).Ok?
    ensures Codec.DecodeContent(Codec.Image(13, Found()).rest).value.version == 13
  {
    hide Codec.DecodeContent, PutContent, PutHeader, Encodable;
    var d := Codec.DecodeContent(Codec.Image(13, Found()).rest).value;
    Codec.DecodeSound(Codec.Image(13, Found()).rest);
    HeaderInjective(13, PutContent(13, Found(), Nil), d.version, PutContent(d.version, d.content, Nil));
  }
}
