/** Budget laws. */
module Budgets {
  // Conservation of the reader's budgets, and its streaming debits against the in-memory aggregate validator.

  import opened Bytes
  import opened Seqs
  import opened Wire
  import opened Lists
  import opened ResourceKeys
  import opened HostNames
  import opened HostTypes
  import opened HostWire
  import opened HostInjective
  import opened ImportSections
  import opened ImportLimits
  import opened Payload
  import opened Ledger
  import Codec

  /** In every accepted payload the initial item budget is what is left plus every count, frame-local count, schema node
      and host property read; the three host budgets are likewise conserved. */
  lemma Conservation(bytes: seq<u8>)
    requires Codec.DecodeContent(bytes).Ok?
    ensures var d := Codec.DecodeContent(bytes).value;
            var hs := if d.version == 11 then [] else SchemasOf(d.content.entries);
            && MAX_ITEMS == d.left.items + ContentItems(d.version, d.content) + Sum(ImportParams, hs) + Sum(ImportProps, hs)
            && MAX_HOST_NODES == d.left.nodes + Sum(ImportNodes, hs)
            && MAX_HOST_PROPERTIES == d.left.props + Sum(ImportProps, hs)
            && MAX_HOST_PARAMETERS == d.left.params + Sum(ImportParams, hs)
  {
    hide PutContent, ContentItems, SchemasOf;
    Codec.DecodeSound(bytes);
    var d := Codec.DecodeContent(bytes).value;
    ContentCosts(d.version, d.content, Nil);
  }

  // ---------------------------------------------------------------- streaming debits

  /** On the bytes of elements that fit, a list reader succeeds once the budget covers what they debit. */
  lemma StreamAccepts<T(!new)>(vs: seq<T>, min: nat, f: Cur -> Read<T>, p: (T, Cur) -> Cur, fits: T -> bool, tail: seq<u8>, b: Budget)
    requires Lawful(f, p, fits, min) && FitsList(vs, fits) && PutList(vs, p, Nil).b.Within(b)
    ensures ReadList(min, 0, f, Cur(PutList(vs, p, Nil).rest + tail, b)).Got?
  {
    hide PutList, ReadList;
    var i := PutList(vs, p, Nil).b;
    var left := Budget(b.items - i.items, b.nodes - i.nodes, b.props - i.props, b.params - i.params);
    ListFrame(vs, p, Nil, Cur(tail, left));
    Frames();
    ListComplete(vs, min, 0, f, p, fits, Cur(tail, left));
  }

  /** Name grammar and lengths of a type; nothing about depth or size. */
  predicate Named(t: HostType)
    decreases t
  {
    match t
    case Plain(_) => true
    case Handle(x) => FitsBounded(x, MAX_NAME) && KeyOk(x)
    case ListOf(u) => Named(u)
    case MapOf(u) => Named(u)
    case Maybe(u) => Named(u)
    case Function(ts, u) => Named(u) && forall t <- ts :: Named(t)
    case Struct(x, fs) => FitsBounded(x, MAX_NAME) && forall f <- fs :: NamedField(f)
  }

  predicate NamedField(f: HostField)
    decreases f
  {
    FitsBounded(f.name, MAX_NAME) && Named(f.ty)
  }

  predicate WellNamed(e: ImportEntry) {
    && FitsBounded(e.item.name, MAX_NAME)
    && (e.schema.Some? ==>
          var h := e.schema.value;
          && h.name == e.item.name && |h.params| == e.item.arity && FunctionName(h.name)
          && (forall p <- h.params :: FitsBounded(p.name, MAX_NAME) && Named(p.ty))
          && Named(h.result))
  }

  /** Depth, nodes, properties and parameters of all imports together. */
  predicate WithinLimits(hs: seq<ImportSchema>) {
    && (forall h <- hs :: (forall p <- h.params :: DepthOf(p.ty) <= MAX_HOST_DEPTH) && DepthOf(h.result) <= MAX_HOST_DEPTH)
    && Sum(ImportParams, hs) <= MAX_HOST_PARAMETERS
    && Sum(ImportNodes, hs) <= MAX_HOST_NODES
    && Sum(ImportProps, hs) <= MAX_HOST_PROPERTIES
  }

  lemma {:induction false} NamedFits(t: HostType)
    requires Named(t) && PropsOf(t) <= MAX_HOST_PROPERTIES
    ensures NamesFit(t)
    decreases t
  {
    match t {
      case ListOf(u) => NamedFits(u);
      case MapOf(u) => NamedFits(u);
      case Maybe(u) => NamedFits(u);
      case Function(ts, u) =>
        NamedFits(u);
        AllNamedFit(ts);
      case Struct(_, fs) => FieldsNamedFit(fs);
      case _ =>
    }
  }

  lemma {:induction false} AllNamedFit(ts: seq<HostType>)
    requires (forall t <- ts :: Named(t)) && PropsOfAll(ts) <= MAX_HOST_PROPERTIES
    ensures forall t <- ts :: NamesFit(t)
    decreases ts
  {
    if ts != [] {
      NamedFits(ts[0]);
      AllNamedFit(ts[1..]);
      assert ts == [ts[0]] + ts[1..];
    }
  }

  lemma {:induction false} FieldsNamedFit(fs: seq<HostField>)
    requires (forall f <- fs :: NamedField(f)) && PropsOfFields(fs) <= MAX_HOST_PROPERTIES
    ensures forall f <- fs :: FieldFits(f)
    decreases fs
  {
    if fs != [] {
      assert fs[0].ty < fs[0] && NamedField(fs[0]);
      NamedFits(fs[0].ty);
      FieldsNamedFit(fs[1..]);
      assert fs == [fs[0]] + fs[1..];
    }
  }

  lemma {:induction false} FitsSized(t: HostType)
    requires NamesFit(t)
    ensures Sized(t)
    decreases t
  {
    match t {
      case ListOf(u) => FitsSized(u);
      case MapOf(u) => FitsSized(u);
      case Maybe(u) => FitsSized(u);
      case Function(ts, u) =>
        FitsSized(u);
        forall t <- ts ensures Sized(t) { FitsSized(t); }
      case Struct(_, fs) =>
        forall f <- fs ensures SizedField(f) {
          assert FieldFits(f) && f.ty < f;
          FitsSized(f.ty);
        }
      case _ =>
    }
  }

  lemma EntrySized(e: ImportEntry)
    requires FitsEntry(e)
    ensures SizedEntry(e)
  {
    if e.schema.Some? {
      var h := e.schema.value;
      FitsSized(h.result);
      forall p <- h.params ensures SizedParam(p) {
        assert FitsParam(p);
        FitsSized(p.ty);
      }
    }
  }

  lemma {:induction false} PresentMember(es: seq<ImportEntry>, i: nat)
    requires i < |es| && es[i].schema.Some?
    ensures es[i].schema.value in SchemasOf(es)
  {
    assert Mapped(Schema, es)[1..] == Mapped(Schema, es[1..]);
    if i > 0 {
      PresentMember(es[1..], i - 1);
    }
  }

  lemma {:induction false} PresentFrom(es: seq<ImportEntry>, h: ImportSchema)
    requires h in SchemasOf(es)
    ensures exists e <- es :: e.schema == Some(h)
  {
    assert Mapped(Schema, es)[1..] == Mapped(Schema, es[1..]);
    if es[0].schema == Some(h) {
      assert es[0] in es;
    } else {
      PresentFrom(es[1..], h);
      var e :| e in es[1..] && e.schema == Some(h);
      assert e in es;
    }
  }

  lemma LimitsFit(es: seq<ImportEntry>, i: nat)
    requires i < |es| && WellNamed(es[i]) && WithinLimits(SchemasOf(es))
    ensures FitsEntry(es[i])
  {
    if es[i].schema.Some? {
      var h, hs := es[i].schema.value, SchemasOf(es);
      PresentMember(es, i);
      var k :| 0 <= k < |hs| && hs[k] == h;
      SumAtLeast(ImportParams, hs, k);
      SumAtLeast(ImportNodes, hs, k);
      SumAtLeast(ImportProps, hs, k);
      NamedFits(h.result);
      forall j | 0 <= j < |h.params| ensures FitsParam(h.params[j]) {
        SumAtLeast(ParamProps, h.params, j);
        NamedFits(h.params[j].ty);
      }
    }
  }

  lemma StreamedWithinLimits(es: seq<ImportEntry>, tail: seq<u8>, b: Budget)
    requires Short(es) && (forall e <- es :: SizedEntry(e))
    requires b.nodes == MAX_HOST_NODES && b.props == MAX_HOST_PROPERTIES && b.params == MAX_HOST_PARAMETERS
    requires ReadList(7, 0, ReadEntry, Cur(PutList(es, PutEntry, Nil).rest + tail, b)).Got?
    ensures WithinLimits(SchemasOf(es)) && All(es, FitsEntry)
  {
    hide ReadEntry, PutEntry, PutMany, ReadMany;
    var s := Cur(PutList(es, PutEntry, Nil).rest + tail, b);
    EntryLaws();
    ListSound(7, 0, ReadEntry, PutEntry, FitsEntry, s);
    var r := ReadList(7, 0, ReadEntry, s);
    ListFrame(es, PutEntry, Nil, Cur(tail, b));
    Frames();
    CountInjective(|es|, PutMany(es, PutEntry, Cur(tail, b)), |r.v|, PutMany(r.v, PutEntry, r.s));
    forall e <- r.v ensures SizedEntry(e) { EntrySized(e); }
    EntriesInjective(es, Cur(tail, b), r.v, r.s);
    EntriesCosts(es, r.s);
    forall h <- SchemasOf(es)
      ensures (forall p <- h.params :: DepthOf(p.ty) <= MAX_HOST_DEPTH) && DepthOf(h.result) <= MAX_HOST_DEPTH
    {
      PresentFrom(es, h);
      var e :| e in es && e.schema == Some(h);
      assert FitsEntry(e);
    }
  }

  /**
   * The reader debits nodes, properties, parameters and depth while it streams; the validator adds them up afterwards and
   * counts depth from one instead of zero. On any list of well-named imports the writer can encode, with items to spare,
   * they accept the same lists.
   */
  lemma StreamingIsAggregate(es: seq<ImportEntry>, tail: seq<u8>, b: Budget)
    requires |es| <= MAX_COUNT && (forall e <- es :: WellNamed(e) && SizedEntry(e))
    requires b.nodes == MAX_HOST_NODES && b.props == MAX_HOST_PROPERTIES && b.params == MAX_HOST_PARAMETERS
    requires b.items >= |es| + Sum(ImportParams, SchemasOf(es)) + Sum(ImportProps, SchemasOf(es))
    ensures ReadList(7, 0, ReadEntry, Cur(PutList(es, PutEntry, Nil).rest + tail, b)).Got? <==> WithinLimits(SchemasOf(es))
    ensures AggregateValid(SchemasOf(es)) <==> WithinLimits(SchemasOf(es)) && |SchemasOf(es)| <= MAX_HOST_FUNCTIONS
  {
    hide ReadEntry, PutEntry, PutMany, ReadMany, ReadList, SchemasOf, FitsEntry;
    if WithinLimits(SchemasOf(es)) {
      EntryLaws();
      forall i | 0 <= i < |es| ensures FitsEntry(es[i]) { LimitsFit(es, i); }
      EntriesCosts(es, Nil);
      StreamAccepts(es, 7, ReadEntry, PutEntry, FitsEntry, tail, b);
    } else if ReadList(7, 0, ReadEntry, Cur(PutList(es, PutEntry, Nil).rest + tail, b)).Got? {
      StreamedWithinLimits(es, tail, b);
    }
    forall h <- SchemasOf(es) ensures FunctionName(h.name) && forall p <- h.params :: |p.name| <= MAX_NAME {
      PresentFrom(es, h);
    }
  }
}
