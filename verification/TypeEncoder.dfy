/** `try_push_type` and `push_named_fields`: the encoder's loops append the canonical bytes. */
module TypeEncoder {
  import opened Bytes
  import opened Seqs
  import opened HostTypes
  import opened Sorting
  import opened CanonicalBytes

  /** The bytes of the types still to push, the last of them first. */
  function Pending(ws: seq<HostType>): seq<u8> {
    if ws == [] then [] else Raw(Canon(ws[|ws| - 1]), Pending(ws[..|ws| - 1]))
  }

  function Weight(ws: seq<HostType>): nat {
    if ws == [] then 0 else NodesOf(ws[|ws| - 1]) + Weight(ws[..|ws| - 1])
  }

  function Reversed(ts: seq<HostType>): seq<HostType> {
    if ts == [] then [] else Reversed(ts[1..]) + [ts[0]]
  }

  lemma {:induction false} RawAppend(t: HostType, x: seq<u8>, y: seq<u8>)
    ensures Raw(t, x + y) == Raw(t, x) + y
    decreases t
  {
    hide PushLen, PushStr;
    match t {
      case ListOf(u) => RawAppend(u, x, y);
      case MapOf(u) => RawAppend(u, x, y);
      case Maybe(u) => RawAppend(u, x, y);
      case Function(ts, u) =>
        RawAppend(u, x, y);
        RawAllAppend(ts, Raw(u, x), y);
      case Struct(_, fs) => RawFieldsAppend(fs, x, y);
      case _ =>
    }
  }

  lemma {:induction false} RawAllAppend(ts: seq<HostType>, x: seq<u8>, y: seq<u8>)
    ensures RawAll(ts, x + y) == RawAll(ts, x) + y
    decreases ts
  {
    if ts != [] {
      RawAllAppend(ts[1..], x, y);
      RawAppend(ts[0], RawAll(ts[1..], x), y);
    }
  }

  lemma {:induction false} RawFieldsAppend(fs: seq<HostField>, x: seq<u8>, y: seq<u8>)
    ensures RawFields(fs, x + y) == RawFields(fs, x) + y
    decreases fs
  {
    if fs != [] {
      hide PushStr;
      assert fs[0].ty < fs[0];
      RawFieldsAppend(fs[1..], x, y);
      RawAppend(fs[0].ty, RawFields(fs[1..], x), y);
    }
  }

  lemma PushOne(ws: seq<HostType>, t: HostType)
    ensures Pending(ws + [t]) == Raw(Canon(t), Pending(ws)) && Weight(ws + [t]) == NodesOf(t) + Weight(ws)
  {
    assert (ws + [t])[..|ws|] == ws;
  }

  lemma {:induction false} PushReversed(ws: seq<HostType>, ts: seq<HostType>)
    ensures Pending(ws + Reversed(ts)) == RawAll(CanonAll(ts), Pending(ws)) && Weight(ws + Reversed(ts)) == NodesOfAll(ts) + Weight(ws)
  {
    hide Pending, Weight;
    if ts == [] {
      assert ws + Reversed(ts) == ws;
    } else {
      PushReversed(ws, ts[1..]);
      PushOne(ws + Reversed(ts[1..]), ts[0]);
      assert ws + Reversed(ts) == ws + Reversed(ts[1..]) + [ts[0]];
      assert CanonAll(ts)[1..] == CanonAll(ts[1..]);
    }
  }

  lemma {:induction false} CanonFieldsEach(fs: seq<HostField>)
    ensures CanonFields(fs) == Mapped(CanonField, fs)
  {
    if fs != [] {
      CanonFieldsEach(fs[1..]);
    }
  }

  lemma {:induction false} FieldNodes(fs: seq<HostField>, f: HostField)
    requires f in fs
    ensures NodesOf(f.ty) <= NodesOfFields(fs)
  {
    if f != fs[0] {
      FieldNodes(fs[1..], f);
    }
  }

  /** `push_named_fields`: sorted by name, each with its name and type. */
  method PushNamedFields(out: seq<u8>, fs: seq<HostField>) returns (r: seq<u8>)
    ensures r == out + PushLen(|fs|) + RawFields(Sort(FieldName, CanonFields(fs)), [])
    decreases NodesOfFields(fs), 1
  {
    hide PushLen, PushStr, Sort, Raw, RawFields, CanonFields, NodesOf, NodesOfFields;
    var sorted := Sort(FieldName, fs);
    r := out + PushLen(|sorted|);
    ghost var start := r;
    CanonFieldsEach(fs);
    SortEach(FieldName, CanonField, FieldName, fs);
    ghost var cs := Mapped(CanonField, sorted);
    assert RawFields(cs[..0], []) == [] by { NoFields(); }
    assert cs[..0] == [];
    for i := 0 to |sorted|
      invariant r == start + RawFields(cs[..i], [])
    {
      Member(sorted, fs, sorted[i]);
      FieldNodes(fs, sorted[i]);
      AppendField(cs, i);
      Rejoin(start, RawFields(cs[..i], []), PushStr(cs[i].name), Raw(cs[i].ty, []));
      r := r + PushStr(sorted[i].name);
      r := TryPushType(r, sorted[i].ty);
    }
    assert cs[..|cs|] == cs;
  }

  lemma Rejoin(a: seq<u8>, b: seq<u8>, c: seq<u8>, d: seq<u8>)
    ensures a + b + c + d == a + (b + c + d)
  {
  }

  lemma NoFields()
    ensures RawFields([], []) == []
  {
  }

  lemma {:induction false} RawFieldsJoin(a: seq<HostField>, b: seq<HostField>, rest: seq<u8>)
    ensures RawFields(a + b, rest) == RawFields(a, RawFields(b, rest))
  {
    hide PushStr, Raw;
    if a == [] {
      assert a + b == b;
    } else {
      RawFieldsJoin(a[1..], b, rest);
      assert (a + b)[1..] == a[1..] + b;
    }
  }

  lemma AppendField(cs: seq<HostField>, i: nat)
    requires i < |cs|
    ensures RawFields(cs[..i + 1], []) == RawFields(cs[..i], []) + PushStr(cs[i].name) + Raw(cs[i].ty, [])
  {
    hide PushStr, Raw;
    var last := PushStr(cs[i].name) + Raw(cs[i].ty, []);
    assert RawFields([cs[i]], []) == last by { assert [cs[i]][1..] == []; }
    assert cs[..i + 1] == cs[..i] + [cs[i]];
    RawFieldsJoin(cs[..i], [cs[i]], []);
    RawFieldsAppend(cs[..i], [], last);
    assert [] + last == last;
  }

  /** What is pushed when a type is taken, and what is left to push. */
  function Head(t: HostType): seq<u8> {
    match t
    case Plain(k) => [ScalarByte(k)]
    case ListOf(_) => [0x5B]
    case MapOf(_) => [0x7B]
    case Maybe(_) => [0x3F]
    case Function(ts, _) => [0x63] + PushLen(|ts|)
    case Handle(x) => [0x72] + PushStr(x)
    case Struct(x, fs) => [0x6E] + PushStr(x) + PushLen(|fs|) + RawFields(Sort(FieldName, CanonFields(fs)), [])
  }

  function Kids(t: HostType): seq<HostType> {
    match t
    case ListOf(u) => [u]
    case MapOf(u) => [u]
    case Maybe(u) => [u]
    case Function(ts, u) => [u] + Reversed(ts)
    case _ => []
  }

  lemma TakeOne(ws: seq<HostType>, t: HostType)
    ensures Pending(ws + [t]) == Head(t) + Pending(ws + Kids(t)) && Weight(ws + Kids(t)) < Weight(ws + [t])
  {
    hide PushLen, PushStr, Pending, Weight, Sort, RawFields, RawAll, CanonFields, CanonAll, Reversed;
    PushOne(ws, t);
    match t {
      case ListOf(u) => PushOne(ws, u);
      case MapOf(u) => PushOne(ws, u);
      case Maybe(u) => PushOne(ws, u);
      case Function(ts, u) =>
        PushOne(ws, u);
        PushReversed(ws + [u], ts);
        Regroup(ws, [u], Reversed(ts));
        Regroup([0x63], PushLen(|ts|), RawAll(CanonAll(ts), Raw(Canon(u), Pending(ws))));
      case Handle(x) =>
        Regroup([0x72], PushStr(x), Pending(ws));
        assert ws + Kids(t) == ws;
      case Struct(_, _) =>
        StructHead(t, Pending(ws));
        assert ws + Kids(t) == ws;
      case Plain(_) => assert ws + Kids(t) == ws;
    }
  }

  lemma StructHead(t: HostType, rest: seq<u8>)
    requires t.Struct?
    ensures Raw(Canon(t), rest) == Head(t) + rest
  {
    hide PushLen, PushStr, Sort, RawFields, CanonFields;
    var cs := Sort(FieldName, CanonFields(t.fields));
    RawFieldsAppend(cs, [], rest);
    assert [] + rest == rest;
    var a, b, c, d: seq<u8> := [0x6E], PushStr(t.name), PushLen(|t.fields|), RawFields(cs, []);
    Regroup(a + b + c, d, rest);
    Regroup(a + b, c, d + rest);
    Regroup(a, b, c + (d + rest));
  }

  method PushHead(out: seq<u8>, t: HostType) returns (r: seq<u8>)
    ensures r == out + Head(t)
    decreases NodesOf(t), 0, 0
  {
    hide PushLen, PushStr, Sort;
    match t {
      case Plain(k) => r := out + [ScalarByte(k)];
      case ListOf(_) => r := out + [0x5B];
      case MapOf(_) => r := out + [0x7B];
      case Maybe(_) => r := out + [0x3F];
      case Function(ts, _) =>
        r := out + [0x63];
        r := r + PushLen(|ts|);
      case Handle(x) =>
        r := out + [0x72];
        r := r + PushStr(x);
      case Struct(x, fs) =>
        r := out + [0x6E];
        r := r + PushStr(x);
        r := PushNamedFields(r, fs);
    }
  }

  method PushKids(ws: seq<HostType>, t: HostType) returns (out: seq<HostType>)
    ensures out == ws + Kids(t)
  {
    match t {
      case ListOf(u) => out := ws + [u];
      case MapOf(u) => out := ws + [u];
      case Maybe(u) => out := ws + [u];
      case Function(ts, u) => out := PushAll(ws + [u], ts);
      case _ => out := ws;
    }
  }

  /** `try_push_type`: an explicit stack, with recursion only at named structs. */
  method TryPushType(out: seq<u8>, t: HostType) returns (r: seq<u8>)
    ensures r == out + TypeBytes(t)
    decreases NodesOf(t), 0, 1
  {
    hide Pending, Weight, Head, Kids, Raw, NodesOf;
    var pending := [t];
    r := out;
    PushOne([], t);
    NoTypes();
    assert [] + [t] == [t];
    while pending != []
      invariant r + Pending(pending) == out + TypeBytes(t) && Weight(pending) <= NodesOf(t)
      decreases Weight(pending)
    {
      var u, rest := pending[|pending| - 1], pending[..|pending| - 1];
      assert pending == rest + [u];
      TakeOne(rest, u);
      PushOne(rest, u);
      r := PushHead(r, u);
      pending := PushKids(rest, u);
    }
    assert r + [] == r;
  }

  lemma NoTypes()
    ensures Pending([]) == [] && Weight([]) == 0
  {
  }

  method PushAll(ws: seq<HostType>, ts: seq<HostType>) returns (out: seq<HostType>)
    ensures out == ws + Reversed(ts)
  {
    out := ws;
    for i := |ts| downto 0
      invariant out == ws + Reversed(ts[i..])
    {
      out := out + [ts[i]];
      assert ts[i..][1..] == ts[i + 1..];
    }
    assert ts[0..] == ts;
  }
}
