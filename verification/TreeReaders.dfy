/** The recursive readers: constants, guest schemas and host types, from a cursor. */
module TreeReaders {
  import opened Bytes
  import opened Wire
  import opened Cursors
  import opened HostTypes
  import opened HostWire
  import Constants
  import Schemas
  import NameChecks

  /** What a list reader returns once `xs` have been read. */
  function Ahead<T>(xs: seq<T>, r: Read<seq<T>>): Read<seq<T>> { if r.Got? then Got(xs + r.v, r.s) else r }

  lemma AheadNone<T>(r: Read<seq<T>>)
    ensures Ahead([], r) == r
  {
    if r.Got? { assert [] + r.v == r.v; }
  }

  lemma AheadAll<T>(xs: seq<T>, s: Cur)
    ensures Ahead(xs, Got([], s)) == Got(xs, s)
  {
    assert xs + [] == xs;
  }

  lemma AheadOne<T>(xs: seq<T>, x: T, r: Read<seq<T>>)
    ensures r.Got? ==> Ahead(xs + [x], r) == Ahead(xs, Got([x] + r.v, r.s))
  {
    if r.Got? { assert xs + ([x] + r.v) == xs + [x] + r.v; }
  }

  // ---------------------------------------------------------------- constants

  method GetLeaf(c: Cursor, tag: u8) returns (r: Result<Constants.Value>)
    requires c.Valid()
    modifies c`offset
    ensures c.Valid() && Did(Constants.ReadLeaf(tag, old(c.State())), r, c.State())
  {
    hide ReadU8, ReadU64, ReadString, ReadBlob;
    match tag {
      case 0 =>
        var x :- c.GetU64();
        r := Ok(Constants.Int(FromBits(x)));
      case 1 =>
        var x :- c.GetU8();
        r := if x > 1 then Err(InvalidBool(x)) else Ok(Constants.Bool(x == 1));
      case 2 =>
        var x :- c.GetString();
        r := Ok(Constants.Text(x));
      case 3 =>
        var x :- c.GetU64();
        r := Ok(Constants.Float(x));
      case 4 => r := Ok(Constants.Null);
      case 5 =>
        var x :- c.GetBlob();
        r := Ok(Constants.Blob(x));
      case _ => r := Err(InvalidConstantTag(tag));
    }
  }

  /** `read_constant`. */
  method GetConstant(c: Cursor, depth: nat) returns (r: Result<Constants.Value>)
    requires c.Valid() && depth <= MAX_CONSTANT_DEPTH
    modifies c`offset, c`items
    ensures c.Valid() && Did(Constants.ReadValue(depth, old(c.State())), r, c.State())
    decreases MAX_CONSTANT_DEPTH - depth, 0
  {
    hide ReadU8, ReadCount, Constants.ReadLeaf, Constants.ReadValues, Constants.ReadEntries;
    if depth >= MAX_CONSTANT_DEPTH {
      return Err(LengthTooLarge(depth));
    }
    var tag :- c.GetU8();
    if tag == 6 {
      var n :- c.GetCount(1, 0);
      var vs :- GetConstants(c, n, depth + 1);
      r := Ok(Constants.Array(vs));
    } else if tag == 7 {
      var n :- c.GetCount(2, 0);
      var es :- GetPairs(c, n, depth + 1);
      r := Ok(Constants.Map(es));
    } else {
      r := GetLeaf(c, tag);
    }
  }

  method GetConstants(c: Cursor, n: nat, depth: nat) returns (r: Result<seq<Constants.Value>>)
    requires c.Valid() && depth <= MAX_CONSTANT_DEPTH
    modifies c`offset, c`items
    ensures c.Valid() && Did(Constants.ReadValues(n, depth, old(c.State())), r, c.State())
    decreases MAX_CONSTANT_DEPTH - depth, 1
  {
    hide Constants.ReadValue;
    ghost var s := c.State();
    var xs: seq<Constants.Value> := [];
    AheadNone(Constants.ReadValues(n, depth, s));
    for i := 0 to n
      invariant c.Valid() && Constants.ReadValues(n, depth, s) == Ahead(xs, Constants.ReadValues(n - i, depth, c.State()))
    {
      var x :- GetConstant(c, depth);
      AheadOne(xs, x, Constants.ReadValues(n - i - 1, depth, c.State()));
      xs := xs + [x];
    }
    AheadAll(xs, c.State());
    r := Ok(xs);
  }

  method GetPairs(c: Cursor, n: nat, depth: nat) returns (r: Result<seq<Constants.Entry>>)
    requires c.Valid() && depth <= MAX_CONSTANT_DEPTH
    modifies c`offset, c`items
    ensures c.Valid() && Did(Constants.ReadEntries(n, depth, old(c.State())), r, c.State())
    decreases MAX_CONSTANT_DEPTH - depth, 1
  {
    hide Constants.ReadValue;
    ghost var s := c.State();
    var xs: seq<Constants.Entry> := [];
    AheadNone(Constants.ReadEntries(n, depth, s));
    for i := 0 to n
      invariant c.Valid() && Constants.ReadEntries(n, depth, s) == Ahead(xs, Constants.ReadEntries(n - i, depth, c.State()))
    {
      var k :- GetConstant(c, depth);
      var v :- GetConstant(c, depth);
      AheadOne(xs, Constants.Entry(k, v), Constants.ReadEntries(n - i - 1, depth, c.State()));
      xs := xs + [Constants.Entry(k, v)];
    }
    AheadAll(xs, c.State());
    r := Ok(xs);
  }

  // ---------------------------------------------------------------- guest schemas

  method GetAtom(c: Cursor, tag: u8) returns (r: Result<Schemas.TypeSchema>)
    requires c.Valid()
    modifies c`offset
    ensures c.Valid() && Did(Schemas.ReadAtom(tag, old(c.State())), r, c.State())
  {
    hide ReadString;
    if tag < 8 {
      r := Ok(Schemas.Basic(Schemas.ScalarOf(tag)));
    } else if tag == 8 {
      var x :- c.GetString();
      r := Ok(Schemas.GenericParam(x));
    } else if tag == 17 {
      var x :- c.GetString();
      var verdict := NameChecks.ValidateResourceKey(x);
      r := if verdict.KeyFine? then Ok(Schemas.Resource(x)) else Err(InvalidResourceKey);
    } else {
      r := Err(InvalidValueType(tag));
    }
  }

  /** `read_schema`. */
  method GetSchema(c: Cursor, depth: nat) returns (r: Result<Schemas.TypeSchema>)
    requires c.Valid() && depth <= MAX_SCHEMA_DEPTH
    modifies c`offset, c`items
    ensures c.Valid() && Did(Schemas.ReadSchema(depth, old(c.State())), r, c.State())
    decreases MAX_SCHEMA_DEPTH - depth, 0
  {
    hide ReadU8, Debit, Schemas.ReadAtom, Schemas.ReadComposite;
    if depth >= MAX_SCHEMA_DEPTH {
      return Err(LengthTooLarge(depth));
    }
    var _ :- c.DebitCount(1);
    var tag :- c.GetU8();
    if tag in {9, 11, 12, 14, 15} {
      r := GetComposite(c, tag, depth + 1);
    } else if tag in {10, 13, 16} {
      var t :- GetSchema(c, depth + 1);
      r := Ok(if tag == 10 then Schemas.Array(t) else if tag == 13 then Schemas.Map(t) else Schemas.Optional(t));
    } else {
      r := GetAtom(c, tag);
    }
  }

  method GetComposite(c: Cursor, tag: u8, depth: nat) returns (r: Result<Schemas.TypeSchema>)
    requires c.Valid() && 1 <= depth <= MAX_SCHEMA_DEPTH && tag in {9, 11, 12, 14, 15}
    modifies c`offset, c`items
    ensures c.Valid() && Did(Schemas.ReadComposite(tag, depth, old(c.State())), r, c.State())
    decreases MAX_SCHEMA_DEPTH - depth, 2
  {
    hide ReadString, ReadCount, Schemas.ReadSchema, Schemas.ReadParts, Schemas.ReadFields;
    if tag == 9 {
      var x :- c.GetString();
      var ts :- GetParts(c, 0, depth);
      r := Ok(Schemas.Named(x, ts));
    } else if tag == 11 {
      var ts :- GetParts(c, 0, depth);
      r := Ok(Schemas.Tuple(ts));
    } else if tag == 14 {
      var n :- c.GetCount(5, 0);
      var fs :- GetFields(c, n, depth);
      r := Ok(Schemas.Object(fs));
    } else {
      var ts :- GetParts(c, 1, depth);
      var t :- GetSchema(c, depth);
      r := Ok(if tag == 12 then Schemas.TupleRest(ts, t) else Schemas.Callable(ts, t));
    }
  }

  method GetParts(c: Cursor, over: nat, depth: nat) returns (r: Result<seq<Schemas.TypeSchema>>)
    requires c.Valid() && depth <= MAX_SCHEMA_DEPTH
    modifies c`offset, c`items
    ensures c.Valid() && Did(Schemas.ReadParts(over, depth, old(c.State())), r, c.State())
    decreases MAX_SCHEMA_DEPTH - depth, 1
  {
    hide ReadCount, Schemas.ReadSchema;
    var n :- c.GetCount(1, over);
    ghost var s := c.State();
    var xs: seq<Schemas.TypeSchema> := [];
    AheadNone(Schemas.ReadSchemas(n, depth, s));
    for i := 0 to n
      invariant c.Valid() && Schemas.ReadSchemas(n, depth, s) == Ahead(xs, Schemas.ReadSchemas(n - i, depth, c.State()))
    {
      var x :- GetSchema(c, depth);
      AheadOne(xs, x, Schemas.ReadSchemas(n - i - 1, depth, c.State()));
      xs := xs + [x];
    }
    AheadAll(xs, c.State());
    r := Ok(xs);
  }

  method GetFields(c: Cursor, n: nat, depth: nat) returns (r: Result<seq<Schemas.Field>>)
    requires c.Valid() && depth <= MAX_SCHEMA_DEPTH
    modifies c`offset, c`items
    ensures c.Valid() && Did(Schemas.ReadFields(n, depth, old(c.State())), r, c.State())
    decreases MAX_SCHEMA_DEPTH - depth, 1
  {
    hide ReadString, Schemas.ReadSchema;
    ghost var s := c.State();
    var xs: seq<Schemas.Field> := [];
    AheadNone(Schemas.ReadFields(n, depth, s));
    for i := 0 to n
      invariant c.Valid() && Schemas.ReadFields(n, depth, s) == Ahead(xs, Schemas.ReadFields(n - i, depth, c.State()))
    {
      var name :- c.GetString();
      var t :- GetSchema(c, depth);
      AheadOne(xs, Schemas.Field(name, t), Schemas.ReadFields(n - i - 1, depth, c.State()));
      xs := xs + [Schemas.Field(name, t)];
    }
    AheadAll(xs, c.State());
    r := Ok(xs);
  }

  // ---------------------------------------------------------------- host types

  method GetHostAtom(c: Cursor, tag: u8) returns (r: Result<HostType>)
    requires c.Valid()
    modifies c`offset
    ensures c.Valid() && Did(ReadHostAtom(tag, old(c.State())), r, c.State())
  {
    hide ReadBounded;
    if tag < 8 {
      r := Ok(Plain(Schemas.ScalarOf(tag)));
    } else if tag == 12 {
      var x :- c.GetBounded(MAX_NAME);
      var verdict := NameChecks.ValidateResourceKey(x);
      r := if verdict.KeyFine? then Ok(Handle(x)) else Err(InvalidHostResourceKey);
    } else {
      r := Err(InvalidHostSchemaTag(tag));
    }
  }

  method GetProps(c: Cursor) returns (r: Result<nat>)
    requires c.Valid()
    modifies c`offset, c`items, c`props
    ensures c.Valid() && Did(ReadProps(old(c.State())), r, c.State())
  {
    hide ReadCount, DebitProps;
    var n :- c.GetCount(1, 1);
    if n > MAX_HOST_PROPERTIES {
      return Err(LengthTooLarge(n));
    }
    var _ :- c.DebitHostProperties(n);
    r := Ok(n);
  }

  /** `read_host_type_schema`. */
  method GetHost(c: Cursor, depth: nat) returns (r: Result<HostType>)
    requires c.Valid() && depth <= MAX_HOST_DEPTH
    modifies c`offset, c`items, c`nodes, c`props
    ensures c.Valid() && Did(ReadHost(depth, old(c.State())), r, c.State())
    decreases MAX_HOST_DEPTH - depth, 0
  {
    hide ReadU8, DebitNode, ReadHostAtom, ReadCallable, ReadStruct;
    if depth >= MAX_HOST_DEPTH {
      return Err(LengthTooLarge(depth));
    }
    var _ :- c.DebitHostNode();
    var tag :- c.GetU8();
    if tag in {8, 9, 10} {
      var t :- GetHost(c, depth + 1);
      r := Ok(if tag == 8 then ListOf(t) else if tag == 9 then MapOf(t) else Maybe(t));
    } else if tag == 11 {
      r := GetCallable(c, depth + 1);
    } else if tag == 13 {
      r := GetStruct(c, depth + 1);
    } else {
      r := GetHostAtom(c, tag);
    }
  }

  method GetCallable(c: Cursor, depth: nat) returns (r: Result<HostType>)
    requires c.Valid() && 1 <= depth <= MAX_HOST_DEPTH
    modifies c`offset, c`items, c`nodes, c`props
    ensures c.Valid() && Did(ReadCallable(depth, old(c.State())), r, c.State())
    decreases MAX_HOST_DEPTH - depth, 2
  {
    hide ReadProps, ReadHost, ReadHosts;
    var n :- GetProps(c);
    var ts :- GetHosts(c, n, depth);
    var t :- GetHost(c, depth);
    r := Ok(Function(ts, t));
  }

  method GetStruct(c: Cursor, depth: nat) returns (r: Result<HostType>)
    requires c.Valid() && 1 <= depth <= MAX_HOST_DEPTH
    modifies c`offset, c`items, c`nodes, c`props
    ensures c.Valid() && Did(ReadStruct(depth, old(c.State())), r, c.State())
    decreases MAX_HOST_DEPTH - depth, 2
  {
    hide ReadBounded, ReadProps, ReadHostFields;
    var x :- c.GetBounded(MAX_NAME);
    var n :- GetProps(c);
    var fs :- GetHostFields(c, n, depth);
    r := Ok(Struct(x, fs));
  }

  method GetHosts(c: Cursor, n: nat, depth: nat) returns (r: Result<seq<HostType>>)
    requires c.Valid() && depth <= MAX_HOST_DEPTH
    modifies c`offset, c`items, c`nodes, c`props
    ensures c.Valid() && Did(ReadHosts(n, depth, old(c.State())), r, c.State())
    decreases MAX_HOST_DEPTH - depth, 1
  {
    hide ReadHost;
    ghost var s := c.State();
    var xs: seq<HostType> := [];
    AheadNone(ReadHosts(n, depth, s));
    for i := 0 to n
      invariant c.Valid() && ReadHosts(n, depth, s) == Ahead(xs, ReadHosts(n - i, depth, c.State()))
    {
      var x :- GetHost(c, depth);
      AheadOne(xs, x, ReadHosts(n - i - 1, depth, c.State()));
      xs := xs + [x];
    }
    AheadAll(xs, c.State());
    r := Ok(xs);
  }

  method GetHostFields(c: Cursor, n: nat, depth: nat) returns (r: Result<seq<HostField>>)
    requires c.Valid() && depth <= MAX_HOST_DEPTH
    modifies c`offset, c`items, c`nodes, c`props
    ensures c.Valid() && Did(ReadHostFields(n, depth, old(c.State())), r, c.State())
    decreases MAX_HOST_DEPTH - depth, 1
  {
    hide ReadBounded, ReadHost, Room, FitsHostFields, FitsHost, PutHostFields, PutHost;
    ghost var s := c.State();
    var xs: seq<HostField> := [];
    AheadNone(ReadHostFields(n, depth, s));
    for i := 0 to n
      invariant c.Valid() && ReadHostFields(n, depth, s) == Ahead(xs, ReadHostFields(n - i, depth, c.State()))
    {
      var name :- c.GetBounded(MAX_NAME);
      var t :- GetHost(c, depth);
      AheadOne(xs, HostField(name, t), ReadHostFields(n - i - 1, depth, c.State()));
      xs := xs + [HostField(name, t)];
    }
    AheadAll(xs, c.State());
    r := Ok(xs);
  }
}
