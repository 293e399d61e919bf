/** The reader's cursor: an offset into the payload and four budgets, updated in place. */
module Cursors {
  import opened Bytes
  import opened Wire

  /** A call that read `r` and left the cursor at `after` did what the reading function says; on failure the cursor may be
      anywhere in the payload. */
  ghost predicate Did<T>(spec: Read<T>, r: Result<T>, after: Cur) {
    match spec
    case Got(v, s) => r == Ok(v) && after == s
    case Fail(e) => r == Err(e)
  }

  /** The same for a call that only steps over what it reads. */
  ghost predicate Passed<T>(spec: Read<T>, r: Result<()>, after: Cur) {
    match spec
    case Got(_, s) => r == Ok(()) && after == s
    case Fail(e) => r == Err(e)
  }

  class Cursor {
    const bytes: seq<u8>
    var offset: nat
    var items: nat
    var nodes: nat
    var props: nat
    var params: nat

    /** The offset stays within the payload. */
    predicate Valid()
      reads this
    {
      offset <= |bytes|
    }

    ghost function State(): Cur
      requires Valid()
      reads this
    {
      Cur(bytes[offset..], Budget(items, nodes, props, params))
    }

    constructor (payload: seq<u8>)
      ensures Valid() && State() == Cur(payload, FullBudget) && bytes == payload && offset == 0
    {
      bytes := payload;
      offset := 0;
      items, nodes, props, params := MAX_ITEMS, MAX_HOST_NODES, MAX_HOST_PROPERTIES, MAX_HOST_PARAMETERS;
    }

    /** The freestanding decoder's cursor: the item budget only. */
    constructor Slim(payload: seq<u8>)
      ensures Valid() && State() == Cur(payload, Budget(MAX_ITEMS, 0, 0, 0)) && bytes == payload && offset == 0
    {
      bytes := payload;
      offset := 0;
      items, nodes, props, params := MAX_ITEMS, 0, 0, 0;
    }

    method GetExact(n: nat) returns (r: Result<seq<u8>>)
      requires Valid()
      modifies this`offset
      ensures Valid() && Did(ReadExact(n, old(State())), r, State())
    {
      if offset + n > |bytes| {
        return Err(UnexpectedEof);
      }
      r := Ok(bytes[offset..offset + n]);
      assert bytes[offset..][..n] == bytes[offset..offset + n];
      offset := offset + n;
    }

    method GetU8() returns (r: Result<u8>)
      requires Valid()
      modifies this`offset
      ensures Valid() && Did(ReadU8(old(State())), r, State())
    {
      if offset >= |bytes| {
        return Err(UnexpectedEof);
      }
      r := Ok(bytes[offset]);
      offset := offset + 1;
    }

    method GetU16() returns (r: Result<u16>)
      requires Valid()
      modifies this`offset
      ensures Valid() && Did(ReadU16(old(State())), r, State())
    {
      var x :- GetExact(2);
      Widths();
      r := Ok(FromLE(x));
    }

    method GetU32() returns (r: Result<u32>)
      requires Valid()
      modifies this`offset
      ensures Valid() && Did(ReadU32(old(State())), r, State())
    {
      var x :- GetExact(4);
      Widths();
      r := Ok(FromLE(x));
    }

    method GetU64() returns (r: Result<u64>)
      requires Valid()
      modifies this`offset
      ensures Valid() && Did(ReadU64(old(State())), r, State())
    {
      var x :- GetExact(8);
      Widths();
      r := Ok(FromLE(x));
    }

    method GetBlob() returns (r: Result<seq<u8>>)
      requires Valid()
      modifies this`offset
      ensures Valid() && Did(ReadBlob(old(State())), r, State())
    {
      hide ReadU32, ReadExact;
      var n :- GetU32();
      if n > MAX_BLOB {
        return Err(LengthTooLarge(n));
      }
      r := GetExact(n);
    }

    method GetString() returns (r: Result<Str>)
      requires Valid()
      modifies this`offset
      ensures Valid() && Did(ReadString(old(State())), r, State())
    {
      hide ReadBlob;
      var x :- GetBlob();
      r := if Utf8(x) then Ok(x) else Err(InvalidUtf8);
    }

    method GetBounded(limit: nat) returns (r: Result<Str>)
      requires Valid()
      modifies this`offset
      ensures Valid() && Did(ReadBounded(limit, old(State())), r, State())
    {
      hide ReadBlob;
      var x :- GetBlob();
      if |x| > limit {
        return Err(LengthTooLarge(|x|));
      }
      r := if Utf8(x) then Ok(x) else Err(InvalidUtf8);
    }

    method DebitCount(n: nat) returns (r: Result<()>)
      requires Valid()
      modifies this`items
      ensures Valid() && Did(Debit(n, old(State())), r, State())
    {
      if n > MAX_COUNT || n > items {
        return Err(LengthTooLarge(n));
      }
      items := items - n;
      r := Ok(());
    }

    method DebitHostNode() returns (r: Result<()>)
      requires Valid()
      modifies this`nodes
      ensures Valid() && Did(DebitNode(old(State())), r, State())
    {
      if nodes == 0 {
        return Err(LengthTooLarge(MAX_HOST_NODES + 1));
      }
      nodes := nodes - 1;
      r := Ok(());
    }

    method DebitHostProperties(n: nat) returns (r: Result<()>)
      requires Valid()
      modifies this`props
      ensures Valid() && Did(DebitProps(n, old(State())), r, State())
    {
      if n > props {
        return Err(LengthTooLarge(n));
      }
      props := props - n;
      r := Ok(());
    }

    method DebitHostParameters(n: nat) returns (r: Result<()>)
      requires Valid()
      modifies this`params
      ensures Valid() && Did(DebitParams(n, old(State())), r, State())
    {
      if n > params {
        return Err(LengthTooLarge(n));
      }
      params := params - n;
      r := Ok(());
    }

    function Remaining(): nat
      requires Valid()
      reads this
    {
      |bytes| - offset
    }

    /** A count is refused when the bytes left cannot hold that many items and what must follow them. */
    method GetCount(min: nat, over: nat) returns (r: Result<nat>)
      requires Valid()
      modifies this`offset, this`items
      ensures Valid() && Did(ReadCount(min, over, old(State())), r, State())
    {
      hide ReadU32, Debit;
      var n :- GetU32();
      if n > MAX_COUNT || n * min + over > Remaining() {
        return Err(LengthTooLarge(n));
      }
      var _ :- DebitCount(n);
      r := Ok(n);
    }

    method GetFrameLocals() returns (r: Result<nat>)
      requires Valid()
      modifies this`offset, this`items
      ensures Valid() && Did(ReadFrameLocals(old(State())), r, State())
    {
      hide ReadU32, Debit;
      var n :- GetU32();
      if n > MAX_FRAME_LOCALS {
        return Err(LengthTooLarge(n));
      }
      var _ :- DebitCount(n);
      r := Ok(n);
    }
  }
}
