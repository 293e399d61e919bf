/** The writer: bytes pushed to the end of one buffer, in little-endian order, with lengths that must fit 32 bits. */
module Writers {
  import opened Bytes
  import opened Wire

  /** `out` grew by what `put` puts before `s`: the buffer and what is still to come make up the whole. */
  ghost predicate Grew(before: seq<u8>, after: seq<u8>, put: Cur, s: Cur) { after + s.rest == before + put.rest }

  class Writer {
    var out: seq<u8>

    constructor ()
      ensures out == []
    {
      out := [];
    }

    method Push(x: seq<u8>, ghost s: Cur)
      modifies this
      ensures Grew(old(out), out, PutBytes(x, s), s)
    {
      out := out + x;
    }

    method PushU8(v: u8, ghost s: Cur)
      modifies this
      ensures Grew(old(out), out, PutU8(v, s), s)
    {
      out := out + [v];
    }

    method PushU16(v: u16, ghost s: Cur)
      modifies this
      ensures Grew(old(out), out, PutU16(v, s), s)
    {
      out := out + LE(v, 2);
    }

    method PushU32(v: u32, ghost s: Cur)
      modifies this
      ensures Grew(old(out), out, PutU32(v, s), s)
    {
      out := out + LE(v, 4);
    }

    method PushU64(v: u64, ghost s: Cur)
      modifies this
      ensures Grew(old(out), out, PutU64(v, s), s)
    {
      out := out + LE(v, 8);
    }

    /** A length or count must fit 32 bits. */
    method PushCount(n: nat, ghost s: Cur) returns (r: Result<()>)
      modifies this
      ensures r.Ok? <==> n < 0x1_0000_0000
      ensures r.Ok? ==> Grew(old(out), out, PutCount(n, s), s)
    {
      if n >= 0x1_0000_0000 {
        return Err(LengthTooLarge(n));
      }
      out := out + LE(n, 4);
      r := Ok(());
    }

    method PushBlob(x: seq<u8>, ghost s: Cur) returns (r: Result<()>)
      modifies this
      ensures r.Ok? <==> Short(x)
      ensures r.Ok? ==> Grew(old(out), out, PutBlob(x, s), s)
    {
      if |x| >= 0x1_0000_0000 {
        return Err(LengthTooLarge(|x|));
      }
      out := out + LE(|x|, 4);
      out := out + x;
      r := Ok(());
    }
  }
}
