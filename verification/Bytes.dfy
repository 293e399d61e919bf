/** Fixed-width integers, little-endian encodings, UTF-8 validity and byte-string order. */
module Bytes {
  type u8 = x: int | 0 <= x < 0x100
  type u16 = x: int | 0 <= x < 0x1_0000
  type u32 = x: int | 0 <= x < 0x1_0000_0000
  type u64 = x: int | 0 <= x < 0x1_0000_0000_0000_0000
  type i64 = x: int | -0x8000_0000_0000_0000 <= x < 0x8000_0000_0000_0000
  type Str = seq<u8>

  /** The limit on names of functions, parameters and structs and on resource keys. */
  const MAX_NAME: nat := 128

  function Pow256(n: nat): (r: nat)
    ensures r > 0
  {
    if n == 0 then 1 else 256 * Pow256(n - 1)
  }

  /** The `n` little-endian bytes of `v`, truncating what does not fit. */
  function LE(v: nat, n: nat): (r: seq<u8>)
    ensures |r| == n
    decreases n
  {
    if n == 0 then [] else [v % 256] + LE(v / 256, n - 1)
  }

  function FromLE(s: seq<u8>): (r: nat)
    ensures r < Pow256(|s|)
  {
    if s == [] then 0 else s[0] + 256 * FromLE(s[1..])
  }

  lemma {:induction false} LERoundTrip(v: nat, n: nat)
    requires v < Pow256(n)
    ensures FromLE(LE(v, n)) == v
    decreases n
  {
    if n > 0 {
      assert v / 256 < Pow256(n - 1);
      LERoundTrip(v / 256, n - 1);
      assert LE(v, n)[1..] == LE(v / 256, n - 1);
    }
  }

  lemma {:induction false} LEOfFromLE(s: seq<u8>)
    ensures LE(FromLE(s), |s|) == s
    decreases |s|
  {
    if s != [] {
      LEOfFromLE(s[1..]);
      assert FromLE(s) / 256 == FromLE(s[1..]);
    }
  }

  /** Splitting an encoded integer from what follows it. */
  lemma LEInjective(v: nat, w: nat, n: nat, x: seq<u8>, y: seq<u8>)
    requires v < Pow256(n) && w < Pow256(n)
    requires LE(v, n) + x == LE(w, n) + y
    ensures v == w && x == y
  {
    assert (LE(v, n) + x)[..n] == LE(v, n) && (LE(w, n) + y)[..n] == LE(w, n);
    assert (LE(v, n) + x)[n..] == x && (LE(w, n) + y)[n..] == y;
    LERoundTrip(v, n);
    LERoundTrip(w, n);
  }

  lemma Widths()
    ensures Pow256(1) == 0x100 && Pow256(2) == 0x1_0000
    ensures Pow256(4) == 0x1_0000_0000 && Pow256(8) == 0x1_0000_0000_0000_0000
  {
    assert Pow256(3) == 256 * Pow256(2);
    assert Pow256(5) == 256 * Pow256(4);
    assert Pow256(6) == 256 * Pow256(5);
    assert Pow256(7) == 256 * Pow256(6);
  }

  /** Two's complement of a signed 64-bit integer. */
  function ToBits(v: i64): u64 {
    if v < 0 then v + 0x1_0000_0000_0000_0000 else v
  }

  function FromBits(b: u64): (v: i64)
    ensures ToBits(v) == b
  {
    if b < 0x8000_0000_0000_0000 then b else b - 0x1_0000_0000_0000_0000
  }

  predicate Continuation(b: u8) { 0x80 <= b <= 0xBF }

  /** The number of bytes of the scalar value at the start of `s`, or 0 when there is none (section 4 of RFC 3629). */
  function Utf8Head(s: Str): (n: nat)
    ensures n <= |s|
  {
    if s == [] then 0
    else if s[0] <= 0x7F then 1
    else if |s| >= 2 && 0xC2 <= s[0] <= 0xDF && Continuation(s[1]) then 2
    else if |s| >= 3 && Continuation(s[1]) && Continuation(s[2])
              && (0xE1 <= s[0] <= 0xEC || 0xEE <= s[0] <= 0xEF || (s[0] == 0xE0 && s[1] >= 0xA0) || (s[0] == 0xED && s[1] <= 0x9F)) then 3
    else if |s| >= 4 && Continuation(s[1]) && Continuation(s[2]) && Continuation(s[3])
              && (0xF1 <= s[0] <= 0xF3 || (s[0] == 0xF0 && s[1] >= 0x90) || (s[0] == 0xF4 && s[1] <= 0x8F)) then 4
    else 0
  }

  predicate Utf8(s: Str) {
    s == [] || (Utf8Head(s) > 0 && Utf8(s[Utf8Head(s)..]))
  }

  /** Bytewise lexicographic order, as Rust compares strings and byte vectors. */
  predicate Less(a: Str, b: Str) {
    b != [] && (a == [] || a[0] < b[0] || (a[0] == b[0] && Less(a[1..], b[1..])))
  }
}
