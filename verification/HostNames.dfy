/** The grammar of host function names and struct identifiers, which function names join by two colons. */
module HostNames {
  import opened Bytes

  const COLON: u8 := 58

  predicate IdentStart(b: u8) { 65 <= b <= 90 || 97 <= b <= 122 || b == 95 }
  predicate IdentChar(b: u8) { IdentStart(b) || 48 <= b <= 57 }

  predicate Ident(x: Str) {
    x != [] && IdentStart(x[0]) && forall b <- x :: IdentChar(b)
  }

  /** The length of the part of `x` before its first `::`. */
  function SegmentLen(x: Str): (n: nat)
    ensures n <= |x|
    ensures n < |x| ==> n + 1 < |x| && x[n] == COLON && x[n + 1] == COLON
  {
    if x == [] || (|x| >= 2 && x[0] == COLON && x[1] == COLON) then 0 else 1 + SegmentLen(x[1..])
  }

  /** `split("::")`. */
  function Segments(x: Str): (r: seq<Str>)
    ensures r != []
  {
    var n := SegmentLen(x);
    if n == |x| then [x] else [x[..n]] + Segments(x[n + 2..])
  }

  /** `validate_function_name`: identifiers joined by `::`, at most 128 bytes. */
  predicate FunctionName(x: Str) {
    0 < |x| <= MAX_NAME && forall seg <- Segments(x) :: Ident(seg)
  }

  /** `validate_struct_ident`. */
  predicate StructIdent(x: Str) {
    |x| <= MAX_NAME && Ident(x)
  }
}
