/** Name and key loops. */
module NameChecks {
  import opened Bytes
  import opened ResourceKeys
  import opened HostNames

  datatype KeyVerdict = KeyFine | KeyEmpty | KeyTooLong(len: nat) | KeyBadChar(index: nat) | KeyBadDot(index: nat)

  /** A dot here, or the end of the key, closes an empty segment. */
  predicate EmptySegment(key: Str, i: nat) {
    && i <= |key| && (i < |key| ==> key[i] == DOT)
    && (i == 0 || key[i - 1] == DOT)
  }

  /** `validate_resource_key`: characters first, then dots; the index is that of the first offender. */
  method ValidateResourceKey(key: Str) returns (r: KeyVerdict)
    ensures r.KeyFine? <==> KeyOk(key)
    ensures r.KeyBadChar? ==> r.index < |key| && !KeyChar(key[r.index]) && key[r.index] != DOT && forall k | 0 <= k < r.index :: KeyChar(key[k]) || key[k] == DOT
    ensures r.KeyBadDot? ==> EmptySegment(key, r.index) && forall k | 0 <= k < r.index :: !EmptySegment(key, k)
  {
    if key == [] {
      return KeyEmpty;
    }
    if |key| > MAX_NAME {
      return KeyTooLong(|key|);
    }
    for i := 0 to |key|
      invariant forall k | 0 <= k < i :: KeyChar(key[k]) || key[k] == DOT
    {
      if !(KeyChar(key[i]) || key[i] == DOT) {
        return KeyBadChar(i);
      }
    }
    var start := 0;
    for i := 0 to |key|
      invariant start <= i && (start == 0 || key[start - 1] == DOT) && forall k | start <= k < i :: key[k] != DOT
      invariant forall k | 0 <= k < i :: !EmptySegment(key, k)
    {
      if key[i] == DOT {
        if i == start {
          assert EmptySegment(key, i);
          return KeyBadDot(i);
        }
        start := i + 1;
      }
    }
    if start == |key| {
      assert EmptySegment(key, |key|);
      return KeyBadDot(start);
    }
    assert !EmptySegment(key, |key|);
    assert !EmptySegment(key, 0);
    forall i | 0 <= i < |key| - 1 ensures key[i] != DOT || key[i + 1] != DOT { assert !EmptySegment(key, i + 1); }
    r := KeyFine;
  }

  /** `skip_resource_key`: the freestanding decoder checks characters and dots in one pass. */
  method SkipResourceKey(key: Str) returns (ok: bool)
    ensures ok <==> KeyOk(key)
  {
    if key == [] || |key| > MAX_NAME {
      return false;
    }
    var start := 0;
    for i := 0 to |key|
      invariant start <= i && (start == 0 || key[start - 1] == DOT) && forall k | start <= k < i :: key[k] != DOT
      invariant forall k | 0 <= k < i :: (KeyChar(key[k]) || key[k] == DOT) && !EmptySegment(key, k)
    {
      if !(KeyChar(key[i]) || key[i] == DOT) {
        return false;
      }
      if key[i] == DOT {
        if i == start {
          return false;
        }
        start := i + 1;
      }
    }
    assert start == |key| <==> EmptySegment(key, |key|);
    assert !EmptySegment(key, 0);
    forall i | 0 <= i < |key| - 1 ensures key[i] != DOT || key[i + 1] != DOT { assert !EmptySegment(key, i + 1); }
    ok := start != |key|;
  }

  datatype NameVerdict = NameFine | NameEmpty | NameTooLong(len: nat) | NameBadChar(index: nat) | NameEmptySegment(index: nat)

  predicate NameByte(b: u8) { IdentChar(b) || b == COLON }

  lemma {:induction false} SegmentBytes(x: Str)
    requires forall seg <- Segments(x) :: Ident(seg)
    ensures forall b <- x :: NameByte(b)
    decreases |x|
  {
    var n := SegmentLen(x);
    assert Segments(x)[0] in Segments(x);
    if n < |x| {
      var rest := x[n + 2..];
      forall seg <- Segments(rest) ensures Ident(seg) { assert seg in Segments(x); }
      SegmentBytes(rest);
      assert x == x[..n] + [COLON, COLON] + rest;
    }
  }

  /** Where the segment `k` begins: after the earlier ones and a `::` behind each. */
  function SegmentStart(segs: seq<Str>, k: nat): nat
    requires k <= |segs|
  {
    if k == 0 then 0 else |segs[0]| + 2 + SegmentStart(segs[1..], k - 1)
  }

  lemma SegmentsSplit(x: Str)
    ensures var n := SegmentLen(x);
            if n == |x| then Segments(x) == [x] else Segments(x) == [x[..n]] + Segments(x[n + 2..])
  {
  }

  lemma SliceOfRest(x: Str, a: nat, at: nat, len: nat)
    requires a + at + len <= |x|
    ensures x[a..][at..at + len] == x[a + at..a + at + len]
  {
  }

  lemma StartAfter(seg: Str, segs: seq<Str>, k: nat)
    requires 0 < k <= |segs| + 1
    ensures SegmentStart([seg] + segs, k) == |seg| + 2 + SegmentStart(segs, k - 1)
  {
    assert ([seg] + segs)[1..] == segs;
  }

  /** Segments are where they begin. */
  lemma {:induction false} SegmentPlace(x: Str, k: nat)
    requires k < |Segments(x)|
    ensures var at, seg := SegmentStart(Segments(x), k), Segments(x)[k]; at + |seg| <= |x| && x[at..at + |seg|] == seg
    decreases |x|
  {
    hide Segments, SegmentStart, SegmentLen;
    var n := SegmentLen(x);
    SegmentsSplit(x);
    if k == 0 {
      StartZero(Segments(x));
      assert x[0..|x|] == x;
    } else {
      var rest := x[n + 2..];
      SegmentPlace(rest, k - 1);
      StartAfter(x[..n], Segments(rest), k);
      SliceOfRest(x, n + 2, SegmentStart(Segments(rest), k - 1), |Segments(rest)[k - 1]|);
    }
  }

  lemma {:induction false} StartNext(segs: seq<Str>, k: nat)
    requires k < |segs|
    ensures SegmentStart(segs, k + 1) == SegmentStart(segs, k) + |segs[k]| + 2
  {
    if k > 0 { StartNext(segs[1..], k - 1); }
  }

  /** The segment `k` is the first that is not an identifier. */
  predicate FirstBad(segs: seq<Str>, k: nat) { k < |segs| && !Ident(segs[k]) && forall j | 0 <= j < k :: Ident(segs[j]) }

  /** The byte at `index` is the first in its segment that does not belong there, and its segment the first with one. */
  ghost predicate StrayAt(name: Str, index: nat) {
    exists k: nat, j: nat ::
      && FirstBad(Segments(name), k) && j < |Segments(name)[k]| && index == SegmentStart(Segments(name), k) + j
      && StrayIn(Segments(name)[k], j)
  }

  predicate StrayIn(seg: Str, j: nat) {
    j < |seg| && (forall i | 0 <= i < j :: IdentChar(seg[i])) && if j == 0 then !IdentStart(seg[0]) else IdentStart(seg[0]) && !IdentChar(seg[j])
  }

  /** What a verdict says is wrong with a name is wrong with it, and nothing checked before it is. */
  ghost predicate Faulty(name: Str, r: NameVerdict) {
    match r
    case NameFine => false
    case NameEmpty => name == []
    case NameTooLong(n) => n == |name| > MAX_NAME
    case NameBadChar(i) =>
      && i < |name| <= MAX_NAME
      && if NameByte(name[i]) then (forall b <- name :: NameByte(b)) && StrayAt(name, i) else forall k | 0 <= k < i :: NameByte(name[k])
    case NameEmptySegment(i) =>
      && 0 < |name| <= MAX_NAME && (forall b <- name :: NameByte(b))
      && exists k: nat :: FirstBad(Segments(name), k) && Segments(name)[k] == [] && i == SegmentStart(Segments(name), k)
  }

  /** `validate_function_name`: bytes first, then the `::`-separated segments; a fault is the first in that order. */
  method ValidateFunctionName(name: Str) returns (r: NameVerdict)
    ensures r.NameFine? <==> FunctionName(name)
    ensures !r.NameFine? ==> Faulty(name, r)
  {
    hide Segments, SegmentStart;
    if name == [] {
      return NameEmpty;
    }
    if |name| > MAX_NAME {
      return NameTooLong(|name|);
    }
    for i := 0 to |name|
      invariant forall k | 0 <= k < i :: NameByte(name[k])
    {
      if !NameByte(name[i]) {
        if FunctionName(name) { SegmentBytes(name); }
        return NameBadChar(i);
      }
    }
    var segments := Segments(name);
    var cursor: nat := 0;
    StartZero(segments);
    for i := 0 to |segments|
      invariant cursor == SegmentStart(segments, i)
      invariant forall k | 0 <= k < i :: Ident(segments[k])
    {
      var seg := segments[i];
      assert seg in segments;
      SegmentPlace(name, i);
      if seg == [] {
        assert FirstBad(segments, i);
        return NameEmptySegment(cursor);
      }
      if !IdentStart(seg[0]) {
        assert FirstBad(segments, i) && StrayIn(seg, 0) && name[cursor..cursor + |seg|][0] == name[cursor];
        return NameBadChar(cursor);
      }
      for j := 0 to |seg|
        invariant forall k | 0 <= k < j :: IdentChar(seg[k])
      {
        if !IdentChar(seg[j]) {
          assert FirstBad(segments, i) && StrayIn(seg, j) && name[cursor..cursor + |seg|][j] == name[cursor + j];
          return NameBadChar(cursor + j);
        }
      }
      StartNext(segments, i);
      cursor := cursor + |seg| + 2;
    }
    r := NameFine;
  }

  lemma StartZero(segs: seq<Str>)
    ensures SegmentStart(segs, 0) == 0
  {
  }
}
