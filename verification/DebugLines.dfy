/** Line marks, lookups. */
module DebugLines {
  // `DebugInfoBuilder::mark_line` and the search in `DebugInfo::line_for_offset`.

  import opened Bytes
  import opened Seqs
  import opened Wire
  import opened Programs

  predicate Increasing(ls: seq<Line>) { forall i, j | 0 <= i < j < |ls| :: ls[i].offset < ls[j].offset }

  /** Marks made while the code only grows. */
  predicate Ordered(ms: seq<Line>) { forall i, j | 0 <= i < j < |ms| :: ms[i].offset <= ms[j].offset }

  /** A second mark at the last offset replaces the line. */
  function Mark(ls: seq<Line>, m: Line): seq<Line> {
    if ls != [] && ls[|ls| - 1].offset == m.offset then ls[..|ls| - 1] + [m] else ls + [m]
  }

  function MarkAll(ms: seq<Line>): seq<Line> {
    if ms == [] then [] else Mark(MarkAll(ms[..|ms| - 1]), ms[|ms| - 1])
  }

  /** The line of the most recent mark at or before `offset`. */
  function Latest(ms: seq<Line>, offset: nat): Option<u32> {
    if ms == [] then None
    else if ms[|ms| - 1].offset <= offset then Some(ms[|ms| - 1].line)
    else Latest(ms[..|ms| - 1], offset)
  }

  lemma {:induction false} MarkAllIncreasing(ms: seq<Line>)
    requires Ordered(ms)
    ensures Increasing(MarkAll(ms))
    ensures ms != [] ==> MarkAll(ms) != [] && MarkAll(ms)[|MarkAll(ms)| - 1] == ms[|ms| - 1]
  {
    if ms != [] {
      var before, m := ms[..|ms| - 1], ms[|ms| - 1];
      MarkAllIncreasing(before);
      if before != [] {
        assert before[|before| - 1].offset <= m.offset;
      }
      hide MarkAll, Ordered;
      MarkIncreasing(MarkAll(before), m);
    }
  }

  lemma MarkIncreasing(ls: seq<Line>, m: Line)
    requires Increasing(ls) && (ls != [] ==> ls[|ls| - 1].offset <= m.offset)
    ensures Increasing(Mark(ls, m)) && Mark(ls, m)[|Mark(ls, m)| - 1] == m
  {
  }

  /** Replacing lines loses nothing a lookup could see, in whatever order the marks were made. */
  lemma {:induction false} LatestMarked(ms: seq<Line>, offset: nat)
    ensures Latest(MarkAll(ms), offset) == Latest(ms, offset)
  {
    if ms != [] {
      var ls, m := MarkAll(ms[..|ms| - 1]), ms[|ms| - 1];
      LatestMarked(ms[..|ms| - 1], offset);
      assert Mark(ls, m)[|Mark(ls, m)| - 1] == m;
      if ls != [] && ls[|ls| - 1].offset == m.offset {
        assert Mark(ls, m)[..|ls| - 1] == ls[..|ls| - 1];
      } else {
        assert Mark(ls, m)[..|ls|] == ls;
      }
    }
  }

  lemma {:induction false} LatestIs(ls: seq<Line>, offset: nat, k: nat)
    requires k <= |ls| && (forall i | 0 <= i < k :: ls[i].offset <= offset) && (forall i | k <= i < |ls| :: ls[i].offset > offset)
    ensures Latest(ls, offset) == if k == 0 then None else Some(ls[k - 1].line)
  {
    if ls != [] && k < |ls| {
      LatestIs(ls[..|ls| - 1], offset, k);
    }
  }

  /** `line_for_offset`: a binary search, over the offset cut to 32 bits. */
  method LineForOffset(ls: seq<Line>, offset: nat) returns (r: Option<u32>)
    ensures Increasing(ls) ==> r == Latest(ls, offset % 0x1_0000_0000)
  {
    var cut := offset % 0x1_0000_0000;
    if ls == [] {
      return None;
    }
    var lo, hi := 0, |ls|;
    while lo < hi
      invariant 0 <= lo <= hi <= |ls|
      invariant Increasing(ls) ==> (forall i | 0 <= i < lo :: ls[i].offset <= cut) && (forall i | hi <= i < |ls| :: ls[i].offset > cut)
    {
      var mid := (lo + hi) / 2;
      if ls[mid].offset <= cut {
        lo := mid + 1;
      } else {
        hi := mid;
      }
    }
    r := if lo == 0 then None else Some(ls[lo - 1].line);
    if Increasing(ls) {
      LatestIs(ls, cut, lo);
    }
  }

  // ---------------------------------------------------------------- locals

  function MinLine(a: Option<u32>, b: Option<u32>): Option<u32> {
    if a.None? then b else if b.None? then a else Some(if a.value <= b.value then a.value else b.value)
  }

  function MaxLine(a: Option<u32>, b: Option<u32>): Option<u32> {
    if a.None? then b else if b.None? then a else Some(if a.value >= b.value then a.value else b.value)
  }

  /** A second declaration of a name: the new slot, over both ranges. */
  function Merge(l: Local, d: Local): Local { Local(l.name, d.index, MinLine(l.declared, d.declared), MaxLine(l.last, d.last)) }

  function Find(ls: seq<Local>, name: Str): (o: Option<nat>)
    ensures o.Some? ==> o.value < |ls| && ls[o.value].name == name
    ensures o.None? ==> forall l <- ls :: l.name != name
  {
    if ls == [] then None
    else if ls[0].name == name then Some(0)
    else
      var o := Find(ls[1..], name);
      if o.Some? then Some(o.value + 1) else None
  }

  function Declare(ls: seq<Local>, d: Local): seq<Local> {
    var o := Find(ls, d.name);
    if o.Some? then ls[o.value := Merge(ls[o.value], d)] else ls + [d]
  }

  function DeclareAll(ds: seq<Local>): seq<Local> {
    if ds == [] then [] else Declare(DeclareAll(ds[..|ds| - 1]), ds[|ds| - 1])
  }

  /** Everything declared under a name, as one local: the last slot, over all its ranges. */
  function Named(ds: seq<Local>, name: Str): Option<Local> {
    if ds == [] then None
    else
      var d, before := ds[|ds| - 1], Named(ds[..|ds| - 1], name);
      if d.name != name then before else if before.None? then Some(d) else Some(Merge(before.value, d))
  }

  function LocalName(l: Local): Str { l.name }

  /** The local with a name, which `local_index` looks up. */
  function Held(ls: seq<Local>, name: Str): Option<Local> {
    var o := Find(ls, name);
    if o.Some? then Some(ls[o.value]) else None
  }

  lemma HeldAt(ls: seq<Local>, k: nat)
    requires Distinct(LocalName, ls) && k < |ls|
    ensures Held(ls, ls[k].name) == Some(ls[k])
  {
    assert LocalName(ls[k]) == ls[k].name && ls[k] in ls;
  }

  lemma DeclareOne(ls: seq<Local>, d: Local, name: Str)
    requires Distinct(LocalName, ls)
    ensures Distinct(LocalName, Declare(ls, d))
    ensures Held(Declare(ls, d), name) ==
              if name != d.name then Held(ls, name) else if Held(ls, name).Some? then Some(Merge(Held(ls, name).value, d)) else Some(d)
  {
    var o, rs := Find(ls, d.name), Declare(ls, d);
    assert forall i | 0 <= i < |ls| :: LocalName(rs[i]) == LocalName(ls[i]);
    if o.None? {
      assert forall i | 0 <= i < |ls| :: ls[i] in ls;
    }
    assert Distinct(LocalName, rs);
    if name == d.name {
      HeldAt(rs, if o.Some? then o.value else |ls|);
    } else if Find(ls, name).Some? {
      HeldAt(rs, Find(ls, name).value);
    }
  }

  /** One local for each name declared, with all that was declared under it. */
  lemma {:induction false} DeclaredExactly(ds: seq<Local>, name: Str)
    ensures Distinct(LocalName, DeclareAll(ds)) && Held(DeclareAll(ds), name) == Named(ds, name)
  {
    if ds != [] {
      hide Declare, Held;
      DeclaredExactly(ds[..|ds| - 1], name);
      DeclareOne(DeclareAll(ds[..|ds| - 1]), ds[|ds| - 1], name);
    } else {
      assert DeclareAll(ds) == [];
    }
  }

  /** Its lines bound those of every declaration of the name. */
  lemma {:induction false} NamedCovers(ds: seq<Local>, i: nat)
    requires i < |ds|
    ensures var n := Named(ds, ds[i].name);
            && n.Some? && n.value.name == ds[i].name
            && (ds[i].declared.Some? ==> n.value.declared.Some? && n.value.declared.value <= ds[i].declared.value)
            && (ds[i].last.Some? ==> n.value.last.Some? && n.value.last.value >= ds[i].last.value)
  {
    if i < |ds| - 1 {
      NamedCovers(ds[..|ds| - 1], i);
    } else {
      NamedIs(ds[..|ds| - 1], ds[i].name);
    }
  }

  lemma {:induction false} NamedIs(ds: seq<Local>, name: Str)
    ensures Named(ds, name).Some? ==> Named(ds, name).value.name == name
  {
    if ds != [] { NamedIs(ds[..|ds| - 1], name); }
  }

  /** Positions are counted in one byte. */
  function Args(names: seq<Str>, from: nat): (r: seq<Arg>)
    ensures |r| == |names| && forall i | 0 <= i < |names| :: r[i] == Arg(names[i], (from + i) % 256)
  {
    if names == [] then [] else [Arg(names[0], from % 256)] + Args(names[1..], from + 1)
  }

  class DebugInfoBuilder {
    var source: Option<Str>
    var lines: seq<Line>
    var functions: seq<DebugFunction>
    var locals: seq<Local>
    var lastOffset: Option<u32>
    ghost var marks: seq<Line>
    ghost var declared: seq<Local>

    ghost predicate Valid()
      reads this
    {
      && lines == MarkAll(marks) && locals == DeclareAll(declared)
      && lastOffset == if lines == [] then None else Some(lines[|lines| - 1].offset)
    }

    constructor ()
      ensures Valid() && marks == [] && declared == [] && source == None && functions == []
    {
      source, lines, functions, locals, lastOffset := None, [], [], [], None;
      marks, declared := [], [];
    }

    method SetSource(text: Str)
      requires Valid()
      modifies this`source
      ensures Valid() && source == Some(text)
    {
      source := Some(text);
    }

    method AddFunction(name: Str, args: seq<Str>)
      requires Valid()
      modifies this`functions
      ensures Valid() && functions == old(functions) + [DebugFunction(name, Args(args, 0))]
    {
      functions := functions + [DebugFunction(name, Args(args, 0))];
    }

    /** `add_local_with_range`: by the name, if it is known already. */
    method AddLocal(name: Str, index: u8, first: Option<u32>, last: Option<u32>)
      requires Valid()
      modifies this`locals, this`declared
      ensures Valid() && declared == old(declared) + [Local(name, index, first, last)]
    {
      var d := Local(name, index, first, last);
      var known := Find(locals, name);
      if known.Some? {
        locals := locals[known.value := Merge(locals[known.value], d)];
      } else {
        locals := locals + [d];
      }
      declared := declared + [d];
      assert declared[..|declared| - 1] == old(declared);
    }

    method MarkLine(offset: u32, line: u32)
      requires Valid()
      modifies this`lines, this`lastOffset, this`marks
      ensures Valid() && marks == old(marks) + [Line(offset, line)]
    {
      if lastOffset == Some(offset) {
        lines := lines[|lines| - 1 := Line(offset, line)];
      } else {
        lines := lines + [Line(offset, line)];
        lastOffset := Some(offset);
      }
      marks := marks + [Line(offset, line)];
      assert marks[..|marks| - 1] == old(marks);
      assert lines == Mark(old(lines), Line(offset, line));
    }

    /** After marks made while the code only grew, a lookup finds the most recent mark at or before the offset. */
    method Lookup(offset: u32) returns (r: Option<u32>)
      requires Valid() && Ordered(marks)
      ensures r == Latest(marks, offset)
    {
      MarkAllIncreasing(marks);
      LatestMarked(marks, offset);
      assert offset % 0x1_0000_0000 == offset;
      hide Latest, MarkAll;
      r := LineForOffset(lines, offset);
    }

    /** Everything recorded, or nothing if nothing was. */
    ghost function Info(): Option<DebugInfo>
      reads this
    {
      if source == None && marks == [] && functions == [] && declared == [] then None
      else Some(DebugInfo(source, MarkAll(marks), functions, DeclareAll(declared)))
    }

    method Finish() returns (r: Option<DebugInfo>)
      requires Valid()
      ensures r == Info()
    {
      MarksKept(marks);
      LocalsKept(declared);
      r := if source == None && lines == [] && functions == [] && locals == [] then None else Some(DebugInfo(source, lines, functions, locals));
    }
  }

  lemma MarksKept(ms: seq<Line>)
    ensures MarkAll(ms) == [] <==> ms == []
  {
  }

  lemma LocalsKept(ds: seq<Local>)
    ensures DeclareAll(ds) == [] <==> ds == []
  {
  }
}
