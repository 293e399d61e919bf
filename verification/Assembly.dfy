/** The assembler's state and calls, with the discipline that makes the finished program acceptable to the validator. */
module Assembly {
  import opened Bytes
  import opened Wire
  import opened Bytecode
  import opened Programs
  import opened Interning
  import opened Patching
  import opened Validator
  import opened DebugLines
  import Constants

  datatype AssemblerError = DuplicateLabel(name: Str) | UnknownLabel(name: Str)
  datatype Assemble<T> = Done(value: T) | Failed(error: AssemblerError)

  const WRAP := 0x1_0000_0000

  /** A table maps exactly the pool's values of its kind to their first index, as a 32-bit number. */
  ghost predicate Agrees<K(!new)>(table: map<K, u32>, wrap: K -> Constants.Value, pool: seq<Constants.Value>) {
    && (forall k: K :: k in table <==> wrap(k) in pool)
    && (forall k <- table :: table[k] == FirstIndex(pool, wrap(k)) % WRAP)
  }

  function AnInt(n: i64): Constants.Value { Constants.Int(n) }
  function AFloat(n: u64): Constants.Value { Constants.Float(n) }
  function ABool(b: bool): Constants.Value { Constants.Bool(b) }
  function AText(x: Str): Constants.Value { Constants.Text(x) }
  function ABlob(x: seq<u8>): Constants.Value { Constants.Blob(x) }

  class Assembler {
    var code: seq<u8>
    var constants: seq<Constants.Value>
    var ints: map<i64, u32>
    var floats: map<u64, u32>
    var bools: map<bool, u32>
    var texts: map<Str, u32>
    var blobs: map<seq<u8>, u32>
    var labels: map<Str, u32>
    var fixups: seq<Fixup>
    const debug: DebugInfoBuilder

    ghost predicate Tables()
      reads this
    {
      && Agrees(ints, AnInt, constants) && Agrees(floats, AFloat, constants) && Agrees(bools, ABool, constants)
      && Agrees(texts, AText, constants) && Agrees(blobs, ABlob, constants)
    }

    ghost predicate Valid()
      reads this, debug
    {
      InOrder(fixups, |code|) && Tables() && Unique(constants) && debug.Valid() && Marked()
    }

    /** Marks were made in code order, none beyond the end. */
    ghost predicate Marked()
      reads this, debug
    {
      |code| < WRAP ==> Ordered(debug.marks) && forall m <- debug.marks :: m.offset <= |code|
    }

    /** Everything so far branches by label, loads pool constants and makes no direct call. */
    ghost predicate Disciplined()
      reads this
    {
      Tidy(code, |constants|, fixups, labels)
    }

    constructor ()
      ensures Valid() && Disciplined() && code == [] && constants == [] && labels == map[] && fixups == [] && fresh(debug)
    {
      debug := new DebugInfoBuilder();
      code, constants, labels, fixups := [], [], map[], [];
      ints, floats, bools, texts, blobs := map[], map[], map[], map[], map[];
    }

    /** The position, cut to 32 bits. */
    function Position(): u32
      reads this
    {
      |code| % WRAP
    }

    method Label(name: Str) returns (r: Assemble<()>)
      requires Valid()
      modifies this`labels
      ensures Valid()
      ensures name in old(labels) ==> r == Failed(DuplicateLabel(name)) && labels == old(labels)
      ensures name !in old(labels) ==> r == Done(()) && labels == old(labels)[name := Position()]
      ensures old(Disciplined()) && |code| < WRAP ==> Disciplined()
    {
      hide Agrees, Tidy, MarkAll, InOrder, Unique;
      if name in labels {
        return Failed(DuplicateLabel(name));
      }
      if Disciplined() && |code| < WRAP {
        assert Position() == |code|;
        TidyLabel(code, |constants|, fixups, labels, name);
      }
      labels := labels[name := Position()];
      r := Done(());
    }

    method SetSource(text: Str)
      requires Valid()
      modifies debug`source
      ensures Valid() && debug.source == Some(text)
    {
      debug.SetSource(text);
    }

    method AddFunction(name: Str, args: seq<Str>)
      requires Valid()
      modifies debug`functions
      ensures Valid() && debug.functions == old(debug.functions) + [DebugFunction(name, Args(args, 0))]
    {
      debug.AddFunction(name, args);
    }

    method AddLocal(name: Str, index: u8, first: Option<u32>, last: Option<u32>)
      requires Valid()
      modifies debug`locals, debug`declared
      ensures Valid() && debug.declared == old(debug.declared) + [Local(name, index, first, last)]
    {
      debug.AddLocal(name, index, first, last);
    }

    method MarkLine(line: u32)
      requires Valid()
      modifies debug`lines, debug`lastOffset, debug`marks
      ensures Valid() && debug.marks == old(debug.marks) + [Line(Position(), line)]
    {
      debug.MarkLine(Position(), line);
    }

    /** While the code stays below 2^32 bytes, a lookup finds the last mark made at or before an offset. */
    method LineAt(offset: u32) returns (r: Option<u32>)
      requires Valid() && |code| < WRAP
      ensures r == Latest(debug.marks, offset)
    {
      r := debug.Lookup(offset);
    }

    /** Every instruction that is one opcode byte. */
    method Simple(op: u8)
      requires Valid() && Opcode(op) && OperandLen(op) == 0
      modifies this`code
      ensures Valid() && code == old(code) + [op]
      ensures old(Disciplined()) ==> Disciplined()
    {
      if Disciplined() {
        TidyAppend(code, |constants|, fixups, labels, [op]);
      }
      code := code + [op];
    }

    /** Loads, stores and calls of values take one operand byte. */
    method WithByte(op: u8, operand: u8)
      requires Valid() && (op == LDLOC || op == STLOC || op == CALL_VALUE)
      modifies this`code
      ensures Valid() && code == old(code) + [op, operand]
      ensures old(Disciplined()) ==> Disciplined()
    {
      if Disciplined() {
        TidyAppend(code, |constants|, fixups, labels, [op, operand]);
      }
      code := code + [op];
      code := code + [operand];
      assert code == old(code) + [op, operand];
    }

    method Ldc(index: u32)
      requires Valid()
      modifies this`code
      ensures Valid() && code == old(code) + [LDC] + LE(index, 4)
      ensures old(Disciplined()) && index < |constants| ==> Disciplined()
    {
      hide Tidy, LE, Agrees;
      if Disciplined() && index < |constants| {
        TidyLdc(code, |constants|, fixups, labels, index);
      }
      code := code + [LDC];
      code := code + LE(index, 4);
    }

    /** `br` and `brfalse` with a fixed target. */
    method BranchTo(op: u8, target: u32)
      requires Valid() && Branch(op)
      modifies this`code
      ensures Valid() && code == old(code) + [op] + LE(target, 4)
    {
      code := code + [op];
      code := code + LE(target, 4);
    }

    /** `br_label` and `brfalse_label`. */
    method BranchLabel(op: u8, name: Str)
      requires Valid() && Branch(op)
      modifies this`code, this`fixups
      ensures Valid() && code == old(code) + [op] + LE(0, 4) && fixups == old(fixups) + [Fixup(|old(code)| + 1, name)]
      ensures old(Disciplined()) ==> Disciplined()
    {
      hide Tidy, Agrees, LE;
      if Disciplined() {
        TidyBranch(code, |constants|, fixups, labels, op, name);
      }
      code := code + [op];
      var at := |code|;
      code := code + LE(0, 4);
      fixups := fixups + [Fixup(at, name)];
    }

    method Call(index: u16, argc: u8)
      requires Valid()
      modifies this`code
      ensures Valid() && code == old(code) + [CALL] + LE(index, 2) + [argc]
    {
      code := code + [CALL];
      code := code + LE(index, 2);
      code := code + [argc];
    }

    method CallScript(id: u32, argc: u8)
      requires Valid()
      modifies this`code
      ensures Valid() && code == old(code) + [CALL_SCRIPT] + LE(id, 4) + [argc]
    {
      code := code + [CALL_SCRIPT];
      code := code + LE(id, 4);
      code := code + [argc];
    }

    /** Where a shared value already is, by its kind's table. */
    method Lookup(v: Constants.Value) returns (o: Option<u32>)
      requires Valid()
      ensures o.Some? <==> Shared(v) && v in constants
      ensures o.Some? ==> o.value == FirstIndex(constants, v) % WRAP
    {
      hide FirstIndex, Unique;
      match v {
        case Int(n) => assert AnInt(n) == v; if n in ints { return Some(ints[n]); }
        case Float(n) => assert AFloat(n) == v; if n in floats { return Some(floats[n]); }
        case Bool(b) => assert ABool(b) == v; if b in bools { return Some(bools[b]); }
        case Text(x) => assert AText(x) == v; if x in texts { return Some(texts[x]); }
        case Blob(x) => assert ABlob(x) == v; if x in blobs { return Some(blobs[x]); }
        case _ =>
      }
      o := None;
    }

    /** The index is that of the value in the pool, cut to 32 bits; only values of shared kinds are looked up. */
    method AddConstant(v: Constants.Value) returns (index: u32)
      requires Valid()
      modifies this`constants, this`ints, this`floats, this`bools, this`texts, this`blobs
      ensures Valid()
      ensures constants == Intern(old(constants), v) && index == IndexFor(old(constants), v) % WRAP
      ensures old(Disciplined()) ==> Disciplined()
    {
      hide Tidy, FirstIndex, Unique, Agrees, MarkAll, InOrder;
      var known := Lookup(v);
      if known.Some? {
        return known.value;
      }
      index := |constants| % WRAP;
      if Disciplined() {
        TidyPool(code, |constants|, |constants| + 1, fixups, labels);
      }
      NewConstant(constants, v);
      TablesOn(v, index);
      constants := constants + [v];
      match v {
        case Int(n) => ints := ints[n := index];
        case Float(n) => floats := floats[n := index];
        case Bool(b) => bools := bools[b := index];
        case Text(x) => texts := texts[x := index];
        case Blob(x) => blobs := blobs[x := index];
        case _ =>
      }
    }

    lemma TablesOn(v: Constants.Value, index: u32)
      requires Tables() && index == |constants| % WRAP && (Shared(v) ==> v !in constants)
      ensures Agrees(if v.Int? then ints[v.i := index] else ints, AnInt, constants + [v])
      ensures Agrees(if v.Float? then floats[v.bits := index] else floats, AFloat, constants + [v])
      ensures Agrees(if v.Bool? then bools[v.flag := index] else bools, ABool, constants + [v])
      ensures Agrees(if v.Text? then texts[v.text := index] else texts, AText, constants + [v])
      ensures Agrees(if v.Blob? then blobs[v.data := index] else blobs, ABlob, constants + [v])
    {
      hide Agrees;
      if v.Int? { AgreesAdded(ints, AnInt, constants, v.i, index); } else { AgreesKept(ints, AnInt, constants, v); }
      if v.Float? { AgreesAdded(floats, AFloat, constants, v.bits, index); } else { AgreesKept(floats, AFloat, constants, v); }
      if v.Bool? { AgreesAdded(bools, ABool, constants, v.flag, index); } else { AgreesKept(bools, ABool, constants, v); }
      if v.Text? { AgreesAdded(texts, AText, constants, v.text, index); } else { AgreesKept(texts, AText, constants, v); }
      if v.Blob? { AgreesAdded(blobs, ABlob, constants, v.data, index); } else { AgreesKept(blobs, ABlob, constants, v); }
    }

    method PushConst(v: Constants.Value) returns (index: u32)
      requires Valid()
      modifies this`code, this`constants, this`ints, this`floats, this`bools, this`texts, this`blobs
      ensures Valid()
      ensures constants == Intern(old(constants), v) && index == IndexFor(old(constants), v) % WRAP
      ensures code == old(code) + [LDC] + LE(index, 4)
      ensures old(Disciplined()) && |constants| <= WRAP ==> Disciplined()
    {
      hide Tidy, LE, Tables;
      assert constants == Intern(constants, v) || Intern(constants, v) == constants + [v];
      index := AddConstant(v);
      Ldc(index);
    }

    /** `finish_program`: patches every fixup, or reports the first whose label is unknown. */
    method FinishProgram() returns (r: Assemble<Program>)
      requires Valid()
      modifies this`code
      ensures r.Done? <==> forall f <- fixups :: f.name in labels
      ensures r.Done? ==> r.value == Assembled(constants, code, debug.Info()) && Patched(old(code), code, fixups, labels)
      ensures r.Failed? ==> exists i | 0 <= i < |fixups| ::
                fixups[i].name !in labels && r.error == UnknownLabel(fixups[i].name) && forall k | 0 <= k < i :: fixups[k].name in labels
      ensures r.Done? && old(Disciplined()) ==>
                forall env :: Accepts(r.value, env) <==> forall f <- fixups :: labels[f.name] < |code|
    {
      hide Tidy, LE, Accepts, InferLocals, Agrees, Unique;
      ghost var before := code;
      for i := 0 to |fixups|
        invariant Patched(before, code, fixups[..i], labels)
        invariant forall k | 0 <= k < i :: fixups[k].name in labels
      {
        var f := fixups[i];
        if f.name !in labels {
          return Failed(UnknownLabel(f.name));
        }
        PatchOne(before, code, fixups, i, labels);
        code := code[..f.at] + LE(labels[f.name], 4) + code[f.at + 4..];
      }
      assert fixups[..|fixups|] == fixups;
      var info := debug.Finish();
      r := Done(Assembled(constants, code, info));
      if old(Disciplined()) {
        forall env ensures Accepts(r.value, env) <==> forall f <- fixups :: labels[f.name] < |code| {
          AssembledAccepted(constants, before, code, fixups, labels, info, env);
        }
      }
    }
  }

  lemma NewConstant(pool: seq<Constants.Value>, v: Constants.Value)
    requires Unique(pool) && !(Shared(v) && v in pool)
    ensures Unique(pool + [v]) && Intern(pool, v) == pool + [v] && IndexFor(pool, v) == |pool|
  {
  }

  /** Adding a value leaves the tables of other kinds as they are. */
  lemma AgreesKept<K(!new)>(table: map<K, u32>, wrap: K -> Constants.Value, pool: seq<Constants.Value>, v: Constants.Value)
    requires Agrees(table, wrap, pool) && forall k :: wrap(k) != v
    ensures Agrees(table, wrap, pool + [v])
  {
    forall k <- table ensures FirstIndex(pool + [v], wrap(k)) == FirstIndex(pool, wrap(k)) { FirstIndexGrows(pool, v, wrap(k)); }
  }

  lemma AgreesAdded<K(!new)>(table: map<K, u32>, wrap: K -> Constants.Value, pool: seq<Constants.Value>, k: K, index: u32)
    requires Agrees(table, wrap, pool) && index == |pool| % WRAP && wrap(k) !in pool
    requires forall j :: wrap(j) == wrap(k) ==> j == k
    ensures Agrees(table[k := index], wrap, pool + [wrap(k)])
  {
    FirstIndexGrows(pool, wrap(k), wrap(k));
    forall j <- table ensures FirstIndex(pool + [wrap(k)], wrap(j)) == FirstIndex(pool, wrap(j)) { FirstIndexGrows(pool, wrap(k), wrap(j)); }
  }

  lemma PatchOne(before: seq<u8>, code: seq<u8>, fs: seq<Fixup>, i: nat, labels: map<Str, u32>)
    requires i < |fs| && InOrder(fs, |before|) && Patched(before, code, fs[..i], labels) && fs[i].name in labels
    ensures Patched(before, code[..fs[i].at] + LE(labels[fs[i].name], 4) + code[fs[i].at + 4..], fs[..i + 1], labels)
  {
    hide LE;
    var f, x := fs[i], LE(labels[fs[i].name], 4);
    var out := code[..f.at] + x + code[f.at + 4..];
    forall g <- fs[..i + 1]
      ensures g.at + 4 <= |before| && g.name in labels && out[g.at..g.at + 4] == LE(labels[g.name], 4)
    {
      PatchedThere(code, fs, i, x, g, |before|);
    }
    forall k | 0 <= k < |before| && (forall g <- fs[..i + 1] :: !Covers(g, k)) ensures out[k] == before[k] {
      assert fs[i] in fs[..i + 1];
      assert !Covers(f, k);
      forall g <- fs[..i] ensures !Covers(g, k) { assert g in fs[..i + 1]; }
    }
  }

  /** Writing one fixup's word leaves the earlier ones alone. */
  lemma PatchedThere(code: seq<u8>, fs: seq<Fixup>, i: nat, x: seq<u8>, g: Fixup, size: nat)
    requires i < |fs| && InOrder(fs, size) && |code| == size && |x| == 4 && g in fs[..i + 1]
    ensures var out := code[..fs[i].at] + x + code[fs[i].at + 4..];
            if g == fs[i] then out[g.at..g.at + 4] == x else g in fs[..i] && out[g.at..g.at + 4] == code[g.at..g.at + 4]
  {
    var out := code[..fs[i].at] + x + code[fs[i].at + 4..];
    var k :| 0 <= k < i + 1 && fs[k] == g;
    if g == fs[i] {
      assert out[g.at..g.at + 4] == x;
    } else {
      assert fs[..i][k] == g;
      assert out[g.at..g.at + 4] == code[g.at..g.at + 4];
    }
  }
}
