/** Label fixups in code. */
module Patching {
  import opened Bytes
  import opened Seqs
  import opened Wire
  import opened Bytecode
  import opened Programs
  import opened Validator
  import Constants

  datatype Fixup = Fixup(at: nat, name: Str)

  predicate Covers(f: Fixup, k: int) { f.at <= k < f.at + 4 }

  /** Fixups are in code order and do not overlap. */
  predicate InOrder(fs: seq<Fixup>, size: nat) {
    && (forall f <- fs :: f.at + 4 <= size)
    && (forall i, j | 0 <= i < j < |fs| :: fs[i].at + 4 <= fs[j].at)
  }

  /** `out` is `code` with every fixup's word replaced by its label's position. */
  ghost predicate Patched(code: seq<u8>, out: seq<u8>, fs: seq<Fixup>, labels: map<Str, u32>) {
    && |out| == |code|
    && (forall f <- fs :: f.at + 4 <= |code| && f.name in labels && out[f.at..f.at + 4] == LE(labels[f.name], 4))
    && (forall k | 0 <= k < |code| && (forall f <- fs :: !Covers(f, k)) :: out[k] == code[k])
  }

  // ---------------------------------------------------------------- appending and patching keep the starts

  lemma {:induction false} PrefixReaches(code: seq<u8>, more: seq<u8>, from: nat, ip: nat)
    requires ip <= |code|
    ensures Reaches(code, from, ip) <==> Reaches(code + more, from, ip)
    decreases |code| - from
  {
    if from < |code| {
      var next := Next(code, from);
      if Opcode(code[from]) && next <= |code| {
        PrefixReaches(code, more, next, ip);
      } else if from != ip && Reaches(code + more, from, ip) {
        ReachesUp(code + more, next, ip);
      }
    } else if from > ip && Reaches(code + more, from, ip) {
      ReachesUp(code + more, from, ip);
    }
  }

  /** Appending a whole instruction adds one start, where the code ended. */
  lemma AppendStarts(code: seq<u8>, ins: seq<u8>)
    requires WellFormed(code) && ins != [] && Opcode(ins[0]) && |ins| == 1 + OperandLen(ins[0])
    ensures WellFormed(code + ins)
    ensures forall ip: nat :: Start(code + ins, ip) <==> Start(code, ip) || ip == |code|
    ensures forall ip: nat | Boundary(code, ip) :: Boundary(code + ins, ip)
  {
    var out := code + ins;
    forall ip: nat | ip <= |code| ensures Boundary(out, ip) <==> Boundary(code, ip) { PrefixReaches(code, ins, 0, ip); }
    assert out[|code|] == ins[0];
    StepOn(out, |code|);
    forall ip: nat | Boundary(code, ip) ensures ip <= |code| { ReachesUp(code, 0, ip); }
    forall ip: nat | Start(out, ip) && ip > |code| ensures false { NoneBetween(out, |code|, ip); }
  }

  /** Codes with the same opcodes at the starts of one have the same starts. */
  lemma {:induction false} SameStarts(code: seq<u8>, out: seq<u8>, from: nat, ip: nat)
    requires |out| == |code| && Boundary(code, from) && forall k: nat | Start(code, k) :: out[k] == code[k]
    ensures Reaches(code, from, ip) <==> Reaches(out, from, ip)
    decreases |code| - from
  {
    if from < |code| {
      assert Start(code, from);
      if Decodes(code, from) {
        StepOn(code, from);
        SameStarts(code, out, Next(code, from), ip);
      }
    }
  }

  // ---------------------------------------------------------------- code emitted with labels and pool indices only

  /** Whole instructions, none a direct call; constants exist; every branch has a fixup and every fixup is a branch's. */
  ghost predicate Tidy(code: seq<u8>, pool: nat, fs: seq<Fixup>, labels: map<Str, u32>) {
    && WellFormed(code)
    && (forall ip: nat | Start(code, ip) :: Decodes(code, ip) && code[ip] != CALL && code[ip] != CALL_SCRIPT)
    && (forall ip: nat | Start(code, ip) && code[ip] == LDC :: ip + 5 <= |code| && Word(code, ip + 1) < pool)
    && (forall ip: nat | Start(code, ip) && Branch(code[ip]) :: exists f <- fs :: f.at == ip + 1)
    && (forall f <- fs :: f.at > 0 && Start(code, f.at - 1) && Branch(code[f.at - 1]))
    && (forall x <- labels :: Boundary(code, labels[x]))
  }

  /** The program of an assembler that was given only code, constants and debug marks. */
  function Assembled(pool: seq<Constants.Value>, code: seq<u8>, debug: Option<DebugInfo>): Program {
    Program(pool, code, InferLocals(code), [], [], None, debug, Callables([], [], [], [], []), [])
  }

  lemma OpcodesKept(code: seq<u8>, pool: nat, fs: seq<Fixup>, labels: map<Str, u32>, ip: nat, f: Fixup)
    requires Tidy(code, pool, fs, labels) && Start(code, ip) && f in fs
    ensures !Covers(f, ip)
  {
    hide Reaches;
    if f.at - 1 < ip {
      assert Decodes(code, f.at - 1);
      NoneBetween(code, f.at - 1, ip);
    }
  }

  lemma PatchedStarts(code: seq<u8>, out: seq<u8>, pool: nat, fs: seq<Fixup>, labels: map<Str, u32>)
    requires Tidy(code, pool, fs, labels) && Patched(code, out, fs, labels)
    ensures forall ip: nat :: Start(out, ip) <==> Start(code, ip)
    ensures WellFormed(out) && forall ip: nat | Start(code, ip) :: out[ip] == code[ip]
  {
    assert WellFormed(code);
    hide Reaches, Tidy;
    forall ip: nat | Start(code, ip) ensures out[ip] == code[ip] {
      forall f <- fs ensures !Covers(f, ip) { OpcodesKept(code, pool, fs, labels, ip, f); }
    }
    hide Patched;
    forall ip: nat ensures Boundary(code, ip) <==> Boundary(out, ip) {
      assert Boundary(code, 0) by { SelfReaches(code); }
      SameStarts(code, out, 0, ip);
    }
  }

  lemma SelfReaches(code: seq<u8>)
    ensures Boundary(code, 0)
  {
  }

  lemma PatchedWord(code: seq<u8>, out: seq<u8>, fs: seq<Fixup>, labels: map<Str, u32>, f: Fixup)
    requires Patched(code, out, fs, labels) && f in fs
    ensures f.at + 4 <= |out| && f.name in labels && Word(out, f.at) == labels[f.name]
  {
    Widths();
    LERoundTrip(labels[f.name], 4);
  }

  /** A fixup touches only the operand of its own branch. */
  lemma Elsewhere(code: seq<u8>, pool: nat, fs: seq<Fixup>, labels: map<Str, u32>, ip: nat, f: Fixup, k: nat)
    requires Tidy(code, pool, fs, labels) && f in fs && Start(code, ip) && !Branch(code[ip]) && ip <= k < Next(code, ip)
    ensures !Covers(f, k)
  {
    hide Reaches;
    assert Decodes(code, f.at - 1) && Decodes(code, ip);
    if f.at - 1 < ip {
      NoneBetween(code, f.at - 1, ip);
    } else if ip < f.at - 1 {
      NoneBetween(code, ip, f.at - 1);
    }
  }

  lemma PatchedConstants(code: seq<u8>, out: seq<u8>, pool: nat, fs: seq<Fixup>, labels: map<Str, u32>, ip: nat)
    requires Tidy(code, pool, fs, labels) && Patched(code, out, fs, labels) && Start(code, ip) && code[ip] == LDC
    ensures ip + 5 <= |out| && Word(out, ip + 1) == Word(code, ip + 1) < pool
  {
    assert ip + 5 <= |code| && Word(code, ip + 1) < pool && |out| == |code|;
    hide Tidy, Reaches, FromLE;
    forall k | ip < k < ip + 5 ensures out[k] == code[k] {
      forall f <- fs ensures !Covers(f, k) { Elsewhere(code, pool, fs, labels, ip, f, k); }
    }
    assert out[ip + 1..ip + 5] == code[ip + 1..ip + 5];
  }

  lemma PatchedChecked(pool: seq<Constants.Value>, code: seq<u8>, out: seq<u8>, fs: seq<Fixup>, labels: map<Str, u32>, p: Program, env: Env, ip: nat)
    requires Tidy(code, |pool|, fs, labels) && Patched(code, out, fs, labels) && p.code == out && p.constants == pool
    requires Start(code, ip)
    ensures Checked(p, env, ip)
  {
    hide Reaches;
    PatchedStarts(code, out, |pool|, fs, labels);
    assert Decodes(code, ip);
    if code[ip] == LDC { PatchedConstants(code, out, |pool|, fs, labels, ip); }
  }

  /** The target of the branch at `ip` is the position of its label. */
  lemma PatchedBranch(code: seq<u8>, out: seq<u8>, pool: nat, fs: seq<Fixup>, labels: map<Str, u32>, ip: nat) returns (f: Fixup)
    requires Tidy(code, pool, fs, labels) && Patched(code, out, fs, labels) && Start(code, ip) && Branch(code[ip])
    ensures f in fs && f.name in labels && Decodes(out, ip) && Word(out, ip + 1) == labels[f.name] && Boundary(code, labels[f.name])
  {
    hide Reaches, FromLE, Tidy, Patched;
    PatchedStarts(code, out, pool, fs, labels);
    f := FixupOf(code, pool, fs, labels, ip);
    PatchedWord(code, out, fs, labels, f);
    SameSize(code, out, fs, labels);
    LabelPlaced(code, pool, fs, labels, f.name);
  }

  lemma FixupOf(code: seq<u8>, pool: nat, fs: seq<Fixup>, labels: map<Str, u32>, ip: nat) returns (f: Fixup)
    requires Tidy(code, pool, fs, labels) && Start(code, ip) && Branch(code[ip])
    ensures f in fs && f.at == ip + 1 && Decodes(code, ip)
  {
    hide Reaches;
    f :| f in fs && f.at == ip + 1;
  }

  lemma SameSize(code: seq<u8>, out: seq<u8>, fs: seq<Fixup>, labels: map<Str, u32>)
    requires Patched(code, out, fs, labels)
    ensures |out| == |code|
  {
  }

  lemma LabelPlaced(code: seq<u8>, pool: nat, fs: seq<Fixup>, labels: map<Str, u32>, name: Str)
    requires Tidy(code, pool, fs, labels) && name in labels
    ensures Boundary(code, labels[name])
  {
    hide Reaches;
  }

  lemma AssembledRejected(pool: seq<Constants.Value>, code: seq<u8>, out: seq<u8>, fs: seq<Fixup>, labels: map<Str, u32>, p: Program, env: Env, f: Fixup)
    requires Tidy(code, |pool|, fs, labels) && Patched(code, out, fs, labels) && p.code == out
    requires f in fs && labels[f.name] >= |code|
    ensures !Accepts(p, env)
  {
    PatchedStarts(code, out, |pool|, fs, labels);
    PatchedWord(code, out, fs, labels, f);
    var ip := f.at - 1;
    assert Start(out, ip) && Branch(out[ip]);
    hide Reaches, Tidy, Patched;
  }

  /** One branch to a label put right behind it: the assembler finishes the program and the validator rejects it. */
  lemma EndLabelRejected(name: Str, env: Env)
    ensures var code, out, fs := [BR] + LE(0, 4), [BR] + LE(5, 4), [Fixup(1, name)];
            Patched(code, out, fs, map[name := 5]) && !Accepts(Assembled([], out, None), env)
  {
    var code, out := [BR] + LE(0, 4), [BR] + LE(5, 4);
    assert out[1..5] == LE(5, 4);
    Widths();
    LERoundTrip(5, 4);
    assert Word(out, 1) == 5;
    assert Start(out, 0) && Branch(out[0]) && !Start(out, 5);
    assert !JumpOk(Assembled([], out, None), 0, 5);
  }

  /** Assembled code is valid exactly when no branch refers to a label behind the last instruction. */
  lemma AssembledAccepted(pool: seq<Constants.Value>, code: seq<u8>, out: seq<u8>, fs: seq<Fixup>, labels: map<Str, u32>, debug: Option<DebugInfo>, env: Env)
    requires Tidy(code, |pool|, fs, labels) && Patched(code, out, fs, labels)
    ensures Accepts(Assembled(pool, out, debug), env) <==> forall f <- fs :: labels[f.name] < |code|
  {
    hide Accepts, Tidy, Assembled;
    Named(code, out, fs, labels);
    if f :| f in fs && labels[f.name] >= |code| {
      AssembledCode(pool, out, debug);
      AssembledRejected(pool, code, out, fs, labels, Assembled(pool, out, debug), env, f);
    } else {
      AssembledPasses(pool, code, out, fs, labels, debug, env);
    }
  }

  lemma Named(code: seq<u8>, out: seq<u8>, fs: seq<Fixup>, labels: map<Str, u32>)
    requires Patched(code, out, fs, labels)
    ensures forall f <- fs :: f.name in labels
  {
  }

  lemma AssembledCode(pool: seq<Constants.Value>, out: seq<u8>, debug: Option<DebugInfo>)
    ensures Assembled(pool, out, debug).code == out && Assembled(pool, out, debug).constants == pool
    ensures Assembled(pool, out, debug).callables == Callables([], [], [], [], [])
  {
  }

  lemma AssembledPasses(pool: seq<Constants.Value>, code: seq<u8>, out: seq<u8>, fs: seq<Fixup>, labels: map<Str, u32>, debug: Option<DebugInfo>, env: Env)
    requires Tidy(code, |pool|, fs, labels) && Patched(code, out, fs, labels)
    requires forall f <- fs :: f.name in labels && labels[f.name] < |code|
    ensures Accepts(Assembled(pool, out, debug), env)
  {
    hide Reaches, Tidy, Patched, Checked, Assembled;
    var p := Assembled(pool, out, debug);
    AssembledCode(pool, out, debug);
    PatchedStarts(code, out, |pool|, fs, labels);
    forall ip: nat | Start(out, ip) ensures Checked(p, env, ip) {
      PatchedChecked(pool, code, out, fs, labels, p, env, ip);
    }
    forall ip: nat | Start(out, ip) && Branch(out[ip]) ensures Decodes(out, ip) && JumpOk(p, ip, Word(out, ip + 1)) {
      var f := PatchedBranch(code, out, |pool|, fs, labels, ip);
    }
  }

  // ---------------------------------------------------------------- what each emission keeps

  predicate Instruction(ins: seq<u8>) { ins != [] && Opcode(ins[0]) && |ins| == 1 + OperandLen(ins[0]) }

  lemma AppendedDecodes(code: seq<u8>, pool: nat, fs: seq<Fixup>, labels: map<Str, u32>, ins: seq<u8>, ip: nat)
    requires Tidy(code, pool, fs, labels) && Instruction(ins) && ins[0] != CALL && ins[0] != CALL_SCRIPT
    requires Start(code, ip) || ip == |code|
    ensures var out := code + ins; Decodes(out, ip) && out[ip] != CALL && out[ip] != CALL_SCRIPT
  {
    hide Reaches;
    assert ip == |code| || Decodes(code, ip);
  }

  lemma AppendedLoads(code: seq<u8>, pool: nat, fs: seq<Fixup>, labels: map<Str, u32>, ins: seq<u8>, ip: nat)
    requires Tidy(code, pool, fs, labels) && Instruction(ins) && (ins[0] == LDC ==> Word(ins, 1) < pool)
    requires (Start(code, ip) || ip == |code|) && (code + ins)[ip] == LDC
    ensures ip + 5 <= |code + ins| && Word(code + ins, ip + 1) < pool
  {
    hide Reaches, FromLE;
    var out := code + ins;
    if ip == |code| {
      assert out[ip + 1..ip + 5] == ins[1..5];
    } else {
      assert out[ip + 1..ip + 5] == code[ip + 1..ip + 5];
    }
  }

  lemma TidyAppend(code: seq<u8>, pool: nat, fs: seq<Fixup>, labels: map<Str, u32>, ins: seq<u8>)
    requires Tidy(code, pool, fs, labels) && Instruction(ins)
    requires !Branch(ins[0]) && ins[0] != CALL && ins[0] != CALL_SCRIPT && (ins[0] == LDC ==> Word(ins, 1) < pool)
    ensures Tidy(code + ins, pool, fs, labels)
  {
    hide Reaches, FromLE, Decodes;
    var out := code + ins;
    AppendStarts(code, ins);
    forall ip: nat | Start(out, ip) ensures Decodes(out, ip) && out[ip] != CALL && out[ip] != CALL_SCRIPT {
      AppendedDecodes(code, pool, fs, labels, ins, ip);
    }
    forall ip: nat | Start(out, ip) && out[ip] == LDC ensures ip + 5 <= |out| && Word(out, ip + 1) < pool {
      AppendedLoads(code, pool, fs, labels, ins, ip);
    }
  }

  lemma BranchFixed(code: seq<u8>, pool: nat, fs: seq<Fixup>, labels: map<Str, u32>, ins: seq<u8>, f: Fixup, ip: nat)
    requires Tidy(code, pool, fs, labels) && f.at == |code| + 1
    requires (Start(code, ip) || ip == |code|) && ip < |code + ins| && Branch((code + ins)[ip])
    ensures exists g <- fs + [f] :: g.at == ip + 1
  {
    hide Reaches;
    if ip == |code| {
      assert (fs + [f])[|fs|].at == ip + 1;
    } else {
      var g :| g in fs && g.at == ip + 1;
      assert g in fs + [f];
    }
  }

  lemma TidyBranchCode(code: seq<u8>, pool: nat, fs: seq<Fixup>, labels: map<Str, u32>, ins: seq<u8>, f: Fixup)
    requires Tidy(code, pool, fs, labels) && Instruction(ins) && Branch(ins[0]) && f.at == |code| + 1
    ensures Tidy(code + ins, pool, fs + [f], labels)
  {
    hide Reaches, FromLE, Decodes;
    var out := code + ins;
    AppendStarts(code, ins);
    forall ip: nat | Start(out, ip) ensures Decodes(out, ip) && out[ip] != CALL && out[ip] != CALL_SCRIPT {
      AppendedDecodes(code, pool, fs, labels, ins, ip);
    }
    forall ip: nat | Start(out, ip) && out[ip] == LDC ensures ip + 5 <= |out| && Word(out, ip + 1) < pool {
      AppendedLoads(code, pool, fs, labels, ins, ip);
    }
    forall ip: nat | Start(out, ip) && Branch(out[ip]) ensures exists g <- fs + [f] :: g.at == ip + 1 {
      BranchFixed(code, pool, fs, labels, ins, f, ip);
    }
  }

  lemma TidyBranch(code: seq<u8>, pool: nat, fs: seq<Fixup>, labels: map<Str, u32>, op: u8, name: Str)
    requires Tidy(code, pool, fs, labels) && Branch(op)
    ensures Tidy(code + [op] + LE(0, 4), pool, fs + [Fixup(|code| + 1, name)], labels)
  {
    hide Tidy, LE;
    Regroup(code, [op], LE(0, 4));
    TidyBranchCode(code, pool, fs, labels, [op] + LE(0, 4), Fixup(|code| + 1, name));
  }

  lemma TidyLdc(code: seq<u8>, pool: nat, fs: seq<Fixup>, labels: map<Str, u32>, index: u32)
    requires Tidy(code, pool, fs, labels) && index < pool
    ensures Tidy(code + [LDC] + LE(index, 4), pool, fs, labels)
  {
    hide Tidy;
    Widths();
    LERoundTrip(index, 4);
    hide LE, FromLE;
    var ins := [LDC] + LE(index, 4);
    assert ins[1..5] == LE(index, 4);
    TidyAppend(code, pool, fs, labels, ins);
    assert code + [LDC] + LE(index, 4) == code + ins;
  }

  lemma TidyPool(code: seq<u8>, pool: nat, more: nat, fs: seq<Fixup>, labels: map<Str, u32>)
    requires Tidy(code, pool, fs, labels) && pool <= more
    ensures Tidy(code, more, fs, labels)
  {
    hide Reaches;
  }

  lemma TidyLabel(code: seq<u8>, pool: nat, fs: seq<Fixup>, labels: map<Str, u32>, name: Str)
    requires Tidy(code, pool, fs, labels) && |code| < 0x1_0000_0000
    ensures Tidy(code, pool, fs, labels[name := |code|])
  {
    hide Reaches;
  }
}
