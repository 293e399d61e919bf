/** Opcodes and sweeps. */
module Bytecode {
  import opened Bytes
  import opened Seqs
  import opened Wire

  const NOP: u8 := 0x00
  const RET: u8 := 0x01
  const LDC: u8 := 0x02
  const NEG: u8 := 0x07
  const BR: u8 := 0x0B
  const BRFALSE: u8 := 0x0C
  const POP: u8 := 0x0D
  const DUP: u8 := 0x0E
  const LDLOC: u8 := 0x0F
  const STLOC: u8 := 0x10
  const CALL: u8 := 0x11
  const NOT: u8 := 0x17
  const CALL_VALUE: u8 := 0x19
  const CALL_SCRIPT: u8 := 0x1A

  predicate Opcode(b: u8) { b <= CALL_SCRIPT }

  function OperandLen(op: u8): (n: nat)
    ensures n <= 5
  {
    if op == LDC || op == BR || op == BRFALSE then 4
    else if op == LDLOC || op == STLOC || op == CALL_VALUE then 1
    else if op == CALL then 3
    else if op == CALL_SCRIPT then 5
    else 0
  }

  /** The little-endian word at `at`. */
  function Word(code: seq<u8>, at: nat): u32
    requires at + 4 <= |code|
  {
    Widths();
    FromLE(code[at..at + 4])
  }

  // ---------------------------------------------------------------- instruction starts

  function Next(code: seq<u8>, ip: nat): nat
    requires ip < |code|
  {
    ip + 1 + OperandLen(code[ip])
  }

  /** A known opcode with all its operand bytes. */
  predicate Decodes(code: seq<u8>, ip: nat) { ip < |code| && Opcode(code[ip]) && Next(code, ip) <= |code| }

  /** A sweep from `from` arrives at `ip`. */
  predicate Reaches(code: seq<u8>, from: nat, ip: nat)
    decreases |code| - from
  {
    from == ip || (Decodes(code, from) && Reaches(code, Next(code, from), ip))
  }

  /** An instruction start or, if the sweep gets there, the end of the code. */
  predicate Boundary(code: seq<u8>, ip: nat) { Reaches(code, 0, ip) }

  predicate Start(code: seq<u8>, ip: nat) { ip < |code| && Boundary(code, ip) }

  /** The code is a sequence of complete instructions. */
  predicate WellFormed(code: seq<u8>) { Boundary(code, |code|) }

  lemma {:induction false} ReachesUp(code: seq<u8>, from: nat, ip: nat)
    requires Reaches(code, from, ip)
    ensures from <= ip && (from <= |code| ==> ip <= |code|)
    decreases |code| - from
  {
    if from != ip {
      ReachesUp(code, Next(code, from), ip);
    }
  }

  lemma {:induction false} ReachesOn(code: seq<u8>, from: nat, ip: nat, to: nat)
    requires Reaches(code, from, ip) && Reaches(code, ip, to)
    ensures Reaches(code, from, to)
    decreases |code| - from
  {
    if from != ip {
      ReachesOn(code, Next(code, from), ip, to);
    }
  }

  /** A sweep visits positions in one order only. */
  lemma {:induction false} ReachesBetween(code: seq<u8>, from: nat, a: nat, b: nat)
    requires Reaches(code, from, a) && Reaches(code, from, b) && a <= b
    ensures Reaches(code, a, b)
    decreases |code| - from
  {
    if from != a {
      if from == b {
        ReachesUp(code, from, a);
      } else {
        ReachesBetween(code, Next(code, from), a, b);
      }
    }
  }

  lemma StepOn(code: seq<u8>, ip: nat)
    requires Boundary(code, ip) && Decodes(code, ip)
    ensures Boundary(code, Next(code, ip))
  {
    ReachesOn(code, 0, ip, Next(code, ip));
  }

  /** In well-formed code every start decodes, and what follows it is a start or the end. */
  lemma StartDecodes(code: seq<u8>, ip: nat)
    requires WellFormed(code) && Start(code, ip)
    ensures Decodes(code, ip) && Boundary(code, Next(code, ip))
  {
    ReachesBetween(code, 0, ip, |code|);
    StepOn(code, ip);
  }

  /** No start lies strictly between a start and the next one. */
  lemma NoneBetween(code: seq<u8>, ip: nat, other: nat)
    requires Boundary(code, ip) && Decodes(code, ip) && Boundary(code, other) && ip < other
    ensures Next(code, ip) <= other
  {
    ReachesBetween(code, 0, ip, other);
    ReachesUp(code, Next(code, ip), other);
  }

  // ---------------------------------------------------------------- local slots

  /** One plus the largest local index used from `ip` on, over the instructions a sweep can decode. */
  function LocalsFrom(code: seq<u8>, ip: nat): nat
    decreases |code| - ip
  {
    if ip >= |code| || !Opcode(code[ip]) || ip + 1 + OperandLen(code[ip]) > |code| then 0
    else
      Max(if code[ip] == LDLOC || code[ip] == STLOC then code[ip + 1] as int + 1 else 0,
          LocalsFrom(code, ip + 1 + OperandLen(code[ip])))
  }

  function InferLocals(code: seq<u8>): nat { LocalsFrom(code, 0) }

  predicate UsesLocal(code: seq<u8>, ip: nat) {
    Boundary(code, ip) && Decodes(code, ip) && (code[ip] == LDLOC || code[ip] == STLOC)
  }

  lemma {:induction false} LocalsFromBound(code: seq<u8>, from: nat, n: nat)
    requires Boundary(code, from)
    ensures LocalsFrom(code, from) <= n <==> forall ip | from <= ip && UsesLocal(code, ip) :: code[ip + 1] as int < n
    decreases |code| - from
  {
    if Decodes(code, from) {
      var next := Next(code, from);
      StepOn(code, from);
      LocalsFromBound(code, next, n);
      assert code[from] == LDLOC || code[from] == STLOC <==> UsesLocal(code, from);
      forall ip | from <= ip && UsesLocal(code, ip) ensures ip == from || next <= ip {
        if from < ip { NoneBetween(code, from, ip); }
      }
    } else {
      forall ip | from <= ip && UsesLocal(code, ip) ensures false {
        ReachesBetween(code, 0, from, ip);
      }
    }
  }

  /** The inferred count is the least one above every local operand the sweep sees, in any code. */
  lemma InferLocalsLeast(code: seq<u8>, n: nat)
    ensures InferLocals(code) <= n <==> forall ip | UsesLocal(code, ip) :: code[ip + 1] as int < n
  {
    LocalsFromBound(code, 0, n);
  }

  /** `infer_local_count_from_code`. */
  method InferLocalCount(code: seq<u8>) returns (n: nat)
    ensures n == InferLocals(code)
  {
    var ip, top: Option<u8> := 0, None;
    while ip < |code|
      invariant InferLocals(code) == Max(if top.Some? then top.value as int + 1 else 0, LocalsFrom(code, ip))
      decreases |code| - ip
    {
      var opcode := code[ip];
      ip := ip + 1;
      if !Opcode(opcode) {
        break;
      }
      var operands := OperandLen(opcode);
      if ip + operands > |code| {
        break;
      }
      if opcode == LDLOC || opcode == STLOC {
        var index := code[ip];
        top := Some(if top.Some? && top.value > index then top.value else index);
      }
      ip := ip + operands;
    }
    n := if top.Some? then top.value as int + 1 else 0;
  }
}
