/** `DecodedInstructionData`. */
module InstructionCache {
  // Operands are decoded once and looked up by instruction offset.

  import opened Bytes
  import opened Wire
  import opened Programs
  import opened Bytecode
  import opened Validator
  import Constants

  /** The prototype of the region that holds `ip`. */
  function Owner(p: Program, ip: nat): Option<u32> {
    var o := RegionOf(p.callables.regions, ip);
    if o.Some? then p.callables.regions[o.value].prototype else None
  }

  function LdcAt(p: Program, ip: nat): Option<Constants.Value> {
    if Start(p.code, ip) && p.code[ip] == LDC && ip + 5 <= |p.code| && Word(p.code, ip + 1) < |p.constants|
    then Some(p.constants[Word(p.code, ip + 1)]) else None
  }

  function JumpAt(p: Program, ip: nat): Option<nat> {
    if Start(p.code, ip) && Branch(p.code[ip]) && ip + 5 <= |p.code| then Some(Word(p.code, ip + 1)) else None
  }

  predicate ValidAt(p: Program, ip: nat) {
    JumpAt(p, ip).Some? && JumpAt(p, ip).value < |p.code| && Owner(p, ip) == Owner(p, JumpAt(p, ip).value)
  }

  function LocalAt(p: Program, ip: nat): Option<u8> {
    if Start(p.code, ip) && (p.code[ip] == LDLOC || p.code[ip] == STLOC) && ip + 2 <= |p.code| then Some(p.code[ip + 1]) else None
  }

  class DecodedInstructionData {
    const ldc: array<Option<Constants.Value>>
    const jumps: array<Option<nat>>
    const valid: array<bool>
    const locals: array<Option<u8>>

    /** Entries up to `n` are decoded, the rest are empty. */
    ghost predicate Holds(p: Program, n: nat)
      reads ldc, jumps, valid, locals
    {
      && ldc.Length == jumps.Length == valid.Length == locals.Length == |p.code|
      && (forall i | 0 <= i < |p.code| :: ldc[i] == if i < n then LdcAt(p, i) else None)
      && (forall i | 0 <= i < |p.code| :: jumps[i] == if i < n then JumpAt(p, i) else None)
      && (forall i | 0 <= i < |p.code| :: valid[i] == (i < n && ValidAt(p, i)))
      && (forall i | 0 <= i < |p.code| :: locals[i] == if i < n then LocalAt(p, i) else None)
    }

    /** `DecodedInstructionData::build`, for any program at all. */
    constructor (p: Program)
      ensures Holds(p, |p.code|)
    {
      ldc := new Option<Constants.Value>[|p.code|](_ => None);
      jumps := new Option<nat>[|p.code|](_ => None);
      valid := new bool[|p.code|](_ => false);
      locals := new Option<u8>[|p.code|](_ => None);
      new;
      var ip := 0;
      while ip < |p.code| && Opcode(p.code[ip])
        invariant Holds(p, ip)
        invariant ip >= |p.code| || Boundary(p.code, ip)
        decreases |p.code| - ip
      {
        hide Holds;
        var next := Next(p.code, ip);
        Record(p, ip);
        SkipOperands(p, ip, next);
        if next <= |p.code| {
          StepOn(p.code, ip);
        }
        ip := next;
      }
      SkipRest(p, ip);
    }

    method Record(p: Program, ip: nat)
      requires Start(p.code, ip) && Opcode(p.code[ip]) && Holds(p, ip)
      modifies ldc, jumps, valid, locals
      ensures Holds(p, ip + 1)
    {
      var code := p.code;
      if code[ip] == LDC {
        if ip + 5 <= |code| && Word(code, ip + 1) < |p.constants| {
          ldc[ip] := Some(p.constants[Word(code, ip + 1)]);
        }
      } else if Branch(code[ip]) {
        if ip + 5 <= |code| {
          var target := Word(code, ip + 1);
          jumps[ip] := Some(target);
          if target < |code| && Owner(p, ip) == Owner(p, target) {
            valid[ip] := true;
          }
        }
      } else if code[ip] == LDLOC || code[ip] == STLOC {
        if ip + 1 < |code| {
          locals[ip] := Some(code[ip + 1]);
        }
      }
    }

    lemma SkipOperands(p: Program, ip: nat, next: nat)
      requires Start(p.code, ip) && next == Next(p.code, ip) && Holds(p, ip + 1)
      ensures Holds(p, next)
    {
      forall i | ip < i < next ensures !Start(p.code, i) { NotStart(p.code, ip, i); }
    }

    lemma SkipRest(p: Program, ip: nat)
      requires Holds(p, ip) && (ip < |p.code| ==> Boundary(p.code, ip) && !Opcode(p.code[ip]))
      ensures Holds(p, |p.code|)
    {
      forall i | ip <= i < |p.code| ensures !Start(p.code, i) || !Opcode(p.code[i]) {
        if Start(p.code, i) { ReachesBetween(p.code, 0, ip, i); }
      }
    }
  }

  lemma NotStart(code: seq<u8>, ip: nat, i: nat)
    requires Start(code, ip) && ip < i < Next(code, ip)
    ensures !Start(code, i)
  {
    if Start(code, i) {
      ReachesBetween(code, 0, ip, i);
      NoneBetween(code, ip, i);
    }
  }

  /** On an accepted program the cache holds the operand at every instruction that has one, nothing elsewhere, and marks
      every branch as staying with its owner. */
  lemma CacheExact(p: Program, env: Env, ip: nat)
    requires Accepts(p, env)
    ensures LdcAt(p, ip).Some? <==> Start(p.code, ip) && p.code[ip] == LDC
    ensures JumpAt(p, ip).Some? <==> Start(p.code, ip) && Branch(p.code[ip])
    ensures ValidAt(p, ip) <==> Start(p.code, ip) && Branch(p.code[ip])
    ensures LocalAt(p, ip).Some? <==> Start(p.code, ip) && (p.code[ip] == LDLOC || p.code[ip] == STLOC)
    ensures LdcAt(p, ip).Some? ==> Checked(p, env, ip) && Word(p.code, ip + 1) < |p.constants| && LdcAt(p, ip).value == p.constants[Word(p.code, ip + 1)]
    ensures JumpAt(p, ip).Some? ==> Checked(p, env, ip) && JumpAt(p, ip).value == Word(p.code, ip + 1) && Start(p.code, Word(p.code, ip + 1))
    ensures LocalAt(p, ip).Some? ==> Checked(p, env, ip) && LocalAt(p, ip).value == p.code[ip + 1]
  {
    if Start(p.code, ip) {
      assert Checked(p, env, ip);
    }
  }
}
