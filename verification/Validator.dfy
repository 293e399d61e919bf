/** `analyze_program`. */
module Validator {
  import opened Bytes
  import opened Seqs
  import opened Wire
  import opened Programs
  import opened Bytecode

  /** What the validator knows of the builtin catalog and the host: which call indices are builtins, the arities they
      take, and the number of host functions when there is no import table. */
  datatype Env = Env(builtin: u16 -> bool, accepts: (u16, u8) -> bool, arity: u16 -> u8, hostFunctions: Option<u16>)

  datatype MetadataFault =
    | RegionsOverlap | RegionPrototype | RegionsIncomplete | FrameLayout | BadScriptFunction | BadHostImport
    | BadBinding | BadExport | FunctionBoundary

  datatype ValidationError =
    | TruncatedOperand(offset: nat, opcode: u8, bytes: nat)
    | InvalidConstant(offset: nat, constant: u32)
    | InvalidCallArity(offset: nat, index: u16, expected: u8, got: u8)
    | InvalidCall(offset: nat, index: u16)
    | InvalidCallScriptTarget(offset: nat, id: u32)
    | InvalidCallScriptArity(offset: nat, id: u32, expected: u8, got: u8)
    | InvalidOpcode(offset: nat, opcode: u8)
    | InvalidJumpTarget(offset: nat, target: u32)
    | InvalidCallableMetadata(fault: MetadataFault)

  datatype Verdict<T> = Accept(value: T) | Reject(error: ValidationError)

  // ---------------------------------------------------------------- regions

  predicate Inside(r: Region, ip: nat) { r.start <= ip < r.end }

  /** The first region that holds `ip`. */
  function RegionOf(rs: seq<Region>, ip: nat): (o: Option<nat>)
    ensures o.Some? ==> o.value < |rs| && Inside(rs[o.value], ip) && forall i | 0 <= i < o.value :: !Inside(rs[i], ip)
    ensures o.None? ==> forall r <- rs :: !Inside(r, ip)
  {
    if rs == [] then None
    else if Inside(rs[0], ip) then Some(0)
    else
      var o := RegionOf(rs[1..], ip);
      if o.Some? then Some(o.value + 1) else None
  }

  predicate PrototypeExists(p: Program, r: Region) { r.prototype.Some? ==> r.prototype.value < |p.callables.prototypes| }

  /** Non-empty, in order, disjoint, inside the code; the first starts it and the last ends it. Gaps are allowed. */
  predicate RegionsOk(p: Program) {
    var rs := p.callables.regions;
    && (forall i | 0 <= i < |rs| :: rs[i].start < rs[i].end <= |p.code| && PrototypeExists(p, rs[i]))
    && (forall i | 0 < i < |rs| :: rs[i - 1].end <= rs[i].start)
    && (rs != [] ==> rs[0].start == 0 && rs[|rs| - 1].end == |p.code|)
  }

  // ---------------------------------------------------------------- metadata

  predicate SlotsIn(slots: seq<u16>, n: nat) { forall x <- slots :: x < n }

  predicate LayoutOk(q: Prototype) {
    && (q.target.Script? ==> |q.params| == q.arity)
    && |q.sources| == |q.captures| == |q.modes|
    && SlotsIn(q.params, q.frameLocals) && SlotsIn(q.sources, q.frameLocals) && SlotsIn(q.captures, q.frameLocals)
    && (q.self.Some? ==> q.self.value < q.frameLocals)
  }

  predicate TargetOk(p: Program, env: Env, q: Prototype) {
    match q.target
    case Script(id) => id < |p.callables.functions|
    case Host(i) => i < |p.imports| || env.builtin(i)
  }

  predicate BindingOk(p: Program, b: Binding) { b.slot < p.localCount && b.prototype < |p.callables.prototypes| }

  predicate ExportsOk(p: Program) {
    var es := p.callables.exports;
    && (forall e <- es :: e.name != [] && e.slot < p.localCount)
    && (forall i, j | 0 <= i < j < |es| :: es[i].name != es[j].name)
  }

  ghost predicate MetadataOk(p: Program, env: Env) {
    && RegionsOk(p)
    && (forall q <- p.callables.prototypes :: LayoutOk(q) && TargetOk(p, env, q))
    && (forall b <- p.callables.bindings :: BindingOk(p, b))
    && ExportsOk(p)
  }

  // ---------------------------------------------------------------- instructions

  function Half(code: seq<u8>, at: nat): u16
    requires at + 2 <= |code|
  {
    Widths();
    FromLE(code[at..at + 2])
  }

  predicate Branch(op: u8) { op == BR || op == BRFALSE }

  predicate HostCallOk(p: Program, env: Env, index: u16, argc: u8) {
    if env.builtin(index) then env.accepts(index, argc)
    else if p.imports == [] then env.hostFunctions.Some? ==> index < env.hostFunctions.value
    else index < |p.imports| && argc == p.imports[index].arity
  }

  predicate ScriptCallOk(p: Program, id: u32, argc: u8) {
    var qs := p.callables.prototypes;
    id < |qs| && qs[id].target.Script? && argc == qs[id].arity
  }

  /** Operands of the instruction at `ip` refer to things that exist. */
  predicate OperandsOk(p: Program, env: Env, ip: nat)
    requires Decodes(p.code, ip)
  {
    var op := p.code[ip];
    if op == LDC then Word(p.code, ip + 1) < |p.constants|
    else if op == CALL then HostCallOk(p, env, Half(p.code, ip + 1), p.code[ip + 3])
    else if op == CALL_SCRIPT then ScriptCallOk(p, Word(p.code, ip + 1), p.code[ip + 5])
    else true
  }

  /** A branch lands on an instruction start of the same region. */
  predicate JumpOk(p: Program, from: nat, target: u32) {
    Start(p.code, target) && (p.callables.regions != [] ==> RegionOf(p.callables.regions, from) == RegionOf(p.callables.regions, target))
  }

  predicate FunctionOk(p: Program, f: ScriptFunction) {
    Start(p.code, f.entry) && f.end <= |p.code| && (f.end < |p.code| ==> Start(p.code, f.end))
  }

  predicate Checked(p: Program, env: Env, ip: nat) {
    Decodes(p.code, ip) && OperandsOk(p, env, ip)
  }

  /** The validator accepts exactly these programs. */
  ghost predicate Accepts(p: Program, env: Env) {
    && MetadataOk(p, env)
    && WellFormed(p.code)
    && (forall ip: nat | Start(p.code, ip) :: Checked(p, env, ip))
    && (forall ip: nat | Start(p.code, ip) && Branch(p.code[ip]) :: Decodes(p.code, ip) && JumpOk(p, ip, Word(p.code, ip + 1)))
    && (forall f <- p.callables.functions :: FunctionOk(p, f))
  }

  // ---------------------------------------------------------------- errors

  predicate BlamesMetadata(p: Program, env: Env, f: MetadataFault) {
    var c := p.callables;
    match f
    case RegionsOverlap =>
      exists i | 0 <= i < |c.regions| ::
        !(c.regions[i].start < c.regions[i].end <= |p.code|) || (i > 0 && c.regions[i].start < c.regions[i - 1].end)
    case RegionPrototype => exists r <- c.regions :: !PrototypeExists(p, r)
    case RegionsIncomplete => c.regions != [] && !(c.regions[0].start == 0 && c.regions[|c.regions| - 1].end == |p.code|)
    case FrameLayout => exists q <- c.prototypes :: !LayoutOk(q)
    case BadScriptFunction => exists q <- c.prototypes :: q.target.Script? && !TargetOk(p, env, q)
    case BadHostImport => exists q <- c.prototypes :: q.target.Host? && !TargetOk(p, env, q)
    case BadBinding => exists b <- c.bindings :: !BindingOk(p, b)
    case BadExport => !ExportsOk(p)
    case FunctionBoundary => exists f <- c.functions :: !FunctionOk(p, f)
  }

  /** What an error says is true of the program: the offset is an instruction start and the named check fails there. */
  predicate Blames(p: Program, env: Env, e: ValidationError) {
    var code := p.code;
    match e
    case InvalidCallableMetadata(f) => BlamesMetadata(p, env, f)
    case InvalidOpcode(at, op) => Start(code, at) && op == code[at] && !Opcode(op)
    case TruncatedOperand(at, op, n) =>
      Start(code, at) && op == code[at] && Opcode(op) && n == OperandLen(op) && at + 1 + n > |code|
    case InvalidConstant(at, i) => Start(code, at) && Decodes(code, at) && code[at] == LDC && i == Word(code, at + 1) && i >= |p.constants|
    case InvalidCall(at, i) => Start(code, at) && Decodes(code, at) && code[at] == CALL && i == Half(code, at + 1)
      && !env.builtin(i) && (if p.imports == [] then env.hostFunctions.Some? && i >= env.hostFunctions.value else i >= |p.imports|)
    case InvalidCallArity(at, i, expected, got) =>
      && Start(code, at) && Decodes(code, at) && code[at] == CALL && i == Half(code, at + 1) && got == code[at + 3]
      && (if env.builtin(i) then !env.accepts(i, got) && expected == env.arity(i)
          else i < |p.imports| && expected == p.imports[i].arity && got != expected)
    case InvalidCallScriptTarget(at, id) =>
      && Start(code, at) && Decodes(code, at) && code[at] == CALL_SCRIPT && id == Word(code, at + 1)
      && (id < |p.callables.prototypes| ==> !p.callables.prototypes[id].target.Script?)
    case InvalidCallScriptArity(at, id, expected, got) =>
      && Start(code, at) && Decodes(code, at) && code[at] == CALL_SCRIPT && id == Word(code, at + 1) && got == code[at + 5]
      && id < |p.callables.prototypes| && p.callables.prototypes[id].target.Script?
      && expected == p.callables.prototypes[id].arity && got != expected
    case InvalidJumpTarget(at, t) => Start(code, at) && Decodes(code, at) && Branch(code[at]) && t == Word(code, at + 1) && !JumpOk(p, at, t)
  }

  lemma BlameRejects(p: Program, env: Env, e: ValidationError)
    requires Blames(p, env, e)
    ensures !Accepts(p, env)
  {
  }

  // ---------------------------------------------------------------- which error comes first

  predicate Misplaced(p: Program, i: nat)
    requires i < |p.callables.regions|
  {
    var rs := p.callables.regions;
    !(rs[i].start < rs[i].end <= |p.code|) || (i > 0 && rs[i].start < rs[i - 1].end)
  }

  predicate RegionsTo(p: Program, n: nat)
    requires n <= |p.callables.regions|
  {
    forall k | 0 <= k < n :: !Misplaced(p, k) && PrototypeExists(p, p.callables.regions[k])
  }

  predicate PrototypesTo(p: Program, env: Env, n: nat)
    requires n <= |p.callables.prototypes|
  {
    forall k | 0 <= k < n :: LayoutOk(p.callables.prototypes[k]) && TargetOk(p, env, p.callables.prototypes[k])
  }

  predicate BindingsOk(p: Program) { forall b <- p.callables.bindings :: BindingOk(p, b) }

  /** The region, prototype or list that a metadata fault is about is the first at fault, in the order of the checks. */
  ghost predicate FirstMetadata(p: Program, env: Env, f: MetadataFault) {
    var rs, qs := p.callables.regions, p.callables.prototypes;
    match f
    case RegionsOverlap => exists i: nat :: i < |rs| && RegionsTo(p, i) && Misplaced(p, i)
    case RegionPrototype => exists i: nat :: i < |rs| && RegionsTo(p, i) && !Misplaced(p, i) && !PrototypeExists(p, rs[i])
    case RegionsIncomplete => RegionsTo(p, |rs|) && !RegionsOk(p)
    case FrameLayout => RegionsOk(p) && exists i: nat :: i < |qs| && PrototypesTo(p, env, i) && !LayoutOk(qs[i])
    case BadScriptFunction =>
      RegionsOk(p) && exists i: nat :: i < |qs| && PrototypesTo(p, env, i) && LayoutOk(qs[i]) && qs[i].target.Script? && !TargetOk(p, env, qs[i])
    case BadHostImport =>
      RegionsOk(p) && exists i: nat :: i < |qs| && PrototypesTo(p, env, i) && LayoutOk(qs[i]) && qs[i].target.Host? && !TargetOk(p, env, qs[i])
    case BadBinding => RegionsOk(p) && PrototypesTo(p, env, |qs|) && !BindingsOk(p)
    case BadExport => RegionsOk(p) && PrototypesTo(p, env, |qs|) && BindingsOk(p) && !ExportsOk(p)
    case FunctionBoundary => MetadataOk(p, env) && CodeOk(p, env) && JumpsTo(p, |p.code|) && exists f <- p.callables.functions :: !FunctionOk(p, f)
  }

  predicate CodeTo(p: Program, env: Env, n: nat) { forall ip: nat | ip < n && Start(p.code, ip) :: Checked(p, env, ip) }
  predicate CodeOk(p: Program, env: Env) { WellFormed(p.code) && CodeTo(p, env, |p.code|) }

  predicate JumpsTo(p: Program, n: nat) {
    forall ip: nat | ip < n && Start(p.code, ip) && Branch(p.code[ip]) :: Decodes(p.code, ip) && JumpOk(p, ip, Word(p.code, ip + 1))
  }

  predicate OfMetadata(e: ValidationError) { e.InvalidCallableMetadata? && e.fault != FunctionBoundary }

  predicate OfInstruction(e: ValidationError) { !e.InvalidCallableMetadata? && !e.InvalidJumpTarget? }

  /** Everything checked before what an error is about has passed. */
  ghost predicate Earliest(p: Program, env: Env, e: ValidationError) {
    match e
    case InvalidCallableMetadata(f) => FirstMetadata(p, env, f)
    case InvalidJumpTarget(at, _) => MetadataOk(p, env) && CodeOk(p, env) && JumpsTo(p, at)
    case _ => MetadataOk(p, env) && CodeTo(p, env, e.offset)
  }

  lemma StagesApart(p: Program, env: Env, e: ValidationError)
    requires Blames(p, env, e) && Earliest(p, env, e)
    ensures OfMetadata(e) <==> !MetadataOk(p, env)
    ensures OfInstruction(e) ==> !CodeOk(p, env)
    ensures e.InvalidJumpTarget? ==> CodeOk(p, env) && !JumpsTo(p, |p.code|)
    ensures e == InvalidCallableMetadata(FunctionBoundary) ==> CodeOk(p, env) && JumpsTo(p, |p.code|)
  {
    hide Reaches, Word, OperandsOk, LayoutOk, TargetOk, ExportsOk, BindingOk;
    if OfInstruction(e) {
      assert Start(p.code, e.offset);
      if CodeOk(p, env) { NotChecked(p, env, e); }
    }
  }

  lemma NotChecked(p: Program, env: Env, e: ValidationError)
    requires Blames(p, env, e) && OfInstruction(e)
    ensures Start(p.code, e.offset) && !Checked(p, env, e.offset)
  {
  }

  /** What is wrong with an instruction that does not pass. */
  function InstructionFault(p: Program, env: Env, ip: nat): ValidationError
    requires ip < |p.code|
  {
    var code, op := p.code, p.code[ip];
    if !Opcode(op) then InvalidOpcode(ip, op)
    else if !Decodes(code, ip) then ValidationError.TruncatedOperand(ip, op, OperandLen(op))
    else if op == CALL then
      var i := Half(code, ip + 1);
      if env.builtin(i) then InvalidCallArity(ip, i, env.arity(i), code[ip + 3])
      else if i < |p.imports| then InvalidCallArity(ip, i, p.imports[i].arity, code[ip + 3])
      else InvalidCall(ip, i)
    else if op == CALL_SCRIPT then
      var id, qs := Word(code, ip + 1), p.callables.prototypes;
      if id < |qs| && qs[id].target.Script? && code[ip + 5] != qs[id].arity
      then ValidationError.InvalidCallScriptArity(ip, id, qs[id].arity, code[ip + 5])
      else ValidationError.InvalidCallScriptTarget(ip, id)
    else if op == LDC then InvalidConstant(ip, Word(code, ip + 1))
    else InvalidOpcode(ip, op)
  }

  lemma BlamedIsFault(p: Program, env: Env, e: ValidationError)
    requires Blames(p, env, e) && OfInstruction(e)
    ensures e.offset < |p.code| && e == InstructionFault(p, env, e.offset)
  {
    hide Reaches, FromLE;
  }

  lemma OneMetadata(p: Program, env: Env, f: MetadataFault, g: MetadataFault)
    requires FirstMetadata(p, env, f) && FirstMetadata(p, env, g) && f != FunctionBoundary && g != FunctionBoundary
    ensures f == g
  {
    hide LayoutOk, TargetOk, ExportsOk, BindingOk, PrototypeExists, Misplaced;
    RegionsMet(p);
  }

  lemma RegionsMet(p: Program)
    ensures RegionsOk(p) ==> RegionsTo(p, |p.callables.regions|)
  {
  }

  /** The errors that are first are one: what the validator may report of a rejected program is determined. */
  lemma OneError(p: Program, env: Env, e: ValidationError, d: ValidationError)
    requires Blames(p, env, e) && Earliest(p, env, e) && Blames(p, env, d) && Earliest(p, env, d)
    ensures e == d
  {
    StagesApart(p, env, e);
    StagesApart(p, env, d);
    hide Blames, MetadataOk, CodeOk, JumpsTo, FirstMetadata;
    if e.InvalidCallableMetadata? && d.InvalidCallableMetadata? && e.fault != FunctionBoundary {
      OneMetadata(p, env, e.fault, d.fault);
    } else if OfInstruction(e) {
      NotChecked(p, env, e);
      NotChecked(p, env, d);
      assert e.offset == d.offset;
      BlamedIsFault(p, env, e);
      BlamedIsFault(p, env, d);
    } else if e.InvalidJumpTarget? {
      OneJump(p, env, e, d);
    }
  }

  lemma OneJump(p: Program, env: Env, e: ValidationError, d: ValidationError)
    requires Blames(p, env, e) && Earliest(p, env, e) && Blames(p, env, d) && Earliest(p, env, d) && e.InvalidJumpTarget? && d.InvalidJumpTarget?
    ensures e == d
  {
    hide Reaches, MetadataOk, CodeOk;
  }

  // ---------------------------------------------------------------- the validator

  lemma RegionBlamed(p: Program, env: Env, i: nat)
    requires i < |p.callables.regions| && RegionsTo(p, i) && (Misplaced(p, i) || !PrototypeExists(p, p.callables.regions[i]))
    ensures var e := InvalidCallableMetadata(if Misplaced(p, i) then RegionsOverlap else RegionPrototype);
            Blames(p, env, e) && Earliest(p, env, e)
  {
    hide RegionsOk, PrototypeExists;
  }

  lemma RegionsDone(p: Program, env: Env)
    requires RegionsTo(p, |p.callables.regions|)
    ensures var rs := p.callables.regions;
            if rs != [] && (rs[0].start != 0 || rs[|rs| - 1].end != |p.code|)
            then Blames(p, env, InvalidCallableMetadata(RegionsIncomplete)) && Earliest(p, env, InvalidCallableMetadata(RegionsIncomplete))
            else RegionsOk(p)
  {
    assert forall k | 0 <= k < |p.callables.regions| :: !Misplaced(p, k);
  }

  method CheckRegions(p: Program, env: Env) returns (r: Verdict<()>)
    ensures r.Accept? ==> RegionsOk(p)
    ensures r.Reject? ==> Blames(p, env, r.error) && Earliest(p, env, r.error) && OfMetadata(r.error)
  {
    hide Blames, Earliest, RegionsOk;
    var rs := p.callables.regions;
    var previous: nat := 0;
    for i := 0 to |rs|
      invariant previous == if i == 0 then 0 else rs[i - 1].end
      invariant RegionsTo(p, i)
    {
      if rs[i].start < previous || rs[i].start >= rs[i].end || rs[i].end > |p.code| {
        RegionBlamed(p, env, i);
        return Reject(InvalidCallableMetadata(RegionsOverlap));
      }
      if rs[i].prototype.Some? && rs[i].prototype.value >= |p.callables.prototypes| {
        RegionBlamed(p, env, i);
        return Reject(InvalidCallableMetadata(RegionPrototype));
      }
      previous := rs[i].end;
    }
    RegionsDone(p, env);
    if rs != [] && (rs[0].start != 0 || previous != |p.code|) {
      return Reject(InvalidCallableMetadata(RegionsIncomplete));
    }
    r := Accept(());
  }

  method CheckPrototypes(p: Program, env: Env) returns (r: Verdict<()>)
    requires RegionsOk(p)
    ensures r.Accept? ==> PrototypesTo(p, env, |p.callables.prototypes|)
    ensures r.Reject? ==> Blames(p, env, r.error) && Earliest(p, env, r.error) && OfMetadata(r.error)
  {
    hide RegionsOk;
    var qs := p.callables.prototypes;
    for i := 0 to |qs|
      invariant forall k | 0 <= k < i :: LayoutOk(qs[k]) && TargetOk(p, env, qs[k])
    {
      if !LayoutOk(qs[i]) {
        return Reject(InvalidCallableMetadata(FrameLayout));
      }
      match qs[i].target {
        case Script(id) =>
          if id >= |p.callables.functions| {
            assert !TargetOk(p, env, qs[i]);
            return Reject(InvalidCallableMetadata(BadScriptFunction));
          }
        case Host(index) =>
          if index >= |p.imports| && !env.builtin(index) {
            assert !TargetOk(p, env, qs[i]);
            return Reject(InvalidCallableMetadata(BadHostImport));
          }
      }
    }
    r := Accept(());
  }

  method CheckNames(p: Program, env: Env) returns (r: Verdict<()>)
    requires RegionsOk(p) && PrototypesTo(p, env, |p.callables.prototypes|)
    ensures r.Accept? ==> BindingsOk(p) && ExportsOk(p)
    ensures r.Reject? ==> Blames(p, env, r.error) && Earliest(p, env, r.error) && OfMetadata(r.error)
  {
    hide RegionsOk, PrototypesTo;
    var bs, es := p.callables.bindings, p.callables.exports;
    for i := 0 to |bs|
      invariant forall k | 0 <= k < i :: BindingOk(p, bs[k])
    {
      if bs[i].slot >= p.localCount || bs[i].prototype >= |p.callables.prototypes| {
        assert !BindingOk(p, bs[i]);
        return Reject(InvalidCallableMetadata(BadBinding));
      }
    }
    var names: set<Str> := {};
    for i := 0 to |es|
      invariant forall k | 0 <= k < i :: es[k].name != [] && es[k].slot < p.localCount
      invariant forall j, k | 0 <= j < k < i :: es[j].name != es[k].name
      invariant forall x :: x in names <==> exists k | 0 <= k < i :: es[k].name == x
    {
      if es[i].name == [] || es[i].slot >= p.localCount || es[i].name in names {
        return Reject(InvalidCallableMetadata(BadExport));
      }
      names := names + {es[i].name};
    }
    r := Accept(());
  }

  /** `validate_callable_metadata`. */
  method CheckMetadata(p: Program, env: Env) returns (r: Verdict<()>)
    ensures r.Accept? <==> MetadataOk(p, env)
    ensures r.Reject? ==> Blames(p, env, r.error) && Earliest(p, env, r.error)
  {
    hide RegionsOk, LayoutOk, TargetOk, BindingOk, ExportsOk, Blames, Earliest;
    r := CheckRegions(p, env);
    if r.Accept? {
      r := CheckPrototypes(p, env);
      if r.Accept? {
        r := CheckNames(p, env);
      }
    }
    if r.Reject? {
      StagesApart(p, env, r.error);
    }
  }

  /** The operand checks of one call. */
  method CheckCall(p: Program, env: Env, start: nat) returns (r: Verdict<()>)
    requires Start(p.code, start) && Decodes(p.code, start) && p.code[start] == CALL
    ensures r.Accept? <==> OperandsOk(p, env, start)
    ensures r.Reject? ==> Blames(p, env, r.error) && OfInstruction(r.error) && r.error.offset == start
  {
    var index, argc := Half(p.code, start + 1), p.code[start + 3];
    if env.builtin(index) {
      if !env.accepts(index, argc) {
        return Reject(InvalidCallArity(start, index, env.arity(index), argc));
      }
    } else if p.imports == [] {
      if env.hostFunctions.Some? && index >= env.hostFunctions.value {
        return Reject(InvalidCall(start, index));
      }
    } else if index >= |p.imports| {
      return Reject(InvalidCall(start, index));
    } else if argc != p.imports[index].arity {
      return Reject(InvalidCallArity(start, index, p.imports[index].arity, argc));
    }
    r := Accept(());
  }

  method CheckScriptCall(p: Program, env: Env, start: nat) returns (r: Verdict<()>)
    requires Start(p.code, start) && Decodes(p.code, start) && p.code[start] == CALL_SCRIPT
    ensures r.Accept? <==> OperandsOk(p, env, start)
    ensures r.Reject? ==> Blames(p, env, r.error) && OfInstruction(r.error) && r.error.offset == start
  {
    var qs := p.callables.prototypes;
    var id, argc := Word(p.code, start + 1), p.code[start + 5];
    if id >= |qs| || !qs[id].target.Script? {
      return Reject(ValidationError.InvalidCallScriptTarget(start, id));
    }
    if argc != qs[id].arity {
      return Reject(ValidationError.InvalidCallScriptArity(start, id, qs[id].arity, argc));
    }
    r := Accept(());
  }

  datatype Jump = Jump(from: nat, target: u32)

  predicate Ascending(js: seq<Jump>) { forall i, j | 0 <= i < j < |js| :: js[i].from < js[j].from }

  /** Every recorded jump is a branch of the code. */
  predicate JumpOf(p: Program, j: Jump) {
    Start(p.code, j.from) && Decodes(p.code, j.from) && Branch(p.code[j.from]) && j.target == Word(p.code, j.from + 1)
  }

  lemma Arrived(code: seq<u8>)
    ensures Boundary(code, 0)
  {
  }

  /** The sweep: starts, jumps and the largest local index. */
  method Sweep(p: Program, env: Env) returns (r: Verdict<Option<u8>>, starts: set<nat>, jumps: seq<Jump>)
    ensures r.Accept? ==> WellFormed(p.code) && forall ip: nat | Start(p.code, ip) :: Checked(p, env, ip)
    ensures r.Accept? ==> forall ip: nat :: ip in starts <==> Start(p.code, ip)
    ensures r.Accept? ==> (forall j <- jumps :: JumpOf(p, j)) && Ascending(jumps)
    ensures r.Accept? ==> forall ip: nat | Start(p.code, ip) && Branch(p.code[ip]) :: Checked(p, env, ip) && Jump(ip, Word(p.code, ip + 1)) in jumps
    ensures r.Accept? ==> InferLocals(p.code) == if r.value.Some? then r.value.value as int + 1 else 0
    ensures r.Reject? ==> Blames(p, env, r.error) && OfInstruction(r.error) && CodeTo(p, env, r.error.offset)
  {
    hide Reaches, Word, BlamesMetadata;
    var code := p.code;
    var ip, top: Option<u8> := 0, None;
    Arrived(code);
    starts, jumps := {}, [];
    while ip < |code|
      invariant ip <= |code| && Boundary(code, ip)
      invariant forall k: nat | Start(code, k) && k < ip :: Checked(p, env, k)
      invariant forall k: nat :: k in starts <==> Start(code, k) && k < ip
      invariant (forall j <- jumps :: JumpOf(p, j) && j.from < ip) && Ascending(jumps)
      invariant forall k: nat | Start(code, k) && k < ip && Branch(code[k]) :: Checked(p, env, k) && Jump(k, Word(code, k + 1)) in jumps
      invariant InferLocals(code) == Max(if top.Some? then top.value as int + 1 else 0, LocalsFrom(code, ip))
    {
      var start, opcode := ip, code[ip];
      starts := starts + {start};
      if !Opcode(opcode) {
        r := Reject(InvalidOpcode(start, opcode));
        return;
      }
      ip := ip + 1 + OperandLen(opcode);
      if ip > |code| {
        r := Reject(ValidationError.TruncatedOperand(start, opcode, OperandLen(opcode)));
        return;
      }
      if opcode == LDC && Word(code, start + 1) >= |p.constants| {
        r := Reject(InvalidConstant(start, Word(code, start + 1)));
        return;
      }
      if Branch(opcode) {
        jumps := jumps + [Jump(start, Word(code, start + 1))];
      }
      if opcode == LDLOC || opcode == STLOC {
        var index := code[start + 1];
        top := Some(if top.Some? && top.value > index then top.value else index);
      }
      var call: Verdict<()> := Accept(());
      if opcode == CALL {
        call := CheckCall(p, env, start);
      } else if opcode == CALL_SCRIPT {
        call := CheckScriptCall(p, env, start);
      }
      if call.Reject? {
        r := Reject(call.error);
        return;
      }
      StepOn(code, start);
      forall k: nat | Start(code, k) && k < ip ensures k <= start {
        if start < k { NoneBetween(code, start, k); }
      }
    }
    r := Accept(top);
  }

  method CheckJumps(p: Program, env: Env, starts: set<nat>, jumps: seq<Jump>) returns (r: Verdict<()>)
    requires (forall ip: nat :: ip in starts <==> Start(p.code, ip)) && (forall j <- jumps :: JumpOf(p, j)) && Ascending(jumps)
    ensures r.Accept? ==> forall j <- jumps :: JumpOk(p, j.from, j.target)
    ensures r.Reject? ==> Blames(p, env, r.error) && r.error.InvalidJumpTarget?
    ensures r.Reject? ==> forall j <- jumps | j.from < r.error.offset :: JumpOk(p, j.from, j.target)
  {
    var rs := p.callables.regions;
    for i := 0 to |jumps|
      invariant forall k | 0 <= k < i :: JumpOk(p, jumps[k].from, jumps[k].target)
    {
      var j := jumps[i];
      assert JumpOf(p, j);
      if j.target >= |p.code| || j.target !in starts {
        return Reject(InvalidJumpTarget(j.from, j.target));
      }
      if rs != [] && RegionOf(rs, j.from) != RegionOf(rs, j.target) {
        return Reject(InvalidJumpTarget(j.from, j.target));
      }
    }
    r := Accept(());
  }

  method CheckFunctions(p: Program, env: Env, starts: set<nat>) returns (r: Verdict<()>)
    requires forall ip: nat :: ip in starts <==> Start(p.code, ip)
    ensures r.Accept? ==> forall f <- p.callables.functions :: FunctionOk(p, f)
    ensures r.Reject? ==> Blames(p, env, r.error) && r.error == InvalidCallableMetadata(FunctionBoundary)
  {
    var fs := p.callables.functions;
    for i := 0 to |fs|
      invariant forall k | 0 <= k < i :: FunctionOk(p, fs[k])
    {
      if fs[i].entry !in starts || fs[i].end > |p.code| || (fs[i].end < |p.code| && fs[i].end !in starts) {
        assert !FunctionOk(p, fs[i]);
        return Reject(InvalidCallableMetadata(FunctionBoundary));
      }
    }
    r := Accept(());
  }

  lemma AllJumps(p: Program, env: Env, jumps: seq<Jump>, n: nat)
    requires n <= |p.code| && CodeOk(p, env) && forall j <- jumps | j.from < n :: JumpOk(p, j.from, j.target)
    requires forall ip: nat | Start(p.code, ip) && Branch(p.code[ip]) :: Checked(p, env, ip) && Jump(ip, Word(p.code, ip + 1)) in jumps
    ensures JumpsTo(p, n)
  {
    hide Reaches, Word, JumpOk;
    forall ip: nat | ip < n && Start(p.code, ip) && Branch(p.code[ip]) ensures Decodes(p.code, ip) && JumpOk(p, ip, Word(p.code, ip + 1)) {
      assert Jump(ip, Word(p.code, ip + 1)) in jumps;
    }
  }

  /** `analyze_program`: accepts exactly the programs described above, with the largest local index; an error names an
      instruction or a piece of metadata that really fails, the first in the order of the checks. */
  method Analyze(p: Program, env: Env) returns (r: Verdict<Option<u8>>)
    ensures r.Accept? <==> Accepts(p, env)
    ensures r.Accept? ==> InferLocals(p.code) == if r.value.Some? then r.value.value as int + 1 else 0
    ensures r.Reject? ==> Blames(p, env, r.error) && Earliest(p, env, r.error)
  {
    hide MetadataOk, Blames, Reaches, Word, JumpOk, OperandsOk, FunctionOk, InferLocals;
    var checks := CheckMetadata(p, env);
    if checks.Reject? {
      BlameRejects(p, env, checks.error);
      return Reject(checks.error);
    }
    var starts, jumps;
    r, starts, jumps := Sweep(p, env);
    if r.Reject? {
      BlameRejects(p, env, r.error);
      return;
    }
    checks := CheckJumps(p, env, starts, jumps);
    if checks.Reject? {
      JumpBelow(p, env, checks.error);
      AllJumps(p, env, jumps, checks.error.offset);
      BlameRejects(p, env, checks.error);
      return Reject(checks.error);
    }
    AllJumps(p, env, jumps, |p.code|);
    checks := CheckFunctions(p, env, starts);
    if checks.Reject? {
      BoundaryBlamed(p, env);
      BlameRejects(p, env, checks.error);
      return Reject(checks.error);
    }
  }

  lemma JumpBelow(p: Program, env: Env, e: ValidationError)
    requires Blames(p, env, e) && e.InvalidJumpTarget?
    ensures e.offset < |p.code|
  {
  }

  lemma BoundaryBlamed(p: Program, env: Env)
    requires Blames(p, env, InvalidCallableMetadata(FunctionBoundary))
    ensures exists f <- p.callables.functions :: !FunctionOk(p, f)
  {
  }
}
