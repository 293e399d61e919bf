/** Control flow. */
module Machine {
  // The interpreter's control flow over a program: instruction pointer, call frames, local windows and operand-stack height.
  // Values are left out; what they and the host decide in a step is a `Choice`.

  import opened Bytes
  import opened Wire
  import opened Programs
  import opened Bytecode
  import opened Validator
  import opened InstructionCache

  datatype Resume = Halt | ResumeAt(ip: nat)

  datatype Frame = Frame(resume: Resume, stackBase: nat, localBase: nat, localCount: nat, prototype: Option<u32>)

  /** `stack` and `locals` are the heights of the operand stack and of the local stack. */
  datatype State = State(ip: nat, stack: nat, locals: nat, frames: seq<Frame>)

  datatype FrameIssue =
    | MissingFrame | StackBelowBase | ActiveRange | BindingOutside | ParameterOutside | CaptureOutside
    | EnvironmentLayout | SelfOutside | LocalsNotAtTail

  datatype Fault =
    | BytecodeBounds
    | InvalidOpcode(opcode: u8)
    | InvalidConstant(constant: u32)
    | InvalidBranchTarget(target: nat)
    | InvalidLocal(local: u8)
    | InvalidCallable
    | InvalidCallablePrototype(prototype: u32)
    | CallableArityMismatch
    | CallScriptRequiresEnvironment
    | CallStackOverflow
    | FrameAllocationLimit
    | InvalidFrameState(issue: FrameIssue)
    | StackUnderflow
    | ValueError

  /** A run goes on after `Continue` and after a pause; it ends with `Halted` or a fault. */
  datatype Outcome = Continue(s: State) | Paused(s: State) | Halted(s: State) | Faulted(fault: Fault)

  datatype HostCall = Returned(stack: nat) | Yielded(stack: nat) | Pending(stack: nat) | HostHalted(stack: nat) | HostFailed

  /** A runtime callable: its prototype and the number of cells in its environment. */
  datatype Callee = Callee(prototype: u32, cells: Option<nat>)

  /** What a step does not decide itself: whether values have the right types, which way a condition goes, which callable
      is called, what the host does, whether an interrupt is due. */
  datatype Choice = Choice(typed: bool, condition: bool, callee: Option<Callee>, host: HostCall, interrupted: bool)

  const MAX_CALL_DEPTH: nat := 1_024

  /** Operands taken from and results put on the stack by instructions that only compute. */
  function Pops(op: u8): nat {
    if op == NOP || op == LDC || op == BR || op == LDLOC then 0
    else if op == NEG || op == NOT || op == POP || op == DUP || op == STLOC || op == BRFALSE then 1
    else 2
  }

  function Pushes(op: u8): nat {
    if op == NOP || op == BR || op == BRFALSE || op == POP || op == STLOC then 0
    else if op == DUP then 2
    else 1
  }

  function Depth(s: State): nat { Scripts(s.frames) }

  function Scripts(fs: seq<Frame>): nat {
    if fs == [] then 0 else (if fs[0].prototype.Some? then 1 else 0) + Scripts(fs[1..])
  }

  function Top(s: State): Frame
    requires s.frames != []
  {
    s.frames[|s.frames| - 1]
  }

  function LocalBase(s: State): nat { if s.frames == [] then 0 else Top(s).localBase }

  // ---------------------------------------------------------------- frames

  /** `ExecutionFrame::root` and a fresh instance. */
  function Init(p: Program): State {
    var n := if p.localCount <= MAX_FRAME_LOCALS then p.localCount else 0;
    State(0, 0, n, [Frame(Halt, 0, 0, n, None)])
  }

  function Go(c: Choice, s: State): Outcome { if c.interrupted then Paused(s) else Continue(s) }

  /** The frame a prototype gets, or why it cannot be entered. */
  function Layout(p: Program, q: Prototype, callee: Option<Callee>): Option<FrameIssue> {
    if !SlotsIn(q.params, q.frameLocals) then Some(ParameterOutside)
    else if callee.Some? && callee.value.cells.Some? && callee.value.cells.value != |q.captures| then Some(EnvironmentLayout)
    else if callee.Some? && callee.value.cells.Some? && !SlotsIn(q.captures, q.frameLocals) then Some(CaptureOutside)
    else if q.self.Some? && q.self.value >= q.frameLocals then Some(SelfOutside)
    else None
  }

  /** `enter_script_frame`; `s` has its operands removed and its pointer behind the call, which started at `call`. */
  function Enter(p: Program, s: State, id: u32, callee: Option<Callee>, argc: u8, call: nat, c: Choice): Outcome {
    var qs := p.callables.prototypes;
    if id >= |qs| then Faulted(InvalidCallablePrototype(id))
    else if qs[id].frameLocals > MAX_FRAME_LOCALS then Faulted(FrameAllocationLimit)
    else if callee.None? && (qs[id].captures != [] || qs[id].self.Some?) then Faulted(CallScriptRequiresEnvironment)
    else if qs[id].arity != argc then Faulted(CallableArityMismatch)
    else if !c.typed then Faulted(ValueError)
    else
      match qs[id].target
      case Script(f) => EnterScript(p, s, id, f, callee, argc, c)
      case Host(_) => if callee.None? then Faulted(InvalidCallablePrototype(id)) else CallHost(s, call, c)
  }

  function EnterScript(p: Program, s: State, id: u32, f: u32, callee: Option<Callee>, argc: u8, c: Choice): Outcome
    requires id < |p.callables.prototypes|
  {
    var q := p.callables.prototypes[id];
    if Depth(s) >= MAX_CALL_DEPTH then Faulted(CallStackOverflow)
    else if f >= |p.callables.functions| then Faulted(InvalidCallablePrototype(id))
    else if |q.params| != argc then Faulted(CallableArityMismatch)
    else if s.frames != [] && Top(s).localBase + Top(s).localCount > s.locals then Faulted(InvalidFrameState(ActiveRange))
    else
      var bad := BindingFault(p, p.callables.bindings, q.frameLocals);
      if bad.Some? then Faulted(bad.value)
      else
        var issue := Layout(p, q, callee);
        if issue.Some? then Faulted(InvalidFrameState(issue.value))
        else
          var frame := Frame(ResumeAt(s.ip), s.stack, s.locals, q.frameLocals, Some(id));
          Go(c, State(p.callables.functions[f].entry, s.stack, s.locals + q.frameLocals, s.frames + [frame]))
  }

  /** Root bindings are put into every frame, so each slot must fit it. */
  function BindingFault(p: Program, bs: seq<Binding>, locals: nat): Option<Fault> {
    if bs == [] then None
    else if bs[0].slot >= locals then Some(InvalidFrameState(BindingOutside))
    else if bs[0].prototype >= |p.callables.prototypes| then Some(InvalidCallablePrototype(bs[0].prototype))
    else BindingFault(p, bs[1..], locals)
  }

  /** A yielding host call is retried from its own instruction; the others resume behind it. */
  function CallHost(s: State, call: nat, c: Choice): Outcome {
    match c.host
    case Returned(n) => Go(c, s.(stack := n))
    case Yielded(n) => Paused(s.(ip := call, stack := n))
    case Pending(n) => Paused(s.(stack := n))
    case HostHalted(n) => Halted(s.(stack := n))
    case HostFailed => Faulted(ValueError)
  }

  /** `complete_active_frame`. */
  function Return(s: State, c: Choice): Outcome {
    if s.frames == [] then Faulted(InvalidFrameState(MissingFrame))
    else
      var f, rest := Top(s), s.frames[..|s.frames| - 1];
      if s.stack < f.stackBase then Faulted(InvalidFrameState(StackBelowBase))
      else if f.resume.Halt? then Halted(s.(frames := rest))
      else if f.localBase + f.localCount != s.locals then Faulted(InvalidFrameState(LocalsNotAtTail))
      else if !c.typed then Faulted(ValueError)
      else Go(c, State(f.resume.ip, f.stackBase + 1, f.localBase, rest))
  }

  // ---------------------------------------------------------------- one instruction

  /** `jump_to`, for branches the cache does not mark valid. */
  function JumpTo(p: Program, s: State, target: nat, c: Choice): Outcome {
    if target >= |p.code| then Faulted(BytecodeBounds)
    else if p.callables.regions != [] && !InOwner(p, s, target) then Faulted(InvalidBranchTarget(target))
    else Go(c, s.(ip := target))
  }

  predicate InOwner(p: Program, s: State, target: nat) {
    if s.frames != [] && Top(s).prototype.Some? then
      var id := Top(s).prototype.value;
      && id < |p.callables.prototypes|
      && var t := p.callables.prototypes[id].target;
         && t.Script? && t.id < |p.callables.functions|
         && p.callables.functions[t.id].entry <= target < p.callables.functions[t.id].end
    else Owner(p, target) == None
  }

  /** The interpreter, which takes operands from the cache where it has them. */
  function Step(p: Program, s: State, c: Choice): Outcome {
    if s.ip >= |p.code| then Faulted(BytecodeBounds)
    else
      var op := p.code[s.ip];
      if !Opcode(op) then Faulted(Fault.InvalidOpcode(op))
      else if op == RET then Return(s.(ip := s.ip + 1), c)
      else
        var next := Next(p.code, s.ip);
        var cached := if op == LDC then LdcAt(p, s.ip).Some? else if Branch(op) then JumpAt(p, s.ip).Some? else LocalAt(p, s.ip).Some?;
        if next > |p.code| && !cached then Faulted(BytecodeBounds)
        else if op == CALL then CallHost(s.(ip := next), s.ip, c)
        else if op == CALL_VALUE then CallValue(p, s.(ip := next), p.code[s.ip + 1], s.ip, c)
        else if op == CALL_SCRIPT then CallScript(p, s.(ip := next), Word(p.code, s.ip + 1), p.code[s.ip + 5], s.ip, c)
        else if op == LDC && !cached && Word(p.code, s.ip + 1) >= |p.constants| then Faulted(Fault.InvalidConstant(Word(p.code, s.ip + 1)))
        else if s.stack < Pops(op) then Faulted(StackUnderflow)
        else if !c.typed then Faulted(ValueError)
        else
          var t := s.(ip := next, stack := s.stack - Pops(op) + Pushes(op));
          if op == BR || (op == BRFALSE && !c.condition) then
            var target := if cached then JumpAt(p, s.ip).value else Word(p.code, s.ip + 1);
            if ValidAt(p, s.ip) then Go(c, t.(ip := target)) else JumpTo(p, t, target, c)
          else if op == LDLOC || op == STLOC then
            var index := if cached then LocalAt(p, s.ip).value else p.code[s.ip + 1];
            if LocalBase(s) + index < s.locals then Go(c, t) else Faulted(InvalidLocal(index))
          else Go(c, t)
  }

  function CallValue(p: Program, s: State, argc: u8, call: nat, c: Choice): Outcome {
    if s.stack < argc as int + 1 then Faulted(StackUnderflow)
    else if c.callee.None? then Faulted(InvalidCallable)
    else Enter(p, s.(stack := s.stack - argc - 1), c.callee.value.prototype, c.callee, argc, call, c)
  }

  function CallScript(p: Program, s: State, id: u32, argc: u8, call: nat, c: Choice): Outcome {
    if s.stack < argc then Faulted(StackUnderflow)
    else Enter(p, s.(stack := s.stack - argc), id, None, argc, call, c)
  }

  /** A run from `s`: one step for each choice, as long as steps go on. */
  function Run(p: Program, s: State, cs: seq<Choice>): Outcome
    decreases cs
  {
    if cs == [] then Continue(s)
    else
      match Step(p, s, cs[0])
      case Continue(t) => Run(p, t, cs[1..])
      case Paused(t) => Run(p, t, cs[1..])
      case o => o
  }

  // ---------------------------------------------------------------- invariant

  /** A script frame resumes at an instruction or the end, has its prototype's locals and starts where the caller's end. */
  predicate FrameOk(p: Program, f: Frame, below: Frame) {
    && f.resume.ResumeAt? && Boundary(p.code, f.resume.ip)
    && f.localBase == below.localBase + below.localCount
    && f.prototype.Some? && f.prototype.value < |p.callables.prototypes|
    && p.callables.prototypes[f.prototype.value].target.Script?
    && f.localCount == p.callables.prototypes[f.prototype.value].frameLocals
  }

  /** The root frame at the bottom, script frames above it, their local windows adjacent up to the top of the locals. */
  ghost predicate Inv(p: Program, s: State) {
    && Boundary(p.code, s.ip)
    && s.frames != [] && s.frames[0] == Init(p).frames[0]
    && (forall i | 0 < i < |s.frames| :: FrameOk(p, s.frames[i], s.frames[i - 1]))
    && s.locals == Top(s).localBase + Top(s).localCount
  }

  predicate At(p: Program, s: State, op: u8) { s.ip < |p.code| && p.code[s.ip] == op && Decodes(p.code, s.ip) }

  /** The operands an instruction takes from the stack. */
  function Takes(code: seq<u8>, ip: nat): nat
    requires Decodes(code, ip)
  {
    if code[ip] == CALL_VALUE then code[ip + 1] as int + 1
    else if code[ip] == CALL_SCRIPT then code[ip + 5]
    else Pops(code[ip])
  }

  /** The prototype that the instruction in a state calls. */
  function Called(p: Program, s: State, c: Choice): Option<Prototype> {
    var id := if At(p, s, CALL_SCRIPT) then Some(Word(p.code, s.ip + 1))
              else if At(p, s, CALL_VALUE) && c.callee.Some? then Some(c.callee.value.prototype) else None;
    if id.Some? && id.value < |p.callables.prototypes| then Some(p.callables.prototypes[id.value]) else None
  }

  /** The faults an accepted program can still meet, and what causes each. */
  ghost predicate Tolerable(p: Program, s: State, c: Choice, f: Fault)
    requires s.frames != []
  {
    var q := Called(p, s, c);
    match f
    case BytecodeBounds => s.ip == |p.code|
    case InvalidLocal(i) => s.ip < |p.code| && LocalAt(p, s.ip) == Some(i) && i >= Top(s).localCount
    case InvalidCallable => At(p, s, CALL_VALUE) && c.callee.None?
    case InvalidCallablePrototype(id) => At(p, s, CALL_VALUE) && c.callee.Some? && id == c.callee.value.prototype >= |p.callables.prototypes|
    case CallableArityMismatch => At(p, s, CALL_VALUE) && q.Some? && q.value.arity != p.code[s.ip + 1]
    case CallScriptRequiresEnvironment => At(p, s, CALL_SCRIPT) && q.Some? && (q.value.captures != [] || q.value.self.Some?)
    case CallStackOverflow => q.Some? && q.value.target.Script? && Depth(s) >= MAX_CALL_DEPTH
    case FrameAllocationLimit => q.Some? && q.value.frameLocals > MAX_FRAME_LOCALS
    case InvalidFrameState(BindingOutside) => q.Some? && q.value.target.Script? && exists b <- p.callables.bindings :: b.slot >= q.value.frameLocals
    case InvalidFrameState(EnvironmentLayout) =>
      q.Some? && q.value.target.Script? && c.callee.Some? && c.callee.value.cells.Some? && c.callee.value.cells.value != |q.value.captures|
    case InvalidFrameState(StackBelowBase) => At(p, s, RET) && s.stack < Top(s).stackBase
    case StackUnderflow => Decodes(p.code, s.ip) && s.stack < Takes(p.code, s.ip)
    case ValueError => !c.typed || c.host.HostFailed?
    case _ => false
  }

  /** What a step of an accepted program may come to. */
  ghost predicate Safe(p: Program, s: State, c: Choice, o: Outcome)
    requires s.frames != []
  {
    match o
    case Continue(t) => Inv(p, t)
    case Paused(t) => Inv(p, t)
    case Halted(t) => Boundary(p.code, t.ip) && |t.frames| <= |s.frames|
    case Faulted(f) => Tolerable(p, s, c, f)
  }

  lemma {:induction false} BindingsKnown(p: Program, bs: seq<Binding>, q: Prototype)
    requires forall b <- bs :: BindingOk(p, b) && b in p.callables.bindings
    ensures var o := BindingFault(p, bs, q.frameLocals);
            o.None? || (o == Some(InvalidFrameState(BindingOutside)) && exists b <- p.callables.bindings :: b.slot >= q.frameLocals)
  {
    if bs != [] {
      BindingsKnown(p, bs[1..], q);
      assert bs[0] in p.callables.bindings;
    }
  }

  lemma ReturnSafe(p: Program, env: Env, s: State, next: nat, c: Choice)
    requires Accepts(p, env) && Inv(p, s) && Boundary(p.code, next)
    requires At(p, s, RET)
    ensures Safe(p, s, c, Return(s.(ip := next), c))
  {
    hide Reaches, Accepts;
    var o := Return(s.(ip := next), c);
    if o.Continue? || o.Paused? {
      var k := |s.frames| - 1;
      assert k != 0;
      assert FrameOk(p, s.frames[k], s.frames[k - 1]);
    }
  }

  /** A script frame can be entered unless the stack is too deep, a root binding does not fit or a value is at fault. */
  lemma EnterScriptSafe(p: Program, env: Env, s: State, id: u32, callee: Option<Callee>, argc: u8, c: Choice)
    requires Accepts(p, env) && Inv(p, s) && id < |p.callables.prototypes|
    requires p.callables.prototypes[id].target.Script? && p.callables.prototypes[id].arity == argc
    ensures match EnterScript(p, s, id, p.callables.prototypes[id].target.id, callee, argc, c)
            case Continue(t) => Inv(p, t)
            case Paused(t) => Inv(p, t)
            case Halted(_) => false
            case Faulted(f) =>
              || (f == CallStackOverflow && Depth(s) >= MAX_CALL_DEPTH)
              || (f == InvalidFrameState(BindingOutside) && exists b <- p.callables.bindings :: b.slot >= p.callables.prototypes[id].frameLocals)
              || (f == InvalidFrameState(EnvironmentLayout) && callee.Some? && callee.value.cells.Some?
                  && callee.value.cells.value != |p.callables.prototypes[id].captures|)
  {
    var q := p.callables.prototypes[id];
    var f := q.target.id;
    assert q in p.callables.prototypes;
    assert LayoutOk(q) && TargetOk(p, env, q);
    BindingsKnown(p, p.callables.bindings, q);
    assert p.callables.functions[f] in p.callables.functions;
    assert FunctionOk(p, p.callables.functions[f]);
    var o := EnterScript(p, s, id, f, callee, argc, c);
    if o.Continue? || o.Paused? {
      assert o.s.frames[..|s.frames|] == s.frames;
      assert FrameOk(p, Top(o.s), Top(s));
      forall i | 0 < i < |o.s.frames| ensures FrameOk(p, o.s.frames[i], o.s.frames[i - 1]) {
        if i < |s.frames| {
          assert FrameOk(p, s.frames[i], s.frames[i - 1]);
        }
      }
    }
  }

  lemma CallScriptSafe(p: Program, env: Env, s: State, c: Choice)
    requires Accepts(p, env) && Inv(p, s) && Decodes(p.code, s.ip) && Boundary(p.code, Next(p.code, s.ip))
    requires p.code[s.ip] == CALL_SCRIPT && ScriptCallOk(p, Word(p.code, s.ip + 1), p.code[s.ip + 5])
    ensures Safe(p, s, c, CallScript(p, s.(ip := Next(p.code, s.ip)), Word(p.code, s.ip + 1), p.code[s.ip + 5], s.ip, c))
  {
    hide EnterScript, Reaches, Accepts, Scripts;
    var id, argc := Word(p.code, s.ip + 1), p.code[s.ip + 5];
    if s.stack >= argc {
      EnterScriptSafe(p, env, s.(ip := Next(p.code, s.ip), stack := s.stack - argc), id, None, argc, c);
    }
  }

  lemma CallValueSafe(p: Program, env: Env, s: State, c: Choice)
    requires Accepts(p, env) && Inv(p, s) && Decodes(p.code, s.ip) && Boundary(p.code, Next(p.code, s.ip))
    requires p.code[s.ip] == CALL_VALUE
    ensures Safe(p, s, c, CallValue(p, s.(ip := Next(p.code, s.ip)), p.code[s.ip + 1], s.ip, c))
  {
    hide EnterScript, Reaches, Accepts, Scripts;
    var argc := p.code[s.ip + 1];
    if s.stack >= argc as int + 1 && c.callee.Some? {
      var id := c.callee.value.prototype;
      if id < |p.callables.prototypes| && p.callables.prototypes[id].target.Script? && p.callables.prototypes[id].arity == argc {
        EnterScriptSafe(p, env, s.(ip := Next(p.code, s.ip), stack := s.stack - argc - 1), id, c.callee, argc, c);
      }
    }
  }

  /** One step of an accepted program keeps the invariant or meets a tolerable fault. */
  lemma StepSafe(p: Program, env: Env, s: State, c: Choice)
    requires Accepts(p, env) && Inv(p, s)
    ensures Safe(p, s, c, Step(p, s, c))
  {
    hide Return, CallValue, CallScript, Reaches;
    if s.ip < |p.code| {
      assert Start(p.code, s.ip);
      assert Checked(p, env, s.ip);
      StartDecodes(p.code, s.ip);
      CacheExact(p, env, s.ip);
      var op, next := p.code[s.ip], Next(p.code, s.ip);
      if op == RET {
        ReturnSafe(p, env, s, next, c);
      } else if op == CALL_VALUE {
        CallValueSafe(p, env, s, c);
      } else if op == CALL_SCRIPT {
        CallScriptSafe(p, env, s, c);
      } else if Branch(op) {
        assert JumpOk(p, s.ip, Word(p.code, s.ip + 1));
      }
    } else {
      ReachesUp(p.code, 0, s.ip);
    }
  }

  /** A run is over after `k` steps that went on and one more. */
  ghost predicate EndsAt(p: Program, s: State, cs: seq<Choice>, k: nat) {
    k < |cs| && Run(p, s, cs[..k]).Continue? && Inv(p, Run(p, s, cs[..k]).s) && Step(p, Run(p, s, cs[..k]).s, cs[k]) == Run(p, s, cs)
  }

  /** Every run of an accepted program, from the start of the program or any good state: it keeps the invariant or ends with
      a step from a good state of its own, by halting or with a fault whose cause is in that state. */
  lemma {:induction false} RunSafe(p: Program, env: Env, s: State, cs: seq<Choice>)
    requires Accepts(p, env) && Inv(p, s)
    ensures match Run(p, s, cs)
            case Continue(t) => Inv(p, t)
            case Paused(t) => false
            case Halted(t) => Boundary(p.code, t.ip) && exists k: nat :: EndsAt(p, s, cs, k)
            case Faulted(f) => exists k: nat :: EndsAt(p, s, cs, k) && Tolerable(p, Run(p, s, cs[..k]).s, cs[k], f)
    decreases cs
  {
    if cs != [] {
      hide Step, Tolerable, Accepts, Inv;
      StepSafe(p, env, s, cs[0]);
      var o := Step(p, s, cs[0]);
      if o.Continue? || o.Paused? {
        RunSafe(p, env, o.s, cs[1..]);
        if !Run(p, s, cs).Continue? {
          var k: nat :| EndsAt(p, o.s, cs[1..], k)
            && (Run(p, s, cs).Faulted? ==> Tolerable(p, Run(p, o.s, cs[1..][..k]).s, cs[1..][k], Run(p, s, cs).fault));
          EndsLater(p, s, cs, k);
        }
      } else {
        EndsNow(p, s, cs);
      }
    }
  }

  lemma EndsLater(p: Program, s: State, cs: seq<Choice>, k: nat)
    requires cs != [] && (Step(p, s, cs[0]).Continue? || Step(p, s, cs[0]).Paused?) && EndsAt(p, Step(p, s, cs[0]).s, cs[1..], k)
    ensures EndsAt(p, s, cs, k + 1) && Run(p, s, cs[..k + 1]) == Run(p, Step(p, s, cs[0]).s, cs[1..][..k])
  {
    hide Step, Inv;
    assert cs[..k + 1][1..] == cs[1..][..k];
  }

  lemma EndsNow(p: Program, s: State, cs: seq<Choice>)
    requires Inv(p, s) && cs != [] && (Step(p, s, cs[0]).Halted? || Step(p, s, cs[0]).Faulted?)
    ensures EndsAt(p, s, cs, 0) && Run(p, s, cs[..0]) == Continue(s)
  {
    hide Step, Inv;
  }

  lemma InitGood(p: Program)
    ensures Inv(p, Init(p))
  {
  }
}
