/** What runs guarantee. */
module MachineFacts {
  import opened Bytes
  import opened Wire
  import opened Programs
  import opened Bytecode
  import opened Validator
  import opened InstructionCache
  import opened Machine
  import SlimCodec
  import Codec

  // ---------------------------------------------------------------- jumps and frames

  /** A branch of an accepted program that is taken goes to its operand, an instruction in its own region; one that is not
      falls through. */
  lemma JumpsStay(p: Program, env: Env, s: State, c: Choice)
    requires Accepts(p, env) && Inv(p, s) && s.ip < |p.code| && Branch(p.code[s.ip])
    ensures var o := Step(p, s, c);
            (o.Continue? || o.Paused?) ==>
              if p.code[s.ip] == BR || !c.condition then
                && Decodes(p.code, s.ip) && o.s.ip == Word(p.code, s.ip + 1) && Start(p.code, o.s.ip)
                && RegionOf(p.callables.regions, o.s.ip) == RegionOf(p.callables.regions, s.ip)
              else o.s.ip == Next(p.code, s.ip)
  {
    hide Reaches, Accepts;
    CacheExact(p, env, s.ip);
    BranchOk(p, env, s.ip);
  }

  lemma BranchOk(p: Program, env: Env, ip: nat)
    requires Accepts(p, env) && Start(p.code, ip) && Branch(p.code[ip])
    ensures Decodes(p.code, ip) && JumpOk(p, ip, Word(p.code, ip + 1))
    ensures p.callables.regions == [] ==> forall k :: RegionOf(p.callables.regions, k) == None
  {
  }

  /** In every state the machine can reach, parameters, captures and the self slot of each frame lie inside it. */
  lemma FramesFit(p: Program, env: Env, cs: seq<Choice>)
    requires Accepts(p, env) && Run(p, Init(p), cs).Continue?
    ensures var s := Run(p, Init(p), cs).s;
            forall f <- s.frames | f.prototype.Some? ::
              && f.prototype.value < |p.callables.prototypes|
              && var q := p.callables.prototypes[f.prototype.value];
                 && |q.params| == q.arity && SlotsIn(q.params, f.localCount) && SlotsIn(q.captures, f.localCount)
                 && (q.self.Some? ==> q.self.value < f.localCount)
                 && f.localBase + f.localCount <= s.locals
  {
    InitGood(p);
    RunSafe(p, env, Init(p), cs);
    var s := Run(p, Init(p), cs).s;
    forall f <- s.frames | f.prototype.Some?
      ensures && f.prototype.value < |p.callables.prototypes|
              && var q := p.callables.prototypes[f.prototype.value];
                 && |q.params| == q.arity && SlotsIn(q.params, f.localCount) && SlotsIn(q.captures, f.localCount)
                 && (q.self.Some? ==> q.self.value < f.localCount)
                 && f.localBase + f.localCount <= s.locals
    {
      var i :| 0 <= i < |s.frames| && s.frames[i] == f;
      assert FrameOk(p, s.frames[i], s.frames[i - 1]);
      assert LayoutOk(p.callables.prototypes[f.prototype.value]);
      WindowsBelow(p, s, i);
    }
  }

  lemma {:induction false} WindowsBelow(p: Program, s: State, i: nat)
    requires Inv(p, s) && i < |s.frames|
    ensures s.frames[i].localBase + s.frames[i].localCount <= s.locals
    decreases |s.frames| - i
  {
    if i + 1 < |s.frames| {
      assert FrameOk(p, s.frames[i + 1], s.frames[i]);
      WindowsBelow(p, s, i + 1);
    }
  }

  /** With the local count a decoder computes, the root frame never misses a local. */
  lemma RootLocals(p: Program, env: Env, s: State, c: Choice)
    requires Accepts(p, env) && Inv(p, s) && |s.frames| == 1 && InferLocals(p.code) <= p.localCount <= MAX_FRAME_LOCALS
    ensures forall i :: Step(p, s, c) != Faulted(InvalidLocal(i))
  {
    forall i | Step(p, s, c) == Faulted(InvalidLocal(i)) ensures false {
      StepSafe(p, env, s, c);
      InferLocalsLeast(p.code, p.localCount);
      CacheExact(p, env, s.ip);
      StartDecodes(p.code, s.ip);
      assert UsesLocal(p.code, s.ip);
    }
  }

  // ---------------------------------------------------------------- the cache is transparent

  /** The machine without a cache: operands are read from the code and a branch goes where it says. */
  function Plain(p: Program, s: State, c: Choice): Outcome {
    if s.ip >= |p.code| then Faulted(BytecodeBounds)
    else
      var op := p.code[s.ip];
      if !Opcode(op) then Faulted(Fault.InvalidOpcode(op))
      else if op == RET then Return(s.(ip := s.ip + 1), c)
      else
        var next := Next(p.code, s.ip);
        if next > |p.code| then Faulted(BytecodeBounds)
        else if op == CALL then CallHost(s.(ip := next), s.ip, c)
        else if op == CALL_VALUE then CallValue(p, s.(ip := next), p.code[s.ip + 1], s.ip, c)
        else if op == CALL_SCRIPT then CallScript(p, s.(ip := next), Word(p.code, s.ip + 1), p.code[s.ip + 5], s.ip, c)
        else if op == LDC && Word(p.code, s.ip + 1) >= |p.constants| then Faulted(Fault.InvalidConstant(Word(p.code, s.ip + 1)))
        else if s.stack < Pops(op) then Faulted(StackUnderflow)
        else if !c.typed then Faulted(ValueError)
        else
          var t := s.(ip := next, stack := s.stack - Pops(op) + Pushes(op));
          if op == BR || (op == BRFALSE && !c.condition) then Go(c, t.(ip := Word(p.code, s.ip + 1)))
          else if (op == LDLOC || op == STLOC) && LocalBase(s) + p.code[s.ip + 1] >= s.locals then Faulted(InvalidLocal(p.code[s.ip + 1]))
          else Go(c, t)
  }

  function PlainRun(p: Program, s: State, cs: seq<Choice>): Outcome
    decreases cs
  {
    if cs == [] then Continue(s)
    else
      match Plain(p, s, cs[0])
      case Continue(t) => PlainRun(p, t, cs[1..])
      case Paused(t) => PlainRun(p, t, cs[1..])
      case o => o
  }

  lemma StepIsPlain(p: Program, env: Env, s: State, c: Choice)
    requires Accepts(p, env) && Inv(p, s)
    ensures Step(p, s, c) == Plain(p, s, c)
  {
    if s.ip < |p.code| {
      hide Return, CallHost, CallValue, CallScript, Reaches, Accepts;
      assert Start(p.code, s.ip);
      StartChecked(p, env, s.ip);
      CacheExact(p, env, s.ip);
    }
  }

  lemma StartChecked(p: Program, env: Env, ip: nat)
    requires Accepts(p, env) && Start(p.code, ip)
    ensures Checked(p, env, ip)
  {
  }

  /** The interpreter with its operand cache does on accepted programs exactly what the plain one does. */
  lemma {:induction false} RunIsPlain(p: Program, env: Env, s: State, cs: seq<Choice>)
    requires Accepts(p, env) && Inv(p, s)
    ensures Run(p, s, cs) == PlainRun(p, s, cs)
    decreases cs
  {
    if cs != [] {
      hide Step, Plain, Accepts, Inv;
      StepIsPlain(p, env, s, cs[0]);
      StepSafe(p, env, s, cs[0]);
      var o := Step(p, s, cs[0]);
      if o.Continue? || o.Paused? {
        RunIsPlain(p, env, o.s, cs[1..]);
      }
    }
  }

  // ---------------------------------------------------------------- the freestanding decoder's call check

  lemma {:induction false} CallsPass(p: Program, env: Env, ip: nat)
    requires Accepts(p, env) && Boundary(p.code, ip)
    ensures SlimCodec.CheckCalls(p.code, p.callables.prototypes, ip) == Ok(())
    decreases |p.code| - ip
  {
    if ip < |p.code| {
      assert Start(p.code, ip);
      StartChecked(p, env, ip);
      StepOn(p.code, ip);
      CallsPass(p, env, Next(p.code, ip));
    }
  }

  /** A payload the full decoder accepts and the validator passes is accepted by the freestanding decoder, as the same program. */
  lemma SlimAccepts(bytes: seq<u8>, env: Env)
    requires Codec.Decode(bytes).Ok? && Accepts(Codec.Decode(bytes).value, env)
    ensures SlimCodec.SlimDecode(bytes).Ok? && SlimCodec.Slims(SlimCodec.SlimDecode(bytes).value, Codec.Decode(bytes).value)
  {
    hide Codec.Decode, SlimCodec.SlimDecode, SlimCodec.Slims, Accepts;
    CallsPass(Codec.Decode(bytes).value, env, 0);
    SlimCodec.SlimRefines(bytes);
  }
}
