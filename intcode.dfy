/**
 * The Intcode machine of shared/Intcode.py: the effect of each operation's `execute`, the
 * engine step `Computer.next`, and the drivers `run` and `run_until_output`, first as pure
 * functions of a machine state and then as the `Computer` class whose methods change that
 * state in place and are proved to agree with the functions.
 *
 * Interpreted programs may loop forever, so both drivers take a fuel bound on the number of
 * `next` calls and report `OutOfFuel` when it is used up.
 */
module Intcode {
  import opened Wrappers
  import opened IntcodeOps
  import PyText

  /** The fields of a `Computer`: memory, program counter, input FIFO and output FIFO. */
  datatype MachineState = MachineState(registers: seq<int>, pos: int, inputs: seq<int>, outputs: seq<int>)

  /** What `execute` returns: a program-counter shift, `None` (halt), or an exception. */
  datatype Effect = Shift(delta: int) | Stop | Crash(error: Error)

  datatype Executed = Executed(state: MachineState, effect: Effect)

  /** What `next` returns: true, false, or an exception. */
  datatype Status = Running | Halted | Failed(error: Error)

  datatype Stepped = Stepped(state: MachineState, status: Status)

  /** What a driver returns, or that it failed, or that the fuel ran out first. */
  datatype Outcome<T> = Value(value: T) | Failure(error: Error) | OutOfFuel

  datatype Final<T> = Final(state: MachineState, outcome: Outcome<T>)

  /** The operations that compute a value from two parameters and write it. */
  predicate Writes(o: Opcode) {
    o == Add || o == Mult || o == LessThan || o == Equals
  }

  /** The value Add, Mult, LessThan and Equals write. */
  function Combine(o: Opcode, a: int, b: int): int
    requires Writes(o)
  {
    match o
    case Add => a + b
    case Mult => a * b
    case LessThan => if a < b then 1 else 0
    case Equals => if a == b then 1 else 0
  }

  /** `execute` of Add, Mult, LessThan and Equals: the write ignores the third parameter's mode. */
  function ExecWrite(op: Op, s: MachineState): Executed
    requires WellFormed(op) && Writes(op.opcode)
  {
    match ParamVal(op, 0, s.registers)
    case Err(e) => Executed(s, Crash(e))
    case Ok(a) =>
      match ParamVal(op, 1, s.registers)
      case Err(e) => Executed(s, Crash(e))
      case Ok(b) =>
        match Store(s.registers, op.params[2].raw, Combine(op.opcode, a, b))
        case Err(e) => Executed(s, Crash(e))
        case Ok(regs) => Executed(s.(registers := regs), Shift(4))
  }

  /** `Input.execute`: the value is popped before the write can fail, as the Python assignment does. */
  function ExecInput(op: Op, s: MachineState): Executed
    requires WellFormed(op) && op.opcode == Input
  {
    if s.inputs == [] then Executed(s, Crash(NoInput))
    else
      var t := s.(inputs := s.inputs[1..]);
      match Store(t.registers, op.params[0].raw, s.inputs[0])
      case Err(e) => Executed(t, Crash(e))
      case Ok(regs) => Executed(t.(registers := regs), Shift(2))
  }

  /** `Output.execute`: always reads in position mode. */
  function ExecOutput(op: Op, s: MachineState): Executed
    requires WellFormed(op) && op.opcode == Output
  {
    match Load(s.registers, op.params[0].raw)
    case Err(e) => Executed(s, Crash(e))
    case Ok(v) => Executed(s.(outputs := s.outputs + [v]), Shift(2))
  }

  /** `execute` of the conditional jumps: a taken jump shifts by `target - pos`. */
  function ExecJump(op: Op, s: MachineState): Executed
    requires WellFormed(op) && (op.opcode == JumpIfTrue || op.opcode == JumpIfFalse)
  {
    match ParamVal(op, 0, s.registers)
    case Err(e) => Executed(s, Crash(e))
    case Ok(a) =>
      if (a != 0) == (op.opcode == JumpIfTrue) then
        match ParamVal(op, 1, s.registers)
        case Err(e) => Executed(s, Crash(e))
        case Ok(b) => Executed(s, Shift(b - s.pos))
      else
        Executed(s, Shift(3))
  }

  /** The `execute` method of the decoded operation (`Halt.execute` returns `None`). */
  function Exec(op: Op, s: MachineState): Executed
    requires WellFormed(op)
  {
    if Writes(op.opcode) then ExecWrite(op, s)
    else if op.opcode == Input then ExecInput(op, s)
    else if op.opcode == Output then ExecOutput(op, s)
    else if op.opcode == Halt then Executed(s, Stop)
    else ExecJump(op, s)
  }

  /** `Computer.next`: decode at `pos` from the current memory, execute, then move `pos`. */
  function Step(s: MachineState): Stepped {
    match Parse(s.registers, s.pos)
    case Err(e) => Stepped(s, Failed(e))
    case Ok(op) =>
      var x := Exec(op, s);
      match x.effect
      case Stop => Stepped(x.state, Halted)
      case Crash(e) => Stepped(x.state, Failed(e))
      case Shift(d) =>
        var t := x.state.(pos := x.state.pos + d);
        if t.pos >= |t.registers| then Stepped(t, Failed(InvalidState(t.pos))) else Stepped(t, Running)
  }

  /**
   * The loop of `run` over a one-step function `next` (`Step` for the Intcode machine):
   * step until a halt is reported, at most `fuel` times.
   */
  function RunLoop(next: MachineState -> Stepped, s: MachineState, fuel: nat): Final<seq<int>>
    decreases fuel, 0
  {
    if fuel == 0 then Final(s, OutOfFuel) else RunAfter(next, next(s), fuel - 1)
  }

  /** What the loop of `run` does with the result of one `next`. */
  function RunAfter(next: MachineState -> Stepped, n: Stepped, fuel: nat): Final<seq<int>>
    decreases fuel, 1
  {
    match n.status
    case Running => RunLoop(next, n.state, fuel)
    case Halted => Final(n.state, Value(n.state.outputs))
    case Failed(e) => Final(n.state, Failure(e))
  }

  /** The `running` flag both drivers start from: nothing runs when `pos` is at or past the end. */
  function Start(s: MachineState): Stepped {
    Stepped(s, if s.pos < |s.registers| then Running else Halted)
  }

  /** `Computer.run`: the outputs are returned, not popped. */
  function RunFrom(s: MachineState, fuel: nat): Final<seq<int>> {
    RunAfter(Step, Start(s), fuel)
  }

  /** The loop of `run_until_output`: pop a pending output, else `next`, at most `fuel` times. */
  function UntilOutputLoop(next: MachineState -> Stepped, s: MachineState, fuel: nat): Final<Option<int>>
    decreases fuel, 0
  {
    if s.outputs != [] then Final(s.(outputs := s.outputs[1..]), Value(Some(s.outputs[0])))
    else if fuel == 0 then Final(s, OutOfFuel)
    else UntilOutputAfter(next, next(s), fuel - 1)
  }

  /** What the loop of `run_until_output` does with the result of one `next`. */
  function UntilOutputAfter(next: MachineState -> Stepped, n: Stepped, fuel: nat): Final<Option<int>>
    decreases fuel, 1
  {
    match n.status
    case Running => UntilOutputLoop(next, n.state, fuel)
    case Halted => Final(n.state, Value(None))
    case Failed(e) => Final(n.state, Failure(e))
  }

  /** `Computer.run_until_output`: `None` when the machine halts (or `pos` starts past the end). */
  function UntilOutput(s: MachineState, fuel: nat): Final<Option<int>> {
    UntilOutputAfter(Step, Start(s), fuel)
  }

  /** `parse_registers` on the tokens of a split: every token must be an integer. */
  function ParseAll(tokens: seq<string>): (r: Option<seq<int>>)
    ensures r.Some? <==> forall i :: 0 <= i < |tokens| ==> PyText.ParseInt(tokens[i]).Some?
    ensures r.Some? ==> |r.value| == |tokens|
    ensures r.Some? ==> forall i :: 0 <= i < |tokens| ==> Some(r.value[i]) == PyText.ParseInt(tokens[i])
  {
    if tokens == [] then Some([])
    else
      match PyText.ParseInt(tokens[0])
      case None => None
      case Some(x) =>
        match ParseAll(tokens[1..])
        case None => None
        case Some(xs) => Some([x] + xs)
  }

  /** `Computer.parse_registers`: `[int(x.strip()) for x in s.split(",")]`; `None` is a ValueError. */
  function ParseRegisters(s: string): (r: Option<seq<int>>)
    ensures r.Some? ==> |r.value| == multiset(s)[','] + 1
  {
    PyText.SplitCount(s, ',');
    ParseAll(PyText.Split(s, ','))
  }

  /** A program image written out as the comma-separated text `parse_registers` reads. */
  function FormatRegisters(xs: seq<int>): string
    requires xs != []
  {
    PyText.Join(seq(|xs|, i requires 0 <= i < |xs| => PyText.FormatInt(xs[i])), ',')
  }

  lemma NoCommaInFormatInt(n: int)
    ensures ',' !in PyText.FormatInt(n)
  {
    var t := PyText.NatDigits(if n < 0 then -n else n);
    assert !PyText.IsDigit(',');
    if n < 0 {
      assert PyText.FormatInt(n) == ['-'] + t;
    }
  }

  /** Parsing a written-out image gives back the image. */
  lemma ParseFormatRegisters(xs: seq<int>)
    requires xs != []
    ensures ParseRegisters(FormatRegisters(xs)) == Some(xs)
  {
    var ts := seq(|xs|, i requires 0 <= i < |xs| => PyText.FormatInt(xs[i]));
    forall i | 0 <= i < |ts|
      ensures ',' !in ts[i] && PyText.ParseInt(ts[i]) == Some(xs[i])
    {
      NoCommaInFormatInt(xs[i]);
      PyText.ParseFormat(xs[i]);
    }
    PyText.SplitJoin(ts, ',');
    var r := ParseAll(ts);
    assert r.Some?;
    assert r.value == xs;
  }

  // ---------------------------------------------------------------------------------------
  // What one step does, stated against the memory cells at `pos`.
  // ---------------------------------------------------------------------------------------

  /** Only Halt stops the machine, and it changes nothing. */
  lemma ExecStop(op: Op, s: MachineState)
    requires WellFormed(op)
    ensures Exec(op, s).effect == Stop <==> op.opcode == Halt
    ensures op.opcode == Halt ==> Exec(op, s).state == s
  {
    if Writes(op.opcode) {
      assert ExecWrite(op, s).effect != Stop;
    } else if op.opcode == Input {
      assert ExecInput(op, s).effect != Stop;
    } else if op.opcode == Output {
      assert ExecOutput(op, s).effect != Stop;
    } else if op.opcode != Halt {
      assert ExecJump(op, s).effect != Stop;
    }
  }

  /** `next` reports a halt exactly on a Halt instruction, and then nothing changes. */
  lemma StepHalt(s: MachineState)
    ensures Step(s).status == Halted <==>
      Parse(s.registers, s.pos).Ok? && Parse(s.registers, s.pos).value.opcode == Halt
    ensures Step(s).status == Halted ==> Step(s).state == s
  {
    match Parse(s.registers, s.pos)
    case Err(_) =>
    case Ok(op) =>
      ExecStop(op, s);
  }

  /**
   * Add, Mult, LessThan and Equals: the value goes to the cell named by the third raw
   * parameter whatever its mode digit, nothing else changes, and `pos` moves by 4.
   */
  lemma StepWrite(s: MachineState)
    requires Parse(s.registers, s.pos).Ok? && Writes(Parse(s.registers, s.pos).value.opcode)
    ensures
      var op := Parse(s.registers, s.pos).value;
      var a := ParamVal(op, 0, s.registers);
      var b := ParamVal(op, 1, s.registers);
      var dst := op.params[2].raw;
      var n := Step(s);
      if a.Err? then n == Stepped(s, Failed(a.error))
      else if b.Err? then n == Stepped(s, Failed(b.error))
      else if !(0 <= dst < |s.registers|) then n == Stepped(s, Failed(InvalidAddress(dst)))
      else
        && n.state == s.(registers := s.registers[dst := Combine(op.opcode, a.value, b.value)],
                         pos := s.pos + 4)
        && n.status == (if s.pos + 4 < |s.registers| then Running else Failed(InvalidState(s.pos + 4)))
  {
  }

  /** The two conditional jumps: taken, `pos` becomes the second parameter's value; else it moves by 3. */
  lemma StepJump(s: MachineState)
    requires Parse(s.registers, s.pos).Ok?
    requires Parse(s.registers, s.pos).value.opcode in {JumpIfTrue, JumpIfFalse}
    ensures
      var op := Parse(s.registers, s.pos).value;
      var a := ParamVal(op, 0, s.registers);
      var b := ParamVal(op, 1, s.registers);
      var taken := a.Ok? && (a.value != 0 <==> op.opcode == JumpIfTrue);
      var n := Step(s);
      && n.state.registers == s.registers && n.state.inputs == s.inputs && n.state.outputs == s.outputs
      && (a.Err? ==> n == Stepped(s, Failed(a.error)))
      && (taken && b.Err? ==> n == Stepped(s, Failed(b.error)))
      && (taken && b.Ok? ==>
            && n.state.pos == b.value
            && n.status == (if b.value < |s.registers| then Running else Failed(InvalidState(b.value))))
      && (a.Ok? && !taken ==>
            && n.state.pos == s.pos + 3
            && n.status == (if s.pos + 3 < |s.registers| then Running else Failed(InvalidState(s.pos + 3))))
  {
  }

  /** Input takes the front of the input queue and writes it to the cell the raw parameter names. */
  lemma StepInput(s: MachineState)
    requires Parse(s.registers, s.pos).Ok? && Parse(s.registers, s.pos).value.opcode == Input
    ensures
      var dst := Parse(s.registers, s.pos).value.params[0].raw;
      var n := Step(s);
      && (s.inputs == [] ==> n == Stepped(s, Failed(NoInput)))
      && (s.inputs != [] && 0 <= dst < |s.registers| ==>
            && n.state == s.(registers := s.registers[dst := s.inputs[0]],
                             inputs := s.inputs[1..], pos := s.pos + 2)
            && n.status == (if s.pos + 2 < |s.registers| then Running else Failed(InvalidState(s.pos + 2))))
      && (s.inputs != [] && !(0 <= dst < |s.registers|) ==>
            n == Stepped(s.(inputs := s.inputs[1..]), Failed(InvalidAddress(dst))))
  {
  }

  /** Output appends the cell the raw parameter names, in position mode whatever its mode digit. */
  lemma StepOutput(s: MachineState)
    requires Parse(s.registers, s.pos).Ok? && Parse(s.registers, s.pos).value.opcode == Output
    ensures
      var src := Parse(s.registers, s.pos).value.params[0].raw;
      var n := Step(s);
      && (0 <= src < |s.registers| ==>
            && n.state == s.(outputs := s.outputs + [s.registers[src]], pos := s.pos + 2)
            && n.status == (if s.pos + 2 < |s.registers| then Running else Failed(InvalidState(s.pos + 2))))
      && (!(0 <= src < |s.registers|) ==> n == Stepped(s, Failed(InvalidAddress(src))))
  {
  }

  /** `a` is what is left of the queue `b` after popping from its front. */
  predicate IsSuffix(a: seq<int>, b: seq<int>) {
    |a| <= |b| && a == b[|b| - |a|..]
  }

  /** `a` is what the queue `b` held before more was appended. */
  predicate IsPrefix(a: seq<int>, b: seq<int>) {
    |a| <= |b| && a == b[..|a|]
  }

  lemma PrefixTrans(a: seq<int>, b: seq<int>, c: seq<int>)
    requires IsPrefix(a, b) && IsPrefix(b, c)
    ensures IsPrefix(a, c)
  {
    assert c[..|b|][..|a|] == c[..|a|];
  }

  lemma SuffixTrans(a: seq<int>, b: seq<int>, c: seq<int>)
    requires IsSuffix(a, b) && IsSuffix(b, c)
    ensures IsSuffix(a, c)
  {
    assert c[|c| - |b|..][|b| - |a|..] == c[|c| - |a|..];
  }

  /** What one step may do to the queues and memory: keep memory's size, pop at most the front input, append at most one output. */
  predicate Framed(s: MachineState, t: MachineState) {
    && |t.registers| == |s.registers|
    && (t.inputs == s.inputs || (s.inputs != [] && t.inputs == s.inputs[1..]))
    && IsPrefix(s.outputs, t.outputs) && |t.outputs| <= |s.outputs| + 1
  }

  /** A one-step function every step of which is framed. */
  ghost predicate FramedSteps(next: MachineState -> Stepped) {
    forall s: MachineState :: Framed(s, next(s).state)
  }

  lemma ExecFrame(op: Op, s: MachineState)
    requires WellFormed(op)
    ensures Framed(s, Exec(op, s).state)
  {
    if Writes(op.opcode) {
      assert Framed(s, ExecWrite(op, s).state);
    } else if op.opcode == Input {
      assert Framed(s, ExecInput(op, s).state);
    } else if op.opcode == Output {
      assert Framed(s, ExecOutput(op, s).state);
    } else if op.opcode != Halt {
      assert Framed(s, ExecJump(op, s).state);
    }
  }

  lemma StepFrame(s: MachineState)
    ensures Framed(s, Step(s).state)
  {
    match Parse(s.registers, s.pos)
    case Err(_) =>
    case Ok(op) =>
      ExecFrame(op, s);
  }

  lemma StepIsFramed()
    ensures FramedSteps(Step)
  {
    forall s: MachineState
      ensures Framed(s, Step(s).state)
    {
      StepFrame(s);
    }
  }

  // ---------------------------------------------------------------------------------------
  // The drivers, for any framed one-step function and then for `Step`.
  // ---------------------------------------------------------------------------------------

  lemma {:induction false} RunLoopKeepsSize(next: MachineState -> Stepped, s: MachineState, fuel: nat)
    requires FramedSteps(next)
    decreases fuel
    ensures |RunLoop(next, s, fuel).state.registers| == |s.registers|
  {
    if fuel > 0 {
      var n := next(s);
      if n.status == Running {
        RunLoopKeepsSize(next, n.state, fuel - 1);
      }
    }
  }

  lemma {:induction false} RunLoopConsumesInputs(next: MachineState -> Stepped, s: MachineState, fuel: nat)
    requires FramedSteps(next)
    decreases fuel
    ensures IsSuffix(RunLoop(next, s, fuel).state.inputs, s.inputs)
  {
    if fuel > 0 {
      var n := next(s);
      assert Framed(s, n.state);
      if n.status == Running {
        RunLoopConsumesInputs(next, n.state, fuel - 1);
        SuffixTrans(RunLoop(next, n.state, fuel - 1).state.inputs, n.state.inputs, s.inputs);
      }
    }
  }

  lemma {:induction false} RunLoopAppendsOutputs(next: MachineState -> Stepped, s: MachineState, fuel: nat)
    requires FramedSteps(next)
    decreases fuel
    ensures IsPrefix(s.outputs, RunLoop(next, s, fuel).state.outputs)
  {
    if fuel > 0 {
      var n := next(s);
      assert Framed(s, n.state);
      if n.status == Running {
        RunLoopAppendsOutputs(next, n.state, fuel - 1);
        PrefixTrans(s.outputs, n.state.outputs, RunLoop(next, n.state, fuel - 1).state.outputs);
      }
    }
  }

  lemma {:induction false} RunLoopReturnsOutputs(next: MachineState -> Stepped, s: MachineState, fuel: nat)
    decreases fuel
    ensures RunLoop(next, s, fuel).outcome.Value? ==>
      RunLoop(next, s, fuel).outcome.value == RunLoop(next, s, fuel).state.outputs
  {
    if fuel > 0 {
      var n := next(s);
      if n.status == Running {
        RunLoopReturnsOutputs(next, n.state, fuel - 1);
      }
    }
  }

  /** One turn of the loop of `run`. */
  lemma RunLoopUnfold(next: MachineState -> Stepped, s: MachineState, fuel: nat)
    requires fuel > 0
    ensures RunLoop(next, s, fuel) == RunAfter(next, next(s), fuel - 1)
  {
  }

  /** A running machine with no fuel left stops where it is. */
  lemma ResumeWithoutFuel(next: MachineState -> Stepped, s: MachineState)
    ensures RunAfter(next, Stepped(s, Running), 0) == Final(s, OutOfFuel)
    ensures s.outputs == [] ==> UntilOutputAfter(next, Stepped(s, Running), 0) == Final(s, OutOfFuel)
  {
  }

  /** A running machine with a pending output hands it over before any further step. */
  lemma ResumeWithOutput(next: MachineState -> Stepped, s: MachineState, fuel: nat)
    requires s.outputs != []
    ensures UntilOutputAfter(next, Stepped(s, Running), fuel) ==
      Final(s.(outputs := s.outputs[1..]), Value(Some(s.outputs[0])))
  {
  }

  /** `run`: a finished run returns the whole output queue, unpopped, and only ever appended to. */
  lemma RunHistory(s: MachineState, fuel: nat)
    ensures var f := RunFrom(s, fuel);
      && (s.pos >= |s.registers| ==> f == Final(s, Value(s.outputs)))
      && |f.state.registers| == |s.registers|
      && IsSuffix(f.state.inputs, s.inputs)
      && IsPrefix(s.outputs, f.state.outputs)
      && (f.outcome.Value? ==> f.outcome.value == f.state.outputs)
  {
    if s.pos < |s.registers| {
      StepIsFramed();
      RunLoopKeepsSize(Step, s, fuel);
      RunLoopConsumesInputs(Step, s, fuel);
      RunLoopAppendsOutputs(Step, s, fuel);
      RunLoopReturnsOutputs(Step, s, fuel);
    }
  }

  /** With an output already queued, `run_until_output` pops it and executes nothing. */
  lemma UntilOutputPending(s: MachineState, fuel: nat)
    requires s.pos < |s.registers| && s.outputs != []
    ensures UntilOutput(s, fuel) == Final(s.(outputs := s.outputs[1..]), Value(Some(s.outputs[0])))
  {
    ResumeWithOutput(Step, s, fuel);
  }

  /** With `pos` at or past the end, `run_until_output` returns `None` and leaves any output queued. */
  lemma UntilOutputPastEnd(s: MachineState, fuel: nat)
    requires s.pos >= |s.registers|
    ensures UntilOutput(s, fuel) == Final(s, Value(None))
  {
  }

  /**
   * When `run_until_output` reports a halt, the machine is left either past the end of
   * memory or on the Halt instruction with no output queued.
   */
  lemma UntilOutputHaltState(s: MachineState, fuel: nat)
    requires UntilOutput(s, fuel).outcome == Value(None)
    ensures var t := UntilOutput(s, fuel).state;
      (t.pos >= |t.registers| && t == s) || (t.pos < |t.registers| && t.outputs == [] && Step(t) == Stepped(t, Halted))
  {
    if s.pos < |s.registers| {
      StepStops();
      UntilOutputLoopHaltState(Step, s, fuel);
    }
  }

  /** A one-step function that reports a halt without changing the state. */
  ghost predicate HaltsInPlace(next: MachineState -> Stepped) {
    forall x: MachineState :: next(x).status == Halted ==> next(x).state == x
  }

  /** A one-step function that reports running only with `pos` below the end of memory. */
  ghost predicate RunsInside(next: MachineState -> Stepped) {
    forall x: MachineState :: next(x).status == Running ==> next(x).state.pos < |next(x).state.registers|
  }

  lemma StepStops()
    ensures HaltsInPlace(Step) && RunsInside(Step)
  {
    forall x: MachineState
      ensures Step(x).status == Halted ==> Step(x).state == x
    {
      StepHalt(x);
    }
  }

  lemma {:induction false} UntilOutputLoopHaltState(next: MachineState -> Stepped, s: MachineState, fuel: nat)
    requires HaltsInPlace(next) && RunsInside(next)
    requires s.pos < |s.registers|
    requires UntilOutputLoop(next, s, fuel).outcome == Value(None)
    decreases fuel
    ensures var t := UntilOutputLoop(next, s, fuel).state;
      t.pos < |t.registers| && t.outputs == [] && next(t) == Stepped(t, Halted)
  {
    var n := next(s);
    if n.status == Running {
      UntilOutputLoopHaltState(next, n.state, fuel - 1);
    }
  }

  /** After `run_until_output` reports a halt, every further call reports it again and changes nothing. */
  lemma HaltIsFinal(s: MachineState, fuel: nat, more: nat)
    requires UntilOutput(s, fuel).outcome == Value(None)
    requires more > 0
    ensures var t := UntilOutput(s, fuel).state;
      UntilOutput(t, more) == Final(t, Value(None))
  {
    UntilOutputHaltState(s, fuel);
    var t := UntilOutput(s, fuel).state;
    if t.pos < |t.registers| {
      assert UntilOutputLoop(Step, t, more) == UntilOutputAfter(Step, Step(t), more - 1);
    }
  }

  lemma {:induction false} UntilOutputLoopFirst(next: MachineState -> Stepped, s: MachineState, fuel: nat, runFuel: nat)
    requires FramedSteps(next)
    requires s.outputs == []
    requires UntilOutputLoop(next, s, fuel).outcome.Value? && UntilOutputLoop(next, s, fuel).outcome.value.Some?
    requires RunLoop(next, s, runFuel).outcome.Value?
    decreases fuel
    ensures RunLoop(next, s, runFuel).outcome.value != []
    ensures RunLoop(next, s, runFuel).outcome.value[0] == UntilOutputLoop(next, s, fuel).outcome.value.value
  {
    var t := next(s).state;
    assert UntilOutputLoop(next, s, fuel) == UntilOutputLoop(next, t, fuel - 1);
    assert RunLoop(next, s, runFuel) == RunLoop(next, t, runFuel - 1);
    if t.outputs == [] {
      UntilOutputLoopFirst(next, t, fuel - 1, runFuel - 1);
    } else {
      RunLoopAppendsOutputs(next, t, runFuel - 1);
      RunLoopReturnsOutputs(next, t, runFuel - 1);
    }
  }

  /** The value `run_until_output` pops from a fresh queue is the first value `run` would collect. */
  lemma UntilOutputIsFirstOutput(s: MachineState, fuel: nat, runFuel: nat)
    requires s.outputs == []
    requires UntilOutput(s, fuel).outcome.Value? && UntilOutput(s, fuel).outcome.value.Some?
    requires RunFrom(s, runFuel).outcome.Value?
    ensures RunFrom(s, runFuel).outcome.value != []
    ensures RunFrom(s, runFuel).outcome.value[0] == UntilOutput(s, fuel).outcome.value.value
  {
    StepIsFramed();
    UntilOutputLoopFirst(Step, s, fuel, runFuel);
  }

  // ---------------------------------------------------------------------------------------
  // The machine itself.
  // ---------------------------------------------------------------------------------------

  /** `Computer`: a mutable machine whose methods are proved to follow the functions above. */
  class Computer {
    var registers: seq<int>
    var pos: int
    var inputs: seq<int>
    var outputs: seq<int>

    function State(): MachineState
      reads this
    {
      MachineState(registers, pos, inputs, outputs)
    }

    /** A machine over `registers`, starting at `pos`, with `inputs` queued and no outputs. */
    constructor (registers: seq<int>, pos: int, inputs: seq<int>)
      ensures State() == MachineState(registers, pos, inputs, [])
    {
      this.registers := registers;
      this.pos := pos;
      this.inputs := inputs;
      this.outputs := [];
    }

    /** `Computer.from_string`: `None` when the text is not a comma-separated list of integers. */
    static method FromString(s: string, inputs: seq<int>) returns (r: Option<Computer>)
      ensures ParseRegisters(s).None? ==> r.None?
      ensures ParseRegisters(s).Some? ==>
        r.Some? && fresh(r.value) && r.value.State() == MachineState(ParseRegisters(s).value, 0, inputs, [])
    {
      var image := ParseRegisters(s);
      if image.None? {
        return None;
      }
      var c := new Computer(image.value, 0, inputs);
      return Some(c);
    }

    /** `request_input`: pops the front of the queue; an empty queue is `NoInput`. */
    method RequestInput() returns (r: Result<int, Error>)
      modifies this
      ensures old(inputs) == [] ==> r == Err(NoInput) && State() == old(State())
      ensures old(inputs) != [] ==>
        r == Ok(old(inputs)[0]) && State() == old(State()).(inputs := old(inputs)[1..])
    {
      if inputs == [] {
        return Err(NoInput);
      }
      var v := inputs[0];
      inputs := inputs[1..];
      return Ok(v);
    }

    /** `output`: appends to the output queue. */
    method Output(val: int)
      modifies this
      ensures State() == old(State()).(outputs := old(outputs) + [val])
    {
      outputs := outputs + [val];
    }

    /** The `execute` method of the decoded operation. */
    method Execute(op: Op) returns (effect: Effect)
      requires WellFormed(op)
      modifies this
      ensures Executed(State(), effect) == Exec(op, old(State()))
    {
      match op.opcode
      case Add | Mult | LessThan | Equals =>
        var a := ParamVal(op, 0, registers);
        if a.Err? {
          return Crash(a.error);
        }
        var b := ParamVal(op, 1, registers);
        if b.Err? {
          return Crash(b.error);
        }
        var w := Store(registers, op.params[2].raw, Combine(op.opcode, a.value, b.value));
        if w.Err? {
          return Crash(w.error);
        }
        registers := w.value;
        return Shift(4);
      case Input =>
        var v := RequestInput();
        if v.Err? {
          return Crash(v.error);
        }
        var w := Store(registers, op.params[0].raw, v.value);
        if w.Err? {
          return Crash(w.error);
        }
        registers := w.value;
        return Shift(2);
      case Output =>
        var v := Load(registers, op.params[0].raw);
        if v.Err? {
          return Crash(v.error);
        }
        Output(v.value);
        return Shift(2);
      case JumpIfTrue | JumpIfFalse =>
        var a := ParamVal(op, 0, registers);
        if a.Err? {
          return Crash(a.error);
        }
        if (a.value != 0) == (op.opcode == JumpIfTrue) {
          var b := ParamVal(op, 1, registers);
          if b.Err? {
            return Crash(b.error);
          }
          return Shift(b.value - pos);
        }
        return Shift(3);
      case Halt =>
        return Stop;
    }

    /** `next`: one decode-and-execute step. */
    method Next() returns (status: Status)
      modifies this
      ensures Stepped(State(), status) == Step(old(State()))
    {
      var op := Parse(registers, pos);
      if op.Err? {
        return Failed(op.error);
      }
      var shift := Execute(op.value);
      match shift
      case Stop =>
        return Halted;
      case Crash(e) =>
        return Failed(e);
      case Shift(d) =>
        pos := pos + d;
        if pos >= |registers| {
          return Failed(InvalidState(pos));
        }
        return Running;
    }

    /**
     * One `next` inside a driver loop, stated as the step both loop functions take, so the
     * loops reason about `RunAfter` and `UntilOutputAfter` rather than about `Step` itself.
     */
    method Advance(ghost fuel: nat) returns (status: Status)
      requires fuel > 0
      modifies this
      ensures RunAfter(Step, Stepped(old(State()), Running), fuel) == RunAfter(Step, Stepped(State(), status), fuel - 1)
      ensures old(outputs) == [] ==>
        UntilOutputAfter(Step, Stepped(old(State()), Running), fuel) ==
        UntilOutputAfter(Step, Stepped(State(), status), fuel - 1)
    {
      ghost var before := State();
      status := Next();
      RunLoopUnfold(Step, before, fuel);
    }

    /** `run`, with at most `fuel` calls of `next`. */
    method Run(fuel: nat) returns (outcome: Outcome<seq<int>>)
      modifies this
      ensures Final(State(), outcome) == RunFrom(old(State()), fuel)
    {
      var status := Start(State()).status;
      var remaining := fuel;
      while status.Running?
        invariant RunFrom(old(State()), fuel) == RunAfter(Step, Stepped(State(), status), remaining)
        decreases remaining
      {
        if remaining == 0 {
          ResumeWithoutFuel(Step, State());
          return OutOfFuel;
        }
        status := Advance(remaining);
        remaining := remaining - 1;
      }
      if status.Failed? {
        return Failure(status.error);
      }
      return Value(outputs);
    }

    /** `run_until_output`, with at most `fuel` calls of `next`. */
    method RunUntilOutput(fuel: nat) returns (outcome: Outcome<Option<int>>)
      modifies this
      ensures Final(State(), outcome) == UntilOutput(old(State()), fuel)
    {
      var status := Start(State()).status;
      var remaining := fuel;
      while status.Running?
        invariant UntilOutput(old(State()), fuel) == UntilOutputAfter(Step, Stepped(State(), status), remaining)
        decreases remaining
      {
        if outputs != [] {
          ResumeWithOutput(Step, State(), remaining);
          var v := outputs[0];
          outputs := outputs[1..];
          return Value(Some(v));
        }
        if remaining == 0 {
          ResumeWithoutFuel(Step, State());
          return OutOfFuel;
        }
        status := Advance(remaining);
        remaining := remaining - 1;
      }
      if status.Failed? {
        return Failure(status.error);
      }
      return Value(None);
    }
  }
}
