/**
 * The tinyL interpreter's `main`: the instruction list is read from the lines of a RISC file,
 * then `Memory` and `RegisterFile` are allocated, zeroed, and updated in place by one
 * instruction after another, following `next` from the head of the list.
 */
module Interpreter {
  import opened Wrappers
  import opened Instruction
  import opened InstructionList
  import opened Execution

  /**
   * One pass of the loop body on the two arrays: the instruction's effect on them, and the
   * input lines left and the output written afterwards; or the fault it raises, before any
   * array is touched.
   */
  method ExecuteInstr(memory: array<int>, registerFile: array<int>, i: Instr, input: seq<string>, output: string)
    returns (r: Result<(seq<string>, string), Stop>)
    requires memory != registerFile
    modifies memory, registerFile
    ensures Step(Machine(old(memory[..]), old(registerFile[..]), input, output), i) ==
      if r.Ok? then Ok(Machine(memory[..], registerFile[..], r.value.0, r.value.1)) else Err(r.error)
  {
    match i
    case Load(d, v) =>
      var slot := Slot(v, memory.Length);
      if slot.Err? {
        return Err(Stop(slot.error, output));
      }
      var rd := PyIndex(d, registerFile.Length);
      if rd.None? {
        return Err(Stop(RegisterIndex(d), output));
      }
      registerFile[rd.value] := memory[slot.value];
      return Ok((input, output));
    case LoadI(d, n) =>
      var rd := PyIndex(d, registerFile.Length);
      if rd.None? {
        return Err(Stop(RegisterIndex(d), output));
      }
      registerFile[rd.value] := n;
      return Ok((input, output));
    case Store(v, s) =>
      var rs := PyIndex(s, registerFile.Length);
      if rs.None? {
        return Err(Stop(RegisterIndex(s), output));
      }
      var slot := Slot(v, memory.Length);
      if slot.Err? {
        return Err(Stop(slot.error, output));
      }
      memory[slot.value] := registerFile[rs.value];
      return Ok((input, output));
    case Arith(op, d, lhs, rhs) =>
      var rl := PyIndex(lhs, registerFile.Length);
      if rl.None? {
        return Err(Stop(RegisterIndex(lhs), output));
      }
      var rr := PyIndex(rhs, registerFile.Length);
      if rr.None? {
        return Err(Stop(RegisterIndex(rhs), output));
      }
      var rd := PyIndex(d, registerFile.Length);
      if rd.None? {
        return Err(Stop(RegisterIndex(d), output));
      }
      registerFile[rd.value] := Apply(op, registerFile[rl.value], registerFile[rr.value]);
      return Ok((input, output));
    case Read(v) =>
      var out := output + Prompt(v);
      if input == [] {
        return Err(Stop(NoInput, out));
      }
      var value := PyText.ParseLine(input[0]);
      if value.None? {
        return Err(Stop(NotANumber(input[0]), out));
      }
      var slot := Slot(v, memory.Length);
      if slot.Err? {
        return Err(Stop(slot.error, out));
      }
      memory[slot.value] := value.value;
      return Ok((input[1..], out));
    case Write(v) =>
      var slot := Slot(v, memory.Length);
      if slot.Err? {
        return Err(Stop(slot.error, output));
      }
      return Ok((input, output + Shown(v, memory[slot.value])));
  }

  /**
   * The `while instr` loop of `main` from the head of a list whose nodes are `nodes`, on
   * freshly zeroed arrays: it ends as Run says the instructions of the list end.
   */
  method Execute(head: Node?, ghost nodes: seq<Node>, input: seq<string>) returns (o: Outcome)
    requires Chain(head, nodes)
    ensures o == Run(Values(nodes), Init(input))
  {
    var memory := new int[MemorySize](_ => 0);
    var registerFile := new int[MaxRegNum](_ => 0);
    var pending := input;
    var output := "";
    var instrCounter := 0;
    var instr := head;
    assert memory[..] == Init(input).memory && registerFile[..] == Init(input).registers;
    assert nodes[..0] == [];
    while instr != null
      invariant 0 <= instrCounter <= |nodes|
      invariant instr == (if instrCounter < |nodes| then nodes[instrCounter] else null)
      invariant Run(Values(nodes[..instrCounter]), Init(input)) ==
        Halted(Machine(memory[..], registerFile[..], pending, output))
      decreases |nodes| - instrCounter
    {
      ghost var before := Machine(memory[..], registerFile[..], pending, output);
      var r := ExecuteInstr(memory, registerFile, instr.instr, pending, output);
      if r.Err? {
        RunStops(nodes, instrCounter, Init(input), before, r.error);
        return Crashed(instrCounter, r.error.fault, r.error.output);
      }
      pending, output := r.value.0, r.value.1;
      RunNext(nodes, instrCounter, Init(input), before, Machine(memory[..], registerFile[..], pending, output));
      instrCounter := instrCounter + 1;
      instr := instr.next;
    }
    assert nodes[..instrCounter] == nodes;
    return Halted(Machine(memory[..], registerFile[..], pending, output));
  }

  /** The outcome of the first `k + 1` instructions of a list, once the first `k` have run. */
  lemma {:induction false} RunNext(nodes: seq<Node>, k: nat, m: Machine, before: Machine, after: Machine)
    requires k < |nodes| && Run(Values(nodes[..k]), m) == Halted(before)
    requires Step(before, nodes[k].instr) == Ok(after)
    ensures Run(Values(nodes[..k + 1]), m) == Halted(after)
  {
    ValuesStep(nodes, k);
    RunSnoc(Values(nodes[..k]), nodes[k].instr, m);
  }

  /** The outcome of a whole list whose instruction at `k` raises after the first `k` have run. */
  lemma {:induction false} RunStops(nodes: seq<Node>, k: nat, m: Machine, before: Machine, stop: Stop)
    requires k < |nodes| && Run(Values(nodes[..k]), m) == Halted(before)
    requires Step(before, nodes[k].instr) == Err(stop)
    ensures Run(Values(nodes), m) == Crashed(k, stop.fault, stop.output)
  {
    ValuesStep(nodes, k);
    RunSnoc(Values(nodes[..k]), nodes[k].instr, m);
    assert Values(nodes)[..k + 1] == Values(nodes[..k + 1]);
    CrashStays(Values(nodes), k + 1, m);
  }

  /**
   * `main` on the lines of the RISC file and of standard input: a file whose reading raises
   * gives that error; otherwise its instructions run from a zeroed machine.
   */
  method Interpret(lines: seq<string>, input: seq<string>) returns (res: Result<Outcome, LineError>)
    ensures DecodeLines(lines).Err? ==> res == Err(DecodeLines(lines).error)
    ensures DecodeLines(lines).Ok? ==> res == Ok(Run(DecodeLines(lines).value, Init(input)))
  {
    var list := ReadInstructionList(lines);
    if list.Err? {
      return Err(list.error);
    }
    Linked(list.value);
    var o := Execute(list.value.head, list.value.Nodes, input);
    return Ok(o);
  }
}
