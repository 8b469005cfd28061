/**
 * What the tinyL interpreter does with an instruction list: a machine of six memory cells
 * (the variables `a` to `f`) and 1000 registers, all zero at the start, which executes the
 * instructions in order until the list ends or an instruction raises. Indices follow Python's
 * list indexing, so a negative index counts from the end; the order in which the faults of one
 * instruction are raised is the order in which Python evaluates its assignment.
 */
module Execution {
  import opened Wrappers
  import opened PyText
  import opened Instruction

  /** `MAX_REG_NUM`: the size of the register file. */
  const MaxRegNum: nat := 1000

  /** The size of `Memory`, one cell per variable. */
  const MemorySize: nat := 6

  /**
   * `xs[i]` on a Python list of length `n`: the position read or written, or None for the
   * IndexError. A negative index in range counts from the end.
   */
  function PyIndex(i: int, n: nat): (r: Option<nat>)
    ensures r.Some? <==> -(n as int) <= i < n
    ensures r.Some? ==> r.value < n && (if i >= 0 then r.value == i else r.value == i + n)
  {
    if 0 <= i < n then Some(i)
    else if -(n as int) <= i < 0 then Some(i + n)
    else None
  }

  /** Why an instruction raised. */
  datatype FaultKind =
    | RegisterIndex(reg: int)     // IndexError: a register outside the register file
    | MemoryIndex(offset: int)    // IndexError: `ord(v) - ord("a")` outside `Memory`
    | NotOneChar(name: string)    // TypeError: `ord` of a string that is not one character
    | NoInput                     // EOFError: `input()` with nothing left to read
    | NotANumber(text: string)    // ValueError: `int()` of a line that is no integer

  /** An instruction that raised, and everything written to standard output until then. */
  datatype Stop = Stop(fault: FaultKind, output: string)

  /** `Memory`, `RegisterFile`, the lines still to be read from standard input, and what was written. */
  datatype Machine = Machine(memory: seq<int>, registers: seq<int>, input: seq<string>, output: string)

  predicate Sized(m: Machine) {
    |m.memory| == MemorySize && |m.registers| == MaxRegNum
  }

  /** The machine before the first instruction: every cell and register is zero. */
  function Init(input: seq<string>): (m: Machine)
    ensures Sized(m) && m.input == input && m.output == ""
    ensures forall j :: 0 <= j < |m.memory| ==> m.memory[j] == 0
    ensures forall j :: 0 <= j < |m.registers| ==> m.registers[j] == 0
  {
    Machine(seq(MemorySize, _ => 0), seq(MaxRegNum, _ => 0), input, "")
  }

  /**
   * `Memory[ord(v) - ord("a")]`: the cell of a variable in a memory of `n` cells. A name of
   * one of the letters `a` to `f` names the cell of its letter.
   */
  function Slot(v: string, n: nat): (r: Result<nat, FaultKind>)
    ensures r.Ok? ==> r.value < n
    ensures |v| != 1 ==> r == Err(NotOneChar(v))
    ensures n == MemorySize && |v| == 1 && 'a' <= v[0] <= 'f' ==> r == Ok(v[0] as int - 'a' as int)
  {
    if |v| != 1 then Err(NotOneChar(v))
    else
      var offset := v[0] as int - 'a' as int;
      match PyIndex(offset, n)
      case None => Err(MemoryIndex(offset))
      case Some(j) => Ok(j)
  }

  /**
   * Python's `x & y` on unbounded integers, negative ones in two's complement: bit by bit
   * from the lowest, where `x / 2` and `x % 2` are Python's `x >> 1` and `x & 1`.
   */
  function BitAnd(x: int, y: int): int
    decreases Abs(x) + Abs(y)
  {
    if x == 0 || y == 0 then 0
    else if x == -1 then y
    else if y == -1 then x
    else 2 * BitAnd(x / 2, y / 2) + (if x % 2 == 1 && y % 2 == 1 then 1 else 0)
  }

  /** Python's `x | y` on unbounded integers, as BitAnd. */
  function BitOr(x: int, y: int): int
    decreases Abs(x) + Abs(y)
  {
    if x == 0 then y
    else if y == 0 then x
    else if x == -1 || y == -1 then -1
    else 2 * BitOr(x / 2, y / 2) + (if x % 2 == 1 || y % 2 == 1 then 1 else 0)
  }

  function Abs(x: int): nat {
    if x < 0 then -x else x
  }

  /** The lambda the interpreter's table holds for an arithmetic opcode. */
  function Apply(op: ArithOp, x: int, y: int): int {
    match op
    case ADD => x + y
    case SUB => x - y
    case MUL => x * y
    case AND => BitAnd(x, y)
    case OR => BitOr(x, y)
  }

  /** The prompt `input()` writes before reading a value for `v`. */
  function Prompt(v: string): string {
    "tinyL>> enter value for \"" + v + "\": "
  }

  /** The line `print` writes for a WRITE of `v` whose cell holds `x`. */
  function Shown(v: string, x: int): string {
    "tinyL>> " + v + " = " + IntToString(x) + "\n"
  }

  /**
   * One pass of the interpreter's loop body. The right-hand side of each assignment is
   * evaluated before its target, so a STORE checks its register before its variable, and a
   * READ writes its prompt and reads its line before it looks at its variable.
   */
  function Step(m: Machine, i: Instr): (r: Result<Machine, Stop>)
    ensures r.Ok? ==> |r.value.memory| == |m.memory| && |r.value.registers| == |m.registers|
  {
    match i
    case Load(d, v) => LoadStep(m, d, v)
    case LoadI(d, n) =>
      (match PyIndex(d, |m.registers|)
       case None => Err(Stop(RegisterIndex(d), m.output))
       case Some(rd) => Ok(m.(registers := m.registers[rd := n])))
    case Store(v, s) => StoreStep(m, v, s)
    case Arith(op, d, l, r) => ArithStep(m, op, d, l, r)
    case Read(v) => ReadStep(m, v)
    case Write(v) =>
      (match Slot(v, |m.memory|)
       case Err(f) => Err(Stop(f, m.output))
       case Ok(j) => Ok(m.(output := m.output + Shown(v, m.memory[j]))))
  }

  /** `RegisterFile[d] = Memory[ord(v) - ord("a")]`. */
  function LoadStep(m: Machine, d: int, v: string): (r: Result<Machine, Stop>)
    ensures r.Ok? ==> |r.value.memory| == |m.memory| && |r.value.registers| == |m.registers|
  {
    match Slot(v, |m.memory|)
    case Err(f) => Err(Stop(f, m.output))
    case Ok(j) =>
      match PyIndex(d, |m.registers|)
      case None => Err(Stop(RegisterIndex(d), m.output))
      case Some(rd) => Ok(m.(registers := m.registers[rd := m.memory[j]]))
  }

  /** `Memory[ord(v) - ord("a")] = RegisterFile[s]`: the register is read first. */
  function StoreStep(m: Machine, v: string, s: int): (r: Result<Machine, Stop>)
    ensures r.Ok? ==> |r.value.memory| == |m.memory| && |r.value.registers| == |m.registers|
  {
    match PyIndex(s, |m.registers|)
    case None => Err(Stop(RegisterIndex(s), m.output))
    case Some(rs) =>
      match Slot(v, |m.memory|)
      case Err(f) => Err(Stop(f, m.output))
      case Ok(j) => Ok(m.(memory := m.memory[j := m.registers[rs]]))
  }

  /** `RegisterFile[d] = operation(RegisterFile[l], RegisterFile[r])`: both operands, then the target. */
  function ArithStep(m: Machine, op: ArithOp, d: int, l: int, r: int): (res: Result<Machine, Stop>)
    ensures res.Ok? ==> |res.value.memory| == |m.memory| && |res.value.registers| == |m.registers|
  {
    match PyIndex(l, |m.registers|)
    case None => Err(Stop(RegisterIndex(l), m.output))
    case Some(rl) =>
      match PyIndex(r, |m.registers|)
      case None => Err(Stop(RegisterIndex(r), m.output))
      case Some(rr) =>
        match PyIndex(d, |m.registers|)
        case None => Err(Stop(RegisterIndex(d), m.output))
        case Some(rd) => Ok(m.(registers := m.registers[rd := Apply(op, m.registers[rl], m.registers[rr])]))
  }

  /**
   * `Memory[ord(v) - ord("a")] = int(input(prompt))`: the prompt is written and the line read
   * and converted before the variable is looked at.
   */
  function ReadStep(m: Machine, v: string): (r: Result<Machine, Stop>)
    ensures r.Ok? ==> |r.value.memory| == |m.memory| && |r.value.registers| == |m.registers|
  {
    var out := m.output + Prompt(v);
    if m.input == [] then Err(Stop(NoInput, out))
    else
      match ParseLine(m.input[0])
      case None => Err(Stop(NotANumber(m.input[0]), out))
      case Some(x) =>
        match Slot(v, |m.memory|)
        case Err(f) => Err(Stop(f, out))
        case Ok(j) => Ok(Machine(m.memory[j := x], m.registers, m.input[1..], out))
  }

  /** How a run ends: the list ran out, or the instruction at position `at` raised. */
  datatype Outcome =
    | Halted(m: Machine)
    | Crashed(at: nat, fault: FaultKind, output: string)

  /** The `while instr` loop from machine `m`: the instructions in order, up to the first that raises. */
  function Run(code: seq<Instr>, m: Machine): (o: Outcome)
    ensures o.Crashed? ==> o.at < |code|
    ensures o.Halted? ==> |o.m.memory| == |m.memory| && |o.m.registers| == |m.registers|
  {
    if code == [] then Halted(m)
    else
      var k := |code| - 1;
      var prior := Run(code[..k], m);
      if prior.Crashed? then prior
      else
        match Step(prior.m, code[k])
        case Ok(next) => Halted(next)
        case Err(stop) => Crashed(k, stop.fault, stop.output)
  }

  // ---------------------------------------------------------------------------------------
  // Python's bitwise operators.
  // ---------------------------------------------------------------------------------------

  /** `(x & y) + (x | y) == x + y`: each bit set in both is counted once by each. */
  lemma {:induction false} AndOrSum(x: int, y: int)
    ensures BitAnd(x, y) + BitOr(x, y) == x + y
    decreases Abs(x) + Abs(y)
  {
    if x != 0 && y != 0 && x != -1 && y != -1 {
      AndOrSum(x / 2, y / 2);
    }
  }

  lemma {:induction false} AndCommutes(x: int, y: int)
    ensures BitAnd(x, y) == BitAnd(y, x)
    decreases Abs(x) + Abs(y)
  {
    if x != 0 && y != 0 && x != -1 && y != -1 {
      AndCommutes(x / 2, y / 2);
    }
  }

  lemma {:induction false} OrCommutes(x: int, y: int)
    ensures BitOr(x, y) == BitOr(y, x)
    decreases Abs(x) + Abs(y)
  {
    if x != 0 && y != 0 && x != -1 && y != -1 {
      OrCommutes(x / 2, y / 2);
    }
  }

  /** `x & x == x` and `x | x == x`. */
  lemma {:induction false} AndOrIdempotent(x: int)
    ensures BitAnd(x, x) == x && BitOr(x, x) == x
    decreases Abs(x)
  {
    if x != 0 && x != -1 {
      AndOrIdempotent(x / 2);
    }
  }

  /** On non-negative operands `&` keeps only bits of both and `|` keeps every bit of either. */
  lemma {:induction false} AndOrBounds(x: int, y: int)
    requires x >= 0 && y >= 0
    ensures 0 <= BitAnd(x, y) <= x && BitAnd(x, y) <= y
    ensures BitOr(x, y) >= x && BitOr(x, y) >= y
    decreases x + y
  {
    if x != 0 && y != 0 {
      AndOrBounds(x / 2, y / 2);
    }
  }

  /** `x & -1 == x` and `x | -1 == -1`: -1 is the integer with every bit set. */
  lemma {:induction false} AllOnes(x: int)
    ensures BitAnd(x, -1) == x && BitOr(x, -1) == -1
  {
  }

  // ---------------------------------------------------------------------------------------
  // Runs.
  // ---------------------------------------------------------------------------------------

  /** The outcome `rest` of code that starts at position `offset`, with a crash position counted from the start. */
  function Shifted(rest: Outcome, offset: nat): Outcome {
    if rest.Halted? then rest else Crashed(offset + rest.at, rest.fault, rest.output)
  }

  /** A run that continues from the outcome `o` of earlier instructions with `code`, which start at position `offset`. */
  function Then(o: Outcome, code: seq<Instr>, offset: nat): (r: Outcome) {
    if o.Crashed? then o else Shifted(Run(code, o.m), offset)
  }

  /** Running two pieces of code one after the other is running them joined. */
  lemma {:induction false} RunAppend(a: seq<Instr>, b: seq<Instr>, m: Machine)
    ensures Run(a + b, m) == Then(Run(a, m), b, |a|)
    decreases |b|
  {
    if b == [] {
      assert a + b == a;
    } else {
      var k := |b| - 1;
      assert a + b == (a + b[..k]) + [b[k]];
      assert b == b[..k] + [b[k]];
      RunAppend(a, b[..k], m);
      RunSnoc(a + b[..k], b[k], m);
      var o := Run(a, m);
      if o.Halted? {
        RunSnoc(b[..k], b[k], o.m);
      }
    }
  }

  /** The last instruction of a run, after the ones before it. */
  lemma {:induction false} RunSnoc(code: seq<Instr>, i: Instr, m: Machine)
    ensures Run(code + [i], m) ==
      var prior := Run(code, m);
      if prior.Crashed? then prior
      else
        match Step(prior.m, i)
        case Ok(next) => Halted(next)
        case Err(stop) => Crashed(|code|, stop.fault, stop.output)
  {
    assert (code + [i])[..|code|] == code;
  }

  /** Once an instruction raises, the instructions after it do not change the outcome. */
  lemma {:induction false} CrashStays(code: seq<Instr>, k: nat, m: Machine)
    requires k <= |code| && Run(code[..k], m).Crashed?
    ensures Run(code, m) == Run(code[..k], m)
  {
    RunAppend(code[..k], code[k..], m);
    assert code[..k] + code[k..] == code;
  }

  /** The first instruction of a run, then the rest. */
  lemma {:induction false} RunCons(i: Instr, code: seq<Instr>, m: Machine)
    ensures Run([i] + code, m) ==
      match Step(m, i)
      case Err(stop) => Crashed(0, stop.fault, stop.output)
      case Ok(next) =>
        var rest := Run(code, next);
        if rest.Halted? then rest else Crashed(1 + rest.at, rest.fault, rest.output)
  {
    RunAppend([i], code, m);
    assert [i][..0] == [];
  }

  /**
   * What one instruction changes when it executes: a register load changes one register, a
   * STORE or a READ one cell, a WRITE only the output; only a READ consumes input, and the
   * output only grows.
   */
  lemma {:induction false} StepFrame(m: Machine, i: Instr)
    requires Step(m, i).Ok?
    ensures var next := Step(m, i).value;
      && (i.Load? || i.LoadI? || i.Arith? ==>
            next.memory == m.memory && next.input == m.input && next.output == m.output
            && PyIndex(i.dest, |m.registers|).Some?
            && forall j :: 0 <= j < |m.registers| && j != PyIndex(i.dest, |m.registers|).value ==>
                 next.registers[j] == m.registers[j])
      && (i.Store? || i.Read? ==>
            next.registers == m.registers && Slot(i.name, |m.memory|).Ok?
            && forall j :: 0 <= j < |m.memory| && j != Slot(i.name, |m.memory|).value ==>
                 next.memory[j] == m.memory[j])
      && (i.Store? ==> next.input == m.input && next.output == m.output)
      && (i.Read? ==> m.input != [] && next.input == m.input[1..] && next.output == m.output + Prompt(i.name))
      && (i.Write? ==>
            next.memory == m.memory && next.registers == m.registers && next.input == m.input
            && exists line :: next.output == m.output + line)
  {
    if i.Write? {
      var j := Slot(i.name, |m.memory|).value;
      assert Step(m, i).value.output == m.output + Shown(i.name, m.memory[j]);
    }
  }
}
