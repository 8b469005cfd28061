/**
 * The whole tinyL toolchain against the meaning of a program: the compiler's code for a
 * program, written to a RISC file and read back, runs on the interpreter exactly as the
 * program's statements evaluate on the six variables, as long as the registers it takes fit
 * in the register file.
 */
module EndToEnd {
  import opened Wrappers
  import opened PyText
  import opened Instruction
  import opened Execution
  import Syntax
  import CompilerSpec
  import RoundTrip

  /** The variables, the input lines still to be read, and what was written. */
  datatype State = State(memory: seq<int>, input: seq<string>, output: string)

  /** The cell of a variable: `a` is cell 0, ..., `f` is cell 5. */
  function Cell(x: char): (j: nat)
    requires 'a' <= x <= 'f'
    ensures j < MemorySize
  {
    x as int - 'a' as int
  }

  /** The value of an expression over the variables. */
  function Eval(e: Syntax.Expr, memory: seq<int>): int
    requires |memory| == MemorySize
  {
    match e
    case Num(d) => d
    case Var(x) => memory[Cell(x)]
    case Bin(op, l, r) => Apply(op, Eval(l, memory), Eval(r, memory))
  }

  /** A read or a print names a variable. */
  predicate StmtChecked(s: Syntax.Stmt) {
    (s.Input? || s.Output?) ==> 'a' <= s.name <= 'f'
  }

  /**
   * One statement: an assignment stores the value of its expression; a read prompts, then
   * takes the next line as an integer; a print writes the variable's value.
   */
  function EvalStmt(s: Syntax.Stmt, st: State): (r: Result<State, Stop>)
    requires |st.memory| == MemorySize && StmtChecked(s)
    ensures r.Ok? ==> |r.value.memory| == MemorySize
  {
    match s
    case Assign(x, e) => Ok(st.(memory := st.memory[Cell(x) := Eval(e, st.memory)]))
    case Input(x) =>
      var out := st.output + Prompt([x]);
      if st.input == [] then Err(Stop(NoInput, out))
      else
        (match ParseLine(st.input[0])
         case None => Err(Stop(NotANumber(st.input[0]), out))
         case Some(v) => Ok(State(st.memory[Cell(x) := v], st.input[1..], out)))
    case Output(x) => Ok(st.(output := st.output + Shown([x], st.memory[Cell(x)])))
  }

  /** The statements in order, up to the first read that fails. */
  function EvalProgram(ss: seq<Syntax.Stmt>, st: State): Result<State, Stop>
    requires |st.memory| == MemorySize && Syntax.Checked(ss)
  {
    if ss == [] then Ok(st)
    else
      assert StmtChecked(ss[0]);
      match EvalStmt(ss[0], st)
      case Err(stop) => Err(stop)
      case Ok(next) => EvalProgram(ss[1..], next)
  }

  function StateOf(m: Machine): State {
    State(m.memory, m.input, m.output)
  }

  /**
   * The interpreter's outcome is the evaluation's: the same variables, input left and output
   * when both finish, and the same fault and output when both stop.
   */
  predicate Agrees(o: Outcome, r: Result<State, Stop>) {
    match r
    case Ok(st) => o.Halted? && StateOf(o.m) == st
    case Err(stop) => o.Crashed? && o.fault == stop.fault && o.output == stop.output
  }

  /**
   * `o` ends normally with the value in register `reg`, the variables, the input and the
   * output of `m`, and the registers up to `n` as `m` had them.
   */
  predicate Computes(o: Outcome, m: Machine, reg: nat, value: int, n: nat) {
    && Sized(m) && o.Halted? && Sized(o.m) && StateOf(o.m) == StateOf(m)
    && reg < MaxRegNum && o.m.registers[reg] == value
    && forall j :: 0 <= j <= n && j < MaxRegNum ==> o.m.registers[j] == m.registers[j]
  }

  /** A one-instruction run. */
  lemma {:induction false} RunOne(i: Instr, m: Machine)
    ensures Run([i], m) ==
      match Step(m, i)
      case Ok(next) => Halted(next)
      case Err(stop) => Crashed(0, stop.fault, stop.output)
  {
    RunSnoc([], i, m);
    assert [] + [i] == [i];
  }

  /**
   * The code Gen writes for `e` when the registers up to `n` are taken leaves the value of
   * `e` in register `n + Size(e)` and changes neither the variables nor the registers up to `n`.
   */
  lemma {:induction false} ExprRuns(e: Syntax.Expr, n: nat, m: Machine)
    requires Sized(m) && n + Syntax.Size(e) < MaxRegNum
    ensures Computes(Run(Syntax.Gen(e, n), m), m, n + Syntax.Size(e), Eval(e, m.memory), n)
  {
    match e
    case Num(d) =>
      NumRuns(d, n, m);
    case Var(x) =>
      VarRuns(x, n, m);
    case Bin(op, l, r) =>
      var a := n + Syntax.Size(l);
      var b := a + Syntax.Size(r);
      ExprRuns(l, n, m);
      var ml := Run(Syntax.Gen(l, n), m).m;
      ExprRuns(r, a, ml);
      SameMemory(r, ml.memory, m.memory);
      OperandsRun(op, Syntax.Gen(l, n), Syntax.Gen(r, a), m, ml, Run(Syntax.Gen(r, a), ml).m, n, a, b,
                  Eval(l, m.memory), Eval(r, ml.memory));
      GenOfBin(op, l, r, n);
      assert b + 1 == n + Syntax.Size(e);
      assert Eval(e, m.memory) == Apply(op, Eval(l, m.memory), Eval(r, ml.memory));
  }

  /** A constant's LOADI puts it in the next register. */
  lemma {:induction false} NumRuns(d: nat, n: nat, m: Machine)
    requires Sized(m) && n + 1 < MaxRegNum
    ensures Computes(Run([LoadI(n + 1, d)], m), m, n + 1, d, n)
  {
    RunOne(LoadI(n + 1, d), m);
  }

  /** A variable's LOAD copies its cell into the next register. */
  lemma {:induction false} VarRuns(x: Syntax.Ident, n: nat, m: Machine)
    requires Sized(m) && n + 1 < MaxRegNum
    ensures Computes(Run([Load(n + 1, [x])], m), m, n + 1, m.memory[Cell(x)], n)
  {
    RunOne(Load(n + 1, [x]), m);
  }

  /**
   * An operator's code: the left operand's code leaves its value in register `a`, the right
   * operand's code then leaves its value in `b` without touching `a`, and the operation
   * combines them into `b + 1`.
   */
  lemma {:induction false} OperandsRun(op: ArithOp, left: seq<Instr>, right: seq<Instr>, m: Machine, ml: Machine, mr: Machine,
                                       n: nat, a: nat, b: nat, x: int, y: int)
    requires Sized(m) && n <= a < b && b + 1 < MaxRegNum
    requires Computes(Run(left, m), m, a, x, n) && ml == Run(left, m).m
    requires Computes(Run(right, ml), ml, b, y, a) && mr == Run(right, ml).m
    ensures Computes(Run(left + right + [Arith(op, b + 1, a, b)], m), m, b + 1, Apply(op, x, y), n)
  {
    RunAppend(left, right, m);
    assert Run(left + right, m) == Halted(mr);
    assert mr.registers[a] == ml.registers[a];
    forall j | 0 <= j <= n && j < MaxRegNum ensures mr.registers[j] == m.registers[j] {
      assert mr.registers[j] == ml.registers[j];
    }
    OperatorRuns(op, left + right, m, mr, n, a, b, x, y);
  }

  lemma {:induction false} GenOfBin(op: ArithOp, l: Syntax.Expr, r: Syntax.Expr, n: nat)
    ensures var a := n + Syntax.Size(l); var b := a + Syntax.Size(r);
      Syntax.Gen(Syntax.Bin(op, l, r), n) == Syntax.Gen(l, n) + Syntax.Gen(r, a) + [Arith(op, b + 1, a, b)]
  {
  }

  lemma {:induction false} SameMemory(e: Syntax.Expr, m1: seq<int>, m2: seq<int>)
    requires |m1| == MemorySize && m1 == m2
    ensures Eval(e, m1) == Eval(e, m2)
  {
  }

  /** The instruction that combines both operands' registers, after their code. */
  lemma {:induction false} OperatorRuns(op: ArithOp, code: seq<Instr>, m: Machine, mr: Machine, n: nat, a: nat, b: nat, x: int, y: int)
    requires Sized(m) && n <= a < b && b + 1 < MaxRegNum
    requires Run(code, m) == Halted(mr) && Sized(mr) && StateOf(mr) == StateOf(m)
    requires mr.registers[a] == x && mr.registers[b] == y
    requires forall j :: 0 <= j <= n && j < MaxRegNum ==> mr.registers[j] == m.registers[j]
    ensures Computes(Run(code + [Arith(op, b + 1, a, b)], m), m, b + 1, Apply(op, x, y), n)
  {
    RunSnoc(code, Arith(op, b + 1, a, b), m);
  }

  /** A statement's code agrees with the statement, and leaves a machine of the same shape. */
  lemma {:induction false} StmtRuns(s: Syntax.Stmt, n: nat, m: Machine)
    requires Sized(m) && StmtChecked(s) && n + Syntax.StmtSize(s) < MaxRegNum
    ensures var o := Run(Syntax.StmtGen(s, n), m);
      Agrees(o, EvalStmt(s, StateOf(m))) && (o.Halted? ==> Sized(o.m))
  {
    match s
    case Assign(x, e) => AssignRuns(x, e, n, m);
    case Input(x) => ReadRuns(x, m);
    case Output(x) => RunOne(Write([x]), m);
  }

  lemma {:induction false} AssignRuns(x: Syntax.Ident, e: Syntax.Expr, n: nat, m: Machine)
    requires Sized(m) && n + Syntax.Size(e) < MaxRegNum
    ensures var o := Run(Syntax.Gen(e, n) + [Store([x], n + Syntax.Size(e))], m);
      o.Halted? && Sized(o.m) && StateOf(o.m) == StateOf(m).(memory := m.memory[Cell(x) := Eval(e, m.memory)])
  {
    ExprRuns(e, n, m);
    RunSnoc(Syntax.Gen(e, n), Store([x], n + Syntax.Size(e)), m);
  }

  lemma {:induction false} ReadRuns(x: char, m: Machine)
    requires Sized(m) && 'a' <= x <= 'f'
    ensures var o := Run([Read([x])], m);
      Agrees(o, EvalStmt(Syntax.Input(x), StateOf(m))) && (o.Halted? ==> Sized(o.m))
  {
    RunOne(Read([x]), m);
  }

  /** Agreement carries over to a run `whole` continued, from its `offset`, by the outcome `tail` of the rest of the code. */
  lemma {:induction false} ThenAgrees(o: Outcome, tail: Outcome, offset: nat, r: Result<State, Stop>, after: Result<State, Stop>,
                                      whole: Outcome, eval: Result<State, Stop>)
    requires Agrees(o, r)
    requires r.Ok? ==> o.Halted? && Agrees(tail, after)
    requires whole == if o.Crashed? then o else Shifted(tail, offset)
    requires eval == if r.Ok? then after else r
    ensures Agrees(whole, eval)
  {
  }

  /** The code and the register count of a program are those of its first statement, then of the rest. */
  lemma {:induction false} ProgramGenCons(ss: seq<Syntax.Stmt>, n: nat)
    requires ss != []
    ensures Syntax.ProgramGen(ss, n) == Syntax.StmtGen(ss[0], n) + Syntax.ProgramGen(ss[1..], n + Syntax.StmtSize(ss[0]))
    ensures Syntax.ProgramSize(ss) == Syntax.StmtSize(ss[0]) + Syntax.ProgramSize(ss[1..])
  {
  }

  /** Evaluating a program evaluates its first statement, then the rest from the state it leaves. */
  lemma {:induction false} EvalProgramCons(ss: seq<Syntax.Stmt>, st: State)
    requires ss != [] && |st.memory| == MemorySize && Syntax.Checked(ss)
    ensures StmtChecked(ss[0]) && Syntax.Checked(ss[1..])
    ensures var r := EvalStmt(ss[0], st);
      EvalProgram(ss, st) == if r.Ok? then EvalProgram(ss[1..], r.value) else r
  {
    assert StmtChecked(ss[0]);
    assert forall k :: 0 <= k < |ss[1..]| ==> ss[1..][k] == ss[k + 1];
  }

  /** The code of the program `ss` from register `n` on, run from `m`. */
  function RunProgram(ss: seq<Syntax.Stmt>, n: nat, m: Machine): Outcome {
    Run(Syntax.ProgramGen(ss, n), m)
  }

  /** The first statement of a program runs, and agrees, as the first step of the program's code. */
  lemma {:induction false} FirstRuns(ss: seq<Syntax.Stmt>, n: nat, m: Machine, st: State) returns (o: Outcome, r: Result<State, Stop>)
    requires ss != [] && Sized(m) && StateOf(m) == st && Syntax.Checked(ss) && n + Syntax.ProgramSize(ss) < MaxRegNum
    ensures Agrees(o, r) && (o.Halted? ==> Sized(o.m))
    ensures Syntax.Checked(ss[1..]) && n + Syntax.StmtSize(ss[0]) + Syntax.ProgramSize(ss[1..]) < MaxRegNum
    ensures RunProgram(ss, n, m)
      == if o.Crashed? then o else Shifted(RunProgram(ss[1..], n + Syntax.StmtSize(ss[0]), o.m), |Syntax.StmtGen(ss[0], n)|)
    ensures EvalProgram(ss, st) == if r.Ok? then EvalProgram(ss[1..], r.value) else r
  {
    ProgramGenCons(ss, n);
    EvalProgramCons(ss, st);
    StmtRuns(ss[0], n, m);
    RunAppend(Syntax.StmtGen(ss[0], n), Syntax.ProgramGen(ss[1..], n + Syntax.StmtSize(ss[0])), m);
    o := Run(Syntax.StmtGen(ss[0], n), m);
    r := EvalStmt(ss[0], st);
  }

  /** A program's code from register `n` on, run from a machine in state `st`, agrees with the program. */
  lemma {:induction false} ProgramRuns(ss: seq<Syntax.Stmt>, n: nat, m: Machine, st: State)
    requires Sized(m) && StateOf(m) == st && Syntax.Checked(ss) && n + Syntax.ProgramSize(ss) < MaxRegNum
    ensures Agrees(RunProgram(ss, n, m), EvalProgram(ss, st))
    decreases |ss|
  {
    if ss != [] {
      var o, r := FirstRuns(ss, n, m, st);
      var next := n + Syntax.StmtSize(ss[0]);
      var offset := |Syntax.StmtGen(ss[0], n)|;
      if r.Ok? {
        ProgramRuns(ss[1..], next, o.m, r.value);
        ThenAgrees(o, RunProgram(ss[1..], next, o.m), offset, r, EvalProgram(ss[1..], r.value),
                   RunProgram(ss, n, m), EvalProgram(ss, st));
      } else {
        ThenAgrees(o, o, offset, r, r, RunProgram(ss, n, m), EvalProgram(ss, st));
      }
    }
  }

  predicate AllWellFormed(code: seq<Instr>) {
    forall k :: 0 <= k < |code| ==> WellFormed(code[k])
  }

  lemma {:induction false} AllWellFormedAppend(a: seq<Instr>, b: seq<Instr>)
    requires AllWellFormed(a) && AllWellFormed(b)
    ensures AllWellFormed(a + b)
  {
    forall k | 0 <= k < |a + b|
      ensures WellFormed((a + b)[k])
    {
      if k < |a| {
        assert (a + b)[k] == a[k];
      } else {
        assert (a + b)[k] == b[k - |a|];
      }
    }
  }

  lemma {:induction false} GenWellFormed(e: Syntax.Expr, n: nat)
    ensures AllWellFormed(Syntax.Gen(e, n))
  {
    match e
    case Num(_) =>
    case Var(_) =>
    case Bin(op, l, r) =>
      GenWellFormed(l, n);
      GenWellFormed(r, n + Syntax.Size(l));
      AllWellFormedAppend(Syntax.Gen(l, n), Syntax.Gen(r, n + Syntax.Size(l)));
      AllWellFormedAppend(Syntax.Gen(l, n) + Syntax.Gen(r, n + Syntax.Size(l)),
                          [Arith(op, n + Syntax.Size(l) + Syntax.Size(r) + 1, n + Syntax.Size(l), n + Syntax.Size(l) + Syntax.Size(r))]);
  }

  /** Every instruction of a checked program's code survives a trip through its text line. */
  lemma {:induction false} ProgramGenWellFormed(ss: seq<Syntax.Stmt>, n: nat)
    requires Syntax.Checked(ss)
    ensures AllWellFormed(Syntax.ProgramGen(ss, n))
    decreases |ss|
  {
    if ss != [] {
      var s := ss[0];
      assert StmtChecked(s);
      var first := Syntax.StmtGen(s, n);
      if s.Assign? {
        GenWellFormed(s.rhs, n);
        AllWellFormedAppend(Syntax.Gen(s.rhs, n), [Store([s.target], n + Syntax.Size(s.rhs))]);
      }
      ProgramGenWellFormed(ss[1..], n + Syntax.StmtSize(s));
      AllWellFormedAppend(first, Syntax.ProgramGen(ss[1..], n + Syntax.StmtSize(s)));
    }
  }

  /**
   * A checked program whose registers fit in the register file, followed by at least one
   * character: the compiler accepts its text, the RISC lines it writes read back as the
   * same code, and that code runs on a zeroed machine as the program evaluates on zeroed
   * variables, prompt for prompt and line for line.
   */
  lemma {:induction false} CompiledProgramRuns(ss: seq<Syntax.Stmt>, rest: string, input: seq<string>)
    requires |ss| > 0 && rest != [] && Syntax.Checked(ss) && Syntax.ProgramSize(ss) < MaxRegNum
    ensures var c := CompilerSpec.Compile(Syntax.ProgramText(ss) + rest);
      && c.result.Ok?
      && DecodeLines(EncodeLines(c.state.out)) == Ok(c.state.out)
      && Agrees(Run(c.state.out, Init(input)), EvalProgram(ss, State(Init(input).memory, input, "")))
  {
    RoundTrip.CompileOfText(ss, rest);
    ProgramGenWellFormed(ss, 0);
    DecodeLinesEncodeLines(Syntax.ProgramGen(ss, 0));
    ProgramRuns(ss, 0, Init(input), StateOf(Init(input)));
    assert RunProgram(ss, 0, Init(input)) == Run(Syntax.ProgramGen(ss, 0), Init(input));
  }
}
