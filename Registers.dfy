/**
 * Register allocation in the tinyL compiler. Every instruction that writes a register
 * (LOAD, LOADI and the arithmetic and logic opcodes) writes the register after the last one
 * taken, so the registers written are 1, 2, 3, ... in order and never reused, and every
 * register an instruction reads has been written by an earlier one. This holds of the
 * output after every production, whether it ends normally or raises.
 */
module Registers {
  import opened Wrappers
  import opened Instruction
  import opened CompilerSpec
  import opened CompilerProperties

  /** The instruction writes a register. */
  predicate Defines(i: Instr) {
    i.Load? || i.LoadI? || i.Arith?
  }

  /** Each register the instruction reads is among 1..n. */
  predicate ReadsAtMost(i: Instr, n: nat) {
    match i
    case Arith(_, _, l, r) => 1 <= l <= n && 1 <= r <= n
    case Store(_, s) => 1 <= s <= n
    case _ => true
  }

  /** With registers 1..n taken, the instruction writes register n + 1 if any and reads only taken ones. */
  predicate Fits(i: Instr, n: nat) {
    (Defines(i) ==> i.dest == n + 1) && ReadsAtMost(i, n)
  }

  /** The number of instructions of `code` that write a register. */
  function Defined(code: seq<Instr>): nat {
    if code == [] then 0
    else Defined(code[..|code| - 1]) + (if Defines(code[|code| - 1]) then 1 else 0)
  }

  /** Each instruction fits the registers taken by the instructions before it. */
  predicate WellAllocated(code: seq<Instr>) {
    code == [] || (WellAllocated(code[..|code| - 1]) && Fits(code[|code| - 1], Defined(code[..|code| - 1])))
  }

  /** WellAllocated, instruction by instruction. */
  lemma {:induction false} WellAllocatedAt(code: seq<Instr>, k: nat)
    requires WellAllocated(code) && k < |code|
    ensures WellAllocated(code[..k]) && Fits(code[k], Defined(code[..k]))
  {
    var init := code[..|code| - 1];
    if k < |init| {
      WellAllocatedAt(init, k);
      assert init[..k] == code[..k];
    }
  }

  /** The invariant of the globals: the output is well allocated and `regnum` counts the registers it has taken. */
  predicate Allocated(st: PState) {
    WellAllocated(st.out) && Defined(st.out) == st.regnum
  }

  lemma {:induction false} EmitAllocated(st: PState, i: Instr)
    requires Allocated(st) && Fits(i, st.regnum)
    ensures Allocated(Emit(st.(regnum := st.regnum + if Defines(i) then 1 else 0), i))
  {
    assert (st.out + [i])[..|st.out|] == st.out;
  }

  lemma {:induction false} ExprAllocated(content: string, st: PState)
    requires st.idx < |content| && Allocated(st)
    ensures Allocated(Expr(content, st).state)
    decreases |content| - st.idx, 1
  {
    var c := content[st.idx];
    match OperatorOf(c)
    case Some(op) =>
      OperationAllocated(content, st, op);
    case None =>
      if IsDigit([c]) {
        DigitAllocated(content, st);
      } else if IsIdentifier([c]) {
        VariableAllocated(content, st);
      }
  }

  lemma {:induction false} DigitAllocated(content: string, st: PState)
    requires st.idx < |content| && IsDigit(Token(content, st)) && Allocated(st)
    ensures Allocated(Digit(content, st).state)
  {
    EmitAllocated(st, LoadI(st.regnum + 1, ToDigit(Token(content, st)).value));
  }

  lemma {:induction false} VariableAllocated(content: string, st: PState)
    requires st.idx < |content| && Allocated(st)
    ensures Allocated(Variable(content, st).state)
  {
    EmitAllocated(st, Load(st.regnum + 1, Token(content, st)));
  }

  /** The operator case of `expr`: both operands, then the instruction combining their registers, which both are taken. */
  lemma {:induction false} OperationAllocated(content: string, st: PState, op: ArithOp)
    requires st.idx < |content| && Allocated(st)
    ensures Allocated(Operation(content, st, op).state)
    decreases |content| - st.idx, 0
  {
    var n := NextToken(content, st);
    if n.result.Ok? {
      ExprAllocated(content, n.state);
      var left := Expr(content, n.state);
      if left.result.Ok? {
        ExprAllocated(content, left.state);
        ExprGrows(content, left.state);
        var right := Expr(content, left.state);
        if right.result.Ok? {
          EmitAllocated(right.state, Arith(op, right.state.regnum + 1, left.result.value, right.result.value));
        }
      }
    }
  }

  lemma {:induction false} AssignAllocated(content: string, st: PState)
    requires st.idx < |content| && Allocated(st)
    ensures Allocated(Assign(content, st).state)
  {
    var n := NextToken(content, st);
    if n.result.Ok? && content[n.state.idx] == '=' {
      var m := NextToken(content, n.state);
      if m.result.Ok? {
        ExprAllocated(content, m.state);
        var e := Expr(content, m.state);
        if e.result.Ok? {
          EmitAllocated(e.state, Store([content[st.idx]], e.result.value));
        }
      }
    }
  }

  lemma {:induction false} StmtAllocated(content: string, st: PState)
    requires st.idx < |content| && Allocated(st)
    ensures Allocated(Stmt(content, st).state)
  {
    var c := content[st.idx];
    if IsIdentifier([c]) {
      AssignAllocated(content, st);
    } else if c == '?' || c == '%' {
      var n := NextToken(content, st);
      if n.result.Ok? {
        var i := if c == '%' then Write(Token(content, n.state)) else Read(Token(content, n.state));
        EmitAllocated(n.state, i);
      }
    }
  }

  lemma {:induction false} MoreStmtsAllocated(content: string, st: PState)
    requires st.idx < |content| && Allocated(st)
    ensures Allocated(MoreStmts(content, st).state)
    decreases |content| - st.idx, 0
  {
    var n := NextToken(content, st);
    if content[st.idx] == ';' && n.result.Ok? {
      StmtListAllocated(content, n.state);
    }
  }

  lemma {:induction false} StmtListAllocated(content: string, st: PState)
    requires st.idx < |content| && Allocated(st)
    ensures Allocated(StmtList(content, st).state)
    decreases |content| - st.idx, 1
  {
    if StartsStmt(content[st.idx]) {
      StmtAllocated(content, st);
      var s := Stmt(content, st);
      if s.result.Ok? {
        MoreStmtsAllocated(content, s.state);
      }
    }
  }

  /**
   * Whatever the text, and whether or not compilation raises, the instructions written are
   * well allocated and the final `regnum` is the number of registers they take.
   */
  lemma {:induction false} CompileAllocated(content: string)
    ensures Allocated(Compile(content).state)
  {
    if content != [] && StartsStmt(content[0]) {
      StmtListAllocated(content, Start);
    }
  }

  lemma {:induction false} DefinedPrefix(code: seq<Instr>, k: nat)
    requires k <= |code|
    ensures Defined(code[..k]) <= Defined(code)
    decreases |code| - k
  {
    if k < |code| {
      var init := code[..|code| - 1];
      assert code[..k] == init[..k];
      DefinedPrefix(init, k);
    } else {
      assert code[..k] == code;
    }
  }

  lemma {:induction false} DefinedStep(code: seq<Instr>, k: nat)
    requires k < |code|
    ensures Defined(code[..k + 1]) == Defined(code[..k]) + if Defines(code[k]) then 1 else 0
  {
    assert code[..k + 1][..k] == code[..k];
  }

  /** A register counted as taken was written by some instruction. */
  lemma {:induction false} DefinedWritten(code: seq<Instr>, u: nat)
    requires WellAllocated(code) && 1 <= u <= Defined(code)
    ensures exists j :: 0 <= j < |code| && Defines(code[j]) && code[j].dest == u
  {
    var k := |code| - 1;
    var init := code[..k];
    if u <= Defined(init) {
      DefinedWritten(init, u);
      var j :| 0 <= j < |init| && Defines(init[j]) && init[j].dest == u;
      assert code[j] == init[j];
    } else {
      assert Defines(code[k]) && code[k].dest == Defined(init) + 1;
    }
  }

  /** In well-allocated code the registers written strictly increase, so none is written twice. */
  lemma {:induction false} WritesIncrease(code: seq<Instr>)
    requires WellAllocated(code)
    ensures forall j, k :: 0 <= j < k < |code| && Defines(code[j]) && Defines(code[k]) ==> code[j].dest < code[k].dest
  {
    forall j, k | 0 <= j < k < |code| && Defines(code[j]) && Defines(code[k])
      ensures code[j].dest < code[k].dest
    {
      WellAllocatedAt(code, j);
      WellAllocatedAt(code, k);
      DefinedStep(code, j);
      DefinedPrefix(code[..k], j + 1);
      assert code[..k][..j + 1] == code[..j + 1];
    }
  }

  /** In well-allocated code an operation's operands are below its result register. */
  lemma {:induction false} OperandsBelow(code: seq<Instr>)
    requires WellAllocated(code)
    ensures forall k :: 0 <= k < |code| && code[k].Arith? ==> code[k].lhs < code[k].dest && code[k].rhs < code[k].dest
  {
    forall k | 0 <= k < |code| && code[k].Arith?
      ensures code[k].lhs < code[k].dest && code[k].rhs < code[k].dest
    {
      WellAllocatedAt(code, k);
    }
  }

  /** Register `u` is written by one of the first `k` instructions of `code`. */
  predicate WrittenBefore(code: seq<Instr>, k: nat, u: int)
    requires k <= |code|
  {
    exists j :: 0 <= j < k && Defines(code[j]) && code[j].dest == u
  }

  /** In well-allocated code every register read was written by an earlier instruction. */
  lemma {:induction false} ReadsWritten(code: seq<Instr>)
    requires WellAllocated(code)
    ensures forall k, u :: 0 <= k < |code| && u in ReadRegisters(code[k]) ==> WrittenBefore(code, k, u)
  {
    forall k, u | 0 <= k < |code| && u in ReadRegisters(code[k])
      ensures WrittenBefore(code, k, u)
    {
      WellAllocatedAt(code, k);
      var init := code[..k];
      DefinedWritten(init, u);
      var j :| 0 <= j < |init| && Defines(init[j]) && init[j].dest == u;
      assert code[j] == init[j];
    }
  }

  /** The registers an instruction reads. */
  function ReadRegisters(i: Instr): set<int> {
    match i
    case Arith(_, _, l, r) => {l, r}
    case Store(_, s) => {s}
    case _ => {}
  }
}
