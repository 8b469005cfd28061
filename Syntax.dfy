/**
 * tinyL programs as trees: the grammar the compiler's productions recognise, the text of
 * each tree in tinyL's prefix notation, and the code the compiler is meant to generate for
 * it. This is the independent reference the parser is proved against.
 *
 *   program   ::= stmtlist
 *   stmtlist  ::= stmt morestmts
 *   morestmts ::= ';' stmtlist | '!'
 *   stmt      ::= assign | read | print
 *   assign    ::= variable '=' expr
 *   read      ::= '?' character
 *   print     ::= '%' character
 *   expr      ::= op expr expr | variable | digit
 *
 * The parser does not check the character after `?` or `%`, so a read or a print names any
 * character; `Checked` says when they all name variables.
 */
module Syntax {
  import opened PyText
  import opened Instruction

  /** The six variables `a` to `f`. */
  type Ident = c: char | 'a' <= c <= 'f' witness 'a'

  /** A one-digit constant. */
  type DigitValue = d: nat | d < 10

  datatype Expr =
    | Num(value: DigitValue)
    | Var(name: Ident)
    | Bin(op: ArithOp, left: Expr, right: Expr)

  datatype Stmt =
    | Assign(target: Ident, rhs: Expr)
    | Input(name: char)
    | Output(name: char)

  /** Every read and print of the program names one of the variables. */
  predicate Checked(ss: seq<Stmt>) {
    forall k :: 0 <= k < |ss| ==> match ss[k]
      case Assign(_, _) => true
      case Input(x) => 'a' <= x <= 'f'
      case Output(x) => 'a' <= x <= 'f'
  }

  /** The character that writes `op`. */
  function OperatorSymbol(op: ArithOp): char {
    match op
    case ADD => '+'
    case SUB => '-'
    case MUL => '*'
    case AND => '&'
    case OR => '|'
  }

  function ExprText(e: Expr): (s: string)
    ensures |s| >= 1
  {
    match e
    case Num(d) => [DigitChar(d)]
    case Var(x) => [x]
    case Bin(op, l, r) => [OperatorSymbol(op)] + ExprText(l) + ExprText(r)
  }

  function StmtText(s: Stmt): (t: string)
    ensures |t| >= 2
  {
    match s
    case Assign(x, e) => [x, '='] + ExprText(e)
    case Input(x) => ['?', x]
    case Output(x) => ['%', x]
  }

  /** Statements separated by `;` and ended by `!`: a statement list. */
  function ProgramText(ss: seq<Stmt>): (t: string)
    requires |ss| > 0
    ensures |t| >= 3
    decreases |ss|, 1
  {
    StmtText(ss[0]) + RestText(ss[1..])
  }

  /** What follows a statement: `;` and more statements, or `!` after the last one. */
  function RestText(ss: seq<Stmt>): (t: string)
    ensures |t| >= 1
    decreases |ss|, 2
  {
    if ss == [] then "!" else ";" + ProgramText(ss)
  }

  /** The number of registers an expression's code takes: one per leaf and one per operator. */
  function Size(e: Expr): (n: nat)
    ensures n >= 1
  {
    match e
    case Num(_) => 1
    case Var(_) => 1
    case Bin(_, l, r) => Size(l) + Size(r) + 1
  }

  /**
   * The code for `e` when registers up to `n` are taken: each leaf loads into the next
   * register; an operator's code is its left operand's, then its right operand's, then one
   * instruction combining their registers into the register after both.
   */
  function Gen(e: Expr, n: nat): seq<Instr> {
    match e
    case Num(d) => [LoadI(n + 1, d)]
    case Var(x) => [Load(n + 1, [x])]
    case Bin(op, l, r) =>
      Gen(l, n) + Gen(r, n + Size(l)) + [Arith(op, n + Size(l) + Size(r) + 1, n + Size(l), n + Size(l) + Size(r))]
  }

  function StmtSize(s: Stmt): nat {
    match s
    case Assign(_, e) => Size(e)
    case Input(_) => 0
    case Output(_) => 0
  }

  function StmtGen(s: Stmt, n: nat): seq<Instr> {
    match s
    case Assign(x, e) => Gen(e, n) + [Store([x], n + Size(e))]
    case Input(x) => [Read([x])]
    case Output(x) => [Write([x])]
  }

  function ProgramSize(ss: seq<Stmt>): nat {
    if ss == [] then 0 else StmtSize(ss[0]) + ProgramSize(ss[1..])
  }

  /** The code for the statements in order, each starting where the registers of the ones before end. */
  function ProgramGen(ss: seq<Stmt>, n: nat): seq<Instr> {
    if ss == [] then [] else StmtGen(ss[0], n) + ProgramGen(ss[1..], n + StmtSize(ss[0]))
  }
}
