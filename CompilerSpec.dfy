/**
 * The tinyL compiler's recursive-descent parser as functions over its global state: the cursor
 * `token_idx` into the program text, the register counter `regnum`, and the instructions
 * `code_gen` has appended to the output so far. Each production maps the state on entry to
 * its result (a register number, or nothing) and the state on exit. When a production
 * raises, the result is an error and the state is the one at the moment it raised, so the
 * code already written to the output file stays visible.
 */
module CompilerSpec {
  import opened Wrappers
  import opened PyText
  import opened Instruction

  /** What the compiler raises. */
  datatype Error =
    | EndOfInput              // IndexError: `content[token_idx]` past the end of the text
    | SymbolUnknown(symbol: char)   // `Symbol {token} unknown`, from `expr` and `assign`
    | ProgramError(symbol: char)    // `Program error.  Current input symbol is {token}`
    | NonDigit(text: string)        // `to_digit` on a non-digit

  /** The globals: `token_idx`, `regnum` and the instructions written so far. */
  datatype PState = PState(idx: nat, regnum: nat, out: seq<Instr>)

  /** A production's outcome and the globals after it. */
  datatype Parse<T> = Parse(result: Result<T, Error>, state: PState)

  /** The failure of `p` passed on by the production that called it. */
  function Fail<T, U>(p: Parse<U>): (q: Parse<T>)
    requires p.result.Err?
    ensures q.result.Err? && q.result.error == p.result.error && q.state == p.state
  {
    Parse(Err(p.result.error), p.state)
  }

  /** The global state before `program` runs: the first token, no register used, nothing written. */
  const Start := PState(0, 0, [])

  const DigitStrings: seq<string> := ["0", "1", "2", "3", "4", "5", "6", "7", "8", "9"]
  const IdentifierStrings: seq<string> := ["a", "b", "c", "d", "e", "f"]

  /** `is_digit(c)`: `c` is one of the one-character strings "0" to "9" (DigitsListed). */
  predicate IsDigit(c: string) {
    |c| == 1 && '0' <= c[0] <= '9'
  }

  /** `is_digit` tests membership in the list of the ten digit strings. */
  lemma {:induction false} DigitsListed(c: string)
    ensures IsDigit(c) <==> c in DigitStrings
  {
    if IsDigit(c) {
      assert c == DigitStrings[c[0] as int - '0' as int];
    }
  }

  /** `is_identifier(c)`: `c` is one of the one-character strings "a" to "f" (IdentifiersListed). */
  predicate IsIdentifier(c: string) {
    |c| == 1 && 'a' <= c[0] <= 'f'
  }

  /** `is_identifier` tests membership in the list of the six identifier strings. */
  lemma {:induction false} IdentifiersListed(c: string)
    ensures IsIdentifier(c) <==> c in IdentifierStrings
  {
    if IsIdentifier(c) {
      assert c == IdentifierStrings[c[0] as int - 'a' as int];
    }
  }

  /** `to_digit(c)`: the value `int(c)` of a digit, and an error for anything else. */
  function ToDigit(c: string): (r: Result<nat, Error>)
    ensures r.Ok? <==> IsDigit(c)
    ensures r.Ok? ==> r.value < 10 && c == [DigitChar(r.value)]
    ensures r.Err? ==> r.error == NonDigit(c)
  {
    if !IsDigit(c) then Err(NonDigit(c)) else Ok(c[0] as int - '0' as int)
  }

  /** The one-character string `token`, for the current position of the cursor. */
  function Token(content: string, st: PState): string
    requires st.idx < |content|
  {
    [content[st.idx]]
  }

  /**
   * `next_token`: the cursor moves on by exactly one, and `token` becomes the character there;
   * past the end of the text, reading it raises (after the cursor has moved).
   */
  function NextToken(content: string, st: PState): (p: Parse<()>)
    ensures p.state == st.(idx := st.idx + 1)
    ensures p.result.Ok? <==> st.idx + 1 < |content|
  {
    var next := st.(idx := st.idx + 1);
    if next.idx < |content| then Parse(Ok(()), next) else Parse(Err(EndOfInput), next)
  }

  /** `code_gen`: one more instruction at the end of the output. */
  function Emit(st: PState, i: Instr): PState {
    st.(out := st.out + [i])
  }

  /** The opcode an operator character stands for, for the five operators `expr` accepts. */
  function OperatorOf(c: char): Option<ArithOp> {
    if c == '+' then Some(ADD)
    else if c == '-' then Some(SUB)
    else if c == '*' then Some(MUL)
    else if c == '&' then Some(AND)
    else if c == '|' then Some(OR)
    else None
  }

  /**
   * `digit`: takes the next register, writes `LOADI` of the digit into it, then moves past
   * the digit. `code_gen` formats the digit character itself, which prints as its value.
   */
  function Digit(content: string, st: PState): (p: Parse<nat>)
    requires st.idx < |content| && IsDigit(Token(content, st))
    ensures p.result.Ok? ==> p.result.value == p.state.regnum && p.state.idx < |content|
  {
    var reg := st.regnum + 1;
    var emitted := Emit(st.(regnum := reg), LoadI(reg, ToDigit(Token(content, st)).value));
    var n := NextToken(content, emitted);
    if n.result.Err? then Fail(n) else Parse(Ok(reg), n.state)
  }

  /** `variable`: takes the next register, writes `LOAD` of the variable into it, then moves on. */
  function Variable(content: string, st: PState): (p: Parse<nat>)
    requires st.idx < |content|
    ensures p.result.Ok? ==> p.result.value == p.state.regnum && p.state.idx < |content|
  {
    var reg := st.regnum + 1;
    var emitted := Emit(st.(regnum := reg), Load(reg, Token(content, st)));
    var n := NextToken(content, emitted);
    if n.result.Err? then Fail(n) else Parse(Ok(reg), n.state)
  }

  /**
   * `expr`: an operator followed by two expressions, a digit, or a variable; any other token
   * is unknown. The result is the register that holds the expression's value, which is the
   * last register taken; the cursor has moved past the expression.
   */
  function Expr(content: string, st: PState): (p: Parse<nat>)
    requires st.idx < |content|
    ensures p.result.Ok? ==> p.result.value == p.state.regnum > st.regnum
    ensures p.result.Ok? ==> st.idx < p.state.idx < |content|
    decreases |content| - st.idx, 1
  {
    var c := content[st.idx];
    match OperatorOf(c)
    case Some(op) => Operation(content, st, op)
    case None =>
      if IsDigit([c]) then Digit(content, st)
      else if IsIdentifier([c]) then Variable(content, st)
      else Parse(Err(SymbolUnknown(c)), st)
  }

  /**
   * The operator case of `expr`: skip the operator, then the two operands, then take the next
   * register for the instruction that combines their registers.
   */
  function Operation(content: string, st: PState, op: ArithOp): (p: Parse<nat>)
    requires st.idx < |content|
    ensures p.result.Ok? ==> p.result.value == p.state.regnum > st.regnum
    ensures p.result.Ok? ==> st.idx < p.state.idx < |content|
    decreases |content| - st.idx, 0
  {
    var n := NextToken(content, st);
    if n.result.Err? then Fail(n)
    else
      var left := Expr(content, n.state);
      if left.result.Err? then left
      else
        var right := Expr(content, left.state);
        if right.result.Err? then right
        else
          var reg := right.state.regnum + 1;
          var done := Emit(right.state.(regnum := reg), Arith(op, reg, left.result.value, right.result.value));
          Parse(Ok(reg), done)
  }

  /**
   * `assign`: the identifier, then `=`, then an expression, whose register is stored into the
   * identifier. A token other than `=` after the identifier is unknown.
   */
  function Assign(content: string, st: PState): (p: Parse<()>)
    requires st.idx < |content|
    ensures p.result.Ok? ==> st.idx < p.state.idx < |content|
  {
    var identifier := Token(content, st);
    var n := NextToken(content, st);
    if n.result.Err? then Fail(n)
    else if content[n.state.idx] != '=' then Parse(Err(SymbolUnknown(content[n.state.idx])), n.state)
    else
      var m := NextToken(content, n.state);
      if m.result.Err? then Fail(m)
      else
        var e := Expr(content, m.state);
        if e.result.Err? then Fail(e)
        else Parse(Ok(()), Emit(e.state, Store(identifier, e.result.value)))
  }

  /** `read` (and, with `%` and `WRITE`, `tinyL_print`): skip the mark, emit the instruction for the token after it, skip that token. */
  function ReadOrPrint(content: string, st: PState, write: bool): (p: Parse<()>)
    requires st.idx < |content|
    ensures p.result.Ok? ==> st.idx < p.state.idx < |content|
  {
    var n := NextToken(content, st);
    if n.result.Err? then Fail(n)
    else
      var identifier := Token(content, n.state);
      var emitted := Emit(n.state, if write then Write(identifier) else Read(identifier));
      NextToken(content, emitted)
  }

  /** `read`: `?` and the variable to read. The token after `?` is not checked. */
  function ReadStmt(content: string, st: PState): (p: Parse<()>)
    requires st.idx < |content|
    ensures p.result.Ok? ==> st.idx < p.state.idx < |content|
  {
    ReadOrPrint(content, st, false)
  }

  /** `tinyL_print`: `%` and the variable to print. The token after `%` is not checked. */
  function PrintStmt(content: string, st: PState): (p: Parse<()>)
    requires st.idx < |content|
    ensures p.result.Ok? ==> st.idx < p.state.idx < |content|
  {
    ReadOrPrint(content, st, true)
  }

  /** The tokens a statement can start with: an identifier, `?` or `%`. */
  predicate StartsStmt(c: char) {
    IsIdentifier([c]) || c == '?' || c == '%'
  }

  /** `stmt`: an assignment, a read or a print, chosen by the first token; any other token is passed over untouched. */
  function Stmt(content: string, st: PState): (p: Parse<()>)
    requires st.idx < |content|
    ensures p.result.Ok? ==> p.state.idx < |content|
    ensures p.result.Ok? && StartsStmt(content[st.idx]) ==> st.idx < p.state.idx
    ensures !StartsStmt(content[st.idx]) ==> p == Parse(Ok(()), st)
  {
    var c := content[st.idx];
    if IsIdentifier([c]) then Assign(content, st)
    else if c == '?' then ReadStmt(content, st)
    else if c == '%' then PrintStmt(content, st)
    else Parse(Ok(()), st)
  }

  /** `morestmts`: `;` and more statements, or `!`, which ends the program; anything else is an error. */
  function MoreStmts(content: string, st: PState): (p: Parse<()>)
    requires st.idx < |content|
    ensures p.result.Ok? ==> st.idx < p.state.idx < |content|
    decreases |content| - st.idx, 0
  {
    var c := content[st.idx];
    if c == ';' then
      var n := NextToken(content, st);
      if n.result.Err? then n else StmtList(content, n.state)
    else if c == '!' then NextToken(content, st)
    else Parse(Err(ProgramError(c)), st)
  }

  /** `stmtlist`: a statement followed by `morestmts`, when the token can start a statement. */
  function StmtList(content: string, st: PState): (p: Parse<()>)
    requires st.idx < |content|
    ensures p.result.Ok? ==> st.idx < p.state.idx < |content|
    decreases |content| - st.idx, 1
  {
    var c := content[st.idx];
    if StartsStmt(c) then
      var s := Stmt(content, st);
      if s.result.Err? then s else MoreStmts(content, s.state)
    else Parse(Err(ProgramError(c)), st)
  }

  /** `program`: a statement list, when the first token can start a statement. */
  function Program(content: string, st: PState): (p: Parse<()>)
    requires st.idx < |content|
    ensures p.result.Ok? ==> st.idx < p.state.idx < |content|
  {
    var c := content[st.idx];
    if StartsStmt(c) then StmtList(content, st) else Parse(Err(ProgramError(c)), st)
  }

  /**
   * The whole compiler on a program text, from the state `read_input` leaves (the first
   * character as the token; an empty text raises there) through `program`.
   */
  function Compile(content: string): (p: Parse<()>) {
    if content == [] then Parse(Err(EndOfInput), Start) else Program(content, Start)
  }
}
