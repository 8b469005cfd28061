/**
 * The tinyL compiler against the reference of Syntax, in both directions: the text of any
 * program tree compiles to that tree's reference code, and any text the compiler accepts
 * begins with the text of some program tree, whose reference code is what was written.
 */
module RoundTrip {
  import opened Wrappers
  import opened PyText
  import opened Instruction
  import opened CompilerSpec
  import Syntax

  // ---------------------------------------------------------------------------------------
  // Slices of the program text.
  // ---------------------------------------------------------------------------------------

  /** The text `t` stands in `content` at position `i`. */
  predicate At(content: string, i: nat, t: string)
    decreases |t|
  {
    if t == [] then i <= |content| else i < |content| && content[i] == t[0] && At(content, i + 1, t[1..])
  }

  lemma {:induction false} AtBound(content: string, i: nat, t: string)
    requires At(content, i, t)
    ensures i + |t| <= |content|
    decreases |t|
  {
    if t != [] {
      AtBound(content, i + 1, t[1..]);
    }
  }

  lemma {:induction false} AtSplit(content: string, i: nat, a: string, b: string)
    requires At(content, i, a + b)
    ensures At(content, i, a) && At(content, i + |a|, b)
    decreases |a|
  {
    if a == [] {
      assert a + b == b;
      AtBound(content, i, b);
    } else {
      assert (a + b)[0] == a[0] && (a + b)[1..] == a[1..] + b;
      AtSplit(content, i + 1, a[1..], b);
    }
  }

  lemma {:induction false} AtJoin(content: string, i: nat, a: string, b: string)
    requires At(content, i, a) && At(content, i + |a|, b)
    ensures At(content, i, a + b)
    decreases |a|
  {
    if a == [] {
      assert a + b == b;
    } else {
      assert (a + b)[0] == a[0] && (a + b)[1..] == a[1..] + b;
      AtJoin(content, i + 1, a[1..], b);
    }
  }

  lemma {:induction false} AtFirst(content: string, i: nat, t: string)
    requires At(content, i, t) && |t| > 0
    ensures content[i] == t[0]
  {
  }

  lemma {:induction false} AtTwo(content: string, i: nat, t: string)
    requires At(content, i, t) && |t| > 1
    ensures i + |t| <= |content|
    ensures content[i] == t[0] && content[i + 1] == t[1]
  {
    AtBound(content, i, t);
    assert t[1..][0] == t[1];
  }

  /** At, as a slice of the text. */
  lemma {:induction false} AtSlice(content: string, i: nat, t: string)
    ensures At(content, i, t) <==> i + |t| <= |content| && content[i..i + |t|] == t
    decreases |t|
  {
    if t != [] {
      AtSlice(content, i + 1, t[1..]);
      if i + |t| <= |content| {
        assert content[i..i + |t|] == [content[i]] + content[i + 1..i + 1 + |t[1..]|];
        assert t == [t[0]] + t[1..];
      }
    }
  }

  lemma {:induction false} OperatorSymbols(op: ArithOp, c: char)
    ensures OperatorOf(Syntax.OperatorSymbol(op)) == Some(op)
    ensures OperatorOf(c).Some? ==> Syntax.OperatorSymbol(OperatorOf(c).value) == c
  {
  }

  // ---------------------------------------------------------------------------------------
  // From trees to text: each production recognises the text of its tree.
  // ---------------------------------------------------------------------------------------

  /**
   * `expr` on the text of `e`, followed by at least one more character: it takes Size(e)
   * registers, writes Gen(e), returns the last register taken and stops right after `e`.
   */
  lemma {:induction false} ExprOfText(e: Syntax.Expr, content: string, st: PState)
    requires At(content, st.idx, Syntax.ExprText(e)) && st.idx + |Syntax.ExprText(e)| < |content|
    ensures Expr(content, st) ==
      Parse(Ok(st.regnum + Syntax.Size(e)),
            PState(st.idx + |Syntax.ExprText(e)|, st.regnum + Syntax.Size(e), st.out + Syntax.Gen(e, st.regnum)))
    decreases Syntax.Size(e), 2
  {
    AtFirst(content, st.idx, Syntax.ExprText(e));
    match e
    case Num(d) =>
    case Var(x) =>
    case Bin(op, l, r) => OperationOfText(op, l, r, content, st);
  }

  /** The operator case of ExprOfText: the operator, the left operand's text, then the right one's. */
  lemma {:induction false} OperationOfText(op: ArithOp, l: Syntax.Expr, r: Syntax.Expr, content: string, st: PState)
    requires var e := Syntax.Bin(op, l, r);
      At(content, st.idx, Syntax.ExprText(e)) && st.idx + |Syntax.ExprText(e)| < |content|
    ensures OperatorOf(content[st.idx]) == Some(op)
    ensures var e := Syntax.Bin(op, l, r);
      Operation(content, st, op) ==
      Parse(Ok(st.regnum + Syntax.Size(e)),
            PState(st.idx + |Syntax.ExprText(e)|, st.regnum + Syntax.Size(e), st.out + Syntax.Gen(e, st.regnum)))
    decreases Syntax.Size(Syntax.Bin(op, l, r)), 1
  {
    var j, k := BinTextAt(op, l, r, content, st.idx);
    ExprOfText(l, content, PState(st.idx + 1, st.regnum, st.out));
    RightOperandOfText(op, l, r, content, st, k);
  }

  /** OperationOfText once the left operand is parsed, ending at `k`. */
  lemma {:induction false} RightOperandOfText(op: ArithOp, l: Syntax.Expr, r: Syntax.Expr, content: string, st: PState, k: nat)
    requires st.idx + 1 < |content|
    requires At(content, k, Syntax.ExprText(r)) && k + |Syntax.ExprText(r)| == st.idx + |Syntax.ExprText(Syntax.Bin(op, l, r))|
    requires k + |Syntax.ExprText(r)| < |content|
    requires var a := st.regnum + Syntax.Size(l);
      Expr(content, PState(st.idx + 1, st.regnum, st.out)) == Parse(Ok(a), PState(k, a, st.out + Syntax.Gen(l, st.regnum)))
    ensures var e := Syntax.Bin(op, l, r);
      Operation(content, st, op) ==
      Parse(Ok(st.regnum + Syntax.Size(e)),
            PState(st.idx + |Syntax.ExprText(e)|, st.regnum + Syntax.Size(e), st.out + Syntax.Gen(e, st.regnum)))
    decreases Syntax.Size(Syntax.Bin(op, l, r)), 0
  {
    var a := st.regnum + Syntax.Size(l);
    ExprOfText(r, content, PState(k, a, st.out + Syntax.Gen(l, st.regnum)));
    OperandsDone(op, l, r, content, st, k);
  }

  /** OperationOfText once both operands are parsed. */
  lemma {:induction false} OperandsDone(op: ArithOp, l: Syntax.Expr, r: Syntax.Expr, content: string, st: PState, k: nat)
    requires st.idx + 1 < |content|
    requires k + |Syntax.ExprText(r)| == st.idx + |Syntax.ExprText(Syntax.Bin(op, l, r))|
    requires var a := st.regnum + Syntax.Size(l);
      Expr(content, PState(st.idx + 1, st.regnum, st.out)) == Parse(Ok(a), PState(k, a, st.out + Syntax.Gen(l, st.regnum)))
    requires var a := st.regnum + Syntax.Size(l);
      var out := st.out + Syntax.Gen(l, st.regnum);
      k < |content| &&
      Expr(content, PState(k, a, out)) ==
      Parse(Ok(a + Syntax.Size(r)), PState(k + |Syntax.ExprText(r)|, a + Syntax.Size(r), out + Syntax.Gen(r, a)))
    ensures var e := Syntax.Bin(op, l, r);
      Operation(content, st, op) ==
      Parse(Ok(st.regnum + Syntax.Size(e)),
            PState(st.idx + |Syntax.ExprText(e)|, st.regnum + Syntax.Size(e), st.out + Syntax.Gen(e, st.regnum)))
  {
    var n := st.regnum;
    var a := n + Syntax.Size(l);
    var b := a + Syntax.Size(r);
    var out := st.out + Syntax.Gen(l, n);
    OperationStep(content, st, op, k, k + |Syntax.ExprText(r)|, a, b, out, out + Syntax.Gen(r, a));
    GenBin(op, l, r, n, a, b, st.out);
  }

  /**
   * One unfolding of the operator case of `expr`, with the outcomes of both operands given:
   * the left one takes the registers up to `a`, ends at `k` and writes `left`; the right one
   * takes the registers up to `b`, ends at `end` and writes `right`.
   */
  lemma {:induction false} OperationStep(content: string, st: PState, op: ArithOp, k: nat, end: nat, a: nat, b: nat, left: seq<Instr>, right: seq<Instr>)
    requires st.idx + 1 < |content|
    requires Expr(content, PState(st.idx + 1, st.regnum, st.out)) == Parse(Ok(a), PState(k, a, left))
    requires k < |content| && Expr(content, PState(k, a, left)) == Parse(Ok(b), PState(end, b, right))
    ensures Operation(content, st, op) == Parse(Ok(b + 1), PState(end, b + 1, right + [Arith(op, b + 1, a, b)]))
  {
    assert NextToken(content, st).state == PState(st.idx + 1, st.regnum, st.out);
  }

  /** Where the parts of an operator expression's text stand: the operator at `i`, the left operand at `j`, the right at `k`. */
  lemma {:induction false} BinTextAt(op: ArithOp, l: Syntax.Expr, r: Syntax.Expr, content: string, i: nat) returns (j: nat, k: nat)
    requires At(content, i, Syntax.ExprText(Syntax.Bin(op, l, r)))
    ensures OperatorOf(content[i]) == Some(op)
    ensures j == i + 1 && At(content, j, Syntax.ExprText(l))
    ensures k == j + |Syntax.ExprText(l)| && At(content, k, Syntax.ExprText(r))
    ensures k + |Syntax.ExprText(r)| == i + |Syntax.ExprText(Syntax.Bin(op, l, r))|
  {
    var tl, tr := Syntax.ExprText(l), Syntax.ExprText(r);
    var sym := Syntax.OperatorSymbol(op);
    assert Syntax.ExprText(Syntax.Bin(op, l, r)) == [sym] + (tl + tr);
    AtSplit(content, i, [sym], tl + tr);
    AtSplit(content, i + 1, tl, tr);
    AtFirst(content, i, [sym]);
    OperatorSymbols(op, sym);
    j, k := i + 1, i + 1 + |tl|;
  }

  /** The reference code of an operator expression, appended to `out`. */
  lemma {:induction false} GenBin(op: ArithOp, l: Syntax.Expr, r: Syntax.Expr, n: nat, a: nat, b: nat, out: seq<Instr>)
    requires a == n + Syntax.Size(l) && b == a + Syntax.Size(r)
    ensures b + 1 == n + Syntax.Size(Syntax.Bin(op, l, r))
    ensures out + Syntax.Gen(l, n) + Syntax.Gen(r, a) + [Arith(op, b + 1, a, b)] == out + Syntax.Gen(Syntax.Bin(op, l, r), n)
  {
  }

  /** `assign` on an identifier, `=` and the text of `e`, followed by at least one more character. */
  lemma {:induction false} AssignOfText(x: Syntax.Ident, e: Syntax.Expr, content: string, st: PState)
    requires st.idx + 1 < |content| && content[st.idx] == x && content[st.idx + 1] == '='
    requires At(content, st.idx + 2, Syntax.ExprText(e)) && st.idx + 2 + |Syntax.ExprText(e)| < |content|
    ensures Assign(content, st) ==
      Parse(Ok(()),
            PState(st.idx + 2 + |Syntax.ExprText(e)|, st.regnum + Syntax.Size(e),
                   st.out + Syntax.StmtGen(Syntax.Assign(x, e), st.regnum)))
  {
    ExprOfText(e, content, PState(st.idx + 2, st.regnum, st.out));
    AssignStep(content, st, x, |Syntax.ExprText(e)|, Syntax.Size(e), Syntax.Gen(e, st.regnum));
    AppendAssoc(st.out, Syntax.Gen(e, st.regnum), [Store([x], st.regnum + Syntax.Size(e))]);
  }

  lemma {:induction false} AppendAssoc(a: seq<Instr>, b: seq<Instr>, c: seq<Instr>)
    ensures a + b + c == a + (b + c)
  {
  }

  /** One unfolding of `assign` on an identifier and `=`, with the expression given by its outcome. */
  lemma {:induction false} AssignStep(content: string, st: PState, x: char, t: nat, k: nat, g: seq<Instr>)
    requires st.idx + 2 < |content| && content[st.idx] == x && content[st.idx + 1] == '='
    requires Expr(content, PState(st.idx + 2, st.regnum, st.out)) ==
      Parse(Ok(st.regnum + k), PState(st.idx + 2 + t, st.regnum + k, st.out + g))
    ensures Assign(content, st) == Parse(Ok(()), PState(st.idx + 2 + t, st.regnum + k, st.out + g + [Store([x], st.regnum + k)]))
  {
    assert Token(content, st) == [x];
    assert st.(idx := st.idx + 1).(idx := st.idx + 2) == PState(st.idx + 2, st.regnum, st.out);
  }

  /** Where the parts of an assignment's text stand: the identifier at `i`, `=` after it, then the expression. */
  lemma {:induction false} AssignTextAt(x: Syntax.Ident, e: Syntax.Expr, content: string, i: nat)
    requires At(content, i, Syntax.StmtText(Syntax.Assign(x, e)))
    ensures i + 1 < |content| && content[i] == x && content[i + 1] == '='
    ensures At(content, i + 2, Syntax.ExprText(e)) && i + 2 + |Syntax.ExprText(e)| == i + |Syntax.StmtText(Syntax.Assign(x, e))|
  {
    assert Syntax.StmtText(Syntax.Assign(x, e)) == [x, '='] + Syntax.ExprText(e);
    AtSplit(content, i, [x, '='], Syntax.ExprText(e));
    AtTwo(content, i, [x, '=']);
  }

  /** `stmt` on the text of `s`, followed by at least one more character. */
  lemma {:induction false} StmtOfText(s: Syntax.Stmt, content: string, st: PState)
    requires At(content, st.idx, Syntax.StmtText(s)) && st.idx + |Syntax.StmtText(s)| < |content|
    ensures Stmt(content, st) ==
      Parse(Ok(()),
            PState(st.idx + |Syntax.StmtText(s)|, st.regnum + Syntax.StmtSize(s), st.out + Syntax.StmtGen(s, st.regnum)))
  {
    if s.Assign? {
      AssignStmtOfText(s.target, s.rhs, content, st);
    } else {
      ReadOrPrintOfText(s, content, st);
    }
  }

  /** StmtOfText for an assignment. */
  lemma {:induction false} AssignStmtOfText(x: Syntax.Ident, e: Syntax.Expr, content: string, st: PState)
    requires var s := Syntax.Assign(x, e);
      At(content, st.idx, Syntax.StmtText(s)) && st.idx + |Syntax.StmtText(s)| < |content|
    ensures var s := Syntax.Assign(x, e);
      Stmt(content, st) ==
      Parse(Ok(()),
            PState(st.idx + |Syntax.StmtText(s)|, st.regnum + Syntax.StmtSize(s), st.out + Syntax.StmtGen(s, st.regnum)))
  {
    AssignTextAt(x, e, content, st.idx);
    AssignOfText(x, e, content, st);
  }

  /** StmtOfText for a read or a print: the mark, then the character it names. */
  lemma {:induction false} ReadOrPrintOfText(s: Syntax.Stmt, content: string, st: PState)
    requires s.Input? || s.Output?
    requires At(content, st.idx, Syntax.StmtText(s)) && st.idx + |Syntax.StmtText(s)| < |content|
    ensures Stmt(content, st) ==
      Parse(Ok(()),
            PState(st.idx + |Syntax.StmtText(s)|, st.regnum + Syntax.StmtSize(s), st.out + Syntax.StmtGen(s, st.regnum)))
  {
    AtTwo(content, st.idx, Syntax.StmtText(s));
    assert Stmt(content, st) == ReadOrPrint(content, st, s.Output?);
  }

  /**
   * `stmtlist` on the text of a statement list. It writes the reference code of all the
   * statements and stops after the `!`; reading the token after the `!` raises when the
   * text ends there.
   */
  lemma {:induction false} StmtListOfText(ss: seq<Syntax.Stmt>, content: string, st: PState)
    requires |ss| > 0 && At(content, st.idx, Syntax.ProgramText(ss))
    ensures StmtList(content, st) ==
      Parse(if st.idx + |Syntax.ProgramText(ss)| < |content| then Ok(()) else Err(EndOfInput),
            PState(st.idx + |Syntax.ProgramText(ss)|, st.regnum + Syntax.ProgramSize(ss),
                   st.out + Syntax.ProgramGen(ss, st.regnum)))
    decreases |ss|
  {
    var j := ProgramTextAt(ss, content, st.idx);
    var n := st.regnum;
    var m := n + Syntax.StmtSize(ss[0]);
    var out := st.out + Syntax.StmtGen(ss[0], n);
    StmtOfText(ss[0], content, st);
    StmtListStep(content, st, PState(j, m, out));
    ProgramFirst(ss, n, m, st.out);
    if |ss| == 1 {
      MoreStmtsEnd(content, PState(j, m, out));
    } else {
      MoreStmtsOn(content, PState(j, m, out));
      StmtListOfText(ss[1..], content, PState(j + 1, m, out));
    }
  }

  /** The reference code and register count of a statement list: the first statement's, then the rest's. */
  lemma {:induction false} ProgramFirst(ss: seq<Syntax.Stmt>, n: nat, m: nat, out: seq<Instr>)
    requires |ss| > 0 && m == n + Syntax.StmtSize(ss[0])
    ensures m + Syntax.ProgramSize(ss[1..]) == n + Syntax.ProgramSize(ss)
    ensures out + Syntax.StmtGen(ss[0], n) + Syntax.ProgramGen(ss[1..], m) == out + Syntax.ProgramGen(ss, n)
    ensures |ss| == 1 ==> m == n + Syntax.ProgramSize(ss) && out + Syntax.StmtGen(ss[0], n) == out + Syntax.ProgramGen(ss, n)
  {
    var g, h := Syntax.StmtGen(ss[0], n), Syntax.ProgramGen(ss[1..], m);
    assert out + g + h == out + (g + h);
    if |ss| == 1 {
      assert ss[1..] == [];
      assert g + [] == g;
    }
  }

  /** Where the parts of a statement list's text stand: the first statement at `i`, then `!` or `;` at `j`. */
  lemma {:induction false} ProgramTextAt(ss: seq<Syntax.Stmt>, content: string, i: nat) returns (j: nat)
    requires |ss| > 0 && At(content, i, Syntax.ProgramText(ss))
    ensures j == i + |Syntax.StmtText(ss[0])| && At(content, i, Syntax.StmtText(ss[0]))
    ensures StartsStmt(content[i])
    ensures j < |content| && content[j] == if |ss| == 1 then '!' else ';'
    ensures |ss| == 1 ==> j + 1 == i + |Syntax.ProgramText(ss)|
    ensures |ss| > 1 ==>
      At(content, j + 1, Syntax.ProgramText(ss[1..])) && j + 1 + |Syntax.ProgramText(ss[1..])| == i + |Syntax.ProgramText(ss)|
  {
    var ts, tr := Syntax.StmtText(ss[0]), Syntax.RestText(ss[1..]);
    AtSplit(content, i, ts, tr);
    AtFirst(content, i, ts);
    j := i + |ts|;
    AtFirst(content, j, tr);
    if |ss| > 1 {
      AtSplit(content, j, ";", Syntax.ProgramText(ss[1..]));
    }
  }

  /** One unfolding of `stmtlist`, with the statement given by its outcome. */
  lemma {:induction false} StmtListStep(content: string, st: PState, mid: PState)
    requires st.idx < |content| && StartsStmt(content[st.idx])
    requires Stmt(content, st) == Parse(Ok(()), mid) && mid.idx < |content|
    ensures StmtList(content, st) == MoreStmts(content, mid)
  {
  }

  lemma {:induction false} MoreStmtsEnd(content: string, st: PState)
    requires st.idx < |content| && content[st.idx] == '!'
    ensures MoreStmts(content, st) == NextToken(content, st)
  {
  }

  lemma {:induction false} MoreStmtsOn(content: string, st: PState)
    requires st.idx + 1 < |content| && content[st.idx] == ';'
    ensures MoreStmts(content, st) == StmtList(content, st.(idx := st.idx + 1))
  {
  }

  /**
   * Compiling the text of a program, followed by anything: the output is the program's
   * reference code and compilation ends normally, except that when nothing at all follows
   * the final `!` the compiler raises after writing all of it.
   */
  lemma {:induction false} CompileOfText(ss: seq<Syntax.Stmt>, rest: string)
    requires |ss| > 0
    ensures Compile(Syntax.ProgramText(ss) + rest) ==
      Parse(if rest != [] then Ok(()) else Err(EndOfInput),
            PState(|Syntax.ProgramText(ss)|, Syntax.ProgramSize(ss), Syntax.ProgramGen(ss, 0)))
  {
    var content := Syntax.ProgramText(ss) + rest;
    assert content[0..|Syntax.ProgramText(ss)|] == Syntax.ProgramText(ss);
    AtSlice(content, 0, Syntax.ProgramText(ss));
    var _ := ProgramTextAt(ss, content, 0);
    StmtListOfText(ss, content, Start);
  }

  // ---------------------------------------------------------------------------------------
  // From text to trees: whatever a production accepts is the text of a tree.
  // ---------------------------------------------------------------------------------------

  /** An expression `expr` accepts is the text of a tree, and what it did is what that tree prescribes. */
  lemma {:induction false} ExprTextOf(content: string, st: PState) returns (e: Syntax.Expr)
    requires st.idx < |content| && Expr(content, st).result.Ok?
    ensures At(content, st.idx, Syntax.ExprText(e)) && st.idx + |Syntax.ExprText(e)| < |content|
    ensures Expr(content, st).state.idx == st.idx + |Syntax.ExprText(e)|
    decreases |content| - st.idx, 1
  {
    var c := content[st.idx];
    match OperatorOf(c)
    case Some(op) =>
      e := OperationTextOf(content, st, op);
    case None =>
      if IsDigit([c]) {
        e := Syntax.Num(c as int - '0' as int);
      } else {
        e := Syntax.Var(c);
      }
      assert At(content, st.idx, [c]);
  }

  /** The operator case of ExprTextOf. */
  lemma {:induction false} OperationTextOf(content: string, st: PState, op: ArithOp) returns (e: Syntax.Expr)
    requires st.idx < |content| && OperatorOf(content[st.idx]) == Some(op) && Operation(content, st, op).result.Ok?
    ensures At(content, st.idx, Syntax.ExprText(e)) && st.idx + |Syntax.ExprText(e)| < |content|
    ensures Operation(content, st, op).state.idx == st.idx + |Syntax.ExprText(e)|
    decreases |content| - st.idx, 0
  {
    var n := NextToken(content, st);
    var l := ExprTextOf(content, n.state);
    var left := Expr(content, n.state);
    var r := ExprTextOf(content, left.state);
    e := Syntax.Bin(op, l, r);
    BinTextOf(op, l, r, content, st.idx);
  }

  /** An operator followed by the texts of two expressions is the text of the operator expression. */
  lemma {:induction false} BinTextOf(op: ArithOp, l: Syntax.Expr, r: Syntax.Expr, content: string, i: nat)
    requires i < |content| && OperatorOf(content[i]) == Some(op)
    requires At(content, i + 1, Syntax.ExprText(l)) && At(content, i + 1 + |Syntax.ExprText(l)|, Syntax.ExprText(r))
    ensures At(content, i, Syntax.ExprText(Syntax.Bin(op, l, r)))
    ensures |Syntax.ExprText(Syntax.Bin(op, l, r))| == 1 + |Syntax.ExprText(l)| + |Syntax.ExprText(r)|
  {
    var c := content[i];
    OperatorSymbols(op, c);
    assert At(content, i, [c]);
    AtJoin(content, i + 1, Syntax.ExprText(l), Syntax.ExprText(r));
    AtJoin(content, i, [c], Syntax.ExprText(l) + Syntax.ExprText(r));
    assert Syntax.ExprText(Syntax.Bin(op, l, r)) == [c] + (Syntax.ExprText(l) + Syntax.ExprText(r));
  }

  /** A statement `stmt` accepts is the text of a tree. */
  lemma {:induction false} StmtTextOf(content: string, st: PState) returns (s: Syntax.Stmt)
    requires st.idx < |content| && StartsStmt(content[st.idx]) && Stmt(content, st).result.Ok?
    ensures At(content, st.idx, Syntax.StmtText(s)) && st.idx + |Syntax.StmtText(s)| < |content|
    ensures Stmt(content, st).state.idx == st.idx + |Syntax.StmtText(s)|
  {
    var c := content[st.idx];
    if IsIdentifier([c]) {
      var e := ExprTextOf(content, st.(idx := st.idx + 2));
      s := Syntax.Assign(c, e);
      assert At(content, st.idx, [c, '=']);
      AtJoin(content, st.idx, [c, '='], Syntax.ExprText(e));
    } else {
      var x := content[st.idx + 1];
      s := if c == '?' then Syntax.Input(x) else Syntax.Output(x);
      assert At(content, st.idx, [c, x]);
    }
  }

  /** A statement list `stmtlist` accepts is the text of a list of trees. */
  lemma {:induction false} StmtListTextOf(content: string, st: PState) returns (ss: seq<Syntax.Stmt>)
    requires st.idx < |content| && StmtList(content, st).result.Ok?
    ensures |ss| > 0 && At(content, st.idx, Syntax.ProgramText(ss)) && st.idx + |Syntax.ProgramText(ss)| < |content|
    decreases |content| - st.idx, 1
  {
    var s := StmtTextOf(content, st);
    var mid := Stmt(content, st).state;
    var rest := MoreStmtsTextOf(content, mid);
    ss := [s] + rest;
    assert ss[0] == s && ss[1..] == rest;
    AtJoin(content, st.idx, Syntax.StmtText(s), Syntax.RestText(rest));
  }

  /** What `morestmts` accepts is the text that follows a statement. */
  lemma {:induction false} MoreStmtsTextOf(content: string, st: PState) returns (ss: seq<Syntax.Stmt>)
    requires st.idx < |content| && MoreStmts(content, st).result.Ok?
    ensures At(content, st.idx, Syntax.RestText(ss)) && st.idx + |Syntax.RestText(ss)| < |content|
    decreases |content| - st.idx, 0
  {
    if content[st.idx] == ';' {
      ss := StmtListTextOf(content, st.(idx := st.idx + 1));
      assert At(content, st.idx, ";");
      AtJoin(content, st.idx, ";", Syntax.ProgramText(ss));
    } else {
      ss := [];
      assert At(content, st.idx, "!");
    }
  }

  /**
   * The compiler accepts exactly the texts that begin with the text of a program and have at
   * least one more character after its `!`.
   */
  lemma {:induction false} CompileAccepts(text: string)
    ensures Compile(text).result.Ok? <==>
      exists ss: seq<Syntax.Stmt>, rest: string :: |ss| > 0 && rest != [] && text == Syntax.ProgramText(ss) + rest
  {
    if Compile(text).result.Ok? {
      var ss := StmtListTextOf(text, Start);
      var rest := text[|Syntax.ProgramText(ss)|..];
      AtSlice(text, 0, Syntax.ProgramText(ss));
      assert text == text[0..|Syntax.ProgramText(ss)|] + rest;
      assert text == Syntax.ProgramText(ss) + rest;
    }
    if exists ss: seq<Syntax.Stmt>, rest: string :: |ss| > 0 && rest != [] && text == Syntax.ProgramText(ss) + rest {
      var ss: seq<Syntax.Stmt>, rest: string :| |ss| > 0 && rest != [] && text == Syntax.ProgramText(ss) + rest;
      CompileOfText(ss, rest);
    }
  }
}
