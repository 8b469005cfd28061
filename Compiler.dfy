/**
 * The tinyL compiler as the program runs it: the globals become the fields of a parser
 * object, and each production is a method that moves the cursor, takes registers and
 * appends instructions in place. Every method is proved to leave the object in the state
 * the matching function of CompilerSpec gives, and to return that function's result.
 */
module Compiler {
  import opened Wrappers
  import opened Instruction
  import CompilerSpec

  class Parser {
    /** `content`: the program text, set once by `read_input`. */
    const content: string
    /** `token_idx`; `token` is always the character at this index while it is in range. */
    var tokenIdx: nat
    /** `regnum`: the last register handed out. */
    var regnum: nat
    /** The instructions written to the output file so far, in order. */
    var out: seq<Instr>

    function State(): CompilerSpec.PState
      reads this
    {
      CompilerSpec.PState(tokenIdx, regnum, out)
    }

    /** The globals once `read_input` has read `text`: cursor on the first character, no register used. */
    constructor (text: string)
      ensures content == text && State() == CompilerSpec.Start
    {
      content := text;
      tokenIdx := 0;
      regnum := 0;
      out := [];
    }

    /** `next_register`: the counter goes up by exactly one and its new value is returned. */
    method NextRegister() returns (r: nat)
      modifies this`regnum
      ensures regnum == old(regnum) + 1 && r == regnum
    {
      regnum := regnum + 1;
      r := regnum;
    }

    /** `next_token`. */
    method NextToken() returns (res: Result<(), CompilerSpec.Error>)
      modifies this`tokenIdx
      ensures CompilerSpec.Parse(res, State()) == CompilerSpec.NextToken(content, old(State()))
    {
      tokenIdx := tokenIdx + 1;
      if tokenIdx < |content| {
        res := Ok(());
      } else {
        res := Err(CompilerSpec.EndOfInput);
      }
    }

    /** `code_gen`: the instruction is appended to the output. */
    method CodeGen(i: Instr)
      modifies this`out
      ensures out == old(out) + [i]
    {
      out := out + [i];
    }

    method Digit() returns (res: Result<nat, CompilerSpec.Error>)
      requires tokenIdx < |content| && CompilerSpec.IsDigit([content[tokenIdx]])
      modifies this
      ensures CompilerSpec.Parse(res, State()) == CompilerSpec.Digit(content, old(State()))
    {
      var reg := NextRegister();
      CodeGen(LoadI(reg, CompilerSpec.ToDigit([content[tokenIdx]]).value));
      var n := NextToken();
      if n.Err? {
        return Err(n.error);
      }
      return Ok(reg);
    }

    method Variable() returns (res: Result<nat, CompilerSpec.Error>)
      requires tokenIdx < |content|
      modifies this
      ensures CompilerSpec.Parse(res, State()) == CompilerSpec.Variable(content, old(State()))
    {
      var reg := NextRegister();
      CodeGen(Load(reg, [content[tokenIdx]]));
      var n := NextToken();
      if n.Err? {
        return Err(n.error);
      }
      return Ok(reg);
    }

    method Expr() returns (res: Result<nat, CompilerSpec.Error>)
      requires tokenIdx < |content|
      modifies this
      ensures CompilerSpec.Parse(res, State()) == CompilerSpec.Expr(content, old(State()))
      decreases |content| - tokenIdx
    {
      var c := content[tokenIdx];
      var op := CompilerSpec.OperatorOf(c);
      if op.Some? {
        var n := NextToken();
        if n.Err? {
          return Err(n.error);
        }
        var left := Expr();
        if left.Err? {
          return left;
        }
        var right := Expr();
        if right.Err? {
          return right;
        }
        var reg := NextRegister();
        CodeGen(Arith(op.value, reg, left.value, right.value));
        return Ok(reg);
      } else if CompilerSpec.IsDigit([c]) {
        res := Digit();
      } else if CompilerSpec.IsIdentifier([c]) {
        res := Variable();
      } else {
        return Err(CompilerSpec.SymbolUnknown(c));
      }
    }

    method Assign() returns (res: Result<(), CompilerSpec.Error>)
      requires tokenIdx < |content|
      modifies this
      ensures CompilerSpec.Parse(res, State()) == CompilerSpec.Assign(content, old(State()))
    {
      var identifier := [content[tokenIdx]];
      var n := NextToken();
      if n.Err? {
        return Err(n.error);
      }
      if content[tokenIdx] != '=' {
        return Err(CompilerSpec.SymbolUnknown(content[tokenIdx]));
      }
      n := NextToken();
      if n.Err? {
        return Err(n.error);
      }
      var reg := Expr();
      if reg.Err? {
        return Err(reg.error);
      }
      CodeGen(Store(identifier, reg.value));
      return Ok(());
    }

    method Read() returns (res: Result<(), CompilerSpec.Error>)
      requires tokenIdx < |content|
      modifies this
      ensures CompilerSpec.Parse(res, State()) == CompilerSpec.ReadStmt(content, old(State()))
    {
      var n := NextToken();
      if n.Err? {
        return Err(n.error);
      }
      CodeGen(Instr.Read([content[tokenIdx]]));
      res := NextToken();
    }

    method Print() returns (res: Result<(), CompilerSpec.Error>)
      requires tokenIdx < |content|
      modifies this
      ensures CompilerSpec.Parse(res, State()) == CompilerSpec.PrintStmt(content, old(State()))
    {
      var n := NextToken();
      if n.Err? {
        return Err(n.error);
      }
      CodeGen(Write([content[tokenIdx]]));
      res := NextToken();
    }

    method Stmt() returns (res: Result<(), CompilerSpec.Error>)
      requires tokenIdx < |content|
      modifies this
      ensures CompilerSpec.Parse(res, State()) == CompilerSpec.Stmt(content, old(State()))
    {
      var c := content[tokenIdx];
      if CompilerSpec.IsIdentifier([c]) {
        res := Assign();
      } else if c == '?' {
        res := Read();
      } else if c == '%' {
        res := Print();
      } else {
        res := Ok(());
      }
    }

    method MoreStmts() returns (res: Result<(), CompilerSpec.Error>)
      requires tokenIdx < |content|
      modifies this
      ensures CompilerSpec.Parse(res, State()) == CompilerSpec.MoreStmts(content, old(State()))
      decreases |content| - tokenIdx, 0
    {
      var c := content[tokenIdx];
      if c == ';' {
        res := NextToken();
        if res.Ok? {
          res := StmtList();
        }
      } else if c == '!' {
        res := NextToken();
      } else {
        res := Err(CompilerSpec.ProgramError(c));
      }
    }

    method StmtList() returns (res: Result<(), CompilerSpec.Error>)
      requires tokenIdx < |content|
      modifies this
      ensures CompilerSpec.Parse(res, State()) == CompilerSpec.StmtList(content, old(State()))
      decreases |content| - tokenIdx, 1
    {
      var c := content[tokenIdx];
      if CompilerSpec.StartsStmt(c) {
        res := Stmt();
        if res.Ok? {
          res := MoreStmts();
        }
      } else {
        res := Err(CompilerSpec.ProgramError(c));
      }
    }

    method Program() returns (res: Result<(), CompilerSpec.Error>)
      requires tokenIdx < |content|
      modifies this
      ensures CompilerSpec.Parse(res, State()) == CompilerSpec.Program(content, old(State()))
    {
      var c := content[tokenIdx];
      if CompilerSpec.StartsStmt(c) {
        res := StmtList();
      } else {
        res := Err(CompilerSpec.ProgramError(c));
      }
    }
  }

  /**
   * Compiling a program text: the instructions written to the output file, in order, and
   * whether compilation ended normally or with the error `program` raised. The instructions
   * written before an error stay in the file.
   */
  method Compile(text: string) returns (code: seq<Instr>, res: Result<(), CompilerSpec.Error>)
    ensures res == CompilerSpec.Compile(text).result
    ensures code == CompilerSpec.Compile(text).state.out
  {
    var parser := new Parser(text);
    if |text| == 0 {
      return [], Err(CompilerSpec.EndOfInput);
    }
    res := parser.Program();
    code := parser.out;
  }
}
