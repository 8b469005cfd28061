# tinyL toolchain in Dafny

tinyL is a small teaching language. A program is a list of statements separated by `;`
and ended by `!`. A statement can be:

- an assignment `a=+b3` (expressions in prefix notation over `+ - * & |`, the variables
  `a`..`f` and one-digit constants);
- a read `?a`;
- a print `%a`.

The toolchain has three parts:

- The **compiler** is an LL(1) recursive-descent parser over global state. It writes one
  RISC instruction per line to `tinyL.out`, taking a fresh virtual register for every value
  it computes.
- The **instruction module** defines the ten opcodes and the instruction record. It prints
  one instruction or a list of them as text, and parses text lines back.
- The **interpreter** reads a RISC file into a doubly linked list. It runs the list on a
  memory of six variable cells and a file of 1000 registers. READ prompts for an integer
  and WRITE prints a variable.

The model follows that structure, file by file:

| module | what it holds |
|---|---|
| `Wrappers` | `Option` and `Result` |
| `PyText` | the Python string behaviour the source relies on: `split()`, `upper()`, `str(n)` and `int(s)` with the whitespace it skips |
| `Instruction` | opcodes, the `Instr` datatype, the text format (`Encode`/`Decode`) and whole files (`EncodeLines`/`DecodeLines`) |
| `InstructionList` | the linked list as classes (`Node`, `InstrList`), `read_instruction_list` and `print_instruction_list` as methods |
| `CompilerSpec` | each production of the compiler as a function from the global state to its result and the new state |
| `Compiler` | the compiler as the program runs it: a `Parser` class whose fields are the globals, one method per production, each proved equal to its function |
| `CompilerProperties`, `Registers` | cursor progress, errors and register allocation of the compiler |
| `Syntax`, `RoundTrip` | tinyL programs as trees, their text, the code they should compile to; the parser proved to compile exactly the texts of programs, into exactly that code |
| `Execution` | one interpreter step and a whole run as functions, with Python's list indexing, `ord`, `int()` and exact `&`/`\|` on unbounded integers |
| `Interpreter` | the interpreter's loop over the linked list, with `Memory` and `RegisterFile` as arrays, proved equal to `Run` |
| `EndToEnd` | a reference evaluator for tinyL, and the theorem that running the compiled code of a program behaves as evaluating the program |
| `Examples` | concrete cases: error texts, negative register numbers, evaluation order |

## Model

| member | source | states |
|---|---|---|
| Instruction.OpCodeOf | tinyL_Compiler/Instruction.py:5-15 | `OpCode(v)` succeeds exactly for 1..10, and the member found has value `v` |
| Instruction.OpCodeNamed | tinyL_Compiler/Instruction.py:138-150 | a mnemonic is recognised exactly when it is one of the ten names, and the opcode found bears that name |
| Instruction.OpCodeValues | tinyL_Compiler/Instruction.py:5-15 | the values 1..10 are distinct, and value and name each lead back to their opcode |
| Instruction.EncodeLayout | tinyL_Compiler/Instruction.py:70-81 | every printed line is the mnemonic, then exactly as many operand fields as the opcode uses, separated by single spaces and ended by a newline |
| Instruction.DecodeEncode | tinyL_Compiler/Instruction.py:133-183 | parsing the line printed for an instruction gives the instruction back, for every instruction whose variable names are words |
| Instruction.DecodeAnyCase | tinyL_Compiler/Instruction.py:134-150 | parsing ignores the case of the mnemonic and any words after the last field |
| Instruction.DecodeOperandsOf | tinyL_Compiler/Instruction.py:151-175 | each opcode's branch reads back an instruction from words holding its rendered fields |
| Instruction.DecodeNone | tinyL_Compiler/Instruction.py:134-150 | the parser returns None exactly for a blank line or an unknown mnemonic |
| Instruction.DecodeBlank | tinyL_Compiler/Instruction.py:134-136 | a line of whitespace parses to None |
| Instruction.DecodeNeedsFields | tinyL_Compiler/Instruction.py:151-175 | a known mnemonic with too few fields raises; a successful parse has that opcode and enough fields |
| Instruction.DecodeNamed | tinyL_Compiler/Instruction.py:150-175 | a line with a known mnemonic parses to exactly what its opcode's branch reads from the words |
| Instruction.OperandsNeedFields | tinyL_Compiler/Instruction.py:151-175 | each branch fails unless there are more words than the opcode has fields, and builds an instruction of its own opcode |
| Instruction.DecodeEachAppend | tinyL_Compiler/Instruction.py:216-224 | each line of the file is decoded on its own, so decoding two runs of lines joined is decoding each run |
| Instruction.CollectStep | tinyL_Compiler/Instruction.py:216-233 | the definition of collecting, unfolded at one more line: the step the loop proof of `ReadInstructionList` takes per line |
| Instruction.CollectErrorStays | tinyL_Compiler/Instruction.py:211-237 | once a line raises, the rest of the file does not change the outcome |
| Instruction.EncodeLinesAppend | tinyL_Compiler/Instruction.py:126-130 | each instruction is printed on its own line, so printing two lists joined is printing each list |
| Instruction.CollectFound | tinyL_Compiler/Instruction.py:216-233 | lines that all parse to instructions are collected in order, with skipped lines dropped |
| Instruction.DecodeLinesEncodeLines | tinyL_Compiler/Instruction.py:107-130 | reading back a printed instruction file gives the same instruction list |
| Instruction.CollectAppend | tinyL_Compiler/Instruction.py:216-233 | collecting two runs of parsed lines is collecting the first, then the second, with the error line numbers of the second moved past the first |
| Instruction.DecodeLinesAppend | tinyL_Compiler/Instruction.py:211-237 | reading a file is reading its first part, then its second |
| InstructionList.ValuesAppend | tinyL_Compiler/Instruction.py:226-233 | the instructions of two runs of nodes joined are the first run's, then the second's |
| InstructionList.Node.constructor | tinyL_Compiler/Instruction.py:19-36 | a new node holds its instruction and has no links |
| InstructionList.InstrList.constructor | tinyL_Compiler/Instruction.py:212 | the list starts empty and valid |
| InstructionList.InstrList.Append | tinyL_Compiler/Instruction.py:226-233 | a fresh node is linked after the tail; the contents gain the instruction at the end and the list stays doubly linked |
| InstructionList.Linked | tinyL_Compiler/Instruction.py:226-233 | in a valid list each `next` has this node as its `prev` and the other way round; only the head lacks a `prev`, only the tail a `next`; the head starts a chain through all nodes |
| InstructionList.ReadInstructionList | tinyL_Compiler/Instruction.py:211-237 | a file that fails to read gives its error; otherwise a fresh valid list whose contents are the instructions of the file |
| InstructionList.PrintInstructionList | tinyL_Compiler/Instruction.py:107-130 | an empty list is an error; otherwise the lines written are the printed lines of the list's instructions in order |
| PyText.Words | tinyL_Compiler/Instruction.py:134 | `split()` returns only non-empty words without whitespace |
| PyText.WordsOfLine | tinyL_Compiler/Instruction.py:134 | splitting words joined by spaces and ended by a newline gives the words back |
| PyText.TrimSlice | tinyL_Compiler/Interpreter.py:54 | the text `int()` parses is a slice of the line: everything cut before and after it is whitespace `int()` skips, and the slice neither starts nor ends with such whitespace |
| PyText.TrimClean | tinyL_Compiler/Interpreter.py:54 | trimming leaves a line that holds no whitespace `int()` skips unchanged |
| PyText.SeparatorIsNoSpaceForInt | tinyL_Compiler/Interpreter.py:54 | the separators U+001C..U+001F are `isspace()` characters that `int()` does not skip, so a line starting with one is no integer |
| PyText.IntToStringParses | tinyL_Compiler/Instruction.py:153-163 | `int(str(x)) == x` for every integer, with no limit on the number of digits (see "## Left out") |
| PyText.ParseLineOfInt | tinyL_Compiler/Interpreter.py:54 | an input line holding `str(x)` reads as `x` |
| CompilerSpec.DigitsListed | tinyL_Compiler/Compiler.py:45-46 | `is_digit` holds exactly for the one-character strings `0`..`9` |
| CompilerSpec.IdentifiersListed | tinyL_Compiler/Compiler.py:55-56 | `is_identifier` holds exactly for the one-character strings `a`..`f` |
| CompilerSpec.ToDigit | tinyL_Compiler/Compiler.py:49-52 | succeeds exactly on digits, with that digit's value; anything else raises the non-digit error |
| CompilerSpec.NextToken | tinyL_Compiler/Compiler.py:69-74 | the cursor always moves one on, and it fails exactly when it leaves the text |
| CompilerSpec.Digit | tinyL_Compiler/Compiler.py:90-95 | on success the result is the register just taken, and the cursor is still in the text |
| CompilerSpec.Variable | tinyL_Compiler/Compiler.py:98-103 | on success the result is the register just taken, and the cursor is still in the text |
| CompilerSpec.Expr | tinyL_Compiler/Compiler.py:106-151 | on success the result is the newest register, above all taken before, and the cursor has moved but is still in the text |
| CompilerSpec.Operation | tinyL_Compiler/Compiler.py:110-144 | an operator's code ends in the newest register, above all taken before, and the cursor has moved |
| CompilerSpec.Assign | tinyL_Compiler/Compiler.py:154-167 | on success the cursor has moved and is still in the text |
| CompilerSpec.ReadStmt | tinyL_Compiler/Compiler.py:170-175 | on success the cursor has moved and is still in the text |
| CompilerSpec.PrintStmt | tinyL_Compiler/Compiler.py:178-183 | on success the cursor has moved and is still in the text |
| CompilerSpec.Stmt | tinyL_Compiler/Compiler.py:186-193 | a statement's first token moves the cursor; any other token leaves everything untouched |
| CompilerSpec.MoreStmts | tinyL_Compiler/Compiler.py:196-205 | on success the cursor has moved and is still in the text |
| CompilerSpec.StmtList | tinyL_Compiler/Compiler.py:208-215 | on success the cursor has moved and is still in the text |
| CompilerSpec.Program | tinyL_Compiler/Compiler.py:218-224 | on success the cursor has moved and is still in the text |
| Compiler.Parser.constructor | tinyL_Compiler/Compiler.py:59-66 | the globals after `read_input`: cursor on the first character, no register taken, nothing written |
| Compiler.Parser.NextRegister | tinyL_Compiler/Compiler.py:37-42 | the counter goes up by exactly one, and its new value is returned |
| Compiler.Parser.NextToken | tinyL_Compiler/Compiler.py:69-74 | the cursor moves and the result is the one `CompilerSpec.NextToken` gives |
| Compiler.Parser.CodeGen | tinyL_Compiler/Compiler.py:77-84 | the instruction is appended to the output, and nothing else changes |
| Compiler.Parser.Digit | tinyL_Compiler/Compiler.py:90-95 | the new globals and the result are those of `CompilerSpec.Digit` |
| Compiler.Parser.Variable | tinyL_Compiler/Compiler.py:98-103 | the new globals and the result are those of `CompilerSpec.Variable` |
| Compiler.Parser.Expr | tinyL_Compiler/Compiler.py:106-151 | the new globals and the result are those of `CompilerSpec.Expr` |
| Compiler.Parser.Assign | tinyL_Compiler/Compiler.py:154-167 | the new globals and the result are those of `CompilerSpec.Assign` |
| Compiler.Parser.Read | tinyL_Compiler/Compiler.py:170-175 | the new globals and the result are those of `CompilerSpec.ReadStmt` |
| Compiler.Parser.Print | tinyL_Compiler/Compiler.py:178-183 | the new globals and the result are those of `CompilerSpec.PrintStmt` |
| Compiler.Parser.Stmt | tinyL_Compiler/Compiler.py:186-193 | the new globals and the result are those of `CompilerSpec.Stmt` |
| Compiler.Parser.MoreStmts | tinyL_Compiler/Compiler.py:196-205 | the new globals and the result are those of `CompilerSpec.MoreStmts` |
| Compiler.Parser.StmtList | tinyL_Compiler/Compiler.py:208-215 | the new globals and the result are those of `CompilerSpec.StmtList` |
| Compiler.Parser.Program | tinyL_Compiler/Compiler.py:218-224 | the new globals and the result are those of `CompilerSpec.Program` |
| Compiler.Compile | tinyL_Compiler/Compiler.py:234-255 | the instructions written and the outcome are those of `CompilerSpec.Compile` |
| CompilerProperties.GrowsTrans | tinyL_Compiler/Compiler.py:37-84 | "the cursor and counter never go back and output is only appended" is transitive |
| CompilerProperties.ExprGrows | tinyL_Compiler/Compiler.py:106-151 | `expr` never moves the cursor or the counter back and only appends; it moves on past an operator, digit or variable |
| CompilerProperties.AssignGrows | tinyL_Compiler/Compiler.py:154-167 | `assign` only appends, and it always moves the cursor |
| CompilerProperties.StmtGrows | tinyL_Compiler/Compiler.py:186-193 | `stmt` only appends, and it moves the cursor when the token starts a statement |
| CompilerProperties.MoreStmtsGrows | tinyL_Compiler/Compiler.py:196-205 | `morestmts` only appends, and it moves the cursor |
| CompilerProperties.StmtListGrows | tinyL_Compiler/Compiler.py:208-215 | `stmtlist` only appends, and it moves the cursor when the token starts a statement |
| CompilerProperties.ExprRejects | tinyL_Compiler/Compiler.py:149-151 | `expr` raises its token as an unknown symbol, with the globals untouched, exactly when the token is no operator, digit or variable |
| CompilerProperties.AssignRejects | tinyL_Compiler/Compiler.py:154-167 | `assign` raises the character after the identifier as unknown, with the cursor on it and nothing written, exactly when that character is not `=` |
| CompilerProperties.MoreStmtsRejects | tinyL_Compiler/Compiler.py:196-205 | `morestmts` raises the program error for its token, with the globals untouched, exactly when the token is neither `;` nor `!` |
| CompilerProperties.StmtListRejects | tinyL_Compiler/Compiler.py:208-215 | `stmtlist` raises the program error for its token, with the globals untouched, exactly when the token cannot start a statement |
| CompilerProperties.ProgramRejects | tinyL_Compiler/Compiler.py:218-224 | `program` raises the program error for its token, with the globals untouched, exactly when the token cannot start a statement |
| Registers.ExprAllocated | tinyL_Compiler/Compiler.py:106-151 | `expr` keeps the output well allocated: every instruction writes the next fresh register and reads only registers already written |
| Registers.DigitAllocated | tinyL_Compiler/Compiler.py:90-95 | `digit` keeps the output well allocated |
| Registers.VariableAllocated | tinyL_Compiler/Compiler.py:98-103 | `variable` keeps the output well allocated |
| Registers.OperationAllocated | tinyL_Compiler/Compiler.py:110-144 | an operator's code keeps the output well allocated |
| Registers.AssignAllocated | tinyL_Compiler/Compiler.py:154-167 | `assign` keeps the output well allocated; its STORE reads the register just computed |
| Registers.StmtAllocated | tinyL_Compiler/Compiler.py:186-193 | `stmt` keeps the output well allocated |
| Registers.MoreStmtsAllocated | tinyL_Compiler/Compiler.py:196-205 | `morestmts` keeps the output well allocated |
| Registers.StmtListAllocated | tinyL_Compiler/Compiler.py:208-215 | `stmtlist` keeps the output well allocated |
| Registers.CompileAllocated | tinyL_Compiler/Compiler.py:218-224 | compiling any text, even one that fails, writes well-allocated code, and `regnum` ends at the number of registers written |
| Registers.WritesIncrease | tinyL_Compiler/Compiler.py:37-42 | in well-allocated code a later instruction writes a higher register than an earlier one |
| Registers.OperandsBelow | tinyL_Compiler/Compiler.py:37-42 | in well-allocated code an operation's operand registers are below its result register |
| Registers.ReadsWritten | tinyL_Compiler/Compiler.py:37-42 | in well-allocated code every register an instruction reads was written by an instruction before it |
| Registers.DefinedWritten | tinyL_Compiler/Compiler.py:37-42 | every register up to the counter is written by some instruction |
| RoundTrip.ExprOfText | tinyL_Compiler/Compiler.py:106-151 | `expr` on the text of an expression tree consumes exactly that text, takes one register per node, and writes exactly the tree's reference code |
| RoundTrip.OperationOfText | tinyL_Compiler/Compiler.py:110-144 | the same for an operator node: left operand's code, right operand's code, then the operation into the next register |
| RoundTrip.AssignOfText | tinyL_Compiler/Compiler.py:154-167 | `assign` on `x=e` writes the code of `e` followed by a STORE of its register into `x` |
| RoundTrip.StmtOfText | tinyL_Compiler/Compiler.py:186-193 | `stmt` on a statement's text consumes it and writes its reference code |
| RoundTrip.ReadOrPrintOfText | tinyL_Compiler/Compiler.py:170-183 | `?x` writes one READ, `%x` one WRITE, and neither takes a register |
| RoundTrip.StmtListOfText | tinyL_Compiler/Compiler.py:196-215 | a statement list's text compiles to the statements' code in order, and fails with end of input exactly when nothing follows the `!` |
| RoundTrip.CompileOfText | tinyL_Compiler/Compiler.py:218-224 | compiling a program's text followed by anything non-empty succeeds with the program's reference code and register count |
| RoundTrip.ExprTextOf | tinyL_Compiler/Compiler.py:106-151 | whatever `expr` accepts is the text of some expression tree |
| RoundTrip.OperationTextOf | tinyL_Compiler/Compiler.py:110-144 | whatever an operator case accepts is the text of an operator node |
| RoundTrip.StmtTextOf | tinyL_Compiler/Compiler.py:186-193 | whatever `stmt` accepts is the text of some statement |
| RoundTrip.StmtListTextOf | tinyL_Compiler/Compiler.py:208-215 | whatever `stmtlist` accepts is the text of a non-empty statement list |
| RoundTrip.MoreStmtsTextOf | tinyL_Compiler/Compiler.py:196-205 | whatever `morestmts` accepts is `!` or `;` and a statement list |
| RoundTrip.CompileAccepts | tinyL_Compiler/Compiler.py:218-224 | a text compiles without error if and only if it is a program's text followed by at least one more character, on a stack without Python's recursion limit (see "## Left out") |
| Execution.PyIndex | tinyL_Compiler/Interpreter.py:31-57 | a list index is in range exactly for -n..n-1, and a negative one counts from the end |
| Execution.Init | tinyL_Compiler/Interpreter.py:18-19 | six memory cells and 1000 registers, all zero, with no output yet |
| Execution.Slot | tinyL_Compiler/Interpreter.py:31-57 | a variable's cell is always in range; a name that is not one character raises; `a`..`f` are cells 0..5 |
| Execution.Step | tinyL_Compiler/Interpreter.py:29-60 | one pass of the loop body keeps the sizes of memory and register file |
| Execution.Run | tinyL_Compiler/Interpreter.py:28-63 | a crash happens at an instruction of the list; a finished run keeps the sizes |
| Execution.StepFrame | tinyL_Compiler/Interpreter.py:30-57 | LOAD, LOADI and arithmetic change only their destination register; STORE and READ only their variable's cell; READ takes one input line and writes its prompt; WRITE only appends output |
| Execution.AndOrSum | tinyL_Compiler/Interpreter.py:47-48 | `x & y + x \| y == x + y` for all integers |
| Execution.AndCommutes | tinyL_Compiler/Interpreter.py:47 | `&` is commutative |
| Execution.OrCommutes | tinyL_Compiler/Interpreter.py:48 | `\|` is commutative |
| Execution.AndOrIdempotent | tinyL_Compiler/Interpreter.py:47-48 | `x & x == x` and `x \| x == x` |
| Execution.AndOrBounds | tinyL_Compiler/Interpreter.py:47-48 | on non-negative integers, `&` is at most either operand and `\|` at least both |
| Execution.AllOnes | tinyL_Compiler/Interpreter.py:47-48 | `-1` is all ones: `x & -1 == x` and `x \| -1 == -1` |
| Execution.RunAppend | tinyL_Compiler/Interpreter.py:28-63 | running two instruction lists joined is running the first, then the second from where it left off, with crash positions shifted |
| Execution.RunSnoc | tinyL_Compiler/Interpreter.py:28-63 | one more instruction at the end runs after all the others, unless one of them crashed |
| Execution.CrashStays | tinyL_Compiler/Interpreter.py:28-63 | after a crash, nothing later in the list runs |
| Execution.RunCons | tinyL_Compiler/Interpreter.py:28-63 | the head instruction runs first; a crash there stops the run at position 0 |
| Interpreter.ExecuteInstr | tinyL_Compiler/Interpreter.py:29-60 | the arrays, input and output after one pass of the loop body are what `Step` gives, and a fault is `Step`'s |
| Interpreter.Execute | tinyL_Compiler/Interpreter.py:18-63 | walking the linked list from its head with fresh zeroed arrays gives exactly `Run` of the list's instructions |
| Interpreter.RunNext | tinyL_Compiler/Interpreter.py:62-63 | one more instruction that steps normally extends a finished run |
| Interpreter.RunStops | tinyL_Compiler/Interpreter.py:28-63 | an instruction that faults ends the whole run with that fault at that position |
| Interpreter.Interpret | tinyL_Compiler/Interpreter.py:11-63 | a RISC file that fails to read gives that error; otherwise the outcome is `Run` of its instructions from the zeroed machine |
| EndToEnd.EvalStmt | tinyL_Compiler/Compiler.py:154-183 | evaluating a statement keeps the six variable cells |
| EndToEnd.ExprRuns | tinyL_Compiler/Compiler.py:106-151 | an expression's code leaves the expression's value in its last register and changes no variable, input, output or earlier register |
| EndToEnd.OperatorRuns | tinyL_Compiler/Interpreter.py:36-52 | an operation on the registers of its operands' values holds the operator applied to those values |
| EndToEnd.AssignRuns | tinyL_Compiler/Compiler.py:154-167 | an assignment's code stores the expression's value in the variable, and nothing else visible changes |
| EndToEnd.ReadRuns | tinyL_Compiler/Interpreter.py:53-55 | a READ behaves as the reference read: prompt, one line, its value or its fault |
| EndToEnd.StmtRuns | tinyL_Compiler/Compiler.py:186-193 | a statement's code agrees with evaluating the statement |
| EndToEnd.ThenAgrees | tinyL_Compiler/Interpreter.py:28-63 | when the first part of a run agrees with the first statement and, if that one succeeded, the rest of the run agrees with the rest of the program, then the whole run agrees with the whole program |
| EndToEnd.FirstRuns | tinyL_Compiler/Compiler.py:196-215 | a program's code is its first statement's code, which agrees with that statement, followed by the rest of the program's code; evaluating the program evaluates the first statement and then, if it succeeded, the rest |
| EndToEnd.ProgramRuns | tinyL_Compiler/Compiler.py:196-215 | a statement list's code agrees with evaluating the statements in order: same variables, input and output, or the same fault after the same output |
| EndToEnd.GenWellFormed | tinyL_Compiler/Compiler.py:77-84 | the code of an expression uses only one-letter variable names |
| EndToEnd.ProgramGenWellFormed | tinyL_Compiler/Compiler.py:77-84 | the code of a program whose reads and prints name variables survives the text format |
| EndToEnd.CompiledProgramRuns | tinyL_Compiler/Compiler.py:218-224 | compiling a program's text succeeds, the written file reads back as the same code, and running it agrees with evaluating the program |
| Examples.AssignWithoutEquals | tinyL_Compiler/Compiler.py:156-162 | `a?3!` stops at the `?` where `=` belongs |
| Examples.ReadNotANumber | tinyL_Compiler/Interpreter.py:54 | a READ of a line that is no integer raises after its prompt, and nothing after it runs |
| Examples.NegativeRegister | tinyL_Compiler/Interpreter.py:33 | register -1 is the last register |
| Examples.RegisterPastEnd | tinyL_Compiler/Interpreter.py:33 | register 1000 is out of range |
| Examples.BacktickIsF | tinyL_Compiler/Interpreter.py:31 | the variable `` ` `` is index -1, so it reads the cell of `f` |
| Examples.StoreRegisterFirst | tinyL_Compiler/Interpreter.py:35 | a STORE reads its register before it looks at its variable |
| Examples.BitwiseValues | tinyL_Compiler/Interpreter.py:47-48 | values of `&` and `\|`, including on negative numbers |

## Left out

- File handling is not modelled: paths, `open`, `sys.argv` checks, `sys.exit` and the messages written to stderr. A file is its sequence of lines, the program text is a string, and console input is a sequence of lines.
- The compiler's banner and "Code written" prints, and `current_func_name`, are left out. Neither affects what is compiled.
- `Instruction.critical` is not modelled. No function of the core reads it.
- `read_instruction` is not modelled. No other core operation uses it.
- The illegal-opcode branches of `print_instruction` and of the interpreter loop are left out. The `Instr` datatype only has the ten opcodes, so neither branch can be reached.
- The "Unknown Instruction" message that `parse_instruction_string` prints for an unknown mnemonic is left out. The model returns None, which the list reader skips, as the code does.
- `read_input` strips the text it returns, but `program` parses the unstripped global. The model parses the unstripped text; an empty text gives end of input, as indexing `content[0]` would.
- `read_instruction_list` strips each line before parsing it. The model parses the unstripped line, which gives the same result because `split()` ignores the whitespace at both ends.
- `token` is not a separate field. It is always `content[token_idx]` while that index is in range, and the model reads it from there.
- `digit` passes the digit character to `code_gen`, which prints it as the digit's value. The model stores the value.
- `PyText.ParseInt` models `int()` for ASCII digits, signs and underscores only. Python also accepts other Unicode decimal digits.
- `PyText.Upper` models `upper()` exactly only where it decides whether a word is a mnemonic. Those are the characters whose upper case is all ASCII; every other character is left unchanged.
- Instruction fields have fixed types: registers and immediates are integers, variable names are strings. So the interpreter's `TypeError`s from Python's dynamic typing are not modelled, apart from `ord` on a string that is not one character.
- The interpreter's `instrCounter` is kept in the loop but not returned, since the source never reports it.
- `Execution.Run`: a crashed run reports the position, the fault and the output so far, not the memory at the crash. The source loses that state when it raises.
- `EndToEnd.CompiledProgramRuns` holds only for programs that take fewer than 1000 registers and whose reads and prints name variables `a`..`f`. The compiler accepts any character after `?` and `%`, and larger programs run out of registers.
- `RoundTrip.CompileAccepts`, `RoundTrip.CompileOfText`, `RoundTrip.StmtListOfText` and `EndToEnd.CompiledProgramRuns`: the model has no recursion limit. In the compiler, each statement takes two Python frames, since `morestmts` and `stmtlist` call each other. Each nested operator in `expr` takes one more. CPython's default limit is 1000 frames, so it raises `RecursionError` on texts of about 500 statements, or about 1000 nested operators. The model compiles such texts, so these lemmas describe the compiler on a stack without that limit.
- `PyText.IntToString`, `PyText.ParseInt`, `PyText.IntToStringParses`, and the READ and WRITE steps of `Execution.Step`: `str` and `int()` have no limit on decimal digits. This is Python's behaviour before 3.11 (and the 3.7.14, 3.8.14, 3.9.14 and 3.10.7 security releases), or with `sys.set_int_max_str_digits(0)`. Newer CPython raises `ValueError` when a conversion passes 4300 digits: at the WRITE of Interpreter.py:57 when printing a 7818-digit value such as 9^8192, and at the READ of Interpreter.py:54 for a 5000-digit input line. The model prints and reads such numbers.
- `EndToEnd.Agrees` compares the fault and output of a crash, not its position in the code.
- The `prev` links are built and proved consistent, but the interpreter only follows `next`, as the source does.
