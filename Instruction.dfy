/**
 * The instruction model of tinyL_Compiler/Instruction.py: the ten opcodes, one instruction,
 * its one-line textual encoding (`print_instruction`) and decoding (`parse_instruction_string`),
 * and the decoding of a whole instruction file (what `read_instruction_list` keeps).
 *
 * The Python record has three untyped fields whose meaning depends on the opcode; here each
 * opcode shape is its own constructor, so an instruction always carries exactly its operands.
 */
module Instruction {
  import opened Wrappers
  import opened PyText

  datatype OpCode = LOAD | LOADI | STORE | ADD | SUB | MUL | OR | AND | READ | WRITE {

    /** The value the Python enum gives the member. */
    function Value(): int {
      match this
      case LOAD => 1
      case LOADI => 2
      case STORE => 3
      case ADD => 4
      case SUB => 5
      case MUL => 6
      case OR => 7
      case AND => 8
      case READ => 9
      case WRITE => 10
    }

    /** The member's name, which is also the instruction's mnemonic in the text format. */
    function Mnemonic(): string {
      match this
      case LOAD => "LOAD"
      case LOADI => "LOADI"
      case STORE => "STORE"
      case ADD => "ADD"
      case SUB => "SUB"
      case MUL => "MUL"
      case OR => "OR"
      case AND => "AND"
      case READ => "READ"
      case WRITE => "WRITE"
    }

    /** How many of field1, field2, field3 an instruction of this opcode uses. */
    function Arity(): nat {
      match this
      case READ | WRITE => 1
      case LOAD | LOADI | STORE => 2
      case ADD | SUB | MUL | AND | OR => 3
    }

    predicate IsArith() {
      ADD? || SUB? || MUL? || AND? || OR?
    }
  }

  /** `OpCode(v)`: the member whose value is `v`; None stands for the ValueError. */
  function OpCodeOf(v: int): (r: Option<OpCode>)
    ensures r.Some? <==> 1 <= v <= 10
    ensures r.Some? ==> r.value.Value() == v
  {
    if v == 1 then Some(LOAD)
    else if v == 2 then Some(LOADI)
    else if v == 3 then Some(STORE)
    else if v == 4 then Some(ADD)
    else if v == 5 then Some(SUB)
    else if v == 6 then Some(MUL)
    else if v == 7 then Some(OR)
    else if v == 8 then Some(AND)
    else if v == 9 then Some(READ)
    else if v == 10 then Some(WRITE)
    else None
  }

  /**
   * `OpCode[name]` for the names `parse_instruction_string` checks a mnemonic against:
   * None exactly when the name is not one of them.
   */
  function OpCodeNamed(name: string): (r: Option<OpCode>)
    ensures r.Some? <==> name in Mnemonics
    ensures r.Some? ==> r.value.Mnemonic() == name
  {
    if name == "LOAD" then Some(LOAD)
    else if name == "LOADI" then Some(LOADI)
    else if name == "STORE" then Some(STORE)
    else if name == "ADD" then Some(ADD)
    else if name == "SUB" then Some(SUB)
    else if name == "MUL" then Some(MUL)
    else if name == "AND" then Some(AND)
    else if name == "OR" then Some(OR)
    else if name == "READ" then Some(READ)
    else if name == "WRITE" then Some(WRITE)
    else None
  }

  /** Every member is recovered from its value, and distinct members have distinct values. */
  lemma {:induction false} OpCodeValues(op: OpCode, other: OpCode)
    ensures OpCodeOf(op.Value()) == Some(op)
    ensures op != other ==> op.Value() != other.Value()
    ensures OpCodeNamed(op.Mnemonic()) == Some(op)
  {
  }

  type ArithOp = op: OpCode | op.IsArith() witness ADD

  /** One instruction; the linked-list fields of the Python record live in InstructionList. */
  datatype Instr =
    | Load(dest: int, name: string)
    | LoadI(dest: int, imm: int)
    | Store(name: string, src: int)
    | Arith(op: ArithOp, dest: int, lhs: int, rhs: int)
    | Read(name: string)
    | Write(name: string)
  {
    function Opcode(): OpCode {
      match this
      case Load(_, _) => LOAD
      case LoadI(_, _) => LOADI
      case Store(_, _) => STORE
      case Arith(op, _, _, _) => op
      case Read(_) => READ
      case Write(_) => WRITE
    }
  }

  /** An instruction whose variable names survive a round trip through one text line. */
  predicate WellFormed(i: Instr) {
    match i
    case Load(_, v) => IsWord(v)
    case Store(v, _) => IsWord(v)
    case Read(v) => IsWord(v)
    case Write(v) => IsWord(v)
    case _ => true
  }

  /** The mnemonics `parse_instruction_string` accepts, after upper-casing. */
  const Mnemonics: seq<string> :=
    ["LOAD", "LOADI", "STORE", "ADD", "SUB", "MUL", "AND", "OR", "READ", "WRITE"]

  function Register(r: int): string {
    "r" + IntToString(r)
  }

  function Immediate(n: int): string {
    "#" + IntToString(n)
  }

  /**
   * `print_instruction`: the text line written for one instruction, newline included. Each
   * format string is the mnemonic and the operand fields separated by single spaces, a
   * register written `r` and its number, an immediate `#` and its value.
   */
  function Encode(i: Instr): string {
    match i
    case Load(d, v) => "LOAD" + " " + Register(d) + " " + v + "\n"
    case LoadI(d, n) => "LOADI" + " " + Register(d) + " " + Immediate(n) + "\n"
    case Store(v, s) => "STORE" + " " + v + " " + Register(s) + "\n"
    case Arith(op, d, l, r) => op.Mnemonic() + " " + Register(d) + " " + Register(l) + " " + Register(r) + "\n"
    case Read(v) => "READ" + " " + v + "\n"
    case Write(v) => "WRITE" + " " + v + "\n"
  }

  /** The rendered operand fields of an instruction, in field order. */
  function Operands(i: Instr): seq<string> {
    match i
    case Load(d, v) => [Register(d), v]
    case LoadI(d, n) => [Register(d), Immediate(n)]
    case Store(v, s) => [v, Register(s)]
    case Arith(_, d, l, r) => [Register(d), Register(l), Register(r)]
    case Read(v) => [v]
    case Write(v) => [v]
  }

  /**
   * Each opcode has one fixed layout: its mnemonic followed by exactly as many operand fields
   * as the opcode uses (one for READ/WRITE, two for LOAD/LOADI/STORE, three for the
   * arithmetic and logic opcodes), separated by single spaces and ended by a newline.
   */
  lemma {:induction false} EncodeLayout(i: Instr)
    ensures Encode(i) == Line([i.Opcode().Mnemonic()] + Operands(i))
    ensures |Operands(i)| == i.Opcode().Arity()
  {
    match i
    case Load(d, v) => Join3("LOAD", Register(d), v);
    case LoadI(d, n) => Join3("LOADI", Register(d), Immediate(n));
    case Store(v, s) => Join3("STORE", v, Register(s));
    case Arith(op, d, l, r) => Join4(op.Mnemonic(), Register(d), Register(l), Register(r));
    case Read(v) => JoinCons("READ", [v]);
    case Write(v) => JoinCons("WRITE", [v]);
  }

  lemma {:induction false} Join3(a: string, b: string, c: string)
    ensures Join([a, b, c]) == a + " " + b + " " + c
  {
    JoinCons(b, [c]);
    JoinCons(a, [b, c]);
    assert [b, c][1..] == [c];
  }

  lemma {:induction false} Join4(a: string, b: string, c: string, d: string)
    ensures Join([a, b, c, d]) == a + " " + b + " " + c + " " + d
  {
    Join3(b, c, d);
    JoinCons(a, [b, c, d]);
  }

  lemma {:induction false} JoinCons(w: string, ws: seq<string>)
    requires ws != []
    ensures Join([w] + ws) == w + " " + Join(ws)
  {
    assert ([w] + ws)[1..] == ws;
  }

  /** Why a line that names a known opcode is still rejected (Python raises on it). */
  datatype FieldError =
    | MissingField(index: nat)     // IndexError: `words[index]` does not exist
    | NotAnInteger(text: string)   // ValueError: `int(text)` fails

  /** `words[k]`. */
  function Field(words: seq<string>, k: nat): Result<string, FieldError> {
    if k < |words| then Ok(words[k]) else Err(MissingField(k))
  }

  /** Python's `w[1:]`, which never fails. */
  function DropFirst(w: string): string {
    if w == [] then [] else w[1..]
  }

  /** `int(words[k][1:])`: a register or immediate field; its first character is skipped unchecked. */
  function NumberField(words: seq<string>, k: nat): Result<int, FieldError> {
    var w :- Field(words, k);
    match ParseInt(DropFirst(w))
    case Some(n) => Ok(n)
    case None => Err(NotAnInteger(DropFirst(w)))
  }

  /** The operand fields of an instruction whose mnemonic names `op`, read as the branch for `op` does. */
  function DecodeOperands(op: OpCode, words: seq<string>): Result<Instr, FieldError> {
    match op
    case LOAD =>
      var reg :- NumberField(words, 1);
      var v :- Field(words, 2);
      Ok(Load(reg, v))
    case LOADI =>
      var reg :- NumberField(words, 1);
      var imm :- NumberField(words, 2);
      Ok(LoadI(reg, imm))
    case STORE =>
      var v :- Field(words, 1);
      var reg :- NumberField(words, 2);
      Ok(Store(v, reg))
    case ADD | SUB | MUL | AND | OR =>
      var r1 :- NumberField(words, 1);
      var r2 :- NumberField(words, 2);
      var r3 :- NumberField(words, 3);
      Ok(Arith(op, r1, r2, r3))
    case READ =>
      var v :- Field(words, 1);
      Ok(Read(v))
    case WRITE =>
      var v :- Field(words, 1);
      Ok(Write(v))
  }

  /**
   * `parse_instruction_string`: Ok(None) for a blank line or an unknown mnemonic (the
   * function returns None), Ok(Some(i)) for an instruction, Err for the exceptions it raises.
   */
  function Decode(line: string): Result<Option<Instr>, FieldError> {
    var words := Words(line);
    if words == [] then Ok(None)
    else
      match OpCodeNamed(Upper(words[0]))
      case None => Ok(None)
      case Some(op) =>
        var i :- DecodeOperands(op, words);
        Ok(Some(i))
  }

  /**
   * Decoding ignores the case of the mnemonic and any words after the last field: a line
   * holding a well-formed instruction's operands, behind any spelling of its mnemonic that
   * upper-cases to the real one, decodes to that instruction.
   */
  lemma {:induction false} DecodeAnyCase(i: Instr, m: string, extra: seq<string>)
    requires WellFormed(i)
    requires IsWord(m) && Upper(m) == i.Opcode().Mnemonic()
    requires forall k :: 0 <= k < |extra| ==> IsWord(extra[k])
    ensures Decode(Line([m] + Operands(i) + extra)) == Ok(Some(i))
  {
    var ws := [m] + Operands(i) + extra;
    OperandsAreWords(i);
    forall k | 0 <= k < |ws| ensures IsWord(ws[k]) {
      if 1 <= k <= |Operands(i)| {
        assert ws[k] == Operands(i)[k - 1];
      } else if k > |Operands(i)| {
        assert ws[k] == extra[k - 1 - |Operands(i)|];
      }
    }
    WordsOfLine(ws);
    OpCodeValues(i.Opcode(), i.Opcode());
    DecodeOperandsOf(i, ws);
  }

  /** The branch for an instruction's opcode reads back the instruction from its rendered fields. */
  lemma {:induction false} DecodeOperandsOf(i: Instr, ws: seq<string>)
    requires |ws| > |Operands(i)|
    requires forall k :: 0 <= k < |Operands(i)| ==> ws[k + 1] == Operands(i)[k]
    ensures DecodeOperands(i.Opcode(), ws) == Ok(i)
  {
    var ops := Operands(i);
    assert ws[1] == ops[0];
    match i
    case Load(d, v) =>
      assert ws[2] == ops[1];
      LoadOperands(d, v, ws);
    case LoadI(d, n) =>
      assert ws[2] == ops[1];
      LoadIOperands(d, n, ws);
    case Store(v, s) =>
      assert ws[2] == ops[1];
      StoreOperands(v, s, ws);
    case Arith(op, d, l, r) =>
      assert ws[2] == ops[1] && ws[3] == ops[2];
      ArithOperands(op, d, l, r, ws);
    case Read(v) =>
    case Write(v) =>
  }

  lemma {:induction false} LoadOperands(d: int, v: string, ws: seq<string>)
    requires |ws| > 2 && ws[1] == Register(d) && ws[2] == v
    ensures DecodeOperands(LOAD, ws) == Ok(Load(d, v))
  {
    RegisterField(ws, 1, d);
  }

  lemma {:induction false} LoadIOperands(d: int, n: int, ws: seq<string>)
    requires |ws| > 2 && ws[1] == Register(d) && ws[2] == Immediate(n)
    ensures DecodeOperands(LOADI, ws) == Ok(LoadI(d, n))
  {
    RegisterField(ws, 1, d);
    ImmediateField(ws, 2, n);
  }

  lemma {:induction false} StoreOperands(v: string, s: int, ws: seq<string>)
    requires |ws| > 2 && ws[1] == v && ws[2] == Register(s)
    ensures DecodeOperands(STORE, ws) == Ok(Store(v, s))
  {
    RegisterField(ws, 2, s);
  }

  lemma {:induction false} ArithOperands(op: ArithOp, d: int, l: int, r: int, ws: seq<string>)
    requires |ws| > 3 && ws[1] == Register(d) && ws[2] == Register(l) && ws[3] == Register(r)
    ensures DecodeOperands(op, ws) == Ok(Arith(op, d, l, r))
  {
    RegisterField(ws, 1, d);
    RegisterField(ws, 2, l);
    RegisterField(ws, 3, r);
  }

  lemma {:induction false} RegisterField(ws: seq<string>, k: nat, n: int)
    requires k < |ws| && ws[k] == Register(n)
    ensures NumberField(ws, k) == Ok(n)
  {
    assert DropFirst(Register(n)) == IntToString(n);
    IntToStringParses(n);
  }

  lemma {:induction false} ImmediateField(ws: seq<string>, k: nat, n: int)
    requires k < |ws| && ws[k] == Immediate(n)
    ensures NumberField(ws, k) == Ok(n)
  {
    assert DropFirst(Immediate(n)) == IntToString(n);
    IntToStringParses(n);
  }

  lemma {:induction false} OperandsAreWords(i: Instr)
    requires WellFormed(i)
    ensures forall k :: 0 <= k < |Operands(i)| ==> IsWord(Operands(i)[k])
  {
    match i
    case Load(d, _) => IntToStringIsWord(d);
    case LoadI(d, n) => IntToStringIsWord(d); IntToStringIsWord(n);
    case Store(_, s) => IntToStringIsWord(s);
    case Arith(_, d, l, r) => IntToStringIsWord(d); IntToStringIsWord(l); IntToStringIsWord(r);
    case Read(_) =>
    case Write(_) =>
  }

  /** Round trip: decoding the line written for a well-formed instruction gives it back. */
  lemma {:induction false} DecodeEncode(i: Instr)
    requires WellFormed(i)
    ensures Decode(Encode(i)) == Ok(Some(i))
  {
    var m := i.Opcode().Mnemonic();
    var ws := [m] + Operands(i);
    MnemonicIsUpperWord(i.Opcode());
    UpperOfUpperAscii(m);
    assert ws + [] == ws;
    DecodeAnyCase(i, m, []);
    EncodeLayout(i);
  }

  lemma {:induction false} MnemonicIsUpperWord(op: OpCode)
    ensures IsWord(op.Mnemonic()) && IsUpperAscii(op.Mnemonic())
  {
    match op
    case LOAD => case LOADI => case STORE => case ADD => case SUB =>
    case MUL => case OR => case AND => case READ => case WRITE =>
  }

  /**
   * Exactly the blank lines and the lines whose first word is not a mnemonic decode to no
   * instruction; a line that names a known opcode gives an instruction or an error.
   */
  lemma {:induction false} DecodeNone(line: string)
    ensures Decode(line) == Ok(None) <==>
      (Words(line) == [] || Upper(Words(line)[0]) !in Mnemonics)
  {
  }

  /** A line of whitespace only decodes to no instruction. */
  lemma {:induction false} DecodeBlank(line: string)
    requires forall k :: 0 <= k < |line| ==> IsSpace(line[k])
    ensures Decode(line) == Ok(None)
  {
    WordsOfBlank(line);
  }

  /**
   * A line with fewer fields than its opcode uses is rejected, and an accepted line names
   * the decoded opcode and carries at least its fields.
   */
  lemma {:induction false} DecodeNeedsFields(line: string, op: OpCode)
    requires Words(line) != [] && Upper(Words(line)[0]) == op.Mnemonic()
    ensures |Words(line)| <= op.Arity() ==> Decode(line).Err?
    ensures Decode(line).Ok? ==>
      Decode(line).value.Some? && Decode(line).value.value.Opcode() == op
      && |Words(line)| > op.Arity()
  {
    DecodeNamed(line, op);
    OperandsNeedFields(op, Words(line));
  }

  /** A line whose first word names `op` decodes as the branch for `op` reads its words. */
  lemma {:induction false} DecodeNamed(line: string, op: OpCode)
    requires Words(line) != [] && Upper(Words(line)[0]) == op.Mnemonic()
    ensures var d := DecodeOperands(op, Words(line));
      Decode(line) == if d.Ok? then Ok(Some(d.value)) else Err(d.error)
  {
    OpCodeValues(op, op);
  }

  /** A field read from a line is there. */
  lemma {:induction false} FieldPresent(ws: seq<string>, k: nat)
    ensures Field(ws, k).Ok? ==> k < |ws|
    ensures NumberField(ws, k).Ok? ==> k < |ws|
  {
  }

  lemma {:induction false} OperandsNeedFields(op: OpCode, ws: seq<string>)
    ensures |ws| <= op.Arity() ==> DecodeOperands(op, ws).Err?
    ensures DecodeOperands(op, ws).Ok? ==> DecodeOperands(op, ws).value.Opcode() == op && |ws| > op.Arity()
  {
    FieldPresent(ws, 1);
    FieldPresent(ws, 2);
    FieldPresent(ws, 3);
    match op
    case LOAD => case LOADI => case STORE => case ADD => case SUB =>
    case MUL => case OR => case AND => case READ => case WRITE =>
  }

  /** Why a whole instruction file is rejected: the first malformed line and its error. */
  datatype LineError = LineError(line: nat, error: FieldError)

  /** The decoding of each line of a file, in order. */
  function DecodeEach(lines: seq<string>): (ds: seq<Result<Option<Instr>, FieldError>>)
    ensures |ds| == |lines|
    ensures forall k :: 0 <= k < |lines| ==> ds[k] == Decode(lines[k])
  {
    seq(|lines|, k requires 0 <= k < |lines| => Decode(lines[k]))
  }

  /** Each line is decoded on its own: decoding two runs of lines joined is decoding each run. */
  lemma {:induction false} DecodeEachAppend(a: seq<string>, b: seq<string>)
    ensures DecodeEach(a + b) == DecodeEach(a) + DecodeEach(b)
  {
  }

  /**
   * Keeping the decoded lines the way `read_instruction_list` does: the instructions of the
   * lines that decode to one, in file order; lines that decode to none are skipped; the
   * first line that raises aborts the whole read.
   */
  function Collect(ds: seq<Result<Option<Instr>, FieldError>>): Result<seq<Instr>, LineError> {
    if ds == [] then Ok([])
    else Extend(Collect(ds[..|ds| - 1]), ds[|ds| - 1], |ds| - 1)
  }

  /** `read_instruction_list` on the lines of a file. */
  function DecodeLines(lines: seq<string>): Result<seq<Instr>, LineError> {
    Collect(DecodeEach(lines))
  }

  /** One more line, number `n`, read after the lines that gave `init`. */
  function Extend(init: Result<seq<Instr>, LineError>, d: Result<Option<Instr>, FieldError>, n: nat)
    : Result<seq<Instr>, LineError>
  {
    match init
    case Err(e) => Err(e)
    case Ok(x) =>
      match d
      case Err(e) => Err(LineError(n, e))
      case Ok(None) => Ok(x)
      case Ok(Some(i)) => Ok(x + [i])
  }

  /** Reading the first `k + 1` lines is reading line `k` after the first `k`. */
  lemma {:induction false} CollectStep(ds: seq<Result<Option<Instr>, FieldError>>, k: nat)
    requires k < |ds|
    ensures Collect(ds[..k + 1]) == Extend(Collect(ds[..k]), ds[k], k)
  {
    assert ds[..k + 1][..k] == ds[..k];
  }

  /** Once a prefix of the lines fails to read, the whole file fails with the same error. */
  lemma {:induction false} CollectErrorStays(ds: seq<Result<Option<Instr>, FieldError>>, k: nat)
    requires k <= |ds| && Collect(ds[..k]).Err?
    ensures Collect(ds) == Collect(ds[..k])
    decreases |ds| - k
  {
    if k < |ds| {
      CollectStep(ds, k);
      CollectErrorStays(ds, k + 1);
    } else {
      assert ds[..k] == ds;
    }
  }

  /** The lines `print_instruction` appends to the output file, one per instruction. */
  function EncodeLines(code: seq<Instr>): (lines: seq<string>)
    ensures |lines| == |code|
    ensures forall k :: 0 <= k < |code| ==> lines[k] == Encode(code[k])
  {
    seq(|code|, k requires 0 <= k < |code| => Encode(code[k]))
  }

  /** Each instruction is printed on its own: printing two lists joined is printing each list. */
  lemma {:induction false} EncodeLinesAppend(a: seq<Instr>, b: seq<Instr>)
    ensures EncodeLines(a + b) == EncodeLines(a) + EncodeLines(b)
  {
  }

  lemma {:induction false} EncodeLinesStep(code: seq<Instr>, i: Instr)
    ensures EncodeLines(code + [i]) == EncodeLines(code) + [Encode(i)]
  {
  }

  /** The decoding of a line per instruction, each giving back its instruction. */
  function Found(code: seq<Instr>): (ds: seq<Result<Option<Instr>, FieldError>>)
    ensures |ds| == |code|
  {
    seq(|code|, k requires 0 <= k < |code| => Ok(Some(code[k])))
  }

  lemma {:induction false} CollectFound(code: seq<Instr>)
    ensures Collect(Found(code)) == Ok(code)
  {
    if code != [] {
      var init := code[..|code| - 1];
      assert Found(code)[..|code| - 1] == Found(init);
      CollectFound(init);
      assert init + [code[|code| - 1]] == code;
    }
  }

  /** Round trip of a whole file: the lines written for a program read back as that program. */
  lemma {:induction false} DecodeLinesEncodeLines(code: seq<Instr>)
    requires forall k :: 0 <= k < |code| ==> WellFormed(code[k])
    ensures DecodeLines(EncodeLines(code)) == Ok(code)
  {
    var lines := EncodeLines(code);
    forall k | 0 <= k < |code|
      ensures DecodeEach(lines)[k] == Found(code)[k]
    {
      DecodeEncode(code[k]);
    }
    assert DecodeEach(lines) == Found(code);
    CollectFound(code);
  }

  /** Combining the readings of two consecutive parts of a file, the second starting at line `offset`. */
  function ThenLines(first: Result<seq<Instr>, LineError>, second: Result<seq<Instr>, LineError>, offset: nat)
    : Result<seq<Instr>, LineError>
  {
    match first
    case Err(e) => Err(e)
    case Ok(x) =>
      match second
      case Err(LineError(n, e)) => Err(LineError(offset + n, e))
      case Ok(y) => Ok(x + y)
  }

  /**
   * Reading one more line after two parts is reading it after the second part: if `whole`
   * extends the reading `init` of both parts and `next` extends the reading `second` of the
   * second part by the same line, `whole` combines the first part with `next`.
   */
  lemma {:induction false} ThenExtend(whole: Result<seq<Instr>, LineError>, init: Result<seq<Instr>, LineError>,
                   first: Result<seq<Instr>, LineError>, second: Result<seq<Instr>, LineError>,
                   next: Result<seq<Instr>, LineError>, d: Result<Option<Instr>, FieldError>,
                   offset: nat, n: nat)
    requires init == ThenLines(first, second, offset)
    requires whole == Extend(init, d, offset + n)
    requires next == Extend(second, d, n)
    ensures whole == ThenLines(first, next, offset)
  {
    if first.Ok? && second.Ok? && d.Ok? && d.value.Some? {
      assert first.value + second.value + [d.value.value] == first.value + (second.value + [d.value.value]);
    }
  }

  /** Keeping the decoded lines of two consecutive parts: the first part's, then the second's. */
  lemma {:induction false} CollectAppend(a: seq<Result<Option<Instr>, FieldError>>, b: seq<Result<Option<Instr>, FieldError>>)
    ensures Collect(a + b) == ThenLines(Collect(a), Collect(b), |a|)
  {
    if b == [] {
      assert a + b == a;
      if Collect(a).Ok? {
        assert Collect(a).value + [] == Collect(a).value;
      }
    } else {
      var ab := a + b;
      var b', last := b[..|b| - 1], b[|b| - 1];
      assert ab[..|ab| - 1] == a + b';
      assert ab[|ab| - 1] == last;
      CollectAppend(a, b');
      ThenExtend(Collect(ab), Collect(a + b'), Collect(a), Collect(b'), Collect(b), last, |a|, |b'|);
    }
  }

  /**
   * Reading a file is reading its parts in order: the instructions of `a + b` are those of
   * `a` followed by those of `b`, and the first malformed line, counted from the start of the
   * whole file, decides the error.
   */
  lemma {:induction false} DecodeLinesAppend(a: seq<string>, b: seq<string>)
    ensures DecodeLines(a + b) == ThenLines(DecodeLines(a), DecodeLines(b), |a|)
  {
    assert DecodeEach(a + b) == DecodeEach(a) + DecodeEach(b);
    CollectAppend(DecodeEach(a), DecodeEach(b));
  }
}
