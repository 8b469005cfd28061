/** Concrete cases of the compiler and of the interpreter's steps. */
module Examples {
  import opened Wrappers
  import opened PyText
  import opened Instruction
  import opened Execution
  import opened CompilerSpec

  /** `a?3!`: the assignment finds `?` where `=` belongs. */
  lemma {:induction false} AssignWithoutEquals()
    ensures Compile("a?3!").result == Err(SymbolUnknown('?'))
  {
  }

  /** A READ of a line that is no integer raises after its prompt, and nothing after it runs. */
  lemma {:induction false} ReadNotANumber(rest: seq<Instr>)
    ensures Run([Read("a")] + rest, Init(["x"])) == Crashed(0, NotANumber("x"), "tinyL>> enter value for \"a\": ")
  {
    assert ParseLine("x") == None by {
      assert Trim("x") == "x";
    }
    RunCons(Read("a"), rest, Init(["x"]));
  }

  /** Register -1 is the last register of the file, as Python indexes lists. */
  lemma {:induction false} NegativeRegister(m: Machine, x: int)
    requires Sized(m)
    ensures Step(m, LoadI(-1, x)) == Ok(m.(registers := m.registers[MaxRegNum - 1 := x]))
  {
  }

  /** Register 1000 is past the end of the file. */
  lemma {:induction false} RegisterPastEnd(m: Machine, x: int)
    requires Sized(m)
    ensures Step(m, LoadI(MaxRegNum, x)) == Err(Stop(RegisterIndex(MaxRegNum), m.output))
  {
  }

  /** `` ` `` is one before `a`, so it names the last cell, the one of `f`. */
  lemma {:induction false} BacktickIsF(m: Machine, d: int)
    requires Sized(m)
    ensures Step(m, Load(d, "`")) == Step(m, Load(d, "f"))
  {
  }

  /** A STORE reads its register before it looks at its variable. */
  lemma {:induction false} StoreRegisterFirst(m: Machine)
    requires Sized(m)
    ensures Step(m, Store("ab", MaxRegNum)) == Err(Stop(RegisterIndex(MaxRegNum), m.output))
    ensures Step(m, Store("ab", 0)) == Err(Stop(NotOneChar("ab"), m.output))
  {
  }

  /** `6 & 3 == 2`, `6 | 3 == 7`, `-2 & 7 == 6` and `-8 | 3 == -5`. */
  lemma {:induction false} BitwiseValues()
    ensures BitAnd(6, 3) == 2 && BitOr(6, 3) == 7
    ensures BitAnd(-2, 7) == 6 && BitOr(-8, 3) == -5
  {
  }
}
