/**
 * The few Python string operations the instruction codec relies on, on code points:
 * `str.split()` with no argument, `str.upper()` as far as it decides a mnemonic match,
 * `str(n)` for integers and `int(s)`.
 */
module PyText {
  import opened Wrappers

  /** `str.isspace()` on one code point: the characters CPython's `split()` separates on. */
  predicate IsSpace(c: char) {
    var n := c as int;
    (0x09 <= n <= 0x0D) || (0x1C <= n <= 0x20) || n == 0x85 || n == 0xA0 || n == 0x1680
    || (0x2000 <= n <= 0x200A) || n == 0x2028 || n == 0x2029 || n == 0x202F || n == 0x205F
    || n == 0x3000
  }

  /** A non-empty string without whitespace: what `split()` can return as one element. */
  predicate IsWord(s: string) {
    s != [] && forall k :: 0 <= k < |s| ==> !IsSpace(s[k])
  }

  /** Length of the run of non-whitespace characters that starts `s`. */
  function WordLength(s: string): (n: nat)
    ensures n <= |s|
    ensures forall k :: 0 <= k < n ==> !IsSpace(s[k])
    ensures n < |s| ==> IsSpace(s[n])
  {
    if s == [] || IsSpace(s[0]) then 0 else 1 + WordLength(s[1..])
  }

  /** `s.split()`: the maximal runs of non-whitespace characters, in order. */
  function Words(s: string): (ws: seq<string>)
    ensures forall k :: 0 <= k < |ws| ==> IsWord(ws[k])
    decreases |s|
  {
    if s == [] then []
    else if IsSpace(s[0]) then Words(s[1..])
    else
      var n := WordLength(s);
      [s[..n]] + Words(s[n..])
  }

  /** Words joined by single spaces, as a format string such as "ADD r{} r{} r{}" lays them out. */
  function Join(ws: seq<string>): string {
    if ws == [] then ""
    else if |ws| == 1 then ws[0]
    else ws[0] + " " + Join(ws[1..])
  }

  /** One output line: the joined words and the terminating newline. */
  function Line(ws: seq<string>): string {
    Join(ws) + "\n"
  }

  lemma {:induction false} WordLengthOfWord(w: string, rest: string)
    requires IsWord(w)
    requires rest == [] || IsSpace(rest[0])
    ensures WordLength(w + rest) == |w|
  {
    if |w| > 1 {
      assert (w + rest)[1..] == w[1..] + rest;
      WordLengthOfWord(w[1..], rest);
    } else {
      assert (w + rest)[1..] == rest;
    }
  }

  /** A word followed by whitespace (or nothing) is split off as the first element. */
  lemma {:induction false} WordsOfPrefix(w: string, rest: string)
    requires IsWord(w)
    requires rest == [] || IsSpace(rest[0])
    ensures Words(w + rest) == [w] + Words(rest)
  {
    WordLengthOfWord(w, rest);
    assert (w + rest)[..|w|] == w;
    assert (w + rest)[|w|..] == rest;
  }

  /** A line laid out by `Line` splits back into exactly the words it was built from. */
  lemma {:induction false} WordsOfLine(ws: seq<string>)
    requires forall k :: 0 <= k < |ws| ==> IsWord(ws[k])
    ensures Words(Line(ws)) == ws
  {
    if ws == [] {
      assert Line(ws) == "\n";
    } else if |ws| == 1 {
      WordsOfPrefix(ws[0], "\n");
      assert Words("\n") == [];
    } else {
      var tail := Line(ws[1..]);
      assert Line(ws) == ws[0] + (" " + tail);
      WordsOfPrefix(ws[0], " " + tail);
      assert (" " + tail)[1..] == tail;
      WordsOfLine(ws[1..]);
    }
  }

  /** A line made of whitespace only splits into no words. */
  lemma {:induction false} WordsOfBlank(s: string)
    requires forall k :: 0 <= k < |s| ==> IsSpace(s[k])
    ensures Words(s) == []
  {
    if s != [] {
      WordsOfBlank(s[1..]);
    }
  }

  /**
   * `c.upper()`: ASCII letters, plus every non-ASCII character whose Unicode uppercase is
   * made of ASCII letters only (so that a mnemonic match is decided exactly). Every other
   * character is left as it is: its real uppercase keeps a non-ASCII character in it, so it
   * can never complete an ASCII mnemonic either way.
   */
  function UpperChar(c: char): string {
    if 'a' <= c <= 'z' then [(c as int - 32) as char]
    else if c as int == 0xDF then "SS"
    else if c as int == 0x131 then "I"
    else if c as int == 0x17F then "S"
    else if c as int == 0xFB00 then "FF"
    else if c as int == 0xFB01 then "FI"
    else if c as int == 0xFB02 then "FL"
    else if c as int == 0xFB03 then "FFI"
    else if c as int == 0xFB04 then "FFL"
    else if c as int == 0xFB05 || c as int == 0xFB06 then "ST"
    else [c]
  }

  /** `s.upper()`, character by character. */
  function Upper(s: string): string {
    if s == [] then [] else UpperChar(s[0]) + Upper(s[1..])
  }

  predicate IsUpperAscii(s: string) {
    forall k :: 0 <= k < |s| ==> 'A' <= s[k] <= 'Z'
  }

  lemma {:induction false} UpperOfUpperAscii(s: string)
    requires IsUpperAscii(s)
    ensures Upper(s) == s
  {
    if s != [] {
      UpperOfUpperAscii(s[1..]);
    }
  }

  predicate IsDigitChar(c: char) {
    '0' <= c <= '9'
  }

  function DigitChar(d: nat): (c: char)
    requires d < 10
    ensures IsDigitChar(c) && c as int - '0' as int == d
  {
    ('0' as int + d) as char
  }

  /** `str(n)` for a non-negative integer: decimal digits, no leading zeros. */
  function NatToString(n: nat): (s: string)
    ensures s != [] && forall k :: 0 <= k < |s| ==> IsDigitChar(s[k])
  {
    if n < 10 then [DigitChar(n)] else NatToString(n / 10) + [DigitChar(n % 10)]
  }

  /** `str(x)`, which is also what `"{}".format(x)` writes for an integer. */
  function IntToString(x: int): string {
    if x < 0 then "-" + NatToString(-x) else NatToString(x)
  }

  /** The digit part Python's `int()` accepts: decimal digits, single underscores only between digits. */
  predicate IsDigitGroup(s: string) {
    && s != []
    && IsDigitChar(s[0])
    && IsDigitChar(s[|s| - 1])
    && forall k :: 0 <= k < |s| ==>
         IsDigitChar(s[k]) || (s[k] == '_' && k < |s| - 1 && IsDigitChar(s[k + 1]))
  }

  /** The value of the decimal digits of `s`, skipping the underscores. */
  function DigitsValue(s: string): nat {
    if s == [] then 0
    else
      var c := s[|s| - 1];
      var init := DigitsValue(s[..|s| - 1]);
      if IsDigitChar(c) then init * 10 + (c as int - '0' as int) else init
  }

  /**
   * `int(s)` for a string without whitespace: an optional sign and a digit group.
   * None stands for the ValueError Python raises on anything else.
   */
  function ParseInt(s: string): Option<int> {
    if s != [] && (s[0] == '+' || s[0] == '-') then
      var digits := s[1..];
      if IsDigitGroup(digits) then
        var n: int := DigitsValue(digits);
        Some(if s[0] == '-' then -n else n)
      else None
    else if IsDigitGroup(s) then Some(DigitsValue(s))
    else None
  }

  /**
   * The whitespace `int()` skips around the number: `isspace()` characters except the ASCII
   * information separators U+001C..U+001F. CPython skips only ASCII tab, line feed, vertical
   * tab, form feed, carriage return and space, after reading every non-ASCII space as a space.
   */
  predicate IntSpace(c: char) {
    IsSpace(c) && !(0x1C <= c as int <= 0x1F)
  }

  /** The argument of `int()` with the whitespace it skips removed from both ends. */
  function Trim(s: string): string {
    TrimEnd(TrimStart(s))
  }

  /** `s` without the whitespace `int()` skips before the number. */
  function TrimStart(s: string): string
    decreases |s|
  {
    if s != [] && IntSpace(s[0]) then TrimStart(s[1..]) else s
  }

  /** `s` without the whitespace `int()` skips after the number. */
  function TrimEnd(s: string): string
    decreases |s|
  {
    if s != [] && IntSpace(s[|s| - 1]) then TrimEnd(s[..|s| - 1]) else s
  }

  /**
   * `Trim` removes the whitespace `int()` skips at the two ends and nothing else: its result
   * is the slice `s[i..j]` with only such whitespace before and after it, and none at its ends.
   */
  lemma {:induction false} TrimSlice(s: string) returns (i: nat, j: nat)
    ensures i <= j <= |s| && Trim(s) == s[i..j]
    ensures forall k :: 0 <= k < i ==> IntSpace(s[k])
    ensures forall k :: j <= k < |s| ==> IntSpace(s[k])
    ensures i < j ==> !IntSpace(s[i]) && !IntSpace(s[j - 1])
  {
    i := TrimStartSlice(s);
    var u := s[i..];
    var j' := TrimEndSlice(u);
    j := i + j';
    assert u[..j'] == s[i..j];
    forall k | j <= k < |s| ensures IntSpace(s[k]) {
      assert s[k] == u[k - i];
    }
    if i < j {
      assert s[i] == u[0] && s[j - 1] == u[j' - 1];
    }
  }

  /** Trimming leaves text that holds no whitespace `int()` skips as it is. */
  lemma {:induction false} TrimClean(s: string)
    requires forall k :: 0 <= k < |s| ==> !IntSpace(s[k])
    ensures Trim(s) == s
  {
    var i, j := TrimSlice(s);
    assert s[0..|s|] == s;
  }

  lemma {:induction false} TrimStartSlice(s: string) returns (i: nat)
    ensures i <= |s| && TrimStart(s) == s[i..]
    ensures forall k :: 0 <= k < i ==> IntSpace(s[k])
    ensures i < |s| ==> !IntSpace(s[i])
    decreases |s|
  {
    if s != [] && IntSpace(s[0]) {
      var i' := TrimStartSlice(s[1..]);
      i := i' + 1;
      assert s[1..][i'..] == s[i..];
      forall k | 0 <= k < i ensures IntSpace(s[k]) {
        if k > 0 { assert s[k] == s[1..][k - 1]; }
      }
      if i < |s| { assert s[i] == s[1..][i']; }
    } else {
      i := 0;
    }
  }

  lemma {:induction false} TrimEndSlice(s: string) returns (j: nat)
    ensures j <= |s| && TrimEnd(s) == s[..j]
    ensures forall k :: j <= k < |s| ==> IntSpace(s[k])
    ensures j > 0 ==> !IntSpace(s[j - 1])
    decreases |s|
  {
    if s != [] && IntSpace(s[|s| - 1]) {
      j := TrimEndSlice(s[..|s| - 1]);
      assert s[..|s| - 1][..j] == s[..j];
      forall k | j <= k < |s| ensures IntSpace(s[k]) {
        if k < |s| - 1 { assert s[k] == s[..|s| - 1][k]; }
      }
      if j > 0 { assert s[j - 1] == s[..|s| - 1][j - 1]; }
    } else {
      j := |s|;
    }
  }

  /**
   * `int(s)` on a whole input line: the whitespace `int()` skips is ignored at either end.
   * None stands for the ValueError Python raises.
   */
  function ParseLine(s: string): Option<int> {
    ParseInt(Trim(s))
  }

  /** The information separators are `isspace()` but not skipped by `int()`: `"\x1c5"` is no integer. */
  lemma {:induction false} SeparatorIsNoSpaceForInt()
    ensures IsSpace('\U{1C}') && ParseLine("\U{1C}5") == None
  {
    assert Trim("\U{1C}5") == "\U{1C}5";
  }

  lemma {:induction false} NatToStringValue(n: nat)
    ensures IsDigitGroup(NatToString(n))
    ensures DigitsValue(NatToString(n)) == n
  {
    var s := NatToString(n);
    if n >= 10 {
      NatToStringValue(n / 10);
      assert s[..|s| - 1] == NatToString(n / 10);
    }
  }

  /** `int(str(x)) == x`: the integer a line carries comes back unchanged. */
  lemma {:induction false} IntToStringParses(x: int)
    ensures ParseInt(IntToString(x)) == Some(x)
  {
    if x < 0 {
      NatToStringValue(-x);
      assert IntToString(x)[1..] == NatToString(-x);
    } else {
      NatToStringValue(x);
    }
  }

  /** A line holding `str(x)` is read back by `int()` as `x`. */
  lemma {:induction false} ParseLineOfInt(x: int)
    ensures ParseLine(IntToString(x)) == Some(x)
  {
    IntToStringIsWord(x);
    IntToStringParses(x);
  }

  /** Neither a rendered integer nor its digits contain whitespace. */
  lemma {:induction false} IntToStringIsWord(x: int)
    ensures IsWord(IntToString(x))
  {
  }
}
