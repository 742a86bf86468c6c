/**
 * The demonstration shell (userspace/shell/src/main.rs): decimal parsing with
 * overflow detection, the `calc` arithmetic and the command dispatch on the
 * first whitespace-separated token.
 */
module Shell {
  import opened Wrappers
  import opened Runtime

  // ---------------------------------------------------------------------------
  // parse_u32
  // ---------------------------------------------------------------------------

  predicate AllDigits(s: seq<char>)
  {
    forall i :: 0 <= i < |s| ==> IsDigitChar(s[i])
  }

  /**
   * What parse_u32 returns: the value of an all-digit string when it fits in a
   * u32, and an error for any other char or for a value above u32::MAX.
   */
  function ParseSpec(s: seq<char>): Result<U32, ()>
  {
    if AllDigits(s) && DigitsValue(s) < U32_BOUND then Ok(DigitsValue(s)) else Err(())
  }

  /** A longer digit string never denotes a smaller number. */
  lemma {:induction false} DigitsValuePrefix(s: seq<char>, k: nat)
    requires AllDigits(s) && k <= |s|
    ensures DigitsValue(s[..k]) <= DigitsValue(s)
    decreases |s| - k
  {
    if k < |s| {
      var t := s[..k + 1];
      assert t[..|t| - 1] == s[..k];
      DigitsValuePrefix(s, k + 1);
    } else {
      assert s[..k] == s;
    }
  }

  /**
   * parse_u32: accumulates digit by digit with checked multiplication and
   * addition, failing at the first non-digit char or the first overflow.
   */
  method ParseU32(s: seq<char>) returns (r: Result<U32, ()>)
    ensures r == ParseSpec(s)
  {
    var result: U32 := 0;
    var i := 0;
    while i < |s|
      invariant 0 <= i <= |s|
      invariant AllDigits(s[..i]) && result == DigitsValue(s[..i])
    {
      var ch := s[i];
      assert s[..i + 1][..i] == s[..i];
      if !IsDigitChar(ch) {
        return Err(());
      }
      var digit := DigitValue(ch);
      assert AllDigits(s[..i + 1]);
      if result * 10 >= U32_BOUND {
        if AllDigits(s) {
          DigitsValuePrefix(s, i + 1);
        }
        return Err(());
      }
      result := result * 10;
      if result + digit >= U32_BOUND {
        if AllDigits(s) {
          DigitsValuePrefix(s, i + 1);
        }
        return Err(());
      }
      result := result + digit;
      i := i + 1;
    }
    assert s[..i] == s;
    return Ok(result);
  }

  /** Parsing what format_u32 prints gives the number back. */
  lemma ParseDecimalRoundTrip(v: U32)
    ensures ParseSpec(Decimal(v)) == Ok(v)
  {
    DecimalValue(v);
  }

  /** The empty string is accepted as zero. */
  lemma ParseEmpty()
    ensures ParseSpec("") == Ok(0)
  {
  }

  /** A sign, a space or a letter anywhere makes the whole string invalid. */
  lemma ParseRejectsNonDigit(s: seq<char>, i: nat)
    requires i < |s| && !IsDigitChar(s[i])
    ensures ParseSpec(s).Err?
  {
  }

  /** A digit string whose value exceeds u32::MAX is rejected, however it is spelled. */
  lemma ParseRejectsOverflow(s: seq<char>)
    requires AllDigits(s) && DigitsValue(s) >= U32_BOUND
    ensures ParseSpec(s).Err?
  {
  }

  // ---------------------------------------------------------------------------
  // calc
  // ---------------------------------------------------------------------------

  /**
   * The `calc` operator match.  The userspace programs are built in release
   * mode, where `+` and `*` on u32 wrap around; `-`, `/` and `%` are guarded.
   */
  function Calc(a: U32, op: seq<char>, b: U32): (r: Option<U32>)
    ensures op == "+" ==> r.Some? && r.value == (a + b) % U32_BOUND
    ensures op == "*" ==> r.Some? && r.value == (a * b) % U32_BOUND
    ensures op == "-" ==> (r.Some? <==> a >= b)
    ensures (op == "/" || op == "%") ==> (r.Some? <==> b != 0)
    ensures op !in {"+", "-", "*", "/", "%"} ==> r == None
  {
    if op == "+" then Some(ToU32(a + b))
    else if op == "-" then (if a >= b then Some(a - b) else None)
    else if op == "*" then Some(ToU32(a * b))
    else if op == "/" then (if b != 0 then Some(Quotient(a, b)) else None)
    else if op == "%" then (if b != 0 then Some(a % b) else None)
    else None
  }

  /** `a / b` on u32, which never exceeds `a`. */
  function Quotient(a: U32, b: U32): (q: U32)
    requires b != 0
    ensures q * b + a % b == a
  {
    var q := a / b;
    MulGrows(q, b);
    q
  }

  /** A multiple by a positive factor is at least the multiplicand. */
  lemma {:induction false} MulGrows(q: nat, b: nat)
    requires b >= 1
    ensures q <= q * b
    decreases b
  {
    if b > 1 {
      MulGrows(q, b - 1);
      assert q * b == q * (b - 1) + q;
    }
  }

  /** Without overflow, `+` and `*` are exact. */
  lemma CalcExact(a: U32, b: U32)
    ensures a + b < U32_BOUND ==> Calc(a, "+", b) == Some(a + b)
    ensures a * b < U32_BOUND ==> Calc(a, "*", b) == Some(a * b)
  {
  }

  /** `-` undoes `+`. */
  lemma CalcSubtractInverts(a: U32, b: U32)
    requires a + b < U32_BOUND
    ensures Calc(a + b, "-", b) == Some(a)
    ensures Calc(a + b, "-", a) == Some(b)
  {
  }

  /** `/` and `%` give the Euclidean quotient and remainder. */
  lemma CalcDivision(a: U32, b: U32)
    requires b != 0
    ensures Calc(a, "/", b).Some? && Calc(a, "%", b).Some?
    ensures Calc(a, "/", b).value * b + Calc(a, "%", b).value == a
    ensures Calc(a, "%", b).value < b
  {
  }

  // ---------------------------------------------------------------------------
  // split_whitespace
  // ---------------------------------------------------------------------------

  /** Unicode White_Space, the set `str::split_whitespace` splits on. */
  predicate IsWhitespace(c: char)
  {
    var u := c as int;
    (0x09 <= u <= 0x0D) || u == 0x20 || u == 0x85 || u == 0xA0 || u == 0x1680
    || (0x2000 <= u <= 0x200A) || u == 0x2028 || u == 0x2029 || u == 0x202F
    || u == 0x205F || u == 0x3000
  }

  predicate NoWhitespace(w: seq<char>)
  {
    forall i :: 0 <= i < |w| ==> !IsWhitespace(w[i])
  }

  /** Length of the leading run of non-whitespace chars. */
  function WordLength(s: seq<char>): (n: nat)
    ensures n <= |s|
    ensures NoWhitespace(s[..n])
    ensures n < |s| ==> IsWhitespace(s[n])
    decreases |s|
  {
    if s == [] || IsWhitespace(s[0]) then 0
    else
      var n := 1 + WordLength(s[1..]);
      assert s[..n] == [s[0]] + s[1..][..n - 1];
      n
  }

  /** The non-empty whitespace-free words of s, in order. */
  function Tokens(s: seq<char>): (ts: seq<seq<char>>)
    ensures forall i :: 0 <= i < |ts| ==> ts[i] != [] && NoWhitespace(ts[i])
    ensures NoWhitespace(s) && s != [] ==> ts == [s]
    decreases |s|
  {
    if s == [] then []
    else if IsWhitespace(s[0]) then Tokens(s[1..])
    else
      var n := WordLength(s);
      assert n == |s| ==> s[..n] == s;
      [s[..n]] + Tokens(s[n..])
  }

  lemma TokensWord(w: seq<char>, rest: seq<char>)
    requires w != [] && NoWhitespace(w)
    ensures Tokens(w + " " + rest) == [w] + Tokens(rest)
  {
    var s := w + " " + rest;
    WordLengthOf(w, " " + rest);
    assert s == w + (" " + rest);
    assert s[0] == w[0];
    assert s[..|w|] == w;
    assert s[|w|..] == " " + rest;
    assert (" " + rest)[1..] == rest;
    assert Tokens(" " + rest) == Tokens(rest);
  }

  lemma {:induction false} WordLengthOf(w: seq<char>, rest: seq<char>)
    requires NoWhitespace(w) && rest != [] && IsWhitespace(rest[0])
    ensures WordLength(w + rest) == |w|
    decreases |w|
  {
    if w == [] {
      assert w + rest == rest;
    } else {
      var s := w + rest;
      assert s[0] == w[0] && !IsWhitespace(w[0]);
      assert s[1..] == w[1..] + rest;
      WordLengthOf(w[1..], rest);
      assert WordLength(s) == 1 + WordLength(s[1..]);
    }
  }

  /** Joining whitespace-free words with single spaces and splitting again gives the words back. */
  lemma {:induction false} TokensOfJoin(words: seq<seq<char>>)
    requires forall i :: 0 <= i < |words| ==> words[i] != [] && NoWhitespace(words[i])
    ensures Tokens(Join(words, " ")) == words
    decreases |words|
  {
    if |words| > 1 {
      TokensOfJoin(words[1..]);
      TokensWord(words[0], Join(words[1..], " "));
      assert [words[0]] + words[1..] == words;
    }
  }

  // ---------------------------------------------------------------------------
  // execute_command
  // ---------------------------------------------------------------------------

  /** What a command does; the console text of each arm is not modelled. */
  datatype Outcome =
    | Nothing
    | Help
    | Info(pid: U32)
    | Echo(words: seq<seq<char>>)
    | Calculated(a: U32, op: seq<char>, b: U32, result: U32)
    | InvalidOperation
    | InvalidNumbers
    | MissingSecondNumber
    | MissingOperator
    | MissingFirstNumber
    | Slept(ms: U32, status: Result<(), I32>)
    | InvalidSleepDuration
    | MissingSleepDuration
    | MemoryTest(allocation: Result<nat, I32>, release: Option<Result<(), I32>>)
    | Goodbye
    | UnknownCommand(name: seq<char>)

  /**
   * The reply to the system calls a command makes: getpid, sleep_ms, malloc(512)
   * and free, each given as the raw result the kernel returned.
   */
  datatype Kernel = Kernel(pid: I32, sleepResult: I32, mallocResult: I32, freeResult: I32)

  function CalcCommand(args: seq<seq<char>>): Outcome
  {
    if |args| == 0 then MissingFirstNumber
    else if |args| == 1 then MissingOperator
    else if |args| == 2 then MissingSecondNumber
    else
      match (ParseSpec(args[0]), ParseSpec(args[2]))
      case (Ok(a), Ok(b)) =>
        (match Calc(a, args[1], b)
         case Some(r) => Calculated(a, args[1], b, r)
         case None => InvalidOperation)
      case _ => InvalidNumbers
  }

  function SleepCommand(args: seq<seq<char>>, k: Kernel): Outcome
  {
    if |args| == 0 then MissingSleepDuration
    else
      match ParseSpec(args[0])
      case Ok(ms) => Slept(ms, DecodeStatus(k.sleepResult))
      case Err(_) => InvalidSleepDuration
  }

  /**
   * execute_command: dispatches on the first token; the remaining tokens are
   * the arguments.  Extra arguments are ignored.
   */
  function ExecuteCommand(command: seq<char>, k: Kernel): (r: Outcome)
    ensures r == Nothing <==> Tokens(command) == []
    ensures Tokens(command) != [] && Tokens(command)[0] !in {"help", "info", "echo", "calc", "sleep", "mem", "exit"}
            ==> r == UnknownCommand(Tokens(command)[0])
    ensures r.Calculated? ==>
              (|Tokens(command)| >= 4 && Tokens(command)[0] == "calc"
               && Calc(r.a, r.op, r.b) == Some(r.result)
               && ParseSpec(Tokens(command)[1]) == Ok(r.a) && ParseSpec(Tokens(command)[3]) == Ok(r.b))
  {
    var ts := Tokens(command);
    if ts == [] then Nothing
    else
      var args := ts[1..];
      if ts[0] == "help" then Help
      else if ts[0] == "info" then Info(DecodePid(k.pid))
      else if ts[0] == "echo" then Echo(args)
      else if ts[0] == "calc" then CalcCommand(args)
      else if ts[0] == "sleep" then SleepCommand(args, k)
      else if ts[0] == "mem" then
        (match DecodeMalloc(k.mallocResult)
         case Ok(p) => MemoryTest(Ok(p), Some(DecodeStatus(k.freeResult)))
         case Err(e) => MemoryTest(Err(e), None))
      else if ts[0] == "exit" then Goodbye
      else UnknownCommand(ts[0])
  }

  lemma DigitsLiteral(s: seq<char>)
    requires 1 <= |s| <= 3 && AllDigits(s)
    ensures DigitsValue(s) == if |s| == 1 then DigitValue(s[0])
                              else if |s| == 2 then DigitValue(s[0]) * 10 + DigitValue(s[1])
                              else DigitValue(s[0]) * 100 + DigitValue(s[1]) * 10 + DigitValue(s[2])
  {
    if |s| >= 2 {
      assert s[..|s| - 1][..|s| - 2] == s[..|s| - 2];
      if |s| == 3 {
        assert s[..1][..0] == [];
      }
    }
  }

  /** Four words joined with single spaces. */
  lemma JoinFour(words: seq<seq<char>>)
    requires |words| == 4
    ensures Join(words, " ") == words[0] + " " + (words[1] + " " + (words[2] + " " + words[3]))
  {
    var w1, w2, w3 := words[1..], words[2..], words[3..];
    assert w1[1..] == w2 && w2[1..] == w3 && |w3| == 1;
    assert Join(w3, " ") == words[3];
    assert Join(w2, " ") == words[2] + " " + words[3];
    assert Join(w1, " ") == words[1] + " " + (words[2] + " " + words[3]);
  }

  lemma DemoAdditionTokens()
    ensures Tokens("calc 15 + 27") == ["calc", "15", "+", "27"]
  {
    var words: seq<seq<char>> := ["calc", "15", "+", "27"];
    assert NoWhitespace(words[0]) && NoWhitespace(words[1]) && NoWhitespace(words[2]) && NoWhitespace(words[3]);
    TokensOfJoin(words);
    JoinFour(words);
    assert words[0] + " " + (words[1] + " " + (words[2] + " " + words[3])) == "calc 15 + 27";
  }

  lemma DemoDivisionTokens()
    ensures Tokens("calc 100 / 7") == ["calc", "100", "/", "7"]
  {
    var words: seq<seq<char>> := ["calc", "100", "/", "7"];
    assert NoWhitespace(words[0]) && NoWhitespace(words[1]) && NoWhitespace(words[2]) && NoWhitespace(words[3]);
    TokensOfJoin(words);
    JoinFour(words);
    assert words[0] + " " + (words[1] + " " + (words[2] + " " + words[3])) == "calc 100 / 7";
  }

  lemma DemoArguments()
    ensures CalcCommand(["15", "+", "27"]) == Calculated(15, "+", 27, 42)
    ensures CalcCommand(["100", "/", "7"]) == Calculated(100, "/", 7, 14)
  {
    DigitsLiteral("15");
    DigitsLiteral("27");
    DigitsLiteral("100");
    DigitsLiteral("7");
    assert Calc(100, "/", 7) == Some(14);
  }

  /** The demo session's `calc 15 + 27` reports 42. */
  lemma DemoAddition(k: Kernel)
    ensures ExecuteCommand("calc 15 + 27", k) == Calculated(15, "+", 27, 42)
  {
    DemoAdditionTokens();
    DemoArguments();
    var ts: seq<seq<char>> := ["calc", "15", "+", "27"];
    assert ts[1..] == ["15", "+", "27"];
    assert ts[0] != "help" && ts[0] != "info" && ts[0] != "echo";
  }

  /** The demo session's `calc 100 / 7` reports the quotient 14. */
  lemma DemoDivision(k: Kernel)
    ensures ExecuteCommand("calc 100 / 7", k) == Calculated(100, "/", 7, 14)
  {
    DemoDivisionTokens();
    DemoArguments();
    var ts: seq<seq<char>> := ["calc", "100", "/", "7"];
    assert ts[1..] == ["100", "/", "7"];
    assert ts[0] != "help" && ts[0] != "info" && ts[0] != "echo";
  }
}
