/**
 * The userspace runtime library (userspace/runtime/src/lib.rs): decimal formatting
 * into fixed-capacity `heapless` strings, the `{}` template substitution, and the
 * decoding of raw system-call results into `Result` values.
 */
module Runtime {
  import opened Wrappers

  // ---------------------------------------------------------------------------
  // heapless::String<CAP>: capacity is counted in UTF-8 bytes
  // ---------------------------------------------------------------------------

  /** Number of bytes in the UTF-8 encoding of one scalar value. */
  function Utf8Len(c: char): (n: nat)
    ensures 1 <= n <= 4
    ensures n == 1 <==> c as int < 0x80
  {
    if c as int < 0x80 then 1 else if c as int < 0x800 then 2 else if c as int < 0x1_0000 then 3 else 4
  }

  /** Number of UTF-8 bytes a string occupies in a heapless buffer. */
  function Utf8Size(s: seq<char>): (n: nat)
    ensures |s| <= n <= 4 * |s|
  {
    if s == [] then 0 else Utf8Size(s[..|s| - 1]) + Utf8Len(s[|s| - 1])
  }

  predicate IsAscii(s: seq<char>)
  {
    forall i :: 0 <= i < |s| ==> s[i] as int < 0x80
  }

  lemma {:induction false} AsciiSize(s: seq<char>)
    requires IsAscii(s)
    ensures Utf8Size(s) == |s|
  {
    if s != [] {
      AsciiSize(s[..|s| - 1]);
    }
  }

  /**
   * `buf.push(c).ok()` on a heapless String of capacity `cap`: the char is
   * appended only when its encoding still fits; otherwise the error is dropped.
   */
  function Push(buf: seq<char>, cap: nat, c: char): seq<char>
  {
    if Utf8Size(buf) + Utf8Len(c) <= cap then buf + [c] else buf
  }

  /** Pushing each char of `cs` in turn, every failure ignored. */
  function PushAll(buf: seq<char>, cap: nat, cs: seq<char>): seq<char>
    decreases |cs|
  {
    if cs == [] then buf else PushAll(Push(buf, cap, cs[0]), cap, cs[1..])
  }

  lemma {:induction false} PushAllAppend(buf: seq<char>, cap: nat, a: seq<char>, b: seq<char>)
    ensures PushAll(buf, cap, a + b) == PushAll(PushAll(buf, cap, a), cap, b)
    decreases |a|
  {
    if a == [] {
      assert a + b == b;
    } else {
      assert (a + b)[0] == a[0];
      assert (a + b)[1..] == a[1..] + b;
      PushAllAppend(Push(buf, cap, a[0]), cap, a[1..], b);
    }
  }

  /** A buffer never grows past its capacity, and it only ever grows by appending. */
  lemma {:induction false} PushAllBounded(buf: seq<char>, cap: nat, cs: seq<char>)
    requires Utf8Size(buf) <= cap
    ensures Utf8Size(PushAll(buf, cap, cs)) <= cap
    ensures buf <= PushAll(buf, cap, cs)
    decreases |cs|
  {
    if cs != [] {
      var next := Push(buf, cap, cs[0]);
      if Utf8Size(buf) + Utf8Len(cs[0]) <= cap {
        assert (buf + [cs[0]])[..|buf|] == buf;
      }
      PushAllBounded(next, cap, cs[1..]);
    }
  }

  /** When everything fits, nothing is lost. */
  lemma {:induction false} PushAllFits(buf: seq<char>, cap: nat, cs: seq<char>)
    requires Utf8Size(buf) + Utf8Size(cs) <= cap
    ensures PushAll(buf, cap, cs) == buf + cs
    decreases |cs|
  {
    if cs != [] {
      SizeSplit([cs[0]], cs[1..]);
      assert [cs[0]] + cs[1..] == cs;
      SizeSplit(buf, [cs[0]]);
      assert Utf8Size([cs[0]]) == Utf8Len(cs[0]) by {
        assert [cs[0]][..0] == [];
      }
      PushAllFits(buf + [cs[0]], cap, cs[1..]);
      assert buf + [cs[0]] + cs[1..] == buf + cs;
    }
  }

  lemma {:induction false} SizeSplit(a: seq<char>, b: seq<char>)
    ensures Utf8Size(a + b) == Utf8Size(a) + Utf8Size(b)
    decreases |b|
  {
    if b != [] {
      var b' := b[..|b| - 1];
      assert (a + b)[..|a + b| - 1] == a + b';
      SizeSplit(a, b');
    } else {
      assert a + b == a;
    }
  }

  /** With ASCII text a full buffer silently truncates: the output is a prefix of the input. */
  lemma {:induction false} PushAllAsciiTruncates(buf: seq<char>, cap: nat, cs: seq<char>)
    requires IsAscii(buf) && IsAscii(cs) && |buf| <= cap
    ensures PushAll(buf, cap, cs) == buf + cs[..Min(cap - |buf|, |cs|)]
    decreases |cs|
  {
    if cs != [] {
      AsciiSize(buf);
      if |buf| < cap {
        assert IsAscii(buf + [cs[0]]);
        PushAllAsciiTruncates(buf + [cs[0]], cap, cs[1..]);
        assert buf + [cs[0]] + cs[1..][..Min(cap - |buf| - 1, |cs| - 1)]
            == buf + cs[..Min(cap - |buf|, |cs|)];
      } else {
        assert IsAscii(cs[1..]);
        PushAllAsciiTruncates(buf, cap, cs[1..]);
      }
    }
  }

  function Min(a: int, b: int): int { if a <= b then a else b }

  // ---------------------------------------------------------------------------
  // format_u32
  // ---------------------------------------------------------------------------

  function DigitChar(d: nat): (c: char)
    requires d < 10
    ensures '0' <= c <= '9'
  {
    (('0' as int) + d) as char
  }

  predicate IsDigitChar(c: char) { '0' <= c <= '9' }

  /** Value of an ASCII digit. */
  function DigitValue(c: char): (d: nat)
    requires IsDigitChar(c)
    ensures d < 10 && DigitChar(d) == c
  {
    (c as int) - ('0' as int)
  }

  /** The canonical decimal representation of v: digits only, no leading zero. */
  function Decimal(v: nat): (s: seq<char>)
    ensures 1 <= |s|
    ensures forall i :: 0 <= i < |s| ==> IsDigitChar(s[i])
    ensures s[0] == '0' <==> v == 0
    decreases v
  {
    if v < 10 then [DigitChar(v)] else Decimal(v / 10) + [DigitChar(v % 10)]
  }

  /** The number a string of ASCII digits denotes, most significant digit first. */
  function DigitsValue(s: seq<char>): nat
    requires forall i :: 0 <= i < |s| ==> IsDigitChar(s[i])
  {
    if s == [] then 0 else DigitsValue(s[..|s| - 1]) * 10 + DigitValue(s[|s| - 1])
  }

  /** Reading the decimal representation back gives the number. */
  lemma {:induction false} DecimalValue(v: nat)
    ensures DigitsValue(Decimal(v)) == v
    decreases v
  {
    if v >= 10 {
      DecimalValue(v / 10);
      var s := Decimal(v);
      assert s[..|s| - 1] == Decimal(v / 10);
    }
  }

  /** A u32 has at most ten decimal digits. */
  lemma {:induction false} DecimalLength(v: nat, k: nat)
    requires 1 <= k && v < Pow10(k)
    ensures |Decimal(v)| <= k
    decreases k
  {
    if v >= 10 {
      assert v / 10 < Pow10(k - 1);
      DecimalLength(v / 10, k - 1);
    }
  }

  function Pow10(k: nat): (r: nat)
    ensures r >= 1
  {
    if k == 0 then 1 else 10 * Pow10(k - 1)
  }

  lemma U32HasTenDigits(v: U32)
    ensures |Decimal(v)| <= 10
  {
    assert Pow10(10) == 10_000_000_000;
    DecimalLength(v, 10);
  }

  function Reverse(s: seq<char>): (r: seq<char>)
    ensures |r| == |s|
  {
    if s == [] then [] else [s[|s| - 1]] + Reverse(s[..|s| - 1])
  }

  lemma {:induction false} ReverseIndex(s: seq<char>, j: nat)
    requires j < |s|
    ensures Reverse(s)[j] == s[|s| - 1 - j]
  {
    if j > 0 {
      ReverseIndex(s[..|s| - 1], j - 1);
    }
  }

  lemma ReverseSnoc(s: seq<char>, c: char)
    ensures Reverse(s + [c]) == [c] + Reverse(s)
  {
    assert (s + [c])[..|s|] == s;
  }

  /**
   * format_u32: zero is special-cased; otherwise the digits are pushed least
   * significant first into a 32-byte vector and copied back in reverse.  Every
   * push fits, so the result is exactly the decimal representation.
   */
  method FormatU32(value: U32) returns (r: seq<char>)
    ensures r == Decimal(value)
    ensures |r| <= 10 && IsAscii(r)
  {
    if value == 0 {
      r := Push([], 32, '0');
      return;
    }
    U32HasTenDigits(value);
    var val: nat := value;
    var digits: seq<char> := [];
    while val > 0
      invariant val > 0 ==> Decimal(value) == Decimal(val) + Reverse(digits)
      invariant val == 0 ==> Decimal(value) == Reverse(digits)
      invariant val > 0 ==> |digits| + |Decimal(val)| <= 10
      decreases val
    {
      ReverseSnoc(digits, DigitChar(val % 10));
      if |digits| < 32 {
        digits := digits + [DigitChar(val % 10)];
      }
      val := val / 10;
    }
    r := [];
    var i := |digits|;
    while i > 0
      invariant 0 <= i <= |digits|
      invariant r == Reverse(digits)[..|digits| - i]
      invariant IsAscii(r)
    {
      AsciiSize(r);
      ReverseIndex(digits, |digits| - i);
      assert Reverse(digits)[..|digits| - i + 1] == Reverse(digits)[..|digits| - i] + [digits[i - 1]];
      r := Push(r, 32, digits[i - 1]);
      i := i - 1;
    }
  }

  // ---------------------------------------------------------------------------
  // format: `{}` substitution into a 64-byte string
  // ---------------------------------------------------------------------------

  /**
   * The characters `format` pushes, before any truncation: every `{}` becomes
   * the value's digits, a `{` followed by any other char is copied together with
   * that char (which is not examined again), and a trailing `{` is copied.
   */
  function Expand(t: seq<char>, vs: seq<char>): seq<char>
    decreases |t|
  {
    if t == [] then []
    else if t[0] != '{' then [t[0]] + Expand(t[1..], vs)
    else if |t| == 1 then ['{']
    else if t[1] == '}' then vs + Expand(t[2..], vs)
    else [t[0], t[1]] + Expand(t[2..], vs)
  }

  /** Joins the pieces with `sep` between consecutive pieces. */
  function Join(parts: seq<seq<char>>, sep: seq<char>): seq<char>
  {
    if parts == [] then []
    else if |parts| == 1 then parts[0]
    else parts[0] + sep + Join(parts[1..], sep)
  }

  predicate NoOpenBrace(s: seq<char>)
  {
    forall i :: 0 <= i < |s| ==> s[i] != '{'
  }

  /** Text without `{` is copied unchanged. */
  lemma {:induction false} ExpandPlain(t: seq<char>, vs: seq<char>)
    requires NoOpenBrace(t)
    ensures Expand(t, vs) == t
    decreases |t|
  {
    if t != [] {
      ExpandPlain(t[1..], vs);
    }
  }

  lemma {:induction false} ExpandAppend(a: seq<char>, b: seq<char>, vs: seq<char>)
    requires NoOpenBrace(a)
    ensures Expand(a + b, vs) == a + Expand(b, vs)
    decreases |a|
  {
    if a == [] {
      assert a + b == b;
    } else {
      assert (a + b)[0] == a[0];
      assert (a + b)[1..] == a[1..] + b;
      ExpandAppend(a[1..], b, vs);
    }
  }

  /**
   * Every placeholder is replaced, not only the first: a template made of
   * brace-free pieces separated by `{}` expands to the pieces separated by the value.
   */
  lemma {:induction false} ExpandReplacesEveryPlaceholder(parts: seq<seq<char>>, vs: seq<char>)
    requires forall i :: 0 <= i < |parts| ==> NoOpenBrace(parts[i])
    ensures Expand(Join(parts, "{}"), vs) == Join(parts, vs)
    decreases |parts|
  {
    if |parts| == 1 {
      ExpandPlain(parts[0], vs);
    } else if |parts| > 1 {
      var rest := Join(parts[1..], "{}");
      assert parts[0] + "{}" + rest == parts[0] + ("{}" + rest);
      ExpandAppend(parts[0], "{}" + rest, vs);
      assert ("{}" + rest)[2..] == rest;
      ExpandReplacesEveryPlaceholder(parts[1..], vs);
    }
  }

  /** The char after a non-placeholder `{` is not re-examined: `{{}` stays literal. */
  lemma BraceSkipsNextChar(vs: seq<char>)
    ensures Expand("{{}", vs) == "{{}"
    ensures Expand("a{", vs) == "a{"
  {
    assert "{{}"[2..] == "}";
    assert "a{"[1..] == "{";
  }

  /**
   * format: walks the template, pushing into a 64-byte string and dropping
   * whatever does not fit.  The result is the expanded template pushed char by char.
   */
  method Format(template: seq<char>, value: U32) returns (r: seq<char>)
    ensures r == PushAll([], 64, Expand(template, Decimal(value)))
    ensures Utf8Size(r) <= 64
  {
    var valueStr := FormatU32(value);
    r := Substitute(template, valueStr);
  }

  /** The template walk of format, given the value's digits. */
  method Substitute(template: seq<char>, valueStr: seq<char>) returns (r: seq<char>)
    ensures r == PushAll([], 64, Expand(template, valueStr))
    ensures Utf8Size(r) <= 64
  {
    r := [];
    ghost var emitted: seq<char> := [];
    var i := 0;
    while i < |template|
      invariant 0 <= i <= |template|
      invariant Expand(template, valueStr) == emitted + Expand(template[i..], valueStr)
      invariant r == PushAll([], 64, emitted)
      decreases |template| - i
    {
      var piece, next := NextPiece(template, i, valueStr);
      ghost var tail := Expand(template[next..], valueStr);
      assert emitted + (piece + tail) == (emitted + piece) + tail;
      i := next;
      PushAllAppend([], 64, emitted, piece);
      r := PushStr(r, 64, piece);
      emitted := emitted + piece;
    }
    assert template[i..] == [];
    assert Expand([], valueStr) == [];
    assert emitted + [] == emitted;
    PushAllBounded([], 64, emitted);
  }

  /**
   * One step of the template walk from position i: the chars to push and the
   * position after the one or two template chars consumed.
   */
  method NextPiece(template: seq<char>, i: nat, valueStr: seq<char>) returns (piece: seq<char>, next: nat)
    requires i < |template|
    ensures i < next <= |template|
    ensures Expand(template[i..], valueStr) == piece + Expand(template[next..], valueStr)
  {
    var ch := template[i];
    ghost var rest := template[i..];
    next := i + 1;
    if ch == '{' {
      if next < |template| {
        var nextCh := template[next];
        next := next + 1;
        assert rest[2..] == template[next..];
        if nextCh == '}' {
          piece := valueStr;
        } else {
          piece := [ch, nextCh];
        }
      } else {
        assert template[next..] == [];
        piece := [ch];
      }
    } else {
      assert rest[1..] == template[next..];
      piece := [ch];
    }
  }

  /** Pushes each char of `s` into the buffer, ignoring the ones that do not fit. */
  method PushStr(buf: seq<char>, cap: nat, s: seq<char>) returns (r: seq<char>)
    ensures r == PushAll(buf, cap, s)
  {
    r := buf;
    var j := 0;
    while j < |s|
      invariant 0 <= j <= |s|
      invariant r == PushAll(buf, cap, s[..j])
    {
      PushAllAppend(buf, cap, s[..j], [s[j]]);
      assert s[..j + 1] == s[..j] + [s[j]];
      r := Push(r, cap, s[j]);
      j := j + 1;
    }
    assert s[..j] == s;
  }

  /** For ASCII the 64-byte result is the expansion cut to its first 64 chars. */
  lemma FormatAsciiTruncates(template: seq<char>, value: U32)
    requires IsAscii(Expand(template, Decimal(value)))
    ensures PushAll([], 64, Expand(template, Decimal(value)))
         == Expand(template, Decimal(value))[..Min(64, |Expand(template, Decimal(value))|)]
  {
    PushAllAsciiTruncates([], 64, Expand(template, Decimal(value)));
  }

  // ---------------------------------------------------------------------------
  // System-call wrappers: a raw 32-bit result becomes a Result
  // ---------------------------------------------------------------------------

  const I32_MIN: int := -0x8000_0000
  const I32_MAX: int := 0x7FFF_FFFF
  type I32 = x: int | I32_MIN <= x <= I32_MAX

  /** print, sleep_ms, free and send_message: success on a non-negative result. */
  function DecodeStatus(result: I32): (r: Result<(), I32>)
    ensures r.Ok? <==> result >= 0
    ensures r.Err? ==> r.error == result
  {
    if result >= 0 then Ok(()) else Err(result)
  }

  /** malloc: a zero result is an error too, since it is not a usable address. */
  function DecodeMalloc(result: I32): (r: Result<nat, I32>)
    ensures r.Ok? <==> result > 0
    ensures r.Ok? ==> r.value == result
    ensures r.Err? ==> r.error == result
  {
    if result > 0 then Ok(result) else Err(result)
  }

  /** receive_message: the sender is in the upper half of the result, the length in the lower 16 bits. */
  function DecodeReceive(result: I32): (r: Result<(nat, nat), I32>)
    ensures r.Ok? <==> result >= 0
    ensures r.Ok? ==> r.value.1 < 0x1_0000 && r.value.0 * 0x1_0000 + r.value.1 == result
    ensures r.Err? ==> r.error == result
  {
    if result >= 0 then Ok((result / 0x1_0000, result % 0x1_0000)) else Err(result)
  }

  /** A result packed as sender << 16 | length is decoded back into its two fields. */
  lemma ReceiveRoundTrip(sender: nat, length: nat)
    requires sender < 0x8000 && length < 0x1_0000
    ensures sender * 0x1_0000 + length <= I32_MAX
    ensures DecodeReceive(sender * 0x1_0000 + length) == Ok((sender, length))
  {
  }

  /** getpid: the raw result is reinterpreted as an unsigned 32-bit number. */
  function DecodePid(result: I32): (r: U32)
    ensures result >= 0 ==> r == result
    ensures result < 0 ==> r == result + U32_BOUND
  {
    ToU32(result)
  }
}
