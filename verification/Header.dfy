/** The 12-byte message header: the code in decimal in 4 columns, the body length in hexadecimal in 8. */
module Header {
  const CODE_LENGTH := 4
  const LENGTH_LENGTH := 8
  const HEADER_LENGTH := CODE_LENGTH + LENGTH_LENGTH

  /** MESSAGE_TYPE. */
  const MSG_ERROR := -1
  const MSG_UNDEFINED := 0
  const MSG_OKAY := 1
  const MSG_LOGIN := 2
  const MSG_PROBE := 3
  const MSG_PROBE_CONTENT := 4
  const MSG_GET := 5
  const MSG_GET_CONTENT := 6
  const MSG_PUSH := 7
  const MSG_RESTORE := 8
  const MSG_RESTORE_CONTENT := 9
  const MSG_END := 100
  const MSG_RETRY_LATER := 101

  const MESSAGE_TYPES: set<int> := {
    MSG_ERROR, MSG_UNDEFINED, MSG_OKAY, MSG_LOGIN, MSG_PROBE, MSG_PROBE_CONTENT, MSG_GET, MSG_GET_CONTENT, MSG_PUSH,
    MSG_RESTORE, MSG_RESTORE_CONTENT, MSG_END, MSG_RETRY_LATER
  }

  // ---------------------------------------------------------------- digits

  /** The value of a digit, 16 for any other character. */
  function DigitValue(c: char): nat {
    if '0' <= c <= '9' then (c - '0') as nat
    else if 'a' <= c <= 'f' then (c - 'a') as nat + 10
    else if 'A' <= c <= 'F' then (c - 'A') as nat + 10
    else 16
  }

  function DigitChar(d: nat): (c: char)
    requires d < 16
    ensures DigitValue(c) == d
  {
    if d < 10 then '0' + d as char else 'a' + (d - 10) as char
  }

  predicate AllDigits(s: string, base: nat) {
    forall k :: 0 <= k < |s| ==> DigitValue(s[k]) < base
  }

  function Value(s: string, base: nat): nat {
    if s == [] then 0 else Value(s[..|s| - 1], base) * base + DigitValue(s[|s| - 1])
  }

  lemma DivMod(n: nat, base: nat)
    requires 2 <= base
    ensures n == n / base * base + n % base
    ensures n >= base ==> 0 < n / base < n
  {
  }

  /** A number as a stream prints it. */
  function Digits(n: nat, base: nat): (s: string)
    requires 2 <= base <= 16
    ensures s != [] && AllDigits(s, base)
  {
    if n < base then [DigitChar(n)]
    else
      DivMod(n, base);
      Digits(n / base, base) + [DigitChar(n % base)]
  }

  lemma ValueSnoc(s: string, c: char, base: nat)
    ensures Value(s + [c], base) == Value(s, base) * base + DigitValue(c)
  {
    assert (s + [c])[..|s|] == s;
  }

  /** It reads back as the number and has no leading zero. */
  lemma {:induction false} DigitsValue(n: nat, base: nat)
    requires 2 <= base <= 16
    ensures Value(Digits(n, base), base) == n
    ensures n > 0 ==> DigitValue(Digits(n, base)[0]) > 0
    ensures n == 0 ==> |Digits(n, base)| == 1
  {
    DivMod(n, base);
    if n < base {
      ValueSnoc([], DigitChar(n), base);
    } else {
      DigitsValue(n / base, base);
      ValueSnoc(Digits(n / base, base), DigitChar(n % base), base);
    }
  }

  function Power(base: nat, k: nat): nat {
    if k == 0 then 1 else base * Power(base, k - 1)
  }

  /** The first digit and the number of digits bound the value. */
  lemma {:induction false} ValueBounds(s: string, base: nat)
    requires s != [] && AllDigits(s, base)
    ensures DigitValue(s[0]) * Power(base, |s| - 1) <= Value(s, base) < (DigitValue(s[0]) + 1) * Power(base, |s| - 1)
  {
    var init, d, p := s[..|s| - 1], DigitValue(s[0]), Power(base, |s| - 1);
    if |s| == 1 {
      assert init == [];
    } else {
      ValueBounds(init, base);
      var q, v, e := Power(base, |init| - 1), Value(init, base), DigitValue(s[|s| - 1]);
      assert p == base * q && init[0] == s[0];
      Scaled(d, q, v, e, base);
    }
  }

  lemma Scaled(d: nat, q: nat, v: nat, e: nat, base: nat)
    requires d * q <= v < (d + 1) * q && e < base
    ensures d * (base * q) <= v * base + e < (d + 1) * (base * q)
  {
    assert (d * q) * base <= v * base;
    assert (v + 1) * base <= ((d + 1) * q) * base;
    assert (d * q) * base == d * (base * q) && ((d + 1) * q) * base == (d + 1) * (base * q);
  }

  lemma {:induction false} PowerGrows(base: nat, j: nat, k: nat)
    requires base >= 2 && j <= k
    ensures 1 <= Power(base, j) <= Power(base, k)
    decreases k
  {
    if j < k {
      PowerGrows(base, j, k - 1);
      assert base * Power(base, k - 1) >= 2 * Power(base, k - 1);
    } else if k > 0 {
      PowerGrows(base, k - 1, k - 1);
      assert base * Power(base, k - 1) >= 2 * Power(base, k - 1);
    }
  }

  /** The number of digits and the first one, read off the value. */
  lemma LengthDigits(length: nat)
    ensures |Digits(length, 16)| < 8 <==> length < 0x1000_0000
    ensures |Digits(length, 16)| > 8 <==> length >= 0x1_0000_0000
    ensures |Digits(length, 16)| == 8 ==> (DigitValue(Digits(length, 16)[0]) >= 10 <==> length >= 0xa000_0000)
  {
    var s := Digits(length, 16);
    DigitsValue(length, 16);
    ValueBounds(s, 16);
    Power16();
    if |s| < 8 {
      Between(DigitValue(s[0]), Power(16, |s| - 1), length);
      PowerGrows(16, |s| - 1, 6);
    } else if |s| > 8 {
      Between(DigitValue(s[0]), Power(16, |s| - 1), length);
      PowerGrows(16, 8, |s| - 1);
    }
  }

  lemma Between(d: nat, p: nat, n: nat)
    requires d * p <= n < (d + 1) * p && d < 16
    ensures n < 16 * p && (d > 0 ==> p <= n)
  {
    assert (d + 1) * p <= 16 * p;
    if d > 0 { assert d * p >= p; }
  }

  lemma Power16()
    ensures Power(16, 6) == 0x100_0000 && Power(16, 7) == 0x1000_0000 && Power(16, 8) == 0x1_0000_0000
  {
    assert Power(16, 3) == 0x1000;
    assert Power(16, 5) == 0x10_0000;
  }

  /** A proper prefix of a number without leading zero is a smaller number. */
  lemma {:induction false} PrefixIsSmaller(s: string, base: nat, k: nat)
    requires AllDigits(s, base) && base >= 2 && 1 <= k < |s| && DigitValue(s[0]) > 0
    ensures 1 <= Value(s[..k], base) < Value(s, base)
  {
    var init, last := s[..|s| - 1], s[|s| - 1];
    assert s == init + [last];
    ValueSnoc(init, last, base);
    if k < |init| {
      PrefixIsSmaller(init, base, k);
      assert init[..k] == s[..k];
    } else {
      assert init == s[..k];
      PositiveValue(init, base);
    }
    Grows(Value(init, base), base);
  }

  lemma Grows(v: nat, base: nat)
    requires base >= 2
    ensures v * base >= 2 * v
  {
  }

  lemma {:induction false} PositiveValue(s: string, base: nat)
    requires s != [] && DigitValue(s[0]) > 0 && base >= 2
    ensures Value(s, base) > 0
  {
    if |s| > 1 {
      PositiveValue(s[..|s| - 1], base);
      Grows(Value(s[..|s| - 1], base), base);
    } else {
      assert s == [] + [s[0]];
      ValueSnoc([], s[0], base);
    }
  }

  // ---------------------------------------------------------------- printing

  function Spaces(n: nat): string {
    seq(n, _ => ' ')
  }

  /** setw: right-aligned, never cut. */
  function Padded(s: string, width: nat): (r: string)
    ensures |r| == if |s| < width then width else |s|
  {
    if |s| < width then Spaces(width - |s|) + s else s
  }

  function Decimal(n: int): string {
    if n < 0 then ['-'] + Digits(-n, 10) else Digits(n, 10)
  }

  function HeaderText(code: int, length: nat): string {
    Padded(Decimal(code), CODE_LENGTH) + Padded(Digits(length, 16), LENGTH_LENGTH)
  }

  /** The buffer handed to the socket is cut to 12 bytes. */
  function HeaderBytes(code: int, length: nat): (s: string)
    ensures |s| == HEADER_LENGTH
  {
    HeaderText(code, length)[..HEADER_LENGTH]
  }

  // ---------------------------------------------------------------- reading

  predicate IsSpace(c: char) {
    c == ' ' || '\t' <= c <= '\r'
  }

  function SkipSpaces(s: string): string {
    if s != [] && IsSpace(s[0]) then SkipSpaces(s[1..]) else s
  }

  /** How many leading characters are digits. */
  function Run(s: string, base: nat): (k: nat)
    ensures k <= |s| && AllDigits(s[..k], base) && (k < |s| ==> DigitValue(s[k]) >= base)
  {
    if s == [] || DigitValue(s[0]) >= base then 0 else 1 + Run(s[1..], base)
  }

  datatype Reading<T> = Read(value: T, rest: string) | Fail

  predicate FitsInt32(v: int) {
    -0x8000_0000 <= v < 0x8000_0000
  }

  function Signed(negative: bool, v: int): int {
    if negative then -v else v
  }

  /** As many decimal digits as there are; an int or failure. */
  function ReadNumber(u: string, negative: bool): Reading<int> {
    var k := Run(u, 10);
    if k == 0 then Fail
    else
      var v := Signed(negative, Value(u[..k], 10));
      if FitsInt32(v) then Read(v, u[k..]) else Fail
  }

  predicate IsSign(c: char) {
    c == '-' || c == '+'
  }

  /** is >> msg_code: blanks, a sign, a number. */
  function ReadDecimal(s: string): Reading<int> {
    var t := SkipSpaces(s);
    if t != [] && IsSign(t[0]) then ReadNumber(t[1..], t[0] == '-') else ReadNumber(t, false)
  }

  function AfterPrefix(u: string): string {
    if |u| >= 2 && u[0] == '0' && (u[1] == 'x' || u[1] == 'X') then u[2..] else u
  }

  /** A negated size is taken modulo 2^64. */
  function Sized(negative: bool, n: nat): nat {
    var m: int := n;
    if negative then -m % 0x1_0000_0000_0000_0000 else n
  }

  /** As many hexadecimal digits as there are, after a prefix 0x if there is one.  The twelve bytes of a header
      hold no number that is too large. */
  function ReadSize(u: string, negative: bool): Reading<nat> {
    var v := AfterPrefix(u);
    var k := Run(v, 16);
    if k == 0 then Fail else Read(Sized(negative, Value(v[..k], 16)), v[k..])
  }

  /** is >> std::hex >> content_length: blanks, a sign, a number. */
  function ReadHex(s: string): Reading<nat> {
    var t := SkipSpaces(s);
    if t != [] && IsSign(t[0]) then ReadSize(t[1..], t[0] == '-') else ReadSize(t, false)
  }

  datatype Parsed = Parsed(code: int, length: nat) | NoCode | NoLength

  function Parse(header: string): Parsed {
    match ReadDecimal(header)
    case Fail => NoCode
    case Read(code, rest) =>
      match ReadHex(rest)
      case Fail => NoLength
      case Read(length, _) => Parsed(code, length)
  }

  // ---------------------------------------------------------------- round trip

  lemma {:induction false} SkipPadding(n: nat, s: string)
    requires s != [] && !IsSpace(s[0])
    ensures SkipSpaces(Spaces(n) + s) == s
  {
    var t := Spaces(n) + s;
    if n == 0 {
      assert t == s;
    } else {
      assert t[1..] == Spaces(n - 1) + s;
      SkipPadding(n - 1, s);
    }
  }

  lemma {:induction false} RunExact(s: string, rest: string, base: nat)
    requires AllDigits(s, base) && (rest == [] || DigitValue(rest[0]) >= base)
    ensures Run(s + rest, base) == |s|
  {
    if s == [] {
      assert s + rest == rest;
    } else {
      assert (s + rest)[1..] == s[1..] + rest;
      RunExact(s[1..], rest, base);
    }
  }

  /** Blanks and signs are no digits. */
  lemma StartsPlain(c: char)
    requires DigitValue(c) < 10
    ensures !IsSpace(c) && c != '-' && c != '+'
  {
  }

  function Magnitude(code: int): nat {
    if code < 0 then -code else code
  }

  lemma PrintedNegative(digits: string, pad: nat, rest: string)
    ensures ReadDecimal(Spaces(pad) + (['-'] + digits) + rest) == ReadNumber(digits + rest, true)
  {
    var t := ['-'] + digits + rest;
    assert Spaces(pad) + (['-'] + digits) + rest == Spaces(pad) + t;
    SkipPadding(pad, t);
    assert t[1..] == digits + rest;
  }

  lemma PrintedPositive(digits: string, pad: nat, rest: string)
    requires digits != [] && DigitValue(digits[0]) < 10
    ensures ReadDecimal(Spaces(pad) + digits + rest) == ReadNumber(digits + rest, false)
  {
    var t := digits + rest;
    assert Spaces(pad) + digits + rest == Spaces(pad) + t;
    assert t[0] == digits[0];
    StartsPlain(digits[0]);
    SkipPadding(pad, t);
  }

  /** Reading a printed code is reading its digits and what follows them. */
  lemma PrintedCode(code: int, pad: nat, rest: string)
    ensures ReadDecimal(Spaces(pad) + Decimal(code) + rest) == ReadNumber(Digits(Magnitude(code), 10) + rest, code < 0)
  {
    var digits := Digits(Magnitude(code), 10);
    if code < 0 { PrintedNegative(digits, pad, rest); } else { PrintedPositive(digits, pad, rest); }
  }

  lemma NumberEnds(digits: string, rest: string, negative: bool)
    requires digits != [] && AllDigits(digits, 10) && (rest == [] || DigitValue(rest[0]) >= 10)
    ensures var v := Signed(negative, Value(digits, 10));
            ReadNumber(digits + rest, negative) == if FitsInt32(v) then Read(v, rest) else Fail
  {
    var u := digits + rest;
    RunExact(digits, rest, 10);
    assert u[..Run(u, 10)] == digits;
    assert u[Run(u, 10)..] == rest;
  }

  /** Reading a printed code: it ends where its digits end, so what follows must not be a decimal digit; a number
      that is no int fails. */
  lemma ReadCode(code: int, pad: nat, rest: string)
    requires rest == [] || DigitValue(rest[0]) >= 10
    ensures ReadDecimal(Spaces(pad) + Decimal(code) + rest)
            == if -0x8000_0000 <= code <= 0x7fff_ffff then Read(code, rest) else Fail
  {
    PrintedCode(code, pad, rest);
    NumberEnds(Digits(Magnitude(code), 10), rest, code < 0);
    DigitsValue(Magnitude(code), 10);
  }

  /** When decimal digits follow at once, the code read is another one or none. */
  lemma ReadJoined(code: int, pad: nat, rest: string)
    requires rest != [] && 0 < DigitValue(rest[0]) < 10
    ensures ReadDecimal(Spaces(pad) + Decimal(code) + rest).Read? ==>
              ReadDecimal(Spaces(pad) + Decimal(code) + rest).value != code
  {
    PrintedCode(code, pad, rest);
    var digits := Digits(Magnitude(code), 10);
    RunAtLeast(digits, rest, 10);
    DigitsValue(Magnitude(code), 10);
    JoinedValue(digits, rest, Run(digits + rest, 10));
  }

  lemma {:induction false} RunAtLeast(s: string, rest: string, base: nat)
    requires AllDigits(s, base) && rest != [] && DigitValue(rest[0]) < base
    ensures Run(s + rest, base) > |s|
  {
    if s == [] {
      assert s + rest == rest;
    } else {
      assert (s + rest)[1..] == s[1..] + rest;
      RunAtLeast(s[1..], rest, base);
    }
  }

  lemma JoinedValue(digits: string, rest: string, k: nat)
    requires |digits| < k <= |digits + rest| && digits != [] && AllDigits((digits + rest)[..k], 10)
    requires DigitValue(rest[0]) > 0 && (digits == [digits[0]] || DigitValue(digits[0]) > 0)
    ensures Value((digits + rest)[..k], 10) != Value(digits, 10)
  {
    var s := (digits + rest)[..k];
    assert s[..|digits|] == digits && s[|digits|] == rest[0];
    if DigitValue(digits[0]) > 0 {
      PrefixIsSmaller(s, 10, |digits|);
    } else {
      assert digits[..0] == [];
      ZeroPrefix(s, 1);
    }
  }

  lemma {:induction false} ZeroPrefix(s: string, k: nat)
    requires k < |s| && DigitValue(s[k]) > 0
    ensures Value(s, 10) > 0
  {
    if k == |s| - 1 {
    } else {
      ZeroPrefix(s[..|s| - 1], k);
    }
  }

  // ---------------------------------------------------------------- headers of other peers

  /** What a stream skips: blanks, tabs, line and page ends. */
  predicate AllBlank(s: string) {
    forall k :: 0 <= k < |s| ==> s[k] in {' ', '\t', '\n', '\U{000b}', '\U{000c}', '\r'}
  }

  lemma {:induction false} SkipBlanks(blanks: string, s: string)
    requires AllBlank(blanks) && (s != [] ==> !IsSpace(s[0]))
    ensures SkipSpaces(blanks + s) == s
  {
    if blanks == [] {
      assert blanks + s == s;
    } else {
      assert (blanks + s)[1..] == blanks[1..] + s && (blanks + s)[0] == blanks[0];
      SkipBlanks(blanks[1..], s);
    }
  }

  /** Blanks are skipped and one sign is taken. */
  lemma SignTaken(blanks: string, sign: string, u: string)
    requires AllBlank(blanks) && sign in {"", "+", "-"}
    requires sign == "" && u != [] ==> !IsSpace(u[0]) && !IsSign(u[0])
    ensures ReadDecimal(blanks + (sign + u)) == ReadNumber(u, sign == "-")
    ensures ReadHex(blanks + (sign + u)) == ReadSize(u, sign == "-")
  {
    var t := sign + u;
    if t != [] { assert t[0] == if sign == "" then u[0] else sign[0]; }
    SkipBlanks(blanks, t);
    assert sign != "" ==> t[1..] == u;
    assert sign == "" ==> t == u;
  }

  /** The same hexadecimal digits, in small letters or in capitals. */
  predicate SameDigits(s: string, t: string) {
    && |s| == |t|
    && forall k :: 0 <= k < |s| ==> s[k] == t[k] || ('a' <= t[k] <= 'f' && s[k] as int - 'A' as int == t[k] as int - 'a' as int)
  }

  lemma {:induction false} SameValue(s: string, t: string)
    requires SameDigits(s, t) && AllDigits(t, 16)
    ensures AllDigits(s, 16) && Value(s, 16) == Value(t, 16)
  {
    if s == [] {
    } else {
      var last := |s| - 1;
      SameValue(s[..last], t[..last]);
      assert DigitValue(s[last]) == DigitValue(t[last]);
      assert forall k :: 0 <= k < last ==> s[..last][k] == s[k];
    }
  }

  /** Any code in any width, with a sign or without, is read if and only if it is an int. */
  lemma ReadAnyCode(blanks: string, sign: string, n: nat, rest: string)
    requires AllBlank(blanks) && sign in {"", "+", "-"} && (rest == [] || DigitValue(rest[0]) >= 10)
    ensures var m: int := n;
            var v := if sign == "-" then -m else m;
            ReadDecimal(blanks + (sign + (Digits(n, 10) + rest)))
            == if -0x8000_0000 <= v <= 0x7fff_ffff then Read(v, rest) else Fail
  {
    NumberRead(n, rest, sign == "-");
    SignTaken(blanks, sign, Digits(n, 10) + rest);
  }

  lemma NumberRead(n: nat, rest: string, negative: bool)
    requires rest == [] || DigitValue(rest[0]) >= 10
    ensures var u, v := Digits(n, 10) + rest, Signed(negative, n);
            && ReadNumber(u, negative) == (if FitsInt32(v) then Read(v, rest) else Fail)
            && u != [] && !IsSpace(u[0]) && !IsSign(u[0])
  {
    var digits := Digits(n, 10);
    DigitsValue(n, 10);
    NumberEnds(digits, rest, negative);
    assert (digits + rest)[0] == digits[0];
    StartsPlain(digits[0]);
  }

  /** Where no digit follows there is no code. */
  lemma ReadNoCode(blanks: string, sign: string, rest: string)
    requires AllBlank(blanks) && sign in {"", "+", "-"}
    requires rest != [] ==> DigitValue(rest[0]) >= 10 && (sign == "" ==> !IsSpace(rest[0]) && !IsSign(rest[0]))
    ensures ReadDecimal(blanks + (sign + rest)) == Fail
  {
    SignTaken(blanks, sign, rest);
  }

  lemma NoPrefix(digits: string, rest: string)
    requires AllDigits(digits, 16) && (rest != [] ==> DigitValue(rest[0]) >= 16 && rest[0] != 'x' && rest[0] != 'X')
    ensures AfterPrefix(digits + rest) == digits + rest
  {
    var u := digits + rest;
    if digits == [] {
      if rest != [] { assert u[0] == rest[0] && DigitValue('0') == 0; }
    } else if |digits| == 1 {
      if rest != [] { assert u[1] == rest[0]; }
    } else {
      assert u[1] == digits[1];
      HexStartsPlain(digits[1]);
    }
  }

  lemma PrefixGone(prefix: string, v: string)
    requires prefix in {"0x", "0X"}
    ensures AfterPrefix(prefix + v) == v
  {
    var u := prefix + v;
    assert u[0] == prefix[0] && u[1] == prefix[1] && u[2..] == v;
  }

  lemma SizeRead(digits: string, rest: string, u: string, negative: bool)
    requires AllDigits(digits, 16) && (rest != [] ==> DigitValue(rest[0]) >= 16) && AfterPrefix(u) == digits + rest
    ensures ReadSize(u, negative) == if digits == [] then Fail else Read(Sized(negative, Value(digits, 16)), rest)
  {
    RunExact(digits, rest, 16);
    assert (digits + rest)[..|digits|] == digits && (digits + rest)[|digits|..] == rest;
  }

  lemma PrefixTaken(prefix: string, digits: string, rest: string)
    requires prefix in {"", "0x", "0X"} && AllDigits(digits, 16)
    requires rest != [] ==> DigitValue(rest[0]) >= 16 && rest[0] != 'x' && rest[0] != 'X'
    ensures AfterPrefix(prefix + (digits + rest)) == digits + rest
  {
    if prefix == "" {
      assert prefix + (digits + rest) == digits + rest;
      NoPrefix(digits, rest);
    } else {
      PrefixGone(prefix, digits + rest);
    }
  }

  lemma StartsLikeSize(prefix: string, digits: string, rest: string)
    requires prefix in {"", "0x", "0X"} && AllDigits(digits, 16) && (prefix != "" || digits != [])
    ensures var u := prefix + (digits + rest);
            u != [] && !IsSpace(u[0]) && !IsSign(u[0])
  {
    var u := prefix + (digits + rest);
    if prefix == "" { assert u[0] == digits[0]; HexStartsPlain(digits[0]); } else { assert u[0] == prefix[0] == '0'; }
  }

  /** Any length in any width, with sign and prefix or without, in small letters or capitals, is read; a minus sign takes it modulo 2^64. */
  lemma ReadAnyLength(blanks: string, sign: string, prefix: string, digits: string, n: nat, rest: string)
    requires AllBlank(blanks) && SameDigits(digits, Digits(n, 16)) && sign in {"", "+", "-"} && prefix in {"", "0x", "0X"}
    requires rest != [] ==> DigitValue(rest[0]) >= 16 && rest[0] != 'x' && rest[0] != 'X'
    ensures ReadHex(blanks + (sign + (prefix + (digits + rest))))
            == Read(if sign != "-" || n == 0 then n else 0x1_0000_0000_0000_0000 - 1 - (n - 1) % 0x1_0000_0000_0000_0000, rest)
  {
    var u := prefix + (digits + rest);
    DigitsValue(n, 16);
    SameValue(digits, Digits(n, 16));
    PrefixTaken(prefix, digits, rest);
    SizeRead(digits, rest, u, sign == "-");
    StartsLikeSize(prefix, digits, rest);
    SignTaken(blanks, sign, u);
    NegatedSize(n);
  }

  lemma NegatedSize(n: nat)
    ensures Sized(true, n) == if n == 0 then 0 else 0x1_0000_0000_0000_0000 - 1 - (n - 1) % 0x1_0000_0000_0000_0000
  {
  }

  /** Where no hexadecimal digit follows there is no length. */
  lemma ReadNoLength(blanks: string, sign: string, prefix: string, rest: string)
    requires AllBlank(blanks) && sign in {"", "+", "-"} && prefix in {"", "0x", "0X"}
    requires rest != [] ==> DigitValue(rest[0]) >= 16 && rest[0] != 'x' && rest[0] != 'X'
    requires rest != [] && sign == "" && prefix == "" ==> !IsSpace(rest[0]) && !IsSign(rest[0])
    ensures ReadHex(blanks + (sign + (prefix + rest))) == Fail
  {
    assert [] + rest == rest;
    PrefixTaken(prefix, [], rest);
    SizeRead([], rest, prefix + rest, sign == "-");
    if prefix != "" { StartsLikeSize(prefix, [], rest); } else { assert prefix + rest == rest; }
    SignTaken(blanks, sign, prefix + rest);
  }

  /** What eight columns show of a number: aligned if it is short, cut if it is long. */
  function Field(hex: string): (s: string)
    ensures |s| == LENGTH_LENGTH
  {
    if |hex| < LENGTH_LENGTH then Spaces(LENGTH_LENGTH - |hex|) + hex else hex[..LENGTH_LENGTH]
  }

  function LengthField(length: nat): (s: string)
    ensures |s| == LENGTH_LENGTH
  {
    Field(Digits(length, 16))
  }

  predicate IsNarrow(code: int) {
    FitsInt32(code) && |Decimal(code)| <= CODE_LENGTH
  }

  lemma HeaderSplit(code: int, length: nat)
    requires IsNarrow(code)
    ensures HeaderBytes(code, length) == Spaces(CODE_LENGTH - |Decimal(code)|) + Decimal(code) + LengthField(length)
  {
    assert |Padded(Decimal(code), CODE_LENGTH)| == CODE_LENGTH;
    assert Spaces(0) + Decimal(code) == Decimal(code);
  }

  /** Digits are no blank, no sign and no prefix. */
  lemma HexStartsPlain(c: char)
    requires DigitValue(c) < 16
    ensures !IsSpace(c) && !IsSign(c) && c != 'x' && c != 'X'
  {
  }

  lemma SizeEnds(hex: string)
    requires hex != [] && AllDigits(hex, 16)
    ensures ReadSize(hex, false) == Read(Value(hex, 16), [])
  {
    assert hex + [] == hex;
    NoPrefix(hex, []);
    SizeRead(hex, [], hex, false);
  }

  lemma ReadAligned(pad: nat, hex: string)
    requires hex != [] && AllDigits(hex, 16)
    ensures ReadHex(Spaces(pad) + hex) == Read(Value(hex, 16), [])
  {
    HexStartsPlain(hex[0]);
    SkipPadding(pad, hex);
    SizeEnds(hex);
  }

  /** A length that fits: shorter than its field, or filling it with a letter first. */
  predicate Carries(length: nat) {
    length < 0x1000_0000 || 0xa000_0000 <= length < 0x1_0000_0000
  }

  predicate ReadsAs(field: string, length: nat) {
    ReadHex(field).Read? && ReadHex(field).value == length
  }

  lemma CutIsSmaller(hex: string)
    requires |hex| >= LENGTH_LENGTH && AllDigits(hex, 16) && DigitValue(hex[0]) > 0
    ensures Value(hex[..LENGTH_LENGTH], 16) == Value(hex, 16) <==> |hex| == LENGTH_LENGTH
  {
    if |hex| > LENGTH_LENGTH { PrefixIsSmaller(hex, 16, LENGTH_LENGTH); } else { assert hex[..LENGTH_LENGTH] == hex; }
  }

  lemma ShortField(hex: string)
    requires 0 < |hex| < LENGTH_LENGTH && AllDigits(hex, 16)
    ensures ReadsAs(Field(hex), Value(hex, 16)) && Field(hex)[0] == ' '
  {
    ReadAligned(LENGTH_LENGTH - |hex|, hex);
  }

  lemma FullField(hex: string)
    requires |hex| >= LENGTH_LENGTH && AllDigits(hex, 16) && DigitValue(hex[0]) > 0
    ensures ReadsAs(Field(hex), Value(hex, 16)) <==> |hex| == LENGTH_LENGTH
  {
    assert Spaces(0) + Field(hex) == Field(hex);
    ReadAligned(0, Field(hex));
    CutIsSmaller(hex);
  }

  /** The length survives behind a code exactly when its field reads back and cannot be taken for more code. */
  lemma FieldCarries(length: nat)
    ensures DigitValue(LengthField(length)[0]) >= 10 && ReadsAs(LengthField(length), length) <==> Carries(length)
    ensures 0x1000_0000 <= length < 0xa000_0000 ==> DigitValue(LengthField(length)[0]) < 10
    ensures DigitValue(LengthField(length)[0]) > 0
  {
    LengthDigits(length);
    DigitsValue(length, 16);
    var hex := Digits(length, 16);
    if |hex| < LENGTH_LENGTH { ShortField(hex); } else { FullField(hex); }
  }

  lemma ParseSplit(header: string, code: int, pad: nat, field: string, length: nat)
    requires header == Spaces(pad) + Decimal(code) + field
    requires FitsInt32(code) && field != [] && DigitValue(field[0]) > 0
    ensures DigitValue(field[0]) < 10 && Parse(header).Parsed? ==> Parse(header).code != code
    ensures Parse(header) == Parsed(code, length) <==> DigitValue(field[0]) >= 10 && ReadsAs(field, length)
  {
    if DigitValue(field[0]) < 10 {
      ReadJoined(code, pad, field);
    } else {
      ReadCode(code, pad, field);
    }
  }

  /** The header of a code that fits its four columns reads back exactly when the length is below 16^7, or
      fills its field and starts with a letter.  A field filled by a decimal digit joins the code. */
  lemma NarrowRoundTrip(code: int, length: nat)
    requires IsNarrow(code)
    ensures Parse(HeaderBytes(code, length)) == Parsed(code, length) <==> Carries(length)
    ensures 0x1000_0000 <= length < 0xa000_0000 && Parse(HeaderBytes(code, length)).Parsed? ==>
              Parse(HeaderBytes(code, length)).code != code
  {
    HeaderSplit(code, length);
    FieldCarries(length);
    ParseSplit(HeaderBytes(code, length), code, CODE_LENGTH - |Decimal(code)|, LengthField(length), length);
  }

  lemma CodesAreNarrow(code: int)
    requires code in MESSAGE_TYPES
    ensures IsNarrow(code)
  {
    assert Digits(1, 10) == ['1'];
    assert Digits(10, 10) == ['1', '0'];
  }

  lemma HeaderRoundTrip(code: int, length: nat)
    requires code in MESSAGE_TYPES
    ensures Parse(HeaderBytes(code, length)) == Parsed(code, length) <==> Carries(length)
    ensures 0x1000_0000 <= length < 0xa000_0000 && Parse(HeaderBytes(code, length)).Parsed? ==>
              Parse(HeaderBytes(code, length)).code != code
  {
    CodesAreNarrow(code);
    NarrowRoundTrip(code, length);
  }

  class Message {
    var code: int
    const headerBuffer: array<char>
    var contentBuffer: array<char>
    var headerData: string
    var contentData: string

    constructor (code: int := MSG_ERROR)
      ensures this.code == code && fresh(headerBuffer) && headerBuffer.Length == HEADER_LENGTH
      ensures fresh(contentBuffer) && contentBuffer.Length == 0
    {
      this.code := code;
      headerBuffer := new char[HEADER_LENGTH](_ => '\0');
      contentBuffer := new char[0];
      headerData, contentData := "", "";
    }

    /** send: header and archive, to be written one after the other. */
    method Send(archive: string) returns (buffers: seq<string>)
      modifies `headerData, `contentData
      ensures buffers == [HeaderBytes(code, |archive|), archive]
      ensures contentData == archive
    {
      contentData := archive;
      headerData := Padded(Decimal(code), CODE_LENGTH);
      headerData := headerData + Padded(Digits(|contentData|, 16), LENGTH_LENGTH);
      buffers := [headerData[..HEADER_LENGTH], contentData];
    }

    /** build_header: the code and the room for the content, or one of three exceptions: a number that cannot
        be read, or no room, when the code has been taken already. */
    method BuildHeader(allocates: nat -> bool) returns (ok: bool)
      requires headerBuffer.Length == HEADER_LENGTH
      modifies `code, `contentBuffer
      ensures var parsed := Parse(headerBuffer[..]);
              && ok == (parsed.Parsed? && allocates(parsed.length))
              && code == (if parsed.Parsed? then parsed.code else old(code))
              && (ok ==> fresh(contentBuffer) && contentBuffer.Length == parsed.length)
              && (!ok ==> contentBuffer == old(contentBuffer))
    {
      var msgCode := ReadDecimal(headerBuffer[..]);
      if msgCode.Fail? { return false; }
      var length := ReadHex(msgCode.rest);
      if length.Fail? { return false; }
      code := msgCode.value;
      if !allocates(length.value) { return false; }
      contentBuffer := new char[length.value](_ => '\0');
      ok := true;
    }
  }
}
