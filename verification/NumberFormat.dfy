/**
 * The integer formatter of the bare-metal printf and its decimal reader: exact layout, length and
 * value of the output, and the reader recovering what the formatter wrote.
 */
module NumberFormat {
  import opened Binary
  import opened Options

  /** long and unsigned long are 32 bits wide. */
  const LONG_RANGE := 0x1_0000_0000

  type Long = n: int | -0x8000_0000 <= n < 0x8000_0000

  datatype Flags = Flags(zeropad: bool, sign: bool, plus: bool, space: bool, left: bool, hexPrep: bool, uppercase: bool)

  // ---------------------------------------------------------------------------------------------
  // Digits

  /** Entry d of the digit alphabet 0-9a-z or 0-9A-Z. */
  function DigitChar(d: nat, upper: bool): char
    requires d < 36
  {
    if d < 10 then ('0' as int + d) as char
    else if upper then ('A' as int + d - 10) as char else ('a' as int + d - 10) as char
  }

  lemma Division(u: nat, base: nat)
    requires 2 <= base
    ensures u == u / base * base + u % base && u % base < base
    ensures 2 * (u / base) <= u && (base <= u ==> 1 <= u / base < u)
  {
    var q, m := u / base, u % base;
    assert u == q * base + m;
    if q >= 1 {
      assert q * base >= q * 2;
    }
  }

  /** u in the given base, most significant digit first, without leading zeros. */
  function Digits(u: nat, base: nat, upper: bool): (s: string)
    requires 2 <= base <= 36
    ensures |s| >= 1
    decreases u
  {
    Division(u, base);
    if u < base then [DigitChar(u, upper)] else Digits(u / base, base, upper) + [DigitChar(u % base, upper)]
  }

  /** The value of one digit character, 36 for anything else. */
  function DigitValue(c: char): nat {
    if '0' <= c <= '9' then c as int - '0' as int
    else if 'a' <= c <= 'z' then c as int - 'a' as int + 10
    else if 'A' <= c <= 'Z' then c as int - 'A' as int + 10
    else 36
  }

  function Evaluate(s: string, base: nat): nat {
    if s == "" then 0 else Evaluate(s[..|s| - 1], base) * base + DigitValue(s[|s| - 1])
  }

  lemma DigitCharValue(d: nat, upper: bool)
    requires d < 36
    ensures DigitValue(DigitChar(d, upper)) == d
  {
  }

  lemma EvaluateLast(front: string, c: char, base: nat)
    ensures Evaluate(front + [c], base) == Evaluate(front, base) * base + DigitValue(c)
  {
    assert (front + [c])[..|front|] == front;
  }

  /** Positional evaluation gives the number back. */
  lemma {:induction false} DigitsEvaluate(u: nat, base: nat, upper: bool)
    requires 2 <= base <= 36
    ensures Evaluate(Digits(u, base, upper), base) == u
    decreases u
  {
    hide DigitChar, DigitValue, Evaluate;
    Division(u, base);
    if u < base {
      DigitCharValue(u, upper);
      EvaluateLast("", DigitChar(u, upper), base);
      assert "" + [DigitChar(u, upper)] == [DigitChar(u, upper)];
      EvaluateNothing(base);
    } else {
      DigitsEvaluate(u / base, base, upper);
      DigitCharValue(u % base, upper);
      EvaluateLast(Digits(u / base, base, upper), DigitChar(u % base, upper), base);
    }
  }

  lemma EvaluateNothing(base: nat)
    ensures Evaluate("", base) == 0 && Evaluate("", base) * base == 0
  {
  }

  /** No leading zero unless the number is 0. */
  lemma {:induction false} NoLeadingZero(u: nat, base: nat, upper: bool)
    requires 2 <= base <= 36
    ensures Digits(u, base, upper)[0] == '0' ==> u == 0
    decreases u
  {
    Division(u, base);
    if u >= base {
      NoLeadingZero(u / base, base, upper);
    }
  }

  // ---------------------------------------------------------------------------------------------
  // Layout

  function Repeat(c: char, n: int): string {
    if n <= 0 then "" else [c] + Repeat(c, n - 1)
  }

  lemma {:induction false} RepeatLength(c: char, n: int)
    ensures |Repeat(c, n)| == if n <= 0 then 0 else n
  {
    if n > 0 {
      RepeatLength(c, n - 1);
    }
  }

  lemma {:induction false} RepeatMore(c: char, n: int)
    requires n >= 0
    ensures Repeat(c, n + 1) == Repeat(c, n) + [c]
  {
    if n > 0 {
      RepeatMore(c, n - 1);
    }
  }

  function Abs(a: int): int {
    if a < 0 then -a else a
  }

  function Max(a: int, b: int): int {
    if a < b then b else a
  }

  function SignOf(num: Long, f: Flags): string {
    if !f.sign then "" else if num < 0 then "-" else if f.plus then "+" else if f.space then " " else ""
  }

  function PrefixOf(base: nat, f: Flags): string {
    if !f.hexPrep then "" else if base == 16 then "0x" else if base == 8 then "0" else ""
  }

  /** The number whose digits are printed: the absolute value when signed, the bit pattern otherwise. */
  function Magnitude(num: Long, f: Flags): (u: nat)
    ensures u < LONG_RANGE
  {
    var n: int := num;
    if n >= 0 then n else if f.sign then -n else n + LONG_RANGE
  }

  function Body(num: Long, base: nat, precision: int, f: Flags): string
    requires 2 <= base <= 36
  {
    var digits := Digits(Magnitude(num, f), base, f.uppercase);
    Repeat('0', precision - |digits|) + digits
  }

  function Padding(num: Long, base: nat, size: int, precision: int, f: Flags): int
    requires 2 <= base <= 36
  {
    Max(0, size - |SignOf(num, f)| - |PrefixOf(base, f)| - |Body(num, base, precision, f)|)
  }

  /** Padding goes left, between prefix and digits, or right. */
  function Formatted(num: Long, base: nat, size: int, precision: int, f: Flags): string
    requires 2 <= base <= 36
  {
    var pad := Padding(num, base, size, precision, f);
    var head, body := SignOf(num, f) + PrefixOf(base, f), Body(num, base, precision, f);
    if f.left then head + body + Repeat(' ', pad)
    else if f.zeropad then head + Repeat('0', pad) + body
    else Repeat(' ', pad) + head + body
  }

  /** Exactly max(width, sign + prefix + max(precision, digits)) characters. */
  lemma FormattedLength(num: Long, base: nat, size: int, precision: int, f: Flags)
    requires 2 <= base <= 36
    ensures |Formatted(num, base, size, precision, f)| ==
            Max(size, |SignOf(num, f)| + |PrefixOf(base, f)|
                      + Max(precision, |Digits(Magnitude(num, f), base, f.uppercase)|))
  {
    hide Digits, SignOf, PrefixOf, Magnitude;
    var digits := Digits(Magnitude(num, f), base, f.uppercase);
    var pad := Padding(num, base, size, precision, f);
    RepeatLength('0', precision - |digits|);
    RepeatLength('0', pad);
    RepeatLength(' ', pad);
  }

  lemma {:induction false} ZerosEvaluate(n: int, s: string, base: nat)
    ensures Evaluate(Repeat('0', n) + s, base) == Evaluate(s, base)
    decreases |s|
  {
    var t := Repeat('0', n) + s;
    if s == "" {
      assert t == Repeat('0', n);
      OnlyZeros(n, base);
    } else {
      assert t[..|t| - 1] == Repeat('0', n) + s[..|s| - 1];
      ZerosEvaluate(n, s[..|s| - 1], base);
    }
  }

  lemma {:induction false} OnlyZeros(n: int, base: nat)
    ensures Evaluate(Repeat('0', n), base) == 0
  {
    if n > 0 {
      RepeatMore('0', n - 1);
      var t := Repeat('0', n);
      assert t[..|t| - 1] == Repeat('0', n - 1);
      OnlyZeros(n - 1, base);
    }
  }

  /** The digits with their leading zeros denote the absolute value, or the number modulo 2^32 when unsigned. */
  lemma BodyValue(num: Long, base: nat, precision: int, f: Flags)
    requires 2 <= base <= 36
    ensures Evaluate(Body(num, base, precision, f), base) == Magnitude(num, f)
    ensures f.sign ==> Magnitude(num, f) as int == Abs(num)
    ensures !f.sign ==> Magnitude(num, f) as int == num as int + (if num < 0 then 0x1_0000_0000 else 0)
  {
    hide Digits;
    var digits := Digits(Magnitude(num, f), base, f.uppercase);
    ZerosEvaluate(precision - |digits|, digits, base);
    DigitsEvaluate(Magnitude(num, f), base, f.uppercase);
  }

  /** The digit alphabets, entry by entry. */
  lemma Alphabet(d: nat)
    requires d < 36
    ensures DigitChar(d, false) == "0123456789abcdefghijklmnopqrstuvwxyz"[d]
    ensures DigitChar(d, true) == "0123456789ABCDEFGHIJKLMNOPQRSTUVWXYZ"[d]
  {
  }

  /** No lower-case letter among upper-case digits, and the other way round. */
  lemma {:induction false} DigitCase(u: nat, base: nat, upper: bool)
    requires 2 <= base <= 36
    ensures forall k :: 0 <= k < |Digits(u, base, upper)| ==>
              var c := Digits(u, base, upper)[k];
              IsDigit(c) || if upper then 'A' <= c <= 'Z' else 'a' <= c <= 'z'
    decreases u
  {
    Division(u, base);
    if u >= base {
      DigitCase(u / base, base, upper);
    }
  }

  lemma {:induction false} RepeatAll(c: char, n: int)
    ensures forall k :: 0 <= k < |Repeat(c, n)| ==> Repeat(c, n)[k] == c
  {
    if n > 0 {
      RepeatAll(c, n - 1);
    }
  }

  /** A signed number shows its sign when negative, and otherwise what the flags ask for, + before a space. */
  lemma SignShown(num: Long, f: Flags)
    ensures SignOf(num, f) == "-" <==> f.sign && num < 0
    ensures SignOf(num, f) == "+" <==> f.sign && num >= 0 && f.plus
    ensures SignOf(num, f) == " " <==> f.sign && num >= 0 && !f.plus && f.space
    ensures SignOf(num, f) == "" <==> !f.sign || (num >= 0 && !f.plus && !f.space)
  {
    assert "-"[0] == '-' && "+"[0] == '+' && " "[0] == ' ';
  }

  lemma PrefixShown(base: nat, f: Flags)
    ensures PrefixOf(base, f) == "0x" <==> f.hexPrep && base == 16
    ensures PrefixOf(base, f) == "0" <==> f.hexPrep && base == 8
    ensures PrefixOf(base, f) == "" <==> !f.hexPrep || (base != 8 && base != 16)
  {
    assert "0x"[0] == '0';
  }

  predicate AllAre(s: string, c: char) {
    forall k :: 0 <= k < |s| ==> s[k] == c
  }

  /**
   * Where the padding goes: p blanks after everything for a left-adjusted number, otherwise p zeros
   * after sign and prefix, or p blanks before them. The digits come last among sign, prefix and digits.
   */
  lemma PaddingPlaced(num: Long, base: nat, size: int, precision: int, f: Flags)
    requires 2 <= base <= 36
    ensures var out := Formatted(num, base, size, precision, f);
      var sign, prefix, body := SignOf(num, f), PrefixOf(base, f), Body(num, base, precision, f);
      var p := |out| - |sign| - |prefix| - |body|;
      && p >= 0 && |out| == Max(size, |sign| + |prefix| + |body|)
      && (f.left ==> out[..|out| - p] == sign + prefix + body && AllAre(out[|out| - p..], ' '))
      && (!f.left && f.zeropad ==> var h := |sign| + |prefix|;
            out[..h] == sign + prefix && AllAre(out[h..h + p], '0') && out[h + p..] == body)
      && (!f.left && !f.zeropad ==> AllAre(out[..p], ' ') && out[p..] == sign + prefix + body)
  {
    hide SignOf, PrefixOf, Body, Repeat;
    var pad := Padding(num, base, size, precision, f);
    RepeatLength('0', pad);
    RepeatLength(' ', pad);
    RepeatAll('0', pad);
    RepeatAll(' ', pad);
    var head, body := SignOf(num, f) + PrefixOf(base, f), Body(num, base, precision, f);
    if f.left {
      Pieces(head, body, Repeat(' ', pad));
    } else if f.zeropad {
      Pieces(head, Repeat('0', pad), body);
    } else {
      Pieces(Repeat(' ', pad), head, body);
      assert Repeat(' ', pad) + head + body == Repeat(' ', pad) + (head + body);
    }
  }

  lemma Pieces(a: string, b: string, c: string)
    ensures var s := a + b + c;
      && s[..|a|] == a && s[|a|..|a| + |b|] == b && s[|a| + |b|..] == c
      && s[..|a| + |b|] == a + b && s[|a|..] == b + c
  {
  }

  /** The digits fill up to the precision with zeros in front. */
  lemma PrecisionZeros(num: Long, base: nat, precision: int, f: Flags)
    requires 2 <= base <= 36
    ensures var digits, body := Digits(Magnitude(num, f), base, f.uppercase), Body(num, base, precision, f);
      && |body| == Max(precision, |digits|)
      && AllAre(body[..|body| - |digits|], '0') && body[|body| - |digits|..] == digits
  {
    hide Digits, Magnitude, Repeat;
    var digits := Digits(Magnitude(num, f), base, f.uppercase);
    RepeatLength('0', precision - |digits|);
    RepeatAll('0', precision - |digits|);
    Pieces(Repeat('0', precision - |digits|), digits, "");
  }

  // ---------------------------------------------------------------------------------------------
  // The formatter as it runs

  function Reverse(s: string): string {
    if s == "" then "" else Reverse(s[1..]) + [s[0]]
  }

  lemma {:induction false} ReverseLast(s: string, c: char)
    ensures Reverse(s + [c]) == [c] + Reverse(s)
  {
    if s == "" {
      assert s + [c] == [c];
      assert [c][1..] == "";
    } else {
      assert (s + [c])[1..] == s[1..] + [c];
      ReverseLast(s[1..], c);
    }
  }

  lemma LongPow()
    ensures Pow2(32) == LONG_RANGE
  {
    assert Pow2(8) == 256;
    assert Pow2(16) == 65536;
    assert Pow2(24) == 16777216;
  }

  /** One division step: the last digit and what remains. */
  method NextDigit(num: nat, base: nat, upper: bool) returns (rest: nat, digit: char)
    requires 2 <= base <= 36 && num > 0
    ensures 2 * rest <= num
    ensures Digits(num, base, upper) == (if rest == 0 then "" else Digits(rest, base, upper)) + [digit]
  {
    Division(num, base);
    rest, digit := num / base, DigitChar(num % base, upper);
    if num < base {
      assert rest == 0;
    }
  }

  lemma PowStep(k: nat)
    requires k > 0
    ensures Pow2(k) == 2 * Pow2(k - 1)
  {
  }

  /** Peels digits off into tmp, least significant first. */
  method Peel(tmp: array<char>, u: nat, base: nat, upper: bool) returns (i: nat)
    requires tmp.Length == 66 && u < LONG_RANGE && 2 <= base <= 36
    modifies tmp
    ensures i <= 32 && Reverse(tmp[..i]) == Digits(u, base, upper)
  {
    i := 0;
    if u == 0 {
      tmp[0] := '0';
      i := 1;
      assert tmp[..1] == "0";
      assert "0"[1..] == "";
    } else {
      LongPow();
      i := PeelDigits(tmp, u, base, upper);
    }
  }

  method PeelDigits(tmp: array<char>, u: nat, base: nat, upper: bool) returns (i: nat)
    requires tmp.Length == 66 && 0 < u < Pow2(32) && 2 <= base <= 36
    modifies tmp
    ensures i <= 32 && Reverse(tmp[..i]) == Digits(u, base, upper)
  {
    hide Digits, Pow2, Reverse, DigitChar;
    i := 0;
    var num: nat := u;
    ghost var room := 32;
    ghost var front, all := Digits(u, base, upper), Digits(u, base, upper);
    ReverseNothing();
    assert tmp[..0] == "";
    while num != 0
      invariant i + room == 32 && room >= 0 && num < Pow2(room)
      invariant front == if num == 0 then "" else Digits(num, base, upper)
      invariant front + Reverse(tmp[..i]) == all
    {
      if room == 0 {
        PowZero();
      }
      PowStep(room);
      room := room - 1;
      var rest, digit := NextDigit(num, base, upper);
      front := if rest == 0 then "" else Digits(rest, base, upper);
      PeelStep(front, digit, tmp[..i], all);
      Store(tmp, i, digit);
      num := rest;
      i := i + 1;
    }
  }

  method Store(tmp: array<char>, i: nat, c: char)
    requires i < tmp.Length
    modifies tmp
    ensures tmp[..i + 1] == old(tmp[..i]) + [c]
  {
    tmp[i] := c;
  }

  lemma PeelStep(front: string, digit: char, done: string, all: string)
    requires (front + [digit]) + Reverse(done) == all
    ensures front + Reverse(done + [digit]) == all
  {
    hide Reverse;
    ReverseLast(done, digit);
    assert (front + [digit]) + Reverse(done) == front + ([digit] + Reverse(done));
  }

  lemma ReverseNothing()
    ensures Reverse("") == ""
  {
  }

  lemma PowZero()
    ensures Pow2(0) == 1
  {
  }

  /** Writes the digits back to front. */
  method Emit(str: string, tmp: array<char>, i: nat) returns (r: string)
    requires i <= tmp.Length
    ensures r == str + Reverse(tmp[..i])
  {
    r := str;
    var k := i;
    while k > 0
      invariant 0 <= k <= i
      invariant r + Reverse(tmp[..k]) == str + Reverse(tmp[..i])
    {
      k := k - 1;
      assert tmp[..k + 1] == tmp[..k] + [tmp[k]];
      ReverseLast(tmp[..k], tmp[k]);
      r := r + [tmp[k]];
    }
  }

  /** Appends n copies of c, none when n is negative. */
  method Fill(str: string, c: char, n: int) returns (r: string)
    ensures r == str + Repeat(c, n)
  {
    r := str;
    var k := n;
    while k > 0
      invariant n >= 0 ==> 0 <= k <= n && r == str + Repeat(c, n - k)
      invariant n < 0 ==> k == n && r == str
    {
      RepeatMore(c, n - k);
      r := r + [c];
      k := k - 1;
    }
  }

  /** The sign character, the digits' value as an unsigned long, and the width that remains. */
  method TakeSign(num: Long, size: int, flags: Flags) returns (sign: string, u: nat, width: int)
    ensures sign == SignOf(num, flags) && u == Magnitude(num, flags) && width == size - |sign|
  {
    var n: int := num;
    sign, width := "", size;
    if flags.sign {
      if n < 0 {
        sign, n, width := "-", -n, width - 1;
      } else if flags.plus {
        sign, width := "+", width - 1;
      } else if flags.space {
        sign, width := " ", width - 1;
      }
    }
    u := if n < 0 then n + LONG_RANGE else n; // the cast to unsigned long
  }

  /** The output loops: padding on the left, sign and prefix, zero padding, digits, padding on the right. */
  method WriteOut(f: Flags, zeropad: bool, sign: string, base: int, width: int, zeros: int, tmp: array<char>, i: nat)
    returns (str: string)
    requires i <= tmp.Length && zeropad == (f.zeropad && !f.left) && 2 <= base <= 36
    ensures str == (if !zeropad && !f.left then Repeat(' ', width) else "") + sign + PrefixOf(base, f)
                   + (if zeropad then Repeat('0', width) else "") + Repeat('0', zeros) + Reverse(tmp[..i])
                   + (if f.left then Repeat(' ', width) else "")
  {
    hide Repeat, Reverse;
    RepeatNegative('0', -1);
    RepeatNegative(' ', -1);
    var size := width;
    str := "";
    if !zeropad && !f.left {
      str := Fill(str, ' ', size);
      size := -1;
    }
    str := str + sign;
    if f.hexPrep {
      if base == 8 {
        str := str + "0";
      } else if base == 16 {
        str := str + "0x";
      }
    }
    if !f.left {
      str := Fill(str, if zeropad then '0' else ' ', size);
      size := -1;
    }
    str := Fill(str, '0', zeros);
    str := Emit(str, tmp, i);
    str := Fill(str, ' ', size);
  }

  /** The whole conversion: None for a base it does not know. */
  method Number(num: Long, base: int, size: int, precision: int, flags: Flags) returns (r: Option<string>)
    ensures r == if 2 <= base <= 36 then Some(Formatted(num, base, size, precision, flags)) else None
  {
    hide Digits, SignOf, Magnitude, Repeat, Reverse, Formatted;
    var zeropad := flags.zeropad && !flags.left;
    if base < 2 || base > 36 {
      return None;
    }
    var sign, u, width := TakeSign(num, size, flags);
    if flags.hexPrep {
      if base == 16 {
        width := width - 2;
      } else if base == 8 {
        width := width - 1;
      }
    }
    var tmp := new char[66];
    var i := Peel(tmp, u, base, flags.uppercase);
    ReverseLength(tmp[..i]);
    var prec := if i > precision then i else precision;
    width := width - prec;
    RepeatNone('0', precision - i);
    var str := WriteOut(flags, zeropad, sign, base, width, prec - i, tmp, i);
    Assembled(num, base, size, precision, flags, if !zeropad && !flags.left then Repeat(' ', width) else "",
              if zeropad then Repeat('0', width) else "", if flags.left then Repeat(' ', width) else "");
    r := Some(str);
  }

  lemma {:induction false} ReverseLength(s: string)
    ensures |Reverse(s)| == |s|
  {
    if s != "" {
      ReverseLength(s[1..]);
    }
  }

  lemma RepeatNegative(c: char, n: int)
    requires n <= 0
    ensures Repeat(c, n) == ""
  {
  }

  lemma RepeatNone(c: char, n: int)
    ensures Repeat(c, Max(0, n)) == Repeat(c, n)
  {
  }

  /** The pieces as they are written make up the layout. */
  lemma Assembled(num: Long, base: nat, size: int, precision: int, f: Flags, lead: string, mid: string, trail: string)
    requires 2 <= base <= 36
    requires var width := Width(num, base, size, precision, f);
      && lead == (if !f.zeropad && !f.left then Repeat(' ', width) else "")
      && mid == (if f.zeropad && !f.left then Repeat('0', width) else "")
      && trail == (if f.left then Repeat(' ', width) else "")
    ensures var digits := Digits(Magnitude(num, f), base, f.uppercase);
      lead + SignOf(num, f) + PrefixOf(base, f) + mid + Repeat('0', precision - |digits|) + digits + trail
      == Formatted(num, base, size, precision, f)
  {
    hide Digits, SignOf, PrefixOf, Magnitude, Repeat;
    var digits := Digits(Magnitude(num, f), base, f.uppercase);
    RepeatLength('0', precision - |digits|);
    RepeatNone('0', Width(num, base, size, precision, f));
    RepeatNone(' ', Width(num, base, size, precision, f));
    Joined(lead, SignOf(num, f), PrefixOf(base, f), mid, Repeat('0', precision - |digits|), digits, trail);
  }

  /** What is left of the width for padding, negative when there is none. */
  function Width(num: Long, base: nat, size: int, precision: int, f: Flags): int
    requires 2 <= base <= 36
  {
    size - |SignOf(num, f)| - |PrefixOf(base, f)| - Max(precision, |Digits(Magnitude(num, f), base, f.uppercase)|)
  }

  lemma Joined(lead: string, sign: string, prefix: string, mid: string, zeros: string, digits: string, trail: string)
    ensures lead + sign + prefix + mid + zeros + digits + trail ==
            lead + (sign + prefix) + mid + (zeros + digits) + trail
    ensures lead == "" ==> lead + (sign + prefix) == sign + prefix
    ensures mid == "" ==> lead + (sign + prefix) + mid == lead + (sign + prefix)
    ensures trail == "" ==>
              lead + (sign + prefix) + mid + (zeros + digits) + trail == lead + (sign + prefix) + mid + (zeros + digits)
  {
  }

  // ---------------------------------------------------------------------------------------------
  // Reading decimals

  predicate IsDigit(c: char) {
    '0' <= c <= '9'
  }

  /** The digits that start at the beginning of s. */
  function DigitRun(s: string): (run: string)
    ensures run <= s
  {
    if s == "" || !IsDigit(s[0]) then "" else [s[0]] + DigitRun(s[1..])
  }

  /** 32-bit signed wrap-around. */
  function Wrap(x: int): Long {
    (x + 0x8000_0000) % LONG_RANGE - 0x8000_0000
  }

  lemma {:induction false} EvaluateGrows(a: string, b: string)
    ensures Evaluate(a, 10) <= Evaluate(a + b, 10)
    decreases |b|
  {
    if b == "" {
      assert a + b == a;
    } else {
      assert (a + b)[..|a + b| - 1] == a + b[..|b| - 1];
      EvaluateGrows(a, b[..|b| - 1]);
    }
  }

  /** One step wraps around on the way, adding the character code, and wraps back. */
  lemma StepFits(i: int, c: char)
    requires 0 <= i && IsDigit(c) && i * 10 + DigitValue(c) < 0x8000_0000
    ensures Wrap(Wrap(i * 10 + c as int) - '0' as int) == i * 10 + DigitValue(c)
  {
  }

  lemma RunStep(s: string)
    requires s != "" && IsDigit(s[0])
    ensures DigitRun(s) == [s[0]] + DigitRun(s[1..])
  {
  }

  lemma Slices(s: string, k: nat)
    requires 1 <= k <= |s|
    ensures s[1..][..k - 1] == s[1..k] && s[1..][k - 1..] == s[k..] && s[..k] == [s[0]] + s[1..k]
  {
  }

  /** The run is its first k characters, all digits, and the run that follows them. */
  lemma {:induction false} RunSplit(s: string, k: nat)
    requires k <= |s| && forall i :: 0 <= i < k ==> IsDigit(s[i])
    ensures DigitRun(s) == s[..k] + DigitRun(s[k..])
    decreases k
  {
    hide DigitRun, IsDigit;
    if k == 0 {
      assert s[0..] == s && s[..0] == "";
      assert "" + DigitRun(s) == DigitRun(s);
    } else {
      var t := s[1..];
      RunStep(s);
      RunSplit(t, k - 1);
      Slices(s, k);
      assert [s[0]] + (t[..k - 1] + DigitRun(s[k..])) == s[..k] + DigitRun(s[k..]);
    }
  }

  lemma TakeNext(s: string, k: nat)
    requires k < |s|
    ensures s[..k + 1] == s[..k] + [s[k]]
  {
  }

  /** One more digit of the run, and its value. */
  lemma ReadStep(s: string, k: nat)
    requires k < |s| && forall i :: 0 <= i <= k ==> IsDigit(s[i])
    ensures Evaluate(s[..k + 1], 10) == Evaluate(s[..k], 10) * 10 + DigitValue(s[k])
    ensures Evaluate(s[..k + 1], 10) <= Evaluate(DigitRun(s), 10)
  {
    hide Evaluate, DigitRun, IsDigit, DigitValue;
    RunSplit(s, k + 1);
    TakeNext(s, k);
    EvaluateGrows(s[..k + 1], DigitRun(s[k + 1..]));
    EvaluateLast(s[..k], s[k], 10);
  }

  lemma ReadEnd(s: string, k: nat)
    requires k <= |s| && (forall i :: 0 <= i < k ==> IsDigit(s[i])) && (k < |s| ==> !IsDigit(s[k]))
    ensures DigitRun(s) == s[..k]
  {
    RunSplit(s, k);
    if k < |s| {
      assert s[k..][0] == s[k];
    }
  }

  /** Reads the decimal at the front of s; every value below 2^31 comes out exactly. */
  method SkipAtoi(s: string) returns (i: Long, used: nat)
    requires Evaluate(DigitRun(s), 10) < 0x8000_0000
    ensures used == |DigitRun(s)| && i == Evaluate(DigitRun(s), 10)
  {
    hide Evaluate, DigitRun, IsDigit, DigitValue, Wrap;
    i, used := 0, 0;
    EvaluateNothing(10);
    assert s[..0] == "";
    while used < |s| && IsDigit(s[used])
      invariant used <= |s| && forall k :: 0 <= k < used ==> IsDigit(s[k])
      invariant i == Evaluate(s[..used], 10)
    {
      ReadStep(s, used);
      StepFits(i, s[used]);
      i := Wrap(Wrap(i * 10 + s[used] as int) - '0' as int);
      used := used + 1;
    }
    ReadEnd(s, used);
  }

  /** Adding the character code for the k-th character leaves the range of int. */
  predicate SumOverflows(s: string, k: nat)
    requires k < |s|
  {
    Evaluate(s[..k], 10) * 10 + s[k] as int >= 0x8000_0000
  }

  lemma {:induction false} RunIsPrefix(s: string)
    ensures |DigitRun(s)| <= |s| && s[..|DigitRun(s)|] == DigitRun(s)
    ensures forall i :: 0 <= i < |DigitRun(s)| ==> IsDigit(s[i])
  {
    if s != "" && IsDigit(s[0]) {
      var t, n := s[1..], |DigitRun(s[1..])|;
      RunIsPrefix(t);
      Slices(s, n + 1);
      forall i | 0 <= i < n + 1
        ensures IsDigit(s[i])
      {
        assert i > 0 ==> s[i] == t[i - 1];
      }
    }
  }

  lemma SumIsValue(s: string, k: nat)
    requires k < |s| && forall i :: 0 <= i <= k ==> IsDigit(s[i])
    ensures SumOverflows(s, k) <==> Evaluate(s[..k + 1], 10) >= 0x8000_0000 - '0' as int
  {
    ReadStep(s, k);
  }

  /** No intermediate sum leaves the range of int exactly for decimals up to 2147483599. */
  lemma NoSumOverflows(s: string)
    ensures |DigitRun(s)| <= |s|
    ensures (forall k :: 0 <= k < |DigitRun(s)| ==> !SumOverflows(s, k)) <==> Evaluate(DigitRun(s), 10) <= 2147483599
  {
    hide Evaluate, DigitRun, IsDigit, SumOverflows;
    RunIsPrefix(s);
    EvaluateNothing(10);
    var n := |DigitRun(s)|;
    forall k | 0 <= k < n
      ensures SumOverflows(s, k) ==> Evaluate(DigitRun(s), 10) > 2147483599
    {
      SumIsValue(s, k);
      ReadStep(s, k);
    }
    if n > 0 {
      SumIsValue(s, n - 1);
    }
  }

  lemma {:induction false} DecimalDigits(u: nat, upper: bool)
    ensures forall k :: 0 <= k < |Digits(u, 10, upper)| ==> IsDigit(Digits(u, 10, upper)[k])
    decreases u
  {
    Division(u, 10);
    if u >= 10 {
      DecimalDigits(u / 10, upper);
    }
  }

  lemma {:induction false} RunOfDigits(d: string, rest: string)
    requires forall k :: 0 <= k < |d| ==> IsDigit(d[k])
    requires rest != "" ==> !IsDigit(rest[0])
    ensures DigitRun(d + rest) == d
    decreases |d|
  {
    if d == "" {
      assert d + rest == rest;
    } else {
      assert (d + rest)[1..] == d[1..] + rest;
      RunOfDigits(d[1..], rest);
      assert d == [d[0]] + d[1..];
    }
  }

  /** What number prints of a non-negative num without padding, skip_atoi reads back. */
  lemma DecimalRoundTrip(num: Long, rest: string)
    requires num >= 0 && (rest != "" ==> !IsDigit(rest[0]))
    ensures var printed := Formatted(num, 10, 0, 0, Flags(false, true, false, false, false, false, false));
      DigitRun(printed + rest) == printed && Evaluate(DigitRun(printed + rest), 10) == num
  {
    hide Digits;
    var f := Flags(false, true, false, false, false, false, false);
    var digits := Digits(num, 10, false);
    assert Magnitude(num, f) == num;
    assert Repeat('0', 0 - |digits|) == "";
    FormattedLength(num, 10, 0, 0, f);
    assert Formatted(num, 10, 0, 0, f) == digits;
    DecimalDigits(num, false);
    RunOfDigits(digits, rest);
    DigitsEvaluate(num, 10, false);
  }
}
