/** Bytes and numbers as text: what the program takes from the C++ library. */
module Text {

  datatype Option<+T> = None | Some(value: T)

  /** The range of the C++ `int` the program keeps its limits and lengths in. */
  type int32 = x: int | -0x8000_0000 <= x < 0x8000_0000

  const CRLF := "\r\n"

  predicate Ascii(c: char) {
    c as int <= 127
  }

  /** Drops the leading spaces of `s` (tabs stay). */
  function TrimLeft(s: string): (r: string)
    ensures |r| <= |s|
  {
    if s != "" && s[0] == ' ' then TrimLeft(s[1..]) else s
  }

  /** `TrimLeft` drops spaces only, and all of those in front. */
  lemma {:induction false} TrimLeftFacts(s: string)
    ensures var r := TrimLeft(s);
            && r == s[|s| - |r|..]
            && (r == "" || r[0] != ' ')
            && (forall k :: 0 <= k < |s| - |r| ==> s[k] == ' ')
  {
    if s != "" && s[0] == ' ' {
      TrimLeftFacts(s[1..]);
    }
  }

  /** There is one way to cut `s` into leading spaces and a rest that has none. */
  lemma {:induction false} TrimLeftUnique(s: string, n: nat)
    requires n <= |s| && (forall k :: 0 <= k < n ==> s[k] == ' ')
    requires n == |s| || s[n] != ' '
    ensures TrimLeft(s) == s[n..]
  {
    if n > 0 {
      TrimLeftUnique(s[1..], n - 1);
    }
  }

  function LowerChar(c: char): char {
    if 'A' <= c <= 'Z' then (c as int + 32) as char else c
  }

  function ToLower(s: string): (r: string)
    ensures |r| == |s|
  {
    seq(|s|, k requires 0 <= k < |s| => LowerChar(s[k]))
  }

  const CAPITALS := "ABCDEFGHIJKLMNOPQRSTUVWXYZ"
  const SMALL := "abcdefghijklmnopqrstuvwxyz"

  /** The same byte, or the same letter in another case. */
  ghost predicate SameLetter(a: char, b: char) {
    a == b || exists k :: 0 <= k < 26 && InBothCases(a, b, k)
  }

  predicate InBothCases(a: char, b: char, k: nat)
    requires k < 26
  {
    (a == CAPITALS[k] && b == SMALL[k]) || (a == SMALL[k] && b == CAPITALS[k])
  }

  ghost predicate SameButCase(a: string, b: string) {
    |a| == |b| && forall k :: 0 <= k < |a| ==> SameLetter(a[k], b[k])
  }

  predicate NoCapitals(s: string) {
    forall k :: 0 <= k < |s| ==> s[k] !in CAPITALS
  }

  lemma Alphabet(k: nat)
    requires k < 26
    ensures CAPITALS[k] == ('A' as int + k) as char && SMALL[k] == ('a' as int + k) as char
  {
  }

  lemma CapitalsAre(c: char)
    ensures c in CAPITALS <==> 'A' <= c <= 'Z'
  {
    if 'A' <= c <= 'Z' {
      Alphabet(c as int - 'A' as int);
    }
    if c in CAPITALS {
      var k :| 0 <= k < 26 && CAPITALS[k] == c;
      Alphabet(k);
    }
  }

  /** The one byte that is the same letter and no capital. */
  lemma LowerCharExactly(c: char, d: char)
    ensures LowerChar(c) == d <==> SameLetter(c, d) && d !in CAPITALS
  {
    hide SameLetter;
    CapitalsAre(c);
    CapitalsAre(d);
    SameLetterIs(c, d);
  }

  lemma CaseAt(a: char, b: char, k: nat)
    requires k < 26
    ensures var big, small := ('A' as int + k) as char, ('a' as int + k) as char;
            InBothCases(a, b, k) <==> (a == big && b == small) || (a == small && b == big)
  {
    Alphabet(k);
  }

  lemma SameLetterIs(a: char, b: char)
    ensures SameLetter(a, b) <==> LowerChar(a) == LowerChar(b)
  {
    hide InBothCases;
    if 'A' <= a <= 'Z' {
      CaseAt(a, b, a as int - 'A' as int);
    }
    if 'A' <= b <= 'Z' {
      CaseAt(a, b, b as int - 'A' as int);
    }
    if a != b && SameLetter(a, b) {
      var k :| 0 <= k < 26 && InBothCases(a, b, k);
      CaseAt(a, b, k);
    }
  }

  /** Lower-casing gives the one text that differs in case only and has no capital in it. */
  lemma ToLowerExactly(s: string, t: string)
    ensures ToLower(s) == t <==> SameButCase(s, t) && NoCapitals(t)
  {
    hide SameLetter, LowerChar;
    forall k | 0 <= k < |s| == |t|
      ensures LowerChar(s[k]) == t[k] <==> SameLetter(s[k], t[k]) && t[k] !in CAPITALS
    {
      LowerCharExactly(s[k], t[k]);
    }
    if ToLower(s) == t {
      forall k | 0 <= k < |s|
        ensures SameLetter(s[k], t[k]) && t[k] !in CAPITALS
      {
        assert t[k] == LowerChar(s[k]);
      }
    }
  }

  /** Texts have the same lower-case form exactly when they differ in case only. */
  lemma SameButCaseExactly(a: string, b: string)
    ensures ToLower(a) == ToLower(b) <==> SameButCase(a, b)
  {
    hide SameLetter, LowerChar;
    forall k | 0 <= k < |a| == |b|
      ensures SameLetter(a[k], b[k]) <==> LowerChar(a[k]) == LowerChar(b[k])
    {
      SameLetterIs(a[k], b[k]);
    }
    if ToLower(a) == ToLower(b) {
      forall k | 0 <= k < |a|
        ensures SameLetter(a[k], b[k])
      {
        assert ToLower(a)[k] == LowerChar(a[k]) && ToLower(b)[k] == LowerChar(b[k]);
      }
    }
  }

  // ----------------------------------------------------------------- memory

  /** `memmove(block, block + from, n)`; nothing if it would read past the end of the block. */
  function Memmove(block: string, from: nat, n: nat): Option<string> {
    if from + n <= |block| then Some(block[from..from + n] + block[n..]) else None
  }

  // ---------------------------------------------------------------- numbers

  predicate IsDigit(c: char, base: nat) {
    DigitValue(c) < base
  }

  /** The value of a digit in any base up to 16; 16 for anything else. */
  function DigitValue(c: char): (v: nat)
    ensures v <= 16
  {
    if '0' <= c <= '9' then c as int - '0' as int
    else if 'a' <= c <= 'f' then c as int - 'a' as int + 10
    else if 'A' <= c <= 'F' then c as int - 'A' as int + 10
    else 16
  }

  ghost predicate AllDigits(s: string, base: nat) {
    forall k :: 0 <= k < |s| ==> IsDigit(s[k], base)
  }

  /** The length of the longest prefix of digits. */
  function DigitRun(s: string, base: nat): (n: nat)
    ensures n <= |s| && (forall k :: 0 <= k < n ==> IsDigit(s[k], base))
    ensures n == |s| || !IsDigit(s[n], base)
  {
    if s != "" && IsDigit(s[0], base) then 1 + DigitRun(s[1..], base) else 0
  }

  function Value(s: string, base: nat): nat {
    if s == "" then 0 else Value(s[..|s| - 1], base) * base + DigitValue(s[|s| - 1])
  }

  /** `std::from_chars` into an `int`: an optional minus sign, the longest run of digits,
      nothing else read; no digits or an out-of-range value is a failure. */
  function FromChars(s: string, base: nat): Option<int32>
  {
    var negative := s != "" && s[0] == '-';
    var t := if negative then s[1..] else s;
    var n := DigitRun(t, base);
    var v: int := if negative then -(Value(t[..n], base) as int) else Value(t[..n], base);
    if n == 0 || v >= 0x8000_0000 || v < -0x8000_0000 then None else Some(v)
  }

  /** A letter or a digit. */
  predicate Plain(c: char) {
    '0' <= c <= '9' || 'a' <= c <= 'z' || 'A' <= c <= 'Z'
  }

  const DIGITS := "0123456789abcdef"

  function DigitChar(v: nat): (c: char)
    requires v < 16
    ensures DigitValue(c) == v && Plain(c)
  {
    DIGITS[v]
  }

  /** `n` written out in `base`, most significant digit first (`std::to_string` for base 10). */
  function Print(n: nat, base: nat): (s: string)
    requires 2 <= base <= 16
    ensures s != ""
  {
    if n < base then [DigitChar(n)] else Print(n / base, base) + [DigitChar(n % base)]
  }

  lemma ValueSnoc(s: string, c: char, base: nat)
    ensures Value(s + [c], base) == Value(s, base) * base + DigitValue(c)
  {
    assert (s + [c])[..|s|] == s;
  }

  lemma ValueSingle(c: char, base: nat)
    ensures Value([c], base) == DigitValue(c)
  {
    ValueSnoc("", c, base);
  }

  lemma DivMod(n: nat, base: nat)
    requires base > 0
    ensures n == n / base * base + n % base
  {
  }

  lemma {:induction false} PrintAllDigits(n: nat, base: nat)
    requires 2 <= base <= 16
    ensures AllDigits(Print(n, base), base)
  {
    hide DigitValue, DigitChar;
    if n >= base {
      PrintAllDigits(n / base, base);
    }
  }

  lemma {:induction false} PrintPlain(n: nat, base: nat)
    requires 2 <= base <= 16
    ensures forall k :: 0 <= k < |Print(n, base)| ==> Plain(Print(n, base)[k])
  {
    hide Plain, DigitValue, DigitChar;
    if n >= base {
      PrintPlain(n / base, base);
    }
  }

  lemma {:induction false} PrintValue(n: nat, base: nat)
    requires 2 <= base <= 16
    ensures Value(Print(n, base), base) == n
  {
    hide Value, DigitValue, DigitChar;
    if n >= base {
      PrintValue(n / base, base);
      ValueSnoc(Print(n / base, base), DigitChar(n % base), base);
      DivMod(n, base);
    } else {
      ValueSingle(DigitChar(n), base);
    }
  }

  // ------------------------------------------------------- what a number looks like

  /** A digit of `base`, in either case. */
  ghost predicate Digit(c: char, base: nat)
    requires base <= 16
  {
    exists v :: 0 <= v < base && SameLetter(c, DIGITS[v])
  }

  lemma SameDigit(a: char, b: char)
    requires SameLetter(a, b)
    ensures DigitValue(a) == DigitValue(b)
  {
    SameLetterIs(a, b);
  }

  lemma DigitExactly(c: char, base: nat)
    requires base <= 16
    ensures IsDigit(c, base) <==> Digit(c, base)
    ensures IsDigit(c, 16) ==> SameLetter(c, DigitChar(DigitValue(c)))
  {
    if IsDigit(c, 16) {
      var v := DigitValue(c);
      SameLetterIs(c, DigitChar(v));
      assert v < base ==> SameLetter(c, DIGITS[v]);
    }
    if Digit(c, base) {
      var v :| 0 <= v < base && SameLetter(c, DIGITS[v]);
      SameDigit(c, DigitChar(v));
    }
  }

  function Zeros(n: nat): string {
    seq(n, _ => '0')
  }

  /** A way to write `n`: leading zeros, then its digits, in either case. */
  ghost predicate Spells(digits: string, n: nat, base: nat)
    requires 2 <= base <= 16
  {
    exists zeros: nat :: SameButCase(digits, Zeros(zeros) + Print(n, base))
  }

  lemma {:induction false} SameValue(a: string, b: string, base: nat)
    requires SameButCase(a, b)
    ensures Value(a, base) == Value(b, base) && (AllDigits(a, base) <==> AllDigits(b, base))
  {
    hide DigitValue, SameLetter;
    forall k | 0 <= k < |a|
      ensures IsDigit(a[k], base) <==> IsDigit(b[k], base)
    {
      SameDigit(a[k], b[k]);
    }
    if a != "" {
      SameDigit(a[|a| - 1], b[|a| - 1]);
      SameValue(a[..|a| - 1], b[..|a| - 1], base);
    }
  }

  lemma {:induction false} LeadingZeros(zeros: nat, s: string, base: nat)
    requires 2 <= base <= 16
    ensures Value(Zeros(zeros) + s, base) == Value(s, base)
    decreases |s|, zeros
  {
    hide DigitValue, Value;
    if s != "" {
      var front, c := s[..|s| - 1], s[|s| - 1];
      assert s == front + [c] && Zeros(zeros) + s == (Zeros(zeros) + front) + [c];
      LeadingZeros(zeros, front, base);
      ValueSnoc(front, c, base);
      ValueSnoc(Zeros(zeros) + front, c, base);
    } else if zeros > 0 {
      LeadingZeros(zeros - 1, "", base);
      assert Zeros(zeros) + s == (Zeros(zeros - 1) + s) + ['0'];
      ZeroIsDigit(base);
      ValueSnoc(Zeros(zeros - 1) + s, '0', base);
      assert Value("", base) == 0 by {
        EmptyValue(base);
      }
    } else {
      assert Zeros(zeros) + s == s;
    }
  }

  lemma EmptyValue(base: nat)
    ensures Value("", base) == 0
  {
  }

  lemma ZeroIsDigit(base: nat)
    requires 2 <= base
    ensures DigitValue('0') == 0 && IsDigit('0', base)
  {
  }

  lemma ZerosValue(zeros: nat, n: nat, base: nat)
    requires 2 <= base <= 16
    ensures Value(Zeros(zeros) + Print(n, base), base) == n && AllDigits(Zeros(zeros) + Print(n, base), base)
  {
    hide DigitValue, Value, Print;
    LeadingZeros(zeros, Print(n, base), base);
    PrintValue(n, base);
    PrintAllDigits(n, base);
    ZeroIsDigit(base);
  }

  /** One more digit behind a number. */
  lemma SpellsSnoc(digits: string, n: nat, c: char, base: nat)
    requires 2 <= base <= 16 && Spells(digits, n, base) && IsDigit(c, base)
    ensures Spells(digits + [c], n * base + DigitValue(c), base)
  {
    hide DigitValue, DigitChar, SameLetter;
    DigitExactly(c, base);
    var v := DigitValue(c);
    var zeros :| zeros >= 0 && SameButCase(digits, Zeros(zeros) + Print(n, base));
    if n == 0 {
      ZeroDigit(base);
      assert Zeros(zeros) + Print(0, base) == Zeros(zeros + 1);
      assert Print(v, base) == [DigitChar(v)];
      assert SameButCase(digits + [c], Zeros(zeros + 1) + Print(v, base));
    } else {
      Requotient(n, v, base);
      assert Print(n * base + v, base) == Print(n, base) + [DigitChar(v)];
      assert SameButCase(digits + [c], Zeros(zeros) + Print(n * base + v, base));
    }
  }

  lemma Requotient(n: nat, v: nat, base: nat)
    requires v < base && n > 0
    ensures n * base + v >= base && (n * base + v) / base == n && (n * base + v) % base == v
  {
    var q := (n * base + v) / base;
    DivMod(n * base + v, base);
    assert (n - q) * base == n * base - q * base;
    MultipleBelow(n - q, base);
    assert n >= 1 && n * base >= base by {
      MultipleBelow(n, base);
    }
  }

  /** A multiple of `base` that is nearer to zero than `base` is zero. */
  lemma MultipleBelow(k: int, base: nat)
    requires base > 0
    ensures k >= 1 ==> k * base >= base
    ensures k <= -1 ==> k * base <= 0 - base
  {
    if k >= 1 {
      assert k * base == base + (k - 1) * base;
    } else if k <= -1 {
      assert k * base == 0 - base + (k + 1) * base;
    }
  }

  lemma ZeroDigit(base: nat)
    requires 2 <= base <= 16
    ensures Print(0, base) == "0"
  {
  }

  lemma {:induction false} ValueSpelled(digits: string, base: nat)
    requires 2 <= base <= 16 && digits != "" && AllDigits(digits, base)
    ensures Spells(digits, Value(digits, base), base)
  {
    hide DigitValue, DigitChar, SameLetter;
    var front, c := digits[..|digits| - 1], digits[|digits| - 1];
    assert digits == front + [c];
    ValueSnoc(front, c, base);
    if front == "" {
      ValueSingle(c, base);
      DigitExactly(c, base);
      assert Zeros(0) + Print(DigitValue(c), base) == [DigitChar(DigitValue(c))];
      assert SameButCase(digits, Zeros(0) + Print(DigitValue(c), base));
    } else {
      ValueSpelled(front, base);
      SpellsSnoc(front, Value(front, base), c, base);
    }
  }

  /** The texts of digits that have the value `n` are those that spell it. */
  lemma ValueExactly(digits: string, n: nat, base: nat)
    requires 2 <= base <= 16
    ensures digits != "" && AllDigits(digits, base) && Value(digits, base) == n <==> Spells(digits, n, base)
  {
    hide DigitValue, AllDigits, Value;
    if digits != "" && AllDigits(digits, base) {
      ValueSpelled(digits, base);
    }
    if Spells(digits, n, base) {
      var zeros :| zeros >= 0 && SameButCase(digits, Zeros(zeros) + Print(n, base));
      ZerosValue(zeros, n, base);
      SameValue(digits, Zeros(zeros) + Print(n, base), base);
    }
  }

  ghost predicate DigitFollows(rest: string, base: nat)
    requires base <= 16
  {
    rest != "" && Digit(rest[0], base)
  }

  /** The text begins with the number `v`: a minus sign or none, leading zeros, digits in either case,
      and then the end or a byte that is no digit. */
  ghost predicate Numeral(s: string, v: int, base: nat)
    requires 2 <= base <= 16
  {
    exists digits, rest :: SplitsAs(s, v, base, digits, rest)
  }

  ghost predicate SplitsAs(s: string, v: int, base: nat, digits: string, rest: string)
    requires 2 <= base <= 16
  {
    && !DigitFollows(rest, base)
    && ((v >= 0 && s == digits + rest && Spells(digits, v, base))
        || (v <= 0 && s == "-" + digits + rest && Spells(digits, -v, base)))
  }

  lemma DigitRunIs(s: string, digits: string, rest: string, base: nat)
    requires base <= 16 && s == digits + rest && AllDigits(digits, base) && !DigitFollows(rest, base)
    ensures DigitRun(s, base) == |digits| && s[..|digits|] == digits
  {
    hide DigitValue, Digit;
    if rest != "" {
      DigitExactly(rest[0], base);
      assert s[|digits|] == rest[0];
    }
    assert forall k :: 0 <= k < |digits| ==> s[k] == digits[k];
  }

  /** A number that fits an `int` is read; one that does not is refused. */
  lemma NumeralRead(s: string, v: int, base: nat)
    requires 2 <= base <= 16 && Numeral(s, v, base)
    ensures FromChars(s, base) == if -0x8000_0000 <= v < 0x8000_0000 then Some(v) else None
  {
    hide DigitValue, Digit, Spells, Value, AllDigits;
    var digits, rest :| SplitsAs(s, v, base, digits, rest);
    if v >= 0 && s == digits + rest && Spells(digits, v, base) {
      ValueExactly(digits, v, base);
      DigitRunIs(s, digits, rest, base);
      NoMinus(digits, base);
      assert s[0] == digits[0];
    } else {
      ValueExactly(digits, -v, base);
      assert s[1..] == digits + rest;
      DigitRunIs(s[1..], digits, rest, base);
    }
  }

  lemma NoMinus(digits: string, base: nat)
    requires base <= 16 && digits != "" && AllDigits(digits, base)
    ensures digits[0] != '-'
  {
    assert IsDigit(digits[0], base) && !IsDigit('-', base);
  }

  /** Whatever is read is a number that stands there. */
  lemma NumeralFound(s: string, base: nat)
    requires 2 <= base <= 16 && FromChars(s, base).Some?
    ensures Numeral(s, FromChars(s, base).value, base)
  {
    hide DigitValue, Digit, Spells, Value;
    var v := FromChars(s, base).value;
    var t := if s[0] == '-' then s[1..] else s;
    var n := DigitRun(t, base);
    var digits, rest := t[..n], t[n..];
    if rest != "" {
      DigitExactly(rest[0], base);
    }
    ValueExactly(digits, Value(digits, base), base);
    assert SplitsAs(s, v, base, digits, rest);
  }

  /** Reading numbers, for every text: what is read is the number the text begins with, if there is one
      and it fits an `int`. */
  lemma FromCharsExactly(s: string, v: int, base: nat)
    requires 2 <= base <= 16
    ensures FromChars(s, base) == Some(v) <==> Numeral(s, v, base) && -0x8000_0000 <= v < 0x8000_0000
  {
    hide FromChars, Numeral;
    if FromChars(s, base).Some? {
      NumeralFound(s, base);
    }
    if Numeral(s, v, base) {
      NumeralRead(s, v, base);
    }
  }

  lemma PrintIsNumeral(n: nat, base: nat)
    requires 2 <= base <= 16
    ensures Numeral(Print(n, base), n, base) && Numeral("-" + Print(n, base), 0 - n, base)
  {
    hide Print, SameLetter;
    var s := Print(n, base);
    assert Zeros(0) + s == s && s + "" == s && ("-" + s) + "" == "-" + s;
    SameAsItself(s);
    assert SameButCase(s, Zeros(0) + s);
    assert SplitsAs(s, n, base, s, "") && SplitsAs("-" + s, 0 - n, base, s, "");
  }

  lemma SameAsItself(s: string)
    ensures SameButCase(s, s)
  {
  }

  /** Reading back what was printed, with a minus sign or without: refused exactly when it does not fit. */
  lemma PrintFromChars(n: nat, base: nat)
    requires 2 <= base <= 16
    ensures FromChars(Print(n, base), base) == if n < 0x8000_0000 then Some(n) else None
    ensures FromChars("-" + Print(n, base), base) == if n <= 0x8000_0000 then Some(0 - n) else None
  {
    hide FromChars, Numeral, Print;
    PrintIsNumeral(n, base);
    NumeralRead(Print(n, base), n, base);
    NumeralRead("-" + Print(n, base), 0 - n, base);
  }

  /** No digit where the digits should be: refused. */
  lemma NoDigitsRefused(s: string, base: nat)
    requires 2 <= base <= 16
    requires !DigitFollows(s, base) && (s != "" && s[0] == '-' ==> !DigitFollows(s[1..], base))
    ensures FromChars(s, base) == None
  {
    hide DigitValue, Digit;
    if s != "" {
      DigitExactly(s[0], base);
      if s[0] == '-' && |s| > 1 {
        DigitExactly(s[1], base);
      }
    }
  }
}
