/** The few JavaScript value rules the core relies on: truthiness of optional
    values, `||` on them, `String.prototype.split` with a one-character separator,
    `Array.prototype.join`, number-to-text conversion in template literals,
    `parseInt` and ASCII lower-casing. */
module JsValues {
  import opened Wrappers

  // ---------------------------------------------------------------------------
  // Truthiness

  /** A string is truthy unless it is missing or empty. */
  predicate TruthyText(o: Option<string>) { o.Some? && o.value != "" }

  /** A number is truthy unless it is missing or zero. */
  predicate TruthyNumber(o: Option<real>) { o.Some? && o.value != 0.0 }

  predicate TruthyInt(o: Option<int>) { o.Some? && o.value != 0 }

  /** `a || b` on optional strings: the first truthy operand, else the second. */
  function OrElse(a: Option<string>, b: Option<string>): (r: Option<string>)
    ensures TruthyText(r) <==> TruthyText(a) || TruthyText(b)
    ensures TruthyText(a) ==> r == a
    ensures !TruthyText(a) ==> r == b
  {
    if TruthyText(a) then a else b
  }

  // ---------------------------------------------------------------------------
  // Splitting and joining

  /** Index of the first `c` in `s`, or `|s|` when there is none. */
  function IndexOf(s: string, c: char): (i: nat)
    ensures i <= |s|
    ensures i < |s| ==> s[i] == c
    ensures forall k :: 0 <= k < i ==> s[k] != c
  {
    if |s| == 0 then 0
    else if s[0] == c then 0
    else 1 + IndexOf(s[1..], c)
  }

  /** The text before the first `c` (all of `s` when there is no `c`). */
  function TakeUntil(s: string, c: char): (r: string)
    ensures r <= s && c !in r
    ensures |r| < |s| ==> s[|r|] == c
  {
    s[..IndexOf(s, c)]
  }

  /** `s.split(c)` for a one-character separator `c`. */
  function Split(s: string, c: char): (parts: seq<string>)
    ensures |parts| >= 1
    ensures forall p :: p in parts ==> c !in p
    decreases |s|
  {
    var i := IndexOf(s, c);
    if i == |s| then [s] else [s[..i]] + Split(s[i + 1..], c)
  }

  /** `parts.join(sep)`. */
  function Join(parts: seq<string>, sep: string): string
  {
    if |parts| == 0 then ""
    else if |parts| == 1 then parts[0]
    else parts[0] + sep + Join(parts[1..], sep)
  }

  lemma {:induction false} IndexOfAt(p: string, c: char, rest: string)
    requires c !in p
    ensures IndexOf(p + [c] + rest, c) == |p|
  {
    var s := p + [c] + rest;
    assert s[|p|] == c;
    assert forall k :: 0 <= k < |p| ==> s[k] == p[k];
  }

  /** Splitting at the first separator peels off the text before it. */
  lemma {:induction false} SplitCons(p: string, c: char, rest: string)
    requires c !in p
    ensures Split(p + [c] + rest, c) == [p] + Split(rest, c)
  {
    var s := p + [c] + rest;
    IndexOfAt(p, c, rest);
    assert s[..|p|] == p;
    assert s[|p| + 1..] == rest;
  }

  /** Proof step: regrouping a concatenation of four texts. */
  lemma Concat3(a: string, b: string, c: string, d: string)
    ensures a + b + c + d == a + (b + c + d)
  {
  }

  /** The first piece of a split is the text before the first separator. */
  lemma SplitHead(s: string, c: char)
    ensures Split(s, c)[0] == TakeUntil(s, c)
  {
    assert s[..|s|] == s;
  }

  lemma SplitNoSeparator(s: string, c: char)
    requires c !in s
    ensures Split(s, c) == [s]
  {
  }

  /** Joining the pieces of a split gives back the text. */
  lemma {:induction false} JoinSplit(s: string, c: char)
    ensures Join(Split(s, c), [c]) == s
    decreases |s|
  {
    var i := IndexOf(s, c);
    if i < |s| {
      var rest := Split(s[i + 1..], c);
      JoinSplit(s[i + 1..], c);
      assert Split(s, c) == [s[..i]] + rest;
      assert Join(Split(s, c), [c]) == s[..i] + [c] + Join(rest, [c]);
      assert s == s[..i] + [c] + s[i + 1..];
    }
  }

  /** Splitting a join of separator-free pieces gives back the pieces. */
  lemma {:induction false} SplitJoin(parts: seq<string>, c: char)
    requires |parts| >= 1
    requires forall p :: p in parts ==> c !in p
    ensures Split(Join(parts, [c]), c) == parts
  {
    if |parts| == 1 {
      SplitNoSeparator(parts[0], c);
    } else {
      assert parts[0] in parts;
      forall p | p in parts[1..] ensures c !in p {
        assert p in parts;
      }
      SplitJoin(parts[1..], c);
      SplitCons(parts[0], c, Join(parts[1..], [c]));
      assert parts == [parts[0]] + parts[1..];
    }
  }

  // ---------------------------------------------------------------------------
  // Sequences

  /** No element occurs twice. */
  predicate Distinct<T(==)>(s: seq<T>)
  {
    forall i, j :: 0 <= i < j < |s| ==> s[i] != s[j]
  }

  // ---------------------------------------------------------------------------
  // Counting characters

  function CountChar(s: string, c: char): nat
  {
    if |s| == 0 then 0 else (if s[0] == c then 1 else 0) + CountChar(s[1..], c)
  }

  lemma {:induction false} CountCharAppend(a: string, b: string, c: char)
    ensures CountChar(a + b, c) == CountChar(a, c) + CountChar(b, c)
  {
    if |a| > 0 {
      assert (a + b)[1..] == a[1..] + b;
      CountCharAppend(a[1..], b, c);
    } else {
      assert a + b == b;
    }
  }

  lemma {:induction false} CountCharAbsent(s: string, c: char)
    requires c !in s
    ensures CountChar(s, c) == 0
  {
    if |s| > 0 {
      assert forall x :: x in s[1..] ==> x in s;
      CountCharAbsent(s[1..], c);
    }
  }

  // ---------------------------------------------------------------------------
  // Numbers as text

  predicate IsDigit(ch: char) { '0' <= ch <= '9' }

  /** The value of `ch` as a digit in the bases up to 36 (`0`-`9`, then `a`-`z` in
      either case); 36 for a character that is a digit in no base. */
  function DigitOf(ch: char): (d: nat)
    ensures d <= 36
    ensures IsDigit(ch) <==> d < 10
  {
    if '0' <= ch <= '9' then ch as int - 48
    else if 'a' <= ch <= 'z' then ch as int - 87
    else if 'A' <= ch <= 'Z' then ch as int - 55
    else 36
  }

  function DigitChar(d: nat): (ch: char)
    requires d < 10
    ensures IsDigit(ch) && DigitOf(ch) == d
  {
    (48 + d) as char
  }

  predicate AllDigits(s: string) { forall i :: 0 <= i < |s| ==> IsDigit(s[i]) }

  /** Decimal text of a natural number, as `${n}` writes it for an integer below
      10^21. */
  function NatToString(n: nat): (r: string)
    ensures |r| >= 1 && AllDigits(r)
  {
    if n < 10 then [DigitChar(n)] else NatToString(n / 10) + [DigitChar(n % 10)]
  }

  /** Decimal text of an integer, as `${n}` writes it for an integer of magnitude
      below 10^21. */
  function IntToString(n: int): (r: string)
    ensures |r| >= 1
    ensures '-' in r <==> n < 0
  {
    if n < 0 then "-" + NatToString(-n) else NatToString(n)
  }

  /** Value of a run of base-`radix` digits, 0 for the empty run. */
  function DigitsValue(s: string, radix: nat): nat
  {
    if s == [] then 0
    else DigitsValue(s[..|s| - 1], radix) * radix + DigitOf(s[|s| - 1])
  }

  lemma {:induction false} NatToStringRoundTrip(n: nat)
    ensures DigitsValue(NatToString(n), 10) == n
  {
    var s := NatToString(n);
    if n < 10 {
      assert s[..|s| - 1] == [];
    } else {
      var a := NatToString(n / 10);
      assert s[..|s| - 1] == a;
      NatToStringRoundTrip(n / 10);
    }
  }

  lemma NatToStringInjective(a: nat, b: nat)
    requires NatToString(a) == NatToString(b)
    ensures a == b
  {
    NatToStringRoundTrip(a);
    NatToStringRoundTrip(b);
  }

  /** Length of the longest run of base-`radix` digits at the start of `s`. */
  function DigitRun(s: string, radix: nat): (k: nat)
    ensures k <= |s|
    ensures forall i :: 0 <= i < k ==> DigitOf(s[i]) < radix
    ensures k < |s| ==> DigitOf(s[k]) >= radix
  {
    if |s| == 0 || DigitOf(s[0]) >= radix then 0 else 1 + DigitRun(s[1..], radix)
  }

  lemma {:induction false} DigitRunAll(s: string)
    requires AllDigits(s)
    ensures DigitRun(s, 10) == |s|
  {
    if |s| > 0 {
      DigitRunAll(s[1..]);
    }
  }

  /** The characters that end a line (section 12.3 of ECMA-262). */
  predicate LineTerminator(c: char)
  {
    c == '\n' || c == '\r' || c == '\U{2028}' || c == '\U{2029}'
  }

  /** White space and line terminators (sections 12.2 and 12.3 of ECMA-262). */
  predicate JsSpace(c: char)
  {
    || LineTerminator(c)
    || c == '\t' || c == '\U{000B}' || c == '\U{000C}' || c == ' ' || c == '\U{00A0}'
    || c == '\U{1680}' || '\U{2000}' <= c <= '\U{200A}' || c == '\U{202F}' || c == '\U{205F}'
    || c == '\U{3000}' || c == '\U{FEFF}'
  }

  /** `s` without its leading white space. */
  function TrimStart(s: string): (r: string)
    ensures |r| <= |s| && r == s[|s| - |r|..]
    ensures forall i :: 0 <= i < |s| - |r| ==> JsSpace(s[i])
    ensures r != [] ==> !JsSpace(r[0])
  {
    if s != [] && JsSpace(s[0]) then
      var r := TrimStart(s[1..]);
      assert forall i :: 1 <= i < |s| - |r| ==> s[i] == s[1..][i - 1];
      r
    else s
  }

  /** `parseInt(s)` with no radix (section 19.2.5 of ECMA-262): leading white space is
      skipped, then one sign, then a `0x` or `0X` prefix selects base 16, otherwise
      base 10; the longest run of digits of that base is read. `None` stands for
      `NaN`, which an empty run gives. */
  function ParseInt(s: string): Option<int>
  {
    ParseSigned(TrimStart(s))
  }

  /** The sign, then the rest. */
  function ParseSigned(t: string): Option<int>
  {
    if t != [] && t[0] == '-' then ParseUnsigned(t[1..], true)
    else if t != [] && t[0] == '+' then ParseUnsigned(t[1..], false)
    else ParseUnsigned(t, false)
  }

  /** The base prefix, then the digits. */
  function ParseUnsigned(u: string, negative: bool): Option<int>
  {
    if |u| >= 2 && u[0] == '0' && (u[1] == 'x' || u[1] == 'X') then ReadRun(u[2..], 16, negative)
    else ReadRun(u, 10, negative)
  }

  /** The leading run of base-`radix` digits, negated when a minus sign came first. */
  function ReadRun(digits: string, radix: nat, negative: bool): Option<int>
  {
    var k := DigitRun(digits, radix);
    if k == 0 then None
    else
      Some(Signed(DigitsValue(digits[..k], radix), negative))
  }

  /** `v`, negated when a minus sign came first. */
  function Signed(v: nat, negative: bool): int
  {
    if negative then -(v as int) else v
  }

  /** `parseInt` reads back the text a template literal writes for an integer. */
  lemma IntToStringParses(n: int)
    ensures ParseInt(IntToString(n)) == Some(n)
  {
    var m: nat := if n < 0 then -n else n;
    var d := NatToString(m);
    NatToStringRoundTrip(m);
    DecimalRun(d, n < 0);
    if n < 0 {
      var s := IntToString(n);
      assert s[1..] == d;
      ParseMinus(s);
    } else {
      NoLeadingSpace(d);
    }
  }

  /** A leading minus sign is read as the sign. */
  lemma ParseMinus(s: string)
    requires |s| >= 1 && s[0] == '-'
    ensures ParseInt(s) == ParseUnsigned(s[1..], true)
  {
    NoLeadingSpace(s);
  }

  lemma NoLeadingSpace(s: string)
    requires s != [] && !JsSpace(s[0])
    ensures TrimStart(s) == s
  {
  }

  /** A run of decimal digits is read whole, in base 10. */
  lemma DecimalRun(d: string, negative: bool)
    requires |d| >= 1 && AllDigits(d)
    ensures ParseUnsigned(d, negative) == Some(Signed(DigitsValue(d, 10), negative))
    ensures ParseSigned(d) == ParseUnsigned(d, false)
  {
    NoHexPrefix(d, negative);
    WholeRun(d, negative);
    NoSign(d);
  }

  /** A digit in second place is no `x`: base 10 applies. */
  lemma NoHexPrefix(d: string, negative: bool)
    requires |d| >= 1 && AllDigits(d)
    ensures ParseUnsigned(d, negative) == ReadRun(d, 10, negative)
  {
    assert |d| >= 2 ==> IsDigit(d[1]);
  }

  lemma WholeRun(d: string, negative: bool)
    requires |d| >= 1 && AllDigits(d)
    ensures ReadRun(d, 10, negative) == Some(Signed(DigitsValue(d, 10), negative))
  {
    DigitRunAll(d);
    assert d[..|d|] == d;
  }

  /** A digit in first place is no sign. */
  lemma NoSign(d: string)
    requires |d| >= 1 && AllDigits(d)
    ensures ParseSigned(d) == ParseUnsigned(d, false)
  {
    assert IsDigit(d[0]);
  }

  /** Leading white space does not change what `parseInt` reads. */
  lemma ParseSkipsSpace(space: string, s: string)
    requires forall i :: 0 <= i < |space| ==> JsSpace(space[i])
    ensures ParseInt(space + s) == ParseInt(s)
  {
    TrimSpace(space, s);
  }

  lemma {:induction false} TrimSpace(space: string, s: string)
    requires forall i :: 0 <= i < |space| ==> JsSpace(space[i])
    ensures TrimStart(space + s) == TrimStart(s)
  {
    if space != [] {
      assert (space + s)[1..] == space[1..] + s;
      TrimSpace(space[1..], s);
    } else {
      assert space + s == s;
    }
  }

  /** With a `0x` or `0X` prefix `parseInt` reads hexadecimal digits, up to the first
      character that is not one. */
  lemma ParseHex(s: string)
    requires |s| >= 2 && s[0] == '0' && (s[1] == 'x' || s[1] == 'X')
    ensures ParseInt(s) == ReadRun(s[2..], 16, false)
  {
    calc {
      ParseInt(s);
    == { NoLeadingSpace(s); }
      ParseSigned(s);
      ParseUnsigned(s, false);
    }
  }

  /** The value of two digits. */
  lemma TwoDigits(a: char, b: char, radix: nat)
    ensures DigitsValue([a, b], radix) == DigitOf(a) * radix + DigitOf(b)
  {
    assert [a][..0] == [];
    assert DigitsValue([a], radix) == DigitOf(a);
    assert [a, b][..1] == [a];
  }

  /** Two hexadecimal digits are read whole. */
  lemma TwoHexDigits(a: char, b: char)
    requires DigitOf(a) < 16 && DigitOf(b) < 16
    ensures ReadRun([a, b], 16, false) == Some(DigitOf(a) * 16 + DigitOf(b))
  {
    var h := [a, b];
    assert h[1..][1..] == [];
    assert h[..2] == h;
    TwoDigits(a, b, 16);
  }

  /** `parseInt` of `0x` and two hexadecimal digits: `parseInt("0x1F")` is 31, where a
      decimal-only reading gives 0. */
  lemma ParseHexPair(a: char, b: char)
    requires DigitOf(a) < 16 && DigitOf(b) < 16
    ensures ParseInt(['0', 'x', a, b]) == Some(DigitOf(a) * 16 + DigitOf(b))
  {
    var s := ['0', 'x', a, b];
    calc {
      ParseInt(s);
    == { ParseHex(s); }
      ReadRun(s[2..], 16, false);
    == { assert s[2..] == [a, b]; }
      ReadRun([a, b], 16, false);
    == { TwoHexDigits(a, b); }
      Some(DigitOf(a) * 16 + DigitOf(b));
    }
  }

  /** `parseInt` of a space and a run of decimal digits: `parseInt(" 12")` is 12, where
      a reading without the white-space rule gives NaN. */
  lemma ParseSpaced(d: string)
    requires |d| >= 1 && AllDigits(d)
    ensures ParseInt([' '] + d) == Some(DigitsValue(d, 10))
  {
    calc {
      ParseInt([' '] + d);
    == { ParseSkipsSpace([' '], d); }
      ParseInt(d);
    == { NoLeadingSpace(d); }
      ParseSigned(d);
    == { DecimalRun(d, false); }
      Some(DigitsValue(d, 10) as int);
    }
  }

  /** Splitting at the last separator is unique when the tail is free of it. */
  lemma LastSeparatorSplit(a: string, b: string, a': string, b': string, c: char)
    requires c !in b && c !in b'
    requires a + [c] + b == a' + [c] + b'
    ensures a == a' && b == b'
  {
    var s := a + [c] + b;
    assert s == a' + [c] + b';
    assert s[|a|] == c && s[|a'|] == c;
    assert forall k :: |a| < k < |s| ==> s[k] == b[k - |a| - 1];
    assert forall k :: |a'| < k < |s| ==> s[k] == b'[k - |a'| - 1];
    assert |a| == |a'|;
    assert b == s[|s| - |b|..] == b';
    assert a == s[..|a|] == a';
  }

  // ---------------------------------------------------------------------------
  // Lower-casing

  function LowerChar(ch: char): char
  {
    if 'A' <= ch <= 'Z' then (ch as int + 32) as char else ch
  }

  /** `s.toLowerCase()` restricted to ASCII letters. */
  function ToLower(s: string): (r: string)
    ensures |r| == |s|
    ensures forall i :: 0 <= i < |s| ==> r[i] == LowerChar(s[i])
  {
    seq(|s|, i requires 0 <= i < |s| => LowerChar(s[i]))
  }
}
