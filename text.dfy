/** Text as the Python code renders it, with the parsers that undo each
    rendering: str() of an int, the "x" and "08x" format specifications,
    str.join, str.split on one character, newline-terminated lines, and the
    ordering of str that max() uses. */
module Text {

  // ---------------------------------------------------------------------
  // Digits
  // ---------------------------------------------------------------------

  /** The value of a digit character; 16 for a character that is no digit. */
  function DigitValue(c: char): (d: nat)
    ensures d <= 16
  {
    if '0' <= c <= '9' then c as int - '0' as int
    else if 'a' <= c <= 'f' then c as int - 'a' as int + 10
    else 16
  }

  /** The character Python prints for digit d: 0-9, then lower-case a-f. */
  function DigitChar(d: nat): (c: char)
    requires d < 16
    ensures DigitValue(c) == d
  {
    if d < 10 then ('0' as int + d) as char else ('a' as int + d - 10) as char
  }

  /** The digits of n in the given base, most significant first, with no
      leading zero except in "0" itself. */
  function Digits(n: nat, base: nat): (s: string)
    requires 2 <= base <= 16
    ensures |s| >= 1
    ensures forall i :: 0 <= i < |s| ==> DigitValue(s[i]) < base
    ensures s[0] == '0' ==> n == 0 && s == "0"
    decreases n
  {
    if n < base then [DigitChar(n)]
    else
      DivideByBase(n, base);
      Digits(n / base, base) + [DigitChar(n % base)]
  }

  /** Euclid's division of n by the base, as Digits and ValueOf use it. */
  lemma DivideByBase(n: nat, base: nat)
    requires 2 <= base <= n
    ensures 1 <= n / base < n
    ensures (n / base) * base + n % base == n
    ensures n % base < base
  {
  }

  /** Multiplying by the base appends a zero digit. */
  lemma DigitsShift(n: nat, base: nat)
    requires 2 <= base <= 16 && n >= 1
    ensures Digits(n * base, base) == Digits(n, base) + "0"
  {
    MulDiv(n, base);
    assert n * base >= base;
    assert DigitChar(0) == '0';
  }

  /** Division undoes multiplication. */
  lemma MulDiv(n: nat, b: nat)
    requires b > 0
    ensures (n * b) / b == n && (n * b) % b == 0
  {
    var q, r := (n * b) / b, (n * b) % b;
    assert b * q + r == b * n;
    if q < n {
      MulLe(b, q + 1, n);
    } else if q > n {
      MulLe(b, n + 1, q);
    }
  }

  /** Multiplication by p is monotone. */
  lemma {:induction false} MulLe(p: nat, x: nat, y: nat)
    requires x <= y
    ensures p * x <= p * y
  {
    if x < y {
      MulLe(p, x, y - 1);
      assert p * y == p * (y - 1) + p;
    }
  }

  /** The number a string of digits denotes in the given base. */
  function ValueOf(s: string, base: nat): nat
  {
    if s == [] then 0 else ValueOf(s[..|s| - 1], base) * base + DigitValue(s[|s| - 1])
  }

  lemma {:induction false} DigitsRoundTrip(n: nat, base: nat)
    requires 2 <= base <= 16
    ensures ValueOf(Digits(n, base), base) == n
  {
    if n >= base {
      var s := Digits(n, base);
      assert s[..|s| - 1] == Digits(n / base, base);
      DivideByBase(n, base);
      DigitsRoundTrip(n / base, base);
    }
  }

  /** k zero digits. */
  function Zeros(k: nat): (z: string)
    ensures |z| == k
    ensures forall i :: 0 <= i < k ==> z[i] == '0'
  {
    if k == 0 then "" else "0" + Zeros(k - 1)
  }

  lemma {:induction false} ZerosValue(k: nat, base: nat)
    ensures ValueOf(Zeros(k), base) == 0
  {
    if k > 0 {
      assert Zeros(k)[..k - 1] == Zeros(k - 1);
      ZerosValue(k - 1, base);
    }
  }

  /** Leading zeros do not change the value of a digit string. */
  lemma {:induction false} LeadingZeros(k: nat, s: string, base: nat)
    ensures ValueOf(Zeros(k) + s, base) == ValueOf(s, base)
  {
    if s == [] {
      assert Zeros(k) + s == Zeros(k);
      ZerosValue(k, base);
    } else {
      var t := Zeros(k) + s;
      assert t[..|t| - 1] == Zeros(k) + s[..|s| - 1];
      assert t[|t| - 1] == s[|s| - 1];
      LeadingZeros(k, s[..|s| - 1], base);
    }
  }

  // ---------------------------------------------------------------------
  // str() of an int, "{:x}" and "{:08x}"
  // ---------------------------------------------------------------------

  /** Python's str() of an int: an optional minus sign, then decimal digits. */
  function DecimalString(n: int): (s: string)
    ensures |s| >= 1
    ensures forall i :: 0 <= i < |s| ==> s[i] == '-' || DigitValue(s[i]) < 10
  {
    if n < 0 then "-" + Digits(-n, 10) else Digits(n, 10)
  }

  /** A decimal rendering holds nothing but a sign and decimal digits. */
  lemma NotInDecimal(n: int, c: char)
    requires c != '-' && DigitValue(c) >= 10
    ensures c !in DecimalString(n)
  {
    var s := DecimalString(n);
    assert forall i :: 0 <= i < |s| ==> s[i] != c;
  }

  /** Python's int() of a decimal string. */
  function ParseDecimal(s: string): int
  {
    if |s| > 0 && s[0] == '-' then -(ValueOf(s[1..], 10) as int) else ValueOf(s, 10)
  }

  lemma DecimalRoundTrip(n: int)
    ensures ParseDecimal(DecimalString(n)) == n
  {
    if n < 0 {
      assert DecimalString(n)[1..] == Digits(-n, 10);
      DigitsRoundTrip(-n, 10);
    } else {
      assert DigitValue('-') == 16;
      DigitsRoundTrip(n, 10);
    }
  }

  /** "{:x}".format(n): lower-case hexadecimal digits, unpadded. */
  function Hex(n: nat): (s: string)
    ensures |s| >= 1
    ensures forall i :: 0 <= i < |s| ==> DigitValue(s[i]) < 16
    ensures s[0] == '0' ==> s == "0"
  {
    Digits(n, 16)
  }

  /** "{:08x}".format(n): lower-case hexadecimal digits, zero-padded on the
      left to a width of at least eight. */
  function Hex08(n: nat): (s: string)
    ensures |s| >= 8
    ensures |s| > 8 ==> s == Hex(n)
    ensures forall i :: 0 <= i < |s| ==> DigitValue(s[i]) < 16
  {
    var d := Hex(n);
    if |d| >= 8 then d else Zeros(8 - |d|) + d
  }

  /** Python's int(s, 16). */
  function ParseHex(s: string): nat
  {
    ValueOf(s, 16)
  }

  lemma HexRoundTrip(n: nat)
    ensures ParseHex(Hex(n)) == n
    ensures ParseHex(Hex08(n)) == n
  {
    DigitsRoundTrip(n, 16);
    if |Hex(n)| < 8 {
      LeadingZeros(8 - |Hex(n)|, Hex(n), 16);
    }
  }

  // ---------------------------------------------------------------------
  // Searching, joining and splitting
  // ---------------------------------------------------------------------

  /** The index of the first c in s, or |s| when s holds no c. */
  function IndexOf(s: string, c: char): (k: nat)
    ensures k <= |s|
    ensures k < |s| ==> s[k] == c
    ensures forall i :: 0 <= i < k ==> s[i] != c
  {
    if s == [] then 0 else if s[0] == c then 0 else 1 + IndexOf(s[1..], c)
  }

  /** sep.join(parts) */
  function Join(parts: seq<string>, sep: string): string
  {
    if |parts| == 0 then ""
    else if |parts| == 1 then parts[0]
    else parts[0] + sep + Join(parts[1..], sep)
  }

  /** s.split(c) for a one-character separator c: the pieces between the
      occurrences of c, always at least one. */
  function Split(s: string, c: char): (parts: seq<string>)
    ensures |parts| >= 1
    decreases |s|
  {
    var k := IndexOf(s, c);
    if k == |s| then [s] else [s[..k]] + Split(s[k + 1..], c)
  }

  lemma IndexOfNone(a: string, c: char)
    requires c !in a
    ensures IndexOf(a, c) == |a|
  {
    assert forall i :: 0 <= i < |a| ==> a[i] != c;
  }

  /** The first c in a + [c] + b is the one after a, when a holds none. */
  lemma IndexOfAt(a: string, c: char, b: string)
    requires c !in a
    ensures IndexOf(a + [c] + b, c) == |a|
    ensures (a + [c] + b)[..|a|] == a
    ensures (a + [c] + b)[|a| + 1..] == b
  {
    var s := a + [c] + b;
    assert s[|a|] == c;
    assert forall i :: 0 <= i < |a| ==> s[i] == a[i] != c;
  }

  lemma SplitNone(a: string, c: char)
    requires c !in a
    ensures Split(a, c) == [a]
  {
    IndexOfNone(a, c);
  }

  /** Splitting at the first separator. */
  lemma SplitCons(a: string, c: char, b: string)
    requires c !in a
    ensures Split(a + [c] + b, c) == [a] + Split(b, c)
  {
    IndexOfAt(a, c, b);
  }

  /** A character that is in no part and not in the separator is not in the
      joined text. */
  lemma {:induction false} NotInJoin(parts: seq<string>, sep: string, c: char)
    requires c !in sep
    requires forall i :: 0 <= i < |parts| ==> c !in parts[i]
    ensures c !in Join(parts, sep)
  {
    if |parts| > 1 {
      NotInJoin(parts[1..], sep, c);
    }
  }

  /** Splitting undoes joining when no part holds the separator. */
  lemma {:induction false} SplitJoin(parts: seq<string>, c: char)
    requires |parts| >= 1
    requires forall i :: 0 <= i < |parts| ==> c !in parts[i]
    ensures Split(Join(parts, [c]), c) == parts
  {
    if |parts| == 1 {
      SplitNone(parts[0], c);
    } else {
      SplitCons(parts[0], c, Join(parts[1..], [c]));
      SplitJoin(parts[1..], c);
    }
  }

  // ---------------------------------------------------------------------
  // Newline-terminated lines and plain concatenation
  // ---------------------------------------------------------------------

  /** The lines, each followed by "\n", one after another. */
  function Unlines(ls: seq<string>): string
  {
    if ls == [] then "" else ls[0] + "\n" + Unlines(ls[1..])
  }

  lemma {:induction false} UnlinesSnoc(ls: seq<string>, l: string)
    ensures Unlines(ls + [l]) == Unlines(ls) + l + "\n"
  {
    if ls != [] {
      assert (ls + [l])[1..] == ls[1..] + [l];
      UnlinesSnoc(ls[1..], l);
    }
  }

  lemma {:induction false} UnlinesAppend(a: seq<string>, b: seq<string>)
    ensures Unlines(a + b) == Unlines(a) + Unlines(b)
  {
    if a != [] {
      assert (a + b)[1..] == a[1..] + b;
      UnlinesAppend(a[1..], b);
    } else {
      assert a + b == b;
    }
  }

  /** The text splits at "\n" into the lines plus the empty piece after the
      last newline, as Python's text.split("\n") does. */
  lemma {:induction false} SplitUnlines(ls: seq<string>)
    requires forall i :: 0 <= i < |ls| ==> '\n' !in ls[i]
    ensures Split(Unlines(ls), '\n') == ls + [""]
  {
    if ls == [] {
      assert Split("", '\n') == [""];
    } else {
      SplitCons(ls[0], '\n', Unlines(ls[1..]));
      SplitUnlines(ls[1..]);
      assert ls == [ls[0]] + ls[1..];
    }
  }

  /** The strings one after another, as repeated `r += s` builds them. */
  function Concat(ss: seq<string>): string
  {
    if ss == [] then "" else ss[0] + Concat(ss[1..])
  }

  lemma {:induction false} ConcatSnoc(ss: seq<string>, s: string)
    ensures Concat(ss + [s]) == Concat(ss) + s
  {
    if ss != [] {
      assert (ss + [s])[1..] == ss[1..] + [s];
      ConcatSnoc(ss[1..], s);
    }
  }

  /** The first j + 1 pieces are the first j, then piece j. */
  lemma ConcatPrefix(ss: seq<string>, j: nat)
    requires j < |ss|
    ensures Concat(ss[..j + 1]) == Concat(ss[..j]) + ss[j]
  {
    assert ss[..j + 1] == ss[..j] + [ss[j]];
    ConcatSnoc(ss[..j], ss[j]);
  }

  lemma {:induction false} ConcatAppend(a: seq<string>, b: seq<string>)
    ensures Concat(a + b) == Concat(a) + Concat(b)
  {
    if a != [] {
      assert (a + b)[1..] == a[1..] + b;
      ConcatAppend(a[1..], b);
    } else {
      assert a + b == b;
    }
  }

  // ---------------------------------------------------------------------
  // Ordering of str, as max() compares
  // ---------------------------------------------------------------------

  /** Python's a <= b on str: code points compared from the left, and a
      proper prefix before the longer string. */
  predicate LexLe(a: string, b: string)
  {
    |a| == 0 || (|b| > 0 && (a[0] < b[0] || (a[0] == b[0] && LexLe(a[1..], b[1..]))))
  }

  lemma {:induction false} LexReflexive(a: string)
    ensures LexLe(a, a)
  {
    if |a| > 0 {
      LexReflexive(a[1..]);
    }
  }

  lemma {:induction false} LexTotal(a: string, b: string)
    ensures LexLe(a, b) || LexLe(b, a)
  {
    if |a| > 0 && |b| > 0 && a[0] == b[0] {
      LexTotal(a[1..], b[1..]);
    }
  }

  lemma {:induction false} LexTrans(a: string, b: string, c: string)
    requires LexLe(a, b) && LexLe(b, c)
    ensures LexLe(a, c)
  {
    if |a| > 0 && |b| > 0 && |c| > 0 && a[0] == b[0] == c[0] {
      LexTrans(a[1..], b[1..], c[1..]);
    }
  }

  lemma {:induction false} LexAntisymmetric(a: string, b: string)
    requires LexLe(a, b) && LexLe(b, a)
    ensures a == b
  {
    if |a| > 0 && |b| > 0 {
      LexAntisymmetric(a[1..], b[1..]);
      assert a == [a[0]] + a[1..];
      assert b == [b[0]] + b[1..];
    }
  }

  /** Python's max() of a non-empty list of str: it keeps the first element
      and replaces it by each later element that is strictly greater. */
  function MaxOf(vs: seq<string>): (m: string)
    requires |vs| > 0
    ensures m in vs
    ensures forall i :: 0 <= i < |vs| ==> LexLe(vs[i], m)
  {
    if |vs| == 1 then LexReflexive(vs[0]); vs[0]
    else
      var best := MaxOf(vs[..|vs| - 1]);
      var x := vs[|vs| - 1];
      MaxStep(vs, best);
      if LexLe(x, best) then best else x
  }

  /** The step of MaxOf: the larger of the running maximum and the last
      element bounds every element. */
  lemma MaxStep(vs: seq<string>, best: string)
    requires |vs| > 1
    requires forall i :: 0 <= i < |vs| - 1 ==> LexLe(vs[i], best)
    ensures var x := vs[|vs| - 1];
      forall i :: 0 <= i < |vs| ==> LexLe(vs[i], if LexLe(x, best) then best else x)
  {
    var x := vs[|vs| - 1];
    LexReflexive(x);
    if !LexLe(x, best) {
      LexTotal(x, best);
      forall i | 0 <= i < |vs| - 1
        ensures LexLe(vs[i], x)
      {
        LexTrans(vs[i], best, x);
      }
    }
  }
}
