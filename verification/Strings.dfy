/** The few string routines the repository takes from Go's standard library. */
module Strings {

  const NUL := '\0'

  // ---------------------------------------------------------------- order

  /** Go's `<=` on strings: lexicographic. */
  predicate Leq(a: string, b: string) {
    a == "" || (b != "" && (a[0] < b[0] || (a[0] == b[0] && Leq(a[1..], b[1..]))))
  }

  lemma {:induction false} LeqTotal(a: string, b: string)
    ensures Leq(a, b) || Leq(b, a)
    ensures Leq(a, b) && Leq(b, a) ==> a == b
  {
    if a != "" && b != "" && a[0] == b[0] {
      LeqTotal(a[1..], b[1..]);
      assert a == [a[0]] + a[1..] && b == [b[0]] + b[1..];
    }
  }

  lemma {:induction false} LeqTransitive(a: string, b: string, c: string)
    requires Leq(a, b) && Leq(b, c)
    ensures Leq(a, c)
  {
    if a != "" && a[0] == b[0] == c[0] {
      LeqTransitive(a[1..], b[1..], c[1..]);
    }
  }

  /** A prefix never sorts after the string it begins. */
  lemma {:induction false} PrefixLeq(a: string, b: string)
    requires a <= b
    ensures Leq(a, b)
  {
    if a != "" {
      PrefixLeq(a[1..], b[1..]);
    }
  }

  // ---------------------------------------------------------------- splitting

  /** strings.Split for a one-character separator. */
  function Split(s: string, sep: char): (parts: seq<string>)
    ensures |parts| >= 1
  {
    if s == "" then [""]
    else if s[0] == sep then [""] + Split(s[1..], sep)
    else
      var rest := Split(s[1..], sep);
      [[s[0]] + rest[0]] + rest[1..]
  }

  lemma {:induction false} SplitWhole(s: string, sep: char)
    requires sep !in s
    ensures Split(s, sep) == [s]
  {
    if s != "" {
      SplitWhole(s[1..], sep);
      assert s == [s[0]] + s[1..];
    }
  }

  lemma SplitCons(c: char, t: string, sep: char)
    ensures c == sep ==> Split([c] + t, sep) == [""] + Split(t, sep)
    ensures c != sep ==> Split([c] + t, sep) == [[c] + Split(t, sep)[0]] + Split(t, sep)[1..]
  {
    assert ([c] + t)[1..] == t;
  }

  lemma SplitConsConcat(c: char, t: string, u: string, b: string, sep: char)
    requires Split(u, sep) == Split(t, sep) + Split(b, sep)
    ensures Split([c] + u, sep) == Split([c] + t, sep) + Split(b, sep)
  {
    SplitCons(c, t, sep);
    SplitCons(c, u, sep);
  }

  lemma {:induction false} SplitConcat(a: string, b: string, sep: char)
    ensures Split(a + [sep] + b, sep) == Split(a, sep) + Split(b, sep)
  {
    if a == "" {
      SplitCons(sep, b, sep);
      assert a + [sep] + b == [sep] + b;
    } else {
      var c, t := a[0], a[1..];
      SplitConcat(t, b, sep);
      SplitConsConcat(c, t, t + [sep] + b, b, sep);
      assert a == [c] + t && a + [sep] + b == [c] + (t + [sep] + b);
    }
  }

  /** The separator never survives in a part, and no other character is introduced. */
  lemma {:induction false} SplitPart(s: string, sep: char, i: nat, c: char)
    requires i < |Split(s, sep)| && c in Split(s, sep)[i]
    ensures c != sep && c in s
  {
    if s != "" {
      var rest := Split(s[1..], sep);
      if s[0] == sep {
        assert Split(s, sep) == [""] + rest;
        SplitPart(s[1..], sep, i - 1, c);
      } else if i > 0 {
        assert Split(s, sep)[i] == rest[i];
        SplitPart(s[1..], sep, i, c);
      } else if c != s[0] {
        assert Split(s, sep)[0] == [s[0]] + rest[0];
        SplitPart(s[1..], sep, 0, c);
      }
    }
  }

  // ---------------------------------------------------------------- trimming

  /** unicode.IsSpace: the white space strings.TrimSpace removes. */
  predicate IsSpace(c: char) {
    var u := c as int;
    || 0x09 <= u <= 0x0d || u == 0x20 || u == 0x85 || u == 0xa0 || u == 0x1680
    || 0x2000 <= u <= 0x200a || u == 0x2028 || u == 0x2029 || u == 0x202f || u == 0x205f || u == 0x3000
  }

  function TrimLeft(s: string): string {
    if s != "" && IsSpace(s[0]) then TrimLeft(s[1..]) else s
  }

  function TrimRight(s: string): string {
    if s != "" && IsSpace(s[|s| - 1]) then TrimRight(s[..|s| - 1]) else s
  }

  lemma {:induction false} TrimLeftMeans(s: string)
    ensures var t := TrimLeft(s); |t| <= |s| && s[|s| - |t|..] == t && (t != "" ==> !IsSpace(t[0]))
  {
    hide IsSpace;
    if s != "" && IsSpace(s[0]) { TrimLeftMeans(s[1..]); }
  }

  lemma {:induction false} TrimRightMeans(s: string)
    ensures var t := TrimRight(s); t <= s && (t != "" ==> !IsSpace(t[|t| - 1]))
  {
    hide IsSpace;
    if s != "" && IsSpace(s[|s| - 1]) { TrimRightMeans(s[..|s| - 1]); }
  }

  /** strings.TrimSpace. */
  function Trim(s: string): string {
    TrimRight(TrimLeft(s))
  }

  /** Neither end of the string is white space; the empty string qualifies. */
  predicate Trimmed(s: string) {
    s != "" ==> !IsSpace(s[0]) && !IsSpace(s[|s| - 1])
  }

  lemma TrimIsTrimmed(s: string)
    ensures Trimmed(Trim(s))
    ensures forall c :: c in Trim(s) ==> c in s
  {
    var l := TrimLeft(s);
    var t := TrimRight(l);
    TrimLeftMeans(s);
    TrimRightMeans(l);
    if t != "" {
      assert t[0] == l[0];
    }
    assert forall c :: c in l ==> c in s;
  }

  /** Trimming changes exactly the strings that have white space at an end. */
  lemma TrimFixpoint(s: string)
    ensures Trim(s) == s <==> Trimmed(s)
  {
    if Trim(s) == s {
      TrimIsTrimmed(s);
    }
  }

  // ---------------------------------------------------------------- case

  /** unicode.ToLower on the characters whose lower case is an ASCII letter. */
  function LowerChar(c: char): char {
    if 'A' <= c <= 'Z' then c + 32 as char
    else if c == '\U{212A}' then 'k'
    else if c == '\U{0130}' then 'i'
    else c
  }

  function Lower(s: string): (t: string)
    ensures |t| == |s|
  {
    seq(|s|, i requires 0 <= i < |s| => LowerChar(s[i]))
  }

  /** The usual clean-up of a keyword does nothing the second time. */
  lemma LowerTrimIdempotent(s: string)
    ensures Lower(Trim(Lower(Trim(s)))) == Lower(Trim(s))
  {
    TrimIsTrimmed(s);
    LowerKeeps(Trim(s));
    hide Lower, Trim;
    TrimFixpoint(Lower(Trim(s)));
  }

  lemma LowerKeeps(s: string)
    ensures Trimmed(s) ==> Trimmed(Lower(s))
    ensures Lower(Lower(s)) == Lower(s)
  {
    var t := Lower(s);
    forall i | 0 <= i < |t| ensures Lower(t)[i] == t[i] {
    }
  }

  // ---------------------------------------------------------------- decimal numbers

  predicate IsDigit(c: char) { '0' <= c <= '9' }

  predicate AllDigits(s: string) { forall i :: 0 <= i < |s| ==> IsDigit(s[i]) }

  function Digit(d: nat): (c: char)
    requires d < 10
    ensures IsDigit(c) && c as int - '0' as int == d
  {
    '0' + d as char
  }

  /** fmt's %d on a non-negative number. */
  function Decimal(n: nat): (s: string)
    ensures s != "" && AllDigits(s)
  {
    if n < 10 then [Digit(n)] else Decimal(n / 10) + [Digit(n % 10)]
  }

  /** The number a digit string denotes, leading zeros allowed. */
  function Value(s: string): nat
    requires AllDigits(s)
  {
    if s == "" then 0
    else
      var front := s[..|s| - 1];
      assert forall i :: 0 <= i < |front| ==> IsDigit(s[i]);
      10 * Value(front) + (s[|s| - 1] as int - '0' as int)
  }

  lemma {:induction false} ValueDecimal(n: nat)
    ensures Value(Decimal(n)) == n
  {
    var s := Decimal(n);
    if n >= 10 {
      ValueDecimal(n / 10);
      assert s[..|s| - 1] == Decimal(n / 10);
    } else {
      assert s[..0] == "";
    }
  }

  /** fmt's %0<width>d. */
  function ZeroPad(s: string, width: nat): (t: string)
    ensures |t| >= |s| && t[|t| - |s|..] == s
    ensures AllDigits(s) ==> AllDigits(t)
    decreases width - |s|
  {
    if |s| >= width then s
    else
      var longer := "0" + s;
      ZeroPad(longer, width)
  }

  lemma {:induction false} ValueLeadingZero(s: string)
    requires AllDigits(s)
    ensures AllDigits("0" + s) && Value("0" + s) == Value(s)
  {
    var t := "0" + s;
    if s == "" {
      assert t[..0] == "";
    } else {
      var front := s[..|s| - 1];
      assert AllDigits(front);
      ValueLeadingZero(front);
      assert t[..|t| - 1] == "0" + front;
    }
  }

  lemma {:induction false} ValueZeroPad(s: string, width: nat)
    requires AllDigits(s)
    ensures Value(ZeroPad(s, width)) == Value(s)
    decreases width - |s|
  {
    if |s| < width {
      ValueLeadingZero(s);
      ValueZeroPad("0" + s, width);
    }
  }

  /** Padded decimal numbers differ whenever the numbers do. */
  lemma PaddedDecimalInjective(m: nat, n: nat, width: nat)
    requires ZeroPad(Decimal(m), width) == ZeroPad(Decimal(n), width)
    ensures m == n
  {
    ValueDecimal(m);
    ValueDecimal(n);
    ValueZeroPad(Decimal(m), width);
    ValueZeroPad(Decimal(n), width);
  }

  /** The lower-case hexadecimal digit of a value below sixteen. */
  function HexChar(x: bv64): char {
    if x == 0 then '0' else if x == 1 then '1' else if x == 2 then '2' else if x == 3 then '3'
    else if x == 4 then '4' else if x == 5 then '5' else if x == 6 then '6' else if x == 7 then '7'
    else if x == 8 then '8' else if x == 9 then '9' else if x == 10 then 'a' else if x == 11 then 'b'
    else if x == 12 then 'c' else if x == 13 then 'd' else if x == 14 then 'e' else 'f'
  }

  lemma HexCharPlain(x: bv64)
    ensures HexChar(x) != '/' && HexChar(x) != NUL
  {
  }
}
