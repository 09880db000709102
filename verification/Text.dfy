/**
  The few string operations of the Go standard library that the modelled code uses,
  on strings as sequences of characters: strings.Split and strings.Join with a
  one-character separator, strings.Trim and its one-sided forms, strings.TrimPrefix.
 */
module Text {
  import opened Base

  // ----- strings.Split and strings.Join -----

  function Split(s: string, sep: char): (parts: seq<string>)
    ensures |parts| >= 1
  {
    if s == [] then [[]] else Push(s[0], sep, Split(s[1..], sep))
  }

  /** Puts one more character in front of an already split text. */
  function Push(c: char, sep: char, rest: seq<string>): (parts: seq<string>)
    requires |rest| >= 1
    ensures |parts| >= 1
  {
    if c == sep then [[]] + rest else [[c] + rest[0]] + rest[1..]
  }

  function Join(parts: seq<string>, sep: char): string {
    if |parts| == 0 then []
    else if |parts| == 1 then parts[0]
    else parts[0] + [sep] + Join(parts[1..], sep)
  }

  /** No part holds the separator. */
  ghost predicate Clean(parts: seq<string>, sep: char) {
    forall i | 0 <= i < |parts| :: sep !in parts[i]
  }

  lemma {:induction false} JoinCons(head: string, tail: seq<string>, sep: char)
    requires |tail| >= 1
    ensures Join([head] + tail, sep) == head + [sep] + Join(tail, sep)
  {
    assert ([head] + tail)[1..] == tail;
  }

  /** Splitting loses nothing: joining the parts gives the text back, and no part holds the separator. */
  lemma {:induction false} JoinSplit(s: string, sep: char)
    ensures Join(Split(s, sep), sep) == s
    ensures Clean(Split(s, sep), sep)
  {
    if s != [] {
      var rest := Split(s[1..], sep);
      JoinSplit(s[1..], sep);
      if s[0] == sep {
        JoinCons([], rest, sep);
        assert Join(Split(s, sep), sep) == [sep] + s[1..];
      } else if |rest| == 1 {
        assert Split(s, sep) == [[s[0]] + rest[0]];
      } else {
        JoinCons([s[0]] + rest[0], rest[1..], sep);
        assert Join(Split(s, sep), sep) == [s[0]] + (rest[0] + [sep] + Join(rest[1..], sep));
      }
    }
  }

  /** A text without the separator is one part. */
  lemma {:induction false} SplitClean(s: string, sep: char)
    requires sep !in s
    ensures Split(s, sep) == [s]
  {
    if s != [] {
      SplitClean(s[1..], sep);
      assert [s[0]] + s[1..] == s;
    }
  }

  /** Splitting distributes over a separator. */
  lemma {:induction false} SplitConcat(a: string, b: string, sep: char)
    ensures Split(a + [sep] + b, sep) == Split(a, sep) + Split(b, sep)
  {
    var whole := a + [sep] + b;
    if a == [] {
      assert whole == [sep] + b && whole[1..] == b;
      assert Split(a, sep) == [[]];
    } else {
      assert whole[0] == a[0] && whole[1..] == a[1..] + [sep] + b;
      SplitConcat(a[1..], b, sep);
      PushConcat(a[0], sep, Split(a[1..], sep), Split(b, sep));
    }
  }

  lemma PushConcat(c: char, sep: char, rest: seq<string>, more: seq<string>)
    requires |rest| >= 1
    ensures Push(c, sep, rest + more) == Push(c, sep, rest) + more
  {
    if c != sep {
      assert (rest + more)[1..] == rest[1..] + more;
    }
  }

  /** Joining loses nothing when no part holds the separator. */
  lemma {:induction false} SplitJoin(parts: seq<string>, sep: char)
    requires |parts| >= 1 && Clean(parts, sep)
    ensures Split(Join(parts, sep), sep) == parts
  {
    SplitClean(parts[0], sep);
    if |parts| > 1 {
      SplitJoin(parts[1..], sep);
      SplitConcat(parts[0], Join(parts[1..], sep), sep);
    }
  }

  // ----- strings.Trim -----

  function TrimLeft(s: string, cut: set<char>): (t: string)
    ensures |t| <= |s| && s[|s| - |t|..] == t
    ensures t == [] || t[0] !in cut
    ensures forall i | 0 <= i < |s| - |t| :: s[i] in cut
  {
    if s != [] && s[0] in cut then TrimLeft(s[1..], cut) else s
  }

  function TrimRight(s: string, cut: set<char>): (t: string)
    ensures |t| <= |s| && s[..|t|] == t
    ensures t == [] || t[|t| - 1] !in cut
    ensures forall i | |t| <= i < |s| :: s[i] in cut
  {
    if s != [] && s[|s| - 1] in cut then TrimRight(s[..|s| - 1], cut) else s
  }

  function Trim(s: string, cut: set<char>): (t: string)
    ensures t == [] || (t[0] !in cut && t[|t| - 1] !in cut)
  {
    TrimRight(TrimLeft(s, cut), cut)
  }

  /** Whatever of the cut set stands around a text that neither starts nor ends with it, the text is what is left. */
  lemma TrimMiddle(a: string, m: string, b: string, cut: set<char>)
    requires (forall c <- a :: c in cut) && (forall c <- b :: c in cut)
    requires m == "" || (m[0] !in cut && m[|m| - 1] !in cut)
    ensures Trim(a + m + b, cut) == m
  {
    hide TrimLeft, TrimRight;
    assert a + m + b == a + (m + b);
    TrimLeftSkips(a, m + b, cut);
    TrimRightSkips(m, b, cut);
    if m == "" {
      TrimLeftSkips(b, "", cut);
      assert m + b == b && b + "" == b;
      TrimKeeps("", cut);
    } else {
      assert (m + b)[0] == m[0];
      TrimKeeps(m + b, cut);
      TrimKeeps(m, cut);
    }
  }

  lemma TrimKeeps(s: string, cut: set<char>)
    ensures s == "" || s[0] !in cut ==> TrimLeft(s, cut) == s
    ensures s == "" || s[|s| - 1] !in cut ==> TrimRight(s, cut) == s
  {
  }

  lemma {:induction false} TrimLeftSkips(a: string, s: string, cut: set<char>)
    requires forall c <- a :: c in cut
    ensures TrimLeft(a + s, cut) == TrimLeft(s, cut)
  {
    if a == "" {
      assert a + s == s;
    } else {
      assert (a + s)[0] == a[0] && (a + s)[1..] == a[1..] + s;
      TrimLeftSkips(a[1..], s, cut);
    }
  }

  lemma {:induction false} TrimRightSkips(s: string, b: string, cut: set<char>)
    requires forall c <- b :: c in cut
    ensures TrimRight(s + b, cut) == TrimRight(s, cut)
  {
    if b == "" {
      assert s + b == s;
    } else {
      var n := |b| - 1;
      assert (s + b)[|s + b| - 1] == b[n] && (s + b)[..|s + b| - 1] == s + b[..n];
      TrimRightSkips(s, b[..n], cut);
    }
  }

  /** What unicode.IsSpace accepts. */
  predicate IsSpace(c: char) {
    c in {' ', '\t', '\n', '\U{0B}', '\U{0C}', '\r', '\U{85}', '\U{A0}', '\U{1680}',
          '\U{2000}', '\U{2001}', '\U{2002}', '\U{2003}', '\U{2004}', '\U{2005}', '\U{2006}', '\U{2007}',
          '\U{2008}', '\U{2009}', '\U{200A}', '\U{2028}', '\U{2029}', '\U{202F}', '\U{205F}', '\U{3000}'}
  }

  /** strings.TrimSpace: spaces go from either end while there are any. */
  function TrimSpace(s: string): (t: string)
    ensures |t| <= |s|
    decreases |s|
  {
    if s == "" then ""
    else if IsSpace(s[0]) then TrimSpace(s[1..])
    else if IsSpace(s[|s| - 1]) then TrimSpace(s[..|s| - 1])
    else s
  }

  /** The same characters by their numbers. */
  lemma SpacesAre(c: char)
    ensures var n := c as int;
            IsSpace(c) <==>
              9 <= n <= 13 || n in {0x20, 0x85, 0xA0, 0x1680, 0x202F, 0x205F, 0x3000} ||
              0x2000 <= n <= 0x200A || 0x2028 <= n <= 0x2029
  {
  }

  /** Whatever spaces stand around a text that neither starts nor ends with one, the text is what is left. */
  lemma {:induction false} TrimSpaceMiddle(a: string, m: string, b: string)
    requires (forall c <- a :: IsSpace(c)) && (forall c <- b :: IsSpace(c))
    requires m == "" || (!IsSpace(m[0]) && !IsSpace(m[|m| - 1]))
    ensures TrimSpace(a + m + b) == m
    decreases |a| + |b|
  {
    var s := a + m + b;
    if a != "" {
      assert s[0] == a[0] && s[1..] == a[1..] + m + b;
      TrimSpaceMiddle(a[1..], m, b);
    } else if m == "" && b != "" {
      assert s[0] == b[0] && s[1..] == "" + m + b[1..];
      TrimSpaceMiddle("", m, b[1..]);
    } else if b != "" {
      var n := |b| - 1;
      assert s[0] == m[0] && s[|s| - 1] == b[n] && s[..|s| - 1] == "" + m + b[..n];
      TrimSpaceMiddle("", m, b[..n]);
    } else {
      assert s == m;
    }
  }

  /** What is left starts and ends with no space, so trimming it again changes nothing. */
  lemma {:induction false} TrimSpaceEnds(s: string)
    ensures var t := TrimSpace(s); t == "" || (!IsSpace(t[0]) && !IsSpace(t[|t| - 1]))
    ensures TrimSpace(TrimSpace(s)) == TrimSpace(s)
    decreases |s|
  {
    if s != "" {
      if IsSpace(s[0]) {
        TrimSpaceEnds(s[1..]);
      } else if IsSpace(s[|s| - 1]) {
        TrimSpaceEnds(s[..|s| - 1]);
      }
    }
  }

  /** Trimming only takes characters away. */
  lemma {:induction false} TrimSpaceLacks(s: string, c: char)
    requires c !in s
    ensures c !in TrimSpace(s)
    decreases |s|
  {
    if s != "" {
      if IsSpace(s[0]) {
        TrimSpaceLacks(s[1..], c);
      } else if IsSpace(s[|s| - 1]) {
        TrimSpaceLacks(s[..|s| - 1], c);
      }
    }
  }

  /** strings.TrimPrefix. */
  function TrimPrefix(s: string, prefix: string): string {
    if prefix <= s then s[|prefix|..] else s
  }

  /** One prefix is taken off, and a text without it is left alone. */
  lemma TrimPrefixOnce(prefix: string, rest: string)
    ensures TrimPrefix(prefix + rest, prefix) == rest
    ensures !(prefix <= rest) ==> TrimPrefix(rest, prefix) == rest
  {
    assert (prefix + rest)[|prefix|..] == rest;
  }

  // ----- strconv.Atoi -----

  predicate IsDigit(c: char) { '0' <= c <= '9' }

  function Digits(s: string): (n: nat)
    requires forall c | c in s :: IsDigit(c)
  {
    if s == [] then 0
    else
      assert IsDigit(s[|s| - 1]);
      Digits(s[..|s| - 1]) * 10 + (s[|s| - 1] as int - '0' as int)
  }

  predicate IsNumeral(s: string) { s != "" && forall c | c in s :: IsDigit(c) }

  const MAX_INT64: int := 0x7FFF_FFFF_FFFF_FFFF

  /** A decimal 64-bit integer with an optional sign; None for anything else. */
  function Atoi(s: string): (n: Option<int>)
    ensures n.Some? ==> -MAX_INT64 - 1 <= n.value <= MAX_INT64
  {
    var signed := s != "" && (s[0] == '-' || s[0] == '+');
    var digits := if signed then s[1..] else s;
    if !IsNumeral(digits) then None
    else
      var n: int := if s[0] == '-' then 0 - Digits(digits) else Digits(digits);
      if -MAX_INT64 - 1 <= n <= MAX_INT64 then Some(n) else None
  }

  /** The decimal form of a number. */
  function Decimal(n: nat): (s: string)
    ensures IsNumeral(s)
  {
    if n < 10 then ["0123456789"[n]] else Decimal(n / 10) + ["0123456789"[n % 10]]
  }

  lemma {:induction false} DigitsOfDecimal(n: nat)
    ensures Digits(Decimal(n)) == n
  {
    if n < 10 {
      assert Digits([]) == 0;
      assert Decimal(n)[..0] == [];
    } else {
      DigitsOfDecimal(n / 10);
      assert Decimal(n)[..|Decimal(n)| - 1] == Decimal(n / 10);
    }
  }

  /** A printed number is read back, with a sign or without one; a number that does not fit 64 bits is no number. */
  lemma AtoiOfDecimal(n: nat)
    ensures Atoi(Decimal(n)) == (if n <= MAX_INT64 then Some(n) else None)
    ensures Atoi("+" + Decimal(n)) == (if n <= MAX_INT64 then Some(n) else None)
    ensures Atoi("-" + Decimal(n)) == (if n <= MAX_INT64 + 1 then Some(0 - n) else None)
  {
    var s := Decimal(n);
    DigitsOfDecimal(n);
    assert s[0] in s && IsDigit(s[0]);
    assert ("+" + s)[1..] == s && ("-" + s)[1..] == s;
  }

  /** Anything else is not a number. */
  lemma AtoiNeedsDigits(s: string)
    requires Atoi(s).Some?
    ensures s != "" && (IsDigit(s[0]) || s[0] in {'+', '-'}) && forall i | 1 <= i < |s| :: IsDigit(s[i])
    ensures s[0] in {'+', '-'} ==> |s| > 1
  {
    var digits := if s[0] == '-' || s[0] == '+' then s[1..] else s;
    forall i | 1 <= i < |s| ensures IsDigit(s[i]) {
      assert s[i] == if digits == s then digits[i] else digits[i - 1];
    }
  }
}
