/**
 * The string operations the three programs lean on, written out: Python's
 * str.strip, str.upper, str.split(sep), str.join, string ordering, str(int)
 * and int(text), restricted to what the programs feed them.
 */
module Text {
  import opened Results

  /** Python's str.isspace, for the ASCII range and the two Latin-1 spaces. */
  predicate IsSpace(c: char) {
    c == ' ' || ('\t' <= c <= '\r') || ('\U{1C}' <= c <= '\U{1F}') || c == '\U{85}' || c == '\U{A0}'
  }

  /** Drops leading whitespace (str.lstrip()). */
  function TrimLeft(s: string): (r: string)
    ensures |r| <= |s| && r == s[|s| - |r|..]
    ensures r == [] || !IsSpace(r[0])
    ensures forall i | 0 <= i < |s| - |r| :: IsSpace(s[i])
  {
    if s != [] && IsSpace(s[0]) then TrimLeft(s[1..]) else s
  }

  /** Drops trailing whitespace (str.rstrip()). */
  function TrimRight(s: string): (r: string)
    ensures |r| <= |s| && r == s[..|r|]
    ensures r == [] || !IsSpace(r[|r| - 1])
    ensures forall i | |r| <= i < |s| :: IsSpace(s[i])
  {
    if s != [] && IsSpace(s[|s| - 1]) then TrimRight(s[..|s| - 1]) else s
  }

  /** A string with no whitespace at either end: what str.strip() returns. */
  predicate IsStripped(s: string) {
    s == [] || (!IsSpace(s[0]) && !IsSpace(s[|s| - 1]))
  }

  /** Whether r is s with some whitespace cut off at each end: s[i..i + |r|], with only whitespace around it. */
  predicate TrimmedAt(s: string, r: string, i: int) {
    0 <= i <= |s| - |r| && r == s[i..i + |r|]
    && (forall k | 0 <= k < i :: IsSpace(s[k]))
    && (forall k | i + |r| <= k < |s| :: IsSpace(s[k]))
  }

  /** str.strip(): the result has no whitespace at either end. */
  function Strip(s: string): (r: string)
    ensures IsStripped(r)
  {
    if s != [] && IsSpace(s[0]) then
      Strip(s[1..])
    else
      var r := TrimRight(s);
      assert r != [] ==> r[0] == s[0];
      r
  }

  /** What str.strip() returns is the input with only its leading and trailing whitespace removed. */
  lemma {:induction false} StripTrims(s: string)
    ensures exists i :: TrimmedAt(s, Strip(s), i)
  {
    var r := Strip(s);
    if s != [] && IsSpace(s[0]) {
      StripTrims(s[1..]);
      var i :| TrimmedAt(s[1..], r, i);
      assert forall k | 0 <= k < |r| :: r[k] == s[1..][i + k] == s[i + 1 + k];
      assert r == s[i + 1..i + 1 + |r|];
      assert forall k | 1 <= k < i + 1 :: s[k] == s[1..][k - 1];
      assert forall k | i + 1 + |r| <= k < |s| :: s[k] == s[1..][k - 1];
      assert TrimmedAt(s, r, i + 1);
    } else {
      assert TrimmedAt(s, r, 0);
    }
  }

  /** str.strip() gives the empty string exactly when the input is all whitespace. */
  lemma {:induction false} StripBlank(s: string)
    ensures Strip(s) == [] <==> forall i | 0 <= i < |s| :: IsSpace(s[i])
  {
    if s != [] && IsSpace(s[0]) {
      StripBlank(s[1..]);
      assert (forall i | 0 <= i < |s| :: IsSpace(s[i])) <==> (forall i | 0 <= i < |s| - 1 :: IsSpace(s[1..][i]));
    }
  }

  /** Stripping a string that is already stripped changes nothing. */
  lemma StripStripped(s: string)
    requires IsStripped(s)
    ensures Strip(s) == s
  {
    if s != [] {
      assert TrimLeft(s) == s;
      assert TrimRight(s) == s;
    }
  }

  /** Stripping a line that ends in a newline gives back the line without it, when the line itself is stripped and not empty. */
  lemma StripLine(s: string)
    requires s != [] && IsStripped(s)
    ensures Strip(s + "\n") == s
  {
    var t := s + "\n";
    assert TrimLeft(t) == t;
    assert t[..|t| - 1] == s;
    assert TrimRight(t) == TrimRight(s);
    assert TrimRight(s) == s;
  }

  /** str.upper() on ASCII letters. */
  function Upper(s: string): (r: string)
    ensures |r| == |s|
  {
    if s == [] then [] else [if 'a' <= s[0] <= 'z' then s[0] - 'a' + 'A' else s[0]] + Upper(s[1..])
  }

  /** str.upper() maps each lower-case ASCII letter to its capital and leaves every other character as it is. */
  lemma {:induction false} UpperChars(s: string)
    ensures forall i | 0 <= i < |s| :: Upper(s)[i] == (if 'a' <= s[i] <= 'z' then s[i] - 'a' + 'A' else s[i])
  {
    if s != [] {
      UpperChars(s[1..]);
      forall i | 0 <= i < |s|
        ensures Upper(s)[i] == (if 'a' <= s[i] <= 'z' then s[i] - 'a' + 'A' else s[i])
      {
        if i > 0 {
          assert Upper(s)[i] == Upper(s[1..])[i - 1];
        }
      }
    }
  }

  /**
   * str.split(sep): the pieces between separators, in order, including empty
   * ones; the empty string splits into one empty piece.
   */
  function Split(s: string, sep: char): (r: seq<string>)
    ensures |r| >= 1
    ensures forall i | 0 <= i < |r| :: sep !in r[i]
  {
    if s == [] then [[]]
    else if s[0] == sep then [[]] + Split(s[1..], sep)
    else
      var rest := Split(s[1..], sep);
      [[s[0]] + rest[0]] + rest[1..]
  }

  /** sep.join(parts). */
  function Join(parts: seq<string>, sep: char): string {
    if parts == [] then []
    else if |parts| == 1 then parts[0]
    else parts[0] + [sep] + Join(parts[1..], sep)
  }

  lemma {:induction false} SplitNoSep(p: string, sep: char)
    requires sep !in p
    ensures Split(p, sep) == [p]
  {
    if p != [] {
      SplitNoSep(p[1..], sep);
      assert [p[0]] + p[1..] == p;
    }
  }

  lemma {:induction false} SplitCons(p: string, sep: char, rest: string)
    requires sep !in p
    ensures Split(p + [sep] + rest, sep) == [p] + Split(rest, sep)
  {
    if p == [] {
      assert p + [sep] + rest == [sep] + rest;
      assert ([sep] + rest)[1..] == rest;
    } else {
      var t := p + [sep] + rest;
      assert t[0] == p[0];
      assert t[1..] == p[1..] + [sep] + rest;
      SplitCons(p[1..], sep, rest);
      assert [p[0]] + p[1..] == p;
    }
  }

  /** Splitting a join on the same separator gives back the parts, when no part holds the separator. */
  lemma {:induction false} SplitJoin(parts: seq<string>, sep: char)
    requires |parts| >= 1
    requires forall i | 0 <= i < |parts| :: sep !in parts[i]
    ensures Split(Join(parts, sep), sep) == parts
  {
    if |parts| == 1 {
      SplitNoSep(parts[0], sep);
    } else {
      SplitJoin(parts[1..], sep);
      SplitCons(parts[0], sep, Join(parts[1..], sep));
      assert [parts[0]] + parts[1..] == parts;
    }
  }

  /** Python's a <= b on strings: lexicographic by code point. */
  predicate LexLe(a: string, b: string) {
    a == [] || (b != [] && (a[0] < b[0] || (a[0] == b[0] && LexLe(a[1..], b[1..]))))
  }

  lemma {:induction false} LexLeRefl(a: string)
    ensures LexLe(a, a)
  {
    if a != [] {
      LexLeRefl(a[1..]);
    }
  }

  lemma {:induction false} LexLeTotal(a: string, b: string)
    ensures LexLe(a, b) || LexLe(b, a)
  {
    if a != [] && b != [] && a[0] == b[0] {
      LexLeTotal(a[1..], b[1..]);
    }
  }

  lemma {:induction false} LexLeTrans(a: string, b: string, c: string)
    requires LexLe(a, b) && LexLe(b, c)
    ensures LexLe(a, c)
  {
    if a != [] && b != [] && c != [] && a[0] == b[0] && b[0] == c[0] {
      LexLeTrans(a[1..], b[1..], c[1..]);
    }
  }

  lemma {:induction false} LexLeAntisym(a: string, b: string)
    requires LexLe(a, b) && LexLe(b, a)
    ensures a == b
  {
    if a != [] && b != [] {
      LexLeAntisym(a[1..], b[1..]);
      assert a == [a[0]] + a[1..] && b == [b[0]] + b[1..];
    }
  }

  predicate IsDigit(c: char) { '0' <= c <= '9' }

  predicate AllDigits(s: string) { forall i | 0 <= i < |s| :: IsDigit(s[i]) }

  /** The value of a non-empty run of decimal digits; None for anything else. */
  function ParseDigits(s: string): (r: Option<nat>)
    ensures r.Some? <==> s != [] && AllDigits(s)
  {
    if s == [] || !IsDigit(s[|s| - 1]) then None
    else if |s| == 1 then Some((s[0] - '0') as nat)
    else match ParseDigits(s[..|s| - 1])
      case None => None
      case Some(v) => Some(10 * v + (s[|s| - 1] - '0') as nat)
  }

  /** str(n) for a natural number. */
  function NatToString(n: nat): (r: string)
    ensures r != [] && AllDigits(r)
  {
    if n < 10 then ['0' + n as char]
    else NatToString(n / 10) + ['0' + (n % 10) as char]
  }

  /** Reading back the decimal text of a number gives the number. */
  lemma {:induction false} ParseNatToString(n: nat)
    ensures ParseDigits(NatToString(n)) == Some(n)
  {
    if n >= 10 {
      var s := NatToString(n);
      ParseNatToString(n / 10);
      assert s[..|s| - 1] == NatToString(n / 10);
    }
  }

  /** int(text) for text that is an optionally signed run of ASCII digits, possibly with surrounding whitespace. */
  function ParseInt(text: string): (r: Option<int>)
    ensures AllDigits(Strip(text)) && Strip(text) != [] ==> r == Some(ParseDigits(Strip(text)).value as int)
  {
    var t := Strip(text);
    if t != [] && (t[0] == '-' || t[0] == '+') then
      match ParseDigits(t[1..])
      case None => None
      case Some(v) => Some(if t[0] == '-' then -(v as int) else v as int)
    else
      match ParseDigits(t)
      case None => None
      case Some(v) => Some(v as int)
  }

  /** Decimal text written by NatToString is read back by int(). */
  lemma ParseIntNatToString(n: nat)
    ensures ParseInt(NatToString(n)) == Some(n as int)
  {
    var s := NatToString(n);
    assert IsStripped(s);
    StripStripped(s);
    ParseNatToString(n);
  }

  /** str(n) for any integer: a minus sign before the digits of a negative number. */
  function IntToString(n: int): (r: string)
    ensures r != [] && IsStripped(r)
  {
    if n < 0 then "-" + NatToString(-n) else NatToString(n)
  }

  /** int() reads back what str() wrote for every integer. */
  lemma ParseIntToString(n: int)
    ensures ParseInt(IntToString(n)) == Some(n)
  {
    var s := IntToString(n);
    StripStripped(s);
    if n < 0 {
      ParseNatToString(-n);
      assert s[1..] == NatToString(-n);
    } else {
      ParseIntNatToString(n);
    }
  }
}
