/** Python string operations the drivers rely on, over `string` (= `seq<char>`).
    Only the ASCII behaviour of `upper`, `title` and `int()` is modelled. */
module Text {
  import opened Wrappers

  predicate IsDigit(c: char) { '0' <= c <= '9' }

  predicate IsLower(c: char) { 'a' <= c <= 'z' }

  predicate IsUpper(c: char) { 'A' <= c <= 'Z' }

  predicate IsAlpha(c: char) { IsLower(c) || IsUpper(c) }

  predicate StartsWith(s: string, prefix: string) {
    |prefix| <= |s| && s[..|prefix|] == prefix
  }

  predicate EndsWith(s: string, suffix: string) {
    |suffix| <= |s| && s[|s| - |suffix|..] == suffix
  }

  /** `c in s` for a one-character string. */
  predicate Contains(s: string, c: char) { c in s }

  /** `s.find(c)`: the index of the first `c`, or -1. */
  function Find(s: string, c: char): (i: int)
    ensures i == -1 <==> c !in s
    ensures i != -1 ==> 0 <= i < |s| && s[i] == c && c !in s[..i]
  {
    if s == [] then -1
    else if s[0] == c then 0
    else
      var j := Find(s[1..], c);
      if j == -1 then -1
      else
        assert s[..j + 1] == [s[0]] + s[1..][..j];
        j + 1
  }

  /** `str.upper()` restricted to ASCII letters. */
  function Upper(s: string): (r: string)
    ensures |r| == |s|
    ensures forall i :: 0 <= i < |s| ==> r[i] == (if IsLower(s[i]) then s[i] - 'a' + 'A' else s[i])
  {
    if s == [] then [] else [if IsLower(s[0]) then s[0] - 'a' + 'A' else s[0]] + Upper(s[1..])
  }

  function LowerChar(c: char): char {
    if IsUpper(c) then c - 'A' + 'a' else c
  }

  function UpperChar(c: char): char {
    if IsLower(c) then c - 'a' + 'A' else c
  }

  /** `str.title()` restricted to ASCII: a letter that follows a letter is
      lower-cased, every other letter is upper-cased. */
  function Title(s: string): (r: string)
    ensures |r| == |s|
  {
    TitleFrom(s, false)
  }

  function TitleFrom(s: string, afterLetter: bool): (r: string)
    ensures |r| == |s|
    ensures forall i :: 0 <= i < |s| ==> IsAlpha(r[i]) == IsAlpha(s[i])
  {
    if s == [] then []
    else
      var c := if !IsAlpha(s[0]) then s[0] else if afterLetter then LowerChar(s[0]) else UpperChar(s[0]);
      [c] + TitleFrom(s[1..], IsAlpha(s[0]))
  }

  /** `str.lower()` restricted to ASCII letters. */
  function LowerAll(s: string): (r: string)
    ensures |r| == |s|
    ensures forall i :: 0 <= i < |s| ==> r[i] == LowerChar(s[i])
  {
    if s == [] then [] else [LowerChar(s[0])] + LowerAll(s[1..])
  }

  lemma {:induction false} TitleAfterLetter(s: string)
    requires forall i :: 0 <= i < |s| ==> IsAlpha(s[i])
    ensures TitleFrom(s, true) == LowerAll(s)
  {
    if s != [] {
      TitleAfterLetter(s[1..]);
    }
  }

  /** A single word title-cases to its capitalised first letter followed by
      the rest in lower case. */
  lemma TitleWord(s: string)
    requires |s| >= 1 && forall i :: 0 <= i < |s| ==> IsAlpha(s[i])
    ensures Title(s) == [UpperChar(s[0])] + LowerAll(s[1..])
  {
    TitleAfterLetter(s[1..]);
  }

  /** Number of leading characters of `s` that are in `chars`. */
  function LeadingCount(s: string, chars: set<char>): (n: nat)
    ensures n <= |s|
    ensures forall k :: 0 <= k < n ==> s[k] in chars
    ensures n < |s| ==> s[n] !in chars
  {
    if s == [] || s[0] !in chars then 0 else 1 + LeadingCount(s[1..], chars)
  }

  /** Number of trailing characters of `s` that are in `chars`. */
  function TrailingCount(s: string, chars: set<char>): (n: nat)
    ensures n <= |s|
    ensures forall k :: |s| - n <= k < |s| ==> s[k] in chars
    ensures n < |s| ==> s[|s| - n - 1] !in chars
  {
    if s == [] || s[|s| - 1] !in chars then 0 else 1 + TrailingCount(s[..|s| - 1], chars)
  }

  /** `s.strip(chars)`: drops every leading and trailing character that is in `chars`. */
  function Strip(s: string, chars: set<char>): (r: string)
    ensures |r| <= |s|
    ensures r != [] ==> r[0] !in chars && r[|r| - 1] !in chars
    ensures (forall k :: 0 <= k < |s| ==> s[k] in chars) ==> r == []
  {
    var t := s[LeadingCount(s, chars)..];
    t[..|t| - TrailingCount(t, chars)]
  }

  /** A string whose ends are kept is returned unchanged. */
  lemma StripKeeps(s: string, chars: set<char>)
    requires s != [] && s[0] !in chars && s[|s| - 1] !in chars
    ensures Strip(s, chars) == s
  {
    assert LeadingCount(s, chars) == 0;
    assert s[0..] == s;
    assert TrailingCount(s, chars) == 0;
  }

  /** The characters `strip(' \t\r\n')` removes in the transport layer. */
  const LineSpace: set<char> := {' ', '\t', '\r', '\n'}

  /** The characters Python's `int()` ignores around a number (ASCII whitespace). */
  const Whitespace: set<char> := {' ', '\t', '\r', '\n', '\U{000B}', '\U{000C}'}

  /** `s.split(sep)` for a one-character separator: never empty, and no field
      contains the separator. */
  function Split(s: string, sep: char): (r: seq<string>)
    ensures |r| >= 1
    ensures forall i :: 0 <= i < |r| ==> sep !in r[i]
    ensures |r| == 1 <==> sep !in s
  {
    if s == [] then [""]
    else
      var rest := Split(s[1..], sep);
      if s[0] == sep then [""] + rest
      else [[s[0]] + rest[0]] + rest[1..]
  }

  /** `sep.join(parts)`. */
  function Join(parts: seq<string>, sep: char): string {
    if parts == [] then ""
    else if |parts| == 1 then parts[0]
    else parts[0] + [sep] + Join(parts[1..], sep)
  }

  /** Joining fields free of the separator and splitting again gives them back. */
  lemma {:induction false} SplitJoin(parts: seq<string>, sep: char)
    requires |parts| >= 1
    requires forall i :: 0 <= i < |parts| ==> sep !in parts[i]
    ensures Split(Join(parts, sep), sep) == parts
  {
    if |parts| == 1 {
      SplitNoSep(parts[0], sep);
    } else {
      SplitJoin(parts[1..], sep);
      SplitAppend(parts[0], Join(parts[1..], sep), sep);
      assert [parts[0]] + parts[1..] == parts;
    }
  }

  lemma {:induction false} SplitNoSep(s: string, sep: char)
    requires sep !in s
    ensures Split(s, sep) == [s]
  {
    if s != [] {
      SplitNoSep(s[1..], sep);
      assert [s[0]] + s[1..] == s;
    }
  }

  /** Splitting `a + [sep] + b` where `a` holds no separator. */
  lemma {:induction false} SplitAppend(a: string, b: string, sep: char)
    requires sep !in a
    ensures Split(a + [sep] + b, sep) == [a] + Split(b, sep)
  {
    var s := a + [sep] + b;
    if a == [] {
      assert s == [sep] + b;
      assert s[1..] == b;
    } else {
      assert s[1..] == a[1..] + [sep] + b;
      SplitAppend(a[1..], b, sep);
      assert [a[0]] + a[1..] == a;
    }
  }

  /** Splitting and re-joining on the same separator gives back the string. */
  lemma {:induction false} JoinSplit(s: string, sep: char)
    ensures Join(Split(s, sep), sep) == s
  {
    if s != [] {
      var rest := Split(s[1..], sep);
      JoinSplit(s[1..], sep);
      if s[0] == sep {
        assert Split(s, sep) == [""] + rest;
        assert Join([""] + rest, sep) == "" + [sep] + Join(rest, sep);
      } else {
        var r := [[s[0]] + rest[0]] + rest[1..];
        assert Split(s, sep) == r;
        if |rest| == 1 {
          assert Join(r, sep) == [s[0]] + rest[0];
        } else {
          assert r[1..] == rest[1..];
          assert Join(rest, sep) == rest[0] + [sep] + Join(rest[1..], sep);
          assert Join(r, sep) == [s[0]] + rest[0] + [sep] + Join(rest[1..], sep);
        }
      }
    }
  }

  /** Occurrences of `pattern` are replaced left to right, as `str.replace` does. */
  function ReplaceAll(s: string, pattern: string, repl: string): (r: string)
    requires |pattern| > 0
    decreases |s|
  {
    if |s| < |pattern| then s
    else if s[..|pattern|] == pattern then repl + ReplaceAll(s[|pattern|..], pattern, repl)
    else [s[0]] + ReplaceAll(s[1..], pattern, repl)
  }

  predicate OccursAt(s: string, pattern: string, i: int) {
    0 <= i && i + |pattern| <= |s| && s[i..i + |pattern|] == pattern
  }

  predicate Occurs(s: string, pattern: string) {
    exists i :: 0 <= i <= |s| && OccursAt(s, pattern, i)
  }

  /** A string without the pattern is left unchanged. */
  lemma {:induction false} ReplaceAbsent(s: string, pattern: string, repl: string)
    requires |pattern| > 0
    requires !Occurs(s, pattern)
    ensures ReplaceAll(s, pattern, repl) == s
    decreases |s|
  {
    if |s| >= |pattern| {
      assert !OccursAt(s, pattern, 0);
      assert s[0..|pattern|] == s[..|pattern|];
      assert !Occurs(s[1..], pattern) by {
        if Occurs(s[1..], pattern) {
          var i :| 0 <= i <= |s[1..]| && OccursAt(s[1..], pattern, i);
          assert s[1..][i..i + |pattern|] == s[i + 1..i + 1 + |pattern|];
          assert OccursAt(s, pattern, i + 1);
        }
      }
      ReplaceAbsent(s[1..], pattern, repl);
    }
  }

  /** Removing a prefix that does not occur again strips exactly that prefix. */
  lemma ReplacePrefix(rest: string, prefix: string)
    requires |prefix| > 0
    requires !Occurs(rest, prefix)
    ensures ReplaceAll(prefix + rest, prefix, "") == rest
  {
    var s := prefix + rest;
    assert s[..|prefix|] == prefix;
    assert s[|prefix|..] == rest;
    ReplaceAbsent(rest, prefix, "");
  }

  function DigitChar(d: nat): char
    requires d < 10
  {
    '0' + d as char
  }

  /** Decimal rendering of a natural number, as `'%d' % n` writes it. */
  function NatToString(n: nat): (r: string)
    ensures |r| >= 1
    ensures forall i :: 0 <= i < |r| ==> IsDigit(r[i])
    ensures |r| > 1 ==> r[0] != '0'
  {
    if n < 10 then [DigitChar(n)] else NatToString(n / 10) + [DigitChar(n % 10)]
  }

  /** Decimal rendering with a leading '-' for negative numbers. */
  function IntToString(i: int): (r: string)
    ensures |r| >= 1
  {
    if i < 0 then "-" + NatToString(-i) else NatToString(i)
  }

  function DigitsValue(s: string): (n: nat)
    requires forall i :: 0 <= i < |s| ==> IsDigit(s[i])
  {
    if s == [] then 0
    else
      var last := s[|s| - 1];
      assert IsDigit(last);
      DigitsValue(s[..|s| - 1]) * 10 + (last as int - '0' as int)
  }

  /** Reading back a rendered number gives the number. */
  lemma {:induction false} DigitsOfNat(n: nat)
    ensures DigitsValue(NatToString(n)) == n
  {
    if n >= 10 {
      var r := NatToString(n);
      DigitsOfNat(n / 10);
      assert r[..|r| - 1] == NatToString(n / 10);
    }
  }

  /** Distinct numbers render to distinct strings. */
  lemma NatToStringInjective(a: nat, b: nat)
    requires NatToString(a) == NatToString(b)
    ensures a == b
  {
    DigitsOfNat(a);
    DigitsOfNat(b);
  }

  /** The digit/underscore body Python's `int()` accepts: digits, with single
      underscores allowed only between two digits. */
  predicate IsDigitBody(s: string) {
    |s| >= 1 && IsDigit(s[0]) && IsDigit(s[|s| - 1])
    && (forall i :: 0 <= i < |s| ==> IsDigit(s[i]) || s[i] == '_')
    && (forall i :: 0 <= i < |s| - 1 ==> !(s[i] == '_' && s[i + 1] == '_'))
  }

  function DropUnderscores(s: string): (r: string)
    ensures forall i :: 0 <= i < |r| ==> r[i] != '_'
    ensures (forall i :: 0 <= i < |s| ==> IsDigit(s[i]) || s[i] == '_') ==> forall i :: 0 <= i < |r| ==> IsDigit(r[i])
  {
    if s == [] then [] else (if s[0] == '_' then [] else [s[0]]) + DropUnderscores(s[1..])
  }

  /** Splits an optional leading sign off `t`: (negative?, rest). */
  function SignSplit(t: string): (bool, string) {
    if t != [] && t[0] == '-' then (true, t[1..])
    else if t != [] && t[0] == '+' then (false, t[1..])
    else (false, t)
  }

  /** Python's `int(s)` on a string: surrounding whitespace and one sign are
      allowed, then a decimal digit body; anything else is a ValueError (`None`). */
  function PyInt(s: string): (r: Option<int>)
    ensures r.Some? ==> Strip(s, Whitespace) != []
  {
    var t := Strip(s, Whitespace);
    var (neg, body) := SignSplit(t);
    if !IsDigitBody(body) then None
    else
      var v: int := DigitsValue(DropUnderscores(body));
      Some(if neg then -v else v)
  }

  /** `int()` reads back what `'%d'` writes. */
  lemma PyIntOfIntToString(i: int)
    ensures PyInt(IntToString(i)) == Some(i)
  {
    if i < 0 {
      ReadsNegative(i);
    } else {
      ReadsNatural(i);
    }
  }

  /** `int()` reads a rendered natural number back. */
  lemma ReadsNatural(i: int)
    requires i >= 0
    ensures PyInt(IntToString(i)) == Some(i)
  {
    var s := NatToString(i);
    assert IntToString(i) == s;
    BodyOfNat(i);
    DigitNotSpace(s[0]);
    DigitNotSpace(s[|s| - 1]);
    StripKeeps(s, Whitespace);
    assert SignSplit(s) == (false, s);
    ReadsBody(s, false, s, i);
  }

  /** `int()` reads a rendered negative number back. */
  lemma ReadsNegative(i: int)
    requires i < 0
    ensures PyInt(IntToString(i)) == Some(i)
  {
    var digits := NatToString(-i);
    BodyOfNat(-i);
    var s := SignedDigits(digits);
    StripKeeps(s, Whitespace);
    ReadsBody(s, true, digits, -i);
  }

  /** A '-' followed by a digit body: nothing to strip, and the sign splits
      off the body. */
  lemma SignedDigits(digits: string) returns (s: string)
    requires IsDigitBody(digits)
    ensures s == "-" + digits
    ensures s != [] && s[0] !in Whitespace && s[|s| - 1] !in Whitespace
    ensures SignSplit(s) == (true, digits)
  {
    s := "-" + digits;
    assert s[1..] == digits;
    DigitNotSpace(digits[|digits| - 1]);
    assert s[|s| - 1] == digits[|digits| - 1];
  }

  /** A digit is not whitespace. */
  lemma DigitNotSpace(c: char)
    requires IsDigit(c)
    ensures c !in Whitespace
  {
  }

  /** A string with nothing to strip whose sign splits off a digit body
      reads as that body's value, negated after a '-'. */
  lemma ReadsBody(s: string, neg: bool, body: string, v: int)
    requires Strip(s, Whitespace) == s && SignSplit(s) == (neg, body) && IsDigitBody(body)
    requires DigitsValue(DropUnderscores(body)) == v
    ensures PyInt(s) == Some(if neg then -v else v)
  {
  }

  /** A rendered natural number is a valid `int()` body whose value is the number. */
  lemma BodyOfNat(n: nat)
    ensures IsDigitBody(NatToString(n))
    ensures DigitsValue(DropUnderscores(NatToString(n))) == n
  {
    NoUnderscores(NatToString(n));
    DigitsOfNat(n);
  }

  lemma {:induction false} NoUnderscores(s: string)
    requires forall i :: 0 <= i < |s| ==> IsDigit(s[i])
    ensures DropUnderscores(s) == s
  {
    if s != [] {
      NoUnderscores(s[1..]);
    }
  }
}
