/** String helpers with the JavaScript and Python meanings the source relies
    on: single-character `split`, `join`, substring search, ASCII case
    mapping, `trim`, and decimal `parseInt`. */
module Text {
  import opened Wrappers

  predicate IsDigit(c: char) { '0' <= c <= '9' }

  predicate AllDigits(s: string) { forall i :: 0 <= i < |s| ==> IsDigit(s[i]) }

  /** `\d+`: a non-empty run of decimal digits. */
  predicate DigitRun(s: string) { |s| > 0 && AllDigits(s) }

  predicate StartsWith(s: string, prefix: string)
  {
    |prefix| <= |s| && s[..|prefix|] == prefix
  }

  /** `sub` occurs in `s` at position `i`. */
  predicate OccursAt(s: string, sub: string, i: nat)
  {
    i + |sub| <= |s| && s[i..i + |sub|] == sub
  }

  /** The first position at or after `from` where `sub` occurs. */
  function IndexOfFrom(s: string, sub: string, from: nat): (r: Option<nat>)
    ensures r.Some? ==> from <= r.value && OccursAt(s, sub, r.value)
    ensures r.Some? ==> forall j :: from <= j < r.value ==> !OccursAt(s, sub, j)
    ensures r.None? ==> forall j :: from <= j ==> !OccursAt(s, sub, j)
    decreases |s| - from
  {
    if from + |sub| > |s| then None
    else if s[from..from + |sub|] == sub then Some(from)
    else IndexOfFrom(s, sub, from + 1)
  }

  /** JavaScript `includes` / Python `in` on strings. */
  predicate Contains(s: string, sub: string)
  {
    IndexOfFrom(s, sub, 0).Some?
  }

  lemma ContainsAt(s: string, sub: string, i: nat)
    requires OccursAt(s, sub, i)
    ensures Contains(s, sub)
  {
  }

  /** The first index of character `c` in `s`. */
  function FirstIndex(s: string, c: char): (r: Option<nat>)
    ensures r.Some? ==> r.value < |s| && s[r.value] == c && c !in s[..r.value]
    ensures r.None? <==> c !in s
  {
    if |s| == 0 then None
    else if s[0] == c then Some(0)
    else
      var r := FirstIndex(s[1..], c);
      assert s[1..] == s[1..];
      if r.None? then (assert s == [s[0]] + s[1..]; None)
      else (assert s[..r.value + 1] == [s[0]] + s[1..][..r.value]; Some(r.value + 1))
  }

  /** `s.split(c)` for a one-character separator: always at least one field. */
  function Split(s: string, c: char): (r: seq<string>)
    ensures |r| >= 1
    ensures forall i :: 0 <= i < |r| ==> c !in r[i]
    decreases |s|
  {
    match FirstIndex(s, c)
    case None => [s]
    case Some(i) => [s[..i]] + Split(s[i + 1..], c)
  }

  /** `parts.join(c)`. */
  function Join(parts: seq<string>, c: char): (r: string)
  {
    if |parts| == 0 then ""
    else if |parts| == 1 then parts[0]
    else parts[0] + [c] + Join(parts[1..], c)
  }

  /** Joining the fields of a split gives back the string. */
  lemma {:induction false} JoinSplit(s: string, c: char)
    ensures Join(Split(s, c), c) == s
    decreases |s|
  {
    match FirstIndex(s, c)
    case None =>
    case Some(i) =>
      JoinSplit(s[i + 1..], c);
      var rest := Split(s[i + 1..], c);
      assert Split(s, c) == [s[..i]] + rest;
      assert (Split(s, c))[1..] == rest;
      assert s == s[..i] + [c] + s[i + 1..];
  }

  /** Splitting a join of separator-free fields gives back the fields. */
  lemma {:induction false} SplitJoin(parts: seq<string>, c: char)
    requires |parts| >= 1
    requires forall i :: 0 <= i < |parts| ==> c !in parts[i]
    ensures Split(Join(parts, c), c) == parts
  {
    if |parts| == 1 {
      assert Join(parts, c) == parts[0];
    } else {
      SplitJoin(parts[1..], c);
      SplitCons(parts[0], Join(parts[1..], c), c);
      assert parts == [parts[0]] + parts[1..];
    }
  }

  /** A separator-free field, the separator, and the rest split as that
      field followed by the fields of the rest. */
  lemma SplitCons(a: string, b: string, c: char)
    requires c !in a
    ensures Split(a + [c] + b, c) == [a] + Split(b, c)
  {
    var s := a + [c] + b;
    FirstSeparator(a, b, c);
    assert s[..|a|] == a;
    assert s[|a| + 1..] == b;
  }

  lemma FirstSeparator(a: string, b: string, c: char)
    requires c !in a
    ensures FirstIndex(a + [c] + b, c) == Some(|a|)
  {
    var s := a + [c] + b;
    assert s[|a|] == c;
    assert s[..|a|] == a;
    assert forall j :: 0 <= j < |a| ==> s[j] == a[j];
  }

  function LowerChar(c: char): char
  {
    if 'A' <= c <= 'Z' then (c as int + 32) as char else c
  }

  function UpperChar(c: char): char
  {
    if 'a' <= c <= 'z' then (c as int - 32) as char else c
  }

  /** `toLowerCase` restricted to ASCII letters. */
  function ToLower(s: string): (r: string)
    ensures |r| == |s| && forall i :: 0 <= i < |s| ==> r[i] == LowerChar(s[i])
  {
    if s == [] then [] else [LowerChar(s[0])] + ToLower(s[1..])
  }

  predicate IsSpace(c: char) { c == ' ' || c == '\t' || c == '\n' || c == '\r' }

  function TrimStart(s: string): (r: string)
    ensures |r| <= |s| && s[|s| - |r|..] == r
    ensures r != [] ==> !IsSpace(r[0])
  {
    if s != [] && IsSpace(s[0]) then TrimStart(s[1..]) else s
  }

  function TrimEnd(s: string): (r: string)
    ensures |r| <= |s| && s[..|r|] == r
    ensures r != [] ==> !IsSpace(r[|r| - 1])
  {
    if s != [] && IsSpace(s[|s| - 1]) then TrimEnd(s[..|s| - 1]) else s
  }

  /** `String.prototype.trim` (ASCII white space). */
  function Trim(s: string): string { TrimEnd(TrimStart(s)) }

  function DigitValue(c: char): nat requires IsDigit(c) { c as int - '0' as int }

  /** The value of a string of decimal digits. */
  function DigitsValue(s: string): (v: nat)
    requires AllDigits(s)
  {
    if s == [] then 0 else DigitsValue(s[..|s| - 1]) * 10 + DigitValue(s[|s| - 1])
  }

  /** The length of the leading digit run of `s`. */
  function LeadingDigits(s: string): (n: nat)
    ensures n <= |s| && AllDigits(s[..n]) && (n < |s| ==> !IsDigit(s[n]))
  {
    if s == [] || !IsDigit(s[0]) then 0
    else
      var n := LeadingDigits(s[1..]);
      assert s[..n + 1] == [s[0]] + s[1..][..n];
      n + 1
  }

  /** `parseInt(s, 10)` in JavaScript: leading white space, an optional sign,
      then the longest digit prefix; `None` plays NaN. */
  function ParseInt(s: string): (r: Option<int>)
  {
    var t := TrimStart(s);
    if t != [] && (t[0] == '-' || t[0] == '+') then
      var n := LeadingDigits(t[1..]);
      if n == 0 then None
      else
        var v: int := DigitsValue(t[1..][..n]);
        Some(if t[0] == '-' then -v else v)
    else
      var n := LeadingDigits(t);
      if n == 0 then None else Some(DigitsValue(t[..n]))
  }

  /** Decimal rendering of a natural number (`String(n)`). */
  function NatToString(n: nat): (s: string)
    ensures DigitRun(s)
    decreases n
  {
    if n < 10 then [('0' as int + n) as char]
    else NatToString(n / 10) + [('0' as int + n % 10) as char]
  }

  /** Decimal rendering of an integer, with a leading '-' when negative. */
  function IntToString(i: int): string
  {
    if i < 0 then "-" + NatToString(-i) else NatToString(i)
  }

  lemma {:induction false} DigitsOfNat(n: nat)
    ensures DigitsValue(NatToString(n)) == n
    decreases n
  {
    if n >= 10 {
      DigitsOfNat(n / 10);
      var s := NatToString(n);
      assert s[..|s| - 1] == NatToString(n / 10);
    }
  }

  /** `parseInt(String(n))` gives `n` back. */
  lemma ParseIntOfNat(n: nat)
    ensures ParseInt(NatToString(n)) == Some(n)
  {
    var s := NatToString(n);
    assert TrimStart(s) == s;
    AllDigitsLeading(s);
    DigitsOfNat(n);
    assert s[..|s|] == s;
  }

  lemma AllDigitsLeading(s: string)
    requires AllDigits(s)
    ensures LeadingDigits(s) == |s|
  {
    if s != [] {
      AllDigitsLeading(s[1..]);
    }
  }

  function HexDigit(d: nat): char
    requires d < 16
  {
    if d < 10 then ('0' as int + d) as char else ('a' as int + d - 10) as char
  }

  /** `v.toString(16).padStart(n, '0')` for a value below 16^n. */
  function HexPad(v: nat, n: nat): (s: string)
    ensures |s| == n
  {
    if n == 0 then [] else HexPad(v / 16, n - 1) + [HexDigit(v % 16)]
  }

  /** Leading white space is dropped up to the first other character. */
  lemma {:induction false} TrimStartPast(pre: string, s: string)
    requires forall i :: 0 <= i < |pre| ==> IsSpace(pre[i])
    requires s != [] && !IsSpace(s[0])
    ensures TrimStart(pre + s) == s
    decreases |pre|
  {
    if pre == [] {
      assert pre + s == s;
    } else {
      var t := pre + s;
      assert t[0] == pre[0] && IsSpace(t[0]);
      assert t[1..] == pre[1..] + s;
      assert TrimStart(t) == TrimStart(t[1..]);
      TrimStartPast(pre[1..], s);
    }
  }

  /** Trailing white space is dropped no further back than a character
      that is not white space. */
  lemma {:induction false} TrimEndKeeps(s: string, k: nat)
    requires 0 < k <= |s| && !IsSpace(s[k - 1])
    ensures |TrimEnd(s)| >= k
    decreases |s|
  {
    if |s| > k {
      TrimEndKeeps(s[..|s| - 1], k);
    }
  }

  /** A digit run followed by something that is not a digit is the whole
      leading digit run. */
  lemma {:induction false} LeadingDigitsOf(d: string, rest: string)
    requires AllDigits(d)
    requires rest == [] || !IsDigit(rest[0])
    ensures LeadingDigits(d + rest) == |d|
    decreases |d|
  {
    if d == [] {
      assert d + rest == rest;
    } else {
      assert (d + rest)[1..] == d[1..] + rest;
      LeadingDigitsOf(d[1..], rest);
    }
  }
  /** `\d+` at the front of `s`, as a regular expression consumes it: the
      value of the longest digit prefix and the text after it. */
  function Number(s: string): Option<(nat, string)>
  {
    var n := LeadingDigits(s);
    if n == 0 then None else Some((DigitsValue(s[..n]), s[n..]))
  }

  /** A rendered number followed by a non-digit is read back whole. */
  lemma NumberOf(n: nat, rest: string)
    requires rest == [] || !IsDigit(rest[0])
    ensures Number(NatToString(n) + rest) == Some((n, rest))
  {
    var d := NatToString(n);
    LeadingDigitsOf(d, rest);
    assert (d + rest)[..|d|] == d;
    assert (d + rest)[|d|..] == rest;
    DigitsOfNat(n);
  }

  /** The text after `prefix`, when `s` starts with it. */
  function Expect(s: string, prefix: string): Option<string>
  {
    if StartsWith(s, prefix) then Some(s[|prefix|..]) else None
  }

  lemma ExpectOf(prefix: string, rest: string)
    ensures Expect(prefix + rest, prefix) == Some(rest)
  {
    assert (prefix + rest)[..|prefix|] == prefix;
    assert (prefix + rest)[|prefix|..] == rest;
  }

  /** The text before the first `c` and the text after it; `None` when `c`
      does not occur. */
  function SplitFirst(s: string, c: char): Option<(string, string)>
  {
    if s == [] then None
    else if s[0] == c then Some(([], s[1..]))
    else
      match SplitFirst(s[1..], c)
      case None => None
      case Some((x, y)) => Some(([s[0]] + x, y))
  }

  /** The split is at the first `c`: a text free of `c`, then `c`, is
      split right there. */
  lemma {:induction false} SplitFirstOf(x: string, c: char, rest: string)
    requires c !in x
    ensures SplitFirst(x + ([c] + rest), c) == Some((x, rest))
  {
    if x == [] {
      assert x + ([c] + rest) == [c] + rest;
    } else {
      SplitFirstOf(x[1..], c, rest);
      assert (x + ([c] + rest))[1..] == x[1..] + ([c] + rest);
      assert [x[0]] + x[1..] == x;
    }
  }

  /** `s.split(sep)` for a non-empty separator: the texts between the
      occurrences of `sep`, found left to right without overlap. */
  function SplitOn(s: string, sep: string): (r: seq<string>)
    requires |sep| > 0
    ensures |r| >= 1
    decreases |s|
  {
    match IndexOfFrom(s, sep, 0)
    case None => [s]
    case Some(i) => [s[..i]] + SplitOn(s[i + |sep|..], sep)
  }

  /** `parts.join(sep)`. */
  function JoinOn(parts: seq<string>, sep: string): string
  {
    if |parts| == 0 then ""
    else if |parts| == 1 then parts[0]
    else parts[0] + sep + JoinOn(parts[1..], sep)
  }

  /** The pieces of a split, joined again with the separator, give back the
      text. */
  lemma {:induction false} JoinSplitOn(s: string, sep: string)
    requires |sep| > 0
    ensures JoinOn(SplitOn(s, sep), sep) == s
    decreases |s|
  {
    match IndexOfFrom(s, sep, 0)
    case None =>
    case Some(i) =>
      var rest := s[i + |sep|..];
      JoinSplitOn(rest, sep);
      var parts := [s[..i]] + SplitOn(rest, sep);
      assert parts[1..] == SplitOn(rest, sep);
      assert JoinOn(parts, sep) == s[..i] + sep + JoinOn(SplitOn(rest, sep), sep);
      Around(s, sep, i);
  }

  /** A text is what comes before an occurrence, the occurrence, and what
      comes after it. */
  lemma Around(s: string, sub: string, i: nat)
    requires OccursAt(s, sub, i)
    ensures s == s[..i] + sub + s[i + |sub|..]
  {
    assert s[..i] + s[i..i + |sub|] + s[i + |sub|..] == s;
  }
}
