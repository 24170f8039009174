/** The few JavaScript string and number built-ins the extension relies on,
    stated over `seq<char>`: `String.prototype.trim`, `parseInt(s, 10)`,
    `String(n)` for an integer `n`, `split` and `replace` with a one-character
    pattern, and `split("").reverse()`. Numbers are unbounded integers and
    `NaN` is `None`. */
module JsText {
  import opened Wrappers

  /** The characters `trim` removes and `\s` matches: the ECMAScript
      WhiteSpace and LineTerminator code points. */
  predicate IsWhitespace(c: char) {
    c == '\t' || c == '\n' || c == '\U{B}' || c == '\U{C}' || c == '\r' || c == ' '
    || c == '\U{A0}' || c == '\U{1680}' || ('\U{2000}' <= c <= '\U{200A}')
    || c == '\U{2028}' || c == '\U{2029}' || c == '\U{202F}' || c == '\U{205F}'
    || c == '\U{3000}' || c == '\U{FEFF}'
  }

  predicate AllWhitespace(s: string) {
    forall i :: 0 <= i < |s| ==> IsWhitespace(s[i])
  }

  predicate IsDigit(c: char) { '0' <= c <= '9' }

  predicate AllDigits(s: string) {
    forall i :: 0 <= i < |s| ==> IsDigit(s[i])
  }

  /** Leading white space removed. */
  function TrimStart(s: string): (r: string)
    ensures |r| <= |s| && r == s[|s| - |r|..]
    ensures AllWhitespace(s[..|s| - |r|])
    ensures r == [] || !IsWhitespace(r[0])
  {
    if s != [] && IsWhitespace(s[0]) then
      var r := TrimStart(s[1..]);
      assert s[..|s| - |r|] == [s[0]] + s[1..][..|s| - 1 - |r|];
      assert s[1..][|s| - 1 - |r|..] == s[|s| - |r|..];
      r
    else s
  }

  /** Trailing white space removed. */
  function TrimEnd(s: string): (r: string)
    ensures |r| <= |s| && r == s[..|r|]
    ensures AllWhitespace(s[|r|..])
    ensures r == [] || !IsWhitespace(r[|r| - 1])
  {
    if s != [] && IsWhitespace(s[|s| - 1]) then
      var t := s[..|s| - 1];
      var r := TrimEnd(t);
      assert t[..|r|] == s[..|r|];
      assert AllWhitespace(s[|r|..]) by {
        forall k | 0 <= k < |s| - |r| ensures IsWhitespace(s[|r|..][k]) {
          if k < |t| - |r| {
            assert s[|r|..][k] == t[|r|..][k];
          }
        }
      }
      r
    else s
  }

  /** `s.trim()` */
  function Trim(s: string): string {
    TrimEnd(TrimStart(s))
  }

  /** The longest prefix of `s` made of decimal digits. */
  function LeadingDigits(s: string): (r: string)
    ensures |r| <= |s| && r == s[..|r|]
    ensures AllDigits(r)
    ensures |r| == |s| || !IsDigit(s[|r|])
  {
    if s != [] && IsDigit(s[0]) then [s[0]] + LeadingDigits(s[1..]) else []
  }

  /** The value of a string of decimal digits, most significant first. */
  function DigitsValue(d: string): nat
    requires AllDigits(d)
  {
    if d == [] then 0 else DigitsValue(d[..|d| - 1]) * 10 + (d[|d| - 1] as int - '0' as int)
  }

  /** `parseInt(s, 10)`: leading white space skipped, an optional sign, then
      the longest run of decimal digits; no digit at all gives `NaN`. */
  function ParseInt(s: string): (r: Option<int>)
    ensures r.None? <==> !StartsWithNumber(TrimStart(s))
    ensures r.Some? && r.value < 0 ==> TrimStart(s)[0] == '-'
  {
    ParseSigned(TrimStart(s))
  }

  /** A digit, or a sign followed by a digit: what `parseInt` needs to
      read a number rather than give `NaN`. */
  predicate StartsWithNumber(t: string) {
    (t != [] && IsDigit(t[0])) || (|t| > 1 && (t[0] == '+' || t[0] == '-') && IsDigit(t[1]))
  }

  /** `parseInt` once the leading white space is gone. */
  function ParseSigned(t: string): (r: Option<int>)
    ensures r.None? <==> !StartsWithNumber(t)
    ensures r.Some? && r.value < 0 ==> t[0] == '-'
  {
    var negative := |t| > 0 && t[0] == '-';
    var body := if |t| > 0 && (t[0] == '+' || t[0] == '-') then t[1..] else t;
    var digits := LeadingDigits(body);
    if digits == [] then None
    else
      var magnitude: int := DigitsValue(digits);
      Some(if negative then -magnitude else magnitude)
  }

  /** The value of one character as a decimal digit, `None` if it is not one. */
  function CharDigit(c: char): (r: Option<int>)
    ensures r.Some? ==> 0 <= r.value < 10
  {
    if IsDigit(c) then Some(c as int - '0' as int) else None
  }

  function DigitChar(d: nat): (c: char)
    requires d < 10
    ensures IsDigit(c)
  {
    ('0' as int + d) as char
  }

  /** Decimal digits of a natural number, without leading zeros. */
  function NatStr(n: nat): (s: string)
    ensures |s| > 0 && AllDigits(s)
  {
    if n < 10 then [DigitChar(n)] else NatStr(n / 10) + [DigitChar(n % 10)]
  }

  /** `String(n)` for an integer `n`. */
  function Str(n: int): string {
    if n < 0 then "-" + NatStr(-n) else NatStr(n)
  }

  /** `s.split("").reverse()`, one character per element. */
  function Reverse(s: string): (r: string)
    ensures |r| == |s|
  {
    if s == [] then [] else Reverse(s[1..]) + [s[0]]
  }

  /** `s.indexOf(c)` when `c` occurs in `s`. */
  function IndexOf(s: string, c: char): (i: nat)
    requires c in s
    ensures i < |s| && s[i] == c && c !in s[..i]
  {
    if s[0] == c then 0 else 1 + IndexOf(s[1..], c)
  }

  /** `parts.join(c)`: the inverse of `Split`. */
  function Join(parts: seq<string>, c: char): string
    requires |parts| >= 1
  {
    if |parts| == 1 then parts[0] else parts[0] + [c] + Join(parts[1..], c)
  }

  /** `s.split(c)` for a one-character separator: every occurrence of `c`
      separates two parts, so there are at least two parts exactly when `c`
      occurs, no part contains `c`, and joining the parts gives back `s`. */
  function Split(s: string, c: char): (parts: seq<string>)
    ensures |parts| >= 1
    ensures c in s <==> |parts| >= 2
    ensures forall i :: 0 <= i < |parts| ==> c !in parts[i]
    ensures Join(parts, c) == s
    decreases |s|
  {
    if c !in s then [s]
    else
      var i := IndexOf(s, c);
      var rest := Split(s[i + 1..], c);
      assert s[..i] + [c] + s[i + 1..] == s;
      [s[..i]] + rest
  }

  /** `s.replace(c, "")`: only the first occurrence of `c` is removed. */
  function RemoveFirst(s: string, c: char): (r: string)
    ensures c !in s ==> r == s
    ensures c in s ==> |r| == |s| - 1 && exists i :: 0 <= i < |s| && s[i] == c && c !in s[..i] && r == s[..i] + s[i + 1..]
  {
    if c !in s then s else s[..IndexOf(s, c)] + s[IndexOf(s, c) + 1..]
  }

  /* ---------------- Lemmas ---------------- */

  lemma {:induction false} DigitsValueOfNatStr(n: nat)
    ensures DigitsValue(NatStr(n)) == n
  {
    if n >= 10 {
      var s := NatStr(n);
      assert s[..|s| - 1] == NatStr(n / 10);
      DigitsValueOfNatStr(n / 10);
    }
  }

  /** `parseInt` of a non-empty string of digits is its value. */
  lemma ParseIntOfDigits(d: string)
    requires d != [] && AllDigits(d)
    ensures ParseInt(d) == Some(DigitsValue(d))
  {
    assert IsDigit(d[0]);
    TrimStartOfSignedDigits(d);
    ParseSignedOfDigits(d);
  }

  lemma DigitsValueOfDigit(c: char)
    requires IsDigit(c)
    ensures DigitsValue([c]) == c as int - '0' as int
  {
    assert [c][..0] == [];
  }

  lemma TrimStartOfWhitespace(c: char)
    requires IsWhitespace(c)
    ensures TrimStart([c]) == []
  {
    assert [c][1..] == [];
  }

  lemma TrimStartOfOther(c: char)
    requires !IsWhitespace(c)
    ensures TrimStart([c]) == [c]
  {
  }

  lemma LeadingDigitsOfDigit(c: char)
    requires IsDigit(c)
    ensures LeadingDigits([c]) == [c]
  {
    assert [c][1..] == [];
  }

  lemma DigitNotWhitespace(c: char)
    requires IsDigit(c)
    ensures !IsWhitespace(c)
  {
  }

  lemma TrimStartOfDigit(c: char)
    requires IsDigit(c)
    ensures TrimStart([c]) == [c]
  {
    DigitNotWhitespace(c);
    TrimStartOfOther(c);
  }

  lemma ParseSignedOfDigit(c: char)
    requires IsDigit(c)
    ensures ParseSigned([c]) == Some(c as int - '0' as int)
  {
    LeadingDigitsOfDigit(c);
    DigitsValueOfDigit(c);
  }

  lemma ParseIntOfDigitChar(c: char)
    requires IsDigit(c)
    ensures ParseInt([c]) == Some(c as int - '0' as int)
  {
    TrimStartOfDigit(c);
    ParseSignedOfDigit(c);
  }

  lemma ParseIntOfWhitespaceChar(c: char)
    requires IsWhitespace(c)
    ensures ParseInt([c]) == None
  {
    TrimStartOfWhitespace(c);
    assert LeadingDigits([]) == [];
  }

  lemma ParseIntOfOtherChar(c: char)
    requires !IsDigit(c) && !IsWhitespace(c)
    ensures ParseInt([c]) == None
  {
    TrimStartOfOther(c);
    if c == '+' || c == '-' {
      assert [c][1..] == [];
      assert LeadingDigits([]) == [];
    } else {
      assert LeadingDigits([c]) == [];
    }
  }

  /** `parseInt` of a one-character string: the digit's value, or `NaN` for
      anything that is not a digit (a sign, white space, a letter). */
  lemma ParseIntOfChar(c: char)
    ensures ParseInt([c]) == CharDigit(c)
  {
    if IsDigit(c) {
      ParseIntOfDigitChar(c);
    } else if IsWhitespace(c) {
      ParseIntOfWhitespaceChar(c);
    } else {
      ParseIntOfOtherChar(c);
    }
  }

  lemma TrimStartOfSignedDigits(s: string)
    requires s != [] && (s[0] == '-' || IsDigit(s[0]))
    ensures TrimStart(s) == s
  {
  }

  lemma ParseSignedOfNegative(d: string)
    requires d != [] && AllDigits(d)
    ensures ParseSigned("-" + d) == Some(-(DigitsValue(d) as int))
  {
    var t := "-" + d;
    assert t[0] == '-' && t[1..] == d;
    LeadingDigitsThen(d, []);
    assert d + [] == d;
  }

  lemma ParseSignedOfDigits(d: string)
    requires d != [] && AllDigits(d)
    ensures ParseSigned(d) == Some(DigitsValue(d))
  {
    assert IsDigit(d[0]);
    LeadingDigitsThen(d, []);
    assert d + [] == d;
  }

  /** `parseInt(String(n), 10) === n` for every integer `n`. */
  lemma ParseIntOfStr(n: int)
    ensures ParseInt(Str(n)) == Some(n)
  {
    var m: nat := if n < 0 then -n else n;
    var d := NatStr(m);
    DigitsValueOfNatStr(m);
    assert IsDigit(d[0]);
    TrimStartOfSignedDigits(Str(n));
    if n < 0 {
      ParseSignedOfNegative(d);
    } else {
      ParseSignedOfDigits(d);
    }
  }

  lemma {:induction false} LeadingDigitsThen(d: string, rest: string)
    requires AllDigits(d)
    requires rest == [] || !IsDigit(rest[0])
    ensures LeadingDigits(d + rest) == d
  {
    if d != [] {
      assert (d + rest)[1..] == d[1..] + rest;
      LeadingDigitsThen(d[1..], rest);
    }
  }

  /** `parseInt` stops at the first character that is not a digit. */
  lemma ParseIntOfDigitsThen(d: string, rest: string)
    requires d != [] && AllDigits(d)
    requires rest == [] || !IsDigit(rest[0])
    ensures ParseInt(d + rest) == Some(DigitsValue(d))
  {
    assert IsDigit((d + rest)[0]);
    TrimStartOfSignedDigits(d + rest);
    LeadingDigitsThen(d, rest);
  }

  /** Different integers have different decimal representations. */
  lemma StrInjective(m: int, n: int)
    requires Str(m) == Str(n)
    ensures m == n
  {
    ParseIntOfStr(m);
    ParseIntOfStr(n);
  }

  lemma {:induction false} TrimStartPadded(w: string, t: string)
    requires AllWhitespace(w)
    requires t == [] || !IsWhitespace(t[0])
    ensures TrimStart(w + t) == t
  {
    if w != [] {
      assert (w + t)[1..] == w[1..] + t;
      TrimStartPadded(w[1..], t);
    }
  }

  lemma {:induction false} TrimEndPadded(t: string, w: string)
    requires AllWhitespace(w)
    requires t == [] || !IsWhitespace(t[|t| - 1])
    ensures TrimEnd(t + w) == t
  {
    if w != [] {
      assert (t + w)[..|t + w| - 1] == t + w[..|w| - 1];
      TrimEndPadded(t, w[..|w| - 1]);
    }
  }

  /** `trim` removes exactly the white space around a word that neither
      starts nor ends with white space. */
  lemma TrimPadded(w1: string, t: string, w2: string)
    requires AllWhitespace(w1) && AllWhitespace(w2)
    requires t != [] && !IsWhitespace(t[0]) && !IsWhitespace(t[|t| - 1])
    ensures Trim(w1 + t + w2) == t
  {
    assert w1 + t + w2 == w1 + (t + w2);
    TrimStartPadded(w1, t + w2);
    TrimEndPadded(t, w2);
  }

  lemma {:induction false} IndexOfFirst(x: string, c: char, y: string)
    requires c !in x
    ensures IndexOf(x + [c] + y, c) == |x|
  {
    if x != [] {
      assert (x + [c] + y)[1..] == x[1..] + [c] + y;
      IndexOfFirst(x[1..], c, y);
    }
  }

  /** The index of `c` is its first position. */
  lemma {:induction false} IndexOfIsFirst(s: string, c: char, i: nat)
    requires i < |s| && s[i] == c
    requires forall k :: 0 <= k < i ==> s[k] != c
    ensures c in s && IndexOf(s, c) == i
  {
    if i > 0 {
      IndexOfIsFirst(s[1..], c, i - 1);
    }
  }

  /** The first two pieces of a split: the text before the first `c`, and
      the text after it up to the next `c` or the end. */
  lemma SplitHead(s: string, c: char)
    requires c in s
    ensures var i := IndexOf(s, c);
            var tail := s[i + 1..];
            |Split(s, c)| >= 2 && Split(s, c)[0] == s[..i]
            && Split(s, c)[1] == if c in tail then tail[..IndexOf(tail, c)] else tail
  {
    var i := IndexOf(s, c);
    var tail := s[i + 1..];
    assert Split(s, c) == [s[..i]] + Split(tail, c);
    if c in tail {
      assert Split(tail, c) == [tail[..IndexOf(tail, c)]] + Split(tail[IndexOf(tail, c) + 1..], c);
    }
  }

  lemma SplitFirst(x: string, c: char, y: string)
    requires c !in x
    ensures Split(x + [c] + y, c) == [x] + Split(y, c)
  {
    var s := x + [c] + y;
    IndexOfFirst(x, c, y);
    assert s[..|x|] == x && s[|x| + 1..] == y;
  }
}
