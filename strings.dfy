/** Text primitives the handlers share: the parts of Python's `str` API they use
    (`lower`, `strip`, `in`, `startswith`, `split`, `join`, `replace("\\n", "\n")`),
    `int()` on decimal text and `str()` of an integer, and regex word boundaries. */
module Strings {
  import opened Optional

  // ---------------------------------------------------------------- characters

  /** The characters `str.strip()` removes in this model (ASCII whitespace). */
  const Whitespace: set<char> := {' ', '\t', '\n', '\r', '\U{B}', '\U{C}'}

  predicate IsSpace(c: char) {
    c in Whitespace
  }

  predicate IsDigit(c: char) {
    '0' <= c <= '9'
  }

  /** Characters regex `\b` and `\w` treat as word characters: ASCII letters and
      digits, the underscore and the Cyrillic block. */
  predicate IsWordChar(c: char) {
    'a' <= c <= 'z' || 'A' <= c <= 'Z' || IsDigit(c) || c == '_' || '\U{400}' <= c <= '\U{4FF}'
  }

  /** Length-preserving `str.lower` on one character: ASCII and Russian letters. */
  function LowerChar(c: char): char {
    if 'A' <= c <= 'Z' || 'А' <= c <= 'Я' then (c as int + 32) as char
    else if c == 'Ё' then 'ё'
    else c
  }

  function UpperChar(c: char): char {
    if 'a' <= c <= 'z' || 'а' <= c <= 'я' then (c as int - 32) as char
    else if c == 'ё' then 'Ё'
    else c
  }

  lemma LowerCharIdempotent(c: char)
    ensures LowerChar(LowerChar(c)) == LowerChar(c)
  {
  }

  // ---------------------------------------------------------------- case

  function Lower(s: string): (r: string)
    ensures |r| == |s|
    ensures forall i :: 0 <= i < |s| ==> r[i] == LowerChar(s[i])
  {
    seq(|s|, i requires 0 <= i < |s| => LowerChar(s[i]))
  }

  /** `str.capitalize` for a word that is already lower-case: upper-case its first letter. */
  function Capitalize(s: string): (r: string)
    ensures |r| == |s|
    ensures |s| > 0 ==> r[0] == UpperChar(s[0]) && r[1..] == Lower(s[1..])
  {
    if |s| == 0 then "" else [UpperChar(s[0])] + Lower(s[1..])
  }

  lemma LowerIdempotent(s: string)
    ensures Lower(Lower(s)) == Lower(s)
  {
    forall i | 0 <= i < |s|
      ensures Lower(Lower(s))[i] == Lower(s)[i]
    {
      LowerCharIdempotent(s[i]);
    }
  }

  lemma LowerAppend(a: string, b: string)
    ensures Lower(a + b) == Lower(a) + Lower(b)
  {
    assert Lower(a + b) == Lower(a) + Lower(b);
  }

  // ---------------------------------------------------------------- trimming

  /** `str.lstrip(chars)`: drops the longest prefix made of characters in `cs`. */
  function TrimStart(s: string, cs: set<char>): (r: string)
    ensures |r| <= |s|
    ensures r != [] ==> r[0] !in cs
    ensures forall j :: 0 <= j < |s| - |r| ==> s[j] in cs
    decreases |s|
  {
    if |s| > 0 && s[0] in cs then TrimStart(s[1..], cs) else s
  }

  /** `str.rstrip(chars)`: drops the longest suffix made of characters in `cs`. */
  function TrimEnd(s: string, cs: set<char>): (r: string)
    ensures |r| <= |s|
    ensures r != [] ==> r[|r| - 1] !in cs
    ensures forall j :: |r| <= j < |s| ==> s[j] in cs
    decreases |s|
  {
    if |s| > 0 && s[|s| - 1] in cs then TrimEnd(s[..|s| - 1], cs) else s
  }

  /** What `lstrip` keeps is a suffix of its input. */
  lemma {:induction false} TrimStartSuffix(s: string, cs: set<char>)
    ensures var r := TrimStart(s, cs); r == s[|s| - |r|..]
    decreases |s|
  {
    if |s| > 0 && s[0] in cs {
      TrimStartSuffix(s[1..], cs);
    }
  }

  /** What `rstrip` keeps is a prefix of its input. */
  lemma {:induction false} TrimEndPrefix(s: string, cs: set<char>)
    ensures var r := TrimEnd(s, cs); r == s[..|r|]
    decreases |s|
  {
    if |s| > 0 && s[|s| - 1] in cs {
      TrimEndPrefix(s[..|s| - 1], cs);
    }
  }

  /** `str.strip(chars)`. */
  function StripChars(s: string, cs: set<char>): (r: string)
    ensures r != [] ==> r[0] !in cs && r[|r| - 1] !in cs
  {
    TrimEndPrefix(TrimStart(s, cs), cs);
    TrimEnd(TrimStart(s, cs), cs)
  }

  /** `str.strip()`. */
  function Strip(s: string): (r: string)
    ensures r != [] ==> !IsSpace(r[0]) && !IsSpace(r[|r| - 1])
  {
    StripChars(s, Whitespace)
  }

  function LStrip(s: string): string {
    TrimStart(s, Whitespace)
  }

  function RStrip(s: string): string {
    TrimEnd(s, Whitespace)
  }

  /** A string that neither starts nor ends with whitespace is its own strip. */
  lemma StripUnpadded(s: string)
    requires s != [] ==> !IsSpace(s[0]) && !IsSpace(s[|s| - 1])
    ensures Strip(s) == s
  {
  }

  /** Whitespace is left alone by lower-casing, and nothing else becomes whitespace. */
  lemma LowerCharSpace(c: char)
    ensures IsSpace(LowerChar(c)) <==> IsSpace(c)
    ensures IsSpace(c) ==> LowerChar(c) == c
  {
  }

  lemma {:induction false} TrimStartLower(s: string)
    ensures TrimStart(Lower(s), Whitespace) == Lower(TrimStart(s, Whitespace))
    decreases |s|
  {
    if |s| > 0 {
      LowerCharSpace(s[0]);
      assert Lower(s)[1..] == Lower(s[1..]);
      TrimStartLower(s[1..]);
    }
  }

  lemma {:induction false} TrimEndLower(s: string)
    ensures TrimEnd(Lower(s), Whitespace) == Lower(TrimEnd(s, Whitespace))
    decreases |s|
  {
    if |s| > 0 {
      LowerCharSpace(s[|s| - 1]);
      assert Lower(s)[..|s| - 1] == Lower(s[..|s| - 1]);
      TrimEndLower(s[..|s| - 1]);
    }
  }

  /** `s.lower().strip() == s.strip().lower()`. */
  lemma StripLower(s: string)
    ensures Strip(Lower(s)) == Lower(Strip(s))
  {
    TrimStartLower(s);
    TrimEndLower(TrimStart(s, Whitespace));
  }

  /** Leading whitespace does not survive `strip()`. */
  lemma StripLeadingSpace(c: char, s: string)
    requires IsSpace(c)
    ensures Strip([c] + s) == Strip(s)
  {
    assert ([c] + s)[1..] == s;
  }

  /** `strip()` leaves nothing exactly when the text is all whitespace. */
  lemma StripBlank(s: string)
    ensures Strip(s) == "" <==> forall i :: 0 <= i < |s| ==> IsSpace(s[i])
  {
    TrimStartSuffix(s, Whitespace);
  }

  // ---------------------------------------------------------------- searching

  predicate OccursAt(s: string, sub: string, i: int) {
    0 <= i && i + |sub| <= |s| && s[i..i + |sub|] == sub
  }

  /** Python's `sub in s`. */
  predicate Contains(s: string, sub: string) {
    exists i | 0 <= i <= |s| - |sub| :: OccursAt(s, sub, i)
  }

  /** `any(n in s for n in needles)`. */
  predicate ContainsAny(s: string, needles: seq<string>) {
    exists i | 0 <= i < |needles| :: Contains(s, needles[i])
  }

  predicate StartsWith(s: string, prefix: string) {
    |prefix| <= |s| && s[..|prefix|] == prefix
  }

  lemma ContainsWitness(s: string, sub: string, i: int)
    requires OccursAt(s, sub, i)
    ensures Contains(s, sub)
  {
  }

  /** A non-empty needle never occurs in the empty string. */
  lemma NothingInEmpty(needles: seq<string>)
    requires forall i :: 0 <= i < |needles| ==> needles[i] != ""
    ensures !ContainsAny("", needles)
  {
  }

  lemma ContainsMiddle(a: string, b: string, c: string)
    ensures Contains(a + b + c, b)
  {
    assert (a + b + c)[|a|..|a| + |b|] == b;
    ContainsWitness(a + b + c, b, |a|);
  }

  /** The index of the first `c` in `s`, or `|s|` when there is none. */
  function IndexOf(s: string, c: char): (r: nat)
    ensures r <= |s|
    ensures r < |s| ==> s[r] == c
    ensures forall j :: 0 <= j < r ==> s[j] != c
  {
    if |s| == 0 then 0 else if s[0] == c then 0 else 1 + IndexOf(s[1..], c)
  }

  /** The index of the last `c` in `s`, or `|s|` when there is none. */
  function LastIndexOf(s: string, c: char): (r: nat)
    ensures r <= |s|
    ensures r < |s| ==> s[r] == c && forall j :: r < j < |s| ==> s[j] != c
    ensures r == |s| ==> forall j :: 0 <= j < |s| ==> s[j] != c
    decreases |s|
  {
    if |s| == 0 then 0
    else if s[|s| - 1] == c then |s| - 1
    else if LastIndexOf(s[..|s| - 1], c) == |s| - 1 then |s|
    else LastIndexOf(s[..|s| - 1], c)
  }

  predicate Has(s: string, c: char) {
    IndexOf(s, c) < |s|
  }

  /** `s.split(c, 1)[0]`: the text before the first `c` (all of `s` without one). */
  function Before(s: string, c: char): string {
    s[..IndexOf(s, c)]
  }

  /** `s.split(c, 1)[1]`, for an `s` that contains `c`. */
  function After(s: string, c: char): string
    requires Has(s, c)
  {
    s[IndexOf(s, c) + 1..]
  }

  lemma SplitFirstJoin(s: string, c: char)
    requires Has(s, c)
    ensures Before(s, c) + [c] + After(s, c) == s
    ensures !Has(Before(s, c), c)
  {
    assert s == s[..IndexOf(s, c)] + [c] + s[IndexOf(s, c) + 1..];
  }

  lemma BeforeOfPrefix(a: string, c: char, b: string)
    requires !Has(a, c)
    ensures Has(a + [c] + b, c) && Before(a + [c] + b, c) == a && After(a + [c] + b, c) == b
  {
    var s := a + [c] + b;
    assert s[|a|] == c;
    assert IndexOf(s, c) == |a|;
  }

  // ---------------------------------------------------------------- split / join

  /** `s.split(c)` for a one-character separator. */
  function Split(s: string, c: char): (parts: seq<string>)
    ensures |parts| >= 1
    decreases |s|
  {
    if !Has(s, c) then [s] else [Before(s, c)] + Split(After(s, c), c)
  }

  /** `s.split(c, n)`: at most `n` splits, so at most `n + 1` parts. */
  function SplitMax(s: string, c: char, n: nat): (parts: seq<string>)
    ensures 1 <= |parts| <= n + 1
    decreases n
  {
    if n == 0 || !Has(s, c) then [s] else [Before(s, c)] + SplitMax(After(s, c), c, n - 1)
  }

  /** `sep.join(parts)`. */
  function Join(sep: string, parts: seq<string>): string {
    if |parts| == 0 then ""
    else if |parts| == 1 then parts[0]
    else parts[0] + sep + Join(sep, parts[1..])
  }

  /** Joining the parts of a split with the separator gives back the text. */
  lemma {:induction false} JoinSplit(s: string, c: char)
    ensures Join([c], Split(s, c)) == s
    decreases |s|
  {
    if Has(s, c) {
      JoinSplit(After(s, c), c);
      SplitFirstJoin(s, c);
    }
  }

  /** Splitting `a;b` gives the parts of `a` followed by the parts of `b`. */
  lemma {:induction false} SplitAppend(a: string, c: char, b: string)
    ensures Split(a + [c] + b, c) == Split(a, c) + Split(b, c)
    decreases |a|
  {
    var s := a + [c] + b;
    if !Has(a, c) {
      BeforeOfPrefix(a, c, b);
    } else {
      var k := IndexOf(a, c);
      assert s[k] == c;
      assert IndexOf(s, c) == k;
      assert Before(s, c) == Before(a, c);
      assert After(s, c) == After(a, c) + [c] + b;
      SplitAppend(After(a, c), c, b);
    }
  }

  // ---------------------------------------------------------------- replace

  /** No backslash in `s` is directly followed by the letter `n`. */
  predicate NoEscapedNewline(s: string) {
    forall i :: 0 <= i < |s| - 1 ==> !(s[i] == '\\' && s[i + 1] == 'n')
  }

  /** `s.replace("\\n", "\n")`: every two-character escape backslash-n becomes a newline,
      scanning left to right without overlap. The result holds no escape any more. */
  function Unescape(s: string): (r: string)
    ensures |r| <= |s|
    ensures |s| > 0 ==> |r| > 0 && r[0] == (if |s| >= 2 && s[0] == '\\' && s[1] == 'n' then '\n' else s[0])
    ensures NoEscapedNewline(r)
    decreases |s|
  {
    if |s| < 2 then s
    else if s[0] == '\\' && s[1] == 'n' then "\n" + Unescape(s[2..])
    else [s[0]] + Unescape(s[1..])
  }

  /** The inverse of `Unescape` on text without backslashes: every newline is written as
      backslash-n. */
  function Escape(s: string): (r: string)
    ensures |s| > 0 ==> |r| > 0 && r[0] == (if s[0] == '\n' then '\\' else s[0])
                        && r[|r| - 1] == (if s[|s| - 1] == '\n' then 'n' else s[|s| - 1])
    decreases |s|
  {
    if |s| == 0 then ""
    else (if s[0] == '\n' then "\\n" else [s[0]]) + Escape(s[1..])
  }

  /** Escaping and then unescaping gives back a text that holds no backslash. */
  lemma {:induction false} UnescapeEscape(s: string)
    requires !Has(s, '\\')
    ensures Unescape(Escape(s)) == s
    decreases |s|
  {
    if |s| > 0 {
      assert s[0] != '\\';
      assert !Has(s[1..], '\\') by {
        assert forall j :: 0 <= j < |s[1..]| ==> s[1..][j] == s[j + 1];
      }
      UnescapeEscape(s[1..]);
      var e := Escape(s[1..]);
      if s[0] == '\n' {
        assert Escape(s) == "\\n" + e;
        assert ("\\n" + e)[2..] == e;
      } else if |e| == 0 {
        assert Escape(s) == [s[0]];
      } else {
        assert Escape(s) == [s[0]] + e;
        assert ([s[0]] + e)[1..] == e;
      }
    }
  }

  // ---------------------------------------------------------------- integers

  predicate AllDigits(s: string) {
    forall i :: 0 <= i < |s| ==> IsDigit(s[i])
  }

  function DigitChar(d: nat): (c: char)
    requires d < 10
    ensures IsDigit(c)
  {
    ('0' as int + d) as char
  }

  function DigitValue(c: char): nat
    requires IsDigit(c)
  {
    c as int - '0' as int
  }

  /** The value of a run of decimal digits. */
  function DigitsValue(s: string): nat
    requires AllDigits(s)
    decreases |s|
  {
    if |s| == 0 then 0 else 10 * DigitsValue(s[..|s| - 1]) + DigitValue(s[|s| - 1])
  }

  /** `str(n)` for a natural number. */
  function NatToString(n: nat): (r: string)
    ensures |r| > 0 && AllDigits(r)
    decreases n
  {
    if n < 10 then [DigitChar(n)] else NatToString(n / 10) + [DigitChar(n % 10)]
  }

  /** `str(n)`. */
  function IntToString(n: int): (r: string)
    ensures |r| > 0 && !IsSpace(r[0]) && !IsSpace(r[|r| - 1])
  {
    if n < 0 then "-" + NatToString(-n) else NatToString(n)
  }

  /** `int(s)` on decimal text: surrounding whitespace, an optional sign, then one or
      more ASCII digits; anything else is `ValueError`, here `None`. */
  function ParseInt(s: string): Option<int> {
    ParseNumeral(Strip(s))
  }

  /** The sign-and-digits part of `int()`, on text already stripped. */
  function ParseNumeral(t: string): Option<int> {
    if |t| > 0 && (t[0] == '-' || t[0] == '+') then
      if |t| > 1 && AllDigits(t[1..]) then
        Some(if t[0] == '-' then -(DigitsValue(t[1..]) as int) else DigitsValue(t[1..]) as int)
      else
        None
    else if |t| > 0 && AllDigits(t) then
      Some(DigitsValue(t))
    else
      None
  }

  lemma {:induction false} NatToStringValue(n: nat)
    ensures DigitsValue(NatToString(n)) == n
    decreases n
  {
    if n >= 10 {
      var s := NatToString(n);
      assert s[..|s| - 1] == NatToString(n / 10);
      NatToStringValue(n / 10);
    }
  }

  /** `int()` of a run of digits is its value. */
  lemma ParseDigits(s: string)
    requires |s| > 0 && AllDigits(s)
    ensures ParseInt(s) == Some(DigitsValue(s))
  {
    StripUnpadded(s);
    NumeralDigits(s);
  }

  lemma NumeralDigits(t: string)
    requires |t| > 0 && AllDigits(t)
    ensures ParseNumeral(t) == Some(DigitsValue(t))
  {
    assert IsDigit(t[0]);
  }

  /** `int(str(n)) == n`: the formatted integer parses back to itself. */
  lemma ParseIntToString(n: int)
    ensures ParseInt(IntToString(n)) == Some(n)
  {
    var s := IntToString(n);
    StripUnpadded(s);
    if n < 0 {
      assert s[1..] == NatToString(-n);
      NatToStringValue(-n);
    } else {
      NatToStringValue(n);
    }
  }

  /** Different integers have different decimal texts. */
  lemma IntToStringInjective(a: int, b: int)
    requires IntToString(a) == IntToString(b)
    ensures a == b
  {
    ParseIntToString(a);
    ParseIntToString(b);
  }

  lemma IntToStringHasNo(n: int, c: char)
    requires c != '-' && !IsDigit(c)
    ensures !Has(IntToString(n), c)
  {
    var s := IntToString(n);
    if n < 0 {
      assert forall i :: 1 <= i < |s| ==> s[i] == NatToString(-n)[i - 1];
    }
  }

  // ---------------------------------------------------------------- words

  /** Regex `\bw\b` matching at `i`, for a `w` that begins and ends with a word character. */
  predicate WholeWordAt(s: string, w: string, i: int) {
    OccursAt(s, w, i)
    && (i == 0 || !IsWordChar(s[i - 1]))
    && (i + |w| == |s| || !IsWordChar(s[i + |w|]))
  }

  predicate HasWholeWord(s: string, w: string) {
    exists i | 0 <= i <= |s| - |w| :: WholeWordAt(s, w, i)
  }

  predicate AllWordChars(w: string) {
    forall i :: 0 <= i < |w| ==> IsWordChar(w[i])
  }

  /** Two different all-word-character words cannot both match as whole words at one
      position, so the order of the alternatives in a regex `\b(w1|w2|...)\b` never
      decides the match. */
  lemma WholeWordUnique(s: string, w1: string, w2: string, i: int)
    requires AllWordChars(w1) && AllWordChars(w2)
    requires WholeWordAt(s, w1, i) && WholeWordAt(s, w2, i)
    ensures w1 == w2
  {
    if |w1| < |w2| {
      WordCharInside(s, w2, i, |w1|);
      assert false;
    } else if |w2| < |w1| {
      WordCharInside(s, w1, i, |w2|);
      assert false;
    }
  }

  lemma WordCharInside(s: string, w: string, i: int, k: int)
    requires OccursAt(s, w, i) && AllWordChars(w) && 0 <= k < |w|
    ensures IsWordChar(s[i + k])
  {
    assert s[i + k] == s[i..i + |w|][k];
  }
}
