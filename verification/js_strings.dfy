/** The JavaScript string primitives the platform's logic is built from:
  * `trim`, `toLowerCase`, `includes`, `startsWith`, `split`/`join` on a
  * one-character separator, template-literal integer formatting and
  * `parseInt`. Strings are sequences of Unicode scalar values. */
module JsStrings {
  import opened Wrappers

  // ---------------------------------------------------------------- trim

  /** ECMAScript WhiteSpace and LineTerminator code points: what
    * `String.prototype.trim` removes and what the regular-expression
    * class `\s` matches. */
  predicate IsSpace(c: char) {
    c == ' ' || c == '\t' || c == '\n' || c == '\r' || c == '\U{B}' || c == '\U{C}'
    || c == '\U{A0}' || c == '\U{1680}' || ('\U{2000}' <= c <= '\U{200A}')
    || c == '\U{2028}' || c == '\U{2029}' || c == '\U{202F}' || c == '\U{205F}'
    || c == '\U{3000}' || c == '\U{FEFF}'
  }

  /** Every character is white space (this includes the empty string). */
  predicate IsBlank(s: string) {
    forall i :: 0 <= i < |s| ==> IsSpace(s[i])
  }

  /** Neither end is white space. */
  predicate IsTrimmed(s: string) {
    |s| == 0 || (!IsSpace(s[0]) && !IsSpace(s[|s| - 1]))
  }

  function TrimStart(s: string): (r: string)
    ensures |r| <= |s| && r == s[|s| - |r|..]
    ensures |r| == 0 || !IsSpace(r[0])
    ensures forall i :: 0 <= i < |s| - |r| ==> IsSpace(s[i])
    decreases |s|
  {
    if |s| > 0 && IsSpace(s[0]) then TrimStart(s[1..]) else s
  }

  function TrimEnd(s: string): (r: string)
    ensures |r| <= |s| && r == s[..|r|]
    ensures |r| == 0 || !IsSpace(r[|r| - 1])
    ensures forall i :: |r| <= i < |s| ==> IsSpace(s[i])
    decreases |s|
  {
    if |s| > 0 && IsSpace(s[|s| - 1]) then TrimEnd(s[..|s| - 1]) else s
  }

  /** Text behind a non-blank prefix survives `trimStart` untouched. */
  lemma {:induction false} TrimStartAppend(r: string, x: string)
    requires !IsBlank(r)
    ensures TrimStart(r + x) == TrimStart(r) + x
    decreases |r|
  {
    if IsSpace(r[0]) {
      assert (r + x)[1..] == r[1..] + x;
      TrimStartAppend(r[1..], x);
    }
  }

  /** A blank prefix is trimmed away entirely. */
  lemma {:induction false} TrimStartBlankAppend(r: string, x: string)
    requires IsBlank(r)
    ensures TrimStart(r + x) == TrimStart(x)
    decreases |r|
  {
    if |r| > 0 {
      assert (r + x)[1..] == r[1..] + x;
      TrimStartBlankAppend(r[1..], x);
    } else {
      assert r + x == x;
    }
  }

  lemma TrimEmptyIffBlank(s: string)
    ensures TrimEnd(TrimStart(s)) == [] <==> IsBlank(s)
  {
  }

  lemma {:induction false} TrimOfTrimmed(s: string)
    requires IsTrimmed(s)
    ensures TrimEnd(TrimStart(s)) == s
  {
    if |s| > 0 {
      TrimStartKeeps(s);
      TrimEndKeeps(s);
    }
  }

  lemma {:induction false} TrimStartKeeps(s: string)
    requires |s| > 0 && !IsSpace(s[0])
    ensures TrimStart(s) == s
  {
  }

  lemma {:induction false} TrimEndKeeps(s: string)
    requires |s| > 0 && !IsSpace(s[|s| - 1])
    ensures TrimEnd(s) == s
  {
  }

  lemma {:induction false} TrimKeepsChars(s: string)
    ensures forall c :: c in TrimEnd(TrimStart(s)) ==> c in s
  {
    var a := TrimStart(s);
    var r := TrimEnd(a);
    var off := |s| - |a|;
    assert r == s[off..off + |r|];
    forall c | c in r ensures c in s {
      var i :| 0 <= i < |r| && r[i] == c;
      assert s[off + i] == r[i];
    }
  }

  /** `s.trim()`: drops white space at both ends and nothing else. */
  function Trim(s: string): (r: string)
    ensures IsTrimmed(r)
    ensures |r| <= |s|
    ensures r == [] <==> IsBlank(s)
    ensures IsTrimmed(s) ==> r == s
    ensures forall c :: c in r ==> c in s
  {
    TrimEmptyIffBlank(s);
    if IsTrimmed(s) then TrimOfTrimmed(s); s
    else TrimKeepsChars(s); TrimEnd(TrimStart(s))
  }

  lemma TrimIsBothEnds(s: string)
    ensures Trim(s) == TrimEnd(TrimStart(s))
  {
    if IsTrimmed(s) {
      TrimOfTrimmed(s);
    }
  }

  lemma {:induction false} TrimStartOfBlank(s: string)
    requires IsBlank(s)
    ensures TrimStart(s) == ""
    decreases |s|
  {
    if |s| > 0 {
      TrimStartOfBlank(s[1..]);
    }
  }

  /** A blank suffix is trimmed away entirely. */
  lemma {:induction false} TrimEndBlankAppend(a: string, post: string)
    requires IsBlank(post)
    ensures TrimEnd(a + post) == TrimEnd(a)
    decreases |post|
  {
    if |post| > 0 {
      var w := a + post;
      assert w[..|w| - 1] == a + post[..|post| - 1];
      TrimEndBlankAppend(a, post[..|post| - 1]);
    } else {
      assert a + post == a;
    }
  }

  /** White space added at either end does not survive trimming. */
  lemma {:induction false} TrimPadded(pad: string, s: string, post: string)
    requires IsBlank(pad) && IsBlank(post)
    ensures Trim(pad + s + post) == Trim(s)
  {
    var padded := s + post;
    var whole := pad + padded;
    assert pad + s + post == whole;
    calc {
      Trim(whole);
      { TrimIsBothEnds(whole); }
      TrimEnd(TrimStart(whole));
      { TrimStartBlankAppend(pad, padded); }
      TrimEnd(TrimStart(padded));
      { TrimBothEndsPadded(s, post); }
      TrimEnd(TrimStart(s));
      { TrimIsBothEnds(s); }
      Trim(s);
    }
  }

  /** White space added at the end does not survive trimming both ends. */
  lemma TrimBothEndsPadded(s: string, post: string)
    requires IsBlank(post)
    ensures TrimEnd(TrimStart(s + post)) == TrimEnd(TrimStart(s))
  {
    if IsBlank(s) {
      TrimStartOfBlank(s);
      assert IsBlank(s + post) by {
        forall i | 0 <= i < |s + post| ensures IsSpace((s + post)[i]) {
          if i >= |s| {
            assert (s + post)[i] == post[i - |s|];
          }
        }
      }
      TrimStartOfBlank(s + post);
    } else {
      TrimStartAppend(s, post);
      TrimEndBlankAppend(TrimStart(s), post);
    }
  }

  /** A non-space character survives trimming. */
  lemma TrimKeepsIndex(s: string, i: nat)
    requires i < |s| && !IsSpace(s[i])
    ensures s[i] in Trim(s)
  {
    var a := TrimStart(s);
    var off := |s| - |a|;
    assert i >= off;
    var r := TrimEnd(a);
    assert i - off < |r|;
    assert r[i - off] == s[i];
    assert Trim(s) == r;
  }

  /** A single leading space in front of trimmed text is trimmed away. */
  lemma TrimSpacePrefix(t: string)
    requires IsTrimmed(t) && t != ""
    ensures Trim([' '] + t) == t
  {
    var s := [' '] + t;
    assert s[1..] == t;
    TrimStartOfNonSpace(t);
    assert TrimStart(s) == t;
    TrimOfTrimmed(t);
  }

  /** JavaScript truthiness of `s.trim()`: the text has a non-space
    * character (see `HasTextIffTrimNonEmpty`). */
  predicate HasText(s: string) {
    !IsBlank(s)
  }

  lemma HasTextIffTrimNonEmpty(s: string)
    ensures HasText(s) <==> Trim(s) != []
  {
  }

  // ---------------------------------------------------------- truthiness

  /** `Boolean(s)` for a string: only the empty string is falsy. */
  predicate NonEmpty(s: string) { s != "" }

  /** `s.startsWith(prefix)`. */
  predicate StartsWith(s: string, prefix: string) { prefix <= s }

  /** JavaScript truthiness of a string that may be `null` or `undefined`. */
  predicate Truthy(s: Option<string>) { s.Some? && s.value != "" }

  /** `a || b` on two optional strings. */
  function Or(a: Option<string>, b: Option<string>): (r: Option<string>)
    ensures Truthy(r) <==> Truthy(a) || Truthy(b)
    ensures Truthy(a) ==> r == a
    ensures !Truthy(a) ==> r == b
  {
    if Truthy(a) then a else b
  }

  // ---------------------------------------------------------- lower case

  /** What `[a-z]` matches under the `i` flag (without `u`): the ASCII letters. */
  predicate IsAsciiLetter(c: char) { 'a' <= c <= 'z' || 'A' <= c <= 'Z' }

  /** `toLowerCase` on the ASCII range; other characters are kept. */
  function LowerChar(c: char): char {
    if 'A' <= c <= 'Z' then (c as int + 32) as char else c
  }

  function ToLower(s: string): string {
    seq(|s|, i requires 0 <= i < |s| => LowerChar(s[i]))
  }

  lemma ToLowerConcat(a: string, b: string)
    ensures ToLower(a + b) == ToLower(a) + ToLower(b)
  {
  }

  lemma ToLowerIdempotent(s: string)
    ensures ToLower(ToLower(s)) == ToLower(s)
  {
  }

  // ------------------------------------------------------------ includes

  /** `sub` occurs in `s` starting at index `k`. */
  predicate OccursAt(s: string, sub: string, k: nat) {
    k + |sub| <= |s| && s[k..k + |sub|] == sub
  }

  /** `s.includes(sub)`. */
  predicate Contains(s: string, sub: string) {
    exists k: nat | k <= |s| :: OccursAt(s, sub, k)
  }

  /** `phrases.some(p => s.includes(p))`. */
  predicate ContainsAny(s: string, phrases: seq<string>) {
    exists p :: p in phrases && Contains(s, p)
  }

  lemma ContainsAt(s: string, sub: string, k: nat)
    requires k + |sub| <= |s| && s[k..k + |sub|] == sub
    ensures Contains(s, sub)
  {
    assert OccursAt(s, sub, k);
  }

  lemma ContainsWitness(s: string, sub: string) returns (k: nat)
    requires Contains(s, sub)
    ensures k + |sub| <= |s| && s[k..k + |sub|] == sub
  {
    k :| k <= |s| && OccursAt(s, sub, k);
  }

  /** Containment survives adding text on either side. */
  lemma ContainsInContext(p: string, t: string, q: string, sub: string)
    requires Contains(t, sub)
    ensures Contains(p + t + q, sub)
  {
    var k := ContainsWitness(t, sub);
    var w := p + t + q;
    assert w[|p| + k..|p| + k + |sub|] == t[k..k + |sub|];
    ContainsAt(w, sub, |p| + k);
  }

  lemma ContainsAnyInContext(p: string, t: string, q: string, phrases: seq<string>)
    requires ContainsAny(t, phrases)
    ensures ContainsAny(p + t + q, phrases)
  {
    var ph :| ph in phrases && Contains(t, ph);
    ContainsInContext(p, t, q, ph);
  }

  lemma {:induction false} ContainsLength(s: string, sub: string)
    requires Contains(s, sub)
    ensures |sub| <= |s|
  {
    var k := ContainsWitness(s, sub);
  }

  /** `s.includes(c)` for a one-character needle is plain membership. */
  lemma ContainsChar(s: string, c: char)
    ensures Contains(s, [c]) <==> c in s
  {
    if Contains(s, [c]) {
      var k := ContainsWitness(s, [c]);
      assert s[k] == c;
    }
    if c in s {
      var k :| 0 <= k < |s| && s[k] == c;
      assert s[k..k + 1] == [c];
      ContainsAt(s, [c], k);
    }
  }

  // ------------------------------------------------------------- replace

  /** `s.replace(/pat/g, '')` for a pattern without special characters:
    * occurrences are removed left to right and matching resumes after each
    * removed occurrence. */
  function RemoveAll(s: string, pat: string): (r: string)
    requires |pat| > 0
    ensures |r| <= |s|
    decreases |s|
  {
    if |s| == 0 then ""
    else if pat <= s then RemoveAll(s[|pat|..], pat)
    else [s[0]] + RemoveAll(s[1..], pat)
  }

  /** Text without the pattern is left as it is. */
  lemma {:induction false} RemoveAllAbsent(s: string, pat: string)
    requires |pat| > 0 && !Contains(s, pat)
    ensures RemoveAll(s, pat) == s
    decreases |s|
  {
    if |s| > 0 {
      assert !OccursAt(s, pat, 0);
      if Contains(s[1..], pat) {
        var k := ContainsWitness(s[1..], pat);
        assert OccursAt(s, pat, k + 1);
      }
      RemoveAllAbsent(s[1..], pat);
      assert [s[0]] + s[1..] == s;
    }
  }

  // ----------------------------------------------------- split and join

  /** `s.split(sep)` for a one-character separator: the pieces between
    * separators, always at least one. */
  function Split(s: string, sep: char): (r: seq<string>)
    ensures |r| >= 1
    ensures forall i :: 0 <= i < |r| ==> sep !in r[i]
    decreases |s|
  {
    if |s| == 0 then [""]
    else
      var rest := Split(s[1..], sep);
      if s[0] == sep then [""] + rest else [[s[0]] + rest[0]] + rest[1..]
  }

  /** `parts.join(sep)`. */
  function Join(parts: seq<string>, sep: string): string
  {
    if |parts| == 0 then ""
    else if |parts| == 1 then parts[0]
    else parts[0] + sep + Join(parts[1..], sep)
  }

  /** Joining one more part adds the separator and the part at the end. */
  lemma {:induction false} JoinAppend(parts: seq<string>, x: string, sep: string)
    requires |parts| > 0
    ensures Join(parts + [x], sep) == Join(parts, sep) + sep + x
    decreases |parts|
  {
    if |parts| > 1 {
      assert (parts + [x])[1..] == parts[1..] + [x];
      JoinAppend(parts[1..], x, sep);
    }
  }

  lemma {:induction false} SplitNoSeparator(s: string, sep: char)
    requires sep !in s
    ensures Split(s, sep) == [s]
    decreases |s|
  {
    if |s| > 0 {
      SplitNoSeparator(s[1..], sep);
      assert [s[0]] + s[1..] == s;
    }
  }

  lemma {:induction false} SplitAtFirst(a: string, sep: char, t: string)
    requires sep !in a
    ensures Split(a + [sep] + t, sep) == [a] + Split(t, sep)
    decreases |a|
  {
    var w := a + [sep] + t;
    if |a| == 0 {
      assert w[1..] == t;
    } else {
      assert w[1..] == a[1..] + [sep] + t;
      SplitAtFirst(a[1..], sep, t);
      assert [a[0]] + a[1..] == a;
    }
  }

  /** The first occurrence of `c` in `s`. */
  lemma {:induction false} FirstIndex(s: string, c: char) returns (k: nat)
    requires c in s
    ensures k < |s| && s[k] == c && c !in s[..k]
    decreases |s|
  {
    if s[0] == c {
      k := 0;
    } else {
      assert c in s[1..];
      var j := FirstIndex(s[1..], c);
      k := j + 1;
      assert s[..k] == [s[0]] + s[1..][..j];
    }
  }

  /** Joining after splitting on the same separator gives the text back. */
  lemma {:induction false} JoinSplit(s: string, sep: char)
    ensures Join(Split(s, sep), [sep]) == s
    decreases |s|
  {
    if |s| > 0 {
      var rest := Split(s[1..], sep);
      JoinSplit(s[1..], sep);
      if s[0] == sep {
        assert ([""] + rest)[1..] == rest;
      } else {
        var head := [[s[0]] + rest[0]] + rest[1..];
        if |rest| > 1 {
          assert head[1..] == rest[1..];
        }
      }
      assert [s[0]] + s[1..] == s;
    }
  }

  /** Splitting a join on the same separator gives the pieces back when no
    * piece contains the separator. */
  lemma {:induction false} SplitJoin(parts: seq<string>, sep: char)
    requires |parts| >= 1
    requires forall i :: 0 <= i < |parts| ==> sep !in parts[i]
    ensures Split(Join(parts, [sep]), sep) == parts
    decreases |parts|
  {
    if |parts| == 1 {
      SplitNoSeparator(parts[0], sep);
    } else {
      SplitJoin(parts[1..], sep);
      SplitAtFirst(parts[0], sep, Join(parts[1..], [sep]));
      assert [parts[0]] + parts[1..] == parts;
    }
  }

  // ------------------------------------------------ decimal integer text

  predicate IsDigit(c: char) { '0' <= c <= '9' }

  function DigitChar(d: nat): (c: char)
    requires d < 10
  {
    "0123456789"[d]
  }

  /** `${n}` for a non-negative integer: shortest decimal form. */
  function NatToString(n: nat): (r: string)
    ensures |r| >= 1
    ensures forall i :: 0 <= i < |r| ==> IsDigit(r[i])
    ensures r[0] == '0' ==> n == 0
  {
    if n < 10 then [DigitChar(n)] else NatToString(n / 10) + [DigitChar(n % 10)]
  }

  /** `${n}` for any integer. */
  function IntToString(n: int): string {
    if n < 0 then "-" + NatToString(-n) else NatToString(n)
  }

  // ------------------------------------------------------------ parseInt

  predicate IsHexDigit(c: char) {
    IsDigit(c) || 'a' <= c <= 'f' || 'A' <= c <= 'F'
  }

  function DigitValue(c: char): nat
    requires IsHexDigit(c)
  {
    if IsDigit(c) then c as int - '0' as int
    else if 'a' <= c <= 'f' then c as int - 'a' as int + 10
    else c as int - 'A' as int + 10
  }

  predicate IsRadixDigit(c: char, radix: nat) {
    if radix == 16 then IsHexDigit(c) else IsDigit(c)
  }

  /** The longest prefix made of digits of the radix. */
  function DigitRun(s: string, radix: nat): (r: string)
    ensures r <= s
    ensures forall i :: 0 <= i < |r| ==> IsRadixDigit(r[i], radix)
    ensures |r| < |s| ==> !IsRadixDigit(s[|r|], radix)
    decreases |s|
  {
    if |s| > 0 && IsRadixDigit(s[0], radix) then [s[0]] + DigitRun(s[1..], radix) else ""
  }

  function DigitsValue(ds: string, radix: nat): nat
    requires forall i :: 0 <= i < |ds| ==> IsRadixDigit(ds[i], radix)
  {
    if |ds| == 0 then 0
    else
      var last := ds[|ds| - 1];
      assert IsRadixDigit(last, radix);
      DigitsValue(ds[..|ds| - 1], radix) * radix + DigitValue(last)
  }

  /** The magnitude part of `parseInt`: an optional `0x`/`0X` prefix
    * selecting base 16, then the longest run of digits; `None` when there is
    * no digit. */
  function ParseMagnitude(u: string): Option<nat> {
    var hex := |u| >= 2 && u[0] == '0' && (u[1] == 'x' || u[1] == 'X');
    var radix := if hex then 16 else 10;
    var ds := DigitRun(if hex then u[2..] else u, radix);
    if ds == "" then None else Some(DigitsValue(ds, radix))
  }

  /** `parseInt(s)` with no radix: leading white space, an optional sign,
    * then the magnitude. `None` stands for `NaN`. */
  function ParseInt(s: string): Option<int> {
    var t := TrimStart(s);
    var signed := |t| > 0 && (t[0] == '-' || t[0] == '+');
    var m := ParseMagnitude(if signed then t[1..] else t);
    if m.None? then None
    else if signed && t[0] == '-' then Some(0 - m.value)
    else Some(m.value as int)
  }

  lemma {:induction false} DigitsValueOfNat(n: nat)
    ensures DigitsValue(NatToString(n), 10) == n
  {
    var r := NatToString(n);
    if n >= 10 {
      DigitsValueOfNat(n / 10);
      assert r[..|r| - 1] == NatToString(n / 10);
    }
  }

  lemma {:induction false} DigitRunOfDigits(s: string)
    requires forall i :: 0 <= i < |s| ==> IsDigit(s[i])
    ensures DigitRun(s, 10) == s
    decreases |s|
  {
    if |s| > 0 {
      DigitRunOfDigits(s[1..]);
      assert [s[0]] + s[1..] == s;
    }
  }

  lemma {:induction false} ParseMagnitudeOfDigits(digits: string)
    requires |digits| >= 1 && forall i :: 0 <= i < |digits| ==> IsDigit(digits[i])
    ensures ParseMagnitude(digits) == Some(DigitsValue(digits, 10))
  {
    DigitRunOfDigits(digits);
    assert |digits| >= 2 ==> IsDigit(digits[1]);
  }

  lemma {:induction false} TrimStartOfNonSpace(s: string)
    requires |s| > 0 && !IsSpace(s[0])
    ensures TrimStart(s) == s
  {
  }

  lemma {:induction false} ParseIntUnsigned(digits: string)
    requires |digits| >= 1 && forall i :: 0 <= i < |digits| ==> IsDigit(digits[i])
    ensures ParseInt(digits) == Some(DigitsValue(digits, 10) as int)
  {
    assert IsDigit(digits[0]);
    TrimStartOfNonSpace(digits);
    assert digits[0] != '-' && digits[0] != '+';
    ParseMagnitudeOfDigits(digits);
  }

  lemma ParseIntMinus(t: string, v: nat)
    requires |t| > 0 && t[0] == '-' && ParseMagnitude(t[1..]) == Some(v)
    ensures ParseInt(t) == Some(-(v as int))
  {
    assert !IsSpace(t[0]);
    TrimStartOfNonSpace(t);
  }

  /** `parseInt` reads back what integer formatting writes. */
  lemma ParseIntOfIntToString(n: int)
    ensures ParseInt(IntToString(n)) == Some(n)
  {
    var m: nat := if n < 0 then -n else n;
    DigitsValueOfNat(m);
    if n < 0 {
      var digits := NatToString(m);
      ParseMagnitudeOfDigits(digits);
      var t := "-" + digits;
      assert t[1..] == digits;
      ParseIntMinus(t, m);
    } else {
      ParseIntUnsigned(NatToString(m));
    }
  }
}
