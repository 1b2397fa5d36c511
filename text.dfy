/**
 * String helpers shared by the Python application and the user script:
 * whitespace classes, trimming, truncation, the query-string cut, literal
 * replacement, joining and decimal formatting. Strings are sequences of
 * Unicode code points.
 */
module Text {

  /** Whitespace as Python's `str.isspace()` sees it (the class behind `\s`, `strip()`). */
  predicate IsPySpace(c: char) {
    ('\t' <= c <= '\r') || ('\U{1C}' <= c <= '\U{1F}') || c == ' ' || c == '\U{85}' || c == '\U{A0}'
    || c == '\U{1680}' || ('\U{2000}' <= c <= '\U{200A}') || c == '\U{2028}' || c == '\U{2029}'
    || c == '\U{202F}' || c == '\U{205F}' || c == '\U{3000}'
  }

  /** Whitespace as JavaScript sees it (the class behind `\s` and `String.prototype.trim`). */
  predicate IsJsSpace(c: char) {
    ('\t' <= c <= '\r') || c == ' ' || c == '\U{A0}' || c == '\U{1680}' || ('\U{2000}' <= c <= '\U{200A}')
    || c == '\U{2028}' || c == '\U{2029}' || c == '\U{202F}' || c == '\U{205F}' || c == '\U{3000}'
    || c == '\U{FEFF}'
  }

  /** The characters on which the two whitespace classes disagree. */
  predicate SpaceClassesDiffer(c: char) {
    IsPySpace(c) != IsJsSpace(c)
  }

  predicate IsDigit(c: char) {
    '0' <= c <= '9'
  }

  predicate AllDigits(s: string) {
    forall i :: 0 <= i < |s| ==> IsDigit(s[i])
  }

  predicate StartsWith(s: string, p: string) {
    |p| <= |s| && s[..|p|] == p
  }

  predicate EndsWith(s: string, p: string) {
    |p| <= |s| && s[|s| - |p|..] == p
  }

  /** `p` occurs somewhere in `s`. */
  predicate Contains(s: string, p: string)
    decreases |s|
  {
    StartsWith(s, p) || (s != [] && Contains(s[1..], p))
  }

  /** `s` with every character satisfying `drop` removed (Python `re.sub(r"\s+", "", s)`, JS `s.replace(/\s+/g, '')`). */
  function RemoveAll(s: string, drop: char -> bool): (r: string)
    ensures |r| <= |s|
    ensures forall i :: 0 <= i < |r| ==> !drop(r[i])
    ensures forall i :: 0 <= i < |r| ==> r[i] in s
  {
    if s == [] then [] else (if drop(s[0]) then [] else [s[0]]) + RemoveAll(s[1..], drop)
  }

  function TrimStart(s: string, space: char -> bool): (r: string)
    ensures |r| <= |s|
    ensures r == [] || !space(r[0])
  {
    if s != [] && space(s[0]) then TrimStart(s[1..], space) else s
  }

  function TrimEnd(s: string, space: char -> bool): (r: string)
    ensures |r| <= |s|
    ensures r == [] || !space(r[|r| - 1])
  {
    if s != [] && space(s[|s| - 1]) then TrimEnd(s[..|s| - 1], space) else s
  }

  /** Trimming the start leaves a suffix. */
  lemma {:induction false} TrimStartSuffix(s: string, space: char -> bool)
    ensures TrimStart(s, space) == s[|s| - |TrimStart(s, space)|..]
    decreases |s|
  {
    if s != [] && space(s[0]) {
      TrimStartSuffix(s[1..], space);
    }
  }

  /** Trimming the end leaves a prefix. */
  lemma {:induction false} TrimEndPrefix(s: string, space: char -> bool)
    ensures TrimEnd(s, space) == s[..|TrimEnd(s, space)|]
    decreases |s|
  {
    if s != [] && space(s[|s| - 1]) {
      TrimEndPrefix(s[..|s| - 1], space);
    }
  }

  /** Python `str.strip()` / JS `trim()` for the given whitespace class. */
  function Strip(s: string, space: char -> bool): (r: string)
    ensures r == [] || (!space(r[0]) && !space(r[|r| - 1]))
  {
    var t := TrimStart(s, space);
    TrimEndPrefix(t, space);
    TrimEnd(t, space)
  }

  /** Python `s[:n]`; JS `s.substring(0, n)` on code points. */
  function Take(s: string, n: nat): (r: string)
    ensures |r| == if |s| <= n then |s| else n
    ensures StartsWith(s, r)
  {
    if |s| <= n then s else s[..n]
  }

  /** `s.split('?')[0]`: everything before the first `?`. */
  function BeforeQuery(s: string): (r: string)
    ensures '?' !in r
    ensures StartsWith(s, r)
    ensures '?' !in s ==> r == s
  {
    if s == [] || s[0] == '?' then [] else [s[0]] + BeforeQuery(s[1..])
  }

  /** Python `s.replace(pat, rep)`: every non-overlapping occurrence, scanning left to right. */
  function ReplaceAll(s: string, pat: string, rep: string): string
    requires pat != []
    decreases |s|
  {
    if |s| < |pat| then s
    else if s[..|pat|] == pat then rep + ReplaceAll(s[|pat|..], pat, rep)
    else [s[0]] + ReplaceAll(s[1..], pat, rep)
  }

  /** A text that is exactly the pattern is replaced as a whole. */
  lemma {:induction false} ReplaceAllWhole(s: string, pat: string, rep: string)
    requires pat != [] && s == pat
    ensures ReplaceAll(s, pat, rep) == rep
  {
    assert s[..|pat|] == pat;
    assert s[|pat|..] == [];
  }

  /** A first character that cannot begin the pattern is kept, and the replacing goes on after it. */
  lemma {:induction false} ReplaceAllSkip(c: char, rest: string, pat: string, rep: string)
    requires pat != [] && |rest| + 1 >= |pat| && pat[0] != c
    ensures ReplaceAll([c] + rest, pat, rep) == [c] + ReplaceAll(rest, pat, rep)
  {
    var s := [c] + rest;
    assert s[..|pat|][0] == c;
    assert s[1..] == rest;
  }

  /** JS `s.replace(/^pat/, rep)`: only an occurrence at the very start. */
  function ReplaceLeading(s: string, pat: string, rep: string): string {
    if StartsWith(s, pat) then rep + s[|pat|..] else s
  }

  /** Replaces every character satisfying `bad` by `sub` (JS `s.replace(/[...]/g, sub)`). */
  function ReplaceChars(s: string, bad: char -> bool, sub: char): (r: string)
    ensures |r| == |s|
    ensures forall i :: 0 <= i < |s| ==> r[i] == if bad(s[i]) then sub else s[i]
  {
    if s == [] then [] else [if bad(s[0]) then sub else s[0]] + ReplaceChars(s[1..], bad, sub)
  }

  /** Python `sep.join(parts)`, JS `parts.join(sep)`. */
  function Join(parts: seq<string>, sep: string): string
    decreases |parts|
  {
    if parts == [] then ""
    else if |parts| == 1 then parts[0]
    else parts[0] + sep + Join(parts[1..], sep)
  }

  function Concat(parts: seq<string>): string
    decreases |parts|
  {
    if parts == [] then "" else parts[0] + Concat(parts[1..])
  }

  function DigitChar(d: nat): (c: char)
    requires d < 10
    ensures IsDigit(c)
  {
    "0123456789"[d]
  }

  function DigitValue(c: char): (d: nat)
    requires IsDigit(c)
    ensures d < 10
  {
    (c as int - '0' as int) as nat
  }

  /** Decimal text of a natural number, as Python's `str(n)` and JS's `String(n)`. */
  function NatToString(n: nat): (r: string)
    ensures r != [] && AllDigits(r)
    decreases n
  {
    if n < 10 then [DigitChar(n)] else NatToString(n / 10) + [DigitChar(n % 10)]
  }

  function IntToString(i: int): string {
    if i < 0 then "-" + NatToString(-i) else NatToString(i)
  }

  /** Value of a run of decimal digits, most significant first. */
  function DigitsValue(s: string): nat
    requires AllDigits(s)
    decreases |s|
  {
    if s == [] then 0 else DigitsValue(s[..|s| - 1]) * 10 + DigitValue(s[|s| - 1])
  }

  // ---------------------------------------------------------------- lemmas

  lemma {:induction false} DigitRoundTrip(d: nat)
    requires d < 10
    ensures DigitValue(DigitChar(d)) == d
  {
    assert "0123456789"[d] as int == '0' as int + d;
  }

  /** Reading back the digits `NatToString` prints gives the number. */
  lemma {:induction false} NatToStringRoundTrip(n: nat)
    ensures DigitsValue(NatToString(n)) == n
    decreases n
  {
    var s := NatToString(n);
    if n < 10 {
      DigitRoundTrip(n);
      assert s[..|s| - 1] == [];
    } else {
      NatToStringRoundTrip(n / 10);
      DigitRoundTrip(n % 10);
      assert s[..|s| - 1] == NatToString(n / 10);
    }
  }

  /** A printed integer starts with `-` exactly when it is negative. */
  lemma {:induction false} IntToStringSign(i: int)
    ensures IntToString(i)[0] == '-' <==> i < 0
  {
    if i >= 0 {
      assert IsDigit(NatToString(i)[0]);
    }
  }

  lemma {:induction false} NatToStringInjective(m: nat, n: nat)
    requires NatToString(m) == NatToString(n)
    ensures m == n
  {
    NatToStringRoundTrip(m);
    NatToStringRoundTrip(n);
  }

  /** Different numbers print differently. */
  lemma {:induction false} IntToStringInjective(a: int, b: int)
    requires IntToString(a) == IntToString(b)
    ensures a == b
  {
    IntToStringSign(a);
    IntToStringSign(b);
    var s := IntToString(a);
    if a < 0 {
      assert NatToString(-a) == s[1..] == NatToString(-b);
      NatToStringInjective(-a, -b);
    } else {
      NatToStringInjective(a, b);
    }
  }

  /** A printed integer holds no letter `p`. */
  lemma {:induction false} IntToStringNoP(i: int)
    ensures forall k :: 0 <= k < |IntToString(i)| ==> IntToString(i)[k] != 'p'
  {
    var d := NatToString(if i < 0 then -i else i);
    assert forall k :: 0 <= k < |d| ==> IsDigit(d[k]);
  }

  /**
   * Two texts `x + p + r` that agree, where neither `x` holds the first
   * character of `p`, agree on `x`.
   */
  lemma {:induction false} SplitAtMark(x: string, r: string, y: string, t: string, mark: char)
    requires x + [mark] + r == y + [mark] + t
    requires forall k :: 0 <= k < |x| ==> x[k] != mark
    requires forall k :: 0 <= k < |y| ==> y[k] != mark
    ensures x == y
  {
    var w := x + [mark] + r;
    if |x| < |y| {
      MarkAt(x, r, y, t, mark);
      assert false;
    } else if |y| < |x| {
      MarkAt(y, t, x, r, mark);
      assert false;
    } else {
      assert x == w[..|x|] == y;
    }
  }

  /** Where `x` ends, `x + [mark] + r` holds the mark, and `y + [mark] + t` holds `y`'s character there. */
  lemma {:induction false} MarkAt(x: string, r: string, y: string, t: string, mark: char)
    requires |x| < |y|
    ensures (x + [mark] + r)[|x|] == mark
    ensures (y + [mark] + t)[|x|] == y[|x|]
  {
  }

  lemma {:induction false} Assoc3<T>(x: seq<T>, y: seq<T>, z: seq<T>)
    ensures x + (y + z) == (x + y) + z
  {
  }

  lemma {:induction false} Assoc4<T>(h: seq<T>, a: seq<T>, b: seq<T>, c: seq<T>)
    ensures h + a + b + c == h + (a + b + c)
  {
  }

  lemma {:induction false} Assoc6<T>(h: seq<T>, a: seq<T>, b: seq<T>, c: seq<T>, d: seq<T>, e: seq<T>)
    ensures h + a + b + c + d + e == h + (a + b + c + d + e)
  {
  }

  lemma {:induction false} Assoc7<T>(h: seq<T>, a: seq<T>, b: seq<T>, c: seq<T>, d: seq<T>, e: seq<T>, f: seq<T>)
    ensures h + a + b + c + d + e + f == h + (a + b + c + d + e + f)
  {
  }

  /** One more piece written after `prev`, which already follows `h`. */
  lemma {:induction false} AppendStep<T>(h: seq<T>, prev: seq<T>, rest: seq<T>, x: seq<T>, next: seq<T>, whole: seq<T>)
    requires prev == h + rest && next == prev + x && whole == rest + x
    ensures next == h + whole
  {
  }

  lemma {:induction false} Framed(p: string, b: string, e: string)
    ensures StartsWith(p + b + e, p)
    ensures EndsWith(p + b + e, e)
  {
    assert (p + b + e)[..|p|] == p;
    assert (p + b + e)[|p + b + e| - |e|..] == e;
  }

  lemma {:induction false} EndsWithAppend(s: string, p: string)
    ensures EndsWith(s + p, p)
  {
    assert (s + p)[|s|..] == p;
  }

  lemma {:induction false} StripEmpty(space: char -> bool)
    ensures Strip("", space) == ""
  {
    assert TrimStart("", space) == "";
  }

  lemma {:induction false} StartsWithAppend(s: string, t: string, p: string)
    requires StartsWith(s, p)
    ensures StartsWith(s + t, p)
  {
    assert (s + t)[..|p|] == s[..|p|];
  }

  lemma {:induction false} ContainsAppendLeft(s: string, t: string, p: string)
    requires Contains(s, p)
    ensures Contains(s + t, p)
    decreases |s|
  {
    if StartsWith(s, p) {
      StartsWithAppend(s, t, p);
    } else {
      assert (s + t)[1..] == s[1..] + t;
      ContainsAppendLeft(s[1..], t, p);
    }
  }

  lemma {:induction false} ContainsAppendRight(s: string, t: string, p: string)
    requires Contains(t, p)
    ensures Contains(s + t, p)
    decreases |s|
  {
    if s != [] {
      assert (s + t)[1..] == s[1..] + t;
      ContainsAppendRight(s[1..], t, p);
    } else {
      assert s + t == t;
    }
  }

  lemma {:induction false} StartsWithContains(s: string, p: string)
    requires StartsWith(s, p)
    ensures Contains(s, p)
  {
  }

  /** Joining one more part after a non-empty list puts exactly one separator before it. */
  lemma {:induction false} JoinSnoc(parts: seq<string>, x: string, sep: string)
    requires parts != []
    ensures Join(parts + [x], sep) == Join(parts, sep) + sep + x
    decreases |parts|
  {
    if |parts| == 1 {
      assert parts + [x] == [parts[0], x];
      assert [parts[0], x][1..] == [x];
    } else {
      assert (parts + [x])[1..] == parts[1..] + [x];
      JoinSnoc(parts[1..], x, sep);
    }
  }

  lemma {:induction false} ConcatAppend(a: seq<string>, b: seq<string>)
    ensures Concat(a + b) == Concat(a) + Concat(b)
    decreases |a|
  {
    if a == [] {
      assert a + b == b;
    } else {
      assert (a + b)[1..] == a[1..] + b;
      ConcatAppend(a[1..], b);
    }
  }
}
