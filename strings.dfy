/** String operations the modelled code takes from Python's `str`: lower-casing,
    `join`, `split` on one character, `replace`, slicing, `isspace`, ordering,
    and the decimal and hexadecimal renderings of numbers. */
module Strings {

  import opened Results

  // ---------------------------------------------------------------------------
  // Case and encoding

  /** U+212A KELVIN SIGN, the one non-ASCII character whose lower case is an
      ASCII letter. */
  const KelvinSign: char := '\U{212A}'

  /** `c.lower()` for the ASCII capitals and the Kelvin sign; any other
      character is kept. */
  function LowerChar(c: char): char {
    if 'A' <= c <= 'Z' then (c as int + 32) as char
    else if c == KelvinSign then 'k'
    else c
  }

  /** `str.lower()`, one character at a time as `LowerChar` does. */
  function Lower(s: string): (r: string)
    ensures |r| == |s|
    ensures forall i :: 0 <= i < |s| ==> r[i] == LowerChar(s[i])
  {
    seq(|s|, i requires 0 <= i < |s| => LowerChar(s[i]))
  }

  predicate IsAsciiChar(c: char) {
    c as int < 128
  }

  predicate IsAscii(s: string) {
    forall i :: 0 <= i < |s| ==> IsAsciiChar(s[i])
  }

  /** Every character is ASCII or the Kelvin sign. */
  predicate LowersToAscii(s: string) {
    forall i :: 0 <= i < |s| ==> IsAsciiChar(s[i]) || s[i] == KelvinSign
  }

  /** A lower-cased text is ASCII exactly when every character was ASCII or
      the Kelvin sign. */
  lemma LowerAscii(s: string)
    ensures IsAscii(Lower(s)) <==> LowersToAscii(s)
  {
    forall i | 0 <= i < |s|
      ensures IsAsciiChar(Lower(s)[i]) <==> IsAsciiChar(s[i]) || s[i] == KelvinSign
    {
    }
  }

  /** The Kelvin sign lower-cases to an ASCII "k", so a non-ASCII text can
      become ASCII. */
  lemma LowerKelvin()
    ensures Lower([KelvinSign]) == "k"
    ensures !IsAscii([KelvinSign]) && IsAscii(Lower([KelvinSign]))
  {
    assert Lower([KelvinSign])[0] == 'k';
    assert !IsAsciiChar([KelvinSign][0]);
  }

  lemma AsciiConcat(a: string, b: string)
    ensures IsAscii(a + b) <==> IsAscii(a) && IsAscii(b)
  {
    if IsAscii(a) && IsAscii(b) {
      forall i | 0 <= i < |a + b| ensures IsAsciiChar((a + b)[i]) {
        if i < |a| { assert (a + b)[i] == a[i]; } else { assert (a + b)[i] == b[i - |a|]; }
      }
    }
    if IsAscii(a + b) {
      forall i | 0 <= i < |a| ensures IsAsciiChar(a[i]) { assert (a + b)[i] == a[i]; }
      forall i | 0 <= i < |b| ensures IsAsciiChar(b[i]) { assert (a + b)[|a| + i] == b[i]; }
    }
  }

  // ---------------------------------------------------------------------------
  // join and split

  /** `sep.join(parts)`. */
  function Join(parts: seq<string>, sep: string): string {
    if |parts| == 0 then ""
    else if |parts| == 1 then parts[0]
    else parts[0] + sep + Join(parts[1..], sep)
  }

  /** `s.split(c)` for a one-character separator: never empty, and the pieces
      are the maximal runs between separators. */
  function Split(s: string, c: char): (parts: seq<string>)
    ensures |parts| >= 1
  {
    if |s| == 0 then [""]
    else
      var rest := Split(s[1..], c);
      if s[0] == c then [""] + rest
      else [[s[0]] + rest[0]] + rest[1..]
  }

  /** Joining the pieces of a split with the separator gives the string back. */
  lemma {:induction false} JoinSplit(s: string, c: char)
    ensures Join(Split(s, c), [c]) == s
  {
    if |s| > 0 {
      var rest := Split(s[1..], c);
      JoinSplit(s[1..], c);
      if s[0] == c {
        assert Split(s, c) == [""] + rest;
        assert ([""] + rest)[1..] == rest;
      } else if |rest| == 1 {
        assert Split(s, c) == [[s[0]] + rest[0]];
      } else {
        var parts := Split(s, c);
        assert parts == [[s[0]] + rest[0]] + rest[1..];
        assert parts[1..] == rest[1..];
        assert Join(parts, [c]) == [s[0]] + rest[0] + [c] + Join(rest[1..], [c]);
        assert Join(rest, [c]) == rest[0] + [c] + Join(rest[1..], [c]);
        assert s == [s[0]] + s[1..];
      }
    }
  }

  /** No piece of a split contains the separator; there is a single piece
      exactly when the separator does not occur. */
  lemma {:induction false} SplitPieces(s: string, c: char)
    ensures forall k :: 0 <= k < |Split(s, c)| ==> c !in Split(s, c)[k]
    ensures |Split(s, c)| == 1 <==> c !in s
  {
    if |s| > 0 {
      SplitPieces(s[1..], c);
      var rest := Split(s[1..], c);
      var parts := Split(s, c);
      if s[0] == c {
        assert parts == [""] + rest;
        assert s[0] in s;
      } else {
        assert parts == [[s[0]] + rest[0]] + rest[1..];
        forall k | 0 <= k < |parts| ensures c !in parts[k] {
          if k > 0 { assert parts[k] == rest[k]; }
        }
        assert s == [s[0]] + s[1..];
        assert c in s <==> c in s[1..];
      }
    }
  }

  /** A string without the separator splits into itself. */
  lemma {:induction false} SplitNone(p: string, c: char)
    requires c !in p
    ensures Split(p, c) == [p]
  {
    SplitPieces(p, c);
    JoinSplit(p, c);
  }

  /** Splitting `p + c + rest`, where `p` has no separator, peels `p` off. */
  lemma {:induction false} SplitPrefix(p: string, c: char, rest: string)
    requires c !in p
    ensures Split(p + [c] + rest, c) == [p] + Split(rest, c)
  {
    if |p| == 0 {
      assert p + [c] + rest == [c] + rest;
      assert ([c] + rest)[1..] == rest;
    } else {
      var s := p + [c] + rest;
      assert s[1..] == p[1..] + [c] + rest;
      assert s[0] == p[0];
      SplitPrefix(p[1..], c, rest);
      assert [p[0]] + p[1..] == p;
    }
  }

  /** Splitting a join gives the pieces back when no piece contains the separator. */
  lemma {:induction false} SplitJoin(parts: seq<string>, c: char)
    requires |parts| >= 1
    requires forall k :: 0 <= k < |parts| ==> c !in parts[k]
    ensures Split(Join(parts, [c]), c) == parts
  {
    if |parts| == 1 {
      SplitNone(parts[0], c);
    } else {
      SplitJoin(parts[1..], c);
      SplitPrefix(parts[0], c, Join(parts[1..], [c]));
      assert [parts[0]] + parts[1..] == parts;
    }
  }

  /** `s.split(c)[-1]`. */
  function LastSegment(s: string, c: char): string {
    var parts := Split(s, c);
    parts[|parts| - 1]
  }

  /** The last segment is the suffix after the final separator, or the whole
      string when there is none. */
  lemma {:induction false} LastSegmentSpec(s: string, c: char)
    ensures |LastSegment(s, c)| <= |s|
    ensures s[|s| - |LastSegment(s, c)|..] == LastSegment(s, c)
    ensures c !in LastSegment(s, c)
    ensures |LastSegment(s, c)| < |s| ==> s[|s| - |LastSegment(s, c)| - 1] == c
    ensures c !in s ==> LastSegment(s, c) == s
  {
    SplitPieces(s, c);
    if |s| > 0 {
      LastSegmentSpec(s[1..], c);
      SplitPieces(s[1..], c);
      var rest := Split(s[1..], c);
      var l := LastSegment(s, c);
      if s[0] == c {
        assert Split(s, c) == [""] + rest;
        assert l == LastSegment(s[1..], c);
      } else if |rest| == 1 {
        assert Split(s, c) == [[s[0]] + rest[0]];
        assert l == [s[0]] + s[1..];
        assert s == [s[0]] + s[1..];
      } else {
        assert Split(s, c) == [[s[0]] + rest[0]] + rest[1..];
        assert l == LastSegment(s[1..], c);
        assert c in s[1..];
      }
    }
  }

  /** The last segment of `p + [c] + q`, where `q` has no separator, is `q`. */
  lemma {:induction false} LastSegmentAfter(p: string, c: char, q: string)
    requires c !in q
    ensures LastSegment(p + [c] + q, c) == q
    ensures |Split(p + [c] + q, c)| >= 2
  {
    var s := p + [c] + q;
    if |p| == 0 {
      assert s == [c] + q;
      assert s[1..] == q;
      SplitNone(q, c);
    } else {
      assert s[1..] == p[1..] + [c] + q;
      LastSegmentAfter(p[1..], c, q);
    }
  }

  // ---------------------------------------------------------------------------
  // Substrings and replace

  /** `pat` occurs in `s` at position `i`. */
  predicate At(s: string, i: int, pat: string) {
    0 <= i && i + |pat| <= |s| && s[i..i + |pat|] == pat
  }

  /** `pat in s`. */
  predicate Occurs(s: string, pat: string) {
    exists i | 0 <= i <= |s| - |pat| :: At(s, i, pat)
  }

  /** `s.replace(pat, rep)` for a non-empty pattern: leftmost, non-overlapping. */
  function Replace(s: string, pat: string, rep: string): string
    requires |pat| > 0
    decreases |s|
  {
    if |s| < |pat| then s
    else if s[..|pat|] == pat then rep + Replace(s[|pat|..], pat, rep)
    else [s[0]] + Replace(s[1..], pat, rep)
  }

  /** A string without the pattern is left as it is. */
  lemma {:induction false} ReplaceAbsent(s: string, pat: string, rep: string)
    requires |pat| > 0
    requires !Occurs(s, pat)
    ensures Replace(s, pat, rep) == s
    decreases |s|
  {
    if |s| >= |pat| {
      assert !At(s, 0, pat);
      assert s[..|pat|] != pat;
      if Occurs(s[1..], pat) {
        var i :| 0 <= i <= |s[1..]| - |pat| && At(s[1..], i, pat);
        assert 0 <= i && i + |pat| <= |s| - 1 && s[1..][i..i + |pat|] == pat;
        assert s[i + 1..i + 1 + |pat|] == s[1..][i..i + |pat|];
        assert At(s, i + 1, pat);
      }
      ReplaceAbsent(s[1..], pat, rep);
      assert [s[0]] + s[1..] == s;
    }
  }

  /** Replacing one character by a text without it removes every occurrence. */
  lemma {:induction false} ReplaceCharRemoves(s: string, x: char, rep: string)
    requires x !in rep
    ensures x !in Replace(s, [x], rep)
    decreases |s|
  {
    if |s| >= 1 {
      ReplaceCharRemoves(s[1..], x, rep);
      if s[..1] == [x] {
        assert s[1..] == s[|[x]|..];
      } else {
        assert s[0] != x;
      }
    }
  }

  /** The first character of `s.replace("UTC", "GMT")`. */
  lemma ReplaceUtcFirst(s: string)
    requires |s| >= 1
    ensures var t := Replace(s, "UTC", "GMT");
            |t| >= 1 && t[0] == (if |s| >= 3 && s[..3] == "UTC" then 'G' else s[0])
  {
    if |s| >= 3 && s[..3] == "UTC" {
      assert Replace(s, "UTC", "GMT") == "GMT" + Replace(s[3..], "UTC", "GMT");
    } else if |s| >= 3 {
      assert Replace(s, "UTC", "GMT") == [s[0]] + Replace(s[1..], "UTC", "GMT");
    }
  }

  /** If `s.replace("UTC", "GMT")` starts with "TC", so does `s`. */
  lemma ReplaceUtcTc(s: string)
    ensures var t := Replace(s, "UTC", "GMT");
            |t| >= 2 && t[0] == 'T' && t[1] == 'C' ==> |s| >= 2 && s[0] == 'T' && s[1] == 'C'
  {
    var t := Replace(s, "UTC", "GMT");
    if |s| >= 3 && |t| >= 2 && t[0] == 'T' {
      ReplaceUtcFirst(s);
      assert s[..3] != "UTC";
      assert t == [s[0]] + Replace(s[1..], "UTC", "GMT");
      ReplaceUtcFirst(s[1..]);
    }
  }

  /** Putting a character in front of a text without "UTC" creates none,
      unless the character is 'U' and the text starts with "TC". */
  lemma ConsNoUtc(c: char, u: string)
    requires !Occurs(u, "UTC")
    requires c == 'U' ==> !(|u| >= 2 && u[0] == 'T' && u[1] == 'C')
    ensures !Occurs([c] + u, "UTC")
  {
    var t := [c] + u;
    forall i | 0 <= i <= |t| - 3 ensures !At(t, i, "UTC") {
      if i >= 1 {
        assert t[i..i + 3] == u[i - 1..i - 1 + 3];
        assert !At(u, i - 1, "UTC");
      } else {
        assert t[0] == c && t[1] == u[0] && t[2] == u[1];
      }
    }
  }

  /** `s.replace("UTC", "GMT")` never contains "UTC". */
  lemma {:induction false} ReplaceUtcGone(s: string)
    ensures !Occurs(Replace(s, "UTC", "GMT"), "UTC")
    decreases |s|
  {
    var t := Replace(s, "UTC", "GMT");
    if |s| < 3 {
      assert t == s;
    } else if s[..3] == "UTC" {
      var u := Replace(s[3..], "UTC", "GMT");
      ReplaceUtcGone(s[3..]);
      assert t == ['G'] + (['M'] + (['T'] + u));
      ConsNoUtc('T', u);
      ConsNoUtc('M', ['T'] + u);
      ConsNoUtc('G', ['M'] + (['T'] + u));
    } else {
      var u := Replace(s[1..], "UTC", "GMT");
      ReplaceUtcGone(s[1..]);
      ReplaceUtcTc(s[1..]);
      assert t == [s[0]] + u;
      ConsNoUtc(s[0], u);
    }
  }

  /** When no occurrence of the pattern starts inside `w`, the replacement
      leaves `w` as it is and goes on in `t`. */
  lemma {:induction false} ReplaceSkip(w: string, t: string, pat: string, rep: string)
    requires |pat| > 0
    requires forall i :: 0 <= i < |w| ==> !At(w + t, i, pat)
    ensures Replace(w + t, pat, rep) == w + Replace(t, pat, rep)
    decreases |w|
  {
    var s := w + t;
    if |w| == 0 {
      assert s == t;
    } else if |s| < |pat| {
      assert Replace(t, pat, rep) == t;
    } else {
      assert !At(s, 0, pat);
      assert s[1..] == w[1..] + t;
      forall i | 0 <= i < |w| - 1 ensures !At(w[1..] + t, i, pat) {
        assert !At(s, i + 1, pat);
        if i + |pat| <= |s[1..]| {
          assert s[1..][i..i + |pat|] == s[i + 1..i + 1 + |pat|];
        }
      }
      ReplaceSkip(w[1..], t, pat, rep);
      assert [w[0]] + (w[1..] + Replace(t, pat, rep)) == w + Replace(t, pat, rep);
    }
  }

  /** `s[:n]` for a non-negative `n`. */
  function Take(s: string, n: nat): (r: string)
    ensures |r| <= n && |r| <= |s|
    ensures r == s[..|r|]
    ensures |s| <= n ==> r == s
  {
    if |s| <= n then s else s[..n]
  }

  // ---------------------------------------------------------------------------
  // Whitespace as Python's `\s` and `str.isspace()` see it

  predicate IsSpace(c: char) {
    ('\t' <= c <= '\r') || ('\U{1C}' <= c <= ' ') || c == '\U{85}' || c == '\U{A0}'
    || c == '\U{1680}' || ('\U{2000}' <= c <= '\U{200A}') || c == '\U{2028}' || c == '\U{2029}'
    || c == '\U{202F}' || c == '\U{205F}' || c == '\U{3000}'
  }

  // ---------------------------------------------------------------------------
  // Ordering

  /** `a <= b` on Python strings: lexicographic by code point. */
  predicate LessEq(a: string, b: string) {
    if a == [] then true
    else if b == [] then false
    else if a[0] != b[0] then a[0] < b[0]
    else LessEq(a[1..], b[1..])
  }

  /** String order is total and reflexive. */
  lemma {:induction false} LessEqTotal(a: string, b: string)
    ensures LessEq(a, b) || LessEq(b, a)
    ensures LessEq(a, a)
  {
    if a != [] && b != [] {
      LessEqTotal(a[1..], b[1..]);
    }
    if a != [] {
      LessEqTotal(a[1..], a[1..]);
    }
  }

  // ---------------------------------------------------------------------------
  // Decimal rendering (`str(int)`, f-strings)

  function DigitChar(d: nat): char
    requires d < 10
  {
    ('0' as int + d) as char
  }

  function NatToString(n: nat): (r: string)
    ensures |r| >= 1
    ensures forall k :: 0 <= k < |r| ==> '0' <= r[k] <= '9'
    decreases n
  {
    if n < 10 then [DigitChar(n)] else NatToString(n / 10) + [DigitChar(n % 10)]
  }

  /** `str(i)` / `f"{i}"` for an int. */
  function IntToString(i: int): string {
    if i < 0 then "-" + NatToString(-i) else NatToString(i)
  }

  function ParseDigits(s: string): nat
    requires forall k :: 0 <= k < |s| ==> '0' <= s[k] <= '9'
  {
    if s == [] then 0 else ParseDigits(s[..|s| - 1]) * 10 + (s[|s| - 1] as int - '0' as int)
  }

  /** `int(s)` on an optional minus sign followed by decimal digits. */
  function ParseInt(s: string): Option<int> {
    if |s| > 0 && s[0] == '-' then
      if |s| > 1 && forall k :: 1 <= k < |s| ==> '0' <= s[k] <= '9' then Some(0 - ParseDigits(s[1..]) as int) else None
    else if |s| > 0 && forall k :: 0 <= k < |s| ==> '0' <= s[k] <= '9' then Some(ParseDigits(s))
    else None
  }

  lemma {:induction false} ParseNatToString(n: nat)
    ensures ParseDigits(NatToString(n)) == n
    decreases n
  {
    if n >= 10 {
      ParseNatToString(n / 10);
      var r := NatToString(n);
      assert r[..|r| - 1] == NatToString(n / 10);
    }
  }

  /** The decimal rendering of an int reads back as that int. */
  lemma IntToStringRoundTrip(i: int)
    ensures ParseInt(IntToString(i)) == Some(i)
  {
    ParseNatToString(if i < 0 then -i else i);
    if i < 0 {
      var r := IntToString(i);
      assert r[1..] == NatToString(-i);
      forall k | 1 <= k < |r| ensures '0' <= r[k] <= '9' {
        assert r[k] == NatToString(-i)[k - 1];
      }
    }
  }

  // ---------------------------------------------------------------------------
  // Hexadecimal rendering (ObjectId text form)

  function Pow16(w: nat): nat {
    if w == 0 then 1 else 16 * Pow16(w - 1)
  }

  function HexChar(d: nat): char
    requires d < 16
  {
    if d < 10 then ('0' as int + d) as char else ('a' as int + d - 10) as char
  }

  predicate IsHexChar(c: char) {
    ('0' <= c <= '9') || ('a' <= c <= 'f') || ('A' <= c <= 'F')
  }

  function HexValue(c: char): nat
    requires IsHexChar(c)
  {
    if '0' <= c <= '9' then c as int - '0' as int
    else if 'a' <= c <= 'f' then c as int - 'a' as int + 10
    else c as int - 'A' as int + 10
  }

  /** The lowest `w` hexadecimal digits of `n`, most significant first, in lower case. */
  function HexDigits(n: nat, w: nat): (r: string)
    ensures |r| == w
    ensures forall k :: 0 <= k < w ==> IsHexChar(r[k])
  {
    if w == 0 then "" else HexDigits(n / 16, w - 1) + [HexChar(n % 16)]
  }

  /** The number a string of hexadecimal digits denotes. */
  function ParseHex(s: string): nat
    requires forall k :: 0 <= k < |s| ==> IsHexChar(s[k])
  {
    if s == [] then 0 else ParseHex(s[..|s| - 1]) * 16 + HexValue(s[|s| - 1])
  }

  lemma DivBound(n: nat, p: nat)
    requires n < 16 * p
    ensures n / 16 < p
  {
  }

  /** Rendering a number below 16^w in w hex digits and reading it back gives the number. */
  lemma {:induction false} ParseHexDigits(n: nat, w: nat)
    requires n < Pow16(w)
    ensures ParseHex(HexDigits(n, w)) == n
  {
    if w > 0 {
      DivBound(n, Pow16(w - 1));
      ParseHexDigits(n / 16, w - 1);
      var r := HexDigits(n, w);
      assert r[..|r| - 1] == HexDigits(n / 16, w - 1);
      assert HexValue(r[|r| - 1]) == n % 16;
    }
  }

  /** Reading hex digits and rendering the number in as many digits gives the
      text back in lower case. */
  lemma {:induction false} HexOfParse(t: string)
    requires forall k :: 0 <= k < |t| ==> IsHexChar(t[k])
    ensures HexDigits(ParseHex(t), |t|) == Lower(t)
  {
    if |t| > 0 {
      var t' := t[..|t| - 1];
      HexOfParse(t');
      var n := ParseHex(t);
      assert n / 16 == ParseHex(t') && n % 16 == HexValue(t[|t| - 1]);
      assert HexChar(HexValue(t[|t| - 1])) == LowerChar(t[|t| - 1]);
      assert Lower(t) == Lower(t') + [LowerChar(t[|t| - 1])];
    }
  }

  /** Two numbers below 16^w have different w-digit renderings. */
  lemma HexDigitsInjective(m: nat, n: nat, w: nat)
    requires m < Pow16(w) && n < Pow16(w) && m != n
    ensures HexDigits(m, w) != HexDigits(n, w)
  {
    ParseHexDigits(m, w);
    ParseHexDigits(n, w);
  }
}
