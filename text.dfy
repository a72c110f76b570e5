/**
  The string primitives of the Python runtime that the logic-tree value
  parsers and the error message rely on: `str.strip()`, `str.split()`,
  `float(text)` and the `%s` rendering of an `int`.
*/
module Text {
  import opened Wrappers

  /** The characters for which Python's `str.isspace()` holds: the ones that
      `strip()`, `split()` and `float()` skip. */
  predicate IsSpace(c: char) {
    || ('\U{9}' <= c <= '\U{D}')
    || ('\U{1C}' <= c <= ' ')
    || c == '\U{85}' || c == '\U{A0}' || c == '\U{1680}'
    || ('\U{2000}' <= c <= '\U{200A}')
    || c == '\U{2028}' || c == '\U{2029}' || c == '\U{202F}'
    || c == '\U{205F}' || c == '\U{3000}'
  }

  predicate NoSpace(s: string) {
    forall i :: 0 <= i < |s| ==> !IsSpace(s[i])
  }

  /** A word as `split()` returns it: non-empty, without white space. */
  predicate IsWord(w: string) {
    w != [] && NoSpace(w)
  }

  // ---------------------------------------------------------------- strip

  /** `s.lstrip()`: drops the leading white space, keeps the rest. */
  function LStrip(s: string): (r: string)
    ensures |r| <= |s| && r == s[|s| - |r|..]
    ensures forall i :: 0 <= i < |s| - |r| ==> IsSpace(s[i])
    ensures r == [] || !IsSpace(r[0])
  {
    if s != [] && IsSpace(s[0]) then LStrip(s[1..]) else s
  }

  /** `s.rstrip()`: drops the trailing white space, keeps the rest. */
  function RStrip(s: string): (r: string)
    ensures |r| <= |s| && r == s[..|r|]
    ensures forall i :: |r| <= i < |s| ==> IsSpace(s[i])
    ensures r == [] || !IsSpace(r[|r| - 1])
  {
    if s != [] && IsSpace(s[|s| - 1]) then RStrip(s[..|s| - 1]) else s
  }

  /** `s.strip()`: `s` without the white space at either end. */
  function Strip(s: string): (r: string)
    ensures |r| <= |s|
    ensures r == [] || (!IsSpace(r[0]) && !IsSpace(r[|r| - 1]))
  {
    RStrip(LStrip(s))
  }

  lemma StripIdempotent(s: string)
    ensures Strip(Strip(s)) == Strip(s)
  {
    var r := Strip(s);
    if r != [] {
      assert LStrip(r) == r;
      assert RStrip(r) == r;
    }
  }

  /** A text that begins and ends with something other than white space is
      its own `strip()`. */
  lemma StripTrimmed(s: string)
    requires s != [] && !IsSpace(s[0]) && !IsSpace(s[|s| - 1])
    ensures Strip(s) == s
  {
    assert LStrip(s) == s;
    assert RStrip(s) == s;
  }

  lemma {:induction false} LStripSpaces(pad: string, x: string)
    requires forall i :: 0 <= i < |pad| ==> IsSpace(pad[i])
    requires x == [] || !IsSpace(x[0])
    ensures LStrip(pad + x) == x
  {
    if pad != [] {
      assert (pad + x)[1..] == pad[1..] + x;
      LStripSpaces(pad[1..], x);
    } else {
      assert pad + x == x;
    }
  }

  lemma {:induction false} RStripSpaces(x: string, pad: string)
    requires forall i :: 0 <= i < |pad| ==> IsSpace(pad[i])
    requires x == [] || !IsSpace(x[|x| - 1])
    ensures RStrip(x + pad) == x
  {
    if pad != [] {
      assert (x + pad)[..|x + pad| - 1] == x + pad[..|pad| - 1];
      RStripSpaces(x, pad[..|pad| - 1]);
    } else {
      assert x + pad == x;
    }
  }

  // ---------------------------------------------------------------- split

  /** The longest prefix of `s` without white space. */
  function Word(s: string): (w: string)
    ensures |w| <= |s| && w == s[..|w|] && NoSpace(w)
    ensures |w| == |s| || IsSpace(s[|w|])
  {
    if s == [] || IsSpace(s[0]) then []
    else
      var v := Word(s[1..]);
      assert s[1..][..|v|] == s[1..|v| + 1];
      [s[0]] + v
  }

  /** `s.split()`: the maximal runs of characters other than white space, in
      order. */
  function Split(s: string): (ws: seq<string>)
    ensures forall k :: 0 <= k < |ws| ==> IsWord(ws[k])
    decreases |s|
  {
    var t := LStrip(s);
    if t == [] then []
    else
      var w := Word(t);
      assert |w| > 0 by { assert !IsSpace(t[0]); }
      var ws := Split(t[|w|..]);
      ConsWords(w, ws);
      [w] + ws
  }

  lemma ConsWords(w: string, ws: seq<string>)
    requires IsWord(w) && forall k :: 0 <= k < |ws| ==> IsWord(ws[k])
    ensures forall k :: 0 <= k < |ws| + 1 ==> IsWord(([w] + ws)[k])
  {
    assert forall k :: 0 < k < |ws| + 1 ==> ([w] + ws)[k] == ws[k - 1];
  }

  /** `" ".join(ws)`. */
  function JoinSpaced(ws: seq<string>): string {
    if ws == [] then []
    else if |ws| == 1 then ws[0]
    else ws[0] + " " + JoinSpaced(ws[1..])
  }

  lemma {:induction false} WordOfJoin(a: string, b: string)
    requires NoSpace(a)
    requires b == [] || IsSpace(b[0])
    ensures Word(a + b) == a
  {
    if a != [] {
      assert (a + b)[1..] == a[1..] + b;
      WordOfJoin(a[1..], b);
    } else {
      assert a + b == b;
    }
  }

  lemma SplitSkipsSpace(c: char, s: string)
    requires IsSpace(c)
    ensures Split([c] + s) == Split(s)
  {
    assert ([c] + s)[1..] == s;
  }

  lemma SplitWordThen(w: string, rest: string)
    requires IsWord(w)
    requires rest == [] || IsSpace(rest[0])
    ensures Split(w + rest) == [w] + Split(rest)
  {
    assert LStrip(w + rest) == w + rest;
    WordOfJoin(w, rest);
    assert (w + rest)[|w|..] == rest;
  }

  lemma SplitJoinCons(w: string, tail: seq<string>)
    requires IsWord(w) && tail != []
    ensures Split(JoinSpaced([w] + tail)) == [w] + Split(JoinSpaced(tail))
  {
    var rest := " " + JoinSpaced(tail);
    assert ([w] + tail)[1..] == tail;
    assert JoinSpaced([w] + tail) == w + rest;
    SplitWordThen(w, rest);
    SplitSkipsSpace(' ', JoinSpaced(tail));
  }

  /** Splitting words joined by single spaces gives the words back. */
  lemma {:induction false} SplitJoin(ws: seq<string>)
    requires forall k :: 0 <= k < |ws| ==> IsWord(ws[k])
    ensures Split(JoinSpaced(ws)) == ws
  {
    if |ws| == 1 {
      assert ws[0] + [] == ws[0];
      SplitWordThen(ws[0], []);
    } else if |ws| > 1 {
      var tail := ws[1..];
      assert forall k :: 0 <= k < |tail| ==> IsWord(tail[k]) by {
        assert forall k :: 0 <= k < |tail| ==> tail[k] == ws[k + 1];
      }
      assert ws == [ws[0]] + tail;
      SplitJoinCons(ws[0], tail);
      SplitJoin(tail);
    }
  }

  // --------------------------------------------------------------- digits

  predicate IsDigit(c: char) {
    '0' <= c <= '9'
  }

  predicate AllDigits(s: string) {
    forall i :: 0 <= i < |s| ==> IsDigit(s[i])
  }

  function DigitChar(d: nat): (c: char)
    requires d < 10
    ensures IsDigit(c)
  {
    (48 + d) as char
  }

  /** The value of a run of decimal digits, most significant first. */
  function DigitsValue(s: string): nat
    requires AllDigits(s)
  {
    if s == [] then 0
    else DigitsValue(s[..|s| - 1]) * 10 + ((s[|s| - 1] as int) - 48)
  }

  /** `"%s" % n` for a natural number: its decimal digits. */
  function NatToString(n: nat): (s: string)
    ensures s != [] && AllDigits(s)
  {
    if n < 10 then [DigitChar(n)] else NatToString(n / 10) + [DigitChar(n % 10)]
  }

  /** `"%s" % n` for an integer: a minus sign, then the digits. */
  function IntToString(n: int): (s: string)
    ensures s != [] && !IsSpace(s[0]) && !IsSpace(s[|s| - 1])
    ensures forall i :: 0 <= i < |s| ==> IsDigit(s[i]) || s[i] == '-'
  {
    if n < 0 then "-" + NatToString(-n) else NatToString(n)
  }

  lemma {:induction false} NatToStringValue(n: nat)
    ensures DigitsValue(NatToString(n)) == n
  {
    if n >= 10 {
      NatToStringValue(n / 10);
      var s := NatToString(n);
      assert s[..|s| - 1] == NatToString(n / 10);
    }
  }

  // --------------------------------------------------------------- float()

  /** The index of the first occurrence of `a` or `b` in `s`, or `|s|`. */
  function FindEither(s: string, a: char, b: char): (k: nat)
    ensures k <= |s|
    ensures k < |s| ==> s[k] == a || s[k] == b
    ensures forall i :: 0 <= i < k ==> s[i] != a && s[i] != b
  {
    if s == [] || s[0] == a || s[0] == b then 0 else 1 + FindEither(s[1..], a, b)
  }

  function Pow10(n: nat): (p: real)
    ensures p >= 1.0
  {
    if n == 0 then 1.0 else 10.0 * Pow10(n - 1)
  }

  function Scale(e: int): (p: real)
    ensures p > 0.0
  {
    if e >= 0 then Pow10(e) else 1.0 / Pow10(-e)
  }

  /** Digits, optionally with one decimal point: `12`, `1.5`, `.5`, `1.`. */
  function ParseMantissa(m: string): Option<real> {
    var d := FindEither(m, '.', '.');
    var ip := m[..d];
    var fp := if d < |m| then m[d + 1..] else [];
    if !(AllDigits(ip) && AllDigits(fp) && |ip| + |fp| > 0) then None
    else if fp == [] then Some(DigitsValue(ip) as real)
    else Some(DigitsValue(ip) as real + DigitsValue(fp) as real / Pow10(|fp|))
  }

  /** An optionally signed, non-empty run of digits. */
  function ParseExponent(x: string): Option<int> {
    var neg := x != [] && x[0] == '-';
    var digits := if x != [] && (x[0] == '-' || x[0] == '+') then x[1..] else x;
    if digits != [] && AllDigits(digits) then
      var v: int := DigitsValue(digits);
      Some(if neg then -v else v)
    else None
  }

  function ParseUnsigned(t: string): Option<real> {
    var k := FindEither(t, 'e', 'E');
    var m :- ParseMantissa(t[..k]);
    if k == |t| then Some(m)
    else
      var e :- ParseExponent(t[k + 1..]);
      Some(m * Scale(e))
  }

  function ParseSigned(t: string): Option<real> {
    var neg := t != [] && t[0] == '-';
    var body := if t != [] && (t[0] == '-' || t[0] == '+') then t[1..] else t;
    match ParseUnsigned(body)
    case None => None
    case Some(v) => Some(if neg then -v else v)
  }

  /** `float(s)` on decimal literals: surrounding white space, a sign, digits
      with an optional point, an optional exponent. `None` stands for the
      `ValueError` Python raises. */
  function ParseFloat(s: string): Option<real> {
    ParseSigned(Strip(s))
  }

  lemma FindEitherAbsent(s: string, a: char, b: char)
    requires forall i :: 0 <= i < |s| ==> s[i] != a && s[i] != b
    ensures FindEither(s, a, b) == |s|
  {
  }

  lemma ParseDigits(s: string)
    requires s != [] && AllDigits(s)
    ensures ParseUnsigned(s) == Some(DigitsValue(s) as real)
  {
    FindEitherAbsent(s, 'e', 'E');
    FindEitherAbsent(s, '.', '.');
    assert s[..|s|] == s;
  }

  lemma ParseSignedMinus(u: string)
    ensures ParseSigned("-" + u) == match ParseUnsigned(u) case None => None case Some(v) => Some(-v)
  {
    var t := "-" + u;
    assert t[0] == '-' && t[1..] == u;
  }

  lemma ParseSignedUnsigned(u: string)
    requires u == [] || (u[0] != '-' && u[0] != '+')
    ensures ParseSigned(u) == ParseUnsigned(u)
  {
  }

  /** `float("%s" % n) == n`: the rendering of an integer reads back as the
      same number. */
  lemma ParseFloatIntToString(n: int)
    ensures ParseFloat(IntToString(n)) == Some(n as real)
  {
    StripTrimmed(IntToString(n));
    var m: nat := if n < 0 then -n else n;
    NatToStringValue(m);
    ParseDigits(NatToString(m));
    if n < 0 {
      ParseSignedMinus(NatToString(m));
    } else {
      ParseSignedUnsigned(NatToString(m));
    }
  }

  /** Different integers render differently. */
  lemma IntToStringInjective(m: int, n: int)
    requires IntToString(m) == IntToString(n)
    ensures m == n
  {
    ParseFloatIntToString(m);
    ParseFloatIntToString(n);
  }
}
