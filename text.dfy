/**
 * The three JavaScript string operations the CSV reader relies on:
 * `String.prototype.trim`, `String.prototype.split` with a one-character
 * separator, and the global `parseFloat`.
 */
module Text {
  import opened Wrappers

  /**
   * The characters `trim` and `parseFloat` skip: ECMAScript WhiteSpace
   * (tab, vertical tab, form feed, space, no-break space, the byte order mark
   * and the space separators) and LineTerminator (line feed, carriage return,
   * line and paragraph separators).
   */
  predicate IsWhitespace(c: char)
  {
    var n := c as int;
    n == 0x09 || n == 0x0A || n == 0x0B || n == 0x0C || n == 0x0D || n == 0x20
    || n == 0xA0 || n == 0x1680 || (0x2000 <= n <= 0x200A) || n == 0x2028 || n == 0x2029
    || n == 0x202F || n == 0x205F || n == 0x3000 || n == 0xFEFF
  }

  predicate AllWhitespace(s: string)
  {
    forall i :: 0 <= i < |s| ==> IsWhitespace(s[i])
  }

  /** `s.trimStart()`: the suffix of `s` that begins at its first non-whitespace character. */
  function TrimStart(s: string): (t: string)
    ensures |t| <= |s| && t == s[|s| - |t|..]
    ensures AllWhitespace(s[..|s| - |t|])
    ensures t == [] || !IsWhitespace(t[0])
  {
    if |s| > 0 && IsWhitespace(s[0]) then
      var t := TrimStart(s[1..]);
      FirstSlice(s, |s| - |t|);
      t
    else
      s
  }

  /** `s.trimEnd()`: the prefix of `s` that ends at its last non-whitespace character. */
  function TrimEnd(s: string): (t: string)
    ensures |t| <= |s| && t == s[..|t|]
    ensures AllWhitespace(s[|t|..])
    ensures t == [] || !IsWhitespace(t[|t| - 1])
  {
    if |s| > 0 && IsWhitespace(s[|s| - 1]) then
      var t := TrimEnd(s[..|s| - 1]);
      LastSlice(s, |t|);
      t
    else
      s
  }

  lemma FirstSlice<T>(s: seq<T>, k: nat)
    requires 0 < k <= |s|
    ensures s[..k] == [s[0]] + s[1..][..k - 1]
  {
  }

  lemma LastSlice<T>(s: seq<T>, k: nat)
    requires k < |s|
    ensures s[k..] == s[..|s| - 1][k..] + [s[|s| - 1]]
  {
  }

  /** `s.trim()` */
  function Trim(s: string): string
  {
    TrimEnd(TrimStart(s))
  }

  /**
   * What `trim` promises: the result is a contiguous piece of `s` and
   * everything cut off on either side is whitespace.
   */
  lemma {:induction false} TrimShape(s: string)
    ensures exists i, j ::
      0 <= i <= j <= |s| && Trim(s) == s[i..j] && AllWhitespace(s[..i]) && AllWhitespace(s[j..])
  {
    var u := TrimStart(s);
    var t := TrimEnd(u);
    var i := |s| - |u|;
    var j := i + |t|;
    SuffixSlices(s, i, u, |t|);
    assert Trim(s) == s[i..j] && AllWhitespace(s[..i]) && AllWhitespace(s[j..]);
  }

  /** A character absent from `s` is absent from `trim(s)`. */
  lemma TrimAvoids(s: string, c: char)
    requires c !in s
    ensures c !in Trim(s)
  {
    var u := TrimStart(s);
    NotInSlices(s, c, |s| - |u|);
    NotInSlices(u, c, |TrimEnd(u)|);
  }

  lemma NotInSlices<T>(s: seq<T>, x: T, k: nat)
    requires x !in s && k <= |s|
    ensures x !in s[..k] && x !in s[k..]
  {
    assert forall m :: 0 <= m < |s| - k ==> s[k..][m] == s[k + m];
  }

  /** Slicing a suffix of `s` is slicing `s` itself, shifted by where the suffix starts. */
  lemma SuffixSlices<T>(s: seq<T>, i: nat, u: seq<T>, m: nat)
    requires i <= |s| && u == s[i..] && m <= |u|
    ensures u[..m] == s[i..i + m] && u[m..] == s[i + m..]
  {
  }

  /** The result of `trim` neither starts nor ends with whitespace. */
  lemma {:induction false} TrimEnds(s: string)
    ensures Trim(s) == [] || (!IsWhitespace(Trim(s)[0]) && !IsWhitespace(Trim(s)[|Trim(s)| - 1]))
  {
    var u := TrimStart(s);
    var t := TrimEnd(u);
    if t != [] {
      assert t[0] == u[0];
    }
  }

  /** Trimming twice is trimming once. */
  lemma {:induction false} TrimIdempotent(s: string)
    ensures Trim(Trim(s)) == Trim(s)
  {
    var t := Trim(s);
    TrimEnds(s);
    if t != [] {
      assert TrimStart(t) == t;
      assert TrimEnd(t) == t;
    }
  }

  /** Text made only of whitespace trims to the empty string. */
  lemma {:induction false} TrimAllWhitespace(s: string)
    requires AllWhitespace(s)
    ensures Trim(s) == []
  {
    if |s| > 0 {
      assert AllWhitespace(s[1..]);
      TrimAllWhitespace(s[1..]);
    }
  }

  /** `parts.join(sep)` */
  function Join(parts: seq<string>, sep: char): string
  {
    if |parts| == 0 then ""
    else if |parts| == 1 then parts[0]
    else parts[0] + [sep] + Join(parts[1..], sep)
  }

  /** Number of occurrences of `c` in `s`. */
  function Occurrences(s: string, c: char): nat
  {
    if |s| == 0 then 0 else (if s[0] == c then 1 else 0) + Occurrences(s[1..], c)
  }

  /**
   * `s.split(sep)` for a one-character separator: the pieces between
   * separators, in order. There is always at least one piece (`"".split(",")`
   * is `[""]`), no piece holds the separator, there is one piece more than
   * there are separators, and joining the pieces gives `s` back.
   */
  function Split(s: string, sep: char): (parts: seq<string>)
    ensures |parts| == Occurrences(s, sep) + 1
    ensures forall k :: 0 <= k < |parts| ==> sep !in parts[k]
    ensures Join(parts, sep) == s
  {
    if |s| == 0 then [""]
    else
      var rest := Split(s[1..], sep);
      if s[0] == sep then
        assert s == [sep] + s[1..];
        [""] + rest
      else
        var parts := [[s[0]] + rest[0]] + rest[1..];
        assert parts[1..] == rest[1..];
        assert forall k :: 1 <= k < |parts| ==> parts[k] == rest[k];
        assert s == [s[0]] + s[1..];
        parts
  }

  /** Splitting the join of separator-free pieces gives the pieces back. */
  lemma {:induction false} SplitJoin(parts: seq<string>, sep: char)
    requires |parts| >= 1
    requires forall k :: 0 <= k < |parts| ==> sep !in parts[k]
    ensures Split(Join(parts, sep), sep) == parts
  {
    if |parts| == 1 {
      SplitFree(parts[0], sep);
    } else {
      SplitJoin(parts[1..], sep);
      SplitPrefix(parts[0], Join(parts[1..], sep), sep);
      assert [parts[0]] + parts[1..] == parts;
    }
  }

  /** Text without the separator splits into itself alone. */
  lemma {:induction false} SplitFree(s: string, sep: char)
    requires sep !in s
    ensures Split(s, sep) == [s]
  {
    if |s| > 0 {
      assert sep !in s[1..];
      SplitFree(s[1..], sep);
      assert [s[0]] + s[1..] == s;
    }
  }

  /** A separator-free piece followed by the separator splits off as the first part. */
  lemma {:induction false} SplitPrefix(p: string, rest: string, sep: char)
    requires sep !in p
    ensures Split(p + [sep] + rest, sep) == [p] + Split(rest, sep)
  {
    if |p| == 0 {
      assert p + [sep] + rest == [sep] + rest;
      assert ([sep] + rest)[1..] == rest;
    } else {
      assert (p + [sep] + rest)[1..] == p[1..] + [sep] + rest;
      assert sep !in p[1..];
      SplitPrefix(p[1..], rest, sep);
      assert [p[0]] + p[1..] == p;
    }
  }

  /** `split` gives a single piece exactly when the separator does not occur. */
  lemma {:induction false} SplitSingle(s: string, sep: char)
    ensures |Split(s, sep)| == 1 <==> sep !in s
  {
    if |s| > 0 {
      SplitSingle(s[1..], sep);
      assert s == [s[0]] + s[1..];
    }
  }

  predicate IsDigit(c: char)
  {
    '0' <= c <= '9'
  }

  function DigitValue(c: char): nat
    requires IsDigit(c)
  {
    (c as int - '0' as int) as nat
  }

  predicate AllDigits(s: string)
  {
    forall i :: 0 <= i < |s| ==> IsDigit(s[i])
  }

  /** The number of leading decimal digits of `s`. */
  function DigitRun(s: string): (k: nat)
    ensures k <= |s| && AllDigits(s[..k])
    ensures k == |s| || !IsDigit(s[k])
  {
    if |s| > 0 && IsDigit(s[0]) then
      var k := DigitRun(s[1..]) + 1;
      assert s[..k] == [s[0]] + s[1..][..k - 1];
      k
    else 0
  }

  /** The value of a string of decimal digits, most significant first. */
  function DigitsValue(ds: string): nat
    requires AllDigits(ds)
  {
    if |ds| == 0 then 0 else DigitsValue(ds[..|ds| - 1]) * 10 + DigitValue(ds[|ds| - 1])
  }

  function Pow10(e: nat): (p: nat)
    ensures p >= 1
  {
    if e == 0 then 1 else 10 * Pow10(e - 1)
  }

  /** `10^e` for a signed exponent. */
  function Scale(e: int): (r: real)
    ensures r > 0.0
  {
    if e >= 0 then Pow10(e) as real else 1.0 / (Pow10(-e) as real)
  }

  /** The value of the fraction digits `ds` written after a decimal point. */
  function FractionValue(ds: string): real
    requires AllDigits(ds)
  {
    (DigitsValue(ds) as real) / (Pow10(|ds|) as real)
  }

  /** An optional `+` or `-`: its sign and its length. */
  function SignOf(s: string): (int, nat)
  {
    if |s| > 0 && s[0] == '-' then (-1, 1)
    else if |s| > 0 && s[0] == '+' then (1, 1)
    else (1, 0)
  }

  /**
   * The exponent part `e[+-]digits` (or `E…`) at the start of `s`, when it is
   * complete; `parseFloat` ignores an exponent marker without digits.
   */
  function ExponentPart(s: string): Option<int>
  {
    if |s| > 0 && (s[0] == 'e' || s[0] == 'E') then
      var (sign, len) := SignOf(s[1..]);
      var body := s[1 + len..];
      var k := DigitRun(body);
      if k == 0 then None else Some(sign * DigitsValue(body[..k]))
    else None
  }

  /**
   * `parseFloat(s)` over exact reals, with `None` for NaN: skip leading
   * whitespace, read an optional sign, then an unsigned decimal literal.
   */
  function ParseFloat(s: string): Option<real>
  {
    ParseSigned(TrimStart(s))
  }

  /** An optional `+` or `-` in front of an unsigned literal; `-` negates it. */
  function ParseSigned(t: string): Option<real>
  {
    if |t| > 0 && t[0] == '-' then Negated(ParseUnsigned(t[1..]))
    else if |t| > 0 && t[0] == '+' then ParseUnsigned(t[1..])
    else ParseUnsigned(t)
  }

  function Negated(r: Option<real>): Option<real>
  {
    match r
    case None => None
    case Some(v) => Some(-v)
  }

  /**
   * The longest unsigned decimal literal at the start of `u`: a run of
   * integer digits, an optional `.` with a run of fraction digits, and an
   * optional complete exponent. Without a single integer or fraction digit
   * the result is NaN; whatever follows the literal is ignored.
   */
  function ParseUnsigned(u: string): (r: Option<real>)
    ensures r.Some? ==> exists i :: 0 <= i < |u| && IsDigit(u[i])
  {
    var intLen := DigitRun(u);
    var afterInt := u[intLen..];
    var hasDot := |afterInt| > 0 && afterInt[0] == '.';
    var fracLen := if hasDot then DigitRun(afterInt[1..]) else 0;
    var dotLen := if hasDot then 1 else 0;
    if intLen == 0 && fracLen == 0 then None
    else
      var mantissa := (DigitsValue(u[..intLen]) as real) + FractionValue(afterInt[dotLen..][..fracLen]);
      var exponent := match ExponentPart(afterInt[dotLen + fracLen..]) case Some(e) => e case None => 0;
      assert intLen > 0 ==> IsDigit(u[0]);
      assert intLen == 0 ==> u[1] == afterInt[1..][0];
      Some(mantissa * Scale(exponent))
  }

  /** The shortest decimal spelling of `n`, as `String(n)` writes a whole number. */
  function NatText(n: nat): (s: string)
    ensures |s| >= 1 && AllDigits(s)
    ensures DigitsValue(s) == n
    decreases n
  {
    if n < 10 then [('0' as int + n) as char]
    else
      var s := NatText(n / 10) + [('0' as int + n % 10) as char];
      assert s[..|s| - 1] == NatText(n / 10);
      s
  }

  /** Text that cannot continue a number once its integer digits have been read. */
  predicate EndsNumber(rest: string)
  {
    rest == [] || !(IsDigit(rest[0]) || rest[0] == '.' || rest[0] == 'e' || rest[0] == 'E')
  }

  /**
   * A whole number written in decimal, followed by text that cannot continue
   * a number, parses back to that number; leading whitespace and a minus sign
   * are honoured.
   */
  lemma {:induction false} ParseNatText(w: string, negative: bool, n: nat, rest: string)
    requires AllWhitespace(w)
    requires EndsNumber(rest)
    ensures ParseFloat(w + (if negative then "-" else "") + NatText(n) + rest)
            == Some(if negative then -(n as real) else n as real)
  {
    var signed := (if negative then "-" else "") + NatText(n) + rest;
    SignedNatText(w, negative, NatText(n), rest);
    TrimStartPrefix(w, signed);
    ParseSignedDigits(negative, NatText(n), rest);
    ParseAfterWhitespace(w + (if negative then "-" else "") + NatText(n) + rest, w + signed, signed,
                         Some(if negative then -(n as real) else n as real));
  }

  lemma {:induction false} ParseAfterWhitespace(s: string, s': string, t: string, v: Option<real>)
    requires s == s' && TrimStart(s') == t && ParseSigned(t) == v
    ensures ParseFloat(s) == v
  {
  }

  /** A whole number's decimal spelling, before text that cannot continue a number, parses back to it. */
  lemma {:induction false} ParseWholeText(n: nat, rest: string)
    requires EndsNumber(rest)
    ensures ParseFloat(NatText(n) + rest) == Some(n as real)
  {
    ParseNatText("", false, n, rest);
    Unprefixed(NatText(n), rest);
  }

  lemma {:induction false} Unprefixed(a: string, b: string)
    ensures "" + (if false then "-" else "") + a + b == a + b
  {
  }

  lemma {:induction false} SignedNatText(w: string, negative: bool, ds: string, rest: string)
    requires |ds| > 0 && AllDigits(ds)
    ensures w + (if negative then "-" else "") + ds + rest == w + ((if negative then "-" else "") + ds + rest)
    ensures !IsWhitespace(((if negative then "-" else "") + ds + rest)[0])
  {
    var signed := (if negative then "-" else "") + ds + rest;
    assert signed[0] == '-' || signed[0] == ds[0];
  }

  /** An optionally negated run of digits followed by text that cannot continue a number. */
  lemma {:induction false} ParseSignedDigits(negative: bool, ds: string, rest: string)
    requires |ds| > 0 && AllDigits(ds)
    requires EndsNumber(rest)
    ensures ParseSigned((if negative then "-" else "") + ds + rest)
            == Some(if negative then -(DigitsValue(ds) as real) else DigitsValue(ds) as real)
  {
    SignedText(negative, ds + rest);
    assert (if negative then "-" else "") + ds + rest == (if negative then "-" else "") + (ds + rest);
    if negative {
      ParseNegatedDigits(ds, rest);
    } else {
      ParsePlainDigits(ds, rest);
    }
  }

  lemma {:induction false} SignedText(negative: bool, u: string)
    ensures (if negative then "-" else "") + u == if negative then "-" + u else u
  {
    if !negative {
      assert "" + u == u;
    }
  }

  lemma {:induction false} ParseNegatedDigits(ds: string, rest: string)
    requires |ds| > 0 && AllDigits(ds)
    requires EndsNumber(rest)
    ensures ParseSigned("-" + (ds + rest)) == Some(-(DigitsValue(ds) as real))
  {
    ParseDigits(ds, rest);
    NegatedDigits(ds + rest);
  }

  lemma {:induction false} ParsePlainDigits(ds: string, rest: string)
    requires |ds| > 0 && AllDigits(ds)
    requires EndsNumber(rest)
    ensures ParseSigned(ds + rest) == Some(DigitsValue(ds) as real)
  {
    ParseDigits(ds, rest);
    assert (ds + rest)[0] == ds[0];
    PlainDigits(ds + rest);
  }

  lemma NegatedDigits(u: string)
    ensures ParseSigned("-" + u) == Negated(ParseUnsigned(u))
  {
    DropHead("-", u);
    SignedMinus("-" + u);
  }

  lemma DropHead(a: string, u: string)
    requires |a| == 1
    ensures |a + u| > 0 && (a + u)[0] == a[0] && (a + u)[1..] == u
  {
    assert (a + u)[1..] == u;
  }

  lemma SignedMinus(t: string)
    requires |t| > 0 && t[0] == '-'
    ensures ParseSigned(t) == Negated(ParseUnsigned(t[1..]))
  {
  }

  lemma {:induction false} PlainDigits(u: string)
    requires |u| > 0 && IsDigit(u[0])
    ensures ParseSigned(u) == ParseUnsigned(u)
  {
  }

  /** Digits followed by text that cannot continue a number parse to their value. */
  lemma {:induction false} ParseDigits(ds: string, rest: string)
    requires |ds| > 0 && AllDigits(ds)
    requires EndsNumber(rest)
    ensures ParseUnsigned(ds + rest) == Some(DigitsValue(ds) as real)
  {
    var u := ds + rest;
    DigitRunOf(ds, rest);
    assert u[..|ds|] == ds;
    assert u[|ds|..] == rest;
    assert Scale(0) == 1.0;
  }

  /** Leading whitespace in front of text that does not start with whitespace is all `trimStart` removes. */
  lemma {:induction false} TrimStartPrefix(w: string, s: string)
    requires AllWhitespace(w)
    requires s == [] || !IsWhitespace(s[0])
    ensures TrimStart(w + s) == s
  {
    if |w| > 0 {
      assert (w + s)[1..] == w[1..] + s;
      TrimStartPrefix(w[1..], s);
    }
  }

  /** A run of digits followed by a non-digit is exactly the digit run. */
  lemma {:induction false} DigitRunOf(ds: string, rest: string)
    requires AllDigits(ds)
    requires rest == [] || !IsDigit(rest[0])
    ensures DigitRun(ds + rest) == |ds|
  {
    if |ds| > 0 {
      assert (ds + rest)[1..] == ds[1..] + rest;
      DigitRunOf(ds[1..], rest);
    }
  }

  /** Text without a digit anywhere is NaN to `parseFloat`. */
  lemma {:induction false} ParseNoDigits(s: string)
    requires forall i :: 0 <= i < |s| ==> !IsDigit(s[i])
    ensures ParseFloat(s) == None
  {
    var t := TrimStart(s);
    forall i | 0 <= i < |t| ensures !IsDigit(t[i]) {
      assert t[i] == s[|s| - |t| + i];
    }
    SignedNoDigits(t);
  }

  lemma {:induction false} SignedNoDigits(t: string)
    requires forall i :: 0 <= i < |t| ==> !IsDigit(t[i])
    ensures ParseSigned(t) == None
  {
    if |t| > 0 {
      forall i | 0 <= i < |t| - 1 ensures !IsDigit(t[1..][i]) {
        assert t[1..][i] == t[i + 1];
      }
      UnsignedNoDigits(t[1..]);
    }
    UnsignedNoDigits(t);
  }

  lemma {:induction false} UnsignedNoDigits(u: string)
    requires forall i :: 0 <= i < |u| ==> !IsDigit(u[i])
    ensures ParseUnsigned(u) == None
  {
  }
}
