/** The three JavaScript string operations that `ElementPro` relies on:
    `String.prototype.trim`, `String.prototype.split` with a one-character
    separator, and `Number.prototype.toString` on integers.

    Strings are sequences of Unicode scalar values; JavaScript's UTF-16 code
    units are not modelled. */
module JsText {

  /** The code points `trim` strips: ECMAScript WhiteSpace (TAB, VT, FF,
      SPACE, NO-BREAK SPACE, ZERO WIDTH NO-BREAK SPACE and the other `Zs`
      characters) and LineTerminator (LF, CR, LINE SEPARATOR, PARAGRAPH
      SEPARATOR). */
  predicate IsJsWhitespace(c: char) {
    || c == '\t' || c == '\n' || c == '\U{B}' || c == '\U{C}' || c == '\r' || c == ' '
    || c == '\U{A0}' || c == '\U{1680}' || ('\U{2000}' <= c <= '\U{200A}')
    || c == '\U{2028}' || c == '\U{2029}' || c == '\U{202F}' || c == '\U{205F}'
    || c == '\U{3000}' || c == '\U{FEFF}'
  }

  /** ASCII whitespace in the sense of the DOM standard (TAB, LF, FF, CR,
      SPACE): the characters a class token may not contain. Every one of them
      is also JavaScript whitespace. */
  predicate IsAsciiWhitespace(c: char)
    ensures IsAsciiWhitespace(c) ==> IsJsWhitespace(c)
  {
    c == '\t' || c == '\n' || c == '\U{C}' || c == '\r' || c == ' '
  }

  predicate AllWhitespace(s: string) {
    forall k :: 0 <= k < |s| ==> IsJsWhitespace(s[k])
  }

  // ---------------------------------------------------------------------
  // trim

  function TrimStart(s: string): (r: string) {
    if s != [] && IsJsWhitespace(s[0]) then TrimStart(s[1..]) else s
  }

  function TrimEnd(s: string): (r: string) {
    if s != [] && IsJsWhitespace(s[|s| - 1]) then TrimEnd(s[..|s| - 1]) else s
  }

  /** `s.trim()`. */
  function Trim(s: string): (r: string) {
    TrimEnd(TrimStart(s))
  }

  lemma {:induction false} TrimStartSpec(s: string)
    ensures |TrimStart(s)| <= |s| && TrimStart(s) == s[|s| - |TrimStart(s)|..]
    ensures var i := |s| - |TrimStart(s)|;
      && AllWhitespace(s[..i])
      && (TrimStart(s) != [] ==> !IsJsWhitespace(TrimStart(s)[0]))
  {
    if s != [] && IsJsWhitespace(s[0]) {
      TrimStartSpec(s[1..]);
      var i := |s| - |TrimStart(s)|;
      assert s[..i] == [s[0]] + s[1..][..i - 1];
    }
  }

  lemma {:induction false} TrimEndSpec(s: string)
    ensures |TrimEnd(s)| <= |s| && TrimEnd(s) == s[..|TrimEnd(s)|]
    ensures var j := |TrimEnd(s)|;
      && AllWhitespace(s[j..])
      && (TrimEnd(s) != [] ==> !IsJsWhitespace(TrimEnd(s)[j - 1]))
  {
    if s != [] && IsJsWhitespace(s[|s| - 1]) {
      var p := s[..|s| - 1];
      TrimEndSpec(p);
      var j := |TrimEnd(s)|;
      assert s[j..] == p[j..] + [s[|s| - 1]];
    }
  }

  /** What `trim` returns has no whitespace at either end. */
  lemma {:induction false} TrimEdges(s: string)
    ensures Trim(s) != [] ==> !IsJsWhitespace(Trim(s)[0]) && !IsJsWhitespace(Trim(s)[|Trim(s)| - 1])
  {
    var t := TrimStart(s);
    TrimStartSpec(s);
    TrimEndSpec(t);
    var r := TrimEnd(t);
    if r != [] {
      assert r[0] == t[0];
    }
  }

  /** `trim` keeps one contiguous slice `s[i..j]` of its argument and drops
      only whitespace around it. */
  lemma {:induction false} TrimSlice(s: string) returns (i: nat, j: nat)
    ensures i <= j <= |s| && Trim(s) == s[i..j]
    ensures AllWhitespace(s[..i]) && AllWhitespace(s[j..])
  {
    var t := TrimStart(s);
    TrimStartSpec(s);
    TrimEndSpec(t);
    i := |s| - |t|;
    var m := |TrimEnd(t)|;
    j := i + m;
    assert t == s[i..];
    assert Trim(s) == s[i..j];
    assert AllWhitespace(s[..i]) by {
      TrimStartSpec(s);
    }
    assert AllWhitespace(s[j..]) by {
      TrimEndSpec(t);
      assert t[m..] == s[j..];
    }
  }

  /** `s.trim().length > 0` holds exactly when `s` has a character that is not
      whitespace. */
  lemma {:induction false} TrimEmptyIffBlank(s: string)
    ensures Trim(s) == [] <==> AllWhitespace(s)
  {
    var i, j := TrimSlice(s);
    if Trim(s) == [] {
      assert s == s[..i] + s[j..];
      forall k | 0 <= k < |s| ensures IsJsWhitespace(s[k]) {
        if k < i { assert s[k] == s[..i][k]; } else { assert s[k] == s[j..][k - j]; }
      }
    } else {
      TrimEdges(s);
      assert s[i] == Trim(s)[0];
    }
  }

  /** A string with no whitespace at either end is its own trim. */
  lemma {:induction false} TrimOfTrimmed(s: string)
    requires s != [] ==> !IsJsWhitespace(s[0]) && !IsJsWhitespace(s[|s| - 1])
    ensures Trim(s) == s
  {
  }

  lemma {:induction false} TrimIdempotent(s: string)
    ensures Trim(Trim(s)) == Trim(s)
  {
    TrimEdges(s);
    TrimOfTrimmed(Trim(s));
  }

  // ---------------------------------------------------------------------
  // split with a one-character separator

  /** `s.split(sep)` for a one-character separator: the pieces between
      separators, empty pieces included, and `[""]` for the empty string. */
  function Split(s: string, sep: char): (r: seq<string>)
    ensures |r| >= 1
  {
    if s == [] then [[]]
    else
      var rest := Split(s[1..], sep);
      if s[0] == sep then [[]] + rest
      else [[s[0]] + rest[0]] + rest[1..]
  }

  /** `parts.join(sep)`. */
  function Join(parts: seq<string>, sep: char): (r: string) {
    if |parts| == 0 then []
    else if |parts| == 1 then parts[0]
    else parts[0] + [sep] + Join(parts[1..], sep)
  }

  /** Joining the pieces back with the separator restores the string. */
  lemma {:induction false} JoinSplit(s: string, sep: char)
    ensures Join(Split(s, sep), sep) == s
  {
    if s != [] {
      var rest := Split(s[1..], sep);
      JoinSplit(s[1..], sep);
      if s[0] != sep {
        assert Split(s, sep)[1..] == rest[1..];
        if |rest| > 1 {
          assert rest == [rest[0]] + rest[1..];
          assert Join(rest, sep) == rest[0] + [sep] + Join(rest[1..], sep);
        }
      }
    }
  }

  /** No piece contains the separator. */
  lemma {:induction false} SplitPiecesFree(s: string, sep: char)
    ensures forall p :: p in Split(s, sep) ==> sep !in p
  {
    if s != [] {
      SplitPiecesFree(s[1..], sep);
      var rest := Split(s[1..], sep);
      if s[0] != sep {
        assert forall p :: p in rest[1..] ==> p in rest;
        assert sep !in rest[0];
      }
    }
  }

  /** The converse round trip: splitting a join of separator-free pieces gives
      the pieces back. */
  lemma {:induction false} SplitJoin(parts: seq<string>, sep: char)
    requires |parts| >= 1
    requires forall p :: p in parts ==> sep !in p
    ensures Split(Join(parts, sep), sep) == parts
  {
    if |parts| == 1 {
      SplitWithoutSeparator(parts[0], sep);
    } else {
      SplitJoin(parts[1..], sep);
      SplitPrefix(parts[0], Join(parts[1..], sep), sep);
    }
  }

  /** A string that does not contain the separator splits into itself. */
  lemma {:induction false} SplitWithoutSeparator(s: string, sep: char)
    requires sep !in s
    ensures Split(s, sep) == [s]
  {
    if s != [] {
      SplitWithoutSeparator(s[1..], sep);
      assert [s[0]] + s[1..] == s;
    }
  }

  lemma {:induction false} SplitPrefix(p: string, t: string, sep: char)
    requires sep !in p
    ensures Split(p + [sep] + t, sep) == [p] + Split(t, sep)
  {
    if p == [] {
      assert p + [sep] + t == [sep] + t;
      assert ([sep] + t)[1..] == t;
    } else {
      SplitPrefix(p[1..], t, sep);
      assert (p + [sep] + t)[1..] == p[1..] + [sep] + t;
      assert [p[0]] + p[1..] == p;
    }
  }

  // ---------------------------------------------------------------------
  // Number.prototype.toString on integers

  function DigitChar(d: nat): (r: char)
    requires d < 10
  {
    "0123456789"[d]
  }

  function DigitValue(c: char): (r: nat) {
    if '0' <= c <= '9' then (c as int - '0' as int) as nat else 0
  }

  predicate IsDigit(c: char) {
    '0' <= c <= '9'
  }

  /** Decimal digits of `n`, most significant first, without leading zeros. */
  function NatToString(n: nat): (r: string)
    ensures |r| >= 1 && (forall k :: 0 <= k < |r| ==> IsDigit(r[k]))
    ensures r[0] == '0' ==> n == 0 && r == "0"
  {
    if n < 10 then [DigitChar(n)] else NatToString(n / 10) + [DigitChar(n % 10)]
  }

  /** `Number.MAX_SAFE_INTEGER`, 2^53 - 1: up to this magnitude every integer
      is a JavaScript number of its own and `toString` prints its exact
      digits. Beyond it a literal rounds to a neighbouring double, and
      `toString` prints the shortest digits that identify that double,
      padded with zeros. */
  const MaxSafeInteger: int := 9_007_199_254_740_991

  /** `(n).toString()` for a safe integer `n`. */
  function IntToString(n: int): (r: string)
    requires -MaxSafeInteger <= n <= MaxSafeInteger
  {
    if n < 0 then "-" + NatToString(-n) else NatToString(n)
  }

  function ParseNat(s: string): (r: nat) {
    if s == [] then 0 else 10 * ParseNat(s[..|s| - 1]) + DigitValue(s[|s| - 1])
  }

  /** Reads back an optionally signed decimal numeral. */
  function ParseInt(s: string): (r: int) {
    if s != [] && s[0] == '-' then -(ParseNat(s[1..]) as int) else ParseNat(s)
  }

  lemma {:induction false} ParseNatToString(n: nat)
    ensures ParseNat(NatToString(n)) == n
  {
    if n >= 10 {
      var r := NatToString(n);
      ParseNatToString(n / 10);
      assert r[..|r| - 1] == NatToString(n / 10);
    }
  }

  /** `s` is the canonical numeral for `n`: a `-` exactly when `n` is
      negative, then one or more digits, the first of them `0` only for zero. */
  predicate CanonicalNumeral(s: string, n: int) {
    var d := if n < 0 then (if s != [] && s[0] == '-' then s[1..] else []) else s;
    && (n < 0 ==> s != [] && s[0] == '-')
    && |d| >= 1 && (forall k :: 0 <= k < |d| ==> IsDigit(d[k]))
    && (d[0] == '0' ==> n == 0)
  }

  /** The decimal form is the canonical numeral of the number and reads back
      as the number. */
  lemma {:induction false} IntToStringRoundTrip(n: int)
    requires -MaxSafeInteger <= n <= MaxSafeInteger
    ensures ParseInt(IntToString(n)) == n
    ensures CanonicalNumeral(IntToString(n), n)
  {
    if n < 0 {
      ParseNatToString(-n);
      assert IntToString(n)[1..] == NatToString(-n);
    } else {
      ParseNatToString(n);
    }
  }
}
