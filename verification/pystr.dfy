/**
 Python string semantics the bot relies on: `str.isspace`, `str.strip`,
 `str.split(sep)`, `str.split()`, `str.startswith`, `int(s)` and `str(n)`.
 Characters are Unicode scalar values, as in Python 3 `str`.
 */
module PyStr {
  import opened Base

  /** `c.isspace()` in Python 3: the characters of bidirectional class
      WS, B or S and the space separators (category Zs). */
  predicate IsSpace(c: char) {
    || ('\U{9}' <= c <= '\U{D}')
    || ('\U{1C}' <= c <= '\U{20}')
    || c == '\U{85}' || c == '\U{A0}' || c == '\U{1680}'
    || ('\U{2000}' <= c <= '\U{200A}')
    || c == '\U{2028}' || c == '\U{2029}' || c == '\U{202F}'
    || c == '\U{205F}' || c == '\U{3000}'
  }

  predicate IsDigit(c: char) {
    '0' <= c <= '9'
  }

  /** `s.startswith(p)` */
  predicate StartsWith(s: string, p: string) {
    |p| <= |s| && s[..|p|] == p
  }

  // ---------------------------------------------------------------------
  // str.strip()

  function TrimLeft(s: string): (r: string)
    ensures |r| <= |s| && r == s[|s| - |r|..]
    ensures r == [] || !IsSpace(r[0])
    ensures forall i :: 0 <= i < |s| - |r| ==> IsSpace(s[i])
    decreases |s|
  {
    if |s| > 0 && IsSpace(s[0]) then TrimLeft(s[1..]) else s
  }

  function TrimRight(s: string): (r: string)
    ensures |r| <= |s| && r == s[..|r|]
    ensures r == [] || !IsSpace(r[|r| - 1])
    ensures forall i :: |r| <= i < |s| ==> IsSpace(s[i])
    decreases |s|
  {
    if |s| > 0 && IsSpace(s[|s| - 1]) then TrimRight(s[..|s| - 1]) else s
  }

  /** `r` is `s` with whitespace removed before index `i` and after `r`. */
  ghost predicate StrippedAt(s: string, r: string, i: int) {
    && 0 <= i <= |s| - |r|
    && r == s[i..i + |r|]
    && (forall k :: 0 <= k < i ==> IsSpace(s[k]))
    && (forall k :: i + |r| <= k < |s| ==> IsSpace(s[k]))
  }

  /** `s.strip()`: the slice of `s` that neither starts nor ends with
      whitespace, obtained by removing only whitespace. */
  function Strip(s: string): (r: string)
    ensures r == [] || (!IsSpace(r[0]) && !IsSpace(r[|r| - 1]))
  {
    TrimRight(TrimLeft(s))
  }

  /** `s.strip()` removes only whitespace, and only at the two ends. */
  lemma StripRemovesEdgeSpace(s: string)
    ensures exists i :: StrippedAt(s, Strip(s), i)
  {
    var l := TrimLeft(s);
    assert StrippedAt(s, Strip(s), |s| - |l|);
  }

  /** A string with no whitespace at either end is its own strip. */
  lemma StripOfTrimmed(s: string)
    requires s == [] || (!IsSpace(s[0]) && !IsSpace(s[|s| - 1]))
    ensures Strip(s) == s
  {
  }

  // ---------------------------------------------------------------------
  // str.split(sep)

  /** `s.split(sep)` for a one-character separator: never empty, and
      consecutive separators yield empty pieces. */
  function Split(s: string, sep: char): (r: seq<string>)
    ensures |r| >= 1
    decreases |s|
  {
    if |s| == 0 then [""]
    else
      var rest := Split(s[1..], sep);
      if s[0] == sep then [""] + rest
      else [[s[0]] + rest[0]] + rest[1..]
  }

  /** No piece of a split holds the separator. */
  lemma {:induction false} SplitPiecesLackSep(s: string, sep: char)
    ensures forall piece <- Split(s, sep) :: sep !in piece
    decreases |s|
  {
    if |s| > 0 {
      SplitPiecesLackSep(s[1..], sep);
    }
  }

  /** `sep.join(pieces)` */
  function Join(pieces: seq<string>, sep: char): string
    decreases |pieces|
  {
    if |pieces| == 0 then ""
    else if |pieces| == 1 then pieces[0]
    else pieces[0] + [sep] + Join(pieces[1..], sep)
  }

  /** `s.split(sep)[-1]`: what follows the last separator. */
  function LastSegment(s: string, sep: char): string {
    var parts := Split(s, sep);
    parts[|parts| - 1]
  }

  lemma {:induction false} SplitWithoutSep(a: string, sep: char)
    requires sep !in a
    ensures Split(a, sep) == [a]
    decreases |a|
  {
    if |a| > 0 {
      SplitWithoutSep(a[1..], sep);
      assert [a[0]] + a[1..] == a;
    }
  }

  lemma {:induction false} SplitAtFirstSep(a: string, sep: char, b: string)
    requires sep !in a
    ensures Split(a + [sep] + b, sep) == [a] + Split(b, sep)
    decreases |a|
  {
    if |a| > 0 {
      assert (a + [sep] + b)[1..] == a[1..] + [sep] + b;
      SplitAtFirstSep(a[1..], sep, b);
      assert [a[0]] + a[1..] == a;
    } else {
      assert (a + [sep] + b)[1..] == b;
    }
  }

  /** Splitting undoes joining, provided no piece holds the separator. */
  lemma {:induction false} SplitJoin(pieces: seq<string>, sep: char)
    requires |pieces| >= 1
    requires forall piece <- pieces :: sep !in piece
    ensures Split(Join(pieces, sep), sep) == pieces
    decreases |pieces|
  {
    if |pieces| == 1 {
      SplitWithoutSep(pieces[0], sep);
    } else {
      SplitJoin(pieces[1..], sep);
      SplitAtFirstSep(pieces[0], sep, Join(pieces[1..], sep));
      assert [pieces[0]] + pieces[1..] == pieces;
    }
  }

  /** Joining undoes splitting. */
  lemma {:induction false} JoinSplit(s: string, sep: char)
    ensures Join(Split(s, sep), sep) == s
    decreases |s|
  {
    if |s| > 0 {
      JoinSplit(s[1..], sep);
      var rest := Split(s[1..], sep);
      if s[0] != sep {
        assert [s[0]] + s[1..] == s;
        if |rest| > 1 {
          assert ([[s[0]] + rest[0]] + rest[1..])[1..] == rest[1..];
        }
      } else {
        assert ([""] + rest)[1..] == rest;
        assert [s[0]] + s[1..] == s;
      }
    }
  }

  lemma LastSegmentOfJoin(pieces: seq<string>, sep: char)
    requires |pieces| >= 1
    requires forall piece <- pieces :: sep !in piece
    ensures LastSegment(Join(pieces, sep), sep) == pieces[|pieces| - 1]
  {
    SplitJoin(pieces, sep);
  }

  // ---------------------------------------------------------------------
  // str.split()

  /** Length of the leading run of non-whitespace characters. */
  function WordLength(s: string): (n: nat)
    ensures n <= |s|
    ensures forall i :: 0 <= i < n ==> !IsSpace(s[i])
    ensures n == |s| || IsSpace(s[n])
    decreases |s|
  {
    if |s| == 0 || IsSpace(s[0]) then 0 else 1 + WordLength(s[1..])
  }

  /** `s.split()`: the maximal runs of non-whitespace, in order. */
  function SplitWhitespace(s: string): (r: seq<string>)
    ensures forall w <- r :: w != [] && forall c <- w :: !IsSpace(c)
    decreases |s|
  {
    if |s| == 0 then []
    else if IsSpace(s[0]) then SplitWhitespace(s[1..])
    else
      var n := WordLength(s);
      [s[..n]] + SplitWhitespace(s[n..])
  }

  /** A word followed by whitespace and more text splits off that word. */
  lemma SplitWhitespaceWord(w: string, sp: char, rest: string)
    requires w != [] && forall c <- w :: !IsSpace(c)
    requires IsSpace(sp)
    ensures SplitWhitespace(w + [sp] + rest) == [w] + SplitWhitespace(rest)
  {
    var s := w + [sp] + rest;
    assert s[|w|] == sp;
    var n := WordLength(s);
    assert n == |w|;
    assert s[..n] == w;
    assert s[n..] == [sp] + rest;
    assert ([sp] + rest)[1..] == rest;
  }

  lemma SplitWhitespaceOneWord(w: string)
    requires w != [] && forall c <- w :: !IsSpace(c)
    ensures SplitWhitespace(w) == [w]
  {
    var n := WordLength(w);
    assert n == |w|;
    assert w[..n] == w;
    assert w[n..] == [];
  }

  // ---------------------------------------------------------------------
  // int(s) and str(n)

  function DigitValue(c: char): nat
    requires IsDigit(c)
  {
    (c as int) - ('0' as int)
  }

  function DigitChar(d: nat): (c: char)
    requires d < 10
    ensures IsDigit(c) && DigitValue(c) == d
  {
    (('0' as int) + d) as char
  }

  /** The body of a decimal literal accepted by `int()`: digits, with single
      underscores allowed between digits (PEP 515). */
  predicate IsDigitRun(t: string) {
    && |t| >= 1
    && IsDigit(t[0])
    && IsDigit(t[|t| - 1])
    && (forall i :: 0 <= i < |t| ==> IsDigit(t[i]) || t[i] == '_')
    && (forall i :: 0 <= i < |t| - 1 && t[i] == '_' ==> t[i + 1] != '_')
  }

  /** Decimal value of digits and underscores, underscores ignored. */
  function DigitsValue(t: string): nat
    requires forall i :: 0 <= i < |t| ==> IsDigit(t[i]) || t[i] == '_'
    decreases |t|
  {
    if |t| == 0 then 0
    else
      var init := DigitsValue(t[..|t| - 1]);
      if t[|t| - 1] == '_' then init else init * 10 + DigitValue(t[|t| - 1])
  }

  /** `int(s)` with base 10: surrounding whitespace, an optional sign, then
      a digit run; `None` is the `ValueError` the source catches. */
  function ParseInt(s: string): Option<int> {
    var t := Strip(s);
    if |t| > 0 && (t[0] == '+' || t[0] == '-') then
      var body := t[1..];
      if IsDigitRun(body) then
        var v: int := DigitsValue(body);
        Some(if t[0] == '-' then -v else v)
      else None
    else if IsDigitRun(t) then Some(DigitsValue(t))
    else None
  }

  function NatToString(n: nat): (r: string)
    ensures |r| >= 1
    ensures forall i :: 0 <= i < |r| ==> IsDigit(r[i])
    decreases n
  {
    if n < 10 then [DigitChar(n)] else NatToString(n / 10) + [DigitChar(n % 10)]
  }

  /** `str(n)` */
  function IntToString(n: int): string {
    if n < 0 then "-" + NatToString(-n) else NatToString(n)
  }

  lemma {:induction false} NatToStringValue(n: nat)
    ensures DigitsValue(NatToString(n)) == n
    decreases n
  {
    if n >= 10 {
      NatToStringValue(n / 10);
      var t := NatToString(n);
      assert t[..|t| - 1] == NatToString(n / 10);
    }
  }

  lemma DigitIsNotSpace(c: char)
    requires IsDigit(c)
    ensures !IsSpace(c) && c != '-' && c != '+' && c != '_' && c != ':'
  {
  }

  /** `int(str(n)) == n` for a natural number. */
  lemma NatToStringParses(m: nat)
    ensures ParseInt(NatToString(m)) == Some(m)
  {
    var t := NatToString(m);
    NatToStringValue(m);
    DigitIsNotSpace(t[0]);
    DigitIsNotSpace(t[|t| - 1]);
    StripOfTrimmed(t);
    assert IsDigitRun(t);
  }

  /** `int(str(n)) == n` */
  lemma IntToStringRoundTrip(n: int)
    ensures ParseInt(IntToString(n)) == Some(n)
  {
    if n >= 0 {
      NatToStringParses(n);
    } else {
      NegativeRoundTrip(n);
    }
  }

  lemma NegativeRoundTrip(n: int)
    requires n < 0
    ensures ParseInt(IntToString(n)) == Some(n)
  {
    var m: nat := -n;
    assert IntToString(n) == "-" + NatToString(m);
    NegativeParses(m);
  }

  /** `int("-" + str(m)) == -m` */
  lemma NegativeParses(m: nat)
    ensures ParseInt("-" + NatToString(m)) == Some(-(m as int))
  {
    var t := NatToString(m);
    NatToStringDigitRun(m);
    NatToStringValue(m);
    DigitIsNotSpace(t[|t| - 1]);
    SignedDigitRun(t, m);
  }

  /** `int("-" + t) == -v` for a digit run `t` of value `v`. */
  lemma SignedDigitRun(t: string, v: nat)
    requires IsDigitRun(t) && DigitsValue(t) == v && !IsSpace(t[|t| - 1])
    ensures ParseInt("-" + t) == Some(-(v as int))
  {
    var s := "-" + t;
    assert s[1..] == t && s[0] == '-';
    assert s[|s| - 1] == t[|t| - 1];
    StripOfTrimmed(s);
    ParseNegative(s);
  }

  lemma NatToStringDigitRun(m: nat)
    ensures IsDigitRun(NatToString(m))
  {
  }

  /** `int()` of a minus sign followed by a digit run. */
  lemma ParseNegative(s: string)
    requires Strip(s) == s && |s| > 0 && s[0] == '-' && IsDigitRun(s[1..])
    ensures ParseInt(s) == Some(-(DigitsValue(s[1..]) as int))
  {
  }

  /** `str(n)` never contains a colon or whitespace. */
  lemma IntToStringChars(n: int)
    ensures ':' !in IntToString(n)
    ensures IntToString(n) != [] && forall c <- IntToString(n) :: !IsSpace(c)
  {
    var m: nat := if n < 0 then -n else n;
    var digits := NatToString(m);
    assert forall c <- digits :: IsDigit(c);
  }
}
