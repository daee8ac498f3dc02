/** Bytes, and the handful of Python `str` operations the installation's code relies on:
    `isspace`, `strip`, `split()`, `lower`, `startswith`, `int(...)` on a
    string and `str(...)` of an integer, all over `seq<char>`. */
module Text {
  import opened Wrappers
  import Seqs

  /** A byte of a serial line or a file. */
  type byte = b: int | 0 <= b < 256

  /** Python's `str.isspace` for one character: the C0 separators, space,
      NEL, NO-BREAK SPACE and the Unicode space characters. */
  predicate IsSpace(c: char) {
    || ('\t' <= c <= '\r') || ('\U{1C}' <= c <= '\U{1F}') || c == ' '
    || c == '\U{85}' || c == '\U{A0}' || c == '\U{1680}'
    || ('\U{2000}' <= c <= '\U{200A}') || c == '\U{2028}' || c == '\U{2029}'
    || c == '\U{202F}' || c == '\U{205F}' || c == '\U{3000}'
  }

  predicate NoSpace(s: string) {
    forall i | 0 <= i < |s| :: !IsSpace(s[i])
  }

  predicate AllSpace(s: string) {
    forall i | 0 <= i < |s| :: IsSpace(s[i])
  }

  predicate IsDigit(c: char) {
    '0' <= c <= '9'
  }

  predicate StartsWith(s: string, prefix: string) {
    |prefix| <= |s| && s[..|prefix|] == prefix
  }

  /** Python's `k in s` on strings: `k` occurs somewhere in `s` as a
      contiguous piece. */
  predicate Occurs(k: string, s: string)
    decreases |s|
  {
    StartsWith(s, k) || (s != [] && Occurs(k, s[1..]))
  }

  /** Index of the first non-whitespace character at or after `i` (`|s|`
      when there is none). */
  function SkipSpace(s: string, i: nat): (k: nat)
    requires i <= |s|
    ensures i <= k <= |s|
    ensures forall j | i <= j < k :: IsSpace(s[j])
    ensures k < |s| ==> !IsSpace(s[k])
    decreases |s| - i
  {
    if i < |s| && IsSpace(s[i]) then SkipSpace(s, i + 1) else i
  }

  /** Index of the first whitespace character at or after `i` (`|s|` when
      there is none): the end of the token starting at `i`. */
  function TokenEnd(s: string, i: nat): (k: nat)
    requires i <= |s|
    ensures i <= k <= |s|
    ensures forall j | i <= j < k :: !IsSpace(s[j])
    ensures k < |s| ==> IsSpace(s[k])
    decreases |s| - i
  {
    if i < |s| && !IsSpace(s[i]) then TokenEnd(s, i + 1) else i
  }

  /** Index just past the last non-whitespace character of `s[lo..hi]`
      (`lo` when there is none). */
  function TrimEnd(s: string, lo: nat, hi: nat): (k: nat)
    requires lo <= hi <= |s|
    ensures lo <= k <= hi
    ensures forall j | k <= j < hi :: IsSpace(s[j])
    ensures k > lo ==> !IsSpace(s[k - 1])
    decreases hi - lo
  {
    if hi > lo && IsSpace(s[hi - 1]) then TrimEnd(s, lo, hi - 1) else hi
  }

  /** `str.strip()`: the text between the leading and the trailing whitespace. */
  function Strip(s: string): (r: string)
    ensures |r| <= |s|
    ensures r == [] || (!IsSpace(r[0]) && !IsSpace(r[|r| - 1]))
  {
    var i := SkipSpace(s, 0);
    s[i..TrimEnd(s, i, |s|)]
  }

  /** `str.split()` with no separator: the maximal runs of non-whitespace. */
  function Split(s: string): (r: seq<string>)
    ensures forall i | 0 <= i < |r| :: r[i] != [] && NoSpace(r[i])
    decreases |s|
  {
    var i := SkipSpace(s, 0);
    if i == |s| then [] else
    var k := TokenEnd(s, i);
    [s[i..k]] + Split(s[k..])
  }

  /** `" ".join(tokens)` */
  function Unwords(tokens: seq<string>): string {
    if |tokens| == 0 then ""
    else if |tokens| == 1 then tokens[0]
    else tokens[0] + " " + Unwords(tokens[1..])
  }

  /** ASCII `str.lower()`.  For the placeholder tests of the transcript
      handlers this agrees with Python's Unicode mapping: the only non-ASCII
      letters that lower-case into ASCII are KELVIN SIGN (to 'k') and
      U+0130 (to "i" plus a combining dot), and neither can complete a marker. */
  function Lower(s: string): (r: string)
    ensures |r| == |s|
    ensures forall i | 0 <= i < |s| :: r[i] == if 'A' <= s[i] <= 'Z' then (s[i] as int + 32) as char else s[i]
  {
    if s == [] then []
    else [if 'A' <= s[0] <= 'Z' then (s[0] as int + 32) as char else s[0]] + Lower(s[1..])
  }

  /** Index of the first occurrence of `c`, or `|s|` when there is none. */
  function IndexOf(s: string, c: char): (k: nat)
    ensures k <= |s| && c !in s[..k] && (k < |s| ==> s[k] == c)
  {
    if s == [] then 0 else if s[0] == c then 0 else 1 + IndexOf(s[1..], c)
  }

  // ---------------------------------------------------------------
  // Integers: Python's `str(n)` and `int(s)` in base 10
  // ---------------------------------------------------------------

  function DigitChar(d: nat): (c: char)
    requires d < 10
    ensures IsDigit(c)
  {
    ('0' as int + d) as char
  }

  function DigitsValue(s: string): nat
    requires forall i | 0 <= i < |s| :: IsDigit(s[i])
  {
    if s == [] then 0
    else
      assert IsDigit(s[|s| - 1]);
      DigitsValue(s[..|s| - 1]) * 10 + (s[|s| - 1] as int - '0' as int)
  }

  /** Decimal digits of `n` without leading zeros. */
  function NatToString(n: nat): (s: string)
    ensures s != [] && forall i | 0 <= i < |s| :: IsDigit(s[i])
  {
    if n < 10 then [DigitChar(n)] else NatToString(n / 10) + [DigitChar(n % 10)]
  }

  /** Python's `str(n)` (also what an f-string prints for an `int`). */
  function IntToString(n: int): string {
    if n < 0 then "-" + NatToString(-n) else NatToString(n)
  }

  /** The digit part accepted by `int()`: digits, with single underscores
      allowed between two digits. */
  predicate DecimalLiteral(s: string) {
    && s != [] && IsDigit(s[0]) && IsDigit(s[|s| - 1])
    && (forall i | 0 <= i < |s| :: IsDigit(s[i]) || s[i] == '_')
    && (forall i | 0 <= i < |s| - 1 :: !(s[i] == '_' && s[i + 1] == '_'))
  }

  function DropUnderscores(s: string): (r: string)
    requires forall i | 0 <= i < |s| :: IsDigit(s[i]) || s[i] == '_'
    ensures forall i | 0 <= i < |r| :: IsDigit(r[i])
    ensures (forall i | 0 <= i < |s| :: s[i] != '_') ==> r == s
  {
    if s == [] then [] else (if s[0] == '_' then [] else [s[0]]) + DropUnderscores(s[1..])
  }

  function ParseUnsigned(s: string): Option<int> {
    if DecimalLiteral(s) then Some(DigitsValue(DropUnderscores(s))) else None
  }

  /** Python's `int(s)` for a `str` argument: surrounding whitespace, an
      optional sign, then a decimal literal; `None` stands for `ValueError`. */
  function ParseInt(s: string): Option<int> {
    var t := Strip(s);
    if t != [] && t[0] == '-' then
      match ParseUnsigned(t[1..]) case Some(v) => Some(-v) case None => None
    else if t != [] && t[0] == '+' then ParseUnsigned(t[1..])
    else ParseUnsigned(t)
  }

  // ---------------------------------------------------------------
  // Lemmas
  // ---------------------------------------------------------------

  lemma {:induction false} NatToStringValue(n: nat)
    ensures DigitsValue(NatToString(n)) == n
  {
    if n >= 10 {
      var a := NatToString(n / 10);
      var s := a + [DigitChar(n % 10)];
      assert s[..|s| - 1] == a;
      NatToStringValue(n / 10);
    }
  }

  /** `strip` removes exactly a whitespace prefix and a whitespace suffix:
      whatever surrounds a text that neither starts nor ends in whitespace. */
  lemma StripShape(p: string, m: string, q: string)
    requires AllSpace(p) && AllSpace(q)
    requires m == [] || (!IsSpace(m[0]) && !IsSpace(m[|m| - 1]))
    ensures Strip(p + m + q) == m
  {
    var s := p + m + q;
    if m == [] {
      assert AllSpace(s) by {
        forall j | 0 <= j < |s| ensures IsSpace(s[j]) {
          if j < |p| { assert s[j] == p[j]; } else { assert s[j] == q[j - |p|]; }
        }
      }
      StripAllSpace(s);
    } else {
      forall j | 0 <= j < |p| ensures IsSpace(s[j]) { assert s[j] == p[j]; }
      forall j | |p| + |m| <= j < |s| ensures IsSpace(s[j]) { assert s[j] == q[j - |p| - |m|]; }
      assert s[|p|] == m[0];
      assert s[|p| + |m| - 1] == m[|m| - 1];
      StripBetween(s, |p|, |p| + |m|);
      assert s[|p|..|p| + |m|] == m;
    }
  }

  /** Stripping twice is stripping once. */
  lemma StripIdempotent(s: string)
    ensures Strip(Strip(s)) == Strip(s)
  {
    var r := Strip(s);
    StripShape([], r, []);
    assert [] + r + [] == r;
  }

  /** Every character of the stripped text occurs in the original. */
  lemma StripChars(s: string)
    ensures forall c | c in Strip(s) :: c in s
  {
    var i := SkipSpace(s, 0);
    var e := TrimEnd(s, i, |s|);
    forall c | c in Strip(s) ensures c in s {
      var j :| 0 <= j < e - i && s[i..e][j] == c;
      assert s[i + j] == c;
    }
  }

  lemma StripAllSpace(s: string)
    requires AllSpace(s)
    ensures Strip(s) == []
  {
    assert SkipSpace(s, 0) == |s|;
  }

  /** When `s[i..e]` is non-empty, starts and ends in non-whitespace and only
      whitespace lies outside it, `strip` returns exactly `s[i..e]`. */
  lemma StripBetween(s: string, i: nat, e: nat)
    requires i < e <= |s|
    requires forall j | 0 <= j < i :: IsSpace(s[j])
    requires forall j | e <= j < |s| :: IsSpace(s[j])
    requires !IsSpace(s[i]) && !IsSpace(s[e - 1])
    ensures Strip(s) == s[i..e]
  {
    assert SkipSpace(s, 0) == i;
    assert TrimEnd(s, i, |s|) == e;
  }

  /** Printable ASCII other than the space is never whitespace. */
  lemma GraphicNoSpace(s: string)
    requires forall i | 0 <= i < |s| :: '!' <= s[i] <= '~'
    ensures NoSpace(s)
  {
  }

  lemma StripNoSpace(s: string)
    requires NoSpace(s)
    ensures Strip(s) == s
  {
    if s != [] {
      StripShape([], s, []);
      assert [] + s + [] == s;
    } else {
      assert Strip(s) == [];
    }
  }

  lemma ParseNatToString(m: nat)
    ensures ParseUnsigned(NatToString(m)) == Some(m)
  {
    var d := NatToString(m);
    NatToStringValue(m);
    assert forall i | 0 <= i < |d| :: d[i] != '_';
    assert DropUnderscores(d) == d;
    assert DecimalLiteral(d);
  }

  /** `int(str(n)) == n`: the decimal text of an integer reads back as it. */
  lemma IntToStringRoundTrip(n: int)
    ensures ParseInt(IntToString(n)) == Some(n)
  {
    if n < 0 {
      NegativeRoundTrip(-n);
    } else {
      NonNegativeRoundTrip(n);
    }
  }

  lemma NonNegativeRoundTrip(m: nat)
    ensures ParseInt(IntToString(m)) == Some(m as int)
  {
    assert IntToString(m) == NatToString(m);
    DigitsRoundTrip(m);
  }

  lemma DigitsRoundTrip(m: nat)
    ensures ParseInt(NatToString(m)) == Some(m as int)
  {
    var d := NatToString(m);
    ParseNatToString(m);
    DigitsNoSpace(d);
    StripNoSpace(d);
    assert IsDigit(d[0]);
  }

  lemma NegativeRoundTrip(m: nat)
    requires m > 0
    ensures ParseInt(IntToString(-(m as int))) == Some(-(m as int))
  {
    assert IntToString(-(m as int)) == "-" + NatToString(m);
    MinusDigitsRoundTrip(m);
  }

  lemma MinusDigitsRoundTrip(m: nat)
    requires m > 0
    ensures ParseInt("-" + NatToString(m)) == Some(-(m as int))
  {
    var d := NatToString(m);
    var s := "-" + d;
    ParseNatToString(m);
    DigitsNoSpace(d);
    assert NoSpace(s) by {
      forall i | 0 <= i < |s| ensures !IsSpace(s[i]) {
        if i > 0 { assert s[i] == d[i - 1]; }
      }
    }
    StripNoSpace(s);
    assert s[1..] == d;
  }

  lemma DigitsNoSpace(d: string)
    requires forall i | 0 <= i < |d| :: IsDigit(d[i])
    ensures NoSpace(d)
  {
    forall i | 0 <= i < |d| ensures !IsSpace(d[i]) {
      assert IsDigit(d[i]);
    }
  }

  lemma SplitAllSpace(s: string)
    requires AllSpace(s)
    ensures Split(s) == []
  {
    assert SkipSpace(s, 0) == |s|;
  }

  /** A token followed by whitespace or the end is split off first. */
  lemma SplitToken(a: string, b: string)
    requires a != [] && NoSpace(a)
    requires b == [] || IsSpace(b[0])
    ensures Split(a + b) == [a] + Split(b)
  {
    var s := a + b;
    assert s[0] == a[0];
    assert SkipSpace(s, 0) == 0;
    forall j | 0 <= j < |a| ensures !IsSpace(s[j]) { assert s[j] == a[j]; }
    if b != [] { assert s[|a|] == b[0]; }
    assert TokenEnd(s, 0) == |a|;
    assert s[0..|a|] == a;
    assert s[|a|..] == b;
  }

  /** Leading whitespace does not change the split. */
  lemma SplitLeadingSpace(p: string, b: string)
    requires AllSpace(p)
    ensures Split(p + b) == Split(b)
  {
    var s := p + b;
    var n := |p|;
    SpaceThenRest(p, b);
    var i', k' := ShiftFirstToken(s, n, b);
    if i' < |b| {
      SplitSameFirst(s, n + i', n + k', b, i', k');
    } else {
      SplitNone(s);
      SplitNone(b);
    }
  }

  /** `p + b` is whitespace up to `|p|` and `b` from there. */
  lemma SpaceThenRest(p: string, b: string)
    requires AllSpace(p)
    ensures forall j | 0 <= j < |p| :: IsSpace((p + b)[j])
    ensures (p + b)[|p|..] == b
  {
    forall j | 0 <= j < |p| ensures IsSpace((p + b)[j]) { assert (p + b)[j] == p[j]; }
  }

  /** Where the first token of `s` starts and ends when `s` is whitespace
      up to `n` and `b` from there: `n` further on than in `b`, with the
      same text from there. */
  lemma ShiftFirstToken(s: string, n: nat, b: string) returns (i': nat, k': nat)
    requires n <= |s| && s[n..] == b
    requires forall j | 0 <= j < n :: IsSpace(s[j])
    ensures i' == SkipSpace(b, 0) && SkipSpace(s, 0) == n + i'
    ensures i' < |b| ==>
      && k' == TokenEnd(b, i') && TokenEnd(s, n + i') == n + k'
      && s[n + i'..n + k'] == b[i'..k'] && s[n + k'..] == b[k'..]
  {
    SkipSpaceShift(s, n, b);
    i' := SkipSpace(b, 0);
    k' := 0;
    if i' < |b| {
      k' := TokenEnd(b, i');
      TokenEndShift(s, n, b, i');
      ShiftSlices(s, n, b, i', k');
    }
  }

  /** Two texts with the same first token and the same text after it split
      alike. */
  lemma SplitSameFirst(s: string, i: nat, k: nat, b: string, i': nat, k': nat)
    requires i == SkipSpace(s, 0) < |s| && k == TokenEnd(s, i)
    requires i' == SkipSpace(b, 0) < |b| && k' == TokenEnd(b, i')
    requires s[i..k] == b[i'..k'] && s[k..] == b[k'..]
    ensures Split(s) == Split(b)
  {
    SplitFirst(s, i, k);
    SplitFirst(b, i', k');
  }

  /** Only whitespace splits into nothing. */
  lemma SplitNone(s: string)
    requires SkipSpace(s, 0) == |s|
    ensures Split(s) == []
  {
  }

  /** The first token and the rest, when there is a token. */
  lemma SplitFirst(s: string, i: nat, k: nat)
    requires i == SkipSpace(s, 0) < |s| && k == TokenEnd(s, i)
    ensures Split(s) == [s[i..k]] + Split(s[k..])
  {
  }

  /** Slices of `b` are the same slices of `s`, `n` further on. */
  lemma ShiftSlices(s: string, n: nat, b: string, i: nat, k: nat)
    requires n <= |s| && s[n..] == b && i <= k <= |b|
    ensures s[n + i..n + k] == b[i..k] && s[n + k..] == b[k..]
  {
    assert |s| == n + |b|;
    forall j | 0 <= j < k - i ensures s[n + i..n + k][j] == b[i..k][j] {
      assert s[n + i + j] == s[n..][i + j];
    }
    forall j | 0 <= j < |b| - k ensures s[n + k..][j] == b[k..][j] {
      assert s[n + k + j] == s[n..][k + j];
    }
  }

  lemma SkipSpaceShift(s: string, n: nat, b: string)
    requires n <= |s| && s[n..] == b
    requires forall j | 0 <= j < n :: IsSpace(s[j])
    ensures SkipSpace(s, 0) == n + SkipSpace(b, 0)
  {
    var i' := SkipSpace(b, 0);
    if i' < |b| { assert s[n + i'] == b[i']; }
    forall j | n <= j < n + i' ensures IsSpace(s[j]) { assert s[j] == b[j - n]; }
  }

  lemma TokenEndShift(s: string, n: nat, b: string, i: nat)
    requires n <= |s| && s[n..] == b && i <= |b|
    ensures TokenEnd(s, n + i) == n + TokenEnd(b, i)
  {
    var k' := TokenEnd(b, i);
    if k' < |b| { assert s[n + k'] == b[k']; }
    forall j | n + i <= j < n + k' ensures !IsSpace(s[j]) { assert s[j] == b[j - n]; }
  }

  /** `" ".join(ts) + tail` splits back into `ts` when every token is
      non-empty without whitespace and `tail` is whitespace (e.g. "\r\n"). */
  lemma {:induction false} SplitUnwords(ts: seq<string>, tail: string)
    requires forall i | 0 <= i < |ts| :: ts[i] != [] && NoSpace(ts[i])
    requires AllSpace(tail)
    ensures Split(Unwords(ts) + tail) == ts
    decreases |ts|
  {
    if |ts| == 0 {
      assert Unwords(ts) + tail == tail;
      SplitAllSpace(tail);
    } else if |ts| == 1 {
      SplitToken(ts[0], tail);
      SplitAllSpace(tail);
    } else {
      var rest := Unwords(ts[1..]) + tail;
      assert Unwords(ts) == ts[0] + [' '] + Unwords(ts[1..]);
      Seqs.AppendAssoc(ts[0] + [' '], Unwords(ts[1..]), tail);
      Seqs.AppendAssoc(ts[0], [' '], rest);
      SplitToken(ts[0], [' '] + rest);
      SplitLeadingSpace([' '], rest);
      SplitUnwords(ts[1..], tail);
    }
  }

  // ---------------------------------------------------------------
  // Command and reply lines: words of printable ASCII joined by spaces
  // ---------------------------------------------------------------

  /** Printable ASCII other than the space. */
  predicate Graphic(c: char) {
    '!' <= c <= '~'
  }

  /** A non-empty run of printable, non-space ASCII. */
  predicate Word(s: string) {
    s != [] && forall i | 0 <= i < |s| :: Graphic(s[i])
  }

  /** Every character is ASCII, so `str.encode("ascii")` succeeds. */
  predicate Ascii(s: string) {
    forall i | 0 <= i < |s| :: s[i] < 128 as char
  }

  lemma WordNoSpace(s: string)
    requires Word(s)
    ensures NoSpace(s)
  {
    GraphicNoSpace(s);
  }

  lemma IntToStringWord(n: int)
    ensures Word(IntToString(n))
  {
    var d := NatToString(if n < 0 then -n else n);
    if n < 0 {
      assert IntToString(n) == "-" + d;
      assert forall i | 1 <= i < |d| + 1 :: IntToString(n)[i] == d[i - 1];
    }
  }

  /** Words joined by single spaces: ASCII, and neither starting nor ending
      in whitespace. */
  lemma {:induction false} UnwordsWords(ts: seq<string>)
    requires forall i | 0 <= i < |ts| :: Word(ts[i])
    ensures Ascii(Unwords(ts))
    ensures |ts| > 0 ==> Unwords(ts) != [] && Graphic(Unwords(ts)[0]) && Graphic(Unwords(ts)[|Unwords(ts)| - 1])
    decreases |ts|
  {
    if |ts| > 1 {
      UnwordsWords(ts[1..]);
      var rest := Unwords(ts[1..]);
      var u := ts[0] + " " + rest;
      assert Unwords(ts) == u;
      forall i | 0 <= i < |u| ensures u[i] < 128 as char {
        if i < |ts[0]| {
          assert u[i] == ts[0][i];
        } else if i > |ts[0]| {
          assert u[i] == rest[i - |ts[0]| - 1];
        }
      }
      assert u[0] == ts[0][0];
      assert u[|u| - 1] == rest[|rest| - 1];
    }
  }

  /** A line of words ended by "\r\n" reads back, after `strip()` and
      `split()`, as those words. */
  lemma SplitLine(ts: seq<string>)
    requires |ts| > 0 && forall i | 0 <= i < |ts| :: Word(ts[i])
    ensures Ascii(Unwords(ts) + "\r\n")
    ensures Strip(Unwords(ts) + "\r\n") == Unwords(ts)
    ensures Split(Unwords(ts) + "\r\n") == ts
    ensures Split(Unwords(ts)) == ts
  {
    UnwordsWords(ts);
    LineAscii(Unwords(ts));
    LineStrip(Unwords(ts));
    forall i | 0 <= i < |ts| ensures ts[i] != [] && NoSpace(ts[i]) {
      WordNoSpace(ts[i]);
    }
    SplitUnwords(ts, "\r\n");
    SplitUnwords(ts, []);
    assert Unwords(ts) + [] == Unwords(ts);
  }

  lemma LineAscii(body: string)
    requires Ascii(body)
    ensures Ascii(body + "\r\n")
  {
    var text := body + "\r\n";
    forall i | 0 <= i < |text| ensures text[i] < 128 as char {
      if i < |body| { assert text[i] == body[i]; }
    }
  }

  lemma LineStrip(body: string)
    requires body != [] && Graphic(body[0]) && Graphic(body[|body| - 1])
    ensures Strip(body + "\r\n") == body
  {
    var text := body + "\r\n";
    assert text[0] == body[0] && text[|body| - 1] == body[|body| - 1];
    StripBetween(text, 0, |body|);
    assert text[0..|body|] == body;
  }
}
