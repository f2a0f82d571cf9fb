/**
 * The few Python string built-ins the application relies on, stated over
 * Dafny strings: `None`, `str.strip()`, `str(int)`, `int(str)`,
 * `str.split(",")` and `",".join(...)`.
 */
module PyText {

  /** Python's `None` next to a present value (a NULL column, a missing form field). */
  datatype Option<T> = None | Some(value: T)

  /** The value of an optional string, or "" for None (Python's `x or ""`). */
  function OrEmpty(s: Option<string>): string {
    if s.Some? then s.value else ""
  }

  // ---------------------------------------------------------------------------
  // str.strip()
  // ---------------------------------------------------------------------------

  /** Python's `str.isspace()` for one character: the characters `strip()` removes. */
  predicate IsSpace(c: char) {
    || ('\U{0009}' <= c <= '\U{000D}')
    || ('\U{001C}' <= c <= '\U{0020}')
    || c == '\U{0085}' || c == '\U{00A0}' || c == '\U{1680}'
    || ('\U{2000}' <= c <= '\U{200A}')
    || c == '\U{2028}' || c == '\U{2029}' || c == '\U{202F}'
    || c == '\U{205F}' || c == '\U{3000}'
  }

  predicate AllSpace(s: string) {
    forall i :: 0 <= i < |s| ==> IsSpace(s[i])
  }

  /** `s.lstrip()`: the suffix of `s` left after dropping its leading whitespace. */
  function TrimStart(s: string): (r: string)
    ensures |r| <= |s|
    ensures r == [] || !IsSpace(r[0])
  {
    if s != [] && IsSpace(s[0]) then TrimStart(s[1..]) else s
  }

  /** `s.rstrip()`: the prefix of `s` left after dropping its trailing whitespace. */
  function TrimEnd(s: string): (r: string)
    ensures |r| <= |s|
    ensures r == [] || !IsSpace(r[|r| - 1])
  {
    if s != [] && IsSpace(s[|s| - 1]) then TrimEnd(s[..|s| - 1]) else s
  }

  /** `lstrip()` removes a run of leading whitespace and nothing else. */
  lemma {:induction false} TrimStartRemovesSpace(s: string)
    ensures TrimStart(s) == s[|s| - |TrimStart(s)|..]
    ensures AllSpace(s[..|s| - |TrimStart(s)|])
    decreases |s|
  {
    if s != [] && IsSpace(s[0]) {
      var r := TrimStart(s[1..]);
      TrimStartRemovesSpace(s[1..]);
      assert s[..|s| - |r|] == [s[0]] + s[1..][..|s| - 1 - |r|];
    }
  }

  /** `rstrip()` removes a run of trailing whitespace and nothing else. */
  lemma {:induction false} TrimEndRemovesSpace(s: string)
    ensures TrimEnd(s) == s[..|TrimEnd(s)|]
    ensures AllSpace(s[|TrimEnd(s)|..])
    decreases |s|
  {
    if s != [] && IsSpace(s[|s| - 1]) {
      var r := TrimEnd(s[..|s| - 1]);
      TrimEndRemovesSpace(s[..|s| - 1]);
      assert s[|r|..] == s[..|s| - 1][|r|..] + [s[|s| - 1]];
    }
  }

  /** `s.strip()`. */
  function Strip(s: string): (r: string)
    ensures r == [] || (!IsSpace(r[0]) && !IsSpace(r[|r| - 1]))
  {
    TrimEndRemovesSpace(TrimStart(s));
    TrimEnd(TrimStart(s))
  }

  lemma {:induction false} TrimStartOfSpaces(ws: string, t: string)
    requires AllSpace(ws)
    ensures TrimStart(ws + t) == TrimStart(t)
    decreases |ws|
  {
    if ws != [] {
      assert (ws + t)[0] == ws[0] && IsSpace(ws[0]);
      assert (ws + t)[1..] == ws[1..] + t;
      var rest := ws[1..];
      assert AllSpace(rest) by {
        forall i | 0 <= i < |rest| ensures IsSpace(rest[i]) { assert rest[i] == ws[i + 1]; }
      }
      TrimStartOfSpaces(rest, t);
      assert TrimStart(ws + t) == TrimStart(rest + t);
    } else {
      assert ws + t == t;
    }
  }

  lemma {:induction false} TrimStartKeepsTail(s: string, t: string)
    requires !AllSpace(s)
    ensures TrimStart(s + t) == TrimStart(s) + t
    decreases |s|
  {
    assert s != [];
    if IsSpace(s[0]) {
      assert (s + t)[1..] == s[1..] + t;
      assert !AllSpace(s[1..]) by {
        var i :| 0 <= i < |s| && !IsSpace(s[i]);
        assert s[1..][i - 1] == s[i];
      }
      TrimStartKeepsTail(s[1..], t);
    }
  }

  lemma {:induction false} TrimEndOfSpaces(t: string, ws: string)
    requires AllSpace(ws)
    ensures TrimEnd(t + ws) == TrimEnd(t)
    decreases |ws|
  {
    if ws != [] {
      assert (t + ws)[|t + ws| - 1] == ws[|ws| - 1] && IsSpace(ws[|ws| - 1]);
      var init := ws[..|ws| - 1];
      assert (t + ws)[..|t + ws| - 1] == t + init;
      assert AllSpace(init) by {
        forall i | 0 <= i < |init| ensures IsSpace(init[i]) { assert init[i] == ws[i]; }
      }
      TrimEndOfSpaces(t, init);
      assert TrimEnd(t + ws) == TrimEnd(t + init);
    } else {
      assert t + ws == t;
    }
  }

  /** Surrounding whitespace never reaches the result of `strip()`. */
  lemma StripOfPadded(pre: string, s: string, post: string)
    requires AllSpace(pre) && AllSpace(post)
    ensures Strip(pre + s + post) == Strip(s)
  {
    assert pre + s + post == pre + (s + post);
    TrimStartOfSpaces(pre, s + post);
    if AllSpace(s) {
      AllSpaceConcat(s, post);
      TrimStartOfSpaces(s + post, []);
      TrimStartOfSpaces(s, []);
      assert s + post + [] == s + post && s + [] == s;
    } else {
      TrimStartKeepsTail(s, post);
      TrimEndOfSpaces(TrimStart(s), post);
    }
  }

  /** `strip()` yields "" exactly for the strings made of whitespace only. */
  lemma StripEmptyIffSpace(s: string)
    ensures Strip(s) == [] <==> AllSpace(s)
  {
    var t := TrimStart(s);
    if AllSpace(s) {
      TrimStartOfSpaces(s, []);
      assert s + [] == s;
    }
    if Strip(s) == [] {
      TrimStartRemovesSpace(s);
      TrimEndRemovesSpace(t);
      assert t[0..] == t;
      var k := |s| - |t|;
      assert s == s[..k] + t;
      AllSpaceConcat(s[..k], t);
    }
  }

  lemma AllSpaceConcat(a: string, b: string)
    requires AllSpace(a) && AllSpace(b)
    ensures AllSpace(a + b)
  {
    forall i | 0 <= i < |a + b| ensures IsSpace((a + b)[i]) {
      if i < |a| { assert (a + b)[i] == a[i]; } else { assert (a + b)[i] == b[i - |a|]; }
    }
  }

  /** A string with no whitespace at either end is left alone by `strip()`. */
  lemma StripTrimmed(s: string)
    requires s == [] || (!IsSpace(s[0]) && !IsSpace(s[|s| - 1]))
    ensures Strip(s) == s
  {
  }

  // ---------------------------------------------------------------------------
  // str(int) and int(str), base 10
  // ---------------------------------------------------------------------------

  predicate IsDigit(c: char) {
    '0' <= c <= '9'
  }

  function DigitChar(d: nat): (c: char)
    requires d < 10
    ensures IsDigit(c)
  {
    ('0' as int + d) as char
  }

  function DigitValue(c: char): (d: nat)
    requires IsDigit(c)
    ensures d < 10 && DigitChar(d) == c
  {
    c as int - '0' as int
  }

  /** `str(n)` for a natural number: its decimal digits, most significant first. */
  function NatToString(n: nat): (r: string)
    ensures |r| >= 1 && forall i :: 0 <= i < |r| ==> IsDigit(r[i])
    decreases n
  {
    if n < 10 then [DigitChar(n)] else NatToString(n / 10) + [DigitChar(n % 10)]
  }

  /** `str(i)` for any integer. */
  function IntToString(i: int): (r: string)
    ensures |r| >= 1 && IsDigit(r[|r| - 1])
    ensures r[0] == '-' <==> i < 0
  {
    if i < 0 then "-" + NatToString(-i) else NatToString(i)
  }

  /** The value of a non-empty run of ASCII decimal digits (leading zeros allowed). */
  function ParseDigits(s: string): (r: Option<nat>)
    ensures r.Some? <==> s != [] && forall i :: 0 <= i < |s| ==> IsDigit(s[i])
    decreases |s|
  {
    if s == [] || !IsDigit(s[|s| - 1]) then None
    else if |s| == 1 then Some(DigitValue(s[0]))
    else
      match ParseDigits(s[..|s| - 1])
      case None => None
      case Some(v) => Some(10 * v + DigitValue(s[|s| - 1]))
  }

  /**
   * The ASCII information separators U+001C-U+001F: `str.isspace()` counts
   * them as whitespace, but `int()` does not skip them, because it skips
   * only the ASCII whitespace of C's `isspace` (and non-ASCII whitespace,
   * which it first turns into spaces).
   */
  predicate IsInfoSeparator(c: char) {
    '\U{001C}' <= c <= '\U{001F}'
  }

  /** The whitespace `int()` skips around its digits. */
  predicate IsIntSpace(c: char) {
    IsSpace(c) && !IsInfoSeparator(c)
  }

  predicate HasInfoSeparator(s: string) {
    exists i :: 0 <= i < |s| && IsInfoSeparator(s[i])
  }

  /**
   * Python's `int(s)` for base-10 ASCII input: surrounding whitespace, an
   * optional sign, then digits. None stands for the ValueError it raises.
   * The digits and the sign hold no whitespace, so an information separator
   * anywhere in `s` is one `int()` was asked to skip, and it refuses.
   */
  function ParseInt(s: string): (r: Option<int>)
    ensures r.Some? <==> !HasInfoSeparator(s) && AllDigits(Magnitude(Strip(s)))
  {
    if HasInfoSeparator(s) then None else ParseSigned(Strip(s))
  }

  /** What follows an optional leading sign. */
  function Magnitude(t: string): string {
    if t != [] && (t[0] == '+' || t[0] == '-') then t[1..] else t
  }

  predicate AllDigits(d: string) {
    d != [] && forall i :: 0 <= i < |d| ==> IsDigit(d[i])
  }

  /**
   * An optional sign followed by digits, with no surrounding whitespace:
   * it parses exactly when the digits are there, and only a '-' gives a
   * negative value.
   */
  function ParseSigned(t: string): (r: Option<int>)
    ensures r.Some? <==> AllDigits(Magnitude(t))
    ensures r.Some? && r.value < 0 ==> t[0] == '-'
  {
    if t != [] && (t[0] == '+' || t[0] == '-') then
      match ParseDigits(t[1..])
      case None => None
      case Some(v) => var n: int := v; Some(if t[0] == '-' then -n else n)
    else
      match ParseDigits(t)
      case None => None
      case Some(v) => Some(v)
  }

  lemma {:induction false} ParseNatToString(n: nat)
    ensures ParseDigits(NatToString(n)) == Some(n)
    decreases n
  {
    var s := NatToString(n);
    if n >= 10 {
      ParseNatToString(n / 10);
      assert s[..|s| - 1] == NatToString(n / 10);
    }
  }

  lemma DigitIsNotSpace(c: char)
    requires IsDigit(c) || c == '-'
    ensures !IsSpace(c)
  {
  }

  /**
   * `int()` parses text padded with the whitespace it skips as it parses
   * the text alone, and refuses padding that holds an information separator.
   */
  lemma ParseIntOfPadded(ws1: string, t: string, ws2: string)
    requires forall i :: 0 <= i < |ws1| ==> IsIntSpace(ws1[i])
    requires forall i :: 0 <= i < |ws2| ==> IsIntSpace(ws2[i])
    requires t == [] || (!IsSpace(t[0]) && !IsSpace(t[|t| - 1]))
    ensures ParseInt(ws1 + t + ws2) == ParseSigned(t)
  {
    var s := ws1 + t + ws2;
    StripOfPadded(ws1, t, ws2);
    StripTrimmed(t);
    if HasInfoSeparator(s) {
      var j :| 0 <= j < |s| && IsInfoSeparator(s[j]);
      assert |ws1| <= j < |ws1| + |t|;
      assert s[j] == t[j - |ws1|];
      SeparatorIsNotNumeral(t, j - |ws1|);
    }
  }

  lemma SeparatorIsNotNumeral(t: string, k: nat)
    requires k < |t| && IsInfoSeparator(t[k])
    ensures !AllDigits(Magnitude(t))
  {
    if t[0] == '+' || t[0] == '-' {
      assert Magnitude(t)[k - 1] == t[k];
    } else {
      assert Magnitude(t)[k] == t[k];
    }
  }

  /** `int(" 5")` is 5, but `int("\x1c5")` raises ValueError although `"\x1c".isspace()`. */
  lemma InfoSeparatorRejected()
    ensures ParseInt(" 5") == Some(5)
    ensures ParseInt("\U{001C}5") == None
    ensures IsSpace('\U{001C}')
  {
    ParseIntOfPadded(" ", "5", "");
    assert " " + "5" + "" == " 5";
    assert IsInfoSeparator("\U{001C}5"[0]);
  }

  /** `int(str(i)) == i`. */
  lemma IntRoundTrip(i: int)
    ensures ParseInt(IntToString(i)) == Some(i)
  {
    PrintedIsStripped(i);
    if i < 0 {
      var s := IntToString(i);
      assert s[1..] == NatToString(-i);
      ParseNatToString(-i);
    } else {
      ParseNatToString(i);
    }
  }

  lemma PrintedIsStripped(i: int)
    ensures Strip(IntToString(i)) == IntToString(i)
  {
    var s := IntToString(i);
    assert IsDigit(s[0]) || s[0] == '-';
    DigitIsNotSpace(s[0]);
    DigitIsNotSpace(s[|s| - 1]);
    StripTrimmed(s);
  }

  /** Distinct integers print differently. */
  lemma IntToStringInjective(a: int, b: int)
    ensures IntToString(a) == IntToString(b) ==> a == b
  {
    IntRoundTrip(a);
    IntRoundTrip(b);
  }

  // ---------------------------------------------------------------------------
  // s.split(",") and ",".join(parts)
  // ---------------------------------------------------------------------------

  predicate NoComma(s: string) {
    ',' !in s
  }

  /** `",".join(parts)`: it starts with the first piece, and has a comma after it when more follow. */
  function Join(parts: seq<string>): (r: string)
    ensures |parts| > 0 ==> parts[0] <= r
    ensures |parts| > 1 ==> |parts[0]| < |r| && r[|parts[0]|] == ','
    decreases |parts|
  {
    if |parts| == 0 then ""
    else if |parts| == 1 then parts[0]
    else parts[0] + "," + Join(parts[1..])
  }

  /** `s.split(",")`: never empty, and no piece holds a comma. */
  function Split(s: string): (parts: seq<string>)
    ensures |parts| >= 1
    ensures forall i :: 0 <= i < |parts| ==> NoComma(parts[i])
    decreases |s|
  {
    if s == [] then [""]
    else
      var rest := Split(s[1..]);
      if s[0] == ',' then [""] + rest
      else [[s[0]] + rest[0]] + rest[1..]
  }

  /**
   * The last piece of `s.split(",")` is the text after the last comma of
   * `s`, or all of `s` when it has no comma.
   */
  ghost predicate LastPieceAfterComma(s: string) {
    var parts := Split(s); var p := parts[|parts| - 1];
    && |p| <= |s| && p == s[|s| - |p|..]
    && (|p| < |s| ==> s[|s| - |p| - 1] == ',')
    && (|parts| == 1 ==> p == s)
    && (|parts| > 1 ==> |p| < |s|)
  }

  lemma {:induction false} SplitLast(s: string)
    ensures LastPieceAfterComma(s)
    decreases |s|
  {
    if s != [] {
      SplitLast(s[1..]);
      SplitLastStep(s);
    }
  }

  lemma SplitLastStep(s: string)
    requires s != [] && LastPieceAfterComma(s[1..])
    ensures LastPieceAfterComma(s)
  {
    var t := s[1..];
    var rest := Split(t);
    var q := rest[|rest| - 1];
    var parts := Split(s);
    if s[0] == ',' {
      assert parts == [""] + rest;
      assert parts[|parts| - 1] == q;
      TailSuffix(s, q);
    } else if |rest| == 1 {
      assert parts == [[s[0]] + rest[0]];
      assert [s[0]] + t == s;
    } else {
      assert parts == [[s[0]] + rest[0]] + rest[1..];
      assert parts[|parts| - 1] == q;
      TailSuffix(s, q);
    }
  }

  /** A comma-preceded suffix of the tail of `s` is a comma-preceded suffix of `s`. */
  lemma TailSuffix(s: string, q: string)
    requires s != [] && |q| <= |s| - 1 && q == s[1..][|s| - 1 - |q|..]
    requires |q| < |s| - 1 ==> s[1..][|s| - 1 - |q| - 1] == ','
    requires |q| == |s| - 1 ==> s[0] == ','
    ensures q == s[|s| - |q|..] && |q| < |s| && s[|s| - |q| - 1] == ','
  {
  }

  /** Splitting and joining again gives back the stored text, whatever it is. */
  lemma {:induction false} JoinSplit(s: string)
    ensures Join(Split(s)) == s
    decreases |s|
  {
    if s != [] {
      var rest := Split(s[1..]);
      JoinSplit(s[1..]);
      if s[0] == ',' {
        assert ([""] + rest)[1..] == rest;
      } else {
        var parts := [[s[0]] + rest[0]] + rest[1..];
        if |rest| > 1 {
          assert parts[1..] == rest[1..];
        }
      }
    }
  }

  lemma {:induction false} SplitComma(w: string, t: string)
    requires NoComma(w)
    ensures Split(w + t) == [w + Split(t)[0]] + Split(t)[1..]
    decreases |w|
  {
    if w != [] {
      assert (w + t)[1..] == w[1..] + t;
      assert w[0] != ',' by { assert w[0] in w; }
      assert NoComma(w[1..]) by {
        forall c | c in w[1..] ensures c != ',' { assert c in w; }
      }
      SplitComma(w[1..], t);
      assert [w[0]] + (w[1..] + Split(t)[0]) == w + Split(t)[0];
    } else {
      assert w + t == t;
      assert w + Split(t)[0] == Split(t)[0];
      assert [Split(t)[0]] + Split(t)[1..] == Split(t);
    }
  }

  /** Joining comma-free pieces and splitting again gives back the pieces. */
  lemma {:induction false} SplitJoin(parts: seq<string>)
    requires |parts| >= 1
    requires forall i :: 0 <= i < |parts| ==> NoComma(parts[i])
    ensures Split(Join(parts)) == parts
    decreases |parts|
  {
    SplitComma(parts[0], "");
    assert parts[0] + "" == parts[0];
    if |parts| > 1 {
      SplitJoin(parts[1..]);
      assert Join(parts) == parts[0] + ("," + Join(parts[1..]));
      SplitComma(parts[0], "," + Join(parts[1..]));
      assert ("," + Join(parts[1..]))[1..] == Join(parts[1..]);
    }
  }
}
