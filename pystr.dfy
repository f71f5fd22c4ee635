/** The Python built-ins the configuration reader relies on, on `string`
    (a `seq<char>`): `str.find`, `str.split`, `re.split`, `str.strip`,
    `int(str)` and list indexing. Each is written as a function whose
    contract says what the built-in returns. */
module PyStr {

  datatype Option<T> = None | Some(value: T)

  // ---------------------------------------------------------------------
  // str.find, str.split and re.split, for one-character separators
  // ---------------------------------------------------------------------

  /** `s.find(c)`: the index of the first `c` in `s`, or -1 when there is none. */
  function Find(s: string, c: char): (k: int)
    ensures -1 <= k < |s|
    ensures k == -1 <==> c !in s
    ensures k >= 0 ==> s[k] == c && c !in s[..k]
  {
    if |s| == 0 then -1
    else if s[0] == c then 0
    else
      var k := Find(s[1..], c);
      if k < 0 then -1
      else
        assert s[..k + 1] == [s[0]] + s[1..][..k];
        k + 1
  }

  /** Where the first `c` stands once the text before it is known. */
  lemma FindAt(pre: string, c: char, rest: string)
    requires c !in pre
    ensures Find(pre + [c] + rest, c) == |pre|
  {
    var s := pre + [c] + rest;
    assert s[..|pre|] == pre;
    assert s[|pre|] == c;
  }

  /** `s.split(c)[0]`: the text before the first `c`, or all of `s`. */
  function FirstField(s: string, c: char): (r: string)
    ensures r <= s && c !in r
    ensures |r| < |s| ==> s[|r|] == c
  {
    var k := Find(s, c);
    if k < 0 then s else s[..k]
  }

  /** `s.split(c)[1]`: the text between the first and the second `c`;
      `None` stands for the IndexError raised when `c` does not occur. */
  function SecondField(s: string, c: char): (r: Option<string>)
    ensures r.None? <==> c !in s
    ensures r.Some? ==> c !in r.value
    ensures r.Some? ==> FirstField(s, c) + [c] + r.value <= s
    // the field runs up to the second `c`, or to the end of the text
    ensures r.Some? ==> var n := |FirstField(s, c)| + 1 + |r.value|; n == |s| || s[n] == c
  {
    var k := Find(s, c);
    if k < 0 then None
    else
      assert s[..k] + [c] + s[k + 1..] == s;
      Some(FirstField(s[k + 1..], c))
  }

  /** The second field of a text whose first separator is known. */
  lemma SecondFieldAt(pre: string, c: char, rest: string)
    requires c !in pre
    ensures SecondField(pre + [c] + rest, c) == Some(FirstField(rest, c))
  {
    FindAt(pre, c, rest);
    assert (pre + [c] + rest)[|pre| + 1..] == rest;
  }

  /** A first field runs at least as far as the first separator. */
  lemma FirstFieldPast(p: string, c: char, rest: string)
    requires c !in p
    ensures p <= FirstField(p + rest, c)
  {
    var s := p + rest;
    var k := Find(s, c);
    if k >= 0 {
      assert k >= |p|;
      assert s[..k][..|p|] == p;
    }
  }

  /** `re.split(pattern, s)[0]` for a pattern that matches any one of the
      characters in `stops`: the longest prefix free of them. */
  function UntilAny(s: string, stops: set<char>): (r: string)
    ensures r <= s
    ensures forall i :: 0 <= i < |r| ==> r[i] !in stops
    ensures |r| < |s| ==> s[|r|] in stops
  {
    if |s| == 0 || s[0] in stops then []
    else [s[0]] + UntilAny(s[1..], stops)
  }

  /** `s.startswith(p)`, one character at a time. */
  predicate StartsWith(s: string, p: string)
    decreases |p|
  {
    |p| == 0 || (|s| > 0 && s[0] == p[0] && StartsWith(s[1..], p[1..]))
  }

  /** `startswith` is the prefix relation on sequences. */
  lemma {:induction false} StartsWithPrefix(s: string, p: string)
    ensures StartsWith(s, p) <==> p <= s
    decreases |p|
  {
    if |p| > 0 && |s| > 0 {
      StartsWithPrefix(s[1..], p[1..]);
      if p <= s {
        assert p[1..] <= s[1..];
      } else {
        assert p == [p[0]] + p[1..] && s == [s[0]] + s[1..];
      }
    }
  }

  // ---------------------------------------------------------------------
  // str.strip
  // ---------------------------------------------------------------------

  /** The characters `str.isspace` accepts. */
  predicate IsSpace(c: char) {
    c == ' ' || ('\t' <= c <= '\r') || ('\U{1c}' <= c <= '\U{1f}')
    || c == '\U{85}' || c == '\U{a0}' || c == '\U{1680}'
    || ('\U{2000}' <= c <= '\U{200a}') || c == '\U{2028}' || c == '\U{2029}'
    || c == '\U{202f}' || c == '\U{205f}' || c == '\U{3000}'
  }

  predicate AllSpace(s: string) {
    forall i :: 0 <= i < |s| ==> IsSpace(s[i])
  }

  /** `s.lstrip()`: drops the leading whitespace and nothing else. */
  function StripLeft(s: string): (r: string)
    ensures |r| <= |s|
    ensures r == s[|s| - |r|..]
    ensures r == [] || !IsSpace(r[0])
  {
    if |s| > 0 && IsSpace(s[0]) then StripLeft(s[1..]) else s
  }

  /** `s.rstrip()`: drops the trailing whitespace and nothing else. */
  function StripRight(s: string): (r: string)
    ensures |r| <= |s|
    ensures r == s[..|r|]
    ensures r == [] || !IsSpace(r[|r| - 1])
  {
    if |s| > 0 && IsSpace(s[|s| - 1]) then StripRight(s[..|s| - 1]) else s
  }

  /** What `lstrip` drops is whitespace. */
  lemma {:induction false} StripLeftDropsSpace(s: string)
    ensures AllSpace(s[..|s| - |StripLeft(s)|])
  {
    if |s| > 0 && IsSpace(s[0]) {
      var r := StripLeft(s[1..]);
      StripLeftDropsSpace(s[1..]);
      var dropped, rest := s[..|s| - |r|], s[1..][..|s| - 1 - |r|];
      forall i | 0 <= i < |dropped|
        ensures IsSpace(dropped[i])
      {
        if i > 0 {
          assert dropped[i] == rest[i - 1];
        }
      }
    }
  }

  /** What `rstrip` drops is whitespace. */
  lemma {:induction false} StripRightDropsSpace(s: string)
    ensures AllSpace(s[|StripRight(s)|..])
  {
    if |s| > 0 && IsSpace(s[|s| - 1]) {
      var r := StripRight(s[..|s| - 1]);
      StripRightDropsSpace(s[..|s| - 1]);
      var dropped, rest := s[|r|..], s[..|s| - 1][|r|..];
      forall i | 0 <= i < |dropped|
        ensures IsSpace(dropped[i])
      {
        if i < |rest| {
          assert dropped[i] == rest[i];
        }
      }
    }
  }

  /** `s.strip()`: a slice of `s` that neither starts nor ends with whitespace. */
  function Strip(s: string): (r: string)
    ensures r == [] || (!IsSpace(r[0]) && !IsSpace(r[|r| - 1]))
    ensures forall i :: 0 <= i < |r| ==> r[i] in s
  {
    var l := StripLeft(s);
    var r := StripRight(l);
    assert forall i :: 0 <= i < |r| ==> r[i] == s[|s| - |l| + i];
    r
  }

  lemma {:induction false} StripLeftPadded(ws: string, t: string)
    requires AllSpace(ws)
    requires t == [] || !IsSpace(t[0])
    ensures StripLeft(ws + t) == t
  {
    if ws != [] {
      assert (ws + t)[1..] == ws[1..] + t;
      StripLeftPadded(ws[1..], t);
    } else {
      assert ws + t == t;
    }
  }

  lemma {:induction false} StripRightPadded(t: string, ws: string)
    requires AllSpace(ws)
    requires t == [] || !IsSpace(t[|t| - 1])
    ensures StripRight(t + ws) == t
  {
    if ws != [] {
      var n := |ws| - 1;
      assert (t + ws)[..|t + ws| - 1] == t + ws[..n];
      StripRightPadded(t, ws[..n]);
    } else {
      assert t + ws == t;
    }
  }

  /** Stripping removes exactly the whitespace padding around a text. */
  lemma StripPadded(ws1: string, t: string, ws2: string)
    requires AllSpace(ws1) && AllSpace(ws2)
    requires t == [] || (!IsSpace(t[0]) && !IsSpace(t[|t| - 1]))
    ensures Strip(ws1 + t + ws2) == t
  {
    if t == [] {
      assert AllSpace(ws1 + ws2);
      assert ws1 + t + ws2 == (ws1 + ws2) + [];
      StripLeftPadded(ws1 + ws2, []);
    } else {
      assert ws1 + t + ws2 == ws1 + (t + ws2);
      StripLeftPadded(ws1, t + ws2);
      StripRightPadded(t, ws2);
    }
  }

  // ---------------------------------------------------------------------
  // int(str) and its inverse, str(int)
  // ---------------------------------------------------------------------

  predicate IsDigit(c: char) { '0' <= c <= '9' }

  predicate AllDigits(d: string) {
    forall i :: 0 <= i < |d| ==> IsDigit(d[i])
  }

  function DigitValue(c: char): nat
    requires IsDigit(c)
  {
    c as int - '0' as int
  }

  function DigitChar(k: nat): (c: char)
    requires k < 10
    ensures IsDigit(c) && DigitValue(c) == k
  {
    ('0' as int + k) as char
  }

  /** The value of a run of decimal digits, most significant first. */
  function DigitsValue(d: string): nat
    requires AllDigits(d)
  {
    if |d| == 0 then 0
    else DigitsValue(d[..|d| - 1]) * 10 + DigitValue(d[|d| - 1])
  }

  /** The information separators U+001C..U+001F: whitespace to `strip`,
      but ASCII text reaches `int()`'s parser unchanged, and that parser
      skips only space, tab, newline, vertical tab, form feed and carriage
      return. */
  predicate IsSeparator(c: char) { '\U{1c}' <= c <= '\U{1f}' }

  predicate NoSeparator(s: string) {
    forall i :: 0 <= i < |s| ==> !IsSeparator(s[i])
  }

  /** The padding `int()` skips around its digits: whitespace other than
      the information separators. */
  predicate IntPadding(ws: string) {
    AllSpace(ws) && NoSeparator(ws)
  }

  /** `int(s)` for a string: optional padding, an optional sign and at
      least one decimal digit; `None` stands for the ValueError raised
      otherwise, which an information separator anywhere in `s` causes. */
  function ParseInt(s: string): Option<int>
  {
    if !NoSeparator(s) then None else ParseSigned(Strip(s))
  }

  /** The unpadded text: an optional sign and at least one decimal digit. */
  function ParseSigned(t: string): Option<int>
  {
    if |t| > 0 && (t[0] == '+' || t[0] == '-') then
      var d := t[1..];
      if |d| > 0 && AllDigits(d) then
        var v: int := DigitsValue(d);
        Some(if t[0] == '-' then -v else v)
      else None
    else if |t| > 0 && AllDigits(t) then Some(DigitsValue(t))
    else None
  }

  /** The decimal digits of a natural number, as `str(n)` writes them. */
  function Decimal(n: nat): (d: string)
    ensures |d| > 0 && AllDigits(d)
  {
    if n < 10 then [DigitChar(n)] else Decimal(n / 10) + [DigitChar(n % 10)]
  }

  /** `str(n)`. */
  function Render(n: int): (d: string)
    ensures |d| > 0
    ensures forall i :: 0 <= i < |d| ==> IsDigit(d[i]) || d[i] == '-'
  {
    if n < 0 then "-" + Decimal(-n) else Decimal(n)
  }

  lemma {:induction false} DecimalValue(n: nat)
    ensures DigitsValue(Decimal(n)) == n
  {
    if n >= 10 {
      var d := Decimal(n);
      assert d[..|d| - 1] == Decimal(n / 10);
      DecimalValue(n / 10);
    }
  }

  /** `int(str(n)) == n`, also when the text is padded with whitespace. */
  lemma ParseIntRender(ws1: string, n: int, ws2: string)
    requires IntPadding(ws1) && IntPadding(ws2)
    ensures ParseInt(ws1 + Render(n) + ws2) == Some(n)
  {
    var d := Render(n);
    RenderUnpadded(n);
    StripPadded(ws1, d, ws2);
    NoSeparatorJoin(ws1, d, ws2);
    ParseIntStripped(ws1 + d + ws2, n);
  }

  /** `str(n)` neither starts nor ends with whitespace and holds no
      information separator. */
  lemma RenderUnpadded(n: int)
    ensures var d := Render(n); !IsSpace(d[0]) && !IsSpace(d[|d| - 1]) && NoSeparator(d)
  {
    var d := Render(n);
    assert forall i :: 0 <= i < |d| ==> IsDigit(d[i]) || d[i] == '-';
  }

  /** Three separator-free texts joined are separator-free. */
  lemma NoSeparatorJoin(a: string, b: string, c: string)
    requires NoSeparator(a) && NoSeparator(b) && NoSeparator(c)
    ensures NoSeparator(a + b + c)
  {
    var s := a + b + c;
    forall i | 0 <= i < |s|
      ensures !IsSeparator(s[i])
    {
      if i < |a| {
        assert s[i] == a[i];
      } else if i < |a| + |b| {
        assert s[i] == b[i - |a|];
      } else {
        assert s[i] == c[i - |a| - |b|];
      }
    }
  }

  /** `str(n)` read back by the sign-and-digits parser. */
  lemma RenderParses(n: int)
    ensures ParseSigned(Render(n)) == Some(n)
  {
    var t := Render(n);
    if n < 0 {
      var d := Decimal(-n);
      assert t[1..] == d;
      DecimalValue(-n);
    } else {
      assert IsDigit(t[0]);
      DecimalValue(n);
    }
  }

  lemma ParseIntStripped(s: string, n: int)
    requires NoSeparator(s)
    requires Strip(s) == Render(n)
    ensures ParseInt(s) == Some(n)
  {
    RenderParses(n);
  }

  /** An information separator makes `int()` raise wherever it stands,
      even where `strip` would have removed it. */
  lemma ParseIntRejectsSeparator(s: string, i: nat)
    requires i < |s| && IsSeparator(s[i])
    ensures ParseInt(s) == None
  {
  }

  /** A concrete case: `"\x1c5".strip()` is `"5"`, and `int("5")` is 5, but
      `int("\x1c5")` raises. */
  lemma SeparatorIsNotPadding()
    ensures Strip("\U{1c}5") == "5" && ParseInt("5") == Some(5) && ParseInt("\U{1c}5") == None
  {
    var sep, five := "\U{1c}", "5";
    assert sep + five + [] == "\U{1c}5";
    StripPadded(sep, five, []);
    FiveParses();
    ParseIntRejectsSeparator("\U{1c}5", 0);
  }

  lemma FiveParses()
    ensures ParseInt("5") == Some(5)
  {
    assert Render(5) == "5";
    ParseIntStripped("5", 5);
  }

  /** `int(s)` rejects any text with a character other than whitespace,
      digits and one leading sign. */
  lemma ParseIntRejects(s: string, i: nat)
    requires i < |Strip(s)|
    requires !IsDigit(Strip(s)[i]) && (i > 0 || (Strip(s)[i] != '+' && Strip(s)[i] != '-'))
    ensures ParseInt(s) == None
  {
    var t := Strip(s);
    if |t| > 0 && (t[0] == '+' || t[0] == '-') {
      assert !IsDigit(t[1..][i - 1]);
    }
  }

  // ---------------------------------------------------------------------
  // list indexing
  // ---------------------------------------------------------------------

  /** The position `xs[k]` denotes in a list of length `n`, counting from
      the end for a negative `k`; `None` stands for the IndexError. */
  function PyIndex(k: int, n: nat): (r: Option<nat>)
    ensures r.Some? <==> 0 <= k + n && k < n
    ensures r.Some? ==> r.value < n && r.value % n == k % n
  {
    if 0 <= k < n then Some(k)
    else if 0 <= k + n && k < 0 then Some(k + n)
    else None
  }
}
