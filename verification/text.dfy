/** The C text primitives the command protocol is built from: `%d` output,
    the literal, white-space and `%d` directives of `sscanf`, `atoi`,
    NUL-terminated strings and `snprintf` truncation into a 1024-byte
    buffer. A string holds one byte per character. */
module Text {
  import opened Base

  /** Size of every request, reply and JSON buffer. */
  const BufferSize: nat := 1024

  /** The UTF-8 bytes of the degree sign in the source's string literals. */
  const Degree: string := [0xC2 as char, 0xB0 as char]

  predicate IsDigit(c: char) {
    '0' <= c <= '9'
  }

  /** The characters `isspace` accepts in the C locale: space, and tab
      through carriage return. */
  predicate IsSpace(c: char) {
    c == ' ' || 9 <= c as int <= 13
  }

  function DigitChar(d: int): (c: char)
    requires 0 <= d < 10
    ensures IsDigit(c) && c as int - '0' as int == d
  {
    (d + '0' as int) as char
  }

  predicate AllDigits(s: string) {
    forall i :: 0 <= i < |s| ==> IsDigit(s[i])
  }

  /** `%d` of a non-negative value: decimal digits without leading zeros. */
  function Digits(n: nat): (s: string)
    ensures |s| >= 1 && AllDigits(s)
    ensures s[0] == '0' <==> n == 0
  {
    if n < 10 then [DigitChar(n)] else Digits(n / 10) + [DigitChar(n % 10)]
  }

  /** The value of a digit string, most significant digit first. */
  function ValueOf(s: string): nat
    requires AllDigits(s)
  {
    if s == [] then 0 else ValueOf(s[..|s| - 1]) * 10 + (s[|s| - 1] as int - '0' as int)
  }

  /** Reading back the digits `%d` prints gives the number printed. */
  lemma {:induction false} DigitsValue(n: nat)
    ensures ValueOf(Digits(n)) == n
  {
    if n >= 10 {
      var s := Digits(n);
      assert s[..|s| - 1] == Digits(n / 10);
      DigitsValue(n / 10);
    }
  }

  function Pow10(k: nat): (p: nat)
    ensures p >= 1
  {
    if k == 0 then 1 else 10 * Pow10(k - 1)
  }

  /** A value below `10^k` prints in at most `k` digits. */
  lemma {:induction false} DigitsLength(n: nat, k: nat)
    requires 1 <= k && n < Pow10(k)
    ensures |Digits(n)| <= k
  {
    if n >= 10 {
      assert n / 10 < Pow10(k - 1);
      DigitsLength(n / 10, k - 1);
    }
  }

  /** `%d`: a minus sign before the magnitude when negative. */
  function Itoa(n: int): (s: string)
    ensures |s| >= 1 && (s[0] == '-' <==> n < 0)
    ensures n >= 0 ==> AllDigits(s)
    ensures n < 0 ==> |s| >= 2 && AllDigits(s[1..])
  {
    if n < 0 then "-" + Digits(-n) else Digits(n)
  }

  /** A C `int` prints in at most 11 characters. */
  lemma ItoaLength(n: int)
    requires IsInt32(n)
    ensures |Itoa(n)| <= 11
  {
    assert Pow10(10) == 10_000_000_000;
    DigitsLength(Abs(n), 10);
  }

  /** Number of leading white-space characters. */
  function SpaceRun(s: string): (k: nat)
    ensures k <= |s| && (forall i :: 0 <= i < k ==> IsSpace(s[i]))
    ensures k < |s| ==> !IsSpace(s[k])
  {
    if s != [] && IsSpace(s[0]) then 1 + SpaceRun(s[1..]) else 0
  }

  /** Number of leading digits. */
  function DigitRun(s: string): (k: nat)
    ensures k <= |s| && AllDigits(s[..k])
    ensures k < |s| ==> !IsDigit(s[k])
  {
    if s != [] && IsDigit(s[0]) then 1 + DigitRun(s[1..]) else 0
  }

  datatype Scanned = Scanned(value: int, used: nat)

  /** The `%d` conversion: skips white space, takes an optional sign and
      then the longest run of digits; it fails when no digit follows. */
  function ScanInt(s: string): (r: Option<Scanned>)
    ensures r.Some? ==> 0 < r.value.used <= |s| && IsDigit(s[r.value.used - 1])
    ensures r.Some? && r.value.used < |s| ==> !IsDigit(s[r.value.used])
    ensures r.Some? && r.value.value < 0 ==> '-' in s[..r.value.used]
  {
    var i := SpaceRun(s);
    var t := s[i..];
    var j := if |t| > 0 && (t[0] == '-' || t[0] == '+') then 1 else 0;
    var k := DigitRun(t[j..]);
    if k == 0 then None
    else
      assert t[j..j + k] == t[j..][..k];
      var m: int := ValueOf(t[j..j + k]);
      assert s[..i + j + k][i + j + k - 1] == t[j..][..k][k - 1];
      Some(Scanned(if j == 1 && t[0] == '-' then -m else m, i + j + k))
  }

  /** A number `%d` printed, followed by anything but a digit, scans back
      to itself and consumes exactly its own characters. */
  lemma ScanItoa(n: int, rest: string)
    requires rest == [] || !IsDigit(rest[0])
    ensures ScanInt(Itoa(n) + rest) == Some(Scanned(n, |Itoa(n)|))
  {
    if n < 0 {
      ScanItoaNegative(n, rest);
    } else {
      ScanItoaUnsigned(n, rest);
    }
  }

  lemma ScanItoaUnsigned(n: nat, rest: string)
    requires rest == [] || !IsDigit(rest[0])
    ensures ScanInt(Itoa(n) + rest) == Some(Scanned(n, |Itoa(n)|))
  {
    var d := Digits(n);
    assert Itoa(n) == d;
    DigitsValue(n);
    DigitRunPrefix(d, rest);
    assert (d + rest)[..|d|] == d;
    assert IsDigit((d + rest)[0]) by { assert (d + rest)[0] == d[0]; }
    ScanUnsigned(d + rest);
  }

  lemma ScanItoaNegative(n: int, rest: string)
    requires n < 0
    requires rest == [] || !IsDigit(rest[0])
    ensures var r := ScanInt(Itoa(n) + rest);
      r.Some? && r.value.value == n && r.value.used == |Itoa(n)|
  {
    var d := Digits(-n);
    assert Itoa(n) + rest == "-" + (d + rest);
    DigitsValue(-n);
    DigitRunPrefix(d, rest);
    assert (d + rest)[..|d|] == d;
    assert IsDigit((d + rest)[0]) by { assert (d + rest)[0] == d[0]; }
    ScanNegative(d + rest);
  }

  /** `%d` on text that starts with a digit. */
  lemma ScanUnsigned(s: string)
    requires s != [] && IsDigit(s[0])
    ensures ScanInt(s) == Some(Scanned(ValueOf(s[..DigitRun(s)]), DigitRun(s)))
  {
    assert SpaceRun(s) == 0 && s[0..] == s;
  }

  /** `%d` on a minus sign followed by a digit. */
  lemma ScanNegative(t: string)
    requires t != [] && IsDigit(t[0])
    ensures var r := ScanInt("-" + t);
      r.Some? && r.value.used == 1 + DigitRun(t) && r.value.value == -(ValueOf(t[..DigitRun(t)]) as int)
  {
    var s := "-" + t;
    assert SpaceRun(s) == 0 && s[0..] == s && s[1..] == t;
    assert s[1..1 + DigitRun(t)] == t[..DigitRun(t)];
  }

  lemma {:induction false} DigitRunPrefix(d: string, rest: string)
    requires AllDigits(d)
    requires rest == [] || !IsDigit(rest[0])
    ensures DigitRun(d + rest) == |d|
    decreases |d|
  {
    if d != [] {
      assert (d + rest)[1..] == d[1..] + rest;
      DigitRunPrefix(d[1..], rest);
    } else {
      assert d + rest == rest;
    }
  }

  /** `atoi`: the `%d` conversion, or 0 when there is no number. */
  function Atoi(s: string): (n: int)
    ensures s == [] ==> n == 0
    ensures s != [] && !IsSpace(s[0]) && !IsDigit(s[0]) && s[0] != '-' && s[0] != '+' ==> n == 0
    ensures s != [] && IsDigit(s[0]) ==> n >= 0
  {
    match ScanInt(s)
    case None => 0
    case Some(x) => x.value
  }

  lemma AtoiItoa(n: int)
    ensures Atoi(Itoa(n)) == n
  {
    ScanItoa(n, []);
    assert Itoa(n) + [] == Itoa(n);
  }

  /** One directive of a format string: a run of ordinary characters, a
      white-space character (which `printf` prints as one space and
      `sscanf` matches against any amount of white space, none included) or
      `%d`. */
  datatype Directive = Lit(text: string) | Space | Int

  function IntCount(fmt: seq<Directive>): (n: nat)
    ensures n <= |fmt|
  {
    if fmt == [] then 0 else (if fmt[0].Int? then 1 else 0) + IntCount(fmt[1..])
  }

  /** `snprintf` without the truncation: the format with `vs` substituted
      for its `%d` directives in order. */
  function Render(fmt: seq<Directive>, vs: seq<int>): (r: string)
    requires |vs| == IntCount(fmt)
    ensures |r| >= |vs|
  {
    if fmt == [] then []
    else match fmt[0]
      case Lit(t) => t + Render(fmt[1..], vs)
      case Space => " " + Render(fmt[1..], vs)
      case Int => Itoa(vs[0]) + Render(fmt[1..], vs[1..])
  }

  /** `sscanf`: the values converted before the first directive that fails
      to match; the C return value is their number. */
  function Scan(fmt: seq<Directive>, s: string): (vs: seq<int>)
    ensures |vs| <= IntCount(fmt)
  {
    if fmt == [] then []
    else match fmt[0]
      case Lit(t) => if |t| <= |s| && s[..|t|] == t then Scan(fmt[1..], s[|t|..]) else []
      case Space => Scan(fmt[1..], s[SpaceRun(s)..])
      case Int =>
        match ScanInt(s)
        case None => []
        case Some(x) => [x.value] + Scan(fmt[1..], s[x.used..])
  }

  /** Formats whose printed output `sscanf` reads back unambiguously: every
      literal is non-empty, a `%d` is followed by white space or a literal
      not starting with a digit, and white space by `%d` or a literal not
      starting with white space. */
  predicate Separated(fmt: seq<Directive>) {
    && (forall i :: 0 <= i < |fmt| && fmt[i].Lit? ==> fmt[i].text != [])
    && (forall i :: 0 <= i < |fmt| - 1 && fmt[i].Int? ==>
          fmt[i + 1].Space? || (fmt[i + 1].Lit? && fmt[i + 1].text != [] && !IsDigit(fmt[i + 1].text[0])))
    && (forall i :: 0 <= i < |fmt| - 1 && fmt[i].Space? ==>
          fmt[i + 1].Int? || (fmt[i + 1].Lit? && fmt[i + 1].text != [] && !IsSpace(fmt[i + 1].text[0])))
  }

  /** The first character a non-empty format prints. */
  lemma RenderStart(fmt: seq<Directive>, vs: seq<int>)
    requires |fmt| > 0 && |vs| == IntCount(fmt) && Separated(fmt)
    ensures |Render(fmt, vs)| > 0
    ensures fmt[0].Lit? ==> Render(fmt, vs)[0] == fmt[0].text[0]
    ensures fmt[0].Space? ==> Render(fmt, vs)[0] == ' '
    ensures fmt[0].Int? ==> Render(fmt, vs)[0] == Itoa(vs[0])[0]
  {
  }

  lemma SeparatedTail(fmt: seq<Directive>)
    requires |fmt| > 0 && Separated(fmt)
    ensures Separated(fmt[1..])
  {
    var tail := fmt[1..];
    forall i | 0 <= i < |tail|
      ensures tail[i] == fmt[i + 1]
    {
    }
  }

  /** Scanning what a separated format printed recovers every value. */
  lemma {:induction false} ScanRender(fmt: seq<Directive>, vs: seq<int>)
    requires |vs| == IntCount(fmt) && Separated(fmt)
    ensures Scan(fmt, Render(fmt, vs)) == vs
    decreases |fmt|
  {
    if fmt != [] {
      var tail := fmt[1..];
      SeparatedTail(fmt);
      match fmt[0]
      case Lit(t) =>
        ScanRender(tail, vs);
        ScanLit(fmt, vs);
      case Space =>
        ScanRender(tail, vs);
        ScanSpace(fmt, vs);
      case Int =>
        ScanRender(tail, vs[1..]);
        ScanInteger(fmt, vs);
    }
  }

  /** A literal directive consumes exactly its text. */
  lemma ScanLitThen(text: string, rest: seq<Directive>, s: string)
    ensures Scan([Lit(text)] + rest, text + s) == Scan(rest, s)
  {
    assert ([Lit(text)] + rest)[1..] == rest;
    assert (text + s)[..|text|] == text && (text + s)[|text|..] == s;
  }

  /** A space directive consumes a single space, or nothing, before a
      non-space. */
  lemma ScanSpaceThen(rest: seq<Directive>, gap: string, s: string)
    requires gap == [] || gap == " "
    requires s != [] && !IsSpace(s[0])
    ensures Scan([Space] + rest, gap + s) == Scan(rest, s)
  {
    assert ([Space] + rest)[1..] == rest;
    var g := gap + s;
    if gap == [] {
      assert g == s && s[0..] == s;
    } else {
      assert g[1..] == s && SpaceRun(s) == 0;
      assert SpaceRun(g) == 1;
    }
  }

  /** A lone conversion reads back a printed integer. */
  lemma ScanLoneInt(n: int)
    ensures Scan([Int], Itoa(n)) == [n]
  {
    var d := Itoa(n);
    ScanItoa(n, []);
    assert d + [] == d && d[|d|..] == [];
    assert [Int][1..] == [];
  }

  /** A keyword, an optional single space and a printed integer scan back
      to that integer under `keyword %d`. */
  lemma ScanKeywordInt(keyword: string, gap: string, n: int)
    requires gap == [] || gap == " "
    ensures Scan([Lit(keyword), Space, Int], keyword + gap + Itoa(n)) == [n]
  {
    var d := Itoa(n);
    assert !IsSpace(d[0]) by { assert d[0] == '-' || IsDigit(d[0]); }
    assert [Lit(keyword), Space, Int] == [Lit(keyword)] + ([Space] + [Int]);
    assert keyword + gap + d == keyword + (gap + d);
    ScanLitThen(keyword, [Space] + [Int], gap + d);
    ScanSpaceThen([Int], gap, d);
    ScanLoneInt(n);
  }

  lemma ScanLit(fmt: seq<Directive>, vs: seq<int>)
    requires |fmt| > 0 && fmt[0].Lit? && |vs| == IntCount(fmt)
    ensures Scan(fmt, Render(fmt, vs)) == Scan(fmt[1..], Render(fmt[1..], vs))
  {
    var t, r := fmt[0].text, Render(fmt[1..], vs);
    assert (t + r)[..|t|] == t && (t + r)[|t|..] == r;
  }

  lemma ScanSpace(fmt: seq<Directive>, vs: seq<int>)
    requires |fmt| > 0 && fmt[0].Space? && |vs| == IntCount(fmt) && Separated(fmt)
    ensures Scan(fmt, Render(fmt, vs)) == Scan(fmt[1..], Render(fmt[1..], vs))
  {
    var tail := fmt[1..];
    var r := Render(tail, vs);
    if tail != [] {
      SeparatedTail(fmt);
      RenderStart(tail, vs);
      assert fmt[1] == tail[0];
      assert !IsSpace(r[0]);
    }
    assert (" " + r)[1..] == r;
    assert SpaceRun(" " + r) == 1;
  }

  lemma ScanInteger(fmt: seq<Directive>, vs: seq<int>)
    requires |fmt| > 0 && fmt[0].Int? && |vs| == IntCount(fmt) && Separated(fmt)
    ensures Scan(fmt, Render(fmt, vs)) == [vs[0]] + Scan(fmt[1..], Render(fmt[1..], vs[1..]))
  {
    var tail := fmt[1..];
    var r := Render(tail, vs[1..]);
    if tail != [] {
      SeparatedTail(fmt);
      RenderStart(tail, vs[1..]);
      assert fmt[1] == tail[0];
      assert !IsDigit(r[0]);
    }
    ScanItoa(vs[0], r);
    assert (Itoa(vs[0]) + r)[|Itoa(vs[0])|..] == r;
  }

  /** A label a field can carry: non-empty, and starting with neither a
      digit nor white space. */
  predicate GoodLabel(l: string) {
    l != [] && !IsDigit(l[0]) && !IsSpace(l[0])
  }

  /** `label%d label%d ... label%d`: labelled integers separated by single
      spaces, the shape of every reply built from the shared record. */
  function Fields(labels: seq<string>): (fmt: seq<Directive>)
    ensures IntCount(fmt) == |labels|
    ensures |labels| > 0 ==> |fmt| > 0 && fmt[0] == Lit(labels[0])
    decreases |labels|
  {
    if labels == [] then []
    else if |labels| == 1 then [Lit(labels[0]), Int]
    else
      var rest := Fields(labels[1..]);
      var fmt := [Lit(labels[0]), Int, Space] + rest;
      assert fmt[1..] == [Int, Space] + rest && fmt[2..] == [Space] + rest && fmt[3..] == rest;
      assert IntCount(fmt[2..]) == IntCount(rest);
      assert IntCount(fmt[1..]) == 1 + IntCount(rest);
      fmt
  }

  /** Every field format with good labels scans back what it prints. */
  lemma {:induction false} FieldsSeparated(labels: seq<string>)
    requires forall i :: 0 <= i < |labels| ==> GoodLabel(labels[i])
    ensures Separated(Fields(labels))
    decreases |labels|
  {
    if |labels| > 1 {
      var rest := Fields(labels[1..]);
      FieldsSeparated(labels[1..]);
      var fmt := Fields(labels);
      assert fmt == [Lit(labels[0]), Int, Space] + rest;
      assert GoodLabel(labels[1]) && rest[0] == Lit(labels[1]) && GoodLabel(labels[0]);
      forall i | 3 <= i < |fmt|
        ensures fmt[i] == rest[i - 3]
      {
      }
    }
  }

  /** With labels of at most 20 characters and C `int` values, each field
      prints in at most 32 characters. */
  lemma {:induction false} FieldsLength(labels: seq<string>, vs: seq<int>)
    requires |vs| == |labels|
    requires forall i :: 0 <= i < |labels| ==> |labels[i]| <= 20 && IsInt32(vs[i])
    ensures |Render(Fields(labels), vs)| <= 32 * |labels|
    decreases |labels|
  {
    if labels != [] {
      ItoaLength(vs[0]);
      var fmt := Fields(labels);
      if |labels| == 1 {
        assert fmt[1..] == [Int] && fmt[2..] == [];
        assert Render(fmt[1..], vs) == Itoa(vs[0]) + [];
      } else {
        var rest := Fields(labels[1..]);
        assert fmt[1..] == [Int, Space] + rest && fmt[2..] == [Space] + rest && fmt[3..] == rest;
        FieldsLength(labels[1..], vs[1..]);
        assert Render(fmt[2..], vs[1..]) == " " + Render(rest, vs[1..]);
        assert Render(fmt[1..], vs) == Itoa(vs[0]) + Render(fmt[2..], vs[1..]);
      }
    }
  }

  /** `snprintf` into a 1024-byte buffer keeps at most 1023 bytes. */
  function Fit(s: string): (r: string)
    ensures |r| < BufferSize && |r| <= |s| && r == s[..|r|]
    ensures |s| < BufferSize ==> r == s
    ensures |s| >= BufferSize ==> |r| == BufferSize - 1
  {
    if |s| < BufferSize then s else s[..BufferSize - 1]
  }

  /** The C string a buffer holds: everything before the first NUL. */
  function CString(s: string): (r: string)
    ensures |r| <= |s| && r == s[..|r|] && '\0' !in r
    ensures |r| < |s| ==> s[|r|] == '\0'
  {
    if s == [] || s[0] == '\0' then []
    else
      [s[0]] + CString(s[1..])
  }

  /** A string without a NUL is its own C string. */
  lemma CStringWhole(s: string)
    requires '\0' !in s
    ensures CString(s) == s
  {
  }

  predicate StartsWith(s: string, prefix: string) {
    |prefix| <= |s| && s[..|prefix|] == prefix
  }

  /** A string that differs from `p` at position `i` does not start with
      `p`. */
  lemma NotPrefix(cmd: string, p: string, i: nat)
    requires i < |p| && (i >= |cmd| || cmd[i] != p[i])
    ensures !StartsWith(cmd, p)
  {
    if |p| <= |cmd| {
      assert cmd[..|p|][i] == cmd[i];
    }
  }
}
