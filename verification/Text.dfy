/** Text as the two languages read it: white space, searching and cutting, decimal numbers. */
module Text {
  import opened Options

  predicate LineBreak(c: char) { c == '\n' || c == '\r' }

  /** The white space Python strips, and the white space the core trims; ASCII only. */
  predicate PySpace(c: char) { c == ' ' || '\t' <= c <= '\r' || '\U{1c}' <= c <= '\U{1f}' }

  predicate CSpace(c: char) { c == ' ' || c == '\t' || c == '\r' || c == '\n' }

  function StripLeft(s: string, space: char -> bool): string {
    if s != "" && space(s[0]) then StripLeft(s[1..], space) else s
  }

  function StripRight(s: string, space: char -> bool): string {
    if s != "" && space(s[|s| - 1]) then StripRight(s[..|s| - 1], space) else s
  }

  function Strip(s: string, space: char -> bool): string {
    StripRight(StripLeft(s, space), space)
  }

  /** Neither end is white space. */
  predicate Trim(s: string, space: char -> bool) {
    s != "" && !space(s[0]) && !space(s[|s| - 1])
  }

  lemma StripTrim(s: string, space: char -> bool)
    requires Trim(s, space) && space('\n')
    ensures Strip(s, space) == s && Strip(s + "\n", space) == s
  {
    assert StripLeft(s + "\n", space) == s + "\n";
    assert (s + "\n")[..|s + "\n"| - 1] == s;
  }

  /** The position of the first c from i on, or the end. */
  function Find(s: string, c: char, i: nat): (p: nat)
    requires i <= |s|
    ensures i <= p <= |s| && (p < |s| ==> s[p] == c)
    decreases |s| - i
  {
    if i == |s| || s[i] == c then i else Find(s, c, i + 1)
  }

  /** Before the first c, and after it; nothing after it when there is none. */
  lemma {:induction false} FoundExactlyWhen(s: string, c: char, i: nat)
    requires i <= |s|
    ensures Find(s, c, i) < |s| <==> c in s[i..]
    decreases |s| - i
  {
    if i < |s| && s[i] != c {
      FoundExactlyWhen(s, c, i + 1);
      assert s[i..] == [s[i]] + s[i + 1..];
    }
  }

  function Before(s: string, c: char): string { s[..Find(s, c, 0)] }

  function After(s: string, c: char): string {
    var p := Find(s, c, 0);
    if p == |s| then "" else s[p + 1..]
  }

  lemma {:induction false} FindSkips(s: string, c: char, i: nat, n: nat)
    requires i <= n <= |s| && (forall k :: i <= k < n ==> s[k] != c) && (n == |s| || s[n] == c)
    ensures Find(s, c, i) == n
    decreases n - i
  {
    if i < n {
      FindSkips(s, c, i + 1, n);
    }
  }

  lemma CutAt(a: string, c: char, b: string)
    requires c !in a
    ensures Find(a + [c] + b, c, 0) == |a| && Before(a + [c] + b, c) == a && After(a + [c] + b, c) == b
  {
    FindSkips(a + [c] + b, c, 0, |a|);
  }

  // ---- Numbers -----------------------------------------------------------------------------

  predicate IsDigit(c: char) { '0' <= c <= '9' }

  predicate AllDigits(s: string) { forall i :: 0 <= i < |s| ==> IsDigit(s[i]) }

  function DigitOf(n: nat): char
    requires n < 10
  {
    '0' + n as char
  }

  /** Decimal digits, without a sign. */
  function Decimal(n: nat): (s: string)
    ensures s != "" && AllDigits(s)
  {
    if n < 10 then [DigitOf(n)] else Decimal(n / 10) + [DigitOf(n % 10)]
  }

  function Value(s: string): nat
    requires AllDigits(s)
  {
    if s == "" then 0 else 10 * Value(s[..|s| - 1]) + (s[|s| - 1] as int - '0' as int)
  }

  lemma {:induction false} ValueOfDecimal(n: nat)
    ensures Value(Decimal(n)) == n
  {
    if n >= 10 {
      ValueOfDecimal(n / 10);
      var s := Decimal(n);
      assert s[..|s| - 1] == Decimal(n / 10);
    }
  }

  function Pow10(k: nat): nat { if k == 0 then 1 else 10 * Pow10(k - 1) }

  lemma {:induction false} DecimalIsShort(n: nat, k: nat)
    requires k > 0 && n < Pow10(k)
    ensures |Decimal(n)| <= k
    decreases k
  {
    if n >= 10 {
      DecimalIsShort(n / 10, k - 1);
    }
  }

  predicate Sign(s: string) { s != "" && (s[0] == '-' || s[0] == '+') }

  /** Digits with single underscores between them. */
  predicate Underscored(s: string) {
    && s != "" && IsDigit(s[0]) && IsDigit(s[|s| - 1])
    && (forall i :: 0 <= i < |s| ==> IsDigit(s[i]) || s[i] == '_')
    && (forall i :: 0 < i < |s| && s[i] == '_' ==> s[i - 1] != '_')
  }

  function WithoutUnderscores(s: string): string {
    if s == "" then "" else WithoutUnderscores(s[..|s| - 1]) + (if s[|s| - 1] == '_' then "" else [s[|s| - 1]])
  }

  lemma {:induction false} NoUnderscores(s: string)
    requires forall i :: 0 <= i < |s| ==> IsDigit(s[i]) || s[i] == '_'
    ensures AllDigits(WithoutUnderscores(s))
    ensures AllDigits(s) ==> WithoutUnderscores(s) == s
    decreases s
  {
    if s != "" {
      NoUnderscores(s[..|s| - 1]);
    }
  }

  /** int() of a text: white space, a sign, digits; None where it raises. */
  function PyInt(text: string): Option<int> {
    var s := Strip(text, PySpace);
    var body := if Sign(s) then s[1..] else s;
    if !Underscored(body) then None
    else
      NoUnderscores(body);
      var n: int := Value(WithoutUnderscores(body));
      Some(if s[0] == '-' then -n else n)
  }

  lemma PyIntOfDecimal(n: nat)
    ensures PyInt(Decimal(n)) == Some(n)
  {
    var s := Decimal(n);
    assert IsDigit(s[0]) && IsDigit(s[|s| - 1]);
    StripTrim(s, PySpace);
    assert !Sign(s) && Underscored(s);
    NoUnderscores(s);
    ValueOfDecimal(n);
  }

  const LONG_MAX: int := 0x7fff_ffff_ffff_ffff

  /** What strtol finds: the number, whether it overflowed, how far it read; reading nothing
      leaves the whole text. */
  datatype Long = Long(value: int, overflow: bool, end: nat)

  function DigitsEnd(s: string, i: nat): (e: nat)
    requires i <= |s|
    ensures i <= e <= |s| && AllDigits(s[i..e])
    decreases |s| - i
  {
    if i < |s| && IsDigit(s[i]) then
      var e := DigitsEnd(s, i + 1);
      assert s[i..e] == [s[i]] + s[i + 1..e];
      e
    else i
  }

  function SpacesEnd(s: string, i: nat): (e: nat)
    requires i <= |s|
    ensures i <= e <= |s|
    decreases |s| - i
  {
    if i < |s| && (s[i] == ' ' || '\t' <= s[i] <= '\r') then SpacesEnd(s, i + 1) else i
  }

  function Strtol(s: string): (r: Long)
    ensures r.end <= |s|
  {
    var b := SpacesEnd(s, 0);
    var d := if b < |s| && (s[b] == '-' || s[b] == '+') then b + 1 else b;
    var e := DigitsEnd(s, d);
    if e == d then Long(0, false, 0)
    else
      var n: int := Value(s[d..e]);
      var v := if s[b] == '-' then -n else n;
      if v > LONG_MAX then Long(LONG_MAX, true, e)
      else if v < -LONG_MAX - 1 then Long(-LONG_MAX - 1, true, e)
      else Long(v, false, e)
  }

  lemma {:induction false} DigitsEndAt(s: string, i: nat, n: nat)
    requires i <= n <= |s| && (forall k :: i <= k < n ==> IsDigit(s[k])) && (n == |s| || !IsDigit(s[n]))
    ensures DigitsEnd(s, i) == n
    decreases n - i
  {
    if i < n {
      DigitsEndAt(s, i + 1, n);
    }
  }

  lemma StrtolOfDecimal(n: nat, rest: string)
    requires n <= LONG_MAX && (rest == "" || !IsDigit(rest[0]))
    ensures Strtol(Decimal(n) + rest) == Long(n, false, |Decimal(n)|)
  {
    var s := Decimal(n) + rest;
    DigitsEndAt(s, 0, |Decimal(n)|);
    assert s[0..|Decimal(n)|] == Decimal(n);
    ValueOfDecimal(n);
  }

  lemma {:induction false} StripLeftSkips(a: string, core: string, space: char -> bool)
    requires forall i :: 0 <= i < |a| ==> space(a[i])
    requires core != "" && !space(core[0])
    ensures StripLeft(a + core, space) == core
    decreases a
  {
    if a == "" {
      assert a + core == core;
    } else {
      assert (a + core)[1..] == a[1..] + core;
      StripLeftSkips(a[1..], core, space);
    }
  }

  lemma {:induction false} StripRightSkips(core: string, b: string, space: char -> bool)
    requires forall i :: 0 <= i < |b| ==> space(b[i])
    requires core != "" && !space(core[|core| - 1])
    ensures StripRight(core + b, space) == core
    decreases b
  {
    if b == "" {
      assert core + b == core;
    } else {
      assert (core + b)[..|core + b| - 1] == core + b[..|b| - 1];
      StripRightSkips(core, b[..|b| - 1], space);
    }
  }

  /** White space around a text is what is stripped, and nothing else. */
  lemma StripExactly(a: string, core: string, b: string, space: char -> bool)
    requires (forall i :: 0 <= i < |a| ==> space(a[i])) && (forall i :: 0 <= i < |b| ==> space(b[i]))
    requires core != "" && !space(core[0]) && !space(core[|core| - 1])
    ensures Strip(a + core + b, space) == core
  {
    assert a + core + b == a + (core + b) && (core + b)[0] == core[0];
    StripLeftSkips(a, core + b, space);
    StripRightSkips(core, b, space);
  }

  lemma SignedDigits(sign: string, d: string)
    requires sign in {"", "+", "-"} && d != "" && AllDigits(d)
    ensures var core := sign + d;
            && !PySpace(core[0]) && !PySpace(core[|core| - 1])
            && (if Sign(core) then core[1..] else core) == d && (core[0] == '-' <==> sign == "-")
  {
    var core := sign + d;
    assert IsDigit(d[0]) && IsDigit(d[|d| - 1]) && core[|core| - 1] == d[|d| - 1];
    if sign == "" {
      assert core == d;
    } else {
      assert core[0] == sign[0] && core[1..] == d;
    }
  }

  lemma PyIntOfBody(text: string, core: string, d: string)
    requires Strip(text, PySpace) == core != "" && (if Sign(core) then core[1..] else core) == d
    requires d != "" && AllDigits(d)
    ensures PyInt(text) == Some(if core[0] == '-' then -(Value(d) as int) else Value(d))
  {
    assert IsDigit(d[0]) && IsDigit(d[|d| - 1]);
    NoUnderscores(d);
  }

  lemma PyIntOfDigits(a: string, sign: string, d: string, b: string)
    requires (forall i :: 0 <= i < |a| ==> PySpace(a[i])) && (forall i :: 0 <= i < |b| ==> PySpace(b[i]))
    requires sign in {"", "+", "-"} && d != "" && AllDigits(d)
    ensures PyInt(a + (sign + d) + b) == Some(if sign == "-" then -(Value(d) as int) else Value(d))
  {
    SignedDigits(sign, d);
    StripExactly(a, sign + d, b, PySpace);
    PyIntOfBody(a + (sign + d) + b, sign + d, d);
  }

  /** int() of a number with a sign or without, and white space around it. */
  lemma PyIntOfNumber(a: string, sign: string, n: nat, b: string)
    requires (forall i :: 0 <= i < |a| ==> PySpace(a[i])) && (forall i :: 0 <= i < |b| ==> PySpace(b[i]))
    requires sign in {"", "+", "-"}
    ensures PyInt(a + (sign + Decimal(n)) + b) == Some(if sign == "-" then -(n as int) else n)
  {
    ValueOfDecimal(n);
    PyIntOfDigits(a, sign, Decimal(n), b);
  }

  lemma {:induction false} WithoutUnderscoresConcat(x: string, y: string)
    ensures WithoutUnderscores(x + y) == WithoutUnderscores(x) + WithoutUnderscores(y)
    decreases y
  {
    if y == "" {
      assert x + y == x;
    } else {
      assert (x + y)[..|x + y| - 1] == x + y[..|y| - 1];
      WithoutUnderscoresConcat(x, y[..|y| - 1]);
    }
  }

  lemma JoinedIsUnderscored(x: string, y: string)
    requires x != "" && y != "" && AllDigits(x) && AllDigits(y)
    ensures Underscored(x + "_" + y)
  {
    var s := x + "_" + y;
    assert s[|x|] == '_' && s[0] == x[0] && s[|s| - 1] == y[|y| - 1] && s[|x| - 1] == x[|x| - 1];
    forall i | 0 <= i < |s| && i != |x| ensures IsDigit(s[i]) {
      assert i < |x| ==> s[i] == x[i];
      assert i > |x| ==> s[i] == y[i - |x| - 1];
    }
  }

  lemma JoinedWithout(x: string, y: string)
    requires AllDigits(x) && AllDigits(y)
    ensures WithoutUnderscores(x + "_" + y) == x + y
  {
    WithoutUnderscoresConcat(x + "_", y);
    WithoutUnderscoresConcat(x, "_");
    NoUnderscores(x);
    NoUnderscores(y);
    assert WithoutUnderscores("_") == "";
  }

  /** One underscore between digits is passed over. */
  lemma PyIntOfGroups(x: string, y: string)
    requires x != "" && y != "" && AllDigits(x) && AllDigits(y)
    ensures PyInt(x + "_" + y) == Some(Value(x + y))
  {
    var s := x + "_" + y;
    JoinedIsUnderscored(x, y);
    JoinedWithout(x, y);
    StripTrim(s, PySpace);
  }

  lemma NotANumber(s: string, k: nat)
    requires k < |s| && !PySpace(s[0]) && !PySpace(s[|s| - 1]) && !Sign(s)
    requires || (!IsDigit(s[k]) && s[k] != '_') || (s[k] == '_' && (k == 0 || k == |s| - 1 || s[k - 1] == '_'))
    ensures PyInt(s) == None
  {
    StripTrim(s, PySpace);
  }

  /** Two underscores, one at either end, or anything else within the digits is not a number. */
  lemma PyIntOfOtherText(x: string, c: char, y: string)
    requires x != "" && y != "" && AllDigits(x) && AllDigits(y) && !IsDigit(c) && c != '_'
    ensures PyInt(x + [c] + y) == None && PyInt(x + "__" + y) == None
    ensures PyInt("_" + x) == None && PyInt(x + "_") == None
  {
    assert (x + [c] + y)[|x|] == c && (x + [c] + y)[0] == x[0] && (x + [c] + y)[|x| + |y|] == y[|y| - 1];
    NotANumber(x + [c] + y, |x|);
    var two := x + "__" + y;
    assert two[|x| + 1] == '_' && two[|x|] == '_' && two[0] == x[0] && two[|two| - 1] == y[|y| - 1];
    NotANumber(two, |x| + 1);
    assert ("_" + x)[|x|] == x[|x| - 1];
    NotANumber("_" + x, 0);
    assert (x + "_")[0] == x[0];
    NotANumber(x + "_", |x|);
  }

  /** The white space that C passes over before a number. */
  predicate Blank(c: char) {
    c == ' ' || c == '\t' || c == '\n' || c == '\U{b}' || c == '\U{c}' || c == '\r'
  }

  lemma {:induction false} SpacesEndAt(s: string, i: nat, n: nat)
    requires i <= n <= |s|
    requires forall k :: i <= k < n ==> Blank(s[k])
    requires n == |s| || !Blank(s[n])
    ensures SpacesEnd(s, i) == n
    decreases n - i
  {
    if i < n {
      assert Blank(s[i]);
      SpacesEndAt(s, i + 1, n);
    }
  }

  /** A number as strtol returns it: cut to 64 bits, and then an overflow. */
  function Cut(v: int, end: nat): Long {
    if v > 9223372036854775807 then Long(9223372036854775807, true, end)
    else if v < -9223372036854775808 then Long(-9223372036854775808, true, end)
    else Long(v, false, end)
  }

  lemma StrtolOfParts(s: string, b: nat, start: nat, e: nat, n: nat)
    requires SpacesEnd(s, 0) == b < |s| && start == (if s[b] == '-' || s[b] == '+' then b + 1 else b)
    requires start <= |s| && DigitsEnd(s, start) == e > start && Value(s[start..e]) == n
    ensures Strtol(s) == Cut(if s[b] == '-' then -(n as int) else n, e)
  {
  }

  /** strtol of white space, a sign or none, digits, and anything but a digit behind them. */
  lemma StrtolReads(s: string, b: nat, start: nat, e: nat)
    requires b <= start < e <= |s| && forall k :: 0 <= k < b ==> Blank(s[k])
    requires start == b || (start == b + 1 && (s[b] == '-' || s[b] == '+'))
    requires AllDigits(s[start..e]) && (e == |s| || !IsDigit(s[e]))
    ensures Strtol(s) == Cut(if s[b] == '-' then -(Value(s[start..e]) as int) else Value(s[start..e]), e)
  {
    forall k | start <= k < e ensures IsDigit(s[k]) {
      assert s[k] == s[start..e][k - start];
    }
    SpacesEndAt(s, 0, b);
    DigitsEndAt(s, start, e);
    StrtolOfParts(s, b, start, e, Value(s[start..e]));
  }

  /** Where there is no digit nothing is read. */
  lemma StrtolOfNothing(a: string, sign: string, rest: string)
    requires (forall i :: 0 <= i < |a| ==> Blank(a[i])) && sign in {"", "+", "-"}
    requires rest == "" || (!IsDigit(rest[0]) && (sign == "" ==> !Blank(rest[0]) && rest[0] != '+' && rest[0] != '-'))
    ensures Strtol(a + (sign + rest)) == Long(0, false, 0)
  {
    var s := a + (sign + rest);
    forall k | 0 <= k < |a| ensures Blank(s[k]) {
      assert s[k] == a[k];
    }
    assert sign != "" ==> s[|a|] == sign[0];
    assert sign == "" && rest != "" ==> s[|a|] == rest[0];
    assert sign != "" && rest != "" ==> s[|a| + 1] == rest[0];
    SpacesEndAt(s, 0, |a|);
  }

  lemma {:induction false} FirstStays(s: string, space: char -> bool)
    requires s != "" && !space(s[0])
    ensures Strip(s, space) != "" && Strip(s, space)[0] == s[0]
    decreases s
  {
    if space(s[|s| - 1]) {
      FirstStays(s[..|s| - 1], space);
    }
  }

  // ---- Lines -------------------------------------------------------------------------------

  predicate OneLine(s: string) { forall i :: 0 <= i < |s| ==> !LineBreak(s[i]) }

  function Unlines(lines: seq<string>): string {
    if lines == [] then "" else (lines[0] + "\n") + Unlines(lines[1..])
  }

  function BreakAt(s: string, i: nat): (p: nat)
    requires i <= |s|
    ensures i <= p <= |s|
    decreases |s| - i
  {
    if i == |s| || LineBreak(s[i]) then i else BreakAt(s, i + 1)
  }

  /** Lines end at a newline, a carriage return, or both together. */
  function PyLines(text: string): seq<string>
    decreases |text|
  {
    if text == "" then []
    else
      var p := BreakAt(text, 0);
      if p == |text| then [text]
      else if text[p] == '\r' && p + 1 < |text| && text[p + 1] == '\n' then [text[..p] + "\n"] + PyLines(text[p + 2..])
      else [text[..p] + "\n"] + PyLines(text[p + 1..])
  }

  /** fgets: up to a newline, but at most so many characters at a time. */
  function CLines(text: string, most: nat): seq<string>
    requires most > 0
    decreases |text|
  {
    if text == "" then []
    else
      var p := Find(text, '\n', 0);
      var n := if p < |text| && p < most then p + 1 else if |text| <= most then |text| else most;
      [text[..n]] + CLines(text[n..], most)
  }

  function Terminated(lines: seq<string>): (t: seq<string>)
    ensures |t| == |lines|
  {
    seq(|lines|, i requires 0 <= i < |lines| => lines[i] + "\n")
  }

  lemma {:induction false} BreakFound(s: string, i: nat, n: nat)
    requires i <= n < |s| && (forall k :: i <= k < n ==> !LineBreak(s[k])) && LineBreak(s[n])
    ensures BreakAt(s, i) == n
    decreases n - i
  {
    if i < n {
      BreakFound(s, i + 1, n);
    }
  }

  lemma {:induction false} PyLinesAreFound(lines: seq<string>)
    requires forall i :: 0 <= i < |lines| ==> OneLine(lines[i])
    ensures PyLines(Unlines(lines)) == Terminated(lines)
    decreases lines
  {
    if lines != [] {
      var l, text := lines[0], Unlines(lines);
      BreakFound(text, 0, |l|);
      assert text[..|l|] == l && text[|l| + 1..] == Unlines(lines[1..]);
      PyLinesAreFound(lines[1..]);
      assert Terminated(lines) == [l + "\n"] + Terminated(lines[1..]);
    }
  }

  lemma {:induction false} CLinesAreFound(lines: seq<string>, most: nat)
    requires most > 0 && forall i :: 0 <= i < |lines| ==> OneLine(lines[i]) && |lines[i]| < most
    ensures CLines(Unlines(lines), most) == Terminated(lines)
    decreases lines
  {
    if lines != [] {
      var l, text := lines[0], Unlines(lines);
      FindSkips(text, '\n', 0, |l|);
      assert text[..|l| + 1] == l + "\n" && text[|l| + 1..] == Unlines(lines[1..]);
      CLinesAreFound(lines[1..], most);
      assert Terminated(lines) == [l + "\n"] + Terminated(lines[1..]);
    }
  }

  // ---- Lines of any text -----------------------------------------------------------------

  function Concat(pieces: seq<string>): string {
    if pieces == [] then "" else pieces[0] + Concat(pieces[1..])
  }

  predicate IsPiece(l: string, most: nat, last: bool) {
    && 0 < |l| <= most && '\n' !in l[..|l| - 1]
    && (l[|l| - 1] == '\n' || |l| == most || last)
  }

  lemma {:induction false} NotBefore(s: string, c: char, i: nat)
    requires i <= |s|
    ensures forall k :: i <= k < Find(s, c, i) ==> s[k] != c
    decreases |s| - i
  {
    if i < |s| && s[i] != c {
      NotBefore(s, c, i + 1);
    }
  }

  ghost predicate ArePieces(l: seq<string>, most: nat) {
    forall i :: 0 <= i < |l| ==> IsPiece(l[i], most, i == |l| - 1)
  }

  lemma FirstPiece(text: string, most: nat)
    requires most > 0 && text != ""
    ensures var l := CLines(text, most);
            && l != [] && 0 < |l[0]| <= |text| && l[0] == text[..|l[0]|] && l[1..] == CLines(text[|l[0]|..], most)
            && IsPiece(l[0], most, |l[0]| == |text|)
  {
    var p := Find(text, '\n', 0);
    var n := if p < |text| && p < most then p + 1 else if |text| <= most then |text| else most;
    NotBefore(text, '\n', 0);
    assert text[..n][..n - 1] == text[..n - 1];
  }

  lemma MorePieces(l: seq<string>, most: nat)
    requires l != [] && ArePieces(l[1..], most) && IsPiece(l[0], most, |l| == 1)
    ensures ArePieces(l, most)
  {
    forall i | 0 < i < |l| ensures IsPiece(l[i], most, i == |l| - 1) {
      assert l[1..][i - 1] == l[i];
    }
  }

  /** What fgets gives: everything, in pieces of at most `most` characters, each up to a newline, to the
      most it may be, or to the end. */
  lemma {:induction false} CLinesCutTheText(text: string, most: nat)
    requires most > 0
    ensures Concat(CLines(text, most)) == text && ArePieces(CLines(text, most), most)
    ensures CLines(text, most) == [] <==> text == ""
    decreases |text|
  {
    if text != "" {
      FirstPiece(text, most);
      var l := CLines(text, most);
      CLinesCutTheText(text[|l[0]|..], most);
      MorePieces(l, most);
      assert Concat(l) == l[0] + Concat(l[1..]);
    }
  }

  /** Each line with its own end: a newline, a carriage return, or both. */
  function Ended(lines: seq<string>, ends: seq<string>): string
    requires |lines| == |ends|
  {
    if lines == [] then "" else lines[0] + (ends[0] + Ended(lines[1..], ends[1..]))
  }

  /** A carriage return does not run into a newline that is an end of its own. */
  predicate Apart(lines: seq<string>, ends: seq<string>)
    requires |lines| == |ends|
  {
    forall i :: 0 < i < |lines| && ends[i - 1] == "\r" ==> lines[i] != "" || ends[i] == "\r"
  }

  lemma LineOffAt(text: string, p: nat, next: nat)
    requires BreakAt(text, 0) == p < |text|
    requires next == p + if text[p] == '\r' && p + 1 < |text| && text[p + 1] == '\n' then 2 else 1
    ensures PyLines(text) == [text[..p] + "\n"] + PyLines(text[next..])
  {
  }

  lemma OneLineOff(l: string, e: string, more: string)
    requires OneLine(l) && (e == "\n" || e == "\r" || e == "\r\n") && (e == "\r" && more != "" ==> more[0] != '\n')
    ensures PyLines(l + (e + more)) == [l + "\n"] + PyLines(more)
  {
    var text := l + (e + more);
    assert text[..|l|] == l && text[|l|] == e[0] && text[|l| + |e|..] == more;
    assert |e| == 2 ==> text[|l| + 1] == e[1];
    assert |e| == 1 && more != "" ==> text[|l| + 1] == more[0];
    BreakFound(text, 0, |l|);
    LineOffAt(text, |l|, |l| + |e|);
  }

  lemma ApartTail(lines: seq<string>, ends: seq<string>)
    requires |lines| == |ends| > 0 && Apart(lines, ends)
    requires forall i :: 0 <= i < |lines| ==> OneLine(lines[i]) && ends[i] in {"\n", "\r", "\r\n"}
    ensures Apart(lines[1..], ends[1..])
    ensures var more := Ended(lines[1..], ends[1..]); ends[0] == "\r" && more != "" ==> more[0] != '\n'
  {
    forall i | 0 < i < |lines[1..]| && ends[1..][i - 1] == "\r" ensures lines[1..][i] != "" || ends[1..][i] == "\r" {
      assert ends[1..][i - 1] == ends[i] && lines[1..][i] == lines[i + 1] && ends[1..][i] == ends[i + 1];
    }
  }

  /** The lines come back whatever their ends, each closed by a newline. */
  lemma {:induction false} PyLinesOfAnyEnds(lines: seq<string>, ends: seq<string>)
    requires |lines| == |ends| && Apart(lines, ends)
    requires forall i :: 0 <= i < |lines| ==> OneLine(lines[i]) && ends[i] in {"\n", "\r", "\r\n"}
    ensures PyLines(Ended(lines, ends)) == Terminated(lines)
    decreases lines
  {
    if lines != [] {
      ApartTail(lines, ends);
      OneLineOff(lines[0], ends[0], Ended(lines[1..], ends[1..]));
      PyLinesOfAnyEnds(lines[1..], ends[1..]);
      assert Terminated(lines) == [lines[0] + "\n"] + Terminated(lines[1..]);
    }
  }
}
