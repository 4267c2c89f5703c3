/** plugins.conf: the web server's model of a line and of the file, and the core's own parser of
    the same text. */
module PluginsConf {
  import opened Options
  import opened Text

  /** One plugin; native or, if not, Python. */
  datatype Plugin = Plugin(name: string, path: string, enabled: bool, native: bool, config: string, venv: string)

  function SplitOn(s: string, c: char): (parts: seq<string>)
    ensures |parts| >= 1
    decreases |s|
  {
    var p := Find(s, c, 0);
    if p == |s| then [s] else [s[..p]] + SplitOn(s[p + 1..], c)
  }

  function Field(parts: seq<string>, i: nat): string {
    if i < |parts| then Strip(parts[i], PySpace) else ""
  }

  function FromParts(parts: seq<string>): Option<Plugin> {
    if |parts| < 4 then None
    else
      var kind := PyInt(Field(parts, 3));
      if kind != Some(0) && kind != Some(1) then None
      else Some(Plugin(Field(parts, 0), Field(parts, 1), Field(parts, 2) == "1", kind == Some(1),
                       Field(parts, 4), Field(parts, 5)))
  }

  function FromLine(raw: string): Option<Plugin> {
    var line := Strip(raw, PySpace);
    if line == "" || line[0] == '#' then None else FromParts(SplitOn(line, ','))
  }

  function Bit(b: bool): string { if b then "1" else "0" }

  function Tail(p: Plugin): string {
    p.config + (if p.venv != "" then "," + p.venv else "")
  }

  function ToLine(p: Plugin): string {
    p.name + "," + (p.path + "," + (Bit(p.enabled) + "," + (Bit(p.native) + "," + Tail(p))))
  }

  // ---- What a parsed plugin looks like ------------------------------------------------------

  /** Free of commas and of white space at either end. */
  predicate Tidy(s: string) { ',' !in s && (s == "" || Trim(s, PySpace)) }

  predicate WellFormed(p: Plugin) {
    Tidy(p.name) && Tidy(p.path) && Tidy(p.config) && Tidy(p.venv) && (p.name == "" || p.name[0] != '#')
  }

  lemma {:induction false} StripLeftIsSuffix(s: string, space: char -> bool)
    ensures var r := StripLeft(s, space); |r| <= |s| && r == s[|s| - |r|..] && (r != "" ==> !space(r[0]))
    decreases s
  {
    if s != "" && space(s[0]) {
      StripLeftIsSuffix(s[1..], space);
      var r := StripLeft(s[1..], space);
      assert s[1..][|s| - 1 - |r|..] == s[|s| - |r|..];
    }
  }

  lemma {:induction false} StripRightIsPrefix(s: string, space: char -> bool)
    ensures var r := StripRight(s, space); |r| <= |s| && r == s[..|r|] && (r != "" ==> !space(r[|r| - 1]))
    decreases s
  {
    if s != "" && space(s[|s| - 1]) {
      StripRightIsPrefix(s[..|s| - 1], space);
    }
  }

  /** Stripping leaves a tidy piece of the text. */
  lemma StripIsTidy(s: string)
    requires ',' !in s
    ensures Tidy(Strip(s, PySpace))
  {
    var l := StripLeft(s, PySpace);
    StripLeftIsSuffix(s, PySpace);
    StripRightIsPrefix(l, PySpace);
    var r := Strip(s, PySpace);
    forall i | 0 <= i < |r| ensures r[i] != ',' {
      assert r[i] == l[..|r|][i] == s[|s| - |l|..][i] == s[|s| - |l| + i];
    }
  }

  lemma {:induction false} PartsHaveNoCommas(s: string, i: nat)
    requires i < |SplitOn(s, ',')|
    ensures ',' !in SplitOn(s, ',')[i]
    decreases |s|
  {
    var p := Find(s, ',', 0);
    NotBefore(s, ',', 0);
    if p < |s| && i > 0 {
      PartsHaveNoCommas(s[p + 1..], i - 1);
    }
  }

  lemma FieldIsTidy(line: string, i: nat)
    ensures Tidy(Field(SplitOn(line, ','), i))
  {
    if i < |SplitOn(line, ',')| {
      PartsHaveNoCommas(line, i);
      StripIsTidy(SplitOn(line, ',')[i]);
    }
  }

  lemma NameIsNoComment(line: string)
    requires line != "" && line[0] != '#' && !PySpace(line[0])
    ensures var name := Field(SplitOn(line, ','), 0); name == "" || name[0] != '#'
  {
    var first := SplitOn(line, ',')[0];
    if first != "" {
      assert first[0] == line[0];
      FirstStays(first, PySpace);
    }
  }

  lemma ParsedIsWellFormed(raw: string)
    requires FromLine(raw).Some?
    ensures WellFormed(FromLine(raw).value)
  {
    var line := Strip(raw, PySpace);
    StripLeftIsSuffix(raw, PySpace);
    StripRightIsPrefix(StripLeft(raw, PySpace), PySpace);
    FieldIsTidy(line, 0);
    FieldIsTidy(line, 1);
    FieldIsTidy(line, 4);
    FieldIsTidy(line, 5);
    NameIsNoComment(line);
  }

  // ---- Writing a line and reading it again ----------------------------------------------------

  lemma SplitFirst(a: string, b: string)
    requires ',' !in a
    ensures SplitOn(a + "," + b, ',') == [a] + SplitOn(b, ',')
  {
    CutAt(a, ',', b);
    assert a + [','] + b == a + "," + b;
  }

  lemma SplitLast(a: string)
    requires ',' !in a
    ensures SplitOn(a, ',') == [a]
  {
    FindSkips(a, ',', 0, |a|);
  }

  lemma SplitTail(p: Plugin)
    requires WellFormed(p)
    ensures SplitOn(Tail(p), ',') == if p.venv != "" then [p.config, p.venv] else [p.config]
  {
    if p.venv != "" {
      assert Tail(p) == p.config + "," + p.venv;
      SplitFirst(p.config, p.venv);
      SplitLast(p.venv);
    } else {
      assert Tail(p) == p.config;
      SplitLast(p.config);
    }
  }

  /** The fields of a line. */
  function PartsOf(p: Plugin): seq<string> {
    [p.name, p.path, Bit(p.enabled), Bit(p.native)] + (if p.venv != "" then [p.config, p.venv] else [p.config])
  }

  lemma Chain(a: string, b: string, c: string, d: string, tail: seq<string>)
    ensures [a] + ([b] + ([c] + ([d] + tail))) == [a, b, c, d] + tail
  {
  }

  lemma SplitLine(p: Plugin)
    requires WellFormed(p)
    ensures SplitOn(ToLine(p), ',') == PartsOf(p)
  {
    var rest3 := Bit(p.native) + "," + Tail(p);
    var rest2 := Bit(p.enabled) + "," + rest3;
    var rest1 := p.path + "," + rest2;
    var tail := SplitOn(Tail(p), ',');
    SplitFirst(Bit(p.native), Tail(p));
    SplitFirst(Bit(p.enabled), rest3);
    SplitFirst(p.path, rest2);
    SplitFirst(p.name, rest1);
    SplitTail(p);
    Chain(p.name, p.path, Bit(p.enabled), Bit(p.native), tail);
  }

  lemma LineIsTrim(p: Plugin)
    requires WellFormed(p)
    ensures Trim(ToLine(p), PySpace) && ToLine(p)[0] != '#'
  {
    var line := ToLine(p);
    assert p.name != "" ==> line[0] == p.name[0];
    assert p.name == "" ==> line[0] == ',';
    var last := line[|line| - 1];
    assert p.venv != "" ==> last == p.venv[|p.venv| - 1];
    assert p.venv == "" && p.config != "" ==> last == p.config[|p.config| - 1];
    assert p.venv == "" && p.config == "" ==> last == ',';
  }

  lemma BitsAreRead(b: bool)
    ensures Strip(Bit(b), PySpace) == Bit(b) && PyInt(Bit(b)) == Some(if b then 1 else 0)
  {
    assert Decimal(1) == "1" && Decimal(0) == "0";
    StripTrim(Bit(b), PySpace);
    PyIntOfDecimal(1);
    PyIntOfDecimal(0);
  }

  lemma TidyStays(s: string)
    requires Tidy(s)
    ensures Strip(s, PySpace) == s
  {
    if s != "" {
      StripTrim(s, PySpace);
    }
  }

  lemma PartsAreRead(p: Plugin)
    requires WellFormed(p)
    ensures FromParts(PartsOf(p)) == Some(p)
  {
    BitsAreRead(p.enabled);
    BitsAreRead(p.native);
    TidyStays(p.name);
    TidyStays(p.path);
    TidyStays(p.config);
    TidyStays(p.venv);
  }

  lemma TrimLineIsRead(line: string)
    requires Trim(line, PySpace) && line[0] != '#'
    ensures FromLine(line) == FromParts(SplitOn(line, ','))
  {
    StripTrim(line, PySpace);
  }

  lemma LineIsReadBack(p: Plugin)
    requires WellFormed(p)
    ensures FromLine(ToLine(p)) == Some(p)
  {
    LineIsTrim(p);
    TrimLineIsRead(ToLine(p));
    SplitLine(p);
    PartsAreRead(p);
  }

  /** Every plugin read from a line is read back from the line written for it. */
  lemma RoundTrip(raw: string)
    requires FromLine(raw).Some?
    ensures FromLine(ToLine(FromLine(raw).value)) == FromLine(raw)
  {
    ParsedIsWellFormed(raw);
    LineIsReadBack(FromLine(raw).value);
  }

  lemma FourParts(name: string, path: string, enabled: string, kind: string)
    requires Tidy(name) && Tidy(path) && Tidy(enabled) && Tidy(kind)
    ensures FromParts([name, path, enabled, kind]) ==
            if PyInt(kind) == Some(0) then Some(Plugin(name, path, enabled == "1", false, "", ""))
            else if PyInt(kind) == Some(1) then Some(Plugin(name, path, enabled == "1", true, "", ""))
            else None
  {
    TidyStays(name);
    TidyStays(path);
    TidyStays(enabled);
    TidyStays(kind);
  }

  lemma SplitOneMore(a: string, b: string, parts: seq<string>)
    requires ',' !in a && SplitOn(b, ',') == parts
    ensures SplitOn(a + "," + b, ',') == [a] + parts
  {
    SplitFirst(a, b);
  }

  lemma ThreeAndFour(a: string, b: string, c: string, d: string)
    ensures [a] + ([b] + [c]) == [a, b, c] && [a] + [b, c, d] == [a, b, c, d]
  {
  }

  lemma SplitThree(a: string, b: string, c: string)
    requires ',' !in a && ',' !in b && ',' !in c
    ensures SplitOn(a + "," + (b + "," + c), ',') == [a, b, c]
  {
    SplitLast(c);
    SplitOneMore(b, c, [c]);
    SplitOneMore(a, b + "," + c, [b] + [c]);
    ThreeAndFour(a, b, c, "");
  }

  lemma SplitFour(a: string, b: string, c: string, d: string)
    requires ',' !in a && ',' !in b && ',' !in c && ',' !in d
    ensures SplitOn(a + "," + (b + "," + (c + "," + d)), ',') == [a, b, c, d]
  {
    SplitThree(b, c, d);
    SplitOneMore(a, b + "," + (c + "," + d), [b, c, d]);
    ThreeAndFour(a, b, c, d);
  }

  lemma LineBetween(first: string, middle: string, last: string)
    requires Tidy(first) && Tidy(last) && first != "" && first[0] != '#' && last != ""
    ensures Trim(first + middle + last, PySpace) && (first + middle + last)[0] != '#'
  {
    var line := first + middle + last;
    assert line[0] == first[0] && line[|line| - 1] == last[|last| - 1];
  }

  /** Four fields are a plugin, by their places, exactly when the fourth is the number 0 or 1; three are
      none. */
  lemma FourFieldsAreEnough(name: string, path: string, enabled: string, kind: string)
    requires Tidy(name) && Tidy(path) && Tidy(enabled) && Tidy(kind) && name != "" && name[0] != '#' && kind != ""
    ensures FromLine(name + "," + (path + "," + (enabled + "," + kind))) ==
            if PyInt(kind) == Some(0) then Some(Plugin(name, path, enabled == "1", false, "", ""))
            else if PyInt(kind) == Some(1) then Some(Plugin(name, path, enabled == "1", true, "", ""))
            else None
    ensures FromLine(name + "," + (path + "," + kind)) == None
  {
    var line, three := name + "," + (path + "," + (enabled + "," + kind)), name + "," + (path + "," + kind);
    assert line == name + ("," + path + "," + enabled + ",") + kind;
    assert three == name + ("," + path + ",") + kind;
    LineBetween(name, "," + path + "," + enabled + ",", kind);
    LineBetween(name, "," + path + ",", kind);
    SplitFour(name, path, enabled, kind);
    SplitThree(name, path, kind);
    FourParts(name, path, enabled, kind);
    TrimLineIsRead(line);
    TrimLineIsRead(three);
  }

  /** The line of a plugin, field by field. */
  lemma LineOfAPlugin(name: string, path: string, config: string, venv: string)
    requires venv != ""
    ensures ToLine(Plugin(name, path, true, false, config, venv)) ==
            name + "," + (path + ("," + ("1" + ("," + ("0" + ("," + (config + ("," + venv))))))))
    ensures ToLine(Plugin(name, path, false, true, config, "")) ==
            name + "," + (path + ("," + ("0" + ("," + ("1" + ("," + config))))))
  {
  }

  // ---- The file ------------------------------------------------------------------------------------

  type Parser = string -> Option<Plugin>

  /** What the model keeps of a file: the plugins, and every other line with its position. */
  datatype Model = Model(plugins: seq<Plugin>, others: seq<(nat, string)>)

  /** The plugins among the first n lines. */
  function PluginsOf(parse: Parser, lines: seq<string>, n: nat): (ps: seq<Plugin>)
    requires n <= |lines|
    ensures |ps| <= n
  {
    if n == 0 then []
    else
      match parse(lines[n - 1])
      case Some(p) => PluginsOf(parse, lines, n - 1) + [p]
      case None => PluginsOf(parse, lines, n - 1)
  }

  function OthersOf(parse: Parser, lines: seq<string>, n: nat): (os: seq<(nat, string)>)
    requires n <= |lines|
    ensures |os| <= n
  {
    if n == 0 then []
    else if parse(lines[n - 1]).None? then OthersOf(parse, lines, n - 1) + [(n - 1, lines[n - 1])]
    else OthersOf(parse, lines, n - 1)
  }

  function ModelOf(parse: Parser, lines: seq<string>): Model {
    Model(PluginsOf(parse, lines, |lines|), OthersOf(parse, lines, |lines|))
  }

  method FromFile(parse: Parser, lines: seq<string>) returns (m: Model)
    ensures m == ModelOf(parse, lines)
  {
    var plugins: seq<Plugin>, others: seq<(nat, string)> := [], [];
    for i := 0 to |lines|
      invariant plugins == PluginsOf(parse, lines, i) && others == OthersOf(parse, lines, i)
    {
      var plugin := parse(lines[i]);
      if plugin.Some? {
        plugins := plugins + [plugin.value];
      } else {
        others := others + [(i, lines[i])];
      }
    }
    m := Model(plugins, others);
  }

  function WrittenLine(parse: Parser, line: string): string {
    match parse(line) case Some(p) => ToLine(p) case None => line
  }

  /** Each plugin line as it is written, in its place, and every other line as it was. */
  function Rewritten(parse: Parser, lines: seq<string>, n: nat): (r: seq<string>)
    requires n <= |lines|
    ensures |r| == n
  {
    seq(n, i requires 0 <= i < n => WrittenLine(parse, lines[i]))
  }

  /** The other line at position i, if there is one: the last, as in the dictionary that is made
      of them. */
  function OtherAt(others: seq<(nat, string)>, i: nat): Option<string> {
    if others == [] then None
    else if others[|others| - 1].0 == i then Some(others[|others| - 1].1)
    else OtherAt(others[..|others| - 1], i)
  }

  function LastOther(others: seq<(nat, string)>): (m: int)
    ensures m >= -1 && forall k :: 0 <= k < |others| ==> others[k].0 <= m
  {
    if others == [] then -1
    else
      var m := LastOther(others[..|others| - 1]);
      if others[|others| - 1].0 > m then others[|others| - 1].0 else m
  }

  lemma {:induction false} OtherAtIs(parse: Parser, lines: seq<string>, n: nat, i: nat)
    requires n <= |lines|
    ensures OtherAt(OthersOf(parse, lines, n), i) ==
            if i < n && parse(lines[i]).None? then Some(lines[i]) else None
    decreases n
  {
    if n > 0 {
      OtherAtIs(parse, lines, n - 1, i);
      var os := OthersOf(parse, lines, n);
      if parse(lines[n - 1]).None? {
        assert os[..|os| - 1] == OthersOf(parse, lines, n - 1);
      }
    }
  }

  lemma {:induction false} PluginAt(parse: Parser, lines: seq<string>, n: nat, i: nat)
    requires i < n <= |lines| && parse(lines[i]).Some?
    ensures |PluginsOf(parse, lines, i)| < |PluginsOf(parse, lines, n)|
    ensures PluginsOf(parse, lines, n)[|PluginsOf(parse, lines, i)|] == parse(lines[i]).value
    decreases n
  {
    if i < n - 1 {
      PluginAt(parse, lines, n - 1, i);
    }
  }

  lemma {:induction false} PluginsGrow(parse: Parser, lines: seq<string>, i: nat, n: nat)
    requires i <= n <= |lines|
    ensures |PluginsOf(parse, lines, i)| <= |PluginsOf(parse, lines, n)|
    ensures |PluginsOf(parse, lines, i)| == |PluginsOf(parse, lines, n)| ==>
              forall k :: i <= k < n ==> parse(lines[k]).None?
    decreases n - i
  {
    if i < n {
      PluginsGrow(parse, lines, i, n - 1);
    }
  }

  /** The latest line that is no plugin moves on with such a line. */
  lemma LastOtherMoves(parse: Parser, lines: seq<string>, n: nat)
    requires 0 < n <= |lines| && LastOther(OthersOf(parse, lines, n - 1)) < n - 1
    ensures LastOther(OthersOf(parse, lines, n)) ==
            if parse(lines[n - 1]).None? then n - 1 else LastOther(OthersOf(parse, lines, n - 1))
  {
    var os := OthersOf(parse, lines, n);
    if parse(lines[n - 1]).None? {
      assert os[..|os| - 1] == OthersOf(parse, lines, n - 1);
    }
  }

  lemma {:induction false} LastOtherIsALine(parse: Parser, lines: seq<string>, n: nat)
    requires n <= |lines|
    ensures LastOther(OthersOf(parse, lines, n)) < n
    ensures forall k :: 0 <= k < n && parse(lines[k]).None? ==> k <= LastOther(OthersOf(parse, lines, n))
    decreases n
  {
    if n > 0 {
      LastOtherIsALine(parse, lines, n - 1);
      LastOtherMoves(parse, lines, n);
    }
  }

  lemma RewrittenSnoc(parse: Parser, lines: seq<string>, i: nat)
    requires i < |lines|
    ensures Rewritten(parse, lines, i + 1) == Rewritten(parse, lines, i) + [WrittenLine(parse, lines[i])]
  {
  }

  /** One line of the output. */
  lemma NextLine(parse: Parser, lines: seq<string>, i: nat)
    requires i < |lines|
    ensures var at, k := OtherAt(OthersOf(parse, lines, |lines|), i), |PluginsOf(parse, lines, i)|;
            var all := PluginsOf(parse, lines, |lines|);
            if at.Some? then
              Rewritten(parse, lines, i + 1) == Rewritten(parse, lines, i) + [at.value] &&
              |PluginsOf(parse, lines, i + 1)| == k
            else
              k < |all| && Rewritten(parse, lines, i + 1) == Rewritten(parse, lines, i) + [ToLine(all[k])] &&
              |PluginsOf(parse, lines, i + 1)| == k + 1
  {
    OtherAtIs(parse, lines, |lines|, i);
    RewrittenSnoc(parse, lines, i);
    if parse(lines[i]).Some? {
      PluginAt(parse, lines, |lines|, i);
    }
  }

  /** The plugins after the last other line. */
  method AppendRest(m: Model, first: nat, start: seq<string>,
                    ghost parse: Parser, ghost lines: seq<string>, ghost at: nat)
    returns (out: seq<string>)
    requires m == ModelOf(parse, lines) && at <= |lines| && LastOther(m.others) < at
    requires start == Rewritten(parse, lines, at) && first == |PluginsOf(parse, lines, at)| <= |m.plugins|
    ensures out == Rewritten(parse, lines, |lines|)
  {
    LastOtherIsALine(parse, lines, |lines|);
    out := start;
    var index := first;
    ghost var i := at;
    while index < |m.plugins|
      invariant at <= i <= |lines| && index == |PluginsOf(parse, lines, i)| <= |m.plugins|
      invariant out == Rewritten(parse, lines, i)
      decreases |m.plugins| - index
    {
      assert i < |lines|;
      NextLine(parse, lines, i);
      OtherAtIs(parse, lines, |lines|, i);
      out := out + [ToLine(m.plugins[index])];
      index := index + 1;
      i := i + 1;
    }
    PluginsGrow(parse, lines, i, |lines|);
  }

  /** Writing back what was read puts every plugin and every other line where it was. */
  method ToFile(m: Model, ghost parse: Parser, ghost lines: seq<string>) returns (out: seq<string>)
    requires m == ModelOf(parse, lines)
    ensures out == Rewritten(parse, lines, |lines|)
  {
    LastOtherIsALine(parse, lines, |lines|);
    var maxLine := LastOther(m.others);
    if |m.plugins| - 1 > maxLine {
      maxLine := |m.plugins| - 1;
    }
    out := [];
    var index, i := 0, 0;
    while i < maxLine + 1
      invariant i <= maxLine + 1 <= |lines|
      invariant out == Rewritten(parse, lines, i) && index == |PluginsOf(parse, lines, i)|
    {
      NextLine(parse, lines, i);
      var other := OtherAt(m.others, i);
      if other.Some? {
        out := out + [other.value];
      } else if index < |m.plugins| {
        out := out + [ToLine(m.plugins[index])];
        index := index + 1;
      }
      i := i + 1;
    }
    PluginsGrow(parse, lines, i, |lines|);
    out := AppendRest(m, index, out, parse, lines, i);
  }

  predicate IsNewline(c: char) { c == '\n' }

  /** The lines of a text as the model reads them, without their ends. */
  function FileLines(text: string): (lines: seq<string>)
    ensures |lines| == |PyLines(text)|
  {
    seq(|PyLines(text)|, i requires 0 <= i < |PyLines(text)| => StripRight(PyLines(text)[i], IsNewline))
  }

  lemma EndIsCut(l: string)
    requires OneLine(l)
    ensures StripRight(l + "\n", IsNewline) == l
  {
    assert (l + "\n")[..|l|] == l;
    assert l != "" ==> !IsNewline(l[|l| - 1]);
    assert StripRight(l, IsNewline) == l;
  }

  /** A written file is read back line by line. */
  lemma WrittenLinesAreFound(lines: seq<string>)
    requires forall i :: 0 <= i < |lines| ==> OneLine(lines[i])
    ensures FileLines(Unlines(lines)) == lines
  {
    PyLinesAreFound(lines);
    forall i | 0 <= i < |lines| ensures StripRight(lines[i] + "\n", IsNewline) == lines[i] {
      EndIsCut(lines[i]);
    }
  }

  /** Reading and writing a file keeps the number of lines; every line that is no plugin stays
      word for word where it is; every plugin line reads as the same plugin. */
  lemma FileKeepsItsLines(lines: seq<string>, i: nat)
    requires i < |lines|
    ensures var out := Rewritten(FromLine, lines, |lines|);
            |out| == |lines| && FromLine(out[i]) == FromLine(lines[i]) &&
            (FromLine(lines[i]).None? ==> out[i] == lines[i])
  {
    if FromLine(lines[i]).Some? {
      RoundTrip(lines[i]);
    }
  }
}
