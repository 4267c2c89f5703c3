/** The file that carries the image sizes: the writer and reader of the web server, the reader
    of the PLC application, and what each makes of the other's text. */
module ImageConf {
  import opened Options
  import opened Text

  const TABLES: nat := 14
  const FORMAT_VERSION: int := 2
  const MAX_TABLE_ELEMENTS: nat := 65536

  function Key(t: nat): string
    requires t < TABLES
  {
    match t
    case 0 => "bool_input" case 1 => "bool_output" case 2 => "byte_input" case 3 => "byte_output"
    case 4 => "int_input" case 5 => "int_output" case 6 => "dint_input" case 7 => "dint_output"
    case 8 => "lint_input" case 9 => "lint_output" case 10 => "int_memory" case 11 => "dint_memory"
    case 12 => "lint_memory" case _ => "bool_memory"
  }

  predicate InBits(t: nat) { t == 0 || t == 1 || t == 13 }

  function Unit(t: nat): string
    requires t < TABLES
  {
    if InBits(t) then "bits"
    else if t == 2 || t == 3 then "bytes"
    else if t == 4 || t == 5 || t == 10 then "words"
    else if t == 6 || t == 7 || t == 11 then "dwords"
    else "lwords"
  }

  function MaxInFileUnit(t: nat): nat {
    if InBits(t) then MAX_TABLE_ELEMENTS * 8 else MAX_TABLE_ELEMENTS
  }

  /** Lower-case letters and underscores: what keys and units are made of. */
  predicate Plain(c: char) { 'a' <= c <= 'z' || c == '_' }

  predicate AllPlain(s: string) { forall i :: 0 <= i < |s| ==> Plain(s[i]) }

  lemma KeysArePlain(t: nat)
    requires t < TABLES
    ensures AllPlain(Key(t)) && 1 <= |Key(t)| <= 11
  {
  }

  lemma UnitsArePlain(t: nat)
    requires t < TABLES
    ensures AllPlain(Unit(t)) && 1 <= |Unit(t)| <= 6
  {
  }

  lemma KeysDiffer(t: nat, u: nat)
    requires t < TABLES && u < TABLES && t != u
    ensures Key(t) != Key(u)
  {
    var a, b := Key(t), Key(u);
    assert |a| != |b| || a[0] != b[0] || a[1] != b[1] || a[|a| - 1] != b[|b| - 1];
  }

  /** The first table from i on whose key this is. */
  function TableOf(key: string, i: nat): (t: Option<nat>)
    requires i <= TABLES
    ensures t.Some? ==> i <= t.value < TABLES
    decreases TABLES - i
  {
    if i == TABLES then None else if key == Key(i) then Some(i) else TableOf(key, i + 1)
  }

  lemma {:induction false} TableOfKey(t: nat, i: nat)
    requires i <= t < TABLES
    ensures TableOf(Key(t), i) == Some(t)
    decreases t - i
  {
    if i < t {
      KeysDiffer(t, i);
      TableOfKey(t, i + 1);
    }
  }

  // ---- The writer -------------------------------------------------------------------------

  /** The file opens with comment lines; their wording is a parameter. */
  predicate IsComment(l: string) {
    l != "" && l[0] == '#' && OneLine(l) && |l| < LINE_MAX
  }

  predicate AllComments(lines: seq<string>) { forall i :: 0 <= i < |lines| ==> IsComment(lines[i]) }

  const VERSION_LINE: string := "format_version=2"

  function TableLine(sizes: seq<nat>, t: nat): string
    requires t < TABLES && |sizes| == TABLES
  {
    Key(t) + "=" + (Decimal(sizes[t]) + " " + Unit(t))
  }

  function TableLines(sizes: seq<nat>, n: nat): (l: seq<string>)
    requires n <= TABLES && |sizes| == TABLES
    ensures |l| == n
  {
    if n == 0 then [] else TableLines(sizes, n - 1) + [TableLine(sizes, n - 1)]
  }

  /** The comments, the version and the first n tables. */
  function Lines(comments: seq<string>, sizes: seq<nat>, n: nat): seq<string>
    requires n <= TABLES && |sizes| == TABLES
  {
    comments + [VERSION_LINE] + TableLines(sizes, n)
  }

  /** The whole file. */
  function FileText(comments: seq<string>, sizes: seq<nat>): string
    requires |sizes| == TABLES
  {
    Unlines(Lines(comments, sizes, TABLES))
  }

  /** The keys of the fourteen tables, and the unit that each one's addresses are counted in. */
  lemma KeysAndUnits()
    ensures Key(0) == "bool_input" && Unit(0) == "bits"
    ensures Key(1) == "bool_output" && Unit(1) == "bits"
    ensures Key(2) == "byte_input" && Unit(2) == "bytes"
    ensures Key(3) == "byte_output" && Unit(3) == "bytes"
    ensures Key(4) == "int_input" && Unit(4) == "words"
    ensures Key(5) == "int_output" && Unit(5) == "words"
    ensures Key(6) == "dint_input" && Unit(6) == "dwords"
    ensures Key(7) == "dint_output" && Unit(7) == "dwords"
    ensures Key(8) == "lint_input" && Unit(8) == "lwords"
    ensures Key(9) == "lint_output" && Unit(9) == "lwords"
    ensures Key(10) == "int_memory" && Unit(10) == "words"
    ensures Key(11) == "dint_memory" && Unit(11) == "dwords"
    ensures Key(12) == "lint_memory" && Unit(12) == "lwords"
    ensures Key(13) == "bool_memory" && Unit(13) == "bits"
  {
  }

  lemma {:induction false} TableLinesAt(sizes: seq<nat>, n: nat, t: nat)
    requires t < n <= TABLES && |sizes| == TABLES
    ensures TableLines(sizes, n)[t] == TableLine(sizes, t)
    decreases n
  {
    var rest, last := TableLines(sizes, n - 1), TableLine(sizes, n - 1);
    assert TableLines(sizes, n) == rest + [last];
    if t < n - 1 {
      TableLinesAt(sizes, n - 1, t);
    }
  }

  /** The file, line by line: comments, the version, and fourteen counts with their units. */
  lemma FileLines(comments: seq<string>, sizes: seq<nat>, t: nat)
    requires |sizes| == 14 && t < 14
    ensures var l, at := Lines(comments, sizes, 14), |comments|;
            && |l| == at + 15 && l[..at] == comments && l[at] == "format_version=2"
            && l[at + 1 + t] == Key(t) + "=" + (Decimal(sizes[t]) + " " + Unit(t))
  {
    TableLinesAt(sizes, 14, t);
  }

  // ---- The web server's reader -------------------------------------------------------------

  /** sizes: None where the count is not a number. */
  datatype Conf = Conf(version: int, sizes: seq<Option<int>>, units: seq<string>)

  predicate Whole(c: Conf) { |c.sizes| == TABLES && |c.units| == TABLES }

  function PyEmpty(): (c: Conf)
    ensures Whole(c)
  {
    Conf(0, seq(TABLES, _ => Some(0)), seq(TABLES, t requires 0 <= t < TABLES => Unit(t)))
  }

  function PyEntry(c: Conf, key: string, value: string): (d: Conf)
    requires Whole(c)
    ensures Whole(d)
  {
    if key == "format_version" then
      c.(version := match PyInt(value) case Some(n) => n case None => -1)
    else
      match TableOf(key, 0)
      case None => c
      case Some(t) =>
        c.(units := c.units[t := Strip(After(value, ' '), PySpace)], sizes := c.sizes[t := PyInt(Before(value, ' '))])
  }

  function PyLine(c: Conf, raw: string): (d: Conf)
    requires Whole(c)
    ensures Whole(d)
  {
    var line := Strip(raw, PySpace);
    if line == "" || line[0] == '#' || '=' !in line then c
    else PyEntry(c, Strip(Before(line, '='), PySpace), Strip(After(line, '='), PySpace))
  }

  function PyFold(c: Conf, lines: seq<string>): (d: Conf)
    requires Whole(c)
    ensures Whole(d)
    decreases |lines|
  {
    if lines == [] then c else PyLine(PyFold(c, lines[..|lines| - 1]), lines[|lines| - 1])
  }

  function PyRead(text: string): Conf { PyFold(PyEmpty(), PyLines(text)) }

  method TakeEntry(before: int, sizes: array<Option<int>>, units: array<string>, key: string, value: string)
    returns (version: int)
    requires sizes.Length == TABLES && units.Length == TABLES
    modifies sizes, units
    ensures Conf(version, sizes[..], units[..]) == PyEntry(old(Conf(before, sizes[..], units[..])), key, value)
  {
    version := before;
    if key == "format_version" {
      var n := PyInt(value);
      version := if n.Some? then n.value else -1;
    } else {
      var table := TableOf(key, 0);
      if table.Some? {
        units[table.value] := Strip(After(value, ' '), PySpace);
        sizes[table.value] := PyInt(Before(value, ' '));
      }
    }
  }

  /** The reader's loop, over the dictionaries it updates. */
  method ReadImageConf(text: string) returns (version: int, sizes: array<Option<int>>, units: array<string>)
    ensures sizes.Length == TABLES && units.Length == TABLES
    ensures Conf(version, sizes[..], units[..]) == PyRead(text)
  {
    version := 0;
    sizes := new Option<int>[TABLES](_ => Some(0));
    units := new string[TABLES](t requires 0 <= t < TABLES => Unit(t));
    var lines := PyLines(text);
    for i := 0 to |lines|
      invariant Conf(version, sizes[..], units[..]) == PyFold(PyEmpty(), lines[..i])
    {
      assert lines[..i + 1][..i] == lines[..i];
      var line := Strip(lines[i], PySpace);
      if line == "" || line[0] == '#' || '=' !in line {
        continue;
      }
      var key, value := Strip(Before(line, '='), PySpace), Strip(After(line, '='), PySpace);
      version := TakeEntry(version, sizes, units, key, value);
    }
    assert lines[..|lines|] == lines;
  }

  // ---- Validation ------------------------------------------------------------------------------

  datatype Check<T> = Accepted(value: T) | Rejected(reason: string)

  function ValidateTableCount(t: nat, count: Option<int>, unit: string): Check<nat>
    requires t < TABLES
  {
    if unit != Unit(t) then Rejected("unit")
    else if count.None? then Rejected("not a whole number")
    else if count.value < 0 then Rejected("negative")
    else if count.value > MaxInFileUnit(t) then Rejected("too large")
    else Accepted(count.value)
  }

  function ValidateTables(c: Conf, n: nat): (r: Check<seq<nat>>)
    requires Whole(c) && n <= TABLES
    ensures r.Accepted? ==> |r.value| == n
  {
    if n == 0 then Accepted([])
    else
      match ValidateTables(c, n - 1)
      case Rejected(e) => Rejected(e)
      case Accepted(counts) =>
        match ValidateTableCount(n - 1, c.sizes[n - 1], c.units[n - 1])
        case Rejected(e) => Rejected(e)
        case Accepted(count) => Accepted(counts + [count])
  }

  function Validate(c: Conf): Check<seq<nat>>
    requires Whole(c)
  {
    if c.version != FORMAT_VERSION then Rejected("version") else ValidateTables(c, TABLES)
  }

  predicate Honourable(sizes: seq<nat>) {
    |sizes| == TABLES && forall t :: 0 <= t < TABLES ==> sizes[t] <= MaxInFileUnit(t)
  }

  /** A count in the table's own unit that the runtime can honour. */
  predicate Counts(c: Conf, t: nat)
    requires Whole(c) && t < TABLES
  {
    c.units[t] == Unit(t) && c.sizes[t].Some? && 0 <= c.sizes[t].value <= MaxInFileUnit(t)
  }

  lemma CountAcceptedExactlyWhen(c: Conf, t: nat)
    requires Whole(c) && t < TABLES
    ensures var r := ValidateTableCount(t, c.sizes[t], c.units[t]);
            && (r.Accepted? <==> Counts(c, t)) && (r.Accepted? ==> c.sizes[t] == Some(r.value))
            && (r == Rejected("unit") <==> c.units[t] != Unit(t))
            && (r == Rejected("not a whole number") <==> c.units[t] == Unit(t) && c.sizes[t] == None)
            && (r == Rejected("negative") <==> c.units[t] == Unit(t) && c.sizes[t].Some? && c.sizes[t].value < 0)
            && (r == Rejected("too large") <==>
                  c.units[t] == Unit(t) && c.sizes[t].Some? && c.sizes[t].value > MaxInFileUnit(t))
  {
  }

  lemma {:induction false} AcceptedCounts(c: Conf, n: nat)
    requires Whole(c) && n <= TABLES && ValidateTables(c, n).Accepted?
    ensures forall t :: 0 <= t < n ==> c.sizes[t] == Some(ValidateTables(c, n).value[t])
  {
    if n > 0 {
      AcceptedCounts(c, n - 1);
      CountAcceptedExactlyWhen(c, n - 1);
    }
  }

  /** Accepted means exactly: this version, and every table a count in its own unit that the
      runtime can honour. */
  lemma {:induction false} TablesAcceptedExactlyWhen(c: Conf, n: nat)
    requires Whole(c) && n <= TABLES
    ensures ValidateTables(c, n).Accepted? <==> forall t :: 0 <= t < n ==> Counts(c, t)
    ensures ValidateTables(c, n).Accepted? ==>
            forall t :: 0 <= t < n ==> c.sizes[t] == Some(ValidateTables(c, n).value[t])
  {
    if n > 0 {
      TablesAcceptedExactlyWhen(c, n - 1);
      CountAcceptedExactlyWhen(c, n - 1);
    }
    if ValidateTables(c, n).Accepted? {
      AcceptedCounts(c, n);
    }
  }

  lemma AcceptedIsHonourable(c: Conf)
    requires Whole(c) && Validate(c).Accepted?
    ensures Honourable(Validate(c).value)
  {
    TablesAcceptedExactlyWhen(c, TABLES);
    forall t | 0 <= t < TABLES ensures Validate(c).value[t] <= MaxInFileUnit(t) {
      assert Counts(c, t);
    }
  }

  // ---- The core's reader ---------------------------------------------------------------------------

  datatype Parsed = Parsed(version: int, elements: seq<nat>)

  function CVersion(val: string): int {
    var l := Strtol(val);
    if l.end == 0 || l.end < |val| then 0 else l.value
  }

  /** Bits to elements, rounding up. */
  function ToElements(t: nat, v: nat): nat { if InBits(t) then (v + 7) / 8 else v }

  function CElements(t: nat, val: string): nat
    requires t < TABLES
  {
    var l := Strtol(val);
    var unit := if l.end > 0 then Strip(val[l.end..], CSpace) else "";
    if !l.overflow && l.end > 0 && 0 < l.value <= MaxInFileUnit(t) && unit == Unit(t)
    then ToElements(t, l.value) else 0
  }

  function CEntry(p: Parsed, key: string, val: string): (q: Parsed)
    requires |p.elements| == TABLES
    ensures |q.elements| == TABLES
  {
    if key == "format_version" then p.(version := CVersion(val))
    else
      match TableOf(key, 0)
      case None => p
      case Some(t) => p.(elements := p.elements[t := CElements(t, val)])
  }

  function CLine(p: Parsed, raw: string): (q: Parsed)
    requires |p.elements| == TABLES
    ensures |q.elements| == TABLES
  {
    var s := Strip(raw, CSpace);
    if s == "" || s[0] == '#' || Find(s, '=', 0) == |s| then p
    else CEntry(p, Strip(Before(s, '='), CSpace), Strip(After(s, '='), CSpace))
  }

  const LINE_MAX: nat := 255

  function Zeros(): seq<nat> { seq(TABLES, _ => 0) }

  function CFold(p: Parsed, lines: seq<string>): (q: Parsed)
    requires |p.elements| == TABLES
    ensures |q.elements| == TABLES
    decreases |lines|
  {
    if lines == [] then p else CLine(CFold(p, lines[..|lines| - 1]), lines[|lines| - 1])
  }

  /** An unknown version refuses the whole file. */
  function CRead(text: string): seq<nat> {
    var p := CFold(Parsed(0, Zeros()), CLines(text, LINE_MAX));
    if p.version == FORMAT_VERSION then p.elements else Zeros()
  }

  method FindTable(key: string) returns (t: Option<nat>)
    ensures t == TableOf(key, 0)
  {
    var i := 0;
    while i < TABLES && key != Key(i)
      invariant i <= TABLES && TableOf(key, 0) == TableOf(key, i)
    {
      i := i + 1;
    }
    t := if i < TABLES then Some(i) else None;
  }

  /** One key and its value. */
  method ReadEntry(key: string, val: string, version: int, parsed: array<nat>) returns (v: int)
    requires parsed.Length == TABLES
    modifies parsed
    ensures Parsed(v, parsed[..]) == CEntry(Parsed(version, old(parsed[..])), key, val)
  {
    v := version;
    if key == "format_version" {
      v := CVersion(val);
    } else {
      var table := FindTable(key);
      if table.Some? {
        parsed[table.value] := CElements(table.value, val);
      }
    }
  }

  method ReadLine(raw: string, version: int, parsed: array<nat>) returns (v: int)
    requires parsed.Length == TABLES
    modifies parsed
    ensures Parsed(v, parsed[..]) == CLine(Parsed(version, old(parsed[..])), raw)
  {
    v := version;
    var s := Strip(raw, CSpace);
    if s != "" && s[0] != '#' && Find(s, '=', 0) < |s| {
      v := ReadEntry(Strip(Before(s, '='), CSpace), Strip(After(s, '='), CSpace), version, parsed);
    }
  }

  lemma CFoldNext(lines: seq<string>, n: nat)
    requires n < |lines|
    ensures CFold(Parsed(0, Zeros()), lines[..n + 1]) == CLine(CFold(Parsed(0, Zeros()), lines[..n]), lines[n])
  {
    assert lines[..n + 1][..n] == lines[..n];
  }

  /** The reader's loops: over the lines, and for each over the fourteen keys. */
  method ReadConf(text: string) returns (sizes: array<nat>)
    ensures sizes.Length == TABLES && sizes[..] == CRead(text)
  {
    sizes := new nat[TABLES](_ => 0);
    var parsed := new nat[TABLES](_ => 0);
    var version := 0;
    var lines := CLines(text, LINE_MAX);
    for n := 0 to |lines|
      invariant Parsed(version, parsed[..]) == CFold(Parsed(0, Zeros()), lines[..n])
      invariant sizes[..] == Zeros()
    {
      CFoldNext(lines, n);
      version := ReadLine(lines[n], version, parsed);
    }
    assert lines[..|lines|] == lines;
    if version == FORMAT_VERSION {
      forall t | 0 <= t < TABLES {
        sizes[t] := parsed[t];
      }
      assert sizes[..] == parsed[..];
    }
  }

  // ---- The round trips ------------------------------------------------------------------------------

  /** A line both readers find again. */
  predicate Clean(l: string) {
    OneLine(l) && |l| < LINE_MAX
  }

  lemma CommentsAreSkipped(c: Conf, p: Parsed, l: string)
    requires IsComment(l) && Whole(c) && |p.elements| == TABLES
    ensures PyLine(c, l + "\n") == c && CLine(p, l + "\n") == p
  {
    FirstStays(l + "\n", PySpace);
    FirstStays(l + "\n", CSpace);
  }

  lemma TwoIsRead()
    ensures PyInt("2") == Some(2) && CVersion("2") == 2
  {
    assert "2" == Decimal(2) && Decimal(2) + "" == "2";
    PyIntOfDecimal(2);
    StrtolOfDecimal(2, "");
  }

  lemma VersionLineParts(space: char -> bool)
    requires space('\n') && !space('f') && !space('n') && !space('2')
    ensures Strip(VERSION_LINE + "\n", space) == VERSION_LINE && '=' in VERSION_LINE && Find(VERSION_LINE, '=', 0) == 14
    ensures Strip(Before(VERSION_LINE, '='), space) == "format_version" && Strip(After(VERSION_LINE, '='), space) == "2"
  {
    assert VERSION_LINE == "format_version" + ['='] + "2";
    StripTrim(VERSION_LINE, space);
    CutAt("format_version", '=', "2");
    StripTrim("format_version", space);
    StripTrim("2", space);
    assert VERSION_LINE[14] == '=';
  }

  lemma VersionIsRead(c: Conf, p: Parsed)
    requires Whole(c) && |p.elements| == TABLES
    ensures PyLine(c, VERSION_LINE + "\n") == c.(version := FORMAT_VERSION)
    ensures CLine(p, VERSION_LINE + "\n") == p.(version := FORMAT_VERSION)
  {
    VersionLineParts(PySpace);
    VersionLineParts(CSpace);
    TwoIsRead();
  }

  /** White space is none of the characters a table line is made of, but the blank and the newline. */
  predicate Spaces(space: char -> bool) {
    (forall c :: Plain(c) || IsDigit(c) ==> !space(c)) && space('\n') && space(' ')
  }

  lemma UnitIsStripped(t: nat, space: char -> bool)
    requires t < TABLES && Spaces(space)
    ensures Strip(Unit(t), space) == Unit(t) && Strip(" " + Unit(t), space) == Unit(t)
  {
    UnitsArePlain(t);
    StripTrim(Unit(t), space);
    assert (" " + Unit(t))[1..] == Unit(t);
  }

  lemma ValueIsTrim(n: nat, t: nat, space: char -> bool)
    requires t < TABLES && Spaces(space)
    ensures Trim(Decimal(n) + " " + Unit(t), space)
  {
    UnitsArePlain(t);
    var val := Decimal(n) + " " + Unit(t);
    assert val[0] == Decimal(n)[0] && val[|val| - 1] == Unit(t)[|Unit(t)| - 1];
  }

  /** A table line and its parts. */
  lemma TableLineParts(sizes: seq<nat>, t: nat, space: char -> bool)
    requires t < TABLES && |sizes| == TABLES && Spaces(space)
    ensures var line := TableLine(sizes, t);
            Strip(line + "\n", space) == line && line != "" && line[0] != '#' && '=' in line &&
            Find(line, '=', 0) < |line| &&
            Strip(Before(line, '='), space) == Key(t) &&
            Strip(After(line, '='), space) == Decimal(sizes[t]) + " " + Unit(t)
  {
    var line, key, val := TableLine(sizes, t), Key(t), Decimal(sizes[t]) + " " + Unit(t);
    KeysArePlain(t);
    ValueIsTrim(sizes[t], t, space);
    assert line == key + ['='] + val;
    assert line[0] == key[0] && line[|line| - 1] == val[|val| - 1] && line[|key|] == '=';
    StripTrim(line, space);
    CutAt(key, '=', val);
    StripTrim(key, space);
    StripTrim(val, space);
  }

  lemma KeyIsNotVersion(t: nat)
    requires t < TABLES
    ensures Key(t) != "format_version"
  {
    KeysArePlain(t);
    assert |"format_version"| == 14;
  }

  lemma PyTableEntry(c: Conf, t: nat, n: nat)
    requires Whole(c) && t < TABLES
    ensures PyEntry(c, Key(t), Decimal(n) + " " + Unit(t)) ==
            c.(units := c.units[t := Strip(Unit(t), PySpace)], sizes := c.sizes[t := Some(n)])
  {
    KeyIsNotVersion(t);
    TableOfKey(t, 0);
    assert Decimal(n) + " " + Unit(t) == Decimal(n) + [' '] + Unit(t);
    CutAt(Decimal(n), ' ', Unit(t));
    PyIntOfDecimal(n);
  }

  lemma PyTableLine(c: Conf, sizes: seq<nat>, t: nat)
    requires Whole(c) && t < TABLES && |sizes| == TABLES
    ensures PyLine(c, TableLine(sizes, t) + "\n") ==
            c.(units := c.units[t := Unit(t)], sizes := c.sizes[t := Some(sizes[t])])
  {
    TableLineParts(sizes, t, PySpace);
    UnitIsStripped(t, PySpace);
    PyTableEntry(c, t, sizes[t]);
  }

  lemma CCountIsRead(t: nat, n: nat)
    requires t < TABLES && n <= MaxInFileUnit(t)
    requires Strip(" " + Unit(t), CSpace) == Unit(t)
    ensures CElements(t, Decimal(n) + " " + Unit(t)) == ToElements(t, n)
  {
    var val := Decimal(n) + " " + Unit(t);
    assert val == Decimal(n) + (" " + Unit(t));
    assert val[|Decimal(n)|..] == " " + Unit(t);
    StrtolOfDecimal(n, " " + Unit(t));
    assert Strtol(val) == Long(n, false, |Decimal(n)|);
  }

  lemma CTableEntry(p: Parsed, t: nat, n: nat)
    requires |p.elements| == TABLES && t < TABLES && n <= MaxInFileUnit(t)
    requires Strip(" " + Unit(t), CSpace) == Unit(t)
    ensures CEntry(p, Key(t), Decimal(n) + " " + Unit(t)) == p.(elements := p.elements[t := ToElements(t, n)])
  {
    KeyIsNotVersion(t);
    TableOfKey(t, 0);
    CCountIsRead(t, n);
  }

  lemma CTableLine(p: Parsed, sizes: seq<nat>, t: nat)
    requires |p.elements| == TABLES && t < TABLES && Honourable(sizes)
    ensures CLine(p, TableLine(sizes, t) + "\n") == p.(elements := p.elements[t := ToElements(t, sizes[t])])
  {
    TableLineParts(sizes, t, CSpace);
    UnitIsStripped(t, CSpace);
    CTableEntry(p, t, sizes[t]);
  }

  /** The state of the readers after the first n table lines. */
  function PyAfter(sizes: seq<nat>, n: nat): (c: Conf)
    requires n <= TABLES && |sizes| == TABLES
    ensures Whole(c)
  {
    Conf(FORMAT_VERSION, seq(TABLES, t requires 0 <= t < TABLES => Some(if t < n then sizes[t] else 0)),
         PyEmpty().units)
  }

  function CAfter(sizes: seq<nat>, n: nat): (p: Parsed)
    requires n <= TABLES && |sizes| == TABLES
    ensures |p.elements| == TABLES
  {
    Parsed(FORMAT_VERSION, seq(TABLES, t requires 0 <= t < TABLES => if t < n then ToElements(t, sizes[t]) else 0))
  }

  lemma FoldsSnoc(lines: seq<string>, l: string)
    ensures PyFold(PyEmpty(), lines + [l]) == PyLine(PyFold(PyEmpty(), lines), l)
    ensures CFold(Parsed(0, Zeros()), lines + [l]) == CLine(CFold(Parsed(0, Zeros()), lines), l)
  {
    assert (lines + [l])[..|lines|] == lines;
  }

  lemma TerminatedSnoc(lines: seq<string>, l: string)
    ensures Terminated(lines + [l]) == Terminated(lines) + [l + "\n"]
  {
  }

  lemma {:induction false} CommentsFold(comments: seq<string>)
    requires AllComments(comments)
    ensures PyFold(PyEmpty(), Terminated(comments)) == PyEmpty()
    ensures CFold(Parsed(0, Zeros()), Terminated(comments)) == Parsed(0, Zeros())
    decreases comments
  {
    if comments != [] {
      var rest, l := comments[..|comments| - 1], comments[|comments| - 1];
      CommentsFold(rest);
      assert comments == rest + [l];
      TerminatedSnoc(rest, l);
      FoldsSnoc(Terminated(rest), l + "\n");
      CommentsAreSkipped(PyEmpty(), Parsed(0, Zeros()), l);
    }
  }

  lemma LinesSnoc(comments: seq<string>, sizes: seq<nat>, n: nat)
    requires 0 < n <= TABLES && |sizes| == TABLES
    ensures Lines(comments, sizes, n) == Lines(comments, sizes, n - 1) + [TableLine(sizes, n - 1)]
  {
  }

  lemma HeadFolds(comments: seq<string>)
    requires AllComments(comments)
    ensures var lines := Terminated(comments + [VERSION_LINE]);
            PyFold(PyEmpty(), lines) == PyEmpty().(version := FORMAT_VERSION) &&
            CFold(Parsed(0, Zeros()), lines) == Parsed(FORMAT_VERSION, Zeros())
  {
    CommentsFold(comments);
    TerminatedSnoc(comments, VERSION_LINE);
    FoldsSnoc(Terminated(comments), VERSION_LINE + "\n");
    VersionIsRead(PyEmpty(), Parsed(0, Zeros()));
  }

  lemma NoTableYet(comments: seq<string>, sizes: seq<nat>)
    requires AllComments(comments) && |sizes| == TABLES
    ensures PyFold(PyEmpty(), Terminated(Lines(comments, sizes, 0))) == PyAfter(sizes, 0)
    ensures CFold(Parsed(0, Zeros()), Terminated(Lines(comments, sizes, 0))) == CAfter(sizes, 0)
  {
    HeadFolds(comments);
    assert Lines(comments, sizes, 0) == comments + [VERSION_LINE];
    assert PyAfter(sizes, 0).sizes == PyEmpty().sizes && CAfter(sizes, 0).elements == Zeros();
  }

  lemma OneMoreTable(sizes: seq<nat>, n: nat)
    requires Honourable(sizes) && 0 < n <= TABLES
    ensures PyLine(PyAfter(sizes, n - 1), TableLine(sizes, n - 1) + "\n") == PyAfter(sizes, n)
    ensures CLine(CAfter(sizes, n - 1), TableLine(sizes, n - 1) + "\n") == CAfter(sizes, n)
  {
    PyTableLine(PyAfter(sizes, n - 1), sizes, n - 1);
    CTableLine(CAfter(sizes, n - 1), sizes, n - 1);
    var c, p := PyAfter(sizes, n - 1), CAfter(sizes, n - 1);
    assert c.sizes[n - 1 := Some(sizes[n - 1])] == PyAfter(sizes, n).sizes;
    assert c.units[n - 1 := Unit(n - 1)] == c.units;
    assert p.elements[n - 1 := ToElements(n - 1, sizes[n - 1])] == CAfter(sizes, n).elements;
  }

  lemma {:induction false} TablesFold(comments: seq<string>, sizes: seq<nat>, n: nat)
    requires AllComments(comments) && Honourable(sizes) && n <= TABLES
    ensures PyFold(PyEmpty(), Terminated(Lines(comments, sizes, n))) == PyAfter(sizes, n)
    ensures CFold(Parsed(0, Zeros()), Terminated(Lines(comments, sizes, n))) == CAfter(sizes, n)
    decreases n
  {
    if n == 0 {
      NoTableYet(comments, sizes);
    } else {
      TablesFold(comments, sizes, n - 1);
      LinesSnoc(comments, sizes, n);
      TerminatedSnoc(Lines(comments, sizes, n - 1), TableLine(sizes, n - 1));
      FoldsSnoc(Terminated(Lines(comments, sizes, n - 1)), TableLine(sizes, n - 1) + "\n");
      OneMoreTable(sizes, n);
    }
  }

  lemma TableLineIsClean(sizes: seq<nat>, t: nat)
    requires Honourable(sizes) && t < TABLES
    ensures Clean(TableLine(sizes, t))
  {
    KeysArePlain(t);
    UnitsArePlain(t);
    assert Pow10(6) == 1000000;
    DecimalIsShort(sizes[t], 6);
    assert forall c :: Plain(c) || IsDigit(c) ==> !LineBreak(c);
  }

  predicate AllClean(lines: seq<string>) { forall i :: 0 <= i < |lines| ==> Clean(lines[i]) }

  lemma OneMoreClean(lines: seq<string>, l: string)
    requires AllClean(lines) && Clean(l)
    ensures AllClean(lines + [l])
  {
  }

  lemma {:induction false} LinesAreClean(comments: seq<string>, sizes: seq<nat>, n: nat)
    requires AllComments(comments) && Honourable(sizes) && n <= TABLES
    ensures AllClean(Lines(comments, sizes, n))
    decreases n
  {
    if n == 0 {
      assert AllClean(comments);
      OneMoreClean(comments, VERSION_LINE);
      assert Lines(comments, sizes, 0) == comments + [VERSION_LINE];
    } else {
      LinesAreClean(comments, sizes, n - 1);
      LinesSnoc(comments, sizes, n);
      TableLineIsClean(sizes, n - 1);
      OneMoreClean(Lines(comments, sizes, n - 1), TableLine(sizes, n - 1));
    }
  }

  lemma FileIsClean(comments: seq<string>, sizes: seq<nat>)
    requires AllComments(comments) && Honourable(sizes)
    ensures forall i :: 0 <= i < |Lines(comments, sizes, TABLES)| ==> Clean(Lines(comments, sizes, TABLES)[i])
  {
    LinesAreClean(comments, sizes, TABLES);
  }

  /** What the web server writes for any counts it accepts, it reads back: the version, the same
      counts, the same units. */
  lemma PythonReadsWhatItWrote(comments: seq<string>, sizes: seq<nat>)
    requires AllComments(comments) && Honourable(sizes)
    ensures var c := PyRead(FileText(comments, sizes));
            c.version == 2 &&
            (forall t :: 0 <= t < TABLES ==> c.sizes[t] == Some(sizes[t]) && c.units[t] == Unit(t))
    ensures Validate(PyRead(FileText(comments, sizes))) == Accepted(sizes)
  {
    FileIsClean(comments, sizes);
    PyLinesAreFound(Lines(comments, sizes, TABLES));
    TablesFold(comments, sizes, TABLES);
    var c := PyRead(FileText(comments, sizes));
    assert c == PyAfter(sizes, TABLES);
    TablesAcceptedExactlyWhen(c, TABLES);
    assert ValidateTables(c, TABLES).value == sizes;
  }

  /** And the core reads the same counts, bits rounded up to bytes, with nothing ignored. */
  lemma CoreReadsWhatPythonWrote(comments: seq<string>, sizes: seq<nat>)
    requires AllComments(comments) && Honourable(sizes)
    ensures var e := CRead(FileText(comments, sizes));
            |e| == TABLES && forall t :: 0 <= t < TABLES ==> e[t] == ToElements(t, sizes[t])
  {
    FileIsClean(comments, sizes);
    CLinesAreFound(Lines(comments, sizes, TABLES), LINE_MAX);
    TablesFold(comments, sizes, TABLES);
  }

  /** The whole way: any configuration that is accepted, written to the file, is accepted again with
      the same counts and reaches the core as it was asked for, bits rounded up to bytes. */
  lemma AcceptedReachesTheCore(c: Conf, comments: seq<string>)
    requires Whole(c) && Validate(c).Accepted? && AllComments(comments)
    ensures Honourable(Validate(c).value)
    ensures var text := FileText(comments, Validate(c).value);
            && Validate(PyRead(text)) == Validate(c)
            && (forall t :: 0 <= t < TABLES ==>
                  c.sizes[t].Some? && c.sizes[t].value >= 0 && CRead(text)[t] == ToElements(t, c.sizes[t].value))
  {
    AcceptedIsHonourable(c);
    TablesAcceptedExactlyWhen(c, TABLES);
    PythonReadsWhatItWrote(comments, Validate(c).value);
    CoreReadsWhatPythonWrote(comments, Validate(c).value);
  }

  /** The other tables are counted in elements, and every table has at most 65536 of them. */
  lemma Ceilings(t: nat, v: nat)
    requires t < 14
    ensures t !in {0, 1, 13} ==> ToElements(t, v) == v
    ensures v <= MaxInFileUnit(t) <==> v <= if t in {0, 1, 13} then 524288 else 65536
    ensures v <= MaxInFileUnit(t) <==> ToElements(t, v) <= 65536
  {
  }

  /** Rounding up is exact: the bytes hold all the bits, and one byte less would not. */
  lemma BitsFitTheirBytes(t: nat, v: nat)
    requires t in {0, 1, 13}
    ensures 8 * ToElements(t, v) >= v && (v > 0 ==> 8 * (ToElements(t, v) - 1) < v)
  {
  }

  /** Whatever the text, the core never takes a count past the addressable range, and takes none
      at all from another format version. */
  lemma {:induction false} FoldIsBounded(lines: seq<string>)
    ensures forall t :: 0 <= t < TABLES ==> CFold(Parsed(0, Zeros()), lines).elements[t] <= MAX_TABLE_ELEMENTS
    decreases lines
  {
    if lines != [] {
      FoldIsBounded(lines[..|lines| - 1]);
    }
  }

  lemma CoreReadIsBounded(text: string)
    ensures |CRead(text)| == 14 && forall t :: 0 <= t < 14 ==> CRead(text)[t] <= 65536
  {
    FoldIsBounded(CLines(text, LINE_MAX));
  }

  // ---- Any file ---------------------------------------------------------------------------------------

  /** The line gives the key a value: it is no comment, and has the key before its first '='. */
  predicate Gives(raw: string, space: char -> bool, key: string) {
    var s := Strip(raw, space);
    s != "" && s[0] != '#' && '=' in s && Strip(Before(s, '='), space) == key
  }

  function Given(raw: string, space: char -> bool): string { Strip(After(Strip(raw, space), '='), space) }

  /** The last line that gives the key a value, or -1. */
  function LastGiver(lines: seq<string>, space: char -> bool, key: string): (i: int)
    ensures -1 <= i < |lines|
    ensures i >= 0 ==> Gives(lines[i], space, key)
    ensures forall j :: i < j < |lines| ==> !Gives(lines[j], space, key)
  {
    if lines == [] then -1
    else if Gives(lines[|lines| - 1], space, key) then |lines| - 1
    else LastGiver(lines[..|lines| - 1], space, key)
  }

  lemma {:induction false} TableOfIsFirst(key: string, i: nat)
    requires i <= TABLES
    ensures TableOf(key, i).Some? ==> Key(TableOf(key, i).value) == key
    decreases TABLES - i
  {
    if i < TABLES && key != Key(i) {
      TableOfIsFirst(key, i + 1);
    }
  }

  lemma OnlyItsOwnTable(key: string, t: nat)
    requires t < TABLES
    ensures key == Key(t) <==> TableOf(key, 0) == Some(t)
    ensures Key(t) != "format_version"
  {
    KeyIsNotVersion(t);
    TableOfKey(t, 0);
    TableOfIsFirst(key, 0);
  }

  /** One line: it changes what its key stands for, and nothing else. */
  lemma PyLineGivesTable(c: Conf, raw: string, t: nat)
    requires Whole(c) && t < 14
    ensures var d, v := PyLine(c, raw), Given(raw, PySpace);
            if Gives(raw, PySpace, Key(t)) then
              d.sizes[t] == PyInt(Before(v, ' ')) && d.units[t] == Strip(After(v, ' '), PySpace)
            else d.sizes[t] == c.sizes[t] && d.units[t] == c.units[t]
  {
    var s := Strip(raw, PySpace);
    if s != "" && s[0] != '#' && '=' in s {
      OnlyItsOwnTable(Strip(Before(s, '='), PySpace), t);
    }
  }

  lemma PyLineGivesVersion(c: Conf, raw: string)
    requires Whole(c)
    ensures var v := PyInt(Given(raw, PySpace));
            PyLine(c, raw).version ==
            if !Gives(raw, PySpace, "format_version") then c.version else if v.Some? then v.value else -1
  {
  }

  /** Whatever the file, the web server takes for a table the value of the last line that gives it one,
      and 0 in its own unit if none does. */
  lemma {:induction false} PyTakesTheLast(lines: seq<string>, t: nat)
    requires t < 14
    ensures var c, i := PyFold(PyEmpty(), lines), LastGiver(lines, PySpace, Key(t));
            if i < 0 then c.sizes[t] == Some(0) && c.units[t] == Unit(t)
            else c.sizes[t] == PyInt(Before(Given(lines[i], PySpace), ' ')) &&
                 c.units[t] == Strip(After(Given(lines[i], PySpace), ' '), PySpace)
    decreases |lines|
  {
    if lines != [] {
      var rest := lines[..|lines| - 1];
      PyTakesTheLast(rest, t);
      PyLineGivesTable(PyFold(PyEmpty(), rest), lines[|lines| - 1], t);
    }
  }

  /** For the version likewise: 0 if no line gives it, -1 if what the last gives is no number. */
  lemma {:induction false} PyTakesTheLastVersion(lines: seq<string>)
    ensures var i := LastGiver(lines, PySpace, "format_version");
            PyFold(PyEmpty(), lines).version ==
            if i < 0 then 0
            else if PyInt(Given(lines[i], PySpace)).Some? then PyInt(Given(lines[i], PySpace)).value else -1
    decreases |lines|
  {
    if lines != [] {
      var rest := lines[..|lines| - 1];
      PyTakesTheLastVersion(rest);
      PyLineGivesVersion(PyFold(PyEmpty(), rest), lines[|lines| - 1]);
    }
  }

  lemma CEntryGivesTable(p: Parsed, key: string, val: string, t: nat)
    requires |p.elements| == TABLES && t < 14
    ensures CEntry(p, key, val).elements[t] == if key == Key(t) then CElements(t, val) else p.elements[t]
  {
    OnlyItsOwnTable(key, t);
  }

  lemma CLineGivesTable(p: Parsed, raw: string, t: nat)
    requires |p.elements| == TABLES && t < 14
    ensures CLine(p, raw).elements[t] ==
            if Gives(raw, CSpace, Key(t)) then CElements(t, Given(raw, CSpace)) else p.elements[t]
  {
    var s := Strip(raw, CSpace);
    FoundExactlyWhen(s, '=', 0);
    if s != "" && s[0] != '#' && '=' in s {
      CEntryGivesTable(p, Strip(Before(s, '='), CSpace), Strip(After(s, '='), CSpace), t);
    }
  }

  lemma CLineGivesVersion(p: Parsed, raw: string)
    requires |p.elements| == TABLES
    ensures CLine(p, raw).version ==
            if Gives(raw, CSpace, "format_version") then CVersion(Given(raw, CSpace)) else p.version
  {
    FoundExactlyWhen(Strip(raw, CSpace), '=', 0);
  }

  /** So does the core, for which a value it cannot use is 0. */
  lemma {:induction false} CoreTakesTheLast(lines: seq<string>, t: nat)
    requires t < 14
    ensures var i := LastGiver(lines, CSpace, Key(t));
            CFold(Parsed(0, Zeros()), lines).elements[t] ==
            if i < 0 then 0 else CElements(t, Given(lines[i], CSpace))
    decreases |lines|
  {
    if lines != [] {
      var rest := lines[..|lines| - 1];
      CoreTakesTheLast(rest, t);
      CLineGivesTable(CFold(Parsed(0, Zeros()), rest), lines[|lines| - 1], t);
    }
  }

  lemma {:induction false} CoreTakesTheLastVersion(lines: seq<string>)
    ensures var i := LastGiver(lines, CSpace, "format_version");
            CFold(Parsed(0, Zeros()), lines).version == if i < 0 then 0 else CVersion(Given(lines[i], CSpace))
    decreases |lines|
  {
    if lines != [] {
      var rest := lines[..|lines| - 1];
      CoreTakesTheLastVersion(rest);
      CLineGivesVersion(CFold(Parsed(0, Zeros()), rest), lines[|lines| - 1]);
    }
  }

  /** What the core makes of a number with anything behind it: the count, exactly when it is positive,
      within the ceiling, and followed by the table's own unit. */
  lemma CoreTakesExactlyWhen(t: nat, n: nat, rest: string)
    requires t < 14 && (rest == "" || !IsDigit(rest[0])) && n < 0x8000_0000_0000_0000
    ensures CElements(t, Decimal(n) + rest) ==
            if 0 < n <= (if t in {0, 1, 13} then 524288 else 65536) && Strip(rest, CSpace) == Unit(t)
            then ToElements(t, n) else 0
  {
    StrtolOfDecimal(n, rest);
    assert (Decimal(n) + rest)[|Decimal(n)|..] == rest;
  }

  /** A version is a number with nothing behind it. */
  lemma CoreTakesTheVersion(n: nat, rest: string)
    requires (rest == "" || !IsDigit(rest[0])) && n < 0x8000_0000_0000_0000
    ensures CVersion(Decimal(n) + rest) == if rest == "" then n else 0
  {
    StrtolOfDecimal(n, rest);
  }

  /** A version other than 2 makes the core ignore the whole file, and the web server refuse it. */
  lemma OtherVersionsAreRefused(text: string)
    ensures PyRead(text).version != 2 ==> Validate(PyRead(text)) == Rejected("version")
    ensures CFold(Parsed(0, Zeros()), CLines(text, 255)).version != 2 ==>
            forall t :: 0 <= t < 14 ==> CRead(text)[t] == 0
  {
  }
}
