/** The core's parser of the same file: strtok over each line, fixed-size fields, a check of the
    path; and when it sees the plugins the web server wrote. */
module PluginParser {
  import opened Options
  import opened Text
  import opened PluginsConf

  const NAME_SIZE: nat := 64
  const PATH_SIZE: nat := 256

  datatype Entry = Entry(name: string, path: string, enabled: int, kind: int, config: string, venv: string)

  // ---- Tokens -----------------------------------------------------------------------------

  datatype Token = NoToken | Token(text: string, rest: string)

  predicate Comma(c: char) { c == ',' }

  predicate CommaOrBreak(c: char) { c == ',' || c == '\n' || c == '\r' }

  function FindAny(s: string, delim: char -> bool, i: nat): (p: nat)
    requires i <= |s|
    ensures i <= p <= |s|
    decreases |s| - i
  {
    if i == |s| || delim(s[i]) then i else FindAny(s, delim, i + 1)
  }

  /** Leading delimiters are skipped; the token ends at the next one, which is used up. */
  function Strtok(s: string, delim: char -> bool): Token {
    var t := StripLeft(s, delim);
    if t == "" then NoToken
    else
      var e := FindAny(t, delim, 0);
      Token(t[..e], if e < |t| then t[e + 1..] else "")
  }

  lemma {:induction false} FindAnyAt(s: string, delim: char -> bool, i: nat, n: nat)
    requires i <= n <= |s| && (forall k :: i <= k < n ==> !delim(s[k])) && (n == |s| || delim(s[n]))
    ensures FindAny(s, delim, i) == n
    decreases n - i
  {
    if i < n {
      FindAnyAt(s, delim, i + 1, n);
    }
  }

  /** A token up to a delimiter. */
  lemma TokenBefore(a: string, c: char, b: string, delim: char -> bool)
    requires a != "" && (forall k :: 0 <= k < |a| ==> !delim(a[k])) && delim(c)
    ensures Strtok(a + [c] + b, delim) == Token(a, b)
  {
    FindAnyAt(a + [c] + b, delim, 0, |a|);
  }

  lemma WholeToken(a: string, delim: char -> bool)
    requires a != "" && forall k :: 0 <= k < |a| ==> !delim(a[k])
    ensures Strtok(a, delim) == Token(a, "")
  {
    FindAnyAt(a, delim, 0, |a|);
  }

  lemma SkipFirst(c: char, b: string, delim: char -> bool)
    requires delim(c)
    ensures Strtok([c] + b, delim) == Strtok(b, delim)
  {
    assert ([c] + b)[1..] == b;
  }

  // ---- Fields -------------------------------------------------------------------------------

  /** White space at the end goes, a newline included. */
  function WithoutNewline(s: string): string { StripRight(s, CSpace) }

  method RemoveNewline(s: string) returns (r: string)
    ensures r == WithoutNewline(s)
  {
    r := s;
    while r != "" && CSpace(r[|r| - 1])
      invariant WithoutNewline(r) == WithoutNewline(s)
      decreases |r|
    {
      r := r[..|r| - 1];
    }
  }

  /** A field of n bytes holds n - 1 characters. */
  function Cut(s: string, n: nat): string
    requires n > 0
  {
    if |s| < n then s else s[..n - 1]
  }

  function Stored(token: string, n: nat): string
    requires n > 0
  {
    WithoutNewline(Cut(token, n))
  }

  predicate Separator(c: char) { c == '/' || c == '\\' }

  /** A component that is two dots, at position i. */
  predicate DotDotAt(s: string, i: nat) {
    && i + 1 < |s| && s[i] == '.' && s[i + 1] == '.'
    && (i + 2 == |s| || Separator(s[i + 2])) && (i == 0 || Separator(s[i - 1]))
  }

  predicate Acceptable(path: string, contained: bool) {
    && path != ""
    && (forall i :: 0 <= i < |path| ==> !DotDotAt(path, i))
    && (contained ==> !Separator(path[0]) && (|path| > 1 ==> path[1] != ':'))
  }

  method PathIsAcceptable(path: string, contained: bool) returns (ok: bool)
    ensures ok == Acceptable(path, contained)
  {
    if path == "" {
      return false;
    }
    var cursor := 0;
    while cursor < |path|
      invariant cursor <= |path| && forall i :: 0 <= i < cursor ==> !DotDotAt(path, i)
    {
      if path[cursor] == '.' && cursor + 1 < |path| && path[cursor + 1] == '.' &&
         (cursor + 2 == |path| || Separator(path[cursor + 2])) {
        if cursor == 0 || Separator(path[cursor - 1]) {
          assert DotDotAt(path, cursor);
          return false;
        }
      }
      cursor := cursor + 1;
    }
    if contained {
      if Separator(path[0]) {
        return false;
      }
      if |path| > 1 && path[1] == ':' {
        return false;
      }
    }
    ok := true;
  }

  /** The components of a path. */
  function Components(s: string): (c: seq<string>)
    ensures |c| >= 1
    decreases |s|
  {
    var p := FindAny(s, Separator, 0);
    if p == |s| then [s] else [s[..p]] + Components(s[p + 1..])
  }

  lemma {:induction false} NoSeparatorBefore(s: string, i: nat)
    requires i <= |s|
    ensures var p := FindAny(s, Separator, i);
            (forall k :: i <= k < p ==> !Separator(s[k])) && (p < |s| ==> Separator(s[p]))
    decreases |s| - i
  {
    if i < |s| && !Separator(s[i]) {
      NoSeparatorBefore(s, i + 1);
    }
  }

  lemma DotDotShifts(s: string, p: nat, i: nat)
    requires p < |s| && Separator(s[p])
    ensures DotDotAt(s[p + 1..], i) <==> DotDotAt(s, p + 1 + i)
  {
  }

  ghost predicate HasDotDot(s: string) {
    exists i :: 0 <= i < |s| && DotDotAt(s, i)
  }

  lemma OneComponent(s: string)
    requires forall k :: 0 <= k < |s| ==> !Separator(s[k])
    ensures HasDotDot(s) <==> s == ".."
  {
    if s == ".." {
      assert DotDotAt(s, 0);
    }
  }

  lemma FirstComponent(s: string, p: nat)
    requires p < |s| && Separator(s[p]) && forall k :: 0 <= k < p ==> !Separator(s[k])
    ensures HasDotDot(s) <==> s[..p] == ".." || HasDotDot(s[p + 1..])
  {
    if HasDotDot(s) {
      var i :| 0 <= i < |s| && DotDotAt(s, i);
      if i > p {
        DotDotShifts(s, p, i - p - 1);
      } else {
        assert i == 0 && p == 2;
      }
    }
    if s[..p] == ".." {
      assert s[0] == s[..p][0] && s[1] == s[..p][1];
      assert DotDotAt(s, 0);
    }
    if HasDotDot(s[p + 1..]) {
      var i :| 0 <= i < |s[p + 1..]| && DotDotAt(s[p + 1..], i);
      DotDotShifts(s, p, i);
    }
  }

  /** The scan finds two dots exactly when they are a component of the path. */
  lemma {:induction false} DotDotExactlyWhen(s: string)
    ensures HasDotDot(s) <==> ".." in Components(s)
    decreases |s|
  {
    var p := FindAny(s, Separator, 0);
    NoSeparatorBefore(s, 0);
    if p == |s| {
      OneComponent(s);
    } else {
      FirstComponent(s, p);
      DotDotExactlyWhen(s[p + 1..]);
    }
  }

  function Atoi(s: string): int { Strtol(s).value }

  /** A path is acceptable exactly when it is not empty, no component of it is two dots, and, if it has
      to be contained, it starts neither with a separator nor with a drive. */
  lemma PathAcceptableExactlyWhen(path: string, contained: bool)
    ensures Acceptable(path, contained) <==>
            && path != "" && ".." !in Components(path)
            && (contained ==> path[0] != '/' && path[0] != '\\' && (|path| == 1 || path[1] != ':'))
  {
    DotDotExactlyWhen(path);
  }

  /** Components are parted by slashes and by backslashes. */
  lemma SlashesPart(a: string, b: string)
    requires forall i :: 0 <= i < |a| ==> a[i] != '/' && a[i] != '\\'
    ensures Components(a) == [a]
    ensures Components(a + "/" + b) == [a] + Components(b) && Components(a + "\\" + b) == [a] + Components(b)
  {
    FindAnyAt(a, Separator, 0, |a|);
    FindAnyAt(a + "/" + b, Separator, 0, |a|);
    FindAnyAt(a + "\\" + b, Separator, 0, |a|);
    assert (a + "/" + b)[|a| + 1..] == b && (a + "\\" + b)[|a| + 1..] == b;
    assert (a + "/" + b)[..|a|] == a && (a + "\\" + b)[..|a|] == a;
  }

  // ---- Lines ------------------------------------------------------------------------------------

  function ConfigOf(rest: string): string {
    var e := Strtok(rest, Comma);
    if e.NoToken? then "" else Stored(e.text, PATH_SIZE)
  }

  function VenvOf(rest: string): string {
    var e := Strtok(rest, Comma);
    var f := if e.NoToken? then NoToken else Strtok(e.rest, CommaOrBreak);
    if f.NoToken? then "" else Stored(f.text, PATH_SIZE)
  }

  /** From the enabled flag on. */
  function ParseFlags(name: string, path: string, rest: string): Option<Entry> {
    var c := Strtok(rest, Comma);
    if c.NoToken? then None
    else
      var d := Strtok(c.rest, Comma);
      if d.NoToken? then None
      else Some(Entry(name, path, Atoi(c.text), Atoi(d.text), ConfigOf(d.rest), VenvOf(d.rest)))
  }

  function ParsePath(name: string, rest: string, contained: bool): Option<Entry> {
    var b := Strtok(rest, Comma);
    if b.NoToken? || !Acceptable(Stored(b.text, PATH_SIZE), contained) then None
    else ParseFlags(name, Stored(b.text, PATH_SIZE), b.rest)
  }

  predicate Skipped(line: string) {
    line == "" || line[0] == '#' || line[0] == '\n' || line[0] == '\r'
  }

  function ParseLine(line: string, contained: bool): Option<Entry> {
    if Skipped(line) then None
    else
      var a := Strtok(line, Comma);
      if a.NoToken? then None else ParsePath(Stored(a.text, NAME_SIZE), a.rest, contained)
  }

  /** The fields strtok finds: the pieces between commas that are not empty. */
  function Solid(parts: seq<string>): seq<string> {
    if parts == [] then [] else (if parts[0] != "" then [parts[0]] else []) + Solid(parts[1..])
  }

  function Fields(line: string): seq<string> { Solid(SplitOn(line, ',')) }

  lemma {:induction false} SameFind(s: string, i: nat)
    requires i <= |s|
    ensures FindAny(s, Comma, i) == Find(s, ',', i)
    decreases |s| - i
  {
    if i < |s| && s[i] != ',' {
      SameFind(s, i + 1);
    }
  }

  /** Each call of strtok takes the next of these fields. */
  lemma {:induction false} TokenIsNextField(s: string)
    ensures var t := Strtok(s, Comma);
            if Fields(s) == [] then t.NoToken?
            else t.Token? && t.text == Fields(s)[0] && Fields(t.rest) == Fields(s)[1..]
    decreases |s|
  {
    SameFind(s, 0);
    var p := Find(s, ',', 0);
    if s != "" && p == 0 {
      TokenIsNextField(s[1..]);
      assert SplitOn(s, ',')[1..] == SplitOn(s[1..], ',');
    } else if s != "" && p < |s| {
      assert StripLeft(s, Comma) == s;
      assert SplitOn(s, ',')[1..] == SplitOn(s[p + 1..], ',');
    } else {
      assert Fields("") == [];
    }
  }

  lemma FlagsAreFields(name: string, path: string, rest: string)
    ensures var f := Fields(rest);
            var r := ParseFlags(name, path, rest);
            if |f| < 2 then r == None
            else r.Some? && r.value.name == name && r.value.path == path &&
                 r.value.enabled == Atoi(f[0]) && r.value.kind == Atoi(f[1]) &&
                 r.value.config == (if |f| > 2 then Stored(f[2], PATH_SIZE) else "")
  {
    TokenIsNextField(rest);
    var c := Strtok(rest, Comma);
    if c.Token? {
      TokenIsNextField(c.rest);
      var d := Strtok(c.rest, Comma);
      if d.Token? {
        TokenIsNextField(d.rest);
      }
    }
  }

  predicate ReadAsPlugin(line: string, contained: bool) {
    !Skipped(line) && |Fields(line)| >= 4 && Acceptable(Stored(Fields(line)[1], PATH_SIZE), contained)
  }

  /** The core takes a line for a plugin exactly when it does not start like a comment, has four
      fields that are not empty, and the second, as it is stored, is an acceptable path; and then
      these fields are the plugin, each cut to its buffer. The environment path aside: that one is cut
      at a line break as well. */
  lemma LineIsReadExactlyWhen(line: string, contained: bool)
    ensures ParseLine(line, contained).Some? <==> ReadAsPlugin(line, contained)
    ensures ParseLine(line, contained).Some? ==>
              var e, f := ParseLine(line, contained).value, Fields(line);
              && e.name == Stored(f[0], 64) && e.path == Stored(f[1], 256)
              && e.enabled == Atoi(f[2]) && e.kind == Atoi(f[3])
              && e.config == if |f| > 4 then Stored(f[4], 256) else ""
  {
    TokenIsNextField(line);
    var a := Strtok(line, Comma);
    if a.Token? {
      TokenIsNextField(a.rest);
      var b := Strtok(a.rest, Comma);
      if b.Token? {
        FlagsAreFields(Stored(a.text, NAME_SIZE), Stored(b.text, PATH_SIZE), b.rest);
      }
    }
  }

  // ---- The parser over its line buffer ----------------------------------------------------------

  /** strtok: the buffer it cuts up with terminators, and the position it goes on from. */
  class Tokenizer {
    const buf: array<char>
    var pos: nat

    ghost predicate Valid()
      reads this
    {
      pos <= buf.Length
    }

    ghost function Rest(): string
      requires Valid()
      reads this, buf
    {
      buf[pos..]
    }

    constructor (line: string)
      ensures Valid() && fresh(buf) && Rest() == line
    {
      buf := new char[|line|](i requires 0 <= i < |line| => line[i]);
      pos := 0;
    }

    method SkipDelimiters(delim: char -> bool)
      requires Valid()
      modifies this`pos
      ensures Valid() && Rest() == StripLeft(old(Rest()), delim)
    {
      while pos < buf.Length && delim(buf[pos])
        invariant Valid() && StripLeft(buf[pos..], delim) == StripLeft(old(Rest()), delim)
      {
        assert buf[pos..][1..] == buf[pos + 1..];
        pos := pos + 1;
      }
    }

    method FindDelimiter(delim: char -> bool)
      requires Valid()
      modifies this`pos
      ensures Valid() && pos == old(pos) + FindAny(old(Rest()), delim, 0)
    {
      var start := pos;
      ghost var t := Rest();
      while pos < buf.Length && !delim(buf[pos])
        invariant start <= pos <= buf.Length
        invariant FindAny(t, delim, 0) == FindAny(t, delim, pos - start)
      {
        assert t[pos - start] == buf[pos];
        pos := pos + 1;
      }
    }

    method Next(delim: char -> bool) returns (found: bool, text: string)
      requires Valid()
      modifies this`pos, buf
      ensures Valid()
      ensures found <==> Strtok(old(Rest()), delim).Token?
      ensures found ==> Token(text, Rest()) == Strtok(old(Rest()), delim)
      ensures !found ==> Rest() == ""
    {
      SkipDelimiters(delim);
      assert Rest() == StripLeft(old(Rest()), delim);
      found, text := pos < buf.Length, "";
      if found {
        var start := pos;
        ghost var t := Rest();
        FindDelimiter(delim);
        text := buf[start..pos];
        assert text == t[..pos - start];
        if pos < buf.Length {
          ghost var rest := t[pos - start + 1..];
          buf[pos] := '\0';
          pos := pos + 1;
          assert Rest() == rest;
        }
      }
    }
  }

  /** Fills a field of n bytes from a token. */
  method StoreField(token: string, n: nat) returns (field: string)
    requires n > 0
    ensures field == Stored(token, n)
  {
    field := token;
    if |field| >= n {
      field := field[..n - 1];
    }
    field := RemoveNewline(field);
  }

  /** The two optional fields. */
  method ParseTail(tok: Tokenizer) returns (config: string, venv: string)
    requires tok.Valid()
    modifies tok`pos, tok.buf
    ensures config == ConfigOf(old(tok.Rest())) && venv == VenvOf(old(tok.Rest()))
  {
    config, venv := "", "";
    var ok, text := tok.Next(Comma);
    if ok {
      config := StoreField(text, PATH_SIZE);
    }
    ok, text := tok.Next(CommaOrBreak);
    if ok {
      venv := StoreField(text, PATH_SIZE);
    }
  }

  method ParseRest(tok: Tokenizer, name: string, path: string) returns (entry: Option<Entry>)
    requires tok.Valid()
    modifies tok`pos, tok.buf
    ensures entry == ParseFlags(name, path, old(tok.Rest()))
  {
    var ok, text := tok.Next(Comma);
    if !ok {
      return None;
    }
    var enabled := Atoi(text);
    ok, text := tok.Next(Comma);
    if !ok {
      return None;
    }
    var kind := Atoi(text);
    var config, venv := ParseTail(tok);
    entry := Some(Entry(name, path, enabled, kind, config, venv));
  }

  method ParseAfterName(tok: Tokenizer, name: string, contained: bool) returns (entry: Option<Entry>)
    requires tok.Valid()
    modifies tok`pos, tok.buf
    ensures entry == ParsePath(name, old(tok.Rest()), contained)
  {
    entry := None;
    var ok, text := tok.Next(Comma);
    if ok {
      var path := StoreField(text, PATH_SIZE);
      var acceptable := PathIsAcceptable(path, contained);
      if acceptable {
        entry := ParseRest(tok, name, path);
      }
    }
  }

  method ParseOne(line: string, contained: bool) returns (entry: Option<Entry>)
    ensures entry == ParseLine(line, contained)
  {
    entry := None;
    if !Skipped(line) {
      var tok := new Tokenizer(line);
      var ok, text := tok.Next(Comma);
      if ok {
        var name := StoreField(text, NAME_SIZE);
        entry := ParseAfterName(tok, name, contained);
      }
    }
  }

  // ---- The same plugin on both sides ------------------------------------------------------------

  function EntryOf(p: Plugin): Entry {
    Entry(p.name, p.path, if p.enabled then 1 else 0, if p.native then 1 else 0, p.config, p.venv)
  }

  /** A plugin whose fields fit the core's buffers and hold no line break. */
  predicate Fits(p: Plugin) {
    && WellFormed(p)
    && |p.name| < NAME_SIZE && |p.path| < PATH_SIZE && |p.config| < PATH_SIZE && |p.venv| < PATH_SIZE
    && OneLine(p.venv)
  }

  lemma StoredTidy(s: string, n: nat)
    requires Tidy(s) && |s| < n
    ensures Stored(s, n) == s && (s != "" ==> Stored(s + "\n", n) == s)
  {
    if s != "" {
      assert !CSpace(s[|s| - 1]);
      assert (s + "\n")[..|s|] == s;
      assert StripRight(s, CSpace) == s;
    }
  }

  lemma FlagIsRead(b: bool, rest: string)
    ensures Strtok(Bit(b) + "," + rest, Comma) == Token(Bit(b), rest)
    ensures Atoi(Bit(b)) == if b then 1 else 0
  {
    assert Bit(b) + "," + rest == Bit(b) + [','] + rest;
    TokenBefore(Bit(b), ',', rest, Comma);
    assert Decimal(1) + "" == "1" && Decimal(0) + "" == "0";
    StrtolOfDecimal(1, "");
    StrtolOfDecimal(0, "");
  }

  lemma NothingIsRead()
    ensures ConfigOf("\n") == "" && VenvOf("\n") == ""
  {
    WholeToken("\n", Comma);
    assert Cut("\n", PATH_SIZE) == "\n";
    assert "\n"[..0] == "";
    assert StripRight("\n", CSpace) == "";
  }

  lemma NoVenvIsRead(config: string)
    requires Tidy(config) && |config| < PATH_SIZE && config != ""
    ensures ConfigOf(config + "\n") == config && VenvOf(config + "\n") == ""
  {
    WholeToken(config + "\n", Comma);
    StoredTidy(config, PATH_SIZE);
  }

  lemma BothAreRead(config: string, venv: string)
    requires Tidy(config) && Tidy(venv) && |config| < PATH_SIZE && |venv| < PATH_SIZE && OneLine(venv)
    requires config != "" && venv != ""
    ensures ConfigOf(config + [','] + (venv + "\n")) == config && VenvOf(config + [','] + (venv + "\n")) == venv
  {
    TokenBefore(config, ',', venv + "\n", Comma);
    assert venv + "\n" == venv + ['\n'] + "";
    TokenBefore(venv, '\n', "", CommaOrBreak);
    StoredTidy(config, PATH_SIZE);
    StoredTidy(venv, PATH_SIZE);
  }

  lemma VenvIsTakenForConfig(venv: string)
    requires Tidy(venv) && |venv| < PATH_SIZE && venv != ""
    ensures ConfigOf([','] + (venv + "\n")) == venv
  {
    SkipFirst(',', venv + "\n", Comma);
    WholeToken(venv + "\n", Comma);
    StoredTidy(venv, PATH_SIZE);
  }

  /** The optional fields are read as they are exactly unless the first is missing and the second
      is not: then strtok takes the second for the first. */
  lemma TailIsReadExactlyWhen(p: Plugin)
    requires Fits(p)
    ensures ConfigOf(Tail(p) + "\n") == p.config && VenvOf(Tail(p) + "\n") == p.venv <==>
            p.config != "" || p.venv == ""
  {
    if p.venv == "" {
      assert Tail(p) == p.config;
      if p.config == "" {
        NothingIsRead();
        assert Tail(p) + "\n" == "\n";
      } else {
        NoVenvIsRead(p.config);
      }
    } else if p.config == "" {
      assert Tail(p) + "\n" == [','] + (p.venv + "\n");
      VenvIsTakenForConfig(p.venv);
    } else {
      assert Tail(p) + "\n" == p.config + [','] + (p.venv + "\n");
      BothAreRead(p.config, p.venv);
    }
  }

  function AfterPath(p: Plugin): string {
    Bit(p.enabled) + "," + (Bit(p.native) + "," + (Tail(p) + "\n"))
  }

  lemma FlagsAreRead(p: Plugin, name: string, path: string)
    requires Fits(p)
    ensures ParseFlags(name, path, AfterPath(p)) ==
            Some(Entry(name, path, if p.enabled then 1 else 0, if p.native then 1 else 0,
                       ConfigOf(Tail(p) + "\n"), VenvOf(Tail(p) + "\n")))
  {
    FlagIsRead(p.enabled, Bit(p.native) + "," + (Tail(p) + "\n"));
    FlagIsRead(p.native, Tail(p) + "\n");
  }

  lemma PathIsRead(p: Plugin, name: string, contained: bool)
    requires Fits(p)
    ensures var r := ParsePath(name, p.path + "," + AfterPath(p), contained);
            if p.path == "" then r.Some? ==> r.value.path != ""
            else if Acceptable(p.path, contained) then r == ParseFlags(name, p.path, AfterPath(p))
            else r == None
  {
    var rest := AfterPath(p);
    if p.path == "" {
      assert p.path + "," + rest == [','] + rest;
      SkipFirst(',', rest, Comma);
    } else {
      assert p.path + "," + rest == p.path + [','] + rest;
      TokenBefore(p.path, ',', rest, Comma);
      StoredTidy(p.path, PATH_SIZE);
    }
  }

  lemma FlagsKeepNames(name: string, path: string, rest: string)
    ensures ParseFlags(name, path, rest).Some? ==>
              ParseFlags(name, path, rest).value.name == name && ParseFlags(name, path, rest).value.path == path
  {
  }

  lemma PathKeepsName(name: string, rest: string, contained: bool)
    ensures ParsePath(name, rest, contained).Some? ==> ParsePath(name, rest, contained).value.name == name
  {
    var b := Strtok(rest, Comma);
    if b.Token? {
      FlagsKeepNames(name, Stored(b.text, PATH_SIZE), b.rest);
    }
  }

  lemma {:induction false} StartsSolid(s: string)
    requires s != "" && !CSpace(s[0])
    ensures StripRight(s, CSpace) != ""
    decreases |s|
  {
    if CSpace(s[|s| - 1]) {
      StartsSolid(s[..|s| - 1]);
    }
  }

  lemma LineBegins(p: Plugin)
    ensures ToLine(p) + "\n" == p.name + [','] + (p.path + "," + AfterPath(p))
  {
    var tail := Bit(p.native) + "," + Tail(p);
    assert tail + "\n" == Bit(p.native) + "," + (Tail(p) + "\n");
    assert Bit(p.enabled) + "," + tail + "\n" == AfterPath(p);
    assert (p.path + "," + (Bit(p.enabled) + "," + tail)) + "\n" == p.path + "," + AfterPath(p);
  }

  /** The first token of a line without a name. */
  lemma FirstTokenWithoutName(p: Plugin)
    requires Fits(p) && p.name == ""
    ensures var a := Strtok(ToLine(p) + "\n", Comma);
            a.Token? && a.text == if p.path != "" then p.path else Bit(p.enabled)
  {
    var rest := AfterPath(p);
    LineBegins(p);
    assert ToLine(p) + "\n" == [','] + (p.path + "," + rest);
    SkipFirst(',', p.path + "," + rest, Comma);
    if p.path == "" {
      assert p.path + "," + rest == [','] + rest;
      SkipFirst(',', rest, Comma);
      FlagIsRead(p.enabled, Bit(p.native) + "," + (Tail(p) + "\n"));
    } else {
      assert p.path + "," + rest == p.path + [','] + rest;
      TokenBefore(p.path, ',', rest, Comma);
    }
  }

  /** A missing name: what follows is taken for it. */
  lemma MissingNameIsNotRead(p: Plugin, contained: bool)
    requires Fits(p) && p.name == ""
    ensures var r := ParseLine(ToLine(p) + "\n", contained); r.Some? ==> r.value.name != ""
  {
    FirstTokenWithoutName(p);
    var a := Strtok(ToLine(p) + "\n", Comma);
    assert Cut(a.text, NAME_SIZE) != "" && Cut(a.text, NAME_SIZE)[0] == a.text[0];
    StartsSolid(Cut(a.text, NAME_SIZE));
    PathKeepsName(Stored(a.text, NAME_SIZE), a.rest, contained);
  }

  lemma NameIsRead(p: Plugin, contained: bool)
    requires Fits(p) && p.name != ""
    ensures ParseLine(ToLine(p) + "\n", contained) == ParsePath(p.name, p.path + "," + AfterPath(p), contained)
  {
    var line, rest := ToLine(p) + "\n", p.path + "," + AfterPath(p);
    LineBegins(p);
    assert line[0] == p.name[0];
    TokenBefore(p.name, ',', rest, Comma);
    StoredTidy(p.name, NAME_SIZE);
  }

  /** The core reads from a written line the very plugin that was written, exactly when the name
      is not empty, the path is acceptable, and there is a configuration path or no environment
      path. */
  lemma CoreReadsPluginExactlyWhen(p: Plugin, contained: bool)
    requires Fits(p)
    ensures ParseLine(ToLine(p) + "\n", contained) == Some(EntryOf(p)) <==>
            p.name != "" && Acceptable(p.path, contained) && (p.config != "" || p.venv == "")
  {
    var r := ParseLine(ToLine(p) + "\n", contained);
    if p.name == "" {
      MissingNameIsNotRead(p, contained);
    } else {
      NameIsRead(p, contained);
      PathIsRead(p, p.name, contained);
      FlagsAreRead(p, p.name, p.path);
      TailIsReadExactlyWhen(p);
    }
  }

  // ---- The file ---------------------------------------------------------------------------------------

  type Reader = string -> Option<Entry>

  /** The core's reader of one line. */
  function LineReader(contained: bool): Reader { (line: string) => ParseLine(line, contained) }

  /** The entries of the lines, up to a limit. */
  function EntriesOf(read: Reader, lines: seq<string>, limit: nat): (es: seq<Entry>)
    ensures |es| <= limit
    decreases |lines|
  {
    if lines == [] then []
    else
      var before := EntriesOf(read, lines[..|lines| - 1], limit);
      if |before| == limit then before
      else
        match read(lines[|lines| - 1])
        case Some(e) => before + [e]
        case None => before
  }

  predicate ReadsLine(read: Reader, contained: bool, line: string) { read(line) == ParseLine(line, contained) }

  ghost predicate Reads(read: Reader, contained: bool) {
    forall line :: ReadsLine(read, contained, line)
  }

  method ReadOne(line: string, contained: bool, ghost read: Reader) returns (entry: Option<Entry>)
    requires Reads(read, contained)
    ensures entry == read(line)
  {
    entry := ParseOne(line, contained);
    assert ReadsLine(read, contained, line);
  }

  lemma {:induction false} FullStaysFull(read: Reader, lines: seq<string>, limit: nat, i: nat)
    requires i <= |lines| && (i == |lines| || |EntriesOf(read, lines[..i], limit)| == limit)
    ensures EntriesOf(read, lines, limit) == EntriesOf(read, lines[..i], limit)
    decreases |lines| - i
  {
    if i == |lines| {
      assert lines[..i] == lines;
    } else {
      assert lines[..i + 1][..i] == lines[..i];
      FullStaysFull(read, lines, limit, i + 1);
    }
  }

  lemma OneMoreEntry(read: Reader, lines: seq<string>, limit: nat, i: nat)
    requires i < |lines| && |EntriesOf(read, lines[..i], limit)| < limit
    ensures EntriesOf(read, lines[..i + 1], limit) ==
            EntriesOf(read, lines[..i], limit) + if read(lines[i]).Some? then [read(lines[i]).value] else []
  {
    assert lines[..i + 1][..i] == lines[..i];
  }

  method ParseLines(lines: seq<string>, contained: bool, limit: nat, ghost read: Reader)
    returns (configs: seq<Entry>)
    requires Reads(read, contained)
    ensures configs == EntriesOf(read, lines, limit)
  {
    configs := [];
    var i := 0;
    while i < |lines| && |configs| < limit
      invariant i <= |lines| && configs == EntriesOf(read, lines[..i], limit)
    {
      OneMoreEntry(read, lines, limit, i);
      var entry := ReadOne(lines[i], contained, read);
      if entry.Some? {
        configs := configs + [entry.value];
      }
      i := i + 1;
    }
    FullStaysFull(read, lines, limit, i);
  }

  /** The line buffer, less its terminator. */
  const LINE_MAX: nat := 511

  method ParseFile(text: string, contained: bool, limit: nat) returns (configs: seq<Entry>)
    ensures configs == EntriesOf(LineReader(contained), CLines(text, 511), limit)
  {
    configs := ParseLines(CLines(text, LINE_MAX), contained, limit, LineReader(contained));
  }

  function Entries(ps: seq<Plugin>): (es: seq<Entry>)
    ensures |es| == |ps|
  {
    seq(|ps|, i requires 0 <= i < |ps| => EntryOf(ps[i]))
  }

  /** What a reader that agrees with a parser makes of its lines. */
  predicate SameOn(parse: Parser, read: Reader, line: string, written: string) {
    match parse(line)
    case Some(p) => read(written) == Some(EntryOf(p))
    case None => read(written) == None
  }

  lemma {:induction false} AgreeingReaders(parse: Parser, read: Reader, lines: seq<string>, written: seq<string>,
                                           n: nat, limit: nat)
    requires n <= |lines| == |written| && limit >= |PluginsOf(parse, lines, n)|
    requires forall i :: 0 <= i < |lines| ==> SameOn(parse, read, lines[i], written[i])
    ensures EntriesOf(read, written[..n], limit) == Entries(PluginsOf(parse, lines, n))
    decreases n
  {
    if n > 0 {
      AgreeingReaders(parse, read, lines, written, n - 1, limit);
      assert written[..n][..n - 1] == written[..n - 1];
      assert SameOn(parse, read, lines[n - 1], written[n - 1]);
    }
  }

  /** A field as it is stored fits its buffer. */
  lemma StoredFits(token: string, n: nat)
    requires n > 0
    ensures |Stored(token, n)| < n && (OneLine(token) ==> OneLine(Stored(token, n)))
  {
    StripRightIsPrefix(Cut(token, n), CSpace);
    var r := Stored(token, n);
    assert forall i :: 0 <= i < |r| ==> r[i] == token[i];
  }

  lemma {:induction false} TokenEndsBefore(s: string, delim: char -> bool, i: nat)
    requires i <= |s|
    ensures forall k :: i <= k < FindAny(s, delim, i) ==> !delim(s[k])
    decreases |s| - i
  {
    if i < |s| && !delim(s[i]) {
      TokenEndsBefore(s, delim, i + 1);
    }
  }

  lemma VenvFits(rest: string)
    ensures |VenvOf(rest)| < PATH_SIZE && OneLine(VenvOf(rest)) && |ConfigOf(rest)| < PATH_SIZE
  {
    var e := Strtok(rest, Comma);
    if e.Token? {
      StoredFits(e.text, PATH_SIZE);
      TokenEndsBefore(StripLeft(e.rest, CommaOrBreak), CommaOrBreak, 0);
      var f := Strtok(e.rest, CommaOrBreak);
      if f.Token? {
        assert OneLine(f.text);
        StoredFits(f.text, PATH_SIZE);
      }
    }
  }

  /** Whatever the core reads fits its buffers. */
  lemma ReadFits(line: string, contained: bool)
    ensures var r := ParseLine(line, contained);
            r.Some? ==> |r.value.name| < NAME_SIZE && |r.value.path| < PATH_SIZE &&
                        |r.value.config| < PATH_SIZE && |r.value.venv| < PATH_SIZE && OneLine(r.value.venv)
  {
    var a := Strtok(line, Comma);
    var b := if a.Token? then Strtok(a.rest, Comma) else NoToken;
    var c := if b.Token? then Strtok(b.rest, Comma) else NoToken;
    var d := if c.Token? then Strtok(c.rest, Comma) else NoToken;
    if d.Token? {
      StoredFits(a.text, NAME_SIZE);
      StoredFits(b.text, PATH_SIZE);
      VenvFits(d.rest);
    }
  }

  /** A line of which both readers make the same: a plugin that fits the core's buffers, with a
      name, an acceptable path, and no environment path without a configuration; or a line that
      neither takes for a plugin. */
  predicate Agreed(line: string, contained: bool) {
    match FromLine(line)
    case Some(p) => Fits(p) && p.name != "" && Acceptable(p.path, contained) && (p.config != "" || p.venv == "")
    case None => !ReadAsPlugin(line + "\n", contained)
  }

  lemma RewrittenAt(parse: Parser, lines: seq<string>, i: nat)
    requires i < |lines|
    ensures Rewritten(parse, lines, |lines|)[i] == match parse(lines[i]) case Some(p) => ToLine(p) case None => lines[i]
  {
  }

  /** Line by line the core reads from what the web server wrote back the plugin the web server
      had, or none where it had none, exactly for such lines. */
  lemma LineAgreesExactlyWhen(lines: seq<string>, i: nat, contained: bool)
    requires i < |lines|
    ensures SameOn(FromLine, LineReader(contained), lines[i], Rewritten(FromLine, lines, |lines|)[i] + "\n") <==>
            Agreed(lines[i], contained)
  {
    RewrittenAt(FromLine, lines, i);
    if FromLine(lines[i]).Some? {
      var p := FromLine(lines[i]).value;
      ParsedIsWellFormed(lines[i]);
      if Fits(p) {
        CoreReadsPluginExactlyWhen(p, contained);
      } else {
        ReadFits(ToLine(p) + "\n", contained);
      }
    } else {
      LineIsReadExactlyWhen(lines[i] + "\n", contained);
    }
  }

  lemma FieldFirst(a: string, rest: string)
    requires a != "" && ',' !in a
    ensures Fields(a + [','] + rest) == [a] + Fields(rest)
  {
    var s := a + [','] + rest;
    CutAt(a, ',', rest);
    assert s[..|a|] == a && s[|a| + 1..] == rest;
    var parts := SplitOn(s, ',');
    assert parts == [a] + SplitOn(rest, ',');
    assert parts[0] == a && parts[1..] == SplitOn(rest, ',');
  }

  lemma OneField(a: string)
    requires a != "" && ',' !in a
    ensures Fields(a) == [a]
  {
    FindSkips(a, ',', 0, |a|);
    var parts := SplitOn(a, ',');
    assert parts == [a] && parts[0] == a && parts[1..] == [];
    assert Solid(parts[1..]) == [];
  }

  lemma FourFields(a: string, b: string, c: string, d: string)
    requires a != "" && b != "" && c != "" && d != "" && ',' !in a && ',' !in b && ',' !in c && ',' !in d
    ensures Fields(a + [','] + (b + [','] + (c + [','] + d))) == [a, b, c, d]
  {
    FieldFirst(a, b + [','] + (c + [','] + d));
    FieldFirst(b, c + [','] + d);
    FieldFirst(c, d);
    OneField(d);
  }

  /** A comment that is indented is one to the web server, and to the core a plugin whenever it has
      the fields of one. */
  lemma IndentedCommentIsRead(name: string, path: string, contained: bool)
    requires name != "" && ',' !in name && path != "" && ',' !in path
    requires Acceptable(Stored(path, PATH_SIZE), contained)
    ensures var line := " #" + name + [','] + (path + [','] + ("1" + [','] + "1"));
            FromLine(line) == None && ReadAsPlugin(line + "\n", contained)
  {
    var line := " #" + name + [','] + (path + [','] + ("1" + [','] + "1"));
    assert line[1..][0] == '#' && StripLeft(line, PySpace) == StripLeft(line[1..], PySpace) == line[1..];
    FirstStays(line[1..], PySpace);
    assert Strip(line, PySpace) == Strip(line[1..], PySpace);
    assert FromLine(line) == None;
    assert (line + "\n")[0] == ' ';
    FourFields(" #" + name, path, "1", "1\n");
    assert line + "\n" == " #" + name + [','] + (path + [','] + ("1" + [','] + "1\n"));
  }

  /** From the text of a file the web server read and wrote back, the core reads the same plugins
      in the same order. */
  lemma CoreReadsTheSamePlugins(lines: seq<string>, contained: bool, limit: nat)
    requires limit >= |PluginsOf(FromLine, lines, |lines|)|
    requires forall i :: 0 <= i < |lines| ==> Agreed(lines[i], contained)
    requires var out := Rewritten(FromLine, lines, |lines|);
             forall i :: 0 <= i < |out| ==> OneLine(out[i]) && |out[i]| < 511
    ensures var text := Unlines(Rewritten(FromLine, lines, |lines|));
            EntriesOf(LineReader(contained), CLines(text, 511), limit) ==
            Entries(PluginsOf(FromLine, lines, |lines|))
  {
    var out := Rewritten(FromLine, lines, |lines|);
    CLinesAreFound(out, 511);
    var written := Terminated(out);
    forall i | 0 <= i < |lines| ensures SameOn(FromLine, LineReader(contained), lines[i], written[i]) {
      LineAgreesExactlyWhen(lines, i, contained);
    }
    AgreeingReaders(FromLine, LineReader(contained), lines, written, |lines|, limit);
    assert written[..|lines|] == written;
  }
}
