/** The round trip of the INI reader: write a configuration down, in any layout, and parse the
    text; the events that come out are the settings that went in. */
module IniRoundTrip {
  import opened CStrings
  import opened IniGrammar
  import opened IniRun
  import opened IniLines

  // ------------------------------------------------------------ documents of lines

  /** Events and final context of a written document that starts in context `c`. */
  function Says(doc: seq<Line>, c: Context): (seq<Event>, Context) {
    if doc == [] then ([], c)
    else
      var (r, c1) := Meaning(doc[0], c);
      var (rest, c2) := Says(doc[1..], c1);
      ((if r.Emit? then [r.event] else []) + rest, c2)
  }

  predicate GoodDoc(doc: seq<Line>, c: Context) {
    doc != [] ==> GoodLine(doc[0], c) && GoodDoc(doc[1..], Meaning(doc[0], c).1)
  }

  /** The document without the lines that are malformed. */
  function WithoutJunk(doc: seq<Line>): seq<Line> {
    if doc == [] then [] else (if doc[0].Junk? then [] else [doc[0]]) + WithoutJunk(doc[1..])
  }

  /** Malformed lines change nothing for the others. */
  lemma {:induction false} JunkIgnored(doc: seq<Line>, c: Context)
    ensures Says(doc, c) == Says(WithoutJunk(doc), c)
    ensures GoodDoc(doc, c) ==> GoodDoc(WithoutJunk(doc), c)
  {
    if doc != [] {
      hide GoodLine;
      var (r, c1) := Meaning(doc[0], c);
      JunkIgnored(doc[1..], c1);
      if doc[0].Junk? {
        assert [] + Says(doc[1..], c).0 == Says(doc[1..], c).0;
        assert [] + WithoutJunk(doc[1..]) == WithoutJunk(doc[1..]);
      } else {
        assert WithoutJunk(doc)[1..] == WithoutJunk(doc[1..]);
      }
    }
  }

  /** The 1-based number of the first malformed line, 0 if there is none. */
  function FirstJunk(doc: seq<Line>): (r: nat)
    ensures r <= |doc| && (r > 0 ==> doc[r - 1].Junk?)
    ensures forall i :: 0 <= i < |doc| && (r > 0 ==> i < r - 1) ==> !doc[i].Junk?
  {
    if doc == [] then 0
    else if doc[0].Junk? then 1
    else
      var r := FirstJunk(doc[1..]);
      if r == 0 then 0 else r + 1
  }

  lemma {:induction false} SaysAppend(a: seq<Line>, b: seq<Line>, c: Context)
    ensures var (ea, ca) := Says(a, c);
            var (eb, cb) := Says(b, ca);
            && Says(a + b, c) == (ea + eb, cb)
            && (GoodDoc(a + b, c) <==> GoodDoc(a, c) && GoodDoc(b, ca))
  {
    hide Meaning, GoodLine;
    var (eb, cb) := Says(b, Says(a, c).1);
    if a == [] {
      assert a + b == b && [] + eb == eb;
    } else {
      assert (a + b)[1..] == a[1..] + b;
      var (r, c1) := Meaning(a[0], c);
      SaysAppend(a[1..], b, c1);
      var shown, rest := if r.Emit? then [r.event] else [], Says(a[1..], c1).0;
      assert shown + (rest + eb) == (shown + rest) + eb;
    }
  }

  /** A line with its line end, which the last line of a file may lack. */
  function Render(l: Line, ended: bool): string {
    Body(l) + if ended then "\n" else ""
  }

  /** The chunks of the document: its lines, the first one perhaps behind a byte-order mark;
      `ended` says whether the last one has a line end. */
  function Rendered(doc: seq<Line>, bom: bool, ended: bool): (r: seq<string>)
    ensures |r| == |doc|
  {
    seq(|doc|, i requires 0 <= i < |doc| =>
      (if bom && i == 0 then BOM else "") + Render(doc[i], ended || i + 1 < |doc|))
  }

  /** Without a mark of its own the text must not look as if it began with one. */
  predicate BomClear(doc: seq<Line>, bom: bool) {
    doc != [] && !bom ==> !(BOM <= Body(doc[0]))
  }

  /** A run over one more line. */
  lemma LastResult(lines: seq<string>)
    requires lines != []
    ensures var n := |lines| - 1;
            var (r, c) := ParseLine(n == 0, lines[n], ContextAfter(lines[..n]));
            && Events(lines) == Events(lines[..n]) + (if r.Emit? then [r.event] else [])
            && ContextAfter(lines) == c && ResultAt(lines, n) == r
  {
    hide ParseLine;
  }

  lemma EarlierResults(lines: seq<string>, n: nat)
    requires n <= |lines|
    ensures forall i :: 0 <= i < n ==> ResultAt(lines, i) == ResultAt(lines[..n], i)
  {
    hide ParseLine, ContextAfter;
    forall i | 0 <= i < n ensures ResultAt(lines, i) == ResultAt(lines[..n], i) {
      assert lines[..n][..i] == lines[..i];
    }
  }

  lemma LastRendered(doc: seq<Line>, bom: bool, ended: bool)
    requires doc != []
    ensures var n := |doc| - 1;
            && Rendered(doc, bom, ended)[..n] == Rendered(doc[..n], bom, true)
            && Rendered(doc, bom, ended)[n] == (if bom && n == 0 then BOM else "") + Render(doc[n], ended)
  {
    hide Render;
  }

  /** The last line is good where it stands, and says what the document ends with. */
  lemma LastSays(doc: seq<Line>)
    requires doc != [] && GoodDoc(doc, START)
    ensures var n := |doc| - 1;
            var (events, c) := Says(doc[..n], START);
            var (r, c') := Meaning(doc[n], c);
            && GoodDoc(doc[..n], START) && GoodLine(doc[n], c)
            && Says(doc, START) == (events + (if r.Emit? then [r.event] else []), c')
            && (n == 0 ==> c == START)
  {
    hide Meaning, GoodLine, GoodDoc;
    var n := |doc| - 1;
    assert doc == doc[..n] + [doc[n]];
    SaysAppend(doc[..n], [doc[n]], START);
    var c := Says(doc[..n], START).1;
    OnlyLine(doc[n], c);
    assert n == 0 ==> doc[..n] == [];
    OneLine(doc[n], c);
    hide Says;
  }

  /** The lines yield what the document says; the malformed ones are its junk. */
  predicate ReadsBack(lines: seq<string>, doc: seq<Line>) {
    && |lines| == |doc|
    && (Events(lines), ContextAfter(lines)) == Says(doc, START)
    && forall i :: 0 <= i < |lines| ==> (ResultAt(lines, i).Malformed? <==> doc[i].Junk?)
  }

  /** One more line of a document whose lines so far read back. */
  lemma OneMoreReadBack(doc: seq<Line>, bom: bool, ended: bool)
    requires doc != [] && GoodDoc(doc, START) && BomClear(doc, bom)
    requires ReadsBack(Rendered(doc, bom, ended)[..|doc| - 1], doc[..|doc| - 1])
    ensures ReadsBack(Rendered(doc, bom, ended), doc)
  {
    hide Meaning, GoodLine, ParseLine, Render, Body, Rendered, Events, ContextAfter, ResultAt, Says, GoodDoc;
    var lines := Rendered(doc, bom, ended);
    var n := |doc| - 1;
    LastSays(doc);
    LastRendered(doc, bom, ended);
    LastResult(lines);
    EarlierResults(lines, n);
    LastLine(doc[n], ContextAfter(lines[..n]), n == 0, bom, ended);
  }

  /** Parsing the lines of a document reads it back. */
  lemma {:induction false} LinesReadBack(doc: seq<Line>, bom: bool, ended: bool)
    requires GoodDoc(doc, START) && BomClear(doc, bom)
    ensures ReadsBack(Rendered(doc, bom, ended), doc)
  {
    if doc != [] {
      hide Says, GoodDoc, Rendered, ReadsBack, Body, GoodLine;
      LastSays(doc);
      LastRendered(doc, bom, ended);
      LinesReadBack(doc[..|doc| - 1], bom, true);
      OneMoreReadBack(doc, bom, ended);
    }
  }

  lemma OneLine(l: Line, c: Context)
    requires GoodLine(l, c)
    ensures var (r, c') := Meaning(l, c);
            Says([l], c) == (if r.Emit? then [r.event] else [], c')
    ensures GoodDoc([l], c)
  {
    hide GoodLine, Meaning;
    var (r, c') := Meaning(l, c);
    var shown := if r.Emit? then [r.event] else [];
    assert [l][1..] == [] && shown + [] == shown;
    assert Says([], c') == ([], c') && GoodDoc([], c');
  }

  lemma OnlyLine(l: Line, c: Context)
    ensures GoodDoc([l], c) <==> GoodLine(l, c)
  {
    hide GoodLine;
    assert [l][1..] == [] && GoodDoc([], Meaning(l, c).1);
  }

  lemma LastLine(l: Line, c: Context, first: bool, bom: bool, ended: bool)
    requires GoodLine(l, c) && (first ==> c == START)
    requires first && !bom ==> !(BOM <= Body(l))
    ensures ParseLine(first, (if bom && first then BOM else "") + Render(l, ended), c) == Meaning(l, c)
    ensures Meaning(l, c).0.Malformed? <==> l.Junk?
  {
    hide ParseLine, Body, GoodLine;
    var eol := if ended then "\n" else "";
    if bom && first {
      FirstLineReadBack(l, eol);
    } else {
      LineReadBack(first, l, eol, c);
      assert "" + Render(l, ended) == Body(l) + eol;
    }
  }

  // ------------------------------------------------------------ text

  function Concat(lines: seq<string>): string {
    if lines == [] then "" else lines[0] + Concat(lines[1..])
  }

  /** A line `fgets` returns whole: it fits the buffer and ends in its only newline, which the
      last line of a file may lack. */
  predicate WholeLine(s: string, last: bool) {
    && 0 < |s| < MAX_LINE && (last || s[|s| - 1] == '\n')
    && NUL !in s && forall k :: 0 <= k < |s| - 1 ==> s[k] != '\n'
  }

  /** `fgets` splits a text of whole lines exactly at its newlines, whether or not the last
      line has one. */
  lemma {:induction false} ChunksOfLines(lines: seq<string>)
    requires forall i :: 0 <= i < |lines| ==> WholeLine(lines[i], i + 1 == |lines|)
    ensures Chunks(Concat(lines)) == lines
  {
    if lines != [] {
      var s, rest := lines[0], Concat(lines[1..]);
      assert |lines| > 1 ==> WholeLine(lines[1], 2 == |lines|);
      FirstChunk(s, rest);
      ChunksOfLines(lines[1..]);
    }
  }

  /** A text cut behind each newline. */
  function CutLines(text: string): seq<string> {
    if text == "" then [] else [text[..LineLen(text)]] + CutLines(text[LineLen(text)..])
  }

  function LineLen(text: string): (n: nat)
    requires text != ""
    ensures 0 < n <= |text| && (n < |text| ==> text[n - 1] == '\n')
    ensures forall k :: 0 <= k < n - 1 ==> text[k] != '\n'
  {
    if text[0] == '\n' || |text| == 1 then 1 else 1 + LineLen(text[1..])
  }

  /** At most 199 characters, none of them NUL. */
  predicate Readable(line: string) {
    |line| < MAX_LINE && NUL !in line
  }

  /** Reading a text gives its lines if and only if each of them is readable. */
  lemma {:induction false} ChunksAreLinesIff(text: string)
    ensures Chunks(text) == CutLines(text) <==> forall line :: line in CutLines(text) ==> Readable(line)
  {
    if text != "" {
      var n := LineLen(text);
      var s, rest := text[..n], text[n..];
      assert text == s + rest;
      ChunksAreLinesIff(rest);
      hide Readable, LineLen;
      assert CutLines(text) == [s] + CutLines(rest);
      if Readable(s) {
        ReadableFirst(text, n);
        SameTail(s, Chunks(rest), CutLines(rest));
      } else {
        FirstDiffers(text, s);
        assert s in CutLines(text);
      }
    }
  }

  lemma SameTail(s: string, a: seq<string>, b: seq<string>)
    ensures [s] + a == [s] + b <==> a == b
  {
    assert ([s] + a)[1..] == a && ([s] + b)[1..] == b;
  }

  lemma ReadableFirst(text: string, n: nat)
    requires text != "" && n == LineLen(text) && Readable(text[..n])
    ensures Chunks(text) == [text[..n]] + Chunks(text[n..])
  {
    assert text == text[..n] + text[n..];
    FirstChunk(text[..n], text[n..]);
  }

  lemma FirstDiffers(text: string, s: string)
    requires text != "" && !Readable(s)
    ensures Chunks(text) != [] && Chunks(text)[0] != s
  {
    hide ChunkLen, UpToNul;
  }

  lemma FirstChunk(s: string, rest: string)
    requires WholeLine(s, rest == "")
    ensures Chunks(s + rest) == [s] + Chunks(rest)
  {
    hide ChunkLen, UpToNul;
    var text := s + rest;
    var n := ChunkLen(text);
    assert forall k :: 0 <= k < |s| ==> text[k] == s[k];
    assert rest != "" ==> text[|s| - 1] == '\n';
    assert n == |s|;
    assert text[..n] == s && text[n..] == rest;
    NoNul(s);
  }

  lemma NoNul(s: string)
    requires NUL !in s
    ensures UpToNul(s) == s
  {
    var r := UpToNul(s);
    assert r == s[..|r|];
  }

  /** Any layout of a document, written to a stream and parsed, gives back the events of its
      well-formed lines in order, as if the others were not there; with every handler that
      accepts its events the parse returns the number of the first malformed line, or 0. */
  lemma TextRoundTrip<H>(doc: seq<Line>, bom: bool, ended: bool, h: Handler<H>, user: H)
    requires GoodDoc(doc, START) && BomClear(doc, bom)
    requires forall i :: 0 <= i < |doc| ==> WholeLine(Rendered(doc, bom, ended)[i], i + 1 == |doc|)
    requires forall u, e :: h(u, e).1
    ensures var lines := Chunks(Concat(Rendered(doc, bom, ended)));
            var p := Run(lines, h, user);
            && Events(lines) == Says(doc, START).0 == Says(WithoutJunk(doc), START).0
            && p.error == FirstJunk(doc)
            && p.user == Feed(Says(doc, START).0, h, user)
  {
    hide GoodDoc, Says, ParseLine, Render, BomClear, WithoutJunk, Run, Events, FirstJunk, ResultAt, WholeLine;
    var lines := Rendered(doc, bom, ended);
    ChunksOfLines(lines);
    LinesReadBack(doc, bom, ended);
    JunkIgnored(doc, START);
    FirstFailure(lines, doc, h, user);
  }

  /** With a handler that accepts everything the failing lines are the malformed ones. */
  lemma FirstFailure<H>(lines: seq<string>, doc: seq<Line>, h: Handler<H>, user: H)
    requires |lines| == |doc|
    requires forall i :: 0 <= i < |lines| ==> (ResultAt(lines, i).Malformed? <==> doc[i].Junk?)
    requires forall u, e :: h(u, e).1
    ensures Run(lines, h, user).error == FirstJunk(doc)
    ensures Run(lines, h, user).user == Feed(Events(lines), h, user)
  {
    hide Run, Events, ResultAt;
    ErrorReporting(lines, h, user);
    forall i | 0 <= i < |lines| ensures LineFails(lines, i, h, user) <==> doc[i].Junk? {}
    hide LineFails, FirstJunk;
  }

  // ------------------------------------------------------------ configurations

  /** A continuation line repeats the setting's name as the 50-byte buffer kept it: the name
      comes back exactly when it is shorter than 50 characters. */
  lemma ContinuationName(pair: Line, more: Line, c: Context)
    requires pair.Pair? && more.More? && GoodDoc([pair, more], c)
    ensures var events := Says([pair, more], c).0;
            |events| == 2 && events[0].name == pair.name && (events[1].name == pair.name <==> |pair.name| < MAX_NAME)
  {
    assert [pair, more] == [pair] + [more];
    SaysAppend([pair], [more], c);
    hide GoodLine;
    OnlyLine(pair, c);
    OnlyLine(more, Meaning(pair, c).1);
    OneLine(pair, c);
    OneLine(more, Meaning(pair, c).1);
    assert |pair.name| < MAX_NAME ==> Trunc(pair.name) == pair.name;
  }

  /** A setting's value may run over several lines; all but the first are non-empty. */
  datatype Setting = Setting(name: string, value: string, more: seq<string>)
  datatype Section = Section(name: string, settings: seq<Setting>)

  predicate PlainText(s: string) {
    && NoComment(s) && NUL !in s && '\n' !in s
  }

  /** Only a name that continuation lines repeat has to be there and to fit its buffer. */
  predicate GoodSetting(t: Setting) {
    && PlainText(t.name) && PlainText(t.value) && Stripped(t.name) && Stripped(t.value)
    && '=' !in t.name && ':' !in t.name && (t.name != "" ==> t.name[0] !in "[;#")
    && (t.more != [] ==> 0 < |t.name| < MAX_NAME) && |t.name| + |t.value| + 2 < MAX_LINE
    && forall i :: 0 <= i < |t.more| ==> GoodMore(t.more[i])
  }

  predicate GoodMore(v: string) {
    && PlainText(v) && Stripped(v) && v != "" && v[0] !in ";#" && |v| + 2 < MAX_LINE
  }

  predicate GoodSection(s: Section) {
    && PlainText(s.name) && ']' !in s.name && |s.name| < MAX_SECTION
    && forall i :: 0 <= i < |s.settings| ==> GoodSetting(s.settings[i])
  }

  function MoreLines(vs: seq<string>): seq<Line> {
    if vs == [] then [] else [More(" ", vs[0], "", "")] + MoreLines(vs[1..])
  }

  function SettingLines(t: Setting): seq<Line> {
    [Pair("", t.name, "", '=', "", t.value, "", "")] + MoreLines(t.more)
  }

  function SettingsLines(ts: seq<Setting>): seq<Line> {
    if ts == [] then [] else SettingLines(ts[0]) + SettingsLines(ts[1..])
  }

  /** The canonical document of a configuration. */
  function ConfigLines(config: seq<Section>): seq<Line> {
    if config == [] then []
    else [Header("", config[0].name, "")] + SettingsLines(config[0].settings) + ConfigLines(config[1..])
  }

  function MoreEvents(section: string, name: string, vs: seq<string>): seq<Event> {
    if vs == [] then [] else [Event(section, name, vs[0])] + MoreEvents(section, name, vs[1..])
  }

  function SettingEvents(section: string, t: Setting): seq<Event> {
    [Event(section, t.name, t.value)] + MoreEvents(section, t.name, t.more)
  }

  function SettingsEvents(section: string, ts: seq<Setting>): seq<Event> {
    if ts == [] then [] else SettingEvents(section, ts[0]) + SettingsEvents(section, ts[1..])
  }

  /** The (section, name, value-line) triples of a configuration, in order. */
  function ConfigEvents(config: seq<Section>): seq<Event> {
    if config == [] then []
    else SettingsEvents(config[0].name, config[0].settings) + ConfigEvents(config[1..])
  }

  /** Every line is well-formed, fits the buffer and holds neither a NUL nor a second newline. */
  ghost predicate Fits(doc: seq<Line>) {
    forall l :: l in doc ==> !l.Junk? && WholeLine(Render(l, true), false) && WholeLine(Render(l, false), true)
  }

  lemma BodyFits(l: Line)
    requires !l.Junk? && 0 < |Body(l)| < MAX_LINE - 1 && NUL !in Body(l) && '\n' !in Body(l)
    ensures Fits([l])
  {}

  lemma MoreFits(v: string)
    requires GoodMore(v)
    ensures Fits([More(" ", v, "", "")])
  {
    var l := More(" ", v, "", "");
    assert Body(l) == " " + v != "";
    BodyFits(l);
  }

  lemma PairFits(t: Setting)
    requires GoodSetting(t)
    ensures Fits([Pair("", t.name, "", '=', "", t.value, "", "")])
  {
    var l := Pair("", t.name, "", '=', "", t.value, "", "");
    assert Body(l) == t.name + "=" + t.value != "";
    BodyFits(l);
  }

  lemma HeaderFits(s: Section)
    requires GoodSection(s)
    ensures Fits([Header("", s.name, "")])
  {
    var l := Header("", s.name, "");
    assert Body(l) == "[" + s.name + "]" != "";
    BodyFits(l);
  }

  lemma {:induction false} MoreSays(vs: seq<string>, c: Context)
    requires forall i :: 0 <= i < |vs| ==> GoodMore(vs[i])
    requires vs != [] ==> c.prevName != ""
    ensures Says(MoreLines(vs), c) == (MoreEvents(c.section, c.prevName, vs), c)
    ensures GoodDoc(MoreLines(vs), c) && Fits(MoreLines(vs))
  {
    if vs != [] {
      hide GoodDoc, Says;
      var l := More(" ", vs[0], "", "");
      OneLine(l, c);
      MoreFits(vs[0]);
      MoreSays(vs[1..], c);
      SaysAppend([l], MoreLines(vs[1..]), c);
    } else {
      assert MoreLines(vs) == [];
    }
  }

  lemma SettingSays(t: Setting, c: Context)
    requires GoodSetting(t)
    ensures Says(SettingLines(t), c) == (SettingEvents(c.section, t), Context(c.section, Trunc(t.name)))
    ensures GoodDoc(SettingLines(t), c) && Fits(SettingLines(t))
  {
    hide GoodDoc, Says;
    var l := Pair("", t.name, "", '=', "", t.value, "", "");
    OneLine(l, c);
    PairFits(t);
    assert |t.name| < MAX_NAME ==> Trunc(t.name) == t.name;
    var d := Context(c.section, Trunc(t.name));
    MoreSays(t.more, d);
    SaysAppend([l], MoreLines(t.more), c);
  }

  lemma {:induction false} SettingsSay(ts: seq<Setting>, c: Context)
    requires forall i :: 0 <= i < |ts| ==> GoodSetting(ts[i])
    ensures Says(SettingsLines(ts), c).0 == SettingsEvents(c.section, ts)
    ensures GoodDoc(SettingsLines(ts), c) && Fits(SettingsLines(ts))
  {
    if ts != [] {
      hide GoodDoc, Says, GoodSetting, SettingLines, SettingEvents;
      SettingSays(ts[0], c);
      var d := Context(c.section, Trunc(ts[0].name));
      SettingsSay(ts[1..], d);
      SaysAppend(SettingLines(ts[0]), SettingsLines(ts[1..]), c);
    } else {
      assert SettingsLines(ts) == [];
    }
  }

  lemma {:induction false} ConfigSays(config: seq<Section>, c: Context)
    requires forall i :: 0 <= i < |config| ==> GoodSection(config[i])
    ensures Says(ConfigLines(config), c).0 == ConfigEvents(config)
    ensures GoodDoc(ConfigLines(config), c) && Fits(ConfigLines(config))
  {
    if config != [] {
      hide GoodDoc, Says, GoodSetting, SettingsLines, SettingsEvents;
      var s := config[0];
      var l := Header("", s.name, "");
      OneLine(l, c);
      HeaderFits(s);
      assert Trunc(s.name) == s.name;
      var d := Context(s.name, "");
      SettingsSay(s.settings, d);
      var e := Says(SettingsLines(s.settings), d).1;
      ConfigSays(config[1..], e);
      SaysAppend(SettingsLines(s.settings), ConfigLines(config[1..]), d);
      SaysAppend([l], SettingsLines(s.settings) + ConfigLines(config[1..]), c);
      assert ConfigLines(config) == [l] + (SettingsLines(s.settings) + ConfigLines(config[1..]));
    } else {
      assert ConfigLines(config) == [];
    }
  }

  lemma FirstIsHeader(config: seq<Section>)
    requires config != [] && GoodSection(config[0])
    ensures var l := ConfigLines(config)[0];
            !(BOM <= Body(l)) && WholeLine(BOM + Render(l, true), false) && WholeLine(BOM + Render(l, false), true)
  {
    hide GoodSetting, SettingsLines, WholeLine;
    var l := Header("", config[0].name, "");
    assert ConfigLines(config)[0] == l;
    HeaderFits(config[0]);
    assert l in [l];
    assert Body(l) == "[" + config[0].name + "]" && Body(l)[0] != BOM[0];
    hide Body;
    MarkFits(Render(l, true), false);
    MarkFits(Render(l, false), true);
  }

  lemma MarkFits(s: string, last: bool)
    requires WholeLine(s, last) && |s| + 3 < MAX_LINE
    ensures WholeLine(BOM + s, last)
  {
    assert BOM == ['\U{EF}', '\U{BB}', '\U{BF}'];
    assert forall k :: 3 <= k < |s| + 3 ==> (BOM + s)[k] == s[k - 3];
  }

  lemma NoJunk(doc: seq<Line>)
    requires Fits(doc)
    ensures FirstJunk(doc) == 0
  {
    assert forall i :: 0 <= i < |doc| ==> doc[i] in doc;
  }

  lemma PlainFits(doc: seq<Line>, bom: bool, ended: bool, i: nat)
    requires i < |doc| && Fits(doc)
    requires WholeLine(BOM + Render(doc[0], true), false) && WholeLine(BOM + Render(doc[0], false), true)
    ensures WholeLine(Rendered(doc, bom, ended)[i], i + 1 == |doc|)
  {
    hide Render;
    assert doc[i] in doc;
    var s := Render(doc[i], ended || i + 1 < |doc|);
    assert "" + s == s;
  }

  /** The round trip: a configuration, written canonically with or without a byte-order mark,
      with or without a newline at the end, and parsed, emits exactly its (section, name,
      value-line) events in order, and the parse returns 0. */
  lemma ConfigRoundTrip<H>(config: seq<Section>, bom: bool, ended: bool, h: Handler<H>, user: H)
    requires forall i :: 0 <= i < |config| ==> GoodSection(config[i])
    requires forall u, e :: h(u, e).1
    ensures var lines := Chunks(Concat(Rendered(ConfigLines(config), bom, ended)));
            var p := Run(lines, h, user);
            && Events(lines) == ConfigEvents(config)
            && p.error == 0
            && p.user == Feed(ConfigEvents(config), h, user)
  {
    hide GoodDoc, Says, Render, Body, GoodSection, WholeLine, HasBom, ConfigLines, Fits, Rendered;
    var doc := ConfigLines(config);
    ConfigSays(config, START);
    if config != [] {
      FirstIsHeader(config);
    } else {
      NoConfigLines();
    }
    forall i | 0 <= i < |doc| ensures WholeLine(Rendered(doc, bom, ended)[i], i + 1 == |doc|) {
      PlainFits(doc, bom, ended, i);
    }
    NoJunk(doc);
    TextRoundTrip(doc, bom, ended, h, user);
  }

  lemma NoConfigLines()
    ensures ConfigLines([]) == []
  {}
}
