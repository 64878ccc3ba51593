/** Written lines and what they mean: every layout of a header, a setting, a continuation, a
    remark or a line that is none of these, with the proof that the line grammar reads it back. */
module IniLines {
  import opened CStrings
  import opened IniGrammar
  import opened IniRun

  /** One line as an author writes it.  `indent`, `before`, `after` and `pad` are whitespace;
      `note` is an inline comment; `trail` is text after the bracket, which is ignored. */
  datatype Line =
    | Header(indent: string, section: string, trail: string)
    | Pair(indent: string, name: string, before: string, sep: char, after: string, value: string, pad: string,
           note: string)
    | More(indent: string, value: string, pad: string, note: string)
    | Remark(indent: string, text: string)
    | Junk(indent: string, text: string, pad: string)

  /** The line behind its indentation. */
  function Text(l: Line): string {
    match l
    case Header(_, section, trail) => "[" + section + "]" + trail
    case Pair(_, name, before, sep, after, value, pad, note) =>
      name + before + [sep] + (after + (value + (pad + note)))
    case More(_, value, pad, note) => value + (pad + note)
    case Remark(_, text) => text
    case Junk(_, text, pad) => text + pad
  }

  function Body(l: Line): string {
    l.indent + Text(l)
  }

  predicate NoComment(s: string) {
    forall k :: 0 <= k < |s| ==> !CommentAt(s, k)
  }

  /** An inline comment needs a value and whitespace in front of it. */
  predicate GoodTail(value: string, pad: string, note: string) {
    && Stripped(value) && NoComment(value) && AllSpace(pad)
    && (note != "" ==> value != "" && pad != "" && note[0] == ';')
  }

  /** The part of a setting up to its value.  A name may be empty. */
  predicate GoodFront(l: Line)
    requires l.Pair?
  {
    && Stripped(l.name) && NoComment(l.name) && '=' !in l.name && ':' !in l.name
    && (if l.name == "" then l.before == "" else l.name[0] != '[' && l.name[0] != ';' && l.name[0] != '#')
    && AllSpace(l.before) && AllSpace(l.after) && (l.sep == '=' || l.sep == ':')
  }

  /** A header or a setting may be indented only where no setting stands above it in its
      section; elsewhere an indented line continues that setting. */
  predicate GoodIndent(l: Line, c: Context) {
    && AllSpace(l.indent)
    && match l
       case Header(_, _, _) => l.indent != "" ==> c.prevName == ""
       case Pair(_, _, _, _, _, _, _, _) => l.indent != "" ==> c.prevName == ""
       case More(_, _, _, _) => l.indent != "" && c.prevName != ""
       case Remark(_, _) => true
       case Junk(_, _, _) => l.indent != "" ==> c.prevName == ""
  }

  predicate GoodText(l: Line) {
    match l
    case Header(_, section, trail) => ']' !in section && NoComment(section)
    case Pair(_, _, _, _, _, value, pad, note) => GoodFront(l) && GoodTail(value, pad, note)
    case More(_, value, pad, note) =>
      value != "" && value[0] != ';' && value[0] != '#' && GoodTail(value, pad, note)
    case Remark(_, text) => text == "" || text[0] == ';' || text[0] == '#'
    case Junk(_, text, pad) =>
      && text != "" && Stripped(text) && text[0] != ';' && text[0] != '#'
      && !Delimited(text, text[0] == '[') && AllSpace(pad)
  }

  predicate GoodLine(l: Line, c: Context) {
    GoodIndent(l, c) && GoodText(l)
  }

  /** What the line says, given the section and the setting it stands under. */
  function Meaning(l: Line, c: Context): (LineResult, Context) {
    match l
    case Header(_, section, _) => (Quiet, Context(Trunc(section), ""))
    case Pair(_, name, _, _, _, value, _, _) =>
      (Emit(Event(c.section, name, value)), Context(c.section, Trunc(name)))
    case More(_, value, _, _) => (Emit(Event(c.section, c.prevName, value)), c)
    case Remark(_, _) => (Quiet, c)
    case Junk(_, _, _) => (Malformed, c)
  }

  // ------------------------------------------------------------ stripping a written line

  lemma RStripBlank(s: string, w: string)
    requires AllSpace(w)
    ensures RStrip(s + w) == RStrip(s)
  {
    var r := RStrip(s);
    forall k | |r| <= k < |s + w| ensures IsSpace((s + w)[k]) {
      assert k >= |s| ==> (s + w)[k] == w[k - |s|];
    }
    RStripIs(s + w, r);
  }

  lemma RStripSolid(s: string)
    requires s != "" ==> !IsSpace(s[|s| - 1])
    ensures RStrip(s) == s
  {}

  lemma RStripConcat(s: string, t: string)
    requires RStrip(t) != "" || s == "" || !IsSpace(s[|s| - 1])
    ensures RStrip(s + t) == s + RStrip(t)
  {
    hide RStrip;
    var r := RStrip(t);
    var tail := t[|r|..];
    assert AllSpace(tail);
    assert t == r + tail;
    assert s + t == (s + r) + tail;
    assert (s + t)[|s + r|..] == tail;
    RStripIs(s + t, s + r);
  }

  lemma LSkipBlank(w: string, s: string)
    requires AllSpace(w) && (s != "" ==> !IsSpace(s[0]))
    ensures LSkip(w + s) == s && Blanks(w + s) == |w|
  {
    assert (w + s)[..|w|] == w && (w + s)[|w|..] == s;
    BlanksIs(w + s, |w|);
  }

  /** A value with its padding and comment, after the line's trailing whitespace is gone. */
  function Shown(value: string, pad: string, note: string): string {
    if note == "" then value else value + (pad + RStrip(note))
  }

  lemma SolidStart(s: string)
    requires s != "" && !IsSpace(s[0])
    ensures RStrip(s) != "" && RStrip(s)[0] == s[0]
  {}

  lemma TailStripped(value: string, pad: string, note: string)
    requires GoodTail(value, pad, note)
    ensures RStrip(value + (pad + note)) == Shown(value, pad, note)
  {
    hide RStrip, NoComment;
    if note == "" {
      assert pad + note == pad;
      RStripBlank(value, pad);
      RStripSolid(value);
    } else {
      SolidStart(note);
      RStripConcat(pad, note);
      RStripConcat(value, pad + note);
    }
  }

  /** The comment is cut and the padding stripped: the value comes back. */
  lemma ShownValue(value: string, pad: string, note: string)
    requires GoodTail(value, pad, note)
    ensures CutComment(Shown(value, pad, note)) == value
  {
    hide RStrip;
    var u := Shown(value, pad, note);
    RStripSolid(value);
    if note == "" {
      FindIs(u, "", |u|);
      assert u[..|u|] == value;
    } else {
      SolidStart(note);
      var n := |value| + |pad|;
      assert u[n] == RStrip(note)[0] && u[n - 1] == pad[|pad| - 1];
      forall k | 0 <= k < n ensures !StopsAt(u, "", k) {
        if k < |value| {
          assert !CommentAt(value, k);
          assert u[k] == value[k] && (k > 0 ==> u[k - 1] == value[k - 1]);
        } else {
          assert u[k] == pad[k - |value|];
        }
      }
      FindIs(u, "", n);
      assert u[..n] == value + pad;
      RStripBlank(value, pad);
    }
  }

  /** Whitespace in front of the value is skipped; the rest is as above. */
  lemma ValueReadBack(lead: string, value: string, pad: string, note: string)
    requires AllSpace(lead) && GoodTail(value, pad, note)
    ensures CutComment(LSkip(RStrip(lead + (value + (pad + note))))) == value
  {
    hide RStrip, LSkip, CutComment;
    var tail := value + (pad + note);
    TailStripped(value, pad, note);
    ShownValue(value, pad, note);
    if value == "" {
      assert lead + tail == "" + (lead + pad);
      RStripBlank("", lead + pad);
      RStripSolid("");
      LSkipBlank("", "");
    } else {
      RStripConcat(lead, tail);
      LSkipBlank(lead, Shown(value, pad, note));
    }
  }

  /** Trailing whitespace does not change what is in front of a comment. */
  lemma CutStripped(s: string)
    ensures CutComment(RStrip(s)) == CutComment(s)
  {
    hide RStrip, Find;
    var r, f := RStrip(s), Find(s, "");
    assert forall k :: 0 <= k < |r| ==> (StopsAt(r, "", k) <==> StopsAt(s, "", k));
    if f < |s| {
      assert StopsAt(s, "", f);
      FindIs(r, "", f);
      assert r[..f] == s[..f];
    } else {
      FindIs(r, "", |r|);
      assert s[..f] == s && r[..|r|] == r;
      RStripSolid(r);
    }
  }

  /** Where the value is missing, the scan for a comment starts at the comment itself. */
  lemma CommentReadBack(lead: string, note: string)
    requires AllSpace(lead) && note != "" && note[0] == ';'
    ensures CutComment(LSkip(RStrip(lead + note))) == CutComment(note) != ""
  {
    hide RStrip, LSkip, Find;
    SolidStart(note);
    RStripConcat(lead, note);
    LSkipBlank(lead, RStrip(note));
    CutStripped(note);
    var f := Find(note, "");
    assert f == 0 ==> StopsAt(note, "", 0);
    SolidStart(note[..f]);
  }

  // ------------------------------------------------------------ one lemma a kind of line

  lemma HeaderReadBack(l: Line, c: Context, indented: bool)
    requires l.Header? && GoodText(l) && (indented ==> c.prevName == "")
    ensures ParseText(RStrip(Text(l)), indented, c) == Meaning(l, c)
  {
    hide RStrip;
    var front := "[" + l.section + "]";
    RStripConcat(front, l.trail);
    var text := front + RStrip(l.trail);
    var n := |l.section|;
    assert forall k :: 0 <= k < n ==> text[1..][k] == l.section[k];
    forall k | 0 <= k < n ensures !StopsAt(text[1..], "]", k) {
      assert !CommentAt(l.section, k);
    }
    assert text[1..][n] == ']';
    FindIs(text[1..], "]", n);
    assert text[1..1 + n] == l.section;
  }

  /** The pair branch on a text whose parts are known. */
  lemma PairParsed(text: string, sep: nat, name: string, value: string, indented: bool, c: Context)
    requires sep < |text| && text[sep] in "=:" && Find(text, "=:") == sep
    requires text[0] != '[' && text[0] != ';' && text[0] != '#' && (indented ==> c.prevName == "")
    requires RStrip(text[..sep]) == name && CutComment(LSkip(text[sep + 1..])) == value
    ensures ParseText(text, indented, c) == (Emit(Event(c.section, name, value)), Context(c.section, Trunc(name)))
  {
    hide RStrip, CutComment, LSkip, Find, Trunc;
  }

  /** Whatever stands behind the separator, the name comes back. */
  lemma FrontReadBack(l: Line, c: Context, indented: bool)
    requires l.Pair? && GoodFront(l) && (indented ==> c.prevName == "")
    ensures var value := CutComment(LSkip(RStrip(l.after + (l.value + (l.pad + l.note)))));
            ParseText(RStrip(Text(l)), indented, c)
            == (Emit(Event(c.section, l.name, value)), Context(c.section, Trunc(l.name)))
  {
    hide RStrip, CutComment, LSkip, NoComment, AllSpace, ParseText;
    var core := l.name + l.before + [l.sep];
    var rest := l.after + (l.value + (l.pad + l.note));
    assert Text(l) == core + rest;
    RStripConcat(core, rest);
    var text := core + RStrip(rest);
    var n := |l.name| + |l.before|;
    SeparatorFound(l, text);
    assert text[..n] == l.name + l.before && text[n + 1..] == RStrip(rest);
    assert text[0] == if l.name == "" then l.sep else l.name[0];
    RStripBlank(l.name, l.before);
    RStripSolid(l.name);
    PairParsed(text, n, l.name, CutComment(LSkip(RStrip(rest))), indented, c);
  }

  lemma SeparatorFound(l: Line, text: string)
    requires l.Pair? && GoodFront(l)
    requires l.name + l.before + [l.sep] <= text
    ensures Find(text, "=:") == |l.name| + |l.before|
  {
    var n := |l.name| + |l.before|;
    var core := l.name + l.before + [l.sep];
    assert text[..n + 1] == core;
    forall k | 0 <= k < n ensures !StopsAt(text, "=:", k) {
      assert text[k] == core[k] && (k > 0 ==> text[k - 1] == core[k - 1]);
      if k < |l.name| {
        assert !CommentAt(l.name, k);
      } else {
        assert core[k] == l.before[k - |l.name|];
      }
    }
    assert text[n] == core[n] == l.sep;
    FindIs(text, "=:", n);
  }

  lemma MoreReadBack(l: Line, c: Context)
    requires l.More? && GoodText(l) && c.prevName != ""
    ensures ParseText(RStrip(Text(l)), true, c) == Meaning(l, c)
  {
    hide RStrip, CutComment;
    TailStripped(l.value, l.pad, l.note);
    ShownValue(l.value, l.pad, l.note);
    assert Shown(l.value, l.pad, l.note)[0] == l.value[0];
  }

  lemma RemarkReadBack(l: Line, c: Context, indented: bool)
    requires l.Remark? && GoodText(l)
    ensures ParseText(RStrip(Text(l)), indented, c) == Meaning(l, c)
  {
    hide RStrip;
    if l.text == "" {
      RStripSolid("");
    } else {
      SolidStart(l.text);
    }
  }

  lemma JunkReadBack(l: Line, c: Context, indented: bool)
    requires l.Junk? && GoodText(l) && (indented ==> c.prevName == "")
    ensures ParseText(RStrip(Text(l)), indented, c) == Meaning(l, c)
  {
    hide RStrip, Delimited, CutComment, LSkip, Find, Trunc;
    RStripBlank(l.text, l.pad);
    RStripSolid(l.text);
    MalformedExactly(l.text, indented, c);
  }

  lemma TextReadBack(l: Line, c: Context, indented: bool)
    requires GoodLine(l, c)
    requires if l.More? then indented else indented && !l.Remark? ==> c.prevName == ""
    ensures ParseText(RStrip(Text(l)), indented, c) == Meaning(l, c)
  {
    hide RStrip, ParseText, Text, Meaning;
    match l
    case Header(_, _, _) => HeaderReadBack(l, c, indented);
    case Pair(_, _, _, _, _, _, _, _) => PairReadBack(l, c, indented);
    case More(_, _, _, _) => MoreReadBack(l, c);
    case Remark(_, _) => RemarkReadBack(l, c, indented);
    case Junk(_, _, _) => JunkReadBack(l, c, indented);
  }

  lemma PairReadBack(l: Line, c: Context, indented: bool)
    requires l.Pair? && GoodText(l) && (indented ==> c.prevName == "")
    ensures ParseText(RStrip(Text(l)), indented, c) == Meaning(l, c)
  {
    hide RStrip, ParseText, Text, LSkip, CutComment, NoComment, AllSpace;
    FrontReadBack(l, c, indented);
    ValueReadBack(l.after, l.value, l.pad, l.note);
  }

  // ------------------------------------------------------------ the line as fgets returns it

  predicate StartsSolid(s: string) {
    s != "" ==> !IsSpace(s[0])
  }

  lemma TextIsSolid(l: Line)
    requires GoodText(l)
    ensures StartsSolid(Text(l))
  {
    hide NoComment, AllSpace;
  }

  /** Trimming a line leaves its trimmed text and finds the indentation. */
  lemma Trimmed(indent: string, text: string, eol: string)
    requires AllSpace(indent) && AllSpace(eol) && StartsSolid(text)
    ensures var body := RStrip(indent + text + eol);
            && LSkip(body) == RStrip(text)
            && (text != "" ==> Blanks(body) == |indent|)
  {
    hide RStrip, LSkip, Blanks;
    RStripBlank(indent + text, eol);
    if text == "" {
      assert indent + text == "" + indent;
      RStripBlank("", indent);
      RStripSolid("");
      LSkipBlank("", "");
    } else {
      SolidStart(text);
      RStripConcat(indent, text);
      LSkipBlank(indent, RStrip(text));
    }
  }

  lemma NotEmpty(l: Line)
    requires GoodText(l) && !l.Remark?
    ensures Text(l) != ""
  {
    hide NoComment, AllSpace;
  }

  lemma NoMark(s: string, eol: string)
    requires AllSpace(eol) && !HasBom(s)
    ensures !HasBom(s + eol)
  {
    var t := s + eol;
    assert forall k :: |s| <= k < |t| ==> t[k] == eol[k - |s|];
    assert forall k :: 0 <= k < |s| ==> t[k] == s[k];
  }

  /** Every layout of every line, whatever whitespace or line end follows it, reads back as
      what the line says. */
  lemma LineReadBack(first: bool, l: Line, eol: string, c: Context)
    requires GoodLine(l, c) && AllSpace(eol) && (first ==> !(BOM <= Body(l)))
    ensures ParseLine(first, Body(l) + eol, c) == Meaning(l, c)
  {
    hide ParseText, RStrip, Text, Meaning, LSkip, HasBom, GoodText;
    var raw := Body(l) + eol;
    if first {
      NoMark(Body(l), eol);
    }
    TextIsSolid(l);
    Trimmed(l.indent, Text(l), eol);
    if !l.Remark? {
      NotEmpty(l);
    }
    TextReadBack(l, c, Blanks(RStrip(raw)) > 0);
  }

  /** A byte-order mark in front of the first line changes nothing. */
  lemma FirstLineReadBack(l: Line, eol: string)
    requires GoodLine(l, START) && AllSpace(eol)
    ensures ParseLine(true, BOM + (Body(l) + eol), START) == Meaning(l, START)
  {
    hide ParseText, RStrip, Text, Meaning, LSkip, GoodText;
    var raw := BOM + (Body(l) + eol);
    assert raw[3..] == Body(l) + eol && raw[0] == BOM[0] && raw[1] == BOM[1] && raw[2] == BOM[2];
    TextIsSolid(l);
    Trimmed(l.indent, Text(l), eol);
    TextReadBack(l, START, true);
  }

  /** A setting with an inline comment behind whitespace: the handler is given the written
      value if and only if there is one.  An empty value gives it the comment instead, up to
      an inner comment, because the scan for comments starts afresh at the comment's ';'. */
  lemma ValueKeptIff(first: bool, l: Line, eol: string, c: Context)
    requires l.Pair? && GoodIndent(l, c) && GoodFront(l) && AllSpace(eol) && (first ==> !(BOM <= Body(l)))
    requires Stripped(l.value) && NoComment(l.value)
    requires l.pad != "" && AllSpace(l.pad) && l.note != "" && l.note[0] == ';'
    ensures var r := ParseLine(first, Body(l) + eol, c).0;
            && r.Emit? && r.event.section == c.section && r.event.name == l.name
            && (r.event.value == l.value <==> l.value != "")
            && (l.value == "" ==> r.event.value == CutComment(l.note))
  {
    hide ParseLine, Body, NoComment, Stripped, AllSpace, CutComment, HasBom;
    if l.value != "" {
      assert GoodTail(l.value, l.pad, l.note);
      LineReadBack(first, l, eol, c);
    } else {
      EmptyValueLine(first, l, eol, c);
    }
  }

  lemma EmptyValueLine(first: bool, l: Line, eol: string, c: Context)
    requires l.Pair? && GoodIndent(l, c) && GoodFront(l) && AllSpace(eol) && (first ==> !(BOM <= Body(l)))
    requires l.value == "" && AllSpace(l.pad) && l.note != "" && l.note[0] == ';'
    ensures ParseLine(first, Body(l) + eol, c).0 == Emit(Event(c.section, l.name, CutComment(l.note)))
    ensures CutComment(l.note) != ""
  {
    hide RStrip, LSkip, CutComment, ParseText, NoComment, HasBom;
    if first {
      NoMark(Body(l), eol);
    }
    assert l.after + (l.value + (l.pad + l.note)) == (l.after + l.pad) + l.note;
    CommentReadBack(l.after + l.pad, l.note);
    Trimmed(l.indent, Text(l), eol);
    FrontReadBack(l, c, Blanks(RStrip(Body(l) + eol)) > 0);
  }
}
