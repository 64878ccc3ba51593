/** The layouts of IniLines leave nothing out: every string is one of them, in every context, so
    that what they mean is what the parser does on any input. */
module IniComplete {
  import opened CStrings
  import opened IniGrammar
  import opened IniRun
  import opened IniLines

  lemma PrefixComments(p: string, s: string)
    requires p <= s && NoComment(s)
    ensures NoComment(p)
  {
    assert forall k :: 0 <= k < |p| ==> (CommentAt(p, k) <==> CommentAt(s, k));
  }

  /** In front of what Find stops at there is no comment. */
  lemma NothingFound(text: string, stops: string, r: nat)
    requires Find(text, stops) == r
    ensures r <= |text| && NoComment(text[..r]) && forall k :: 0 <= k < r ==> text[k] !in stops
  {
    hide Find;
    forall k | 0 <= k < r ensures text[k] !in stops && !CommentAt(text[..r], k) {
      assert !StopsAt(text, stops, k);
    }
  }

  /** The padding in front of a comment. */
  lemma Padding(front: string, value: string, pad: string)
    requires front != "" && !IsSpace(front[0]) && IsSpace(front[|front| - 1])
    requires value == RStrip(front) && front == value + pad
    ensures value != "" && Stripped(value) && pad != "" && AllSpace(pad)
  {
    hide RStrip;
    assert forall k :: 0 <= k < |pad| ==> pad[k] == front[|value| + k];
    assert value != "" ==> value[0] == front[0];
  }

  lemma SplitComment(v: string, f: nat) returns (value: string, pad: string, note: string)
    requires Stripped(v) && v != "" && f < |v| && CommentAt(v, f) && NoComment(v[..f])
    ensures v == value + (pad + note) && GoodTail(value, pad, note)
  {
    hide RStrip, NoComment, AllSpace;
    var front := v[..f];
    value := RStrip(front);
    pad, note := front[|value|..], v[f..];
    assert front == value + pad;
    Padding(front, value, pad);
    PrefixComments(value, front);
    assert v == value + (pad + note);
  }

  /** What stands behind a separator or an indentation is a value, padding and a comment. */
  lemma SplitTail(v: string) returns (value: string, pad: string, note: string)
    requires Stripped(v)
    ensures v == value + (pad + note) && GoodTail(value, pad, note)
  {
    hide Find, NoComment, AllSpace;
    var f := Find(v, "");
    NothingFound(v, "", f);
    if f == |v| {
      value, pad, note := v, "", "";
      assert v == v + ("" + "") && v[..f] == v;
      EmptyIsBlank();
    } else {
      assert StopsAt(v, "", f);
      hide GoodTail, Stripped;
      value, pad, note := SplitComment(v, f);
    }
  }

  /** A text with its indentation, and the part of a line that is neither. */
  lemma SplitLine(raw: string) returns (indent: string, text: string, eol: string)
    ensures raw == indent + text + eol
    ensures AllSpace(indent) && Stripped(text) && AllSpace(eol)
  {
    hide RStrip, Blanks;
    var body := RStrip(raw);
    var b := Blanks(body);
    indent, text, eol := body[..b], body[b..], raw[|body|..];
    assert raw == body + eol && body == indent + text;
    assert text != "" ==> text[|text| - 1] == body[|body| - 1];
  }

  lemma MoreLayout(indent: string, text: string, c: Context) returns (l: Line)
    requires AllSpace(indent) && indent != "" && c.prevName != ""
    requires text != "" && Stripped(text) && text[0] != ';' && text[0] != '#'
    ensures GoodLine(l, c) && Body(l) == indent + text
  {
    var value, pad, note := SplitTail(text);
    l := More(indent, value, pad, note);
    assert value == "" ==> text == pad;
    assert value != "" ==> value[0] == text[0];
  }

  lemma HeaderLayout(indent: string, text: string, c: Context) returns (l: Line)
    requires AllSpace(indent) && (indent != "" ==> c.prevName == "")
    requires text != "" && text[0] == '[' && Delimited(text, true)
    ensures GoodLine(l, c) && Body(l) == indent + text
  {
    hide Find, Delimited;
    HeaderDelimited(text);
    var rest := text[1..];
    DelimiterFound(rest, "]", true);
    var r := Find(rest, "]");
    var section := rest[..r];
    l := Header(indent, section, rest[r + 1..]);
    forall k | 0 <= k < r ensures section[k] != ']' && !CommentAt(section, k) {
      assert !StopsAt(rest, "]", k);
    }
    assert "[" + section + "]" + rest[r + 1..] == text;
  }

  lemma SplitRest(rest: string) returns (after: string, value: string, pad: string, note: string)
    requires rest != "" ==> !IsSpace(rest[|rest| - 1])
    ensures rest == after + (value + (pad + note)) && AllSpace(after) && GoodTail(value, pad, note)
  {
    hide Blanks, GoodTail;
    var b := Blanks(rest);
    after := rest[..b];
    value, pad, note := SplitTail(rest[b..]);
    assert rest == after + rest[b..];
  }

  lemma PairLayout(indent: string, text: string, c: Context) returns (l: Line)
    requires AllSpace(indent) && (indent != "" ==> c.prevName == "")
    requires text != "" && Stripped(text) && text[0] != '[' && text[0] != ';' && text[0] != '#'
    requires Delimited(text, false)
    ensures GoodLine(l, c) && Body(l) == indent + text
  {
    hide Find, Delimited, RStrip, AllSpace, GoodTail, GoodFront;
    DelimiterFound(text, "=:", false);
    var r := Find(text, "=:");
    var rest := text[r + 1..];
    assert rest != "" ==> rest[|rest| - 1] == text[|text| - 1];
    var after, value, pad, note := SplitRest(rest);
    var name := RStrip(text[..r]);
    l := Pair(indent, name, text[|name|..r], text[r], after, value, pad, note);
    FrontLayout(l, text, r);
    PairText(l, text, r, rest);
  }

  lemma PairText(l: Line, text: string, r: nat, rest: string)
    requires l.Pair? && r < |text| && l.name <= text[..r] && l.before == text[|l.name|..r] && l.sep == text[r]
    requires rest == text[r + 1..] == l.after + (l.value + (l.pad + l.note))
    ensures Text(l) == text
  {
    assert text[..r] == l.name + l.before;
    assert text == text[..r] + [text[r]] + rest;
  }

  /** The text before the first delimiter is a name and whitespace. */
  lemma FrontLayout(l: Line, text: string, r: nat)
    requires r < |text| && Stripped(text) && text[0] != '[' && text[0] != ';' && text[0] != '#'
    requires Find(text, "=:") == r && IsDelimiter(false, text[r])
    requires l.Pair? && l.name == RStrip(text[..r]) && l.before == text[|l.name|..r] && l.sep == text[r]
    requires AllSpace(l.after)
    ensures GoodFront(l)
  {
    hide RStrip, Find, NoComment;
    var front, name := text[..r], l.name;
    NothingFound(text, "=:", r);
    assert name == front[..|name|] && (r > 0 ==> front[0] == text[0]);
    assert forall k :: 0 <= k < |l.before| ==> l.before[k] == front[|name| + k];
    assert forall k :: 0 <= k < |name| ==> name[k] == front[k];
    PrefixComments(name, front);
  }

  /** Every string is a good line in every context, with some whitespace behind it. */
  lemma EveryLine(raw: string, c: Context) returns (l: Line, eol: string)
    ensures GoodLine(l, c) && AllSpace(eol) && raw == Body(l) + eol
  {
    hide AllSpace, Stripped, Delimited, NoComment;
    var indent, text, end := SplitLine(raw);
    eol := end;
    if text == "" || text[0] == ';' || text[0] == '#' {
      l := Remark(indent, text);
    } else if c.prevName != "" && indent != "" {
      l := MoreLayout(indent, text, c);
    } else if !Delimited(text, text[0] == '[') {
      l := Junk(indent, text, "");
      EmptyIsBlank();
      assert text + "" == text;
    } else if text[0] == '[' {
      l := HeaderLayout(indent, text, c);
    } else {
      l := PairLayout(indent, text, c);
    }
  }

  lemma EmptyIsBlank()
    ensures AllSpace("")
  {}
}
