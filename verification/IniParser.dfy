/** ini_parse_stream as the C code runs it (config_reader.h): one line buffer that is
    edited in place and two 50-byte buffers that live across lines, proved to behave as
    the line grammar. */
module IniParser {
  import opened CStrings
  import opened IniGrammar

  /** The three C arrays hold `raw` and the context `c`. */
  ghost predicate Holds(section: array<char>, prevName: array<char>, c: Context)
    reads section, prevName
  {
    && section.Length == MAX_SECTION && prevName.Length == MAX_NAME
    && StringAt(section, 0, c.section)
    && StringAt(prevName, 0, c.prevName)
  }

  /** The `start` pointer after the byte-order-mark test, `rstrip` and `lskip`. */
  method TrimLine(line: array<char>, first: bool, ghost raw: string)
    returns (start: nat, indented: bool, ghost text: string)
    requires StringAt(line, 0, raw) && line.Length == MAX_LINE
    modifies line
    ensures var bom := first && HasBom(raw);
            var body := RStrip(if bom then raw[3..] else raw);
            && text == LSkip(body)
            && indented == (bom || Blanks(body) > 0)
    ensures StringAt(line, start, text)
  {
    start := 0;
    text := raw;
    if first && line[0] == '\U{EF}' && line[1] == '\U{BB}' && line[2] == '\U{BF}' {
      start := 3;
      text := raw[3..];
    }
    RStripInPlace(line, start, text);
    start := LSkipFrom(line, start, RStrip(text));
    text := LSkip(RStrip(text));
    indented := start > 0;
  }

  /** Writes a NUL at `end`, which cuts the string at `start` there. */
  method CutAt(line: array<char>, start: nat, end: nat, ghost text: string)
    requires StringAt(line, start, text) && start <= end <= start + |text|
    modifies line
    ensures forall k :: 0 <= k < line.Length && k != end ==> line[k] == old(line[k])
    ensures StringAt(line, start, text[..end - start])
    ensures end < start + |text| ==> StringAt(line, end + 1, text[end - start + 1..])
  {
    if end < start + |text| {
    }
    line[end] := NUL;
  }

  /** `end = find_chars_or_comment(s, NULL); if (*end) *end = 0; rstrip(s);` */
  method CutCommentInPlace(line: array<char>, s: nat, ghost text: string)
    requires StringAt(line, s, text)
    modifies line
    ensures StringAt(line, s, CutComment(text))
    ensures forall k :: 0 <= k < s ==> line[k] == old(line[k])
  {
    var end := FindCharsOrComment(line, s, "", text);
    if line[end] != NUL {
      CutAt(line, s, end, text);
    }
    assert text[..end - s] == text[..Find(text, "")];
    RStripInPlace(line, s, text[..Find(text, "")]);
  }

  /** The `name[=:]value` branch.  Name and value are two strings in one buffer: the name is
      stripped before the value is cut, and both are still intact when the handler reads them. */
  method ParsePair(line: array<char>, section: array<char>, prevName: array<char>, start: nat, sep: nat,
                   ghost text: string, ghost c: Context)
    returns (e: Event)
    requires line != section && line != prevName && section != prevName
    requires StringAt(line, start, text) && Holds(section, prevName, c)
    requires start <= sep < start + |text|
    modifies line, prevName
    ensures var name := RStrip(text[..sep - start]);
            && e == Event(c.section, name, CutComment(LSkip(text[sep - start + 1..])))
            && Holds(section, prevName, Context(c.section, Trunc(name)))
  {
    CutAt(line, start, sep, text);
    ghost var left, right := text[..sep - start], text[sep - start + 1..];
    RStripInPlace(line, start, left);
    var value := LSkipFrom(line, sep + 1, right);
    CutCommentInPlace(line, value, LSkip(right));
    StrNCpy0(prevName, line, start, RStrip(left));
    var s := ReadString(section, 0, c.section);
    var n := ReadString(line, start, RStrip(left));
    var v := ReadString(line, value, CutComment(LSkip(right)));
    e := Event(s, n, v);
  }

  /** The continuation branch: the event repeats the name kept in `prev_name`. */
  method ParseContinuation(line: array<char>, section: array<char>, prevName: array<char>, start: nat,
                           ghost text: string, ghost c: Context)
    returns (e: Event)
    requires line != section && line != prevName && section != prevName
    requires StringAt(line, start, text) && Holds(section, prevName, c)
    modifies line
    ensures e == Event(c.section, c.prevName, CutComment(text))
  {
    CutCommentInPlace(line, start, text);
    var s := ReadString(section, 0, c.section);
    var n := ReadString(prevName, 0, c.prevName);
    var v := ReadString(line, start, CutComment(text));
    e := Event(s, n, v);
  }

  /** The `[section]` branch. */
  method ParseHeader(line: array<char>, section: array<char>, prevName: array<char>, start: nat,
                     ghost text: string, ghost c: Context)
    returns (ok: bool)
    requires line != section && line != prevName && section != prevName
    requires StringAt(line, start, text) && Holds(section, prevName, c)
    requires text != ""
    modifies line, section, prevName
    ensures var close := 1 + Find(text[1..], "]");
            && ok == (close < |text| && text[close] == ']')
            && Holds(section, prevName, if ok then Context(Trunc(text[1..close]), "") else c)
  {
    var end := FindCharsOrComment(line, start + 1, "]", text[1..]);
    ok := line[end] == ']';
    if ok {
      CutAt(line, start + 1, end, text[1..]);
      ghost var name := text[1..end - start];
      assert text[1..][..end - start - 1] == name;
      StrNCpy0(section, line, start + 1, name);
      prevName[0] := NUL;
    }
  }

  /** One iteration of the loop, up to the handler call. */
  method ParseLineInPlace(line: array<char>, section: array<char>, prevName: array<char>, first: bool,
                          ghost raw: string, ghost c: Context)
    returns (r: LineResult)
    requires line != section && line != prevName && section != prevName
    requires line.Length == MAX_LINE
    requires StringAt(line, 0, raw) && Holds(section, prevName, c)
    modifies line, section, prevName
    ensures r == ParseLine(first, raw, c).0
    ensures Holds(section, prevName, ParseLine(first, raw, c).1)
  {
    var start, indented;
    ghost var text;
    start, indented, text := TrimLine(line, first, raw);
    r := ParseTextInPlace(line, section, prevName, start, indented, text, c);
  }

  method ParseTextInPlace(line: array<char>, section: array<char>, prevName: array<char>,
                          start: nat, indented: bool, ghost text: string, ghost c: Context)
    returns (r: LineResult)
    requires line != section && line != prevName && section != prevName
    requires StringAt(line, start, text) && Holds(section, prevName, c)
    modifies line, section, prevName
    ensures r == ParseText(text, indented, c).0
    ensures Holds(section, prevName, ParseText(text, indented, c).1)
  {
    hide RStrip, Blanks, LSkip, CutComment, Find, StopsAt, Trunc;
    r := Quiet;
    CharAt(line, start, text, 0);
    CharAt(prevName, 0, c.prevName, 0);
    if line[start] == ';' || line[start] == '#' {
      // a comment line
    } else if prevName[0] != NUL && line[start] != NUL && indented {
      var e := ParseContinuation(line, section, prevName, start, text, c);
      r := Emit(e);
    } else if line[start] == '[' {
      var ok := ParseHeader(line, section, prevName, start, text, c);
      r := if ok then Quiet else Malformed;
    } else if line[start] != NUL {
      var end := FindCharsOrComment(line, start, "=:", text);
      CharAt(line, start, text, end - start);
      if line[end] == '=' || line[end] == ':' {
        var e := ParsePair(line, section, prevName, start, end, text, c);
        r := Emit(e);
      } else {
        r := Malformed;
      }
    }
  }

  /** `fgets(line, 200, stream)` on a stream positioned at `pos`. */
  method Fgets(text: string, pos: nat, line: array<char>) returns (next: nat)
    requires pos < |text| && line.Length == MAX_LINE
    modifies line
    ensures next == pos + ChunkLen(text[pos..])
    ensures StringAt(line, 0, UpToNul(text[pos..next]))
  {
    hide ChunkLen, UpToNul, StringAt;
    ghost var len := ChunkLen(text[pos..]);
    var n := 0;
    while n < MAX_LINE - 1 && pos + n < |text| && (n == 0 || text[pos + n - 1] != '\n')
      invariant n <= len
      invariant forall k :: 0 <= k < n ==> line[k] == text[pos + k]
    {
      line[n] := text[pos + n];
      n := n + 1;
    }
    line[n] := NUL;
    next := pos + n;
    UpToNulHeld(line, text[pos..next]);
  }

  lemma UpToNulHeld(line: array<char>, chunk: string)
    requires |chunk| < line.Length && line[|chunk|] == NUL
    requires forall k :: 0 <= k < |chunk| ==> line[k] == chunk[k]
    ensures StringAt(line, 0, UpToNul(chunk))
  {
    assert UpToNul(chunk) <= chunk;
  }
}
