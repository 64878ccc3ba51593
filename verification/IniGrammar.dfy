/** The line grammar of ini_parse_stream (config_reader.h) and its run over a stream.

    A parse is a fold over the chunks `fgets` returns.  The grammar is a function of
    one chunk and of the two buffers the parser keeps between lines. */
module IniGrammar {
  import opened CStrings

  const MAX_LINE := 200
  const MAX_SECTION := 50
  const MAX_NAME := 50

  datatype Event = Event(section: string, name: string, value: string)

  /** What survives from one line to the next: the `section` and `prev_name` buffers. */
  datatype Context = Context(section: string, prevName: string)

  const START := Context("", "")

  datatype LineResult = Quiet | Emit(event: Event) | Malformed

  /** `strncpy0` into the section or the prev_name buffer keeps 49 characters. */
  function Trunc(s: string): (r: string)
    ensures |s| < MAX_NAME ==> r == s
    ensures |s| >= MAX_NAME ==> r <= s && |r| == MAX_NAME - 1
  {
    s[..Min(|s|, MAX_NAME - 1)]
  }

  const BOM := "\U{EF}\U{BB}\U{BF}"

  predicate HasBom(s: string): (b: bool)
    ensures b <==> BOM <= s
  {
    |s| >= 3 && s[0] == '\U{EF}' && s[1] == '\U{BB}' && s[2] == '\U{BF}'
  }

  /** A value ends before an inline comment and carries no trailing whitespace. */
  function CutComment(s: string): string {
    RStrip(s[..Find(s, "")])
  }

  function ParseLine(first: bool, raw: string, c: Context): (LineResult, Context) {
    var bom := first && HasBom(raw);
    var body := RStrip(if bom then raw[3..] else raw);
    ParseText(LSkip(body), bom || Blanks(body) > 0, c)
  }

  /** A line without the whitespace around it; `indented` says some stood, or a byte-order
      mark stood, in front of it. */
  function ParseText(text: string, indented: bool, c: Context): (LineResult, Context) {
    if text == "" || text[0] == ';' || text[0] == '#' then
      (Quiet, c)
    else if c.prevName != "" && indented then
      (Emit(Event(c.section, c.prevName, CutComment(text))), c)
    else if text[0] == '[' then
      var close := 1 + Find(text[1..], "]");
      if close < |text| && text[close] == ']' then
        (Quiet, Context(Trunc(text[1..close]), ""))
      else
        (Malformed, c)
    else
      var sep := Find(text, "=:");
      if sep < |text| && text[sep] in "=:" then
        var name := RStrip(text[..sep]);
        (Emit(Event(c.section, name, CutComment(LSkip(text[sep + 1..])))), Context(c.section, Trunc(name)))
      else
        (Malformed, c)
  }

  // ------------------------------------------------------------ the stream

  /** Length of the next `fgets(line, 200, stream)`: through the newline, at most 199. */
  function ChunkLen(text: string): (n: nat)
    requires text != ""
    ensures 0 < n <= |text| && n < MAX_LINE
    ensures forall k :: 0 <= k < n - 1 ==> text[k] != '\n'
    ensures n < |text| && n < MAX_LINE - 1 ==> text[n - 1] == '\n'
  {
    ChunkLenFrom(text, 0)
  }

  function ChunkLenFrom(text: string, from: nat): (n: nat)
    requires from < |text| && from < MAX_LINE - 1
    ensures from < n <= |text| && n < MAX_LINE
    ensures forall k :: from <= k < n - 1 ==> text[k] != '\n'
    ensures n < |text| && n < MAX_LINE - 1 ==> text[n - 1] == '\n'
    decreases MAX_LINE - from
  {
    if text[from] == '\n' || from + 1 == |text| || from + 1 == MAX_LINE - 1 then from + 1
    else ChunkLenFrom(text, from + 1)
  }

  /** All chunks of a stream.  A NUL inside a chunk hides the rest of it from the parser. */
  function Chunks(text: string): seq<string> {
    if text == "" then [] else [UpToNul(text[..ChunkLen(text)])] + Chunks(text[ChunkLen(text)..])
  }

  // ------------------------------------------------------------ the run

  /** A handler maps its user state and an event to the new state and a success flag. */
  type Handler<!H> = (H, Event) -> (H, bool)

  datatype Parse<H> = Parse(context: Context, error: nat, user: H)

  function Init<H>(user: H): Parse<H> {
    Parse(START, 0, user)
  }

  /** The end of an iteration: call the handler on an event, note the first failing line. */
  function Report<H>(p: Parse<H>, lineno: nat, r: LineResult, h: Handler<H>): Parse<H> {
    match r
    case Quiet => p
    case Malformed => p.(error := if p.error == 0 then lineno else p.error)
    case Emit(e) =>
      var (u, ok) := h(p.user, e);
      p.(user := u, error := if !ok && p.error == 0 then lineno else p.error)
  }

  /** One trip round the loop; `lineno` is already incremented. */
  function StepLine<H>(p: Parse<H>, lineno: nat, raw: string, h: Handler<H>): Parse<H> {
    var (r, c) := ParseLine(lineno == 1, raw, p.context);
    Report(p, lineno, r, h).(context := c)
  }

  function Run<H>(lines: seq<string>, h: Handler<H>, user: H): Parse<H> {
    if lines == [] then Init(user)
    else StepLine(Run(lines[..|lines| - 1], h, user), |lines|, lines[|lines| - 1], h)
  }
}
