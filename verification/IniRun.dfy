/** What a whole parse reports: which events reach the handler, what the return value is,
    and how two files read in one stream relate to the files read apart. */
module IniRun {
  import opened CStrings
  import opened IniGrammar

  /** The context in front of line |lines|; it does not depend on the handler. */
  function ContextAfter(lines: seq<string>): Context {
    if lines == [] then START
    else ParseLine(|lines| == 1, lines[|lines| - 1], ContextAfter(lines[..|lines| - 1])).1
  }

  function ResultAt(lines: seq<string>, i: nat): LineResult
    requires i < |lines|
  {
    ParseLine(i == 0, lines[i], ContextAfter(lines[..i])).0
  }

  /** The events of all well-formed lines, in order. */
  function Events(lines: seq<string>): seq<Event> {
    if lines == [] then []
    else
      var r := ResultAt(lines, |lines| - 1);
      Events(lines[..|lines| - 1]) + if r.Emit? then [r.event] else []
  }

  function Feed<H>(events: seq<Event>, h: Handler<H>, user: H): H {
    if events == [] then user else h(Feed(events[..|events| - 1], h, user), events[|events| - 1]).0
  }

  /** Line i (from 0) is malformed, or its handler call fails. */
  predicate LineFails<H>(lines: seq<string>, i: nat, h: Handler<H>, user: H)
    requires i < |lines|
  {
    match ResultAt(lines, i)
    case Quiet => false
    case Malformed => true
    case Emit(e) => !h(Feed(Events(lines[..i]), h, user), e).1
  }

  lemma {:induction false} RunUnfolds<H>(lines: seq<string>, h: Handler<H>, user: H)
    ensures Run(lines, h, user).context == ContextAfter(lines)
    ensures Run(lines, h, user).user == Feed(Events(lines), h, user)
  {
    hide ParseLine;
    if lines != [] {
      var n := |lines| - 1;
      RunUnfolds(lines[..n], h, user);
      var r := ResultAt(lines, n);
      if r.Emit? {
        assert Events(lines)[..|Events(lines)| - 1] == Events(lines[..n]);
      } else {
        assert Events(lines) == Events(lines[..n]);
      }
    }
  }

  lemma FailureCounts<H>(lines: seq<string>, h: Handler<H>, user: H)
    requires lines != []
    ensures var n := |lines| - 1;
            var p := Run(lines[..n], h, user);
            Run(lines, h, user).error == if p.error == 0 && LineFails(lines, n, h, user) then n + 1 else p.error
  {
    hide ParseLine;
    RunUnfolds(lines[..|lines| - 1], h, user);
  }

  /** The return value is 0 exactly when no line failed, and otherwise the 1-based number
      of the first line that failed; the handler still sees every well-formed line. */
  lemma {:induction false} ErrorReporting<H>(lines: seq<string>, h: Handler<H>, user: H)
    ensures var p := Run(lines, h, user);
            && p.user == Feed(Events(lines), h, user)
            && p.error <= |lines|
            && (p.error == 0 <==> forall i :: 0 <= i < |lines| ==> !LineFails(lines, i, h, user))
            && (p.error != 0 ==> LineFails(lines, p.error - 1, h, user))
            && (p.error != 0 ==> forall i :: 0 <= i < p.error - 1 ==> !LineFails(lines, i, h, user))
  {
    hide ParseLine;
    RunUnfolds(lines, h, user);
    if lines != [] {
      var n := |lines| - 1;
      var init := lines[..n];
      ErrorReporting(init, h, user);
      RunUnfolds(init, h, user);
      forall i | 0 <= i < n
        ensures LineFails(lines, i, h, user) == LineFails(init, i, h, user)
      {
        assert init[..i] == lines[..i] && init[i] == lines[i];
      }
      FailureCounts(lines, h, user);
    }
  }

  predicate IsDelimiter(header: bool, ch: char) {
    if header then ch == ']' else ch == '=' || ch == ':'
  }

  /** A delimiter of the line stands in front of every inline comment. */
  predicate Delimited(text: string, header: bool) {
    exists k :: 0 <= k < |text| && IsDelimiter(header, text[k]) && forall i :: 0 <= i <= k ==> !CommentAt(text, i)
  }

  lemma DelimiterFound(text: string, stops: string, header: bool)
    requires stops == if header then "]" else "=:"
    ensures var r := Find(text, stops);
            Delimited(text, header) <==> r < |text| && IsDelimiter(header, text[r])
  {
    hide Find;
    var r := Find(text, stops);
    assert forall ch :: ch in stops <==> IsDelimiter(header, ch);
    if r < |text| && IsDelimiter(header, text[r]) {
      forall i | 0 <= i <= r ensures !CommentAt(text, i) {
        assert i < r ==> !StopsAt(text, stops, i);
      }
    }
    if Delimited(text, header) {
      var k :| 0 <= k < |text| && IsDelimiter(header, text[k]) && forall i :: 0 <= i <= k ==> !CommentAt(text, i);
      assert StopsAt(text, stops, k);
    }
  }

  lemma HeaderDelimited(text: string)
    requires text != "" && text[0] == '['
    ensures Delimited(text, true) <==> Delimited(text[1..], true)
  {
    var rest := text[1..];
    assert forall i :: 0 <= i < |rest| ==> rest[i] == text[i + 1];
    assert forall i :: 0 <= i < |rest| ==> (CommentAt(rest, i) <==> CommentAt(text, i + 1));
    if Delimited(text, true) {
      var k :| 0 <= k < |text| && IsDelimiter(true, text[k]) && forall i :: 0 <= i <= k ==> !CommentAt(text, i);
      assert IsDelimiter(true, rest[k - 1]);
      assert forall i :: 0 <= i <= k - 1 ==> !CommentAt(rest, i);
    }
    if Delimited(rest, true) {
      var k :| 0 <= k < |rest| && IsDelimiter(true, rest[k]) && forall i :: 0 <= i <= k ==> !CommentAt(rest, i);
      assert IsDelimiter(true, text[k + 1]);
      forall i | 0 <= i <= k + 1 ensures !CommentAt(text, i) {
        assert i > 0 ==> !CommentAt(rest, i - 1);
      }
    }
  }

  /** When a line is malformed: it is no comment and no continuation, and every delimiter it
      has stands behind an inline comment. */
  lemma MalformedExactly(text: string, indented: bool, c: Context)
    ensures ParseText(text, indented, c).0.Malformed? <==>
            && text != "" && text[0] != ';' && text[0] != '#'
            && !(indented && c.prevName != "")
            && !Delimited(text, text[0] == '[')
  {
    hide Find, Delimited, CutComment, LSkip, RStrip, Trunc;
    if text != "" {
      if text[0] == '[' {
        HeaderDelimited(text);
        DelimiterFound(text[1..], "]", true);
      } else {
        DelimiterFound(text, "=:", false);
      }
    }
  }

  /** A malformed line leaves section and setting as they were, so that the lines behind it
      mean what they would mean without it. */
  lemma MalformedKeeps(first: bool, raw: string, c: Context)
    ensures ParseLine(first, raw, c).0.Malformed? ==> ParseLine(first, raw, c).1 == c
  {
    hide Find, CutComment, LSkip, RStrip, Trunc, Blanks, HasBom;
  }

  /** A section header in column zero that closes before any inline comment. */
  predicate IsHeader(raw: string) {
    && raw != "" && raw[0] == '['
    && var text := RStrip(raw);
       var close := 1 + Find(text[1..], "]");
       close < |text| && text[close] == ']'
  }

  /** Nothing stands in front of a header in column zero. */
  lemma HeaderInFront(raw: string)
    requires raw != "" && raw[0] == '['
    ensures !HasBom(raw) && RStrip(raw) != "" && RStrip(raw)[0] == '['
    ensures Blanks(RStrip(raw)) == 0 && LSkip(RStrip(raw)) == RStrip(raw)
  {
    hide RStrip;
    var text := RStrip(raw);
    assert text != "" && text[0] == raw[0];
    BlanksIs(text, 0);
  }

  lemma HeaderResets(first: bool, raw: string, c: Context)
    requires IsHeader(raw)
    ensures var text := RStrip(raw);
            ParseLine(first, raw, c) == (Quiet, Context(Trunc(text[1..1 + Find(text[1..], "]")]), ""))
  {
    HeaderInFront(raw);
    hide Trunc, CutComment, Find, RStrip, Blanks, LSkip, HasBom;
  }

  lemma {:induction false} ContextComposes(a: seq<string>, b: seq<string>)
    requires b != [] && IsHeader(b[0])
    ensures ContextAfter(a + b) == ContextAfter(b)
  {
    hide ParseLine;
    var n := |b| - 1;
    assert (a + b)[..|a| + n] == a + b[..n];
    if n == 0 {
      HeaderResets(|a| == 0, b[0], ContextAfter(a));
      HeaderResets(true, b[0], START);
    } else {
      ContextComposes(a, b[..n]);
    }
  }

  /** Line i of the second piece means what it means on its own. */
  lemma {:induction false} ResultComposes(a: seq<string>, b: seq<string>, i: nat)
    requires b != [] && IsHeader(b[0]) && i < |b|
    ensures ResultAt(a + b, |a| + i) == ResultAt(b, i)
  {
    assert (a + b)[..|a| + i] == a + b[..i];
    if i == 0 {
      HeaderResets(|a| == 0, b[0], ContextAfter(a + b[..0]));
      HeaderResets(true, b[0], START);
    } else {
      ContextComposes(a, b[..i]);
    }
  }

  lemma {:induction false} EventsCompose(a: seq<string>, b: seq<string>)
    requires b != [] ==> IsHeader(b[0])
    ensures Events(a + b) == Events(a) + Events(b)
  {
    hide ParseLine, IsHeader;
    if b == [] {
      assert a + b == a;
    } else {
      var n := |b| - 1;
      assert (a + b)[..|a| + n] == a + b[..n];
      EventsCompose(a, b[..n]);
      ResultComposes(a, b, n);
    }
  }

  /** `r` has run over A ++ B, `q` over B after A ended with error `e` at length `la`. */
  predicate Joined<H(==)>(e: nat, la: nat, q: Parse<H>, r: Parse<H>) {
    && r.user == q.user
    && r.error == if e != 0 then e else if q.error != 0 then la + q.error else 0
  }

  lemma StepComposes<H>(e: nat, la: nat, lb: nat, q: Parse<H>, r: Parse<H>, raw: string, h: Handler<H>)
    requires Joined(e, la, q, r)
    requires ParseLine(la + lb == 0, raw, r.context).0 == ParseLine(lb == 0, raw, q.context).0
    ensures Joined(e, la, StepLine(q, lb + 1, raw, h), StepLine(r, la + lb + 1, raw, h))
  {
    hide ParseLine;
  }

  /** Reading A then B in one stream, where B opens with a section header: the events are
      those of A followed by those of B, and the error is A's, else B's shifted by |A|. */
  lemma {:induction false} ParserComposes<H>(a: seq<string>, b: seq<string>, h: Handler<H>, user: H)
    requires b != [] ==> IsHeader(b[0])
    ensures Events(a + b) == Events(a) + Events(b)
    ensures var p := Run(a, h, user);
            Joined(p.error, |a|, Run(b, h, p.user), Run(a + b, h, user))
  {
    hide ParseLine, Events, IsHeader;
    EventsCompose(a, b);
    var p := Run(a, h, user);
    if b == [] {
      assert a + b == a;
    } else {
      var n := |b| - 1;
      assert (a + b)[..|a| + n] == a + b[..n];
      ParserComposes(a, b[..n], h, user);
      ResultComposes(a, b, n);
      RunUnfolds(a + b[..n], h, user);
      RunUnfolds(b[..n], h, p.user);
      StepComposes(p.error, |a|, n, Run(b[..n], h, p.user), Run(a + b[..n], h, user), b[n], h);
    }
  }
}
