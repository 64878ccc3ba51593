/** The ConfigReader class of config_reader.h: the map that ValueHandler builds from the
    events of a parse, and what a lookup in it returns. */
module ConfigReaders {
  import opened CStrings
  import opened IniGrammar
  import opened IniRun
  import opened IniParser

  // ------------------------------------------------------------ keys

  /** `tolower` of the "C" locale. */
  function ToLower(c: char): char {
    if 'A' <= c <= 'Z' then (c as int + 32) as char else c
  }

  function Lower(s: string): (r: string)
    ensures |r| == |s|
    ensures forall k :: 0 <= k < |s| ==> r[k] == ToLower(s[k])
  {
    seq(|s|, k requires 0 <= k < |s| => ToLower(s[k]))
  }

  function MakeKey(section: string, name: string): string {
    Lower(section + "=" + name)
  }

  /** The same letter, perhaps in the other case: 'A'..'Z' and 'a'..'z' are 32 apart. */
  predicate SameLetter(c: char, d: char) {
    || c == d
    || ('A' <= c <= 'Z' && d as int - c as int == 32)
    || ('a' <= c <= 'z' && c as int - d as int == 32)
  }

  /** Two strings that agree up to ASCII case. */
  predicate SameUpToCase(s: string, t: string) {
    |s| == |t| && forall k :: 0 <= k < |s| ==> SameLetter(s[k], t[k])
  }

  lemma SameIffLower(s: string, t: string)
    ensures SameUpToCase(s, t) <==> Lower(s) == Lower(t)
  {
    if Lower(s) == Lower(t) {
      forall k | 0 <= k < |s| ensures SameLetter(s[k], t[k]) {
        assert Lower(s)[k] == Lower(t)[k];
      }
    }
  }

  /** When neither name holds an '=', a key determines section and name up to case: the last
      '=' of the key is the separator, whatever the sections contain. */
  lemma {:induction false} KeyUnambiguous(s: string, n: string, s': string, n': string)
    requires '=' !in n && '=' !in n'
    ensures MakeKey(s, n) == MakeKey(s', n') <==> SameUpToCase(s, s') && SameUpToCase(n, n')
  {
    hide MakeKey, Lower, SameUpToCase;
    SameIffLower(s, s');
    SameIffLower(n, n');
    KeyParts(s, n);
    KeyParts(s', n');
    SeparatorIsLast(s, n);
    SeparatorIsLast(s', n');
  }

  lemma KeyParts(s: string, n: string)
    ensures MakeKey(s, n) == Lower(s) + "=" + Lower(n)
    ensures MakeKey(s, n)[..|s|] == Lower(s) && MakeKey(s, n)[|s| + 1..] == Lower(n)
  {
    assert MakeKey(s, n) == Lower(s) + "=" + Lower(n);
  }

  lemma SeparatorIsLast(s: string, n: string)
    requires '=' !in n
    ensures var key := MakeKey(s, n);
            && |key| == |s| + 1 + |n| && key[|s|] == '='
            && forall k :: |s| < k < |key| ==> key[k] != '='
  {
    var plain := s + "=" + n;
    assert forall k :: |s| < k < |plain| ==> plain[k] == n[k - |s| - 1];
  }

  /** The key of `section` and `name` is the key of no other setting, case aside. */
  ghost predicate OwnKey(section: string, name: string) {
    forall s, n :: '=' !in n && MakeKey(s, n) == MakeKey(section, name)
      ==> SameUpToCase(s, section) && SameUpToCase(n, name)
  }

  /** Which names may be looked up safely: those without '='. */
  lemma OwnKeyIff(section: string, name: string)
    ensures OwnKey(section, name) <==> '=' !in name
  {
    if '=' in name {
      var (s, n) := Addressed(section, name);
      assert !SameUpToCase(s, section);
    } else {
      forall s, n | '=' !in n && MakeKey(s, n) == MakeKey(section, name)
        ensures SameUpToCase(s, section) && SameUpToCase(n, name)
      {
        KeyUnambiguous(s, n, section, name);
      }
    }
  }

  /** The setting whose key is looked up: it is named after the last '=', in the section that
      holds all before it. */
  function Addressed(section: string, name: string): (r: (string, string))
    ensures '=' !in r.1 && MakeKey(r.0, r.1) == MakeKey(section, name)
    ensures if '=' in name then |r.0| > |section| else r == (section, name)
  {
    if '=' !in name then (section, name)
    else
      var k := LastEquals(name);
      var r := (section + "=" + name[..k], name[k + 1..]);
      assert r.0 + "=" + r.1 == section + "=" + name;
      r
  }

  function LastEquals(name: string): (k: nat)
    requires '=' in name
    ensures k < |name| && name[k] == '=' && '=' !in name[k + 1..]
  {
    var n := |name| - 1;
    if name[n] == '=' then n
    else
      var k := LastEquals(name[..n]);
      assert name[k + 1..] == name[..n][k + 1..] + [name[n]];
      k
  }

  /** Every name the parser emits, on a pair line or a continuation line, is free of '='. */
  lemma {:induction false} NamesHaveNoEquals(lines: seq<string>)
    ensures '=' !in ContextAfter(lines).prevName
    ensures forall k :: 0 <= k < |Events(lines)| ==> '=' !in Events(lines)[k].name
  {
    if lines != [] {
      var n := |lines| - 1;
      NamesHaveNoEquals(lines[..n]);
      LineNameHasNoEquals(n == 0, lines[n], ContextAfter(lines[..n]));
      hide ParseLine;
      assert ContextAfter(lines) == ParseLine(n == 0, lines[n], ContextAfter(lines[..n])).1;
    }
  }

  lemma LineNameHasNoEquals(first: bool, raw: string, c: Context)
    requires '=' !in c.prevName
    ensures var (r, c') := ParseLine(first, raw, c);
            '=' !in c'.prevName && (r.Emit? ==> '=' !in r.event.name)
  {
    hide ParseText, RStrip, LSkip, Blanks, HasBom;
    forall text, indented
      ensures var (r, c') := ParseText(text, indented, c);
              '=' !in c'.prevName && (r.Emit? ==> '=' !in r.event.name)
    {
      TextNameHasNoEquals(text, indented, c);
    }
  }

  lemma TextNameHasNoEquals(text: string, indented: bool, c: Context)
    requires '=' !in c.prevName
    ensures var (r, c') := ParseText(text, indented, c);
            '=' !in c'.prevName && (r.Emit? ==> '=' !in r.event.name)
  {
    hide RStrip, LSkip, Find, CutComment;
    var sep := Find(text, "=:");
    forall k | 0 <= k < sep ensures text[k] != '=' {
      assert !StopsAt(text, "=:", k);
    }
    var name := RStrip(text[..sep]);
    assert name <= text[..sep];
  }

  /** Two settings of one file share a key exactly when they agree up to ASCII case. */
  lemma EmittedKeysUnambiguous(lines: seq<string>, i: nat, j: nat)
    requires i < |Events(lines)| && j < |Events(lines)|
    ensures var e, f := Events(lines)[i], Events(lines)[j];
            MakeKey(e.section, e.name) == MakeKey(f.section, f.name)
            <==> SameUpToCase(e.section, f.section) && SameUpToCase(e.name, f.name)
  {
    NamesHaveNoEquals(lines);
    var e, f := Events(lines)[i], Events(lines)[j];
    KeyUnambiguous(e.section, e.name, f.section, f.name);
  }

  // ------------------------------------------------------------ the map

  datatype Store = Store(values: map<string, string>, sections: set<string>)

  const EMPTY := Store(map[], {})

  function KeyOf(e: Event): string {
    MakeKey(e.section, e.name)
  }

  /** ValueHandler: `_values[key]` is created empty, a newline separates non-empty parts. */
  function Accumulate(s: Store, e: Event): Store {
    var was := if KeyOf(e) in s.values then s.values[KeyOf(e)] else "";
    var sep := if |was| > 0 then "\n" else "";
    Store(s.values[KeyOf(e) := was + sep + e.value], s.sections + {e.section})
  }

  function Handle(s: Store, e: Event): (Store, bool) {
    (Accumulate(s, e), true)
  }

  /** The values given for one key, in file order. */
  function ValuesFor(events: seq<Event>, key: string): seq<string> {
    if events == [] then []
    else
      var n := |events| - 1;
      ValuesFor(events[..n], key) + if KeyOf(events[n]) == key then [events[n].value] else []
  }

  /** The events of one setting, whatever case its section and name are written in. */
  predicate Concerns(e: Event, section: string, name: string) {
    SameUpToCase(e.section, section) && SameUpToCase(e.name, name)
  }

  function ValuesOf(events: seq<Event>, section: string, name: string): seq<string> {
    if events == [] then []
    else
      var n := |events| - 1;
      ValuesOf(events[..n], section, name) + if Concerns(events[n], section, name) then [events[n].value] else []
  }

  predicate EqualsFree(events: seq<Event>) {
    forall e :: e in events ==> '=' !in e.name
  }

  /** Collecting by key collects the values of the setting addressed, and no others. */
  lemma {:induction false} KeyedValues(events: seq<Event>, section: string, name: string)
    requires EqualsFree(events)
    ensures var (s, n) := Addressed(section, name);
            ValuesFor(events, MakeKey(section, name)) == ValuesOf(events, s, n)
  {
    hide MakeKey, SameUpToCase;
    if events != [] {
      var (s, n) := Addressed(section, name);
      var e := events[|events| - 1];
      KeyedValues(events[..|events| - 1], section, name);
      KeyUnambiguous(e.section, e.name, s, n);
    }
  }

  /** The values collected are those of the section and name looked up, in every sequence of
      events that a file can give, if and only if the name holds no '='. */
  lemma KeyedValuesIff(section: string, name: string)
    ensures '=' !in name <==>
            forall events :: EqualsFree(events)
              ==> ValuesFor(events, MakeKey(section, name)) == ValuesOf(events, section, name)
  {
    hide MakeKey;
    var (s, n) := Addressed(section, name);
    if '=' in name {
      var events := [Event(s, n, "")];
      assert EqualsFree(events) && events[..0] == [];
      assert ValuesFor(events[..0], MakeKey(section, name)) == [] && ValuesOf(events[..0], section, name) == [];
      assert !SameUpToCase(s, section);
      hide SameUpToCase;
      assert ValuesFor(events, MakeKey(section, name)) == [""];
    } else {
      forall events | EqualsFree(events)
        ensures ValuesFor(events, MakeKey(section, name)) == ValuesOf(events, section, name)
      {
        KeyedValues(events, section, name);
      }
    }
  }

  function DropEmpty(vs: seq<string>): (r: seq<string>)
    ensures r != [] ==> r[0] != ""
  {
    if vs != [] && vs[0] == "" then DropEmpty(vs[1..]) else vs
  }

  function JoinLines(vs: seq<string>): string {
    if vs == [] then "" else if |vs| == 1 then vs[0] else vs[0] + "\n" + JoinLines(vs[1..])
  }

  lemma {:induction false} DropEmptyIs(vs: seq<string>)
    ensures var r := DropEmpty(vs);
            && |r| <= |vs| && r == vs[|vs| - |r|..]
            && forall i :: 0 <= i < |vs| - |r| ==> vs[i] == ""
  {
    if vs != [] && vs[0] == "" {
      DropEmptyIs(vs[1..]);
    }
  }

  /** A string cut at its newlines. */
  function SplitLines(s: string): (r: seq<string>)
    ensures r != []
  {
    if s == "" then [""]
    else
      var r := SplitLines(s[1..]);
      if s[0] == '\n' then [""] + r else [[s[0]] + r[0]] + r[1..]
  }

  lemma {:induction false} SplitFirst(v: string, rest: string)
    requires '\n' !in v
    ensures SplitLines(v) == [v]
    ensures SplitLines(v + "\n" + rest) == [v] + SplitLines(rest)
  {
    if v == "" {
      assert v + "\n" + rest == "\n" + rest;
      assert ("\n" + rest)[1..] == rest;
    } else {
      SplitFirst(v[1..], rest);
      assert (v + "\n" + rest)[1..] == v[1..] + "\n" + rest;
      assert [v[0]] + v[1..] == v;
    }
  }

  /** Lines without newlines are recovered from their join. */
  lemma {:induction false} SplitJoined(vs: seq<string>)
    requires vs != [] && forall i :: 0 <= i < |vs| ==> '\n' !in vs[i]
    ensures SplitLines(JoinLines(vs)) == vs
  {
    if |vs| == 1 {
      SplitFirst(vs[0], "");
    } else {
      SplitJoined(vs[1..]);
      SplitFirst(vs[0], JoinLines(vs[1..]));
      hide SplitLines;
      assert vs == [vs[0]] + vs[1..];
    }
  }

  lemma {:induction false} JoinSnoc(vs: seq<string>, v: string)
    ensures JoinLines(vs + [v]) == if vs == [] then v else JoinLines(vs) + "\n" + v
    ensures vs != [] && vs[0] != "" ==> JoinLines(vs) != ""
  {
    if vs == [] {
      assert vs + [v] == [v];
    } else if |vs| == 1 {
      assert (vs + [v])[1..] == [v];
    } else {
      assert (vs + [v])[1..] == vs[1..] + [v];
      JoinSnoc(vs[1..], v);
      var front, rest := vs[0] + "\n", JoinLines(vs[1..]);
      assert JoinLines(vs) == front + rest && JoinLines(vs + [v]) == front + (rest + "\n" + v);
      hide JoinLines;
      assert front + (rest + "\n" + v) == front + rest + "\n" + v;
    }
  }

  lemma {:induction false} DropEmptySnoc(vs: seq<string>, v: string)
    ensures DropEmpty(vs + [v]) == if DropEmpty(vs) == [] && v == "" then [] else DropEmpty(vs) + [v]
  {
    if vs != [] && vs[0] == "" {
      assert (vs + [v])[1..] == vs[1..] + [v];
      DropEmptySnoc(vs[1..], v);
    } else if vs == [] {
      assert [] + [v] == [v];
    }
  }

  lemma NothingJoined()
    ensures JoinLines([]) == "" && DropEmpty([]) == []
  {}

  /** The store that `events` should leave behind: each stored value is the newline-join of
      that key's values with the leading empty ones dropped, and the sections are those of
      the events. */
  ghost predicate StoreOf(events: seq<Event>, s: Store) {
    && (forall key :: key in s.values <==> ValuesFor(events, key) != [])
    && (forall key :: key in s.values ==> s.values[key] == JoinLines(DropEmpty(ValuesFor(events, key))))
    && (forall x :: x in s.sections <==> exists e :: e in events && e.section == x)
  }

  lemma AccumulateStep(init: seq<Event>, e: Event, s: Store)
    requires StoreOf(init, s)
    ensures StoreOf(init + [e], Accumulate(s, e))
  {
    hide KeyOf, JoinLines, DropEmpty;
    var events, t, k := init + [e], Accumulate(s, e), KeyOf(e);
    assert events[..|init|] == init;
    var vs := ValuesFor(init, k);
    DropEmptySnoc(vs, e.value);
    JoinSnoc(DropEmpty(vs), e.value);
    NothingJoined();
    forall key
      ensures key in t.values <==> ValuesFor(events, key) != []
      ensures key in t.values ==> t.values[key] == JoinLines(DropEmpty(ValuesFor(events, key)))
    {
      if key != k {
        assert ValuesFor(events, key) == ValuesFor(init, key);
      } else {
        assert ValuesFor(events, k) == vs + [e.value];
      }
    }
    SectionStep(init, e, s);
  }

  lemma SectionStep(init: seq<Event>, e: Event, s: Store)
    requires forall x :: x in s.sections <==> exists f :: f in init && f.section == x
    ensures forall x :: x in Accumulate(s, e).sections <==> exists f :: f in init + [e] && f.section == x
  {
    hide KeyOf;
    forall x
      ensures x in Accumulate(s, e).sections <==> exists f :: f in init + [e] && f.section == x
    {
      if x == e.section {
        assert e in init + [e];
      } else if x in s.sections {
        var f :| f in init && f.section == x;
        assert f in init + [e];
      }
    }
  }

  /** ValueHandler builds exactly that store from any sequence of events. */
  lemma {:induction false} Accumulation(events: seq<Event>)
    ensures StoreOf(events, Feed(events, Handle, EMPTY))
  {
    if events != [] {
      var n := |events| - 1;
      Accumulation(events[..n]);
      AccumulateStep(events[..n], events[n], Feed(events[..n], Handle, EMPTY));
      assert events[..n] + [events[n]] == events;
      assert Feed(events, Handle, EMPTY) == Handle(Feed(events[..n], Handle, EMPTY), events[n]).0;
    }
  }

  function Lookup(s: Store, section: string, name: string, default: string): string {
    var key := MakeKey(section, name);
    if key in s.values then s.values[key] else default
  }

  /** A lookup returns the default exactly when no event of the file has its key. */
  lemma LookupMeaning(lines: seq<string>, section: string, name: string, default: string)
    ensures var s := Run(lines, Handle, EMPTY).user;
            var vs := ValuesFor(Events(lines), MakeKey(section, name));
            Lookup(s, section, name, default) == if vs == [] then default else JoinLines(DropEmpty(vs))
  {
    RunUnfolds(lines, Handle, EMPTY);
    Accumulation(Events(lines));
  }

  /** A lookup does not depend on the case its section and name are written in. */
  lemma LookupIgnoresCase(s: Store, section: string, name: string, section': string, name': string, default: string)
    requires SameUpToCase(section, section') && SameUpToCase(name, name')
    ensures Lookup(s, section, name, default) == Lookup(s, section', name', default)
  {
    hide Lower, SameUpToCase;
    SameIffLower(section, section');
    SameIffLower(name, name');
    KeyParts(section, name);
    KeyParts(section', name');
  }

  /** In terms of settings: the default is returned exactly when the file does not give the
      setting addressed, in any case, and otherwise the join of its own values. */
  lemma SettingLookup(lines: seq<string>, section: string, name: string, default: string)
    ensures var p := Run(lines, Handle, EMPTY).user;
            var (s, n) := Addressed(section, name);
            var vs := ValuesOf(Events(lines), s, n);
            Lookup(p, section, name, default) == if vs == [] then default else JoinLines(DropEmpty(vs))
  {
    hide MakeKey, SameUpToCase;
    LookupMeaning(lines, section, name, default);
    NamesHaveNoEquals(lines);
    KeyedValues(Events(lines), section, name);
  }

  /** Reading one more chunk moves it from the unread text to the chunks done. */
  lemma NextChunk(text: string, pos: nat, done: seq<string>)
    requires pos < |text|
    ensures var next := pos + ChunkLen(text[pos..]);
            var more := done + [UpToNul(text[pos..next])];
            && more + Chunks(text[next..]) == done + Chunks(text[pos..])
            && more[..|done|] == done
  {
    hide UpToNul, ChunkLen;
    var next := pos + ChunkLen(text[pos..]);
    assert text[pos..][..next - pos] == text[pos..next] && text[pos..][next - pos..] == text[next..];
  }

  lemma NoChunks()
    ensures Chunks("") == []
  {}

  // ------------------------------------------------------------ the class

  class ConfigReader {
    var error: int
    var values: map<string, string>
    var sections: set<string>

    ghost function Contents(): Store
      reads this
    {
      Store(values, sections)
    }

    /** ConfigReader(FILE*): parses the whole stream with ValueHandler. */
    constructor (text: string)
      ensures var p := Run(Chunks(text), Handle, EMPTY);
              error == p.error && Contents() == p.user
    {
      values, sections, error := map[], {}, 0;
      new;
      var e := IniParseStream(text);
      error := e;
    }

    method ValueHandler(section: string, name: string, value: string) returns (ok: bool)
      modifies this`values, this`sections
      ensures (Contents(), ok) == Handle(old(Contents()), Event(section, name, value))
    {
      hide MakeKey;
      var key := MakeKey(section, name);
      ghost var was := if key in values then values[key] else "";
      ghost var before := values;
      if key !in values {
        values := values[key := ""];
      }
      if |values[key]| > 0 {
        values := values[key := values[key] + "\n"];
      }
      assert values[key] == was + if |was| > 0 then "\n" else "";
      values := values[key := values[key] + value];
      assert values == before[key := values[key]];
      sections := sections + {section};
      ok := true;
      assert values == Accumulate(old(Contents()), Event(section, name, value)).values;
    }

    /** The end of one iteration: call the handler on an event, note the first failure. */
    method Deliver(r: LineResult, lineno: nat, error: nat, ghost p: Parse<Store>) returns (err: nat)
      requires error == p.error && Contents() == p.user
      modifies this`values, this`sections
      ensures var q := Report(p, lineno, r, Handle);
              err == q.error && Contents() == q.user
    {
      hide MakeKey;
      err := error;
      match r {
        case Quiet =>
        case Malformed =>
          if err == 0 {
            err := lineno;
          }
        case Emit(e) =>
          var ok := ValueHandler(e.section, e.name, e.value);
          if !ok && err == 0 {
            err := lineno;
          }
      }
    }

    /** One iteration of the loop: read a line, parse it in place, deliver its event. */
    method Iterate(text: string, pos: nat, lineno: nat, error: nat, line: array<char>, section: array<char>,
                   prevName: array<char>, ghost p: Parse<Store>)
      returns (next: nat, err: nat)
      requires pos < |text|
      requires line != section && line != prevName && section != prevName && line.Length == MAX_LINE
      requires error == p.error && Contents() == p.user && Holds(section, prevName, p.context)
      modifies this`values, this`sections, line, section, prevName
      ensures next == pos + ChunkLen(text[pos..])
      ensures var q := StepLine(p, lineno, UpToNul(text[pos..next]), Handle);
              err == q.error && Contents() == q.user && Holds(section, prevName, q.context)
    {
      hide ParseLine, UpToNul, Handle, Report, ChunkLen, StringAt;
      next := Fgets(text, pos, line);
      var r := ParseLineInPlace(line, section, prevName, lineno == 1, UpToNul(text[pos..next]), p.context);
      err := Deliver(r, lineno, error, p);
    }

    /** ini_parse_stream with ValueHandler as the handler and this object as its user data. */
    method IniParseStream(text: string) returns (err: int)
      requires Contents() == EMPTY
      modifies this`values, this`sections
      ensures var p := Run(Chunks(text), Handle, EMPTY);
              err == p.error && Contents() == p.user
    {
      hide StepLine, UpToNul, Handle, Chunks, ChunkLen;
      var line := new char[MAX_LINE];
      var section := new char[MAX_SECTION](_ => NUL);
      var prevName := new char[MAX_NAME](_ => NUL);
      var pos, lineno := 0, 0;
      err := 0;
      ghost var done := [];
      ghost var p := Init(EMPTY);
      assert text[0..] == text;
      while pos < |text|
        invariant 0 <= pos <= |text| && fresh(line) && fresh(section) && fresh(prevName)
        invariant done + Chunks(text[pos..]) == Chunks(text) && lineno == |done|
        invariant p == Run(done, Handle, EMPTY)
        invariant err == p.error && Contents() == p.user && Holds(section, prevName, p.context)
      {
        var next;
        lineno := lineno + 1;
        NextChunk(text, pos, done);
        ghost var before := p;
        next, err := Iterate(text, pos, lineno, err, line, section, prevName, before);
        ghost var raw := UpToNul(text[pos..next]);
        p := StepLine(before, lineno, raw, Handle);
        pos, done := next, done + [raw];
      }
      NoChunks();
      assert text[pos..] == "" && done + [] == done;
    }

    method Sections() returns (r: set<string>)
      ensures r == Contents().sections
    {
      r := sections;
    }

    method Get(section: string, name: string, default: string) returns (r: string)
      ensures r == Lookup(Contents(), section, name, default)
    {
      var key := MakeKey(section, name);
      r := if key in values then values[key] else default;
    }
  }
}
