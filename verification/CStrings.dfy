/** The character-level helpers of config_reader.h.

    The pure part describes whitespace stripping and the scan for a delimiter or an
    inline comment on Dafny strings.  The imperative part is the C code: it walks a
    NUL-terminated string inside a fixed buffer and edits it by writing NULs.  Every
    method is tied to the pure part through `StringAt`. */
module CStrings {

  const NUL: char := '\0'

  /** `isspace` of the "C" locale: space, \t, \n, \v, \f, \r. */
  predicate IsSpace(c: char): (b: bool)
    ensures b <==> c == ' ' || c == '\t' || c == '\n' || c == '\U{0B}' || c == '\U{0C}' || c == '\r'
  {
    c == ' ' || '\t' <= c <= '\r'
  }

  predicate AllSpace(s: string) {
    forall k :: 0 <= k < |s| ==> IsSpace(s[k])
  }

  /** `s` has no whitespace at either end. */
  predicate Stripped(s: string) {
    s != "" ==> !IsSpace(s[0]) && !IsSpace(s[|s| - 1])
  }

  // ------------------------------------------------------------ pure descriptions

  function RStrip(s: string): (r: string)
    ensures r <= s
    ensures r != "" ==> !IsSpace(r[|r| - 1])
    ensures forall k :: |r| <= k < |s| ==> IsSpace(s[k])
  {
    if s != "" && IsSpace(s[|s| - 1]) then RStrip(s[..|s| - 1]) else s
  }

  /** Number of leading whitespace characters. */
  function Blanks(s: string): (n: nat)
    ensures n <= |s|
    ensures n < |s| ==> !IsSpace(s[n])
    ensures forall k :: 0 <= k < n ==> IsSpace(s[k])
  {
    if s != "" && IsSpace(s[0]) then 1 + Blanks(s[1..]) else 0
  }

  function LSkip(s: string): (r: string)
    ensures r != "" ==> !IsSpace(r[0])
  {
    s[Blanks(s)..]
  }

  /** An inline comment starts at a ';' that whitespace precedes; the first character
      of the scanned text never starts one. */
  predicate CommentAt(s: string, k: nat): (b: bool)
    requires k < |s|
    ensures b <==> k > 0 && s[k] == ';' && (s[k - 1] == ' ' || '\t' <= s[k - 1] <= '\r')
  {
    k > 0 && IsSpace(s[k - 1]) && s[k] == ';'
  }

  predicate StopsAt(s: string, stops: string, k: nat)
    requires k < |s|
  {
    s[k] in stops || CommentAt(s, k)
  }

  /** Offset of the first stop character or inline comment, |s| when there is none. */
  function Find(s: string, stops: string): (r: nat)
    ensures r <= |s|
    ensures r < |s| ==> StopsAt(s, stops, r)
    ensures forall k :: 0 <= k < r ==> !StopsAt(s, stops, k)
  {
    FindFrom(s, stops, 0)
  }

  function FindFrom(s: string, stops: string, from: nat): (r: nat)
    requires from <= |s|
    ensures from <= r <= |s|
    ensures r < |s| ==> StopsAt(s, stops, r)
    ensures forall k :: from <= k < r ==> !StopsAt(s, stops, k)
    decreases |s| - from
  {
    if from == |s| || StopsAt(s, stops, from) then from else FindFrom(s, stops, from + 1)
  }

  /** What is left of a string stored in a C buffer: everything before the first NUL. */
  function UpToNul(s: string): (r: string)
    ensures r <= s && NUL !in r
    ensures |r| < |s| ==> s[|r|] == NUL
  {
    if s == "" || s[0] == NUL then "" else [s[0]] + UpToNul(s[1..])
  }

  // ------------------------------------------------------------ algebra of stripping

  lemma {:induction false} RStripIs(s: string, r: string)
    requires r <= s
    requires r != "" ==> !IsSpace(r[|r| - 1])
    requires AllSpace(s[|r|..])
    ensures RStrip(s) == r
  {
    forall k | |r| <= k < |s| ensures IsSpace(s[k]) {
      assert s[|r|..][k - |r|] == s[k];
    }
    var q := RStrip(s);
    assert q == s[..|q|] && r == s[..|r|];
  }

  lemma {:induction false} BlanksIs(s: string, n: nat)
    requires n <= |s| && AllSpace(s[..n])
    requires n < |s| ==> !IsSpace(s[n])
    ensures Blanks(s) == n
  {
    forall k | 0 <= k < n ensures IsSpace(s[k]) {
      assert s[..n][k] == s[k];
    }
  }

  lemma {:induction false} FindIs(s: string, stops: string, r: nat)
    requires r <= |s|
    requires r < |s| ==> StopsAt(s, stops, r)
    requires forall k :: 0 <= k < r ==> !StopsAt(s, stops, k)
    ensures Find(s, stops) == r
  {
    var q := Find(s, stops);
    assert q < |s| ==> StopsAt(s, stops, q);
  }

  // ------------------------------------------------------------ strings in a buffer

  /** The buffer holds the NUL-terminated string `t` at offset `i`. */
  ghost predicate StringAt(line: array<char>, i: nat, t: string)
    reads line
  {
    && i + |t| < line.Length
    && line[i + |t|] == NUL
    && forall k :: 0 <= k < |t| ==> t[k] != NUL && line[i + k] == t[k]
  }

  /** The character at offset `n` of the string: NUL exactly at its end. */
  lemma CharAt(line: array<char>, i: nat, t: string, n: nat)
    requires StringAt(line, i, t) && n <= |t|
    ensures line[i + n] == NUL <==> n == |t|
    ensures n < |t| ==> line[i + n] == t[n]
  {
    assert n < |t| ==> t[n] != NUL;
  }

  /** `strlen(line + s)`. */
  method StrLen(line: array<char>, s: nat, ghost text: string) returns (n: nat)
    requires StringAt(line, s, text)
    ensures n == |text|
  {
    n := 0;
    CharAt(line, s, text, 0);
    while line[s + n] != NUL
      invariant n <= |text| && (line[s + n] == NUL <==> n == |text|)
      decreases |text| - n
    {
      n := n + 1;
      CharAt(line, s, text, n);
    }
  }

  /** Reads the C string at `s` out of the buffer. */
  method ReadString(line: array<char>, s: nat, ghost text: string) returns (r: string)
    requires StringAt(line, s, text)
    ensures r == text
  {
    var n := StrLen(line, s, text);
    r := line[s..s + n];
  }

  /** config_reader.h `rstrip`: NULs overwrite trailing whitespace, nothing else changes. */
  method RStripInPlace(line: array<char>, s: nat, ghost text: string)
    requires StringAt(line, s, text)
    modifies line
    ensures StringAt(line, s, RStrip(text))
    ensures forall k :: 0 <= k < line.Length && !(s + |RStrip(text)| <= k < s + |text|) ==> line[k] == old(line[k])
  {
    var n := StrLen(line, s, text);
    ghost var r := RStrip(text);
    var p := s + n;
    while p > s
      invariant s + |r| <= p <= s + |text|
      invariant forall k :: p <= k < s + |text| ==> line[k] == NUL
      invariant forall k :: 0 <= k < line.Length && !(p <= k < s + |text|) ==> line[k] == old(line[k])
    {
      p := p - 1;
      assert text[p - s] == line[p];
      if !IsSpace(line[p]) {
        break;
      }
      line[p] := NUL;
    }
  }

  /** config_reader.h `lskip`: offset of the first non-whitespace character. */
  method LSkipFrom(line: array<char>, s: nat, ghost text: string) returns (p: nat)
    requires StringAt(line, s, text)
    ensures p == s + Blanks(text)
    ensures StringAt(line, p, LSkip(text))
  {
    p := s;
    CharAt(line, s, text, 0);
    while line[p] != NUL && IsSpace(line[p])
      invariant s <= p <= s + Blanks(text)
      invariant if p == s + |text| then line[p] == NUL else line[p] == text[p - s] != NUL
      decreases s + |text| - p
    {
      p := p + 1;
      CharAt(line, s, text, p - s);
    }
  }

  /** config_reader.h `find_chars_or_comment`. */
  method FindCharsOrComment(line: array<char>, s: nat, stops: string, ghost text: string) returns (p: nat)
    requires StringAt(line, s, text)
    ensures p == s + Find(text, stops)
  {
    p := s;
    var wasSpace := false;
    CharAt(line, s, text, 0);
    while line[p] != NUL && line[p] !in stops && !(wasSpace && line[p] == ';')
      invariant s <= p <= s + Find(text, stops)
      invariant wasSpace <==> p > s && IsSpace(text[p - s - 1])
      invariant if p == s + |text| then line[p] == NUL else line[p] == text[p - s] != NUL
      decreases s + |text| - p
    {
      assert !StopsAt(text, stops, p - s);
      wasSpace := IsSpace(line[p]);
      p := p + 1;
      CharAt(line, s, text, p - s);
    }
    assert p < s + |text| ==> StopsAt(text, stops, p - s);
  }

  /** config_reader.h `strncpy0`: copies at most |dest| - 1 characters and pads with NULs. */
  method StrNCpy0(dest: array<char>, line: array<char>, s: nat, ghost text: string)
    requires dest != line && dest.Length > 0
    requires StringAt(line, s, text)
    modifies dest
    ensures StringAt(dest, 0, text[..Min(|text|, dest.Length - 1)])
  {
    var i := 0;
    CharAt(line, s, text, 0);
    while i < dest.Length && line[s + i] != NUL
      invariant 0 <= i <= dest.Length && i <= |text|
      invariant if i == |text| then line[s + i] == NUL else line[s + i] == text[i] != NUL
      invariant forall k :: 0 <= k < i ==> dest[k] == text[k]
    {
      dest[i] := line[s + i];
      i := i + 1;
      CharAt(line, s, text, i);
    }
    ghost var n := i;
    while i < dest.Length
      invariant n <= i <= dest.Length
      invariant forall k :: 0 <= k < n ==> dest[k] == text[k]
      invariant forall k :: n <= k < i ==> dest[k] == NUL
    {
      dest[i] := NUL;
      i := i + 1;
    }
    dest[dest.Length - 1] := NUL;
  }

  function Min(a: nat, b: nat): (m: nat)
    ensures m <= a && m <= b && (m == a || m == b)
  {
    if a < b then a else b
  }
}
