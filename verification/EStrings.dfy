/** EString of fixed_string.h: a NUL-terminated buffer that grows when an append needs room. */
module EStrings {
  import opened Binary32
  import opened CStrings

  /** The text, the capacity, and how many bytes regrowth has copied so far. */
  datatype Text = Text(chars: string, size: nat, copied: nat)

  predicate Sound(t: Text) {
    |t.chars| < t.size
  }

  /** A successful `strscat`. */
  function Append(t: Text, src: string): Text {
    var need := |t.chars| + |src|;
    if need < t.size then t.(chars := t.chars + src)
    else Text(t.chars + src, Grow(need), t.copied + |t.chars|)
  }

  function AppendAll(t: Text, srcs: seq<string>): Text {
    if srcs == [] then t else Append(AppendAll(t, srcs[..|srcs| - 1]), srcs[|srcs| - 1])
  }

  function Joined(srcs: seq<string>): string {
    if srcs == [] then "" else Joined(srcs[..|srcs| - 1]) + srcs[|srcs| - 1]
  }

  /** A run of appends leaves the concatenation of its sources, and if every length it passes
      through is served, as all below 2^44 are, there is room for the terminator. */
  lemma {:induction false} AppendsConcatenate(t: Text, srcs: seq<string>)
    requires Sound(t)
    ensures AppendAll(t, srcs).chars == t.chars + Joined(srcs)
    ensures (forall k :: 0 <= k <= |srcs| ==> Served(|t.chars| + |Joined(srcs[..k])|)) ==> Sound(AppendAll(t, srcs))
  {
    hide Grow, Served;
    if srcs != [] {
      var init := srcs[..|srcs| - 1];
      AppendsConcatenate(t, init);
      GrowthSufficesIff(|t.chars| + |Joined(srcs)|);
      assert srcs[..|srcs|] == srcs;
      assert forall k :: 0 <= k <= |init| ==> init[..k] == srcs[..k];
    }
  }

  lemma {:induction false} ShortAppendsSound(t: Text, srcs: seq<string>)
    requires Sound(t) && |t.chars| + |Joined(srcs)| < TWO44
    ensures Sound(AppendAll(t, srcs))
  {
    hide Grow, Served;
    AppendsConcatenate(t, srcs);
    if srcs != [] {
      ShortAppendsSound(t, srcs[..|srcs| - 1]);
      GrowthSuffices(|t.chars| + |Joined(srcs)|);
    }
  }

  /** Amortised cost: while requests stay below 4000000, regrowth copies at most four times
      the capacity, and the capacity is linear in the length. */
  lemma {:induction false} AppendsAmortised(t: Text, srcs: seq<string>)
    requires Sound(t) && t.copied == 0 && |t.chars| + |Joined(srcs)| < 4_000_000
    ensures var r := AppendAll(t, srcs);
            && r.copied <= 4 * r.size
            && (r.size == t.size || 4 * r.size <= 5 * |r.chars| + 8)
            && r.copied <= 4 * t.size + 5 * |r.chars| + 8
  {
    hide Grow;
    AppendsConcatenate(t, srcs);
    if srcs != [] {
      AppendsAmortised(t, srcs[..|srcs| - 1]);
      AppendsConcatenate(t, srcs[..|srcs| - 1]);
      ShortAppendsSound(t, srcs[..|srcs| - 1]);
      SmallGrowth(|t.chars| + |Joined(srcs)|);
    }
  }

  /** What `strscat(src, len)` appends: a length of 0 stands for the whole C string. */
  function Source(src: string, len: nat): string
    requires len <= |src|
  {
    if len == 0 then UpToNul(src) else src[..len]
  }

  lemma SourceIs(src: string, len: nat, n: nat)
    requires len <= |src| && n <= |src|
    requires if len == 0 then src[..n] == UpToNul(src) else n == len
    ensures Source(src, len) == src[..n]
  {}

  class EString {
    var buffer: array<char>
    var length: nat
    var size: nat
    const isSelfBuf: bool
    ghost var copied: nat   // bytes that reserve has copied

    ghost predicate Valid()
      reads this, buffer
    {
      buffer.Length == size && length < size && buffer[length] == NUL
    }

    ghost function Contents(): Text
      reads this, buffer
      requires Valid()
    {
      Text(buffer[..length], size, copied)
    }

    /** EString(size_t size), on memory it allocates. */
    constructor (size: nat)
      requires size > 0
      ensures Valid() && fresh(buffer) && isSelfBuf && Contents() == Text("", size, 0)
    {
      var b := new char[size];
      b[0] := NUL;
      buffer, length, this.size, isSelfBuf, copied := b, 0, size, true, 0;
      new;
      assert buffer[..0] == "";
    }

    /** EString(char*, size_t), on memory of the caller's. */
    constructor Over(b: array<char>)
      requires b.Length > 0
      modifies b
      ensures Valid() && buffer == b && !isSelfBuf && Contents() == Text("", b.Length, 0)
    {
      b[0] := NUL;
      buffer, length, size, isSelfBuf, copied := b, 0, b.Length, false, 0;
      new;
      assert buffer[..0] == "";
    }

    /** The request allocates a new buffer. */
    ghost predicate Grows(request: nat, mallocOk: bool)
      reads this
    {
      request >= size && isSelfBuf && mallocOk
    }

    /** `reserve(request, keep)`; `mallocOk` is whether malloc succeeds, if it is called.  What is
        kept must fit the new buffer, which holds the request itself only if that is served. */
    method Reserve(request: nat, keep: bool, mallocOk: bool) returns (ok: bool)
      requires Valid() && (keep && Grows(request, mallocOk) ==> length < Grow(request))
      modifies this
      ensures Valid() && ok == (request < old(size) || (isSelfBuf && mallocOk))
      ensures ok && (request < old(size) || Served(request)) ==> request < size
      ensures !ok || request < old(size) ==> buffer == old(buffer) && Contents() == old(Contents())
      ensures ok && request >= old(size) ==>
                fresh(buffer) && size == Grow(request)
                && Contents().chars == (if keep then old(Contents()).chars else "")
                && copied == old(copied) + if keep then old(length) else 0
    {
      if request < size {
        return true;
      }
      if !isSelfBuf {
        return false;
      }
      var capacity := Grow(request);
      if !mallocOk {
        return false;
      }
      GrowthSufficesIff(request);
      GrowthPositive(request);
      hide Grow, Served;
      var temp := new char[capacity];
      if keep && length > 0 {
        CopyInto(temp, 0, buffer, length);
        copied := copied + length;
        assert temp[..length] == temp[0..length];
      } else {
        length := 0;
      }
      buffer := temp;
      buffer[length] := NUL;
      size := capacity;
      ok := true;
    }

    /** `strscat(src, len)`: on success the source is appended, on failure nothing changes.  A
        request that is granted but not served leaves no room for the terminator. */
    method StrsCat(src: array?<char>, len: nat, mallocOk: bool) returns (ok: bool)
      requires Valid() && src != buffer
      requires src != null ==> len <= src.Length && (len == 0 ==> NUL in src[..])
      requires src != null ==>
                 var request := length + |Source(src[..], len)|; Grows(request, mallocOk) ==> Served(request)
      modifies this, buffer
      ensures Valid()
      ensures ok == (src != null && (old(length + |Source(src[..], len)|) < old(size) || (isSelfBuf && mallocOk)))
      ensures ok ==> Contents() == Append(old(Contents()), old(Source(src[..], len)))
      ensures ok ==>
                exists n: nat :: n <= src.Length && Contents().chars == old(Contents()).chars + old(src[..])[..n]
                  && if len > 0 then n == len else NUL !in old(src[..])[..n] && n < src.Length && old(src[..])[n] == NUL
      ensures !ok ==> buffer == old(buffer) && Contents() == old(Contents())
    {
      if src == null {
        return false;
      }
      var n := len;
      if len == 0 {
        n := SourceLength(src);
      }
      hide Append, Source, UpToNul;
      SourceIs(src[..], len, n);
      ghost var text := src[..];
      assert text[..n] == src[..n];
      ok := AppendCounted(src, n, mallocOk);
    }

    method AppendCounted(src: array<char>, n: nat, mallocOk: bool) returns (ok: bool)
      requires Valid() && src != buffer && n <= src.Length && (Grows(length + n, mallocOk) ==> Served(length + n))
      modifies this, buffer
      ensures Valid()
      ensures ok == (old(length) + n < old(size) || (isSelfBuf && mallocOk))
      ensures ok ==> Contents() == Append(old(Contents()), old(src[..n]))
      ensures !ok ==> buffer == old(buffer) && Contents() == old(Contents())
    {
      GrowthSufficesIff(length + n);
      hide Grow, Served;
      ok := Reserve(length + n, true, mallocOk);
      if ok {
        AppendBytes(src, n);
      }
    }

    /** The copy at the end of `strscat`, once there is room. */
    method AppendBytes(src: array<char>, n: nat)
      requires Valid() && src != buffer && n <= src.Length && length + n < size
      modifies this`length, buffer
      ensures Valid() && Contents() == old(Contents()).(chars := old(Contents()).chars + old(src[..n]))
    {
      ghost var chars := buffer[..length];
      CopyInto(buffer, length, src, n);
      buffer[length + n] := NUL;
      assert buffer[..length + n] == buffer[..length] + buffer[length..length + n];
      length := length + n;
      assert buffer[..length] == chars + src[..n];
    }

    /** `memcpy(src, n)`: replaces the text; nothing is kept and no NUL is written. */
    method MemCpy(src: array<char>, n: nat, mallocOk: bool) returns (ok: bool)
      requires Valid() && src != buffer && n <= src.Length && (Grows(n, mallocOk) ==> n <= Grow(n))
      modifies this, buffer
      ensures ok == (n < old(size) || (isSelfBuf && mallocOk))
      ensures ok ==> buffer.Length == size && length == n <= size && buffer[..n] == old(src[..n])
      ensures ok && (n < old(size) || Served(n)) ==> n < size
      ensures !ok ==> buffer == old(buffer) && Valid() && Contents() == old(Contents())
    {
      ok := Reserve(n, false, mallocOk);
      if ok {
        CopyInto(buffer, 0, src, n);
        assert buffer[..n] == buffer[0..n];
        length := n;
      }
    }
  }

  /** `strlen(src)`. */
  method SourceLength(src: array<char>) returns (n: nat)
    requires NUL in src[..]
    ensures n < src.Length && src[..n] == UpToNul(src[..])
  {
    ghost var t := UpToNul(src[..]);
    assert t == src[..][..|t|] == src[..|t|];
    assert forall k :: 0 <= k < |t| ==> src[k] == t[k];
    assert forall k :: 0 <= k < |t| ==> src[k] != NUL;
    n := 0;
    while src[n] != NUL
      invariant n <= |t| < src.Length
      decreases |t| - n
    {
      n := n + 1;
    }
  }

  /** `memcpy(dst + at, src, n)`. */
  method CopyInto(dst: array<char>, at: nat, src: array<char>, n: nat)
    requires dst != src && at + n <= dst.Length && n <= src.Length
    modifies dst
    ensures dst[at..at + n] == src[..n]
    ensures dst[..at] == old(dst[..at])
    ensures forall k :: at + n <= k < dst.Length ==> dst[k] == old(dst[k])
  {
    var i := 0;
    while i < n
      invariant i <= n
      invariant dst[at..at + i] == src[..i] && dst[..at] == old(dst[..at])
      invariant forall k :: at + i <= k < dst.Length ==> dst[k] == old(dst[k])
    {
      dst[at + i] := src[i];
      i := i + 1;
    }
  }
}
