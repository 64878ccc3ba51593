/** string_util.h: 32-bit integers as four bytes, least or most significant first.

    An int argument is given by its 32-bit pattern.  `>>` on a negative int copies the sign
    into the top bits and a `char` is promoted with its sign; the masks remove both. */
module ByteCodec {

  type Byte = bv8

  /** `x >> n` for an int. */
  function Shr(x: bv32, n: bv6): bv32
    requires n <= 24
  {
    if x & 0x8000_0000 == 0 then x >> n else !(!x >> n)
  }

  function LowByte(x: bv32): Byte {
    (x & 0xff) as Byte
  }

  function LittleBytes(v: bv32): seq<Byte> {
    [LowByte(v), LowByte(Shr(v, 8)), LowByte(Shr(v, 16)), LowByte(Shr(v, 24))]
  }

  function Promote(b: Byte): bv32 {
    if b & 0x80 != 0 then 0xffff_ff00 | (b as bv32) else b as bv32
  }

  function Word(a: Byte, b: Byte, c: Byte, d: Byte): bv32 {
    (Promote(a) & 0xff) | ((Promote(b) << 8) & 0xff00) | ((Promote(c) << 16) & 0xff_0000)
    | ((Promote(d) << 24) & 0xff00_0000)
  }

  function LittleInt(s: seq<Byte>): bv32
    requires |s| == 4
  {
    Word(s[0], s[1], s[2], s[3])
  }

  function Reversed(s: seq<Byte>): seq<Byte>
    requires |s| == 4
  {
    [s[3], s[2], s[1], s[0]]
  }

  lemma ShiftMasked(v: bv32, n: bv6)
    requires n <= 24
    ensures LowByte(Shr(v, n)) == ((v >> n) & 0xff) as Byte
  {}

  lemma SignsMasked(a: Byte, b: Byte, c: Byte, d: Byte)
    ensures Word(a, b, c, d) == (a as bv32) | ((b as bv32) << 8) | ((c as bv32) << 16) | ((d as bv32) << 24)
  {}

  lemma WordOfParts(v: bv32)
    ensures (v & 0xff) | (((v >> 8) & 0xff) << 8) | (((v >> 16) & 0xff) << 16) | (((v >> 24) & 0xff) << 24) == v
  {}

  /** Reading what was written gives the word back. */
  lemma LittleRoundTrip(v: bv32)
    ensures LittleInt(LittleBytes(v)) == v
  {
    hide Word, Shr, LowByte;
    ShiftMasked(v, 8);
    ShiftMasked(v, 16);
    ShiftMasked(v, 24);
    LowByteIs(v);
    var s := LittleBytes(v);
    SignsMasked(s[0], s[1], s[2], s[3]);
    WordOfParts(v);
  }

  lemma LowByteIs(v: bv32)
    ensures LowByte(v) == (v & 0xff) as Byte
  {}

  /** Writing what was read gives the bytes back, so the code is one to one. */
  lemma LittleRoundTripBytes(a: Byte, b: Byte, c: Byte, d: Byte)
    ensures LittleBytes(LittleInt([a, b, c, d])) == [a, b, c, d]
  {
    hide Word, Shr, LowByte;
    var v := Word(a, b, c, d);
    ShiftMasked(v, 8);
    ShiftMasked(v, 16);
    ShiftMasked(v, 24);
    LowByteIs(v);
    SignsMasked(a, b, c, d);
    PartsOfWord(a, b, c, d);
  }

  lemma PartsOfWord(a: Byte, b: Byte, c: Byte, d: Byte)
    ensures var v := (a as bv32) | ((b as bv32) << 8) | ((c as bv32) << 16) | ((d as bv32) << 24);
            && (v & 0xff) as Byte == a && ((v >> 8) & 0xff) as Byte == b
            && ((v >> 16) & 0xff) as Byte == c && ((v >> 24) & 0xff) as Byte == d
  {}

  // ------------------------------------------------------------ numbers and words

  /** The number a word stands for. */
  function Value(v: bv32): nat {
    v as nat
  }

  /** One more byte at the low end. */
  function ShiftIn(v: bv32, b: Byte): bv32 {
    (v << 8) | (b as bv32)
  }

  predicate TopByteClear(v: bv32) {
    v & 0xff00_0000 == 0
  }

  lemma ShiftInValue(v: bv32, b: Byte)
    requires TopByteClear(v)
    ensures Value(ShiftIn(v, b)) == 0x100 * Value(v) + b as nat
  {}

  lemma ByteValue(d: Byte)
    ensures Value(d as bv32) == d as nat
  {}

  lemma Horner(a: Byte, b: Byte, c: Byte, d: Byte)
    ensures LittleInt([a, b, c, d]) == ShiftIn(ShiftIn(ShiftIn(d as bv32, c), b), a)
    ensures TopByteClear(d as bv32) && TopByteClear(ShiftIn(d as bv32, c))
    ensures TopByteClear(ShiftIn(ShiftIn(d as bv32, c), b))
  {
    SignsMasked(a, b, c, d);
    hide Word;
  }

  /** Four bytes are a number, the least significant one first. */
  lemma LittleValue(a: Byte, b: Byte, c: Byte, d: Byte)
    ensures Value(LittleInt([a, b, c, d]))
         == a as nat + 0x100 * (b as nat) + 0x1_0000 * (c as nat) + 0x100_0000 * (d as nat)
  {
    hide ShiftIn, TopByteClear, Value, LittleInt;
    Horner(a, b, c, d);
    ByteValue(d);
    ShiftInValue(d as bv32, c);
    ShiftInValue(ShiftIn(d as bv32, c), b);
    ShiftInValue(ShiftIn(ShiftIn(d as bv32, c), b), a);
  }

  function Twice(v: Byte, bit: bool): Byte {
    if bit then (v << 1) | 1 else v << 1
  }

  /** The pattern of a number below 256, bit by bit. */
  function AsByte(d: nat): Byte {
    if d == 0 then 0 else Twice(AsByte(d / 2), d % 2 == 1)
  }

  /** The last digit of a number to base 256. */
  function Digit(n: nat): Byte {
    AsByte(n % 0x100)
  }

  /** The 32-bit pattern of a number: what an int keeps of a size_t. */
  function WordOf(n: nat): bv32 {
    LittleInt([Digit(n), Digit(n / 0x100), Digit(n / 0x1_0000), Digit(n / 0x100_0000)])
  }

  lemma TwiceValue(v: Byte, bit: bool)
    requires ByteNumber(v) < 0x80
    ensures ByteNumber(Twice(v, bit)) == 2 * ByteNumber(v) + if bit then 1 else 0
  {}

  function ByteNumber(v: Byte): nat {
    v as nat
  }

  lemma ZeroByte()
    ensures ByteNumber(0) == 0
  {}

  lemma {:induction false} SmallByte(d: nat)
    requires d < 0x100
    ensures ByteNumber(AsByte(d)) == d
  {
    hide Twice, ByteNumber;
    if d > 0 {
      SmallByte(d / 2);
      TwiceValue(AsByte(d / 2), d % 2 == 1);
    } else {
      ZeroByte();
    }
  }

  lemma DigitValue(n: nat)
    ensures Digit(n) as nat == n % 0x100
  {
    hide AsByte;
    SmallByte(n % 0x100);
  }

  lemma Digits(n: nat)
    requires n < 0x1_0000_0000
    ensures n == n % 0x100 + 0x100 * (n / 0x100 % 0x100) + 0x1_0000 * (n / 0x1_0000 % 0x100)
                 + 0x100_0000 * (n / 0x100_0000 % 0x100)
  {}

  /** A number below 2^32 is the value of its pattern. */
  lemma WordValue(n: nat)
    requires n < 0x1_0000_0000
    ensures Value(WordOf(n)) == n
  {
    hide Digit, Value, LittleInt;
    LittleValue(Digit(n), Digit(n / 0x100), Digit(n / 0x1_0000), Digit(n / 0x100_0000));
    DigitValue(n);
    DigitValue(n / 0x100);
    DigitValue(n / 0x1_0000);
    DigitValue(n / 0x100_0000);
    Digits(n);
  }

  // ------------------------------------------------------------ the C code

  method IntToBytesLittle(val: bv32, data: array<Byte>, at: nat)
    requires at + 4 <= data.Length
    modifies data
    ensures data[..] == old(data[..at]) + LittleBytes(val) + old(data[at + 4..])
  {
    hide LowByte, Shr;
    data[at] := LowByte(val);
    data[at + 1] := LowByte(Shr(val, 8));
    data[at + 2] := LowByte(Shr(val, 16));
    data[at + 3] := LowByte(Shr(val, 24));
  }

  method IntToBytesBig(val: bv32, data: array<Byte>, at: nat)
    requires at + 4 <= data.Length
    modifies data
    ensures data[..] == old(data[..at]) + Reversed(LittleBytes(val)) + old(data[at + 4..])
  {
    hide LowByte, Shr;
    data[at + 3] := LowByte(val);
    data[at + 2] := LowByte(Shr(val, 8));
    data[at + 1] := LowByte(Shr(val, 16));
    data[at] := LowByte(Shr(val, 24));
  }

  method BytesToIntLittle(bytes: array<Byte>, at: nat) returns (num: bv32)
    requires at + 4 <= bytes.Length
    ensures num == LittleInt(bytes[at..at + 4])
  {
    num := GatherBytes(bytes[at], bytes[at + 1], bytes[at + 2], bytes[at + 3]);
  }

  method BytesToIntBig(bytes: array<Byte>, at: nat) returns (num: bv32)
    requires at + 4 <= bytes.Length
    ensures num == LittleInt(Reversed(bytes[at..at + 4]))
  {
    num := GatherBytes(bytes[at + 3], bytes[at + 2], bytes[at + 1], bytes[at]);
  }

  /** The accumulation both readers share, from the least significant byte. */
  method GatherBytes(a: Byte, b: Byte, c: Byte, d: Byte) returns (num: bv32)
    ensures num == Word(a, b, c, d)
  {
    num := 0;
    num := num | (Promote(a) & 0xff);
    num := num | ((Promote(b) << 8) & 0xff00);
    num := num | ((Promote(c) << 16) & 0xff_0000);
    num := num | ((Promote(d) << 24) & 0xff00_0000);
  }
}
