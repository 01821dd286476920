/** Bytes, little-endian integers, the two length-prefix codes and the text of string pools. */
module AxmlText {
  import opened Prelude

  type byte = b: int | 0 <= b < 0x100
  type u16 = n: int | 0 <= n < 0x1_0000
  type u32 = n: int | 0 <= n < 0x1_0000_0000
  type Bytes = seq<byte>

  // ---------- Little-endian integers ----------

  function U16At(data: Bytes, i: nat): u16
    requires i + 2 <= |data|
  {
    data[i] as int + 0x100 * data[i + 1] as int
  }

  function U32At(data: Bytes, i: nat): u32
    requires i + 4 <= |data|
  {
    U16At(data, i) as int + 0x1_0000 * U16At(data, i + 2) as int
  }

  function Le16(n: u16): (r: Bytes)
    ensures |r| == 2 && U16At(r, 0) == n
  {
    [n % 0x100, n / 0x100]
  }

  function Le32(n: u32): (r: Bytes)
    ensures |r| == 4 && U32At(r, 0) == n
  {
    Le16(n % 0x1_0000) + Le16(n / 0x1_0000)
  }

  lemma {:induction false} U16AtOffset(pre: Bytes, data: Bytes, i: nat)
    requires i + 2 <= |data|
    ensures U16At(pre + data, |pre| + i) == U16At(data, i)
  {
  }

  lemma {:induction false} U32AtOffset(pre: Bytes, data: Bytes, i: nat)
    requires i + 4 <= |data|
    ensures U32At(pre + data, |pre| + i) == U32At(data, i)
  {
  }

  // ---------- Length prefixes ----------

  /** The length and the number of bytes that hold it. */
  function ReadLength8(data: Bytes): (r: Option<(nat, nat)>)
    ensures r.Some? ==> r.value.0 <= 0x7fff && 1 <= r.value.1 <= 2 && r.value.1 <= |data|
  {
    if |data| < 1 then None
    else if data[0] < 0x80 then Some((data[0], 1))
    else if |data| < 2 then None
    else Some(((data[0] as int - 0x80) * 0x100 + data[1] as int, 2))
  }

  function ReadLength16(data: Bytes): (r: Option<(nat, nat)>)
    ensures r.Some? ==> r.value.0 <= 0x7fff_ffff && (r.value.1 == 2 || r.value.1 == 4) && r.value.1 <= |data|
  {
    if |data| < 2 then None
    else
      var first := U16At(data, 0);
      if first < 0x8000 then Some((first, 2))
      else if |data| < 4 then None
      else Some(((first as int - 0x8000) * 0x1_0000 + U16At(data, 2) as int, 4))
  }

  function WriteLength8(n: int): Bytes
    requires 0 <= n <= 0x7fff
  {
    if n < 0x80 then [n] else [0x80 + n / 0x100, n % 0x100]
  }

  function WriteLength16(n: int): Bytes
    requires 0 <= n <= 0x7fff_ffff
  {
    if n < 0x8000 then Le16(n) else Le16(0x8000 + n / 0x1_0000) + Le16(n % 0x1_0000)
  }

  /** Reading inverts writing on every length the code can hold, whatever bytes follow. */
  lemma {:induction false} ReadWriteLength8(n: int, rest: Bytes)
    requires 0 <= n <= 0x7fff
    ensures ReadLength8(WriteLength8(n) + rest) == Some((n, |WriteLength8(n)|))
  {
    var data := WriteLength8(n) + rest;
    if n >= 0x80 {
      assert data[0] == 0x80 + n / 0x100 && data[1] == n % 0x100;
    }
  }

  lemma {:induction false} ReadWriteLength16(n: int, rest: Bytes)
    requires 0 <= n <= 0x7fff_ffff
    ensures ReadLength16(WriteLength16(n) + rest) == Some((n, |WriteLength16(n)|))
  {
    var data := WriteLength16(n) + rest;
    if n < 0x8000 {
      assert U16At(data, 0) == n;
    } else {
      assert data[0..2] == Le16(0x8000 + n / 0x1_0000);
      assert data[2..4] == Le16(n % 0x1_0000);
      assert U16At(data, 0) == 0x8000 + n / 0x1_0000;
      assert U16At(data, 2) == n % 0x1_0000;
    }
  }

  /**
   Writing inverts reading as well, except that the reader also takes a small length in its long form:
   the bytes consumed are the written ones exactly when the short form was not passed over.
   */
  lemma {:induction false} WriteReadLength8(data: Bytes)
    requires ReadLength8(data).Some?
    ensures var (n, used) := ReadLength8(data).value;
            data[..used] == WriteLength8(n) <==> (used == 2 ==> n >= 0x80)
  {
    var (n, used) := ReadLength8(data).value;
    if used == 2 {
      assert data[..2] == [data[0], data[1]];
    } else {
      assert data[..1] == [data[0]];
    }
  }

  lemma {:induction false} Le16OfU16(data: Bytes, i: nat)
    requires i + 2 <= |data|
    ensures Le16(U16At(data, i)) == data[i..i + 2]
  {
    var n := U16At(data, i);
    assert n as int % 0x100 == data[i] as int && n as int / 0x100 == data[i + 1] as int;
  }

  lemma {:induction false} HighAndLow(high: nat, low: u16)
    ensures (high * 0x1_0000 + low as int) / 0x1_0000 == high
    ensures (high * 0x1_0000 + low as int) % 0x1_0000 == low as int
  {
  }

  lemma {:induction false} WriteReadLength16(data: Bytes)
    requires ReadLength16(data).Some?
    ensures var (n, used) := ReadLength16(data).value;
            data[..used] == WriteLength16(n) <==> (used == 4 ==> n >= 0x8000)
  {
    var (n, used) := ReadLength16(data).value;
    Le16OfU16(data, 0);
    hide Le16;
    if used == 4 {
      if n >= 0x8000 {
        Le16OfU16(data, 2);
        HighAndLow(U16At(data, 0) as int - 0x8000, U16At(data, 2));
        assert data[..4] == data[0..2] + data[2..4];
      }
      hide U16At;
    } else {
      assert data[..2] == data[0..2];
    }
  }

  // ---------- Text ----------

  /** A Unicode scalar value. */
  type Scalar = c: int | 0 <= c < 0xD800 || 0xE000 <= c < 0x11_0000
  type Text = seq<Scalar>

  const REPLACEMENT: Scalar := 0xFFFD

  function Utf8Of(c: Scalar): Bytes {
    if c < 0x80 then [c]
    else if c < 0x800 then [0xC0 + c / 0x40, 0x80 + c % 0x40]
    else if c < 0x1_0000 then [0xE0 + c / 0x1000, 0x80 + c / 0x40 % 0x40, 0x80 + c % 0x40]
    else [0xF0 + c / 0x4_0000, 0x80 + c / 0x1000 % 0x40, 0x80 + c / 0x40 % 0x40, 0x80 + c % 0x40]
  }

  /** The Go string that holds a text. */
  function Utf8(text: Text): Bytes {
    if text == [] then [] else Utf8Of(text[0]) + Utf8(text[1..])
  }

  function Utf16Of(c: Scalar): seq<u16> {
    if c < 0x1_0000 then [c] else [0xD800 + (c - 0x1_0000) / 0x400, 0xDC00 + (c - 0x1_0000) % 0x400]
  }

  function Utf16(text: Text): seq<u16> {
    if text == [] then [] else Utf16Of(text[0]) + Utf16(text[1..])
  }

  /** `utf16.Decode`: surrogate pairs are joined and lone surrogates replaced. */
  function DecodeUtf16(units: seq<u16>): Text {
    if units == [] then []
    else if units[0] < 0xD800 || 0xE000 <= units[0] then [units[0]] + DecodeUtf16(units[1..])
    else if units[0] < 0xDC00 && |units| > 1 && 0xDC00 <= units[1] < 0xE000 then
      [(units[0] - 0xD800) * 0x400 + (units[1] - 0xDC00) + 0x1_0000] + DecodeUtf16(units[2..])
    else [REPLACEMENT] + DecodeUtf16(units[1..])
  }

  lemma {:induction false} DecodeFirst(c: Scalar, rest: seq<u16>)
    ensures DecodeUtf16(Utf16Of(c) + rest) == [c] + DecodeUtf16(rest)
  {
    var units := Utf16Of(c) + rest;
    assert units[|Utf16Of(c)|..] == rest;
  }

  lemma {:induction false} DecodeText(text: Text, rest: seq<u16>)
    ensures DecodeUtf16(Utf16(text) + rest) == text + DecodeUtf16(rest)
  {
    hide DecodeUtf16, Utf16Of;
    if text == [] {
      assert Utf16(text) + rest == rest;
    } else {
      var behind := Utf16(text[1..]) + rest;
      DecodeFirst(text[0], behind);
      DecodeText(text[1..], rest);
      assert Utf16(text) + rest == Utf16Of(text[0]) + behind;
      assert text + DecodeUtf16(rest) == [text[0]] + (text[1..] + DecodeUtf16(rest));
    }
  }

  lemma {:induction false} DecodeUtf16Inverts(text: Text)
    ensures DecodeUtf16(Utf16(text)) == text
  {
    DecodeText(text, []);
    assert Utf16(text) + [] == Utf16(text);
  }

  /** A surrogate that is not half of a pair becomes one replacement character, and decoding goes on behind it. */
  lemma {:induction false} LoneSurrogateIsReplaced(text: Text, unit: u16, rest: seq<u16>)
    requires 0xD800 <= unit < 0xE000
    requires unit < 0xDC00 ==> rest == [] || !(0xDC00 <= rest[0] < 0xE000)
    ensures DecodeUtf16(Utf16(text) + ([unit] + rest)) == text + ([0xFFFD] + DecodeUtf16(rest))
  {
    hide Utf16;
    DecodeText(text, [unit] + rest);
    assert ([unit] + rest)[1..] == rest;
  }

  /** The six bits of a continuation byte. */
  function Bits(b: byte): int {
    b as int - 0x80
  }

  /** The scalar whose bytes these are: the first byte says how many follow. */
  function ScalarIn(bytes: Bytes): int
    requires 1 <= |bytes| <= 4
  {
    var first := bytes[0] as int;
    match |bytes|
    case 1 => first
    case 2 => 0x40 * (first - 0xC0) + Bits(bytes[1])
    case 3 => 0x1000 * (first - 0xE0) + 0x40 * Bits(bytes[1]) + Bits(bytes[2])
    case _ => 0x4_0000 * (first - 0xF0) + 0x1000 * Bits(bytes[1]) + 0x40 * Bits(bytes[2]) + Bits(bytes[3])
  }

  lemma {:induction false} SixBitGroups(c: nat)
    ensures c == 0x40 * (c / 0x40) + c % 0x40
    ensures c / 0x40 == 0x40 * (c / 0x1000) + c / 0x40 % 0x40
    ensures c / 0x1000 == 0x40 * (c / 0x4_0000) + c / 0x1000 % 0x40
  {
  }

  /** The bytes of a scalar give it back, and there are as many of them as the size of the scalar asks for. */
  lemma {:induction false} Utf8OfInverts(c: Scalar)
    ensures var bytes := Utf8Of(c);
            && |bytes| == (if c < 0x80 then 1 else if c < 0x800 then 2 else if c < 0x1_0000 then 3 else 4)
            && ScalarIn(bytes) == c
            && forall i :: 0 < i < |bytes| ==> 0 <= Bits(bytes[i]) < 0x40
  {
    SixBitGroups(c);
  }

  function UnitsAt(data: Bytes, start: nat, count: nat): seq<u16>
    requires start + 2 * count <= |data|
  {
    seq(count, i requires 0 <= i < count => U16At(data, start + 2 * i))
  }

  function LeUnits(units: seq<u16>): (r: Bytes)
    ensures |r| == 2 * |units|
  {
    if units == [] then [] else Le16(units[0]) + LeUnits(units[1..])
  }

  lemma {:induction false} LeUnitsAt(units: seq<u16>, i: nat)
    requires i < |units|
    ensures U16At(LeUnits(units), 2 * i) == units[i]
  {
    if i == 0 {
      assert LeUnits(units)[..2] == Le16(units[0]);
    } else {
      LeUnitsAt(units[1..], i - 1);
      U16AtOffset(Le16(units[0]), LeUnits(units[1..]), 2 * (i - 1));
    }
  }

  lemma {:induction false} UnitsAtInverts(data: Bytes, start: nat, units: seq<u16>)
    requires start + 2 * |units| <= |data|
    requires data[start..start + 2 * |units|] == LeUnits(units)
    ensures UnitsAt(data, start, |units|) == units
  {
    forall i | 0 <= i < |units| ensures U16At(data, start + 2 * i) == units[i] {
      LeUnitsAt(units, i);
      var part := data[start..start + 2 * |units|];
      assert part[2 * i] == data[start + 2 * i];
      assert part[2 * i + 1] == data[start + 2 * i + 1];
    }
  }

  // ---------- ASCII ----------

  /** ASCII characters read both as bytes of a Go string and as scalars of a text. */
  type ascii = c: int | 0 <= c < 0x80

  function AsciiCode(c: char): ascii
    requires c < 128 as char
  {
    c as int
  }

  function Ascii(s: string): (r: seq<ascii>)
    requires forall i :: 0 <= i < |s| ==> s[i] < 128 as char
    ensures |r| == |s| && forall i :: 0 <= i < |s| ==> r[i] == s[i] as int
  {
    seq(|s|, i requires 0 <= i < |s| => AsciiCode(s[i]))
  }

  function Characters(data: Bytes): (s: string)
    ensures |s| == |data| && forall i :: 0 <= i < |s| ==> s[i] as int == data[i]
  {
    seq(|data|, i requires 0 <= i < |data| => data[i] as char)
  }

  lemma {:induction false} Utf8OfAscii(text: seq<ascii>)
    ensures Utf8(text) == text
  {
    if text != [] {
      Utf8OfAscii(text[1..]);
      assert text == [text[0]] + text[1..];
    }
  }
}
