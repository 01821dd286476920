/**
 An encoder of binary manifests and the meaning of what it encodes, given without bytes. Parsing the
 encoding of any document yields that meaning.
 */
module AxmlEncoder {
  import opened Prelude
  import opened AxmlText
  import opened AxmlParser
  import opened AxmlMeaning
  import Decimal

  /** An attribute, and what an entry longer than twenty bytes holds behind it. */
  datatype Entry = Entry(ns: u32, attribute: Attribute, tail: Bytes)

  /**
   `extra` makes a header longer than it has to be, `gap` stands between the fields of an element and its attributes,
   and `stride` is how much longer than twenty bytes each of them is.
   */
  datatype Chunk =
    | Other(kind: u16, header: Bytes, body: Bytes)
    | Strings(utf8Encoded: bool, sorted: bool, extra: Bytes, texts: seq<Text>, padding: Bytes)
    | Start(line: u32, comment: u32, extra: Bytes, ns: u32, name: u32, gap: Bytes, stride: nat, entries: seq<Entry>)

  // ---------- Meaning ----------

  function PoolOf(texts: seq<Text>): Pool {
    seq(|texts|, i requires 0 <= i < |texts| => Utf8(texts[i]))
  }

  function Attributes(entries: seq<Entry>, pool: Pool, meta: Metadata): Parsed<Metadata> {
    if entries == [] then Ok(meta)
    else
      match AttributeMeaning(pool, entries[0].attribute, meta)
      case Err(e) => Err(e)
      case Ok(next) => Attributes(entries[1..], pool, next)
  }

  function ChunkMeaning(chunk: Chunk, pool: Pool): Parsed<Outcome> {
    match chunk
    case Other(_, _, _) => Ok(Continue(pool))
    case Strings(_, _, _, texts, _) => Ok(Continue(PoolOf(texts)))
    case Start(_, _, _, _, name, _, _, entries) =>
      if TextMeaning(pool, name) != Ascii("manifest") then Ok(Continue(pool))
      else
        match Attributes(entries, pool, Metadata([], [], 0))
        case Err(e) => Err(e)
        case Ok(meta) => if meta.versionCode <= 0 then Err(MissingVersionCode) else Ok(Found(meta))
  }

  function Meaning(chunks: seq<Chunk>, pool: Pool): Parsed<Metadata> {
    if chunks == [] then Err(ElementNotFound)
    else
      match ChunkMeaning(chunks[0], pool)
      case Err(e) => Err(e)
      case Ok(Found(meta)) => Ok(meta)
      case Ok(Continue(latest)) => Meaning(chunks[1..], latest)
  }

  // ---------- Encoding ----------

  predicate EncodableText(utf8Encoded: bool, text: Text) {
    if utf8Encoded then |Utf16(text)| <= 0x7fff && |Utf8(text)| <= 0x7fff else |Utf16(text)| <= 0x7fff_ffff
  }

  function EncodeText(utf8Encoded: bool, text: Text): (r: Bytes)
    requires EncodableText(utf8Encoded, text)
    ensures r != []
  {
    if utf8Encoded then
      WriteLength8(|Utf16(text)|) + WriteLength8(|Utf8(text)|) + Utf8(text) + [0]
    else
      WriteLength16(|Utf16(text)|) + LeUnits(Utf16(text)) + [0, 0]
  }

  function EncodeTexts(utf8Encoded: bool, texts: seq<Text>): Bytes
    requires forall i :: 0 <= i < |texts| ==> EncodableText(utf8Encoded, texts[i])
  {
    if texts == [] then [] else EncodeTexts(utf8Encoded, Init(texts)) + EncodeText(utf8Encoded, Last(texts))
  }

  predicate EncodableTexts(utf8Encoded: bool, texts: seq<Text>) {
    && (forall i :: 0 <= i < |texts| ==> EncodableText(utf8Encoded, texts[i]))
    && |EncodeTexts(utf8Encoded, texts)| < 0x4000_0000
    && |texts| < 0x1000_0000
  }

  /** The offset table: where each text starts, relative to the first. */
  function EncodeOffsets(utf8Encoded: bool, texts: seq<Text>): (r: Bytes)
    requires forall i :: 0 <= i < |texts| ==> EncodableText(utf8Encoded, texts[i])
    requires |EncodeTexts(utf8Encoded, texts)| < 0x4000_0000
    ensures |r| == 4 * |texts|
  {
    if texts == [] then []
    else EncodeOffsets(utf8Encoded, Init(texts)) + Le32(|EncodeTexts(utf8Encoded, Init(texts))|)
  }

  function EncodeEntry(entry: Entry): (r: Bytes)
    ensures |r| == 20 + |entry.tail|
  {
    var a := entry.attribute;
    Le32(entry.ns) + Le32(a.name) + Le32(a.raw) + Le16(8) + [0, a.valueType] + Le32(a.data) + entry.tail
  }

  function EncodeEntries(entries: seq<Entry>): Bytes {
    if entries == [] then [] else EncodeEntries(Init(entries)) + EncodeEntry(Last(entries))
  }

  function Header(kind: u16, headerSize: u16, size: u32): (r: Bytes)
    ensures |r| == 8
  {
    Le16(kind) + Le16(headerSize) + Le32(size)
  }

  /** The flags of a pool: 0x100 for UTF-8, and 1 for sorted texts, which does not matter here. */
  function FlagsOf(utf8Encoded: bool, sorted: bool): u32 {
    (if utf8Encoded then 0x100 else 0) + if sorted then 1 else 0
  }

  function StringsFields(flags: u32, headerSize: u16, count: nat): (r: Bytes)
    requires count < 0x1000_0000
    ensures |r| == 20
  {
    Le32(count) + Le32(0) + Le32(flags) + Le32(headerSize as int + 4 * count) + Le32(0)
  }

  function StartFields(ns: u32, name: u32, attrStart: u16, attrSize: u16, count: u16): (r: Bytes)
    ensures |r| == 20
  {
    Le32(ns) + Le32(name) + Le16(attrStart) + Le16(attrSize) + Le16(count) + Le16(0) + Le16(0) + Le16(0)
  }

  predicate Encodable(chunk: Chunk) {
    match chunk
    case Other(kind, header, body) =>
      kind !in [0x0001, 0x0102] && 8 + |header| < 0x1_0000 && 8 + |header| + |body| < 0x8000_0000
    case Strings(utf8Encoded, _, extra, texts, padding) =>
      EncodableTexts(utf8Encoded, texts) && 28 + |extra| < 0x1_0000
      && 28 + |extra| + 4 * |texts| + |EncodeTexts(utf8Encoded, texts)| + |padding| < 0x8000_0000
    case Start(_, _, extra, _, _, gap, stride, entries) =>
      16 + |extra| < 0x1_0000 && 20 + |gap| < 0x1_0000 && 20 + stride < 0x1_0000 && |entries| < 0x1_0000
      && (forall i :: 0 <= i < |entries| ==> |entries[i].tail| == stride)
      && 36 + |extra| + |gap| + |EncodeEntries(entries)| < 0x8000_0000
  }

  function KindOf(chunk: Chunk): u16 {
    match chunk
    case Other(kind, _, _) => kind
    case Strings(_, _, _, _, _) => 0x0001
    case Start(_, _, _, _, _, _, _, _) => 0x0102
  }

  function HeaderSizeOf(chunk: Chunk): (size: u16)
    requires Encodable(chunk)
    ensures size >= 8
  {
    match chunk
    case Other(_, header, _) => 8 + |header|
    case Strings(_, _, extra, _, _) => 28 + |extra|
    case Start(_, _, extra, _, _, _, _, _) => 16 + |extra|
  }

  function Payload(chunk: Chunk): (r: Bytes)
    requires Encodable(chunk)
    ensures HeaderSizeOf(chunk) <= 8 + |r| < 0x8000_0000
  {
    match chunk
    case Other(_, header, body) => header + body
    case Strings(utf8Encoded, sorted, extra, texts, padding) =>
      StringsFields(FlagsOf(utf8Encoded, sorted), 28 + |extra|, |texts|)
      + (extra + (EncodeOffsets(utf8Encoded, texts) + (EncodeTexts(utf8Encoded, texts) + padding)))
    case Start(line, comment, extra, ns, name, gap, stride, entries) =>
      Le32(line) + Le32(comment) + extra
      + (StartFields(ns, name, 20 + |gap|, 20 + stride, |entries|) + (gap + EncodeEntries(entries)))
  }

  function EncodeChunk(chunk: Chunk): (r: Bytes)
    requires Encodable(chunk)
    ensures |r| == 8 + |Payload(chunk)|
  {
    Header(KindOf(chunk), HeaderSizeOf(chunk), 8 + |Payload(chunk)|) + Payload(chunk)
  }

  function EncodeChunks(chunks: seq<Chunk>): Bytes
    requires forall i :: 0 <= i < |chunks| ==> Encodable(chunks[i])
  {
    if chunks == [] then [] else EncodeChunk(chunks[0]) + EncodeChunks(chunks[1..])
  }

  /** What stands before the first chunk. Its kind and size do not matter. */
  datatype Preamble = Preamble(kind: u16, headerSize: u16, size: u32, extra: Bytes)

  /** A header size that is too small for a header or too large for the file counts as 8. */
  predicate EncodableDocument(preamble: Preamble, chunks: seq<Chunk>) {
    && (forall i :: 0 <= i < |chunks| ==> Encodable(chunks[i]))
    && 8 + |preamble.extra|
       == if 8 <= preamble.headerSize as int < 8 + |preamble.extra| + |EncodeChunks(chunks)| then preamble.headerSize
          else 8
  }

  function EncodeDocument(preamble: Preamble, chunks: seq<Chunk>): Bytes
    requires EncodableDocument(preamble, chunks)
  {
    Header(preamble.kind, preamble.headerSize, preamble.size) + (preamble.extra + EncodeChunks(chunks))
  }

  // ---------- Reading one text ----------

  lemma {:induction false} ReadUtf8Text(units: nat, text: Bytes, rest: Bytes)
    requires units <= 0x7fff && |text| <= 0x7fff
    ensures Utf8String(WriteLength8(units) + (WriteLength8(|text|) + (text + rest))) == Ok(text)
  {
    hide ReadLength8, WriteLength8;
    var first := WriteLength8(units);
    var second := WriteLength8(|text|);
    var data := first + (second + (text + rest));
    ReadWriteLength8(units, second + (text + rest));
    assert data[|first|..] == second + (text + rest);
    ReadWriteLength8(|text|, text + rest);
    var start := |first| + |second|;
    assert data[start..start + |text|] == text;
  }

  lemma {:induction false} ReadUtf16Text(text: Text, rest: Bytes)
    requires |Utf16(text)| <= 0x7fff_ffff
    ensures Utf16String(WriteLength16(|Utf16(text)|) + (LeUnits(Utf16(text)) + rest)) == Ok(Utf8(text))
  {
    hide ReadLength16, WriteLength16, UnitsAt, DecodeUtf16, Utf16, Utf8;
    var units := Utf16(text);
    var first := WriteLength16(|units|);
    var data := first + (LeUnits(units) + rest);
    ReadWriteLength16(|units|, LeUnits(units) + rest);
    assert data[|first|..|first| + 2 * |units|] == LeUnits(units);
    UnitsAtInverts(data, |first|, units);
    DecodeUtf16Inverts(text);
  }

  lemma {:induction false} DecodeEncodedText(utf8Encoded: bool, text: Text, rest: Bytes)
    requires EncodableText(utf8Encoded, text)
    ensures DecodedString(EncodeText(utf8Encoded, text) + rest, utf8Encoded) == Ok(Utf8(text))
  {
    hide Utf8String, Utf16String, WriteLength8, WriteLength16, LeUnits, Utf8, Utf16;
    if utf8Encoded {
      var first, second := WriteLength8(|Utf16(text)|), WriteLength8(|Utf8(text)|);
      assert first + second + Utf8(text) + [0] + rest == first + (second + (Utf8(text) + ([0] + rest)));
      ReadUtf8Text(|Utf16(text)|, Utf8(text), [0] + rest);
    } else {
      var first, units := WriteLength16(|Utf16(text)|), LeUnits(Utf16(text));
      assert first + units + [0, 0] + rest == first + (units + ([0, 0] + rest));
      ReadUtf16Text(text, [0, 0] + rest);
    }
  }

  // ---------- Reading a string pool ----------

  lemma {:induction false} TextsPrefix(utf8Encoded: bool, texts: seq<Text>, i: nat)
    requires forall j :: 0 <= j < |texts| ==> EncodableText(utf8Encoded, texts[j])
    requires i <= |texts|
    ensures EncodeTexts(utf8Encoded, texts[..i]) <= EncodeTexts(utf8Encoded, texts)
  {
    if i == |texts| {
      assert texts[..i] == texts;
    } else {
      TextsPrefix(utf8Encoded, Init(texts), i);
      assert Init(texts)[..i] == texts[..i];
    }
  }

  lemma {:induction false} PrefixAfter(before: Bytes, text: Bytes, all: Bytes)
    requires before + text <= all
    ensures |before| <= |all| && text <= all[|before|..]
  {
    assert all[..|before + text|] == before + text;
    assert all[|before|..][..|text|] == text;
  }

  lemma {:induction false} TextAt(utf8Encoded: bool, texts: seq<Text>, i: nat)
    requires forall j :: 0 <= j < |texts| ==> EncodableText(utf8Encoded, texts[j])
    requires i < |texts|
    ensures var start := |EncodeTexts(utf8Encoded, texts[..i])|;
            && start <= |EncodeTexts(utf8Encoded, texts)|
            && EncodeText(utf8Encoded, texts[i]) <= EncodeTexts(utf8Encoded, texts)[start..]
  {
    hide EncodeText, EncodableText;
    TextsPrefix(utf8Encoded, texts, i + 1);
    var before := EncodeTexts(utf8Encoded, texts[..i]);
    var text := EncodeText(utf8Encoded, texts[i]);
    assert Init(texts[..i + 1]) == texts[..i] && Last(texts[..i + 1]) == texts[i];
    assert EncodeTexts(utf8Encoded, texts[..i + 1]) == before + text;
    hide EncodeTexts;
    PrefixAfter(before, text, EncodeTexts(utf8Encoded, texts));
  }

  lemma {:induction false} U32AtPrefix(data: Bytes, rest: Bytes, i: nat)
    requires i + 4 <= |data|
    ensures U32At(data + rest, i) == U32At(data, i)
  {
  }

  lemma {:induction false} OffsetAt(utf8Encoded: bool, texts: seq<Text>, i: nat)
    requires EncodableTexts(utf8Encoded, texts) && i < |texts|
    ensures U32At(EncodeOffsets(utf8Encoded, texts), 4 * i) == |EncodeTexts(utf8Encoded, texts[..i])|
  {
    hide U32At, EncodeText;
    TextsPrefix(utf8Encoded, texts, |texts| - 1);
    assert Init(texts) == texts[..|texts| - 1];
    var before := EncodeOffsets(utf8Encoded, Init(texts));
    var offset := Le32(|EncodeTexts(utf8Encoded, Init(texts))|);
    if i == |texts| - 1 {
      U32AtOffset(before, offset, 0);
    } else {
      OffsetAt(utf8Encoded, Init(texts), i);
      assert Init(texts)[..i] == texts[..i];
      U32AtPrefix(before, offset, 4 * i);
    }
  }

  /** What the walk relies on when it reads a string pool whose header has `h` bytes. */
  ghost predicate HoldsStrings(chunk: Bytes, h: nat, utf8Encoded: bool, texts: seq<Text>)
    requires EncodableTexts(utf8Encoded, texts)
  {
    var at := h + 4 * |texts|;
    && at <= |chunk|
    && chunk[h..at] == EncodeOffsets(utf8Encoded, texts)
    && EncodeTexts(utf8Encoded, texts) <= chunk[at..]
  }

  lemma {:induction false} OffsetInChunk(chunk: Bytes, h: nat, utf8Encoded: bool, texts: seq<Text>, i: nat)
    requires EncodableTexts(utf8Encoded, texts) && HoldsStrings(chunk, h, utf8Encoded, texts) && i < |texts|
    ensures U32At(chunk, h + 4 * i) == |EncodeTexts(utf8Encoded, texts[..i])|
  {
    hide U32At, EncodeOffsets, EncodeTexts;
    var at := h + 4 * |texts|;
    var offsets := EncodeOffsets(utf8Encoded, texts);
    OffsetAt(utf8Encoded, texts, i);
    assert chunk == chunk[..h] + (offsets + chunk[at..]);
    U32AtOffset(chunk[..h], offsets + chunk[at..], 4 * i);
    U32AtPrefix(offsets, chunk[at..], 4 * i);
  }

  lemma {:induction false} TextInChunk(chunk: Bytes, h: nat, utf8Encoded: bool, texts: seq<Text>, i: nat)
    requires EncodableTexts(utf8Encoded, texts) && HoldsStrings(chunk, h, utf8Encoded, texts) && i < |texts|
    ensures var start := h + 4 * |texts| + |EncodeTexts(utf8Encoded, texts[..i])|;
            start < |chunk| && DecodedString(chunk[start..], utf8Encoded) == Ok(Utf8(texts[i]))
  {
    hide EncodeText, EncodeTexts, EncodeOffsets, DecodedString;
    var at := h + 4 * |texts|;
    var offset := |EncodeTexts(utf8Encoded, texts[..i])|;
    var encoded := EncodeText(utf8Encoded, texts[i]);
    TextAt(utf8Encoded, texts, i);
    assert encoded <= chunk[at..][offset..];
    assert chunk[at + offset..] == chunk[at..][offset..];
    var rest := chunk[at + offset..][|encoded|..];
    assert chunk[at + offset..] == encoded + rest;
    DecodeEncodedText(utf8Encoded, texts[i], rest);
  }

  lemma {:induction false} EntryOfEncodedPool(chunk: Bytes, h: nat, utf8Encoded: bool, texts: seq<Text>, i: nat)
    requires EncodableTexts(utf8Encoded, texts) && HoldsStrings(chunk, h, utf8Encoded, texts) && i < |texts|
    ensures PoolEntry(chunk, PoolHeader(|texts|, h, h + 4 * |texts|, utf8Encoded), i) == Ok(Utf8(texts[i]))
  {
    hide EncodeText, EncodeTexts, EncodeOffsets, DecodedString, U32At;
    OffsetInChunk(chunk, h, utf8Encoded, texts, i);
    TextInChunk(chunk, h, utf8Encoded, texts, i);
  }

  lemma {:induction false} EntriesOfEncodedPool(chunk: Bytes, h: nat, utf8Encoded: bool, texts: seq<Text>, i: nat)
    requires EncodableTexts(utf8Encoded, texts) && HoldsStrings(chunk, h, utf8Encoded, texts) && i <= |texts|
    ensures PoolFrom(chunk, PoolHeader(|texts|, h, h + 4 * |texts|, utf8Encoded), i, PoolOf(texts)[..i])
         == Ok(PoolOf(texts))
    decreases |texts| - i
  {
    hide PoolEntry, HoldsStrings, EncodableTexts, EncodeTexts;
    if i < |texts| {
      EntryOfEncodedPool(chunk, h, utf8Encoded, texts, i);
      EntriesOfEncodedPool(chunk, h, utf8Encoded, texts, i + 1);
      assert PoolOf(texts)[..i] + [Utf8(texts[i])] == PoolOf(texts)[..i + 1];
    } else {
      assert PoolOf(texts)[..i] == PoolOf(texts);
    }
  }

  lemma {:induction false} HeaderFields(kind: u16, headerSize: u16, size: u32, rest: Bytes)
    ensures var data := Header(kind, headerSize, size) + rest;
            U16At(data, 0) == kind && U16At(data, 2) == headerSize && U32At(data, 4) == size
  {
    var data := Header(kind, headerSize, size) + rest;
    assert data[0..2] == Le16(kind) && data[2..4] == Le16(headerSize) && data[4..8] == Le32(size);
    U32AtOffset(data[..4], Le32(size), 0);
    assert data[..8] == data[..4] + Le32(size);
  }

  lemma {:induction false} U32AtSlice(data: Bytes, i: nat)
    requires i + 4 <= |data|
    ensures U32At(data, i) == U32At(data[i..i + 4], 0)
  {
  }

  lemma {:induction false} StringsFieldValues(head: Bytes, flags: u32, h: u16, count: nat, rest: Bytes)
    requires count < 0x1000_0000 && |head| == 8
    ensures var data := head + StringsFields(flags, h, count) + rest;
            && U32At(data, 8) == count
            && U32At(data, 16) == flags
            && U32At(data, 20) == h as int + 4 * count
  {
    var data := head + StringsFields(flags, h, count) + rest;
    assert data[8..12] == Le32(count) && data[16..20] == Le32(flags) && data[20..24] == Le32(h as int + 4 * count);
    U32AtSlice(data, 8);
    U32AtSlice(data, 16);
    U32AtSlice(data, 20);
  }

  lemma {:induction false} U16AtSlice(data: Bytes, i: nat)
    requires i + 2 <= |data|
    ensures U16At(data, i) == U16At(data[i..i + 2], 0)
  {
  }

  lemma {:induction false} FlagSaysUtf8(utf8Encoded: bool, sorted: bool)
    ensures FlagsOf(utf8Encoded, sorted) / 0x100 % 2 == 1 <==> utf8Encoded
  {
  }

  lemma {:induction false} HeaderOfEncodedPool(head: Bytes, utf8Encoded: bool, sorted: bool, h: u16, count: nat,
        rest: Bytes)
    requires |head| == 8 && U16At(head, 2) == h && 28 <= h && count < 0x1000_0000
    requires h as int - 28 + 4 * count <= |rest|
    ensures ReadPoolHeader(head + StringsFields(FlagsOf(utf8Encoded, sorted), h, count) + rest)
         == Ok(PoolHeader(count, h, h as int + 4 * count, utf8Encoded))
  {
    hide StringsFields, U32At, FlagsOf;
    StringsFieldValues(head, FlagsOf(utf8Encoded, sorted), h, count, rest);
    FlagSaysUtf8(utf8Encoded, sorted);
    var chunk := head + StringsFields(FlagsOf(utf8Encoded, sorted), h, count) + rest;
    assert chunk[2] == head[2] && chunk[3] == head[3];
  }

  /** Where the parts of a pool stand. */
  lemma {:induction false} PoolParts(head: Bytes, fields: Bytes, extra: Bytes, offsets: Bytes, tail: Bytes)
    requires |head| == 8 && |fields| == 20
    ensures var data := head + fields + (extra + (offsets + tail));
            var h := 28 + |extra|;
            data[h..h + |offsets|] == offsets && data[h + |offsets|..] == tail
  {
  }

  lemma {:induction false} ReadEncodedPool(utf8Encoded: bool, sorted: bool, extra: Bytes, texts: seq<Text>,
        padding: Bytes)
    requires Encodable(Strings(utf8Encoded, sorted, extra, texts, padding))
    ensures ReadPool(EncodeChunk(Strings(utf8Encoded, sorted, extra, texts, padding))) == Ok(PoolOf(texts))
  {
    hide ReadPoolHeader, PoolFrom, PoolOf, EncodeTexts, EncodeOffsets, StringsFields, Header, U16At, FlagsOf;
    var chunk := Strings(utf8Encoded, sorted, extra, texts, padding);
    var data := EncodeChunk(chunk);
    var encoded := EncodeTexts(utf8Encoded, texts);
    var offsets := EncodeOffsets(utf8Encoded, texts);
    var h: u16 := 28 + |extra|;
    var fields := StringsFields(FlagsOf(utf8Encoded, sorted), h, |texts|);
    var head := Header(0x0001, h, 8 + |Payload(chunk)|);
    HeaderFields(0x0001, h, 8 + |Payload(chunk)|, []);
    assert head + [] == head;
    assert data == head + fields + (extra + (offsets + (encoded + padding)));
    HeaderOfEncodedPool(head, utf8Encoded, sorted, h, |texts|, extra + (offsets + (encoded + padding)));
    PoolParts(head, fields, extra, offsets, encoded + padding);
    EntriesOfEncodedPool(data, h, utf8Encoded, texts, 0);
    assert PoolOf(texts)[..0] == [];
  }

  // ---------- Reading a start element ----------

  lemma {:induction false} EntryFields(entry: Entry)
    ensures var data := EncodeEntry(entry);
            var a := entry.attribute;
            && data[4..8] == Le32(a.name) && data[8..12] == Le32(a.raw)
            && data[15] == a.valueType && data[16..20] == Le32(a.data)
  {
    hide Le32, Le16;
  }

  lemma {:induction false} AttributeOfEntry(data: Bytes, at: nat, entry: Entry)
    requires at <= |data| && EncodeEntry(entry) <= data[at..]
    ensures at + 20 <= |data| && AttributeAt(data, at) == entry.attribute
  {
    hide U32At, Le32;
    var own := EncodeEntry(entry);
    var a := entry.attribute;
    EntryFields(entry);
    assert |own| == 20 + |entry.tail|;
    hide EncodeEntry;
    assert forall k :: 0 <= k < 20 ==> data[at + k] == data[at..][k] == own[k];
    assert data[at + 4..at + 8] == own[4..8] == Le32(a.name);
    assert data[at + 8..at + 12] == own[8..12] == Le32(a.raw);
    assert data[at + 16..at + 20] == own[16..20] == Le32(a.data);
    U32AtSlice(data, at + 4);
    U32AtSlice(data, at + 8);
    U32AtSlice(data, at + 16);
  }

  ghost predicate AllTails(entries: seq<Entry>, stride: nat) {
    forall i :: 0 <= i < |entries| ==> |entries[i].tail| == stride
  }

  lemma {:induction false} OneMore(n: nat, size: nat)
    ensures (n + 1) * size == n * size + size
  {
  }

  lemma {:induction false} EntriesLength(entries: seq<Entry>, stride: nat)
    requires AllTails(entries, stride)
    ensures |EncodeEntries(entries)| == |entries| * (20 + stride)
  {
    hide EncodeEntry;
    if entries != [] {
      EntriesLength(Init(entries), stride);
      OneMore(|entries| - 1, 20 + stride);
    }
  }

  lemma {:induction false} EntriesPrefix(entries: seq<Entry>, i: nat)
    requires i <= |entries|
    ensures EncodeEntries(entries[..i]) <= EncodeEntries(entries)
  {
    hide EncodeEntry;
    if i == |entries| {
      assert entries[..i] == entries;
    } else {
      EntriesPrefix(Init(entries), i);
      assert Init(entries)[..i] == entries[..i];
    }
  }

  lemma {:induction false} EntryAt(entries: seq<Entry>, stride: nat, i: nat)
    requires AllTails(entries, stride) && i < |entries|
    ensures var at := i * (20 + stride);
            at <= |EncodeEntries(entries)| && EncodeEntry(entries[i]) <= EncodeEntries(entries)[at..]
  {
    hide EncodeEntry;
    var before := EncodeEntries(entries[..i]);
    assert AllTails(entries[..i], stride);
    EntriesLength(entries[..i], stride);
    EntriesPrefix(entries, i + 1);
    assert Init(entries[..i + 1]) == entries[..i] && Last(entries[..i + 1]) == entries[i];
    assert EncodeEntries(entries[..i + 1]) == before + EncodeEntry(entries[i]);
    hide EncodeEntries, AllTails;
    PrefixAfter(before, EncodeEntry(entries[i]), EncodeEntries(entries));
  }

  lemma {:induction false} AttributeBehind(chunk: Bytes, base: nat, offset: nat, entry: Entry)
    requires base <= |chunk| && offset <= |chunk| - base && EncodeEntry(entry) <= chunk[base..][offset..]
    ensures base + offset + 20 <= |chunk| && AttributeAt(chunk, base + offset) == entry.attribute
  {
    hide EncodeEntry, AttributeAt;
    assert chunk[base + offset..] == chunk[base..][offset..];
    AttributeOfEntry(chunk, base + offset, entry);
  }

  lemma {:induction false} EntriesAreWithin(chunk: Bytes, base: nat, stride: nat, entries: seq<Entry>)
    requires AllTails(entries, stride) && base <= |chunk| && chunk[base..] == EncodeEntries(entries)
    ensures AxmlParser.Attributes(base, 20 + stride, |entries|).Within(chunk)
  {
    EntriesLength(entries, stride);
  }

  lemma {:induction false} EntryNumber(chunk: Bytes, base: nat, stride: nat, entries: seq<Entry>, i: nat)
    requires AllTails(entries, stride) && base <= |chunk| && chunk[base..] == EncodeEntries(entries)
    requires AxmlParser.Attributes(base, 20 + stride, |entries|).Within(chunk) && i < |entries|
    ensures AttributeNumber(chunk, AxmlParser.Attributes(base, 20 + stride, |entries|), i) == entries[i].attribute
  {
    hide AttributeAt, EncodeEntry, EncodeEntries, AllTails;
    EntryAt(entries, stride, i);
    AttributeBehind(chunk, base, i * (20 + stride), entries[i]);
  }

  lemma {:induction false} AttributesOfEntries(chunk: Bytes, base: nat, stride: nat, entries: seq<Entry>, pool: Pool,
        i: nat, meta: Metadata)
    requires AllTails(entries, stride) && i <= |entries| && base <= |chunk| && chunk[base..] == EncodeEntries(entries)
    requires AxmlParser.Attributes(base, 20 + stride, |entries|).Within(chunk)
    ensures AttributesFrom(chunk, AxmlParser.Attributes(base, 20 + stride, |entries|), pool, i, meta)
         == Attributes(entries[i..], pool, meta)
    decreases |entries| - i
  {
    hide ApplyAttribute, AttributeMeaning, AttributeNumber, EncodeEntries, AllTails;
    if i < |entries| {
      EntryNumber(chunk, base, stride, entries, i);
      AttributeIsRead(pool, entries[i].attribute, meta);
      var next := AttributeMeaning(pool, entries[i].attribute, meta);
      assert entries[i..][0] == entries[i];
      assert entries[i..][1..] == entries[i + 1..];
      if next.Ok? {
        AttributesOfEntries(chunk, base, stride, entries, pool, i + 1, next.value);
      }
    }
  }

  lemma {:induction false} StartFieldParts(ns: u32, name: u32, attrStart: u16, attrSize: u16, count: u16)
    ensures var fields := StartFields(ns, name, attrStart, attrSize, count);
            && fields[4..8] == Le32(name) && fields[8..10] == Le16(attrStart)
            && fields[10..12] == Le16(attrSize) && fields[12..14] == Le16(count)
  {
    hide Le32, Le16, U16At, U32At;
    var early := Le32(ns) + Le32(name);
    var late := Le16(attrStart) + Le16(attrSize) + Le16(count) + Le16(0) + Le16(0) + Le16(0);
    assert StartFields(ns, name, attrStart, attrSize, count) == early + late;
    assert early[4..8] == Le32(name);
    assert late[0..2] == Le16(attrStart) && late[2..4] == Le16(attrSize) && late[4..6] == Le16(count);
  }

  lemma {:induction false} PartOfMiddle(head: Bytes, middle: Bytes, rest: Bytes, i: nat, j: nat)
    requires i <= j <= |middle|
    ensures (head + (middle + rest))[|head| + i..|head| + j] == middle[i..j]
  {
  }

  lemma {:induction false} StartFieldValues(head: Bytes, ns: u32, name: u32, attrStart: u16, attrSize: u16, count: u16,
        rest: Bytes)
    ensures var data := head + (StartFields(ns, name, attrStart, attrSize, count) + rest);
            var h := |head|;
            && U32At(data, h + 4) == name
            && U16At(data, h + 8) == attrStart
            && U16At(data, h + 10) == attrSize
            && U16At(data, h + 12) == count
  {
    hide StartFields, Le32, Le16, U16At, U32At;
    var fields := StartFields(ns, name, attrStart, attrSize, count);
    var data := head + (fields + rest);
    var h := |head|;
    StartFieldParts(ns, name, attrStart, attrSize, count);
    PartOfMiddle(head, fields, rest, 4, 8);
    PartOfMiddle(head, fields, rest, 8, 10);
    PartOfMiddle(head, fields, rest, 10, 12);
    PartOfMiddle(head, fields, rest, 12, 14);
    U32AtSlice(data, h + 4);
    U16AtSlice(data, h + 8);
    U16AtSlice(data, h + 10);
    U16AtSlice(data, h + 12);
  }

  /** The header and the fields of an element with `count` entries, where `head` has the length the header gives. */
  lemma {:induction false} HeaderOfEncodedStart(head: Bytes, ns: u32, name: u32, gap: Bytes, stride: nat, count: u16,
        entries: Bytes, pool: Pool)
    requires 16 <= |head| < 0x1_0000 && U16At(head, 2) == |head|
    requires 20 + |gap| < 0x1_0000 && 20 + stride < 0x1_0000 && |entries| == count * (20 + stride)
    ensures ReadStartHeader(head + (StartFields(ns, name, 20 + |gap|, 20 + stride, count) + (gap + entries)), pool)
         == if TextMeaning(pool, name) != Ascii("manifest") then Ok(None)
            else Ok(Some(AxmlParser.Attributes(|head| + 20 + |gap|, 20 + stride, count)))
  {
    var fields := StartFields(ns, name, 20 + |gap|, 20 + stride, count);
    var chunk := head + (fields + (gap + entries));
    StartFieldValues(head, ns, name, 20 + |gap|, 20 + stride, count, gap + entries);
    assert chunk[2] == head[2] && chunk[3] == head[3];
    assert U16At(chunk, 2) == |head|;
    hide StartFields, U32At, U16At, Ascii;
  }

  /** The same with its entries. */
  lemma {:induction false} ReadStartOf(head: Bytes, ns: u32, name: u32, gap: Bytes, stride: nat, entries: seq<Entry>,
        pool: Pool)
    requires 16 <= |head| < 0x1_0000 && U16At(head, 2) == |head|
    requires 20 + |gap| < 0x1_0000 && 20 + stride < 0x1_0000 && |entries| < 0x1_0000 && AllTails(entries, stride)
    ensures ReadStart(head + (StartFields(ns, name, 20 + |gap|, 20 + stride, |entries|)
                              + (gap + EncodeEntries(entries))), pool)
         == if TextMeaning(pool, name) != Ascii("manifest") then Ok(None)
            else match Attributes(entries, pool, Metadata([], [], 0))
                 case Err(e) => Err(e)
                 case Ok(meta) => Ok(Some(meta))
  {
    hide AttributesFrom, Attributes, ReadStartHeader, StartFields, EncodeEntries, U16At, Ascii, TextMeaning, AllTails;
    var encoded := EncodeEntries(entries);
    var base := |head| + 20 + |gap|;
    var data := head + (StartFields(ns, name, 20 + |gap|, 20 + stride, |entries|) + (gap + encoded));
    EntriesLength(entries, stride);
    HeaderOfEncodedStart(head, ns, name, gap, stride, |entries|, encoded, pool);
    assert data[base..] == encoded;
    EntriesAreWithin(data, base, stride, entries);
    AttributesOfEntries(data, base, stride, entries, pool, 0, Metadata([], [], 0));
    assert entries[0..] == entries;
  }

  lemma {:induction false} ReadEncodedStart(line: u32, comment: u32, extra: Bytes, ns: u32, name: u32, gap: Bytes,
        stride: nat, entries: seq<Entry>, pool: Pool)
    requires Encodable(Start(line, comment, extra, ns, name, gap, stride, entries))
    ensures ReadStart(EncodeChunk(Start(line, comment, extra, ns, name, gap, stride, entries)), pool)
         == if TextMeaning(pool, name) != Ascii("manifest") then Ok(None)
            else match Attributes(entries, pool, Metadata([], [], 0))
                 case Err(e) => Err(e)
                 case Ok(meta) => Ok(Some(meta))
  {
    hide ReadStart, Attributes, Header, StartFields, EncodeEntries, U16At, Ascii, TextMeaning;
    var chunk := Start(line, comment, extra, ns, name, gap, stride, entries);
    var h: u16 := 16 + |extra|;
    var first := Header(0x0102, h, 8 + |Payload(chunk)|);
    var fixed := Le32(line) + Le32(comment) + extra;
    HeaderFields(0x0102, h, 8 + |Payload(chunk)|, fixed);
    assert AllTails(entries, stride);
    ReadStartOf(first + fixed, ns, name, gap, stride, entries, pool);
    hide Le32;
    var fields := StartFields(ns, name, 20 + |gap|, 20 + stride, |entries|);
    assert EncodeChunk(chunk) == (first + fixed) + (fields + (gap + EncodeEntries(entries)));
  }

  // ---------- Reading documents ----------

  lemma {:induction false} HeadedSize(kind: u16, headerSize: u16, payload: Bytes, rest: Bytes)
    requires 8 <= headerSize as int <= 8 + |payload| < 0x8000_0000
    ensures ChunkSize(Header(kind, headerSize, 8 + |payload|) + payload + rest) == Some(8 + |payload|)
    ensures U16At(Header(kind, headerSize, 8 + |payload|) + payload, 0) == kind
  {
    hide Header, U16At, U32At;
    var head := Header(kind, headerSize, 8 + |payload|);
    HeaderFields(kind, headerSize, 8 + |payload|, payload);
    HeaderFields(kind, headerSize, 8 + |payload|, payload + rest);
    assert head + payload + rest == head + (payload + rest);
  }

  lemma {:induction false} EncodedChunkHeader(chunk: Chunk, rest: Bytes)
    requires Encodable(chunk)
    ensures ChunkSize(EncodeChunk(chunk) + rest) == Some(|EncodeChunk(chunk)|)
    ensures U16At(EncodeChunk(chunk), 0) == KindOf(chunk)
  {
    hide Header, U16At, ChunkSize, KindOf, HeaderSizeOf, Payload, Encodable;
    HeadedSize(KindOf(chunk), HeaderSizeOf(chunk), Payload(chunk), rest);
  }

  lemma {:induction false} OutcomeOfEncodedChunk(chunk: Chunk, pool: Pool)
    requires Encodable(chunk)
    ensures ChunkOutcome(EncodeChunk(chunk), pool) == ChunkMeaning(chunk, pool)
  {
    hide ReadPool, ReadStart, EncodeChunk, Attributes, PoolOf;
    EncodedChunkHeader(chunk, []);
    match chunk {
      case Other(_, _, _) =>
      case Strings(utf8Encoded, sorted, extra, texts, padding) =>
        ReadEncodedPool(utf8Encoded, sorted, extra, texts, padding);
      case Start(line, comment, extra, ns, name, gap, stride, entries) =>
        ReadEncodedStart(line, comment, extra, ns, name, gap, stride, entries, pool);
    }
  }

  lemma {:induction false} WalkEncodedChunks(chunks: seq<Chunk>, pool: Pool)
    requires forall i :: 0 <= i < |chunks| ==> Encodable(chunks[i])
    ensures Walk(EncodeChunks(chunks), pool) == Meaning(chunks, pool)
  {
    hide ChunkOutcome, ChunkMeaning, EncodeChunk, ChunkSize;
    if chunks != [] {
      var first := EncodeChunk(chunks[0]);
      var rest := EncodeChunks(chunks[1..]);
      EncodedChunkHeader(chunks[0], rest);
      assert (first + rest)[..|first|] == first;
      assert (first + rest)[|first|..] == rest;
      OutcomeOfEncodedChunk(chunks[0], pool);
      var outcome := ChunkMeaning(chunks[0], pool);
      if outcome.Ok? && outcome.value.Continue? {
        WalkEncodedChunks(chunks[1..], outcome.value.pool);
      }
    }
  }

  /** Parsing an encoded document yields what the document means, for every document. */
  lemma {:induction false} ParseEncodedDocument(preamble: Preamble, chunks: seq<Chunk>)
    requires EncodableDocument(preamble, chunks)
    ensures Parse(EncodeDocument(preamble, chunks)) == Meaning(chunks, [])
  {
    hide EncodeChunks, Header, U16At, Walk, Meaning;
    var body := EncodeChunks(chunks);
    var data := EncodeDocument(preamble, chunks);
    HeaderFields(preamble.kind, preamble.headerSize, preamble.size, preamble.extra + body);
    assert data[FirstChunk(data)..] == body;
    WalkEncodedChunks(chunks, []);
  }

  // ---------- Consequences ----------

  /** Chunks that neither end the walk nor leave it in an error. */
  function PassesThrough(chunks: seq<Chunk>, pool: Pool): Option<Pool> {
    if chunks == [] then Some(pool)
    else
      match ChunkMeaning(chunks[0], pool)
      case Ok(Continue(latest)) => PassesThrough(chunks[1..], latest)
      case _ => None
  }

  lemma {:induction false} MeaningAfterPassage(before: seq<Chunk>, after: seq<Chunk>, pool: Pool)
    requires PassesThrough(before, pool).Some?
    ensures Meaning(before + after, pool) == Meaning(after, PassesThrough(before, pool).value)
  {
    hide ChunkMeaning;
    if before == [] {
      assert before + after == after;
    } else {
      var latest := ChunkMeaning(before[0], pool).value.pool;
      MeaningAfterPassage(before[1..], after, latest);
      assert (before + after)[1..] == before[1..] + after;
    }
  }

  /** Whatever passes through before a string pool changes nothing: the pool replaces what it left. */
  lemma {:induction false} InsertionBeforePoolChangesNothing(inserted: seq<Chunk>, strings: Chunk, after: seq<Chunk>,
        pool: Pool)
    requires strings.Strings? && PassesThrough(inserted, pool).Some?
    ensures Meaning(inserted + ([strings] + after), pool) == Meaning([strings] + after, pool)
  {
    MeaningAfterPassage(inserted, [strings] + after, pool);
    assert ([strings] + after)[1..] == after;
  }

  /** Chunks of other kinds change nothing wherever they stand. */
  lemma {:induction false} OtherChunksPassThrough(chunks: seq<Chunk>, pool: Pool)
    requires forall i :: 0 <= i < |chunks| ==> chunks[i].Other?
    ensures PassesThrough(chunks, pool) == Some(pool)
  {
    if chunks != [] {
      OtherChunksPassThrough(chunks[1..], pool);
    }
  }

  const NAMES: seq<Text> := [Ascii("manifest"), Ascii("package"), Ascii("versionName"), Ascii("versionCode")]

  /** The ways to write a version code: a number, a typed text, or a raw text under any other type. */
  datatype CodeForm = Number(hexadecimal: bool) | TypedText | RawText(valueType: byte)

  predicate Usable(form: CodeForm) {
    form.RawText? ==> form.valueType !in [0x03, 0x10, 0x11]
  }

  /** The text of the version code is at index 6 of the pool. */
  function VersionCodeAttribute(code: u32, form: CodeForm): Attribute {
    match form
    case Number(hexadecimal) => Attribute(3, 0xffff_ffff, if hexadecimal then 0x11 else 0x10, code)
    case TypedText => Attribute(3, 6, 0x03, 6)
    case RawText(valueType) => Attribute(3, 6, valueType, 0)
  }

  function ManifestEntries(code: u32, form: CodeForm): seq<Entry> {
    [Entry(0xffff_ffff, Attribute(1, 4, 0x03, 4), []),
     Entry(0xffff_ffff, Attribute(2, 0xffff_ffff, 0x03, 5), []),
     Entry(0xffff_ffff, VersionCodeAttribute(code, form), [])]
  }

  function DecimalText(code: nat): (s: string)
    ensures forall i :: 0 <= i < |s| ==> s[i] < 128 as char
  {
    var s := Decimal.OfInt(code);
    assert forall i :: 0 <= i < |s| ==> s[i] in s;
    s
  }

  function ManifestTexts(packageName: Text, versionName: Text, code: u32): seq<Text> {
    NAMES + [packageName, versionName, Ascii(DecimalText(code))]
  }

  /** A manifest with the given values, surrounded by other chunks. */
  function ManifestDocument(packageName: Text, versionName: Text, code: u32, form: CodeForm, utf8Encoded: bool,
                            lead: seq<Chunk>, middle: seq<Chunk>, tail: seq<Chunk>): seq<Chunk>
  {
    lead
    + ([Strings(utf8Encoded, false, [], ManifestTexts(packageName, versionName, code), [])]
       + (middle + ([Start(1, 0xffff_ffff, [], 0xffff_ffff, 0, [], 0, ManifestEntries(code, form))] + tail)))
  }

  lemma {:induction false} ManifestPool(packageName: Text, versionName: Text, code: u32)
    ensures var pool := PoolOf(ManifestTexts(packageName, versionName, code));
            && |pool| == 7
            && pool[0] == Ascii("manifest") && pool[1] == Ascii("package")
            && pool[2] == Ascii("versionName") && pool[3] == Ascii("versionCode")
            && pool[4] == Utf8(packageName) && pool[5] == Utf8(versionName) && pool[6] == Ascii(DecimalText(code))
  {
    hide Ascii, Utf8, DecimalText;
    Utf8OfAscii(Ascii("manifest"));
    Utf8OfAscii(Ascii("package"));
    Utf8OfAscii(Ascii("versionName"));
    Utf8OfAscii(Ascii("versionCode"));
    Utf8OfAscii(Ascii(DecimalText(code)));
  }

  lemma {:induction false} VersionCodeMeans(pool: Pool, code: u32, form: CodeForm)
    requires |pool| == 7 && pool[6] == Ascii(DecimalText(code)) && Usable(form)
    ensures NumberMeaning(pool, VersionCodeAttribute(code, form)) == Ok(code)
  {
    assert Characters(pool[6]) == Decimal.OfInt(code);
    hide Characters, Ascii;
    hide Decimal.Atoi, Decimal.OfInt;
    Decimal.AtoiReadsOfInt(code);
  }

  lemma {:induction false} VersionCodeEntry(pool: Pool, code: u32, form: CodeForm, meta: Metadata)
    requires |pool| == 7 && pool[3] == Ascii("versionCode") && pool[6] == Ascii(DecimalText(code)) && Usable(form)
    ensures AttributeMeaning(pool, VersionCodeAttribute(code, form), meta)
         == Ok(Metadata(meta.packageName, meta.versionName, code))
  {
    NamesDiffer();
    hide NumberMeaning, Ascii, DecimalText;
    VersionCodeMeans(pool, code, form);
    assert VersionCodeAttribute(code, form).name == 3;
    hide VersionCodeAttribute;
  }

  lemma {:induction false} NameEntries(pool: Pool, meta: Metadata)
    requires |pool| == 7 && pool[1] == Ascii("package") && pool[2] == Ascii("versionName")
    ensures AttributeMeaning(pool, Attribute(1, 4, 0x03, 4), meta)
         == Ok(Metadata(pool[4], meta.versionName, meta.versionCode))
    ensures AttributeMeaning(pool, Attribute(2, 0xffff_ffff, 0x03, 5), meta)
         == Ok(Metadata(meta.packageName, pool[5], meta.versionCode))
  {
    NamesDiffer();
    hide Ascii;
  }

  /** The attributes of a manifest document, under its pool. */
  lemma {:induction false} ManifestAttributes(pool: Pool, code: u32, form: CodeForm)
    requires |pool| == 7 && Usable(form)
    requires pool[1] == Ascii("package") && pool[2] == Ascii("versionName") && pool[3] == Ascii("versionCode")
    requires pool[6] == Ascii(DecimalText(code))
    ensures Attributes(ManifestEntries(code, form), pool, Metadata([], [], 0)) == Ok(Metadata(pool[4], pool[5], code))
  {
    hide AttributeMeaning, Ascii, VersionCodeAttribute, DecimalText;
    NameEntries(pool, Metadata([], [], 0));
    NameEntries(pool, Metadata(pool[4], [], 0));
    VersionCodeEntry(pool, code, form, Metadata(pool[4], pool[5], 0));
    var entries := ManifestEntries(code, form);
    assert entries[1..] == [entries[1], entries[2]];
    assert entries[1..][1..] == [entries[2]];
    assert Attributes([entries[2]], pool, Metadata(pool[4], pool[5], 0)) == Ok(Metadata(pool[4], pool[5], code));
  }

  /**
   Round trip: for every package name, version name and positive version code, written as a decimal or hexadecimal
   number or as text, in either string encoding and among any other chunks, parsing returns exactly those values.
   Before the pool there may be anything that does not end the walk, other pools and elements included; between pool
   and manifest anything that leaves the walk at this pool; and after the manifest anything at all.
   */
  lemma {:induction false} ManifestRoundTrip(preamble: Preamble, packageName: Text, versionName: Text, code: u32,
        form: CodeForm, utf8Encoded: bool, lead: seq<Chunk>, middle: seq<Chunk>, tail: seq<Chunk>)
    requires code > 0 && Usable(form)
    requires PassesThrough(lead, []).Some?
    requires var pool := PoolOf(ManifestTexts(packageName, versionName, code));
             PassesThrough(middle, pool) == Some(pool)
    requires EncodableDocument(preamble, ManifestDocument(packageName, versionName, code, form, utf8Encoded,
                                                    lead, middle, tail))
    ensures Parse(EncodeDocument(preamble, ManifestDocument(packageName, versionName, code, form, utf8Encoded,
                                                    lead, middle, tail)))
         == Ok(Metadata(Utf8(packageName), Utf8(versionName), code))
  {
    hide EncodableDocument, EncodeDocument, Parse, ManifestTexts, ManifestEntries, PoolOf, Attributes, Ascii;
    var doc := ManifestDocument(packageName, versionName, code, form, utf8Encoded, lead, middle, tail);
    ParseEncodedDocument(preamble, doc);
    var strings := Strings(utf8Encoded, false, [], ManifestTexts(packageName, versionName, code), []);
    var start := Start(1, 0xffff_ffff, [], 0xffff_ffff, 0, [], 0, ManifestEntries(code, form));
    var pool := PoolOf(ManifestTexts(packageName, versionName, code));
    MeaningAfterPassage(lead, [strings] + (middle + ([start] + tail)), []);
    assert ([strings] + (middle + ([start] + tail)))[1..] == middle + ([start] + tail);
    MeaningAfterPassage(middle, [start] + tail, pool);
    ManifestPool(packageName, versionName, code);
    ManifestAttributes(pool, code, form);
  }
}
