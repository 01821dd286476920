/**
 The parser of binary AndroidManifest files. Each loop of the program is a method proved against a
 function; the functions are total, so no input makes the parser read outside its data or run on.
 */
module AxmlParser {
  import opened Prelude
  import opened AxmlText
  import Decimal

  const STRING_POOL := 0x0001
  const START_ELEMENT := 0x0102
  const NO_ENTRY := 0xffff_ffff
  const TYPE_STRING := 0x03
  const TYPE_INT_DEC := 0x10
  const TYPE_INT_HEX := 0x11

  const MANIFEST := Ascii("manifest")
  const PACKAGE := Ascii("package")
  const VERSION_NAME := Ascii("versionName")
  const VERSION_CODE := Ascii("versionCode")

  type Pool = seq<Bytes>

  datatype Metadata = Metadata(packageName: Bytes, versionName: Bytes, versionCode: int)

  const NO_METADATA := Metadata([], [], 0)

  datatype ParseError =
    | ManifestTooSmall
    | InvalidChunk
    | InvalidPool
    | InvalidPoolOffsets
    | InvalidStringOffset
    | InvalidStringLength
    | InvalidStringData
    | InvalidStartElement
    | InvalidStartHeader
    | InvalidAttributeSize
    | InvalidAttributes
    | VersionCodeNotInteger
    | InvalidVersionCode
    | MissingVersionCode
    | ElementNotFound

  type Parsed<T> = Result<T, ParseError>

  // ---------- Strings ----------

  function Utf8String(data: Bytes): Parsed<Bytes> {
    match ReadLength8(data)
    case None => Err(InvalidStringLength)
    case Some((_, skip)) =>
      match ReadLength8(data[skip..])
      case None => Err(InvalidStringLength)
      case Some((byteLen, n)) =>
        var start := skip + n;
        if start + byteLen > |data| then Err(InvalidStringData) else Ok(data[start..start + byteLen])
  }

  function Utf16String(data: Bytes): Parsed<Bytes> {
    match ReadLength16(data)
    case None => Err(InvalidStringLength)
    case Some((charLen, skip)) =>
      if skip + charLen * 2 > |data| then Err(InvalidStringData)
      else Ok(Utf8(DecodeUtf16(UnitsAt(data, skip, charLen))))
  }

  function DecodedString(data: Bytes, utf8Encoded: bool): Parsed<Bytes> {
    if utf8Encoded then Utf8String(data) else Utf16String(data)
  }

  method DecodeString(data: Bytes, utf8Encoded: bool) returns (r: Parsed<Bytes>)
    ensures r == DecodedString(data, utf8Encoded)
  {
    if utf8Encoded {
      return Utf8String(data);
    }
    var length := ReadLength16(data);
    if length == None {
      return Err(InvalidStringLength);
    }
    var (charLen, skip) := length.value;
    if skip + charLen * 2 > |data| {
      return Err(InvalidStringData);
    }
    var chars: seq<u16> := [];
    for i := 0 to charLen
      invariant chars == UnitsAt(data, skip, charLen)[..i]
    {
      chars := chars + [U16At(data, skip + 2 * i)];
    }
    assert chars == UnitsAt(data, skip, charLen);
    return Ok(Utf8(DecodeUtf16(chars)));
  }

  /** An index outside the pool names the empty string. */
  function PoolString(pool: Pool, index: u32): Bytes {
    if index == NO_ENTRY || index >= |pool| then [] else pool[index]
  }

  // ---------- String pools ----------

  datatype PoolHeader = PoolHeader(count: nat, headerSize: nat, stringsStart: nat, utf8Encoded: bool)

  function ReadPoolHeader(chunk: Bytes): (r: Parsed<PoolHeader>)
    ensures r.Ok? ==> r.value.headerSize + 4 * r.value.count <= |chunk| && r.value.stringsStart <= |chunk|
  {
    if |chunk| < 28 then Err(InvalidPool)
    else
      var count := U32At(chunk, 8);
      var flags := U32At(chunk, 16);
      var stringsStart := U32At(chunk, 20);
      var headerSize := U16At(chunk, 2);
      if headerSize as int + count * 4 > |chunk| || stringsStart == 0 || stringsStart > |chunk| then
        Err(InvalidPoolOffsets)
      else
        Ok(PoolHeader(count, headerSize, stringsStart, flags / 0x100 % 2 == 1))
  }

  function PoolEntry(chunk: Bytes, h: PoolHeader, i: nat): Parsed<Bytes>
    requires h.headerSize + 4 * i + 4 <= |chunk|
  {
    var start := h.stringsStart + U32At(chunk, h.headerSize + 4 * i);
    if start >= |chunk| then Err(InvalidStringOffset) else DecodedString(chunk[start..], h.utf8Encoded)
  }

  function PoolFrom(chunk: Bytes, h: PoolHeader, i: nat, pool: Pool): Parsed<Pool>
    requires i <= h.count && h.headerSize + 4 * h.count <= |chunk|
    decreases h.count - i
  {
    if i == h.count then Ok(pool)
    else
      match PoolEntry(chunk, h, i)
      case Err(e) => Err(e)
      case Ok(value) => PoolFrom(chunk, h, i + 1, pool + [value])
  }

  function ReadPool(chunk: Bytes): Parsed<Pool> {
    match ReadPoolHeader(chunk)
    case Err(e) => Err(e)
    case Ok(h) => PoolFrom(chunk, h, 0, [])
  }

  method ParseStringPool(chunk: Bytes) returns (r: Parsed<Pool>)
    ensures r == ReadPool(chunk)
  {
    var header := ReadPoolHeader(chunk);
    if header.Err? {
      return Err(header.error);
    }
    var h := header.value;
    var pool: Pool := [];
    for i := 0 to h.count
      invariant PoolFrom(chunk, h, i, pool) == PoolFrom(chunk, h, 0, [])
    {
      var start := h.stringsStart + U32At(chunk, h.headerSize + 4 * i);
      if start >= |chunk| {
        return Err(InvalidStringOffset);
      }
      var value := DecodeString(chunk[start..], h.utf8Encoded);
      if value.Err? {
        return Err(value.error);
      }
      pool := pool + [value.value];
    }
    return Ok(pool);
  }

  // ---------- Start elements ----------

  datatype Attribute = Attribute(name: u32, raw: u32, valueType: byte, data: u32)

  function AttributeString(pool: Pool, a: Attribute): Bytes {
    if a.raw != NO_ENTRY then PoolString(pool, a.raw)
    else if a.valueType == TYPE_STRING then PoolString(pool, a.data)
    else []
  }

  function AttributeInt(pool: Pool, a: Attribute): Parsed<int> {
    if a.valueType == TYPE_INT_DEC || a.valueType == TYPE_INT_HEX then
      Ok(a.data)
    else
      var raw := if a.valueType == TYPE_STRING then a.data else a.raw;
      if raw == NO_ENTRY then Err(VersionCodeNotInteger)
      else
        match Decimal.Atoi(Characters(PoolString(pool, raw)))
        case None => Err(InvalidVersionCode)
        case Some(code) => Ok(code)
  }

  function ApplyAttribute(pool: Pool, a: Attribute, meta: Metadata): Parsed<Metadata> {
    var name := PoolString(pool, a.name);
    if name == PACKAGE then Ok(meta.(packageName := AttributeString(pool, a)))
    else if name == VERSION_NAME then Ok(meta.(versionName := AttributeString(pool, a)))
    else if name == VERSION_CODE then
      match AttributeInt(pool, a)
      case Err(e) => Err(e)
      case Ok(code) => Ok(meta.(versionCode := code))
    else Ok(meta)
  }

  function AttributeAt(chunk: Bytes, at: nat): Attribute
    requires at + 20 <= |chunk|
  {
    Attribute(U32At(chunk, at + 4), U32At(chunk, at + 8), chunk[at + 15], U32At(chunk, at + 16))
  }

  datatype Attributes = Attributes(base: nat, size: nat, count: nat) {
    predicate Within(chunk: Bytes) {
      20 <= size && base + count * size <= |chunk|
    }
  }

  function AttributeNumber(chunk: Bytes, attrs: Attributes, i: nat): Attribute
    requires attrs.Within(chunk) && i < attrs.count
  {
    assert attrs.base + i * attrs.size + attrs.size <= |chunk| by {
      assert (i + 1) * attrs.size <= attrs.count * attrs.size;
    }
    AttributeAt(chunk, attrs.base + i * attrs.size)
  }

  function AttributesFrom(chunk: Bytes, attrs: Attributes, pool: Pool, i: nat, meta: Metadata): Parsed<Metadata>
    requires attrs.Within(chunk) && i <= attrs.count
    decreases attrs.count - i
  {
    if i == attrs.count then Ok(meta)
    else
      match ApplyAttribute(pool, AttributeNumber(chunk, attrs, i), meta)
      case Err(e) => Err(e)
      case Ok(next) => AttributesFrom(chunk, attrs, pool, i + 1, next)
  }

  /** The attribute table of a `manifest` element, or None for any other element. */
  function ReadStartHeader(chunk: Bytes, pool: Pool): (r: Parsed<Option<Attributes>>)
    ensures r.Ok? && r.value.Some? ==> r.value.value.Within(chunk)
  {
    if |chunk| < 36 then Err(InvalidStartElement)
    else
      var headerSize := U16At(chunk, 2);
      if headerSize < 16 || headerSize as int + 20 > |chunk| then Err(InvalidStartHeader)
      else if PoolString(pool, U32At(chunk, headerSize + 4)) != MANIFEST then Ok(None)
      else
        var attrStart := U16At(chunk, headerSize + 8);
        var attrSize := U16At(chunk, headerSize + 10);
        var attrCount := U16At(chunk, headerSize + 12);
        if attrSize < 20 then Err(InvalidAttributeSize)
        else if headerSize as int + attrStart + attrCount * attrSize > |chunk| then Err(InvalidAttributes)
        else Ok(Some(Attributes(headerSize as int + attrStart, attrSize, attrCount)))
  }

  function ReadStart(chunk: Bytes, pool: Pool): Parsed<Option<Metadata>> {
    match ReadStartHeader(chunk, pool)
    case Err(e) => Err(e)
    case Ok(None) => Ok(None)
    case Ok(Some(attrs)) =>
      match AttributesFrom(chunk, attrs, pool, 0, NO_METADATA)
      case Err(e) => Err(e)
      case Ok(meta) => Ok(Some(meta))
  }

  method ParseAttributes(chunk: Bytes, attrs: Attributes, pool: Pool) returns (r: Parsed<Metadata>)
    requires attrs.Within(chunk)
    ensures r == AttributesFrom(chunk, attrs, pool, 0, NO_METADATA)
  {
    hide ApplyAttribute, AttributeNumber;
    var meta := NO_METADATA;
    for i := 0 to attrs.count
      invariant AttributesFrom(chunk, attrs, pool, i, meta) == AttributesFrom(chunk, attrs, pool, 0, NO_METADATA)
    {
      var next := ApplyAttribute(pool, AttributeNumber(chunk, attrs, i), meta);
      if next.Err? {
        return Err(next.error);
      }
      meta := next.value;
    }
    return Ok(meta);
  }

  method ParseStartElement(chunk: Bytes, pool: Pool) returns (r: Parsed<Option<Metadata>>)
    ensures r == ReadStart(chunk, pool)
  {
    var header := ReadStartHeader(chunk, pool);
    if header.Err? {
      return Err(header.error);
    }
    if header.value.None? {
      return Ok(None);
    }
    var meta := ParseAttributes(chunk, header.value.value, pool);
    return if meta.Err? then Err(meta.error) else Ok(Some(meta.value));
  }

  // ---------- The chunk walk ----------

  /** The size of the chunk the data starts with, if its header is acceptable. */
  function ChunkSize(data: Bytes): (r: Option<nat>)
    requires |data| >= 8
    ensures r.Some? ==> 8 <= r.value <= |data|
  {
    var headerSize := U16At(data, 2);
    var chunkSize := U32At(data, 4);
    if headerSize < 8 || chunkSize < headerSize || chunkSize > |data| then None else Some(chunkSize)
  }

  /** What one chunk does to the walk. */
  datatype Outcome = Continue(pool: Pool) | Found(meta: Metadata)

  function ChunkOutcome(chunk: Bytes, pool: Pool): Parsed<Outcome>
    requires |chunk| >= 8
  {
    var kind := U16At(chunk, 0);
    if kind == STRING_POOL then
      match ReadPool(chunk)
      case Err(e) => Err(e)
      case Ok(latest) => Ok(Continue(latest))
    else if kind == START_ELEMENT then
      match ReadStart(chunk, pool)
      case Err(e) => Err(e)
      case Ok(None) => Ok(Continue(pool))
      case Ok(Some(meta)) => if meta.versionCode <= 0 then Err(MissingVersionCode) else Ok(Found(meta))
    else
      Ok(Continue(pool))
  }

  function Walk(data: Bytes, pool: Pool): Parsed<Metadata>
    decreases |data|
  {
    if |data| < 8 then Err(ElementNotFound)
    else
      match ChunkSize(data)
      case None => Err(InvalidChunk)
      case Some(size) =>
        match ChunkOutcome(data[..size], pool)
        case Err(e) => Err(e)
        case Ok(Found(meta)) => Ok(meta)
        case Ok(Continue(latest)) => Walk(data[size..], latest)
  }

  method ParseChunk(chunk: Bytes, pool: Pool) returns (r: Parsed<Outcome>)
    requires |chunk| >= 8
    ensures r == ChunkOutcome(chunk, pool)
  {
    var kind := U16At(chunk, 0);
    r := Ok(Continue(pool));
    if kind == STRING_POOL {
      var strings := ParseStringPool(chunk);
      r := if strings.Err? then Err(strings.error) else Ok(Continue(strings.value));
    } else if kind == START_ELEMENT {
      var meta := ParseStartElement(chunk, pool);
      if meta.Err? {
        r := Err(meta.error);
      } else if meta.value.Some? {
        r := if meta.value.value.versionCode <= 0 then Err(MissingVersionCode) else Ok(Found(meta.value.value));
      }
    }
  }

  function FirstChunk(data: Bytes): (offset: nat)
    requires |data| >= 8
    ensures 8 <= offset <= |data|
  {
    var offset := U16At(data, 2);
    if offset < 8 || offset >= |data| then 8 else offset
  }

  function Parse(data: Bytes): Parsed<Metadata> {
    if |data| < 8 then Err(ManifestTooSmall) else Walk(data[FirstChunk(data)..], [])
  }

  /** One step of the walk, in terms of offsets into the data. */
  lemma {:induction false} WalkStep(data: Bytes, offset: nat, pool: Pool)
    requires offset + 8 <= |data| && ChunkSize(data[offset..]).Some?
    ensures var next := offset + ChunkSize(data[offset..]).value;
            var outcome := ChunkOutcome(data[offset..next], pool);
            && (outcome.Err? ==> Walk(data[offset..], pool) == Err(outcome.error))
            && (outcome.Ok? && outcome.value.Found? ==> Walk(data[offset..], pool) == Ok(outcome.value.meta))
            && (outcome.Ok? && outcome.value.Continue? ==>
                  Walk(data[offset..], pool) == Walk(data[next..], outcome.value.pool))
  {
    hide ChunkOutcome;
    var rest := data[offset..];
    var size := ChunkSize(rest).value;
    assert rest[..size] == data[offset..offset + size];
    assert rest[size..] == data[offset + size..];
  }

  method ParseManifest(data: Bytes) returns (r: Parsed<Metadata>)
    ensures r == Parse(data)
  {
    hide ChunkOutcome;
    if |data| < 8 {
      return Err(ManifestTooSmall);
    }
    var offset := FirstChunk(data);
    var strings: Pool := [];
    while offset + 8 <= |data|
      invariant offset <= |data|
      invariant Walk(data[offset..], strings) == Parse(data)
      decreases |data| - offset
    {
      var rest := data[offset..];
      var size := ChunkSize(rest);
      if size == None {
        return Err(InvalidChunk);
      }
      var chunkSize := size.value;
      WalkStep(data, offset, strings);
      var outcome := ParseChunk(data[offset..offset + chunkSize], strings);
      if outcome.Err? {
        return Err(outcome.error);
      }
      if outcome.value.Found? {
        return Ok(outcome.value.meta);
      }
      strings := outcome.value.pool;
      offset := offset + chunkSize;
    }
    return Err(ElementNotFound);
  }

  // ---------- What decides a parse ----------

  /** The chunks the walk can step over, in order, whatever they contain. */
  function Chunks(data: Bytes): (chunks: seq<Bytes>)
    ensures forall i :: 0 <= i < |chunks| ==> |chunks[i]| >= 8
    decreases |data|
  {
    if |data| < 8 || ChunkSize(data) == None then []
    else
      var size := ChunkSize(data).value;
      [data[..size]] + Chunks(data[size..])
  }

  /** The pool in force after the chunks; None once one of them ends the walk. */
  function PoolAfter(chunks: seq<Bytes>, pool: Pool): Option<Pool>
    requires forall i :: 0 <= i < |chunks| ==> |chunks[i]| >= 8
  {
    if chunks == [] then Some(pool)
    else
      match PoolAfter(Init(chunks), pool)
      case None => None
      case Some(latest) =>
        match ChunkOutcome(Last(chunks), latest)
        case Ok(Continue(next)) => Some(next)
        case _ => None
  }

  predicate IsManifest(chunk: Bytes, pool: Pool, meta: Metadata)
    requires |chunk| >= 8
  {
    U16At(chunk, 0) == START_ELEMENT && ReadStart(chunk, pool) == Ok(Some(meta)) && meta.versionCode > 0
  }

  lemma {:induction false} FoundIffManifest(chunk: Bytes, pool: Pool, meta: Metadata)
    requires |chunk| >= 8
    ensures ChunkOutcome(chunk, pool) == Ok(Found(meta)) <==> IsManifest(chunk, pool, meta)
  {
    hide ReadPool, ReadStart;
  }

  /** The chunk at `k` is reached and is the manifest element that yields `meta`. */
  ghost predicate Decides(chunks: seq<Bytes>, pool: Pool, k: nat, meta: Metadata)
    requires forall i :: 0 <= i < |chunks| ==> |chunks[i]| >= 8
  {
    && k < |chunks|
    && PoolAfter(chunks[..k], pool).Some?
    && IsManifest(chunks[k], PoolAfter(chunks[..k], pool).value, meta)
  }

  lemma {:induction false} PoolAfterFirst(chunks: seq<Bytes>, pool: Pool, latest: Pool)
    requires chunks != [] && forall i :: 0 <= i < |chunks| ==> |chunks[i]| >= 8
    requires ChunkOutcome(chunks[0], pool) == Ok(Continue(latest))
    ensures PoolAfter(chunks, pool) == PoolAfter(chunks[1..], latest)
  {
    hide ChunkOutcome;
    if |chunks| == 1 {
      assert Init(chunks) == [];
    } else {
      PoolAfterFirst(Init(chunks), pool, latest);
      assert Init(chunks)[1..] == Init(chunks[1..]);
    }
  }

  lemma {:induction false} NothingAfterTheEnd(chunks: seq<Bytes>, pool: Pool)
    requires chunks != [] && forall i :: 0 <= i < |chunks| ==> |chunks[i]| >= 8
    requires ChunkOutcome(chunks[0], pool).Err? || ChunkOutcome(chunks[0], pool).value.Found?
    ensures PoolAfter(chunks, pool) == None
  {
    hide ChunkOutcome;
    if |chunks| == 1 {
      assert Init(chunks) == [];
    } else {
      NothingAfterTheEnd(Init(chunks), pool);
    }
  }

  /** The walk, chunk by chunk. */
  lemma {:induction false} WalkChunks(data: Bytes, pool: Pool)
    ensures Chunks(data) == [] ==> Walk(data, pool).Err?
    ensures Chunks(data) != [] ==> |Chunks(data)[0]| <= |data|
    ensures Chunks(data) != [] ==>
              var outcome := ChunkOutcome(Chunks(data)[0], pool);
              var rest := data[|Chunks(data)[0]|..];
              && Chunks(data)[1..] == Chunks(rest)
              && (outcome.Err? ==> Walk(data, pool).Err?)
              && (outcome.Ok? && outcome.value.Found? ==> Walk(data, pool) == Ok(outcome.value.meta))
              && (outcome.Ok? && outcome.value.Continue? ==> Walk(data, pool) == Walk(rest, outcome.value.pool))
  {
    hide ChunkOutcome;
  }

  lemma {:induction false} DecidesLaterAt(chunks: seq<Bytes>, pool: Pool, latest: Pool, k: nat, meta: Metadata)
    requires chunks != [] && forall i :: 0 <= i < |chunks| ==> |chunks[i]| >= 8
    requires ChunkOutcome(chunks[0], pool) == Ok(Continue(latest))
    ensures Decides(chunks, pool, k, meta) <==> k > 0 && Decides(chunks[1..], latest, k - 1, meta)
  {
    hide ChunkOutcome, IsManifest;
    if k == 0 {
      assert chunks[..0] == [];
      FoundIffManifest(chunks[0], pool, meta);
    } else if k < |chunks| {
      PoolAfterFirst(chunks[..k], pool, latest);
      assert chunks[..k][1..] == chunks[1..][..k - 1];
    }
  }

  lemma {:induction false} DecidesLater(chunks: seq<Bytes>, pool: Pool, latest: Pool, meta: Metadata)
    requires chunks != [] && forall i :: 0 <= i < |chunks| ==> |chunks[i]| >= 8
    requires ChunkOutcome(chunks[0], pool) == Ok(Continue(latest))
    ensures (exists k: nat :: Decides(chunks, pool, k, meta))
       <==> (exists k: nat :: Decides(chunks[1..], latest, k, meta))
  {
    hide ChunkOutcome, Decides;
    if k: nat :| Decides(chunks, pool, k, meta) {
      DecidesLaterAt(chunks, pool, latest, k, meta);
    }
    if k: nat :| Decides(chunks[1..], latest, k, meta) {
      DecidesLaterAt(chunks, pool, latest, k + 1, meta);
    }
  }

  lemma {:induction false} DecidesAtOnce(chunks: seq<Bytes>, pool: Pool, meta: Metadata)
    requires chunks != [] && forall i :: 0 <= i < |chunks| ==> |chunks[i]| >= 8
    requires ChunkOutcome(chunks[0], pool).Err? || ChunkOutcome(chunks[0], pool).value.Found?
    ensures (exists k: nat :: Decides(chunks, pool, k, meta)) <==> ChunkOutcome(chunks[0], pool) == Ok(Found(meta))
  {
    hide ChunkOutcome, IsManifest;
    assert chunks[..0] == [];
    FoundIffManifest(chunks[0], pool, meta);
    if ChunkOutcome(chunks[0], pool) == Ok(Found(meta)) {
      assert Decides(chunks, pool, 0, meta);
    }
    forall k: nat | 0 < k < |chunks| ensures !Decides(chunks, pool, k, meta) {
      NothingAfterTheEnd(chunks[..k], pool);
    }
  }

  /**
   For every byte sequence: a parse succeeds exactly when the walk reaches a chunk that is a readable
   manifest element with a positive version code under the latest pool before it.
   */
  lemma {:induction false} SuccessIsDecidedByFirstManifest(data: Bytes, pool: Pool, meta: Metadata)
    ensures Walk(data, pool) == Ok(meta) <==> exists k: nat :: Decides(Chunks(data), pool, k, meta)
    decreases |data|
  {
    hide ChunkOutcome, IsManifest, Walk, Chunks;
    WalkChunks(data, pool);
    var chunks := Chunks(data);
    if chunks != [] {
      hide Decides;
      var outcome := ChunkOutcome(chunks[0], pool);
      if outcome.Ok? && outcome.value.Continue? {
        SuccessIsDecidedByFirstManifest(data[|chunks[0]|..], outcome.value.pool, meta);
        DecidesLater(chunks, pool, outcome.value.pool, meta);
      } else {
        DecidesAtOnce(chunks, pool, meta);
      }
    }
  }

  /** The same for a parse, which starts the walk behind the document header and without a pool. */
  lemma {:induction false} ParseIsDecidedByFirstManifest(data: Bytes, meta: Metadata)
    ensures Parse(data) == Ok(meta)
       <==> |data| >= 8 && exists k: nat :: Decides(Chunks(data[FirstChunk(data)..]), [], k, meta)
  {
    hide Walk, Decides, Chunks;
    if |data| >= 8 {
      SuccessIsDecidedByFirstManifest(data[FirstChunk(data)..], [], meta);
    }
  }

  // ---------- What a success does not depend on ----------

  lemma {:induction false} SameChunkFirst(data: Bytes, rest: Bytes)
    requires |data| >= 8 && ChunkSize(data).Some?
    ensures var size := ChunkSize(data).value;
            var other := data[..size] + rest;
            && ChunkSize(other) == ChunkSize(data)
            && other[..size] == data[..size] && other[size..] == rest
  {
    var other := data[..ChunkSize(data).value] + rest;
    assert other[..8] == data[..8];
    assert U16At(other, 2) == U16At(other[..8], 2) == U16At(data, 2);
    assert U32At(other, 4) == U32At(other[..8], 4) == U32At(data, 4);
  }

  /** A walk that succeeds reads a prefix of its data only: whatever follows that prefix, the result is the same. */
  lemma {:induction false} WalkIgnoresRest(data: Bytes, pool: Pool, meta: Metadata) returns (n: nat)
    requires Walk(data, pool) == Ok(meta)
    ensures 8 <= n <= |data|
    ensures forall rest: Bytes :: Walk(data[..n] + rest, pool) == Ok(meta)
    decreases |data|
  {
    hide ChunkOutcome, ChunkSize;
    var size := ChunkSize(data).value;
    match ChunkOutcome(data[..size], pool) {
      case Ok(Found(_)) =>
        n := size;
        forall rest: Bytes ensures Walk(data[..n] + rest, pool) == Ok(meta) {
          SameChunkFirst(data, rest);
        }
      case Ok(Continue(latest)) =>
        var m := WalkIgnoresRest(data[size..], latest, meta);
        n := size + m;
        forall rest: Bytes ensures Walk(data[..n] + rest, pool) == Ok(meta) {
          var tail := data[size..][..m] + rest;
          SameChunkFirst(data, tail);
          assert data[..n] + rest == data[..size] + tail;
        }
    }
  }

  /**
   A parse that succeeds depends on a prefix of the file only: whatever follows the manifest element that decides
   it, the result is the same. The one exception is a document header that claims to be as long as the file or
   longer, which the parser takes for 8 bytes: then what follows must not make the file longer than that claim.
   */
  lemma {:induction false} ParseIgnoresRest(data: Bytes, meta: Metadata) returns (n: nat)
    requires Parse(data) == Ok(meta)
    ensures 8 <= n <= |data|
    ensures forall rest: Bytes :: U16At(data, 2) < |data| || n + |rest| <= U16At(data, 2) ==>
              Parse(data[..n] + rest) == Ok(meta)
  {
    hide Walk;
    var first := FirstChunk(data);
    var m := WalkIgnoresRest(data[first..], [], meta);
    n := first + m;
    forall rest: Bytes | U16At(data, 2) < |data| || n + |rest| <= U16At(data, 2)
      ensures Parse(data[..n] + rest) == Ok(meta)
    {
      var other := data[..n] + rest;
      assert other[..8] == data[..8];
      assert U16At(other, 2) == U16At(other[..8], 2) == U16At(data, 2);
      assert other[first..] == data[first..][..m] + rest;
    }
  }
}
