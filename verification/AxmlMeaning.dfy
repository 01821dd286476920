/**
 What string pools, attributes and manifest elements mean, in terms of where their parts stand and what they
 hold, and that the parser reads exactly that from every byte sequence.
 */
module AxmlMeaning {
  import opened Prelude
  import opened AxmlText
  import opened AxmlParser
  import Decimal

  // ---------- Attributes ----------

  /** The text an index stands for: none stands for nothing, and neither does one beyond the pool. */
  function TextMeaning(pool: Pool, index: u32): Bytes {
    if index != 0xffff_ffff && index < |pool| then pool[index] else []
  }

  /** The raw text of an attribute if it has one, else its typed text. */
  function StringMeaning(pool: Pool, a: Attribute): Bytes {
    if a.raw != 0xffff_ffff then TextMeaning(pool, a.raw)
    else if a.valueType == 0x03 then TextMeaning(pool, a.data)
    else []
  }

  /** A decimal or hexadecimal number is its data; any other attribute is the number its text writes out. */
  function NumberMeaning(pool: Pool, a: Attribute): Parsed<int> {
    if a.valueType in [0x10, 0x11] then Ok(a.data)
    else
      var index := if a.valueType == 0x03 then a.data else a.raw;
      if index == 0xffff_ffff then Err(VersionCodeNotInteger)
      else
        match Decimal.Atoi(Characters(TextMeaning(pool, index)))
        case None => Err(InvalidVersionCode)
        case Some(n) => Ok(n)
  }

  /** Three attributes matter, by the text of their name. */
  function AttributeMeaning(pool: Pool, a: Attribute, meta: Metadata): Parsed<Metadata> {
    var name := TextMeaning(pool, a.name);
    if name == Ascii("package") then Ok(Metadata(StringMeaning(pool, a), meta.versionName, meta.versionCode))
    else if name == Ascii("versionName") then
      Ok(Metadata(meta.packageName, StringMeaning(pool, a), meta.versionCode))
    else if name == Ascii("versionCode") then
      match NumberMeaning(pool, a)
      case Err(e) => Err(e)
      case Ok(n) => Ok(Metadata(meta.packageName, meta.versionName, n))
    else Ok(meta)
  }

  /** The parser reads an attribute as what it means. */
  lemma {:induction false} AttributeIsRead(pool: Pool, a: Attribute, meta: Metadata)
    ensures ApplyAttribute(pool, a, meta) == AttributeMeaning(pool, a, meta)
  {
    hide Ascii, Characters, Decimal.Atoi;
  }

  lemma {:induction false} NamesDiffer()
    ensures Ascii("package") != Ascii("versionName") && Ascii("package") != Ascii("versionCode")
    ensures Ascii("versionName") != Ascii("versionCode")
  {
    assert Ascii("versionName")[7] == 'N' as int && Ascii("versionCode")[7] == 'C' as int;
    assert |Ascii("package")| == 7 && |Ascii("versionName")| == 11;
  }

  // ---------- String pools ----------

  /** The text at an offset of the table is `text`. */
  ghost predicate HoldsText(chunk: Bytes, i: nat, text: Bytes)
    requires |chunk| >= 28 && U16At(chunk, 2) as int + 4 * i + 4 <= |chunk|
  {
    var at := U32At(chunk, 20) as int + U32At(chunk, U16At(chunk, 2) + 4 * i);
    at < |chunk| && DecodedString(chunk[at..], U32At(chunk, 16) / 0x100 % 2 == 1) == Ok(text)
  }

  lemma {:induction false} EntriesAreReadIff(chunk: Bytes, h: PoolHeader, i: nat, front: Pool, pool: Pool)
    requires i <= h.count && h.headerSize + 4 * h.count <= |chunk| && |front| == i
    ensures PoolFrom(chunk, h, i, front) == Ok(pool)
       <==> && |pool| == h.count && pool[..i] == front
            && forall j :: i <= j < h.count ==> PoolEntry(chunk, h, j) == Ok(pool[j])
    decreases h.count - i
  {
    hide PoolEntry;
    if i < h.count {
      if PoolEntry(chunk, h, i).Ok? {
        var value := PoolEntry(chunk, h, i).value;
        EntriesAreReadIff(chunk, h, i + 1, front + [value], pool);
        if |pool| == h.count {
          assert pool[..i + 1] == pool[..i] + [pool[i]];
        }
      }
    } else if |pool| == h.count {
      assert pool[..i] == pool;
    }
  }

  /**
   A string pool is read exactly when the chunk holds its 28 bytes of header, the offset table and the start of the
   texts, and every offset leads to a readable text; then it holds these texts in the order of the table.
   */
  lemma {:induction false} PoolIsReadIff(chunk: Bytes, pool: Pool)
    ensures ReadPool(chunk) == Ok(pool)
       <==> && |chunk| >= 28
            && U16At(chunk, 2) as int + 4 * U32At(chunk, 8) <= |chunk|
            && 0 < U32At(chunk, 20) <= |chunk|
            && |pool| == U32At(chunk, 8)
            && forall i :: 0 <= i < |pool| ==> HoldsText(chunk, i, pool[i])
  {
    hide U16At, U32At, DecodedString;
    var header := ReadPoolHeader(chunk);
    if header.Ok? {
      var h := header.value;
      EntriesAreReadIff(chunk, h, 0, [], pool);
      hide PoolFrom;
      forall i | 0 <= i < h.count && |pool| == h.count
        ensures PoolEntry(chunk, h, i) == Ok(pool[i]) <==> HoldsText(chunk, i, pool[i])
      {
      }
    }
  }

  // ---------- Manifest elements ----------

  ghost predicate Named(pool: Pool, a: Attribute, name: Bytes) {
    TextMeaning(pool, a.name) == name
  }

  ghost predicate IsLastNamed(pool: Pool, attributes: seq<Attribute>, name: Bytes, k: nat) {
    && k < |attributes| && Named(pool, attributes[k], name)
    && forall j :: k < j < |attributes| ==> !Named(pool, attributes[j], name)
  }

  ghost predicate NoneNamed(pool: Pool, attributes: seq<Attribute>, name: Bytes) {
    forall j :: 0 <= j < |attributes| ==> !Named(pool, attributes[j], name)
  }

  /** The value of a text attribute: the last one of its name decides, and `initial` stands if there is none. */
  ghost predicate StringIs(pool: Pool, attributes: seq<Attribute>, name: Bytes, initial: Bytes, value: Bytes) {
    || (NoneNamed(pool, attributes, name) && value == initial)
    || exists k: nat ::
         k < |attributes| && IsLastNamed(pool, attributes, name, k) && value == StringMeaning(pool, attributes[k])
  }

  ghost predicate NumberIs(pool: Pool, attributes: seq<Attribute>, name: Bytes, initial: int, value: int) {
    || (NoneNamed(pool, attributes, name) && value == initial)
    || exists k: nat ::
         && k < |attributes| && IsLastNamed(pool, attributes, name, k)
         && NumberMeaning(pool, attributes[k]) == Ok(value)
  }

  /** Every attribute that gives a version code gives a number, the last one or not. */
  ghost predicate NumbersAreReadable(pool: Pool, attributes: seq<Attribute>, name: Bytes) {
    forall j :: 0 <= j < |attributes| && Named(pool, attributes[j], name) ==> NumberMeaning(pool, attributes[j]).Ok?
  }

  ghost predicate Describes(pool: Pool, attributes: seq<Attribute>, initial: Metadata, meta: Metadata) {
    && StringIs(pool, attributes, Ascii("package"), initial.packageName, meta.packageName)
    && StringIs(pool, attributes, Ascii("versionName"), initial.versionName, meta.versionName)
    && NumberIs(pool, attributes, Ascii("versionCode"), initial.versionCode, meta.versionCode)
    && NumbersAreReadable(pool, attributes, Ascii("versionCode"))
  }

  function AttributesIn(chunk: Bytes, attrs: Attributes, i: nat): (r: seq<Attribute>)
    requires attrs.Within(chunk) && i <= attrs.count
    ensures |r| == attrs.count - i
    decreases attrs.count - i
  {
    if i == attrs.count then [] else [AttributeNumber(chunk, attrs, i)] + AttributesIn(chunk, attrs, i + 1)
  }

  lemma {:induction false} LastNamedBehind(pool: Pool, attributes: seq<Attribute>, name: Bytes, k: nat)
    requires attributes != []
    ensures IsLastNamed(pool, attributes, name, k + 1) <==> IsLastNamed(pool, attributes[1..], name, k)
    ensures NoneNamed(pool, attributes, name)
       <==> !Named(pool, attributes[0], name) && NoneNamed(pool, attributes[1..], name)
    ensures IsLastNamed(pool, attributes, name, 0)
       <==> Named(pool, attributes[0], name) && NoneNamed(pool, attributes[1..], name)
  {
    hide Named;
    var rest := attributes[1..];
    assert forall j :: 0 <= j < |rest| ==> rest[j] == attributes[j + 1];
    assert forall j :: 0 < j < |attributes| ==> attributes[j] == rest[j - 1];
  }

  lemma {:induction false} StringBehind(pool: Pool, attributes: seq<Attribute>, name: Bytes, initial: Bytes,
        value: Bytes)
    requires attributes != []
    ensures StringIs(pool, attributes, name, initial, value)
       <==> StringIs(pool, attributes[1..], name,
                     if Named(pool, attributes[0], name) then StringMeaning(pool, attributes[0]) else initial, value)
  {
    hide Named, IsLastNamed, NoneNamed, StringMeaning;
    LastNamedBehind(pool, attributes, name, 0);
    if k: nat :| k < |attributes| && IsLastNamed(pool, attributes, name, k)
                 && value == StringMeaning(pool, attributes[k]) {
      if k > 0 {
        LastNamedBehind(pool, attributes, name, k - 1);
      }
    }
    if k: nat :| k < |attributes| - 1 && IsLastNamed(pool, attributes[1..], name, k)
                 && value == StringMeaning(pool, attributes[1..][k]) {
      LastNamedBehind(pool, attributes, name, k);
      assert attributes[k + 1] == attributes[1..][k];
    }
  }

  lemma {:induction false} NumberBehind(pool: Pool, attributes: seq<Attribute>, name: Bytes, initial: int, value: int,
        first: int)
    requires attributes != []
    requires Named(pool, attributes[0], name) ==> NumberMeaning(pool, attributes[0]) == Ok(first)
    ensures NumberIs(pool, attributes, name, initial, value)
       <==> NumberIs(pool, attributes[1..], name, if Named(pool, attributes[0], name) then first else initial, value)
    ensures NumbersAreReadable(pool, attributes, name) <==> NumbersAreReadable(pool, attributes[1..], name)
  {
    hide Named, IsLastNamed, NoneNamed, NumberMeaning;
    LastNamedBehind(pool, attributes, name, 0);
    if k: nat :| k < |attributes| && IsLastNamed(pool, attributes, name, k)
                 && NumberMeaning(pool, attributes[k]) == Ok(value) {
      if k > 0 {
        LastNamedBehind(pool, attributes, name, k - 1);
      }
    }
    if k: nat :| k < |attributes| - 1 && IsLastNamed(pool, attributes[1..], name, k)
                 && NumberMeaning(pool, attributes[1..][k]) == Ok(value) {
      LastNamedBehind(pool, attributes, name, k);
      assert attributes[k + 1] == attributes[1..][k];
    }
    assert forall j :: 0 <= j < |attributes| - 1 ==> attributes[1..][j] == attributes[j + 1];
    assert forall j :: 0 < j < |attributes| ==> attributes[j] == attributes[1..][j - 1];
  }

  /** One attribute in front, which can be read. */
  lemma {:induction false} DescribesBehind(pool: Pool, attributes: seq<Attribute>, initial: Metadata, next: Metadata,
        meta: Metadata)
    requires attributes != [] && AttributeMeaning(pool, attributes[0], initial) == Ok(next)
    ensures Describes(pool, attributes, initial, meta) <==> Describes(pool, attributes[1..], next, meta)
  {
    hide StringIs, NumberIs, NumbersAreReadable, StringMeaning, NumberMeaning, TextMeaning, Ascii;
    NamesDiffer();
    StringBehind(pool, attributes, Ascii("package"), initial.packageName, meta.packageName);
    StringBehind(pool, attributes, Ascii("versionName"), initial.versionName, meta.versionName);
    NumberBehind(pool, attributes, Ascii("versionCode"), initial.versionCode, meta.versionCode, next.versionCode);
  }

  lemma {:induction false} UnreadableDescribesNothing(pool: Pool, attributes: seq<Attribute>, initial: Metadata,
        meta: Metadata)
    requires attributes != [] && AttributeMeaning(pool, attributes[0], initial).Err?
    ensures !Describes(pool, attributes, initial, meta)
  {
    hide StringIs, NumberIs, StringMeaning, NumberMeaning, TextMeaning, Ascii;
  }

  lemma {:induction false} EmptyDescribes(pool: Pool, initial: Metadata, meta: Metadata)
    ensures Describes(pool, [], initial, meta) <==> meta == initial
  {
  }

  lemma {:induction false} AttributesAreReadIff(chunk: Bytes, attrs: Attributes, pool: Pool, i: nat, initial: Metadata,
        meta: Metadata)
    requires attrs.Within(chunk) && i <= attrs.count
    ensures AttributesFrom(chunk, attrs, pool, i, initial) == Ok(meta)
       <==> Describes(pool, AttributesIn(chunk, attrs, i), initial, meta)
    decreases attrs.count - i
  {
    hide ApplyAttribute, AttributeMeaning, AttributeNumber, Describes;
    if i == attrs.count {
      EmptyDescribes(pool, initial, meta);
    } else {
      var attributes := AttributesIn(chunk, attrs, i);
      assert attributes[1..] == AttributesIn(chunk, attrs, i + 1);
      AttributeIsRead(pool, attributes[0], initial);
      match AttributeMeaning(pool, attributes[0], initial) {
        case Ok(next) =>
          DescribesBehind(pool, attributes, initial, next, meta);
          AttributesAreReadIff(chunk, attrs, pool, i + 1, next, meta);
        case Err(_) =>
          UnreadableDescribesNothing(pool, attributes, initial, meta);
      }
    }
  }

  /** The table of attributes an element announces, if its chunk can hold it. */
  ghost predicate Announces(chunk: Bytes, attrs: Attributes)
    requires |chunk| >= 36 && U16At(chunk, 2) as int + 20 <= |chunk|
  {
    var h := U16At(chunk, 2);
    && attrs == Attributes(h as int + U16At(chunk, h + 8), U16At(chunk, h + 10), U16At(chunk, h + 12))
    && attrs.Within(chunk)
  }

  /**
   An element is a manifest with the metadata `meta` exactly when it has a header and a table of attributes that fit
   its chunk, its name is `manifest`, every version code among its attributes can be read, and for each of the three
   names the last attribute of that name says what `meta` has; a missing one counts as empty or as 0.
   */
  lemma {:induction false} ManifestIsReadIff(chunk: Bytes, pool: Pool, meta: Metadata)
    ensures ReadStart(chunk, pool) == Ok(Some(meta))
       <==> && |chunk| >= 36 && U16At(chunk, 2) >= 16 && U16At(chunk, 2) as int + 20 <= |chunk|
            && TextMeaning(pool, U32At(chunk, U16At(chunk, 2) + 4)) == Ascii("manifest")
            && exists attrs ::
                 && Announces(chunk, attrs)
                 && Describes(pool, AttributesIn(chunk, attrs, 0), Metadata([], [], 0), meta)
  {
    hide AttributesFrom, Describes, AttributesIn, U16At, U32At, Ascii;
    var header := ReadStartHeader(chunk, pool);
    if header.Ok? && header.value.Some? {
      var attrs := header.value.value;
      AttributesAreReadIff(chunk, attrs, pool, 0, Metadata([], [], 0), meta);
      assert Announces(chunk, attrs);
    }
  }

  /** Any other element that fits its chunk is passed over, whatever its attributes. */
  lemma {:induction false} OtherElementsArePassedIff(chunk: Bytes, pool: Pool)
    ensures ReadStart(chunk, pool) == Ok(None)
       <==> && |chunk| >= 36 && U16At(chunk, 2) >= 16 && U16At(chunk, 2) as int + 20 <= |chunk|
            && TextMeaning(pool, U32At(chunk, U16At(chunk, 2) + 4)) != Ascii("manifest")
  {
    hide AttributesFrom, U16At, U32At, Ascii;
  }

  // ---------- Files without a manifest ----------

  /** A header that is too short, longer than its chunk, or of a chunk that does not fit the file. */
  predicate Malformed(data: Bytes)
    requires |data| >= 8
  {
    U16At(data, 2) < 8 || U32At(data, 4) < U16At(data, 2) || U32At(data, 4) > |data|
  }

  /** What is left behind the well-formed chunks. */
  function Remainder(data: Bytes): (rest: Bytes)
    ensures |rest| >= 8 ==> Malformed(rest)
    decreases |data|
  {
    if |data| < 8 || Malformed(data) then data else Remainder(data[U32At(data, 4)..])
  }

  /** A walk over chunks none of which ends it fails, for a malformed chunk behind them or for want of a manifest. */
  lemma {:induction false} WalkWithoutManifest(data: Bytes, pool: Pool)
    requires PoolAfter(Chunks(data), pool).Some?
    ensures Walk(data, pool) == Err(if |Remainder(data)| < 8 then ElementNotFound else InvalidChunk)
    decreases |data|
  {
    hide ChunkOutcome, U16At, U32At, PoolAfter;
    if |data| >= 8 && !Malformed(data) {
      var chunks := Chunks(data);
      var outcome := ChunkOutcome(chunks[0], pool);
      WalkChunks(data, pool);
      if outcome.Ok? && outcome.value.Continue? {
        PoolAfterFirst(chunks, pool, outcome.value.pool);
        WalkWithoutManifest(data[|chunks[0]|..], outcome.value.pool);
      } else {
        NothingAfterTheEnd(chunks, pool);
      }
    }
  }
}
