/**
 Importing a sticker set: a database transaction beside uploads to object storage, which are deleted again
 when the transaction does not commit.
 */
module StickerImport {
  import opened Prelude
  import opened GoStrings
  import Decimal

  type Bytes = seq<bv8>

  const MAX_FILE_SIZE := 0x80_0000

  // ---------- Downloaded stickers ----------

  /** A sticker as the Telegram set lists it, with the path and content its download gives. */
  datatype Listed = Listed(fileId: string, uniqueId: string, emoji: string, extension: string, data: Bytes)

  datatype Sticker = Sticker(listed: Listed, mimeType: string, format: string, position: int)

  datatype ImportError =
    | NoShortName | NotAuthorized | TelegramFailed | EmptySet | EmptySticker | TooLarge | Unsupported | PersistFailed

  predicate StartsWith(data: Bytes, prefix: Bytes) {
    prefix <= data
  }

  /** The content decides before the file name does. */
  function DetectFormat(l: Listed): Option<(string, string)> {
    var ext := ToLower(l.extension);
    if StartsWith(l.data, [0x52, 0x49, 0x46, 0x46]) && |l.data| >= 12 && l.data[8..12] == [0x57, 0x45, 0x42, 0x50] then
      Some(("static", "image/webp"))
    else if StartsWith(l.data, [0x89, 0x50, 0x4E, 0x47]) then Some(("static", "image/png"))
    else if ext == ".tgs" || StartsWith(l.data, [0x1F, 0x8B]) then Some(("animated", "application/x-tgsticker"))
    else if ext == ".webm" || StartsWith(l.data, [0x1A, 0x45, 0xDF, 0xA3]) then Some(("video", "video/webm"))
    else None
  }

  function Validated(l: Listed, position: int): Result<Sticker, ImportError> {
    if |l.data| == 0 then Err(EmptySticker)
    else if |l.data| > MAX_FILE_SIZE then Err(TooLarge)
    else
      match DetectFormat(l)
      case None => Err(Unsupported)
      case Some((format, mimeType)) => Ok(Sticker(l, mimeType, format, position))
  }

  /** Why the sticker at place `i` cannot be imported, if it cannot. */
  function StickerError(l: Listed, i: nat, fetches: nat -> bool): Option<ImportError> {
    if !fetches(i) then Some(TelegramFailed)
    else
      match Validated(l, i)
      case Err(e) => Some(e)
      case Ok(_) => None
  }

  /** Each sticker of the set, numbered by its place. */
  predicate AllValidated(listed: seq<Listed>, stickers: seq<Sticker>) {
    |stickers| == |listed| && forall i: nat :: i < |listed| ==> Ok(stickers[i]) == Validated(listed[i], i)
  }

  /**
   The stickers to import: all of the set, numbered in its order, or the error of the first that cannot be
   imported. `fetches` says which downloads succeed.
   */
  method DownloadAll(listed: seq<Listed>, fetches: nat -> bool) returns (r: Result<seq<Sticker>, ImportError>)
    ensures r.Ok? <==> forall i: nat :: i < |listed| ==> StickerError(listed[i], i, fetches) == None
    ensures r.Ok? ==> AllValidated(listed, r.value)
    ensures r.Err? ==>
              exists i: nat ::
                && i < |listed| && StickerError(listed[i], i, fetches) == Some(r.error)
                && forall j: nat :: j < i ==> StickerError(listed[j], j, fetches) == None
  {
    hide Validated;
    var downloaded: seq<Sticker> := [];
    for i := 0 to |listed|
      invariant |downloaded| == i
      invariant forall j: nat :: j < i ==> StickerError(listed[j], j, fetches) == None
      invariant forall j: nat :: j < i ==> Ok(downloaded[j]) == Validated(listed[j], j)
    {
      if !fetches(i) {
        assert StickerError(listed[i], i, fetches) == Some(TelegramFailed);
        return Err(TelegramFailed);
      }
      var sticker := Validated(listed[i], i);
      if sticker.Err? {
        assert StickerError(listed[i], i, fetches) == Some(sticker.error);
        return Err(sticker.error);
      }
      downloaded := downloaded + [sticker.value];
    }
    return Ok(downloaded);
  }

  // ---------- Access hashes ----------

  const TWO_TO_THE_32 := 0x1_0000_0000

  /** The protocol's 32-bit numbers of the file types. */
  datatype FileTypes = FileTypes(webp: int, png: int, mp4: int, other: int)

  predicate FitsInt32(n: int) {
    -0x8000_0000 <= n < 0x8000_0000
  }

  function FileTypeOf(types: FileTypes, mimeType: string): int {
    if mimeType == "image/webp" then types.webp
    else if mimeType == "image/png" then types.png
    else if mimeType == "video/webm" then types.mp4
    else types.other
  }

  /** The file type of a MIME type above the low half of a random number. */
  function AccessHash(types: FileTypes, mimeType: string, random: int): int {
    FileTypeOf(types, mimeType) * TWO_TO_THE_32 + random % TWO_TO_THE_32
  }

  /** Both halves can be read back, whatever the random part, and the hash is a 64-bit integer. */
  lemma {:induction false} AccessHashParts(types: FileTypes, mimeType: string, random: int)
    requires FitsInt32(types.webp) && FitsInt32(types.png) && FitsInt32(types.mp4) && FitsInt32(types.other)
    ensures var hash := AccessHash(types, mimeType, random);
            && hash / TWO_TO_THE_32 == FileTypeOf(types, mimeType)
            && hash % TWO_TO_THE_32 == random % TWO_TO_THE_32
            && -0x8000_0000_0000_0000 <= hash < 0x8000_0000_0000_0000
  {
    var hash := AccessHash(types, mimeType, random);
    assert hash == hash / TWO_TO_THE_32 * TWO_TO_THE_32 + hash % TWO_TO_THE_32;
  }

  /** So hashes tell the formats that are imported apart, if the protocol's numbers do. */
  lemma {:induction false} AccessHashTellsFormats(types: FileTypes, a: Listed, b: Listed, x: int, y: int)
    requires FitsInt32(types.webp) && FitsInt32(types.png) && FitsInt32(types.mp4) && FitsInt32(types.other)
    requires types.webp != types.png && types.webp != types.mp4 && types.webp != types.other
    requires types.png != types.mp4 && types.png != types.other && types.mp4 != types.other
    requires DetectFormat(a).Some? && DetectFormat(b).Some?
    requires AccessHash(types, DetectFormat(a).value.1, x) == AccessHash(types, DetectFormat(b).value.1, y)
    ensures DetectFormat(a).value.1 == DetectFormat(b).value.1
  {
    var m, n := DetectFormat(a).value.1, DetectFormat(b).value.1;
    AccessHashParts(types, m, x);
    AccessHashParts(types, n, y);
    hide AccessHash, ToLower, StartsWith;
    assert m == "image/webp" || m == "image/png" || m == "application/x-tgsticker" || m == "video/webm";
    assert n == "image/webp" || n == "image/png" || n == "application/x-tgsticker" || n == "video/webm";
  }

  // ---------- Tables and storage ----------

  datatype SetRow = SetRow(id: int, accessHash: int, title: string, source: string, disabled: bool)

  datatype StickerRow = StickerRow(
    setId: int, accessHash: int, uniqueId: string, mimeType: string, size: int, position: int, storageKey: string)

  datatype DocumentRow = DocumentRow(accessHash: int, filePath: string, fileSize: int, mimeType: string)

  /** Recent stickers are pairs of user and sticker; the emoji index maps emoji and sticker to a set. */
  datatype Tables = Tables(
    sets: map<string, SetRow>,
    stickers: map<int, StickerRow>,
    documents: map<int, DocumentRow>,
    recent: set<(int, int)>,
    emojis: map<(string, int), int>)

  datatype Object = Object(data: Bytes, contentType: string)

  type Storage = map<string, Object>

  function KeyOf(id: int): string {
    Decimal.OfInt(id) + ".dat"
  }

  lemma {:induction false} KeysDiffer(a: int, b: int)
    ensures KeyOf(a) == KeyOf(b) <==> a == b
  {
    if KeyOf(a) == KeyOf(b) {
      assert Decimal.OfInt(a) == KeyOf(a)[..|KeyOf(a)| - 4];
      assert Decimal.OfInt(b) == KeyOf(b)[..|KeyOf(b)| - 4];
      Decimal.OfIntIsInjective(a, b);
    }
  }

  /** What one import is about: the set, and the numbers the database and the random source hand out. */
  datatype Import = Import(
    shortName: string, title: string, source: string, newSetId: int, setHash: int,
    stickers: seq<Sticker>, ids: seq<int>, hashes: seq<int>)

  /** Every sticker numbered by its place in the set. */
  predicate Numbered(im: Import) {
    forall i :: 0 <= i < |im.stickers| ==> im.stickers[i].position == i
  }

  /** The steps of the transaction that can fail. */
  datatype Point =
    | Begin | UpsertSet | ReadSet | DropRecent | DropStickers
    | InsertSticker(i: nat) | Put(i: nat) | StoreKey(i: nat) | WriteDocument(i: nat) | WriteEmoji(i: nat)
    | Commit

  /**
   Which steps fail; whether a failed upload nevertheless left its object; which deletes work; and whether a
   commit that reports an error took effect.
   */
  datatype Faults = Faults(fails: Point -> bool, putLeaves: bool, deletes: string -> bool, commitApplied: bool)

  predicate WellFormed(im: Import) {
    |im.ids| == |im.stickers| == |im.hashes|
  }

  /** Ids the database never handed out before. */
  ghost predicate IdsAreNew(im: Import, t: Tables, s: Storage) {
    && (forall i, j :: 0 <= i < j < |im.ids| ==> im.ids[i] != im.ids[j])
    && (forall i :: 0 <= i < |im.ids| ==>
          im.ids[i] !in t.stickers && im.ids[i] !in t.documents && KeyOf(im.ids[i]) !in s)
  }

  // ---------- The transaction, step by step ----------

  function WithSet(t: Tables, im: Import): Tables {
    t.(sets := t.sets[im.shortName :=
      if im.shortName in t.sets
      then t.sets[im.shortName].(title := im.title, source := im.source, disabled := false)
      else SetRow(im.newSetId, im.setHash, im.title, im.source, false)])
  }

  predicate OfSet(t: Tables, setId: int, id: int) {
    id in t.stickers && t.stickers[id].setId == setId
  }

  /** Deleting the rows of a set takes their recent uses and emoji entries with them; documents stay. */
  function WithoutStickers(t: Tables, setId: int): Tables {
    t.(stickers := (map id | id in t.stickers && t.stickers[id].setId != setId :: t.stickers[id]),
       recent := (set u | u in t.recent && !OfSet(t, setId, u.1)),
       emojis := (map e | e in t.emojis && !OfSet(t, setId, e.1) :: t.emojis[e]))
  }

  /** The unique index on set and Telegram's file id. */
  predicate Repeats(t: Tables, setId: int, uniqueId: string) {
    exists id :: id in t.stickers && t.stickers[id].setId == setId && t.stickers[id].uniqueId == uniqueId
  }

  function RowOf(st: Sticker, setId: int, hash: int, key: string): StickerRow {
    StickerRow(setId, hash, st.listed.uniqueId, st.mimeType, |st.listed.data|, st.position, key)
  }

  function WithRow(t: Tables, id: int, row: StickerRow): Tables {
    t.(stickers := t.stickers[id := row])
  }

  function WithDocument(t: Tables, st: Sticker, id: int, hash: int): Tables {
    t.(documents := t.documents[id := DocumentRow(hash, KeyOf(id), |st.listed.data|, st.mimeType)])
  }

  function WithEmoji(t: Tables, st: Sticker, id: int, setId: int): Tables {
    var emoji := TrimSpace(st.listed.emoji);
    if emoji == "" then t else t.(emojis := t.emojis[(emoji, id) := setId])
  }

  /** One sticker's rows, all written. */
  function WithSticker(t: Tables, st: Sticker, id: int, setId: int, hash: int): Tables {
    WithEmoji(WithDocument(WithRow(t, id, RowOf(st, setId, hash, KeyOf(id))), st, id, hash), st, id, setId)
  }

  function ObjectOf(st: Sticker): Object {
    Object(st.listed.data, st.mimeType)
  }

  /** The transaction's tables, the storage and the keys uploaded so far; `failed` once a step failed. */
  datatype Progress = Progress(tables: Tables, storage: Storage, uploaded: seq<string>, failed: bool)

  function ImportSticker(p: Progress, im: Import, f: Faults, setId: int, i: nat): Progress
    requires WellFormed(im) && i < |im.stickers|
  {
    var st, id, hash := im.stickers[i], im.ids[i], im.hashes[i];
    var key := KeyOf(id);
    if f.fails(InsertSticker(i)) || Repeats(p.tables, setId, st.listed.uniqueId) then p.(failed := true)
    else if f.fails(Put(i)) then
      p.(failed := true, storage := if f.putLeaves then p.storage[key := ObjectOf(st)] else p.storage)
    else
      var q := p.(storage := p.storage[key := ObjectOf(st)], uploaded := p.uploaded + [key]);
      if f.fails(StoreKey(i)) || f.fails(WriteDocument(i)) ||
         (TrimSpace(st.listed.emoji) != "" && f.fails(WriteEmoji(i)))
      then q.(failed := true)
      else q.(tables := WithSticker(p.tables, st, id, setId, hash))
  }

  /** The progress after the first `n` stickers; nothing more happens once a step failed. */
  function ImportFirst(p: Progress, im: Import, f: Faults, setId: int, n: nat): Progress
    requires WellFormed(im) && n <= |im.stickers|
  {
    if n == 0 then p
    else
      var before := ImportFirst(p, im, f, setId, n - 1);
      if before.failed then before else ImportSticker(before, im, f, setId, n - 1)
  }

  function SetIdOf(t: Tables, im: Import): int {
    WithSet(t, im).sets[im.shortName].id
  }

  function Opened(t: Tables, s: Storage, im: Import): Progress {
    Progress(WithoutStickers(WithSet(t, im), SetIdOf(t, im)), s, [], false)
  }

  predicate OpenFails(f: Faults) {
    f.fails(Begin) || f.fails(UpsertSet) || f.fails(ReadSet) || f.fails(DropRecent) || f.fails(DropStickers)
  }

  /** Everything before the commit. */
  function Prepared(t: Tables, s: Storage, im: Import, f: Faults): Progress
    requires WellFormed(im)
  {
    if OpenFails(f) then Progress(t, s, [], true)
    else ImportFirst(Opened(t, s, im), im, f, SetIdOf(t, im), |im.stickers|)
  }

  function DeleteEach(s: Storage, keys: seq<string>, deletes: string -> bool): Storage {
    if keys == [] then s
    else
      var rest := DeleteEach(s, Init(keys), deletes);
      if deletes(Last(keys)) then rest - {Last(keys)} else rest
  }

  datatype Outcome = Outcome(tables: Tables, storage: Storage, committed: bool)

  /** The whole import: the tables change only by the commit, and without it the uploads are deleted again. */
  function Persisted(t: Tables, s: Storage, im: Import, f: Faults): Outcome
    requires WellFormed(im)
  {
    var p := Prepared(t, s, im, f);
    if p.failed then Outcome(t, DeleteEach(p.storage, p.uploaded, f.deletes), false)
    else if f.fails(Commit) then
      Outcome(if f.commitApplied then p.tables else t, DeleteEach(p.storage, p.uploaded, f.deletes), false)
    else Outcome(p.tables, p.storage, true)
  }

  /** One sticker adds the same uploads whatever was uploaded before. */
  lemma {:induction false} UploadsAddUp(p: Progress, im: Import, f: Faults, setId: int, i: nat)
    requires WellFormed(im) && i < |im.stickers|
    ensures var alone := ImportSticker(p.(uploaded := []), im, f, setId, i);
            ImportSticker(p, im, f, setId, i) == alone.(uploaded := p.uploaded + alone.uploaded)
  {
    hide WithSticker, Repeats, TrimSpace, KeyOf;
    assert p.uploaded + [] == p.uploaded;
  }

  lemma {:induction false} FailureStays(p: Progress, im: Import, f: Faults, setId: int, m: nat, n: nat)
    requires WellFormed(im) && m <= n <= |im.stickers|
    requires ImportFirst(p, im, f, setId, m).failed
    ensures ImportFirst(p, im, f, setId, n) == ImportFirst(p, im, f, setId, m)
    decreases n
  {
    hide ImportSticker;
    if m < n {
      FailureStays(p, im, f, setId, m, n - 1);
    }
  }

  lemma {:induction false} NextSticker(p: Progress, im: Import, f: Faults, setId: int, i: nat)
    requires WellFormed(im) && i < |im.stickers| && !ImportFirst(p, im, f, setId, i).failed
    ensures var before := ImportFirst(p, im, f, setId, i);
            var alone := ImportSticker(before.(uploaded := []), im, f, setId, i);
            ImportFirst(p, im, f, setId, i + 1) == alone.(uploaded := before.uploaded + alone.uploaded)
  {
    hide ImportSticker;
    UploadsAddUp(ImportFirst(p, im, f, setId, i), im, f, setId, i);
  }

  lemma {:induction false} NoStickerYet(p: Progress, im: Import, f: Faults, setId: int)
    requires WellFormed(im)
    ensures ImportFirst(p, im, f, setId, 0) == p
  {
  }

  class Importer {
    var tables: Tables
    var storage: Storage

    constructor (t: Tables, s: Storage)
      ensures tables == t && storage == s
    {
      tables, storage := t, s;
    }

    method PutDocument(key: string, o: Object, ok: bool, leaves: bool)
      modifies this`storage
      ensures storage == if ok || leaves then old(storage)[key := o] else old(storage)
    {
      if ok || leaves {
        storage := storage[key := o];
      }
    }

    method DeleteDocument(key: string, ok: bool)
      modifies this`storage
      ensures storage == if ok then old(storage) - {key} else old(storage)
    {
      if ok {
        storage := storage - {key};
      }
    }

    /** Inserts one sticker, uploads it and links the row to the object, within the transaction's tables. */
    method PersistSticker(tx: Tables, im: Import, f: Faults, setId: int, i: nat) returns (ok: bool, after: Tables,
          uploaded: seq<string>)
      requires WellFormed(im) && i < |im.stickers|
      modifies this`storage
      ensures var p := ImportSticker(Progress(tx, old(storage), [], false), im, f, setId, i);
              && ok == !p.failed
              && storage == p.storage
              && uploaded == p.uploaded
              && (ok ==> after == p.tables)
    {
      hide TrimSpace, KeyOf, Repeats;
      var st, id, hash := im.stickers[i], im.ids[i], im.hashes[i];
      after, uploaded := tx, [];
      if f.fails(InsertSticker(i)) || Repeats(tx, setId, st.listed.uniqueId) {
        return false, after, uploaded;
      }
      after := WithRow(after, id, RowOf(st, setId, hash, ""));
      var key := KeyOf(id);
      PutDocument(key, ObjectOf(st), !f.fails(Put(i)), f.putLeaves);
      if f.fails(Put(i)) {
        return false, after, uploaded;
      }
      uploaded := uploaded + [key];
      if f.fails(StoreKey(i)) {
        return false, after, uploaded;
      }
      after := WithRow(after, id, after.stickers[id].(storageKey := key));
      assert after == WithRow(tx, id, RowOf(st, setId, hash, key));
      if f.fails(WriteDocument(i)) {
        return false, after, uploaded;
      }
      after := WithDocument(after, st, id, hash);
      var emoji := TrimSpace(st.listed.emoji);
      if emoji != "" {
        if f.fails(WriteEmoji(i)) {
          return false, after, uploaded;
        }
        after := after.(emojis := after.emojis[(emoji, id) := setId]);
      }
      return true, after, uploaded;
    }

    /** The loop of the transaction over the stickers, up to the first failure. */
    method PersistStickers(start: Tables, im: Import, f: Faults, setId: int)
      returns (ok: bool, tx: Tables, uploaded: seq<string>)
      requires WellFormed(im)
      modifies this`storage
      ensures var p := ImportFirst(Progress(start, old(storage), [], false), im, f, setId, |im.stickers|);
              ok == !p.failed && storage == p.storage && uploaded == p.uploaded && (ok ==> tx == p.tables)
    {
      hide ImportSticker;
      ghost var begin := Progress(start, storage, [], false);
      NoStickerYet(begin, im, f, setId);
      hide ImportFirst;
      tx, uploaded := start, [];
      for i := 0 to |im.stickers|
        invariant ImportFirst(begin, im, f, setId, i) == Progress(tx, storage, uploaded, false)
      {
        NextSticker(begin, im, f, setId, i);
        var keys;
        ok, tx, keys := PersistSticker(tx, im, f, setId, i);
        uploaded := uploaded + keys;
        if !ok {
          FailureStays(begin, im, f, setId, i + 1, |im.stickers|);
          return false, tx, uploaded;
        }
      }
      return true, tx, uploaded;
    }

    /** Runs the transaction on a copy of the tables, up to the commit. */
    method Prepare(im: Import, f: Faults) returns (ok: bool, tx: Tables, uploaded: seq<string>)
      requires WellFormed(im)
      modifies this`storage
      ensures var p := Prepared(tables, old(storage), im, f);
              ok == !p.failed && storage == p.storage && uploaded == p.uploaded && (ok ==> tx == p.tables)
    {
      hide ImportFirst;
      tx, uploaded := tables, [];
      if f.fails(Begin) || f.fails(UpsertSet) {
        return false, tx, uploaded;
      }
      tx := WithSet(tx, im);
      if f.fails(ReadSet) || f.fails(DropRecent) || f.fails(DropStickers) {
        return false, tx, uploaded;
      }
      var setId := tx.sets[im.shortName].id;
      ok, tx, uploaded := PersistStickers(WithoutStickers(tx, setId), im, f, setId);
    }

    method Compensate(keys: seq<string>, deletes: string -> bool)
      modifies this`storage
      ensures storage == DeleteEach(old(storage), keys, deletes)
    {
      for i := 0 to |keys|
        invariant storage == DeleteEach(old(storage), keys[..i], deletes)
      {
        assert Init(keys[..i + 1]) == keys[..i];
        DeleteDocument(keys[i], deletes(keys[i]));
      }
      assert keys[..|keys|] == keys;
    }

    method PersistImport(im: Import, f: Faults) returns (committed: bool)
      requires WellFormed(im)
      modifies this
      ensures Outcome(tables, storage, committed) == Persisted(old(tables), old(storage), im, f)
    {
      hide Prepared;
      var ok, tx, uploaded := Prepare(im, f);
      if !ok {
        Compensate(uploaded, f.deletes);
        return false;
      }
      if f.fails(Commit) {
        if f.commitApplied {
          tables := tx;
        }
        Compensate(uploaded, f.deletes);
        return false;
      }
      tables := tx;
      return true;
    }

    /**
     Imports a set as Telegram lists it under the requested name; None if Telegram does not know it. The set brings
     its own name, under which it is stored. Whatever is wrong with the request or a download ends the import
     before the transaction, with nothing changed.
     */
    method ImportTelegramSet(
        requested: string, statement: string, listed: Option<seq<Listed>>, fetches: nat -> bool, im: Import, f: Faults)
      returns (r: Result<(), ImportError>, whole: Import)
      requires listed.Some? ==> |im.ids| == |im.hashes| == |listed.value|
      modifies this
      ensures requested == "" ==> r == Err(NoShortName)
      ensures requested != "" && TrimSpace(statement) == "" ==> r == Err(NotAuthorized)
      ensures requested != "" && TrimSpace(statement) != "" && listed == None ==> r == Err(TelegramFailed)
      ensures requested != "" && TrimSpace(statement) != "" && listed == Some([]) ==> r == Err(EmptySet)
      ensures requested != "" && TrimSpace(statement) != "" && listed.Some? && listed.value != [] ==>
                if forall i: nat :: i < |listed.value| ==> StickerError(listed.value[i], i, fetches) == None
                then r.Ok? || r.error == PersistFailed
                else r.Err? && exists i: nat ::
                       && i < |listed.value| && StickerError(listed.value[i], i, fetches) == Some(r.error)
                       && forall j: nat :: j < i ==> StickerError(listed.value[j], j, fetches) == None
      ensures r.Err? && r.error != PersistFailed ==> tables == old(tables) && storage == old(storage)
      ensures r.Ok? || r.error == PersistFailed ==>
                && requested != "" && TrimSpace(statement) != "" && listed.Some? && |listed.value| > 0
                && whole == im.(stickers := whole.stickers) && WellFormed(whole) && Numbered(whole)
                && (forall i: nat :: i < |listed.value| ==> whole.stickers[i].listed == listed.value[i])
                && Outcome(tables, storage, r.Ok?) == Persisted(old(tables), old(storage), whole, f)
    {
      hide Persisted, TrimSpace, DetectFormat;
      if requested == "" {
        return Err(NoShortName), im;
      }
      if TrimSpace(statement) == "" {
        return Err(NotAuthorized), im;
      }
      if listed == None {
        return Err(TelegramFailed), im;
      }
      if |listed.value| == 0 {
        return Err(EmptySet), im;
      }
      var downloaded := DownloadAll(listed.value, fetches);
      if downloaded.Err? {
        return Err(downloaded.error), im;
      }
      whole := im.(stickers := downloaded.value);
      forall i: nat | i < |listed.value|
        ensures whole.stickers[i].listed == listed.value[i] && whole.stickers[i].position == i
      {
        assert Ok(whole.stickers[i]) == Validated(listed.value[i], i);
      }
      var committed := PersistImport(whole, f);
      r := if committed then Ok(()) else Err(PersistFailed);
    }
  }
}
