/** How stickers are recognised, and what a committed import leaves of every row, entry and object. */
module StickerEffects {
  import opened Prelude
  import opened GoStrings
  import Decimal
  import opened StickerImport
  import opened StickerImportSafety

  // ---------- Formats ----------

  /** The content begins with these bytes. */
  predicate Begins(data: Bytes, a: bv8, b: bv8, c: bv8, d: bv8) {
    |data| >= 4 && data[0] == a && data[1] == b && data[2] == c && data[3] == d
  }

  /** A RIFF container of at least twelve bytes that says WEBP behind its size. */
  predicate IsWebp(data: Bytes) {
    && |data| >= 12 && Begins(data, 0x52, 0x49, 0x46, 0x46)
    && Begins(data[8..], 0x57, 0x45, 0x42, 0x50)
  }

  predicate IsPng(data: Bytes) {
    Begins(data, 0x89, 0x50, 0x4E, 0x47)
  }

  predicate IsGzip(data: Bytes) {
    |data| >= 2 && data[0] == 0x1F && data[1] == 0x8B
  }

  predicate IsMatroska(data: Bytes) {
    Begins(data, 0x1A, 0x45, 0xDF, 0xA3)
  }

  predicate IsAnimated(l: Listed) {
    !IsWebp(l.data) && !IsPng(l.data) && (IsGzip(l.data) || ToLower(l.extension) == ".tgs")
  }

  lemma {:induction false} PrefixOfFour(data: Bytes, a: bv8, b: bv8, c: bv8, d: bv8)
    ensures StartsWith(data, [a, b, c, d]) <==> Begins(data, a, b, c, d)
  {
    if Begins(data, a, b, c, d) {
      assert data[..4] == [a, b, c, d];
    }
  }

  lemma {:induction false} PrefixOfTwo(data: Bytes, a: bv8, b: bv8)
    ensures StartsWith(data, [a, b]) <==> |data| >= 2 && data[0] == a && data[1] == b
  {
    if |data| >= 2 && data[0] == a && data[1] == b {
      assert data[..2] == [a, b];
    }
  }

  lemma {:induction false} WebpTag(data: Bytes)
    requires |data| >= 12
    ensures data[8..12] == [0x57, 0x45, 0x42, 0x50] <==> Begins(data[8..], 0x57, 0x45, 0x42, 0x50)
  {
    assert data[8..12] == [data[8], data[9], data[10], data[11]];
  }

  /** What content is taken for: pictures by their content, animations and videos by their content or their name. */
  lemma {:induction false} FormatIs(l: Listed)
    ensures DetectFormat(l) == if IsWebp(l.data) then Some(("static", "image/webp"))
                               else if IsPng(l.data) then Some(("static", "image/png"))
                               else if IsAnimated(l) then Some(("animated", "application/x-tgsticker"))
                               else if IsMatroska(l.data) || ToLower(l.extension) == ".webm"
                               then Some(("video", "video/webm"))
                               else None
  {
    PrefixOfFour(l.data, 0x52, 0x49, 0x46, 0x46);
    PrefixOfFour(l.data, 0x89, 0x50, 0x4E, 0x47);
    PrefixOfFour(l.data, 0x1A, 0x45, 0xDF, 0xA3);
    PrefixOfTwo(l.data, 0x1F, 0x8B);
    if |l.data| >= 12 {
      WebpTag(l.data);
    }
    hide StartsWith, Begins, ToLower;
  }

  /** A sticker is imported as it was listed, exactly if it has 1 to 8388608 bytes of a known format. */
  lemma {:induction false} StickerIsTakenIff(l: Listed, position: int, st: Sticker)
    ensures Validated(l, position) == Ok(st)
       <==> && 1 <= |l.data| <= 8_388_608 && st.listed == l && st.position == position
            && DetectFormat(l) == Some((st.format, st.mimeType))
    ensures Validated(l, position) == Err(EmptySticker) <==> l.data == []
    ensures Validated(l, position) == Err(TooLarge) <==> |l.data| > 8_388_608
  {
    hide DetectFormat;
  }

  /** What a sticker fails for: its download first, then its content. */
  lemma {:induction false} StickerFailsFor(l: Listed, i: nat, fetches: nat -> bool)
    ensures StickerError(l, i, fetches) == None
       <==> fetches(i) && 1 <= |l.data| <= 8_388_608 && DetectFormat(l).Some?
    ensures StickerError(l, i, fetches) == Some(TelegramFailed) <==> !fetches(i)
    ensures StickerError(l, i, fetches) == Some(Unsupported)
       <==> fetches(i) && 1 <= |l.data| <= 8_388_608 && DetectFormat(l) == None
  {
    hide DetectFormat;
  }

  // ---------- The set ----------

  /** The row of the set: new under its own id and hash, or kept with the title and source of the import, enabled. */
  lemma {:induction false} SetRowShows(t: Tables, im: Import, name: string)
    ensures var sets := WithSet(t, im).sets;
            && im.shortName in sets
            && sets[im.shortName].title == im.title && sets[im.shortName].source == im.source
            && !sets[im.shortName].disabled
            && (if im.shortName in t.sets
                then && sets[im.shortName].id == t.sets[im.shortName].id
                     && sets[im.shortName].accessHash == t.sets[im.shortName].accessHash
                else sets[im.shortName].id == im.newSetId && sets[im.shortName].accessHash == im.setHash)
            && (name != im.shortName ==> (name in sets <==> name in t.sets))
            && (name != im.shortName && name in t.sets ==> sets[name] == t.sets[name])
    ensures SetIdOf(t, im) == if im.shortName in t.sets then t.sets[im.shortName].id else im.newSetId
  {
  }

  // ---------- Rows and objects ----------

  /** Each sticker of a committed import has its row, its document and its object, all three about the same content. */
  lemma {:induction false} CommittedStickerShows(t: Tables, s: Storage, im: Import, f: Faults, i: nat)
    requires WellFormed(im) && IdsAreNew(im, t, s) && Numbered(im) && Persisted(t, s, im, f).committed
    requires i < |im.stickers|
    ensures var after := Persisted(t, s, im, f);
            var st, id, key := im.stickers[i], im.ids[i], Decimal.OfInt(im.ids[i]) + ".dat";
            && id in after.tables.stickers && id in after.tables.documents && key in after.storage
            && after.storage[key].data == st.listed.data && after.storage[key].contentType == st.mimeType
            && var row, document := after.tables.stickers[id], after.tables.documents[id];
               && row.setId == (if im.shortName in t.sets then t.sets[im.shortName].id else im.newSetId)
               && row.position == i && row.uniqueId == st.listed.uniqueId && row.storageKey == key
               && row.mimeType == st.mimeType && row.size == |st.listed.data| && row.accessHash == im.hashes[i]
               && document.filePath == key && document.mimeType == st.mimeType
               && document.fileSize == |st.listed.data| && document.accessHash == im.hashes[i]
  {
    var p := Prepared(t, s, im, f);
    assert Persisted(t, s, im, f) == Outcome(p.tables, p.storage, true) && !p.failed;
    SetRowShows(t, im, im.shortName);
    hide Persisted, Prepared, SetIdOf, WithSet, IdsAreNew, Opened, UploadedTo;
    CommitMeans(t, s, im, f);
    PreparedObjects(t, s, im, f, i);
    assert im.stickers[i].position == i;
    assert im.ids[..|im.stickers|] == im.ids;
  }

  /** The recent uses of the stickers that were replaced are gone, and no others. */
  lemma {:induction false} RecentUsesAfter(t: Tables, s: Storage, im: Import, f: Faults, user: int, id: int)
    requires WellFormed(im) && IdsAreNew(im, t, s) && Persisted(t, s, im, f).committed
    ensures (user, id) in Persisted(t, s, im, f).tables.recent
       <==> (user, id) in t.recent && !(id in t.stickers && t.stickers[id].setId == SetIdOf(t, im))
  {
    var p := Prepared(t, s, im, f);
    assert Persisted(t, s, im, f) == Outcome(p.tables, p.storage, true) && !p.failed;
    hide Persisted, Prepared, SetIdOf, IdsAreNew, UploadedTo;
    CommitMeans(t, s, im, f);
    assert (user, id).1 == id;
  }

  /** The documents of replaced stickers stay, as do all others. */
  lemma {:induction false} DocumentsStay(t: Tables, s: Storage, im: Import, f: Faults, id: int)
    requires WellFormed(im) && IdsAreNew(im, t, s) && Persisted(t, s, im, f).committed && id in t.documents
    ensures id in Persisted(t, s, im, f).tables.documents
    ensures Persisted(t, s, im, f).tables.documents[id] == t.documents[id]
  {
    var p := Prepared(t, s, im, f);
    assert Persisted(t, s, im, f) == Outcome(p.tables, p.storage, true) && !p.failed;
    assert id !in im.ids[..|im.stickers|];
    hide Persisted, Prepared, SetIdOf, IdsAreNew, UploadedTo;
    CommitMeans(t, s, im, f);
  }

  /** The upper half of a sticker's hash is the protocol's number of its format. */
  lemma {:induction false} HashShowsFormat(types: FileTypes, random: int)
    requires FitsInt32(types.webp) && FitsInt32(types.png) && FitsInt32(types.mp4) && FitsInt32(types.other)
    ensures AccessHash(types, "image/webp", random) / 0x1_0000_0000 == types.webp
    ensures AccessHash(types, "image/png", random) / 0x1_0000_0000 == types.png
    ensures AccessHash(types, "video/webm", random) / 0x1_0000_0000 == types.mp4
    ensures AccessHash(types, "application/x-tgsticker", random) / 0x1_0000_0000 == types.other
  {
    AccessHashParts(types, "image/webp", random);
    AccessHashParts(types, "image/png", random);
    AccessHashParts(types, "video/webm", random);
    AccessHashParts(types, "application/x-tgsticker", random);
    hide AccessHash;
    assert |"image/webp"| == |"video/webm"| && "image/webp"[0] != "video/webm"[0] && |"image/png"| == 9;
  }

  // ---------- Emoji ----------

  /** The first `n` stickers' entries, over those that stood before. */
  ghost predicate EmojisWritten(t: Tables, q: Tables, im: Import, setId: int, n: nat)
    requires WellFormed(im) && n <= |im.stickers|
  {
    && (forall i :: 0 <= i < n && TrimSpace(im.stickers[i].listed.emoji) != "" ==>
          var entry := (TrimSpace(im.stickers[i].listed.emoji), im.ids[i]);
          entry in q.emojis && q.emojis[entry] == setId)
    && (forall emoji: string, id: int :: id !in im.ids[..n] ==>
          && ((emoji, id) in q.emojis <==> (emoji, id) in t.emojis)
          && ((emoji, id) in t.emojis ==> q.emojis[(emoji, id)] == t.emojis[(emoji, id)]))
  }

  lemma {:induction false} OneMoreEmoji(t: Tables, q: Tables, im: Import, setId: int, n: nat)
    requires WellFormed(im) && n < |im.stickers| && Different(im.ids) && EmojisWritten(t, q, im, setId, n)
    ensures EmojisWritten(t, WithSticker(q, im.stickers[n], im.ids[n], setId, im.hashes[n]), im, setId, n + 1)
  {
    hide TrimSpace, KeyOf;
    assert im.ids[..n + 1] == im.ids[..n] + [im.ids[n]];
  }

  lemma {:induction false} NothingEmoji(t: Tables, im: Import, setId: int)
    requires WellFormed(im)
    ensures EmojisWritten(t, t, im, setId, 0)
  {
  }

  lemma {:induction false} ImportedEmojis(p: Progress, im: Import, f: Faults, setId: int, n: nat)
    requires WellFormed(im) && n <= |im.stickers| && Different(im.ids)
    requires !p.failed && !ImportFirst(p, im, f, setId, n).failed
    ensures EmojisWritten(p.tables, ImportFirst(p, im, f, setId, n).tables, im, setId, n)
  {
    hide Different, EmojisWritten, WithSticker, Repeats, TrimSpace, KeyOf;
    if n > 0 {
      var before := ImportFirst(p, im, f, setId, n - 1);
      ImportedEmojis(p, im, f, setId, n - 1);
      OneMoreEmoji(p.tables, before.tables, im, setId, n - 1);
    } else {
      NothingEmoji(p.tables, im, setId);
    }
  }

  /** Every imported sticker with an emoji can be found by it; the entries of replaced stickers are gone. */
  lemma {:induction false} EmojisAfter(t: Tables, s: Storage, im: Import, f: Faults, emoji: string, id: int)
    requires WellFormed(im) && IdsAreNew(im, t, s) && Persisted(t, s, im, f).committed
    ensures var after := Persisted(t, s, im, f).tables.emojis;
            && (forall i :: 0 <= i < |im.stickers| && TrimSpace(im.stickers[i].listed.emoji) != "" ==>
                  var entry := (TrimSpace(im.stickers[i].listed.emoji), im.ids[i]);
                  entry in after && after[entry] == SetIdOf(t, im))
            && (id !in im.ids ==>
                  && ((emoji, id) in after
                      <==> (emoji, id) in t.emojis && !(id in t.stickers && t.stickers[id].setId == SetIdOf(t, im)))
                  && ((emoji, id) in after ==> after[(emoji, id)] == t.emojis[(emoji, id)]))
  {
    var p := Prepared(t, s, im, f);
    assert Persisted(t, s, im, f) == Outcome(p.tables, p.storage, true) && !p.failed;
    NewIdsDiffer(im, t, s);
    ImportedEmojis(Opened(t, s, im), im, f, SetIdOf(t, im), |im.stickers|);
    assert im.ids[..|im.stickers|] == im.ids;
    assert p == ImportFirst(Opened(t, s, im), im, f, SetIdOf(t, im), |im.stickers|);
    hide Persisted, Prepared, SetIdOf, IdsAreNew, ImportFirst, TrimSpace, Different;
    assert (emoji, id).1 == id;
  }

  // ---------- Commits ----------

  /** No step of the sticker at place `i` fails; an emoji is written only if there is one. */
  ghost predicate StepsWork(im: Import, f: Faults, i: nat)
    requires i < |im.stickers|
  {
    && !f.fails(InsertSticker(i)) && !f.fails(Put(i)) && !f.fails(StoreKey(i)) && !f.fails(WriteDocument(i))
    && (TrimSpace(im.stickers[i].listed.emoji) != "" ==> !f.fails(WriteEmoji(i)))
  }

  /** No earlier sticker of the import has Telegram's id of this one. */
  ghost predicate IsFirstOfId(im: Import, i: nat)
    requires i < |im.stickers|
  {
    forall j :: 0 <= j < i ==> im.stickers[j].listed.uniqueId != im.stickers[i].listed.uniqueId
  }

  ghost predicate NoneOfSet(t: Tables, setId: int) {
    forall id :: id in t.stickers ==> t.stickers[id].setId != setId
  }

  lemma {:induction false} RepeatsIff(t: Tables, q: Tables, im: Import, setId: int, n: nat)
    requires WellFormed(im) && n < |im.stickers| && NoneOfSet(t, setId) && RowsWritten(t, q, im, setId, n)
    ensures Repeats(q, setId, im.stickers[n].listed.uniqueId) <==> !IsFirstOfId(im, n)
  {
    hide KeyOf;
    if Repeats(q, setId, im.stickers[n].listed.uniqueId) {
      var id :| id in q.stickers && q.stickers[id].setId == setId
                && q.stickers[id].uniqueId == im.stickers[n].listed.uniqueId;
      assert id in im.ids[..n];
      var j :| 0 <= j < n && im.ids[j] == id;
    }
    if j :| 0 <= j < n && im.stickers[j].listed.uniqueId == im.stickers[n].listed.uniqueId {
      assert im.ids[..n][j] == im.ids[j];
      assert im.ids[j] in q.stickers;
    }
  }

  lemma {:induction false} NothingWritten(t: Tables, im: Import, setId: int)
    requires WellFormed(im)
    ensures RowsWritten(t, t, im, setId, 0)
  {
  }

  lemma {:induction false} NothingFailsIff(p: Progress, im: Import, f: Faults, setId: int, n: nat)
    requires WellFormed(im) && n <= |im.stickers| && Different(im.ids) && NoneOfSet(p.tables, setId) && !p.failed
    ensures !ImportFirst(p, im, f, setId, n).failed
       <==> forall i :: 0 <= i < n ==> StepsWork(im, f, i) && IsFirstOfId(im, i)
  {
    hide Different, NoneOfSet, IsFirstOfId, Repeats, WithSticker, TrimSpace, KeyOf, RowsWritten;
    if n > 0 {
      NothingFailsIff(p, im, f, setId, n - 1);
      if !ImportFirst(p, im, f, setId, n - 1).failed {
        ImportedRows(p, im, f, setId, n - 1);
        RepeatsIff(p.tables, ImportFirst(p, im, f, setId, n - 1).tables, im, setId, n - 1);
      }
    }
  }

  /**
   An import commits exactly if no step of its transaction fails and no two of its stickers have the same id at
   Telegram, whatever the set held before.
   */
  lemma {:induction false} ImportCommitsIff(t: Tables, s: Storage, im: Import, f: Faults)
    requires WellFormed(im) && IdsAreNew(im, t, s)
    ensures Persisted(t, s, im, f).committed
       <==> && !f.fails(Begin) && !f.fails(UpsertSet) && !f.fails(ReadSet) && !f.fails(DropRecent)
            && !f.fails(DropStickers) && !f.fails(Commit)
            && (forall i :: 0 <= i < |im.stickers| ==> StepsWork(im, f, i))
            && (forall i :: 0 <= i < |im.stickers| ==> IsFirstOfId(im, i))
  {
    NewIdsDiffer(im, t, s);
    EmptiedOfSet(t, s, im);
    var p := Opened(t, s, im);
    assert NoneOfSet(p.tables, SetIdOf(t, im)) && !p.failed;
    hide Opened, WithSet, SetIdOf, NoneOfSet, Different, StepsWork, IsFirstOfId, ImportFirst;
    NothingFailsIff(p, im, f, SetIdOf(t, im), |im.stickers|);
  }
}
