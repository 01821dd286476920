/** What an import leaves behind: nothing when it fails, and rows that point at stored objects when it commits. */
module StickerImportSafety {
  import opened Prelude
  import opened StickerImport
  import GoStrings

  // ---------- Uploads ----------

  function Uploads(im: Import, n: nat): Storage
    requires WellFormed(im) && n <= |im.stickers|
  {
    if n == 0 then map[] else Uploads(im, n - 1)[KeyOf(im.ids[n - 1]) := ObjectOf(im.stickers[n - 1])]
  }

  function Keys(im: Import, n: nat): (keys: seq<string>)
    requires WellFormed(im) && n <= |im.stickers|
    ensures |keys| == n
  {
    seq(n, i requires 0 <= i < n => KeyOf(im.ids[i]))
  }

  /** The upload of sticker `m` is reached and fails. */
  ghost predicate PutFailsAt(p: Progress, im: Import, f: Faults, setId: int, m: nat)
    requires WellFormed(im)
  {
    && m < |im.stickers|
    && !ImportFirst(p, im, f, setId, m).failed
    && !f.fails(InsertSticker(m))
    && !Repeats(ImportFirst(p, im, f, setId, m).tables, setId, im.stickers[m].listed.uniqueId)
    && f.fails(Put(m))
  }

  /** The object a failed upload left. */
  ghost function LeftAt(p: Progress, im: Import, f: Faults, setId: int, m: nat): Storage
    requires WellFormed(im)
  {
    if f.putLeaves && PutFailsAt(p, im, f, setId, m) then map[KeyOf(im.ids[m]) := ObjectOf(im.stickers[m])] else map[]
  }

  /** The first `m` stickers are uploaded, and nothing else changed in storage but `left`. */
  ghost predicate UploadedTo(s: Storage, p: Progress, im: Import, m: nat, left: Storage)
    requires WellFormed(im) && m <= |im.stickers|
  {
    p.uploaded == Keys(im, m) && p.storage == s + Uploads(im, m) + left
  }

  lemma {:induction false} NothingUploaded(s: Storage, p: Progress, im: Import)
    requires WellFormed(im) && p.storage == s && p.uploaded == []
    ensures UploadedTo(s, p, im, 0, map[])
  {
    assert Keys(im, 0) == [];
    assert s + map[] + map[] == s;
  }

  lemma {:induction false} OneMoreUploaded(s: Storage, p: Progress, im: Import, m: nat)
    requires WellFormed(im) && m < |im.stickers| && UploadedTo(s, p, im, m, map[])
    ensures Keys(im, m + 1) == Keys(im, m) + [KeyOf(im.ids[m])]
    ensures p.storage[KeyOf(im.ids[m]) := ObjectOf(im.stickers[m])] == s + Uploads(im, m + 1) + map[]
    ensures p.storage[KeyOf(im.ids[m]) := ObjectOf(im.stickers[m])]
         == s + Uploads(im, m) + map[KeyOf(im.ids[m]) := ObjectOf(im.stickers[m])]
  {
    hide KeyOf;
  }

  lemma {:induction false} StickerUploads(s: Storage, p: Progress, im: Import, f: Faults, setId: int, m: nat,
        before: Progress)
    requires WellFormed(im) && m < |im.stickers| && before == ImportFirst(p, im, f, setId, m)
    requires !before.failed && UploadedTo(s, before, im, m, map[])
    ensures var q := ImportSticker(before, im, f, setId, m);
            || UploadedTo(s, q, im, m + 1, map[])
            || (q.failed && UploadedTo(s, q, im, m, LeftAt(p, im, f, setId, m)))
  {
    OneMoreUploaded(s, before, im, m);
    hide WithSticker, Repeats, KeyOf, Keys, Uploads, ImportFirst;
  }

  lemma {:induction false} SucceedsWithUpload(s: Storage, p: Progress, im: Import, f: Faults, setId: int, m: nat)
    requires WellFormed(im) && m < |im.stickers| && !p.failed && UploadedTo(s, p, im, m, map[])
    ensures !ImportSticker(p, im, f, setId, m).failed ==>
              UploadedTo(s, ImportSticker(p, im, f, setId, m), im, m + 1, map[])
  {
    OneMoreUploaded(s, p, im, m);
    hide WithSticker, Repeats, KeyOf, Keys, Uploads;
  }

  /** How many stickers were uploaded when the first `n` were tried: all of them, unless a step failed. */
  lemma {:induction false} UploadsOf(s: Storage, p: Progress, im: Import, f: Faults, setId: int,
        n: nat) returns (m: nat)
    requires WellFormed(im) && n <= |im.stickers|
    requires p.storage == s && p.uploaded == [] && !p.failed
    ensures m <= n
    ensures var q := ImportFirst(p, im, f, setId, n);
            && (UploadedTo(s, q, im, m, map[]) || (q.failed && UploadedTo(s, q, im, m, LeftAt(p, im, f, setId, m))))
            && (!q.failed ==> m == n && UploadedTo(s, q, im, m, map[]))
  {
    hide UploadedTo, ImportSticker, LeftAt;
    if n == 0 {
      m := 0;
      NothingUploaded(s, p, im);
    } else {
      m := UploadsOf(s, p, im, f, setId, n - 1);
      var before := ImportFirst(p, im, f, setId, n - 1);
      if !before.failed {
        StickerUploads(s, p, im, f, setId, n - 1, before);
        SucceedsWithUpload(s, before, im, f, setId, n - 1);
        m := if UploadedTo(s, ImportSticker(before, im, f, setId, n - 1), im, n, map[]) then n else n - 1;
      }
    }
  }

  // ---------- Deleting ----------

  lemma {:induction false} DeleteEachRemoves(s: Storage, keys: seq<string>, deletes: string -> bool, k: string)
    ensures k in DeleteEach(s, keys, deletes) <==> k in s && !(k in keys && deletes(k))
    ensures k in DeleteEach(s, keys, deletes) ==> DeleteEach(s, keys, deletes)[k] == s[k]
  {
    if keys != [] {
      DeleteEachRemoves(s, Init(keys), deletes, k);
      assert keys == Init(keys) + [Last(keys)];
    }
  }

  lemma {:induction false} UploadsAre(im: Import, n: nat, k: string)
    requires WellFormed(im) && n <= |im.stickers|
    ensures k in Uploads(im, n) <==> k in Keys(im, n)
  {
    hide KeyOf;
    if n > 0 {
      UploadsAre(im, n - 1, k);
      assert Keys(im, n) == Keys(im, n - 1) + [KeyOf(im.ids[n - 1])];
    }
  }

  lemma {:induction false} NewKeys(im: Import, t: Tables, s: Storage, n: nat, m: nat)
    requires WellFormed(im) && IdsAreNew(im, t, s) && n <= m < |im.stickers|
    ensures KeyOf(im.ids[m]) !in Keys(im, n) && KeyOf(im.ids[m]) !in s
  {
    forall i | 0 <= i < n ensures KeyOf(im.ids[i]) != KeyOf(im.ids[m]) {
      KeysDiffer(im.ids[i], im.ids[m]);
    }
    hide KeyOf;
  }

  lemma {:induction false} KeysAreNew(im: Import, t: Tables, s: Storage, n: nat)
    requires WellFormed(im) && IdsAreNew(im, t, s) && n <= |im.stickers|
    ensures forall k :: k in Keys(im, n) ==> k !in s
  {
    hide KeyOf;
  }

  /** Deleting the uploads restores storage exactly when every delete works and no failed upload left its object. */
  lemma {:induction false} DeletingRestoresIff(s: Storage, p: Progress, im: Import, m: nat, left: Storage,
        deletes: string -> bool)
    requires WellFormed(im) && m <= |im.stickers| && UploadedTo(s, p, im, m, left)
    requires forall k :: k in Keys(im, m) ==> k !in s
    requires forall k :: k in left ==> k !in s && k !in Keys(im, m)
    ensures DeleteEach(p.storage, p.uploaded, deletes) == s
       <==> left == map[] && forall k :: k in Keys(im, m) ==> deletes(k)
  {
    hide KeyOf, DeleteEach, Keys, Uploads;
    var after := DeleteEach(p.storage, p.uploaded, deletes);
    forall k
      ensures k in after <==> k in s || k in left || (k in Keys(im, m) && !deletes(k))
      ensures k in s ==> k in after && after[k] == s[k]
    {
      DeleteEachRemoves(p.storage, p.uploaded, deletes, k);
      UploadsAre(im, m, k);
    }
    if left != map[] {
      var k :| k in left;
      assert k in after && k !in s;
    } else if exists k :: k in Keys(im, m) && !deletes(k) {
      var k :| k in Keys(im, m) && !deletes(k);
      assert k in after && k !in s;
    } else {
      assert after == s;
    }
  }

  // ---------- Failed imports ----------

  /** The objects that were uploaded when the import stopped before its commit. */
  function UploadedKeys(t: Tables, s: Storage, im: Import, f: Faults): seq<string>
    requires WellFormed(im)
  {
    Prepared(t, s, im, f).uploaded
  }

  /** Some upload is reached and fails. */
  ghost predicate UploadFails(t: Tables, s: Storage, im: Import, f: Faults)
    requires WellFormed(im)
  {
    !OpenFails(f) && exists m :: PutFailsAt(Opened(t, s, im), im, f, SetIdOf(t, im), m)
  }

  /** A failed put uploads nothing that is noted, and may leave the object. */
  lemma {:induction false} FailedPutUploadsNothing(p: Progress, im: Import, f: Faults, setId: int, k: nat)
    requires WellFormed(im) && PutFailsAt(p, im, f, setId, k)
    ensures var q := ImportFirst(p, im, f, setId, k + 1);
            && q.failed && q.uploaded == ImportFirst(p, im, f, setId, k).uploaded
            && (f.putLeaves ==> KeyOf(im.ids[k]) in q.storage)
  {
    hide WithSticker, KeyOf, Repeats;
  }

  /** After a failed upload nothing more is tried, so its sticker comes right after the uploaded ones. */
  lemma {:induction false} FailedPutIsLast(s: Storage, p: Progress, im: Import, f: Faults, setId: int, m: nat, k: nat)
    requires WellFormed(im) && p.storage == s && p.uploaded == [] && !p.failed
    requires PutFailsAt(p, im, f, setId, k) && m <= |im.stickers|
    requires ImportFirst(p, im, f, setId, |im.stickers|).uploaded == Keys(im, m)
    ensures m == k && ImportFirst(p, im, f, setId, |im.stickers|).failed
    ensures f.putLeaves ==> KeyOf(im.ids[k]) in ImportFirst(p, im, f, setId, |im.stickers|).storage
  {
    hide ImportSticker, KeyOf, Repeats;
    var before := UploadsOf(s, p, im, f, setId, k);
    FailedPutUploadsNothing(p, im, f, setId, k);
    hide ImportFirst;
    FailureStays(p, im, f, setId, k + 1, |im.stickers|);
    assert |Keys(im, m)| == |Keys(im, k)|;
  }

  lemma {:induction false} UploadedAreKeys(s: Storage, p: Progress, im: Import, m: nat, left: Storage)
    requires WellFormed(im) && m <= |im.stickers| && UploadedTo(s, p, im, m, left)
    ensures p.uploaded == Keys(im, m)
  {
  }

  lemma {:induction false} PutFailsInRange(p: Progress, im: Import, f: Faults, setId: int, k: nat)
    requires WellFormed(im) && PutFailsAt(p, im, f, setId, k)
    ensures k < |im.stickers|
  {
  }

  lemma {:induction false} LeftOf(
      t: Tables, s: Storage, p: Progress, im: Import, f: Faults, setId: int, m: nat, q: Progress)
    returns (left: Storage)
    requires WellFormed(im) && IdsAreNew(im, t, s) && m <= |im.stickers|
    requires p.storage == s && p.uploaded == [] && !p.failed && q == ImportFirst(p, im, f, setId, |im.stickers|)
    requires UploadedTo(s, q, im, m, map[]) || (q.failed && UploadedTo(s, q, im, m, LeftAt(p, im, f, setId, m)))
    ensures UploadedTo(s, q, im, m, left)
    ensures left != map[] <==> f.putLeaves && exists k :: PutFailsAt(p, im, f, setId, k)
    ensures forall k :: k in left ==> k !in s && k !in Keys(im, m)
  {
    hide ImportFirst, Keys, Uploads, PutFailsAt, KeyOf, IdsAreNew;
    assert q.uploaded == Keys(im, m);
    if f.putLeaves && exists k :: PutFailsAt(p, im, f, setId, k) {
      var k: nat :| PutFailsAt(p, im, f, setId, k);
      FailedPutIsLast(s, p, im, f, setId, m, k);
      PutFailsInRange(p, im, f, setId, k);
      NewKeys(im, t, s, m, k);
      UploadsAre(im, m, KeyOf(im.ids[k]));
      left := LeftAt(p, im, f, setId, m);
      assert KeyOf(im.ids[k]) !in s + Uploads(im, m) + map[];
      assert KeyOf(im.ids[k]) in left;
    } else {
      left := map[];
    }
  }

  // ---------- What an import writes ----------

  /** The tables after the first `n` stickers: their rows, and everything else as it was. */
  ghost predicate RowsWritten(t: Tables, q: Tables, im: Import, setId: int, n: nat)
    requires WellFormed(im) && n <= |im.stickers|
  {
    && q.sets == t.sets && q.recent == t.recent
    && (forall id :: id in q.stickers <==> id in t.stickers || id in im.ids[..n])
    && (forall i :: 0 <= i < n ==>
          q.stickers[im.ids[i]] == RowOf(im.stickers[i], setId, im.hashes[i], KeyOf(im.ids[i])))
    && (forall id :: id in t.stickers && id !in im.ids[..n] ==> q.stickers[id] == t.stickers[id])
    && (forall i :: 0 <= i < n ==>
          im.ids[i] in q.documents &&
          q.documents[im.ids[i]]
          == DocumentRow(im.hashes[i], KeyOf(im.ids[i]), |im.stickers[i].listed.data|, im.stickers[i].mimeType))
    && (forall id :: id in t.documents && id !in im.ids[..n] ==>
          id in q.documents && q.documents[id] == t.documents[id])
  }

  ghost predicate Different(ids: seq<int>) {
    forall i, j :: 0 <= i < j < |ids| ==> ids[i] != ids[j]
  }

  lemma {:induction false} OneMoreRow(t: Tables, q: Tables, im: Import, setId: int, n: nat)
    requires WellFormed(im) && n < |im.stickers| && Different(im.ids) && RowsWritten(t, q, im, setId, n)
    ensures RowsWritten(t, WithSticker(q, im.stickers[n], im.ids[n], setId, im.hashes[n]), im, setId, n + 1)
  {
    hide KeyOf, GoStrings.TrimSpace;
    assert im.ids[..n + 1] == im.ids[..n] + [im.ids[n]];
  }

  lemma {:induction false} StickerRows(t: Tables, p: Progress, im: Import, f: Faults, setId: int, n: nat)
    requires WellFormed(im) && n < |im.stickers| && Different(im.ids) && RowsWritten(t, p.tables, im, setId, n)
    requires !p.failed && !ImportSticker(p, im, f, setId, n).failed
    ensures RowsWritten(t, ImportSticker(p, im, f, setId, n).tables, im, setId, n + 1)
  {
    OneMoreRow(t, p.tables, im, setId, n);
    hide RowsWritten, WithSticker, Repeats, KeyOf, Different, GoStrings.TrimSpace;
  }

  lemma {:induction false} ImportedRows(p: Progress, im: Import, f: Faults, setId: int, n: nat)
    requires WellFormed(im) && n <= |im.stickers| && Different(im.ids)
    requires !p.failed && !ImportFirst(p, im, f, setId, n).failed
    ensures RowsWritten(p.tables, ImportFirst(p, im, f, setId, n).tables, im, setId, n)
  {
    hide Different, ImportSticker;
    if n > 0 {
      hide RowsWritten;
      ImportedRows(p, im, f, setId, n - 1);
      StickerRows(p.tables, ImportFirst(p, im, f, setId, n - 1), im, f, setId, n - 1);
    }
  }

  /** The rows a set ends up with: exactly the imported stickers, in order, each at its own object. */
  ghost predicate SetHolds(t: Tables, s: Storage, im: Import, setId: int)
    requires WellFormed(im)
  {
    && (forall id :: OfSet(t, setId, id) <==> id in im.ids)
    && (forall i :: 0 <= i < |im.stickers| ==>
          && im.ids[i] in t.stickers
          && t.stickers[im.ids[i]].position == i
          && t.stickers[im.ids[i]].uniqueId == im.stickers[i].listed.uniqueId
          && t.stickers[im.ids[i]].storageKey in s
          && s[t.stickers[im.ids[i]].storageKey] == ObjectOf(im.stickers[i])
          && im.ids[i] in t.documents
          && t.documents[im.ids[i]].filePath == t.stickers[im.ids[i]].storageKey)
  }

  lemma {:induction false} CommitMeans(t: Tables, s: Storage, im: Import, f: Faults)
    requires WellFormed(im) && IdsAreNew(im, t, s)
    requires !Prepared(t, s, im, f).failed
    ensures RowsWritten(Opened(t, s, im).tables, Prepared(t, s, im, f).tables, im, SetIdOf(t, im), |im.stickers|)
    ensures UploadedTo(s, Prepared(t, s, im, f), im, |im.stickers|, map[])
  {
    var p, setId, n := Opened(t, s, im), SetIdOf(t, im), |im.stickers|;
    ImportedRows(p, im, f, setId, n);
    var m := UploadsOf(s, p, im, f, setId, n);
    hide ImportFirst, RowsWritten, UploadedTo, WithSet, WithoutStickers, SetIdOf;
  }

  lemma {:induction false} UploadsHold(im: Import, n: nat, i: nat)
    requires WellFormed(im) && Different(im.ids) && i < n <= |im.stickers|
    ensures KeyOf(im.ids[i]) in Uploads(im, n) && Uploads(im, n)[KeyOf(im.ids[i])] == ObjectOf(im.stickers[i])
  {
    hide KeyOf, ObjectOf;
    KeysDiffer(im.ids[i], im.ids[n - 1]);
    hide Different;
    if i < n - 1 {
      UploadsHold(im, n - 1, i);
    }
  }

  lemma {:induction false} NewIdsDiffer(im: Import, t: Tables, s: Storage)
    requires IdsAreNew(im, t, s)
    ensures Different(im.ids)
  {
  }

  lemma {:induction false} PreparedObjects(t: Tables, s: Storage, im: Import, f: Faults, i: nat)
    requires WellFormed(im) && IdsAreNew(im, t, s) && !Prepared(t, s, im, f).failed && i < |im.ids|
    ensures var p := Prepared(t, s, im, f);
            && KeyOf(im.ids[i]) in p.storage && p.storage[KeyOf(im.ids[i])] == ObjectOf(im.stickers[i])
            && KeyOf(im.ids[i]) in p.uploaded
            && im.ids[i] in p.tables.stickers
  {
    CommitMeans(t, s, im, f);
    NewIdsDiffer(im, t, s);
    UploadsHold(im, |im.stickers|, i);
    UploadsAre(im, |im.stickers|, KeyOf(im.ids[i]));
    assert im.ids[..|im.stickers|] == im.ids;
    hide Prepared, KeyOf, Keys, Uploads, IdsAreNew;
  }

  /** What a successful preparation leaves in the tables is new. */
  lemma {:induction false} PreparedTablesDiffer(t: Tables, s: Storage, im: Import, f: Faults)
    requires WellFormed(im) && IdsAreNew(im, t, s) && !Prepared(t, s, im, f).failed && im.stickers != []
    ensures Prepared(t, s, im, f).tables != t
  {
    PreparedObjects(t, s, im, f, 0);
    hide Prepared, KeyOf;
  }

  lemma {:induction false} FailedImportTables(t: Tables, s: Storage, im: Import, f: Faults)
    requires WellFormed(im) && IdsAreNew(im, t, s) && !Persisted(t, s, im, f).committed
    ensures Persisted(t, s, im, f).tables
         == if !Prepared(t, s, im, f).failed && f.commitApplied then Prepared(t, s, im, f).tables else t
    ensures im.stickers != [] ==>
              (Persisted(t, s, im, f).tables == t <==> Prepared(t, s, im, f).failed || !f.commitApplied)
  {
    if !Prepared(t, s, im, f).failed && im.stickers != [] {
      PreparedTablesDiffer(t, s, im, f);
    }
    hide Prepared, DeleteEach, IdsAreNew;
  }

  /**
   Failed imports: an import that is not committed leaves the tables as they were exactly unless everything before
   the commit succeeded and the commit that reported a failure took effect; then they are the import's. It leaves
   storage as it was exactly when every compensating delete works and no failed upload left its object.
   */
  lemma {:induction false} FailedImportRestoresIff(t: Tables, s: Storage, im: Import, f: Faults)
    requires WellFormed(im) && IdsAreNew(im, t, s) && !Persisted(t, s, im, f).committed
    ensures Persisted(t, s, im, f).tables
         == if !Prepared(t, s, im, f).failed && f.commitApplied then Prepared(t, s, im, f).tables else t
    ensures im.stickers != [] ==>
              (Persisted(t, s, im, f).tables == t <==> Prepared(t, s, im, f).failed || !f.commitApplied)
    ensures Persisted(t, s, im, f).storage == s
       <==> (forall k :: k in UploadedKeys(t, s, im, f) ==> f.deletes(k)) && !(f.putLeaves && UploadFails(t, s, im, f))
  {
    FailedImportTables(t, s, im, f);
    if OpenFails(f) {
      assert Persisted(t, s, im, f).storage == s;
    } else {
      var p, setId, n := Opened(t, s, im), SetIdOf(t, im), |im.stickers|;
      var q := ImportFirst(p, im, f, setId, n);
      var m := UploadsOf(s, p, im, f, setId, n);
      var left := LeftOf(t, s, p, im, f, setId, m, q);
      KeysAreNew(im, t, s, m);
      hide ImportFirst, UploadedTo, Keys, Opened, SetIdOf, IdsAreNew, DeleteEach, PutFailsAt, OpenFails;
      DeletingRestoresIff(s, q, im, m, left, f.deletes);
      UploadedAreKeys(s, q, im, m, left);
    }
  }

  lemma {:induction false} EmptiedOfSet(t: Tables, s: Storage, im: Import)
    ensures var emptied := Opened(t, s, im).tables;
            && emptied.sets == WithSet(t, im).sets
            && (forall id :: id in emptied.stickers <==> id in t.stickers && t.stickers[id].setId != SetIdOf(t, im))
            && (forall id :: id in emptied.stickers ==> emptied.stickers[id] == t.stickers[id])
  {
  }

  lemma {:induction false} RowsOfSet(t: Tables, q: Tables, im: Import, setId: int)
    requires WellFormed(im) && RowsWritten(t, q, im, setId, |im.stickers|)
    requires forall id :: id in t.stickers ==> t.stickers[id].setId != setId
    ensures forall id :: OfSet(q, setId, id) <==> id in im.ids
  {
    hide KeyOf;
    assert im.ids[..|im.stickers|] == im.ids;
    forall id ensures OfSet(q, setId, id) <==> id in im.ids {
      if id in im.ids {
        var i :| 0 <= i < |im.ids| && im.ids[i] == id;
      }
    }
  }

  lemma {:induction false} SetHoldsRows(t: Tables, s: Storage, im: Import, setId: int)
    requires WellFormed(im) && Numbered(im) && (forall id :: OfSet(t, setId, id) <==> id in im.ids)
    requires forall i :: 0 <= i < |im.stickers| ==>
               && im.ids[i] in t.stickers
               && t.stickers[im.ids[i]] == RowOf(im.stickers[i], setId, im.hashes[i], KeyOf(im.ids[i]))
               && KeyOf(im.ids[i]) in s && s[KeyOf(im.ids[i])] == ObjectOf(im.stickers[i])
               && im.ids[i] in t.documents && t.documents[im.ids[i]].filePath == KeyOf(im.ids[i])
    ensures SetHolds(t, s, im, setId)
  {
    hide KeyOf, OfSet;
  }

  lemma {:induction false} WrittenRowsHold(t: Tables, q: Tables, s: Storage, im: Import, setId: int)
    requires WellFormed(im) && Numbered(im) && RowsWritten(t, q, im, setId, |im.stickers|)
    requires forall id :: id in t.stickers ==> t.stickers[id].setId != setId
    requires forall i :: 0 <= i < |im.stickers| ==>
               KeyOf(im.ids[i]) in s && s[KeyOf(im.ids[i])] == ObjectOf(im.stickers[i])
    ensures SetHolds(q, s, im, setId)
  {
    RowsOfSet(t, q, im, setId);
    hide KeyOf, SetHolds, OfSet;
    assert im.ids[..|im.stickers|] == im.ids;
    SetHoldsRows(q, s, im, setId);
  }

  lemma {:induction false} PreparedSetHolds(t: Tables, s: Storage, im: Import, f: Faults)
    requires WellFormed(im) && IdsAreNew(im, t, s) && Numbered(im) && !Prepared(t, s, im, f).failed
    ensures SetHolds(Prepared(t, s, im, f).tables, Prepared(t, s, im, f).storage, im, SetIdOf(t, im))
  {
    hide Prepared, KeyOf, SetIdOf, Opened, IdsAreNew, SetHolds, RowsWritten, UploadedTo, WithSet, Numbered, ObjectOf;
    var q := Prepared(t, s, im, f);
    CommitMeans(t, s, im, f);
    EmptiedOfSet(t, s, im);
    forall i | 0 <= i < |im.stickers|
      ensures KeyOf(im.ids[i]) in q.storage && q.storage[KeyOf(im.ids[i])] == ObjectOf(im.stickers[i])
    {
      PreparedObjects(t, s, im, f, i);
    }
    WrittenRowsHold(Opened(t, s, im).tables, q.tables, q.storage, im, SetIdOf(t, im));
  }

  lemma {:induction false} NothingLeft(s: Storage, p: Progress, im: Import, n: nat)
    requires WellFormed(im) && n <= |im.stickers| && UploadedTo(s, p, im, n, map[])
    ensures p.storage == s + Uploads(im, n)
  {
    hide Uploads;
    assert s + Uploads(im, n) + map[] == s + Uploads(im, n);
  }

  lemma {:induction false} PreparedStorage(t: Tables, s: Storage, im: Import, f: Faults)
    requires WellFormed(im) && IdsAreNew(im, t, s) && !Prepared(t, s, im, f).failed
    ensures Prepared(t, s, im, f).storage == s + Uploads(im, |im.stickers|)
  {
    hide Prepared, Uploads, IdsAreNew, RowsWritten, UploadedTo;
    CommitMeans(t, s, im, f);
    NothingLeft(s, Prepared(t, s, im, f), im, |im.stickers|);
  }

  lemma {:induction false} OtherSetsStay(t: Tables, s: Storage, im: Import, f: Faults)
    requires WellFormed(im) && IdsAreNew(im, t, s) && !Prepared(t, s, im, f).failed
    ensures var q := Prepared(t, s, im, f).tables;
            && q.sets == WithSet(t, im).sets
            && (forall id :: id in t.stickers && t.stickers[id].setId != SetIdOf(t, im) ==>
                  id in q.stickers && q.stickers[id] == t.stickers[id])
  {
    CommitMeans(t, s, im, f);
    EmptiedOfSet(t, s, im);
    assert im.ids[..|im.stickers|] == im.ids;
    hide Prepared, KeyOf, SetIdOf, RowOf, Opened, WithSet, UploadedTo;
  }

  /**
   Committed imports: the set holds exactly the stickers of the import, at positions 0, 1, 2 and so on, each row
   and document pointing at its stored object; other sets keep their rows, and storage loses nothing.
   */
  lemma {:induction false} CommittedImportHolds(t: Tables, s: Storage, im: Import, f: Faults)
    requires WellFormed(im) && IdsAreNew(im, t, s) && Numbered(im) && Persisted(t, s, im, f).committed
    ensures var after := Persisted(t, s, im, f);
            && SetHolds(after.tables, after.storage, im, SetIdOf(t, im))
            && after.storage == s + Uploads(im, |im.stickers|)
            && after.tables.sets == WithSet(t, im).sets
            && (forall id :: id in t.stickers && t.stickers[id].setId != SetIdOf(t, im) ==>
                  id in after.tables.stickers && after.tables.stickers[id] == t.stickers[id])
  {
    var p := Prepared(t, s, im, f);
    assert Persisted(t, s, im, f) == Outcome(p.tables, p.storage, true) && !p.failed;
    hide Persisted, Prepared, SetHolds, SetIdOf, WithSet, IdsAreNew, Uploads;
    PreparedSetHolds(t, s, im, f);
    PreparedStorage(t, s, im, f);
    OtherSetsStay(t, s, im, f);
  }

  // ---------- Rows and objects over runs ----------

  /** The object a sticker row points at is stored, and is of the row's size and type. */
  ghost predicate RowLinked(row: StickerRow, id: int, s: Storage) {
    && row.storageKey == KeyOf(id)
    && KeyOf(id) in s
    && |s[KeyOf(id)].data| == row.size
    && s[KeyOf(id)].contentType == row.mimeType
  }

  ghost predicate Linked(t: Tables, s: Storage) {
    forall id :: id in t.stickers ==> RowLinked(t.stickers[id], id, s)
  }

  /** A commit that took effect although it reported an error, so that its uploads were deleted again. */
  ghost predicate LosesObjects(t: Tables, s: Storage, im: Import, f: Faults)
    requires WellFormed(im)
  {
    && !Prepared(t, s, im, f).failed && f.fails(Commit) && f.commitApplied
    && exists i :: 0 <= i < |im.ids| && f.deletes(KeyOf(im.ids[i]))
  }

  lemma {:induction false} PreparedKeepsObject(t: Tables, s: Storage, im: Import, f: Faults, k: string)
    requires WellFormed(im) && IdsAreNew(im, t, s) && k in s
    ensures var p := Prepared(t, s, im, f);
            k in p.storage && p.storage[k] == s[k] && k !in p.uploaded
  {
    if !OpenFails(f) {
      var p, setId, n := Opened(t, s, im), SetIdOf(t, im), |im.stickers|;
      var m := UploadsOf(s, p, im, f, setId, n);
      var q := ImportFirst(p, im, f, setId, n);
      var left := LeftOf(t, s, p, im, f, setId, m, q);
      KeysAreNew(im, t, s, m);
      UploadsAre(im, m, k);
      hide ImportFirst, Keys, Uploads, IdsAreNew, PutFailsAt, Opened, SetIdOf;
    }
  }

  /** Objects of old rows are never deleted. */
  lemma {:induction false} OldObjectsStay(t: Tables, s: Storage, im: Import, f: Faults, k: string)
    requires WellFormed(im) && IdsAreNew(im, t, s) && k in s
    ensures k in Persisted(t, s, im, f).storage && Persisted(t, s, im, f).storage[k] == s[k]
  {
    var p := Prepared(t, s, im, f);
    PreparedKeepsObject(t, s, im, f, k);
    DeleteEachRemoves(p.storage, p.uploaded, f.deletes, k);
    hide Prepared;
  }

  lemma {:induction false} PreparedRowsAre(t: Tables, s: Storage, im: Import, f: Faults, id: int)
    requires WellFormed(im) && IdsAreNew(im, t, s) && !Prepared(t, s, im, f).failed
    ensures var q := Prepared(t, s, im, f).tables;
            id in q.stickers ==>
              || (id in t.stickers && q.stickers[id] == t.stickers[id] && id !in im.ids)
              || (exists i :: 0 <= i < |im.ids| && im.ids[i] == id
                              && q.stickers[id] == RowOf(im.stickers[i], SetIdOf(t, im), im.hashes[i], KeyOf(id)))
  {
    CommitMeans(t, s, im, f);
    assert im.ids[..|im.stickers|] == im.ids;
    hide Prepared, KeyOf, WithSet, SetIdOf, UploadedTo, RowOf;
  }

  lemma {:induction false} LostObjectBreaksLink(t: Tables, s: Storage, im: Import, f: Faults)
    requires WellFormed(im) && IdsAreNew(im, t, s) && LosesObjects(t, s, im, f)
    ensures !Linked(Persisted(t, s, im, f).tables, Persisted(t, s, im, f).storage)
  {
    var i :| 0 <= i < |im.ids| && f.deletes(KeyOf(im.ids[i]));
    PreparedObjects(t, s, im, f, i);
    var p := Prepared(t, s, im, f);
    DeleteEachRemoves(p.storage, p.uploaded, f.deletes, KeyOf(im.ids[i]));
    hide Prepared, KeyOf, DeleteEach, IdsAreNew;
    assert !RowLinked(Persisted(t, s, im, f).tables.stickers[im.ids[i]], im.ids[i], Persisted(t, s, im, f).storage);
  }

  lemma {:induction false} RowStaysLinked(t: Tables, s: Storage, im: Import, f: Faults, id: int)
    requires WellFormed(im) && IdsAreNew(im, t, s) && Linked(t, s) && !LosesObjects(t, s, im, f)
    requires id in Persisted(t, s, im, f).tables.stickers
    ensures RowLinked(Persisted(t, s, im, f).tables.stickers[id], id, Persisted(t, s, im, f).storage)
  {
    var p := Prepared(t, s, im, f);
    if id in t.stickers && Persisted(t, s, im, f).tables.stickers[id] == t.stickers[id] {
      assert RowLinked(t.stickers[id], id, s);
      OldObjectsStay(t, s, im, f, KeyOf(id));
      hide Persisted, KeyOf, IdsAreNew;
    } else {
      PreparedRowsAre(t, s, im, f, id);
      var i :|
        && 0 <= i < |im.ids| && im.ids[i] == id
        && p.tables.stickers[id] == RowOf(im.stickers[i], SetIdOf(t, im), im.hashes[i], KeyOf(id));
      PreparedObjects(t, s, im, f, i);
      DeleteEachRemoves(p.storage, p.uploaded, f.deletes, KeyOf(id));
      hide Prepared, KeyOf, DeleteEach, IdsAreNew, SetIdOf;
    }
  }

  /** An import keeps every row linked to its object exactly when it does not lose objects of a commit in doubt. */
  lemma {:induction false} ImportKeepsLinkedIff(t: Tables, s: Storage, im: Import, f: Faults)
    requires WellFormed(im) && IdsAreNew(im, t, s) && Linked(t, s)
    ensures Linked(Persisted(t, s, im, f).tables, Persisted(t, s, im, f).storage) <==> !LosesObjects(t, s, im, f)
  {
    if LosesObjects(t, s, im, f) {
      LostObjectBreaksLink(t, s, im, f);
    } else {
      var after := Persisted(t, s, im, f);
      forall id | id in after.tables.stickers ensures RowLinked(after.tables.stickers[id], id, after.storage) {
        RowStaysLinked(t, s, im, f, id);
      }
    }
  }

  /** Imports one after another, each with its own faults. */
  function AfterImports(t: Tables, s: Storage, imports: seq<(Import, Faults)>): (Tables, Storage)
    requires forall i :: 0 <= i < |imports| ==> WellFormed(imports[i].0)
  {
    if imports == [] then (t, s)
    else
      var (before, stored) := AfterImports(t, s, Init(imports));
      var o := Persisted(before, stored, Last(imports).0, Last(imports).1);
      (o.tables, o.storage)
  }

  /** Every import gets ids nobody had, and no commit is left in doubt. */
  ghost predicate Orderly(t: Tables, s: Storage, imports: seq<(Import, Faults)>)
    requires forall i :: 0 <= i < |imports| ==> WellFormed(imports[i].0)
  {
    imports != [] ==>
      && Orderly(t, s, Init(imports))
      && IdsAreNew(Last(imports).0, AfterImports(t, s, Init(imports)).0, AfterImports(t, s, Init(imports)).1)
      && !LosesObjects(AfterImports(t, s, Init(imports)).0, AfterImports(t, s, Init(imports)).1,
                         Last(imports).0, Last(imports).1)
  }

  /** Over any run of imports, failed or not, every sticker row points at a stored object. */
  lemma {:induction false} RunsStayLinked(t: Tables, s: Storage, imports: seq<(Import, Faults)>)
    requires forall i :: 0 <= i < |imports| ==> WellFormed(imports[i].0)
    requires Linked(t, s) && Orderly(t, s, imports)
    ensures Linked(AfterImports(t, s, imports).0, AfterImports(t, s, imports).1)
  {
    if imports != [] {
      RunsStayLinked(t, s, Init(imports));
      var (before, stored) := AfterImports(t, s, Init(imports));
      ImportKeepsLinkedIff(before, stored, Last(imports).0, Last(imports).1);
    }
    hide Linked, Persisted, LosesObjects, IdsAreNew;
  }
}
