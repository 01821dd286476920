/** A run of two publications that overlap, after which a file and the pointer of its key disagree. */
module ManifestOverlap {
  import opened Prelude
  import opened GoStrings
  import opened Releases
  import opened Manifests
  import opened ManifestCache
  import opened ManifestPublications

  lemma {:induction false} RunOfOneMore(site: Site, acts: seq<Act>, act: Act)
    ensures Run(site, acts + [act]) == Apply(site, Run(site, acts), act)
  {
    assert Init(acts + [act]) == acts;
  }

  lemma {:induction false} RunOfTwoMore(site: Site, acts: seq<Act>, first: Act, second: Act)
    ensures Run(site, acts + [first] + [second]) == Apply(site, Apply(site, Run(site, acts), first), second)
  {
    hide Run, Apply;
    RunOfOneMore(site, acts, first);
    RunOfOneMore(site, acts + [first], second);
  }

  /** Two uploads of one key, published while the other is still open: the first to commit is the last to write. */
  function Overlap(a: Draft, b: Draft, base: string): seq<Act> {
    [Upload(a, 1, 10)] + [Upload(b, 2, 20)] + [MovePointer(1, 30, base)] + [MovePointer(2, 40, base)]
    + [ReadBack(0)] + [ReadBack(1)] + [WriteNext(1, true)] + [WriteNext(0, true)]
  }

  /** Two uploads that are accepted, for one key with a single file. */
  predicate TwoUploads(a: Draft, b: Draft) {
    && Created([], a, 1, 10).Ok?
    && var x := Created([], a, 1, 10).value;
       && Created([x], b, 2, 20).Ok?
       && KeyOf(Created([x], b, 2, 20).value) == KeyOf(x)
       && x.channel != STABLE
       && a.storageKey == a.storagePath && b.storageKey == b.storagePath
  }

  /** The key of the two uploads. */
  function UploadedKey(a: Draft): Key
    requires Created([], a, 1, 10).Ok?
  {
    KeyOf(Created([], a, 1, 10).value)
  }

  /** Two publications of a key, at these stages, with nothing written yet. */
  ghost predicate TwoPublications(s: State, k: Key, base: string, first: Stage, second: Stage) {
    && s.publications == [Publication(1, k, base, first), Publication(2, k, base, second)]
    && Find(s.tables.releases, 1).Some? && KeyOf(Find(s.tables.releases, 1).value) == k
    && Find(s.tables.releases, 2).Some? && KeyOf(Find(s.tables.releases, 2).value) == k
    && s.tables.latest == map[k := 2]
  }

  lemma {:induction false} BothUploaded(site: Site, a: Draft, b: Draft)
    requires TwoUploads(a, b)
    ensures var t := Run(site, [Upload(a, 1, 10)] + [Upload(b, 2, 20)]).tables;
            && Run(site, [Upload(a, 1, 10)] + [Upload(b, 2, 20)]) == NOTHING.(tables := t)
            && t.latest == map[]
            && Find(t.releases, 1).Some? && KeyOf(Find(t.releases, 1).value) == UploadedKey(a)
            && Find(t.releases, 2).Some? && KeyOf(Find(t.releases, 2).value) == UploadedKey(a)
  {
    var x := Created([], a, 1, 10).value;
    var y := Created([x], b, 2, 20).value;
    CreatedIsDraft([], a, 1, 10);
    CreatedIsDraft([x], b, 2, 20);
    RunOfOneMore(site, [], Upload(a, 1, 10));
    RunOfOneMore(site, [Upload(a, 1, 10)], Upload(b, 2, 20));
    hide Created;
    assert [] + [Upload(a, 1, 10)] == [Upload(a, 1, 10)];
    assert Run(site, [Upload(a, 1, 10)]).tables == Tables([x], map[]);
    assert [x] + [y] == [x, y];
    assert Run(site, [Upload(a, 1, 10)] + [Upload(b, 2, 20)]).tables == Tables([x, y], map[]);
    assert Init([x, y]) == [x] && Last([x]) == x;
  }

  lemma {:induction false} BothMoved(site: Site, s: State, k: Key, base: string)
    requires s.publications == [] && s.tables.latest == map[]
    requires Find(s.tables.releases, 1).Some? && KeyOf(Find(s.tables.releases, 1).value) == k
    requires Find(s.tables.releases, 2).Some? && KeyOf(Find(s.tables.releases, 2).value) == k
    ensures var after := Apply(site, Apply(site, s, MovePointer(1, 30, base)), MovePointer(2, 40, base));
            && TwoPublications(after, k, base, Moved, Moved) && after.files == s.files && after.writers == s.writers
  {
    hide Apply, Find, KeyOf;
    var moved := Apply(site, s, MovePointer(1, 30, base));
    OneMoved(site, s, 1, 30, base, k, 1);
    OneMoved(site, s, 1, 30, base, k, 2);
    OneMoved(site, moved, 2, 40, base, k, 1);
    OneMoved(site, moved, 2, 40, base, k, 2);
  }

  lemma {:induction false} UniqueOfOne<T(!new)>(x: T)
    ensures Unique([x]) == [x]
  {
    assert Init([x]) == [] && Last([x]) == x;
    assert Unique([]) + [x] == [x];
  }

  lemma {:induction false} OneTarget(k: Key)
    requires k.channel != STABLE
    ensures Targets(k) == [PathOf(k)]
  {
    UniqueOfOne(PathOf(k));
    assert [PathOf(k)] + [] == [PathOf(k)];
    hide PathOf, Unique;
  }

  lemma {:induction false} BothRead(site: Site, s: State, k: Key, base: string)
    requires TwoPublications(s, k, base, Moved, Moved) && k.channel != STABLE
    ensures var after := Apply(site, Apply(site, s, ReadBack(0)), ReadBack(1));
            var x, y := Find(s.tables.releases, 1).value, Find(s.tables.releases, 2).value;
            && TwoPublications(after, k, base, Writing(x, [PathOf(k)]), Writing(y, [PathOf(k)]))
            && after.tables == s.tables && after.files == s.files && after.writers == s.writers
  {
    OneTarget(k);
    hide Find, KeyOf, PathOf, Targets;
  }

  lemma {:induction false} BothWritten(site: Site, s: State, k: Key, base: string, x: Release, y: Release)
    requires TwoPublications(s, k, base, Writing(x, [PathOf(k)]), Writing(y, [PathOf(k)]))
    ensures var after := Apply(site, Apply(site, s, WriteNext(1, true)), WriteNext(0, true));
            && TwoPublications(after, k, base, Done, Done)
            && PathOf(k) in after.files && PathOf(k) in after.writers && after.writers[PathOf(k)].number == 0
  {
    hide Find, KeyOf, PathOf, ReleaseManifest;
  }

  lemma {:induction false} SecondIsLast(s: State, k: Key, base: string)
    requires TwoPublications(s, k, base, Done, Done)
    ensures PublishedOnce(s) && LastOf(s.publications, k) == Some(1)
  {
    assert s.publications[1].key == k;
    hide Find, KeyOf;
  }

  lemma {:induction false} OverlapIsStale(site: Site, acts: seq<Act>, k: Key, base: string)
    requires UsableBases(acts) && KeyedByPath(acts)
    requires var s := Run(site, acts);
             && TwoPublications(s, k, base, Done, Done)
             && PathOf(k) in s.files && PathOf(k) in s.writers && s.writers[PathOf(k)].number == 0
    ensures var s := Run(site, acts);
            && s.writers[PathOf(k)].row.id == 1 && LatestExact(s.tables, k).Some?
            && !exists any :: s.files[PathOf(k)] == Json(ReleaseManifest(site, any, LatestExact(s.tables, k).value))
  {
    RunHolds(site, acts);
    var s := Run(site, acts);
    SecondIsLast(s, k, base);
    assert s.publications[0].id == 1;
    assert OwnerOf(PathOf(k)) == k;
    hide Run, Held, TwoPublications, PublishedOnce, LastOf, ReleaseManifest, LatestExact, Find, UsableBases,
         KeyedByPath, PathOf, OwnerOf, SameRelease;
    FileAndPointer(site, s, PathOf(k));
    FileShowsPointedIffLast(site, acts, PathOf(k));
  }

  lemma {:induction false} FindsBoth(s: State, k: Key, base: string)
    requires TwoPublications(s, k, base, Moved, Moved)
    ensures Find(s.tables.releases, 1).Some? && Find(s.tables.releases, 2).Some?
  {
    hide Find, KeyOf;
  }

  lemma {:induction false} OverlapRuns(site: Site, a: Draft, b: Draft, base: string)
    requires TwoUploads(a, b)
    ensures var s, k := Run(site, Overlap(a, b, base)), UploadedKey(a);
            && TwoPublications(s, k, base, Done, Done)
            && PathOf(k) in s.files && PathOf(k) in s.writers && s.writers[PathOf(k)].number == 0
  {
    var k := UploadedKey(a);
    assert k.channel != STABLE;
    var uploads := [Upload(a, 1, 10)] + [Upload(b, 2, 20)];
    BothUploaded(site, a, b);
    hide Run, Apply, Created, Find, TwoUploads, UploadedKey, PathOf, KeyOf;
    RunOfTwoMore(site, uploads, MovePointer(1, 30, base), MovePointer(2, 40, base));
    BothMoved(site, Run(site, uploads), k, base);
    hide TwoPublications;
    var moves := uploads + [MovePointer(1, 30, base)] + [MovePointer(2, 40, base)];
    var moved := Run(site, moves);
    RunOfTwoMore(site, moves, ReadBack(0), ReadBack(1));
    FindsBoth(moved, k, base);
    BothRead(site, moved, k, base);
    var readings := moves + [ReadBack(0)] + [ReadBack(1)];
    RunOfTwoMore(site, readings, WriteNext(1, true), WriteNext(0, true));
    BothWritten(site, Run(site, readings), k, base, Find(moved.tables.releases, 1).value,
                Find(moved.tables.releases, 2).value);
    assert Overlap(a, b, base) == readings + [WriteNext(1, true)] + [WriteNext(0, true)];
  }

  lemma {:induction false} OverlapIsUsual(a: Draft, b: Draft, base: string)
    requires TwoUploads(a, b) && UsableBase(base)
    ensures UsableBases(Overlap(a, b, base)) && KeyedByPath(Overlap(a, b, base))
  {
    hide Created, UsableBase, KeyOf;
  }

  /**
   Two publications that overlap: every upload, commit, read and write succeeds, and in the end the latest pointer of
   the key leads to the second release while the file is the manifest of the first.
   */
  lemma {:induction false} OverlapLeavesOtherFile(site: Site, a: Draft, b: Draft, base: string)
    requires TwoUploads(a, b) && UsableBase(base)
    ensures var s := Run(site, Overlap(a, b, base));
            var k := UploadedKey(a);
            && (forall n :: 0 <= n < |s.publications| ==> s.publications[n].stage == Done)
            && k in s.tables.latest && s.tables.latest[k] == 2 && LatestExact(s.tables, k).Some?
            && PathOf(k) in s.files && PathOf(k) in s.writers && s.writers[PathOf(k)].row.id == 1
            && !exists any :: s.files[PathOf(k)] == Json(ReleaseManifest(site, any, LatestExact(s.tables, k).value))
  {
    OverlapRuns(site, a, b, base);
    OverlapIsUsual(a, b, base);
    hide Run, Created, Find, UploadedKey, PathOf, KeyOf, ReleaseManifest, UsableBase, LatestExact, Overlap, UsableBases,
         KeyedByPath;
    OverlapIsStale(site, Overlap(a, b, base), UploadedKey(a), base);
  }

  const BETA_KEY := Key(ANDROID, BETA, UNIVERSAL)

  lemma {:induction false} BetaKeyIsNormal()
    ensures NormalizeKey(ANDROID, BETA, UNIVERSAL) == Ok(BETA_KEY)
    ensures NormalizeUpdateLevel(OPTIONAL) == Some(OPTIONAL)
  {
    PlainNames();
    PlainLevels();
    hide ToLower, TrimSpace, Plain;
    PlainIsFixed(ANDROID);
    PlainIsFixed(BETA);
    PlainIsFixed(UNIVERSAL);
    PlainIsFixed(OPTIONAL);
    assert |BETA| != |STABLE|;
  }

  /** A small upload for the beta channel. */
  function BetaUpload(version: string, code: int, file: string): Draft {
    Draft(ANDROID, BETA, UNIVERSAL, version, code, 0, OPTIONAL, "", file, file, file, 1, "00", "", "", "", "")
  }

  lemma {:induction false} BetaUploadIsAccepted(
      releases: seq<Release>, version: string, code: int, file: string, id: int, now: int)
    requires Trimmed(version) && version != "" && code > 0 && Trimmed(file) && file != ""
    requires !PathIsTaken(releases, file)
    ensures var created := Created(releases, BetaUpload(version, code, file), id, now);
            created.Ok? && KeyOf(created.value) == BETA_KEY && created.value.storagePath == file
  {
    BetaKeyIsNormal();
    TrimSpaceFixes(version);
    TrimSpaceFixes(file);
    TrimSpaceFixes("00");
    hide NormalizeKey, NormalizeUpdateLevel, TrimSpace, PathIsTaken;
  }

  /** There are two such uploads. */
  lemma {:induction false} OverlapIsPossible()
    ensures TwoUploads(BetaUpload("1.0", 1, "a.apk"), BetaUpload("1.1", 2, "b.apk"))
  {
    hide Created;
    BetaUploadIsAccepted([], "1.0", 1, "a.apk", 1, 10);
    var x := Created([], BetaUpload("1.0", 1, "a.apk"), 1, 10).value;
    assert "a.apk"[0] != "b.apk"[0];
    BetaUploadIsAccepted([x], "1.1", 2, "b.apk", 2, 20);
    assert |BETA| != |STABLE|;
  }
}
