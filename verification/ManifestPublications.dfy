/**
 Publications beside each other. A publication commits its pointer move, reads its row back, and then writes the
 manifest files one by one; nothing keeps the steps of two publications apart. What the files hold after any
 interleaving, when it is what the pointers say, and a guard under which it always is.
 */
module ManifestPublications {
  import opened Prelude
  import opened GoStrings
  import opened Releases
  import opened Manifests
  import opened ManifestCache

  // ---------- The state ----------

  /** How far the handler of a publication is. */
  datatype Stage =
    | Moved
    | Writing(row: Release, left: seq<Path>)
    | Done
    | Stopped
  {
    predicate Open() {
      Moved? || Writing?
    }
  }

  /** A publication whose pointer move is committed, under the base its request came in with. */
  datatype Publication = Publication(id: int, key: Key, base: string, stage: Stage)

  /** Which publication wrote a file last, and the row it had read. */
  datatype Writer = Writer(number: nat, row: Release)

  /** `publications` are numbered in the order of their commits. */
  datatype State = State(
    tables: Tables, files: map<Path, File>, publications: seq<Publication>, writers: map<Path, Writer>)

  const NOTHING := State(Tables([], map[]), map[], [], map[])

  datatype Act =
    | Upload(draft: Draft, id: int, now: int)
    | MovePointer(id: int, now: int, base: string)
    | ReadBack(number: nat)
    | WriteNext(number: nat, works: bool)
    | Abandon(number: nat)

  // ---------- The steps ----------

  function WithStage(s: State, n: nat, stage: Stage): State
    requires n < |s.publications|
  {
    s.(publications := s.publications[n := s.publications[n].(stage := stage)])
  }

  /** The transaction: the release is published, the others of its key are drafts, the latest pointer leads to it. */
  function PointerMoved(s: State, id: int, now: int, base: string): State {
    match Find(s.tables.releases, id)
    case None => s
    case Some(row) =>
      s.(tables := Step(s.tables, Publish(id, now)),
         publications := s.publications + [Publication(id, KeyOf(row), base, Moved)])
  }

  /** After the commit the row is read once more, in a statement of its own. */
  function RowRead(s: State, n: nat): State
    requires n < |s.publications|
  {
    match Find(s.tables.releases, s.publications[n].id)
    case None => WithStage(s, n, Stopped)
    case Some(row) => WithStage(s, n, Writing(row, Targets(KeyOf(row))))
  }

  /** One file is replaced by a rename; a file that cannot be written ends the publication. */
  function FileWritten(site: Site, s: State, n: nat, works: bool): State
    requires n < |s.publications| && s.publications[n].stage.Writing? && s.publications[n].stage.left != []
  {
    var Writing(row, left) := s.publications[n].stage;
    if !works then WithStage(s, n, Stopped)
    else
      WithStage(s, n, if |left| == 1 then Done else Writing(row, left[1..])).(
        files := s.files[left[0] := Json(ReleaseManifest(site, s.publications[n].base, row))],
        writers := s.writers[left[0] := Writer(n, row)])
  }

  /** A step of a publication that is not at that point changes nothing. */
  function Apply(site: Site, s: State, act: Act): State {
    match act
    case Upload(d, id, now) => s.(tables := Step(s.tables, Create(d, id, now)))
    case MovePointer(id, now, base) => PointerMoved(s, id, now, base)
    case ReadBack(n) => if n < |s.publications| && s.publications[n].stage.Moved? then RowRead(s, n) else s
    case WriteNext(n, works) =>
      if n < |s.publications| && s.publications[n].stage.Writing? && s.publications[n].stage.left != []
      then FileWritten(site, s, n, works)
      else s
    case Abandon(n) =>
      if n < |s.publications| && s.publications[n].stage.Open() then WithStage(s, n, Stopped) else s
  }

  function Run(site: Site, acts: seq<Act>): State {
    if acts == [] then NOTHING else Apply(site, Run(site, Init(acts)), Last(acts))
  }

  // ---------- The last publication of a key ----------

  function LastOf(publications: seq<Publication>, k: Key): (r: Option<nat>)
    ensures r.Some? ==> r.value < |publications| && publications[r.value].key == k
    ensures r.Some? ==> forall j :: r.value < j < |publications| ==> publications[j].key != k
    ensures r == None ==> forall j :: 0 <= j < |publications| ==> publications[j].key != k
  {
    if publications == [] then None
    else if Last(publications).key == k then Some(|publications| - 1)
    else LastOf(Init(publications), k)
  }

  lemma {:induction false} LastStays(a: seq<Publication>, b: seq<Publication>, k: Key)
    requires |a| == |b| && forall j :: 0 <= j < |a| ==> a[j].key == b[j].key
    ensures LastOf(a, k) == LastOf(b, k)
  {
    var x, y := LastOf(a, k), LastOf(b, k);
    if x.Some? {
      assert a[x.value].key == b[x.value].key;
    }
    if y.Some? {
      assert a[y.value].key == b[y.value].key;
    }
  }

  lemma {:induction false} LastOfMore(publications: seq<Publication>, p: Publication, k: Key)
    ensures LastOf(publications + [p], k) == if p.key == k then Some(|publications|) else LastOf(publications, k)
  {
    assert Init(publications + [p]) == publications;
  }

  // ---------- The invariant ----------

  /** Releases change only in their status and their time of publication. */
  predicate SameRelease(a: Release, b: Release) {
    a == b.(status := a.status, publishedAt := a.publishedAt)
  }

  /** A row publication `n` read: its release's, and as long as it is the last of its key the pointed one as it is. */
  ghost predicate RowHeld(s: State, n: nat, row: Release) {
    && n < |s.publications|
    && KeyOf(row) == s.publications[n].key && row.id == s.publications[n].id && WellFormed(row)
    && Find(s.tables.releases, row.id).Some?
    && SameRelease(row, Find(s.tables.releases, row.id).value)
    && (LastOf(s.publications, KeyOf(row)) == Some(n) ==> LatestExact(s.tables, KeyOf(row)) == Some(row))
  }

  /** The pointer of a key names the release of its last publication. */
  ghost predicate PointersFollow(s: State) {
    && (forall k :: k in s.tables.latest <==> LastOf(s.publications, k).Some?)
    && (forall k :: k in s.tables.latest ==>
          s.tables.latest[k] == s.publications[LastOf(s.publications, k).value].id)
  }

  ghost predicate PublicationHeld(s: State, n: nat)
    requires n < |s.publications|
  {
    var p := s.publications[n];
    && UsableBase(p.base) && NormalKey(p.key)
    && Find(s.tables.releases, p.id).Some? && KeyOf(Find(s.tables.releases, p.id).value) == p.key
    && (p.stage.Writing? ==>
          && RowHeld(s, n, p.stage.row)
          && p.stage.left != [] && forall q :: q in p.stage.left ==> q in Targets(p.key))
  }

  ghost predicate PublicationsHeld(s: State) {
    forall n :: 0 <= n < |s.publications| ==> PublicationHeld(s, n)
  }

  /** A file is the manifest of the row its last writer had read. */
  ghost predicate FileHeld(site: Site, s: State, p: Path)
    requires p in s.files
  {
    && p in s.writers
    && var Writer(n, row) := s.writers[p];
       && RowHeld(s, n, row)
       && p in Targets(s.publications[n].key)
       && s.files[p] == Json(ReleaseManifest(site, s.publications[n].base, row))
  }

  ghost predicate FilesHeld(site: Site, s: State) {
    forall p :: p in s.files ==> FileHeld(site, s, p)
  }

  ghost predicate TablesHeld(s: State) {
    Sound(s.tables) && PointersMatch(s.tables)
  }

  ghost predicate Held(site: Site, s: State) {
    && TablesHeld(s)
    && PointersFollow(s)
    && PublicationsHeld(s)
    && FilesHeld(site, s)
  }

  // ---------- What the tables keep ----------

  lemma {:induction false} FindMarked(releases: seq<Release>, id: int, k: Key, now: int, x: int)
    ensures Find(MarkAll(releases, id, k, now), x)
         == match Find(releases, x) case None => None case Some(r) => Some(Marked(r, id, k, now))
  {
    hide KeyOf;
    if releases != [] {
      FindMarked(Init(releases), id, k, now, x);
      assert Init(MarkAll(releases, id, k, now)) == MarkAll(Init(releases), id, k, now);
      assert Last(MarkAll(releases, id, k, now)) == Marked(Last(releases), id, k, now);
    }
  }

  lemma {:induction false} FindAppended(releases: seq<Release>, r: Release, x: int)
    requires IdIsFree(releases, r.id)
    ensures Find(releases, x).Some? ==> Find(releases + [r], x) == Find(releases, x)
  {
    assert Init(releases + [r]) == releases;
  }

  /** An upload changes no row and no pointer. */
  lemma {:induction false} UploadKeepsRows(t: Tables, d: Draft, id: int, now: int, x: int)
    ensures Step(t, Create(d, id, now)).latest == t.latest
    ensures Find(t.releases, x).Some? ==> Find(Step(t, Create(d, id, now)).releases, x) == Find(t.releases, x)
  {
    CreatedIsDraft(t.releases, d, id, now);
    var created := Created(t.releases, d, id, now);
    hide Created, Find;
    if IdIsFree(t.releases, id) && created.Ok? {
      FindAppended(t.releases, created.value, x);
    }
  }

  /** A pointer move changes rows of its own key only, and of these the status and the time. */
  lemma {:induction false} MoveKeepsRows(t: Tables, id: int, now: int, x: int)
    requires Find(t.releases, id).Some? && Find(t.releases, x).Some?
    ensures var own, before := KeyOf(Find(t.releases, id).value), Find(t.releases, x).value;
            var after := Find(Step(t, Publish(id, now)).releases, x);
            && after.Some? && SameRelease(before, after.value) && KeyOf(after.value) == KeyOf(before)
            && (KeyOf(before) != own ==> after.value == before)
  {
    var own := KeyOf(Find(t.releases, id).value);
    FindMarked(t.releases, id, own, now, x);
    hide Find, MarkAll;
  }

  lemma {:induction false} MovedPointers(t: Tables, id: int, now: int)
    requires Find(t.releases, id).Some?
    ensures Step(t, Publish(id, now)).latest == t.latest[KeyOf(Find(t.releases, id).value) := id]
  {
    hide Find, MarkAll;
  }

  // ---------- Uploads ----------

  lemma {:induction false} RowHeldAfterUpload(site: Site, s: State, d: Draft, id: int, now: int, n: nat, row: Release)
    requires RowHeld(s, n, row)
    ensures RowHeld(Apply(site, s, Upload(d, id, now)), n, row)
  {
    UploadKeepsRows(s.tables, d, id, now, row.id);
    hide Step, Find, WellFormed, LastOf, SameRelease;
  }

  lemma {:induction false} UploadKeepsPublication(site: Site, s: State, d: Draft, id: int, now: int, n: nat)
    requires n < |s.publications| && PublicationHeld(s, n)
    ensures PublicationHeld(Apply(site, s, Upload(d, id, now)), n)
  {
    UploadKeepsRows(s.tables, d, id, now, s.publications[n].id);
    if s.publications[n].stage.Writing? {
      RowHeldAfterUpload(site, s, d, id, now, n, s.publications[n].stage.row);
    }
    hide Step, Find, RowHeld, Targets, UsableBase, NormalKey, KeyOf;
  }

  lemma {:induction false} UploadKeepsFile(site: Site, s: State, d: Draft, id: int, now: int, p: Path)
    requires p in s.files && FileHeld(site, s, p)
    ensures FileHeld(site, Apply(site, s, Upload(d, id, now)), p)
  {
    RowHeldAfterUpload(site, s, d, id, now, s.writers[p].number, s.writers[p].row);
    hide Step, RowHeld, Targets, ReleaseManifest;
  }

  lemma {:induction false} UploadKeepsAll(site: Site, s: State, d: Draft, id: int, now: int)
    requires PublicationsHeld(s) && FilesHeld(site, s)
    ensures PublicationsHeld(Apply(site, s, Upload(d, id, now))) && FilesHeld(site, Apply(site, s, Upload(d, id, now)))
  {
    var after := Apply(site, s, Upload(d, id, now));
    assert after.publications == s.publications && after.files == s.files;
    hide Apply, PublicationHeld, FileHeld;
    forall n | 0 <= n < |s.publications| ensures PublicationHeld(after, n) {
      UploadKeepsPublication(site, s, d, id, now, n);
    }
    forall p | p in s.files ensures FileHeld(site, after, p) {
      UploadKeepsFile(site, s, d, id, now, p);
    }
  }

  lemma {:induction false} SamePointersFollow(s: State, after: State)
    requires PointersFollow(s)
    requires after.tables.latest == s.tables.latest && after.publications == s.publications
    ensures PointersFollow(after)
  {
    hide LastOf;
  }

  lemma {:induction false} UploadKeepsHeld(site: Site, s: State, d: Draft, id: int, now: int)
    requires Held(site, s)
    ensures Held(site, Apply(site, s, Upload(d, id, now)))
  {
    hide PublicationsHeld, FilesHeld, Sound, PointersMatch, LastOf, Step, Find;
    CreateKeepsSound(s.tables, d, id, now);
    UploadKeepsRows(s.tables, d, id, now, 0);
    UploadKeepsAll(site, s, d, id, now);
    var after := Apply(site, s, Upload(d, id, now));
    assert after.tables == Step(s.tables, Create(d, id, now)) && after.publications == s.publications;
    hide Apply;
    SamePointersFollow(s, after);
  }

  // ---------- Pointer moves ----------

  lemma {:induction false} RowHeldAfterMove(s: State, id: int, now: int, base: string, n: nat, row: Release)
    requires RowHeld(s, n, row)
    ensures RowHeld(PointerMoved(s, id, now, base), n, row)
  {
    var found := Find(s.tables.releases, id);
    if found.Some? {
      var after := PointerMoved(s, id, now, base);
      MoveKeepsRows(s.tables, id, now, row.id);
      MovedPointers(s.tables, id, now);
      LastOfMore(s.publications, Publication(id, KeyOf(found.value), base, Moved), KeyOf(row));
      hide Step, Find, WellFormed, LastOf;
      if LastOf(after.publications, KeyOf(row)) == Some(n) {
        assert KeyOf(row) != KeyOf(found.value);
      }
    }
  }

  lemma {:induction false} MoveKeepsPublication(s: State, id: int, now: int, base: string, n: nat)
    requires n < |s.publications| && PublicationHeld(s, n)
    ensures PublicationHeld(PointerMoved(s, id, now, base), n)
  {
    if Find(s.tables.releases, id).Some? {
      MoveKeepsRows(s.tables, id, now, s.publications[n].id);
    }
    if s.publications[n].stage.Writing? {
      RowHeldAfterMove(s, id, now, base, n, s.publications[n].stage.row);
    }
    hide Step, Find, RowHeld, Targets, UsableBase, NormalKey, KeyOf;
  }

  lemma {:induction false} MoveKeepsFile(site: Site, s: State, id: int, now: int, base: string, p: Path)
    requires p in s.files && FileHeld(site, s, p)
    ensures FileHeld(site, PointerMoved(s, id, now, base), p)
  {
    RowHeldAfterMove(s, id, now, base, s.writers[p].number, s.writers[p].row);
    hide Step, Find, RowHeld, Targets, ReleaseManifest, KeyOf;
  }

  lemma {:induction false} MoveKeepsPointers(s: State, id: int, now: int, base: string)
    requires PointersFollow(s)
    ensures PointersFollow(PointerMoved(s, id, now, base))
  {
    var found := Find(s.tables.releases, id);
    if found.Some? {
      var after := PointerMoved(s, id, now, base);
      var p := Publication(id, KeyOf(found.value), base, Moved);
      MovedPointers(s.tables, id, now);
      hide Step, Find, KeyOf;
      forall k ensures LastOf(after.publications, k)
                    == if p.key == k then Some(|s.publications|) else LastOf(s.publications, k)
      {
        LastOfMore(s.publications, p, k);
      }
      hide LastOf;
    }
  }

  lemma {:induction false} OwnKeyIsNormal(t: Tables, id: int)
    requires Sound(t) && Find(t.releases, id).Some?
    ensures NormalKey(KeyOf(Find(t.releases, id).value))
  {
    hide NormalKey;
  }

  lemma {:induction false} NewPublicationIsHeld(s: State, id: int, now: int, base: string)
    requires TablesHeld(s) && UsableBase(base) && Find(s.tables.releases, id).Some?
    ensures PublicationHeld(PointerMoved(s, id, now, base), |s.publications|)
  {
    OwnKeyIsNormal(s.tables, id);
    MoveKeepsRows(s.tables, id, now, id);
    hide Step, Find, NormalKey, UsableBase, KeyOf, TablesHeld;
  }

  lemma {:induction false} MovedState(s: State, id: int, now: int, base: string)
    requires Find(s.tables.releases, id).Some?
    ensures var after := PointerMoved(s, id, now, base);
            && |after.publications| == |s.publications| + 1
            && after.files == s.files && after.writers == s.writers
            && after.tables == Step(s.tables, Publish(id, now))
  {
    hide Find, Step;
  }

  lemma {:induction false} MoveKeepsPublications(s: State, id: int, now: int, base: string)
    requires TablesHeld(s) && PublicationsHeld(s) && UsableBase(base) && Find(s.tables.releases, id).Some?
    ensures PublicationsHeld(PointerMoved(s, id, now, base))
  {
    var after := PointerMoved(s, id, now, base);
    MovedState(s, id, now, base);
    NewPublicationIsHeld(s, id, now, base);
    hide PointerMoved, Find, TablesHeld, PublicationHeld, UsableBase;
    forall n | 0 <= n < |after.publications| ensures PublicationHeld(after, n) {
      if n < |s.publications| {
        MoveKeepsPublication(s, id, now, base, n);
      }
    }
  }

  lemma {:induction false} MoveKeepsFiles(site: Site, s: State, id: int, now: int, base: string)
    requires FilesHeld(site, s) && Find(s.tables.releases, id).Some?
    ensures FilesHeld(site, PointerMoved(s, id, now, base))
  {
    MovedState(s, id, now, base);
    hide PointerMoved, Find, FileHeld;
    forall p | p in s.files ensures FileHeld(site, PointerMoved(s, id, now, base), p) {
      MoveKeepsFile(site, s, id, now, base, p);
    }
  }

  lemma {:induction false} MoveKeepsHeld(site: Site, s: State, id: int, now: int, base: string)
    requires Held(site, s) && UsableBase(base)
    ensures Held(site, PointerMoved(s, id, now, base))
  {
    hide Find, Sound, PointersMatch, PointersFollow, PublicationsHeld, FilesHeld, UsableBase;
    if Find(s.tables.releases, id).Some? {
      PublishKeepsSound(s.tables, id, now);
      MovedState(s, id, now, base);
      MoveKeepsPointers(s, id, now, base);
      MoveKeepsPublications(s, id, now, base);
      MoveKeepsFiles(site, s, id, now, base);
      hide PointerMoved, Step;
    }
  }

  // ---------- Steps of a handler ----------

  /** The same publications, one of them at another stage. */
  ghost predicate OnlyStageDiffers(s: State, after: State, n: nat) {
    && n < |s.publications| == |after.publications|
    && after.tables == s.tables
    && after.publications == s.publications[n := s.publications[n].(stage := after.publications[n].stage)]
  }

  lemma {:induction false} StageKeepsRow(s: State, after: State, n: nat, m: nat, row: Release)
    requires OnlyStageDiffers(s, after, n) && RowHeld(s, m, row)
    ensures RowHeld(after, m, row)
  {
    LastStays(s.publications, after.publications, KeyOf(row));
    hide LastOf, Find, WellFormed, SameRelease, KeyOf, LatestExact;
  }

  lemma {:induction false} StageKeepsPointers(s: State, after: State, n: nat)
    requires OnlyStageDiffers(s, after, n) && PointersFollow(s)
    ensures PointersFollow(after)
  {
    forall k ensures LastOf(after.publications, k) == LastOf(s.publications, k) {
      LastStays(s.publications, after.publications, k);
    }
    hide LastOf;
  }

  lemma {:induction false} StageKeepsPublications(s: State, after: State, n: nat)
    requires OnlyStageDiffers(s, after, n) && PublicationsHeld(s) && PublicationHeld(after, n)
    ensures PublicationsHeld(after)
  {
    forall m | 0 <= m < |s.publications| ensures PublicationHeld(after, m) {
      assert PublicationHeld(s, m);
      if m != n && s.publications[m].stage.Writing? {
        StageKeepsRow(s, after, n, m, s.publications[m].stage.row);
      }
      hide RowHeld, Find, KeyOf, UsableBase, NormalKey, Targets;
    }
  }

  lemma {:induction false} StageKeepsFile(site: Site, s: State, after: State, n: nat, p: Path)
    requires OnlyStageDiffers(s, after, n) && p in s.files && FileHeld(site, s, p)
    requires p in after.files && after.files[p] == s.files[p]
    requires p in s.writers ==> p in after.writers && after.writers[p] == s.writers[p]
    ensures FileHeld(site, after, p)
  {
    StageKeepsRow(s, after, n, s.writers[p].number, s.writers[p].row);
    hide RowHeld, Targets, ReleaseManifest;
  }

  /** A handler's step that writes nothing. */
  lemma {:induction false} StageKeepsHeld(site: Site, s: State, after: State, n: nat)
    requires Held(site, s) && OnlyStageDiffers(s, after, n) && PublicationHeld(after, n)
    requires after.files == s.files && after.writers == s.writers
    ensures Held(site, after)
  {
    StageKeepsPointers(s, after, n);
    StageKeepsPublications(s, after, n);
    hide Sound, PointersMatch, PointersFollow, PublicationsHeld, PublicationHeld, FileHeld, OnlyStageDiffers;
    forall p | p in s.files ensures FileHeld(site, after, p) {
      assert FileHeld(site, s, p);
      StageKeepsFile(site, s, after, n, p);
    }
  }

  lemma {:induction false} TargetsExist(k: Key)
    ensures Targets(k) != [] && Targets(k)[0] == PathOf(k)
  {
    UniqueStartsAlike([PathOf(k)] + if k.channel == STABLE && k.arch == UNIVERSAL then HomePaths(k.platform) else []);
    hide Unique;
  }

  lemma {:induction false} RowIsHeld(s: State, n: nat, row: Release)
    requires n < |s.publications| && KeyOf(row) == s.publications[n].key && row.id == s.publications[n].id
    requires WellFormed(row) && Find(s.tables.releases, row.id) == Some(row)
    requires LastOf(s.publications, KeyOf(row)) == Some(n) ==> LatestExact(s.tables, KeyOf(row)) == Some(row)
    ensures RowHeld(s, n, row)
  {
    hide LastOf, Find, WellFormed, LatestExact, KeyOf;
  }

  lemma {:induction false} ReadRowIsHeld(s: State, n: nat)
    requires TablesHeld(s) && PointersFollow(s) && n < |s.publications| && PublicationHeld(s, n)
    ensures var p := s.publications[n];
            RowHeld(s, n, Find(s.tables.releases, p.id).value)
  {
    var p := s.publications[n];
    var row := Find(s.tables.releases, p.id).value;
    assert row in s.tables.releases && WellFormed(row);
    hide Sound, PointersMatch, WellFormed, RowHeld, NormalKey, UsableBase, Targets;
    assert LastOf(s.publications, p.key) == Some(n) ==> LatestExact(s.tables, p.key) == Some(row) by {
      hide Find, LastOf;
    }
    assert SameRelease(row, row);
    RowIsHeld(s, n, row);
  }

  lemma {:induction false} WritingIsHeld(s: State, n: nat, row: Release)
    requires n < |s.publications| && PublicationHeld(s, n) && RowHeld(s, n, row)
    ensures var after := WithStage(s, n, Writing(row, Targets(KeyOf(row))));
            OnlyStageDiffers(s, after, n) && PublicationHeld(after, n)
  {
    var after := WithStage(s, n, Writing(row, Targets(KeyOf(row))));
    TargetsExist(KeyOf(row));
    assert KeyOf(row) == s.publications[n].key;
    hide Find, RowHeld, Targets, UsableBase, NormalKey, KeyOf;
    assert OnlyStageDiffers(s, after, n);
    StageKeepsRow(s, after, n, n, row);
  }

  lemma {:induction false} ReadBackKeepsPublication(s: State, n: nat)
    requires TablesHeld(s) && PointersFollow(s) && n < |s.publications| && PublicationHeld(s, n)
    ensures OnlyStageDiffers(s, RowRead(s, n), n) && PublicationHeld(RowRead(s, n), n)
    ensures RowRead(s, n).files == s.files && RowRead(s, n).writers == s.writers
  {
    ReadRowIsHeld(s, n);
    assert Find(s.tables.releases, s.publications[n].id).Some?;
    hide Find, TablesHeld, PointersFollow, RowHeld, Targets, KeyOf, OnlyStageDiffers;
    WritingIsHeld(s, n, Find(s.tables.releases, s.publications[n].id).value);
    hide PublicationHeld;
  }

  lemma {:induction false} ReadBackKeepsHeld(site: Site, s: State, n: nat)
    requires Held(site, s) && n < |s.publications|
    ensures Held(site, RowRead(s, n))
  {
    assert PublicationHeld(s, n);
    hide RowRead, TablesHeld, PointersFollow, PublicationsHeld, FilesHeld, PublicationHeld, OnlyStageDiffers;
    ReadBackKeepsPublication(s, n);
    hide Held;
    StageKeepsHeld(site, s, RowRead(s, n), n);
  }

  lemma {:induction false} EndingKeepsHeld(site: Site, s: State, n: nat, stage: Stage)
    requires Held(site, s) && n < |s.publications| && !stage.Writing?
    ensures Held(site, WithStage(s, n, stage))
  {
    assert PublicationHeld(s, n);
    var after := WithStage(s, n, stage);
    hide Find, TablesHeld, PointersFollow, PublicationsHeld, FilesHeld, RowHeld, Targets, UsableBase, NormalKey, KeyOf;
    StageKeepsHeld(site, s, after, n);
  }

  /** After a write the publication still holds, and the file is the manifest of the row it had read. */
  lemma {:induction false} WriteKeepsOwn(site: Site, s: State, n: nat)
    requires n < |s.publications| && s.publications[n].stage.Writing? && PublicationHeld(s, n)
    ensures var after := FileWritten(site, s, n, true);
            var p := s.publications[n].stage.left[0];
            && OnlyStageDiffers(s, after, n)
            && PublicationHeld(after, n) && p in after.files && FileHeld(site, after, p)
            && (forall q :: q != p ==>
                  && (q in after.files <==> q in s.files)
                  && (q in s.files ==> after.files[q] == s.files[q])
                  && (q in s.writers ==> q in after.writers && after.writers[q] == s.writers[q]))
  {
    var after := FileWritten(site, s, n, true);
    var row := s.publications[n].stage.row;
    hide Find, RowHeld, Targets, UsableBase, NormalKey, KeyOf, ReleaseManifest;
    assert OnlyStageDiffers(s, after, n);
    StageKeepsRow(s, after, n, n, row);
  }

  lemma {:induction false} SameTablesHold(s: State, after: State)
    requires TablesHeld(s) && after.tables == s.tables
    ensures TablesHeld(after)
  {
  }

  lemma {:induction false} WriteKeepsFiles(site: Site, s: State, n: nat)
    requires n < |s.publications| && s.publications[n].stage.Writing? && PublicationHeld(s, n) && FilesHeld(site, s)
    ensures FilesHeld(site, FileWritten(site, s, n, true))
  {
    WriteKeepsOwn(site, s, n);
    var after := FileWritten(site, s, n, true);
    var written := s.publications[n].stage.left[0];
    hide FileWritten, PublicationHeld, FileHeld, OnlyStageDiffers;
    forall p | p in after.files ensures FileHeld(site, after, p) {
      if p != written {
        assert FileHeld(site, s, p);
        StageKeepsFile(site, s, after, n, p);
      }
    }
  }

  lemma {:induction false} WriteKeepsHeld(site: Site, s: State, n: nat)
    requires Held(site, s) && n < |s.publications| && s.publications[n].stage.Writing?
    ensures s.publications[n].stage.left != [] && Held(site, FileWritten(site, s, n, true))
  {
    assert PublicationHeld(s, n);
    hide TablesHeld, PointersFollow, FilesHeld, FileHeld, RowHeld, UsableBase, NormalKey, Targets, Find, KeyOf;
    WriteKeepsOwn(site, s, n);
    WriteKeepsFiles(site, s, n);
    var after := FileWritten(site, s, n, true);
    assert after.tables == s.tables;
    hide FileWritten, PublicationsHeld, PublicationHeld, OnlyStageDiffers;
    StageKeepsPointers(s, after, n);
    StageKeepsPublications(s, after, n);
    SameTablesHold(s, after);
  }

  lemma {:induction false} WriteNextKeepsHeld(site: Site, s: State, n: nat, works: bool)
    requires Held(site, s)
    ensures Held(site, Apply(site, s, WriteNext(n, works)))
  {
    if n < |s.publications| && s.publications[n].stage.Writing? && s.publications[n].stage.left != [] {
      if works {
        WriteKeepsHeld(site, s, n);
      } else {
        EndingKeepsHeld(site, s, n, Stopped);
      }
    }
    hide Held;
  }

  lemma {:induction false} NothingIsHeld(site: Site)
    ensures Held(site, NOTHING)
  {
  }

  ghost predicate UsableBases(acts: seq<Act>) {
    forall i :: 0 <= i < |acts| && acts[i].MovePointer? ==> UsableBase(acts[i].base)
  }

  lemma {:induction false} StepKeepsHeld(site: Site, s: State, act: Act)
    requires Held(site, s) && (act.MovePointer? ==> UsableBase(act.base))
    ensures Held(site, Apply(site, s, act))
  {
    hide Held, UsableBase, RowRead, FileWritten, WithStage, PointerMoved;
    match act {
      case Upload(d, id, now) => UploadKeepsHeld(site, s, d, id, now);
      case MovePointer(id, now, base) => MoveKeepsHeld(site, s, id, now, base);
      case ReadBack(n) =>
        if n < |s.publications| && s.publications[n].stage.Moved? {
          ReadBackKeepsHeld(site, s, n);
        }
      case WriteNext(n, works) => WriteNextKeepsHeld(site, s, n, works);
      case Abandon(n) =>
        if n < |s.publications| && s.publications[n].stage.Open() {
          EndingKeepsHeld(site, s, n, Stopped);
        }
    }
  }

  /** Every interleaving of uploads and publications keeps the files accounted for. */
  lemma {:induction false} RunHolds(site: Site, acts: seq<Act>)
    requires UsableBases(acts)
    ensures Held(site, Run(site, acts))
  {
    hide Apply, Held, UsableBase;
    if acts == [] {
      NothingIsHeld(site);
    } else {
      RunHolds(site, Init(acts));
      StepKeepsHeld(site, Run(site, Init(acts)), Last(acts));
    }
  }

  // ---------- When a file is the pointed release's ----------

  /** The release the pointer of a file's key names. */
  function PointedBy(s: State, p: Path): Option<Release>
    requires |p| == 1 || |p| == 3
  {
    LatestExact(s.tables, OwnerOf(p))
  }

  /**
   The file was last written by the last publication of its key, or by another publication of the same release that
   read the row with the time of publication it has now.
   */
  predicate WrittenForPointer(s: State, p: Path)
    requires |p| == 1 || |p| == 3
  {
    && p in s.writers && s.writers[p].number < |s.publications|
    && PointedBy(s, p).Some?
    && var n, last := s.writers[p].number, LastOf(s.publications, OwnerOf(p));
       || last == Some(n)
       || (&& last.Some?
           && s.publications[n].id == s.publications[last.value].id
           && s.writers[p].row.publishedAt == PointedBy(s, p).value.publishedAt)
  }

  lemma {:induction false} FileOwner(site: Site, s: State, p: Path)
    requires PublicationsHeld(s) && PointersFollow(s) && p in s.files && FileHeld(site, s, p)
    ensures |p| == 1 || |p| == 3
    ensures OwnerOf(p) == KeyOf(s.writers[p].row) && OwnerOf(p) == s.publications[s.writers[p].number].key
    ensures OwnerOf(p) in s.tables.latest
  {
    var n := s.writers[p].number;
    assert PublicationHeld(s, n);
    TargetsAreOwned(s.publications[n].key, p);
    hide OwnerOf, Targets, NormalKey, Find, LastOf;
    assert LastOf(s.publications, s.publications[n].key).Some?;
  }

  /** The pointer of a file's key leads to a row, and the row its writer read is one of that key too. */
  lemma {:induction false} FileAndPointer(site: Site, s: State, p: Path)
    requires Held(site, s) && p in s.files
    ensures |p| == 1 || |p| == 3
    ensures PointedBy(s, p).Some? && LastOf(s.publications, OwnerOf(p)).Some?
    ensures p in s.writers && s.writers[p].number < |s.publications|
    ensures var Writer(n, row) := s.writers[p];
            var pointed, last := PointedBy(s, p).value, LastOf(s.publications, OwnerOf(p)).value;
            && row.id == s.publications[n].id && pointed.id == s.publications[last].id
            && (last == n ==> row == pointed)
            && (row.id == pointed.id ==> SameRelease(row, pointed))
            && pointed in s.tables.releases
            && Find(s.tables.releases, row.id).Some? && SameRelease(row, Find(s.tables.releases, row.id).value)
            && s.files[p] == Json(ReleaseManifest(site, s.publications[n].base, row))
  {
    assert FileHeld(site, s, p);
    FileOwner(site, s, p);
    PointerLeads(s.tables, OwnerOf(p));
    hide Sound, PointersMatch, PublicationsHeld, FilesHeld, OwnerOf, Targets, WellFormed, LastOf, ReleaseManifest;
  }

  /** Manifests do not show a row's status, and do show its time of publication and its storage key. */
  lemma {:induction false} ShownAlike(site: Site, base: string, a: Release, b: Release)
    requires SameRelease(a, b) && a.publishedAt == b.publishedAt
    ensures ReleaseManifest(site, base, a) == ReleaseManifest(site, base, b)
  {
    hide ResolvePublicUrl, DropLeading;
  }

  lemma {:induction false} ShowsKeyAndTime(site: Site, base: string, r: Release)
    ensures ReleaseManifest(site, base, r).storageKey == r.storageKey
    ensures ReleaseManifest(site, base, r).publishedAt == r.publishedAt
  {
    hide PublicUrl;
  }

  lemma {:induction false} WrittenFileShowsPointed(site: Site, s: State, p: Path)
    requires Held(site, s) && p in s.files && (|p| == 1 || |p| == 3) && WrittenForPointer(s, p)
    ensures s.files[p]
         == Json(ReleaseManifest(site, s.publications[s.writers[p].number].base, PointedBy(s, p).value))
  {
    FileAndPointer(site, s, p);
    hide Held, LastOf, PointedBy, ReleaseManifest, Find;
    var Writer(n, row) := s.writers[p];
    ShownAlike(site, s.publications[n].base, row, PointedBy(s, p).value);
  }

  // ---------- Releases apart ----------

  /** Uploads name their file as their storage key, as the upload handler does. */
  predicate KeyedByPath(acts: seq<Act>) {
    forall i :: 0 <= i < |acts| && acts[i].Upload? ==> acts[i].draft.storageKey == acts[i].draft.storagePath
  }

  /** Then no two releases share a storage key. */
  ghost predicate KeysApart(releases: seq<Release>) {
    && (forall i :: 0 <= i < |releases| ==> releases[i].storageKey == releases[i].storagePath)
    && (forall i, j :: 0 <= i < j < |releases| ==> releases[i].storagePath != releases[j].storagePath)
  }

  lemma {:induction false} CreatedIsKeyed(releases: seq<Release>, d: Draft, id: int, now: int)
    requires d.storageKey == d.storagePath && Created(releases, d, id, now).Ok?
    ensures var r := Created(releases, d, id, now).value;
            r.storageKey == r.storagePath && !PathIsTaken(releases, r.storagePath)
  {
    hide NormalizeKey, NormalizeUpdateLevel, PathIsTaken, TrimSpace;
  }

  lemma {:induction false} CreateKeepsKeysApart(t: Tables, d: Draft, id: int, now: int)
    requires KeysApart(t.releases) && d.storageKey == d.storagePath
    ensures KeysApart(Step(t, Create(d, id, now)).releases)
  {
    if Created(t.releases, d, id, now).Ok? {
      CreatedIsKeyed(t.releases, d, id, now);
    }
    hide Created, IdIsFree;
  }

  lemma {:induction false} PublishKeepsKeysApart(t: Tables, id: int, now: int)
    requires KeysApart(t.releases)
    ensures KeysApart(Step(t, Publish(id, now)).releases)
  {
    hide Find, KeyOf;
  }

  lemma {:induction false} StepKeepsKeysApart(site: Site, s: State, act: Act)
    requires KeysApart(s.tables.releases) && (act.Upload? ==> act.draft.storageKey == act.draft.storagePath)
    ensures KeysApart(Apply(site, s, act).tables.releases)
  {
    match act {
      case Upload(d, id, now) => CreateKeepsKeysApart(s.tables, d, id, now);
      case MovePointer(id, now, base) => PublishKeepsKeysApart(s.tables, id, now);
      case _ =>
    }
    hide KeysApart, Step, Find;
  }

  lemma {:induction false} NothingIsApart()
    ensures KeysApart([])
  {
  }

  lemma {:induction false} RunKeepsKeysApart(site: Site, acts: seq<Act>)
    requires KeyedByPath(acts)
    ensures KeysApart(Run(site, acts).tables.releases)
  {
    hide Apply, KeysApart;
    if acts == [] {
      NothingIsApart();
    } else {
      RunKeepsKeysApart(site, Init(acts));
      StepKeepsKeysApart(site, Run(site, Init(acts)), Last(acts));
    }
  }

  lemma {:induction false} SameKeySameRelease(releases: seq<Release>, a: Release, b: Release)
    requires KeysApart(releases) && a in releases && b in releases && a.storageKey == b.storageKey
    ensures a == b
  {
    var i :| 0 <= i < |releases| && releases[i] == a;
    var j :| 0 <= j < |releases| && releases[j] == b;
    assert i == j;
  }

  lemma {:induction false} OtherFileShowsOther(site: Site, s: State, p: Path, base: string)
    requires Held(site, s) && KeysApart(s.tables.releases) && p in s.files && (|p| == 1 || |p| == 3)
    requires PointedBy(s, p).Some? && s.files[p] == Json(ReleaseManifest(site, base, PointedBy(s, p).value))
    ensures WrittenForPointer(s, p)
  {
    FileAndPointer(site, s, p);
    var Writer(n, row) := s.writers[p];
    var pointed := PointedBy(s, p).value;
    ShowsKeyAndTime(site, base, pointed);
    ShowsKeyAndTime(site, s.publications[n].base, row);
    var stored := Find(s.tables.releases, row.id).value;
    SameKeySameRelease(s.tables.releases, stored, pointed);
    hide Held, LastOf, PointedBy, ReleaseManifest, Find, KeysApart;
  }

  /**
   After any interleaving, whoever writes when: a file is the manifest of the release the pointer of its key names,
   under any base at all, exactly when it was last written for that pointer.
   */
  lemma {:induction false} FileShowsPointedIff(site: Site, acts: seq<Act>, p: Path)
    requires UsableBases(acts) && KeyedByPath(acts) && p in Run(site, acts).files
    ensures |p| == 1 || |p| == 3
    ensures var s := Run(site, acts);
            && PointedBy(s, p).Some?
            && (WrittenForPointer(s, p)
                <==> exists base :: s.files[p] == Json(ReleaseManifest(site, base, PointedBy(s, p).value)))
  {
    RunHolds(site, acts);
    RunKeepsKeysApart(site, acts);
    var s := Run(site, acts);
    FileAndPointer(site, s, p);
    hide Run, Held, KeysApart, PointedBy, WrittenForPointer, ReleaseManifest, UsableBases, KeyedByPath;
    if WrittenForPointer(s, p) {
      WrittenFileShowsPointed(site, s, p);
    }
    if base :| s.files[p] == Json(ReleaseManifest(site, base, PointedBy(s, p).value)) {
      OtherFileShowsOther(site, s, p, base);
    }
  }

  ghost predicate PublishedOnce(s: State) {
    forall i, j :: 0 <= i < j < |s.publications| ==> s.publications[i].id != s.publications[j].id
  }

  lemma {:induction false} OnceIsLast(s: State, p: Path)
    requires PublishedOnce(s) && (|p| == 1 || |p| == 3)
    requires p in s.writers && s.writers[p].number < |s.publications| && PointedBy(s, p).Some?
    ensures WrittenForPointer(s, p) <==> LastOf(s.publications, OwnerOf(p)) == Some(s.writers[p].number)
  {
    hide LastOf, PointedBy, OwnerOf;
  }

  /** If no release is published twice, that is exactly when the last publication of the key wrote the file last. */
  lemma {:induction false} FileShowsPointedIffLast(site: Site, acts: seq<Act>, p: Path)
    requires UsableBases(acts) && KeyedByPath(acts) && p in Run(site, acts).files && PublishedOnce(Run(site, acts))
    ensures |p| == 1 || |p| == 3
    ensures var s := Run(site, acts);
            && PointedBy(s, p).Some? && p in s.writers
            && (LastOf(s.publications, OwnerOf(p)) == Some(s.writers[p].number)
                <==> exists base :: s.files[p] == Json(ReleaseManifest(site, base, PointedBy(s, p).value)))
  {
    FileShowsPointedIff(site, acts, p);
    RunHolds(site, acts);
    var s := Run(site, acts);
    FileAndPointer(site, s, p);
    OnceIsLast(s, p);
    hide Run, Held, PointedBy, ReleaseManifest, UsableBases, KeyedByPath, LastOf, WrittenForPointer, PublishedOnce;
  }

  // ---------- Pointers and files ----------

  /** What a reader of tables and files sees, with the keys whose own file is written for their pointer. */
  function View(s: State): World {
    World(s.tables, s.files,
          map k | k in s.tables.latest && PathOf(k) in s.files && WrittenForPointer(s, PathOf(k)) ::
            s.publications[s.writers[PathOf(k)].number].base)
  }

  lemma {:induction false} WrittenKeyIsWritten(site: Site, s: State, k: Key)
    requires Held(site, s) && k in View(s).written
    ensures KeyIsWritten(View(s), site, k)
  {
    WrittenFileShowsPointed(site, s, PathOf(k));
    var n := s.writers[PathOf(k)].number;
    assert PublicationHeld(s, n);
    assert OwnerOf(PathOf(k)) == k;
    hide Held, WrittenForPointer, ReleaseManifest, LatestExact, UsableBase, RowHeld, Find, Targets, NormalKey;
  }

  lemma {:induction false} ViewIsCached(site: Site, s: State)
    requires Held(site, s)
    ensures Cached(View(s), site)
  {
    hide Sound, PointersMatch, KeyIsWritten, FileHeld, WrittenForPointer, OwnerOf, LastOf, PublicationHeld;
    forall k | k in View(s).written ensures KeyIsWritten(View(s), site, k) {
      WrittenKeyIsWritten(site, s, k);
    }
    forall p | p in s.files ensures (|p| == 1 || |p| == 3) && OwnerOf(p) in s.tables.latest {
      assert FileHeld(site, s, p);
      FileOwner(site, s, p);
    }
  }

  /** After any interleaving: written keys have the pointed release's manifest, and files are of pointed keys only. */
  lemma {:induction false} RunsAreCached(site: Site, acts: seq<Act>)
    requires UsableBases(acts)
    ensures Cached(View(Run(site, acts)), site)
  {
    RunHolds(site, acts);
    hide Run, View, Held, Cached;
    ViewIsCached(site, Run(site, acts));
  }

  /**
   After any interleaving in which the own files of the lookup's pointed keys are written for their pointers, file
   lookup ends like pointer lookup: at the same release, or nowhere.
   */
  lemma {:induction false} WrittenLookupFollowsPointers(site: Site, acts: seq<Act>, base: string, k: Key)
    requires UsableBases(acts) && UsableBase(base) && NormalKey(k) && LookupIsWritten(View(Run(site, acts)), k)
    ensures ReadsAs(View(Run(site, acts)), site, base, k, LatestAt(Run(site, acts).tables, LookupKeys(k)))
  {
    RunsAreCached(site, acts);
    var s := Run(site, acts);
    assert View(s).tables == s.tables;
    hide Run, View, Cached, NormalKey, UsableBase, ReadsAs, LatestAt, LookupKeys, LookupIsWritten, UsableBases;
    FilesFollowPointers(View(s), site, base, k);
  }

  lemma {:induction false} WrittenManifestLoads(
      files: map<Path, File>, site: Site, written: string, base: string, k: Key, p: Path, row: Release)
    requires UsableBase(written) && UsableBase(base) && WellFormed(row)
    requires p in files && files[p] == Json(ReleaseManifest(site, written, row))
    ensures var loaded := LoadAt(files, site, base, k, p);
            && loaded.Ok? && loaded.value.storageKey == row.storageKey && loaded.value.publishedAt == row.publishedAt
  {
    ManifestReadsBack(site, written, base, k, row);
    ShowsKeyAndTime(site, written, row);
    hide Normalized, ReleaseManifest, ResolvePublicUrl, UsableBase, WellFormed;
  }

  lemma {:induction false} OwnFileLoads(site: Site, s: State, base: string, k: Key)
    requires Held(site, s) && UsableBase(base) && PathOf(k) in s.files
    ensures var own := LoadAt(s.files, site, base, k, PathOf(k));
            && PathOf(k) in s.writers && own.Ok?
            && own.value.storageKey == s.writers[PathOf(k)].row.storageKey
            && own.value.publishedAt == s.writers[PathOf(k)].row.publishedAt
  {
    hide TablesHeld, PointersFollow, PathOf, Find, WellFormed, NormalKey, Targets, UsableBase, ReleaseManifest, LoadAt,
         LatestExact, LastOf, SameRelease;
    var p := PathOf(k);
    assert FileHeld(site, s, p);
    var Writer(n, row) := s.writers[p];
    assert PublicationHeld(s, n);
    WrittenManifestLoads(s.files, site, s.publications[n].base, base, k, p, row);
  }

  /** A key's own file is what file lookup answers with, once it exists. */
  lemma {:induction false} OwnFileAnswers(site: Site, s: State, base: string, k: Key)
    requires Held(site, s) && UsableBase(base) && PathOf(k) in s.files
    ensures var answer := LoadFile(s.files, site, base, k);
            && PathOf(k) in s.writers && answer.Ok?
            && answer.value.storageKey == s.writers[PathOf(k)].row.storageKey
            && answer.value.publishedAt == s.writers[PathOf(k)].row.publishedAt
  {
    OwnFileLoads(site, s, base, k);
    LookupStartsAtKey(k);
    hide Held, LookupKeys, PathOf, LoadFile, UsableBase, LoadAt;
    var loads := Loads(s.files, site, base, k, AllPaths(LookupKeys(k)));
    assert loads[0].Some?;
    FirstIsEarliest(loads, 0);
    LoadFileSearchesKeys(s.files, site, base, k);
  }

  /**
   For a key with a pointer and a file of its own, file lookup answers with the pointed release, as it was published
   last, exactly when that file was last written for the pointer.
   */
  lemma {:induction false} PointedKeyAnswersIff(site: Site, acts: seq<Act>, base: string, k: Key)
    requires UsableBases(acts) && KeyedByPath(acts) && UsableBase(base) && PathOf(k) in Run(site, acts).files
    ensures var s := Run(site, acts);
            var answer := LoadFile(s.files, site, base, k);
            && answer.Ok? && LatestExact(s.tables, k).Some?
            && var pointed := LatestExact(s.tables, k).value;
               WrittenForPointer(s, PathOf(k))
               <==> answer.value.storageKey == pointed.storageKey && answer.value.publishedAt == pointed.publishedAt
  {
    RunHolds(site, acts);
    RunKeepsKeysApart(site, acts);
    var s := Run(site, acts);
    var p := PathOf(k);
    OwnFileAnswers(site, s, base, k);
    FileAndPointer(site, s, p);
    assert OwnerOf(p) == k;
    var row, pointed := s.writers[p].row, PointedBy(s, p).value;
    hide Run, Held, LoadFile, LastOf, Find, ReleaseManifest, LatestExact;
    if row.storageKey == pointed.storageKey {
      SameKeySameRelease(s.tables.releases, Find(s.tables.releases, row.id).value, pointed);
    }
    hide KeysApart;
  }

  // ---------- One publication ----------

  /** A handler that nobody disturbs writes its files one after the other; `works` says which can be written. */
  function Undisturbed(site: Site, s: State, n: nat, works: Path -> bool): State
    requires n < |s.publications| && s.publications[n].stage.Writing? && s.publications[n].stage.left != []
    decreases |s.publications[n].stage.left|
  {
    var left := s.publications[n].stage.left;
    var after := Apply(site, s, WriteNext(n, works(left[0])));
    if after.publications[n].stage.Writing? then Undisturbed(site, after, n, works) else after
  }

  /** Then it leaves the files, and ends as, the loop over the targets does. */
  lemma {:induction false} UndisturbedIsWriteTargets(site: Site, s: State, n: nat, works: Path -> bool)
    requires n < |s.publications| && s.publications[n].stage.Writing? && s.publications[n].stage.left != []
    ensures var Writing(row, left) := s.publications[n].stage;
            var (files, ok) :=
              WriteTargets(s.files, left, Json(ReleaseManifest(site, s.publications[n].base, row)), works);
            var after := Undisturbed(site, s, n, works);
            && after.files == files
            && n < |after.publications| && after.publications[n].stage == (if ok then Done else Stopped)
            && after.tables == s.tables
    decreases |s.publications[n].stage.left|
  {
    hide ReleaseManifest;
    var left := s.publications[n].stage.left;
    var after := Apply(site, s, WriteNext(n, works(left[0])));
    if after.publications[n].stage.Writing? {
      UndisturbedIsWriteTargets(site, after, n, works);
    } else if works(left[0]) {
      assert left[1..] == [];
    }
  }

  lemma {:induction false} OneMoved(site: Site, s: State, id: int, now: int, base: string, k: Key, x: int)
    requires Find(s.tables.releases, id).Some? && KeyOf(Find(s.tables.releases, id).value) == k
    requires Find(s.tables.releases, x).Some? && KeyOf(Find(s.tables.releases, x).value) == k
    ensures var after := Apply(site, s, MovePointer(id, now, base));
            && after.publications == s.publications + [Publication(id, k, base, Moved)]
            && after.tables.latest == s.tables.latest[k := id]
            && Find(after.tables.releases, x).Some? && KeyOf(Find(after.tables.releases, x).value) == k
            && after.files == s.files && after.writers == s.writers
  {
    MoveKeepsRows(s.tables, id, now, x);
    MovedPointers(s.tables, id, now);
    hide Step, Find, KeyOf;
  }

  /** A publication that moves the pointer, reads its row back, and cannot write its own file. */
  function Unwritten(site: Site, s: State, id: int, now: int, base: string): State {
    var moved := Apply(site, s, MovePointer(id, now, base));
    Apply(site, Apply(site, moved, ReadBack(|s.publications|)), WriteNext(|s.publications|, false))
  }

  lemma {:induction false} UnwrittenEnds(site: Site, s: State, id: int, now: int, base: string)
    requires Find(s.tables.releases, id).Some?
    ensures var own := KeyOf(Find(s.tables.releases, id).value);
            var end := Unwritten(site, s, id, now, base);
            && end.files == s.files && end.writers == s.writers
            && end.tables.latest == s.tables.latest[own := id]
            && end.publications == s.publications + [Publication(id, own, base, Stopped)]
  {
    var own, n := KeyOf(Find(s.tables.releases, id).value), |s.publications|;
    OneMoved(site, s, id, now, base, own, id);
    var moved := Apply(site, s, MovePointer(id, now, base));
    TargetsExist(KeyOf(Find(moved.tables.releases, id).value));
    hide PointerMoved, Find, KeyOf, PathOf, Targets;
    var read := Apply(site, moved, ReadBack(n));
    assert read.publications[n].stage.Writing? && read.publications[n].stage.left != [];
    assert Unwritten(site, s, id, now, base) == WithStage(read, n, Stopped);
  }

  lemma {:induction false} UnwrittenIsHeld(site: Site, s: State, id: int, now: int, base: string)
    requires Held(site, s) && UsableBase(base)
    ensures Held(site, Unwritten(site, s, id, now, base))
  {
    hide Held, Apply, UsableBase;
    var moved := Apply(site, s, MovePointer(id, now, base));
    StepKeepsHeld(site, s, MovePointer(id, now, base));
    StepKeepsHeld(site, moved, ReadBack(|s.publications|));
    StepKeepsHeld(site, Apply(site, moved, ReadBack(|s.publications|)), WriteNext(|s.publications|, false));
  }

  /** Then the pointer is moved and every file stays; the file a pointer to another release left is not its own. */
  lemma {:induction false} UnwrittenPublicationLeavesFiles(site: Site, s: State, id: int, now: int, base: string)
    requires Held(site, s) && UsableBase(base) && Find(s.tables.releases, id).Some?
    ensures var own := KeyOf(Find(s.tables.releases, id).value);
            var end := Unwritten(site, s, id, now, base);
            && end.files == s.files && end.writers == s.writers
            && own in end.tables.latest && end.tables.latest[own] == id
            && (PathOf(own) in s.files ==>
                  PathOf(own) in s.writers && (s.writers[PathOf(own)].row.id != id ==> own !in View(end).written))
  {
    var own := KeyOf(Find(s.tables.releases, id).value);
    var end := Unwritten(site, s, id, now, base);
    UnwrittenEnds(site, s, id, now, base);
    UnwrittenIsHeld(site, s, id, now, base);
    LastOfMore(s.publications, Publication(id, own, base, Stopped), own);
    assert OwnerOf(PathOf(own)) == own;
    hide Unwritten, Held, Find, KeyOf, PathOf, OwnerOf, LastOf, UsableBase, ReleaseManifest;
    if PathOf(own) in s.files {
      FileAndPointer(site, s, PathOf(own));
      FileAndPointer(site, end, PathOf(own));
    }
  }
}
