/** One publication of a key at a time: a guard under which the files follow the pointers. */
module ManifestTurns {
  import opened Prelude
  import opened Releases
  import opened Manifests
  import opened ManifestCache
  import opened ManifestPublications

  /** A publication starts only when no other of its key is open: a caller can check it before the publication. */
  predicate StartsAlone(s: State, act: Act) {
    act.MovePointer? && Find(s.tables.releases, act.id).Some? ==>
      forall n :: 0 <= n < |s.publications| && s.publications[n].stage.Open() ==>
        s.publications[n].key != KeyOf(Find(s.tables.releases, act.id).value)
  }

  ghost predicate OneAtATime(site: Site, acts: seq<Act>) {
    acts != [] ==> OneAtATime(site, Init(acts)) && StartsAlone(Run(site, Init(acts)), Last(acts))
  }

  /** No handler gives up, and no write fails. */
  predicate WritesSucceed(acts: seq<Act>) {
    forall i :: 0 <= i < |acts| ==> !acts[i].Abandon? && (acts[i].WriteNext? ==> acts[i].works)
  }

  predicate OwnWritten(s: State, n: nat)
    requires n < |s.publications|
  {
    var p := PathOf(s.publications[n].key);
    p in s.files && p in s.writers && s.writers[p].number == n
  }

  /** An open publication is the last of its key, and the last one has written its own file first. */
  ghost predicate AloneAt(s: State, n: nat)
    requires n < |s.publications|
  {
    var Publication(_, key, _, stage) := s.publications[n];
    && !stage.Stopped?
    && (stage.Open() ==> LastOf(s.publications, key) == Some(n))
    && (LastOf(s.publications, key) == Some(n) ==>
          && (stage.Done? ==> OwnWritten(s, n))
          && (stage.Writing? ==> stage.left == Targets(key) || OwnWritten(s, n)))
  }

  ghost predicate AllAlone(s: State) {
    forall n :: 0 <= n < |s.publications| ==> AloneAt(s, n)
  }

  lemma {:induction false} MoveKeepsAlone(s: State, id: int, now: int, base: string)
    requires AllAlone(s) && StartsAlone(s, MovePointer(id, now, base))
    ensures AllAlone(PointerMoved(s, id, now, base))
  {
    var found := Find(s.tables.releases, id);
    if found.Some? {
      var after := PointerMoved(s, id, now, base);
      var p := Publication(id, KeyOf(found.value), base, Moved);
      assert after.publications == s.publications + [p];
      assert after.files == s.files && after.writers == s.writers;
      hide PointerMoved, Find, KeyOf, PathOf, Targets;
      forall n | 0 <= n < |after.publications| ensures AloneAt(after, n) {
        LastOfMore(s.publications, p, after.publications[n].key);
        hide LastOf;
        if n < |s.publications| {
          assert AloneAt(s, n);
        }
      }
    }
  }

  /** A publication that nothing else about its key touches stays as it is. */
  lemma {:induction false} OthersStayAlone(s: State, after: State, m: nat)
    requires m < |s.publications| == |after.publications| && AloneAt(s, m)
    requires after.publications[m] == s.publications[m]
    requires LastOf(after.publications, s.publications[m].key) == LastOf(s.publications, s.publications[m].key)
    requires LastOf(s.publications, s.publications[m].key) == Some(m) ==>
               && (PathOf(s.publications[m].key) in s.files ==> PathOf(s.publications[m].key) in after.files)
               && (PathOf(s.publications[m].key) in s.writers ==>
                     && PathOf(s.publications[m].key) in after.writers
                     && after.writers[PathOf(s.publications[m].key)] == s.writers[PathOf(s.publications[m].key)])
    ensures AloneAt(after, m)
  {
    hide PathOf, Targets, LastOf;
  }

  lemma {:induction false} ReadBackIsAlone(s: State, n: nat)
    requires n < |s.publications| && s.publications[n].stage.Moved? && AloneAt(s, n) && PublicationHeld(s, n)
    ensures var after := RowRead(s, n);
            && AloneAt(after, n)
            && |after.publications| == |s.publications| && after.files == s.files && after.writers == s.writers
            && after.publications[n].key == s.publications[n].key
            && forall m :: 0 <= m < |s.publications| && m != n ==> after.publications[m] == s.publications[m]
  {
    LastStays(s.publications, RowRead(s, n).publications, s.publications[n].key);
    hide Find, PathOf, Targets, UsableBase, NormalKey, RowHeld, LastOf;
  }

  lemma {:induction false} ReadBackKeepsAlone(s: State, n: nat)
    requires AllAlone(s) && PublicationsHeld(s) && n < |s.publications| && s.publications[n].stage.Moved?
    ensures AllAlone(RowRead(s, n))
  {
    var after := RowRead(s, n);
    assert PublicationHeld(s, n);
    hide Find, PathOf, Targets, UsableBase, NormalKey, RowHeld, PublicationsHeld;
    ReadBackIsAlone(s, n);
    hide RowRead, AloneAt, PublicationHeld;
    forall m | 0 <= m < |after.publications| ensures AloneAt(after, m) {
      if m != n {
        assert AloneAt(s, m);
        LastStays(s.publications, after.publications, s.publications[m].key);
        OthersStayAlone(s, after, m);
      }
    }
  }

  lemma {:induction false} WriteKeepsAloneOwn(site: Site, s: State, n: nat)
    requires n < |s.publications| && s.publications[n].stage.Writing? && s.publications[n].stage.left != []
    requires AloneAt(s, n)
    ensures AloneAt(FileWritten(site, s, n, true), n)
  {
    var after := FileWritten(site, s, n, true);
    TargetsExist(s.publications[n].key);
    LastStays(s.publications, after.publications, s.publications[n].key);
    hide PathOf, Targets, LastOf, ReleaseManifest;
  }

  /** A path of one key is no other key's own. */
  lemma {:induction false} OtherKeysPath(own: Key, other: Key, p: Path)
    requires NormalKey(own) && p in Targets(own) && own != other
    ensures p != PathOf(other)
  {
    TargetsAreOwned(own, p);
    assert OwnerOf(PathOf(other)) == other;
    hide NormalKey, Targets;
  }

  lemma {:induction false} WriteKeepsAloneOther(site: Site, s: State, n: nat, m: nat)
    requires n < |s.publications| && m < |s.publications| && m != n
    requires s.publications[n].stage.Writing? && s.publications[n].stage.left != [] && PublicationHeld(s, n)
    requires AloneAt(s, n) && AloneAt(s, m)
    ensures AloneAt(FileWritten(site, s, n, true), m)
  {
    var after := FileWritten(site, s, n, true);
    var own, other := s.publications[n].key, s.publications[m].key;
    LastStays(s.publications, after.publications, other);
    if own != other {
      OtherKeysPath(own, other, s.publications[n].stage.left[0]);
    }
    hide Find, PathOf, Targets, UsableBase, NormalKey, RowHeld, LastOf, ReleaseManifest, PublicationHeld, OwnWritten;
    OthersStayAlone(s, after, m);
  }

  lemma {:induction false} UploadKeepsAlone(site: Site, s: State, d: Draft, id: int, now: int)
    requires AllAlone(s)
    ensures AllAlone(Apply(site, s, Upload(d, id, now)))
  {
    var after := Apply(site, s, Upload(d, id, now));
    hide Step, LastOf, Targets, PathOf;
    forall n | 0 <= n < |after.publications| ensures AloneAt(after, n) {
      assert AloneAt(s, n);
    }
  }

  lemma {:induction false} NothingIsAlone()
    ensures AllAlone(NOTHING)
  {
  }

  lemma {:induction false} HeldPublications(site: Site, s: State)
    requires Held(site, s)
    ensures PublicationsHeld(s)
  {
  }

  lemma {:induction false} StepKeepsAlone(site: Site, s: State, act: Act)
    requires AllAlone(s) && PublicationsHeld(s) && StartsAlone(s, act) && WritesSucceed([act])
    ensures AllAlone(Apply(site, s, act))
  {
    assert [act][0] == act;
    hide AloneAt;
    match act {
      case Upload(d, id, now) => UploadKeepsAlone(site, s, d, id, now);
      case MovePointer(id, now, base) => MoveKeepsAlone(s, id, now, base);
      case ReadBack(n) =>
        if n < |s.publications| && s.publications[n].stage.Moved? {
          ReadBackKeepsAlone(s, n);
        }
      case WriteNext(n, works) =>
        if n < |s.publications| && s.publications[n].stage.Writing? && s.publications[n].stage.left != [] {
          assert PublicationHeld(s, n) && AloneAt(s, n) && works;
          hide StartsAlone, PublicationHeld;
          forall m | 0 <= m < |s.publications| ensures AloneAt(FileWritten(site, s, n, true), m) {
            if m == n {
              WriteKeepsAloneOwn(site, s, n);
            } else {
              WriteKeepsAloneOther(site, s, n, m);
            }
          }
        }
    }
  }

  lemma {:induction false} RunKeepsAlone(site: Site, acts: seq<Act>)
    requires UsableBases(acts) && OneAtATime(site, acts) && WritesSucceed(acts)
    ensures AllAlone(Run(site, acts))
  {
    hide Apply, Held, UsableBase, AllAlone, StartsAlone;
    if acts == [] {
      NothingIsAlone();
    } else {
      RunKeepsAlone(site, Init(acts));
      RunHolds(site, Init(acts));
      HeldPublications(site, Run(site, Init(acts)));
      assert Last(acts) == acts[|acts| - 1];
      StepKeepsAlone(site, Run(site, Init(acts)), Last(acts));
    }
  }

  /** No publication of the key is open. */
  ghost predicate Closed(s: State, k: Key) {
    forall n :: 0 <= n < |s.publications| && s.publications[n].key == k ==> !s.publications[n].stage.Open()
  }

  lemma {:induction false} ClosedIsWritten(site: Site, s: State, k: Key)
    requires Held(site, s) && AllAlone(s) && Closed(s, k) && k in s.tables.latest
    ensures k in View(s).written
  {
    assert LastOf(s.publications, k).Some?;
    var n := LastOf(s.publications, k).value;
    assert AloneAt(s, n);
    assert OwnWritten(s, n);
    FileAndPointer(site, s, PathOf(k));
    assert OwnerOf(PathOf(k)) == k;
    hide Held, LastOf, Find, OwnerOf, PathOf, LatestExact;
  }

  /**
   With one publication of a key at a time and writes that succeed, every pointed key without an open publication has
   its pointed release's manifest written.
   */
  lemma {:induction false} PointedIsWritten(site: Site, acts: seq<Act>, k: Key)
    requires UsableBases(acts) && OneAtATime(site, acts) && WritesSucceed(acts) && Closed(Run(site, acts), k)
    ensures k in View(Run(site, acts)).written <==> k in Run(site, acts).tables.latest
  {
    RunHolds(site, acts);
    RunKeepsAlone(site, acts);
    var s := Run(site, acts);
    hide Run, Held, AllAlone, Closed, OneAtATime, WritesSucceed, UsableBases, WrittenForPointer;
    if k in s.tables.latest {
      ClosedIsWritten(site, s, k);
    }
  }

  /** No publication of a key of the lookup is open. */
  ghost predicate LookupIsClosed(s: State, k: Key) {
    forall x :: x in LookupKeys(k) ==> Closed(s, x)
  }

  lemma {:induction false} ClosedLookupIsWritten(site: Site, acts: seq<Act>, k: Key)
    requires UsableBases(acts) && OneAtATime(site, acts) && WritesSucceed(acts) && LookupIsClosed(Run(site, acts), k)
    ensures LookupIsWritten(View(Run(site, acts)), k)
  {
    hide Run, Closed, OneAtATime, WritesSucceed, UsableBases, WrittenForPointer, LookupKeys;
    forall x | x in LookupKeys(k) && x in Run(site, acts).tables.latest ensures x in View(Run(site, acts)).written {
      PointedIsWritten(site, acts, x);
    }
  }

  /** Then file lookup ends like pointer lookup: at the same release, or nowhere. */
  lemma {:induction false} RunFilesFollowPointers(site: Site, acts: seq<Act>, base: string, k: Key)
    requires UsableBases(acts) && OneAtATime(site, acts) && WritesSucceed(acts) && LookupIsClosed(Run(site, acts), k)
    requires UsableBase(base) && NormalKey(k)
    ensures ReadsAs(View(Run(site, acts)), site, base, k, LatestAt(Run(site, acts).tables, LookupKeys(k)))
  {
    hide Run, View, NormalKey, UsableBase, ReadsAs, LatestAt, LookupKeys, LookupIsWritten, LookupIsClosed, OneAtATime,
         WritesSucceed, UsableBases;
    ClosedLookupIsWritten(site, acts, k);
    WrittenLookupFollowsPointers(site, acts, base, k);
  }

  /** And the endpoints answer alike exactly when the pointed release's address is steady, or there is no release. */
  lemma {:induction false} RunAnswersAgreeIff(site: Site, acts: seq<Act>, base: string, k: Key)
    requires UsableBases(acts) && OneAtATime(site, acts) && WritesSucceed(acts) && LookupIsClosed(Run(site, acts), k)
    requires UsableBase(base) && NormalKey(k)
    ensures var w := View(Run(site, acts));
            Load(w.tables, w.files, site, base, k) == LoadFile(w.files, site, base, k)
            <==> AddressIsSteadyOrNothing(w, site, base, k)
  {
    hide Run, View, NormalKey, UsableBase, LatestAt, NewestAt, LookupKeys, LookupIsWritten, LookupIsClosed, OneAtATime,
         WritesSucceed, UsableBases, Cached, Load, LoadFile, AddressIsSteadyOrNothing;
    ClosedLookupIsWritten(site, acts, k);
    RunsAreCached(site, acts);
    AnswersAgreeIff(View(Run(site, acts)), site, base, k);
  }
}
