/**
 The manifest files as a cache of the latest pointers: where the files of the pointed releases are written, the
 endpoints answer alike from the tables and from the files.
 */
module ManifestCache {
  import opened Prelude
  import opened GoStrings
  import opened Releases
  import opened Manifests

  /**
   The tables, the files beside them, and `written`: the keys whose own file is the manifest of the release their
   pointer names, each with the base it was written under.
   */
  datatype World = World(tables: Tables, files: map<Path, File>, written: map<Key, string>)

  // ---------- Pointers ----------

  /** The pointer of a key leads to a sound row of that key, which is published. */
  lemma {:induction false} PointerLeads(t: Tables, k: Key)
    requires Sound(t) && PointersMatch(t)
    ensures k in t.latest <==> LatestExact(t, k).Some?
    ensures k in t.latest ==>
              var r := LatestExact(t, k).value;
              r in t.releases && KeyOf(r) == k && WellFormed(r) && r.status == PUBLISHED && r.id == t.latest[k]
  {
    hide WellFormed;
    if k in t.latest {
      var i :| 0 <= i < |t.releases| && t.releases[i].id == t.latest[k] && KeyOf(t.releases[i]) == k;
      FindsOwnId(t.releases, t.releases[i]);
    }
  }

  // ---------- Paths ----------

  lemma {:induction false} UniqueStartsAlike<T(!new)>(s: seq<T>)
    ensures s != [] ==> Unique(s) != [] && Unique(s)[0] == s[0]
  {
    if |s| > 1 {
      UniqueStartsAlike(Init(s));
    }
  }

  /** Whose publication writes a path. */
  function OwnerOf(p: Path): Key
    requires |p| == 1 || |p| == 3
  {
    if |p| == 3 then Key(p[0], p[1], p[2])
    else Key(if p[0] == "pc" then WINDOWS else p[0], STABLE, UNIVERSAL)
  }

  lemma {:induction false} PlatformIsNotPc(k: Key)
    requires NormalKey(k)
    ensures k.platform == ANDROID || k.platform == WINDOWS
    ensures k.platform != "pc"
  {
    hide TrimSpace, ToLower, NormalizeChannel, NormalizeArch;
    assert |"pc"| != |ANDROID| && |"pc"| != |WINDOWS|;
  }

  lemma {:induction false} TargetsAreOwned(k: Key, p: Path)
    requires NormalKey(k) && p in Targets(k)
    ensures (|p| == 1 || |p| == 3) && OwnerOf(p) == k
    ensures |p| == 3 ==> p == PathOf(k)
  {
    PlatformIsNotPc(k);
    hide NormalKey, Unique;
    assert p in [PathOf(k)] + if k.channel == STABLE && k.arch == UNIVERSAL then HomePaths(k.platform) else [];
  }

  // ---------- Files and pointers ----------

  /** The own file of a written key is the manifest of the release its pointer names. */
  ghost predicate KeyIsWritten(w: World, site: Site, k: Key)
    requires k in w.written
  {
    && k in w.tables.latest
    && LatestExact(w.tables, k).Some?
    && UsableBase(w.written[k])
    && PathOf(k) in w.files
    && w.files[PathOf(k)] == Json(ReleaseManifest(site, w.written[k], LatestExact(w.tables, k).value))
  }

  ghost predicate WrittenFilesMatch(w: World, site: Site) {
    forall k :: k in w.written ==> KeyIsWritten(w, site, k)
  }

  /** Files exist only for keys that have a pointer. */
  ghost predicate FilesHavePointers(w: World) {
    forall p :: p in w.files ==> (|p| == 1 || |p| == 3) && OwnerOf(p) in w.tables.latest
  }

  ghost predicate Cached(w: World, site: Site) {
    && Sound(w.tables)
    && PointersMatch(w.tables)
    && WrittenFilesMatch(w, site)
    && FilesHavePointers(w)
  }

  // ---------- Reading ----------

  function Loads(files: map<Path, File>, site: Site, base: string, k: Key, paths: seq<Path>): (r: seq<Option<Manifest>>)
    ensures |r| == |paths|
  {
    seq(|paths|, i requires 0 <= i < |paths| =>
      match LoadAt(files, site, base, k, paths[i]) case Ok(m) => Some(m) case Err(_) => None)
  }

  /** The answer is the first manifest that loads, in the order of the paths. */
  lemma {:induction false} LoadFirstIsFirst(files: map<Path, File>, site: Site, base: string, k: Key,
        paths: seq<Path>, last: LoadError)
    ensures First(Loads(files, site, base, k, paths))
         == match LoadFirst(files, site, base, k, paths, last) case Ok(m) => Some(m) case Err(_) => None
    decreases |paths|
  {
    hide LoadAt;
    if paths != [] {
      assert Loads(files, site, base, k, paths)[1..] == Loads(files, site, base, k, paths[1..]);
      match LoadAt(files, site, base, k, paths[0]) {
        case Ok(_) =>
        case Err(e) => LoadFirstIsFirst(files, site, base, k, paths[1..], e);
      }
    }
  }

  lemma {:induction false} AllMissing(files: map<Path, File>, site: Site, base: string, k: Key, paths: seq<Path>)
    requires forall i :: 0 <= i < |paths| ==> paths[i] !in files
    ensures LoadFirst(files, site, base, k, paths, Missing) == Err(Missing)
    decreases |paths|
  {
    if paths != [] {
      AllMissing(files, site, base, k, paths[1..]);
    }
  }

  lemma {:induction false} FirstOfBoth<T>(a: seq<Option<T>>, b: seq<Option<T>>)
    ensures First(a + b) == if First(a).Some? then First(a) else First(b)
  {
    if a == [] {
      assert a + b == b;
    } else {
      assert (a + b)[1..] == a[1..] + b;
      FirstOfBoth(a[1..], b);
    }
  }

  lemma {:induction false} FirstOfOne<T>(x: Option<T>)
    ensures First([x]) == x
  {
  }

  lemma {:induction false} RepeatsAddNothing(files: map<Path, File>, site: Site, base: string, k: Key,
        paths: seq<Path>, p: Path)
    requires p in paths && First(Loads(files, site, base, k, paths)) == None
    ensures LoadAt(files, site, base, k, p).Err?
  {
    hide LoadAt;
    var i :| 0 <= i < |paths| && paths[i] == p;
    assert Loads(files, site, base, k, paths)[i] == None;
  }

  /** Leaving out repeated paths changes nothing about the first that loads. */
  lemma {:induction false} UniqueKeepsFirst(files: map<Path, File>, site: Site, base: string, k: Key, paths: seq<Path>)
    ensures First(Loads(files, site, base, k, Unique(paths))) == First(Loads(files, site, base, k, paths))
    decreases |paths|
  {
    hide LoadAt;
    if paths != [] {
      var front := Init(paths);
      UniqueKeepsFirst(files, site, base, k, front);
      var all := Loads(files, site, base, k, paths);
      assert all == Loads(files, site, base, k, front) + [Last(all)];
      FirstOfBoth(Loads(files, site, base, k, front), [Last(all)]);
      FirstOfOne(Last(all));
      if Last(paths) in Unique(front) {
        if First(Loads(files, site, base, k, front)) == None {
          RepeatsAddNothing(files, site, base, k, front, Last(paths));
        }
      } else {
        assert Loads(files, site, base, k, Unique(paths)) == Loads(files, site, base, k, Unique(front)) + [Last(all)];
        FirstOfBoth(Loads(files, site, base, k, Unique(front)), [Last(all)]);
      }
    }
  }

  lemma {:induction false} LookupStartsAtKey(k: Key)
    ensures LookupKeys(k) != [] && LookupKeys(k)[0] == k
  {
    UniqueStartsAlike([k, Key(k.platform, k.channel, UNIVERSAL),
                       Key(k.platform, STABLE, k.arch), Key(k.platform, STABLE, UNIVERSAL)]);
  }

  lemma {:induction false} LoadsOfCandidates(files: map<Path, File>, site: Site, base: string, k: Key)
    ensures Loads(files, site, base, k, CandidatePaths(k))
         == Loads(files, site, base, k, [PathOf(k)]) + Loads(files, site, base, k, AllPaths(LookupKeys(k)))
            + Loads(files, site, base, k, HomePaths(k.platform))
  {
    hide LoadAt, LookupKeys, PathOf;
  }

  /** The files answer with the first of the key's fallback files that loads, unless it is left to a short name. */
  lemma {:induction false} LoadFileSearchesKeys(files: map<Path, File>, site: Site, base: string, k: Key)
    requires First(Loads(files, site, base, k, AllPaths(LookupKeys(k)))).Some?
    ensures LoadFile(files, site, base, k) == Ok(First(Loads(files, site, base, k, AllPaths(LookupKeys(k)))).value)
  {
    var paths := AllPaths(LookupKeys(k));
    LookupStartsAtKey(k);
    LoadsOfCandidates(files, site, base, k);
    hide LoadAt, LookupKeys, Unique, PathOf, CandidatePaths, HomePaths, LoadFirst;
    var all := CandidatePaths(k);
    var own := Loads(files, site, base, k, [PathOf(k)]);
    var keyed := Loads(files, site, base, k, paths);
    var home := Loads(files, site, base, k, HomePaths(k.platform));
    FirstOfBoth(own, keyed);
    FirstOfBoth(own + keyed, home);
    FirstOfOne(own[0]);
    assert own == [own[0]] && own[0] == keyed[0];
    UniqueKeepsFirst(files, site, base, k, all);
    LoadFirstIsFirst(files, site, base, k, Unique(all), Missing);
  }

  lemma {:induction false} LookupKeysAre(k: Key, x: Key)
    ensures x in LookupKeys(k)
       <==> x.platform == k.platform && (x.channel == k.channel || x.channel == STABLE)
            && (x.arch == k.arch || x.arch == UNIVERSAL)
  {
  }

  // ---------- Agreement ----------

  /** Every pointed key of the lookup has its pointed release's manifest in its own file. */
  ghost predicate LookupIsWritten(w: World, k: Key) {
    forall x :: x in LookupKeys(k) && x in w.tables.latest ==> x in w.written
  }

  lemma {:induction false} OwnFileHasPointer(w: World, x: Key)
    requires FilesHavePointers(w)
    ensures PathOf(x) in w.files ==> x in w.tables.latest
  {
    assert OwnerOf(PathOf(x)) == x;
  }

  /** What a reader makes of the manifest of a release as it was written. */
  function ReadBack(w: World, site: Site, base: string, k: Key, r: Release): Option<Manifest> {
    if KeyOf(r) in w.written then Normalized(site, base, k, ReleaseManifest(site, w.written[KeyOf(r)], r)) else None
  }

  /** A key's own file loads exactly when the key has a pointer, and then it is the pointed release's manifest. */
  lemma {:induction false} KeyedFileLoads(w: World, site: Site, base: string, k: Key, x: Key)
    requires Cached(w, site) && UsableBase(base) && LookupIsWritten(w, k) && x in LookupKeys(k)
    ensures match LatestExact(w.tables, x)
            case None => PathOf(x) !in w.files
            case Some(r) =>
              && KeyOf(r) == x && x in w.written && UsableBase(w.written[x]) && WellFormed(r)
              && ReadBack(w, site, base, k, r).Some?
              && LoadAt(w.files, site, base, k, PathOf(x)) == Ok(ReadBack(w, site, base, k, r).value)
  {
    PointerLeads(w.tables, x);
    OwnFileHasPointer(w, x);
    hide Sound, PointersMatch, LookupKeys, FilesHavePointers, WellFormed, KeyOf, PathOf;
    if x in w.tables.latest {
      assert KeyIsWritten(w, site, x);
      var r := LatestExact(w.tables, x).value;
      hide WrittenFilesMatch, ReleaseManifest, Normalized, LatestExact, UsableBase;
      ManifestReadsBack(site, w.written[x], base, k, r);
    }
  }

  /** The files answer with the manifest of `pointed` as it was written, or have nothing when there is none. */
  ghost predicate ReadsAs(w: World, site: Site, base: string, k: Key, pointed: Option<Release>) {
    match pointed
    case None => LoadFile(w.files, site, base, k) == Err(Missing)
    case Some(r) =>
      && KeyOf(r) in w.written && UsableBase(w.written[KeyOf(r)]) && WellFormed(r)
      && ReadBack(w, site, base, k, r).Some?
      && LoadFile(w.files, site, base, k) == Ok(ReadBack(w, site, base, k, r).value)
  }

  lemma {:induction false} PointedFileIsLoaded(w: World, site: Site, base: string, k: Key,
        found: seq<Option<Release>>, i: nat)
    requires Cached(w, site) && UsableBase(base) && LookupIsWritten(w, k)
    requires found == LatestEach(w.tables, LookupKeys(k))
    requires i < |found| && found[i].Some? && (forall j :: 0 <= j < i ==> found[j] == None)
    ensures ReadsAs(w, site, base, k, found[i])
  {
    hide Cached, LookupKeys, LookupIsWritten, LatestExact, Normalized, ReadBack, WellFormed, UsableBase, PathOf,
         KeyOf, LoadFile;
    var keys := LookupKeys(k);
    var loads := Loads(w.files, site, base, k, AllPaths(keys));
    forall j | 0 <= j < i ensures loads[j] == None {
      KeyedFileLoads(w, site, base, k, keys[j]);
    }
    KeyedFileLoads(w, site, base, k, keys[i]);
    FirstIsEarliest(loads, i);
    LoadFileSearchesKeys(w.files, site, base, k);
  }

  lemma {:induction false} NotPointed(t: Tables, keys: seq<Key>, found: seq<Option<Release>>, x: Key)
    requires found == LatestEach(t, keys)
    requires First(found) == None && x in keys
    ensures LatestExact(t, x) == None
  {
    var i :| 0 <= i < |keys| && keys[i] == x;
    assert found[i] == None;
  }

  lemma {:induction false} HomeFileHasPointer(w: World, site: Site, k: Key, p: Path, found: seq<Option<Release>>)
    requires Cached(w, site) && NormalKey(k) && p in HomePaths(k.platform)
    requires found == LatestEach(w.tables, LookupKeys(k))
    requires First(found) == None
    ensures p !in w.files
  {
    PlatformIsNotPc(k);
    var stable := Key(k.platform, STABLE, UNIVERSAL);
    assert |p| == 1 && OwnerOf(p) == stable;
    LookupKeysAre(k, stable);
    hide NormalKey, LookupKeys, HomePaths, OwnerOf;
    NotPointed(w.tables, LookupKeys(k), found, stable);
    PointerLeads(w.tables, stable);
    hide Sound, PointersMatch, WrittenFilesMatch, LatestExact;
  }

  lemma {:induction false} NoPointerNoFile(w: World, site: Site, base: string, k: Key, found: seq<Option<Release>>)
    requires Cached(w, site) && UsableBase(base) && NormalKey(k) && LookupIsWritten(w, k)
    requires found == LatestEach(w.tables, LookupKeys(k))
    requires First(found) == None
    ensures ReadsAs(w, site, base, k, None)
  {
    hide Cached, LookupKeys, LookupIsWritten, LatestExact, ReadBack, UsableBase, NormalKey, LoadFirst, Unique,
         PathOf, HomePaths;
    var keys := LookupKeys(k);
    var paths := CandidatePaths(k);
    forall p | p in paths ensures p !in w.files {
      if p in HomePaths(k.platform) {
        HomeFileHasPointer(w, site, k, p, found);
      } else {
        LookupStartsAtKey(k);
        assert exists x :: x in keys && p == PathOf(x) by {
          if p == PathOf(k) {
            assert k in keys;
          } else {
            assert p in AllPaths(keys);
          }
        }
        var x :| x in keys && p == PathOf(x);
        NotPointed(w.tables, keys, found, x);
        KeyedFileLoads(w, site, base, k, x);
      }
    }
    AllMissing(w.files, site, base, k, Unique(paths));
  }

  /**
   Files follow pointers: wherever the manifests of the pointed releases were written, a lookup in the files
   ends like the lookup of the pointers: at the same release, or nowhere.
   */
  lemma {:induction false} FilesFollowPointers(w: World, site: Site, base: string, k: Key)
    requires Cached(w, site) && UsableBase(base) && NormalKey(k) && LookupIsWritten(w, k)
    ensures ReadsAs(w, site, base, k, LatestAt(w.tables, LookupKeys(k)))
  {
    hide Cached, NormalKey, LookupKeys, LookupIsWritten, UsableBase, LatestExact, LatestEach, First, ReadsAs;
    var keys := LookupKeys(k);
    var found := LatestEach(w.tables, keys);
    if First(found).Some? {
      var i := FirstHasPlace(found);
      PointedFileIsLoaded(w, site, base, k, found, i);
    } else {
      NoPointerNoFile(w, site, base, k, found);
    }
  }

  // ---------- Tables and files ----------

  /** What the reader makes of the address a release was written under is the address the reader gives it itself. */
  predicate SteadyAddress(site: Site, base: string, reader: string, r: Release) {
    ResolvePublicUrl(site, reader, PublicUrl(site, base, r)) == PublicUrl(site, reader, r)
  }

  /** So it is for a release stored with an absolute address, whoever writes and whoever reads. */
  lemma {:induction false} StoredAddressIsSteady(site: Site, base: string, reader: string, r: Release)
    requires TrimSpace(r.publicDownloadUrl) != "" && site.isAbsolute(TrimSpace(r.publicDownloadUrl))
    ensures SteadyAddress(site, base, reader, r)
  {
    TrimSpaceTrims(r.publicDownloadUrl);
    TrimSpaceFixes(TrimSpace(r.publicDownloadUrl));
    hide TrimSpace, DropLeading;
  }

  lemma {:induction false} ReadsBackAlikeIff(w: World, site: Site, base: string, k: Key, r: Release)
    requires UsableBase(base) && ReadsAs(w, site, base, k, Some(r))
    ensures LoadFile(w.files, site, base, k) == Ok(ReleaseManifest(site, base, r))
       <==> SteadyAddress(site, w.written[KeyOf(r)], base, r)
  {
    ManifestReadsBack(site, w.written[KeyOf(r)], base, k, r);
    hide Normalized, PublicUrl, ResolvePublicUrl, WellFormed, UsableBase, KeyOf, LoadFile, TrimSpace;
  }

  predicate AddressIsSteadyOrNothing(w: World, site: Site, base: string, k: Key) {
    match LatestAt(w.tables, LookupKeys(k))
    case Some(r) => KeyOf(r) in w.written && SteadyAddress(site, w.written[KeyOf(r)], base, r)
    case None => NewestAt(w.tables, LookupKeys(k)) == None
  }

  /**
   A handler with a database and one with only the files answer alike exactly when the pointed release's address
   is steady, or when no lookup key has a pointer and none has any release.
   */
  lemma {:induction false} AnswersAgreeIff(w: World, site: Site, base: string, k: Key)
    requires Cached(w, site) && UsableBase(base) && NormalKey(k) && LookupIsWritten(w, k)
    ensures Load(w.tables, w.files, site, base, k) == LoadFile(w.files, site, base, k)
       <==> AddressIsSteadyOrNothing(w, site, base, k)
  {
    FilesFollowPointers(w, site, base, k);
    var pointed := LatestAt(w.tables, LookupKeys(k));
    if pointed.Some? {
      ReadsBackAlikeIff(w, site, base, k, pointed.value);
    }
    hide Cached, NormalKey, LookupIsWritten, UsableBase, SteadyAddress, LoadFile, ReleaseManifest, KeyOf, WellFormed,
         LatestAt, NewestAt, LookupKeys, ReadBack;
  }

  /** The release the endpoints serve from the tables. */
  function Served(t: Tables, k: Key): Option<Release> {
    if LatestAt(t, LookupKeys(k)).Some? then LatestAt(t, LookupKeys(k)) else NewestAt(t, LookupKeys(k))
  }

  lemma {:induction false} LatestAtIsPublished(t: Tables, keys: seq<Key>)
    requires Sound(t) && PointersMatch(t)
    ensures LatestAt(t, keys) == None <==> forall x :: x in keys ==> x !in t.latest
    ensures LatestAt(t, keys).Some? ==> LatestAt(t, keys).value.status == PUBLISHED
  {
    var found := LatestEach(t, keys);
    hide Sound, PointersMatch, LatestExact, First;
    forall i | 0 <= i < |keys|
      ensures found[i] == None <==> keys[i] !in t.latest
      ensures found[i].Some? ==> found[i].value.status == PUBLISHED
    {
      PointerLeads(t, keys[i]);
    }
    if First(found).Some? {
      var i := FirstHasPlace(found);
    }
  }

  lemma {:induction false} NewestAtIsOfKey(t: Tables, keys: seq<Key>)
    requires NewestAt(t, keys).Some?
    ensures var r := NewestAt(t, keys).value;
            r in t.releases && KeyOf(r) in keys
  {
    var found := seq(|keys|, i requires 0 <= i < |keys| => NewestExact(t.releases, keys[i]));
    var i := FirstHasPlace(found);
    hide First, KeyOf, Newer;
  }

  /** A release that is not published is served exactly while no key of the lookup has a pointer. */
  lemma {:induction false} DraftIsServedIff(t: Tables, k: Key)
    requires Sound(t) && PointersMatch(t) && Served(t, k).Some?
    ensures Served(t, k).value.status != PUBLISHED <==> forall x :: x in LookupKeys(k) ==> x !in t.latest
  {
    LatestAtIsPublished(t, LookupKeys(k));
    if LatestAt(t, LookupKeys(k)) == None {
      NewestAtIsOfKey(t, LookupKeys(k));
      var r := NewestAt(t, LookupKeys(k)).value;
      var i :| 0 <= i < |t.releases| && t.releases[i] == r;
      assert KeyOf(t.releases[i]) !in t.latest;
    }
    hide LatestAt, NewestAt, LookupKeys, KeyOf, Sound;
  }
}
