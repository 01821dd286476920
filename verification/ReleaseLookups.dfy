/**
 Which release and which file the lookups find: the fallback order and the order among releases of one key, said
 without the lists the store builds.
 */
module ReleaseLookups {
  import opened Prelude
  import opened Releases
  import opened Manifests
  import opened ManifestCache

  // ---------- The fallback order ----------

  /** The channel and architecture asked for, then the universal build, the stable one, and the stable universal one. */
  function Fallback<T>(at: (string, string) -> Option<T>, channel: string, arch: string): Option<T> {
    if at(channel, arch).Some? then at(channel, arch)
    else if at(channel, "universal").Some? then at(channel, "universal")
    else if at("stable", arch).Some? then at("stable", arch)
    else at("stable", "universal")
  }

  lemma {:induction false} FallbackAlike<T>(f: (string, string) -> Option<T>, g: (string, string) -> Option<T>,
        channel: string, arch: string)
    requires forall c, a :: f(c, a) == g(c, a)
    ensures Fallback(f, channel, arch) == Fallback(g, channel, arch)
  {
  }

  function Each<T>(at: Key -> Option<T>, keys: seq<Key>): (found: seq<Option<T>>)
    ensures |found| == |keys| && forall i :: 0 <= i < |keys| ==> found[i] == at(keys[i])
  {
    seq(|keys|, i requires 0 <= i < |keys| => at(keys[i]))
  }

  /** Leaving out a key that is already there changes nothing about the first that answers. */
  lemma {:induction false} FirstOfUnique<T>(at: Key -> Option<T>, keys: seq<Key>)
    ensures First(Each(at, Unique(keys))) == First(Each(at, keys))
    decreases |keys|
  {
    if keys != [] {
      var front, last := Init(keys), Last(keys);
      FirstOfUnique(at, front);
      assert keys == front + [last];
      assert Each(at, keys) == Each(at, front) + [at(last)];
      FirstOfBoth(Each(at, front), [at(last)]);
      FirstOfOne(at(last));
      if last in Unique(front) {
        var i :| 0 <= i < |front| && front[i] == last;
        assert Each(at, front)[i] == at(last);
      } else {
        assert Each(at, Unique(keys)) == Each(at, Unique(front)) + [at(last)];
        FirstOfBoth(Each(at, Unique(front)), [at(last)]);
      }
    }
  }

  lemma {:induction false} FirstOfFour<T>(found: seq<Option<T>>)
    requires |found| == 4
    ensures First(found) == if found[0].Some? then found[0] else if found[1].Some? then found[1]
                            else if found[2].Some? then found[2] else found[3]
  {
    var i := if found[0].Some? then 0 else if found[1].Some? then 1 else if found[2].Some? then 2 else 3;
    if found[i].Some? {
      FirstIsEarliest(found, i);
    } else {
      assert forall j :: 0 <= j < |found| ==> found[j] == None;
    }
  }

  /** The keys the store looks up are asked in the fallback order. */
  lemma {:induction false} LookupFollowsFallback<T>(at: Key -> Option<T>, k: Key)
    ensures First(Each(at, LookupKeys(k))) == Fallback((c, a) => at(Key(k.platform, c, a)), k.channel, k.arch)
  {
    var keys := [k, Key(k.platform, k.channel, UNIVERSAL), Key(k.platform, STABLE, k.arch),
                 Key(k.platform, STABLE, UNIVERSAL)];
    FirstOfUnique(at, keys);
    FirstOfFour(Each(at, keys));
    assert LookupKeys(k) == Unique(keys);
    hide First, Unique, LookupKeys;
  }

  // ---------- Pointed releases ----------

  /** The pointer of a platform, channel and architecture leads to this row. */
  ghost predicate PointsAt(t: Tables, platform: string, channel: string, arch: string, r: Release) {
    && Key(platform, channel, arch) in t.latest
    && r in t.releases
    && r.id == t.latest[Key(platform, channel, arch)]
  }

  lemma {:induction false} LatestExactIff(t: Tables, k: Key, r: Release)
    requires DistinctIds(t.releases)
    ensures LatestExact(t, k) == Some(r) <==> PointsAt(t, k.platform, k.channel, k.arch, r)
  {
    assert k == Key(k.platform, k.channel, k.arch);
    if r in t.releases {
      FindsOwnId(t.releases, r);
    }
  }

  /**
   The answer to a lookup by pointer, under normalised names: what the pointer of the key names; without one, what
   the pointer of its universal build names, then that of its stable build, then that of the stable universal one.
   */
  lemma {:induction false} LatestFollowsFallback(t: Tables, k: Key)
    requires NormalizeKey(k.platform, k.channel, k.arch) == Ok(k)
    ensures LatestFor(t, k.platform, k.channel, k.arch)
         == match Fallback((c, a) => LatestExact(t, Key(k.platform, c, a)), k.channel, k.arch)
            case Some(r) => Ok(r)
            case None => Err(NotFound)
  {
    hide NormalizeKey, LatestExact, LookupKeys, First;
    var at := x => LatestExact(t, x);
    LookupFollowsFallback(at, k);
    assert LatestEach(t, LookupKeys(k)) == Each(at, LookupKeys(k));
    FallbackAlike((c, a) => at(Key(k.platform, c, a)), (c, a) => LatestExact(t, Key(k.platform, c, a)),
                  k.channel, k.arch);
  }

  ghost predicate Unpointed(t: Tables, platform: string, channel: string, arch: string) {
    forall r :: !PointsAt(t, platform, channel, arch, r)
  }

  lemma {:induction false} NothingLatestIff(t: Tables, k: Key)
    requires DistinctIds(t.releases)
    ensures LatestExact(t, k) == None <==> Unpointed(t, k.platform, k.channel, k.arch)
  {
    hide LatestExact, PointsAt, DistinctIds;
    forall r ensures LatestExact(t, k) == Some(r) <==> PointsAt(t, k.platform, k.channel, k.arch, r) {
      LatestExactIff(t, k, r);
    }
    if LatestExact(t, k).Some? {
      assert PointsAt(t, k.platform, k.channel, k.arch, LatestExact(t, k).value);
    }
  }

  lemma {:induction false} LatestAsPointers(t: Tables, k: Key, r: Release)
    requires DistinctIds(t.releases)
    ensures LatestExact(t, k) == None <==> Unpointed(t, k.platform, k.channel, k.arch)
    ensures LatestExact(t, k) == Some(r) <==> PointsAt(t, k.platform, k.channel, k.arch, r)
  {
    NothingLatestIff(t, k);
    LatestExactIff(t, k, r);
  }

  /** The same from the pointers themselves: a pointer nearer the key asked for wins, whatever the others name. */
  lemma {:induction false} NearestPointerWins(t: Tables, platform: string, channel: string, arch: string, r: Release)
    requires DistinctIds(t.releases)
    requires NormalizeKey(platform, channel, arch) == Ok(Key(platform, channel, arch))
    ensures LatestFor(t, platform, channel, arch) == Ok(r)
       <==> || PointsAt(t, platform, channel, arch, r)
            || (&& Unpointed(t, platform, channel, arch)
                && (|| PointsAt(t, platform, channel, "universal", r)
                    || (&& Unpointed(t, platform, channel, "universal")
                        && (|| PointsAt(t, platform, "stable", arch, r)
                            || (&& Unpointed(t, platform, "stable", arch)
                                && PointsAt(t, platform, "stable", "universal", r))))))
  {
    LatestFollowsFallback(t, Key(platform, channel, arch));
    hide NormalizeKey, LatestExact, PointsAt, Unpointed, DistinctIds, LatestFor;
    LatestAsPointers(t, Key(platform, channel, arch), r);
    LatestAsPointers(t, Key(platform, channel, "universal"), r);
    LatestAsPointers(t, Key(platform, "stable", arch), r);
    LatestAsPointers(t, Key(platform, "stable", "universal"), r);
  }

  // ---------- Newest releases ----------

  /** The columns the newest release is picked by, each ascending. */
  function SortColumns(r: Release): seq<int> {
    [-r.versionCode,
     if r.status == "published" then 0 else 1,
     -(match r.publishedAt case Some(time) => time case None => r.createdAt),
     -r.createdAt,
     -r.id]
  }

  /** The lexicographic order: the first column that differs decides. */
  ghost predicate SortsBefore(a: seq<int>, b: seq<int>) {
    exists i :: 0 <= i < |a| && i < |b| && a[i] < b[i] && forall j :: 0 <= j < i ==> a[j] == b[j]
  }

  lemma {:induction false} NewerIsSortedBefore(a: Release, b: Release)
    ensures Newer(a, b) <==> SortsBefore(SortColumns(a), SortColumns(b))
  {
    var s, t := SortColumns(a), SortColumns(b);
    if Newer(a, b) {
      var i := if s[0] != t[0] then 0 else if s[1] != t[1] then 1 else if s[2] != t[2] then 2
               else if s[3] != t[3] then 3 else 4;
      assert s[i] < t[i] && forall j :: 0 <= j < i ==> s[j] == t[j];
    }
  }

  ghost predicate IsOf(r: Release, platform: string, channel: string, arch: string) {
    r.platform == platform && r.channel == channel && r.arch == arch
  }

  /** The first row of the key in the order of the query. */
  ghost predicate IsNewest(releases: seq<Release>, platform: string, channel: string, arch: string, r: Release) {
    && r in releases && IsOf(r, platform, channel, arch)
    && forall other :: other in releases && IsOf(other, platform, channel, arch) && other != r ==>
         SortsBefore(SortColumns(r), SortColumns(other))
  }

  lemma {:induction false} NewestExactIff(releases: seq<Release>, k: Key, r: Release)
    requires DistinctIds(releases)
    ensures NewestExact(releases, k) == Some(r) <==> IsNewest(releases, k.platform, k.channel, k.arch, r)
  {
    hide DistinctIds, Newer, SortsBefore, SortColumns;
    if r in releases && KeyOf(r) == k {
      NewestIsUnique(releases, k, r);
      forall other ensures Newer(r, other) <==> SortsBefore(SortColumns(r), SortColumns(other)) {
        NewerIsSortedBefore(r, other);
      }
    }
  }

  lemma {:induction false} NewestFollowsFallback(t: Tables, k: Key)
    requires NormalizeKey(k.platform, k.channel, k.arch) == Ok(k)
    ensures NewestFor(t, k.platform, k.channel, k.arch)
         == match Fallback((c, a) => NewestExact(t.releases, Key(k.platform, c, a)), k.channel, k.arch)
            case Some(r) => Ok(r)
            case None => Err(NotFound)
  {
    hide NormalizeKey, NewestExact, LookupKeys, First;
    var at := x => NewestExact(t.releases, x);
    LookupFollowsFallback(at, k);
    var keys := LookupKeys(k);
    assert seq(|keys|, i requires 0 <= i < |keys| => NewestExact(t.releases, keys[i])) == Each(at, keys);
    FallbackAlike((c, a) => at(Key(k.platform, c, a)), (c, a) => NewestExact(t.releases, Key(k.platform, c, a)),
                  k.channel, k.arch);
  }

  ghost predicate HasNone(releases: seq<Release>, platform: string, channel: string, arch: string) {
    forall r :: r in releases ==> !IsOf(r, platform, channel, arch)
  }

  lemma {:induction false} NewestAsRows(releases: seq<Release>, k: Key, r: Release)
    requires DistinctIds(releases)
    ensures NewestExact(releases, k) == None <==> HasNone(releases, k.platform, k.channel, k.arch)
    ensures NewestExact(releases, k) == Some(r) <==> IsNewest(releases, k.platform, k.channel, k.arch, r)
  {
    NewestExactIff(releases, k, r);
    hide IsNewest, DistinctIds;
    assert forall other :: KeyOf(other) == k <==> IsOf(other, k.platform, k.channel, k.arch);
  }

  /** The newest row of the nearest key that has any row is found. */
  lemma {:induction false} NearestRowsWin(t: Tables, platform: string, channel: string, arch: string, r: Release)
    requires DistinctIds(t.releases)
    requires NormalizeKey(platform, channel, arch) == Ok(Key(platform, channel, arch))
    ensures NewestFor(t, platform, channel, arch) == Ok(r)
       <==> || IsNewest(t.releases, platform, channel, arch, r)
            || (&& HasNone(t.releases, platform, channel, arch)
                && (|| IsNewest(t.releases, platform, channel, "universal", r)
                    || (&& HasNone(t.releases, platform, channel, "universal")
                        && (|| IsNewest(t.releases, platform, "stable", arch, r)
                            || (&& HasNone(t.releases, platform, "stable", arch)
                                && IsNewest(t.releases, platform, "stable", "universal", r))))))
  {
    NewestFollowsFallback(t, Key(platform, channel, arch));
    hide NormalizeKey, NewestExact, IsNewest, HasNone, DistinctIds, NewestFor;
    NewestAsRows(t.releases, Key(platform, channel, arch), r);
    NewestAsRows(t.releases, Key(platform, channel, "universal"), r);
    NewestAsRows(t.releases, Key(platform, "stable", arch), r);
    NewestAsRows(t.releases, Key(platform, "stable", "universal"), r);
  }

  // ---------- Names of lookups ----------

  /** Names are normalised first, and a lookup under unknown names finds nothing. */
  lemma {:induction false} LookupsNormalize(t: Tables, platform: string, channel: string, arch: string)
    ensures match NormalizeKey(platform, channel, arch)
            case Ok(k) =>
              && LatestFor(t, platform, channel, arch) == LatestFor(t, k.platform, k.channel, k.arch)
              && NewestFor(t, platform, channel, arch) == NewestFor(t, k.platform, k.channel, k.arch)
            case Err(e) =>
              LatestFor(t, platform, channel, arch) == Err(e) && NewestFor(t, platform, channel, arch) == Err(e)
  {
    NormalizingIsIdempotent(platform, channel, arch);
    hide NormalizeKey, LatestAt, NewestAt;
  }

  // ---------- Files ----------

  /** The manifest a file gives a reader, if it gives one. */
  function Loaded(files: map<Path, File>, site: Site, base: string, k: Key, path: Path): Option<Manifest> {
    match LoadAt(files, site, base, k, path)
    case Ok(m) => Some(m)
    case Err(_) => None
  }

  /** The file of the platform alone, and for Windows the one named `pc` behind it. */
  function HomeFile(files: map<Path, File>, site: Site, base: string, k: Key): Result<Manifest, LoadError> {
    var home := LoadAt(files, site, base, k, [k.platform]);
    if home.Ok? || k.platform != "windows" then home else LoadAt(files, site, base, k, ["pc"])
  }

  lemma {:induction false} LoadsOfKeys(files: map<Path, File>, site: Site, base: string, k: Key, keys: seq<Key>)
    ensures Loads(files, site, base, k, AllPaths(keys)) == Each(x => Loaded(files, site, base, k, PathOf(x)), keys)
  {
    hide LoadAt, PathOf;
  }

  lemma {:induction false} KeyedFilesFollowFallback(files: map<Path, File>, site: Site, base: string, k: Key)
    ensures First(Loads(files, site, base, k, AllPaths(LookupKeys(k))))
         == Fallback((c, a) => Loaded(files, site, base, k, [k.platform, c, a]), k.channel, k.arch)
  {
    hide LookupKeys, First, Loaded, Fallback, Loads, AllPaths, Each;
    var at := x => Loaded(files, site, base, k, PathOf(x));
    LoadsOfKeys(files, site, base, k, LookupKeys(k));
    LookupFollowsFallback(at, k);
    FallbackAlike((c, a) => at(Key(k.platform, c, a)), (c, a) => Loaded(files, site, base, k, [k.platform, c, a]),
                  k.channel, k.arch);
  }

  lemma {:induction false} UniqueBehind<T(!new)>(front: seq<T>, back: seq<T>)
    requires forall i, j :: 0 <= i < j < |back| ==> back[i] != back[j]
    requires forall x :: x in back ==> x !in front
    ensures Unique(front + back) == Unique(front) + back
  {
    if back == [] {
      assert front + back == front;
    } else {
      UniqueBehind(front, Init(back));
      assert Init(front + back) == front + Init(back);
      assert Last(back) !in Init(back);
    }
  }

  /** Where nothing in front loads, the rest is tried as if it stood alone, with another error so far. */
  lemma {:induction false} LoadFirstBehind(files: map<Path, File>, site: Site, base: string, k: Key, front: seq<Path>,
        back: seq<Path>, last: LoadError) returns (e: LoadError)
    requires forall i :: 0 <= i < |front| ==> LoadAt(files, site, base, k, front[i]).Err?
    ensures LoadFirst(files, site, base, k, front + back, last) == LoadFirst(files, site, base, k, back, e)
    decreases |front|
  {
    hide LoadAt;
    if front == [] {
      assert front + back == back;
      e := last;
    } else {
      assert (front + back)[1..] == front[1..] + back;
      e := LoadFirstBehind(files, site, base, k, front[1..], back, LoadAt(files, site, base, k, front[0]).error);
    }
  }

  lemma {:induction false} NoneOfKeyed(files: map<Path, File>, site: Site, base: string, k: Key)
    requires First(Loads(files, site, base, k, AllPaths(LookupKeys(k)))) == None
    ensures forall p :: p in [PathOf(k)] + AllPaths(LookupKeys(k)) ==> LoadAt(files, site, base, k, p).Err?
  {
    LookupStartsAtKey(k);
    hide LookupKeys, LoadAt;
    var paths := AllPaths(LookupKeys(k));
    assert paths[0] == PathOf(k);
    forall i | 0 <= i < |paths| ensures LoadAt(files, site, base, k, paths[i]).Err? {
      assert Loads(files, site, base, k, paths)[i] == None;
    }
  }

  lemma {:induction false} LoadFirstOfOne(files: map<Path, File>, site: Site, base: string, k: Key, path: Path,
        e: LoadError)
    ensures LoadFirst(files, site, base, k, [path], e) == LoadAt(files, site, base, k, path)
  {
    hide LoadAt;
    assert [path][1..] == [];
  }

  lemma {:induction false} HomeFilesLoad(files: map<Path, File>, site: Site, base: string, k: Key, e: LoadError)
    ensures LoadFirst(files, site, base, k, HomePaths(k.platform), e) == HomeFile(files, site, base, k)
  {
    hide LoadAt;
    var home := LoadAt(files, site, base, k, [k.platform]);
    LoadFirstOfOne(files, site, base, k, [k.platform], e);
    if k.platform == WINDOWS {
      assert HomePaths(k.platform)[1..] == [["pc"]];
      if home.Err? {
        LoadFirstOfOne(files, site, base, k, ["pc"], home.error);
      }
    }
  }

  lemma {:induction false} CandidatesAreUnique(k: Key)
    ensures Unique(CandidatePaths(k)) == Unique([PathOf(k)] + AllPaths(LookupKeys(k))) + HomePaths(k.platform)
  {
    hide LookupKeys;
    var front := [PathOf(k)] + AllPaths(LookupKeys(k));
    var back := HomePaths(k.platform);
    assert forall p :: p in front ==> |p| == 3;
    assert k.platform == WINDOWS ==> |back[0][0]| != |back[1][0]|;
    UniqueBehind(front, back);
    hide Unique;
    assert CandidatePaths(k) == front + back;
  }

  /** Where no file of a key loads, the home files decide. */
  lemma {:induction false} HomeFilesDecide(files: map<Path, File>, site: Site, base: string, k: Key)
    requires forall p :: p in [PathOf(k)] + AllPaths(LookupKeys(k)) ==> LoadAt(files, site, base, k, p).Err?
    ensures LoadFile(files, site, base, k) == HomeFile(files, site, base, k)
  {
    hide LookupKeys, AllPaths, LoadAt, PathOf, CandidatePaths, HomePaths, HomeFile, LoadFirst;
    CandidatesAreUnique(k);
    var front := Unique([PathOf(k)] + AllPaths(LookupKeys(k)));
    hide Unique;
    assert forall i :: 0 <= i < |front| ==> front[i] in front;
    var e := LoadFirstBehind(files, site, base, k, front, HomePaths(k.platform), Missing);
    HomeFilesLoad(files, site, base, k, e);
  }

  /**
   The manifest files are tried in the same fallback order, then the file of the platform alone, and for Windows the
   one named `pc`. If none loads, the answer is the error of the last one tried.
   */
  lemma {:induction false} FilesFollowFallback(files: map<Path, File>, site: Site, base: string, k: Key)
    ensures LoadFile(files, site, base, k)
         == match Fallback((c, a) => Loaded(files, site, base, k, [k.platform, c, a]), k.channel, k.arch)
            case Some(m) => Ok(m)
            case None => HomeFile(files, site, base, k)
  {
    hide LookupKeys, Loaded, First, AllPaths, Fallback, LoadFile, HomeFile, LoadAt, PathOf, Loads;
    KeyedFilesFollowFallback(files, site, base, k);
    if First(Loads(files, site, base, k, AllPaths(LookupKeys(k)))).Some? {
      LoadFileSearchesKeys(files, site, base, k);
    } else {
      NoneOfKeyed(files, site, base, k);
      HomeFilesDecide(files, site, base, k);
    }
  }

  /** A pointed release is answered before the newest row, and either before any file. */
  lemma {:induction false} PointersComeFirst(t: Tables, files: map<Path, File>, site: Site, base: string, k: Key)
    requires NormalizeKey(k.platform, k.channel, k.arch) == Ok(k)
    ensures var latest := LatestFor(t, k.platform, k.channel, k.arch);
            var newest := NewestFor(t, k.platform, k.channel, k.arch);
            && (latest.Ok? ==> Load(t, files, site, base, k) == Ok(ReleaseManifest(site, base, latest.value)))
            && (latest.Err? && newest.Ok? ==>
                  Load(t, files, site, base, k) == Ok(ReleaseManifest(site, base, newest.value)))
            && (latest.Err? && newest.Err? ==> Load(t, files, site, base, k) == LoadFile(files, site, base, k))
  {
    hide NormalizeKey, LatestAt, NewestAt, LookupKeys, LoadFile, ReleaseManifest;
  }
}
