/**
 The release tables: normalised names, creating drafts, publishing one release per key, and the lookups
 behind the update endpoints.
 */
module Releases {
  import opened Prelude
  import opened GoStrings

  const ANDROID := "android"
  const WINDOWS := "windows"
  const STABLE := "stable"
  const BETA := "beta"
  const INTERNAL := "internal"
  const UNIVERSAL := "universal"
  const OPTIONAL := "optional"
  const RECOMMENDED := "recommended"
  const REQUIRED := "required"
  const DRAFT := "draft"
  const PUBLISHED := "published"

  datatype Release = Release(
    id: int,
    platform: string,
    channel: string,
    arch: string,
    version: string,
    versionCode: int,
    minSupportedVersionCode: int,
    updateLevel: string,
    title: string,
    filename: string,
    storagePath: string,
    storageKey: string,
    fileSize: int,
    sha256: string,
    mimeType: string,
    downloadUrl: string,
    publicDownloadUrl: string,
    changelog: string,
    status: string,
    publishedAt: Option<int>,
    createdAt: int)

  /** What a caller asks to create: a release without the columns the store fills in. */
  datatype Draft = Draft(
    platform: string,
    channel: string,
    arch: string,
    version: string,
    versionCode: int,
    minSupportedVersionCode: int,
    updateLevel: string,
    title: string,
    filename: string,
    storagePath: string,
    storageKey: string,
    fileSize: int,
    sha256: string,
    mimeType: string,
    downloadUrl: string,
    publicDownloadUrl: string,
    changelog: string)

  datatype Key = Key(platform: string, channel: string, arch: string)

  /** The release rows, and the pointer table from key to release id. */
  datatype Tables = Tables(releases: seq<Release>, latest: map<Key, int>)

  datatype ReleaseError =
    | BadPlatform | BadChannel | BadArch | BadUpdateLevel | NoVersion | BadVersionCode | BadMinimum
    | NoFile | EmptyFile | NoDigest | PathTaken | NotFound

  function KeyOf(r: Release): Key {
    Key(r.platform, r.channel, r.arch)
  }

  // ---------- Names ----------

  function NormalizePlatform(platform: string): Option<string> {
    var s := ToLower(TrimSpace(platform));
    if s == ANDROID then Some(ANDROID)
    else if s == WINDOWS || s == "pc" || s == "desktop" || s == "win" then Some(WINDOWS)
    else None
  }

  function NormalizeChannel(channel: string): Option<string> {
    var s := ToLower(TrimSpace(channel));
    if s == "" || s == STABLE then Some(STABLE)
    else if s == BETA then Some(BETA)
    else if s == INTERNAL then Some(INTERNAL)
    else None
  }

  function NormalizeUpdateLevel(level: string): Option<string> {
    var s := ToLower(TrimSpace(level));
    if s == "" || s == OPTIONAL then Some(OPTIONAL)
    else if s == RECOMMENDED || s == "recommend" then Some(RECOMMENDED)
    else if s == REQUIRED || s == "force" || s == "forced" then Some(REQUIRED)
    else None
  }

  function NormalizeArch(platform: string, arch: string): Option<string> {
    var s := ToLower(TrimSpace(arch));
    match NormalizePlatform(platform)
    case None => None
    case Some(p) =>
      if s == "" || s == UNIVERSAL then Some(UNIVERSAL)
      else if p == ANDROID then
        if s == "arm64-v8a" || s == "arm64" then Some("arm64-v8a")
        else if s == "armeabi-v7a" || s == "armv7" || s == "armeabi" then Some("armeabi-v7a")
        else if s == "x86_64" || s == "x64" then Some("x86_64")
        else None
      else
        if s == "win-x64" || s == "x64" || s == "x86_64" || s == "amd64" then Some("win-x64")
        else if s == "win-arm64" || s == "arm64" || s == "aarch64" then Some("win-arm64")
        else None
  }

  function NormalizeKey(platform: string, channel: string, arch: string): Result<Key, ReleaseError> {
    match NormalizePlatform(platform)
    case None => Err(BadPlatform)
    case Some(p) =>
      match NormalizeChannel(channel)
      case None => Err(BadChannel)
      case Some(c) =>
        match NormalizeArch(p, arch)
        case None => Err(BadArch)
        case Some(a) => Ok(Key(p, c, a))
  }

  predicate NormalKey(k: Key) {
    && NormalizePlatform(k.platform) == Some(k.platform)
    && NormalizeChannel(k.channel) == Some(k.channel)
    && NormalizeArch(k.platform, k.arch) == Some(k.arch)
  }

  lemma {:induction false} PlainNames()
    ensures Plain(ANDROID) && Plain(WINDOWS)
    ensures Plain(STABLE) && Plain(BETA) && Plain(INTERNAL)
    ensures Plain(UNIVERSAL)
  {
  }

  lemma {:induction false} PlainLevels()
    ensures Plain(OPTIONAL) && Plain(RECOMMENDED) && Plain(REQUIRED)
  {
  }

  lemma {:induction false} PlainArchs()
    ensures Plain("arm64-v8a") && Plain("armeabi-v7a") && Plain("x86_64") && Plain("win-x64") && Plain("win-arm64")
  {
  }

  lemma {:induction false} PlatformIsFixed(platform: string)
    ensures NormalizePlatform(platform).Some? ==>
              NormalizePlatform(NormalizePlatform(platform).value) == NormalizePlatform(platform)
  {
    PlainNames();
    hide ToLower, TrimSpace, Plain;
    PlainIsFixed(ANDROID);
    PlainIsFixed(WINDOWS);
  }

  lemma {:induction false} ChannelIsFixed(channel: string)
    ensures NormalizeChannel(channel).Some? ==>
              NormalizeChannel(NormalizeChannel(channel).value) == NormalizeChannel(channel)
  {
    PlainNames();
    hide ToLower, TrimSpace, Plain;
    PlainIsFixed(STABLE);
    PlainIsFixed(BETA);
    PlainIsFixed(INTERNAL);
  }

  lemma {:induction false} UpdateLevelIsFixed(level: string)
    ensures NormalizeUpdateLevel(level).Some? ==>
              NormalizeUpdateLevel(NormalizeUpdateLevel(level).value) == NormalizeUpdateLevel(level)
  {
    PlainLevels();
    hide ToLower, TrimSpace, Plain;
    PlainIsFixed(OPTIONAL);
    PlainIsFixed(RECOMMENDED);
    PlainIsFixed(REQUIRED);
  }

  lemma {:induction false} ArchIsFixed(platform: string, arch: string)
    ensures NormalizeArch(platform, arch).Some? ==>
              NormalizeArch(platform, NormalizeArch(platform, arch).value) == NormalizeArch(platform, arch)
  {
    PlainNames();
    PlainArchs();
    hide ToLower, TrimSpace, Plain, NormalizePlatform;
    PlainIsFixed(UNIVERSAL);
    PlainIsFixed("arm64-v8a");
    PlainIsFixed("armeabi-v7a");
    PlainIsFixed("x86_64");
    PlainIsFixed("win-x64");
    PlainIsFixed("win-arm64");
  }

  /** Normalising names a second time changes nothing. */
  lemma {:induction false} NormalizingIsIdempotent(platform: string, channel: string, arch: string)
    ensures var k := NormalizeKey(platform, channel, arch);
            k.Ok? ==> NormalKey(k.value) && NormalizeKey(k.value.platform, k.value.channel, k.value.arch) == k
  {
    PlatformIsFixed(platform);
    ChannelIsFixed(channel);
    match NormalizePlatform(platform) {
      case None =>
      case Some(p) => ArchIsFixed(p, arch);
    }
    hide NormalizePlatform, NormalizeChannel, NormalizeArch;
  }

  // ---------- Creating ----------

  predicate PathIsTaken(releases: seq<Release>, path: string) {
    exists i :: 0 <= i < |releases| && releases[i].storagePath == path
  }

  function Created(releases: seq<Release>, d: Draft, id: int, now: int): Result<Release, ReleaseError> {
    match NormalizeKey(d.platform, d.channel, d.arch)
    case Err(e) => Err(e)
    case Ok(k) =>
      var level := NormalizeUpdateLevel(d.updateLevel);
      var path, key := TrimSpace(d.storagePath), TrimSpace(d.storageKey);
      if level == None then Err(BadUpdateLevel)
      else if TrimSpace(d.version) == "" then Err(NoVersion)
      else if d.versionCode <= 0 then Err(BadVersionCode)
      else if d.minSupportedVersionCode < 0 then Err(BadMinimum)
      else if TrimSpace(d.filename) == "" || path == "" then Err(NoFile)
      else if d.fileSize <= 0 then Err(EmptyFile)
      else if TrimSpace(d.sha256) == "" then Err(NoDigest)
      else if PathIsTaken(releases, path) then Err(PathTaken)
      else
        Ok(Release(
             id, k.platform, k.channel, k.arch, TrimSpace(d.version), d.versionCode, d.minSupportedVersionCode,
             level.value, TrimSpace(d.title), TrimSpace(d.filename), path, if key == "" then path else key,
             d.fileSize, TrimSpace(d.sha256), TrimSpace(d.mimeType), TrimSpace(d.downloadUrl),
             TrimSpace(d.publicDownloadUrl), TrimSpace(d.changelog), DRAFT, None, now))
  }

  /** What every stored release satisfies. */
  predicate WellFormed(r: Release) {
    && NormalKey(KeyOf(r))
    && NormalizeUpdateLevel(r.updateLevel) == Some(r.updateLevel)
    && r.version != "" && Trimmed(r.version)
    && r.versionCode > 0
    && r.minSupportedVersionCode >= 0
    && r.storagePath != "" && Trimmed(r.storagePath)
    && r.storageKey != ""
    && Trimmed(r.title)
    && Trimmed(r.publicDownloadUrl)
  }

  lemma {:induction false} CreatedIsWellFormed(releases: seq<Release>, d: Draft, id: int, now: int)
    ensures Created(releases, d, id, now).Ok? ==> WellFormed(Created(releases, d, id, now).value)
  {
    NormalizingIsIdempotent(d.platform, d.channel, d.arch);
    UpdateLevelIsFixed(d.updateLevel);
    TrimSpaceTrims(d.version);
    TrimSpaceTrims(d.storagePath);
    TrimSpaceTrims(d.title);
    TrimSpaceTrims(d.publicDownloadUrl);
    hide NormalizeKey, NormalizeUpdateLevel, NormalKey, TrimSpace, PathIsTaken;
  }

  /** Reading a row back normalises it again and fills in a missing storage key. */
  function Scanned(r: Release): Release {
    var platform := NormalizePlatform(r.platform);
    var channel := NormalizeChannel(r.channel);
    var level := NormalizeUpdateLevel(r.updateLevel);
    var p := if platform.Some? then platform.value else "";
    var arch := NormalizeArch(p, r.arch);
    r.(platform := p,
       channel := if channel.Some? then channel.value else "",
       arch := if arch.Some? then arch.value else "",
       updateLevel := if level.Some? then level.value else "",
       storageKey := if r.storageKey == "" then r.storagePath else r.storageKey)
  }

  /** A row that was created through the store is read back as it was written. */
  lemma {:induction false} ScanKeepsCreated(releases: seq<Release>, d: Draft, id: int, now: int)
    ensures Created(releases, d, id, now).Ok? ==>
              Scanned(Created(releases, d, id, now).value) == Created(releases, d, id, now).value
  {
    CreatedIsWellFormed(releases, d, id, now);
    hide Created, NormalizePlatform, NormalizeChannel, NormalizeArch, NormalizeUpdateLevel;
  }

  // ---------- Publishing ----------

  function Find(releases: seq<Release>, id: int): (r: Option<Release>)
    ensures r.Some? ==> r.value in releases && r.value.id == id
    ensures r == None ==> forall i :: 0 <= i < |releases| ==> releases[i].id != id
  {
    if releases == [] then None
    else if Last(releases).id == id then Some(Last(releases))
    else Find(Init(releases), id)
  }

  function Marked(r: Release, id: int, k: Key, now: int): Release {
    if KeyOf(r) != k then r
    else if r.id == id then r.(status := PUBLISHED, publishedAt := Some(now))
    else r.(status := DRAFT)
  }

  function MarkAll(releases: seq<Release>, id: int, k: Key, now: int): (r: seq<Release>)
    ensures |r| == |releases|
  {
    seq(|releases|, i requires 0 <= i < |releases| => Marked(releases[i], id, k, now))
  }

  function Published(t: Tables, id: int, now: int): Result<Tables, ReleaseError> {
    match Find(t.releases, id)
    case None => Err(NotFound)
    case Some(r) =>
      Ok(Tables(MarkAll(t.releases, id, KeyOf(r), now), t.latest[KeyOf(r) := id]))
  }

  // ---------- Lookups ----------

  function Unique<T(==,!new)>(s: seq<T>): (r: seq<T>)
    ensures forall x :: x in r <==> x in s
  {
    if s == [] then []
    else
      var rest := Unique(Init(s));
      assert s == Init(s) + [Last(s)];
      if Last(s) in rest then rest else rest + [Last(s)]
  }

  /** The fallback order: the key itself, its universal build, its stable build, and the stable universal one. */
  function LookupKeys(k: Key): seq<Key> {
    Unique([k, Key(k.platform, k.channel, UNIVERSAL),
            Key(k.platform, STABLE, k.arch), Key(k.platform, STABLE, UNIVERSAL)])
  }

  function First<T>(found: seq<Option<T>>): (r: Option<T>)
    ensures r.Some? ==> r in found
    ensures r == None <==> forall i :: 0 <= i < |found| ==> found[i] == None
  {
    if found == [] then None
    else if found[0].Some? then found[0]
    else First(found[1..])
  }

  function LatestExact(t: Tables, k: Key): Option<Release> {
    if k in t.latest then Find(t.releases, t.latest[k]) else None
  }

  function LatestEach(t: Tables, keys: seq<Key>): (found: seq<Option<Release>>)
    ensures |found| == |keys| && forall i :: 0 <= i < |keys| ==> found[i] == LatestExact(t, keys[i])
  {
    seq(|keys|, i requires 0 <= i < |keys| => LatestExact(t, keys[i]))
  }

  function LatestAt(t: Tables, keys: seq<Key>): Option<Release> {
    First(LatestEach(t, keys))
  }

  function LatestFor(t: Tables, platform: string, channel: string, arch: string): Result<Release, ReleaseError> {
    match NormalizeKey(platform, channel, arch)
    case Err(e) => Err(e)
    case Ok(k) =>
      match LatestAt(t, LookupKeys(k))
      case None => Err(NotFound)
      case Some(r) => Ok(r)
  }

  function PublishRank(r: Release): int {
    if r.status == PUBLISHED then 0 else 1
  }

  function StampOf(r: Release): int {
    if r.publishedAt.Some? then r.publishedAt.value else r.createdAt
  }

  /** The order the newest release is picked by: version code, published first, then time, then id. */
  predicate Newer(a: Release, b: Release) {
    || a.versionCode > b.versionCode
    || (a.versionCode == b.versionCode &&
        (|| PublishRank(a) < PublishRank(b)
         || (PublishRank(a) == PublishRank(b) &&
             (|| StampOf(a) > StampOf(b)
              || (StampOf(a) == StampOf(b) &&
                  (a.createdAt > b.createdAt || (a.createdAt == b.createdAt && a.id > b.id)))))))
  }

  function NewestExact(releases: seq<Release>, k: Key): (r: Option<Release>)
    ensures r.Some? ==> r.value in releases && KeyOf(r.value) == k
    ensures r.Some? ==> forall other :: other in releases && KeyOf(other) == k ==> !Newer(other, r.value)
    ensures r == None <==> forall other :: other in releases ==> KeyOf(other) != k
  {
    if releases == [] then None
    else
      var best := NewestExact(Init(releases), k);
      assert releases == Init(releases) + [Last(releases)];
      if KeyOf(Last(releases)) != k then best
      else if best == None || Newer(Last(releases), best.value) then Some(Last(releases))
      else best
  }

  function NewestAt(t: Tables, keys: seq<Key>): Option<Release> {
    First(seq(|keys|, i requires 0 <= i < |keys| => NewestExact(t.releases, keys[i])))
  }

  function NewestFor(t: Tables, platform: string, channel: string, arch: string): Result<Release, ReleaseError> {
    match NormalizeKey(platform, channel, arch)
    case Err(e) => Err(e)
    case Ok(k) =>
      match NewestAt(t, LookupKeys(k))
      case None => Err(NotFound)
      case Some(r) => Ok(r)
  }

  // ---------- Properties of lookups ----------

  lemma {:induction false} FirstIsEarliest<T>(found: seq<Option<T>>, i: nat)
    requires i < |found| && found[i].Some?
    requires forall j :: 0 <= j < i ==> found[j] == None
    ensures First(found) == found[i]
  {
    if i > 0 {
      FirstIsEarliest(found[1..], i - 1);
    }
  }

  lemma {:induction false} FirstHasPlace<T>(found: seq<Option<T>>) returns (i: nat)
    requires First(found).Some?
    ensures i < |found| && found[i] == First(found)
    ensures forall j :: 0 <= j < i ==> found[j] == None
  {
    if found[0].Some? {
      i := 0;
    } else {
      i := FirstHasPlace(found[1..]);
      i := i + 1;
      forall j | 0 <= j < i ensures found[j] == None {
        if j > 0 {
          assert found[j] == found[1..][j - 1];
        }
      }
    }
  }

  predicate DistinctIds(releases: seq<Release>) {
    forall i, j :: 0 <= i < j < |releases| ==> releases[i].id != releases[j].id
  }

  lemma {:induction false} IdsDiffer(releases: seq<Release>, a: Release, b: Release)
    requires DistinctIds(releases) && a in releases && b in releases
    ensures a.id == b.id <==> a == b
  {
    var i :| 0 <= i < |releases| && releases[i] == a;
    var j :| 0 <= j < |releases| && releases[j] == b;
    assert i < j || j < i || i == j;
  }

  /** The order is total on releases with different ids, so exactly one release is the newest. */
  lemma {:induction false} NewerIsTotal(a: Release, b: Release, c: Release)
    ensures a.id != b.id ==> (Newer(a, b) <==> !Newer(b, a))
    ensures Newer(a, b) && Newer(b, c) ==> Newer(a, c)
    ensures !Newer(a, a)
  {
  }

  /** The release picked is the one that comes before every other release of its key. */
  lemma {:induction false} NewestIsUnique(releases: seq<Release>, k: Key, r: Release)
    requires DistinctIds(releases)
    requires r in releases && KeyOf(r) == k
    ensures NewestExact(releases, k) == Some(r)
       <==> forall other :: other in releases && KeyOf(other) == k && other != r ==> Newer(r, other)
  {
    var picked := NewestExact(releases, k).value;
    if picked == r {
      forall other | other in releases && KeyOf(other) == k && other != r ensures Newer(r, other) {
        IdsDiffer(releases, r, other);
        NewerIsTotal(r, other, r);
      }
    } else {
      assert picked in releases && KeyOf(picked) == k && !Newer(r, picked);
    }
  }

  lemma {:induction false} FindsOwnId(releases: seq<Release>, r: Release)
    requires DistinctIds(releases) && r in releases
    ensures Find(releases, r.id) == Some(r)
  {
    IdsDiffer(releases, r, Find(releases, r.id).value);
  }

  // ---------- Runs ----------

  datatype Event =
    | Create(draft: Draft, id: int, now: int)
    | Publish(id: int, now: int)

  /** The database hands out ids no release has. */
  predicate IdIsFree(releases: seq<Release>, id: int) {
    forall i :: 0 <= i < |releases| ==> releases[i].id != id
  }

  function Step(t: Tables, e: Event): Tables {
    match e
    case Create(d, id, now) =>
      if IdIsFree(t.releases, id) && Created(t.releases, d, id, now).Ok?
      then t.(releases := t.releases + [Created(t.releases, d, id, now).value])
      else t
    case Publish(id, now) =>
      if Published(t, id, now).Ok? then Published(t, id, now).value else t
  }

  /** What every run keeps: sound rows, and a pointer to a release of its own key. */
  ghost predicate Sound(t: Tables) {
    && DistinctIds(t.releases)
    && (forall i :: 0 <= i < |t.releases| ==> WellFormed(t.releases[i]))
    && (forall k :: k in t.latest ==>
          exists i :: 0 <= i < |t.releases| && t.releases[i].id == t.latest[k] && KeyOf(t.releases[i]) == k)
    && (forall i :: 0 <= i < |t.releases| ==> t.releases[i].status == DRAFT || t.releases[i].status == PUBLISHED)
  }

  /** A release is published exactly when the pointer of its key names it. */
  ghost predicate PointersMatch(t: Tables) {
    forall i :: 0 <= i < |t.releases| ==>
      (t.releases[i].status == PUBLISHED
       <==> KeyOf(t.releases[i]) in t.latest && t.latest[KeyOf(t.releases[i])] == t.releases[i].id)
  }

  lemma {:induction false} DraftIsNotPublished()
    ensures DRAFT != PUBLISHED
  {
    assert |DRAFT| != |PUBLISHED|;
  }

  lemma {:induction false} CreatedIsDraft(releases: seq<Release>, d: Draft, id: int, now: int)
    ensures Created(releases, d, id, now).Ok? ==>
              Created(releases, d, id, now).value.status == DRAFT && Created(releases, d, id, now).value.id == id
  {
    hide TrimSpace, NormalizeKey, NormalizeUpdateLevel, PathIsTaken;
  }

  lemma {:induction false} CreateKeepsSound(t: Tables, d: Draft, id: int, now: int)
    requires Sound(t) && PointersMatch(t)
    ensures Sound(Step(t, Create(d, id, now))) && PointersMatch(Step(t, Create(d, id, now)))
  {
    CreatedIsWellFormed(t.releases, d, id, now);
    DraftIsNotPublished();
    CreatedIsDraft(t.releases, d, id, now);
    hide WellFormed, Created;
    var after := Step(t, Create(d, id, now));
    if after != t {
      assert forall i :: 0 <= i < |t.releases| ==> after.releases[i] == t.releases[i];
      forall k | k in t.latest
        ensures exists i :: 0 <= i < |after.releases| &&
                  after.releases[i].id == t.latest[k] && KeyOf(after.releases[i]) == k
      {
        var i :| 0 <= i < |t.releases| && t.releases[i].id == t.latest[k] && KeyOf(t.releases[i]) == k;
        assert after.releases[i] == t.releases[i];
      }
    }
  }

  /** How a publication relates a row before and after: what it keeps, and whether it ends up published. */
  ghost predicate Remarked(r: Release, s: Release, own: Key, id: int) {
    && s.id == r.id
    && KeyOf(s) == KeyOf(r)
    && (WellFormed(r) ==> WellFormed(s))
    && (r.status == DRAFT || r.status == PUBLISHED ==> s.status == DRAFT || s.status == PUBLISHED)
    && (s.status == PUBLISHED <==> if KeyOf(r) == own then r.id == id else r.status == PUBLISHED)
  }

  lemma {:induction false} MarkedIsRemarked(r: Release, id: int, k: Key, now: int)
    ensures Remarked(r, Marked(r, id, k, now), k, id)
  {
    DraftIsNotPublished();
    hide NormalKey, NormalizeUpdateLevel, Trimmed;
  }

  lemma {:induction false} PublishMarks(t: Tables, id: int, now: int, i: nat)
    requires i < |t.releases| && Find(t.releases, id).Some?
    ensures var own := KeyOf(Find(t.releases, id).value);
            var after := Step(t, Publish(id, now));
            && after.latest == t.latest[own := id]
            && |after.releases| == |t.releases|
            && after.releases[i] == Marked(t.releases[i], id, own, now)
  {
  }

  ghost predicate Remarks(t: Tables, after: Tables, own: Key, id: int) {
    && after.latest == t.latest[own := id]
    && |after.releases| == |t.releases|
    && (forall i :: 0 <= i < |t.releases| ==> Remarked(t.releases[i], after.releases[i], own, id))
  }

  lemma {:induction false} PublishRemarks(t: Tables, id: int, now: int)
    requires Find(t.releases, id).Some?
    ensures Remarks(t, Step(t, Publish(id, now)), KeyOf(Find(t.releases, id).value), id)
  {
    hide WellFormed, Marked, Find, Remarked;
    var own := KeyOf(Find(t.releases, id).value);
    var after := Step(t, Publish(id, now));
    forall i | 0 <= i < |t.releases|
      ensures Remarked(t.releases[i], after.releases[i], own, id)
    {
      PublishMarks(t, id, now, i);
      MarkedIsRemarked(t.releases[i], id, own, now);
    }
  }

  lemma {:induction false} PointersStay(t: Tables, after: Tables, own: Key, id: int)
    requires Sound(t) && Remarks(t, after, own, id)
    requires exists i :: 0 <= i < |t.releases| && t.releases[i].id == id && KeyOf(t.releases[i]) == own
    ensures forall k :: k in after.latest ==>
              exists i :: 0 <= i < |after.releases| &&
                  after.releases[i].id == after.latest[k] && KeyOf(after.releases[i]) == k
  {
    hide WellFormed;
    forall k | k in after.latest
      ensures exists i :: 0 <= i < |after.releases| &&
                  after.releases[i].id == after.latest[k] && KeyOf(after.releases[i]) == k
    {
      var i :| 0 <= i < |t.releases| && t.releases[i].id == after.latest[k] && KeyOf(t.releases[i]) == k;
      assert after.releases[i].id == after.latest[k];
    }
  }

  lemma {:induction false} RemarksKeepSound(t: Tables, after: Tables, own: Key, id: int)
    requires Sound(t) && Remarks(t, after, own, id)
    requires exists i :: 0 <= i < |t.releases| && t.releases[i].id == id && KeyOf(t.releases[i]) == own
    ensures Sound(after)
  {
    hide WellFormed;
    PointersStay(t, after, own, id);
  }

  lemma {:induction false} RemarksKeepMatch(t: Tables, after: Tables, own: Key, id: int)
    requires PointersMatch(t) && Remarks(t, after, own, id)
    ensures PointersMatch(after)
  {
    hide WellFormed;
    forall i | 0 <= i < |after.releases|
      ensures after.releases[i].status == PUBLISHED
         <==> KeyOf(after.releases[i]) in after.latest && after.latest[KeyOf(after.releases[i])] == after.releases[i].id
    {
      assert KeyOf(after.releases[i]) == KeyOf(t.releases[i]);
    }
  }

  lemma {:induction false} PublishKeepsSound(t: Tables, id: int, now: int)
    requires Sound(t) && PointersMatch(t)
    ensures Sound(Step(t, Publish(id, now))) && PointersMatch(Step(t, Publish(id, now)))
  {
    var found := Find(t.releases, id);
    if found.Some? {
      var place :| 0 <= place < |t.releases| && t.releases[place] == found.value;
      assert exists i :: 0 <= i < |t.releases| && t.releases[i].id == id && KeyOf(t.releases[i]) == KeyOf(found.value);
      hide Sound, PointersMatch, Step, Remarks;
      var after := Step(t, Publish(id, now));
      PublishRemarks(t, id, now);
      RemarksKeepSound(t, after, KeyOf(found.value), id);
      RemarksKeepMatch(t, after, KeyOf(found.value), id);
    }
  }

  function After(t: Tables, events: seq<Event>): Tables {
    if events == [] then t else Step(After(t, Init(events)), Last(events))
  }

  /** After any run of creates and publishes, exactly the pointed releases are published. */
  lemma {:induction false} RunKeepsSound(events: seq<Event>)
    ensures Sound(After(Tables([], map[]), events)) && PointersMatch(After(Tables([], map[]), events))
  {
    if events != [] {
      RunKeepsSound(Init(events));
      hide Sound, PointersMatch, Step;
      var before := After(Tables([], map[]), Init(events));
      match Last(events) {
        case Create(d, id, now) => CreateKeepsSound(before, d, id, now);
        case Publish(id, now) => PublishKeepsSound(before, id, now);
      }
    }
  }

  // ---------- The store ----------

  /** Collects the fallback keys, leaving out a key that is already there. */
  method ReleaseLookupKeys(k: Key) returns (keys: seq<Key>)
    ensures keys == LookupKeys(k)
  {
    var candidates := [
      k, Key(k.platform, k.channel, UNIVERSAL), Key(k.platform, STABLE, k.arch), Key(k.platform, STABLE, UNIVERSAL)
    ];
    keys := [];
    for i := 0 to |candidates|
      invariant keys == Unique(candidates[..i])
    {
      assert Init(candidates[..i + 1]) == candidates[..i];
      if candidates[i] !in keys {
        keys := keys + [candidates[i]];
      }
    }
    assert candidates[..|candidates|] == candidates;
  }

  class ReleaseStore {
    var releases: seq<Release>
    var latest: map<Key, int>

    function Contents(): Tables
      reads this
    {
      Tables(releases, latest)
    }

    constructor ()
      ensures Contents() == Tables([], map[])
    {
      releases, latest := [], map[];
    }

    method CreateAppRelease(d: Draft, id: int, now: int) returns (r: Result<Release, ReleaseError>)
      modifies this`releases
      ensures r == Created(old(releases), d, id, now)
      ensures releases == if r.Ok? then old(releases) + [r.value] else old(releases)
    {
      var platform := NormalizePlatform(d.platform);
      if platform == None {
        return Err(BadPlatform);
      }
      var channel := NormalizeChannel(d.channel);
      if channel == None {
        return Err(BadChannel);
      }
      var arch := NormalizeArch(platform.value, d.arch);
      if arch == None {
        return Err(BadArch);
      }
      var level := NormalizeUpdateLevel(d.updateLevel);
      if level == None {
        return Err(BadUpdateLevel);
      }
      hide NormalizePlatform, NormalizeChannel, NormalizeArch, NormalizeUpdateLevel, TrimSpace;
      if TrimSpace(d.version) == "" {
        return Err(NoVersion);
      }
      if d.versionCode <= 0 {
        return Err(BadVersionCode);
      }
      if d.minSupportedVersionCode < 0 {
        return Err(BadMinimum);
      }
      if TrimSpace(d.filename) == "" || TrimSpace(d.storagePath) == "" {
        return Err(NoFile);
      }
      if d.fileSize <= 0 {
        return Err(EmptyFile);
      }
      if TrimSpace(d.sha256) == "" {
        return Err(NoDigest);
      }
      var storageKey := TrimSpace(d.storageKey);
      if storageKey == "" {
        storageKey := TrimSpace(d.storagePath);
      }
      if PathIsTaken(releases, TrimSpace(d.storagePath)) {
        return Err(PathTaken);
      }
      var release := Release(
        id, platform.value, channel.value, arch.value, TrimSpace(d.version), d.versionCode, d.minSupportedVersionCode,
        level.value, TrimSpace(d.title), TrimSpace(d.filename), TrimSpace(d.storagePath), storageKey, d.fileSize,
        TrimSpace(d.sha256), TrimSpace(d.mimeType), TrimSpace(d.downloadUrl), TrimSpace(d.publicDownloadUrl),
        TrimSpace(d.changelog), DRAFT, None, now);
      releases := releases + [release];
      return Ok(release);
    }

    /** Marks the release and unmarks the others of its key, then moves the pointer; one transaction. */
    method PublishAppRelease(id: int, now: int) returns (r: Result<Release, ReleaseError>)
      modifies this
      ensures var published := Published(old(Contents()), id, now);
              && (r.Ok? <==> published.Ok?)
              && Contents() == (if published.Ok? then published.value else old(Contents()))
              && (r.Ok? ==>
                    && r.value in releases
                    && r.value == Marked(Find(old(releases), id).value, id, KeyOf(r.value), now))
    {
      var row := Find(releases, id);
      if row == None {
        return Err(NotFound);
      }
      var k := KeyOf(row.value);
      ghost var place :| 0 <= place < |releases| && releases[place] == row.value;
      releases := MarkAll(releases, id, k, now);
      latest := latest[k := id];
      assert releases[place] == Marked(row.value, id, k, now);
      return Ok(Marked(row.value, id, k, now));
    }

    method GetLatestAppReleaseFor(platform: string, channel: string, arch: string)
      returns (r: Result<Release, ReleaseError>)
      ensures r == LatestFor(Contents(), platform, channel, arch)
    {
      hide NormalizePlatform, NormalizeChannel, NormalizeArch;
      var k := NormalizeKey(platform, channel, arch);
      if k.Err? {
        return Err(k.error);
      }
      var keys := ReleaseLookupKeys(k.value);
      ghost var t := Contents();
      ghost var found := LatestEach(t, keys);
      for i := 0 to |keys|
        invariant forall j :: 0 <= j < i ==> found[j] == None
      {
        var release := LatestExact(Contents(), keys[i]);
        if release.Some? {
          FirstIsEarliest(found, i);
          return Ok(release.value);
        }
      }
      return Err(NotFound);
    }

    method GetNewestAppReleaseFor(platform: string, channel: string, arch: string)
      returns (r: Result<Release, ReleaseError>)
      ensures r == NewestFor(Contents(), platform, channel, arch)
    {
      hide NormalizePlatform, NormalizeChannel, NormalizeArch;
      var k := NormalizeKey(platform, channel, arch);
      if k.Err? {
        return Err(k.error);
      }
      var keys := ReleaseLookupKeys(k.value);
      ghost var t := Contents();
      ghost var found := seq(|keys|, j requires 0 <= j < |keys| => NewestExact(t.releases, keys[j]));
      for i := 0 to |keys|
        invariant forall j :: 0 <= j < i ==> found[j] == None
      {
        var release := NewestExact(releases, keys[i]);
        if release.Some? {
          FirstIsEarliest(found, i);
          return Ok(release.value);
        }
      }
      return Err(NotFound);
    }
  }
}
