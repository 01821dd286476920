/** What names mean, what creating a release stores, and what publishing one changes. */
module ReleaseEffects {
  import opened Prelude
  import opened GoStrings
  import opened Releases

  // ---------- Names ----------

  /** A name matters without the space around it and the case of its letters. */
  function Clean(name: string): string {
    ToLower(TrimSpace(name))
  }

  predicate IsAndroid(platform: string) {
    Clean(platform) == "android"
  }

  predicate IsWindows(platform: string) {
    Clean(platform) in {"windows", "win", "pc", "desktop"}
  }

  lemma {:induction false} PlatformsAre(platform: string)
    ensures NormalizePlatform(platform) == Some("android") <==> IsAndroid(platform)
    ensures NormalizePlatform(platform) == Some("windows") <==> IsWindows(platform)
    ensures NormalizePlatform(platform) == None <==> !IsAndroid(platform) && !IsWindows(platform)
  {
    hide ToLower, TrimSpace;
    assert |"android"| == |"windows"| && "android"[0] != "windows"[0];
  }

  lemma {:induction false} ChannelsAre(channel: string)
    ensures NormalizeChannel(channel) == Some("stable") <==> Clean(channel) in {"", "stable"}
    ensures NormalizeChannel(channel) == Some("beta") <==> Clean(channel) == "beta"
    ensures NormalizeChannel(channel) == Some("internal") <==> Clean(channel) == "internal"
    ensures NormalizeChannel(channel) == None <==> Clean(channel) !in {"", "stable", "beta", "internal"}
  {
    hide ToLower, TrimSpace;
    assert |"stable"| != |"beta"| && |"stable"| != |"internal"| && |"beta"| != |"internal"|;
  }

  lemma {:induction false} LevelsAre(level: string)
    ensures NormalizeUpdateLevel(level) == Some("optional") <==> Clean(level) in {"", "optional"}
    ensures NormalizeUpdateLevel(level) == Some("recommended") <==> Clean(level) in {"recommended", "recommend"}
    ensures NormalizeUpdateLevel(level) == Some("required") <==> Clean(level) in {"required", "force", "forced"}
    ensures NormalizeUpdateLevel(level) == None
       <==> Clean(level) !in {"", "optional", "recommended", "recommend", "required", "force", "forced"}
  {
    hide ToLower, TrimSpace;
    assert |"optional"| == |"required"| && "optional"[0] != "required"[0] && |"recommended"| != |"required"|;
  }

  /** The spellings of an architecture, which depend on the platform; the universal one is common to both. */
  function Spellings(android: bool, arch: string): set<string> {
    match arch
    case "universal" => {"", "universal"}
    case "arm64-v8a" => if android then {"arm64-v8a", "arm64"} else {}
    case "armeabi-v7a" => if android then {"armeabi-v7a", "armv7", "armeabi"} else {}
    case "x86_64" => if android then {"x86_64", "x64"} else {}
    case "win-x64" => if android then {} else {"win-x64", "x64", "x86_64", "amd64"}
    case "win-arm64" => if android then {} else {"win-arm64", "arm64", "aarch64"}
    case _ => {}
  }

  lemma {:induction false} ArchsAre(platform: string, arch: string, name: string)
    ensures NormalizeArch(platform, arch) == Some(name)
       <==> || (IsAndroid(platform) && Clean(arch) in Spellings(true, name))
            || (IsWindows(platform) && Clean(arch) in Spellings(false, name))
  {
    PlatformsAre(platform);
    hide ToLower, TrimSpace, NormalizePlatform, IsAndroid, IsWindows;
  }

  // ---------- Creating ----------

  /** What a request must give for a release to be created. */
  predicate IsAcceptable(releases: seq<Release>, d: Draft) {
    && NormalizeKey(d.platform, d.channel, d.arch).Ok? && NormalizeUpdateLevel(d.updateLevel).Some?
    && TrimSpace(d.version) != "" && d.versionCode >= 1 && d.minSupportedVersionCode >= 0
    && TrimSpace(d.filename) != "" && TrimSpace(d.storagePath) != ""
    && d.fileSize >= 1 && TrimSpace(d.sha256) != ""
    && forall r :: r in releases ==> r.storagePath != TrimSpace(d.storagePath)
  }

  /** A release is created exactly from an acceptable request. */
  lemma {:induction false} CreatedIff(releases: seq<Release>, d: Draft, id: int, now: int)
    ensures Created(releases, d, id, now).Ok? <==> IsAcceptable(releases, d)
  {
    hide NormalizeKey, NormalizeUpdateLevel, TrimSpace;
  }

  /** The columns of a new row: names normalised, texts trimmed, the path in place of a missing storage key. */
  lemma {:induction false} CreatedShows(releases: seq<Release>, d: Draft, id: int, now: int)
    requires Created(releases, d, id, now).Ok?
    ensures var r := Created(releases, d, id, now).value;
            && r.id == id && r.createdAt == now && r.status == "draft" && r.publishedAt == None
            && Ok(Key(r.platform, r.channel, r.arch)) == NormalizeKey(d.platform, d.channel, d.arch)
            && Some(r.updateLevel) == NormalizeUpdateLevel(d.updateLevel)
            && r.version == TrimSpace(d.version) && r.title == TrimSpace(d.title)
            && r.versionCode == d.versionCode && r.minSupportedVersionCode == d.minSupportedVersionCode
            && r.filename == TrimSpace(d.filename) && r.fileSize == d.fileSize && r.mimeType == TrimSpace(d.mimeType)
            && r.sha256 == TrimSpace(d.sha256) && r.storagePath == TrimSpace(d.storagePath)
            && r.storageKey == TrimSpace(if TrimSpace(d.storageKey) == "" then d.storagePath else d.storageKey)
            && r.downloadUrl == TrimSpace(d.downloadUrl) && r.publicDownloadUrl == TrimSpace(d.publicDownloadUrl)
            && r.changelog == TrimSpace(d.changelog)
  {
    hide NormalizeKey, NormalizeUpdateLevel, TrimSpace, PathIsTaken;
  }

  /** Why a request is refused: the first of its faults, in this order. */
  lemma {:induction false} RefusedFor(releases: seq<Release>, d: Draft, id: int, now: int)
    ensures var named := NormalizeKey(d.platform, d.channel, d.arch).Ok?;
            var levelled := named && NormalizeUpdateLevel(d.updateLevel).Some?;
            var versioned := levelled && TrimSpace(d.version) != "";
            var coded := versioned && d.versionCode > 0;
            var bounded := coded && d.minSupportedVersionCode >= 0;
            var filed := bounded && TrimSpace(d.filename) != "" && TrimSpace(d.storagePath) != "";
            var filled := filed && d.fileSize > 0;
            var digested := filled && TrimSpace(d.sha256) != "";
            var r := Created(releases, d, id, now);
            && (!named <==> r in [Err(BadPlatform), Err(BadChannel), Err(BadArch)])
            && (named && !levelled <==> r == Err(BadUpdateLevel))
            && (levelled && !versioned <==> r == Err(NoVersion))
            && (versioned && !coded <==> r == Err(BadVersionCode))
            && (coded && !bounded <==> r == Err(BadMinimum))
            && (bounded && !filed <==> r == Err(NoFile))
            && (filed && !filled <==> r == Err(EmptyFile))
            && (filled && !digested <==> r == Err(NoDigest))
            && (digested && PathIsTaken(releases, TrimSpace(d.storagePath)) <==> r == Err(PathTaken))
  {
    hide NormalizeUpdateLevel, TrimSpace, PathIsTaken, NormalizePlatform, NormalizeChannel, NormalizeArch;
  }

  /** A name that is read back: normalised, or empty if it is unknown. */
  predicate IsReadAs(name: string, normalized: Option<string>) {
    Some(name) == normalized || (normalized == None && name == "")
  }

  /** A stored row is read back with its names normalised, and its path in place of a missing storage key. */
  lemma {:induction false} ScannedShows(r: Release)
    ensures var s := Scanned(r);
            && IsReadAs(s.platform, NormalizePlatform(r.platform))
            && IsReadAs(s.channel, NormalizeChannel(r.channel))
            && IsReadAs(s.arch, NormalizeArch(s.platform, r.arch))
            && IsReadAs(s.updateLevel, NormalizeUpdateLevel(r.updateLevel))
            && s.storageKey == (if r.storageKey != "" then r.storageKey else r.storagePath)
            && r == s.(platform := r.platform, channel := r.channel, arch := r.arch, updateLevel := r.updateLevel,
                       storageKey := r.storageKey)
  {
    hide NormalizePlatform, NormalizeChannel, NormalizeArch, NormalizeUpdateLevel;
  }

  // ---------- Publishing ----------

  /** What a publication does to one row: the rows of its key change their status, and only its own row its date. */
  ghost predicate IsMarked(before: Release, after: Release, id: int, k: Key, now: int) {
    var own := before.platform == k.platform && before.channel == k.channel && before.arch == k.arch;
    && after == before.(status := after.status, publishedAt := after.publishedAt)
    && after.status == (if !own then before.status else if before.id == id then "published" else "draft")
    && after.publishedAt == (if own && before.id == id then Some(now) else before.publishedAt)
  }

  /** Publishing marks the rows and moves the pointer of the key to the release; other pointers stay. */
  lemma {:induction false} PublishedShows(t: Tables, id: int, now: int, own: Release)
    requires DistinctIds(t.releases) && own in t.releases && own.id == id
    ensures Published(t, id, now).Ok?
    ensures var after := Published(t, id, now).value;
            var k := Key(own.platform, own.channel, own.arch);
            && |after.releases| == |t.releases|
            && (forall i :: 0 <= i < |t.releases| ==> IsMarked(t.releases[i], after.releases[i], id, k, now))
            && k in after.latest && after.latest[k] == id
            && (forall x :: x != k ==> (x in after.latest <==> x in t.latest))
            && (forall x :: x != k && x in t.latest ==> after.latest[x] == t.latest[x])
  {
    FindsOwnId(t.releases, own);
    hide Find, DistinctIds;
  }

  /** Only a release that exists can be published. */
  lemma {:induction false} UnknownIsNotPublished(t: Tables, id: int, now: int)
    requires forall r :: r in t.releases ==> r.id != id
    ensures Published(t, id, now) == Err(NotFound)
  {
  }
}
