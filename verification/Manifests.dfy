/**
 The update manifests: what is written when a release is published, how a stored file is read back, and why
 the files are a cache of the latest pointers.
 */
module Manifests {
  import opened Prelude
  import opened GoStrings
  import opened Releases

  datatype Manifest = Manifest(
    platform: string,
    channel: string,
    arch: string,
    versionName: string,
    version: string,
    versionCode: int,
    minSupportedVersionCode: int,
    updateLevel: string,
    force: bool,
    title: string,
    changelog: string,
    fileName: string,
    fileSize: int,
    sha256: string,
    mimeType: string,
    storageKey: string,
    downloadUrl: string,
    publicDownloadUrl: string,
    fileUrl: string,
    publishedAt: Option<int>)

  // ---------- Addresses ----------

  /** The configured public address, and which texts the URL parser takes for absolute. */
  datatype Site = Site(publicBaseUrl: string, isAbsolute: string -> bool)

  datatype Request = Request(forwardedProto: string, tls: bool, host: string)

  /** `strings.TrimLeft`. */
  function DropLeading(s: string, cut: string): string {
    if s != [] && s[0] in cut then DropLeading(s[1..], cut) else s
  }

  /** `strings.TrimRight`. */
  function DropTrailing(s: string, cut: string): string {
    if s != [] && Last(s) in cut then DropTrailing(Init(s), cut) else s
  }

  function BaseUrl(site: Site, request: Request): string {
    var base := DropTrailing(site.publicBaseUrl, "/");
    if base != "" then base
    else
      var proto := TrimSpace(request.forwardedProto);
      (if proto != "" then proto else if request.tls then "https" else "http") + "://" + request.host
  }

  function ResolvePublicUrl(site: Site, base: string, raw: string): string {
    var s := TrimSpace(raw);
    if s == "" || site.isAbsolute(s) then s else base + "/" + DropLeading(s, "./")
  }

  predicate UsableBase(base: string) {
    base != "" && !IsSpace(base[0])
  }

  predicate Dotted(s: string) {
    forall i :: 0 <= i < |s| ==> s[i] in "./"
  }

  lemma {:induction false} DropTrailingIsPrefix(s: string, cut: string)
    ensures DropTrailing(s, cut) <= s
  {
    if s != [] && Last(s) in cut {
      DropTrailingIsPrefix(Init(s), cut);
    }
  }

  /** Every request resolves against some base, and one that starts with no space if the configured one does not. */
  lemma {:induction false} BaseIsUsable(site: Site, request: Request)
    requires site.publicBaseUrl != "" ==> !IsSpace(site.publicBaseUrl[0])
    ensures UsableBase(BaseUrl(site, request))
  {
    DropTrailingIsPrefix(site.publicBaseUrl, "/");
    TrimSpaceTrims(request.forwardedProto);
    hide TrimSpace, DropTrailing;
  }

  lemma {:induction false} DropLeadingIsSuffix(s: string, cut: string)
    ensures |DropLeading(s, cut)| <= |s| && DropLeading(s, cut) == s[|s| - |DropLeading(s, cut)|..]
    ensures DropLeading(s, cut) != [] ==> DropLeading(s, cut)[0] !in cut
  {
    if s != [] && s[0] in cut {
      DropLeadingIsSuffix(s[1..], cut);
    }
  }

  lemma {:induction false} DropLeadingSkips(s: string, rest: string, cut: string)
    requires forall i :: 0 <= i < |s| ==> s[i] in cut
    ensures DropLeading(s + rest, cut) == DropLeading(rest, cut)
  {
    if s == [] {
      assert s + rest == rest;
    } else {
      assert (s + rest)[1..] == s[1..] + rest;
      DropLeadingSkips(s[1..], rest, cut);
    }
  }

  lemma {:induction false} DropLeadingStops(s: string, i: nat, cut: string)
    requires i < |s| && s[i] !in cut
    ensures |DropLeading(s, cut)| >= |s| - i
  {
    if s[0] in cut {
      assert s[1..][i - 1] == s[i];
      DropLeadingStops(s[1..], i - 1, cut);
    }
  }

  lemma {:induction false} SlashIsNoSpace()
    ensures !IsSpace('/')
  {
  }

  /** A resolved address has no space around it, and is empty only if there was nothing to resolve. */
  lemma {:induction false} ResolvedIsTrimmed(site: Site, base: string, raw: string)
    requires UsableBase(base)
    ensures Trimmed(ResolvePublicUrl(site, base, raw))
    ensures ResolvePublicUrl(site, base, raw) == "" <==> TrimSpace(raw) == ""
  {
    TrimSpaceTrims(raw);
    var s := TrimSpace(raw);
    DropLeadingIsSuffix(s, "./");
    hide TrimSpace, DropLeading, IsSpace;
    var rest := DropLeading(s, "./");
    var u := base + "/" + rest;
    if s != "" {
      assert u[0] == base[0];
      assert Last(u) == if rest == [] then '/' else Last(s);
      SlashIsNoSpace();
    }
  }

  lemma {:induction false} SamePrefix(p: string, a: string, b: string)
    ensures p + a == p + b <==> a == b
  {
    assert (p + a)[|p|..] == a && (p + b)[|p|..] == b;
  }

  lemma {:induction false} DroppingBase(base: string, rest: string, s: string)
    requires rest == DropLeading(s, "./")
    ensures DropLeading(base + "/" + rest, "./") == rest <==> Dotted(base)
  {
    DropLeadingIsSuffix(s, "./");
    var u := base + "/" + rest;
    if Dotted(base) {
      DropLeadingSkips(base + "/", rest, "./");
    } else {
      var i :| 0 <= i < |base| && base[i] !in "./";
      assert u[i] == base[i];
      DropLeadingStops(u, i, "./");
    }
  }

  /**
   Resolving a resolved address again changes nothing exactly when it is absolute
   or the base is only dots and slashes.
   */
  lemma {:induction false} ResolvingIsStableIff(site: Site, base: string, raw: string)
    requires UsableBase(base) && TrimSpace(raw) != ""
    ensures var u := ResolvePublicUrl(site, base, raw);
            ResolvePublicUrl(site, base, u) == u <==> site.isAbsolute(u) || Dotted(base)
  {
    var s := TrimSpace(raw);
    var u := ResolvePublicUrl(site, base, raw);
    ResolvedIsTrimmed(site, base, raw);
    TrimSpaceFixes(u);
    hide TrimSpace, UsableBase;
    if !site.isAbsolute(u) {
      var rest := DropLeading(s, "./");
      assert u == base + "/" + rest;
      DroppingBase(base, rest, s);
      assert ResolvePublicUrl(site, base, u) == base + "/" + DropLeading(u, "./");
      SamePrefix(base + "/", rest, DropLeading(u, "./"));
    }
  }

  // ---------- Manifests of releases ----------

  function PublicUrl(site: Site, base: string, r: Release): string {
    var url := TrimSpace(r.publicDownloadUrl);
    if url == "" || !site.isAbsolute(url)
    then ResolvePublicUrl(site, base, "/releases/" + DropLeading(r.storagePath, "/"))
    else url
  }

  function ReleaseManifest(site: Site, base: string, r: Release): Manifest {
    var url := PublicUrl(site, base, r);
    var level := if r.updateLevel == "" then OPTIONAL else r.updateLevel;
    var title := TrimSpace(r.title);
    Manifest(
      r.platform, r.channel, r.arch, r.version, r.version, r.versionCode, r.minSupportedVersionCode, level,
      level == REQUIRED, if title == "" then "HSgram " + r.version else title, r.changelog, r.filename, r.fileSize,
      r.sha256, r.mimeType, r.storageKey, url, url, url, r.publishedAt)
  }

  /** A name a manifest leaves out is taken from the request; any other must be known. */
  function NameOr(given: string, fallback: string, normalized: Option<string>): Option<string> {
    if given == "" then Some(fallback) else normalized
  }

  /** Either of the two version fields stands in for the other. */
  function Versioned(m: Manifest): Manifest {
    var version := if m.version == "" then m.versionName else m.version;
    m.(version := version, versionName := if m.versionName == "" then version else m.versionName)
  }

  function Named(k: Key, m: Manifest): Option<Manifest> {
    match NameOr(m.platform, k.platform, NormalizePlatform(m.platform))
    case None => None
    case Some(platform) =>
      var channel := NameOr(m.channel, k.channel, NormalizeChannel(m.channel));
      var arch := NameOr(m.arch, k.arch, NormalizeArch(platform, m.arch));
      if channel == None || arch == None then None
      else Some(m.(platform := platform, channel := channel.value, arch := arch.value))
  }

  /** A manifest is forced exactly when its update level is required, whichever of the two it gave. */
  function Levelled(m: Manifest): Option<Manifest> {
    match NameOr(m.updateLevel, if m.force then REQUIRED else OPTIONAL, NormalizeUpdateLevel(m.updateLevel))
    case None => None
    case Some(level) => Some(m.(updateLevel := level, force := level == REQUIRED))
  }

  function Addressed(site: Site, base: string, m: Manifest): Manifest {
    var download := if m.downloadUrl == "" then m.fileUrl else m.downloadUrl;
    var publicUrl := ResolvePublicUrl(site, base, if m.publicDownloadUrl == "" then download else m.publicDownloadUrl);
    m.(downloadUrl := ResolvePublicUrl(site, base, download),
       publicDownloadUrl := publicUrl,
       fileUrl := if m.fileUrl == "" then publicUrl else ResolvePublicUrl(site, base, m.fileUrl))
  }

  function Titled(m: Manifest): Option<Manifest> {
    if TrimSpace(m.version) == "" || m.versionCode <= 0 || TrimSpace(m.publicDownloadUrl) == "" then None
    else Some(if m.title == "" then m.(title := "HSgram " + m.version) else m)
  }

  /** A manifest read from a file, completed and checked; None if it is not a valid one. */
  function Normalized(site: Site, base: string, k: Key, m: Manifest): Option<Manifest> {
    match Named(k, Versioned(m))
    case None => None
    case Some(named) =>
      match Levelled(named)
      case None => None
      case Some(levelled) => Titled(Addressed(site, base, levelled))
  }

  method NormalizeNames(k: Key, loaded: Manifest) returns (r: Option<Manifest>)
    ensures r == Named(k, loaded)
  {
    hide NormalizePlatform, NormalizeChannel, NormalizeArch;
    var m := loaded;
    if m.platform == "" {
      m := m.(platform := k.platform);
    } else {
      var name := NormalizePlatform(m.platform);
      if name == None {
        return None;
      }
      m := m.(platform := name.value);
    }
    if m.channel == "" {
      m := m.(channel := k.channel);
    } else {
      var name := NormalizeChannel(m.channel);
      if name == None {
        return None;
      }
      m := m.(channel := name.value);
    }
    if m.arch == "" {
      m := m.(arch := k.arch);
    } else {
      var name := NormalizeArch(m.platform, m.arch);
      if name == None {
        return None;
      }
      m := m.(arch := name.value);
    }
    return Some(m);
  }

  lemma {:induction false} RequiredIsNotOptional()
    ensures REQUIRED != OPTIONAL
  {
    assert REQUIRED[0] != OPTIONAL[0];
  }

  method NormalizeLevel(loaded: Manifest) returns (r: Option<Manifest>)
    ensures r == Levelled(loaded)
  {
    hide NormalizeUpdateLevel;
    var m := loaded;
    if m.updateLevel == "" {
      RequiredIsNotOptional();
      m := m.(updateLevel := if m.force then REQUIRED else OPTIONAL);
    } else {
      var level := NormalizeUpdateLevel(m.updateLevel);
      if level == None {
        return None;
      }
      m := m.(updateLevel := level.value, force := level.value == REQUIRED);
    }
    return Some(m);
  }

  method NormalizeAddresses(site: Site, base: string, loaded: Manifest) returns (m: Manifest)
    ensures m == Addressed(site, base, loaded)
  {
    hide ResolvePublicUrl;
    m := loaded;
    if m.downloadUrl == "" {
      m := m.(downloadUrl := m.fileUrl);
    }
    if m.publicDownloadUrl == "" {
      m := m.(publicDownloadUrl := m.downloadUrl);
    }
    m := m.(downloadUrl := ResolvePublicUrl(site, base, m.downloadUrl));
    m := m.(publicDownloadUrl := ResolvePublicUrl(site, base, m.publicDownloadUrl));
    if m.fileUrl == "" {
      m := m.(fileUrl := m.publicDownloadUrl);
    } else {
      m := m.(fileUrl := ResolvePublicUrl(site, base, m.fileUrl));
    }
  }

  /** The repairs and checks a loaded manifest goes through, field by field. */
  method NormalizeLoadedManifest(site: Site, base: string, k: Key, loaded: Manifest) returns (r: Option<Manifest>)
    ensures r == Normalized(site, base, k, loaded)
  {
    hide TrimSpace, Named, Levelled, Addressed;
    var m := loaded;
    if m.version == "" {
      m := m.(version := m.versionName);
    }
    if m.versionName == "" {
      m := m.(versionName := m.version);
    }
    var named := NormalizeNames(k, m);
    if named == None {
      return None;
    }
    var levelled := NormalizeLevel(named.value);
    if levelled == None {
      return None;
    }
    m := NormalizeAddresses(site, base, levelled.value);
    if TrimSpace(m.version) == "" || m.versionCode <= 0 || TrimSpace(m.publicDownloadUrl) == "" {
      return None;
    }
    if m.title == "" {
      m := m.(title := "HSgram " + m.version);
    }
    return Some(m);
  }

  lemma {:induction false} TrimRightKeepsFirst(s: string)
    requires s != [] && !IsSpace(s[0])
    ensures TrimRight(s) != []
  {
    hide IsSpace;
    if |s| > 1 && IsSpace(Last(s)) {
      assert Init(s)[0] == s[0];
      TrimRightKeepsFirst(Init(s));
    }
  }

  lemma {:induction false} ReleasesPathIsNotBlank(path: string)
    ensures TrimSpace("/releases/" + path) != ""
  {
    var s := "/releases/" + path;
    assert s[0] == '/';
    SlashIsNoSpace();
    TrimRightKeepsFirst(s);
  }

  lemma {:induction false} PublicUrlIsTrimmed(site: Site, base: string, r: Release)
    requires UsableBase(base)
    ensures PublicUrl(site, base, r) != "" && Trimmed(PublicUrl(site, base, r))
  {
    TrimSpaceTrims(r.publicDownloadUrl);
    ReleasesPathIsNotBlank(DropLeading(r.storagePath, "/"));
    ResolvedIsTrimmed(site, base, "/releases/" + DropLeading(r.storagePath, "/"));
    hide TrimSpace, DropLeading, ResolvePublicUrl, Trimmed;
  }

  lemma {:induction false} PublicUrlIsStableIff(site: Site, base: string, r: Release)
    requires UsableBase(base)
    ensures var url := PublicUrl(site, base, r);
            ResolvePublicUrl(site, base, url) == url <==> site.isAbsolute(url) || Dotted(base)
  {
    var url := PublicUrl(site, base, r);
    PublicUrlIsTrimmed(site, base, r);
    TrimSpaceFixes(url);
    ReleasesPathIsNotBlank(DropLeading(r.storagePath, "/"));
    ResolvingIsStableIff(site, base, "/releases/" + DropLeading(r.storagePath, "/"));
    hide TrimSpace, DropLeading, UsableBase, Trimmed, Dotted;
  }

  lemma {:induction false} NamesAreGiven(r: Release)
    requires WellFormed(r)
    ensures r.platform != "" && r.channel != "" && r.arch != "" && r.updateLevel != ""
  {
    hide TrimSpace, ToLower, Trimmed;
  }

  /** Reading back the manifest of a release changes its address only: into the address resolved once more. */
  lemma {:induction false} ManifestReadsBack(site: Site, base: string, reader: string, k: Key, r: Release)
    requires WellFormed(r) && UsableBase(base) && UsableBase(reader)
    ensures var m := ReleaseManifest(site, base, r);
            var url := ResolvePublicUrl(site, reader, m.publicDownloadUrl);
            Normalized(site, reader, k, m) == Some(m.(downloadUrl := url, publicDownloadUrl := url, fileUrl := url))
  {
    PublicUrlIsTrimmed(site, base, r);
    TrimSpaceFixes(PublicUrl(site, base, r));
    ResolvedIsTrimmed(site, reader, PublicUrl(site, base, r));
    TrimSpaceFixes(ResolvePublicUrl(site, reader, PublicUrl(site, base, r)));
    TrimSpaceFixes(r.version);
    NamesAreGiven(r);
    hide TrimSpace, Trimmed, ResolvePublicUrl, PublicUrl, NormalizePlatform, NormalizeChannel, NormalizeArch,
         NormalizeUpdateLevel, UsableBase;
  }

  /**
   The manifest of a release is read back unchanged, by readers at the address it was published under,
   exactly when its download address is absolute or the base is only dots and slashes.
   */
  lemma {:induction false} ManifestIsFixedIff(site: Site, base: string, k: Key, r: Release)
    requires WellFormed(r) && UsableBase(base)
    ensures var m := ReleaseManifest(site, base, r);
            Normalized(site, base, k, m) == Some(m) <==> site.isAbsolute(m.publicDownloadUrl) || Dotted(base)
  {
    ManifestReadsBack(site, base, base, k, r);
    PublicUrlIsStableIff(site, base, r);
    hide Normalized, ResolvePublicUrl, PublicUrl, WellFormed, UsableBase, Dotted;
  }

  // ---------- Files ----------

  /** A file is named by the directories between the releases directory and `latest.json`. */
  type Path = seq<string>

  datatype File = Json(manifest: Manifest) | Garbage

  datatype LoadError = BadName(error: ReleaseError) | Missing | Invalid

  function PathOf(k: Key): Path {
    [k.platform, k.channel, k.arch]
  }

  /** The short names: the platform's own, and `pc` beside `windows`. */
  function HomePaths(platform: string): seq<Path> {
    if platform == WINDOWS then [[platform], ["pc"]] else [[platform]]
  }

  function AllPaths(keys: seq<Key>): (r: seq<Path>)
    ensures |r| == |keys|
  {
    seq(|keys|, i requires 0 <= i < |keys| => PathOf(keys[i]))
  }

  function CandidatePaths(k: Key): seq<Path> {
    [PathOf(k)] + AllPaths(LookupKeys(k)) + HomePaths(k.platform)
  }

  function Targets(k: Key): seq<Path> {
    Unique([PathOf(k)] + if k.channel == STABLE && k.arch == UNIVERSAL then HomePaths(k.platform) else [])
  }

  function LoadAt(files: map<Path, File>, site: Site, base: string, k: Key, path: Path): Result<Manifest, LoadError> {
    if path !in files then Err(Missing)
    else
      match files[path]
      case Garbage => Err(Invalid)
      case Json(m) =>
        match Normalized(site, base, k, m)
        case None => Err(Invalid)
        case Some(loaded) => Ok(loaded)
  }

  /** The first manifest that loads; without one, the error of the last path tried. */
  function LoadFirst(files: map<Path, File>, site: Site, base: string, k: Key, paths: seq<Path>, last: LoadError)
    : Result<Manifest, LoadError>
    decreases |paths|
  {
    if paths == [] then Err(last)
    else
      match LoadAt(files, site, base, k, paths[0])
      case Ok(m) => Ok(m)
      case Err(e) => LoadFirst(files, site, base, k, paths[1..], e)
  }

  function LoadFile(files: map<Path, File>, site: Site, base: string, k: Key): Result<Manifest, LoadError> {
    LoadFirst(files, site, base, k, Unique(CandidatePaths(k)), Missing)
  }

  /** Writes the targets in turn and stops at the first that cannot be written. */
  function WriteTargets(files: map<Path, File>, targets: seq<Path>, file: File, works: Path -> bool): (map<Path,
        File>, bool)
    decreases |targets|
  {
    if targets == [] then (files, true)
    else if !works(targets[0]) then (files, false)
    else WriteTargets(files[targets[0] := file], targets[1..], file, works)
  }

  method UniquePaths(paths: seq<Path>) returns (r: seq<Path>)
    ensures r == Unique(paths)
  {
    var seen: set<Path> := {};
    r := [];
    for i := 0 to |paths|
      invariant r == Unique(paths[..i])
      invariant forall p :: p in seen <==> p in r
    {
      assert Init(paths[..i + 1]) == paths[..i];
      if paths[i] !in seen {
        seen := seen + {paths[i]};
        r := r + [paths[i]];
      }
    }
    assert paths[..|paths|] == paths;
  }

  class ManifestFiles {
    var files: map<Path, File>

    constructor ()
      ensures files == map[]
    {
      files := map[];
    }

    /** One file, replaced by renaming a finished temporary file: wholly new or wholly old. */
    method WriteManifestAtomic(target: Path, file: File, works: bool) returns (ok: bool)
      modifies this
      ensures ok == works
      ensures files == if works then old(files)[target := file] else old(files)
    {
      if works {
        files := files[target := file];
      }
      return works;
    }

    method WriteLatestUpdateManifest(site: Site, base: string, release: Release, works: Path -> bool) returns (ok: bool)
      modifies this
      ensures match NormalizeKey(release.platform, release.channel, release.arch)
              case Err(_) => !ok && files == old(files)
              case Ok(k) =>
                (files, ok) == WriteTargets(
                  old(files), Targets(k),
                  Json(ReleaseManifest(
                         site, base, release.(platform := k.platform, channel := k.channel, arch := k.arch))),
                  works)
    {
      hide NormalizePlatform, NormalizeChannel, NormalizeArch, ReleaseManifest, Unique;
      var k := NormalizeKey(release.platform, release.channel, release.arch);
      if k.Err? {
        return false;
      }
      var named := release.(platform := k.value.platform, channel := k.value.channel, arch := k.value.arch);
      var file := Json(ReleaseManifest(site, base, named));
      var raw := [PathOf(k.value)];
      if named.channel == STABLE && named.arch == UNIVERSAL {
        raw := raw + [[named.platform]];
        if named.platform == WINDOWS {
          raw := raw + [["pc"]];
        }
      }
      assert raw == [PathOf(k.value)]
             + if named.channel == STABLE && named.arch == UNIVERSAL then HomePaths(named.platform) else [];
      var targets := UniquePaths(raw);
      assert targets[0..] == targets;
      for i := 0 to |targets|
        invariant WriteTargets(files, targets[i..], file, works) == WriteTargets(old(files), targets, file, works)
      {
        assert targets[i..][1..] == targets[i + 1..];
        ok := WriteManifestAtomic(targets[i], file, works(targets[i]));
        if !ok {
          return;
        }
      }
      return true;
    }

    method LoadManifestFile(site: Site, base: string, k: Key, path: Path) returns (r: Result<Manifest, LoadError>)
      ensures r == LoadAt(files, site, base, k, path)
    {
      hide Normalized;
      if path !in files {
        return Err(Missing);
      }
      if files[path] == Garbage {
        return Err(Invalid);
      }
      var loaded := NormalizeLoadedManifest(site, base, k, files[path].manifest);
      if loaded == None {
        return Err(Invalid);
      }
      return Ok(loaded.value);
    }

    method LoadUpdateManifestFile(site: Site, base: string, k: Key) returns (r: Result<Manifest, LoadError>)
      ensures r == LoadFile(files, site, base, k)
    {
      hide LoadAt, Unique, LookupKeys;
      var paths := [PathOf(k)];
      var keys := ReleaseLookupKeys(k);
      for i := 0 to |keys|
        invariant paths == [PathOf(k)] + AllPaths(keys[..i])
      {
        paths := paths + [PathOf(keys[i])];
      }
      assert keys[..|keys|] == keys;
      paths := paths + [[k.platform]];
      if k.platform == WINDOWS {
        paths := paths + [["pc"]];
      }
      assert paths == CandidatePaths(k);
      var tries := UniquePaths(paths);
      var last := Missing;
      assert tries[0..] == tries;
      for i := 0 to |tries|
        invariant LoadFirst(files, site, base, k, tries[i..], last) == LoadFile(files, site, base, k)
      {
        assert tries[i..][1..] == tries[i + 1..];
        var loaded := LoadManifestFile(site, base, k, tries[i]);
        if loaded.Ok? {
          return loaded;
        }
        last := loaded.error;
      }
      return Err(last);
    }
  }

  /** What the update endpoints answer: a pointed release, else the newest row, else a file. */
  function Load(t: Tables, files: map<Path, File>, site: Site, base: string, k: Key): Result<Manifest, LoadError> {
    match LatestAt(t, LookupKeys(k))
    case Some(r) => Ok(ReleaseManifest(site, base, r))
    case None =>
      match NewestAt(t, LookupKeys(k))
      case Some(r) => Ok(ReleaseManifest(site, base, r))
      case None => LoadFile(files, site, base, k)
  }

  method LoadUpdateManifest(db: ReleaseStore, disk: ManifestFiles, site: Site, base: string,
                            platform: string, channel: string, arch: string)
    returns (r: Result<Manifest, LoadError>)
    ensures r == match NormalizeKey(platform, channel, arch)
                 case Err(e) => Err(BadName(e))
                 case Ok(k) => Load(db.Contents(), disk.files, site, base, k)
  {
    NormalizingIsIdempotent(platform, channel, arch);
    hide NormalizePlatform, NormalizeChannel, NormalizeArch, LatestAt, NewestAt, LoadFile, ReleaseManifest;
    var k := NormalizeKey(platform, channel, arch);
    if k.Err? {
      return Err(BadName(k.error));
    }
    var release := db.GetLatestAppReleaseFor(k.value.platform, k.value.channel, k.value.arch);
    if release.Ok? {
      return Ok(ReleaseManifest(site, base, release.value));
    }
    release := db.GetNewestAppReleaseFor(k.value.platform, k.value.channel, k.value.arch);
    if release.Ok? {
      return Ok(ReleaseManifest(site, base, release.value));
    }
    r := disk.LoadUpdateManifestFile(site, base, k.value);
  }
}
