/** What a manifest shows of a release, where its address leads, and what reading and writing manifest files does. */
module ManifestEffects {
  import opened Prelude
  import opened GoStrings
  import opened Releases
  import opened Manifests
  import opened ReleaseEffects

  // ---------- Addresses ----------

  predicate AllIn(s: string, cut: string) {
    forall i :: 0 <= i < |s| ==> s[i] in cut
  }

  lemma {:induction false} DropLeadingDrops(front: string, rest: string, cut: string)
    requires AllIn(front, cut) && (rest != "" ==> rest[0] !in cut)
    ensures DropLeading(front + rest, cut) == rest
  {
    DropLeadingSkips(front, rest, cut);
  }

  lemma {:induction false} DropTrailingDrops(rest: string, back: string, cut: string)
    requires AllIn(back, cut) && (rest != "" ==> Last(rest) !in cut)
    ensures DropTrailing(rest + back, cut) == rest
  {
    if back == "" {
      assert rest + back == rest;
    } else {
      assert Init(rest + back) == rest + Init(back);
      DropTrailingDrops(rest, Init(back), cut);
    }
  }

  /** The base is the configured address without slashes behind it; without one, the scheme and host of the request. */
  lemma {:induction false} BaseIs(address: string, slashes: string, isAbsolute: string -> bool, request: Request)
    requires AllIn(slashes, "/") && (address != "" ==> Last(address) != '/')
    ensures var base := BaseUrl(Site(address + slashes, isAbsolute), request);
            var proto := TrimSpace(request.forwardedProto);
            && (address != "" ==> base == address)
            && (address == "" && proto != "" ==> base == proto + "://" + request.host)
            && (address == "" && proto == "" && request.tls ==> base == "https://" + request.host)
            && (address == "" && proto == "" && !request.tls ==> base == "http://" + request.host)
  {
    DropTrailingDrops(address, slashes, "/");
    hide DropTrailing, TrimSpace;
    assert "https" + "://" == "https://" && "http" + "://" == "http://";
  }

  /** An address that is not absolute is put behind the base, without the dots and slashes in front of it. */
  lemma {:induction false} RelativeIsResolved(site: Site, base: string, front: string, rest: string)
    requires AllIn(front, "./") && (rest != "" ==> rest[0] !in "./") && front + rest != ""
    requires Trimmed(front + rest) && !site.isAbsolute(front + rest)
    ensures ResolvePublicUrl(site, base, front + rest) == base + "/" + rest
  {
    TrimSpaceFixes(front + rest);
    DropLeadingDrops(front, rest, "./");
    hide TrimSpace, DropLeading;
  }

  /** An absolute address and an empty one stay, without the space around them. */
  lemma {:induction false} OthersAreKept(site: Site, base: string, raw: string)
    requires TrimSpace(raw) == "" || site.isAbsolute(TrimSpace(raw))
    ensures ResolvePublicUrl(site, base, raw) == TrimSpace(raw)
  {
  }

  lemma {:induction false} ReleasesPathIsTrimmed(path: string)
    requires path != "" && !IsSpace(Last(path))
    ensures Trimmed("/releases/" + path)
  {
    var s := "/releases/" + path;
    assert s[0] == '/' && Last(s) == Last(path);
    SlashIsNoSpace();
    hide IsSpace;
  }

  /**
   Where a release is fetched from: its own public address if that is absolute, else its storage path below
   `/releases/` at the base, unless the site takes that path itself for absolute.
   */
  lemma {:induction false} ReleaseIsFetchedFrom(site: Site, base: string, r: Release, slashes: string, path: string)
    requires r.storagePath == slashes + path && AllIn(slashes, "/") && path != "" && path[0] != '/'
    requires !IsSpace(Last(path)) && !site.isAbsolute("/releases/" + path)
    ensures var own := TrimSpace(r.publicDownloadUrl);
            PublicUrl(site, base, r)
            == if own != "" && site.isAbsolute(own) then own else base + "/" + ("releases/" + path)
  {
    DropLeadingDrops(slashes, path, "/");
    ReleasesPathIsTrimmed(path);
    assert "/" + ("releases/" + path) == "/releases/" + path;
    RelativeIsResolved(site, base, "/", "releases/" + path);
    hide TrimSpace, DropLeading, ResolvePublicUrl, IsSpace;
  }

  // ---------- Manifests of releases ----------

  /** A manifest shows the columns of its release, each under its own name. */
  lemma {:induction false} ManifestShows(site: Site, base: string, r: Release)
    ensures var m := ReleaseManifest(site, base, r);
            && m.platform == r.platform && m.channel == r.channel && m.arch == r.arch
            && m.version == r.version && m.versionName == r.version
            && m.versionCode == r.versionCode && m.minSupportedVersionCode == r.minSupportedVersionCode
            && m.updateLevel == (if r.updateLevel != "" then r.updateLevel else "optional")
            && (m.force <==> r.updateLevel == "required")
            && m.title == (if TrimSpace(r.title) != "" then TrimSpace(r.title) else "HSgram " + r.version)
            && m.changelog == r.changelog
            && m.fileName == r.filename && m.fileSize == r.fileSize && m.sha256 == r.sha256 && m.mimeType == r.mimeType
            && m.storageKey == r.storageKey && m.publishedAt == r.publishedAt
            && m.downloadUrl == m.publicDownloadUrl == m.fileUrl == PublicUrl(site, base, r)
  {
    RequiredIsNotOptional();
    hide TrimSpace, PublicUrl;
  }

  // ---------- Manifests in files ----------

  /** A name left out is the one asked for, and any other one is normalised. */
  ghost predicate NameIs(given: string, fallback: string, normalized: Option<string>, name: string) {
    if given == "" then name == fallback else normalized == Some(name)
  }

  function FirstGiven(a: string, b: string): string {
    if a != "" then a else b
  }

  /** Whether a file's manifest is taken, and what every field of it then is. */
  lemma {:induction false} LoadedShows(site: Site, base: string, k: Key, m: Manifest, n: Manifest)
    ensures Normalized(site, base, k, m) == Some(n)
       <==> && NameIs(m.platform, k.platform, NormalizePlatform(m.platform), n.platform)
            && NameIs(m.channel, k.channel, NormalizeChannel(m.channel), n.channel)
            && NameIs(m.arch, k.arch, NormalizeArch(n.platform, m.arch), n.arch)
            && n.version == FirstGiven(m.version, m.versionName)
            && n.versionName == FirstGiven(m.versionName, m.version)
            && TrimSpace(n.version) != "" && n.versionCode == m.versionCode > 0
            && NameIs(m.updateLevel, if m.force then "required" else "optional",
                      NormalizeUpdateLevel(m.updateLevel), n.updateLevel)
            && (n.force <==> n.updateLevel == "required")
            && n.title == FirstGiven(m.title, "HSgram " + n.version)
            && n.downloadUrl == ResolvePublicUrl(site, base, FirstGiven(m.downloadUrl, m.fileUrl))
            && n.publicDownloadUrl
               == ResolvePublicUrl(site, base, FirstGiven(m.publicDownloadUrl, FirstGiven(m.downloadUrl, m.fileUrl)))
            && TrimSpace(n.publicDownloadUrl) != ""
            && n.fileUrl == (if m.fileUrl != "" then ResolvePublicUrl(site, base, m.fileUrl) else n.publicDownloadUrl)
            && n.minSupportedVersionCode == m.minSupportedVersionCode && n.changelog == m.changelog
            && n.fileName == m.fileName && n.fileSize == m.fileSize && n.sha256 == m.sha256
            && n.mimeType == m.mimeType && n.storageKey == m.storageKey && n.publishedAt == m.publishedAt
  {
    RequiredIsNotOptional();
    hide NormalizePlatform, NormalizeChannel, NormalizeArch, NormalizeUpdateLevel, TrimSpace, ResolvePublicUrl;
  }

  // ---------- Writing ----------

  lemma {:induction false} UniqueIsDistinct<T(!new)>(s: seq<T>)
    ensures forall i, j :: 0 <= i < j < |Unique(s)| ==> Unique(s)[i] != Unique(s)[j]
  {
    if s != [] {
      UniqueIsDistinct(Init(s));
    }
  }

  /**
   A publication writes the file of its key, and for the stable universal build also the file of the platform and for
   Windows the one named `pc`; none of them twice.
   */
  lemma {:induction false} TargetsAre(k: Key, p: Path)
    ensures p in Targets(k)
       <==> || p == [k.platform, k.channel, k.arch]
            || (k.channel == "stable" && k.arch == "universal"
                && (p == [k.platform] || (k.platform == "windows" && p == ["pc"])))
    ensures forall i, j :: 0 <= i < j < |Targets(k)| ==> Targets(k)[i] != Targets(k)[j]
  {
    var raw := [PathOf(k)] + if k.channel == STABLE && k.arch == UNIVERSAL then HomePaths(k.platform) else [];
    UniqueIsDistinct(raw);
    assert Targets(k) == Unique(raw);
    hide Unique;
  }

  /** The targets are written in order up to the first that cannot be, and no other file changes. */
  lemma {:induction false} WritesUpToFailure(files: map<Path, File>, targets: seq<Path>, file: File,
        works: Path -> bool) returns (n: nat)
    ensures n <= |targets| && (forall i :: 0 <= i < n ==> works(targets[i])) && (n < |targets| ==> !works(targets[n]))
    ensures var (after, ok) := WriteTargets(files, targets, file, works);
            && (ok <==> n == |targets|)
            && (forall p :: p in targets[..n] ==> p in after && after[p] == file)
            && (forall p :: p !in targets[..n] ==> (p in after <==> p in files))
            && (forall p :: p !in targets[..n] && p in files ==> after[p] == files[p])
    decreases |targets|
  {
    if targets == [] || !works(targets[0]) {
      n := 0;
    } else {
      var m := WritesUpToFailure(files[targets[0] := file], targets[1..], file, works);
      n := m + 1;
      assert targets[..n] == [targets[0]] + targets[1..][..m];
      assert forall i :: 0 < i < n ==> targets[i] == targets[1..][i - 1];
    }
  }
}
