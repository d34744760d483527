/** Properties of one get_binary call, stated about `Resolve`, which the
    extension's methods are proved to follow. */
module ResolveProperties {
  import opened Wrappers
  import opened Platform
  import opened Releases
  import opened Workdir
  import opened ZedHost
  import opened Extension

  /** The release was fetched and carries this platform's asset. */
  predicate AssetFound(w: World)
  {
    w.release.Ok? && LocateAsset(w.release.value, AssetName(w.os, w.arch)).Ok?
  }

  function Found(w: World): Asset
    requires AssetFound(w)
  {
    LocateAsset(w.release.value, AssetName(w.os, w.arch)).value
  }

  function TargetDir(w: World): string
    requires w.release.Ok?
  {
    VersionDir(w.release.value.version)
  }

  function TargetPath(w: World): string
    requires w.release.Ok?
  {
    BinaryPath(w.release.value.version, w.os)
  }

  /** The executable of the release is not on disk yet. */
  predicate CacheMiss(w: World, d: Dir)
    requires w.release.Ok?
  {
    !PathExists(d, TargetDir(w), ExecutableName(w.os))
  }

  lemma VersionDirHasPrefix(version: string)
    ensures HasPrefix(VersionDir(version), BinaryName)
  {
  }

  /** The cache manager never creates, deletes or changes an entry without
      the binary prefix. */
  lemma ProvisionKeepsOthers(w: World, d: Dir, version: string, asset: Asset)
    ensures var o := Provision(w, d, version, asset);
            forall n :: !HasPrefix(n, BinaryName) ==> (n in o.entries <==> n in d) && (n in d ==> o.entries[n] == d[n])
  {
    VersionDirHasPrefix(version);
  }

  /** The cache manager's result, memo and calls do not depend on which
      deletions fail or on whether the directory can be listed. */
  lemma ProvisionIgnoresCleanup(w: World, d: Dir, version: string, asset: Asset, undeletable: set<string>, listable: bool)
    ensures var o1, o2 := Provision(w, d, version, asset),
                          Provision(w.(undeletable := undeletable, listable := listable), d, version, asset);
            o1.result == o2.result && o1.memo == o2.memo && o1.calls == o2.calls
  {
    var w2 := w.(undeletable := undeletable, listable := listable);
    var dir, exe := VersionDir(version), ExecutableName(w.os);
    if !PathExists(d, dir, exe) {
      var s1 := if w.listable then Swept(d, BinaryName, w.undeletable) else d;
      var s2 := if w2.listable then Swept(d, BinaryName, w2.undeletable) else d;
      // neither sweep can bring back the missing executable
      assert !PathExists(s1, dir, exe) && !PathExists(s2, dir, exe);
    }
  }

  /** The cache manager calls chmod only off Windows, after a successful
      download on a cache miss, and on the binary's path. */
  lemma ProvisionChmodCalls(w: World, d: Dir, version: string, asset: Asset)
    ensures var o := Provision(w, d, version, asset);
            forall p :: HostCall.MakeFileExecutable(p) in o.calls ==>
              && w.os != Windows && !PathExists(d, VersionDir(version), ExecutableName(w.os))
              && w.serve(asset.downloadUrl).Ok?
              && p == BinaryPath(version, w.os)
              && o.calls == [HostCall.DownloadFile(asset.downloadUrl, VersionDir(version), GzipTar),
                             HostCall.MakeFileExecutable(p)]
  {
  }

  /** Off Windows a successful cache manager leaves the binary on disk. */
  lemma ProvisionLeavesBinary(w: World, d: Dir, version: string, asset: Asset)
    requires w.os != Windows
    ensures var o := Provision(w, d, version, asset);
            o.result.Ok? ==> PathExists(o.entries, VersionDir(version), ExecutableName(w.os))
                             && (!PathExists(d, VersionDir(version), ExecutableName(w.os))
                                 ==> o.entries[VersionDir(version)][ExecutableName(w.os)])
  {
  }

  /** A memoized path is returned as it is, with no host call and no change
      on disk. */
  lemma MemoHitMakesNoCalls(memo: Option<string>, w: World, d: Dir)
    requires memo.Some?
    ensures Resolve(memo, w, d) == Outcome(Ok(memo.value), memo, d, [])
  {
  }

  /** A path resolved afresh is always
      mcp-relay-{version}/{executable} of the latest release. */
  lemma ResolvedPathShape(w: World, d: Dir)
    ensures var o := Resolve(None, w, d);
            o.result.Ok? ==> AssetFound(w)
                             && o.result.value == "mcp-relay-" + w.release.value.version + "/" + ExecutableName(w.os)
  {
    if AssetFound(w) {
      var version := w.release.value.version;
      assert BinaryPath(version, w.os) == "mcp-relay-" + version + "/" + ExecutableName(w.os);
    }
  }

  /** A failed release query is reported unchanged, after the platform and
      release calls only, with nothing on disk touched. */
  lemma ReleaseQueryFailure(w: World, d: Dir)
    requires w.release.Err?
    ensures Resolve(None, w, d) == Outcome(Err(w.release.error), None, d, LookupCalls)
  {
  }

  /** A release without this platform's asset fails naming the expected
      asset, before anything on disk is touched and with nothing memoized. */
  lemma AssetMissing(w: World, d: Dir)
    requires w.release.Ok?
    requires forall a :: a in w.release.value.assets ==> a.name != AssetName(w.os, w.arch)
    ensures Resolve(None, w, d)
            == Outcome(Err("Asset not found: " + AssetName(w.os, w.arch)), None, d, LookupCalls)
  {
  }

  /** Every memo miss queries the platform and the release first; the disk
      changes and a download starts only once the asset has been found. */
  lemma NothingTouchedBeforeAssetFound(memo: Option<string>, w: World, d: Dir)
    ensures var o := Resolve(memo, w, d);
            (memo.None? ==> LookupCalls <= o.calls)
            && (o.entries != d || |o.calls| > |LookupCalls| ==> memo.None? && AssetFound(w))
  {
  }

  /** When the executable is already on disk it is trusted as it is: no
      deletion, no download and no chmod. */
  lemma CacheHit(w: World, d: Dir)
    requires AssetFound(w) && !CacheMiss(w, d)
    ensures Resolve(None, w, d) == Outcome(Ok(TargetPath(w)), Some(TargetPath(w)), d, LookupCalls)
  {
  }

  /** On a cache miss with a listable directory every deletable entry that
      starts with the binary prefix is gone, except the new version directory
      the download creates; entries that resisted deletion remain. */
  lemma CacheMissSweepsStaleEntries(w: World, d: Dir)
    requires AssetFound(w) && CacheMiss(w, d) && w.listable
    ensures var o := Resolve(None, w, d);
            forall n :: n in d && HasPrefix(n, BinaryName) ==>
                          (n in o.entries <==> n in w.undeletable || (n == TargetDir(w) && w.serve(Found(w).downloadUrl).Ok?))
  {
  }

  /** Entries that do not start with the binary prefix are never created,
      deleted or changed. */
  lemma OtherEntriesUntouched(memo: Option<string>, w: World, d: Dir)
    ensures var o := Resolve(memo, w, d);
            forall n :: !HasPrefix(n, BinaryName) ==> (n in o.entries <==> n in d) && (n in d ==> o.entries[n] == d[n])
  {
    if memo.None? && AssetFound(w) {
      ProvisionKeepsOthers(w, d, w.release.value.version, Found(w));
    }
  }

  /** Failures of the sweep never show: the result, the memo and the calls
      are the same whatever entries resist deletion and whether the directory
      can be listed at all. */
  lemma CleanupFailuresNeverSurface(memo: Option<string>, w: World, d: Dir, undeletable: set<string>, listable: bool)
    ensures var o1, o2 := Resolve(memo, w, d), Resolve(memo, w.(undeletable := undeletable, listable := listable), d);
            o1.result == o2.result && o1.memo == o2.memo && o1.calls == o2.calls
  {
    var w2 := w.(undeletable := undeletable, listable := listable);
    assert AssetFound(w) == AssetFound(w2);
    if memo.None? && AssetFound(w) {
      ProvisionIgnoresCleanup(w, d, w.release.value.version, Found(w), undeletable, listable);
    }
  }

  /** A failed download is reported with its detail, after the download call
      and with no chmod, and nothing is memoized. */
  lemma DownloadFailure(w: World, d: Dir)
    requires AssetFound(w) && CacheMiss(w, d) && w.serve(Found(w).downloadUrl).Err?
    ensures var o := Resolve(None, w, d);
            o.result == Err("Download failed: " + w.serve(Found(w).downloadUrl).error)
            && o.memo == None
            && o.calls == LookupCalls + [HostCall.DownloadFile(Found(w).downloadUrl, TargetDir(w), GzipTar)]
  {
  }

  /** chmod is called only off Windows, only after a successful download,
      and always on the returned path. */
  lemma ChmodOnlyAfterDownload(memo: Option<string>, w: World, d: Dir)
    ensures var o := Resolve(memo, w, d);
            forall p :: HostCall.MakeFileExecutable(p) in o.calls ==>
              && memo.None? && w.os != Windows && AssetFound(w) && CacheMiss(w, d)
              && w.serve(Found(w).downloadUrl).Ok?
              && p == TargetPath(w)
              && o.calls == LookupCalls + [HostCall.DownloadFile(Found(w).downloadUrl, TargetDir(w), GzipTar),
                                           HostCall.MakeFileExecutable(p)]
  {
    if memo.None? && AssetFound(w) {
      ProvisionChmodCalls(w, d, w.release.value.version, Found(w));
    }
  }

  /** Off Windows the returned path names a file on disk, and one that had to
      be downloaded is executable. */
  lemma ProvisionedBinaryIsReady(w: World, d: Dir)
    requires w.os != Windows
    ensures var o := Resolve(None, w, d);
            o.result.Ok? ==> PathExists(o.entries, TargetDir(w), ExecutableName(w.os))
                             && (CacheMiss(w, d) ==> o.entries[TargetDir(w)][ExecutableName(w.os)])
  {
    if AssetFound(w) {
      ProvisionLeavesBinary(w, d, w.release.value.version, Found(w));
    }
  }

  /** On Windows nothing checks the unpacked archive: a download that does
      not contain the executable still succeeds, returning and memoizing a
      path that names no file. */
  lemma WindowsTrustsDownload(w: World, d: Dir)
    requires w.os == Windows && AssetFound(w) && CacheMiss(w, d)
    requires w.serve(Found(w).downloadUrl).Ok? && ExecutableName(w.os) !in w.serve(Found(w).downloadUrl).value
    ensures var o := Resolve(None, w, d);
            o.result == Ok(TargetPath(w)) && o.memo == Some(TargetPath(w))
            && !PathExists(o.entries, TargetDir(w), ExecutableName(w.os))
  {
  }

  /** Off Windows a refused chmod fails the call but leaves the unpacked file
      with the bit it came with; the next call of the same process then hits
      the cache and returns that file without trying chmod again. */
  lemma FailedChmodIsCachedNext(w: World, d: Dir)
    requires w.os != Windows && AssetFound(w) && CacheMiss(w, d) && w.chmodDenied
    requires w.serve(Found(w).downloadUrl).Ok? && ExecutableName(w.os) in w.serve(Found(w).downloadUrl).value
    ensures var o := Resolve(None, w, d);
            o.result == Err(w.chmodError) && o.memo == None
            && PathExists(o.entries, TargetDir(w), ExecutableName(w.os))
            && o.entries[TargetDir(w)][ExecutableName(w.os)] == w.serve(Found(w).downloadUrl).value[ExecutableName(w.os)]
            && Resolve(None, w, o.entries) == Outcome(Ok(TargetPath(w)), Some(TargetPath(w)), o.entries, LookupCalls)
  {
    var o := Resolve(None, w, d);
    assert PathExists(o.entries, TargetDir(w), ExecutableName(w.os));
    CacheHit(w, o.entries);
  }

  /** After a successful download with no failed deletion, the version
      directory is the only entry with the binary prefix. */
  lemma SingleCachedVersion(w: World, d: Dir)
    requires AssetFound(w) && CacheMiss(w, d) && w.listable
    requires forall n :: n in d && HasPrefix(n, BinaryName) ==> n !in w.undeletable
    ensures var o := Resolve(None, w, d);
            o.result.Ok? ==> TargetDir(w) in o.entries
                             && forall n :: n in o.entries && HasPrefix(n, BinaryName) ==> n == TargetDir(w)
  {
  }

  /** After a success, later calls of the same process return the same path
      with no host call and no change on disk, whatever the host answers. */
  lemma RepeatedCallIsFree(memo: Option<string>, w: World, d: Dir, later: World)
    ensures var o := Resolve(memo, w, d);
            o.result.Ok? ==> Resolve(o.memo, later, o.entries) == Outcome(o.result, o.memo, o.entries, [])
  {
  }

  /** A new process facing the same release finds the binary provisioned by
      an earlier successful call (off Windows) and downloads nothing. */
  lemma RestartHitsCache(w: World, d: Dir)
    requires w.os != Windows
    ensures var o := Resolve(None, w, d);
            o.result.Ok? ==> Resolve(None, w, o.entries) == Outcome(o.result, o.memo, o.entries, LookupCalls)
  {
    var o := Resolve(None, w, d);
    if o.result.Ok? {
      ProvisionedBinaryIsReady(w, d);
      ResolvedPathShape(w, d);
      CacheHit(w, o.entries);
    }
  }

  /** The linux x86_64 asset name. */
  lemma LinuxAssetName()
    ensures AssetName(Linux, X8664) == "mcp-relay-linux-x86_64.tar.gz"
  {
  }

  /** The disk of the stale-version scenario, swept, unpacked and chmodded. */
  lemma StaleVersionDisk(d: Dir)
    requires d == map["mcp-relay-v1.1.0" := map["mcp_relay" := true], "settings" := map[]]
    ensures var fetched := Extracted(Swept(d, BinaryName, {}), "mcp-relay-v1.2.0", map["mcp_relay" := false]);
            PathExists(fetched, "mcp-relay-v1.2.0", "mcp_relay")
            && WithExecutable(fetched, "mcp-relay-v1.2.0", "mcp_relay")
               == map["mcp-relay-v1.2.0" := map["mcp_relay" := true], "settings" := map[]]
  {
    assert HasPrefix("mcp-relay-v1.1.0", BinaryName) && !HasPrefix("settings", BinaryName);
    var swept := Swept(d, BinaryName, {});
    assert swept == map["settings" := map[]];
    assert "mcp-relay-v1.2.0" !in swept;
    assert map[] + map["mcp_relay" := false] == map["mcp_relay" := false];
    var fetched := Extracted(swept, "mcp-relay-v1.2.0", map["mcp_relay" := false]);
    assert fetched == swept["mcp-relay-v1.2.0" := map["mcp_relay" := false]];
    assert map["mcp_relay" := false]["mcp_relay" := true] == map["mcp_relay" := true];
  }

  /** Linux on x86_64, latest release v1.2.0 with the linux asset, a stale
      v1.1.0 directory and an unrelated entry on disk: the stale directory is
      replaced by the new one, whose executable is marked executable. */
  lemma StaleVersionReplaced(w: World, d: Dir)
    requires w.os == Linux && w.arch == X8664 && !w.chmodDenied && w.listable && w.undeletable == {}
    requires w.release == Ok(GithubRelease("v1.2.0", [Asset("mcp-relay-linux-x86_64.tar.gz", "https://releases/linux")]))
    requires w.serve("https://releases/linux") == Ok(map["mcp_relay" := false])
    requires d == map["mcp-relay-v1.1.0" := map["mcp_relay" := true], "settings" := map[]]
    ensures Resolve(None, w, d)
            == Outcome(Ok("mcp-relay-v1.2.0/mcp_relay"), Some("mcp-relay-v1.2.0/mcp_relay"),
                       map["mcp-relay-v1.2.0" := map["mcp_relay" := true], "settings" := map[]],
                       LookupCalls + [HostCall.DownloadFile("https://releases/linux", "mcp-relay-v1.2.0", GzipTar),
                                      HostCall.MakeFileExecutable("mcp-relay-v1.2.0/mcp_relay")])
  {
    LinuxAssetName();
    assert Found(w) == Asset("mcp-relay-linux-x86_64.tar.gz", "https://releases/linux");
    assert TargetDir(w) == "mcp-relay-v1.2.0";
    assert TargetPath(w) == "mcp-relay-v1.2.0/mcp_relay";
    assert "mcp-relay-v1.2.0" !in d;
    StaleVersionDisk(d);
  }

  /** A linux host facing a release that only carries the windows build
      fails, naming the linux asset it expected. */
  lemma OnlyOtherPlatformAsset(w: World, d: Dir)
    requires w.os == Linux && w.arch == X8664
    requires w.release == Ok(GithubRelease("v1.2.0", [Asset("mcp-relay-windows-x86_64.tar.gz", "https://releases/windows")]))
    ensures Resolve(None, w, d) == Outcome(Err("Asset not found: " + "mcp-relay-linux-x86_64.tar.gz"), None, d, LookupCalls)
  {
    assert AssetName(Windows, X8664) != AssetName(Linux, X8664) by {
      AssetNameInjective(Linux, X8664, Windows, X8664);
    }
    assert w.release.value.assets[0].name == AssetName(Windows, X8664);
    AssetMissing(w, d);
    LinuxAssetName();
  }
}
