/** The extension: resolution of the helper binary (memo check, platform
    names, release and asset lookup, cache check, sweep of stale entries,
    download, chmod, memoization) and the command handed to the editor.

    `Resolve` states what one call of get_binary does as a function of the
    memo, the host's answers and the working directory; the class's methods
    are proved to behave as it says, and the lemmas below state the
    properties of `Resolve`. */
module Extension {
  import opened Wrappers
  import opened Platform
  import opened Releases
  import opened Workdir
  import opened ZedHost

  /** Repository whose releases carry the helper. */
  const McprRepo: string := "moshyfawn/mcp-relay"

  /** Endpoint the helper is told to relay to. */
  const McpUrl: string := "https://font.emtech.cc/mcp"

  /** Only full releases that have downloadable assets. */
  const ReleaseQuery: GithubReleaseOptions := GithubReleaseOptions(true, false)

  /** The calls every memo miss starts with. */
  const LookupCalls: seq<HostCall> :=
    [HostCall.CurrentPlatform, HostCall.LatestGithubRelease(McprRepo, ReleaseQuery)]

  /** The command the editor launches. */
  datatype Command = Command(command: string, args: seq<string>, env: seq<(string, string)>)

  /** Effect of one get_binary call: its result, the memo afterwards, the
      working directory afterwards and the host API calls made, in order. */
  datatype Outcome = Outcome(result: Result<string>, memo: Option<string>, entries: Dir, calls: seq<HostCall>)

  /** Directory holding one release version; the version can be read back
      from its name. */
  function VersionDir(version: string): (dir: string)
    ensures BinaryName + "-" <= dir && dir[|BinaryName| + 1..] == version
  {
    BinaryName + "-" + version
  }

  /** Path of the executable inside the version directory, relative to the
      working directory. */
  function BinaryPath(version: string, os: Os): (path: string)
    ensures VersionDir(version) + "/" <= path
    ensures path[|VersionDir(version)| + 1..] == ExecutableName(os)
  {
    VersionDir(version) + "/" + ExecutableName(os)
  }

  /** One get_binary call. */
  function Resolve(memo: Option<string>, w: World, d: Dir): (o: Outcome)
    ensures o.result.Ok? ==> o.memo == Some(o.result.value)
    ensures o.result.Err? ==> o.memo == memo
  {
    if memo.Some? then Outcome(Ok(memo.value), memo, d, [])
    else
      match w.release
      case Err(e) => Outcome(Err(e), None, d, LookupCalls)
      case Ok(release) =>
        match LocateAsset(release, AssetName(w.os, w.arch))
        case Err(e) => Outcome(Err(e), None, d, LookupCalls)
        case Ok(asset) =>
          var o := Provision(w, d, release.version, asset);
          o.(calls := LookupCalls + o.calls)
  }

  /** The cache manager: the part of a memo miss after the asset is found,
      with the host calls it makes itself. */
  function Provision(w: World, d: Dir, version: string, asset: Asset): (o: Outcome)
    ensures o.result.Ok? ==> o.result.value == BinaryPath(version, w.os) && o.memo == Some(o.result.value)
    ensures o.result.Err? ==> o.memo == None
  {
    var dir, exe, path := VersionDir(version), ExecutableName(w.os), BinaryPath(version, w.os);
    if PathExists(d, dir, exe) then Outcome(Ok(path), Some(path), d, [])
    else
      var swept := if w.listable then Swept(d, BinaryName, w.undeletable) else d;
      var fetchCalls := [HostCall.DownloadFile(asset.downloadUrl, dir, GzipTar)];
      match w.serve(asset.downloadUrl)
      case Err(e) => Outcome(Err("Download failed: " + e), None, swept, fetchCalls)
      case Ok(files) =>
        var fetched := Extracted(swept, dir, files);
        if w.os == Windows then Outcome(Ok(path), Some(path), fetched, fetchCalls)
        else
          var allCalls := fetchCalls + [HostCall.MakeFileExecutable(path)];
          match Chmod(w, fetched, dir, exe)
          case Err(e) => Outcome(Err(e), None, fetched, allCalls)
          case Ok(ready) => Outcome(Ok(path), Some(path), ready, allCalls)
  }

  /** The command built from the binary's resolution: the binary with the
      endpoint as its only argument and no environment, or the resolution's
      error unchanged. */
  function CommandFor(binary: Result<string>): (r: Result<Command>)
    ensures r.Ok? <==> binary.Ok?
    ensures r.Ok? ==> r.value.command == binary.value && r.value.args == [McpUrl] && r.value.env == []
    ensures r.Err? ==> r.error == binary.error
  {
    match binary
    case Ok(path) => Ok(Command(path, [McpUrl], []))
    case Err(e) => Err(e)
  }

  class EmfontMcpExtension {
    var binaryPath: Option<string>

    constructor ()
      ensures binaryPath == None
    {
      binaryPath := None;
    }

    method GetBinary(host: Host) returns (r: Result<string>)
      modifies this, host
      ensures var o := Resolve(old(binaryPath), old(host.world), old(host.entries));
              r == o.result && binaryPath == o.memo && host.entries == o.entries
              && host.calls == old(host.calls) + o.calls
      ensures host.world == old(host.world)
      ensures r.Ok? ==> binaryPath == Some(r.value)
      ensures r.Err? ==> binaryPath == old(binaryPath)
    {
      if binaryPath.Some? {
        return Ok(binaryPath.value);
      }
      r := AcquireBinary(host);
      if r.Ok? {
        binaryPath := Some(r.value);
      }
    }

    method ContextServerCommand(host: Host) returns (r: Result<Command>)
      modifies this, host
      ensures var o := Resolve(old(binaryPath), old(host.world), old(host.entries));
              r == CommandFor(o.result) && binaryPath == o.memo && host.entries == o.entries
              && host.calls == old(host.calls) + o.calls
      ensures host.world == old(host.world)
    {
      var binary := GetBinary(host);
      if binary.Err? {
        return Err(binary.error);
      }
      return Ok(Command(binary.value, [McpUrl], []));
    }
  }

  /** A memo miss: the platform and release calls, the asset lookup and the
      cache manager's steps. */
  method AcquireBinary(host: Host) returns (r: Result<string>)
    modifies host
    ensures var o := Resolve(None, old(host.world), old(host.entries));
            r == o.result && host.entries == o.entries && host.calls == old(host.calls) + o.calls
    ensures host.world == old(host.world)
  {
    var os, arch := host.CurrentPlatform();
    var release := host.LatestGithubRelease(McprRepo, ReleaseQuery);
    assert host.calls == old(host.calls) + LookupCalls;
    if release.Err? {
      return Err(release.error);
    }
    var assetName := AssetName(os, arch);
    var asset := LocateAsset(release.value, assetName);
    if asset.Err? {
      return Err(asset.error);
    }
    r := EnsureBinary(host, os, release.value.version, asset.value);
  }

  /** The cache manager's steps on the host, after the asset is found. */
  method EnsureBinary(host: Host, os: Os, version: string, asset: Asset) returns (r: Result<string>)
    requires os == host.world.os
    modifies host
    ensures var o := Provision(old(host.world), old(host.entries), version, asset);
            r == o.result && host.entries == o.entries
            && host.calls == old(host.calls) + o.calls
    ensures host.world == old(host.world)
  {
    var binaryName := ExecutableName(os);
    var versionDir := VersionDir(version);
    var path := versionDir + "/" + binaryName;
    var present := host.Metadata(versionDir, binaryName);
    if !present {
      RemoveStaleEntries(host);
      var downloaded := host.DownloadFile(asset.downloadUrl, versionDir, GzipTar);
      if downloaded.Err? {
        return Err("Download failed: " + downloaded.error);
      }
      if os != Windows {
        var made := host.MakeFileExecutable(versionDir, binaryName);
        if made.Err? {
          return Err(made.error);
        }
      }
    }
    return Ok(path);
  }

  /** The cleanup sweep: every listed entry whose name starts with the binary
      prefix is deleted, best effort; failures are ignored. */
  method RemoveStaleEntries(host: Host)
    modifies host`entries
    ensures host.entries
            == if host.world.listable then Swept(old(host.entries), BinaryName, host.world.undeletable)
               else old(host.entries)
  {
    var listing := host.ReadDir();
    if listing.Some? {
      ghost var d0 := host.entries;
      var pending := listing.value;
      while pending != {}
        invariant pending <= d0.Keys
        invariant host.entries == d0 - Doomed(d0.Keys - pending, BinaryName, host.world.undeletable)
        decreases pending
      {
        var name :| name in pending;
        if HasPrefix(name, BinaryName) {
          var _ := host.RemoveDirAll(name);
        }
        pending := pending - {name};
      }
    }
  }
}
