/** The host side: the editor's extension API (platform, release index,
    download and chmod primitives) and the process's working directory.
    The API's answers are given up front in a `World`; each call into the API
    is recorded in a ghost log so that contracts can say which calls happen. */
module ZedHost {
  import opened Wrappers
  import opened Platform
  import opened Releases
  import opened Workdir

  datatype DownloadedFileType = GzipTar | Gzip | Zip | Uncompressed

  /** A call into the editor's extension API. */
  datatype HostCall =
    | CurrentPlatform
    | LatestGithubRelease(repo: string, options: GithubReleaseOptions)
    | DownloadFile(url: string, destination: string, fileType: DownloadedFileType)
    | MakeFileExecutable(path: string)

  /** What the host answers: the running platform, the latest release of the
      queried repository (or its error), what each download URL unpacks to (or
      the transport error), whether chmod is refused and the error it reports,
      the entries whose recursive deletion fails, and whether the working
      directory can be listed. */
  datatype World = World(
    os: Os,
    arch: Architecture,
    release: Result<GithubRelease>,
    serve: string -> Result<Files>,
    chmodDenied: bool,
    chmodError: string,
    undeletable: set<string>,
    listable: bool)

  /** Outcome of make_file_executable on `entry/file`: it fails when the path
      is missing or the host refuses. */
  function Chmod(w: World, d: Dir, entry: string, file: string): (r: Result<Dir>)
    ensures r.Ok? <==> !w.chmodDenied && PathExists(d, entry, file)
    ensures r.Err? ==> r.error == w.chmodError
    ensures r.Ok? ==> r.value == WithExecutable(d, entry, file)
  {
    if w.chmodDenied || !PathExists(d, entry, file) then Err(w.chmodError)
    else Ok(WithExecutable(d, entry, file))
  }

  class Host {
    var world: World
    var entries: Dir
    ghost var calls: seq<HostCall>

    constructor (world: World, entries: Dir)
      ensures this.world == world && this.entries == entries && calls == []
    {
      this.world := world;
      this.entries := entries;
      calls := [];
    }

    method CurrentPlatform() returns (os: Os, arch: Architecture)
      modifies this`calls
      ensures os == world.os && arch == world.arch
      ensures calls == old(calls) + [HostCall.CurrentPlatform]
    {
      os, arch := world.os, world.arch;
      calls := calls + [HostCall.CurrentPlatform];
    }

    method LatestGithubRelease(repo: string, options: GithubReleaseOptions) returns (r: Result<GithubRelease>)
      modifies this`calls
      ensures r == world.release
      ensures calls == old(calls) + [HostCall.LatestGithubRelease(repo, options)]
    {
      r := world.release;
      calls := calls + [HostCall.LatestGithubRelease(repo, options)];
    }

    /** Whether `entry/file` exists (fs::metadata succeeding). */
    method Metadata(entry: string, file: string) returns (found: bool)
      ensures found == PathExists(entries, entry, file)
    {
      found := entry in entries && file in entries[entry];
    }

    /** Names of the working directory's entries, if it can be listed. */
    method ReadDir() returns (names: Option<set<string>>)
      ensures names == if world.listable then Some(entries.Keys) else None
    {
      names := if world.listable then Some(entries.Keys) else None;
    }

    /** Recursive deletion of one entry; reports whether it succeeded. */
    method RemoveDirAll(name: string) returns (ok: bool)
      modifies this`entries
      ensures ok == (name in old(entries) && name !in world.undeletable)
      ensures entries == if ok then old(entries) - {name} else old(entries)
    {
      ok := name in entries && name !in world.undeletable;
      if ok {
        entries := entries - {name};
      }
    }

    /** Fetches `url` and unpacks it into the entry `destination`. */
    method DownloadFile(url: string, destination: string, fileType: DownloadedFileType) returns (r: Result<()>)
      modifies this`entries, this`calls
      ensures calls == old(calls) + [HostCall.DownloadFile(url, destination, fileType)]
      ensures world.serve(url).Err? ==> r == Err(world.serve(url).error) && entries == old(entries)
      ensures world.serve(url).Ok? ==> r == Ok(()) && entries == Extracted(old(entries), destination, world.serve(url).value)
    {
      calls := calls + [HostCall.DownloadFile(url, destination, fileType)];
      match world.serve(url)
      case Err(e) =>
        r := Err(e);
      case Ok(files) =>
        entries := Extracted(entries, destination, files);
        r := Ok(());
    }

    /** Sets the executable bit of `entry/file`. */
    method MakeFileExecutable(entry: string, file: string) returns (r: Result<()>)
      modifies this`entries, this`calls
      ensures calls == old(calls) + [HostCall.MakeFileExecutable(entry + "/" + file)]
      ensures var c := Chmod(world, old(entries), entry, file);
              (c.Err? ==> r == Err(c.error) && entries == old(entries))
              && (c.Ok? ==> r == Ok(()) && entries == c.value)
    {
      calls := calls + [HostCall.MakeFileExecutable(entry + "/" + file)];
      var c := Chmod(world, entries, entry, file);
      if c.Err? {
        r := Err(c.error);
      } else {
        entries := c.value;
        r := Ok(());
      }
    }
  }
}
