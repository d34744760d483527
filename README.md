# emfont-mcp-zed: provisioning the mcp-relay helper

A model of the editor extension that launches the `mcp-relay` helper for the
emfont MCP endpoint. When the editor asks for the context server's command,
the extension resolves the helper binary as follows:

1. It returns the memoized path if it has one.
2. Otherwise it reads the host's (OS, architecture) pair and asks the release
   index for the latest full release of `moshyfawn/mcp-relay`.
3. It looks for the asset `mcp-relay-{os}-{arch}.tar.gz`.
4. It checks whether `mcp-relay-{version}/{executable}` already exists in the
   working directory.
5. On a miss, it deletes every entry whose name starts with `mcp-relay`
   (best effort) and downloads and unpacks the asset into the version
   directory. Off Windows it then marks the executable.
6. It memoizes the path only when every step succeeded.

The command is that path, with the endpoint URL as its only argument and an
empty environment.

Modules:

- `Wrappers` holds `Option` and `Result`. Errors are strings, as in the host API.
- `Platform` holds the OS and architecture, their asset-name tokens, the asset
  name and the executable name.
- `Releases` holds assets, releases and the exact-name asset lookup.
- `Workdir` models the working directory. It is a map from top-level entry
  names to the files inside each entry, and each file carries its executable
  bit. The module also holds the sweep, unpacking and chmod as functions on
  that map.
- `ZedHost` models the host. It is a class `Host` with two parts. The first is
  `world`, the host's scripted answers: the platform, the release-query
  result, what each download URL unpacks to or its error, whether chmod is
  refused, which entries resist deletion, and whether the directory can be
  listed. The second is the mutable working directory `entries`. A ghost log
  `calls` records each call into the editor's API (platform, release query,
  download, chmod), in order.
- `Extension` holds `Resolve`, a function that gives one `get_binary` call's
  result, memo, new working directory and API calls from the old memo, the
  host's answers and the old directory. It also holds the class
  `EmfontMcpExtension` with its `binaryPath` memo field. Each method is
  proved against a function: `GetBinary` against `Resolve`, `AcquireBinary`
  (the memo miss) against `Resolve` with no memo, `EnsureBinary` (the cache
  manager) against `Provision`, `RemoveStaleEntries` (the deletion loop)
  against `Swept`, and `ContextServerCommand` against `CommandFor` of
  `Resolve`'s result.
- `ResolveProperties` holds the lemmas about `Resolve`.

Behaviour of the code worth noting:

- The returned path is relative to the working directory, not absolute.
- A failed release query surfaces the host's own error unchanged. There is no
  separate "release not found" error.
- Only a cache miss sweeps. A successful call that hit the cache leaves any
  stale version directories in place.
- A deletion that fails leaves its entry behind. So "one cached version"
  holds only after a miss in which every deletion succeeded
  (`SingleCachedVersion`).
- On Windows nothing checks the unpacked archive. A download without the
  executable still yields, and memoizes, a path that names no file
  (`WindowsTrustsDownload`).
- Every call without a memoized path queries the platform and the latest
  release, even when the binary is already on disk (`CacheHit`).
- Off Windows a refused chmod fails the call but leaves the unpacked file on
  disk with the bit it came with. The next call of the same process hits the
  cache and returns that file without trying chmod again
  (`FailedChmodIsCachedNext`).

## Model

| member | source | states |
|---|---|---|
| `Platform.OsToken` | src/lib.rs:37-41 | the OS token is `darwin` exactly on macOS, `linux` exactly on Linux and `windows` exactly on Windows |
| `Platform.ArchToken` | src/lib.rs:42-45 | the architecture token is `aarch64` exactly for Aarch64, and `x86_64` exactly for X8664 and X86 |
| `Platform.AssetName` | src/lib.rs:34-46 | the asset name starts with `mcp-relay-` and ends with `.tar.gz`, and its length is the prefix plus the two tokens plus the separator and `.tar.gz` |
| `Platform.ExecutableName` | src/lib.rs:20-24 | the executable is `mcp_relay.exe` if and only if the OS is Windows, and `mcp_relay` if and only if it is not |
| `Platform.AssetNameInjective` | src/lib.rs:34-46 | two platforms get the same asset name exactly when they share the OS and both or neither are aarch64; distinct builds never collide, and x86 and x86_64 share one |
| `Releases.FindAsset` | src/lib.rs:48-51 | returns the index of the first asset whose name equals the expected name exactly, and none only when no asset has that name |
| `Releases.LocateAsset` | src/lib.rs:48-52 | returns an asset of the release with exactly the expected name and no earlier match; fails if and only if no asset has that name, with `Asset not found: ` followed by the expected name |
| `Workdir.Swept` | src/lib.rs:58-65 | after the sweep exactly the entries without the `mcp-relay` prefix, plus those whose deletion failed, remain; the model keeps every remaining entry whole, including one whose deletion failed |
| `Workdir.Extracted` | src/lib.rs:67-72 | unpacking creates the version directory if needed and adds the archive's files to it, replacing files of the same path; files not in the archive keep their bit, and other entries are unchanged |
| `Workdir.WithExecutable` | src/lib.rs:74-76 | chmod sets the executable bit of that one file and changes nothing else |
| `ZedHost.Chmod` | src/lib.rs:74-76 | make_file_executable succeeds exactly when the file exists and the host does not refuse; on failure the host's error is reported |
| `ZedHost.Host.constructor` | src/lib.rs:18-32 | a host starts with the given answers and directory, and an empty call log |
| `ZedHost.Host.CurrentPlatform` | src/lib.rs:18 | returns the host's platform and logs the call |
| `ZedHost.Host.LatestGithubRelease` | src/lib.rs:26-32 | returns the host's release answer and logs the query with its repository and filter |
| `ZedHost.Host.Metadata` | src/lib.rs:57 | reports whether the binary's path names a file |
| `ZedHost.Host.ReadDir` | src/lib.rs:58 | lists the working directory's entry names, or fails when it cannot be listed |
| `ZedHost.Host.RemoveDirAll` | src/lib.rs:62 | deletes one entry unless its deletion fails, and reports which happened |
| `ZedHost.Host.DownloadFile` | src/lib.rs:67-72 | logs the download; on success unpacks the archive into the destination, and on failure returns the error with the directory unchanged |
| `ZedHost.Host.MakeFileExecutable` | src/lib.rs:74-75 | logs the chmod of the path and applies `Chmod` to the directory |
| `Extension.Resolve` | src/lib.rs:13-81 | one get_binary call: after a success the memo holds the returned path, and after a failure the memo is unchanged |
| `Extension.Provision` | src/lib.rs:54-80 | the cache manager succeeds only with `mcp-relay-{version}/{executable}` and then memoizes it; a failure memoizes nothing |
| `Extension.VersionDir` | src/lib.rs:54 | the version directory is `mcp-relay-` followed by the release version, which can be read back from it |
| `Extension.BinaryPath` | src/lib.rs:55 | the binary path is the version directory, `/`, then the platform's executable name |
| `Extension.CommandFor` | src/lib.rs:94-98 | the command is the resolved binary with exactly the endpoint URL as its arguments and no environment; a resolution error is returned unchanged |
| `Extension.EmfontMcpExtension.constructor` | src/lib.rs:85-87 | a new extension has no memoized path |
| `Extension.EmfontMcpExtension.GetBinary` | src/lib.rs:13-81 | result, memo, directory and API calls are those `Resolve` gives for the old state; the memo becomes the returned path on success and is unchanged on failure |
| `Extension.EmfontMcpExtension.ContextServerCommand` | src/lib.rs:89-99 | returns `CommandFor` of the binary's resolution, with the same state change as `GetBinary` |
| `Extension.AcquireBinary` | src/lib.rs:18-77 | a memo miss: the platform and release calls, then the asset lookup, then the cache manager, with result, directory and calls exactly as `Resolve` gives |
| `Extension.EnsureBinary` | src/lib.rs:54-77 | checks the cache, then sweeps, downloads and chmods only on a miss, exactly as `Provision` gives |
| `Extension.RemoveStaleEntries` | src/lib.rs:58-65 | the deletion loop leaves the directory `Swept` when it can be listed and unchanged otherwise; deletion failures are ignored |
| `ResolveProperties.VersionDirHasPrefix` | src/lib.rs:54 | every version directory starts with `mcp-relay`, so the sweep covers it |
| `ResolveProperties.ProvisionKeepsOthers` | src/lib.rs:54-76 | the cache manager never creates, deletes or changes an entry without the `mcp-relay` prefix |
| `ResolveProperties.ProvisionIgnoresCleanup` | src/lib.rs:58-65 | the cache manager's result, memo and calls do not depend on which deletions fail or on whether the directory can be listed |
| `ResolveProperties.ProvisionChmodCalls` | src/lib.rs:67-76 | the cache manager calls chmod only off Windows, on a cache miss, right after a successful download, and on the binary's path |
| `ResolveProperties.ProvisionLeavesBinary` | src/lib.rs:57-76 | off Windows a successful cache manager leaves the binary on disk, executable when it was downloaded |
| `ResolveProperties.MemoHitMakesNoCalls` | src/lib.rs:14-16 | with a memoized path, the call returns it with no host call and no change on disk |
| `ResolveProperties.ResolvedPathShape` | src/lib.rs:54-55 | a freshly resolved path is `mcp-relay-` + version + `/` + executable name, for a fetched release that has the asset |
| `ResolveProperties.ReleaseQueryFailure` | src/lib.rs:26-32 | a failed release query returns the host's error after the platform and release calls only, with disk and memo unchanged |
| `ResolveProperties.AssetMissing` | src/lib.rs:48-52 | without the expected asset the call fails with `Asset not found: ` + name, before any disk change or download, and memoizes nothing |
| `ResolveProperties.NothingTouchedBeforeAssetFound` | src/lib.rs:18-57 | every memo miss starts with the platform and release calls, and the disk changes or a download starts only after the asset is found |
| `ResolveProperties.CacheHit` | src/lib.rs:57 | when the executable exists, it is returned and memoized, with no deletion, download or chmod |
| `ResolveProperties.CacheMissSweepsStaleEntries` | src/lib.rs:58-65 | on a miss with a directory that can be listed, a prefixed entry remains only if its deletion failed, or if it is the new version directory after a successful download |
| `ResolveProperties.OtherEntriesUntouched` | src/lib.rs:58-76 | entries without the `mcp-relay` prefix are never created, deleted or changed |
| `ResolveProperties.CleanupFailuresNeverSurface` | src/lib.rs:58-65 | result, memo and calls are the same whichever deletions fail and whether the directory can be listed |
| `ResolveProperties.DownloadFailure` | src/lib.rs:67-72 | a failed download returns `Download failed: ` + detail, memoizes nothing, and is followed by no chmod |
| `ResolveProperties.ChmodOnlyAfterDownload` | src/lib.rs:74-76 | chmod is called only on a memo miss and a cache miss, off Windows, right after a successful download, and on the returned path |
| `ResolveProperties.ProvisionedBinaryIsReady` | src/lib.rs:57-80 | off Windows a returned path names a file, and one that had to be downloaded is executable |
| `ResolveProperties.WindowsTrustsDownload` | src/lib.rs:67-80 | on Windows a download without the executable still returns and memoizes the path, which names no file |
| `ResolveProperties.FailedChmodIsCachedNext` | src/lib.rs:57-76 | off Windows a refused chmod fails with the host's error and memoizes nothing, but leaves the unpacked file with its original bit, which the next call returns from the cache after only the lookup calls |
| `ResolveProperties.SingleCachedVersion` | src/lib.rs:57-80 | when the directory can be listed, after a successful miss in which no deletion failed, the version directory is the only entry with the prefix |
| `ResolveProperties.RepeatedCallIsFree` | src/lib.rs:14-16 | after a success, a later call in the same process returns the same path with no host call and no disk change, whatever the host answers |
| `ResolveProperties.RestartHitsCache` | src/lib.rs:57 | off Windows, a new process facing the same release finds the provisioned binary and downloads nothing |
| `ResolveProperties.LinuxAssetName` | src/lib.rs:34-52 | the linux x86_64 asset is `mcp-relay-linux-x86_64.tar.gz` |
| `ResolveProperties.StaleVersionDisk` | src/lib.rs:58-76 | sweeping, unpacking and chmod turn the stale v1.1.0 disk into one holding an executable v1.2.0 binary next to the untouched entry |
| `ResolveProperties.StaleVersionReplaced` | src/lib.rs:13-81 | linux x86_64 with release v1.2.0 and a stale v1.1.0 directory: returns `mcp-relay-v1.2.0/mcp_relay`, replaces the stale directory and makes exactly the expected four calls |
| `ResolveProperties.OnlyOtherPlatformAsset` | src/lib.rs:48-52 | a linux host facing only the windows asset fails with `Asset not found: mcp-relay-linux-x86_64.tar.gz` and changes nothing |

## Left out

- The editor API calls (`current_platform`, `latest_github_release`, `download_file`, `make_file_executable`) are foreign calls. They are modelled by the scripted answers in `World`, each of which may succeed or fail.
- The release index's filtering (latest, non-pre-release, with assets) happens in the host. The model only records that the query is sent with `require_assets` true and `pre_release` false.
- Network transport and gzip/tar decompression are modelled as `serve`, which maps each URL to the files it unpacks to or to an error. A failed download leaves the directory as the sweep left it. Partial extraction is not modelled.
- `read_dir` order and entries it cannot read are not modelled. The sweep visits the listed names as a set, and an entry whose deletion fails stands for both cases.
- Workdir.Swept, ZedHost.Host.RemoveDirAll: a failed deletion is modelled as leaving the entry whole. `remove_dir_all` removes contents first and stops at the first failure, so it can leave an entry with only some of its files; that partial removal is not modelled. A top-level plain file with the prefix, which `remove_dir_all` always fails on, can only be modelled as an entry in `undeletable`. Result, memo and calls do not depend on this (`CleanupFailuresNeverSurface`).
- ZedHost.Host.Metadata: `Dir` has no permissions and no symbolic links, so `Metadata` fails exactly when the path is absent. A path that exists but cannot be inspected, which `fs::metadata` also reports as an error and so as a cache miss, is not modelled.
- OS file-name encoding (`to_string_lossy`) is not modelled, and names are compared as strings.
- Paths are modelled as (top-level entry, file inside it). A version containing `/` would nest the path more deeply, and that is not modelled. A top-level plain file is not told apart from an empty directory.
- `fs::metadata` and `fs::read_dir` are read-only, and the call log does not record them or `remove_dir_all`. Their effects show in `entries`.
- The `register_extension!` macro and the unused `ContextServerId` and `Project` parameters are host registration glue.
- Concurrent calls are not modelled, and neither is the race between cleanup and download they allow. The source is sequential.
