/** The Release Locator: a release as the host reports it and the lookup of
    the asset built for this platform. */
module Releases {
  import opened Wrappers

  datatype Asset = Asset(name: string, downloadUrl: string)

  datatype GithubRelease = GithubRelease(version: string, assets: seq<Asset>)

  /** The filter passed with the release query. */
  datatype GithubReleaseOptions = GithubReleaseOptions(requireAssets: bool, preRelease: bool)

  /** Index of the first asset called `name`, if any. */
  function FindAsset(assets: seq<Asset>, name: string): (r: Option<nat>)
    ensures r.Some? ==> r.value < |assets| && assets[r.value].name == name
    ensures r.Some? ==> forall j :: 0 <= j < r.value ==> assets[j].name != name
    ensures r.None? ==> forall j :: 0 <= j < |assets| ==> assets[j].name != name
  {
    if |assets| == 0 then None
    else if assets[0].name == name then Some(0)
    else
      match FindAsset(assets[1..], name)
      case None => None
      case Some(i) => Some(i + 1)
  }

  /** The asset of `release` whose name is exactly `name`, the first one when
      several are; an error naming the expected asset when there is none. */
  function LocateAsset(release: GithubRelease, name: string): (r: Result<Asset>)
    ensures r.Ok? ==> r.value in release.assets && r.value.name == name
    ensures r.Ok? ==> exists i :: 0 <= i < |release.assets| && release.assets[i] == r.value
                                  && forall j :: 0 <= j < i ==> release.assets[j].name != name
    ensures r.Err? <==> forall a :: a in release.assets ==> a.name != name
    ensures r.Err? ==> r.error == "Asset not found: " + name
  {
    match FindAsset(release.assets, name)
    case Some(i) => Ok(release.assets[i])
    case None => Err("Asset not found: " + name)
  }
}
