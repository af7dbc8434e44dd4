/** How the clients of githarbor/clients/github.py and githarbor/clients/external_releases.py turn
    a release they are sent into the source that is mirrored. */
module ReleaseSource {
  import opened Wrappers
  import opened ReleaseState

  datatype Provider = GitHub | Forgejo | GitLab

  /** An asset as it is sent; a field that is absent, null or empty is an empty string or zero.
      `hosted` tells whether its size is given and its download is on the repository's own host. */
  datatype RawAsset = RawAsset(id: int, name: string, url: string, state: string, hosted: bool, size: nat, digest: string)

  datatype RawRelease = RawRelease(id: int, url: string, tag: string, target: string, name: string, body: string,
                                   draft: bool, prerelease: bool, assets: seq<RawAsset>)

  function Or(text: string, otherwise: string): string {
    if text == "" then otherwise else text
  }

  function ReadAsset(from: Provider, a: RawAsset): SourceAsset {
    match from
    case GitHub => SourceAsset(a.id, a.name, Or(a.state, "uploaded") == "uploaded", a.size, if a.digest == "" then None else Some(a.digest))
    case Forgejo => SourceAsset(a.id, Or(a.name, "asset"), a.hosted, a.size, None)
    case GitLab => SourceAsset(a.id, Or(a.name, "asset"), false, 0, None)
  }

  /** Assets without a download address are left out, except on GitHub, which always sends one. */
  function ReadAssets(from: Provider, raw: seq<RawAsset>): seq<SourceAsset> {
    if raw == [] then [] else
      var rest := ReadAssets(from, raw[..|raw| - 1]);
      var a := raw[|raw| - 1];
      if from != GitHub && a.url == "" then rest else rest + [ReadAsset(from, a)]
  }

  function ReadRelease(from: Provider, home: string, r: RawRelease): Source {
    Source(r.id, if from == GitHub then r.url else Or(r.url, home), r.tag, if from == GitLab then "" else r.target,
           Or(r.name, r.tag), r.body, r.draft, from != GitLab && r.prerelease, ReadAssets(from, r.assets))
  }

  function ReadReleases(from: Provider, home: string, raw: seq<RawRelease>): (sources: seq<Source>)
    ensures |sources| == |raw|
  {
    seq(|raw|, i requires 0 <= i < |raw| => ReadRelease(from, home, raw[i]))
  }

  /** Gitea shows the source's name as it is. */
  predicate Shown(s: Source) {
    s.name != "" || s.tag == ""
  }

  /** Names as shown and no empty digests, which a marker cannot tell from missing ones. */
  predicate Plain(s: Source) {
    Shown(s) && forall i | 0 <= i < |s.assets| :: s.assets[i].digest != Some("")
  }

  ghost predicate AllPlain(sources: seq<Source>) {
    forall i | 0 <= i < |sources| :: Plain(sources[i])
  }

  lemma {:induction false} ReadAssetsDigested(from: Provider, raw: seq<RawAsset>, i: nat)
    requires i < |ReadAssets(from, raw)|
    ensures ReadAssets(from, raw)[i].digest != Some("")
  {
    if raw != [] && i < |ReadAssets(from, raw[..|raw| - 1])| {
      ReadAssetsDigested(from, raw[..|raw| - 1], i);
    }
  }

  /** Every source a client builds is plain: a missing name falls back to the tag, and an empty
      digest counts as missing. */
  lemma ReadIsPlain(from: Provider, home: string, raw: seq<RawRelease>)
    ensures AllPlain(ReadReleases(from, home, raw))
  {
    forall i | 0 <= i < |raw|
      ensures Plain(ReadReleases(from, home, raw)[i])
    {
      forall k | 0 <= k < |ReadAssets(from, raw[i].assets)|
        ensures ReadAssets(from, raw[i].assets)[k].digest != Some("")
      {
        ReadAssetsDigested(from, raw[i].assets, k);
      }
      hide ReadAssets;
    }
  }
}
