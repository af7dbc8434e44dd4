/** What a mirrored release shows of the release a provider sent, said in the terms of both. */
module ReleaseCopies {
  import opened Wrappers
  import opened ReleaseMarker
  import opened ReleaseSource
  import opened ReleaseState
  import opened ReleaseSteps
  import opened ReleaseRuns

  /** The release shows the one that was sent: its tag, its name or else its tag, its flags, its
      target and its notes. GitLab knows neither targets nor prereleases. */
  ghost predicate Copies(from: Provider, home: string, raw: RawRelease, r: Release) {
    && r.tag == raw.tag && r.name == (if raw.name == "" then raw.tag else raw.name) && r.draft == raw.draft
    && (if from == GitLab then r.target == "" && !r.prerelease else r.target == raw.target && r.prerelease == raw.prerelease)
    && exists m: Marker :: m.githubId == raw.id && CopiesNotes(from, home, raw, r, m)
  }

  ghost predicate CopiesNotes(from: Provider, home: string, raw: RawRelease, r: Release, m: Marker) {
    ShowsNotes(raw.body, if from != GitHub && raw.url == "" then home else raw.url, "<!-- githarbor-release:" + MarkerText(m) + " -->", r.body)
  }

  /** The mirror of a release that was sent, the last one listed with its marker, shows it. */
  ghost predicate Copied(sv: Server, from: Provider, home: string, raw: RawRelease) {
    exists i :: LastMarked(sv.order, sv.releases, raw.id, i) && Copies(from, home, raw, sv.releases[sv.order[i]])
  }

  ghost predicate AllCopied(sv: Server, from: Provider, home: string, raw: seq<RawRelease>) {
    forall i | 0 <= i < |raw| :: Copied(sv, from, home, raw[i])
  }

  /** An attachment has the name and the size of the asset that was sent; outside GitHub a nameless
      one is called `asset`, and GitLab sends no sizes. */
  ghost predicate Attaches(at: map<int, Attachment>, from: Provider, a: RawAsset) {
    exists x :: x in at && at[x].name == (if from != GitHub && a.name == "" then "asset" else a.name)
                && at[x].size == (if from == GitLab then 0 else a.size)
  }

  /** The mirror has an attachment for each asset that was sent, where it can be downloaded. */
  ghost predicate AssetsCopied(sv: Server, from: Provider, raw: RawRelease) {
    exists i :: LastMarked(sv.order, sv.releases, raw.id, i) && sv.order[i] in sv.attachments
                && forall a | a in raw.assets && (from == GitHub || a.url != "") :: Attaches(sv.attachments[sv.order[i]], from, a)
  }

  /** The answer about the latest release contradicts what was sent. */
  ghost predicate Contradicts(from: Provider, raw: seq<RawRelease>, latestRelease: Option<int>) {
    if latestRelease.Some? then forall i | 0 <= i < |raw| :: raw[i].id != latestRelease.value
    else exists i | 0 <= i < |raw| :: !raw[i].draft && (from == GitLab || !raw[i].prerelease)
  }

  lemma ContradictsIff(from: Provider, home: string, raw: seq<RawRelease>, latestRelease: Option<int>)
    ensures Contradicted(ReadReleases(from, home, raw), latestRelease) <==> Contradicts(from, raw, latestRelease)
  {
    hide ReleaseSource.ReadAssets;
    var sources := ReadReleases(from, home, raw);
    forall i | 0 <= i < |raw|
      ensures sources[i].id == raw[i].id && (Stable(sources[i]) <==> !raw[i].draft && (from == GitLab || !raw[i].prerelease))
    {
      assert sources[i] == ReadRelease(from, home, raw[i]);
    }
  }

  /** A release that shows the source a client built from what was sent shows what was sent. */
  lemma ShowsCopies(from: Provider, home: string, raw: RawRelease, r: Release, m: Marker)
    requires m.githubId == raw.id && Shows(r, ReadRelease(from, home, raw), m)
    ensures Copies(from, home, raw, r)
  {
    hide ShowsNotes, MarkerText, ReleaseSource.ReadAssets;
    assert CopiesNotes(from, home, raw, r, m);
  }

  lemma RepresentedIsCopied(sv: Server, from: Provider, home: string, raw: RawRelease)
    requires Represented(sv, ReadRelease(from, home, raw))
    ensures Copied(sv, from, home, raw)
  {
    var s := ReadRelease(from, home, raw);
    hide MarkerOf, MarkerId, ManagedIds, Shows, Copies, ReleaseSource.ReadAssets, Normalized, LastMarked;
    ManagedIdsSound(sv.order, sv.releases, raw.id);
    var m :| RepresentedAt(sv, s, Managed(sv)[s.id], m);
    ShowsCopies(from, home, raw, sv.releases[Managed(sv)[s.id]], m);
  }

  lemma RepresentedAreCopied(sv: Server, from: Provider, home: string, raw: seq<RawRelease>)
    requires AllRepresented(sv, ReadReleases(from, home, raw))
    ensures AllCopied(sv, from, home, raw)
  {
    hide Represented, Copied, ReadRelease;
    forall i | 0 <= i < |raw|
      ensures Copied(sv, from, home, raw[i])
    {
      assert ReadReleases(from, home, raw)[i] == ReadRelease(from, home, raw[i]);
      RepresentedIsCopied(sv, from, home, raw[i]);
    }
  }

  lemma {:induction false} ReadAssetsHave(from: Provider, raw: seq<RawAsset>, a: RawAsset)
    requires a in raw && (from == GitHub || a.url != "")
    ensures ReleaseSource.ReadAsset(from, a) in ReleaseSource.ReadAssets(from, raw)
  {
    hide ReleaseSource.ReadAsset;
    var n := |raw| - 1;
    assert raw == raw[..n] + [raw[n]];
    if a != raw[n] {
      ReadAssetsHave(from, raw[..n], a);
    }
  }

  /** Every asset a client builds is one that was sent and can be downloaded, with its id; GitHub's
      digest if there is one; and complete if GitHub reports it so or reports no state, or Forgejo
      hosts it itself. GitLab only links to its assets. */
  lemma {:induction false} ReadAssetsSent(from: Provider, raw: seq<RawAsset>, i: nat)
    requires i < |ReleaseSource.ReadAssets(from, raw)|
    ensures exists a :: a in raw && (from == GitHub || a.url != "") && Sent(from, a, ReleaseSource.ReadAssets(from, raw)[i])
  {
    var n := |raw| - 1;
    if i < |ReleaseSource.ReadAssets(from, raw[..n])| {
      ReadAssetsSent(from, raw[..n], i);
    } else {
      assert raw[n] in raw && Sent(from, raw[n], ReleaseSource.ReadAssets(from, raw)[i]);
    }
  }

  predicate Sent(from: Provider, a: RawAsset, b: SourceAsset) {
    && b.id == a.id && b.digest == (if from == GitHub && a.digest != "" then Some(a.digest) else None)
    && (b.uploaded <==> match from
                        case GitHub => a.state == "" || a.state == "uploaded"
                        case Forgejo => a.hosted
                        case GitLab => false)
  }

  /** A source settled with all its assets has an attachment for each one that was sent. */
  lemma SettledAttaches(sv: Server, from: Provider, home: string, raw: RawRelease)
    requires var s := ReadRelease(from, home, raw); Settled(sv, s, Some(s.assets))
    ensures AssetsCopied(sv, from, raw)
  {
    var s := ReadRelease(from, home, raw);
    hide MarkerOf, MarkerId, ManagedIds, ReleaseSource.ReadAssets, Payload, LastMarked;
    ManagedIdsSound(sv.order, sv.releases, raw.id);
    var id := Managed(sv)[s.id];
    var records := MarkerOf(sv.releases[id]).value.assets;
    forall a | a in raw.assets && (from == GitHub || a.url != "")
      ensures Attaches(sv.attachments[id], from, a)
    {
      ReadAssetsHave(from, raw.assets, a);
      var j :| 0 <= j < |s.assets| && s.assets[j] == ReleaseSource.ReadAsset(from, a);
      assert InStep(records, sv.attachments[id], s.assets[j]);
    }
  }

  lemma AllAttached(sv: Server, from: Provider, home: string, raw: seq<RawRelease>, mode: AssetMode, latestRelease: Option<int>)
    requires AllSettled(sv, ReadReleases(from, home, raw), true, mode, Chosen(true, mode, latestRelease))
    ensures forall i | 0 <= i < |raw| && (mode == AllAssets || latestRelease == Some(raw[i].id)) :: AssetsCopied(sv, from, raw[i])
  {
    hide Settled, AssetsCopied, ReleaseSource.ReadAssets;
    var sources := ReadReleases(from, home, raw);
    forall i | 0 <= i < |raw| && (mode == AllAssets || latestRelease == Some(raw[i].id))
      ensures AssetsCopied(sv, from, raw[i])
    {
      assert sources[i] == ReadRelease(from, home, raw[i]);
      assert Settled(sv, sources[i], Some(sources[i].assets));
      SettledAttaches(sv, from, home, raw[i]);
    }
  }
}
