/** The destination side of release mirroring as values: an echoing Gitea, what a settled
    release looks like, and which calls are safe. ReleaseMirror.dfy proves the code about it. */
module ReleaseState {
  import opened Wrappers
  import opened ReleaseMarker

  datatype SourceAsset = SourceAsset(id: int, name: string, uploaded: bool, size: nat, digest: Option<string>)

  datatype Source = Source(id: int, url: string, tag: string, target: string, name: string, body: string,
                           draft: bool, prerelease: bool, assets: seq<SourceAsset>)

  datatype Attachment = Attachment(name: string, size: nat)

  /** A Gitea release, and equally the payload sent for one; an absent target is empty. */
  datatype Release = Release(tag: string, name: string, body: string, target: string, draft: bool, prerelease: bool)

  /** Releases in listing order, newest first, and the attachments of each. */
  datatype Server = Server(order: seq<int>, releases: map<int, Release>, attachments: map<int, map<int, Attachment>>, nextId: nat)

  datatype AssetMode = AllAssets | LatestAssets

  datatype Outcome = Clean | Warned | Interrupted

  ghost predicate ValidServer(sv: Server) {
    && (forall i | 0 <= i < |sv.order| :: sv.order[i] in sv.releases)
    && (forall i, j | 0 <= i < j < |sv.order| :: sv.order[i] != sv.order[j])
    && (forall r | r in sv.releases :: r in sv.attachments && r < sv.nextId)
    && (forall r, a | r in sv.attachments && a in sv.attachments[r] :: 0 <= a < sv.nextId)
  }

  // ---------------------------------------------------------------- server operations

  /** Gitea shows a release without a name under its tag. */
  function Stored(p: Release): Release {
    if p.name == "" then p.(name := p.tag) else p
  }

  function Created(sv: Server, p: Release): Server {
    Server([sv.nextId] + sv.order, sv.releases[sv.nextId := Stored(p)], sv.attachments[sv.nextId := map[]], sv.nextId + 1)
  }

  function Updated(sv: Server, id: int, p: Release): Server {
    sv.(releases := sv.releases[id := Stored(p)])
  }

  function Attached(sv: Server, r: int, a: Attachment): Server
    requires r in sv.attachments
  {
    sv.(attachments := sv.attachments[r := sv.attachments[r][sv.nextId := a]], nextId := sv.nextId + 1)
  }

  function Renamed(sv: Server, r: int, a: int, name: string): Server
    requires r in sv.attachments && a in sv.attachments[r]
  {
    sv.(attachments := sv.attachments[r := sv.attachments[r][a := sv.attachments[r][a].(name := name)]])
  }

  function Detached(sv: Server, r: int, a: int): Server
    requires r in sv.attachments
  {
    sv.(attachments := sv.attachments[r := sv.attachments[r] - {a}])
  }

  // ---------------------------------------------------------------- markers on the server

  function MarkerOf(r: Release): Option<Marker> {
    DecodeMarker(r.body)
  }

  function MarkerId(r: Release): Option<int> {
    match MarkerOf(r)
    case None => None
    case Some(m) => Some(m.githubId)
  }

  /** The release that counts as a source's mirror: the last listed one with its marker. */
  function ManagedIds(order: seq<int>, releases: map<int, Release>): (r: map<int, int>)
    requires forall i | 0 <= i < |order| :: order[i] in releases
  {
    if order == [] then map[] else
      var n := |order| - 1;
      var rest := ManagedIds(order[..n], releases);
      match MarkerId(releases[order[n]])
      case None => rest
      case Some(k) => rest[k := order[n]]
  }

  /** The `i`-th listed release has the source's marker, and no later one does. */
  ghost predicate LastMarked(order: seq<int>, releases: map<int, Release>, k: int, i: int) {
    && 0 <= i < |order| && order[i] in releases && MarkerId(releases[order[i]]) == Some(k)
    && forall j | i < j < |order| && order[j] in releases :: MarkerId(releases[order[j]]) != Some(k)
  }

  lemma {:induction false} ManagedIdsSound(order: seq<int>, releases: map<int, Release>, k: int)
    requires forall i | 0 <= i < |order| :: order[i] in releases
    ensures k in ManagedIds(order, releases) ==>
              ManagedIds(order, releases)[k] in order && ManagedIds(order, releases)[k] in releases
              && MarkerId(releases[ManagedIds(order, releases)[k]]) == Some(k)
    ensures k !in ManagedIds(order, releases) ==> forall i | 0 <= i < |order| :: MarkerId(releases[order[i]]) != Some(k)
    ensures k in ManagedIds(order, releases) ==>
              exists i | 0 <= i < |order| :: ManagedIds(order, releases)[k] == order[i] && LastMarked(order, releases, k, i)
  {
    hide MarkerId;
    if order != [] {
      var n := |order| - 1;
      assert order == order[..n] + [order[n]];
      ManagedIdsSound(order[..n], releases, k);
      if MarkerId(releases[order[n]]) == Some(k) {
        assert LastMarked(order, releases, k, n);
      } else if k in ManagedIds(order, releases) {
        var i :| 0 <= i < n && ManagedIds(order[..n], releases)[k] == order[..n][i] && LastMarked(order[..n], releases, k, i);
        assert order[i] == order[..n][i];
        assert LastMarked(order, releases, k, i);
      }
    }
  }

  /** Rewriting a release under the same marker id changes nothing about who mirrors whom. */
  lemma {:induction false} ManagedIdsUpdate(order: seq<int>, releases: map<int, Release>, id: int, r: Release)
    requires (forall i | 0 <= i < |order| :: order[i] in releases) && id in releases && MarkerId(r) == MarkerId(releases[id])
    ensures ManagedIds(order, releases[id := r]) == ManagedIds(order, releases)
  {
    hide MarkerId;
    if order != [] {
      ManagedIdsUpdate(order[..|order| - 1], releases, id, r);
    }
  }

  /** A new release in front becomes the mirror of its own source only. */
  lemma {:induction false} ManagedIdsCreate(order: seq<int>, releases: map<int, Release>, id: int, r: Release, k: int, x: int)
    requires (forall i | 0 <= i < |order| :: order[i] in releases) && id !in order && MarkerId(r) == Some(k)
    requires k !in ManagedIds(order, releases)
    ensures var more := ManagedIds([id] + order, releases[id := r]);
            (x in more <==> x == k || x in ManagedIds(order, releases))
            && (x in more ==> more[x] == if x == k then id else ManagedIds(order, releases)[x])
  {
    hide MarkerId;
    var all := [id] + order;
    if order == [] {
      assert all == [id] && all[..0] == [];
    } else {
      var n := |order| - 1;
      assert all[..|all| - 1] == [id] + order[..n] && all[|all| - 1] == order[n];
      assert order[n] in order && id != order[n];
      assert forall i | 0 <= i < n :: order[..n][i] in order;
      ManagedIdsCreate(order[..n], releases, id, r, k, x);
    }
  }

  function Managed(sv: Server): map<int, int>
    requires forall i | 0 <= i < |sv.order| :: sv.order[i] in sv.releases
  {
    ManagedIds(sv.order, sv.releases)
  }

  // ---------------------------------------------------------------- payloads

  function Payload(s: Source, m: Marker): Result<(Release, bool)> {
    match BoundedBody(s.body, s.url, m)
    case Failure => Failure
    case Success((body, truncated)) => Success((Release(s.tag, s.name, body, s.target, s.draft, s.prerelease), truncated))
  }

  predicate Matches(r: Release, p: Release) {
    && r.tag == p.tag && r.name == p.name && r.body == p.body
    && r.target == p.target && r.draft == p.draft && r.prerelease == p.prerelease
  }

  /** A stored payload reads back as its marker. */
  lemma PayloadDecodes(s: Source, m: Marker)
    requires Keyed(m) && Payload(s, m).Success?
    ensures MarkerOf(Payload(s, m).value.0) == Some(Normalized(m)) && MarkerOf(Stored(Payload(s, m).value.0)) == Some(Normalized(m))
  {
    hide BoundedBody, DecodeMarker, Keyed, Normalized;
    BoundedBodyDecodes(s.body, s.url, m);
  }

  /** The release has the source's tag, name, target and flags, and shows its notes before the
      marker's comment. */
  ghost predicate Shows(r: Release, s: Source, m: Marker) {
    && r.tag == s.tag && r.name == s.name && r.target == s.target && r.draft == s.draft && r.prerelease == s.prerelease
    && ShowsNotes(s.body, s.url, "<!-- githarbor-release:" + MarkerText(m) + " -->", r.body)
  }

  lemma PayloadShows(s: Source, m: Marker)
    requires Keyed(m) && Payload(s, m).Success?
    ensures Shows(Payload(s, m).value.0, s, m)
  {
    hide *;
    BodyShows(s.body, s.url, m);
    PayloadParts(s, m);
    ShowsWhen(Payload(s, m).value.0, s, m);
  }

  lemma PayloadParts(s: Source, m: Marker)
    requires Payload(s, m).Success?
    ensures BoundedBody(s.body, s.url, m).Success?
    ensures Payload(s, m).value.0 == Release(s.tag, s.name, BoundedBody(s.body, s.url, m).value.0, s.target, s.draft, s.prerelease)
  {
    hide BoundedBody;
  }

  lemma ShowsWhen(r: Release, s: Source, m: Marker)
    requires r.tag == s.tag && r.name == s.name && r.target == s.target && r.draft == s.draft && r.prerelease == s.prerelease
    requires ShowsNotes(s.body, s.url, "<!-- githarbor-release:" + MarkerText(m) + " -->", r.body)
    ensures Shows(r, s, m)
  {
    hide ShowsNotes, MarkerText;
  }

  // ---------------------------------------------------------------- assets

  predicate HasId(assets: seq<SourceAsset>, k: int) {
    exists i | 0 <= i < |assets| :: assets[i].id == k
  }

  ghost predicate DistinctIds(assets: seq<SourceAsset>) {
    forall i, j | 0 <= i < j < |assets| :: assets[i].id != assets[j].id
  }

  /** The asset is recorded with an attachment of the declared size. */
  predicate Held(mirrored: map<int, MirroredAsset>, at: map<int, Attachment>, a: SourceAsset) {
    a.id in mirrored && mirrored[a.id].giteaId in at && at[mirrored[a.id].giteaId].size == a.size
  }

  /** The asset's record and attachment are exactly what another pass would write. */
  predicate InStep(mirrored: map<int, MirroredAsset>, at: map<int, Attachment>, a: SourceAsset) {
    && Held(mirrored, at, a) && at[mirrored[a.id].giteaId].name == a.name
    && mirrored[a.id] == MirroredAsset(a.id, mirrored[a.id].giteaId, a.name, a.size, a.digest)
  }

  ghost predicate AssetsInStep(mirrored: map<int, MirroredAsset>, at: map<int, Attachment>, assets: seq<SourceAsset>) {
    && (forall k | k in mirrored :: HasId(assets, k))
    && (forall i | 0 <= i < |assets| :: InStep(mirrored, at, assets[i]))
  }

  /** Two assets that share an attachment under different names can never both be in step. */
  lemma SharedAttachmentNeverInStep(mirrored: map<int, MirroredAsset>, at: map<int, Attachment>, assets: seq<SourceAsset>, i: nat, j: nat)
    requires i < |assets| && j < |assets| && assets[i].name != assets[j].name
    requires assets[i].id in mirrored && assets[j].id in mirrored
    requires mirrored[assets[i].id].giteaId == mirrored[assets[j].id].giteaId
    ensures !AssetsInStep(mirrored, at, assets)
  {
    assert !(InStep(mirrored, at, assets[i]) && InStep(mirrored, at, assets[j]));
  }

  /** What a pass over the source's release would leave as it is: the mirror carries exactly the
      payload of the marker it stores and, where assets are mirrored, its assets are in step. */
  ghost predicate Settled(sv: Server, s: Source, assets: Option<seq<SourceAsset>>) {
    && ValidServer(sv) && s.id in Managed(sv)
    && var id := Managed(sv)[s.id];
    id in sv.releases && id in sv.attachments && SettledAt(sv.releases[id], sv.attachments[id], s, assets)
  }

  ghost predicate SettledAt(r: Release, at: map<int, Attachment>, s: Source, assets: Option<seq<SourceAsset>>) {
    && MarkerOf(r).Some? && MarkerOf(r).value.githubId == s.id
    && Payload(s, MarkerOf(r).value).Success? && Payload(s, MarkerOf(r).value).value.0 == r
    && (assets.Some? ==> AssetsInStep(MarkerOf(r).value.assets, at, assets.value))
  }

  // ---------------------------------------------------------------- calls

  /** A changing request made for a source release, with the server as it was sent. */
  datatype Call =
    | Create(source: int, before: Server, tag: string)
    | Update(source: int, before: Server, release: int)
    | Rename(source: int, before: Server, release: int, attachment: int)
    | Upload(source: int, before: Server, release: int, asset: SourceAsset)
    | Delete(source: int, before: Server, release: int, attachment: int)

  /** The latest release is safe: some other release stores its marker, and every one of its
      assets is recorded there with an existing attachment of the declared size. */
  ghost predicate Secured(sv: Server, latest: Source, other: int) {
    exists l :: l != other && SecuredAt(sv, latest, l)
  }

  ghost predicate SecuredAt(sv: Server, latest: Source, l: int) {
    && l in sv.releases && l in sv.attachments && MarkerOf(sv.releases[l]).Some?
    && MarkerOf(sv.releases[l]).value.githubId == latest.id
    && forall i | 0 <= i < |latest.assets| :: Held(MarkerOf(sv.releases[l]).value.assets, sv.attachments[l], latest.assets[i])
  }

  /** The release's marker at the start of the run records the attachment. */
  predicate Recorded(start: Server, r: int, a: int) {
    && r in start.releases && MarkerOf(start.releases[r]).Some?
    && RecordedIn(MarkerOf(start.releases[r]).value.assets, a)
  }

  predicate RecordedIn(mirrored: map<int, MirroredAsset>, a: int) {
    exists k | k in mirrored :: mirrored[k].giteaId == a
  }

  /** A record of the attachment with its exact name and size. */
  predicate RecordedAs(start: Server, r: int, a: int, at: Attachment) {
    && r in start.releases && MarkerOf(start.releases[r]).Some?
    && var m := MarkerOf(start.releases[r]).value.assets;
    exists k | k in m :: m[k].giteaId == a && m[k].name == at.name && m[k].size == at.size
  }

  /** An attachment the release had at the start, and its marker does not record, has the name, and
      none it records does. */
  ghost predicate Reserved(start: Server, r: int, name: string) {
    && r in start.releases && r in start.attachments
    && (exists a :: a in start.attachments[r] && start.attachments[r][a].name == name && !Recorded(start, r, a))
    && forall b | b in start.attachments[r] && Recorded(start, r, b) :: start.attachments[r][b].name != name
  }

  /** OWNERSHIP. Creating needs a source without a mirror and a free tag; updating needs the
      source's own marker, and uploading a complete asset whose name is not reserved; an attachment is renamed only if recorded or uploaded in this run,
      and deleted only if uploaded in this run or recorded with its very name and size; and
      attachments of other releases are deleted only while the latest release is secured. */
  ghost predicate Safe(start: Server, latest: Option<Source>, c: Call) {
    match c
    case Create(source, before, tag) =>
      forall i | 0 <= i < |start.order| && start.order[i] in start.releases ::
        start.releases[start.order[i]].tag != tag && MarkerId(start.releases[start.order[i]]) != Some(source)
    case Update(source, before, r) => r in start.releases ==> MarkerId(start.releases[r]) == Some(source)
    case Rename(source, before, r, a) => start.nextId <= a || Recorded(start, r, a)
    case Upload(source, before, r, asset) => asset.uploaded && !Reserved(start, r, asset.name) && (r in start.releases ==> MarkerId(start.releases[r]) == Some(source))
    case Delete(source, before, r, a) =>
      && (r in before.attachments && a in before.attachments[r] ==>
            start.nextId <= a || RecordedAs(start, r, a, before.attachments[r][a]))
      && (latest.Some? && source != latest.value.id ==> Secured(before, latest.value, r))
  }

  ghost predicate AllSafe(start: Server, latest: Option<Source>, log: seq<Call>, more: seq<Call>) {
    log <= more && forall i | |log| <= i < |more| :: Safe(start, latest, more[i])
  }

  lemma AllSafeTransitive(start: Server, latest: Option<Source>, a: seq<Call>, b: seq<Call>, c: seq<Call>)
    requires AllSafe(start, latest, a, b) && AllSafe(start, latest, b, c)
    ensures AllSafe(start, latest, a, c)
  {
    hide Safe;
  }
}
