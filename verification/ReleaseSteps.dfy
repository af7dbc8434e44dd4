/** What single steps of a release mirror run leave true: lemmas about the server values,
    the ownership maps and the call log, used by the methods of ReleaseMirror.dfy. */
module ReleaseSteps {
  import opened Wrappers
  import opened ReleaseMarker
  import opened ReleaseState

  // ---------------------------------------------------------------- one release's attachments

  /** The only part of the server that changed is one release's attachments, and what is new
      there was uploaded since. */
  ghost predicate OnlyAttachments(sv: Server, sv': Server, r: int) {
    && sv'.order == sv.order && sv'.releases == sv.releases && sv.nextId <= sv'.nextId
    && r in sv.attachments && r in sv'.attachments
    && (forall x | x in sv.attachments && x != r :: x in sv'.attachments && sv'.attachments[x] == sv.attachments[x])
    && (forall x | x in sv'.attachments :: x in sv.attachments)
    && (forall a | a in sv'.attachments[r] :: a in sv.attachments[r] || sv.nextId <= a < sv'.nextId)
  }

  /** A stretch of safe calls that touched only one release's attachments. */
  ghost predicate Progress(start: Server, latest: Option<Source>, sv: Server, log: seq<Call>, sv': Server, log': seq<Call>, r: int) {
    OnlyAttachments(sv, sv', r) && AllSafe(start, latest, log, log')
  }

  lemma ProgressTransitive(start: Server, latest: Option<Source>, a: Server, logA: seq<Call>, b: Server, logB: seq<Call>,
                           c: Server, logC: seq<Call>, r: int)
    requires Progress(start, latest, a, logA, b, logB, r) && Progress(start, latest, b, logB, c, logC, r)
    ensures Progress(start, latest, a, logA, c, logC, r)
  {
    AllSafeTransitive(start, latest, logA, logB, logC);
    hide AllSafe;
  }

  lemma ProgressStarts(start: Server, latest: Option<Source>, sv: Server, log: seq<Call>, r: int)
    requires r in sv.attachments
    ensures Progress(start, latest, sv, log, sv, log, r)
  {
  }

  /** One safe call that at most changed one release's attachments is progress. */
  lemma OneCall(start: Server, latest: Option<Source>, sv: Server, log: seq<Call>, sv': Server, c: Call, r: int)
    requires OnlyAttachments(sv, sv', r) && Safe(start, latest, c)
    ensures Progress(start, latest, sv, log, sv', log + [c], r)
  {
    hide Safe;
  }

  lemma OnlyAttachmentsKeepsValid(sv: Server, sv': Server, r: int)
    requires ValidServer(sv) && OnlyAttachments(sv, sv', r)
    ensures ValidServer(sv')
  {
  }

  /** Attachments of other sources may go only while the latest release is secured at `l`. */
  ghost predicate MayDelete(sv: Server, latest: Option<Source>, source: int, r: int, l: int) {
    latest.Some? && source != latest.value.id ==> l != r && SecuredAt(sv, latest.value, l)
  }

  lemma MayDeleteKept(sv: Server, sv': Server, latest: Option<Source>, source: int, r: int, l: int)
    requires OnlyAttachments(sv, sv', r) && MayDelete(sv, latest, source, r, l)
    ensures MayDelete(sv', latest, source, r, l)
  {
    hide MarkerOf, Held;
  }

  // ---------------------------------------------------------------- ownership maps

  ghost predicate KeyedMap(mirrored: map<int, MirroredAsset>) {
    forall k | k in mirrored :: mirrored[k].githubId == k
  }

  /** Every recorded attachment id was given out before. */
  ghost predicate Issued(mirrored: map<int, MirroredAsset>, nextId: nat) {
    forall k | k in mirrored :: mirrored[k].giteaId < nextId
  }

  /** Every recorded attachment was recorded at the start or uploaded since. */
  ghost predicate Owned(start: Server, r: int, mirrored: map<int, MirroredAsset>) {
    forall k | k in mirrored :: start.nextId <= mirrored[k].giteaId || Recorded(start, r, mirrored[k].giteaId)
  }

  /** What a run takes a release's records to be: none for a new one, else its stored marker's. */
  ghost predicate FromStart(start: Server, r: int, previous: map<int, MirroredAsset>) {
    || previous == map[]
    || (r in start.releases && MarkerOf(start.releases[r]).Some? && previous == MarkerOf(start.releases[r]).value.assets)
  }

  ghost predicate SubMap(a: map<int, MirroredAsset>, b: map<int, MirroredAsset>) {
    forall k | k in a :: k in b && a[k] == b[k]
  }

  lemma SubMapKeeps(start: Server, r: int, a: map<int, MirroredAsset>, previous: map<int, MirroredAsset>, nextId: nat)
    requires SubMap(a, previous) && FromStart(start, r, previous)
    ensures Owned(start, r, a)
    ensures KeyedMap(previous) ==> KeyedMap(a)
    ensures Issued(previous, nextId) ==> Issued(a, nextId)
  {
    hide MarkerOf;
    forall k | k in a
      ensures Recorded(start, r, a[k].giteaId)
    {
      assert previous[k].giteaId == a[k].giteaId;
    }
  }

  lemma SameMap<V>(a: map<int, V>, b: map<int, V>)
    requires forall k | k in a :: k in b && a[k] == b[k]
    requires forall k | k in b :: k in a
    ensures a == b
  {
    assert forall k :: k in a.Keys ==> k in b.Keys;
    assert a.Keys <= b.Keys;
    assert forall k :: k in b.Keys ==> k in a.Keys;
    assert b.Keys <= a.Keys;
    assert a.Keys == b.Keys;
    assert forall k :: k in a.Keys ==> a[k] == b[k];
  }

  // ---------------------------------------------------------------- removing stale attachments

  /** Whatever the release still has, the local index describes exactly. */
  ghost predicate Covers(byId: map<int, Attachment>, at: map<int, Attachment>) {
    forall a | a in at :: a in byId && byId[a] == at[a]
  }

  /** The index lists the release's attachments with their sizes. */
  ghost predicate Tracks(byId: map<int, Attachment>, at: map<int, Attachment>) {
    && (forall a | a in byId :: a in at)
    && (forall a | a in at :: a in byId && byId[a].size == at[a].size)
  }

  /** The loop over the records: `todo` are the assets not looked at yet. */
  ghost predicate StalePass(clean: bool, mirrored: map<int, MirroredAsset>, previous: map<int, MirroredAsset>,
                            byId: map<int, Attachment>, at: map<int, Attachment>, assets: seq<SourceAsset>, todo: set<int>) {
    && SubMap(mirrored, previous) && Covers(byId, at)
    && (forall k | k in todo :: k in mirrored)
    && (forall k | k in previous && HasId(assets, k) :: k in mirrored)
    && (clean ==> (forall a | a in byId :: a in at) && forall k | k in mirrored && k !in todo :: HasId(assets, k))
    && (clean ==> forall k | k in previous && !HasId(assets, k) && k !in todo :: previous[k].giteaId !in byId)
  }

  lemma StalePassStarts(previous: map<int, MirroredAsset>, at: map<int, Attachment>, assets: seq<SourceAsset>)
    ensures SubMap(previous, previous) && StalePass(true, previous, previous, at, at, assets, previous.Keys)
  {
    hide HasId;
  }

  lemma StaleSkip(clean: bool, mirrored: map<int, MirroredAsset>, previous: map<int, MirroredAsset>,
                  byId: map<int, Attachment>, at: map<int, Attachment>, assets: seq<SourceAsset>, todo: set<int>, k: int)
    requires StalePass(clean, mirrored, previous, byId, at, assets, todo) && HasId(assets, k)
    ensures StalePass(clean, mirrored, previous, byId, at, assets, todo - {k})
  {
    hide HasId;
  }

  /** How one stale record was dealt with. */
  ghost predicate Removal(one: Outcome, keep: bool, gone: bool, g: int, byId: map<int, Attachment>,
                          at: map<int, Attachment>, at': map<int, Attachment>) {
    && (at' == at || at' == at - {g})
    && (gone ==> g in byId && at' == at - {g})
    && (one == Clean ==> !keep && (gone || (g !in byId && at' == at)))
  }

  lemma StaleDrop(clean: bool, mirrored: map<int, MirroredAsset>, previous: map<int, MirroredAsset>, byId: map<int, Attachment>,
                  at: map<int, Attachment>, assets: seq<SourceAsset>, todo: set<int>, k: int,
                  one: Outcome, keep: bool, gone: bool, at': map<int, Attachment>)
    requires StalePass(clean, mirrored, previous, byId, at, assets, todo) && k in todo && !HasId(assets, k)
    requires Removal(one, keep, gone, mirrored[k].giteaId, byId, at, at')
    ensures StalePass(clean && one == Clean, if keep then mirrored else mirrored - {k}, previous,
                      if gone then byId - {mirrored[k].giteaId} else byId, at', assets, todo - {k})
  {
    hide HasId;
  }

  /** Deleting what a start-of-run record describes exactly is safe. */
  lemma SafeDelete(start: Server, latest: Option<Source>, s: Source, sv: Server, r: int, previous: map<int, MirroredAsset>, k: int,
                   byId: map<int, Attachment>, l: int)
    requires r in sv.attachments && FromStart(start, r, previous) && k in previous && Covers(byId, sv.attachments[r])
    requires previous[k].giteaId in byId && byId[previous[k].giteaId].name == previous[k].name
    requires byId[previous[k].giteaId].size == previous[k].size && MayDelete(sv, latest, s.id, r, l)
    ensures Safe(start, latest, Delete(s.id, sv, r, previous[k].giteaId))
  {
    hide MarkerOf, SecuredAt;
  }

  /** Gitea's attachment settings. */
  datatype Settings = Settings(enabled: bool, maxBytes: Option<nat>)

  function NamesOf(at: map<int, Attachment>): set<string> {
    set a | a in at :: at[a].name
  }

  /** The names in use include every reserved one. */
  ghost predicate Reserves(names: set<string>, start: Server, r: int) {
    forall name | Reserved(start, r, name) :: name in names
  }

  ghost predicate AsAtStart(start: Server, r: int, listed: map<int, Attachment>) {
    r in start.releases && r in start.attachments ==> listed == start.attachments[r]
  }

  lemma ReservesStarts(start: Server, r: int, listed: map<int, Attachment>)
    requires AsAtStart(start, r, listed)
    ensures Reserves(NamesOf(listed), start, r)
  {
    hide Recorded;
  }

  /** The name of a recorded attachment is not reserved. */
  lemma ReservesNext(names: set<string>, start: Server, r: int, previous: map<int, MirroredAsset>, k: int, name: string,
                     listed: map<int, Attachment>, byId: map<int, Attachment>)
    requires Reserves(names, start, r) && FromStart(start, r, previous) && k in previous && AsAtStart(start, r, listed)
    requires previous[k].giteaId in byId && byId[previous[k].giteaId].name == name
    requires forall a | a in byId :: a in listed && byId[a] == listed[a]
    ensures Reserves(names - {name}, start, r)
  {
    hide MarkerOf;
    assert Recorded(start, r, previous[k].giteaId);
  }

  lemma ReservesMore(names: set<string>, more: set<string>, start: Server, r: int)
    requires Reserves(names, start, r) && names <= more
    ensures Reserves(more, start, r)
  {
    hide Reserved;
  }

  /** What keeps an asset from being uploaded. */
  predicate Blocked(asset: SourceAsset, settings: Settings, names: set<string>) {
    || !asset.uploaded || !settings.enabled || (settings.maxBytes.Some? && settings.maxBytes.value < asset.size)
    || asset.name in names
  }

  /** A stale record whose attachment is gone, or still exactly what was recorded. */
  predicate AbsentOrExact(record: MirroredAsset, byId: map<int, Attachment>) {
    record.giteaId in byId ==> byId[record.giteaId].name == record.name && byId[record.giteaId].size == record.size
  }

  ghost predicate StaleExact(previous: map<int, MirroredAsset>, assets: seq<SourceAsset>, byId: map<int, Attachment>) {
    forall k | k in previous && !HasId(assets, k) :: AbsentOrExact(previous[k], byId)
  }

  /** The index lost nothing but attachments of stale records. */
  ghost predicate Thinned(listed: map<int, Attachment>, byId: map<int, Attachment>, previous: map<int, MirroredAsset>, assets: seq<SourceAsset>) {
    && (forall a | a in byId :: a in listed && byId[a] == listed[a])
    && (forall a | a in listed && a !in byId :: exists k :: k in previous && !HasId(assets, k) && previous[k].giteaId == a)
  }

  lemma ThinnedStarts(listed: map<int, Attachment>, previous: map<int, MirroredAsset>, assets: seq<SourceAsset>)
    ensures Thinned(listed, listed, previous, assets)
  {
    hide HasId;
  }

  lemma ThinnedNext(listed: map<int, Attachment>, byId: map<int, Attachment>, previous: map<int, MirroredAsset>, assets: seq<SourceAsset>,
                    k: int, gone: bool)
    requires Thinned(listed, byId, previous, assets) && k in previous && !HasId(assets, k)
    ensures Thinned(listed, if gone then byId - {previous[k].giteaId} else byId, previous, assets)
    ensures StaleExact(previous, assets, listed) ==> AbsentOrExact(previous[k], byId)
  {
    hide HasId;
  }

  lemma ThinnedParts(listed: map<int, Attachment>, byId: map<int, Attachment>, previous: map<int, MirroredAsset>, assets: seq<SourceAsset>)
    requires Thinned(listed, byId, previous, assets)
    ensures forall a | a in byId :: a in listed && byId[a] == listed[a]
  {
  }

  /** No other record names the attachment that asset `k` is recorded with, if it is listed. */
  ghost predicate Apart(k: int, mirrored: map<int, MirroredAsset>, byId: map<int, Attachment>) {
    k in mirrored && mirrored[k].giteaId in byId ==>
      forall j | j in mirrored && j != k :: mirrored[j].giteaId != mirrored[k].giteaId
  }

  ghost predicate AllApart(mirrored: map<int, MirroredAsset>, byId: map<int, Attachment>) {
    forall k | k in mirrored :: Apart(k, mirrored, byId)
  }

  /** Two wanted assets are recorded with one attachment, which is there and not stale. */
  ghost predicate SharesPlace(j: int, k: int, previous: map<int, MirroredAsset>, listed: map<int, Attachment>, assets: seq<SourceAsset>) {
    && j != k && j in previous && k in previous && HasId(assets, j) && HasId(assets, k)
    && previous[j].giteaId == previous[k].giteaId && previous[k].giteaId in listed
    && forall x | x in previous && !HasId(assets, x) :: previous[x].giteaId != previous[k].giteaId
  }

  ghost predicate Clear(previous: map<int, MirroredAsset>, listed: map<int, Attachment>, assets: seq<SourceAsset>) {
    forall j, k :: !SharesPlace(j, k, previous, listed, assets)
  }

  /** Records left by a clean removal of the stale ones are apart exactly when no two wanted
      assets shared an attachment to begin with. */
  lemma ApartIff(mirrored: map<int, MirroredAsset>, previous: map<int, MirroredAsset>, listed: map<int, Attachment>,
                 byId: map<int, Attachment>, at: map<int, Attachment>, assets: seq<SourceAsset>)
    requires StalePass(true, mirrored, previous, byId, at, assets, {}) && Thinned(listed, byId, previous, assets)
    ensures AllApart(mirrored, byId) <==> Clear(previous, listed, assets)
  {
    hide HasId;
    forall j, k | SharesPlace(j, k, previous, listed, assets)
      ensures j in mirrored && k in mirrored && !Apart(k, mirrored, byId)
    {
    }
    forall k | k in mirrored && !Apart(k, mirrored, byId)
      ensures exists j :: SharesPlace(j, k, previous, listed, assets)
    {
      var j :| j in mirrored && j != k && mirrored[j].giteaId == mirrored[k].giteaId;
      assert SharesPlace(j, k, previous, listed, assets);
    }
  }

  // ---------------------------------------------------------------- mirroring one asset

  /** The index is right about the attachment recorded for the asset. */
  ghost predicate Ready(asset: SourceAsset, mirrored: map<int, MirroredAsset>, byId: map<int, Attachment>, at: map<int, Attachment>) {
    asset.id in mirrored && mirrored[asset.id].giteaId in at ==>
      mirrored[asset.id].giteaId in byId && byId[mirrored[asset.id].giteaId] == at[mirrored[asset.id].giteaId]
  }

  /** The asset is recorded exactly as it is declared. */
  predicate Filed(mirrored: map<int, MirroredAsset>, a: SourceAsset) {
    a.id in mirrored && mirrored[a.id] == MirroredAsset(a.id, mirrored[a.id].giteaId, a.name, a.size, a.digest)
  }

  /** A clean step holds its asset, keeps the other records and every attachment's size. */
  ghost predicate HeldStep(asset: SourceAsset, mirrored: map<int, MirroredAsset>, byId: map<int, Attachment>, at: map<int, Attachment>,
                           mirrored': map<int, MirroredAsset>, byId': map<int, Attachment>, at': map<int, Attachment>) {
    && Tracks(byId', at') && Held(mirrored', at', asset) && Filed(mirrored', asset)
    && (forall k | k in mirrored && k != asset.id :: k in mirrored' && mirrored'[k] == mirrored[k])
    && (forall k | k in mirrored' && k != asset.id :: k in mirrored)
    && (forall g | g in at :: g in at' && at'[g].size == at[g].size)
  }

  predicate SameAttachment(g: int, byId: map<int, Attachment>, at: map<int, Attachment>, byId': map<int, Attachment>, at': map<int, Attachment>) {
    && (g in at <==> g in at') && (g in at ==> at'[g] == at[g])
    && (g in byId <==> g in byId') && (g in byId ==> byId'[g] == byId[g])
  }

  /** With its attachment to itself an asset ends a clean step in step, and the others' attachments
      are left alone. */
  ghost predicate FullStep(asset: SourceAsset, mirrored: map<int, MirroredAsset>, byId: map<int, Attachment>, at: map<int, Attachment>,
                           mirrored': map<int, MirroredAsset>, byId': map<int, Attachment>, at': map<int, Attachment>) {
    && InStep(mirrored', at', asset)
    && forall k | k in mirrored && k != asset.id :: SameAttachment(mirrored[k].giteaId, byId, at, byId', at')
  }

  /** The loop over the assets, as long as it is clean. */
  ghost predicate HeldPass(mirrored: map<int, MirroredAsset>, byId: map<int, Attachment>, at: map<int, Attachment>,
                           assets: seq<SourceAsset>, i: nat)
    requires i <= |assets|
  {
    && Tracks(byId, at) && (forall k | k in mirrored :: HasId(assets, k))
    && (forall j | 0 <= j < i :: Held(mirrored, at, assets[j]) && Filed(mirrored, assets[j]))
  }

  ghost predicate FullPass(mirrored: map<int, MirroredAsset>, byId: map<int, Attachment>, at: map<int, Attachment>,
                           assets: seq<SourceAsset>, i: nat)
    requires i <= |assets|
  {
    && (forall j | 0 <= j < i :: InStep(mirrored, at, assets[j]))
    && (forall j | i <= j < |assets| :: Ready(assets[j], mirrored, byId, at))
  }

  lemma PassStarts(mirrored: map<int, MirroredAsset>, previous: map<int, MirroredAsset>, byId: map<int, Attachment>,
                   at: map<int, Attachment>, assets: seq<SourceAsset>)
    requires StalePass(true, mirrored, previous, byId, at, assets, {})
    ensures HeldPass(mirrored, byId, at, assets, 0) && FullPass(mirrored, byId, at, assets, 0)
  {
    hide HasId;
  }

  lemma HeldPassAdvances(mirrored: map<int, MirroredAsset>, byId: map<int, Attachment>, at: map<int, Attachment>,
                         mirrored': map<int, MirroredAsset>, byId': map<int, Attachment>, at': map<int, Attachment>,
                         assets: seq<SourceAsset>, i: nat)
    requires i < |assets| && DistinctIds(assets) && HeldPass(mirrored, byId, at, assets, i)
    requires HeldStep(assets[i], mirrored, byId, at, mirrored', byId', at')
    ensures HeldPass(mirrored', byId', at', assets, i + 1)
  {
    forall j | 0 <= j < i
      ensures Held(mirrored', at', assets[j]) && Filed(mirrored', assets[j])
    {
      assert assets[j].id != assets[i].id;
    }
    forall k | k in mirrored'
      ensures HasId(assets, k)
    {
      if k == assets[i].id {
      }
    }
  }

  lemma FullPassAdvances(mirrored: map<int, MirroredAsset>, byId: map<int, Attachment>, at: map<int, Attachment>,
                         mirrored': map<int, MirroredAsset>, byId': map<int, Attachment>, at': map<int, Attachment>,
                         assets: seq<SourceAsset>, i: nat)
    requires i < |assets| && DistinctIds(assets) && FullPass(mirrored, byId, at, assets, i)
    requires HeldStep(assets[i], mirrored, byId, at, mirrored', byId', at') && FullStep(assets[i], mirrored, byId, at, mirrored', byId', at')
    ensures FullPass(mirrored', byId', at', assets, i + 1)
  {
    hide Tracks;
    forall j | 0 <= j < i
      ensures InStep(mirrored', at', assets[j])
    {
      assert assets[j].id != assets[i].id;
      assert SameAttachment(mirrored[assets[j].id].giteaId, byId, at, byId', at');
    }
    forall j | i < j < |assets|
      ensures Ready(assets[j], mirrored', byId', at')
    {
      assert assets[j].id != assets[i].id && Ready(assets[j], mirrored, byId, at);
      if assets[j].id in mirrored {
        assert SameAttachment(mirrored[assets[j].id].giteaId, byId, at, byId', at');
      }
    }
  }

  /** Recording an attachment no other asset has, for one asset. */
  lemma RecordKeeps(start: Server, r: int, mirrored: map<int, MirroredAsset>, a: MirroredAsset, nextId: nat)
    requires Owned(start, r, mirrored) && (start.nextId <= a.giteaId || Recorded(start, r, a.giteaId))
    ensures Owned(start, r, mirrored[a.githubId := a])
    ensures KeyedMap(mirrored) ==> KeyedMap(mirrored[a.githubId := a])
    ensures Issued(mirrored, nextId) && a.giteaId < nextId
            ==> Issued(mirrored[a.githubId := a], nextId)
  {
    hide Recorded;
  }

  lemma DropKeeps(start: Server, r: int, mirrored: map<int, MirroredAsset>, k: int, nextId: nat)
    requires Owned(start, r, mirrored)
    ensures Owned(start, r, mirrored - {k})
    ensures KeyedMap(mirrored) ==> KeyedMap(mirrored - {k})
    ensures Issued(mirrored, nextId) ==> Issued(mirrored - {k}, nextId)
  {
    hide Recorded;
  }

  lemma IssuedLater(mirrored: map<int, MirroredAsset>, nextId: nat, later: nat)
    requires Issued(mirrored, nextId) && nextId <= later
    ensures Issued(mirrored, later)
  {
  }

  /** A listed release is only ever changed for the source its marker names. */
  ghost predicate Mine(start: Server, s: Source, r: int) {
    r in start.releases ==> MarkerId(start.releases[r]) == Some(s.id)
  }

  /** Keeping a recorded attachment, renamed or already named right. */
  lemma KeepStep(asset: SourceAsset, mirrored: map<int, MirroredAsset>, byId: map<int, Attachment>,
                 at: map<int, Attachment>, at': map<int, Attachment>, g: int)
    requires asset.id in mirrored && g == mirrored[asset.id].giteaId && g in byId && byId[g].size == asset.size
    requires (at' == at && byId[g].name == asset.name) || (g in at && at' == at[g := at[g].(name := asset.name)])
    ensures var mirrored' := mirrored[asset.id := MirroredAsset(asset.id, g, asset.name, asset.size, asset.digest)];
            Tracks(byId, at) ==> HeldStep(asset, mirrored, byId, at, mirrored', byId, at')
                                 && (Ready(asset, mirrored, byId, at) && Apart(asset.id, mirrored, byId) ==>
                                       FullStep(asset, mirrored, byId, at, mirrored', byId, at'))
  {
  }

  /** Recording a fresh upload of the declared size. */
  lemma UploadStep(asset: SourceAsset, mirrored: map<int, MirroredAsset>, byId: map<int, Attachment>,
                   at: map<int, Attachment>, id: int)
    requires id !in at
    ensures var mirrored' := (mirrored - {asset.id})[asset.id := MirroredAsset(asset.id, id, asset.name, asset.size, asset.digest)];
            var a := Attachment(asset.name, asset.size);
            Tracks(byId, at) ==> HeldStep(asset, mirrored, byId, at, mirrored', byId[id := a], at[id := a])
                                 && ((forall k | k in mirrored :: mirrored[k].giteaId != id) ==>
                                       FullStep(asset, mirrored, byId, at, mirrored', byId[id := a], at[id := a]))
  {
  }

  lemma BlockedIs(asset: SourceAsset, settings: Settings, names: set<string>)
    ensures Blocked(asset, settings, names) <==>
            (!asset.uploaded || !settings.enabled || (settings.maxBytes.Some? && settings.maxBytes.value < asset.size)) || asset.name in names
  {
  }

  lemma AttachedIs(sv: Server, r: int, a: Attachment)
    requires r in sv.attachments
    ensures Attached(sv, r, a).attachments == sv.attachments[r := sv.attachments[r][sv.nextId := a]] && Attached(sv, r, a).nextId == sv.nextId + 1
  {
  }

  /** Whatever happens, the records stay keyed, owned and, if they were, issued. */
  ghost predicate Records(start: Server, r: int, mirrored: map<int, MirroredAsset>, nextId: nat,
                          mirrored': map<int, MirroredAsset>, nextId': nat) {
    && Owned(start, r, mirrored') && (KeyedMap(mirrored) ==> KeyedMap(mirrored'))
    && (Issued(mirrored, nextId) ==> Issued(mirrored', nextId'))
  }

  /** A recorded attachment that is listed stays the asset's; otherwise it gets a fresh one. The
      index only grows, by fresh ids. */
  ghost predicate PlaceKept(asset: SourceAsset, mirrored: map<int, MirroredAsset>, byId: map<int, Attachment>,
                            mirrored': map<int, MirroredAsset>, byId': map<int, Attachment>, nextId: nat) {
    && asset.id in mirrored'
    && (if asset.id in mirrored && mirrored[asset.id].giteaId in byId then mirrored'[asset.id].giteaId == mirrored[asset.id].giteaId
        else nextId <= mirrored'[asset.id].giteaId)
    && (forall g | g in byId :: g in byId' && byId'[g] == byId[g]) && (forall g | g in byId' :: g in byId || nextId <= g)
  }

  /** What a clean step over an asset has done, given an index that tracks the attachments. */
  ghost predicate Stepped(asset: SourceAsset, mirrored: map<int, MirroredAsset>, byId: map<int, Attachment>, at: map<int, Attachment>,
                          mirrored': map<int, MirroredAsset>, byId': map<int, Attachment>, at': map<int, Attachment>, nextId: nat) {
    Tracks(byId, at) ==>
      && HeldStep(asset, mirrored, byId, at, mirrored', byId', at') && PlaceKept(asset, mirrored, byId, mirrored', byId', nextId)
      && (Ready(asset, mirrored, byId, at) && Apart(asset.id, mirrored, byId) && Issued(mirrored, nextId) ==>
            FullStep(asset, mirrored, byId, at, mirrored', byId', at'))
  }

  /** A clean step neither parts assets that share an attachment nor joins others. */
  lemma ApartKept(asset: SourceAsset, mirrored: map<int, MirroredAsset>, byId: map<int, Attachment>, at: map<int, Attachment>,
                  mirrored': map<int, MirroredAsset>, byId': map<int, Attachment>, at': map<int, Attachment>, nextId: nat)
    requires HeldStep(asset, mirrored, byId, at, mirrored', byId', at') && PlaceKept(asset, mirrored, byId, mirrored', byId', nextId)
    requires Issued(mirrored, nextId)
    ensures AllApart(mirrored', byId') <==> AllApart(mirrored, byId)
  {
    hide Tracks, Held;
    if AllApart(mirrored, byId) {
      forall k | k in mirrored'
        ensures Apart(k, mirrored', byId')
      {
        if k in mirrored {
          assert Apart(k, mirrored, byId);
        }
        if asset.id in mirrored {
          assert Apart(asset.id, mirrored, byId);
        }
      }
    } else {
      var k :| k in mirrored && !Apart(k, mirrored, byId);
      var j :| j in mirrored && j != k && mirrored[j].giteaId == mirrored[k].giteaId;
      assert !Apart(k, mirrored', byId');
    }
  }

  lemma SafeRename(start: Server, latest: Option<Source>, s: Source, sv: Server, r: int, mirrored: map<int, MirroredAsset>, k: int)
    requires Owned(start, r, mirrored) && k in mirrored
    ensures Safe(start, latest, Rename(s.id, sv, r, mirrored[k].giteaId))
  {
    hide Recorded;
  }

  lemma RenamedIsProgress(start: Server, latest: Option<Source>, sv: Server, log: seq<Call>, sv': Server, c: Call, r: int, a: int, name: string)
    requires r in sv.attachments && Safe(start, latest, c)
    requires sv' == sv || (a in sv.attachments[r] && sv' == Renamed(sv, r, a, name))
    ensures Progress(start, latest, sv, log, sv', log + [c], r)
  {
    hide Safe;
    assert OnlyAttachments(sv, sv', r);
  }

  lemma SafeUpload(start: Server, latest: Option<Source>, s: Source, sv: Server, r: int, asset: SourceAsset, names: set<string>)
    requires Mine(start, s, r) && asset.uploaded && Reserves(names, start, r) && asset.name !in names
    ensures Safe(start, latest, Upload(s.id, sv, r, asset))
  {
    hide MarkerId, Reserved;
  }

  lemma SafeWithdrawal(start: Server, latest: Option<Source>, s: Source, sv: Server, r: int, a: int, l: int)
    requires start.nextId <= a && MayDelete(sv, latest, s.id, r, l)
    ensures Safe(start, latest, Delete(s.id, sv, r, a))
  {
    hide SecuredAt, RecordedAs;
  }

  lemma AttachedIsProgress(start: Server, latest: Option<Source>, sv: Server, log: seq<Call>, sv': Server, c: Call, r: int, a: Attachment)
    requires r in sv.attachments && Safe(start, latest, c)
    requires sv' == sv || sv' == Attached(sv, r, a)
    ensures Progress(start, latest, sv, log, sv', log + [c], r)
  {
    hide Safe;
    assert OnlyAttachments(sv, sv', r);
  }

  lemma DetachedIsProgress(start: Server, latest: Option<Source>, sv: Server, log: seq<Call>, sv': Server, c: Call, r: int, a: int)
    requires r in sv.attachments && Safe(start, latest, c)
    requires sv' == sv || sv' == Detached(sv, r, a)
    ensures Progress(start, latest, sv, log, sv', log + [c], r)
  {
    hide Safe;
    assert OnlyAttachments(sv, sv', r);
  }

  lemma DropRecords(start: Server, r: int, mirrored: map<int, MirroredAsset>, k: int, nextId: nat, nextId': nat)
    requires Owned(start, r, mirrored) && nextId <= nextId'
    ensures Records(start, r, mirrored, nextId, mirrored - {k}, nextId')
  {
    DropKeeps(start, r, mirrored, k, nextId);
  }

  /** Recording a fresh attachment in place of a dropped record. */
  lemma FreshRecords(start: Server, r: int, mirrored: map<int, MirroredAsset>, asset: MirroredAsset, nextId: nat)
    requires Owned(start, r, mirrored) && start.nextId <= nextId && asset.giteaId == nextId
    ensures Records(start, r, mirrored, nextId, (mirrored - {asset.githubId})[asset.githubId := asset], nextId + 1)
  {
    var base := mirrored - {asset.githubId};
    DropKeeps(start, r, mirrored, asset.githubId, nextId);
    RecordKeeps(start, r, base, asset, nextId + 1);
  }

  /** The step an upload makes. */
  lemma UploadStepped(asset: SourceAsset, mirrored: map<int, MirroredAsset>, byId: map<int, Attachment>,
                      at: map<int, Attachment>, id: nat)
    requires id !in at && !(asset.id in mirrored && mirrored[asset.id].giteaId in byId)
    ensures var mirrored' := (mirrored - {asset.id})[asset.id := MirroredAsset(asset.id, id, asset.name, asset.size, asset.digest)];
            var a := Attachment(asset.name, asset.size);
            Stepped(asset, mirrored, byId, at, mirrored', byId[id := a], at[id := a], id)
  {
    UploadStep(asset, mirrored, byId, at, id);
    IssuedIsFresh(mirrored, id);
    var a := Attachment(asset.name, asset.size);
    if Tracks(byId, at) {
      assert id !in byId;
    }
    hide HeldStep, FullStep, Ready, Issued, Apart;
  }

  lemma IssuedIsFresh(mirrored: map<int, MirroredAsset>, nextId: nat)
    ensures Issued(mirrored, nextId) ==> forall k | k in mirrored :: mirrored[k].giteaId != nextId
  {
  }

  /** The loop over the assets, over records with issued ids: `apart` tells whether no two of those
      it started from shared an attachment. */
  ghost predicate AssetPass(clean: bool, issued: bool, apart: bool, mirrored: map<int, MirroredAsset>, byId: map<int, Attachment>,
                            at: map<int, Attachment>, assets: seq<SourceAsset>, i: nat)
    requires i <= |assets|
  {
    clean && DistinctIds(assets) ==>
      && HeldPass(mirrored, byId, at, assets, i)
      && (issued ==> (AllApart(mirrored, byId) <==> apart) && (apart ==> FullPass(mirrored, byId, at, assets, i)))
  }

  lemma AssetPassAdvances(clean: bool, clean': bool, issued: bool, apart: bool, mirrored: map<int, MirroredAsset>,
                          byId: map<int, Attachment>, at: map<int, Attachment>, mirrored': map<int, MirroredAsset>,
                          byId': map<int, Attachment>, at': map<int, Attachment>, nextId: nat, assets: seq<SourceAsset>, i: nat)
    requires i < |assets| && AssetPass(clean, issued, apart, mirrored, byId, at, assets, i)
    requires clean' ==> clean && Stepped(assets[i], mirrored, byId, at, mirrored', byId', at', nextId)
    requires issued ==> Issued(mirrored, nextId)
    ensures AssetPass(clean', issued, apart, mirrored', byId', at', assets, i + 1)
  {
    hide HeldStep, FullStep, Tracks, Ready, Held, HasId, Issued, InStep, DistinctIds, PlaceKept, Apart, AllApart;
    if clean' && DistinctIds(assets) {
      HeldPassAdvances(mirrored, byId, at, mirrored', byId', at', assets, i);
      if issued {
        ApartKept(assets[i], mirrored, byId, at, mirrored', byId', at', nextId);
        if apart {
          ApartAt(mirrored, byId, assets[i].id);
          FullPassAdvances(mirrored, byId, at, mirrored', byId', at', assets, i);
        }
      }
    }
  }

  lemma ApartAt(mirrored: map<int, MirroredAsset>, byId: map<int, Attachment>, k: int)
    requires AllApart(mirrored, byId)
    ensures Apart(k, mirrored, byId)
  {
  }

  ghost predicate AllHeld(mirrored: map<int, MirroredAsset>, at: map<int, Attachment>, assets: seq<SourceAsset>) {
    forall j | 0 <= j < |assets| :: Held(mirrored, at, assets[j])
  }

  /** Every asset is recorded exactly as it is declared, and nothing else is. */
  ghost predicate AllFiled(mirrored: map<int, MirroredAsset>, assets: seq<SourceAsset>) {
    && (forall k | k in mirrored :: HasId(assets, k)) && forall j | 0 <= j < |assets| :: Filed(mirrored, assets[j])
  }

  /** Two differently named assets are recorded with one attachment. */
  ghost predicate Entangled(mirrored: map<int, MirroredAsset>, assets: seq<SourceAsset>) {
    exists i, j :: Together(mirrored, assets, i, j)
  }

  predicate Together(mirrored: map<int, MirroredAsset>, assets: seq<SourceAsset>, i: int, j: int) {
    && 0 <= i < |assets| && 0 <= j < |assets| && assets[i].name != assets[j].name
    && assets[i].id in mirrored && assets[j].id in mirrored && mirrored[assets[i].id].giteaId == mirrored[assets[j].id].giteaId
  }

  lemma EntangledNeverInStep(mirrored: map<int, MirroredAsset>, at: map<int, Attachment>, assets: seq<SourceAsset>)
    requires Entangled(mirrored, assets)
    ensures !AssetsInStep(mirrored, at, assets)
  {
    var i, j :| Together(mirrored, assets, i, j);
    SharedAttachmentNeverInStep(mirrored, at, assets, i, j);
  }

  lemma AssetPassEnds(issued: bool, apart: bool, mirrored: map<int, MirroredAsset>, byId: map<int, Attachment>, at: map<int, Attachment>,
                      assets: seq<SourceAsset>)
    requires AssetPass(true, issued, apart, mirrored, byId, at, assets, |assets|) && DistinctIds(assets)
    ensures AllHeld(mirrored, at, assets) && AllFiled(mirrored, assets)
    ensures issued && apart ==> AssetsInStep(mirrored, at, assets)
    ensures issued && !apart && Distinct(assets) ==> Entangled(mirrored, assets)
  {
    hide Held, InStep, Tracks, Ready, Filed;
    if issued && !apart && Distinct(assets) {
      SharedAssets(mirrored, byId, assets);
    }
  }

  lemma SharedAssets(mirrored: map<int, MirroredAsset>, byId: map<int, Attachment>, assets: seq<SourceAsset>)
    requires !AllApart(mirrored, byId) && Distinct(assets) && forall k | k in mirrored :: HasId(assets, k)
    ensures Entangled(mirrored, assets)
  {
    var k :| k in mirrored && !Apart(k, mirrored, byId);
    var j :| j in mirrored && j != k && mirrored[j].giteaId == mirrored[k].giteaId;
    assert HasId(assets, j) && HasId(assets, k);
    var x :| 0 <= x < |assets| && assets[x].id == j;
    var y :| 0 <= y < |assets| && assets[y].id == k;
    assert Together(mirrored, assets, x, y);
  }

  /** Rewriting the record of an asset that is in step changes nothing. */
  lemma InStepUnchanged(mirrored: map<int, MirroredAsset>, at: map<int, Attachment>, a: SourceAsset)
    requires InStep(mirrored, at, a)
    ensures a.id in mirrored && mirrored[a.id].giteaId in at && at[mirrored[a.id].giteaId] == Attachment(a.name, a.size)
    ensures mirrored[a.id := MirroredAsset(a.id, mirrored[a.id].giteaId, a.name, a.size, a.digest)] == mirrored
  {
    SameMap(mirrored[a.id := mirrored[a.id]], mirrored);
  }

  lemma ProgressIsFresh(start: Server, latest: Option<Source>, sv: Server, log: seq<Call>, sv': Server, log': seq<Call>, r: int)
    requires ValidServer(sv) && r in sv.attachments && Progress(start, latest, sv, log, sv', log', r)
    ensures r in sv'.attachments && sv.nextId <= sv'.nextId && sv'.nextId !in sv'.attachments[r]
  {
    hide AllSafe;
  }

  lemma RecordsTransitive(start: Server, r: int, a: map<int, MirroredAsset>, n: nat, b: map<int, MirroredAsset>, m: nat,
                          c: map<int, MirroredAsset>, o: nat)
    requires Records(start, r, a, n, b, m) && Records(start, r, b, m, c, o)
    ensures Records(start, r, a, n, c, o)
  {
  }

  lemma MayDeleteLater(start: Server, latest: Option<Source>, sv: Server, log: seq<Call>, sv': Server, log': seq<Call>,
                       source: int, r: int, l: int)
    requires Progress(start, latest, sv, log, sv', log', r) && MayDelete(sv, latest, source, r, l)
    ensures MayDelete(sv', latest, source, r, l)
  {
    hide MayDelete;
    MayDeleteKept(sv, sv', latest, source, r, l);
  }

  lemma StartRecords(start: Server, r: int, previous: map<int, MirroredAsset>, nextId: nat)
    requires FromStart(start, r, previous)
    ensures Records(start, r, previous, nextId, previous, nextId)
  {
    SubMapKeeps(start, r, previous, previous, nextId);
  }

  lemma SubMapRecords(start: Server, r: int, a: map<int, MirroredAsset>, previous: map<int, MirroredAsset>, nextId: nat)
    requires SubMap(a, previous) && FromStart(start, r, previous)
    ensures Records(start, r, previous, nextId, a, nextId)
  {
    SubMapKeeps(start, r, a, previous, nextId);
  }

  lemma AssetPassStarts(clean: bool, issued: bool, apart: bool, mirrored: map<int, MirroredAsset>, previous: map<int, MirroredAsset>,
                        listed: map<int, Attachment>, byId: map<int, Attachment>, at: map<int, Attachment>, assets: seq<SourceAsset>)
    requires clean ==> StalePass(true, mirrored, previous, byId, at, assets, {}) && Thinned(listed, byId, previous, assets)
    requires apart <==> Clear(previous, listed, assets)
    ensures AssetPass(clean, issued, apart, mirrored, byId, at, assets, 0)
  {
    hide StalePass, HeldPass, FullPass, Clear, AllApart, Thinned;
    if clean {
      PassStarts(mirrored, previous, byId, at, assets);
      ApartIff(mirrored, previous, listed, byId, at, assets);
    }
  }

  ghost predicate AllInStep(mirrored: map<int, MirroredAsset>, at: map<int, Attachment>, assets: seq<SourceAsset>) {
    forall j | 0 <= j < |assets| :: InStep(mirrored, at, assets[j])
  }

  lemma AllInStepAt(mirrored: map<int, MirroredAsset>, at: map<int, Attachment>, assets: seq<SourceAsset>, j: nat)
    requires AllInStep(mirrored, at, assets) && j < |assets|
    ensures InStep(mirrored, at, assets[j])
  {
    hide InStep;
  }

  // ---------------------------------------------------------------- when nothing stands in the way

  /** Without failing calls the asset's turn ends cleanly. */
  predicate Acceptable(asset: SourceAsset, mirrored: map<int, MirroredAsset>, byId: map<int, Attachment>, names: set<string>, settings: Settings) {
    if asset.id in mirrored && mirrored[asset.id].giteaId in byId then byId[mirrored[asset.id].giteaId].size == asset.size
    else !Blocked(asset, settings, names)
  }

  ghost predicate Ahead(assets: seq<SourceAsset>, i: nat, mirrored: map<int, MirroredAsset>, byId: map<int, Attachment>,
                        names: set<string>, settings: Settings) {
    forall j | i <= j < |assets| :: Acceptable(assets[j], mirrored, byId, names, settings)
  }

  /** Assets of one release differ in id and in name. */
  ghost predicate Distinct(assets: seq<SourceAsset>) {
    DistinctIds(assets) && forall i, j | 0 <= i < j < |assets| :: assets[i].name != assets[j].name
  }

  lemma DistinctIsDistinctIds(assets: seq<SourceAsset>)
    ensures Distinct(assets) ==> DistinctIds(assets)
  {
  }

  /** The assets a turn works on are the source's or none. */
  lemma DistinctPart(s: Source, assets: seq<SourceAsset>)
    requires assets == [] || assets == s.assets
    ensures Distinct(s.assets) ==> Distinct(assets)
  {
  }

  /** The attachments that are left when those of stale records are gone. */
  function Surviving(previous: map<int, MirroredAsset>, at: map<int, Attachment>, assets: seq<SourceAsset>): map<int, Attachment> {
    map a | a in at && !NamedByStale(a, previous, assets) :: at[a]
  }

  predicate NamedByStale(a: int, previous: map<int, MirroredAsset>, assets: seq<SourceAsset>) {
    exists k | k in previous :: previous[k].giteaId == a && !HasId(assets, k)
  }

  /** Stale attachments are untouched, and each asset has an attachment of its size or can be uploaded. */
  ghost predicate Unobstructed(previous: map<int, MirroredAsset>, at: map<int, Attachment>, assets: seq<SourceAsset>, settings: Settings) {
    && Distinct(assets) && StaleExact(previous, assets, at)
    && forall j | 0 <= j < |assets| :: Acceptable(assets[j], previous, Surviving(previous, at, assets), NamesOf(at), settings)
  }

  lemma AheadNow(issued: bool, apart: bool, at: map<int, Attachment>, assets: seq<SourceAsset>, i: nat, mirrored: map<int, MirroredAsset>,
                 byId: map<int, Attachment>, names: set<string>, settings: Settings)
    requires i < |assets| && Distinct(assets) && Ahead(assets, i, mirrored, byId, names, settings)
    requires AssetPass(true, issued, apart, mirrored, byId, at, assets, i)
    ensures Acceptable(assets[i], mirrored, byId, names, settings) && Tracks(byId, at)
  {
    hide Acceptable, Tracks, FullPass, Held, HasId, AllApart;
  }

  lemma AheadNext(at: map<int, Attachment>, at': map<int, Attachment>, nextId: nat, assets: seq<SourceAsset>, i: nat,
                  mirrored: map<int, MirroredAsset>, byId: map<int, Attachment>, names: set<string>,
                  mirrored': map<int, MirroredAsset>, byId': map<int, Attachment>, names': set<string>, settings: Settings)
    requires i < |assets| && Distinct(assets) && Ahead(assets, i, mirrored, byId, names, settings)
    requires Tracks(byId, at) && Issued(mirrored, nextId)
    requires Stepped(assets[i], mirrored, byId, at, mirrored', byId', at', nextId) && names' <= names + {assets[i].name}
    ensures Ahead(assets, i + 1, mirrored', byId', names', settings)
  {
    hide Tracks, Held, FullStep, Ready, Apart;
    assert HeldStep(assets[i], mirrored, byId, at, mirrored', byId', at') && PlaceKept(assets[i], mirrored, byId, mirrored', byId', nextId);
    forall j | i + 1 <= j < |assets|
      ensures Acceptable(assets[j], mirrored', byId', names', settings)
    {
      var a := assets[j];
      assert Acceptable(a, mirrored, byId, names, settings) && a.id != assets[i].id && a.name != assets[i].name;
    }
  }

  /** After the stale ones were removed, the assets are still acceptable. */
  lemma UnobstructedStarts(previous: map<int, MirroredAsset>, listed: map<int, Attachment>, assets: seq<SourceAsset>,
                           settings: Settings, mirrored: map<int, MirroredAsset>, byId: map<int, Attachment>, names: set<string>,
                           at: map<int, Attachment>, clean: bool)
    requires Unobstructed(previous, listed, assets, settings)
    requires Thinned(listed, byId, previous, assets) && names <= NamesOf(listed)
    requires clean ==> StalePass(true, mirrored, previous, byId, at, assets, {})
    ensures StaleExact(previous, assets, listed) && Distinct(assets)
    ensures clean ==> Ahead(assets, 0, mirrored, byId, names, settings)
  {
    hide StaleExact, NamesOf, Covers;
    if clean {
      forall j | 0 <= j < |assets|
        ensures Acceptable(assets[j], mirrored, byId, names, settings)
      {
        var a := assets[j];
        assert Acceptable(a, previous, Surviving(previous, listed, assets), NamesOf(listed), settings) && HasId(assets, a.id);
        if a.id in mirrored {
          SurvivorsAre(previous, listed, assets, mirrored, byId, at, mirrored[a.id].giteaId);
        }
      }
    }
  }

  lemma SurvivorsAre(previous: map<int, MirroredAsset>, listed: map<int, Attachment>, assets: seq<SourceAsset>,
                     mirrored: map<int, MirroredAsset>, byId: map<int, Attachment>, at: map<int, Attachment>, g: int)
    requires StalePass(true, mirrored, previous, byId, at, assets, {}) && Thinned(listed, byId, previous, assets)
    ensures g in Surviving(previous, listed, assets) <==> g in byId
    ensures g in byId ==> Surviving(previous, listed, assets)[g] == byId[g]
  {
    hide HasId;
    if g in listed && g !in byId {
      var k :| k in previous && !HasId(assets, k) && previous[k].giteaId == g;
      assert NamedByStale(g, previous, assets);
    }
    if NamedByStale(g, previous, assets) {
      var k :| k in previous && previous[k].giteaId == g && !HasId(assets, k);
    }
  }

  lemma RecordsParts(start: Server, r: int, previous: map<int, MirroredAsset>, n: nat, mirrored: map<int, MirroredAsset>, m: nat)
    requires Records(start, r, previous, n, mirrored, m)
    ensures Owned(start, r, mirrored) && (Issued(previous, n) ==> Issued(mirrored, m))
  {
    hide Owned, Issued, KeyedMap;
  }

  lemma IdleParts(previous: map<int, MirroredAsset>, at: map<int, Attachment>, assets: seq<SourceAsset>)
    requires AssetsInStep(previous, at, assets)
    ensures AllInStep(previous, at, assets) && forall k | k in previous :: HasId(assets, k)
  {
    hide InStep, HasId;
  }

  lemma ProgressKeepsRelease(start: Server, latest: Option<Source>, sv: Server, log: seq<Call>, sv': Server, log': seq<Call>, r: int)
    requires Progress(start, latest, sv, log, sv', log', r)
    ensures r in sv.attachments && r in sv'.attachments && sv.nextId <= sv'.nextId
  {
    hide AllSafe;
  }
}
