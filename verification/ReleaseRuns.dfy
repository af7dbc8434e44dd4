/** What one source release's turn does to the whole server, and what a whole run keeps. */
module ReleaseRuns {
  import opened Wrappers
  import opened ReleaseMarker
  import opened ReleaseSource
  import opened ReleaseState
  import opened ReleaseSteps

  /** A turn of source `k` changes nothing but release `r`, which carries the source's marker
      if it was there before, and changes nobody else's mirror. */
  ghost predicate Turn(sv: Server, sv': Server, r: int, k: int) {
    && ValidServer(sv) && ValidServer(sv') && sv.nextId <= sv'.nextId
    && (r in sv.releases ==> MarkerId(sv.releases[r]) == Some(k))
    && (forall x | x in sv.releases && x != r :: Same(sv, sv', x))
    && (forall x | x in sv'.releases && x != r :: x in sv.releases)
    && (forall x | x != k :: x in Managed(sv') <==> x in Managed(sv))
    && (forall x | x != k && x in Managed(sv) :: Managed(sv')[x] == Managed(sv)[x])
  }

  predicate Same(sv: Server, sv': Server, x: int) {
    && x in sv.releases && x in sv'.releases && sv'.releases[x] == sv.releases[x]
    && x in sv.attachments && x in sv'.attachments && sv'.attachments[x] == sv.attachments[x]
  }

  lemma NoTurn(sv: Server, r: int, k: int)
    requires ValidServer(sv) && (r in sv.releases ==> MarkerId(sv.releases[r]) == Some(k))
    ensures Turn(sv, sv, r, k)
  {
  }

  lemma TurnTransitive(a: Server, b: Server, c: Server, r: int, k: int)
    requires Turn(a, b, r, k) && Turn(b, c, r, k)
    ensures Turn(a, c, r, k)
  {
    hide MarkerId, ManagedIds, ValidServer;
    assert ValidServer(a) && ValidServer(b) && ValidServer(c);
    forall x | x in a.releases && x != r
      ensures Same(a, c, x)
    {
      assert Same(a, b, x) && Same(b, c, x);
    }
  }

  lemma AttachmentsTurn(sv: Server, sv': Server, r: int, k: int)
    requires ValidServer(sv) && OnlyAttachments(sv, sv', r) && r in sv.releases && MarkerId(sv.releases[r]) == Some(k)
    ensures Turn(sv, sv', r, k) && Managed(sv') == Managed(sv)
  {
    hide MarkerId, ManagedIds;
    OnlyAttachmentsKeepsValid(sv, sv', r);
  }

  lemma UpdatedValid(sv: Server, r: int, p: Release)
    requires ValidServer(sv) && r in sv.releases
    ensures ValidServer(Updated(sv, r, p)) && forall x | x in sv.releases && x != r :: Same(sv, Updated(sv, r, p), x)
  {
    hide Stored;
  }

  lemma UpdatedTurn(sv: Server, r: int, p: Release, k: int)
    requires ValidServer(sv) && r in sv.releases && MarkerId(sv.releases[r]) == Some(k) && MarkerId(Stored(p)) == Some(k)
    ensures ValidServer(Updated(sv, r, p)) && Turn(sv, Updated(sv, r, p), r, k) && Managed(Updated(sv, r, p)) == Managed(sv)
  {
    ManagedIdsUpdate(sv.order, sv.releases, r, Stored(p));
    UpdatedValid(sv, r, p);
    hide MarkerId, ManagedIds, Stored, ValidServer;
  }

  lemma CreatedValid(sv: Server, p: Release)
    requires ValidServer(sv)
    ensures ValidServer(Created(sv, p))
  {
    hide Stored;
    var sv' := Created(sv, p);
    forall i | 0 <= i < |sv.order|
      ensures sv'.order[i + 1] == sv.order[i] && sv.order[i] < sv.nextId
    {
    }
    forall i | 0 <= i < |sv'.order|
      ensures sv'.order[i] in sv'.releases && (0 < i ==> sv'.order[i] == sv.order[i - 1] && sv'.order[i] != sv'.order[0])
    {
    }
  }

  lemma CreatedTurn(sv: Server, p: Release, k: int)
    requires ValidServer(sv) && k !in Managed(sv) && MarkerId(Stored(p)) == Some(k)
    ensures ValidServer(Created(sv, p)) && Turn(sv, Created(sv, p), sv.nextId, k)
    ensures k in Managed(Created(sv, p)) && Managed(Created(sv, p))[k] == sv.nextId
  {
    hide *;
    CreatedValid(sv, p);
    CreatedManaged(sv, p, k);
    CreatedSame(sv, p);
    TurnWhen(sv, Created(sv, p), sv.nextId, k);
  }

  lemma CreatedSame(sv: Server, p: Release)
    requires ValidServer(sv)
    ensures var sv' := Created(sv, p);
            sv.nextId <= sv'.nextId && sv.nextId !in sv.releases
            && (forall x | x in sv.releases && x != sv.nextId :: Same(sv, sv', x)) && forall x | x in sv'.releases && x != sv.nextId :: x in sv.releases
  {
    hide Stored;
  }

  lemma TurnWhen(sv: Server, sv': Server, r: int, k: int)
    requires ValidServer(sv) && ValidServer(sv') && sv.nextId <= sv'.nextId && r !in sv.releases
    requires forall x | x in sv.releases && x != r :: Same(sv, sv', x)
    requires forall x | x in sv'.releases && x != r :: x in sv.releases
    requires forall x :: x in Managed(sv') <==> x == k || x in Managed(sv)
    requires forall x | x in Managed(sv') && x != k :: Managed(sv')[x] == Managed(sv)[x]
    ensures Turn(sv, sv', r, k)
  {
    hide MarkerId, ManagedIds, ValidServer, Same;
  }

  lemma CreatedManaged(sv: Server, p: Release, k: int)
    requires ValidServer(sv) && ValidServer(Created(sv, p)) && k !in Managed(sv) && MarkerId(Stored(p)) == Some(k)
    ensures forall x :: x in Managed(Created(sv, p)) <==> x == k || x in Managed(sv)
    ensures forall x | x in Managed(Created(sv, p)) :: Managed(Created(sv, p))[x] == if x == k then sv.nextId else Managed(sv)[x]
  {
    hide MarkerId, ManagedIds, Stored;
    var sv' := Created(sv, p);
    assert sv.nextId !in sv.releases && sv.nextId !in sv.order;
    forall x
      ensures x in Managed(sv') <==> x == k || x in Managed(sv)
      ensures x in Managed(sv') ==> Managed(sv')[x] == if x == k then sv.nextId else Managed(sv)[x]
    {
      ManagedIdsCreate(sv.order, sv.releases, sv.nextId, Stored(p), k, x);
    }
  }

  /** The release managed for one source is not the one another source's turn changes. */
  lemma OtherRelease(sv: Server, sv': Server, r: int, k: int, x: int)
    requires Turn(sv, sv', r, k) && x != k && x in Managed(sv)
    ensures Managed(sv)[x] != r && Same(sv, sv', Managed(sv)[x])
    ensures x in Managed(sv') && Managed(sv')[x] == Managed(sv)[x]
  {
    ManagedIdsSound(sv.order, sv.releases, x);
    hide MarkerId, ManagedIds;
  }

  lemma SettledKept(sv: Server, sv': Server, r: int, k: int, s: Source, assets: Option<seq<SourceAsset>>)
    requires Turn(sv, sv', r, k) && s.id != k && Settled(sv, s, assets)
    ensures Settled(sv', s, assets)
  {
    hide SettledAt, MarkerId, ManagedIds;
    OtherRelease(sv, sv', r, k, s.id);
  }

  /** Nor does it become settled by them. */
  lemma SettledBack(sv: Server, sv': Server, r: int, k: int, s: Source, assets: Option<seq<SourceAsset>>)
    requires Turn(sv, sv', r, k) && s.id != k && Settled(sv', s, assets)
    ensures Settled(sv, s, assets)
  {
    hide SettledAt, MarkerId, ManagedIds;
    OtherRelease(sv, sv', r, k, s.id);
  }

  lemma SecuredKept(sv: Server, sv': Server, r: int, k: int, latest: Source, l: int)
    requires Turn(sv, sv', r, k) && latest.id != k && SecuredAt(sv, latest, l)
    ensures l != r && SecuredAt(sv', latest, l)
  {
    hide ManagedIds, Held;
    assert Same(sv, sv', l);
  }

  // ---------------------------------------------------------------- issued records

  /** Every attachment id a marker on the server records was given out, as all are that this
      service wrote. */
  ghost predicate Trusty(sv: Server) {
    forall r | r in sv.releases && MarkerOf(sv.releases[r]).Some? :: Issued(MarkerOf(sv.releases[r]).value.assets, sv.nextId)
  }

  lemma TrustyKept(sv: Server, sv': Server, r: int, k: int)
    requires Turn(sv, sv', r, k) && Trusty(sv)
    requires r in sv'.releases && MarkerOf(sv'.releases[r]).Some? ==> Issued(MarkerOf(sv'.releases[r]).value.assets, sv'.nextId)
    ensures Trusty(sv')
  {
    hide MarkerId, ManagedIds, MarkerOf, Issued;
    forall x | x in sv'.releases && MarkerOf(sv'.releases[x]).Some?
      ensures Issued(MarkerOf(sv'.releases[x]).value.assets, sv'.nextId)
    {
      if x != r {
        assert Same(sv, sv', x);
        IssuedLater(MarkerOf(sv.releases[x]).value.assets, sv.nextId, sv'.nextId);
      }
    }
  }

  lemma IssuedNormalized(m: Marker, nextId: nat)
    requires Issued(m.assets, nextId)
    ensures Issued(Normalized(m).assets, nextId)
  {
  }

  // ---------------------------------------------------------------- what is still to do

  /** A destination release found with a source's marker. */
  datatype Entry = Entry(listed: Listed, marker: Marker)

  /** A release as listed or returned, with its attachments where the response embeds them. */
  datatype Listed = Listed(id: int, release: Release, assets: Option<map<int, Attachment>>)

  /** The response still describes the server. */
  ghost predicate Current(sv: Server, d: Listed) {
    && d.id in sv.releases && sv.releases[d.id] == d.release && d.id in sv.attachments
    && (d.assets.Some? ==> d.assets.value == sv.attachments[d.id])
  }

  /** A source whose turn has not come: what the listing said about its mirror still holds. */
  ghost predicate Untouched(start: Server, sv: Server, k: int, entry: Option<Entry>) {
    && ValidServer(start) && ValidServer(sv) && start.nextId <= sv.nextId
    && match entry
       case None => k !in Managed(sv) && k !in Managed(start)
       case Some(e) =>
         && Current(sv, e.listed) && Current(start, e.listed) && k in Managed(sv) && Managed(sv)[k] == e.listed.id
         && MarkerOf(e.listed.release) == Some(e.marker) && e.marker.githubId == k
         && k in Managed(start) && Managed(start)[k] == e.listed.id && sv.attachments[e.listed.id] == start.attachments[e.listed.id]
  }

  function Target(sv: Server, entry: Option<Entry>): int {
    if entry.Some? then entry.value.listed.id else sv.nextId
  }

  lemma UntouchedKept(start: Server, sv: Server, sv': Server, r: int, k: int, x: int, entry: Option<Entry>)
    requires Turn(sv, sv', r, k) && x != k && Untouched(start, sv, x, entry)
    ensures Untouched(start, sv', x, entry)
  {
    hide MarkerId, ManagedIds, MarkerOf;
    if entry.Some? {
      OtherRelease(sv, sv', r, k, x);
    }
  }

  // ---------------------------------------------------------------- placing and finishing a release

  /** Some release among the first `n` of the listing has the tag. */
  ghost predicate Tagged(sv: Server, tag: string, n: nat)
    requires n <= |sv.order|
  {
    exists i | 0 <= i < n :: sv.order[i] in sv.releases && sv.releases[sv.order[i]].tag == tag
  }

  /** The tags of the first `n` listed releases. */
  ghost predicate Taken(start: Server, taken: set<string>, n: nat)
    requires n <= |start.order|
  {
    forall tag :: tag in taken <==> Tagged(start, tag, n)
  }

  lemma TakenAdvances(start: Server, taken: set<string>, n: nat)
    requires n < |start.order| && start.order[n] in start.releases && Taken(start, taken, n)
    ensures Taken(start, taken + {start.releases[start.order[n]].tag}, n + 1)
  {
    forall tag
      ensures tag in taken + {start.releases[start.order[n]].tag} <==> Tagged(start, tag, n + 1)
    {
      assert tag in taken <==> Tagged(start, tag, n);
      if Tagged(start, tag, n + 1) && tag != start.releases[start.order[n]].tag {
        var i :| 0 <= i < n + 1 && start.order[i] in start.releases && start.releases[start.order[i]].tag == tag;
        assert i < n;
      }
    }
  }

  /** The stored release is what the source and the marker give. */
  predicate Carries(r: Release, s: Source, m: Marker) {
    Payload(s, m).Success? && Payload(s, m).value.0 == r
  }

  /** The source's release is in place under its marker. */
  ghost predicate Placed(start: Server, sv: Server, s: Source, d: Listed, m: Marker) {
    && ValidServer(sv) && Current(sv, d) && Stands(sv, s, d.id, m) && NoEmptyDigest(m)
    && FromStart(start, d.id, m.assets) && Mine(start, s, d.id)
  }

  ghost predicate Stands(sv: Server, s: Source, r: int, m: Marker)
    requires ValidServer(sv)
  {
    && r in sv.releases && s.id in Managed(sv) && Managed(sv)[s.id] == r
    && m.githubId == s.id && Keyed(m) && MarkerOf(sv.releases[r]) == Some(Normalized(m))
  }

  lemma SafeCreate(start: Server, latest: Option<Source>, s: Source, sv: Server, taken: set<string>)
    requires ValidServer(start) && s.id !in Managed(start) && Taken(start, taken, |start.order|) && s.tag !in taken
    ensures Safe(start, latest, Create(s.id, sv, s.tag))
  {
    assert !Tagged(start, s.tag, |start.order|);
    ManagedIdsSound(start.order, start.releases, s.id);
    hide MarkerId, ManagedIds;
  }

  lemma SafeUpdate(start: Server, latest: Option<Source>, s: Source, sv: Server, r: int)
    requires Mine(start, s, r)
    ensures Safe(start, latest, Update(s.id, sv, r))
  {
    hide MarkerId;
  }

  lemma OneSafe(start: Server, latest: Option<Source>, log: seq<Call>, c: Call)
    requires Safe(start, latest, c)
    ensures AllSafe(start, latest, log, log + [c])
  {
    hide Safe;
  }

  /** A release found in the listing is the source's own. */
  lemma EntryIsMine(start: Server, sv: Server, s: Source, entry: Entry)
    requires Untouched(start, sv, s.id, Some(entry))
    ensures Placed(start, sv, s, entry.listed, entry.marker)
    ensures Trusty(sv) ==> Issued(entry.marker.assets, sv.nextId)
  {
    DecodedIsKeyed(entry.listed.release.body);
    NormalIsUnchanged(entry.marker);
    hide ManagedIds, DecodeMarker, Normalized, Issued;
  }

  lemma PayloadIsMarked(s: Source, m: Marker)
    requires Keyed(m) && m.githubId == s.id && Payload(s, m).Success?
    ensures MarkerOf(Stored(Payload(s, m).value.0)) == Some(Normalized(m)) && MarkerId(Stored(Payload(s, m).value.0)) == Some(s.id)
    ensures MarkerOf(Payload(s, m).value.0) == Some(Normalized(m)) && MarkerId(Payload(s, m).value.0) == Some(s.id)
    ensures Shown(s) ==> Stored(Payload(s, m).value.0) == Payload(s, m).value.0
  {
    PayloadDecodes(s, m);
    hide DecodeMarker, BoundedBody;
  }

  /** Rewriting the source's release under a marker of its own. */
  lemma Rewritten(sv: Server, s: Source, r: int, was: Marker, m: Marker, p: Release)
    requires ValidServer(sv) && Stands(sv, s, r, was)
    requires Keyed(m) && m.githubId == s.id && Payload(s, m).Success? && p == Payload(s, m).value.0
    ensures var sv' := Updated(sv, r, p);
            Turn(sv, sv', r, s.id) && Stands(sv', s, r, m) && (Shown(s) ==> Carries(sv'.releases[r], s, m))
            && (Trusty(sv) && Issued(m.assets, sv.nextId) ==> Trusty(sv'))
  {
    PayloadIsMarked(s, m);
    MarkedId(sv.releases[r], was);
    UpdatedTurn(sv, r, p, s.id);
    if Trusty(sv) && Issued(m.assets, sv.nextId) {
      IssuedNormalized(m, sv.nextId);
      TrustyKept(sv, Updated(sv, r, p), r, s.id);
    }
    hide MarkerOf, MarkerId, ManagedIds, Normalized, Payload, Stored, Issued, Keyed;
  }

  lemma MarkedId(r: Release, m: Marker)
    requires MarkerOf(r) == Some(Normalized(m))
    ensures MarkerId(r) == Some(m.githubId)
  {
    hide DecodeMarker;
  }

  /** Creating the source's release with an empty marker. */
  lemma Made(start: Server, sv: Server, s: Source, p: Release)
    requires Untouched(start, sv, s.id, None) && Payload(s, Marker(s.id, map[])).Success? && p == Payload(s, Marker(s.id, map[])).value.0
    ensures var sv' := Created(sv, p);
            Turn(sv, sv', sv.nextId, s.id) && Stands(sv', s, sv.nextId, Marker(s.id, map[]))
            && (Trusty(sv) ==> Trusty(sv'))
  {
    hide *;
    var m := Marker(s.id, map[]);
    EmptyMarker(s.id, sv.nextId + 1);
    PayloadIsMarked(s, m);
    UntouchedNone(start, sv, s.id);
    CreatedTurn(sv, p, s.id);
    CreatedParts(sv, p);
    StandsWhen(Created(sv, p), s, sv.nextId, m);
    if Trusty(sv) {
      TrustyKept(sv, Created(sv, p), sv.nextId, s.id);
    }
  }

  lemma EmptyMarker(id: int, nextId: nat)
    ensures var m := Marker(id, map[]); Issued(Normalized(m).assets, nextId) && Keyed(m) && NoEmptyDigest(m) && Normalized(m) == m
  {
    assert Normalized(Marker(id, map[])).assets == map[];
  }

  lemma UntouchedNone(start: Server, sv: Server, k: int)
    requires Untouched(start, sv, k, None)
    ensures ValidServer(start) && ValidServer(sv) && k !in Managed(sv) && start.nextId <= sv.nextId
    ensures sv.nextId !in start.releases
  {
    hide ManagedIds, MarkerId;
  }

  lemma CreatedParts(sv: Server, p: Release)
    ensures var sv' := Created(sv, p);
            sv.nextId in sv'.releases && sv'.releases[sv.nextId] == Stored(p) && sv'.nextId == sv.nextId + 1
            && sv.nextId in sv'.attachments && sv'.attachments[sv.nextId] == map[]
  {
    hide Stored;
  }

  lemma StandsWhen(sv: Server, s: Source, r: int, m: Marker)
    requires ValidServer(sv) && r in sv.releases && s.id in Managed(sv) && Managed(sv)[s.id] == r
    requires m.githubId == s.id && Keyed(m) && MarkerOf(sv.releases[r]) == Some(Normalized(m))
    ensures Stands(sv, s, r, m)
  {
    hide ManagedIds, MarkerOf, Keyed, Normalized, ValidServer;
  }

  lemma PlacedWhen(start: Server, sv: Server, s: Source, d: Listed, m: Marker)
    requires ValidServer(sv) && Stands(sv, s, d.id, m) && NoEmptyDigest(m)
    requires d.id in sv.releases && sv.releases[d.id] == d.release && d.id in sv.attachments
    requires d.assets.Some? ==> d.assets.value == sv.attachments[d.id]
    requires d.id !in start.releases && m.assets == map[]
    ensures Placed(start, sv, s, d, m)
  {
    hide ManagedIds, MarkerOf, MarkerId, Keyed, Normalized, ValidServer, Stands, NoEmptyDigest;
  }

  lemma MadePlaced(start: Server, sv: Server, s: Source, p: Release, d: Listed)
    requires Untouched(start, sv, s.id, None) && Payload(s, Marker(s.id, map[])).Success? && p == Payload(s, Marker(s.id, map[])).value.0
    requires d.id == sv.nextId && d.release == Stored(p) && (d.assets.Some? ==> d.assets.value == map[])
    ensures Placed(start, Created(sv, p), s, d, Marker(s.id, map[])) && (Shown(s) ==> Carries(d.release, s, Marker(s.id, map[])))
  {
    hide *;
    var m := Marker(s.id, map[]);
    Made(start, sv, s, p);
    EmptyMarker(s.id, sv.nextId);
    PayloadIsMarked(s, m);
    UntouchedNone(start, sv, s.id);
    CreatedTurn(sv, p, s.id);
    CreatedParts(sv, p);
    PlacedWhen(start, Created(sv, p), s, d, m);
    CarriesWhen(d.release, s, m);
  }

  lemma CarriesWhen(r: Release, s: Source, m: Marker)
    requires Payload(s, m).Success?
    ensures Carries(r, s, m) <==> r == Payload(s, m).value.0
  {
    hide Payload;
  }

  /** The source's mirror shows it, under a marker of its own. */
  ghost predicate Represented(sv: Server, s: Source) {
    ValidServer(sv) && s.id in Managed(sv) && exists m :: RepresentedAt(sv, s, Managed(sv)[s.id], m)
  }

  ghost predicate RepresentedAt(sv: Server, s: Source, r: int, m: Marker) {
    r in sv.releases && m.githubId == s.id && MarkerOf(sv.releases[r]) == Some(Normalized(m)) && Shows(sv.releases[r], s, m)
  }

  lemma CarriesShows(r: Release, s: Source, m: Marker)
    requires Keyed(m) && Carries(r, s, m)
    ensures Shows(r, s, m)
  {
    PayloadShows(s, m);
    hide Payload, Shows, Keyed;
  }

  lemma NowRepresented(sv: Server, s: Source, r: int, m: Marker)
    requires ValidServer(sv) && Stands(sv, s, r, m) && Carries(sv.releases[r], s, m)
    ensures Represented(sv, s)
  {
    CarriesShows(sv.releases[r], s, m);
    assert RepresentedAt(sv, s, r, m);
    hide MarkerOf, Managed, Normalized, Shows, Carries, Keyed;
  }

  lemma RepresentedKept(sv: Server, sv': Server, r: int, k: int, s: Source)
    requires Turn(sv, sv', r, k) && s.id != k && Represented(sv, s)
    ensures Represented(sv', s)
  {
    hide MarkerOf, MarkerId, ManagedIds, Shows, Normalized;
    OtherRelease(sv, sv', r, k, s.id);
    var m :| RepresentedAt(sv, s, Managed(sv)[s.id], m);
    assert RepresentedAt(sv', s, Managed(sv')[s.id], m);
  }

  ghost predicate AllRepresented(sv: Server, sources: seq<Source>) {
    forall i | 0 <= i < |sources| :: Represented(sv, sources[i])
  }

  /** What every turn keeps, however it ends. */
  ghost predicate Kept(start: Server, latest: Option<Source>, sv: Server, log: seq<Call>, sv': Server, log': seq<Call>, r: int, k: int) {
    Turn(sv, sv', r, k) && AllSafe(start, latest, log, log') && (Trusty(start) ==> Trusty(sv'))
  }

  lemma KeptTransitive(start: Server, latest: Option<Source>, a: Server, logA: seq<Call>, b: Server, logB: seq<Call>,
                       c: Server, logC: seq<Call>, r: int, k: int)
    requires Kept(start, latest, a, logA, b, logB, r, k) && Kept(start, latest, b, logB, c, logC, r, k)
    ensures Kept(start, latest, a, logA, c, logC, r, k)
  {
    hide Turn, AllSafe, Trusty;
    TurnTransitive(a, b, c, r, k);
    AllSafeTransitive(start, latest, logA, logB, logC);
  }

  /** The update call, whether or not it took effect. */
  lemma UpdateKeeps(start: Server, latest: Option<Source>, sv: Server, log: seq<Call>, sv': Server, s: Source, r: int,
                    was: Marker, m: Marker, p: Release)
    requires ValidServer(sv) && Stands(sv, s, r, was) && Mine(start, s, r)
    requires Keyed(m) && m.githubId == s.id && Payload(s, m).Success? && p == Payload(s, m).value.0
    requires Trusty(start) ==> Trusty(sv) && Issued(m.assets, sv.nextId)
    requires sv' == sv || sv' == Updated(sv, r, p)
    ensures Kept(start, latest, sv, log, sv', log + [Update(s.id, sv, r)], r, s.id)
    ensures sv' == Updated(sv, r, p) ==> Stands(sv', s, r, m) && (Shown(s) ==> Carries(sv'.releases[r], s, m))
  {
    SafeUpdate(start, latest, s, sv, r);
    OneSafe(start, latest, log, Update(s.id, sv, r));
    MarkedId(sv.releases[r], was);
    NoTurn(sv, r, s.id);
    Rewritten(sv, s, r, was, m, p);
    hide Turn, AllSafe, Trusty, Stands, Carries, Safe, Issued, Keyed, Payload;
  }

  lemma CreateKeeps(start: Server, latest: Option<Source>, sv: Server, log: seq<Call>, sv': Server, s: Source, taken: set<string>, p: Release)
    requires Untouched(start, sv, s.id, None) && Payload(s, Marker(s.id, map[])).Success? && p == Payload(s, Marker(s.id, map[])).value.0
    requires Taken(start, taken, |start.order|) && s.tag !in taken && (Trusty(start) ==> Trusty(sv))
    requires sv' == sv || sv' == Created(sv, p)
    ensures Kept(start, latest, sv, log, sv', log + [Create(s.id, sv, s.tag)], sv.nextId, s.id)
  {
    SafeCreate(start, latest, s, sv, taken);
    OneSafe(start, latest, log, Create(s.id, sv, s.tag));
    NoTurn(sv, sv.nextId, s.id);
    Made(start, sv, s, p);
    hide Turn, AllSafe, Trusty, Stands, Safe, Payload, Created;
  }

  lemma NothingKept(start: Server, latest: Option<Source>, sv: Server, log: seq<Call>, entry: Option<Entry>, k: int)
    requires Untouched(start, sv, k, entry) && (Trusty(start) ==> Trusty(sv))
    ensures Kept(start, latest, sv, log, sv, log, Target(sv, entry), k)
  {
    if entry.Some? {
      ManagedIdsSound(sv.order, sv.releases, k);
    }
    hide MarkerId, ManagedIds, MarkerOf;
    NoTurn(sv, Target(sv, entry), k);
  }

  lemma PayloadTag(s: Source, m: Marker)
    ensures Payload(s, m).Success? ==> Payload(s, m).value.0.tag == s.tag
  {
    hide BoundedBody;
  }

  lemma PlacedStands(start: Server, sv: Server, s: Source, d: Listed, m: Marker)
    requires Placed(start, sv, s, d, m)
    ensures ValidServer(sv) && Current(sv, d) && Stands(sv, s, d.id, m) && Mine(start, s, d.id) && Keyed(m) && m.githubId == s.id
  {
    hide Keyed, Mine, MarkerOf, ManagedIds;
  }

  lemma CurrentRelease(sv: Server, d: Listed)
    requires Current(sv, d)
    ensures d.id in sv.releases && sv.releases[d.id] == d.release
  {
  }

  /** After an update the response describes the release in place. */
  lemma PlacedLater(start: Server, sv: Server, sv': Server, s: Source, d: Listed, d': Listed, m: Marker)
    requires Placed(start, sv, s, d, m) && ValidServer(sv') && Stands(sv', s, d.id, m)
    requires d'.id == d.id && Current(sv', d')
    ensures Placed(start, sv', s, d', m)
  {
    hide Stands, Mine, FromStart, NoEmptyDigest;
  }

  // ---------------------------------------------------------------- one source's whole turn

  /** The assets a source's mirror should hold: none when assets are not mirrored, only the
      latest release's when that is the mode. */
  function Wanted(s: Source, mirrorAssets: bool, mode: AssetMode, latestId: Option<int>): Option<seq<SourceAsset>> {
    if !mirrorAssets then None
    else if mode == LatestAssets && latestId != Some(s.id) then Some([])
    else Some(s.assets)
  }

  lemma WantedIs(s: Source, mirrorAssets: bool, mode: AssetMode, latestId: Option<int>)
    ensures Wanted(s, mirrorAssets, mode, latestId) ==
            if !mirrorAssets then None else Some(if mode == LatestAssets && latestId != Some(s.id) then [] else s.assets)
  {
  }

  /** Only the attachments changed since the release was placed. */
  lemma StandsAfterAssets(start: Server, sv: Server, sv': Server, s: Source, d: Listed, m: Marker)
    requires Placed(start, sv, s, d, m) && OnlyAttachments(sv, sv', d.id)
    ensures ValidServer(sv') && Stands(sv', s, d.id, m) && sv'.releases[d.id] == d.release && d.id in sv'.attachments
    ensures Turn(sv, sv', d.id, s.id) && (Trusty(sv) ==> Trusty(sv'))
    ensures Trusty(sv) ==> Issued(m.assets, sv.nextId)
  {
    MarkedId(sv.releases[d.id], m);
    NormalIsUnchanged(m);
    AttachmentsTurn(sv, sv', d.id, s.id);
    hide Keyed, Mine, MarkerOf, MarkerId, ManagedIds, Turn, NoEmptyDigest, Normalized;
    if Trusty(sv) {
      IssuedLater(m.assets, sv.nextId, sv'.nextId);
      TrustyKept(sv, sv', d.id, s.id);
    }
  }

  /** The final marker's records as the source's assets in step. */
  lemma SettledNow(sv: Server, s: Source, r: int, m: Marker, assets: Option<seq<SourceAsset>>)
    requires ValidServer(sv) && Stands(sv, s, r, m) && Carries(sv.releases[r], s, m) && NoEmptyDigest(m)
    requires assets.Some? ==> AssetsInStep(m.assets, sv.attachments[r], assets.value)
    ensures Settled(sv, s, assets)
  {
    NormalIsUnchanged(m);
    hide Keyed, MarkerOf, ManagedIds, Payload, NoEmptyDigest, Normalized, AssetsInStep;
  }

  lemma InStepPlain(mirrored: map<int, MirroredAsset>, at: map<int, Attachment>, assets: seq<SourceAsset>, id: int)
    requires AssetsInStep(mirrored, at, assets) && forall i | 0 <= i < |assets| :: assets[i].digest != Some("")
    ensures NoEmptyDigest(Marker(id, mirrored))
  {
    forall k | k in mirrored
      ensures mirrored[k].digest != Some("")
    {
      var i :| 0 <= i < |assets| && assets[i].id == k;
      assert InStep(mirrored, at, assets[i]);
    }
  }

  /** With every asset held under the stored marker, the release is secured. */
  lemma SecuredNow(sv: Server, s: Source, r: int, m: Marker)
    requires ValidServer(sv) && Stands(sv, s, r, m)
    requires AllHeld(m.assets, sv.attachments[r], s.assets)
    ensures SecuredAt(sv, s, r)
  {
    hide Keyed, MarkerOf, ManagedIds;
    forall j | 0 <= j < |s.assets|
      ensures Held(Normalized(m).assets, sv.attachments[r], s.assets[j])
    {
      assert Held(m.assets, sv.attachments[r], s.assets[j]);
    }
  }

  /** A settled source was found in the listing with nothing to change. */
  lemma SettledEntry(start: Server, sv: Server, s: Source, entry: Option<Entry>, assets: Option<seq<SourceAsset>>)
    requires Untouched(start, sv, s.id, entry) && Settled(sv, s, assets)
    ensures entry.Some? && Carries(entry.value.listed.release, s, entry.value.marker)
    ensures assets.Some? ==> AssetsInStep(entry.value.marker.assets, sv.attachments[entry.value.listed.id], assets.value)
    ensures Marker(s.id, entry.value.marker.assets) == entry.value.marker
  {
    hide MarkerOf, ManagedIds, Payload, AssetsInStep;
  }

  lemma StandingKept(start: Server, latest: Option<Source>, sv: Server, log: seq<Call>, s: Source, r: int, m: Marker)
    requires ValidServer(sv) && Stands(sv, s, r, m) && (Trusty(start) ==> Trusty(sv))
    ensures Kept(start, latest, sv, log, sv, log, r, s.id)
  {
    MarkedId(sv.releases[r], m);
    hide Keyed, MarkerOf, MarkerId, ManagedIds;
    NoTurn(sv, r, s.id);
  }

  lemma StandingAttachments(sv: Server, s: Source, r: int, m: Marker)
    requires ValidServer(sv) && Stands(sv, s, r, m)
    ensures r in sv.releases && r in sv.attachments
  {
    hide Keyed, MarkerOf, ManagedIds;
  }

  /** A release that matches the final payload stands under the final marker. */
  lemma MatchingStands(sv: Server, s: Source, r: int, was: Marker, m: Marker)
    requires ValidServer(sv) && Stands(sv, s, r, was) && Keyed(m) && m.githubId == s.id
    requires Payload(s, m).Success? && Matches(sv.releases[r], Payload(s, m).value.0)
    ensures Stands(sv, s, r, m) && Carries(sv.releases[r], s, m)
  {
    PayloadIsMarked(s, m);
    hide Keyed, MarkerOf, ManagedIds, Payload;
    assert sv.releases[r] == Payload(s, m).value.0;
  }

  lemma KeptValid(start: Server, latest: Option<Source>, sv: Server, log: seq<Call>, sv': Server, log': seq<Call>, r: int, k: int)
    requires Kept(start, latest, sv, log, sv', log', r, k)
    ensures ValidServer(sv) && ValidServer(sv')
  {
    hide AllSafe, Trusty, ManagedIds, MarkerId;
  }

  ghost predicate Digested(assets: seq<SourceAsset>) {
    forall i | 0 <= i < |assets| :: assets[i].digest != Some("")
  }

  /** After the asset pass of a placed release: what the final step may count on. */
  lemma AfterAssets(start: Server, latest: Option<Source>, sv: Server, log: seq<Call>, sv': Server, log': seq<Call>,
                    s: Source, d: Listed, m: Marker, mirrored: map<int, MirroredAsset>)
    requires Placed(start, sv, s, d, m) && Progress(start, latest, sv, log, sv', log', d.id)
    requires Records(start, d.id, m.assets, sv.nextId, mirrored, sv'.nextId) && (Trusty(start) ==> Trusty(sv))
    ensures Kept(start, latest, sv, log, sv', log', d.id, s.id)
    ensures ValidServer(sv') && Stands(sv', s, d.id, m) && sv'.releases[d.id] == d.release && KeyedMap(mirrored)
    ensures Trusty(start) ==> Trusty(sv') && Issued(m.assets, sv.nextId) && Issued(mirrored, sv'.nextId)
  {
    StandsAfterAssets(start, sv, sv', s, d, m);
    assert KeyedMap(m.assets);
    hide AllSafe, Turn, Trusty, Stands, Placed, Issued, KeyedMap, Owned;
  }

  /** A release whose marker gives two differently named assets one attachment is not settled. */
  lemma EntangledUnsettled(sv: Server, s: Source, assets: seq<SourceAsset>, r: int, mirrored: map<int, MirroredAsset>)
    requires ValidServer(sv) && Stands(sv, s, r, Marker(s.id, mirrored)) && r in sv.attachments && Entangled(mirrored, assets)
    ensures !Settled(sv, s, Some(assets))
  {
    var stored := Normalized(Marker(s.id, mirrored)).assets;
    var i, j :| Together(mirrored, assets, i, j);
    assert Together(stored, assets, i, j);
    hide MarkerOf, ManagedIds, Payload, AssetsInStep, Together;
    EntangledNeverInStep(stored, sv.attachments[r], assets);
    hide Normalized, Keyed, Entangled;
  }

  /** A stretch of the run that ends a release's turn cleanly. */
  lemma EndOfTurn(sv: Server, s: Source, assets: seq<SourceAsset>, r: int, mirrored: map<int, MirroredAsset>)
    requires ValidServer(sv) && Stands(sv, s, r, Marker(s.id, mirrored)) && r in sv.releases && r in sv.attachments
    ensures AllHeld(mirrored, sv.attachments[r], s.assets) ==> SecuredAt(sv, s, r)
    ensures AssetsInStep(mirrored, sv.attachments[r], assets) && Digested(assets) && Carries(sv.releases[r], s, Marker(s.id, mirrored)) ==>
              Settled(sv, s, Some(assets))
    ensures Entangled(mirrored, assets) ==> !Settled(sv, s, Some(assets))
  {
    if Entangled(mirrored, assets) {
      EntangledUnsettled(sv, s, assets, r, mirrored);
    }
    hide Stands, Held, Settled, Carries, SecuredAt, ManagedIds, Entangled;
    if AllHeld(mirrored, sv.attachments[r], s.assets) {
      SecuredNow(sv, s, r, Marker(s.id, mirrored));
    }
    if AssetsInStep(mirrored, sv.attachments[r], assets) && Digested(assets) {
      InStepPlain(mirrored, sv.attachments[r], assets, s.id);
      hide AssetsInStep, Digested;
      if Carries(sv.releases[r], s, Marker(s.id, mirrored)) {
        SettledNow(sv, s, r, Marker(s.id, mirrored), Some(assets));
      }
    }
  }

  lemma PlacedParts(start: Server, sv: Server, s: Source, d: Listed, m: Marker)
    requires Placed(start, sv, s, d, m)
    ensures ValidServer(sv) && d.id in sv.attachments && (d.assets.Some? ==> d.assets.value == sv.attachments[d.id])
    ensures FromStart(start, d.id, m.assets) && Mine(start, s, d.id) && Marker(s.id, m.assets) == m
  {
    hide Mine, MarkerOf, ManagedIds, NoEmptyDigest, FromStart;
  }

  /** What the service knows as the latest release, if it treats one specially. */
  ghost predicate IsLatest(latest: Option<Source>, latestId: Option<int>, s: Source) {
    && (latest.Some? <==> latestId.Some?)
    && (latest.Some? ==> latest.value.id == latestId.value && (s.id == latestId.value ==> s == latest.value))
  }

  /** Once the latest release's assets are complete, it is secured. */
  ghost predicate Safely(sv: Server, latest: Option<Source>, ready: bool, l: int) {
    latest.Some? && ready ==> SecuredAt(sv, latest.value, l)
  }

  lemma KeptSafely(start: Server, latest: Option<Source>, latestId: Option<int>, sv: Server, log: seq<Call>, sv': Server, log': seq<Call>,
                   s: Source, r: int, ready: bool, l: int)
    requires Kept(start, latest, sv, log, sv', log', r, s.id) && IsLatest(latest, latestId, s) && Safely(sv, latest, ready, l)
    ensures latestId != Some(s.id) || sv' == sv || latest.None? ==> Safely(sv', latest, ready, l)
    ensures latest.Some? && ready && latestId != Some(s.id) ==> l != r
  {
    hide Turn, SecuredAt, AllSafe, Trusty;
    if latest.Some? && ready && latestId != Some(s.id) {
      SecuredKept(sv, sv', r, s.id, latest.value, l);
    }
  }

  lemma PlacedSettled(start: Server, sv: Server, s: Source, d: Listed, m: Marker)
    requires Placed(start, sv, s, d, m)
    ensures Plain(s) && Carries(d.release, s, m) ==> Settled(sv, s, None)
    ensures Plain(s) ==> Shown(s)
  {
    hide Carries, Mine, FromStart, Stands, Settled, NoEmptyDigest;
    if Plain(s) && Carries(d.release, s, m) {
      SettledNow(sv, s, d.id, m, None);
    }
  }

  /** When the asset pass is reached, deleting stale attachments is safe. */
  lemma MayFill(start: Server, latest: Option<Source>, latestId: Option<int>, sv: Server, log: seq<Call>, sv': Server, log': seq<Call>,
                s: Source, r: int, entry: Option<Entry>, ready: bool, l: int, assets: seq<SourceAsset>)
    requires Kept(start, latest, sv, log, sv', log', r, s.id) && IsLatest(latest, latestId, s) && Safely(sv, latest, ready, l)
    requires Untouched(start, sv, s.id, entry) && DistinctIds(s.assets) && (assets == [] || assets == s.assets)
    requires ready || latestId == Some(s.id)
    ensures MayDelete(sv', latest, s.id, r, l) && start.nextId <= sv'.nextId && DistinctIds(assets) && (Trusty(start) ==> Trusty(sv'))
    ensures Plain(s) ==> Shown(s) && Digested(assets)
  {
    KeptSafely(start, latest, latestId, sv, log, sv', log', s, r, ready, l);
    assert start.nextId <= sv.nextId <= sv'.nextId by {
      hide MarkerOf, MarkerId, ManagedIds, AllSafe, Trusty;
    }
    hide Kept, SecuredAt, Untouched, Trusty, Shown;
    assert Trusty(start) ==> Trusty(sv') by {
      KeptTrusty(start, latest, sv, log, sv', log', r, s.id);
    }
  }

  lemma KeptTrusty(start: Server, latest: Option<Source>, sv: Server, log: seq<Call>, sv': Server, log': seq<Call>, r: int, k: int)
    requires Kept(start, latest, sv, log, sv', log', r, k)
    ensures (Trusty(start) ==> Trusty(sv')) && AllSafe(start, latest, log, log')
  {
    hide Turn, AllSafe, Trusty;
  }

  lemma NowSafely(sv: Server, latest: Option<Source>, latestId: Option<int>, s: Source, ready: bool, l: int)
    requires IsLatest(latest, latestId, s) && latestId == Some(s.id) && (ready ==> SecuredAt(sv, s, l))
    ensures Safely(sv, latest, ready, l)
  {
    hide SecuredAt;
  }

  // ---------------------------------------------------------------- exactly when a turn settles

  /** No two wanted assets of the source share an attachment in the records of its mirror. */
  ghost predicate ClearFor(sv: Server, s: Source, wanted: Option<seq<SourceAsset>>)
    requires ValidServer(sv)
  {
    wanted.Some? && s.id in Managed(sv) ==>
      var id := Managed(sv)[s.id];
      id in sv.releases && id in sv.attachments && MarkerOf(sv.releases[id]).Some? ==>
        Clear(MarkerOf(sv.releases[id]).value.assets, sv.attachments[id], wanted.value)
  }

  /** A source that ended its turn cleanly in a run from `start` is settled exactly when its
      records were clear, as far as the names of its assets differ. */
  ghost predicate Exactly(start: Server, sv: Server, s: Source, wanted: Option<seq<SourceAsset>>)
    requires ValidServer(start)
  {
    && (ClearFor(start, s, wanted) ==> Settled(sv, s, wanted))
    && (!ClearFor(start, s, wanted) && Distinct(s.assets) ==> !Settled(sv, s, wanted))
  }

  /** The marker a turn starts from, and the attachments it finds. */
  function MarkerFor(s: Source, entry: Option<Entry>): Marker {
    if entry.Some? then entry.value.marker else Marker(s.id, map[])
  }

  function AttachmentsFor(sv: Server, entry: Option<Entry>): map<int, Attachment> {
    if entry.Some? && entry.value.listed.id in sv.attachments then sv.attachments[entry.value.listed.id] else map[]
  }

  /** A turn starts from the attachments its release had at the start of the run. */
  lemma FoundAsAtStart(start: Server, sv: Server, s: Source, entry: Option<Entry>)
    requires Untouched(start, sv, s.id, entry)
    ensures AsAtStart(start, Target(sv, entry), AttachmentsFor(sv, entry))
  {
    hide MarkerOf, ManagedIds;
  }

  lemma ClearTurn(start: Server, sv: Server, s: Source, entry: Option<Entry>, wanted: Option<seq<SourceAsset>>)
    requires Untouched(start, sv, s.id, entry)
    ensures ValidServer(start)
    ensures ClearFor(start, s, wanted) <==> (wanted.Some? ==> Clear(MarkerFor(s, entry).assets, AttachmentsFor(sv, entry), wanted.value))
  {
    if entry.None? && wanted.Some? {
      ClearEmpty(AttachmentsFor(sv, entry), wanted.value);
    }
    hide MarkerOf, ManagedIds, Clear;
  }

  lemma ClearEmpty(listed: map<int, Attachment>, assets: seq<SourceAsset>)
    ensures Clear(map[], listed, assets)
  {
  }

  /** How a turn's end decides whether the source is settled. */
  lemma TurnExactly(start: Server, sv: Server, s: Source, wanted: Option<seq<SourceAsset>>, clear: bool)
    requires ValidServer(start) && (ClearFor(start, s, wanted) <==> clear)
    requires clear ==> Settled(sv, s, wanted)
    requires !clear && Distinct(s.assets) ==> !Settled(sv, s, wanted)
    ensures Exactly(start, sv, s, wanted)
  {
    hide ClearFor, Settled, ValidServer;
  }

  lemma ExactlyKept(start: Server, sv: Server, sv': Server, r: int, k: int, s: Source, wanted: Option<seq<SourceAsset>>)
    requires ValidServer(start) && Turn(sv, sv', r, k) && s.id != k && Exactly(start, sv, s, wanted)
    ensures Exactly(start, sv', s, wanted)
  {
    hide ClearFor, Settled, ValidServer, Turn, Distinct;
    if Settled(sv, s, wanted) {
      SettledKept(sv, sv', r, k, s, wanted);
    }
    if Settled(sv', s, wanted) {
      SettledBack(sv, sv', r, k, s, wanted);
    }
  }

  ghost predicate AllExactly(start: Server, sv: Server, sources: seq<Source>, mirrorAssets: bool, mode: AssetMode, latestId: Option<int>)
    requires ValidServer(start)
  {
    forall i | 0 <= i < |sources| :: Exactly(start, sv, sources[i], Wanted(sources[i], mirrorAssets, mode, latestId))
  }

  ghost predicate AllClear(sv: Server, sources: seq<Source>, mirrorAssets: bool, mode: AssetMode, latestId: Option<int>)
    requires ValidServer(sv)
  {
    forall i | 0 <= i < |sources| :: ClearFor(sv, sources[i], Wanted(sources[i], mirrorAssets, mode, latestId))
  }

  ghost predicate AllNamed(sources: seq<Source>) {
    forall i | 0 <= i < |sources| :: Distinct(sources[i].assets)
  }

  /** WHEN A CLEAN RUN SETTLES. After a clean run all sources are settled if and only if no two
      wanted assets of one source shared an attachment when it started. */
  lemma CleanRunSettlesIff(start: Server, sv: Server, sources: seq<Source>, mirrorAssets: bool, mode: AssetMode, latestId: Option<int>)
    requires ValidServer(start) && AllExactly(start, sv, sources, mirrorAssets, mode, latestId)
    ensures AllClear(start, sources, mirrorAssets, mode, latestId) ==> AllSettled(sv, sources, mirrorAssets, mode, latestId)
    ensures AllNamed(sources) ==>
              (AllSettled(sv, sources, mirrorAssets, mode, latestId) <==> AllClear(start, sources, mirrorAssets, mode, latestId))
  {
    hide ClearFor, Settled, ValidServer, Distinct, Wanted;
    if AllNamed(sources) && AllSettled(sv, sources, mirrorAssets, mode, latestId) {
      forall i | 0 <= i < |sources|
        ensures ClearFor(start, sources[i], Wanted(sources[i], mirrorAssets, mode, latestId))
      {
        assert Exactly(start, sv, sources[i], Wanted(sources[i], mirrorAssets, mode, latestId));
        assert Settled(sv, sources[i], Wanted(sources[i], mirrorAssets, mode, latestId)) && Distinct(sources[i].assets);
      }
    }
  }

  // ---------------------------------------------------------------- whole runs

  function Lookup(managed: map<int, Entry>, k: int): Option<Entry> {
    if k in managed then Some(managed[k]) else None
  }

  ghost predicate Lists(listing: seq<Listed>, sv: Server) {
    |listing| == |sv.order| && forall i | 0 <= i < |listing| :: listing[i].id == sv.order[i] && Current(sv, listing[i])
  }

  /** The entries found among the first `i` listed releases. */
  ghost predicate Read(managed: map<int, Entry>, start: Server, i: nat)
    requires ValidServer(start) && i <= |start.order|
  {
    && (forall k :: k in managed <==> k in ManagedIds(start.order[..i], start.releases))
    && (forall k | k in managed ::
          && managed[k].listed.id == ManagedIds(start.order[..i], start.releases)[k] && Current(start, managed[k].listed)
          && MarkerOf(managed[k].listed.release) == Some(managed[k].marker) && managed[k].marker.githubId == k)
  }

  function NextRead(managed: map<int, Entry>, d: Listed): map<int, Entry> {
    match MarkerOf(d.release)
    case None => managed
    case Some(m) => managed[m.githubId := Entry(d, m)]
  }

  lemma ReadAdvances(managed: map<int, Entry>, start: Server, i: nat, d: Listed)
    requires ValidServer(start) && i < |start.order| && Read(managed, start, i) && d.id == start.order[i] && Current(start, d)
    ensures Read(NextRead(managed, d), start, i + 1)
  {
    hide ValidServer, DecodeMarker;
    assert start.order[..i + 1][..i] == start.order[..i];
    assert start.order[..i + 1][i] == start.order[i];
  }

  lemma ReadAll(managed: map<int, Entry>, start: Server, k: int)
    requires ValidServer(start) && Read(managed, start, |start.order|)
    ensures Untouched(start, start, k, Lookup(managed, k))
  {
    hide MarkerOf, ManagedIds;
    assert start.order[..|start.order|] == start.order;
  }

  ghost predicate DistinctSources(sources: seq<Source>) {
    && (forall i, j | 0 <= i < j < |sources| :: sources[i].id != sources[j].id)
    && (forall i | 0 <= i < |sources| :: DistinctIds(sources[i].assets))
  }

  ghost predicate AllSettled(sv: Server, sources: seq<Source>, mirrorAssets: bool, mode: AssetMode, latestId: Option<int>) {
    forall i | 0 <= i < |sources| :: Settled(sv, sources[i], Wanted(sources[i], mirrorAssets, mode, latestId))
  }

  /** What a run has reached before its `i`-th turn. */
  ghost predicate RunState(start: Server, sv: Server, sources: seq<Source>, managed: map<int, Entry>, i: nat, clean: bool,
                           ready: bool, mirrorAssets: bool, mode: AssetMode, latestId: Option<int>)
    requires i <= |sources| && ValidServer(start)
  {
    && (forall j | i <= j < |sources| :: Untouched(start, sv, sources[j].id, Lookup(managed, sources[j].id)))
    && (clean && latestId.Some? && 0 < i ==> ready)
    && (clean && Trusty(start) && AllPlain(sources) ==> AllExactly(start, sv, sources[..i], mirrorAssets, mode, latestId))
    && (clean && AllPlain(sources) ==> AllRepresented(sv, sources[..i]))
  }

  lemma RunStarts(start: Server, sources: seq<Source>, managed: map<int, Entry>, ready: bool, mirrorAssets: bool, mode: AssetMode,
                  latestId: Option<int>)
    requires ValidServer(start) && Read(managed, start, |start.order|)
    ensures RunState(start, start, sources, managed, 0, true, ready, mirrorAssets, mode, latestId)
  {
    hide *;
    forall j | 0 <= j < |sources|
      ensures Untouched(start, start, sources[j].id, Lookup(managed, sources[j].id))
    {
      ReadAll(managed, start, sources[j].id);
    }
    RunStartsFrom(start, sources, managed, ready, mirrorAssets, mode, latestId);
  }

  lemma RunStartsFrom(start: Server, sources: seq<Source>, managed: map<int, Entry>, ready: bool, mirrorAssets: bool, mode: AssetMode,
                      latestId: Option<int>)
    requires ValidServer(start) && forall j | 0 <= j < |sources| :: Untouched(start, start, sources[j].id, Lookup(managed, sources[j].id))
    ensures RunState(start, start, sources, managed, 0, true, ready, mirrorAssets, mode, latestId)
  {
    hide Untouched, Lookup, Trusty, AllPlain, Exactly, ValidServer, Represented;
  }

  lemma RunAdvances(start: Server, latest: Option<Source>, sv: Server, log: seq<Call>, sv': Server, log': seq<Call>, r: int,
                    sources: seq<Source>, managed: map<int, Entry>, i: nat, clean: bool, ready: bool, clean': bool, ready': bool,
                    mirrorAssets: bool, mode: AssetMode, latestId: Option<int>)
    requires ValidServer(start) && i < |sources| && DistinctSources(sources) && (latestId.Some? ==> sources[0].id == latestId.value)
    requires RunState(start, sv, sources, managed, i, clean, ready, mirrorAssets, mode, latestId)
    requires Kept(start, latest, sv, log, sv', log', r, sources[i].id)
    requires latestId == Some(sources[i].id) && clean' ==> ready'
    requires latestId != Some(sources[i].id) ==> ready' == ready
    requires clean' ==> clean
    requires clean' && (latestId.Some? ==> ready') && Trusty(start) && Plain(sources[i]) ==>
               Exactly(start, sv', sources[i], Wanted(sources[i], mirrorAssets, mode, latestId))
    requires clean' && Plain(sources[i]) ==> Represented(sv', sources[i])
    ensures RunState(start, sv', sources, managed, i + 1, clean', ready', mirrorAssets, mode, latestId)
  {
    hide Untouched, Turn, Trusty, Plain, Exactly, Wanted, Lookup, AllSafe, DistinctIds, ValidServer, Represented;
    forall j | i < j < |sources|
      ensures Untouched(start, sv', sources[j].id, Lookup(managed, sources[j].id))
    {
      UntouchedKept(start, sv, sv', r, sources[i].id, sources[j].id, Lookup(managed, sources[j].id));
    }
    if clean' && Trusty(start) && AllPlain(sources) {
      var done, more := sources[..i], sources[..i + 1];
      forall j | 0 <= j < |more|
        ensures Exactly(start, sv', more[j], Wanted(more[j], mirrorAssets, mode, latestId))
      {
        if j < i {
          assert done[j] == sources[j] == more[j];
          ExactlyKept(start, sv, sv', r, sources[i].id, sources[j], Wanted(sources[j], mirrorAssets, mode, latestId));
        } else {
          assert more[j] == sources[i] && Plain(sources[i]);
        }
      }
    }
    if clean' && AllPlain(sources) {
      StillRepresented(sv, sv', r, sources, i);
    }
  }

  lemma StillRepresented(sv: Server, sv': Server, r: int, sources: seq<Source>, i: nat)
    requires i < |sources| && DistinctSources(sources) && AllRepresented(sv, sources[..i])
    requires Turn(sv, sv', r, sources[i].id) && Represented(sv', sources[i])
    ensures AllRepresented(sv', sources[..i + 1])
  {
    hide Turn, Represented, DistinctIds;
    var done, more := sources[..i], sources[..i + 1];
    forall j | 0 <= j < |more|
      ensures Represented(sv', more[j])
    {
      if j < i {
        assert done[j] == sources[j] == more[j];
        RepresentedKept(sv, sv', r, sources[i].id, sources[j]);
      }
    }
  }

  lemma RunTurn(start: Server, sv: Server, sources: seq<Source>, managed: map<int, Entry>, i: nat, clean: bool, ready: bool,
                mirrorAssets: bool, mode: AssetMode, latestId: Option<int>)
    requires ValidServer(start) && i < |sources| && DistinctSources(sources)
    requires RunState(start, sv, sources, managed, i, clean, ready, mirrorAssets, mode, latestId)
    ensures Untouched(start, sv, sources[i].id, Lookup(managed, sources[i].id)) && DistinctIds(sources[i].assets)
    ensures AllSettled(start, sources, mirrorAssets, mode, latestId) ==>
              Settled(start, sources[i], Wanted(sources[i], mirrorAssets, mode, latestId))
  {
    hide Untouched, Trusty, Settled, Exactly, Wanted, Lookup, DistinctIds, AllPlain, ValidServer, Represented;
  }

  lemma RunEnds(start: Server, sv: Server, sources: seq<Source>, managed: map<int, Entry>, ready: bool,
                mirrorAssets: bool, mode: AssetMode, latestId: Option<int>)
    requires ValidServer(start) && RunState(start, sv, sources, managed, |sources|, true, ready, mirrorAssets, mode, latestId)
    ensures Trusty(start) && AllPlain(sources) ==> AllExactly(start, sv, sources, mirrorAssets, mode, latestId)
    ensures AllPlain(sources) ==> AllRepresented(sv, sources)
  {
    hide Untouched, Trusty, Exactly, Wanted, Lookup, AllPlain, ValidServer, Represented;
    assert sources[..|sources|] == sources;
  }

  // ---------------------------------------------------------------- runs without failing calls

  /** Whatever attachment ids below `bound` the assets get, their records fit the release body. */
  ghost predicate Fits(s: Source, assets: seq<SourceAsset>, bound: nat) {
    forall m | AllFiled(m, assets) && Below(m, bound) :: Payload(s, Marker(s.id, m)).Success?
  }

  ghost predicate Below(mirrored: map<int, MirroredAsset>, bound: nat) {
    forall k | k in mirrored :: 0 <= mirrored[k].giteaId < bound
  }

  /** Nothing on the server stands in the way of a source: its mirror, or else its tag, is as
      it should be, no wanted asset is blocked, and what will be stored fits. */
  ghost predicate Smooth(sv: Server, s: Source, wanted: Option<seq<SourceAsset>>, settings: Settings, bound: nat)
    requires ValidServer(sv)
  {
    && (if s.id in Managed(sv) then
          var id := Managed(sv)[s.id];
          id in sv.releases && id in sv.attachments && MarkerOf(sv.releases[id]).Some?
          && var m := MarkerOf(sv.releases[id]).value;
          Payload(s, m).Success? && (wanted.Some? ==> Unobstructed(m.assets, sv.attachments[id], wanted.value, settings))
        else
          !Tagged(sv, s.tag, |sv.order|) && Payload(s, Marker(s.id, map[])).Success?
          && (wanted.Some? ==> Unobstructed(map[], map[], wanted.value, settings)))
    && (wanted.Some? ==> Fits(s, wanted.value, bound))
  }

  ghost predicate AllSmooth(sv: Server, sources: seq<Source>, mirrorAssets: bool, mode: AssetMode, latestId: Option<int>,
                            settings: Settings, bound: nat)
    requires ValidServer(sv)
  {
    forall i | 0 <= i < |sources| :: Smooth(sv, sources[i], Wanted(sources[i], mirrorAssets, mode, latestId), settings, bound)
  }

  /** What a smooth source's turn finds. */
  lemma SmoothTurn(start: Server, sv: Server, s: Source, entry: Option<Entry>, taken: set<string>, wanted: Option<seq<SourceAsset>>,
                   settings: Settings, bound: nat)
    requires Untouched(start, sv, s.id, entry) && Taken(start, taken, |start.order|)
    requires Smooth(start, s, wanted, settings, bound)
    ensures (entry.None? ==> s.tag !in taken) && Payload(s, MarkerFor(s, entry)).Success?
    ensures wanted.Some? ==> Unobstructed(MarkerFor(s, entry).assets, AttachmentsFor(sv, entry), wanted.value, settings)
    ensures wanted.Some? ==> Fits(s, wanted.value, bound)
  {
    hide MarkerOf, ManagedIds, Payload, Unobstructed, Fits, Tagged;
  }

  lemma SmoothTurns(start: Server, sv: Server, s: Source, entry: Option<Entry>, taken: set<string>, wanted: Option<seq<SourceAsset>>,
                    settings: Settings)
    requires Untouched(start, sv, s.id, entry) && Taken(start, taken, |start.order|)
    ensures ValidServer(start)
    ensures forall bound: nat | Smooth(start, s, wanted, settings, bound) ::
              && (entry.None? ==> s.tag !in taken) && Payload(s, MarkerFor(s, entry)).Success?
              && (wanted.Some? ==> Unobstructed(MarkerFor(s, entry).assets, AttachmentsFor(sv, entry), wanted.value, settings)
                                   && Fits(s, wanted.value, bound))
  {
    assert ValidServer(start);
    hide *;
    forall bound: nat | Smooth(start, s, wanted, settings, bound)
      ensures (entry.None? ==> s.tag !in taken) && Payload(s, MarkerFor(s, entry)).Success?
      ensures wanted.Some? ==> Unobstructed(MarkerFor(s, entry).assets, AttachmentsFor(sv, entry), wanted.value, settings)
                               && Fits(s, wanted.value, bound)
    {
      SmoothTurn(start, sv, s, entry, taken, wanted, settings, bound);
    }
  }

  lemma SmoothBound(sv: Server, s: Source, wanted: Option<seq<SourceAsset>>, settings: Settings, bound: nat, less: nat)
    requires ValidServer(sv) && Smooth(sv, s, wanted, settings, bound) && less <= bound
    ensures Smooth(sv, s, wanted, settings, less)
  {
    hide MarkerOf, ManagedIds, Payload, Unobstructed, AllFiled, Tagged, ValidServer;
  }

  lemma AllSmoothBound(sv: Server, sources: seq<Source>, mirrorAssets: bool, mode: AssetMode, latestId: Option<int>,
                       settings: Settings, bound: nat, less: nat)
    requires ValidServer(sv) && AllSmooth(sv, sources, mirrorAssets, mode, latestId, settings, bound) && less <= bound
    ensures AllSmooth(sv, sources, mirrorAssets, mode, latestId, settings, less)
  {
    hide Smooth, Wanted, ValidServer;
    forall i | 0 <= i < |sources|
      ensures Smooth(sv, sources[i], Wanted(sources[i], mirrorAssets, mode, latestId), settings, less)
    {
      SmoothBound(sv, sources[i], Wanted(sources[i], mirrorAssets, mode, latestId), settings, bound, less);
    }
  }

  lemma SmoothSoFar(start: Server, latest: Option<Source>, sv: Server, log: seq<Call>, sv': Server, log': seq<Call>, r: int,
                    sources: seq<Source>, i: nat, mirrorAssets: bool, mode: AssetMode, latestId: Option<int>, settings: Settings)
    requires ValidServer(start) && i < |sources| && Kept(start, latest, sv, log, sv', log', r, sources[i].id)
    ensures AllSmooth(start, sources, mirrorAssets, mode, latestId, settings, sv'.nextId) ==>
              Smooth(start, sources[i], Wanted(sources[i], mirrorAssets, mode, latestId), settings, sv'.nextId)
              && AllSmooth(start, sources, mirrorAssets, mode, latestId, settings, sv.nextId)
  {
    assert sv.nextId <= sv'.nextId;
    if AllSmooth(start, sources, mirrorAssets, mode, latestId, settings, sv'.nextId) {
      AllSmoothBound(start, sources, mirrorAssets, mode, latestId, settings, sv'.nextId, sv.nextId);
    }
    hide Smooth, Turn, AllSafe, Trusty, Wanted, ValidServer;
  }

  /** Where no assets are mirrored the settings do not matter. */
  lemma SmoothMembers(sv: Server, sources: seq<Source>, some: seq<Source>, mirrorAssets: bool, mode: AssetMode, latestId: Option<int>,
                      settings: Settings, other: Settings, bound: nat)
    requires ValidServer(sv) && AllSmooth(sv, sources, mirrorAssets, mode, latestId, settings, bound)
    requires (forall s :: s in some ==> s in sources) && (mirrorAssets ==> other == settings)
    ensures AllSmooth(sv, some, mirrorAssets, mode, latestId, other, bound)
  {
    forall i | 0 <= i < |some|
      ensures Smooth(sv, some[i], Wanted(some[i], mirrorAssets, mode, latestId), other, bound)
    {
      hide MarkerOf, ManagedIds, Payload, Unobstructed, Fits, Tagged, ValidServer;
      assert some[i] in some && some[i] in sources;
      var j :| 0 <= j < |sources| && sources[j] == some[i];
    }
  }

  /** Records of held assets on a valid server fit if all such records do. */
  lemma FittingRecords(sv: Server, s: Source, r: int, mirrored: map<int, MirroredAsset>, assets: seq<SourceAsset>)
    requires ValidServer(sv) && r in sv.attachments && Fits(s, assets, sv.nextId)
    requires AllHeld(mirrored, sv.attachments[r], assets) && AllFiled(mirrored, assets)
    ensures Payload(s, Marker(s.id, mirrored)).Success?
  {
    hide Payload;
    forall k | k in mirrored
      ensures 0 <= mirrored[k].giteaId < sv.nextId
    {
      var i :| 0 <= i < |assets| && assets[i].id == k;
      assert Held(mirrored, sv.attachments[r], assets[i]);
    }
    assert Below(mirrored, sv.nextId);
  }

  /** Where no assets are wanted, the empty marker has to fit and nothing else. */
  lemma FitsNothing(s: Source, bound: nat)
    ensures Fits(s, [], bound) <==> Payload(s, Marker(s.id, map[])).Success?
  {
    var none: map<int, MirroredAsset> := map[];
    assert AllFiled(none, []) && Below(none, bound);
    forall m: map<int, MirroredAsset> | AllFiled(m, [])
      ensures m == none
    {
      assert forall k :: k in m ==> HasId([], k);
      SameMap(m, none);
    }
    hide Payload;
  }

  // ---------------------------------------------------------------- order of the turns

  predicate HasSource(sources: seq<Source>, k: int) {
    exists i | 0 <= i < |sources| :: sources[i].id == k
  }

  function IndexOf(sources: seq<Source>, k: int): (i: nat)
    requires HasSource(sources, k)
    ensures i < |sources| && sources[i].id == k && forall j | 0 <= j < i :: sources[j].id != k
  {
    if sources[0].id == k then 0 else
      assert forall i | 1 <= i < |sources| :: sources[i] == sources[1..][i - 1];
      1 + IndexOf(sources[1..], k)
  }

  /** A stable sort that puts the latest release first. */
  function LatestFirst(sources: seq<Source>, k: int): seq<Source>
    requires HasSource(sources, k)
  {
    var p := IndexOf(sources, k);
    [sources[p]] + sources[..p] + sources[p + 1..]
  }

  /** Where each turn comes from: the latest release, then the others in their order. */
  lemma LatestFirstAt(sources: seq<Source>, k: int, i: nat)
    requires HasSource(sources, k) && i < |sources|
    ensures |LatestFirst(sources, k)| == |sources|
    ensures var p := IndexOf(sources, k);
            LatestFirst(sources, k)[i] == sources[if i == 0 then p else if i <= p then i - 1 else i]
  {
    hide IndexOf;
  }

  lemma LatestFirstMembers(sources: seq<Source>, k: int, s: Source)
    requires HasSource(sources, k)
    ensures s in LatestFirst(sources, k) <==> s in sources
  {
    hide IndexOf;
    var p := IndexOf(sources, k);
    assert sources == sources[..p] + [sources[p]] + sources[p + 1..];
  }

  lemma LatestFirstDistinct(sources: seq<Source>, k: int)
    requires HasSource(sources, k) && DistinctSources(sources)
    ensures DistinctSources(LatestFirst(sources, k)) && LatestFirst(sources, k)[0].id == k
  {
    hide DistinctIds, IndexOf, LatestFirst;
    var o := LatestFirst(sources, k);
    LatestFirstAt(sources, k, 0);
    forall i | 0 <= i < |o|
      ensures DistinctIds(o[i].assets)
    {
      LatestFirstAt(sources, k, i);
    }
    forall i, j | 0 <= i < j < |o|
      ensures o[i].id != o[j].id
    {
      LatestFirstAt(sources, k, i);
      LatestFirstAt(sources, k, j);
    }
  }

  /** The latest release matters only when its assets alone are mirrored. */
  function Chosen(mirrorAssets: bool, mode: AssetMode, latestRelease: Option<int>): Option<int> {
    if mirrorAssets && mode == LatestAssets then latestRelease else None
  }

  function LatestOf(sources: seq<Source>, latestId: Option<int>): Option<Source> {
    if latestId.Some? && HasSource(sources, latestId.value) then Some(sources[IndexOf(sources, latestId.value)]) else None
  }

  predicate Stable(s: Source) {
    !s.draft && !s.prerelease
  }

  /** The source's answer about its latest release contradicts its listing. */
  predicate Contradicted(sources: seq<Source>, latestRelease: Option<int>) {
    if latestRelease.Some? then !HasSource(sources, latestRelease.value)
    else exists i | 0 <= i < |sources| :: Stable(sources[i])
  }

  lemma LatestIs(sources: seq<Source>, latestId: Option<int>, s: Source)
    requires DistinctSources(sources) && s in sources && (latestId.Some? ==> HasSource(sources, latestId.value))
    ensures IsLatest(LatestOf(sources, latestId), latestId, s)
  {
    hide DistinctIds;
  }

  lemma SettledMembers(sv: Server, sources: seq<Source>, ordered: seq<Source>, mirrorAssets: bool, mode: AssetMode, latestId: Option<int>)
    requires (forall s :: s in ordered <==> s in sources)
    ensures AllSettled(sv, ordered, mirrorAssets, mode, latestId) <==> AllSettled(sv, sources, mirrorAssets, mode, latestId)
    ensures AllPlain(sources) <==> AllPlain(ordered)
  {
    hide Settled, Wanted, Plain;
    SettledSubset(sv, sources, ordered, mirrorAssets, mode, latestId);
    SettledSubset(sv, ordered, sources, mirrorAssets, mode, latestId);
  }

  lemma RepresentedMembers(sv: Server, sources: seq<Source>, ordered: seq<Source>)
    requires (forall s :: s in ordered <==> s in sources) && AllRepresented(sv, ordered)
    ensures AllRepresented(sv, sources)
  {
    hide Represented;
    forall i | 0 <= i < |sources|
      ensures Represented(sv, sources[i])
    {
      assert sources[i] in sources && sources[i] in ordered;
      var j :| 0 <= j < |ordered| && ordered[j] == sources[i];
    }
  }

  lemma ExactlyMembers(start: Server, sv: Server, sources: seq<Source>, ordered: seq<Source>, mirrorAssets: bool, mode: AssetMode,
                       latestId: Option<int>)
    requires ValidServer(start) && (forall s :: s in ordered <==> s in sources)
    requires AllExactly(start, sv, ordered, mirrorAssets, mode, latestId)
    ensures AllExactly(start, sv, sources, mirrorAssets, mode, latestId)
  {
    hide Exactly, Wanted, ValidServer;
    forall i | 0 <= i < |sources|
      ensures Exactly(start, sv, sources[i], Wanted(sources[i], mirrorAssets, mode, latestId))
    {
      assert sources[i] in sources && sources[i] in ordered;
      var j :| 0 <= j < |ordered| && ordered[j] == sources[i];
    }
  }

  lemma SettledSubset(sv: Server, sources: seq<Source>, some: seq<Source>, mirrorAssets: bool, mode: AssetMode, latestId: Option<int>)
    requires forall s :: s in some ==> s in sources
    ensures AllSettled(sv, sources, mirrorAssets, mode, latestId) ==> AllSettled(sv, some, mirrorAssets, mode, latestId)
    ensures AllPlain(sources) ==> AllPlain(some)
  {
    hide Settled, Wanted, Plain;
    if AllSettled(sv, sources, mirrorAssets, mode, latestId) {
      forall i | 0 <= i < |some|
        ensures Settled(sv, some[i], Wanted(some[i], mirrorAssets, mode, latestId))
      {
        assert some[i] in some && some[i] in sources;
        var j :| 0 <= j < |sources| && sources[j] == some[i];
      }
    }
    if AllPlain(sources) {
      forall i | 0 <= i < |some|
        ensures Plain(some[i])
      {
        assert some[i] in some && some[i] in sources;
        var j :| 0 <= j < |sources| && sources[j] == some[i];
      }
    }
  }

  /** What a run keeps however far it gets. */
  ghost predicate RunKept(start: Server, latest: Option<Source>, log: seq<Call>, sv: Server, log': seq<Call>) {
    ValidServer(sv) && AllSafe(start, latest, log, log') && (Trusty(start) ==> Trusty(sv))
  }

  lemma RunKeptNext(start: Server, latest: Option<Source>, log: seq<Call>, sv: Server, logged: seq<Call>, sv': Server, log': seq<Call>, r: int, k: int)
    requires RunKept(start, latest, log, sv, logged) && Kept(start, latest, sv, logged, sv', log', r, k)
    ensures RunKept(start, latest, log, sv', log')
  {
    hide AllSafe, Trusty, ManagedIds, MarkerId;
    AllSafeTransitive(start, latest, log, logged, log');
  }

  lemma RunKeptTrusty(start: Server, latest: Option<Source>, log: seq<Call>, sv: Server, log': seq<Call>)
    requires RunKept(start, latest, log, sv, log')
    ensures ValidServer(sv) && (Trusty(start) ==> Trusty(sv))
  {
    hide ValidServer, AllSafe, Trusty;
  }

  lemma RunKeptStarts(start: Server, latest: Option<Source>, log: seq<Call>)
    requires ValidServer(start)
    ensures RunKept(start, latest, log, start, log)
  {
    hide ValidServer, Trusty;
  }

  lemma NotReadySafely(sv: Server, latest: Option<Source>, latestId: Option<int>, ready: bool, l: int)
    requires (latest.Some? <==> latestId.Some?) && (ready ==> latestId.None?)
    ensures Safely(sv, latest, ready, l)
  {
  }

  lemma ChosenIs(mirrorAssets: bool, mode: AssetMode, latestRelease: Option<int>)
    ensures Chosen(mirrorAssets, mode, latestRelease).Some? ==>
              mirrorAssets && mode == LatestAssets && Chosen(mirrorAssets, mode, latestRelease) == latestRelease
  {
  }

  lemma NotContradicted(sources: seq<Source>, latestId: Option<int>)
    requires latestId.Some? && !Contradicted(sources, latestId)
    ensures HasSource(sources, latestId.value)
  {
  }

  /** The order of the turns keeps every source and what is said about them all. */
  lemma OrderedAll(sv: Server, sources: seq<Source>, ordered: seq<Source>, mirrorAssets: bool, mode: AssetMode, latestId: Option<int>)
    requires DistinctSources(sources)
    requires if latestId.Some? then HasSource(sources, latestId.value) && ordered == LatestFirst(sources, latestId.value) else ordered == sources
    ensures AllSettled(sv, ordered, mirrorAssets, mode, latestId) <==> AllSettled(sv, sources, mirrorAssets, mode, latestId)
    ensures (AllPlain(ordered) <==> AllPlain(sources)) && forall s :: s in ordered <==> s in sources
    ensures DistinctSources(ordered) && (latestId.Some? ==> |ordered| > 0 && ordered[0].id == latestId.value)
    ensures forall i | 0 <= i < |ordered| :: IsLatest(LatestOf(sources, latestId), latestId, ordered[i])
    ensures LatestOf(sources, latestId).Some? <==> latestId.Some?
  {
    hide DistinctIds, IndexOf, LatestFirst, HasSource, IsLatest, AllSettled, AllPlain, LatestOf, DistinctSources;
    forall s
      ensures s in ordered <==> s in sources
    {
      if latestId.Some? {
        LatestFirstMembers(sources, latestId.value, s);
      }
    }
    SettledMembers(sv, sources, ordered, mirrorAssets, mode, latestId);
    forall i | 0 <= i < |ordered|
      ensures IsLatest(LatestOf(sources, latestId), latestId, ordered[i])
    {
      LatestIs(sources, latestId, ordered[i]);
    }
    LatestOfIs(sources, latestId);
    if latestId.Some? {
      LatestFirstDistinct(sources, latestId.value);
      LatestFirstNonempty(sources, latestId.value);
    }
  }

  lemma LatestOfIs(sources: seq<Source>, latestId: Option<int>)
    requires latestId.Some? ==> HasSource(sources, latestId.value)
    ensures LatestOf(sources, latestId).Some? <==> latestId.Some?
  {
  }

  lemma LatestFirstNonempty(sources: seq<Source>, k: int)
    requires HasSource(sources, k)
    ensures |LatestFirst(sources, k)| > 0
  {
  }
}
