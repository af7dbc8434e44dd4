# GitHarbor verification

A Dafny model of how GitHarbor mirrors repositories, container packages and releases into Gitea, with
proofs of the guarantees the service is built around: it never touches what it does not own, a new copy
is complete before an old one is pruned, an interrupted step can be repeated, and a repeated run changes
nothing. `dafny verify dfyconfig.toml` checks the whole project.

Remote servers are classes whose calls answer, report an error, or never return; a call that does not
answer may still have taken effect. A ghost counter of failing calls lets each contract also say what the
code must do when none of them fails. The code above them is written as the source writes it, with the same
branches and loops, and is proved against functions and relations on values. Lemmas about those relations
then give the properties of whole runs. What the code computes with, the order of a sort, the fields of a
payload, the spelling of a name or a marker, is also said independently, over the raw input and with
literals, and the contracts of the main methods are stated in those terms.

| files | what they model |
|---|---|
| `Wrappers`, `Text` | results, string operations |
| `ContainerTags`, `ContainerJournal`, `ContainerRuns`, `ContainerMoves`, `ContainerMirror` | container packages: write-ahead journal, collision rule, recovery, moved tags, cleanup |
| `SizeEstimator` | the size of a source image: a recursive walk with a shared set and a budget |
| `Utf8`, `Base64Url`, `Json`, `ReleaseMarker` | the ownership marker in a release body and the byte-bounded body |
| `ReleaseState`, `ReleaseSource`, `ReleaseSteps`, `ReleaseRuns`, `ReleaseCopies`, `ReleaseMirror`, `ReleaseShared` | releases and their attachments: what the clients read, one asset, one release, one run, what was sent and what is shown |
| `GitRefs`, `GitMirror` | reserved references and the order of publication |
| `Naming`, `ReconcileState`, `Reconciliation` | destination names and the repository table |
| `Ownership`, `GiteaOwnership` | ownership markers in repository descriptions, `ensure_repository` |
| `SyncState`, `SyncSafety`, `SyncChildren`, `SyncService` | locks, cancellation, stop and restart, over every schedule |

Properties that do not hold of the code as one might expect are stated exactly, with inputs that
show it. A retry after an interruption is admitted at every interruption point if and only if the
version's row holds no stale id (`RetryAdmittedIff`, `StaleIdHappens`). A tag that moved to a newer version
is accepted if and only if another row still owns its id or the version's own attempt had put its digest
there (`MovedTagAdmittedIff`); a run in which it is refused, and for good, is `MovedTagRefused` with
`MovedTagRefusedForGood`. A marker survives its round trip if and only if no digest is the empty string
(`BodyRoundTripIff`), which the clients never build (`ReadIsPlain`). A clean release run settles every
source if and only if no two wanted assets share an attachment (`CleanRunSettlesIff`, `SharedMarkerRun`).
A source can be published if and only if its reserved references do not conflict (`RemapExistsIff`). All
children together stay within `sync_concurrency` during a global run if and only if no child of an earlier,
cancelled run is still winding down when it begins (`PermitsHoldIff`, `CancelledChildMayOverlap`).

## Model

| member | source | states |
|---|---|---|
| ContainerTags.PreservationTagInjective | githarbor/services/containers.py:540-542 | Two digests never share a preservation tag. |
| ContainerTags.PreservationTagSpelled | githarbor/services/containers.py:540-542 | The preservation tag of `sha256:` and some hexadecimal digits is `githarbor-preserved-sha256-` and the same digits; such a digest is valid exactly with 64 of them. |
| ContainerTags.SortPutsLatestLast | githarbor/services/containers.py:206-213 | In copying order a literal `latest`, in any spelling, comes after every other tag. |
| ContainerTags.SortedAscending | githarbor/services/containers.py:206-213 | Tags are copied in ascending order of their folded names, except that `latest` is last. |
| ContainerTags.StrLeIs | githarbor/services/containers.py:206-213 | Names compare as code points: the first difference decides, and a prefix comes first. |
| ContainerTags.LatestSpelled | githarbor/services/containers.py:206-213 | A tag counts as `latest` if and only if it is that word in any mixture of capital and small letters. |
| ContainerTags.FoldSpelled | githarbor/services/containers.py:206-213 | Folding turns the capitals A to Z into a to z, leaves every other character, and works piece by piece. |
| ContainerJournal.CopyTagsEffect | githarbor/services/containers.py:249-264 | Copying a list of tags puts each on the digest, leaves tags already there with their id, gives rewritten ones fresh ids, and changes no other tag. |
| ContainerJournal.PreparedOwnsTheSame | githarbor/services/containers.py:466-508 | Writing the intention neither adds to nor takes from the ids the package owns. |
| ContainerJournal.VersionStepValid | githarbor/services/containers.py:194-287 | Whatever fails, ids stay unique and every recorded positive id keeps meaning one tag and digest. |
| ContainerJournal.LiveIdsAreRetrySafe | githarbor/services/containers.py:228-247 | If the positive ids in a version's own row are live, the row is safe to retry. |
| ContainerJournal.RetryAdmittedIff | githarbor/services/containers.py:228-287 | However many tags an interrupted attempt copied, its retry passes the collision rule at every interruption point if and only if the row held no stale id when the attempt began. |
| ContainerJournal.StaleIdRefused | githarbor/services/containers.py:235-247 | In any world, once a tag with a stale id has been rewritten, the retry is refused. |
| ContainerMoves.StaleIdHappens | githarbor/services/containers.py:228-247 | A concrete stale id: a tag recorded for one version is taken by another and moves back; the attempt may start, and its retry is admitted after the first copied tag and refused after the second. |
| ContainerJournal.RetryReachesTheSameWorld | githarbor/services/containers.py:249-287 | Interrupting an attempt anywhere and retrying it to the end leaves exactly the destination and journal an uninterrupted attempt leaves. |
| ContainerRuns.RecoveryChain | githarbor/services/containers.py:228-287 | After any number of failed or interrupted attempts, each at any point, the next one is still let through and ends where one undisturbed attempt would have ended. |
| ContainerJournal.FinishedIsComplete | githarbor/services/containers.py:268-287 | A finished version's row is complete and names exactly the planned tags with their destination ids, and every planned tag resolves to the digest. |
| ContainerJournal.LatestMovesLast | githarbor/services/containers.py:206-213 | If an interrupted attempt has already moved `latest`, every other tag of the version is in place. |
| ContainerJournal.VersionStepKeepsForeign | githarbor/services/containers.py:235-266 | No failure, retry or completion of a version touches a tag no journal record claims, and the tag stays unclaimed. |
| ContainerRuns.ValidSnoc | githarbor/services/containers.py:173-192 | The incremental check of one more version accepts exactly what keeps the whole listing consistent. |
| ContainerRuns.ValidTagSpelled | githarbor/services/containers.py:21 | A valid tag is a letter, digit or underscore followed by at most 127 of these, dots and dashes. |
| ContainerRuns.SortedOldestFirst | githarbor/services/containers.py:121 | The order of processing is ascending by creation time, and by id where times are equal. |
| ContainerRuns.PreservationTagsAreForever | githarbor/services/containers.py:206-213 | Through every all-mode history of steps, failures, moved tags and vanished versions, a preservation tag stays on its digest under the same id. |
| ContainerRuns.CleanPassPreservesAll | githarbor/services/containers.py:121-135 | A warning-free all-mode pass leaves every source tag and preservation tag on its own version's digest. |
| ContainerMoves.MovedTagAdmittedIff | githarbor/services/containers.py:228-247 | After the version that owned a tag was mirrored again without it, a newer version gets the tag if and only if another row owns its id or its own interrupted attempt had put its digest there. |
| ContainerMoves.MovedTagRefused | githarbor/services/containers.py:279-286 | A concrete all-mode run with valid digests: `m` moves from version 1 to version 2, either version may start, the older goes first, and version 2 is then refused and `m` is nobody's. |
| ContainerMoves.MovedTagRefusedForGood | githarbor/services/containers.py:235-247 | No history of that package, whatever is mirrored and however it ends, reaches a world in which a version with that tag may start. |
| ContainerMoves.MovedTagListingWarns | githarbor/services/containers.py:121-135 | From the same world, an all-mode run over a listing of both versions takes the older first, and the two never both end without a warning. |
| ContainerMoves.ForeignIsForGood | githarbor/services/containers.py:235-266 | Through every history a tag nobody claims keeps its id and digest, and no version that lists it is ever let through. |
| ContainerRuns.WithoutTagKeeps | githarbor/services/containers.py:305-359 | Removing a tag a row lays exact claim to leaves every foreign tag as it was. |
| ContainerRuns.ShrinkingKeeps | githarbor/services/containers.py:361-363 | Dropping claims or rows keeps the journal valid and foreign tags foreign. |
| ContainerRuns.WithoutManifestKeeps | githarbor/services/containers.py:365-401 | Deleting a manifest nothing resolves to changes no tag. |
| ContainerMirror.AddIntentions | githarbor/services/containers.py:466-508 | The loop that fills in missing tags yields the old entries plus a zero for every new tag. |
| ContainerMirror.CollectVersions | githarbor/services/containers.py:279-285 | Succeeds if and only if the listing shows every tag, and then records exactly the listed ids. |
| ContainerMirror.ValidateSourceTags | githarbor/services/containers.py:173-192 | Accepts a listing if and only if its tags are well formed, distinct up to case within a version and never on two digests. |
| ContainerMirror.PackageMirror.CheckCollisions | githarbor/services/containers.py:235-247 | Lets a version through only if every planned tag is admitted by the collision rule; without failing calls, exactly then. |
| ContainerMirror.PackageMirror.EstimateSize | githarbor/services/containers.py:216-226 | The estimate decides about the limit as the sum over what is reachable from the digest does; without failing calls an image passes exactly when it is within the limit and the manifest budget. |
| ContainerMirror.PackageMirror.PrepareRecord | githarbor/services/containers.py:466-508 | Writes the intention exactly when the stored identity agrees. |
| ContainerMirror.PackageMirror.CopyAndVerify | githarbor/services/containers.py:251-266 | Stops after some number of copied tags, all of them exactly when clean. |
| ContainerMirror.PackageMirror.VerifyLink | githarbor/services/containers.py:271-277 | A clean result means the package is linked to this repository and to no other; without failing calls it is refused exactly when it is linked elsewhere. |
| ContainerMirror.PackageMirror.RecordCopies | githarbor/services/containers.py:268-287 | Ends in the finished world or leaves the attempt as it was, and links the package only to this repository. |
| ContainerMirror.PackageMirror.Transfer | githarbor/services/containers.py:249-287 | However copying, linking and completing end, the attempt is one of the allowed steps; without failing calls a version with tags ends cleanly exactly when no other repository holds the link. |
| ContainerMirror.PackageMirror.MirrorJob | githarbor/services/containers.py:228-287 | From listing to completed row, an allowed step; without failing calls, for a version with tags, clean exactly when the rule admits every tag, the row's identity agrees and no other repository holds the link. |
| ContainerMirror.PackageMirror.MirrorVersion | githarbor/services/containers.py:194-287 | Every outcome is one of the allowed steps, nothing is deleted, an image above the size limit is never mirrored, and without failing calls it succeeds exactly when the version may be mirrored. |
| ContainerMirror.PackageMirror.RemoveOldTag | githarbor/services/containers.py:316-359 | One old tag is deleted only while the row's claim to it holds; without failing calls it is kept exactly when the claim does not hold. |
| ContainerMirror.PackageMirror.RemoveOldTags | githarbor/services/containers.py:305-359 | Deletes only tags the row can prove it owns and keeps the rest in the row; a clean result means every unprotected tag of the row is gone; without failing calls it is clean whenever the row can prove its claim to each that exists. |
| ContainerMirror.PackageMirror.RemoveOldManifest | githarbor/services/containers.py:365-400 | Deletes a manifest only while no tag, managed or not, resolves to it; without failing calls it warns exactly when one does, and otherwise the manifest is gone. |
| ContainerMirror.PackageMirror.CleanupRow | githarbor/services/containers.py:305-400 | A clean result removes the row, its unprotected tags and its manifest, and no other row is touched; without failing calls a row whose claims hold and whose digest nothing else resolves to is removed. |
| ContainerMirror.PackageMirror.CleanupOlderVersions | githarbor/services/containers.py:289-402 | Every deletion happens while all tags of the current row resolve to its digest and they still do afterwards; a clean result leaves that row alone in the package with every older manifest and every other recorded tag gone; without failing calls the result is clean when every older row can be pruned. |
| ContainerMirror.PackageMirror.MirrorVersions | githarbor/services/containers.py:119-135 | The steps taken are those of the versions in order, foreign tags are untouched, and in all mode without failing calls the pass is clean exactly when every version may be mirrored at its turn. |
| ContainerMirror.PackageMirror.CheckPackage | githarbor/services/containers.py:100-111 | Accepts only a consistent listing for a new or managed, not foreign-linked package; without failing calls exactly then. |
| ContainerMirror.PackageMirror.MirrorAll | githarbor/services/containers.py:119-135 | Every version has its turn, oldest first and by id among equals; a clean pass leaves source and preservation tags on their digests; without failing calls it is clean exactly when each version may be mirrored at its turn. |
| ContainerMirror.PackageMirror.MirrorLatest | githarbor/services/containers.py:137-151 | Pruning follows only a warning-free mirror of the one latest version, and leaves that version's row alone when clean. |
| ContainerMirror.PackageMirror.MirrorPackage | githarbor/services/containers.py:85-152 | Over a whole run in either mode foreign tags keep id and digest; in all mode versions have their turns oldest first; cleanup runs only in latest mode after the one `latest` version was mirrored without a warning; clean runs end in the preserved or pruned state. Without failing calls an all-mode run is clean, and a latest-mode run reaches its cleanup, exactly when the package is open and its versions may be mirrored. |
| SizeEstimator.Estimator.Visit | githarbor/services/registry.py:68-125 | The recursive walk adds exactly the weight it newly counted, fetches a digest at most once, and on a well-formed graph fails only over its budget. |
| SizeEstimator.Estimator.VisitChildren | githarbor/services/registry.py:92-99 | A pass over an index leaves every child counted and explored, adding exactly the weight newly counted. |
| SizeEstimator.Estimator.Fetch | githarbor/services/registry.py:69-90 | Spends one unit of the budget, accepts only a manifest of at most 16 MiB with the digest asked for, counts its length once, and fails on a sound manifest only over the budget. |
| SizeEstimator.Estimator.CountBlob | githarbor/services/registry.py:113-123 | Adds a blob's size the first time it is seen and nothing afterwards; never fails in a sound manifest. |
| SizeEstimator.Estimator.CountBlobs | githarbor/services/registry.py:101-124 | Whatever a manifest names as its config or lists among its layers or blobs ends up counted, the sum being exactly what was newly counted. |
| SizeEstimator.DescriptorsAreListed | githarbor/services/registry.py:92-111 | What the walk follows from an index is exactly what `manifests` lists; what it counts from any other manifest is exactly its config and the entries of `layers` and `blobs`. |
| SizeEstimator.FetchedAreManifests | githarbor/services/registry.py:68-125 | A completed walk has fetched exactly the reachable manifests. |
| SizeEstimator.ExploredIsExact | githarbor/services/registry.py:63-127 | A completed walk has counted exactly the reachable digests, each with its weight. |
| SizeEstimator.EstimateSize | githarbor/services/registry.py:63-127 | On a consistent graph the estimate is the sum over reachable digests, the fetchable manifests and every config, layer and blob they list, for any sharing, nesting or cycle; every reachable manifest is then sound; on a well-formed graph it succeeds if and only if at most 256 manifests are reachable. |
| Utf8.DecodeEncoded | githarbor/services/releases.py:73-121 | Decoding an encoded text gives the text back. |
| Utf8.TruncationKeepsPrefix | githarbor/services/releases.py:124-144 | Cutting UTF-8 at a byte limit and ignoring the broken end keeps the longest prefix of whole characters. |
| Base64Url.DecodeEncoded | githarbor/services/releases.py:73-121 | Unpadded base64url decodes to the bytes it was made from. |
| Json.RoundTrip | githarbor/services/releases.py:73-121 | A printed JSON value parses to itself. |
| ReleaseMarker.MatchIsUnique | githarbor/services/releases.py:25 | A body has at most one place where the marker pattern can match. |
| ReleaseMarker.SearchFindsAppended | githarbor/services/releases.py:25 | Behind any text, even one full of marker-like comments, the search finds the comment that was appended. |
| ReleaseMarker.DecodeAppended | githarbor/services/releases.py:73-121 | Whatever stands in front, an appended marker reads back with empty digests dropped. |
| ReleaseMarker.BodyRoundTripIff | githarbor/services/releases.py:73-121 | Encoding then decoding returns the marker if and only if no asset has an empty digest. |
| ReleaseMarker.DecodedIsKeyed | githarbor/services/releases.py:93-121 | Any marker read from any body keys its assets by their own ids and has no empty digest. |
| ReleaseMarker.BoundedBodyIsRight | githarbor/services/releases.py:124-144 | A stored body is at most 65,000 bytes and decodes to the marker; one that fits is unchanged; otherwise the longest fitting prefix is kept; the error is raised exactly when nothing can fit. |
| ReleaseMarker.BodyShows | githarbor/services/releases.py:73-144 | A stored body is the notes, an empty line and the marker comment; or, where that exceeds 65,000 bytes, the longest prefix of the notes that fits, the notice with the address of the full notes, and the comment. |
| ReleaseMarker.MarkerSpelled | githarbor/services/releases.py:73-90 | The marker as written: `assets`, `github_id`, `version` 1, as compact JSON in this order. |
| ReleaseMarker.AssetSpelled | githarbor/services/releases.py:58-65 | A record as written: `digest` or null, `gitea_id`, `github_id`, `name`, `size`. |
| ReleaseMarker.ReadAssetsAre | githarbor/services/releases.py:104-111 | A list of records is read if and only if each object in it is; other entries are passed over, and of several records with one id the last counts. |
| ReleaseMarker.LenientReading | githarbor/services/releases.py:100-112 | A marker without a list of records is read as having none, and a truth value as a number. |
| ReleaseState.ManagedIdsSound | githarbor/services/releases.py:189-194 | The release taken as a source's mirror is the last listed one with its marker, and none is missed. |
| ReleaseState.ManagedIdsUpdate | githarbor/services/releases.py:210-219 | Rewriting a release under the same marker id changes nobody's mirror. |
| ReleaseState.ManagedIdsCreate | githarbor/services/releases.py:206-208 | A newly created release becomes the mirror of its own source only. |
| ReleaseSteps.KeepStep | githarbor/services/releases.py:374-401 | Keeping or renaming a recorded attachment puts its asset in step and, if no other record names it, leaves the others' attachments alone. |
| ReleaseSteps.UploadStep | githarbor/services/releases.py:418-453 | Recording a fresh upload of the declared size does the same. |
| ReleaseSteps.ApartIff | githarbor/services/releases.py:317-343 | After a clean removal of stale attachments, no two records share a listed one if and only if no two wanted assets shared one to begin with. |
| ReleaseSteps.ApartKept | githarbor/services/releases.py:374-453 | A clean step neither parts assets that share an attachment nor joins others. |
| ReleaseRuns.OtherRelease | githarbor/services/releases.py:196-259 | One source's turn leaves every other source's release, body and attachments as they were. |
| ReleaseRuns.SettledKept | githarbor/services/releases.py:196-259 | A settled source stays settled through other sources' turns. |
| ReleaseRuns.CleanRunSettlesIff | githarbor/services/releases.py:196-261 | After a clean run all sources are settled if and only if no two wanted assets of one source shared an attachment when it started. |
| ReleaseRuns.SecuredKept | githarbor/services/releases.py:224-259 | The secured latest release stays secured through other sources' turns. |
| ReleaseRuns.LatestFirstDistinct | githarbor/services/releases.py:182-187 | Sorting puts the latest release first and leaves every source with one turn. |
| ReleaseRuns.FittingRecords | githarbor/services/releases.py:247-259 | Records of assets in step fit a release body if all such records with the ids given out so far do. |
| ReleaseRuns.FitsNothing | githarbor/services/releases.py:234-236 | Where no assets are wanted, what has to fit is the empty marker alone. |
| ReleaseSource.ReadIsPlain | githarbor/clients/github.py:30-73 | Every source a client builds has a name as Gitea shows it and no empty digest. |
| ReleaseCopies.ReadAssetsSent | githarbor/clients/external_releases.py:179-278 | Every asset a client builds is one that was sent and can be downloaded, with its id and GitHub's digest; it counts as complete only if GitHub reports it so or reports nothing, or Forgejo hosts it itself. |
| ReleaseCopies.ContradictsIff | githarbor/services/releases.py:165-180 | The answer about the latest release is refused if and only if that id was not sent, or none was named although a release that is neither a draft nor a prerelease was. |
| ReleaseCopies.RepresentedIsCopied | githarbor/clients/external_releases.py:210-289 | A mirror that shows the source a client built shows what was sent: raw tag, raw name or else the tag, flags and target as the provider knows them, raw notes before the marker. |
| ReleaseCopies.SettledAttaches | githarbor/services/releases.py:345-360 | A source settled with its assets has an attachment with the raw name and size of each asset that was sent and can be downloaded. |
| ReleaseMirror.ReleaseMirror.RemoveStale | githarbor/services/releases.py:317-343 | A stale attachment is deleted only when id, name and size match its record; if nothing is stale no call is made; without failing calls the result is clean if every stale attachment is gone or matches. |
| ReleaseMirror.ReleaseMirror.RemoveStaleAsset | githarbor/services/releases.py:317-343 | Deletes only what the record describes exactly; without failing calls it warns exactly when the attachment is there with another name or size. |
| ReleaseMirror.ReleaseMirror.KeepAsset | githarbor/services/releases.py:375-401 | Keeps a recorded attachment under the asset's present name; without failing calls clean exactly when the size still agrees. |
| ReleaseMirror.ReleaseMirror.UploadAsset | githarbor/services/releases.py:403-453 | A clean upload is recorded at its declared size under a fresh id; a blocked asset causes no call; an incomplete asset, or one whose name attachments without a record have and none with one, is never uploaded; without failing calls it warns exactly when blocked. |
| ReleaseMirror.ReleaseMirror.Withdraw | githarbor/services/releases.py:434-442 | Withdrawing an upload of the wrong size touches only that fresh attachment and is never a clean end. |
| ReleaseMirror.ReleaseMirror.MirrorAsset | githarbor/services/releases.py:362-453 | A clean result leaves the asset held and recorded; an asset already in step causes no call; whatever fails, only this release's own attachments are renamed, uploaded or withdrawn; without failing calls clean exactly when the recorded attachment has the right size or the asset can be uploaded. |
| ReleaseMirror.ReleaseMirror.MirrorAssets | githarbor/services/releases.py:297-360 | A clean pass leaves every asset held and recorded as declared and nothing else recorded; it leaves all of them in step if and only if no two wanted assets shared an attachment; without failing calls it is clean when stale attachments are untouched and no asset is obstructed. |
| ReleaseMirror.ReleaseMirror.PlaceRelease | githarbor/services/releases.py:196-219 | Creates only for a free tag without a mirror, updates only the source's own release, and ends with it in place under its marker, showing the source's tag, name, target, flags and notes; without failing calls it warns exactly when the tag is taken and stops exactly when the body cannot fit. |
| ReleaseMirror.ReleaseMirror.UpdatePlaced | githarbor/services/releases.py:209-219 | Updates the source's own release unless it already matches; it then shows the source's tag, name, target, flags and notes; attachments are untouched; without failing calls it stops exactly when the body cannot fit. |
| ReleaseMirror.ReleaseMirror.FinishRelease | githarbor/services/releases.py:247-259 | Stores the final records unless the release carries them already, still showing the source's tag, name, target, flags and notes; then the release is secured if its assets are held, settled if they are in step, and not settled if two of them share an attachment; without failing calls it stops exactly when the final marker cannot fit. |
| ReleaseMirror.ReleaseMirror.FillRelease | githarbor/services/releases.py:237-259 | A clean asset pass and final store leave the release secured, and settled if and only if no two wanted assets shared an attachment; an unobstructed one whose records fit is clean without failing calls. |
| ReleaseMirror.ReleaseMirror.MirrorRelease | githarbor/services/releases.py:196-259 | One whole turn: what it may touch, when the latest release becomes ready, exactly when the source ends settled, that a settled source causes no changing call, and that without failing calls only an obstacle found at the start can keep the turn from ending cleanly. |
| ReleaseMirror.ReleaseMirror.ReadListing | githarbor/services/releases.py:189-194 | The entries read are the last listed release with each source's marker, and the tags are exactly the listed ones. |
| ReleaseMirror.ReleaseMirror.MirrorAll | githarbor/services/releases.py:196-261 | The turns in order: what every turn keeps adds up over the run, and settled sources cause no changing call. |
| ReleaseMirror.ReleaseMirror.Mirror | githarbor/services/releases.py:152-261 | Over a whole run, from what the client is sent, with any failures: every call respects ownership, and attachments of other releases are deleted only while the latest one is secured; a contradicted latest release changes nothing. After a clean run the mirror of each release that was sent has its tag, its name or else the tag, its draft flag, its target and prerelease flag where the provider has them, and its notes before the marker; where attachments were not shared, also an attachment for each wanted asset. A clean run settles exactly the sources without shared attachments, and on settled sources a run makes no changing call. Without failing calls a run is clean whenever nothing on the server stands in the way of a source and its records fit. |
| ReleaseShared.SharedMarkerRun | githarbor/services/releases.py:374-401 | A concrete run over a marker that gives two assets one attachment: without failing calls it is clean, and the release is still not settled. |
| GitRefs.TargetInjective | githarbor/services/git.py:26-36 | Two moved references never get one name. |
| GitRefs.TargetSpelled | githarbor/services/git.py:26-36 | `refs/pull/x` is published as `refs/githarbor/github-pull/x` or, with pull references disabled, not at all; `refs/for/x` as `refs/githarbor/gerrit-for/x`. |
| GitRefs.RemapSpelled | githarbor/services/git.py:656-680 | The published form, name by name: a name holds an object if and only if the source has it outside the reserved prefixes, or has the reference of the same suffix under the old prefix. |
| GitRefs.ConflictSpelled | githarbor/services/git.py:669-676 | References conflict if and only if some suffix is there under an old and its new prefix with different objects. |
| GitRefs.RemapUnique | githarbor/services/git.py:636-687 | What is published is determined by the source's references alone. |
| GitRefs.RemapSettles | githarbor/services/git.py:636-687 | No published reference is reserved, and publishing the published form changes nothing. |
| GitRefs.RemapExistsIff | githarbor/services/git.py:669-680 | A source has a published form if and only if no preserved reference conflicts. |
| GitRefs.AppliedAt | githarbor/services/git.py:650-687 | An acceptable transaction sets created references, removes deleted ones and leaves all others. |
| GitRefs.CoversRemap | githarbor/services/git.py:650-687 | A script that covers every reference that has to move yields exactly the published form. |
| GitRefs.FetchedRemap | githarbor/services/git.py:285-330 | What earlier runs left in the local mirror makes no difference to what is published. |
| GitMirror.DropPulls | githarbor/services/git.py:656-660 | With pull references disabled, emits one deletion at the current object for each of them and nothing else. |
| GitMirror.MoveFamily | githarbor/services/git.py:665-680 | For every suffix under the old prefix emits a deletion, and a creation under the new prefix with the same suffix unless it is there with the same object; reports a conflict only where it is there with another. |
| GitMirror.ReadRefs | githarbor/services/git.py:643-653 | The dictionary read from the listing holds exactly the special references. |
| GitMirror.PrepareReservedRefs | githarbor/services/git.py:636-687 | The script mentions each reference at most once, creates absent ones and deletes current ones; success leaves exactly the published form, name by name, anything else leaves the references alone, and a published form needs no script; without failing commands it succeeds exactly when no preserved name is taken by another object. |
| GitMirror.Mirror.Push | githarbor/services/git.py:803-822 | Success makes the destination's references the local mirror's; a failed push leaves each at an old or a new value. |
| GitMirror.Mirror.FetchSource | githarbor/services/git.py:139-172 | However the cached mirror is refreshed or rebuilt, success makes it agree with the source on every published reference. |
| GitMirror.Mirror.TransferLfs | githarbor/services/git.py:180-200 | Never removes an object; success means the destination has every object the local references need. |
| GitMirror.Mirror.MirrorRepository | githarbor/services/git.py:138-231 | Success makes the destination hold, whatever cache or destination held: the source's `refs/for/x` as `refs/githarbor/gerrit-for/x`, `refs/pull/x` as `refs/githarbor/github-pull/x` or not at all, every other reference under its own name, and nothing else; with LFS, references never precede their objects, however a run ends; without failing commands it succeeds exactly when no preserved name is taken by another object, and otherwise publishes nothing. |
| Naming.SafeComponentIff | githarbor/services/naming.py:9-14 | A safe component exists if and only if the text has a letter, digit or underscore, and it is then non-empty, bounded, safe, without double dash and without an edge dot or dash. |
| Naming.ComponentIsFixed | githarbor/services/naming.py:9-14 | Exactly the components are their own safe component. |
| Naming.SafeComponentIdempotent | githarbor/services/naming.py:9-14 | Taking the safe component twice changes nothing. |
| Naming.SafeComponentInOnePass | githarbor/services/naming.py:9-14 | Stripping, replacing runs, stripping and collapsing amount to one pass that keeps safe characters, writes one dash for a run of others and dashes, and strips dots and dashes at the ends; the component is the start of that which fits. |
| Naming.PreferredIs | githarbor/services/naming.py:17-25 | An owned repository's name is its own safe component; a starred one's is its owner's, two dashes and its own, cut to 100 characters with no dot or dash at the end. |
| Naming.SuffixedIs | githarbor/services/naming.py:28-33 | The second choice is as much of the first as fits before `--gh` and the id, with no dot or dash before them. |
| Naming.OrdinaryNames | githarbor/services/naming.py:17-33 | For names that are components already and short enough, the choices are exactly the name, the owner's with two dashes and the name, and that with `--gh` and the id. |
| Naming.PreferredDoubles | githarbor/services/naming.py:17-25 | A preferred name has at most 100 characters; an owned one has no double dash and a starred one at most one. |
| Naming.CollisionName | githarbor/services/naming.py:28-33 | With owners up to 39 characters and a short id, a suffixed name has at most 100 characters and exactly two double dashes. |
| Naming.SuffixInjective | githarbor/services/naming.py:28-33 | A suffixed name belongs to one id only. |
| ReconcileState.SuffixedIsFree | githarbor/services/reconciliation.py:34-66 | A new starred repository's suffixed name is free in every table named by the rules. |
| ReconcileState.MovedNameIsGood | githarbor/services/sync.py:366-405 | Moving a starred row between its preferred and suffixed name keeps the naming rules. |
| ReconcileState.IdsPartition | githarbor/services/reconciliation.py:23-84 | The returned ids are distinct, and rows of the kind split exactly into those they name, active or archived, and the unstarred or unavailable rest. |
| ReconcileState.FinishedIsClear | githarbor/models.py:45-49 | A finished table shows that new repositories had free destinations of their own. |
| ReconcileState.TakenIsNotClear | githarbor/services/reconciliation.py:104-117 | A destination found taken in the middle of the loop was never clear. |
| Reconciliation.ChooseName | githarbor/services/reconciliation.py:34-48 | A chosen name is free and follows the rules; it is the first choice wherever that is free; where it is not, an owned repository gets none and a starred one the suffixed form, which an ordinary one always gets. |
| Reconciliation.RetireOthers | githarbor/services/reconciliation.py:75-82 | Exactly the rows of the kind that were not listed are retired. |
| Reconciliation.Reconcile | githarbor/services/reconciliation.py:15-84 | A commit loses no row, keeps identities and destinations, leaves other kinds alone, gives each row of the kind the listing's metadata, status and starred flag, keeping archived ones archived, and gives each new row its first choice unless an earlier row holds it; a refusal changes nothing; repeating changes nothing; with clear destinations every new row gets the one it wanted; owned listings commit if and only if their destinations are clear, starred ones if and only if their names exist. |
| Reconciliation.ReconcileExternal | githarbor/services/reconciliation.py:86-151 | The same for external sources, whose new rows get exactly the destinations assigned to them; it commits if and only if none of these is taken or shared. |
| Ownership.MarkerPhrase | githarbor/clients/gitea.py:134-139 | A marker holds its opening phrase once, at its start. |
| Ownership.MarkerPrefixFree | githarbor/clients/gitea.py:134-139 | No identity's marker is the beginning of another's. |
| Ownership.DescriptionOwned | githarbor/clients/gitea.py:142-163 | A description made from marker-free source text carries its identity's marker and no other phrase. |
| Ownership.DescriptionFits | githarbor/clients/gitea.py:142-163 | It stays within 2,048 characters if the provenance does, with two characters to spare unless the source text is blank. |
| Ownership.DescriptionDescribes | githarbor/clients/gitea.py:142-163 | The description is as much of the stripped source text as fits, an empty line and the provenance, or the provenance alone. |
| Ownership.ProvenanceSpelled | githarbor/clients/gitea.py:134-156 | The provenance word by word for owned and starred repositories from GitHub and external ones from GitLab and Forgejo. |
| Ownership.OneCarrier | githarbor/clients/gitea.py:543-550 | A description with one marker phrase carries one identity at most. |
| GiteaOwnership.EnsureRepository | githarbor/clients/gitea.py:427-477 | Whatever fails, only what carries the caller's marker is changed and everything new carries it; a refused request changes nothing; an answered one names the right path and leaves all repositories but the caller's as they were, the caller's described there exactly, moved there from its second name, or new; without failing calls it is answered exactly when not refused. |
| GiteaOwnership.EnsureExisting | githarbor/clients/gitea.py:448-462 | With the wanted name in use: the caller's own repository is described anew, another's is left alone and the second name decides. |
| GiteaOwnership.EnsureAbsent | githarbor/clients/gitea.py:464-477 | With the wanted name free: the caller's repository under the second name is moved there, another's refuses the request, else a new one is made. |
| GiteaOwnership.EnsureAtName | githarbor/clients/gitea.py:479-492 | Uses or creates a repository at one path, never changing one that carries another marker. |
| GiteaOwnership.UpdateDescription | githarbor/clients/gitea.py:494-508 | Changes only a repository that carries the caller's marker and leaves it carrying it. |
| GiteaOwnership.CreateRepository | githarbor/clients/gitea.py:510-535 | What is created carries the caller's marker; nothing else changes. |
| GiteaOwnership.OwnedUntilOwnStep | githarbor/clients/gitea.py:427-550 | Through any sequence of requests, and whatever else is on the server, what an identity alone owns stays as it is until its own next request. |
| GiteaOwnership.NeverTakenOver | githarbor/clients/gitea.py:427-550 | Once a request has been answered with a path, no other identity's request is answered with it before the first one asks again. |
| GiteaOwnership.PathChangesHands | githarbor/clients/gitea.py:427-550 | A path one identity alone owns carries another's marker later only after a request of the first. |
| GiteaOwnership.UnmarkedStays | githarbor/clients/gitea.py:543-550 | A repository without a marker keeps its name and description through any sequence of requests. |
| SyncSafety.StepKeepsSound | githarbor/services/sync.py:63-601 | Every action of every task, stop, cancellation and restart keeps the invariant and, with it, that every task is in its slot and a lock is held exactly while a sync is past it. |
| SyncSafety.OneSyncPerRepository | githarbor/services/sync.py:301-304 | Over every schedule at most one sync per repository is past its lock. |
| SyncSafety.ActiveIsOwned | githarbor/services/sync.py:97-151 | Every syncing row and running run has a live owner, or one cancelled since the last stop or restart. |
| SyncSafety.StoppedIsInactive | githarbor/services/sync.py:113-151 | Right after the transaction of a stop or a recovery nothing is syncing or running. |
| SyncSafety.CompletedAddsUp | githarbor/services/sync.py:239-295 | A completed global run's successes and failures add up to the repositories it discovered. |
| SyncChildren.ChildrenBounded | githarbor/services/sync.py:224-248 | No global run has more children past the semaphore than permits, and all children together exceed them by no more than those of an ended run that are still winding down. |
| SyncChildren.PermitsHoldIff | githarbor/services/sync.py:224-248 | A global run that begins keeps all children together within `sync_concurrency`, however it goes on, if and only if no child of an earlier run is still winding down when it begins. |
| SyncChildren.CancelledChildMayOverlap | githarbor/services/sync.py:239-244 | With one permit, a cancelled child that is still ending and a child of the next run can overlap. |
| SyncService.Synchronizer.StartGlobalSync | githarbor/services/sync.py:71-75 | In every valid state it starts exactly when there is no task of any kind, and the new one is then the only task. |
| SyncService.Synchronizer.StartRepositorySync | githarbor/services/sync.py:77-84 | In every valid state it starts exactly when the repository has no unfinished task of its own; afterwards it has one. |
| SyncService.Synchronizer.BeginGlobal | githarbor/services/sync.py:153-158 | In every valid state no other task can hold the global lock: the run begins exactly when it was not cancelled, and is then the only one. |
| SyncService.Synchronizer.Enter | githarbor/services/sync.py:301-324 | Enters exactly when the repository has a row and no sync past its lock, and is then the only sync past it. |
| SyncService.Synchronizer.BeginRepository | githarbor/services/sync.py:295-322 | Goes on exactly when not cancelled, with a row and no other sync; then its sync is the only one past the repository's lock. |
| SyncService.Synchronizer.Finish | githarbor/services/sync.py:549-601 | A sync that ends by itself frees its repository and disturbs no other sync; its row is not syncing and its run has ended. |
| SyncService.Synchronizer.Abort | githarbor/services/sync.py:295-304 | A cancelled sync frees its repository and disturbs no other sync; row and run stay as they are, recorded as left behind. |
| SyncService.Synchronizer.BeginChild | githarbor/services/sync.py:227-237 | A child that is refused at once gives its permit back and counts as a failure, and the run's children stay within the permits. |
| SyncService.Synchronizer.FinishGlobal | githarbor/services/sync.py:239-295 | The recorded counts are those of the children's results and add up to the discovered total, and no global run is left. |
| SyncService.Synchronizer.RequestStop | githarbor/services/sync.py:97-108 | The tasks in the slots are all there are; after cancelling them every task and every sync past a lock is cancelled, orphaned ones included. |
| SyncService.Synchronizer.CompleteStop | githarbor/services/sync.py:97-129 | Right after it nothing is syncing or running, from every valid state. |
| SyncService.Synchronizer.RecoverInterruptedRuns | githarbor/services/sync.py:131-151 | The same after a restart, with no task, sync or lock left. |

## Left out

- HTTP clients, pagination, retries, Skopeo and Git subprocesses, credentials, askpass, logging and redaction: each call is one abstract server step.
- Routes, templates, settings, migrations, scheduler timing, timestamps and the wording of warnings.
- Interference by others between a check and the write that follows it: every run is modelled as the only writer.
- Case folding outside ASCII; Gitea tags that differ only by case; versions named `_upload` or by digest; undecodable journal text.
- The loop over packages around `_mirror_package` and its package-name check: packages do not share rows or tags.
- A stored row's source and destination digest are one field, since the code writes the same value to both.
- A failed copy that pushed a manifest without moving its tag is not distinguished from one that stored nothing.
- ContainerMirror.PackageMirror.EstimateSize: an image with unsound manifests, or with a digest used in two ways, counts as a failing call.
- SizeEstimator.EstimateSize: digest references only; a tag reference has no expected digest and starts the same walk.
- Json.RoundTrip: values the printer produces; lone surrogates, infinities and recursion limits are rejected input here.
- ReleaseMarker.DecodedIsKeyed: fractional numbers and numeric strings, which `int()` would coerce, and non-string names count as malformed; a digest that is not a string reads as none, where the source takes its text.
- ReleaseMirror.ReleaseMirror.Mirror: release ids and asset ids within a release are distinct, as GitHub gives them; an echoing Gitea stores what it is sent and shows a nameless release under its tag.
- ReleaseMirror.ReleaseMirror.Mirror: what a clean run settles is stated for markers that record no attachment id Gitea has not given out; every run keeps this, and markers this service wrote have it.
- ReleaseMirror.ReleaseMirror.Mirror: that a run over shared attachments does not settle is stated where the assets of a release differ in name, as GitHub's do.
- ReleaseSource.ReadIsPlain: ids and asset states the clients compute by hashing or from addresses are taken as given.
- ReleaseMirror.ReleaseMirror.UploadAsset: a name shared by a recorded and an unrecorded attachment counts as free once the recorded one is removed, so nothing is promised about uploads under it.
- ReleaseMirror.ReleaseMirror.Mirror: the notice that a note was truncated does not make a run unclean.
- Downloads of release assets appear only as a step that may fail; content types and temporary files do not appear.
- The wiki push, cache expiry, and the rename that swaps a rebuilt cache entry in; a rebuilt local mirror simply replaces the old one.
- Name hierarchy conflicts between references make a transaction fail with nothing applied, like any other failure of the command.
- GitMirror.Mirror.MirrorRepository: a source that changes during the run; two runs may see different sources.
- Rows of GitHub repositories are identified by their GitHub id alone; provider and source id follow from it, and the rest of the metadata is one opaque text.
- Redirects Gitea serves for renamed repositories, and its check that the namespace is an organization or the user's own.
- Ownership.DescriptionOwned: source text that itself contains the marker phrase is outside the guarantee.
- Database statements in the synchronization service do not fail; a failing one would end a global run while its children go on.
- What a sync does between its lock and its result is one step that ends in success, failure or cancellation.
- A cancelled global run may end at any time in the model, not only once a child has ended; this allows more schedules, never fewer.
