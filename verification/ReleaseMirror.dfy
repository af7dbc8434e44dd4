/** Release mirroring of githarbor/services/releases.py: a Gitea server whose calls may fail,
    and the service that reconciles releases and attachments with it. */
module ReleaseMirror {
  import opened Wrappers
  import opened ReleaseMarker
  import opened ReleaseSource
  import opened ReleaseState
  import opened ReleaseSteps
  import opened ReleaseRuns
  import opened ReleaseCopies

  /** Changing calls are logged when sent; one that does not answer may still take effect.
      `faults` counts calls that did not do exactly what was asked. */
  class Gitea {
    const settings: Settings
    var order: seq<int>
    var releases: map<int, Release>
    var attachments: map<int, map<int, Attachment>>
    var nextId: nat
    ghost var log: seq<Call>
    ghost var faults: nat

    constructor (settings: Settings, sv: Server)
      ensures this.settings == settings && View() == sv && log == [] && faults == 0
    {
      this.settings := settings;
      order, releases, attachments, nextId := sv.order, sv.releases, sv.attachments, sv.nextId;
      log, faults := [], 0;
    }

    ghost function View(): Server
      reads this`order, this`releases, this`attachments, this`nextId
    {
      Server(order, releases, attachments, nextId)
    }

    method ListReleases() returns (r: Reply<seq<Listed>>)
      requires ValidServer(View())
      modifies this`faults
      ensures r.Answer? ==> Lists(r.value, View())
      ensures faults == old(faults) + if r.Answer? then 0 else 1
    {
      var fate: Reply<()> := *;
      var embeds: bool := *;
      if fate.Answer? {
        var ids, rs, at := order, releases, attachments;
        assert forall i | 0 <= i < |ids| :: ids[i] in rs && ids[i] in at;
        r := Answer(seq(|ids|, i requires 0 <= i < |ids| && ids[i] in rs && ids[i] in at =>
                                 Listed(ids[i], rs[ids[i]], if embeds then Some(at[ids[i]]) else None)));
      } else {
        faults := faults + 1;
        r := if fate.Error? then Error else Crash;
      }
    }

    method AttachmentSettings() returns (r: Reply<Settings>)
      modifies this`faults
      ensures r.Answer? ==> r.value == settings
      ensures faults == old(faults) + if r.Answer? then 0 else 1
    {
      var fate: Reply<()> := *;
      faults := faults + if fate.Answer? then 0 else 1;
      r := if fate.Answer? then Answer(settings) else if fate.Error? then Error else Crash;
    }

    /** Downloading an asset from the source. */
    method Download() returns (r: Reply<()>)
      modifies this`faults
      ensures faults == old(faults) + if r.Answer? then 0 else 1
    {
      r := *;
      faults := faults + if r.Answer? then 0 else 1;
    }

    method ListAttachments(release: int) returns (r: Reply<map<int, Attachment>>)
      requires release in attachments
      modifies this`faults
      ensures r.Answer? ==> r.value == attachments[release]
      ensures faults == old(faults) + if r.Answer? then 0 else 1
    {
      var fate: Reply<()> := *;
      faults := faults + if fate.Answer? then 0 else 1;
      r := if fate.Answer? then Answer(attachments[release]) else if fate.Error? then Error else Crash;
    }

    method CreateRelease(ghost source: int, p: Release) returns (r: Reply<Listed>)
      modifies this
      ensures log == old(log) + [Create(source, old(View()), p.tag)]
      ensures View() == old(View()) || View() == Created(old(View()), p)
      ensures r.Answer? ==> View() == Created(old(View()), p) && r.value.id == old(nextId) && r.value.release == Stored(p)
      ensures r.Answer? && r.value.assets.Some? ==> r.value.assets.value == map[]
      ensures faults == old(faults) + if r.Answer? then 0 else 1
    {
      log := log + [Create(source, View(), p.tag)];
      var fate: Reply<()> := *;
      faults := faults + if fate.Answer? then 0 else 1;
      var took, embeds: bool := *, *;
      if fate.Answer? || took {
        var id := nextId;
        order, nextId := [id] + order, id + 1;
        releases, attachments := releases[id := Stored(p)], attachments[id := map[]];
        if fate.Answer? {
          return Answer(Listed(id, Stored(p), if embeds then Some(map[]) else None));
        }
      }
      r := if fate.Error? then Error else Crash;
    }

    method UpdateRelease(ghost source: int, id: int, p: Release) returns (r: Reply<Listed>)
      requires id in attachments
      modifies this`releases, this`log, this`faults
      ensures faults == old(faults) + if r.Answer? then 0 else 1
      ensures log == old(log) + [Update(source, old(View()), id)]
      ensures View() == old(View()) || View() == Updated(old(View()), id, p)
      ensures r.Answer? ==> View() == Updated(old(View()), id, p) && r.value.id == id && r.value.release == Stored(p)
      ensures r.Answer? && r.value.assets.Some? ==> r.value.assets.value == attachments[id]
    {
      log := log + [Update(source, View(), id)];
      var fate: Reply<()> := *;
      faults := faults + if fate.Answer? then 0 else 1;
      var took, embeds: bool := *, *;
      if fate.Answer? || took {
        releases := releases[id := Stored(p)];
        if fate.Answer? {
          return Answer(Listed(id, Stored(p), if embeds then Some(attachments[id]) else None));
        }
      }
      r := if fate.Error? then Error else Crash;
    }

    method RenameAttachment(ghost source: int, release: int, id: int, name: string) returns (r: Reply<()>)
      requires release in attachments
      modifies this`attachments, this`log, this`faults
      ensures faults >= old(faults)
      ensures faults == old(faults) ==> (r.Answer? <==> id in old(attachments)[release]) && !r.Crash?
      ensures log == old(log) + [Rename(source, old(View()), release, id)]
      ensures View() == old(View()) || (id in old(attachments)[release] && View() == Renamed(old(View()), release, id, name))
      ensures r.Answer? ==> id in old(attachments)[release] && View() == Renamed(old(View()), release, id, name)
    {
      log := log + [Rename(source, View(), release, id)];
      r := *;
      faults := faults + if r.Answer? then 0 else 1;
      var took: bool := *;
      if id !in attachments[release] {
        if r.Answer? {
          r := Error;
        }
      } else if r.Answer? || took {
        attachments := attachments[release := attachments[release][id := attachments[release][id].(name := name)]];
      }
    }

    /** Uploads a downloaded file. Gitea gives it a fresh id and answers with the size it stored. */
    method UploadAttachment(ghost source: int, release: int, name: string, ghost asset: SourceAsset)
      returns (r: Reply<(int, Attachment)>, ghost stored: Attachment)
      requires release in attachments
      modifies this`attachments, this`nextId, this`log, this`faults
      ensures faults == old(faults) + if r.Answer? && stored.size == asset.size then 0 else 1
      ensures log == old(log) + [Upload(source, old(View()), release, asset)] && stored.name == name
      ensures View() == old(View()) || View() == Attached(old(View()), release, stored)
      ensures r.Answer? ==> r.value == (old(nextId), stored) && View() == Attached(old(View()), release, stored)
    {
      log := log + [Upload(source, View(), release, asset)];
      var fate: Reply<()> := *;
      var took: bool := *;
      var size: nat := *;
      var a := Attachment(name, size);
      stored := a;
      faults := faults + if fate.Answer? && size == asset.size then 0 else 1;
      r := if fate.Error? then Error else Crash;
      if fate.Answer? || took {
        var id := nextId;
        attachments := attachments[release := attachments[release][id := a]];
        nextId := id + 1;
        if fate.Answer? {
          r := Answer((id, a));
        }
      }
    }

    method DeleteAttachment(ghost source: int, release: int, id: int) returns (r: Reply<()>)
      requires release in attachments
      modifies this`attachments, this`log, this`faults
      ensures faults == old(faults) + if r.Answer? then 0 else 1
      ensures log == old(log) + [Delete(source, old(View()), release, id)]
      ensures View() == old(View()) || View() == Detached(old(View()), release, id)
      ensures r.Answer? ==> View() == Detached(old(View()), release, id)
    {
      log := log + [Delete(source, View(), release, id)];
      r := *;
      faults := faults + if r.Answer? then 0 else 1;
      var took: bool := *;
      if r.Answer? || took {
        attachments := attachments[release := attachments[release] - {id}];
      }
    }
  }

  lemma ViewIs(g: Gitea)
    ensures g.View() == Server(g.order, g.releases, g.attachments, g.nextId)
  {
  }

  class ReleaseMirror {
    const gitea: Gitea

    constructor (gitea: Gitea)
      ensures this.gitea == gitea
    {
      this.gitea := gitea;
    }

    /** Deletes one stale attachment if the record still matches it exactly. `keep` tells
        whether the record stays, `gone` whether the attachment was removed. */
    method RemoveStaleAsset(s: Source, release: int, record: MirroredAsset, byId: map<int, Attachment>,
                            ghost start: Server, ghost latest: Option<Source>, ghost previous: map<int, MirroredAsset>,
                            ghost k: int, ghost l: int)
      returns (r: Outcome, keep: bool, gone: bool)
      requires release in gitea.attachments && FromStart(start, release, previous) && k in previous && previous[k] == record
      requires Covers(byId, gitea.attachments[release]) && MayDelete(gitea.View(), latest, s.id, release, l)
      modifies gitea`attachments, gitea`log, gitea`faults
      ensures Progress(start, latest, old(gitea.View()), old(gitea.log), gitea.View(), gitea.log, release)
      ensures gitea.nextId == old(gitea.nextId)
      ensures Removal(r, keep, gone, record.giteaId, byId, old(gitea.attachments)[release], gitea.attachments[release])
      ensures gitea.faults >= old(gitea.faults)
      ensures gitea.faults == old(gitea.faults) ==> r == if AbsentOrExact(record, byId) then Clean else Warned
    {
      ProgressStarts(start, latest, gitea.View(), gitea.log, release);
      hide Safe, MarkerOf, MayDelete, FromStart, Progress;
      if record.giteaId !in byId {
        return Clean, false, false;
      }
      var attachment := byId[record.giteaId];
      if attachment.name != record.name || attachment.size != record.size {
        return Warned, false, false;
      }
      ghost var before, log := gitea.View(), gitea.log;
      SafeDelete(start, latest, s, before, release, previous, k, byId, l);
      var deleted := gitea.DeleteAttachment(s.id, release, record.giteaId);
      OneCall(start, latest, before, log, gitea.View(), Delete(s.id, before, release, record.giteaId), release);
      if deleted.Answer? {
        return Clean, false, true;
      }
      r, keep, gone := if deleted.Error? then Warned else Interrupted, true, false;
    }

    /** One turn of the loop below, for a record whose asset is gone. */
    method RemoveStaleNext(so: Outcome, s: Source, assets: seq<SourceAsset>, release: int, mirrored: map<int, MirroredAsset>,
                           byId: map<int, Attachment>, names: set<string>, k: int, ghost todo: set<int>,
                           ghost start: Server, ghost latest: Option<Source>, ghost previous: map<int, MirroredAsset>, ghost l: int,
                           ghost sv: Server, ghost log: seq<Call>, ghost listed: map<int, Attachment>)
      returns (r: Outcome, mirrored': map<int, MirroredAsset>, byId': map<int, Attachment>, names': set<string>)
      requires Thinned(listed, byId, previous, assets) && AsAtStart(start, release, listed) && Reserves(names, start, release)
      requires so != Interrupted && release in gitea.attachments && FromStart(start, release, previous) && k in todo && !HasId(assets, k)
      requires StalePass(so == Clean, mirrored, previous, byId, gitea.attachments[release], assets, todo)
      requires Progress(start, latest, sv, log, gitea.View(), gitea.log, release) && MayDelete(sv, latest, s.id, release, l)
      modifies gitea`attachments, gitea`log, gitea`faults
      ensures release in gitea.attachments && gitea.nextId == old(gitea.nextId)
      ensures Progress(start, latest, sv, log, gitea.View(), gitea.log, release)
      ensures SubMap(mirrored', previous)
      ensures r != Interrupted ==> StalePass(r == Clean, mirrored', previous, byId', gitea.attachments[release], assets, todo - {k})
      ensures Thinned(listed, byId', previous, assets) && names' <= names && gitea.faults >= old(gitea.faults)
      ensures Reserves(names', start, release)
      ensures gitea.faults == old(gitea.faults) ==> r != Interrupted && (so == Clean && StaleExact(previous, assets, listed) ==> r == Clean)
    {
      ghost var before, logged := gitea.View(), gitea.log;
      MayDeleteKept(sv, before, latest, s.id, release, l);
      hide MarkerOf, MayDelete, AllSafe, FromStart, HasId, OnlyAttachments, Thinned, StaleExact, Reserves, AsAtStart;
      var one, keep, gone := RemoveStaleAsset(s, release, mirrored[k], byId, start, latest, previous, k, l);
      ThinnedNext(listed, byId, previous, assets, k, gone);
      ProgressTransitive(start, latest, sv, log, before, logged, gitea.View(), gitea.log, release);
      StaleDrop(so == Clean, mirrored, previous, byId, before.attachments[release], assets, todo, k, one, keep, gone,
                gitea.attachments[release]);
      r := if one == Clean then so else one;
      mirrored' := if keep then mirrored else mirrored - {k};
      byId' := if gone then byId - {mirrored[k].giteaId} else byId;
      if gone {
        ThinnedParts(listed, byId, previous, assets);
        ReservesNext(names, start, release, previous, k, byId[mirrored[k].giteaId].name, listed, byId);
      }
      names' := if gone then names - {byId[mirrored[k].giteaId].name} else names;
    }

    /** Removes the attachments of assets the source no longer has. */
    method RemoveStale(s: Source, assets: seq<SourceAsset>, release: int, previous: map<int, MirroredAsset>,
                       listed: map<int, Attachment>, ghost start: Server, ghost latest: Option<Source>, ghost l: int)
      returns (r: Outcome, mirrored: map<int, MirroredAsset>, byId: map<int, Attachment>, names: set<string>)
      requires release in gitea.attachments && listed == gitea.attachments[release] && FromStart(start, release, previous)
      requires AsAtStart(start, release, listed)
      requires MayDelete(gitea.View(), latest, s.id, release, l)
      modifies gitea`attachments, gitea`log, gitea`faults
      ensures Progress(start, latest, old(gitea.View()), old(gitea.log), gitea.View(), gitea.log, release)
      ensures gitea.nextId == old(gitea.nextId)
      ensures release in gitea.attachments && SubMap(mirrored, previous)
      ensures r == Clean ==> StalePass(true, mirrored, previous, byId, gitea.attachments[release], assets, {})
      ensures (forall k | k in previous :: HasId(assets, k)) ==>
                r == Clean && mirrored == previous && byId == listed && gitea.View() == old(gitea.View()) && gitea.log == old(gitea.log)
      ensures Thinned(listed, byId, previous, assets) && names <= NamesOf(listed) && gitea.faults >= old(gitea.faults)
      ensures Reserves(names, start, release)
      ensures gitea.faults == old(gitea.faults) ==> r != Interrupted && (StaleExact(previous, assets, listed) ==> r == Clean)
    {
      hide *;
      ViewIs(gitea);
      r, mirrored, byId := Clean, previous, listed;
      names := NamesOf(listed);
      var todo := previous.Keys;
      ThinnedStarts(listed, previous, assets);
      ReservesStarts(start, release, listed);
      ghost var sv, log := gitea.View(), gitea.log;
      ghost var idle := forall k | k in previous :: HasId(assets, k);
      StalePassStarts(previous, listed, assets);
      ProgressStarts(start, latest, sv, log, release);
      while todo != {}
        invariant r == Clean || r == Warned
        invariant gitea.nextId == sv.nextId && release in gitea.attachments && todo <= previous.Keys && SubMap(mirrored, previous)
        invariant Progress(start, latest, sv, log, gitea.View(), gitea.log, release)
        invariant StalePass(r == Clean, mirrored, previous, byId, gitea.attachments[release], assets, todo)
        invariant idle ==> r == Clean && mirrored == previous && byId == listed && gitea.View() == sv && gitea.log == log
        invariant Thinned(listed, byId, previous, assets) && names <= NamesOf(listed) && gitea.faults >= old(gitea.faults)
        invariant Reserves(names, start, release)
        invariant gitea.faults == old(gitea.faults) && StaleExact(previous, assets, listed) ==> r == Clean
      {
        var k := PickAny(todo);
        if HasId(assets, k) {
          StaleSkip(r == Clean, mirrored, previous, byId, gitea.attachments[release], assets, todo, k);
        } else {
          assert !idle;
          r, mirrored, byId, names := RemoveStaleNext(r, s, assets, release, mirrored, byId, names, k, todo,
                                                      start, latest, previous, l, sv, log, listed);
          if r == Interrupted {
            return;
          }
        }
        todo := todo - {k};
      }
    }

    /** Keeps an asset's recorded attachment, giving it the asset's present name. */
    method KeepAsset(s: Source, asset: SourceAsset, release: int, mirrored: map<int, MirroredAsset>, byId: map<int, Attachment>,
                     ghost start: Server, ghost latest: Option<Source>)
      returns (r: Outcome, mirrored': map<int, MirroredAsset>)
      requires release in gitea.attachments && Owned(start, release, mirrored)
      requires asset.id in mirrored && mirrored[asset.id].giteaId in byId
      modifies gitea`attachments, gitea`log, gitea`faults
      ensures Progress(start, latest, old(gitea.View()), old(gitea.log), gitea.View(), gitea.log, release)
      ensures release in gitea.attachments && gitea.nextId == old(gitea.nextId)
      ensures Records(start, release, mirrored, gitea.nextId, mirrored', gitea.nextId)
      ensures r == Clean ==> Stepped(asset, mirrored, byId, old(gitea.attachments)[release], mirrored', byId, gitea.attachments[release], gitea.nextId)
      ensures byId[mirrored[asset.id].giteaId] == Attachment(asset.name, asset.size) ==>
                r == Clean && gitea.View() == old(gitea.View()) && gitea.log == old(gitea.log)
                && mirrored' == mirrored[asset.id := MirroredAsset(asset.id, mirrored[asset.id].giteaId, asset.name, asset.size, asset.digest)]
      ensures gitea.faults >= old(gitea.faults)
      ensures gitea.faults == old(gitea.faults) ==> r != Interrupted
      ensures gitea.faults == old(gitea.faults) && mirrored[asset.id].giteaId in old(gitea.attachments)[release] ==>
                (r == Clean <==> byId[mirrored[asset.id].giteaId].size == asset.size)
    {
      var g := mirrored[asset.id].giteaId;
      ghost var before, log := gitea.View(), gitea.log;
      ProgressStarts(start, latest, before, log, release);
      mirrored' := mirrored;
      if byId[g].size != asset.size {
        return Warned, mirrored;
      }
      hide Progress, Safe, Recorded, Tracks, Ready, HeldStep, FullStep, Apart;
      if byId[g].name != asset.name {
        var renamed := gitea.RenameAttachment(s.id, release, g, asset.name);
        SafeRename(start, latest, s, before, release, mirrored, asset.id);
        RenamedIsProgress(start, latest, before, log, gitea.View(), Rename(s.id, before, release, g), release, g, asset.name);
        if !renamed.Answer? {
          return if renamed.Error? then Warned else Interrupted, mirrored;
        }
      }
      KeepStep(asset, mirrored, byId, before.attachments[release], gitea.attachments[release], g);
      var record := MirroredAsset(asset.id, g, asset.name, asset.size, asset.digest);
      RecordKeeps(start, release, mirrored, record, gitea.nextId);
      r, mirrored' := Clean, mirrored[asset.id := record];
    }

    /** Deletes an upload of the wrong size again; failing to is not reported. */
    method Withdraw(s: Source, release: int, id: int, ghost start: Server, ghost latest: Option<Source>, ghost l: int,
                    ghost sv: Server, ghost log: seq<Call>)
      returns (r: Outcome)
      requires release in gitea.attachments && start.nextId <= id && MayDelete(sv, latest, s.id, release, l)
      requires Progress(start, latest, sv, log, gitea.View(), gitea.log, release)
      modifies gitea`attachments, gitea`log, gitea`faults
      ensures r != Clean && release in gitea.attachments && gitea.nextId == old(gitea.nextId) && gitea.faults >= old(gitea.faults)
      ensures Progress(start, latest, sv, log, gitea.View(), gitea.log, release)
    {
      ghost var before, logged := gitea.View(), gitea.log;
      MayDeleteKept(sv, before, latest, s.id, release, l);
      SafeWithdrawal(start, latest, s, before, release, id, l);
      hide Progress, Safe, MayDelete;
      var deleted := gitea.DeleteAttachment(s.id, release, id);
      DetachedIsProgress(start, latest, before, logged, gitea.View(), Delete(s.id, before, release, id), release, id);
      ProgressTransitive(start, latest, sv, log, before, logged, gitea.View(), gitea.log, release);
      r := if deleted.Crash? then Interrupted else Warned;
    }

    /** Downloads an asset and uploads it as a new attachment, withdrawing it if Gitea stored
        another size. `base` are the records without the asset's own. */
    method UploadAsset(s: Source, asset: SourceAsset, release: int, settings: Settings, base: map<int, MirroredAsset>,
                       byId: map<int, Attachment>, names: set<string>, ghost mirrored: map<int, MirroredAsset>,
                       ghost start: Server, ghost latest: Option<Source>, ghost l: int)
      returns (r: Outcome, mirrored': map<int, MirroredAsset>, byId': map<int, Attachment>, names': set<string>)
      requires release in gitea.attachments && start.nextId <= gitea.nextId && gitea.nextId !in gitea.attachments[release]
      requires base == mirrored - {asset.id} && !(asset.id in mirrored && mirrored[asset.id].giteaId in byId) && Owned(start, release, mirrored) && Mine(start, s, release)
      requires MayDelete(gitea.View(), latest, s.id, release, l) && Reserves(names, start, release)
      modifies gitea`attachments, gitea`nextId, gitea`log, gitea`faults
      ensures Progress(start, latest, old(gitea.View()), old(gitea.log), gitea.View(), gitea.log, release)
      ensures release in gitea.attachments && Records(start, release, mirrored, old(gitea.nextId), mirrored', gitea.nextId)
      ensures r == Clean ==> Stepped(asset, mirrored, byId, old(gitea.attachments)[release], mirrored', byId', gitea.attachments[release], old(gitea.nextId))
      ensures Blocked(asset, settings, names) ==> r == Warned && gitea.View() == old(gitea.View()) && gitea.log == old(gitea.log)
      ensures names <= names' <= names + {asset.name} && gitea.faults >= old(gitea.faults)
      ensures gitea.faults == old(gitea.faults) ==> r == if Blocked(asset, settings, names) then Warned else Clean
    {
      hide *;
      ViewIs(gitea);
      BlockedIs(asset, settings, names);
      ghost var before, log := gitea.View(), gitea.log;
      ProgressStarts(start, latest, before, log, release);
      DropRecords(start, release, mirrored, asset.id, gitea.nextId, gitea.nextId);
      mirrored', byId', names' := base, byId, names;
      if !asset.uploaded || !settings.enabled || (settings.maxBytes.Some? && settings.maxBytes.value < asset.size) {
        return Warned, base, byId, names;
      }
      if asset.name in names {
        return Warned, base, byId, names;
      }
      var downloaded := gitea.Download();
      ViewIs(gitea);
      if !downloaded.Answer? {
        return if downloaded.Error? then Warned else Interrupted, base, byId, names;
      }
      SafeUpload(start, latest, s, before, release, asset, names);
      var uploaded, stored := gitea.UploadAttachment(s.id, release, asset.name, asset);
      ViewIs(gitea);
      AttachedIsProgress(start, latest, before, log, gitea.View(), Upload(s.id, before, release, asset), release, stored);
      ProgressKeepsRelease(start, latest, before, log, gitea.View(), gitea.log, release);
      DropRecords(start, release, mirrored, asset.id, before.nextId, gitea.nextId);
      if !uploaded.Answer? {
        return if uploaded.Error? then Warned else Interrupted, base, byId, names;
      }
      var id, attachment := uploaded.value.0, uploaded.value.1;
      if attachment.size != asset.size {
        r := Withdraw(s, release, id, start, latest, l, before, log);
        ViewIs(gitea);
        DropRecords(start, release, mirrored, asset.id, before.nextId, gitea.nextId);
        return r, base, byId, names;
      }
      var record := MirroredAsset(asset.id, id, asset.name, asset.size, asset.digest);
      AttachedIs(before, release, attachment);
      UploadStepped(asset, mirrored, byId, before.attachments[release], id);
      FreshRecords(start, release, mirrored, record, id);
      r, mirrored', byId', names' := Clean, base[asset.id := record], byId[id := attachment], names + {attachment.name};
    }

    method MirrorAsset(s: Source, asset: SourceAsset, release: int, settings: Settings, mirrored: map<int, MirroredAsset>,
                       byId: map<int, Attachment>, names: set<string>, ghost start: Server, ghost latest: Option<Source>, ghost l: int)
      returns (r: Outcome, mirrored': map<int, MirroredAsset>, byId': map<int, Attachment>, names': set<string>)
      requires release in gitea.attachments && start.nextId <= gitea.nextId && gitea.nextId !in gitea.attachments[release]
      requires Owned(start, release, mirrored) && Mine(start, s, release) && MayDelete(gitea.View(), latest, s.id, release, l)
      requires Reserves(names, start, release)
      modifies gitea`attachments, gitea`nextId, gitea`log, gitea`faults
      ensures Progress(start, latest, old(gitea.View()), old(gitea.log), gitea.View(), gitea.log, release)
      ensures release in gitea.attachments && Records(start, release, mirrored, old(gitea.nextId), mirrored', gitea.nextId)
      ensures r == Clean ==> Stepped(asset, mirrored, byId, old(gitea.attachments)[release], mirrored', byId', gitea.attachments[release], old(gitea.nextId))
      ensures InStep(mirrored, byId, asset) ==>
                r == Clean && mirrored' == mirrored && byId' == byId && gitea.View() == old(gitea.View()) && gitea.log == old(gitea.log)
      ensures names <= names' <= names + {asset.name} && gitea.faults >= old(gitea.faults)
      ensures gitea.faults == old(gitea.faults) ==>
                r != Interrupted && (Tracks(byId, old(gitea.attachments)[release]) ==> (r == Clean <==> Acceptable(asset, mirrored, byId, names, settings)))
    {
      hide Progress, Safe, Mine, Owned, Records, Stepped, MayDelete, InStep, Blocked, Reserves;
      ghost var idle := InStep(mirrored, byId, asset);
      if idle {
        InStepUnchanged(mirrored, byId, asset);
      }
      if asset.id in mirrored && mirrored[asset.id].giteaId in byId {
        r, mirrored' := KeepAsset(s, asset, release, mirrored, byId, start, latest);
        return r, mirrored', byId, names;
      }
      r, mirrored', byId', names' :=
        UploadAsset(s, asset, release, settings, mirrored - {asset.id}, byId, names, mirrored, start, latest, l);
    }

    /** One turn of the loop below. */
    method MirrorAssetNext(so: Outcome, s: Source, assets: seq<SourceAsset>, i: nat, release: int, settings: Settings,
                           mirrored: map<int, MirroredAsset>, byId: map<int, Attachment>, names: set<string>,
                           ghost start: Server, ghost latest: Option<Source>, ghost l: int, ghost apart: bool,
                           ghost previous: map<int, MirroredAsset>, ghost sv: Server, ghost log: seq<Call>)
      returns (r: Outcome, mirrored': map<int, MirroredAsset>, byId': map<int, Attachment>, names': set<string>)
      requires so != Interrupted && i < |assets| && Mine(start, s, release) && MayDelete(sv, latest, s.id, release, l)
      requires ValidServer(sv) && release in sv.attachments && start.nextId <= sv.nextId
      requires release in gitea.attachments && Progress(start, latest, sv, log, gitea.View(), gitea.log, release)
      requires Records(start, release, previous, sv.nextId, mirrored, gitea.nextId)
      requires AssetPass(so == Clean, Issued(previous, sv.nextId), apart, mirrored, byId, gitea.attachments[release], assets, i)
      requires Reserves(names, start, release)
      modifies gitea`attachments, gitea`nextId, gitea`log, gitea`faults
      ensures release in gitea.attachments && Progress(start, latest, sv, log, gitea.View(), gitea.log, release)
      ensures Records(start, release, previous, sv.nextId, mirrored', gitea.nextId)
      ensures r != Interrupted ==>
                AssetPass(r == Clean, Issued(previous, sv.nextId), apart, mirrored', byId', gitea.attachments[release], assets, i + 1)
      ensures Reserves(names', start, release)
      ensures so == Clean && InStep(mirrored, byId, assets[i]) ==>
                r == Clean && mirrored' == mirrored && byId' == byId && gitea.View() == old(gitea.View()) && gitea.log == old(gitea.log)
      ensures gitea.faults >= old(gitea.faults)
      ensures gitea.faults == old(gitea.faults) ==>
                r != Interrupted
                && (so == Clean && Issued(previous, sv.nextId) && Distinct(assets) && Ahead(assets, i, mirrored, byId, names, settings) ==>
                      r == Clean && Ahead(assets, i + 1, mirrored', byId', names', settings))
    {
      hide *;
      ViewIs(gitea);
      ghost var before, logged := gitea.View(), gitea.log;
      ProgressIsFresh(start, latest, sv, log, before, logged, release);
      MayDeleteLater(start, latest, sv, log, before, logged, s.id, release, l);
      RecordsParts(start, release, previous, sv.nextId, mirrored, gitea.nextId);
      r, mirrored', byId', names' := MirrorAsset(s, assets[i], release, settings, mirrored, byId, names, start, latest, l);
      ReservesMore(names, names', start, release);
      ProgressTransitive(start, latest, sv, log, before, logged, gitea.View(), gitea.log, release);
      RecordsTransitive(start, release, previous, sv.nextId, mirrored, before.nextId, mirrored', gitea.nextId);
      ViewIs(gitea);
      if so == Clean && Issued(previous, sv.nextId) && Distinct(assets) && Ahead(assets, i, mirrored, byId, names, settings) {
        AheadNow(true, apart, before.attachments[release], assets, i, mirrored, byId, names, settings);
        if r == Clean {
          AheadNext(before.attachments[release], gitea.attachments[release], before.nextId, assets, i, mirrored, byId, names,
                    mirrored', byId', names', settings);
        }
      }
      if r == Clean {
        r := so;
      }
      AssetPassAdvances(so == Clean, r == Clean, Issued(previous, sv.nextId), apart, mirrored, byId, before.attachments[release],
                        mirrored', byId', gitea.attachments[release], before.nextId, assets, i);
    }

    /** Mirrors the assets in order. */
    method MirrorEach(so: Outcome, s: Source, assets: seq<SourceAsset>, release: int, settings: Settings, records: map<int, MirroredAsset>,
                      index: map<int, Attachment>, taken: set<string>, ghost start: Server, ghost latest: Option<Source>, ghost l: int,
                      ghost apart: bool, ghost previous: map<int, MirroredAsset>, ghost sv: Server, ghost log: seq<Call>)
      returns (r: Outcome, mirrored: map<int, MirroredAsset>)
      requires so != Interrupted && Mine(start, s, release) && MayDelete(sv, latest, s.id, release, l)
      requires ValidServer(sv) && release in sv.attachments && start.nextId <= sv.nextId
      requires release in gitea.attachments && Progress(start, latest, sv, log, gitea.View(), gitea.log, release)
      requires Records(start, release, previous, sv.nextId, records, gitea.nextId)
      requires AssetPass(so == Clean, Issued(previous, sv.nextId), apart, records, index, gitea.attachments[release], assets, 0)
      requires Reserves(taken, start, release)
      modifies gitea`attachments, gitea`nextId, gitea`log, gitea`faults
      ensures release in gitea.attachments && Progress(start, latest, sv, log, gitea.View(), gitea.log, release)
      ensures Records(start, release, previous, sv.nextId, mirrored, gitea.nextId)
      ensures r == Clean && DistinctIds(assets) ==>
                AllHeld(mirrored, gitea.attachments[release], assets) && AllFiled(mirrored, assets)
                && (Issued(previous, sv.nextId) && apart ==> AssetsInStep(mirrored, gitea.attachments[release], assets))
                && (Issued(previous, sv.nextId) && !apart && Distinct(assets) ==> Entangled(mirrored, assets))
      ensures so == Clean && AllInStep(records, index, assets) ==>
                gitea.View() == old(gitea.View()) && gitea.log == old(gitea.log) && r == Clean && mirrored == records
      ensures gitea.faults >= old(gitea.faults)
      ensures gitea.faults == old(gitea.faults) ==>
                r != Interrupted
                && (so == Clean && Issued(previous, sv.nextId) && Distinct(assets) && Ahead(assets, 0, records, index, taken, settings) ==> r == Clean)
    {
      hide *;
      ViewIs(gitea);
      ghost var issued := Issued(previous, sv.nextId);
      ghost var idle := so == Clean && AllInStep(records, index, assets);
      ghost var sv0, log0 := gitea.View(), gitea.log;
      ghost var open := so == Clean && issued && Distinct(assets) && Ahead(assets, 0, records, index, taken, settings);
      r, mirrored := so, records;
      var i, byId, names := 0, index, taken;
      while i < |assets|
        invariant i <= |assets| && (r == Clean || r == Warned) && release in gitea.attachments
        invariant Progress(start, latest, sv, log, gitea.View(), gitea.log, release)
        invariant Records(start, release, previous, sv.nextId, mirrored, gitea.nextId)
        invariant AssetPass(r == Clean, issued, apart, mirrored, byId, gitea.attachments[release], assets, i)
        invariant Reserves(names, start, release)
        invariant idle ==> r == Clean && mirrored == records && byId == index && gitea.View() == sv0 && gitea.log == log0
        invariant gitea.faults >= old(gitea.faults)
        invariant gitea.faults == old(gitea.faults) && open ==> r == Clean && Ahead(assets, i, mirrored, byId, names, settings)
      {
        if idle {
          AllInStepAt(records, index, assets, i);
        }
        r, mirrored, byId, names := MirrorAssetNext(r, s, assets, i, release, settings, mirrored, byId, names,
                                                    start, latest, l, apart, previous, sv, log);
        if r == Interrupted {
          return;
        }
        i := i + 1;
      }
      if r == Clean && DistinctIds(assets) {
        AssetPassEnds(issued, apart, mirrored, byId, gitea.attachments[release], assets);
      }
    }

    /** The release's attachments: as embedded in a response, or listed. */
    method AttachmentsOf(destination: Listed) returns (r: Reply<map<int, Attachment>>)
      requires destination.id in gitea.attachments
      requires destination.assets.Some? ==> destination.assets.value == gitea.attachments[destination.id]
      modifies gitea`faults
      ensures r.Answer? ==> r.value == gitea.attachments[destination.id]
      ensures gitea.faults == old(gitea.faults) + if r.Answer? then 0 else 1
    {
      if destination.assets.Some? {
        return Answer(destination.assets.value);
      }
      r := gitea.ListAttachments(destination.id);
    }

    /** Brings one release's attachments in line with `assets`, given the records `previous`. */
    method MirrorAssets(s: Source, assets: seq<SourceAsset>, destination: Listed, previous: map<int, MirroredAsset>, settings: Settings,
                        ghost start: Server, ghost latest: Option<Source>, ghost l: int)
      returns (r: Outcome, mirrored: map<int, MirroredAsset>)
      requires ValidServer(gitea.View()) && destination.id in gitea.attachments && start.nextId <= gitea.nextId
      requires destination.assets.Some? ==> destination.assets.value == gitea.attachments[destination.id]
      requires FromStart(start, destination.id, previous) && Mine(start, s, destination.id)
      requires AsAtStart(start, destination.id, gitea.attachments[destination.id])
      requires MayDelete(gitea.View(), latest, s.id, destination.id, l)
      modifies gitea`attachments, gitea`nextId, gitea`log, gitea`faults
      ensures Progress(start, latest, old(gitea.View()), old(gitea.log), gitea.View(), gitea.log, destination.id)
      ensures destination.id in gitea.attachments
      ensures Records(start, destination.id, previous, old(gitea.nextId), mirrored, gitea.nextId)
      ensures r == Clean && DistinctIds(assets) ==>
                AllHeld(mirrored, gitea.attachments[destination.id], assets) && AllFiled(mirrored, assets)
                && (Issued(previous, old(gitea.nextId)) && Clear(previous, old(gitea.attachments)[destination.id], assets) ==>
                      AssetsInStep(mirrored, gitea.attachments[destination.id], assets))
      ensures r == Clean && Distinct(assets) && Issued(previous, old(gitea.nextId)) ==>
                (AssetsInStep(mirrored, gitea.attachments[destination.id], assets) <==> Clear(previous, old(gitea.attachments)[destination.id], assets))
                && (!Clear(previous, old(gitea.attachments)[destination.id], assets) ==> Entangled(mirrored, assets))
      ensures AssetsInStep(previous, old(gitea.attachments)[destination.id], assets) ==>
                gitea.View() == old(gitea.View()) && gitea.log == old(gitea.log) && r != Warned && (r == Clean ==> mirrored == previous)
      ensures gitea.faults >= old(gitea.faults)
      ensures gitea.faults == old(gitea.faults) ==>
                r != Interrupted
                && (Issued(previous, old(gitea.nextId)) && Unobstructed(previous, old(gitea.attachments)[destination.id], assets, settings) ==> r == Clean)
    {
      hide *;
      ViewIs(gitea);
      var release := destination.id;
      ghost var sv, log := gitea.View(), gitea.log;
      ghost var idle := AssetsInStep(previous, sv.attachments[release], assets);
      ProgressStarts(start, latest, sv, log, release);
      StartRecords(start, release, previous, sv.nextId);
      if idle {
        IdleParts(previous, sv.attachments[release], assets);
      }
      var listed := AttachmentsOf(destination);
      if !listed.Answer? {
        return Interrupted, previous;
      }
      var byId, names;
      r, mirrored, byId, names := RemoveStale(s, assets, release, previous, listed.value, start, latest, l);
      SubMapRecords(start, release, mirrored, previous, sv.nextId);
      ViewIs(gitea);
      if Unobstructed(previous, sv.attachments[release], assets, settings) {
        UnobstructedStarts(previous, sv.attachments[release], assets, settings, mirrored, byId, names, gitea.attachments[release], r == Clean);
      }
      if r == Interrupted {
        return;
      }
      ProgressKeepsRelease(start, latest, sv, log, gitea.View(), gitea.log, release);
      ghost var apart := Clear(previous, sv.attachments[release], assets);
      AssetPassStarts(r == Clean, Issued(previous, sv.nextId), apart, mirrored, previous, sv.attachments[release], byId, gitea.attachments[release], assets);
      r, mirrored := MirrorEach(r, s, assets, release, settings, mirrored, byId, names, start, latest, l, apart, previous, sv, log);
      DistinctIsDistinctIds(assets);
      if Entangled(mirrored, assets) {
        EntangledNeverInStep(mirrored, gitea.attachments[release], assets);
      }
    }

    /** Updates a managed release unless it already matches its payload. */
    method UpdatePlaced(s: Source, entry: Entry, ghost start: Server, ghost latest: Option<Source>)
      returns (r: Outcome, destination: Listed, marker: Marker)
      requires Untouched(start, gitea.View(), s.id, Some(entry)) && (Trusty(start) ==> Trusty(gitea.View()))
      modifies gitea
      ensures Kept(start, latest, old(gitea.View()), old(gitea.log), gitea.View(), gitea.log, entry.listed.id, s.id)
      ensures r != Warned
      ensures r == Clean ==> Placed(start, gitea.View(), s, destination, marker) && destination.id == entry.listed.id
      ensures gitea.attachments == old(gitea.attachments) && destination.id in gitea.attachments && marker == entry.marker
      ensures r == Clean && Shown(s) ==> Carries(destination.release, s, marker) && Shows(destination.release, s, marker)
      ensures Carries(entry.listed.release, s, entry.marker) ==>
                r == Clean && destination == entry.listed && marker == entry.marker
                && gitea.View() == old(gitea.View()) && gitea.log == old(gitea.log)
      ensures gitea.faults >= old(gitea.faults)
      ensures gitea.faults == old(gitea.faults) ==> r == if Payload(s, entry.marker).Success? then Clean else Interrupted
    {
      ghost var sv, log := gitea.View(), gitea.log;
      destination, marker := entry.listed, entry.marker;
      EntryIsMine(start, sv, s, entry);
      NothingKept(start, latest, sv, log, Some(entry), s.id);
      PlacedStands(start, sv, s, destination, marker);
      hide Kept, Untouched, Placed, Shown, Stands, Mine, Payload, Keyed, Shows;
      var payload := Payload(s, marker);
      if payload.Failure? {
        return Interrupted, destination, marker;
      }
      if Matches(destination.release, payload.value.0) {
        CarriesShows(destination.release, s, marker);
        return Clean, destination, marker;
      }
      var updated := gitea.UpdateRelease(s.id, destination.id, payload.value.0);
      UpdateKeeps(start, latest, sv, log, gitea.View(), s, destination.id, marker, marker, payload.value.0);
      if !updated.Answer? {
        return Interrupted, destination, marker;
      }
      PlacedLater(start, sv, gitea.View(), s, destination, updated.value, marker);
      if Shown(s) {
        CarriesShows(updated.value.release, s, marker);
      }
      r, destination := Clean, updated.value;
    }

    /** Creates the source's release, or updates it if it differs. */
    method PlaceRelease(s: Source, entry: Option<Entry>, taken: set<string>, ghost start: Server, ghost latest: Option<Source>)
      returns (r: Outcome, destination: Listed, marker: Marker)
      requires Untouched(start, gitea.View(), s.id, entry) && Taken(start, taken, |start.order|) && (Trusty(start) ==> Trusty(gitea.View()))
      modifies gitea
      ensures Kept(start, latest, old(gitea.View()), old(gitea.log), gitea.View(), gitea.log, Target(old(gitea.View()), entry), s.id)
      ensures r == Warned ==> gitea.View() == old(gitea.View()) && gitea.log == old(gitea.log)
      ensures r == Clean ==> Placed(start, gitea.View(), s, destination, marker) && destination.id == Target(old(gitea.View()), entry)
      ensures r == Clean ==> marker == MarkerFor(s, entry) && destination.id in gitea.attachments
                             && gitea.attachments[destination.id] == AttachmentsFor(old(gitea.View()), entry)
      ensures r == Clean && Shown(s) ==> Carries(destination.release, s, marker) && Shows(destination.release, s, marker)
      ensures entry.Some? && Carries(entry.value.listed.release, s, entry.value.marker) ==>
                r == Clean && destination == entry.value.listed && marker == entry.value.marker
                && gitea.View() == old(gitea.View()) && gitea.log == old(gitea.log)
      ensures gitea.faults >= old(gitea.faults)
      ensures gitea.faults == old(gitea.faults) ==> r == if entry.None? && s.tag in taken then Warned
                                                         else if Payload(s, MarkerFor(s, entry)).Success? then Clean else Interrupted
    {
      ghost var sv, log := gitea.View(), gitea.log;
      destination := Listed(0, Release("", "", "", "", false, false), None);
      if entry.None? {
        marker := Marker(s.id, map[]);
        NothingKept(start, latest, sv, log, entry, s.id);
        hide Kept, Untouched, Taken, Placed, Carries, Shown, Shows;
        if s.tag in taken {
          return Warned, destination, marker;
        }
        var payload := Payload(s, marker);
        if payload.Failure? {
          return Interrupted, destination, marker;
        }
        var created := gitea.CreateRelease(s.id, payload.value.0);
        PayloadTag(s, marker);
        CreateKeeps(start, latest, sv, log, gitea.View(), s, taken, payload.value.0);
        if !created.Answer? {
          return Interrupted, destination, marker;
        }
        MadePlaced(start, sv, s, payload.value.0, created.value);
        if Shown(s) {
          CarriesShows(created.value.release, s, marker);
        }
        return Clean, created.value, marker;
      }
      r, destination, marker := UpdatePlaced(s, entry.value, start, latest);
    }

    /** Stores the final records, unless the release carries them already. */
    method FinishRelease(s: Source, destination: Listed, mirrored: map<int, MirroredAsset>, ghost assets: seq<SourceAsset>, ghost marker: Marker,
                         ghost start: Server, ghost latest: Option<Source>)
      returns (r: Outcome)
      requires ValidServer(gitea.View()) && Stands(gitea.View(), s, destination.id, marker) && Mine(start, s, destination.id)
      requires destination.id in gitea.attachments && gitea.releases[destination.id] == destination.release && KeyedMap(mirrored)
      requires Trusty(start) ==> Trusty(gitea.View()) && Issued(mirrored, gitea.nextId)
      modifies gitea`releases, gitea`log, gitea`faults
      ensures r != Warned && Kept(start, latest, old(gitea.View()), old(gitea.log), gitea.View(), gitea.log, destination.id, s.id)
      ensures r == Clean && AllHeld(mirrored, gitea.attachments[destination.id], s.assets) ==> SecuredAt(gitea.View(), s, destination.id)
      ensures r == Clean && Shown(s) && Digested(assets) && AssetsInStep(mirrored, gitea.attachments[destination.id], assets) ==>
                Settled(gitea.View(), s, Some(assets))
      ensures r == Clean && Entangled(mirrored, assets) ==> !Settled(gitea.View(), s, Some(assets))
      ensures r == Clean && Shown(s) ==> Represented(gitea.View(), s)
      ensures Carries(destination.release, s, Marker(s.id, mirrored)) ==> gitea.View() == old(gitea.View()) && gitea.log == old(gitea.log)
      ensures gitea.faults >= old(gitea.faults)
      ensures gitea.faults == old(gitea.faults) ==> r == if Payload(s, Marker(s.id, mirrored)).Success? then Clean else Interrupted
    {
      ghost var sv, log := gitea.View(), gitea.log;
      var final := Marker(s.id, mirrored);
      StandingKept(start, latest, sv, log, s, destination.id, marker);
      assert Keyed(final);
      hide Kept, Shown, Stands, Mine, Payload, Keyed, ValidServer, KeyedMap, Issued, Trusty, AllHeld, Digested, AssetsInStep, Settled, SecuredAt, Entangled, Represented;
      var payload := Payload(s, final);
      if payload.Failure? {
        return Interrupted;
      }
      if Matches(destination.release, payload.value.0) {
        MatchingStands(sv, s, destination.id, marker, final);
        NowRepresented(sv, s, destination.id, final);
        EndOfTurn(sv, s, assets, destination.id, mirrored);
        return Clean;
      }
      StandingAttachments(sv, s, destination.id, marker);
      var updated := gitea.UpdateRelease(s.id, destination.id, payload.value.0);
      UpdateKeeps(start, latest, sv, log, gitea.View(), s, destination.id, marker, final, payload.value.0);
      KeptValid(start, latest, sv, log, gitea.View(), gitea.log, destination.id, s.id);
      if !updated.Answer? {
        return Interrupted;
      }
      StandingAttachments(gitea.View(), s, destination.id, final);
      if Shown(s) {
        NowRepresented(gitea.View(), s, destination.id, final);
      }
      EndOfTurn(gitea.View(), s, assets, destination.id, mirrored);
      r := Clean;
    }

    /** Mirrors the assets of a placed release and stores the outcome in its marker. */
    method FillRelease(s: Source, assets: seq<SourceAsset>, destination: Listed, marker: Marker, settings: Settings,
                       ghost start: Server, ghost latest: Option<Source>, ghost l: int)
      returns (r: Outcome)
      requires Placed(start, gitea.View(), s, destination, marker) && MayDelete(gitea.View(), latest, s.id, destination.id, l)
      requires start.nextId <= gitea.nextId && DistinctIds(assets) && (Trusty(start) ==> Trusty(gitea.View()))
      requires Shown(s) ==> Carries(destination.release, s, marker)
      requires destination.id in gitea.attachments && AsAtStart(start, destination.id, gitea.attachments[destination.id])
      modifies gitea
      ensures Kept(start, latest, old(gitea.View()), old(gitea.log), gitea.View(), gitea.log, destination.id, s.id)
      ensures r == Clean && assets == s.assets ==> SecuredAt(gitea.View(), s, destination.id)
      ensures r == Clean && Trusty(start) && Shown(s) && Digested(assets) ==>
                Clear(marker.assets, old(gitea.attachments)[destination.id], assets) ==> Settled(gitea.View(), s, Some(assets))
      ensures r == Clean && Trusty(start) && Distinct(assets) ==>
                Settled(gitea.View(), s, Some(assets)) ==> Clear(marker.assets, old(gitea.attachments)[destination.id], assets)
      ensures r == Clean && Shown(s) ==> Represented(gitea.View(), s)
      ensures Carries(destination.release, s, marker) && AssetsInStep(marker.assets, old(gitea.attachments)[destination.id], assets) ==>
                r != Warned && gitea.View() == old(gitea.View()) && gitea.log == old(gitea.log)
      ensures gitea.faults >= old(gitea.faults)
      ensures gitea.faults == old(gitea.faults) && Trusty(start) && Fits(s, assets, gitea.nextId) ==>
                Unobstructed(marker.assets, old(gitea.attachments)[destination.id], assets, settings) ==> r == Clean
    {
      hide *;
      ViewIs(gitea);
      ghost var sv, log := gitea.View(), gitea.log;
      PlacedParts(start, sv, s, destination, marker);
      var mirrored;
      r, mirrored := MirrorAssets(s, assets, destination, marker.assets, settings, start, latest, l);
      ViewIs(gitea);
      AfterAssets(start, latest, sv, log, gitea.View(), gitea.log, s, destination, marker, mirrored);
      if r == Interrupted {
        return;
      }
      ghost var between, logged := gitea.View(), gitea.log;
      if r == Clean && Trusty(start) && Fits(s, assets, gitea.nextId) {
        FittingRecords(between, s, destination.id, mirrored, assets);
      }
      var finished := FinishRelease(s, destination, mirrored, assets, marker, start, latest);
      KeptTransitive(start, latest, sv, log, between, logged, gitea.View(), gitea.log, destination.id, s.id);
      if finished == Interrupted {
        r := Interrupted;
      }
    }

    /** One source's turn. `ready` tells whether the latest release's assets are complete. */
    method MirrorRelease(s: Source, entry: Option<Entry>, taken: set<string>, mirrorAssets: bool, mode: AssetMode,
                         latestId: Option<int>, ready: bool, settings: Settings,
                         ghost start: Server, ghost latest: Option<Source>, ghost l: int)
      returns (r: Outcome, ready': bool, ghost l': int)
      requires ValidServer(start) && Untouched(start, gitea.View(), s.id, entry) && Taken(start, taken, |start.order|) && DistinctIds(s.assets)
      requires Trusty(start) ==> Trusty(gitea.View())
      requires IsLatest(latest, latestId, s) && (latestId.Some? ==> mirrorAssets && mode == LatestAssets)
      requires Safely(gitea.View(), latest, ready, l) && (latestId.None? ==> ready)
      modifies gitea
      ensures Kept(start, latest, old(gitea.View()), old(gitea.log), gitea.View(), gitea.log, Target(old(gitea.View()), entry), s.id)
      ensures r != Interrupted ==> Safely(gitea.View(), latest, ready', l')
      ensures latestId == Some(s.id) && r == Clean ==> ready'
      ensures latestId != Some(s.id) ==> ready' == ready
      ensures r == Clean && (latestId.Some? ==> ready') && Trusty(start) && Plain(s) ==>
                Exactly(start, gitea.View(), s, Wanted(s, mirrorAssets, mode, latestId))
      ensures r == Clean && Plain(s) ==> Represented(gitea.View(), s)
      ensures Settled(old(gitea.View()), s, Wanted(s, mirrorAssets, mode, latestId)) ==>
                r != Warned && gitea.View() == old(gitea.View()) && gitea.log == old(gitea.log)
      ensures gitea.faults >= old(gitea.faults)
      ensures gitea.faults == old(gitea.faults) && Trusty(start) ==>
                Smooth(start, s, Wanted(s, mirrorAssets, mode, latestId), settings, gitea.nextId) ==> r == Clean
    {
      hide *;
      ViewIs(gitea);
      ghost var sv, log := gitea.View(), gitea.log;
      ghost var wanted := Wanted(s, mirrorAssets, mode, latestId);
      WantedIs(s, mirrorAssets, mode, latestId);
      SmoothTurns(start, sv, s, entry, taken, wanted, settings);
      ClearTurn(start, sv, s, entry, wanted);
      FoundAsAtStart(start, sv, s, entry);
      if Settled(sv, s, wanted) {
        SettledEntry(start, sv, s, entry, wanted);
      }
      ready', l' := ready, l;
      var destination, marker;
      r, destination, marker := PlaceRelease(s, entry, taken, start, latest);
      ViewIs(gitea);
      KeptSafely(start, latest, latestId, sv, log, gitea.View(), gitea.log, s, Target(sv, entry), ready, l);
      if r != Clean {
        return;
      }
      ghost var placed, logged := gitea.View(), gitea.log;
      PlacedSettled(start, placed, s, destination, marker);
      if Plain(s) {
        PlacedStands(start, placed, s, destination, marker);
        CurrentRelease(placed, destination);
        NowRepresented(placed, s, destination.id, marker);
      }
      if !mirrorAssets {
        if Trusty(start) && Plain(s) {
          TurnExactly(start, placed, s, wanted, true);
        }
        return;
      }
      if mode == LatestAssets && latestId != Some(s.id) && !ready {
        return;
      }
      var assets := if mode == LatestAssets && latestId != Some(s.id) then [] else s.assets;
      MayFill(start, latest, latestId, sv, log, placed, logged, s, Target(sv, entry), entry, ready, l, assets);
      r := FillRelease(s, assets, destination, marker, settings, start, latest, l);
      KeptTransitive(start, latest, sv, log, placed, logged, gitea.View(), gitea.log, destination.id, s.id);
      KeptSafely(start, latest, latestId, sv, log, gitea.View(), gitea.log, s, destination.id, ready, l);
      if r == Clean && Trusty(start) && Plain(s) {
        DistinctPart(s, assets);
        TurnExactly(start, gitea.View(), s, wanted, Clear(marker.assets, placed.attachments[destination.id], assets));
      }
      if latestId == Some(s.id) {
        ready', l' := r == Clean, destination.id;
        NowSafely(gitea.View(), latest, latestId, s, ready', l');
      }
    }

    /** The sources' turns, in order. */
    method MirrorAll(sources: seq<Source>, managed: map<int, Entry>, taken: set<string>, mirrorAssets: bool, mode: AssetMode,
                     latestId: Option<int>, settings: Settings, ghost start: Server, ghost latest: Option<Source>)
      returns (r: Outcome)
      requires gitea.View() == start && ValidServer(start) && Read(managed, start, |start.order|) && Taken(start, taken, |start.order|)
      requires DistinctSources(sources) && (latestId.Some? ==> mirrorAssets && mode == LatestAssets)
      requires latestId.Some? ==> |sources| > 0 && sources[0].id == latestId.value
      requires forall i | 0 <= i < |sources| :: IsLatest(latest, latestId, sources[i])
      requires latest.Some? <==> latestId.Some?
      modifies gitea
      ensures RunKept(start, latest, old(gitea.log), gitea.View(), gitea.log)
      ensures r == Clean && Trusty(start) && AllPlain(sources) ==> AllExactly(start, gitea.View(), sources, mirrorAssets, mode, latestId)
      ensures r == Clean && AllPlain(sources) ==> AllRepresented(gitea.View(), sources)
      ensures AllSettled(start, sources, mirrorAssets, mode, latestId) ==>
                r != Warned && gitea.View() == start && gitea.log == old(gitea.log)
      ensures gitea.faults >= old(gitea.faults)
      ensures gitea.faults == old(gitea.faults) && Trusty(start) ==>
                AllSmooth(start, sources, mirrorAssets, mode, latestId, settings, gitea.nextId) ==> r == Clean
    {
      hide *;
      ViewIs(gitea);
      ghost var log, l := gitea.log, 0;
      ghost var idle := AllSettled(start, sources, mirrorAssets, mode, latestId);
      var ready := latestId.None?;
      r := Clean;
      RunStarts(start, sources, managed, ready, mirrorAssets, mode, latestId);
      RunKeptStarts(start, latest, log);
      NotReadySafely(start, latest, latestId, ready, l);
      var i := 0;
      while i < |sources|
        invariant i <= |sources| && (r == Clean || r == Warned) && (latestId.None? ==> ready)
        invariant RunKept(start, latest, log, gitea.View(), gitea.log) && Safely(gitea.View(), latest, ready, l)
        invariant RunState(start, gitea.View(), sources, managed, i, r == Clean, ready, mirrorAssets, mode, latestId)
        invariant idle ==> r == Clean && gitea.View() == start && gitea.log == log
        invariant gitea.faults >= old(gitea.faults)
        invariant gitea.faults == old(gitea.faults) && Trusty(start) ==>
                    AllSmooth(start, sources, mirrorAssets, mode, latestId, settings, gitea.nextId) ==> r == Clean
      {
        ViewIs(gitea);
        ghost var sv, logged, was := gitea.View(), gitea.log, ready;
        RunTurn(start, sv, sources, managed, i, r == Clean, ready, mirrorAssets, mode, latestId);
        RunKeptTrusty(start, latest, log, sv, logged);
        var s := sources[i];
        var one;
        var entry := Lookup(managed, s.id);
        one, ready, l := MirrorRelease(s, entry, taken, mirrorAssets, mode, latestId, ready, settings, start, latest, l);
        RunKeptNext(start, latest, log, sv, logged, gitea.View(), gitea.log, Target(sv, entry), s.id);
        ViewIs(gitea);
        SmoothSoFar(start, latest, sv, logged, gitea.View(), gitea.log, Target(sv, entry), sources, i, mirrorAssets, mode, latestId, settings);
        if one == Interrupted {
          return Interrupted;
        }
        ghost var before := r;
        r := if one == Clean then r else Warned;
        RunAdvances(start, latest, sv, logged, gitea.View(), gitea.log, Target(sv, entry), sources, managed, i,
                    before == Clean, was, r == Clean, ready, mirrorAssets, mode, latestId);
        i := i + 1;
      }
      if r == Clean {
        RunEnds(start, gitea.View(), sources, managed, ready, mirrorAssets, mode, latestId);
      }
    }

    /** What the listing says: the last release found with each source's marker, and all tags. */
    method ReadListing(listing: seq<Listed>, ghost start: Server) returns (managed: map<int, Entry>, taken: set<string>)
      requires ValidServer(start) && Lists(listing, start)
      ensures Read(managed, start, |start.order|) && Taken(start, taken, |start.order|)
    {
      hide MarkerOf, ValidServer;
      managed, taken := map[], {};
      var i := 0;
      while i < |listing|
        invariant i <= |listing| && Read(managed, start, i)
        invariant Taken(start, taken, i)
      {
        ReadAdvances(managed, start, i, listing[i]);
        TakenAdvances(start, taken, i);
        managed := NextRead(managed, listing[i]);
        taken := taken + {listing[i].release.tag};
        i := i + 1;
      }
    }

    /** Mirrors a repository's releases, as its client reads them. `latestRelease` is the source's
        answer to which of them is the latest one. */
    method Mirror(from: Provider, home: string, raw: seq<RawRelease>, latestRelease: Option<int>, mirrorAssets: bool, mode: AssetMode)
      returns (r: Outcome)
      requires ValidServer(gitea.View()) && DistinctSources(ReadReleases(from, home, raw))
      modifies gitea
      ensures var latest := LatestOf(ReadReleases(from, home, raw), Chosen(mirrorAssets, mode, latestRelease));
              RunKept(old(gitea.View()), latest, old(gitea.log), gitea.View(), gitea.log)
      ensures mirrorAssets && mode == LatestAssets && Contradicts(from, raw, latestRelease) ==>
                r == Interrupted && gitea.View() == old(gitea.View()) && gitea.log == old(gitea.log)
      ensures r == Clean ==> AllCopied(gitea.View(), from, home, raw)
      ensures var latestId := Chosen(mirrorAssets, mode, latestRelease);
              r == Clean && mirrorAssets && Trusty(old(gitea.View()))
              && AllClear(old(gitea.View()), ReadReleases(from, home, raw), mirrorAssets, mode, latestId) ==>
                forall i | 0 <= i < |raw| && (mode == AllAssets || latestRelease == Some(raw[i].id)) :: AssetsCopied(gitea.View(), from, raw[i])
      ensures var latestId := Chosen(mirrorAssets, mode, latestRelease);
              r == Clean && Trusty(old(gitea.View())) ==>
                AllExactly(old(gitea.View()), gitea.View(), ReadReleases(from, home, raw), mirrorAssets, mode, latestId)
      ensures var sources, latestId := ReadReleases(from, home, raw), Chosen(mirrorAssets, mode, latestRelease);
              r == Clean && Trusty(old(gitea.View())) && AllClear(old(gitea.View()), sources, mirrorAssets, mode, latestId) ==>
                AllSettled(gitea.View(), sources, mirrorAssets, mode, latestId)
      ensures AllSettled(old(gitea.View()), ReadReleases(from, home, raw), mirrorAssets, mode, Chosen(mirrorAssets, mode, latestRelease)) ==>
                r != Warned && gitea.View() == old(gitea.View()) && gitea.log == old(gitea.log)
      ensures gitea.faults >= old(gitea.faults)
      ensures gitea.faults == old(gitea.faults) && Trusty(old(gitea.View())) ==>
                !(mirrorAssets && mode == LatestAssets && Contradicts(from, raw, latestRelease)) ==>
                var sources, latestId := ReadReleases(from, home, raw), Chosen(mirrorAssets, mode, latestRelease);
                AllSmooth(old(gitea.View()), sources, mirrorAssets, mode, latestId, gitea.settings, gitea.nextId) ==> r == Clean
    {
      hide *;
      ViewIs(gitea);
      ghost var start := gitea.View();
      var sources := ReadReleases(from, home, raw);
      ReadIsPlain(from, home, raw);
      ContradictsIff(from, home, raw, latestRelease);
      var latestId := Chosen(mirrorAssets, mode, latestRelease);
      ghost var latest := LatestOf(sources, latestId);
      RunKeptStarts(start, latest, gitea.log);
      ChosenIs(mirrorAssets, mode, latestRelease);
      var listing := gitea.ListReleases();
      ViewIs(gitea);
      if !listing.Answer? {
        return Interrupted;
      }
      var settings := Settings(true, None);
      if mirrorAssets {
        var fetched := gitea.AttachmentSettings();
        if !fetched.Answer? {
          return Interrupted;
        }
        settings := fetched.value;
      }
      if mirrorAssets && mode == LatestAssets && Contradicted(sources, latestRelease) {
        return Interrupted;
      }
      var ordered := sources;
      if latestId.Some? {
        NotContradicted(sources, latestId);
        ordered := LatestFirst(sources, latestId.value);
      }
      OrderedAll(start, sources, ordered, mirrorAssets, mode, latestId);
      var managed, taken := ReadListing(listing.value, start);
      ViewIs(gitea);
      r := MirrorAll(ordered, managed, taken, mirrorAssets, mode, latestId, settings, start, latest);
      if AllSmooth(start, sources, mirrorAssets, mode, latestId, gitea.settings, gitea.nextId) {
        SmoothMembers(start, sources, ordered, mirrorAssets, mode, latestId, gitea.settings, settings, gitea.nextId);
      }
      if r == Clean {
        RepresentedMembers(gitea.View(), sources, ordered);
        RepresentedAreCopied(gitea.View(), from, home, raw);
      }
      if r == Clean && Trusty(start) {
        ExactlyMembers(start, gitea.View(), sources, ordered, mirrorAssets, mode, latestId);
        CleanRunSettlesIff(start, gitea.View(), sources, mirrorAssets, mode, latestId);
        if mirrorAssets && AllClear(start, sources, mirrorAssets, mode, latestId) {
          AllAttached(gitea.View(), from, home, raw, mode, latestRelease);
        }
      }
    }
  }
}
