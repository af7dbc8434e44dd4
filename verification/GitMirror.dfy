/** Repository mirroring of githarbor/services/git.py: the reserved-reference transaction and the
    order in which fetched references and LFS objects are published. */
module GitMirror {
  import opened Wrappers
  import opened GitRefs

  datatype Prepared = Ready | Conflict | Failed

  /** The dictionary built from the listing: the references of the four families. */
  ghost predicate IsDict(dict: Refs, refs: Refs) {
    forall r :: (r in dict <==> r in refs && Special(r)) && (r in dict ==> dict[r] == refs[r])
  }

  ghost predicate Selects(listing: seq<(Ref, Oid)>, refs: Refs) {
    && (forall i, j | 0 <= i < j < |listing| :: listing[i].0 != listing[j].0)
    && (forall i | 0 <= i < |listing| :: Special(listing[i].0) && listing[i].0 in refs && refs[listing[i].0] == listing[i].1)
    && (forall r | r in refs && Special(r) :: exists i :: 0 <= i < |listing| && listing[i].0 == r)
  }

  /** A bare repository, local or remote, with the LFS objects stored beside it. Every command
      on it may fail; those that are not atomic may then have done part of their work. `faults`
      counts commands that failed for reasons of their own. */
  class Repository {
    var refs: Refs
    var lfs: set<string>
    ghost var faults: nat

    constructor (refs: Refs, lfs: set<string>)
      ensures this.refs == refs && this.lfs == lfs
    {
      this.refs, this.lfs, this.faults := refs, lfs, 0;
    }

    /** Lists the references of the four families, in no particular order. */
    method ListSpecialRefs() returns (listing: Option<seq<(Ref, Oid)>>)
      modifies this`faults
      ensures listing.Some? ==> Selects(listing.value, refs)
      ensures faults == old(faults) + if listing.Some? then 0 else 1
    {
      var works: bool := *;
      if !works {
        faults := faults + 1;
        return None;
      }
      hide Special;
      var out: seq<(Ref, Oid)> := [];
      var todo := refs.Keys;
      while todo != {}
        invariant todo <= refs.Keys && faults == old(faults)
        invariant forall i, j | 0 <= i < j < |out| :: out[i].0 != out[j].0
        invariant forall i | 0 <= i < |out| :: Special(out[i].0) && out[i].0 in refs && refs[out[i].0] == out[i].1 && out[i].0 !in todo
        invariant forall r | r in refs && Special(r) && r !in todo :: exists i :: 0 <= i < |out| && out[i].0 == r
      {
        var r := PickAny(todo);
        todo := todo - {r};
        if Special(r) {
          ghost var before := out;
          out := out + [(r, refs[r])];
          assert out[|out| - 1].0 == r;
          forall s | s in refs && Special(s) && s !in todo
            ensures exists i :: 0 <= i < |out| && out[i].0 == s
          {
            if s != r {
              var i :| 0 <= i < |before| && before[i].0 == s;
              assert out[i].0 == s;
            }
          }
        }
      }
      listing := Some(out);
    }

    /** Applies a reference transaction, entirely or not at all. */
    method UpdateRefs(script: seq<RefOp>) returns (ok: bool)
      modifies this`refs, this`faults
      ensures ok ==> Acceptable(old(refs), script) && refs == Applied(old(refs), script)
      ensures !ok ==> refs == old(refs)
      ensures faults >= old(faults)
      ensures faults == old(faults) ==> ok == Acceptable(old(refs), script)
    {
      var works: bool := *;
      ok := works && Acceptable(refs, script);
      if !works {
        faults := faults + 1;
      }
      if ok {
        refs := Applied(refs, script);
      }
    }
  }

  // ---------------------------------------------------------------- reserved references

  /** The mapping moves exactly the references under `from`. */
  ghost predicate Mapping(from: string, to: string, pulls: bool) {
    (from == FOR && to == PRESERVED_FOR) || (pulls && from == PULL && to == PRESERVED_PULL)
  }

  lemma MappingTarget(r: Ref, from: string, to: string, pulls: bool)
    requires Mapping(from, to, pulls) && Under(r, from)
    ensures Target(r, pulls) == Some(Moved(r, from, to)) && Moved(r, from, to) != r && Special(Moved(r, from, to))
  {
    Families(r);
    MovedUnder(r);
    Families(Moved(r, from, to));
  }

  lemma DroppedTarget(r: Ref)
    ensures Target(r, false) == None <==> Under(r, PULL) || Under(r, PRESERVED_PULL)
  {
    Families(r);
  }

  /** Emits the deletions of a pull-less configuration. */
  method DropPulls(listing: seq<(Ref, Oid)>, ghost refs: Refs) returns (script: seq<RefOp>, ghost done: set<Ref>)
    requires Selects(listing, refs)
    ensures Covers(refs, script, done, false)
    ensures forall r | r in refs && (Under(r, PULL) || Under(r, PRESERVED_PULL)) :: r in done
    ensures forall r | r in done :: Under(r, PULL) || Under(r, PRESERVED_PULL)
    ensures (forall r | r in refs :: !Under(r, PULL) && !Under(r, PRESERVED_PULL)) ==> script == []
  {
    script, done := [], {};
    CoversNothing(refs, false);
    hide Covers, Target, Under;
    var i := 0;
    while i < |listing|
      invariant i <= |listing| && Covers(refs, script, done, false)
      invariant forall j | 0 <= j < i && (Under(listing[j].0, PULL) || Under(listing[j].0, PRESERVED_PULL)) :: listing[j].0 in done
      invariant forall r | r in done :: Under(r, PULL) || Under(r, PRESERVED_PULL)
      invariant forall r | r in done :: exists j :: 0 <= j < i && listing[j].0 == r
      invariant (forall r | r in refs :: !Under(r, PULL) && !Under(r, PRESERVED_PULL)) ==> script == []
    {
      var (ref, oid) := listing[i];
      DroppedTarget(ref);
      if Under(ref, PULL) || Under(ref, PRESERVED_PULL) {
        Dropped(refs, script, done, ref, false);
        script := script + [DeleteRef(ref, oid)];
        done := done + {ref};
      }
      i := i + 1;
    }
    forall r | r in refs && (Under(r, PULL) || Under(r, PRESERVED_PULL))
      ensures r in done
    {
      assert Special(r) by {
        SpecialUnder(r);
      }
    }
  }

  lemma SpecialUnder(r: Ref)
    ensures Under(r, PULL) || Under(r, PRESERVED_PULL) || Under(r, FOR) || Under(r, PRESERVED_FOR) <==> Special(r)
  {
  }

  /** The reference with this suffix is deleted, and created under the other prefix unless it is
      there with the same object. */
  ghost predicate MovesTo(refs: Refs, script: seq<RefOp>, from: string, to: string, x: string) {
    from + x in refs ==>
      && DeleteRef(from + x, refs[from + x]) in script
      && (if to + x in refs then refs[to + x] == refs[from + x] else CreateRef(to + x, refs[from + x]) in script)
  }

  lemma DoneMoves(refs: Refs, script: seq<RefOp>, done: set<Ref>, from: string, to: string, x: string, pulls: bool)
    requires Mapping(from, to, pulls) && Covers(refs, script, done, pulls) && (from + x in refs ==> from + x in done)
    ensures MovesTo(refs, script, from, to, x)
  {
    MovedSuffix(from, to, x);
    MappingTarget(from + x, from, to, pulls);
    hide Target, Moved, Acceptable, Mapping, Special, Under;
    if from + x in refs {
      assert Done(refs, script, from + x, pulls);
    }
  }

  lemma MovedIsSuffix(r: Ref, from: string, to: string)
    requires Under(r, from)
    ensures r == from + r[|from|..] && Moved(r, from, to) == to + r[|from|..]
  {
  }

  /** Emits the moves of one family, unless a preserved reference is in the way. */
  method MoveFamily(listing: seq<(Ref, Oid)>, dict: Refs, from: string, to: string, pulls: bool, start: seq<RefOp>,
                    ghost refs: Refs, ghost before: set<Ref>)
    returns (conflict: bool, script: seq<RefOp>, ghost done: set<Ref>)
    requires Selects(listing, refs) && IsDict(dict, refs) && Mapping(from, to, pulls)
    requires Covers(refs, start, before, pulls) && forall r | r in before :: !Under(r, from)
    ensures conflict ==> exists x :: InBoth(refs, from, to, x) && refs[from + x] != refs[to + x]
    ensures conflict ==> Conflicting(refs, pulls)
    ensures !conflict ==> forall x :: MovesTo(refs, script, from, to, x)
    ensures !conflict ==> Covers(refs, script, done, pulls) && before <= done && forall r | r in refs && Under(r, from) :: r in done
    ensures forall r | r in done :: r in before || Under(r, from)
    ensures (forall r | r in refs :: !Under(r, from)) ==> script == start
  {
    conflict, script, done := false, start, before;
    hide Covers, Target, Under, Moved, Mapping, Special, Conflicting;
    var i := 0;
    while i < |listing|
      invariant i <= |listing| && Covers(refs, script, done, pulls) && before <= done
      invariant forall j | 0 <= j < i && Under(listing[j].0, from) :: listing[j].0 in done
      invariant forall r | r in done :: r in before || Under(r, from)
      invariant forall r | r in done :: r in before || exists j :: 0 <= j < i && listing[j].0 == r
      invariant (forall r | r in refs :: !Under(r, from)) ==> script == start
    {
      var (ref, oid) := listing[i];
      if Under(ref, from) {
        var preserved := Moved(ref, from, to);
        MappingTarget(ref, from, to, pulls);
        if preserved in dict && dict[preserved] != oid {
          ConflictIs(refs, ref, preserved, pulls);
          MovedIsSuffix(ref, from, to);
          assert InBoth(refs, from, to, ref[|from|..]);
          conflict := true;
          return;
        }
        Relocated(refs, script, done, ref, preserved, pulls);
        if preserved !in dict {
          script := script + [CreateRef(preserved, oid)];
        } else {
          assert script + [] == script;
        }
        script := script + [DeleteRef(ref, oid)];
        done := done + {ref};
      }
      i := i + 1;
    }
    forall r | r in refs && Under(r, from)
      ensures r in done
    {
      FromIsSpecial(r, from, to, pulls);
    }
    forall x
      ensures MovesTo(refs, script, from, to, x)
    {
      MovedSuffix(from, to, x);
      DoneMoves(refs, script, done, from, to, x, pulls);
    }
  }

  lemma ConflictIs(refs: Refs, r: Ref, t: Ref, pulls: bool)
    requires r in refs && t in refs && Target(r, pulls) == Some(t) && refs[r] != refs[t]
    ensures Conflicting(refs, pulls)
  {
  }

  lemma FromIsSpecial(r: Ref, from: string, to: string, pulls: bool)
    requires Mapping(from, to, pulls) && Under(r, from)
    ensures Special(r)
  {
  }

  /** Every reference that is not published under its own name is in a family that was handled. */
  lemma AllHandled(refs: Refs, done: set<Ref>, pulls: bool)
    requires forall r | r in refs && Under(r, FOR) :: r in done
    requires forall r | r in refs && Under(r, PULL) :: r in done
    requires !pulls ==> forall r | r in refs && Under(r, PRESERVED_PULL) :: r in done
    ensures Complete(refs, done, pulls)
  {
    hide Moved;
  }

  /** Rewrites the local mirror's references into their published form. */
  method PrepareReservedRefs(local: Repository, pulls: bool) returns (r: Prepared, ghost script: seq<RefOp>)
    modifies local`refs, local`faults
    ensures local.faults >= old(local.faults)
    ensures local.faults == old(local.faults) ==> r == if Collides(old(local.refs), pulls) then Conflict else Ready
    ensures r == Ready ==> IsRemap(old(local.refs), local.refs, pulls) && Publishes(old(local.refs), local.refs, pulls)
    ensures r != Ready ==> local.refs == old(local.refs)
    ensures r == Conflict ==> Collides(old(local.refs), pulls)
    ensures Collides(old(local.refs), pulls) ==> r != Ready
    ensures Acceptable(old(local.refs), script)
    ensures Publishes(old(local.refs), old(local.refs), pulls) ==> script == []
  {
    ghost var refs := local.refs;
    script := [];
    var listed := local.ListSpecialRefs();
    if listed.None? {
      return Failed, [];
    }
    var listing := listed.value;
    var dict := ReadRefs(listing, refs);
    var transaction: seq<RefOp> := [];
    ghost var done: set<Ref> := {};
    CoversNothing(refs, pulls);
    hide *;
    ConflictSpelled(refs, pulls);
    RemapSpelled(refs, refs, pulls);
    SettledFamilies(refs, pulls);
    if !pulls {
      transaction, done := DropPulls(listing, refs);
    }
    OtherFamilies(done);
    MappingsAre(pulls);
    var conflict := false;
    if pulls {
      conflict, transaction, done := MoveFamily(listing, dict, PULL, PRESERVED_PULL, pulls, transaction, refs, done);
      if conflict {
        return Conflict, [];
      }
      OtherFamilies(done);
    }
    conflict, transaction, done := MoveFamily(listing, dict, FOR, PRESERVED_FOR, pulls, transaction, refs, done);
    if conflict {
      return Conflict, [];
    }
    script := transaction;
    AllHandled(refs, done, pulls);
    CoversRemap(refs, transaction, done, pulls);
    RemapSpelled(refs, Applied(refs, transaction), pulls);
    CoversAcceptable(refs, transaction, done, pulls);
    if Conflicting(refs, pulls) {
      ConflictingHasNoRemap(refs, Applied(refs, transaction), pulls);
    }
    if transaction == [] {
      NothingApplied(refs);
      return Ready, transaction;
    }
    var ok := local.UpdateRefs(transaction);
    r := if ok then Ready else Failed;
  }

  method ReadRefs(listing: seq<(Ref, Oid)>, ghost refs: Refs) returns (dict: Refs)
    requires Selects(listing, refs)
    ensures IsDict(dict, refs)
  {
    hide Special;
    dict := map[];
    var i := 0;
    while i < |listing|
      invariant i <= |listing|
      invariant forall j | 0 <= j < i :: listing[j].0 in dict
      invariant forall r | r in dict :: r in refs && Special(r) && dict[r] == refs[r]
    {
      dict := dict[listing[i].0 := listing[i].1];
      i := i + 1;
    }
  }

  lemma OtherFamilies(done: set<Ref>)
    ensures (forall r | r in done :: Under(r, PULL) || Under(r, PRESERVED_PULL)) ==> forall r | r in done :: !Under(r, FOR)
  {
    forall r | r in done
      ensures Under(r, PULL) || Under(r, PRESERVED_PULL) ==> !Under(r, FOR)
    {
      Families(r);
    }
  }

  lemma MappingsAre(pulls: bool)
    ensures Mapping(FOR, PRESERVED_FOR, pulls) && (pulls ==> Mapping(PULL, PRESERVED_PULL, pulls))
  {
  }

  lemma SettledFamilies(refs: Refs, pulls: bool)
    ensures IsRemap(refs, refs, pulls) ==>
              forall r | r in refs :: !Under(r, FOR) && !Under(r, PULL) && (!pulls ==> !Under(r, PRESERVED_PULL))
  {
    if IsRemap(refs, refs, pulls) {
      RemapSettles(refs, refs, pulls);
    }
  }

  lemma CoversAcceptable(refs: Refs, script: seq<RefOp>, done: set<Ref>, pulls: bool)
    requires Covers(refs, script, done, pulls)
    ensures Acceptable(refs, script)
  {
  }

  lemma NothingApplied(refs: Refs)
    ensures Applied(refs, []) == refs
  {
  }

  // ---------------------------------------------------------------- publishing

  /** The local mirror has the source's references, as far as they are published. */
  ghost predicate Agrees(source: Refs, local: Refs, pulls: bool) {
    forall r | Target(r, pulls).Some? :: (r in local <==> r in source) && (r in local ==> local[r] == source[r])
  }

  lemma FetchedAgrees(source: Refs, local: Refs, pulls: bool)
    ensures Agrees(source, Fetched(source, local, pulls), pulls)
  {
    hide Moved;
  }

  lemma AgreesRemap(source: Refs, local: Refs, out: Refs, pulls: bool)
    requires Agrees(source, local, pulls)
    ensures IsRemap(local, out, pulls) <==> IsRemap(source, out, pulls)
    ensures Conflicting(local, pulls) <==> Conflicting(source, pulls)
  {
    SameTargets(source, local, out, pulls);
    SameTargets(local, source, out, pulls);
  }

  /** Every reference is an old one or one of the local mirror's. */
  ghost predicate Between(before: Refs, local: Refs, now: Refs) {
    forall r | r in now :: (r in before && now[r] == before[r]) || (r in local && now[r] == local[r])
  }

  class Mirror {
    const pulls: bool
    const transferLfs: bool
    /** The LFS objects an object's history refers to. */
    const lfsOf: Oid -> set<string>

    constructor (pulls: bool, transferLfs: bool, lfsOf: Oid -> set<string>)
      ensures this.pulls == pulls && this.transferLfs == transferLfs && this.lfsOf == lfsOf
    {
      this.pulls, this.transferLfs, this.lfsOf := pulls, transferLfs, lfsOf;
    }

    predicate HasObjects(refs: Refs, lfs: set<string>) {
      forall r | r in refs :: lfsOf(refs[r]) <= lfs
    }

    /** A fetch that fails may have updated any of the references. */
    method Fetch(source: Repository, local: Repository) returns (ok: bool)
      requires local != source
      modifies local`refs, local`faults
      ensures ok ==> local.refs == Fetched(source.refs, old(local.refs), pulls)
      ensures local.faults == old(local.faults) + if ok then 0 else 1
    {
      ok := *;
      if ok {
        local.refs := Fetched(source.refs, local.refs, pulls);
      } else {
        local.refs, local.faults := *, local.faults + 1;
      }
    }

    /** Clones into an empty directory; only a complete clone takes the local mirror's place. */
    method Clone(source: Repository, local: Repository) returns (ok: bool)
      requires local != source
      modifies local
      ensures ok ==> local.refs == Fetched(source.refs, map[], pulls)
      ensures !ok ==> local.refs == old(local.refs) && local.lfs == old(local.lfs)
      ensures local.faults == old(local.faults) + if ok then 0 else 1
    {
      ok := *;
      if ok {
        local.refs, local.lfs := Fetched(source.refs, map[], pulls), {};
      } else {
        local.faults := local.faults + 1;
      }
    }

    /** Brings the local mirror up to date; one that is invalid, misconfigured or corrupt is
        rebuilt from scratch. */
    method FetchSource(source: Repository, local: Repository, cached: bool) returns (ok: bool)
      requires local != source
      modifies local
      ensures ok ==> Agrees(source.refs, local.refs, pulls)
      ensures local.faults >= old(local.faults)
      ensures local.faults == old(local.faults) ==> ok
    {
      FetchedAgrees(source.refs, map[], pulls);
      FetchedAgrees(source.refs, local.refs, pulls);
      var bare, configured: bool := *, *;
      if !cached || !bare || !configured {
        ok := Clone(source, local);
        return;
      }
      ok := Fetch(source, local);
      if !ok {
        var healthy: bool := *;
        if !healthy {
          ok := Clone(source, local);
        }
      }
    }

    /** Transfers LFS objects. The push reports success only when the destination has every
        object the local mirror's references need. */
    method TransferLfs(source: Repository, local: Repository, destination: Repository) returns (ok: bool)
      requires local != source && destination != source && local != destination
      modifies local`lfs, destination`lfs, destination`faults
      ensures old(destination.lfs) <= destination.lfs
      ensures ok ==> forall r | r in local.refs :: lfsOf(local.refs[r]) <= destination.lfs
      ensures destination.faults == old(destination.faults) + if ok then 0 else 1
    {
      var fetched: set<string> := *;
      local.lfs := local.lfs + (fetched * source.lfs);
      ok := *;
      if ok {
        var pushed: set<string> := *;
        destination.lfs := destination.lfs + (pushed * local.lfs);
        ok := *;
        ok := ok && HasObjects(local.refs, destination.lfs);
      }
      if !ok {
        destination.faults := destination.faults + 1;
      }
    }

    /** Makes the destination's references those of the local mirror. A push that fails may have
        updated or deleted some of them; transient failures are retried twice. */
    method Push(local: Repository, destination: Repository) returns (ok: bool)
      requires local != destination
      modifies destination`refs, destination`faults
      ensures destination.faults >= old(destination.faults)
      ensures destination.faults == old(destination.faults) ==> ok
      ensures ok ==> destination.refs == local.refs
      ensures Between(old(destination.refs), local.refs, destination.refs)
    {
      ghost var before := destination.refs;
      ok := false;
      var attempt := 0;
      while attempt < 3
        invariant Between(before, local.refs, destination.refs)
        invariant destination.faults >= old(destination.faults)
        invariant attempt > 0 ==> destination.faults > old(destination.faults)
      {
        ok := *;
        if ok {
          destination.refs := local.refs;
          return;
        }
        var done: set<Ref> := *;
        destination.faults := destination.faults + 1;
        var was := destination.refs;
        destination.refs := map r | r in was.Keys + local.refs.Keys && (if r in done then r in local.refs else r in was) ::
          if r in done then local.refs[r] else was[r];
        var transient: bool := *;
        if !transient {
          return;
        }
        attempt := attempt + 1;
      }
    }

    /** Mirrors a repository: fetch, rewrite reserved references, transfer LFS objects, push. */
    method MirrorRepository(source: Repository, local: Repository, destination: Repository, cached: bool) returns (ok: bool)
      requires local != source && destination != source && local != destination
      modifies local, destination
      ensures local.faults == old(local.faults) && destination.faults == old(destination.faults) ==> (ok <==> !Collides(source.refs, pulls))
      ensures ok ==> Publishes(source.refs, destination.refs, pulls)
      ensures Collides(source.refs, pulls) ==> !ok && destination.refs == old(destination.refs) && destination.lfs == old(destination.lfs)
      ensures destination.refs == old(destination.refs)
              || exists out :: Publishes(source.refs, out, pulls) && Between(old(destination.refs), out, destination.refs)
      ensures old(destination.lfs) <= destination.lfs
      ensures ok && transferLfs ==> forall r | r in destination.refs :: lfsOf(destination.refs[r]) <= destination.lfs
      ensures transferLfs && (forall r | r in old(destination.refs) :: lfsOf(old(destination.refs)[r]) <= old(destination.lfs)) ==>
                forall r | r in destination.refs :: lfsOf(destination.refs[r]) <= destination.lfs
    {
      ok := FetchSource(source, local, cached);
      if !ok {
        return;
      }
      AgreesRemap(source.refs, local.refs, local.refs, pulls);
      ghost var fetched := local.refs;
      ConflictSpelled(source.refs, pulls);
      ConflictSpelled(fetched, pulls);
      var prepared, script := PrepareReservedRefs(local, pulls);
      if prepared != Ready {
        return false;
      }
      AgreesRemap(source.refs, fetched, local.refs, pulls);
      RemapSpelled(source.refs, local.refs, pulls);
      if transferLfs {
        ok := TransferLfs(source, local, destination);
        if !ok {
          return;
        }
      }
      ok := Push(local, destination);
    }
  }
}
