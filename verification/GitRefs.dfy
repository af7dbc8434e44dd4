/** Reserved references of githarbor/services/git.py as values: where each reference of a source
    goes, and what a reference transaction that moves them there has to contain. */
module GitRefs {
  import opened Wrappers

  type Ref = string
  type Oid = string
  type Refs = map<Ref, Oid>

  const PULL: string := "refs/pull/"
  const PRESERVED_PULL: string := "refs/githarbor/github-pull/"
  const FOR: string := "refs/for/"
  const PRESERVED_FOR: string := "refs/githarbor/gerrit-for/"

  predicate Under(ref: Ref, prefix: string) {
    prefix <= ref
  }

  /** `ref` with one prefix replaced by another. */
  function Moved(ref: Ref, from: string, to: string): Ref
    requires Under(ref, from)
  {
    to + ref[|from|..]
  }

  /** The four families are disjoint. */
  lemma Families(ref: Ref)
    ensures Under(ref, PULL) ==> !Under(ref, FOR) && !Under(ref, PRESERVED_PULL) && !Under(ref, PRESERVED_FOR)
    ensures Under(ref, FOR) ==> !Under(ref, PRESERVED_PULL) && !Under(ref, PRESERVED_FOR)
    ensures Under(ref, PRESERVED_PULL) ==> !Under(ref, PRESERVED_FOR)
  {
    assert PULL[5] == 'p' && FOR[5] == 'f' && PRESERVED_PULL[5] == 'g' && PRESERVED_FOR[5] == 'g';
    assert PRESERVED_PULL[16] == 'i' && PRESERVED_FOR[16] == 'e';
  }

  /** Where a source's reference is published, if at all. */
  function Target(ref: Ref, pulls: bool): Option<Ref> {
    if Under(ref, PULL) then (if pulls then Some(Moved(ref, PULL, PRESERVED_PULL)) else None)
    else if Under(ref, PRESERVED_PULL) && !pulls then None
    else if Under(ref, FOR) then Some(Moved(ref, FOR, PRESERVED_FOR))
    else Some(ref)
  }

  /** What a mirror of these references publishes. */
  ghost predicate IsRemap(refs: Refs, out: Refs, pulls: bool) {
    && (forall r | r in refs && Target(r, pulls).Some? :: Target(r, pulls).value in out && out[Target(r, pulls).value] == refs[r])
    && (forall t | t in out :: Origin(refs, t, pulls))
  }

  ghost predicate Origin(refs: Refs, t: Ref, pulls: bool) {
    exists r :: r in refs && Target(r, pulls) == Some(t)
  }

  /** Two references with different objects would be published under one name. */
  ghost predicate Conflicting(refs: Refs, pulls: bool) {
    exists r, t :: r in refs && t in refs && Target(r, pulls) == Some(t) && refs[r] != refs[t]
  }

  lemma TargetShape(r: Ref, pulls: bool)
    ensures Target(r, pulls).Some? && Target(r, pulls).value != r ==>
              (Under(r, PULL) && pulls && Target(r, pulls).value == Moved(r, PULL, PRESERVED_PULL))
              || (Under(r, FOR) && Target(r, pulls).value == Moved(r, FOR, PRESERVED_FOR))
    ensures Target(r, pulls).Some? ==> !Under(Target(r, pulls).value, PULL) && !Under(Target(r, pulls).value, FOR)
                                       && Target(Target(r, pulls).value, pulls) == Target(r, pulls)
  {
    Families(r);
    if Under(r, PULL) {
      Families(Moved(r, PULL, PRESERVED_PULL));
    }
    if Under(r, FOR) {
      Families(Moved(r, FOR, PRESERVED_FOR));
    }
  }

  lemma MovedInjective(r: Ref, s: Ref, from: string, to: string)
    requires Under(r, from) && Under(s, from) && Moved(r, from, to) == Moved(s, from, to)
    ensures r == s
  {
    assert r == from + Moved(r, from, to)[|to|..];
    assert s == from + Moved(s, from, to)[|to|..];
  }

  /** Moved references never end up under one name. */
  lemma TargetInjective(r: Ref, s: Ref, pulls: bool)
    requires Target(r, pulls).Some? && Target(r, pulls) == Target(s, pulls)
    requires Target(r, pulls) != Some(r) && Target(s, pulls) != Some(s)
    ensures r == s
  {
    hide Target, Moved;
    TargetShape(r, pulls);
    TargetShape(s, pulls);
    var t := Target(r, pulls).value;
    Families(t);
    MovedUnder(r);
    MovedUnder(s);
    if Under(r, PULL) && Under(s, PULL) && pulls && t == Moved(r, PULL, PRESERVED_PULL) && t == Moved(s, PULL, PRESERVED_PULL) {
      MovedInjective(r, s, PULL, PRESERVED_PULL);
    } else if Under(r, FOR) && Under(s, FOR) && t == Moved(r, FOR, PRESERVED_FOR) && t == Moved(s, FOR, PRESERVED_FOR) {
      MovedInjective(r, s, FOR, PRESERVED_FOR);
    }
  }

  lemma MovedUnder(r: Ref)
    ensures Under(r, PULL) ==> Under(Moved(r, PULL, PRESERVED_PULL), PRESERVED_PULL)
    ensures Under(r, FOR) ==> Under(Moved(r, FOR, PRESERVED_FOR), PRESERVED_FOR)
  {
  }

  /** The published references are determined by the source's alone. */
  lemma RemapUnique(refs: Refs, a: Refs, b: Refs, pulls: bool)
    requires IsRemap(refs, a, pulls) && IsRemap(refs, b, pulls)
    ensures a == b
  {
    hide Target;
    forall t
      ensures t in a <==> t in b
      ensures t in a ==> a[t] == b[t]
    {
      if t in a {
        assert Origin(refs, t, pulls);
      }
      if t in b {
        assert Origin(refs, t, pulls);
      }
    }
  }

  /** Nothing reserved is left, and publishing again changes nothing. */
  lemma RemapSettles(refs: Refs, out: Refs, pulls: bool)
    requires IsRemap(refs, out, pulls)
    ensures forall t | t in out :: !Under(t, PULL) && !Under(t, FOR) && (!pulls ==> !Under(t, PRESERVED_PULL))
    ensures IsRemap(out, out, pulls) && !Conflicting(out, pulls)
  {
    forall t | t in out
      ensures !Under(t, PULL) && !Under(t, FOR) && (!pulls ==> !Under(t, PRESERVED_PULL)) && Target(t, pulls) == Some(t)
    {
      assert Origin(refs, t, pulls);
      var r :| r in refs && Target(r, pulls) == Some(t);
      TargetShape(r, pulls);
      MovedUnder(r);
      Families(t);
    }
    assert forall t | t in out :: Origin(out, t, pulls);
  }

  /** A conflicting source has no published form at all. */
  lemma ConflictingHasNoRemap(refs: Refs, out: Refs, pulls: bool)
    requires Conflicting(refs, pulls)
    ensures !IsRemap(refs, out, pulls)
  {
    var r, t :| r in refs && t in refs && Target(r, pulls) == Some(t) && refs[r] != refs[t];
    TargetShape(r, pulls);
  }

  /** References with one published name have one object, unless they conflict. */
  lemma OneObject(refs: Refs, r: Ref, s: Ref, pulls: bool)
    requires r in refs && s in refs && Target(r, pulls).Some? && Target(r, pulls) == Target(s, pulls) && !Conflicting(refs, pulls)
    ensures refs[r] == refs[s]
  {
    hide Target;
    if Target(r, pulls) != Some(r) && Target(s, pulls) != Some(s) {
      TargetInjective(r, s, pulls);
    }
  }

  /** A source can be published exactly when its references do not conflict. */
  lemma RemapExistsIff(refs: Refs, pulls: bool)
    ensures (exists out :: IsRemap(refs, out, pulls)) <==> !Conflicting(refs, pulls)
  {
    hide Target;
    if Conflicting(refs, pulls) {
      forall out
        ensures !IsRemap(refs, out, pulls)
      {
        ConflictingHasNoRemap(refs, out, pulls);
      }
    } else {
      var names := set r | r in refs && Target(r, pulls).Some? :: Target(r, pulls).value;
      var out := map t | t in names :: refs[SomeOrigin(refs, t, pulls)];
      forall r | r in refs && Target(r, pulls).Some?
        ensures Target(r, pulls).value in out && out[Target(r, pulls).value] == refs[r]
      {
        var t := Target(r, pulls).value;
        assert t in names;
        OneObject(refs, r, SomeOrigin(refs, t, pulls), pulls);
      }
      assert IsRemap(refs, out, pulls);
    }
  }

  ghost function SomeOrigin(refs: Refs, t: Ref, pulls: bool): (r: Ref)
    requires Origin(refs, t, pulls)
    ensures r in refs && Target(r, pulls) == Some(t)
  {
    var r :| r in refs && Target(r, pulls) == Some(t);
    r
  }

  // ---------------------------------------------------------------- names spelled out

  predicate Has(refs: Refs, r: Ref, o: Oid) {
    r in refs && refs[r] == o
  }

  /** The reference with this suffix is there under both prefixes. */
  predicate InBoth(refs: Refs, from: string, to: string, x: string) {
    from + x in refs && to + x in refs
  }

  /** What `t` stands for among the published references: the source's own reference of that name,
      or one of the other two families under its new prefix. */
  ghost predicate PublishedAs(refs: Refs, t: Ref, o: Oid, pulls: bool) {
    || (Has(refs, t, o) && !("refs/pull/" <= t) && !("refs/for/" <= t) && (pulls || !("refs/githarbor/github-pull/" <= t)))
    || (pulls && exists x :: t == "refs/githarbor/github-pull/" + x && Has(refs, "refs/pull/" + x, o))
    || (exists x :: t == "refs/githarbor/gerrit-for/" + x && Has(refs, "refs/for/" + x, o))
  }

  ghost predicate Publishes(refs: Refs, out: Refs, pulls: bool) {
    forall t, o :: Has(out, t, o) <==> PublishedAs(refs, t, o, pulls)
  }

  /** A preserved name is taken by another object. */
  ghost predicate Collides(refs: Refs, pulls: bool) {
    || (pulls && exists x :: InBoth(refs, "refs/pull/", "refs/githarbor/github-pull/", x)
                             && refs["refs/pull/" + x] != refs["refs/githarbor/github-pull/" + x])
    || (exists x :: InBoth(refs, "refs/for/", "refs/githarbor/gerrit-for/", x)
                    && refs["refs/for/" + x] != refs["refs/githarbor/gerrit-for/" + x])
  }

  lemma MovedSuffix(from: string, to: string, x: string)
    ensures Under(from + x, from) && Moved(from + x, from, to) == to + x
  {
    assert (from + x)[|from|..] == x;
  }

  lemma TargetSpelled(x: string, pulls: bool)
    ensures Target("refs/pull/" + x, pulls) == if pulls then Some("refs/githarbor/github-pull/" + x) else None
    ensures Target("refs/for/" + x, pulls) == Some("refs/githarbor/gerrit-for/" + x)
  {
    MovedSuffix(PULL, PRESERVED_PULL, x);
    MovedSuffix(FOR, PRESERVED_FOR, x);
    Families("refs/for/" + x);
    hide Moved, Under;
  }

  /** A reference goes to one name only under these prefixes, and otherwise keeps its own. */
  lemma TargetMeans(r: Ref, t: Ref, pulls: bool)
    ensures Target(r, pulls) == Some(t) <==>
            || (r == t && !("refs/pull/" <= t) && !("refs/for/" <= t) && (pulls || !("refs/githarbor/github-pull/" <= t)))
            || (pulls && exists x :: t == "refs/githarbor/github-pull/" + x && r == "refs/pull/" + x)
            || (exists x :: t == "refs/githarbor/gerrit-for/" + x && r == "refs/for/" + x)
  {
    Families(r);
    if Under(r, PULL) {
      assert r == "refs/pull/" + r[|PULL|..];
      TargetSpelled(r[|PULL|..], pulls);
    } else if Under(r, FOR) {
      assert r == "refs/for/" + r[|FOR|..];
      TargetSpelled(r[|FOR|..], pulls);
    }
  }

  lemma SentAs(refs: Refs, t: Ref, o: Oid, pulls: bool)
    ensures PublishedAs(refs, t, o, pulls) <==> exists r :: Has(refs, r, o) && Target(r, pulls) == Some(t)
  {
    hide Target;
    forall x
      ensures Target("refs/pull/" + x, pulls) == if pulls then Some("refs/githarbor/github-pull/" + x) else None
      ensures Target("refs/for/" + x, pulls) == Some("refs/githarbor/gerrit-for/" + x)
    {
      TargetSpelled(x, pulls);
    }
    TargetMeans(t, t, pulls);
    forall r | Has(refs, r, o) && Target(r, pulls) == Some(t)
      ensures PublishedAs(refs, t, o, pulls)
    {
      TargetMeans(r, t, pulls);
    }
  }

  /** The published form, reference by reference and object by object. */
  lemma RemapSpelled(refs: Refs, out: Refs, pulls: bool)
    ensures IsRemap(refs, out, pulls) <==> Publishes(refs, out, pulls)
  {
    hide Target, PublishedAs;
    forall t, o
      ensures PublishedAs(refs, t, o, pulls) <==> exists r :: Has(refs, r, o) && Target(r, pulls) == Some(t)
    {
      SentAs(refs, t, o, pulls);
    }
    if IsRemap(refs, out, pulls) {
      forall t, o
        ensures Has(out, t, o) <==> PublishedAs(refs, t, o, pulls)
      {
        if Has(out, t, o) {
          assert Origin(refs, t, pulls);
          var r :| r in refs && Target(r, pulls) == Some(t);
          assert Has(refs, r, o);
        }
      }
    }
    if Publishes(refs, out, pulls) {
      PublishesIsRemap(refs, out, pulls);
    }
  }

  lemma PublishesIsRemap(refs: Refs, out: Refs, pulls: bool)
    requires Publishes(refs, out, pulls)
    ensures IsRemap(refs, out, pulls)
  {
    hide Target, PublishedAs;
    forall r | r in refs && Target(r, pulls).Some?
      ensures Has(out, Target(r, pulls).value, refs[r])
    {
      SentAs(refs, Target(r, pulls).value, refs[r], pulls);
      assert Has(refs, r, refs[r]);
    }
    forall t | t in out
      ensures Origin(refs, t, pulls)
    {
      SentAs(refs, t, out[t], pulls);
      assert Has(out, t, out[t]);
    }
  }

  lemma ConflictSpelled(refs: Refs, pulls: bool)
    ensures Conflicting(refs, pulls) <==> Collides(refs, pulls)
  {
    hide Target;
    forall r, t | r in refs && t in refs && Target(r, pulls) == Some(t) && refs[r] != refs[t]
      ensures Collides(refs, pulls)
    {
      CollidesAt(refs, r, t, pulls);
    }
    if Collides(refs, pulls) {
      CollidesConflicts(refs, pulls);
    }
  }

  lemma CollidesAt(refs: Refs, r: Ref, t: Ref, pulls: bool)
    requires r in refs && t in refs && Target(r, pulls) == Some(t) && refs[r] != refs[t]
    ensures Collides(refs, pulls)
  {
    hide Target;
    TargetMeans(r, t, pulls);
    if x :| pulls && t == "refs/githarbor/github-pull/" + x && r == "refs/pull/" + x {
      assert InBoth(refs, "refs/pull/", "refs/githarbor/github-pull/", x);
    } else {
      var x :| t == "refs/githarbor/gerrit-for/" + x && r == "refs/for/" + x;
      assert InBoth(refs, "refs/for/", "refs/githarbor/gerrit-for/", x);
    }
  }

  lemma CollidesConflicts(refs: Refs, pulls: bool)
    requires Collides(refs, pulls)
    ensures Conflicting(refs, pulls)
  {
    hide Target;
    if x :| pulls && InBoth(refs, "refs/pull/", "refs/githarbor/github-pull/", x)
            && refs["refs/pull/" + x] != refs["refs/githarbor/github-pull/" + x] {
      TargetSpelled(x, pulls);
    } else {
      var x :| InBoth(refs, "refs/for/", "refs/githarbor/gerrit-for/", x) && refs["refs/for/" + x] != refs["refs/githarbor/gerrit-for/" + x];
      TargetSpelled(x, pulls);
    }
  }

  // ---------------------------------------------------------------- transactions

  datatype RefOp = CreateRef(ref: Ref, oid: Oid) | DeleteRef(ref: Ref, oid: Oid)

  function Applied(refs: Refs, script: seq<RefOp>): Refs {
    if script == [] then refs else
      var before := Applied(refs, script[..|script| - 1]);
      match script[|script| - 1]
      case CreateRef(r, o) => before[r := o]
      case DeleteRef(r, o) => before - {r}
  }

  ghost predicate Mentions(script: seq<RefOp>, r: Ref) {
    exists i | 0 <= i < |script| :: script[i].ref == r
  }

  /** Git accepts a transaction only if it mentions each reference at most once, creates only
      absent references and deletes references at the object they have. */
  predicate Acceptable(refs: Refs, script: seq<RefOp>) {
    && (forall i, j | 0 <= i < j < |script| :: script[i].ref != script[j].ref)
    && (forall i | 0 <= i < |script| :: OpFits(refs, script[i]))
  }

  predicate OpFits(refs: Refs, op: RefOp) {
    match op
    case CreateRef(r, o) => r !in refs
    case DeleteRef(r, o) => r in refs && refs[r] == o
  }

  /** What an acceptable transaction does to each reference. */
  lemma {:induction false} AppliedAt(refs: Refs, script: seq<RefOp>, r: Ref)
    requires Acceptable(refs, script)
    ensures !Mentions(script, r) ==> (r in Applied(refs, script) <==> r in refs) && (r in refs ==> Applied(refs, script)[r] == refs[r])
    ensures forall i | 0 <= i < |script| && script[i].ref == r ::
              if script[i].CreateRef? then r in Applied(refs, script) && Applied(refs, script)[r] == script[i].oid
              else r !in Applied(refs, script)
  {
    if script != [] {
      var n := |script| - 1;
      var rest := script[..n];
      AppliedAt(refs, rest, r);
      assert script[n].ref == r ==> Mentions(script, r);
      if Mentions(rest, r) {
        var i :| 0 <= i < |rest| && rest[i].ref == r;
        assert script[i] == rest[i];
        assert Mentions(script, r);
      }
      forall i | 0 <= i < n && script[i].ref == r
        ensures script[n].ref != r && rest[i] == script[i]
      {
      }
    }
  }

  // ---------------------------------------------------------------- building one

  /** The script so far does exactly what the references in `done` need. */
  ghost predicate Covers(refs: Refs, script: seq<RefOp>, done: set<Ref>, pulls: bool) {
    && Acceptable(refs, script)
    && (forall i | 0 <= i < |script| :: Justified(refs, script[i], done, pulls))
    && (forall r | r in done && r in refs :: Done(refs, script, r, pulls))
  }

  ghost predicate Justified(refs: Refs, op: RefOp, done: set<Ref>, pulls: bool) {
    match op
    case CreateRef(t, o) => exists r :: r in done && r in refs && Target(r, pulls) == Some(t) && refs[r] == o
    case DeleteRef(r, o) => r in done && Target(r, pulls) != Some(r)
  }

  ghost predicate Done(refs: Refs, script: seq<RefOp>, r: Ref, pulls: bool)
    requires r in refs
  {
    Target(r, pulls) != Some(r) ==>
      && DeleteRef(r, refs[r]) in script
      && (Target(r, pulls).Some? ==>
            var t := Target(r, pulls).value;
            if t in refs then refs[t] == refs[r] else CreateRef(t, refs[r]) in script)
  }

  lemma CoversNothing(refs: Refs, pulls: bool)
    ensures Covers(refs, [], {}, pulls)
  {
  }

  lemma Grow(refs: Refs, script: seq<RefOp>, more: seq<RefOp>, done: set<Ref>, r: Ref, pulls: bool)
    requires Covers(refs, script, done, pulls)
    requires Acceptable(refs, script + more) && (forall i | 0 <= i < |more| :: Justified(refs, more[i], done + {r}, pulls))
    requires r in refs ==> Done(refs, script + more, r, pulls)
    ensures Covers(refs, script + more, done + {r}, pulls)
  {
    hide Target, OpFits, Acceptable;
    forall i | 0 <= i < |script + more|
      ensures Justified(refs, (script + more)[i], done + {r}, pulls)
    {
      if i < |script| {
        assert (script + more)[i] == script[i] && Justified(refs, script[i], done, pulls);
      }
    }
    forall s | s in done + {r} && s in refs
      ensures Done(refs, script + more, s, pulls)
    {
      if s != r {
        assert Done(refs, script, s, pulls);
      }
    }
  }

  /** A new operation on a reference not mentioned yet keeps the transaction acceptable. */
  lemma StillAcceptable(refs: Refs, script: seq<RefOp>, op: RefOp)
    requires Acceptable(refs, script) && OpFits(refs, op) && !Mentions(script, op.ref)
    ensures Acceptable(refs, script + [op])
  {
  }

  lemma NotMentioned(refs: Refs, script: seq<RefOp>, done: set<Ref>, r: Ref, pulls: bool)
    requires Covers(refs, script, done, pulls) && r !in done && r in refs && Target(r, pulls) != Some(r)
    ensures !Mentions(script, r)
    ensures Target(r, pulls).Some? && Target(r, pulls).value !in refs ==> !Mentions(script, Target(r, pulls).value)
  {
    hide Target, Applied;
    forall i | 0 <= i < |script|
      ensures script[i].ref != r
      ensures Target(r, pulls).Some? && Target(r, pulls).value !in refs ==> script[i].ref != Target(r, pulls).value
    {
      assert Justified(refs, script[i], done, pulls) && OpFits(refs, script[i]);
      if script[i].CreateRef? {
        var s :| s in done && s in refs && Target(s, pulls) == Some(script[i].ref) && refs[s] == script[i].oid;
        if Target(r, pulls) == Target(s, pulls) {
          assert Target(s, pulls) != Some(s);
          TargetInjective(r, s, pulls);
        }
      }
    }
  }

  lemma Dropped(refs: Refs, script: seq<RefOp>, done: set<Ref>, r: Ref, pulls: bool)
    requires Covers(refs, script, done, pulls) && r !in done && r in refs && Target(r, pulls) == None
    ensures Covers(refs, script + [DeleteRef(r, refs[r])], done + {r}, pulls)
  {
    hide Target;
    NotMentioned(refs, script, done, r, pulls);
    StillAcceptable(refs, script, DeleteRef(r, refs[r]));
    Grow(refs, script, [DeleteRef(r, refs[r])], done, r, pulls);
  }

  lemma Relocated(refs: Refs, script: seq<RefOp>, done: set<Ref>, r: Ref, t: Ref, pulls: bool)
    requires Covers(refs, script, done, pulls) && r !in done && r in refs && Target(r, pulls) == Some(t) && t != r
    requires t in refs ==> refs[t] == refs[r]
    ensures Covers(refs, script + (if t in refs then [] else [CreateRef(t, refs[r])]) + [DeleteRef(r, refs[r])], done + {r}, pulls)
  {
    hide Target;
    NotMentioned(refs, script, done, r, pulls);
    var create := if t in refs then [] else [CreateRef(t, refs[r])];
    if t !in refs {
      StillAcceptable(refs, script, create[0]);
    } else {
      assert script + create == script;
    }
    assert !Mentions(script + create, r) by {
      forall i | 0 <= i < |script + create|
        ensures (script + create)[i].ref != r
      {
        if i < |script| {
          assert (script + create)[i] == script[i];
        }
      }
    }
    StillAcceptable(refs, script + create, DeleteRef(r, refs[r]));
    var more := create + [DeleteRef(r, refs[r])];
    assert script + more == script + create + [DeleteRef(r, refs[r])];
    assert more[|more| - 1] == DeleteRef(r, refs[r]);
    assert t !in refs ==> more[0] == CreateRef(t, refs[r]);
    Grow(refs, script, more, done, r, pulls);
  }

  /** The references the listing command selects. */
  predicate Special(r: Ref) {
    Under(r, PULL) || Under(r, PRESERVED_PULL) || Under(r, FOR) || Under(r, PRESERVED_FOR)
  }

  ghost predicate Complete(refs: Refs, done: set<Ref>, pulls: bool) {
    forall r | r in refs && Target(r, pulls) != Some(r) :: r in done
  }

  /** Once every reference that has to move is done, the transaction yields the published form. */
  lemma CoversRemap(refs: Refs, script: seq<RefOp>, done: set<Ref>, pulls: bool)
    requires Covers(refs, script, done, pulls) && Complete(refs, done, pulls)
    ensures IsRemap(refs, Applied(refs, script), pulls)
  {
    hide Target, Applied, Acceptable;
    var out := Applied(refs, script);
    forall r | r in refs && Target(r, pulls).Some?
      ensures Target(r, pulls).value in out && out[Target(r, pulls).value] == refs[r]
    {
      Published(refs, script, done, r, pulls);
    }
    forall t | t in out
      ensures Origin(refs, t, pulls)
    {
      HasOrigin(refs, script, done, t, pulls);
    }
  }

  lemma Published(refs: Refs, script: seq<RefOp>, done: set<Ref>, r: Ref, pulls: bool)
    requires Covers(refs, script, done, pulls) && Complete(refs, done, pulls) && r in refs && Target(r, pulls).Some?
    ensures Target(r, pulls).value in Applied(refs, script) && Applied(refs, script)[Target(r, pulls).value] == refs[r]
  {
    hide Target, Applied;
    var t := Target(r, pulls).value;
    AppliedAt(refs, script, t);
    TargetShape(r, pulls);
    if t != r {
      assert Done(refs, script, r, pulls);
    }
    if t in refs {
      assert !Mentions(script, t) by {
        forall i | 0 <= i < |script|
          ensures script[i].ref != t
        {
          assert Justified(refs, script[i], done, pulls) && OpFits(refs, script[i]);
        }
      }
    }
  }

  lemma DeletedIsGone(refs: Refs, script: seq<RefOp>, done: set<Ref>, r: Ref, pulls: bool)
    requires Covers(refs, script, done, pulls) && Complete(refs, done, pulls) && r in refs && Target(r, pulls) != Some(r)
    ensures r !in Applied(refs, script)
  {
    hide Target, Applied;
    AppliedAt(refs, script, r);
    assert Done(refs, script, r, pulls);
    var i :| 0 <= i < |script| && script[i] == DeleteRef(r, refs[r]);
  }

  lemma HasOrigin(refs: Refs, script: seq<RefOp>, done: set<Ref>, t: Ref, pulls: bool)
    requires Covers(refs, script, done, pulls) && Complete(refs, done, pulls) && t in Applied(refs, script)
    ensures Origin(refs, t, pulls)
  {
    hide Target, Applied;
    AppliedAt(refs, script, t);
    if t in refs {
      if Target(t, pulls) != Some(t) {
        DeletedIsGone(refs, script, done, t, pulls);
      }
    } else {
      assert Mentions(script, t);
      var i :| 0 <= i < |script| && script[i].ref == t;
      assert Justified(refs, script[i], done, pulls) && OpFits(refs, script[i]);
    }
  }

  // ---------------------------------------------------------------- fetching

  /** What the local mirror holds after a fetch that prunes: the source's references; pull
      references, when excluded, are neither fetched nor pruned. */
  function Fetched(source: Refs, local: Refs, pulls: bool): Refs {
    map r | r in source.Keys + local.Keys && (if !pulls && Under(r, PULL) then r in local else r in source) ::
      if !pulls && Under(r, PULL) then local[r] else source[r]
  }

  /** What was left in the local mirror from earlier runs makes no difference to what is published. */
  lemma FetchedRemap(source: Refs, local: Refs, out: Refs, pulls: bool)
    ensures IsRemap(Fetched(source, local, pulls), out, pulls) <==> IsRemap(source, out, pulls)
    ensures Conflicting(Fetched(source, local, pulls), pulls) <==> Conflicting(source, pulls)
    ensures forall t :: Origin(Fetched(source, local, pulls), t, pulls) <==> Origin(source, t, pulls)
  {
    hide Moved;
    var f := Fetched(source, local, pulls);
    forall r | Target(r, pulls).Some?
      ensures (r in f <==> r in source) && (r in f ==> f[r] == source[r])
    {
    }
    SameTargets(f, source, out, pulls);
    SameTargets(source, f, out, pulls);
  }

  lemma SameTargets(a: Refs, b: Refs, out: Refs, pulls: bool)
    requires forall r | Target(r, pulls).Some? :: (r in a <==> r in b) && (r in a ==> a[r] == b[r])
    ensures IsRemap(a, out, pulls) ==> IsRemap(b, out, pulls)
    ensures Conflicting(a, pulls) ==> Conflicting(b, pulls)
    ensures forall t :: Origin(a, t, pulls) ==> Origin(b, t, pulls)
  {
    forall r, t | r in a && t in a && Target(r, pulls) == Some(t) && a[r] != a[t]
      ensures Conflicting(b, pulls)
    {
      TargetShape(r, pulls);
      assert r in b && t in b && b[r] != b[t];
    }
    hide Target;
    forall t | Origin(a, t, pulls)
      ensures Origin(b, t, pulls)
    {
      var r :| r in a && Target(r, pulls) == Some(t);
      assert r in b;
    }
  }
}
