/** Reconciling source listings with the repository table, as githarbor/services/reconciliation.py
    does it: one transaction that refreshes, adds and retires rows. */
module Reconciliation {
  import opened Wrappers
  import opened Naming
  import opened ReconcileState

  /** The repository table. A transaction works on a copy that replaces it when it commits. */
  class Repositories {
    var rows: seq<Row>
    var nextId: int

    constructor ()
      ensures Valid() && rows == []
    {
      rows, nextId := [], 1;
    }

    ghost predicate Valid()
      reads this
    {
      Unique(rows) && IdsBelow(rows, nextId)
    }
  }

  ghost predicate IdsBelow(rows: seq<Row>, nextId: int) {
    forall i | 0 <= i < |rows| :: rows[i].id < nextId
  }

  // ---------------------------------------------------------------- steps of the loops

  /** Where the loop stands after the entries `us`. */
  ghost predicate LoopState(before: seq<Row>, rows: seq<Row>, nextId: int, all: seq<Upstream>, us: seq<Upstream>, kind: Kind,
                            ids: seq<int>) {
    && Partial(before, rows, us, kind) && IdsBelow(rows, nextId)
    && AllKnown(rows, Keys(us), kind) && ids == IdsOf(rows, Keys(us), kind)
    && (Reconciled(before, all, kind) ==> rows == before)
    && (GoodNames(before) ==> GoodNames(rows))
  }

  lemma LoopStarts(before: seq<Row>, nextId: int, all: seq<Upstream>, kind: Kind)
    requires Unique(before) && IdsBelow(before, nextId)
    ensures LoopState(before, before, nextId, all, [], kind, [])
  {
  }

  lemma LoopSkips(before: seq<Row>, rows: seq<Row>, nextId: int, all: seq<Upstream>, us: seq<Upstream>, u: Upstream, kind: Kind, ids: seq<int>)
    requires LoopState(before, rows, nextId, all, us, kind, ids) && Listed(us, u.key)
    ensures LoopState(before, rows, nextId, all, us + [u], kind, ids)
  {
    hide Partial, IdsBelow, Listed, Known, IdsOf, AllKnown, Reconciled, GoodNames;
    SkipEntry(before, rows, us, u, kind);
  }

  lemma LoopRefreshes(before: seq<Row>, rows: seq<Row>, nextId: int, all: seq<Upstream>, us: seq<Upstream>, u: Upstream, kind: Kind, ids: seq<int>)
    requires LoopState(before, rows, nextId, all, us, kind, ids) && !Listed(us, u.key) && Known(rows, u.key, kind)
    requires Listed(all, u.key) && First(all, u.key) == u
    ensures var i := Find(rows, u.key, kind);
            LoopState(before, rows[i := Refreshed(rows[i], u)], nextId, all, us + [u], kind, ids + [rows[i].id])
  {
    hide Partial, Listed, Known, IdsOf, AllKnown, Keys, First, Find, HasSuffix, Doubles;
    var i := Find(rows, u.key, kind);
    var rows' := rows[i := Refreshed(rows[i], u)];
    RefreshEntry(before, rows, us, u, kind);
    PartialUnique(before, rows', us + [u], kind);
    KnownAt(rows', i);
    IdsMore(rows, rows', Keys(us), u.key, kind);
    forall j | 0 <= j < |rows|
      ensures GoodName(rows[j]) <==> GoodName(rows'[j])
    {
    }
    if Reconciled(before, all, kind) {
      assert rows[i] == Refreshed(rows[i], First(all, rows[i].key));
      assert rows' == rows;
    }
  }

  lemma KnownAt(rows: seq<Row>, i: nat)
    requires i < |rows|
    ensures Known(rows, rows[i].key, rows[i].kind)
  {
  }

  lemma PartialUnique(before: seq<Row>, rows: seq<Row>, us: seq<Upstream>, kind: Kind)
    requires Partial(before, rows, us, kind)
    ensures Unique(rows) && Grown(before, rows, us, kind) && AllListedKnown(rows, us, kind) && AsListed(before, rows, us, kind)
  {
  }

  lemma LoopInserts(before: seq<Row>, rows: seq<Row>, nextId: int, all: seq<Upstream>, us: seq<Upstream>, u: Upstream, kind: Kind,
                    ids: seq<int>, d: Destination)
    requires LoopState(before, rows, nextId, all, us, kind, ids) && !Listed(us, u.key) && !Known(rows, u.key, kind)
    requires Listed(all, u.key) && Free(rows, d) && GoodName(NewRow(nextId, u, kind, d))
    ensures LoopState(before, rows + [NewRow(nextId, u, kind, d)], nextId + 1, all, us + [u], kind, ids + [nextId])
  {
    hide Partial, Listed, Known, IdsOf, AllKnown, Keys, First, Find, GoodName;
    var row := NewRow(nextId, u, kind, d);
    var rows' := rows + [row];
    NewRowFits(rows, nextId, d);
    InsertEntry(before, rows, us, u, kind, nextId, d);
    PartialUnique(before, rows', us + [u], kind);
    assert rows'[|rows|] == row;
    KnownAt(rows', |rows|);
    IdsMore(rows, rows', Keys(us), u.key, kind);
    assert Reconciled(before, all, kind) ==> Known(before, u.key, kind);
  }

  lemma NewRowFits(rows: seq<Row>, nextId: int, d: Destination)
    requires IdsBelow(rows, nextId) && Free(rows, d)
    ensures !Taken(rows, d.namespace, d.name) && forall i | 0 <= i < |rows| :: rows[i].id != nextId
  {
  }

  // ---------------------------------------------------------------- retiring what is not listed

  ghost predicate RetiredAfter(rows: seq<Row>, rows': seq<Row>, us: seq<Upstream>, kind: Kind) {
    |rows'| == |rows| && forall i | 0 <= i < |rows| ::
      rows'[i] == if rows[i].kind == kind && !Listed(us, rows[i].key) then Retired(rows[i]) else rows[i]
  }

  /** Marks the rows of the kind that were not listed. */
  method RetireOthers(known: seq<Row>, seen: set<Key>, kind: Kind, ghost us: seq<Upstream>) returns (rows: seq<Row>)
    requires forall k :: k in seen <==> Listed(us, k)
    ensures RetiredAfter(known, rows, us, kind)
  {
    rows := known;
    hide Listed, Retired;
    var i := 0;
    while i < |known|
      invariant i <= |known| && |rows| == |known|
      invariant forall j | i <= j < |known| :: rows[j] == known[j]
      invariant forall j | 0 <= j < i ::
                  rows[j] == if known[j].kind == kind && !Listed(us, known[j].key) then Retired(known[j]) else known[j]
    {
      if rows[i].kind == kind && rows[i].key !in seen {
        rows := rows[i := Retired(rows[i])];
      }
      i := i + 1;
    }
  }

  /** What a committed run returned and left, for a listing of one kind. */
  ghost predicate Committed(before: seq<Row>, rows: seq<Row>, us: seq<Upstream>, kind: Kind, ids: seq<int>) {
    && Unique(rows) && Grown(before, rows, us, kind) && Reconciled(rows, us, kind) && Reported(before, rows, us, kind)
    && AllKnown(rows, Keys(us), kind) && ids == IdsOf(rows, Keys(us), kind)
  }

  lemma RetiredUnique(rows: seq<Row>, rows': seq<Row>, us: seq<Upstream>, kind: Kind)
    requires RetiredAfter(rows, rows', us, kind) && Unique(rows)
    ensures Unique(rows') && Extends(rows, rows')
  {
    forall i | 0 <= i < |rows|
      ensures SameIdentity(rows[i], rows'[i])
    {
    }
    forall a, b | 0 <= a < b < |rows'|
      ensures !Clash(rows'[a], rows'[b])
    {
      assert !Clash(rows[a], rows[b]) && SameIdentity(rows[a], rows'[a]) && SameIdentity(rows[b], rows'[b]);
    }
  }

  lemma Finished(before: seq<Row>, rows: seq<Row>, rows': seq<Row>, nextId: int, us: seq<Upstream>, kind: Kind, ids: seq<int>)
    requires LoopState(before, rows, nextId, us, us, kind, ids) && RetiredAfter(rows, rows', us, kind)
    ensures Committed(before, rows', us, kind, ids) && IdsBelow(rows', nextId)
    ensures GoodNames(before) ==> GoodNames(rows')
    ensures forall i | 0 <= i < |rows| :: SameIdentity(rows[i], rows'[i])
    ensures Reconciled(before, us, kind) ==> rows' == before
  {
    PartialUnique(before, rows, us, kind);
    RetiredUnique(rows, rows', us, kind);
    IdsStable(rows, rows', Keys(us), kind);
    hide Partial, Unique, IdsOf, AllKnown, Keys, Find, HasSuffix, Doubles, First;
    forall k | Listed(us, k)
      ensures Known(rows', k, kind)
    {
      ExtendsKnown(rows, rows', k, kind);
    }
    hide Listed, Known;
    FinishedRows(before, rows, rows', us, kind);
    forall i | 0 <= i < |rows|
      ensures GoodName(rows[i]) <==> GoodName(rows'[i])
    {
      assert SameIdentity(rows[i], rows'[i]);
    }
    if Reconciled(before, us, kind) {
      forall i | 0 <= i < |rows|
        ensures rows'[i] == rows[i]
      {
      }
    }
  }

  lemma FinishedRows(before: seq<Row>, rows: seq<Row>, rows': seq<Row>, us: seq<Upstream>, kind: Kind)
    requires Grown(before, rows, us, kind) && AsListed(before, rows, us, kind) && RetiredAfter(rows, rows', us, kind)
    requires forall k | Listed(us, k) :: Known(rows', k, kind)
    ensures Grown(before, rows', us, kind) && Reconciled(rows', us, kind) && Reported(before, rows', us, kind)
  {
    hide Listed, Known, First;
    forall i | 0 <= i < |rows| && rows[i].kind == kind
      ensures RowReported(if i < |before| then Some(before[i]) else None, rows'[i], us)
    {
      assert RowAsListed(if i < |before| then Some(before[i]) else None, rows[i], us);
    }
    forall i | 0 <= i < |rows|
      ensures SameIdentity(rows[i], rows'[i]) && (rows[i].kind != kind ==> rows'[i] == rows[i])
      ensures rows[i].kind == kind ==>
                rows'[i] == if Listed(us, rows[i].key) then Refreshed(rows'[i], First(us, rows[i].key)) else Retired(rows'[i])
    {
      assert rows[i].kind == kind ==> RowAsListed(if i < |before| then Some(before[i]) else None, rows[i], us);
    }
  }

  // ---------------------------------------------------------------- GitHub listings

  ghost predicate GitHubListing(us: seq<Upstream>) {
    forall i | 0 <= i < |us| :: us[i].key.GitHub?
  }

  /** Owners of up to 39 characters and ids of up to 54 digits. */
  ghost predicate Short(us: seq<Upstream>) {
    forall i | 0 <= i < |us| && us[i].key.GitHub? :: |us[i].owner| <= 39 && |Suffix(us[i].key.id)| <= 58
  }

  /** A chosen name is free and follows the rules; it is the first choice wherever that is free,
      and otherwise a starred repository's second one; an owned repository has no second choice, and
      a starred one of ordinary length always has one. */
  ghost predicate Choice(rows: seq<Row>, u: Upstream, kind: Kind, namespace: string, name: Result<string>)
    requires u.key.GitHub?
  {
    && (name.Success? ==> Want(u, kind, namespace).Some? && Free(rows, Destination(namespace, name.value)))
    && (name.Success? ==> forall id :: GoodName(NewRow(id, u, kind, Destination(namespace, name.value))))
    && (name.Success? ==> IsChoice(rows, u, kind, namespace, name.value))
    && (forall p | IsPreferred(u.owner, u.name, kind, p) && !Taken(rows, namespace, p) :: name == Success(p))
    && (kind == Owned ==>
          match Want(u, kind, namespace)
          case None => name.Failure?
          case Some(d) => if Free(rows, d) then name == Success(d.name) else name.Failure?)
    && (kind == Starred && GoodNames(rows) && !Known(rows, u.key, kind) && |u.owner| <= 39 && |Suffix(u.key.id)| <= 58 ==>
          (name.Success? <==> Want(u, kind, namespace).Some?))
  }

  /** A name for a new row: the preferred one, or for a starred repository its suffixed one when
      the preferred one is taken. The unique constraint rejects a taken name. */
  method ChooseName(rows: seq<Row>, u: Upstream, kind: Kind, namespace: string) returns (name: Result<string>)
    requires u.key.GitHub? && kind != External
    ensures Choice(rows, u, kind, namespace, name)
  {
    hide Suffix, Doubles, Taken, Known, GoodNames, HasSuffix, DestinationName, CollisionDestinationName, IsPreferred, IsSuffixed;
    PreferredAre(u.owner, u.name, u.key.id, kind);
    var preferred := DestinationName(u.owner, u.name, u.key.id, kind);
    if preferred.Failure? {
      return Failure;
    }
    PreferredDoubles(u.owner, u.name, u.key.id, kind);
    name := preferred;
    if Taken(rows, namespace, name.value) {
      name := CollisionDestinationName(u.owner, u.name, u.key.id, kind);
      CollisionIs(u.owner, u.name, u.key.id, kind);
      if kind == Starred {
        SuffixedIs(u.owner, u.name, u.key.id, preferred.value);
      }
      if kind == Starred && GoodNames(rows) && !Known(rows, u.key, kind) && |u.owner| <= 39 && |Suffix(u.key.id)| <= 58 {
        SuffixedIsFree(rows, namespace, u.owner, u.name, u.key.id);
      }
    }
    if Taken(rows, namespace, name.value) {
      return Failure;
    }
  }

  lemma CollisionIs(owner: string, name: string, githubId: nat, kind: Kind)
    requires DestinationName(owner, name, githubId, kind).Success?
    ensures var c := CollisionDestinationName(owner, name, githubId, kind);
            c.Success? && if kind == Starred then HasSuffix(c.value, githubId) else c == DestinationName(owner, name, githubId, kind)
  {
    hide DestinationName, Suffix;
  }

  /** What the loop knows about the new rows' destinations. */
  ghost predicate Named(before: seq<Row>, rows: seq<Row>, us: seq<Upstream>, i: nat, kind: Kind, namespace: string)
    requires i <= |us|
  {
    && Nameable(before, us[..i], kind, namespace)
    && (kind != Starred || Clear(before, us, kind, namespace) ==> AsWanted(before, rows, us, kind, namespace))
    && (kind != External ==> AsChosen(before, rows, kind, namespace))
  }

  lemma NamedStarts(before: seq<Row>, us: seq<Upstream>, kind: Kind, namespace: string)
    ensures Named(before, before, us, 0, kind, namespace) && forall k :: !Listed(us[..0], k)
  {
    hide Want, First, Known, Clear, IsChoice;
  }

  lemma SeenMore(us: seq<Upstream>, i: nat, seen: set<Key>)
    requires i < |us| && forall k :: k in seen <==> Listed(us[..i], k)
    ensures us[..i + 1] == us[..i] + [us[i]]
    ensures forall k :: k in seen + {us[i].key} <==> Listed(us[..i + 1], k)
  {
    assert us[..i + 1] == us[..i] + [us[i]];
    ListedMore(us[..i], us[i]);
    hide Listed, First, Keys;
  }

  lemma NamedSkips(before: seq<Row>, rows: seq<Row>, us: seq<Upstream>, i: nat, kind: Kind, namespace: string)
    requires i < |us| && Named(before, rows, us, i, kind, namespace)
    requires Listed(us[..i], us[i].key) || Known(before, us[i].key, kind)
    ensures Named(before, rows, us, i + 1, kind, namespace)
  {
    assert us[..i + 1] == us[..i] + [us[i]];
    ListedMore(us[..i], us[i]);
    hide Listed, First, Keys, Want, Known, AsWanted, AsChosen, Clear;
  }

  lemma NamedRefreshes(before: seq<Row>, rows: seq<Row>, us: seq<Upstream>, i: nat, kind: Kind, namespace: string)
    requires i < |us| && Named(before, rows, us, i, kind, namespace) && Partial(before, rows, us[..i], kind)
    requires !Listed(us[..i], us[i].key) && Known(rows, us[i].key, kind)
    ensures var j := Find(rows, us[i].key, kind);
            Named(before, rows[j := Refreshed(rows[j], us[i])], us, i + 1, kind, namespace)
  {
    hide First, Keys, Want, Listed, Unique, AllListedKnown, Clear, AsWanted, AsChosen, Nameable;
    var j := Find(rows, us[i].key, kind);
    var rows' := rows[j := Refreshed(rows[j], us[i])];
    assert RowAsListed(if j < |before| then Some(before[j]) else None, rows[j], us[..i]);
    assert j < |before|;
    forall a | 0 <= a < |rows|
      ensures SameIdentity(rows[a], rows'[a]) && (|before| <= a ==> rows'[a] == rows[a])
    {
    }
    if kind != Starred || Clear(before, us, kind, namespace) {
      WantedKept(before, rows, rows', us, kind, namespace);
    }
    if kind != External {
      ChosenKept(before, rows, rows', kind, namespace);
    }
    hide Known, Find, Refreshed, SameIdentity, RowAsListed, AsListed;
    NamedSkips(before, rows', us, i, kind, namespace);
  }

  lemma NamedInserts(before: seq<Row>, rows: seq<Row>, us: seq<Upstream>, i: nat, kind: Kind, namespace: string, id: int, d: Destination)
    requires i < |us| && Named(before, rows, us, i, kind, namespace) && !Listed(us[..i], us[i].key) && |before| <= |rows|
    requires Want(us[i], kind, namespace).Some?
    requires kind != Starred || Clear(before, us, kind, namespace) ==> Want(us[i], kind, namespace).value == d
    requires kind != External ==> d.namespace == namespace && IsChoice(rows, us[i], kind, namespace, d.name)
    ensures Named(before, rows + [NewRow(id, us[i], kind, d)], us, i + 1, kind, namespace)
  {
    hide Listed, First, Keys, Want, Known, Nameable, AsWanted, AsChosen, IsChoice, Clear;
    NameableMore(before, us, i, kind, namespace);
    if kind != External {
      ChosenMore(before, rows, NewRow(id, us[i], kind, d), kind, namespace);
    }
    if kind != Starred || Clear(before, us, kind, namespace) {
      FirstIsAt(us, i);
      AsWantedMore(before, rows, NewRow(id, us[i], kind, d), us, kind, namespace);
    }
  }

  lemma NameableMore(before: seq<Row>, us: seq<Upstream>, i: nat, kind: Kind, namespace: string)
    requires i < |us| && Nameable(before, us[..i], kind, namespace)
    requires !Listed(us[..i], us[i].key) && Want(us[i], kind, namespace).Some?
    ensures Nameable(before, us[..i + 1], kind, namespace)
  {
    hide Listed, First, Keys, Want, Known;
    var some, more := us[..i], us[..i + 1];
    assert more == some + [us[i]];
    ListedMore(some, us[i]);
    forall k | New(before, more, k, kind)
      ensures Want(First(more, k), kind, namespace).Some?
    {
      if k != us[i].key {
        assert New(before, some, k, kind);
      }
    }
  }

  lemma AsWantedMore(before: seq<Row>, rows: seq<Row>, row: Row, us: seq<Upstream>, kind: Kind, namespace: string)
    requires AsWanted(before, rows, us, kind, namespace) && |before| <= |rows| && Listed(us, row.key)
    requires Want(First(us, row.key), kind, namespace) == Some(Destination(row.namespace, row.name))
    ensures AsWanted(before, rows + [row], us, kind, namespace)
  {
    hide Listed, First, Want;
  }

  /** What choosing a name means for the whole listing. */
  lemma Choosing(before: seq<Row>, rows: seq<Row>, us: seq<Upstream>, i: nat, kind: Kind, namespace: string, name: Result<string>)
    requires i < |us| && Named(before, rows, us, i, kind, namespace) && Partial(before, rows, us[..i], kind)
    requires !Listed(us[..i], us[i].key) && !Known(rows, us[i].key, kind) && us[i].key.GitHub? && kind != External
    requires Choice(rows, us[i], kind, namespace, name) && (GoodNames(before) ==> GoodNames(rows))
    ensures name.Failure? ==> !Reconciled(before, us, kind)
    ensures name.Failure? && kind == Owned ==> !Clear(before, us, kind, namespace)
    ensures name.Failure? && kind == Starred && GoodNames(before) && Short(us) ==> !Nameable(before, us, kind, namespace)
  {
    PartialUnique(before, rows, us[..i], kind);
    NotKnownBefore(before, rows, us[i].key, kind);
    FirstIsAt(us, i);
    assert New(before, us, us[i].key, kind);
    if name.Failure? && kind == Owned && Want(us[i], kind, namespace).Some? {
      TakenIsNotClear(before, rows, us, i, kind, namespace);
    }
    hide Listed, First, Keys, Want, Known, Partial, Suffix, AsWanted, Free, GoodNames, IsPreferred, IsChoice, AsChosen, Clear;
  }

  /** The chosen name is the wanted one for an owned repository, and wherever the wanted
      destinations were clear. */
  lemma ChosenIsWanted(before: seq<Row>, rows: seq<Row>, us: seq<Upstream>, i: nat, kind: Kind, namespace: string, name: Result<string>)
    requires i < |us| && Named(before, rows, us, i, kind, namespace) && Partial(before, rows, us[..i], kind)
    requires !Listed(us[..i], us[i].key) && !Known(rows, us[i].key, kind) && us[i].key.GitHub? && kind != External
    requires Choice(rows, us[i], kind, namespace, name) && name.Success? && (kind == Starred ==> Clear(before, us, kind, namespace))
    ensures Want(us[i], kind, namespace) == Some(Destination(namespace, name.value))
  {
    hide *;
    NamedWanted(before, rows, us, i, kind, namespace);
    ChoiceTakes(rows, us[i], kind, namespace, name);
    if kind == Starred && !Free(rows, Want(us[i], kind, namespace).value) {
      TakenIsNotClear(before, rows, us, i, kind, namespace);
    }
  }

  lemma NamedWanted(before: seq<Row>, rows: seq<Row>, us: seq<Upstream>, i: nat, kind: Kind, namespace: string)
    requires i <= |us| && Named(before, rows, us, i, kind, namespace) && (kind == Starred ==> Clear(before, us, kind, namespace))
    ensures AsWanted(before, rows, us, kind, namespace)
  {
    hide Nameable, Clear, AsWanted, AsChosen;
  }

  lemma ChoiceTakes(rows: seq<Row>, u: Upstream, kind: Kind, namespace: string, name: Result<string>)
    requires u.key.GitHub? && kind != External && Choice(rows, u, kind, namespace, name) && name.Success?
    ensures var d := Want(u, kind, namespace);
            d.Some? && (kind == Owned || Free(rows, d.value) ==> d.value == Destination(namespace, name.value))
  {
    WantIs(u, kind, namespace);
    hide Want, IsPreferred, IsChoice, GoodName, GoodNames, Known, Suffix, Taken;
  }

  lemma WantIs(u: Upstream, kind: Kind, namespace: string)
    requires u.key.GitHub? && kind != External && Want(u, kind, namespace).Some?
    ensures var d := Want(u, kind, namespace).value; d.namespace == namespace && IsPreferred(u.owner, u.name, kind, d.name)
  {
    PreferredAre(u.owner, u.name, u.key.id, kind);
    hide IsPreferred, DestinationName;
  }

  lemma LoopEnds(before: seq<Row>, rows: seq<Row>, us: seq<Upstream>, kind: Kind, namespace: string)
    requires Named(before, rows, us, |us|, kind, namespace) && Partial(before, rows, us[..|us|], kind)
    ensures Nameable(before, us, kind, namespace) && (kind != Starred ==> Clear(before, us, kind, namespace))
    ensures kind != Starred || Clear(before, us, kind, namespace) ==> AsWanted(before, rows, us, kind, namespace)
    ensures kind != External ==> AsChosen(before, rows, kind, namespace)
  {
    assert us[..|us|] == us;
    PartialUnique(before, rows, us, kind);
    hide Listed, First, Want, Partial, AsWanted, Nameable, Clear, AsListed, Grown, AllListedKnown, AsChosen;
    if kind != Starred {
      FinishedIsClear(before, rows, us, kind, namespace);
    }
  }

  /** Retiring rows leaves the names of the new ones. */
  lemma RetiredNames(before: seq<Row>, rows: seq<Row>, rows': seq<Row>, us: seq<Upstream>, kind: Kind, namespace: string)
    requires RetiredAfter(rows, rows', us, kind) && forall i | 0 <= i < |rows| :: SameIdentity(rows[i], rows'[i])
    ensures AsWanted(before, rows, us, kind, namespace) ==> AsWanted(before, rows', us, kind, namespace)
    ensures AsChosen(before, rows, kind, namespace) ==> AsChosen(before, rows', kind, namespace)
  {
    hide AsWanted, AsChosen, Listed, SameIdentity;
    if AsWanted(before, rows, us, kind, namespace) {
      WantedKept(before, rows, rows', us, kind, namespace);
    }
    if AsChosen(before, rows, kind, namespace) {
      ChosenKept(before, rows, rows', kind, namespace);
    }
  }

  lemma PlacedAsListed(before: seq<Row>, rows: seq<Row>, us: seq<Upstream>, ids: seq<int>)
    requires Committed(before, rows, us, External, ids) && AsWanted(before, rows, us, External, "")
    ensures forall i | |before| <= i < |rows| :: rows[i].upstream.place == Some(Destination(rows[i].namespace, rows[i].name))
  {
    hide Listed, First, Known, Unique, IdsOf, AllKnown, Keys;
  }

  lemma LoopParts(before: seq<Row>, rows: seq<Row>, nextId: int, all: seq<Upstream>, us: seq<Upstream>, kind: Kind, ids: seq<int>)
    requires LoopState(before, rows, nextId, all, us, kind, ids)
    ensures Partial(before, rows, us, kind) && |before| <= |rows| && (GoodNames(before) ==> GoodNames(rows))
  {
    hide Unique, AllListedKnown, AsListed, GoodNames, Reconciled;
  }

  lemma Chosen(rows: seq<Row>, u: Upstream, kind: Kind, namespace: string, name: Result<string>, id: int)
    requires u.key.GitHub? && kind != External && Choice(rows, u, kind, namespace, name) && name.Success?
    ensures var d := Destination(namespace, name.value);
            Want(u, kind, namespace).Some? && Free(rows, d) && GoodName(NewRow(id, u, kind, d))
            && IsChoice(rows, u, kind, namespace, d.name)
  {
    hide GoodName, Known, GoodNames, Suffix, Free, DestinationName, IsChoice, IsPreferred;
  }

  lemma DbParts(db: Repositories)
    ensures db.Valid() <==> Unique(db.rows) && IdsBelow(db.rows, db.nextId)
  {
  }

  lemma CommittedUnique(before: seq<Row>, rows: seq<Row>, us: seq<Upstream>, kind: Kind, ids: seq<int>)
    requires Committed(before, rows, us, kind, ids)
    ensures Unique(rows)
  {
  }

  lemma ListingAt(us: seq<Upstream>, i: nat)
    requires GitHubListing(us) && i < |us|
    ensures us[i].key.GitHub?
  {
  }

  /** Reconciles a GitHub listing; returns the ids of the listed repositories' rows. */
  method Reconcile(db: Repositories, discovered: seq<Upstream>, kind: Kind, namespace: string) returns (r: Result<seq<int>>)
    requires db.Valid() && kind != External && GitHubListing(discovered)
    modifies db
    ensures db.Valid()
    ensures r.Success? ==> Committed(old(db.rows), db.rows, discovered, kind, r.value)
    ensures r.Success? ==> AsChosen(old(db.rows), db.rows, kind, namespace)
    ensures r.Success? && (kind == Owned || Clear(old(db.rows), discovered, kind, namespace)) ==>
              AsWanted(old(db.rows), db.rows, discovered, kind, namespace)
    ensures r.Failure? ==> db.rows == old(db.rows)
    ensures GoodNames(old(db.rows)) ==> GoodNames(db.rows)
    ensures Reconciled(old(db.rows), discovered, kind) ==> r.Success? && db.rows == old(db.rows)
    ensures kind == Owned ==> (r.Success? <==> Clear(old(db.rows), discovered, kind, namespace))
    ensures kind == Starred && GoodNames(old(db.rows)) && Short(discovered) ==>
              (r.Success? <==> Nameable(old(db.rows), discovered, kind, namespace))
  {
    hide *;
    DbParts(db);
    ghost var before := db.rows;
    var rows, nextId := db.rows, db.nextId;
    var seen: set<Key> := {};
    var ids: seq<int> := [];
    LoopStarts(before, nextId, discovered, kind);
    NamedStarts(before, discovered, kind, namespace);
    var i := 0;
    while i < |discovered|
      invariant i <= |discovered| && db.rows == before && db.Valid()
      invariant LoopState(before, rows, nextId, discovered, discovered[..i], kind, ids)
      invariant forall k :: k in seen <==> Listed(discovered[..i], k)
      invariant Named(before, rows, discovered, i, kind, namespace)
    {
      var u := discovered[i];
      SeenMore(discovered, i, seen);
      LoopParts(before, rows, nextId, discovered, discovered[..i], kind, ids);
      if u.key in seen {
        LoopSkips(before, rows, nextId, discovered, discovered[..i], u, kind, ids);
        NamedSkips(before, rows, discovered, i, kind, namespace);
        assert seen + {u.key} == seen;
      } else {
        FirstIsAt(discovered, i);
        if Known(rows, u.key, kind) {
          var j := Find(rows, u.key, kind);
          LoopRefreshes(before, rows, nextId, discovered, discovered[..i], u, kind, ids);
          NamedRefreshes(before, rows, discovered, i, kind, namespace);
          ids := ids + [rows[j].id];
          rows := rows[j := Refreshed(rows[j], u)];
        } else {
          ListingAt(discovered, i);
          var name := ChooseName(rows, u, kind, namespace);
          Choosing(before, rows, discovered, i, kind, namespace, name);
          if name.Failure? {
            return Failure;
          }
          var d := Destination(namespace, name.value);
          Chosen(rows, u, kind, namespace, name, nextId);
          if kind != Starred || Clear(before, discovered, kind, namespace) {
            ChosenIsWanted(before, rows, discovered, i, kind, namespace, name);
          }
          LoopInserts(before, rows, nextId, discovered, discovered[..i], u, kind, ids, d);
          NamedInserts(before, rows, discovered, i, kind, namespace, nextId, d);
          ids := ids + [nextId];
          rows, nextId := rows + [NewRow(nextId, u, kind, d)], nextId + 1;
        }
        seen := seen + {u.key};
      }
      i := i + 1;
    }
    assert discovered[..i] == discovered;
    LoopParts(before, rows, nextId, discovered, discovered, kind, ids);
    LoopEnds(before, rows, discovered, kind, namespace);
    ghost var looped := rows;
    rows := RetireOthers(rows, seen, kind, discovered);
    Finished(before, looped, rows, nextId, discovered, kind, ids);
    RetiredNames(before, looped, rows, discovered, kind, namespace);
    CommittedUnique(before, rows, discovered, kind, ids);
    db.rows, db.nextId := rows, nextId;
    DbParts(db);
    r := Success(ids);
  }

  // ---------------------------------------------------------------- external sources

  /** The sources file assigns every source a destination whose name is a safe component. */
  ghost predicate ExternalListing(us: seq<Upstream>) {
    forall i | 0 <= i < |us| :: us[i].place.Some? && Doubles(us[i].place.value.name) == 0
  }

  lemma ExternalAt(us: seq<Upstream>, i: nat, id: int)
    requires ExternalListing(us) && i < |us|
    ensures us[i].place.Some? && Want(us[i], External, "") == us[i].place && GoodName(NewRow(id, us[i], External, us[i].place.value))
  {
    hide Doubles;
  }

  /** A taken destination stops the run; it would not have been clear, nor anything to repeat. */
  lemma ExternalTaken(before: seq<Row>, rows: seq<Row>, us: seq<Upstream>, i: nat)
    requires i < |us| && ExternalListing(us) && Named(before, rows, us, i, External, "") && Partial(before, rows, us[..i], External)
    requires !Listed(us[..i], us[i].key) && !Known(rows, us[i].key, External) && !Free(rows, us[i].place.value)
    ensures !Clear(before, us, External, "") && !Reconciled(before, us, External)
  {
    ExternalAt(us, i, 0);
    FirstIsAt(us, i);
    TakenIsNotClear(before, rows, us, i, External, "");
    PartialUnique(before, rows, us[..i], External);
    NotKnownBefore(before, rows, us[i].key, External);
    hide Listed, First, Known, Clear;
  }

  /** Reconciles the external sources; a destination assigned to another source is refused. */
  method ReconcileExternal(db: Repositories, discovered: seq<Upstream>) returns (r: Result<seq<int>>)
    requires db.Valid() && ExternalListing(discovered)
    modifies db
    ensures db.Valid()
    ensures r.Success? ==> Committed(old(db.rows), db.rows, discovered, External, r.value)
    ensures r.Success? ==> forall i | |old(db.rows)| <= i < |db.rows| ::
                             db.rows[i].upstream.place == Some(Destination(db.rows[i].namespace, db.rows[i].name))
    ensures r.Failure? ==> db.rows == old(db.rows)
    ensures GoodNames(old(db.rows)) ==> GoodNames(db.rows)
    ensures Reconciled(old(db.rows), discovered, External) ==> r.Success? && db.rows == old(db.rows)
    ensures r.Success? <==> Clear(old(db.rows), discovered, External, "")
  {
    hide *;
    DbParts(db);
    ghost var before := db.rows;
    var rows, nextId := db.rows, db.nextId;
    var seen: set<Key> := {};
    var ids: seq<int> := [];
    LoopStarts(before, nextId, discovered, External);
    NamedStarts(before, discovered, External, "");
    var i := 0;
    while i < |discovered|
      invariant i <= |discovered| && db.rows == before && db.Valid()
      invariant LoopState(before, rows, nextId, discovered, discovered[..i], External, ids)
      invariant forall k :: k in seen <==> Listed(discovered[..i], k)
      invariant Named(before, rows, discovered, i, External, "")
    {
      var u := discovered[i];
      SeenMore(discovered, i, seen);
      LoopParts(before, rows, nextId, discovered, discovered[..i], External, ids);
      if u.key in seen {
        LoopSkips(before, rows, nextId, discovered, discovered[..i], u, External, ids);
        NamedSkips(before, rows, discovered, i, External, "");
        assert seen + {u.key} == seen;
      } else {
        FirstIsAt(discovered, i);
        if Known(rows, u.key, External) {
          var j := Find(rows, u.key, External);
          LoopRefreshes(before, rows, nextId, discovered, discovered[..i], u, External, ids);
          NamedRefreshes(before, rows, discovered, i, External, "");
          ids := ids + [rows[j].id];
          rows := rows[j := Refreshed(rows[j], u)];
        } else {
          ExternalAt(discovered, i, nextId);
          var d := u.place.value;
          if !Free(rows, d) {
            ExternalTaken(before, rows, discovered, i);
            return Failure;
          }
          LoopInserts(before, rows, nextId, discovered, discovered[..i], u, External, ids, d);
          NamedInserts(before, rows, discovered, i, External, "", nextId, d);
          ids := ids + [nextId];
          rows, nextId := rows + [NewRow(nextId, u, External, d)], nextId + 1;
        }
        seen := seen + {u.key};
      }
      i := i + 1;
    }
    assert discovered[..i] == discovered;
    LoopParts(before, rows, nextId, discovered, discovered, External, ids);
    LoopEnds(before, rows, discovered, External, "");
    ghost var looped := rows;
    rows := RetireOthers(rows, seen, External, discovered);
    Finished(before, looped, rows, nextId, discovered, External, ids);
    RetiredNames(before, looped, rows, discovered, External, "");
    PlacedAsListed(before, rows, discovered, ids);
    CommittedUnique(before, rows, discovered, External, ids);
    db.rows, db.nextId := rows, nextId;
    DbParts(db);
    r := Success(ids);
  }
}
