/** The repository table of githarbor/models.py as values, and what reconciling a listing with it
    has to leave. Reconciliation.dfy proves the code about it. */
module ReconcileState {
  import opened Wrappers
  import opened Naming

  datatype Status = Active | Syncing | Unavailable | Unstarred | Error | Archived

  /** A repository's identity: its GitHub id, or the identity an external source gives it. */
  datatype Key = GitHub(id: nat) | Source(provider: string, sourceId: string)

  datatype Destination = Destination(namespace: string, name: string)

  /** What a listing says about a repository; `details` stands for its URLs and flags. External
      sources are listed with the destination assigned to them. */
  datatype Upstream = Upstream(key: Key, owner: string, name: string, place: Option<Destination>, details: string)

  datatype Row = Row(id: int, key: Key, kind: Kind, namespace: string, name: string, status: Status, starred: bool, upstream: Upstream)

  // ---------------------------------------------------------------- the table's constraints

  ghost predicate SameIdentity(a: Row, b: Row) {
    a.id == b.id && a.key == b.key && a.kind == b.kind && a.namespace == b.namespace && a.name == b.name
  }

  ghost predicate Clash(a: Row, b: Row) {
    || a.id == b.id
    || (a.key == b.key && a.kind == b.kind)
    || (a.namespace == b.namespace && a.name == b.name)
  }

  /** Ids, identities within a kind and destinations are unique. */
  ghost predicate Unique(rows: seq<Row>) {
    forall i, j | 0 <= i < j < |rows| :: !Clash(rows[i], rows[j])
  }

  predicate Taken(rows: seq<Row>, namespace: string, name: string) {
    exists i | 0 <= i < |rows| :: rows[i].namespace == namespace && rows[i].name == name
  }

  predicate Known(rows: seq<Row>, key: Key, kind: Kind) {
    exists i | 0 <= i < |rows| :: rows[i].key == key && rows[i].kind == kind
  }

  function Find(rows: seq<Row>, key: Key, kind: Kind): (i: nat)
    requires Known(rows, key, kind)
    ensures i < |rows| && rows[i].key == key && rows[i].kind == kind
  {
    if rows[|rows| - 1].key == key && rows[|rows| - 1].kind == kind then |rows| - 1
    else
      assert forall i | 0 <= i < |rows| - 1 :: rows[..|rows| - 1][i] == rows[i];
      Find(rows[..|rows| - 1], key, kind)
  }

  lemma FindIs(rows: seq<Row>, i: nat)
    requires Unique(rows) && i < |rows|
    ensures Known(rows, rows[i].key, rows[i].kind) && Find(rows, rows[i].key, rows[i].kind) == i
  {
    hide Find;
    OneRow(rows, i, Find(rows, rows[i].key, rows[i].kind));
  }

  /** One id, or one identity within a kind, means one row. */
  lemma OneRow(rows: seq<Row>, i: nat, j: nat)
    requires Unique(rows) && i < |rows| && j < |rows|
    ensures rows[i].id == rows[j].id || (rows[i].key == rows[j].key && rows[i].kind == rows[j].kind) ==> i == j
  {
    if i < j {
      assert !Clash(rows[i], rows[j]);
    } else if j < i {
      assert !Clash(rows[j], rows[i]);
    }
  }

  // ---------------------------------------------------------------- names

  /** Owned and external names have no double dash; a starred one has at most one, or ends in the
      suffix of its own id. */
  ghost predicate GoodName(r: Row) {
    match r.kind
    case Starred => Doubles(r.name) <= 1 || (r.key.GitHub? && HasSuffix(r.name, r.key.id))
    case _ => Doubles(r.name) == 0
  }

  ghost predicate GoodNames(rows: seq<Row>) {
    forall i | 0 <= i < |rows| :: GoodName(rows[i])
  }

  /** A new starred repository's suffixed name is free wherever every row is named by the rules. */
  lemma SuffixedIsFree(rows: seq<Row>, namespace: string, owner: string, name: string, githubId: nat)
    requires GoodNames(rows) && !Known(rows, GitHub(githubId), Starred)
    requires DestinationName(owner, name, githubId, Starred).Success? && |owner| <= 39 && |Suffix(githubId)| <= 58
    ensures CollisionDestinationName(owner, name, githubId, Starred).Success?
    ensures !Taken(rows, namespace, CollisionDestinationName(owner, name, githubId, Starred).value)
  {
    hide DestinationName, CollisionDestinationName, HasSuffix, Suffix, Doubles;
    CollisionName(owner, name, githubId);
    var c := CollisionDestinationName(owner, name, githubId, Starred).value;
    forall i | 0 <= i < |rows|
      ensures rows[i].name != c
    {
      assert GoodName(rows[i]);
      if rows[i].name == c {
        SuffixInjective(c, githubId, rows[i].key.id);
      }
    }
  }

  /** A sync that moves a starred row between its preferred and its suffixed name keeps the rules. */
  lemma MovedNameIsGood(r: Row, owner: string, name: string)
    requires r.kind == Starred && r.key.GitHub? && DestinationName(owner, name, r.key.id, Starred).Success?
    ensures GoodName(r.(name := DestinationName(owner, name, r.key.id, Starred).value))
    ensures GoodName(r.(name := CollisionDestinationName(owner, name, r.key.id, Starred).value))
  {
    PreferredDoubles(owner, name, r.key.id, Starred);
    hide DestinationName, Suffix, Doubles;
  }

  // ---------------------------------------------------------------- listings

  predicate Listed(us: seq<Upstream>, key: Key) {
    exists i | 0 <= i < |us| :: us[i].key == key
  }

  /** The first entry with the identity; later ones are ignored. */
  function First(us: seq<Upstream>, key: Key): (u: Upstream)
    requires Listed(us, key)
    ensures u.key == key
  {
    if Listed(us[..|us| - 1], key) then First(us[..|us| - 1], key) else us[|us| - 1]
  }

  /** The distinct identities in the order of their first entries. */
  function Keys(us: seq<Upstream>): (r: seq<Key>)
    ensures forall k :: k in r <==> Listed(us, k)
    ensures forall i, j | 0 <= i < j < |r| :: r[i] != r[j]
  {
    if us == [] then [] else
      var n := |us| - 1;
      var rest := Keys(us[..n]);
      assert us == us[..n] + [us[n]];
      assert forall k :: Listed(us, k) <==> Listed(us[..n], k) || k == us[n].key;
      if Listed(us[..n], us[n].key) then rest else rest + [us[n].key]
  }

  lemma ListedSnoc(us: seq<Upstream>, u: Upstream, k: Key)
    ensures Listed(us + [u], k) <==> Listed(us, k) || k == u.key
    ensures Listed(us, k) ==> First(us + [u], k) == First(us, k)
    ensures !Listed(us, k) && k == u.key ==> First(us + [u], k) == u
    ensures Keys(us + [u]) == if Listed(us, u.key) then Keys(us) else Keys(us) + [u.key]
  {
    var more := us + [u];
    assert more[..|more| - 1] == us;
    assert more[|us|] == u;
    if Listed(us, k) {
      var i :| 0 <= i < |us| && us[i].key == k;
      assert more[i].key == k;
    }
  }

  // ---------------------------------------------------------------- outcomes

  /** A listed repository's row: its metadata is the listing's, and it is active unless archived. */
  function Refreshed(r: Row, u: Upstream): Row {
    r.(upstream := u, status := if r.status == Archived then Archived else Active,
       starred := if r.kind == External then r.starred else r.kind == Starred)
  }

  function NewRow(id: int, u: Upstream, kind: Kind, d: Destination): Row {
    Row(id, u.key, kind, d.namespace, d.name, Active, kind == Starred, u)
  }

  /** The row of a repository that is not listed any more. */
  function Retired(r: Row): Row {
    if r.kind == Starred then r.(starred := false, status := Unstarred) else r.(status := Unavailable)
  }

  /** Every listed identity has a row, and every row of the kind is as the listing says. */
  ghost predicate Reconciled(rows: seq<Row>, us: seq<Upstream>, kind: Kind) {
    && (forall k | Listed(us, k) :: Known(rows, k, kind))
    && (forall i | 0 <= i < |rows| && rows[i].kind == kind ::
          rows[i] == if Listed(us, rows[i].key) then Refreshed(rows[i], First(us, rows[i].key)) else Retired(rows[i]))
  }

  /** Row by row: a listed repository gets the listing's metadata and is active, but archived if it
      was archived; one that is not listed keeps its metadata and is unstarred or unavailable. */
  ghost predicate Reported(before: seq<Row>, rows: seq<Row>, us: seq<Upstream>, kind: Kind) {
    forall i | 0 <= i < |rows| && rows[i].kind == kind :: RowReported(if i < |before| then Some(before[i]) else None, rows[i], us)
  }

  ghost predicate RowReported(was: Option<Row>, r: Row, us: seq<Upstream>) {
    if Listed(us, r.key) then
      && r.upstream == First(us, r.key)
      && r.status == (if was.Some? && was.value.status == Archived then Archived else Active)
      && r.starred == (if r.kind == External then was.Some? && was.value.starred else r.kind == Starred)
    else
      && was.Some? && r.upstream == was.value.upstream
      && r.status == (if r.kind == Starred then Unstarred else Unavailable)
      && r.starred == (r.kind != Starred && was.value.starred)
  }

  /** No row is lost, identities and destinations stay, other kinds are not touched, and new rows
      are of the kind and listed. */
  ghost predicate Grown(before: seq<Row>, rows: seq<Row>, us: seq<Upstream>, kind: Kind) {
    && |before| <= |rows|
    && (forall i | 0 <= i < |before| :: SameIdentity(before[i], rows[i]) && (rows[i].kind != kind ==> rows[i] == before[i]))
    && (forall i | |before| <= i < |rows| :: rows[i].kind == kind && Listed(us, rows[i].key) && !Known(before, rows[i].key, kind))
  }

  ghost predicate AllKnown(rows: seq<Row>, keys: seq<Key>, kind: Kind) {
    forall i | 0 <= i < |keys| :: Known(rows, keys[i], kind)
  }

  /** The row ids of the listed identities, in order. */
  ghost function IdsOf(rows: seq<Row>, keys: seq<Key>, kind: Kind): (ids: seq<int>)
    requires AllKnown(rows, keys, kind)
    ensures |ids| == |keys| && forall i | 0 <= i < |ids| :: ids[i] == rows[Find(rows, keys[i], kind)].id
  {
    seq(|keys|, i requires 0 <= i < |keys| => rows[Find(rows, keys[i], kind)].id)
  }

  lemma IdsDistinct(rows: seq<Row>, keys: seq<Key>, kind: Kind)
    requires Unique(rows) && AllKnown(rows, keys, kind) && forall i, j | 0 <= i < j < |keys| :: keys[i] != keys[j]
    ensures forall i, j | 0 <= i < j < |keys| :: IdsOf(rows, keys, kind)[i] != IdsOf(rows, keys, kind)[j]
  {
    hide Find, Known;
    forall i, j | 0 <= i < j < |keys|
      ensures IdsOf(rows, keys, kind)[i] != IdsOf(rows, keys, kind)[j]
    {
      OneRow(rows, Find(rows, keys[i], kind), Find(rows, keys[j], kind));
    }
  }

  lemma IdsName(rows: seq<Row>, keys: seq<Key>, kind: Kind, r: nat)
    requires Unique(rows) && AllKnown(rows, keys, kind) && r < |rows|
    ensures rows[r].id in IdsOf(rows, keys, kind) <==> rows[r].kind == kind && rows[r].key in keys
  {
    hide Find, Known;
    var ids := IdsOf(rows, keys, kind);
    if rows[r].id in ids {
      var i :| 0 <= i < |ids| && ids[i] == rows[r].id;
      OneRow(rows, Find(rows, keys[i], kind), r);
    }
    if rows[r].kind == kind && rows[r].key in keys {
      var i :| 0 <= i < |keys| && keys[i] == rows[r].key;
      FindIs(rows, r);
      assert ids[i] == rows[r].id;
    }
  }

  /** The returned ids are distinct, and the rows of the kind split into those they name, active
      or still archived, and the rest. */
  lemma IdsPartition(rows: seq<Row>, us: seq<Upstream>, kind: Kind)
    requires Unique(rows) && Reconciled(rows, us, kind) && AllKnown(rows, Keys(us), kind)
    ensures var ids := IdsOf(rows, Keys(us), kind);
            && (forall i, j | 0 <= i < j < |ids| :: ids[i] != ids[j])
            && (forall r | 0 <= r < |rows| :: rows[r].id in ids <==> rows[r].kind == kind && Listed(us, rows[r].key))
            && (forall r | 0 <= r < |rows| && rows[r].id in ids :: rows[r].status == Active || rows[r].status == Archived)
            && (forall r | 0 <= r < |rows| && rows[r].kind == kind && rows[r].id !in ids ::
                  rows[r].status == if kind == Starred then Unstarred else Unavailable)
  {
    hide Listed, Known, IdsOf, AllKnown;
    IdsDistinct(rows, Keys(us), kind);
    forall r | 0 <= r < |rows|
      ensures rows[r].id in IdsOf(rows, Keys(us), kind) <==> rows[r].kind == kind && Listed(us, rows[r].key)
    {
      IdsName(rows, Keys(us), kind, r);
    }
  }

  // ---------------------------------------------------------------- one entry of the listing

  /** What the loop over the listing has done after the entries `us`. */
  ghost predicate Partial(before: seq<Row>, rows: seq<Row>, us: seq<Upstream>, kind: Kind) {
    Unique(rows) && Grown(before, rows, us, kind) && AllListedKnown(rows, us, kind) && AsListed(before, rows, us, kind)
  }

  ghost predicate AllListedKnown(rows: seq<Row>, us: seq<Upstream>, kind: Kind) {
    forall k | Listed(us, k) :: Known(rows, k, kind)
  }

  ghost predicate AsListed(before: seq<Row>, rows: seq<Row>, us: seq<Upstream>, kind: Kind) {
    forall i | 0 <= i < |rows| && rows[i].kind == kind :: RowAsListed(if i < |before| then Some(before[i]) else None, rows[i], us)
  }

  ghost predicate RowAsListed(was: Option<Row>, r: Row, us: seq<Upstream>) {
    if !Listed(us, r.key) then was == Some(r)
    else match was
      case Some(b) => r == Refreshed(b, First(us, r.key))
      case None => r == NewRow(r.id, First(us, r.key), r.kind, Destination(r.namespace, r.name))
  }

  ghost predicate Extends(rows: seq<Row>, rows': seq<Row>) {
    |rows| <= |rows'| && forall i | 0 <= i < |rows| :: SameIdentity(rows[i], rows'[i])
  }

  lemma ExtendsKnown(rows: seq<Row>, rows': seq<Row>, k: Key, kind: Kind)
    requires Extends(rows, rows') && Known(rows, k, kind)
    ensures Known(rows', k, kind)
  {
    var i :| 0 <= i < |rows| && rows[i].key == k && rows[i].kind == kind;
    assert SameIdentity(rows[i], rows'[i]);
  }

  lemma IdsStable(rows: seq<Row>, rows': seq<Row>, keys: seq<Key>, kind: Kind)
    requires Unique(rows') && Extends(rows, rows') && AllKnown(rows, keys, kind)
    ensures AllKnown(rows', keys, kind) && IdsOf(rows', keys, kind) == IdsOf(rows, keys, kind)
  {
    hide Find, Known, Unique;
    forall i | 0 <= i < |keys|
      ensures Known(rows', keys[i], kind) && rows'[Find(rows', keys[i], kind)].id == rows[Find(rows, keys[i], kind)].id
    {
      ExtendsKnown(rows, rows', keys[i], kind);
      var j := Find(rows, keys[i], kind);
      assert SameIdentity(rows[j], rows'[j]);
      OneRow(rows', j, Find(rows', keys[i], kind));
    }
  }

  lemma ListedMore(us: seq<Upstream>, u: Upstream)
    ensures forall k :: Listed(us + [u], k) <==> Listed(us, k) || k == u.key
    ensures forall k | Listed(us, k) :: First(us + [u], k) == First(us, k)
    ensures !Listed(us, u.key) ==> First(us + [u], u.key) == u
    ensures Keys(us + [u]) == if Listed(us, u.key) then Keys(us) else Keys(us) + [u.key]
  {
    forall k
      ensures Listed(us + [u], k) <==> Listed(us, k) || k == u.key
      ensures Listed(us, k) ==> First(us + [u], k) == First(us, k)
    {
      ListedSnoc(us, u, k);
    }
    ListedSnoc(us, u, u.key);
  }

  lemma SkipEntry(before: seq<Row>, rows: seq<Row>, us: seq<Upstream>, u: Upstream, kind: Kind)
    requires Partial(before, rows, us, kind) && Listed(us, u.key)
    ensures Partial(before, rows, us + [u], kind) && Keys(us + [u]) == Keys(us)
  {
    ListedMore(us, u);
    hide Find, First, Known, Refreshed, Unique, Listed, Keys;
  }

  /** Refreshing the row of an identity met for the first time. */
  lemma RefreshEntry(before: seq<Row>, rows: seq<Row>, us: seq<Upstream>, u: Upstream, kind: Kind)
    requires Partial(before, rows, us, kind) && !Listed(us, u.key) && Known(rows, u.key, kind)
    ensures var i := Find(rows, u.key, kind);
            var rows' := rows[i := Refreshed(rows[i], u)];
            Partial(before, rows', us + [u], kind) && Extends(rows, rows') && Keys(us + [u]) == Keys(us) + [u.key]
            && Find(rows', u.key, kind) == i
  {
    hide Find, First, Listed, Keys, Known, AsListed, AllListedKnown, Clash, Taken;
    var i := Find(rows, u.key, kind);
    var rows' := rows[i := Refreshed(rows[i], u)];
    ListedMore(us, u);
    RefreshedUnique(rows, i, u);
    FindIs(rows', i);
    hide Unique;
    KnownMore(rows, rows', us, u, kind, i);
    RefreshAsListed(before, rows, us, u, kind, i);
  }

  lemma KnownMore(rows: seq<Row>, rows': seq<Row>, us: seq<Upstream>, u: Upstream, kind: Kind, i: nat)
    requires AllListedKnown(rows, us, kind) && Extends(rows, rows') && i < |rows'| && rows'[i].key == u.key && rows'[i].kind == kind
    ensures AllListedKnown(rows', us + [u], kind)
  {
    ListedMore(us, u);
    hide Listed, First, Keys;
    forall k | Listed(us + [u], k)
      ensures Known(rows', k, kind)
    {
      if k != u.key {
        ExtendsKnown(rows, rows', k, kind);
      }
    }
  }

  lemma RefreshAsListed(before: seq<Row>, rows: seq<Row>, us: seq<Upstream>, u: Upstream, kind: Kind, i: nat)
    requires Unique(rows) && AsListed(before, rows, us, kind) && !Listed(us, u.key)
    requires i < |rows| && rows[i].key == u.key && rows[i].kind == kind
    ensures AsListed(before, rows[i := Refreshed(rows[i], u)], us + [u], kind)
  {
    ListedMore(us, u);
    hide Listed, First, Keys, Unique;
    var rows' := rows[i := Refreshed(rows[i], u)];
    forall j | 0 <= j < |rows'| && rows'[j].kind == kind
      ensures RowAsListed(if j < |before| then Some(before[j]) else None, rows'[j], us + [u])
    {
      OneRow(rows, i, j);
    }
  }

  lemma RefreshedUnique(rows: seq<Row>, i: nat, u: Upstream)
    requires Unique(rows) && i < |rows|
    ensures Unique(rows[i := Refreshed(rows[i], u)])
  {
    var rows' := rows[i := Refreshed(rows[i], u)];
    forall a, b | 0 <= a < b < |rows'|
      ensures !Clash(rows'[a], rows'[b])
    {
      assert !Clash(rows[a], rows[b]);
    }
  }

  /** Adding the row of a new identity at a free destination. */
  lemma InsertEntry(before: seq<Row>, rows: seq<Row>, us: seq<Upstream>, u: Upstream, kind: Kind, id: int, d: Destination)
    requires Partial(before, rows, us, kind) && !Listed(us, u.key) && !Known(rows, u.key, kind)
    requires !Taken(rows, d.namespace, d.name) && (forall i | 0 <= i < |rows| :: rows[i].id != id)
    ensures var rows' := rows + [NewRow(id, u, kind, d)];
            Partial(before, rows', us + [u], kind) && Extends(rows, rows') && Keys(us + [u]) == Keys(us) + [u.key]
            && Find(rows', u.key, kind) == |rows|
  {
    hide Find, First, Listed, Keys, Known, Clash, Taken, Unique, AsListed, AllListedKnown;
    var row := NewRow(id, u, kind, d);
    var rows' := rows + [row];
    InsertUnique(rows, row);
    FindIs(rows', |rows|);
    NotKnownBefore(before, rows, u.key, kind);
    ListedMore(us, u);
    KnownMore(rows, rows', us, u, kind, |rows|);
    InsertAsListed(before, rows, us, u, kind, row);
  }

  lemma InsertUnique(rows: seq<Row>, row: Row)
    requires Unique(rows) && !Known(rows, row.key, row.kind) && !Taken(rows, row.namespace, row.name)
    requires forall i | 0 <= i < |rows| :: rows[i].id != row.id
    ensures Unique(rows + [row])
  {
    var rows' := rows + [row];
    forall a, b | 0 <= a < b < |rows'|
      ensures !Clash(rows'[a], rows'[b])
    {
      if b < |rows| {
        assert !Clash(rows[a], rows[b]);
      }
    }
  }

  lemma NotKnownBefore(before: seq<Row>, rows: seq<Row>, k: Key, kind: Kind)
    requires Extends(before, rows) && !Known(rows, k, kind)
    ensures !Known(before, k, kind)
  {
    if Known(before, k, kind) {
      ExtendsKnown(before, rows, k, kind);
    }
  }

  lemma InsertAsListed(before: seq<Row>, rows: seq<Row>, us: seq<Upstream>, u: Upstream, kind: Kind, row: Row)
    requires AsListed(before, rows, us, kind) && !Listed(us, u.key) && !Known(rows, u.key, kind) && |before| <= |rows|
    requires row == NewRow(row.id, u, kind, Destination(row.namespace, row.name))
    ensures AsListed(before, rows + [row], us + [u], kind)
  {
    ListedMore(us, u);
    hide Listed, First, Keys;
  }

  /** The ids after one more identity was met. */
  lemma IdsMore(rows: seq<Row>, rows': seq<Row>, keys: seq<Key>, k: Key, kind: Kind)
    requires Unique(rows') && Extends(rows, rows') && AllKnown(rows, keys, kind) && Known(rows', k, kind)
    ensures AllKnown(rows', keys + [k], kind)
    ensures IdsOf(rows', keys + [k], kind) == IdsOf(rows, keys, kind) + [rows'[Find(rows', k, kind)].id]
  {
    IdsStable(rows, rows', keys, kind);
    hide Find, Known, Unique;
    var more := keys + [k];
    assert AllKnown(rows', more, kind) by {
      forall i | 0 <= i < |more|
        ensures Known(rows', more[i], kind)
      {
        assert i < |keys| ==> more[i] == keys[i];
      }
    }
  }

  // ---------------------------------------------------------------- destinations of new rows

  /** Where a repository goes that has no row yet. */
  function Want(u: Upstream, kind: Kind, namespace: string): Option<Destination> {
    if kind == External then u.place
    else if !u.key.GitHub? then None
    else match DestinationName(u.owner, u.name, u.key.id, kind)
      case Failure => None
      case Success(n) => Some(Destination(namespace, n))
  }

  predicate New(before: seq<Row>, us: seq<Upstream>, k: Key, kind: Kind) {
    Listed(us, k) && !Known(before, k, kind)
  }

  ghost predicate Nameable(before: seq<Row>, us: seq<Upstream>, kind: Kind, namespace: string) {
    forall k | New(before, us, k, kind) :: Want(First(us, k), kind, namespace).Some?
  }

  /** New repositories have destinations of their own, and none of them is taken. */
  ghost predicate Clear(before: seq<Row>, us: seq<Upstream>, kind: Kind, namespace: string) {
    && Nameable(before, us, kind, namespace)
    && (forall k | New(before, us, k, kind) :: Free(before, Want(First(us, k), kind, namespace).value))
    && (forall j, k | New(before, us, j, kind) && New(before, us, k, kind) && j != k ::
          Want(First(us, j), kind, namespace) != Want(First(us, k), kind, namespace))
  }

  predicate Free(rows: seq<Row>, d: Destination) {
    !Taken(rows, d.namespace, d.name)
  }

  /** Rows that were added have the destination their repository wanted. */
  ghost predicate AsWanted(before: seq<Row>, rows: seq<Row>, us: seq<Upstream>, kind: Kind, namespace: string) {
    forall i | |before| <= i < |rows| && Listed(us, rows[i].key) ::
      Want(First(us, rows[i].key), kind, namespace) == Some(Destination(rows[i].namespace, rows[i].name))
  }

  /** The first choice where it is free; where it is not, a starred repository's second one. */
  ghost predicate IsChoice(rows: seq<Row>, u: Upstream, kind: Kind, namespace: string, name: string) {
    u.key.GitHub? && exists p :: IsPreferred(u.owner, u.name, kind, p)
                                 && if Taken(rows, namespace, p) then kind == Starred && IsSuffixed(p, u.key.id, name) else name == p
  }

  /** Every added row has the name chosen among the rows before it. */
  ghost predicate AsChosen(before: seq<Row>, rows: seq<Row>, kind: Kind, namespace: string) {
    forall i | |before| <= i < |rows| ::
      rows[i].namespace == namespace && IsChoice(rows[..i], rows[i].upstream, kind, namespace, rows[i].name)
  }

  lemma TakenSame(rows: seq<Row>, rows': seq<Row>, namespace: string, name: string)
    requires |rows'| == |rows| && forall i | 0 <= i < |rows| :: SameIdentity(rows[i], rows'[i])
    ensures Taken(rows, namespace, name) <==> Taken(rows', namespace, name)
  {
    forall i | 0 <= i < |rows|
      ensures SameIdentity(rows[i], rows'[i])
    {
    }
  }

  lemma ChosenKept(before: seq<Row>, rows: seq<Row>, rows': seq<Row>, kind: Kind, namespace: string)
    requires AsChosen(before, rows, kind, namespace) && |rows'| == |rows|
    requires forall i | 0 <= i < |rows| :: SameIdentity(rows[i], rows'[i])
    requires forall i | |before| <= i < |rows| :: rows'[i].upstream == rows[i].upstream
    ensures AsChosen(before, rows', kind, namespace)
  {
    hide IsPreferred, IsSuffixed, Taken;
    forall i | |before| <= i < |rows|
      ensures IsChoice(rows'[..i], rows[i].upstream, kind, namespace, rows[i].name)
    {
      forall p
        ensures Taken(rows[..i], namespace, p) <==> Taken(rows'[..i], namespace, p)
      {
        TakenSame(rows[..i], rows'[..i], namespace, p);
      }
      assert IsChoice(rows[..i], rows[i].upstream, kind, namespace, rows[i].name);
    }
  }

  lemma ChosenMore(before: seq<Row>, rows: seq<Row>, row: Row, kind: Kind, namespace: string)
    requires AsChosen(before, rows, kind, namespace)
    requires row.namespace == namespace && IsChoice(rows, row.upstream, kind, namespace, row.name)
    ensures AsChosen(before, rows + [row], kind, namespace)
  {
    hide IsChoice;
    var more := rows + [row];
    forall i | |before| <= i < |more|
      ensures more[i].namespace == namespace && IsChoice(more[..i], more[i].upstream, kind, namespace, more[i].name)
    {
      assert more[..i] == rows[..i];
      assert rows[..|rows|] == rows;
    }
  }

  lemma WantedKept(before: seq<Row>, rows: seq<Row>, rows': seq<Row>, us: seq<Upstream>, kind: Kind, namespace: string)
    requires AsWanted(before, rows, us, kind, namespace) && |rows'| == |rows|
    requires forall i | 0 <= i < |rows| :: SameIdentity(rows[i], rows'[i])
    ensures AsWanted(before, rows', us, kind, namespace)
  {
    hide Listed, First, Want;
    forall i | |before| <= i < |rows'| && Listed(us, rows'[i].key)
      ensures Want(First(us, rows'[i].key), kind, namespace) == Some(Destination(rows'[i].namespace, rows'[i].name))
    {
      assert SameIdentity(rows[i], rows'[i]);
    }
  }

  lemma {:induction false} FirstOfPrefix(us: seq<Upstream>, i: nat, k: Key)
    requires i <= |us| && Listed(us[..i], k)
    ensures Listed(us, k) && First(us, k) == First(us[..i], k)
  {
    if i < |us| {
      var n := |us| - 1;
      assert us[..n][..i] == us[..i] && us == us[..n] + [us[n]];
      FirstOfPrefix(us[..n], i, k);
      ListedSnoc(us[..n], us[n], k);
    } else {
      assert us[..i] == us;
    }
  }

  lemma FirstIsAt(us: seq<Upstream>, i: nat)
    requires i < |us| && !Listed(us[..i], us[i].key)
    ensures Listed(us, us[i].key) && First(us, us[i].key) == us[i]
  {
    assert us[..i + 1] == us[..i] + [us[i]];
    ListedSnoc(us[..i], us[i], us[i].key);
    FirstOfPrefix(us, i + 1, us[i].key);
  }

  /** A finished table shows that the new destinations were clear. */
  lemma FinishedIsClear(before: seq<Row>, rows: seq<Row>, us: seq<Upstream>, kind: Kind, namespace: string)
    requires Unique(rows) && Grown(before, rows, us, kind) && AllListedKnown(rows, us, kind) && AsWanted(before, rows, us, kind, namespace)
    ensures Clear(before, us, kind, namespace)
  {
    hide Find, First, Listed, Unique, Taken, Want;
    forall k | New(before, us, k, kind)
      ensures Want(First(us, k), kind, namespace).Some? && Free(before, Want(First(us, k), kind, namespace).value)
    {
      var i := NewAt(before, rows, us, k, kind);
      FreeBefore(before, rows, i);
    }
    forall j, k | New(before, us, j, kind) && New(before, us, k, kind) && j != k
      ensures Want(First(us, j), kind, namespace) != Want(First(us, k), kind, namespace)
    {
      var a, b := NewAt(before, rows, us, j, kind), NewAt(before, rows, us, k, kind);
      OneDestination(rows, a, b);
    }
  }

  ghost function NewAt(before: seq<Row>, rows: seq<Row>, us: seq<Upstream>, k: Key, kind: Kind): (i: nat)
    requires Grown(before, rows, us, kind) && AllListedKnown(rows, us, kind) && New(before, us, k, kind)
    ensures |before| <= i < |rows| && rows[i].key == k && rows[i].kind == kind
  {
    assert forall j | 0 <= j < |before| :: SameIdentity(before[j], rows[j]) && !(before[j].key == k && before[j].kind == kind);
    Find(rows, k, kind)
  }

  lemma OneDestination(rows: seq<Row>, i: nat, j: nat)
    requires Unique(rows) && i < |rows| && j < |rows|
    ensures rows[i].namespace == rows[j].namespace && rows[i].name == rows[j].name ==> i == j
  {
    if i < j {
      assert !Clash(rows[i], rows[j]);
    } else if j < i {
      assert !Clash(rows[j], rows[i]);
    }
  }

  lemma FreeBefore(before: seq<Row>, rows: seq<Row>, i: nat)
    requires Unique(rows) && Extends(before, rows) && |before| <= i < |rows|
    ensures Free(before, Destination(rows[i].namespace, rows[i].name))
  {
    forall j | 0 <= j < |before|
      ensures !(before[j].namespace == rows[i].namespace && before[j].name == rows[i].name)
    {
      assert SameIdentity(before[j], rows[j]) && !Clash(rows[j], rows[i]);
    }
  }

  /** A destination that is taken in the middle of the loop was not clear to begin with. */
  lemma TakenIsNotClear(before: seq<Row>, rows: seq<Row>, us: seq<Upstream>, i: nat, kind: Kind, namespace: string)
    requires i < |us| && Partial(before, rows, us[..i], kind) && AsWanted(before, rows, us, kind, namespace)
    requires !Listed(us[..i], us[i].key) && !Known(rows, us[i].key, kind) && Want(us[i], kind, namespace).Some?
    requires !Free(rows, Want(us[i], kind, namespace).value)
    ensures !Clear(before, us, kind, namespace)
  {
    var k, d := us[i].key, Want(us[i], kind, namespace).value;
    FirstIsAt(us, i);
    NotKnownBefore(before, rows, k, kind);
    hide Find, First, Unique, Want, AsListed, AllListedKnown;
    var j :| 0 <= j < |rows| && rows[j].namespace == d.namespace && rows[j].name == d.name;
    assert New(before, us, k, kind);
    if j < |before| {
      assert SameIdentity(before[j], rows[j]);
      assert !Free(before, d);
    } else {
      assert Listed(us[..i], rows[j].key);
      FirstOfPrefix(us, i, rows[j].key);
      assert New(before, us, rows[j].key, kind);
    }
  }
}
