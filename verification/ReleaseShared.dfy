/** Two assets recorded with one attachment: a concrete run that ends cleanly and leaves the
    release unsettled. */
module ReleaseShared {
  import opened Wrappers
  import Utf8
  import Base64Url
  import opened Json
  import opened ReleaseMarker
  import opened ReleaseSource
  import opened ReleaseState
  import opened ReleaseSteps
  import opened ReleaseRuns
  import opened ReleaseMirror

  // ---------------------------------------------------------------- small markers fit

  lemma {:induction false} EscapedLength(s: string)
    ensures |EscapeAll(s)| <= 12 * |s|
  {
    if s != "" {
      EscapedLength(s[1..]);
    }
  }

  lemma {:induction false} Utf8Length(s: string)
    ensures |Utf8.Encode(s)| <= 4 * |s|
  {
    if s != "" {
      Utf8Length(s[1..]);
    }
  }

  lemma {:induction false} Base64Length(b: seq<Utf8.Byte>)
    ensures |Base64Url.Encode(b)| <= 2 * |b|
  {
    if |b| >= 3 {
      Base64Length(b[3..]);
    }
  }

  /** One more member of an object. */
  lemma MemberLength(fields: seq<Field>, rest: seq<Field>, n: nat, m: nat)
    requires fields != [] && fields[1..] == rest && |Print(fields[0].value)| <= n && |PrintFields(rest)| <= m
    ensures |PrintFields(fields)| <= 12 * |fields[0].key| + 4 + n + m
  {
    EscapedLength(fields[0].key);
  }

  lemma {:induction false} ItemsLength(items: seq<Json>, n: nat)
    requires forall i | 0 <= i < |items| :: |Print(items[i])| <= n
    ensures |PrintItems(items)| <= (n + 1) * |items|
  {
    hide *;
    if items == [] {
      NoItems();
    } else {
      var rest := items[1..];
      ItemsLength(rest, n);
      ItemLength(items, rest);
      assert (n + 1) * |items| == (n + 1) * |rest| + n + 1;
    }
  }

  lemma NoItems()
    ensures PrintItems([]) == ""
  {
  }

  lemma ItemLength(items: seq<Json>, rest: seq<Json>)
    requires items != [] && items[1..] == rest
    ensures |PrintItems(items)| <= |Print(items[0])| + 1 + |PrintItems(rest)|
  {
    hide Print;
  }

  /** All numbers have one digit and names one character. */
  predicate Small(a: MirroredAsset) {
    0 <= a.githubId < 10 && 0 <= a.giteaId < 10 && 0 <= a.size < 10 && |a.name| <= 1 && a.digest == None
  }

  /** Members with keys of at most ten characters and values of at most `n`. */
  lemma {:induction false} MembersLength(fields: seq<Field>, n: nat)
    requires forall i | 0 <= i < |fields| :: |fields[i].key| <= 10 && |Print(fields[i].value)| <= n
    ensures |PrintFields(fields)| <= (124 + n) * |fields|
  {
    hide *;
    if fields == [] {
      NoMembers();
    } else {
      var rest := fields[1..];
      MembersLength(rest, n);
      MemberLength(fields, rest, n, (124 + n) * |rest|);
      assert (124 + n) * |fields| == (124 + n) * |rest| + 124 + n;
    }
  }

  lemma NoMembers()
    ensures PrintFields([]) == ""
  {
  }

  lemma ScalarLength(v: Json)
    requires v == Null || (v.Int? && 0 <= v.n < 10) || (v.Str? && |v.s| <= 1)
    ensures |Print(v)| <= 14
  {
    if v.Str? {
      EscapedLength(v.s);
    }
  }

  lemma ObjectLength(fields: seq<Field>)
    ensures |Print(Obj(fields))| == |PrintFields(fields)| + 2
  {
    hide PrintFields;
  }

  lemma ArrayLength(items: seq<Json>)
    ensures |Print(Arr(items))| == |PrintItems(items)| + 2
  {
    hide PrintItems;
  }

  lemma AssetFields(a: MirroredAsset)
    requires Small(a)
    ensures AssetJson(a).Obj? && |AssetJson(a).fields| == 5
    ensures forall i | 0 <= i < 5 :: var f := AssetJson(a).fields[i];
              |f.key| <= 10 && (f.value == Null || (f.value.Int? && 0 <= f.value.n < 10) || (f.value.Str? && |f.value.s| <= 1))
  {
  }

  lemma AssetLength(a: MirroredAsset)
    requires Small(a)
    ensures |Print(AssetJson(a))| <= 692
  {
    hide *;
    AssetFields(a);
    var f := AssetJson(a).fields;
    forall i | 0 <= i < |f|
      ensures |f[i].key| <= 10 && |Print(f[i].value)| <= 14
    {
      ScalarLength(f[i].value);
    }
    MembersLength(f, 14);
    ObjectLength(f);
  }

  predicate Among(a: MirroredAsset, assets: map<int, MirroredAsset>) {
    exists k :: k in assets && assets[k] == a
  }

  lemma MarkerFields(m: Marker)
    ensures MarkerJson(m) == Obj([Field("assets", Arr(AssetsJson(SortedAssets(m.assets)))), Field("github_id", Int(m.githubId)),
                                  Field("version", Int(1))])
    ensures |SortedAssets(m.assets)| == |m.assets|
    ensures forall i | 0 <= i < |SortedAssets(m.assets)| :: Among(SortedAssets(m.assets)[i], m.assets)
  {
    SortedCount(m.assets.Keys);
    hide SortedKeys, AssetsJson;
    assert |m.assets| == |m.assets.Keys|;
    var keys := SortedKeys(m.assets.Keys);
    forall i | 0 <= i < |SortedAssets(m.assets)|
      ensures Among(SortedAssets(m.assets)[i], m.assets)
    {
      AmongIf(SortedAssets(m.assets)[i], m.assets, keys[i]);
    }
  }

  lemma AmongIf(a: MirroredAsset, assets: map<int, MirroredAsset>, k: int)
    requires k in assets && assets[k] == a
    ensures Among(a, assets)
  {
  }

  lemma AmongSmall(a: MirroredAsset, assets: map<int, MirroredAsset>)
    requires Among(a, assets) && forall k | k in assets :: Small(assets[k])
    ensures Small(a)
  {
    hide Small;
  }

  lemma MarkerLength(m: Marker)
    requires 0 <= m.githubId < 10 && |m.assets| <= 2 && forall k | k in m.assets :: Small(m.assets[k])
    ensures |Print(MarkerJson(m))| <= 1810
  {
    hide *;
    MarkerFields(m);
    var items := AssetsJson(SortedAssets(m.assets));
    forall i | 0 <= i < |items|
      ensures |Print(items[i])| <= 692
    {
      AmongSmall(SortedAssets(m.assets)[i], m.assets);
      AssetLength(SortedAssets(m.assets)[i]);
    }
    ItemsLength(items, 692);
    var first, second, third := Field("assets", Arr(items)), Field("github_id", Int(m.githubId)), Field("version", Int(1));
    var rest := [second, third];
    ArrayLength(items);
    ScalarLength(second.value);
    ScalarLength(third.value);
    MembersLength(rest, 14);
    MemberLength([first, second, third], rest, 1388, 276);
    ObjectLength([first, second, third]);
  }

  lemma {:induction false} SortedCount(keys: set<int>)
    ensures |SortedKeys(keys)| == |keys|
    decreases |keys|
  {
    if |keys| != 0 {
      SortedCount(keys - {Smallest(keys)});
    }
  }

  /** A small marker fits a body without notes. */
  lemma SmallFits(url: string, m: Marker)
    requires 0 <= m.githubId < 10 && |m.assets| <= 2 && forall k | k in m.assets :: Small(m.assets[k])
    ensures BoundedBody("", url, m) == Success((EncodeBody("", m), false))
  {
    hide *;
    MarkerLength(m);
    var json := Print(MarkerJson(m));
    Utf8Length(json);
    Base64Length(Utf8.Encode(json));
    BodyLength(m);
    Utf8Length(EncodeBody("", m));
    FittingBody(url, m);
  }

  lemma BodyLength(m: Marker)
    ensures |EncodeBody("", m)| == |OPEN| + |Base64Url.Encode(Utf8.Encode(Print(MarkerJson(m))))| + |CLOSE|
    ensures |OPEN| + |CLOSE| < 40 && MAX_BODY_BYTES == 65_000
  {
    hide Base64Url.Encode, Utf8.Encode, Print, MarkerJson;
  }

  lemma FittingBody(url: string, m: Marker)
    requires |Utf8.Encode(EncodeBody("", m))| <= MAX_BODY_BYTES
    ensures BoundedBody("", url, m) == Success((EncodeBody("", m), false))
  {
    hide EncodeBody, Utf8.Encode, Suffix;
  }

  // ---------------------------------------------------------------- the run

  const SHARED := map[6 := MirroredAsset(6, 2, "a", 1, None), 7 := MirroredAsset(7, 2, "b", 1, None)]

  /** The release a source's assets `a` and `b` were mirrored to, both as attachment 2. */
  function SharedServer(): Server {
    var stored := Release("v", "v", EncodeBody("", Marker(5, SHARED)), "", false, false);
    Server([1], map[1 := stored], map[1 := map[2 := Attachment("a", 1)]], 3)
  }

  function SharedReleases(): seq<RawRelease> {
    [RawRelease(5, "u", "v", "", "", "", false, false,
                [RawAsset(6, "a", "x", "", true, 1, ""), RawAsset(7, "b", "y", "", true, 1, "")])]
  }

  function SharedAssetList(): seq<SourceAsset> {
    [SourceAsset(6, "a", true, 1, None), SourceAsset(7, "b", true, 1, None)]
  }

  function SharedSource(): Source {
    Source(5, "u", "v", "", "v", "", false, false, SharedAssetList())
  }

  lemma SharedSources()
    ensures ReadReleases(GitHub, "", SharedReleases()) == [SharedSource()]
  {
    var raw := SharedReleases()[0].assets;
    assert raw[..1] == [raw[0]] && raw[..1][..0] == [];
    assert ReleaseSource.ReadAssets(GitHub, raw[..1]) == [SharedAssetList()[0]];
    assert ReleaseSource.ReadAssets(GitHub, raw) == SharedAssetList();
  }

  lemma SharedManaged()
    ensures var sv := SharedServer();
            ValidServer(sv) && Managed(sv) == map[5 := 1] && MarkerOf(sv.releases[1]) == Some(Marker(5, SHARED))
  {
    hide *;
    var sv, m := SharedServer(), Marker(5, SHARED);
    SharedMarkerIs();
    BodyRoundTripIff("", m);
    SharedServerIs(EncodeBody("", m));
    MarkerIdIs(sv.releases[1], m);
    OneManaged(sv.releases, 1, 5);
    ManagedIs(sv);
  }

  lemma SharedMarkerIs()
    ensures Keyed(Marker(5, SHARED)) && NoEmptyDigest(Marker(5, SHARED))
  {
  }

  lemma SharedServerIs(body: string)
    requires body == EncodeBody("", Marker(5, SHARED))
    ensures var sv := SharedServer();
            ValidServer(sv) && sv.order == [1] && 1 in sv.releases && sv.releases[1].body == body
  {
    hide EncodeBody;
  }

  lemma MarkerIdIs(r: Release, m: Marker)
    requires DecodeMarker(r.body) == Some(m)
    ensures MarkerOf(r) == Some(m) && MarkerId(r) == Some(m.githubId)
  {
    hide DecodeMarker;
  }

  lemma OneManaged(releases: map<int, Release>, id: int, k: int)
    requires id in releases && MarkerId(releases[id]) == Some(k)
    ensures ManagedIds([id], releases) == map[k := id]
  {
    hide MarkerId;
    assert [id][..0] == [];
  }

  lemma ManagedIs(sv: Server)
    requires forall i | 0 <= i < |sv.order| :: sv.order[i] in sv.releases
    ensures Managed(sv) == ManagedIds(sv.order, sv.releases)
  {
  }

  lemma SharedClearly()
    ensures Unobstructed(SHARED, map[2 := Attachment("a", 1)], SharedAssetList(), Settings(true, None))
    ensures forall settings :: Unobstructed(SHARED, map[2 := Attachment("a", 1)], SharedAssetList(), settings)
    ensures !Clear(SHARED, map[2 := Attachment("a", 1)], SharedAssetList()) && Distinct(SharedAssetList()) && Issued(SHARED, 3)
  {
    var assets, at := SharedAssetList(), map[2 := Attachment("a", 1)];
    assert assets[0].id == 6 && assets[1].id == 7;
    assert HasId(assets, 6) && HasId(assets, 7);
    assert !NamedByStale(2, SHARED, assets);
    assert 2 in Surviving(SHARED, at, assets);
    assert SharesPlace(6, 7, SHARED, at, assets);
  }

  lemma SharedFits()
    ensures Payload(SharedSource(), Marker(5, SHARED)).Success? && Fits(SharedSource(), SharedAssetList(), 10)
  {
    hide BoundedBody;
    assert SHARED.Keys == {6, 7};
    SmallFits("u", Marker(5, SHARED));
    forall m | AllFiled(m, SharedAssetList()) && Below(m, 10)
      ensures Payload(SharedSource(), Marker(5, m)).Success?
    {
      FiledSmall(m);
      SmallFits("u", Marker(5, m));
    }
  }

  lemma FiledSmall(m: map<int, MirroredAsset>)
    requires AllFiled(m, SharedAssetList()) && Below(m, 10)
    ensures |m| <= 2 && forall k | k in m :: Small(m[k])
  {
    var assets := SharedAssetList();
    forall k | k in m
      ensures (k == 6 || k == 7) && Small(m[k])
    {
      var i :| 0 <= i < |assets| && assets[i].id == k;
      assert Filed(m, assets[i]);
    }
    assert forall k :: k in m.Keys ==> k in {6, 7};
    assert m.Keys <= {6, 7};
    SubsetSize(m.Keys, {6, 7});
  }

  lemma {:induction false} SubsetSize(a: set<int>, b: set<int>)
    requires a <= b
    ensures |a| <= |b|
    decreases |a|
  {
    if |a| > 0 {
      var x := PickOne(a);
      SubsetSize(a - {x}, b - {x});
    }
  }

  /** Nothing stands in the way of a run over the shared marker, and it is not clear. */
  lemma SharedInput(settings: Settings)
    ensures var sv, sources := SharedServer(), ReadReleases(GitHub, "", SharedReleases());
            ValidServer(sv) && DistinctSources(sources) && AllNamed(sources) && Trusty(sv)
            && AllSmooth(sv, sources, true, AllAssets, None, settings, 10) && !AllClear(sv, sources, true, AllAssets, None)
  {
    hide *;
    SharedSources();
    SharedManaged();
    SharedClearly();
    SharedFits();
    SharedInputIs(settings);
  }

  lemma SharedInputIs(settings: Settings)
    requires ValidServer(SharedServer()) && Managed(SharedServer()) == map[5 := 1]
    requires MarkerOf(SharedServer().releases[1]) == Some(Marker(5, SHARED))
    requires Unobstructed(SHARED, map[2 := Attachment("a", 1)], SharedAssetList(), settings)
    requires !Clear(SHARED, map[2 := Attachment("a", 1)], SharedAssetList()) && Distinct(SharedAssetList()) && Issued(SHARED, 3)
    requires Payload(SharedSource(), Marker(5, SHARED)).Success? && Fits(SharedSource(), SharedAssetList(), 10)
    ensures var sv, sources := SharedServer(), [SharedSource()];
            DistinctSources(sources) && AllNamed(sources) && Trusty(sv)
            && AllSmooth(sv, sources, true, AllAssets, None, settings, 10) && !AllClear(sv, sources, true, AllAssets, None)
  {
    hide Unobstructed, Clear, Fits, Payload, Issued, MarkerOf, ManagedIds, EncodeBody;
    var sv, s := SharedServer(), SharedSource();
    assert Wanted(s, true, AllAssets, None) == Some(SharedAssetList());
    assert Smooth(sv, s, Some(SharedAssetList()), settings, 10);
    assert !ClearFor(sv, s, Some(SharedAssetList()));
    assert [s][0] == s;
  }

  /** A run without failing calls over this server is clean, and afterwards the release is still
      not settled. */
  method SharedMarkerRun(settings: Settings) returns (r: Outcome, gitea: Gitea)
    ensures fresh(gitea) && (gitea.faults == 0 && gitea.nextId <= 10 ==>
              r == Clean && !AllSettled(gitea.View(), ReadReleases(GitHub, "", SharedReleases()), true, AllAssets, None))
  {
    hide *;
    SharedInput(settings);
    gitea := new Gitea(settings, SharedServer());
    var mirror := new ReleaseMirror(gitea);
    NothingChosen();
    r := mirror.Mirror(GitHub, "", SharedReleases(), None, true, AllAssets);
    ghost var sources := ReadReleases(GitHub, "", SharedReleases());
    if gitea.faults == 0 && gitea.nextId <= 10 {
      AllSmoothBound(SharedServer(), sources, true, AllAssets, None, settings, 10, gitea.nextId);
      CleanRunSettlesIff(SharedServer(), gitea.View(), sources, true, AllAssets, None);
    }
  }

  lemma NothingChosen()
    ensures Chosen(true, AllAssets, None) == None
  {
  }
}
