/** The ownership marker of githarbor/services/releases.py: written behind the release notes as
    JSON inside base64url inside a trailing comment, read back, and kept within Gitea's limit. */
module ReleaseMarker {
  import opened Wrappers
  import Utf8
  import Base64Url
  import opened Json
  import opened Text

  datatype MirroredAsset = MirroredAsset(githubId: int, giteaId: int, name: string, size: int, digest: Option<string>)

  /** Assets are keyed by their GitHub id. */
  datatype Marker = Marker(githubId: int, assets: map<int, MirroredAsset>)

  ghost predicate Keyed(m: Marker) {
    forall k | k in m.assets :: m.assets[k].githubId == k
  }

  // ---------------------------------------------------------------- encoding

  ghost function PickOne<T>(s: set<T>): (x: T)
    requires |s| > 0
    ensures x in s
  {
    var x :| x in s;
    x
  }

  lemma {:induction false} SmallestExists(keys: set<int>)
    requires |keys| > 0
    ensures exists k :: k in keys && forall j | j in keys :: k <= j
    decreases |keys|
  {
    var x := PickOne(keys);
    var rest := keys - {x};
    if |rest| == 0 {
      assert forall j | j in keys :: j == x || j in rest;
    } else {
      SmallestExists(rest);
      var k :| k in rest && forall j | j in rest :: k <= j;
      var s := if x < k then x else k;
      forall j | j in keys
        ensures s <= j
      {
        assert j == x || j in rest;
      }
      assert s in keys;
    }
  }

  function Smallest(keys: set<int>): (k: int)
    requires |keys| > 0
    ensures k in keys && forall j | j in keys :: k <= j
  {
    SmallestExists(keys);
    var k :| k in keys && forall j | j in keys :: k <= j;
    k
  }

  function SortedKeys(keys: set<int>): (r: seq<int>)
    ensures forall i | 0 <= i < |r| :: r[i] in keys
    ensures forall i, j | 0 <= i < j < |r| :: r[i] < r[j]
    decreases |keys|
  {
    if |keys| == 0 then [] else
      var k := Smallest(keys);
      [k] + SortedKeys(keys - {k})
  }

  lemma {:induction false} SortedKeysComplete(keys: set<int>, k: int)
    requires k in keys
    ensures k in SortedKeys(keys)
    decreases |keys|
  {
    var s := Smallest(keys);
    if k != s {
      SortedKeysComplete(keys - {s}, k);
    }
  }

  /** The assets in ascending order of GitHub id. */
  function SortedAssets(assets: map<int, MirroredAsset>): (r: seq<MirroredAsset>) {
    AssetsAt(assets, SortedKeys(assets.Keys))
  }

  function AssetsAt(assets: map<int, MirroredAsset>, keys: seq<int>): seq<MirroredAsset>
    requires forall i | 0 <= i < |keys| :: keys[i] in assets
  {
    seq(|keys|, i requires 0 <= i < |keys| => assets[keys[i]])
  }

  function AssetJson(a: MirroredAsset): Json {
    Obj([Field("digest", if a.digest.Some? then Str(a.digest.value) else Null), Field("gitea_id", Int(a.giteaId)),
         Field("github_id", Int(a.githubId)), Field("name", Str(a.name)), Field("size", Int(a.size))])
  }

  function AssetsJson(assets: seq<MirroredAsset>): (r: seq<Json>)
    ensures |r| == |assets| && forall i | 0 <= i < |r| :: r[i] == AssetJson(assets[i])
  {
    seq(|assets|, i requires 0 <= i < |assets| => AssetJson(assets[i]))
  }

  function MarkerJson(m: Marker): Json {
    Obj([Field("assets", Arr(AssetsJson(SortedAssets(m.assets)))), Field("github_id", Int(m.githubId)), Field("version", Int(1))])
  }

  const OPEN := "<!-- githarbor-release:"
  const CLOSE := " -->"

  function MarkerText(m: Marker): string {
    Base64Url.Encode(Utf8.Encode(Print(MarkerJson(m))))
  }

  function MarkerComment(m: Marker): string {
    OPEN + MarkerText(m) + CLOSE
  }

  function EncodeBody(body: string, m: Marker): string {
    if body == "" then MarkerComment(m) else body + "\n\n" + MarkerComment(m)
  }

  // ---------------------------------------------------------------- decoding

  /** The last member of that name, as a dictionary built left to right keeps it. */
  function Get(fields: seq<Field>, key: string): Option<Json> {
    if fields == [] then None
    else if fields[|fields| - 1].key == key then Some(fields[|fields| - 1].value)
    else Get(fields[..|fields| - 1], key)
  }

  /** Integer conversion of a member that must be present. */
  function AsInt(v: Option<Json>): Option<int> {
    if v.None? then None
    else match v.value
      case Int(n) => Some(n)
      case Bool(b) => Some(if b then 1 else 0)
      case _ => None
  }

  function ReadAsset(v: Json): Option<MirroredAsset>
    requires v.Obj?
  {
    var id, gitea, size := AsInt(Get(v.fields, "github_id")), AsInt(Get(v.fields, "gitea_id")), AsInt(Get(v.fields, "size"));
    var name, digest := Get(v.fields, "name"), Get(v.fields, "digest");
    if id.None? || gitea.None? || size.None? || name.None? || !name.value.Str? then None
    else Some(MirroredAsset(id.value, gitea.value, name.value.s, size.value,
                            if digest.Some? && digest.value.Str? && digest.value.s != "" then Some(digest.value.s) else None))
  }

  /** Reads the asset list; entries that are not objects are skipped, a malformed one spoils
      the marker, and a later entry replaces an earlier one with the same id. */
  function ReadAssets(items: seq<Json>): Option<map<int, MirroredAsset>> {
    if items == [] then Some(map[]) else
      match ReadAssets(items[..|items| - 1])
      case None => None
      case Some(assets) =>
        var v := items[|items| - 1];
        if !v.Obj? then Some(assets) else
          match ReadAsset(v)
          case None => None
          case Some(a) => Some(assets[a.githubId := a])
  }

  function ReadMarker(v: Json): Option<Marker> {
    if !v.Obj? || AsInt(Get(v.fields, "version")) != Some(1) then None else
      var list := Get(v.fields, "assets").GetOr(Arr([]));
      var id := AsInt(Get(v.fields, "github_id"));
      if !list.Arr? || id.None? then None else
        match ReadAssets(list.items)
        case None => None
        case Some(assets) => Some(Marker(id.value, assets))
  }

  function SymbolRun(s: string): (k: nat)
    ensures k <= |s|
    ensures forall i | 0 <= i < k :: Base64Url.IsSymbol(s[i])
    ensures k < |s| ==> !Base64Url.IsSymbol(s[k])
  {
    if s != "" && Base64Url.IsSymbol(s[0]) then 1 + SymbolRun(s[1..]) else 0
  }

  /** The marker pattern anchored at the start of `s`: the comment, then space up to the end. */
  function MatchHere(s: string): (r: Option<string>)
    ensures r.Some? ==> Base64Url.AllSymbols(r.value)
  {
    if !(OPEN <= s) then None else
      var t := s[|OPEN|..];
      var k := SymbolRun(t);
      if k > 0 && CLOSE <= t[k..] && AllWhite(t[k + |CLOSE|..]) then Some(t[..k]) else None
  }

  /** The leftmost match. */
  function Search(s: string): (r: Option<string>)
    ensures r.Some? ==> Base64Url.AllSymbols(r.value)
  {
    if MatchHere(s).Some? then MatchHere(s)
    else if s == "" then None
    else Search(s[1..])
  }

  function DecodeText(text: string): Option<Marker>
    requires Base64Url.AllSymbols(text)
  {
    match Base64Url.Decode(text)
    case None => None
    case Some(bytes) =>
      match Utf8.Decode(bytes)
      case None => None
      case Some(json) =>
        match Parse(json)
        case None => None
        case Some(v) => ReadMarker(v)
  }

  function DecodeMarker(body: string): Option<Marker> {
    match Search(body)
    case None => None
    case Some(text) => DecodeText(text)
  }

  // ---------------------------------------------------------------- assets round trip

  /** The marker a reader gets: an empty digest reads back as no digest. */
  function Normalized(m: Marker): Marker {
    Marker(m.githubId, map k | k in m.assets :: WithoutEmptyDigest(m.assets[k]))
  }

  function WithoutEmptyDigest(a: MirroredAsset): MirroredAsset {
    if a.digest == Some("") then a.(digest := None) else a
  }

  ghost predicate NoEmptyDigest(m: Marker) {
    forall k | k in m.assets :: m.assets[k].digest != Some("")
  }

  /** Whatever a body holds, a marker read from it keys its assets by their GitHub ids and has
      no empty digest. */
  lemma DecodedIsKeyed(body: string)
    ensures DecodeMarker(body).Some? ==> Keyed(DecodeMarker(body).value) && NoEmptyDigest(DecodeMarker(body).value)
  {
    var text := Search(body);
    if text.Some? && Base64Url.Decode(text.value).Some? && Utf8.Decode(Base64Url.Decode(text.value).value).Some? {
      var v := Parse(Utf8.Decode(Base64Url.Decode(text.value).value).value);
      if v.Some? && v.value.Obj? {
        var list := Get(v.value.fields, "assets").GetOr(Arr([]));
        if list.Arr? {
          ReadAssetsKeyed(list.items);
        }
      }
    }
  }

  lemma {:induction false} ReadAssetsKeyed(items: seq<Json>)
    ensures ReadAssets(items).Some? ==> forall k | k in ReadAssets(items).value ::
              ReadAssets(items).value[k].githubId == k && ReadAssets(items).value[k].digest != Some("")
  {
    if items != [] {
      ReadAssetsKeyed(items[..|items| - 1]);
    }
  }

  lemma AssetRoundTrip(a: MirroredAsset)
    ensures ReadAsset(AssetJson(a)) == Some(WithoutEmptyDigest(a))
  {
    var f := AssetJson(a).fields;
    LookUp(f, 0);
    LookUp(f, 1);
    LookUp(f, 2);
    LookUp(f, 3);
    LookUp(f, 4);
  }

  ghost predicate DistinctKeys(fields: seq<Field>) {
    forall i, j | 0 <= i < j < |fields| :: fields[i].key != fields[j].key
  }

  lemma {:induction false} LookUp(fields: seq<Field>, i: nat)
    requires DistinctKeys(fields) && i < |fields|
    ensures Get(fields, fields[i].key) == Some(fields[i].value)
  {
    if i < |fields| - 1 {
      LookUp(fields[..|fields| - 1], i);
    }
  }

  function AssetMap(assets: seq<MirroredAsset>): map<int, MirroredAsset> {
    if assets == [] then map[]
    else AssetMap(assets[..|assets| - 1])[assets[|assets| - 1].githubId := WithoutEmptyDigest(assets[|assets| - 1])]
  }

  lemma {:induction false} AssetsRoundTrip(assets: seq<MirroredAsset>)
    ensures ReadAssets(AssetsJson(assets)) == Some(AssetMap(assets))
  {
    if assets != [] {
      var n := |assets| - 1;
      assert AssetsJson(assets)[..n] == AssetsJson(assets[..n]);
      AssetsRoundTrip(assets[..n]);
      AssetRoundTrip(assets[n]);
    }
  }

  lemma {:induction false} AssetMapOfKeys(assets: map<int, MirroredAsset>, keys: seq<int>)
    requires forall i | 0 <= i < |keys| :: keys[i] in assets && assets[keys[i]].githubId == keys[i]
    ensures var r := AssetMap(AssetsAt(assets, keys));
            (forall k :: k in r <==> k in keys) && forall k | k in r :: k in assets && r[k] == WithoutEmptyDigest(assets[k])
  {
    if keys != [] {
      var n := |keys| - 1;
      assert keys == keys[..n] + [keys[n]];
      assert AssetsAt(assets, keys)[..n] == AssetsAt(assets, keys[..n]);
      AssetMapOfKeys(assets, keys[..n]);
    }
  }

  lemma SameAssets(a: map<int, MirroredAsset>, b: map<int, MirroredAsset>)
    requires forall k | k in a :: k in b && a[k] == b[k]
    requires forall k | k in b :: k in a
    ensures a == b
  {
    assert forall k :: k in a.Keys ==> k in b.Keys;
    assert a.Keys <= b.Keys;
    assert forall k :: k in b.Keys ==> k in a.Keys;
    assert b.Keys <= a.Keys;
    assert a.Keys == b.Keys;
    assert forall k :: k in a.Keys ==> a[k] == b[k];
  }

  lemma SortedKeysAre(keys: set<int>)
    ensures forall k :: k in SortedKeys(keys) <==> k in keys
  {
    forall k
      ensures k in SortedKeys(keys) <==> k in keys
    {
      if k in keys {
        SortedKeysComplete(keys, k);
      }
    }
  }

  lemma AssetMapOfAll(m: Marker)
    requires Keyed(m)
    ensures AssetMap(SortedAssets(m.assets)) == Normalized(m).assets
  {
    SortedKeysAre(m.assets.Keys);
    AssetMapOfKeys(m.assets, SortedKeys(m.assets.Keys));
    var r := AssetMap(AssetsAt(m.assets, SortedKeys(m.assets.Keys)));
    assert SortedAssets(m.assets) == AssetsAt(m.assets, SortedKeys(m.assets.Keys));
    hide AssetMap, AssetsAt, WithoutEmptyDigest, SortedKeys, SortedAssets;
    SameAssets(r, Normalized(m).assets);
  }

  lemma SortedAssetsRoundTrip(m: Marker)
    requires Keyed(m)
    ensures ReadAssets(AssetsJson(SortedAssets(m.assets))) == Some(Normalized(m).assets)
  {
    hide *;
    AssetsRoundTrip(SortedAssets(m.assets));
    AssetMapOfAll(m);
  }

  lemma MarkerJsonRoundTrip(m: Marker)
    requires Keyed(m)
    ensures ReadMarker(MarkerJson(m)) == Some(Normalized(m))
  {
    var f := MarkerJson(m).fields;
    LookUp(f, 0);
    LookUp(f, 1);
    LookUp(f, 2);
    SortedAssetsRoundTrip(m);
    hide AssetsJson, ReadAssets, SortedAssets, Keyed, Get;
    assert f[0].key == "assets" && f[1].key == "github_id" && f[2].key == "version";
  }

  lemma MarkerPrintable(m: Marker)
    ensures Printable(MarkerJson(m))
  {
    var items := AssetsJson(SortedAssets(m.assets));
    forall i | 0 <= i < |items|
      ensures Printable(items[i])
    {
    }
    assert Printable(Arr(items));
  }

  lemma TextRoundTrip(m: Marker)
    requires Keyed(m)
    ensures Base64Url.AllSymbols(MarkerText(m)) && DecodeText(MarkerText(m)) == Some(Normalized(m))
  {
    var json := Print(MarkerJson(m));
    Base64Url.DecodeEncoded(Utf8.Encode(json));
    Utf8.DecodeEncoded(json);
    MarkerPrintable(m);
    RoundTrip(MarkerJson(m));
    MarkerJsonRoundTrip(m);
  }

  // ---------------------------------------------------------------- finding the comment

  /** Position `i` starts a match whose text is `s[i + |OPEN|..e]`. */
  ghost predicate MatchesAt(s: string, i: nat, e: nat) {
    && i + |OPEN| < e && e + |CLOSE| <= |s|
    && s[i..i + |OPEN|] == OPEN && s[e..e + |CLOSE|] == CLOSE
    && (forall k | i + |OPEN| <= k < e :: Base64Url.IsSymbol(s[k]))
    && (forall k | e + |CLOSE| <= k < |s| :: IsWhite(s[k]))
  }

  lemma MatchHereAt(s: string, i: nat)
    requires i <= |s| && MatchHere(s[i..]).Some?
    ensures MatchesAt(s, i, i + |OPEN| + |MatchHere(s[i..]).value|)
    ensures MatchHere(s[i..]).value == s[i + |OPEN|..i + |OPEN| + |MatchHere(s[i..]).value|]
  {
    hide SymbolRun, Base64Url.IsSymbol, IsWhite;
    var u := s[i..];
    var t := u[|OPEN|..];
    var k := SymbolRun(t);
    var e := i + |OPEN| + k;
    assert t == s[i + |OPEN|..];
    assert s[i..i + |OPEN|] == u[..|OPEN|] == OPEN;
    assert s[e..e + |CLOSE|] == t[k..][..|CLOSE|] == CLOSE;
    SymbolsIn(s, t, i + |OPEN|, k);
    WhiteIn(s, t[k + |CLOSE|..], e + |CLOSE|);
  }

  lemma SymbolsIn(s: string, t: string, i: nat, k: nat)
    requires i <= |s| && t == s[i..] && k <= |t| && forall j | 0 <= j < k :: Base64Url.IsSymbol(t[j])
    ensures forall j | i <= j < i + k :: Base64Url.IsSymbol(s[j])
  {
    hide Base64Url.IsSymbol;
    forall j | i <= j < i + k
      ensures Base64Url.IsSymbol(s[j])
    {
      assert s[j] == t[j - i];
    }
  }

  lemma WhiteIn(s: string, t: string, i: nat)
    requires i <= |s| && t == s[i..] && AllWhite(t)
    ensures forall j | i <= j < |s| :: IsWhite(s[j])
  {
    hide IsWhite;
    forall j | i <= j < |s|
      ensures IsWhite(s[j])
    {
      assert s[j] == t[j - i];
    }
  }

  lemma {:induction false} RunLength(t: string, k: nat)
    requires k < |t| && !Base64Url.IsSymbol(t[k]) && forall j | 0 <= j < k :: Base64Url.IsSymbol(t[j])
    ensures SymbolRun(t) == k
  {
    if k > 0 {
      RunLength(t[1..], k - 1);
    }
  }

  lemma MatchesAtHere(s: string, i: nat, e: nat)
    requires MatchesAt(s, i, e)
    ensures MatchHere(s[i..]).Some?
  {
    var u, t, k := s[i..], s[i + |OPEN|..], e - i - |OPEN|;
    assert u[..|OPEN|] == s[i..i + |OPEN|];
    assert t == u[|OPEN|..];
    assert t[k] == s[e] == s[e..e + |CLOSE|][0] == ' ';
    RunLength(t, k);
    assert t[k..][..|CLOSE|] == s[e..e + |CLOSE|];
    assert t[k + |CLOSE|..] == s[e + |CLOSE|..];
    hide SymbolRun, Base64Url.IsSymbol, IsWhite;
  }

  /** A body has at most one match: the close must be the last thing before trailing space, and
      the run of symbols before it is preceded by a colon. */
  lemma MatchIsUnique(s: string, i: nat, e: nat, j: nat, f: nat)
    requires MatchesAt(s, i, e) && MatchesAt(s, j, f)
    ensures i == j && e == f
  {
    assert s[e + 3] == s[e..e + |CLOSE|][3] == '>' && s[f + 3] == s[f..f + |CLOSE|][3] == '>';
    assert !IsWhite('>');
    assert e == f;
    var n := |OPEN| - 1;
    assert s[i + n] == s[i..i + |OPEN|][n] == ':' && s[j + n] == s[j..j + |OPEN|][n] == ':';
    assert !Base64Url.IsSymbol(':');
  }

  lemma {:induction false} SearchFinds(s: string, i: nat)
    requires i <= |s| && MatchHere(s[i..]).Some?
    requires forall j | 0 <= j < i :: MatchHere(s[j..]).None?
    ensures Search(s) == MatchHere(s[i..])
  {
    hide MatchHere;
    assert s[0..] == s;
    if i > 0 {
      assert s[1..][i - 1..] == s[i..];
      forall j | 0 <= j < i - 1
        ensures MatchHere(s[1..][j..]).None?
      {
        assert s[1..][j..] == s[j + 1..];
      }
      SearchFinds(s[1..], i - 1);
    }
  }

  lemma AppendedMatches(prefix: string, text: string)
    requires text != "" && Base64Url.AllSymbols(text)
    ensures var s := prefix + (OPEN + text + CLOSE);
            MatchesAt(s, |prefix|, |prefix| + |OPEN| + |text|) && s[|prefix| + |OPEN|..|prefix| + |OPEN| + |text|] == text
  {
    var s := prefix + (OPEN + text + CLOSE);
    var i, e := |prefix|, |prefix| + |OPEN| + |text|;
    assert s[i..i + |OPEN|] == OPEN && s[e..e + |CLOSE|] == CLOSE;
    assert forall k | i + |OPEN| <= k < e :: s[k] == text[k - i - |OPEN|];
  }

  /** Behind any text, even text full of marker-like comments, the search finds exactly the
      comment that was appended. */
  lemma SearchFindsAppended(prefix: string, text: string)
    requires text != "" && Base64Url.AllSymbols(text)
    ensures Search(prefix + (OPEN + text + CLOSE)) == Some(text)
  {
    hide *;
    AppendedMatches(prefix, text);
    SearchFindsMatch(prefix + (OPEN + text + CLOSE), |prefix|, |prefix| + |OPEN| + |text|);
  }

  lemma MatchBounds(s: string, i: nat, e: nat)
    requires MatchesAt(s, i, e)
    ensures i + |OPEN| < e <= |s|
  {
  }

  lemma SearchFindsMatch(s: string, i: nat, e: nat)
    requires MatchesAt(s, i, e)
    ensures Search(s) == Some(s[i + |OPEN|..e])
  {
    hide *;
    MatchBounds(s, i, e);
    MatchesAtHere(s, i, e);
    MatchHereAt(s, i);
    MatchIsUnique(s, i, e, i, i + |OPEN| + |MatchHere(s[i..]).value|);
    forall j | 0 <= j < i
      ensures MatchHere(s[j..]).None?
    {
      if MatchHere(s[j..]).Some? {
        MatchHereAt(s, j);
        MatchIsUnique(s, i, e, j, j + |OPEN| + |MatchHere(s[j..]).value|);
      }
    }
    SearchFinds(s, i);
  }

  lemma MarkerTextNonEmpty(m: Marker)
    ensures MarkerText(m) != ""
  {
    var json := Print(MarkerJson(m));
    assert json[0] == '{';
    assert |Utf8.Encode(json)| >= 1;
  }

  /** MARKER ROUND TRIP. Whatever text stands in front of it, a marker comment at the end of a
      body is the one that is read, and reads back as the marker with empty digests dropped. */
  lemma DecodeAppended(prefix: string, m: Marker)
    requires Keyed(m)
    ensures DecodeMarker(prefix + MarkerComment(m)) == Some(Normalized(m))
  {
    TextRoundTrip(m);
    MarkerTextNonEmpty(m);
    SearchFindsAppended(prefix, MarkerText(m));
  }

  lemma DecodeEncoded(body: string, m: Marker)
    requires Keyed(m)
    ensures DecodeMarker(EncodeBody(body, m)) == Some(Normalized(m))
  {
    DecodeAppended(if body == "" then "" else body + "\n\n", m);
    hide DecodeMarker, Normalized, Keyed, MarkerComment;
    assert "" + MarkerComment(m) == MarkerComment(m);
  }

  lemma NormalIsUnchanged(m: Marker)
    requires NoEmptyDigest(m)
    ensures Normalized(m) == m
  {
    SameAssets(Normalized(m).assets, m.assets);
  }

  /** MARKER ROUND TRIP, exactly: encoding then decoding returns the marker if and only if no
      asset has an empty digest. */
  lemma BodyRoundTripIff(body: string, m: Marker)
    requires Keyed(m)
    ensures DecodeMarker(EncodeBody(body, m)) == Some(m) <==> NoEmptyDigest(m)
  {
    DecodeEncoded(body, m);
    if NoEmptyDigest(m) {
      NormalIsUnchanged(m);
    } else {
      var k :| k in m.assets && m.assets[k].digest == Some("");
      assert Normalized(m).assets[k].digest == None;
    }
  }

  // ---------------------------------------------------------------- bounded bodies

  const MAX_BODY_BYTES := 65_000

  function Bytes(s: string): nat {
    |Utf8.Encode(s)|
  }

  function Notice(url: string): string {
    "\n\n---\n\n> Release notes were truncated by GitHarbor to fit Gitea's storage limit. [View the complete upstream release notes]("
    + url + ")."
  }

  function Suffix(url: string, m: Marker): string {
    Notice(url) + "\n\n" + EncodeBody("", m)
  }

  /** The body to store, and whether the notes were truncated; Failure is the raised error. */
  function BoundedBody(body: string, url: string, m: Marker): Result<(string, bool)> {
    var full := EncodeBody(body, m);
    if Bytes(full) <= MAX_BODY_BYTES then Success((full, false))
    else if Bytes(Suffix(url, m)) > MAX_BODY_BYTES then Failure
    else
      var available := MAX_BODY_BYTES - Bytes(Suffix(url, m));
      Success((Utf8.DecodeIgnore(Slice(Utf8.Encode(body), available)) + Suffix(url, m), true))
  }

  lemma {:induction false} FittingAll(s: string, n: nat)
    requires Bytes(s) <= n
    ensures Utf8.Fitting(s, n) == |s|
  {
    Utf8.FittingIsLongest(s, n, |s|);
    assert s[..|s|] == s;
  }

  /** BOUNDED BODY. A stored body is at most 65,000 bytes and decodes to the marker; a body that
      fits is stored unchanged; otherwise the kept notes are the longest prefix of whole
      characters that fits beside the notice and marker; the error is raised exactly when the
      full body does not fit and the notice and marker alone are too long. */
  lemma BoundedBodyIsRight(body: string, url: string, m: Marker)
    requires Keyed(m)
    ensures var r := BoundedBody(body, url, m);
            && (r.Failure? <==> Bytes(EncodeBody(body, m)) > MAX_BODY_BYTES && Bytes(Suffix(url, m)) > MAX_BODY_BYTES)
            && (r.Success? ==> Bytes(r.value.0) <= MAX_BODY_BYTES && DecodeMarker(r.value.0) == Some(Normalized(m)))
            && (r.Success? && !r.value.1 ==> r.value.0 == EncodeBody(body, m))
            && (r.Success? && r.value.1 ==> KeepsLongestPrefix(body, url, m, r.value.0))
  {
    var r := BoundedBody(body, url, m);
    hide Keyed, Normalized, DecodeMarker, KeepsLongestPrefix, MarkerComment, Notice, Utf8.DecodeIgnore;
    if r.Success? && !r.value.1 {
      DecodeEncoded(body, m);
    } else if r.Success? {
      TruncatedBody(body, url, m);
    }
  }

  lemma BoundedBodyDecodes(body: string, url: string, m: Marker)
    requires Keyed(m)
    ensures BoundedBody(body, url, m).Success? ==> DecodeMarker(BoundedBody(body, url, m).value.0) == Some(Normalized(m))
  {
    hide *;
    BoundedBodyIsRight(body, url, m);
  }

  ghost predicate KeepsLongestPrefix(body: string, url: string, m: Marker, stored: string) {
    exists k | 0 <= k <= |body| :: stored == body[..k] + Suffix(url, m) && LongestKept(body, Suffix(url, m), k)
  }

  ghost predicate LongestKept(body: string, suffix: string, k: nat)
    requires k <= |body|
  {
    forall j | 0 <= j <= |body| :: Bytes(body[..j] + suffix) <= MAX_BODY_BYTES <==> j <= k
  }

  lemma KeptPrefix(body: string, available: nat)
    ensures Utf8.DecodeIgnore(Slice(Utf8.Encode(body), available)) == body[..Utf8.Fitting(body, available)]
  {
    if available <= |Utf8.Encode(body)| {
      Utf8.TruncationKeepsPrefix(body, available);
    } else {
      FittingAll(body, available);
      Utf8.TruncationKeepsPrefix(body, |Utf8.Encode(body)|);
      FittingAll(body, |Utf8.Encode(body)|);
      assert Utf8.Encode(body)[..|Utf8.Encode(body)|] == Utf8.Encode(body);
    }
  }

  lemma FittingIsLongestKept(body: string, suffix: string)
    requires Bytes(suffix) <= MAX_BODY_BYTES
    ensures LongestKept(body, suffix, Utf8.Fitting(body, MAX_BODY_BYTES - Bytes(suffix)))
  {
    var available := MAX_BODY_BYTES - Bytes(suffix);
    forall j | 0 <= j <= |body|
      ensures Bytes(body[..j] + suffix) <= MAX_BODY_BYTES <==> j <= Utf8.Fitting(body, available)
    {
      Utf8.EncodeAppend(body[..j], suffix);
      Utf8.FittingIsLongest(body, available, j);
    }
  }

  lemma SuffixIs(url: string, m: Marker)
    ensures Suffix(url, m) == Notice(url) + "\n\n" + MarkerComment(m)
  {
    hide Notice, MarkerComment;
  }

  lemma Associate(a: string, b: string, c: string)
    ensures a + (b + "\n\n" + c) == a + b + "\n\n" + c
  {
  }

  lemma SuffixDecodes(prefix: string, url: string, m: Marker)
    requires Keyed(m)
    ensures DecodeMarker(prefix + Suffix(url, m)) == Some(Normalized(m))
  {
    hide *;
    SuffixIs(url, m);
    Associate(prefix, Notice(url), MarkerComment(m));
    DecodeAppended(prefix + Notice(url) + "\n\n", m);
  }

  lemma TruncatedBody(body: string, url: string, m: Marker)
    requires Keyed(m) && BoundedBody(body, url, m).Success? && BoundedBody(body, url, m).value.1
    ensures var stored := BoundedBody(body, url, m).value.0;
            Bytes(stored) <= MAX_BODY_BYTES && DecodeMarker(stored) == Some(Normalized(m)) && KeepsLongestPrefix(body, url, m, stored)
  {
    hide DecodeMarker, Normalized, Suffix, Keyed, Utf8.DecodeIgnore, Utf8.Fitting, Utf8.Encode, EncodeBody;
    var k := Utf8.Fitting(body, MAX_BODY_BYTES - Bytes(Suffix(url, m)));
    KeptPrefix(body, MAX_BODY_BYTES - Bytes(Suffix(url, m)));
    FittingIsLongestKept(body, Suffix(url, m));
    SuffixDecodes(body[..k], url, m);
    assert BoundedBody(body, url, m).value.0 == body[..k] + Suffix(url, m);
  }

  // ---------------------------------------------------------------- what readers see

  /** The body is the notes, with the comment behind them after an empty line; where that takes
      more than 65,000 bytes, it is as many whole characters of them as fit with the notice. */
  ghost predicate ShowsNotes(notes: string, url: string, comment: string, body: string) {
    var whole := if notes == "" then comment else notes + "\n\n" + comment;
    if |Utf8.Encode(whole)| <= 65_000 then body == whole else CutNotes(notes, Ending(url, comment), body)
  }

  ghost function Ending(url: string, comment: string): string {
    "\n\n---\n\n> Release notes were truncated by GitHarbor to fit Gitea's storage limit. [View the complete upstream release notes]("
    + url + ").\n\n" + comment
  }

  ghost predicate CutNotes(notes: string, ending: string, body: string) {
    exists k | 0 <= k <= |notes| :: body == notes[..k] + ending && IsLongestCut(notes, ending, k)
  }

  ghost predicate IsLongestCut(notes: string, ending: string, k: nat)
    requires k <= |notes|
  {
    forall j | 0 <= j <= |notes| :: |Utf8.Encode(notes[..j] + ending)| <= 65_000 <==> j <= k
  }

  lemma SuffixIsEnding(url: string, m: Marker)
    ensures Suffix(url, m) == Ending(url, MarkerComment(m))
  {
    hide *;
    SuffixIs(url, m);
    NoticeIsEnding(url, MarkerComment(m));
  }

  ghost function EndingBehind(head: string, url: string, comment: string): string {
    head + url + ").\n\n" + comment
  }

  lemma BehindHead(head: string, url: string, comment: string)
    ensures head + url + ")." + "\n\n" + comment == EndingBehind(head, url, comment)
  {
    Reparen(head + url, ").", "\n\n", comment);
    assert ")." + "\n\n" == ").\n\n";
  }

  lemma NoticeIsEnding(url: string, comment: string)
    ensures Notice(url) + "\n\n" + comment == Ending(url, comment)
  {
    BehindHead("\n\n---\n\n> Release notes were truncated by GitHarbor to fit Gitea's storage limit. [View the complete upstream release notes](",
               url, comment);
  }

  lemma Reparen(a: string, b: string, c: string, d: string)
    ensures a + b + c + d == a + (b + c) + d
  {
  }

  lemma CommentSpelled(m: Marker)
    ensures MarkerComment(m) == "<!-- githarbor-release:" + MarkerText(m) + " -->"
  {
    hide MarkerText;
  }

  lemma WholeShows(notes: string, url: string, m: Marker)
    requires Bytes(EncodeBody(notes, m)) <= MAX_BODY_BYTES
    ensures ShowsNotes(notes, url, MarkerComment(m), EncodeBody(notes, m))
  {
    hide MarkerComment, Utf8.Encode, CutNotes, Ending;
  }

  lemma CutShows(notes: string, url: string, m: Marker, body: string)
    requires Bytes(EncodeBody(notes, m)) > MAX_BODY_BYTES && KeepsLongestPrefix(notes, url, m, body)
    requires Suffix(url, m) == Ending(url, MarkerComment(m))
    ensures ShowsNotes(notes, url, MarkerComment(m), body)
  {
    hide MarkerComment, Utf8.Encode, Suffix, Ending;
    var k :| 0 <= k <= |notes| && body == notes[..k] + Suffix(url, m) && LongestKept(notes, Suffix(url, m), k);
    assert IsLongestCut(notes, Suffix(url, m), k);
  }

  lemma BoundedIs(body: string, url: string, m: Marker)
    ensures var r := BoundedBody(body, url, m);
            && (r.Success? && !r.value.1 ==> Bytes(EncodeBody(body, m)) <= MAX_BODY_BYTES)
            && (r.Success? && r.value.1 ==> Bytes(EncodeBody(body, m)) > MAX_BODY_BYTES)
  {
    hide EncodeBody, Suffix, Bytes, Utf8.DecodeIgnore;
  }

  lemma TooLongIs(body: string, url: string, m: Marker)
    ensures Bytes(EncodeBody(body, m)) > MAX_BODY_BYTES <==>
            |Utf8.Encode(if body == "" then MarkerComment(m) else body + "\n\n" + MarkerComment(m))| > 65_000
    ensures Suffix(url, m) == Ending(url, MarkerComment(m)) ==>
              (Bytes(Suffix(url, m)) > MAX_BODY_BYTES <==> |Utf8.Encode(Ending(url, MarkerComment(m)))| > 65_000)
  {
    hide MarkerComment, Utf8.Encode, Suffix, Ending;
  }

  /** A stored body shows the notes before the marker's comment; there is none exactly when
      neither the whole nor the ending alone fits. */
  lemma BodyShows(body: string, url: string, m: Marker)
    requires Keyed(m)
    ensures var comment := "<!-- githarbor-release:" + MarkerText(m) + " -->";
            && (BoundedBody(body, url, m).Success? ==> ShowsNotes(body, url, comment, BoundedBody(body, url, m).value.0))
            && (BoundedBody(body, url, m).Failure? <==>
                  |Utf8.Encode(if body == "" then comment else body + "\n\n" + comment)| > 65_000 && |Utf8.Encode(Ending(url, comment))| > 65_000)
  {
    hide *;
    CommentSpelled(m);
    BoundedBodyIsRight(body, url, m);
    BoundedIs(body, url, m);
    SuffixIsEnding(url, m);
    TooLongIs(body, url, m);
    var r := BoundedBody(body, url, m);
    if r.Success? && !r.value.1 {
      WholeShows(body, url, m);
    } else if r.Success? {
      CutShows(body, url, m, r.value.0);
    }
  }

  // ---------------------------------------------------------------- spellings

  /** Members as names in quotes, colons, values, and commas between. */
  function Members(members: seq<(string, string)>): string {
    if members == [] then ""
    else "\"" + members[0].0 + "\":" + members[0].1 + (if |members| == 1 then "" else "," + Members(members[1..]))
  }

  predicate PlainKey(key: string) {
    forall i | 0 <= i < |key| :: 'a' <= key[i] <= 'z' || key[i] == '_'
  }

  lemma {:induction false} FieldsAreMembers(fields: seq<Field>, members: seq<(string, string)>)
    requires |fields| == |members| && forall i | 0 <= i < |fields| :: PlainKey(fields[i].key) && members[i] == (fields[i].key, Print(fields[i].value))
    ensures PrintFields(fields) == Members(members)
  {
    hide Print, EscapeAll;
    if fields != [] {
      PlainText(fields[0].key);
      FieldsAreMembers(fields[1..], members[1..]);
      assert "\"" + fields[0].key + "\"" + ":" == "\"" + fields[0].key + "\":";
    }
  }

  lemma KeysArePlain()
    ensures PlainKey("digest") && PlainKey("gitea_id") && PlainKey("github_id") && PlainKey("name") && PlainKey("size")
    ensures PlainKey("assets") && PlainKey("version")
  {
  }

  lemma ObjectText(v: Json, members: seq<(string, string)>)
    requires v.Obj? && PrintFields(v.fields) == Members(members)
    ensures Print(v) == "{" + Members(members) + "}"
  {
    hide PrintFields, Members;
  }

  /** An asset's record as it is written: its members in the order of their names. */
  lemma AssetSpelled(a: MirroredAsset)
    ensures Print(AssetJson(a)) ==
            "{" + Members([("digest", if a.digest.Some? then PrintString(a.digest.value) else "null"),
                           ("gitea_id", PrintInt(a.giteaId)), ("github_id", PrintInt(a.githubId)),
                           ("name", PrintString(a.name)), ("size", PrintInt(a.size))]) + "}"
  {
    hide PlainKey, PrintFields, PrintString, PrintInt, Members;
    KeysArePlain();
    var members := [("digest", if a.digest.Some? then PrintString(a.digest.value) else "null"),
                    ("gitea_id", PrintInt(a.giteaId)), ("github_id", PrintInt(a.githubId)),
                    ("name", PrintString(a.name)), ("size", PrintInt(a.size))];
    FieldsAreMembers(AssetJson(a).fields, members);
    ObjectText(AssetJson(a), members);
  }

  /** A marker as it is written: the records in ascending order of GitHub id, the source's id, and
      version 1. */
  lemma MarkerSpelled(m: Marker)
    ensures Print(MarkerJson(m)) ==
            "{" + Members([("assets", "[" + PrintItems(AssetsJson(SortedAssets(m.assets))) + "]"),
                           ("github_id", PrintInt(m.githubId)), ("version", "1")]) + "}"
  {
    assert PrintInt(1) == "1";
    hide PlainKey, PrintFields, PrintItems, PrintInt, Members, SortedAssets, AssetsJson;
    KeysArePlain();
    var members := [("assets", "[" + PrintItems(AssetsJson(SortedAssets(m.assets))) + "]"),
                    ("github_id", PrintInt(m.githubId)), ("version", "1")];
    FieldsAreMembers(MarkerJson(m).fields, members);
    ObjectText(MarkerJson(m), members);
  }

  // ---------------------------------------------------------------- what is read

  /** The value of a member is that of its last occurrence. */
  ghost predicate LastMember(fields: seq<Field>, key: string, v: Json, i: int) {
    0 <= i < |fields| && fields[i] == Field(key, v) && forall j | i < j < |fields| :: fields[j].key != key
  }

  lemma {:induction false} GetIsLast(fields: seq<Field>, key: string, v: Json)
    ensures Get(fields, key) == Some(v) <==> exists i :: LastMember(fields, key, v, i)
    ensures Get(fields, key) == None <==> forall i | 0 <= i < |fields| :: fields[i].key != key
  {
    if fields != [] {
      var n := |fields| - 1;
      GetIsLast(fields[..n], key, v);
      if fields[n].key == key {
        assert LastMember(fields, key, fields[n].value, n);
      } else {
        forall i
          ensures LastMember(fields, key, v, i) <==> LastMember(fields[..n], key, v, i)
        {
          assert 0 <= i < n ==> fields[i] == fields[..n][i];
        }
      }
    }
  }

  /** An entry of the list that is an object with this id, the last of its kind. */
  ghost predicate LastAsset(items: seq<Json>, a: MirroredAsset, i: int) {
    && 0 <= i < |items| && items[i].Obj? && ReadAsset(items[i]) == Some(a)
    && forall j | i < j < |items| && items[j].Obj? && ReadAsset(items[j]).Some? :: ReadAsset(items[j]).value.githubId != a.githubId
  }

  /** A list of records is read if and only if each of its objects is; entries of other kinds are
      passed over, and of several records with one id the last counts. */
  lemma {:induction false} ReadAssetsAre(items: seq<Json>, k: int, a: MirroredAsset)
    ensures ReadAssets(items).Some? <==> forall i | 0 <= i < |items| && items[i].Obj? :: ReadAsset(items[i]).Some?
    ensures ReadAssets(items).Some? ==>
              (k in ReadAssets(items).value && ReadAssets(items).value[k] == a <==> a.githubId == k && exists i :: LastAsset(items, a, i))
  {
    hide ReadAsset;
    if items != [] {
      var n := |items| - 1;
      var rest := items[..n];
      ReadAssetsAre(rest, k, a);
      assert forall i | 0 <= i < n :: items[i] == rest[i];
      assert forall i | LastAsset(items, a, i) && i < n :: LastAsset(rest, a, i);
      if items[n].Obj? && ReadAsset(items[n]).Some? {
        var b := ReadAsset(items[n]).value;
        assert LastAsset(items, b, n);
        assert forall i | LastAsset(rest, a, i) && a.githubId != b.githubId :: LastAsset(items, a, i);
      } else {
        assert forall i | LastAsset(rest, a, i) :: LastAsset(items, a, i);
      }
    }
  }

  /** A marker without a list of records has none, and a truth value stands for a number. */
  lemma LenientReading(n: int)
    ensures ReadMarker(Obj([Field("github_id", Int(n)), Field("version", Bool(true))])) == Some(Marker(n, map[]))
  {
    var fields := [Field("github_id", Int(n)), Field("version", Bool(true))];
    assert LastMember(fields, "github_id", Int(n), 0) && LastMember(fields, "version", Bool(true), 1);
    GetIsLast(fields, "github_id", Int(n));
    GetIsLast(fields, "version", Bool(true));
    GetIsLast(fields, "assets", Null);
    hide Get;
    assert ReadAssets([]) == Some(map[]);
  }
}
