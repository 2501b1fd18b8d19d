/**
 The declaration a debugging plugin sends, the check it must pass (ManifestValidate in
 pkg/entities/plugin_entities/plugin_declaration.go) and how the files it names are replaced by
 media identifiers (internal/core/plugin_manager/media_transport/assets.go).

 Of a manifest and of a provider only what these two look at is kept.
 */
module Declarations {
  import opened Wrappers

  datatype Kind = Tool | Model | Endpoint | AgentStrategy | Datasource | Trigger

  /** A field that names an asset. A failing lookup blanks the field, unless it is one that is kept (datasource steps). */
  datatype Icon = Icon(file: string, kept: bool)

  datatype Provider = Provider(name: string, icons: seq<Icon>)

  datatype Declaration = Declaration(author: string, name: string, icons: seq<Icon>, providers: map<Kind, Provider>)

  const NO_DECLARATION := Declaration("", "", [], map[])

  type Assets = map<string, seq<Byte>>

  /** Stores a file and gives its media identifier, or fails. */
  type Upload = (string, seq<Byte>) -> Option<string>

  // ------------------------------------------------------------- the manifest check

  predicate IsName(s: string, limit: nat) {
    && 1 <= |s| <= limit
    && forall i :: 0 <= i < |s| ==> 'a' <= s[i] <= 'z' || '0' <= s[i] <= '9' || s[i] == '_' || s[i] == '-'
  }

  /** Tools and endpoints may come together; any other provider must be the only one. */
  predicate ValidKinds(kinds: set<Kind>) {
    && kinds != {}
    && forall k :: k in kinds && k in [Model, AgentStrategy, Datasource, Trigger] ==> kinds == {k}
  }

  predicate ValidNames(d: Declaration) {
    IsName(d.author, 64) && IsName(d.name, 128)
  }

  predicate ManifestValidate(d: Declaration) {
    ValidNames(d) && ValidKinds(d.providers.Keys)
  }

  /** The codes of lower-case letters, digits, the underscore and the dash. */
  predicate NameCharacter(code: int) {
    97 <= code <= 122 || 48 <= code <= 57 || code == 95 || code == 45
  }

  /**
   A declaration passes the check exactly when author and name are of 1 to 64 and 1 to 128 lower-case letters, digits,
   underscores and dashes, and it has tools, endpoints or both, or one provider of another kind and nothing else.
   */
  lemma ValidExactlyWhen(d: Declaration)
    ensures ManifestValidate(d) <==>
      && 1 <= |d.author| <= 64 && (forall c :: c in d.author ==> NameCharacter(c as int))
      && 1 <= |d.name| <= 128 && (forall c :: c in d.name ==> NameCharacter(c as int))
      && d.providers.Keys in {{Tool}, {Endpoint}, {Tool, Endpoint}, {Model}, {AgentStrategy}, {Datasource}, {Trigger}}
  {
    NameExactlyWhen(d.author, 64);
    NameExactlyWhen(d.name, 128);
    KindsExactlyWhen(d.providers.Keys);
    hide IsName, ValidKinds;
  }

  lemma NameExactlyWhen(s: string, limit: nat)
    ensures IsName(s, limit) <==> 1 <= |s| <= limit && forall c :: c in s ==> NameCharacter(c as int)
  {
    if IsName(s, limit) {
      forall c | c in s ensures NameCharacter(c as int) {
        var i :| 0 <= i < |s| && s[i] == c;
      }
    } else if 1 <= |s| <= limit {
      var i :| 0 <= i < |s| && !('a' <= s[i] <= 'z' || '0' <= s[i] <= '9' || s[i] == '_' || s[i] == '-');
      assert s[i] in s && !NameCharacter(s[i] as int);
    }
  }

  lemma KindsExactlyWhen(kinds: set<Kind>)
    ensures ValidKinds(kinds) <==>
      kinds in {{Tool}, {Endpoint}, {Tool, Endpoint}, {Model}, {AgentStrategy}, {Datasource}, {Trigger}}
  {
    if ValidKinds(kinds) {
      if forall k :: k in kinds ==> k == Tool || k == Endpoint {
        assert kinds <= {Tool, Endpoint};
        assert kinds == {Tool} || kinds == {Endpoint} || kinds == {Tool, Endpoint};
      }
    }
  }

  /** Providers that cannot go together cannot be saved by others. */
  lemma InvalidKindsStay(kinds: set<Kind>, more: set<Kind>)
    requires kinds != {} && !ValidKinds(kinds) && kinds <= more
    ensures !ValidKinds(more)
  {
    var k :| k in kinds && k in [Model, AgentStrategy, Datasource, Trigger] && kinds != {k};
    assert !(kinds <= {k});
    var j :| j in kinds && j != k;
    assert j in more && k in more;
  }

  // ------------------------------------------------------------- remapping assets

  /** What a remapping comes to: when it fails, what was remapped before stays remapped. */
  datatype Remapped<T> = Remapped(result: T, ok: bool)

  predicate Available(upload: Upload, assets: Assets, file: string) {
    file in assets && upload(file, assets[file]).Some?
  }

  function RemapIcons(upload: Upload, icons: seq<Icon>, assets: Assets): Remapped<seq<Icon>> {
    if icons == [] then Remapped([], true)
    else
      var first, rest := icons[0], icons[1..];
      if first.file != "" && !Available(upload, assets, first.file) then
        Remapped([if first.kept then first else first.(file := "")] + rest, false)
      else
        var remapped := if first.file == "" then first else first.(file := upload(first.file, assets[first.file]).value);
        var r := RemapIcons(upload, rest, assets);
        Remapped([remapped] + r.result, r.ok)
  }

  /** The order in which providers are visited; endpoints name no assets. */
  const REMAP_ORDER := [Model, Tool, AgentStrategy, Datasource, Trigger]

  function WithIcons(d: Declaration, k: Kind, icons: seq<Icon>): Declaration
    requires k in d.providers
  {
    d.(providers := d.providers[k := d.providers[k].(icons := icons)])
  }

  function RemapProviders(upload: Upload, d: Declaration, assets: Assets, kinds: seq<Kind>): Remapped<Declaration>
    decreases |kinds|
  {
    if kinds == [] then Remapped(d, true)
    else if kinds[0] !in d.providers then RemapProviders(upload, d, assets, kinds[1..])
    else
      var r := RemapIcons(upload, d.providers[kinds[0]].icons, assets);
      var d' := WithIcons(d, kinds[0], r.result);
      if r.ok then RemapProviders(upload, d', assets, kinds[1..]) else Remapped(d', false)
  }

  function Remap(upload: Upload, d: Declaration, assets: Assets): Remapped<Declaration> {
    var p := RemapProviders(upload, d, assets, REMAP_ORDER);
    if !p.ok then p
    else
      var r := RemapIcons(upload, d.icons, assets);
      Remapped(p.result.(icons := r.result), r.ok)
  }

  method RemapIconFields(upload: Upload, icons: seq<Icon>, assets: Assets) returns (r: Remapped<seq<Icon>>)
    ensures r == RemapIcons(upload, icons, assets)
  {
    var done := [];
    BehindNothing(RemapIcons(upload, icons, assets));
    assert icons[0..] == icons;
    for i := 0 to |icons|
      invariant RemapIcons(upload, icons, assets) == Behind(done, RemapIcons(upload, icons[i..], assets))
    {
      var icon := icons[i];
      assert icons[i..] == [icon] + icons[i + 1..];
      if icon.file != "" {
        if !Available(upload, assets, icon.file) {
          return Remapped(done + ([if icon.kept then icon else icon.(file := "")] + icons[i + 1..]), false);
        }
        icon := icon.(file := upload(icon.file, assets[icon.file]).value);
      }
      hide Available;
      BehindOne(done, icon, RemapIcons(upload, icons[i + 1..], assets));
      done := done + [icon];
    }
    assert icons[|icons|..] == [] && done + [] == done;
    return Remapped(done, true);
  }

  /** A remapping of the later fields, behind fields that are done. */
  ghost function Behind(done: seq<Icon>, r: Remapped<seq<Icon>>): Remapped<seq<Icon>> {
    Remapped(done + r.result, r.ok)
  }

  lemma BehindNothing(r: Remapped<seq<Icon>>)
    ensures Behind([], r) == r
  {
    assert [] + r.result == r.result;
  }

  lemma BehindOne(done: seq<Icon>, icon: Icon, r: Remapped<seq<Icon>>)
    ensures Behind(done + [icon], r) == Behind(done, Behind([icon], r))
  {
    assert done + [icon] + r.result == done + ([icon] + r.result);
  }

  method RemapAssets(upload: Upload, declaration: Declaration, assets: Assets) returns (r: Remapped<Declaration>)
    ensures r == Remap(upload, declaration, assets)
  {
    hide RemapIcons;
    var d := declaration;
    for i := 0 to |REMAP_ORDER|
      invariant d.icons == declaration.icons
      invariant RemapProviders(upload, declaration, assets, REMAP_ORDER) == RemapProviders(upload, d, assets, REMAP_ORDER[i..])
    {
      var k := REMAP_ORDER[i];
      assert REMAP_ORDER[i..][0] == k && REMAP_ORDER[i..][1..] == REMAP_ORDER[i + 1..];
      if k in d.providers {
        var fields := RemapIconFields(upload, d.providers[k].icons, assets);
        d := WithIcons(d, k, fields.result);
        if !fields.ok {
          return Remapped(d, false);
        }
      }
    }
    var fields := RemapIconFields(upload, d.icons, assets);
    return Remapped(d.(icons := fields.result), fields.ok);
  }

  // ------------------------------------------------------------- what remapping keeps

  lemma {:induction false} ProvidersKept(upload: Upload, d: Declaration, assets: Assets, kinds: seq<Kind>)
    ensures var t := RemapProviders(upload, d, assets, kinds).result;
            t.author == d.author && t.name == d.name && t.icons == d.icons && t.providers.Keys == d.providers.Keys
    decreases |kinds|
  {
    hide RemapIcons;
    if kinds != [] {
      if kinds[0] in d.providers {
        var r := RemapIcons(upload, d.providers[kinds[0]].icons, assets);
        assert WithIcons(d, kinds[0], r.result).providers.Keys == d.providers.Keys;
        ProvidersKept(upload, WithIcons(d, kinds[0], r.result), assets, kinds[1..]);
      } else {
        ProvidersKept(upload, d, assets, kinds[1..]);
      }
    }
  }

  /** Whether it succeeds or not, remapping does not touch what the manifest check looks at. */
  lemma RemapKeepsCheck(upload: Upload, d: Declaration, assets: Assets)
    ensures var t := Remap(upload, d, assets).result;
            t.author == d.author && t.name == d.name && t.providers.Keys == d.providers.Keys
    ensures ManifestValidate(Remap(upload, d, assets).result) <==> ManifestValidate(d)
  {
    hide RemapProviders, RemapIcons;
    ProvidersKept(upload, d, assets, REMAP_ORDER);
  }

  lemma {:induction false} ProvidersKeepNames(upload: Upload, d: Declaration, assets: Assets, kinds: seq<Kind>)
    ensures var t := RemapProviders(upload, d, assets, kinds).result;
            forall k :: k in d.providers ==> k in t.providers && t.providers[k].name == d.providers[k].name
    decreases |kinds|
  {
    hide RemapIcons;
    if kinds != [] {
      if kinds[0] in d.providers {
        var r := RemapIcons(upload, d.providers[kinds[0]].icons, assets);
        ProvidersKeepNames(upload, WithIcons(d, kinds[0], r.result), assets, kinds[1..]);
      } else {
        ProvidersKeepNames(upload, d, assets, kinds[1..]);
      }
    }
  }

  lemma RemapKeepsNames(upload: Upload, d: Declaration, assets: Assets)
    ensures var t := Remap(upload, d, assets).result;
            forall k :: k in d.providers ==> k in t.providers && t.providers[k].name == d.providers[k].name
  {
    hide RemapIcons, RemapProviders;
    ProvidersKeepNames(upload, d, assets, REMAP_ORDER);
  }

  /** The providers of the first kinds, up to kind j, are remapped; those behind it, and the manifest's own fields, are not. */
  ghost predicate RemappedThrough(upload: Upload, d: Declaration, t: Declaration, assets: Assets, kinds: seq<Kind>, j: nat) {
    && j < |kinds| && t.icons == d.icons
    && (kinds[j] in d.providers && !RemapIcons(upload, d.providers[kinds[j]].icons, assets).ok)
    && (forall i :: 0 <= i < |kinds| && kinds[i] in d.providers ==>
          && kinds[i] in t.providers
          && t.providers[kinds[i]].icons == if i <= j then RemapIcons(upload, d.providers[kinds[i]].icons, assets).result
                                            else d.providers[kinds[i]].icons)
    && forall i :: 0 <= i < j && kinds[i] in d.providers ==> RemapIcons(upload, d.providers[kinds[i]].icons, assets).ok
  }

  lemma OneKindEarlier(upload: Upload, d: Declaration, d': Declaration, t: Declaration, assets: Assets, kinds: seq<Kind>, j: nat)
    requires kinds != [] && Distinct(kinds) && RemappedThrough(upload, d', t, assets, kinds[1..], j) && d'.icons == d.icons
    requires forall k :: k != kinds[0] ==> (k in d.providers <==> k in d'.providers)
                                           && (k in d.providers ==> d'.providers[k] == d.providers[k])
    requires kinds[0] in d.providers ==>
      && RemapIcons(upload, d.providers[kinds[0]].icons, assets).ok
      && kinds[0] in t.providers
      && t.providers[kinds[0]].icons == RemapIcons(upload, d.providers[kinds[0]].icons, assets).result
    ensures RemappedThrough(upload, d, t, assets, kinds, j + 1)
  {
    hide RemapIcons;
    assert forall i :: 0 < i < |kinds| ==> kinds[i] == kinds[1..][i - 1];
  }

  /** A remapping of providers that fails stops at the first kind with a file that is missing. */
  lemma {:induction false} ProvidersStopAt(upload: Upload, d: Declaration, assets: Assets, kinds: seq<Kind>) returns (j: nat)
    requires Distinct(kinds) && !RemapProviders(upload, d, assets, kinds).ok
    ensures RemappedThrough(upload, d, RemapProviders(upload, d, assets, kinds).result, assets, kinds, j)
    decreases |kinds|
  {
    hide RemapIcons;
    var k, rest := kinds[0], kinds[1..];
    assert kinds == [k] + rest && k !in rest;
    var t := RemapProviders(upload, d, assets, kinds).result;
    if k in d.providers && !RemapIcons(upload, d.providers[k].icons, assets).ok {
      j := 0;
    } else {
      var d' := if k in d.providers then WithIcons(d, k, RemapIcons(upload, d.providers[k].icons, assets).result) else d;
      LaterNamedAlike(upload, d', assets, k, rest);
      j := ProvidersStopAt(upload, d', assets, rest);
      OneKindEarlier(upload, d, d', t, assets, kinds, j);
      j := j + 1;
    }
  }

  /** Models come first, then tools, agent strategies, datasources and triggers, and the manifest's own fields last. */
  lemma RemapStopsAt(upload: Upload, d: Declaration, assets: Assets) returns (j: nat)
    requires !Remap(upload, d, assets).ok
    ensures var t, order := Remap(upload, d, assets).result, [Model, Tool, AgentStrategy, Datasource, Trigger];
            && j <= |order|
            && (forall i :: 0 <= i < |order| && order[i] in d.providers ==>
                  && order[i] in t.providers
                  && t.providers[order[i]].icons == if i <= j then RemapIcons(upload, d.providers[order[i]].icons, assets).result
                                                    else d.providers[order[i]].icons)
            && (forall i :: 0 <= i < j && order[i] in d.providers ==> RemapIcons(upload, d.providers[order[i]].icons, assets).ok)
            && (j < |order| ==> t.icons == d.icons && order[j] in d.providers
                                && !RemapIcons(upload, d.providers[order[j]].icons, assets).ok)
            && (j == |order| ==> t.icons == RemapIcons(upload, d.icons, assets).result
                                 && !RemapIcons(upload, d.icons, assets).ok)
  {
    hide RemapIcons, RemapProviders;
    var order := REMAP_ORDER;
    if RemapProviders(upload, d, assets, order).ok {
      j := |order|;
      ProvidersRemapped(upload, d, assets, order);
      EachRemaps(upload, d, assets, order);
      ProvidersKept(upload, d, assets, order);
    } else {
      j := ProvidersStopAt(upload, d, assets, order);
    }
  }

  lemma EachRemaps(upload: Upload, d: Declaration, assets: Assets, kinds: seq<Kind>)
    requires Distinct(kinds) && RemapProviders(upload, d, assets, kinds).ok
    ensures forall k :: k in kinds && k in d.providers ==> RemapIcons(upload, d.providers[k].icons, assets).ok
  {
    hide RemapIcons, RemapProviders;
    ProvidersRemapExactlyWhen(upload, d, assets, kinds);
    forall k | k in kinds && k in d.providers ensures RemapIcons(upload, d.providers[k].icons, assets).ok {
      IconsRemapExactlyWhen(upload, d.providers[k].icons, assets);
    }
  }

  // ------------------------------------------------------------- when remapping succeeds

  predicate AllAvailable(upload: Upload, assets: Assets, icons: seq<Icon>) {
    forall i :: 0 <= i < |icons| && icons[i].file != "" ==> Available(upload, assets, icons[i].file)
  }

  lemma {:induction false} IconsRemapExactlyWhen(upload: Upload, icons: seq<Icon>, assets: Assets)
    ensures RemapIcons(upload, icons, assets).ok <==> AllAvailable(upload, assets, icons)
  {
    if icons != [] {
      IconsRemapExactlyWhen(upload, icons[1..], assets);
      assert AllAvailable(upload, assets, icons)
        <==> (icons[0].file != "" ==> Available(upload, assets, icons[0].file)) && AllAvailable(upload, assets, icons[1..]) by {
        assert forall i :: 0 < i < |icons| ==> icons[i] == icons[1..][i - 1];
      }
    }
  }

  /** The first field that names a file that was not sent, or that cannot be stored; or else the number of fields. */
  function FirstMissing(upload: Upload, icons: seq<Icon>, assets: Assets): nat {
    if icons == [] then 0
    else if icons[0].file != "" && !(icons[0].file in assets && upload(icons[0].file, assets[icons[0].file]).Some?) then 0
    else 1 + FirstMissing(upload, icons[1..], assets)
  }

  /** A field whose file was stored: it holds the media identifier. */
  predicate Stored(upload: Upload, before: Icon, after: Icon, assets: Assets) {
    && after.kept == before.kept
    && if before.file == "" then after.file == ""
       else before.file in assets && upload(before.file, assets[before.file]) == Some(after.file)
  }

  /**
   The fields before field n have their media identifiers, field n is blanked unless it is kept, and those behind it are as
   they were.
   */
  ghost predicate RemappedUpTo(upload: Upload, icons: seq<Icon>, after: seq<Icon>, assets: Assets, n: nat) {
    && n <= |icons| == |after|
    && (forall i :: 0 <= i < n ==> Stored(upload, icons[i], after[i], assets))
    && (n < |icons| ==> after[n] == Icon(if icons[n].kept then icons[n].file else "", icons[n].kept))
    && forall i :: n < i < |icons| ==> after[i] == icons[i]
  }

  /** Fields are remapped up to the first one that is missing. */
  lemma {:induction false} IconsRemapped(upload: Upload, icons: seq<Icon>, assets: Assets)
    ensures var n, r := FirstMissing(upload, icons, assets), RemapIcons(upload, icons, assets);
            RemappedUpTo(upload, icons, r.result, assets, n) && (r.ok <==> n == |icons|)
  {
    if icons != [] {
      IconsRemapped(upload, icons[1..], assets);
      var r := RemapIcons(upload, icons, assets);
      if FirstMissing(upload, icons, assets) != 0 {
        OneMoreRemapped(upload, icons, r.result, assets, FirstMissing(upload, icons[1..], assets));
      }
    }
  }

  lemma OneMoreRemapped(upload: Upload, icons: seq<Icon>, after: seq<Icon>, assets: Assets, n: nat)
    requires icons != [] && after != [] && Stored(upload, icons[0], after[0], assets)
    requires RemappedUpTo(upload, icons[1..], after[1..], assets, n)
    ensures RemappedUpTo(upload, icons, after, assets, n + 1)
  {
    hide Stored;
    assert forall i :: 0 < i < |icons| ==> icons[i] == icons[1..][i - 1] && after[i] == after[1..][i - 1];
  }

  /** A successful remapping treats the fields of every provider but the endpoints, and those of the manifest. */
  lemma {:induction false} ProvidersRemapped(upload: Upload, d: Declaration, assets: Assets, kinds: seq<Kind>)
    requires Distinct(kinds) && RemapProviders(upload, d, assets, kinds).ok
    ensures var t := RemapProviders(upload, d, assets, kinds).result;
            forall k :: k in d.providers ==>
              && k in t.providers && t.providers[k].name == d.providers[k].name
              && t.providers[k].icons == if k in kinds then RemapIcons(upload, d.providers[k].icons, assets).result
                                         else d.providers[k].icons
    decreases |kinds|
  {
    hide RemapIcons;
    if kinds != [] {
      var k, rest := kinds[0], kinds[1..];
      assert kinds == [k] + rest && k !in rest;
      if k in d.providers {
        ProvidersRemapped(upload, WithIcons(d, k, RemapIcons(upload, d.providers[k].icons, assets).result), assets, rest);
      } else {
        ProvidersRemapped(upload, d, assets, rest);
      }
    }
  }

  lemma AllRemapped(upload: Upload, d: Declaration, assets: Assets)
    requires Remap(upload, d, assets).ok
    ensures var t := Remap(upload, d, assets).result;
            && t.author == d.author && t.name == d.name && t.icons == RemapIcons(upload, d.icons, assets).result
            && t.providers.Keys == d.providers.Keys
            && forall k :: k in d.providers ==>
                 t.providers[k].icons == if k == Endpoint then d.providers[k].icons
                                         else RemapIcons(upload, d.providers[k].icons, assets).result
  {
    hide RemapIcons, RemapProviders;
    RemapKeepsCheck(upload, d, assets);
    ProvidersRemapped(upload, d, assets, REMAP_ORDER);
    forall k: Kind ensures k in REMAP_ORDER <==> k != Endpoint {
      assert REMAP_ORDER[0] == Model && REMAP_ORDER[1] == Tool && REMAP_ORDER[2] == AgentStrategy;
      assert REMAP_ORDER[3] == Datasource && REMAP_ORDER[4] == Trigger;
    }
  }

  /** Every asset named by a provider of these kinds can be had. */
  predicate Supplied(upload: Upload, d: Declaration, assets: Assets, kinds: seq<Kind>) {
    forall k :: k in kinds && k in d.providers ==> AllAvailable(upload, assets, d.providers[k].icons)
  }

  ghost predicate Distinct<T>(s: seq<T>) {
    forall i, j :: 0 <= i < j < |s| ==> s[i] != s[j]
  }

  lemma {:induction false} ProvidersRemapExactlyWhen(upload: Upload, d: Declaration, assets: Assets, kinds: seq<Kind>)
    requires Distinct(kinds)
    ensures RemapProviders(upload, d, assets, kinds).ok <==> Supplied(upload, d, assets, kinds)
    decreases |kinds|
  {
    hide RemapIcons, AllAvailable;
    if kinds != [] {
      var k, rest := kinds[0], kinds[1..];
      assert kinds == [k] + rest && k !in rest;
      if k in d.providers {
        IconsRemapExactlyWhen(upload, d.providers[k].icons, assets);
        var d' := WithIcons(d, k, RemapIcons(upload, d.providers[k].icons, assets).result);
        ProvidersRemapExactlyWhen(upload, d', assets, rest);
        assert forall j :: j in rest ==> (j in d'.providers <==> j in d.providers);
        assert forall j :: j in rest && j in d.providers ==> d'.providers[j] == d.providers[j];
      } else {
        ProvidersRemapExactlyWhen(upload, d, assets, rest);
      }
    }
  }

  /** Every asset a declaration names can be had. */
  predicate AllSupplied(upload: Upload, d: Declaration, assets: Assets) {
    Supplied(upload, d, assets, REMAP_ORDER) && AllAvailable(upload, assets, d.icons)
  }

  /** Remapping succeeds exactly when every asset the declaration names was sent and can be stored. */
  lemma RemapsExactlyWhen(upload: Upload, d: Declaration, assets: Assets)
    ensures Remap(upload, d, assets).ok <==> AllSupplied(upload, d, assets)
  {
    hide RemapIcons, RemapProviders, AllAvailable, Supplied;
    ProvidersRemapExactlyWhen(upload, d, assets, REMAP_ORDER);
    IconsRemapExactlyWhen(upload, d.icons, assets);
  }

  function FilesOf(icons: seq<Icon>): set<string> {
    set i | 0 <= i < |icons| && icons[i].file != "" :: icons[i].file
  }

  /** The files a declaration names. */
  function NamedFiles(d: Declaration): set<string> {
    FilesOf(d.icons) + set k, file | k in d.providers && file in FilesOf(d.providers[k].icons) :: file
  }

  lemma FilesHaveNames(d: Declaration)
    ensures "" !in NamedFiles(d)
  {
  }

  lemma FilesSupplied(upload: Upload, d: Declaration, assets: Assets)
    requires NamedFiles(d) <= assets.Keys && forall file, data :: upload(file, data).Some?
    ensures AllSupplied(upload, d, assets)
  {
    FilesAvailable(upload, d.icons, assets);
    forall k | k in d.providers ensures AllAvailable(upload, assets, d.providers[k].icons) {
      FilesAvailable(upload, d.providers[k].icons, assets);
    }
  }

  lemma FilesAvailable(upload: Upload, icons: seq<Icon>, assets: Assets)
    requires FilesOf(icons) <= assets.Keys && forall file, data :: upload(file, data).Some?
    ensures AllAvailable(upload, assets, icons)
  {
    forall i | 0 <= i < |icons| && icons[i].file != "" ensures Available(upload, assets, icons[i].file) {
      assert icons[i].file in FilesOf(icons);
    }
  }

  // ------------------------------------------------------------- what a failing remapping leaves

  /** How many fields name an asset. */
  function Named(icons: seq<Icon>): nat {
    if icons == [] then 0 else (if icons[0].file == "" then 0 else 1) + Named(icons[1..])
  }

  predicate Blankable(icons: seq<Icon>) {
    forall i :: 0 <= i < |icons| ==> !icons[i].kept
  }

  /** A failure blanks the field it fails on. With no assets at all, the first one named is that one. */
  lemma {:induction false} IconsForgetOne(upload: Upload, icons: seq<Icon>, assets: Assets)
    requires Blankable(icons)
    ensures var r := RemapIcons(upload, icons, assets);
            && Blankable(r.result)
            && Named(r.result) <= Named(icons)
            && (!r.ok ==> Named(r.result) < Named(icons))
            && (assets == map[] ==> (r.ok <==> Named(icons) == 0) && Named(r.result) >= Named(icons) - 1)
  {
    if icons != [] {
      var r := RemapIcons(upload, icons, assets);
      IconsForgetOne(upload, icons[1..], assets);
      assert r.result[1..] == icons[1..] || r.result[1..] == RemapIcons(upload, icons[1..], assets).result;
      assert !icons[0].kept;
      assert Blankable(icons[1..]) && Blankable(r.result);
    }
  }

  function NamedBy(d: Declaration, kinds: seq<Kind>): nat {
    if kinds == [] then 0
    else (if kinds[0] in d.providers then Named(d.providers[kinds[0]].icons) else 0) + NamedBy(d, kinds[1..])
  }

  lemma {:induction false} OthersNamedAlike(d: Declaration, k: Kind, icons: seq<Icon>, kinds: seq<Kind>)
    requires k in d.providers && k !in kinds
    ensures NamedBy(WithIcons(d, k, icons), kinds) == NamedBy(d, kinds)
  {
    if kinds != [] {
      OthersNamedAlike(d, k, icons, kinds[1..]);
      assert kinds[0] in kinds;
    }
  }

  lemma {:induction false} LaterNamedAlike(upload: Upload, d: Declaration, assets: Assets, k: Kind, kinds: seq<Kind>)
    requires k !in kinds
    ensures var t := RemapProviders(upload, d, assets, kinds).result;
            && (k in t.providers <==> k in d.providers)
            && (k in d.providers ==> t.providers[k] == d.providers[k])
    decreases |kinds|
  {
    hide RemapIcons;
    if kinds != [] {
      assert kinds[0] != k;
      if kinds[0] in d.providers {
        var r := RemapIcons(upload, d.providers[kinds[0]].icons, assets);
        LaterNamedAlike(upload, WithIcons(d, kinds[0], r.result), assets, k, kinds[1..]);
      } else {
        LaterNamedAlike(upload, d, assets, k, kinds[1..]);
      }
    }
  }

  /** No provider has a field that is kept. */
  predicate AllBlankable(d: Declaration) {
    Blankable(d.icons) && forall k :: k in d.providers ==> Blankable(d.providers[k].icons)
  }

  lemma {:induction false} ProvidersForgetOne(upload: Upload, d: Declaration, assets: Assets, kinds: seq<Kind>)
    requires AllBlankable(d) && Distinct(kinds)
    ensures var r := RemapProviders(upload, d, assets, kinds);
            && AllBlankable(r.result)
            && NamedBy(r.result, kinds) <= NamedBy(d, kinds)
            && (!r.ok ==> NamedBy(r.result, kinds) < NamedBy(d, kinds))
            && (assets == map[] ==> (r.ok <==> NamedBy(d, kinds) == 0) && NamedBy(r.result, kinds) >= NamedBy(d, kinds) - 1)
    decreases |kinds|
  {
    hide RemapIcons, Named, Blankable;
    if kinds != [] {
      var k, rest := kinds[0], kinds[1..];
      assert kinds == [k] + rest && k !in rest;
      if k in d.providers {
        IconsForgetOne(upload, d.providers[k].icons, assets);
        var r := RemapIcons(upload, d.providers[k].icons, assets);
        var d' := WithIcons(d, k, r.result);
        OthersNamedAlike(d, k, r.result, rest);
        LaterNamedAlike(upload, d', assets, k, rest);
        ProvidersForgetOne(upload, d', assets, rest);
      } else {
        LaterNamedAlike(upload, d, assets, k, rest);
        ProvidersForgetOne(upload, d, assets, rest);
      }
    }
  }

  /** How many fields of a declaration name an asset. */
  function NamedAssets(d: Declaration): nat {
    NamedBy(d, REMAP_ORDER) + Named(d.icons)
  }

  lemma {:induction false} NoProviderNamed(d: Declaration, kinds: seq<Kind>)
    requires forall k :: k in kinds ==> k !in d.providers
    ensures NamedBy(d, kinds) == 0
  {
    if kinds != [] {
      assert kinds[0] in kinds;
      NoProviderNamed(d, kinds[1..]);
    }
  }

  lemma {:induction false} NamedByProviders(d: Declaration, t: Declaration, kinds: seq<Kind>)
    requires d.providers == t.providers
    ensures NamedBy(d, kinds) == NamedBy(t, kinds)
  {
    if kinds != [] {
      NamedByProviders(d, t, kinds[1..]);
    }
  }

  /**
   A remapping that fails has blanked the field it failed on: the declaration names fewer assets than before. With
   no assets at all, it names exactly one fewer.
   */
  lemma RemapForgetsOne(upload: Upload, d: Declaration, assets: Assets)
    requires AllBlankable(d)
    ensures var r := Remap(upload, d, assets);
            && AllBlankable(r.result)
            && (!r.ok ==> NamedAssets(r.result) < NamedAssets(d))
            && (assets == map[] ==> (r.ok <==> NamedAssets(d) == 0) && NamedAssets(r.result) >= NamedAssets(d) - 1)
  {
    hide RemapIcons, RemapProviders, Named, NamedBy, Blankable;
    ProvidersForgetOne(upload, d, assets, REMAP_ORDER);
    ProvidersKept(upload, d, assets, REMAP_ORDER);
    IconsForgetOne(upload, d.icons, assets);
    var p := RemapProviders(upload, d, assets, REMAP_ORDER);
    NamedByProviders(p.result, Remap(upload, d, assets).result, REMAP_ORDER);
  }
}
