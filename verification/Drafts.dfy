/**
 What a debugging plugin has registered so far, and what each registration message makes of it
 (internal/core/debugging_runtime/runtime_intialization_handlers.go).
 */
module Drafts {
  import opened Wrappers
  import opened MapTotals
  import opened Declarations
  import Base64

  const MAX_ASSETS_BYTES := 50 * 1024 * 1024

  datatype Lookup = BadPayload | UnknownKey | LookupFailed | Connection(tenantId: string)

  datatype Chunk = BadChunk | Chunk(filename: string, data: string)

  datatype Payload =
    | Malformed
    | HandShake(lookup: Lookup)
    | AssetChunk(chunk: Chunk)
    | End
    | Manifest(declaration: Option<Declaration>)
    | Providers(kind: Kind, declarations: Option<seq<Provider>>)
    | Unknown

  datatype Draft = Draft(
    registrationTransferred: bool, transferred: set<Kind>, assetsTransferred: bool,
    config: Declaration, assets: Assets, assetsBytes: int)

  const NO_DRAFT := Draft(false, {}, false, NO_DECLARATION, map[], 0)

  /** A handler that fails may have changed the draft all the same. */
  datatype Handled = Handled(draft: Draft, ok: bool)

  // ------------------------------------------------------------- what each message does

  /** A chunk appended to the buffer of its file, which may be a new one. */
  function WithChunk(assets: Assets, filename: string, decoded: seq<Byte>): Assets {
    assets[filename := (if filename in assets then assets[filename] else []) + decoded]
  }

  /** What a chunk decodes to, unless it is refused for its size or its encoding. */
  function Accepted(assetsBytes: int, data: string): Option<seq<Byte>> {
    if assetsBytes + |data| > MAX_ASSETS_BYTES then None else Base64.Decode(data)
  }

  function AfterAsset(d: Draft, chunk: Chunk): Handled {
    if chunk.BadChunk? then Handled(d, false)
    else
      var accepted := Accepted(d.assetsBytes, chunk.data);
      var decoded := if accepted.Some? then accepted.value else [];
      Handled(d.(assets := WithChunk(d.assets, chunk.filename, decoded), assetsBytes := d.assetsBytes + |decoded|),
              accepted.Some?)
  }

  lemma OpenedChunk(assets: Assets, filename: string)
    ensures WithChunk(assets, filename, []) == if filename in assets then assets else assets[filename := []]
  {
    var buffer := if filename in assets then assets[filename] else [];
    assert buffer + [] == buffer;
  }

  lemma AppendedChunk(assets: Assets, filename: string, decoded: seq<Byte>)
    ensures var started := if filename in assets then assets else assets[filename := []];
            WithChunk(assets, filename, decoded) == started[filename := started[filename] + decoded]
  {
  }

  /** A remapping that fails leaves behind in the declaration what it has done so far. */
  function AfterEnd(upload: Upload, d: Draft): Handled {
    if d.transferred == {} then Handled(d, false)
    else
      var r := Remap(upload, d.config, d.assets);
      if !r.ok then Handled(d.(config := r.result), false)
      else Handled(d.(config := r.result, assetsTransferred := true), ManifestValidate(r.result))
  }

  function AfterManifest(d: Draft, declaration: Option<Declaration>): Handled {
    if d.registrationTransferred || declaration.None? then Handled(d, false)
    else Handled(d.(config := declaration.value, registrationTransferred := true), true)
  }

  /** The first provider of a list is kept, if there is one. */
  function WithProvider(config: Declaration, kind: Kind, list: seq<Provider>): Declaration {
    if |list| == 0 then config else config.(providers := config.providers[kind := list[0]])
  }

  function AfterProviders(d: Draft, kind: Kind, declarations: Option<seq<Provider>>): Handled {
    if kind in d.transferred || declarations.None? then Handled(d, false)
    else
      Handled(d.(transferred := d.transferred + {kind}, config := WithProvider(d.config, kind, declarations.value)), true)
  }

  /** The handler of a registration message; an END that finds no room is refused before anything else. */
  function Handle(upload: Upload, d: Draft, payload: Payload, room: bool): Handled {
    match payload
    case AssetChunk(chunk) => AfterAsset(d, chunk)
    case End => if room then AfterEnd(upload, d) else Handled(d, false)
    case Manifest(declaration) => AfterManifest(d, declaration)
    case Providers(kind, declarations) => AfterProviders(d, kind, declarations)
    case _ => Handled(d, true)
  }

  // ------------------------------------------------------------- what every message keeps

  ghost predicate DraftInv(d: Draft) {
    d.assetsBytes == Total(d.assets) <= MAX_ASSETS_BYTES
  }

  lemma ChunkCounted(assets: Assets, filename: string, decoded: seq<Byte>)
    ensures Total(WithChunk(assets, filename, decoded)) == Total(assets) + |decoded|
  {
    TotalUpdate(assets, filename, (if filename in assets then assets[filename] else []) + decoded);
  }

  lemma AcceptedFits(assetsBytes: int, data: string)
    ensures Accepted(assetsBytes, data).Some? ==> assetsBytes + |Accepted(assetsBytes, data).value| <= MAX_ASSETS_BYTES
  {
    Base64.DecodeShrinks(data);
  }

  lemma AssetKeepsInv(d: Draft, chunk: Chunk)
    requires DraftInv(d)
    ensures DraftInv(AfterAsset(d, chunk).draft)
  {
    if chunk.Chunk? {
      AcceptedFits(d.assetsBytes, chunk.data);
      hide Accepted, Total, WithChunk;
      var accepted := Accepted(d.assetsBytes, chunk.data);
      ChunkCounted(d.assets, chunk.filename, if accepted.Some? then accepted.value else []);
    }
  }

  /** No message lets the count of asset bytes and the buffers part ways or grow beyond the limit. */
  lemma HandlersKeepInv(upload: Upload, d: Draft, payload: Payload, room: bool)
    requires DraftInv(d)
    ensures DraftInv(Handle(upload, d, payload, room).draft)
  {
    hide AfterAsset, Total, Remap, ManifestValidate, WithProvider;
    if payload.AssetChunk? {
      AssetKeepsInv(d, payload.chunk);
    }
  }

  /** A chunk, accepted or not, leaves its file among the assets, and the declaration alone. */
  lemma ChunkIsKnown(d: Draft, chunk: Chunk)
    requires chunk.Chunk?
    ensures var t := AfterAsset(d, chunk).draft;
            && t.assets.Keys == d.assets.Keys + {chunk.filename}
            && t == d.(assets := t.assets, assetsBytes := t.assetsBytes)
  {
    hide Accepted;
  }

  /**
   A chunk is accepted exactly when its text, added to the bytes so far, stays within 50 MiB and is base64; its bytes are then
   appended to its file. A refused one appends nothing, and no other file is touched.
   */
  lemma ChunkAppends(d: Draft, chunk: Chunk)
    requires chunk.Chunk?
    ensures var h, decoded := AfterAsset(d, chunk), Base64.Decode(chunk.data);
            && (h.ok <==> d.assetsBytes + |chunk.data| <= 52428800 && decoded != None)
            && chunk.filename in h.draft.assets
            && h.draft.assets[chunk.filename]
               == (if chunk.filename in d.assets then d.assets[chunk.filename] else []) + (if h.ok then decoded.value else [])
            && forall file :: file != chunk.filename ==>
                 && (file in h.draft.assets <==> file in d.assets)
                 && (file in d.assets ==> h.draft.assets[file] == d.assets[file])
  {
  }

  lemma BadChunkRefused(d: Draft, chunk: Chunk)
    requires chunk.BadChunk?
    ensures AfterAsset(d, chunk) == Handled(d, false)
  {
  }

  /** The manifest is taken the first time one can be read, and replaces whatever was declared. */
  lemma ManifestTaken(d: Draft, declaration: Option<Declaration>)
    ensures var h := AfterManifest(d, declaration);
            && (h.ok <==> !d.registrationTransferred && declaration != None)
            && (h.ok ==> Some(h.draft.config) == declaration && h.draft.registrationTransferred)
            && (!h.ok ==> h.draft == d)
  {
  }

  /** Each kind is declared once, by the first provider of its first list that can be read; other kinds stay as they are. */
  lemma ProvidersTaken(d: Draft, kind: Kind, declarations: Option<seq<Provider>>)
    ensures var h := AfterProviders(d, kind, declarations);
            && (h.ok <==> kind !in d.transferred && declarations != None)
            && (h.ok ==> forall k :: k in h.draft.transferred <==> k in d.transferred || k == kind)
            && (h.ok && declarations.value != [] ==>
                  kind in h.draft.config.providers && h.draft.config.providers[kind] == declarations.value[0])
            && (h.ok && declarations.value == [] ==> h.draft.config == d.config)
            && (!h.ok ==> h.draft == d)
            && forall k :: k != kind ==>
                 && (k in h.draft.config.providers <==> k in d.config.providers)
                 && (k in d.config.providers ==> h.draft.config.providers[k] == d.config.providers[k])
  {
  }

  /** What the daemon calls a provider of a kind, if there is one. */
  function NameOf(d: Draft, k: Kind): Option<string> {
    if k in d.config.providers then Some(d.config.providers[k].name) else None
  }

  /** Once the manifest is taken no message changes its names, nor what is declared under a kind that was declared. */
  lemma DeclaredStands(upload: Upload, d: Draft, payload: Payload, room: bool)
    requires d.registrationTransferred
    ensures var t := Handle(upload, d, payload, room).draft;
            && t.registrationTransferred && t.config.author == d.config.author && t.config.name == d.config.name
            && d.transferred <= t.transferred
            && forall k :: k in d.transferred ==> NameOf(t, k) == NameOf(d, k)
  {
    match payload
    case AssetChunk(chunk) =>
      if chunk.Chunk? {
        ChunkIsKnown(d, chunk);
      }
      hide AfterAsset;
      if chunk.BadChunk? {
        BadChunkRefused(d, chunk);
      }
    case End =>
      RemapKeepsCheck(upload, d.config, d.assets);
      RemapKeepsNames(upload, d.config, d.assets);
      hide Remap, ManifestValidate;
    case Providers(kind, declarations) => ProvidersTaken(d, kind, declarations);
    case _ =>
  }

  /** END succeeds exactly when something was declared, every asset named can be had and the manifest check passes. */
  lemma EndSucceedsExactlyWhen(upload: Upload, d: Draft)
    ensures AfterEnd(upload, d).ok <==>
      d.transferred != {} && AllSupplied(upload, d.config, d.assets) && ManifestValidate(d.config)
  {
    hide Remap, ManifestValidate, AllSupplied;
    RemapsExactlyWhen(upload, d.config, d.assets);
    RemapKeepsCheck(upload, d.config, d.assets);
  }

  /** An END that succeeds leaves the declaration with the media identifiers of its assets, and nothing else changed. */
  lemma EndRemaps(upload: Upload, d: Draft)
    requires AfterEnd(upload, d).ok
    ensures var t := AfterEnd(upload, d).draft;
            && t == d.(config := t.config, assetsTransferred := true)
            && t.config.icons == RemapIcons(upload, d.config.icons, d.assets).result
            && t.config.providers.Keys == d.config.providers.Keys
            && forall k :: k in d.config.providers && k != Endpoint ==>
                 t.config.providers[k].icons == RemapIcons(upload, d.config.providers[k].icons, d.assets).result
  {
    AllRemapped(upload, d.config, d.assets);
    hide Remap, RemapIcons, ManifestValidate;
  }

  /** A message of no known type is accepted and has no effect. */
  lemma UnknownIsIgnored(upload: Upload, d: Draft, room: bool)
    ensures Handle(upload, d, Unknown, room) == Handled(d, true)
  {
  }

  // ------------------------------------------------------------- drafts that cannot be completed

  /**
   What the manifest has left open: if it was taken, its names are in order, and its providers can go together, or there
   are none and some kind was not declared yet.
   */
  ghost predicate Completable(d: Draft) {
    d.registrationTransferred ==>
      && ValidNames(d.config)
      && (ValidKinds(d.config.providers.Keys)
          || (d.config.providers.Keys == {} && exists k: Kind :: k !in d.transferred))
  }

  lemma ProvidersLeaveIncompletable(d: Draft, kind: Kind, declarations: Option<seq<Provider>>)
    requires !Completable(d)
    ensures !Completable(AfterProviders(d, kind, declarations).draft)
  {
    var t := AfterProviders(d, kind, declarations).draft;
    var keys, more := d.config.providers.Keys, t.config.providers.Keys;
    hide IsName;
    assert keys <= more;
    if kind !in d.transferred && ValidNames(d.config) {
      assert keys != {};
      InvalidKindsStay(keys, more);
    }
  }

  /** What cannot be completed is not completed: END fails, and no message changes that. */
  lemma StaysIncompletable(upload: Upload, d: Draft, payload: Payload, room: bool)
    requires !Completable(d)
    ensures !Completable(Handle(upload, d, payload, room).draft)
    ensures payload.End? ==> !Handle(upload, d, payload, room).ok
  {
    hide AfterAsset, AfterProviders, ValidKinds, IsName, Remap;
    match payload
    case AssetChunk(chunk) =>
      if chunk.Chunk? {
        ChunkIsKnown(d, chunk);
      } else {
        BadChunkRefused(d, chunk);
      }
    case End => RemapKeepsCheck(upload, d.config, d.assets);
    case Providers(kind, declarations) => ProvidersLeaveIncompletable(d, kind, declarations);
    case _ =>
  }


  // ------------------------------------------------------------- what a missing asset is worth

  /** An END that is refused for a draft whose declaration passes the check has blanked a field that names an asset. */
  lemma RefusedEndForgets(upload: Upload, d: Draft)
    requires d.transferred != {} && ManifestValidate(d.config) && AllBlankable(d.config)
    ensures var h := AfterEnd(upload, d);
            && h.draft.assets == d.assets && h.draft.transferred == d.transferred
            && ManifestValidate(h.draft.config) && AllBlankable(h.draft.config)
            && (!h.ok ==> NamedAssets(h.draft.config) < NamedAssets(d.config))
            && (d.assets == map[] ==>
                  (h.ok <==> NamedAssets(d.config) == 0) && NamedAssets(h.draft.config) >= NamedAssets(d.config) - 1)
  {
    RemapForgetsOne(upload, d.config, d.assets);
    RemapKeepsCheck(upload, d.config, d.assets);
    hide Remap, ManifestValidate, AllBlankable, NamedAssets;
  }
}
