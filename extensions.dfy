/** The extension registry store: the manifest of known extensions, the
    extensions that are installed (loaded and checked), the id of the active
    one, and the `loading` / `error` status fields. Every action is a pure
    transition on `State`; the class `ExtensionsStore` at the end performs the
    same actions step by step on its own fields and is proved to agree with
    the transitions. The I/O the actions depend on (fetching the manifest,
    resolving a URL against the page origin, importing a module) comes in as
    a `Host` of oracle functions. */
module Extensions {
  import opened Wrappers
  import opened Strings

  /** One entry of the manifest document. */
  datatype Descriptor = Descriptor(
    id: string,
    name: string,
    version: string,
    bundleUrl: string,
    lang: string,
    nsfw: bool,
    baseUrl: string,
    description: string)

  /** The methods an extension instance may expose. */
  datatype Capability = Search | GetPopular | GetLatest | GetAnimeDetails | GetEpisodeList | GetVideoSources

  /** An object built by an extension class: `token` tells instances apart,
      `methods` lists the capabilities that are present (truthy) on it. */
  datatype Instance = Instance(token: nat, methods: set<Capability>)

  /** A class exported by a module; `construct` is what `new` on it yields. */
  datatype ExtensionClass = ExtensionClass(construct: Result<Instance, Failure>)

  /** The exports of an imported bundle that the loader looks at; `None`
      stands for an export that is absent or falsy. */
  datatype ModuleExports = ModuleExports(default: Option<ExtensionClass>, animeSamaExtension: Option<ExtensionClass>)

  /** An installed extension: the manifest entry and the instance built for it. */
  datatype LoadedExtension = LoadedExtension(manifest: Descriptor, instance: Instance)

  /** Why an action rejected. */
  datatype Failure =
    | NotFound(id: string)          // the id is not in the manifest
    | HttpError(status: int)        // the manifest response was not ok
    | FetchFailed(reason: string)   // the request itself, or parsing its JSON, failed
    | InvalidUrl(url: string)       // a relative bundle URL could not be resolved
    | ImportFailed(url: string)     // the bundle could not be fetched or evaluated
    | NoEntryPoint                  // neither `default` nor `AnimeSamaExtension` is exported
    | ConstructorFailed(reason: string)
    | MissingMethods                // the instance lacks `search` or `getPopular`
    | NoActiveExtension             // a router was called with nothing active

  /** What the `error` field records; the source renders these as French messages. */
  datatype ErrorReport =
    | ManifestLoadFailed(cause: Failure)
    | InstallFailed(extensionName: string, cause: Failure)

  /** The outside world as seen by the store. */
  datatype Host = Host(
    origin: string,
    fetchManifest: string -> Result<seq<Descriptor>, Failure>,
    resolveUrl: (string, string) -> Result<string, Failure>,
    importModule: string -> Result<ModuleExports, Failure>)

  /** Every field of the store. `keyOrder` is the order in which the keys of
      `loaded` are enumerated (insertion order). */
  datatype State = State(
    manifest: seq<Descriptor>,
    loaded: map<string, LoadedExtension>,
    keyOrder: seq<string>,
    active: Option<string>,
    loading: bool,
    error: Option<ErrorReport>)

  /** The `filters` argument of a search: any value, passed on untouched. */
  type Filters(==)

  /** A catalogue call forwarded to an extension instance, with its arguments. */
  datatype Call =
    | SearchCall(instance: Instance, query: string, filters: Filters)
    | PopularCall(instance: Instance, page: int)
    | LatestCall(instance: Instance, page: int)
    | DetailsCall(instance: Instance, animeId: string)
    | EpisodesCall(instance: Instance, animeId: string)
    | VideoSourcesCall(instance: Instance, episodeUrl: string)

  const DefaultManifestUrl: string := "/extensions/manifest.json"

  /** The built-in manifest entry used when the manifest cannot be loaded.
      Its bundle address is one string, written in two pieces only so that
      the verifier can see its first characters. */
  const FallbackDescriptor: Descriptor := Descriptor(
    "animesama",
    "Anime-Sama",
    "1.0.0",
    "../aniyomi-extension/" + "bundles/animesama.bundle.js",
    "fr",
    false,
    "https://anime-sama.fr",
    "Extension pour scraper Anime-Sama")

  const InitialState: State := State([], map[], [], None, false, None)

  predicate Distinct(xs: seq<string>) {
    forall i, j :: 0 <= i < j < |xs| ==> xs[i] != xs[j]
  }

  /** The store's invariant: the key order enumerates exactly the installed
      ids, once each, and the active id, when set, is installed. */
  ghost predicate Inv(s: State) {
    && Distinct(s.keyOrder)
    && (forall k :: k in s.keyOrder <==> k in s.loaded)
    && (s.active.Some? ==> s.active.value in s.loaded)
  }

  /** JavaScript truthiness of the active id: the empty string counts as unset. */
  predicate IsSet(active: Option<string>) {
    active.Some? && active.value != ""
  }

  // ---------------------------------------------------------------------------
  // Manifest lookup and loading

  /** `i` is the first position of the manifest whose id is `id`. */
  predicate FirstWithId(m: seq<Descriptor>, id: string, i: int) {
    0 <= i < |m| && m[i].id == id && forall j :: 0 <= j < i ==> m[j].id != id
  }

  /** The position `manifest.find(ext => ext.id === id)` stops at. */
  function FirstIndexOf(m: seq<Descriptor>, id: string): (r: Option<nat>)
    ensures r.None? <==> forall i :: 0 <= i < |m| ==> m[i].id != id
    ensures r.Some? ==> FirstWithId(m, id, r.value)
  {
    if m == [] then None
    else if m[0].id == id then Some(0)
    else match FirstIndexOf(m[1..], id)
      case None => None
      case Some(i) =>
        assert forall j :: 1 <= j <= i ==> m[j] == m[1..][j - 1];
        Some(i + 1)
  }

  /** `manifest.find(ext => ext.id === id)`. */
  function FindById(m: seq<Descriptor>, id: string): (r: Option<Descriptor>)
    ensures r.None? <==> forall i :: 0 <= i < |m| ==> m[i].id != id
    ensures r.Some? ==> exists i :: FirstWithId(m, id, i) && m[i] == r.value
  {
    match FirstIndexOf(m, id)
    case None => None
    case Some(i) => Some(m[i])
  }

  /** The address a bundle is imported from: an address that starts with
      "http" is used as it is, anything else is resolved against the origin. */
  function BundleAddress(d: Descriptor, h: Host): (r: Result<string, Failure>)
    ensures StartsWith(d.bundleUrl, "http") ==> r == Success(d.bundleUrl)
    ensures !StartsWith(d.bundleUrl, "http") ==> r == h.resolveUrl(d.bundleUrl, h.origin)
  {
    if StartsWith(d.bundleUrl, "http") then Success(d.bundleUrl) else h.resolveUrl(d.bundleUrl, h.origin)
  }

  /** `module.default || module.AnimeSamaExtension`. */
  function EntryPoint(m: ModuleExports): (r: Result<ExtensionClass, Failure>)
    ensures m.default.Some? ==> r == Success(m.default.value)
    ensures m.default.None? && m.animeSamaExtension.Some? ==> r == Success(m.animeSamaExtension.value)
    ensures r.Failure? <==> m.default.None? && m.animeSamaExtension.None?
    ensures r.Failure? ==> r.error == NoEntryPoint
  {
    match (m.default, m.animeSamaExtension)
    case (Some(c), _) => Success(c)
    case (None, Some(c)) => Success(c)
    case (None, None) => Failure(NoEntryPoint)
  }

  /** The instance passes the interface check: `search` and `getPopular` are present. */
  predicate HasRequiredMethods(inst: Instance) {
    Search in inst.methods && GetPopular in inst.methods
  }

  /** Resolve the address, import the bundle, pick its class, instantiate it
      and check the instance; the first step that fails decides the failure. */
  function LoadInstance(d: Descriptor, h: Host): (r: Result<Instance, Failure>)
    ensures r.Success? ==> HasRequiredMethods(r.value)
  {
    var url :- BundleAddress(d, h);
    var exports :- h.importModule(url);
    var cls :- EntryPoint(exports);
    var inst :- cls.construct;
    if HasRequiredMethods(inst) then Success(inst) else Failure(MissingMethods)
  }

  // ---------------------------------------------------------------------------
  // Actions as transitions

  datatype InstallResult = InstallResult(state: State, outcome: Outcome<Failure>)

  /** `installExtension(id)`. */
  function Install(s: State, id: string, h: Host): (r: InstallResult)
    ensures r.outcome.Pass? ==> id in r.state.loaded
    ensures r.outcome.Fail? ==> r.state.loaded == s.loaded && r.state.keyOrder == s.keyOrder
    ensures r.state.manifest == s.manifest && r.state.active == s.active
  {
    match FindById(s.manifest, id)
    case None => InstallResult(s, Fail(NotFound(id)))
    case Some(d) =>
      if id in s.loaded then InstallResult(s, Pass)
      else match LoadInstance(d, h)
        case Failure(f) =>
          InstallResult(s.(loading := false, error := Some(InstallFailed(d.name, f))), Fail(f))
        case Success(inst) =>
          InstallResult(
            s.(loaded := s.loaded[id := LoadedExtension(d, inst)], keyOrder := s.keyOrder + [id],
               loading := false, error := None),
            Pass)
  }

  /** `j` is the first position of `keys` holding a key other than `id`. */
  predicate FirstKeyOtherThan(keys: seq<string>, id: string, j: int) {
    0 <= j < |keys| && keys[j] != id && forall i :: 0 <= i < j ==> keys[i] == id
  }

  /** `keys` without `id`, order kept (what `delete` leaves for `Object.keys`). */
  function RemoveKey(keys: seq<string>, id: string): (r: seq<string>)
    ensures forall k :: k in r <==> k in keys && k != id
    ensures Distinct(keys) ==> Distinct(r)
    ensures |r| > 0 ==> exists j :: FirstKeyOtherThan(keys, id, j) && keys[j] == r[0]
  {
    if keys == [] then []
    else if keys[0] == id then RemoveKey(keys[1..], id)
    else
      var rest := RemoveKey(keys[1..], id);
      assert Distinct(keys) ==> Distinct(keys[1..]) && keys[0] !in keys[1..];
      [keys[0]] + rest
  }

  /** `uninstallExtension(id)`. */
  function Uninstall(s: State, id: string): (r: State)
    ensures id !in r.loaded
    ensures r.manifest == s.manifest && r.loading == s.loading && r.error == s.error
  {
    if id !in s.loaded then s
    else
      var remaining := RemoveKey(s.keyOrder, id);
      var active := if s.active == Some(id) then (if |remaining| > 0 then Some(remaining[0]) else None) else s.active;
      s.(loaded := s.loaded - {id}, keyOrder := remaining, active := active)
  }

  /** `setActiveExtension(id)`. */
  function SetActive(s: State, id: string): (r: State)
    ensures r.active == (if id in s.loaded then Some(id) else s.active)
    ensures r.(active := s.active) == s
  {
    if id in s.loaded then s.(active := Some(id)) else s
  }

  /** The `catch` branch of `loadManifest`: record the failure and fall back
      to the built-in manifest. */
  function FallBack(s: State, f: Failure): State {
    s.(manifest := [FallbackDescriptor], error := Some(ManifestLoadFailed(f)), loading := false)
  }

  /** `loadManifest(manifestUrl)`. */
  function ManifestLoad(s: State, manifestUrl: Option<string>, h: Host): (r: State)
    ensures !r.loading
    ensures r.manifest == [FallbackDescriptor] || r.error.None?
  {
    var s1 := s.(loading := true, error := None);
    match h.fetchManifest(manifestUrl.GetOr(DefaultManifestUrl))
    case Failure(f) => FallBack(s1, f)
    case Success(data) =>
      var s2 := s1.(manifest := data);
      if |data| > 0 && !IsSet(s2.active) then
        var ir := Install(s2, data[0].id, h);
        match ir.outcome
        case Fail(f) => FallBack(ir.state, f)
        case Pass => SetActive(ir.state, data[0].id).(loading := false)
      else s2.(loading := false)
  }

  // ---------------------------------------------------------------------------
  // The active-extension getter and the routers

  /** The `activeExtension` getter. */
  function ActiveExtension(s: State): (r: Option<LoadedExtension>)
    ensures r.Some? <==> IsSet(s.active) && s.active.value in s.loaded
    ensures r.Some? ==> r.value == s.loaded[s.active.value]
  {
    if IsSet(s.active) && s.active.value in s.loaded then Some(s.loaded[s.active.value]) else None
  }

  /** `searchWithActiveExtension(query, filters)`. */
  function SearchWithActiveExtension(s: State, query: string, filters: Filters): (r: Result<Call, Failure>)
    ensures r.Failure? <==> ActiveExtension(s).None?
    ensures r.Failure? ==> r.error == NoActiveExtension
    ensures r.Success? ==> r.value == SearchCall(ActiveExtension(s).value.instance, query, filters)
  {
    match ActiveExtension(s)
    case None => Failure(NoActiveExtension)
    case Some(ext) => Success(SearchCall(ext.instance, query, filters))
  }

  /** `getPopularWithActiveExtension(page = 1)`. */
  function PopularWithActiveExtension(s: State, page: Option<int>): (r: Result<Call, Failure>)
    ensures r.Failure? <==> ActiveExtension(s).None?
    ensures r.Failure? ==> r.error == NoActiveExtension
    ensures r.Success? ==> r.value == PopularCall(ActiveExtension(s).value.instance, if page.Some? then page.value else 1)
  {
    match ActiveExtension(s)
    case None => Failure(NoActiveExtension)
    case Some(ext) => Success(PopularCall(ext.instance, page.GetOr(1)))
  }

  /** `getLatestWithActiveExtension(page = 1)`. */
  function LatestWithActiveExtension(s: State, page: Option<int>): (r: Result<Call, Failure>)
    ensures r.Failure? <==> ActiveExtension(s).None?
    ensures r.Failure? ==> r.error == NoActiveExtension
    ensures r.Success? ==> r.value == LatestCall(ActiveExtension(s).value.instance, if page.Some? then page.value else 1)
  {
    match ActiveExtension(s)
    case None => Failure(NoActiveExtension)
    case Some(ext) => Success(LatestCall(ext.instance, page.GetOr(1)))
  }

  /** `getAnimeDetailsWithActiveExtension(animeId)`. */
  function DetailsWithActiveExtension(s: State, animeId: string): (r: Result<Call, Failure>)
    ensures r.Failure? <==> ActiveExtension(s).None?
    ensures r.Failure? ==> r.error == NoActiveExtension
    ensures r.Success? ==> r.value == DetailsCall(ActiveExtension(s).value.instance, animeId)
  {
    match ActiveExtension(s)
    case None => Failure(NoActiveExtension)
    case Some(ext) => Success(DetailsCall(ext.instance, animeId))
  }

  /** `getEpisodeListWithActiveExtension(animeId)`. */
  function EpisodesWithActiveExtension(s: State, animeId: string): (r: Result<Call, Failure>)
    ensures r.Failure? <==> ActiveExtension(s).None?
    ensures r.Failure? ==> r.error == NoActiveExtension
    ensures r.Success? ==> r.value == EpisodesCall(ActiveExtension(s).value.instance, animeId)
  {
    match ActiveExtension(s)
    case None => Failure(NoActiveExtension)
    case Some(ext) => Success(EpisodesCall(ext.instance, animeId))
  }

  /** `getVideoSourcesWithActiveExtension(episodeUrl)`. */
  function VideoSourcesWithActiveExtension(s: State, episodeUrl: string): (r: Result<Call, Failure>)
    ensures r.Failure? <==> ActiveExtension(s).None?
    ensures r.Failure? ==> r.error == NoActiveExtension
    ensures r.Success? ==> r.value == VideoSourcesCall(ActiveExtension(s).value.instance, episodeUrl)
  {
    match ActiveExtension(s)
    case None => Failure(NoActiveExtension)
    case Some(ext) => Success(VideoSourcesCall(ext.instance, episodeUrl))
  }

  // ---------------------------------------------------------------------------
  // The store object

  /** The store as the application holds it: its fields are updated in place
      by the actions, and each action is proved to perform the transition of
      the same name above. */
  class ExtensionsStore {
    var manifest: seq<Descriptor>
    var loadedExtensions: map<string, LoadedExtension>
    var keyOrder: seq<string>
    var activeExtensionId: Option<string>
    var loading: bool
    var error: Option<ErrorReport>

    function Snapshot(): State
      reads this
    {
      State(manifest, loadedExtensions, keyOrder, activeExtensionId, loading, error)
    }

    ghost predicate Valid()
      reads this
    {
      Inv(Snapshot())
    }

    constructor ()
      ensures Valid() && Snapshot() == InitialState
    {
      manifest := [];
      loadedExtensions := map[];
      keyOrder := [];
      activeExtensionId := None;
      loading := false;
      error := None;
    }

    method InstallExtension(id: string, h: Host) returns (outcome: Outcome<Failure>)
      requires Valid()
      modifies this
      ensures Valid()
      ensures Snapshot() == Install(old(Snapshot()), id, h).state
      ensures outcome == Install(old(Snapshot()), id, h).outcome
    {
      ghost var s := Snapshot();
      var found := FindById(manifest, id);
      if found.None? {
        return Fail(NotFound(id));
      }
      var d := found.value;
      if id in loadedExtensions {
        return Pass;
      }
      loading := true;
      error := None;
      var created := LoadInstance(d, h);
      if created.Failure? {
        error := Some(InstallFailed(d.name, created.error));
        loading := false;
        return Fail(created.error);
      }
      loadedExtensions := loadedExtensions[id := LoadedExtension(d, created.value)];
      keyOrder := keyOrder + [id];
      loading := false;
      outcome := Pass;
      assert forall i :: 0 <= i < |s.keyOrder| ==> keyOrder[i] == s.keyOrder[i] != id;
    }

    method UninstallExtension(id: string)
      requires Valid()
      modifies this
      ensures Valid()
      ensures Snapshot() == Uninstall(old(Snapshot()), id)
    {
      if id in loadedExtensions {
        loadedExtensions := loadedExtensions - {id};
        keyOrder := RemoveKey(keyOrder, id);
        if activeExtensionId == Some(id) {
          activeExtensionId := if |keyOrder| > 0 then Some(keyOrder[0]) else None;
        }
      }
    }

    method SetActiveExtension(id: string)
      requires Valid()
      modifies this
      ensures Valid()
      ensures Snapshot() == SetActive(old(Snapshot()), id)
    {
      if id in loadedExtensions {
        activeExtensionId := Some(id);
      }
    }

    method LoadManifest(manifestUrl: Option<string>, h: Host)
      requires Valid()
      modifies this
      ensures Valid()
      ensures Snapshot() == ManifestLoad(old(Snapshot()), manifestUrl, h)
    {
      loading := true;
      error := None;
      var failure: Option<Failure> := None;
      var fetched := h.fetchManifest(manifestUrl.GetOr(DefaultManifestUrl));
      if fetched.Failure? {
        failure := Some(fetched.error);
      } else {
        var data := fetched.value;
        manifest := data;
        if |data| > 0 && !IsSet(activeExtensionId) {
          var outcome := InstallExtension(data[0].id, h);
          if outcome.Fail? {
            failure := Some(outcome.error);
          } else {
            SetActiveExtension(data[0].id);
          }
        }
      }
      if failure.Some? {
        error := Some(ManifestLoadFailed(failure.value));
        manifest := [FallbackDescriptor];
      }
      loading := false;
    }
  }
}
