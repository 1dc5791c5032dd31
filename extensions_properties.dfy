/** Properties of the extension registry store: what each action does to the
    installed map and the active id, and that every action keeps the store's
    invariant (the active id is unset or installed). */
module ExtensionsProperties {
  import opened Wrappers
  import opened Extensions

  /** Some manifest entry carries `id`. */
  predicate InManifest(m: seq<Descriptor>, id: string) {
    exists i :: 0 <= i < |m| && m[i].id == id
  }

  // ---------------------------------------------------------------------------
  // installExtension

  /** An id that no manifest entry carries is rejected with nothing changed,
      even when that id is installed: the manifest is consulted first. */
  lemma InstallNotInManifest(s: State, id: string, h: Host)
    requires !InManifest(s.manifest, id)
    ensures Install(s, id, h) == InstallResult(s, Fail(NotFound(id)))
  {
    assert FindById(s.manifest, id).None?;
  }

  /** Installing an installed id resolves with the store untouched, and the
      result does not depend on the host at all: nothing is imported. */
  lemma InstallAlreadyInstalled(s: State, id: string, h: Host, other: Host)
    requires InManifest(s.manifest, id) && id in s.loaded
    ensures Install(s, id, h) == InstallResult(s, Pass)
    ensures Install(s, id, other) == Install(s, id, h)
  {
    var i :| 0 <= i < |s.manifest| && s.manifest[i].id == id;
    assert FindById(s.manifest, id).Some?;
  }

  /** A successful install adds exactly the one key, bound to the manifest's
      first entry with that id, appends it to the key order and changes no
      other key, nor the active id; the status fields end clear. */
  lemma InstallAddsOneEntry(s: State, id: string, h: Host)
    requires id !in s.loaded
    requires Install(s, id, h).outcome.Pass?
    ensures var r := Install(s, id, h).state;
      && r.loaded.Keys == s.loaded.Keys + {id}
      && (forall k :: k in s.loaded ==> r.loaded[k] == s.loaded[k])
      && (exists i :: FirstWithId(s.manifest, id, i) && r.loaded[id].manifest == s.manifest[i])
      && r.keyOrder == s.keyOrder + [id]
      && r.active == s.active && r.manifest == s.manifest
      && !r.loading && r.error.None?
  {
    var d := FindById(s.manifest, id).value;
    var inst := LoadInstance(d, h).value;
    assert Install(s, id, h).state.loaded == s.loaded[id := LoadedExtension(d, inst)];
  }

  /** A failed install is all-or-nothing: the installed map, the key order,
      the active id and the manifest are as before; once the id was found in
      the manifest the failure is also recorded in `error`. */
  lemma InstallFailureLeavesRegistry(s: State, id: string, h: Host)
    requires Install(s, id, h).outcome.Fail?
    ensures var r := Install(s, id, h).state;
      && r.loaded == s.loaded && r.keyOrder == s.keyOrder
      && r.active == s.active && r.manifest == s.manifest
      && (InManifest(s.manifest, id) ==> r.error.Some? && !r.loading)
  {
    if InManifest(s.manifest, id) {
      var i :| 0 <= i < |s.manifest| && s.manifest[i].id == id;
      assert FindById(s.manifest, id).Some?;
    }
  }

  /** A bundle that exports neither `default` nor `AnimeSamaExtension` is
      rejected and the store keeps no trace of it beyond the error report. */
  lemma InstallRejectsNoEntryPoint(s: State, id: string, h: Host, d: Descriptor, url: string, m: ModuleExports)
    requires id !in s.loaded && FindById(s.manifest, id) == Some(d)
    requires BundleAddress(d, h) == Success(url) && h.importModule(url) == Success(m)
    requires m.default.None? && m.animeSamaExtension.None?
    ensures Install(s, id, h) == InstallResult(s.(loading := false, error := Some(InstallFailed(d.name, NoEntryPoint))), Fail(NoEntryPoint))
  {
  }

  /** An instance without `search`, or without `getPopular`, is rejected. */
  lemma InstallRejectsMissingMethods(s: State, id: string, h: Host, d: Descriptor, url: string, m: ModuleExports, inst: Instance)
    requires id !in s.loaded && FindById(s.manifest, id) == Some(d)
    requires BundleAddress(d, h) == Success(url) && h.importModule(url) == Success(m)
    requires EntryPoint(m).Success? && EntryPoint(m).value.construct == Success(inst)
    requires Search !in inst.methods || GetPopular !in inst.methods
    ensures Install(s, id, h) == InstallResult(s.(loading := false, error := Some(InstallFailed(d.name, MissingMethods))), Fail(MissingMethods))
  {
  }

  /** Once the bundle address resolves, the module imports, an entry point is
      found and its constructor yields `inst`, loading yields exactly `inst`
      when it has `search` and `getPopular`, and fails with missing methods
      otherwise. */
  lemma LoadInstanceConstructs(d: Descriptor, h: Host, url: string, m: ModuleExports, c: ExtensionClass, inst: Instance)
    requires BundleAddress(d, h) == Success(url) && h.importModule(url) == Success(m)
    requires EntryPoint(m) == Success(c) && c.construct == Success(inst)
    ensures LoadInstance(d, h) == if HasRequiredMethods(inst) then Success(inst) else Failure(MissingMethods)
  {
  }

  /** An id in the manifest but not installed, whose bundle loads, is
      installed: the id is bound to the manifest entry and the loaded
      instance, appended to the key order, and the status fields end clear. */
  lemma InstallLoads(s: State, id: string, h: Host, d: Descriptor, inst: Instance)
    requires id !in s.loaded && FindById(s.manifest, id) == Some(d)
    requires LoadInstance(d, h) == Success(inst)
    ensures Install(s, id, h) == InstallResult(
      s.(loaded := s.loaded[id := LoadedExtension(d, inst)], keyOrder := s.keyOrder + [id],
         loading := false, error := None),
      Pass)
  {
  }

  /** Installing twice: the second call finds the id installed, resolves and
      changes nothing, whatever the host would have served. */
  lemma InstallTwice(s: State, id: string, h: Host, again: Host)
    requires Install(s, id, h).outcome.Pass?
    ensures var r := Install(s, id, h).state;
      Install(r, id, again) == InstallResult(r, Pass)
  {
    var r := Install(s, id, h).state;
    var i :| FirstWithId(s.manifest, id, i);
    assert r.manifest[i].id == id;
    InstallAlreadyInstalled(r, id, again, again);
  }

  // ---------------------------------------------------------------------------
  // uninstallExtension and setActiveExtension

  /** Uninstalling an id that is not installed changes nothing. */
  lemma UninstallAbsent(s: State, id: string)
    requires id !in s.loaded
    ensures Uninstall(s, id) == s
  {
  }

  /** Uninstalling an installed id removes exactly that key. When it was the
      active one, the first remaining key in insertion order takes over, and
      the active id is cleared only when nothing remains; otherwise the active
      id is kept. */
  lemma UninstallRemovesOne(s: State, id: string)
    requires Inv(s) && id in s.loaded
    ensures var r := Uninstall(s, id);
      && r.loaded == s.loaded - {id}
      && r.keyOrder == RemoveKey(s.keyOrder, id)
      && (s.active != Some(id) ==> r.active == s.active)
      && (s.active == Some(id) ==> (r.active.None? <==> |r.loaded| == 0))
      && (s.active == Some(id) && r.active.Some? ==>
            && r.active.value == r.keyOrder[0] && r.active.value in r.loaded
            && exists j :: FirstKeyOtherThan(s.keyOrder, id, j) && s.keyOrder[j] == r.active.value)
  {
    var r := Uninstall(s, id);
    assert r.loaded == s.loaded - {id};
    KeyOrderEmptyIff(r.keyOrder, r.loaded);
  }

  /** A key order that lists exactly the keys of a map is empty exactly when the map is. */
  lemma KeyOrderEmptyIff(keys: seq<string>, m: map<string, LoadedExtension>)
    requires forall k :: k in keys <==> k in m
    ensures keys == [] <==> |m| == 0
  {
    if keys != [] {
      assert keys[0] in m;
    }
    if |m| != 0 {
      var k :| k in m;
      assert k in keys;
    }
  }

  /** Uninstall then install again: the extension is re-imported, bound to
      its manifest entry, and the set of installed ids is as before. */
  lemma UninstallThenInstall(s: State, id: string, h: Host, d: Descriptor, inst: Instance)
    requires Inv(s) && id in s.loaded
    requires FindById(s.manifest, id) == Some(d) && LoadInstance(d, h) == Success(inst)
    ensures var r := Install(Uninstall(s, id), id, h);
      && r.outcome == Pass
      && r.state.loaded == s.loaded[id := LoadedExtension(d, inst)]
      && r.state.loaded.Keys == s.loaded.Keys
  {
    var u := Uninstall(s, id);
    assert u.loaded == s.loaded - {id};
    assert Install(u, id, h).state.loaded == u.loaded[id := LoadedExtension(d, inst)];
  }

  /** `setActiveExtension` sets the active id exactly when the id is installed. */
  lemma SetActiveIff(s: State, id: string)
    ensures SetActive(s, id).active == Some(id) <==> id in s.loaded || s.active == Some(id)
    ensures id !in s.loaded ==> SetActive(s, id) == s
  {
  }

  // ---------------------------------------------------------------------------
  // The invariant

  lemma InitialStateInv()
    ensures Inv(InitialState)
  {
  }

  lemma InstallPreservesInv(s: State, id: string, h: Host)
    requires Inv(s)
    ensures Inv(Install(s, id, h).state)
  {
    var r := Install(s, id, h);
    if r.outcome.Pass? && id !in s.loaded {
      InstallAddsOneEntry(s, id, h);
      assert forall i :: 0 <= i < |s.keyOrder| ==> r.state.keyOrder[i] == s.keyOrder[i] != id;
    }
  }

  lemma UninstallPreservesInv(s: State, id: string)
    requires Inv(s)
    ensures Inv(Uninstall(s, id))
  {
    if id in s.loaded {
      UninstallRemovesOne(s, id);
    }
  }

  lemma SetActivePreservesInv(s: State, id: string)
    requires Inv(s)
    ensures Inv(SetActive(s, id))
  {
  }

  lemma ManifestLoadPreservesInv(s: State, url: Option<string>, h: Host)
    requires Inv(s)
    ensures Inv(ManifestLoad(s, url, h))
  {
    var s1 := s.(loading := true, error := None);
    match h.fetchManifest(url.GetOr(DefaultManifestUrl))
    case Failure(_) =>
    case Success(data) =>
      var s2 := s1.(manifest := data);
      if |data| > 0 && !IsSet(s2.active) {
        InstallPreservesInv(s2, data[0].id, h);
        SetActivePreservesInv(Install(s2, data[0].id, h).state, data[0].id);
      }
  }

  // ---------------------------------------------------------------------------
  // loadManifest

  /** When the manifest cannot be fetched or parsed, the store falls back to
      the built-in descriptor, records the failure, and installs nothing. */
  lemma ManifestLoadFetchFails(s: State, url: Option<string>, h: Host, f: Failure)
    requires h.fetchManifest(url.GetOr(DefaultManifestUrl)) == Failure(f)
    ensures ManifestLoad(s, url, h)
      == s.(manifest := [FallbackDescriptor], error := Some(ManifestLoadFailed(f)), loading := false)
  {
  }

  /** A fetched manifest replaces the old one; when it is empty or some
      extension is already active, nothing else changes. */
  lemma ManifestLoadWithoutAutoInstall(s: State, url: Option<string>, h: Host, data: seq<Descriptor>)
    requires h.fetchManifest(url.GetOr(DefaultManifestUrl)) == Success(data)
    requires |data| == 0 || IsSet(s.active)
    ensures ManifestLoad(s, url, h) == s.(manifest := data, error := None, loading := false)
  {
  }

  /** The first entry of a manifest is what `find` returns for its id. */
  lemma FindFirstEntry(m: seq<Descriptor>)
    requires |m| > 0
    ensures FindById(m, m[0].id) == Some(m[0])
  {
    assert FirstIndexOf(m, m[0].id) == Some(0);
  }

  /** With nothing active, a fetched non-empty manifest gets its first entry
      installed and made active, provided its bundle loads (or it is installed
      already). */
  lemma ManifestLoadAutoInstalls(s: State, url: Option<string>, h: Host, data: seq<Descriptor>)
    requires h.fetchManifest(url.GetOr(DefaultManifestUrl)) == Success(data)
    requires |data| > 0 && !IsSet(s.active)
    requires data[0].id in s.loaded || LoadInstance(data[0], h).Success?
    ensures var r := ManifestLoad(s, url, h);
      && r.manifest == data
      && r.active == Some(data[0].id)
      && data[0].id in r.loaded
      && r.error.None? && !r.loading
  {
    FindFirstEntry(data);
  }

  /** When the auto-install fails, the whole load counts as failed: the
      manifest falls back to the built-in descriptor, the error is recorded,
      and the installed map and active id are as before. */
  lemma ManifestLoadAutoInstallFails(s: State, url: Option<string>, h: Host, data: seq<Descriptor>, f: Failure)
    requires h.fetchManifest(url.GetOr(DefaultManifestUrl)) == Success(data)
    requires |data| > 0 && !IsSet(s.active)
    requires data[0].id !in s.loaded && LoadInstance(data[0], h) == Failure(f)
    ensures var r := ManifestLoad(s, url, h);
      && r.manifest == [FallbackDescriptor]
      && r.error == Some(ManifestLoadFailed(f))
      && r.loaded == s.loaded && r.keyOrder == s.keyOrder && r.active == s.active
      && !r.loading
  {
    FindFirstEntry(data);
  }

  /** Loading a manifest never removes or replaces an installed extension,
      so an installed id may be missing from the manifest afterwards. */
  lemma ManifestLoadKeepsInstalled(s: State, url: Option<string>, h: Host)
    ensures var r := ManifestLoad(s, url, h);
      forall k :: k in s.loaded ==> k in r.loaded && r.loaded[k] == s.loaded[k]
  {
    var s1 := s.(loading := true, error := None);
    match h.fetchManifest(url.GetOr(DefaultManifestUrl))
    case Failure(_) =>
    case Success(data) =>
      var s2 := s1.(manifest := data);
      if |data| > 0 && !IsSet(s2.active) && data[0].id !in s2.loaded {
        var ir := Install(s2, data[0].id, h);
        if ir.outcome.Pass? {
          InstallAddsOneEntry(s2, data[0].id, h);
        }
      }
  }

  // ---------------------------------------------------------------------------
  // The getter and the routers

  /** Under the invariant the getter finds nothing exactly when the active
      id is unset or empty. */
  lemma ActiveExtensionUnderInv(s: State)
    requires Inv(s)
    ensures ActiveExtension(s).None? <==> !IsSet(s.active)
  {
  }

  /** With no active extension every router rejects with the same error and
      produces no call into any instance. */
  lemma RoutersRejectWithoutActive(s: State, query: string, filters: Filters, page: Option<int>, animeId: string, episodeUrl: string)
    requires !IsSet(s.active)
    ensures SearchWithActiveExtension(s, query, filters) == Failure(NoActiveExtension)
    ensures PopularWithActiveExtension(s, page) == Failure(NoActiveExtension)
    ensures LatestWithActiveExtension(s, page) == Failure(NoActiveExtension)
    ensures DetailsWithActiveExtension(s, animeId) == Failure(NoActiveExtension)
    ensures EpisodesWithActiveExtension(s, animeId) == Failure(NoActiveExtension)
    ensures VideoSourcesWithActiveExtension(s, episodeUrl) == Failure(NoActiveExtension)
  {
  }
}
