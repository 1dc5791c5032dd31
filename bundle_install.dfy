/** How the reference bundle meets the store's loader: the module exports
    its class both as `default` and as `AnimeSamaExtension`, its instances
    expose all six catalogue methods, and its constructor's fields agree with
    the store's built-in fallback descriptor. */
module BundleInstall {
  import opened Wrappers
  import opened Strings
  import opened Extensions
  import AnimeSama

  /** The methods an `AnimeSamaExtension` instance defines. */
  const BundleCapabilities: set<Capability> :=
    {Search, GetPopular, GetLatest, GetAnimeDetails, GetEpisodeList, GetVideoSources}

  /** The exports of the bundle: one class under both names, whose
      construction succeeds with the given instance token. */
  function BundleExports(token: nat): ModuleExports {
    var cls := ExtensionClass(Success(Instance(token, BundleCapabilities)));
    ModuleExports(Some(cls), Some(cls))
  }

  /** Once its address resolves and the import succeeds, the bundle passes the
      entry-point check and the method check. */
  lemma BundlePassesLoaderChecks(d: Descriptor, h: Host, url: string, token: nat)
    requires BundleAddress(d, h) == Success(url)
    requires h.importModule(url) == Success(BundleExports(token))
    ensures LoadInstance(d, h) == Success(Instance(token, BundleCapabilities))
  {
  }

  /** Installing a manifest entry served by the bundle succeeds and stores the
      bundle's instance under that id. */
  lemma BundleInstalls(s: State, id: string, h: Host, d: Descriptor, url: string, token: nat)
    requires id !in s.loaded && FindById(s.manifest, id) == Some(d)
    requires BundleAddress(d, h) == Success(url)
    requires h.importModule(url) == Success(BundleExports(token))
    ensures var r := Install(s, id, h);
      r.outcome == Pass && r.state.loaded[id] == LoadedExtension(d, Instance(token, BundleCapabilities))
  {
    BundlePassesLoaderChecks(d, h, url, token);
  }

  /** After a failed manifest load the built-in entry is relative, so it is
      resolved against the origin; when that address serves the bundle, an
      explicit install of "animesama" succeeds. The load itself installs nothing. */
  lemma FallbackEntryInstallsBundle(s: State, manifestUrl: Option<string>, h: Host, f: Failure, url: string, token: nat)
    requires h.fetchManifest(manifestUrl.GetOr(DefaultManifestUrl)) == Failure(f)
    requires "animesama" !in s.loaded
    requires h.resolveUrl(FallbackDescriptor.bundleUrl, h.origin) == Success(url)
    requires h.importModule(url) == Success(BundleExports(token))
    ensures ManifestLoad(s, manifestUrl, h).loaded == s.loaded
    ensures Install(ManifestLoad(s, manifestUrl, h), "animesama", h).outcome == Pass
  {
    var s1 := ManifestLoad(s, manifestUrl, h);
    assert s1.manifest == [FallbackDescriptor];
    assert FirstIndexOf(s1.manifest, "animesama") == Some(0);
    assert !StartsWith(FallbackDescriptor.bundleUrl, "http") by {
      assert FallbackDescriptor.bundleUrl[0] == '.';
    }
    BundleInstalls(s1, "animesama", h, FallbackDescriptor, url, token);
  }

  /** `new AnimeSamaExtension()`: the instance's id, name, version, language
      and base URL are those of the store's fallback descriptor. */
  method NewBundleInstance() returns (e: AnimeSama.AnimeSamaExtension)
    ensures e.id == FallbackDescriptor.id && e.name == FallbackDescriptor.name
    ensures e.version == FallbackDescriptor.version && e.lang == FallbackDescriptor.lang
    ensures e.baseUrl == FallbackDescriptor.baseUrl
  {
    e := new AnimeSama.AnimeSamaExtension();
  }
}
