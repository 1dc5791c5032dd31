# Extension registry of a media catalogue client — Dafny model

The application gets its catalogue from interchangeable extensions. A
store keeps the extension manifest (the descriptors of every known
extension), the installed extensions (each descriptor with the instance
its bundle produced), the id of the active extension, and two status
fields, `loading` and `error`. The store's actions are:

- `loadManifest`: fetch the manifest. On failure, fall back to a
  built-in descriptor. On success, auto-install and activate the first
  entry when nothing is active.
- `installExtension`: look the id up in the manifest; it is a no-op when
  the id is already installed. Otherwise resolve the bundle address,
  import the bundle, pick its class, instantiate it and check for
  `search` and `getPopular`. On success it records the entry and clears
  `loading` and `error`. On failure the installed extensions, key order,
  active id and manifest are unchanged; an id missing from the manifest
  changes nothing at all, and any later failure records the error and sets
  `loading` to false.
- `uninstallExtension`: remove the entry; if it was active, hand over to
  the first remaining key.
- `setActiveExtension`: set the active id, but only to an installed id.
- Six routers: forward a catalogue call to the active instance, or fail
  when nothing is active.

The reference extension is a class whose catalogue methods return
fixture data.

Files:

- `wrappers.dfy` (module `Wrappers`): `Option`, `Result`, and `Outcome`.
  `Outcome` is what an action that returns nothing settles to.
- `strings.dfy` (module `Strings`): the JavaScript string operations the
  code uses: `startsWith`, `toLowerCase`, `includes`, and decimal
  rendering of a number.
- `extensions.dfy` (module `Extensions`): the store. Each action is a
  pure transition on `State` (`Install`, `Uninstall`, `SetActive`,
  `ManifestLoad`). The getter and the routers are functions of `State`.
  The class `ExtensionsStore` keeps the same fields and updates them step
  by step. Each of its methods is proved to reach exactly the state its
  transition gives, and to keep the invariant `Inv`.
- `extensions_properties.dfy` (module `ExtensionsProperties`): what each
  action does, and that each one keeps `Inv`. `Inv` says the active id is
  unset or installed, and the key order lists exactly the installed ids.
- `animesama.dfy` (module `AnimeSama`): the reference extension.
- `bundle_install.dfy` (module `BundleInstall`): the reference bundle
  passes the loader's entry-point and method checks. Its constructor
  fields agree with the store's fallback descriptor.

The I/O is passed in as a `Host` of oracle functions: fetching and
parsing the manifest, resolving a relative URL against the page origin,
and importing a module. Instantiation is what an exported
`ExtensionClass` yields. The key order of the installed-extensions
object is kept explicitly as `keyOrder` (insertion order), so "the first
remaining key" is exact.

Points of the code's behaviour that are easy to get wrong:

- `installExtension` looks the id up in the manifest before the
  already-installed check. An id missing from the manifest is rejected
  even when it is installed.
- The fallback path of `loadManifest` installs nothing. Only a fetched,
  non-empty manifest triggers the auto-install.
- An installed id need not be in the current manifest, because
  `loadManifest` replaces the manifest without touching the installed
  extensions. `ManifestLoadKeepsInstalled` states what does
  hold.
- Installs are not serialised per id.
- The active id is tested by JavaScript truthiness, so an active id of
  `""` counts as unset. `IsSet` models this.

## Model

| member | source | states |
|---|---|---|
| `Strings.ToLower` | public/extensions/bundles/animesama.bundle.js:40 | the lower-cased string has the same length, and each character is lower-cased in place |
| `Strings.ToLowerIdempotent` | public/extensions/bundles/animesama.bundle.js:40 | lower-casing an already lower-cased query or title changes nothing |
| `Strings.ToLowerAppend` | public/extensions/bundles/animesama.bundle.js:40 | lower-casing a concatenation gives the concatenation of the lower-cased parts |
| `Strings.IncludesIffOccurs` | public/extensions/bundles/animesama.bundle.js:40 | the left-to-right `includes` scan (`Strings.Includes`) succeeds exactly when the query occurs at some position of the title |
| `Strings.IncludesSuffix` | public/extensions/bundles/animesama.bundle.js:40 | a string includes every suffix of itself |
| `Strings.NatToString` | public/extensions/bundles/animesama.bundle.js:119-121 | the rendering of a number in a template literal is a non-empty string of decimal digits, with no leading zero for a positive number |
| `Strings.ParseNatToString` | public/extensions/bundles/animesama.bundle.js:119-121 | reading the decimal rendering back gives the number |
| `Strings.NatToStringInjective` | public/extensions/bundles/animesama.bundle.js:119-121 | different numbers render differently |
| `Extensions.FirstIndexOf` | src/stores/extensions.ts:100-102 | `find` stops at the first manifest position carrying the id, and finds nothing exactly when no entry carries it |
| `Extensions.FindById` | src/stores/extensions.ts:100-105 | the descriptor found is the one at the first position with that id; none is found exactly when no entry has the id |
| `Extensions.BundleAddress` | src/stores/extensions.ts:121-126 | a bundle URL starting with "http" (`Strings.StartsWith`, the `startsWith` test) is imported as it is; any other is resolved against the page origin |
| `Extensions.EntryPoint` | src/stores/extensions.ts:132-136 | the `default` export wins; otherwise the `AnimeSamaExtension` export is used; with neither, loading fails with no entry point |
| `Extensions.LoadInstance` | src/stores/extensions.ts:121-144 | an instance that loads has both `search` and `getPopular` |
| `ExtensionsProperties.LoadInstanceConstructs` | src/stores/extensions.ts:121-144 | when the address resolves, the module imports and the chosen export's constructor yields an instance, loading yields exactly that instance if it has `search` and `getPopular`, and fails with missing methods otherwise |
| `Extensions.Install` | src/stores/extensions.ts:99-161 | a resolved install leaves the id installed; a rejected one leaves the installed map and key order as they were; the manifest and active id never change |
| `Extensions.RemoveKey` | src/stores/extensions.ts:165-172 | removing a key leaves every other key, and no copy of the removed one, keeps the keys distinct, and the first key left is the first key of the old order other than the removed one |
| `Extensions.Uninstall` | src/stores/extensions.ts:163-175 | the id is no longer installed afterwards; the manifest and status fields are untouched |
| `Extensions.SetActive` | src/stores/extensions.ts:177-184 | the active id becomes `id` when `id` is installed and is unchanged otherwise; nothing else changes |
| `Extensions.ManifestLoad` | src/stores/extensions.ts:50-97 | `loading` is false on exit, and either the manifest is the fallback or no error is recorded |
| `Extensions.ActiveExtension` | src/stores/extensions.ts:43-47 | the getter finds an extension exactly when the active id is set (non-empty) and installed, and then it is the installed entry under that id |
| `Extensions.SearchWithActiveExtension` | src/stores/extensions.ts:187-198 | fails with "no active extension" exactly when the getter finds nothing; otherwise forwards query and filters unchanged to the active instance |
| `Extensions.PopularWithActiveExtension` | src/stores/extensions.ts:200-210 | fails exactly when nothing is active; otherwise forwards the page, defaulting to 1, to the active instance |
| `Extensions.LatestWithActiveExtension` | src/stores/extensions.ts:212-220 | fails exactly when nothing is active; otherwise forwards the page, defaulting to 1, to the active instance |
| `Extensions.DetailsWithActiveExtension` | src/stores/extensions.ts:222-229 | fails exactly when nothing is active; otherwise forwards the anime id unchanged |
| `Extensions.EpisodesWithActiveExtension` | src/stores/extensions.ts:231-238 | fails exactly when nothing is active; otherwise forwards the anime id unchanged |
| `Extensions.VideoSourcesWithActiveExtension` | src/stores/extensions.ts:240-247 | fails exactly when nothing is active; otherwise forwards the episode URL unchanged |
| `Extensions.ExtensionsStore.constructor` | src/stores/extensions.ts:32-36 | the store starts with an empty manifest, nothing installed, nothing active, not loading and no error |
| `Extensions.ExtensionsStore.InstallExtension` | src/stores/extensions.ts:99-161 | the fields after the step-by-step install are exactly the `Install` transition of the old fields, and the invariant holds |
| `Extensions.ExtensionsStore.UninstallExtension` | src/stores/extensions.ts:163-175 | the fields after the in-place delete are exactly the `Uninstall` transition, and the invariant holds |
| `Extensions.ExtensionsStore.SetActiveExtension` | src/stores/extensions.ts:177-184 | the fields afterwards are exactly the `SetActive` transition, and the invariant holds |
| `Extensions.ExtensionsStore.LoadManifest` | src/stores/extensions.ts:50-97 | the fields after the try/catch/finally sequence are exactly the `ManifestLoad` transition, and the invariant holds |
| `ExtensionsProperties.InstallNotInManifest` | src/stores/extensions.ts:100-105 | an id absent from the manifest is rejected as not found with nothing changed, even when that id is installed |
| `ExtensionsProperties.InstallAlreadyInstalled` | src/stores/extensions.ts:107-110 | installing an installed id resolves with the whole state unchanged, and the result does not depend on the host, so nothing is imported |
| `ExtensionsProperties.InstallAddsOneEntry` | src/stores/extensions.ts:146-149 | a successful install adds exactly one key, bound to the first manifest entry with that id, and appends it to the key order; other keys, the active id and the manifest are unchanged; `loading` and `error` end clear |
| `ExtensionsProperties.InstallFailureLeavesRegistry` | src/stores/extensions.ts:154-160 | a failed install leaves installed map, key order, active id and manifest unchanged; once the id was found, the error is recorded and `loading` is false |
| `ExtensionsProperties.InstallRejectsNoEntryPoint` | src/stores/extensions.ts:132-136 | a module exporting neither class is rejected with no entry point; only the error report and `loading` change |
| `ExtensionsProperties.InstallRejectsMissingMethods` | src/stores/extensions.ts:142-144 | an instance lacking `search` or `getPopular` is rejected with missing methods; only the error report and `loading` change |
| `ExtensionsProperties.InstallLoads` | src/stores/extensions.ts:99-161 | an id in the manifest, not installed, whose bundle loads is installed: bound to its manifest entry and instance, appended to the key order, with `loading` and `error` cleared |
| `ExtensionsProperties.InstallTwice` | src/stores/extensions.ts:107-110 | after a successful install, installing again resolves with nothing changed, whatever the host would serve |
| `ExtensionsProperties.UninstallAbsent` | src/stores/extensions.ts:163-164 | uninstalling an id that is not installed changes nothing |
| `ExtensionsProperties.UninstallRemovesOne` | src/stores/extensions.ts:165-173 | exactly that key is removed; an active id other than it is kept; if it was active, the first remaining key in insertion order (the first key of the old order other than the removed one) becomes active, and the active id is cleared only when nothing remains |
| `ExtensionsProperties.UninstallThenInstall` | src/stores/extensions.ts:99-175 | uninstalling and installing again re-imports the bundle, binds it to the manifest entry, and restores the same set of installed ids |
| `ExtensionsProperties.SetActiveIff` | src/stores/extensions.ts:177-184 | afterwards the active id is `id` exactly when `id` is installed or was already active; for an id not installed, nothing changes |
| `ExtensionsProperties.InitialStateInv` | src/stores/extensions.ts:32-36 | the empty store satisfies the invariant |
| `ExtensionsProperties.InstallPreservesInv` | src/stores/extensions.ts:99-161 | install keeps "the active id is unset or installed" and the key-order bookkeeping |
| `ExtensionsProperties.UninstallPreservesInv` | src/stores/extensions.ts:163-175 | uninstall keeps the invariant, because the active id is handed to a remaining key or cleared |
| `ExtensionsProperties.SetActivePreservesInv` | src/stores/extensions.ts:177-184 | setActive keeps the invariant |
| `ExtensionsProperties.ManifestLoadPreservesInv` | src/stores/extensions.ts:50-97 | loadManifest, which only installs and then activates, keeps the invariant |
| `ExtensionsProperties.ManifestLoadFetchFails` | src/stores/extensions.ts:58-96 | when fetching or parsing fails, the manifest becomes the single built-in "animesama" entry and the failure is recorded; nothing is installed or activated |
| `ExtensionsProperties.ManifestLoadWithoutAutoInstall` | src/stores/extensions.ts:64-75 | a fetched manifest that is empty, or arrives while an extension is active, replaces the manifest and changes nothing else |
| `ExtensionsProperties.FindFirstEntry` | src/stores/extensions.ts:73 | looking up the id of the manifest's first entry finds that entry |
| `ExtensionsProperties.ManifestLoadAutoInstalls` | src/stores/extensions.ts:64-75 | with nothing active, a fetched non-empty manifest gets its first entry installed and made active, with no error; this holds when the bundle loads or the entry is already installed |
| `ExtensionsProperties.ManifestLoadAutoInstallFails` | src/stores/extensions.ts:72-93 | a failed auto-install makes the whole load fail over to the built-in manifest with the error recorded; installed map and active id stay as before |
| `ExtensionsProperties.ManifestLoadKeepsInstalled` | src/stores/extensions.ts:64-93 | loading a manifest never removes or replaces an installed extension |
| `ExtensionsProperties.ActiveExtensionUnderInv` | src/stores/extensions.ts:43-47 | under the invariant, the getter finds nothing exactly when the active id is null or empty |
| `ExtensionsProperties.RoutersRejectWithoutActive` | src/stores/extensions.ts:187-247 | with no active id, all six routers fail with the same error and produce no call |
| `AnimeSama.FilterByTitle` | public/extensions/bundles/animesama.bundle.js:17-40 | the filter's result is a subsequence of its input; each matching element appears as often as in the input, and non-matching ones not at all |
| `AnimeSama.FilterByEmptyQuery` | public/extensions/bundles/animesama.bundle.js:40 | the empty query keeps every item |
| `AnimeSama.EpisodeNumberFromId` | public/extensions/bundles/animesama.bundle.js:119 | the episode number can be read back from the digits after `<animeId>-episode-` |
| `AnimeSama.EpisodeIdsDistinct` | public/extensions/bundles/animesama.bundle.js:117-121 | two different episode numbers give two different episode ids |
| `AnimeSama.AnimeSamaExtension.constructor` | public/extensions/bundles/animesama.bundle.js:3-11 | id "animesama", name "Anime-Sama", version "1.0.0", base URL "https://anime-sama.fr", language "fr" |
| `AnimeSama.AnimeSamaExtension.Search` | public/extensions/bundles/animesama.bundle.js:13-44 | the result is a subsequence of the two fixtures and holds exactly those whose lower-cased title includes the lower-cased query |
| `AnimeSama.AnimeSamaExtension.GetPopular` | public/extensions/bundles/animesama.bundle.js:46-74 | two entries, "demon-slayer-1" then "attack-on-titan-1", for every page |
| `AnimeSama.AnimeSamaExtension.GetLatest` | public/extensions/bundles/animesama.bundle.js:76-93 | the single entry "chainsaw-man-1", for every page |
| `AnimeSama.AnimeSamaExtension.GetAnimeDetails` | public/extensions/bundles/animesama.bundle.js:95-110 | the record's id is the requested id, and its URL is the catalogue prefix followed by that id |
| `AnimeSama.AnimeSamaExtension.GetEpisodeList` | public/extensions/bundles/animesama.bundle.js:112-132 | exactly 12 episodes; the one at index k has number k+1, season 1, title "Episode k+1", id `<animeId>-episode-<k+1>`, the requested anime id, and the two player URLs of episode k+1 (`AnimeSama.PlayerUrls`, the `JSON.stringify` of lines 122-125) |
| `AnimeSama.AnimeSamaExtension.GetVideoSources` | public/extensions/bundles/animesama.bundle.js:134-152 | two 720p sources, "vostfr" then "vf", each sent with the extension's base URL as `Referer` |
| `AnimeSama.LongTitleMatchesShippuden` | public/extensions/bundles/animesama.bundle.js:29-40 | "Naruto Shippuden" matches the query "Shippuden" regardless of case |
| `AnimeSama.ShortTitleMissesShippuden` | public/extensions/bundles/animesama.bundle.js:18-40 | "Naruto" does not match the query "Shippuden" |
| `AnimeSama.SearchShippuden` | public/extensions/bundles/animesama.bundle.js:13-44 | searching "Shippuden", with any filters, returns the "Naruto Shippuden" fixture alone |
| `BundleInstall.BundlePassesLoaderChecks` | src/stores/extensions.ts:131-144 | once the bundle imports, its class is found under the default export and its instance passes the method check |
| `BundleInstall.BundleInstalls` | src/stores/extensions.ts:99-161 | installing an entry served by the reference bundle resolves and stores that bundle's instance under the id |
| `BundleInstall.FallbackEntryInstallsBundle` | src/stores/extensions.ts:76-93 | after a failed manifest load nothing new is installed; the built-in entry's relative address goes to the resolver, and an explicit install of "animesama" succeeds when that address serves the bundle |
| `BundleInstall.NewBundleInstance` | public/extensions/bundles/animesama.bundle.js:3-11 | a new instance's id, name, version, language and base URL equal those of the store's fallback descriptor |

## Left out

- Fetching, JSON parsing, `window.location.origin`, `new URL(...)` and dynamic `import()` are oracle functions of the `Host`. A manifest document that parses as something other than a list of descriptors (an object, `null`, entries without `id`) is not modelled; the parse oracle either yields descriptors or fails.
- `Strings.ToLower`: lowers only the ASCII letters A-Z, whereas JavaScript's `toLowerCase` applies full Unicode case mapping.
- Keys of the installed-extensions object are enumerated in insertion order. JavaScript enumerates array-index-like keys such as "12" first, in numeric order; that ordering is not modelled.
- Lookups by id treat only installed keys as present. Inherited object properties such as `constructor` would also look installed to the source's truthiness check; this is not modelled.
- The text of the error messages is not modelled. `error` holds a structured `ErrorReport` naming the extension and the cause.
- What happens inside the instance once a router has forwarded a call is not modelled. This includes an instance lacking `getLatest` and the like, and exceptions the instance raises. A router returns the `Call` it makes.
- `async`/`await`, `console` logging, Vue `ref`/`computed` reactivity, and the bundle's `delay` timers are not modelled. Each action is a single atomic step, and no interleaving of concurrent actions is modelled.
- The `availableExtensions` and `installedExtensions` getters are not modelled. They expose the manifest and the installed values unchanged.
- The fixtures' floating-point ratings are not modelled. The bundle's `search` accepts `filters` of any type and ignores them, as the source does; the store passes them on as an opaque `Filters` value.
- Application bootstrap (`src/main.ts`) is not part of this model; it only calls `loadManifest()` once.
