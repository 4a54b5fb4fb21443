# modena-v2 hosting helpers, modelled in Dafny

The host process mounts several independently built Express applications
under `/<name>` inside one parent application. Its helper file
`src/lib/misc.ts` does four things. This project models three of them;
starting the listener is left out:

- **setDefaultApp** walks the shared array of settings records once. It sets
  each record's `isDefaultApp` flag to whether the record's name is the
  requested one. It folds whether any record matched, and logs an error when
  none did. It is modelled as imperative methods over an
  `array<AppSettings>` of objects (`default_app.dfy`). `MarkDefaultFlags` is
  the `reduce` pass, a loop that writes each flag and folds the match.
  `SetDefaultApp` adds the error report. Both may write only the
  `isDefaultApp` field. `SetDefaultApp` is proved against the value-level
  specification `MarkDefault` / `HasApp`, and that specification's properties
  are proved as lemmas.
- **exposeHostedApps** loads each entry, mounts the successful ones at
  `/<name>`, and logs how many were exposed (`hosted_apps.dfy`). Loading is
  replaced by a given sequence of `Outcome`s: `Immediate`, `DeferredOk`,
  `DeferredErr` or `Threw`. The per-entry values 1/0, their summing `reduce`
  and the mounted paths are pure functions. Lemmas relate them.
- **getRenderIsolator** is modelled as a pure decision (`render_isolation.dfy`).
  With a `__modenaApp` annotation, the render call is redirected to
  `<appsPath>/<name>/views/<viewName>` with the same options. Without one, the
  render call is unchanged. In both cases `next` is called once. A lemma proves
  that two different applications never resolve a view to the same path when
  the application names and view names are plain path segments (not empty, no
  `/`, not `.` or `..`). The source does not keep applications apart for
  other view names.

The code sets the default flag on every record that carries the requested
name, so several records can become defaults at once. `DefaultsCountNamed`
states this: the number of defaults equals the number of records with that
name. `UniqueDefault` proves that at most one default remains when names are
distinct.

## Model

| member | source | states |
|---|---|---|
| `DefaultApp.SetDefaultApp` | src/lib/misc.ts:71-80 | after the pass, every entry's flag equals `entry.name == defaultAppName`; the record values equal `MarkDefault` of the old values, so names, files, environment, array length and order are unchanged; only `isDefaultApp` may be written; `someDefault` holds iff some entry carried the name and equals the `AnyDefault` fold over the records before; the error line is produced iff it does not |
| `DefaultApp.MarkDefaultFlags` | src/lib/misc.ts:72-75 | after the single pass, every entry's flag equals `entry.name == target`, duplicates included; the folded result holds iff some entry has that name; no field other than `isDefaultApp` is written |
| `DefaultApp.MarkDefault` | src/lib/misc.ts:72-75 | same length; each result flag is `name == target` whatever it was before; name, expressAppFile and envVariables of each entry kept |
| `DefaultApp.AnyDefault` | src/lib/misc.ts:72-75 | the left fold that ors each new flag into an accumulator starting at `false` is true exactly when some entry's name is the target |
| `DefaultAppProperties.MarkDefaultIdempotent` | src/lib/misc.ts:73 | applying the update twice with the same name gives what one application gives |
| `DefaultAppProperties.MarkDefaultIgnoresOldFlags` | src/lib/misc.ts:73 | the result does not depend on earlier flags: stale flags on non-matching entries are cleared, also when nothing matches |
| `DefaultAppProperties.DefaultsCountNamed` | src/lib/misc.ts:72-75 | the number of defaults afterwards equals the number of entries carrying the name (duplicates all become defaults; none when the name is missing) |
| `DefaultAppProperties.DistinctNamesCountNamed` | src/lib/misc.ts:72-75 | with distinct names, the number of entries carrying the name is 1 if it is configured and 0 otherwise |
| `DefaultAppProperties.UniqueDefault` | src/lib/misc.ts:72-75 | with distinct names, exactly one default remains when the name is configured and none otherwise |
| `DefaultAppProperties.SetDefaultAppTwice` | src/lib/misc.ts:71-80 | two calls of the method with the same name leave the records as one call does |
| `HostedApps.Contribution` | src/lib/misc.ts:8-30 | an entry's settled value is at most 1, and is 1 exactly for an immediate handler or a resolved promise |
| `HostedApps.Results` | src/lib/misc.ts:6-31 | one settled value per entry, in order, each the entry's own contribution, so a throwing or rejecting entry does not affect the later ones |
| `HostedApps.Mounted` | src/lib/misc.ts:11-21 | a path is mounted iff it is `/<name>` of some successful entry; never more paths than entries |
| `HostedApps.ExposeHostedApps` | src/lib/misc.ts:5-35 | results match the entries one to one; the mounted paths are exactly those of the successful entries |
| `HostedAppsProperties.SucceededPlusFailed` | src/lib/misc.ts:7-30 | every entry ends in exactly one of success or failure |
| `HostedAppsProperties.SumAppend` | src/lib/misc.ts:33 | the summing reduce splits over concatenation |
| `HostedAppsProperties.SumResultsCountsSucceeded` | src/lib/misc.ts:32-33 | the sum of the settled values is the number of successful entries |
| `HostedAppsProperties.MountedCountsSucceeded` | src/lib/misc.ts:11-21 | one path is mounted per successful entry |
| `HostedAppsProperties.ExposedTotal` | src/lib/misc.ts:5-35 | the logged total is the number of immediate or resolved entries, equals the number of mounted paths, is at most the number of entries, and with the failures makes up all entries (N apps, K failures: N-K) |
| `HostedAppsProperties.CountSucceededByMultiset` | src/lib/misc.ts:6-33 | the success count is the number of `Immediate` plus `DeferredOk` outcomes, whatever their order |
| `HostedAppsProperties.TotalIgnoresOrder` | src/lib/misc.ts:6-33 | the total does not depend on the order in which entries settle |
| `HostedAppsProperties.CountSucceededAppend` | src/lib/misc.ts:7-30 | successes over a concatenation add up |
| `HostedAppsProperties.TotalAppend` | src/lib/misc.ts:7-33 | a failing prefix does not stop later entries: the total over two groups of entries is the sum of their totals |
| `HostedAppsProperties.AllImmediateTotal` | src/lib/misc.ts:11-14 | when every loader returns a handler at once, the total is the number of entries |
| `RenderIsolation.RenderIsolator` | src/lib/misc.ts:38-51 | `next` is called exactly once; the render operation is replaced iff the request carries an application annotation |
| `RenderIsolation.ViewPathForm` | src/lib/misc.ts:46 | the joined view path is `<appsPath>/<name>/views/<viewName>` |
| `RenderIsolation.RenderIsolatorDelegates` | src/lib/misc.ts:43-50 | the underlying render receives `<appsPath>/<name>/views/<viewName>` with the same options when annotated, and the caller's view name and options unchanged otherwise |
| `RenderIsolation.IsolationSeparatesApps` | src/lib/misc.ts:45-47 | two applications with different names never have views resolved to the same path, when names and view names are plain segments (non-empty, no `/`, not `.` or `..`) |
| `RenderIsolationExamples.FooIndexUnderApps` | src/lib/misc.ts:43-48 | app `foo` rendering `index` under `/apps` reaches `/apps/foo/views/index` |

## Left out

- Dynamic module loading (`require` of `expressAppFile` and calling the loaded factory with `envVariables`) is foreign code. Each entry's loader result is a given `Outcome`.
- The framework's `mainApp.use` mount call is recorded only as the mounted path `/<name>`. What Express does with the handler is not modelled.
- Promise concurrency, `Promise.all` and the `instanceof Promise` test are not modelled. Outcomes are listed in entry order. `HostedApps.Mounted`: deferred entries are mounted when their promise resolves, in an order the model does not capture. `TotalIgnoresOrder` shows that the total does not depend on that order.
- A loader whose promise never settles is not modelled. In the source it delays only the final summary.
- Console output is not modelled as text, except for the missing-default error line, which `SetDefaultApp` returns. The success and failure lines of `exposeHostedApps` appear as the per-entry results and the total. The error objects that the source prints are not modelled.
- `RenderIsolation.Join`: Node's `path.join` normalisation is not modelled. It resolves `.` and `..`, collapses repeated separators, drops zero-length segments and turns an empty result into `.`. Joining here is plain concatenation with `/`. So with an empty `appsPath` the source renders the relative path `foo/views/index`, while `ViewPathForm` and `RenderIsolatorDelegates` give `/foo/views/index`.
- `RenderIsolation.IsolationSeparatesApps` covers only plain-segment names and view names. The source does not keep applications apart otherwise: under `/apps`, app `foo` rendering `../../bar/views/index` reaches `/apps/bar/views/index`, the file app `bar` gets for `index`.
- `HostedApps.Outcome`: the mount call itself can throw, for example on a handler that is not a function. The source then counts the entry 0 and mounts nothing. Such an entry is to be given as `Threw` (immediate handler) or `DeferredErr` (resolved handler); the outcomes do not distinguish it from a failing loader.
- Express's `Response.render` internals and the monkey-patching of `res.render` are not modelled. The render operation is represented by the `Render` value left on the response.
- The replaced render passes only the view name and options to the original. A third `callback` argument given by the caller is dropped in the source, and this is not modelled.
- `RenderIsolation.RenderIsolator`: the source reads the annotation's name when the view is rendered, not when the middleware runs. The model takes the name at middleware time, so it assumes the annotation is not changed in between.
- `launchServer` (src/lib/misc.ts:53-69) is not modelled: neither its option defaulting (port 80, HTTPS off, overridden by the caller) nor the settlement of its completion signal by the network listen callback.
- `types.ts`, which declares `IAppSettings` and `IModenaRequest`, is not part of this model. The fields used here are those the helper file reads and writes.
