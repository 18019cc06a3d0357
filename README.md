# mongodb-visualizer, modelled in Dafny

This project models the mongodb-visualizer package. The package mounts on an
Express application. It introspects the Mongoose models registered there,
serves their schemas as JSON, and ships a single-page app for browsing them.
The Dafny model covers these parts of the package:

- **Server side:**
  - the schema projector `parseSchema`, which turns each schema path into a flat field record;
  - the registry scanner `scanModels`;
  - the status and envelope logic of the two JSON endpoints `GET /api/models` and `GET /api/models/:modelName`, plus the title default.
- **Browser app:**
  - `getBasename`, which recovers the mount point from the page path and stores it;
  - the request wrapper `Request`: url prefixing, header merge, bearer token, error classification;
  - the two service calls and their query-string construction;
  - the helpers of the three views: model search, pagination, shown range, button states, type badge colours, flag counts, the home page tiles and the type preview.

The model follows the form of each source file:

- `parseSchema` pushes onto an array and deletes keys in place. It is a method with loops (`ParseSchema.ParseSchema`, `ParseSchema.CleanUp`), proved equal to the specification function `ProjectSchema`.
- `scanModels` is a pure `map`, so it is a function.
- The endpoint handlers are methods that return a status and a JSON envelope.
- `getBasename` keeps its `for` loop with `break`.
- `Request` rewrites its options object in place, so that object is a class (`ApiConfig.HttpOptions`).
- The view helpers are pure functions over explicit state (a `Pagination` record, a search term, the loaded model list).

Some JavaScript semantics are written out explicitly:

- `undefined` is `None`.
- Truthiness is `Js.Truthy`.
- `||`, `?.` and object spread are spelled out where the source uses them.
- A template literal of `null` reads `"null"`, and string concatenation with `undefined` reads `"undefined"`.

A few library pieces are parameters of the model instead:

- the Mongoose registry is a list of names plus a lookup function;
- the HTTP client is a function from the prepared request to its settlement;
- storage and the build environment are a `ClientEnv` value;
- form encoding and `JSON.stringify` are functions.

Only `undefined` properties are deleted from a field record, so `required: false` is always kept. Likewise, each of the nine options copied verbatim (`default`, `ref`, `min`, `max`, `minlength`, `maxlength`, `lowercase`, `uppercase`, `trim`) stays in the record when it holds `null`, `0`, `false` or `""` (`ParseSchema.FalsyOptionsKept`). The other keys behave differently:
- `match` is deleted when its option is `null`, because `?.` stops there.
- `unique` and `index` are coerced to booleans, and `isArray` records whether the `type` option is an array.
- `enum` falls back to `[]` when its value is falsy.

## Model

| member | source | states |
|---|---|---|
| ParseSchema.TypeName | src/core/parseSchema.ts:9 | the type tag is the schema type's `instance` when that is a non-empty string, else `Mixed` |
| ParseSchema.MatchString | src/core/parseSchema.ts:20 | `match` is undefined exactly when the option is missing or `null`, otherwise it is the option's string form |
| ParseSchema.FieldInfo | src/core/parseSchema.ts:7-25 | the record literal has every one of the 17 keys, each holding the value its line gives (possibly undefined) |
| ParseSchema.DropUndefined | src/core/parseSchema.ts:27-32 | after clean-up no key holds undefined; a key survives exactly when its value was defined, with that value unchanged |
| ParseSchema.FieldRecord | src/core/parseSchema.ts:7-32 | the cleaned record of one path holds no undefined value |
| ParseSchema.RecordAt | src/core/parseSchema.ts:7-32 | each key is in the cleaned record exactly when the literal gives it a defined value, and then holds that value |
| ParseSchema.AlwaysPresent | src/core/parseSchema.ts:8-14 | `name` is the path, `type` the instance tag or `Mixed`, and `enum` is the enum values when truthy, else `[]`; all three are always present |
| ParseSchema.FlagsCoerced | src/core/parseSchema.ts:10-12 | `required`, `unique` and `index` are always present and are the booleans `!!` gives |
| ParseSchema.IsArrayFlag | src/core/parseSchema.ts:24 | `isArray` is always present and true exactly when the `type` option is an array |
| ParseSchema.CopiedVerbatim | src/core/parseSchema.ts:13-23 | each optional constraint (default, ref, min, max, minlength, maxlength, lowercase, uppercase, trim) is present exactly when its option is defined, holding it unchanged |
| ParseSchema.MatchStringified | src/core/parseSchema.ts:20 | `match` is present exactly when the option is defined and not `null`, holding its string form |
| ParseSchema.FalsyOptionsKept | src/core/parseSchema.ts:28-32 | a defined but falsy option (`false`, `0`, `null`, `""`) is not deleted |
| ParseSchema.ProjectSchema | src/core/parseSchema.ts:3-38 | one record per visited path, same count and same order, each the cleaned record of its path |
| ParseSchema.CleanUp | src/core/parseSchema.ts:28-32 | walking the record's keys and deleting those holding undefined yields exactly the undefined-free record |
| ParseSchema.ParseSchema | src/core/parseSchema.ts:3-38 | the loop over paths returns exactly the projection of the schema |
| ScanModels.ScanNames | src/core/scanModels.ts:4-11 | succeeds exactly when every name resolves; then one entry per name in order, with that name and its model's collection and schema; otherwise the error of the first name that fails |
| ScanModels.Scan | src/core/scanModels.ts:3-12 | same length and order as the registry's names; each entry's name, collection and schema come from the model registered under that name; the registry is only read |
| Middleware.Title | src/express/middleware.ts:20 | the title is the supplied one when non-empty, else `MongoDB Model Visualizer` |
| Middleware.ErrorMessage | src/express/middleware.ts:39 | an `Error` yields its message, anything else `An error occurred` |
| Middleware.ServerError | src/express/middleware.ts:36-41 | the catch block answers 500 with `success: false` and the error message, and nothing else |
| Middleware.Summaries | src/express/middleware.ts:25-29 | one summary per scanned model, in order, with name, collection and `parseSchema` of its schema |
| Middleware.ListModels | src/express/middleware.ts:20-42 | a failed scan gives the 500 envelope; a successful one gives 200 with `success: true`, the summaries of every model and the title resolved from the router's option |
| Middleware.GetModel | src/express/middleware.ts:45-71 | a missing model gives exactly 404 `Model not found`; a throwing lookup gives 500; a found model gives 200 with the requested name, its collection and fields, and no title |
| Middleware.ListAgreesWithSingle | src/express/middleware.ts:57-64 | the list entry of a registered model and the single-model payload for its name carry the same collection and fields |
| Strings.FindFirst | src/ui/src/main.tsx:17 | the index of the first occurrence of the pattern, or none when it occurs nowhere |
| Strings.SplitHead | src/ui/src/main.tsx:18 | `split(sep)[0]` is the prefix before the first occurrence of the separator, contains no occurrence of it, and is the whole string when there is none |
| Strings.ToLower | src/ui/src/views/model/ModelDetail.tsx:85 | lowercasing keeps the length and lowers each ASCII capital |
| Strings.EmptyTermMatches | src/ui/src/views/model/ModelDetail.tsx:85 | the empty search term matches every string |
| Basename.CutAtFirstRoute | src/ui/src/main.tsx:13-21 | the route walk yields a prefix of the path, and the whole path when it contains no route |
| Basename.GetBasename | src/ui/src/main.tsx:9-32 | the loop with `break` stores the cleaned path and returns it, with `/` returned as `''` |
| Basename.CutBeforeFirstRoute | src/ui/src/main.tsx:16-21 | a path containing `/model/` is cut just before its first occurrence and what is left has none; any other path is kept |
| Basename.AtMostOneSlashRemoved | src/ui/src/main.tsx:24-26 | at most one trailing slash is removed, exactly when the cut path ends in `/` and is not `/` |
| Basename.BasenameIsPrefix | src/ui/src/main.tsx:14-31 | the stored path and the returned basename are prefixes of the page path and contain no `/model/` |
| Basename.StoredDiffersOnlyAtRoot | src/ui/src/main.tsx:28-31 | storage and router disagree only when the cleaned path is `/` (stored `/`, returned `''`) |
| Basename.MountRecoveredAtHome | src/ui/src/main.tsx:9-31 | on the home route `m/` the basename is the mount point `m` |
| Basename.MountRecoveredOnDetail | src/ui/src/main.tsx:13-31 | on a detail route `m/model/name` the basename is the mount point `m` |
| Basename.StoredBasename | src/ui/src/main.tsx:28 | the corrected stored value is the router's basename, never `/`, and a prefix of the path |
| ApiConfig.MergedHeaders | src/ui/src/config/apiConfig.ts:21-30 | Content-Type defaults to multipart exactly when `files`, else JSON; Accept defaults to JSON; caller headers override both; a secure request's Authorization is `Bearer <token>` (`Bearer null` without a token) over any caller value; otherwise Authorization is the caller's or absent; other headers are the caller's |
| ApiConfig.Prepare | src/ui/src/config/apiConfig.ts:14-30 | an exact url is kept and any other is prefixed; the headers are merged; method, body and flags are untouched |
| ApiConfig.HandleRequestErrors | src/ui/src/config/apiConfig.ts:32-46 | redirect to login exactly for 401 with the invalid-token message; the size toast exactly for 413; no reaction otherwise |
| ApiConfig.RejectionReason | src/ui/src/config/apiConfig.ts:50-53 | the rejection carries the response exactly when the error had one |
| ApiConfig.Request | src/ui/src/config/apiConfig.ts:4-54 | the options object is left in its prepared state and the outcome is the settlement of sending it |
| ApiConfig.PrefixedUrlShape | src/ui/src/config/apiConfig.ts:15-20 | a prefixed url ends with `/` plus the caller's url and starts with the stored basename, or with `/` when none is stored |
| ApiConfig.RootMountDoubleSlash | src/ui/src/config/apiConfig.ts:16-18 | at a root mount the stored basename is `/` and every prefixed url starts with `//` |
| ApiConfig.CorrectedMountUrl | src/ui/src/config/apiConfig.ts:16-18 | with the corrected stored basename the API url sits under the router's mount point, with one leading slash at a root mount |
| ModelsService.QueryOf | src/ui/src/services/models.service.ts:14-17 | limit appears exactly when non-zero, skip exactly when defined (even `0`), sort exactly when non-empty, each with its value, in the order limit, skip, sort |
| ModelsService.SerializeEmptyIff | src/ui/src/services/models.service.ts:19 | the query string is empty exactly when no parameter was appended |
| ModelsService.ModelDataPathShape | src/ui/src/services/models.service.ts:19-20 | with no parameters the path is exactly `models/<name>/data`; otherwise that, `?` and the query string |
| ModelsService.GetAllModels | src/ui/src/services/models.service.ts:3-7 | sends a secure GET of `models` through the wrapper |
| ModelsService.GetModelData | src/ui/src/services/models.service.ts:9-27 | the conditional appends and url construction send a secure GET of the data path |
| ModelsService.SecureGetPrepared | src/ui/src/services/models.service.ts:22-26 | both calls go out as GET under the API prefix with JSON headers and the bearer token |
| ModelTypes.AsUiField | src/ui/src/types/models.types.ts:4-16 | a record reads as a view field exactly when name and type are strings; its flags are read by truthiness |
| ModelTypes.RecordAsUiField | src/ui/src/types/models.types.ts:4-16 | every projected record reads back as its path, type tag and coerced flags |
| ModelDetailView.NextSkip | src/ui/src/views/model/ModelDetail.tsx:88-91 | next page moves the skip forward by exactly the page size |
| ModelDetailView.PrevSkip | src/ui/src/views/model/ModelDetail.tsx:93-96 | previous page is one page back clamped at zero: never negative and never past the current skip |
| ModelDetailView.NextThenPrev | src/ui/src/views/model/ModelDetail.tsx:88-96 | next then previous returns to the same skip |
| ModelDetailView.PrevMovesBack | src/ui/src/views/model/ModelDetail.tsx:93-96 | off the first page, previous strictly decreases the skip |
| ModelDetailView.FetchParams | src/ui/src/views/model/ModelDetail.tsx:51-60 | no fetch without a model name; otherwise the page size, the skip and newest-first sort |
| ModelDetailView.FetchQuery | src/ui/src/views/model/ModelDetail.tsx:56-60 | a fetch's query is limit (unless `0`), skip and `-_id`, in that order |
| ModelDetailView.RangeEnd | src/ui/src/views/model/ModelDetail.tsx:431 | the last shown record is the end of the page or the total, never above either |
| ModelDetailView.RangeNonEmpty | src/ui/src/views/model/ModelDetail.tsx:430-432 | a page that starts inside the collection shows a non-empty range |
| ModelDetailView.ButtonsInitially | src/ui/src/views/model/ModelDetail.tsx:26-31 | in the initial pagination state both page buttons are disabled |
| ModelDetailView.PrevEnabledIffMoves | src/ui/src/views/model/ModelDetail.tsx:437 | when idle, previous is enabled exactly when it would move |
| ModelDetailView.FilterFields | src/ui/src/views/model/ModelDetail.tsx:84-86 | the search keeps, in order, exactly the fields whose name contains the term ignoring case |
| ModelDetailView.EmptySearchKeepsFields | src/ui/src/views/model/ModelDetail.tsx:84-86 | the empty search keeps every field |
| ModelDetailView.TypeColor | src/ui/src/views/model/ModelDetail.tsx:107-117 | each of the six listed types gets its variant and every other name `outline` |
| ModelDetailView.TypeColorAsWritten | src/ui/src/views/model/ModelDetail.tsx:116 | the object-literal lookup agrees on the listed types and on ordinary names |
| ModelDetailView.InheritedNameEscapesTable | src/ui/src/views/model/ModelDetail.tsx:116 | the type name `toString` yields an inherited member rather than `outline` |
| ModelDetailView.TypeColorAgrees | src/ui/src/views/model/ModelDetail.tsx:107-117 | apart from inherited member names the lookup as written and the corrected one agree |
| ModelDetailView.FormatValue | src/ui/src/views/model/ModelDetail.tsx:98-105 | `null` and `undefined` show as `-`; objects and arrays go through the JSON printer; strings show as themselves |
| ModelDetailView.RequiredCount | src/ui/src/views/model/ModelDetail.tsx:192 | the required count never exceeds the field count |
| ModelDetailView.UniqueCount | src/ui/src/views/model/ModelDetail.tsx:205 | the unique count never exceeds the field count |
| ModelDetailView.RequiredCountSplits | src/ui/src/views/model/ModelDetail.tsx:192 | required and optional fields add up to all fields; all are counted exactly when every field is required |
| ModelDetailView.UniqueCountSplits | src/ui/src/views/model/ModelDetail.tsx:205 | unique and non-unique fields add up to all fields |
| ModelDetailView.CountsAppend | src/ui/src/views/model/ModelDetail.tsx:192-205 | both counts add up over concatenated field lists |
| HomeView.FilterModels | src/ui/src/views/home/home.tsx:36-40 | the search keeps, in order, exactly the models whose name or collection contains the term ignoring case |
| HomeView.EmptySearchKeepsModels | src/ui/src/views/home/home.tsx:36-40 | the empty search keeps every model |
| HomeView.TotalFields | src/ui/src/views/home/home.tsx:135 | the total of no models is 0 |
| HomeView.TotalFieldsAppend | src/ui/src/views/home/home.tsx:135 | the total adds up over concatenated model lists |
| HomeView.TotalCountsEachModel | src/ui/src/views/home/home.tsx:135 | every model's field count is part of the total |
| HomeView.CollectionCount | src/ui/src/views/home/home.tsx:148 | the number of distinct collections is at most the number of models and at least one when there is a model |
| HomeView.TypePreview | src/ui/src/views/home/home.tsx:227-230 | at most four distinct types, the first ones in first-appearance order, and all of them when there are fewer than four |
| HomeView.Overflow | src/ui/src/views/home/home.tsx:236-238 | the `+N` badge shows exactly when there are more than four distinct types, with N the number left out |
| HomeView.PreviewAndOverflowCover | src/ui/src/views/home/home.tsx:227-238 | preview and badge together account for every distinct type |
| HomeView.PreviewStable | src/ui/src/views/home/home.tsx:227-230 | adding fields never reorders a preview that was not full |
| HomeView.CountLabel | src/ui/src/views/home/home.tsx:109 | the label reads `Model` exactly for one model, else `Models` |
| HomeView.EmptyMessage | src/ui/src/views/home/home.tsx:254-256 | a non-empty search names the term; the empty search invites defining models |
| RoutedDetailView.FindModel | src/ui/src/views/ModelDetail.tsx:30-33 | the first model whose name equals the route parameter, or none exactly when no model has that name (and always without a parameter) |
| RoutedDetailView.Render | src/ui/src/views/ModelDetail.tsx:46-137 | not found exactly when the lookup fails; otherwise the searched fields, their badge colours (the corrected lookup of the second and third Findings rows) and the total, required and unique counts of the model found |
| RoutedDetailView.NotFoundExactly | src/ui/src/views/ModelDetail.tsx:73-76 | without a parameter the page is not found; with a listed name it shows a model of that name |
| RoutedDetailView.EmptySearchShowsAll | src/ui/src/views/ModelDetail.tsx:46-48 | the empty search shows every field of the model |

## Left out

- JSX rendering, styling and icons of the three views, and `sidebar.tsx`, `mainLayout.tsx`, `App.tsx`, `views/home.tsx`: they hold no behaviour beyond layout and routing.
- React state, effects and the loading flags (`useState`, `useEffect`, `useCallback`): the helpers are functions of an explicit state instead, and `loading` is a parameter where a button reads it.
- The asynchronous fetches of the views and the handling of their responses: the service calls end at the request wrapper's settlement.
- The HTTP client itself, `localStorage`, `window.location`, the toast and `import.meta.env`: the client is a function parameter and the stored and configured values are the `ClientEnv` record. The redirect and the toast are the `ErrorAction` they trigger. The console logging is not modelled.
- ApiConfig.RejectionReason: a rejected value that is not a client error is taken to carry no `response`.
- Mongoose internals (`eachPath`, `modelNames`, `model()`): the schema is its visit-ordered list of paths and the registry is a name list with a lookup that finds a model, finds nothing or throws. Which of the last two Mongoose does for an unknown name is not modelled.
- ScanModels.Scan: reading `.collection` of a missing model is modelled as an `Error` with a fixed message. The JavaScript engine's actual wording is not modelled.
- Express router setup, `express.static`, `sendFile` and the UI bundle path: static-file serving.
- The paginated data endpoint the browser app calls: its server handler is not part of this model, so the pagination state is whatever the server returns.
- `dist/` bundles: generated output.
- Numbers are integers: floating-point limits, skips and totals, `NaN` and `Infinity` are not modelled.
- Strings.ToLower: only ASCII letters are lowered; Unicode case mapping is not modelled.
- Form encoding of query strings and `JSON.stringify` are function parameters. `Date` values are not among the modelled values, so `toLocaleString` is left out.
- ModelDetailView.FormatValue: the states column covers the null case, objects and strings; numbers and booleans go through the model's `String` conversion.
- Record key order: a field record is a map, so the order of its JSON keys is not modelled (only that `fields` keeps path order).
- Header names are compared exactly as JavaScript object keys are; HTTP's case-insensitive header matching is the client's business.
- ModelTypes.AsUiField: the optional view properties (`ref`, `index`, `default`, `enum`, `isArray`, `min`, `max`) are not read by the modelled view helpers and are left out of the view field.
- ParseSchema.CopiedVerbatim: option values are JSON-like (null, booleans, integers, strings, arrays, regular expressions, plain objects). Functions such as `default: Date.now`, `Date` objects, ObjectIds and BigInts cannot be represented.
- Middleware.ListModels: the envelope is the value handed to `res.json`, not the bytes sent. The model leaves out JSON serialisation, which drops function-valued keys and throws on BigInt or circular values (and that throw becomes a 500). The same holds for Middleware.GetModel.

## Findings

| source | as written | input that shows it | evidently intended | confidence | as-written member | corrected member |
|---|---|---|---|---|---|---|
| src/ui/src/main.tsx:28 | `getBasename` stores the cleaned path before mapping `/` to `''`, and the request wrapper prefixes every url with that stored value and a `/` | an app mounted at the root, page path `/`: storage holds `/`, so a request for `models` goes to `//<api url>/models`, a protocol-relative url that names the API url as a host | store the basename the router uses, so a root mount prefixes with `''` and the request goes to `/<api url>/models` | medium, not executed | ApiConfig.RootMountDoubleSlash | Basename.StoredBasename |
| src/ui/src/views/model/ModelDetail.tsx:116 | `colorMap[type] \|\| "outline"` looks the type name up on a plain object, so the name of a member inherited from `Object.prototype` finds an inherited member | a field whose type tag is `toString` (or `constructor`, `valueOf`, `__proto__`, ...) gets that inherited member as its badge variant instead of `outline` | only the table's own six keys have a colour; every other name is `outline` | low, not executed | ModelDetailView.TypeColorAsWritten | ModelDetailView.TypeColor |
| src/ui/src/views/ModelDetail.tsx:59 | the routed model page repeats the same `colorMap[type] \|\| "outline"` lookup on a plain object | a field whose type tag is `toString` gets the inherited member instead of `outline` | only the table's own six keys have a colour; `RoutedDetailView.Render` computes its colours with the corrected lookup | low, not executed | ModelDetailView.TypeColorAsWritten | ModelDetailView.TypeColor |
