# Controller loading, dispatch and the error-handler chain

This project models the core of a small decorator-driven web framework
written in TypeScript on top of Express:

- **Decorators** (`Controller`, the argument decorators, `RequestMapping` and
  its shorthands, `Middleware`, `Parameter`) write Reflect metadata. Here the
  metadata store is the class `Metadata.MetadataStore`, with one map per
  metadata key, and each decorator is a method on it.
- **`init`** walks the `.js` files of the controllers directory in listing
  order. It skips a file without a default export, without the controller
  mark or without routes. For the rest it fills the manager-wide `parameters`
  map of path-variable transforms, then registers one Express route per mapped
  method whose lower-cased verb the server has; a method with any other verb
  gets no route, and a method whose metadata makes registration raise stops
  `init`. Each route has the lower-cased verb, the normalised path
  `prefix + route`, the method's middleware and a dispatch closure.
  `Loader.ControllerManager.Init` runs this loop against the pure
  specification `Loader.ScanFiles`. The Express application is `Loader.Server`,
  the routes it has received and the verbs it knows.
- **The dispatch closure** runs in three steps:
  - it checks the number of variable bindings against the path variables;
  - it runs the registered transforms over a snapshot of the path variables;
  - it builds the handler's argument list from the reversed binding list.

  `makeBody` builds request-body objects. `Dispatch.Dispatch` is the
  imperative form. `Dispatch.DispatchSpec` is its specification.
- **The error chain** (`src/Error.ts`) keeps a JavaScript `Map` of error
  handlers keyed by file name without its extension. `load`, `unload`,
  `loadAll` and `iterate` are methods of `ErrorChain.ErrorManager`. The
  insertion-ordered `Map` is modelled as a key order plus a map.

`require` is an oracle from file name to module. A module either raises when
it is evaluated, or yields a default export that may be missing. Transforms
and error handlers are never run:
- a transform call is an oracle that yields the new value, or nothing when it
  raises;
- `supports` is a predicate on handlers;
- a handled error is recorded in a log.

Behaviours of the code that the model keeps as written:
- **Path normalisation.** The code uses two non-global regular expressions.
  So only the first run of `/` and the first run of `\` are collapsed, and
  `/a//b` is registered unchanged. One pass can create a new `//`, so
  normalisation is not idempotent: a second pass can change the result.
- **`unload`.** The code looks the handler up under the full file name. It
  then deletes the key without the last three characters. So unloading by
  the name that was loaded does nothing.
- **A method mapped twice.** `.reverse()` turns the stored argument array
  around in place, and every closure holds that same array. A method with
  two mapping decorators is reversed twice. Both of its routes then pass
  the arguments in stored order, which is last parameter first.
- **Decorators that raise.** `@Controller` with a rejected prefix, or
  `@Middleware()` with no function, raises while the module is evaluated.
  So `require` raises and `init` stops; such a module is `Throws`.

## Model

| member | source | states |
|---|---|---|
| Paths.CheckPrefix | src/Controller.ts:8-9 | A controller prefix is accepted exactly when it has length 1, or starts with `/` and ends with an ASCII letter. The slash error is raised exactly when a prefix longer or shorter than one character lacks the leading `/`, so the empty prefix is rejected. |
| Paths.ReplaceFirstRun | src/Controller.ts:164-165 | Replacing the first run of one character never lengthens a path, never empties a non-empty path, and leaves a path without that character unchanged. |
| Paths.ReplaceFirstRunSplits | src/Controller.ts:164-165 | In `a + c…c + b`, where `a` has no `c` and `b` does not start with `c`, the run is replaced by a single `/` and nothing else changes. |
| Paths.Normalise | src/Controller.ts:163-165 | The registered path is no longer than `prefix + route` and is non-empty when that is. A path with no `/` and no `\` is unchanged. |
| Paths.SlashPassKeepsLaterRun | src/Controller.ts:164 | The slash pass over `/a//b` collapses only the leading single `/`, so the path is unchanged. Here `a` and `b` hold no `/` and no `\`, and `a` is non-empty. |
| Paths.SlashPassCollapsesDouble | src/Controller.ts:164 | The slash pass turns `a//b` into `a/b`. |
| Paths.SlashPassKeepsSingle | src/Controller.ts:164 | The slash pass leaves `a\/b` unchanged. |
| Paths.BackslashPassDoublesSlash | src/Controller.ts:165 | The backslash pass turns `a\/b` into `a//b`. |
| Paths.NormaliseKeepsLaterDoubleSlash | src/Controller.ts:163-165 | Only the first run is collapsed: for any segments `a` (non-empty) and `b` without `/` or `\`, `/a//b` is registered as `/a//b`. |
| Paths.NormaliseCreatesDoubleSlash | src/Controller.ts:163-165 | Replacing the backslash can create a new `//`: for any segments `a` and `b` without `/` or `\`, `a\/b` becomes `a//b`. |
| Paths.NormaliseSecondPassDiffers | src/Controller.ts:163-165 | Normalisation is not idempotent: a second pass over `a\/b` gives `a/b`, which differs from the first pass's `a//b`. |
| Paths.ToLower | src/Controller.ts:162 | The route verb is lower-cased character by character, and its length is kept. |
| Paths.JsFiles | src/Controller.ts:123 | A file is scanned exactly when it is listed and ends in `.js`. |
| Paths.JsFilesAppend | src/Controller.ts:123 | The filter distributes over concatenation, so the `.js` files are scanned in listing order. |
| Paths.JsFilesSingle | src/Controller.ts:123 | One listed name is kept exactly when it ends in `.js`. |
| Metadata.ResolveOptions | src/Controller.ts:84-88 | The stored route is the caller's. In the string form, a missing or empty verb becomes "GET" and any other verb is kept. In the object form, only a missing `method` property becomes "GET". The verb is undefined exactly when the object sets `method` to undefined. |
| Metadata.TransformName | src/Controller.ts:108 | A transform is named by its parameter when that is a non-empty string, and otherwise by the method's property key. |
| Metadata.MetadataStore.constructor | src/Controller.ts:6-111 | A fresh store holds no decorator metadata, only the compiler's parameter types. |
| Metadata.MetadataStore.MarkController | src/Controller.ts:6-14 | `@Controller` returns the prefix check's verdict and records the prefix for the class only when the check passes. |
| Metadata.MetadataStore.AddArgument | src/Controller.ts:19-45 | An argument decorator appends `{index, type, name}` to the method's binding list, creating the list if it was absent. |
| Metadata.MetadataStore.RequestMapping | src/Controller.ts:76-92 | The method key is appended to the class's route methods, and the resolved options are stored for the method. |
| Metadata.MetadataStore.Middleware | src/Controller.ts:94-100 | An empty middleware list raises and stores nothing. Otherwise the list replaces the method's middleware. |
| Metadata.MetadataStore.Parameter | src/Controller.ts:102-111 | The method key is appended to the class's transform methods, and the transform's name is stored for the method. |
| Metadata.Reverse | src/Controller.ts:160 | `.reverse()` keeps the length and puts element `i` at position `n-1-i`. |
| Metadata.ReversedBindingsFollowParameters | src/Controller.ts:160 | Decorators are evaluated last parameter first. So, after reversal, binding `i` describes parameter `i`. |
| Metadata.ReverseTwice | src/Controller.ts:160 | Reversing twice restores the list, so an array that `init` reverses in place twice is back in stored order. |
| Dispatch.VariableCount | src/Controller.ts:176 | The number of variable bindings is at most the number of bindings. |
| Dispatch.PositionalCount | src/Controller.ts:187-196 | Unnamed variable bindings are a subset of all variable bindings. |
| Dispatch.Assign | src/Controller.ts:208 | Copying the body onto an object keeps every field the object had and adds every body key. |
| Dispatch.FindEntry | src/Controller.ts:188 | `find` returns the first snapshot entry with that name. It finds nothing exactly when no entry has the name. |
| Dispatch.AssignedFields | src/Controller.ts:206-210 | The body object has the constructor's fields plus the body's keys. A field not in the body keeps its initial value. A body key gets the value of its last occurrence. |
| Dispatch.MakeBody | src/Controller.ts:206-210 | `makeBody` yields an instance of the parameter type with exactly those fields and values, each assignment acting as a plain data-property write. |
| Dispatch.TransformEntry | src/Controller.ts:180-184 | A path variable without a transform is kept. Otherwise it keeps its name and gets the transform's result. It fails, with that variable's name, exactly when its transform raises. |
| Dispatch.ApplyTransforms | src/Controller.ts:179-184 | A successful transform pass keeps the number of path variables. A failed one fails with a raising transform. |
| Dispatch.TransformedSnapshot | src/Controller.ts:179-184 | The transform pass fails only with a raising transform. It succeeds exactly when every path variable that has a transform gets a value from it. On success, names and order are kept, transformed values replace raw ones, and variables without a transform are unchanged. |
| Dispatch.TransformSnapshot | src/Controller.ts:173-184 | The loop over the snapshot computes the transform pass. |
| Dispatch.ArgValue | src/Controller.ts:187-197 | A binding fails exactly in three cases: a named variable with no entry of that name, a body binding without a recorded parameter type, or an unnamed variable with the counter past the snapshot. Request, response and next never fail. |
| Dispatch.BuildArgs | src/Controller.ts:186-198 | A successful `map` has one argument per binding. A failed one fails with a binding's error, never with the count-check or transform errors. |
| Dispatch.ArgsAllAt | src/Controller.ts:186-198 | A successful build has one argument per binding. Argument `i` is what binding `i` yields, with the counter past the unnamed variable bindings before it. |
| Dispatch.ArgsFailAt | src/Controller.ts:186-198 | A failed build reports the error of binding `i`, the first binding that fails. Every binding before `i` yields a value. |
| Dispatch.ArgsPerBinding | src/Controller.ts:186-198 | The argument list has one value per binding. Binding `i` is resolved with the counter equal to the number of unnamed variable bindings before it. A failure comes from the first binding that fails. |
| Dispatch.BuildArguments | src/Controller.ts:186-198 | The `map` with its running counter computes that argument list. |
| Dispatch.CounterStaysInSnapshot | src/Controller.ts:196 | If the unnamed variable bindings fit the snapshot, the counter never runs past its end. |
| Dispatch.NeverPastSnapshot | src/Controller.ts:176-196 | After the count check, no request makes the positional counter run past the snapshot. |
| Dispatch.DispatchArguments | src/Controller.ts:172-200 | When the handler is invoked, the binding count passed the check and every transform succeeded. The handler is the route's method, with one argument per binding. A named variable takes its value from the first matching entry. The i-th unnamed variable takes the i-th snapshot entry. A body binding gets a `makeBody` object of the declared type. Request, response and next are passed through. |
| Dispatch.PositionalInDeclarationOrder | src/Controller.ts:196 | Two unnamed variables take the two path variables in order. |
| Dispatch.CountCheckIncludesNamed | src/Controller.ts:176-177 | The count check counts named variables too. A named and an unnamed binding fail on a one-variable path, even though the name matches. |
| Dispatch.DispatchSpec | src/Controller.ts:172-200 | A request fails with the path-variable error exactly when there are more variable bindings than path variables. An invoked handler is the route's method, with one argument per binding. |
| Dispatch.Dispatch | src/Controller.ts:172-201 | The closure computes the dispatch specification. An invoked handler is the route's method with one argument per binding. Too many variable bindings raise the path-variable error. The counter-past-end failure never occurs. |
| Loader.RouteOf | src/Controller.ts:158-172 | A route has the method's lower-cased verb and middleware. Its path is the normalised `prefix + route`, which is also the path its closure reports. The closure is the controller's method with the given bindings. |
| Loader.AddRoute | src/Controller.ts:157-170 | One pass of the routes loop. It raises exactly when the method has no argument metadata, no options, or an undefined verb. When the argument list exists, it is reversed in the store. The pass adds at most one route and keeps the earlier ones. It leaves the transform map alone. |
| Loader.AddRoutes | src/Controller.ts:156-202 | The routes loop keeps the routes registered before it and leaves the transform map alone. |
| Loader.Planned | src/Controller.ts:157-172 | A controller registers at most one route per mapped method. |
| Loader.PlannedRouteAt | src/Controller.ts:157-172 | Each planned route belongs to a mapped method `keys[i]` of this controller, with the index returned. Its verb is served. It has the lower-cased verb, the normalised path (also the one its closure reports), the method's middleware and its reversed bindings. |
| Loader.PlannedRoutesWired | src/Controller.ts:157-172 | Every planned route is wired as its method's metadata describes. |
| Loader.PlannedHasEveryServedVerb | src/Controller.ts:167-172 | Every mapped method whose lower-cased verb the server has gets a route. |
| Loader.AddRouteRegistersPlannedFor | src/Controller.ts:157-172 | One pass over a method that does not raise registers exactly the route planned for it: one route if its verb is served, none otherwise. |
| Loader.AddRoutesRegistersPlanned | src/Controller.ts:156-202 | With distinct mapped methods and no raising method, the loop appends exactly the planned routes, in declaration order. |
| Loader.AddRoutesRaises | src/Controller.ts:158-162 | One raising method makes the whole routes loop raise. |
| Loader.AddRoutesCompletes | src/Controller.ts:156-202 | With no raising method, the routes loop completes. |
| Loader.AddRoutesReversesEach | src/Controller.ts:156-160 | With distinct mapped methods and no raising method, every method's stored argument list ends reversed once. |
| Loader.AddRoutesOnlyTouchesKeys | src/Controller.ts:156-160 | The routes loop leaves the stored list of any method it does not visit unchanged. |
| Loader.Bound | src/Controller.ts:160-186 | At request time a closure reads the array the store now holds for its method. Everything else it captured stays as registered. |
| Loader.ClosuresSeeRegisteredBindings | src/Controller.ts:156-198 | When each method is mapped once, a request to each new route sees exactly the bindings the route was registered with. |
| Loader.MappedTwiceSharesStoredList | src/Controller.ts:157-198 | A method mapped twice gets two routes for that method. The stored array ends in its original order, and requests to both routes read it in that order. |
| Loader.SetTransforms | src/Controller.ts:149-154 | The parameters loop keeps every name already in the map. A controller with no transform methods leaves the map unchanged. |
| Loader.SetTransformsSound | src/Controller.ts:149-154 | After the parameters loop, a name is a key exactly when it was a key before or is named by one of the controller's transforms. Other names keep their transform. A newly named transform is a method of this controller, registered under that name. |
| Loader.SetTransformsLastWins | src/Controller.ts:150-153 | When several methods register one name, the map holds the last of them: method `keys[i]` registers the name, and no later method does. |
| Loader.ConsistentRaisesOnlyWithoutArgumentsOrVerb | src/Controller.ts:158-162 | In a store that only the decorators built, every listed route method has options. So registering it raises only without argument metadata or with an explicitly undefined verb. |
| Loader.ScanController | src/Controller.ts:127-203 | A raising module stops `init`. A skipped file changes nothing. Any other file keeps the earlier transform names and routes. |
| Loader.ScanFiles | src/Controller.ts:123-204 | An empty listing changes nothing, and a raising first file stops at once. The scan keeps earlier transform names and routes. |
| Loader.SkippedFileChangesNothing | src/Controller.ts:129-145 | A file without a default export, without the controller mark or without routes changes nothing: removing it from the listing gives the same outcome. |
| Loader.Server.constructor | src/Controller.ts:167 | The server starts with no routes and a fixed set of verbs. |
| Loader.Server.Register | src/Controller.ts:172 | Registering a route with a served verb appends it to the server's routes. |
| Loader.ControllerManager.constructor | src/Controller.ts:115 | The transform map starts empty. |
| Loader.ControllerManager.RegisterParameters | src/Controller.ts:149-154 | The parameters loop computes the transform map. |
| Loader.ControllerManager.RegisterRoutes | src/Controller.ts:156-202 | The routes loop computes the server's routes, the reversed argument metadata and whether it raised. |
| Loader.ControllerManager.ScanModule | src/Controller.ts:127-203 | Handling one file matches one step of the scan specification. |
| Loader.ControllerManager.Init | src/Controller.ts:116-204 | `init` leaves the transform map, server routes and argument metadata that the scan of the `.js` files specifies. It stops at the first raising file. |
| Loader.ControllerManager.Handle | src/Controller.ts:172-201 | A request to a route dispatches with the manager's current transform map and the argument list the store holds now for the route's method. |
| ErrorChain.Stem | src/Error.ts:37 | `slice(0, -3)` is a prefix of the name, three characters shorter, or empty for shorter names. |
| ErrorChain.Without | src/Error.ts:44 | Deleting a key from the insertion order removes exactly that key and keeps the order duplicate-free. An absent key leaves the order unchanged. |
| ErrorChain.WithoutAt | src/Error.ts:44 | In a duplicate-free order, deleting the key at position `i` closes the gap. The other keys keep their relative order. |
| ErrorChain.MapSet | src/Error.ts:37 | `Map.set` replaces a present key in place and appends a new key at the end. |
| ErrorChain.MapDelete | src/Error.ts:44 | `Map.delete` removes the key and its value. An absent key leaves the order as it was. |
| ErrorChain.ValuesCloseGap | src/Error.ts:44-50 | Deleting the key at position `i` removes exactly value `i` from `values()`. |
| ErrorChain.Values | src/Error.ts:50 | `values()` yields one handler per key, in insertion order. |
| ErrorChain.AfterLoad | src/Error.ts:27-38 | A raising module, or one that is not an `ErrorHandler` subclass, changes nothing. Otherwise the handler is stored under the stem. A new stem goes to the end of the order, and an existing stem keeps its place. |
| ErrorChain.LoadOutcomeOf | src/Error.ts:28-37 | `load` raises exactly when `require` raises or the module has no default export. It stores a handler exactly when the default export extends `ErrorHandler`. |
| ErrorChain.AfterUnload | src/Error.ts:40-47 | A name that is not a key changes nothing. Otherwise the stem of the name is deleted. |
| ErrorChain.UnloadClosesGap | src/Error.ts:40-50 | When `unload` deletes a key at position `i`, the order and `values()` lose exactly position `i` and keep the rest in order. Otherwise both are unchanged. |
| ErrorChain.FirstSupporting | src/Error.ts:49-58 | The chosen handler is the first one that supports the error. None is chosen exactly when no handler supports it. |
| ErrorChain.UnloadKeepsItsOwnKey | src/Error.ts:40-44 | Unloading a key deletes a different key, so the looked-up handler stays. |
| ErrorChain.UnloadDoesNotUndoLoad | src/Error.ts:27-47 | Unloading the file name just loaded changes nothing, and the handler stays registered. |
| ErrorChain.LoadAllSpec | src/Error.ts:19-25 | Loading a listing keeps the registry consistent and never drops a key. An empty listing changes nothing. |
| ErrorChain.LoadAllThrowsIff | src/Error.ts:24-37 | `loadAll` raises exactly when some listed file's `load` raises. |
| ErrorChain.LoadedFiles | src/Error.ts:24-37 | The files that store a handler are exactly the listed files whose class extends `ErrorHandler`. |
| ErrorChain.LoadedFilesAppend | src/Error.ts:24-37 | The filter distributes over concatenation, so the loading files are kept in listing order. |
| ErrorChain.LoadedFilesSingle | src/Error.ts:24-37 | One listed file is kept exactly when its module loads a handler. |
| ErrorChain.HandlersOf | src/Error.ts:36-37 | Loading a file constructs one handler, an instance of its default export. |
| ErrorChain.LoadAllSkipsRefused | src/Error.ts:24-32 | When no file raises, a refused file leaves no trace: loading the listing equals loading only its files that load. |
| ErrorChain.JsNamesHaveDistinctStems | src/Utils.ts:26-29 | The directory listing has distinct names ending in `.js`, so their stems are distinct too. |
| ErrorChain.LoadAllOrder | src/Error.ts:19-25 | Loading files that all load, under distinct new stems, appends the stems in listing order. |
| ErrorChain.LoadAllHandlers | src/Error.ts:19-25 | Loading files that all load, under distinct new stems, keeps earlier handlers. Each file's handler is stored under its stem. |
| ErrorChain.LoadAllFollowsListing | src/Error.ts:19-38 | For a listing where no file raises, the handlers iterate as the earlier ones followed by the loading files' handlers, in listing order. Refused files may sit anywhere in the listing. |
| ErrorChain.FirstListedSupportingWins | src/Error.ts:19-58 | After loading into an empty chain, an error goes to the handler of the first listed loading file that supports it. |
| ErrorChain.ErrorManager.constructor | src/Error.ts:13-17 | The error map starts empty. |
| ErrorChain.ErrorManager.Load | src/Error.ts:27-38 | `load` reports the module's outcome and leaves the registry `AfterLoad` describes. |
| ErrorChain.ErrorManager.Unload | src/Error.ts:40-47 | `unload` leaves the registry `AfterUnload` describes. |
| ErrorChain.ErrorManager.LoadAll | src/Error.ts:19-25 | `loadAll` records the listing and loads its files in order. It stops at the first raising module. |
| ErrorChain.ErrorManager.Iterate | src/Error.ts:49-58 | `iterate` claims the error exactly when some handler supports it. Only the first supporting handler handles it. |

## Left out

- Reading the controllers and errors directories (`fs.existsSync`, `readdirSync`, `readDir`) and the choice of directory: the listing is a parameter.
- `require`, and the `require.cache` eviction in `unload`: module loading is an oracle, and the cache has no observable effect inside the model.
- `prototype.file` (src/Error.ts:34): it is read only by the cache eviction.
- Console output for skipped files and verbs: logging only.
- Dispatch.MakeBody: each `clazz[key] = value` is modelled as a plain field write. Three cases of JavaScript assignment are not modelled:
  - a body key `__proto__` (possible in a body parsed by `bodyParser.json()`, src/Application.ts:24) replaces the object's prototype instead of adding a field;
  - an accessor property on the parameter type runs its setter, and a getter-only property makes the assignment raise a TypeError in strict mode;
  - the parameter type's constructor (`new clazz()`) raising is not modelled either.
- Constructors of controllers and error handlers raising (`new mod.default()`): every class is assumed to construct.
- Handlers, `handle`, middleware and transforms running. A transform is an oracle; `supports` is a pure predicate and cannot raise.
- Mutation of the `Map` during `iterate`: handlers cannot change the chain.
- Express's own route matching, and the order of `Object.entries(request.params)`: the path variables arrive as a given sequence.
- `Paths.ToLower`: lowers ASCII letters only; full Unicode case mapping is not modelled.
- Metadata inherited along the prototype chain (a subclass of a controller): each class reads only its own entries.
- Dispatch.TransformSnapshot: the transform results are written into the local snapshot, as in the code. The argument `request` and `response` objects passed to a transform are not modelled.
- Loader.AddRoutesRegistersPlanned: stated only for controllers whose mapped methods are distinct. A method mapped twice is covered by `Loader.MappedTwiceSharesStoredList`.
- Loader.AddRoutesReversesEach: stated only for distinct mapped methods, for the same reason.
- Loader.ClosuresSeeRegisteredBindings: stated only for distinct mapped methods, for the same reason.
- ErrorChain.LoadAllOrder: stated only for listings whose files all load. `ErrorChain.LoadAllSkipsRefused` reduces any listing with no raising file to that case, and `ErrorChain.LoadAllFollowsListing` states the general result.
- ErrorChain.LoadAllHandlers: stated only for listings whose files all load, for the same reason.
- ErrorChain.LoadAllFollowsListing: asks that the loading files have distinct stems not already in the map. A directory listing meets the first condition (`ErrorChain.JsNamesHaveDistinctStems`), and an empty map meets the second. A repeated stem would keep its first place with the later handler. A raising file stops the walk (`ErrorChain.LoadAllThrowsIff`).
- ErrorChain.FirstListedSupportingWins: asks the same of the listing as `ErrorChain.LoadAllFollowsListing`.
- Paths.CheckPrefix: lengths count Unicode code points, but JavaScript's `length` counts UTF-16 code units. So a one-character prefix outside the Basic Multilingual Plane, such as an emoji, raises in the code but passes here.
- ErrorChain.Stem: `slice(0, -3)` removes three UTF-16 code units, but here it removes three code points. The two differ only for names that end in characters outside the Basic Multilingual Plane. Listed `.js` names are not affected, though a name passed to `unload` can be.
- The `app` parameter of both `init` methods: only the listing and the server's verbs are used.
