/** The default class of src/Controller.ts: `init` walks the controller files,
    fills the manager-wide transform map and registers one route per mapped
    method on the web server. Loading a file is an oracle from file name to
    module, and the server is the list of routes registered on it. */
module Loader {
  import opened Wrappers
  import opened Paths
  import opened Metadata
  import opened Dispatch

  /** What `require` yields for a controller file: it raises, or it evaluates
      to a module whose default export is a class or is missing. A module
      whose class decorators raise while it is evaluated (a prefix `Controller`
      rejects, a `Middleware` decorator given no function) is `Throws`. */
  datatype ControllerModule = Throws | Evaluated(defaultExport: Option<ClassId>)

  /** One `app.express[verb](path, middlewares, handler)` registration. */
  datatype Route = Route(verb: string, path: string, middlewares: seq<MiddlewareId>, handler: Closure)

  /** Everything `init` writes: the transform map, the server's routes, and the
      "routeArguments" metadata that `.reverse()` reverses in place. */
  datatype Wiring = Wiring(parameters: map<string, Transform>, routes: seq<Route>, arguments: map<Member, seq<Binding>>)

  /** A state reached by a loop that stops at the first exception. */
  datatype Scan<T> = Scan(state: T, threw: bool)

  /** The closure's `routeTypes`: "design:paramtypes", if the compiler emitted it. */
  function ParamTypesOf(meta: Snapshot, m: Member): Option<seq<Shape>> {
    if m in meta.paramTypes then Some(meta.paramTypes[m]) else None
  }

  /** The route registered for method `key` with argument bindings `bs`
      (lines 158-165, 172). */
  function RouteOf(bs: seq<Binding>, meta: Snapshot, cls: ClassId, prefix: string, key: string): (r: Route)
    requires Member(cls, key) in meta.routeOptions && meta.routeOptions[Member(cls, key)].verb.Some?
    ensures r.handler.cls == cls && r.handler.key == key && r.handler.bindings == bs
    ensures r.path == r.handler.path == Normalise(prefix + meta.routeOptions[Member(cls, key)].route)
    ensures r.verb == ToLower(meta.routeOptions[Member(cls, key)].verb.value)
    ensures r.middlewares == ListOr(meta.routeMiddlewares, Member(cls, key))
  {
    var m := Member(cls, key);
    var options := meta.routeOptions[m];
    var path := Normalise(prefix + options.route);
    Route(ToLower(options.verb.value), path, ListOr(meta.routeMiddlewares, m), Closure(cls, key, path, bs, ParamTypesOf(meta, m)))
  }

  /** One pass of the `routes` loop (lines 157-201) for method `key`. A method
      without argument metadata makes `.reverse()` raise; otherwise its list is
      reversed in the store. Missing options or an undefined verb then make
      `toLowerCase` raise; a verb the server lacks skips the route. */
  function AddRoute(w: Wiring, meta: Snapshot, cls: ClassId, prefix: string, key: string, verbs: set<string>): (r: Scan<Wiring>)
    ensures r.state.parameters == w.parameters
    ensures Member(cls, key) !in w.arguments ==> r == Scan(w, true)
    ensures Member(cls, key) in w.arguments ==>
              r.state.arguments == w.arguments[Member(cls, key) := Reverse(w.arguments[Member(cls, key)])]
    ensures r.threw <==> Member(cls, key) !in w.arguments || Member(cls, key) !in meta.routeOptions ||
                         meta.routeOptions[Member(cls, key)].verb.None?
    ensures r.state.routes == w.routes || |r.state.routes| == |w.routes| + 1
    ensures r.state.routes[..|w.routes|] == w.routes
  {
    var m := Member(cls, key);
    if m !in w.arguments then Scan(w, true)
    else
      var bs := Reverse(w.arguments[m]);
      var w1 := w.(arguments := w.arguments[m := bs]);
      if m !in meta.routeOptions || meta.routeOptions[m].verb.None? then Scan(w1, true)
      else
        if ToLower(meta.routeOptions[m].verb.value) !in verbs then Scan(w1, false)
        else Scan(w1.(routes := w1.routes + [RouteOf(bs, meta, cls, prefix, key)]), false)
  }

  /** The `routes` loop over a controller's route methods, stopping at the
      first exception. */
  function AddRoutes(w: Wiring, meta: Snapshot, cls: ClassId, prefix: string, keys: seq<string>, verbs: set<string>): (r: Scan<Wiring>)
    ensures r.state.parameters == w.parameters
    ensures |w.routes| <= |r.state.routes| && r.state.routes[..|w.routes|] == w.routes
    decreases |keys|
  {
    if keys == [] then Scan(w, false)
    else
      var s := AddRoute(w, meta, cls, prefix, keys[0], verbs);
      if s.threw then s else AddRoutes(s.state, meta, cls, prefix, keys[1..], verbs)
  }

  /** The transform name registered for method `key`, when it is truthy. */
  predicate HasTransform(meta: Snapshot, cls: ClassId, key: string) {
    Member(cls, key) in meta.routeParameter && meta.routeParameter[Member(cls, key)] != ""
  }

  /** The `parameters` loop (lines 150-154): a later method registered under
      the same name replaces an earlier one. */
  function SetTransforms(params: map<string, Transform>, meta: Snapshot, cls: ClassId, keys: seq<string>): (r: map<string, Transform>)
    ensures params.Keys <= r.Keys
    ensures (forall k :: k in keys ==> !HasTransform(meta, cls, k)) ==> r == params
    decreases |keys|
  {
    if keys == [] then params
    else
      var next := if HasTransform(meta, cls, keys[0])
                  then params[meta.routeParameter[Member(cls, keys[0])] := Transform(cls, keys[0])]
                  else params;
      SetTransforms(next, meta, cls, keys[1..])
  }

  /** The names the methods in `keys` register. */
  function Names(meta: Snapshot, cls: ClassId, keys: seq<string>): set<string> {
    set k | k in keys && HasTransform(meta, cls, k) :: meta.routeParameter[Member(cls, k)]
  }

  /** One pass of the `controllers` loop (lines 126-203). */
  function ScanController(w: Wiring, meta: Snapshot, mod: ControllerModule, verbs: set<string>): (r: Scan<Wiring>)
    ensures mod.Throws? ==> r == Scan(w, true)
    ensures Skipped(meta, mod) ==> r == Scan(w, false)
    ensures w.parameters.Keys <= r.state.parameters.Keys
    ensures |w.routes| <= |r.state.routes| && r.state.routes[..|w.routes|] == w.routes
  {
    match mod
    case Throws => Scan(w, true)
    case Evaluated(default) =>
      if default.None? || default.value !in meta.controllers || ListOr(meta.routeMethods, default.value) == [] then Scan(w, false)
      else
        var cls := default.value;
        var params := SetTransforms(w.parameters, meta, cls, ListOr(meta.routeParameters, cls));
        AddRoutes(w.(parameters := params), meta, cls, meta.controllers[cls], ListOr(meta.routeMethods, cls), verbs)
  }

  /** The `controllers` loop over the `.js` files in listing order. */
  function ScanFiles(w: Wiring, meta: Snapshot, files: seq<string>, modules: string -> ControllerModule, verbs: set<string>): (r: Scan<Wiring>)
    ensures files == [] ==> r == Scan(w, false)
    ensures files != [] && modules(files[0]).Throws? ==> r == Scan(w, true)
    ensures w.parameters.Keys <= r.state.parameters.Keys
    ensures |w.routes| <= |r.state.routes| && r.state.routes[..|w.routes|] == w.routes
    decreases |files|
  {
    if files == [] then Scan(w, false)
    else
      var s := ScanController(w, meta, modules(files[0]), verbs);
      if s.threw then s else ScanFiles(s.state, meta, files[1..], modules, verbs)
  }

  /** The closure as a request sees it: it captured the metadata array itself,
      which `.reverse()` turned around in place, so at request time it reads
      whatever the store holds for its method now. */
  function Bound(c: Closure, args: map<Member, seq<Binding>>): (r: Closure)
    ensures r.cls == c.cls && r.key == c.key && r.path == c.path && r.paramTypes == c.paramTypes
    ensures Member(c.cls, c.key) in args ==> r.bindings == args[Member(c.cls, c.key)]
    ensures Member(c.cls, c.key) !in args ==> r == c
  {
    var m := Member(c.cls, c.key);
    if m in args then c.(bindings := args[m]) else c
  }

  /** A file that `init` passes over without registering anything. */
  predicate Skipped(meta: Snapshot, mod: ControllerModule) {
    mod.Evaluated? &&
    (mod.defaultExport.None? || mod.defaultExport.value !in meta.controllers ||
     ListOr(meta.routeMethods, mod.defaultExport.value) == [])
  }

  /** The Express application: the verbs it has a registration method for, and
      the routes registered so far. */
  class Server {
    const verbs: set<string>
    var routes: seq<Route>

    constructor (verbs: set<string>)
      ensures this.verbs == verbs && routes == []
    {
      this.verbs := verbs;
      routes := [];
    }

    /** `app.express[route.verb](route.path, route.middlewares, handler)`. */
    method Register(route: Route)
      requires route.verb in verbs
      modifies this
      ensures routes == old(routes) + [route]
    {
      routes := routes + [route];
    }
  }

  class ControllerManager {
    /** The manager-wide `parameters` map from transform name to transform. */
    var parameters: map<string, Transform>

    constructor ()
      ensures parameters == map[]
    {
      parameters := map[];
    }

    /** The `parameters` loop of one controller. */
    method RegisterParameters(store: MetadataStore, ghost meta: Snapshot, cls: ClassId, keys: seq<string>)
      requires store.Current() == meta.(routeArguments := store.routeArguments)
      modifies this
      ensures parameters == SetTransforms(old(parameters), meta, cls, keys)
    {
      ghost var start := parameters;
      assert keys[0..] == keys;
      for i := 0 to |keys|
        invariant SetTransforms(start, meta, cls, keys) == SetTransforms(parameters, meta, cls, keys[i..])
      {
        assert keys[i..][0] == keys[i] && keys[i..][1..] == keys[i + 1..];
        var m := Member(cls, keys[i]);
        if m in store.routeParameter && store.routeParameter[m] != "" {
          parameters := parameters[store.routeParameter[m] := Transform(cls, keys[i])];
        }
      }
    }

    /** The `routes` loop of one controller, registering on `server` and
        reversing the argument lists in `store`. */
    method RegisterRoutes(store: MetadataStore, ghost meta: Snapshot, server: Server, cls: ClassId, prefix: string, keys: seq<string>)
      returns (threw: bool)
      requires store.Current() == meta.(routeArguments := store.routeArguments)
      modifies server, store`routeArguments
      ensures var s := AddRoutes(Wiring(parameters, old(server.routes), old(store.routeArguments)),
                                 meta, cls, prefix, keys, server.verbs);
              server.routes == s.state.routes && store.routeArguments == s.state.arguments && threw == s.threw
    {
      ghost var start := Wiring(parameters, server.routes, store.routeArguments);
      assert keys[0..] == keys;
      for i := 0 to |keys|
        invariant AddRoutes(start, meta, cls, prefix, keys, server.verbs) ==
                  AddRoutes(Wiring(parameters, server.routes, store.routeArguments), meta, cls, prefix, keys[i..], server.verbs)
        invariant store.routeOptions == meta.routeOptions && store.routeMiddlewares == meta.routeMiddlewares
        invariant store.paramTypes == meta.paramTypes
      {
        assert keys[i..][0] == keys[i] && keys[i..][1..] == keys[i + 1..];
        var key := keys[i];
        var m := Member(cls, key);
        if m !in store.routeArguments {
          return true;
        }
        var bs := Reverse(store.routeArguments[m]);
        store.routeArguments := store.routeArguments[m := bs];
        if m !in store.routeOptions || store.routeOptions[m].verb.None? {
          return true;
        }
        var options := store.routeOptions[m];
        var verb := ToLower(options.verb.value);
        var path := Normalise(prefix + options.route);
        if verb in server.verbs {
          var types := if m in store.paramTypes then Some(store.paramTypes[m]) else None;
          server.Register(Route(verb, path, ListOr(store.routeMiddlewares, m), Closure(cls, key, path, bs, types)));
        }
      }
      return false;
    }

    /** One pass of the `controllers` loop (lines 127-202) for a file whose
        `require` yields `mod`. */
    method ScanModule(store: MetadataStore, ghost meta: Snapshot, server: Server, mod: ControllerModule) returns (threw: bool)
      requires store.Current() == meta.(routeArguments := store.routeArguments)
      modifies this, server, store`routeArguments
      ensures var s := ScanController(Wiring(old(parameters), old(server.routes), old(store.routeArguments)),
                                      meta, mod, server.verbs);
              parameters == s.state.parameters && server.routes == s.state.routes &&
              store.routeArguments == s.state.arguments && threw == s.threw
    {
      if mod.Throws? {
        return true;
      }
      if mod.defaultExport.None? || mod.defaultExport.value !in store.controllers {
        return false;
      }
      var cls := mod.defaultExport.value;
      var keys := ListOr(store.routeMethods, cls);
      if keys == [] {
        return false;
      }
      RegisterParameters(store, meta, cls, ListOr(store.routeParameters, cls));
      threw := RegisterRoutes(store, meta, server, cls, store.controllers[cls], keys);
    }

    /** `init(app)` (lines 116-204) over the directory `listing`; `modules`
        gives what `require` yields for each file. `threw` reports an exception
        that aborted the walk, leaving what was registered before it. */
    method Init(store: MetadataStore, server: Server, listing: seq<string>, modules: string -> ControllerModule) returns (threw: bool)
      modifies this, server, store`routeArguments
      ensures var s := ScanFiles(Wiring(old(parameters), old(server.routes), old(store.routeArguments)),
                                 old(store.Current()), JsFiles(listing), modules, server.verbs);
              parameters == s.state.parameters && server.routes == s.state.routes &&
              store.routeArguments == s.state.arguments && threw == s.threw
    {
      var directory := JsFiles(listing);
      ghost var meta := store.Current();
      ghost var start := Wiring(parameters, server.routes, store.routeArguments);
      assert directory[0..] == directory;
      for i := 0 to |directory|
        invariant ScanFiles(start, meta, directory, modules, server.verbs) ==
                  ScanFiles(Wiring(parameters, server.routes, store.routeArguments), meta, directory[i..], modules, server.verbs)
        invariant store.Current() == meta.(routeArguments := store.routeArguments)
      {
        assert directory[i..][0] == directory[i] && directory[i..][1..] == directory[i + 1..];
        var t := ScanModule(store, meta, server, modules(directory[i]));
        if t {
          return true;
        }
      }
      return false;
    }

    /** A request reaching `route`: the closure reads the manager's current
        transform map and the argument list the store holds for its method. */
    method Handle(store: MetadataStore, route: Route, params: seq<Entry>, call: TransformCall, body: seq<Entry>)
      returns (d: Dispatched)
      ensures d == DispatchSpec(Bound(route.handler, store.routeArguments), parameters, params, call, body)
    {
      var c := route.handler;
      var m := Member(c.cls, c.key);
      if m in store.routeArguments {
        c := c.(bindings := store.routeArguments[m]);
      }
      d := Dispatch.Dispatch(c, parameters, params, call, body);
    }
  }

  /** Every name in the transform map after the `parameters` loop was there
      before or is registered by one of `keys`; a registered name maps to a
      method of this controller registered under that name, and every other
      entry keeps its transform. */
  lemma {:induction false} SetTransformsSound(params: map<string, Transform>, meta: Snapshot, cls: ClassId, keys: seq<string>)
    ensures var r := SetTransforms(params, meta, cls, keys);
            (forall n :: n in r <==> n in params || n in Names(meta, cls, keys)) &&
            (forall n :: n in r && n !in Names(meta, cls, keys) ==> r[n] == params[n]) &&
            (forall n :: n in Names(meta, cls, keys) ==>
               r[n].cls == cls && r[n].key in keys && HasTransform(meta, cls, r[n].key) &&
               meta.routeParameter[Member(cls, r[n].key)] == n)
    decreases |keys|
  {
    if keys != [] {
      var k := keys[0];
      var next := if HasTransform(meta, cls, k) then params[meta.routeParameter[Member(cls, k)] := Transform(cls, k)] else params;
      SetTransformsSound(next, meta, cls, keys[1..]);
      NamesOfCons(meta, cls, keys);
    }
  }

  /** Method `key` registers the transform name `n`. */
  predicate Registers(meta: Snapshot, cls: ClassId, key: string, n: string) {
    HasTransform(meta, cls, key) && meta.routeParameter[Member(cls, key)] == n
  }

  /** The names a list of methods registers are those of its first method and
      those of the rest. */
  lemma NamesOfCons(meta: Snapshot, cls: ClassId, keys: seq<string>)
    requires keys != []
    ensures Names(meta, cls, keys) ==
            Names(meta, cls, keys[1..]) + (if HasTransform(meta, cls, keys[0]) then {meta.routeParameter[Member(cls, keys[0])]} else {})
  {
    forall k' | k' in keys
      ensures k' == keys[0] || k' in keys[1..]
    {
      assert k' in [keys[0]] + keys[1..] by { assert keys == [keys[0]] + keys[1..]; }
    }
  }

  /** When several methods register the same name, the transform map keeps
      the last of them in `keys`. */
  lemma {:induction false} SetTransformsLastWins(params: map<string, Transform>, meta: Snapshot, cls: ClassId,
                                                 keys: seq<string>, n: string) returns (i: nat)
    requires n in Names(meta, cls, keys)
    ensures i < |keys| && Registers(meta, cls, keys[i], n)
    ensures forall j :: i < j < |keys| ==> !Registers(meta, cls, keys[j], n)
    ensures var r := SetTransforms(params, meta, cls, keys);
            n in r && r[n] == Transform(cls, keys[i])
    decreases |keys|
  {
    var k := keys[0];
    var next := if HasTransform(meta, cls, k) then params[meta.routeParameter[Member(cls, k)] := Transform(cls, k)] else params;
    NamesOfCons(meta, cls, keys);
    SetTransformsSound(next, meta, cls, keys[1..]);
    if n in Names(meta, cls, keys[1..]) {
      var t := SetTransformsLastWins(next, meta, cls, keys[1..], n);
      i := t + 1;
      forall j | i < j < |keys| ensures !Registers(meta, cls, keys[j], n) {
        assert keys[j] == keys[1..][j - 1];
      }
    } else {
      i := 0;
      forall j | 0 < j < |keys| ensures !Registers(meta, cls, keys[j], n) {
        assert keys[j] in keys[1..] by { assert keys[j] == keys[1..][j - 1]; }
      }
    }
  }

  /** A file that is skipped leaves `init` exactly as if it were not listed. */
  lemma {:induction false} SkippedFileChangesNothing(w: Wiring, meta: Snapshot, files: seq<string>, i: nat,
                                                     modules: string -> ControllerModule, verbs: set<string>)
    requires i < |files| && Skipped(meta, modules(files[i]))
    ensures ScanFiles(w, meta, files, modules, verbs) == ScanFiles(w, meta, files[..i] + files[i + 1..], modules, verbs)
    decreases i
  {
    if i == 0 {
      assert files[..0] + files[1..] == files[1..];
    } else {
      var s := ScanController(w, meta, modules(files[0]), verbs);
      var shorter := files[..i] + files[i + 1..];
      assert shorter[0] == files[0];
      assert shorter[1..] == files[1..][..i - 1] + files[1..][i..];
      if !s.threw {
        SkippedFileChangesNothing(s.state, meta, files[1..], i - 1, modules, verbs);
      }
    }
  }

  /** Registering method `key` raises: no argument metadata for `.reverse()`,
      or no verb for `toLowerCase`. */
  predicate RouteRaises(args: map<Member, seq<Binding>>, meta: Snapshot, cls: ClassId, key: string) {
    Member(cls, key) !in args || Member(cls, key) !in meta.routeOptions || meta.routeOptions[Member(cls, key)].verb.None?
  }

  /** In a store the decorators built, every listed route method has options,
      so registering it raises only for missing argument metadata or for a
      mapping whose `method` property was explicitly undefined. */
  lemma ConsistentRaisesOnlyWithoutArgumentsOrVerb(args: map<Member, seq<Binding>>, meta: Snapshot, cls: ClassId, key: string)
    requires Consistent(meta) && key in ListOr(meta.routeMethods, cls)
    ensures Member(cls, key) in meta.routeOptions
    ensures RouteRaises(args, meta, cls, key) <==> Member(cls, key) !in args || meta.routeOptions[Member(cls, key)].verb.None?
  {
  }

  /** None of the methods in `keys` raises when registered. */
  predicate NoneRaises(args: map<Member, seq<Binding>>, meta: Snapshot, cls: ClassId, keys: seq<string>) {
    forall i :: 0 <= i < |keys| ==> !RouteRaises(args, meta, cls, keys[i])
  }

  /** Method `key` has a verb, and the server has its lower-cased form. */
  predicate ServedVerb(meta: Snapshot, cls: ClassId, key: string, verbs: set<string>) {
    Member(cls, key) in meta.routeOptions && meta.routeOptions[Member(cls, key)].verb.Some? &&
    ToLower(meta.routeOptions[Member(cls, key)].verb.value) in verbs
  }

  /** A route is wired as its method's metadata describes: the lower-cased
      verb, the normalised prefixed path (also the one the closure reports),
      the method's middleware, and its argument bindings reversed. */
  predicate Wired(route: Route, args: map<Member, seq<Binding>>, meta: Snapshot, prefix: string, verbs: set<string>) {
    var m := Member(route.handler.cls, route.handler.key);
    m in args && ServedVerb(meta, m.cls, m.key, verbs) &&
    route.verb == ToLower(meta.routeOptions[m].verb.value) &&
    route.path == route.handler.path == Normalise(prefix + meta.routeOptions[m].route) &&
    route.middlewares == ListOr(meta.routeMiddlewares, m) &&
    route.handler.bindings == Reverse(args[m])
  }

  /** The routes a controller's methods describe, in declaration order, leaving
      out those whose lower-cased verb the server lacks: an independent
      description of what the `routes` loop registers. */
  function Planned(args: map<Member, seq<Binding>>, meta: Snapshot, cls: ClassId, prefix: string, keys: seq<string>, verbs: set<string>): (r: seq<Route>)
    requires NoneRaises(args, meta, cls, keys)
    ensures |r| <= |keys|
    decreases |keys|
  {
    if keys == [] then []
    else
      assert !RouteRaises(args, meta, cls, keys[0]);
      PlannedFor(args, meta, cls, prefix, keys[0], verbs) + Planned(args, meta, cls, prefix, keys[1..], verbs)
  }

  /** The route, if any, that method `key` contributes to `Planned`. */
  function PlannedFor(args: map<Member, seq<Binding>>, meta: Snapshot, cls: ClassId, prefix: string, key: string, verbs: set<string>): seq<Route>
    requires !RouteRaises(args, meta, cls, key)
  {
    if ServedVerb(meta, cls, key, verbs) then [RouteOf(Reverse(args[Member(cls, key)]), meta, cls, prefix, key)] else []
  }

  /** Planned route `j` belongs to method `keys[i]` of the controller and is
      wired as that method's metadata describes. */
  lemma {:induction false} PlannedRouteAt(args: map<Member, seq<Binding>>, meta: Snapshot, cls: ClassId, prefix: string,
                                          keys: seq<string>, verbs: set<string>, j: nat) returns (i: nat)
    requires NoneRaises(args, meta, cls, keys)
    requires j < |Planned(args, meta, cls, prefix, keys, verbs)|
    ensures var route := Planned(args, meta, cls, prefix, keys, verbs)[j];
            i < |keys| && route.handler.key == keys[i] && route.handler.cls == cls && route.verb in verbs &&
            Wired(route, args, meta, prefix, verbs)
    decreases |keys|
  {
    var r := Planned(args, meta, cls, prefix, keys, verbs);
    var rest := Planned(args, meta, cls, prefix, keys[1..], verbs);
    assert !RouteRaises(args, meta, cls, keys[0]);
    if ServedVerb(meta, cls, keys[0], verbs) {
      assert r == [RouteOf(Reverse(args[Member(cls, keys[0])]), meta, cls, prefix, keys[0])] + rest;
      if j == 0 {
        RouteOfWired(args, meta, cls, prefix, keys[0], verbs);
        i := 0;
        return;
      }
      assert r[j] == rest[j - 1];
      i := PlannedRouteAt(args, meta, cls, prefix, keys[1..], verbs, j - 1);
    } else {
      assert r == rest;
      i := PlannedRouteAt(args, meta, cls, prefix, keys[1..], verbs, j);
    }
    i := i + 1;
  }

  /** Every planned route belongs to one of the controller's methods and is
      wired as that method's metadata describes. */
  lemma {:induction false} PlannedRoutesWired(args: map<Member, seq<Binding>>, meta: Snapshot, cls: ClassId, prefix: string,
                           keys: seq<string>, verbs: set<string>)
    requires NoneRaises(args, meta, cls, keys)
    ensures var r := Planned(args, meta, cls, prefix, keys, verbs);
            forall j :: 0 <= j < |r| ==> r[j].handler.key in keys && r[j].handler.cls == cls && r[j].verb in verbs &&
                                         Wired(r[j], args, meta, prefix, verbs)
  {
    forall j | 0 <= j < |Planned(args, meta, cls, prefix, keys, verbs)|
      ensures var route := Planned(args, meta, cls, prefix, keys, verbs)[j];
              route.handler.key in keys && route.handler.cls == cls && route.verb in verbs && Wired(route, args, meta, prefix, verbs)
    {
      var i := PlannedRouteAt(args, meta, cls, prefix, keys, verbs, j);
    }
  }

  /** The route built for a method whose verb the server has is wired as the
      method's metadata describes. */
  lemma RouteOfWired(args: map<Member, seq<Binding>>, meta: Snapshot, cls: ClassId, prefix: string, key: string, verbs: set<string>)
    requires !RouteRaises(args, meta, cls, key) && ServedVerb(meta, cls, key, verbs)
    ensures var r := RouteOf(Reverse(args[Member(cls, key)]), meta, cls, prefix, key);
            r.handler.key == key && r.handler.cls == cls && r.verb in verbs && Wired(r, args, meta, prefix, verbs)
  {
  }

  /** A method whose verb the server has gets a route even when an earlier
      method's verb was skipped. */
  lemma {:induction false} PlannedHasEveryServedVerb(args: map<Member, seq<Binding>>, meta: Snapshot, cls: ClassId, prefix: string,
                                                     keys: seq<string>, verbs: set<string>, j: nat)
    returns (t: nat)
    requires NoneRaises(args, meta, cls, keys)
    requires j < |keys| && ServedVerb(meta, cls, keys[j], verbs)
    ensures t < |Planned(args, meta, cls, prefix, keys, verbs)|
    ensures Planned(args, meta, cls, prefix, keys, verbs)[t].handler.key == keys[j]
    decreases j
  {
    var r := Planned(args, meta, cls, prefix, keys, verbs);
    var rest := Planned(args, meta, cls, prefix, keys[1..], verbs);
    assert !RouteRaises(args, meta, cls, keys[0]);
    var head := PlannedFor(args, meta, cls, prefix, keys[0], verbs);
    assert r == head + rest;
    if j == 0 {
      assert head == [RouteOf(Reverse(args[Member(cls, keys[0])]), meta, cls, prefix, keys[0])];
      t := 0;
    } else {
      assert keys[j] == keys[1..][j - 1];
      var u := PlannedHasEveryServedVerb(args, meta, cls, prefix, keys[1..], verbs, j - 1);
      assert r[|head| + u] == rest[u];
      t := u + |head|;
    }
  }

  /** With distinct method names none of which raises, the `routes` loop
      appends exactly the planned routes. */
  lemma {:induction false} AddRoutesRegistersPlanned(w: Wiring, orig: map<Member, seq<Binding>>, meta: Snapshot, cls: ClassId,
                                                     prefix: string, keys: seq<string>, verbs: set<string>)
    requires forall i, j :: 0 <= i < j < |keys| ==> keys[i] != keys[j]
    requires NoneRaises(orig, meta, cls, keys)
    requires forall i :: 0 <= i < |keys| ==> Member(cls, keys[i]) in w.arguments && Member(cls, keys[i]) in orig &&
                                             w.arguments[Member(cls, keys[i])] == orig[Member(cls, keys[i])]
    ensures var r := AddRoutes(w, meta, cls, prefix, keys, verbs);
            !r.threw && r.state.routes == w.routes + Planned(orig, meta, cls, prefix, keys, verbs)
    decreases |keys|
  {
    if keys == [] {
      assert w.routes + [] == w.routes;
    } else {
      var s := AddRoute(w, meta, cls, prefix, keys[0], verbs);
      var head := PlannedFor(orig, meta, cls, prefix, keys[0], verbs);
      var rest := Planned(orig, meta, cls, prefix, keys[1..], verbs);
      AddRouteRegistersPlannedFor(w, orig, meta, cls, prefix, keys[0], verbs);
      forall i | 0 <= i < |keys| - 1
        ensures Member(cls, keys[1..][i]) in s.state.arguments && Member(cls, keys[1..][i]) in orig &&
                s.state.arguments[Member(cls, keys[1..][i])] == orig[Member(cls, keys[1..][i])]
      {
        assert keys[1..][i] == keys[i + 1] != keys[0];
      }
      AddRoutesRegistersPlanned(s.state, orig, meta, cls, prefix, keys[1..], verbs);
      AppendAssociates(w.routes, head, rest);
    }
  }

  /** One pass of the `routes` loop over a method that does not raise
      registers exactly the route `PlannedFor` describes. */
  lemma AddRouteRegistersPlannedFor(w: Wiring, orig: map<Member, seq<Binding>>, meta: Snapshot, cls: ClassId,
                                    prefix: string, key: string, verbs: set<string>)
    requires !RouteRaises(orig, meta, cls, key)
    requires Member(cls, key) in w.arguments && w.arguments[Member(cls, key)] == orig[Member(cls, key)]
    ensures var s := AddRoute(w, meta, cls, prefix, key, verbs);
            !s.threw && s.state.routes == w.routes + PlannedFor(orig, meta, cls, prefix, key, verbs)
  {
  }

  /** The `routes` loop raises as soon as any of its methods raises, whatever
      the methods before it did. */
  lemma {:induction false} AddRoutesRaises(w: Wiring, meta: Snapshot, cls: ClassId, prefix: string, keys: seq<string>,
                                           verbs: set<string>, j: nat)
    requires j < |keys| && RouteRaises(w.arguments, meta, cls, keys[j])
    ensures AddRoutes(w, meta, cls, prefix, keys, verbs).threw
    decreases j
  {
    var s := AddRoute(w, meta, cls, prefix, keys[0], verbs);
    if j > 0 && !s.threw {
      assert keys[1..][j - 1] == keys[j];
      assert Member(cls, keys[j]) in s.state.arguments <==> Member(cls, keys[j]) in w.arguments;
      AddRoutesRaises(s.state, meta, cls, prefix, keys[1..], verbs, j - 1);
    }
  }

  /** The `routes` loop completes when none of its methods raises. */
  lemma {:induction false} AddRoutesCompletes(w: Wiring, meta: Snapshot, cls: ClassId, prefix: string, keys: seq<string>, verbs: set<string>)
    requires NoneRaises(w.arguments, meta, cls, keys)
    ensures !AddRoutes(w, meta, cls, prefix, keys, verbs).threw
    decreases |keys|
  {
    if keys != [] {
      assert !RouteRaises(w.arguments, meta, cls, keys[0]);
      var s := AddRoute(w, meta, cls, prefix, keys[0], verbs);
      forall i | 0 <= i < |keys| - 1
        ensures !RouteRaises(s.state.arguments, meta, cls, keys[1..][i])
      {
        assert keys[1..][i] == keys[i + 1];
      }
      AddRoutesCompletes(s.state, meta, cls, prefix, keys[1..], verbs);
    }
  }

  /** With distinct method names none of which raises, the `routes` loop
      leaves every method's stored list reversed once. */
  lemma {:induction false} AddRoutesReversesEach(w: Wiring, orig: map<Member, seq<Binding>>, meta: Snapshot, cls: ClassId,
                                                 prefix: string, keys: seq<string>, verbs: set<string>)
    requires forall i, j :: 0 <= i < j < |keys| ==> keys[i] != keys[j]
    requires NoneRaises(orig, meta, cls, keys)
    requires forall i :: 0 <= i < |keys| ==> Member(cls, keys[i]) in w.arguments && Member(cls, keys[i]) in orig &&
                                             w.arguments[Member(cls, keys[i])] == orig[Member(cls, keys[i])]
    ensures var r := AddRoutes(w, meta, cls, prefix, keys, verbs);
            forall i :: 0 <= i < |keys| ==> Member(cls, keys[i]) in r.state.arguments &&
                                            r.state.arguments[Member(cls, keys[i])] == Reverse(orig[Member(cls, keys[i])])
    decreases |keys|
  {
    if keys != [] {
      var s := AddRoute(w, meta, cls, prefix, keys[0], verbs);
      assert !RouteRaises(orig, meta, cls, keys[0]);
      forall i | 0 <= i < |keys| - 1
        ensures Member(cls, keys[1..][i]) in s.state.arguments && Member(cls, keys[1..][i]) in orig &&
                s.state.arguments[Member(cls, keys[1..][i])] == orig[Member(cls, keys[1..][i])] &&
                !RouteRaises(orig, meta, cls, keys[1..][i])
      {
        assert keys[1..][i] == keys[i + 1] != keys[0];
      }
      AddRoutesReversesEach(s.state, orig, meta, cls, prefix, keys[1..], verbs);
      var r := AddRoutes(s.state, meta, cls, prefix, keys[1..], verbs);
      AddRoutesOnlyTouchesKeys(s.state, meta, cls, prefix, keys[1..], verbs, Member(cls, keys[0]));
      forall i | 0 <= i < |keys|
        ensures Member(cls, keys[i]) in r.state.arguments && r.state.arguments[Member(cls, keys[i])] == Reverse(orig[Member(cls, keys[i])])
      {
        if i > 0 {
          assert keys[i] == keys[1..][i - 1];
        }
      }
    }
  }

  /** The `routes` loop leaves the stored list of a method it does not visit
      as it was. */
  lemma {:induction false} AddRoutesOnlyTouchesKeys(w: Wiring, meta: Snapshot, cls: ClassId, prefix: string, keys: seq<string>,
                                                    verbs: set<string>, m: Member)
    requires m.cls != cls || m.key !in keys
    ensures var r := AddRoutes(w, meta, cls, prefix, keys, verbs);
            (m in r.state.arguments <==> m in w.arguments) &&
            (m in w.arguments ==> r.state.arguments[m] == w.arguments[m])
    decreases |keys|
  {
    if keys != [] {
      var s := AddRoute(w, meta, cls, prefix, keys[0], verbs);
      if !s.threw {
        assert m.key !in keys[1..] || m.cls != cls by {
          if m.key in keys[1..] {
            assert m.key in keys;
          }
        }
        AddRoutesOnlyTouchesKeys(s.state, meta, cls, prefix, keys[1..], verbs, m);
      }
    }
  }

  /** For a controller whose methods are mapped once each, what a request sees
      through the store is what the route was registered with: each new
      route's closure reads the list the route was built from. */
  lemma ClosuresSeeRegisteredBindings(w: Wiring, orig: map<Member, seq<Binding>>, meta: Snapshot, cls: ClassId,
                                      prefix: string, keys: seq<string>, verbs: set<string>)
    requires forall i, j :: 0 <= i < j < |keys| ==> keys[i] != keys[j]
    requires NoneRaises(orig, meta, cls, keys)
    requires forall i :: 0 <= i < |keys| ==> Member(cls, keys[i]) in w.arguments && Member(cls, keys[i]) in orig &&
                                             w.arguments[Member(cls, keys[i])] == orig[Member(cls, keys[i])]
    ensures var r := AddRoutes(w, meta, cls, prefix, keys, verbs);
            forall j :: |w.routes| <= j < |r.state.routes| ==>
              Bound(r.state.routes[j].handler, r.state.arguments) == r.state.routes[j].handler
  {
    var r := AddRoutes(w, meta, cls, prefix, keys, verbs);
    var planned := Planned(orig, meta, cls, prefix, keys, verbs);
    AddRoutesRegistersPlanned(w, orig, meta, cls, prefix, keys, verbs);
    AddRoutesReversesEach(w, orig, meta, cls, prefix, keys, verbs);
    forall j | |w.routes| <= j < |r.state.routes|
      ensures Bound(r.state.routes[j].handler, r.state.arguments) == r.state.routes[j].handler
    {
      assert r.state.routes[j] == planned[j - |w.routes|];
      var i := PlannedRouteAt(orig, meta, cls, prefix, keys, verbs, j - |w.routes|);
    }
  }

  /** A method mapped twice (two mapping decorators) is listed twice. Each
      pass reverses the one stored array in place, and both closures hold that
      array, so after the second pass both routes hand the handler its
      bindings in stored order (for a fully decorated method, last parameter
      first), not in parameter order. */
  lemma {:induction false} MappedTwiceSharesStoredList(w: Wiring, meta: Snapshot, cls: ClassId, prefix: string, key: string, verbs: set<string>)
    requires !RouteRaises(w.arguments, meta, cls, key)
    requires ServedVerb(meta, cls, key, verbs)
    ensures var r := AddRoutes(w, meta, cls, prefix, [key, key], verbs);
            var bs := w.arguments[Member(cls, key)];
            !r.threw && |r.state.routes| == |w.routes| + 2 &&
            r.state.routes[|w.routes|].handler.key == key && r.state.routes[|w.routes| + 1].handler.key == key &&
            Member(cls, key) in r.state.arguments && r.state.arguments[Member(cls, key)] == bs &&
            Bound(r.state.routes[|w.routes|].handler, r.state.arguments).bindings == bs &&
            Bound(r.state.routes[|w.routes| + 1].handler, r.state.arguments).bindings == bs
  {
    var bs := w.arguments[Member(cls, key)];
    ReverseTwice(bs);
    assert [key, key][1..] == [key] && [key][1..] == [];
    var s1 := AddRoute(w, meta, cls, prefix, key, verbs);
    assert s1.state.arguments[Member(cls, key)] == Reverse(bs);
    assert !s1.threw && s1.state.routes == w.routes + [s1.state.routes[|w.routes|]];
    assert s1.state.routes[|w.routes|].handler.cls == cls;
    var s2 := AddRoute(s1.state, meta, cls, prefix, key, verbs);
    assert !s2.threw && s2.state.routes == s1.state.routes + [s2.state.routes[|w.routes| + 1]];
    assert s2.state.routes[|w.routes| + 1].handler.cls == cls;
    assert AddRoutes(s1.state, meta, cls, prefix, [key], verbs) == s2;
  }
}
