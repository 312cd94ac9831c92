/** The decorator metadata of src/Controller.ts. The Reflect metadata store is
    a class with one map per metadata key: class-level keys are indexed by the
    class, method-level keys by the (class, property key) pair. The prototype
    of a class and its instances read the same entries, so both are one
    subject here. */
module Metadata {
  import opened Wrappers
  import opened Paths

  type ClassId = nat
  type MiddlewareId = nat

  /** A JavaScript value as far as dispatch needs to tell values apart. */
  datatype Value =
    | Undefined
    | Text(text: string)
    | RequestObject
    | ResponseObject
    | NextCallback
    | Instance(cls: ClassId, fields: map<string, Value>)
    | Opaque(id: nat)

  /** A parameter type recorded under "design:paramtypes": the class and the
      fields its constructor initialises. */
  datatype Shape = Shape(cls: ClassId, defaults: map<string, Value>)

  /** A decorated method: the (target, propertyKey) metadata subject. */
  datatype Member = Member(cls: ClassId, key: string)

  /** The `type` of an argument binding. */
  datatype ArgKind = RequestArg | ResponseArg | VariableArg | NextArg | BodyArg

  /** One `{ index, type, name }` record pushed by an argument decorator. */
  datatype Binding = Binding(index: nat, kind: ArgKind, name: Option<string>)

  /** Options stored under "routeOptions"; a `None` verb is an `undefined` method. */
  datatype RouteOptions = RouteOptions(route: string, verb: Option<string>)

  /** How an options object passed to RequestMapping carries `method`. */
  datatype MethodProperty = Missing | ExplicitlyUndefined | Present(verb: string)

  /** The two overloads of RequestMapping. */
  datatype Mapping =
    | RouteAndMethod(route: string, verb: Option<string>)
    | OptionsObject(route: string, methodProperty: MethodProperty)

  /** The options RequestMapping stores (lines 84-88). The string overload
      falls back to "GET" for a missing or empty (falsy) verb; the object
      overload spreads the caller's object over `{ method: "GET" }`, so only a
      missing `method` property takes the default. */
  function ResolveOptions(m: Mapping): (o: RouteOptions)
    ensures o.route == m.route
    ensures m.RouteAndMethod? ==> o.verb.Some? && o.verb.value != ""
    ensures m.RouteAndMethod? && m.verb.Some? && m.verb.value != "" ==> o.verb == m.verb
    ensures m.RouteAndMethod? && (m.verb.None? || m.verb == Some("")) ==> o.verb == Some("GET")
    ensures m.OptionsObject? && m.methodProperty.Missing? ==> o.verb == Some("GET")
    ensures m.OptionsObject? && m.methodProperty.Present? ==> o.verb == Some(m.methodProperty.verb)
    ensures o.verb.None? <==> m.OptionsObject? && m.methodProperty.ExplicitlyUndefined?
  {
    match m
    case RouteAndMethod(route, verb) =>
      RouteOptions(route, Some(if verb.None? || verb.value == "" then "GET" else verb.value))
    case OptionsObject(route, p) =>
      RouteOptions(route, match p
                          case Missing => Some("GET")
                          case ExplicitlyUndefined => None
                          case Present(v) => Some(v))
  }

  /** The name `Parameter(parameter)` registers: the argument unless it is
      missing or empty (falsy), else the property key (line 108). */
  function TransformName(parameter: Option<string>, key: string): (name: string)
    ensures parameter.Some? && parameter.value != "" ==> name == parameter.value
    ensures parameter.None? || parameter.value == "" ==> name == key
  {
    if parameter.Some? && parameter.value != "" then parameter.value else key
  }

  /** `Reflect.getMetadata(...) || []` for list-valued keys. */
  function ListOr<K, V>(m: map<K, seq<V>>, k: K): seq<V> {
    if k in m then m[k] else []
  }

  /** A snapshot of every metadata key the model reads. */
  datatype Snapshot = Snapshot(
    controllers: map<ClassId, string>,
    routeArguments: map<Member, seq<Binding>>,
    routeMethods: map<ClassId, seq<string>>,
    routeOptions: map<Member, RouteOptions>,
    routeMiddlewares: map<Member, seq<MiddlewareId>>,
    routeParameters: map<ClassId, seq<string>>,
    routeParameter: map<Member, string>,
    paramTypes: map<Member, seq<Shape>>)

  /** What the decorators guarantee of the store: every marked class has a
      prefix `Controller` accepted, every listed route method has options, and
      every listed parameter method has a transform name. */
  ghost predicate Consistent(s: Snapshot) {
    (forall c :: c in s.controllers ==> CheckPrefix(s.controllers[c]).Pass?) &&
    (forall c, k :: c in s.routeMethods && k in s.routeMethods[c] ==> Member(c, k) in s.routeOptions) &&
    (forall c, k :: c in s.routeParameters && k in s.routeParameters[c] ==> Member(c, k) in s.routeParameter)
  }

  class MetadataStore {
    /** "expressController" together with the prototype's `route`: a class is
        marked exactly when it has an entry, whose value is its prefix. */
    var controllers: map<ClassId, string>
    var routeArguments: map<Member, seq<Binding>>
    var routeMethods: map<ClassId, seq<string>>
    var routeOptions: map<Member, RouteOptions>
    var routeMiddlewares: map<Member, seq<MiddlewareId>>
    var routeParameters: map<ClassId, seq<string>>
    var routeParameter: map<Member, string>
    /** "design:paramtypes", emitted by the TypeScript compiler. */
    const paramTypes: map<Member, seq<Shape>>

    function Current(): Snapshot
      reads this
    {
      Snapshot(controllers, routeArguments, routeMethods, routeOptions,
               routeMiddlewares, routeParameters, routeParameter, paramTypes)
    }

    ghost predicate Valid()
      reads this
    {
      Consistent(Current())
    }

    constructor (types: map<Member, seq<Shape>>)
      ensures Valid()
      ensures Current() == Snapshot(map[], map[], map[], map[], map[], map[], map[], types)
    {
      controllers, routeArguments, routeMethods, routeOptions := map[], map[], map[], map[];
      routeMiddlewares, routeParameters, routeParameter := map[], map[], map[];
      paramTypes := types;
    }

    /** `Controller(route)` applied to class `cls` (lines 6-14): marks the class
        and records its prefix, or raises without touching the store. */
    method MarkController(cls: ClassId, route: string) returns (r: Outcome<PrefixError>)
      requires Valid()
      modifies this`controllers
      ensures Valid()
      ensures r == CheckPrefix(route)
      ensures controllers == if r.Pass? then old(controllers)[cls := route] else old(controllers)
    {
      r := CheckPrefix(route);
      if r.Pass? {
        controllers := controllers[cls := route];
      }
    }

    /** `decorator(type, target, propertyKey, parameterIndex, name)` (lines
        19-23), which RequestBody, HTTPRequest, HTTPResponse, Next and
        PathVariable call with their own `type`. */
    method AddArgument(m: Member, index: nat, kind: ArgKind, name: Option<string>)
      requires Valid()
      modifies this`routeArguments
      ensures Valid()
      ensures routeArguments == old(routeArguments)[m := ListOr(old(routeArguments), m) + [Binding(index, kind, name)]]
    {
      var meta := ListOr(routeArguments, m);
      meta := meta + [Binding(index, kind, name)];
      routeArguments := routeArguments[m := meta];
    }

    /** `RequestMapping(routeOrOptions, method)` applied to a method (lines
        76-92); GetMapping and its siblings pass their verb as `method`. */
    method RequestMapping(m: Member, mapping: Mapping)
      requires Valid()
      modifies this`routeMethods, this`routeOptions
      ensures Valid()
      ensures routeMethods == old(routeMethods)[m.cls := ListOr(old(routeMethods), m.cls) + [m.key]]
      ensures routeOptions == old(routeOptions)[m := ResolveOptions(mapping)]
    {
      var programList := ListOr(routeMethods, m.cls);
      programList := programList + [m.key];
      routeMethods := routeMethods[m.cls := programList];
      routeOptions := routeOptions[m := ResolveOptions(mapping)];
    }

    /** `Middleware(...functions)` applied to a method (lines 94-100): with no
        function it raises a RangeError (`ok` is false) and stores nothing;
        otherwise it replaces the method's middleware list. */
    method Middleware(m: Member, functions: seq<MiddlewareId>) returns (ok: bool)
      requires Valid()
      modifies this`routeMiddlewares
      ensures Valid()
      ensures ok <==> |functions| > 0
      ensures routeMiddlewares == if ok then old(routeMiddlewares)[m := functions] else old(routeMiddlewares)
    {
      if |functions| == 0 {
        return false;
      }
      routeMiddlewares := routeMiddlewares[m := functions];
      return true;
    }

    /** `Parameter(parameter)` applied to a method (lines 102-111). */
    method Parameter(m: Member, parameter: Option<string>)
      requires Valid()
      modifies this`routeParameters, this`routeParameter
      ensures Valid()
      ensures routeParameters == old(routeParameters)[m.cls := ListOr(old(routeParameters), m.cls) + [m.key]]
      ensures routeParameter == old(routeParameter)[m := TransformName(parameter, m.key)]
    {
      var programList := ListOr(routeParameters, m.cls);
      programList := programList + [m.key];
      routeParameters := routeParameters[m.cls := programList];
      routeParameter := routeParameter[m := TransformName(parameter, m.key)];
    }
  }

  /** `s` in reverse order, as `.reverse()` leaves an array. */
  function Reverse<T>(s: seq<T>): (r: seq<T>)
    ensures |r| == |s|
    ensures forall i :: 0 <= i < |s| ==> r[i] == s[|s| - 1 - i]
  {
    if s == [] then [] else Reverse(s[1..]) + [s[0]]
  }

  /** TypeScript applies parameter decorators from the last parameter to the
      first, so a fully decorated method's list holds indices n-1, ..., 0;
      reversing it, as `init` does, puts every binding at its parameter index. */
  lemma {:induction false} ReversedBindingsFollowParameters(bs: seq<Binding>)
    requires forall i :: 0 <= i < |bs| ==> bs[i].index == |bs| - 1 - i
    ensures forall i :: 0 <= i < |bs| ==> Reverse(bs)[i].index == i
  {
    forall i | 0 <= i < |bs|
      ensures Reverse(bs)[i].index == i
    {
      assert Reverse(bs)[i] == bs[|bs| - 1 - i];
    }
  }

  /** Reversing twice restores the list, so a list that `init` reverses in
      place twice is back in its stored order. */
  lemma {:induction false} ReverseTwice<T>(s: seq<T>)
    ensures Reverse(Reverse(s)) == s
  {
    var r := Reverse(Reverse(s));
    forall i | 0 <= i < |s|
      ensures r[i] == s[i]
    {
      assert r[i] == Reverse(s)[|s| - 1 - i];
    }
  }
}
