/** The dispatch closure that `init` registers for every route (lines
    172-201 of src/Controller.ts) and `makeBody` (lines 206-210). The request
    reaches the closure as its path variables, in `Object.entries` order, and
    its parsed body; transforms and the handler are named, not run: a transform
    call is an oracle that yields the new value or `None` when it throws, and
    a successful dispatch reports the handler it invokes with its arguments. */
module Dispatch {
  import opened Wrappers
  import opened Metadata

  /** One `[name, value]` pair of the path-variable snapshot. */
  datatype Entry = Entry(name: string, value: Value)

  /** A transform registered by `Parameter`: method `key` of the controller
      instance of class `cls`, bound to that instance. */
  datatype Transform = Transform(cls: ClassId, key: string)

  /** What the closure captures when it is registered. */
  datatype Closure = Closure(
    cls: ClassId,
    key: string,
    path: string,
    bindings: seq<Binding>,
    paramTypes: Option<seq<Shape>>)

  /** The ways a request fails before its handler runs. */
  datatype DispatchError =
    | MissingPathVariables(path: string)  // the Error raised on line 177
    | TransformThrew(name: string)        // a transform raised
    | NoSuchVariable(name: string)        // `find` gave undefined, so `[1]` raises a TypeError
    | PositionalPastEnd                   // `routeParams[routeParam++]` is undefined
    | NoBodyType(index: nat)              // no recorded parameter type: `new undefined()` raises

  datatype Dispatched =
    | Invoked(cls: ClassId, key: string, args: seq<Value>)
    | Failed(error: DispatchError)

  /** Calling a transform with the request, the response and a raw value. */
  type TransformCall = (Transform, Value) -> Option<Value>

  /** A variable binding with a name: `arg.type === "variable" && arg.name`,
      so the empty name counts as no name. */
  predicate IsNamed(b: Binding) {
    b.kind == VariableArg && b.name.Some? && b.name.value != ""
  }

  /** A variable binding served from the positional counter. */
  predicate IsPositional(b: Binding) {
    b.kind == VariableArg && !IsNamed(b)
  }

  /** `routeArgs.filter(r => r.type === "variable").length`: named and
      unnamed variable bindings alike. */
  function VariableCount(bs: seq<Binding>): (n: nat)
    ensures n <= |bs|
  {
    if bs == [] then 0
    else (if bs[0].kind == VariableArg then 1 else 0) + VariableCount(bs[1..])
  }

  /** The number of bindings that advance the positional counter. */
  function PositionalCount(bs: seq<Binding>): (n: nat)
    ensures n <= VariableCount(bs)
  {
    if bs == [] then 0
    else (if IsPositional(bs[0]) then 1 else 0) + PositionalCount(bs[1..])
  }

  /** `routeParams.find(p => p[0] === name)`, as the index of the entry found. */
  function FindEntry(snap: seq<Entry>, name: string): (r: Option<nat>)
    ensures r.Some? ==> r.value < |snap| && snap[r.value].name == name
    ensures r.Some? ==> forall j :: 0 <= j < r.value ==> snap[j].name != name
    ensures r.None? <==> forall j :: 0 <= j < |snap| ==> snap[j].name != name
  {
    if snap == [] then None
    else if snap[0].name == name then Some(0)
    else match FindEntry(snap[1..], name)
      case None => None
      case Some(i) => Some(i + 1)
  }

  /** The fields after assigning every body entry in order. */
  function Assign(fields: map<string, Value>, body: seq<Entry>): (r: map<string, Value>)
    ensures fields.Keys <= r.Keys
    ensures forall i :: 0 <= i < |body| ==> body[i].name in r
    decreases |body|
  {
    if body == [] then fields
    else
      assert forall i :: 1 <= i < |body| ==> body[i] == body[1..][i - 1];
      Assign(fields[body[0].name := body[0].value], body[1..])
  }

  function NameSet(body: seq<Entry>): set<string> {
    set i | 0 <= i < |body| :: body[i].name
  }

  /** No entry after position `i` has the name of entry `i`. */
  predicate IsLastOf(body: seq<Entry>, i: nat)
    requires i < |body|
  {
    forall j :: i < j < |body| ==> body[j].name != body[i].name
  }

  /** Assigning a body: the object gains every body key, the last entry for a
      key decides its value, and a constructor field the body does not name
      keeps its initial value. */
  lemma {:induction false} AssignedFields(fields: map<string, Value>, body: seq<Entry>)
    ensures Assign(fields, body).Keys == fields.Keys + NameSet(body)
    ensures forall k :: k in fields && k !in NameSet(body) ==> Assign(fields, body)[k] == fields[k]
    ensures forall i :: 0 <= i < |body| && IsLastOf(body, i) ==> Assign(fields, body)[body[i].name] == body[i].value
    decreases |body|
  {
    if body != [] {
      var e, rest := body[0], body[1..];
      var fields' := fields[e.name := e.value];
      AssignedFields(fields', rest);
      assert NameSet(body) == {e.name} + NameSet(rest) by {
        forall k | k in NameSet(body) ensures k in {e.name} + NameSet(rest) {
          var i :| 0 <= i < |body| && body[i].name == k;
          if i > 0 { assert rest[i - 1].name == k; }
        }
        forall k | k in NameSet(rest) ensures k in NameSet(body) {
          var i :| 0 <= i < |rest| && rest[i].name == k;
          assert body[i + 1].name == k;
        }
      }
      forall i | 0 <= i < |body| && IsLastOf(body, i)
        ensures Assign(fields, body)[body[i].name] == body[i].value
      {
        if i > 0 {
          assert rest[i - 1] == body[i];
          assert IsLastOf(rest, i - 1) by {
            forall j | i - 1 < j < |rest| ensures rest[j].name != rest[i - 1].name {
              assert rest[j] == body[j + 1];
            }
          }
        }
      }
    }
  }

  /** `makeBody(clazz, body)`: a fresh instance of the parameter's class with
      every body entry copied onto it, in order. */
  method MakeBody(shape: Shape, body: seq<Entry>) returns (obj: Value)
    ensures obj == Instance(shape.cls, Assign(shape.defaults, body))
    ensures obj.fields.Keys == shape.defaults.Keys + NameSet(body)
    ensures forall i :: 0 <= i < |body| && IsLastOf(body, i) ==> obj.fields[body[i].name] == body[i].value
  {
    var fields := shape.defaults;
    for i := 0 to |body|
      invariant Assign(shape.defaults, body) == Assign(fields, body[i..])
    {
      assert body[i..][1..] == body[i + 1..];
      fields := fields[body[i].name := body[i].value];
    }
    assert body[|body|..] == [];
    obj := Instance(shape.cls, fields);
    AssignedFields(shape.defaults, body);
  }

  function Prepend<T>(pre: seq<T>, r: Result<seq<T>, DispatchError>): Result<seq<T>, DispatchError> {
    match r
    case Ok(s) => Ok(pre + s)
    case Err(e) => Err(e)
  }

  lemma PrependPrepend<T>(a: seq<T>, b: seq<T>, r: Result<seq<T>, DispatchError>)
    ensures Prepend(a, Prepend(b, r)) == Prepend(a + b, r)
  {
    if r.Ok? {
      assert a + (b + r.value) == (a + b) + r.value;
    }
  }

  lemma PrependNothing<T>(r: Result<seq<T>, DispatchError>)
    ensures Prepend([], r) == r
  {
    if r.Ok? {
      assert [] + r.value == r.value;
    }
  }

  /** One iteration of the transform loop (lines 180-184). */
  function TransformEntry(e: Entry, transforms: map<string, Transform>, call: TransformCall): (r: Result<Entry, DispatchError>)
    ensures e.name !in transforms ==> r == Ok(e)
    ensures r.Ok? ==> r.value.name == e.name
    ensures r.Err? <==> e.name in transforms && call(transforms[e.name], e.value).None?
    ensures r.Err? ==> r.error == TransformThrew(e.name)
  {
    if e.name !in transforms then Ok(e)
    else match call(transforms[e.name], e.value)
      case None => Err(TransformThrew(e.name))
      case Some(v) => Ok(Entry(e.name, v))
  }

  /** The snapshot after the transform loop, or the first transform's error. */
  function ApplyTransforms(ps: seq<Entry>, transforms: map<string, Transform>, call: TransformCall): (r: Result<seq<Entry>, DispatchError>)
    ensures r.Ok? ==> |r.value| == |ps|
    ensures r.Err? ==> r.error.TransformThrew?
  {
    if ps == [] then Ok([])
    else match TransformEntry(ps[0], transforms, call)
      case Err(e) => Err(e)
      case Ok(head) => Prepend([head], ApplyTransforms(ps[1..], transforms, call))
  }

  /** The value `routeArgs.map` yields for one binding (lines 187-197), with
      `next` the current value of the positional counter. */
  function ArgValue(b: Binding, snap: seq<Entry>, next: nat, types: Option<seq<Shape>>, body: seq<Entry>): (r: Result<Value, DispatchError>)
    ensures r.Err? <==> (IsNamed(b) && FindEntry(snap, b.name.value).None?) ||
                        (b.kind == BodyArg && (types.None? || b.index >= |types.value|)) ||
                        (IsPositional(b) && next >= |snap|)
    ensures r.Err? ==> !r.error.MissingPathVariables? && !r.error.TransformThrew?
    ensures b.kind in {RequestArg, ResponseArg, NextArg} ==> r.Ok?
  {
    if IsNamed(b) then
      match FindEntry(snap, b.name.value)
      case None => Err(NoSuchVariable(b.name.value))
      case Some(i) => Ok(snap[i].value)
    else
      match b.kind
      case RequestArg => Ok(RequestObject)
      case BodyArg =>
        if types.None? || b.index >= |types.value| then Err(NoBodyType(b.index))
        else Ok(Instance(types.value[b.index].cls, Assign(types.value[b.index].defaults, body)))
      case ResponseArg => Ok(ResponseObject)
      case NextArg => Ok(NextCallback)
      case VariableArg => if next < |snap| then Ok(snap[next].value) else Err(PositionalPastEnd)
  }

  /** The argument list for the handler, or the first binding's error. */
  function BuildArgs(bs: seq<Binding>, snap: seq<Entry>, next: nat, types: Option<seq<Shape>>, body: seq<Entry>): (r: Result<seq<Value>, DispatchError>)
    ensures r.Ok? ==> |r.value| == |bs|
    ensures r.Err? ==> !r.error.MissingPathVariables? && !r.error.TransformThrew?
    decreases |bs|
  {
    if bs == [] then Ok([])
    else match ArgValue(bs[0], snap, next, types, body)
      case Err(e) => Err(e)
      case Ok(v) => Prepend([v], BuildArgs(bs[1..], snap, if IsPositional(bs[0]) then next + 1 else next, types, body))
  }

  /** What one request does: the count check, the transforms, the arguments. */
  function DispatchSpec(c: Closure, transforms: map<string, Transform>, params: seq<Entry>, call: TransformCall, body: seq<Entry>): (r: Dispatched)
    ensures VariableCount(c.bindings) > |params| <==> r == Failed(MissingPathVariables(c.path))
    ensures r.Invoked? ==> r.cls == c.cls && r.key == c.key && |r.args| == |c.bindings|
  {
    if VariableCount(c.bindings) > |params| then Failed(MissingPathVariables(c.path))
    else match ApplyTransforms(params, transforms, call)
      case Err(e) => Failed(e)
      case Ok(snap) =>
        match BuildArgs(c.bindings, snap, 0, c.paramTypes, body)
        case Err(e) => Failed(e)
        case Ok(args) => Invoked(c.cls, c.key, args)
  }

  /** The transform loop fails exactly when some path variable with a
      registered transform has a throwing one; otherwise it keeps every name
      and position, stores each transform's result unconditionally, and leaves
      every other value as it was. */
  lemma {:induction false} TransformedSnapshot(ps: seq<Entry>, transforms: map<string, Transform>, call: TransformCall)
    ensures ApplyTransforms(ps, transforms, call).Err? ==> ApplyTransforms(ps, transforms, call).error.TransformThrew?
    ensures ApplyTransforms(ps, transforms, call).Ok? <==>
      forall i :: 0 <= i < |ps| && ps[i].name in transforms ==> call(transforms[ps[i].name], ps[i].value).Some?
    ensures ApplyTransforms(ps, transforms, call).Ok? ==>
      var snap := ApplyTransforms(ps, transforms, call).value;
      |snap| == |ps| &&
      forall i :: 0 <= i < |ps| ==>
        snap[i].name == ps[i].name &&
        (ps[i].name in transforms ==> call(transforms[ps[i].name], ps[i].value) == Some(snap[i].value)) &&
        (ps[i].name !in transforms ==> snap[i] == ps[i])
  {
    if ps != [] {
      TransformedSnapshot(ps[1..], transforms, call);
      assert forall i :: 1 <= i < |ps| ==> ps[1..][i - 1] == ps[i];
    }
  }

  /** Splitting off the first binding of a prefix of the bindings. */
  lemma PositionalCountOfPrefix(bs: seq<Binding>, i: nat)
    requires 1 <= i <= |bs|
    ensures PositionalCount(bs[..i]) == (if IsPositional(bs[0]) then 1 else 0) + PositionalCount(bs[1..][..i - 1])
  {
    assert bs[..i][0] == bs[0];
    assert bs[..i][1..] == bs[1..][..i - 1];
  }

  lemma {:induction false} ArgAt(bs: seq<Binding>, snap: seq<Entry>, next: nat, types: Option<seq<Shape>>, body: seq<Entry>, i: nat)
    requires BuildArgs(bs, snap, next, types, body).Ok?
    requires i < |bs|
    ensures i < |BuildArgs(bs, snap, next, types, body).value|
    ensures ArgValue(bs[i], snap, next + PositionalCount(bs[..i]), types, body) ==
            Ok(BuildArgs(bs, snap, next, types, body).value[i])
    decreases i
  {
    var next' := if IsPositional(bs[0]) then next + 1 else next;
    var head := ArgValue(bs[0], snap, next, types, body);
    var tail := BuildArgs(bs[1..], snap, next', types, body);
    assert head.Ok? && tail.Ok?;
    assert BuildArgs(bs, snap, next, types, body).value == [head.value] + tail.value;
    if i == 0 {
      assert bs[..0] == [];
    } else {
      ArgAt(bs[1..], snap, next', types, body, i - 1);
      PositionalCountOfPrefix(bs, i);
      assert bs[i] == bs[1..][i - 1];
    }
  }

  /** Binding `m` of `bs` is binding `m - 1` of its tail, with the counter
      already past the first binding. */
  lemma ArgValueOfTail(bs: seq<Binding>, snap: seq<Entry>, next: nat, types: Option<seq<Shape>>, body: seq<Entry>, m: nat)
    requires 1 <= m < |bs|
    ensures ArgValue(bs[m], snap, next + PositionalCount(bs[..m]), types, body) ==
            ArgValue(bs[1..][m - 1], snap, (if IsPositional(bs[0]) then next + 1 else next) + PositionalCount(bs[1..][..m - 1]), types, body)
  {
    PositionalCountOfPrefix(bs, m);
    assert bs[m] == bs[1..][m - 1];
  }

  /** Every binding before position `i` yields a value. */
  ghost predicate OkBefore(bs: seq<Binding>, snap: seq<Entry>, next: nat, types: Option<seq<Shape>>, body: seq<Entry>, i: nat)
    requires i <= |bs|
  {
    forall j :: 0 <= j < i ==> ArgValue(bs[j], snap, next + PositionalCount(bs[..j]), types, body).Ok?
  }

  /** Bindings that yield values before position `i - 1` of the tail, after
      a first binding that yields one, are bindings that yield values before
      position `i`. */
  lemma PrefixOkOfTail(bs: seq<Binding>, snap: seq<Entry>, next: nat, types: Option<seq<Shape>>, body: seq<Entry>, i: nat)
    requires 1 <= i <= |bs|
    requires ArgValue(bs[0], snap, next, types, body).Ok?
    requires OkBefore(bs[1..], snap, if IsPositional(bs[0]) then next + 1 else next, types, body, i - 1)
    ensures OkBefore(bs, snap, next, types, body, i)
  {
    assert bs[..0] == [];
    forall m | 0 <= m < i
      ensures ArgValue(bs[m], snap, next + PositionalCount(bs[..m]), types, body).Ok?
    {
      if m > 0 {
        ArgValueOfTail(bs, snap, next, types, body, m);
      }
    }
  }

  lemma {:induction false} ArgsFailAt(bs: seq<Binding>, snap: seq<Entry>, next: nat, types: Option<seq<Shape>>, body: seq<Entry>)
    returns (i: nat)
    requires BuildArgs(bs, snap, next, types, body).Err?
    ensures i < |bs|
    ensures ArgValue(bs[i], snap, next + PositionalCount(bs[..i]), types, body) == Err(BuildArgs(bs, snap, next, types, body).error)
    ensures OkBefore(bs, snap, next, types, body, i)
    decreases |bs|
  {
    var next' := if IsPositional(bs[0]) then next + 1 else next;
    var head := ArgValue(bs[0], snap, next, types, body);
    if head.Err? {
      assert bs[..0] == [] && PositionalCount(bs[..0]) == 0;
      assert BuildArgs(bs, snap, next, types, body) == Err(head.error);
      i := 0;
    } else {
      var j := ArgsFailAt(bs[1..], snap, next', types, body);
      i := j + 1;
      PositionalCountOfPrefix(bs, i);
      assert bs[i] == bs[1..][j];
      assert next + PositionalCount(bs[..i]) == next' + PositionalCount(bs[1..][..j]);
      PrefixOkOfTail(bs, snap, next, types, body, i);
    }
  }

  /** Every argument of a successful build is what its binding yields. */
  lemma {:induction false} ArgsAllAt(bs: seq<Binding>, snap: seq<Entry>, next: nat, types: Option<seq<Shape>>, body: seq<Entry>)
    requires BuildArgs(bs, snap, next, types, body).Ok?
    ensures var args := BuildArgs(bs, snap, next, types, body).value;
      |args| == |bs| &&
      forall i :: 0 <= i < |bs| ==> ArgValue(bs[i], snap, next + PositionalCount(bs[..i]), types, body) == Ok(args[i])
  {
    forall i | 0 <= i < |bs|
      ensures ArgValue(bs[i], snap, next + PositionalCount(bs[..i]), types, body) ==
              Ok(BuildArgs(bs, snap, next, types, body).value[i])
    {
      ArgAt(bs, snap, next, types, body, i);
    }
  }

  /** Argument building, one binding at a time: the list has one entry per
      binding, entry `i` is what binding `i` yields with the counter advanced
      past the positional bindings before it, and a failure is the error of
      the first binding that fails, every binding before it yielding a value. */
  lemma {:induction false} ArgsPerBinding(bs: seq<Binding>, snap: seq<Entry>, next: nat, types: Option<seq<Shape>>, body: seq<Entry>)
    ensures BuildArgs(bs, snap, next, types, body).Err? ==>
      exists i :: 0 <= i < |bs| &&
                  ArgValue(bs[i], snap, next + PositionalCount(bs[..i]), types, body) ==
                  Err(BuildArgs(bs, snap, next, types, body).error) &&
                  OkBefore(bs, snap, next, types, body, i)
    ensures BuildArgs(bs, snap, next, types, body).Ok? ==>
      var args := BuildArgs(bs, snap, next, types, body).value;
      |args| == |bs| &&
      forall i :: 0 <= i < |bs| ==> ArgValue(bs[i], snap, next + PositionalCount(bs[..i]), types, body) == Ok(args[i])
  {
    if BuildArgs(bs, snap, next, types, body).Ok? {
      ArgsAllAt(bs, snap, next, types, body);
    } else {
      var i := ArgsFailAt(bs, snap, next, types, body);
    }
  }

  /** The positional counter never runs past a snapshot that holds at least
      as many entries as the remaining positional bindings need. */
  lemma {:induction false} CounterStaysInSnapshot(bs: seq<Binding>, snap: seq<Entry>, next: nat, types: Option<seq<Shape>>, body: seq<Entry>)
    requires next + PositionalCount(bs) <= |snap|
    ensures BuildArgs(bs, snap, next, types, body) != Err(PositionalPastEnd)
    decreases |bs|
  {
    if bs != [] {
      CounterStaysInSnapshot(bs[1..], snap, if IsPositional(bs[0]) then next + 1 else next, types, body);
    }
  }

  /** Because the count check counts every variable binding, the TypeError of
      a positional binding past the end of the snapshot cannot happen. */
  lemma NeverPastSnapshot(c: Closure, transforms: map<string, Transform>, params: seq<Entry>, call: TransformCall, body: seq<Entry>)
    ensures DispatchSpec(c, transforms, params, call, body) != Failed(PositionalPastEnd)
  {
    TransformedSnapshot(params, transforms, call);
    if VariableCount(c.bindings) <= |params| && ApplyTransforms(params, transforms, call).Ok? {
      CounterStaysInSnapshot(c.bindings, ApplyTransforms(params, transforms, call).value, 0, c.paramTypes, body);
    }
  }

  /** What the handler receives when a request reaches it: one argument per
      binding, in binding order, where a named variable gets the first
      transformed entry of that name, the k-th unnamed variable gets
      transformed entry k, a body binding gets a fresh instance of its
      recorded type with the body copied on, and the request, response and
      next bindings get those objects. The request reaches the handler only if
      the path variables are at least as many as the variable bindings. */
  lemma {:induction false} DispatchArguments(c: Closure, transforms: map<string, Transform>, params: seq<Entry>, call: TransformCall, body: seq<Entry>)
    requires DispatchSpec(c, transforms, params, call, body).Invoked?
    ensures VariableCount(c.bindings) <= |params|
    ensures ApplyTransforms(params, transforms, call).Ok?
    ensures
      var d := DispatchSpec(c, transforms, params, call, body);
      var snap := ApplyTransforms(params, transforms, call).value;
      var bs := c.bindings;
      d.cls == c.cls && d.key == c.key && |d.args| == |bs| && |snap| == |params| &&
      forall i :: 0 <= i < |bs| ==>
        (IsNamed(bs[i]) ==>
           FindEntry(snap, bs[i].name.value).Some? &&
           d.args[i] == snap[FindEntry(snap, bs[i].name.value).value].value) &&
        (IsPositional(bs[i]) ==>
           PositionalCount(bs[..i]) < |snap| && d.args[i] == snap[PositionalCount(bs[..i])].value) &&
        (bs[i].kind == BodyArg ==>
           c.paramTypes.Some? && bs[i].index < |c.paramTypes.value| &&
           d.args[i] == Instance(c.paramTypes.value[bs[i].index].cls,
                                 Assign(c.paramTypes.value[bs[i].index].defaults, body))) &&
        (bs[i].kind == RequestArg ==> d.args[i] == RequestObject) &&
        (bs[i].kind == ResponseArg ==> d.args[i] == ResponseObject) &&
        (bs[i].kind == NextArg ==> d.args[i] == NextCallback)
  {
    TransformedSnapshot(params, transforms, call);
    var snap := ApplyTransforms(params, transforms, call).value;
    ArgsPerBinding(c.bindings, snap, 0, c.paramTypes, body);
  }

  /** With no transforms involved, two unnamed variable bindings take the two
      path variables in declaration order. */
  lemma PositionalInDeclarationOrder(c: Closure, transforms: map<string, Transform>, p0: Entry, p1: Entry, call: TransformCall, body: seq<Entry>)
    requires c.bindings == [Binding(0, VariableArg, None), Binding(1, VariableArg, None)]
    requires p0.name !in transforms && p1.name !in transforms
    ensures DispatchSpec(c, transforms, [p0, p1], call, body) == Invoked(c.cls, c.key, [p0.value, p1.value])
  {
    var bs := c.bindings;
    assert [p0, p1][1..] == [p1];
    assert bs[1..] == [bs[1]] && bs[1..][1..] == [];
    assert VariableCount(bs[1..]) == 1;
    assert VariableCount(bs) == 2;
    assert [p1][1..] == [] && [p1] + [] == [p1] && [p0] + [p1] == [p0, p1];
    assert TransformEntry(p1, transforms, call) == Ok(p1);
    assert ApplyTransforms([p1], transforms, call) == Ok([p1]);
    assert TransformEntry(p0, transforms, call) == Ok(p0);
    assert ApplyTransforms([p0, p1], transforms, call) == Ok([p0, p1]);
    var snap := [p0, p1];
    assert BuildArgs(bs[1..][1..], snap, 2, c.paramTypes, body) == Ok([]);
    assert ArgValue(bs[1], snap, 1, c.paramTypes, body) == Ok(p1.value);
    assert [p1.value] + [] == [p1.value] && [p0.value] + [p1.value] == [p0.value, p1.value];
    assert BuildArgs(bs[1..], snap, 1, c.paramTypes, body) == Ok([p1.value]);
    assert ArgValue(bs[0], snap, 0, c.paramTypes, body) == Ok(p0.value);
    assert BuildArgs(bs, snap, 0, c.paramTypes, body) == Ok([p0.value, p1.value]);
  }

  /** The count check counts named variables too: a named and an unnamed
      binding fail against a single path variable, even though the unnamed
      one alone would have found its value. */
  lemma CountCheckIncludesNamed(c: Closure, transforms: map<string, Transform>, p: Entry, call: TransformCall, body: seq<Entry>)
    requires c.bindings == [Binding(0, VariableArg, Some(p.name)), Binding(1, VariableArg, None)]
    ensures DispatchSpec(c, transforms, [p], call, body) == Failed(MissingPathVariables(c.path))
  {
    assert c.bindings[1..][1..] == [];
    assert VariableCount(c.bindings[1..]) == 1;
  }

  /** The first half of the closure (lines 173-184): the `Object.entries`
      snapshot as a fresh array whose entries the transforms overwrite in
      place; `params` stands for `request.params` and is never written. */
  method TransformSnapshot(params: seq<Entry>, transforms: map<string, Transform>, call: TransformCall)
    returns (r: Result<seq<Entry>, DispatchError>)
    ensures r == ApplyTransforms(params, transforms, call)
  {
    var routeParams := new Entry[|params|](i requires 0 <= i < |params| => params[i]);
    assert routeParams[..] == params;
    assert params[0..] == params && routeParams[..0] == [];
    PrependNothing(ApplyTransforms(params, transforms, call));
    for index := 0 to routeParams.Length
      invariant routeParams[index..] == params[index..]
      invariant ApplyTransforms(params, transforms, call) ==
                Prepend(routeParams[..index], ApplyTransforms(params[index..], transforms, call))
    {
      assert params[index..][0] == params[index] == routeParams[index];
      assert params[index..][1..] == params[index + 1..];
      ghost var prefix := routeParams[..index];
      var name := routeParams[index].name;
      if name in transforms {
        var result := call(transforms[name], routeParams[index].value);
        if result.None? {
          return Err(TransformThrew(name));
        }
        routeParams[index] := Entry(name, result.value);
      }
      assert routeParams[..index + 1] == prefix + [routeParams[index]];
      PrependPrepend(prefix, [routeParams[index]], ApplyTransforms(params[index + 1..], transforms, call));
    }
    assert routeParams[..] == routeParams[..routeParams.Length];
    assert params[routeParams.Length..] == [];
    assert routeParams[..] + [] == routeParams[..];
    return Ok(routeParams[..]);
  }

  /** The second half of the closure (lines 186-198): `routeArgs.map` with the
      `routeParam` counter. */
  method BuildArguments(c: Closure, snap: seq<Entry>, body: seq<Entry>) returns (r: Result<seq<Value>, DispatchError>)
    ensures r == BuildArgs(c.bindings, snap, 0, c.paramTypes, body)
  {
    var routeParam := 0;
    var args: seq<Value> := [];
    assert c.bindings[0..] == c.bindings;
    PrependNothing(BuildArgs(c.bindings, snap, 0, c.paramTypes, body));
    for k := 0 to |c.bindings|
      invariant BuildArgs(c.bindings, snap, 0, c.paramTypes, body) ==
                Prepend(args, BuildArgs(c.bindings[k..], snap, routeParam, c.paramTypes, body))
    {
      assert c.bindings[k..][1..] == c.bindings[k + 1..];
      var arg := c.bindings[k];
      assert c.bindings[k..][0] == arg;
      var v: Value;
      if IsNamed(arg) {
        var found := FindEntry(snap, arg.name.value);
        if found.None? {
          return Err(NoSuchVariable(arg.name.value));
        }
        v := snap[found.value].value;
      } else {
        match arg.kind
        case RequestArg =>
          v := RequestObject;
        case BodyArg =>
          if c.paramTypes.None? || arg.index >= |c.paramTypes.value| {
            return Err(NoBodyType(arg.index));
          }
          v := MakeBody(c.paramTypes.value[arg.index], body);
        case ResponseArg =>
          v := ResponseObject;
        case NextArg =>
          v := NextCallback;
        case VariableArg =>
          if routeParam >= |snap| {
            return Err(PositionalPastEnd);
          }
          v := snap[routeParam].value;
          routeParam := routeParam + 1;
      }
      PrependPrepend(args, [v], BuildArgs(c.bindings[k + 1..], snap, routeParam, c.paramTypes, body));
      args := args + [v];
    }
    assert c.bindings[|c.bindings|..] == [];
    assert args + [] == args;
    return Ok(args);
  }

  /** The dispatch closure: the count check, then the transforms, then the
      arguments, then the handler. */
  method Dispatch(c: Closure, transforms: map<string, Transform>, params: seq<Entry>, call: TransformCall, body: seq<Entry>)
    returns (d: Dispatched)
    ensures d == DispatchSpec(c, transforms, params, call, body)
    ensures d.Invoked? ==> d.cls == c.cls && d.key == c.key && |d.args| == |c.bindings|
    ensures VariableCount(c.bindings) > |params| ==> d == Failed(MissingPathVariables(c.path))
    ensures d != Failed(PositionalPastEnd)
  {
    if VariableCount(c.bindings) > |params| {
      return Failed(MissingPathVariables(c.path));
    }
    var snap := TransformSnapshot(params, transforms, call);
    if snap.Err? {
      d := Failed(snap.error);
    } else {
      var args := BuildArguments(c, snap.value, body);
      if args.Err? {
        d := Failed(args.error);
      } else {
        d := Invoked(c.cls, c.key, args.value);
        ArgsPerBinding(c.bindings, snap.value, 0, c.paramTypes, body);
      }
    }
    NeverPastSnapshot(c, transforms, params, call, body);
  }
}
