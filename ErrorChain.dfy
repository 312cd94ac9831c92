/** The error-handler chain of src/Error.ts: an insertion-ordered map from name
    to handler that `load` and `unload` edit, and that `iterate` walks to give
    an error to the first handler that supports it. */
module ErrorChain {
  import opened Wrappers
  import Paths

  /** A handler instance; `cls` is the class it was constructed from. */
  datatype Handler = Handler(cls: nat)

  /** The default export of an error file: a class, and whether its prototype
      is an `instanceof ErrorHandler`. */
  datatype ErrorExport = ErrorExport(cls: nat, extendsErrorHandler: bool)

  /** What `require` yields for an error file. */
  datatype ErrorModule = Throws | Evaluated(defaultExport: Option<ErrorExport>)

  /** How `load` ends: a handler was stored, the class was refused, or an
      exception escaped. */
  datatype LoadOutcome = Loaded | NotAnErrorHandler | LoadThrew

  /** A JavaScript `Map`: the keys in insertion order and the entries. */
  datatype Registry = Registry(order: seq<string>, handlers: map<string, Handler>)

  predicate Distinct(s: seq<string>) {
    forall i, j :: 0 <= i < j < |s| ==> s[i] != s[j]
  }

  ghost predicate WellFormed(reg: Registry) {
    Distinct(reg.order) && forall k :: k in reg.handlers <==> k in reg.order
  }

  /** `name.slice(0, -3)`: all but the last three characters, or "" for a
      shorter name. */
  function Stem(name: string): (r: string)
    ensures r <= name
    ensures |r| == if |name| >= 3 then |name| - 3 else 0
  {
    if |name| >= 3 then name[..|name| - 3] else ""
  }

  /** `s` without `k`. */
  function Without(s: seq<string>, k: string): (r: seq<string>)
    ensures forall x :: x in r <==> x in s && x != k
    ensures k !in s ==> r == s
    ensures Distinct(s) ==> Distinct(r)
    ensures |r| <= |s|
  {
    if s == [] then []
    else if s[0] == k then Without(s[1..], k)
    else
      var rest := Without(s[1..], k);
      var r := [s[0]] + rest;
      assert Distinct(s) ==> Distinct(r) by {
        if Distinct(s) {
          forall j | 0 <= j < |s[1..]| ensures s[1..][j] != s[0] {
            assert s[1..][j] == s[j + 1];
          }
          assert Distinct(s[1..]) by {
            forall i, j | 0 <= i < j < |s[1..]| ensures s[1..][i] != s[1..][j] {
              assert s[1..][i] == s[i + 1] && s[1..][j] == s[j + 1];
            }
          }
          assert s[0] !in s[1..];
          forall i, j | 0 <= i < j < |r| ensures r[i] != r[j] {
            assert r[j] == rest[j - 1] && rest[j - 1] in rest;
            if i > 0 {
              assert r[i] == rest[i - 1];
            }
          }
        }
      }
      r
  }

  /** `map.set(k, v)`: a new key goes last, an existing key keeps its place. */
  function MapSet(reg: Registry, k: string, v: Handler): (r: Registry)
    ensures r.handlers == reg.handlers[k := v]
    ensures k in reg.handlers ==> r.order == reg.order
    ensures k !in reg.handlers ==> r.order == reg.order + [k]
    ensures WellFormed(reg) ==> WellFormed(r)
  {
    Registry(if k in reg.handlers then reg.order else reg.order + [k], reg.handlers[k := v])
  }

  /** Removing the one occurrence of `k` from a sequence without repeats
      closes the gap and keeps the order of the rest. */
  lemma {:induction false} WithoutAt(s: seq<string>, k: string, i: int)
    requires Distinct(s) && 0 <= i < |s| && s[i] == k
    ensures Without(s, k) == s[..i] + s[i + 1..]
    decreases |s|
  {
    assert Distinct(s[1..]) by {
      forall a, b | 0 <= a < b < |s[1..]| ensures s[1..][a] != s[1..][b] {
        assert s[1..][a] == s[a + 1] && s[1..][b] == s[b + 1];
      }
    }
    if i == 0 {
      assert k !in s[1..] by {
        forall j | 0 <= j < |s[1..]| ensures s[1..][j] != k {
          assert s[1..][j] == s[j + 1];
        }
      }
    } else {
      assert s[0] != k;
      WithoutAt(s[1..], k, i - 1);
      assert s[1..][..i - 1] + s[1..][i..] == s[1..i] + s[i + 1..];
      assert s[..i] == [s[0]] + s[1..i];
      assert ([s[0]] + s[1..i]) + s[i + 1..] == [s[0]] + (s[1..i] + s[i + 1..]);
    }
  }

  /** `map.delete(k)`: the entry goes, the other keys keep their order. */
  function MapDelete(reg: Registry, k: string): (r: Registry)
    ensures r.handlers == reg.handlers - {k}
    ensures forall x :: x in r.order <==> x in reg.order && x != k
    ensures k !in reg.order ==> r == Registry(reg.order, reg.handlers - {k})
    ensures WellFormed(reg) ==> WellFormed(r)
  {
    Registry(Without(reg.order, k), reg.handlers - {k})
  }

  /** `map.values()`: the handlers in insertion order. */
  function Values(reg: Registry): (hs: seq<Handler>)
    requires WellFormed(reg)
    ensures |hs| == |reg.order|
    ensures forall i :: 0 <= i < |hs| ==> hs[i] == reg.handlers[reg.order[i]]
  {
    seq(|reg.order|, i requires 0 <= i < |reg.order| => reg.handlers[reg.order[i]])
  }

  /** How `load` ends for module `mod` (lines 28-37). A missing default export
      makes `mod.default.prototype` raise. */
  function LoadOutcomeOf(mod: ErrorModule): (r: LoadOutcome)
    ensures r == LoadThrew <==> mod.Throws? || mod.defaultExport.None?
    ensures r == Loaded <==> mod.Evaluated? && mod.defaultExport.Some? && mod.defaultExport.value.extendsErrorHandler
  {
    match mod
    case Throws => LoadThrew
    case Evaluated(None) => LoadThrew
    case Evaluated(Some(e)) => if e.extendsErrorHandler then Loaded else NotAnErrorHandler
  }

  /** The map after `load(name)` (lines 27-38). */
  function AfterLoad(reg: Registry, name: string, mod: ErrorModule): (r: Registry)
    ensures LoadOutcomeOf(mod) != Loaded ==> r == reg
    ensures LoadOutcomeOf(mod) == Loaded ==>
              r.handlers == reg.handlers[Stem(name) := Handler(mod.defaultExport.value.cls)]
    ensures LoadOutcomeOf(mod) == Loaded && Stem(name) !in reg.handlers ==> r.order == reg.order + [Stem(name)]
    ensures Stem(name) in reg.handlers ==> r.order == reg.order
    ensures WellFormed(reg) ==> WellFormed(r)
  {
    if LoadOutcomeOf(mod) == Loaded then MapSet(reg, Stem(name), Handler(mod.defaultExport.value.cls)) else reg
  }

  /** The map after `unload(name)` (lines 40-47): `name` is looked up, but
      `name.slice(0, -3)` is deleted. */
  function AfterUnload(reg: Registry, name: string): (r: Registry)
    ensures name !in reg.handlers ==> r == reg
    ensures name in reg.handlers ==> r.handlers == reg.handlers - {Stem(name)}
    ensures WellFormed(reg) ==> WellFormed(r)
  {
    if name !in reg.handlers then reg else MapDelete(reg, Stem(name))
  }

  /** The state `loadAll` reaches, stopping at the first exception. */
  datatype Walk = Walk(reg: Registry, threw: bool)

  /** `for (const file of this.files) this.load(file)` (line 24). */
  function LoadAllSpec(reg: Registry, files: seq<string>, modules: string -> ErrorModule): (r: Walk)
    ensures WellFormed(reg) ==> WellFormed(r.reg)
    ensures forall k :: k in reg.handlers ==> k in r.reg.handlers
    ensures files == [] ==> r == Walk(reg, false)
    decreases |files|
  {
    if files == [] then Walk(reg, false)
    else if LoadOutcomeOf(modules(files[0])) == LoadThrew then Walk(reg, true)
    else LoadAllSpec(AfterLoad(reg, files[0], modules(files[0])), files[1..], modules)
  }

  /** The first handler that supports the error, as `iterate` finds it. */
  function FirstSupporting(hs: seq<Handler>, supports: Handler -> bool): (r: Option<nat>)
    ensures r.Some? ==> r.value < |hs| && supports(hs[r.value]) &&
                        forall j :: 0 <= j < r.value ==> !supports(hs[j])
    ensures r.None? <==> forall j :: 0 <= j < |hs| ==> !supports(hs[j])
  {
    if hs == [] then None
    else if supports(hs[0]) then Some(0)
    else match FirstSupporting(hs[1..], supports)
      case None => None
      case Some(i) => Some(i + 1)
  }

  class ErrorManager {
    /** The listing `loadAll` last walked. */
    var files: seq<string>
    /** The `errors` map: its keys in insertion order and its entries. */
    var order: seq<string>
    var errors: map<string, Handler>
    /** The handlers whose `handle` was called, oldest first. */
    var log: seq<Handler>

    function Current(): Registry
      reads this
    {
      Registry(order, errors)
    }

    ghost predicate Valid()
      reads this
    {
      WellFormed(Current())
    }

    constructor ()
      ensures Valid() && Current() == Registry([], map[]) && log == [] && files == []
    {
      files, order, errors, log := [], [], map[], [];
    }

    /** `load(name)`, where `mod` is what `require` yields for the file. */
    method Load(name: string, mod: ErrorModule) returns (outcome: LoadOutcome)
      requires Valid()
      modifies this`order, this`errors
      ensures Valid()
      ensures outcome == LoadOutcomeOf(mod)
      ensures Current() == AfterLoad(old(Current()), name, mod)
    {
      if mod.Throws? || mod.defaultExport.None? {
        return LoadThrew;
      }
      if !mod.defaultExport.value.extendsErrorHandler {
        return NotAnErrorHandler;
      }
      var key := Stem(name);
      if key !in errors {
        order := order + [key];
      }
      errors := errors[key := Handler(mod.defaultExport.value.cls)];
      return Loaded;
    }

    /** `unload(name)`. */
    method Unload(name: string)
      requires Valid()
      modifies this`order, this`errors
      ensures Valid()
      ensures Current() == AfterUnload(old(Current()), name)
    {
      if name !in errors {
        return;
      }
      var key := Stem(name);
      order := Without(order, key);
      errors := errors - {key};
    }

    /** `loadAll()` over the listing `listing`; `threw` reports an exception
        that ended the walk. */
    method LoadAll(listing: seq<string>, modules: string -> ErrorModule) returns (threw: bool)
      requires Valid()
      modifies this`files, this`order, this`errors
      ensures Valid() && files == listing
      ensures Walk(Current(), threw) == LoadAllSpec(old(Current()), listing, modules)
    {
      files := listing;
      ghost var start := Current();
      assert files[0..] == files;
      for i := 0 to |files|
        invariant Valid() && files == listing
        invariant LoadAllSpec(start, files, modules) == LoadAllSpec(Current(), files[i..], modules)
      {
        assert files[i..][0] == files[i] && files[i..][1..] == files[i + 1..];
        var outcome := Load(files[i], modules(files[i]));
        if outcome == LoadThrew {
          return true;
        }
      }
      return false;
    }

    /** `iterate(req, res, error)`: `supports` is `handler.supports(error)`,
        and a call of `handler.handle` is recorded in `log`. */
    method Iterate(supports: Handler -> bool) returns (claimed: bool)
      requires Valid()
      modifies this`log
      ensures var first := FirstSupporting(Values(Current()), supports);
              claimed == first.Some? &&
              log == old(log) + if first.Some? then [Values(Current())[first.value]] else []
    {
      ghost var hs := Values(Current());
      for i := 0 to |order|
        invariant log == old(log)
        invariant forall j :: 0 <= j < i ==> !supports(hs[j])
      {
        var handler := errors[order[i]];
        if supports(handler) {
          log := log + [handler];
          assert FirstSupporting(hs, supports) == Some(i);
          return true;
        }
      }
      return false;
    }
  }

  /** Unloading a name deletes its own entry only for the empty name: the
      deleted key is three characters shorter, or "". */
  lemma UnloadKeepsItsOwnKey(reg: Registry, name: string)
    requires name != "" && name in reg.handlers
    ensures name in AfterUnload(reg, name).handlers
  {
  }

  /** Unloading the file name a handler was loaded from leaves the handler in
      place: the file name is not itself a key. */
  lemma UnloadDoesNotUndoLoad(reg: Registry, name: string, mod: ErrorModule)
    requires WellFormed(reg) && LoadOutcomeOf(mod) == Loaded
    requires name != "" && name !in reg.handlers
    ensures var loaded := AfterLoad(reg, name, mod);
            AfterUnload(loaded, name) == loaded && Stem(name) in loaded.handlers
  {
    var loaded := AfterLoad(reg, name, mod);
    assert Stem(name) != name by {
      if |name| >= 3 {
        assert |Stem(name)| < |name|;
      }
    }
    assert name !in loaded.handlers;
  }

  /** Unloading keeps the order of the remaining handlers: when the deleted
      key `Stem(name)` sits at position `i`, the values close up over that one
      position; otherwise (`i == -1`) nothing changes. */
  lemma UnloadClosesGap(reg: Registry, name: string) returns (i: int)
    requires WellFormed(reg)
    ensures var after := AfterUnload(reg, name);
            if name in reg.handlers && Stem(name) in reg.handlers then
              0 <= i < |reg.order| && reg.order[i] == Stem(name) &&
              after.order == reg.order[..i] + reg.order[i + 1..] &&
              Values(after) == Values(reg)[..i] + Values(reg)[i + 1..]
            else
              i == -1 && after.order == reg.order && Values(after) == Values(reg)
  {
    var after := AfterUnload(reg, name);
    var k := Stem(name);
    if name in reg.handlers && k in reg.handlers {
      i := IndexOfKey(reg.order, k);
      WithoutAt(reg.order, k, i);
      ValuesCloseGap(reg, after, i);
    } else {
      i := -1;
      if name in reg.handlers {
        assert k !in reg.order;
      }
    }
  }

  /** Deleting the key at position `i` removes exactly value `i`. */
  lemma ValuesCloseGap(reg: Registry, after: Registry, i: int)
    requires WellFormed(reg) && WellFormed(after) && 0 <= i < |reg.order|
    requires after.order == reg.order[..i] + reg.order[i + 1..]
    requires after.handlers == reg.handlers - {reg.order[i]}
    ensures Values(after) == Values(reg)[..i] + Values(reg)[i + 1..]
  {
    var hs, vs := Values(reg), Values(after);
    forall j | 0 <= j < |vs| ensures vs[j] == (hs[..i] + hs[i + 1..])[j] {
      if j < i {
        assert after.order[j] == reg.order[j];
      } else {
        assert after.order[j] == reg.order[j + 1] && reg.order[j + 1] != reg.order[i];
      }
    }
  }

  /** The position of a key that occurs in `s`. */
  lemma IndexOfKey(s: seq<string>, k: string) returns (i: int)
    requires k in s
    ensures 0 <= i < |s| && s[i] == k
  {
    i :| 0 <= i < |s| && s[i] == k;
  }

  /** The files of a listing that `load` stores a handler for, in listing
      order. */
  function LoadedFiles(files: seq<string>, modules: string -> ErrorModule): (r: seq<string>)
    ensures forall i :: 0 <= i < |r| ==> LoadOutcomeOf(modules(r[i])) == Loaded
    ensures forall f :: f in r <==> f in files && LoadOutcomeOf(modules(f)) == Loaded
    ensures |r| <= |files|
  {
    if files == [] then []
    else (if LoadOutcomeOf(modules(files[0])) == Loaded then [files[0]] else []) + LoadedFiles(files[1..], modules)
  }

  /** Filtering a concatenation filters each part and keeps them in that
      order, so the files that load appear as in the listing. */
  lemma {:induction false} LoadedFilesAppend(a: seq<string>, b: seq<string>, modules: string -> ErrorModule)
    ensures LoadedFiles(a + b, modules) == LoadedFiles(a, modules) + LoadedFiles(b, modules)
    decreases |a|
  {
    if a == [] {
      assert a + b == b;
    } else {
      assert (a + b)[0] == a[0];
      assert (a + b)[1..] == a[1..] + b;
      LoadedFilesAppend(a[1..], b, modules);
    }
  }

  /** One listed file is kept exactly when it loads. */
  lemma LoadedFilesSingle(f: string, modules: string -> ErrorModule)
    ensures LoadedFiles([f], modules) == (if LoadOutcomeOf(modules(f)) == Loaded then [f] else [])
  {
    assert [f][1..] == [];
  }

  /** The keys that loading `files` in order stores. */
  function Stems(files: seq<string>): (r: seq<string>)
    ensures |r| == |files|
    ensures forall i :: 0 <= i < |files| ==> r[i] == Stem(files[i])
  {
    if files == [] then [] else [Stem(files[0])] + Stems(files[1..])
  }

  /** The handlers that loading `files` in order constructs. */
  function HandlersOf(files: seq<string>, modules: string -> ErrorModule): (r: seq<Handler>)
    requires forall i :: 0 <= i < |files| ==> LoadOutcomeOf(modules(files[i])) == Loaded
    ensures |r| == |files|
    ensures forall i :: 0 <= i < |files| ==>
              LoadOutcomeOf(modules(files[i])) == Loaded && r[i] == Handler(modules(files[i]).defaultExport.value.cls)
  {
    if files == [] then []
    else
      assert LoadOutcomeOf(modules(files[0])) == Loaded;
      [Handler(modules(files[0]).defaultExport.value.cls)] + HandlersOf(files[1..], modules)
  }

  /** Loading a handler under a fresh key appends it to the values. */
  lemma LoadFreshAppends(reg: Registry, name: string, mod: ErrorModule)
    requires WellFormed(reg) && LoadOutcomeOf(mod) == Loaded && Stem(name) !in reg.handlers
    ensures var next := AfterLoad(reg, name, mod);
            WellFormed(next) && next.order == reg.order + [Stem(name)] &&
            Values(next) == Values(reg) + [Handler(mod.defaultExport.value.cls)]
  {
    var next := AfterLoad(reg, name, mod);
    assert next.order == reg.order + [Stem(name)];
    var h := Handler(mod.defaultExport.value.cls);
    assert forall k :: k in reg.order ==> k != Stem(name);
    assert forall i :: 0 <= i < |reg.order| ==> Values(next)[i] == next.handlers[reg.order[i]] == Values(reg)[i];
  }

  /** No file of the listing raises. */
  ghost predicate NoneThrows(files: seq<string>, modules: string -> ErrorModule) {
    forall i :: 0 <= i < |files| ==> LoadOutcomeOf(modules(files[i])) != LoadThrew
  }

  /** Every file loads, and under a name that is new and not shared with
      another file of the listing. */
  ghost predicate AllLoadFresh(reg: Registry, files: seq<string>, modules: string -> ErrorModule) {
    (forall i :: 0 <= i < |files| ==> LoadOutcomeOf(modules(files[i])) == Loaded) &&
    (forall i, j :: 0 <= i < j < |files| ==> Stem(files[i]) != Stem(files[j])) &&
    (forall i :: 0 <= i < |files| ==> Stem(files[i]) !in reg.handlers)
  }

  /** No file raises, and the files that load do so under names that are new
      and pairwise different; refused files may sit anywhere in the listing. */
  ghost predicate FreshLoads(reg: Registry, files: seq<string>, modules: string -> ErrorModule) {
    NoneThrows(files, modules) && AllLoadFresh(reg, LoadedFiles(files, modules), modules)
  }

  /** A directory listing has no repeated names, and `readDir` keeps only the
      names ending in ".js", so their stems are pairwise different too. */
  lemma JsNamesHaveDistinctStems(files: seq<string>)
    requires Distinct(files)
    requires forall i :: 0 <= i < |files| ==> Paths.EndsWith(files[i], ".js")
    ensures forall i, j :: 0 <= i < j < |files| ==> Stem(files[i]) != Stem(files[j])
  {
    forall i, j | 0 <= i < j < |files| ensures Stem(files[i]) != Stem(files[j]) {
      var a, b := files[i], files[j];
      assert Paths.EndsWith(a, ".js") && Paths.EndsWith(b, ".js");
      assert a == Stem(a) + a[|a| - 3..];
      assert b == Stem(b) + b[|b| - 3..];
    }
  }

  /** `loadAll` over a listing where nothing raises reaches the same state as
      over just the files that load: a refused file changes nothing. */
  lemma {:induction false} LoadAllSkipsRefused(reg: Registry, files: seq<string>, modules: string -> ErrorModule)
    requires NoneThrows(files, modules)
    ensures LoadAllSpec(reg, files, modules) == LoadAllSpec(reg, LoadedFiles(files, modules), modules)
    decreases |files|
  {
    if files != [] {
      var f := files[0];
      var next := AfterLoad(reg, f, modules(f));
      assert LoadOutcomeOf(modules(f)) != LoadThrew;
      assert NoneThrows(files[1..], modules) by {
        forall i | 0 <= i < |files[1..]| ensures LoadOutcomeOf(modules(files[1..][i])) != LoadThrew {
          assert files[1..][i] == files[i + 1];
        }
      }
      LoadAllSkipsRefused(next, files[1..], modules);
      var loaded := LoadedFiles(files, modules);
      if LoadOutcomeOf(modules(f)) == Loaded {
        assert loaded == [f] + LoadedFiles(files[1..], modules);
        assert loaded[0] == f && loaded[1..] == LoadedFiles(files[1..], modules);
      } else {
        assert loaded == LoadedFiles(files[1..], modules);
      }
    }
  }

  /** `loadAll` raises exactly when some file of the listing raises. */
  lemma {:induction false} LoadAllThrowsIff(reg: Registry, files: seq<string>, modules: string -> ErrorModule)
    ensures LoadAllSpec(reg, files, modules).threw <==> !NoneThrows(files, modules)
    decreases |files|
  {
    if files != [] && LoadOutcomeOf(modules(files[0])) != LoadThrew {
      LoadAllThrowsIff(AfterLoad(reg, files[0], modules(files[0])), files[1..], modules);
      forall i | 0 <= i < |files[1..]| ensures files[1..][i] == files[i + 1] {}
      assert NoneThrows(files, modules) <==> NoneThrows(files[1..], modules) by {
        if NoneThrows(files[1..], modules) {
          forall i | 0 <= i < |files| ensures LoadOutcomeOf(modules(files[i])) != LoadThrew {
            if i > 0 {
              assert files[i] == files[1..][i - 1];
            }
          }
        }
      }
    }
  }

  /** Loading the first of such files leaves the rest fresh. */
  lemma FreshLoadsTail(reg: Registry, files: seq<string>, modules: string -> ErrorModule)
    requires files != [] && AllLoadFresh(reg, files, modules)
    ensures AllLoadFresh(AfterLoad(reg, files[0], modules(files[0])), files[1..], modules)
  {
    var next := AfterLoad(reg, files[0], modules(files[0]));
    var tail := files[1..];
    assert LoadOutcomeOf(modules(files[0])) == Loaded;
    forall i | 0 <= i < |tail|
      ensures LoadOutcomeOf(modules(tail[i])) == Loaded && Stem(tail[i]) !in next.handlers
    {
      assert tail[i] == files[i + 1];
    }
    forall i, j | 0 <= i < j < |tail|
      ensures Stem(tail[i]) != Stem(tail[j])
    {
      assert tail[i] == files[i + 1] && tail[j] == files[j + 1];
    }
  }

  /** `loadAll` over files that all load under fresh names appends their
      names in listing order. */
  lemma {:induction false} LoadAllOrder(reg: Registry, files: seq<string>, modules: string -> ErrorModule)
    requires AllLoadFresh(reg, files, modules)
    ensures var w := LoadAllSpec(reg, files, modules);
            !w.threw && w.reg.order == reg.order + Stems(files)
    decreases |files|
  {
    if files == [] {
      assert reg.order + [] == reg.order;
    } else {
      var next := AfterLoad(reg, files[0], modules(files[0]));
      var head, rest := [Stem(files[0])], Stems(files[1..]);
      assert LoadAllSpec(reg, files, modules) == LoadAllSpec(next, files[1..], modules) &&
             next.order == reg.order + head by {
        assert LoadOutcomeOf(modules(files[0])) == Loaded && Stem(files[0]) !in reg.handlers;
      }
      FreshLoadsTail(reg, files, modules);
      LoadAllOrder(next, files[1..], modules);
      assert Stems(files) == head + rest;
      AppendAssociates(reg.order, head, rest);
    }
  }

  /** `loadAll` over files that all load under fresh names keeps every
      earlier handler and stores each file's handler under its name. */
  lemma {:induction false} LoadAllHandlers(reg: Registry, files: seq<string>, modules: string -> ErrorModule)
    requires AllLoadFresh(reg, files, modules)
    ensures var w := LoadAllSpec(reg, files, modules);
            (forall k :: k in reg.handlers ==> w.reg.handlers[k] == reg.handlers[k]) &&
            (forall i :: 0 <= i < |files| ==> Stem(files[i]) in w.reg.handlers &&
                                              w.reg.handlers[Stem(files[i])] == HandlersOf(files, modules)[i])
    decreases |files|
  {
    if files != [] {
      var next := AfterLoad(reg, files[0], modules(files[0]));
      var w := LoadAllSpec(next, files[1..], modules);
      assert LoadOutcomeOf(modules(files[0])) == Loaded && Stem(files[0]) !in reg.handlers;
      FreshLoadsTail(reg, files, modules);
      LoadAllHandlers(next, files[1..], modules);
      var hs := HandlersOf(files, modules);
      forall i | 0 <= i < |files|
        ensures Stem(files[i]) in w.reg.handlers && w.reg.handlers[Stem(files[i])] == hs[i]
      {
        if i > 0 {
          assert files[1..][i - 1] == files[i];
        }
      }
    }
  }

  /** A map that keeps every entry of `reg` and appends keys `names` with
      values `hs` yields the values of `reg` followed by `hs`. */
  lemma ValuesOfExtension(reg: Registry, ext: Registry, names: seq<string>, hs: seq<Handler>)
    requires WellFormed(reg) && WellFormed(ext)
    requires ext.order == reg.order + names && |names| == |hs|
    requires forall k :: k in reg.handlers ==> k in ext.handlers && ext.handlers[k] == reg.handlers[k]
    requires forall i :: 0 <= i < |names| ==> names[i] in ext.handlers && ext.handlers[names[i]] == hs[i]
    ensures Values(ext) == Values(reg) + hs
  {
    var n := |reg.order|;
    forall i | 0 <= i < |ext.order|
      ensures Values(ext)[i] == (Values(reg) + hs)[i]
    {
      if i < n {
        assert ext.order[i] == reg.order[i] && reg.order[i] in reg.handlers;
      } else {
        assert ext.order[i] == names[i - n];
      }
    }
  }

  /** `loadAll` over a listing where nothing raises, and whose loading files
      have fresh and distinct names, appends the handlers of the loading files
      in listing order, so `iterate` tries them in that order after every
      handler loaded before; refused files leave no trace. */
  lemma {:induction false} LoadAllFollowsListing(reg: Registry, files: seq<string>, modules: string -> ErrorModule)
    requires WellFormed(reg) && FreshLoads(reg, files, modules)
    ensures var w := LoadAllSpec(reg, files, modules);
            var loaded := LoadedFiles(files, modules);
            !w.threw && WellFormed(w.reg) && w.reg.order == reg.order + Stems(loaded) &&
            Values(w.reg) == Values(reg) + HandlersOf(loaded, modules)
  {
    var loaded := LoadedFiles(files, modules);
    LoadAllSkipsRefused(reg, files, modules);
    var w := LoadAllSpec(reg, loaded, modules);
    LoadAllOrder(reg, loaded, modules);
    LoadAllHandlers(reg, loaded, modules);
    ValuesOfExtension(reg, w.reg, Stems(loaded), HandlersOf(loaded, modules));
  }

  /** After `loadAll` from an empty map, `iterate` gives the error to the
      handler of the first listed loading file whose handler supports it. */
  lemma {:induction false} FirstListedSupportingWins(files: seq<string>, modules: string -> ErrorModule, supports: Handler -> bool)
    requires FreshLoads(Registry([], map[]), files, modules)
    ensures var w := LoadAllSpec(Registry([], map[]), files, modules);
            var hs := HandlersOf(LoadedFiles(files, modules), modules);
            WellFormed(w.reg) && FirstSupporting(Values(w.reg), supports) == FirstSupporting(hs, supports)
  {
    var empty := Registry([], map[]);
    var hs := HandlersOf(LoadedFiles(files, modules), modules);
    LoadAllFollowsListing(empty, files, modules);
    assert Values(empty) + hs == hs;
  }
}
