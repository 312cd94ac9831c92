/** String handling of src/Controller.ts: the controller prefix check, the
    normalisation of a registered route path, and the string helpers `init`
    uses (lower-casing the verb, picking out `.js` files). */
module Paths {
  import opened Wrappers

  predicate IsAsciiLetter(c: char) {
    'a' <= c <= 'z' || 'A' <= c <= 'Z'
  }

  predicate StartsWithSlash(s: string) {
    |s| > 0 && s[0] == '/'
  }

  /** The two RangeErrors the `Controller` decorator can raise. */
  datatype PrefixError = MustStartWithSlash | MustEndWithLetter

  /** The checks `Controller(route)` makes before it marks a class: a prefix of
      length one is always accepted; any other prefix, the empty one included,
      must start with `/` and end with an ASCII letter of either case. */
  function CheckPrefix(route: string): (r: Outcome<PrefixError>)
    ensures r.Pass? <==> |route| == 1 || (StartsWithSlash(route) && IsAsciiLetter(route[|route| - 1]))
    ensures r == Fail(MustStartWithSlash) <==> |route| != 1 && !StartsWithSlash(route)
    ensures route == "" ==> r == Fail(MustStartWithSlash)
  {
    if |route| != 1 && !StartsWithSlash(route) then Fail(MustStartWithSlash)
    else if |route| != 1 && !IsAsciiLetter(route[|route| - 1]) then Fail(MustEndWithLetter)
    else Pass
  }

  /** Index of the first occurrence of `c` in `s`. */
  function IndexOf(s: string, c: char): (i: nat)
    requires c in s
    ensures i < |s| && s[i] == c
    ensures forall j :: 0 <= j < i ==> s[j] != c
  {
    if s[0] == c then 0 else 1 + IndexOf(s[1..], c)
  }

  /** End (exclusive) of the maximal run of `c` that starts at `i`. */
  function RunEnd(s: string, i: nat, c: char): (j: nat)
    requires i <= |s|
    ensures i <= j <= |s|
    ensures forall k :: i <= k < j ==> s[k] == c
    ensures j == |s| || s[j] != c
    decreases |s| - i
  {
    if i < |s| && s[i] == c then RunEnd(s, i + 1, c) else i
  }

  /** `s.replace(/c+/, "/")` with a regular expression that is not global:
      only the leftmost maximal run of `c` becomes a single `/`. */
  function ReplaceFirstRun(s: string, c: char): (r: string)
    ensures |r| <= |s|
    ensures c !in s ==> r == s
    ensures |s| > 0 ==> |r| > 0
  {
    if c !in s then s
    else
      var i := IndexOf(s, c);
      s[..i] + "/" + s[RunEnd(s, i, c)..]
  }

  /** The path a route is registered under (lines 163-165): first the leftmost
      run of `/` is collapsed, then the leftmost run of `\` becomes `/`. */
  function Normalise(path: string): (r: string)
    ensures |r| <= |path|
    ensures '/' !in path && '\\' !in path ==> r == path
    ensures |path| > 0 ==> |r| > 0
  {
    ReplaceFirstRun(ReplaceFirstRun(path, '/'), '\\')
  }

  /** `n` copies of `c`. */
  function Run(c: char, n: nat): (r: string)
    ensures |r| == n
    ensures forall k :: 0 <= k < n ==> r[k] == c
  {
    if n == 0 then "" else [c] + Run(c, n - 1)
  }

  /** An independent description of ReplaceFirstRun: whenever `s` splits into a
      part free of `c`, a run of `n >= 1` copies of `c`, and a rest that does not
      continue the run, exactly that run is replaced by one `/`. */
  lemma {:induction false} ReplaceFirstRunSplits(a: string, n: nat, b: string, c: char)
    requires n >= 1 && c !in a
    requires b == [] || b[0] != c
    ensures ReplaceFirstRun(a + Run(c, n) + b, c) == a + "/" + b
  {
    var s := a + Run(c, n) + b;
    assert forall k :: 0 <= k < |a| ==> s[k] == a[k];
    assert forall k :: |a| <= k < |a| + n ==> s[k] == c;
    assert |a| + n == |s| || s[|a| + n] == b[0];
    assert s[|a|] == c;
    var i := IndexOf(s, c);
    assert i == |a|;
    var j := RunEnd(s, i, c);
    assert j == |a| + n;
    assert s[..i] == a;
    assert s[j..] == b;
  }

  /** Normalise is its two passes, one after the other. */
  lemma NormaliseByPasses(path: string, collapsed: string, r: string)
    requires ReplaceFirstRun(path, '/') == collapsed
    requires ReplaceFirstRun(collapsed, '\\') == r
    ensures Normalise(path) == r
  {
  }

  /** A path segment: no `/` and no `\`. */
  predicate Segment(a: string) {
    '/' !in a && '\\' !in a
  }

  /** Replacing a single `c` that follows a part free of `c`. */
  lemma ReplaceSingle(a: string, b: string, c: char)
    requires c !in a && (b == [] || b[0] != c)
    ensures ReplaceFirstRun(a + [c] + b, c) == a + "/" + b
  {
    ReplaceFirstRunSplits(a, 1, b, c);
    assert Run(c, 1) == [c];
  }

  /** Joining two segments with separators free of `\` gives no `\`. */
  lemma JoinedSegments(pre: string, a: string, sep: string, b: string)
    requires Segment(a) && Segment(b) && '\\' !in pre && '\\' !in sep
    ensures '\\' !in pre + a + sep + b
  {
    var s := pre + a + sep + b;
    assert forall k :: 0 <= k < |s| ==> s[k] in pre || s[k] in a || s[k] in sep || s[k] in b;
  }

  /** The slash pass leaves `/a//b` as it is: its first run is the single
      leading `/`. */
  lemma SlashPassKeepsLaterRun(a: string, b: string)
    requires Segment(a) && Segment(b) && a != ""
    ensures ReplaceFirstRun("/" + a + "//" + b, '/') == "/" + a + "//" + b
  {
    var rest := a + "//" + b;
    assert rest[0] == a[0];
    ReplaceSingle("", rest, '/');
    assert "" + ['/'] + rest == "/" + a + "//" + b;
  }

  /** The slash pass leaves `a\/b` as it is. */
  lemma SlashPassKeepsSingle(a: string, b: string)
    requires Segment(a) && Segment(b)
    ensures ReplaceFirstRun(a + "\\/" + b, '/') == a + "\\/" + b
  {
    var pre := a + "\\";
    assert forall k :: 0 <= k < |pre| ==> pre[k] == '\\' || pre[k] in a;
    ReplaceSingle(pre, b, '/');
    assert pre + ['/'] + b == a + "\\/" + b;
  }

  /** The backslash pass turns `a\/b` into `a//b`. */
  lemma BackslashPassDoublesSlash(a: string, b: string)
    requires Segment(a) && Segment(b)
    ensures ReplaceFirstRun(a + "\\/" + b, '\\') == a + "//" + b
  {
    ReplaceSingle(a, "/" + b, '\\');
    assert a + ['\\'] + ("/" + b) == a + "\\/" + b;
    assert a + "/" + ("/" + b) == a + "//" + b;
  }

  /** The slash pass turns `a//b` into `a/b`. */
  lemma SlashPassCollapsesDouble(a: string, b: string)
    requires Segment(a) && Segment(b)
    ensures ReplaceFirstRun(a + "//" + b, '/') == a + "/" + b
  {
    ReplaceFirstRunSplits(a, 2, b, '/');
    assert a + Run('/', 2) + b == a + "//" + b;
  }

  /** The registered path keeps a doubled slash that follows an earlier single
      one: `/a//b` stays as it is. */
  lemma NormaliseKeepsLaterDoubleSlash(a: string, b: string)
    requires Segment(a) && Segment(b) && a != ""
    ensures Normalise("/" + a + "//" + b) == "/" + a + "//" + b
  {
    var path := "/" + a + "//" + b;
    SlashPassKeepsLaterRun(a, b);
    JoinedSegments("/", a, "//", b);
    NormaliseByPasses(path, path, path);
  }

  /** Normalise is not idempotent: replacing the backslash in `a\/b` creates a
      doubled slash, `a//b`. */
  lemma NormaliseCreatesDoubleSlash(a: string, b: string)
    requires Segment(a) && Segment(b)
    ensures Normalise(a + "\\/" + b) == a + "//" + b
  {
    SlashPassKeepsSingle(a, b);
    BackslashPassDoublesSlash(a, b);
    NormaliseByPasses(a + "\\/" + b, a + "\\/" + b, a + "//" + b);
  }

  /** A second pass collapses that doubled slash, so it changes the result of
      the first. */
  lemma NormaliseSecondPassDiffers(a: string, b: string)
    requires Segment(a) && Segment(b)
    ensures Normalise(Normalise(a + "\\/" + b)) == a + "/" + b != Normalise(a + "\\/" + b)
  {
    NormaliseCreatesDoubleSlash(a, b);
    SlashPassCollapsesDouble(a, b);
    JoinedSegments("", a, "/", b);
    assert "" + a == a;
    NormaliseByPasses(a + "//" + b, a + "/" + b, a + "/" + b);
    assert |a + "/" + b| < |a + "//" + b|;
  }

  function LowerChar(c: char): char {
    if 'A' <= c <= 'Z' then (c as int + 32) as char else c
  }

  /** `toLowerCase()` restricted to ASCII letters. */
  function ToLower(s: string): (r: string)
    ensures |r| == |s|
    ensures forall i :: 0 <= i < |s| ==> r[i] == LowerChar(s[i])
  {
    seq(|s|, i requires 0 <= i < |s| => LowerChar(s[i]))
  }

  predicate EndsWith(s: string, suffix: string) {
    |suffix| <= |s| && s[|s| - |suffix|..] == suffix
  }

  /** The directory listing filtered to `.js` files (line 123), in listing order. */
  function JsFiles(listing: seq<string>): (r: seq<string>)
    ensures forall f :: f in r <==> f in listing && EndsWith(f, ".js")
    ensures |r| <= |listing|
  {
    if listing == [] then []
    else if EndsWith(listing[0], ".js") then [listing[0]] + JsFiles(listing[1..])
    else JsFiles(listing[1..])
  }

  /** Filtering a concatenation filters each part and keeps them in that
      order, so the `.js` files are scanned as listed. */
  lemma {:induction false} JsFilesAppend(a: seq<string>, b: seq<string>)
    ensures JsFiles(a + b) == JsFiles(a) + JsFiles(b)
    decreases |a|
  {
    if a == [] {
      assert a + b == b;
    } else {
      assert (a + b)[0] == a[0];
      assert (a + b)[1..] == a[1..] + b;
      JsFilesAppend(a[1..], b);
    }
  }

  /** One listed name is kept exactly when it ends in `.js`. */
  lemma JsFilesSingle(f: string)
    ensures JsFiles([f]) == (if EndsWith(f, ".js") then [f] else [])
  {
    assert [f][1..] == [];
  }
}
