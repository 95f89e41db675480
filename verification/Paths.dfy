/** Relative paths: which are safe to hand to the bridge, and how a torrent's save root and the
    logical name of a file make up the path of the file. */
module Paths {

  const SESSION_ROOT: string := ".flow-session-root"
  const ROOTED_SENTINEL: string := "/.flow-session-root"

  /** The first occurrence of c at or after `start`, or the length of s. */
  function Find(s: string, c: char, start: nat): (r: nat)
    requires start <= |s|
    ensures start <= r <= |s|
    ensures forall k :: start <= k < r ==> s[k] != c
    ensures r < |s| ==> s[r] == c
    decreases |s| - start
  {
    if start == |s| || s[start] == c then start else Find(s, c, start + 1)
  }

  /** The components between slashes; a string without a slash is one component. */
  function Split(s: string): (cs: seq<string>)
    ensures cs != []
  {
    var k := Find(s, '/', 0);
    if k == |s| then [s] else [s[..k]] + Split(s[k + 1..])
  }

  function Join(cs: seq<string>): string
    requires cs != []
  {
    if |cs| == 1 then cs[0] else cs[0] + "/" + Join(cs[1..])
  }

  predicate GoodComponent(c: string) {
    c != "" && c != "." && c != ".." && '/' !in c && '\\' !in c && '\0' !in c
  }

  /** What a safe relative path is, said by components. */
  predicate Safe(path: string) {
    forall c :: c in Split(path) ==> GoodComponent(c)
  }

  // ---- Splitting and joining

  lemma {:induction false} SplitAt(s: string, k: nat)
    requires k < |s| && s[k] == '/' && '/' !in s[..k]
    ensures Split(s) == [s[..k]] + Split(s[k + 1..])
  {
  }

  lemma SplitWhole(s: string)
    requires '/' !in s
    ensures Split(s) == [s]
  {
  }

  lemma {:induction false} SplitConcat(a: string, b: string)
    ensures Split(a + "/" + b) == Split(a) + Split(b)
    decreases |a|
  {
    var s := a + "/" + b;
    var k := Find(a, '/', 0);
    assert s[..k] == a[..k];
    SplitAt(s, k);
    if k == |a| {
      assert s[k + 1..] == b;
      assert a[..k] == a;
    } else {
      assert s[k + 1..] == a[k + 1..] + "/" + b;
      SplitConcat(a[k + 1..], b);
      assert [a[..k]] + (Split(a[k + 1..]) + Split(b)) == ([a[..k]] + Split(a[k + 1..])) + Split(b);
    }
  }

  lemma {:induction false} JoinSplit(s: string)
    ensures Join(Split(s)) == s
    decreases |s|
  {
    var k := Find(s, '/', 0);
    if k < |s| {
      JoinSplit(s[k + 1..]);
      assert s == s[..k] + "/" + s[k + 1..];
      assert Split(s)[1..] == Split(s[k + 1..]);
    }
  }

  lemma {:induction false} SplitJoin(cs: seq<string>)
    requires cs != [] && forall c :: c in cs ==> '/' !in c
    ensures Split(Join(cs)) == cs
  {
    if |cs| == 1 {
      var k := Find(cs[0], '/', 0);
      assert cs[0] in cs;
    } else {
      SplitJoin(cs[1..]);
      SplitConcat(cs[0], Join(cs[1..]));
      SplitJoin(cs[..1]);
      assert Join(cs[..1]) == cs[0] && cs == cs[..1] + cs[1..];
    }
  }

  // ---- Safety

  /** The safe paths are exactly the '/'-joins of one or more good components. */
  lemma SafeIffJoin(path: string)
    ensures Safe(path) <==> exists cs: seq<string> :: cs != [] && (forall c :: c in cs ==> GoodComponent(c)) && path == Join(cs)
  {
    JoinSplit(path);
    if cs: seq<string> :| cs != [] && (forall c :: c in cs ==> GoodComponent(c)) && path == Join(cs) {
      SplitJoin(cs);
    }
  }

  /** Safety is closed under joining, and nothing unsafe can be joined to a safe path. */
  lemma SafeJoin(a: string, b: string)
    ensures Safe(a + "/" + b) <==> Safe(a) && Safe(b)
  {
    SplitConcat(a, b);
    var cs := Split(a + "/" + b);
    if Safe(a + "/" + b) {
      forall c | c in Split(a) || c in Split(b)
        ensures GoodComponent(c)
      {
        assert c in cs;
      }
    }
  }

  lemma {:induction false} SplitMembers(path: string)
    ensures forall c :: c in Split(path) ==> forall x :: x in c ==> x in path
    ensures forall x :: x in path && x != '/' ==> exists c :: c in Split(path) && x in c
    decreases |path|
  {
    var k := Find(path, '/', 0);
    if k == |path| {
      assert path in Split(path);
    } else {
      var rest := path[k + 1..];
      SplitMembers(rest);
      assert path == path[..k] + "/" + rest;
      forall x | x in path && x != '/'
        ensures exists c :: c in Split(path) && x in c
      {
        if x in path[..k] {
          assert path[..k] in Split(path);
        } else {
          var c :| c in Split(rest) && x in c;
          assert c in Split(path);
        }
      }
    }
  }

  /** The check as the backend makes it: one scan over the components. */
  method SafeRelativePath(path: string) returns (ok: bool)
    ensures ok <==> Safe(path)
  {
    hide *;
    if path == "" || path[0] == '/' || path[0] == '\\' {
      UnsafeStart(path);
      return false;
    }
    if Find(path, '\\', 0) != |path| || Find(path, '\0', 0) != |path| {
      UnsafeCharacter(path);
      return false;
    }
    var start: nat := 0;
    RestEnds(path);
    while start < |path|
      invariant start <= |path|
      invariant Safe(path) <==> RestSafe(path, start)
    {
      var end := Find(path, '/', start);
      var size := end - start;
      ScanStep(path, start);
      if size == 0 {
        return false;
      }
      var component := path[start..end];
      if component == "." || component == ".." {
        return false;
      }
      start := if end == |path| then |path| else end + 1;
    }
    return path[|path| - 1] != '/';
  }

  lemma EmptyUnsafe()
    ensures !Safe("")
  {
    assert "" in Split("");
  }

  /** What the scan still has to find out from `start` on; past the end nothing, unless the path
      ends in a slash, which leaves an empty last component. */
  predicate RestSafe(path: string, start: nat)
    requires path != "" && start <= |path|
  {
    (start < |path| || path[|path| - 1] == '/') ==> Safe(path[start..])
  }

  lemma RestEnds(path: string)
    requires path != ""
    ensures RestSafe(path, 0) <==> Safe(path)
    ensures RestSafe(path, |path|) <==> path[|path| - 1] != '/'
  {
    EmptyUnsafe();
    assert path[0..] == path && path[|path|..] == "";
  }

  lemma ScanStep(path: string, start: nat)
    requires start < |path| && '\\' !in path && '\0' !in path
    ensures
      var end := Find(path, '/', start);
      var c := path[start..end];
      if c == "" || c == "." || c == ".." then !RestSafe(path, start)
      else RestSafe(path, start) <==> RestSafe(path, if end == |path| then |path| else end + 1)
  {
    var end := Find(path, '/', start);
    var c := path[start..end];
    SplitStep(path, start);
    assert c in Split(path[start..]);
    if c != "" && c != "." && c != ".." {
      PlainComponent(path, start, end);
    }
  }

  lemma UnsafeStart(path: string)
    requires path == "" || path[0] == '/' || path[0] == '\\'
    ensures !Safe(path)
  {
    if path == "" {
      assert "" in Split(path);
    } else if path[0] == '/' {
      assert Split(path)[0] == path[..0];
      assert "" in Split(path);
    } else {
      UnsafeCharacter(path);
    }
  }

  lemma UnsafeCharacter(path: string)
    requires '\\' in path || '\0' in path
    ensures !Safe(path)
  {
    SplitMembers(path);
    var x := if '\\' in path then '\\' else '\0';
    var c :| c in Split(path) && x in c;
  }

  /** One round of the scan takes the first of the remaining components off. */
  lemma SplitStep(path: string, start: nat)
    requires start < |path|
    ensures
      var end := Find(path, '/', start);
      Split(path[start..]) == [path[start..end]] + (if end == |path| then [] else Split(path[end + 1..]))
  {
    hide Split, Find;
    var end := Find(path, '/', start);
    var s := path[start..];
    assert s[..end - start] == path[start..end];
    if end == |path| {
      assert s == path[start..end];
      SplitWhole(s);
    } else {
      SplitAt(s, end - start);
      assert s[end - start + 1..] == path[end + 1..];
    }
  }

  lemma PlainComponent(path: string, start: nat, end: nat)
    requires start < |path| && end == Find(path, '/', start)
    requires '\\' !in path && '\0' !in path
    requires path[start..end] != "" && path[start..end] != "." && path[start..end] != ".."
    ensures GoodComponent(path[start..end])
    ensures end < |path| ==> (Safe(path[start..]) <==> Safe(path[end + 1..]))
    ensures end == |path| ==> Safe(path[start..]) && path[|path| - 1] != '/'
  {
    var c := path[start..end];
    assert forall x :: x in c ==> x in path && x != '/';
    SplitStep(path, start);
    if end < |path| {
      if Safe(path[start..]) {
        forall d | d in Split(path[end + 1..])
          ensures GoodComponent(d)
        {
          assert d in Split(path[start..]);
        }
      }
    }
  }

  // ---- Save roots

  /** The sentinel that stands for the granted tree itself, alone or at the end of an absolute
      path, means the empty root. */
  function NormalizedSaveRoot(path: string): string {
    if path == SESSION_ROOT then ""
    else if |path| >= |ROOTED_SENTINEL| && path[|path| - |ROOTED_SENTINEL|..] == ROOTED_SENTINEL then ""
    else path
  }

  function RootedPath(root: string, relative: string): string {
    if root == "" then relative else root + "/" + relative
  }

  predicate SafeRoot(root: string) {
    root == "" || Safe(root)
  }

  lemma NormalizedIdempotent(path: string)
    ensures NormalizedSaveRoot(NormalizedSaveRoot(path)) == NormalizedSaveRoot(path)
    ensures NormalizedSaveRoot(path) == "" || NormalizedSaveRoot(path) == path
  {
  }

  /** A file's path is safe exactly if its root and its logical path are. */
  lemma RootedSafe(root: string, relative: string)
    ensures Safe(RootedPath(root, relative)) <==> SafeRoot(root) && Safe(relative)
  {
    if root != "" {
      SafeJoin(root, relative);
    }
  }

  /** Under one root different logical paths stay different, and under different roots one
      logical path gives different paths. */
  lemma RootedInjective(root: string, a: string, b: string)
    ensures RootedPath(root, a) == RootedPath(root, b) ==> a == b
    ensures RootedPath(a, root) == RootedPath(b, root) ==> a == b
  {
    if root != "" && RootedPath(root, a) == RootedPath(root, b) {
      assert RootedPath(root, a)[|root| + 1..] == a && RootedPath(root, b)[|root| + 1..] == b;
    }
    if RootedPath(a, root) == RootedPath(b, root) {
      if a != "" && b != "" {
        assert |a| == |b|;
        assert RootedPath(a, root)[..|a|] == a && RootedPath(b, root)[..|b|] == b;
      }
    }
  }

  // ---- The names of a torrent over time

  /** A torrent's save root and the logical paths of its files. */
  datatype Naming = Naming(root: string, logical: seq<string>)

  predicate SafeNaming(n: Naming) {
    SafeRoot(n.root) && forall i :: 0 <= i < |n.logical| ==> Safe(n.logical[i])
  }

  /** What a job may do to the names: nothing, give one file a safe logical path, or set the root to
      the normalized form of a safe path. */
  ghost predicate NamingStep(a: Naming, b: Naming) {
    || b == a
    || (exists i, name :: 0 <= i < |a.logical| && Renamed(a, i, name, b))
    || (exists root :: Rerooted(a, root, b))
  }

  predicate Renamed(a: Naming, i: nat, name: string, b: Naming) {
    i < |a.logical| && Safe(name) && b == a.(logical := a.logical[i := name])
  }

  predicate Rerooted(a: Naming, root: string, b: Naming) {
    Safe(root) && b == a.(root := NormalizedSaveRoot(root))
  }

  lemma NamingSame(n: Naming)
    ensures NamingStep(n, n)
  {
  }

  lemma NamingMoved(n: Naming, root: string)
    requires Safe(root)
    ensures NamingStep(n, Naming(NormalizedSaveRoot(root), n.logical))
  {
    assert Rerooted(n, root, Naming(NormalizedSaveRoot(root), n.logical));
  }

  lemma NamingRenamed(n: Naming, i: nat, name: string)
    requires i < |n.logical| && Safe(name)
    ensures NamingStep(n, Naming(n.root, n.logical[i := name]))
  {
    assert Renamed(n, i, name, Naming(n.root, n.logical[i := name]));
  }

  lemma NamingStepSafe(a: Naming, b: Naming)
    requires NamingStep(a, b) && SafeNaming(a)
    ensures SafeNaming(b) && |b.logical| == |a.logical|
  {
  }

  /** Over any sequence of renames, moves and resets, whatever their arguments: if the names were
      safe at the start they are safe, and so is every path made of them. */
  lemma {:induction false} NamesStaySafe(history: seq<Naming>, n: nat)
    requires n < |history| && SafeNaming(history[0])
    requires forall k :: 0 <= k < |history| - 1 ==> NamingStep(history[k], history[k + 1])
    ensures SafeNaming(history[n]) && |history[n].logical| == |history[0].logical|
    ensures forall i :: 0 <= i < |history[n].logical| ==> Safe(RootedPath(history[n].root, history[n].logical[i]))
  {
    if n > 0 {
      NamesStaySafe(history, n - 1);
      NamingStepSafe(history[n - 1], history[n - 1 + 1]);
    }
    forall i | 0 <= i < |history[n].logical|
      ensures Safe(RootedPath(history[n].root, history[n].logical[i]))
    {
      RootedSafe(history[n].root, history[n].logical[i]);
    }
  }

  // ---- Ancestors

  /** What the separators from position s on cut off, in the order of the separators. */
  function AncestorsFrom(path: string, s: nat): seq<string>
    requires s <= |path|
    decreases |path| - s
  {
    if s == |path| then [] else [path[..s]] + AncestorsFrom(path, Find(path, '/', s + 1))
  }

  function Ancestors(path: string): seq<string> {
    AncestorsFrom(path, Find(path, '/', 0))
  }

  /** d is a directory above the path. */
  predicate IsAncestor(d: string, path: string) {
    |d| < |path| && path[..|d|] == d && path[|d|] == '/'
  }

  lemma {:induction false} AncestorsFromExact(path: string, s: nat)
    requires s <= |path| && (s < |path| ==> path[s] == '/')
    ensures forall d :: d in AncestorsFrom(path, s) <==> s <= |d| && IsAncestor(d, path)
    ensures forall i, j :: 0 <= i < j < |AncestorsFrom(path, s)| ==> |AncestorsFrom(path, s)[i]| < |AncestorsFrom(path, s)[j]|
    decreases |path| - s
  {
    if s < |path| {
      hide Find;
      var next := Find(path, '/', s + 1);
      AncestorsFromExact(path, next);
      var all, rest := AncestorsFrom(path, s), AncestorsFrom(path, next);
      assert all == [path[..s]] + rest;
      forall d
        ensures d in all <==> s <= |d| && IsAncestor(d, path)
      {
        assert d in all <==> d == path[..s] || d in rest;
      }
      assert forall k :: 0 <= k < |rest| ==> rest[k] in rest;
    }
  }

  /** The list holds exactly the strict ancestors, outermost first, and those of a safe path are
      safe. */
  lemma AncestorsExact(path: string)
    ensures forall d :: d in Ancestors(path) <==> IsAncestor(d, path)
    ensures forall i, j :: 0 <= i < j < |Ancestors(path)| ==> |Ancestors(path)[i]| < |Ancestors(path)[j]|
    ensures Safe(path) ==> forall d :: d in Ancestors(path) ==> Safe(d)
  {
    var s := Find(path, '/', 0);
    AncestorsFromExact(path, s);
    forall d | d in Ancestors(path) && Safe(path)
      ensures Safe(d)
    {
      assert path == d + "/" + path[|d| + 1..];
      SafeJoin(d, path[|d| + 1..]);
    }
  }
}
