/**
 The asset graph check of a prepared release: every file the frontend index reaches by references must be
 there (scripts/verify_production_release.py). A path is its list of parts. What the regular expressions
 and the HTML parser find in a file is given as the list of references of that file.
 */
module AssetGraph {
  import opened Common

  type Path = seq<string>

  // ---------------------------------------------------------------- one reference

  /** The text before the first occurrence of a character. */
  function Before(s: string, c: char): string {
    if s == "" || s[0] == c then "" else [s[0]] + Before(s[1..], c)
  }

  function DropSlashes(s: string): string {
    if s != "" && s[0] == '/' then DropSlashes(s[1..]) else s
  }

  /** The text after the first slash, or nothing. */
  function AfterSlash(s: string): string {
    if s == "" then "" else if s[0] == '/' then s[1..] else AfterSlash(s[1..])
  }

  lemma {:induction false} AfterSlashShorter(s: string)
    ensures s != "" ==> |AfterSlash(s)| < |s|
  {
    if s != "" && s[0] != '/' {
      AfterSlashShorter(s[1..]);
    }
  }

  /** pathlib's parts of a relative path: empty parts and single dots disappear. */
  function Parts(s: string): Path
    decreases |s|
  {
    if s == "" then [] else
      var part := Before(s, '/');
      AfterSlashShorter(s);
      (if part == "" || part == "." then [] else [part]) + Parts(AfterSlash(s))
  }

  function Parent(p: Path): Path {
    if p == [] then [] else p[..|p| - 1]
  }

  const DIST: Path := ["frontend", "dist"]
  const INDEX: Path := ["frontend", "dist", "index.html"]

  datatype Reference = External | Unsafe | At(path: Path)

  /** _frontend_reference_path */
  function Resolve(reference: string, source: Path): Reference {
    var clean := Before(Before(reference, '#'), '?');
    if clean == "" || "data:" <= clean || "http://" <= clean || "https://" <= clean || "//" <= clean then External
    else if ".//" <= clean then Unsafe // what follows "./" is an absolute path, which replaces the parent
    else
      var relative :=
        if "/" <= clean then DIST + Parts(DropSlashes(clean))
        else if "assets/" <= clean then DIST + Parts(clean)
        else if "./" <= clean then Parent(source) + Parts(clean[2..])
        else Parent(source) + Parts(clean);
      if ".." in relative then Unsafe else At(relative)
  }

  lemma {:induction false} BeforeAppend(a: string, c: char, b: string)
    requires forall i :: 0 <= i < |a| ==> a[i] != c
    ensures Before(a, c) == a && Before(a + [c] + b, c) == a
  {
    if a != "" {
      BeforeAppend(a[1..], c, b);
      assert (a + [c] + b)[1..] == a[1..] + [c] + b;
      assert a == [a[0]] + a[1..];
    } else {
      assert a + [c] + b == [c] + b;
    }
  }

  /** A query or a fragment does not change what a reference means, nor does the place of a reference that
      starts at the root or at the assets. */
  lemma QueryAndPlaceIgnored(path: string, query: string, fragment: string, source: Path, other: Path)
    requires forall i :: 0 <= i < |path| ==> path[i] != '#' && path[i] != '?'
    requires forall i :: 0 <= i < |query| ==> query[i] != '#'
    ensures Resolve(path + ['?'] + query, source) == Resolve(path, source)
    ensures Resolve(path + ['?'] + query + ['#'] + fragment, source) == Resolve(path, source)
    ensures "/" <= path || "assets/" <= path ==> Resolve(path, source) == Resolve(path, other)
  {
    hide Parts;
    var whole := path + ['?'] + query;
    BeforeAppend(path, '#', "");
    BeforeAppend(path, '?', query);
    BeforeAppend(whole, '#', fragment);
  }

  /** The position of the last dot, or -1. */
  function LastDot(name: string): int {
    if name == "" then -1 else if name[|name| - 1] == '.' then |name| - 1 else LastDot(name[..|name| - 1])
  }

  lemma {:induction false} LastDotRange(name: string)
    ensures -1 <= LastDot(name) < |name|
  {
    if name != "" && name[|name| - 1] != '.' {
      LastDotRange(name[..|name| - 1]);
    }
  }

  function LowerChar(c: char): char {
    if 'A' <= c <= 'Z' then c + 32 as char else c
  }

  function Lower(s: string): string {
    seq(|s|, i requires 0 <= i < |s| => LowerChar(s[i]))
  }

  /** pathlib's suffix, in lower case: a leading dot starts no suffix, nor does a final one. */
  function Suffix(p: Path): string {
    if p == [] then "" else
      var name := p[|p| - 1];
      LastDotRange(name);
      var i := LastDot(name);
      if 0 < i < |name| - 1 then Lower(name[i..]) else ""
  }

  predicate IsScanned(p: Path) {
    Suffix(p) == ".js" || Suffix(p) == ".css"
  }

  // ---------------------------------------------------------------- the graph

  /** The files of the release, each with the references found in it, and those of the index. */
  datatype Release = Release(index: seq<string>, files: map<Path, seq<string>>)

  predicate Entry(r: Release, p: Path) {
    exists i :: 0 <= i < |r.index| && Resolve(r.index[i], INDEX) == At(p)
  }

  predicate Child(r: Release, p: Path, q: Path) {
    p in r.files && IsScanned(p) && exists i :: 0 <= i < |r.files[p]| && Resolve(r.files[p][i], p) == At(q)
  }

  predicate UnsafeIndex(r: Release) {
    exists i :: 0 <= i < |r.index| && Resolve(r.index[i], INDEX) == Unsafe
  }

  predicate UnsafeFile(r: Release, p: Path) {
    p in r.files && IsScanned(p) && exists i :: 0 <= i < |r.files[p]| && Resolve(r.files[p][i], p) == Unsafe
  }

  /** A walk along references that starts at the index. */
  ghost predicate Walk(r: Release, walk: seq<Path>) {
    walk != [] && Entry(r, walk[0]) && forall i :: 0 <= i < |walk| - 1 ==> Child(r, walk[i], walk[i + 1])
  }

  ghost predicate Reachable(r: Release, p: Path) {
    exists walk :: Walk(r, walk) && walk[|walk| - 1] == p
  }

  lemma EntryIsReachable(r: Release, p: Path)
    requires Entry(r, p)
    ensures Reachable(r, p)
  {
    assert Walk(r, [p]);
  }

  lemma ChildIsReachable(r: Release, p: Path, q: Path)
    requires Reachable(r, p) && Child(r, p, q)
    ensures Reachable(r, q)
  {
    hide Entry, Child;
    var walk :| Walk(r, walk) && walk[|walk| - 1] == p;
    var longer := walk + [q];
    assert forall i :: 0 <= i < |longer| - 1 ==> longer[i] == walk[i];
    assert Walk(r, longer);
  }

  /** A set that holds the entries and the children of its members holds every walk. */
  lemma {:induction false} WalkStaysIn(r: Release, closed: set<Path>, walk: seq<Path>)
    requires Walk(r, walk)
    requires forall p :: Entry(r, p) ==> p in closed
    requires forall p, q :: p in closed && Child(r, p, q) ==> q in closed
    ensures walk[|walk| - 1] in closed
  {
    hide Entry, Child;
    if |walk| > 1 {
      var front := walk[..|walk| - 1];
      assert forall i :: 0 <= i < |front| ==> front[i] == walk[i];
      WalkStaysIn(r, closed, front);
      assert Child(r, walk[|walk| - 2], walk[|walk| - 1]);
    }
  }

  // ---------------------------------------------------------------- the check

  datatype Failure = UnsafeReference(source: Path) | NoScript | NoStyle | Missing(path: Path)

  /** The paths of a list of references, in order, or the finding that one is unsafe. */
  method ResolveAll(references: seq<string>, source: Path) returns (safe: bool, paths: seq<Path>)
    ensures safe <==> forall i :: 0 <= i < |references| ==> Resolve(references[i], source) != Unsafe
    ensures safe ==> forall p :: p in paths <==>
      exists i :: 0 <= i < |references| && Resolve(references[i], source) == At(p)
  {
    hide Resolve;
    safe, paths := true, [];
    for n := 0 to |references|
      invariant forall i :: 0 <= i < n ==> Resolve(references[i], source) != Unsafe
      invariant forall p :: p in paths <==> exists i :: 0 <= i < n && Resolve(references[i], source) == At(p)
    {
      match Resolve(references[n], source) {
        case External =>
        case Unsafe => return false, [];
        case At(p) => paths := paths + [p];
      }
    }
  }

  /** Everything reachable can be checked: the files are there and hold no unsafe reference. */
  ghost predicate Sound(r: Release) {
    forall p :: Reachable(r, p) ==> p in r.files && !UnsafeFile(r, p)
  }

  ghost predicate HasEntry(r: Release, suffix: string) {
    exists p :: Entry(r, p) && Suffix(p) == suffix
  }

  /** What each failure says about the release. */
  ghost predicate Explains(r: Release, failure: Failure) {
    match failure
    case UnsafeReference(source) =>
      (source == INDEX && UnsafeIndex(r)) || (Reachable(r, source) && UnsafeFile(r, source))
    case NoScript => !HasEntry(r, ".js")
    case NoStyle => !HasEntry(r, ".css")
    case Missing(p) => Reachable(r, p) && p !in r.files
  }

  /** The work list after some turns: what was visited has been scanned, what it refers to is in one list or
      the other, and nothing got in that is not reachable. */
  ghost predicate Exploring(r: Release, pending: seq<Path>, visited: set<Path>) {
    && visited <= r.files.Keys
    && (forall p :: p in pending || p in visited ==> Reachable(r, p))
    && (forall p :: Entry(r, p) ==> p in pending || p in visited)
    && (forall p, q :: p in visited && Child(r, p, q) ==> q in pending || q in visited)
    && (forall p :: p in visited ==> !UnsafeFile(r, p))
  }

  lemma Explored(r: Release, visited: set<Path>)
    requires Exploring(r, [], visited)
    ensures forall p :: p in visited <==> Reachable(r, p)
    ensures Sound(r)
  {
    hide Entry, Child, UnsafeFile;
    forall p | Reachable(r, p) ensures p in visited {
      var walk :| Walk(r, walk) && walk[|walk| - 1] == p;
      WalkStaysIn(r, visited, walk);
    }
  }

  lemma SkipVisited(r: Release, pending: seq<Path>, visited: set<Path>)
    requires Exploring(r, pending, visited) && pending != [] && pending[|pending| - 1] in visited
    ensures Exploring(r, pending[..|pending| - 1], visited)
  {
    hide Entry, Child, UnsafeFile, Reachable;
    assert forall p :: p in pending <==> p in pending[..|pending| - 1] || p == pending[|pending| - 1];
  }

  /** One file visited: its children not yet visited join the list, perhaps again. */
  lemma VisitOne(r: Release, pending: seq<Path>, visited: set<Path>, children: seq<Path>, more: seq<Path>)
    requires Exploring(r, pending, visited) && pending != []
    requires pending[|pending| - 1] in r.files && !UnsafeFile(r, pending[|pending| - 1])
    requires forall q :: q in children <==> Child(r, pending[|pending| - 1], q)
    requires var after := visited + {pending[|pending| - 1]};
      forall q :: q in more <==> q in pending[..|pending| - 1] || (q in children && q !in after)
    ensures Exploring(r, more, visited + {pending[|pending| - 1]})
  {
    hide Entry, Child, UnsafeFile, Reachable;
    var p := pending[|pending| - 1];
    assert forall x :: x in pending <==> x in pending[..|pending| - 1] || x == p;
    forall q | q in children ensures Reachable(r, q) {
      ChildIsReachable(r, p, q);
    }
  }

  lemma FirstExploring(r: Release, entries: seq<Path>)
    requires forall p :: p in entries <==> Entry(r, p)
    ensures Exploring(r, entries, {})
  {
    hide Entry, Child, UnsafeFile, Reachable;
    forall p | p in entries ensures Reachable(r, p) {
      EntryIsReachable(r, p);
    }
  }

  /** The references found in one file, if its kind is scanned. */
  method Scan(r: Release, p: Path) returns (safe: bool, children: seq<Path>)
    requires p in r.files
    ensures safe <==> !UnsafeFile(r, p)
    ensures safe ==> forall q :: q in children <==> Child(r, p, q)
  {
    hide Resolve, Suffix;
    if !IsScanned(p) {
      return true, [];
    }
    safe, children := ResolveAll(r.files[p], p);
  }

  /** The loop over one file's matches. */
  method Push(pending: seq<Path>, visited: set<Path>, children: seq<Path>) returns (more: seq<Path>)
    ensures forall q :: q in more <==> q in pending || (q in children && q !in visited)
  {
    more := pending;
    for n := 0 to |children|
      invariant forall q :: q in more <==> q in pending || (q in children[..n] && q !in visited)
    {
      assert children[..n + 1] == children[..n] + [children[n]];
      if children[n] !in visited {
        more := more + [children[n]];
      }
    }
    assert children[..|children|] == children;
  }

  /** The work list, which can hold a path more than once. */
  method Explore(r: Release, entries: seq<Path>) returns (result: Result<set<Path>, Failure>)
    requires forall p :: p in entries <==> Entry(r, p)
    ensures result.Ok? <==> Sound(r)
    ensures result.Ok? ==> forall p :: p in result.value <==> Reachable(r, p)
    ensures result.Err? ==> Explains(r, result.error)
  {
    hide Entry, Child, UnsafeFile, Reachable, Exploring, UnsafeIndex, HasEntry;
    FirstExploring(r, entries);
    var pending, visited := entries, {};
    while pending != []
      invariant Exploring(r, pending, visited) && visited <= r.files.Keys
      decreases r.files.Keys - visited, |pending|
    {
      var p := pending[|pending| - 1];
      PendingIsReachable(r, pending, visited, p);
      if p in visited {
        SkipVisited(r, pending, visited);
        pending := pending[..|pending| - 1];
      } else {
        if p !in r.files {
          return Err(Missing(p));
        }
        var safe, children := Scan(r, p);
        if !safe {
          return Err(UnsafeReference(p));
        }
        var more := Push(pending[..|pending| - 1], visited + {p}, children);
        VisitOne(r, pending, visited, children, more);
        assert p in r.files.Keys - visited && p !in r.files.Keys - (visited + {p});
        pending, visited := more, visited + {p};
      }
    }
    Explored(r, visited);
    return Ok(visited);
  }

  lemma PendingIsReachable(r: Release, pending: seq<Path>, visited: set<Path>, p: Path)
    requires Exploring(r, pending, visited) && p in pending
    ensures Reachable(r, p)
  {
  }

  /** Some path of a list has the suffix. */
  method AnySuffix(paths: seq<Path>, suffix: string) returns (found: bool)
    ensures found <==> exists p :: p in paths && Suffix(p) == suffix
  {
    hide Suffix;
    for n := 0 to |paths|
      invariant forall i :: 0 <= i < n ==> Suffix(paths[i]) != suffix
    {
      if Suffix(paths[n]) == suffix {
        assert paths[n] in paths;
        return true;
      }
    }
    return false;
  }

  /** verify_frontend_asset_graph: it accepts exactly the releases whose index is safe and names a script and
      a style, and in which everything reachable is there and safe; then it returns exactly what is
      reachable, and otherwise a finding that is so. */
  method Verify(r: Release) returns (result: Result<set<Path>, Failure>)
    ensures result.Ok? <==> !UnsafeIndex(r) && HasEntry(r, ".js") && HasEntry(r, ".css") && Sound(r)
    ensures result.Ok? ==> forall p :: p in result.value <==> Reachable(r, p)
    ensures result.Err? ==> Explains(r, result.error)
  {
    hide Resolve, Suffix, Reachable, UnsafeFile;
    var safe, entries := ResolveAll(r.index, INDEX);
    if !safe {
      return Err(UnsafeReference(INDEX));
    }
    assert forall p :: p in entries <==> Entry(r, p);
    var script := AnySuffix(entries, ".js");
    if !script {
      return Err(NoScript);
    }
    var style := AnySuffix(entries, ".css");
    if !style {
      return Err(NoStyle);
    }
    result := Explore(r, entries);
  }

  // ---------------------------------------------------------------- nothing outside the frontend

  lemma ResolveStaysIn(reference: string, source: Path)
    requires DIST <= Parent(source)
    ensures Resolve(reference, source).At? ==>
      DIST <= Resolve(reference, source).path && ".." !in Resolve(reference, source).path
  {
    hide Parts, Before;
  }

  lemma DistIsNotScanned()
    ensures !IsScanned(DIST)
  {
    assert "dist"[..3] == "dis" && "dis"[..2] == "di" && "di"[..1] == "d" && "d"[..0] == "";
    assert LastDot("dist") == -1;
  }

  lemma ScannedIsBelowDist(p: Path)
    requires DIST <= p && IsScanned(p)
    ensures DIST <= Parent(p)
  {
    hide IsScanned;
    DistIsNotScanned();
    assert |p| == |DIST| ==> p == DIST;
  }

  /** Every file a walk meets lies below frontend/dist, without a step up. */
  lemma {:induction false} WalkStaysInside(r: Release, walk: seq<Path>)
    requires Walk(r, walk)
    ensures DIST <= walk[|walk| - 1] && ".." !in walk[|walk| - 1]
  {
    hide Resolve, IsScanned;
    var p := walk[|walk| - 1];
    if |walk| == 1 {
      var i :| 0 <= i < |r.index| && Resolve(r.index[i], INDEX) == At(p);
      ResolveStaysIn(r.index[i], INDEX);
    } else {
      var front := walk[..|walk| - 1];
      var q := walk[|walk| - 2];
      assert forall i :: 0 <= i < |front| ==> front[i] == walk[i];
      WalkStaysInside(r, front);
      assert Child(r, q, p);
      var i :| 0 <= i < |r.files[q]| && Resolve(r.files[q][i], q) == At(p);
      ScannedIsBelowDist(q);
      ResolveStaysIn(r.files[q][i], q);
    }
  }

  lemma ReachableStaysInside(r: Release, p: Path)
    requires Reachable(r, p)
    ensures DIST <= p && ".." !in p
  {
    var walk :| Walk(r, walk) && walk[|walk| - 1] == p;
    WalkStaysInside(r, walk);
  }

  // ---------------------------------------------------------------- paths and the strings returned for them

  /** as_posix */
  function Posix(p: Path): string {
    if p == [] then "" else if |p| == 1 then p[0] else p[0] + "/" + Posix(p[1..])
  }

  predicate CleanPart(part: string) {
    part != "" && part != "." && '/' !in part
  }

  predicate CleanPath(p: Path) {
    forall i :: 0 <= i < |p| ==> CleanPart(p[i])
  }

  lemma {:induction false} BeforeHasNone(s: string, c: char)
    ensures c !in Before(s, c)
  {
    if s != "" && s[0] != c {
      BeforeHasNone(s[1..], c);
    }
  }

  /** Resolving never makes an empty part, a single dot or a part with a slash in it. */
  lemma {:induction false} PartsAreClean(s: string)
    ensures CleanPath(Parts(s))
    decreases |s|
  {
    if s != "" {
      AfterSlashShorter(s);
      PartsAreClean(AfterSlash(s));
      BeforeHasNone(s, '/');
    }
  }

  lemma {:induction false} SplitAtSlash(a: string, b: string)
    requires '/' !in a
    ensures Before(a, '/') == a && AfterSlash(a) == ""
    ensures Before(a + "/" + b, '/') == a && AfterSlash(a + "/" + b) == b
  {
    if a != "" {
      SplitAtSlash(a[1..], b);
      assert (a + "/" + b)[1..] == a[1..] + "/" + b;
      assert a[0] in a;
    } else {
      assert a + "/" + b == "/" + b;
    }
  }

  /** The string returned for a path gives the path back, so two files are never reported as one. */
  lemma {:induction false} PosixRoundTrip(p: Path)
    requires CleanPath(p)
    ensures Parts(Posix(p)) == p
  {
    if p != [] {
      assert CleanPart(p[0]);
      assert CleanPath(p[1..]);
      PosixRoundTrip(p[1..]);
      SplitAtSlash(p[0], Posix(p[1..]));
      if |p| == 1 {
        assert Parts("") == [];
      } else {
        assert Posix(p) != "";
      }
      assert p == [p[0]] + p[1..];
    }
  }

  /** Every path the check meets has clean parts. */
  lemma ReachableIsClean(r: Release, p: Path)
    requires Reachable(r, p)
    ensures CleanPath(p) && Parts(Posix(p)) == p
  {
    hide Entry, Child, Posix, Parts;
    var walk :| Walk(r, walk) && walk[|walk| - 1] == p;
    WalkIsClean(r, walk);
    PosixRoundTrip(p);
  }

  lemma ResolveIsClean(reference: string, source: Path)
    requires CleanPath(source)
    ensures Resolve(reference, source).At? ==> CleanPath(Resolve(reference, source).path)
  {
    hide Parts, Before;
    var clean := Before(Before(reference, '#'), '?');
    PartsAreClean(DropSlashes(clean));
    PartsAreClean(clean);
    if "./" <= clean {
      PartsAreClean(clean[2..]);
    }
    assert CleanPart("frontend") && CleanPart("dist");
    assert CleanPath(Parent(source));
  }

  lemma {:induction false} WalkIsClean(r: Release, walk: seq<Path>)
    requires Walk(r, walk)
    ensures CleanPath(walk[|walk| - 1])
  {
    hide Resolve, IsScanned, CleanPart;
    var p := walk[|walk| - 1];
    if |walk| == 1 {
      var i :| 0 <= i < |r.index| && Resolve(r.index[i], INDEX) == At(p);
      IndexIsClean();
      ResolveIsClean(r.index[i], INDEX);
    } else {
      var front := walk[..|walk| - 1];
      var q := walk[|walk| - 2];
      assert forall i :: 0 <= i < |front| ==> front[i] == walk[i];
      WalkIsClean(r, front);
      assert Child(r, q, p);
      var i :| 0 <= i < |r.files[q]| && Resolve(r.files[q][i], q) == At(p);
      ResolveIsClean(r.files[q][i], q);
    }
  }

  lemma IndexIsClean()
    ensures CleanPath(INDEX)
  {
    assert CleanPart("frontend") && CleanPart("dist") && CleanPart("index.html");
  }

  // ---------------------------------------------------------------- where a reference leads

  /** Neither a fragment nor a query starts in the text. */
  predicate Plain(s: string) {
    '#' !in s && '?' !in s
  }

  lemma {:induction false} BeforePlain(s: string, c: char)
    requires c !in s
    ensures Before(s, c) == s
  {
    if s != "" {
      assert s == [s[0]] + s[1..] && s[0] in s;
      assert forall x :: x in s[1..] ==> x in s;
      BeforePlain(s[1..], c);
    }
  }

  /** The string of a clean path starts with its first part, and a slash when there are more. */
  lemma PosixStarts(q: Path)
    requires CleanPath(q) && q != []
    ensures Posix(q) != "" && Posix(q)[0] != '/' && q[0] <= Posix(q) && '/' !in q[0] && q[0] != "" && q[0] != "."
    ensures |q| > 1 ==> Posix(q) == q[0] + "/" + Posix(q[1..]) && Posix(q[1..]) != "" && Posix(q[1..])[0] != '/'
  {
    PosixStartsClean(q);
    if |q| > 1 {
      assert forall i :: 0 <= i < |q[1..]| ==> q[1..][i] == q[i + 1];
      PosixStartsClean(q[1..]);
    }
  }

  lemma PosixStartsClean(q: Path)
    requires CleanPath(q) && q != []
    ensures CleanPart(q[0]) && q[0] <= Posix(q) && Posix(q) != "" && Posix(q)[0] != '/'
  {
    var part, text := q[0], Posix(q);
    assert CleanPart(part);
    assert text == part || text == part + "/" + Posix(q[1..]);
    assert text[0] == part[0] && part[0] in part;
  }

  /** From the directory of the referring file: "./" and the string of a path is that path, below that directory. */
  lemma DotLeadsBeside(q: Path, source: Path)
    requires CleanPath(q) && q != [] && Plain(Posix(q)) && source != [] && ".." !in source
    ensures Resolve("./" + Posix(q), source) == if ".." in q then Unsafe else At(source[..|source| - 1] + q)
  {
    hide Parts, Posix, Before;
    var text := "./" + Posix(q);
    PosixStarts(q);
    assert Plain(text);
    BeforePlain(text, '#');
    BeforePlain(text, '?');
    PosixRoundTrip(q);
    assert text[2..] == Posix(q) && text[0] == '.' && text[1] == '/' && text[2] != '/';
  }

  /** From the root: below the distribution. */
  lemma RootLeadsToDist(q: Path, source: Path)
    requires CleanPath(q) && q != [] && Plain(Posix(q))
    ensures Resolve("/" + Posix(q), source) == if ".." in q then Unsafe else At(["frontend", "dist"] + q)
  {
    hide Parts, Posix, Before;
    var text := "/" + Posix(q);
    PosixStarts(q);
    assert Plain(text);
    BeforePlain(text, '#');
    BeforePlain(text, '?');
    PosixRoundTrip(q);
    assert text[0] == '/' && text[1] != '/' && text[1..] == Posix(q);
    assert DropSlashes(text) == Posix(q);
  }

  /** The string alone: beside the referring file, but for data and for what starts with the assets directory. */
  lemma BareLeadsBeside(q: Path, source: Path)
    requires CleanPath(q) && q != [] && Plain(Posix(q)) && source != [] && ".." !in source
    ensures Resolve(Posix(q), source) ==
      if "data:" <= q[0] then External
      else if ".." in q then Unsafe
      else if q[0] == "assets" && |q| > 1 then At(["frontend", "dist"] + q)
      else At(source[..|source| - 1] + q)
  {
    hide Parts, Posix, Before, CleanPath;
    var text := Posix(q);
    PosixStarts(q);
    BeforePlain(text, '#');
    BeforePlain(text, '?');
    PosixRoundTrip(q);
    NoSpecialStart(q);
    PrefixOfPosix(q, "data:");
    UpToSlash(q, "assets");
    assert "assets" + "/" == "assets/";
  }

  /** The other special prefixes never start the string of a clean path. */
  lemma NoSpecialStart(q: Path)
    requires CleanPath(q) && q != []
    ensures var text := Posix(q);
      !("/" <= text) && !("//" <= text) && !("./" <= text) && !(".//" <= text)
      && !("http://" <= text) && !("https://" <= text)
  {
    hide Posix;
    var text := Posix(q);
    PosixStarts(q);
    UpToSlash(q, ".");
    UpToSlash(q, "http:");
    UpToSlash(q, "https:");
    assert "." + "/" == "./" && "http:" + "/" == "http:/" && "https:" + "/" == "https:/";
    assert ".//" <= text ==> "./" <= text;
    TwoSlashes(text, "http:");
    TwoSlashes(text, "https:");
    assert "http:" + "//" == "http://" && "https:" + "//" == "https://";
  }

  lemma TwoSlashes(text: string, part: string)
    ensures part + "//" <= text ==> part + "/" <= text && |text| > |part| + 1 && text[|part| + 1] == '/'
  {
    if part + "//" <= text {
      assert (part + "//")[|part| + 1] == '/' && part + "/" <= part + "//";
    }
  }

  /** The first slash of the string of a clean path ends its first part. */
  lemma FirstSlash(q: Path)
    requires CleanPath(q) && q != []
    ensures |q| > 1 ==> |Posix(q)| > |q[0]| + 1 && Posix(q)[|q[0]|] == '/' && Posix(q)[|q[0]| + 1] != '/'
    ensures |q| == 1 ==> Posix(q) == q[0]
    ensures |q[0]| <= |Posix(q)| && forall i :: 0 <= i < |q[0]| ==> Posix(q)[i] == q[0][i] != '/'
  {
    PosixStarts(q);
    assert forall i :: 0 <= i < |q[0]| ==> q[0][i] in q[0];
    if |q| > 1 {
      var rest := Posix(q[1..]);
      assert Posix(q) == q[0] + "/" + rest;
      assert (q[0] + "/" + rest)[|q[0]| + 1] == rest[0];
    }
    hide Posix;
  }

  /** A prefix without a slash lies in the first part. */
  lemma PrefixOfPosix(q: Path, prefix: string)
    requires CleanPath(q) && q != [] && '/' !in prefix
    ensures prefix <= Posix(q) <==> prefix <= q[0]
  {
    hide Posix;
    FirstSlash(q);
    var text := Posix(q);
    if prefix <= text {
      assert forall i :: 0 <= i < |prefix| ==> prefix[i] in prefix && text[i] == prefix[i];
    }
  }

  /** A prefix that ends with the first slash is the first part. */
  lemma UpToSlash(q: Path, part: string)
    requires CleanPath(q) && q != [] && '/' !in part
    ensures part + "/" <= Posix(q) <==> part == q[0] && |q| > 1
    ensures part + "/" <= Posix(q) ==> |Posix(q)| > |part| + 1 && Posix(q)[|part| + 1] != '/'
  {
    hide Posix;
    FirstSlash(q);
    var text := Posix(q);
    var prefix := part + "/";
    if prefix <= text {
      assert prefix[|part|] == '/' && text[|part|] == '/';
      assert forall i :: 0 <= i < |part| ==> prefix[i] == part[i] && part[i] in part && text[i] == prefix[i];
      assert |part| == |q[0]|;
      assert part == q[0];
    } else if part == q[0] && |q| > 1 {
      assert forall i :: 0 <= i < |prefix| ==> prefix[i] == text[i];
    }
  }

  /** What another site holds, or the reference itself, is not looked at. */
  lemma ElsewhereIsIgnored(rest: string, source: Path)
    ensures forall prefix :: prefix in {"data:", "http://", "https://", "//", "#", "?"} ==>
      Resolve(prefix + rest, source) == External
    ensures Resolve("", source) == External
  {
    forall prefix | prefix in {"data:", "http://", "https://", "//", "#", "?"}
      ensures Resolve(prefix + rest, source) == External
    {
      if prefix in {"#", "?"} {
        assert prefix + rest == [prefix[0]] + rest;
        StartsWithMark(prefix[0], rest);
      } else {
        PrefixSurvives(prefix, rest);
      }
      hide Before, Parts;
    }
  }

  lemma PrefixSurvives(prefix: string, rest: string)
    requires Plain(prefix)
    ensures prefix <= Before(Before(prefix + rest, '#'), '?')
  {
    hide Before;
    var front := Before(prefix + rest, '#');
    PrefixKept(prefix, rest, '#');
    assert front == prefix + front[|prefix|..];
    PrefixKept(prefix, front[|prefix|..], '?');
  }

  lemma StartsWithMark(mark: char, rest: string)
    requires mark in {'#', '?'}
    ensures Before(Before([mark] + rest, '#'), '?') == ""
  {
    assert ([mark] + rest)[0] == mark;
  }

  lemma {:induction false} PrefixKept(prefix: string, rest: string, c: char)
    requires c !in prefix
    ensures prefix <= Before(prefix + rest, c)
  {
    if prefix != "" {
      assert prefix == [prefix[0]] + prefix[1..] && prefix[0] in prefix;
      assert forall x :: x in prefix[1..] ==> x in prefix;
      PrefixKept(prefix[1..], rest, c);
      assert (prefix + rest)[1..] == prefix[1..] + rest;
    }
  }

  // ---------------------------------------------------------------- which files are scanned

  /** The name ends with the letters in either case, after something else. */
  predicate EndsWith(name: string, small: string, large: string)
    requires |small| == |large|
  {
    |name| > |small|
    && forall i :: 0 <= i < |small| ==> name[|name| - |small| + i] in {small[i], large[i]}
  }

  lemma {:induction false} LastDotIs(name: string, i: nat)
    requires i < |name| && name[i] == '.' && forall j :: i < j < |name| ==> name[j] != '.'
    ensures LastDot(name) == i
  {
    if i < |name| - 1 {
      LastDotIs(name[..|name| - 1], i);
    }
  }

  lemma {:induction false} LastDotIsDot(name: string)
    ensures -1 <= LastDot(name) < |name| && (LastDot(name) >= 0 ==> name[LastDot(name)] == '.')
  {
    if name != "" && name[|name| - 1] != '.' {
      LastDotIsDot(name[..|name| - 1]);
    }
  }

  lemma EndChar(name: string, small: string, large: string, i: nat)
    requires |small| == |large| && EndsWith(name, small, large) && i < |small|
    ensures name[|name| - |small| + i] in {small[i], large[i]}
  {
  }

  /** A file has one of the two suffixes exactly when its name ends so, in any case. */
  lemma SuffixMeans(p: Path, small: string, large: string)
    requires p != [] && (small, large) in {(".js", ".JS"), (".css", ".CSS")}
    ensures Suffix(p) == small <==> EndsWith(p[|p| - 1], small, large)
  {
    var name := p[|p| - 1];
    hide EndsWith, Suffix, Lower;
    if EndsWith(name, small, large) {
      EndingIsSuffix(name, small, large);
      SuffixFromDot(p, small);
    } else if Suffix(p) == small {
      SuffixFromDot(p, small);
      SuffixIsEnding(name, small, large);
    }
  }

  lemma SuffixFromDot(p: Path, small: string)
    requires p != [] && small in {".js", ".css"}
    ensures var name := p[|p| - 1]; var at := LastDot(name);
      Suffix(p) == small <==> 0 < at < |name| && Lower(name[at..]) == small
  {
    LastDotIsDot(p[|p| - 1]);
    hide LastDot;
  }

  lemma EndingIsSuffix(name: string, small: string, large: string)
    requires (small, large) in {(".js", ".JS"), (".css", ".CSS")} && EndsWith(name, small, large)
    ensures 0 < LastDot(name) < |name| && Lower(name[LastDot(name)..]) == small
  {
    var at := |name| - |small|;
    EndChar(name, small, large, 0);
    forall j | at < j < |name| ensures name[j] != '.' {
      EndChar(name, small, large, j - at);
    }
    forall i | 0 <= i < |small| ensures name[at..][i] in {small[i], large[i]} {
      EndChar(name, small, large, i);
    }
    hide EndsWith, Lower, LastDot;
    LastDotIs(name, at);
    LowerOf(name[at..], small, large);
  }

  lemma SuffixIsEnding(name: string, small: string, large: string)
    requires (small, large) in {(".js", ".JS"), (".css", ".CSS")}
    requires 0 < LastDot(name) < |name| && Lower(name[LastDot(name)..]) == small
    ensures EndsWith(name, small, large)
  {
    hide LastDot, Lower;
    LowerOf(name[LastDot(name)..], small, large);
  }

  lemma LowerOf(text: string, small: string, large: string)
    requires (small, large) in {(".js", ".JS"), (".css", ".CSS")}
    ensures Lower(text) == small <==>
      |text| == |small| && forall i :: 0 <= i < |small| ==> text[i] in {small[i], large[i]}
  {
    if Lower(text) == small {
      forall i | 0 <= i < |small| ensures text[i] in {small[i], large[i]} {
        assert Lower(text)[i] == small[i];
      }
    }
  }

  /** Exactly scripts and style sheets are scanned for further references. */
  lemma ScannedExactly(p: Path)
    requires p != []
    ensures IsScanned(p) <==> EndsWith(p[|p| - 1], ".js", ".JS") || EndsWith(p[|p| - 1], ".css", ".CSS")
  {
    SuffixMeans(p, ".js", ".JS");
    SuffixMeans(p, ".css", ".CSS");
    hide Suffix;
  }
}
