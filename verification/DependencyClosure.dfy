/** Which lockfile entries a release takes along: the search that resolves a
  * dependency name against the enclosing `node_modules` directories, and the
  * worklist that closes the root dependencies under it. */
module DependencyClosure {

  /** One entry of the lockfile: the keys of its dependency tables, in file
    * order, and the peers marked optional. */
  datatype Record = Record(
    dependencies: seq<string>,
    optionalDependencies: seq<string>,
    peerDependencies: seq<string>,
    optionalPeers: set<string>)

  /** `keys` is the order in which the lockfile lists its entries. */
  datatype Lock = Lock(packages: map<string, Record>, keys: seq<string>)

  ghost predicate Listed(lock: Lock) {
    forall key :: key in lock.packages <==> key in lock.keys
  }

  const MARKER: string := "node_modules/"

  // ----- Paths ---------------------------------------------------------------

  predicate MarkerAt(path: string, i: nat) {
    i + |MARKER| <= |path| && path[i..i + |MARKER|] == MARKER
  }

  /** The last index below `bound` at which `node_modules/` begins, or -1. */
  function LastMarker(path: string, bound: nat): (at: int)
    ensures -1 <= at < bound
    ensures at >= 0 ==> MarkerAt(path, at)
    ensures forall i: nat :: at < i < bound ==> !MarkerAt(path, i)
  {
    if bound == 0 then -1
    else if MarkerAt(path, bound - 1) then bound - 1
    else LastMarker(path, bound - 1)
  }

  function Stripped(path: string): (r: string) {
    if |path| > 0 && path[|path| - 1] == '/' then path[..|path| - 1] else path
  }

  /** The package that encloses `path`, or "" at the top. */
  function Enclosing(path: string): (r: string)
    ensures path != "" ==> |r| < |path|
  {
    var at := LastMarker(path, |path|);
    if at > 0 then Stripped(path[..at]) else ""
  }

  /** Where package `name` sits when installed inside `path`. */
  function Inside(path: string, name: string): string {
    if path == "" then MARKER + name else path + "/" + MARKER + name
  }

  /** A package name that a lockfile path can hold as one level. */
  predicate Plain(name: string) {
    name != "" && forall i: nat :: i < |name| ==> !MarkerAt(name, i)
  }

  /** The top of the tree, or a workspace directory that is not itself inside a
    * `node_modules`. */
  predicate Top(base: string) {
    forall i: nat :: i < |base| ==> !MarkerAt(base, i)
  }

  /** The path of a package nested level by level below `base`. */
  function PathOf(base: string, levels: seq<string>): (path: string)
    ensures levels == [] ==> path == base
  {
    if levels == [] then base else Inside(PathOf(base, levels[..|levels| - 1]), levels[|levels| - 1])
  }

  lemma EnclosingOfTop(base: string)
    requires Top(base)
    ensures Enclosing(base) == ""
  {
    assert LastMarker(base, |base|) == -1;
  }

  /** The last `node_modules/` of a nested path is the one in front of its
    * last name: no occurrence straddles the boundary, because `/` is only
    * the last character of the marker. */
  lemma LastMarkerOfInside(path: string, name: string)
    requires Plain(name)
    ensures LastMarker(Inside(path, name), |Inside(path, name)|)
         == if path == "" then 0 else |path| + 1
  {
    var whole := Inside(path, name);
    var start := if path == "" then 0 else |path| + 1;
    assert whole[start..] == MARKER + name;
    assert whole[start..start + |MARKER|] == MARKER;
    assert MarkerAt(whole, start);
    forall i: nat | start < i < |whole|
      ensures !MarkerAt(whole, i)
    {
      NoLaterMarker(whole, start, name, i);
    }
  }

  lemma SliceOfTail(s: string, start: nat, from: nat, n: nat)
    requires start + from + n <= |s|
    ensures s[start..][from..from + n] == s[start + from..start + from + n]
  {
  }

  lemma NoLaterMarker(whole: string, start: nat, name: string, i: nat)
    requires start <= |whole| && whole[start..] == MARKER + name && Plain(name)
    requires start < i
    ensures !MarkerAt(whole, i)
  {
    var k := i - start;
    if i + |MARKER| <= |whole| {
      var tail := whole[start..];
      SliceOfTail(whole, start, k, |MARKER|);
      if k >= |MARKER| {
        assert (MARKER + name)[k..k + |MARKER|] == name[k - |MARKER|..k];
        assert !MarkerAt(name, k - |MARKER|);
      } else {
        assert (MARKER + name)[k..k + |MARKER|][|MARKER| - 1 - k] == '/';
        assert MARKER[|MARKER| - 1 - k] != '/';
      }
    }
  }

  lemma EnclosingOfInside(path: string, name: string)
    requires Plain(name)
    ensures Enclosing(Inside(path, name)) == path
  {
    hide MarkerAt, Plain, LastMarker;
    var whole := Inside(path, name);
    LastMarkerOfInside(path, name);
    if path != "" {
      assert whole[..|path| + 1] == path + "/";
      assert (path + "/")[..|path|] == path;
    }
  }

  /** Stepping outwards from a nested path drops exactly its last level. */
  lemma EnclosingOfPath(base: string, levels: seq<string>)
    requires levels != [] && Plain(levels[|levels| - 1])
    ensures Enclosing(PathOf(base, levels)) == PathOf(base, levels[..|levels| - 1])
  {
    hide MarkerAt, Plain, LastMarker, Enclosing, Inside;
    EnclosingOfInside(PathOf(base, levels[..|levels| - 1]), levels[|levels| - 1]);
  }

  // ----- Resolution ----------------------------------------------------------

  /** The first key, in file order, of least length among those that end in
    * `suffix`; "" when there is none. */
  function ShortestEnding(keys: seq<string>, suffix: string): (r: string)
    decreases |keys|
  {
    if keys == [] then ""
    else
      var rest := keys[..|keys| - 1];
      var best := ShortestEnding(rest, suffix);
      var key := keys[|keys| - 1];
      if EndsWith(key, suffix) && (best == "" || |key| < |best|) then key else best
  }

  predicate EndsWith(key: string, suffix: string)
    ensures EndsWith(key, suffix) ==> |suffix| <= |key|
  {
    |suffix| <= |key| && key[|key| - |suffix|..] == suffix
  }

  lemma EndsWithMeans(key: string, suffix: string)
    ensures EndsWith(key, suffix) <==> exists front: string :: key == front + suffix
  {
    if EndsWith(key, suffix) {
      assert key == key[..|key| - |suffix|] + suffix;
    }
    forall front: string | key == front + suffix
      ensures EndsWith(key, suffix)
    {
      assert key[|front|..] == suffix;
    }
  }

  lemma {:induction false} ShortestEndingIsFirstShortest(keys: seq<string>, suffix: string)
    requires suffix != ""
    ensures var r := ShortestEnding(keys, suffix);
      if r == "" then forall i :: 0 <= i < |keys| ==> !EndsWith(keys[i], suffix)
      else exists i :: 0 <= i < |keys| && FirstShortest(keys, suffix, i) && r == keys[i]
    decreases |keys|
  {
    hide EndsWith;
    if keys != [] {
      var n := |keys| - 1;
      var rest := keys[..n];
      ShortestEndingIsFirstShortest(rest, suffix);
      var best := ShortestEnding(rest, suffix);
      if EndsWith(keys[n], suffix) && (best == "" || |keys[n]| < |best|) {
        forall j | 0 <= j < n && EndsWith(keys[j], suffix)
          ensures |keys[n]| < |keys[j]|
        {
          assert rest[j] == keys[j];
        }
        assert FirstShortest(keys, suffix, n);
      } else if best == "" {
        forall j | 0 <= j < |keys|
          ensures !EndsWith(keys[j], suffix)
        {
          if j < n {
            assert rest[j] == keys[j];
          }
        }
      } else {
        var i :| 0 <= i < |rest| && FirstShortest(rest, suffix, i) && best == rest[i];
        assert FirstShortest(keys, suffix, i);
      }
    }
  }

  /** Entry `i` ends in `suffix`, no earlier such entry is as short, and no
    * later one is shorter. */
  predicate FirstShortest(keys: seq<string>, suffix: string, i: nat) {
    && i < |keys|
    && EndsWith(keys[i], suffix)
    && (forall j :: 0 <= j < i && EndsWith(keys[j], suffix) ==> |keys[i]| < |keys[j]|)
    && (forall j :: i < j < |keys| && EndsWith(keys[j], suffix) ==> |keys[i]| <= |keys[j]|)
  }

  /** What `name` means to the package at `parent`. */
  function Resolve(lock: Lock, name: string, parent: string): (r: string)
    decreases |parent|
  {
    if parent == "" then
      if Inside("", name) in lock.packages then Inside("", name)
      else ShortestEnding(lock.keys, "/" + Inside("", name))
    else if Inside(parent, name) in lock.packages then Inside(parent, name)
    else Resolve(lock, name, Enclosing(parent))
  }

  /** `name` is installed inside the first `depth` of `levels`. */
  predicate InstalledAt(lock: Lock, name: string, base: string, levels: seq<string>, depth: nat) {
    depth <= |levels| && Inside(PathOf(base, levels[..depth]), name) in lock.packages
  }

  /** No level deeper than `depth` has it. */
  ghost predicate Deepest(lock: Lock, name: string, base: string, levels: seq<string>, depth: nat) {
    && InstalledAt(lock, name, base, levels, depth)
    && forall deeper: nat :: depth < deeper ==> !InstalledAt(lock, name, base, levels, deeper)
  }

  /** The nearest level has the name; else the top of the tree, which for a
    * workspace package is one step further out; else the fallback. */
  ghost predicate Nearest(lock: Lock, name: string, base: string, levels: seq<string>, r: string) {
    && (forall depth: nat :: Deepest(lock, name, base, levels, depth) ==>
          r == Inside(PathOf(base, levels[..depth]), name))
    && ((forall depth: nat :: !InstalledAt(lock, name, base, levels, depth)) ==> r == Resolve(lock, name, ""))
  }

  lemma NearestFromOuter(lock: Lock, name: string, base: string, levels: seq<string>, r: string)
    requires levels != [] && !InstalledAt(lock, name, base, levels, |levels|)
    requires Nearest(lock, name, base, levels[..|levels| - 1], r)
    ensures Nearest(lock, name, base, levels, r)
  {
    hide Inside, Resolve, PathOf;
    var n := |levels|;
    var outer := levels[..n - 1];
    assert forall d: nat :: d < n ==> outer[..d] == levels[..d];
    assert forall d: nat :: InstalledAt(lock, name, base, outer, d) <==> InstalledAt(lock, name, base, levels, d);
    forall d: nat | Deepest(lock, name, base, levels, d)
      ensures r == Inside(PathOf(base, levels[..d]), name)
    {
      assert Deepest(lock, name, base, outer, d);
    }
  }

  /** Resolution is the package manager's rule: the nearest enclosing
    * directory, from the package's own outwards to the top. */
  lemma {:induction false} ResolveIsNearest(lock: Lock, name: string, base: string, levels: seq<string>)
    requires Top(base) && forall level <- levels :: Plain(level)
    ensures Nearest(lock, name, base, levels, Resolve(lock, name, PathOf(base, levels)))
    decreases |levels|
  {
    hide Plain, Top, MarkerAt, LastMarker, Enclosing, Inside, ShortestEnding;
    var n := |levels|;
    assert levels[..n] == levels;
    assert InstalledAt(lock, name, base, levels, n) <==> Inside(PathOf(base, levels), name) in lock.packages;
    if n == 0 {
      EnclosingOfTop(base);
    } else if !InstalledAt(lock, name, base, levels, n) {
      EnclosingOfPath(base, levels);
      PathIsLonger(base, levels);
      ResolveIsNearest(lock, name, base, levels[..n - 1]);
      NearestFromOuter(lock, name, base, levels, Resolve(lock, name, PathOf(base, levels)));
    }
  }

  lemma PathIsLonger(base: string, levels: seq<string>)
    requires levels != []
    ensures PathOf(base, levels) != ""
  {
  }

  /** At the top: the package itself, and only if it is not there the shortest
    * entry elsewhere. */
  lemma ResolveAtTheTop(lock: Lock, name: string)
    ensures MARKER + name in lock.packages ==> Resolve(lock, name, "") == MARKER + name
    ensures MARKER + name !in lock.packages ==>
      var suffix, r := "/" + MARKER + name, Resolve(lock, name, "");
      if r == "" then forall i :: 0 <= i < |lock.keys| ==> !EndsWith(lock.keys[i], suffix)
      else exists i :: 0 <= i < |lock.keys| && FirstShortest(lock.keys, suffix, i) && r == lock.keys[i]
  {
    hide EndsWith, ShortestEnding, FirstShortest;
    assert "/" + Inside("", name) == "/" + MARKER + name;
    ShortestEndingIsFirstShortest(lock.keys, "/" + MARKER + name);
  }

  lemma {:induction false} ResolvedIsListed(lock: Lock, name: string, parent: string)
    requires Listed(lock)
    ensures var r := Resolve(lock, name, parent); r == "" || r in lock.packages
    decreases |parent|
  {
    if parent == "" {
      ShortestEndingIsFirstShortest(lock.keys, "/" + Inside("", name));
    } else if Inside(parent, name) !in lock.packages {
      ResolvedIsListed(lock, name, Enclosing(parent));
    }
  }

  method ResolveLockedPackage(lock: Lock, name: string, parentPath: string) returns (found: string)
    ensures found == Resolve(lock, name, parentPath)
  {
    hide Enclosing, ShortestEnding, Inside;
    var ancestor := parentPath;
    while ancestor != ""
      invariant Resolve(lock, name, parentPath) == Resolve(lock, name, ancestor)
      decreases |ancestor|
    {
      var nested := Inside(ancestor, name);
      if nested in lock.packages {
        return nested;
      }
      ancestor := Enclosing(ancestor);
    }
    var direct := Inside("", name);
    if direct in lock.packages {
      return direct;
    }
    return ShortestEnding(lock.keys, "/" + direct);
  }

  // ----- Closure -------------------------------------------------------------

  /** The package at `path` brings along whatever `name` means to it. */
  ghost predicate Wants(record: Record, name: string) {
    || name in record.dependencies
    || name in record.optionalDependencies
    || (name in record.peerDependencies && name !in record.optionalPeers)
  }

  ghost predicate Brings(lock: Lock, from: string, to: string) {
    from in lock.packages && to != ""
      && exists name :: Wants(lock.packages[from], name) && to == Resolve(lock, name, from)
  }

  /** What a package brings along: its dependencies, its optional ones, and the
    * peers that are not optional, wherever they resolve to; and no more. */
  lemma WhatAPackageBrings(lock: Lock, from: string, to: string)
    requires from in lock.packages
    ensures Brings(lock, from, to) <==>
      to != "" && exists name <- Asked(lock.packages[from]) :: to == Resolve(lock, name, from)
  {
    hide Resolve;
    assert forall name :: name in Asked(lock.packages[from]) <==> Wants(lock.packages[from], name);
  }

  function Asked(record: Record): set<string> {
    (set n | n in record.dependencies) + (set n | n in record.optionalDependencies)
      + ((set n | n in record.peerDependencies) - record.optionalPeers)
  }

  /** Where a package is installed. */
  lemma InstalledPath(path: string, name: string)
    ensures Inside("", name) == "node_modules/" + name
    ensures path != "" ==> Inside(path, name) == path + "/node_modules/" + name
  {
    assert "/" + MARKER == "/node_modules/";
  }

  ghost predicate Root(lock: Lock, roots: seq<string>, path: string) {
    path != "" && exists name <- roots :: path == Resolve(lock, name, "")
  }

  ghost predicate Closed(lock: Lock, roots: seq<string>, s: set<string>) {
    && (forall path :: Root(lock, roots, path) ==> path in s)
    && (forall from, to :: from in s && Brings(lock, from, to) ==> to in s)
  }

  /** The least set that holds the resolved roots and is closed under what
    * its packages bring along. */
  ghost predicate Closure(lock: Lock, roots: seq<string>, s: set<string>) {
    && Closed(lock, roots, s)
    && (forall other :: Closed(lock, roots, other) ==> s <= other)
  }

  lemma ClosureIsUnique(lock: Lock, roots: seq<string>, a: set<string>, b: set<string>)
    requires Closure(lock, roots, a) && Closure(lock, roots, b)
    ensures a == b
  {
  }

  /** A chain of packages, each brought along by the one before. */
  ghost predicate Chain(lock: Lock, roots: seq<string>, path: seq<string>) {
    && path != []
    && Root(lock, roots, path[0])
    && (forall i {:trigger path[i]} :: 1 <= i < |path| ==> Brings(lock, path[i - 1], path[i]))
  }

  lemma {:induction false} ChainStaysInside(lock: Lock, roots: seq<string>, s: set<string>, path: seq<string>)
    requires Closed(lock, roots, s) && Chain(lock, roots, path)
    ensures path[|path| - 1] in s
    decreases |path|
  {
    hide Brings, Root;
    if |path| > 1 {
      var front := path[..|path| - 1];
      assert forall i :: 0 <= i < |front| ==> front[i] == path[i];
      ChainStaysInside(lock, roots, s, front);
      assert Brings(lock, path[|path| - 2], path[|path| - 1]);
    }
  }

  /** The closure holds exactly the packages that some chain from a root
    * reaches. */
  lemma ClosureIsReachability(lock: Lock, roots: seq<string>, s: set<string>, path: string)
    requires Closure(lock, roots, s)
    ensures path in s <==> exists chain: seq<string> :: Chain(lock, roots, chain) && chain[|chain| - 1] == path
  {
    hide Brings, Root;
    var reached := set p | p in s && Reached(lock, roots, p);
    forall p | Root(lock, roots, p)
      ensures p in reached
    {
      assert Chain(lock, roots, [p]);
      assert [p][|[p]| - 1] == p;
    }
    forall from, to | from in reached && Brings(lock, from, to)
      ensures to in reached
    {
      var chain: seq<string> :| Chain(lock, roots, chain) && chain[|chain| - 1] == from;
      var longer := chain + [to];
      assert Chain(lock, roots, longer);
      assert longer[|longer| - 1] == to;
    }
    assert Closed(lock, roots, reached);
    if path in s {
      assert path in reached;
    }
    forall chain: seq<string> | Chain(lock, roots, chain) && chain[|chain| - 1] == path
      ensures path in s
    {
      ChainStaysInside(lock, roots, s, chain);
    }
  }

  ghost predicate Reached(lock: Lock, roots: seq<string>, path: string) {
    exists chain: seq<string> :: Chain(lock, roots, chain) && chain[|chain| - 1] == path
  }

  // ----- The worklist --------------------------------------------------------

  datatype Request = Request(name: string, parentPath: string)

  /** The request is for a root or comes from a selected package. */
  ghost predicate Justified(lock: Lock, roots: seq<string>, selected: set<string>, request: Request) {
    || (request.parentPath == "" && request.name in roots)
    || (&& request.parentPath in selected
        && request.parentPath in lock.packages
        && Wants(lock.packages[request.parentPath], request.name))
  }

  /** The request has been answered, is still queued, or resolves to nothing. */
  ghost predicate Served(lock: Lock, selected: set<string>, queue: seq<Request>, request: Request) {
    var target := Resolve(lock, request.name, request.parentPath);
    target == "" || target in selected || request in queue
  }

  ghost predicate Progress(lock: Lock, roots: seq<string>, selected: set<string>, queue: seq<Request>) {
    && selected <= lock.packages.Keys
    && (forall other :: Closed(lock, roots, other) ==> selected <= other)
    && (forall request <- queue :: Justified(lock, roots, selected, request))
    && (forall name <- roots :: Served(lock, selected, queue, Request(name, "")))
    && (forall path, name :: path in selected && Wants(lock.packages[path], name)
          ==> Served(lock, selected, queue, Request(name, path)))
  }

  /** The requests a newly selected package adds to the queue. */
  method Requests(lock: Lock, path: string, record: Record) returns (added: seq<Request>)
    ensures forall request <- added :: request.parentPath == path && Wants(record, request.name)
    ensures forall name :: Wants(record, name) ==>
      Request(name, path) in added || Resolve(lock, name, path) == ""
  {
    hide Resolve;
    added := [];
    for i := 0 to |record.dependencies|
      invariant forall request <- added :: request.parentPath == path && Wants(record, request.name)
      invariant forall j :: 0 <= j < i ==> Request(record.dependencies[j], path) in added
    {
      added := added + [Request(record.dependencies[i], path)];
    }
    for i := 0 to |record.optionalDependencies|
      invariant forall request <- added :: request.parentPath == path && Wants(record, request.name)
      invariant forall name <- record.dependencies :: Request(name, path) in added
      invariant forall j :: 0 <= j < i ==> Request(record.optionalDependencies[j], path) in added
    {
      added := added + [Request(record.optionalDependencies[i], path)];
    }
    for i := 0 to |record.peerDependencies|
      invariant forall request <- added :: request.parentPath == path && Wants(record, request.name)
      invariant forall name <- record.dependencies :: Request(name, path) in added
      invariant forall name <- record.optionalDependencies :: Request(name, path) in added
      invariant forall j :: 0 <= j < i && record.peerDependencies[j] !in record.optionalPeers ==>
                  || Request(record.peerDependencies[j], path) in added
                  || Resolve(lock, record.peerDependencies[j], path) == ""
    {
      var name := record.peerDependencies[i];
      if name !in record.optionalPeers {
        var target := ResolveLockedPackage(lock, name, path);
        if target != "" {
          added := added + [Request(name, path)];
        }
      }
    }
  }

  lemma Start(lock: Lock, roots: seq<string>, queue: seq<Request>)
    requires |queue| == |roots| && forall i :: 0 <= i < |roots| ==> queue[i] == Request(roots[i], "")
    ensures Progress(lock, roots, {}, queue)
  {
    hide Resolve, Closed;
    forall name | name in roots
      ensures Request(name, "") in queue
    {
      var i :| 0 <= i < |roots| && roots[i] == name;
      assert queue[i] == Request(name, "");
    }
  }

  /** What a justified request resolves to belongs to every closed set. */
  lemma TargetIsNeeded(lock: Lock, roots: seq<string>, selected: set<string>, request: Request, other: set<string>)
    requires Justified(lock, roots, selected, request) && selected <= other && Closed(lock, roots, other)
    requires Resolve(lock, request.name, request.parentPath) != ""
    ensures Resolve(lock, request.name, request.parentPath) in other
  {
    hide Resolve;
    var target := Resolve(lock, request.name, request.parentPath);
    if request.parentPath == "" && request.name in roots {
      assert Root(lock, roots, target);
    } else {
      assert Brings(lock, request.parentPath, target);
    }
  }

  lemma Skip(lock: Lock, roots: seq<string>, selected: set<string>, queue: seq<Request>)
    requires queue != [] && Progress(lock, roots, selected, queue)
    requires var target := Resolve(lock, queue[0].name, queue[0].parentPath);
      target == "" || target in selected
    ensures Progress(lock, roots, selected, queue[1..])
  {
    hide Resolve, Closed, Justified, Wants;
    assert queue == [queue[0]] + queue[1..];
  }

  lemma Take(lock: Lock, roots: seq<string>, selected: set<string>, queue: seq<Request>,
             target: string, added: seq<Request>)
    requires queue != [] && Progress(lock, roots, selected, queue)
    requires target == Resolve(lock, queue[0].name, queue[0].parentPath)
    requires target != "" && target in lock.packages
    requires forall request <- added :: request.parentPath == target && Wants(lock.packages[target], request.name)
    requires forall name :: Wants(lock.packages[target], name) ==>
      Request(name, target) in added || Resolve(lock, name, target) == ""
    ensures Progress(lock, roots, selected + {target}, queue[1..] + added)
  {
    hide Resolve, Closed, Wants;
    var rest := queue[1..] + added;
    var bigger := selected + {target};
    assert queue == [queue[0]] + queue[1..];
    forall other | Closed(lock, roots, other)
      ensures bigger <= other
    {
      TargetIsNeeded(lock, roots, selected, queue[0], other);
    }
    forall request | request in rest
      ensures Justified(lock, roots, bigger, request)
    {
      if request in queue[1..] {
        assert request in queue;
      }
    }
    forall request: Request | Served(lock, selected, queue, request)
      ensures Served(lock, bigger, rest, request)
    {
    }
  }

  lemma Finish(lock: Lock, roots: seq<string>, selected: set<string>)
    requires Progress(lock, roots, selected, [])
    ensures Closure(lock, roots, selected)
  {
    hide Resolve, Wants;
    forall path | Root(lock, roots, path)
      ensures path in selected
    {
      var name :| name in roots && path == Resolve(lock, name, "");
      assert Served(lock, selected, [], Request(name, ""));
    }
    forall from, to | from in selected && Brings(lock, from, to)
      ensures to in selected
    {
      var name :| Wants(lock.packages[from], name) && to == Resolve(lock, name, from);
      assert Served(lock, selected, [], Request(name, from));
    }
  }

  method DependencyClosure(lock: Lock, rootDependencies: seq<string>) returns (selected: set<string>)
    requires Listed(lock)
    ensures selected <= lock.packages.Keys
    ensures Closure(lock, rootDependencies, selected)
  {
    hide Progress, Resolve, Closure, Wants;
    selected := {};
    var queue: seq<Request> := seq(|rootDependencies|,
      i requires 0 <= i < |rootDependencies| => Request(rootDependencies[i], ""));
    Start(lock, rootDependencies, queue);
    while queue != []
      invariant selected <= lock.packages.Keys
      invariant Progress(lock, rootDependencies, selected, queue)
      decreases |lock.packages.Keys - selected|, |queue|
    {
      var dependency := queue[0];
      var packagePath := ResolveLockedPackage(lock, dependency.name, dependency.parentPath);
      if packagePath == "" || packagePath in selected {
        Skip(lock, rootDependencies, selected, queue);
        queue := queue[1..];
      } else {
        ResolvedIsListed(lock, dependency.name, dependency.parentPath);
        var added := Requests(lock, packagePath, lock.packages[packagePath]);
        Take(lock, rootDependencies, selected, queue, packagePath, added);
        assert lock.packages.Keys - (selected + {packagePath}) < lock.packages.Keys - selected;
        Shrinks(lock.packages.Keys - (selected + {packagePath}), lock.packages.Keys - selected);
        selected := selected + {packagePath};
        queue := queue[1..] + added;
      }
    }
    Finish(lock, rootDependencies, selected);
  }

  lemma Shrinks<T>(a: set<T>, b: set<T>)
    requires a < b
    ensures |a| < |b|
  {
    assert b == a + (b - a);
    assert |b| == |a| + |b - a|;
  }
}
