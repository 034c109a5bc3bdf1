/** The shrinkwrap generator: nearest-enclosing resolution in a lockfile and the worklist
    that closes the root's dependencies under it
    (scripts/generate-coding-agent-shrinkwrap.js). */
module Shrinkwrap {
  import opened Options

  /** `dependencies` are the names in dependencies and optionalDependencies together. */
  datatype LockEntry = LockEntry(link: bool, dependencies: seq<string>)

  datatype Input = Input(
    lock: map<string, LockEntry>,            // lockfile paths
    workspaces: map<string, seq<string>>,    // internal package names and their dependencies
    rootDependencies: seq<string>)

  // ---- enclosing directories

  /** A slash of `path` that ends a directory name: not the first character, followed by
      another name, and not that of a leading `./`. */
  predicate IsBoundary(path: string, i: nat) {
    1 <= i && i + 1 < |path| && path[i] == '/' && path[i + 1] != '/' && !(i == 1 && path[0] == '.')
  }

  /** The last boundary before position `n`, or zero. */
  function LastBoundary(path: string, n: nat): (i: nat)
    ensures i == 0 || (i < n && IsBoundary(path, i))
    ensures forall j | i < j < n :: !IsBoundary(path, j)
  {
    if n == 0 then 0 else if IsBoundary(path, n - 1) then n - 1 else LastBoundary(path, n - 1)
  }

  /** `posix.dirname` of a relative path. */
  function Dirname(path: string): string {
    var i := LastBoundary(path, |path|);
    if i == 0 then "." else path[..i]
  }

  /** The directories tried for a dependency of the package at `from`, nearest first. */
  function CandidateDirs(from: string): seq<string>
    decreases |from|
  {
    if from == "" then [""]
    else if LastBoundary(from, |from|) == 0 then [from, ""]
    else [from] + CandidateDirs(Dirname(from))
  }

  /** `d` is the root, `from` itself, or a directory on the way to it. */
  predicate Encloses(d: string, from: string) {
    d == "" || d == from || (|d| < |from| && d == from[..|d|] && IsBoundary(from, |d|))
  }

  lemma EnclosesThrough(d: string, from: string)
    requires from != "" && LastBoundary(from, |from|) != 0
    ensures Encloses(d, from) <==> d == from || Encloses(d, Dirname(from))
  {
    var i := LastBoundary(from, |from|);
    var parent := from[..i];
    if |d| < i {
      assert parent[..|d|] == from[..|d|];
      assert IsBoundary(parent, |d|) <==> IsBoundary(from, |d|) by {
        if |d| + 1 == i {
          assert !IsBoundary(from, |d|);
        }
      }
    }
  }

  /** Exactly the enclosing directories are tried. */
  lemma {:induction false} CandidateDirsExact(from: string)
    ensures forall d :: d in CandidateDirs(from) <==> Encloses(d, from)
    decreases |from|
  {
    if from != "" && LastBoundary(from, |from|) != 0 {
      var parent := Dirname(from);
      CandidateDirsExact(parent);
      forall d ensures d in CandidateDirs(from) <==> Encloses(d, from) {
        EnclosesThrough(d, from);
      }
    }
  }

  /** The longest come first. */
  lemma {:induction false} CandidateDirsShrink(from: string, k: nat, l: nat)
    requires k < l < |CandidateDirs(from)|
    ensures |CandidateDirs(from)[l]| < |CandidateDirs(from)[k]| <= |from|
    decreases |from|
  {
    hide IsBoundary;
    if from != "" && LastBoundary(from, |from|) != 0 {
      var parent := Dirname(from);
      var dirs := CandidateDirs(parent);
      assert CandidateDirs(from)[l] == dirs[l - 1];
      if k > 0 {
        CandidateDirsShrink(parent, k - 1, l - 1);
      } else if l > 1 {
        CandidateDirsShrink(parent, 0, l - 1);
      } else {
        FirstDir(parent);
      }
    }
  }

  lemma FirstDir(from: string)
    ensures CandidateDirs(from)[0] == from
  {
  }

  // ---- resolution

  const MODULES := "node_modules/"

  function InDir(d: string, name: string): string {
    if d == "" then MODULES + name else d + "/" + MODULES + name
  }

  predicate EndsWith(s: string, suffix: string) { |suffix| <= |s| && s[|s| - |suffix|..] == suffix }

  /** The path is that of some installed copy of the package. */
  predicate IsCopyOf(path: string, name: string) {
    path == MODULES + name || EndsWith(path, "/" + (MODULES + name))
  }

  predicate IsPackage(lock: map<string, LockEntry>, path: string) { path in lock && !lock[path].link }

  function FirstIn(lock: map<string, LockEntry>, dirs: seq<string>, name: string): Option<string> {
    if dirs == [] then None
    else if IsPackage(lock, InDir(dirs[0], name)) then Some(InDir(dirs[0], name))
    else FirstIn(lock, dirs[1..], name)
  }

  function Copies(lock: map<string, LockEntry>, name: string): set<string> {
    set path | path in lock && !lock[path].link && IsCopyOf(path, name)
  }

  /** The nearest copy on the way to the root; failing that, the only copy anywhere. */
  ghost function Resolve(lock: map<string, LockEntry>, name: string, from: string): Option<string> {
    var near := FirstIn(lock, CandidateDirs(from), name);
    if near.Some? then near
    else if |Copies(lock, name)| == 1 then Some(TheOnly(Copies(lock, name)))
    else None
  }

  ghost function TheOnly(s: set<string>): string
    requires |s| == 1
  {
    assert s != {};
    var x :| x in s; x
  }

  lemma {:induction false} FirstInIs(lock: map<string, LockEntry>, dirs: seq<string>, name: string) returns (k: nat)
    ensures k <= |dirs| && (forall l | 0 <= l < k :: !IsPackage(lock, InDir(dirs[l], name)))
    ensures FirstIn(lock, dirs, name) == if k < |dirs| then Some(InDir(dirs[k], name)) else None
    ensures k < |dirs| ==> IsPackage(lock, InDir(dirs[k], name))
  {
    if dirs == [] || IsPackage(lock, InDir(dirs[0], name)) {
      k := 0;
    } else {
      var k' := FirstInIs(lock, dirs[1..], name);
      k := k' + 1;
    }
  }

  // ---- what resolution finds, spelled out

  /** The directory has the package installed directly in it. */
  ghost predicate HasCopyAt(lock: map<string, LockEntry>, d: string, name: string, path: string) {
    && path in lock && !lock[path].link
    && path == if d == "" then "node_modules/" + name else d + "/node_modules/" + name
  }

  ghost predicate HasCopyIn(lock: map<string, LockEntry>, d: string, name: string) {
    exists path :: HasCopyAt(lock, d, name, path)
  }

  lemma InDirSpelled(lock: map<string, LockEntry>, d: string, name: string)
    ensures InDir(d, name) == if d == "" then "node_modules/" + name else d + "/node_modules/" + name
    ensures forall path :: HasCopyAt(lock, d, name, path) <==> path == InDir(d, name) && IsPackage(lock, path)
    ensures HasCopyIn(lock, d, name) <==> IsPackage(lock, InDir(d, name))
  {
    assert d + "/" + MODULES + name == d + "/node_modules/" + name;
    if IsPackage(lock, InDir(d, name)) {
      assert HasCopyAt(lock, d, name, InDir(d, name));
    }
  }

  /** The enclosing directories, by how they continue to `from`. */
  lemma EnclosesSpelled(d: string, from: string)
    ensures Encloses(d, from) <==>
            d == "" || d == from || (d != "." && exists rest :: rest != "" && rest[0] != '/' && from == d + "/" + rest)
  {
    if d != "" && d != from && Encloses(d, from) {
      var rest := from[|d| + 1..];
      assert from == d + "/" + rest && rest[0] == from[|d| + 1];
    }
    if d != "" && d != "." && exists rest :: rest != "" && rest[0] != '/' && from == d + "/" + rest {
      var rest :| rest != "" && rest[0] != '/' && from == d + "/" + rest;
      assert from[|d|] == '/' && from[|d| + 1] == rest[0] && from[..|d|] == d;
    }
  }

  lemma CopySpelled(path: string, name: string)
    ensures IsCopyOf(path, name) <==> path == "node_modules/" + name || exists before :: path == before + "/node_modules/" + name
  {
    var suffix := "/" + (MODULES + name);
    assert suffix == "/node_modules/" + name;
    if EndsWith(path, suffix) {
      var before := path[..|path| - |suffix|];
      assert path == before + suffix == before + "/node_modules/" + name;
    }
    if exists before :: path == before + "/node_modules/" + name {
      var before :| path == before + "/node_modules/" + name;
      assert path == before + suffix && path[|path| - |suffix|..] == suffix;
    }
  }

  /** The package as installed in `d`, with none installed in a longer enclosing directory. */
  ghost predicate IsNearest(lock: map<string, LockEntry>, name: string, from: string, d: string, path: string) {
    && Encloses(d, from) && HasCopyAt(lock, d, name, path)
    && forall e | Encloses(e, from) && |e| > |d| :: !HasCopyIn(lock, e, name)
  }

  /** If an enclosing directory has the package, the one in the longest such directory is
      found. */
  lemma NearestEnclosing(lock: map<string, LockEntry>, name: string, from: string, d: string)
    requires Encloses(d, from) && HasCopyIn(lock, d, name)
    ensures exists e, path :: IsNearest(lock, name, from, e, path) && |e| >= |d| && Resolve(lock, name, from) == Some(path)
  {
    hide Encloses, InDir, CandidateDirs, HasCopyAt, HasCopyIn;
    var dirs := CandidateDirs(from);
    CandidateDirsExact(from);
    var k := FirstInIs(lock, dirs, name);
    forall e ensures HasCopyIn(lock, e, name) <==> IsPackage(lock, InDir(e, name)) {
      InDirSpelled(lock, e, name);
    }
    assert d in dirs;
    var l :| 0 <= l < |dirs| && dirs[l] == d;
    assert k <= l;
    if k < l {
      CandidateDirsShrink(from, k, l);
    }
    assert dirs[k] in dirs;
    forall e | Encloses(e, from) && |e| > |dirs[k]| ensures !HasCopyIn(lock, e, name) {
      assert e in dirs;
      var m :| 0 <= m < |dirs| && dirs[m] == e;
      if k < m {
        CandidateDirsShrink(from, k, m);
      }
    }
    InDirSpelled(lock, dirs[k], name);
    assert IsNearest(lock, name, from, dirs[k], InDir(dirs[k], name));
  }

  /** Otherwise the only copy anywhere is found, and nothing if there is none or more than one. */
  lemma OnlyCopyOtherwise(lock: map<string, LockEntry>, name: string, from: string)
    requires forall d | Encloses(d, from) :: !HasCopyIn(lock, d, name)
    ensures forall path :: Resolve(lock, name, from) == Some(path) <==> IsOnlyCopy(lock, name, path)
  {
    hide Encloses, InDir, CandidateDirs, HasCopyAt, HasCopyIn, IsCopyOf;
    var dirs := CandidateDirs(from);
    CandidateDirsExact(from);
    forall i | 0 <= i < |dirs| ensures !IsPackage(lock, InDir(dirs[i], name)) {
      assert dirs[i] in dirs;
      InDirSpelled(lock, dirs[i], name);
    }
    var k := FirstInIs(lock, dirs, name);
    var copies := Copies(lock, name);
    if |copies| == 1 {
      OnlyMember(copies);
    }
    forall path | Resolve(lock, name, from) == Some(path) ensures IsOnlyCopy(lock, name, path) {
      forall q ensures q in lock && !lock[q].link && IsCopyOf(q, name) <==> q == path {
        assert q in copies <==> q in {path};
      }
    }
    forall path | IsOnlyCopy(lock, name, path) ensures Resolve(lock, name, from) == Some(path) {
      assert copies == {path};
    }
  }

  /** The path is a copy of the package, and no other path is. */
  ghost predicate IsOnlyCopy(lock: map<string, LockEntry>, name: string, path: string) {
    forall q :: q in lock && !lock[q].link && IsCopyOf(q, name) <==> q == path
  }

  /** Whatever is resolved is a real package and a copy of the one asked for. */
  lemma ResolvedIsCopy(lock: map<string, LockEntry>, name: string, from: string)
    requires Resolve(lock, name, from).Some?
    ensures IsPackage(lock, Resolve(lock, name, from).value) && IsCopyOf(Resolve(lock, name, from).value, name)
  {
    var k := FirstInIs(lock, CandidateDirs(from), name);
    if k < |CandidateDirs(from)| {
      InDirIsCopy(CandidateDirs(from)[k], name);
    }
  }

  lemma InDirIsCopy(d: string, name: string)
    ensures IsCopyOf(InDir(d, name), name)
  {
    if d != "" {
      var s, suffix := InDir(d, name), "/" + (MODULES + name);
      assert s == d + suffix;
      assert s[|s| - |suffix|..] == suffix;
    }
  }

  // ---- what is needed

  /** Something that may be installed: the root, an internal workspace or an external package. */
  datatype Node = Root | Workspace(name: string) | External(path: string)

  function PathOf(n: Node): string {
    match n
    case Root => ""
    case Workspace(name) => MODULES + name
    case External(path) => path
  }

  predicate IsNode(g: Input, n: Node) {
    match n
    case Root => true
    case Workspace(name) => name in g.workspaces
    case External(path) => path in g.lock
  }

  function DepsOf(g: Input, n: Node): seq<string>
    requires IsNode(g, n)
  {
    match n
    case Root => g.rootDependencies
    case Workspace(name) => g.workspaces[name]
    case External(path) => g.lock[path].dependencies
  }

  /** What a dependency of the package at `from` means. */
  ghost function Target(g: Input, name: string, from: string): Option<Node> {
    if name in g.workspaces then Some(Workspace(name))
    else
      var path := Resolve(g.lock, name, from);
      if path.Some? then Some(External(path.value)) else None
  }

  lemma TargetIsNode(g: Input, name: string, from: string)
    requires Target(g, name, from).Some?
    ensures IsNode(g, Target(g, name, from).value)
    ensures Target(g, name, from).value.External? ==> name !in g.workspaces && IsCopyOf(PathOf(Target(g, name, from).value), name)
  {
    hide Resolve, IsCopyOf;
    if name !in g.workspaces {
      ResolvedIsCopy(g.lock, name, from);
    }
  }

  ghost predicate IsEdge(g: Input, from: Node, to: Node) {
    IsNode(g, from) && exists name :: name in DepsOf(g, from) && Target(g, name, PathOf(from)) == Some(to)
  }

  ghost predicate IsChain(g: Input, chain: seq<Node>, to: Node) {
    && |chain| > 0 && chain[0] == Root && chain[|chain| - 1] == to
    && forall i | 0 <= i < |chain| - 1 :: IsEdge(g, chain[i], chain[i + 1])
  }

  /** Reachable from the root's dependencies. */
  ghost predicate Needed(g: Input, n: Node) { exists chain :: IsChain(g, chain, n) }

  lemma RootNeeded(g: Input)
    ensures Needed(g, Root)
  {
    assert IsChain(g, [Root], Root);
  }

  lemma NeededStep(g: Input, from: Node, to: Node)
    requires Needed(g, from) && IsEdge(g, from, to)
    ensures Needed(g, to)
  {
    hide IsEdge;
    var chain :| IsChain(g, chain, from);
    var longer := chain + [to];
    forall i | 0 <= i < |longer| - 1 ensures IsEdge(g, longer[i], longer[i + 1]) {
      if i < |chain| - 1 {
        assert longer[i] == chain[i] && longer[i + 1] == chain[i + 1];
      }
    }
    assert IsChain(g, longer, to);
  }

  /** A needed external package was asked for by a name that no workspace has. */
  lemma NeededIsNode(g: Input, n: Node)
    requires Needed(g, n)
    ensures IsNode(g, n)
    ensures n.External? ==> exists name :: name !in g.workspaces && IsCopyOf(n.path, name)
  {
    hide Target, IsCopyOf;
    var chain :| IsChain(g, chain, n);
    if |chain| > 1 {
      var from := chain[|chain| - 2];
      assert IsEdge(g, from, chain[|chain| - 2 + 1]);
      var name :| name in DepsOf(g, from) && Target(g, name, PathOf(from)) == Some(n);
      TargetIsNode(g, name, PathOf(from));
    }
  }

  /** No path is needed as two things that depend on different packages. */
  ghost predicate Consistent(g: Input) {
    forall a, b | Needed(g, a) && Needed(g, b) && PathOf(a) == PathOf(b) && IsNode(g, a) && IsNode(g, b) :: DepsOf(g, a) == DepsOf(g, b)
  }

  /** A dependency of something needed that cannot be resolved. */
  ghost predicate Unresolvable(g: Input, n: Node, name: string) {
    Needed(g, n) && IsNode(g, n) && name in DepsOf(g, n) && Target(g, name, PathOf(n)).None?
  }

  // ---- workspace names

  /** The name does not look like a path into node_modules; no name that npm accepts does. */
  predicate PlainName(name: string) {
    forall i | 0 <= i < |name| :: !HasAt(name, i, MODULES)
  }

  predicate HasAt(s: string, i: nat, t: string) { i + |t| <= |s| && s[i..i + |t|] == t }

  predicate IsWorkspacePath(g: Input, path: string) {
    |path| >= |MODULES| && path[..|MODULES|] == MODULES && path[|MODULES|..] in g.workspaces
  }

  lemma PathOfWorkspace(g: Input, n: Node)
    requires n.Workspace?
    ensures PathOf(n) == "node_modules/" + n.name && PathOf(n)[..|MODULES|] == MODULES && PathOf(n)[|MODULES|..] == n.name
  {
  }

  /** Plain workspace names keep every lockfile consistent. */
  lemma PlainNamesConsistent(g: Input)
    requires forall name | name in g.workspaces :: PlainName(name)
    ensures Consistent(g)
  {
    hide PlainName, IsCopyOf, Needed;
    forall a, b | Needed(g, a) && Needed(g, b) && PathOf(a) == PathOf(b) && IsNode(g, a) && IsNode(g, b) ensures a == b {
      if !a.External? {
        OnePlainNode(g, a, b);
      } else if !b.External? {
        OnePlainNode(g, b, a);
      }
    }
  }

  lemma OnePlainNode(g: Input, a: Node, b: Node)
    requires forall name | name in g.workspaces :: PlainName(name)
    requires Needed(g, a) && Needed(g, b) && PathOf(a) == PathOf(b) && !a.External?
    ensures a == b
  {
    hide PlainName, IsCopyOf, Needed;
    NeededIsNode(g, a);
    NeededIsNode(g, b);
    if a.Workspace? {
      PathOfWorkspace(g, a);
    }
    match b {
      case Root =>
      case Workspace(_) => PathOfWorkspace(g, b);
      case External(_) =>
        var name :| name !in g.workspaces && IsCopyOf(b.path, name);
        CopyIsNotRoot(name);
        ExternalIsNotWorkspace(g, name, b.path);
    }
  }

  lemma CopyIsNotRoot(name: string)
    ensures !IsCopyOf("", name)
  {
  }

  /** An external package never lands on the path of a workspace with a plain name. */
  lemma ExternalIsNotWorkspace(g: Input, name: string, path: string)
    requires forall w | w in g.workspaces :: PlainName(w)
    requires name !in g.workspaces && IsCopyOf(path, name)
    ensures !IsWorkspacePath(g, path)
  {
    if path == MODULES + name {
      assert path[|MODULES|..] == name;
    } else if HasAt(path, 0, MODULES) {
      NestedModules(path, name);
    }
  }

  lemma NestedModules(path: string, name: string)
    requires HasAt(path, 0, MODULES) && EndsWith(path, "/" + (MODULES + name))
    ensures !PlainName(path[|MODULES|..])
  {
    var suffix, k := "/" + (MODULES + name), |path| - |MODULES| - |name| - 1;
    assert path[k..] == suffix;
    assert path[k] == '/';
    FirstSlash(path, k);
    var inner, i := path[|MODULES|..], k + 1 - |MODULES|;
    assert inner[i..i + |MODULES|] == path[k + 1..k + 1 + |MODULES|];
    assert path[k + 1..k + 1 + |MODULES|] == suffix[1..1 + |MODULES|];
    assert suffix[1..1 + |MODULES|] == MODULES;
    assert HasAt(inner, i, MODULES);
  }

  lemma FirstSlash(path: string, k: nat)
    requires k < |path| && HasAt(path, 0, MODULES) && path[k] == '/'
    ensures k >= |MODULES| - 1
  {
    assert k < |MODULES| ==> path[k] == path[0..|MODULES|][k];
  }

  // ---- the worklist as a function

  /** The paths added so far and the names each depends on. */
  type Packages = map<string, seq<string>>

  datatype Item = Item(name: string, from: string)

  function Items(names: seq<string>, from: string): (items: seq<Item>)
    ensures |items| == |names| && forall i | 0 <= i < |names| :: items[i] == Item(names[i], from)
  {
    seq(|names|, i requires 0 <= i < |names| => Item(names[i], from))
  }

  lemma ItemsHold(names: seq<string>, from: string, name: string)
    ensures name in names <==> Item(name, from) in Items(names, from)
    ensures forall item | item in Items(names, from) :: item.from == from && item.name in names
  {
    var items := Items(names, from);
    if name in names {
      var i :| 0 <= i < |names| && names[i] == name;
      assert items[i] == Item(name, from);
    }
  }

  predicate Distinct(paths: seq<string>) { forall i, j | 0 <= i < j < |paths| :: paths[i] != paths[j] }

  function Universe(g: Input): set<string> {
    {""} + g.lock.Keys + (set name | name in g.workspaces :: MODULES + name)
  }

  lemma NodeInUniverse(g: Input, n: Node)
    requires IsNode(g, n)
    ensures PathOf(n) in Universe(g)
  {
  }

  lemma OneLess(g: Input, deps: Packages, n: Node)
    requires IsNode(g, n) && PathOf(n) !in deps
    ensures |Universe(g) - deps[PathOf(n) := DepsOf(g, n)].Keys| < |Universe(g) - deps.Keys|
  {
    hide Universe;
    NodeInUniverse(g, n);
    var deps' := deps[PathOf(n) := DepsOf(g, n)];
    assert deps'.Keys == deps.Keys + {PathOf(n)};
    assert Universe(g) - deps.Keys == (Universe(g) - deps'.Keys) + {PathOf(n)};
  }

  /** First come, first served: each path is recorded as what it was first asked for. */
  ghost function Walk(g: Input, deps: Packages, queue: seq<Item>): Option<Packages>
    decreases |Universe(g) - deps.Keys|, |queue|
  {
    if queue == [] then Some(deps)
    else
      var to := Target(g, queue[0].name, queue[0].from);
      if to.None? then None
      else if PathOf(to.value) in deps then Walk(g, deps, queue[1..])
      else
        TargetIsNode(g, queue[0].name, queue[0].from);
        OneLess(g, deps, to.value);
        Walk(g, deps[PathOf(to.value) := DepsOf(g, to.value)], queue[1..] + Items(DepsOf(g, to.value), PathOf(to.value)))
  }

  ghost function Generated(g: Input): Option<Packages> {
    Walk(g, map["" := g.rootDependencies], Items(g.rootDependencies, ""))
  }

  // ---- what the worklist keeps

  /** The path is recorded as something that is needed. */
  ghost predicate Stands(g: Input, path: string, names: seq<string>) {
    exists n :: Needed(g, n) && IsNode(g, n) && PathOf(n) == path && DepsOf(g, n) == names
  }

  /** Every dependency of an added path is still queued or dealt with. */
  ghost predicate Pending(g: Input, deps: Packages, queue: seq<Item>, names: set<string>) {
    forall p, name | p in deps && name in deps[p] :: Item(name, p) in queue || Done(g, deps, names, name, p)
  }

  ghost predicate Done(g: Input, deps: Packages, names: set<string>, name: string, from: string) {
    && Target(g, name, from).Some? && PathOf(Target(g, name, from).value) in deps
    && (name in g.workspaces ==> name in names)
  }

  predicate QueueOk(deps: Packages, queue: seq<Item>) {
    forall item | item in queue :: item.from in deps && item.name in deps[item.from]
  }

  /** The internal names are dependencies of added paths. */
  ghost predicate NamesOk(g: Input, deps: Packages, names: set<string>) {
    forall name | name in names :: name in g.workspaces && IsNeeded(deps, name)
  }

  ghost predicate IsNeeded(deps: Packages, name: string) { exists p :: p in deps && name in deps[p] }

  ghost predicate Progress(g: Input, deps: Packages, queue: seq<Item>, order: seq<string>, names: set<string>) {
    && "" in deps && deps[""] == g.rootDependencies
    && (forall p | p in deps :: Stands(g, p, deps[p]))
    && Pending(g, deps, queue, names) && QueueOk(deps, queue)
    && Distinct(order) && (forall p :: p in order <==> p in deps)
    && NamesOk(g, deps, names)
  }

  /** The names seen once the front item is taken. */
  function WithName(g: Input, names: set<string>, name: string): set<string> {
    if name in g.workspaces then names + {name} else names
  }

  /** Taking an item whose target is already there. */
  lemma PendingSkip(g: Input, deps: Packages, queue: seq<Item>, names: set<string>, to: Node)
    requires queue != [] && Pending(g, deps, queue, names) && QueueOk(deps, queue) && NamesOk(g, deps, names)
    requires Target(g, queue[0].name, queue[0].from) == Some(to) && PathOf(to) in deps
    ensures Pending(g, deps, queue[1..], WithName(g, names, queue[0].name)) && QueueOk(deps, queue[1..])
    ensures NamesOk(g, deps, WithName(g, names, queue[0].name))
  {
    hide Target, PathOf;
    var names' := WithName(g, names, queue[0].name);
    assert queue[0] in queue;
    forall p, name | p in deps && name in deps[p] ensures Item(name, p) in queue[1..] || Done(g, deps, names', name, p) {
      assert queue == [queue[0]] + queue[1..];
    }
    forall name | name in names' ensures name in g.workspaces && IsNeeded(deps, name) {
    }
  }

  /** Taking an item whose target is new: its dependencies are queued. */
  lemma PendingAdd(g: Input, deps: Packages, queue: seq<Item>, names: set<string>, to: Node, d: seq<string>)
    requires queue != [] && Pending(g, deps, queue, names) && QueueOk(deps, queue) && NamesOk(g, deps, names)
    requires Target(g, queue[0].name, queue[0].from) == Some(to) && PathOf(to) !in deps
    ensures var deps', queue', names' := deps[PathOf(to) := d], queue[1..] + Items(d, PathOf(to)), WithName(g, names, queue[0].name);
            Pending(g, deps', queue', names') && QueueOk(deps', queue') && NamesOk(g, deps', names')
  {
    hide Target, Items, PathOf;
    var path := PathOf(to);
    var deps', queue', names' := deps[path := d], queue[1..] + Items(d, path), WithName(g, names, queue[0].name);
    assert queue[0] in queue && queue == [queue[0]] + queue[1..];
    forall p, name | p in deps' && name in deps'[p] ensures Item(name, p) in queue' || Done(g, deps', names', name, p) {
      if p == path {
        ItemsHold(d, path, name);
      } else {
        assert Item(name, p) in queue || Done(g, deps, names, name, p);
      }
    }
    forall item | item in queue' ensures item.from in deps' && item.name in deps'[item.from] {
      ItemsHold(d, path, item.name);
    }
    forall name | name in names' ensures name in g.workspaces && IsNeeded(deps', name) {
      if name in names {
        var p :| p in deps && name in deps[p];
        assert p in deps' && name in deps'[p];
      } else {
        assert queue[0].from in deps' && name in deps'[queue[0].from];
      }
    }
  }

  /** What the front item asks for is needed. */
  lemma FrontIsNeeded(g: Input, deps: Packages, item: Item, to: Node)
    requires item.from in deps && item.name in deps[item.from] && Stands(g, item.from, deps[item.from])
    requires Target(g, item.name, item.from) == Some(to)
    ensures Needed(g, to) && IsNode(g, to) && Stands(g, PathOf(to), DepsOf(g, to))
  {
    hide Target, Needed;
    var n :| Needed(g, n) && IsNode(g, n) && PathOf(n) == item.from && DepsOf(g, n) == deps[item.from];
    assert IsEdge(g, n, to);
    NeededStep(g, n, to);
    TargetIsNode(g, item.name, item.from);
  }

  lemma ProgressSkip(g: Input, deps: Packages, queue: seq<Item>, order: seq<string>, names: set<string>, to: Node)
    requires queue != [] && Progress(g, deps, queue, order, names)
    requires Target(g, queue[0].name, queue[0].from) == Some(to) && PathOf(to) in deps
    ensures Progress(g, deps, queue[1..], order, WithName(g, names, queue[0].name))
    ensures Walk(g, deps, queue[1..]) == Walk(g, deps, queue)
  {
    hide Target, Pending, QueueOk, NamesOk, Stands, WithName;
    PendingSkip(g, deps, queue, names, to);
  }

  lemma ProgressAdd(g: Input, deps: Packages, queue: seq<Item>, order: seq<string>, names: set<string>, to: Node)
    requires queue != [] && Progress(g, deps, queue, order, names)
    requires Target(g, queue[0].name, queue[0].from) == Some(to) && PathOf(to) !in deps
    ensures IsNode(g, to)
    ensures var path, d := PathOf(to), DepsOf(g, to);
            && Progress(g, deps[path := d], queue[1..] + Items(d, path), order + [path], WithName(g, names, queue[0].name))
            && Walk(g, deps[path := d], queue[1..] + Items(d, path)) == Walk(g, deps, queue)
            && |Universe(g) - deps[path := d].Keys| < |Universe(g) - deps.Keys|
  {
    hide Target, Pending, NamesOk, Stands, WithName, Items, Distinct, PathOf, DepsOf, Universe;
    assert queue[0] in queue;
    FrontIsNeeded(g, deps, queue[0], to);
    OneLess(g, deps, to);
    PendingAdd(g, deps, queue, names, to, DepsOf(g, to));
    OneMore(order, deps, PathOf(to), DepsOf(g, to));
  }

  lemma OneMore(order: seq<string>, deps: Packages, path: string, d: seq<string>)
    requires Distinct(order) && path !in deps && forall p :: p in order <==> p in deps
    ensures Distinct(order + [path]) && forall p :: p in order + [path] <==> p in deps[path := d]
  {
    assert path !in order;
  }

  lemma ProgressFails(g: Input, deps: Packages, queue: seq<Item>, order: seq<string>, names: set<string>)
    requires queue != [] && Progress(g, deps, queue, order, names) && Target(g, queue[0].name, queue[0].from).None?
    ensures exists n :: Unresolvable(g, n, queue[0].name)
    ensures Walk(g, deps, queue).None?
  {
    hide Target, Needed, Pending, NamesOk, Distinct;
    var item := queue[0];
    assert item in queue && Stands(g, item.from, deps[item.from]);
    var n :| Needed(g, n) && IsNode(g, n) && PathOf(n) == item.from && DepsOf(g, n) == deps[item.from];
    assert Unresolvable(g, n, item.name);
  }

  lemma ProgressStart(g: Input)
    ensures Progress(g, map["" := g.rootDependencies], Items(g.rootDependencies, ""), [""], {})
  {
    hide Target, Needed;
    var m := map["" := g.rootDependencies];
    RootNeeded(g);
    assert PathOf(Root) == "" && DepsOf(g, Root) == g.rootDependencies;
    forall name ensures name in g.rootDependencies <==> Item(name, "") in Items(g.rootDependencies, "") {
      ItemsHold(g.rootDependencies, "", name);
    }
    ItemsHold(g.rootDependencies, "", "");
  }

  // ---- the result

  /** The result holds everything needed, with its own dependencies. */
  ghost predicate IsFaithful(g: Input, m: Packages) {
    forall n | Needed(g, n) && IsNode(g, n) :: PathOf(n) in m && m[PathOf(n)] == DepsOf(g, n)
  }

  /** Every recorded dependency resolves to a path that is included. */
  ghost predicate IsClosed(g: Input, m: Packages) {
    forall p, name | p in m && name in m[p] :: Target(g, name, p).Some? && PathOf(Target(g, name, p).value) in m
  }

  ghost predicate IsResult(g: Input, m: Packages) {
    && "" in m && m[""] == g.rootDependencies && IsClosed(g, m) && forall p | p in m :: Stands(g, p, m[p])
  }

  lemma {:induction false} ChainIsIncluded(g: Input, m: Packages, chain: seq<Node>, k: nat)
    requires IsResult(g, m) && Consistent(g) && k < |chain| && IsChain(g, chain, chain[|chain| - 1])
    ensures IsNode(g, chain[k]) && Needed(g, chain[k]) && PathOf(chain[k]) in m && m[PathOf(chain[k])] == DepsOf(g, chain[k])
  {
    hide Target, Needed, Stands, Consistent;
    if k == 0 {
      RootNeeded(g);
    } else {
      ChainIsIncluded(g, m, chain, k - 1);
      var from, to := chain[k - 1], chain[k - 1 + 1];
      assert IsEdge(g, from, to);
      NeededStep(g, from, to);
      NeededIsNode(g, to);
      var name :| name in DepsOf(g, from) && Target(g, name, PathOf(from)) == Some(to);
      assert PathOf(to) in m && Stands(g, PathOf(to), m[PathOf(to)]);
      StandsFor(g, PathOf(to), m[PathOf(to)], to);
    }
  }

  lemma StandsFor(g: Input, path: string, names: seq<string>, n: Node)
    requires Stands(g, path, names) && Consistent(g) && Needed(g, n) && IsNode(g, n) && PathOf(n) == path
    ensures names == DepsOf(g, n)
  {
    hide Needed, PathOf, DepsOf;
  }

  /** A shrinkwrap holds everything needed, with its own dependencies, if and only if the
      lockfile is consistent. */
  lemma FaithfulIffConsistent(g: Input, m: Packages)
    requires IsResult(g, m)
    ensures IsFaithful(g, m) <==> Consistent(g)
  {
    hide Needed, Target, Stands;
    if Consistent(g) {
      forall n | Needed(g, n) && IsNode(g, n) ensures PathOf(n) in m && m[PathOf(n)] == DepsOf(g, n) {
        Included(g, m, n);
      }
    }
  }

  lemma Included(g: Input, m: Packages, n: Node)
    requires IsResult(g, m) && Consistent(g) && Needed(g, n) && IsNode(g, n)
    ensures PathOf(n) in m && m[PathOf(n)] == DepsOf(g, n)
  {
    hide IsResult, Consistent, IsEdge;
    var chain :| IsChain(g, chain, n);
    ChainIsIncluded(g, m, chain, |chain| - 1);
  }

  /** In a consistent lockfile nothing needed is left unresolved by a success. */
  lemma NothingUnresolved(g: Input, m: Packages)
    requires IsResult(g, m) && Consistent(g)
    ensures !exists n, name :: Unresolvable(g, n, name)
  {
    hide Needed, Target, Stands, Consistent;
    forall n, name | Needed(g, n) && IsNode(g, n) && name in DepsOf(g, n) ensures Target(g, name, PathOf(n)).Some? {
      Included(g, m, n);
    }
  }

  /** The first loop of `resolveExternalDependency`. */
  method ListCandidateDirs(from: string) returns (candidateDirs: seq<string>)
    ensures candidateDirs == CandidateDirs(from)
  {
    candidateDirs := [];
    var current := from;
    while current != ""
      invariant candidateDirs + CandidateDirs(current) == CandidateDirs(from)
      decreases |current|
    {
      StepUp(candidateDirs, current);
      candidateDirs := candidateDirs + [current];
      current := if LastBoundary(current, |current|) == 0 then "" else Dirname(current);
    }
    candidateDirs := candidateDirs + [""];
  }

  lemma StepUp(dirs: seq<string>, current: string)
    requires current != ""
    ensures var next := if LastBoundary(current, |current|) == 0 then "" else Dirname(current);
            |next| < |current| && dirs + CandidateDirs(current) == dirs + [current] + CandidateDirs(next)
  {
    hide IsBoundary;
    var next := if LastBoundary(current, |current|) == 0 then "" else Dirname(current);
    assert CandidateDirs(current) == [current] + CandidateDirs(next);
  }

  method ResolveExternalDependency(lock: map<string, LockEntry>, name: string, from: string) returns (path: Option<string>)
    ensures path == Resolve(lock, name, from)
  {
    hide InDir, Copies, CandidateDirs;
    var candidateDirs := ListCandidateDirs(from);
    var i := 0;
    while i < |candidateDirs|
      invariant 0 <= i <= |candidateDirs|
      invariant FirstIn(lock, candidateDirs, name) == FirstIn(lock, candidateDirs[i..], name)
    {
      var candidate := InDir(candidateDirs[i], name);
      if candidate in lock && !lock[candidate].link {
        return Some(candidate);
      }
      assert candidateDirs[i..][1..] == candidateDirs[i + 1..];
      i := i + 1;
    }
    var matches := Copies(lock, name);
    if |matches| == 1 {
      OnlyMember(matches);
      var only :| only in matches;
      return Some(only);
    }
    path := None;
  }

  lemma OnlyMember(s: set<string>)
    requires |s| == 1
    ensures s == {TheOnly(s)}
  {
    var x := TheOnly(s);
    assert |s - {x}| == 0;
  }

  /** The closure, for every lockfile: exactly the first-come result, in which every path
      stands for something needed. It fails only when something needed cannot be resolved, and
      a success is closed; in a consistent lockfile it fails exactly then and otherwise holds
      exactly what is needed, with its own dependencies. */
  method GenerateShrinkwrap(g: Input) returns (packages: Option<Packages>, order: seq<string>, internalNames: set<string>)
    ensures packages == Generated(g)
    ensures packages.None? ==> exists n, name :: Unresolvable(g, n, name)
    ensures packages.Some? ==> IsResult(g, packages.value)
    ensures packages.Some? ==> (IsFaithful(g, packages.value) <==> Consistent(g))
    ensures Consistent(g) ==> (packages.None? <==> exists n, name :: Unresolvable(g, n, name))
    ensures packages.Some? ==> Distinct(order) && forall p :: p in order <==> p in packages.value
    ensures packages.Some? ==> forall name :: name in internalNames <==> name in g.workspaces && IsNeeded(packages.value, name)
  {
    hide Resolve, Target, Items, Universe, Progress, Distinct, IsNeeded, Walk, IsResult, Consistent, IsFaithful, Unresolvable;
    var shrinkwrap := map["" := g.rootDependencies];
    var queue := Items(g.rootDependencies, "");
    order, internalNames := [""], {};
    ProgressStart(g);
    while queue != []
      invariant Progress(g, shrinkwrap, queue, order, internalNames)
      invariant Walk(g, shrinkwrap, queue) == Generated(g)
      decreases |Universe(g) - shrinkwrap.Keys|, |queue|
    {
      var item := queue[0];
      if item.name in g.workspaces {
        var outputPath := MODULES + item.name;
        TargetOfWorkspace(g, item.name, item.from);
        if outputPath !in shrinkwrap {
          ProgressAdd(g, shrinkwrap, queue, order, internalNames, Workspace(item.name));
          shrinkwrap := shrinkwrap[outputPath := g.workspaces[item.name]];
          order := order + [outputPath];
          queue := queue[1..] + Items(g.workspaces[item.name], outputPath);
        } else {
          ProgressSkip(g, shrinkwrap, queue, order, internalNames, Workspace(item.name));
          queue := queue[1..];
        }
        internalNames := internalNames + {item.name};
        continue;
      }
      var resolved := ResolveExternalDependency(g.lock, item.name, item.from);
      TargetOfExternal(g, item.name, item.from);
      if resolved.None? {
        ProgressFails(g, shrinkwrap, queue, order, internalNames);
        return None, order, internalNames;
      }
      var lockPath := resolved.value;
      if lockPath in shrinkwrap {
        ProgressSkip(g, shrinkwrap, queue, order, internalNames, External(lockPath));
        queue := queue[1..];
      } else {
        ProgressAdd(g, shrinkwrap, queue, order, internalNames, External(lockPath));
        var entry := g.lock[lockPath];
        shrinkwrap := shrinkwrap[lockPath := entry.dependencies];
        order := order + [lockPath];
        queue := queue[1..] + Items(entry.dependencies, lockPath);
      }
    }
    WalkEnds(g, shrinkwrap);
    ProgressEnd(g, shrinkwrap, order, internalNames);
    FaithfulIffConsistent(g, shrinkwrap);
    if Consistent(g) {
      NothingUnresolved(g, shrinkwrap);
    }
    packages := Some(shrinkwrap);
  }

  lemma WalkEnds(g: Input, deps: Packages)
    ensures Walk(g, deps, []) == Some(deps)
  {
  }

  lemma ProgressEnd(g: Input, deps: Packages, order: seq<string>, names: set<string>)
    requires Progress(g, deps, [], order, names)
    ensures IsResult(g, deps)
    ensures Distinct(order) && (forall p :: p in order <==> p in deps)
    ensures forall name :: name in names <==> name in g.workspaces && IsNeeded(deps, name)
  {
    hide Target, Stands;
    forall p, name | p in deps && name in deps[p]
      ensures Target(g, name, p).Some? && PathOf(Target(g, name, p).value) in deps && (name in g.workspaces ==> name in names)
    {
      assert Done(g, deps, names, name, p);
    }
  }

  lemma TargetOfWorkspace(g: Input, name: string, from: string)
    requires name in g.workspaces
    ensures Target(g, name, from) == Some(Workspace(name))
  {
  }

  lemma TargetOfExternal(g: Input, name: string, from: string)
    requires name !in g.workspaces
    ensures Target(g, name, from).None? <==> Resolve(g.lock, name, from).None?
    ensures Target(g, name, from).Some? ==>
              Target(g, name, from) == Some(External(Resolve(g.lock, name, from).value)) && Resolve(g.lock, name, from).value in g.lock
  {
    hide Resolve;
    if Resolve(g.lock, name, from).Some? {
      ResolvedIsCopy(g.lock, name, from);
    }
  }

  /** The generated shrinkwrap passes the check that every dependency of every path is
      included under some path. */
  lemma DependenciesIncluded(g: Input, m: Packages, p: string, name: string)
    requires IsClosed(g, m) && p in m && name in m[p]
    ensures exists q :: q in m && IsCopyOf(q, name)
  {
    hide Resolve;
    var to := Target(g, name, p).value;
    TargetIsNode(g, name, p);
    assert PathOf(to) in m && IsCopyOf(PathOf(to), name);
  }

  // ---- a lockfile that is not consistent

  /** A lockfile with one entry resolves its package to it from everywhere. */
  lemma OnlyEntry(path: string, entry: LockEntry, name: string, from: string)
    requires !entry.link && IsCopyOf(path, name)
    ensures Resolve(map[path := entry], name, from) == Some(path)
  {
    hide IsCopyOf, CandidateDirs, InDir;
    var lock := map[path := entry];
    var k := FirstInIs(lock, CandidateDirs(from), name);
    assert path in Copies(lock, name);
    assert Copies(lock, name) == {path};
    OnlyMember({path});
  }

  /** Package `b` under package `a` depends on `c`; the workspace that is named like its place
      depends on `d`; the root asks for both. */
  function Colliding(a: string, b: string, c: string, d: string): Input {
    var w := a + "/" + (MODULES + b);
    Input(map[MODULES + w := LockEntry(false, [c])], map[w := [d], c := [], d := []], [b, w])
  }

  lemma CollidingPaths(a: string, b: string)
    ensures var w := a + "/" + (MODULES + b); IsCopyOf(MODULES + w, b) && b != w && MODULES + w != ""
  {
    var w, suffix := a + "/" + (MODULES + b), "/" + (MODULES + b);
    var path := MODULES + w;
    assert path == (MODULES + a) + suffix;
    assert path[|path| - |suffix|..] == suffix;
    assert |b| < |w|;
  }

  /** Both share a path, the second one asked for is skipped, and what it depends on is missing
      although it is needed. */
  lemma DroppedDependency(a: string, b: string, c: string, d: string)
    requires var w := a + "/" + (MODULES + b); b != c && b != d && c != d && c != w && d != w
    ensures var g := Colliding(a, b, c, d);
            && Needed(g, Workspace(d)) && !Consistent(g)
            && Generated(g).Some? && MODULES + d !in Generated(g).value
  {
    hide Resolve, Needed, IsCopyOf;
    var w := a + "/" + (MODULES + b);
    var g, path := Colliding(a, b, c, d), MODULES + w;
    CollidingPaths(a, b);
    OnlyEntry(path, g.lock[path], b, "");
    assert Target(g, b, "") == Some(External(path)) && Target(g, w, "") == Some(Workspace(w));
    BothNeeded(g, b, w, d, path);
    DifferentPaths(w, c, d);
    CollidingWalk(g, b, w, c, path);
  }

  lemma DifferentPaths(w: string, c: string, d: string)
    requires c != w && d != w && c != d
    ensures MODULES + c != MODULES + w && MODULES + d != MODULES + w && MODULES + c != MODULES + d
    ensures MODULES + c != "" && MODULES + d != ""
  {
    assert (MODULES + c)[|MODULES|..] == c && (MODULES + d)[|MODULES|..] == d && (MODULES + w)[|MODULES|..] == w;
  }

  lemma BothNeeded(g: Input, b: string, w: string, d: string, path: string)
    requires g.rootDependencies == [b, w] && Target(g, b, "") == Some(External(path)) && Target(g, w, "") == Some(Workspace(w))
    requires w in g.workspaces && d in g.workspaces && g.workspaces[w] == [d] && path in g.lock
    ensures Needed(g, External(path)) && Needed(g, Workspace(w)) && Needed(g, Workspace(d))
  {
    hide Target, Needed;
    RootNeeded(g);
    assert b in g.rootDependencies && w in g.rootDependencies && d in g.workspaces[w];
    assert PathOf(Root) == "" && b in DepsOf(g, Root) && w in DepsOf(g, Root);
    assert IsEdge(g, Root, External(path)) && IsEdge(g, Root, Workspace(w));
    NeededStep(g, Root, External(path));
    NeededStep(g, Root, Workspace(w));
    TargetOfWorkspace(g, d, PathOf(Workspace(w)));
    assert IsEdge(g, Workspace(w), Workspace(d));
    NeededStep(g, Workspace(w), Workspace(d));
  }

  lemma CollidingWalk(g: Input, b: string, w: string, c: string, path: string)
    requires g.rootDependencies == [b, w] && path == MODULES + w && path in g.lock && g.lock[path].dependencies == [c]
    requires w in g.workspaces && c in g.workspaces && g.workspaces[c] == []
    requires Target(g, b, "") == Some(External(path)) && MODULES + c != path && path != "" && MODULES + c != ""
    ensures Generated(g) == Some(map["" := [b, w], path := [c], MODULES + c := []])
  {
    hide Target, Universe;
    var m0 := map["" := [b, w]];
    var m1 := m0[path := [c]];
    var m2 := m1[MODULES + c := []];
    TargetOfWorkspace(g, w, "");
    TargetOfWorkspace(g, c, path);
    assert Items([b, w], "") == [Item(b, ""), Item(w, "")];
    assert Items([c], path) == [Item(c, path)];
    assert Items([], MODULES + c) == [];
    var q0 := [Item(b, ""), Item(w, "")];
    assert q0[1..] + [Item(c, path)] == [Item(w, ""), Item(c, path)];
    assert Walk(g, m0, q0) == Walk(g, m1, [Item(w, ""), Item(c, path)]);
    assert [Item(w, ""), Item(c, path)][1..] == [Item(c, path)];
    assert Walk(g, m1, [Item(w, ""), Item(c, path)]) == Walk(g, m1, [Item(c, path)]);
    assert [Item(c, path)][1..] + [] == [];
    assert Walk(g, m1, [Item(c, path)]) == Walk(g, m2, []);
  }
}
