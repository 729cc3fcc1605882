/**
 * The depth-limited directory scan of SyncService: filepath.Walk visits a tree in lexical order and the callback
 * prunes what lies too deep. The reference is the walk of the whole tree, filtered afterwards.
 */
module DirectoryScan {

  type Path = string

  /** A Broken entry cannot be examined, or is a directory that cannot be read: its visit carries an error. */
  datatype Node = File(name: string) | Directory(name: string, children: seq<Node>) | Broken(name: string)

  /** `matches` tells whether a pattern is a valid regular expression that matches a path. */
  datatype Options = Options(maxDepth: int, including: seq<string>, excluding: seq<string>,
                             matches: (string, Path) -> bool)

  datatype Kind = IsFile | IsDirectory | IsBroken

  /** `below` are the names that lead from the root of the scan to the entry. */
  datatype Visit = Visit(below: seq<string>, kind: Kind)

  function PathOf(root: Path, below: seq<string>): Path {
    if below == [] then root else PathOf(root, below[..|below| - 1]) + "/" + below[|below| - 1]
  }

  /** The number of components of the relative path; that of the root itself is ".". */
  function Depth(below: seq<string>): nat {
    if below == [] then 1 else |below|
  }

  predicate TooDeep(below: seq<string>, o: Options) {
    o.maxDepth > 0 && Depth(below) > o.maxDepth
  }

  /** Some exclusion pattern matches, or there are inclusion patterns and none of them matches. */
  ghost predicate Skipped(path: Path, o: Options) {
    || (exists p <- o.excluding :: o.matches(p, path))
    || (o.including != [] && !exists p <- o.including :: o.matches(p, path))
  }

  // ----- The walk of the whole tree -----

  function Walk(n: Node, below: seq<string>): seq<Visit>
    decreases n, 1
  {
    match n
    case File(_) => [Visit(below, IsFile)]
    case Broken(_) => [Visit(below, IsBroken)]
    case Directory(_, children) => [Visit(below, IsDirectory)] + WalkAll(children, below)
  }

  function WalkAll(ns: seq<Node>, below: seq<string>): seq<Visit>
    decreases ns, 0
  {
    if ns == [] then [] else Walk(ns[0], below + [ns[0].name]) + WalkAll(ns[1..], below)
  }

  // ----- What the scan makes of it -----

  /** The scan looks one level past the limit, where it prunes. */
  predicate Reached(v: Visit, o: Options) {
    o.maxDepth > 0 ==> Depth(v.below) <= o.maxDepth + 1
  }

  ghost predicate Kept(v: Visit, root: Path, o: Options) {
    v.kind == IsFile && !TooDeep(v.below, o) && !Skipped(PathOf(root, v.below), o)
  }

  predicate Fatal(v: Visit, o: Options) {
    Reached(v, o) && v.kind == IsBroken
  }

  datatype Result = Result(files: seq<Path>, failed: bool)

  function Prepend(files: seq<Path>, r: Result): Result {
    Result(files + r.files, r.failed)
  }

  /** The paths of the kept visits before the first fatal one. */
  ghost function Filtered(vs: seq<Visit>, root: Path, o: Options): Result {
    if vs == [] then Result([], false)
    else if Fatal(vs[0], o) then Result([], true)
    else Prepend(if Kept(vs[0], root, o) then [PathOf(root, vs[0].below)] else [], Filtered(vs[1..], root, o))
  }

  lemma PrependTwice(a: seq<Path>, b: seq<Path>, r: Result)
    ensures Prepend(a, Prepend(b, r)) == Prepend(a + b, r)
  {
    assert a + (b + r.files) == a + b + r.files;
  }

  lemma {:induction false} FilteredConcat(a: seq<Visit>, b: seq<Visit>, root: Path, o: Options)
    ensures var r := Filtered(a, root, o);
            Filtered(a + b, root, o) == if r.failed then r else Prepend(r.files, Filtered(b, root, o))
  {
    hide Kept, Fatal;
    if a == [] {
      assert a + b == b;
    } else {
      assert (a + b)[1..] == a[1..] + b && (a + b)[0] == a[0];
      FilteredConcat(a[1..], b, root, o);
      var head := if Kept(a[0], root, o) then [PathOf(root, a[0].below)] else [];
      PrependTwice(head, Filtered(a[1..], root, o).files, Filtered(b, root, o));
    }
  }

  /** The part of the walk from child `i` on is that of the child, and then that of the others unless it fails. */
  lemma NextChild(children: seq<Node>, i: nat, root: Path, below: seq<string>, o: Options)
    requires i < |children|
    ensures var r := Filtered(Walk(children[i], below + [children[i].name]), root, o);
            Filtered(WalkAll(children[i..], below), root, o) ==
              if r.failed then r else Prepend(r.files, Filtered(WalkAll(children[i + 1..], below), root, o))
  {
    assert children[i..][0] == children[i] && children[i..][1..] == children[i + 1..];
    FilteredConcat(Walk(children[i], below + [children[i].name]), WalkAll(children[i + 1..], below), root, o);
  }

  predicate AllUnreached(vs: seq<Visit>, o: Options) {
    forall i :: 0 <= i < |vs| ==> !Reached(vs[i], o)
  }

  lemma {:induction false} UnreachedIsIgnored(vs: seq<Visit>, root: Path, o: Options)
    requires AllUnreached(vs, o)
    ensures Filtered(vs, root, o) == Result([], false)
  {
    if vs != [] {
      assert !Reached(vs[0], o);
      forall i | 0 <= i < |vs[1..]|
        ensures !Reached(vs[1..][i], o)
      {
        assert vs[1..][i] == vs[i + 1];
      }
      UnreachedIsIgnored(vs[1..], root, o);
    }
  }

  /** Nothing below a directory past the limit is reached. */
  lemma {:induction false} DeepIsUnreached(n: Node, below: seq<string>, o: Options)
    requires o.maxDepth > 0 && |below| > o.maxDepth + 1
    ensures AllUnreached(Walk(n, below), o)
    decreases n, 1
  {
    if n.Directory? {
      DeepAreUnreached(n.children, below, o);
    }
  }

  lemma {:induction false} DeepAreUnreached(ns: seq<Node>, below: seq<string>, o: Options)
    requires o.maxDepth > 0 && |below| > o.maxDepth
    ensures AllUnreached(WalkAll(ns, below), o)
    decreases ns, 0
  {
    if ns != [] {
      DeepIsUnreached(ns[0], below + [ns[0].name], o);
      DeepAreUnreached(ns[1..], below, o);
    }
  }

  // ----- The scan itself -----

  method ShouldSkipFile(path: Path, o: Options) returns (skip: bool)
    ensures skip <==> Skipped(path, o)
  {
    for i := 0 to |o.excluding|
      invariant forall j :: 0 <= j < i ==> !o.matches(o.excluding[j], path)
    {
      if o.matches(o.excluding[i], path) {
        return true;
      }
    }
    if |o.including| > 0 {
      var included := false;
      for i := 0 to |o.including|
        invariant !included && forall j :: 0 <= j < i ==> !o.matches(o.including[j], path)
      {
        if o.matches(o.including[i], path) {
          included := true;
          break;
        }
      }
      return !included;
    }
    return false;
  }

  /** filepath.Walk with the scan's callback, on an entry that is reached. */
  method ScanEntry(n: Node, root: Path, below: seq<string>, o: Options) returns (r: Result)
    requires Reached(Visit(below, IsFile), o)
    ensures r == Filtered(Walk(n, below), root, o)
    decreases n
  {
    if n.Broken? {
      return Result([], true);
    }
    if TooDeep(below, o) {
      if n.Directory? {
        assert |below| > o.maxDepth;
        DeepAreUnreached(n.children, below, o);
        UnreachedIsIgnored(WalkAll(n.children, below), root, o);
      }
      return Result([], false);
    }
    if n.File? {
      var skip := ShouldSkipFile(PathOf(root, below), o);
      return Result(if skip then [] else [PathOf(root, below)], false);
    }
    var files := [];
    var children := n.children;
    var i := 0;
    while i < |children|
      invariant 0 <= i <= |children|
      invariant Filtered(WalkAll(children, below), root, o)
             == Prepend(files, Filtered(WalkAll(children[i..], below), root, o))
    {
      var child := children[i];
      var found := ScanEntry(child, root, below + [child.name], o);
      NextChild(children, i, root, below, o);
      if found.failed {
        return Result(files + found.files, true);
      }
      PrependTwice(files, found.files, Filtered(WalkAll(children[i + 1..], below), root, o));
      files := files + found.files;
      i := i + 1;
    }
    assert WalkAll(children[i..], below) == [] && files + [] == files;
    r := Result(files, false);
  }

  /** The pruned scan finds what filtering the walk of the whole tree finds, in the same order. */
  method ScanDirectory(root: Path, tree: Node, o: Options) returns (r: Result)
    ensures r == Filtered(Walk(tree, []), root, o)
  {
    r := ScanEntry(tree, root, [], o);
  }

  // ----- What the result means -----

  /** The scan fails exactly if an entry at most one level past the limit is broken, even where it would be pruned. */
  lemma {:induction false} FailsExactlyOnReachedErrors(vs: seq<Visit>, root: Path, o: Options)
    ensures Filtered(vs, root, o).failed <==> exists i :: 0 <= i < |vs| && Fatal(vs[i], o)
  {
    if vs != [] {
      FailsExactlyOnReachedErrors(vs[1..], root, o);
      if i: int :| 0 <= i < |vs| && Fatal(vs[i], o) {
        assert i > 0 ==> vs[i] == vs[1..][i - 1];
      }
    }
  }

  ghost function Select(vs: seq<Visit>, root: Path, o: Options): seq<Path> {
    if vs == [] then []
    else (if Kept(vs[0], root, o) then [PathOf(root, vs[0].below)] else []) + Select(vs[1..], root, o)
  }

  /** Without such an entry the result is all files within the limit that the patterns let through, in walk order. */
  lemma {:induction false} ScanIsSelection(vs: seq<Visit>, root: Path, o: Options)
    requires !Filtered(vs, root, o).failed
    ensures Filtered(vs, root, o).files == Select(vs, root, o)
  {
    if vs != [] {
      ScanIsSelection(vs[1..], root, o);
    }
  }

  /** Exclusion wins; without inclusion patterns everything else stays, with them only what one of them matches. */
  lemma SkippedMeaning(path: Path, o: Options)
    ensures o.including == [] && o.excluding == [] ==> !Skipped(path, o)
    ensures (exists p <- o.excluding :: o.matches(p, path)) ==> Skipped(path, o)
    ensures !Skipped(path, o) && o.including != [] ==> exists p <- o.including :: o.matches(p, path)
    ensures Skipped(path, o) && (forall p <- o.excluding :: !o.matches(p, path)) ==>
              o.including != [] && forall p <- o.including :: !o.matches(p, path)
  {
  }

  /** A file that a scan returns: within the depth limit, not excluded, and included if there are inclusion patterns. */
  ghost predicate Found(v: Visit, root: Path, o: Options) {
    && v.kind == IsFile
    && (o.maxDepth <= 0 || |v.below| <= o.maxDepth)
    && (forall p <- o.excluding :: !o.matches(p, PathOf(root, v.below)))
    && (o.including == [] || exists p <- o.including :: o.matches(p, PathOf(root, v.below)))
  }

  /** Exactly the paths of these files are returned. */
  lemma {:induction false} SelectMembers(vs: seq<Visit>, root: Path, o: Options, path: Path)
    ensures path in Select(vs, root, o) <==> exists v <- vs :: Found(v, root, o) && path == PathOf(root, v.below)
  {
    if vs != [] {
      SelectMembers(vs[1..], root, o, path);
      assert Kept(vs[0], root, o) <==> Found(vs[0], root, o);
      assert vs == [vs[0]] + vs[1..];
    }
  }
}
