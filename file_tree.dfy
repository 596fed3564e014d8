/**
 * `convertFilesToTreeItems`: the flat path-to-content map of a fragment
 * becomes the nested list the file explorer's tree renders. The paths are
 * sorted, split on "/" with empty segments dropped, and inserted into a tree
 * of JavaScript objects in which a directory is an object and a file is
 * `null`; the tree is then rendered recursively, a file as its name and a
 * directory as a list headed by its name.
 *
 * The tree objects are modelled as values: a directory's object is a
 * sequence of children in key-insertion order, the moving `current`
 * reference of the source becomes a path of frames that remembers where the
 * cursor came from, and the directory objects are rebuilt along that path
 * once the leaf is placed.
 */
module FileTree {
  import opened Common
  import opened Text
  import opened FileMap
  import opened StringOrder

  /** A tree entry's value: `null` for a file, an object for a directory. */
  datatype Value = Leaf | Dir(entries: seq<Child>)

  datatype Child = Child(key: string, value: Value)

  /** `TreeItem`: a file name, or a list whose first element is the directory name. */
  datatype TreeItem = Name(name: string) | Items(items: seq<TreeItem>)

  /** What `convertNode` returns: a single name, or a list of items. */
  datatype Converted = AsName(name: string) | AsList(items: seq<TreeItem>)

  // ---------------------------------------------------------------- one object

  /** `Object.keys(node)`. */
  function Keys(n: seq<Child>): (ks: seq<string>)
    ensures |ks| == |n|
  {
    if n == [] then [] else [n[0].key] + Keys(n[1..])
  }

  ghost predicate Distinct(ks: seq<string>)
  {
    forall i, j :: 0 <= i < j < |ks| ==> ks[i] != ks[j]
  }

  /** No key is listed twice in one object, at any depth. */
  ghost predicate UniqueKeys(n: seq<Child>)
  {
    Distinct(Keys(n)) && forall c :: c in n && c.value.Dir? ==> UniqueKeys(c.value.entries)
  }

  /** Every directory has at least one entry, at any depth. */
  ghost predicate NoEmptyDirs(n: seq<Child>)
  {
    forall c :: c in n && c.value.Dir? ==> c.value.entries != [] && NoEmptyDirs(c.value.entries)
  }

  /** `node[key]`, or `None` for `undefined`. */
  function Find(n: seq<Child>, key: string): (r: Option<Value>)
    ensures r.Some? <==> key in Keys(n)
  {
    if n == [] then None
    else if n[0].key == key then Some(n[0].value)
    else Find(n[1..], key)
  }

  /** `node[key] = v`: a present key keeps its place, a new key goes last. */
  function Assign(n: seq<Child>, key: string, v: Value): (r: seq<Child>)
    ensures Find(r, key) == Some(v)
    ensures forall k :: k != key ==> Find(r, k) == Find(n, k)
    ensures |r| >= 1
  {
    if n == [] then [Child(key, v)]
    else if n[0].key == key then [Child(key, v)] + n[1..]
    else [n[0]] + Assign(n[1..], key, v)
  }

  /** The value reached by following `parts` from `n`, or `None` when the walk falls off the tree. */
  function Resolve(n: seq<Child>, parts: seq<string>): Option<Value>
    decreases |parts|
  {
    if parts == [] then Some(Dir(n))
    else
      match Find(n, parts[0])
      case None => None
      case Some(v) =>
        if |parts| == 1 then Some(v)
        else if v.Leaf? then None
        else Resolve(v.entries, parts[1..])
  }

  // ---------------------------------------------------------------- paths

  /** `filePath.split("/").filter(Boolean)`. */
  function Segments(p: string): seq<string>
  {
    DropEmpty(Split(p, IsSlash))
  }

  /**
   * What one iteration of the outer loop does to the tree, as a value: walk
   * the directory segments, turning a missing or `null` entry into a fresh
   * object and reusing an object already there, then set the file segment to
   * `null`. A path without segments changes nothing.
   */
  function InsertPath(n: seq<Child>, parts: seq<string>): seq<Child>
    decreases |parts|
  {
    if |parts| == 0 then n
    else if |parts| == 1 then Assign(n, parts[0], Leaf)
    else
      var sub := match Find(n, parts[0]) case Some(Dir(es)) => es case _ => [];
      Assign(n, parts[0], Dir(InsertPath(sub, parts[1..])))
  }

  /** The tree after inserting the paths in `ps` in turn. */
  function InsertAll(n: seq<Child>, ps: seq<string>): seq<Child>
  {
    if ps == [] then n
    else InsertPath(InsertAll(n, ps[..|ps| - 1]), Segments(ps[|ps| - 1]))
  }

  /** The tree built from the keys of a file map, inserted in sorted order. */
  function BuildTree(paths: seq<string>): seq<Child>
  {
    InsertAll([], Sort(paths))
  }

  /** Where the cursor came from: the object it was in and the key it followed. */
  datatype Frame = Frame(node: seq<Child>, key: string)

  /** Rebuilds the tree around a changed innermost object, outermost frame first. */
  function Plug(frames: seq<Frame>, inner: seq<Child>): seq<Child>
  {
    if frames == [] then inner
    else
      var f := frames[|frames| - 1];
      Plug(frames[..|frames| - 1], Assign(f.node, f.key, Dir(inner)))
  }

  // ---------------------------------------------------------------- rendering

  /** `convertNode(node, name)`. */
  function Convert(n: seq<Child>, name: Option<string>): Converted
    decreases n, 1
  {
    if |n| == 0 && name.Some? && name.value != "" then AsName(name.value)
    else AsList(ConvertChildren(n))
  }

  /** The `children` array after the loop over the first `|n|` entries. */
  function ConvertChildren(n: seq<Child>): seq<TreeItem>
    decreases n, 0
  {
    if n == [] then []
    else
      var c := n[|n| - 1];
      ConvertChildren(n[..|n| - 1]) + [
        match c.value
        case Leaf => Name(c.key)
        case Dir(es) =>
          match Convert(es, Some(c.key))
          case AsList(xs) => Items([Name(c.key)] + xs)
          case AsName(s) => Items([Name(c.key), Name(s)])]
  }

  /** The final `Array.isArray(result) ? result : [result]`. */
  function TopLevel(r: Converted): seq<TreeItem>
  {
    match r
    case AsList(xs) => xs
    case AsName(s) => [Name(s)]
  }

  /** What `convertFilesToTreeItems(files)` returns. */
  function TreeItems(files: Files): seq<TreeItem>
  {
    TopLevel(Convert(BuildTree(Paths(files)), None))
  }

  // ---------------------------------------------------------------- methods

  /** One iteration of the outer loop: the cursor walk, the leaf assignment, then the objects rebuilt. */
  method InsertFilePath(tree: seq<Child>, parts: seq<string>) returns (result: seq<Child>)
    ensures result == InsertPath(tree, parts)
  {
    if |parts| == 0 {
      return tree;
    }
    var frames: seq<Frame> := [];
    var current := tree;
    var i := 0;
    while i < |parts| - 1
      invariant 0 <= i <= |parts| - 1
      invariant Plug(frames, InsertPath(current, parts[i..])) == InsertPath(tree, parts)
    {
      var part := parts[i];
      var next: seq<Child>;
      var existing := Find(current, part);
      if existing.Some? && existing.value.Dir? {
        next := existing.value.entries;
      } else {
        next := [];
      }
      assert parts[i..][0] == part && parts[i..][1..] == parts[i + 1..];
      assert (frames + [Frame(current, part)])[..|frames|] == frames;
      frames := frames + [Frame(current, part)];
      current := next;
      i := i + 1;
    }
    assert parts[i..] == [parts[|parts| - 1]];
    current := Assign(current, parts[|parts| - 1], Leaf);
    var k := |frames|;
    assert frames[..k] == frames;
    while k > 0
      invariant 0 <= k <= |frames|
      invariant Plug(frames[..k], current) == InsertPath(tree, parts)
    {
      assert frames[..k][..k - 1] == frames[..k - 1];
      k := k - 1;
      current := Assign(frames[k].node, frames[k].key, Dir(current));
    }
    result := current;
  }

  /** `convertNode`: a loop that pushes one item per entry, recursing into directories. */
  method ConvertNode(n: seq<Child>, name: Option<string>) returns (r: Converted)
    ensures r == Convert(n, name)
    decreases n
  {
    if |n| == 0 && name.Some? && name.value != "" {
      return AsName(name.value);
    }
    var children: seq<TreeItem> := [];
    for i := 0 to |n|
      invariant children == ConvertChildren(n[..i])
    {
      var c := n[i];
      if c.value.Leaf? {
        children := children + [Name(c.key)];
      } else {
        var sub := ConvertNode(c.value.entries, Some(c.key));
        if sub.AsList? {
          children := children + [Items([Name(c.key)] + sub.items)];
        } else {
          children := children + [Items([Name(c.key), Name(sub.name)])];
        }
      }
      assert n[..i + 1][..i] == n[..i];
    }
    assert n[..|n|] == n;
    r := AsList(children);
  }

  /** `convertFilesToTreeItems`. */
  method ConvertFilesToTreeItems(files: Files) returns (items: seq<TreeItem>)
    ensures items == TreeItems(files)
  {
    var tree: seq<Child> := [];
    var sortedPaths := Sort(Paths(files));
    for k := 0 to |sortedPaths|
      invariant tree == InsertAll([], sortedPaths[..k])
    {
      var parts := Segments(sortedPaths[k]);
      assert sortedPaths[..k + 1][..k] == sortedPaths[..k];
      tree := InsertFilePath(tree, parts);
    }
    assert sortedPaths[..|sortedPaths|] == sortedPaths;
    var result := ConvertNode(tree, None);
    if result.AsList? {
      items := result.items;
    } else {
      items := [Name(result.name)];
    }
  }

  // ---------------------------------------------------------------- lemmas: paths

  /** A slash splits a path into the segments of its two sides. */
  lemma SegmentsSlash(a: string, b: string)
    ensures Segments(a + "/" + b) == Segments(a) + Segments(b)
  {
    SplitAround(a, '/', b, IsSlash);
    DropEmptyConcat(Split(a, IsSlash), Split(b, IsSlash));
  }

  /** A name without slashes is one segment. */
  lemma SegmentsWord(w: string)
    requires IsWord(w)
    ensures Segments(w) == [w]
  {
    SplitNoSeparator(w, IsSlash);
  }

  /** Leading, doubled and trailing slashes do not change where a path lands. */
  lemma EmptySegmentsIgnored(a: string, b: string)
    ensures Segments("/" + a) == Segments(a)
    ensures Segments(a + "//" + b) == Segments(a + "/" + b)
    ensures Segments(a + "/") == Segments(a)
  {
    assert Segments("") == [];
    SegmentsSlash("", a);
    assert "" + "/" + a == "/" + a;
    SegmentsSlash(a, "/" + b);
    SegmentsSlash("", b);
    assert a + "/" + ("/" + b) == a + "//" + b;
    assert "" + "/" + b == "/" + b;
    SegmentsSlash(a, b);
    SegmentsSlash(a, "");
    assert a + "/" + "" == a + "/";
  }

  /** A non-empty name without slashes: one path segment. */
  predicate IsWord(w: string)
  {
    w != "" && forall i :: 0 <= i < |w| ==> w[i] != '/'
  }

  /** "a//b", "/a/b" and "a/b" are the same two segments. */
  lemma SameSegments(a: string, b: string)
    requires IsWord(a) && IsWord(b)
    ensures Segments(a + "//" + b) == Segments("/" + a + "/" + b) == Segments(a + "/" + b) == [a, b]
  {
    SegmentsWord(a);
    SegmentsWord(b);
    SegmentsSlash(a, b);
    EmptySegmentsIgnored(a, b);
    EmptySegmentsIgnored(a + "/" + b, "");
    assert "/" + (a + "/" + b) == "/" + a + "/" + b;
  }

  /** A path without a non-empty segment, such as "" or "/", leaves the tree as it is. */
  lemma NoSegmentsNoChange(n: seq<Child>, p: string)
    ensures Segments(p) == [] <==> forall i :: 0 <= i < |p| ==> p[i] == '/'
    ensures Segments(p) == [] ==> InsertPath(n, Segments(p)) == n
  {
    DropEmptySplitNone(p, IsSlash);
  }

  // ---------------------------------------------------------------- lemmas: one object

  lemma {:induction false} AssignKeys(n: seq<Child>, key: string, v: Value)
    ensures Keys(Assign(n, key, v)) == if key in Keys(n) then Keys(n) else Keys(n) + [key]
  {
    if n != [] {
      assert Keys(n) == [n[0].key] + Keys(n[1..]);
      if n[0].key != key {
        AssignKeys(n[1..], key, v);
        assert Keys(Assign(n, key, v)) == [n[0].key] + Keys(Assign(n[1..], key, v));
      } else {
        assert Keys(Assign(n, key, v)) == [key] + Keys(n[1..]);
      }
    }
  }

  lemma {:induction false} AssignMembers(n: seq<Child>, key: string, v: Value)
    ensures forall c :: c in Assign(n, key, v) ==> c in n || c == Child(key, v)
  {
    if n != [] && n[0].key != key {
      AssignMembers(n[1..], key, v);
    }
  }

  /** Only a key the object lacks is added, and it goes last. */
  lemma InsertKeys(n: seq<Child>, parts: seq<string>)
    ensures Keys(InsertPath(n, parts)) == if parts == [] || parts[0] in Keys(n) then Keys(n) else Keys(n) + [parts[0]]
  {
    if |parts| == 1 {
      AssignKeys(n, parts[0], Leaf);
    } else if |parts| > 1 {
      var sub := match Find(n, parts[0]) case Some(Dir(es)) => es case _ => [];
      AssignKeys(n, parts[0], Dir(InsertPath(sub, parts[1..])));
    }
  }

  /** The final segment becomes a file leaf, reachable along the whole path. */
  lemma {:induction false} LeafPlaced(n: seq<Child>, parts: seq<string>)
    requires parts != []
    ensures Resolve(InsertPath(n, parts), parts) == Some(Leaf)
    decreases |parts|
  {
    if |parts| > 1 {
      var sub := match Find(n, parts[0]) case Some(Dir(es)) => es case _ => [];
      LeafPlaced(sub, parts[1..]);
    }
  }

  /**
   * A directory already present is reused: the object keeps its keys, and
   * the directory keeps its own entries first, with the rest of the path
   * inserted into it.
   */
  lemma DirectoryReused(n: seq<Child>, parts: seq<string>, es: seq<Child>)
    requires |parts| >= 2 && Find(n, parts[0]) == Some(Dir(es))
    ensures Keys(InsertPath(n, parts)) == Keys(n)
    ensures Find(InsertPath(n, parts), parts[0]) == Some(Dir(InsertPath(es, parts[1..])))
    ensures Keys(es) <= Keys(InsertPath(es, parts[1..]))
  {
    InsertKeys(n, parts);
    InsertKeys(es, parts[1..]);
  }

  /** A directory segment that names a file entered earlier replaces that file by a fresh directory. */
  lemma DirectoryOverFile(n: seq<Child>, parts: seq<string>)
    requires |parts| >= 2 && Find(n, parts[0]) == Some(Leaf)
    ensures Keys(InsertPath(n, parts)) == Keys(n)
    ensures Find(InsertPath(n, parts), parts[0]) == Some(Dir(InsertPath([], parts[1..])))
  {
    InsertKeys(n, parts);
  }

  /** A file segment that names a directory entered earlier replaces the whole directory. */
  lemma FileOverDirectory(n: seq<Child>, key: string, es: seq<Child>)
    requires Find(n, key) == Some(Dir(es))
    ensures Keys(InsertPath(n, [key])) == Keys(n)
    ensures Find(InsertPath(n, [key]), key) == Some(Leaf)
  {
    InsertKeys(n, [key]);
  }

  /** Two segment lists that part ways: they differ at a position before either ends. */
  predicate Diverge(a: seq<string>, b: seq<string>)
  {
    a != [] && b != [] && (a[0] != b[0] || Diverge(a[1..], b[1..]))
  }

  lemma {:induction false} DivergeSymmetric(a: seq<string>, b: seq<string>)
    requires Diverge(a, b)
    ensures Diverge(b, a)
  {
    if a[0] == b[0] {
      DivergeSymmetric(a[1..], b[1..]);
    }
  }

  /** Inserting a path leaves everything reached along a path that parts ways with it as it was. */
  lemma {:induction false} InsertKeepsOther(n: seq<Child>, parts: seq<string>, qs: seq<string>)
    requires Diverge(parts, qs)
    ensures Resolve(InsertPath(n, parts), qs) == Resolve(n, qs)
    decreases |parts|
  {
    if parts[0] != qs[0] {
      assert Find(InsertPath(n, parts), qs[0]) == Find(n, qs[0]);
    } else {
      var sub := match Find(n, parts[0]) case Some(Dir(es)) => es case _ => [];
      InsertKeepsOther(sub, parts[1..], qs[1..]);
      if Find(n, qs[0]).Some? && Find(n, qs[0]).value.Dir? {
        assert Resolve(n, qs) == Resolve(sub, qs[1..]);
      } else {
        assert Resolve([], qs[1..]) == None;
      }
    }
  }

  // ---------------------------------------------------------------- lemmas: tree invariants

  lemma {:induction false} DistinctAppend(ks: seq<string>, k: string)
    requires Distinct(ks) && k !in ks
    ensures Distinct(ks + [k])
  {
    forall i, j | 0 <= i < j < |ks + [k]| ensures (ks + [k])[i] != (ks + [k])[j] {
      if j == |ks| {
        assert (ks + [k])[i] == ks[i];
      } else {
        assert (ks + [k])[i] == ks[i] && (ks + [k])[j] == ks[j];
      }
    }
  }

  lemma AssignUnique(n: seq<Child>, key: string, v: Value)
    requires UniqueKeys(n) && (v.Dir? ==> UniqueKeys(v.entries))
    ensures UniqueKeys(Assign(n, key, v))
  {
    AssignKeys(n, key, v);
    AssignMembers(n, key, v);
    if key !in Keys(n) {
      DistinctAppend(Keys(n), key);
    }
  }

  /** Every insertion keeps the keys of each object distinct and never leaves a directory empty. */
  lemma {:induction false} InsertPreserves(n: seq<Child>, parts: seq<string>)
    ensures UniqueKeys(n) ==> UniqueKeys(InsertPath(n, parts))
    ensures NoEmptyDirs(n) ==> NoEmptyDirs(InsertPath(n, parts))
    decreases |parts|
  {
    if |parts| == 1 {
      AssignMembers(n, parts[0], Leaf);
      if UniqueKeys(n) {
        AssignUnique(n, parts[0], Leaf);
      }
    } else if |parts| > 1 {
      var sub := match Find(n, parts[0]) case Some(Dir(es)) => es case _ => [];
      assert Find(n, parts[0]).Some? && Find(n, parts[0]).value.Dir? ==> Child(parts[0], Find(n, parts[0]).value) in n by {
        FindMember(n, parts[0]);
      }
      InsertPreserves(sub, parts[1..]);
      var v := Dir(InsertPath(sub, parts[1..]));
      AssignMembers(n, parts[0], v);
      if UniqueKeys(n) {
        AssignUnique(n, parts[0], v);
      }
    }
  }

  lemma {:induction false} FindMember(n: seq<Child>, key: string)
    ensures Find(n, key).Some? ==> Child(key, Find(n, key).value) in n
  {
    if n != [] && n[0].key != key {
      FindMember(n[1..], key);
    }
  }

  lemma {:induction false} InsertAllPreserves(n: seq<Child>, ps: seq<string>)
    ensures UniqueKeys(n) ==> UniqueKeys(InsertAll(n, ps))
    ensures NoEmptyDirs(n) ==> NoEmptyDirs(InsertAll(n, ps))
  {
    if ps != [] {
      InsertAllPreserves(n, ps[..|ps| - 1]);
      InsertPreserves(InsertAll(n, ps[..|ps| - 1]), Segments(ps[|ps| - 1]));
    }
  }

  /** The built tree lists no key twice in an object and has no empty directory. */
  lemma BuildTreeInvariant(paths: seq<string>)
    ensures UniqueKeys(BuildTree(paths)) && NoEmptyDirs(BuildTree(paths))
  {
    InsertAllPreserves([], Sort(paths));
  }

  /**
   * Every path that shares no file-or-directory position with another path
   * except its own duplicates ends up as a file leaf of the tree.
   */
  lemma {:induction false} InsertAllLeaves(n: seq<Child>, ps: seq<string>, p: string)
    requires p in ps && Segments(p) != []
    requires forall q :: q in ps ==> Segments(q) == Segments(p) || Diverge(Segments(p), Segments(q))
    ensures Resolve(InsertAll(n, ps), Segments(p)) == Some(Leaf)
  {
    var q := ps[|ps| - 1];
    var init := ps[..|ps| - 1];
    assert ps == init + [q];
    if Segments(q) == Segments(p) {
      LeafPlaced(InsertAll(n, init), Segments(q));
    } else {
      assert p in init;
      InsertAllLeaves(n, init, p);
      DivergeSymmetric(Segments(p), Segments(q));
      InsertKeepsOther(InsertAll(n, init), Segments(q), Segments(p));
    }
  }

  lemma FilesBecomeLeaves(files: Files, p: string)
    requires p in Paths(files) && Segments(p) != []
    requires forall q :: q in Paths(files) ==> Segments(q) == Segments(p) || Diverge(Segments(p), Segments(q))
    ensures Resolve(BuildTree(Paths(files)), Segments(p)) == Some(Leaf)
  {
    var sorted := Sort(Paths(files));
    assert forall q :: q in sorted <==> q in Paths(files) by {
      forall q ensures q in sorted <==> q in Paths(files) {
        assert q in sorted <==> q in multiset(sorted);
        assert q in Paths(files) <==> q in multiset(Paths(files));
      }
    }
    InsertAllLeaves([], sorted, p);
  }

  // ---------------------------------------------------------------- lemmas: rendering

  lemma {:induction false} ConvertChildrenLength(n: seq<Child>)
    ensures |ConvertChildren(n)| == |n|
  {
    if n != [] {
      ConvertChildrenLength(n[..|n| - 1]);
    }
  }

  /**
   * In a tree without empty directories each entry renders as one item: a
   * file as its name, a directory as a list of its name followed by the
   * items of its entries.
   */
  lemma {:induction false} ConvertShape(n: seq<Child>)
    requires NoEmptyDirs(n)
    ensures |ConvertChildren(n)| == |n|
    ensures forall i :: 0 <= i < |n| ==>
      ConvertChildren(n)[i] == if n[i].value.Leaf? then Name(n[i].key) else Items([Name(n[i].key)] + ConvertChildren(n[i].value.entries))
  {
    ConvertChildrenLength(n);
    if n != [] {
      var init := n[..|n| - 1];
      assert forall c :: c in init ==> c in n;
      ConvertShape(init);
      var c := n[|n| - 1];
      assert c in n;
      forall i | 0 <= i < |n|
        ensures ConvertChildren(n)[i] ==
          if n[i].value.Leaf? then Name(n[i].key) else Items([Name(n[i].key)] + ConvertChildren(n[i].value.entries))
      {
        if i < |n| - 1 {
          assert n[i] == init[i];
        }
      }
    }
  }

  /** The result is the items of the top-level entries, one per entry, and empty exactly when no path has a segment. */
  lemma TreeItemsShape(files: Files)
    ensures TreeItems(files) == ConvertChildren(BuildTree(Paths(files)))
    ensures |TreeItems(files)| == |BuildTree(Paths(files))|
    ensures TreeItems(files) == [] <==> forall p :: p in Paths(files) ==> Segments(p) == []
  {
    var tree := BuildTree(Paths(files));
    ConvertChildrenLength(tree);
    var sorted := Sort(Paths(files));
    InsertAllEmpty(sorted);
    assert forall q :: q in sorted <==> q in Paths(files) by {
      forall q ensures q in sorted <==> q in Paths(files) {
        assert q in sorted <==> q in multiset(sorted);
        assert q in Paths(files) <==> q in multiset(Paths(files));
      }
    }
  }

  lemma {:induction false} InsertAllEmpty(ps: seq<string>)
    ensures InsertAll([], ps) == [] <==> forall p :: p in ps ==> Segments(p) == []
  {
    if ps != [] {
      var init := ps[..|ps| - 1];
      var q := ps[|ps| - 1];
      assert ps == init + [q];
      InsertAllEmpty(init);
      InsertKeys(InsertAll([], init), Segments(q));
    }
  }

  /** An empty map gives an empty list. */
  lemma EmptyFilesNoItems()
    ensures TreeItems([]) == []
  {
    TreeItemsShape([]);
  }

  /** A file "a" sorts before "a/b", so the directory "a" replaces the file "a". */
  lemma DirectoryWinsOverEarlierFile(a: string, b: string)
    requires IsWord(a) && IsWord(b)
    ensures BuildTree([a + "/" + b, a]) == [Child(a, Dir([Child(b, Leaf)]))]
  {
    var path := a + "/" + b;
    assert Sort([path, a]) == [a, path] by {
      BelowPrefix(a, "/" + b);
      assert a + ("/" + b) == path;
      SortTwo(path, a);
    }
    var fileFirst := [Child(a, Leaf)];
    assert InsertAll([], [a]) == fileFirst by {
      SegmentsWord(a);
      assert [a][..0] == [];
    }
    assert InsertPath(fileFirst, [a, b]) == [Child(a, Dir([Child(b, Leaf)]))] by {
      assert Find(fileFirst, a) == Some(Leaf);
      assert [a, b][1..] == [b];
      assert InsertPath([], [b]) == [Child(b, Leaf)];
    }
    assert InsertAll([], [a, path]) == InsertPath(InsertAll([], [a]), Segments(path)) by {
      assert [a, path][..1] == [a];
    }
    SameSegments(a, b);
  }

  /** "/a/b" sorts before a name "a" that starts after "/", so the file "a" replaces the directory "a" and its file "b". */
  lemma FileWinsOverEarlierDirectory(a: string, b: string)
    requires IsWord(a) && IsWord(b) && '/' < a[0]
    ensures BuildTree([a, "/" + a + "/" + b]) == [Child(a, Leaf)]
  {
    var path := "/" + a + "/" + b;
    assert Sort([a, path]) == [path, a] by {
      assert path[0] == '/';
      assert !Below(a, path);
      SortTwo(a, path);
    }
    var dirFirst := [Child(a, Dir([Child(b, Leaf)]))];
    assert InsertAll([], [path]) == dirFirst by {
      assert [path][..0] == [];
      SameSegments(a, b);
      assert [a, b][1..] == [b];
      assert InsertPath([], [b]) == [Child(b, Leaf)];
    }
    assert InsertPath(dirFirst, [a]) == [Child(a, Leaf)];
    assert InsertAll([], [path, a]) == InsertPath(InsertAll([], [path]), Segments(a)) by {
      assert [path, a][..1] == [path];
    }
    SegmentsWord(a);
  }
}
