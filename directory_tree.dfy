/** A snapshot of a dataset root, two levels deep, from which both file-system
    reads of `ImageCustomDataset.__init__` take their results: the listing of
    the root (`os.scandir`) and the image paths (the glob for `.jpg` files one
    directory down). Tying both to one snapshot is what makes every label
    lookup succeed. */
module DirectoryTree {
  import opened Wrappers
  import opened ClassIndex
  import opened ImageDataset

  /** An entry of the root: a plain file, or a directory with its own entries
      (a child directory is kept as a `Dir` with no further depth needed). */
  datatype Node = File(name: string) | Dir(name: string, children: seq<Node>)

  /** What `os.scandir` yields for the root: each entry's name and whether it
      is a directory, in the snapshot's order. */
  function Scan(root: seq<Node>): (r: seq<DirEntry>)
    ensures |r| == |root|
    ensures forall i :: 0 <= i < |root| ==> r[i].name == root[i].name && r[i].isDir == root[i].Dir?
  {
    if root == [] then [] else [DirEntry(root[0].name, root[0].Dir?)] + Scan(root[1..])
  }

  /** The glob's `*.jpg`: a name with the case-sensitive suffix `.jpg`. */
  predicate HasJpgSuffix(name: string)
  {
    |name| >= 4 && name[|name| - 4..] == ".jpg"
  }

  /** The paths `<parent>/<name>` of the entries of one directory whose names match `*.jpg`. */
  function JpgPaths(parent: string, children: seq<Node>): (r: seq<SamplePath>)
    ensures forall p :: p in r ==> p.parent == parent && HasJpgSuffix(p.file)
    ensures forall j :: 0 <= j < |children| && HasJpgSuffix(children[j].name) ==>
      SamplePath(parent, children[j].name) in r
  {
    if children == [] then []
    else
      var rest := JpgPaths(parent, children[1..]);
      assert forall j :: 1 <= j < |children| ==> children[j] == children[1..][j - 1];
      if HasJpgSuffix(children[0].name) then [SamplePath(parent, children[0].name)] + rest else rest
  }

  /** The matches the root directory's entry contributes to the glob. */
  function Matches(n: Node): seq<SamplePath>
  {
    if n.Dir? then JpgPaths(n.name, n.children) else []
  }

  /** The glob for `.jpg` files one directory down, in the snapshot's order
      (the real enumeration order is unspecified; the lemmas below take any
      rearrangement of it). */
  function Glob(root: seq<Node>): seq<SamplePath>
  {
    if root == [] then [] else Matches(root[0]) + Glob(root[1..])
  }

  /** Every match lies in an immediate sub-directory of the root and has a
      `.jpg` name. */
  lemma {:induction false} GlobSound(root: seq<Node>)
    ensures forall p :: p in Glob(root) ==> IsDirName(Scan(root), p.parent) && HasJpgSuffix(p.file)
  {
    if root != [] {
      GlobSound(root[1..]);
      assert forall x :: IsDirName(Scan(root[1..]), x) ==> IsDirName(Scan(root), x) by {
        forall x | IsDirName(Scan(root[1..]), x) ensures IsDirName(Scan(root), x) {
          var i :| 0 <= i < |root[1..]| && Scan(root[1..])[i].isDir && Scan(root[1..])[i].name == x;
          assert root[1..][i] == root[i + 1];
        }
      }
    }
  }

  /** Every `.jpg` entry of every directory of the root is matched by the glob. */
  lemma {:induction false} GlobComplete(root: seq<Node>, i: int, j: int)
    requires 0 <= i < |root| && root[i].Dir?
    requires 0 <= j < |root[i].children| && HasJpgSuffix(root[i].children[j].name)
    ensures SamplePath(root[i].name, root[i].children[j].name) in Glob(root)
  {
    if i > 0 {
      assert root[1..][i - 1] == root[i];
      GlobComplete(root[1..], i - 1, j);
    }
  }

  /** When the image paths come from the same snapshot as the listing (any
      selection or rearrangement of what the glob matches), one image is
      enough for the root to have a class, so the constructor succeeds. */
  lemma SameSnapshotHasClasses<I, T>(root: seq<Node>, globbed: seq<SamplePath>, transform: Option<I -> T>)
    requires forall p :: p in globbed ==> p in Glob(root)
    requires globbed != []
    ensures New(Scan(root), globbed, transform).Success?
  {
    GlobSound(root);
    assert globbed[0] in Glob(root);
    var i :| 0 <= i < |Scan(root)| && Scan(root)[i].isDir && Scan(root)[i].name == globbed[0].parent;
  }

  /** With listing and paths from the same snapshot, every path's parent
      directory is a class. */
  lemma SameSnapshotParentsAreClasses<I, T>(root: seq<Node>, globbed: seq<SamplePath>, transform: Option<I -> T>)
    requires forall p :: p in globbed ==> p in Glob(root)
    requires New(Scan(root), globbed, transform).Success?
    ensures var ds := New(Scan(root), globbed, transform).value;
      forall k :: 0 <= k < |ds.paths| ==> ds.paths[k].parent in ds.classesInd
  {
    var ds := New(Scan(root), globbed, transform).value;
    GlobSound(root);
    forall k | 0 <= k < |ds.paths| ensures ds.paths[k].parent in ds.classesInd {
      assert ds.paths[k] in Glob(root);
    }
  }

  /** With listing and paths from the same snapshot, `__getitem__` never
      raises `KeyError`, and the label it returns is the position of the
      path's parent directory in the sorted class list. */
  lemma SameSnapshotLabelsResolve<I, T>(root: seq<Node>, globbed: seq<SamplePath>, transform: Option<I -> T>,
                                         open: SamplePath -> Option<I>, ind: int)
    requires forall p :: p in globbed ==> p in Glob(root)
    requires New(Scan(root), globbed, transform).Success?
    ensures var r := GetItem(New(Scan(root), globbed, transform).value, open, ind);
      !(r.Failure? && r.error.KeyError?)
    ensures var ds := New(Scan(root), globbed, transform).value;
      var r := GetItem(ds, open, ind);
      r.Success? ==>
        0 <= r.value.1 < |ds.classes| &&
        ds.classes[r.value.1] == ds.paths[if ind < 0 then Len(ds) + ind else ind].parent
  {
    var ds := New(Scan(root), globbed, transform).value;
    SameSnapshotParentsAreClasses(root, globbed, transform);
    if -(Len(ds) as int) <= ind < Len(ds) {
      var p := ds.paths[if ind < 0 then Len(ds) + ind else ind];
      assert p.parent in ds.classesInd;
    }
  }

  /** The `i`-th entry of the root is a directory with no entry named `name`. */
  ghost predicate NameIsNew(root: seq<Node>, i: int, name: string)
    requires 0 <= i < |root| && root[i].Dir?
  {
    forall c :: c in root[i].children ==> c.name != name
  }

  /** Creates the file `name` in the `i`-th entry of the root, a directory
      that has no entry of that name yet. */
  function AddFile(root: seq<Node>, i: int, name: string): (r: seq<Node>)
    requires 0 <= i < |root| && root[i].Dir? && NameIsNew(root, i, name)
    ensures |r| == |root| && r[i].Dir? && r[i].name == root[i].name
    ensures r[i].children == root[i].children + [File(name)]
    ensures forall k :: 0 <= k < |root| && k != i ==> r[k] == root[k]
  {
    root[i := Dir(root[i].name, root[i].children + [File(name)])]
  }

  lemma {:induction false} JpgPathsAppend(parent: string, a: seq<Node>, b: seq<Node>)
    ensures JpgPaths(parent, a + b) == JpgPaths(parent, a) + JpgPaths(parent, b)
  {
    if a == [] {
      assert a + b == b;
    } else {
      assert (a + b)[0] == a[0];
      assert (a + b)[1..] == a[1..] + b;
      JpgPathsAppend(parent, a[1..], b);
    }
  }

  /** Creating one `.jpg` file in a class directory adds exactly the match
      `<that directory>/<name>` to the glob, keeps every other match, and
      leaves the root's listing, hence the class table, as it was. */
  lemma AddImageGrowsGlob(root: seq<Node>, i: int, name: string)
    requires 0 <= i < |root| && root[i].Dir? && NameIsNew(root, i, name) && HasJpgSuffix(name)
    ensures Scan(AddFile(root, i, name)) == Scan(root)
    ensures multiset(Glob(AddFile(root, i, name))) == multiset(Glob(root)) + multiset{SamplePath(root[i].name, name)}
    ensures |Glob(AddFile(root, i, name))| == |Glob(root)| + 1
  {
    assert Scan(AddFile(root, i, name)) == Scan(root);
    AddImageGlobMultiset(root, i, name);
    assert |multiset(Glob(AddFile(root, i, name)))| == |multiset(Glob(root))| + 1;
  }

  lemma {:induction false} AddImageGlobMultiset(root: seq<Node>, i: int, name: string)
    requires 0 <= i < |root| && root[i].Dir? && NameIsNew(root, i, name) && HasJpgSuffix(name)
    ensures multiset(Glob(AddFile(root, i, name))) == multiset(Glob(root)) + multiset{SamplePath(root[i].name, name)}
  {
    var root' := AddFile(root, i, name);
    var p := SamplePath(root[i].name, name);
    assert Glob(root) == Matches(root[0]) + Glob(root[1..]);
    if i == 0 {
      assert Glob(root') == Matches(root'[0]) + Glob(root[1..]) by {
        assert root'[1..] == root[1..];
      }
      assert Matches(root'[0]) == Matches(root[0]) + [p] by {
        JpgPathsAppend(root[0].name, root[0].children, [File(name)]);
        assert JpgPaths(root[0].name, [File(name)]) == [p];
      }
    } else {
      assert Glob(root') == Matches(root[0]) + Glob(AddFile(root[1..], i - 1, name)) by {
        assert root'[1..] == AddFile(root[1..], i - 1, name);
      }
      assert root[1..][i - 1] == root[i];
      AddImageGlobMultiset(root[1..], i - 1, name);
    }
  }

  /** `__len__` counts the glob's matches, whatever order they come in. */
  lemma LenCountsImages<I, T>(root: seq<Node>, globbed: seq<SamplePath>, transform: Option<I -> T>)
    requires multiset(globbed) == multiset(Glob(root))
    requires New(Scan(root), globbed, transform).Success?
    ensures Len(New(Scan(root), globbed, transform).value) == |Glob(root)|
  {
  }

  /** Creating one `.jpg` file in an existing class directory makes
      `__len__` grow by exactly one, and the class table stays the same. */
  lemma AddImageGrowsLen<I, T>(root: seq<Node>, i: int, name: string,
                               before: seq<SamplePath>, after: seq<SamplePath>, transform: Option<I -> T>)
    requires 0 <= i < |root| && root[i].Dir? && NameIsNew(root, i, name) && HasJpgSuffix(name)
    requires multiset(before) == multiset(Glob(root))
    requires multiset(after) == multiset(Glob(AddFile(root, i, name)))
    ensures New(Scan(root), before, transform).Success?
    ensures New(Scan(AddFile(root, i, name)), after, transform).Success?
    ensures var ds, ds' := New(Scan(root), before, transform).value, New(Scan(AddFile(root, i, name)), after, transform).value;
      Len(ds') == Len(ds) + 1 && ds'.classes == ds.classes && ds'.classesInd == ds.classesInd
  {
    AddImageGrowsGlob(root, i, name);
    assert Scan(root)[i].isDir;
    LenCountsImages(root, before, transform);
    LenCountsImages(AddFile(root, i, name), after, transform);
  }
}
