/** `find_class` (main/dataset_setting.py): the class table of a dataset root.
    The root's directory listing (what `os.scandir` yields) is an input; the
    names of the entries that are directories are sorted and numbered. */
module ClassIndex {
  import opened Wrappers
  import opened StrOrder

  /** One entry of a directory listing: its name and whether `is_dir()` holds. */
  datatype DirEntry = DirEntry(name: string, isDir: bool)

  /** The error `find_class` raises (`FileNotFoundError`) when it finds no class. */
  datatype ClassError = NoClassesFound

  /** The pair `(classes, classes_ind)` that `find_class` returns. */
  datatype ClassTable = ClassTable(classes: seq<string>, classesInd: map<string, int>)

  /** `x` is the name of some directory entry of the listing. */
  ghost predicate IsDirName(listing: seq<DirEntry>, x: string)
  {
    exists i :: 0 <= i < |listing| && listing[i].isDir && listing[i].name == x
  }

  /** The listing holds no directory at all. */
  ghost predicate NoDirectory(listing: seq<DirEntry>)
  {
    forall i :: 0 <= i < |listing| ==> !listing[i].isDir
  }

  /** No two entries of the listing share a name, as within one directory. */
  ghost predicate DistinctNames(listing: seq<DirEntry>)
  {
    forall i, j :: 0 <= i < j < |listing| ==> listing[i].name != listing[j].name
  }

  /** The generator `entire.name for entire in listing if entire.is_dir()`. */
  function DirNames(listing: seq<DirEntry>): seq<string>
  {
    if listing == [] then []
    else if listing[0].isDir then [listing[0].name] + DirNames(listing[1..])
    else DirNames(listing[1..])
  }

  /** The generator yields exactly the names of the directory entries, and
      nothing at all when there is no directory. */
  lemma {:induction false} DirNamesMembers(listing: seq<DirEntry>)
    ensures forall x :: x in DirNames(listing) <==> IsDirName(listing, x)
    ensures DirNames(listing) == [] <==> NoDirectory(listing)
  {
    if listing != [] {
      DirNamesMembers(listing[1..]);
      assert forall x :: IsDirName(listing[1..], x) ==> IsDirName(listing, x) by {
        forall x | IsDirName(listing[1..], x) ensures IsDirName(listing, x) {
          var i :| 0 <= i < |listing[1..]| && listing[1..][i].isDir && listing[1..][i].name == x;
          assert listing[i + 1] == listing[1..][i];
        }
      }
      assert forall x :: IsDirName(listing, x) ==> (x == listing[0].name && listing[0].isDir) || IsDirName(listing[1..], x) by {
        forall x | IsDirName(listing, x)
          ensures (x == listing[0].name && listing[0].isDir) || IsDirName(listing[1..], x)
        {
          var i :| 0 <= i < |listing| && listing[i].isDir && listing[i].name == x;
          if i > 0 {
            assert listing[1..][i - 1] == listing[i];
          }
        }
      }
      assert NoDirectory(listing) <==> !listing[0].isDir && NoDirectory(listing[1..]) by {
        if !NoDirectory(listing) && !listing[0].isDir {
          var i :| 0 <= i < |listing| && listing[i].isDir;
          assert listing[1..][i - 1] == listing[i];
        }
      }
    }
  }

  /** The dict comprehension `{class_name: i for i, class_name in
      enumerate(classes)}`: entries are added in order, so a repeated name
      keeps the index of its last occurrence. */
  function IndexMap(classes: seq<string>): (m: map<string, int>)
    ensures forall x :: x in m <==> x in classes
    ensures forall x :: x in m ==> 0 <= m[x] < |classes| && classes[m[x]] == x
    ensures forall x, j :: x in m && m[x] < j < |classes| ==> classes[j] != x
  {
    if classes == [] then map[]
    else
      var n := |classes| - 1;
      assert classes == classes[..n] + [classes[n]];
      IndexMap(classes[..n])[classes[n] := n]
  }

  /** `find_class(dir)`, given the listing `os.scandir(dir)` yields. */
  function FindClass(listing: seq<DirEntry>): (r: Result<ClassTable, ClassError>)
    ensures r.Failure? <==> NoDirectory(listing)
    ensures r.Success? ==> Sorted(r.value.classes)
    ensures r.Success? ==> multiset(r.value.classes) == multiset(DirNames(listing))
    ensures r.Success? ==> forall x :: x in r.value.classes <==> IsDirName(listing, x)
    ensures r.Success? ==> forall x :: x in r.value.classesInd <==> x in r.value.classes
    ensures r.Success? ==> forall x :: x in r.value.classesInd ==>
      0 <= r.value.classesInd[x] < |r.value.classes| && r.value.classes[r.value.classesInd[x]] == x
  {
    var names := DirNames(listing);
    DirNamesMembers(listing);
    var classes := Sort(names);
    if |classes| == 0 then
      assert names == [] by { assert |multiset(names)| == 0; }
      Failure(NoClassesFound)
    else
      assert names != [];
      assert forall x :: x in classes <==> x in names by {
        forall x ensures x in classes <==> x in names {
          assert x in classes <==> x in multiset(classes);
          assert x in names <==> x in multiset(names);
        }
      }
      Success(ClassTable(classes, IndexMap(classes)))
  }

  /** Names within one directory are distinct, so the class list is strictly
      ascending and the index map is the dense, injective numbering
      `classes[i] -> i` of its positions. */
  lemma FindClassDense(listing: seq<DirEntry>)
    requires DistinctNames(listing)
    requires FindClass(listing).Success?
    ensures StrictlyAscending(FindClass(listing).value.classes)
    ensures var t := FindClass(listing).value;
      forall i :: 0 <= i < |t.classes| ==> t.classes[i] in t.classesInd && t.classesInd[t.classes[i]] == i
    ensures var t := FindClass(listing).value;
      forall v :: v in t.classesInd.Values <==> 0 <= v < |t.classes|
    ensures var t := FindClass(listing).value;
      forall x, y :: x in t.classesInd && y in t.classesInd && x != y ==> t.classesInd[x] != t.classesInd[y]
  {
    var t := FindClass(listing).value;
    assert t.classes == Sort(DirNames(listing)) && t.classesInd == IndexMap(t.classes);
    DirNamesDistinct(listing);
    DistinctPermutation(DirNames(listing), t.classes);
    SortedDistinctAscending(t.classes);
    IndexMapDense(t.classes);
  }

  /** Over a list without repetitions the enumerate dict numbers each name by
      its position, uses every position once, and gives no two names the same
      number. */
  lemma IndexMapDense(classes: seq<string>)
    requires Distinct(classes)
    ensures forall i :: 0 <= i < |classes| ==> classes[i] in IndexMap(classes) && IndexMap(classes)[classes[i]] == i
    ensures forall v :: v in IndexMap(classes).Values <==> 0 <= v < |classes|
    ensures forall x, y :: x in IndexMap(classes) && y in IndexMap(classes) && x != y ==>
      IndexMap(classes)[x] != IndexMap(classes)[y]
  {
    var m := IndexMap(classes);
    forall i | 0 <= i < |classes| ensures classes[i] in m && m[classes[i]] == i {
      assert classes[i] in m;
      var k := m[classes[i]];
      assert classes[k] == classes[i];
    }
    forall v | v in m.Values ensures 0 <= v < |classes| {
      var x :| x in m && m[x] == v;
    }
    forall v | 0 <= v < |classes| ensures v in m.Values {
      assert m[classes[v]] == v;
    }
  }

  lemma {:induction false} DirNamesDistinct(listing: seq<DirEntry>)
    requires DistinctNames(listing)
    ensures Distinct(DirNames(listing))
  {
    if listing != [] {
      DirNamesDistinct(listing[1..]);
      DirNamesMembers(listing[1..]);
      var rest := DirNames(listing[1..]);
      assert forall i :: 0 <= i < |listing[1..]| ==> listing[1..][i].name != listing[0].name by {
        forall i | 0 <= i < |listing[1..]| ensures listing[1..][i].name != listing[0].name {
          assert listing[1..][i] == listing[i + 1];
        }
      }
      assert listing[0].name !in rest;
      if listing[0].isDir {
        assert DirNames(listing) == [listing[0].name] + rest;
      }
    }
  }

  /** The listing without its entry at position `k`. */
  function RemoveAt(b: seq<DirEntry>, k: nat): seq<DirEntry>
    requires k < |b|
  {
    if k == 0 then b[1..] else [b[0]] + RemoveAt(b[1..], k - 1)
  }

  lemma {:induction false} RemoveAtMultiset(b: seq<DirEntry>, k: nat)
    requires k < |b|
    ensures multiset(RemoveAt(b, k)) + multiset{b[k]} == multiset(b)
  {
    assert b == [b[0]] + b[1..];
    assert multiset(b) == multiset{b[0]} + multiset(b[1..]);
    if k > 0 {
      var t := RemoveAt(b[1..], k - 1);
      assert b[1..][k - 1] == b[k];
      RemoveAtMultiset(b[1..], k - 1);
      assert RemoveAt(b, k) == [b[0]] + t;
      assert multiset(RemoveAt(b, k)) == multiset{b[0]} + multiset(t);
    }
  }

  lemma CancelOne(x: multiset<DirEntry>, y: multiset<DirEntry>, e: DirEntry)
    requires x + multiset{e} == y + multiset{e}
    ensures x == y
  {
    forall z ensures x[z] == y[z] {
      assert (x + multiset{e})[z] == (y + multiset{e})[z];
    }
  }

  /** The names one entry contributes to the generator. */
  function Contribution(e: DirEntry): seq<string>
  {
    if e.isDir then [e.name] else []
  }

  lemma DirNamesCons(e: DirEntry, t: seq<DirEntry>)
    ensures DirNames([e] + t) == Contribution(e) + DirNames(t)
  {
  }

  /** Taking the entry at position `k` out of a listing takes its name (if it
      is a directory) out of the generated names. */
  lemma {:induction false} DirNamesRemove(b: seq<DirEntry>, k: nat)
    requires k < |b|
    ensures multiset(DirNames(b)) == multiset(Contribution(b[k])) + multiset(DirNames(RemoveAt(b, k)))
  {
    var c0, rest := Contribution(b[0]), DirNames(b[1..]);
    assert DirNames(b) == c0 + rest by {
      assert b == [b[0]] + b[1..];
      DirNamesCons(b[0], b[1..]);
    }
    if k > 0 {
      var t := RemoveAt(b[1..], k - 1);
      var dt := DirNames(t);
      assert RemoveAt(b, k) == [b[0]] + t;
      assert DirNames(RemoveAt(b, k)) == c0 + dt by {
        DirNamesCons(b[0], t);
      }
      assert multiset(rest) == multiset(Contribution(b[k])) + multiset(dt) by {
        assert b[1..][k - 1] == b[k];
        DirNamesRemove(b[1..], k - 1);
      }
      MultisetShuffle(c0, Contribution(b[k]), rest, dt);
    } else {
      assert RemoveAt(b, k) == b[1..];
      assert multiset(c0 + rest) == multiset(c0) + multiset(rest);
    }
  }

  lemma MultisetShuffle(c0: seq<string>, ck: seq<string>, rest: seq<string>, dt: seq<string>)
    requires multiset(rest) == multiset(ck) + multiset(dt)
    ensures multiset(c0 + rest) == multiset(ck) + multiset(c0 + dt)
  {
  }

  /** Listings with the same entries in another order yield the same
      directory names, up to order. */
  lemma {:induction false} DirNamesPermutation(a: seq<DirEntry>, b: seq<DirEntry>)
    requires multiset(a) == multiset(b)
    ensures multiset(DirNames(a)) == multiset(DirNames(b))
    decreases |a|
  {
    if a == [] {
      assert b == [] by { assert |multiset(b)| == 0; }
    } else {
      var e := a[0];
      assert e in multiset(b) by { assert e in multiset(a); }
      var k :| 0 <= k < |b| && b[k] == e;
      var rest := RemoveAt(b, k);
      RemoveAtMultiset(b, k);
      assert multiset(a[1..]) == multiset(rest) by {
        assert a == [e] + a[1..];
        assert multiset(a) == multiset(a[1..]) + multiset{e};
        CancelOne(multiset(a[1..]), multiset(rest), e);
      }
      DirNamesPermutation(a[1..], rest);
      DirNamesRemove(b, k);
      DirNamesRemove(a, 0);
      assert RemoveAt(a, 0) == a[1..];
    }
  }

  /** The class table does not depend on the order in which `os.scandir`
      yields the entries. */
  lemma FindClassOrderIndependent(a: seq<DirEntry>, b: seq<DirEntry>)
    requires multiset(a) == multiset(b)
    ensures FindClass(a) == FindClass(b)
  {
    DirNamesPermutation(a, b);
    SortIsOrderIndependent(DirNames(a), DirNames(b));
  }

  /** Three class directories listed in any order, beside a plain file, give
      the classes in alphabetical order numbered from zero. */
  lemma ThreeClassesExample()
    ensures FindClass([DirEntry("fish", true), DirEntry("cat", true), DirEntry("notes.txt", false), DirEntry("dog", true)])
      == Success(ClassTable(["cat", "dog", "fish"], map["cat" := 0, "dog" := 1, "fish" := 2]))
  {
    var listing := [DirEntry("fish", true), DirEntry("cat", true), DirEntry("notes.txt", false), DirEntry("dog", true)];
    var names, expected := ["fish", "cat", "dog"], ["cat", "dog", "fish"];
    ExampleDirNames(listing);
    ExampleSorted(expected);
    assert multiset(names) == multiset(expected);
    SortedUnique(Sort(names), expected);
    ExampleIndexMap(expected);
  }

  lemma ExampleDirNames(listing: seq<DirEntry>)
    requires listing == [DirEntry("fish", true), DirEntry("cat", true), DirEntry("notes.txt", false), DirEntry("dog", true)]
    ensures DirNames(listing) == ["fish", "cat", "dog"]
  {
    assert listing[1..][1..][1..] == [DirEntry("dog", true)];
    assert DirNames(listing[1..][1..][1..]) == ["dog"];
    assert DirNames(listing[1..][1..]) == ["dog"];
    assert DirNames(listing[1..]) == ["cat", "dog"];
  }

  lemma ExampleSorted(expected: seq<string>)
    requires expected == ["cat", "dog", "fish"]
    ensures Sorted(expected)
  {
  }

  lemma ExampleIndexMap(expected: seq<string>)
    requires expected == ["cat", "dog", "fish"]
    ensures IndexMap(expected) == map["cat" := 0, "dog" := 1, "fish" := 2]
  {
    var two: seq<string> := ["cat", "dog"];
    var one: seq<string> := ["cat"];
    assert one[..0] == [];
    assert IndexMap(one) == map["cat" := 0];
    assert two[..1] == one;
    assert IndexMap(two) == map["cat" := 0, "dog" := 1];
    assert expected[..2] == two;
  }
}
