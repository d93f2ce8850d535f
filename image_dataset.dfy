/** `ImageCustomDataset` (main/dataset_setting.py): a fixed list of image
    paths and a class table, indexed with Python list semantics. Its fields are
    set once by the constructor and never changed, so a dataset is a value.
    Opening an image (`Image.open`) is a parameter `open` of the operations
    that read one: `None` stands for the file that cannot be opened. */
module ImageDataset {
  import opened Wrappers
  import opened ClassIndex

  /** A path `<root>/<parent>/<file>` matched by the root's glob for `.jpg` files one directory down; the root
      is shared by all paths of one dataset, so only the two last components
      are kept. `parent` is what `path.parent.name` gives. */
  datatype SamplePath = SamplePath(parent: string, file: string)

  /** What `__getitem__` returns beside the label: the transformed image when
      the dataset has a transform, the opened image otherwise. */
  datatype Item<I, T> = Raw(image: I) | Transformed(value: T)

  /** The exceptions `__getitem__` can raise: `IndexError` from `paths[ind]`,
      the error of `Image.open`, and `KeyError` from `classes_ind[...]`. */
  datatype GetError = IndexError | OpenError | KeyError(name: string)

  /** The four fields of an `ImageCustomDataset`. A transform is `None` when
      the `transform` argument is falsy. */
  datatype Dataset<!I, T> = Dataset(
    paths: seq<SamplePath>,
    transform: Option<I -> T>,
    classes: seq<string>,
    classesInd: map<string, int>)

  /** `ImageCustomDataset(targ_dir, transform)`, given the listing `os.scandir`
      yields for `targ_dir` and the paths its glob for `.jpg` files one directory down yields, in
      the order it yields them. Fails exactly when `find_class` raises. */
  function New<I, T>(listing: seq<DirEntry>, globbed: seq<SamplePath>, transform: Option<I -> T>)
    : (r: Result<Dataset<I, T>, ClassError>)
    ensures r.Failure? <==> NoDirectory(listing)
    ensures r.Success? ==> r.value.paths == globbed && r.value.transform == transform
    ensures r.Success? ==> FindClass(listing) == Success(ClassTable(r.value.classes, r.value.classesInd))
  {
    match FindClass(listing)
    case Failure(e) => Failure(e)
    case Success(table) => Success(Dataset(globbed, transform, table.classes, table.classesInd))
  }

  /** Python's resolution of `xs[ind]` on a list of length `n`: indices from
      `-n` to `n - 1` are accepted and a negative one counts from the end;
      `None` is an `IndexError`. */
  function ResolveIndex(n: nat, ind: int): (r: Option<nat>)
    ensures r.Some? <==> -(n as int) <= ind < n
    ensures r.Some? ==> r.value < n && r.value % n == ind % n
  {
    if 0 <= ind < n then Some(ind)
    else if -(n as int) <= ind < 0 then Some(n + ind)
    else None
  }

  /** Every position of the list is reached from exactly two indices, itself
      and itself minus the length. */
  lemma ResolveIndexPreimages(n: nat, ind: int, k: nat)
    requires k < n
    ensures ResolveIndex(n, ind) == Some(k) <==> ind == k || ind == k - n
  {
  }

  /** `__len__`: the number of paths. The non-negative indices `__getitem__`
      accepts are exactly those below it. */
  function Len<I, T>(ds: Dataset<I, T>): (n: nat)
    ensures forall ind :: 0 <= ind ==> (ResolveIndex(|ds.paths|, ind).Some? <==> ind < n)
    ensures forall ind :: ind < 0 ==> (ResolveIndex(|ds.paths|, ind).Some? <==> -(n as int) <= ind)
  {
    |ds.paths|
  }

  /** `load_image(ind)`: `Image.open(self.paths[ind])`. */
  function LoadImage<I, T>(ds: Dataset<I, T>, open: SamplePath -> Option<I>, ind: int)
    : (r: Result<I, GetError>)
    ensures (r.Failure? && r.error.IndexError?) <==> !(-(Len(ds) as int) <= ind < Len(ds))
    ensures -(Len(ds) as int) <= ind < Len(ds) ==>
      var p := ds.paths[if ind < 0 then Len(ds) + ind else ind];
      (r.Success? <==> open(p).Some?) && (r.Success? ==> r.value == open(p).value) &&
      (r.Failure? ==> r.error.OpenError?)
  {
    match ResolveIndex(|ds.paths|, ind)
    case None => Failure(IndexError)
    case Some(k) =>
      match open(ds.paths[k])
      case None => Failure(OpenError)
      case Some(img) => Success(img)
  }

  /** `__getitem__(ind)`: the image at `paths[ind]`, transformed when there is
      a transform, with the label `classes_ind[paths[ind].parent.name]`. The
      index is checked first, then the image is opened, then the label is
      looked up. */
  function GetItem<I, T>(ds: Dataset<I, T>, open: SamplePath -> Option<I>, ind: int)
    : (r: Result<(Item<I, T>, int), GetError>)
    ensures (r.Failure? && r.error.IndexError?) <==> !(-(Len(ds) as int) <= ind < Len(ds))
    ensures -(Len(ds) as int) <= ind < Len(ds) ==>
      var p := ds.paths[if ind < 0 then Len(ds) + ind else ind];
      && ((r.Failure? && r.error.OpenError?) <==> open(p).None?)
      && ((r.Failure? && r.error.KeyError?) <==> open(p).Some? && p.parent !in ds.classesInd)
      && (r.Failure? && r.error.KeyError? ==> r.error.name == p.parent)
      && (r.Success? ==>
            && p.parent in ds.classesInd
            && r.value.1 == ds.classesInd[p.parent]
            && r.value.0 == (if ds.transform.Some? then Transformed(ds.transform.value(open(p).value))
                             else Raw(open(p).value)))
  {
    match LoadImage(ds, open, ind)
    case Failure(e) => Failure(e)
    case Success(img) =>
      var k := ResolveIndex(|ds.paths|, ind).value;
      var className := ds.paths[k].parent;
      if className !in ds.classesInd then Failure(KeyError(className))
      else
        var classInd := ds.classesInd[className];
        match ds.transform
        case Some(f) => Success((Transformed(f(img)), classInd))
        case None => Success((Raw(img), classInd))
  }

  /** The label, and whether a call fails and how, do not depend on the
      transform: only the returned image does. */
  lemma LabelIgnoresTransform<I, T>(ds: Dataset<I, T>, other: Option<I -> T>, open: SamplePath -> Option<I>, ind: int)
    ensures var r, r' := GetItem(ds, open, ind), GetItem(ds.(transform := other), open, ind);
      && r.Success? == r'.Success?
      && (r.Success? ==> r.value.1 == r'.value.1)
      && (r.Failure? ==> r.error == r'.error)
  {
  }

  /** The image `__getitem__` returns (before the transform) is the one
      `load_image` opens, and `__getitem__` fails whenever `load_image` does. */
  lemma GetItemLoadsImage<I, T>(ds: Dataset<I, T>, open: SamplePath -> Option<I>, ind: int)
    ensures LoadImage(ds, open, ind).Failure? ==> GetItem(ds, open, ind) == Failure(LoadImage(ds, open, ind).error)
    ensures GetItem(ds, open, ind).Success? && ds.transform.None? ==>
      GetItem(ds, open, ind).value.0 == Raw(LoadImage(ds, open, ind).value)
  {
  }

  /** In a dataset built by the constructor, a label that resolves is the
      position of the parent directory's name in the sorted class list. */
  lemma LabelIsClassPosition<I, T>(listing: seq<DirEntry>, globbed: seq<SamplePath>, transform: Option<I -> T>,
                                   open: SamplePath -> Option<I>, ind: int)
    requires New(listing, globbed, transform).Success?
    ensures var ds := New(listing, globbed, transform).value;
      var r := GetItem(ds, open, ind);
      r.Success? ==>
        var p := ds.paths[if ind < 0 then Len(ds) + ind else ind];
        0 <= r.value.1 < |ds.classes| && ds.classes[r.value.1] == p.parent && IsDirName(listing, p.parent)
  {
  }
}
