# Class table and indexed image dataset

A Dafny model of the data-loading core of an image-classification project
(`main/dataset_setting.py`). A dataset root holds one sub-directory per class,
and each class directory holds `.jpg` images. The code does two things, and
the model covers both:

- `find_class` lists the root. It keeps the entries that are directories and
  sorts their names. It numbers them from zero in a name-to-index dict, and it
  raises `FileNotFoundError` when there is no class.
- `ImageCustomDataset` is built once from the root. It holds the globbed image
  paths, the optional transform and the class table, and it never changes them
  after that. `__len__` counts the paths. `__getitem__(ind)` indexes the paths
  the way a Python list does (negative indices count from the end), opens the
  image and transforms it when there is a transform. It returns the image with
  the label `classes_ind[path.parent.name]`.

The file system is replaced by values. `os.scandir` becomes a listing
`seq<DirEntry>` of names with their `is_dir()` flag. The glob becomes a
sequence of `SamplePath(parent, file)` values in an order the model does not
fix. `Image.open` becomes a parameter `open: SamplePath -> Option<I>`, where
`None` is an image that cannot be opened. The transform is an opaque
`Option<I -> T>`, and `None` stands for a falsy `transform`. A two-level
snapshot of a root (`DirectoryTree.Node`) produces both the listing and the
glob's matches. This lets the model state what holds when both reads see the
same directory tree.

Modules:

- `Wrappers` (`wrappers.dfy`): `Option` and `Result`.
- `StrOrder` (`str_order.dfy`): Python's ordering of strings and `sorted` on
  strings.
- `ClassIndex` (`class_index.dfy`): `find_class`.
- `ImageDataset` (`image_dataset.dfy`): `ImageCustomDataset`.
- `DirectoryTree` (`directory_tree.dfy`): a snapshot of a root, what
  `os.scandir` and the glob read from it, and the properties of a dataset
  built from one snapshot.

Two points of the code are easy to misread, and the model follows the code on both:

- Indexing accepts negative indices (`ds[-1]` is the last sample), as Python
  lists do. An `IndexError` happens only outside `-len <= ind < len`.
- The errors are the ones the code raises: `FileNotFoundError` from
  `find_class`, the failure of `Image.open`, `IndexError` and `KeyError`.
  `__getitem__` checks them in that order: the index, then the image, then
  the label.

## Model

| member | source | states |
|---|---|---|
| `StrOrder.Sort` | main/dataset_setting.py:50 | `sorted` returns its input rearranged (same multiset) in non-decreasing string order |
| `StrOrder.SortedUnique` | main/dataset_setting.py:50 | two sorted lists with the same elements are equal, so a sorted list of strings is unique |
| `StrOrder.SortIsOrderIndependent` | main/dataset_setting.py:50 | `sorted` gives the same list for any order of the same input strings |
| `ClassIndex.DirNamesMembers` | main/dataset_setting.py:50 | the generator yields exactly the names of the entries that are directories; it is empty exactly when no entry is a directory |
| `ClassIndex.IndexMap` | main/dataset_setting.py:54 | the enumerate dict has exactly the class names as keys; each key maps to an in-range position holding that name, and a repeated name keeps its last position |
| `ClassIndex.IndexMapDense` | main/dataset_setting.py:54 | over a list without repetitions, each name maps to its own position, the values are exactly `0..len-1`, and no two names share a value |
| `ClassIndex.FindClass` | main/dataset_setting.py:47-55 | fails (`FileNotFoundError`) exactly when no entry is a directory; otherwise the classes are sorted, are the directory names (with multiplicity), and index the map that numbers them |
| `ClassIndex.FindClassDense` | main/dataset_setting.py:50-54 | with distinct entry names, classes are strictly ascending, `classes_ind[classes[i]] == i`, the values are exactly `0..len-1`, and the map is injective |
| `ClassIndex.FindClassOrderIndependent` | main/dataset_setting.py:50 | any reordering of the `os.scandir` entries yields the same result, success or failure |
| `ClassIndex.DirNamesPermutation` | main/dataset_setting.py:50 | reordering the listing only reorders the generated directory names |
| `ClassIndex.ThreeClassesExample` | main/dataset_setting.py:47-55 | directories `fish`, `cat`, `dog` beside a file give `["cat", "dog", "fish"]` and `{"cat": 0, "dog": 1, "fish": 2}` |
| `ImageDataset.New` | main/dataset_setting.py:60-67 | the constructor fails exactly when `find_class` does; otherwise it keeps the globbed paths and the transform as given, and the class table is `find_class`'s |
| `ImageDataset.ResolveIndex` | main/dataset_setting.py:72 | Python list indexing accepts exactly `-n <= ind < n`; the position is in range and congruent to `ind` modulo `n` |
| `ImageDataset.ResolveIndexPreimages` | main/dataset_setting.py:72 | each position `k` is reached from exactly the indices `k` and `k - n` |
| `ImageDataset.Len` | main/dataset_setting.py:75-77 | the non-negative indices accepted are those below the length, the negative ones those down to minus the length |
| `ImageDataset.LoadImage` | main/dataset_setting.py:70-73 | `IndexError` exactly outside the accepted range; otherwise the result is the opened image at the resolved path, or the open error |
| `ImageDataset.GetItem` | main/dataset_setting.py:79-88 | `IndexError` exactly outside the accepted range; then an open error exactly when the image cannot be opened; then `KeyError(parent)` exactly when the parent name is not a class; otherwise label `classes_ind[parent]` with the transformed image if there is a transform, the raw one if not |
| `ImageDataset.LabelIgnoresTransform` | main/dataset_setting.py:85-88 | whether `__getitem__` fails, with which error, and the label are the same with or without a transform |
| `ImageDataset.GetItemLoadsImage` | main/dataset_setting.py:81 | `__getitem__` fails with `load_image`'s error when that fails, and returns `load_image`'s image when there is no transform |
| `ImageDataset.LabelIsClassPosition` | main/dataset_setting.py:82-83 | in a constructed dataset, a returned label is in range and is the position of the parent name in `classes`, and that name is a directory of the root |
| `DirectoryTree.Scan` | main/dataset_setting.py:50 | the listing has one entry per root entry, with its name and whether it is a directory |
| `DirectoryTree.JpgPaths` | main/dataset_setting.py:65 | the matches in one directory are that directory's entries whose names end in `.jpg`, and every such entry is matched |
| `DirectoryTree.GlobSound` | main/dataset_setting.py:65 | every match lies in an immediate sub-directory of the root and ends in `.jpg` |
| `DirectoryTree.GlobComplete` | main/dataset_setting.py:65 | every `.jpg` entry of every sub-directory of the root is matched |
| `DirectoryTree.SameSnapshotHasClasses` | main/dataset_setting.py:65-67 | when the paths come from the same snapshot as the listing, one image is enough for the constructor to succeed |
| `DirectoryTree.SameSnapshotParentsAreClasses` | main/dataset_setting.py:65-67 | when the paths come from the same snapshot, every path's parent is a key of `classes_ind` |
| `DirectoryTree.SameSnapshotLabelsResolve` | main/dataset_setting.py:82-83 | when the paths come from the same snapshot, `__getitem__` never raises `KeyError`, and every label is in `0..len(classes)-1` and names the path's parent |
| `DirectoryTree.AddImageGrowsGlob` | main/dataset_setting.py:65 | creating one new `.jpg` file in a class directory adds exactly the match `<that directory>/<name>` to the glob's matches (as a multiset, so every old match stays) and leaves the root listing unchanged |
| `DirectoryTree.LenCountsImages` | main/dataset_setting.py:75-77 | `__len__` equals the number of glob matches in the snapshot, whatever their order |
| `DirectoryTree.AddImageGrowsLen` | main/dataset_setting.py:75-77 | creating one new `.jpg` file in a class directory makes `__len__` grow by exactly one and leaves the class table unchanged |

A dataset is a value (`ImageDataset.Dataset`), so no operation can change its
`paths`, `classes`, `classes_ind` or `transform` after the constructor
(`New`) sets them. This is a consequence of the types and has no lemma of its
own.

## Left out

- `plot_transformed_images` (lines 27-45): plotting and `random.sample`, with
  no behaviour to state.
- Device selection and the print at import time (lines 15-16): an accelerator
  query and console output.
- The transform pipelines (lines 91-103): resizing, random flips and rotation
  and tensor conversion are floating-point work in an external library. The
  transform is an opaque function.
- The module-level datasets and `DataLoader`s (lines 107-134): batching,
  shuffling and pinned memory belong to the external training framework.
- Image decoding by `Image.open`: an external library. The model passes it in
  as a function from a path to an optional image.
- The real `os.scandir` and glob calls. Their results are inputs, and the
  glob's order is left open. The model also leaves out symbolic links
  (`is_dir()` follows them), file systems with case-insensitive names, and
  the root part of each path, which all paths share.
- The text of the `FileNotFoundError` message. It names the module-level
  `train_dir` instead of the `dir` argument; only the kind of error is
  modelled.
- The order of the constructor's two reads. The glob runs before `find_class`
  raises. Both are inputs here, so a failed constructor simply yields no
  dataset.
- Indices that are not integers. A float fails with `TypeError` at
  `self.paths[ind]` (line 72). A slice gives a list there, which
  `Image.open` rejects at line 73, so the label lookup is never reached.
- ImageDataset.GetItem: assumes the transform never raises. The model's open
  error covers only what `Image.open` rejects (line 73). The transform call at
  line 86 can also raise. Because PIL decodes lazily, a corrupt image body
  first fails inside that call.
- A transform object that is falsy without being `None` is modelled as no
  transform. This matches the `if self.transform:` test at line 85.
- String comparison follows code points. File names that Python decodes with
  lone surrogates have no Dafny `char` and are not modelled.
