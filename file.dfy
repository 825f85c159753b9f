/** `File`: the whole persisted document, how it is loaded and how much memory
    it occupies. */
module Files {
  import opened Std
  import opened DeepSize
  import opened Lib
  import Bookmarks
  import Categories

  /** The document: a cache of tags in use, the top-level categories and the
      bookmarks. The tag cache is kept by whoever fills the file; nothing
      here derives it from the bookmarks' tags. */
  datatype File = File(
    tag: Vec<String>,
    category: Vec<Categories.Category>,
    bookmark: Vec<Bookmarks.Bookmark>)

  /** Derived `new()`: every field `#[new(default)]`. */
  function New(): (f: File)
    ensures f.tag.items == [] && f.category.items == [] && f.bookmark.items == []
    ensures f == Default()
  {
    File(Empty(), Empty(), Empty())
  }

  /** Derived `Default`: three empty vectors, nothing allocated. */
  function Default(): (f: File)
    ensures Texts(f.tag) == [] && f.category.items == [] && f.bookmark.items == []
    ensures f.tag.capacity == 0 && f.category.capacity == 0 && f.bookmark.capacity == 0
  {
    File(Empty(), Empty(), Empty())
  }

  /** Derived `PartialEq`: the tag texts, the categories and the bookmarks,
      each in order. */
  predicate Eq(a: File, b: File)
    ensures Eq(a, b) ==>
              |a.tag.items| == |b.tag.items| && |a.category.items| == |b.category.items|
              && |a.bookmark.items| == |b.bookmark.items|
  {
    Texts(a.tag) == Texts(b.tag)
      && Categories.ForestEq(a.category.items, b.category.items)
      && BookmarksEq(a.bookmark.items, b.bookmark.items)
  }

  /** Element-wise `PartialEq` of two sequences of bookmarks. */
  predicate BookmarksEq(xs: seq<Bookmarks.Bookmark>, ys: seq<Bookmarks.Bookmark>)
    ensures BookmarksEq(xs, ys) ==> |xs| == |ys| && forall i :: 0 <= i < |xs| ==> xs[i].uuid == ys[i].uuid
  {
    |xs| == |ys| && forall i :: 0 <= i < |xs| ==> Bookmarks.Eq(xs[i], ys[i])
  }

  /** File equality is structural over all three fields: equal tag caches,
      as many categories and bookmarks, and equal ones at every position. */
  lemma EqStructural(a: File, b: File)
    ensures Eq(a, b) <==>
              && |a.tag.items| == |b.tag.items|
              && (forall i :: 0 <= i < |a.tag.items| ==> a.tag.items[i].items == b.tag.items[i].items)
              && |a.category.items| == |b.category.items|
              && (forall i :: 0 <= i < |a.category.items| ==> Categories.Eq(a.category.items[i], b.category.items[i]))
              && |a.bookmark.items| == |b.bookmark.items|
              && (forall i :: 0 <= i < |a.bookmark.items| ==> Bookmarks.Eq(a.bookmark.items[i], b.bookmark.items[i]))
  {
    TextsEqual(a.tag, b.tag);
    Categories.ForestEqPointwise(a.category.items, b.category.items);
  }

  /** The children each bookmark of `bs` reports, summed: what the derived
      accounting of `Vec<Bookmark>` adds beyond its slots. */
  function BookmarksChildren(bs: seq<Bookmarks.Bookmark>): (n: nat)
    ensures n == 0
  {
    if bs == [] then 0 else BookmarksChildren(bs[..|bs| - 1]) + Bookmarks.DeepSizeOfChildren(bs[|bs| - 1])
  }

  /** Derived `deep_size_of_children`: the children of the three vectors.
      Bookmarks add only their slots. */
  function Children(f: File): (n: nat)
    ensures n == StringsChildren(f.tag) + Categories.ForestChildren(f.category.items)
                 + f.category.capacity * SIZE_OF_CATEGORY + f.bookmark.capacity * SIZE_OF_BOOKMARK
  {
    StringsChildren(f.tag)
      + Categories.ForestChildren(f.category.items) + f.category.capacity * SIZE_OF_CATEGORY
      + BookmarksChildren(f.bookmark.items) + f.bookmark.capacity * SIZE_OF_BOOKMARK
  }

  /** Each top-level category is counted in full in the file's size: its
      slot in the vector and all of its own children. */
  lemma CategoryCountedInFull(f: File, i: nat)
    requires i < |f.category.items|
    ensures SIZE_OF_CATEGORY + Categories.Children(f.category.items[i]) <= Children(f)
  {
    var c := f.category.items[i];
    var forest := Categories.ForestChildren(f.category.items);
    assert Categories.Children(c) <= forest;
    var slots := f.category.capacity * SIZE_OF_CATEGORY;
    assert slots >= SIZE_OF_CATEGORY by {
      assert f.category.capacity >= 1;
    }
    assert Children(f) >= forest + slots;
  }

  /** `deep_size_of`, the trait's provided method: the struct plus its
      children. */
  function DeepSizeOf(f: File): (n: nat)
    ensures n >= SIZE_OF_FILE
    ensures n == SIZE_OF_FILE <==>
              f.tag.capacity == 0 && f.category.capacity == 0 && f.bookmark.capacity == 0
  {
    SIZE_OF_FILE + Children(f)
  }

  /** `storage_size(&self)`: the file's deep size. It is a function of the
      value, so it cannot change the file, and equal files give equal
      sizes on every call. */
  function StorageSize(f: File): (n: nat)
    ensures n == DeepSizeOf(f)
    ensures n >= SIZE_OF_FILE + StringsChildren(f.tag) + f.category.capacity * SIZE_OF_CATEGORY
                 + f.bookmark.capacity * SIZE_OF_BOOKMARK
  {
    DeepSizeOf(f)
  }

  /** The storage size counts each bookmark as its struct size only: the
      bookmarks' urls, infos and tags are not counted, so replacing the
      bookmarks by any others in a vector of the same capacity leaves the
      size unchanged. */
  lemma StorageSizeIgnoresBookmarkContents(f: File, bookmark: Vec<Bookmarks.Bookmark>)
    requires bookmark.capacity == f.bookmark.capacity
    ensures StorageSize(f.(bookmark := bookmark)) == StorageSize(f)
    ensures StorageSize(f) == SIZE_OF_FILE + StringsChildren(f.tag) + Categories.ForestChildren(f.category.items)
                              + f.category.capacity * SIZE_OF_CATEGORY + f.bookmark.capacity * SIZE_OF_BOOKMARK
  {
  }

  /** Pushing a bookmark changes the storage size only by the slots the
      vector newly reserves: a push into spare capacity leaves it unchanged,
      whatever the bookmark holds. */
  lemma PushBookmarkSize(f: File, b: Bookmarks.Bookmark, bookmark: Vec<Bookmarks.Bookmark>)
    requires Pushed(f.bookmark, b, bookmark)
    ensures StorageSize(f.(bookmark := bookmark))
              == StorageSize(f) + (bookmark.capacity - f.bookmark.capacity) * SIZE_OF_BOOKMARK
    ensures bookmark.capacity == f.bookmark.capacity ==> StorageSize(f.(bookmark := bookmark)) == StorageSize(f)
  {
  }

  /** The storage size of a new file is the struct alone. */
  lemma NewSize()
    ensures StorageSize(New()) == SIZE_OF_FILE
  {
  }

  /** The size measures allocation, not content: two files can compare equal
      and still differ in size, e.g. when one has reserved room for a tag. */
  lemma EqualFilesMayDifferInSize()
    ensures var roomy := New().(tag := RawVec([], 1));
            Eq(New(), roomy) && StorageSize(New()) < StorageSize(roomy)
  {
  }

  /** `File::load(reader)`: `rmp_serde::from_read`, passed in as `fromRead`,
      decodes the whole document from the reader; the `?` converts any
      failure into `Error::RmpDeserialize`. The result is a complete file
      or an error, never a partial file, and never `Error::IO`: a reader
      that fails surfaces inside the decoder's error. */
  function Load<R>(reader: R, fromRead: R -> DecodeResult<File>): (r: Result<File>)
    ensures r.Ok? <==> fromRead(reader).Decoded?
    ensures r.Ok? ==> r.value == fromRead(reader).value
    ensures r.Err? ==> r.error == FromDecode(fromRead(reader).failure)
    ensures !(r.Err? && r.error.IO?)
  {
    match fromRead(reader)
    case Decoded(f) => Ok(f)
    case DecodeFailed(e) => Err(FromDecode(e))
  }

  /** A reader that fails is reported as a decoding error carrying the I/O
      cause, not as `Error::IO`. */
  lemma LoadReadFailure<R>(reader: R, fromRead: R -> DecodeResult<File>, io: IoError)
    requires fromRead(reader) == DecodeFailed(ReadFailed(io))
    ensures Load(reader, fromRead) == Err(RmpDeserialize(ReadFailed(io)))
    ensures Load(reader, fromRead) != Err(IO(io))
  {
  }
}
