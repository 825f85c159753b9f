/** `Bookmark`: how one bookmark is stored, and its byte accounting. */
module Bookmarks {
  import opened Std
  import opened DeepSize

  /** `uuid::Uuid`: a 128-bit identifier. */
  newtype Uuid = x: int | 0 <= x < 0x1_0000_0000_0000_0000_0000_0000_0000_0000

  /** A bookmark: its url, a description (often a display name), an
      identifier and free-form tags. */
  datatype Bookmark = Bookmark(url: String, info: String, uuid: Uuid, tag: Vec<String>)

  /** `Bookmark::new(url, info)`. The uuid that `Uuid::new_v4()` draws from
      a random source is passed in as `uuid`. */
  function New(url: String, info: String, uuid: Uuid): (b: Bookmark)
    ensures b.url == url && b.info == info
    ensures b.uuid == uuid
    ensures b.tag.items == [] && b.tag.capacity == 0
  {
    Bookmark(url, info, uuid, Empty())
  }

  /** `Bookmark::default()`: `new` on two empty strings, with a fresh uuid. */
  function Default(uuid: Uuid): (b: Bookmark)
    ensures b == New(Empty(), Empty(), uuid)
    ensures b.url.items == [] && b.info.items == [] && b.tag.items == [] && b.uuid == uuid
  {
    New(Empty(), Empty(), uuid)
  }

  /** Derived `PartialEq`: every field compared, strings by their text. */
  predicate Eq(a: Bookmark, b: Bookmark)
    ensures a == b ==> Eq(a, b)
    ensures Eq(a, b) ==> a.uuid == b.uuid && |a.tag.items| == |b.tag.items|
  {
    a.url.items == b.url.items && a.info.items == b.info.items
      && a.uuid == b.uuid && Texts(a.tag) == Texts(b.tag)
  }

  /** Derived `Clone`: every string re-allocated to its length, the uuid
      copied, not regenerated. The clone compares equal to the original and
      accounts for no more memory. */
  function Clone(b: Bookmark): (c: Bookmark)
    ensures Eq(c, b) && c.uuid == b.uuid
    ensures DeepSizeOf(c) <= DeepSizeOf(b)
  {
    CloneStringsNoLarger(b.tag);
    Bookmark(CloneString(b.url), CloneString(b.info), b.uuid, CloneStrings(b.tag))
  }

  /** `deep_size_of`: the struct itself, the url's and the info's capacity,
      every tag's capacity and the tag vector's slots. */
  function DeepSizeOf(b: Bookmark): (n: nat)
    ensures n >= SIZE_OF_BOOKMARK
  {
    SIZE_OF_BOOKMARK
      + b.url.capacity
      + b.info.capacity
      + CapacitySum(b.tag.items)
      + b.tag.capacity * SIZE_OF_STRING
  }

  /** `deep_size_of_children`, as the source writes it: no heap memory is
      reported, whatever the bookmark holds. This is what containers of
      bookmarks add up. */
  function DeepSizeOfChildren(b: Bookmark): (n: nat)
    ensures n == 0
    ensures SIZE_OF_BOOKMARK + n <= DeepSizeOf(b)
    ensures SIZE_OF_BOOKMARK + n == DeepSizeOf(b) <==>
              b.url.capacity == 0 && b.info.capacity == 0 && b.tag.capacity == 0
  {
    SizeMinimal(b);
    0
  }

  /** The size counts at least every byte of text and every tag slot in
      use: reserved capacity may add to it, never take from it. */
  lemma SizeCoversContent(b: Bookmark)
    ensures DeepSizeOf(b) >= SIZE_OF_BOOKMARK + |b.url.items| + |b.info.items|
                             + LengthSum(b.tag.items) + |b.tag.items| * SIZE_OF_STRING
  {
    CapacitySumCoversLength(b.tag.items);
  }

  /** The size is the struct's own size exactly when the bookmark owns no
      allocation at all. */
  lemma SizeMinimal(b: Bookmark)
    ensures DeepSizeOf(b) == SIZE_OF_BOOKMARK <==>
              b.url.capacity == 0 && b.info.capacity == 0 && b.tag.capacity == 0
  {
    CapacitySumZero(b.tag.items);
  }

  /** The uuid is held inline: two bookmarks that differ only in their uuid
      have the same size. */
  lemma SizeIgnoresUuid(b: Bookmark, uuid: Uuid)
    ensures DeepSizeOf(b.(uuid := uuid)) == DeepSizeOf(b)
  {
  }

  /** A freshly built bookmark owns only its url and its info. */
  lemma NewSize(url: String, info: String, uuid: Uuid)
    ensures DeepSizeOf(New(url, info, uuid)) == SIZE_OF_BOOKMARK + url.capacity + info.capacity
    ensures DeepSizeOf(Default(uuid)) == SIZE_OF_BOOKMARK
  {
  }

  /** Pushing a tag onto a bookmark grows its size by the tag's capacity plus
      whatever new slots the tag vector reserved: never less than the tag's
      capacity. */
  lemma PushTagSize(b: Bookmark, t: String, tag: Vec<String>)
    requires Pushed(b.tag, t, tag)
    ensures DeepSizeOf(b.(tag := tag))
              == DeepSizeOf(b) + t.capacity + (tag.capacity - b.tag.capacity) * SIZE_OF_STRING
    ensures DeepSizeOf(b.(tag := tag)) >= DeepSizeOf(b) + t.capacity
  {
    CapacitySumAppend(b.tag.items, t);
  }

  /** What `new` builds is decided by its arguments: two bookmarks built from
      the same url and info compare equal exactly when they were given the
      same uuid, so distinct uuids make distinct bookmarks. */
  lemma NewIdentity(url: String, info: String, url': String, info': String, u: Uuid, u': Uuid)
    ensures Eq(New(url, info, u), New(url', info', u')) <==>
              url.items == url'.items && info.items == info'.items && u == u'
  {
  }

  /** Two defaults are equal exactly when they drew the same uuid: a default
      bookmark is not a shared constant. */
  lemma DefaultsDistinct(u: Uuid, u': Uuid)
    ensures Eq(Default(u), Default(u')) <==> u == u'
  {
  }
}
