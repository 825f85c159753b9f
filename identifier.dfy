/** `identifier::List`: the rules meant to decide which bookmarks belong to a
    category. The rules are inert data: nothing in the crate evaluates them. */
module Identifier {
  import opened Std
  import opened DeepSize

  /** `require`: substrings a member's url must all contain; `whole`: urls
      that are members outright; `include` (here `includes`, since `include`
      is a Dafny keyword): substrings any one of which makes a url a member.
      Duplicates are kept and order is preserved. */
  datatype List = List(require: Vec<String>, whole: Vec<String>, includes: Vec<String>)

  /** `List::new()`: every field `#[new(default)]`, so all three rule lists
      are empty. */
  function New(): (l: List)
    ensures l.require.items == [] && l.whole.items == [] && l.includes.items == []
    ensures l == Default()
  {
    List(Empty(), Empty(), Empty())
  }

  /** `List::default()`, derived: every vector at its default. */
  function Default(): (l: List)
    ensures Texts(l.require) == [] && Texts(l.whole) == [] && Texts(l.includes) == []
    ensures StringsChildren(l.require) + StringsChildren(l.whole) + StringsChildren(l.includes) == 0
  {
    List(Empty(), Empty(), Empty())
  }

  /** Derived `PartialEq`: field by field, each vector compared text by text. */
  predicate Eq(a: List, b: List)
    ensures a == b ==> Eq(a, b)
    ensures Eq(a, b) ==>
              |a.require.items| == |b.require.items| && |a.whole.items| == |b.whole.items|
              && |a.includes.items| == |b.includes.items|
  {
    Texts(a.require) == Texts(b.require)
      && Texts(a.whole) == Texts(b.whole)
      && Texts(a.includes) == Texts(b.includes)
  }

  /** Equal rule lists agree position by position in every field: no
      deduplication and no reordering happens before comparison. Capacity
      plays no part. */
  lemma EqPositional(a: List, b: List)
    ensures Eq(a, b) <==>
              && |a.require.items| == |b.require.items|
              && (forall i :: 0 <= i < |a.require.items| ==> a.require.items[i].items == b.require.items[i].items)
              && |a.whole.items| == |b.whole.items|
              && (forall i :: 0 <= i < |a.whole.items| ==> a.whole.items[i].items == b.whole.items[i].items)
              && |a.includes.items| == |b.includes.items|
              && (forall i :: 0 <= i < |a.includes.items| ==> a.includes.items[i].items == b.includes.items[i].items)
  {
    TextsEqual(a.require, b.require);
    TextsEqual(a.whole, b.whole);
    TextsEqual(a.includes, b.includes);
  }

  /** Derived `Clone`: each vector cloned. The clone compares equal to the
      original and accounts for no more memory. */
  function Clone(l: List): (c: List)
    ensures Eq(c, l)
    ensures Children(c) <= Children(l)
  {
    CloneStringsNoLarger(l.require);
    CloneStringsNoLarger(l.whole);
    CloneStringsNoLarger(l.includes);
    List(CloneStrings(l.require), CloneStrings(l.whole), CloneStrings(l.includes))
  }

  /** Derived `deep_size_of_children`: the three vectors' children. Every
      byte of rule text and every reserved slot is counted, and the children
      are zero exactly when none of the three vectors has allocated. */
  function Children(l: List): (n: nat)
    ensures n >= LengthSum(l.require.items) + LengthSum(l.whole.items) + LengthSum(l.includes.items)
    ensures n >= (l.require.capacity + l.whole.capacity + l.includes.capacity) * SIZE_OF_STRING
    ensures n == 0 <==> l.require.capacity == 0 && l.whole.capacity == 0 && l.includes.capacity == 0
  {
    StringsChildren(l.require) + StringsChildren(l.whole) + StringsChildren(l.includes)
  }
}
