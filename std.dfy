/** Value models of the Rust standard-library types the bookmark data model is
    built from.  A Rust `Vec<T>` is its elements together with the number of
    element slots it has allocated; a `String` is a `Vec<u8>` of its bytes.
    Rust's `==` on these types compares contents only; capacity is what the
    size accounting in `DeepSize` measures. */
module Std {

  /** One byte of a string's contents. */
  newtype byte = x: int | 0 <= x < 0x100

  /** The contents of a vector and its allocated capacity, in elements. */
  datatype RawVec<T> = RawVec(items: seq<T>, capacity: nat)

  /** A vector never holds more elements than it has room for. */
  type Vec<T> = v: RawVec<T> | |v.items| <= v.capacity witness RawVec([], 0)

  /** `String`: its bytes (UTF-8 validity is not tracked); `capacity()`
      counts bytes. */
  type String = Vec<byte>

  /** `Vec::new()`, `String::new()` and their `Default`: no elements and
      nothing allocated. */
  function Empty<T>(): (e: Vec<T>)
    ensures e.items == [] && e.capacity == 0
  {
    RawVec([], 0)
  }

  /** `w` is a vector that `v.push(x)` may leave behind: `x` appended at the
      end and a capacity that never shrinks. How much it grows is the
      allocator's policy and is left open. */
  predicate Pushed<T(==)>(v: Vec<T>, x: T, w: Vec<T>)
    ensures Pushed(v, x, w) ==>
              && |w.items| == |v.items| + 1
              && w.items[..|v.items|] == v.items
              && w.items[|v.items|] == x
              && |v.items| < w.capacity
  {
    w.items == v.items + [x] && v.capacity <= w.capacity
  }

  /** The texts of a `Vec<String>`, in order, duplicates kept: what Rust's
      `==` on `Vec<String>` compares. */
  function Texts(v: Vec<String>): (t: seq<seq<byte>>)
    ensures |t| == |v.items|
    ensures forall i :: 0 <= i < |v.items| ==> t[i] == v.items[i].items
  {
    seq(|v.items|, i requires 0 <= i < |v.items| => v.items[i].items)
  }

  /** `String::clone`: the same bytes in an allocation of exactly their
      length. The standard library promises only "at least" the length; an
      exact-length allocation is what its current implementation makes. */
  function CloneString(s: String): (c: String)
    ensures c.items == s.items
    ensures c.capacity <= s.capacity
  {
    RawVec(s.items, |s.items|)
  }

  /** `Vec<String>::clone`: each string cloned, exactly as many slots as
      elements (again the current implementation). The clone compares equal
      to the original and reserves no more slots. */
  function CloneStrings(v: Vec<String>): (c: Vec<String>)
    ensures Texts(c) == Texts(v)
    ensures c.capacity <= v.capacity
  {
    TextsEqual(RawVec(CloneEach(v.items), |v.items|), v);
    RawVec(CloneEach(v.items), |v.items|)
  }

  /** Every string of `ss` cloned. */
  function CloneEach(ss: seq<String>): (cs: seq<String>)
    ensures |cs| == |ss|
  {
    seq(|ss|, i requires 0 <= i < |ss| => CloneString(ss[i]))
  }

  /** Two vectors of strings compare equal exactly when they have the same
      length and the same text at every position: order and duplicates
      matter, capacities do not. */
  lemma TextsEqual(a: Vec<String>, b: Vec<String>)
    ensures Texts(a) == Texts(b) <==>
              |a.items| == |b.items| && forall i :: 0 <= i < |a.items| ==> a.items[i].items == b.items[i].items
  {
    if |a.items| == |b.items| && forall i :: 0 <= i < |a.items| ==> a.items[i].items == b.items[i].items {
      assert forall i :: 0 <= i < |a.items| ==> Texts(a)[i] == Texts(b)[i];
    }
    if Texts(a) == Texts(b) {
      assert |a.items| == |Texts(a)| == |Texts(b)| == |b.items|;
      forall i | 0 <= i < |a.items| ensures a.items[i].items == b.items[i].items {
        assert Texts(a)[i] == a.items[i].items && Texts(b)[i] == b.items[i].items;
      }
    }
  }
}

/** Byte accounting in the manner of the `deepsize` crate: the deep size of a
    value is `mem::size_of` of the value plus the heap memory it owns (its
    "children"). For a `String` the children are its capacity in bytes; for a
    `Vec<T>` they are the children of every element plus `capacity *
    size_of::<T>()`; for a struct with `#[derive(DeepSizeOf)]` they are the
    sum of its fields' children. Reserved but unused capacity is counted. */
module DeepSize {
  import opened Std

  // `mem::size_of` on a 64-bit target.
  /** `String` and `Vec<T>`: pointer, capacity and length. */
  const SIZE_OF_STRING: nat := 24
  const SIZE_OF_VEC: nat := 24
  /** `Uuid`: sixteen bytes held inline. */
  const SIZE_OF_UUID: nat := 16
  /** `Bookmark`: two strings, a uuid and a vector. */
  const SIZE_OF_BOOKMARK: nat := 2 * SIZE_OF_STRING + SIZE_OF_UUID + SIZE_OF_VEC
  /** `identifier::List`: three vectors. */
  const SIZE_OF_LIST: nat := 3 * SIZE_OF_VEC
  /** `Category`: two strings, a `List` and a vector. */
  const SIZE_OF_CATEGORY: nat := 2 * SIZE_OF_STRING + SIZE_OF_LIST + SIZE_OF_VEC
  /** `File`: three vectors. */
  const SIZE_OF_FILE: nat := 3 * SIZE_OF_VEC

  /** `ss.iter().map(String::capacity).sum()`. */
  function CapacitySum(ss: seq<String>): (n: nat)
    ensures ss == [] ==> n == 0
    ensures forall i :: 0 <= i < |ss| ==> ss[i].capacity <= n
  {
    if ss == [] then 0 else CapacitySum(ss[..|ss| - 1]) + ss[|ss| - 1].capacity
  }

  /** The number of bytes of text the strings actually hold. */
  function LengthSum(ss: seq<String>): nat
  {
    if ss == [] then 0 else LengthSum(ss[..|ss| - 1]) + |ss[|ss| - 1].items|
  }

  /** `deep_size_of_children` of a `Vec<String>`: every string's capacity plus
      the vector's own slots. */
  function StringsChildren(v: Vec<String>): (n: nat)
    ensures n >= LengthSum(v.items) + v.capacity * SIZE_OF_STRING
    ensures n == 0 <==> v.capacity == 0
  {
    CapacitySumCoversLength(v.items);
    CapacitySum(v.items) + v.capacity * SIZE_OF_STRING
  }

  /** Appending a string adds exactly its capacity to the sum. */
  lemma {:induction false} CapacitySumAppend(ss: seq<String>, s: String)
    ensures CapacitySum(ss + [s]) == CapacitySum(ss) + s.capacity
  {
    assert (ss + [s])[..|ss + [s]| - 1] == ss;
  }

  /** Capacities bound the text held: a measure of allocation is never below
      the bytes actually stored. */
  lemma {:induction false} CapacitySumCoversLength(ss: seq<String>)
    ensures LengthSum(ss) <= CapacitySum(ss)
  {
    if ss != [] {
      CapacitySumCoversLength(ss[..|ss| - 1]);
    }
  }

  /** The sum is zero exactly when no string in `ss` has allocated anything. */
  lemma {:induction false} CapacitySumZero(ss: seq<String>)
    ensures CapacitySum(ss) == 0 <==> forall i :: 0 <= i < |ss| ==> ss[i].capacity == 0
  {
    if ss != [] {
      var init := ss[..|ss| - 1];
      CapacitySumZero(init);
      assert forall i :: 0 <= i < |init| ==> init[i] == ss[i];
    }
  }

  /** A cloned vector of strings never accounts for more memory than the
      original: every clone is trimmed to its length. */
  lemma {:induction false} CloneStringsNoLarger(v: Vec<String>)
    ensures StringsChildren(CloneStrings(v)) <= StringsChildren(v)
  {
    CloneCapacitySum(v.items);
    CapacitySumCoversLength(v.items);
  }

  /** Sum over the exact-capacity clones of a sequence of strings. */
  lemma {:induction false} CloneCapacitySum(ss: seq<String>)
    ensures CapacitySum(CloneEach(ss)) == LengthSum(ss)
    ensures LengthSum(ss) <= CapacitySum(ss)
  {
    var cs := CloneEach(ss);
    if ss != [] {
      var init := ss[..|ss| - 1];
      CloneCapacitySum(init);
      assert cs[..|cs| - 1] == CloneEach(init);
    }
  }
}
