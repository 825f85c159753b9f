/** `Category`: a node of the category tree. The later schema revision is the
    one modelled (an `identifier::List` field and structural equality); the
    earlier revision's constructor is modelled beside it and shown to build
    the same value. */
module Categories {
  import opened Std
  import opened DeepSize
  import Identifier

  /** A category: a name, a description, its membership rules and its
      subcategories. Children are owned by value, so every category is a
      finite tree: no sharing and no cycles. */
  datatype Category = Category(
    name: String,
    info: String,
    identifier: Identifier.List,
    subcategory: Vec<Category>)

  /** Derived `Default`: empty strings, empty rules, no children. */
  function Default(): (c: Category)
    ensures c.name.items == [] && c.info.items == []
    ensures c.identifier == Identifier.Default()
    ensures c.subcategory.items == []
  {
    Category(Empty(), Empty(), Identifier.Default(), Empty())
  }

  /** Derived `new(name, info)`: the two strings stored as given;
      `identifier` and `subcategory` are `#[new(default)]`. */
  function New(name: String, info: String): (c: Category)
    ensures c.name == name && c.info == info
    ensures c.identifier == Identifier.New()
    ensures c.identifier.require.items == [] && c.identifier.whole.items == [] && c.identifier.includes.items == []
    ensures c.subcategory.items == [] && c.subcategory.capacity == 0
  {
    Category(name, info, Identifier.New(), Empty())
  }

  /** The earlier revision's `Category::new`: a struct literal that sets
      `name` and `info` and takes every other field from `Default`. */
  function NewFromDefault(name: String, info: String): (c: Category)
    ensures c.name == name && c.info == info
    ensures c.identifier == Default().identifier && c.subcategory == Default().subcategory
  {
    Default().(name := name, info := info)
  }

  /** Both revisions' constructors build the same category. */
  lemma RevisionsAgree(name: String, info: String)
    ensures NewFromDefault(name, info) == New(name, info)
    ensures NewFromDefault(Empty(), Empty()) == Default()
  {
  }

  /** Derived `PartialEq`: all four fields, the children recursively, in
      order. */
  predicate Eq(a: Category, b: Category)
    ensures Eq(a, b) ==> |a.subcategory.items| == |b.subcategory.items| && Nodes(a) == Nodes(b)
    decreases a, 1
  {
    a.name.items == b.name.items
      && a.info.items == b.info.items
      && Identifier.Eq(a.identifier, b.identifier)
      && ForestEq(a.subcategory.items, b.subcategory.items)
  }

  /** Element-wise `PartialEq` of two sequences of categories. */
  predicate ForestEq(xs: seq<Category>, ys: seq<Category>)
    ensures ForestEq(xs, ys) ==> |xs| == |ys| && ForestNodes(xs) == ForestNodes(ys)
    decreases xs, 0
  {
    |xs| == |ys| && (xs == [] || (Eq(xs[0], ys[0]) && ForestEq(xs[1..], ys[1..])))
  }

  /** Two sequences of categories are equal exactly when they have the same
      length and equal categories at every position. */
  lemma {:induction false} ForestEqPointwise(xs: seq<Category>, ys: seq<Category>)
    ensures ForestEq(xs, ys) <==> |xs| == |ys| && forall i :: 0 <= i < |xs| ==> Eq(xs[i], ys[i])
    decreases xs
  {
    if xs != [] && |xs| == |ys| {
      ForestEqPointwise(xs[1..], ys[1..]);
      assert forall i :: 1 <= i < |xs| ==> xs[i] == xs[1..][i - 1] && ys[i] == ys[1..][i - 1];
    }
  }

  /** Equality is structural over all four fields and recursive over the
      children: same name and info text, equal rules, as many children, and
      equal children position by position. */
  lemma EqStructural(a: Category, b: Category)
    ensures Eq(a, b) <==>
              && a.name.items == b.name.items
              && a.info.items == b.info.items
              && Identifier.Eq(a.identifier, b.identifier)
              && |a.subcategory.items| == |b.subcategory.items|
              && forall i :: 0 <= i < |a.subcategory.items| ==> Eq(a.subcategory.items[i], b.subcategory.items[i])
  {
    ForestEqPointwise(a.subcategory.items, b.subcategory.items);
  }

  /** `new` is deterministic: arguments with equal text give equal
      categories (there is no random field, unlike a bookmark). */
  lemma NewDeterministic(name: String, info: String, name': String, info': String)
    requires name.items == name'.items && info.items == info'.items
    ensures Eq(New(name, info), New(name', info'))
  {
  }

  /** Equality is reflexive, whatever the depth of the tree. */
  lemma {:induction false} EqReflexive(c: Category)
    ensures Eq(c, c)
    decreases c, 1
  {
    ForestEqReflexive(c.subcategory.items);
  }

  lemma {:induction false} ForestEqReflexive(cs: seq<Category>)
    ensures ForestEq(cs, cs)
    decreases cs, 0
  {
    if cs != [] {
      EqReflexive(cs[0]);
      ForestEqReflexive(cs[1..]);
    }
  }

  /** Equality is symmetric. */
  lemma {:induction false} EqSymmetric(a: Category, b: Category)
    requires Eq(a, b)
    ensures Eq(b, a)
    decreases a, 1
  {
    ForestEqSymmetric(a.subcategory.items, b.subcategory.items);
  }

  lemma {:induction false} ForestEqSymmetric(xs: seq<Category>, ys: seq<Category>)
    requires ForestEq(xs, ys)
    ensures ForestEq(ys, xs)
    decreases xs, 0
  {
    if xs != [] {
      EqSymmetric(xs[0], ys[0]);
      ForestEqSymmetric(xs[1..], ys[1..]);
    }
  }

  /** Equality is transitive. */
  lemma {:induction false} EqTransitive(a: Category, b: Category, c: Category)
    requires Eq(a, b) && Eq(b, c)
    ensures Eq(a, c)
    decreases a, 1
  {
    ForestEqTransitive(a.subcategory.items, b.subcategory.items, c.subcategory.items);
  }

  lemma {:induction false} ForestEqTransitive(xs: seq<Category>, ys: seq<Category>, zs: seq<Category>)
    requires ForestEq(xs, ys) && ForestEq(ys, zs)
    ensures ForestEq(xs, zs)
    decreases xs, 0
  {
    if xs != [] {
      EqTransitive(xs[0], ys[0], zs[0]);
      ForestEqTransitive(xs[1..], ys[1..], zs[1..]);
    }
  }

  /** Derived `Clone`: a deep copy, every vector trimmed to its length. The
      clone compares equal to the original, at every depth. */
  function Clone(c: Category): (r: Category)
    ensures Eq(r, c)
    decreases c, 1
  {
    Category(CloneString(c.name), CloneString(c.info), Identifier.Clone(c.identifier),
             RawVec(CloneForest(c.subcategory.items), |c.subcategory.items|))
  }

  /** Every category of `cs` cloned. */
  function CloneForest(cs: seq<Category>): (r: seq<Category>)
    ensures ForestEq(r, cs)
    decreases cs, 0
  {
    if cs == [] then [] else
      var r := [Clone(cs[0])] + CloneForest(cs[1..]);
      assert r[1..] == CloneForest(cs[1..]);
      r
  }

  /** The number of categories in the tree rooted at `c`. */
  function Nodes(c: Category): nat
    decreases c, 1
  {
    1 + ForestNodes(c.subcategory.items)
  }

  function ForestNodes(cs: seq<Category>): nat
    decreases cs, 0
  {
    if cs == [] then 0 else Nodes(cs[0]) + ForestNodes(cs[1..])
  }

  /** `d` lies strictly below `c` in the tree. */
  predicate Below(d: Category, c: Category)
    decreases c
  {
    exists i :: 0 <= i < |c.subcategory.items|
      && (c.subcategory.items[i] == d || Below(d, c.subcategory.items[i]))
  }

  /** Every child's tree is counted in its parent's forest. */
  lemma {:induction false} ForestNodesAt(cs: seq<Category>, i: nat)
    requires i < |cs|
    ensures Nodes(cs[i]) <= ForestNodes(cs)
    decreases i
  {
    if i > 0 {
      ForestNodesAt(cs[1..], i - 1);
    }
  }

  /** A category strictly below `c` has a strictly smaller tree. */
  lemma {:induction false} BelowSmaller(d: Category, c: Category)
    requires Below(d, c)
    ensures Nodes(d) < Nodes(c)
    decreases c
  {
    var i :| 0 <= i < |c.subcategory.items|
      && (c.subcategory.items[i] == d || Below(d, c.subcategory.items[i]));
    ForestNodesAt(c.subcategory.items, i);
    if c.subcategory.items[i] != d {
      BelowSmaller(d, c.subcategory.items[i]);
    }
  }

  /** The tree is acyclic: no category is its own descendant. */
  lemma Acyclic(c: Category)
    ensures !Below(c, c)
  {
    if Below(c, c) {
      BelowSmaller(c, c);
    }
  }

  /** Derived `deep_size_of_children`: both strings' capacities, the rules'
      children and the subcategory vector's children. Each child is counted
      in full: its slot in the vector and all of its own children. */
  function Children(c: Category): (n: nat)
    ensures n >= c.name.capacity + c.info.capacity + Identifier.Children(c.identifier)
                 + c.subcategory.capacity * SIZE_OF_CATEGORY
    ensures forall i :: 0 <= i < |c.subcategory.items| ==>
              SIZE_OF_CATEGORY + Children(c.subcategory.items[i]) <= n
    decreases c, 1
  {
    var own := c.name.capacity + c.info.capacity + Identifier.Children(c.identifier);
    var forest := ForestChildren(c.subcategory.items);
    var slots := c.subcategory.capacity * SIZE_OF_CATEGORY;
    assert |c.subcategory.items| > 0 ==> slots >= SIZE_OF_CATEGORY;
    own + forest + slots
  }

  /** The children of every category of `cs`, summed. */
  function ForestChildren(cs: seq<Category>): (n: nat)
    ensures forall i :: 0 <= i < |cs| ==> Children(cs[i]) <= n
    decreases cs, 0
  {
    if cs == [] then 0 else Children(cs[0]) + ForestChildren(cs[1..])
  }
}
