# bookmark-data in Dafny

A Dafny model of the persisted data model of the `bookmark-data` crate, a
bookmark manager's storage format. It covers:

- a **bookmark** (url, description, a 128-bit uuid, free-form tags), with its
  constructor, its default and its explicit byte-size formula;
- a **category** tree (name, description, a rule list, child categories),
  with the constructors of both schema revisions;
- the **identifier rule list** of a category (`require`, `whole`, `include`),
  held as inert data;
- the **file** container (a tag cache, top-level categories, bookmarks), its
  constructors, its equality, `storage_size` and `load`;
- the crate's two-kind **error** type.

Everything is a value: each Rust struct is a Dafny `datatype`, each operation
a `function`, and the properties are `ensures` clauses and lemmas. Rust
strings and vectors are modelled with their capacity (`Std.Vec<T>` is the
elements plus the allocated slots, with `|items| <= capacity`; `Std.String`
is a `Vec` of bytes). Rust's `==` compares contents and ignores
capacity, so each type has an `Eq` predicate that does the same; the byte
accounting reads capacities.

Files: `std.dfy` (modules `Std` and `DeepSize`), `lib.dfy` (`Lib`),
`identifier.dfy` (`Identifier`), `bookmark.dfy` (`Bookmarks`),
`category.dfy` (`Categories`), `file.dfy` (`Files`).

Sizing follows the `deepsize` crate: the deep size of a value is
`mem::size_of` of it plus its children; a `String`'s children are its
capacity; a `Vec<T>`'s children are its elements' children plus
`capacity * size_of::<T>()`; a derived struct's children are the sum of its
fields' children. `Bookmark` writes its own `deep_size_of` and reports zero
children. The `mem::size_of` values are those of a 64-bit target (`String`
and `Vec` 24 bytes, `Uuid` 16, `Bookmark` 88, `List` 72, `Category` 144,
`File` 72).

The crate documents `storage_size` as "the size of loaded data in bytes"
(src/file.rs:33), the failures of `load` as "the file does not exist" or "it
is wrongly formatted" (src/file.rs:27-28), and `Error::IO` as the forward for
I/O errors (src/lib.rs:18). The code does less than those comments suggest,
and the model follows the code:

- `storage_size` does not count the heap memory of bookmarks. A container
  adds up its elements' children, and `Bookmark::deep_size_of_children`
  returns 0, so each bookmark counts only as its 88-byte struct
  (`Files.StorageSizeIgnoresBookmarkContents`). For the same reason, pushing
  a bookmark into spare capacity leaves the size unchanged
  (`Files.PushBookmarkSize`). One might expect a bookmark's url and tags to
  be part of "the size of loaded data"; they are not.
- `load` never returns `Error::IO`, even for a file that cannot be read.
  `rmp_serde::from_read` reports a failing reader inside its own decode
  error, and the `?` turns every decode error into `Error::RmpDeserialize`
  (`Files.Load`, `Files.LoadReadFailure`).
- The two category files belong to different schema revisions.
  `src/file/category.rs` names a type `identifier::Identifier` and derives no
  `PartialEq`. The model uses one schema: an `identifier: List` field and
  structural equality, as in `src/data/category.rs`. The earlier revision's
  constructor is modelled as `Categories.NewFromDefault` and shown to build
  the same value as the derived one.

## Model

| member | source | states |
|---|---|---|
| `Lib.FromIo` | src/lib.rs:19-20 | converting an I/O error gives the `IO` kind carrying that error |
| `Lib.FromDecode` | src/lib.rs:22-23 | converting a MessagePack decode error gives the `RmpDeserialize` kind carrying that error |
| `Lib.ConversionsDisjoint` | src/lib.rs:17-24 | the two error kinds are distinct: no I/O error converts to the same error as a decode error |
| `Identifier.New` | src/file/category/identifier.rs:9-22 | `List::new()` has empty `require`, `whole` and `include`, and equals `List::default()` |
| `Identifier.Default` | src/file/category/identifier.rs:9 | the derived default has no rules in any of the three lists and owns no heap memory |
| `Identifier.EqPositional` | src/file/category/identifier.rs:9-22 | two rule lists are equal iff each of the three fields has the same length and the same text at every position: order and duplicates count, capacity does not |
| `Identifier.Eq` | src/file/category/identifier.rs:9 | derived `PartialEq`: the three fields compared text by text, in order; identical lists are equal, and equal lists have as many rules in each field |
| `Identifier.Clone` | src/file/category/identifier.rs:9 | derived `Clone`: each vector cloned; the clone is equal to the original and has no more children |
| `Identifier.Children` | src/file/category/identifier.rs:9 | derived `deep_size_of_children`: the three `Vec<String>` children summed; at least every byte of rule text and every reserved slot, and zero iff none of the three vectors has allocated |
| `Bookmarks.New` | src/file/bookmark.rs:12-23 | `new(url, info)` stores `url` and `info` unchanged, takes the freshly drawn uuid, and starts with no tags and no tag allocation |
| `Bookmarks.Default` | src/file/bookmark.rs:26-29 | `default()` is `new("", "")` with a fresh uuid: empty url, info and tags |
| `Bookmarks.NewIdentity` | src/file/bookmark.rs:18-20 | two bookmarks built by `new` are equal iff their url texts, info texts and uuids are equal: the uuid is the supplied value and is not derived from url or info |
| `Bookmarks.DefaultsDistinct` | src/file/bookmark.rs:26-29 | two default bookmarks are equal iff they drew the same uuid |
| `Bookmarks.DeepSizeOf` | src/file/bookmark.rs:37-43 | the size formula (struct, url and info capacities, the tags' capacities, tag slots times `size_of::<String>()`) is never below the struct size |
| `Bookmarks.SizeCoversContent` | src/file/bookmark.rs:37-43 | the size is at least the struct plus every byte of text held plus one `String` per tag in use |
| `Bookmarks.SizeMinimal` | src/file/bookmark.rs:37-43 | the size equals the struct size iff the url, the info and the tag vector have nothing allocated |
| `Bookmarks.SizeIgnoresUuid` | src/file/bookmark.rs:37-43 | two bookmarks that differ only in uuid have the same size |
| `Bookmarks.NewSize` | src/file/bookmark.rs:37-43 | a new bookmark's size is the struct plus the url and info capacities; a default one's is the struct alone |
| `Bookmarks.PushTagSize` | src/file/bookmark.rs:41-42 | pushing a tag raises the size by exactly the tag's capacity plus the newly reserved slots, so by at least the tag's capacity |
| `Bookmarks.Eq` | src/file/bookmark.rs:12 | derived `PartialEq`: url, info and tag texts and the uuid compared; identical bookmarks are equal, and equal bookmarks share their uuid and tag count |
| `Bookmarks.Clone` | src/file/bookmark.rs:12 | derived `Clone`: strings re-allocated, uuid copied, not regenerated; the clone is equal to the original, keeps its uuid and never has a larger size |
| `Bookmarks.DeepSizeOfChildren` | src/file/bookmark.rs:33-35 | `deep_size_of_children` is 0 for every bookmark; struct size plus that never exceeds the deep size, and equals it exactly when url, info and tag have nothing allocated |
| `Categories.Default` | src/file/category.rs:8-18 | the default category has empty name and info, default rules and no children |
| `Categories.New` | src/data/category.rs:9-20 | the derived `new(name, info)` stores both strings unchanged, leaves the rules at `List::new()` with all three lists empty, and has no children and no child allocation |
| `Categories.NewFromDefault` | src/file/category.rs:22-28 | the earlier `new` stores `name` and `info` and takes rules and children from `Default` |
| `Categories.RevisionsAgree` | src/file/category.rs:22-28 | both revisions' `new` build the same category, and `new("", "")` is the default |
| `Categories.NewDeterministic` | src/file/category.rs:22-28 | arguments with equal text give equal categories: there is no random field |
| `Categories.ForestEqPointwise` | src/data/category.rs:19-20 | two child sequences are equal iff they have the same length and equal categories at every position |
| `Categories.EqStructural` | src/data/category.rs:9-20 | category equality holds iff name and info texts are equal, rules are equal, and the children are equal position by position, recursively |
| `Categories.EqReflexive` | src/data/category.rs:9 | every category equals itself, at any depth |
| `Categories.EqSymmetric` | src/data/category.rs:9 | category equality is symmetric |
| `Categories.EqTransitive` | src/data/category.rs:9 | category equality is transitive |
| `Categories.Eq` | src/data/category.rs:9-20 | derived `PartialEq` over name, info, rules and children; equal categories have as many children and the same number of nodes in their trees |
| `Categories.ForestEq` | src/data/category.rs:19-20 | `PartialEq` on `Vec<Category>`: element by element; equal sequences have the same length and the same number of nodes |
| `Categories.Clone` | src/data/category.rs:9 | derived `Clone`: a deep copy, equal to the original at every depth |
| `Categories.CloneForest` | src/data/category.rs:19-20 | `Clone` of the children: every child cloned, the result equal to the original sequence |
| `Categories.Children` | src/data/category.rs:9 | derived `deep_size_of_children`: names, rules and children; at least the two string capacities, the rules' children and the slots, and every child is counted in full (slot and children) |
| `Categories.ForestChildren` | src/data/category.rs:19-20 | the children of a sequence of categories summed; no member's children exceed the sum |
| `Categories.BelowSmaller` | src/data/category.rs:19-20 | a category strictly below another has a strictly smaller tree, so the tree is finite |
| `Categories.Acyclic` | src/data/category.rs:19-20 | no category lies in its own subtree: children are owned, never shared in a cycle |
| `Files.New` | src/file.rs:11-22 | `File::new()` has empty tag, category and bookmark sequences and equals `File::default()` |
| `Files.Default` | src/file.rs:11 | the default file has empty sequences and nothing allocated |
| `Files.Eq` | src/file.rs:11 | derived `PartialEq` over tag texts, categories and bookmarks; equal files have as many tags, categories and bookmarks |
| `Files.BookmarksEq` | src/file.rs:21 | `PartialEq` on `Vec<Bookmark>`: element by element; equal sequences have the same length and the same uuid at each position |
| `Files.EqStructural` | src/file.rs:11-22 | file equality holds iff the tag texts, the categories and the bookmarks are equal position by position |
| `Files.BookmarksChildren` | src/file.rs:21 | the bookmark vector's element children summed: always 0 |
| `Files.Children` | src/file.rs:11 | derived `deep_size_of_children`: the tag cache's children, the categories' children and slots, and the bookmark slots, nothing from the bookmarks' heap |
| `Files.CategoryCountedInFull` | src/file.rs:11 | every top-level category is counted in the file's children with its slot and all its own children |
| `Files.DeepSizeOf` | src/file.rs:36 | the trait's provided `deep_size_of`: struct size plus children; never below the struct size, and equal to it iff none of the three vectors has allocated |
| `Files.StorageSize` | src/file.rs:33-37 | `storage_size` is the file's deep size, at least the struct plus the tag cache's children and the category and bookmark slots; as a function of the value it leaves the file unchanged and is stable across calls |
| `Files.StorageSizeIgnoresBookmarkContents` | src/file.rs:35-37 | the storage size is the struct, the tag cache, the categories and the slots of both vectors; replacing the bookmarks with any others in a vector of the same capacity keeps it |
| `Files.PushBookmarkSize` | src/file.rs:35-37 | pushing a bookmark changes the storage size only by the newly reserved slots; into spare capacity it does not change it |
| `Files.NewSize` | src/file.rs:35-37 | a new file's storage size is the struct alone |
| `Files.EqualFilesMayDifferInSize` | src/file.rs:35-37 | two equal files can have different storage sizes: size measures allocation, not content |
| `Files.Load` | src/file.rs:29-31 | `load` gives `Ok` of exactly the decoded file iff decoding succeeds, otherwise `RmpDeserialize` of the decoder's error; never a partial file and never `IO` |
| `Files.LoadReadFailure` | src/file.rs:29-31 | a reader that fails is reported as `RmpDeserialize` carrying the I/O cause, not as `IO` |
| `Std.Empty` | src/file.rs:14-21 | `Vec::new()` / `String::new()` as `#[new(default)]` uses them: no elements and capacity 0 |
| `Std.Pushed` | src/file/bookmark.rs:22-23 | possible results of an owner's `push` onto the `tag` vector declared here (owner-side field mutation: see "Left out"): one element longer, the old elements kept, the new one last, and room for it |
| `Std.Texts` | src/file/category/identifier.rs:9 | the texts of a `Vec<String>` in order, one per element with duplicates kept: what the derived `PartialEq` compares |
| `Std.TextsEqual` | src/file/category/identifier.rs:9 | derived `PartialEq` on two `Vec<String>` holds exactly when they have the same length and the same text at every position, capacities aside |
| `Std.CloneString` | src/file/bookmark.rs:12 | `String::clone`: the same bytes, no larger capacity |
| `Std.CloneStrings` | src/file/bookmark.rs:12 | `Vec<String>::clone`: equal texts in order, no more slots |
| `DeepSize.CapacitySum` | src/file/bookmark.rs:41 | `tag.iter().map(String::capacity).sum()`: zero for no tags and at least each tag's capacity |
| `DeepSize.StringsChildren` | src/file/category/identifier.rs:9 | children of a `Vec<String>` under the derive: at least the text held plus the slots times `size_of::<String>()`, zero iff nothing is allocated |
| `DeepSize.CapacitySumAppend` | src/file/bookmark.rs:41 | adding a string to the summed tags adds exactly its capacity |
| `DeepSize.CapacitySumCoversLength` | src/file/bookmark.rs:41 | the summed capacities are never below the summed text lengths |

## Left out

- `Bookmarks.DeepSizeOf`, `Files.StorageSize`: sizes are unbounded naturals; `usize` overflow is not modelled, because the counted memory is made of live allocations and cannot exceed the address space.
- `Files.Load`: MessagePack decoding by `rmp_serde::from_read` is a foreign library doing I/O; it is a parameter of `Load`, and only the shape of its result is modelled. Encoding and the encode/decode round trip are not modelled.
- `Bookmarks.New`: `Uuid::new_v4()` draws from a random source; the uuid is a parameter and its uniqueness is not modelled.
- The membership rules of `identifier::List` are documented in comments only; no code evaluates them, so no matching is modelled.
- Keeping the file's tag cache in step with the bookmarks' tags is never done in the code and is not modelled.
- The `Hash`, `Debug`, `Serialize` and `Deserialize` derives are format and library behaviour and are not modelled.
- The `deepsize` derive for `File`, `Category` and `List` is generated by a foreign macro; the model adopts the crate's rules stated above, and leaves out its `Context`, which only matters for shared pointers.
- `Std.CloneString`, `Std.CloneStrings`: a clone is modelled with capacity equal to its length. The standard library promises only at least that capacity; exactly the length is what its current implementation allocates. The "never larger" parts of `Bookmarks.Clone` and `Identifier.Clone` rest on this.
- UTF-8 validity of `String` contents is not modelled: a string is any byte sequence, and no result depends on the bytes being valid UTF-8.
- Field mutation by the owner of a value is Dafny's datatype update; the source defines no mutating operations. `Std.Pushed` states what a `push` onto such a vector field may leave behind: a bookmark's `tag` in `Bookmarks.PushTagSize`, a file's `bookmark` in `Files.PushBookmarkSize`.
- `examples/summary.rs` and `examples/size.rs` (command-line parsing, opening files, printing) and the module wiring of `src/lib.rs` are I/O and glue.
- `src/data.rs`, `src/data/bookmark.rs` and `src/data/category/identifier.rs` are not part of this model.
