# FileSet and MetadataGroup of the UGH document model, in Dafny

UGH models a digitised document as a tree of structure nodes carrying typed
metadata and referring to content files. This project models two of its
in-memory containers, from `ugh.dl`, and proves properties about them.

- **FileSet** (`fileset.dfy`, module `FileSets`). It holds four lists:
  - the content files of a document, where the same file is never added twice;
  - loose metadata, added without validation;
  - a log of every metadata element passed to `removeMetadata`;
  - the virtual file groups used for viewer METS.
  It also has `toString`, a diagnostic dump in a fixed layout.
- **MetadataGroup** (`metadatagroup.dfy`, module `MetadataGroups`). It is
  one instance of a metadata group type. Its constructor rejects a null type.
  Otherwise it walks the group type's member types in schema order. It
  creates a `Person` for each person-valued type, with the role set to the
  type's name, and a `Metadata` for every other type. After that, elements
  are appended without validation and found by type name. `equals` and
  `hashCode` are defined over the four fields.

Both classes are Dafny classes. Their Java `List` fields are `seq` fields,
and their methods reassign those fields. Each mutating method states its
whole new state in terms of the old one, including which lists do not
change. The list operations the Java code borrows from `java.util.List`
are functions in `lists.dfy` (module `Lists`):

- `contains`-then-`add` is `AppendIfAbsent`;
- `remove(Object)` is `RemoveFirst`;
- the filter loops are specified by `Filter`.

The facts the two classes rely on are proved as lemmas about these
functions. The collaborators whose code is not shown (`ContentFile`,
`VirtualFileGroup`, `MetadataType`, `Metadata`, `Person`,
`MetadataGroupType`, `DocStruct`) are value records in `records.dfy`. Each
holds the fields the two classes read or set. A few more fields let two
values of one kind differ: a group type's name, a metadata element's value
and a DocStruct's identity, which neither class touches. Java `equals` on them is Dafny value
equality.

A Java reference that can be null is an `Option`:
- the group's type, because `setType(null)` is allowed;
- the group's `DocStruct`, which stays null until it is set.

A construction that throws is a `Result`: `MetadataGroup.Create` returns
`Failure(MetadataTypeNotAllowed(...))` for a null type. The Dafny
constructor itself takes a non-null type and holds the loop.

Where the code and its documentation disagree, the model follows the code:
- `removeFile`'s doc comment promises an exception for an absent file. The
  code removes nothing and throws nothing, and so does `RemoveFile`.
- `addFile`'s doc comment says it returns true. It returns nothing.
- The person list of a group is a `LinkedList`: ordered, and it may hold
  duplicates. So it is a `seq`, not a set.
- `removeMetadata` logs its argument and then deletes only the first
  occurrence from the active list. An element that was added twice stays
  active after one removal, although the log records it as removed.
  `RemovedMetadataInactive` states exactly when the removed element is gone.

## Model

| member | source | states |
|---|---|---|
| `FileSets.FileSet.constructor` | src/main/java/ugh/dl/FileSet.java:83-88 | a new file set has all four lists empty and no duplicate files |
| `FileSets.FileSet.AddFile` | src/main/java/ugh/dl/FileSet.java:100-106 | the file list is unchanged if the file is present, otherwise the file is appended; afterwards the file occurs exactly once, the list stays duplicate-free, and the other three lists are unchanged |
| `FileSets.FileSet.RemoveFile` | src/main/java/ugh/dl/FileSet.java:108-120 | the first occurrence of the file is deleted and the list is unchanged if the file is absent; nothing is thrown; the file is no longer present and the other lists are unchanged |
| `FileSets.FileSet.AddMetadata` | src/main/java/ugh/dl/FileSet.java:126-129 | the element is appended to the metadata list without any check; the result is always true; the other lists are unchanged |
| `FileSets.FileSet.RemoveMetadata` | src/main/java/ugh/dl/FileSet.java:135-139 | the element is always appended to the removed-metadata log, even when it was never added; one copy is taken from the active list (its first occurrence); the result is always true; files and groups are unchanged |
| `FileSets.FileSet.SetVirtualFileGroups` | src/main/java/ugh/dl/FileSet.java:166-169 | the group list is replaced by the argument; the other lists are unchanged |
| `FileSets.FileSet.AddVirtualFileGroup` | src/main/java/ugh/dl/FileSet.java:175-177 | the group is appended; the file and metadata lists are unchanged |
| `FileSets.FileSet.RemoveVirtualFileGroup` | src/main/java/ugh/dl/FileSet.java:182-184 | the first occurrence of the group is deleted and the list is unchanged if the group is absent; the file and metadata lists are unchanged |
| `FileSets.FileSet.ToString` | src/main/java/ugh/dl/FileSet.java:192-228 | the dump is `Describe` of the two lists: the FileSet heading, then the file section, then the VirtualFileGroups heading, then the group section, in that order; the two placeholder lemmas below hold for those sections |
| `FileSets.AppendLines` | src/main/java/ugh/dl/FileSet.java:200-206 | the buffer loop produces the concatenation of the elements' lines in list order |
| `FileSets.FileSectionPlaceholder` | src/main/java/ugh/dl/FileSet.java:197-207 | the file section is exactly "NO FILES\n" if and only if there are no files |
| `FileSets.GroupSectionPlaceholder` | src/main/java/ugh/dl/FileSet.java:212-225 | the group section is exactly "NONE\n" if and only if there are no groups |
| `FileSets.LinesStart` | src/main/java/ugh/dl/FileSet.java:201-205 | if every line starts with a prefix, the lines of a non-empty list start with it too |
| `FileSets.LinesAppend` | src/main/java/ugh/dl/FileSet.java:200-206 | the lines of a concatenated list are the concatenated lines |
| `FileSets.LinesAt` | src/main/java/ugh/dl/FileSet.java:200-206 | the k-th element's line stands between the lines of the elements before and after it |
| `FileSets.FileLinesAt` | src/main/java/ugh/dl/FileSet.java:201-205 | there is one `ContentFile (id): 'location' (mimetype)` line per file, in list order |
| `FileSets.GroupLinesAt` | src/main/java/ugh/dl/FileSet.java:217-223 | there is one `NAME: ..., PATH: ...` line per group, in list order |
| `FileSets.DescribeEmpty` | src/main/java/ugh/dl/FileSet.java:192-228 | an empty file set dumps as the two headings, each followed by its placeholder |
| `FileSets.AddFileTwice` | src/main/java/ugh/dl/FileSet.java:100-106 | for a file list, adding the same file twice gives the same list as adding it once (the generic idempotence lemma), and the file occurs once |
| `FileSets.AddThenRemoveFile` | src/main/java/ugh/dl/FileSet.java:100-120 | removing a file just added to a list that lacked it restores the list |
| `FileSets.RemovedMetadataInactive` | src/main/java/ugh/dl/FileSet.java:135-139 | after removal, the element is absent from the active list if and only if it had occurred there at most once |
| `Lists.AppendIfAbsentKeepsNoDuplicates` | src/main/java/ugh/dl/FileSet.java:103-105 | the contains-then-add step keeps a list duplicate-free, and the added element then occurs exactly once |
| `Lists.AppendIfAbsentIdempotent` | src/main/java/ugh/dl/FileSet.java:103-105 | the contains-then-add step is idempotent |
| `Lists.AppendIfAbsentContents` | src/main/java/ugh/dl/FileSet.java:103-105 | the old list is a prefix of the new one, and the new elements are exactly the old ones plus the added one |
| `Lists.NoDuplicatesCount` | src/main/java/ugh/dl/FileSet.java:103-105 | in a duplicate-free list each element occurs exactly once or not at all |
| `Lists.FirstIndex` | src/main/java/ugh/dl/FileSet.java:119 | the index found holds the element, and no earlier index does |
| `Lists.RemoveFirstAbsent` | src/main/java/ugh/dl/FileSet.java:119 | removing an absent element leaves the list unchanged |
| `Lists.RemoveFirstPresent` | src/main/java/ugh/dl/FileSet.java:119 | removing a present element cuts out exactly its first occurrence |
| `Lists.RemoveFirstMultiset` | src/main/java/ugh/dl/FileSet.java:137 | as a multiset, removal takes away one copy of the element if there is one; the length drops by one exactly when the element was present |
| `Lists.NoDuplicatesCons` | src/main/java/ugh/dl/FileSet.java:119 | a list is duplicate-free if and only if its tail is duplicate-free and its head does not occur again |
| `Lists.RemoveFirstKeepsNoDuplicates` | src/main/java/ugh/dl/FileSet.java:119 | removal keeps a duplicate-free list duplicate-free and takes the element out of it |
| `Lists.RemoveFirstAfterAppend` | src/main/java/ugh/dl/FileSet.java:175-184 | removing an element just appended to a list that lacked it restores the list |
| `Lists.RemoveFirstAfterAppendPresent` | src/main/java/ugh/dl/FileSet.java:126-139 | when the element was already present, appending and then removing it deletes the earlier copy and keeps the new one at the end |
| `Lists.RemoveFirstAfterAppendCounterexample` | src/main/java/ugh/dl/FileSet.java:126-139 | the list need not come back unchanged: for example, [x, y] becomes [y, x] |
| `Lists.FilterSnoc` | src/main/java/ugh/dl/MetadataGroup.java:187-191 | filtering a list extended by one element extends the filtered list by that element if it matches |
| `Lists.FilterMembership` | src/main/java/ugh/dl/MetadataGroup.java:187-191 | an element is in the filtered list if and only if it is in the list and matches |
| `Lists.FilterMultiset` | src/main/java/ugh/dl/MetadataGroup.java:187-191 | a matching element keeps all its copies, and a non-matching one has none |
| `Lists.FilterIsSubsequence` | src/main/java/ugh/dl/MetadataGroup.java:187-191 | the filtered list is a subsequence of the list, in the original relative order |
| `Lists.SubsequenceOfPrefix` | src/main/java/ugh/dl/MetadataGroup.java:187-191 | a subsequence of a list without its last element is a subsequence of the list |
| `Lists.SubsequenceDropLast` | src/main/java/ugh/dl/MetadataGroup.java:187-191 | dropping the last element of a subsequence keeps it a subsequence |
| `Lists.FilterEmpty` | src/main/java/ugh/dl/MetadataGroup.java:186-192 | the filtered list is empty if and only if no element matches |
| `Lists.FilterPartitionSize` | src/main/java/ugh/dl/MetadataGroup.java:89-98 | the matching and the non-matching elements together are as many as the list |
| `MetadataGroups.MetadataGroup.constructor` | src/main/java/ugh/dl/MetadataGroup.java:85-98 | the type is set and the DocStruct is null; the lists are those the schema walk creates (see the lemmas below) |
| `MetadataGroups.MetadataGroup.Create` | src/main/java/ugh/dl/MetadataGroup.java:77-100 | it fails with MetadataTypeNotAllowed and its message if and only if the type is null; otherwise it gives a fresh group as the constructor builds it |
| `MetadataGroups.MetadataGroup.SetDocStruct` | src/main/java/ugh/dl/MetadataGroup.java:109-111 | the DocStruct is replaced and nothing else changes |
| `MetadataGroups.MetadataGroup.SetType` | src/main/java/ugh/dl/MetadataGroup.java:147-150 | the result is always true; the type is replaced (null allowed); the lists and the DocStruct are not touched or re-validated |
| `MetadataGroups.MetadataGroup.AddMetadata` | src/main/java/ugh/dl/MetadataGroup.java:162-164 | the element is appended without validation; the person list, the type and the DocStruct are unchanged |
| `MetadataGroups.MetadataGroup.AddPerson` | src/main/java/ugh/dl/MetadataGroup.java:176-178 | the person is appended without validation; the metadata list, the type and the DocStruct are unchanged |
| `MetadataGroups.MetadataGroup.GetMetadataByType` | src/main/java/ugh/dl/MetadataGroup.java:185-193 | the result holds exactly the elements whose type name is the argument, as a subsequence of the metadata list; it is empty if and only if none match; the group is not modified |
| `MetadataGroups.MetadataGroup.GetPersonByType` | src/main/java/ugh/dl/MetadataGroup.java:196-204 | the same filter over the person list |
| `MetadataGroups.MetadataGroup.HashCode` | src/main/java/ugh/dl/MetadataGroup.java:207-215 | the result is the prime-31 fold, starting at 1, of the type hash, the two list hashes and the DocStruct hash, with 0 for a null field |
| `MetadataGroups.MetadataGroup.Equals` | src/main/java/ugh/dl/MetadataGroup.java:217-247 | the result is true if and only if the argument is a non-null MetadataGroup whose type, lists and DocStruct equal this group's (null equal only to null) |
| `MetadataGroups.Fold31Four` | src/main/java/ugh/dl/MetadataGroup.java:209-214 | folding four hashes is the four multiply-and-add steps of hashCode |
| `MetadataGroups.PartitionSizes` | src/main/java/ugh/dl/MetadataGroup.java:87-98 | after construction, the two list sizes sum to the number of member types, because the lists follow the person and non-person parts of the schema |
| `MetadataGroups.MetadataForSchemaOrder` | src/main/java/ugh/dl/MetadataGroup.java:89-97 | the metadata list has one fresh Metadata per non-person member type, in schema order |
| `MetadataGroups.PersonsForSchemaOrder` | src/main/java/ugh/dl/MetadataGroup.java:89-94 | the person list has one Person per person member type, in schema order, with the role equal to that type's name |
| `MetadataGroups.ConstructedElementsMatchSchema` | src/main/java/ugh/dl/MetadataGroup.java:89-97 | every constructed person has a person member type of the schema and that type's name as its role; every constructed Metadata has a non-person member type and no value |
| `MetadataGroups.LookupAfterAddMetadata` | src/main/java/ugh/dl/MetadataGroup.java:162-193 | after addMetadata, a lookup returns the earlier result, plus the new element at the end if its type name matches |
| `MetadataGroups.LookupAfterAddPerson` | src/main/java/ugh/dl/MetadataGroup.java:176-204 | after addPerson, a lookup returns the earlier result, plus the new person at the end if its type name matches |
| `MetadataGroups.LookupCounts` | src/main/java/ugh/dl/MetadataGroup.java:185-193 | a lookup keeps every copy of a matching element and no copy of any other element |
| `MetadataGroups.GroupHashClosedForm` | src/main/java/ugh/dl/MetadataGroup.java:207-215 | the hash is 31^4 + 31^3·type + 31^2·metadata list + 31·person list + DocStruct |
| `MetadataGroups.EqualsReflexiveSymmetric` | src/main/java/ugh/dl/MetadataGroup.java:218-224 | every group equals itself, equality is symmetric, and no group equals null |
| `MetadataGroups.EqualsImpliesEqualHash` | src/main/java/ugh/dl/MetadataGroup.java:207-247 | equal groups have equal hash codes, whatever hash functions their field types use |

## Left out

- `ugh/src/converter/processing/ValidateBackup.java`: its only logic is reading a file from disk and wrapping I/O exceptions. File I/O is not part of this model.
- The internals of `ContentFile`, `VirtualFileGroup`, `Metadata`, `Person`, `MetadataType`, `MetadataGroupType` and `DocStruct` are not part of this model. They are value records holding the fields the two classes read or set, plus a group type's name, a metadata element's value and a DocStruct's identity. `new Person(t)` is taken to leave the role unset before `setRole` sets it, and `new Metadata(t)` is taken to leave the value unset.
- Getters (`getAllFiles`, `getAllMetadata`, `getVirtualFileGroups`, `getType`, `getDocStruct`, `getMetadataList`, `getPersonList`) are the fields themselves. In Java they hand out the internal lists, and a caller could break the no-duplicate-files invariant through such an alias. The model hands out values, so that aliasing is not captured.
- `setMetadataList`, `setPersonList` and `setVirtualFileGroups(null)`: lists are never null in the model. So the null-list branches of `toString`, `equals` and `hashCode` are reduced to the empty or non-null case, and the `NullPointerException` a null list would cause later is not modelled.
- Null list elements: Java accepts null in `addFile`, `removeMetadata` and `addVirtualFileGroup` of `FileSet`, and in `addMetadata` and `addPerson` of `MetadataGroup`. Such an element makes a later `toString`, `getMetadataByType` or `getPersonByType` throw `NullPointerException`. Records are never null in the model, so neither the null element nor that later exception is modelled.
- `MetadataGroups.MetadataGroup.HashCode`: computed over unbounded integers, without Java's 32-bit `int` wrap-around. The hash functions of the field types are parameters, because their code is not visible.
- `MetadataGroups.MetadataGroup.GetMetadataByType` and `MetadataGroups.MetadataGroup.GetPersonByType`: the type name argument is a non-null string. Java's `equals(null)`, which matches nothing, is not modelled.
- The metadata list of a group holds `Metadata` only. The Java field type `MetadataInterface` would also admit persons there.
- Strings are non-null in the model, so Java's rendering of a null field as `"null"` in `toString` is not captured.
- `MetadataGroup.toString`, logging, `Serializable`, and the casts to `ContentFile`/`VirtualFileGroup`/`MetadataType` are not modelled. A failed cast can only raise `ClassCastException`.
