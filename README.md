# LTFS index reader, modelled in Dafny

The Ruby reader for LTFS tape indexes takes an index document that
XmlSimple has already decoded (`ForceArray => false`, `KeyToSymbol => true`)
and flattens its directory tree into one record per file. Each record holds
the file's path, its raw metadata and the location of its data on tape.
The reader exists in two variants, `bin/ltfs.rb` and `lib/ltfs.rb`. Their
directory walker, extent reconciler and tape header follow the same logic.
They differ in the file record.

The model has seven modules, one per file:

- `XmlNode` (xml_node.dfy): the decoded document.
  - `Raw` is nil, a String, a Hash (an association list in document order)
    or an Array of repeated elements.
  - `Value` is what the reader stores: a decoded node or an Integer.
  - `RubyError` lists the exceptions a malformed document raises.
  - `Result` carries either a value or an exception.
  - `hash[:key]`, `has_key?` and `x[:key]` on something that is not a Hash.
- `RubyCore` (ruby_core.dfy): the Ruby library calls the reader relies on.
  - `String#to_i`, with a decimal printer as its partner.
  - `Array#join` and a splitter that inverts it.
  - `File.join` over the path stack.
- `LtfsExtentInfo` (ltfs_extent_info.dfy): `LTFSExtentInfo`. It handles a
  missing extent, a single extent and an Array of extents. The `each` loop
  of `handle_extent_array` is a method proved equal to the function
  `CollectColumns`.
- `LtfsFile` (ltfs_file.dfy): `LTFSFile#initialize` in both variants and
  bin's extent readers.
  - bin keeps raw values.
  - lib parses timestamps and sets a boolean `editable`. Its `DateTime.parse`
    is a parameter.
- `LtfsIndex` (ltfs_index.dfy): `LTFSIndex` as a class.
  - It holds the path stack `pathComponents` and the accumulator
    `arrayOfLtfsFiles`.
  - Its methods `Files`, `Parse`, `HandleFolders` and `HandleFiles` update
    them in place. Each is proved to append exactly what the pure function
    `Flatten` computes.
  - After a normal return the path stack is as it was on entry.
  - The record builder (`LTFSFile.new`) is a parameter of the class, so
    one walker serves both variants.
- `LtfsWalk` (ltfs_walk.dfy): what the walk promises, against an
  independent reference.
  - `Visits` lists the file entries in walk order: a directory's own file
    entries first, in their order, then each sub-directory's entries,
    sub-directories in document order. Each comes with the path
    stack in force when the walk reaches it.
  - `Flatten` builds exactly one record per visit, in that order.
  - The module also has the bin and lib instances, the lib defect, and
    repeated calls of `files`.
- `LtfsTape` (ltfs_tape.dfy): `LTFSTape#initialize`.
  - The lookups that can raise.
  - The volume-name rule.
  - Opening an index and listing its files.

Three points of the code's behaviour are easy to misread:

- A single extent's `partition` goes through `to_i`, so it is an Integer.
  "1" gives 1, and a partition letter "a" or "b" gives 0. See
  `ReconcileSingle` and `ReconcileSingleNumbers`.
- `to_i` never yields nil, so the `|| 0` and `|| 'b'` fallbacks never fire.
- A field that is an element with children raises NoMethodError from
  `Hash#to_i`. For example, XmlSimple decodes an empty `<bytecount/>` as an
  empty Hash. Such a field does not default to 0.

## Model

| member | source | states |
|---|---|---|
| XmlNode.Lookup | bin/ltfs.rb:24-25 | `x[:key]` succeeds exactly on a Hash and then gives the child stored under the key, or nil when absent; on nil or another value it raises |
| RubyCore.ToI | bin/ltfs.rb:145-149 | `String#to_i`; no contract of its own: `ToIReadsIntToS`, `ToISkipsSpace` and `ToIOfNonNumeric` characterise it |
| RubyCore.RawToI | bin/ltfs.rb:145-149 | `to_i` of a field: nil gives 0, a String gives its leading decimal number, a Hash or Array raises |
| RubyCore.ToIReadsIntToS | bin/ltfs.rb:145-149 | `to_i` reads back any Integer printed in decimal, followed by text that does not continue the number (no leading digit, and no `_` followed by a digit) |
| RubyCore.ToISkipsSpace | bin/ltfs.rb:145-149 | leading whitespace does not change what `to_i` reads |
| RubyCore.ToIOfNonNumeric | bin/ltfs.rb:149 | a text starting with a letter (a partition letter) reads as 0 |
| RubyCore.SplitJoin | bin/ltfs.rb:169-173 | joining comma-free pieces with a separator and splitting at it gives the pieces back |
| RubyCore.Inspect | bin/ltfs.rb:168-172 | `Hash#inspect` as `join` renders a Hash; no contract of its own, used only through `Display` |
| RubyCore.Display | bin/ltfs.rb:168-172 | how `join` renders one element; no contract of its own: `SplitJoinedColumn` states that nil renders as "" and a String as itself |
| RubyCore.ArrayJoin | bin/ltfs.rb:168-172 | `Array#join`; no contract of its own: `SplitJoinedColumn` states that splitting the result at ',' gives back one rendered entry per element |
| RubyCore.FileJoin | bin/ltfs.rb:90 | `File.join` of the path stack; no contract of its own: `FileJoinOfNames`, `FileJoinRooted` and `FileJoinFailsOnNil` characterise it |
| RubyCore.FileJoinOfNames | bin/ltfs.rb:90 | a stack of "/" and directory names joins to "/" followed by the names separated by "/"; "/" alone gives "/" |
| RubyCore.FileJoinTwoNames | bin/ltfs.rb:90 | two directory names under the root join to "/" + first + "/" + second |
| RubyCore.FileJoinRooted | bin/ltfs.rb:90 | whenever a stack starting with "/" joins, the path starts with "/" |
| RubyCore.FileJoinFailsOnNil | bin/ltfs.rb:90 | a nil or Hash entry anywhere in the stack itself makes `File.join` raise |
| LtfsExtentInfo.CollectColumns | bin/ltfs.rb:160-167 | the loop's five lists exist exactly when every extent is a Hash, have one entry per extent and hold extent i's field at position i |
| LtfsExtentInfo.HandleExtentArray | bin/ltfs.rb:159-167 | the `each` loop filling five lists one extent at a time computes exactly `CollectColumns`, including the raise on the first non-Hash extent |
| LtfsExtentInfo.CollectFailureExtends | bin/ltfs.rb:160-167 | once an extent raises, the rest of the loop does not change the outcome |
| LtfsExtentInfo.JoinColumns | bin/ltfs.rb:168-172 | the five `join(',')` assignments; no contract of its own: `ReconcileArray` and `ArrayFieldsRecoverable` characterise it |
| LtfsExtentInfo.FieldToI | bin/ltfs.rb:145-149 | `extent[key].to_i` succeeds exactly when the extent is a Hash and the field is nil or a String, and then gives `to_i` of the field (0 for nil) |
| LtfsExtentInfo.HandleSingleValues | bin/ltfs.rb:144-150 | a single extent succeeds exactly when it is a Hash whose five fields are nil or Strings, and then each field is the Integer `to_i` of its own text |
| LtfsExtentInfo.Reconcile | bin/ltfs.rb:131-140 | the three-way dispatch of `LTFSExtentInfo.new`; no contract of its own: `ReconcileMissing`, `ReconcileMalformed`, `ReconcileSingle` and `ReconcileArray` cover its branches |
| LtfsExtentInfo.ReconcileMissing | bin/ltfs.rb:131-155 | zeros and partition "b" come out exactly when `extentinfo` or its `extent` is missing |
| LtfsExtentInfo.ReconcileMalformed | bin/ltfs.rb:133-149 | an `extentinfo` that is a String or Array, or an `extent` that is a String, raises TypeError |
| LtfsExtentInfo.ReconcileSingle | bin/ltfs.rb:144-150 | a single extent succeeds exactly when every field is absent or text, and then every field, partition included, is the Integer `to_i` of its text (0 when absent) |
| LtfsExtentInfo.ReconcileSingleNumbers | bin/ltfs.rb:144-150 | fields written as decimal numbers read back as those numbers and a partition letter reads as 0 |
| LtfsExtentInfo.SplitJoinedColumn | bin/ltfs.rb:169-173 | splitting a joined field at ',' recovers one entry per extent in extent order, nil as "", when no value holds a comma |
| LtfsExtentInfo.ReconcileArray | bin/ltfs.rb:159-174 | an Array of extents succeeds exactly when all are Hashes and then makes each field the ','-join of that field over the extents in order |
| LtfsExtentInfo.ArrayFieldsRecoverable | bin/ltfs.rb:159-174 | each of the five joined Strings splits back into a list with one entry per extent, so the lists line up by position |
| LtfsFile.LengthOf | bin/ltfs.rb:99 | the `length` rule; no contract of its own: `BuildFileAt` and `BuildLibFileAt` state 0 when absent, the raw element otherwise |
| LtfsFile.BuildFile | bin/ltfs.rb:88-101 | for any path stack, bin's record exists exactly when the stack joins, the entry is a Hash and its extents reconcile; it then carries the given volume uuid, the joined path and the reconciled extents |
| LtfsFile.BuildFileAt | bin/ltfs.rb:88-101 | bin's record exists exactly when the entry is a Hash whose extents reconcile; it carries the volume uuid, the joined path, the name, `readonly` as `editable`, the five raw timestamps, the uid, length 0 when absent or else the raw length, and the reconciled extents |
| LtfsFile.BuildFileAtRoot | bin/ltfs.rb:90 | a file directly under the root gets the path "/" |
| LtfsFile.BuildFileInVideos2024 | bin/ltfs.rb:90 | a file inside Videos/2024 gets the path "/Videos/2024" |
| LtfsFile.ParseDateTime | lib/ltfs.rb:143-147 | a timestamp reads exactly when it is a String the parser accepts, and then is the parser's value; a String the parser rejects raises DateError; it is never defaulted |
| LtfsFile.BuildLibFile | lib/ltfs.rb:140-159 | lib's `LTFSFile.new`; no contract of its own: `BuildLibFileAt` and `BuildLibFilePath` characterise it |
| LtfsFile.BuildLibFileAt | lib/ltfs.rb:140-159 | lib's record exists exactly when the entry is a Hash, all five timestamps parse and the extents reconcile; it carries the joined path, the name, the five parsed timestamps and the uid; `editable` is true exactly when the element is "true"; `size` is the length or 0; the extent readers are the reconciled ones |
| LtfsFile.BuildLibFilePath | lib/ltfs.rb:141 | lib's record path is `File.join` of the stack it was given |
| LtfsFile.LibFileRecord.SizeAsWritten | lib/ltfs.rb:111-135 | the `size` reader as written reads the never-assigned `@size`; no contract of its own: `SizeReaderLosesLength` states it is nil |
| LtfsFile.SizeReaderLosesLength | lib/ltfs.rb:111-157 | as written, `size` (and `length`) gives nil even when the entry has a length, unlike the corrected reader |
| LtfsIndex.Index.constructor | bin/ltfs.rb:8-15 | a new index starts with the stack ["/"] and no records |
| LtfsIndex.Flatten | bin/ltfs.rb:23-26 | `parse` as a function; no contract of its own: `LtfsIndex.Index.Parse` is proved against it and `FlattenAgrees` characterises it |
| LtfsIndex.FlattenFolders | bin/ltfs.rb:29-43 | `handle_folders` as a function; no contract of its own: `FoldersAgree` characterises it |
| LtfsIndex.FlattenFoldersFrom | bin/ltfs.rb:36-41 | the `each` over an Array of directories; no contract of its own: `FoldersFromAgree` characterises it |
| LtfsIndex.FlattenFiles | bin/ltfs.rb:46-54 | `handle_files` as a function; no contract of its own: `FilesAgree` characterises it |
| LtfsIndex.BuildEach | bin/ltfs.rb:51-52 | the `each` over an Array of file entries; no contract of its own: `BuildEachAgrees` characterises it |
| LtfsIndex.Index.Files | bin/ltfs.rb:17-19 | with no records yet, `files` returns exactly the walk of the top directory from the current stack; with records it returns them and changes nothing; a success leaves the stack unchanged and the root at its bottom |
| LtfsIndex.Index.Parse | bin/ltfs.rb:23-26 | `parse` raises exactly when `Flatten` fails, with the same exception; on normal return it has appended exactly `Flatten`'s records and restored the stack |
| LtfsIndex.Index.HandleFolders | bin/ltfs.rb:29-43 | push, walk, pop per directory: appends exactly the sub-directories' records and restores the stack on normal return; raises on a non-Hash directory in an Array |
| LtfsIndex.Index.HandleFiles | bin/ltfs.rb:46-54 | one `LTFSFile.new` per entry with the current stack, appended in order; the stack never changes |
| LtfsWalk.Visits | bin/ltfs.rb:23-54 | the file entries of a tree in walk order; every visit's stack extends the stack the walk started with |
| LtfsWalk.FolderVisits | bin/ltfs.rb:29-43 | a directory's visits all extend the stack in force at the directory |
| LtfsWalk.PushedVisits | bin/ltfs.rb:31-34 | the visits under one directory extend the stack, which has the directory's name pushed |
| LtfsWalk.FolderVisitsFrom | bin/ltfs.rb:36-41 | the visits of the remaining directories of an Array extend the stack |
| LtfsWalk.FileVisitsCount | bin/ltfs.rb:46-54 | a single file entry counts one, an Array counts its length, any other shape counts none |
| LtfsWalk.BuildAll | bin/ltfs.rb:49-52 | building succeeds exactly when every visit builds, and then gives one record per visit, record i built from visit i |
| LtfsWalk.BuildEachAgrees | bin/ltfs.rb:52 | the loop over an Array of file entries builds the same records as building each of its visits |
| LtfsWalk.FilesAgree | bin/ltfs.rb:46-54 | `handle_files` succeeds exactly when its visits build, with the same records |
| LtfsWalk.FlattenAgrees | bin/ltfs.rb:23-26 | a node's walk succeeds exactly when its visits exist and all build, and then its records are theirs |
| LtfsWalk.FoldersAgree | bin/ltfs.rb:29-43 | the same agreement for `handle_folders` |
| LtfsWalk.FoldersFromAgree | bin/ltfs.rb:36-41 | the same agreement for the rest of an Array of directories |
| LtfsWalk.OneRecordPerVisit | bin/ltfs.rb:23-54 | the walk succeeds exactly when the tree is walkable and every file entry builds; it then yields one record per entry in walk order (a directory's own file entries first, then each sub-directory's, sub-directories in document order), each built from that entry with the stack in force there |
| LtfsWalk.OneRecordPerFileEntry | bin/ltfs.rb:46-54 | `handle_files` adds as many records as the element has entries |
| LtfsWalk.SingleFileVisit | bin/ltfs.rb:46-49 | a lone file entry is reached with the stack as it stands |
| LtfsWalk.SingleFolderVisits | bin/ltfs.rb:31-34 | a lone sub-directory contributes its contents' entries, reached with its name pushed |
| LtfsWalk.FilesBeforeFolders | bin/ltfs.rb:23-26 | walk order is not document order: a directory's own file is reached before a file in a sub-directory written ahead of it |
| LtfsWalk.NestedFileVisit | bin/ltfs.rb:29-34 | a file in Videos/2024 is reached with the stack ["/", "Videos", "2024"] |
| LtfsWalk.BinRecords | bin/ltfs.rb:88-90 | every bin record carries the tape's volume uuid and a path starting with "/" |
| LtfsWalk.LibWalkAsWritten | lib/ltfs.rb:70-77 | as written, lib's walk succeeds only on a tree with no file entry, and then lists nothing |
| LtfsWalk.LibWalkCorrected | lib/ltfs.rb:70-77 | corrected, lib's walk gives one record per file entry, record i built from entry i with its stack, each path starting with "/" |
| LtfsWalk.ListFilesTwice | bin/ltfs.rb:17-19 | a fresh index's first `files` is the walk from "/"; after a successful first call, the second returns the same list |
| LtfsWalk.LibNewAsWritten | lib/ltfs.rb:73-76 | lib's three-argument `LTFSFile.new` call against a two-parameter `initialize` (lib/ltfs.rb:140); no contract of its own: `LibWalkAsWritten` states what it does to the walk |
| LtfsWalk.LibNew | lib/ltfs.rb:140 | the corrected builder; no contract of its own: `LibWalkCorrected` states its walk |
| LtfsTape.TapeOf | bin/ltfs.rb:65-77 | `LTFSTape.new`; no contract of its own: `VolumeNameRule` characterises it |
| LtfsTape.VolumeNameRule | bin/ltfs.rb:65-78 | the header reads exactly when the document, `location`, `previousgenerationlocation` and `directory` are Hashes; the volume name is "Unnamed Tape" exactly when the root name is a Hash, otherwise the name itself |
| LtfsTape.Open | bin/ltfs.rb:8-15 | opening fails exactly when the header does; otherwise a fresh walker over the top directory's contents, at "/", with no records and the tape's volume uuid |
| LtfsTape.ListFiles | bin/ltfs.rb:13-19 | the files of a document are the walk of its top directory's contents from "/" with its volume uuid, or the header's exception |

## Left out

- XmlSimple is not modelled. The model starts from its output (`Raw`).
  - Mixed content, the `content` key and attribute handling are not
    distinguished: an element with attributes or children is a Hash.
  - The source decodes the file twice. The model decodes it once.
- `DateTime.parse` is a parameter. It maps a string to a value or to
  nothing, and nothing is a DateError.
- The `LTFSTape` readers that only copy a value are not modelled. These
  are version, creator, generation, updatetime, the two partitions and
  start blocks, and highestfileuid. Only the lookups among them that can
  raise are kept.
- The `@allowpolicyupdate == "true"` line is not modelled. It is a
  discarded comparison, so that reader is always nil.
- The first return value of `files` is not modelled. On a first call the
  source returns whatever `parse` evaluated last. The model returns the
  accumulator.
- The path stack after an exception is not modelled. There is no
  `ensure`, so the stack is not restored. The methods state only that the
  old stack is a prefix of the new one.
- The records left behind by an exception are not stated. `files` pushes
  each record as soon as it is built, so after an exception the accumulator
  keeps the records built before it, and a later call of `files`
  (bin/ltfs.rb:18) returns that partial list as if the walk had succeeded.
  The methods state only that the old records are a prefix of the new ones.
- LtfsWalk.OneRecordPerVisit: does not say which exception a failing walk
  raises, because the walk and the visit list can meet different errors
  first. The exact exception is stated by `LtfsIndex.Index.Parse` against
  `Flatten`.
- `String#to_i` does not model the `0d` radix prefix. Only ASCII
  whitespace, a sign, digits and single underscores between digits are read.
- `Hash#inspect` is modelled without string escaping and in the format
  before Ruby 3.4. It matters only when an extent field is itself a Hash
  inside an Array of extents.
- `File.join` does not collapse separators inside or around names, for
  example a name containing "/" or an empty name. Only the root "/" is
  collapsed.
- The model's `Split` keeps trailing empty fields, unlike Ruby's
  `String#split`. It is the exact inverse of joining and serves only to
  state that the joined lists can be read back.
- XmlSimple never repeats a key in one Hash. The model's lookup takes the
  first entry with the key.
- Load-time defects in lib/ltfs.rb are not modelled. `module LTFS` is never
  closed, so the file does not parse, and `attr_reader :editable?` raises
  NameError when the class is defined. lib is modelled as if it loaded.
- lib reads an `editable` element. LTFS index files have a `readonly`
  element instead, so lib's `editable` is false for every real tape. The
  model states the rule as written.

## Findings

| source | as written | input that shows it | evidently intended | confidence | as-written member | corrected member |
|---|---|---|---|---|---|---|
| lib/ltfs.rb:73 | `handle_files` calls `LTFSFile.new(f, volumeuuid, path_components)` with three arguments, but `initialize` (lib/ltfs.rb:140) takes two, so every file entry raises ArgumentError | a document whose top directory holds one `<file>` element | `LTFSFile.new(f, path_components)`: one record per file entry | high (not executed) | LtfsWalk.LibWalkAsWritten | LtfsWalk.LibWalkCorrected |
| lib/ltfs.rb:111 | `attr_reader :size` (aliased as `length`) reads `@size`, but `initialize` assigns `@length` (lib/ltfs.rb:157), so the reader is always nil | a file entry with `<length>42</length>` | the reader returns the stored length (0 when absent) | high (not executed) | LtfsFile.SizeReaderLosesLength | LtfsFile.BuildLibFileAt |
