/** What the walk promises, stated against an independent description of
    the tree: the list of file entries in walk order (a directory's own file
    entries first, in their order, then each sub-directory's entries,
    sub-directories in document order), each with the path stack in force
    when it is reached. The walker builds exactly one record
    per entry of that list, in that order, with that stack. */
module LtfsWalk {
  import opened XmlNode
  import opened RubyCore
  import opened LtfsFile
  import opened LtfsIndex

  /** One file entry reached by the walk and the path stack at that moment. */
  datatype Visit = Visit(stack: seq<Raw>, entry: Raw)

  /** The file entries below `node` when the walk starts with `stack`, own
      files before those of sub-directories; every stack extends the one the
      walk started with. */
  function Visits(node: Raw, stack: seq<Raw>): (r: Result<seq<Visit>>)
    decreases node.Hash?, node, 2, 0
    ensures r.Success? ==> forall i :: 0 <= i < |r.value| ==> stack <= r.value[i].stack
  {
    if !node.Hash? then Failure(NoMethodError)
    else
      var own := if HasKey(node, "file") then FileVisits(Get(node, "file"), stack) else [];
      var below := if HasKey(node, "directory") then FolderVisits(Get(node, "directory"), stack) else Success([]);
      if below.Failure? then below else Success(own + below.value)
  }

  /** A single file entry, or each element of an Array of them. */
  function FileVisits(f: Raw, stack: seq<Raw>): (vs: seq<Visit>)
    ensures forall i :: 0 <= i < |vs| ==> vs[i].stack == stack
  {
    match f
    case Hash(_) => [Visit(stack, f)]
    case Arr(items) => VisitEach(items, stack)
    case _ => []
  }

  function VisitEach(items: seq<Raw>, stack: seq<Raw>): (vs: seq<Visit>)
    ensures |vs| == |items|
    ensures forall i :: 0 <= i < |items| ==> vs[i] == Visit(stack, items[i])
  {
    if items == [] then [] else [Visit(stack, items[0])] + VisitEach(items[1..], stack)
  }

  function FolderVisits(d: Raw, stack: seq<Raw>): (r: Result<seq<Visit>>)
    decreases true, d, 1, 0
    ensures r.Success? ==> forall i :: 0 <= i < |r.value| ==> stack <= r.value[i].stack
  {
    match d
    case Hash(_) => PushedVisits(d, stack)
    case Arr(_) => FolderVisitsFrom(d, 0, stack)
    case _ => Success([])
  }

  /** The entries under one directory, reached with its name pushed. */
  function PushedVisits(f: Raw, stack: seq<Raw>): (r: Result<seq<Visit>>)
    requires f.Hash?
    decreases true, f, 0, 0
    ensures r.Success? ==> forall i :: 0 <= i < |r.value| ==> stack <= r.value[i].stack
  {
    var r := Visits(Get(f, "contents"), stack + [Get(f, "name")]);
    assert r.Success? ==> forall i :: 0 <= i < |r.value| ==> stack <= stack + [Get(f, "name")] <= r.value[i].stack;
    r
  }

  function FolderVisitsFrom(d: Raw, k: nat, stack: seq<Raw>): (r: Result<seq<Visit>>)
    requires d.Arr?
    decreases true, d, 0, |d.items| - k
    ensures r.Success? ==> forall i :: 0 <= i < |r.value| ==> stack <= r.value[i].stack
  {
    if k >= |d.items| then Success([])
    else if !d.items[k].Hash? then Failure(NotAHashError(d.items[k]))
    else
      var here := PushedVisits(d.items[k], stack);
      var rest := FolderVisitsFrom(d, k + 1, stack);
      if here.Failure? then here
      else if rest.Failure? then rest
      else Success(here.value + rest.value)
  }

  /** The number of records `handle_files` makes of a `file` element: one
      for a single entry, one per element of an Array, none otherwise. */
  function EntryCount(f: Raw): nat {
    match f
    case Hash(_) => 1
    case Arr(items) => |items|
    case _ => 0
  }

  lemma FileVisitsCount(f: Raw, stack: seq<Raw>)
    ensures |FileVisits(f, stack)| == EntryCount(f)
  {
  }

  /** Building one record per visit, in order; the first failure stops it. */
  function BuildAll<R>(vs: seq<Visit>, vol: Raw, build: Builder<R>): (r: Result<seq<R>>)
    ensures r.Success? <==> forall i :: 0 <= i < |vs| ==> build(vs[i].entry, vol, vs[i].stack).Success?
    ensures r.Success? ==>
      && |r.value| == |vs|
      && forall i :: 0 <= i < |vs| ==> build(vs[i].entry, vol, vs[i].stack) == Success(r.value[i])
  {
    if vs == [] then Success([])
    else
      var rec :- build(vs[0].entry, vol, vs[0].stack);
      var rest :- BuildAll(vs[1..], vol, build);
      assert forall i :: 1 <= i < |vs| ==> vs[i] == vs[1..][i - 1];
      Success([rec] + rest)
  }

  /** Building the visits of two stretches one after the other. */
  lemma {:induction false} BuildAllAppend<R>(a: seq<Visit>, b: seq<Visit>, vol: Raw, build: Builder<R>)
    ensures BuildAll(a + b, vol, build) == Concat(BuildAll(a, vol, build), BuildAll(b, vol, build))
  {
    if a == [] {
      assert a + b == b;
      ConcatEmpty(BuildAll(b, vol, build));
    } else {
      assert (a + b)[0] == a[0];
      assert (a + b)[1..] == a[1..] + b;
      BuildAllAppend(a[1..], b, vol, build);
      var rb := BuildAll(b, vol, build);
      var ra := BuildAll(a[1..], vol, build);
      if ra.Success? && rb.Success? {
        var rec := build(a[0].entry, vol, a[0].stack);
        if rec.Success? {
          assert [rec.value] + (ra.value + rb.value) == ([rec.value] + ra.value) + rb.value;
        }
      }
    }
  }

  /** A walk result `flat` and a visit list agree: the walk succeeds exactly
      when the list exists and every entry on it builds, and then the walk's
      records are the entries' records. */
  ghost predicate Agrees<R>(flat: Result<seq<R>>, visits: Result<seq<Visit>>, vol: Raw, build: Builder<R>) {
    && (flat.Success? <==> visits.Success? && BuildAll(visits.value, vol, build).Success?)
    && (flat.Success? ==> visits.Success? && flat.value == BuildAll(visits.value, vol, build).value)
  }

  lemma ConcatAgrees<R>(f1: Result<seq<R>>, v1: Result<seq<Visit>>, f2: Result<seq<R>>, v2: Result<seq<Visit>>,
                        vol: Raw, build: Builder<R>)
    requires Agrees(f1, v1, vol, build) && Agrees(f2, v2, vol, build)
    ensures Agrees(Concat(f1, f2), Concat(v1, v2), vol, build)
  {
    if v1.Success? && v2.Success? {
      BuildAllAppend(v1.value, v2.value, vol, build);
    }
  }

  lemma {:induction false} BuildEachAgrees<R>(items: seq<Raw>, stack: seq<Raw>, vol: Raw, build: Builder<R>)
    ensures BuildEach(items, stack, vol, build) == BuildAll(VisitEach(items, stack), vol, build)
  {
    if items != [] {
      BuildEachAgrees(items[1..], stack, vol, build);
      assert VisitEach(items, stack)[1..] == VisitEach(items[1..], stack);
    }
  }

  lemma FilesAgree<R>(f: Raw, stack: seq<Raw>, vol: Raw, build: Builder<R>)
    ensures Agrees(FlattenFiles(f, stack, vol, build), Success(FileVisits(f, stack)), vol, build)
  {
    if f.Arr? {
      BuildEachAgrees(f.items, stack, vol, build);
    } else if f.Hash? {
      var vs := [Visit(stack, f)];
      assert vs[1..] == [];
    }
  }

  lemma {:induction false} FlattenAgrees<R>(node: Raw, stack: seq<Raw>, vol: Raw, build: Builder<R>)
    decreases node.Hash?, node, 2, 0
    ensures Agrees(Flatten(node, stack, vol, build), Visits(node, stack), vol, build)
  {
    if node.Hash? {
      if HasKey(node, "file") {
        FilesAgree(Get(node, "file"), stack, vol, build);
      }
      if HasKey(node, "directory") {
        FoldersAgree(Get(node, "directory"), stack, vol, build);
      }
      var own := if HasKey(node, "file") then FileVisits(Get(node, "file"), stack) else [];
      var below := if HasKey(node, "directory") then FolderVisits(Get(node, "directory"), stack) else Success([]);
      assert Visits(node, stack) == Concat(Success(own), below);
      ConcatAgrees(
        if HasKey(node, "file") then FlattenFiles(Get(node, "file"), stack, vol, build) else Success([]),
        Success(own),
        if HasKey(node, "directory") then FlattenFolders(Get(node, "directory"), stack, vol, build) else Success([]),
        below, vol, build);
    }
  }

  lemma {:induction false} FoldersAgree<R>(d: Raw, stack: seq<Raw>, vol: Raw, build: Builder<R>)
    decreases true, d, 1, 0
    ensures Agrees(FlattenFolders(d, stack, vol, build), FolderVisits(d, stack), vol, build)
  {
    match d
    case Hash(_) =>
      FlattenAgrees(Get(d, "contents"), stack + [Get(d, "name")], vol, build);
    case Arr(_) =>
      FoldersFromAgree(d, 0, stack, vol, build);
    case _ =>
  }

  lemma {:induction false} FoldersFromAgree<R>(d: Raw, k: nat, stack: seq<Raw>, vol: Raw, build: Builder<R>)
    requires d.Arr?
    decreases true, d, 0, |d.items| - k
    ensures Agrees(FlattenFoldersFrom(d, k, stack, vol, build), FolderVisitsFrom(d, k, stack), vol, build)
  {
    if k < |d.items| && d.items[k].Hash? {
      var f := d.items[k];
      FlattenAgrees(Get(f, "contents"), stack + [Get(f, "name")], vol, build);
      FoldersFromAgree(d, k + 1, stack, vol, build);
      ConcatAgrees(
        Flatten(Get(f, "contents"), stack + [Get(f, "name")], vol, build), PushedVisits(f, stack),
        FlattenFoldersFrom(d, k + 1, stack, vol, build), FolderVisitsFrom(d, k + 1, stack), vol, build);
    }
  }

  /** The walk in full: it succeeds exactly when the tree's shape is
      walkable and every file entry builds; it then yields one record per
      entry, in walk order, each built from that entry with the path
      stack in force there, which extends the stack the walk started from. */
  lemma OneRecordPerVisit<R>(node: Raw, stack: seq<Raw>, vol: Raw, build: Builder<R>)
    ensures var flat := Flatten(node, stack, vol, build);
      flat.Success? <==>
        && Visits(node, stack).Success?
        && forall i :: 0 <= i < |Visits(node, stack).value| ==>
             build(Visits(node, stack).value[i].entry, vol, Visits(node, stack).value[i].stack).Success?
    ensures var flat := Flatten(node, stack, vol, build);
      flat.Success? ==>
        var vs := Visits(node, stack).value;
        && |flat.value| == |vs|
        && forall i :: 0 <= i < |vs| ==>
             && build(vs[i].entry, vol, vs[i].stack) == Success(flat.value[i])
             && stack <= vs[i].stack
  {
    FlattenAgrees(node, stack, vol, build);
  }

  /** `handle_files` makes one record per file entry of the element. */
  lemma OneRecordPerFileEntry<R>(f: Raw, stack: seq<Raw>, vol: Raw, build: Builder<R>)
    ensures FlattenFiles(f, stack, vol, build).Success? ==>
      |FlattenFiles(f, stack, vol, build).value| == EntryCount(f)
  {
    FilesAgree(f, stack, vol, build);
    FileVisitsCount(f, stack);
  }

  /** A directory holding a single file entry: that entry is reached with
      the stack as it stands. */
  lemma SingleFileVisit(f: Raw, stack: seq<Raw>)
    requires f.Hash?
    ensures Visits(Hash([("file", f)]), stack) == Success([Visit(stack, f)])
  {
    HashCons("file", f, [], "file");
    HashCons("file", f, [], "directory");
    assert [("file", f)] + [] == [("file", f)];
    assert "file" != "directory" by { assert |"file"| != |"directory"|; }
    assert [Visit(stack, f)] + [] == [Visit(stack, f)];
  }

  /** A directory holding a single sub-directory `name`: its entries are
      those of the sub-directory's contents, reached with `name` pushed. */
  lemma SingleFolderVisits(name: Raw, contents: Raw, stack: seq<Raw>)
    ensures Visits(Hash([("directory", Hash([("name", name), ("contents", contents)]))]), stack)
      == Visits(contents, stack + [name])
  {
    var d := Hash([("name", name), ("contents", contents)]);
    HashCons("directory", d, [], "file");
    HashCons("directory", d, [], "directory");
    assert [("directory", d)] + [] == [("directory", d)];
    assert "file" != "directory" by { assert |"file"| != |"directory"|; }
    HashCons("name", name, [("contents", contents)], "name");
    HashCons("name", name, [("contents", contents)], "contents");
    HashCons("contents", contents, [], "contents");
    assert [("contents", contents)] + [] == [("contents", contents)];
    assert [("name", name), ("contents", contents)] == [("name", name)] + [("contents", contents)];
    assert "name" != "contents" by { assert |"name"| != |"contents"|; }
    assert Get(d, "name") == name;
    assert Get(d, "contents") == contents;
    var r := Visits(contents, stack + [name]);
    assert PushedVisits(d, stack) == r;
    assert FolderVisits(d, stack) == r;
    if r.Success? {
      assert [] + r.value == r.value;
    }
  }

  /** Walk order is not document order: in a directory whose sub-directory
      `name` (holding the file `x`) is written before its own file `y`,
      `y` is still reached first, because `parse` handles a directory's
      `file` key before its `directory` key. */
  lemma FilesBeforeFolders(x: Raw, y: Raw, name: Raw, stack: seq<Raw>)
    requires x.Hash? && y.Hash?
    ensures Visits(Hash([("directory", Hash([("name", name), ("contents", Hash([("file", x)]))])), ("file", y)]), stack)
      == Success([Visit(stack, y), Visit(stack + [name], x)])
  {
    var d := Hash([("name", name), ("contents", Hash([("file", x)]))]);
    assert [("directory", d), ("file", y)] == [("directory", d)] + [("file", y)];
    assert [("file", y)] + [] == [("file", y)];
    assert "file" != "directory" by { assert |"file"| != |"directory"|; }
    HashCons("directory", d, [("file", y)], "file");
    HashCons("directory", d, [("file", y)], "directory");
    HashCons("file", y, [], "file");
    var node := Hash([("directory", d), ("file", y)]);
    assert HasKey(node, "file") && Get(node, "file") == y;
    assert HasKey(node, "directory") && Get(node, "directory") == d;
    var contents := Hash([("file", x)]);
    HashCons("name", name, [("contents", contents)], "name");
    HashCons("name", name, [("contents", contents)], "contents");
    HashCons("contents", contents, [], "contents");
    assert [("contents", contents)] + [] == [("contents", contents)];
    assert [("name", name), ("contents", contents)] == [("name", name)] + [("contents", contents)];
    assert "name" != "contents" by { assert |"name"| != |"contents"|; }
    assert Get(d, "name") == name;
    assert Get(d, "contents") == contents;
    SingleFileVisit(x, stack + [name]);
    assert PushedVisits(d, stack) == Success([Visit(stack + [name], x)]);
    assert FolderVisits(d, stack) == Success([Visit(stack + [name], x)]);
    assert FileVisits(y, stack) == [Visit(stack, y)];
    assert Visits(node, stack) == Success([Visit(stack, y)] + [Visit(stack + [name], x)]);
    assert [Visit(stack, y)] + [Visit(stack + [name], x)] == [Visit(stack, y), Visit(stack + [name], x)];
  }

  /** A file in Videos/2024 is reached with the stack ["/", "Videos", "2024"]. */
  lemma NestedFileVisit(f: Raw)
    requires f.Hash?
    ensures
      var inner := Hash([("name", Text("2024")), ("contents", Hash([("file", f)]))]);
      var outer := Hash([("name", Text("Videos")), ("contents", Hash([("directory", inner)]))]);
      Visits(Hash([("directory", outer)]), [Text("/")])
        == Success([Visit([Text("/"), Text("Videos"), Text("2024")], f)])
  {
    var inner := Hash([("name", Text("2024")), ("contents", Hash([("file", f)]))]);
    SingleFolderVisits(Text("Videos"), Hash([("directory", inner)]), [Text("/")]);
    SingleFolderVisits(Text("2024"), Hash([("file", f)]), [Text("/"), Text("Videos")]);
    SingleFileVisit(f, [Text("/"), Text("Videos"), Text("2024")]);
    assert [Text("/")] + [Text("Videos")] == [Text("/"), Text("Videos")];
    assert [Text("/"), Text("Videos")] + [Text("2024")] == [Text("/"), Text("Videos"), Text("2024")];
  }

  // ---------------------------------------------------------------------
  // The two readers
  // ---------------------------------------------------------------------

  /** bin/ltfs.rb: every record carries the tape's volume uuid and a path
      that starts with "/", and is the record `LTFSFile.new` builds from its
      entry at the stack in force there. */
  lemma BinRecords(filedata: Raw, vol: Raw)
    ensures var flat := Flatten(filedata, [Text("/")], vol, BuildFile);
      flat.Success? ==>
        forall i :: 0 <= i < |flat.value| ==>
          && flat.value[i].volumeuuid == vol
          && flat.value[i].filepath != []
          && flat.value[i].filepath[0] == '/'
  {
    var flat := Flatten(filedata, [Text("/")], vol, BuildFile);
    OneRecordPerVisit(filedata, [Text("/")], vol, BuildFile);
    if flat.Success? {
      var vs := Visits(filedata, [Text("/")]).value;
      forall i | 0 <= i < |flat.value|
        ensures flat.value[i].volumeuuid == vol
        ensures flat.value[i].filepath != [] && flat.value[i].filepath[0] == '/'
      {
        var st := vs[i].stack;
        assert st == [Text("/")] + st[1..];
        FileJoinRooted(st[1..]);
      }
    }
  }

  /** lib/ltfs.rb as written: `handle_files` passes three arguments to an
      `initialize` that takes two, so every call raises ArgumentError before
      any field is read. */
  function LibNewAsWritten<T>(input: Raw, vol: Raw, pathname: seq<Raw>): Result<LibFileRecord<T>> {
    Failure(ArgumentError)
  }

  /** lib/ltfs.rb as evidently intended: the volume uuid is not passed on. */
  function LibNew<T>(parse: string -> Option<T>): Builder<LibFileRecord<T>> {
    (input, vol, pathname) => BuildLibFile(input, pathname, parse)
  }

  /** As written, lib's `files` succeeds only on a tree holding no file
      entry at all, and then lists nothing. */
  lemma LibWalkAsWritten<T>(filedata: Raw, vol: Raw)
    ensures var flat := Flatten(filedata, [Text("/")], vol, LibNewAsWritten<T>);
      && (flat.Success? <==> Visits(filedata, [Text("/")]) == Success([]))
      && (flat.Success? ==> flat.value == [])
  {
    OneRecordPerVisit(filedata, [Text("/")], vol, LibNewAsWritten<T>);
    var vs := Visits(filedata, [Text("/")]);
    if vs.Success? && vs.value != [] {
      assert LibNewAsWritten<T>(vs.value[0].entry, vol, vs.value[0].stack).Failure?;
    }
  }

  /** Corrected, lib's `files` lists one record per file entry: the walk
      succeeds exactly when the tree is walkable and every entry builds, and
      record i is the one built from entry i with its stack, so its path
      starts with "/". */
  lemma LibWalkCorrected<T>(filedata: Raw, vol: Raw, parse: string -> Option<T>)
    ensures var flat := Flatten(filedata, [Text("/")], vol, LibNew(parse));
      flat.Success? <==>
        && Visits(filedata, [Text("/")]).Success?
        && forall i :: 0 <= i < |Visits(filedata, [Text("/")]).value| ==>
             var v := Visits(filedata, [Text("/")]).value[i];
             BuildLibFile(v.entry, v.stack, parse).Success?
    ensures var flat := Flatten(filedata, [Text("/")], vol, LibNew(parse));
      flat.Success? ==>
        var vs := Visits(filedata, [Text("/")]).value;
        && |flat.value| == |vs|
        && forall i :: 0 <= i < |vs| ==>
             && flat.value[i] == BuildLibFile(vs[i].entry, vs[i].stack, parse).value
             && flat.value[i].path != []
             && flat.value[i].path[0] == '/'
  {
    var flat := Flatten(filedata, [Text("/")], vol, LibNew(parse));
    var visits := Visits(filedata, [Text("/")]);
    OneRecordPerVisit(filedata, [Text("/")], vol, LibNew(parse));
    if visits.Success? {
      var vs := visits.value;
      forall i | 0 <= i < |vs|
        ensures LibNew(parse)(vs[i].entry, vol, vs[i].stack) == BuildLibFile(vs[i].entry, vs[i].stack, parse)
      {
      }
      if flat.Success? {
        forall i | 0 <= i < |vs|
          ensures flat.value[i].path != [] && flat.value[i].path[0] == '/'
        {
          var st := vs[i].stack;
          assert st == [Text("/")] + st[1..];
          FileJoinRooted(st[1..]);
          BuildLibFilePath(vs[i].entry, st, parse);
        }
      }
    }
  }

  // ---------------------------------------------------------------------
  // Calling `files` again
  // ---------------------------------------------------------------------

  /** A fresh reader asked for its files twice: the first answer is the walk
      from the root, and after a successful first answer the second is the
      same list. */
  method ListFilesTwice<R>(vol: Raw, filedata: Raw, build: Builder<R>)
    returns (first: Result<seq<R>>, second: Result<seq<R>>)
    ensures first == Flatten(filedata, [Text("/")], vol, build)
    ensures first.Success? ==> second == first
  {
    var index := new Index(vol, filedata, build);
    first := index.Files();
    second := index.Files();
  }
}
