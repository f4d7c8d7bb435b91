/** `LTFSIndex`: the directory walker. It keeps a path stack, starting as
    ["/"], pushes a directory's name before descending into its `contents`
    and pops it afterwards, and appends one record per `file` entry to an
    accumulator that `files` fills on first use. The walker's logic is the
    same in bin/ltfs.rb and lib/ltfs.rb; only the record builder it calls
    differs, so the walker is modelled once, over the builder. */
module LtfsIndex {
  import opened XmlNode

  /** `LTFSFile.new(entry, volumeuuid, path_components)` as a call site sees
      it: the raw file entry, the tape's volume uuid, the path stack. */
  type Builder<R> = (Raw, Raw, seq<Raw>) -> Result<R>

  /** Running two steps one after the other: the first failure wins,
      otherwise the results are appended. */
  function Concat<T>(a: Result<seq<T>>, b: Result<seq<T>>): Result<seq<T>> {
    if a.Failure? then a
    else if b.Failure? then b
    else Success(a.value + b.value)
  }

  lemma ConcatEmpty<T>(r: Result<seq<T>>)
    ensures Concat(Success([]), r) == r
  {
    if r.Success? {
      assert [] + r.value == r.value;
    }
  }

  /** Moving a finished step's records into the accumulated prefix. */
  lemma ConcatShift<T>(done: seq<T>, step: seq<T>, rest: Result<seq<T>>)
    ensures Concat(Success(done), Concat(Success(step), rest)) == Concat(Success(done + step), rest)
  {
    if rest.Success? {
      assert done + (step + rest.value) == (done + step) + rest.value;
    }
  }

  /** The exception raised, if any. */
  function Raised<T>(r: Result<T>): Option<RubyError> {
    if r.Failure? then Some(r.error) else None
  }

  // ---------------------------------------------------------------------
  // The walk as a pure function of the tree and the path
  // ---------------------------------------------------------------------

  /** The records one `parse(node)` appends when the path stack is `stack`:
      the node's own files first, then its sub-directories'. `has_key?`
      exists only on a Hash. */
  function Flatten<R>(node: Raw, stack: seq<Raw>, vol: Raw, build: Builder<R>): Result<seq<R>>
    decreases node.Hash?, node, 2, 0
  {
    if !node.Hash? then Failure(NoMethodError)
    else
      Concat(
        if HasKey(node, "file") then FlattenFiles(Get(node, "file"), stack, vol, build) else Success([]),
        if HasKey(node, "directory") then FlattenFolders(Get(node, "directory"), stack, vol, build) else Success([]))
  }

  /** `handle_files`: one record for a single entry, one per element of an
      Array, nothing for any other shape. */
  function FlattenFiles<R>(f: Raw, stack: seq<Raw>, vol: Raw, build: Builder<R>): Result<seq<R>> {
    match f
    case Hash(_) =>
      var rec :- build(f, vol, stack);
      Success([rec])
    case Arr(items) => BuildEach(items, stack, vol, build)
    case _ => Success([])
  }

  function BuildEach<R>(items: seq<Raw>, stack: seq<Raw>, vol: Raw, build: Builder<R>): Result<seq<R>> {
    if items == [] then Success([])
    else
      var rec :- build(items[0], vol, stack);
      var rest :- BuildEach(items[1..], stack, vol, build);
      Success([rec] + rest)
  }

  /** `handle_folders`: a single directory, or each element of an Array, is
      walked with its name pushed on the path; any other shape is skipped. */
  function FlattenFolders<R>(d: Raw, stack: seq<Raw>, vol: Raw, build: Builder<R>): Result<seq<R>>
    decreases true, d, 1, 0
  {
    match d
    case Hash(_) => Flatten(Get(d, "contents"), stack + [Get(d, "name")], vol, build)
    case Arr(_) => FlattenFoldersFrom(d, 0, stack, vol, build)
    case _ => Success([])
  }

  /** The directories `d.items[k..]` in turn; `f[:name]` raises on an
      element that is not a Hash. */
  function FlattenFoldersFrom<R>(d: Raw, k: nat, stack: seq<Raw>, vol: Raw, build: Builder<R>)
    : Result<seq<R>>
    requires d.Arr?
    decreases true, d, 0, |d.items| - k
  {
    if k >= |d.items| then Success([])
    else
      var f := d.items[k];
      if !f.Hash? then Failure(NotAHashError(f))
      else
        Concat(
          Flatten(Get(f, "contents"), stack + [Get(f, "name")], vol, build),
          FlattenFoldersFrom(d, k + 1, stack, vol, build))
  }

  // ---------------------------------------------------------------------
  // The walker object
  // ---------------------------------------------------------------------

  class Index<R> {
    /** `@path_components`: the names of the directories being walked. */
    var pathComponents: seq<Raw>
    /** `@array_of_ltfsfiles`: the records found so far. */
    var arrayOfLtfsFiles: seq<R>
    /** `@tapedata.volumeuuid` */
    const volumeuuid: Raw
    /** `@filedata`: the `contents` of the document's top directory. */
    const filedata: Raw
    /** The `LTFSFile.new` that `handle_files` calls. */
    const build: Builder<R>

    /** The root segment stays at the bottom of the path stack. */
    ghost predicate Valid()
      reads this
    {
      |pathComponents| >= 1 && pathComponents[0] == Text("/")
    }

    constructor(volumeuuid: Raw, filedata: Raw, build: Builder<R>)
      ensures Valid()
      ensures pathComponents == [Text("/")] && arrayOfLtfsFiles == []
      ensures this.volumeuuid == volumeuuid && this.filedata == filedata && this.build == build
    {
      pathComponents := [Text("/")];
      arrayOfLtfsFiles := [];
      this.volumeuuid := volumeuuid;
      this.filedata := filedata;
      this.build := build;
    }

    /** `files`: walks the tree only while no record has been collected;
        otherwise hands back the collected records and changes nothing. */
    method Files() returns (r: Result<seq<R>>)
      requires Valid()
      modifies this
      ensures Valid()
      ensures old(arrayOfLtfsFiles) != [] ==>
        && r == Success(old(arrayOfLtfsFiles))
        && arrayOfLtfsFiles == old(arrayOfLtfsFiles)
        && pathComponents == old(pathComponents)
      ensures old(arrayOfLtfsFiles) == [] ==>
        r == Flatten(filedata, old(pathComponents), volumeuuid, build)
      ensures r.Success? ==> r.value == arrayOfLtfsFiles && pathComponents == old(pathComponents)
      ensures old(arrayOfLtfsFiles) <= arrayOfLtfsFiles
    {
      if arrayOfLtfsFiles == [] {
        var raised := Parse(filedata);
        assert pathComponents[0] == pathComponents[..|old(pathComponents)|][0];
        ghost var walked := Flatten(filedata, old(pathComponents), volumeuuid, build);
        if raised.Some? {
          assert walked == Failure(raised.value);
          return Failure(raised.value);
        }
        assert [] + walked.value == walked.value;
        assert walked == Success(arrayOfLtfsFiles);
      }
      r := Success(arrayOfLtfsFiles);
    }

    /** `parse(node)`: appends the node's records; after a normal return the
        path stack is as it was. After an exception the old records and the
        old stack are still prefixes of the new ones. */
    method Parse(node: Raw) returns (raised: Option<RubyError>)
      modifies this
      decreases node.Hash?, node, 2, 0
      ensures raised == Raised(Flatten(node, old(pathComponents), volumeuuid, build))
      ensures raised.None? ==>
        && arrayOfLtfsFiles == old(arrayOfLtfsFiles) + Flatten(node, old(pathComponents), volumeuuid, build).value
        && pathComponents == old(pathComponents)
      ensures old(arrayOfLtfsFiles) <= arrayOfLtfsFiles && old(pathComponents) <= pathComponents
    {
      if !node.Hash? {
        return Some(NoMethodError);
      }
      ghost var stack := pathComponents;
      ghost var files: Result<seq<R>> :=
        if HasKey(node, "file") then FlattenFiles(Get(node, "file"), stack, volumeuuid, build) else Success([]);
      ghost var folders: Result<seq<R>> :=
        if HasKey(node, "directory") then FlattenFolders(Get(node, "directory"), stack, volumeuuid, build)
        else Success([]);
      assert Flatten(node, stack, volumeuuid, build) == Concat(files, folders);
      if HasKey(node, "file") {
        raised := HandleFiles(Get(node, "file"));
        if raised.Some? {
          return;
        }
      }
      assert arrayOfLtfsFiles == old(arrayOfLtfsFiles) + files.value;
      if HasKey(node, "directory") {
        raised := HandleFolders(Get(node, "directory"));
        if raised.Some? {
          return;
        }
      }
      assert arrayOfLtfsFiles == old(arrayOfLtfsFiles) + files.value + folders.value;
      raised := None;
    }

    /** `handle_folders(d)`: push the name, walk the contents, pop. */
    method HandleFolders(d: Raw) returns (raised: Option<RubyError>)
      modifies this
      decreases true, d, 1, 0
      ensures raised == Raised(FlattenFolders(d, old(pathComponents), volumeuuid, build))
      ensures raised.None? ==>
        && arrayOfLtfsFiles == old(arrayOfLtfsFiles) + FlattenFolders(d, old(pathComponents), volumeuuid, build).value
        && pathComponents == old(pathComponents)
      ensures old(arrayOfLtfsFiles) <= arrayOfLtfsFiles && old(pathComponents) <= pathComponents
    {
      if d.Hash? {
        pathComponents := pathComponents + [Get(d, "name")];
        raised := Parse(Get(d, "contents"));
        if raised.Some? {
          return;
        }
        pathComponents := pathComponents[..|pathComponents| - 1];
      } else if d.Arr? {
        ghost var stack := pathComponents;
        ghost var done: seq<R> := [];
        ConcatEmpty(FlattenFoldersFrom(d, 0, stack, volumeuuid, build));
        var k := 0;
        while k < |d.items|
          invariant 0 <= k <= |d.items|
          invariant pathComponents == stack
          invariant arrayOfLtfsFiles == old(arrayOfLtfsFiles) + done
          invariant FlattenFoldersFrom(d, 0, stack, volumeuuid, build)
            == Concat(Success(done), FlattenFoldersFrom(d, k, stack, volumeuuid, build))
        {
          var f := d.items[k];
          if !f.Hash? {
            return Some(NotAHashError(f));
          }
          ghost var here := Flatten(Get(f, "contents"), stack + [Get(f, "name")], volumeuuid, build);
          pathComponents := pathComponents + [Get(f, "name")];
          raised := Parse(Get(f, "contents"));
          if raised.Some? {
            return;
          }
          pathComponents := pathComponents[..|pathComponents| - 1];
          ConcatShift(done, here.value, FlattenFoldersFrom(d, k + 1, stack, volumeuuid, build));
          done := done + here.value;
          k := k + 1;
        }
        raised := None;
      } else {
        raised := None;
      }
    }

    /** `handle_files(f)`: one `LTFSFile.new` per entry, each given the path
        stack as it is at that moment. */
    method HandleFiles(f: Raw) returns (raised: Option<RubyError>)
      modifies this
      ensures raised == Raised(FlattenFiles(f, old(pathComponents), volumeuuid, build))
      ensures raised.None? ==>
        arrayOfLtfsFiles == old(arrayOfLtfsFiles) + FlattenFiles(f, old(pathComponents), volumeuuid, build).value
      ensures pathComponents == old(pathComponents)
      ensures old(arrayOfLtfsFiles) <= arrayOfLtfsFiles
    {
      if f.Hash? {
        var rec := build(f, volumeuuid, pathComponents);
        if rec.Failure? {
          return Some(rec.error);
        }
        arrayOfLtfsFiles := arrayOfLtfsFiles + [rec.value];
      } else if f.Arr? {
        ghost var done: seq<R> := [];
        ConcatEmpty(BuildEach(f.items, pathComponents, volumeuuid, build));
        var k := 0;
        while k < |f.items|
          invariant 0 <= k <= |f.items|
          invariant pathComponents == old(pathComponents)
          invariant arrayOfLtfsFiles == old(arrayOfLtfsFiles) + done
          invariant BuildEach(f.items, pathComponents, volumeuuid, build)
            == Concat(Success(done), BuildEach(f.items[k..], pathComponents, volumeuuid, build))
        {
          assert f.items[k..][1..] == f.items[k + 1..];
          var rec := build(f.items[k], volumeuuid, pathComponents);
          if rec.Failure? {
            return Some(rec.error);
          }
          arrayOfLtfsFiles := arrayOfLtfsFiles + [rec.value];
          ConcatShift(done, [rec.value], BuildEach(f.items[k + 1..], pathComponents, volumeuuid, build));
          done := done + [rec.value];
          k := k + 1;
        }
        assert f.items[k..] == [];
      }
      raised := None;
    }
  }
}
