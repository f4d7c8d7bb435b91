/** `LTFSFile#initialize`, the record built for one `file` element, in its
    two variants: bin/ltfs.rb keeps every field as the raw decoded value;
    lib/ltfs.rb parses the timestamps, copies the extent fields onto the
    record and turns `editable` into a boolean. */
module LtfsFile {
  import opened XmlNode
  import opened RubyCore
  import opened LtfsExtentInfo

  /** `length`: the raw value, or the Integer 0 when the element is absent. */
  function LengthOf(input: Raw): Value {
    if Get(input, "length").Nil? then Int(0) else Node(Get(input, "length"))
  }

  // ---------------------------------------------------------------------
  // bin/ltfs.rb
  // ---------------------------------------------------------------------

  /** An `LTFSFile` of bin/ltfs.rb: its readers and the extent object it
      delegates five more readers to. */
  datatype FileRecord = FileRecord(
    volumeuuid: Raw,
    filepath: string,
    filename: Raw,
    editable: Raw,
    creationtime: Raw,
    changetime: Raw,
    modifytime: Raw,
    accesstime: Raw,
    backuptime: Raw,
    fileuid: Raw,
    length: Value,
    extentinfo: ExtentInfo)
  {
    function Fileoffset(): Value { extentinfo.fileoffset }
    function Partition(): Value { extentinfo.partition }
    function Startblock(): Value { extentinfo.startblock }
    function Byteoffset(): Value { extentinfo.byteoffset }
    function Bytecount(): Value { extentinfo.bytecount }
  }

  /** `LTFSFile.new(input, volumeuuid, pathname)`: the path is joined first,
      then the fields are read from `input`, and the extents are handed to
      `LTFSExtentInfo`. */
  function BuildFile(input: Raw, volumeuuid: Raw, pathname: seq<Raw>): (r: Result<FileRecord>)
    ensures r.Success? <==>
      FileJoin(pathname).Success? && input.Hash? && Reconcile(Get(input, "extentinfo")).Success?
    ensures r.Success? ==>
      && r.value.volumeuuid == volumeuuid
      && FileJoin(pathname) == Success(r.value.filepath)
      && r.value.extentinfo == Reconcile(Get(input, "extentinfo")).value
  {
    var filepath :- FileJoin(pathname);
    var filename :- Lookup(input, "name");
    var extentinfo :- Reconcile(Get(input, "extentinfo"));
    Success(FileRecord(
      volumeuuid, filepath, filename, Get(input, "readonly"),
      Get(input, "creationtime"), Get(input, "changetime"), Get(input, "modifytime"),
      Get(input, "accesstime"), Get(input, "backuptime"), Get(input, "fileuid"),
      LengthOf(input), extentinfo))
  }

  /** A record built at a path stack of the root "/" followed by plain
      directory names: it exists exactly when the file element is a Hash
      whose extents reconcile; it carries the volume's uuid, the path "/"
      followed by the names joined with "/", the file's own name, `readonly`
      as the `editable` reader, a length of 0 when the element has none,
      and the reconciled extents. */
  lemma BuildFileAt(input: Raw, volumeuuid: Raw, names: seq<Raw>)
    requires AllText(names)
    ensures var r := BuildFile(input, volumeuuid, [Text("/")] + names);
      r.Success? <==> input.Hash? && Reconcile(Get(input, "extentinfo")).Success?
    ensures var r := BuildFile(input, volumeuuid, [Text("/")] + names);
      r.Success? ==>
        && r.value.volumeuuid == volumeuuid
        && r.value.filepath == "/" + Join(Texts(names), "/")
        && r.value.filename == Get(input, "name")
        && r.value.editable == Get(input, "readonly")
        && r.value.creationtime == Get(input, "creationtime")
        && r.value.changetime == Get(input, "changetime")
        && r.value.modifytime == Get(input, "modifytime")
        && r.value.accesstime == Get(input, "accesstime")
        && r.value.backuptime == Get(input, "backuptime")
        && r.value.fileuid == Get(input, "fileuid")
        && (Get(input, "length").Nil? ==> r.value.length == Int(0))
        && (!Get(input, "length").Nil? ==> r.value.length == Node(Get(input, "length")))
        && r.value.extentinfo == Reconcile(Get(input, "extentinfo")).value
  {
    FileJoinOfNames(names);
  }

  /** A file directly under the root gets the path "/". */
  lemma BuildFileAtRoot(input: Raw, volumeuuid: Raw)
    ensures BuildFile(input, volumeuuid, [Text("/")]).Success? ==>
      BuildFile(input, volumeuuid, [Text("/")]).value.filepath == "/"
  {
    FileJoinOfNames([]);
    assert [Text("/")] + [] == [Text("/")];
  }

  /** A file reached inside Videos/2024 gets the path "/Videos/2024". */
  lemma BuildFileInVideos2024(input: Raw, volumeuuid: Raw)
    ensures var r := BuildFile(input, volumeuuid, [Text("/"), Text("Videos"), Text("2024")]);
      r.Success? ==> r.value.filepath == "/Videos/2024"
  {
    FileJoinTwoNames("Videos", "2024");
    assert "/" + "Videos" + "/" + "2024" == "/Videos/2024";
  }

  // ---------------------------------------------------------------------
  // lib/ltfs.rb
  // ---------------------------------------------------------------------

  /** An `LTFSFile` of lib/ltfs.rb, over the type `T` of the values
      `DateTime.parse` returns. `length` is the instance variable `@length`. */
  datatype LibFileRecord<T> = LibFileRecord(
    path: string,
    basename: Raw,
    birthtime: T,
    ctime: T,
    mtime: T,
    atime: T,
    backuptime: T,
    fileuid: Raw,
    fileoffset: Value,
    partition: Value,
    startblock: Value,
    byteoffset: Value,
    bytecount: Value,
    length: Value,
    editable: bool)
  {
    /** The `size` reader as written: it reads `@size`, which `initialize`
        never assigns (it assigns `@length`), so it is always nil; `length`
        is an alias of it. */
    function SizeAsWritten(): Value { Node(Nil) }

    /** The `size` reader as evidently intended: the stored length. */
    function Size(): Value { length }
  }

  /** `DateTime.parse(v)`: only a String is accepted, and `parse` says
      whether it can read it. */
  function ParseDateTime<T>(v: Raw, parse: string -> Option<T>): (r: Result<T>)
    ensures r.Success? <==> v.Text? && parse(v.s).Some?
    ensures r.Success? ==> r.value == parse(v.s).value
    ensures v.Text? && parse(v.s).None? ==> r == Failure(DateError)
  {
    if !v.Text? then Failure(TypeError)
    else if parse(v.s).None? then Failure(DateError)
    else Success(parse(v.s).value)
  }

  /** `LTFSFile.new(input, pathname)` of lib/ltfs.rb, in statement order. */
  function BuildLibFile<T>(input: Raw, pathname: seq<Raw>, parse: string -> Option<T>)
    : Result<LibFileRecord<T>>
  {
    var path :- FileJoin(pathname);
    var basename :- Lookup(input, "name");
    var birthtime :- ParseDateTime(Get(input, "creationtime"), parse);
    var ctime :- ParseDateTime(Get(input, "changetime"), parse);
    var mtime :- ParseDateTime(Get(input, "modifytime"), parse);
    var atime :- ParseDateTime(Get(input, "accesstime"), parse);
    var backuptime :- ParseDateTime(Get(input, "backuptime"), parse);
    var extentinfo :- Reconcile(Get(input, "extentinfo"));
    Success(LibFileRecord(
      path, basename, birthtime, ctime, mtime, atime, backuptime, Get(input, "fileuid"),
      extentinfo.fileoffset, extentinfo.partition, extentinfo.startblock,
      extentinfo.byteoffset, extentinfo.bytecount,
      LengthOf(input), Get(input, "editable") == Text("true")))
  }

  /** Every timestamp of a file element is a String the parser reads. */
  predicate TimesReadable<T>(input: Raw, parse: string -> Option<T>) {
    && ParseDateTime(Get(input, "creationtime"), parse).Success?
    && ParseDateTime(Get(input, "changetime"), parse).Success?
    && ParseDateTime(Get(input, "modifytime"), parse).Success?
    && ParseDateTime(Get(input, "accesstime"), parse).Success?
    && ParseDateTime(Get(input, "backuptime"), parse).Success?
  }

  /** lib's record exists exactly when the file element is a Hash, all five
      timestamps parse and the extents reconcile (a bad timestamp is an
      error, never a default); `editable` is true exactly when the
      `editable` element is the string "true", false when it is absent;
      the length is 0 when absent; the extent readers are the reconciled
      ones. */
  lemma BuildLibFileAt<T>(input: Raw, names: seq<Raw>, parse: string -> Option<T>)
    requires AllText(names)
    ensures var r := BuildLibFile(input, [Text("/")] + names, parse);
      r.Success? <==>
        input.Hash? && TimesReadable(input, parse) && Reconcile(Get(input, "extentinfo")).Success?
    ensures var r := BuildLibFile(input, [Text("/")] + names, parse);
      r.Success? ==>
        && r.value.path == "/" + Join(Texts(names), "/")
        && r.value.basename == Get(input, "name")
        && r.value.birthtime == parse(Get(input, "creationtime").s).value
        && r.value.ctime == parse(Get(input, "changetime").s).value
        && r.value.mtime == parse(Get(input, "modifytime").s).value
        && r.value.atime == parse(Get(input, "accesstime").s).value
        && r.value.backuptime == parse(Get(input, "backuptime").s).value
        && r.value.fileuid == Get(input, "fileuid")
        && (r.value.editable <==> Get(input, "editable") == Text("true"))
        && (Get(input, "length").Nil? ==> r.value.Size() == Int(0))
        && (!Get(input, "length").Nil? ==> r.value.Size() == Node(Get(input, "length")))
        && var info := Reconcile(Get(input, "extentinfo")).value;
           && r.value.bytecount == info.bytecount
           && r.value.byteoffset == info.byteoffset
           && r.value.startblock == info.startblock
           && r.value.fileoffset == info.fileoffset
           && r.value.partition == info.partition
  {
    FileJoinOfNames(names);
  }

  /** lib's record path is `File.join` of the stack it was given. */
  lemma BuildLibFilePath<T>(input: Raw, pathname: seq<Raw>, parse: string -> Option<T>)
    ensures BuildLibFile(input, pathname, parse).Success? ==>
      && FileJoin(pathname).Success?
      && BuildLibFile(input, pathname, parse).value.path == FileJoin(pathname).value
  {
  }

  /** As written, lib's `size` (and its alias `length`) never returns the
      stored length: for every file element that has a `length`, the reader
      gives nil while the corrected reader gives that length. */
  lemma SizeReaderLosesLength<T>(input: Raw, pathname: seq<Raw>, parse: string -> Option<T>)
    requires BuildLibFile(input, pathname, parse).Success?
    requires Get(input, "length").Text?
    ensures var rec := BuildLibFile(input, pathname, parse).value;
      && rec.SizeAsWritten() == Node(Nil)
      && rec.Size() == Node(Get(input, "length"))
      && rec.SizeAsWritten() != rec.Size()
  {
  }
}
