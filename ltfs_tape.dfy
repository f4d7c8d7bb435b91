/** `LTFSTape#initialize` and `LTFSIndex#initialize`: reading the tape's
    header from the decoded document and setting up the walker. The logic is
    the same in bin/ltfs.rb and lib/ltfs.rb. Of the header only the fields
    the rest of the reader uses are kept: the volume uuid every record
    carries, and the volume name. */
module LtfsTape {
  import opened XmlNode
  import opened LtfsIndex

  datatype Tape = Tape(volumeuuid: Raw, volumename: Raw)

  /** `LTFSTape.new(input)`: the lookups that can raise, in statement order
      (`[:location]`, `[:previousgenerationlocation]` and `[:directory]` must
      be Hashes), then the volume-name rule: an empty `<name/>` decodes to a
      Hash and gives "Unnamed Tape", any other name is kept as it is. */
  function TapeOf(input: Raw): Result<Tape> {
    var volumeuuid :- Lookup(input, "volumeuuid");
    var indexpartition :- Lookup(Get(input, "location"), "partition");
    var previousgenerationpartition :- Lookup(Get(input, "previousgenerationlocation"), "partition");
    var name :- Lookup(Get(input, "directory"), "name");
    Success(Tape(volumeuuid, if name.Hash? then Text("Unnamed Tape") else name))
  }

  /** The header reads exactly when the document, its `location`, its
      `previousgenerationlocation` and its top `directory` are elements with
      children; the tape then carries the document's volume uuid, and its
      name is "Unnamed Tape" exactly when the top directory's name is empty,
      the name itself otherwise, so it is never a Hash. */
  lemma VolumeNameRule(input: Raw)
    ensures TapeOf(input).Success? <==>
      && input.Hash?
      && Get(input, "location").Hash?
      && Get(input, "previousgenerationlocation").Hash?
      && Get(input, "directory").Hash?
    ensures TapeOf(input).Success? ==>
      var name := Get(Get(input, "directory"), "name");
      && TapeOf(input).value.volumeuuid == Get(input, "volumeuuid")
      && (name.Hash? ==> TapeOf(input).value.volumename == Text("Unnamed Tape"))
      && (!name.Hash? ==> TapeOf(input).value.volumename == name)
      && !TapeOf(input).value.volumename.Hash?
  {
  }

  /** `LTFSIndex.new(file)` on the decoded document `doc`: the header is read
      first, then the top directory's `contents` become the tree to walk, and
      the walker starts at the root with nothing collected. */
  method Open<R>(doc: Raw, build: Builder<R>) returns (r: Result<Index<R>>)
    ensures r.Success? <==> TapeOf(doc).Success?
    ensures r.Failure? ==> r.error == TapeOf(doc).error
    ensures r.Success? ==>
      && fresh(r.value)
      && r.value.Valid()
      && r.value.pathComponents == [Text("/")]
      && r.value.arrayOfLtfsFiles == []
      && r.value.volumeuuid == TapeOf(doc).value.volumeuuid
      && r.value.filedata == Get(Get(doc, "directory"), "contents")
      && r.value.build == build
  {
    var tape := TapeOf(doc);
    if tape.Failure? {
      return Failure(tape.error);
    }
    var index := new Index(tape.value.volumeuuid, Get(Get(doc, "directory"), "contents"), build);
    return Success(index);
  }

  /** `LTFSIndex.new(file).files`: the records of the whole tape, each built
      with the document's volume uuid, from a walk of the top directory's
      contents that starts at "/"; a header that cannot be read raises
      before anything is walked. */
  method ListFiles<R>(doc: Raw, build: Builder<R>) returns (r: Result<seq<R>>)
    ensures TapeOf(doc).Failure? ==> r == Failure(TapeOf(doc).error)
    ensures TapeOf(doc).Success? ==>
      r == Flatten(Get(Get(doc, "directory"), "contents"), [Text("/")], Get(doc, "volumeuuid"), build)
  {
    VolumeNameRule(doc);
    var index := Open(doc, build);
    if index.Failure? {
      return Failure(index.error);
    }
    r := index.value.Files();
  }
}
