/** `LTFSExtentInfo`: turns a file's `extentinfo` element into the five
    values the reader exposes (bytecount, byteoffset, startblock, fileoffset,
    partition), whatever shape the tape writer left it in. The class is the
    same in bin/ltfs.rb and lib/ltfs.rb. */
module LtfsExtentInfo {
  import opened XmlNode
  import opened RubyCore

  /** The five readers of an `LTFSExtentInfo` object. Each holds an Integer
      or a String depending on the branch that set it. */
  datatype ExtentInfo = ExtentInfo(
    bytecount: Value,
    byteoffset: Value,
    startblock: Value,
    fileoffset: Value,
    partition: Value)

  /** `handle_missing_extent`: four zeros and the partition letter "b". */
  const MissingExtent := ExtentInfo(Int(0), Int(0), Int(0), Int(0), Node(Text("b")))

  /** No `extentinfo` at all, or one without an `extent`. */
  predicate IsMissing(extentinfo: Raw) {
    extentinfo.Nil? || (extentinfo.Hash? && Get(extentinfo, "extent").Nil?)
  }

  /** The five per-field lists `handle_extent_array` builds, one entry per
      extent. */
  datatype Columns = Columns(
    bytecounts: seq<Raw>,
    byteoffsets: seq<Raw>,
    startblocks: seq<Raw>,
    fileoffsets: seq<Raw>,
    partitions: seq<Raw>)

  const NoColumns := Columns([], [], [], [], [])

  /** Every list has one entry per extent, and entry `i` is the raw field
      value of extent `i`. */
  predicate ColumnsOf(c: Columns, extents: seq<Raw>) {
    && |c.bytecounts| == |extents|
    && |c.byteoffsets| == |extents|
    && |c.startblocks| == |extents|
    && |c.fileoffsets| == |extents|
    && |c.partitions| == |extents|
    && forall i :: 0 <= i < |extents| ==>
         && c.bytecounts[i] == Get(extents[i], "bytecount")
         && c.byteoffsets[i] == Get(extents[i], "byteoffset")
         && c.startblocks[i] == Get(extents[i], "startblock")
         && c.fileoffsets[i] == Get(extents[i], "fileoffset")
         && c.partitions[i] == Get(extents[i], "partition")
  }

  predicate AllHashes(extents: seq<Raw>) {
    forall i :: 0 <= i < |extents| ==> extents[i].Hash?
  }

  function AppendExtent(c: Columns, f: Raw): Columns {
    Columns(
      c.bytecounts + [Get(f, "bytecount")],
      c.byteoffsets + [Get(f, "byteoffset")],
      c.startblocks + [Get(f, "startblock")],
      c.fileoffsets + [Get(f, "fileoffset")],
      c.partitions + [Get(f, "partition")])
  }

  /** What the `each` loop of `handle_extent_array` collects: it succeeds
      exactly when every extent is a Hash (otherwise `f[:bytecount]` raises
      on the first one that is not), and then holds the extents' fields in
      order, all five lists of the same length. */
  function CollectColumns(extents: seq<Raw>): (r: Result<Columns>)
    ensures r.Success? <==> AllHashes(extents)
    ensures r.Success? ==> ColumnsOf(r.value, extents)
  {
    if extents == [] then Success(NoColumns)
    else
      var front := extents[..|extents| - 1];
      var f := extents[|extents| - 1];
      assert forall i :: 0 <= i < |front| ==> front[i] == extents[i];
      var before :- CollectColumns(front);
      if !f.Hash? then Failure(NotAHashError(f))
      else
        assert extents == front + [f];
        AppendExtentKeepsColumns(before, front, f);
        Success(AppendExtent(before, f))
  }

  /** Appending one extent's fields keeps the lists lined up with the extents. */
  lemma AppendExtentKeepsColumns(c: Columns, extents: seq<Raw>, f: Raw)
    requires ColumnsOf(c, extents)
    ensures ColumnsOf(AppendExtent(c, f), extents + [f])
  {
    var es := extents + [f];
    assert forall i :: 0 <= i < |extents| ==> es[i] == extents[i];
  }

  /** Once a prefix of the extents fails, the whole list fails the same way. */
  lemma {:induction false} CollectFailureExtends(extents: seq<Raw>, j: nat)
    requires j <= |extents|
    requires CollectColumns(extents[..j]).Failure?
    ensures CollectColumns(extents) == CollectColumns(extents[..j])
  {
    if j < |extents| {
      var front := extents[..|extents| - 1];
      assert front[..j] == extents[..j];
      CollectFailureExtends(front, j);
    } else {
      assert extents[..j] == extents;
    }
  }

  /** `handle_extent_array`'s loop: five lists filled one extent at a time. */
  method HandleExtentArray(extents: seq<Raw>) returns (r: Result<Columns>)
    ensures r == CollectColumns(extents)
  {
    var bytecounts, byteoffsets, startblocks, fileoffsets, partitions := [], [], [], [], [];
    var k := 0;
    while k < |extents|
      invariant 0 <= k <= |extents|
      invariant CollectColumns(extents[..k])
        == Success(Columns(bytecounts, byteoffsets, startblocks, fileoffsets, partitions))
    {
      var f := extents[k];
      assert extents[..k + 1][..k] == extents[..k];
      if !f.Hash? {
        assert CollectColumns(extents[..k + 1]) == Failure(NotAHashError(f));
        CollectFailureExtends(extents, k + 1);
        return Failure(NotAHashError(f));
      }
      bytecounts := bytecounts + [Get(f, "bytecount")];
      byteoffsets := byteoffsets + [Get(f, "byteoffset")];
      startblocks := startblocks + [Get(f, "startblock")];
      fileoffsets := fileoffsets + [Get(f, "fileoffset")];
      partitions := partitions + [Get(f, "partition")];
      k := k + 1;
    }
    assert extents[..k] == extents;
    r := Success(Columns(bytecounts, byteoffsets, startblocks, fileoffsets, partitions));
  }

  /** The comma-joined Strings `handle_extent_array` stores. */
  function JoinColumns(c: Columns): ExtentInfo {
    ExtentInfo(
      Node(Text(ArrayJoin(c.bytecounts, ","))),
      Node(Text(ArrayJoin(c.byteoffsets, ","))),
      Node(Text(ArrayJoin(c.startblocks, ","))),
      Node(Text(ArrayJoin(c.fileoffsets, ","))),
      Node(Text(ArrayJoin(c.partitions, ","))))
  }

  /** What `to_i` makes of one field of a single extent, when it has one. */
  predicate Readable(v: Raw) {
    v.Nil? || v.Text?
  }

  function IntOf(v: Raw): int
    requires Readable(v)
  {
    if v.Text? then ToI(v.s) else 0
  }

  /** `extent[key].to_i`: it raises when `extent` is not a Hash or the field
      is itself an element with children, and otherwise reads the field. */
  function FieldToI(extent: Raw, key: string): (r: Result<int>)
    ensures r.Success? <==> extent.Hash? && Readable(Get(extent, key))
    ensures r.Success? ==> r.value == IntOf(Get(extent, key))
  {
    var v :- Lookup(extent, key);
    RawToI(v)
  }

  /** `handle_single_values`. The `|| 0` and `|| 'b'` fallbacks of the
      source are not written out: `to_i` never yields nil, so they never
      apply (see `ReconcileSingle`). */
  function HandleSingleValues(extent: Raw): (r: Result<ExtentInfo>)
    ensures r.Success? <==>
      && extent.Hash?
      && Readable(Get(extent, "bytecount")) && Readable(Get(extent, "byteoffset"))
      && Readable(Get(extent, "startblock")) && Readable(Get(extent, "fileoffset"))
      && Readable(Get(extent, "partition"))
    ensures r.Success? ==>
      r.value == ExtentInfo(
        Int(IntOf(Get(extent, "bytecount"))), Int(IntOf(Get(extent, "byteoffset"))),
        Int(IntOf(Get(extent, "startblock"))), Int(IntOf(Get(extent, "fileoffset"))),
        Int(IntOf(Get(extent, "partition"))))
  {
    var bytecount :- FieldToI(extent, "bytecount");
    var byteoffset :- FieldToI(extent, "byteoffset");
    var startblock :- FieldToI(extent, "startblock");
    var fileoffset :- FieldToI(extent, "fileoffset");
    var partition :- FieldToI(extent, "partition");
    Success(ExtentInfo(Int(bytecount), Int(byteoffset), Int(startblock), Int(fileoffset), Int(partition)))
  }

  /** `LTFSExtentInfo.new(extentinfo)`: the three-way split on the shape of
      `extent`. */
  function Reconcile(extentinfo: Raw): Result<ExtentInfo> {
    if extentinfo.Nil? then Success(MissingExtent)
    else
      var extent :- Lookup(extentinfo, "extent");
      if extent.Nil? then Success(MissingExtent)
      else if extent.Arr? then
        var c :- CollectColumns(extent.items);
        Success(JoinColumns(c))
      else HandleSingleValues(extent)
  }

  // ---------------------------------------------------------------------
  // Properties of the reconciler
  // ---------------------------------------------------------------------

  /** The zeros-and-"b" result comes exactly from a missing `extentinfo` or
      `extent`: the other branches cannot produce it. */
  lemma ReconcileMissing(extentinfo: Raw)
    ensures Reconcile(extentinfo) == Success(MissingExtent) <==> IsMissing(extentinfo)
  {
  }

  /** An `extentinfo` that is a String or an Array, or an `extent` that is a
      String, is not something `[:key]` can be applied to. */
  lemma ReconcileMalformed(extentinfo: Raw)
    ensures (extentinfo.Text? || extentinfo.Arr?) ==> Reconcile(extentinfo) == Failure(TypeError)
    ensures extentinfo.Hash? && Get(extentinfo, "extent").Text? ==> Reconcile(extentinfo) == Failure(TypeError)
  {
  }

  /** A single extent (a Hash) gives the `to_i` of each of its five fields,
      0 for an absent one, and fails only when a field is itself an element
      with children or attributes (Hash#to_i does not exist). Every field,
      the partition included, is an Integer: the `'b'` fallback never
      fires, and a partition letter becomes 0. */
  lemma ReconcileSingle(extentinfo: Raw)
    requires extentinfo.Hash? && Get(extentinfo, "extent").Hash?
    ensures var e := Get(extentinfo, "extent");
      Reconcile(extentinfo).Success? <==>
        && Readable(Get(e, "bytecount")) && Readable(Get(e, "byteoffset"))
        && Readable(Get(e, "startblock")) && Readable(Get(e, "fileoffset"))
        && Readable(Get(e, "partition"))
    ensures var e := Get(extentinfo, "extent");
      Reconcile(extentinfo).Success? ==>
        Reconcile(extentinfo).value == ExtentInfo(
          Int(IntOf(Get(e, "bytecount"))), Int(IntOf(Get(e, "byteoffset"))),
          Int(IntOf(Get(e, "startblock"))), Int(IntOf(Get(e, "fileoffset"))),
          Int(IntOf(Get(e, "partition"))))
  {
  }

  /** A single extent whose fields are written as decimal numbers reads
      back exactly those numbers, while its partition letter ("a" or "b")
      reads as the Integer 0. */
  lemma ReconcileSingleNumbers(extentinfo: Raw, bytecount: int, byteoffset: int, startblock: int, fileoffset: int)
    requires extentinfo.Hash? && Get(extentinfo, "extent").Hash?
    requires var e := Get(extentinfo, "extent");
      && Get(e, "bytecount") == Text(IntToS(bytecount))
      && Get(e, "byteoffset") == Text(IntToS(byteoffset))
      && Get(e, "startblock") == Text(IntToS(startblock))
      && Get(e, "fileoffset") == Text(IntToS(fileoffset))
      && (Get(e, "partition") == Text("a") || Get(e, "partition") == Text("b"))
    ensures Reconcile(extentinfo)
      == Success(ExtentInfo(Int(bytecount), Int(byteoffset), Int(startblock), Int(fileoffset), Int(0)))
  {
    ReconcileSingle(extentinfo);
    ReadsBack(bytecount);
    ReadsBack(byteoffset);
    ReadsBack(startblock);
    ReadsBack(fileoffset);
    ToIOfNonNumeric("a");
    ToIOfNonNumeric("b");
  }

  lemma ReadsBack(n: int)
    ensures ToI(IntToS(n)) == n
  {
    ToIReadsIntToS(n, []);
    assert IntToS(n) + [] == IntToS(n);
  }

  /** A field of the multiple-extent case holds no comma of its own. */
  predicate CommaFree(v: Raw) {
    v.Nil? || (v.Text? && ',' !in v.s)
  }

  /** The list of one field over all extents. */
  function Column(extents: seq<Raw>, key: string): (col: seq<Raw>)
    ensures |col| == |extents|
    ensures forall i :: 0 <= i < |extents| ==> col[i] == Get(extents[i], key)
  {
    seq(|extents|, i requires 0 <= i < |extents| => Get(extents[i], key))
  }

  /** Splitting a joined field at ',' gives back one entry per extent, in
      extent order (nil entries as empty strings), when no value holds a
      comma of its own. */
  lemma {:induction false} SplitJoinedColumn(col: seq<Raw>)
    requires |col| >= 1
    requires forall i :: 0 <= i < |col| ==> CommaFree(col[i])
    ensures Split(ArrayJoin(col, ","), ',') == DisplayEach(col, ",")
  {
    var ds := DisplayEach(col, ",");
    forall i | 0 <= i < |ds|
      ensures ',' !in ds[i]
    {
      assert ds[i] == Display(col[i], ",");
    }
    SplitJoin(ds, ',');
  }

  /** An Array of extents makes every field the ','-join of that field over
      the extents, in extent order; it fails exactly when some extent is not
      a Hash. With comma-free values, splitting each of the five Strings at
      ',' gives five lists of the same length, the number of extents, whose
      entries line up extent by extent. */
  lemma ReconcileArray(extentinfo: Raw)
    requires extentinfo.Hash? && Get(extentinfo, "extent").Arr?
    ensures var es := Get(extentinfo, "extent").items;
      Reconcile(extentinfo).Success? <==> AllHashes(es)
    ensures var es := Get(extentinfo, "extent").items;
      Reconcile(extentinfo).Success? ==>
        Reconcile(extentinfo).value == ExtentInfo(
          Node(Text(ArrayJoin(Column(es, "bytecount"), ","))),
          Node(Text(ArrayJoin(Column(es, "byteoffset"), ","))),
          Node(Text(ArrayJoin(Column(es, "startblock"), ","))),
          Node(Text(ArrayJoin(Column(es, "fileoffset"), ","))),
          Node(Text(ArrayJoin(Column(es, "partition"), ","))))
  {
    var es := Get(extentinfo, "extent").items;
    var r := CollectColumns(es);
    if r.Success? {
      var c := r.value;
      assert c.bytecounts == Column(es, "bytecount");
      assert c.byteoffsets == Column(es, "byteoffset");
      assert c.startblocks == Column(es, "startblock");
      assert c.fileoffsets == Column(es, "fileoffset");
      assert c.partitions == Column(es, "partition");
    }
  }

  /** The per-field lists of the multiple-extent case can be read back from
      the joined Strings, and all five have one entry per extent. */
  lemma ArrayFieldsRecoverable(extentinfo: Raw, key: string)
    requires extentinfo.Hash? && Get(extentinfo, "extent").Arr?
    requires key in {"bytecount", "byteoffset", "startblock", "fileoffset", "partition"}
    requires var es := Get(extentinfo, "extent").items;
      |es| >= 1 && AllHashes(es) && forall i :: 0 <= i < |es| ==> CommaFree(Get(es[i], key))
    ensures Reconcile(extentinfo).Success?
    ensures var es := Get(extentinfo, "extent").items;
      var info := Reconcile(extentinfo).value;
      var field :=
        if key == "bytecount" then info.bytecount
        else if key == "byteoffset" then info.byteoffset
        else if key == "startblock" then info.startblock
        else if key == "fileoffset" then info.fileoffset
        else info.partition;
      field.Node? && field.raw.Text? && Split(field.raw.s, ',') == DisplayEach(Column(es, key), ",")
  {
    var es := Get(extentinfo, "extent").items;
    ReconcileArray(extentinfo);
    SplitJoinedColumn(Column(es, key));
  }
}
