/** The `$JSON` document as a record, and the functions of other libraries as parameters. */
module Json {
  import opened Wrappers
  import opened Bytes

  datatype Header = Header(
    imageId: string,
    fileNumber: u16,
    incrementNumber: u16,
    /** The numbers an earlier merge absorbed. */
    mergedFiles: seq<i64>,
    splitFile: bool,
    indexFilePosition: u64,
    deltaIndex: bool,
    backupType: string)
  {
    /** True when the file carries a complete index of its own. */
    predicate IsFullIndex(): (full: bool)
      ensures full <==> !deltaIndex && !splitFile
    {
      !deltaIndex && !splitFile
    }

    predicate IsDifferential(): (differential: bool)
      ensures differential <==> backupType == "diff"
    {
      backupType == "diff"
    }

    /** Every file number whose blocks resolve to this file. */
    function Claims(): set<u16> {
      {fileNumber} + set n: u16 | n in mergedFiles
    }
  }

  /** The numbers the document records for a disk and its partitions; absent fields are possible. */
  datatype DocDisk = DocDisk(number: Option<u16>, partitions: seq<Option<u16>>)

  datatype Doc = Doc(
    header: Header,
    disks: seq<DocDisk>,
    /** The compression and encryption settings. */
    settings: string,
    /** Everything else, carried through as one value. */
    rest: string)
  {
    function Shape(): (shape: seq<nat>)
      ensures |shape| == |disks| && forall d :: 0 <= d < |disks| ==> shape[d] == |disks[d].partitions|
    {
      seq(|disks|, d requires 0 <= d < |disks| => |disks[d].partitions|)
    }
  }

  /** What the rewrite of the carried-through part of a document takes from outside the plan. */
  datatype Stamp = Stamp(
    /** The file name of the output. */
    name: string,
    /** The carried-through part of the base's document, for the disk sizes. */
    base: string)

  /** And what it takes from the plan: the output's number, what it absorbed, and its kind. */
  datatype Patch = Patch(stamp: Stamp, outNumber: u16, absorbed: set<u16>, syntheticFull: bool)

  /**
   * What this program calls and does not define: the hash, the decompressor, the document codec, the
   * rewrite of the carried-through part of a document for an output, and the undoing of one block
   * under its disk number, partition number and block index.
   */
  datatype Foreign = Foreign(
    md5: seq<byte> -> Hash,
    unzip: seq<byte> -> Option<seq<byte>>,
    encode: Doc -> seq<byte>,
    decode: seq<byte> -> Option<Doc>,
    restamp: (string, Patch) -> Option<string>,
    plaintext: (u16, u16, u32, seq<byte>) -> Option<seq<byte>>)
  {
    ghost predicate RoundTrips() {
      forall doc :: decode(encode(doc)) == Some(doc)
    }
  }

  /** The claims as a list: the file's own number first, then each absorbed number once. */
  method OwnedFileNumbers(h: Header) returns (out: seq<u16>)
    ensures forall n: u16 :: n in out <==> n in h.Claims()
    ensures |out| > 0 && out[0] == h.fileNumber
    ensures forall i, j :: 0 <= i < j < |out| ==> out[i] != out[j]
  {
    out := [h.fileNumber];
    for i := 0 to |h.mergedFiles|
      invariant forall n: u16 :: n in out <==> n == h.fileNumber || n in h.mergedFiles[..i]
      invariant |out| > 0 && out[0] == h.fileNumber
      invariant forall i, j :: 0 <= i < j < |out| ==> out[i] != out[j]
    {
      var n := h.mergedFiles[i];
      assert h.mergedFiles[..i + 1] == h.mergedFiles[..i] + [n];
      if 0 <= n < 0x1_0000 && n !in out {
        out := out + [n];
      }
    }
    assert h.mergedFiles[..|h.mergedFiles|] == h.mergedFiles;
  }
}
