/** The smallest files of the format, one disk with one partition each, and what a merge up to one of them writes. */
module Smallest {
  import opened Wrappers
  import opened Bytes
  import opened Index
  import Block
  import opened Json
  import opened Reader
  import opened Plan
  import opened Write
  import opened Output
  import opened Merge
  import opened Encoding

  // ----- one file -----

  const LIST: Block.Header := Block.Header(Zeros(8), 0, Zeros(16), Block.Flags.Plain(true))

  /** An `$AUXDATA` block without the end flag, as the first of two blocks of a root list. */
  const AUX: Block.Header := Block.Header(Block.AUXDATA, 0, Zeros(16), Block.Flags.Plain(false))

  function RootHeader(json: seq<byte>, ends: bool): Block.Header
    requires |json| < U32_LIMIT
  {
    Block.Header(Block.JSON, |json|, Zeros(16), Block.Flags.Plain(ends))
  }

  function PlainIndex(index: PartitionIndex): Block.Header
    requires Representable(index)
  {
    Block.Header(Block.INDEX, |IndexBytes(index)|, Zeros(16), Block.Flags.Plain(true))
  }

  /** A header's place and the list it makes alone. */
  function Alone(header: Block.Header, at: nat): Block.BlockList {
    var block := Block.Located(header, at);
    Block.BlockList([block], block.End())
  }

  function IndexAt(data: seq<byte>): nat {
    |data| + Block.HEADER_LEN
  }

  function RootAt(data: seq<byte>, index: PartitionIndex): nat {
    IndexAt(data) + Block.HEADER_LEN + |IndexBytes(index)|
  }

  /** Where the document's header lies: first of the root list, or after `$AUXDATA`. */
  function JsonAt(data: seq<byte>, index: PartitionIndex, aux: bool): nat {
    RootAt(data, index) + if aux then Block.HEADER_LEN else 0
  }

  function AuxPart(aux: bool): seq<byte> {
    if aux then AUX.ToBytes() else []
  }

  /** A document, stored blocks and an index that belong together, and are small enough for every field. */
  predicate Fits(doc: Doc, data: seq<byte>, index: PartitionIndex) {
    && |doc.disks| == 1 && |doc.disks[0].partitions| == 1 && !doc.header.splitFile
    && doc.header.indexFilePosition == |data|
    && doc.header.deltaIndex == index.blocks.Deltas?
    && IsSmall(Encode(doc), data, index)
  }

  predicate IsSmall(json: seq<byte>, data: seq<byte>, index: PartitionIndex) {
    |json| < U32_LIMIT && |IndexBytes(index)| < U32_LIMIT && |data| < U32_LIMIT
  }

  function ImageOf(json: seq<byte>, data: seq<byte>, index: PartitionIndex, aux: bool): seq<byte>
    requires IsSmall(json, data, index)
  {
    data + (LIST.ToBytes()
            + (PlainIndex(index).ToBytes()
               + (IndexBytes(index)
                  + (AuxPart(aux)
                     + (RootHeader(json, true).ToBytes() + (json + Block.FooterBytes(RootAt(data, index))))))))
  }

  function RootList(json: seq<byte>, data: seq<byte>, index: PartitionIndex, aux: bool): Block.BlockList
    requires IsSmall(json, data, index)
  {
    var root := Alone(RootHeader(json, true), JsonAt(data, index, aux));
    if aux then Block.BlockList([Block.Located(AUX, RootAt(data, index))] + root.blocks, root.end) else root
  }

  function FileOf(path: string, doc: Doc, data: seq<byte>, index: PartitionIndex, aux: bool): BackupFile
    requires Fits(doc, data, index)
  {
    BackupFile(path, ImageOf(Encode(doc), data, index, aux), Encode(doc), doc, RootAt(data, index),
               RootList(Encode(doc), data, index, aux),
               [Disk(Alone(LIST, |data|), [Partition(Alone(PlainIndex(index), IndexAt(data)), index)])])
  }

  /** Where everything lies in such a file. */
  lemma {:induction false} Pieces(json: seq<byte>, data: seq<byte>, index: PartitionIndex, aux: bool)
    requires IsSmall(json, data, index)
    ensures var image, at := ImageOf(json, data, index, aux), JsonAt(data, index, aux);
            && HoldsAt(image, |data|, LIST.ToBytes())
            && HoldsAt(image, IndexAt(data), PlainIndex(index).ToBytes())
            && HoldsAt(image, IndexAt(data) + Block.HEADER_LEN, IndexBytes(index))
            && HoldsAt(image, RootAt(data, index), AuxPart(aux))
            && HoldsAt(image, at, RootHeader(json, true).ToBytes())
            && HoldsAt(image, at + Block.HEADER_LEN, json)
            && |image| == at + Block.HEADER_LEN + |json| + Block.FOOTER_LEN
            && image[|image| - Block.FOOTER_LEN..] == Block.FooterBytes(RootAt(data, index))
            && data <= image
  {
    hide IndexBytes, Block.Header.ToBytes, Block.FooterBytes;
    var image, footer := ImageOf(json, data, index, aux), Block.FooterBytes(RootAt(data, index));
    var header, at := RootHeader(json, true).ToBytes(), JsonAt(data, index, aux);
    var tail := json + footer;
    var root := AuxPart(aux) + (header + tail);
    var payload := IndexBytes(index) + root;
    var partition := PlainIndex(index).ToBytes() + payload;
    assert HoldsAt(image, |data|, LIST.ToBytes() + partition);
    HoldsAtPieces(image, |data|, LIST.ToBytes(), partition);
    HoldsAtPieces(image, IndexAt(data), PlainIndex(index).ToBytes(), payload);
    HoldsAtPieces(image, IndexAt(data) + Block.HEADER_LEN, IndexBytes(index), root);
    HoldsAtPieces(image, RootAt(data, index), AuxPart(aux), header + tail);
    HoldsAtPieces(image, at, header, tail);
    HoldsAtPieces(image, at + Block.HEADER_LEN, json, footer);
  }

  lemma {:induction false} ListAlone(image: seq<byte>, header: Block.Header, at: nat)
    requires HoldsAt(image, at, header.ToBytes()) && header.flags.lastBlock
    ensures Block.Walk(image, at) == Ok(Alone(header, at))
  {
    hide Block.Header.ToBytes, Block.Header.Parse, Block.Walk;
    Block.HeaderRoundTrip(header);
    Block.WalkIffList(image, at, Alone(header, at));
  }

  lemma {:induction false} RootWalks(json: seq<byte>, data: seq<byte>, index: PartitionIndex, aux: bool)
    requires IsSmall(json, data, index)
    ensures Block.Walk(ImageOf(json, data, index, aux), RootAt(data, index)) == Ok(RootList(json, data, index, aux))
  {
    hide IndexBytes, Block.Header.ToBytes, Block.Header.Parse, Block.Walk, ImageOf;
    Pieces(json, data, index, aux);
    var image := ImageOf(json, data, index, aux);
    Block.HeaderRoundTrip(RootHeader(json, true));
    Block.HeaderRoundTrip(AUX);
    Block.WalkIffList(image, RootAt(data, index), RootList(json, data, index, aux));
  }

  lemma {:induction false} PartitionParses(json: seq<byte>, data: seq<byte>, index: PartitionIndex, aux: bool)
    requires IsSmall(json, data, index)
    ensures ParsePartition(ImageOf(json, data, index, aux), IndexAt(data), index.blocks.Deltas?)
         == Ok(Partition(Alone(PlainIndex(index), IndexAt(data)), index))
  {
    hide IndexBytes, Block.Header.ToBytes, Block.Walk, ImageOf, ParseIndex;
    Pieces(json, data, index, aux);
    ListAlone(ImageOf(json, data, index, aux), PlainIndex(index), IndexAt(data));
    IndexRoundTrip(index);
  }

  lemma {:induction false} RegionParses(doc: Doc, data: seq<byte>, index: PartitionIndex, aux: bool)
    requires Fits(doc, data, index)
    ensures ParseRegion(ImageOf(Encode(doc), data, index, aux), doc, RootAt(data, index))
         == Ok(FileOf("", doc, data, index, aux).disks)
  {
    hide IndexBytes, Block.Header.ToBytes, Block.Walk, ImageOf, ParsePartition, Encode;
    var json := Encode(doc);
    Pieces(json, data, index, aux);
    var image := ImageOf(json, data, index, aux);
    ListAlone(image, LIST, |data|);
    PartitionParses(json, data, index, aux);
    var part := Partition(Alone(PlainIndex(index), IndexAt(data)), index);
    assert ParsePartitions(image, 0, RootAt(data, index), index.blocks.Deltas?) == Ok(([], RootAt(data, index)));
    assert [part] + [] == [part];
    assert ParsePartitions(image, 1, IndexAt(data), index.blocks.Deltas?) == Ok(([part], RootAt(data, index)));
    var shape := doc.Shape();
    assert shape == [1] && shape[1..] == [];
    assert ParseDisks(image, [], RootAt(data, index), index.blocks.Deltas?) == Ok(([], RootAt(data, index)));
    var disk := Disk(Alone(LIST, |data|), [part]);
    assert [disk] + [] == [disk];
    assert ParseDisks(image, shape, |data|, index.blocks.Deltas?) == Ok(([disk], RootAt(data, index)));
  }

  lemma {:induction false} DocParses(doc: Doc, data: seq<byte>, index: PartitionIndex, aux: bool)
    requires Fits(doc, data, index)
    ensures ParseDoc(Libraries(), ImageOf(Encode(doc), data, index, aux), RootList(Encode(doc), data, index, aux))
         == Ok((Encode(doc), doc))
  {
    hide IndexBytes, Block.Header.ToBytes, ImageOf, Encode, Decode;
    var json := Encode(doc);
    Pieces(json, data, index, aux);
    DecodeEncoded(doc);
    var blocks := RootList(json, data, index, aux).blocks;
    var root := Block.Located(RootHeader(json, true), JsonAt(data, index, aux));
    assert aux ==> blocks[1..] == [root];
    assert Block.Find([root], Block.JSON) == Some(root);
    assert Block.Find(blocks, Block.JSON) == Some(root);
    assert Block.ReadPayload(ImageOf(json, data, index, aux), root) == Ok(json);
  }

  /** A smallest file is what the parser makes of its bytes. */
  lemma {:induction false} FileParses(path: string, doc: Doc, data: seq<byte>, index: PartitionIndex, aux: bool)
    requires Fits(doc, data, index)
    ensures IsParsed(Libraries(), FileOf(path, doc, data, index, aux))
  {
    hide IndexBytes, Block.Header.ToBytes, Block.FooterBytes, Block.Walk, ImageOf, ParseRegion, ParseDoc,
      Block.ReadFooter, Encode, RootList;
    var json := Encode(doc);
    Pieces(json, data, index, aux);
    Block.FooterRoundTrip(ImageOf(json, data, index, aux), RootAt(data, index));
    RootWalks(json, data, index, aux);
    RegionParses(doc, data, index, aux);
    DocParses(doc, data, index, aux);
  }

  // ----- the file a merge up to it writes -----

  /** The document of the output of a merge up to the file with document `to`. */
  function MergedDoc(to: Doc, plan: MergePlan, position: u64): Doc {
    to.(header := PatchedHeader(to.header, plan, position))
  }

  function MetadataOf(index: PartitionIndex): seq<byte>
    requires Representable(index)
  {
    LIST.ToBytes() + (PlainIndex(index).ToBytes() + IndexBytes(index))
  }

  /** The output's bytes: its document first in the root list, then To's `$AUXDATA` as it was. */
  function WrittenImage(json: seq<byte>, data: seq<byte>, index: PartitionIndex, aux: bool): seq<byte>
    requires IsSmall(json, data, index)
  {
    data + MetadataOf(index) + (RootHeader(json,
          !aux).ToBytes() + json) + AuxPart(aux) + Block.FooterBytes(RootAt(data, index))
  }

  lemma {:induction false} WrittenIsImage(json: seq<byte>, data: seq<byte>, index: PartitionIndex)
    requires IsSmall(json, data, index)
    ensures WrittenImage(json, data, index, false) == ImageOf(json, data, index, false)
  {
    hide IndexBytes, Block.Header.ToBytes, Block.FooterBytes;
    var header, footer := RootHeader(json, true).ToBytes(), Block.FooterBytes(RootAt(data, index));
    assert [] + (header + (json + footer)) == header + (json + footer);
    assert WrittenImage(json, data, index, false) == data + MetadataOf(index) + (header + json) + footer;
  }

  lemma {:induction false} SmallDisks(doc: Doc, data: seq<byte>, index: PartitionIndex, aux: bool, path: string,
        merged: PartitionIndex)
    requires Fits(doc, data, index) && Representable(merged)
    ensures var to := FileOf(path, doc, data, index, aux); var written := [WrittenPartition(0, 0, merged)];
            && DisksOrdered(to.disks) && PartitionTotal(to.disks) == 1 && RegionDescribes(to.disks, written, 0)
            && DisksBytes(Libraries().md5, to.image, to.disks, written) == MetadataOf(merged)
  {
    hide IndexBytes, Block.Header.ToBytes, ImageOf, Encode, Decode;
    Pieces(Encode(doc), data, index, aux);
    var to, written := FileOf(path, doc, data, index, aux), [WrittenPartition(0, 0, merged)];
    var disk, md5 := to.disks[0], Libraries().md5;
    assert to.disks[1..] == [] && disk.partitions[1..] == [] && written[..1] == written && written[1..] == [];
    assert Span(to.image, |data|, IndexAt(data)) == LIST.ToBytes();
    assert Span(to.image, IndexAt(data), IndexAt(data)) == [];
    var part := PartitionBytes(md5, to.image, disk.partitions[0], merged);
    assert part == [] + (PlainIndex(merged).ToBytes() + IndexBytes(merged));
    assert PartitionsBytes(md5, to.image, disk.partitions, written) == part + [];
    assert DiskBytes(md5, to.image, disk, written) == LIST.ToBytes() + part;
    assert DisksBytes(md5, to.image, to.disks, written) == DiskBytes(md5, to.image, disk, written) + [];
  }

  lemma {:induction false} SmallRoot(doc: Doc, data: seq<byte>, index: PartitionIndex, aux: bool, path: string,
        document: seq<byte>)
    requires Fits(doc, data, index) && |document| < U32_LIMIT
    ensures var to := FileOf(path, doc, data, index, aux);
            && AuxOf(to).Some? == aux && (aux ==> AuxOf(to).value == Block.Located(AUX, RootAt(data, index)))
            && (aux ==> AuxOf(to).value.End() <= |to.image|)
            && AuxBytes(to) == AuxPart(aux)
            && JsonHeader(Libraries(), to, document) == RootHeader(document, !aux)
  {
    hide IndexBytes, Block.Header.ToBytes, ImageOf, Encode, Decode;
    Pieces(Encode(doc), data, index, aux);
    var to := FileOf(path, doc, data, index, aux);
    var blocks := to.rootList.blocks;
    assert aux ==> blocks[0] == Block.Located(AUX, RootAt(data, index));
    assert !aux ==> blocks[1..] == [];
  }

  /** The writer's own specification of the output holds of those bytes, whatever is copied. */
  lemma {:induction false} SmallIsWritten(path: string, doc: Doc, data: seq<byte>, index: PartitionIndex, aux: bool,
        plan: MergePlan, source: Source, stamp: Stamp, region: DataRegion, copied: seq<byte>, merged: PartitionIndex)
    requires Fits(doc, data, index)
    requires RegionWritten(plan, source, plan.outFileNumber, region, copied) && region.end == |copied| < U32_LIMIT
    requires region.partitions == [WrittenPartition(0, 0, merged)]
    requires IsSmall(Encode(MergedDoc(doc, plan, region.end)), copied, merged)
    ensures var to := FileOf(path, doc, data, index, aux);
            var out := WrittenImage(Encode(MergedDoc(doc, plan, region.end)), copied, merged, aux);
            && DisksOrdered(to.disks)
            && OutputWritten(Libraries(), to, plan, source, stamp, WrittenFile(region, RootAt(copied, merged), |out|),
                  out)
  {
    hide IndexBytes, Block.Header.ToBytes, ImageOf, Encode, Decode, RegionWritten, DisksBytes, RegionDescribes,
      PatchedHeader, Block.FooterBytes, DisksOrdered, AuxOf, AuxBytes, AuxPart, JsonHeader;
    var to := FileOf(path, doc, data, index, aux);
    var document := Encode(MergedDoc(doc, plan, region.end));
    SmallDisks(doc, data, index, aux, path, merged);
    SmallRoot(doc, data, index, aux, path, document);
    var out := WrittenImage(document, copied, merged, aux);
    assert PatchedDoc(Libraries(), to, plan, region.end, stamp) == Ok(MergedDoc(doc, plan, region.end));
    assert out[..region.end] == copied;
  }
}
