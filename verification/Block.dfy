/** The framing of a backup file: the footer, the 32-byte block headers, and the lists they form. */
module Block {
  import opened Wrappers
  import opened Bytes

  const HEADER_LEN: nat := 32
  const FOOTER_LEN: nat := 20
  const MAX_BLOCKS_PER_LIST: nat := 64
  const DATA_ALIGNMENT: nat := 4096

  // "MACRIUM_FILE", "$JSON   ", "$INDEX  " and "$AUXDATA" as ASCII.
  const MAGIC: seq<byte> := [77, 65, 67, 82, 73, 85, 77, 95, 70, 73, 76, 69]
  const JSON: Name := [36, 74, 83, 79, 78, 32, 32, 32]
  const INDEX: Name := [36, 73, 78, 68, 69, 88, 32, 32]
  const AUXDATA: Name := [36, 65, 85, 88, 68, 65, 84, 65]

  /** Round up to the next alignment boundary: the least multiple at or above `offset`. */
  function AlignUp(offset: nat): (aligned: nat)
    ensures offset <= aligned < offset + 4096 && aligned % 4096 == 0
  {
    (offset + DATA_ALIGNMENT - 1) / DATA_ALIGNMENT * DATA_ALIGNMENT
  }

  datatype Flags = Flags(lastBlock: bool, compression: bool, encryption: bool) {
    function ToByte(): byte {
      (if lastBlock then 1 else 0) + (if compression then 2 else 0) + (if encryption then 4 else 0)
    }

    /** The top five bits are ignored. */
    static function FromByte(b: byte): Flags {
      Flags(b % 2 == 1, b / 2 % 2 == 1, b / 4 % 2 == 1)
    }

    static function Plain(lastBlock: bool): Flags {
      Flags(lastBlock, false, false)
    }
  }

  datatype Header = Header(name: Name, blockLength: u32, hash: Hash, flags: Flags) {
    function ToBytes(): (s: seq<byte>)
      ensures |s| == HEADER_LEN
    {
      name + ToLE(blockLength, 4) + hash + [flags.ToByte()] + Zeros(3)
    }

    static function Parse(raw: seq<byte>): Header
      requires |raw| == HEADER_LEN
    {
      Widths();
      Header(raw[0..8], FromLE(raw[8..12]), raw[12..28], Flags.FromByte(raw[28]))
    }

    /** A header for a payload stored plain; a payload of 4 GiB or more is refused. */
    static function ForPayload(md5: seq<byte> -> Hash, name: Name, payload: seq<byte>,
          lastBlock: bool): (r: Result<Header>)
      ensures r.Ok? <==> |payload| < 0x1_0000_0000
      ensures r.Ok? ==> r.value.name == name && r.value.blockLength == |payload| && r.value.hash == md5(payload)
      ensures r.Ok? ==> && r.value.flags.lastBlock == lastBlock
                        && !r.value.flags.compression && !r.value.flags.encryption
    {
      if |payload| >= U32_LIMIT then Err("payload is larger than 4 GiB")
      else Ok(Header(name, |payload|, md5(payload), Flags.Plain(lastBlock)))
    }
  }

  lemma {:induction false} HeaderRoundTrip(h: Header)
    ensures Header.Parse(h.ToBytes()) == h
  {
    Widths();
    FromToLE(h.blockLength, 4);
    var raw := h.ToBytes();
    assert raw[0..8] == h.name && raw[8..12] == ToLE(h.blockLength, 4) && raw[12..28] == h.hash;
  }

  datatype Located = Located(header: Header, offset: nat) {
    function PayloadAt(): nat { offset + HEADER_LEN }
    function End(): nat { PayloadAt() + header.blockLength }
  }

  datatype BlockList = BlockList(blocks: seq<Located>, end: nat)

  /** `at` is the first block of that name. */
  ghost predicate IsFirst(blocks: seq<Located>, name: Name, at: nat) {
    && at < |blocks| && blocks[at].header.name == name
    && forall j :: 0 <= j < at ==> blocks[j].header.name != name
  }

  function Find(blocks: seq<Located>, name: Name): (r: Option<Located>)
    ensures r.Some? ==> r.value in blocks && r.value.header.name == name
    ensures r.None? ==> forall b :: b in blocks ==> b.header.name != name
  {
    if blocks == [] then None
    else if blocks[0].header.name == name then Some(blocks[0])
    else Find(blocks[1..], name)
  }

  /** What is found is the first block of that name. */
  lemma {:induction false} FindsFirst(blocks: seq<Located>, name: Name)
    ensures Find(blocks, name).Some?
           ==> exists at: nat :: IsFirst(blocks, name, at) && blocks[at] == Find(blocks, name).value
    ensures Find(blocks, name).None? ==> forall b :: b in blocks ==> b.header.name != name
  {
    if blocks != [] {
      if blocks[0].header.name == name {
        assert IsFirst(blocks, name, 0);
      } else if Find(blocks, name).Some? {
        FindsFirst(blocks[1..], name);
        var at: nat :| IsFirst(blocks[1..], name, at) && blocks[1..][at] == Find(blocks, name).value;
        assert IsFirst(blocks, name, at + 1);
      }
    }
  }

  // ----- footer -----

  function FooterBytes(rootAt: nat): (s: seq<byte>)
    ensures |s| == FOOTER_LEN
  {
    ToLE(rootAt, 8) + MAGIC
  }

  function ReadFooter(image: seq<byte>): Result<nat> {
    if |image| < FOOTER_LEN then Err("too short to hold a footer")
    else if image[|image| - 12..] != MAGIC then Err("Invalid file: not a Macrium Reflect vX file.")
    else Ok(FromLE(image[|image| - FOOTER_LEN..|image| - 12]))
  }

  lemma {:induction false} FooterRoundTrip(image: seq<byte>, rootAt: nat)
    requires rootAt < U64_LIMIT
    requires |image| >= FOOTER_LEN && image[|image| - FOOTER_LEN..] == FooterBytes(rootAt)
    ensures ReadFooter(image) == Ok(rootAt)
  {
    Widths();
    FromToLE(rootAt, 8);
    var tail := image[|image| - FOOTER_LEN..];
    assert image[|image| - 12..] == tail[8..] == MAGIC;
    assert image[|image| - FOOTER_LEN..|image| - 12] == tail[..8] == ToLE(rootAt, 8);
  }

  // ----- payloads -----

  function ReadPayload(image: seq<byte>, block: Located): Result<seq<byte>> {
    if block.End() > |image| then Err("the payload runs past the end of the file")
    else Ok(image[block.PayloadAt()..block.End()])
  }

  /** A payload with its hash compared and its flags undone, in that order. */
  function ReadBlock(md5: seq<byte> -> Hash, unzip: seq<byte> -> Option<seq<byte>>,
                     image: seq<byte>, block: Located): Result<seq<byte>> {
    var stored :- ReadPayload(image, block);
    if md5(stored) != block.header.hash then Err("Block hash mismatch.")
    else if block.header.flags.encryption then Err("the block is encrypted")
    else if !block.header.flags.compression then Ok(stored)
    else
      match unzip(stored)
      case Some(plain) => Ok(plain)
      case None => Err("Failed to decompress block.")
  }

  // ----- lists -----

  /** The walk from `offset`, with `blocks` already read. */
  function WalkFrom(image: seq<byte>, offset: nat, blocks: seq<Located>): (r: Result<BlockList>)
    requires |blocks| < MAX_BLOCKS_PER_LIST
    decreases MAX_BLOCKS_PER_LIST - |blocks|
  {
    if offset + HEADER_LEN > |image| then Err("reading a metadata block header")
    else
      var located := Located(Header.Parse(image[offset..offset + HEADER_LEN]), offset);
      var grown := blocks + [located];
      if located.header.flags.lastBlock then Ok(BlockList(grown, located.End()))
      else if |grown| < MAX_BLOCKS_PER_LIST then WalkFrom(image, located.End(), grown)
      else Err("metadata list has too many blocks")
  }

  function Walk(image: seq<byte>, start: nat): Result<BlockList> {
    WalkFrom(image, start, [])
  }

  method WalkList(image: seq<byte>, start: nat) returns (r: Result<BlockList>)
    ensures r == Walk(image, start)
  {
    var blocks: seq<Located> := [];
    var offset: nat := start;
    while true
      invariant |blocks| < MAX_BLOCKS_PER_LIST
      invariant Walk(image, start) == WalkFrom(image, offset, blocks)
      decreases MAX_BLOCKS_PER_LIST - |blocks|
    {
      if offset + HEADER_LEN > |image| {
        return Err("reading a metadata block header");
      }
      var located := Located(Header.Parse(image[offset..offset + HEADER_LEN]), offset);
      offset := located.End();
      blocks := blocks + [located];
      if located.header.flags.lastBlock {
        return Ok(BlockList(blocks, offset));
      }
      if |blocks| >= MAX_BLOCKS_PER_LIST {
        return Err("metadata list has too many blocks");
      }
    }
  }

  predicate HeaderAt(image: seq<byte>, block: Located) {
    && block.PayloadAt() <= |image|
    && block.header == Header.Parse(image[block.offset..block.PayloadAt()])
  }

  /** `blocks` are the headers found one after the other from `start`; only the final one may end a list. */
  ghost predicate IsChain(image: seq<byte>, start: nat, blocks: seq<Located>) {
    && (blocks != [] ==> blocks[0].offset == start)
    && (forall k :: 0 <= k < |blocks| ==> HeaderAt(image, blocks[k]))
    && (forall k :: 1 <= k < |blocks| ==> blocks[k].offset == blocks[k - 1].End())
    && (forall k :: 0 <= k < |blocks| - 1 ==> !blocks[k].header.flags.lastBlock)
  }

  /** What a metadata list is, said without walking: a chain of 1 to 64 blocks whose last block says so. */
  ghost predicate IsList(image: seq<byte>, start: nat, list: BlockList) {
    && 1 <= |list.blocks| <= 64
    && IsChain(image, start, list.blocks)
    && var last := list.blocks[|list.blocks| - 1];
       last.header.flags.lastBlock && list.end == last.End()
  }

  lemma {:induction false} WalkFromSound(image: seq<byte>, start: nat, offset: nat, blocks: seq<Located>)
    requires |blocks| < MAX_BLOCKS_PER_LIST && IsChain(image, start, blocks)
    requires forall k :: 0 <= k < |blocks| ==> !blocks[k].header.flags.lastBlock
    requires offset == if blocks == [] then start else blocks[|blocks| - 1].End()
    ensures var r := WalkFrom(image, offset, blocks); r.Ok? ==> IsList(image, start, r.value)
    decreases MAX_BLOCKS_PER_LIST - |blocks|
  {
    if offset + HEADER_LEN <= |image| {
      var located := Located(Header.Parse(image[offset..offset + HEADER_LEN]), offset);
      var grown := blocks + [located];
      if !located.header.flags.lastBlock && |grown| < MAX_BLOCKS_PER_LIST {
        WalkFromSound(image, start, located.End(), grown);
      }
    }
  }

  lemma {:induction false} WalkFromComplete(image: seq<byte>, start: nat, list: BlockList, n: nat)
    requires IsList(image, start, list) && n < |list.blocks|
    ensures WalkFrom(image, list.blocks[n].offset, list.blocks[..n]) == Ok(list)
    decreases |list.blocks| - n
  {
    var grown := list.blocks[..n] + [list.blocks[n]];
    assert grown == list.blocks[..n + 1];
    if n + 1 < |list.blocks| {
      WalkFromComplete(image, start, list, n + 1);
      assert list.blocks[n + 1].offset == list.blocks[n].End();
    } else {
      assert grown == list.blocks;
    }
  }

  /** The walk finds a list exactly where there is one, and finds that one. */
  lemma {:induction false} WalkIffList(image: seq<byte>, start: nat, list: BlockList)
    ensures Walk(image, start) == Ok(list) <==> IsList(image, start, list)
  {
    WalkFromSound(image, start, start, []);
    if IsList(image, start, list) {
      WalkFromComplete(image, start, list, 0);
      assert list.blocks[..0] == [];
    }
  }

  lemma {:induction false} ListEnd(image: seq<byte>, start: nat, list: BlockList)
    requires IsList(image, start, list)
    ensures list.blocks != [] && list.end == list.blocks[|list.blocks| - 1].End()
  {
  }

  lemma {:induction false} HeaderFits(image: seq<byte>, start: nat)
    requires Walk(image, start).Ok?
    ensures start + HEADER_LEN <= |image|
  {
  }

  /** One step of the walk over a header that is there. */
  lemma {:induction false} WalkStep(image: seq<byte>, block: Located, blocks: seq<Located>)
    requires HeaderAt(image, block) && |blocks| + 1 < MAX_BLOCKS_PER_LIST
    ensures WalkFrom(image, block.offset, blocks)
         == if block.header.flags.lastBlock then Ok(BlockList(blocks + [block], block.End()))
            else WalkFrom(image, block.End(), blocks + [block])
  {
  }

  // ----- lists are position-independent -----

  function Move(block: Located, from: nat, to: nat): Located
    requires from <= block.offset
  {
    Located(block.header, block.offset - from + to)
  }

  /** `moved` is `blocks` with every offset changed by one constant. */
  ghost predicate Moved(blocks: seq<Located>, from: nat, moved: seq<Located>, to: nat) {
    && |moved| == |blocks|
    && forall k :: 0 <= k < |blocks| ==> from <= blocks[k].offset && moved[k] == Move(blocks[k], from, to)
  }

  lemma {:induction false} ChainOffsets(image: seq<byte>, start: nat, blocks: seq<Located>, k: nat)
    requires IsChain(image, start, blocks) && k < |blocks|
    ensures start <= blocks[k].offset
    ensures forall j :: 0 <= j < k ==> blocks[j].End() <= blocks[k].offset
  {
    if k > 0 {
      ChainOffsets(image, start, blocks, k - 1);
    }
  }

  lemma {:induction false} HeaderMoves(image: seq<byte>, start: nat, end: nat, block: Located, copy: seq<byte>, to: nat)
    requires HeaderAt(image, block) && start <= block.offset && block.PayloadAt() <= end <= |image|
    requires HoldsAt(copy, to, image[start..end])
    ensures HeaderAt(copy, Move(block, start, to))
  {
    var a, b := block.offset - start, block.PayloadAt() - start;
    SliceOfSlice(image, start, end, a, b);
    SliceOfSlice(copy, to, to + (end - start), a, b);
  }

  /** One block of a file and one of another with the same header and the same payload bytes. */
  ghost predicate SameBlock(image: seq<byte>, a: Located, copy: seq<byte>, b: Located) {
    && b.header == a.header && a.End() <= |image| && b.End() <= |copy|
    && copy[b.PayloadAt()..b.End()] == image[a.PayloadAt()..a.End()]
  }

  lemma {:induction false} BlockMoves(image: seq<byte>, start: nat, end: nat, block: Located, copy: seq<byte>, to: nat)
    requires start <= block.offset && block.End() <= end <= |image| && HoldsAt(copy, to, image[start..end])
    ensures SameBlock(image, block, copy, Move(block, start, to))
  {
    var a, b := block.PayloadAt() - start, block.End() - start;
    SliceOfSlice(image, start, end, a, b);
    SliceOfSlice(copy, to, to + (end - start), a, b);
  }

  /** A chain copied byte for byte to another place is the same chain there, moved by one constant. */
  lemma {:induction false} ChainMoves(image: seq<byte>, start: nat, blocks: seq<Located>, end: nat, copy: seq<byte>,
        to: nat)
    returns (moved: seq<Located>)
    requires IsChain(image, start, blocks) && start <= end <= |image|
    requires forall k :: 0 <= k < |blocks| ==> blocks[k].PayloadAt() <= end
    requires HoldsAt(copy, to, image[start..end])
    ensures IsChain(copy, to, moved) && Moved(blocks, start, moved, to)
  {
    forall k | 0 <= k < |blocks| ensures start <= blocks[k].offset {
      ChainOffsets(image, start, blocks, k);
    }
    moved := seq(|blocks|, k requires 0 <= k < |blocks| => Move(blocks[k], start, to));
    forall k | 0 <= k < |blocks| ensures HeaderAt(copy, moved[k]) {
      HeaderMoves(image, start, end, blocks[k], copy, to);
    }
  }

  /** A list copied byte for byte is walked at its new place into the same headers, moved by one constant. */
  lemma {:induction false} ListMoves(image: seq<byte>, start: nat, list: BlockList, copy: seq<byte>, to: nat)
    returns (moved: BlockList)
    requires IsList(image, start, list) && list.end <= |image|
    requires start <= list.end && HoldsAt(copy, to, image[start..list.end])
    ensures Walk(copy, to) == Ok(moved) && Moved(list.blocks, start, moved.blocks, to)
    ensures moved.end == list.end - start + to
    ensures forall k :: 0 <= k < |list.blocks| ==> SameBlock(image, list.blocks[k], copy, moved.blocks[k])
  {
    hide Walk, SameBlock;
    var n := |list.blocks|;
    ChainOffsets(image, start, list.blocks, n - 1);
    var blocks := ChainMoves(image, start, list.blocks, list.end, copy, to);
    hide IsChain, HoldsAt;
    forall k | 0 <= k < n ensures SameBlock(image, list.blocks[k], copy, blocks[k]) {
      ChainOffsets(image, start, list.blocks, k);
      assert k < n - 1 ==> list.blocks[k].End() <= list.blocks[n - 1].offset;
      BlockMoves(image, start, list.end, list.blocks[k], copy, to);
    }
    moved := BlockList(blocks, blocks[n - 1].End());
    WalkIffList(copy, to, moved);
  }

  lemma {:induction false} KeptBlocks(image: seq<byte>, start: nat, blocks: seq<Located>, front: seq<Located>, end: nat,
        copy: seq<byte>, to: nat, kept: seq<Located>)
    requires IsChain(image, start, blocks) && start <= end <= |image| && HoldsAt(copy, to, image[start..end])
    requires |front| <= |blocks| && front == blocks[..|front|] && Moved(front, start, kept, to)
    requires forall k :: 0 <= k < |front| ==> front[k].End() <= end
    ensures forall k :: 0 <= k < |front| ==> SameBlock(image, blocks[k], copy, kept[k])
  {
    hide IsChain, SameBlock;
    forall k | 0 <= k < |front| ensures SameBlock(image, blocks[k], copy, kept[k]) {
      ChainOffsets(image, start, blocks, k);
      BlockMoves(image, start, end, front[k], copy, to);
    }
  }

  /** Copying a list up to its last block and writing a fresh last block there keeps every earlier block. */
  lemma {:induction false} ListWithNewLast(image: seq<byte>, start: nat, list: BlockList, copy: seq<byte>, to: nat,
        last: Header)
    returns (moved: BlockList)
    requires IsList(image, start, list) && last.flags.lastBlock
    requires var n := |list.blocks|; start <= list.blocks[n - 1].offset <= |image|
    requires var at := list.blocks[|list.blocks| - 1].offset;
             HoldsAt(copy, to, image[start..at]) && HoldsAt(copy, to + at - start, last.ToBytes())
    ensures Walk(copy, to) == Ok(moved)
    ensures var n := |list.blocks|;
            && |moved.blocks| == n
            && Moved(list.blocks[..n - 1], start, moved.blocks[..n - 1], to)
            && moved.blocks[n - 1] == Located(last, list.blocks[n - 1].offset - start + to)
            && moved.end == moved.blocks[n - 1].End()
            && forall k :: 0 <= k < n - 1 ==> SameBlock(image, list.blocks[k], copy, moved.blocks[k])
  {
    hide Walk, SameBlock;
    var n := |list.blocks|;
    var at := list.blocks[n - 1].offset;
    var front := list.blocks[..n - 1];
    ChainOffsets(image, start, list.blocks, n - 1);
    var kept := ChainMoves(image, start, front, at, copy, to);
    KeptBlocks(image, start, list.blocks, front, at, copy, to, kept);
    hide HeaderAt;
    var final := Located(last, to + at - start);
    moved := BlockList(kept + [final], final.End());
    FreshLastMakesList(copy, to, kept, final);
    WalkIffList(copy, to, moved);
  }

  lemma {:induction false} FreshLastMakesList(copy: seq<byte>, to: nat, kept: seq<Located>, final: Located)
    requires |kept| < MAX_BLOCKS_PER_LIST && IsChain(copy, to, kept)
    requires forall k :: 0 <= k < |kept| ==> !kept[k].header.flags.lastBlock
    requires final.offset == (if kept == [] then to else kept[|kept| - 1].End())
    requires final.header.flags.lastBlock && HoldsAt(copy, final.offset, final.header.ToBytes())
    ensures IsList(copy, to, BlockList(kept + [final], final.End()))
  {
    HeaderRoundTrip(final.header);
  }
}
