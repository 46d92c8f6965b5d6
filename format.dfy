/**
 * The binary topology file as the kernel reads it: a sequence of blocks, each a
 * fixed-size header followed by `payload_size` payload bytes. The byte layout of
 * the header (struct snd_soc_tplg_hdr) belongs to the kernel and is kept
 * abstract: a header occupies HDR_SIZE cells of the file, each cell recording
 * which header it belongs to.
 */
module Format {
  import opened Base

  type Pos = n: int | n > 0 witness 1

  /** sizeof(struct snd_soc_tplg_hdr). */
  const HDR_SIZE: Pos
  /** SND_SOC_TPLG_MAGIC. */
  const TPLG_MAGIC: int
  /** SND_SOC_TPLG_ABI_VERSION. */
  const TPLG_ABI_VERSION: int

  /** The block type tags (SND_SOC_TPLG_TYPE_*) the emitter writes. */
  datatype BlockType =
    | TypeMixer | TypeBytes | TypeEnum | TypeDapmGraph | TypeDapmWidget | TypeDaiLink | TypePcm

  /** The fields of struct snd_soc_tplg_hdr. */
  datatype Header = Header(
    magic: int,
    abi: int,
    blockType: BlockType,
    vendorType: int,
    version: int,
    payloadSize: int,
    index: int,
    size: int,
    count: int)

  /** One byte of the output file: byte `at` of a header, or a payload byte. */
  datatype Cell = HeaderByte(hdr: Header, at: nat) | PayloadByte(b: byte)

  function HeaderCells(h: Header): (cs: seq<Cell>) {
    seq(HDR_SIZE, k requires 0 <= k => HeaderByte(h, k))
  }

  function DataCells(bs: seq<byte>): (cs: seq<Cell>) {
    seq(|bs|, k requires 0 <= k < |bs| => PayloadByte(bs[k]))
  }

  /** The payload bytes held by a run of cells, if every cell is a payload byte. */
  function PayloadOf(cs: seq<Cell>): (p: Option<seq<byte>>) {
    if forall k :: 0 <= k < |cs| ==> cs[k].PayloadByte?
    then Some(seq(|cs|, k requires 0 <= k < |cs| && cs[k].PayloadByte? => cs[k].b))
    else None
  }

  lemma DataCellsAppend(a: seq<byte>, b: seq<byte>)
    ensures DataCells(a + b) == DataCells(a) + DataCells(b)
  {
  }

  lemma PayloadOfDataCells(bs: seq<byte>)
    ensures PayloadOf(DataCells(bs)) == Some(bs)
  {
    var cs := DataCells(bs);
    assert seq(|cs|, k requires 0 <= k < |cs| && cs[k].PayloadByte? => cs[k].b) == bs;
  }

  datatype Block = Block(hdr: Header, payload: seq<byte>)

  /** A block whose header tells a reader how far to skip: its own size and its payload's length. */
  predicate SelfDescribing(b: Block) {
    b.hdr.size == HDR_SIZE && b.hdr.payloadSize == |b.payload|
  }

  function EncodeBlock(b: Block): (cs: seq<Cell>) {
    HeaderCells(b.hdr) + DataCells(b.payload)
  }

  function Encode(bs: seq<Block>): (f: seq<Cell>)
    decreases |bs|
  {
    if bs == [] then [] else EncodeBlock(bs[0]) + Encode(bs[1..])
  }

  /**
   * A reader that understands nothing but the header: at a header it takes the
   * next `size + payload_size` cells as one block and continues after them.
   */
  function Decode(f: seq<Cell>): (bs: Option<seq<Block>>)
    decreases |f|
  {
    if f == [] then Some([])
    else match f[0]
      case PayloadByte(_) => None
      case HeaderByte(h, at) =>
        if at != 0 || h.size <= 0 || h.payloadSize < 0 || h.size + h.payloadSize > |f| then None
        else match PayloadOf(f[h.size .. h.size + h.payloadSize])
          case None => None
          case Some(p) =>
            match Decode(f[h.size + h.payloadSize ..])
            case None => None
            case Some(rest) => Some([Block(h, p)] + rest)
  }

  lemma {:induction false} EncodeAppend(a: seq<Block>, b: seq<Block>)
    ensures Encode(a + b) == Encode(a) + Encode(b)
    decreases |a|
  {
    if a != [] {
      assert (a + b)[0] == a[0];
      assert (a + b)[1..] == a[1..] + b;
      EncodeAppend(a[1..], b);
      calc {
        Encode(a + b);
        EncodeBlock(a[0]) + Encode(a[1..] + b);
        EncodeBlock(a[0]) + (Encode(a[1..]) + Encode(b));
        (EncodeBlock(a[0]) + Encode(a[1..])) + Encode(b);
        Encode(a) + Encode(b);
      }
    } else {
      assert a + b == b;
    }
  }

  /** Reading back what was written recovers every block, when each header describes its block. */
  lemma {:induction false} DecodeEncode(bs: seq<Block>)
    requires forall i :: 0 <= i < |bs| ==> SelfDescribing(bs[i])
    ensures Decode(Encode(bs)) == Some(bs)
    decreases |bs|
  {
    if bs != [] {
      var b := bs[0];
      var f := Encode(bs);
      var n := |b.payload|;
      DecodeEncode(bs[1..]);
      assert f == HeaderCells(b.hdr) + DataCells(b.payload) + Encode(bs[1..]);
      assert f[0] == HeaderByte(b.hdr, 0);
      assert f[HDR_SIZE .. HDR_SIZE + n] == DataCells(b.payload);
      assert f[HDR_SIZE + n ..] == Encode(bs[1..]);
      PayloadOfDataCells(b.payload);
      assert [Block(b.hdr, b.payload)] + bs[1..] == bs;
    }
  }

  /**
   * The offset invariant: the header of block i sits at the offset reached by
   * adding, for every earlier block, its header size and its payload size.
   */
  lemma {:induction false} HeaderOffsets(bs: seq<Block>, i: nat)
    requires forall j :: 0 <= j < |bs| ==> SelfDescribing(bs[j])
    requires i < |bs|
    ensures |Encode(bs[..i + 1])| == |Encode(bs[..i])| + bs[i].hdr.size + bs[i].hdr.payloadSize
    ensures |Encode(bs[..i])| < |Encode(bs)| && Encode(bs)[|Encode(bs[..i])|] == HeaderByte(bs[i].hdr, 0)
  {
    assert bs[..i + 1] == bs[..i] + [bs[i]];
    EncodeAppend(bs[..i], [bs[i]]);
    assert bs == bs[..i] + bs[i..];
    EncodeAppend(bs[..i], bs[i..]);
    assert Encode(bs[i..]) == EncodeBlock(bs[i]) + Encode(bs[i + 1..]);
    assert Encode([bs[i]]) == EncodeBlock(bs[i]) + Encode([]);
  }
}
