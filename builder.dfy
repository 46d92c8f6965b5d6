/**
 * The binary block emitter: for each element family, a header followed by the
 * objects of every element not flagged compound, written to an append-only
 * output file whose cursor is checked against an independently accumulated
 * next-header offset.
 *
 * The `write()` calls are assumed to complete: writing an element appends its
 * `size` object bytes and reports `size` bytes written.
 */
module Builder {
  import opened Base
  import opened Format
  import opened Store

  // ---------------------------------------------------------------------------
  // Block contents

  /** What an element adds to its block's byte count. */
  function SizeOf(e: Elem): (n: int) {
    if e.compoundElem then 0 else |e.obj|
  }

  /** What an element adds to its block's payload. */
  function BytesOf(e: Elem): (bs: seq<byte>) {
    if e.compoundElem then [] else e.obj
  }

  /** The block size: the sum of `size` over the elements not flagged compound. */
  function BlockSize(list: seq<Elem>): (size: int)
    decreases |list|
  {
    if list == [] then 0 else BlockSize(list[..|list| - 1]) + SizeOf(list[|list| - 1])
  }

  /** The block payload: the objects of the non-compound elements, in list order. */
  function Payload(list: seq<Elem>): (bytes: seq<byte>)
    decreases |list|
  {
    if list == [] then [] else Payload(list[..|list| - 1]) + BytesOf(list[|list| - 1])
  }

  lemma {:induction false} BlockSizeAppend(a: seq<Elem>, b: seq<Elem>)
    ensures BlockSize(a + b) == BlockSize(a) + BlockSize(b)
    ensures Payload(a + b) == Payload(a) + Payload(b)
    decreases |b|
  {
    if b == [] {
      assert a + b == a;
    } else {
      var b' := b[..|b| - 1];
      assert (a + b)[..|a + b| - 1] == a + b';
      assert (a + b)[|a + b| - 1] == b[|b| - 1];
      BlockSizeAppend(a, b');
    }
  }

  /** A compound element contributes neither bytes nor size, wherever it stands in the list. */
  lemma CompoundElemIgnored(a: seq<Elem>, e: Elem, b: seq<Elem>)
    requires e.compoundElem
    ensures BlockSize(a + [e] + b) == BlockSize(a + b)
    ensures Payload(a + [e] + b) == Payload(a + b)
  {
    var ae := a + [e];
    assert ae[..|ae| - 1] == a;
    assert BlockSize(ae) == BlockSize(a);
    assert Payload(ae) == Payload(a);
    BlockSizeAppend(ae, b);
    BlockSizeAppend(a, b);
  }

  /** The payload has exactly the block size in bytes. */
  lemma {:induction false} PayloadLength(list: seq<Elem>)
    ensures |Payload(list)| == BlockSize(list)
    ensures BlockSize(list) >= 0
    decreases |list|
  {
    if list != [] {
      PayloadLength(list[..|list| - 1]);
    }
  }

  // ---------------------------------------------------------------------------
  // Emitter state and the effect of each call

  /** The output file and the offset at which the next header is expected. */
  datatype EmitState = EmitState(out: seq<Cell>, nextHdrPos: int)

  /** The file cursor stands where the next header is expected. */
  predicate Synced(st: EmitState) {
    |st.out| == st.nextHdrPos
  }

  /** The header write_block_header fills in from its arguments. */
  function MakeHeader(t: BlockType, vendorType: int, version: int, index: int,
                      payloadSize: int, count: int): (h: Header)
  {
    Header(TPLG_MAGIC, TPLG_ABI_VERSION, t, vendorType, version, payloadSize, index, HDR_SIZE, count)
  }

  /** The header write_elem_block writes for a list: vendor type 0, index 0, current ABI. */
  function BlockHeader(t: BlockType, payloadSize: int, count: int): (h: Header) {
    MakeHeader(t, 0, TPLG_ABI_VERSION, 0, payloadSize, count)
  }

  /** write_block_header: offset check, offset accounting, header write. */
  function HeaderStep(st: EmitState, h: Header): (res: (Status, EmitState)) {
    if |st.out| != st.nextHdrPos then (Exit(-EINVAL), st)
    else (Ret(HDR_SIZE), EmitState(st.out + HeaderCells(h), st.nextHdrPos + h.payloadSize + HDR_SIZE))
  }

  /** write_elem_block: header with the given size and the count of all elements, then the payload. */
  function ElemBlockStep(st: EmitState, list: seq<Elem>, size: int, t: BlockType): (res: (Status, EmitState)) {
    var (r, st1) := HeaderStep(st, BlockHeader(t, size, |list|));
    if r.Stops() then (r, st1)
    else
      (Ret(if BlockSize(list) == size then 0 else -EIO),
       EmitState(st1.out + DataCells(Payload(list)), st1.nextHdrPos))
  }

  /** The header type of each family the emitter writes; None for the others. */
  function BlockTypeOf(t: ParserType): (bt: Option<BlockType>) {
    match t
    case Mixer => Some(TypeMixer)
    case Bytes => Some(TypeBytes)
    case Enum => Some(TypeEnum)
    case DapmGraph => Some(TypeDapmGraph)
    case DapmWidget => Some(TypeDapmWidget)
    case Pcm => Some(TypePcm)
    case Be => Some(TypeDaiLink)
    case Cc => Some(TypeDaiLink)
    case _ => None
  }

  /** write_block: skip an empty block, reject an unknown family, else write it. */
  function BlockStep(st: EmitState, list: seq<Elem>, t: ParserType): (res: (Status, EmitState)) {
    var size := BlockSize(list);
    if size <= 0 then (Ret(size), st)
    else match BlockTypeOf(t)
      case None => (Ret(-EINVAL), st)
      case Some(bt) => ElemBlockStep(st, list, size, bt)
  }

  /** The families tplg_write_data writes, in its order. */
  function Families(l: Lists): (fams: seq<(ParserType, seq<Elem>)>) {
    [(Mixer, l.mixers), (Enum, l.enums), (Bytes, l.bytesExts), (DapmWidget, l.widgets),
     (Pcm, l.pcms), (Be, l.bes), (Cc, l.ccs), (DapmGraph, l.routes)]
  }

  /** tplg_write_data: the blocks in order, stopping at the first that stops. */
  function WriteAll(st: EmitState, fams: seq<(ParserType, seq<Elem>)>): (res: (Status, EmitState))
    decreases |fams|
  {
    if fams == [] then (Ret(0), st)
    else
      var (r, st1) := BlockStep(st, fams[0].1, fams[0].0);
      if r.Stops() then (r, st1) else WriteAll(st1, fams[1..])
  }

  /** The block one family contributes: none when its block size is not positive. */
  function FamilyBlocks(t: ParserType, list: seq<Elem>): (blocks: seq<Block>) {
    var size := BlockSize(list);
    if size > 0 && BlockTypeOf(t).Some?
    then [Block(BlockHeader(BlockTypeOf(t).value, size, |list|), Payload(list))]
    else []
  }

  /** The blocks a run over `fams` emits, in family order. */
  function EmittedBlocks(fams: seq<(ParserType, seq<Elem>)>): (blocks: seq<Block>)
    decreases |fams|
  {
    if fams == [] then [] else FamilyBlocks(fams[0].0, fams[0].1) + EmittedBlocks(fams[1..])
  }

  /** Every family is one the emitter writes. */
  predicate Writable(fams: seq<(ParserType, seq<Elem>)>) {
    forall i :: 0 <= i < |fams| ==> BlockTypeOf(fams[i].0).Some?
  }

  /** One step of WriteAll, for the straight-line calls of tplg_write_data. */
  lemma WriteAllStep(st: EmitState, fams: seq<(ParserType, seq<Elem>)>, r: Status, st1: EmitState)
    requires fams != [] && (r, st1) == BlockStep(st, fams[0].1, fams[0].0)
    ensures WriteAll(st, fams) == if r.Stops() then (r, st1) else WriteAll(st1, fams[1..])
  {
  }

  // ---------------------------------------------------------------------------
  // Properties of the emitter

  /**
   * From a synced state, a block of a written family is emitted whole:
   * nothing for an empty block, else its header and payload. The header carries
   * the magic, the ABI version as version, vendor type 0, index 0, the header
   * size, the block size as payload size and the count of all elements of the
   * list, compound ones included. The state stays synced.
   */
  lemma BlockStepSynced(st: EmitState, list: seq<Elem>, t: ParserType)
    requires Synced(st) && BlockTypeOf(t).Some?
    ensures var (r, st') := BlockStep(st, list, t);
      && r == Ret(0)
      && Synced(st')
      && (BlockSize(list) == 0 ==> st' == st)
      && (BlockSize(list) > 0 ==>
            var b := Block(BlockHeader(BlockTypeOf(t).value, BlockSize(list), |list|), Payload(list));
            && st'.out == st.out + EncodeBlock(b)
            && SelfDescribing(b)
            && b.hdr.magic == TPLG_MAGIC && b.hdr.abi == TPLG_ABI_VERSION
            && b.hdr.version == TPLG_ABI_VERSION && b.hdr.vendorType == 0 && b.hdr.index == 0
            && b.hdr.payloadSize == BlockSize(list) && b.hdr.count == |list|)
  {
    PayloadLength(list);
    if BlockSize(list) > 0 {
      ElemBlockSynced(st, list, BlockTypeOf(t).value);
    }
  }

  /** The non-empty case of BlockStepSynced: one header, then the payload, and the state stays synced. */
  lemma ElemBlockSynced(st: EmitState, list: seq<Elem>, bt: BlockType)
    requires Synced(st) && BlockSize(list) > 0
    ensures var b := Block(BlockHeader(bt, BlockSize(list), |list|), Payload(list));
      ElemBlockStep(st, list, BlockSize(list), bt)
        == (Ret(0), EmitState(st.out + EncodeBlock(b), |st.out + EncodeBlock(b)|))
  {
    var size := BlockSize(list);
    PayloadLength(list);
    var h := BlockHeader(bt, size, |list|);
    var st1 := EmitState(st.out + HeaderCells(h), st.nextHdrPos + size + HDR_SIZE);
    assert HeaderStep(st, h) == (Ret(HDR_SIZE), st1);
    assert |DataCells(Payload(list))| == size;
    assert st1.out + DataCells(Payload(list)) == st.out + EncodeBlock(Block(h, Payload(list)));
  }

  /** A block written while the cursor is off the expected offset ends the run and writes nothing. */
  lemma BlockStepDesynced(st: EmitState, list: seq<Elem>, t: ParserType)
    requires !Synced(st) && BlockSize(list) > 0 && BlockTypeOf(t).Some?
    ensures BlockStep(st, list, t) == (Exit(-EINVAL), st)
  {
  }

  /** BlockStepSynced, phrased as appending the family's encoded blocks. */
  lemma FamilyStep(st: EmitState, list: seq<Elem>, t: ParserType)
    requires Synced(st) && BlockTypeOf(t).Some?
    ensures forall i :: 0 <= i < |FamilyBlocks(t, list)| ==> SelfDescribing(FamilyBlocks(t, list)[i])
    ensures BlockStep(st, list, t)
         == (Ret(0), EmitState(st.out + Encode(FamilyBlocks(t, list)), |st.out + Encode(FamilyBlocks(t, list))|))
  {
    BlockStepSynced(st, list, t);
    var fb := FamilyBlocks(t, list);
    var st' := BlockStep(st, list, t).1;
    if fb != [] {
      assert Encode(fb) == EncodeBlock(fb[0]) + Encode([]);
    }
    assert st'.out == st.out + Encode(fb);
    assert st' == EmitState(st'.out, st'.nextHdrPos);
  }

  /**
   * From a synced state, writing families of written kinds succeeds,
   * appends exactly the encoding of the emitted blocks in family order, and
   * leaves the state synced.
   */
  lemma {:induction false} WriteAllSynced(st: EmitState, fams: seq<(ParserType, seq<Elem>)>)
    requires Synced(st) && Writable(fams)
    ensures forall i :: 0 <= i < |EmittedBlocks(fams)| ==> SelfDescribing(EmittedBlocks(fams)[i])
    ensures WriteAll(st, fams)
         == (Ret(0), EmitState(st.out + Encode(EmittedBlocks(fams)), |st.out + Encode(EmittedBlocks(fams))|))
    decreases |fams|
  {
    if fams != [] {
      var t, list := fams[0].0, fams[0].1;
      var rest := fams[1..];
      assert Writable(rest) by {
        forall i | 0 <= i < |rest|
          ensures BlockTypeOf(rest[i].0).Some?
        {
          assert rest[i] == fams[i + 1];
        }
      }
      FamilyStep(st, list, t);
      var head := FamilyBlocks(t, list);
      var st1 := EmitState(st.out + Encode(head), |st.out + Encode(head)|);
      WriteAllSynced(st1, rest);
      assert WriteAll(st, fams) == WriteAll(st1, rest);
      var tail := EmittedBlocks(rest);
      assert EmittedBlocks(fams) == head + tail;
      EncodeAppend(head, tail);
      assert st1.out + Encode(tail) == st.out + Encode(EmittedBlocks(fams));
      forall i | 0 <= i < |head + tail|
        ensures SelfDescribing((head + tail)[i])
      {
        if i >= |head| {
          assert (head + tail)[i] == tail[i - |head|];
        }
      }
    } else {
      assert st.out + Encode(EmittedBlocks(fams)) == st.out;
    }
  }

  /**
   * The offset invariant of the emitter: from a synced state, after the first
   * k families the next header is expected exactly where the encoding of their
   * emitted blocks ends, and the file cursor stands there.
   */
  lemma NextHeaderOffset(st: EmitState, fams: seq<(ParserType, seq<Elem>)>, k: nat)
    requires Synced(st) && Writable(fams) && k <= |fams|
    ensures WriteAll(st, fams[..k]).0 == Ret(0)
    ensures WriteAll(st, fams[..k]).1.nextHdrPos == |st.out| + |Encode(EmittedBlocks(fams[..k]))|
    ensures WriteAll(st, fams[..k]).1.out == st.out + Encode(EmittedBlocks(fams[..k]))
  {
    assert Writable(fams[..k]) by {
      forall i | 0 <= i < k
        ensures BlockTypeOf(fams[..k][i].0).Some?
      {
        assert fams[..k][i] == fams[i];
      }
    }
    WriteAllSynced(st, fams[..k]);
  }

  lemma WritableTail(fams: seq<(ParserType, seq<Elem>)>)
    requires fams != [] && Writable(fams)
    ensures Writable(fams[1..]) && BlockTypeOf(fams[0].0).Some?
  {
  }

  /**
   * Once the cursor is off the expected offset, the first non-empty block ends
   * the run with an exit and nothing is written; with no non-empty block the
   * run succeeds without writing.
   */
  lemma {:induction false} WriteAllDesynced(st: EmitState, fams: seq<(ParserType, seq<Elem>)>)
    requires !Synced(st) && Writable(fams)
    ensures WriteAll(st, fams) == if EmittedBlocks(fams) == [] then (Ret(0), st) else (Exit(-EINVAL), st)
    decreases |fams|
  {
    if fams != [] {
      WritableTail(fams);
      var t, list := fams[0].0, fams[0].1;
      PayloadLength(list);
      if BlockSize(list) > 0 {
        BlockStepDesynced(st, list, t);
        assert EmittedBlocks(fams) == FamilyBlocks(t, list) + EmittedBlocks(fams[1..]);
        assert |FamilyBlocks(t, list)| == 1;
      } else {
        assert BlockStep(st, list, t) == (Ret(0), st);
        WriteAllDesynced(st, fams[1..]);
        assert EmittedBlocks(fams) == EmittedBlocks(fams[1..]);
      }
    }
  }

  /**
   * A fresh output file becomes, after tplg_write_data, a
   * file that a header-only reader splits back into exactly the emitted blocks:
   * mixer, enum, bytes, widget, pcm, be, cc and route, each present when its
   * block size is positive.
   */
  lemma WriteDataFresh(l: Lists)
    ensures WriteAll(EmitState([], 0), Families(l)).0 == Ret(0)
    ensures Decode(WriteAll(EmitState([], 0), Families(l)).1.out) == Some(EmittedBlocks(Families(l)))
    ensures Synced(WriteAll(EmitState([], 0), Families(l)).1)
  {
    var fams := Families(l);
    assert Writable(fams);
    WriteAllSynced(EmitState([], 0), fams);
    assert [] + Encode(EmittedBlocks(fams)) == Encode(EmittedBlocks(fams));
    DecodeEncode(EmittedBlocks(fams));
  }

  /** An empty output file on a context whose next header is expected past 0: nothing is written. */
  lemma WriteDataReused(l: Lists, pos: int)
    requires pos != 0
    ensures WriteAll(EmitState([], pos), Families(l)).1 == EmitState([], pos)
    ensures WriteAll(EmitState([], pos), Families(l)).0
      == if EmittedBlocks(Families(l)) == [] then Ret(0) else Exit(-EINVAL)
  {
    var fams := Families(l);
    assert Writable(fams);
    WriteAllDesynced(EmitState([], pos), fams);
  }

  // ---------------------------------------------------------------------------
  // The emitter's loops

  /** calc_block_size: sum the sizes of the non-compound elements. */
  method CalcBlockSize(list: seq<Elem>) returns (size: int)
    ensures size == BlockSize(list)
    ensures (forall i :: 0 <= i < |list| ==> list[i].compoundElem) ==> size == 0
  {
    size := 0;
    var i := 0;
    while i < |list|
      invariant 0 <= i <= |list|
      invariant size == BlockSize(list[..i])
      invariant (forall k :: 0 <= k < i ==> list[k].compoundElem) ==> size == 0
    {
      var elem := list[i];
      assert list[..i + 1][..i] == list[..i];
      if !elem.compoundElem {
        size := size + |elem.obj|;
      }
      i := i + 1;
    }
    assert list[..i] == list;
  }

  // ---------------------------------------------------------------------------
  // The build context

  /** The build context's emitter state and element lists (snd_tplg_t). */
  class Tplg {
    var lists: Lists
    var out: seq<Cell>
    var nextHdrPos: int

    function State(): (st: EmitState)
      reads this
    {
      EmitState(out, nextHdrPos)
    }

    /** snd_tplg_new: empty lists, and the next header expected at offset 0. */
    constructor ()
      ensures lists == EmptyLists && out == [] && nextHdrPos == 0
    {
      lists := EmptyLists;
      out := [];
      nextHdrPos := 0;
    }

    /** write_block_header. */
    method WriteBlockHeader(t: BlockType, vendorType: int, version: int, index: int,
                            payloadSize: int, count: int) returns (r: Status)
      modifies this`out, this`nextHdrPos
      ensures (r, State()) == HeaderStep(old(State()), MakeHeader(t, vendorType, version, index, payloadSize, count))
    {
      var hdr := MakeHeader(t, vendorType, version, index, payloadSize, count);
      var offset := |out|;
      if offset != nextHdrPos {
        return Exit(-EINVAL);
      }
      nextHdrPos := nextHdrPos + hdr.payloadSize + HDR_SIZE;
      out := out + HeaderCells(hdr);
      r := Ret(HDR_SIZE);
    }

    /** write_elem_block. */
    method WriteElemBlock(list: seq<Elem>, size: int, t: BlockType) returns (r: Status)
      modifies this`out, this`nextHdrPos
      ensures (r, State()) == ElemBlockStep(old(State()), list, size, t)
    {
      var count := 0;
      var i := 0;
      while i < |list|
        invariant 0 <= i <= |list| && count == i
      {
        count := count + 1;
        i := i + 1;
      }

      r := WriteBlockHeader(t, 0, TPLG_ABI_VERSION, 0, size, count);
      if r.Stops() {
        return;
      }

      ghost var start := out;
      var wsize := 0;
      i := 0;
      while i < |list|
        invariant 0 <= i <= |list|
        invariant out == start + DataCells(Payload(list[..i]))
        invariant wsize == BlockSize(list[..i])
        invariant nextHdrPos == old(nextHdrPos) + size + HDR_SIZE
      {
        var elem := list[i];
        assert list[..i + 1][..i] == list[..i];
        if !elem.compoundElem {
          DataCellsAppend(Payload(list[..i]), elem.obj);
          out := out + DataCells(elem.obj);
          wsize := wsize + |elem.obj|;
        }
        i := i + 1;
      }
      assert list[..i] == list;

      if wsize != size {
        return Ret(-EIO);
      }
      r := Ret(0);
    }

    /** write_block. */
    method WriteBlock(list: seq<Elem>, t: ParserType) returns (r: Status)
      modifies this`out, this`nextHdrPos
      ensures (r, State()) == BlockStep(old(State()), list, t)
    {
      var size := CalcBlockSize(list);
      if size <= 0 {
        return Ret(size);
      }
      var bt := BlockTypeOf(t);
      if bt.None? {
        return Ret(-EINVAL);
      }
      r := WriteElemBlock(list, size, bt.value);
    }

    /** tplg_write_data. */
    method WriteData() returns (r: Status)
      modifies this`out, this`nextHdrPos
      ensures (r, State()) == WriteAll(old(State()), Families(lists))
    {
      ghost var fams := Families(lists);
      ghost var st := State();
      r := WriteBlock(lists.mixers, Mixer);
      WriteAllStep(st, fams, r, State());
      if r.Stops() { return; }
      fams, st := fams[1..], State();
      r := WriteBlock(lists.enums, Enum);
      WriteAllStep(st, fams, r, State());
      if r.Stops() { return; }
      fams, st := fams[1..], State();
      r := WriteBlock(lists.bytesExts, Bytes);
      WriteAllStep(st, fams, r, State());
      if r.Stops() { return; }
      fams, st := fams[1..], State();
      r := WriteBlock(lists.widgets, DapmWidget);
      WriteAllStep(st, fams, r, State());
      if r.Stops() { return; }
      fams, st := fams[1..], State();
      r := WriteBlock(lists.pcms, Pcm);
      WriteAllStep(st, fams, r, State());
      if r.Stops() { return; }
      fams, st := fams[1..], State();
      r := WriteBlock(lists.bes, Be);
      WriteAllStep(st, fams, r, State());
      if r.Stops() { return; }
      fams, st := fams[1..], State();
      r := WriteBlock(lists.ccs, Cc);
      WriteAllStep(st, fams, r, State());
      if r.Stops() { return; }
      fams, st := fams[1..], State();
      r := WriteBlock(lists.routes, DapmGraph);
      WriteAllStep(st, fams, r, State());
      if r.Stops() { return; }
      r := Ret(0);
    }
  }
}
