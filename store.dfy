/**
 * The element store of a topology build: one ordered list of elements per
 * object family, in insertion order.
 */
module Store {
  import opened Base

  /**
   * An element (struct tplg_elem) as the emitter sees it: its identity, the
   * bytes `obj` of its encoded object, and the `compoundElem` flag, set once
   * its bytes were copied into another element. The element's `size` is
   * `|obj|`: the emitter writes exactly `size` bytes from `obj`.
   */
  datatype Elem = Elem(id: string, obj: seq<byte>, compoundElem: bool)

  /**
   * The element families (PARSER_TYPE_*). The eight the emitter writes are
   * Mixer, Enum, Bytes, DapmWidget, DapmGraph, Pcm, Be and Cc; the other five
   * name the lists that only feed other elements.
   */
  datatype ParserType =
    | Tlv | Mixer | Enum | Bytes | Text | Data
    | DapmWidget | DapmGraph | PcmConfig | PcmCaps | Pcm | Be | Cc

  /** The thirteen element lists of the build context (snd_tplg_t). */
  datatype Lists = Lists(
    tlvs: seq<Elem>,
    widgets: seq<Elem>,
    pcms: seq<Elem>,
    bes: seq<Elem>,
    ccs: seq<Elem>,
    routes: seq<Elem>,
    pdatas: seq<Elem>,
    texts: seq<Elem>,
    pcmConfigs: seq<Elem>,
    pcmCaps: seq<Elem>,
    mixers: seq<Elem>,
    enums: seq<Elem>,
    bytesExts: seq<Elem>)

  /** The store of a new build context: every list empty. */
  const EmptyLists := Lists([], [], [], [], [], [], [], [], [], [], [], [], [])
}
