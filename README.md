# ALSA topology compiler: parse, link and emit

This project models the core of alsa-lib's topology compiler (`src/topology`).
The compiler reads a configuration tree of audio topology sections and parses
each section into typed element lists. It links the elements in a fixed order
and then writes a binary topology file for the kernel.

That file is a sequence of blocks. Each block is a fixed-size header followed by
the objects of one element family. The emitter keeps an independently
accumulated `next_hdr_pos` and checks it against the file cursor before every
header. It also checks each block's written byte count against its computed
size.

Modules:

- `Base`: bytes, `Option`, errno codes, and `Status`. A `Status` is an `int`
  return code, or the process exit that the emitter performs on a misaligned
  header.
- `Format`: the header record, the output file as a sequence of cells, the
  encoding of blocks, and a reader that understands nothing but the header.
- `Store`: elements (`struct tplg_elem` as far as the emitter sees it), the
  family tags, and the thirteen element lists of the build context.
- `Builder`: `builder.c`. `Tplg` is a class whose `out` (the file) and
  `nextHdrPos` fields the emitter methods update. Each method is proved equal to
  a step function on `EmitState`, and the lemmas about those functions state the
  offset invariant and the read-back property.
- `Parser`: `parser.c`. It holds compound parsing, top-level section dispatch,
  the link-pass order, and the chaining of the three phases in `snd_tplg_build`.
  The loops are methods proved equal to spec functions, which are built on one
  first-error-wins fold, `Chain`.

Inputs that the model takes as parameters:

- Section handlers are a parameter `hs : Section -> Handler`.
- Link passes are a parameter `passes : LinkPass -> Pass`.
- The loaded configuration tree is a `Config` value.

Facts from the code that the model follows:

- The code recognises thirteen section names, `SectionTLV` through
  `SectionData`.
- The header `count` is the number of elements in the list, compound ones
  included, although only the non-compound ones are written
  (`builder.c:92-98`).
- `snd_tplg_build` recreates the output file but does not reset
  `next_hdr_pos`. On a context that has already written a block, a second
  build whose parse and link succeed and that would emit a block therefore
  ends in the offset check's exit, with nothing written
  (`Parser.ReusedContextExits`). A second build whose parse or link fails
  returns that failure before any header is written, and one that would emit
  no block returns 0.
- Inside `tplg_parse_compound`'s loop, the kind test is made on the parent
  node, not on the child. Children of any kind reach the handler
  (`Parser.LeafChildHandled`).

## Model

| member | source | states |
|---|---|---|
| Format.DecodeEncode | src/topology/builder.c:54-57 | when every header records its own size and its payload's length, a reader that follows only the headers splits the file back into exactly the written blocks |
| Format.HeaderOffsets | src/topology/builder.c:59-73 | in the encoding of a block sequence, block i's header starts at the sum of the header and payload sizes of all earlier blocks |
| Builder.BlockSizeAppend | src/topology/builder.c:141-159 | block size and block payload are additive over list concatenation |
| Builder.CompoundElemIgnored | src/topology/builder.c:151-153 | an element flagged compound contributes neither size nor bytes, wherever it stands in the list |
| Builder.PayloadLength | src/topology/builder.c:105-136 | the payload written has exactly the block size in bytes, and the block size is non-negative |
| Builder.CalcBlockSize | src/topology/builder.c:141-159 | the sum of `size` over the non-compound elements; 0 when every element is compound |
| Builder.Tplg.constructor | src/topology/parser.c:315-338 | a new context has all thirteen lists empty, an empty output and the next header expected at offset 0 |
| Builder.Tplg.WriteBlockHeader | src/topology/builder.c:40-83 | exits with -EINVAL and changes nothing when the cursor is not at `next_hdr_pos`; otherwise appends the header, advances `next_hdr_pos` by header plus payload size and returns the header size |
| Builder.Tplg.WriteElemBlock | src/topology/builder.c:85-139 | writes a header whose count is the list length and whose payload size is `size`, stops if the header stops, appends the non-compound objects in list order, and returns -EIO on a size mismatch, else 0 |
| Builder.Tplg.WriteBlock | src/topology/builder.c:161-204 | returns a non-positive block size without writing, returns -EINVAL for a family that has no block type, and otherwise writes the block with its family's type (BE and CC both as DAI links) |
| Builder.Tplg.WriteData | src/topology/builder.c:206-275 | writes mixer, enum, bytes, widget, PCM, BE, CC and route blocks in that order, returning the first stopping result, else 0 |
| Builder.BlockStepSynced | src/topology/builder.c:161-204 | from an aligned cursor, a block of a written family returns 0 and stays aligned; it appends nothing when empty, else exactly one self-describing block with magic, ABI as version, vendor type 0, index 0, block size as payload size and the list length as count |
| Builder.BlockStepDesynced | src/topology/builder.c:59-67 | a non-empty block written while the cursor is off `next_hdr_pos` ends the run with exit(-EINVAL) and writes nothing |
| Builder.ElemBlockSynced | src/topology/builder.c:85-139 | from an aligned cursor, a non-empty list written with its own block size returns 0 and appends exactly its header and payload, leaving the cursor aligned |
| Builder.NextHeaderOffset | src/topology/builder.c:59-73 | from an aligned cursor, after the first k families both `next_hdr_pos` and the file cursor stand at the end of the encoding of the blocks those families emitted |
| Builder.FamilyStep | src/topology/builder.c:161-204 | from an aligned cursor, one family appends exactly the encoding of its emitted blocks, all self-describing |
| Builder.WriteAllSynced | src/topology/builder.c:206-275 | from an aligned cursor, the write phase returns 0, appends the encoding of the emitted blocks in family order and leaves the cursor aligned |
| Builder.WriteAllDesynced | src/topology/builder.c:206-275 | from a misaligned cursor, the write phase writes nothing; it exits with -EINVAL if any block would be emitted and returns 0 otherwise |
| Builder.WriteDataFresh | src/topology/builder.c:206-275 | on an empty file with the next header at 0, the write phase returns 0, the file reads back as exactly the emitted blocks, and the cursor stays aligned |
| Builder.WriteDataReused | src/topology/builder.c:59-67 | on an empty file with the next header expected past 0, nothing is written, and the write phase exits with -EINVAL once any block would be emitted |
| Parser.ChainAppend | src/topology/parser.c:43-55 | after children that all succeed, the walk continues from the store they left, carrying the last result |
| Parser.ChainSurvives | src/topology/parser.c:43-57 | with no failing child, the result is the last child's result and the store after every child |
| Parser.LastNonNegative | src/topology/parser.c:52-57 | when no step fails and at least one step runs, the result carried out is non-negative; with no steps it is the starting code, so an empty compound keeps the initial -EINVAL of parser.c:32 |
| Parser.LastIsFinalStep | src/topology/parser.c:52-57 | the carried result and store are those of the final step, run on the store the earlier steps left |
| Parser.ChainFailsAt | src/topology/parser.c:52-54 | the first failing step's result and store are returned; later children are never visited |
| Parser.ChainCases | src/topology/parser.c:43-57 | either every step succeeds, or the result is exactly that of the first failing step |
| Parser.ParseCompound | src/topology/parser.c:25-58 | -EINVAL with the store unchanged for a node without id, a node that is not compound, or a compound without children; otherwise the handler on each child in order, the first error wins, else the last handler's result |
| Parser.LeafChildHandled | src/topology/parser.c:43-55 | a non-compound child at any position, after siblings that all succeed, is passed to the handler with the store they left, and the walk continues from its result; a failure there is returned as is |
| Parser.SectionTable | src/topology/parser.c:79-181 | each of the thirteen section names selects exactly one section, and each section is selected by exactly its own name |
| Parser.ParseConfig | src/topology/parser.c:60-186 | -EINVAL for a non-compound top node; otherwise each recognised section is parsed in order by its handler, the first negative result is returned, else 0; the result is never positive |
| Parser.NormalizeIgnoresCode | src/topology/parser.c:183-185 | a successful section's positive result does not reach the caller of the top-level parse |
| Parser.ChainSkip | src/topology/parser.c:76-77 | an entry that reports 0 and leaves every store unchanged can be removed without changing the result |
| Parser.UnknownEntrySkipped | src/topology/parser.c:73-184 | a top-level entry whose id cannot be read, or whose name is not a section name, changes neither result nor store |
| Parser.SectionFailureAborts | src/topology/parser.c:79-85 | a recognised section that fails after successful earlier entries aborts the parse with that section's result and store |
| Parser.ParseConfigResult | src/topology/parser.c:60-186 | on a compound top node the result is at most 0, and it is 0 exactly when no recognised section fails |
| Parser.BuildInteg | src/topology/parser.c:232-261 | runs controls, widgets, PCM, BE and CC DAI passes and routes in that order; the first negative result is returned with its store, else the last result |
| Parser.BuildIntegFailsAt | src/topology/parser.c:232-261 | when the passes before position k succeed and pass k fails, the link phase returns pass k's result and store, and no later pass matters |
| Parser.BuildIntegSucceeds | src/topology/parser.c:256-260 | with no failing pass, the link phase returns the route pass's non-negative result on the store the five earlier passes left |
| Parser.Build | src/topology/parser.c:263-308 | empties the output file, then parses, then links only after a successful parse, then writes only after a successful link, returning the first failure's code |
| Parser.ParseFailureStops | src/topology/parser.c:286-290 | a failed parse is returned as is, the link passes are irrelevant, and nothing is written |
| Parser.LinkFailureStops | src/topology/parser.c:292-296 | a failed link phase is returned as is and nothing is written |
| Parser.BuildFresh | src/topology/parser.c:263-308 | on a new context whose parse and link succeed, the build returns 0 and the file reads back as exactly the emitted blocks of the linked lists |
| Parser.ReusedContextExits | src/topology/parser.c:268-298 | because the build does not reset the next-header offset, a build on a context expecting its next header past 0 exits with -EINVAL and writes nothing, once it would emit a block |

## Left out

- File I/O: the `unlink`, `open` and `close` of the output file (`parser.c:268-277`, 306) and `tplg_load_config` (`parser.c:188-230`), with their error returns, are not modelled. The build starts from an already loaded `Config` and an empty output sequence.
- The configuration library (`snd_config_*`): the tree is a `Config` value, and a node whose id cannot be read has `id == None`.
- The section handlers and link passes (`tplg_parse_tlv` … `tplg_parse_data`, `tplg_build_controls`, `tplg_build_widgets`, `tplg_build_pcm_dai`, `tplg_build_routes`) live in files that are not part of this model. They are parameters.
- `verbose`, `snd_tplg_verbose` and every `fprintf`: diagnostics only.
- `snd_tplg_free`: memory release; the model has no explicit deallocation.
- Builder.Tplg.WriteElemBlock: the model assumes that every `write()` completes. The element loop appends the element's `size` object bytes and counts `size`, so a failed or short write (`builder.c:121-126`) is not modelled. Through `write_block` the size check at `builder.c:132-135` therefore never returns -EIO. On the failed-write path the code returns `ret`, which holds the header's byte count rather than an error.
- Builder.Tplg.WriteBlockHeader: a short header write (`builder.c:75-80`) is not modelled.
- The byte layout of `struct snd_soc_tplg_hdr` belongs to the kernel. `HDR_SIZE`, `TPLG_MAGIC` and `TPLG_ABI_VERSION` are abstract constants, and a header is `HDR_SIZE` cells that each name their header.
- The 32-bit widths of `next_hdr_pos`, of the block size and of the `int` sizes are not modelled; sums are unbounded.
- An element's `size` is the length of its object bytes `obj`. An element whose `size` field disagrees with its buffer, so that the write reads past the buffer, is not modelled.
- `include/topology.h` holds declarations only; the `PARSER_TYPE_*` values are named after the element lists, since `tplg_local.h` is not part of this model.
