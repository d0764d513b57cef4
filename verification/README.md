# bee-rpc: the block transform and its wire protocol

bee-rpc sends protobuf messages that are too large to hold in one piece. Large fields live in
*blocks*, stored once under the hash of their content and referenced by small *block pointers*.
An object with pointers is stored as a *multiblock directory*: parts and block references in
turns, each reference with its *chain*, the positions of the length varints around it in the
expanded stream. This project models that transform, its inverse, the splitter that does it from
raw bytes, the measures over the store, and the framed transfer with skip requests, and proves
that they mean what they are for.

Everything meets in a few definitions. A `Doc` (documents) is a serialized message with holes, each
hole with two fillings; building exchanges pointers for contents, collapsing the reverse
(`Flip`). `DirectoryOf` (layouts) is the one definition of a directory. A `Store` maps ids to
files and directories; `Expansion(s, id)` is what a block stands for. A `Flow` is a stream with its
block structure, both the unfolding of a stored directory and a framed stream on the wire. The
hash is an arbitrary function; where a claim needs it, it is assumed injective.

| file | what it holds |
|---|---|
| bytes, varint | byte strings, results; base 128 varints and the library's loops over them |
| document, layout | messages with holes, positions, trees of lengths; directories, chains, expansion |
| wire | the wire format of a message, field by field |
| store, reader | the registry, expansion, measuring, seeking; chunked and framed reading |
| pointers, message | hash types and their inheritance, pointer bytes; messages as the builder walks them |
| lengths_tree, builder, build | the lengths tree; searching, measuring, writing the buffer; `build_multiblock` |
| symbols, driver, wbp, collapse | edits from right to left; varints in parts; new lengths; `generate_wbp_file` |
| receiver, safety, buffers | the receiver one buffer at a time; what it keeps on any stream; single buffers, the rules of nesting and early ends |
| descent, roundtrip | it is a recursive descent on well-nested streams; what that leaves |
| acceptance | which directories have a pointer form a receiver can write, here and elsewhere |
| generators | the receiver as written, generator over generator, is that machine |
| filter, elision, skip_filter | the skip filter; what it drops; the generator over its control object |
| control, transfer, session | `StreamControl`; every interleaving of sending, receiving and requesting; the same with the objects themselves |
| splitting, splitter | the walk over raw bytes and what it keeps; the reader, writer and walk as written |
| padding | length varints longer than they need be, and what they do to a pointer form |
| journey | from a message at one node to the same message at another |

The main results are `Journeys.MessageTravels`, `Transfers.EndToEnd`, `Sessions.Play`,
`Transfers.RuleNeverFails`, `Safety.StoreInvariant`, `Safety.RunningHash`,
`Generators.ParseFromBuffer`, `Descent.Descends`, `Elision.OnlyElides`, `Controls.Interleave`,
`Build.BuildMultiblock` with `Build.BuiltExpands`, `Messages.FoundInOrder` and `Layouts.ChainsLead`,
`Collapse.GenerateWbpFile` with `Collapse.BuildThenCollapse`, `Acceptance.TakesCanonical`, `Symbols.EditsExchange`,
`Splitter.SplitBlock`, `Splitting.WalkIsTheFormat`, `Splitter.SplitterRefinesBuilder`, `Splitting.SplitLeads` and
`Paddings.PointerFormIsRight`.

Conditions a caller can check, wherever a claim has one: field numbers are 1 to 15 (the library
counts one tag byte); strings have one byte per character; pointers sit in singular bytes fields,
serialized as protobuf writes them; pointers that are collapsed are in the encoding the library writes,
their types left out only where the context supplies the registry's own first; directories alternate part,
block, ..., part; framing is at most 32 levels deep; a sender that frames blocks inside blocks, which
is not the default, keeps a *tidy* store: every directory in it is one the builder makes, or was
received from such a sender. Where it is not, the receiver may refuse a pointer form, and then stores
neither that block nor the object; that, and nothing else, can stop a transfer.

Three things the code does that its documentation does not say: a start marker that carries a chunk
has it written and hashed at both ends of an outermost block (`Safety.StartChunkIsTakenTwice`); one
that carries a head starts an outermost block that its end marker does not end
(`Safety.HeadKeepsItOpen`); and `split_block` succeeds on a block with a padded length varint while
the pointer form beside it cannot be parsed (`Splitting.PaddedIsTaken` with `Paddings.PaddedIsOff`).

## Model

| member | source | states |
|---|---|---|
| Varint.EncodeBytes | src/bee_rpc/utils.py:382-396 | the writing loop produces the base 128 encoding |
| Varint.GetPositionLength | src/bee_rpc/block_builder.py:81-95 | it returns the varint that stands at the position, and fails exactly when the buffer ends first |
| Varint.ReadVarintInFile | src/bee_rpc/utils.py:436-451 | the reading loop returns what the bytes state, ending silently with the file |
| Varint.ReadersAgree | src/bee_rpc/utils.py:436-451 | every reader returns what the writers wrote, whatever follows |
| Varint.WidthMonotone | src/bee_rpc/block_driver.py:11-49 | a larger number never has a shorter encoding |
| Splitting.ShortAgrees | src/bee_rpc/block_splitter.py:96-106 | the splitter's reader accepts exactly the varints of at most ten bytes, with the same value |
| Documents.SpotsPrefixFree | src/bee_rpc/utils.py:364-379 | no block's chain is a prefix of another's, so the tree never has a block and a branch at one position |
| LengthsTrees.CreateLengthsTree | src/bee_rpc/utils.py:364-379 | for any container and any order of iteration the tree has exactly the listed chains, or the lists conflict |
| LengthsTrees.InsertExactly | src/bee_rpc/utils.py:364-379 | one chain fails exactly if it is empty or runs through a block already there |
| LengthsTrees.TreeOfContainer | src/bee_rpc/utils.py:364-379 | a tree with the chains of a document is the document's own tree: insertion order does not show |
| LengthsTrees.GatheredIsDocument | src/bee_rpc/block_builder.py:222-302 | the chains gathered from a document are exactly those that lead to its blocks |
| Builder.Search.SearchOnMessage | src/bee_rpc/block_builder.py:222-302 | the container receives every selected pointer with the chain of positions around it, and its size by position |
| Builder.TraverseTree | src/bee_rpc/block_builder.py:322-369 | it succeeds exactly when every block is measurable, with every length the expansion needs and the expanded total; the length guard never fires |
| Builder.MeasureField | src/bee_rpc/block_builder.py:326-352 | one entry of the tree: the field's lengths and sizes in both coordinate systems |
| Builder.GetBlockLength | src/bee_rpc/block_builder.py:110-123 | the length of the block's expansion, for both stored shapes, and an error exactly when it has none |
| Builder.SortByPosition | src/bee_rpc/block_driver.py:117-117 | an ascending listing of the dictionary, nothing lost or added |
| Builder.SortedIsPreorder | src/bee_rpc/block_builder.py:386-397 | sorted by position, the lengths are the pointer-bearing fields in preorder |
| Builder.GenerateBuffer | src/bee_rpc/block_builder.py:372-397 | the loop cuts the buffer as the list of lengths says |
| Builder.EndsInLeaf | src/bee_rpc/block_builder.py:386-397 | the list of lengths ends in a block, so no pending bytes are lost |
| Builder.PartsWritten | src/bee_rpc/block_builder.py:372-397 | what is cut are the parts of the expanded message's directory |
| Build.RealSearch.SearchOnMessageReal | src/bee_rpc/block_builder.py:126-219 | the container receives every block with its chain in the coordinates of the expanded stream; it fails only when a block cannot be measured |
| Build.AbsorbBlock | src/bee_rpc/block_builder.py:400-434 | a block adds its expansion to the id, for files and directories alike; it fails exactly on a block that is not whole, or a directory with a file inside that is not what its id names |
| Build.GenerateId | src/bee_rpc/block_builder.py:400-434 | the hash of parts and block expansions in turns, exactly when every block can be streamed |
| Build.WriteDirectory | src/bee_rpc/block_builder.py:498-514 | the entries are the parts and the references zipped |
| Build.CheckCovers | src/bee_rpc/block_builder.py:36-78 | of the blocks the caller lists, exactly those to which no chain of the message leads; none, if and only if every listed block has one |
| Build.BuildMultiblock | src/bee_rpc/block_builder.py:441-522 | it succeeds exactly when every listed block is named by some pointer of the message, at any depth, and can be streamed; the directory, id and pointer form are then those of the expanded message, the references in the order of the pointers; listed blocks no pointer names are reported, all of them and no others |
| Build.TargetsListed | src/bee_rpc/block_builder.py:36-78 | the chains of the message lead to exactly the listed blocks its pointers name, and the directory has those, in order |
| Build.BuiltExpands | src/bee_rpc/block_builder.py:441-522 | the built directory streams the message with every selected pointer replaced by its block, all enclosing lengths rewritten |
| Build.BlockListIsASet | src/bee_rpc/block_builder.py:400-434 | neither order nor multiplicity of the caller's block list matters |
| Build.PointerEncodingIsInvisible | src/bee_rpc/block_builder.py:98-107 | objects that differ only in how the pointers of the same blocks are written build the same directory and id |
| Build.ContextIsInvisible | src/bee_rpc/utils.py:265-325 | an object whose pointers inherit their hash types, the same with the types written out in any other context, and the same with the library's own pointers, spelled out or omitting a type the context supplies, build the same directory and id |
| Layouts.DirectoryExpands | src/bee_rpc/block_builder.py:498-514 | a document's directory expands to the document's text |
| Layouts.DirectoryAlternates | src/bee_rpc/block_builder.py:498-514 | entries are a part, a block, a part, ..., a part |
| Layouts.ZipInverts | src/bee_rpc/block_builder.py:498-514 | zipping the parts and the references of an alternating directory gives it back |
| Layouts.ChainsLead | src/bee_rpc/block_builder.py:126-219 | read in the expanded stream, every chain lists nested length varints, outermost first, the last stating the block's length right before its bytes |
| Layouts.SpotsSound | src/bee_rpc/block_builder.py:222-302 | every recorded chain leads to a hole with that block |
| Layouts.SpotsComplete | src/bee_rpc/block_builder.py:222-302 | every hole is recorded |
| Pointers.ResolveHashTypes | src/bee_rpc/utils.py:265-288 | each hash has its own type, or else the one inherited at its index; resolution fails exactly when some hash has neither |
| Pointers.NearestAnswers | src/bee_rpc/utils.py:291-302 | index by index, the nearest enclosing pointer that reaches it answers |
| Pointers.NobodyAnswers | src/bee_rpc/utils.py:291-302 | an index no enclosing pointer reaches is not inherited |
| Pointers.SpellingIsInvisible | src/bee_rpc/utils.py:305-325 | writing inherited types out changes neither resolution nor the id, in any context |
| Pointers.WrittenPointerNames | src/bee_rpc/utils.py:328-347 | the pointer the library writes names its block, spelled out or inheriting |
| Pointers.BlockIdExactly | src/bee_rpc/utils.py:305-325 | a pointer names a block if and only if all its hashes have a type, own or inherited by position, and the first hash made with the node's algorithm, wherever it stands, has that value |
| Pointers.PointerParses | src/bee_rpc/buffer.proto:15-22 | the bytes of any pointer, read in the wire format with field 1 for hashes and in each 1 for the type and 2 for the value, are that pointer |
| Messages.FlipIsInlined | src/bee_rpc/block_builder.py:441-522 | exchanging pointers for contents is serializing the message with the contents inline |
| Messages.ExpansionForgetsPointers | src/bee_rpc/block_builder.py:126-219 | the expanded object does not show how its pointers were written |
| Messages.SpelledOutIsSame | src/bee_rpc/utils.py:265-288 | with inherited types written out, a message's pointers select the same blocks wherever it is put |
| Messages.RewrittenIsSame | src/bee_rpc/utils.py:328-347 | so do the library's own pointers, with types omitted where the context supplies the registry's own first |
| Messages.SelectedExactly | src/bee_rpc/block_builder.py:17-33 | a pointer field is a block exactly when the block is listed and is the one it names |
| Messages.FoundInOrder | src/bee_rpc/block_builder.py:222-302 | the blocks found in a message are, in order, the listed blocks that its pointers name, at any depth |
| Messages.SerializesFields | src/bee_rpc/block_builder.py:441-522 | the serialization, read in the wire format, has the message's fields in order: numbers, bytes, pointers and sub-messages |
| Stores.GetExpandedBlockLength | src/bee_rpc/utils.py:454-482 | it terminates; succeeds exactly on blocks with neither cycle nor gap below, with the length of the expansion; each error names what is there |
| Stores.GetSize | src/bee_rpc/utils.py:494-522 | the sum over a directory's entries, shared blocks counted each time |
| Stores.GetSizeOfPath | src/bee_rpc/utils.py:494-522 | the expansion's length, zero for a path that is not there |
| Stores.WholeExactly | src/bee_rpc/utils.py:454-482 | a block is measurable if and only if no cycle and no missing block is reachable |
| Stores.SeekExpandedPosition | src/bee_rpc/utils.py:414-433 | every position of the stream, and no other, is found in a file that covers that very byte, at any nesting depth |
| Stores.GetVarintAtPosition | src/bee_rpc/utils.py:436-451 | a varint recorded in a part is read where it is recorded; it fails exactly beyond the end of the stream |
| Reader.ReadFileByChunks | src/bee_rpc/reader.py:33-49 | nonempty chunks that join to the file, all but the last of 1 MiB |
| Reader.ReadsDirectory | src/bee_rpc/reader.py:52-104 | reading streams the directory's unfolding, framed as deep as asked |
| Reader.ReadsBlock | src/bee_rpc/reader.py:134-161 | the same for a block, a single file checked against its id first |
| Reader.FrameContent | src/bee_rpc/reader.py:82-104 | chunking and framing change no byte |
| Reader.ReadBlockMeansWhole | src/bee_rpc/reader.py:134-161 | a read that succeeds met neither a gap nor a cycle nor a corrupt file |
| Reader.StreamedIsMeasured | src/bee_rpc/reader.py:134-161 | measured length is streamed length, at any framing depth |
| Symbols.EditsExchange | src/bee_rpc/block_driver.py:105-131 | edits from the last position to the first, each at its position in the original stream, are the exchange of all lengths at once |
| Symbols.DirectoryFlattens | src/bee_rpc/block_driver.py:52-102 | a directory's bytes and blocks in order are the document's |
| Driver.ReadLength | src/bee_rpc/block_driver.py:23-34 | the varint stated at a position is what is read there |
| Driver.StatesOnce | src/bee_rpc/utils.py:436-451 | what stands at a position is one number |
| Driver.SetVarintInPart | src/bee_rpc/block_driver.py:53-84 | one varint of a part is replaced, all else kept |
| Driver.SetVarintValue | src/bee_rpc/block_driver.py:52-102 | it fails exactly when no whole varint stands at the position in a part; otherwise that part, rewritten in place, has the new varint there, and nothing else is touched; nothing at all on failure |
| PointerForm.TakeNested | src/bee_rpc/block_driver.py:23-49 | the loop adds up what nested fields give off and marks it counted |
| PointerForm.RecComputeWbpLengths | src/bee_rpc/block_driver.py:11-49 | on a document's tree it succeeds with the length every varint must state in the pointer form, also when blocks are shorter than pointers |
| PointerForm.RecomputeNode | src/bee_rpc/block_driver.py:26-47 | one entry of the tree, keeping the lengths still to come apart; for a block, refused exactly when the varint states less than the block has beyond its pointer |
| Collapse.GatherChains | src/bee_rpc/block_driver.py:157-199 | every chain is gathered with its pointer's length; it fails exactly on an invalid chain |
| Collapse.ValidChainExactly | src/bee_rpc/block_driver.py:157-199 | a chain is valid if it is not empty and nowhere descends |
| Collapse.ValidateLengthsTree | src/bee_rpc/validate_lengths_tree.py:6-46 | metadata whose varints can be read passes exactly when no block expands, beyond its pointer, past what the last varint of a chain of its states |
| Collapse.DescribedPasses | src/bee_rpc/validate_lengths_tree.py:6-46 | a chain whose last varint states how far its block expands passes |
| Collapse.VarintsReadable | src/bee_rpc/utils.py:436-451 | in a document's directory every recorded varint is read where it is recorded |
| Collapse.RegenerateBuffer | src/bee_rpc/block_driver.py:105-131 | in-place edits and written pointers give the document with its holes filled the other way; on any other directory a success means that every edit was made, last position first, where a varint stood |
| Collapse.GenerateWbpFile | src/bee_rpc/block_driver.py:134-222 | on a document's directory it writes the document in pointer form, byte for byte, each pointer one that names its block; on any directory a success means that every chain was valid and no block past its varint |
| Collapse.PointerFormPoints | src/bee_rpc/block_driver.py:105-131 | in the pointer form the chain of every block leads to bytes that, read in the wire format, are a pointer that names the block in the context around |
| Collapse.CollapseUndoesExpand | src/bee_rpc/block_driver.py:134-222 | a built directory is collapsible and its pointer form is the message's own serialization |
| Collapse.BuildThenCollapse | src/bee_rpc/block_driver.py:134-222 | building, where it succeeds, and collapsing in one run gives back the serialization |
| Receiver.RunAppend | src/bee_rpc/client.py:700-783 | a stream of buffers, whatever fields they carry, is received piece by piece |
| Safety.TakeKeeps | src/bee_rpc/client.py:343-418 | any buffer, with any of its fields set, in any state keeps the store sound and the hashers right |
| Safety.StoreInvariant | src/bee_rpc/client.py:343-418 | after any stream of any buffers, well formed or not, ended or not: what was stored stays, every id is the hash of its expansion, nothing is missing or cyclic, and only held blocks were asked for, once each |
| Safety.RunningHash | src/bee_rpc/client.py:367-390 | after any such stream, each open block's hasher has absorbed exactly the expansion of what is recorded for it, and then what its open sub-block's has |
| Safety.PublishKeeps | src/bee_rpc/client.py:392-413 | a finished block is stored with all it references and expands to what its hasher absorbed |
| Safety.HeldIsReadable | src/bee_rpc/client.py:461-474 | reading a held block's local copy never fails and gives its expansion |
| Safety.EndOfStreamKeeps | src/bee_rpc/client.py:835-889 | the end of the stream ends the receiver, with the same invariants |
| Safety.StartChunkIsTakenTwice | src/bee_rpc/client.py:764-783 | an outermost block whose start marker carries a chunk is stored only if its id is the hash of its bytes with that chunk at both ends, and refused otherwise |
| Safety.HeadKeepsItOpen | src/bee_rpc/client.py:764-783 | an outermost block whose start marker carries a head goes on after its end marker |
| Buffers.RulesExactly | src/bee_rpc/client.py:731-750 | in any state, a buffer is an intersection exactly if it has the marker of an open block that is not the innermost, and too deep exactly if it would be the thirty-third open |
| Buffers.FormsWritten | src/bee_rpc/client.py:397-413 | after any stream of any buffers, ended or not, every directory received had its pointer form written when it was complete, with types left out, and a finished object its own, with types spelled out |
| Buffers.FieldsComeApart | src/bee_rpc/client.py:725-783 | a buffer with several fields is the same as one buffer for each: a start marker before its chunk, a nested end marker after it, an outermost one without it, a separator last; the start markers above aside |
| Buffers.LeftoverIsTaken | src/bee_rpc/client.py:764-783 | what is left of the buffer that opened an outermost block is taken, when the block is over, as if it came again |
| Buffers.LastMarkerIsSpare | src/bee_rpc/client.py:835-889 | a stream that ends early ends as if each block still open had its end marker there: checked, stored or refused |
| Descent.Descends | src/bee_rpc/client.py:700-783 | on every well-nested stream the receiver does what a recursive descent does, outcome and failure alike |
| Descent.Drains | src/bee_rpc/client.py:459-474 | the body of a held block changes nothing but what is asked for |
| Descent.SavedEnds | src/bee_rpc/client.py:385-413 | the end marker of a saved block checks its id and its pointer form, stores it and resumes the block around it |
| Descent.HeldBlock | src/bee_rpc/client.py:459-474 | a held block is passed over, referenced, and its local copy fed to the hashers around it |
| RoundTrips.ParseGathers | src/bee_rpc/client.py:367-384 | one part per gap: the writer has the entries the stream spells |
| RoundTrips.ParseStores | src/bee_rpc/client.py:392-413 | whatever the stream, a new block is stored in the form one of its occurrences spells, and what was held stays |
| RoundTrips.ParseAsks | src/bee_rpc/client.py:756-761 | every held block that starts in the stream, at any depth, has been asked for |
| RoundTrips.ParseReceives | src/bee_rpc/client.py:428-523 | a stream of correctly named blocks is read to its end and what is left expands to its content, unless the pointer form of one of its blocks is refused |
| RoundTrips.FrameGathers | src/bee_rpc/reader.py:52-104 | chunked, framed and gathered again, a directory is itself |
| RoundTrips.FrameNests | src/bee_rpc/reader.py:98-100 | framing nests no deeper than the framing depth |
| RoundTrips.UnfoldingIsProper | src/bee_rpc/reader.py:52-104 | a stored block never occurs inside itself on the wire |
| RoundTrips.FramedForms | src/bee_rpc/client.py:343-363 | a framed block spells the sender's stored form, or one file of its expansion where the framing stops |
| RoundTrips.RoundTrip | src/bee_rpc/client.py:835-889 | without skipping, an object arrives as the sender's entries over blocks that expand to the sender's bytes, or one of its pointer forms was refused; nothing else can go wrong |
| Acceptance.CanonicalExactly | src/bee_rpc/block_driver.py:134-222 | the directories whose pointer form is proved right are those of documents over blocks that are there |
| Acceptance.WritePointerForm | src/bee_rpc/block_driver.py:134-222 | on a canonical directory `generate_wbp_file` does not fail, and writes the pointer form of a document whose directory it is |
| Acceptance.CanonicalThere | src/bee_rpc/client.py:397-409 | what is canonical at one node is canonical at every node that has the blocks |
| Acceptance.TakesCanonical | src/bee_rpc/client.py:404-409 | a receiver that writes pointer forms, or one that skips them, takes every object that is canonical where it is sent from |
| Acceptance.StoreFramesCanonical | src/bee_rpc/reader.py:82-104 | what a sender frames is canonical when all it has stored is |
| Acceptance.ShallowFramesCanonical | src/bee_rpc/reader.py:89-94 | at the default framing depth no block is sent as a directory, so there is nothing to check |
| Acceptance.StaysTidy | src/bee_rpc/client.py:392-413 | a tidy store that receives from a tidy one is tidy still, so what was received can be sent on |
| Generators.Receiving.Next | src/bee_rpc/client.py:700-783 | the recursive iterators yield the next buffer, or are exhausted, as the machine would |
| Generators.Receiving.Look | src/bee_rpc/client.py:725-783 | one buffer: a marker, a chunk that is yielded, or the end of the iterator |
| Generators.Receiving.LeaveIterator | src/bee_rpc/client.py:764-783 | the innermost iterator breaks; the outermost goes on with what the buffer of its block has left, and may yield it again |
| Generators.Receiving.NextMarker | src/bee_rpc/client.py:731-779 | a marker opens a block, ends the innermost, or fails |
| Generators.Receiving.OutermostStop | src/bee_rpc/client.py:333-340 | the outermost terminator waiting for an id |
| Generators.Receiving.Pull | src/bee_rpc/client.py:333-340 | through the nested terminators, the one that sees its marker takes the marker off the buffer and ends all inside it |
| Generators.Receiving.UpdateHashers | src/bee_rpc/client.py:513-518 | every open block's hasher takes the bytes |
| Generators.Receiving.WriteChunk | src/bee_rpc/client.py:516-518 | the innermost open file takes the chunk |
| Generators.Receiving.Reference | src/bee_rpc/client.py:443-450 | the part ends and the reference is appended |
| Generators.Receiving.SaveChunksToFile | src/bee_rpc/client.py:480-523 | it ends with the stream it reads, or after one block |
| Generators.Receiving.SaveChunksToBlock | src/bee_rpc/client.py:428-477 | a block is referenced, then saved, from the chunk of its start marker on, or drained |
| Generators.Receiving.SaveBlockContent | src/bee_rpc/client.py:343-418 | the innermost block is saved to its end, the chunk of its start marker first |
| Generators.Receiving.FinishInnermost | src/bee_rpc/client.py:387-413 | its hash is checked, its pointer form written, and it is published |
| Generators.Receiving.FeedHashers | src/bee_rpc/client.py:465-472 | the local copy is fed to the hashers around |
| Generators.Receiving.PassBody | src/bee_rpc/client.py:462-465 | the drain loop stops at the block's own marker, or where nothing more comes |
| Generators.Receiving.DrainBlock | src/bee_rpc/client.py:459-472 | the body of a held block goes by, and the blocks around it take the local copy |
| Generators.Receiving.SaveToDir | src/bee_rpc/client.py:835-889 | a new iterator after each outermost block, until the object ends |
| Generators.ParseFromBuffer | src/bee_rpc/client.py:835-889 | on every stream of any buffers, saving with the generators leaves the store, object and outcome of the machine |
| Filters.StepKeeps | src/bee_rpc/client.py:237-325 | with causal requests, the receiver given the filtered stream stays in step with one given all of it |
| Filters.AnswerIsDrained | src/bee_rpc/client.py:281-293 | an open block the receiver has asked to skip is one it is draining, or is inside one |
| Elision.OnlyElides | src/bee_rpc/client.py:237-325 | for every well-nested stream and any requests at any moments, the output is well nested, an end marker goes out if and only if its start did, only ends of requested bodies are missing, and with requested blocks taken from elsewhere the bytes are the same |
| Elision.Trimming | src/bee_rpc/client.py:295-325 | the same from any point at which nothing is skipped |
| Elision.Swallows | src/bee_rpc/client.py:250-266 | inside a skipped block markers and chunks are all swallowed |
| Elision.StopsAtChunk | src/bee_rpc/client.py:321-325 | a request found at a chunk stops the stream there for the rest of the block |
| Elision.CostsItsMarkers | src/bee_rpc/client.py:313-320 | a block requested by the time its start marker is out costs its two markers and nothing more |
| Elision.TrimsMeans | src/bee_rpc/client.py:237-325 | replacing requested blocks by their content gives the same bytes before and after |
| Elision.TrimsNothing | src/bee_rpc/client.py:276-278 | with no request nothing is dropped |
| Elision.EmitsSubsequence | src/bee_rpc/client.py:295-325 | what goes out is, in order, some of what came in |
| SkipFilters.SkipFilter.OutermostSkipped | src/bee_rpc/client.py:281-293 | the shallowest open block the peer has asked for, and none only if it has asked for none of them |
| SkipFilters.SkipFilter.TakeMarker | src/bee_rpc/client.py:295-320 | a marker ends the innermost block or starts another, and goes out as the rule says |
| SkipFilters.SkipFilter.Take | src/bee_rpc/client.py:295-325 | the generator resumed, over its control object, is a step of the filter; a chunk inside a requested block does not go out; disabled, it passes everything |
| Controls.StreamControl.RequestSkip | src/bee_rpc/control.py:91-103 | an id that is new, and only that, is added to the ids asked for, at their end, with one request queued |
| Controls.StreamControl.ShouldSkip | src/bee_rpc/control.py:109-113 | whether the peer has asked for the block |
| Controls.StreamControl.PendingOutbound | src/bee_rpc/control.py:115-125 | everything queued is handed out, in order |
| Controls.StreamControl.NextOutbound | src/bee_rpc/control.py:127-143 | the first queued request is handed out, or nothing is |
| Controls.StreamControl.Observe | src/bee_rpc/control.py:157-166 | a request this node can read is recorded, and nothing else is |
| Controls.StreamControl.Reader | src/bee_rpc/control.py:168-185 | requests are picked off, all else passes |
| Controls.PassedKeepsPayload | src/bee_rpc/control.py:168-185 | the parser gets every payload in order and no request |
| Controls.RequestIsRead | src/bee_rpc/control.py:34-61 | a request is read under its own algorithm and no other, and carries nothing else |
| Controls.NamedByExactly | src/bee_rpc/control.py:55-61 | the first hash under the node's own algorithm, wherever it stands |
| Controls.RequestIsInert | src/bee_rpc/control.py:34-44 | a request changes nothing in a receiver that does not know the field, in any state |
| Controls.Flush | src/bee_rpc/control.py:115-125 | all that is queued is handed out; arrived, in flight and queued stay the ids asked for, in order, each once |
| Controls.Request | src/bee_rpc/control.py:91-103 | so does a new request |
| Controls.HandOne | src/bee_rpc/control.py:127-143 | so does handing out one, or waiting in vain |
| Controls.Arrive | src/bee_rpc/control.py:157-185 | the next request in flight joins the peer's skip set |
| Controls.NothingIsLost | src/bee_rpc/control.py:91-166 | what has arrived, what is in flight and what is queued are together what was asked for; the peer's skip set holds nothing else |
| Controls.Interleave | src/bee_rpc/control.py:91-185 | over every interleaving of the locked sections of both parties: an id is asked for exactly if it was before or some turn requests it, each once, in the order of the first requests; as many are handed out and have arrived as the turns make it; none is lost or repeated on the way, and the skip set is what has arrived of them |
| Controls.AllArrive | src/bee_rpc/control.py:91-185 | once the queue has been handed out, as many arrivals bring every request |
| Transfers.HistoryIsConsistent | src/bee_rpc/client.py:237-325 | causality: at every moment of every interleaving, whoever has the filtered stream is in step with whoever has all of it |
| Transfers.EndToEnd | src/bee_rpc/client.py:237-325 | however sending, receiving and delivery of requests interleave, the object arrives as the sender's entries over blocks that expand to the sender's bytes, new blocks in the sender's form, or one of its pointer forms was refused; nothing else can go wrong |
| Transfers.StreamArrives | src/bee_rpc/client.py:1048-1070 | the same for the stream from its head to its separator |
| Transfers.RuleNeverFails | src/bee_rpc/client.py:731-756 | on a well-nested stream under any interleaving, a marker of an open block is always the innermost's |
| Transfers.LooksAreKnown | src/bee_rpc/client.py:281-293 | what the filter finds in its control is a request that has been delivered |
| Sessions.AsksWhenHeld | src/bee_rpc/client.py:756-761 | the receiver asks to skip a block when it starts, if it holds it, and at no other time |
| Sessions.HeldIsAsked | src/bee_rpc/client.py:756-761 | in any run of markers and chunks, every held block that opened has been asked for |
| Sessions.Send | src/bee_rpc/client.py:237-325 | the filter, resumed over its own control object, makes the moves the world allows, and sends the item unless the requests that have arrived forbid it |
| Sessions.Receive | src/bee_rpc/client.py:756-762 | so does a receiver that takes the next item and records its request in its control object |
| Sessions.Deliver | src/bee_rpc/control.py:157-185 | and a request that reaches the sender's |
| Sessions.Play | src/bee_rpc/client.py:1206-1262 | whatever the two parties do in whatever order, with the library's filter and controls, is one of the histories the end-to-end results are about, and all of it is done |
| Sessions.PlayArrives | src/bee_rpc/client.py:1206-1262 | so once everything sent has been taken, and exactly then, the object is there, or a pointer form was refused |
| Sessions.EverythingIsTaken | src/bee_rpc/client.py:1206-1262 | sending often enough and then taking often enough leaves nothing to do |
| Sessions.RequestsArrive | src/bee_rpc/control.py:115-166 | requests handed out arrive one by one as they are delivered |
| Splitter.ByteReader.Fill | src/bee_rpc/block_splitter.py:62-70 | the next chunk with anything in it |
| Splitter.ByteReader.AtEnd | src/bee_rpc/block_splitter.py:72-73 | whether everything has been read |
| Splitter.ByteReader.ReadBytes | src/bee_rpc/block_splitter.py:75-84 | exactly the next bytes, or an error when there are fewer |
| Splitter.ByteReader.Copy | src/bee_rpc/block_splitter.py:86-94 | the next bytes go to the file, chunk by chunk |
| Splitter.ByteReader.ReadVarint | src/bee_rpc/block_splitter.py:96-106 | a varint of at most ten bytes, its bytes and its value |
| Splitter.DirectoryWriter.Block | src/bee_rpc/block_splitter.py:126-130 | the part closes, the reference is appended, the next part opens |
| Splitter.StorePayload | src/bee_rpc/block_splitter.py:138-157 | the next bytes become a block under their hash, unless one is there |
| Splitter.DirectIsParts | src/bee_rpc/block_splitter.py:42-50 | the direct content is the bytes of the parts |
| Splitter.WalkFields | src/bee_rpc/block_splitter.py:160-187 | the walk over the reader and writer is the walk over the bytes, which terminates on bytes remaining |
| Splitter.WalkField | src/bee_rpc/block_splitter.py:163-185 | one turn of its loop |
| Splitter.SplitBlock | src/bee_rpc/block_splitter.py:190-253 | a block whose length varints are shortest is left exactly when within the limit, split exactly when over it and its directory within, and too large otherwise; any block is exchanged only if it is over the limit, its bytes hash to its id and it keeps no more than the limit; no expansion changes and no other entry; the pointer form is the block with the library's pointers for what was moved out |
| Splitter.RewriteBlock | src/bee_rpc/block_splitter.py:220-245 | once the bytes are read the format, the id, the limit and the pointer form are checked in that order, and the first that fails is the answer |
| Splitter.SplitCollapses | src/bee_rpc/block_splitter.py:232-238 | what the walk makes of a canonical block is a directory whose pointer form is proved right |
| Splitter.SplitterRefinesBuilder | src/bee_rpc/block_splitter.py:160-187 | on the expansion of a built object, with a policy that moves out exactly its pointers' fields, the walk writes the builder's directory |
| Splitting.SplitPreserves | src/bee_rpc/block_splitter.py:160-187 | on every accepted byte string, canonical or not, parts and sub-blocks expand to the input |
| Splitting.SplitLeads | src/bee_rpc/block_splitter.py:160-187 | every chain's varints nest and increase, and the last states the block's length right before its bytes |
| Splitting.SplitIsBuilt | src/bee_rpc/block_splitter.py:160-187 | walking a document's text lays out the document |
| Splitting.WalkIsTheFormat | src/bee_rpc/block_splitter.py:160-187 | any bytes are accepted exactly if they are fields in the wire format, of varints of at most ten bytes and no groups, down through every sub-message the schema knows |
| Splitting.WalksField | src/bee_rpc/block_splitter.py:163-185 | one field of any wire type: 8 and 4 bytes, a varint, or a length and its payload |
| Splitting.StaysPut | src/bee_rpc/block_splitter.py:160-187 | fields unknown to the schema, refused by the policy, or messages of such, are kept as they stand |
| WireFormat.FieldCut | src/bee_rpc/block_splitter.py:163-185 | a field is read the same whatever follows it |
| WireFormat.RecordIsField | src/bee_rpc/block_splitter.py:163-185 | a length-delimited record is a field with its number and its payload |
| Splitting.SplitsAsItStands | src/bee_rpc/block_splitter.py:160-187 | a block whose length varints are longer than they need be is split all the same, with the varints as they stood |
| Splitting.PaddedIsTaken | src/bee_rpc/block_splitter.py:160-187 | one such block of eight bytes, of which seven are left |
| Paddings.NewLengthIsOff | src/bee_rpc/block_driver.py:23-49 | a length computed for the pointer form is too large by the spare bytes of the varints rewritten inside it |
| Paddings.PointerFormIsRight | src/bee_rpc/block_driver.py:23-49 | the lengths of a split block's pointer form are right if and only if every length varint on the way to a sub-block, the outermost aside, was as short as it can be |
| Paddings.PaddedIsOff | src/bee_rpc/block_driver.py:42-47 | that block's pointer form states 75 where 74 bytes follow |
| Paddings.LoosenedFlips | src/bee_rpc/block_driver.py:105-131 | on a document these lengths and pointers are its other filling, which is what `generate_wbp_file` is proved to write |
| Splitting.SplitKeepsMeaning | src/bee_rpc/block_splitter.py:190-253 | a block that was split expands to what it did, and so does every block it occurs in |
| Journeys.ArrivedCollapses | src/bee_rpc/block_driver.py:134-222 | an arrived message's directory collapses where it arrived to the message's serialization |
| Journeys.MessageTravels | src/bee_rpc/client.py:237-325 | built, sent through the filter under any interleaving, saved with its pointer forms and collapsed, a message comes out as it went in, and can be sent on |

## Left out

- Safety.StoreInvariant: one stream at a time fills the store, so the branch for a block another stream published meanwhile is modelled and never taken.
- Generators.Receiving.FinishInnermost: whether `generate_wbp_file` succeeds is the receiving host's answer here, a parameter. Where a claim needs it, it is taken to succeed on canonical directories, as `Acceptance.WritePointerForm` proves the modelled one does.
- Generators.Receiving.SaveToDir: the same for the object's own pointer form.
- Paddings.PointerFormIsRight: the new lengths and the text around them are functions over the fields of such a block, with the arithmetic of `compute_wbp_lengths`; the methods that read and rewrite the parts are proved on varints in their shortest form only.
- Generators.ParseFromBuffer: the locals of the Python frames (entries, open file, hasher) are a stack in one object, because Dafny has no suspended generators.
- Transfers.EndToEnd: safety only. That a queued request is ever sent is not claimed: the event is cleared outside the lock, so it need not be set while the queue is non-empty.
- Controls.StreamControl.RequestSkip: the machine asks for any held id, the control object only when it is enabled and the id is not empty; where both are used, controls are enabled and no hash value is empty.
- LengthsTrees.CreateLengthsTree: the walk that updates nested dictionaries in place is a recursive insertion here, so the aliasing of the inner dictionaries is not captured.
- Reader.ReadsDirectory: a directory that contains itself ends in a RecursionError in Python and in an error naming the block here, found with a stack of blocks being read.
- Collapse.ValidateLengthsTree: its documentation says a varint must state how far its block expands; the code tests only that the block, beyond its pointer, is not longer, and that is what is claimed.
- Splitter.SplitBlock: what is deleted after a failed split is not modelled, and sub-blocks already stored stay, as they do in the library.
- Start markers whose hash type cannot be resolved, which the receiver refuses to store, and those that leave the type of another of their hashes out, for which the pointer form of a nested block is written with types spelled out.
- In-memory parsing (`parse_message`): it uses one iterator, which ends after the first outermost block, so the round trip holds for save mode only.
- `build_multiblock_fractal` and `get_recursive_block_length`: the inner search is called with an empty block list, so a file that happens to parse as a message measures nothing; the plain builder is modelled.
- Protobuf's own parser and descriptors: messages are lists of fields, and a schema maps type name and field number to a kind.
- gRPC, threads, `watch` and its teardown, `Signal`, `MemManager`, debug callbacks: delivery is a step that may happen at any time.
- Temporary names, fsync, renames and read errors of the file system: publishing is one map update and reads succeed.
- The partition helpers, `contain_blocks`, `.bee` files and the registration of hash algorithms, which would add only easy members.
