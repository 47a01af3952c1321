# Documents, queues, codes and bundles of the Morphic Engine

This project models the core of the Morphic Engine, a C++17 foundation library, and proves what its code promises:

- **Live and baked documents.** The mutable document of slot records and monotonic keys (`LiveDocument`, `Forest`,
  `DocumentState`, `Merging`, `Integrity`), the immutable block that it is baked into (`Baker`, `Baking`, `StringTables`),
  the validation, navigation and editing of such blocks (`BakedBlocks`, `BakedValidation`, `BakedNavigation`,
  `BakedEditing`), the way back (`Promotion`, `Rebuilding`), and both round trips (`RoundTrips`).
- **Document text.** Scanner, structure check and builder (`TextScanner`, `TextStructure`, `TextParser`) against lexical
  rules, a grammar and its meaning (`TextLex`, `TextGrammar`, `TextBuilding`), and the writer with its fixpoint
  (`TextWriter`, `TextRoundTrip`, `TextCycle`). The builder works on a live document (`DocumentBuilder`, `LiveBuilding`,
  `Extending`), so that a parsed text is a document and not only a value.
- **Containers and algorithms.** The ring buffer that packs in place (`Fifo`, `Cycles`), permutation checks
  (`Permutations`), the interned string table (`StableStrings`), the block allocator (`BumpBuffer`), Hilbert codes
  (`Hilbert2d`, `Hilbert3d`).
- **Bundles.** Building, validating and looking up asset bundles (`BundleBuilder`, `Bundles`, `LogicalPaths`).

What the source changes in place is a class or an array here, and each such method is proved against a function or a
predicate of its own. A method of a class takes any state and promises nothing where the state it starts from is not
well formed, as the source tests what it reads. Memory, slots and files may be refused at any request; a parameter or
field `granted` says that they are not, and success is then promised under a condition the caller can check.

`dafny verify dfyconfig.toml` checks the project.

## Model

| member | source | states |
|---|---|---|
| `LiveDocument.LiveDocument.ExtendObjectChild` | `core/data_model/live_document.cpp:1096-1154` | All or nothing. On success the destination reads as before with the candidate merged in: a new name is appended; on a collision the retained member keeps its key, name and position and becomes the old list plus the candidate's payload, or the pair of both. On refusal nothing has changed. It succeeds, spending at most four slots and keys, on every admissible call while there are four and memory is granted; the document stays well formed and unflagged |
| `LiveDocument.LiveDocument.EraseSubtree` | `core/data_model/live_document.cpp:2095-2141` | Erasing while walking in postorder over links that already dangle deletes exactly the records of the subtree, each once; the walk ends, every other record keeps its contents, and the count of erased values is never zero |
| `LiveDocument.LiveDocument.Erase` | `core/data_model/live_document.cpp:1059-1094` | True exactly for values of the document. Afterwards the value and all that is under it are gone, or for the root its contents; siblings are relinked, everything else and its keys stay, and the document is well formed |
| `LiveDocument.LiveDocument.ErasePayload` | `core/data_model/live_document.cpp:1000-1057` | True exactly for values of the document. The value stays, empty, in its place and under its key; all that was inside is gone and nothing else changes |
| `LiveDocument.LiveDocument.AttachPayload` | `core/data_model/live_document.cpp:945-998` | Moves a detached anonymous payload into an empty value exactly when the two are transferable, and gives the whole new state. The document stays well formed if and only if the call is refused or its source is not the root (see Findings) |
| `Misuses.RootTransferable` | `core/data_model/live_document.cpp:945-998` | A sound document in which the root passes every test that attach_payload makes of its source |
| `Misuses.RootConsumed` | `core/data_model/live_document.cpp:945-998` | The input behind the finding: after attaching the root's payload to an empty detached value the document is not well formed, and is not flagged either |
| `LiveDocument.LiveDocument.DetachPayload` | `core/data_model/live_document.cpp:905-943` | Gives the payload to a new detached anonymous value under the next key and leaves the source empty in place; the whole new state is stated, refusal changes nothing, and with a spare slot and memory it succeeds on every value but the root and empty ones |
| `LiveDocument.LiveDocument.AttachChild` | `core/data_model/live_document.cpp:1760-1917` | On a well-formed document the answer is the first rejection whose condition holds, in the order of the code, cycles and names included; when accepted the child stands at exactly the intended place with both-way links, counts and ranks right. Refusal changes no record. Links from another container are refused, or flag the document, exactly as stated |
| `LiveDocument.LiveDocument.AppendChild` | `core/data_model/live_document.cpp:810-819` | Answer as above; an accepted child is last |
| `LiveDocument.LiveDocument.AppendConstructedChild` | `core/data_model/live_document.cpp:1749-1758` | A child for which the checked call would have been accepted is linked last, without the duplicate and cycle searches |
| `LiveDocument.LiveDocument.InsertChildBefore` | `core/data_model/live_document.cpp:821-836` | Answer and place when the sibling is a child of the destination; otherwise the document is flagged corrupt if and only if the sibling is a later child of its own container (see Findings) |
| `Misuses.SiblingElsewhere` | `core/data_model/live_document.cpp:821-836` | A sound document with an acceptable candidate and, as the sibling, the second child of another list |
| `Misuses.DocumentCondemned` | `core/data_model/live_document.cpp:821-836` | The input behind the finding: that call leaves a sound document flagged as corrupt |
| `LiveDocument.LiveDocument.InsertChildAt` | `core/data_model/live_document.cpp:838-894` | The exact answer for every destination, candidate and index, searching from the nearer end; an accepted child stands at that index |
| `LiveDocument.LiveDocument.Detach` | `core/data_model/live_document.cpp:896-903` | True exactly for attached values other than the root; the value leaves its siblings linked around it with its subtree intact |
| `LiveDocument.LiveDocument.QueryAncestry` | `core/data_model/live_document.cpp:1708-1747` | On a well-formed document the bounded climb to the top finds the sought value if and only if it is an ancestor or the value itself, and never flags the document |
| `LiveDocument.LiveDocument.CreateValue` | `core/data_model/live_document.cpp:1348-1385` | A new detached value, with its aggregate if it is a container, under the next key; refusal changes no record; it succeeds whenever its records fit and memory is granted |
| `LiveDocument.LiveDocument.SetName` | `core/data_model/live_document.cpp:497-535` | Writes the name exactly when no sibling in an object has it and a member of an object stays named; the name enters the table; the condition is exact whenever the name is in the table already, or has room there and memory is granted |
| `LiveDocument.LiveDocument.SetRootType` | `core/data_model/live_document.cpp:445-456` | An empty root, and only that, becomes an object or an array; every other record is untouched |
| `LiveDocument.LiveDocument.InternName` | `core/data_model/live_document.cpp:1277-1293` | The identifier found or appended; identifiers in use keep their texts; fails only when the table is full or memory is refused |
| `LiveDocument.LiveDocument.CheckIntegrity` | `core/data_model/live_document.cpp:208-339` | On any records that a partial map of slots and keys can hold, linked in any way, true if and only if they are a sound document: some lists of children make the links a forest in which every record lies in exactly one tree, keys, names and payloads are valid and the root is right |
| `DocumentState.NeverReused` | `core/data_model/live_document.cpp:1263-1275` | Over any run of operations a key that has gone out of use never comes back |
| `Analysis.Analyse` | `core/data_model/live_document.cpp:123-206` | The measuring walk counts the values of the root's tree and, for every identifier, its uses as name and as string |
| `Baker.Bake` | `core/data_model/document_baking.cpp:92-138` | Succeeds if and only if the block fits the size ceiling. Then the block is the canonical encoding of the root's tree, with empty values as null and identifiers renumbered, over exactly the names and strings in use in strict order |
| `StringTables.EmitStrings` | `core/data_model/document_baking.cpp:223-246` | Emits exactly the texts in use in strictly ascending order, and turns the use counts in place into new identifiers, dense from one |
| `Baking.EmitValues` | `core/data_model/document_baking.cpp:248-297` | The output array used as its own queue: it fills to exactly the planned count with the breadth-first records of the tree, sibling flags and child ranges included |
| `BakedBlocks.Validate` | `core/data_model/baked_document.cpp:179-365` | Accepts a block if and only if there are a tree, names and strings of which it is the canonical encoding and its header gives the supplied size |
| `StringTables.ValidateTable` | `core/data_model/baked_document.cpp:328-365` | Accepts a table if and only if it is the packed, terminated, strictly ascending table of some admissible texts, the empty one first |
| `BakedValidation.ValidateRecords` | `core/data_model/baked_document.cpp:179-326` | With marks and one running child range, accepts records if and only if they are the breadth-first encoding of some tree in which every non-empty name and string is used |
| `BakedValidation.EncodingUnique` | `core/data_model/baked_document.cpp:179-326` | No sequence of records encodes two trees |
| `BakedNavigation.MaximumDepth` | `core/data_model/baked_document.cpp:50-83` | The walk by child, sibling and parent links ends, visits every record exactly once, and returns the depth of the encoded tree |
| `BakedEditing.ReplacedSound` | `core/data_model/baked_document.cpp:565-574` | Overwriting the scalar of one record keeps a document valid if and only if the new record is well formed and no string loses its last use |
| `BakedEditing.ReplacedTree` | `core/data_model/baked_document.cpp:565-574` | Such an overwrite changes one payload of the tree; names, shape and every other payload stay |
| `BakedEditing.Editor.SetBoolean` | `core/data_model/baked_document.cpp:480-489` | Accepted exactly on booleans; changes that payload only and keeps the records valid |
| `BakedEditing.Editor.SetSigned` | `core/data_model/baked_document.cpp:491-504` | Accepted exactly on signed integers; the record then holds the value at its least width, in its notation, and the records stay valid |
| `BakedEditing.Editor.SetUnsigned` | `core/data_model/baked_document.cpp:506-519` | The same for unsigned integers |
| `BakedEditing.Editor.SetFloating` | `core/data_model/baked_document.cpp:521-530` | Accepted exactly on floats with finite replacements |
| `BakedEditing.Editor.SetString` | `core/data_model/baked_document.cpp:532-563` | Accepts exactly the identifiers after whose writing the document is still valid: in range, and not taking the last use of the old string |
| `Promotion.PrepareValues` | `core/data_model/document_promotion.cpp:105-170` | On valid records the queue over first children and next siblings lists every record once, at its own index |
| `Promotion.Promote` | `core/data_model/document_promotion.cpp:62-94` | The live document built has the tree of the baked one and its texts in order, holds nothing else, and is well formed: every unchecked append was one the checked call would accept. Fails only when memory is refused or the records exceed the slots |
| `RoundTrips.PromotedBaked` | `core/data_model/document_promotion.cpp:62-94` | Promoting what was baked from a live document means what its root meant, with empty values as null |
| `RoundTrips.BakedPromoted` | `core/data_model/document_baking.cpp:92-138` | Baking what was promoted from a valid block gives that block back, every header field, record and byte |
| `RoundTrips.RebakedSize` | `core/data_model/document_baking.cpp:169-183` | It needs exactly the size of that block, so it always fits |
| `RoundTrips.PromoteThenBake` | `core/data_model/document_baking.cpp:413-423` | The two methods in a row on any valid block: the same block, or a failure that only refused memory or want of slots explains |
| `TextScanner.Scanner.Next` | `core/data_model/document_text_lex.cpp:444-576` | The scanner's loops return the token that the lexical rules give for the text left, and leave what they leave |
| `TextGrammar.AcceptedExactly` | `core/data_model/document_structure.cpp:92-308` | The pushdown check accepts a token stream if and only if it is derivable in a separate tree-shaped grammar with explicit and implicit roots and an optional trailing comma |
| `TextStructure.CheckText` | `core/data_model/document_structure.cpp:274-308` | The frame-by-frame checker over the scanner: with ample resources it passes exactly the texts of the grammar; a pass is always of the grammar and an error of the text never is |
| `TextBuilding.Lockstep` | `core/data_model/document_parser.cpp:504-557` | On every text that the structure check accepts, the builder, which keeps no grammar state, meets no internal error, and gives what the grammar tree of the text means |
| `TextBuilding.BuildsText` | `core/data_model/document_parser.cpp:419-502` | For every text of the grammar the builder's frames, merges and unwrappings give the compositional meaning of the text |
| `DocumentBuilder.Builder.Create` | `core/data_model/document_parser.cpp:339-386` | Makes a detached value of the live document that reads as the entry asked for, its name and text interned; every open container reads as before; it fails only where a name breaks a line, or room or memory is short |
| `DocumentBuilder.Builder.Attach` | `core/data_model/document_parser.cpp:400-417` | By append_child or extend_object_child of the live document, the container at the top of the stack then reads as its entries with the new one placed among them, a namesake extended in its place, and every other open container reads as before |
| `DocumentBuilder.Builder.Complete` | `core/data_model/document_parser.cpp:419-450` | Closing a container, detaching the only member of an anonymous object in an array and erasing the object, does to the stack of live containers what closing does to a stack of entry lists; the root is left as the whole value |
| `Extending.ExtensionPlaces` | `core/data_model/document_parser.cpp:388-417` | On a collision of names the live object reads as its members with the candidate merged by the rule of the text, found by text where the document finds it by identifier |
| `TextParser.Parser.Run` | `core/data_model/document_parser.cpp:504-557` | The run over a live document, token by token, ends with a root that reads as the result of the token machine, or with that machine's failure, or for want of resources |
| `TextParser.ParseText` | `core/data_model/document_parser.cpp:504-557` | Check, then build: a success is a well-formed live document whose root reads as the meaning of the text; an error of the text means it is not in the grammar; an out-of-range number is one by the meaning; a failure of resources happens only where frames, slots or memory are short or a name breaks a line; never an internal error |
| `DocumentBuilder.ReadsOnce` | `core/data_model/document_parser.cpp:504-557` | What a live document reads as is unique |
| `TextNumbers.IntegerReads` | `core/data_model/document_writer.cpp:344-435` | Every valid integer, in each notation, domain and width, is spelled so that reading gives the same bits, with the notation of its digit count |
| `TextNumbers.IntegerSettles` | `core/data_model/document_writer.cpp:344-435` | The integer read back is spelled the same |
| `TextStrings.QuotedScans` | `core/data_model/document_writer.cpp:235-332` | A written string, whatever follows it, scans as one string token with the escapes that were written |
| `TextStrings.LineFeedsSettle` | `core/data_model/document_writer.cpp:235-332` | Text with its line breaks turned into line feeds is written like the text it came from |
| `TextRoundTrip.WrittenParses` | `core/data_model/document_writer.cpp:558-609` | The text of any writable value is accepted, parses to its settled value (unnamed one-member objects in arrays unwrapped, integers in digit-count notation, line breaks as line feeds), and that is written to the same text |
| `TextRoundTrip.ParsedReturns` | `core/data_model/document_parser.cpp:419-450` | Settling is done after one round: the settled value of a settled value is itself |
| `TextWriter.Writer.Run` | `core/data_model/document_writer.cpp:103-130` | The iterative walk over records, with its wrappers, commas and indentation, writes the text that the value has by recursion; fails only for want of memory or size |
| `TextWriter.BakedParses` | `core/data_model/document_writer.cpp:479-609` | For every valid baked document the text written is accepted, parses to the settled value, and is what that value is written as |
| `TextCycle.WriteThenParse` | `core/data_model/document_writer.cpp:103-130` | Writer and parser in a row take any valid baked document to a well-formed live document that reads as its settled value, and with enough resources they succeed: every name that is written can be kept |
| `TextPrinting.LawMet` | `core/data_model/document_writer.cpp:437-477` | What is assumed of float spelling and reading can be met |
| `Fifo.PodFifo.Pack` | `core/containers/TPodFifo.hpp:341-348` | In every state the queue becomes the first elements of the block, in order, without spare room |
| `Fifo.Rotate` | `core/containers/TPodFifo.hpp:364-428` | The rotation by cycles brings to every place what lay the read index ahead of it, each place written once |
| `Cycles.CycleCovers` | `core/containers/TPodFifo.hpp:364-428` | A closed cycle from a start below the common factor passes every index of its residue, so the cycles of all starts cover the ring |
| `Cycles.HighestCommonFactor` | `core/bit_utils/bit_ops.hpp:657-666` | Euclid's loop gives a common divisor that is an integer combination of both numbers, hence the greatest |
| `Fifo.PodFifo.PushBack` | `core/containers/TPodFifo.hpp:180-204` | Appends to the queue across the end of the ring, or refuses and changes nothing; the exact condition |
| `Fifo.PodFifo.PopFront` | `core/containers/TPodFifo.hpp:207-235` | Copies the front out and drops it; the rest of the target and of the queue stay |
| `Fifo.PodFifo.DiscardFront` | `core/containers/TPodFifo.hpp:238-259` | Drops the front; the exact condition |
| `Fifo.PodFifo.Reallocate` | `core/containers/TPodFifo.hpp:275-296` | Keeps the queue in a block of the new capacity, packed; refusal changes nothing, and only memory or size refuse |
| `Fifo.PodFifo.Allocate` | `core/containers/TPodFifo.hpp:262-272` | An empty queue in a block of the capacity asked for, or no change |
| `Permutations.ValidateExtracted` | `core/algo/validate_permutations.hpp:96-198` | By counting intervals, true if and only if the values are a permutation of the range and base plus count is still a word; the stack of deferred intervals never overflows; a valid input costs exactly N squared reads |
| `Permutations.ValidateRaw` | `core/algo/validate_permutations.hpp:248-358` | The same over raw words of which fewer bits hold values, with wrapping differences; the ranges are those that the range check admits |
| `Permutations.ValidateBitmap` | `core/algo/validate_permutations.hpp:377-419` | The bitmap gives the same answer for one read a value, keeps scratch beyond the values, and falls back where it is missing or small |
| `Permutations.ValidateStackBitmap` | `core/algo/validate_permutations.hpp:429-439` | The same with scratch of its own for up to 8192 values |
| `StableStrings.Strings.Append` | `core/containers/StringBuffers.hpp:1176-1223` | The identifier present if and only if the text is, and otherwise a new one at the end; earlier identifiers keep their texts; only refused memory fails and changes nothing |
| `StableStrings.Strings.FindReference` | `core/containers/StringBuffers.hpp:1126-1157` | The binary search over ranks gives the reference of the text, or a rank at which it fits in order |
| `StableStrings.Strings.FindId` | `core/containers/StringBuffers.hpp:1159-1174` | Agrees with a search through the list of texts |
| `StableStrings.Strings.Sort` | `core/containers/StringBuffers.hpp:830-896` | Rewrites the bytes in order: references become ranks, and every identifier keeps its text |
| `StableStrings.Strings.CheckIntegrity` | `core/containers/StringBuffers.hpp:969-1103` | With the order test, true if and only if the five tables are sound: packed texts, side tables inverse to each other, ranks a strict lexicographic order |
| `StableStrings.TableOrders` | `core/containers/StringBuffers.hpp:1126-1223` | A sound table has different texts, in the order that the baker asks of its ranks |
| `StableStrings.Compare` | `core/containers/StringBuffers.hpp:489-505` | The byte loop is a strict order on texts: zero exactly for equal ones, and antisymmetric |
| `Hilbert2d.EncodeInverse` | `core/bit_utils/spatial_codes.hpp:413-427` | Decoding undoes encoding below 4 to the levels, for any number of levels and each of the four remaps that occur |
| `Hilbert2d.DecodeInverse` | `core/bit_utils/spatial_codes.hpp:451-465` | Encoding undoes decoding likewise |
| `Hilbert2d.Continuous` | `core/bit_utils/spatial_codes.hpp:451-465` | Consecutive codes are cells that share a side |
| `Hilbert2d.MortonToHilbert` | `core/bit_utils/spatial_codes.hpp:413-427` | The loop over remap words computes that code, inside the grid |
| `Hilbert2d.HilbertToMorton` | `core/bit_utils/spatial_codes.hpp:451-465` | The loop of the other direction likewise |
| `Hilbert3d.CodesInverse` | `core/bit_utils/spatial_codes.hpp:493-584` | On every 32-bit word and for up to ten levels each direction undoes the other |
| `Hilbert3d.MortonToHilbert` | `core/bit_utils/spatial_codes.hpp:493-520` | The loop with its block of digits, rotations and signs computes that code |
| `Hilbert3d.HilbertToMorton` | `core/bit_utils/spatial_codes.hpp:557-584` | The loop of the other direction likewise |
| `BumpBuffer.Bump.Take` | `core/containers/BumpBuffer.hpp:166-206` | A piece aligned as asked, inside one block, apart from every piece since the last reset; a failure changes nothing, and a fitting request fails only for memory |
| `BumpBuffer.PiecesApart` | `core/containers/BumpBuffer.hpp:133-206` | Whatever the calls since the last reset, any two pieces are apart |
| `BumpBuffer.Bump.Allocate` | `core/containers/BumpBuffer.hpp:141-159` | First block of the rounded size; the same settings keep the blocks; invalid settings change nothing |
| `BumpBuffer.Bump.Reset` | `core/containers/BumpBuffer.hpp:161-164` | Drops the pieces and every counter |
| `LogicalPaths.CheckFilePath` | `core/filesystem/logical_path.hpp:52-77` | The loop accepts exactly the paths that are valid components between slashes |
| `Bundles.Validate` | `core/assets/bundle.cpp:40-131` | Accepts if and only if the entries are sound all the way down and their extents, aligned and terminated, tile the file from the end of the directory to its end |
| `Bundles.CheckTiling` | `core/assets/bundle.cpp:123-130` | The sorted walk decides tiling: no gap, no overlap, both ends met |
| `Bundles.LookUp` | `core/assets/bundle.cpp:157-190` | Checks the whole path first, then finds component by component |
| `Bundles.FindExact` | `core/assets/bundle.cpp:157-190` | Lookup finds a range if and only if a file with that range stands at the case-folded path |
| `BundleBuilder.CopyInventory` | `core/assets/bundle_builder.cpp:71-127` | The records of the inventory in preorder, or the first failure, exactly for inventories with a bad entry |
| `BundleBuilder.Prune` | `core/assets/bundle_builder.cpp:129-156` | The single pass from the end keeps exactly the records of content and of directories that keep something |
| `BundleBuilder.RecordsPruned` | `core/assets/bundle_builder.cpp:129-156` | What that pass keeps of the flat records is the inventory pruned by recursion |
| `BundleBuilder.SortedAscend` | `core/assets/bundle_builder.cpp:158-173` | Sorting leaves siblings strictly ascending by name |
| `BundleBuilder.PlanPayload` | `core/assets/bundle_builder.cpp:175-207` | The running end gives every kept file its aligned extent; too large exactly when the sum passes the ceiling |
| `BundleBuilder.BuiltValid` | `core/assets/bundle_builder.cpp:209-271` | With its contents in place, the plan of any inventory with something to keep is a valid bundle |
| `BundleBuilder.Build` | `core/assets/bundle_builder.cpp:209-271` | From inventory to bytes: the result is a valid bundle that starts with the directory document, and reading a path finds a content if and only if the inventory has that content, not empty, at the folded path. Every failure has its exact reason, and with memory and files granted it succeeds if and only if the inventory can be built |

## Findings

- **Attaching the root's payload.** attach_payload never asks whether its source is the root
  (`core/data_model/live_document.cpp:945-998`). The root is anonymous and detached, so it passes every test when the
  target is any empty value, and is then deleted. `LiveDocument.LiveDocument.AttachPayload` gives the exact
  condition for a well-formed result: the call is refused, or the source is not the root. `Misuses.RootConsumed` is the
  input: the document left has no root and is not flagged.
- **Inserting before a stranger.** insert_child_before hands the previous sibling of its third argument to attach_child
  without asking whose child it is (`core/data_model/live_document.cpp:821-836`). If that is a child of another
  container and not its first, the link test in attach_child fails on a sound document and marks it corrupt for good; a
  first child is refused properly. `LiveDocument.LiveDocument.InsertChildBefore` states when each happens, and
  `Misuses.DocumentCondemned` is an input.

## Left out

- LiveDocument.LiveDocument.AppendConstructedChild: nothing is promised for a child that the checked call would reject; the callers, promotion and the parser, never pass one.
- LiveDocument.LiveDocument.SetName: where a new name can be refused by a full table or by memory, only success is characterised.
- BumpBuffer.Bump.Allocate: which of the two failing states is left when memory is refused is not said; the source keeps or drops its storage in the allocator.
- StableStrings.Strings.CheckIntegrity: without the order test it says only what that call examines.
- DocumentBuilder.Builder.Create: whether a string suppresses newline escapes is part of the record when it is made; the source sets it by a second call (`core/data_model/document_parser.cpp:361-369`), whose failure on a string value cannot happen.
- The slot container behind a live document and its growth: a partial map from slots to records.
- Byte-level UTF-8, the text linter and the preparation of names and strings: text is a sequence of Unicode scalars or of admitted bytes, and which bytes are admitted and which break a line are parameters.
- Float conversion: spelling and reading are parameters under one stated law; `TextPrinting.LawMet` shows that it can hold. Likewise the bytes of a text: `LiveBuilding.CodingMet`.
- Memory attribution, ownership tokens, moves and growth policies: a request that may be refused.
- Real pointers and alignment of storage in memory: positions count from aligned blocks.
- The byte overlay of a baked block: a block is its header and its sections, cut where the header says.
- Scalar and string setters and getters of the live document: one field each, with the tests of node validity.
- Baking and promoting a single root member: the same walks from another start.
- The copier between documents (`core/data_model/document_copy.hpp`): it composes creation and attachment.
- Strict JSON output, the policy on findings, diagnostic locations and capacity estimates: they never change which value is written or built.
- The Hilbert variants that choose their level count, whose shift is undefined for some inputs, and the Morton interleaving itself.
- Insertion of ranges in plain vectors, audio, host, rendering and messages.
- Bundles: the directory is a tree of entries and its document's bytes are a parameter; the pairing of inventory files with paths outside is taken as made; an integer's range in the directory document is that of its setter.
