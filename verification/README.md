# Verified models of five parts of llama.cpp's conversion and chat code

A Dafny model of code in `common/` and of two converter scripts, with proofs of what that code is for. Loops
that update state are Dafny methods with loops, proved against a function; the laws are lemmas about that
function. Pure code is functions. The modules whose names end in `Laws` or `Outcomes` say what those functions
compute in terms that do not mention how.

**Streaming chat output.** A response is parsed again from scratch whenever more text has arrived. `PegAst`
models the trees of partial parses and when one tree is a truncation of another; `Gemma4Printer` and
`MinimaxPrinter` print tool-call arguments from a tree as far as it goes; `ToolMapper` builds tool calls from
tagged events, buffering arguments until the name is known (`ToolMapperRuns` has the laws of whole calls,
`MapperStream` those of cut lists of events, `MapperTrees` those of cut trees); `QuoteTranslator` turns Python
literals into JSON, `PythonText` has the values so written, `JsonText` the JSON writer and `JsonLexer` the JSON
reader used as references; `MessageDiff` computes the deltas between two messages and models the client that
folds them (`DeltaLaws` has what each delta says); `ResponseStream` adds the per-request state with its cache of
tool-call ids and the filter that holds tool names back (`FilteredStream` has what the client ends with, `HoldLaws`
when names go out); `ParseStream` puts trees, messages and deltas together. `MapperLaws`, `ParseLaws` and
`TranslatorLaws` say what the message of a visit, the message of a tree and a translated text are.
`ToolResultOrder` is the in-place stable reordering of tool results and `TokenSpans` the splitter of a token
stream into messages; `ResultOrderLaws` has the order the results are put in.

**Factored weights.** `LoraTensor` holds a weight as W = B @ A over dense tensors (`Tensors`, `RowMajor`).
`LoraIndexing`, `LoraShaping`, `LoraSplit`, `LoraCombine` and `LoraJoin` model the operations on the factors;
`LoraChain` proves whole chains of them against the same chain on W, and `DenseLaws` says index by index what the
operations on W are.

**Allocation.** `WaterFilling` gives devices shares by speed, capped by capacity; `AutoWeight` adds capacities,
the floor on small shares, and the decision to publish; `AutoWeightLaws` has when that is and what the floor does.

**Template diffing.** `Markers` cuts a text into markers and text, `MarkerDiff` is the two-ended diff over the
segments, `MarkerExtract` the two extractors by common prefix and suffix; `DiffLaws` says what
cuts and splits are without the loops that find them.

**Codecs.** `Base64` and `Base64Laws` (RFC 4648, with bit strings of `BitStream` as reference), `CsvRow`
(RFC 4180), and `GgmlFile` for the legacy model files, with a writer in `GgmlRoundTrip` and the movement of the
tensor loop in `GgmlScan` and the outcome of loading in `GgmlOutcomes`.

`Wrappers` has the option and result types, `Bytes` that of bytes, `Counting` the argument that so many
different numbers below a bound are all of them.

Some properties are false of the code as one would first state them. Each has an input that shows it and the
condition under which the code does meet it:

- The template diff loses text when the case analysis after the loop takes a segment twice: witness
  `MarkerDiff.RepeatedMarkerLoses`, condition `MarkerDiff.SplitReconstructs`. The branch that the code comments as
  the degenerate case without a difference is then reached for inputs that differ.
- A step of the stream rebuilds the new message only if that extends the old one; a changed name on an earlier
  call goes by in silence: witness `MessageDiff.RenamedEarlierCall`, condition `MessageDiff.StepFaithful`.
- With names held back, a name that grows after it was sent is not corrected; the client ends with the final
  message if and only if there is none: witness `FilteredStream.LateName`, condition
  `FilteredStream.FilteredRebuilds`.
- A cut translation is a prefix of the whole only if the cut splits neither an escaped quote nor a word that
  begins like a Python literal: witness `QuoteTranslator.CutEscape`, condition
  `QuoteTranslator.StreamedTranslation`; over whole parses of the event-driven mapper, `MapperStream.EventsCut`.
- The translation of a Python-style text is JSON only if its strings use no escape that Python alone knows:
  witnesses `PythonText.HexEscapeLost`, `PythonText.EscapedQuoteLost` and `PythonText.KeptBackslashLost`, condition
  `PythonText.TreeTranslated`. An escaped slash is read as JSON does: `PythonText.EscapedSlashRead`.
- A slice of a factored weight stays a pair only if it does not cut a leading axis that A has and B shares; else
  the factors have no product, or one of another shape: witness `LoraIndexing.CutBroadcastAxis`, conditions
  `LoraIndexing.SlicedProduct` and `LoraIndexing.PickedFaithful`.
- Concatenated weights of which some are empty can make a well-formed pair that is not the joined weight: witness
  `LoraJoin.JoinMisplaces`, conditions for a well-formed pair `LoraJoin.JoinWellFormed` and
  `LoraJoin.JoinProduct`; among those `LoraJoin.JoinFaithful` and `LoraJoin.JoinMixes` part the faithful ones from
  those with rows out of place.
- A legacy file's tensor loop: the byte count wraps to 64 bits and may be negative. The loop can then stand still
  for ever (`GgmlScan.HeaderLoops`) or go back and list ranges out of order (`GgmlScan.OutOfOrder`). It ends if and
  only if it never comes back to an offset (`GgmlScan.ScanEnds`), and the ranges are ordered if and only if no
  count was negative and none passed the largest offset (`GgmlScan.ScannedRanges`).

## Model

| member | source | states |
|---|---|---|
| MessageDiff.ComputeDiffs | common/chat.cpp:266-332 | the appending loop yields the delta list of the specification, or its error |
| MessageDiff.DiffsAccepted | common/chat.cpp:56-69 | no exception exactly when all compared texts are comparable, no call has vanished and a known name was dropped or lengthened |
| MessageDiff.ClientAfterStep | common/chat.cpp:266-332 | what a folding client holds after any accepted step, extending or not |
| MessageDiff.StepFaithful | common/chat.cpp:266-332 | a step is accepted and leaves the client with the new message if and only if the new message extends the old one |
| MessageDiff.RenamedEarlierCall | common/chat.cpp:300-330 | two messages that differ in the name of an earlier call: the step is accepted and sends nothing |
| MessageDiff.RunFaithful | common/chat.cpp:266-332 | over a whole run the client is in step after every message if and only if each message extends the one before |
| DeltaLaws.DeltasProper | common/chat.cpp:278-329 | every delta of an accepted step is about one thing that changed and says what was added; about the last known call it has name and id only if one of them is new; deltas stand in the order of the fields, one each at most, and every new call has one |
| DeltaLaws.NothingNew | common/chat.cpp:278-325 | a message that is parsed again as it was sends nothing |
| DeltaLaws.DiffsRefused | common/chat.cpp:278-316 | which error a refused step gives: a text that does not continue, then a lost call, then another name, then arguments that do not continue |
| DeltaLaws.NamesInStep | common/chat.cpp:318-329 | a step's deltas carry a call's name once if the call is new or its name or id has changed, and else not at all |
| ResponseStream.ResultState.SetToolCallIds | common/chat.h:108-120 | every call gets the id cached for its index; the cache only grows, by the call's own id or a generated one |
| ResponseStream.ResultState.UpdateChatMsg | tools/server/server-task.cpp:167-180 | one parse moves the request state and yields the deltas as specified; an empty message changes nothing |
| ResponseStream.RunRebuilds | common/chat.h:108-120 | for any run of raw parses whose text grows, whatever ids they carry: no rejection, the deltas rebuild the last message, and an id once given to an index stays |
| ResponseStream.ResponseRebuilds | tools/server/server-task.cpp:162-180 | the same from the fresh state: the client ends with the last parse up to ids |
| DeltaLaws.NamesGoOnce | tools/server/server-task.cpp:162-180 | over any run of growing parses in which every call is named and no name grows later, each call's name goes out exactly once |
| DeltaLaws.IdsGiven | common/chat.h:108-120 | whatever the parses, each call has the id it had when it first appeared, or the next generated one if it had none |
| DeltaLaws.StepShows | tools/server/server-task.cpp:170-180 | the calls shown are those of the parse with these ids; an empty parse is as good as none |
| ResponseStream.ResultState.UpdateFiltered | tools/server/server-task.cpp:162-235 | one parse with filtering: the loops yield the specified deltas and the specified set of calls whose names are sent |
| FilteredStream.DeltasInStep | tools/server/server-task.cpp:182-233 | after the deltas of a step a call that was sent has its arguments so far, its id and the name it was sent with, any other has no arguments and is unknown to the client; each call newly sent is named once; at the end of the response all are |
| FilteredStream.FilteredRebuilds | tools/server/server-task.cpp:162-235 | for any run of growing parses with named calls, the last of them of the whole: no rejection, each call is named exactly once, and the client ends with the final message if and only if no name grew after it was sent |
| FilteredStream.LateName | tools/server/server-task.cpp:202-209 | a run in which a name grows after it was sent |
| HoldLaws.SentExactly | tools/server/server-task.cpp:182-233 | while a parse is partial, a name is sent once some delta brings its call arguments or is about something else, and not before; at the end of the response all are |
| HoldLaws.NamesFirst | tools/server/server-task.cpp:198-219 | the first delta sent about a call has its name and id, every later one arguments alone; names sent are those of the calls that deltas are about |
| HoldLaws.NamesBefore | tools/server/server-task.cpp:182-220 | a delta goes out, if it does, behind exactly the names it lets go, which come in the order of the calls; it goes out if it is about a text or brings arguments, or the parse is whole and its call has no name yet, and but for name and id it is as it was |
| HoldLaws.OneByOne | tools/server/server-task.cpp:182-233 | the deltas go out one after the other, as if each were alone |
| HoldLaws.NothingSent | tools/server/server-task.cpp:174-177 | an empty parse and a refused one send nothing, not even names that are due |
| PegAst.FindTruncated | common/peg-parser.cpp:138-152 | a node found in a truncated tree is found in the whole tree, as a truncation of its counterpart |
| ParseLaws.FoundFirst | common/peg-parser.cpp:138-152 | the search finds the first node with the tag in document order among those at most so many levels down, and none only if there is none |
| Gemma4Printer.PrefixMonotone | common/chat-peg-parser.cpp:926-1019 | the text printed for a truncated tree is a prefix of the text printed for the whole tree |
| Gemma4Printer.CompletePrinted | common/chat-peg-parser.cpp:926-1019 | a complete tree prints to exactly the JSON text of the value it denotes |
| ParseLaws.GemmaUnfinished | common/chat-peg-parser.cpp:941-1009 | whatever a node holds, while it is partial it prints all but what closes it |
| ParseLaws.GemmaKeyAlone | common/chat-peg-parser.cpp:974-991 | a member whose value is still to come shows its key |
| ParseLaws.GemmaElements | common/chat-peg-parser.cpp:952-1009 | elements come with commas between them, the parts of a member one after the other |
| MinimaxPrinter.CollectTruncated | common/chat-peg-parser.cpp:1060-1072 | what is collected by tag from a truncated tree is a truncation of what is collected from the whole |
| MinimaxPrinter.PrefixMonotone | common/chat-peg-parser.cpp:1139-1160 | value printing is monotone under truncation, also when only the longer value is closed |
| MinimaxPrinter.ContainerMonotone | common/chat-peg-parser.cpp:1099-1137 | so is container printing, through skipped empty entries and commas |
| MinimaxPrinter.CompletePrinted | common/chat-peg-parser.cpp:1139-1160 | a complete value prints to exactly its JSON text |
| MinimaxPrinter.ObjectPrinted | common/chat-peg-parser.cpp:1089-1137 | complete arguments print to the JSON text of the object of their members |
| ParseLaws.CollectedAre | common/chat-peg-parser.cpp:1060-1072 | what is collected is every node with the tag that is not inside another one, in document order |
| ParseLaws.ValueFirst | common/chat-peg-parser.cpp:1074-1085 | the value of an entry is its first child that is a value, a string, an object or an array |
| ParseLaws.MinimaxUnfinished | common/chat-peg-parser.cpp:1139-1160 | whatever a value holds, until it is closed it prints all but what closes it |
| ParseLaws.MinimaxEntry | common/chat-peg-parser.cpp:1089-1120 | an entry shows its name and its value, unclosed while it is partial; without a value its name alone, without a name nothing |
| ParseLaws.MinimaxEntries | common/chat-peg-parser.cpp:1111-1131 | the entries that show something yet, with commas between them |
| ParseStream.VisitTruncated | common/chat-peg-parser.cpp:1021-1058 | the message built from a truncated tree only grows when the rest arrives, for both formats |
| ParseLaws.MessageIs | common/chat-peg-parser.cpp:1021-1058 | the message of a parse: the texts of the outermost reasoning and content nodes, each in their own field, and the calls of the outermost tool nodes in order |
| ParseLaws.GemmaCall | common/chat-peg-parser.cpp:1034-1053 | a complete tool is one call with its name and the JSON text of its arguments; one without a complete name, or without an arguments node, is none |
| ParseLaws.MinimaxCall | common/chat-peg-parser.cpp:1182-1191 | the same for MiniMax, where a tool with a name is a call whatever its arguments |
| ParseStream.ResponseStreams | common/chat-peg-parser.cpp:1162-1196 | end to end: however a response is cut into parses, no delta is rejected and the deltas rebuild the message of the final parse up to ids |
| ToolMapper.JsonBraceDepth | common/chat-peg-parser.cpp:41-67 | the loop counts unclosed braces outside strings as the specified scanner does |
| ToolMapper.Mapper.Map | common/chat-peg-parser.cpp:277-418 | one node takes the mapper's fields through the specified step |
| ToolMapper.Mapper.MapAll | common/chat-peg-parser.cpp:246-248 | a whole visit takes them through the specified run |
| ToolMapper.Mapper.FromAst | common/chat-peg-parser.cpp:246-275 | the visit, the final flush and the removal of blank reasoning take the fields through the specified run |
| ToolMapperRuns.EventsAnywhere | common/chat-peg-parser.cpp:304-404 | whatever the interleaving of the name, any number of ids, idle nodes and argument events, a call maps to the state it reaches with the last id and the name known from the start |
| ToolMapperRuns.InsertedBody | common/chat-auto-parser-generator.cpp:259-282 | the name at any place of the argument events and an id at any place of the resulting list, in particular opening, name, id, arguments, closing, are such interleavings |
| ToolMapperRuns.CallMapped | common/chat-peg-parser.cpp:277-418 | with its name and ids anywhere, a call adds one call with trimmed name and the last id, and as arguments the brace-closed members in event order, each value translated |
| ToolMapperRuns.CallArgumentsRead | common/chat-peg-parser.cpp:350-417 | those arguments, each value with white space of its own after commas and colons, are JSON for the object of the arguments exactly when no value has a spelling JSON does not know, and otherwise no JSON |
| ToolMapperRuns.CallArgumentsAreJson | common/chat-peg-parser.cpp:350-417 | with spellings the serializer would choose they are its text of that object, with the white space the values came with |
| ToolMapperRuns.CompactObject | common/chat-peg-parser.cpp:350-417 | where no value has white space, the tokens and the text of these two laws are those of the serialized object |
| ToolMapperRuns.ObjectCallMapped | common/chat-peg-parser.cpp:304-357 | a call whose arguments come as one text, wherever that, the name and the ids stand: one call with those arguments, brace-closed, or an empty object if the text begins otherwise |
| ToolMapperRuns.ObjectArgumentsKept | common/chat-peg-parser.cpp:404-407 | they are the trimmed text as it came exactly when it leaves no brace open |
| ToolMapperRuns.JsonObjectKept | common/chat-peg-parser.cpp:350-407 | so the JSON text of an object arrives as it came |
| ToolMapperRuns.NeutralPrint | common/chat-peg-parser.cpp:41-67 | JSON text of any value leaves the brace counter where it was, whatever its strings contain |
| ToolMapperRuns.NothingToFlush | common/chat-peg-parser.cpp:249-260 | after any events whatever, no pending call has a name, so the final flush finds nothing |
| MapperLaws.TextsGathered | common/chat-peg-parser.cpp:246-302 | after any events the content is that of the content nodes put together, and the reasoning that of the reasoning nodes, or none if that is all blank |
| MapperLaws.ResponseMapped | common/chat-peg-parser.cpp:246-418 | a whole response of texts and tagged calls in any order gives the texts in their own fields and the calls in order |
| MapperLaws.OpenCallShown | common/chat-peg-parser.cpp:320-393 | as soon as its name is there an open call shows, with the arguments so far |
| MapperLaws.NamelessDropped | common/chat-peg-parser.cpp:395-417 | a call without a name is never shown, neither while it is open nor when it is closed |
| MapperLaws.StrayEvents | common/chat-peg-parser.cpp:304-418 | outside any call tool events do nothing |
| MapperLaws.LateId | common/chat-peg-parser.cpp:312-318 | an id that comes after the end of a call still goes to it |
| MapperLaws.LateName | common/chat-peg-parser.cpp:320-335 | a second name replaces the first and leaves the arguments as they are |
| MapperLaws.OpeningForgets | common/chat-peg-parser.cpp:346-348 | the opening of an argument forgets a quote left open |
| MapperLaws.TrimmedIs | common/chat-peg-parser.cpp:11-21 | trimming takes all white space at the end of a text and nothing else |
| MapperLaws.TrimmedOnly | common/chat-peg-parser.cpp:23-37 | no other text is so trimmed; around an argument name one leading character of white space goes too |
| MapperLaws.UnquotedIs | common/chat-peg-parser.cpp:312-318 | an id in double quotes is taken without them, any other as it is |
| MapperLaws.DepthOfLevels | common/chat-peg-parser.cpp:41-67 | objects one in another count one each, whatever balanced text they hold |
| MapperStream.EventsCut | common/chat-peg-parser.cpp:246-418 | for any orderly list of events and any truncation of it, the last event cut and idle nodes, such as those that enclose it, left out of account: the message of the truncation grows into that of the whole exactly when, while the call is named, no value is cut inside an escaped quote or a word that begins like a literal, and no further piece of a string before its first character |
| MapperStream.MapperStreams | tools/server/server-task.cpp:162-180 | end to end for the event-driven mapper: successive parses, idle nodes left out of account and cut at other places, stream without rejection and rebuild the message of the last, up to ids |
| MapperTrees.VisitAllCut | common/peg-parser.cpp:170-185 | the visit of a forest cut along its rightmost path, in an argument and in every node that encloses it, is a truncation of the visit of the whole |
| MapperTrees.VisitOrder | common/peg-parser.cpp:170-185 | a node comes before the nodes inside it, and those before the nodes behind it |
| MapperTrees.TreesCut | common/chat-peg-parser.cpp:246-418 | so for every such cut of trees, in particular of tagged arguments within one arguments node, the message grows exactly when the cut does not show |
| MapperTrees.TruncationsCut | common/peg-parser.cpp:728-772 | the truncations of the two printed formats are such cuts |
| MapperTrees.TreesStream | tools/server/server-task.cpp:162-180 | end to end from trees: successive parses so cut stream without rejection and rebuild the message of the last, up to ids |
| QuoteTranslator.NormalizeQuotesToJson | common/chat-peg-parser.cpp:83-185 | the scanning loop computes the specified translation |
| PythonText.TreeTranslated | common/chat-peg-parser.cpp:83-185 | any value tree, with either quote per string, any of Python's or JSON's escapes or a backslash Python keeps per character, and Python or JSON literals, translates to text that reads as the JSON of the value if no character has a spelling JSON does not know, and to no JSON otherwise |
| PythonText.TreePrinted | common/chat-peg-parser.cpp:83-185 | where the escapes are those the serializer would choose, the translation is the serializer's text of the value |
| PythonText.PiecesTranslated | common/chat-peg-parser.cpp:83-185 | any layout and nesting of strings, literals, numbers, punctuation and white space translates to text that reads as the same pieces if no string has a spelling JSON does not know, and to no JSON otherwise |
| PythonText.HexEscapeLost | common/chat-peg-parser.cpp:114-118 | a hexadecimal escape in single quotes is passed through and is not JSON |
| PythonText.EscapedQuoteLost | common/chat-peg-parser.cpp:121-127 | so is an escaped single quote in double quotes |
| PythonText.KeptBackslashLost | common/chat-peg-parser.cpp:114-118 | so is a backslash before a letter that Python has no escape for, as in patterns |
| PythonText.EscapedSlashRead | common/chat-peg-parser.cpp:114-118 | an escaped slash is passed through too, and read as the slash alone, where Python keeps the backslash |
| QuoteTranslator.TranslatedTwice | common/chat-peg-parser.cpp:83-185 | translating twice is translating once, for any text whatever |
| QuoteTranslator.JsonUnchanged | common/chat-peg-parser.cpp:83-185 | the printed JSON text of any value is left alone |
| QuoteTranslator.JsonTextUnchanged | common/chat-peg-parser.cpp:83-185 | any text of the lexical shape of JSON, with any escapes, is left as it is |
| QuoteTranslator.CutMonotone | common/chat-peg-parser.cpp:92-182 | from any scanner state, the output for a cut input is a prefix of the output for the whole exactly when the cut splits neither an escaped quote nor a word beginning like a literal |
| QuoteTranslator.StreamedTranslation | common/chat-peg-parser.cpp:92-182 | the same for every input and every cut |
| QuoteTranslator.CutEscape | common/chat-peg-parser.cpp:99-105 | an input and a cut between a backslash and the quote it escapes, where the translation is not a prefix |
| TranslatorLaws.WordTranslated | common/chat-peg-parser.cpp:83-185 | outside strings a Python literal, or as much of it as there is yet, becomes as much of the JSON literal; any other word stays |
| TranslatorLaws.OpenString | common/chat-peg-parser.cpp:83-185 | a string that is not closed yet comes to all of its translation but the closing quote |
| TranslatorLaws.KeptCharacters | common/chat-peg-parser.cpp:83-185 | a lone backslash outside strings, and a single quote within double ones, are kept |
| TranslatorLaws.EscapeShortest | common/chat-peg-parser.cpp:70-76 | the writer escapes a character only where it must, by its short escape if there is one |
| ToolResultOrder.SortToolResults | common/chat.cpp:1868-1929 | the in-place pass over the array computes the specified reordering |
| ToolResultOrder.ReorderedKeeps | common/chat.cpp:1868-1929 | the result is a permutation with the same role at every index and every non-tool message in place |
| ToolResultOrder.EachRunSorted | common/chat.cpp:1892-1925 | each maximal user/tool run comes out sorted by the calls of the latest assistant message with calls before it |
| ToolResultOrder.RunIsSorted | common/chat.cpp:1906-1922 | within a run the results are the stable sort of the results, and nothing moves while no call is known |
| ToolResultOrder.StableSortedIs | common/chat.cpp:1912-1919 | the sort orders by call position and keeps the order of equal positions |
| ToolResultOrder.StableUnique | common/chat.cpp:1912-1919 | only one arrangement is sorted and stable |
| ToolResultOrder.ReorderedTwice | common/chat.cpp:1868-1929 | a second pass changes nothing |
| ResultOrderLaws.RunRoles | common/chat.cpp:1893-1908 | a run is made of user messages and tool results, and only the results are moved |
| ResultOrderLaws.LatestIs | common/chat.cpp:1876-1891 | what is sorted by is the last message before the run in which the assistant calls tools |
| ResultOrderLaws.OrderIs | common/chat.cpp:1880-1886 | the order has exactly the ids that are not empty, each with the last place it stands at |
| ResultOrderLaws.KeyIs | common/chat.cpp:1917-1920 | a result comes at the last place of its id among the calls; one that answers none of them counts as the first |
| ResultOrderLaws.NoOrderIs | common/chat.cpp:1910-1910 | there is nothing to sort by exactly when no call has an id |
| TokenSpans.Split | common/chat.cpp:152-184 | the loops compute the specified marks and spans, for any delimiters and regions |
| TokenSpans.RoleAtExact | common/chat.cpp:162-170 | a role is found exactly where some delimiter matches, and it is that of the first listed match |
| TokenSpans.MatchIs | common/chat.cpp:162-170 | a delimiter matches where all its tokens stand, one for one |
| TokenSpans.SpansExact | common/chat.cpp:152-184 | for ordered regions: one span at each position outside them where a delimiter begins, none elsewhere; spans abut, are not empty, and reach to the end |
| TokenSpans.StuckRegion | common/chat.cpp:155-161 | a region beginning inside an earlier one is never reached, and from there on no region is honoured |
| LoraTensor.PairSelected | convert_lora_to_gguf.py:58-111 | factors that select matching entries materialise to the selection from W |
| DenseLaws.MaterializedIs | convert_lora_to_gguf.py:40-54 | an element of W is the product of a row of B and a column of A over the whole rank |
| LoraIndexing.AtPositionFaithful | convert_lora_to_gguf.py:66-71 | when indexing by one position raises, and otherwise that it keeps the pair and commutes with the product |
| LoraIndexing.SlicedFaithful | convert_lora_to_gguf.py:72-76 | exactly when slicing by one slice keeps the pair; it then commutes with the product |
| LoraIndexing.SlicedProduct | convert_lora_to_gguf.py:72-76 | where it does not, the sliced factors have no product, or one without the shape of W's slice |
| LoraIndexing.CutBroadcastAxis | convert_lora_to_gguf.py:72-74 | a slice along an axis that A broadcasts leaves factors without a product |
| LoraIndexing.PickedFaithful | convert_lora_to_gguf.py:77-111 | indexing by a tuple raises exactly when it does on W or the tuple is empty, keeps the pair exactly when no slice cuts a leading axis of A, which is exactly when the product has the shape of W's selection, and then commutes |
| DenseLaws.SlicePositions | convert_lora_to_gguf.py:72-76 | a slice selects every step-th position within its bounds, negative ones counted from the end, in ascending order |
| DenseLaws.EntriesAccepted | convert_lora_to_gguf.py:67-111 | a position is accepted from both ends of its axis, a slice with any step forward |
| DenseLaws.SelectedAxes | convert_lora_to_gguf.py:77-111 | a position fixes its axis; the other axes stay in order with the lengths and positions of their slices |
| DenseLaws.SelectPlaces | convert_lora_to_gguf.py:77-111 | the element of a selection is that of W at the positions selected |
| RowMajor.ReshapedAt | convert_lora_to_gguf.py:155-160 | a reshape that keeps the last extent renames only the other indices, in row-major order |
| RowMajor.ReshapedBack | convert_lora_to_gguf.py:155-160 | reshaping back gives the tensor again |
| LoraShaping.ReshapeSome | convert_lora_to_gguf.py:136-160 | exactly when reshape of the pair is accepted |
| LoraShaping.ReshapeFaithful | convert_lora_to_gguf.py:136-160 | reshape, with a -1 extent expanded, commutes with the product; with several -1 extents the pair accepts what W refuses |
| DenseLaws.ReshapeExact | convert_lora_to_gguf.py:136-153 | W takes a reshape with at most one open extent exactly when one and only one choice of extents meets it, and takes that choice |
| DenseLaws.FlatOrder | convert_lora_to_gguf.py:157-160 | the flat position is the place in lexicographic order |
| DenseLaws.ReshapedInOrder | convert_lora_to_gguf.py:157-160 | a reshaped tensor has at each index what the tensor has at the index in the same place |
| LoraShaping.PermuteSome | convert_lora_to_gguf.py:168-179 | among axis lists W accepts, exactly those the pair accepts |
| LoraShaping.PermuteRefused | convert_lora_to_gguf.py:168-179 | of the lists W refuses, exactly those the pair accepts, and the permutation it then applies: those that become a permutation when the number of axes is taken off entries beyond the axes, where the last axis is kept and A is broadcast throughout |
| LoraShaping.PermuteFaithful | convert_lora_to_gguf.py:168-179 | permute commutes with the product |
| LoraShaping.TransposedFaithful | convert_lora_to_gguf.py:175-176 | the transpose of B @ A is the transpose of A times the transpose of B |
| DenseLaws.AxesExact | convert_lora_to_gguf.py:168-170 | a list of axes is accepted exactly when it is a permutation, negative entries counted from the end |
| DenseLaws.PermutedPlaces | convert_lora_to_gguf.py:168-179 | axis i of the result is axis axes[i] of the tensor, in extent and in position |
| DenseLaws.SwappedPlaces | convert_lora_to_gguf.py:181-188 | a transposition exchanges two axes, negative ones counted from the end, and keeps the others |
| LoraSplit.SplitFaithful | convert_lora_to_gguf.py:190-206 | split raises exactly when it does on W, and each chunk materialises to W's chunk |
| LoraSplit.ChunkOf | convert_lora_to_gguf.py:190-206 | every position of the axis lies in a chunk |
| LoraSplit.ChunkUnique | convert_lora_to_gguf.py:190-206 | and in no other, at no other place |
| DenseLaws.EachCuts | convert_lora_to_gguf.py:190-206 | a split by a size gives the axis over the size, rounded up, chunks, each of that size but the last, which has the rest and is not empty |
| DenseLaws.ListedCuts | convert_lora_to_gguf.py:190-206 | listed sizes are the lengths of the chunks, exactly if none is negative and they make up the axis |
| DenseLaws.EachRefused | convert_lora_to_gguf.py:190-206 | a negative size is refused, and zero unless the axis is empty; an empty axis is one empty chunk |
| DenseLaws.SplitPlaces | convert_lora_to_gguf.py:190-206 | chunk i is W from where the earlier chunks end, by a size from i times that size on |
| LoraCombine.ScaleFaithful | convert_lora_to_gguf.py:211-217 | among all numbers and tensors that broadcast with W, the pair accepts exactly numbers, tensors without axes, and single columns with no more axes than W; it keeps the pair, and commutes |
| DenseLaws.ScaledPlaces | convert_lora_to_gguf.py:211-217 | scaling aligns the last axes and stretches those of extent one; it is refused exactly where two others differ |
| DenseLaws.ScaledValues | convert_lora_to_gguf.py:211-217 | and multiplies the two elements that come to lie on each other |
| LoraCombine.StackFaithful | convert_lora_to_gguf.py:234-242 | stacking keeps the pair and commutes with the product |
| DenseLaws.StackedPlaces | convert_lora_to_gguf.py:234-242 | tensors stack exactly when there is one and all have its shape; each becomes one row of the new first axis |
| DenseLaws.StackAccepted | convert_lora_to_gguf.py:234-242 | pairs stack exactly when their factors have the same shapes |
| LoraJoin.JoinWellFormed | convert_lora_to_gguf.py:243-257 | exactly when concatenation keeps the pair; without empty weights, when no broadcast first axis is cut |
| LoraJoin.JoinFaithful | convert_lora_to_gguf.py:243-257 | where no first axis is broadcast, or only one weight has rows, it commutes with the product, empty weights included |
| LoraJoin.JoinProduct | convert_lora_to_gguf.py:243-257 | exactly when the concatenated factors have a product of the joined weight's shape |
| LoraJoin.JoinMixes | convert_lora_to_gguf.py:247-251 | any other well-formed concatenation takes some row of A from a place other than B's |
| LoraJoin.JoinMisplaces | convert_lora_to_gguf.py:247-251 | two weights, one empty, whose concatenation is a well-formed pair and not the joined weight |
| DenseLaws.JoinedPlaces | convert_lora_to_gguf.py:243-257 | tensors join exactly when all axes but the first agree; the rows of each follow those of the ones before |
| DenseLaws.JoinAccepted | convert_lora_to_gguf.py:243-257 | matrices join exactly when they have one A between them and as many columns in B; higher tensors when both factors join |
| LoraChain.StepFaithful | convert_lora_to_gguf.py:58-266 | each proper operation that does not raise keeps the pair and commutes with the product |
| LoraChain.ChainFaithful | convert_lora_to_gguf.py:58-266 | so does every finite chain of operations |
| WaterFilling.RunPass | common/arg.cpp:1573-1587 | one pass over the arrays is the specified pass, and reports whether anything was capped |
| WaterFilling.WaterFill | common/arg.cpp:1558-1588 | the nested loops compute the specified fill |
| WaterFilling.PassKeeps | common/arg.cpp:1560-1588 | a pass never lowers the level, keeps capped devices rightly capped, and either caps another or hands out everything |
| WaterFilling.WaterFillIsFair | common/arg.cpp:1557-1588 | the fill is fair at one level and places the whole model or all that scored devices can hold |
| WaterFilling.FairUnique | common/arg.cpp:1557-1588 | there is only one fair division of a given total |
| AutoWeight.Capacities | common/arg.cpp:1534-1554 | the two capacity loops compute each device's capacity |
| AutoWeight.LayerCapacitySound | common/arg.cpp:1543-1551 | in layer mode a positive share is within capacity exactly when weights, cache, one layer of rounding and the compute reserve fit in nine tenths of the memory |
| AutoWeight.TensorCapacitySound | common/arg.cpp:1534-1540 | in tensor mode exactly when the weights and the compute reserve fit |
| AutoWeightLaws.ReserveIs | common/arg.cpp:1528-1532 | without an override the reserve is a fiftieth of the model, between 512 MiB and the cap of the mode |
| AutoWeightLaws.LayerIs | common/arg.cpp:1544-1545 | a layer is the model divided by its layers, of which at least 24 are assumed |
| AutoWeight.WaterFillFits | common/arg.cpp:1557-1588 | after water-filling every device with a share can hold it, in either mode |
| AutoWeight.FloorStage | common/arg.cpp:1594-1631 | the floor stage on the arrays computes the specified shares, or bails out as specified |
| AutoWeight.FloorKeepsTotal | common/arg.cpp:1599-1630 | no share is left between zero and the floor; the total is unchanged exactly when nothing was dropped or an uncapped device remains |
| AutoWeightLaws.FloorRefuses | common/arg.cpp:1599-1624 | the floor keeps the default exactly when some share lies between zero and the floor and fewer than two positive shares reach it; without such a share it changes nothing |
| AutoWeightLaws.DroppedInProportion | common/arg.cpp:1625-1629 | what is dropped goes to the uncapped devices left in proportion to their shares; capped devices keep theirs |
| AutoWeight.UsedBound | common/arg.cpp:1594-1631 | the number of devices used times the floor is at most the total |
| AutoWeight.ApplyAutoWeight | common/arg.cpp:1557-1671 | the whole computation publishes exactly the specified split, or keeps the default |
| AutoWeight.PublishedSound | common/arg.cpp:1632-1667 | every published split totals between 0.999 and 1, gives nothing or at least the floor, and uses at most one device per floor-sized share |
| AutoWeight.MisfitKeepsDefault | common/arg.cpp:1636-1649 | a model that does not fit is never distributed |
| AutoWeightLaws.KeptDefault | common/arg.cpp:1338-1649 | the default is kept for fewer than two or too many devices, without a model size, when the floor refuses, or when less than 0.999 is placed, and in no other case; otherwise what the floor leaves is published |
| AutoWeightLaws.FairPublished | common/arg.cpp:1557-1671 | where all of the model can be placed and no fair share is small, the fair shares are published |
| AutoWeightLaws.PublishedTwo | common/arg.cpp:1610-1624 | a published split from which something was dropped has two positive shares |
| Markers.SegmentizeMarkers | common/chat-auto-parser-helpers.cpp:269-299 | the scanning loop computes the specified segments |
| Markers.SegmentsLossless | common/chat-auto-parser-helpers.cpp:269-299 | the segments put together are the text |
| DiffLaws.SegmentsWellCut | common/chat-auto-parser-helpers.cpp:269-299 | every marker begins with an opener and ends at the first closer of it; texts hold no opener, but for a last one that is never closed, and stand only between markers |
| DiffLaws.SegmentsOnly | common/chat-auto-parser-helpers.cpp:269-299 | there is no other list like that for the text |
| MarkerDiff.CalculateDiffSplit | common/chat-auto-parser-helpers.cpp:87-207 | loop, case analysis, trim and corrections compute the specified split |
| MarkerDiff.SplitReconstructs | common/chat-auto-parser-helpers.cpp:87-207 | the split can be put back together into both inputs exactly when the branch after the loop has not taken a segment twice, or the last correction repairs it |
| MarkerDiff.DistinctReconstructs | common/chat-auto-parser-helpers.cpp:87-207 | inputs that repeat no segment are always split faithfully |
| MarkerDiff.RepeatedMarkerLoses | common/chat-auto-parser-helpers.cpp:141-190 | a concrete pair of inputs for which text is lost |
| DiffLaws.TextSplit | common/chat-auto-parser-helpers.cpp:169-204 | texts without markers: if the right continues the left, the left is the prefix; else suffix and prefix are the longest ending and then the longest beginning in common, and what is left begins and ends differently |
| DiffLaws.SplitBorders | common/chat-auto-parser-helpers.cpp:87-190 | where something is left on both sides, the segments left have neither the first nor the last in common; at a border where both have text not a character is shared, and at any other nothing but segments |
| DiffLaws.ContinuedSplit | common/chat-auto-parser-helpers.cpp:192-204 | a left that the right continues, with no text lost, is all prefix |
| DiffLaws.EqualSplit | common/chat-auto-parser-helpers.cpp:185-190 | without a difference all is prefix |
| MarkerExtract.FindFirst | common/chat-auto-parser-helpers.cpp:225-225 | the search finds the first occurrence if there is any |
| MarkerExtract.FindLastLast | common/chat-auto-parser-helpers.cpp:255-255 | the reverse search finds the last |
| MarkerExtract.ExtractorsMirror | common/chat-auto-parser-helpers.cpp:210-264 | the two extractors are mirror images under reversal |
| DiffLaws.UntilIs | common/chat-auto-parser-helpers.cpp:209-234 | the text before the first place of the longest common beginning; nothing if there is none or it does not occur |
| Base64.EncodeBytes | common/base64.hpp:80-144 | the encoding loop computes the specified text |
| BitStream.OrShifted | common/base64.hpp:220-220 | a shifted part and one below the shift, joined bit by bit, are their sum |
| Base64.Completed | common/base64.hpp:219-220 | the byte joined from two shifted letters is made of the pending bits of the one and the high bits of the other |
| Base64.DecodeArray | common/base64.hpp:200-244 | the decoding loop writes exactly the specified bytes and nothing else, with the destination possibly being the source |
| Base64Laws.EncodeSize | common/base64.hpp:338-341 | encoded text has exactly the announced size |
| Base64Laws.DecodeSize | common/base64.hpp:324-327 | no text, accepted or not, yields more than the announced number of bytes |
| Base64Laws.DecodeAccepts | common/base64.hpp:231-241 | text is accepted exactly when what precedes the first padding is in one alphabet and, under the strict behaviour, only padding follows |
| Base64Laws.PaddingIs | common/base64.hpp:231-241 | the strict behaviour accepts what the loose one does if only padding follows the letters; padding is no letter |
| Base64Laws.DecodeStops | common/base64.hpp:208-229 | what was decoded before a letter outside the alphabet is that of the text before it |
| Base64Laws.DecodeMeans | common/base64.hpp:200-244 | read as six-bit groups, accepted text is the decoded bytes and fewer than eight further bits |
| Base64Laws.EncodeLetters | common/base64.hpp:80-144 | encoded text is the letters of the six-bit groups, padded to a multiple of four |
| Base64Laws.LettersAre | common/base64.hpp:84-86 | which letters the two alphabets have for which values |
| Base64Laws.GroupsMean | common/base64.hpp:80-144 | those groups are the bits of the input followed by no more than four zero bits |
| Base64Laws.RoundTrip | common/base64.hpp:153-264 | decoding inverts encoding in both alphabets and under auto-detection, strict or loose |
| CsvRow.ParseCsvRow | common/arg.cpp:1844-1886 | the scanning loop computes the specified fields |
| CsvRow.RoundTrip | common/arg.cpp:1844-1886 | any non-empty list of fields, each quoted or plain where that is admissible, is read back as it was |
| CsvRow.PlainReads | common/arg.cpp:1852-1860 | a field survives without quotes exactly when it has no comma and does not begin with a quote |
| CsvRow.TextBehindQuotes | common/arg.cpp:1852-1879 | text behind closing quotes belongs to the field |
| CsvRow.TextBehindEmpty | common/arg.cpp:1852-1869 | an empty pair of quotes leaves what follows to be read as if it were not there |
| CsvRow.UnclosedQuotes | common/arg.cpp:1861-1883 | quotes that are not closed take all that follows |
| CsvRow.ParseKeeps | common/arg.cpp:1849-1885 | every character but quotes is kept, in order, as field text or as a separator |
| CsvRow.OneFieldPerSeparator | common/arg.cpp:1849-1885 | for any input there is one field more than there are commas outside quotes, counted without building any field |
| CsvRow.FieldCount | common/arg.cpp:1870-1883 | and one more than there are commas that no field kept |
| GgmlFile.Vocab.Load | convert_llama_ggml_to_gguf.py:84-98 | the vocabulary loop appends the specified entries and passes their bytes, or fails as specified |
| GgmlOutcomes.ItemRefused | convert_llama_ggml_to_gguf.py:87-88 | a vocabulary entry is absurd exactly from 4096 bytes on |
| GgmlOutcomes.WordCutOff | convert_llama_ggml_to_gguf.py:87-87 | a number is cut off exactly when the data ends before its four bytes do |
| GgmlOutcomes.SliceFromEnd | convert_llama_ggml_to_gguf.py:90-90 | a negative bound counts from the end of the data, and nothing before its beginning is read |
| GgmlFile.Model.ValidateHeader | convert_llama_ggml_to_gguf.py:145-166 | magic and version are accepted or refused as specified |
| GgmlFile.Model.LoadTensors | convert_llama_ggml_to_gguf.py:188-194 | the tensor loop, as far as it is let run, lists the specified tensors and leads each name to its last tensor |
| GgmlFile.Model.Load | convert_llama_ggml_to_gguf.py:180-200 | the loader, as far as it is let run, ends with the specified contents, name map and offset, or with the specified error; earlier contents are kept unless only the feed-forward tensor is missing |
| GgmlFile.ReadTensor | convert_llama_ggml_to_gguf.py:110-131 | data starts behind the header, aligned where the format pads; the next offset is the start and the wrapped byte count, wrapped again |
| GgmlOutcomes.HeadRefused | convert_llama_ggml_to_gguf.py:112-117 | a tensor header out of bounds is refused by what is wrong first: dimensions, name length, type |
| GgmlOutcomes.BlockSizes | gguf-py/gguf/constants.py:5028-5042 | the block and byte sizes of the types a legacy file may hold, as elements of so many bits and scales |
| GgmlOutcomes.LaterBlockSizes | gguf-py/gguf/constants.py:5043-5056 | those of the later types of one to four bits |
| GgmlOutcomes.PlainSizes | gguf-py/gguf/constants.py:5051-5057 | those of the later plain types |
| GgmlOutcomes.OtherBlockSizes | gguf-py/gguf/constants.py:5058-5063 | those of ternary types and blocks of other sizes |
| GgmlOutcomes.TypesKnown | gguf-py/gguf/constants.py:5028-5064 | which numbers are types at all |
| GgmlOutcomes.ElementsWrap | convert_llama_ggml_to_gguf.py:126-126 | the number of elements is the product of the dimensions but for a multiple of 2^64, as a signed number |
| GgmlOutcomes.BytesWrap | convert_llama_ggml_to_gguf.py:127-127 | the number of bytes is that of the whole blocks in what elements times block size wraps to |
| GgmlScan.StepAdvances | convert_llama_ggml_to_gguf.py:110-131 | a tensor consumes at least twelve bytes exactly when dimensions, name, padding and the wrapped byte count together are not negative and stay in range |
| GgmlScan.HeaderLoops | convert_llama_ggml_to_gguf.py:126-131 | a header at which the loop stands still for ever |
| GgmlScan.ScanEnds | convert_llama_ggml_to_gguf.py:188-194 | for any file the tensor loop ends if and only if it never comes back to an offset |
| GgmlScan.MorePasses | convert_llama_ggml_to_gguf.py:188-194 | once it has ended, letting it run further changes nothing |
| GgmlScan.ForwardEnds | convert_llama_ggml_to_gguf.py:188-194 | where no header has a negative count it ends after one pass for each twelve bytes at most |
| GgmlScan.ScannedRanges | convert_llama_ggml_to_gguf.py:110-131 | in any file whose loop ends, data ranges are ordered and disjoint with room for a header between if and only if no count was negative and no range passed the largest offset; they are aligned in any case where the format pads |
| GgmlScan.OutOfOrder | convert_llama_ggml_to_gguf.py:110-131 | a file that loads and whose second tensor starts before its first |
| GgmlRoundTrip.LoadInvertsWrite | convert_llama_ggml_to_gguf.py:180-200 | loading a written file, in each of the three formats, gives back hyperparameters, vocabulary and tensors and stops at its end |
| GgmlOutcomes.LoadOutcome | convert_llama_ggml_to_gguf.py:145-200 | a written file of whatever version and file type: the first that is wrong of version, file type, eligibility and feed-forward tensor is the error, and if none is, it loads; eligible are just the types convertible in each version |
| GgmlRoundTrip.WrittenRanges | convert_llama_ggml_to_gguf.py:118-131 | the listed ranges of a written file hold the tensors' data |
| GgmlRoundTrip.ElementsExact | convert_llama_ggml_to_gguf.py:126-127 | without overflow the wrapped element count is the product of the dimensions |

## Left out

- The PEG engine, the jinja templates, the grammars and the tokenizer are not part of this model: trees, events and token lists are inputs.
- ToolMapper: the dangling pointer to a discarded unnamed call, which the model reads as no current call.
- MapperStream.EventsCut: cuts inside names and ids, which are atomic in every grammar (`common/chat-peg-parser.h`, lines 92 to 100); names that are blank or come twice for one opening.
- MapperTrees.TreesCut: a node whose text the mapper takes inside another such node (`Plain`), as when an arguments text that begins with a brace encloses tagged arguments; the tool-call grammars nest none unless a configured marker begins so.
- FilteredStream.FilteredRebuilds: calls without a name, whose arguments go out under an empty one.
- ToolMapperRuns.CallArgumentsRead: white space that differs from comma to comma or stands before one, inside one value; `PythonText.PiecesTranslated` has any layout, but of the translation alone.
- PythonText.TreeTranslated: surrogate pairs, line continuations, and Python's long and named escapes, which are passed through like the hexadecimal ones; an escaped slash counts as JSON's escape.
- MessageDiff: the message's role, content parts, tool name and tool-call id, which the diff never looks at.
- ToolResultOrder.StableSort: the library's stable sort is modelled by an insertion sort; `StableUnique` shows the result does not depend on which.
- ToolResultOrder: messages keep only the fields the pass reads, and one string for the rest.
- LoraTensor.PairSelected: the rank is at least one; with rank zero a reshape of B can no longer tell its row count. Elements are reals, so rounding and dtype conversion are not modelled.
- LoraIndexing.PickedFaithful: an Ellipsis, an index tensor, and a single position on the row or column axis.
- LoraSplit.SplitFaithful: dimensions outside those of the weight.
- LoraShaping.ReshapeFaithful: reshapes of W to fewer than two axes, which the pair refuses.
- LoraChain.ChainFaithful: `contiguous`, `to`, `reshape_as` and `view`, which are copies or aliases of modelled operations.
- AutoWeight: device discovery, measurement, file size and header reads are inputs; doubles are reals; after the floor stage shares may exceed capacities, as the code does not check again.
- MarkerExtract: the two prefix and suffix loops inside the extractors are the same as those of `MarkerDiff` and share their functions.
- Base64: the template over iterators is one method over arrays; the string and pointer overloads only wrap it.
- GgmlFile.Model.Load: the model is given a number of passes after which it stops with an error; the original has none, and whenever the loop ends a large enough bound changes nothing (`GgmlScan.ScanEnds`, `GgmlScan.MorePasses`).
- GgmlFile: scores are 32-bit patterns; hyperparameters and a tensor's fields are values, since each object is filled by one load and only read afterwards.
- The option table, help output and downloads around `common/arg.cpp`, the per-model parser builders of `common/chat.cpp`, and GGUF writing: wiring without a law of its own.
