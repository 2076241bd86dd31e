# Proofs about the notes app and the part of llama.cpp it ships

The repository is a Swift notes app with retrieval over its notes, and a vendored part of llama.cpp. This
project models the pieces whose behaviour is a matter of logic rather than of frameworks, and proves what
they keep over every input and every run:

- **The streaming chat parser** (`Text`, `Utf8`, `Reasoning`, `ReasoningTexts`, `XmlToolCalls`, `XmlRoundTrip`, `XmlForms`,
  `XmlJsonForms`, `XmlStreaming`, `XmlDefined`, `XmlProgress`, `MessageText`, `MessageLoop`, `MessageTexts`, `MessageRuns`,
  `ChatMsgParser`): a cursor over text that is still arriving. What has been shown is not taken back, printed tool
  calls are read back exactly, what is shown and sent of a message is read off from how it is written, a turn that finds no
  call leaves no trace, and it is said exactly when the message loop ends. `ChatMsgParser.Parser` is the parser
  object itself; its methods, up to the whole message loop, are tied to the functions that the theorems are about.
- **The grammar of texts without forbidden strings** (`Gbnf`): a trie compiled into a grammar, and exactly how
  far the grammar keeps what its comment promises.
- **LoRA tensors** (`Tensors`, `TensorLaws`, `Lora`, `LoraPicks`, `LoraShapes`, `LoraJoins`, `LoraSuccess`, `LoraPrograms`,
  `LoraExamples`): a pair of factors stands for their product, and every supported operation on the pair must be that
  operation on the product. The main theorem is about arbitrary compositions; what the operations do to the elements of a
  tensor, and when they succeed, is proved beside it.
- **The embedding cache and the feedback ledger** (`EmbeddingCache`, `CacheLaws`, `Feedback`): two state machines, one of them
  split at its suspension points, with their invariants over every interleaving, and what each event does.
- **The text chunker** (`Chunks`, `ChunkLaws`, `TextChunkingService`, `ChunkExample`): what is conserved when text is cut,
  packed and overlapped, and where it is cut.
- **Base 64** (`Base64`), **retrieval** (`Retrieval`), **string algorithms** (`Splitting`, `Escapes`, `Lcs`) and the
  **GGML loader** (`GgmlRecords`, `GgmlLoader`, `GgmlLaws`).

Code that changes state is a class or a method over arrays and buffers, proved equal to a function of the old
state; what the code is for is then proved about that function, by laws that can be read without it. LoRA tensors are expressions in the original
and are functions here. `dafny verify dfyconfig.toml` covers the whole project.

Where a promise of the code or of its comments is false, the project keeps the code, gives an input that
shows it, and proves when the promise holds:

| promise | fails at | holds |
|---|---|---|
| shown content is a prefix of what is shown later | `Reasoning.LeadingSpaceIsRetracted` | except exactly when white space was shown and an unfinished start tag follows (`Reasoning.StreamingNeverRetracts`) |
| the grammar accepts no text with a forbidden string (comment at `make_gbnf_excluding`) | `Gbnf.OtherStringSlipsThrough` | for one string, with an empty one beside it or not, exactly if it repeats a single character (`Gbnf.ExcludesExactlyRepetitions`); for every list exactly if nothing slips into a block (`Gbnf.ExcludesExactly`); when no string begins another, always at the boundaries of the blocks |
| the message loop ends | `MessageLoop.StuckExample` | on every message exactly if the form cannot stall, which its literals decide (`MessageLoop.AllMessagesEndExactly`); for one turn exactly as `XmlProgress.TurnMovesUnlessStalled` says; always for the shipped forms (`MessageLoop.ShippedFormsEnd`) |
| the parser uses no empty optional, and its assertions hold | `XmlDefined.AprielExample` | exactly if no call is met whose name is trapped or one of whose values breaks off (`XmlDefined.ParseFailsExactly`); a name reads an empty optional exactly if it is trapped (`XmlDefined.EmptyOptionalExactly`) |
| slicing or indexing the factors is slicing or indexing the product | `LoraExamples.SliceExample`, `LoraExamples.TupleExample` | exactly under `LoraPicks.SliceFits` and `LoraPicks.TupleFits` |
| concatenating the factors is concatenating the products | `LoraExamples.CatExample`, `LoraExamples.CatOfEmptyExample` | if every position picks its own operand on both factors (`LoraJoins.CatCommutes`), and for all tensors of the same shapes only then (`LoraExamples.OwnMustBePicked`) |
| a fresh embedding agrees with the text | `EmbeddingCache.SwapExample`, `EmbeddingCache.OverlappingLoadsExample` | if every embed call is answered by the model whose id it captured (`EmbeddingCache.MatchedRunIsCoherent`), which is exactly when all stored embeddings and answers are the captured model's (`EmbeddingCache.RunIsOwnedExactlyIfMatched`); so if no other model is loaded while an embed call is in flight and loads do not overlap |
| an edited note has one pending timer | `EmbeddingCache.LostHandleExample` | exactly until a task that has finished indexing clears a newer task's handle (`EmbeddingCache.HandlesAreKeptExactlyOtherwise`) |
| a boost is the sum of the latest ratings | `Feedback.FourMessagesExample` | exactly as long as that sum stays above the lower bound (`Feedback.LedgerIsExactExactly`) |
| the best candidate is selected | `Retrieval.DroppedTopExample` | under the exact condition of `Retrieval.TopIsSelectedExactly` |
| a chunk keeps its own text behind the overlap | `ChunkExample.LostEndExample` | exactly if the two fit (`Chunks.ChunkIsKeptExactlyIfItFits`) |
| a tensor's byte count is not negative, and the loop over records ends | `GgmlRecords.BackwardsExample`, `GgmlRecords.StandstillExample`, `GgmlLoader.EndlessFileExample` | the count exactly if the number of bytes, modulo 2^64, is below 2^63 (`GgmlRecords.ByteCountIsNaturalExactly`); the loop if every record moves on, for which a condition on its size is exact (`GgmlRecords.AdvancesExactly`, `GgmlRecords.EndlessNeedsAStandstill`) |

## Model

| member | source | states |
|---|---|---|
| Text.StringStrip | ios/llama/common/common.cpp:414-424 | The result is what remains between leading and trailing white space |
| Text.SpacesAre | ios/llama/common/common.cpp:414-424 | The white space is that of C: tab, line feed, vertical tab, form feed, carriage return and space |
| Text.StripIsUnique | ios/llama/common/common.cpp:414-424 | Stripping white space, solid text and white space gives the solid text: the strip is determined by its promise |
| Text.StringFindPartialStop | ios/llama/common/common.cpp:471-485 | Returns the longest proper or full beginning of the stop that ends the text: found at the earliest position, or none exists |
| Text.HeldBackSuffixIsEnough | ios/llama/common/common.cpp:471-485 | In no extension of a text does the stop start before the suffix that was held back |
| Utf8.Utf8TruncateSafe | ios/llama/common/chat-parser-xml-toolcall.cpp:27-50 | The loop over the last four bytes computes the cut |
| Utf8.CutIsGreatestBoundary | ios/llama/common/chat-parser-xml-toolcall.cpp:27-58 | For every text of well-formed UTF-8 characters (section 4 of RFC 3629) and every k, cutting the first k bytes gives the greatest character boundary not beyond k |
| Utf8.CutAtLead | ios/llama/common/chat-parser-xml-toolcall.cpp:27-50 | On any bytes: when a byte that is no continuation is among the last four, the cut is in front of it exactly if it announces more bytes than there are, or can announce none |
| Utf8.CutWithoutLead | ios/llama/common/chat-parser-xml-toolcall.cpp:27-50 | When none is, three bytes are cut off, or all there are |
| Reasoning.StreamingNeverRetracts | ios/llama/common/chat-parser.cpp:287-431 | For p a prefix of q, the reasoning shown for p is a prefix of that shown for q; the content is too, if and only if the case of dropped leading space does not apply |
| Reasoning.SectionsNeverRetract | ios/llama/common/chat-parser.cpp:381-431 | The same for the loop over think sections, from any cursor and any text shown so far |
| Reasoning.OpenEndNeverRetreats | ios/llama/common/chat-parser.cpp:387-397 | The end of the shown part of an open section never moves back when text arrives |
| Reasoning.SectionsGrow | ios/llama/common/chat-parser.cpp:381-431 | Within one parse, what is shown only grows |
| Reasoning.LeadingSpaceIsRetracted | ios/llama/common/chat-parser.cpp:361-367 | An input whose leading space is shown and then dropped |
| ReasoningTexts.TaggedMessageIsShown | ios/llama/common/chat-parser.cpp:287-431 | A message of closed sections and an answer: the reasoning is the stripped texts of the sections that are not blank, and the content the leading white space and the answer; with reasoning in the content, the stripped texts stand there between tags |
| ReasoningTexts.OpenMessageIsShown | ios/llama/common/chat-parser.cpp:381-431 | Of a section that is still open, the stripped text is shown up to an end with which the end tag begins |
| ReasoningTexts.ForcedMessageIsShown | ios/llama/common/chat-parser.cpp:354-380 | The same sections when reasoning is forced open and no start tag stands in front: the leading white space is dropped, and later sections are shown behind their start tag |
| ReasoningTexts.ForcedOpenMessageIsShown | ios/llama/common/chat-parser.cpp:354-431 | The same for one section, forced open, that does not end |
| ReasoningTexts.PlainContentIsShown | ios/llama/common/chat-parser.cpp:1518-1521 | Without reasoning to look for, or without a start tag, the whole message is content |
| ReasoningTexts.UnfinishedTagIsHeldBack | ios/llama/common/chat-parser.cpp:361-380 | Of a message that ends inside its first start tag nothing is shown |
| ReasoningTexts.ThoughtAndAnswer | ios/llama/common/chat-parser.cpp:287-431 | One thought in tags and an answer behind white space, with reasoning apart: the reasoning is the stripped thought and the content the answer |
| XmlToolCalls.NoCallLeavesNoTrace | ios/llama/common/chat-parser-xml-toolcall.cpp:640-648 | When no call is consumed, position and calls are those at entry; otherwise calls are only appended |
| XmlDefined.EmptyOptionalExactly | ios/llama/common/chat-parser-xml-toolcall.cpp:410-424 | The name of a call reads an empty optional, if and only if the form has an alternative end of a call, that end stands in front of the literal that ends the name, and from there neither it, followed by the scope end, nor the other end of a call is found |
| XmlDefined.ParseFailsExactly | ios/llama/common/chat-parser-xml-toolcall.cpp:298-633 | The whole parse reads an empty optional or fails an assertion, if and only if after some number of calls that are read one is next whose name is trapped, or one of whose values is JSON that must be dumped at the end of the input and whose dump lacks its marker or its closing brace |
| XmlDefined.ParseIsDefined | ios/llama/common/chat-parser-xml-toolcall.cpp:298-633 | When behind no start of a call the name is trapped, and every dump of a structured value is whole if values must be JSON, that never happens |
| XmlDefined.PlainFormsAreDefined | ios/llama/common/chat-parser-xml-toolcall.cpp:298-633 | Nor does it happen, on any input, for forms without an alternative end of a call whose values need not be JSON |
| XmlDefined.AprielExample | ios/llama/common/chat-parser.cpp:932-949 | The form of Apriel 1.5 and a text at which it does |
| XmlRoundTrip.PrintedCallsAreReadBack | ios/llama/common/chat-parser-xml-toolcall.cpp:298-633 | Parsing a printed list of calls, with white space anywhere the form allows it and values that are read as what they are meant to be, text or JSON, returns exactly those calls in order, each with the function that its name is written for, and stops behind the scope end, in streaming and in final mode |
| XmlRoundTrip.ValueIsReadExactly | ios/llama/common/chat-parser-xml-toolcall.cpp:499-586 | A printed value is read up to its end as the text or the JSON value it is meant to be, if and only if it is taken for that: no JSON is read where it starts or something else than its end follows that, or JSON is read up to its end |
| XmlRoundTrip.ArgsAreRead | ios/llama/common/chat-parser-xml-toolcall.cpp:448-586 | The loop over arguments reads every printed argument with distinct keys, and stops in front of what is no argument |
| XmlRoundTrip.NameIsRead | ios/llama/common/chat-parser-xml-toolcall.cpp:410-443 | The name ends at the separator, at the first key or at the tool end, whichever the form and the call decide |
| XmlRoundTrip.CallIsRead | ios/llama/common/chat-parser-xml-toolcall.cpp:399-611 | One turn of the loop over calls reads one printed call and appends it |
| XmlRoundTrip.NumberedNameIsRead | ios/llama/common/chat-parser-xml-toolcall.cpp:429-437 | The name that is written as functions., a name, a colon and digits is that name |
| XmlRoundTrip.OtherNameIsKept | ios/llama/common/chat-parser-xml-toolcall.cpp:429-437 | A name that cannot be written so is kept |
| XmlStreaming.RawValueIsText | ios/llama/common/chat-parser-xml-toolcall.cpp:501-585 | Where values are raw, every value is read as text, also one that is JSON |
| XmlStreaming.FlagIsCut | ios/llama/common/chat-parser-xml-toolcall.cpp:314-331 | A dump is sent up to the flag, and without the quotation mark in front of it, if only closing marks follow |
| XmlStreaming.OtherwiseNothingIsCut | ios/llama/common/chat-parser-xml-toolcall.cpp:314-331 | A dump that cannot be written so is not sent |
| XmlStreaming.SetArgSetsOne | ios/llama/common/chat-parser-xml-toolcall.cpp:547-562 | Setting an argument gives its key that value and changes no other one; a key keeps its place, and a new one comes last |
| XmlStreaming.CutValueIsSent | ios/llama/common/chat-parser-xml-toolcall.cpp:551-585 | Of a message that ends in a plain value, the complete calls are kept, and the last one is sent with its complete arguments and what is visible of the value, up to where the value may go on |
| XmlStreaming.CutKeyIsSent | ios/llama/common/chat-parser-xml-toolcall.cpp:465-476 | Of one that ends in a key, what is visible of the key is sent, without a value |
| XmlStreaming.CutKeyStartIsSent | ios/llama/common/chat-parser-xml-toolcall.cpp:457-463 | Of one that ends inside the literal in front of a key, the last call is sent without its closing brace |
| XmlStreaming.CutSeparatorIsSent | ios/llama/common/chat-parser-xml-toolcall.cpp:471-474 | Of one that ends inside the literal behind a key, the key is sent, without a value |
| XmlStreaming.CutSecondSeparatorStops | ios/llama/common/chat-parser-xml-toolcall.cpp:479-498 | Where the second separator is cut off or missing, the key is sent with a value that is not there yet |
| XmlStreaming.TextAfterKeyIsRefused | ios/llama/common/chat-parser-xml-toolcall.cpp:479-488 | Other text in front of the second separator is a syntax error |
| XmlStreaming.NamelessCallIsNotSent | ios/llama/common/chat-parser-xml-toolcall.cpp:588-611 | Nothing is sent of a call without a name |
| XmlStreaming.DoneArgsAreSent | ios/llama/common/chat-parser-xml-toolcall.cpp:606-611 | Of one that ends behind complete arguments, the last call is sent without its closing brace |
| XmlStreaming.CutCallEndIsSent | ios/llama/common/chat-parser-xml-toolcall.cpp:588-611 | So it is of one that ends inside the end of the call |
| XmlStreaming.AwaitedValueIsSent | ios/llama/common/chat-parser-xml-toolcall.cpp:507-537 | A rest of the input that begins null, true, false or a number is awaited, and sent as a value that is not there yet |
| XmlStreaming.JsonIsAwaited | ios/llama/common/chat-parser-xml-toolcall.cpp:524-548 | So is a JSON value at the end of the input, or in front of a value end that is cut off, unless it is structured and must be JSON |
| XmlStreaming.JsonIsSentOpen | ios/llama/common/chat-parser-xml-toolcall.cpp:527-534 | A structured JSON value at the end of the input is sent up to its healing marker, or without the closing brace |
| XmlStreaming.NumberSoFarExactly | ios/llama/common/chat-parser-xml-toolcall.cpp:508-514 | What is taken for the beginning of a number is exactly what the regular expression describes |
| XmlStreaming.ScopeEndIsAwaited | ios/llama/common/chat-parser-xml-toolcall.cpp:613-628 | Calls behind which only white space comes are kept, and the end of their scope is awaited |
| XmlStreaming.CallsAreTakenBack | ios/llama/common/chat-parser-xml-toolcall.cpp:613-648 | Calls behind which neither a call nor the end of their scope comes are all taken back |
| XmlStreaming.NoScopeNoCalls | ios/llama/common/chat-parser-xml-toolcall.cpp:387-398 | Without the start of a scope, where one is needed, nothing is read |
| XmlStreaming.CutScopeStartIsAwaited | ios/llama/common/chat-parser-xml-toolcall.cpp:387-398 | Of a message that ends inside the start of a scope nothing is read, and more is awaited |
| XmlStreaming.OpenNameIsNotSent | ios/llama/common/chat-parser-xml-toolcall.cpp:410-419 | A call whose name does not end is not sent, and more is awaited |
| XmlStreaming.TextInCallIsRefused | ios/llama/common/chat-parser-xml-toolcall.cpp:588-599 | A call with other text behind its arguments is refused, which undoes everything if nothing was read that cannot be undone |
| XmlForms.ShippedCallsAreReadBack | ios/llama/common/chat-parser.cpp:882-911 | The round trip itself for the forms of MiniMax M2, Qwen3 Coder, Seed OSS and GLM 4.5: calls whose names and keys hold no bracket and no quotation mark are read back, each value as JSON if the JSON library reads its whole text as such, and as text if not |
| XmlForms.NothingIsAwaited | ios/llama/common/chat-parser-xml-toolcall.cpp:507-520 | In front of the value end of such a form the rest of the input is never taken for the beginning of null, true, false or a number |
| XmlJsonForms.PrintedObjectsAreReadBack | ios/llama/common/chat-parser-xml-toolcall.cpp:298-633 | The round trip for forms that write JSON objects, where the last value has no end of its own and the last call may have one of its own: the printed calls are read back in order, with the values that the JSON library reads, and reading stops behind the scope end |
| XmlJsonForms.LastEndIsFound | ios/llama/common/chat-parser-xml-toolcall.cpp:345-384 | In front of the scope end the end of the last call is found, not the usual one |
| XmlJsonForms.ShippedObjectsAreReadBack | ios/llama/common/chat-parser.cpp:913-967 | That round trip for the forms of Kimi K2, Apriel 1.5 and MiMo, for calls whose names hold no quotation mark, angle bracket or closing brace and whose keys hold no quotation mark; a numbered name of Kimi K2 is read as the function that it numbers |
| XmlProgress.TurnMovesUnlessStalled | ios/llama/common/chat-parser-xml-toolcall.cpp:854-865 | A turn that reports calls leaves the cursor, behind the white space that it may skip, behind where the call began, if and only if it does not stall |
| XmlProgress.StalledTurnRepeats | ios/llama/common/chat-parser-xml-toolcall.cpp:854-865 | A stalled turn adds no call, leaves the cursor where it was and finds the same start again |
| MessageLoop.TurnMoves | ios/llama/common/chat-parser-xml-toolcall.cpp:708-872 | Every turn that neither ends the loop nor stalls moves the cursor or closes the open think block, shows more or the same, and keeps the calls; when the message is complete the input is used up and no reasoning is left over |
| MessageLoop.StuckExactly | ios/llama/common/chat-parser-xml-toolcall.cpp:708-872 | The loop is stuck, if and only if it still goes on after any number of turns |
| MessageLoop.AllMessagesEndExactly | ios/llama/common/chat-parser-xml-toolcall.cpp:654-875 | For every form, the loop ends on all messages, if and only if the form cannot stall: its scope start is empty or not white space, or its scope end is not white space or stands in the scope start, or its tool start has one character or begins with white space |
| MessageLoop.FormGetsStuck | ios/llama/common/chat-parser-xml-toolcall.cpp:654-875 | A form that can stall keeps the loop busy for ever at its scope start followed by the first character of a tool start, whatever the tags and the JSON library |
| MessageLoop.ShippedFormsEnd | ios/llama/common/chat-parser.cpp:882-967 | With the seven shipped forms the loop ends on every message |
| MessageLoop.LoopKeeps | ios/llama/common/chat-parser-xml-toolcall.cpp:654-875 | Over the whole loop what was shown stays a prefix of what is shown, and earlier calls are kept |
| MessageRuns.PlainMessageIsShown | ios/llama/common/chat-parser-xml-toolcall.cpp:654-875 | A message without think tags and calls is complete, and its content is its text, without outer white space if reasoning is shown apart, and without an end with which a literal begins; behind earlier content, with a blank line between if reasoning is shown apart |
| MessageRuns.MessageIsRead | ios/llama/common/chat-parser-xml-toolcall.cpp:654-875 | A whole message of a thought that is forced open, a text with think blocks, and printed calls: the thought and the texts of the blocks are the reasoning, the rest of the text, glued together, is the content, and the calls are those that were printed; with reasoning in the content, the tags stay there |
| MessageRuns.LastTextIsShown | ios/llama/common/chat-parser-xml-toolcall.cpp:752-838 | A last text, from any cursor: what its closed blocks hold goes to the reasoning, and the rest is shown up to an end that is held back |
| MessageRuns.TextAndCallsAreRead | ios/llama/common/chat-parser-xml-toolcall.cpp:752-872 | A text and calls behind it: the text is shown, the calls are kept, and the loop goes on behind them, with a blank line if something follows |
| MessageRuns.ThoughtIsClosed | ios/llama/common/chat-parser-xml-toolcall.cpp:720-758 | An open thought that an end tag closes, with more to follow, is shown whole, and the turn goes on behind the tag |
| MessageRuns.LastThoughtIsShown | ios/llama/common/chat-parser-xml-toolcall.cpp:720-758 | An open thought at the end of the message is shown without an end tag and up to an end that is held back; a blank one is not shown |
| MessageRuns.OpenBlockIsShown | ios/llama/common/chat-parser-xml-toolcall.cpp:762-816 | A block that is never closed: the text in front of it is shown, and what it holds, up to an end that is held back |
| MessageRuns.CallInBlockIsSkipped | ios/llama/common/chat-parser-xml-toolcall.cpp:774-788 | The start of a call inside an open block belongs to the block, unless calls may stand there |
| MessageRuns.OpenBlockGoesOn | ios/llama/common/chat-parser-xml-toolcall.cpp:720-731 | So does one that comes later in a block that is already open |
| MessageRuns.CallFollowsBlock | ios/llama/common/chat-parser-xml-toolcall.cpp:774-838 | Where calls may stand in a block, what it holds is shown, and it stays open, while the calls are tried |
| MessageRuns.LastBlockStaysOpen | ios/llama/common/chat-parser-xml-toolcall.cpp:774-851 | There a block that is never closed is shown up to an end that is held back |
| MessageRuns.TextInBlockIsShownTwice | ios/llama/common/chat-parser-xml-toolcall.cpp:724-733 | In an open block where calls may stand, the text in front of the next call is shown as reasoning and as content |
| MessageRuns.RefusedCallIsText | ios/llama/common/chat-parser-xml-toolcall.cpp:866-872 | Where no call can be read after all, one character is shown, unless it is white space; a line break there interrupts the parse |
| MessageTexts.BlocksAreTaken | ios/llama/common/chat-parser-xml-toolcall.cpp:762-788 | With reasoning shown apart, closed blocks are taken out of a text one by one, and a blank line is left for each, or nothing at the start |
| MessageTexts.StrayEndIsErased | ios/llama/common/chat-parser-xml-toolcall.cpp:790-803 | An end tag that no start tag precedes leaves a blank line |
| MessageTexts.TrimEndedIs | ios/llama/common/chat-parser-xml-toolcall.cpp:805-816 | Of a text with white space and the beginning of a literal at its end, what is in front of that is shown |
| MessageTexts.LiteralsAre | ios/llama/common/chat-parser-xml-toolcall.cpp:682-689 | The literals whose beginnings are held back are the two tags and every literal of the form |
| MessageLoop.StuckExample | ios/llama/common/chat-parser-xml-toolcall.h:13-24 | With a line break as scope start, an input at which the loop does not end |
| MessageText.TrimSuffix | ios/llama/common/chat-parser-xml-toolcall.cpp:655-681 | What is cut off, if anything, is the longest end of the text that begins one of the words of the form |
| MessageText.EraseSpaces | ios/llama/common/chat-parser-xml-toolcall.cpp:655-681 | Erasing a range with the white space around it leaves a blank line between the two sides, or nothing at the start, and shortens what is left to read |
| MessageText.EraseStrayEnds | ios/llama/common/chat-parser-xml-toolcall.cpp:790-803 | No end tag remains in the text, and a text without one is unchanged |
| ChatMsgParser.Parser.TryFindLiteral | ios/llama/common/chat-parser.cpp:257-279 | The result and the new cursor are those of the first occurrence or, in partial mode, of the held-back suffix |
| ChatMsgParser.Parser.TryFindTwoLiterals | ios/llama/common/chat-parser-xml-toolcall.cpp:60-79 | The loop finds the first place where the second literal follows the first behind white space, and restores the cursor otherwise |
| ChatMsgParser.Parser.TryDetect | ios/llama/common/chat-parser-xml-toolcall.cpp:501-521 | The value and the new cursor are those of the JSON library or, where that moves on by nothing, of the test for the beginning of a word or number |
| ChatMsgParser.Parser.TryParseReasoning | ios/llama/common/chat-parser.cpp:287-431 | The object's cursor, content and reasoning become those of the function that never retracts |
| ChatMsgParser.Parser.ParseContentOnly | ios/llama/common/chat-parser.cpp:1518-1521 | The content-only format shows what `Reasoning.ContentOnly` says |
| ChatMsgParser.Parser.ParseXmlToolCalls | ios/llama/common/chat-parser-xml-toolcall.cpp:298-633 | The object ends in the state of the function that the round trip is about, for every outcome that is not an assertion failure |
| ChatMsgParser.Parser.TryConsumeXmlToolCalls | ios/llama/common/chat-parser-xml-toolcall.cpp:640-648 | The same with the rollback of the cursor and of the calls |
| ChatMsgParser.Parser.ShowTextOutside | ios/llama/common/chat-parser-xml-toolcall.cpp:760-838 | Think blocks in the text go to the reasoning, the rest is cleaned and added to the content as `MessageLoop.ShowText` says |
| ChatMsgParser.Parser.TakeTurn | ios/llama/common/chat-parser-xml-toolcall.cpp:708-872 | The object makes the turn that the theorems about the loop are about, for every outcome |
| ChatMsgParser.Parser.ParseMsgWithXmlToolCalls | ios/llama/common/chat-parser-xml-toolcall.cpp:654-875 | For every form, the texts shown, the calls and the way it ends are those of the loop that the theorems are about; where it is stuck the program goes on for ever |
| Gbnf.Children | ios/llama/common/chat-parser-xml-toolcall.cpp:98-120 | Groups a sorted range by next character: every longer string is in exactly the group of its character |
| Gbnf.BuildExpr | ios/llama/common/chat-parser-xml-toolcall.cpp:98-148 | The expression matches exactly the words that walk along a forbidden string and leave all of them with the last character |
| Gbnf.MakeGbnfExcluding | ios/llama/common/chat-parser-xml-toolcall.cpp:84-161 | The grammar's texts are exactly the sequences of such blocks; it is a class of no characters, if and only if there are strings but none with a character |
| Gbnf.BlocksArePrefixFree | ios/llama/common/chat-parser-xml-toolcall.cpp:98-148 | No block is the beginning of another one |
| Gbnf.NoForbiddenAtBoundary | ios/llama/common/chat-parser-xml-toolcall.cpp:84-161 | For pairwise prefix-free strings, none of them starts at a block boundary of an accepted text |
| Gbnf.FreeTextFactors | ios/llama/common/chat-parser-xml-toolcall.cpp:84-161 | Every text without a forbidden string is blocks followed by a proper beginning of a forbidden string |
| Gbnf.FactorsUniquely | ios/llama/common/chat-parser-xml-toolcall.cpp:84-161 | There is only one such way to cut a text |
| Gbnf.ExcludesExactlyRepetitions | ios/llama/common/chat-parser-xml-toolcall.cpp:84-161 | The grammar of one string, with an empty string beside it or not, accepts no text that contains it, if and only if the string repeats one character |
| Gbnf.ExcludesExactly | ios/llama/common/chat-parser-xml-toolcall.cpp:84-161 | The grammar of any list accepts no text that contains one of its strings, if and only if in no block one of them begins that ends in it or that some accepted text goes on with |
| Gbnf.CanGoOnExactly | ios/llama/common/chat-parser-xml-toolcall.cpp:84-161 | Some accepted text begins with a given one, if and only if it is a beginning of a block, or a block and then such a beginning again |
| Gbnf.ExcludesExactlyWithoutOverlap | ios/llama/common/chat-parser-xml-toolcall.cpp:84-161 | For a list in which no string contains another, and some character that none of them holds, the same, if and only if no block ends, behind its first character, with the beginning of a string of the list |
| Gbnf.OtherStringSlipsThrough | ios/llama/common/chat-parser-xml-toolcall.cpp:84-161 | For any other string, an accepted text that contains it |
| LoraPrograms.ProgramsCommuteWithTheProduct | ios/llama/convert_lora_to_gguf.py:41-224 | Every composition of operations whose steps are sound succeeds on the products whenever it does on the factors, and gives the product of its result |
| TensorLaws.TransposedAt | ios/llama/convert_lora_to_gguf.py:176-183 | The dense transpose exists exactly for two axes, counted from either end; it has the shape with the two lengths exchanged, and its element at an index is that at the index with the two positions exchanged |
| TensorLaws.TransposeIsElementwise | ios/llama/convert_lora_to_gguf.py:163-183 | Exchanging two axes of the factors succeeds exactly for the two axes of a matrix, or for axes other than the last where A has nothing to exchange; the result stands for the product with the two axes exchanged |
| TensorLaws.PermutedAt | ios/llama/convert_lora_to_gguf.py:163-174 | Each axis of a permuted tensor is the one that its position names, in the shape and in every index |
| TensorLaws.PickedAxis | ios/llama/convert_lora_to_gguf.py:68-115 | Along each axis of an indexed tensor stand the fixed position, or the positions of the slice, and every kept axis has as many positions |
| TensorLaws.ResolvedPosition | ios/llama/convert_lora_to_gguf.py:68-115 | A position counts from either end, and is in range or fails |
| TensorLaws.ResolvedSlice | ios/llama/convert_lora_to_gguf.py:68-115 | A slice takes every step-th position from its first bound on, in front of its second |
| TensorLaws.ReshapedAt | ios/llama/convert_lora_to_gguf.py:131-155 | A reshape keeps the number of elements and the flat position of every element |
| TensorLaws.ExpandedDims | ios/llama/convert_lora_to_gguf.py:131-146 | Lengths that are given are kept, and a single -1 becomes the length that the number of elements needs |
| TensorLaws.ConcatenatedAt | ios/llama/convert_lora_to_gguf.py:207-221 | Concatenated along the first axis, an operand stands behind all positions of the earlier ones |
| TensorLaws.StackedAt | ios/llama/convert_lora_to_gguf.py:199-206 | A stacked tensor has its operands at the positions of a new first axis |
| TensorLaws.UnitA | ios/llama/convert_lora_to_gguf.py:41-50 | With a unit matrix for A the product is B |
| TensorLaws.UnitB | ios/llama/convert_lora_to_gguf.py:41-50 | With a unit matrix for B the product is A |
| LoraSuccess.GetsInt | ios/llama/convert_lora_to_gguf.py:68-72 | A position succeeds exactly on three axes or more, where both factors have it |
| LoraSuccess.GetsSlice | ios/llama/convert_lora_to_gguf.py:73-77 | A bare slice succeeds exactly for a step that is not zero |
| LoraSuccess.GetsTuple | ios/llama/convert_lora_to_gguf.py:78-115 | A tuple index succeeds exactly when the last two axes are sliced, every item can be taken of its axis, and no position is taken of an axis of A that has none |
| LoraSuccess.Reshapes | ios/llama/convert_lora_to_gguf.py:131-155 | A reshape succeeds exactly when it names two axes or more, keeps the last one, and each factor has the right number of elements |
| LoraSuccess.Permutes | ios/llama/convert_lora_to_gguf.py:163-174 | A permutation succeeds exactly when it names every axis once, leaves the last one alone and A has nothing to permute, or transposes a matrix |
| LoraSuccess.Stacks | ios/llama/convert_lora_to_gguf.py:199-206 | Tensors are stacked exactly when there is one and all have the factors' shapes of the first |
| LoraSuccess.Concatenates | ios/llama/convert_lora_to_gguf.py:207-221 | Tensors are concatenated exactly when there is one and the shapes agree behind the first axis; matrices need the same A |
| LoraPicks.GetIntCommutes | ios/llama/convert_lora_to_gguf.py:68-72 | A position on three axes or more is that position of the product |
| LoraPicks.GetSliceCommutes | ios/llama/convert_lora_to_gguf.py:73-77 | A slice of both factors stands for the slice of the product, if and only if the first axes fit it |
| LoraPicks.GetRowsCommutes | ios/llama/convert_lora_to_gguf.py:73-77 | On matrices a slice of B is the slice of the product's rows |
| LoraPicks.GetTupleCommutes | ios/llama/convert_lora_to_gguf.py:78-115 | A tuple index stands for the same index of the product, if and only if what it keeps of A's leading axes fits |
| LoraShapes.ReshapeCommutes | ios/llama/convert_lora_to_gguf.py:131-155 | A reshape that succeeds on the factors reshapes the product; the product can be reshaped, if and only if the rank is not zero or the numbers of elements agree |
| LoraShapes.PermuteCommutes | ios/llama/convert_lora_to_gguf.py:163-174 | A permutation that succeeds on the factors permutes the product |
| LoraShapes.TransposeMatrix | ios/llama/convert_lora_to_gguf.py:163-180 | Swapping and transposing the factors transposes the product |
| LoraJoins.StackCommutes | ios/llama/convert_lora_to_gguf.py:199-206 | Stacking factors stacks products |
| LoraJoins.CatCommutes | ios/llama/convert_lora_to_gguf.py:207-215 | The joined factors have the shapes of a product, if and only if the first axes of A are together as long as those of B, or have length one; they stand for the joined products if every position picks its own operand, which holds if the first axes of each operand agree or there is one operand, and of non-empty operands only then |
| LoraJoins.CatRowsCommutes | ios/llama/convert_lora_to_gguf.py:216-221 | With a shared A, joining the B factors joins the rows of the products |
| LoraExamples.SliceExample | ios/llama/convert_lora_to_gguf.py:73-77 | A slice whose factors stand for no product |
| LoraExamples.TupleExample | ios/llama/convert_lora_to_gguf.py:78-115 | A tuple index whose factors stand for no product |
| LoraExamples.CatExample | ios/llama/convert_lora_to_gguf.py:207-215 | A concatenation whose factors stand for no product |
| LoraExamples.CatOfEmptyExample | ios/llama/convert_lora_to_gguf.py:207-215 | One with an empty operand, whose factors stand for another product than the joined one |
| LoraExamples.OwnMustBePicked | ios/llama/convert_lora_to_gguf.py:207-215 | If some position does not pick its own operand, tensors of the very same shapes are joined to factors of another product than the joined one |
| EmbeddingCache.MatchedRunIsCoherent | ios/Core/GlobalViewModel.swift:1608-1625 | Over every interleaving of edits, timers, indexing calls, loads and unloads in which each embed call fails or is answered by the model whose id it captured, every fresh note carries the embedding of its present text under the selected model |
| CacheLaws.EditedIsBare | ios/Core/GlobalViewModel.swift:1532-1552 | After an edit the note keeps its text and carries no embedding, model or hash; the registered timer is cancelled, and a new one sleeps and is registered |
| CacheLaws.EditedIsNotServed | ios/Core/GlobalViewModel.swift:734-737 | Over every run: a note that was edited does not pass the freshness test again, under whatever model, before a call for it has written something |
| CacheLaws.EditIsIndexed | ios/Core/GlobalViewModel.swift:1532-1625 | With the selected model held, an edited note whose timer wakes and whose call succeeds passes it again, with the embedding of its text |
| CacheLaws.CancelledNeverIndexes | ios/Core/GlobalViewModel.swift:1539-1552 | Over every run: a timer that is cancelled before its call begins never begins one |
| CacheLaws.WokenTimer | ios/Core/GlobalViewModel.swift:1539-1570 | A timer that was not cancelled begins a call if a model is loaded and selected, with the text, its hash and the model of that moment; otherwise no call begins |
| CacheLaws.EditEndsEarlierTimer | ios/Core/GlobalViewModel.swift:1539-1542 | An edit puts an end to the timer of the edit before it, if that still sleeps |
| CacheLaws.BegunCall | ios/Core/GlobalViewModel.swift:1608-1615 | Indexing on demand captures the same, and fails without a selected model |
| CacheLaws.FinishedCall | ios/Core/GlobalViewModel.swift:1608-1625 | A finished call writes its vector, model and hash to the note, and nothing if it failed |
| CacheLaws.LoadingSelects | ios/Core/GlobalViewModel.swift:1197-1221 | A load that runs through leaves its model held, loaded and selected |
| CacheLaws.FailedLoadSelectsNothing | ios/Core/GlobalViewModel.swift:1197-1221 | A load that fails leaves the selection, and no model loaded |
| CacheLaws.UnloadingFrees | ios/Core/GlobalViewModel.swift:1280-1289 | Unloading frees the held model, and clears the selection if asked |
| CacheLaws.BackgroundFrees | ios/Core/GlobalViewModel.swift:407-425 | Going to the background frees the model and keeps the selection |
| CacheLaws.NormalizingDeselects | ios/Core/GlobalViewModel.swift:1138-1141 | A selection whose model is not in the catalog is cleared |
| CacheLaws.FreshMeans | ios/Core/GlobalViewModel.swift:1679-1685 | The freshness test, spelled out by the fields of the note |
| EmbeddingCache.RunIsOwnedExactlyIfMatched | ios/Core/GlobalViewModel.swift:1608-1625 | For models that give no text the same vector: at every point of a run all stored embeddings are honest and all answers are those of the captured model and text, if and only if every embed call is so answered |
| EmbeddingCache.EveryRunIsCoherent | ios/Core/GlobalViewModel.swift:1608-1625 | Runs in which no model is exchanged for another under a call in flight, and in which loads that overlap are loads of one model, are of that kind and so coherent |
| EmbeddingCache.InvIsKept | ios/Core/GlobalViewModel.swift:1532-1625 | Every single event keeps the invariant behind that discipline |
| EmbeddingCache.WriteIsHonestExactlyWhenMatched | ios/Core/GlobalViewModel.swift:1608-1625 | A written embedding is that of the captured text under the captured model, if and only if the actor held that model or none while embedding |
| EmbeddingCache.WrittenNoteIsFreshExactlyWhenNothingMoved | ios/Core/GlobalViewModel.swift:1679-1685 | A note just written passes the freshness test, if and only if text and selected model are unchanged and the vector is not empty |
| EmbeddingCache.SwapExample | ios/Core/GlobalViewModel.swift:1197-1221 | A run in which a model exchanged under a call makes the test pass a vector of the wrong model |
| EmbeddingCache.OverlappingLoadsExample | ios/Core/GlobalViewModel.swift:1197-1221 | A run without any swap under a call in flight in which, after two overlapping loads, the test passes a vector of the wrong model |
| EmbeddingCache.HandlesAreKeptExactlyOtherwise | ios/Core/GlobalViewModel.swift:1539-1552 | After an event every live timer can still be cancelled, if and only if the event is not a task clearing a newer task's entry |
| EmbeddingCache.NoNoteHasTwoTimers | ios/Core/GlobalViewModel.swift:1532-1552 | Over every run without such an event, no note ever has two live timers |
| EmbeddingCache.LostHandleExample | ios/Core/GlobalViewModel.swift:1539-1552 | A run that ends with two live timers for one note |
| EmbeddingCache.ViewModel.IsNoteEmbeddingFresh | ios/Core/GlobalViewModel.swift:1679-1685 | The test passes exactly the notes with a non-empty embedding of the selected model whose stored hash is that of the present text |
| EmbeddingCache.ViewModel.HandleNoteEdited | ios/Core/GlobalViewModel.swift:734-737 | The embedding is dropped, the registered timer cancelled and a new one registered, and nothing else changes |
| EmbeddingCache.ViewModel.AutoIndexWakes | ios/Core/GlobalViewModel.swift:1541-1551 | A cancelled or unloaded wake-up does nothing; otherwise a call captures model, text and hash |
| EmbeddingCache.ViewModel.FinishIndex | ios/Core/GlobalViewModel.swift:1615-1625 | What was captured is written to the note, whatever happened to it meanwhile |
| EmbeddingCache.ViewModel.EmbedWithEmbeddingModel | ios/Core/AI/LlamaContext.swift:518-523 | The answer is that of the model held at that moment |
| EmbeddingCache.ViewModel.LoadOnActor | ios/Core/AI/LlamaContext.swift:120-160 | A file that is turned down leaves the held model; after that it is freed, and held again only if the load succeeds |
| EmbeddingCache.ViewModel.LoadReturns | ios/Core/GlobalViewModel.swift:1208-1220 | After a load that succeeded its model becomes the selected one; after one that failed the selection stays |
| EmbeddingCache.ViewModel.UnloadReturns | ios/Core/GlobalViewModel.swift:1281-1289 | After an unload no model is loaded, and the selection is cleared if that was asked for |
| EmbeddingCache.ViewModel.NormalizeStoredModelSelections | ios/Core/GlobalViewModel.swift:1138-1141 | The selection is cleared exactly if its model is not in the catalog, and nothing else changes |
| Feedback.LedgerIsExactExactly | ios/Core/GlobalViewModel.swift:665-694 | Over every run of ratings, a boost equals its start plus the deltas of the latest ratings at every point, if and only if that sum never falls below the lower bound |
| Feedback.ThreeMessagesAreExact | ios/Core/GlobalViewModel.swift:665-694 | So it does for a source at zero cited at most once per message, while at most three citing messages are rated |
| Feedback.FourMessagesExample | ios/Core/GlobalViewModel.swift:665-694 | With four, a changed rating is not taken back in full |
| Feedback.BoostsStayInRange | ios/Core/GlobalViewModel.swift:687-694 | Boosts stay within the bounds over every run |
| Feedback.RecordedBoostsAreInRange | ios/Core/GlobalViewModel.swift:1489-1491 | Whatever was stored before, a recorded rating leaves every boost it touches within the bounds and the others alone |
| Feedback.FirstRatingLowers | ios/Core/GlobalViewModel.swift:665-694 | The first rating of an answer lowers the boost of each source by 0.06, 0.03 or 0.01 for every citation, down to -0.2 at most, and is remembered |
| Feedback.Ledger.RecordFeedback | ios/Core/GlobalViewModel.swift:665-674 | The previous rating is undone before the new one is applied; messages that are no answers change nothing |
| Chunks.ChunksConserveText | ios/Core/Knowledge/TextChunkingService.swift:54-90 | The base chunks hold the text in order, white space aside; so do the chunks without overlap; with overlap each holds the tail before it and its base chunk, if and only if the two fit |
| Chunks.ChunkIsKeptExactlyIfItFits | ios/Core/Knowledge/TextChunkingService.swift:187-211 | That condition for one chunk, and that nothing at all is lost when it holds |
| ChunkExample.LostEndExample | ios/Core/Knowledge/TextChunkingService.swift:187-211 | Two paragraphs as long as a chunk, and an overlap of one character: no chunk holds the second paragraph |
| ChunkLaws.ChunksAreRead | ios/Core/Knowledge/TextChunkingService.swift:54-90 | The base chunks are the units, packed greedily with a blank line between; the first chunk is the first of them, and every later one stands behind the tail of the base chunk before it, whole if it fits and else up to the best cut; sizes are at least 200, and the overlap is between 0 and one less |
| ChunkLaws.ParagraphsAreTexts | ios/Core/Knowledge/TextChunkingService.swift:92-96 | Text written in parts with blank lines between has the trimmed parts that are not blank as paragraphs |
| ChunkLaws.SentencesAreRead | ios/Core/Knowledge/TextChunkingService.swift:158-185 | The sentences are the trimmed texts between the stretches of white space behind a full stop, exclamation or question mark where no abbreviation ends |
| ChunkLaws.ParagraphIsUnits | ios/Core/Knowledge/TextChunkingService.swift:98-127 | A paragraph that fits is one unit; the sentences of a longer one are packed greedily, and what is still too long is cut |
| ChunkLaws.TextIsUnits | ios/Core/Knowledge/TextChunkingService.swift:92-127 | The units of a text are those of its paragraphs that are not blank, in order |
| ChunkLaws.PiecesAreCutBest | ios/Core/Knowledge/TextChunkingService.swift:129-156 | An overlong text is cut piece by piece, each time as late as the size allows without cutting a word, unless the word fills the window |
| ChunkLaws.FittingTextIsOnePiece | ios/Core/Knowledge/TextChunkingService.swift:129-136 | A text that fits is its only piece, trimmed, and a blank one has none |
| ChunkLaws.TailIsRead | ios/Core/Knowledge/TextChunkingService.swift:263-304 | The tail begins as far from the end as asked for, or at the next start of a word if that is inside one and there is a next start |
| ChunkLaws.LineEndsAreUnified | ios/Core/Knowledge/TextChunkingService.swift:48-52 | Lines that end with a carriage return and a line feed are joined by line feeds, and the whole is trimmed |
| Chunks.ChunksAreShort | ios/Core/Knowledge/TextChunkingService.swift:54-90 | Every chunk is non-empty, trimmed and at most the larger of 200 and the size asked for |
| Chunks.BaseChunksConserveText | ios/Core/Knowledge/TextChunkingService.swift:54-85 | Base chunks are the packed units, and conserve the text |
| Chunks.PackedIsGreedy | ios/Core/Knowledge/TextChunkingService.swift:62-79 | Buffers join consecutive groups, and none has room for the piece that comes next |
| Chunks.CutIsBest | ios/Core/Knowledge/TextChunkingService.swift:137-155 | A cut splits a word only if the word fills the whole window, and every later cut in the window would split one |
| Chunks.PiecesAreUnits | ios/Core/Knowledge/TextChunkingService.swift:129-156 | The pieces are short, trimmed, non-empty and hold the text |
| Chunks.SentencesKeepInk | ios/Core/Knowledge/TextChunkingService.swift:158-185 | Whatever boundaries are ignored, the sentences hold the text |
| Chunks.TailIsSuffix | ios/Core/Knowledge/TextChunkingService.swift:263-275 | The tail ends the previous chunk, is no longer than asked for, and starts inside a word only if no later word starts in the stretch |
| Chunks.NormalizingKeepsInk | ios/Core/Knowledge/TextChunkingService.swift:48-52 | Normalizing loses white space only |
| TextChunkingService.AppendOrSplit | ios/Core/Knowledge/TextChunkingService.swift:129-156 | The loop ends and appends those pieces |
| TextChunkingService.SplitIntoSentences | ios/Core/Knowledge/TextChunkingService.swift:158-185 | The loop over matches gives the sentences |
| TextChunkingService.SemanticUnits | ios/Core/Knowledge/TextChunkingService.swift:92-127 | Paragraphs, or packed and split sentences, as one list |
| TextChunkingService.ApplyOverlap | ios/Core/Knowledge/TextChunkingService.swift:187-211 | Every chunk but the first is merged with the tail of the base chunk before it |
| TextChunkingService.ChunkSingle | ios/Core/Knowledge/TextChunkingService.swift:54-90 | The whole chunker for one text |
| TextChunkingService.ChunkPagesWithMetadata | ios/Core/Knowledge/TextChunkingService.swift:27-40 | The loop over pages gives the units that the lemmas about pages are about |
| TextChunkingService.AlignBackwardToWordBoundary | ios/Core/Knowledge/TextChunkingService.swift:306-320 | Moves back to the start of a split word, not before the lower bound |
| TextChunkingService.AlignForwardToWordBoundary | ios/Core/Knowledge/TextChunkingService.swift:287-304 | Moves past a split word and what separates it from the next |
| TextChunkingService.UnitsOfAPageAreItsChunks | ios/Core/Knowledge/TextChunkingService.swift:27-40 | The units that carry a page's number are the chunks of that page alone, in order |
| TextChunkingService.PageNumbersAreInOrder | ios/Core/Knowledge/TextChunkingService.swift:27-40 | Page numbers never fall and lie between one and the number of pages |
| TextChunkingService.PageIsConserved | ios/Core/Knowledge/TextChunkingService.swift:27-52 | Without overlap a page's chunks hold all of the page, white space aside |
| Base64.DecodingTakesEncodingBack | ios/llama/common/base64.hpp:79-244 | Decoding takes encoding back for all bytes, both alphabets, chosen or detected, and both behaviours |
| Base64.DecodingTakesLettersBack | ios/llama/common/base64.hpp:199-244 | The same whatever amount of padding follows |
| Base64.DetectionTriesBoth | ios/llama/common/base64.hpp:344-389 | Detection succeeds exactly if one of the two alphabets does, with its result |
| Base64.EncodedSizeIsRequiredSize | ios/llama/common/base64.hpp:326-341 | The encoded length is the required size |
| Base64.DecodedFitsMaxSize | ios/llama/common/base64.hpp:312-327 | The decoded length is at most the maximal size |
| Base64.LettersAreThoseOfTheStandard | ios/llama/common/base64.hpp:79-89 | The letters are those of tables 1 and 2 of RFC 4648, in order |
| Base64.LettersAreGroupsOfSix | ios/llama/common/base64.hpp:79-144 | The letters of three bytes stand for their twenty-four bits in groups of six |
| Base64.DecodesExactly | ios/llama/common/base64.hpp:199-244 | Decoding succeeds exactly if only letters of the alphabet stand in front of the first padding character, and only padding behind it unless that does not matter |
| Base64.Encode | ios/llama/common/base64.hpp:79-144 | The loop writes the encoding of section 4 or 5 of RFC 4648, with padding |
| Base64.Decode | ios/llama/common/base64.hpp:199-244 | The loop over carried bits decodes or refuses as specified |
| Base64.DecodeInPlace | ios/llama/common/base64.hpp:294-312 | Decoding over the buffer gives what decoding the original text gives |
| Retrieval.BalancedIsBalanced | ios/Domain/Services/RAGPipelineService.swift:531-592 | The selection keeps all limits, has distinct sources and, but for the two seeds, distinct fingerprints, and every candidate is blocked in the end |
| Retrieval.SelectionIsGreedy | ios/Domain/Services/RAGPipelineService.swift:531-592 | The selection begins with the first note, and with the first chunk if there is no note or if their scores are within 0.18 and two results are asked for; then every candidate in order is added exactly if there is room for it |
| Retrieval.TopIsSelectedExactly | ios/Domain/Services/RAGPipelineService.swift:531-592 | When the best candidate is selected |
| Retrieval.DroppedTopExample | ios/Domain/Services/RAGPipelineService.swift:531-592 | A chunk however far ahead of the only note is dropped, whatever the limits, when it has that note's fingerprint |
| Retrieval.DiversifyAndBalance | ios/Domain/Services/RAGPipelineService.swift:531-592 | The loop with its set of fingerprints and its counters computes that selection |
| Retrieval.ParallelScoreBatch | ios/Domain/Services/RAGPipelineService.swift:462-499 | For every number of processors and every order of appends, the result is a permutation of the sequential pass |
| Retrieval.ScoredPositions | ios/Domain/Services/RAGPipelineService.swift:462-470 | The sequential pass gives the score of every position that is not turned down, once and in order |
| Retrieval.BucketsTile | ios/Domain/Services/RAGPipelineService.swift:475-484 | The ceiling-division buckets cover every index once and in order |
| Retrieval.AnyOrderMergesTheSame | ios/Domain/Services/RAGPipelineService.swift:479-496 | The order of appends changes nothing but the order |
| Retrieval.RankedScoresAreDetermined | ios/Domain/Services/RAGPipelineService.swift:189-196 | The ranked sequence of score pairs, and of every prefix, does not depend on schedule or ties |
| Retrieval.TiesDependOnTheSchedule | ios/Domain/Services/RAGPipelineService.swift:189-196 | Which of two equal candidates is cut off may depend on it |
| Splitting.StringSplit | ios/llama/common/common.cpp:503-517 | The loop gives the parts between first occurrences of the delimiter |
| Splitting.StringJoin | ios/llama/common/common.cpp:492-501 | The loop joins with separators between parts only |
| Splitting.StringReplaceAll | ios/llama/common/common.cpp:442-457 | Replacing is splitting at the search string and joining with the replacement; an empty search string changes nothing |
| Splitting.JoinTakesSplitBack | ios/llama/common/common.cpp:492-517 | Joining with the delimiter takes splitting back |
| Splitting.ReplacingByItselfIsNeutral | ios/llama/common/common.cpp:442-457 | Replacing a string by itself changes nothing |
| Splitting.PartsHoldNoDelimiter | ios/llama/common/common.cpp:503-517 | No part contains the delimiter |
| Splitting.SplitTakesJoinBack | ios/llama/common/common.cpp:492-517 | Splitting takes joining back, for parts in which the delimiter does not begin earlier than where it is written |
| Escapes.StringProcessEscapes | ios/llama/common/common.cpp:608-643 | Overwriting the buffer while reading it gives the unescaped original text |
| Escapes.UnescapingShrinks | ios/llama/common/common.cpp:608-643 | The text never grows, and keeps its length only if it is unchanged |
| Escapes.ProtectedTextSurvives | ios/llama/common/common.cpp:608-643 | A text with doubled backslashes is unescaped to itself |
| Escapes.PiecesAreRead | ios/llama/common/common.cpp:608-643 | A text written in escapes and plain characters is unescaped to what they stand for: the control characters, the quotation marks, the backslash, the byte of two hexadecimal digits; any other escape stays as it is |
| Escapes.OtherwiseKept | ios/llama/common/common.cpp:622-637 | A backslash at the end stays, and so does one in front of an x without a number of two characters |
| Lcs.CommonLcs | ios/llama/common/common.cpp:1484-1531 | The two-row program returns the length of a common run, and no common run is longer |
| Lcs.EndingIsLongest | ios/llama/common/common.cpp:1502-1526 | A row entry is the length of the longest common run that ends at its two positions |
| GgmlLoader.WrittenFileIsLoaded | ios/llama/convert_llama_ggml_to_gguf.py:145-200 | Every well-formed file is read back whole, each tensor with its name, shape, type and bytes, and ends at its last byte; it is refused exactly if the feed-forward tensor is missing or has fewer than two dimensions |
| GgmlLoader.EndlessFileExample | ios/llama/convert_llama_ggml_to_gguf.py:145-200 | A whole file, with any head of an unpadded format, that is read for ever |
| GgmlRecords.RecordsAreLoaded | ios/llama/convert_llama_ggml_to_gguf.py:110-131 | A sequence of well-formed records that ends the data is recovered, each with its name, shape, type and length |
| GgmlRecords.AdvancesExactly | ios/llama/convert_llama_ggml_to_gguf.py:110-131 | A record moves the loop on by at least its twelve-byte header, if and only if its size does not take back what stands between header and data, and stays within 63 bits behind it |
| GgmlRecords.EndlessExactly | ios/llama/convert_llama_ggml_to_gguf.py:188-194 | The loop is named endless, if and only if it goes on after any number of records |
| GgmlRecords.EndlessNeedsAStandstill | ios/llama/convert_llama_ggml_to_gguf.py:188-194 | A loop without end meets a record that does not move it on by twelve bytes |
| GgmlRecords.LoadedTensorsAreTiledExactly | ios/llama/convert_llama_ggml_to_gguf.py:110-131 | In a file that loads, ranges are increasing, disjoint, aligned when padded, and leave nothing unread, if and only if no size is negative or beyond 63 bits |
| GgmlRecords.StandstillExample | ios/llama/convert_llama_ggml_to_gguf.py:126-130 | A record of 64 negative bytes with a name of 40, at which the loop stands still for ever wherever it stands |
| GgmlRecords.BackwardsExample | ios/llama/convert_llama_ggml_to_gguf.py:126-130 | One without a name, behind which the loop goes on in front of the data and fails |
| GgmlRecords.ByteCountIsNaturalExactly | ios/llama/convert_llama_ggml_to_gguf.py:126-130 | The byte count is not negative, if and only if the number of bytes modulo 2^64 is below 2^63; it is exact when that number fits 63 bits |
| GgmlLoader.ItemsAreLoaded | ios/llama/convert_llama_ggml_to_gguf.py:84-98 | Well-formed vocabulary items are recovered, with or without scores |
| GgmlLoader.NameMapFindsTheLast | ios/llama/convert_llama_ggml_to_gguf.py:190-194 | A name maps to the last tensor that carries it |
| GgmlLoader.Tensor.Load | ios/llama/convert_llama_ggml_to_gguf.py:110-131 | The fields and the bytes taken are those of the record at the offset |
| GgmlLoader.LoadTensorRecords | ios/llama/convert_llama_ggml_to_gguf.py:188-194 | The loop collects the records up to the end of the data, fails or goes on for ever, as the function says, whatever the sizes wrap to |
| GgmlLoader.GgmlModel.Load | ios/llama/convert_llama_ggml_to_gguf.py:180-200 | The model object holds what the file says, or the load fails, or it does not end |
| GgmlLaws.RecordIsReadExactly | ios/llama/convert_llama_ggml_to_gguf.py:110-131 | A record is loaded exactly if its header and dimensions are there and within the limits; its fields are the little-endian numbers at their places, its name the bytes behind them, and its data start behind that, or at the next multiple of 32 |
| GgmlLaws.SliceFromTheEnd | ios/llama/convert_llama_ggml_to_gguf.py:110-131 | Bounds in front of the data, at which a loop that went backwards may stand, count from its end |
| GgmlLaws.HeaderIsReadExactly | ios/llama/convert_llama_ggml_to_gguf.py:145-166 | The format, version and header size are those of the magic text and the number behind it, for the versions that there are |
| GgmlLaws.ConvertibleExactly | ios/llama/convert_llama_ggml_to_gguf.py:168-179 | The types of file that are converted, by format and version |
| GgmlLaws.ItemIsReadExactly | ios/llama/convert_llama_ggml_to_gguf.py:84-98 | A vocabulary item is loaded exactly if its length is there and below 4096, and its score, if it has one |
| GgmlLaws.FeedForwardIsFound | ios/llama/convert_llama_ggml_to_gguf.py:53-57 | The feed-forward size is the second dimension of the last tensor of that name |

## Left out

- ChatMsgParser.Parser.ParseMsgWithXmlToolCalls: tags must not be empty, and the end tag has three characters or more; all callers pass such tags. When it ends without a meaning, its calls are not specified.
- ChatMsgParser.Parser.ParseXmlToolCalls: outcomes in which an assertion of the program fails or an empty optional would be read are named but not given a meaning.
- XmlRoundTrip.PrintedCallsAreReadBack: the JSON library's own reading of a value is a parameter, here and in `XmlJsonForms.PrintedObjectsAreReadBack`, which is about JSON values only.
- XmlStreaming.CutValueIsSent: for forms with a separator behind the name of a call and without an end of their own for the last value and the last call, like the other laws about calls that the input cuts off.
- MessageRuns.MessageIsRead: for texts in which every tag is read where it is written, and start tags that do not begin with white space.
- LoraPrograms.ProgramsCommuteWithTheProduct: the condition on each step is exact for slices, tuple indices and reshapes, and for concatenation over all tensors of the same shapes; for whole compositions it is sufficient.
- LoraShapes.ReshapeCommutes: the expansion of a -1 is the same function on the factors and on the product.
- EmbeddingCache.MatchedRunIsCoherent: the notes only; knowledge chunks are indexed by a copy of the same code. The embedding functions are a parameter, the content hash is any injective function, and normalized titles, token counts, dates and saving are not modelled.
- GgmlLoader.LoadTensorRecords: data is shorter than 2^62 bytes, as in `GgmlLoader.WrittenFileIsLoaded`.
- TextChunkingService.SplitIntoSentences: the test for abbreviations is a parameter, and every such test is covered.
- Retrieval.ParallelScoreBatch: the scoring function is a parameter; the lock is modelled as the order in which workers append.
- Characters: one byte each in the C++ part, opaque values with two predicates in the chunker, whose lengths add up under concatenation.
- Floating point: tensor entries and scores are real numbers and boosts are counted in hundredths; rounding is not modelled. Conversions between element types are left out.
- `LoraTorchTensor`: ellipsis in an index and integer indices on the last two axes.
- The text form of grammars (rule names, escapes in character classes): `Gbnf` works on the expression tree.
- The JSON library, partial JSON healing and the regular expression engine, and the chat formats built on them.
- Exceptions thrown by the JSON library while arguments are dumped.
- Semantic scores, lexical scores and cosine similarity, confidence levels and citation snippets in retrieval.
- The rest of `common.cpp` (system information, batches, model loading) and the writing half of the GGML converter.
- Views, settings, downloads, file storage, optical character recognition and synchronization: calls into frameworks.
