# PySpell, tinyllm and the byte-level edges, verified

A Dafny model of three parts of the repository, and proofs of what they promise. `dafny verify dfyconfig.toml` checks
everything. Every file holds the module of its name.

**The PySpell core.** `Lexer` is the lexer, and `LexLaws` writes tokens and trees as text and reads them back. `Parse`
is the grammar as functions and `Parser` the recursive-descent parser as a class whose methods are proved against
them; `Printer` prints expression trees of either language back to tokens and `RustPrinter` whole Rust-mode programs,
`Slots` and `SlotRun` relate slot programs to named source, and `Chains` relates the desugaring of `a < b in c ...` to
single evaluation. `Ops` holds the operators and builtins both evaluators share; `IntLaws`, `NumberLaws` and
`BuiltinLaws` say what they compute without naming them, and `RunLaws` carries that to whole programs. `Sync` and
`Async` are the two evaluators: classes with the fields of `Frame` and the shared cells, each proved against functions
on values. `Agree`, `Limits`, `Bounds`, `Capabilities`, `Deadline` and `AsyncDeadline` are about those functions.
`Json` has the path-directed scanner as cursor loops; `JsonDoc` is the independent notion of a document, its layout
and first-match lookup, `JsonText` what a literal stands for, with its own table of escapes, and `Decimals` what a
number is; `JsonLookup`, `JsonPrint`, `JsonStream` and `JsonScan` connect them. `Fetch` has the chunk loop that strips
the header and stops early, over bytes that `Utf8` decodes.

**The tinyllm engine.** `QMath` and `Kernels` fill arrays in place; `QuantLaws` and `MatLaws` bound their error.
`Reference` says what decoding means without a cache: every layer recomputed at every position. `Cache`, `MultiHead`,
`Steps` and `Decoder` are the cached engine over real buffers, flat cache indices included, proved equal to the
reference. `Textbook` is a transformer written down apart from all of these, the way the literature does, and
`TextbookLaws` proves that the reference computes its scores; `KernelLaws` and `AttentionLaws` say what the kernels
and a layer do. `Sampling`, `Nucleus` and `Xorshift` are sampling, with `Temperature` and `XorshiftLaws`, `Tokens` and
`TokenLaws` the tokenizer, and `Generation` the generator that steps engine, sampler and tokenizer together. The
`Checkpoint*` files are the file format, its writer and what is read from it; `LoadedModel` goes from bytes to the
model the engine decodes, and `EngineBounds` says which accepted headers it can run.

**Bytes with inverses.** `Checksum`, `Packets` and `Echo` build and answer pings; `Tcp`, `Client`, `Proxy` and
`Tunnel` carry one request through the tunnel; `WireLaws` and `TunnelLaws` say what is on the wire, byte by byte.
`Delex`, `DelexLaws`, `DelexLists` and `DelexQuotes` replace literals by markers and back, and `DelexPatterns` says
what the patterns match.

How things are modelled:

- Text is a sequence of Unicode scalar values, as a Rust `str` is; sizes in bytes are those of its UTF-8 form. Network
  and file data are sequences of bytes. 64-bit integers wrap where the source uses wrapping operations; 32-bit sequence
  numbers are taken modulo 2^32.
- In the evaluators floats are opaque and the standard library's operations on them are function-valued parameters.
  In tinyllm floats are reals; `1/sqrt`, `exp`, `cos`, `sin`, the frequency and the sigmoid are function-valued.
- What the function-valued parameters are is a hypothesis of the laws that need it, named there: `NumberLaws.Exact`
  (float operations are those of the reals), `IsExp`, `IsRsqrt`, `IsCircular` and `IsSigmoid` of `KernelLaws`.
- The host (environment, network, display, actuator, clock) is deterministic functions plus a trace of effects; the
  clock is a function of the steps left. A panic of the source (an integer overflow that is checked, a slot out of
  range, a slice of an empty list) is an explicit outcome.
- Loops of the source are loops here, objects are classes, and buffers are arrays. Each such method is proved against a
  function, and the laws are about those functions.
- The engine needs more than the parser checks: the group size divides `dim` and `hidden_dim`, the number of key heads
  divides the number of heads, and `dim` and the key width are even (`Reference.ValidConfig`). The decoding theorems ask
  for it, and it is exactly what keeps products and rotation inside their buffers and every key head in the row of its
  position.

Where the code does not do what its documentation says or a caller might expect, the model follows the code and the
exact condition is proved:

- The lexer slices two bytes at an operator, and panics when the second one is inside a character outside ASCII
  (`LexLaws.PanicsExactly`). Inside strings such characters are harmless.
- A membership test as the first link of a comparison chain evaluates its right operand first, which shows when both
  operands fail (`Chains.ChainMeaning`).
- An early hit on a number that reaches the last byte received is not final (`JsonStream.HitStableExactly`). When a
  chunk ends inside an integer, early abort answers with the part it has seen, without an error
  (`Fetch.DigitIsMissed`); `Fetch.EarlyAbortWholeExactly` says for which chunkings it is right.
- A character written as an escaped surrogate pair is read as two U+FFFD (`JsonText.ReadsExactly`).
- Nucleus sampling panics when every probability is below the cutoff, which some distribution reaches if and only if
  `topp < 1/n` (`Nucleus.KeepsSomethingExactly`); with a single token it always does.
- The TCP client takes a FIN out of order and then holds a truncated response (`Client.FinCompletesExactly`), and takes
  data before the SYN-ACK if it is numbered zero (`Client.EarlyDataTakenExactly`).
- The checkpoint parser accepts headers with which the engine reads outside a buffer, or outside the row of a position
  (`EngineBounds.EngineNeedsExactly`).
- Relexicalising eats white space at the end of a literal right before an unfilled slot, and at the front of the first
  literal behind unfilled ones (`DelexLists.UnfilledSlotsAreDropped`).
- An unfilled string marker, which always stands in quotes, is not dropped with its comma as the documentation says: it
  becomes an empty string (`DelexQuotes.QuotedSlotsStay`).
- Early abort and the default extraction can part when the body is not valid UTF-8: the default method also looks at
  what is put in the place of the bad bytes, which may go on with a number or close a string
  (`Fetch.EarlyAbortExactly`, `JsonStream.BrokenNumberFails`, `JsonScan.OpenStringIsFound`).
- An empty request is sent by the client and never answered by the proxy (`Tunnel.Fetch`).

## Model

| member | source | states |
|---|---|---|
| Agree.EvaluatorsAgree | crates/pyspell-core/src/eval_async.rs:66-212 | for every program, host without an actuator and budget: unless the sync run ends in MemoryLimit, both evaluators give the same value or error, the same remaining budget, the same deadline checks and the same ordered trace of fetches and shows |
| Agree.EvalAgrees | crates/pyspell-core/src/eval_async.rs:109-173 | the same for one expression, from any counters |
| Agree.EvalContinues | crates/pyspell-core/src/eval_async.rs:90-107 | the async trace only grows, by granted events, and the budget only shrinks, which is what lets the two runs part at a MemoryLimit |
| Limits.LimitsAreExact | crates/pyspell-core/src/eval.rs:181-285 | without a deadline a run gives its limit-free meaning exactly when the limits cover the steps (one a node visited) and bytes (sizes of Bin, Call and List results) that meaning costs, and then spends exactly those; otherwise it ends in Budget or MemoryLimit |
| Limits.LimitsNeverChangeAnswers | crates/pyspell-core/src/eval.rs:100-120 | raising both limits of a run that did not hit them gives the identical result, trace, steps and bytes |
| Bounds.ResultsFit | crates/pyspell-core/src/eval.rs:100-120 | everything nested in a result was given (a program constant or host value) or has a footprint of at most the memory limit |
| Deadline.StopsInTime | crates/pyspell-core/src/eval.rs:208-224 | once the deadline predicate is true for good, the run takes at most 256 more steps |
| AsyncDeadline.StopsInTimeAsync | crates/pyspell-core/src/eval_async.rs:90-107 | the same for the async run, which has its own tick |
| Sync.RunProgramWith | crates/pyspell-core/src/eval.rs:181-198 | the run over a fresh frame computes `RunWith`, the value semantics the laws are about |
| Sync.Frame.constructor | crates/pyspell-core/src/eval.rs:181-192 | locals start at zero, the counters at their limits |
| Sync.Frame.Step | crates/pyspell-core/src/eval.rs:208-224 | one step: budget, then the deadline every 256 steps; the counters after it |
| Sync.Frame.ChargeValue | crates/pyspell-core/src/eval.rs:100-120 | the memory charge of a built value, and the error when it is not covered |
| Sync.Frame.Evaluate | crates/pyspell-core/src/eval.rs:208-224 | one evaluation: its result, and the counters and trace it leaves; locals are not touched |
| Sync.Frame.EvaluateNode | crates/pyspell-core/src/eval.rs:225-285 | every node kind, with the order of operands, short circuits and charges |
| Sync.Frame.EvaluateBoth | crates/pyspell-core/src/eval.rs:229-238 | left operand first; the right one is not evaluated when the left fails |
| Sync.Frame.EvaluateAll | crates/pyspell-core/src/eval.rs:275-279 | arguments left to right, stopping at the first failure |
| Capabilities.CallKeeps | crates/pyspell-core/src/eval.rs:420-451 | a builtin call leaves every counter alone and adds at most one event to the trace, of a capability the host installed |
| Capabilities.EffectAdds | crates/pyspell-core/src/eval.rs:474-490 | the builtins other than fetch, fetch_json, show, led and flash leave no trace at all |
| Capabilities.OnlyGranted | crates/pyspell-core/src/eval.rs:1-6 | the sandbox: for every program, host and limits, each event of the trace belongs to a capability the host installed; with none installed the trace is empty |
| Sync.Frame.RunProgram | crates/pyspell-core/src/eval.rs:181-198 | the lets in order into their slots, then the result |
| Async.RunProgramAsync | crates/pyspell-core/src/eval_async.rs:66-88 | the async run computes `RunAsync` |
| Async.AsyncCtx.constructor | crates/pyspell-core/src/eval_async.rs:66-76 | the shared cells at the start |
| Async.AsyncCtx.Step | crates/pyspell-core/src/eval_async.rs:90-107 | `tick` on the shared cells |
| Async.AsyncCtx.Evaluate | crates/pyspell-core/src/eval_async.rs:109-173 | one async evaluation: its result and what it leaves in the cells |
| Async.AsyncCtx.EvaluateNode | crates/pyspell-core/src/eval_async.rs:109-173 | every node kind of the async evaluator |
| Agree.CallKeepsCells | crates/pyspell-core/src/eval_async.rs:175-212 | an awaited call leaves the shared counters alone and adds at most one granted event |
| Agree.OnlyGrantedAsync | crates/pyspell-core/src/eval_async.rs:66-88 | the sandbox of the async run: only granted events, and never an LED |
| Async.AsyncCtx.RunProgram | crates/pyspell-core/src/eval_async.rs:66-88 | lets, then the result |
| Json.Get | crates/pyspell-core/src/json.rs:15-26 | the cursor loops of `get` compute `GetAt`, for every text and path |
| Json.SkipValue | crates/pyspell-core/src/json.rs:105-141 | the skipping loop computes `SkipValueAt`, at any nesting depth, errors included |
| Json.SkipString | crates/pyspell-core/src/json.rs:145-155 | the raw string loop computes `SkipStringAt` |
| Json.ParseString | crates/pyspell-core/src/json.rs:159-200 | the unescaping loop computes `UnquoteAt`, errors included |
| Json.Hex4 | crates/pyspell-core/src/json.rs:202-217 | four hex digits; too few bytes left is one error, a byte that is no hex digit another |
| Json.EnterObject | crates/pyspell-core/src/json.rs:44-73 | the member loop computes `EnterObjectAt`: first match |
| Json.EnterArray | crates/pyspell-core/src/json.rs:76-102 | the element loop computes `EnterArrayAt` |
| Json.ParseScalar | crates/pyspell-core/src/json.rs:220-251 | strings, numbers, true and false, and the errors for null and containers |
| Json.SkipWs | crates/pyspell-core/src/json.rs:253-258 | white space |
| JsonLookup.GetIsLookup | crates/pyspell-core/src/json.rs:15-258 | for every rendered document, any white space and any path: `get` is first-match lookup on the tree, with an error when the path is absent or ends on null or a container |
| JsonLookup.SkipDoc | crates/pyspell-core/src/json.rs:105-141 | `skip_value` passes exactly one rendered value at any nesting depth |
| JsonLookup.UnquoteSkip | crates/pyspell-core/src/json.rs:145-200 | `parse_string` and `skip_string_raw` end at the same place |
| JsonLookup.DescendLookup | crates/pyspell-core/src/json.rs:15-26 | descending a path reaches where the looked-up value stands, or fails as lookup does |
| JsonLookup.EnterChild | crates/pyspell-core/src/json.rs:33-102 | entering one component reaches that child |
| JsonPrint.Jstr | crates/pyspell-wasm/src/lib.rs:69-85 | the printing loop computes `Quoted` |
| JsonPrint.QuotedReadsBack | crates/pyspell-wasm/src/lib.rs:69-85 | for every string: what `jstr` prints is a literal that reads back as the string |
| JsonStream.HitIsStable | crates/pyspell-core/src/json.rs:15-258 | a hit that does not end in a cut number is the answer for every extension of the text |
| JsonStream.CutNumberIsUnstable | crates/pyspell-core/src/json.rs:220-251 | a hit on a number that reaches the last byte becomes an error when a letter follows |
| JsonStream.HitStableExactly | crates/pyspell-core/src/json.rs:15-258 | a hit is stable under every extension if and only if it is not a number that reaches the last byte |
| JsonStream.HitKeptExactly | crates/pyspell-core/src/json.rs:15-258 | for one given longer text: a hit is its answer if and only if that text does not go on with the number of the hit, or the longer number has the same value |
| JsonStream.DigitChangesNumber | crates/pyspell-core/src/json.rs:220-251 | when a digit follows an integer hit, the longer text reads as the integer with that digit, or does not fit; never the same value, unless a zero follows a zero |
| JsonScan.ScanDecided | crates/pyspell-core/src/json.rs:15-258 | a scan that answers or fails before it looks past the end of the text answers or fails the same way for every longer text |
| JsonScan.ScanDecidedExactly | crates/pyspell-core/src/json.rs:15-258 | numbers that reach the end apart, the answer of a scan is settled for every longer text if and only if the scan did not look past the end |
| JsonScan.OpenStringIsFound | crates/pyspell-core/src/json.rs:159-200 | a miss inside an unfinished string becomes a hit once a replaced byte and a quote follow |
| JsonText.LiteralScans | crates/pyspell-core/src/json.rs:159-200 | every literal of plain characters, one-letter escapes and hex escapes is read piece by piece, half a character as U+FFFD |
| JsonText.LiteralIsPieces | crates/pyspell-core/src/json.rs:159-200 | and no other literal is read |
| JsonText.ReadsExactly | crates/pyspell-core/src/json.rs:173-186 | a literal is read as the text it stands for if and only if it writes no character as an escaped surrogate pair |
| Fetch.Find | esp32-mpe-fetch/src/fetch_async.rs:370-375 | the first blank line, or that there is none |
| Fetch.HttpGet | esp32-mpe-fetch/src/fetch_async.rs:287-318 | the chunk loop over bytes: the first hit among the bodies handed over, or the last body when there is none |
| Fetch.Receive | esp32-mpe-fetch/src/fetch_async.rs:299-314 | one chunk: the header is stripped wherever chunks cut it |
| Fetch.FetchBody | esp32-mpe-fetch/src/fetch_async.rs:326-336 | the last body handed over |
| Fetch.FetchExtract | esp32-mpe-fetch/src/fetch_async.rs:338-356 | the first hit, or FieldNotFound |
| Fetch.EarlyAbortWholeExactly | esp32-mpe-fetch/src/fetch_async.rs:338-356 | for any bytes and any chunking, characters cut included: early abort gives what probing the last body once gives if and only if there is no hit, or the last body does not go on with the number of the first hit, or the longer number has the same value |
| Fetch.EarlyAbortIsWhole | esp32-mpe-fetch/src/fetch_async.rs:338-356 | so it does for every chunking that leaves the number whole, one that ends right behind it included |
| Fetch.DigitIsMissed | esp32-mpe-fetch/src/fetch_async.rs:287-356 | whenever a chunk ends inside an integer and a digit follows, early abort answers with the integer seen so far, which is another one than the whole body has, and reports no error |
| Fetch.EarlyAbortIsDefault | esp32-mpe-fetch/src/fetch_async.rs:338-356 | early abort equals the default extraction when the body is valid UTF-8 and no chunk cuts the number |
| Fetch.EarlyAbortExactly | esp32-mpe-fetch/src/fetch_async.rs:338-356 | for any body: a hit is the default's if and only if the text the default sees does not go on with its number, or to no effect; a miss is, unless the scan ran off the end of the valid part and what was put behind it makes a hit |
| JsonStream.BrokenNumberFails | crates/pyspell-core/src/json.rs:220-251 | a number cut by a bad byte is an error once the byte is replaced |
| Fetch.HitStaysExactly | crates/pyspell-core/src/eval.rs:464-472 | a hit of the probe stays for given more bytes if and only if they do not go on with its number, or to no effect |
| Fetch.WholeBodySeen | esp32-mpe-fetch/src/fetch_async.rs:287-318 | a body within the cap is handed over whole, however it is chunked |
| Fetch.StreamedIsWhole | esp32-mpe-fetch/src/fetch_async.rs:338-356 | for every chunking of a body within the cap: streaming extraction equals whole-body extraction if and only if the body does not go on with the number of the first hit, or to no effect |
| Utf8.EncodedIsValid | crates/pyspell-core/src/eval.rs:464-472 | all of the UTF-8 form of a text is a valid prefix, and it decodes to the text |
| Utf8.PrefixGrows | crates/pyspell-core/src/eval.rs:464-472 | more bytes only add to the text of the valid prefix |
| Parser.ParseTokens | crates/pyspell-core/src/parse.rs:280-302 | the token parser computes the grammar function `ParseProgram` |
| Parser.TokenParser.constructor | crates/pyspell-core/src/parse.rs:225-236 | the parser at the first token |
| Parser.TokenParser.ParseAll | crates/pyspell-core/src/parse.rs:280-302 | lets (Rust mode), the result expression, and nothing left over |
| Parser.TokenParser.Bind | crates/pyspell-core/src/parse.rs:263-268 | `declare`: the next slot for a name |
| Parser.TokenParser.ResolveName | crates/pyspell-core/src/parse.rs:269-277 | the innermost binding, else a host variable |
| Parser.TokenParser.ParseConditional | crates/pyspell-core/src/parse.rs:305-315 | the conditional level against `Conditional` |
| Parser.TokenParser.ParseOr | crates/pyspell-core/src/parse.rs:317-325 | the `or` level |
| Parser.TokenParser.ParseAnd | crates/pyspell-core/src/parse.rs:327-335 | the `and` level |
| Parser.TokenParser.ParseNot | crates/pyspell-core/src/parse.rs:337-343 | the `not` level |
| Parser.TokenParser.ParseCmp | crates/pyspell-core/src/parse.rs:346-397 | comparison chains and membership |
| Parser.TokenParser.FoldChain | crates/pyspell-core/src/parse.rs:377-396 | the And-nest over cloned operands |
| Parser.TokenParser.ParseAdd | crates/pyspell-core/src/parse.rs:399-412 | sums |
| Parser.TokenParser.ParseMul | crates/pyspell-core/src/parse.rs:414-428 | products |
| Parser.TokenParser.ParseUnary | crates/pyspell-core/src/parse.rs:430-436 | negation |
| Parser.TokenParser.ParsePostfix | crates/pyspell-core/src/parse.rs:438-466 | indexing and the two methods |
| Parser.TokenParser.ParsePrimary | crates/pyspell-core/src/parse.rs:468-518 | atoms, parentheses, lists, calls and names |
| Parser.TokenParser.ParseFunctionCall | crates/pyspell-core/src/parse.rs:496-514 | calls of known functions |
| Parser.TokenParser.ParseRustIf | crates/pyspell-core/src/parse.rs:521-537 | the Rust `if` |
| Parse.Conditional | crates/pyspell-core/src/parse.rs:305-315 | on success at least one token is consumed and the tree is one the grammar can yield; termination by tokens and level |
| Parse.CmpExpr | crates/pyspell-core/src/parse.rs:346-397 | the same for comparison chains |
| Parse.Primary | crates/pyspell-core/src/parse.rs:468-518 | the same for atoms |
| Printer.NamesReadBack | crates/pyspell-core/src/parse.rs:546-576 | the name of every builtin but `contains`, which is written as a method, reads back |
| Printer.PrintThenParse | crates/pyspell-core/src/parse.rs:280-538 | every tree in the image of the Python-mode parser, printed with parentheses only where precedence asks for them, parses back to itself with no token left |
| Printer.ParsedIsPrintable | crates/pyspell-core/src/parse.rs:280-538 | every parse result is such a tree |
| Printer.ReparseIsStable | crates/pyspell-core/src/parse.rs:280-538 | parse, print, parse changes nothing |
| Printer.ReadsBack | crates/pyspell-core/src/parse.rs:305-518 | the same at every level, before any token that cannot continue the expression |
| SlotRun.ParseIsCompile | crates/pyspell-core/src/parse.rs:263-302 | for every token list the parser gives the compiled form of the named source, or the same error |
| SlotRun.SlotsMeanNames | crates/pyspell-core/src/parse.rs:263-302 | with fewer than 65536 lets: running the slot program equals running the source under names, innermost binding first and then the host, step for step |
| SlotRun.SlotsAssignedInOrder | crates/pyspell-core/src/parse.rs:263-302 | slot k is binding k, and every read is of a slot assigned before |
| Slots.ConditionalCommutes | crates/pyspell-core/src/parse.rs:305-315 | resolving names while parsing is parsing and then resolving |
| Chains.ChainMeaning | crates/pyspell-core/src/parse.rs:346-397 | for effect-free operands and any number of links: the desugared chain equals the single-evaluation left-to-right chain if and only if the first link is not a membership test whose two operands fail differently |
| Chains.MembershipReportsRightFirst | crates/pyspell-core/src/parse.rs:383-389 | the failing family is real: a concrete chain that reports the right operand's error first |
| Lexer.Lex | crates/pyspell-core/src/parse.rs:104-223 | the index loop computes `LexOf`: the tokens, the first error, or the panic |
| Lexer.NextTok | crates/pyspell-core/src/parse.rs:108-220 | one token: numbers, words, strings, operators |
| Lexer.ScanNumber | crates/pyspell-core/src/parse.rs:109-131 | the digit run and the second point that makes it malformed |
| Lexer.ScanQuote | crates/pyspell-core/src/parse.rs:153-170 | the matching unescaped quote |
| LexLaws.SourceLexes | crates/pyspell-core/src/parse.rs:104-223 | lexing written tokens gives them back, for every token a text can hold |
| LexLaws.TokenReads | crates/pyspell-core/src/parse.rs:104-223 | one written token reads back, whatever follows its space |
| LexLaws.EscapedReads | crates/pyspell-core/src/parse.rs:82-102 | `unescape` undoes escaping, for every string |
| LexLaws.LexedAreLexable | crates/pyspell-core/src/parse.rs:104-223 | whatever the lexer yields is such a token |
| LexLaws.FormattingIsStable | crates/pyspell-core/src/parse.rs:104-223 | lexing, writing the tokens down and lexing again changes nothing |
| LexLaws.SourceRoundTrip | crates/pyspell-core/src/parse.rs:31-36 | at the text level: source written from a tree lexes and parses back to the tree |
| LexLaws.PanicsExactly | crates/pyspell-core/src/parse.rs:104-223 | the lexer panics if and only if, past white space and tokens read without an error, it comes to a character that is no blank, digit, letter or quote and slices two bytes that end inside a character |
| LexLaws.AsciiNeverPanics | crates/pyspell-core/src/parse.rs:171-186 | so ASCII source never makes the lexer panic |
| LexLaws.QuotedTextIsSafe | crates/pyspell-core/src/parse.rs:153-170 | a string literal, whatever is in it, panics only if what follows it does |
| LexLaws.OperatorBeforeWideCharPanics | crates/pyspell-core/src/parse.rs:171-186 | every ASCII operator character right before any character outside ASCII panics wherever the lexer reaches it |
| QMath.Quantize | crates/tinyllm/src/math.rs:51-74 | the loop fills its slices with the Q8_0 form and touches nothing else |
| QMath.GroupMax | crates/tinyllm/src/math.rs:56-63 | the largest magnitude of a group |
| QMath.QuantizeGroup | crates/tinyllm/src/math.rs:54-73 | one group |
| QMath.Matmul | crates/tinyllm/src/math.rs:80-95 | the loops compute the quantised product |
| QMath.MatmulRow | crates/tinyllm/src/math.rs:80-95 | one output |
| QMath.GroupDot | crates/tinyllm/src/math.rs:86-89 | the integer accumulator |
| QuantLaws.QuantisationError | crates/tinyllm/src/math.rs:51-74 | every q lies in [-127, 127] and every element is within half a step |
| QuantLaws.RequantiseIsExact | crates/tinyllm/src/math.rs:51-74 | re-quantising a dequantised vector returns the same q and scales |
| MatLaws.MatmulIsDequantisedDot | crates/tinyllm/src/math.rs:80-95 | each output equals the dequantised dot product |
| MatLaws.MatmulError | crates/tinyllm/src/math.rs:80-95 | each output is within the sum over j of abs(w) sx/2 + abs(x) sw/2 + sw sx/4 of the exact product |
| MatLaws.AccumulatorBound | crates/tinyllm/src/math.rs:86-89 | group accumulators stay within gs * 127 * 127 |
| Kernels.NormaliseInto | crates/tinyllm/src/math.rs:8-19 | RMS normalisation into a buffer |
| Kernels.SoftmaxInPlace | crates/tinyllm/src/math.rs:27-47 | softmax of one slice; the rest of the buffer is unchanged |
| Kernels.RotateBoth | crates/tinyllm/src/model.rs:188-211 | rotary embedding of all of q and all of k in one loop |
| Kernels.GateInto | crates/tinyllm/src/model.rs:282-284 | the gated product of the feed-forward part |
| Reference.Shapes | crates/tinyllm/src/format.rs:51-58 | the sizes as products, from the divisibility the loops assume |
| Reference.StreamIsCausal | crates/tinyllm/src/model.rs:170-305 | recomputed streams depend on no later token |
| Reference.LogitsAreCausal | crates/tinyllm/src/model.rs:170-305 | nor do the logits |
| Cache.RowCache.constructor | crates/tinyllm/src/model.rs:83-115 | the buffers of one form are allocated |
| Cache.RowCache.Put | crates/tinyllm/src/model.rs:213-225 | storing a key or value vector changes exactly its own row |
| Cache.RowCache.Get | crates/tinyllm/src/model.rs:233-247 | the flat index of an element, exact or dequantised |
| MultiHead.ScoreHead | crates/tinyllm/src/model.rs:229-248 | scaled scores of one head into its slice |
| MultiHead.MixHead | crates/tinyllm/src/model.rs:250-267 | the weighted sum of the value rows |
| MultiHead.AttendAll | crates/tinyllm/src/model.rs:227-268 | all heads: the attention of the reference, whatever the scratch held |
| Steps.EmbedInto | crates/tinyllm/src/format.rs:321-330 | one dequantised embedding row |
| Steps.ProjectInto | crates/tinyllm/src/model.rs:182-211 | query, key and value of a position |
| Steps.ProjectOut | crates/tinyllm/src/model.rs:270-275 | output projection and residual |
| Steps.FeedInto | crates/tinyllm/src/model.rs:277-289 | the feed-forward half |
| Steps.ClassifyInto | crates/tinyllm/src/model.rs:292-304 | final norm and classifier |
| Decoder.RunState.constructor | crates/tinyllm/src/model.rs:83-115 | every buffer of its size, all of them distinct |
| Decoder.RunState.Layer | crates/tinyllm/src/model.rs:181-290 | one layer: the next stream, and one more position in that layer of the cache |
| Decoder.RunState.Forward | crates/tinyllm/src/model.rs:170-305 | one step: the logits of the cache-free reference, for the f32 and the int8 cache, whatever the scratch and later rows held; row (l, t) holds position t; no other position's row changes |
| Decoder.Decode | crates/tinyllm/src/model.rs:170-305 | a whole run from any state ends with the logits of the reference |
| Generation.Generator.constructor | crates/tinyllm-wasm/src/lib.rs:46-83 | the prompt encoded, the caches empty, the first token of the prompt at position 0 |
| Generation.Generator.Step | crates/tinyllm-wasm/src/lib.rs:90-128 | one step: the token after the current one is the prompt's, or one the sampler may choose from the logits that recomputation without a cache gives; an end-of-text token stops the generator; the piece put out, or the panic |
| Generation.Generator.Choose | crates/tinyllm-wasm/src/lib.rs:105-118 | the prompt, then the seeded sampler on a copy of the logits |
| Generation.Generate | crates/tinyllm-wasm/src/lib.rs:90-128 | stepping to the end: a complete run, stopped by an end-of-text token or the step limit, and its text; or a run that can only panic |
| Generation.SeedFixesText | crates/tinyllm/src/sampler.rs:135-150 | the same model, prompt, settings and seed give the same tokens, seeds and text, provided no two tokens are equally probable where a nucleus is drawn from |
| Generation.ChoiceIsUnique | crates/tinyllm/src/sampler.rs:45-95 | the choice is determined by logits and seed, up to the order of equally probable tokens |
| Generation.PanicsExactly | crates/tinyllm/src/sampler.rs:61-95 | sampling panics if and only if it draws from a nucleus and no token passes the filter |
| Generation.EnoughNeverPanics | crates/tinyllm/src/sampler.rs:61-95 | with at least two tokens and topp at least 1/n no step of a run panics |
| Generation.ChoiceInVocab | crates/tinyllm/src/sampler.rs:45-121 | every token chosen is in the vocabulary |
| Generation.EncodedIsKnown | crates/tinyllm-wasm/src/lib.rs:62-65 | an encoded prompt is never empty and all its tokens are in the vocabulary |
| Decoder.StoreLayer | crates/tinyllm/src/model.rs:213-225 | storing a position completes its layer and leaves the other layers alone |
| Decoder.CachedForPrefix | crates/tinyllm/src/model.rs:213-225 | a cache serves every run that begins the same way |
| Sampling.Sampler.Sample | crates/tinyllm/src/sampler.rs:45-59 | greedy, full or nucleus choice, with the logits and generator state it leaves |
| Sampling.Sampler.SampleTopp | crates/tinyllm/src/sampler.rs:61-95 | the filtered list sorted, its shortest prefix above topp, and the position the coin lands on; a panic exactly when the filter leaves nothing |
| Sampling.Sampler.Draw | crates/tinyllm/src/sampler.rs:30-41 | the next generator state, never zero, and a coin in [0, 1) |
| Sampling.ArgMax | crates/tinyllm/src/sampler.rs:99-109 | the first of the largest |
| Sampling.SampleMult | crates/tinyllm/src/sampler.rs:112-121 | the least index whose cumulative probability passes the coin |
| Sampling.AllInterval | crates/tinyllm/src/sampler.rs:112-121 | for a distribution the coin falls in that index's interval |
| Sampling.NucleusOfAll | crates/tinyllm/src/sampler.rs:61-95 | for 1/n <= topp < 1, n >= 2: no panic, and the token is the one whose interval of the cumulative distribution, in a nucleus of all tokens, holds the coin times its mass |
| Sampling.NucleusIsUnique | crates/tinyllm/src/sampler.rs:75-84 | whichever way ties are sorted, the nucleus has one length and mass |
| Sampling.SoftmaxIsDistribution | crates/tinyllm/src/math.rs:27-47 | softmax gives a distribution |
| Nucleus.PrefilterLosesNothing | crates/tinyllm/src/sampler.rs:64-84 | the nucleus with and without the pre-filter is the same: length, probabilities and mass, for any two descending sorts |
| Nucleus.KeptMass | crates/tinyllm/src/sampler.rs:64-71 | the kept tokens weigh more than topp |
| Nucleus.KeepsSomethingExactly | crates/tinyllm/src/sampler.rs:64-71 | the filter leaves something of every distribution over n tokens if and only if topp >= 1/n |
| Nucleus.NothingKept | crates/tinyllm/src/sampler.rs:64-71 | the filter leaves nothing of a list if and only if every probability is below the cutoff |
| Xorshift.NextStateNonzero | crates/tinyllm/src/sampler.rs:30-36 | the generator never reaches the zero state |
| Xorshift.CoinInRange | crates/tinyllm/src/sampler.rs:39-41 | the coin lies in [0, 1) |
| Tokens.EncodeText | crates/tinyllm/src/tokenizer.rs:77-131 | the loops compute `Encoded` |
| Tokens.MergeLoop | crates/tinyllm/src/tokenizer.rs:103-126 | the merge loop computes `Merged` and terminates |
| Tokens.BestPair | crates/tinyllm/src/tokenizer.rs:104-118 | the scan computes `Best` |
| Tokens.Best | crates/tinyllm/src/tokenizer.rs:104-118 | the first of the best-scoring mergeable pairs, or that there is none |
| Tokens.Find | crates/tinyllm/src/tokenizer.rs:71-73 | the piece, or that it is not in the vocabulary |
| TokenLaws.MergingKeepsBytes | crates/tinyllm/src/tokenizer.rs:103-126 | for any vocabulary: merging keeps the concatenated bytes, never lengthens the list, and stops with no adjacent pair in the vocabulary |
| TokenLaws.MergeSpells | crates/tinyllm/src/tokenizer.rs:119-125 | one merge shortens the list by one and keeps the bytes |
| TokenLaws.OnlyOrdinaryMerge | crates/tinyllm/src/tokenizer.rs:104-118 | marks and byte pieces never take part in a merge |
| TokenLaws.EncodingIsLossless | crates/tinyllm/src/tokenizer.rs:77-160 | with a byte-complete vocabulary, decoding `encode(text, true, false)` piece by piece gives back the UTF-8 bytes of every text |
| TokenLaws.DecodeVal | crates/tinyllm/src/tokenizer.rs:135-160 | a token decodes to its piece or its byte |
| Checkpoint.Parse | crates/tinyllm/src/format.rs:177-300 | the parser computes `ParsedOf`, every error case included |
| Checkpoint.Walk | crates/tinyllm/src/format.rs:246-281 | the offset walk computes the layout |
| CheckpointWriter.WriteV2 | crates/tinyllm/src/format.rs:370-424 | the writer appends exactly header, norms and groups in file order |
| CheckpointWriter.QuantizeToBytes | crates/tinyllm/src/math.rs:106-133 | all the values, then all the scales |
| CheckpointLaws.WriteThenParse | crates/tinyllm/src/format.rs:133-300 | for every accepted configuration and matching tensors: parsing what was written succeeds with the same configuration |
| CheckpointLaws.TensorReadsBack | crates/tinyllm/src/format.rs:133-150 | `tensor(l)` of each group is exactly the quantised bytes written for layer l |
| CheckpointLaws.ParsedTiles | crates/tinyllm/src/format.rs:246-282 | whenever a buffer parses, its regions tile it from byte 256 without gap or overlap |
| CheckpointLaws.WrittenSize | crates/tinyllm/src/format.rs:370-424 | and a written file ends where the last region ends |
| CheckpointLaws.PrefixExactly | crates/tinyllm/src/format.rs:280-282 | a prefix of a parsed buffer that keeps the header parses to the same view if and only if it keeps every tensor; otherwise it is Truncated |
| CheckpointLaws.StrictPrefixIsTruncated | crates/tinyllm/src/format.rs:280-282 | every strict prefix of a written file of at least 256 bytes is Truncated |
| CheckpointModel.MatrixReadsBack | crates/tinyllm/src/format.rs:112-150 | the signed values and scales the engine reads are those the writer quantised |
| CheckpointModel.NormsReadBack | crates/tinyllm/src/format.rs:304-316 | the norm weights read back |
| LoadedModel.ParsedInside | crates/tinyllm/src/format.rs:246-300 | every tensor and norm weight of a view that parses lies in the buffer |
| LoadedModel.ParsedModelIsValid | crates/tinyllm/src/format.rs:177-350 | every buffer that parses, with a configuration the engine can run, gives a model the decoding theorems apply to |
| LoadedModel.WrittenModelReadsBack | crates/tinyllm/src/format.rs:370-424 | written, parsed and read back, a model is the quantised weights it was written from, every layer, norm and embedding, when floats survive 32 bits |
| EngineBounds.QuantizeStaysInside | crates/tinyllm/src/math.rs:51-74 | the quantising loop rounds the number of groups down and never leaves its vector |
| EngineBounds.ProductExactly | crates/tinyllm/src/math.rs:80-95 | the product loop reads only inside its vector and matrix if and only if the group size divides the vector |
| EngineBounds.RotaryExactly | crates/tinyllm/src/model.rs:188-211 | the rotary pairs stay inside if and only if `dim` is even and so is the key width, unless it exceeds `dim` |
| EngineBounds.AttentionExactly | crates/tinyllm/src/model.rs:227-268 | every query head finds a key head in the row of its position if and only if the number of key heads divides the number of heads |
| EngineBounds.ProductsExactly | crates/tinyllm/src/format.rs:222-243 | for every accepted header: all products stay inside if and only if the group size divides `dim` and `hidden_dim` |
| EngineBounds.EngineNeedsExactly | crates/tinyllm/src/model.rs:170-305 | for every header the parser accepts: products and rotation of a step stay inside their buffers, and every key head in the row of its position, if and only if the configuration is valid |
| EngineBounds.AcceptedIsNotEnough | crates/tinyllm/src/format.rs:222-243 | the parser accepts headers that fail each of the three |
| Checksum.Sum16 | demo/esp32-tailscale-pyspell/core/src/outbound.rs:195-205 | the word loop computes the sum |
| Checksum.Finish | demo/esp32-tailscale-pyspell/core/src/outbound.rs:207-212 | the carry loop computes the complement of the folded sum |
| Checksum.SumsToZero | demo/esp32-tailscale-pyspell/core/src/icmp.rs:137-151 | a sum that includes its own checksum comes to zero, for every sum |
| Checksum.SealedVerifies | demo/esp32-tailscale-pyspell/core/src/icmp.rs:137-151 | a packet with its checksum in its field verifies, for every content |
| Checksum.SumFits | demo/esp32-tailscale-pyspell/core/src/outbound.rs:195-205 | no 32-bit accumulator overflows up to the 65535-byte limit |
| Packets.Ipv4Packet | demo/esp32-tailscale-pyspell/core/src/outbound.rs:165-179 | the header, patched field by field, around the payload |
| Packets.IcmpEchoRequest | demo/esp32-tailscale-pyspell/core/src/outbound.rs:24-33 | the ping packet |
| Packets.HeaderVerifies | demo/esp32-tailscale-pyspell/core/src/outbound.rs:165-179 | every IPv4 header checksum re-sums to zero |
| Packets.IcmpVerifies | demo/esp32-tailscale-pyspell/core/src/outbound.rs:24-33 | every ICMP checksum re-sums to zero |
| Echo.EchoReply | demo/esp32-tailscale-pyspell/core/src/icmp.rs:15-53 | a reply exactly for whole IPv4 echo requests, built by patching a copy |
| Echo.ReplyVerifies | demo/esp32-tailscale-pyspell/core/src/icmp.rs:15-53 | both checksums of every reply re-sum to zero |
| Echo.ReplyGoesBack | demo/esp32-tailscale-pyspell/core/src/icmp.rs:35-40 | the addresses are swapped |
| Echo.ReplyKeepsTheRest | demo/esp32-tailscale-pyspell/core/src/icmp.rs:32-50 | nothing but addresses, type and checksums differs from the request |
| Echo.RepliesAreNotAnswered | demo/esp32-tailscale-pyspell/core/src/icmp.rs:15-53 | a reply is never answered |
| Echo.PingRoundTrip | demo/esp32-tailscale-pyspell/core/src/outbound.rs:24-33 | `echo_reply(icmp_echo_request(a, b, id, seq, data))` is precisely the reply packet from b to a, for every payload within the limit |
| Echo.EchoReplyV6 | demo/esp32-tailscale-pyspell/core/src/icmp.rs:72-107 | a reply exactly for whole ICMPv6 echo requests |
| Echo.Icmpv6Checksum | demo/esp32-tailscale-pyspell/core/src/icmp.rs:111-134 | the checksum over pseudo-header and message |
| Echo.ReplyV6Verifies | demo/esp32-tailscale-pyspell/core/src/icmp.rs:72-134 | the reply's checksum over its own pseudo-header re-sums to zero, and its addresses are swapped |
| Echo.Pseudo6Fits | demo/esp32-tailscale-pyspell/core/src/icmp.rs:111-134 | no accumulator of the IPv6 checksum overflows |
| Echo.EchoReplyAny | demo/esp32-tailscale-pyspell/core/src/icmp.rs:61-67 | either version by the first nibble |
| Tcp.Segment | demo/esp32-tailscale-pyspell/core/src/outbound.rs:148-161 | a segment, field by field, with its checksum |
| Tcp.TcpVerifies | demo/esp32-tailscale-pyspell/core/src/outbound.rs:186-193 | the TCP checksum over the pseudo-header re-sums to zero |
| Tcp.TcpReads | demo/esp32-tailscale-pyspell/core/src/outbound.rs:148-161 | ports, sequence number, flags and payload of a built segment read back |
| Client.TcpClient.Open | demo/esp32-tailscale-pyspell/core/src/outbound.rs:80-84 | SYN, which takes one sequence number |
| Client.TcpClient.OnInner | demo/esp32-tailscale-pyspell/core/src/outbound.rs:100-146 | the new state and the packets sent back, for every packet |
| Client.TrueSegmentKeepsPrefix | demo/esp32-tailscale-pyspell/core/src/outbound.rs:100-146 | any true segment keeps the response a prefix of the stream and rcv_nxt at isn + 1 + the response length modulo 2^32 |
| Client.ResponseIsAlwaysPrefix | demo/esp32-tailscale-pyspell/core/src/outbound.rs:100-146 | so does every lossy, repeated or reordered delivery of them, until the FIN |
| Client.SynAckSyncs | demo/esp32-tailscale-pyspell/core/src/outbound.rs:119-128 | the SYN-ACK puts a waiting client in step |
| Client.FinCompletesExactly | demo/esp32-tailscale-pyspell/core/src/outbound.rs:139-144 | the response is complete when a FIN arrives if and only if nothing was missing then: an early FIN truncates |
| Client.EarlyDataTakenExactly | demo/esp32-tailscale-pyspell/core/src/outbound.rs:130-137 | before the SYN-ACK a new client takes data if and only if it is numbered zero |
| Proxy.TcpProxy.Handle | demo/esp32-tailscale-pyspell/src/proxy.rs:48-136 | the new connection state and the packets sent, for every packet |
| Proxy.TcpProxy.StreamBack | demo/esp32-tailscale-pyspell/src/proxy.rs:114-125 | the answer in segments of at most 1024 bytes, the FIN on the last |
| Tunnel.LossyTunnelIsSafe | demo/esp32-tailscale-pyspell/src/proxy.rs:102-127 | lose, repeat and reorder the proxy's own packets, its SYN-ACK included: the client never holds anything but a prefix of the LAN answer |
| Tunnel.SaidIsTrue | demo/esp32-tailscale-pyspell/src/proxy.rs:102-127 | every packet of the proxy's answer is a true segment of it |
| Tunnel.ServedTaken | demo/esp32-tailscale-pyspell/src/proxy.rs:102-127 | fed in order, the answer completes the client |
| Tunnel.Fetch | demo/esp32-tailscale-pyspell/core/src/outbound.rs:80-146 | over a faithful channel the client ends done with exactly what the LAN answered, whatever the proxy was doing before; with an empty request nothing is fetched and the exchange stalls |
| Tunnel.EmptyIgnored | demo/esp32-tailscale-pyspell/src/proxy.rs:102-127 | a segment without payload is never taken for a request |
| Delex.DelexEn | train/delex.py:39-63 | slots filled while replacing, strings before numbers |
| Delex.ScanStrings | train/delex.py:44-52 | the string pass |
| Delex.ScanNumbers | train/delex.py:54-63 | the number pass |
| DelexLaws.RelexUndoesDelex | train/delex.py:66-102 | for text free of `#`, `&` and NUL: relexicalising the delexicalised program gives it back, although two passes are undone by one |
| DelexLaws.EnglishIsLossless | train/delex.py:39-63 | the English prompt is the English delexicalised against its own final slots, and relexes to the English |
| DelexLaws.StrPassUnmarks | train/delex.py:69-73 | one unmarking pass undoes the string pass |
| DelexLaws.NumPassUnmarks | train/delex.py:75-79 | the number pass never sees inside a string marker |
| DelexLists.UnfilledSlotsAreDropped | train/delex.py:88-102 | for any literals: a comma-separated list of markers relexes to the filled items joined, unfilled ones dropped in any position, if and only if no filled item ends in white space right before an unfilled one and the first filled item, when unfilled ones stand before it, does not begin with white space (an empty item shows the white space of the commas beside it) |
| DelexLists.RelexIs | train/delex.py:88-102 | what such a list relexes to in every case |
| DelexLists.RelexBehind | train/delex.py:88-102 | and the same behind other code: any that does not end in a comma before an unfilled first item, nor in white space or a comma before a blank first item that an unfilled one follows |
| DelexLists.SolidListsRelex | train/delex.py:88-102 | literals that are not empty and have no white space at either end always meet the condition |
| DelexLists.NumberListsRelex | train/delex.py:54-102 | number slots always do, for every English text |
| DelexLists.TrailingSpaceIsLost | train/delex.py:99-101 | white space at the end of any literal is lost before an unfilled slot |
| DelexQuotes.QuotedSlotsStay | train/delex.py:88-102 | in code whose unfilled markers stand in quotes every filled marker becomes its literal, every unfilled one an empty string, and nothing else changes |
| DelexQuotes.StringsStayQuoted | train/delex.py:66-73 | the string pass leaves every marker alone in quotes, for every program |
| DelexQuotes.StringsRelexInPlace | train/delex.py:66-102 | so a program whose strings were delexicalised relexes, with any slots, to itself with those strings refilled or emptied |
| DelexQuotes.UnfilledStringStays | train/delex.py:88-102 | a list of two strings with one slot filled keeps its second element, empty |
| TextbookLaws.LogitsAreTextbook | crates/tinyllm/src/model.rs:170-305 | for every model, prompt and position, either cache format: given exp(a+b) = exp(a)exp(b) and exp(0) = 1, the logits are the scores of a transformer written down separately as in the literature (softmax without the maximum, key heads found by counting, plain dot products over dequantised matrices, weighted norms) |
| TextbookLaws.HiddenIs | crates/tinyllm/src/model.rs:181-291 | what enters each layer at each position is what that textbook transformer says |
| KernelLaws.WeightsScale | crates/tinyllm/src/math.rs:8-20 | RMS norm under two weight vectors differs element by element by their ratio |
| KernelLaws.DirectionStays | crates/tinyllm/src/math.rs:8-20 | with weights one, the norm keeps the direction of the vector |
| KernelLaws.UnitMeanSquare | crates/tinyllm/src/math.rs:8-20 | with weights one and rsqrt(y)^2 y = 1, the mean square of the result is ms/(ms + 0.00001) |
| KernelLaws.SoftmaxIs | crates/tinyllm/src/math.rs:27-47 | softmax is the distribution proportional to the exponentials of the scores, whatever the maximum |
| KernelLaws.SoftmaxSums | crates/tinyllm/src/math.rs:27-47 | it adds up to one |
| KernelLaws.RotationKeepsLength | crates/tinyllm/src/model.rs:190-216 | given cos^2 + sin^2 = 1 rotation keeps the squared length of every pair |
| KernelLaws.OnlyDistanceMatters | crates/tinyllm/src/model.rs:190-216 | given the addition laws, the product of a query rotated at p with a key rotated at t is that of the originals turned by an angle that depends only on p - t |
| KernelLaws.FirstPositionStays | crates/tinyllm/src/model.rs:190-216 | at position 0 nothing turns |
| KernelLaws.GateLaw | crates/tinyllm/src/math.rs:99-103 | given sigmoid(-x) = 1 - sigmoid(x), the gates of a and -a are a*b apart, and a positive a lets more than half of b through |
| AttentionLaws.HeadsShareInOrder | crates/tinyllm/src/model.rs:172-176 | query heads share key heads in order: the first reads 0, the last the last, monotone, exactly `mul` side by side each |
| AttentionLaws.AttentionIsDistribution | crates/tinyllm/src/model.rs:229-248 | attention over positions is a distribution |
| AttentionLaws.AttentionAverages | crates/tinyllm/src/model.rs:249-268 | every output element lies between the least and greatest stored value of that element |
| AttentionLaws.OnlyOneIsHeard | crates/tinyllm/src/model.rs:229-268 | with one position the output is its value |
| AttentionLaws.GreaterScoreGetsMore | crates/tinyllm/src/model.rs:229-248 | of two positions the greater score gets more attention |
| AttentionLaws.SilentLayerIsIdentity | crates/tinyllm/src/model.rs:270-291 | a layer with zero `wo` and `w2` leaves the stream as it is |
| QuantLaws.HalfAway | crates/tinyllm/src/math.rs:51-77 | rounding is odd, takes halves away from zero, and is otherwise nearest |
| IntLaws.AddCounts | crates/pyspell-core/src/eval.rs:333-369 | addition counts up by one and wraps from the greatest to the least integer |
| IntLaws.AddRegroups | crates/pyspell-core/src/eval.rs:333-369 | wrapping addition is commutative and associative |
| IntLaws.SubUndoesAdd | crates/pyspell-core/src/eval.rs:333-369 | a - 0 = a, (a - b) + b = a modulo 2^64, and the exact difference when it fits |
| IntLaws.MulAddsUp | crates/pyspell-core/src/eval.rs:333-369 | a product is repeated addition, for factors of either sign |
| IntLaws.DivisionLaw | crates/pyspell-core/src/eval.rs:333-369 | x = yq + r with r smaller than y in magnitude and signed as x; an error exactly for y = 0, a panic exactly when the quotient does not fit |
| IntLaws.NegationLaw | crates/pyspell-core/src/eval.rs:247-257 | negation is its own inverse and adds up to zero; it panics exactly for the least integer |
| IntLaws.DictionaryOrder | crates/pyspell-core/src/eval.rs:371-400 | strings compare by the first difference, a proper prefix first |
| IntLaws.TextTotal | crates/pyspell-core/src/eval.rs:371-400 | the order of strings is total |
| IntLaws.TextTransitive | crates/pyspell-core/src/eval.rs:371-400 | and transitive |
| IntLaws.StringComparison | crates/pyspell-core/src/eval.rs:371-400 | exactly one of less, equal and greater holds, and the other three operators are put together from them |
| IntLaws.IndexingLaw | crates/pyspell-core/src/eval.rs:402-418 | index k is item k, index -k is item k from the end, and nothing beyond |
| IntLaws.IndexRange | crates/pyspell-core/src/eval.rs:402-418 | an index is in range if and only if -len <= k < len |
| NumberLaws.OperatorsCompute | crates/pyspell-core/src/eval.rs:333-369 | over exact float operations: + - * / on numbers of any kinds are those of the reals |
| NumberLaws.RemainderIs | crates/pyspell-core/src/eval.rs:333-369 | % on floats is the library remainder of the two in order |
| NumberLaws.NoNumberNoResult | crates/pyspell-core/src/eval.rs:299-310 | an operand that is no number is an error, the left one first |
| NumberLaws.NegationComputes | crates/pyspell-core/src/eval.rs:247-257 | unary minus of every number but the least integer is its opposite |
| NumberLaws.TruthLaw | crates/pyspell-core/src/eval.rs:289-297 | what is truthy, and that `not` turns it round |
| NumberLaws.ComparisonsCompute | crates/pyspell-core/src/eval.rs:371-400 | comparisons of mixed numbers are those of the reals |
| NumberLaws.Trichotomy | crates/pyspell-core/src/eval.rs:371-400 | exactly one of less, equal, greater; the other three from these |
| NumberLaws.BooleansCompare | crates/pyspell-core/src/eval.rs:371-400 | booleans can be told apart and not ordered |
| NumberLaws.AbsComputes | crates/pyspell-core/src/eval.rs:500-509 | `abs` is the number or its opposite, whichever is not negative |
| NumberLaws.CoercionsCompute | crates/pyspell-core/src/eval.rs:516-533 | `int` drops the fraction, `float` keeps the number |
| NumberLaws.RoundComputes | crates/pyspell-core/src/eval.rs:510-515 | `round` is the nearest integer, halves away from zero |
| NumberLaws.TotalBoth | crates/pyspell-core/src/eval.rs:535-555 | the sum of a concatenation is the sum of the sums |
| NumberLaws.SumComputes | crates/pyspell-core/src/eval.rs:535-555 | `sum` is that sum, a float when any item is one, with its errors |
| NumberLaws.SumPanicsExactly | crates/pyspell-core/src/eval.rs:535-555 | it panics if and only if the integers up to some point do not fit |
| NumberLaws.MinMaxComputes | crates/pyspell-core/src/eval.rs:759-788 | `min` and `max` give an item that none beats, the first of those |
| NumberLaws.PositionsCompute | crates/pyspell-core/src/eval.rs:592-612 | `index`, `in` and `before` against positions in the list |
| BuiltinLaws.LenCountsIndices | crates/pyspell-core/src/eval.rs:490-499 | `len` of a list is the number of its non-negative indices |
| BuiltinLaws.LenCountsCharacters | crates/pyspell-core/src/eval.rs:490-499 | `len` of a text adds up over concatenation, one a character |
| BuiltinLaws.EndsOfList | crates/pyspell-core/src/eval.rs:613-620 | `first` and `last` are indices 0 and -1, and -1 for an empty list |
| BuiltinLaws.ReverseTurnsRound | crates/pyspell-core/src/eval.rs:706-715 | reverse exchanges indices k and -1-k, and undoes itself |
| BuiltinLaws.AnyAll | crates/pyspell-core/src/eval.rs:556-573 | `any` and `all` item by item, each the opposite of the other on opposites |
| BuiltinLaws.TextLaw | crates/pyspell-core/src/eval.rs:313-331 | values as text, lists between brackets |
| BuiltinLaws.ConcatenationLaw | crates/pyspell-core/src/eval.rs:333-345 | `+` with a string on either side joins the texts |
| BuiltinLaws.PrintLaw | crates/pyspell-core/src/eval.rs:654-667 | `print` gives one argument as it is and joins several with a blank |
| BuiltinLaws.JsonGetLooksUp | crates/pyspell-core/src/eval.rs:627-640 | `json_get` of a rendered document is lookup in it |
| BuiltinLaws.ArityLaw | crates/pyspell-core/src/eval.rs:477-715 | another number of arguments is an error with that number |
| BuiltinLaws.ShowLaw | crates/pyspell-core/src/eval.rs:641-653 | `show` puts its text out once and gives its argument back |
| BuiltinLaws.ColoursMix | crates/pyspell-core/src/eval.rs:42-56 | the named colours as mixtures of light |
| BuiltinLaws.LedLaw | crates/pyspell-core/src/eval.rs:668-687 | `led` by colour, by black and by truth |
| BuiltinLaws.FlashLaw | crates/pyspell-core/src/eval.rs:688-697 | `flash` flashes once and answers true |
| BuiltinLaws.MemoryLaw | crates/pyspell-core/src/eval.rs:100-120 | a text is charged the bytes of its UTF-8 form, a list its items, at most 2^32 - 1 |
| Utf8.BytesCounted | crates/pyspell-core/src/eval.rs:100-120 | the byte length of a text is the number of bytes it is encoded in |
| RunLaws.SubtractionRuns | crates/pyspell-core/src/eval.rs:181-285 | in both evaluators the program `x - y` answers with what added to y gives x, the exact difference when it fits |
| RunLaws.DivisionRuns | crates/pyspell-core/src/eval.rs:181-285 | the programs `x / y` and `x % y` answer with the pair that rounds towards zero |
| RunLaws.ComparisonRuns | crates/pyspell-core/src/eval.rs:181-285 | a program that compares two constants answers with the comparison |
| RunLaws.ConnectivesRun | crates/pyspell-core/src/eval.rs:239-246 | `and` is true when both are truthy, `or` when one is |
| RunLaws.ConditionPicks | crates/pyspell-core/src/eval.rs:263-269 | a conditional is its first branch exactly when the test is truthy, and the other branch leaves no trace |
| RunLaws.NamesRun | crates/pyspell-core/src/eval.rs:225-228 | a free name is the host value of that name, or an error that names it |
| RunLaws.ListsRun | crates/pyspell-core/src/eval.rs:275-285 | in both evaluators a list holds its items in the order written, charged exactly |
| RunLaws.FetchLaw | crates/pyspell-core/src/eval.rs:420-451 | `fetch` and `fetch_json` pass on url, path and answer |
| RunLaws.FirstHitWins | crates/pyspell-core/src/eval.rs:60-90 | `fetch_json` answers with the first hit, else the failure of the transfer, else a missing field |
| RunLaws.ClockLaw | crates/pyspell-core/src/eval.rs:208-224 | the clock is read at every 256th step and at no other, and decides |
| JsonText.ShortIs | crates/pyspell-core/src/json.rs:159-200 | the short escapes are the eight of section 7 of RFC 8259, by code point |
| JsonText.NoNinthLetter | crates/pyspell-core/src/json.rs:159-200 | a backslash before any other letter but `u` is an error |
| JsonText.HexIs | crates/pyspell-core/src/json.rs:202-217 | four hex digits of either case read as their number, nothing else does |
| JsonText.WhiteSpaceIs | crates/pyspell-core/src/json.rs:253-258 | white space is the four characters of section 2 of RFC 8259 |
| Decimals.IntegersReadBack | crates/pyspell-core/src/json.rs:220-251 | a signed decimal reads as its number if and only if 64 bits hold it |
| Decimals.NotANumber | crates/pyspell-core/src/json.rs:220-251 | nothing else reads as an integer |
| Decimals.JsonNumberIs | crates/pyspell-core/src/json.rs:220-251 | a number without point and exponent is an integer, any other goes to the float library |
| Decimals.IndicesReadBack | crates/pyspell-core/src/json.rs:76-102 | an index component reads as its number |
| Decimals.SplitLaw | crates/pyspell-core/src/json.rs:15-26 | the components of a path joined at points are the path, and none holds a point |
| RustPrinter.RustPrintThenParse | crates/pyspell-core/src/parse.rs:280-303 | every Rust-mode program (`let` lines, `if`/`else if` chains, `and`, `or` and `not` in Rust spelling) printed with minimal parentheses parses back to its bindings and tree with no token left |
| RustPrinter.RustReparseIsStable | crates/pyspell-core/src/parse.rs:280-303 | parse, print and parse is the identity on Rust-mode programs |
| RustPrinter.RustSourceRoundTrip | crates/pyspell-core/src/parse.rs:31-60 | Rust-mode text written from a program lexes and parses back to it |
| RustPrinter.IfRuns | crates/pyspell-core/src/parse.rs:521-544 | running what `if c { t } else { f }` parses to answers with the first block exactly when the test is truthy |
| RustPrinter.ConstantIfRuns | crates/pyspell-core/src/parse.rs:521-544 | `if x < y { a } else { b }` answers a if and only if x < y |
| Printer.TrailingComma | crates/pyspell-core/src/parse.rs:488-500 | a list may end in a comma and is the same list |
| Printer.NothingAfter | crates/pyspell-core/src/parse.rs:280-303 | one closing semicolon is allowed and nothing behind it |
| Printer.OnlyTheseCalls | crates/pyspell-core/src/parse.rs:546-578 | the only calls are of the 26 functions by their own names, the only method is `contains`, and Python mode has no `if` block |
| LexLaws.WordsAre | crates/pyspell-core/src/parse.rs:134-152 | the reserved words, both spellings of the truth values included |
| LexLaws.OthersAreNames | crates/pyspell-core/src/parse.rs:134-152 | every other word is a name |
| LexLaws.CharactersAre | crates/pyspell-core/src/parse.rs:82-136 | white space, letters and escapes by code point |
| LexLaws.PairsAre | crates/pyspell-core/src/parse.rs:171-216 | the operators of two characters and of one; `//` divides |
| LexLaws.NumberEndIs | crates/pyspell-core/src/parse.rs:112-133 | a number takes all digits and points, and none that lexes has two points |
| LexLaws.MalformedIs | crates/pyspell-core/src/parse.rs:112-133 | a malformed number has two |
| LexLaws.WordEndIs | crates/pyspell-core/src/parse.rs:134-152 | a word takes all letters, digits and underscores |
| Fetch.BeyondTheCap | esp32-mpe-fetch/src/fetch_async.rs:204-233 | once a body has outgrown 32768 bytes it is handed over and nothing more is read |
| Fetch.CutAtBlankLine | esp32-mpe-fetch/src/fetch_async.rs:204-233 | the body is what follows the first CR LF CR LF, and there is none before |
| Temperature.TemperedUndone | crates/tinyllm/src/sampler.rs:45-58 | tempered logits times the temperature are the logits, and temperature one changes nothing |
| Temperature.LowerWidensGaps | crates/tinyllm/src/sampler.rs:45-58 | for 0 < t < s every gap between logits is wider under t, of the same sign |
| Temperature.ProbabilityIs | crates/tinyllm/src/sampler.rs:45-58 | a probability is one over the likelihoods of all against it |
| Temperature.LowerFavoursLargest | crates/tinyllm/src/sampler.rs:45-58 | given a monotone exp that turns sums into products, a lower temperature never lowers the probability of a largest logit |
| XorshiftLaws.CoinIsTopBits | crates/tinyllm/src/sampler.rs:30-42 | the coin is the output over 2^64 cut after 24 places |
| XorshiftLaws.PublishedValues | crates/tinyllm/src/sampler.rs:30-42 | states and outputs from known seeds |
| Generation.ZeroIsGreedy | crates/tinyllm/src/sampler.rs:45-58 | temperature zero: the first largest logit, and the generator does not move |
| Generation.WholeVocabulary | crates/tinyllm/src/sampler.rs:45-58 | `topp` outside (0, 1): the coin lies in the share of the chosen token among all |
| Generation.SpokenIsDecoded | crates/tinyllm-wasm/src/lib.rs:89-133 | the text of a run is the piecewise decoding of its tokens from the last of the prompt on |
| Generation.StopsAre | crates/tinyllm-wasm/src/lib.rs:89-133 | tokens 1 and 2 end a run and add nothing to its text |
| TokenLaws.EachRoundMergesBest | crates/tinyllm/src/tokenizer.rs:103-129 | each round merges the first of the best-scoring pairs, and when no two neighbours make a piece the tokens stay |
| TokenLaws.BestIsUnique | crates/tinyllm/src/tokenizer.rs:103-129 | there is one such pair |
| TokenLaws.FindIsFirst | crates/tinyllm/src/tokenizer.rs:71-73 | lookup gives the first piece that equals the bytes |
| TokenLaws.TextOpens | crates/tinyllm/src/tokenizer.rs:77-88 | the start mark, then a space piece before any text |
| TokenLaws.TextGrows | crates/tinyllm/src/tokenizer.rs:89-102 | one character more adds its tokens |
| TokenLaws.CharacterIs | crates/tinyllm/src/tokenizer.rs:89-102 | a character is its piece, or one token three above each byte, or 0 where there is none |
| TokenLaws.HexPieceIs | crates/tinyllm/src/tokenizer.rs:152-169 | `<0xXX>` stands for the byte of its two digits, of either case |
| CheckpointLaws.FirstBytes | crates/tinyllm/src/format.rs:370-400 | a written file begins with the bytes 32 34 6b 61, then version 2, little-endian |
| CheckpointLaws.ErrorsAre | crates/tinyllm/src/format.rs:177-215 | too short, bad mark, bad version, bad numbers, truncated: in that order, by the bytes |
| WireLaws.ChecksumIsComplement | demo/esp32-tailscale-pyspell/core/src/outbound.rs:181-212 | the checksum is the complement of the one's-complement sum of section 1 of RFC 1071, defined apart by end-around carry over byte pairs |
| WireLaws.OddIsPadded | demo/esp32-tailscale-pyspell/core/src/outbound.rs:195-205 | an odd message sums as with a zero byte behind it |
| WireLaws.PingsSumToOnes | demo/esp32-tailscale-pyspell/core/src/icmp.rs:137-151 | headers and ICMP messages sum to all ones |
| WireLaws.SegmentsSumToOnes | demo/esp32-tailscale-pyspell/core/src/outbound.rs:186-193 | so does every TCP segment behind the twelve pseudo-header bytes of section 3.1 of RFC 9293 |
| WireLaws.RepliesSumToOnes | demo/esp32-tailscale-pyspell/core/src/icmp.rs:111-134 | and every IPv6 reply behind the forty bytes of section 8.1 of RFC 8200 |
| WireLaws.Pseudo6Is | demo/esp32-tailscale-pyspell/core/src/icmp.rs:111-134 | the accumulator holds the sum of those forty bytes |
| WireLaws.HeaderBytes | demo/esp32-tailscale-pyspell/core/src/outbound.rs:165-179 | the IPv4 header byte by byte |
| WireLaws.IcmpBytes | demo/esp32-tailscale-pyspell/core/src/outbound.rs:24-33 | the ICMP message byte by byte |
| WireLaws.TcpBytes | demo/esp32-tailscale-pyspell/core/src/outbound.rs:148-161 | the TCP header byte by byte |
| WireLaws.FlagBits | demo/esp32-tailscale-pyspell/core/src/outbound.rs:100-146 | the flags by their bits |
| WireLaws.PingsAre | demo/esp32-tailscale-pyspell/core/src/icmp.rs:15-30 | a plain IPv4 packet is answered if and only if it holds ICMP of type 8 |
| WireLaws.Pings6Are | demo/esp32-tailscale-pyspell/core/src/icmp.rs:72-107 | an IPv6 packet is answered if and only if it holds ICMPv6 of type 128; the answer is the packet with addresses swapped, type 129 and its own checksum |
| TunnelLaws.Handshake | demo/esp32-tailscale-pyspell/core/src/outbound.rs:80-128 | SYN; then for the SYN-ACK an ACK and the request, both acknowledging isn + 1 |
| TunnelLaws.AcknowledgesWhatItHas | demo/esp32-tailscale-pyspell/core/src/outbound.rs:130-146 | every data segment is answered by acknowledging all there is up to the first gap, a FIN by one more and a FIN |
| TunnelLaws.OnlySynAckOpens | demo/esp32-tailscale-pyspell/core/src/outbound.rs:119-128 | only SYN with ACK opens the connection |
| TunnelLaws.OthersIgnored | demo/esp32-tailscale-pyspell/core/src/outbound.rs:87-98 | packets for another port, protocol or version change nothing and are not answered |
| TunnelLaws.AnswerInChunks | demo/esp32-tailscale-pyspell/src/proxy.rs:114-125 | the answer in order, 1024 bytes a packet, the FIN on the last alone, each acknowledging the request |
| TunnelLaws.TurnsOfProxy | demo/esp32-tailscale-pyspell/src/proxy.rs:75-136 | SYN opens, another client is ignored, RST closes, the request is acknowledged to its last byte, a FIN as one more |
| TunnelLaws.EmptyAnswer | demo/esp32-tailscale-pyspell/src/proxy.rs:102-127 | an empty answer is one FIN |
| TunnelLaws.OthersUnheard | demo/esp32-tailscale-pyspell/src/proxy.rs:48-72 | packets for another port, protocol or version are not heard |
| DelexPatterns.LongestNumber | train/delex.py:34-34 | the number at the front is the longest optional sign, digits, optional point and digits the text begins with; none exactly when there is none |
| DelexPatterns.QuotedIs | train/delex.py:33-33 | a string runs from a quote to the next of its kind on the line, if and only if there is one |
| DelexPatterns.SlotsAreFirsts | train/delex.py:39-63 | slots are filled in order of first appearance, each literal once, up to 4 strings and 8 numbers |
| DelexPatterns.NumbersAllLeave | train/delex.py:66-79 | when every number has a slot no digit is left outside the markers |
| DelexPatterns.MarkersAre | train/delex.py:28-31 | the markers letter by letter |
| DelexPatterns.CommaIs | train/delex.py:99-101 | a comma is taken with all white space on either side |
| IntLaws.DividesOnce | crates/pyspell-core/src/eval.rs:333-369 | there is one such pair |
| KernelLaws.GateIsLinear | crates/tinyllm/src/math.rs:99-103 | the gated product is linear in the second vector |
| KernelLaws.AddedLaw | crates/tinyllm/src/model.rs:273-275 | the residual sum is undone by taking the addend away |
| BuiltinLaws.ReverseText | crates/pyspell-core/src/eval.rs:706-715 | a text is reversed by its characters |
| BuiltinLaws.CaseLaw | crates/pyspell-core/src/eval.rs:698-705 | `upper` and `lower` are the library functions of those names |
| BuiltinLaws.JoinLaw | crates/pyspell-core/src/eval.rs:654-667 | joined texts: one alone, each further one behind the separator |
| Decimals.LeadingZero | crates/pyspell-core/src/json.rs:220-251 | leading zeros make no difference |
| JsonPrint.OneForm | crates/pyspell-wasm/src/lib.rs:69-85 | which of the forms that read back is printed: the character itself, a short escape, or four lower-case digits |

## Left out

- The `syn` and `rustpython` front ends and the binary wire format: they wrap libraries that are not part of this model.
- TLS, DNS, sockets, WebSocket, flash storage, displays, LEDs and the concrete hosts: the evaluators see functions.
- Noise, WireGuard, SalsaBox, certificate pinning and the data plane that calls them.
- HTTP/2, DERP and disco framing, hex helpers, URL splitting and job counters: counting and framing easier than the above.
- Training, data generation, export scripts, web pages and the JavaScript copies of the same logic.
- UDP datagrams and `tokenizer.bin` parsing: they would add easy members only.
- 32-bit float rounding, NaN and infinities in tinyllm, and decimal parsing and printing of floats.
- Rounding means the coin of a real run can miss every interval of the cumulative distribution; the fallback to the last token is then taken, which over the reals cannot happen.
- Overflow of `usize` in checkpoint sizes: sizes are unbounded naturals here.
- Failed allocation of the run state: construction always succeeds.
- The confidence the generator reports beside each piece, and the lossy conversion of a piece's bytes to text.
- Generation.Generator.constructor: takes the model as read; a failed parse is `Checkpoint.Parse`, and `tokenizer.bin` is not parsed here.
- Generation.SeedFixesText: asks that probabilities differ where a nucleus is drawn from, because the source's sort leaves the order of ties open.
- Sixteen-bit slot numbers wrap in the model as in the source; the meaning theorems ask for fewer than 65536 lets.
- Sampler.SampleTopp sorts with one particular stable order; the laws hold for every descending order of ties.
- Tunnel.Fetch: the client's closing acknowledgements are not delivered back to the proxy, since they change nothing on the client's side.
- Tunnel.LossyTunnelIsSafe: says nothing about progress; the client does not retransmit.
- TokenLaws.EncodingIsLossless: is about `encode(text, true, false)`; the end mark decodes to its own piece.
- LexLaws.SourceRoundTrip: the way floats are written is a parameter whose text reads back, because decimal conversion is not modelled.
- DelexLists.UnfilledSlotsAreDropped: asks that no literal holds the NUL the source itself uses for unfilled slots.
- Text in `Delex` is ASCII: digits and white space outside ASCII, which the patterns also match, are not part of this model.
