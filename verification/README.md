# Conversion, codec and parsing code of llama.cpp: model and proofs

This project models the parts of the repository in which a result is computed in an indirect way and has to
mean the same as a simpler definition, and proves that it does, or exactly when it does.

- **Factored LoRA tensors.** `LoraTorchTensor` stands for the product of two factors B and A and never multiplies
  them. Every operation is modelled twice: on the factors, as the code does it, and on the dense tensor of the
  products. Tensors are row-major sequences of reals with a shape; `Materialize` is the product. The main theorem,
  `LoraExpressions.FactorsMeanProducts`, is about every program built from reshape, permute, transpose, indexing,
  stack and cat.
- **Base64.** The loops of encoding and decoding, in fresh output and in place, refine definitions by bits: the
  octets, or the sextets, of one string of bits (sections 3.5, 4 and 5 of RFC 4648).
- **Byte-pair merges.** The bounded merge loop from which the converter recovers a merge list.
- **Chat output that is still being generated.** The parser's cursor, its extraction of reasoning, and the clean-up
  of JSON that was completed with a healing marker.
- **Weights.** Merging of expert tensors from a checkpoint in any order, and the permutations of heads, of Falcon's
  queries, keys and values, and of nibbles.
- **Line wrapping** of the help text, with its optimality.
- **Two binary formats.** The loader of GGML, GGMF and GGJT files and the scanner of GGUF files, each with a
  writer, as the definition of a well-formed file, and the round trip.

Where a definition is used by the code's side and by the other side of a law, a further lemma says what it means without naming
it: which axes are exchanged, what precedes a marker, where the cursor is, which dimension is read, what the tables hold.

A component with mutable state is a class whose methods are proved against functions; the laws are lemmas about
those functions. Code without it is functions. A failed assertion or a raised exception is an `Err`.

| component | modules |
|---|---|
| shapes, tensors, sequences, bits, bytes, strings | `Results`, `Sequences`, `Shapes`, `Tensors`, `TensorLaws`, `IndexLaws`, `Bits`, `Bytes`, `SignedWords`, `Strings`, `StringLaws` |
| LoRA | `LoraTensors`, `LoraProducts`, `LoraReshape`, `LoraPermute`, `LoraIndex`, `LoraGetItem`, `LoraItem`, `LoraJoin`, `LoraCat`, `LoraEllipsis`, `LoraEllipsisMeaning`, `LoraExpressions`, `LoraAcceptance`, `LoraLimits`, `LlamaPermute` |
| Base64 | `Base64`, `Base64Laws`, `Base64Tables` |
| merges | `Bpe`, `BpeLaws` |
| chat parser | `ChatParser`, `ChatParserLaws`, `ReasoningStream`, `Json`, `JsonDumpLaws`, `JsonCleanup`, `JsonCleanupLaws`, `JsonSharedPath`, `JsonStranding`, `JsonCleanupMeaning`, `JsonCleanupErrors`, `JsonConsumption` |
| experts and layouts | `ExpertNames`, `Experts`, `ExpertLaws`, `ExpertMerging`, `ExpertRuns`, `ExpertStacks`, `ExpertCheckpoints`, `NibbleLayout`, `FalconQkv` |
| line wrapping | `LineWrap`, `LineWrapLaws`, `LineWrapWords`, `LineWrapMeaning` |
| file formats | `ByteReading`, `FormatTables`, `GgmlFile`, `GgmlLoader`, `GgmlSteps`, `GgmlLayout`, `GgmlLimits`, `GgmlRoundTrip`, `GgufScan`, `GgufRoundTrip` |

`dafny verify dfyconfig.toml` checks all of it.

## Model

| member | source | states |
|---|---|---|
| LoraExpressions.FactorsMeanProducts | convert_lora_to_gguf.py:41-224 | For every program of reshapes, permutations, swaps, indices, stacks and cats whose indices and cats are supported: if it runs on the factors and on the dense products, the product of the resulting factors is the dense result, and `shape` is its shape |
| LoraAcceptance.FactorsAccept | convert_lora_to_gguf.py:41-224 | A supported program that runs on the products runs on the factors if and only if each step is acceptable, a condition on the factors' shapes, the step's arguments and, for `cat` of matrices, the equality of the A factors; it then means the same |
| LoraGetItem.TupleExact | convert_lora_to_gguf.py:78-113 | Where factors and product both accept a tuple index, the answers agree if and only if one of the last two entries is a slice and no leading axis that A carries in full is cut short |
| LoraGetItem.TupleAccepted | convert_lora_to_gguf.py:96-113 | A tuple that the product accepts and whose last two entries are slices is accepted by the factors |
| LoraItem.ItemExact | convert_lora_to_gguf.py:68-77 | Where both accept a single index, the answers agree if and only if `ItemSupported` holds, a condition on the ranks, the first axes of A and B and the length of the slice |
| LoraReshape.ReshapeSound | convert_lora_to_gguf.py:131-155 | If factors and product accept a reshape, the product of the reshaped factors is the reshaped product |
| LoraReshape.ReshapeAgrees | convert_lora_to_gguf.py:140-155 | When the factors accept a reshape, the product accepts it if and only if at most one dimension is -1 and, without one, the sizes are equal |
| LoraReshape.ReshapeAgreesWithRank | convert_lora_to_gguf.py:140-155 | With a positive rank the sizes are always equal, so only several -1 make a difference |
| LoraReshape.ReshapeSupported | convert_lora_to_gguf.py:137-155 | Of the reshapes of the product, the factors accept exactly those to at least two axes that keep the last one, if the leading axes of A are ones or A has no element, and the number of rows stays the same or the rank is zero |
| LoraPermute.PermuteSound | convert_lora_to_gguf.py:163-174 | If factors and product accept a permutation, the product of the permuted factors is the permuted product |
| LoraPermute.PermuteSupported | convert_lora_to_gguf.py:163-174 | Of the permutations of the product, the factors accept exactly those of a matrix and those that fix the last axis while the leading axes of A are ones |
| LoraPermute.SwapAxesSound | convert_lora_to_gguf.py:176-183 | The same soundness for transpose and swapaxes, positive or negative axes |
| TensorLaws.SwapAxesExchanges | convert_lora_to_gguf.py:176-183 | Any two axes, counted from the start or from the end, are exchanged: the two lengths, and the two coordinates of every element |
| TensorLaws.SwapAxesRefuses | convert_lora_to_gguf.py:176-183 | Every other pair of numbers is refused |
| TensorLaws.PermuteReorders | convert_lora_to_gguf.py:163-174 | A list that names every axis once, from either end, is accepted; axis d of the result is the axis named in place d, for the lengths and for every element |
| TensorLaws.PermuteRefuses | convert_lora_to_gguf.py:163-174 | Every other list is refused |
| TensorLaws.ReshapeKeepsData | convert_lora_to_gguf.py:131-155 | A shape is accepted if and only if it has as many elements, which stay in row-major order |
| TensorLaws.ReshapeInfers | convert_lora_to_gguf.py:131-155 | A -1 becomes the length in its place with which the elements are as many |
| TensorLaws.ReshapeFits | convert_lora_to_gguf.py:131-155 | An accepted list has at most one -1 and is the shape of the result elsewhere; the elements stay |
| LoraProducts.ProductMeans | convert_lora_to_gguf.py:42-56 | Element c of what a factored tensor stands for is the sum, over the rank, of row times column of B and A, an axis of A of length one being broadcast |
| LoraProducts.MatrixProduct | convert_lora_to_gguf.py:42-56 | For matrices this is the product B A, with the rows of B and the columns of A |
| LoraProducts.FactorsTransposed | convert_lora_to_gguf.py:163-183 | Exchanging the axes 0 and 1 of a factored matrix, from either end and in either order, makes A the transposed B and B the transposed A |
| LoraProducts.FactorsExchange | convert_lora_to_gguf.py:163-183 | Two axes of a factored tensor can be exchanged if and only if it is a matrix, or A is not batched and they are the same or both before the last; the product of the factors then has the two axes of the product exchanged |
| IndexLaws.SelectMeans | convert_lora_to_gguf.py:68-113 | A position means itself, or counts from the end if negative, and nothing else |
| IndexLaws.SliceMeans | convert_lora_to_gguf.py:68-113 | A slice picks every step-th position between its bounds, which count from the end if negative and are moved inside the axis |
| IndexLaws.GetItemMeans | convert_lora_to_gguf.py:68-113 | An index tuple picks, for each element of the result, the element at the selected positions and at those that its coordinates pick; axes without an entry stay whole |
| IndexLaws.GetItemAccepts | convert_lora_to_gguf.py:68-113 | It is accepted if it has no more entries than axes and each entry is accepted by its axis |
| LoraJoin.StackSound | convert_lora_to_gguf.py:199-206 | The stack of the factors stands for the stack of the products, without condition |
| IndexLaws.StackMeans | convert_lora_to_gguf.py:199-206 | Tensors of one shape, and only those, are stacked along a new first axis, in order |
| LoraCat.CatExact | convert_lora_to_gguf.py:207-215 | The accepted concatenation of batches stands for the concatenation of the products if and only if A has the full first axis in each, or all but one are empty |
| IndexLaws.CatMeans | convert_lora_to_gguf.py:207-222 | The first axis of a concatenation is as long as those of its tensors together |
| IndexLaws.CatRow | convert_lora_to_gguf.py:207-222 | Row r of tensor i comes after the rows of the tensors before it |
| LoraCat.CatBatches | convert_lora_to_gguf.py:211-215 | If A has the full first axis in each, empty batches included, the concatenation of the factors stands for that of the products |
| LoraCat.CatMatrices | convert_lora_to_gguf.py:216-222 | For matrices every accepted concatenation is right: the code's comparison of the A factors is what it takes |
| LoraEllipsis.TrailingEllipsis | convert_lora_to_gguf.py:80-81 | A tuple that ends in an ellipsis is padded to the tuple that the dense tensor uses |
| LoraEllipsis.InnerEllipsis | convert_lora_to_gguf.py:82-97 | An ellipsis before other entries is expanded to the tuple that the dense tensor uses if and only if there are twice as many axes as entries, or more and only full slices follow it |
| LoraEllipsis.WholeTail | convert_lora_to_gguf.py:82-97 | Whatever the tuples are, both pick the same elements if every entry behind the ellipsis picks whole axes |
| LoraEllipsis.EllipsisExact | convert_lora_to_gguf.py:78-113 | Where the tuples are equal, a trailing ellipsis included, the exact condition for tuples is the one for the ellipsis |
| LoraEllipsisMeaning.EllipsisAgrees | convert_lora_to_gguf.py:82-97 | An inner ellipsis, expanded as the code does, gives the same as the dense tensor's for every tensor of n axes if and only if some slice is refused by all, there are twice as many axes as entries, or there are more and every entry behind the ellipsis picks whole axes |
| LoraEllipsisMeaning.EllipsisRight | convert_lora_to_gguf.py:78-113 | An inner ellipsis on the factors is right if and only if the tuple that the code makes of it is supported and picks from the product what the ellipsis does |
| LoraEllipsis.FirstColumnOrRow | convert_lora_to_gguf.py:82-97 | `x[..., 0:1]` of a three-axis tensor: the code expands it to the first rows, the dense tensor gives the first columns |
| LoraLimits.RankZeroReshape | convert_lora_to_gguf.py:150-155 | A product of rank zero that the factors reshape to another number of elements |
| LoraLimits.TwoInferred | convert_lora_to_gguf.py:141-145 | A product that the factors reshape with two -1, which the dense tensor refuses |
| LoraLimits.BothAxesDropped | convert_lora_to_gguf.py:99-113 | `t[:, 0, 0]` is accepted and has an axis more than the dense answer |
| LoraLimits.BroadcastCat | convert_lora_to_gguf.py:211-215 | `cat([t, t])` with a broadcast A is accepted, and its factors no longer fit together |
| LoraLimits.FullAxisCut | convert_lora_to_gguf.py:100-113 | `t[0:1, :, :]` on two matrices of which A carries both is accepted and wrong |
| LoraLimits.BroadcastSliced | convert_lora_to_gguf.py:73-75 | `t[1:2]` with a broadcast A is accepted and wrong |
| LlamaPermute.PermuteLoraSound | convert_hf_to_gguf.py:2304-2310 | Permuting the heads of a factored tensor permutes the heads of its product, whenever both run |
| LlamaPermute.PermuteLoraMatrix | convert_hf_to_gguf.py:2304-2310 | For a matrix whose rows the heads divide evenly, those of keys and values where they are given and otherwise those of queries, both do run; A is unchanged, and B is permuted as weights are |
| LlamaPermute.PermuteAccepted | convert_hf_to_gguf.py:2304-2310 | With h heads, `n_head_kv` where it is given and otherwise `n_head`: weights are accepted if and only if they have an axis and h divides the rows evenly into halves, or h is positive and the rows are empty |
| LlamaPermute.PermutedRows | convert_hf_to_gguf.py:2304-2310 | Row r of the result is row `SourceRow(r, half)` of the weights, of any number of axes, with half = rows / n_head_kv / 2 where it is given and otherwise rows / n_head / 2 |
| LlamaPermute.RowsInverse | convert_hf_to_gguf.py:2304-2310 | `SourceRow` is a bijection with inverse `TargetRow` |
| LlamaPermute.RowsStayInHead | convert_hf_to_gguf.py:2304-2310 | A row stays in its head, and the rows of a head come from its two halves in turn |
| Base64.Encode | common/base64.hpp:80-144 | The loop writes the sextets of the input's bits, with padding |
| Base64.Decode | common/base64.hpp:200-244 | The loop writes the whole octets of the bits of the digits before the first padding or error, and fails exactly if the alphabet, or the text after the padding, is at fault |
| Base64.DecodeInPlace | common/base64.hpp:294-313 | Reading and writing one buffer gives the same bytes and the same verdict, also where it fails, and changes nothing behind the bytes written |
| Base64Laws.RoundTrip | common/base64.hpp:80-244 | Decoding an encoding returns the input, for both alphabets, automatic detection and both error behaviours |
| Base64Laws.CanonicalExact | common/base64.hpp:80-244 | Under a fixed alphabet, text is the encoding of its strict decoding if and only if it is canonical: digits, at most two padding characters up to a multiple of four, no unused bit set |
| Base64Laws.AutoIsEither | common/base64.hpp:344-389 | Automatic detection succeeds if and only if one of the alphabets does, with the bytes of whichever does |
| Base64Laws.ModerateIsStricter | common/base64.hpp:231-241 | Strict decoding succeeds if and only if loose decoding does and only padding follows the digits; the bytes agree |
| Base64Laws.EncodedSize | common/base64.hpp:338-341 | Encoding writes exactly `required_encode_size` characters |
| Base64Laws.WrittenSize | common/base64.hpp:324-327 | k digits decode to 3k/4 bytes, rounded down, never more than `max_decode_size` |
| Base64Laws.EncodedSplit | common/base64.hpp:88-141 | Encoding distributes over a split at a multiple of three bytes |
| Base64Tables.Alphabets | common/base64.hpp:84-86 | The digits of both alphabets, as runs of characters, and the padding character |
| Base64Tables.ValuesOfDigits | common/base64.hpp:344-389 | Under a fixed alphabet the characters that have a value are its digits, with the value of the digit |
| Base64Tables.EncodedThree | common/base64.hpp:88-104 | Three bytes become four digits of six bits each, the highest first, and the rest follows |
| Base64Tables.LastTwo | common/base64.hpp:105-141 | Two bytes at the end become three digits and one `=` |
| Base64Tables.LastOne | common/base64.hpp:105-141 | One byte at the end becomes two digits and two `=` |
| Base64Tables.LooseExactly | common/base64.hpp:200-244 | Loose decoding under a fixed alphabet succeeds if and only if the text is digits up to its end or its first padding |
| Bpe.FindBest | convert_hf_to_gguf.py:3156-3162 | The scan finds the leftmost adjacent pair of the lowest rank |
| Bpe.Bpe | convert_hf_to_gguf.py:3153-3167 | The loop computes `Run`, the repeated merge of the best pair under the bound |
| Bpe.RecoverMerges | convert_hf_to_gguf.py:1107-1113 | The caller's loop returns the two parts of every token of more than one byte, or fails at its assertion |
| BpeLaws.RunLaws | convert_hf_to_gguf.py:3155-3167 | A run keeps the text and known parts, and each merge costs one part |
| BpeLaws.TraceLaws | convert_hf_to_gguf.py:3155-3167 | The states between the merges are one more than the merges, and the last is the result |
| BpeLaws.TokenLaws | convert_hf_to_gguf.py:3153-3167 | A token of n bytes takes at most n - 1 merges, and the parts spell it |
| BpeLaws.StopsExact | convert_hf_to_gguf.py:3163-3164 | The run stops if and only if no adjacent pair may be merged under the bound |
| BpeLaws.RunIsMaximal | convert_hf_to_gguf.py:3153-3167 | No adjacent pair of the result may be merged |
| BpeLaws.BoundedIsPrefix | convert_hf_to_gguf.py:3163-3164 | The states and merges of a bounded run are the first ones of the unbounded run |
| BpeLaws.TwoPartsExact | convert_hf_to_gguf.py:1107-1113 | With the rank of the whole as bound, the run stops at two parts if and only if the unbounded run reaches one and makes only lower-ranked merges before its last |
| BpeLaws.TwoPartsRecovered | convert_hf_to_gguf.py:1111-1112 | If the token merges to one part and all its known proper pieces rank lower, the two parts are found and spell it |
| BpeLaws.RecoveredExact | convert_hf_to_gguf.py:1107-1113 | The caller's loop meets no failing assertion if and only if every token has one byte or satisfies that condition |
| BpeLaws.RecoveredMerges | convert_hf_to_gguf.py:1107-1113 | What it returns is one pair for each token of more than one byte, in order, which spells the token and of which each half is a byte or a known token |
| BpeLaws.NotRecovered | convert_hf_to_gguf.py:1107-1113 | A vocabulary of three bytes and the token of all three, on which the assertion fails |
| Strings.FindPartialStop | common/common.cpp:467-481 | The loop finds where the longest tail of the text that starts the stop word begins |
| Strings.StringStrip | common/common.cpp:410-420 | The two loops remove white space at both ends |
| StringLaws.StripMeans | common/common.cpp:410-420 | What is left is a part of the text that neither starts nor ends with one of the six blank characters, and all around it is such |
| ChatParser.ChatMsgParser.TryConsumeLiteral | common/chat-parser.cpp:123-136 | The cursor moves over the literal if and only if it is next, and otherwise stays |
| ChatParser.ChatMsgParser.TryFindLiteral | common/chat-parser.cpp:138-160 | The first occurrence at or after the cursor, or in partial input a tail that starts the literal; the text before it, and the new cursor |
| ChatParser.ChatMsgParser.TryParseReasoning | common/chat-parser.cpp:168-203 | Cursor, content and reasoning after the call, for every format and option |
| ChatParserLaws.LiteralFound | common/chat-parser.cpp:138-147 | Where the literal occurs, the text before its first occurrence is taken, and the cursor goes behind it |
| ChatParserLaws.LiteralBegun | common/chat-parser.cpp:148-160 | Where it does not and partial input ends in beginnings of it, the longest is taken, if it does not start before the cursor |
| ChatParserLaws.LiteralMissing | common/chat-parser.cpp:138-160 | In the remaining cases nothing is found |
| ChatParserLaws.NothingParsed | common/chat-parser.cpp:168-203 | Without a format, or without a start tag and not forced open, cursor and message stay |
| ChatParserLaws.ThoughtClosed | common/chat-parser.cpp:168-191 | With an end tag, the thought is the text before its first occurrence and the cursor is at the first character behind it that is not white space; a thought that is not blank is added stripped, as reasoning or between the tags in the content |
| ChatParserLaws.ThoughtBegun | common/chat-parser.cpp:168-191 | Partial input that ends in a beginning of the end tag: the thought is the text before that and counts as closed |
| ChatParserLaws.ThoughtOpen | common/chat-parser.cpp:168-200 | Otherwise the thought takes the rest of the input, and is closed if the input is complete |
| ChatParser.ChatMsgParser.TryConsumeJsonWithDumpedArgs | common/chat-parser.cpp:262-418 | The cursor, and the cleaned value or error, as `ConsumedJson` of the parsed value |
| ReasoningStream.GrowsExactly | common/chat-parser.cpp:138-203 | Reasoning extracted from partial input is always a prefix of what any longer input gives if and only if thinking is forced open or the tags do not overlap |
| ReasoningStream.ReasoningGrows | common/chat-parser.cpp:138-203 | The sufficient half, for partial and complete longer input |
| ReasoningStream.OverlapShrinks | common/chat-parser.cpp:138-203 | For any overlapping tags, two inputs of which the longer takes reasoning back |
| ReasoningStream.OverlappingTags | common/chat-parser.cpp:138-203 | The tags `a` and `aba` overlap, so reasoning between them is taken back |
| ReasoningStream.DisjointTags | common/chat-parser.cpp:138-203 | Tags of which no tail of the first starts the second do not overlap |
| JsonCleanup.Cleaner.Clean | common/chat-parser.cpp:331-410 | The recursion with its shared path, flag and skipped `pop_back` computes `Walk` |
| JsonDumpLaws.QuotedMeans | vendor/nlohmann/json.hpp:19112-19356 | A string is dumped between quotes, and reading what is between them gives the string |
| JsonDumpLaws.EscapesOnly | vendor/nlohmann/json.hpp:19112-19356 | Exactly quotes, backslashes and control characters are escaped, seven of them by one character |
| JsonDumpLaws.DumpMeans | vendor/nlohmann/json.hpp:18828-19095 | The dump of a value by the dumps of its parts: commas between, a colon behind each key, nothing else |
| JsonSharedPath.SharedPathExact | common/chat-parser.cpp:331-410 | For every value, setup and lists of paths, the shared path gives the same result as a recursion that passes the path down if and only if both fail, or every value that the walk comes to is treated at the shared path as at its own |
| JsonStranding.WalkIsCleaned | common/chat-parser.cpp:331-410 | Whatever the lists, the two agree on a value in which nothing is cleaned behind a child that may leave a key on the path |
| JsonStranding.MarkerLastIsHarmless | common/chat-parser.cpp:331-410 | A value of which only the last key or string has the marker is of that kind |
| JsonStranding.HiddenStrand | common/chat-parser.cpp:372-389 | Not only those: in `[{"a":{"b":s}},x]` with the marker in s, the number x may be cleaned at a wrong path, and no lists of paths make a difference |
| JsonCleanupMeaning.CleanedIsUnmarked | common/chat-parser.cpp:331-410 | The result has no marker, and the flag tells whether the value had one |
| JsonCleanupMeaning.CleanedKeeps | common/chat-parser.cpp:331-410 | The result is the value except: an argument is its dump up to the first dump marker, or nothing if that leaves a lone quote; a content is its text up to the first marker; and a last child with the marker in its key, or in a string that is not kept, is left out |
| JsonCleanupErrors.FailsExactly | common/chat-parser.cpp:349-352 | Cleaning an unmarked value fails if and only if a content path, outside every dumped value, holds something else than a string |
| JsonCleanupErrors.LeftAlone | common/chat-parser.cpp:331-410 | An unmarked value in which nothing is dumped comes back as it is |
| JsonConsumption.ConsumedIsUnmarked | common/chat-parser.cpp:297-418 | An object or array behind whose strands nothing is cleaned comes back without a marker, and is reported partial if and only if it had one |
| JsonConsumption.ConsumedKeeps | common/chat-parser.cpp:297-418 | The same of what the whole call keeps of a value, partial or complete |
| JsonConsumption.ConsumedWhole | common/chat-parser.cpp:273-326 | A value that was cut short in complete input is an error; a complete value is returned as it is without argument paths, and as its dump if the root is an argument path |
| JsonConsumption.ConsumedUnchanged | common/chat-parser.cpp:312-327 | A complete value in which nothing is dumped comes back as it is, and is not partial |
| JsonConsumption.ConsumingFailsExactly | common/chat-parser.cpp:312-352 | Consuming a complete value fails if and only if there are argument paths and a content path holds something else than a string |
| JsonConsumption.ConsumedExactly | common/chat-parser.cpp:297-418 | The whole call gives what passing the path down would if and only if it does not clean, both fail, or every value is treated as at its own path |
| JsonConsumption.RootString | common/chat-parser.cpp:349-360 | A complete string at the root comes back empty and partial if the root is a content path and there are argument paths |
| JsonConsumption.RootStringExact | common/chat-parser.cpp:312-360 | A complete string at the root comes back as it is if and only if there are no argument paths or the root is on neither list |
| JsonConsumption.MarkerNotInInput | common/chat-parser.cpp:18-24 | The input of the next row does not contain the marker, so the marker is one that the constructor may choose |
| JsonConsumption.StalePath | common/chat-parser.cpp:372-389 | A complete value in which escapes spell the marker: the key that was not popped makes the next value be dumped at the wrong path, whereas with the path passed down it is kept |
| Experts.LlamaModel.ModifyTensors | convert_hf_to_gguf.py:2350-2384 | Buffers and emitted tensors after one arrival |
| Experts.LlamaModel.PrepareTensors | convert_hf_to_gguf.py:2416-2423 | The whole conversion with its final check |
| ExpertNames.ExpertNameInjective | convert_hf_to_gguf.py:2369-2369 | Experts with one name are the same expert |
| ExpertLaws.CompleteExactly | convert_hf_to_gguf.py:2361-2361 | The count of buffered tensors is reached if and only if each expert of the layer has arrived |
| ExpertMerging.MergeComplete | convert_hf_to_gguf.py:2364-2380 | Merging a complete layer misses no name and leaves nothing in the buffer |
| ExpertMerging.ExpertInSlot | convert_hf_to_gguf.py:2368-2373 | Every element of expert x is in slot x of the stack of its weight |
| ExpertStacks.DecimalMeans | convert_hf_to_gguf.py:2369-2375 | Numbers in names are decimal: digits that read back, without a leading zero |
| ExpertStacks.Names | convert_hf_to_gguf.py:2365-2375 | The weights and the two templates of names, spelt out |
| ExpertStacks.LayerStacked | convert_hf_to_gguf.py:2361-2381 | A complete layer gives three tensors; that of weight w is called `layers.<b>.feed_forward.experts.<w>.weight`, has the experts as its first axis, and holds every element of expert x at x |
| ExpertRuns.EmittedOnce | convert_hf_to_gguf.py:2361-2382 | A run emits the stacks of each complete layer once, whatever the order |
| ExpertCheckpoints.RunState | convert_hf_to_gguf.py:2314-2384 | Over any checkpoint of experts and other tensors a run does not fail; other tensors pass through and leave the buffers alone, and the buffers hold the incomplete layers |
| ExpertCheckpoints.ConvertedExactly | convert_hf_to_gguf.py:2416-2423 | The final check raises if and only if a layer that received an expert lacks another; otherwise all is emitted |
| ExpertCheckpoints.EmittedExactly | convert_hf_to_gguf.py:2350-2384 | What is emitted is the other tensors and the stacks of the complete layers, each once |
| ExpertCheckpoints.Confluent | convert_hf_to_gguf.py:2350-2423 | Reordering a checkpoint changes neither whether it converts nor, up to order, what is emitted |
| NibbleLayout.TransformedAt | convert_hf_to_gguf.py:9097-9120 | Byte j of a block of the result holds nibble j of the source low and nibble j + 16 high |
| NibbleLayout.TransformationInverse | convert_hf_to_gguf.py:9097-9120 | The transformation of whole blocks is a bijection, with its inverse given |
| NibbleLayout.TensorTransformed | convert_hf_to_gguf.py:9097-9120 | A tensor whose last axis is 16 is accepted, whatever its leading axes, and element c + [j] of the result holds nibble j of the block at c low and nibble j + 16 high |
| NibbleLayout.TensorInverse | convert_hf_to_gguf.py:9097-9120 | The tensor form is a bijection on the tensors whose last axis is 16, and refuses all others |
| FalconQkv.RegroupedRows | convert_hf_to_gguf.py:1985-1996 | With hidden / n_head rows for each head, one group if the number of key-value heads is missing or zero, and even head counts, the regrouping of a joint tensor of any shape of that size succeeds and keeps the shape, and each row is the row of the joint tensor that `SourceRow` names: queries of all groups, then keys, then values |
| FalconQkv.RowsInverse | convert_hf_to_gguf.py:1985-1996 | `SourceRow` is a bijection of the rows, with inverse `TargetRow` |
| LineWrap.AddLine | common/arg.cpp:163-179 | One line, kept or broken greedily |
| LineWrap.BreakStrIntoLines | common/arg.cpp:159-184 | The lines of the text, each so treated, in order |
| LineWrapLaws.GreedyIsOptimal | common/arg.cpp:167-178 | The greedy breaking is a breaking, and no breaking of the words has fewer lines |
| LineWrapWords.WordsAreKept | common/arg.cpp:159-184 | The words of the output are those of the text, in order |
| LineWrapWords.EveryLineFits | common/arg.cpp:159-184 | Every line of the output fits the width or is a single word |
| LineWrapWords.FewestLines | common/arg.cpp:163-178 | A line that is too long becomes the fewest lines into which its words can be broken |
| LineWrapMeaning.OutputMeans | common/arg.cpp:159-184 | The output is, for each line of the text in order, the line itself if it is short; otherwise its words on lines that fit or hold one word, each so full that the next word did not fit |
| LineWrapMeaning.JoinedByBlanks | common/arg.cpp:174-174 | The words of a line are joined by one blank |
| GgmlLoader.Hyperparameters.Load | convert_llama_ggml_to_gguf.py:59-73 | The fields read, or the error |
| GgmlLoader.Vocab.Load | convert_llama_ggml_to_gguf.py:84-98 | The items read, with or without scores, or the error |
| GgmlLoader.FileTensor.Load | convert_llama_ggml_to_gguf.py:110-131 | The entry read and how far the cursor moves in 64-bit arithmetic, which may be backwards |
| GgmlLoader.GGMLModel.Load | convert_llama_ggml_to_gguf.py:180-200 | The model's fields after loading, the error raised, or that reading went back |
| GgmlSteps.BackExactly | convert_llama_ggml_to_gguf.py:126-131 | Reading goes back if and only if it comes to a tensor of which start plus computed size is no later than where the tensor begins, or 2^63 or more |
| GgmlLimits.RightSizeGoesBack | convert_llama_ggml_to_gguf.py:126-131 | A tensor whose bytes fit signed 64 bits leads back if and only if its end does not |
| GgmlLimits.BackMeansWrapped | convert_llama_ggml_to_gguf.py:126-131 | Where reading goes back, the bytes of a tensor or the place where they end do not fit signed 64 bits |
| GgmlLimits.HugeGoesBack | convert_llama_ggml_to_gguf.py:126-131 | An entry of 2^31 by 2^30 elements of type F32 that leads back before the beginning of the file |
| GgmlLimits.LongGoesBack | convert_llama_ggml_to_gguf.py:126-131 | An entry of 2^63 - 1 bytes, whose size is right and whose end wraps below zero |
| GgmlLayout.ByteCountExact | convert_llama_ggml_to_gguf.py:126-127 | The computed size is the true one if and only if the bytes of the elements fit signed 64 bits |
| GgmlLayout.TensorsTile | convert_llama_ggml_to_gguf.py:190-194 | Where reading does not go back, each tensor begins where the one before it ends |
| GgmlLayout.TensorPlaced | convert_llama_ggml_to_gguf.py:112-129 | The data of a tensor comes right behind its name or, in GGJT files, at the next multiple of 32 |
| GgmlLayout.DataIncreases | convert_llama_ggml_to_gguf.py:190-194 | Where reading does not go back, the data of a tensor ends before that of every later one begins |
| GgmlRoundTrip.RoundTrip | convert_llama_ggml_to_gguf.py:180-200 | Loading a written file gives back header, hyperparameters, vocabulary and tensor entries, with n_ff the second dimension of the last tensor called `layers.0.feed_forward.w1.weight`; an IndexError if that has fewer than two, and the failed assertion if there is none |
| GgmlRoundTrip.DataBack | convert_llama_ggml_to_gguf.py:110-131 | The bytes at each recovered offset are the data written |
| FormatTables.Headers | convert_llama_ggml_to_gguf.py:145-165 | Which magic numbers and versions are accepted, as what, and how many bytes they take |
| FormatTables.Conversions | convert_llama_ggml_to_gguf.py:167-178 | Which file types are converted from which format and version |
| FormatTables.FileTypes | convert_llama_ggml_to_gguf.py:27-44 | Which numbers are file types |
| FormatTables.HyperFields | convert_llama_ggml_to_gguf.py:59-73 | Each hyperparameter is the number of four bytes in its place |
| FormatTables.Limits | convert_llama_ggml_to_gguf.py:84-120 | Names of 4096 bytes, more than four dimensions and unknown types are refused |
| FormatTables.PlainBlocks | gguf-py/gguf/constants.py:3041-3075 | Elements and bytes of the blocks of plain numbers and the first quantisations |
| FormatTables.KBlocks | gguf-py/gguf/constants.py:3041-3075 | Of the K quantisations and the ternary ones, from their parts |
| FormatTables.IBlocks | gguf-py/gguf/constants.py:3041-3075 | Of the I quantisations |
| FormatTables.OtherBlocks | gguf-py/gguf/constants.py:2899-2931 | No other number is a type |
| FormatTables.ReadsLittleEndian | convert_llama_ggml_to_gguf.py:59-73 | A number of four bytes is the sum of its bytes times powers of 256, the lowest first |
| GgufScan.File.SkipValue | gguf_shape.py:28-45 | The cursor after skipping a value of any type, arrays of arrays included, or the error |
| GgufScan.File.Scan | gguf_shape.py:47-79 | The entries shown, or the error |
| GgufRoundTrip.SkipExact | gguf_shape.py:28-45 | Skipping a value moves over exactly its bytes, however nested |
| FormatTables.Scalars | gguf_shape.py:14-36 | The sizes of the scalar types by their numbers, and the numbers of strings and arrays |
| FormatTables.GgufHeader | gguf_shape.py:49-56 | The header is accepted if and only if it is complete, begins with the magic and has any version but zero; the number of tensors comes first |
| GgufRoundTrip.RoundTrip | gguf_shape.py:47-79 | Scanning a written file shows the name, dimensions and type of every tensor, or of the first whose name decodes to the wanted one, or reports that there is none |
| GgufRoundTrip.WantedFirst | gguf_shape.py:71-79 | What is shown for a name is the first entry with it, and nothing only if there is none |

## Findings

Where the code does not do what its dense, pure or well-formed counterpart does. Each row names the input or the exact condition.

| behaviour | source | lemma |
|---|---|---|
| A factored reshape accepts several -1, and at rank zero any number of elements | convert_lora_to_gguf.py:141-155 | LoraReshape.ReshapeAgrees, LoraLimits.TwoInferred, LoraLimits.RankZeroReshape |
| Two integers for the last two axes leave an axis too many | convert_lora_to_gguf.py:99-113 | LoraGetItem.TupleExact, LoraLimits.BothAxesDropped |
| A slice of a leading axis that A carries in full is not applied to A | convert_lora_to_gguf.py:100-111 | LoraGetItem.TupleExact, LoraLimits.FullAxisCut |
| A single slice of a batch with a broadcast A cuts the broadcast axis | convert_lora_to_gguf.py:73-75 | LoraItem.ItemExact, LoraLimits.BroadcastSliced |
| Concatenating batches with a broadcast A is accepted and loses its meaning | convert_lora_to_gguf.py:211-215 | LoraCat.CatExact, LoraLimits.BroadcastCat |
| An ellipsis becomes as many slices as there are other entries, not as there are axes left | convert_lora_to_gguf.py:83-94 | LoraEllipsisMeaning.EllipsisAgrees, LoraEllipsis.FirstColumnOrRow |
| The assertion on the merge list fails for a token that does not merge to one part, or only through merges that rank no lower | convert_hf_to_gguf.py:1111-1112 | BpeLaws.RecoveredExact, BpeLaws.NotRecovered |
| Partial reasoning is taken back if the tags overlap | common/chat-parser.cpp:148-158 | ReasoningStream.GrowsExactly, ReasoningStream.OverlappingTags |
| A complete string at the root is searched for the empty marker, comes back empty and is called partial | common/chat-parser.cpp:349-360 | JsonConsumption.RootStringExact, JsonConsumption.RootString |
| A key left on the path makes later siblings be treated as if below it, if escapes spell the marker | common/chat-parser.cpp:372-389 | JsonSharedPath.SharedPathExact, JsonConsumption.StalePath |
| The size of a GGML tensor, or the offset behind its data, wraps, and makes the loader read earlier bytes again | convert_llama_ggml_to_gguf.py:126-131 | GgmlLayout.ByteCountExact, GgmlSteps.BackExactly, GgmlLimits.HugeGoesBack, GgmlLimits.LongGoesBack |

## Left out

- Parsing JSON (`common/json-partial.cpp`): the parsed value, its end and its healing are a parameter of `TryConsumeJson`. That only the last key or string has the marker (`MarkerLast`), and that every dump which the clean-up makes has the dump marker where the value has the marker (`Honest`), are therefore assumptions of the theorems that need them.
- The search for regular expressions, tool calls and everything after the reasoning in a chat message.
- The random choice of a healing marker: any decimal number that the input does not contain.
- What the GGML loader does after reading goes back: the model stops there and says where to.
- GGML files of 2^63 bytes or more, whose offsets wrap elsewhere, too.
- LoraCat.CatExact: says nothing where a broadcast A belongs to an empty batch; then the lengths of the first axes can agree by accident, and whether the result is right depends on the elements.
- Indexing with tensors and masks; `stack` and `cat` along another axis than the first, which the code refuses; the checks on data types.
- Dtypes, dtype conversion and floating-point rounding: the elements of tensors are reals, the score of a vocabulary item is its 32 bits.
- Strides and views: a tensor is its shape and its elements in row-major order, so that `view` is `reshape`.
- GgufScan.File.Scan: whether the decoded name is the wanted text is a parameter, so decoding with replacement characters is not modelled; nesting is not bounded by Python's recursion limit; the printed text is not modelled.
- Version 1 of GGUF, whose lengths have 32 bits; the code reads 64 for every version, and so does the model.
- Running out of memory, and numbers of tokens or dimensions too large for the machine.
- The names of vision tensors, the prefixes that the converter strips, and the table behind `map_tensor_name`: a tensor keeps the name it has at convert_hf_to_gguf.py:2350. The layer number is given with the tensor.
- Tensors that `prepare_tensors` drops, quantises or writes to the file (convert_hf_to_gguf.py:441-560); only what `modify_tensors` returns is modelled.
- JSON objects have distinct keys, and a number is kept as the text that is dumped for it; invalid UTF-8, which makes a dump fail, does not occur.
- White space is that of the C locale, and a string is a sequence of bytes.
- Rope factors, quantisation and vocabulary tables, the option table, downloads, and speculative decoding: nothing of these has a property of the kind proved here.
- Writing GGUF from a loaded GGML model.
