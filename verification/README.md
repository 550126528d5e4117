# Proofs about fast forms, streaming output and arrival-order state machines

This project models the following parts of the repository and proves what they promise.

* **Factored weights** (`Tensors`, `Lora`, `LoraIndexing`, `LoraTuples`, `LoraLists`, `LoraEllipsis`, `LoraJoining`,
  `Slices`, `LoraHeads`, `HeadRows`, `RowsMoved`, `LoraAcceptance`). A `LoraTorchTensor` keeps a matrix as two factors and rewrites
  slicing, reshaping, transposing, stacking and concatenation on the factors. `Dense` is the product the factors stand
  for, with leading axes of A broadcast; every operation is shown to commute with it, or the exact condition under
  which it does is given. Composed, the head permutation of Llama and the regrouping of Falcon give on the factors
  what they give on the product.
* **Lossless rearrangements** (`Mxfp4`, `HeadRows`).
* **Collectors** (`Mtp`, `MtpOrder`, `MtpValues`, `ExpertStacks`). Two converters pair weights with scales, join
  projections and stack experts as tensors arrive. Both are shown to succeed exactly for complete sources, with a
  result that does not depend on the order of arrival, but for one case that is given exactly.
* **Byte pair encoding** (`Bpe`) and the **legacy model files** (`Ggml`, `GgmlReading`, `GgmlLayout`, `GgmlCuts`).
* **Base64** (`Base64`, `Base64Groups`): the rolling decoder, also over its own input, against RFC 4648 read as
  strings of bits and as arithmetic.
* **Template comparison** (`Segmentation`, `Affixes`, `DiffSplit`, `DoubleCounting`, `SegmentSplits`).
* **Streaming chat output** (`Json`, `JsonValues`, `Quotes`, `Mapper`, `MapperRuns`, `Answers`, `Gemma`,
  `GemmaReading`, `Streaming`, `Deltas`, `Growth`, `ChatStream`, `GemmaStream`): events or syntax trees become
  argument text, argument text becomes append-only deltas, and a client that applies the deltas has the message.
  `ChatStream` and `GemmaStream` compose the parts from the first event to the last delta.
* **Tool results** (`ToolSort`, `ToolOrder`): the in-place stable sort at scattered positions.

Loops and objects of the sources are methods and classes here, each proved equal to a function of the old state; the
lemmas are about that function. What it computes is also told without it: `Slices`, `RowsMoved`, `MtpValues`, `GgmlReading`,
`Base64Groups`, `SegmentSplits`, `Answers`, `GemmaReading`, `Deltas` and `ToolOrder` state results in terms of the
inputs alone. Tensors whose values do not matter are symbolic, with their shapes; the factored weights use `real`.

`dafny verify dfyconfig.toml` checks the whole project.

## Where the code does not do what is wanted

Each of these is stated as a theorem with the exact condition, or with an input that shows it.

* `calculate_diff_split` can count one segment at both ends. `DoubleCounting.ReconstructsExactly` says when;
  `"<a><b>"` against `"<a><b><b>"` is reported as no difference (`DoubleCounting.MissedDifference`).
* `normalize_quotes_to_json` does not give a prefix when its input is cut inside a single-quoted literal just between
  a backslash and a single quote; `Quotes.CutExactly` shows that this is the only case.
* `compute_diffs` does not replay when content is taken back, when a name or id becomes empty or an earlier call
  changes, nor when reasoning goes on with just the content shown (`Streaming.ReplayExactly`,
  `Streaming.Reclassified`).
* `LoraTorchTensor.__getitem__`: a slice or a list of positions on a leading axis that A really has is applied to B
  only; integers for row and column at once, and several lists where they are accepted, leave an axis too many.
  `LoraLists.FaithfulExactly` says for which tuples the result is right for all factors of the shapes. An ellipsis
  becomes as many full slices as there are other components, rather than missing axes (`LoraEllipsis.EllipsisExactly`;
  `LoraEllipsis.EllipsisOnRows` is an input). Concatenation with a broadcast A fails
  (`LoraJoining.CatTensorsCommutes`), and a rank of 0 hides a wrong number of rows (`Lora.ReshapeExactly`).
* A scale for the output head makes a predictor conversion fail (`MtpOrder.HeadScaleFails`). So does, in every order,
  a group of experts of one shape, not without columns, of which only some have scales (`MtpOrder.MixedGroupFails`).
  Where those without are 17/16 as wide as the others (`MtpOrder.PackedBeside`), such a group is stacked, and comes
  out packed or not depending on the order (`MtpOrder.OrderMattersExactly`; `MtpOrder.MixedGroupPossible` is an
  input).
* `_dequantize_mtp_weight` finds the number of rows and columns that one scale stands for by dividing. The comment at
  convert_hf_to_gguf.py:5193 says that a scale belongs to a tile of 128 by 128; with one for each tile, some rows get
  the scale of another tile unless there is only one, or the number of rows is large enough for their number
  (`MtpValues.BlocksFound`); 130 rows are an input (`MtpValues.WrongBlock`).
* A legacy model file that was cut is loaded without complaint unless the cut is before the first tensor, in the
  numbers at the head of a tensor, or before the tensor that is looked for at the end (`GgmlCuts.CutExactly`). Cuts
  between tensors lose tensors, a cut in a name shortens the name, and every later cut, from the end of the last name
  on, is not noticed at all (`GgmlCuts.UnnoticedExactly`).

## Model

| member | source | states |
|---|---|---|
| Tensors.RavelUnravel | convert_lora_to_gguf.py:128-152 | Row-major positions and multi-indices determine each other, which is what reshaping relies on |
| Tensors.WildcardFilled | convert_lora_to_gguf.py:137-142 | A single -1 in a new shape is filled in if and only if the other sizes are positive and that can keep the number of elements, and by the size that does; a shape without one is taken as it is |
| Tensors.AxesMove | convert_lora_to_gguf.py:160-171 | Permuting the axes of a tensor makes axis dims[i] of it axis i of the result |
| Lora.Dense | convert_lora_to_gguf.py:119-122 | The product B·A has the advertised shape, and each entry is the sum over the rank of the products of the factor entries, A being broadcast along leading axes of size 1 |
| Lora.ReshapeExactly | convert_lora_to_gguf.py:128-152 | For every accepted reshape, -1 included: the factors have the new shape, the old rank and leading axes of size 1 in A, and their product is the reshaped product if and only if the rank is positive or the sizes agree |
| LoraAcceptance.ReshapeAcceptsExactly | convert_lora_to_gguf.py:128-152 | Which shapes are accepted, for all factors: those that keep the row length and the number of rows where A has only broadcast leading axes, with the exceptions for rank 0 and for no columns; and what the factors are then |
| Lora.PermuteCommutes | convert_lora_to_gguf.py:160-171 | Both supported permutations, of leading axes and the 2-D transpose with its swapped factors, permute the product |
| Lora.TransposeMatrix | convert_lora_to_gguf.py:167-168 | The transpose of a product is the product of the transposes in the other order |
| Lora.TransposeCommutes | convert_lora_to_gguf.py:173-180 | transpose and swapaxes, for axes counted from either end, transpose the product |
| LoraAcceptance.PermuteAcceptsExactly | convert_lora_to_gguf.py:160-171 | A permutation is accepted if and only if it names every axis once, from either end, and leaves the last one in its place with an A that is broadcast, or exchanges the axes of a matrix; the product is then permuted by these axes |
| LoraAcceptance.TransposeAcceptsExactly | convert_lora_to_gguf.py:173-180 | Exchanging two axes is accepted if and only if both are leading ones or the same and A is broadcast, or they are the two of a matrix |
| LoraAcceptance.AxesSwap | convert_lora_to_gguf.py:173-180 | Transposing a tensor exchanges the two axes in its shape and in every index |
| LoraIndexing.SelectCommutes | convert_lora_to_gguf.py:64-110 | Selecting positions on leading axes, rows and columns of the factors selects them in the product |
| LoraIndexing.IndexFirstCommutes | convert_lora_to_gguf.py:64-74 | An integer or slice, stepped or not, for the first axis commutes with the product exactly when A owns the axis, or the slice of the broadcast axis is its one position, or nothing is selected; otherwise no product exists |
| Slices.FirstAcceptsExactly | convert_lora_to_gguf.py:64-74 | It is accepted if and only if it lies in the first axis of both factors; on a matrix it must be a slice, and only B matters |
| LoraLists.TupleCommutes | convert_lora_to_gguf.py:75-110 | An accepted tuple with no integer for the row and at most one list commutes when each leading component is an integer, meets a broadcast axis or keeps the axis as it is, and leaves a product if and only if each leading slice or list of an axis that A owns keeps its length; any other tuple leaves more axes than torch does |
| Slices.TupleAcceptsExactly | convert_lora_to_gguf.py:75-110 | A tuple with at most one list and no integer for the row is accepted if and only if it is not empty, names no more axes than there are, each component lies in its axis, that of A for the columns and of B for the others, the one for the columns is no integer, and A has positions where a leading one is |
| LoraLists.FaithfulExactly | convert_lora_to_gguf.py:75-110 | Any tuple, several lists paired up as torch pairs them, is right for all factors of the given shapes if and only if it is accepted, has no integer for the row and at most one list, leaves a product, and every leading component is harmless or there is no rank or the result is empty |
| LoraTuples.MeaningExactly | convert_lora_to_gguf.py:75-110 | Two tuples give the same for all products of a shape if and only if both are refused, or both select the same shape and, unless that has no elements or there is no rank, read each axis at one fixed position or alike |
| LoraIndexing.IntegerRowNeverRight | convert_lora_to_gguf.py:97-110 | An integer row is accepted only together with an integer column, and then always leaves one axis too many |
| LoraIndexing.IntegerRowAndColumn | convert_lora_to_gguf.py:97-110 | Such an index is really accepted when the leading size equals the rank |
| LoraEllipsis.EllipsisExactly | convert_lora_to_gguf.py:76-110 | For all factors of a shape, an ellipsis on the factors gives what torch gives on the product if and only if indexing by the tuple it is expanded to is right and nothing follows the ellipsis, or twice the number of components is the number of axes, or there are more axes and both readings mean the same; an ellipsis alone is refused |
| LoraEllipsis.EllipsisOfSlices | convert_lora_to_gguf.py:79-91 | With more axes and no integer after it, both readings mean the same if and only if they resolve to the same selection, or to two of one shape without elements |
| LoraEllipsis.EllipsisOnRows | convert_lora_to_gguf.py:77-110 | On any factors of three axes [..., :1] is accepted and takes the first row of each matrix, where torch takes the first column |
| LoraJoining.StackCommutes | convert_lora_to_gguf.py:196-203 | Stacking the factors stacks the products |
| Tensors.StackedAt | convert_lora_to_gguf.py:196-203 | Part i of a stack is tensor i |
| LoraAcceptance.StackAcceptsExactly | convert_lora_to_gguf.py:196-203 | Stacking is accepted if and only if all factors have one shape |
| LoraJoining.CatMatricesCommutes | convert_lora_to_gguf.py:213-217 | Concatenating any number of matrices that share A concatenates the products and keeps A |
| LoraJoining.CatTensorsCommutes | convert_lora_to_gguf.py:208-212 | Concatenating higher tensors leaves a product if and only if the sizes of A along the axis joined add up to 1 or to those of B; it is the concatenation of the products when no A is broadcast there, and with two or more tensors, none empty, there is no product otherwise |
| LoraAcceptance.CatAcceptsExactly | convert_lora_to_gguf.py:204-219 | Concatenating is accepted if and only if matrices share A, and higher tensors are alike in all axes but the first |
| Tensors.CatReads | convert_lora_to_gguf.py:204-219 | Row i of tensor k is that row of the concatenation behind all rows of the tensors before it, and their numbers add up |
| Slices.IndexReads | convert_lora_to_gguf.py:64-110 | Indexing a tensor by a tuple as torch does it is accepted if and only if no component is too many and each lies in its axis, lists and integers counted from either end and steps positive; then each kept axis has the size its component leaves, and every entry is the one its components name, all written out |
| Slices.SliceKeeps | convert_hf_to_gguf.py:1486-1497 | A slice keeps, in order, exactly the positions from its first bound on and below its second that are whole steps away, with bounds that count from either end and stop there |
| Slices.Halves | convert_hf_to_gguf.py:1486-1497 | t[:k] has the rows before k and t[k:] the rows from k on |
| Slices.CutAndJoined | convert_hf_to_gguf.py:1486-1497 | Concatenating t[:k] and t[k:] gives t, for every k |
| Slices.FactorsCutAndJoined | convert_lora_to_gguf.py:64-217 | The same for the factors of a matrix, or of a tensor whose A owns the axis, and their two halves are factors of the two halves of the product |
| HeadRows.PermuteHeadsExactly | convert_hf_to_gguf.py:1663-1669 | The head permutation run on the factors leaves factors with a product, which is the permuted product if and only if the rank is positive or torch accepts the product |
| HeadRows.PermutedRows | convert_hf_to_gguf.py:1663-1680 | For tensors of whole heads with any further axes or none, biases included, the permutation moves whole rows by a map with an inverse on all rows |
| HeadRows.HeadRowIs | convert_hf_to_gguf.py:1667-1669 | Rows j and j + half of a head go to rows 2j and 2j + 1 of that head, and back |
| RowsMoved.HeadsInterleaved | convert_hf_to_gguf.py:1663-1669 | The same for the tensor itself: row j of half x of head h goes to row 2j + x of that head, the heads being those of keys and values where their number is given |
| HeadRows.PermuteLossless | convert_hf_to_gguf.py:1663-1680 | The permutation can be undone, and every tensor of whole heads is the permutation of exactly one |
| HeadRows.PermuteHeadsAccepted | convert_hf_to_gguf.py:1663-1669 | torch accepts a tensor of any shape if and only if splitting its rows into heads of two halves keeps the number of elements |
| LoraAcceptance.PermuteHeadsAccepts | convert_hf_to_gguf.py:1663-1669 | Which factors are accepted, of any number of axes: those with as many rows as the split heads and an A with only broadcast leading axes, with the exceptions for rank 0 and for no columns |
| HeadRows.RegroupExactly | convert_hf_to_gguf.py:1409-1418 | The regrouping of a fused query/key/value projection run on the factors leaves factors with a product, which is the regrouped product if and only if the rank is positive or torch accepts the product |
| HeadRows.RegroupedRows | convert_hf_to_gguf.py:1409-1418 | The regrouping moves whole rows by a map with an inverse on all rows |
| HeadRows.FusedHeadIs | convert_hf_to_gguf.py:1412-1418 | Query head a of group k goes to place k·g + a, its key behind all queries and its value behind all keys, and back |
| RowsMoved.GroupsSeparated | convert_hf_to_gguf.py:1400-1418 | The same for the rows of the tensor itself, each of which keeps its place in its head |
| HeadRows.RegroupLossless | convert_hf_to_gguf.py:1409-1418 | The regrouping can be undone, and every such tensor is the regrouping of exactly one |
| LoraAcceptance.RegroupAccepts | convert_hf_to_gguf.py:1409-1418 | Factors of whole groups of heads are never refused |
| Mxfp4.PackLossless | convert_hf_to_gguf.py:5260-5282 | Packing succeeds exactly for whole blocks with one scale each, 17 bytes per block, and unpacking gives weights and scales back |
| Mxfp4.PackOnto | convert_hf_to_gguf.py:5260-5282 | Every matrix of whole packed blocks is the packing of what it unpacks to |
| Mxfp4.ValueMoves | convert_hf_to_gguf.py:5276-5281 | Value i of a block goes from byte i/2 to byte i mod 16 after the scale, in the low nibble for i < 16 and the high one otherwise |
| Bpe.Bpe | convert_hf_to_gguf.py:2223-2238 | The loop terminates with the result of merging the leftmost pair of lowest rank as long as one is ranked below the bound |
| Bpe.FindMin | convert_hf_to_gguf.py:2227-2233 | The scan finds the leftmost pair of lowest rank, or that no pair has one |
| Bpe.KeepsToken | convert_hf_to_gguf.py:2237-2237 | The parts always concatenate to the token |
| Bpe.Exhausted | convert_hf_to_gguf.py:2234-2235 | At the end no two neighbours have a rank below the bound |
| Bpe.Merges | convert_hf_to_gguf.py:2223-2238 | The run is a sequence of merges, each of the leftmost of the neighbours whose concatenation has the lowest rank, a key ranked below the bound, until there are no such neighbours |
| Bpe.PartsKnown | convert_hf_to_gguf.py:2225-2238 | Every part is one byte or a key ranked below the bound |
| Bpe.OwnRankSplits | convert_hf_to_gguf.py:784-790 | Bounded by its own rank, a token of two bytes or more is left in at least two parts |
| Bpe.Resumes | convert_hf_to_gguf.py:2223-2238 | A bounded run continued with a higher bound or none equals the run with that bound from the start |
| Bpe.TwoPartsMerge | convert_hf_to_gguf.py:4792-4800 | When the bounded run leaves two parts, they are a merge that an unbounded run completes to the token |
| Mtp.Converter.ModifyTensors | convert_hf_to_gguf.py:5161-5232 | One arrival changes the dictionaries as `Arrive` says, or fails |
| Mtp.Converter.RecordMtpExpert | convert_hf_to_gguf.py:5234-5258 | A packed expert joins its group; a full group of the right experts, all of one shape, leaves the dictionary as one raw tensor |
| Mtp.Converter.PackMxfp4Blocks | convert_hf_to_gguf.py:5260-5274 | Packing is refused unless weight and scale are matrices that, seen as bytes, have whole blocks and one scale each |
| MtpOrder.PackAsBlocks | convert_hf_to_gguf.py:5260-5282 | It is refused exactly when packing the actual bytes is, and gives the same shape |
| Mtp.Converter.DequantizeMtpWeight | convert_hf_to_gguf.py:5284-5295 | Only a matrix is scaled, and only by a matrix; one without rows or columns is an error |
| MtpValues.ValuesWritten | convert_hf_to_gguf.py:5161-5311 | After a conversion that succeeds: a weight that is no expert and has a scale is written multiplied by its own scale, as floating point numbers, if both are matrices, and else only as such numbers; so is each half of a joined input, and each expert in its slot, packed with its own scale where it has one |
| MtpValues.JoinedColumns | convert_hf_to_gguf.py:5189-5206 | A joined input has the columns of both halves side by side |
| MtpValues.EntriesScaled | convert_hf_to_gguf.py:5284-5295 | Every entry is multiplied by two to the power of one entry of the scale less 127: the one that stands for it when each stands for the least number of rows and columns that will do |
| MtpValues.PowersDouble | convert_hf_to_gguf.py:5288-5289 | The powers of two by which entries are scaled start at 1 and double, in both directions |
| MtpValues.DequantizeAsScaled | convert_hf_to_gguf.py:5284-5295 | The symbolic scaling is refused exactly when that of actual matrices is, and gives the same shape |
| MtpValues.BlocksFound | convert_hf_to_gguf.py:5193-5293 | With one scale for each block of rows or columns, as the comment says of tiles of 128, every one gets the scale of its own block if and only if there is one block, or there are more than one less than a block for each of the blocks |
| MtpValues.WrongBlock | convert_hf_to_gguf.py:5193-5293 | An input where a row gets the scale of another tile of 128: row 65 of 130 |
| Mtp.Converter.GatherExpert | convert_hf_to_gguf.py:5210-5223 | A full group holds every expert once, all of one shape, and is stacked in order, or the conversion fails |
| Mtp.Converter.PrepareTensors | convert_hf_to_gguf.py:5297-5311 | A conversion runs all arrivals and fails if any input, expert or weight is left over |
| MtpOrder.PairStep | convert_hf_to_gguf.py:5170-5188 | A weight is handled exactly when it and its scale have both arrived, joined with its own scale |
| MtpOrder.ExportExactly | convert_hf_to_gguf.py:5161-5311 | A conversion succeeds if and only if the source is complete: scales that go with their weights, projections that can be joined, whole groups of one shape each, counting what has a scale as packed, known names and no scale for the head; then it writes every weight joined with its own scale, expert e in slot e, and nothing else |
| MtpOrder.OrderMattersExactly | convert_hf_to_gguf.py:5161-5258 | All orders of a source give the same result if and only if the source is incomplete, when all fail, or each of its groups has scales for all of its experts or for none |
| MtpOrder.OrderIndependent | convert_hf_to_gguf.py:5161-5258 | Two orders of the same tensors, with each group scaled as a whole or not at all, give the same written and the same raw tensors, or both fail |
| MtpOrder.PermutedSource | convert_hf_to_gguf.py:272-296 | A permutation of the arrivals is the same source |
| MtpOrder.HeadScaleFails | convert_hf_to_gguf.py:5165-5166 | With a scale for the head present every order fails |
| MtpOrder.MixedGroupDependsOnOrder | convert_hf_to_gguf.py:5176-5187 | If a source that is complete in this sense has a group in which some experts have scales and some have none, two orders succeed with different outputs |
| MtpOrder.PackedBeside | convert_hf_to_gguf.py:5257-5282 | Such experts have one shape if and only if the one without a scale has as many rows and 17 columns for each 16 bytes of the other |
| MtpOrder.MixedGroupFails | convert_hf_to_gguf.py:5210-5282 | So with one shape in the source, not without columns, every order fails |
| MtpOrder.MixedGroupPossible | convert_hf_to_gguf.py:5210-5282 | An input with an expert 17/16 as wide, for which the order matters |
| MtpOrder.LastDecides | convert_hf_to_gguf.py:5176-5187 | In a complete source the expert whose weight is the last of all to arrive decides whether its group is packed |
| ExpertStacks.Converter.ModifyTensors | convert_hf_to_gguf.py:2283-2317 | One arrival is kept, passed on, or completes its layer |
| ExpertStacks.Converter.MergeLayer | convert_hf_to_gguf.py:2294-2313 | A full layer gives one stack per projection, experts in order, and keeps only what is not an expert of it; it fails if one is missing or has another shape than the rest |
| ExpertStacks.PrepareTensors | convert_hf_to_gguf.py:2319-2326 | A conversion runs all arrivals and fails if any layer keeps a tensor |
| ExpertStacks.ExportExactly | convert_hf_to_gguf.py:2283-2326 | A conversion succeeds if and only if every layer has all its experts, of one shape for each projection, or none, and no other expert tensor is there; then expert e is in place e of its stack |
| ExpertStacks.OrderIndependent | convert_hf_to_gguf.py:2283-2326 | A permutation of the arrivals gives the same result or fails alike |
| Ggml.GgmlModel.ValidateHeader | convert_llama_ggml_to_gguf.py:145-166 | The three magic numbers, their versions and header lengths, and all errors |
| Ggml.Vocab.Load | convert_llama_ggml_to_gguf.py:84-98 | The items read are appended in order; the result is the number of bytes |
| Ggml.Tensor.Load | convert_llama_ggml_to_gguf.py:110-131 | Name, dimensions, type and data range of one tensor, with the length limits and the padding |
| Ggml.GgmlModel.Load | convert_llama_ggml_to_gguf.py:180-200 | A whole file, with the map from each name to its last position |
| GgmlReading.HeaderRead | convert_llama_ggml_to_gguf.py:145-166 | A header is accepted, as a format with its version and length, if and only if the file begins with the characters and the number of that format |
| GgmlReading.EligibleExactly | convert_llama_ggml_to_gguf.py:168-178 | Which file types are understood in which format and version |
| GgmlReading.TensorRead | convert_llama_ggml_to_gguf.py:110-131 | A tensor is accepted if and only if its numbers are there and small enough and its type is known; its sizes and name are the bytes of the file, its data start at the next multiple of 32 where padding is used, and have the bytes of as many blocks as its elements fill |
| GgmlReading.ModelRead | convert_llama_ggml_to_gguf.py:45-200 | A file loads, and as a given model, if and only if its bytes say so: header, seven numbers with a known file type that the format understands, each item and each tensor where the one before it ends, up to the end of the file, and the last tensor of the name looked for with two sizes |
| GgmlLayout.LoadsWritten | convert_llama_ggml_to_gguf.py:145-200 | Loading a file written by an independent writer for any of the three formats gives back every item and tensor, data included, and stops at the end of the file |
| GgmlLayout.LoadedRanges | convert_llama_ggml_to_gguf.py:110-131 | In any file that loads, ranges follow each other with at least 12 bytes of header for each and are 32-byte aligned where padding is used |
| GgmlLayout.RangesApart | convert_llama_ggml_to_gguf.py:110-131 | The data ranges of any two tensors are ascending and at least 12 bytes apart |
| GgmlCuts.CutExactly | convert_llama_ggml_to_gguf.py:110-200 | What loading does with the first n bytes of a written file, for every n: refused, or loaded with exactly the tensors that are left and the end of the scan |
| GgmlCuts.CutInside | convert_llama_ggml_to_gguf.py:110-131 | A cut in tensor j keeps all tensors before it and, once its numbers are whole, tensor j with what is left of its name and its full data range |
| GgmlCuts.UnnoticedExactly | convert_llama_ggml_to_gguf.py:110-131 | A cut file loads as the whole one if and only if the cut is not before the end of the name of the last tensor |
| GgmlCuts.StopsExactly | convert_llama_ggml_to_gguf.py:189-200 | The scan of a cut that loads stops at the end of what is left if and only if the cut is between two tensors |
| Base64.Encode | common/base64.hpp:80-144 | The written characters are the encoding of the bytes in the alphabet, and nothing else of the buffer changes |
| Base64.Decode | common/base64.hpp:200-244 | Success and written bytes are those of the specification, also when the output is the input |
| Base64.DecodeInPlace | common/base64.hpp:294-313 | Decoding a buffer onto itself accepts and gives what decoding into a fresh one does, the rest of the buffer unchanged |
| Base64.CheckPadding | common/base64.hpp:231-241 | The second loop accepts only padding |
| Base64.EncodedSize | common/base64.hpp:338-341 | The encoded length is the required size |
| Base64.DecodedSize | common/base64.hpp:324-327 | The decoded length is 6/8 of the data characters and never above the maximum size |
| Base64Groups.RoomAsked | common/base64.hpp:324-341 | Both sizes are those of the fewest whole groups that hold the text and the bytes |
| Base64.AutoIsUnion | common/base64.hpp:344-389 | Automatic detection accepts what one of the two alphabets accepts, with the same bytes, in both padding modes |
| Base64.DecodeEncoded | common/base64.hpp:80-244 | Decoding undoes encoding for all bytes, both alphabets, detection and both padding modes |
| Base64.EncodeDecoded | common/base64.hpp:80-244 | Encoding undoes decoding if and only if the text is padded to quartets with no data bit lost |
| Base64.CanonicalRoundTrip | common/base64.hpp:80-244 | For every such text the bytes read from it encode to it |
| Base64.EncodedIsCanonical | common/base64.hpp:80-144 | Every output of the encoder is such a text |
| Base64Groups.EncodedAt | common/base64.hpp:80-144 | Every character of an encoded text by division of the bytes it comes from, the padding characters and the length included |
| Base64Groups.DecodedAt | common/base64.hpp:200-244 | A text is accepted if and only if the characters before the first padding character stand for values of the alphabet and, unless the decoder is loose, only padding follows; every byte then comes by arithmetic from those values |
| Segmentation.SegmentizeMarkers | common/chat-auto-parser-helpers.cpp:269-299 | The scanning loop gives the segments of the specification |
| Segmentation.SegmentsFaithful | common/chat-auto-parser-helpers.cpp:269-299 | Segments concatenate to the text; none is empty, markers end at their first closer, only the last text may hold an opener, and then an unclosed one |
| Segmentation.SegmentsUnique | common/chat-auto-parser-helpers.cpp:269-299 | There is no other such cut of a text |
| Segmentation.SegmentsWritten | common/chat-auto-parser-helpers.cpp:269-299 | A list is that of the segments of a text if and only if it makes up the text and consists of markers in angle or square brackets up to their first closer, text without openers up to the next marker, and at most at the end a marker that is never closed |
| Segmentation.MarkerAlone | common/chat-auto-parser-helpers.cpp:269-299 | Segmenting a marker again gives that marker alone |
| Affixes.CommonPrefixLen | common/chat-auto-parser-helpers.cpp:69-76 | The length of the longest common prefix |
| Affixes.CommonSuffixLen | common/chat-auto-parser-helpers.cpp:78-85 | The length of the longest common suffix |
| Affixes.UntilCommonPrefix | common/chat-auto-parser-helpers.cpp:210-235 | What precedes the first occurrence of the common prefix, with the empty and not-found cases |
| Affixes.AfterCommonSuffix | common/chat-auto-parser-helpers.cpp:237-264 | What follows the last occurrence of the common suffix, with the empty and not-found cases |
| Affixes.BeforeCuts | common/chat-auto-parser-helpers.cpp:210-235 | The same written out: full up to the first place where the longest common start begins, and nothing if there is none |
| Affixes.AfterCuts | common/chat-auto-parser-helpers.cpp:237-264 | full from the last place on where the longest common end does, and nothing if there is none |
| Affixes.AfterMirrorsBefore | common/chat-auto-parser-helpers.cpp:210-264 | The second function is the first one on reversed strings, in all cases |
| DiffSplit.MatchLoop | common/chat-auto-parser-helpers.cpp:110-139 | The loop over four iterators and two flags terminates with what matching at both ends gives |
| DiffSplit.CalculateDiffSplit | common/chat-auto-parser-helpers.cpp:87-207 | Loop, late fixes, trimming and rotation compute the specified split |
| DiffSplit.UnusedReconstructs | common/chat-auto-parser-helpers.cpp:87-207 | Prefix, difference and suffix make up both texts whenever the loop ends with both flags false |
| DoubleCounting.LoopUses | common/chat-auto-parser-helpers.cpp:110-139 | The flags and what is left at the end of the loop, in closed form |
| DoubleCounting.ReconstructsExactly | common/chat-auto-parser-helpers.cpp:87-207 | The split makes up both texts if and only if no segment is counted at both ends, by a condition on the two segment lists |
| DoubleCounting.DistinctReconstructs | common/chat-auto-parser-helpers.cpp:87-207 | It does whenever no text repeats a segment |
| DoubleCounting.EqualTexts | common/chat-auto-parser-helpers.cpp:87-207 | Equal texts are reported as no difference, all of it prefix |
| DoubleCounting.PlainTexts | common/chat-auto-parser-helpers.cpp:166-195 | Texts without markers are made up exactly, and the two differences share neither first nor last character |
| DoubleCounting.MissedDifference | common/chat-auto-parser-helpers.cpp:127-165 | Two different texts are reported as no difference |
| SegmentSplits.DifferenceShown | common/chat-auto-parser-helpers.cpp:87-207 | Where the segments of two texts come apart at both ends, the split written out: what lies between, without the longest common end where the last segments are text and then the longest common start where the first ones are; or all of left as prefix, where nothing of it is left and right starts with it |
| SegmentSplits.NothingShown | common/chat-auto-parser-helpers.cpp:141-182 | Where they do not come apart, nothing is shown of a side that has no more segments than the other |
| SegmentSplits.BordersDiffer | common/chat-auto-parser-helpers.cpp:168-184 | For all texts: two differences that are not empty do not begin alike where the first segments left are text, nor end alike where the last ones are |
| Json.JsonBraceDepth | common/chat-peg-parser.cpp:41-67 | The loop counts unclosed braces outside strings |
| Json.EscapeConcat | common/chat-peg-parser.cpp:70-76 | Escaping a text piece by piece is escaping it whole |
| Json.EscapedShortest | vendor/nlohmann/json.hpp:19112-19226 | Quotes, backslashes and control characters are escaped, each in the shortest way a reader accepts, and no other character is |
| Json.ReadEscapedText | vendor/nlohmann/json.hpp:19112-19226 | A reader of JSON strings reads every escaped text back, control characters included |
| Json.ScanDump | common/chat-peg-parser.cpp:41-76 | A written string leaves the brace counter where it was, whatever it holds |
| Quotes.NormalizeQuotesToJson | common/chat-peg-parser.cpp:106-183 | The flag-driven loop computes the specified conversion |
| Quotes.MeaningKept | common/chat-peg-parser.cpp:106-183 | Every literal keeps its characters and text outside literals is unchanged, also from inside a literal |
| Quotes.UnchangedExactly | common/chat-peg-parser.cpp:106-183 | The text is unchanged if and only if no single quote lies outside a double-quoted literal |
| Quotes.Idempotent | common/chat-peg-parser.cpp:106-183 | Converting twice is converting once |
| Quotes.DepthKept | common/chat-peg-parser.cpp:41-183 | The brace depth of the output is that of the input outside its literals |
| Quotes.ScanIsLex | common/chat-peg-parser.cpp:41-67 | The brace counter of any text counts the braces that a reader of its literals sees outside them |
| Quotes.CutExactly | common/chat-peg-parser.cpp:106-183 | The conversion of a beginning is a beginning of the conversion, except exactly for a cut in an escaped single quote of a single-quoted literal |
| Mapper.ChatMapper.Map | common/chat-peg-parser.cpp:304-449 | One event changes the fields as `Step` says |
| Mapper.ChatMapper.MapTool | common/chat-peg-parser.cpp:339-448 | The events of the call being built |
| Mapper.ChatMapper.MapName | common/chat-peg-parser.cpp:347-362 | The name moves the buffered arguments into the call and the call into the result |
| Mapper.ChatMapper.MapValue | common/chat-peg-parser.cpp:392-417 | A value is trimmed, quoted, escaped or normalised by its kind |
| Mapper.ChatMapper.MapClose | common/chat-peg-parser.cpp:426-448 | Closing flushes the buffer, the quote and the braces, and drops a nameless call |
| Mapper.ChatMapper.FromAst | common/chat-peg-parser.cpp:244-273 | All events in order, then the flush and the cleaning of blank reasoning |
| MapperRuns.CallPrinted | common/chat-peg-parser.cpp:304-449 | Wherever the name comes between open and close, and after any earlier run, the call added is exactly the object of all its arguments, and its brace depth is 0 |
| MapperRuns.NameAnywhere | common/chat-peg-parser.cpp:236-238 | The place of the name among the argument events does not matter |
| MapperRuns.ObjectDepth | common/chat-peg-parser.cpp:437-440 | Before the close one brace is open, after it none |
| MapperRuns.ObjectReadsBack | common/chat-peg-parser.cpp:377-449 | A JSON reader reads the printed object back as the names and values that were meant, strings whatever they hold, other values where they are one token |
| MapperRuns.VisibleWhole | common/chat-peg-parser.cpp:304-449 | At every moment of the call the visible arguments are a prefix of the final ones |
| MapperRuns.VisibleInValue | common/chat-peg-parser.cpp:392-417 | Also with a string value cut anywhere |
| MapperRuns.VisibleGrows | common/chat-peg-parser.cpp:304-449 | Between any two moments the earlier arguments are a prefix of the later ones, so their delta exists and gives them |
| MapperRuns.FlushAddsNothing | common/chat-peg-parser.cpp:246-257 | The flush after the last event never adds a call |
| Answers.PartsCall | common/chat-peg-parser.cpp:339-448 | After any earlier run, name, id and arguments of a call in any order and number add one call with the last of each: the name without white space at its end, the id also without its quotes, and the object given with a closing brace for each that is open; without a name there is no call |
| Answers.AnswerRead | common/chat-peg-parser.cpp:244-449 | The message of a whole answer: its content is all that was said, its reasoning all that was thought unless that is blank, and it has one call for each that was made, with all of its arguments as one object or the object given |
| Answers.ClosedInValue | common/chat-peg-parser.cpp:426-448 | A call that is closed in the middle of a string value is the call that ends with the value as far as it came |
| Answers.PiecedValue | common/chat-peg-parser.cpp:392-424 | A string value that comes in pieces is shown as the JSON string of all of them, each trimmed, if and only if none after the first is blank; a blank one prints a quote in the middle |
| Answers.ArgumentTexts | common/chat-peg-parser.cpp:11-37 | How much white space names and values of arguments lose, and that a value with brackets keeps its meaning |
| Answers.EndsOnce | common/chat-peg-parser.cpp:11-21 | There is only one text without the white space at the end of another |
| Gemma.TreeGrows | common/chat-peg-parser.cpp:940-1033 | If a tree grows along its right-most partial nodes, its text is a prefix of the later text |
| Gemma.DeltaExists | common/chat.cpp:57-70 | So the argument delta between the two never fails, and completes the text |
| GemmaStream.Gemma4Mapper.VisitNode | common/chat-peg-parser.cpp:1035-1073 | A walk over a tree adds its texts and calls to the result as `Visit` says |
| GemmaStream.FindGrows | common/peg-parser.cpp:259-273 | The node found by a tag stays the first one, and only grows |
| GemmaStream.AllTreesLengthen | common/chat-peg-parser.cpp:934-1073 | If the trees of a parse grow, texts, calls and arguments that were shown are never taken back |
| GemmaStream.TreesReplay | common/chat.cpp:156-241 | So the deltas between two such moments exist, and a client that applies them has the later message if and only if reasoning does not go on with just the content shown |
| GemmaStream.TreesStream | examples/server/server-context.cpp:758-772 | A slot updated at any moments of a Gemma parse never fails and the client ends with the last message, ids aside, unless between two updates reasoning goes on with just the content shown |
| Gemma.Prints | common/chat-peg-parser.cpp:940-1033 | A complete tree prints the JSON of the value it denotes |
| JsonValues.ReadsBack | common/chat-peg-parser.cpp:940-1033 | Printed values are read back as themselves |
| Gemma.CompleteReadsBack | common/chat.cpp:1154-1184 | The text of a complete tree of the grammar is read as the value it denotes, to its end |
| GemmaReading.FindsFirst | common/peg-parser.cpp:259-273 | A tag is found at the first node that has it, in the order of the text and down to the given depth |
| GemmaReading.MessageShown | common/chat-peg-parser.cpp:1035-1073 | The message of a parse: the texts of the outermost content nodes, those of the reasoning nodes, and one call for each tool node with a whole name and arguments |
| GemmaReading.ClosersLack | common/chat-peg-parser.cpp:940-1033 | The text of a tree that is still parsed lacks nothing but the closing characters of its unfinished nodes, from the inside out |
| GemmaReading.ClosedReadsBack | common/chat-peg-parser.cpp:940-1033 | So closed it is read as the value that the tree would stand for if it were complete |
| Streaming.StringDiff | common/chat.cpp:57-70 | Fails exactly when neither text is a prefix of the other; otherwise completes the shorter to the longer |
| Streaming.ComputeDiffs | common/chat.cpp:156-241 | The deltas of the specification, in order, or the first error |
| Streaming.ReplayExactly | common/chat.cpp:156-241 | The deltas exist and a client that applies them gets the new message if and only if the new one extends the old one in the stated way |
| Streaming.RaisesExactly | common/chat.cpp:156-241 | Which pairs of messages raise an error |
| Streaming.Reclassified | common/chat.cpp:165-184 | Content taken back into the reasoning is not sent again, and stays in the client's content |
| Streaming.GrowsExtends | tests/test-chat.cpp:1035-1071 | Growth as in parsing a longer and longer text is such an extension |
| Deltas.DeltasSent | common/chat.cpp:156-241 | The deltas to a message that extends the one before, written out: only what is new, nothing empty and nothing twice |
| Streaming.ChainReplays | tests/test-chat.cpp:1035-1071 | Along any chain no delta fails, and all deltas applied to the first message give the last |
| Streaming.Slot.SetToolCallIds | common/chat.h:106-118 | The cache only grows, by the first id seen or a generated one, and the calls carry the cached ids |
| Streaming.Slot.UpdateChatMsg | examples/server/server-context.cpp:758-772 | One update of a slot: an empty message is ignored, another one is given ids and compared |
| Streaming.StepExactly | examples/server/server-context.cpp:758-772 | An update replays if and only if the parsed message extends the shown one, whatever ids it came with |
| Streaming.RunReplays | examples/server/server-context.cpp:758-772 | Over a whole run the deltas give the last message, and no assigned id ever changes |
| Deltas.FirstIdStays | common/chat.h:106-118 | In a whole run a call has the id it came with in the first message that had it, or the one generated then |
| ChatStream.ShownGrows | common/chat-peg-parser.cpp:244-449 | What is shown at one moment of a run of events, with any number of calls, reasoning and content, is never taken back at a later one, also where a moment cuts a text, a call's name, a string value or a whole object of arguments |
| ChatStream.ShownReplays | common/chat.cpp:156-241 | So between any two moments the deltas exist, and a client that applies them has the later message if and only if reasoning does not go on with just the content shown, which it never does when it comes first |
| ChatStream.AnswerOrderly | common/chat-peg-parser.cpp:304-449 | The events of any answer, with reasoning and content in any order and any calls of both forms, make such a run |
| ChatStream.AnswerStreams | examples/server/server-context.cpp:758-772 | A slot updated at any moments of such an answer never fails, and the client ends with what is shown at the last moment, ids aside, which come from the slot; unless between two updates reasoning goes on with just the content shown |
| ChatStream.OrderlyAllowed | common/chat-peg-parser.cpp:441-448 | No event of an ordered run touches a call that was discarded without a name |
| ToolSort.SortToolResults | common/chat.cpp:1802-1862 | The loops over positions compute the sort of each run by the call order in force |
| ToolSort.RecordCalls | common/chat.cpp:1812-1819 | The order of the ids of the last calls, the last position of each |
| ToolSort.RunsSorted | common/chat.cpp:1824-1858 | Every maximal run of user and tool messages comes out sorted by the last call order before it |
| ToolOrder.ResultsInCallOrder | common/chat.cpp:1802-1862 | In every run of user and tool messages of the result the tool messages come in the order of the places that their ids have among the last calls before the run, the last place of an id counting and 0 for an unknown one, and those with equal places in the order in which they came |
| ToolSort.SortRunSorts | common/chat.cpp:1840-1856 | Sorting a run keeps its messages and roles, moves only tool messages and sorts those stably |
| ToolSort.Permutes | common/chat.cpp:1802-1862 | The output is a permutation of the input in which only tool messages move |
| ToolSort.Idempotent | common/chat.cpp:1802-1862 | Sorting twice is sorting once |
| ToolSort.GuardIrrelevant | common/chat.cpp:1840-1840 | The guard on the number of results and the known calls changes nothing |
| ToolSort.SortSorts | common/chat.cpp:1846-1852 | The sort is ascending, a permutation and stable |
| ToolSort.SortUnique | common/chat.cpp:1846-1852 | There is only one ascending stable rearrangement |

## Left out

- LoraEllipsis.EllipsisOfSlices: the closed form is for components without integers after the ellipsis; LoraEllipsis.EllipsisExactly has no such condition.
- LoraJoining.CatTensorsCommutes: that the product left is the right one is stated where no A is broadcast, not for the few concatenations with empty tensors where the sizes of A happen to add up.
- Tensors.Resolve: slices with a negative step, or a step of 0, are refused, as torch refuses them.
- LoraAcceptance.RegroupAccepts: one direction only, for a number of heads that is a multiple of the number of key and value heads.
- Lora.Dense: element types, casts between them and rounding; entries are real numbers. Lazy evaluation is not modelled.
- Mtp.Converter.ModifyTensors: names are structured keys instead of strings matched by regular expressions; dequantisation, packing, casts, squeezing and stacking are symbolic but for shapes, and for the values in MtpValues and Mxfp4; lazily evaluated tensors stand for their values, and a projection that is an empty vector, which torch may skip when it joins, counts as not fit to be joined. The mapped names of different tensors are taken to be different.
- MtpOrder.ExportExactly: every name arrives once, as in the reader of the files.
- MtpValues.EntriesScaled: entries are real numbers, without rounding or overflow.
- MtpValues.ValuesWritten: what is written in a conversion that succeeds; when it does is MtpOrder.ExportExactly.
- ExpertStacks.Converter.ModifyTensors: names are structured keys instead of strings; of a tensor only its shape and identity are modelled.
- ExpertStacks.ExportExactly: every name arrives once; the names of merged tensors always map, and different plain names map to different tensors.
- Bpe.Bpe: the vocabulary is any map from byte strings to integers; how it is read is not modelled.
- Ggml.Tensor.Load: the table of block sizes is a parameter. Sizes that wrap around in 64 bits in the source are an error here.
- Ggml.Vocab.Load: scores are kept as their bits; decoding of item texts is not modelled. Records are stored as values, so aliasing of items and tensors is not seen.
- GgmlCuts.CutExactly: for files that the writer of GgmlLayout makes, with at least the tensor of the first layer that loading looks for.
- GgmlLayout.LoadsWritten: names may repeat in a file; the records are kept in order and the name map keeps the last of each.
- Base64.Decode: what a failed decode leaves in the output buffer is not specified.
- Json.ReadEscapedText: strings are characters, not bytes; the error of the library for invalid UTF-8 is not modelled.
- Quotes.CutExactly: growth of a container value that is not a string is not monotone in that one case; MapperRuns.VisibleInValue is therefore about string values.
- Mapper.ChatMapper.Map: a call that was closed without a name must not be touched before the next one opens, since the source then uses an object that has been reset, which has no defined result; ChatStream.OrderlyAllowed shows that ordered runs do not do this. The mapper for Minimax-M3 is not modelled.
- Mapper.ChatMapper.FromAst: the same condition along the whole run.
- MapperRuns.CallPrinted: names of calls are not empty, and values that are not strings must leave no string and no brace open.
- GemmaStream.TreesStream: that a longer beginning of an output gives trees that the earlier ones grow into is a property of the parsing engine and taken as given.
- GemmaReading.ClosersLack: a complete node has no unfinished child at its end, as in the parsing engine.
- Gemma.Prints: a string node has its content child; keys and values are as the grammar gives them.
- ChatStream.ShownGrows: that the events of a partial parse are the first events of the whole parse, the last one cut, is a property of the parsing engine and taken as given. Ids, names of arguments and values that are not strings are shown whole.
- Streaming.ComputeDiffs: roles, content parts and other fields that no delta carries.
- Streaming.Slot.UpdateChatMsg: the branch that filters tool call names, which no caller asks for, and parsing itself. The generator of ids is a function of the position.
- ToolSort.SortToolResults: messages are records with a role, the ids of their calls and one id; malformed messages are not modelled.
- DiffSplit.CalculateDiffSplit: segments are values; the iterators are positions.
- The parsing engine, the template engine, the grammar builder and the JSON library: their results are inputs here.
- Template heuristics, per-model parser builders, tokenizers, hyperparameters, GGUF writing, logging, command lines and the server.
- The expert cache and memory residency described in the repository's README.md: their source is not part of this model.
