# The VP8 bitstream stack, encoder against decoder

This project models the VP8 (RFC 6386) bitstream stack of the Alfalfa codec as two halves that must undo
each other, and proves that they do, for all inputs and, where the two halves do not, exactly when they do.
Around this core it models the pieces on which the encoder's own decisions rest: inter prediction, the
motion search, the Walsh-Hadamard transform, cost and count estimates, and the transport and storage of
frames and decoder states.

## How it is built

- **Printers** are methods that put symbols into a `BoolEncoder` object. Its ghost field `log` lists all
  symbols put so far, and each printer's contract says which symbols it appends; the encoder's own invariant
  ties its register and output octets to the interval that `log` selects.
- **Parsers** are methods that ask a `BoolDecoder` object. Each is proved equal to a function from a decoder
  state to a value and the state left behind, which is total: any data can be parsed.
- **Round trips** connect the two. `Serves(c, syms)` says that a decoder in state `c`, asked with the
  probabilities of `syms`, answers with their bits; a round trip lemma says that a parser served what is
  printed for a value returns that value. Where this holds for some values only, the lemma is an equivalence
  whose right-hand side is a condition on the value. `BoolRoundTrip.EncodeThenDecode` provides the streams,
  `FrameCodec.WholeFrameRoundTrip` puts all layers together, and `Lockstep.Lockstep` lifts the result to runs.
- A round trip cannot see a definition that both halves share. Each of these has a law of its own that says what it
  must be without repeating its expression: the split of the interval (`BoolCoding.HalvesAreFractions`), the rounding
  of the filters and transforms (`InterPrediction.RoundsToNearest`, `WalshHadamard.WhtIsRounded`), the dealing of rows
  (`FrameTokens.PartitionIsEveryNth`), the neighbours of blocks (`FrameTokens.LumaNeighbours`), the votes of the census
  (`InterModes.VoteOf`), the reference buffers (`DecoderStates.CopyToPlaces`), and others.
- Integers are unbounded with explicit ranges. `uint32_t` registers are reduced modulo 2^32 where the source
  relies on it, 16-bit vectors and coefficients wrap around through `Wrap16`, and `char` is signed.

| files | component |
|---|---|
| BoolCoding, BoolEncoder, BoolDecoder, BoolRoundTrip | Boolean entropy coder (section 7) |
| TreeCoder, CodingTrees | trees (section 8.1) |
| Tokens, TokenCoder, TokenBlocks, MacroblockTokens, TokenWriter, FrameTokens, FrameTokenCoder | DCT tokens and partitions (sections 13 and 9.5) |
| MotionVectors, MotionCensus, Modes, IntraModes, InterModes, InterModeCoder, MacroblockHeaders | vectors, modes and macroblock headers (sections 16 and 17) |
| HeaderFields, FrameHeaders, HeaderCoder, Container, ProbabilityTables, FrameCodec, FrameCoder | headers, container and whole frames (sections 9 and 19) |
| DecoderStates, Lockstep, Machines, SegmentedFrames | encoder and decoder as state machines |
| InterPrediction, InterPredictor, SafeRasters, MotionSearch | inter prediction and the motion search |
| WalshHadamard | transform |
| TreeCosts, TokenCosts, TokenCounts, MacroblockCounts | cost and count models |
| Packets, Fragments, Reassembly | transport |
| StateSerialization, StateWriter, StateReader | saving and restoring |
| Wrappers, Grids | helpers |

## What the proofs turned up

- With segmentation the encoder and the decoder can part. The encoder follows only those changes to the
  segmentation that a key frame makes, and records no segments, so the states can differ
  (`SegmentedFrames.SegmentationParts`). Even where they agree the pixels can differ, since the encoder
  reconstructs with the segments that macroblocks have cached, which a frame made anew has not taken from the map
  (`SegmentedFrames.CachedSegmentsPart`). They never part exactly as long as the condition in
  `Lockstep.Lockstep` holds; frames can be parsed in any case (`Lockstep.TablesNeverPart`).
- The branch counts of a macroblock leave out its Y2 block and include blocks of skipped macroblocks, for which
  nothing is emitted; they match the emitted bits only without either (`MacroblockCounts.CountsMatch`).
- The new vector of the motion search is added to the clamped prediction without being clamped. Up to 248
  macroblocks per side its reads stay inside the margin of 256; on any longer side there is a run of macroblocks
  that leads to a sum that wraps around (`MotionSearch.NewMvReadsInMargin`, `MotionSearch.MarginIffSides`).
- The bound under which the transform neither overflows nor errs by more than one is 2047, more than the
  2040 that residues reach (`WalshHadamard.WhtNearInverse`, `WalshHadamard.LimitIsTight`).
- A saved decoder forgets two of its references (`StateSerialization.RestoredIffCoinciding`).

## Model

| member | source | states |
|---|---|---|
| BoolEncoding.NormIsDoublings | src/encoder/bool_encoder.hh:39-56 | each entry of the renormalisation table is the number of doublings that bring the range back to at least 128 |
| BoolCoding.HalvesAreFractions | src/encoder/bool_encoder.hh:112-123 | a false symbol takes the low part of the interval and a true one the rest; the width of the low part is the one number w with 256 (w - 1) <= (range - 1) prob < 256 w |
| BoolCoding.LikelierIsShorter | src/encoder/bool_encoder.hh:110-143 | the more probable a symbol is said to be, the fewer bits it takes |
| BoolEncoding.CarriedAddsOne | src/encoder/bool_encoder.hh:68-76 | rewriting the trailing 255s and incrementing the octet before them adds exactly one to the number the output stands for, and keeps its length |
| BoolEncoding.CarryIsSafe | src/encoder/bool_encoder.hh:68-76 | in every state an encoder can be in, a pending carry finds an octet other than 255 to stop at, so the rewrite never runs off the front and never meets an empty output |
| BoolEncoding.FullCarryIsSafe | src/encoder/bool_encoder.hh:127-132 | the same for the carry that arises in the step being taken |
| BoolEncoding.RegisterBounds | src/encoder/bool_encoder.hh:65-66 | output, bottom and bit count together are the low end of the interval; at most one carry is pending and bottom stays below 2^32 |
| BoolEncoding.EmissionIsAcross | src/encoder/bool_encoder.hh:127-142 | the statements that emit an octet leave exactly the interval shifted by the renormalisation |
| BoolEncoding.BoolEncoder.AddOneToOutput | src/encoder/bool_encoder.hh:68-76 | the loop that walks back over 255s computes the carried output |
| BoolEncoding.BoolEncoder.Put | src/encoder/bool_encoder.hh:110-143 | the register keeps holding the interval of all symbols put so far, the new one included; an emission or a false bit leaves no carry pending |
| BoolEncoding.FlushShifts | src/encoder/bool_encoder.hh:78-82 | n flush symbols shift at least n - 1 times and change the interval in no other way |
| BoolEncoding.FlushIsExact | src/encoder/bool_encoder.hh:78-82 | after the flush all pending bits are zero, so the octets continued by zeros are exactly the low end of the interval, and there is at least one octet |
| BoolEncoding.BoolEncoder.Flush | src/encoder/bool_encoder.hh:78-82 | 32 false symbols are put; no carry is left pending and something has been emitted |
| BoolEncoding.BoolEncoder.Finish | src/encoder/bool_encoder.hh:145-151 | the octets returned are a function of the symbols alone, and the encoder is as new |
| BoolEncoding.FinishedInside | src/encoder/bool_encoder.hh:145-151 | the octets lie in the interval of the symbols |
| BoolDecoding.BoolDecoder.constructor | src/decoder/bool_decoder.hh:68-79 | two octets are loaded, zeros where there are none |
| BoolDecoding.BoolDecoder.LoadOctet | src/decoder/bool_decoder.hh:56-65 | an octet is or-ed into low bits that are zero, or nothing is once the data has run out |
| BoolDecoding.BoolDecoder.Get | src/decoder/bool_decoder.hh:82-107 | the loop computes the answer and the state that the decoder function gives |
| BoolDecoding.AnswerIsComparison | src/decoder/bool_decoder.hh:82-107 | the answer is true if and only if the upper octets of the window, as a fraction of the range, exceed the probability of a false symbol |
| BoolDecoding.NextInStep | src/decoder/bool_decoder.hh:82-107 | an answer says which half of the interval the data lies in, and the window then holds the data's distance from the low end of that half |
| BoolDecoding.ServesIffInside | src/decoder/bool_decoder.hh:56-107 | on any data, a decoder answers with exactly those symbol sequences whose interval the data lies in |
| BoolRoundTrip.EncodeThenDecode | src/encoder/bool_encoder.hh:145-151 | for every sequence of bits and probabilities 0 to 255, a decoder over the finished octets returns exactly those bits |
| BoolRoundTrip.ServedIsUnique | src/decoder/bool_decoder.hh:82-107 | two sequences with the same probabilities that a decoder answers with are the same |
| BoolRoundTrip.Encode | src/encoder/bool_encoder.hh:110-151 | putting a sequence one symbol at a time and finishing gives the octets of that sequence |
| BoolRoundTrip.RoundTrip | src/encoder/bool_encoder.hh:110-151 | encoder and decoder objects run one after the other return the bits that were put |
| TreeCoder.WalkInvertsPath | src/decoder/tree.cc:35-57 | for every well-formed tree, stream and leaf value, the walk returns the value if and only if the stream holds the path that is printed for it, and consumes just that; whatever the stream, a leaf is returned |
| TreeCoder.WalkIsServed | src/decoder/tree.cc:35-57 | a walk from any pair ends at a leaf below it, having read that leaf's path |
| TreeCoder.PathIsWalked | src/decoder/tree.cc:35-57 | entered at a pair other than the root, the walk reads the path from there |
| TreeCoder.ReverseTree | src/encoder/encode_tree.cc:40-44 | the reversed array maps each entry of the tree back to its index |
| TreeCoder.FindPath | src/encoder/encode_tree.cc:46-54 | the climb from leaf to root records the path backwards |
| TreeCoder.EncodeTree | src/encoder/encode_tree.cc:35-60 | the bits that are put are the path from the root to the value |
| TreeCoder.DecodeTree | src/decoder/tree.cc:35-57 | the loop terminates and returns what the walk returns |
| CodingTrees.KeyModeTree | src/decoder/modemv_data.cc:162-168 | the array is a well-formed tree whose leaves are the five luma modes |
| CodingTrees.ModeTree | src/decoder/modemv_data.cc:170-176 | the same for the luma modes of inter frames |
| CodingTrees.ChromaModeTree | src/decoder/modemv_data.cc:178-183 | the same for the four chroma modes |
| CodingTrees.SubblockModeTree | src/decoder/modemv_data.cc:185-196 | the same for the ten subblock modes |
| CodingTrees.SmallMvTree | src/decoder/modemv_data.cc:198-207 | the same for short magnitudes 0 to 7 |
| CodingTrees.MvRefTree | src/decoder/modemv_data.cc:209-215 | the same for the inter modes |
| CodingTrees.SubMvRefTree | src/decoder/modemv_data.cc:217-222 | the same for the inter modes of subblocks |
| CodingTrees.SplitMvTree | src/decoder/modemv_data.cc:224-229 | the same for the four split schemes |
| CodingTrees.SegmentIdTree | src/decoder/modemv_data.cc:281 | the same for the four segments |
| CodingTrees.CoefTree | src/encoder/costs.cc:38-51 | the token array is a well-formed tree |
| Tokens.TokenRanges | src/decoder/tokens.hh:57-78 | a token and an offset below its category's limit determine the magnitude, and the other way round |
| Tokens.BitsRoundTrip | src/decoder/tokens.cc:37-45 | extra bits read most significant first give back the number, if it fits |
| Tokens.BitsAreDigits | src/encoder/serializer.cc:445-453 | the symbols of a number are its binary digits, the most significant one first |
| Tokens.CoefficientRoundTrip | src/decoder/tokens.cc:64-134 | for every magnitude below 2115, row of probabilities and position in the tree, the token reader inverts the coefficient printer, sign included |
| Tokens.EndOfBlockRoundTrip | src/decoder/tokens.cc:68-74 | an end of block is read back as one |
| Tokens.TokenPath | src/encoder/costs.cc:38-51 | the unfolded sequence of decisions is the path of the token in the tree, entered at index 2 |
| Tokens.RootPath | src/decoder/tokens.cc:68-74 | entered at the root there is one more decision in front |
| TokenCoder.EncodeExtra | src/encoder/serializer.cc:445-453 | the loop puts the offset's bits, most significant first |
| TokenCoder.DecodeExtra | src/decoder/tokens.cc:37-45 | the loop reads the offset and adds the base value |
| TokenCoder.CoefficientUnfolded | src/encoder/serializer.cc:620-728 | the symbols of a coefficient are the unfolded decisions, the extra bits and the sign |
| TokenCoder.PutCoefficient | src/encoder/serializer.cc:620-728 | the cascade of branches puts the path of the token, its extra bits and the sign, and fails exactly on a magnitude of 2115 or more |
| TokenCoder.GetToken | src/decoder/tokens.cc:64-134 | the unfolded branches return what the generic tree walk followed by extra bits and sign returns |
| TokenBlocks.CodedLength | src/encoder/serializer.cc:600-609 | one past the last nonzero coefficient from the first coded position on |
| TokenBlocks.BlockRoundTrip | src/decoder/tokens.cc:50-135 | for every block type, context, table and codable coefficients, the block parser returns the coefficients that were printed, with the implicit end at position 16 and no end-of-block test after a zero |
| TokenBlocks.ZigzagIsInjective | src/decoder/tokens.hh:55 | the zigzag order determines the block |
| TokenBlocks.ZigzagOrder | src/decoder/tokens.hh:55 | the order goes from one antidiagonal to the next, down to the left on odd ones and up to the right on even ones |
| TokenBlocks.ContextIsMagnitude | src/decoder/tokens.cc:76-125 | after a coefficient the context is its magnitude, as far as two |
| TokenBlocks.MergedIntoZeros | src/decoder/tokens.cc:132-133 | parsing into a fresh block leaves exactly the coefficients that are read |
| TokenBlocks.CoefficientBlock.CountTokens | src/encoder/serializer.cc:600-609 | the loop computes the coded length |
| TokenBlocks.CoefficientBlock.SerializeTokens | src/encoder/serializer.cc:595-739 | the loop puts the symbols of the block and fails exactly if a coefficient cannot be coded; the assertion about trailing zeros holds |
| TokenBlocks.CoefficientBlock.ParseTokens | src/decoder/tokens.cc:50-135 | the loop writes the coefficients that the parser function gives and sets the flag if one of them is nonzero |
| TokenBlocks.CoefficientBlock.CalculateHasNonzero | src/decoder/block.hh:229-233 | the flag says whether any coefficient is nonzero |
| MacroblockTokens.ReadTokensConsistent | src/decoder/macroblock.cc:475-502 | whatever is parsed for a macroblock has flags that agree with its coefficients, and a skipped one is zero |
| MacroblockTokens.ContextCounts | src/decoder/tokens.cc:57-59 | the context of a block counts the neighbours that have coefficients |
| MacroblockTokens.PlaneProbs | src/decoder/macroblock.cc:475-502 | which of the four sets of probabilities each plane is coded with |
| MacroblockTokens.PlaneRoundTrip | src/decoder/macroblock.cc:490-501 | the blocks of a plane come back, each in the context of those above and to the left |
| MacroblockTokens.TokensRoundTrip | src/decoder/macroblock.cc:475-502 | the residue of a consistent macroblock comes back, each block in the context of its neighbours |
| TokenWriter.SerializePlane | src/encoder/serializer.cc:440-442 | the loop over the blocks of a plane puts each in its context, or fails on the first that cannot be coded |
| TokenWriter.ParsePlane | src/decoder/macroblock.cc:490-501 | the loop over the blocks of a plane reads each in its context |
| TokenWriter.SerializeMacroblockTokens | src/encoder/serializer.cc:428-443 | Y2, Y, U and V blocks are put in order, nothing for a skipped macroblock |
| TokenWriter.ParseMacroblockTokens | src/decoder/macroblock.cc:475-502 | the same for parsing |
| TokenWriter.CalculateHasNonzero | src/encoder/encoder.cc:631-658 | all flags are recomputed, and the skip flag is set exactly if none is |
| TokenWriter.FlaggedIsConsistent | src/encoder/encoder.cc:631-658 | the flags so computed make any macroblock whose luma DCs are left to Y2 one that comes back unchanged |
| FrameTokenCoder.LinkIsNearest | src/decoder/frame.cc:252-269 | a relinked Y2 context is the nearest coded block above, with none in between |
| FrameTokenCoder.RelinkY2Blocks | src/decoder/frame.cc:252-269 | the pass over all blocks links each to the nearest coded block above and to the left |
| FrameTokenCoder.LinkedIsContext | src/decoder/frame.cc:252-269 | the contexts found through the links are those that the token functions use |
| FrameTokens.TokenGridRoundTrip | src/decoder/frame.cc:121-137 | for any number of partitions dealt out by row, parsing the printed partitions gives back every coefficient and flag if and only if the frame's flags agree with its coefficients and skipped macroblocks are zero |
| FrameTokens.ReadGridConsistent | src/decoder/frame.cc:121-137 | every frame that is parsed is consistent in this sense |
| FrameTokens.ServeRow | src/encoder/serializer.cc:413-419 | a row of macroblocks is served by its own partition and leaves the others alone |
| FrameTokens.DealtInTurn | src/encoder/serializer.cc:413-419 | the first row goes to the first partition, each next row to the next one, starting over after the last |
| FrameTokens.PartitionIsEveryNth | src/encoder/serializer.cc:413-419 | a partition holds the tokens of every count-th row from its own number on, in this order |
| FrameTokens.LumaNeighbours | src/decoder/tokens.cc:58-59 | each luma block of the frame is coded in the context of the blocks above it and to its left in the grid that spans the frame, in whichever macroblock they are |
| FrameTokens.ChromaNeighbours | src/decoder/tokens.cc:58-59 | the same in the grids of both chroma planes |
| FrameTokenCoder.SerializeTokens | src/encoder/serializer.cc:407-426 | each encoder is put the rows of its partition, or the first coefficient too large is found |
| FrameTokenCoder.ParseTokens | src/decoder/frame.cc:121-137 | each decoder is asked for the rows of its partition |
| MotionVectors.MinusPlus | src/decoder/vp8_header_structures.hh:179-196 | subtraction and addition of vectors undo each other, 16-bit wrap-around included |
| MotionVectors.MagnitudeRange | src/decoder/macroblock.cc:198-229 | whatever the data, a decoded magnitude has ten bits |
| MotionVectors.LongOrder | src/encoder/serializer.cc:212-224 | the low three bits of a long magnitude are coded upwards, then the high ones downwards |
| MotionVectors.ComponentRoundTrip | src/decoder/macroblock.cc:198-229 | given what is printed for a component, the reader returns it if and only if it is even and at most 2046 in magnitude; bit 3 is implied for 8 to 15 and zero has no sign |
| MotionVectors.VectorRoundTrip | src/encoder/serializer.cc:239-245 | the same for vectors, y before x |
| MotionVectors.EncodeComponent | src/encoder/serializer.cc:196-237 | the loops put the magnitude in coding order and the sign |
| MotionVectors.DecodeComponent | src/decoder/macroblock.cc:198-229 | the loops read the magnitude in coding order and the sign |
| MotionCensus.Taken | src/decoder/macroblock.cc:301-312 | the mode contexts of a census are valid indices of the probability table |
| MotionCensus.CensusIsPoll | src/decoder/macroblock.cc:143-174 | zero, nearest and near score the weights (two, two, one) of the neighbours that vote for them; nearest outweighs near, and best is nearest unless zero outweighs it |
| MotionCensus.SplitWeight | src/decoder/scorer.hh:72-75 | the last mode context is the weight of the split neighbours |
| MotionCensus.ClampedIsNearest | src/decoder/macroblock.cc:176-195 | clamping yields the nearest vector from which the macroblock still touches or just misses the frame, in either component |
| MotionCensus.TakeCensus | src/decoder/macroblock.cc:301-312 | the scorer object, given the three neighbours, computes the census |
| MotionCensus.AddInBounds | src/decoder/scorer.hh:47-58 | no score outgrows the votes cast and no index the four entries |
| MotionCensus.Scorer.AddVote | src/decoder/scorer.hh:47-58 | a vote goes to zero, to the vector voted for last, or to the next entry |
| MotionCensus.Scorer.AddMacroblock | src/decoder/macroblock.cc:143-155 | only inter macroblocks vote, with their vector negated where the sign biases differ |
| MotionCensus.Scorer.Calculate | src/decoder/macroblock.cc:157-174 | the third vector is merged into the first, the first two are ordered, and the best is chosen |
| Modes.PartitionsCover | src/decoder/modemv_data.cc:250-278 | in each split scheme every subblock is listed in exactly one partition |
| Modes.ContextsAreFinal | src/decoder/modemv_data.cc:250-278 | for each scheme, what lies above and to the left of a partition's first subblock belongs to an earlier partition or to another macroblock |
| Modes.ImpliedModes | src/decoder/macroblock.hh:142-152 | a macroblock predicted as a whole looks to its neighbours like sixteen subblocks predicted in the same way |
| IntraModes.SubModesRoundTrip | src/decoder/macroblock.cc:94-108 | the sixteen subblock modes come back, each coded in the context of those above and to the left |
| IntraModes.IntraRoundTrip | src/decoder/macroblock.cc:84-111 | the intra prediction of a macroblock comes back, in key frames and in inter frames |
| IntraModes.EncodeIntra | src/encoder/serializer.cc:285-308 | luma mode, subblock modes and chroma mode are put in order |
| IntraModes.DecodeIntra | src/decoder/macroblock.cc:84-111 | and read in order |
| InterModes.SubblockRoundTrip | src/decoder/macroblock.cc:231-281 | a subblock's mode comes back, and its vector if and only if the two agree |
| InterModes.ReferenceRoundTrip | src/decoder/macroblock.cc:458-465 | the reference frame comes back |
| InterModes.SplitRoundTrip | src/decoder/macroblock.cc:408-432 | after each partition the vectors read so far are right if and only if in each of these partitions modes and vectors agree and are the same throughout |
| InterModes.VoteOf | src/decoder/macroblock.cc:126-155 | a split macroblock votes in the census of its neighbours with the vector of its last partition, any other inter macroblock with its own, with the sign bias of its reference; intra macroblocks do not vote |
| InterModes.VotesWithLastRead | src/decoder/macroblock.cc:408-432 | whatever is parsed for a split macroblock, the vector it will vote with is the one read last |
| InterModes.SubMvContext | src/decoder/macroblock.cc:242-256 | the context of a subblock mode, case by case: both neighbours zero, equal, one of them zero, or neither |
| InterModes.ModeProbAt | src/decoder/macroblock.cc:380-385 | each mode probability comes from its own column, in the row that its own context selects |
| InterModes.InterRoundTrip | src/decoder/macroblock.cc:375-440 | the inter prediction of a macroblock comes back if and only if its vectors agree with its modes, given the census of its neighbours |
| InterModeCoder.FindPrior | src/encoder/serializer.cc:331-346 | the census decides the probabilities and the clamped candidate vectors |
| InterModeCoder.WriteSubblockInterPrediction | src/encoder/serializer.cc:247-283 | mode and difference are put in the context of left and above |
| InterModeCoder.ReadSubblockInterPrediction | src/decoder/macroblock.cc:231-281 | and read likewise |
| InterModeCoder.FillPartition | src/decoder/macroblock.cc:424-430 | copying the first subblock along a partition's list fills exactly that partition |
| InterModeCoder.EncodeReference | src/encoder/serializer.cc:187-194 | the selection bits are put |
| InterModeCoder.DecodeReference | src/decoder/macroblock.cc:458-465 | and read |
| InterModeCoder.EncodeSplit | src/encoder/serializer.cc:354-366 | each partition's first subblock is put |
| InterModeCoder.DecodeSplit | src/decoder/macroblock.cc:408-432 | each partition is read and filled, in the context of those already filled |
| InterModeCoder.EncodeInter | src/encoder/serializer.cc:331-367 | reference, mode, vector or partitions are put in order |
| InterModeCoder.DecodeInter | src/decoder/macroblock.cc:375-440 | and read in order |
| MacroblockHeaders.MacroblockRoundTrip | src/decoder/macroblock.cc:43-71 | a macroblock header comes back if and only if its optional fields are there when the frame header says so and its vectors agree with its modes |
| MacroblockHeaders.GridRoundTrip | src/decoder/frame.cc:95-113 | decoding the macroblock headers of a whole frame in raster order gives back modes, references, partitions and vectors under exactly that condition |
| MacroblockHeaders.NeighboursAround | src/util/2d.hh:50-65 | the macroblocks consulted are those above, to the left, and above to the left, where they exist |
| MacroblockHeaders.SubModeNeighbours | src/decoder/macroblock.cc:94-103 | each subblock mode of the frame is coded in the context of the modes above it and to its left in the grid that spans the frame |
| MacroblockHeaders.SubVectorNeighbours | src/decoder/macroblock.cc:236-240 | each subblock vector sees those above it and to its left in that grid |
| MacroblockHeaders.SerializeMacroblock | src/encoder/serializer.cc:370-385 | segment, skip flag, reference and modes are put in order; a skip flag without a probability for it is refused |
| MacroblockHeaders.ParseMacroblock | src/decoder/macroblock.cc:43-71 | and read in order |
| MacroblockHeaders.SerializeGrid | src/encoder/serializer.cc:397-402 | the loops over the grid put every macroblock, or refuse the first bad skip flag |
| MacroblockHeaders.ParseGrid | src/decoder/frame.cc:95-113 | the loops over the grid read every macroblock in the context of those already read |
| HeaderFields.FieldRoundTrip | src/decoder/vp8_header_structures.hh:39-98 | a flag, unsigned or signed number, or its absence, comes back if and only if it fits its width |
| HeaderFields.ListRoundTrip | src/decoder/vp8_header_structures.hh:102-161 | a list of such elements comes back if and only if all of them fit |
| HeaderFields.OptionalRoundTrip | src/util/optional.hh:53-61 | a list that is there when something else says so comes back if and only if it is there exactly then |
| HeaderFields.FlaggedRoundTrip | src/decoder/vp8_header_structures.hh:87-98 | a list behind a flag comes back if and only if it fits |
| HeaderFields.EncodeField | src/encoder/serializer.cc:41-79 | flag, bits from the top and sign are put |
| HeaderFields.DecodeField | src/decoder/vp8_header_structures.hh:39-98 | and read |
| HeaderFields.EncodeList | src/encoder/serializer.cc:81-108 | the loop puts the elements in order |
| HeaderFields.DecodeList | src/decoder/vp8_header_structures.hh:102-161 | the loop reads the elements in order |
| FrameHeaders.SegmentationRoundTrip | src/decoder/frame_header.hh:104-126 | a segmentation update comes back if and only if its numbers fit and its map is there exactly when the flag says so |
| FrameHeaders.AdjustmentsRoundTrip | src/decoder/frame_header.hh:65-79 | filter adjustments behind two flags come back if and only if they fit |
| FrameHeaders.CommonRoundTrip | src/decoder/frame_header.hh:37-126 | the fields both headers begin with come back if and only if they fit |
| FrameHeaders.CommonRanges | src/decoder/frame_header.hh:37-60 | which partition counts, quantizer indices and filter levels fit, in numbers |
| FrameHeaders.FeatureRanges | src/decoder/frame_header.hh:82-102 | which segment features fit |
| FrameHeaders.DeltaRanges | src/decoder/frame_header.hh:65-79 | which filter adjustments fit |
| FrameHeaders.KeyHeaderRoundTrip | src/decoder/frame_header.hh:194-228 | a key frame header comes back if and only if it is supported and well formed |
| FrameHeaders.ReferencesRoundTrip | src/decoder/frame_header.hh:278-288 | the reference updates come back if and only if a copy is specified exactly when the buffer is not refreshed |
| FrameHeaders.ProbsRoundTrip | src/decoder/frame_header.hh:286-289 | the inter frame probabilities come back if and only if they fit |
| FrameHeaders.InterHeaderRoundTrip | src/decoder/frame_header.hh:248-295 | an inter frame header comes back if and only if it is supported and well formed |
| HeaderCoder.EncodeKeyHeader | src/encoder/serializer.cc:140-154 | the fields are put in order |
| HeaderCoder.DecodeKeyHeader | src/decoder/frame_header.hh:213-228 | the fields are read in order; unsupported ones are refused at the end |
| HeaderCoder.EncodeCommon | src/encoder/serializer.cc:110-138 | segmentation, filter, adjustments and quantizers are put in order |
| HeaderCoder.DecodeCommon | src/decoder/frame_header.hh:37-126 | and read in order |
| HeaderCoder.EncodeInterHeader | src/encoder/serializer.cc:156-181 | the fields are put in order |
| HeaderCoder.DecodeInterHeader | src/decoder/frame_header.hh:278-295 | the fields are read in order; an unsupported filter is refused at the end |
| Container.MakeFrame | src/encoder/serializer.cc:741-799 | the octets are appended in order; dimensions above 16383 and an empty list of partitions are refused |
| Container.TagIsNumber | src/encoder/serializer.cc:741-799 | the frame tag is one number of 24 bits, low octet first, with its flags and the length in their places |
| Container.FrameRoundTrip | src/decoder/uncompressed_chunk.cc:47-116 | the parser returns flags, first partition and rest if and only if the first partition is shorter than 2^19, something follows it, the version is supported and a key frame has the expected dimensions |
| Container.ExtractPartitions | src/decoder/uncompressed_chunk.cc:132-155 | the two loops cut the rest as the table says, or run out of data |
| Container.PartitionsRoundTrip | src/decoder/uncompressed_chunk.cc:132-155 | the partitions come back if and only if each but the last is shorter than 2^24 |
| ProbabilityTables.CoeffProbUpdateIdempotent | src/decoder/probability_tables.cc:72-88 | updating token probabilities twice is updating them once |
| ProbabilityTables.UpdateIdempotent | src/decoder/probability_tables.cc:93-116 | the same for a whole inter frame update |
| ProbabilityTables.SettableProbabilities | src/decoder/frame_header.hh:178-191 | a vector probability can be set exactly if it is one, or even and not zero |
| ProbabilityTables.CoeffProbAt | src/decoder/probability_tables.cc:72-88 | the probability of a block type, band, context and node is where the nested loops count to |
| ProbabilityTables.MvProbAt | src/decoder/probability_tables.cc:93-116 | and so is that of a vector component |
| ProbabilityTables.TableStore.UpdateCoeffProbs | src/decoder/probability_tables.cc:72-88 | the nested loops overwrite exactly the flagged entries |
| ProbabilityTables.TableStore.UpdateFrom | src/decoder/probability_tables.cc:93-116 | all four tables are updated |
| FrameCodec.ModesRoundTrip | src/encoder/serializer.cc:387-405 | from the first partition's octets, header and macroblock headers come back if and only if vectors agree with modes |
| FrameCodec.ReferenceDecisions | src/decoder/macroblock.cc:458-465 | which decisions select each reference, with which of the header's probabilities, and which sign bias it gets |
| FrameCodec.ResidueRoundTrip | src/encoder/serializer.cc:407-426 | from the DCT partitions' octets, the residue comes back if and only if it is consistent |
| FrameCodec.WholeFrameRoundTrip | src/decoder/decoder_state.hh:72-167 | for every frame that can be serialized, a decoder with the same tables parses its octets into the same frame if and only if the header is supported and well formed, vectors agree with modes and flags agree with coefficients |
| FrameCoder.SerializeFirstPartition | src/encoder/serializer.cc:387-405 | header and macroblock headers go through one encoder, which is then finished |
| FrameCoder.SerializeTokenPartitions | src/encoder/serializer.cc:407-426 | one encoder for each partition, finished one after another |
| FrameCoder.SerializeFrame | src/encoder/serializer.cc:801-829 | tables are copied and updated, both kinds of partition serialized and put into a container; the refused frames are exactly those with a stray skip flag, too large a coefficient or too large dimensions |
| FrameCoder.ParseBody | src/decoder/decoder_state.hh:96-108 | with updated tables, macroblock headers are parsed, the partitions cut and their tokens parsed |
| FrameCoder.ParseFrameData | src/decoder/decoder_state.hh:72-167 | container, header, tables, macroblock headers and tokens are parsed in order, with the errors of each |
| Lockstep.OutputIsSerialized | src/encoder/encoder.cc:146-176 | although the tables passed by reference have been updated by the time of serialization, the output is that of the tables before the frame |
| Lockstep.TablesKept | src/encoder/encode_inter.cc:154-170 | after any run, a frame that does not refresh the probabilities leaves no trace in the tables, and one that does leaves exactly its updates; key frames start from the initial tables |
| Lockstep.AdjustmentsKept | src/encoder/encode_inter.cc:154-170 | filter adjustments are in force exactly while headers say so, and their entries are replaced all at once or stay |
| Lockstep.ReceivesFrame | src/decoder/decoder.cc:101-118 | a decoder with the encoder's tables parses the encoder's output into the very frame that was written |
| Lockstep.TablesNeverPart | src/decoder/decoder_state.hh:72-167 | over every run of codable frames, whatever becomes of segmentation and references, the decoder can parse every frame, and its tables and filter adjustments are the encoder's |
| Lockstep.SameState | src/encoder/encode_inter.cc:154-170 | after one frame tables and filter adjustments agree, and the states agree if and only if the frame tells nothing about segments that the encoder does not follow: no news for any macroblock, no new features, and a segmentation in force on both sides or neither |
| Lockstep.SameSettings | src/decoder/frame.cc:140-248 | the macroblocks look up the same quantizers and filter levels on both sides if and only if the segments they have cached have the same entries as those in the map |
| Lockstep.KeptInStep | src/encoder/encoder.cc:146-176 | if every frame of a run satisfies these conditions (the second one only if it becomes a reference), the two sides never part, however pixels are reconstructed |
| Lockstep.Lockstep | src/encoder/encoder.cc:146-176 | over every run of codable frames, a decoder started in the encoder's state and fed its output agrees with it after every frame (tables, adjustments, segmentation, three references), whatever function reconstructs the pixels, if and only if no frame tells anything about segments that the encoder does not follow and the segments cached in every frame that becomes a reference have the entries of those in the map |
| Lockstep.LockstepWithoutSegmentation | src/encoder/encoder.cc:146-176 | without segmentation the two never part |
| SegmentedFrames.SegmentationParts | src/encoder/encode_inter.cc:154-170 | two codable frames, a key frame that starts a segmentation and an inter frame that does not mention it, leave one to the encoder and none to the decoder that is given their octets |
| SegmentedFrames.SmallFramesPart | src/encoder/encode_inter.cc:154-170 | two frames of one pixel are such a run, whatever the tables and the state before |
| SegmentedFrames.CachedSegmentsPart | src/decoder/macroblock.cc:74-82 | a parsed key frame followed by an inter frame made anew, both codable, after which the states agree but not the references, since the inter frame's macroblock has cached segment 0 where the map says 3 |
| SegmentedFrames.SmallCodable | src/encoder/serializer.cc:741-799 | the frames of these runs can be coded, with any tables |
| Lockstep.SafeReferencesMirror | src/encoder/encoder.cc:160-162 | after every run the references with margins mirror the references |
| DecoderStates.ReferenceBuffers.Receive | src/decoder/frame.cc:271-307 | the assignments, in their order, leave in each of the three buffers what the flags call for |
| DecoderStates.CopyToPlaces | src/decoder/frame.cc:271-307 | buffer by buffer and without regard to the order of the statements: which of raster, old last frame, old golden and old alternative each of the three buffers ends with, for all combinations of flags |
| DecoderStates.FlagsTwoDoNotSwap | src/decoder/frame.cc:278-292 | two copies between golden and alternative do not swap them: both end as the old golden |
| DecoderStates.SegmentationAsTold | src/decoder/decoder_state.hh:35-51 | a new segmentation has segment 3 everywhere and the entries of the header, relative and zero if it has none; an update without entries changes nothing |
| Machines.VideoEncoder.UpdateDecoderState | src/encoder/encode_inter.cc:154-170 | tables and adjustments are updated in place; a key frame starts over (src/encoder/encode_intra.cc:36-46) |
| Machines.VideoEncoder.WriteFrame | src/encoder/encoder.cc:146-176 | state, references and safe references are updated, the macroblocks reconstructed with the segments they have cached, then the frame is serialized, which may still fail |
| Machines.VideoEncoder.constructor | src/encoder/encoder.cc:83-90 | an encoder may continue from a decoder's state |
| Machines.VideoDecoder.RecordRow | src/decoder/macroblock.cc:74-82 | each macroblock records its segment in the map, or leaves the map as it is, and caches what the map then says |
| Machines.VideoDecoder.RecordSegments | src/decoder/frame.cc:115-119 | all of them do |
| Machines.VideoDecoder.Apply | src/decoder/decoder_state.hh:72-167 | tables, adjustments and segmentation are updated as the header says, and segments are recorded and cached |
| Machines.VideoDecoder.ParseAndDecode | src/decoder/decoder.cc:101-141 | the frame is parsed, the state updated, the raster reconstructed and the references replaced |
| InterPrediction.PassesDropped | src/decoder/prediction.cc:700-726 | leaving out a pass whose fraction is zero, or both, changes no pixel |
| InterPrediction.FlatStaysFlat | src/decoder/prediction.cc:645-653 | every filter leaves a flat area as it is |
| InterPrediction.RoundsToNearest | src/decoder/prediction.cc:872-914 | a filtered pixel is the weighted mean of six pixels, rounded to the nearest number, upwards in case of a tie, and clamped to a pixel |
| InterPrediction.Mirrored | src/decoder/prediction.cc:645-653 | seen from the other side, a fraction is what is left of a whole pixel |
| InterPrediction.BrighterAcrossEdge | src/decoder/prediction.cc:645-653 | across a rising edge a larger fraction is never darker, and stays between the two sides |
| InterPrediction.BoundedIsNearest | src/decoder/vp8_raster.hh:327-339 | a clamped coordinate is the nearest one inside the raster |
| InterPrediction.WholeAndPart | src/decoder/prediction.cc:655-674 | a component is split into whole pixels and eighths, downwards |
| InterPrediction.FilterRow | src/decoder/prediction.cc:872-914 | the inner loop of either pass replaces exactly one row of the destination |
| InterPrediction.SecondPass | src/decoder/prediction.cc:889-914 | reading six rows of the intermediate block through one pointer gives two-pass filtering over clamped coordinates |
| InterPredictor.FirstPassRows | src/decoder/prediction.cc:862-887 | the first pass fills the intermediate block row by row |
| InterPredictor.CopyBlock | src/decoder/prediction.cc:824-834 | without a fraction the rows are copied, which is what the filters would do |
| InterPredictor.FilterHorizontally | src/decoder/prediction.cc:939-955 | the first pass over clamped coordinates |
| InterPredictor.UnsafeInterPredict | src/decoder/prediction.cc:812-916 | walking pointers through reference, intermediate block and destination gives two-pass filtering over clamped coordinates in every pixel of the block, and touches nothing else |
| InterPredictor.SafeInterPredict | src/decoder/prediction.cc:920-972 | the loops over clamped coordinates give the same |
| InterPredictor.InterPredict | src/decoder/prediction.cc:655-674 | whichever path is taken, for every vector and position the result is that of two-pass filtering over clamped coordinates |
| SafeRasters.ExtendedRowAt | src/decoder/vp8_raster.hh:327-339 | inside the margin, a row between its margins is the row continued by its edges |
| SafeRasters.SafeRaster.CopyRaster | src/decoder/safe_raster.cc:44-101 | the nine regions together continue the image by its edges |
| SafeRasters.SafeRaster.At | src/decoder/safe_raster.cc:103-107 | inside the margin a lookup equals the one over clamped coordinates |
| SafeRasters.SafeRaster.PixelAt | src/decoder/prediction.cc:682-729 | with passes left out where the fraction is zero, a pixel is that of two-pass filtering |
| SafeRasters.SafeRaster.InterPredict | src/decoder/prediction.cc:682-729 | where all taps are inside the margin, the block is the one the decoder predicts |
| MotionSearch.SearchStaysInRange | src/encoder/encode_inter.cc:172-229 | a search that starts in range ends in range, with a first step no larger than half the step it was given, at a vector no dearer than where it started |
| MotionSearch.DiamondSearch | src/encoder/encode_inter.cc:172-229 | the loops compute the rounds of halving steps, each choosing the cheapest candidate in range, and every candidate is judged by the very block that the decoder would predict, read from inside the margin |
| MotionSearch.BestIsCheapest | src/encoder/encode_inter.cc:193-218 | a round finds a vector in range such that no candidate in range is cheaper |
| MotionSearch.BestIsFirst | src/encoder/encode_inter.cc:193-218 | and among the cheapest it finds the first |
| MotionSearch.CandidatesAreCross | src/encoder/encode_inter.cc:189-196 | the candidates of a round are the origin and the four vectors one step away from it along an axis |
| MotionSearch.SitesInOrder | src/encoder/encode_inter.cc:189-191 | tried from left to right and from top to bottom |
| MotionSearch.RoundImproves | src/encoder/encode_inter.cc:193-218 | a round never ends at a dearer vector than the one it started from |
| MotionSearch.RefinedIsSearchable | src/encoder/encode_inter.cc:287-299 | what the repeated search finds is in range, even in both components, and no dearer than the zero vector |
| MotionSearch.SearchNewMv | src/encoder/encode_inter.cc:287-299 | the loop terminates, since its step decreases, with the result of the repeated search |
| MotionSearch.ClampedReadsInMargin | src/decoder/macroblock.cc:183-195 | every tap of a macroblock predicted from a clamped vector is inside the margin of 256, whatever the size of the frame |
| MotionSearch.NewMvReadsInMargin | src/encoder/encode_inter.cc:300 | so is every tap for the vector found plus the clamped prediction, in frames of at most 248 macroblocks per side |
| MotionSearch.MarginIffSides | src/encoder/encode_inter.cc:300 | the limit, exactly: in all runs of macroblocks along the first row or column that take the vectors their searches find, census included, every tap is inside the margin if and only if neither side has more than 248 macroblocks |
| MotionSearch.RunDrifts | src/encoder/encode_inter.cc:300 | on any longer side there is a run whose vectors go back until the sum with the clamped best vector wraps around |
| MotionSearch.PredictFromMargin | src/encoder/encode_inter.cc:328 | a prediction whose taps are inside the margin is the decoder's |
| MotionSearch.PredictNewMv | src/encoder/encode_inter.cc:276-328 | within the limit the vector that is found and added to the best vector of the census predicts the block that the decoder will predict, and the difference that is written can be coded |
| WalshHadamard.WhtNearInverse | src/decoder/dct.cc:114-162 | for every input with magnitude at most 2047 the inverse transform of the forward one is off by at most one in every entry, and no 16-bit store overflows |
| WalshHadamard.WhtIsRounded | src/decoder/dct.cc:114-162 | every entry of the forward transform is half the exact two-dimensional Hadamard transform, rounded to the nearest number and towards zero in case of a tie, with the excess of each row counted |
| WalshHadamard.RowWithExcess | src/decoder/dct.cc:126 | a row comes out one too large in its first entry unless its even entries cancel |
| WalshHadamard.IwhtIsRounded | src/decoder/transform.cc:55-85 | every entry of the inverse transform is the exact one divided by eight, rounded to the nearest number and downwards in case of a tie |
| WalshHadamard.LimitIsTight | src/decoder/dct.cc:126 | with 2048 the first store can overflow |
| WalshHadamard.WhtInPlace | src/decoder/dct.cc:106-164 | the two loops overwrite the array with the forward transform |
| WalshHadamard.IwhtInto | src/decoder/transform.cc:47-86 | the two loops compute the inverse transform |
| TreeCosts.ComputeCost | src/encoder/costs.cc:151-170 | the recursion leaves at every leaf below the pair the summed cost of the decisions that lead there, and changes entries to nothing else |
| TreeCosts.LeafCostFits | src/encoder/costs.cc:151-170 | such a sum fits sixteen bits |
| TreeCosts.TreeCost | src/encoder/costs.cc:58-73 | the cost of a short magnitude is that of its path in the tree |
| TreeCosts.MvComponentCost | src/encoder/costs.cc:75-111 | the cost of a component is that of all bits the printer puts for it but the sign |
| TokenCosts.StartIsRight | src/encoder/costs.cc:172-189 | context 0 beyond the first coded band occurs exactly after a zero token |
| TokenCosts.TokenClassIsContext | src/encoder/costs.hh:14-15 | the class of a token is the context the printer uses next |
| TokenCosts.FillTokenCosts | src/encoder/costs.cc:172-189 | the table holds the cost of every token that can occur in its context |
| TokenCosts.BlockCostIsEmitted | src/encoder/costs.hh:73-114 | for every block the estimate is the cost of all bits that are put, with the base costs in place of extra bits and signs |
| TokenCosts.BlockCost | src/encoder/costs.hh:73-114 | the loop computes the estimate |
| TokenCounts.BlockEmitted | src/encoder/serializer.cc:595-739 | the events of a block are, one by one, the symbols that are put for it |
| TokenCounts.CountCoefficient | src/encoder/serializer.cc:478-569 | the cascade of branches increments one counter for each decision on the token's path |
| TokenCounts.AccumulateTokenBranches | src/encoder/serializer.cc:455-579 | the counters grow by exactly the branches among those events; a coefficient too large is refused |
| MacroblockCounts.CountMacroblock | src/encoder/serializer.cc:581-587 | the three loops count exactly the branches of the luma and chroma blocks, and fail on the first coefficient that is too large |
| MacroblockCounts.CountsMatch | src/encoder/serializer.cc:581-587 | for a whole macroblock these counts are those of the bits that are put if and only if it is not skipped and has no Y2 block |
| Packets.PacketRoundTrip | src/net/packet.cc:99-158 | parsing a printed packet gives it back if and only if its fragment number is in range and its payload is not empty, and whatever parses is what printing the result gives |
| Packets.AckRoundTrip | src/net/packet.cc:339-376 | an acknowledgement comes back if and only if its states can be counted in 32 bits |
| Fragments.SplitFrame | src/net/packet.cc:167-205 | the loop cuts a frame of at most 65535 fragments into consecutive pieces of at most 1400 octets |
| Fragments.AllFragments | src/net/packet.cc:85-96 | the pieces joined are the frame |
| Fragments.FragmentLength | src/net/packet.cc:167-205 | all fragments but the last have 1400 octets, and the last has one at least |
| Fragments.PacketsWellFormed | src/net/packet.cc:115-121 | every packet of a frame can be parsed |
| Reassembly.ReassemblyInAnyOrder | src/net/packet.cc:208-324 | for every frame and every order of arrival, with losses and duplicates: the counter equals the number of empty slots, what is there at the beginning is a prefix of the frame, it is complete exactly when every fragment has arrived, and then it is the original |
| Reassembly.FragmentedFrame.FromPacket | src/net/packet.cc:207-224 | the first packet opens a frame, is checked like any other, and stored |
| Reassembly.FragmentedFrame.AddPacket | src/net/packet.cc:226-262 | a packet of another frame is refused, a duplicate ignored, and a new fragment stored and counted |
| Reassembly.FragmentedFrame.Frame | src/net/packet.cc:296-309 | the payloads joined, if complete |
| Reassembly.FragmentedFrame.GetPartialFrame | src/net/packet.cc:311-324 | the payloads up to the first empty slot |
| StateSerialization.RecordRead | src/decoder/enc_state_serializer.hh:69-90 | the length read from a record is the number of octets that follow |
| StateSerialization.TablesRead | src/decoder/probability_tables.cc:126-195 | the tables come back |
| StateSerialization.SegmentsRead | src/decoder/decoder.cc:396-438 | a segmentation comes back, its tag saying whether it is absolute |
| StateSerialization.AdjustmentsRead | src/decoder/decoder.cc:342-377 | the adjustments come back, signs included |
| StateSerialization.RasterRead | src/decoder/enc_state_serializer.hh:92-107 | a raster comes back |
| StateSerialization.StateRead | src/decoder/decoder.cc:283-329 | the state comes back from its record, whatever follows it |
| StateSerialization.ReferencesRead | src/decoder/decoder.cc:177-212 | all three references come back equal to the last one |
| StateSerialization.DecoderRead | src/decoder/decoder.cc:54-81 | for every decoder no assertion about lengths fails, the same state comes back, and all references equal the last |
| StateSerialization.RestoredIffCoinciding | src/decoder/decoder.cc:54-81 | restoring is the identity exactly if the three references coincide |
| StateSerialization.RestoredAfterKeyFrame | src/decoder/decoder.cc:54-81 | a decoder that has just decoded a key frame is restored exactly as it was, and so stays in step with the encoder |
| StateSerialization.DecoderFits | src/decoder/decoder.cc:54-69 | every decoder whose raster and map have dimensions that a frame can carry has records short enough for the length fields |
| StateSerialization.BlankIsNeverSeen | src/decoder/enc_state_serializer.hh:166-189 | the unspecified contents of a raster that no record fills never reach a restored decoder |
| StateWriting.StateWriter.Patch | src/decoder/enc_state_serializer.hh:84-90 | four octets are overwritten and nothing else |
| StateWriting.StateWriter.PutLength | src/decoder/enc_state_serializer.hh:75-82 | a number is appended, low octet first, and its position returned |
| StateWriting.PatchHead | src/decoder/enc_state_serializer.hh:84-90 | patching the placeholder completes the record |
| StateWriting.StateWriter.SerializeTables | src/decoder/probability_tables.cc:126-158 | the record of the tables is appended |
| StateWriting.StateWriter.SerializeSegments | src/decoder/decoder.cc:396-422 | the optional record of the segmentation is appended |
| StateWriting.StateWriter.SerializeAdjustments | src/decoder/decoder.cc:342-357 | the optional record of the adjustments is appended |
| StateWriting.StateWriter.SerializeState | src/decoder/decoder.cc:283-314 | the patched length is that of what was appended after it, nested records included |
| StateWriting.StateWriter.SerializeReferences | src/decoder/decoder.cc:177-197 | the same for the references |
| StateWriting.StateWriter.SerializeDecoder | src/decoder/decoder.cc:54-69 | the same for the whole decoder |
| StateReading.StateReader.GetTables | src/decoder/probability_tables.cc:160-195 | the pointer advances over the tables |
| StateReading.StateReader.GetRecord | src/decoder/enc_state_serializer.hh:152-164 | tag and length are read and the pointer advances behind them |
| StateReading.StateReader.GetAdjustments | src/decoder/decoder.cc:359-377 | the pointer advances over the adjustments |
| StateReading.StateReader.GetRaster | src/decoder/enc_state_serializer.hh:166-189 | the pointer advances over a raster if a record of the right kind is next, and stays where it is otherwise |
| StateReading.StateReader.GetSegments | src/decoder/decoder.cc:424-438 | the pointer advances over a segmentation |
| StateReading.StateReader.GetState | src/decoder/decoder.cc:316-329 | the pointer advances over the state |
| StateReading.StateReader.GetReferences | src/decoder/decoder.cc:199-212 | the pointer advances over the references |
| StateReading.StateReader.GetDecoder | src/decoder/decoder.cc:71-81 | the whole data is read, or an assertion fails |

## Left out

- SSE2 and assembly branches: the portable ones are modelled; for the prediction from a `SafeRaster`, which exists only with SSE2, each pass is the one-dimensional six-tap filter.
- Pixel reconstruction in the lockstep proof (intra prediction, inverse DCT, loop filter): any functions of the frame, the segment entries its macroblocks look up, the filter adjustments and, for inter frames, the references. How entries and header levels combine to a quantizer and a filter level is inside these functions.
- Error concealment and the decoder's `valid_` flag: data is complete and concealment is off.
- The contents of the large tables (default and update probabilities, key frame subblock modes, base costs): parameters.
- Raster hashes: references are compared by contents.
- Rate-distortion choice, quantization, trellis search, loop filter search: they choose among frames that are all covered. The loop filter search also resets the encoder's filter adjustments between frames; the lockstep is about `write_frame`.
- The variant of `write_frame` that is given other probability tables than the encoder's own.
- Lockstep.Lockstep: a frame for which serialization or parsing fails ends the run; what state an exception leaves behind in the decoder is not modelled.
- FrameTokenCoder.SerializeTokens: blocks are values, not objects in shared grids; Y2 contexts are row and column numbers instead of pointers. The block object itself is modelled in place (`TokenBlocks.CoefficientBlock`).
- MacroblockHeaders.ParseGrid: macroblocks are values with the modes and vectors that the bitstream determines; chroma vectors, which are derived from them, are left out, and `motion_vectors_flipped_` is computed from the reference and the sign biases wherever it is used.
- MacroblockHeaders.GridRoundTrip: intra macroblocks have no vectors in the model, so frames in which one carries a vector left over from earlier are not covered.
- FrameHeaders.InterHeaderRoundTrip: nested arrays of updates are listed in the order of the loops over them.
- HeaderFields.DecodeField: the two operands in the constructors of `Unsigned` and `Signed` are evaluated from left to right, which the language does not promise.
- Reassembly.ReassemblyInAnyOrder: frames of more than 65535 fragments, on which the 16-bit counter of the sender wraps around, are excluded; the clock is a parameter.
- TokenCounts.AccumulateTokenBranches: the 32-bit counters do not wrap around in the model.
- StateSerialization.DecoderRead: decoders whose records are 2^32 octets or longer, which overflow the length fields, are excluded; `StateSerialization.DecoderFits` says that these are larger than any frame.
- MotionSearch.MarginIffSides: macroblocks are searched everywhere, as in the best quality; in real time the source searches only in every fourth row and column.
- InterPredictor.InterPredict: the reference and the destination raster have the same width, as the source asserts for the pointer-walking path.
- Sockets, pacing, files, cameras, display, command lines and remote calls.
