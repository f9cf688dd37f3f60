# ShadowNet agent: verified models

This project models seven parts of the ShadowNet agent and proves what they promise.  The models are
written in Dafny and depend on nothing else; `dafny verify dfyconfig.toml` checks all of them.

- **Bech32** (`Bech32Bits`, `Bech32Checksum`, `Bech32Field`, `Bech32`, `Bech32Vector`): the encoder of age keys in the Android app.
  The 32-bit accumulator of `convertBits` is never masked; the model keeps it and its wrap-around.
  The checksum is the one of BIP 173, section "Bech32", subsection "Checksum".  The app only
  encodes, so the decoder of that document is written as a specification; `Bech32Field` shows that
  the register computes the remainder of a polynomial division over GF(32), as the document defines it.
- **Bundle selection** (`Selection*`, `Validate`): validation and scoring of profiles, and the seeded
  greedy choice under a cap per endpoint, per family and in all.
- **Chunk transport** (`Chunk*`): cutting a bundle URI into numbered text lines and joining them.
- **Event bus** (`EventBus`, `EventBusSteps`): `EventBus` is the code as it runs, with receives of
  the consumer between the selects; `EventBusSteps` is the same bus as a step system, in which all
  callers interleave, and carries the theorems about whole runs.
- **Policy** (`Adaptive*`, `Engine`, `ScoreLaws`): the adaptive state as a class, its memory as a value, its
  ranking as a relation (sort.Slice promises nothing about ties), and the engine on top of it.
- **Profiles and imports** (`Profiles`, `Normalize*`, `Import*`): normalisation for the wire and the
  merge of a bundle into the profile store.
- **Rotation** (`Rotation`, `RotationRuns`): the blacklist and the anomaly window of the event loop.

`Text`, `Decimal`, `Sorting`, `Folds`, `Counting`, `Windows`, `Bytes`, `BitLogic` and `Pow2Facts` hold what the Go and Kotlin
standard libraries or plain arithmetic contribute.  Loops and updated objects of the source are
methods and classes here, each proved equal to a function or a relation; the theorems are lemmas
about those.  Clock readings, store accesses, the advisor, the config generator, the hot reload and
the chunk ID are parameters.

Some expected properties do not hold for all inputs.  For these the exact condition is proved:

- A candidate is reported twice when the best candidates of two families share an endpoint key,
  which needs the separator `|` in a family name (`PartitionIff`, `CollidingFamilies`).  Normalised
  profiles cannot get there (`PipelineComplete`).
- Chunked text with white space at a chunk border does not survive (`RoundTripIff`).
- Normalising can leave tags unsorted, so that a second time reorders them, since they are sorted before they are lower-cased
  (`NormalizeTwice`, `NotAFixedPoint`), and leave a tag in twice (`WireTagsDistinct`, `TagTwice`).
- Recording a failure need not lower the score of the profile that failed (`FailureEffect`,
  `GainPositive`, `RisingFailure`).
- The engine keeps a profile out during its adaptive cooldown only while the adaptive state may
  select some other one (`CoolingStaysOut`, `CoolingComesBack`).
- The engine returns the first of the ranking while its decision may name the second
  (`AgreeUnlessGuarded`).
- A failed import can leave new templates behind (`FailureLeavesStores`, `TemplatesLeftBehind`).

## Model

| member | source | states |
|---|---|---|
| `Bech32Bits.ConvertBits` | android/app/src/main/java/com/shadownet/agent/SecureStore.kt:130-160 | The loop with its unmasked, wrapping 32-bit accumulator, proved against a specification that only speaks of numbers: the output spells the input's number followed by the zero fill bits, or, without padding, the number without the dropped bits; each of the three errors occurs exactly in its case |
| `Bech32Bits.EmitSymbols` | android/app/src/main/java/com/shadownet/agent/SecureStore.kt:142-145 | The inner loop emits symbols until fewer than `toBits` bits are pending, and keeps what is spelled |
| `Bech32Bits.Epilogue` | android/app/src/main/java/com/shadownet/agent/SecureStore.kt:147-159 | The end of convertBits: the padding symbol, or the two padding errors |
| `Bech32Bits.ShlLowBits` | android/app/src/main/java/com/shadownet/agent/SecureStore.kt:140 | Bits that `shl` pushes out of the never-masked word do not reach the pending low bits |
| `Bech32Bits.ShlAligned` | android/app/src/main/java/com/shadownet/agent/SecureStore.kt:140 | After `shl` the low bits are clear, and a short value added to the word stays inside it |
| `Bech32Bits.OrIntoShl` | android/app/src/main/java/com/shadownet/agent/SecureStore.kt:140 | `or` of the shifted word and an in-range value is their sum and stays a 32-bit word |
| `BitLogic.OrIsSum` | android/app/src/main/java/com/shadownet/agent/SecureStore.kt:140 | `or` into clear low bits is addition |
| `BitLogic.AndMask` | android/app/src/main/java/com/shadownet/agent/SecureStore.kt:134-149 | `and` with n ones is the remainder modulo 2 to the n, so one symbol is what `and maxv` leaves |
| `Bech32Bits.TakeByte` | android/app/src/main/java/com/shadownet/agent/SecureStore.kt:136-141 | Reading one symbol keeps: what is written and the pending bits together spell what was read |
| `Bech32Bits.EmitSymbol` | android/app/src/main/java/com/shadownet/agent/SecureStore.kt:142-145 | Writing one symbol keeps the same relation |
| `Bech32Bits.PadSymbol` | android/app/src/main/java/com/shadownet/agent/SecureStore.kt:147-150 | The padding symbol completes the number of the whole input, shifted by the fill |
| `Bech32Bits.PaddingTest` | android/app/src/main/java/com/shadownet/agent/SecureStore.kt:152-157 | The non-zero-padding test sees exactly the low bits of the input that no output symbol holds |
| `Bech32Bits.ValueInjective` | android/app/src/main/java/com/shadownet/agent/SecureStore.kt:130-160 | Equally long in-range symbol strings that spell the same number are equal, so the specification of convertBits determines its output |
| `Bech32Bits.BytesRoundTrip` | android/app/src/main/java/com/shadownet/agent/SecureStore.kt:102-160 | 8 to 5 bits with padding and back without padding never throws and returns the bytes; in between there are ceil(8n/5) symbols below 32 |
| `Bech32Checksum.Polymod` | android/app/src/main/java/com/shadownet/agent/SecureStore.kt:185-197 | The two nested loops compute the register `Feed(1, values)` |
| `Bech32Checksum.MixIn` | android/app/src/main/java/com/shadownet/agent/SecureStore.kt:190-194 | The inner loop adds up exactly the generators whose bits left the register |
| `Bech32Checksum.StepLinear` | android/app/src/main/java/com/shadownet/agent/SecureStore.kt:188-195 | One step of polymod is linear over GF(2) in register and symbol together |
| `Bech32Checksum.FeedLinear` | android/app/src/main/java/com/shadownet/agent/SecureStore.kt:185-197 | polymod is linear over GF(2) on strings of any length |
| `Bech32Checksum.StepKernel` | android/app/src/main/java/com/shadownet/agent/SecureStore.kt:114-195 | A step with symbol 0 maps no 30-bit register but 0 to 0, because the low five bits of the five generators are independent |
| `Bech32Checksum.FeedBound` | android/app/src/main/java/com/shadownet/agent/SecureStore.kt:185-197 | The register never leaves 30 bits |
| `Bech32Checksum.PileUp` | android/app/src/main/java/com/shadownet/agent/SecureStore.kt:185-197 | At most six 5-bit symbols fed into register 0 give 0 only if all of them are 0 |
| `Bech32Checksum.BurstDetected` | android/app/src/main/java/com/shadownet/agent/SecureStore.kt:185-197 | Two strings of any length that differ within one window of at most six symbols have different polymod values |
| `Bech32Checksum.ChangedByteDetected` | android/app/src/main/java/com/shadownet/agent/SecureStore.kt:185-197 | Two strings of any length that differ in exactly one byte have different polymod values |
| `Bech32Checksum.FeedChecksumSymbols` | android/app/src/main/java/com/shadownet/agent/SecureStore.kt:162-170 | The six checksum symbols hold the 30 bits of the register exactly |
| `Bech32Checksum.ChecksumIsSymbols` | android/app/src/main/java/com/shadownet/agent/SecureStore.kt:162-170 | All six checksum symbols are below 32 |
| `Bech32Checksum.ChecksumVerifies` | android/app/src/main/java/com/shadownet/agent/SecureStore.kt:162-197 | After any protected string and its six checksum symbols the register is exactly 1 |
| `Bech32Checksum.ChecksumUnique` | android/app/src/main/java/com/shadownet/agent/SecureStore.kt:162-197 | No other six symbols after the protected string bring the register to 1 |
| `Bech32Field.MixIsProduct` | android/app/src/main/java/com/shadownet/agent/SecureStore.kt:114-194 | The five constants and the loop over the bits that left the register multiply those five bits, as an element of GF(32) modulo x^5+x^3+1, by the coefficients 29, 22, 20, 21, 29, 18 of the generator polynomial of BIP 173 |
| `Bech32Field.StepIsDivision` | android/app/src/main/java/com/shadownet/agent/SecureStore.kt:188-195 | One step is multiplication by x plus the symbol, modulo that polynomial, coefficient by coefficient |
| `Bech32Field.FeedIsRemainder` | android/app/src/main/java/com/shadownet/agent/SecureStore.kt:185-197 | polymod leaves the remainder of a polynomial division: the input is a multiple of the generator plus the six symbols of the register |
| `Bech32Field.RemainderUnique` | android/app/src/main/java/com/shadownet/agent/SecureStore.kt:185-197 | Whatever quotient is found, what is left over is what the register holds |
| `Bech32Field.ChecksumDivides` | android/app/src/main/java/com/shadownet/agent/SecureStore.kt:162-197 | The defining property of BIP 173: protected string and checksum together are a multiple of the generator plus 1 |
| `Bech32Field.AcceptsExactlyCodewords` | android/app/src/main/java/com/shadownet/agent/SecureStore.kt:185-197 | The register ends at 1 exactly for the multiples of the generator plus 1 |
| `Bech32Checksum.CreateChecksum` | android/app/src/main/java/com/shadownet/agent/SecureStore.kt:162-170 | The array written by createChecksum holds the specified six symbols of the expanded prefix and the data |
| `Bech32Checksum.HrpExpand` | android/app/src/main/java/com/shadownet/agent/SecureStore.kt:172-183 | The array holds high bits, a zero and low bits of the prefix, each cut to a byte |
| `Bech32.Encode` | android/app/src/main/java/com/shadownet/agent/SecureStore.kt:116-128 | Prefix, separator, and one alphabet character for each data and checksum symbol; an index error exactly when some data byte is not a symbol |
| `Bech32Vector.PublishedVector` | android/app/src/main/java/com/shadownet/agent/SecureStore.kt:113-197 | For the prefix abcdef and the symbols 0 to 31 the encoder answers abcdef1qpzry9x8gf2tvdw0s3jn54khce6mua7lmqqqxw, the test vector of BIP 173 |
| `Bech32.EncodeDecode` | android/app/src/main/java/com/shadownet/agent/SecureStore.kt:116-128 | The decoder of BIP 173, checksum test included, returns prefix and data of every encoded string, also when the prefix contains the separator |
| `Bech32.KeyRoundTrip` | android/app/src/main/java/com/shadownet/agent/SecureStore.kt:102-103 | A key of any length survives regrouping, encoding, decoding and regrouping back |
| `Bech32.TamperedBurstRejected` | android/app/src/main/java/com/shadownet/agent/SecureStore.kt:116-128 | Replacing up to six neighbouring data or checksum characters of an encoded string by other alphabet characters always makes it invalid |
| `Bech32.TamperedPrefixRejected` | android/app/src/main/java/com/shadownet/agent/SecureStore.kt:116-128 | Replacing one character of the prefix by another with the same high bits, such as one lower-case letter by another, always makes the string invalid |
| `Bech32.DecodeSpelled` | android/app/src/main/java/com/shadownet/agent/SecureStore.kt:116-128 | What the decoder makes of any string in the encoder's format: the data, or invalid exactly when the register does not end at 1 |
| `Bech32.CharRoundTrip` | android/app/src/main/java/com/shadownet/agent/SecureStore.kt:113-125 | Looking up a character written for a symbol gives that symbol back |
| `Profiles.EndpointKeyInjective` | pkg/outsidectl/candidates.go:288-290 | Endpoint keys agree exactly for equal family, host and port, provided the family names are free of the separator |
| `Decimal.AtoiOfPrint` | pkg/outsidectl/chunk.go:81-110 | strconv.Atoi undoes %d on the whole range of a 64-bit int |
| `Decimal.PrintInjective` | pkg/outsidectl/candidates.go:288-290 | Different ports print differently |
| `Sorting.SortSlice` | pkg/outsidectl/chunk.go:77 | sort.Slice in place: some sorted arrangement of the same elements, with no promise about ties |
| `Sorting.SortedUnique` | pkg/outsidectl/candidates.go:95-200 | Without ties there is only one sorted arrangement |
| `SelectionRun.Selector.SelectOne` | pkg/outsidectl/candidates.go:137-151 | The closure: the two exclusions in their order, or the bookkeeping of all three captured collections |
| `SelectionRun.GroupByFamily` | pkg/outsidectl/candidates.go:113-116 | The grouping map holds exactly the non-empty groups, each in input order |
| `SelectionRun.SortGroups` | pkg/outsidectl/candidates.go:117-124 | Every group sorted, whatever the order of map iteration |
| `SelectionRun.SortedFamilies` | pkg/outsidectl/candidates.go:126-130 | The sorted family list, whatever the order of map iteration |
| `SelectionRun.Seed` | pkg/outsidectl/candidates.go:153-165 | The seeding loop with its break leaves exactly the specified selection and remaining groups |
| `SelectionRun.Fill` | pkg/outsidectl/candidates.go:178-184 | The filling loop |
| `SelectionRun.SelectForBundle` | pkg/outsidectl/candidates.go:104-205 | The whole imperative selection equals the function `Select` |
| `SelectionProofs.SeparatorFreeFamilies` | pkg/outsidectl/candidates.go:288-290 | Separator-free family names make endpoint keys split by family, the condition of the theorems below |
| `SelectionProofs.FilledFeasible` | pkg/outsidectl/candidates.go:104-184 | For every input: no endpoint twice, no cap exceeded, only input candidates |
| `SelectionProofs.SecondPassSaturated` | pkg/outsidectl/candidates.go:178-184 | After every offered candidate: the total cap is reached, or every family below its cap has all its endpoints selected |
| `SelectionProofs.SaturatedSize` | pkg/outsidectl/candidates.go:137-184 | Such a selection has the size min(total cap, rank) |
| `SelectionProofs.NoRejectionIff` | pkg/outsidectl/candidates.go:153-165 | The first pass rejects nobody if and only if the heads it reaches have different endpoint keys |
| `SelectionProofs.SplitKeysSeedsDistinct` | pkg/outsidectl/candidates.go:153-165 | Keys that split by family give such heads |
| `SelectionTheorems.SeededMultiset` | pkg/outsidectl/candidates.go:153-176 | Seeds and the list of the second pass are together the input, with multiplicity |
| `SelectionTheorems.ReportedIds` | pkg/outsidectl/candidates.go:104-205 | For every input: included and excluded IDs together are the input's IDs plus, once more, the IDs of rejected heads |
| `SelectionTheorems.PartitionIff` | pkg/outsidectl/candidates.go:104-205 | Every input candidate ends in exactly one of the two lists if and only if the heads have different endpoint keys |
| `SelectionTheorems.SelectedCount` | pkg/outsidectl/candidates.go:104-184 | The number selected is exactly the minimum of the total cap and the sum over families of min(family cap, distinct endpoints), after the defaults |
| `SelectionTheorems.LargestSelection` | pkg/outsidectl/candidates.go:104-184 | No selection that respects the caps is larger |
| `SelectionTheorems.GreedyDominates` | pkg/outsidectl/candidates.go:167-184 | Choice by choice, the greedy selection scores at least as much as any other feasible way to fill up the seeds |
| `SelectionTheorems.GreedyOptimal` | pkg/outsidectl/candidates.go:137-184 | No feasible selection of the same size that contains the seeds has a larger total score |
| `SelectionChoice.EveryFamilyRepresented` | pkg/outsidectl/candidates.go:117-165 | With separator-free families and room for more than one, each of the first families in name order, as far as the total cap reaches, has its best candidate included: highest score, smallest ID among equals |
| `SelectionChoice.OnlyTheBest` | pkg/outsidectl/candidates.go:104-205 | With room for one, that is the highest score of all, the smallest ID among equals |
| `SelectionChoice.NoBetterReplacement` | pkg/outsidectl/candidates.go:137-184 | For every input: no candidate left out could replace one that is included and no seed, within caps and endpoints, and have a higher score, or the same score and a smaller ID |
| `SelectionChoice.ReasonsTrue` | pkg/outsidectl/candidates.go:137-184 | Every reason given for an exclusion is true of the selection reported with it |
| `SelectionChoice.CapBeforeDuplicate` | pkg/outsidectl/candidates.go:137-151 | A candidate that finds both its family full and its endpoint taken is reported for the family |
| `SelectionChoice.IncludedById` | pkg/outsidectl/candidates.go:186-205 | The included candidates come in ascending order of their IDs |
| `SelectionChoice.DefaultCaps` | pkg/outsidectl/candidates.go:104-112 | Without caps exactly the smaller of 20 and the number of different endpoints is included |
| `Text.LeqMeans` | pkg/outsidectl/candidates.go:117-130 | The order of IDs and family names is Go's: a prefix, or smaller at the first difference |
| `SelectionTheorems.AnyFamilyOrder` | pkg/outsidectl/candidates.go:126-130 | Any two listings of the same families sort to the same list |
| `SelectionTheorems.OrderIrrelevant` | pkg/outsidectl/candidates.go:104-205 | With distinct IDs both result lists are the same for every order of the input |
| `SelectionTheorems.CollidingFamilies` | pkg/outsidectl/candidates.go:153-184 | Two families whose keys collide: a candidate is reported twice, so the condition of PartitionIff is needed |
| `SelectionTheorems.CollisionExists` | pkg/outsidectl/candidates.go:288-290 | Such families exist |
| `Validate.ValidateNormalizeAndScore` | pkg/outsidectl/candidates.go:74-102 | The loop with its set of seen IDs and the stable sort equal the function `Validation` |
| `Validate.ScoreRange` | pkg/outsidectl/candidates.go:292-308 | The score of a profile with valid trust and priority lies between -1019 and 1115 |
| `ScoreLaws.CandidateSteps` | pkg/outsidectl/candidates.go:292-308 | A level of trust is worth one point, a priority ten |
| `ScoreLaws.CandidateMonotone` | pkg/outsidectl/candidates.go:292-308 | More trust, a higher priority, a later creation and a later expiry never score lower |
| `ScoreLaws.CandidateAges` | pkg/outsidectl/candidates.go:292-308 | Fifteen points in the first week, five in the first thirty days, twenty less in the last two days before the expiry |
| `Validate.ValidationSound` | pkg/outsidectl/candidates.go:74-102 | What comes out has distinct IDs, supported families and the documented order, and the two lists together are as long as the input |
| `Validate.ValidationExact` | pkg/outsidectl/candidates.go:74-102 | Every input is reported once, under the ID it is known by, as candidate or as rejection; the candidates are exactly the scored canonical profiles that are the first of their ID |
| `Validate.RejectedTruly` | pkg/outsidectl/candidates.go:74-102 | A profile is rejected only for a problem it has, or because two inputs normalise to its ID |
| `Validate.PipelineComplete` | pkg/outsidectl/candidates.go:74-205 | After validation, selection always reports every candidate exactly once and selects as many as the caps allow |
| `Chunks.ChunkString` | pkg/outsidectl/chunk.go:20-52 | The cutting loop: both errors, or the numbered parts |
| `Chunks.RenderChunkLines` | pkg/outsidectl/chunk.go:54-84 | The first failing check decides the error and leaves the caller's slice alone; otherwise the slice is sorted in place and its lines are printed |
| `ChunkProofs.JoinIff` | pkg/outsidectl/chunk.go:139-173 | JoinChunks succeeds exactly when all chunks are of version 1, share ID and total, and their indices are a permutation of 1..total |
| `ChunkProofs.JoinPermutation` | pkg/outsidectl/chunk.go:139-173 | Whether the join succeeds, and what text then comes out, does not depend on the order of the chunks |
| `ChunkProofs.ErrorDependsOnOrder` | pkg/outsidectl/chunk.go:139-173 | Which error a failing set of chunks gives does depend on their order |
| `ChunkProofs.JoinErrorTrue` | pkg/outsidectl/chunk.go:139-173 | The error of a failed join names something that is wrong with the chunks |
| `ChunkProofs.RenderErrorTrue` | pkg/outsidectl/chunk.go:54-76 | A refusal to print names something that is wrong with the chunks and leaves them alone |
| `ChunkProofs.JoinChunks` | pkg/outsidectl/chunk.go:139-173 | The imperative join with its seen map and in-place sort equals the function `Join` |
| `ChunkProofs.JoinChunkLines` | pkg/outsidectl/chunk.go:124-137 | Parsing all lines, with the error of the first bad one, and joining |
| `ChunkRoundTrip.ParseRendered` | pkg/outsidectl/chunk.go:80-121 | Parsing a printed line gives the chunk back with its data trimmed |
| `ChunkRoundTrip.LineExample` | pkg/outsidectl/chunk.go:80 | A line as it is sent |
| `ChunkRoundTrip.ParsedMeans` | pkg/outsidectl/chunk.go:86-121 | A line is read as a chunk only if it is the format word, an ID, two numbers with a slash and data, which are those of the chunk |
| `ChunkRoundTrip.PartsSound` | pkg/outsidectl/chunk.go:33-40 | Cutting loses nothing; no part is empty or longer than the limit |
| `ChunkRoundTrip.TrimmedParts` | pkg/outsidectl/chunk.go:114 | Trimming the parts shortens the text unless every part was trimmed already |
| `ChunkRoundTrip.Transport` | pkg/outsidectl/chunk.go:20-173 | In every order of the lines, the concatenation of the trimmed parts comes out |
| `ChunkRoundTrip.RenderAccepts` | pkg/outsidectl/chunk.go:60-76 | Printing succeeds exactly when no part is blank |
| `ChunkRoundTrip.RoundTripIff` | pkg/outsidectl/chunk.go:20-173 | Text survives chunking, printing, reordering and joining if and only if no part begins or ends with white space; otherwise nothing is printed or a shorter text comes back |
| `ChunkRoundTrip.PrintedRoundTrip` | pkg/outsidectl/chunk.go:20-173 | The same from the outcome of RenderChunkLines on the chunks of a text: it prints exactly when no part is blank, in index order, and any reordering of its lines joins to the text if and only if no part begins or ends with white space |
| `ChunkRoundTrip.SpaceFreeRoundTrip` | pkg/outsidectl/chunk.go:20-173 | White-space-free text survives every chunk size and every order of its lines |
| `ChunkRoundTrip.BlankIsLost` | pkg/outsidectl/chunk.go:20-173 | The text ab c in pieces of three comes out as abc, in either order of its lines |
| `Windows.LastNAppend` | cmd/inside/runtime_api.go:61-64 | Cutting a window at every step keeps exactly the end of everything |
| `EventBus.SendDropOldest` | cmd/inside/runtime_api.go:96-110 | While the consumer may receive between the selects: the new event always ends up last, everything before it was either taken by the consumer or is still there except at most one event, which only a full channel loses; with an idle consumer that is the oldest one |
| `EventBus.Bus.constructor` | cmd/inside/runtime_api.go:44-57 | Sizes below one become one |
| `EventBus.Bus.Publish` | cmd/inside/runtime_api.go:59-69 | The ring becomes the last maxRing events, and every subscriber finds the event as SendDropOldest promises |
| `EventBus.Bus.RecentEvents` | cmd/inside/runtime_api.go:71-80 | The last `limit` events, or all of them |
| `EventBus.Bus.Subscribe` | cmd/inside/runtime_api.go:82-86 | A new open, empty channel joins the subscribers |
| `EventBus.Bus.Cancel` | cmd/inside/runtime_api.go:88-93 | The channel leaves the subscribers and is closed |
| `EventBusSteps.StepInv` | cmd/inside/runtime_api.go:59-110 | Every step of publish, the selects, subscribe, cancel and receive keeps the invariant |
| `EventBusSteps.Safety` | cmd/inside/runtime_api.go:59-110 | In every interleaving: nobody sends on a closed channel or closes one twice, the ring is the end of the log, between publishes every live buffer is a contiguous run of the log ending at the newest event, and every consumer gets events in log order |
| `EventBusSteps.ThirdSelectSends` | cmd/inside/runtime_api.go:106-109 | The default branch of the third select is never taken |
| `EventBusSteps.PublisherReady` | cmd/inside/runtime_api.go:59-69 | Publish always has an enabled step, whatever the consumers do |
| `EventBusSteps.PublishFinishes` | cmd/inside/runtime_api.go:59-69 | Publish needs at most four steps per subscriber and one more, in every interleaving |
| `EventBusSteps.NothingLost` | cmd/inside/runtime_api.go:59-110 | The number of events lost by a channel, offered but neither in it nor taken out, is never negative, and if it is 0 the consumer misses nothing |
| `EventBusSteps.PublishLosesAtMostOne` | cmd/inside/runtime_api.go:59-110 | In every interleaving from a call of publish to its return a channel loses at most one event, and none unless the first select for it found its buffer full |
| `EventBusSteps.QuietConsumer` | cmd/inside/runtime_api.go:96-110 | A subscriber that takes nothing meanwhile finds its buffer followed by the event, without the oldest entry if and only if the buffer was full |
| `EventBusSteps.StreamHandoff` | cmd/inside/runtime_api.go:301-330 | Subscribe first, backlog second: as long as the channel lost nothing, backlog and channel cover the log from the first backlog event on, and the events delivered twice are those published between the two calls that the backlog still holds |
| `EventBusSteps.BacklogFirstLosesEvents` | cmd/inside/runtime_api.go:301-304 | In the opposite order an event can be lost |
| `Adaptive.AdaptiveState.constructor` | pkg/policy/adaptive.go:69-82 | A fresh state with the window size clamped to 50..100 |
| `Adaptive.AdaptiveState.SnapshotDisk` | pkg/policy/adaptive.go:96-111 | The snapshot is the whole state, with the defaults applied |
| `Adaptive.AdaptiveState.ReplaceDisk` | pkg/policy/adaptive.go:113-125 | The state becomes the snapshot, with the defaults applied |
| `Adaptive.AdaptiveState.Reset` | pkg/policy/adaptive.go:127-134 | Events, history and cooldowns are gone, the rest stays |
| `Adaptive.AdaptiveState.RecordSelection` | pkg/policy/adaptive.go:142-152 | Blank IDs are ignored; otherwise the history is cut to 32 |
| `Adaptive.AdaptiveState.RecordAttempt` | pkg/policy/adaptive.go:154-178 | When enabled and not blank: the event is appended, the window cut, and a failure starts a cooldown |
| `Adaptive.AdaptiveState.SelectProfile` | pkg/policy/adaptive.go:236-380 | The loops over window and profiles, both filters, both unstable sorts and the diversity guard give an answer of the relation `Decided` |
| `Adaptive.AdaptiveState.Tallies` | pkg/policy/adaptive.go:274-289 | The single pass over the window gives, for every profile, its five direct sums |
| `Adaptive.ScoreOf` | pkg/policy/adaptive.go:306-331 | The score, step by step |
| `Adaptive.CollectFailures` | pkg/policy/adaptive.go:248-259 | The loop from the newest event on |
| `Adaptive.UseOrchestrator` | pkg/policy/adaptive.go:382-397 | Close scores, two recent failures, or an unknown one |
| `Adaptive.RecentSelectionStreak` | pkg/policy/adaptive.go:399-408 | The loop equals the function `Streak` |
| `AdaptiveMemory.FailureName` | pkg/policy/adaptive.go:180-211 | No failure is recorded under a blank name, and normalising a name twice changes nothing |
| `AdaptiveLaws.FailureTable` | pkg/policy/adaptive.go:180-211 | Exactly which reported names, and which signals without a name, are recorded under each name the policy reacts to; other names stay as they are |
| `AdaptiveLaws.AttemptRemembered` | pkg/policy/adaptive.go:154-178 | An accepted attempt is the newest event, as it was reported; a failure blocks its profile for sixty seconds; nothing else changes but the oldest event of a full window |
| `AdaptiveLaws.SelectionRemembered` | pkg/policy/adaptive.go:142-152 | A selection lengthens its own streak, as far as a history of 32 shows it, and ends every other; a blank one changes nothing |
| `AdaptiveLaws.WindowLength` | pkg/policy/adaptive.go:69-178 | After any run of calls the window holds as many of the accepted attempts as fit into fifty to a hundred, the history as many selections as fit into 32 |
| `AdaptiveLaws.WindowRepaired` | pkg/policy/adaptive.go:84-94 | A stored window size out of range becomes eighty |
| `AdaptiveMemory.StreakInWindow` | pkg/policy/adaptive.go:142-151 | A history cut to its last n entries has the streak min(n, streak) |
| `AdaptiveRuns.BoundedMemory` | pkg/policy/adaptive.go:127-178 | After any run of calls: events are exactly the last accepted attempts, cooldowns exactly those of the whole log, the history exactly the last 32 non-blank selections, all since the last reset |
| `AdaptiveRuns.StreakExact` | pkg/policy/adaptive.go:142-151 | Cutting the history to 32 never changes whether the streak reaches 10 |
| `AdaptiveRuns.FailureCools` | pkg/policy/adaptive.go:175-177 | A failed accepted attempt keeps its cooldown for 60 seconds through everything but a reset |
| `AdaptiveScores.DecayWeight` | pkg/policy/adaptive.go:223-234 | The weight lies between one tenth and one |
| `AdaptiveScores.DecayMonotone` | pkg/policy/adaptive.go:223-234 | Older events never weigh more |
| `ScoreLaws.DecayShape` | pkg/policy/adaptive.go:223-234 | The weight falls evenly from one to one tenth over four and a half minutes |
| `ScoreLaws.AdaptiveMonotone` | pkg/policy/adaptive.go:306-331 | With the same tally and failures a profile with better figures never scores lower |
| `ScoreLaws.AdaptiveSteps` | pkg/policy/adaptive.go:306-320 | One point is one per cent of success or ten milliseconds, a consecutive failure costs five; stored figures count only until the window holds an attempt |
| `ScoreLaws.AdaptiveTrust` | pkg/policy/adaptive.go:315-320 | Five levels of trust are one point, and a missing trust counts as fifty |
| `ScoreLaws.FirstSuccess` | pkg/policy/adaptive.go:274-320 | After one timed success a profile scores as a perfect one with that latency |
| `AdaptiveScores.TallySplits` | pkg/policy/adaptive.go:274-289 | Success and failure weight add up to the total, which is positive exactly for profiles in the window |
| `AdaptiveScores.RateBounds` | pkg/policy/adaptive.go:306-309 | The success rate lies in 0..1 |
| `AdaptiveScores.LatencyBetween` | pkg/policy/adaptive.go:310-313 | The averaged latency lies between the smallest and the largest positive latency observed |
| `AdaptiveScores.ScoreBound` | pkg/policy/adaptive.go:306-331 | No score of a sane profile exceeds 131 |
| `AdaptiveScores.ScoreBoundTight` | pkg/policy/adaptive.go:248-331 | The bound is reached, in any window that does not mention the profile and whose recent failures give it both bonuses |
| `AdaptiveScores.BothBonuses` | pkg/policy/adaptive.go:248-259 | Such a window exists: two failures of another profile |
| `AdaptiveScores.UdpGap` | pkg/policy/adaptive.go:274-331 | Of two profiles that differ in ID and transport only and have the same tally in the window, the TCP one leads by twenty points while UDP failures are recent, and otherwise they tie |
| `AdaptiveFailures.RecentAfterFailure` | pkg/policy/adaptive.go:248-259 | A new failure comes first on the list of recent failures, its older occurrence leaves, and the list is cut to six |
| `AdaptiveFailures.GainPositive` | pkg/policy/adaptive.go:321-331 | Who gains by a change of the list: exactly a TCP profile when UDP failures enter it, a UDP one when they leave it, and one with a fingerprint when TLS failures enter it and the transport does not lose |
| `AdaptiveFailures.FailureEffect` | pkg/policy/adaptive.go:154-331 | The exact effect of an accepted failure on the score of its profile at any later time, with eviction and the recomputed list of recent failures: the score falls if and only if the gain by the list is less than the cost in the tallies, both given by the memory before the call |
| `AdaptiveFailures.FailureLowers` | pkg/policy/adaptive.go:154-331 | As long as nothing is evicted, a failure without a latency costs at least half a point before that gain |
| `AdaptiveFailures.FullWindowCost` | pkg/policy/adaptive.go:154-331 | With a full window too the cost is never negative, and at least half a point unless the evicted event was a failure of the same profile |
| `AdaptiveFailures.RisingFailure` | pkg/policy/adaptive.go:154-331 | A failed attempt can raise the score of its profile: the first recorded UDP block lifts a TCP profile without earlier successes by three points, and by four when its cooldown ends |
| `AdaptiveFailures.IgnoredFailure` | pkg/policy/adaptive.go:154-160 | A failure that is not accepted changes no score |
| `AdaptiveScores.RecentFailuresExact` | pkg/policy/adaptive.go:248-259 | A failure is listed exactly when fewer than six different ones came after one of its occurrences; at most six, none twice |
| `AdaptiveRanking.NeverCollapses` | pkg/policy/adaptive.go:291-354 | An enabled state ranks nobody only when no profile is switched on and past both cooldowns: the DNS rule never empties the ranking |
| `AdaptiveRanking.RankedAreCopies` | pkg/policy/adaptive.go:291-349 | Every entry is a rescored copy of an input that is switched on and past both cooldowns |
| `AdaptiveRanking.DnsLastResort` | pkg/policy/adaptive.go:301-354 | While DNS failures are recent, a DNS-dependent profile is ranked only if every selectable one is |
| `AdaptivePools.DnsRankedLast` | pkg/policy/adaptive.go:291-349 | The same with the DNS family and the tag spelled out |
| `AdaptivePools.NeedsDnsExactly` | pkg/policy/adaptive.go:213-305 | Who is DNS-dependent: the DNS family, or the tag in any case and between any white space |
| `AdaptivePools.DnsOnlyRanking` | pkg/policy/adaptive.go:334-354 | When all that may be selected need DNS while it fails, the ranking lists exactly those inputs, as often as they were given, each with one hundred times its own success rate, in descending order of that rate |
| `AdaptivePools.DnsOnlyBest` | pkg/policy/adaptive.go:334-358 | The profile returned then has the highest success rate of all that may be selected |
| `AdaptivePools.AdmittedRanking` | pkg/policy/adaptive.go:291-333 | Otherwise it lists exactly the admitted inputs, as often as they were given |
| `AdaptiveLaws.RankedMaySelect` | pkg/policy/adaptive.go:291-349 | Every entry is enabled, not manually disabled and past both cooldowns, and the ranking is empty exactly if no input is |
| `AdaptiveRanking.ChoiceNearTop` | pkg/policy/adaptive.go:365-374 | The choice is the first entry, or under the guard the second, and at most five points below the best |
| `AdaptiveRanking.ScoresMatchRanking` | pkg/policy/adaptive.go:333-358 | Although the two lists are sorted separately, entry by entry the displayed score is the rounded score of the ranking |
| `AdaptiveLaws.DisplayedEntry` | pkg/policy/adaptive.go:333-358 | Every displayed entry is a ranked profile with its score rounded |
| `AdaptiveLaws.NearestTenth` | pkg/policy/adaptive.go:333-347 | Rounding is to the nearest tenth, halves away from zero |
| `AdaptiveLaws.DecisionExplained` | pkg/policy/adaptive.go:360-380 | The guard reports itself exactly when it moves, after ten selections in a row and at most five points apart; the reason carries the score of the selected profile |
| `AdaptiveLaws.AdvisorAsked` | pkg/policy/adaptive.go:382-397 | The advisor is asked exactly if the two best displayed scores are at most three points apart, two failures are recent, or one of them has no name |
| `AdaptiveTheorems.FailedStaysOut` | pkg/policy/adaptive.go:154-349 | Over any run with a non-decreasing clock and no later reset, a profile whose failed attempt was accepted at time t is in no ranking before t+60: after eviction, after restarts, and in the fallback branch too |
| `AdaptiveTheorems.FailedStaysOutOfEngine` | pkg/policy/engine.go:66-153 | The same for the ranking of the engine, as long as the adaptive state is enabled and may select some input |
| `AdaptiveTheorems.TcpBeforeUdp` | pkg/policy/adaptive.go:291-349 | While UDP failures are recent, a TCP profile stands before its UDP twin with the same tally in every ranking |
| `AdaptiveTheorems.CooldownEnds` | pkg/policy/adaptive.go:175-300 | Sixty seconds after the last recorded failure the cooldown no longer excludes |
| `AdaptiveTheorems.RankedScoreBound` | pkg/policy/adaptive.go:291-349 | In both branches no score of a sane profile exceeds 131 |
| `AdaptiveTheorems.GuardJudgesWholeRun` | pkg/policy/adaptive.go:365-374 | The guard fires exactly when the first entry made the last ten selections of the whole run and the second is at most five points behind |
| `Engine.PolicyEngine.Score` | pkg/policy/engine.go:87-117 | The deterministic score, step by step |
| `Engine.EngineScoreBound` | pkg/policy/engine.go:87-117 | The score of a sane profile is at most 139 less fifteen per consecutive failure |
| `ScoreLaws.EngineMonotone` | pkg/policy/engine.go:87-117 | A profile that succeeds no less often, is no slower, fails no more, succeeded no earlier and is trusted no less never scores lower |
| `ScoreLaws.EngineSteps` | pkg/policy/engine.go:87-117 | A consecutive failure costs fifteen points, a counted one a single point, a per cent of success, five levels of trust or TCP gain one |
| `ScoreLaws.EngineLatency` | pkg/policy/engine.go:92-96 | Handshakes below 300 ms gain ten points, those above a second lose ten, unknown ones neither |
| `ScoreLaws.EngineFreshness` | pkg/policy/engine.go:98-110 | A success counts as recent for an hour, an import as fresh for a week |
| `AdaptiveLaws.EngineFinds` | pkg/policy/engine.go:66-153 | The engine finds a profile exactly if some input is enabled, not manually disabled and past its health cooldown, and ranks only such profiles |
| `AdaptiveLaws.FallbackExplained` | pkg/policy/engine.go:131-153 | Without an answer of the adaptive state the decision names the profile returned, gives its score, displays the ranking as it is and asks no advisor |
| `Engine.PolicyEngine.RankDeterministically` | pkg/policy/engine.go:73-128 | The fallback ranking is the scored available profiles in descending order |
| `Engine.PolicyEngine.RankProfiles` | pkg/policy/engine.go:66-129 | The adaptive ranking if it is not empty, the deterministic one otherwise |
| `Engine.PolicyEngine.SelectProfile` | pkg/policy/engine.go:131-153 | With three readings of the clock: the adaptive answer, or the ranking of RankProfiles with its own decision |
| `Engine.NonEmptyIff` | pkg/policy/engine.go:66-153 | A profile is found exactly when some input is enabled, not manually disabled and past its health cooldown, whatever the adaptive state holds |
| `Engine.RankedFromInputs` | pkg/policy/engine.go:66-153 | Every entry is such an input, changed only in its score and a missing trust level |
| `Engine.BestFirst` | pkg/policy/engine.go:120-153 | Scores descend, the profile returned is the first, and the decision names the first or the second |
| `Engine.WhoAnswers` | pkg/policy/engine.go:131-153 | The adaptive state answers exactly when it is present, enabled, and some input is selectable |
| `Engine.AgreeUnlessGuarded` | pkg/policy/engine.go:133-137 | Returned profile and reported selection agree, except exactly when the adaptive state is enabled, some input is selectable, and the diversity guard moves to a second entry with another ID |
| `Engine.Disagreement` | pkg/policy/engine.go:133-137 | Two profiles for which they disagree |
| `Engine.CoolingStaysOut` | pkg/policy/engine.go:66-153 | While the adaptive state is enabled and some input is selectable, no profile in its adaptive cooldown is in any ranking of the engine |
| `Engine.CoolingComesBack` | pkg/policy/engine.go:66-153 | Otherwise every available input is ranked, whatever its adaptive cooldown |
| `Normalize.NormalizeForWire` | pkg/profile/normalize.go:15-120 | The checks and rewrites in their order equal the function `Normal`: the canonical record, or the first problem |
| `Normalize.UniqueSortedTags` | pkg/profile/normalize.go:160-178 | The loop equals dropping repeats among the cleaned tags |
| `NormalizeProofs.FamilySupported` | pkg/profile/normalize.go:122-138 | A canonical family is a supported one, free of the separator, and stays as it is |
| `NormalizeProofs.AcceptedProfile` | pkg/profile/normalize.go:15-120 | What every accepted profile satisfies |
| `NormalizeAcceptance.AcceptedExactly` | pkg/profile/normalize.go:15-224 | A profile is accepted if and only if its raw fields meet the conditions, family by family: ID and tag patterns, transport, credentials, endpoint, template reference, trust, times, priority |
| `NormalizeAcceptance.RefusedTruly` | pkg/profile/normalize.go:15-224 | The problem a refusal names is one the raw profile has |
| `NormalizeAcceptance.CanonicalFields` | pkg/profile/normalize.go:15-120 | What every field of the canonical record is made of |
| `NormalizeProofs.NeverDnsDependent` | pkg/policy/adaptive.go:213-305 | The tag the adaptive policy looks for cannot occur in an accepted profile |
| `NormalizeProofs.WireTagsTwice` | pkg/profile/normalize.go:70-71 | Tags come out unchanged the second time exactly when trimming and lower-casing kept them sorted |
| `NormalizeProofs.NormalizeTwice` | pkg/profile/normalize.go:15-120 | An accepted profile is a fixed point of normalisation exactly in that case |
| `NormalizeProofs.UntidyTags` | pkg/profile/normalize.go:160-178 | The tags Z and a come out as z, a: no longer sorted |
| `NormalizeProofs.NotAFixedPoint` | pkg/profile/normalize.go:15-120 | Any accepted profile is accepted with these tags as well, and is then changed by normalising it a second time |
| `NormalizeProofs.PlainAccepted` | pkg/profile/normalize.go:15-120 | There are accepted profiles |
| `NormalizeProofs.WireTagsDistinct` | pkg/profile/normalize.go:160-178 | The tags come out without repeats exactly when equal tags stand together after cleaning; tags that stay sorted do |
| `NormalizeProofs.TagTwice` | pkg/profile/normalize.go:160-178 | The tags A, B, a come out as a, b, a |
| `NormalizeProofs.CleanTagsStaySorted` | pkg/profile/normalize.go:70-71 | Trimmed lower-case tags are such a case |
| `Import.Importer.ProcessAndStore` | pkg/importctl/import.go:113-209 | The whole import with its lookup maps equals the function `Processed`, for every outcome of the four store accesses |
| `Import.Survivors` | pkg/importctl/import.go:122-138 | The loop over the stored rows: revoked rows are gone, and both maps describe the others |
| `Import.Collect` | pkg/importctl/import.go:141-193 | The loop over the bundle stops at the first profile with an error |
| `Import.CheckConflicts` | pkg/importctl/import.go:150-166 | The four conflict checks in their order |
| `Import.Complete` | pkg/importctl/import.go:168-189 | The defaults of an imported row |
| `Import.Importer.Store` | pkg/importctl/import.go:195-208 | Templates are merged and saved first, profiles after that |
| `ImportProofs.ConflictsExact` | pkg/importctl/import.go:150-166 | In a consistent store the four map lookups find no conflict exactly when there is none |
| `ImportProofs.GatherExact` | pkg/importctl/import.go:141-193 | A bundle is accepted exactly when all its profiles normalise and the merged rows are consistent; the new rows are the finished profiles in order |
| `ImportProofs.ImportExact` | pkg/importctl/import.go:113-209 | Exactly when an import succeeds, is refused for its contents, or fails on a store, and what the profile store then holds |
| `ImportRows.ImportedRows` | pkg/importctl/import.go:113-209 | After a successful import the store holds the rows that were not revoked, unchanged and in their order, and then one row for every profile of the bundle with its credentials, priority, expiry, publisher key, mutations and trust unchanged, missing times set to now, and texts trimmed |
| `ImportRows.TemplatesMerged` | pkg/importctl/import.go:195-208 | Every template of the bundle is stored and the other templates stay |
| `ImportRows.RejectedTruly` | pkg/importctl/import.go:141-193 | A bundle refused for its contents is refused for its first profile that does not normalise or fit, and the error names that profile and what it collides with |
| `ImportProofs.AlwaysConsistent` | pkg/importctl/import.go:113-209 | From an empty store, after any imports whatever, two rows have the same ID if and only if they have the same family, host and port |
| `ImportProofs.FailureLeavesStores` | pkg/importctl/import.go:113-209 | A failed import never changes the profile store; it changes the template store exactly when the bundle is acceptable, saving the templates succeeds and they differ from the stored ones |
| `ImportProofs.TemplatesLeftBehind` | pkg/importctl/import.go:195-208 | A store, a bundle and store accesses for which a failed import leaves a template behind |
| `ImportProofs.RevokedGone` | pkg/importctl/import.go:122-138 | A revoked ID survives only if the same bundle brings it again |
| `ImportProofs.ImportUsable` | pkg/importctl/import.go:168-192 | After an import of at least one profile the policy engine always finds a profile |
| `ImportProofs.NewRowsOutrankFailing` | pkg/importctl/import.go:168-189 | In the hour after an import every new row scores above any sane profile with six failures in a row, in the deterministic ranking |
| `ImportProofs.ReimportAccepted` | pkg/importctl/import.go:113-209 | Importing the same bundle again while its profiles normalise fails only if a store does |
| `ImportProofs.Reimport` | pkg/importctl/import.go:122-192 | The profile store then holds the earlier rows, the first import's rows whose IDs the bundle does not revoke, and the second import's rows: unrevoked profiles are stored twice |
| `Rotation.RotationManager.GetHealthyCandidates` | pkg/policy/rotation.go:155-178 | The loop that deletes while it filters: the healthy profiles in order, and a blacklist without the expired entries of stored profiles |
| `Rotation.RotationManager.Rotate` | pkg/policy/rotation.go:101-152 | One rotation with every combination of failing helpers |
| `Rotation.RotationManager.HandleAnomaly` | pkg/policy/rotation.go:64-90 | The anomaly branch of the loop: window, emergency, blacklist, rotation, reset |
| `RotationRuns.PickIsHealthy` | pkg/policy/rotation.go:101-178 | A rotation that reaches config generation picked the first stored profile without an unexpired entry; it stops earlier only if the store fails or all profiles are blocked |
| `RotationRuns.ExpiredGone` | pkg/policy/rotation.go:155-178 | A rotation that reads the store leaves no expired entry of a stored profile behind |
| `RotationRuns.CurrentIsLastPick` | pkg/policy/rotation.go:101-152 | Over any run the current profile is the one the last rotation picked, even if its configuration could not be generated or applied |
| `RotationRuns.BansEnd` | pkg/policy/rotation.go:62-178 | A tick an hour or more after the last event picks the first stored profile |
| `RotationRuns.RotateKeeps` | pkg/policy/rotation.go:101-178 | What a rotation may write to the blacklist |
| `RotationRuns.NextKeeps` | pkg/policy/rotation.go:62-97 | No write of any event shortens an unexpired entry |
| `RotationRuns.BannedStaysOut` | pkg/policy/rotation.go:62-178 | Over any run with a non-decreasing clock, an entry stays and its profile is not picked until it ends |
| `RotationRuns.EmergencyBan` | pkg/policy/rotation.go:79-88 | The profile that the last rotation picked before an emergency is picked neither by that emergency's rotation nor by any other for sixty minutes |
| `RotationRuns.ReloadBan` | pkg/policy/rotation.go:141-148 | A profile whose hot reload failed is not picked again for thirty minutes |
| `RotationRuns.IntervalSetByFailure` | pkg/policy/rotation.go:119-133 | The rotation interval is unset until the advisor first fails in a rotation that asks it, and 600 seconds from then on |
| `RotationRuns.FallbackNamesFamily` | pkg/policy/rotation.go:119-133 | A failing advisor leaves a configuration with the family of the picked profile and 600 seconds, a working one leaves the configuration alone |
| `RotationRuns.FewHeld` | pkg/policy/rotation.go:66-90 | After every anomaly fewer than three are held, all newer than sixty seconds |
| `RotationRuns.HeldExact` | pkg/policy/rotation.go:66-76 | Dropping old anomalies at every report loses nothing the window would still need |
| `RotationRuns.EmergencyExact` | pkg/policy/rotation.go:66-90 | An emergency is declared exactly when at least three of all anomalies since the previous one are newer than sixty seconds |

## Left out

- ConvertBits: target widths from 1 to 8 bits, so that a symbol is a byte, source widths below 32, the range of a shift distance, and widths that add up to at most 33, beyond which the 32-bit word can lose pending bits; the app only uses 8 and 5.
- Encode: characters of the prefix are Unicode scalar values; Kotlin's UTF-16 code units outside the Basic Multilingual Plane are not modelled.
- The error-detection claim of BIP 173 for four scattered errors and its 90-character limit; only bursts and single changes are proved.
- The upper-casing of the secret key after encoding: a character-wise map outside the encoder.
- NormalizeForWire: sort.Strings sorts the caller's tag slice in place; the model returns the tags and does not capture that aliasing.
- SelectForBundle: the manifest, which repeats ID, family and score of the included candidates.
- SelectProfile: the texts of the reasons; their numbers are kept.
- SelectProfile and the engine: calls of one SelectProfile are not interleaved with other calls on the same adaptive state.
- Rounding and NaN of float64: scores and weights are reals, bundle scores are integers.
- Unicode case folding and Unicode white space: strings.ToLower, EqualFold and TrimSpace are modelled on ASCII.
- Cryptography: signatures, age, AES-GCM, and the SHA-256 of the chunk ID, which is any non-empty text free of white space.
- Replay detection, signature checks and decoding of bundles before ProcessAndStore.
- The encrypted stores on disk and JSON: a store is its rows in memory, a failed save changes nothing.
- The HTTP server, the event stream's encoding, and the runtime snapshot.
- Engine.Evaluate: a short list of independent rules.
- The ticker of the rotation loop: ticks come at any time; its interval is unset until the advisor fails (`IntervalSetByFailure`), and what a ticker does with that is not modelled.
- The advisor's proposal, which the rotation manager does not use beyond its error.
- DPI probes, sing-box control, the mesh and DNS fallbacks, the Android services, the website and the release tooling.
