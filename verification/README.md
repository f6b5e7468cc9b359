# Verified core of the supryolo miner

A Dafny model of the deterministic parts of the miner and proofs about them. `dafny verify dfyconfig.toml`
checks everything. Exceptions of the original end a connection (or a scan); they are modelled as `Failure` or
`None`, after which nothing continues.

Each file holds the module of its name. How they build on each other:

- `Base`, `Bits`, `Hex`: byte strings and their numbers in both byte orders; 64-bit addition, xor, and rotation
  written in several machine-specific ways; hexadecimal text.
- `Ordering`, `ShareLedger`, `ShareConformance`, `BatchConfluence`: the books of submitted shares. Acknowledgements are
  cumulative and carry only a count; refusals are individual and may arrive later. Conservation holds over all runs,
  and a run is survived if and only if every event is allowed by those before it. Confluence: for a fixed set of
  decisions, a delivery order is survived if and only if no batch is acknowledged after its own last share was refused,
  and all surviving orders end in the same state.
- `Framing`, `FrameLayout`, `PeerLog`: chunked encrypted framing over an ideal cipher, decoded incrementally. Round trip; exactly
  which ways of cutting an honest stream into reads succeed, in terms of byte counts, and what they deliver; the proof
  that 8192-byte reads always do; and, against a log of what the peer sealed, that arbitrary input never delivers
  anything but a prefix of the peer's frames.
- `Blake2b`, `RoundLaws`, `Scan`, `Gpu`, `Avx2`: the general multi-block BLAKE2b of RFC 7693 (sections 2.5, 2.7 and
  3.1 to 3.3) as reference, the scalar one-block implementation, the plain nonce loop, and the CUDA, OpenCL and AVX2
  variants, each proved to return what the plain loop returns. The rounds are written once for any word type and any
  mixing function, so reordering and lane-wise arguments never look inside the arithmetic. A GPU scan runs the device
  hash of its variant on the uploaded parameters; that this is the oracle's hash is a theorem, not an assumption.
- `MachineWords`, `KnownAnswer`: what ties the hash model to the outside. 64-bit bit-vector arithmetic is the model's
  arithmetic, for any number of rounds; and computed in it, the digest of the bytes 0 to 127 is the one BLAKE2b-256
  gives, so a wrong constant, schedule entry, index or rotation would show.
- `Codec`, `WireForm`, `Targets`, `Difficulty`, `Coin`: SV2 messages against an encoder for the pool's side and, frame by
  frame, against their byte offsets; compact targets; decimal difficulty as an exact rational; job headers.
- `Jobs`, `Sv2`, `Outstanding`, `SessionObject`, `SessionConfluence`: the SV2 channel as a state machine (one reaction
  per message), its whole-run properties, the object that implements it field by field, and confluence for whole
  session runs.
- `Sv2Conformance`, `SessionOrigins`, `SessionReplies`: the SV2 session told from its messages alone. Which sequences it
  survives, as an if-and-only-if; which jobs it hands out; what it reports.
- `Stratum`, `Sv1Conformance`, `Sv1Origins`: the SV1 session as object and as state machine, and the same questions for
  it, down to the check the pool makes of a submission.
- `NoncePartition`, `Claims`, `Scheduler`, `Exchange`: search-space reservation, the shared scheduler as interleaved
  atomic steps, and the mutex-protected objects that perform those steps.
- `Miner`: one connection as a whole. The main loop, a session of either protocol and any number of workers up to 192
  interleave arbitrarily.
- `Histories`, `Fates`, `Answers`, `SubmittedFrames`, `Reservations`, `OwnReservations`: what holds of every run of a
  connection. Its session is the run of what it was fed; a find is submitted exactly while the pool wants it; the workers
  have the newest job; no hit is lost or made up; the counters are the pool's answers; what is written, byte by byte;
  and which nonces are searched, shared in SV2 and per worker in SV1.
- `Connection`, `Iteration`: the SV2 main loop as an object with its iteration, and its agreement with the interleaved
  model.

Granularity of `Miner`: a worker step is one critical section together with local computation; a main-loop step
is the handling of one message, the swap of the find queue, or one submission. Session state belongs to the main
thread alone, so processing all messages of one read before the replies are looked at is one step, as in
src/miner.cpp:557-561.

Where text and code differ the code is followed: docs/ARCHITECTURE.md:124 says every worker owns its own nonce
partition, but SV2 workers share slot 0 and one cursor (src/miner.cpp:489-491); only SV1 uses per-worker parts.

## Model

| member | source | states |
|---|---|---|
| Base.LeOfLeBytes | src/crypto.cpp:37-48 | storing a number least byte first and loading it gives the number back |
| Base.LexIsNumeric | src/crypto.cpp:113-115 | lexicographic order of equal-length strings is the order of big-endian numbers |
| ShareLedger.SettleConserves | src/sv2_session.cpp:43-59 | settling removes the lowest outstanding shares, as many as the settled batches count, and reports them ascending |
| ShareLedger.Conservation | src/sv2_session.cpp:128-162 | over every run: accepted, refused and outstanding partition the submitted shares, acceptances strictly increase over the whole run, their number is the sum of settled counts |
| ShareConformance.LedgerSurvives | src/sv2_session.cpp:128-160 | a sequence of share events is survived iff each is allowed by those before it: rising sequence numbers, at most 4096 outstanding, counts from 1 to 4096, rising ends that are outstanding, known refusals, no short batch |
| ShareConformance.SettlesUnlessShort | src/sv2_session.cpp:43-52 | settling fails iff it comes to a batch that claims more shares than are outstanding up to its end |
| BatchConfluence.Confluence | src/sv2_session.cpp:43-59 | any interleaving of ordered acknowledgements and individual refusals survives iff no batch is acknowledged after its own last share was refused, and then always ends in the same books |
| BatchConfluence.OrderIrrelevant | src/sv2_session.cpp:128-144 | two surviving orders of the same decisions end with equal books and equal lists of acceptances |
| BatchConfluence.NoOrderFails | src/sv2_session.cpp:128-144 | if no batch ends in a refused share, every order of delivery survives |
| BatchConfluence.LateEndRejected | src/sv2_session.cpp:128-132 | acknowledging a batch whose last share was already refused ends the session |
| Framing.RoundTrip | src/sv2_noise.cpp:41-97 | any list of frames up to 1 MiB is decoded to itself with the receive counter at the number of cipher messages sent |
| Framing.ChunkShape | src/sv2_noise.cpp:48-52 | chunks are at most 65519 bytes, never empty, and concatenate to the payload; exact multiples leave no empty chunk |
| FrameLayout.FrameOnWire | src/sv2_noise.cpp:41-54 | by byte offset: the first 22 bytes open to extension, type and size, and the i-th 65519 bytes of the payload stand sealed at byte 22 + 65535 i under counter n + 1 + i, and nothing else |
| Framing.DrainResumes | src/sv2_noise.cpp:63-91 | decoding part of the input, then the rest, is decoding all of it |
| Framing.Reencodes | src/sv2_noise.cpp:64-87 | for any input bytes, the frames delivered encode back to the bytes they were read from |
| Framing.FramesAreBounded | src/sv2_noise.cpp:70-73 | on any input a frame delivered or begun has at most 1 MiB of payload, whatever length a header announces |
| PeerLog.LoggedIsSealed | src/sv2_noise.cpp:29-40 | a cipher that opens exactly the peer's log exists for every log |
| PeerLog.Genuine | src/sv2_noise.cpp:55-97 | if only the peer's messages open, each at its counter, then whatever bytes arrive and however they are cut, the frames delivered are a prefix of those the peer sealed |
| Framing.FailureIsFinal | src/sv2_noise.cpp:93-96 | more input never repairs a failed stream |
| Framing.ArrivedFits | src/sv2_noise.cpp:41-54 | the number of complete frames in a stream prefix is the unique one whose encoding fits while the next does not |
| Framing.StreamPrefix | src/sv2_noise.cpp:55-92 | a prefix of an honest stream yields exactly its complete frames |
| Framing.SegmentsJoin | src/sv2_noise.cpp:55-92 | for any stream, successive receives succeed iff one decode of the concatenation does and no read trips a limit, and then they are equal |
| Framing.Fragmentation | src/sv2_noise.cpp:55-97 | an honest stream cut anyhow is received iff every read plus what was left over fits the buffer and completes at most 1024 frames, counted from frame sizes alone; then exactly the frames completed so far are returned |
| Framing.LeftoverIsUnread | src/sv2_noise.cpp:63-91 | the unread bytes after any prefix of an honest stream are those of its incomplete header or chunk |
| Framing.FloodInOneRead | src/sv2_noise.cpp:88-89 | the limit condition is needed: k empty frames in one read, for any 1025 <= k <= 47848, fit the buffer and fail |
| Framing.ReadBudget | src/sv2_noise.cpp:59-60 | with reads up to 8192 bytes fewer than 65535 bytes remain and at most 373 frames complete per call |
| Framing.SmallReadsSucceed | src/sv2_noise.cpp:59-90 | so neither the buffer limit nor the flood limit can trip on an honest stream |
| Framing.HonestDelivery | src/sv2_noise.cpp:55-97 | reads up to 8192 bytes of an honest stream always succeed and return the completed frames |
| Framing.CountersAgree | src/sv2_noise.cpp:29-54 | at the end of the sent frames, if the reads respected the limits both cipher counters agree and nothing is left over, and otherwise the receiver has failed |
| Framing.Noise.Finish | src/sv2_noise.cpp:22-28 | the cipher comes up once, on an authentic handshake; anything else fails it for good |
| Framing.Noise.Encode | src/sv2_noise.cpp:41-54 | the loop emits the specified sealed header and chunks and advances the counter by that many |
| Framing.Noise.ReadHeader | src/sv2_noise.cpp:66-74 | reading a header keeps the decoder where the specification says |
| Framing.Noise.ReadChunk | src/sv2_noise.cpp:75-84 | reading a chunk keeps the decoder where the specification says |
| Framing.Noise.TakeFrames | src/sv2_noise.cpp:62-90 | the resumable loop returns exactly what the specification drains |
| Framing.Noise.Receive | src/sv2_noise.cpp:55-97 | one receive equals one segment of the specification; failure is sticky |
| Bits.ShiftsRotate | src/cuda/blake2b.cu:26-27 | two shifts joined by or are a right rotation |
| Bits.HalvesRotateIsRotr | src/cuda/blake2b.cu:28-42 | the funnel-shift sequence on 32-bit halves is right rotation by 32, 24, 16 and 63 |
| Bits.ShufflesRotate | src/cpu_avx2.cpp:29-38 | the byte shuffles are right rotation by 24 and 16 |
| Bits.RotrBytes | src/cpu_avx2.cpp:29-32 | a rotation by whole bytes rotates the bytes |
| Blake2b.OneBlock | src/crypto.cpp:65-102 | for up to 128 bytes the multi-block hash is a single compression of the padded block |
| Blake2b.LoadLe | src/crypto.cpp:37-42 | the shift loop reads the little-endian number |
| Blake2b.StoreLe | src/crypto.cpp:43-48 | the shift loop writes the little-endian bytes |
| Blake2b.MixAt | src/crypto.cpp:78-87 | the in-place mix changes four words as the reference mix does |
| Blake2b.Blake2b256 | src/crypto.cpp:49-103 | the scalar code computes the RFC 7693 hash (32-byte digest, no key) for up to 128 bytes and fails above; the constants and the digest itself are tied down by the rows below |
| Blake2b.InitialIsRoot | src/crypto.cpp:52-54 | initial word i is the first 64 bits of the fraction of the square root of the i-th prime |
| Blake2b.ParameterBlock | src/crypto.cpp:74 | the parameter block says 32 bytes of digest, no key, fanout 1, depth 1 |
| Blake2b.SigmaPermutes | src/crypto.cpp:55-64 | every row of the message schedule uses each of the sixteen words |
| MachineWords.MixIsMix | src/crypto.cpp:78-87 | one mix in 64-bit bit-vector arithmetic with shifts is the mix of the model |
| MachineWords.RoundsAgree | src/crypto.cpp:88-98 | any number of rounds in 64-bit machine arithmetic are the rounds of the model |
| KnownAnswer.DigestOfCountingBytes | src/crypto.cpp:49-103 | the digest of the 128 bytes 0, 1, .. 127 is the BLAKE2b-256 value of that input |
| RoundLaws.MapRounds | src/cpu_avx2.cpp:43-53 | a projection that respects the mix respects any number of rounds |
| RoundLaws.SameRounds | src/cuda/blake2b.cu:84-103 | mixing functions that agree give equal rounds |
| RoundLaws.DisjointMixesCommute | src/cuda/blake2b.cu:96-98 | column mixes 2 and 3 touch different words and commute, for any mixing function |
| RoundLaws.HoistingSound | src/cuda/blake2b.cu:196-198 | precomputing column mixes 0, 1 and 3 of round 0 without word 4 and adding mix 2 later gives the whole column step |
| Scan.MeetsNumeric | src/crypto.cpp:113-115 | a hash meets a target iff it is not above it as a 256-bit number |
| Scan.PrefilterSound | src/cuda/blake2b.cu:132-136 | a hash that meets the target also passes the comparison of the leading 64 bits |
| Scan.PrefilterMeaning | src/opencl/blake2b.cl:57 | the device's byte-swapped comparison is the comparison of the leading eight hash and target bytes |
| Scan.HitsMembers | src/cpu.cpp:15-19 | the result holds exactly the nonces of the range that solve |
| Scan.HitsAscending | src/cpu.cpp:15-19 | in strictly ascending order |
| Scan.CpuScan | src/cpu.cpp:9-23 | the scalar loop returns that list and fails exactly on an empty or overflowing range |
| Scan.NonceIsWordFour | src/cuda/blake2b.cu:79 | storing the nonce at byte 32 replaces message word 4 only |
| Scan.HeaderHash | src/crypto.cpp:99-102 | the digest of a header is its four hash words, least byte first |
| Gpu.DeviceMixIsMix | src/cuda/blake2b.cu:44-55 | every rotation variant of the device mix is the reference mix |
| Gpu.BuildParams | src/cuda/blake2b.cu:171-200 | the host's in-place mixing uploads the specified parameters |
| Gpu.Hash80 | src/cuda/blake2b.cu:56-107 | the device loop computes the device hash of its variant from the uploaded parameters |
| Gpu.DeviceHash | src/cuda/blake2b.cu:56-107 | with or without precomputation and with any rotation, the device hash words are the oracle's for the header with that nonce |
| Gpu.KernelItem | src/cuda/blake2b.cu:116-136 | one kernel item offers its nonce iff it is in range and its own hash word passes the uploaded target |
| Gpu.DeviceOffersAgree | src/opencl/blake2b.cl:54-58 | under every variant the device offers exactly the nonces whose oracle hash passes the prefilter |
| Gpu.OffsetsCovered | src/cuda/blake2b.cu:139-170 | the launch has an item for every offset of the range |
| Gpu.OffsetsUnique | src/cuda/blake2b.cu:114-119 | no two items share an offset |
| Gpu.NonceAtIsPlain | src/cuda/blake2b.cu:120-126 | the uniform high-word form of the nonce equals start plus offset |
| Gpu.KernelResult | src/cuda/blake2b.cu:112-138 | for every variant and under every order of the atomic increments the counter is the number of candidates and the buffer holds each once |
| Gpu.OverflowMeansCandidates | src/cuda/blake2b.cu:253-254 | the counter equals the number of prefilter hits of the range |
| Gpu.RecheckGivesHits | src/cuda/blake2b.cu:258-269 | re-checking the candidates leaves exactly the hits |
| Gpu.CudaScan | src/cuda/blake2b.cu:242-272 | for every variant, geometry and order, the hits of the scalar loop, each once; failure exactly on a bad range or overflow, never from the re-check |
| Gpu.OpenClScan | src/opencl/runtime.cpp:301-346 | for every variant and order, exactly the ascending list of the scalar loop; range, validation and duplicate errors are unreachable |
| Gpu.SortAndCheck | src/opencl/runtime.cpp:341-343 | returns the sorted list, and fails exactly when it holds duplicates |
| Avx2.LaneRotations | src/cpu_avx2.cpp:28-42 | each vector rotation is a lane-wise right rotation |
| Avx2.LaneHomomorphic | src/cpu_avx2.cpp:28-53 | every lane of the vector mix is the scalar mix of that lane |
| Avx2.CompressV | src/cpu_avx2.cpp:54-79 | lane l of the output is the scalar hash words for nonce + l, wrapping past 2^64 |
| Avx2.CheckLane | src/cpu_avx2.cpp:114-124 | the lane check never reports a mismatch and accepts exactly the solving nonces |
| Avx2.LimitIsTargetTop | src/cpu_avx2.cpp:109-116 | the swapped limit is the leading 64 bits of the target |
| Avx2.Avx2Scan | src/cpu_avx2.cpp:102-129 | the same list in the same order as the scalar loop for every work, start and count, tails included |
| Codec.DecodeUndoesEncode | src/sv2.cpp:68-128 | every message a pool may send is decoded to itself |
| Codec.DecodeOnlyEncoded | src/sv2.cpp:68-128 | every accepted frame is the encoding of the message it yields, byte for byte |
| Codec.DecodeIsCanonical | src/sv2.cpp:68-128 | decoding yields m iff m is sendable and the frame is its encoding |
| WireForm.DecodeIsWireForm | src/sv2.cpp:68-128 | a frame decodes to a message iff it has the message type, the channel bit, that message's fields at their byte offsets, and nothing else |
| Codec.WireTargetNumber | src/sv2.cpp:28-38 | the little-endian wire target is the same number big-endian inside |
| Codec.Reader.Integer | src/sv2.cpp:11-19 | the shift loop reads a little-endian integer and advances the span |
| Codec.Reader.Body | src/sv2.cpp:73-125 | the reader takes the fields in the specified order |
| Codec.DecodeFrame | src/sv2.cpp:68-128 | the imperative decoder computes the specified result |
| Codec.SubmitDetermines | src/sv2.cpp:153-158 | equal submit frames have all six fields equal |
| WireForm.SubmitOnWire | src/sv2.cpp:153-158 | a frame is the submission of a share iff it has channel, sequence, job, nonce, time and version at bytes 0, 4, 8, 12, 16 and 20 |
| WireForm.OpenRequestOnWire | src/sv2.cpp:143-152 | there is an open request iff the rate is finite and not negative and the user has at most 255 bytes; then it holds identifier, user, rate and target at their offsets |
| Hex.UnhexOfHex | src/crypto.cpp:10-36 | every byte string is read back from its text |
| Hex.UnhexSize | src/crypto.cpp:10-26 | a text is read as n bytes iff it consists of 2n hexadecimal digits |
| Hex.UnhexBytes | src/crypto.cpp:13-25 | each byte read is 16 times the value of its first digit plus that of its second, in either case of letters |
| Hex.Decode | src/crypto.cpp:10-26 | the nibble loop computes the specified decoding, failing on odd length or other characters |
| Targets.CompactIsFloor | src/coin.cpp:10-30 | the denoted value is floor(mantissa * 256^exponent / 2^24) |
| Targets.CompactTargetOf | src/coin.cpp:6-34 | succeeds exactly when the sign bit is clear and 0 < value < 2^256, and returns that number |
| Targets.PlaceBytes | src/coin.cpp:22-30 | placing mantissa bytes computes the value, and a dropped nonzero byte means it does not fit |
| Difficulty.ParseReads | src/crypto.cpp:116-138 | every positive literal, with or without a fraction and with or without an exponent, is read as the digits and scale it shows |
| Difficulty.ParseOnlyReads | src/crypto.cpp:116-146 | and nothing else is read: every accepted text is such a literal of at most 96 characters, not zero, with an exponent of at most 300 either way |
| Difficulty.DigitsJoin | src/crypto.cpp:132-136 | digits written together denote whole * 10^n + fraction |
| Difficulty.DifficultyTargetOf | src/crypto.cpp:139-158 | the scaling loops and division compute the specified target |
| Difficulty.QuotientIsFloor | src/crypto.cpp:147-152 | the integer quotient is the floor of the exact rational quotient |
| Difficulty.DifficultyTargetExact | src/crypto.cpp:116-159 | the target is min(2^256 - 1, floor(65535 * 2^208 / d)) for the parsed rational d |
| Difficulty.DifficultyAntitone | src/crypto.cpp:116-159 | larger difficulty never gives a larger target, and equal values give equal targets however written |
| Coin.StandardWorkOf | src/sv2.cpp:159-176 | the header is hidden hash, zero nonce, time and leaf hash; fails on a wrong extranonce size or a hash that is not hidden |
| Coin.RetimedIsStandard | src/miner.cpp:510-511 | overwriting the time of a standard header gives the standard header of that time |
| Coin.StandardLayout | src/sv2.cpp:159-176 | there is a header iff the extranonce has 12 bytes and the previous hash is below 2^208; field by field with a 32-bit nonce, upper halves zero, its root hashes the 52-byte leaf described by position |
| Coin.SiaWorkOf | src/coin.cpp:36-54 | the SV1 header from decoded texts, failing on any other layout |
| Coin.SiaShape | src/coin.cpp:38-52 | a successful header holds previous hash, zero nonce, time and root at their positions, and the root hashes the 52-byte leaf of zero, coinbase and both extranonces |
| Coin.LeafDeterminesExtranonce | src/coin.cpp:44-48 | with fixed field sizes different extranonces make different leaves |
| Sv2.SoundRun | src/sv2_session.cpp:21-42 | over every run: generations number the activations, headers and targets come from the state at activation, stored jobs of the epoch are the activated ones |
| Sv2.JobValidity | src/sv2_session.cpp:151-155 | after any run a job that was activated is valid iff its epoch is current; the current job is the last activated and always valid |
| Sv2.ValidWasActivated | src/sv2_session.cpp:151-155 | only jobs that were activated pass the validity test |
| Sv2.NeverRevived | src/sv2_session.cpp:100-118 | records of activated jobs never change and an invalid job stays invalid |
| Sv2.StateReflectsMessages | src/sv2_session.cpp:83-122 | epoch counts the previous-hash messages; previous hash and network target come from the last one, share target from the last announcement |
| Sv2.ShareTargetNumber | src/sv2_session.cpp:35-39 | a job's target is min(channel target, 2^224 - 1) |
| Sv2.SessionRunsLedger | src/sv2_session.cpp:128-162 | the session's books are the ledger run of its share events and exactly the settled shares are reported |
| Sv2.SharesConserved | src/sv2_session.cpp:128-162 | conservation for whole session runs |
| Sv2.FramesDeliverMessages | src/sv2_session.cpp:74-148 | a pool's encoded messages drive the state exactly like the messages |
| Sv2.FragmentationIsInvisible | src/sv2_session.cpp:74-150 | however an honest stream is cut, the session has reacted to exactly the messages whose frames are complete if the reads respect the limits, and has failed otherwise |
| Sv2.SmallReadsAreInvisible | src/sv2_session.cpp:74-150 | reads of at most 8192 bytes always respect the limits |
| SessionOrigins.JobsFollowMessages | src/sv2_session.cpp:83-122 | the jobs of a run are determined by its messages: one per offer with a time and per previous-hash message, built from that offer, the last previous hash, share target and extranonce announced |
| SessionOrigins.ChannelExtranonce | src/sv2_session.cpp:86-92 | once the channel is open the extranonce is the prefix of its answer followed by zeros up to twelve bytes |
| SessionOrigins.DecimalDigits | src/sv2_session.cpp:24 | a job's text identifier is its number in decimal digits without a leading zero |
| Sv2Conformance.SessionSurvives | src/sv2_session.cpp:74-162 | a session survives a sequence of messages and submissions iff each is allowed by those before it, stated on the messages: order of setup and channel, versions, channel and group, job identifiers and their limit, hidden hash, nBits, share events |
| Sv2Conformance.NetworkTargetOf | src/sv2_session.cpp:107-111 | the network target is the number its nBits denote, and there is one iff the sign bit is clear and it is positive and below 2^256 |
| SessionReplies.NotesAreMessages | src/sv2_session.cpp:119-147 | over every run the refusals and targets reported are those the pool sent, in order, with code 21 for the three stale reasons and 20 otherwise |
| SessionConfluence.SessionsAgree | src/sv2_session.cpp:43-59 | two session runs delivering the same decisions in different orders end with equal books and reports |
| SessionConfluence.SurvivorsEndOutstanding | src/sv2_session.cpp:128-144 | a run that survives acknowledged only batch ends still outstanding, and its books are the predicted ones |
| Outstanding.SortedOfElements | src/sv2_session.cpp:53-56 | iterating the ordered map reports the outstanding shares in ascending order |
| Outstanding.CountUpTo | src/sv2_session.cpp:46-49 | counts the covered shares, which are a prefix |
| Outstanding.EraseUpTo | src/sv2_session.cpp:53-56 | erases exactly that prefix |
| SessionObject.Session.Settle | src/sv2_session.cpp:43-59 | the loop computes the specified settlement |
| SessionObject.Session.Activate | src/sv2_session.cpp:21-42 | assigns the fields of an activation as specified |
| SessionObject.Session.OnSetup | src/sv2_session.cpp:76-82 | setup answer: checks and the open request sent |
| SessionObject.Session.OnOpen | src/sv2_session.cpp:83-92 | channel answer: identifiers, target and padded extranonce |
| SessionObject.Session.OnNewJob | src/sv2_session.cpp:93-99 | stores or activates an offered job under the limits |
| SessionObject.Session.OnPrevHash | src/sv2_session.cpp:100-118 | new epoch, forgetting all other jobs |
| SessionObject.Session.OnTarget | src/sv2_session.cpp:119-127 | stages the target for later activations |
| SessionObject.Session.OnAccepted | src/sv2_session.cpp:128-135 | cumulative acknowledgement |
| SessionObject.Session.OnRejected | src/sv2_session.cpp:136-144 | individual refusal with its code, then settlement |
| SessionObject.Session.Receive | src/sv2_session.cpp:74-150 | one read: every completed frame is decoded and processed in order, replies and sent bytes as specified |
| SessionObject.Session.IsValid | src/sv2_session.cpp:151-155 | the test is the specified one |
| SessionObject.Session.Submit | src/sv2_session.cpp:156-162 | records the sequence and sends the frame, or fails without effect |
| Stratum.StratumState.Receive | src/stratum.cpp:6-77 | the object follows the specified state machine and returns a job for a notify only |
| Stratum.StratumState.ReceiveNotify | src/stratum.cpp:32-56 | issues the job with fresh generation and extranonce2, in the source's order of checks |
| Stratum.StratumState.IsValid | src/stratum.cpp:78-81 | the test is the specified one |
| Stratum.ValidityIsHistory | src/stratum.cpp:78-81 | a job is valid iff some message granted the authorization, its notify is the last with its identifier and no clean notify came later |
| Stratum.AuthorizedIsGranted | src/stratum.cpp:70-74 | a session is authorized iff some message granted the authorization |
| Stratum.CurrentIsValid | src/stratum.cpp:54 | the newest job is valid iff the authorization was granted |
| Stratum.StagedRun | src/stratum.cpp:17-31 | difficulty and extranonce held are those of the last messages that set them |
| Stratum.NotifyUsesStaged | src/stratum.cpp:44-53 | a notify uses the last difficulty and extranonce before it; its leaf commits to them and to its generation |
| Stratum.DistinctWork | src/stratum.cpp:44-50 | up to 2^64 notifies, all jobs have different 52-byte leaves and extranonce2 |
| Sv1Conformance.SessionSurvives | src/stratum.cpp:6-77 | a session survives a sequence of messages iff each is allowed by those before it, stated on the messages: sizes, digits, difficulty and extranonce before a notify, identifier length, at most 1024 identifiers in use, nBits, granted authorization |
| Sv1Origins.JobsFollowMessages | src/stratum.cpp:32-56 | the jobs of a run are determined by its messages: one per notify, from that notify and the difficulty and extranonce announced last before it |
| Sv1Origins.SubmissionsAreAccepted | src/miner.cpp:650-675 | every SV1 submission passes the pool's check: rebuilt from its own notify with the submitted extranonce2, time and nonce texts, the header hashes to at most the difficulty target announced before that notify |
| NoncePartition.ReservationsTile | src/sv2.cpp:177-184 | reservations of any positive sizes are laid end to end within the space |
| NoncePartition.TiledOnce | src/miner.cpp:489-491 | every reserved position lies in exactly one reservation |
| NoncePartition.CountFits | src/sv2.cpp:181-183 | a reservation has the size asked for, or less exactly when it ends at a 2^32 nonce boundary |
| NoncePartition.FailsExactlyWhenExhausted | src/sv2.cpp:179-180 | reserving fails exactly when all 2^56 positions are used and batches remain |
| NoncePartition.PositionsAreKeys | src/sv2.cpp:181-183 | time and nonce of the k-th hash of a batch stand for slot * 2^56 + cursor + k, so slots and positions never share a (time, nonce) pair |
| NoncePartition.PartitionExists | src/sv2.cpp:179-180 | there is a partition iff the slot is below 256, the cursor below 2^56 and the batch not empty |
| Claims.TurnKeeps | src/miner.cpp:485-488 | starting over for a newer generation keeps all claims apart |
| Claims.TakeKeeps | src/miner.cpp:489-491 | taking the next positions keeps all claims apart |
| Claims.ReportKeeps | src/miner.cpp:528-532 | turning found positions of a span into items keeps all positions unique |
| Scheduler.PublishKeeps | src/miner.cpp:615-622 | publishing a newer or the same job keeps the scheduler invariant |
| Scheduler.ReserveKeeps | src/miner.cpp:480-518 | a reservation in either mode keeps the invariant, exhausted space included |
| Scheduler.FinishKeeps | src/miner.cpp:520-532 | queueing a batch's hits keeps the invariant, overflow included; what is queued is the row below |
| Scheduler.FinishQueues | src/miner.cpp:525-538 | a finished batch queues every nonce reported, in order, for its own job; the worker fails iff the queue would exceed 8192, and then nothing is queued |
| Scheduler.DropKeeps | src/miner.cpp:639-647 | skipping a stale find keeps the invariant |
| Scheduler.ReportedOnce | src/miner.cpp:520-532 | whatever order a backend reports in, each nonce is a solving one of the batch and appears once |
| Scheduler.KeyDeterminesSlot | src/miner.cpp:507-522 | generation, time and nonce determine the lane and position searched |
| Scheduler.NoShareTwice | src/miner.cpp:468-539 | under the invariant no two finds, queued or submitted, are the same share |
| Exchange.StepsAreLocal | src/miner.cpp:480-533 | the scheduler's steps change only the shared state and the worker concerned |
| Exchange.Board.Claim | src/miner.cpp:480-494 | the locked reservation |
| Exchange.Board.Queue | src/miner.cpp:527-533 | the locked append with its limit of 8192 |
| Exchange.Board.Drain | src/miner.cpp:630-638 | a recorded failure ends the connection, otherwise the queue is swapped out |
| Exchange.Thread.Reserve | src/miner.cpp:477-523 | reservation by one worker equals the scheduler step |
| Exchange.Thread.Finish | src/miner.cpp:525-538 | finishing a batch is the scheduler step of Scheduler.FinishQueues for this worker |
| Miner.PaidMessage | src/sv2_session.cpp:128-147 | the replies to a message resolve exactly the shares the session closes, once each |
| Miner.RunKeeps | src/miner.cpp:547-687 | the whole-connection invariant holds after every interleaving; which finds are submitted is Histories.SubmitOutcome |
| Miner.NoDuplicateShare | src/miner.cpp:477-677 | no two submissions of a connection share generation, time and nonce, in any interleaving |
| Miner.NoDuplicateSv1Share | src/miner.cpp:672-675 | no two SV1 submissions share extranonce2 and nonce, up to 2^64 notifies |
| Miner.PendingCoincides | src/miner.cpp:582-613 | after every loop iteration the loop and the SV2 session agree on the outstanding shares |
| Miner.CountersBalance | src/miner.cpp:588-613 | accepted, rejected, stale and outstanding add up to the submitted shares; identifiers count up from ten |
| Answers.CountersAreAnswers | src/miner.cpp:582-613 | each counter is the number of answers of its kind, the first answer about a submitted share counting; the outstanding shares are those without an answer |
| Answers.CountersAreMessages | src/sv2_session.cpp:128-147 | between iterations the SV2 counters are what the pool's messages add up to: refusals by reason, and the acknowledged counts less the batches not settled yet |
| Miner.SubmitNeverRefused | src/miner.cpp:639-677 | after the loop's own tests the hash check succeeds and the session never refuses the submit |
| Histories.SessionOfRun | src/miner.cpp:557-566 | the session of a connection is the run of its protocol on what the connection was fed, in that order |
| Histories.SubmitOutcome | src/miner.cpp:639-677 | a find taken is submitted iff the connection is not draining and the pool still wants it, judged by the messages heard, and is dropped otherwise; the connection ends iff a share is due but 4096 are outstanding or no SV2 identifier is left |
| Histories.WorkersHaveNewest | src/miner.cpp:615-628 | outside draining, once the replies of a read are answered, the workers have the newest job: that of the last notify once authorization was granted, or of the last activation |
| Histories.DrainsOnceExpired | src/miner.cpp:549-551 | a connection is draining iff its time has run out at some point |
| Histories.FailureIsAStop | src/miner.cpp:535-538 | over every run a failure is recorded iff some worker has stopped |
| Fates.HitsAreKept | src/miner.cpp:520-647 | without a recorded failure the hits of all finished batches are, each as often as found, the finds submitted, taken or queued and those taken while draining or no longer wanted; with one they still include these |
| Miner.SubmissionFidelity | src/miner.cpp:650-676 | every SV2 submission carries an activated job's identifiers, and the checked header is the standard header rebuilt with the submitted time and nonce |
| SubmittedFrames.FramesAreSubmissions | src/miner.cpp:666-676 | what an SV2 connection has written, by byte offset: nothing, or the open request with its user and rate and then exactly the submitted finds in order, frame i with identifier 10 + i and that find's job, nonce, time and version |
| Reservations.ReservationsOfRun | src/miner.cpp:484-492 | over every run, the reservations of a generation are those the partition makes in that order from 0, ending at the shared cursor for the current one |
| Reservations.RunTiles | src/miner.cpp:484-492 | so they are end to end from 0 to the shared cursor, at most 2^56 |
| Reservations.ReservationFailsAtTheEnd | src/miner.cpp:490 | a worker's reservation in the current generation fails exactly when the cursor is 2^56 |
| OwnReservations.OwnBatches | src/miner.cpp:499-518 | over every run the i-th batch of SV1 worker w for a generation is the nonces from w * 2^56 + i * batch on |
| OwnReservations.OwnBatchFails | src/miner.cpp:514-516 | an SV1 worker's reservation fails iff its next batch would leave its own 2^56 nonces |
| Miner.DrainingStops | src/miner.cpp:615-641 | from the moment of draining no run submits anything or publishes another job |
| Miner.FailureIsFinal | src/miner.cpp:633-636 | a worker failure is never forgotten, and once recorded outside the submission loop no run submits anything again |
| Connection.ReplyAgrees | src/miner.cpp:582-613 | the interleaved model and the object agree on handling a reply |
| Connection.SubmitAgrees | src/miner.cpp:639-677 | the interleaved model and the object agree on submitting a find |
| Iteration.IterationIsARun | src/miner.cpp:557-687 | every successful iteration of the loop object is a run of the interleaved model between the same snapshots |
| Connection.Loop.Iterate | src/miner.cpp:557-687 | one iteration: receive, answer every reply, take the finds, submit them |
| Connection.Loop.Handle | src/miner.cpp:588-623 | accounting for a reply, then publication unless draining |
| Connection.Loop.Offer | src/miner.cpp:643-676 | validity, limit, independent hash check, identifier limit, submit |
| Connection.Loop.SubmitAll | src/miner.cpp:639-677 | the submission loop over a taken queue |

## Left out

- Sockets, TLS, DNS, timeouts, reconnect back-off, signals: byte segments and messages are inputs, written bytes are outputs.
- The handshake phase of src/sv2_session.cpp:62-73 and the setup frame of src/sv2.cpp:129-142: the session model starts once the cipher is up.
- Cryptography behind the cipher and the certificate check: an ideal seal and open per counter, and a verdict as a parameter.
- SHA-256 helpers: not used by the modelled code.
- JSON shapes: SV1 messages are datatypes, and a message of a wrong shape or type is one `Malformed` case.
- Error texts: a thrown exception is a failure without its message.
- Session generations and epochs are unbounded numbers here, 64-bit in the code.
- Connection.Loop.Iterate: describes an iteration without worker steps in between; with them, `Miner` describes it.
- Sv2.Handle: the displayed difficulty estimate of src/sv2_session.cpp:123-127 is replaced by the target itself, since it is floating-point display only.
- Gpu.CudaScan: CUDA and OpenCL runtimes, memory transfer and device faults are not modelled; only the index arithmetic, the atomic counter with its buffer, and the host re-check are.
- Gpu.Hash80: local arrays of a device thread are modelled as arrays of one call; register allocation and unrolling have no counterpart.
- Difficulty.DifficultyTargetOf: big-number routines are integer arithmetic, and allocation failure is not modelled.
- Stratum.StratumState.Receive: assignments made before a failing check of the same message are not described, because a failure discards the object.
- Exchange.Thread.Reserve: a worker that fails keeps its counters from before, because its loop has ended.
- Miner.NoDuplicateSv1Share: claimed below 2^64 notifies, where the extranonce2 counter wraps.
- Digests: distinctness is claimed for hashed leaves and search positions, never for hash values; SV2 pools may repeat a commitment, so headers of different generations are not claimed distinct.
- Which thread runs when: steps are atomic and interleave freely; fairness and timing are not modelled.
- Block-candidate counting, per-device counters, dashboards, HTTP API, argument parsing, sensors and power controls: display or configuration.
