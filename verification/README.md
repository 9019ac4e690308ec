# Go2NetSpectra: a verified model

This project models the measuring core of Go2NetSpectra in Dafny and proves properties of it over every
input, every run and every interleaving of goroutines.

`dafny verify dfyconfig.toml` checks everything.

## What is modelled

| part | files |
|---|---|
| CountMin: byte and packet votes per bucket, bounds over whole runs, table scan against point query | `VoteCounters.dfy`, `HeavyHitters.dfy`, `CountMin.dfy` |
| CountMin.Insert as a lock-free algorithm, and calls in turn as the sequential one | `CountMinAtomics.dfy`, `CountMinSequential.dfy` |
| MurmurHash3 on bit-vectors, bijections and exact uniformity | `MurmurHash.dfy`, `MurmurBuckets.dfy`, `Bytes.dfy` |
| The sampled HyperLogLog and its probability ledger, sequential and lock-free | `HyperLogLog.dfy`, `HyperLogLogAtomics.dfy` |
| SuperSpread, and its award loop as a lock-free algorithm | `SuperSpread.dfy`, `SpreadAtomics.dfy` |
| The key layout of the sketches, and a CountMin behind it | `FlowKey.dfy`, `SketchTask.dfy` |
| Exact aggregation: plain map, sharded flow objects, snapshots under traffic and resets | `FlowTotals.dfy`, `ExactTask.dfy`, `SnapshotCut.dfy` |
| The table of cumulative snapshots and the queries over it, across resets and under traffic | `FlowTable.dfy`, `SnapshotTable.dfy`, `Querier.dfy` |
| The manager's goroutines and its shutdown | `Manager.dfy` |
| Prompt sessions: the store and its blocked readers | `PromptSessions.dfy`, `PromptReaders.dfy` |
| The Thrift reader and writer of packets | `ThriftProtocol.dfy`, `TrafficCodec.dfy`, `TrafficMeaning.dfy`, `PacketCodec.dfy` |
| Words, strings, packets, results | `Words.dfy`, `Text.dfy`, `Packets.dfy`, `Outcomes.dfy` |

Code that changes things step by step is a method over arrays and objects, proved against a function of
its history: a bucket is the replay of the packets routed to it, a register the maximum of what was
offered to it, the shards the plain map of the packets processed, a session's queue what was appended
less what was handed out. What the system promises is then proved about those functions. Code whose point
is concurrency is also a transition system over its atomic steps or critical sections.

Hashes in the sketches are arbitrary functions, so the sketch results hold for MurmurHash3 whatever its
quality; its own properties are proved separately. Random draws, seeds, clocks, the text form of an address
and the order in which a map is traversed are arbitrary. Probabilities are exact reals.

## What the code does, where one might expect otherwise

- The byte vote stores `size` where a weighted majority vote would store `size - S`
  (count_min.go:115-117). Its threshold is therefore two thirds of a bucket, not one half, and
  `VoteCounters.TwoThirdsIsTight` shows that two thirds cannot be lowered.
- `SuperSpread.Reset` does not restore p (super_spread.go:297-311). `SuperSpread.ResetBreaksIff` says when that
  matters; `SuperSpread.InsertThenReset` is the shortest such run. Without a Reset `SuperSpread.NeverResetIsBalanced`
  holds, for every base.
- The configuration in `doc/technology.md:263` and `configs/config.yaml.example:53-57` has base 2. Then p is no
  probability: `HyperLogLog.UnitProbabilityIff` is the exact condition, `HyperLogLog.BaseTwoExceedsOne` an example.
  What does not need a probability, such as distinct counting, reports and awards, holds for every base.
- While other encodes of a cell are half done, an accepted one can read a negative p
  (super_spread.go:105-109): `HyperLogLogAtomics.NegativeProbability`, and `HyperLogLogAtomics.ReadsProbability`.
- An address shorter than 16 bytes leaves part of a pooled buffer in the key (sketch/task.go:281-286);
  `FlowKey.BufferIndependentIff` is the exact condition.
- The resetter may take a tick that was due when `done` was closed (manager.go:167-174), so a final snapshot
  can be empty although every packet was delivered: `Manager.ResetCanEmptyLastSnapshot`. The copy of
  a shard is complete exactly when no reset emptied that shard of a packet before: `Manager.SnapshotIsCompleteIff`.
- Snapshot and Reset go shard by shard (exact/task.go:154-212), so a reset beside a snapshot can take one shard
  from it and leave another: `SnapshotCut.TornSnapshot`, and `SnapshotCut.CopyIsCompleteIff` for when it does not.
- A packet with several five-tuples is refused if any of them is incomplete, even when the last is complete
  (traffic.go:483-489): `TrafficMeaning.PacketReadsIff`, with `TrafficMeaning.EarlierBadTupleRefuses` as an example.
- `doc/technology.md:146-154` describes the query by argMax as exact. Counters start again at every period
  (manager.go:162-176), and two snapshots can fall in one second. `FlowTable.ReadBackIff` is the exact condition:
  no flow asked for has vanished since an earlier snapshot, and none has other counters in another snapshot
  of the same second. `SnapshotTable.VanishedFlowIsReported` and `SnapshotTable.TieIsArbitrary` break it; within one
  period, at strictly increasing times, it holds. A trace by max reports the peak of all periods:
  `Querier.TraceIsPeakOfPeriods`, `SnapshotTable.TraceKeepsOldPeak`.
- Start and end of a flow are `DateTime` columns (writer_clickhouse.go:27-28): the table, and so a trace, has whole
  seconds where records have nanoseconds.

## Model

| member | source | states |
|---|---|---|
| VoteCounters.SizeNeverOverestimates | internal/engine/impl/sketch/statistic/count_min.go:100-128 | After any run the byte counter is at most the bytes its fingerprint sent, wraparound of uint32 included |
| VoteCounters.CountNeverOverestimates | internal/engine/impl/sketch/statistic/count_min.go:130-154 | After any run the packet counter is at most the packets its fingerprint sent, wraparound included |
| VoteCounters.SizeVote | internal/engine/impl/sketch/statistic/count_min.go:99-128 | For every flow x with b of the bucket's B bytes (B below 2^32): b <= 2(B-b)+S while x is the fingerprint, b+S <= 2(B-b) while it is not |
| VoteCounters.CountParity | internal/engine/impl/sketch/statistic/count_min.go:129-154 | C <= N and C = N modulo 2 after N packets, fewer than 2^32 |
| VoteCounters.CountVote | internal/engine/impl/sketch/statistic/count_min.go:129-154 | For every flow x with n of N packets: n <= (N-n)+C while x is the fingerprint, n+C <= N-n while it is not, also across the fingerprint change at 0 |
| VoteCounters.TakeoverCopiesFingerprint | internal/engine/impl/sketch/statistic/count_min.go:103-152 | A packet of another flow that takes a counter over, or brings a packet counter to 0, makes the fingerprint its own; any other leaves it |
| VoteCounters.OneFlowIsCounted | internal/engine/impl/sketch/statistic/count_min.go:99-154 | A flow with a bucket to itself is counted exactly, modulo 2^32, bytes and packets |
| VoteCounters.TwoPackets | internal/engine/impl/sketch/statistic/count_min.go:99-128 | x, then y: the byte counter after both, for every pair of sizes; x keeps the bucket when they are equally heavy |
| VoteCounters.TwoFlowsLead | internal/engine/impl/sketch/statistic/count_min.go:129-154 | Between two flows the packet counter is the lead of the one ahead |
| VoteCounters.TwoThirdsOwnTheBucket | internal/engine/impl/sketch/statistic/count_min.go:99-128 | A flow with more than two thirds of a bucket's bytes is its byte fingerprint |
| VoteCounters.OvertakenBucket | internal/engine/impl/sketch/statistic/count_min.go:115-118 | x, then one byte more of y, then x: y keeps the bucket although x sent almost two thirds of its bytes |
| VoteCounters.TwoThirdsIsTight | internal/engine/impl/sketch/statistic/count_min.go:115-118 | For every share p/q below 2/3 (q below 2^28, so that nothing wraps around) there is a run in which a flow with more than that share is not the fingerprint |
| VoteCounters.RoutedKeepsFlow | internal/engine/impl/sketch/statistic/count_min.go:96-97 | The packets hashed to a flow's column contain all of that flow's packets and bytes |
| CountMinSketch.CountMin.constructor | internal/engine/impl/sketch/statistic/count_min.go:47-91 | Defaults for zero parameters, one drawn seed per row, and a table in which every bucket is empty |
| CountMinSketch.CountMin.UpdateBucket | internal/engine/impl/sketch/statistic/count_min.go:97-154 | One row of Insert: exactly that bucket changes, by one step of each vote |
| CountMinSketch.CountMin.Insert | internal/engine/impl/sketch/statistic/count_min.go:94-157 | Every bucket stays the replay of its own packets, in order; the packet is recorded in every row, in the bucket of its digest modulo w, as RunIsSharing says |
| CountMinSketch.CountMin.RunIsSharing | internal/engine/impl/sketch/statistic/count_min.go:96-96 | The packets that Insert sends to the bucket of f in a row are exactly those whose digest under the row's seed equals that of f modulo w |
| CountMinSketch.CountMin.Query | internal/engine/impl/sketch/statistic/count_min.go:160-173 | The upper half is the largest packet counter and the lower half the largest byte counter that f's own cells hold for f; AloneIsExact and EstimateBounds say what they are worth in terms of digests |
| CountMinSketch.CountMin.RowBounds | internal/engine/impl/sketch/statistic/count_min.go:94-157 | Per row: 3b-2B <= byte answer <= b and 2n-N <= packet answer <= n, lower bounds without wraparound |
| CountMinSketch.CountMin.EstimateBounds | internal/engine/impl/sketch/statistic/count_min.go:160-173 | max over rows of 3b-2B <= Query mod 2^32 <= b and max over rows of 2n-N <= Query / 2^32 <= n over every sequential run since Reset, where B and N are of the packets whose digest under the row's seed equals that of f modulo w |
| CountMinSketch.CountMin.AloneIsExact | internal/engine/impl/sketch/statistic/count_min.go:94-173 | If in some row no packet of another flow has the digest of f modulo w, then without wraparound both answers are exact |
| CountMinSketch.LiveCandidate | internal/engine/impl/sketch/statistic/count_min.go:103-118 | A positive counter's fingerprint hashes to the column it sits in |
| CountMinSketch.CountMin.RunsArePlaced | internal/engine/impl/sketch/statistic/count_min.go:94-157 | The whole table is placed: every live fingerprint sits in its own column |
| CountMinSketch.CountMin.Scan | internal/engine/impl/sketch/statistic/count_min.go:180-207 | Each map holds, per fingerprint of a live counter, the largest such counter of the table |
| HeavyHitters.ScanIsEstimate | internal/engine/impl/sketch/statistic/count_min.go:183-207 | The map built by the scan has exactly the flows with a positive point estimate, with that estimate |
| HeavyHitters.EstimateIsMax | internal/engine/impl/sketch/statistic/count_min.go:161-171 | The loop of Query computes the maximum of the rows' answers and attains it |
| HeavyHitters.Collect | internal/engine/impl/sketch/statistic/count_min.go:210-218 | Exactly the entries of a map at or above the threshold, each once |
| HeavyHitters.SortDescending | internal/engine/impl/sketch/statistic/count_min.go:232-234 | A descending permutation of the list |
| HeavyHitters.Report | internal/engine/impl/sketch/statistic/count_min.go:209-239 | Exactly the flows whose estimate reaches the threshold, each once, with that estimate, in non-increasing order |
| CountMinSketch.CountMin.HeavyHitters | internal/engine/impl/sketch/statistic/count_min.go:178-246 | Both lists are exact reports of the point estimates that Query returns |
| CountMinSketch.CountMin.ReportGuarantee | internal/engine/impl/sketch/statistic/count_min.go:178-246 | Every reported flow truly reached the threshold; every flow with 3b-2B, or 2n-N, at the threshold in some row is reported |
| CountMinSketch.CountMin.Reset | internal/engine/impl/sketch/statistic/count_min.go:249-265 | Every bucket is empty again, so all bounds start over |
| CountMinAtomics.CountersStayBelowTruth | internal/engine/impl/sketch/statistic/count_min.go:99-154 | Under every interleaving of loads, comparisons, swaps and copies of any number of Inserts, with totals below 2^32: S <= B, C <= N and C = N modulo 2 |
| CountMinAtomics.NoUnderflow | internal/engine/impl/sketch/statistic/count_min.go:99-154 | In every interleaving a word about to be stored is the loaded one plus the amount, the amount alone, or their true difference, never one taken modulo 2^32; a packet counter found with another flow is above 0 |
| CountMinAtomics.OneSwapPerStop | internal/engine/impl/sketch/statistic/count_min.go:95-155 | A finished Insert has won exactly one swap per row and metric, in program order |
| CountMinAtomics.FailedSwapMeansAnotherWon | internal/engine/impl/sketch/statistic/count_min.go:104-124 | A swap fails only if another call won a swap on the same word since the load |
| CountMinAtomics.EveryScheduleKeepsInv | internal/engine/impl/sketch/statistic/count_min.go:94-157 | Every schedule keeps the invariant behind these four, for every call and word |
| CountMinSequential.OneStop | internal/engine/impl/sketch/statistic/count_min.go:99-154 | Undisturbed, the loop of loads, comparison, swap and copy on one counter is one step of its vote, fingerprint included, and touches no other counter |
| CountMinSequential.OneCall | internal/engine/impl/sketch/statistic/count_min.go:94-157 | A whole Insert undisturbed updates the counters of the flow's buckets, each by one step of its vote, and no others |
| CountMinSequential.CallsInTurn | internal/engine/impl/sketch/statistic/count_min.go:94-157 | Calls one after the other, a schedule among the others, leave every counter and fingerprint as the sequential sketch does: the replay of the packets routed to it |
| MurmurHash.MurmurHash3 | internal/engine/impl/sketch/statistic/hash.go:13-53 | The block loop, tail switch and finalizer compute the recursive definition Murmur |
| MurmurHash.DigestOfThreeBlocksAndByte | internal/engine/impl/sketch/statistic/hash.go:13-53 | The digest of the 13 bytes of Hello, world! under seed 0x9747b28c is 0x24884cba |
| MurmurHash.DigestOfTails | internal/engine/impl/sketch/statistic/hash.go:13-53 | The digests of the inputs of 0 to 3 bytes that read a, ab and abc |
| MurmurHash.MixBijective | internal/engine/impl/sketch/statistic/hash.go:20-22 | Multiply, rotate, multiply is a bijection of words |
| MurmurHash.BlockBijective | internal/engine/impl/sketch/statistic/hash.go:24-26 | Mixing a block into the state is a bijection of the state |
| MurmurHash.BodyBijective | internal/engine/impl/sketch/statistic/hash.go:16-42 | The state before any data can be recovered from the state after it |
| MurmurHash.AvalancheBijective | internal/engine/impl/sketch/statistic/hash.go:46-50 | The finalizer is a bijection of words |
| MurmurHash.SeedBijection | internal/engine/impl/sketch/statistic/hash.go:13-53 | For each input the digest is a bijection of the seed, with the inverse given |
| MurmurHash.FourByteBijection | internal/engine/impl/sketch/statistic/hash.go:13-53 | For each seed the digest is a bijection of the four-byte inputs, with the inverse given |
| MurmurHash.OneUnitNeverCollides | internal/engine/impl/sketch/statistic/hash.go:13-53 | Equal-length inputs that differ only in one aligned block, or only in the tail, never collide |
| MurmurHash.MappedAddressesNeverCollide | internal/engine/impl/sketch/statistic/hash.go:13-53 | Distinct IPv4 addresses in 16-byte form have distinct digests under every seed |
| MurmurBuckets.DigestBijective | internal/engine/impl/sketch/statistic/hash.go:13-53 | The same bijection with digests as numbers, as the sketches use them |
| MurmurBuckets.ColumnsShareKeysEqually | internal/engine/impl/sketch/statistic/func_test.go:10-44 | When w divides 2^32 each of the w columns receives exactly 2^32/w of all four-byte keys, for every seed; the uniformity the statistical test samples |
| HyperLogLog.CountLeadingZeros | internal/engine/impl/sketch/statistic/super_spread.go:54-64 | The shifting loop counts the leading zeros of a 32-bit word |
| HyperLogLog.LeadingZerosAtLeast | internal/engine/impl/sketch/statistic/super_spread.go:54-64 | lz(x) >= r exactly when x < 2^(32-r) |
| HyperLogLog.MaxRankIsMax | internal/engine/impl/sketch/statistic/super_spread.go:84-103 | MaxRank is the largest geometric hash among the elements routed to a register, attained, and at most maxValue; RegisterAbove says the same in digests |
| HyperLogLog.RankAbove | internal/engine/impl/sketch/statistic/super_spread.go:66-70 | The geometric hash is above r exactly when r is below the cap and the digest under the ranking seed below 2^(32-r) |
| HyperLogLog.RankBrackets | internal/engine/impl/sketch/statistic/super_spread.go:66-70 | The geometric hash v brackets the digest: 2^(32-v) <= digest < 2^(33-v), or it is the cap |
| HyperLogLog.RegisterAbove | internal/engine/impl/sketch/statistic/super_spread.go:84-103 | A register stands above r exactly when an element was offered whose routing digest modulo m is its number and whose ranking digest is below 2^(32-r) |
| HyperLogLog.RegistersIgnoreOrderAndDuplicates | internal/engine/impl/sketch/statistic/super_spread.go:84-103 | Registers depend only on the set of elements offered |
| HyperLogLog.RaiseKeepsLedger | internal/engine/impl/sketch/statistic/super_spread.go:105-109 | Raising a register and moving p keeps m*p equal to the sum of the registers' weights |
| HyperLogLog.ProbabilityInUnit | internal/engine/impl/sketch/statistic/super_spread.go:105-109 | While the ledger holds and a register can still be raised: p is positive for every positive base, at most 1 for a base up to 1, and for a base above 1 with no register at the cap at least 1, above 1 once anything was accepted |
| HyperLogLog.UnitProbabilityIff | internal/engine/impl/sketch/statistic/super_spread.go:105-109 | For a positive base p is a probability whatever the registers hold exactly when the base is at most 1, or every rank is at the cap |
| HyperLogLog.CappedRegistersLowerP | internal/engine/impl/sketch/statistic/super_spread.go:107-109 | Registers at the cap weigh nothing: with base 2, four registers and one of them at 1, p is 1/2 although a rank below the cap was accepted |
| HyperLogLog.BaseTwoExceedsOne | internal/engine/impl/sketch/statistic/super_spread.go:84-111 | With base 2, after an element of rank r below the cap, the next accepted one gets p = 1 + (2^r - 1)/m, above 1 |
| HyperLogLog.ProbabilityCountsAcceptingPairs | internal/engine/impl/sketch/statistic/super_spread.go:66-70 | For base 1/2 and maxValue at most 31, m*2^32*p counts the pairs of a register and a 32-bit hash that would raise it |
| HyperLogLog.AcceptedIsAccepting | internal/engine/impl/sketch/statistic/super_spread.go:84-93 | Those pairs are the pairs of routing digest modulo m and ranking digest that encode accepts |
| HyperLogLog.GeneralHLL.constructor | internal/engine/impl/sketch/statistic/super_spread.go:36-52 | All registers 0 and p = 1, so the ledger holds; without a clearing it then always does |
| HyperLogLog.GeneralHLL.Encode | internal/engine/impl/sketch/statistic/super_spread.go:84-111 | From the two digests alone: with k the routing digest modulo m and the register at r, accepted exactly when r is below the cap and the ranking digest below 2^(32-r), and the register then brackets that digest or is at the cap. -1 and no change otherwise; only that register changes, the old p is returned, positive for a positive base and at most 1 for one up to 1 while the ledger holds, and the ledger is kept |
| HyperLogLog.GeneralHLL.AcceptancesAreBounded | internal/engine/impl/sketch/statistic/super_spread.go:95-98 | At most m*maxValue elements are ever accepted between clearings |
| HyperLogLog.GeneralHLL.ClearRegisters | internal/engine/impl/sketch/statistic/super_spread.go:301-303 | However often it was cleared before, clearing leaves a right ledger exactly when p stands at 1; for a base up to 1 when p was never lowered; for a base below 1, or above 1 with no register ever at the cap, when no element was ever offered |
| HyperLogLog.GeneralHLL.ProbabilityIsFullOnlyWhenUnused | internal/engine/impl/sketch/statistic/super_spread.go:105-109 | With a base below 1, or above 1 and no register ever at the cap, p is 1 exactly while no element has been offered since construction, clearings or not |
| HyperLogLogAtomics.LedgerUnderEverySchedule | internal/engine/impl/sketch/statistic/super_spread.go:72-111 | Under every interleaving of encode and atomicAddFloat64 steps m*p plus what is still owed is the sum of the register weights |
| HyperLogLogAtomics.QuiescentProbability | internal/engine/impl/sketch/statistic/super_spread.go:72-111 | When no call is in progress p is exactly the mean of the register weights |
| HyperLogLogAtomics.RegistersAreMaxima | internal/engine/impl/sketch/statistic/super_spread.go:84-103 | Under every schedule no element is lost: once all calls have returned no register is below the rank of a call, and each is 0 or the rank of an accepted one |
| HyperLogLogAtomics.NeverAboveOne | internal/engine/impl/sketch/statistic/super_spread.go:72-111 | For a base up to 1, p and every value that an encode returns stay at most 1 under every interleaving |
| HyperLogLogAtomics.ReadsProbability | internal/engine/impl/sketch/statistic/super_spread.go:105-109 | For a base below 1 an accepted encode reads a p in (0, 1] if no other stands between its subtraction and its addition; those that do take from m*p less than they still have to add |
| HyperLogLogAtomics.NegativeProbability | internal/engine/impl/sketch/statistic/super_spread.go:105-109 | One register, base 1/2, ranks 1, 2, 3: an interleaving in which the third encode is accepted and returns -1/2 |
| SuperSpreadSketch.AwardIsUnbiased | internal/engine/impl/sketch/statistic/super_spread.go:200-206 | For every positive p the weight ceil(1/p), awarded with chance pCU in (0, 1], is 1/p on average; from p = 1 on the weight is 1 |
| SuperSpreadSketch.InfiniteWeight | internal/engine/impl/sketch/statistic/super_spread.go:200-206 | At p = 0 nothing is skipped and the weight is the conversion of an infinity |
| SuperSpreadSketch.SettleDraws | internal/engine/impl/sketch/statistic/super_spread.go:195-206 | A rejected element draws no random number, any other at least one |
| SuperSpreadSketch.AwardAgainstOther | internal/engine/impl/sketch/statistic/super_spread.go:218-231 | An award against another key takes one draw and takes one from the value v exactly when draw * b^v is below 1 |
| SuperSpreadSketch.NoAwardBelowZero | internal/engine/impl/sketch/statistic/super_spread.go:200-206 | A negative p, as resets can leave one behind, awards nothing, whatever the draw |
| SuperSpreadSketch.AwardRunBound | internal/engine/impl/sketch/statistic/super_spread.go:206-233 | The award loop leaves a positive cell with the flow, at no more than the weight on top of what it had, or with its former key at no more than before |
| SuperSpreadSketch.SuperSpread.constructor | internal/engine/impl/sketch/statistic/super_spread.go:127-179 | A separate unused sampler per cell, with defaults for zero parameters; any base and any b |
| SuperSpreadSketch.SuperSpread.AwardAll | internal/engine/impl/sketch/statistic/super_spread.go:207-233 | The loop of awards and decays on one cell, draw by draw; every other cell is unchanged |
| SuperSpreadSketch.SuperSpread.InsertRow | internal/engine/impl/sketch/statistic/super_spread.go:192-234 | One row of Insert: only the flow's cell changes, first by encode and then by the award that encode's p allows; every live value stays within the weight awarded to its key |
| SuperSpreadSketch.SuperSpread.Insert | internal/engine/impl/sketch/statistic/super_spread.go:182-235 | The whole new table, the draws handed from row to row, and that registers stay maxima of the elements routed to them |
| SuperSpreadSketch.SuperSpread.SeenIsRejected | internal/engine/impl/sketch/statistic/super_spread.go:84-93 | A flow and element inserted since construction or the last Reset are turned down by encode in every row |
| SuperSpreadSketch.SuperSpread.RejectionChangesNothing | internal/engine/impl/sketch/statistic/super_spread.go:195-198 | An element turned down in every row changes no register, p, key or value and uses no draw |
| SuperSpreadSketch.SuperSpread.Reinsert | internal/engine/impl/sketch/statistic/super_spread.go:182-198 | Inserting a flow and element again changes nothing, whatever the draws: spread counts distinct elements |
| SuperSpreadSketch.SuperSpread.RowKeepsLedgers | internal/engine/impl/sketch/statistic/super_spread.go:195-206 | A row of Insert keeps its samplers' ledgers, and for a positive base an accepted element is awarded its weight with a positive p, at most 1 for a base up to 1 |
| SuperSpreadSketch.SuperSpread.InsertKeepsLedgers | internal/engine/impl/sketch/statistic/super_spread.go:182-235 | Insert keeps the ledgers of the whole table |
| SuperSpreadSketch.SuperSpread.NeverResetIsBalanced | internal/engine/impl/sketch/statistic/super_spread.go:169-235 | Over every run without Reset the ledger of every cell holds |
| SuperSpreadSketch.SuperSpread.Query | internal/engine/impl/sketch/statistic/super_spread.go:238-249 | The largest value f's own cells hold for f, and at least 1 |
| SuperSpreadSketch.SuperSpread.EstimateWithinAward | internal/engine/impl/sketch/statistic/super_spread.go:206-249 | No flow is estimated above the weight awarded to it in some row |
| SuperSpreadSketch.SuperSpread.LonelyIsCredited | internal/engine/impl/sketch/statistic/super_spread.go:182-249 | A flow alone with its digest modulo w in some row is estimated at no less than the whole weight awarded to it there, if that fits 32 bits |
| SuperSpreadSketch.SuperSpread.CellRegisterAbove | internal/engine/impl/sketch/statistic/super_spread.go:84-103 | Every register of every cell, over every run: above r exactly when since the last Reset an observation with the row's flow digest at that column modulo w and the element's routing digest at that register had a ranking digest below 2^(32-r) |
| SuperSpreadSketch.SuperSpread.LiveFlows | internal/engine/impl/sketch/statistic/super_spread.go:255-264 | Every flow with a positive estimate, and no key without a positive value |
| SuperSpreadSketch.SuperSpread.HeavyHitters | internal/engine/impl/sketch/statistic/super_spread.go:254-294 | Exactly the flows whose estimate reaches the threshold, each once, with that estimate, in non-increasing order |
| SuperSpreadSketch.SuperSpread.Reset | internal/engine/impl/sketch/statistic/super_spread.go:297-311 | Every cell loses registers, key and value and keeps its p; nothing counts as inserted any more |
| SuperSpreadSketch.SuperSpread.LedgerAfterReset | internal/engine/impl/sketch/statistic/super_spread.go:297-311 | After Reset a sampler's ledger is right exactly when its p was 1 |
| SuperSpreadSketch.SuperSpread.ResetBreaksIff | internal/engine/impl/sketch/statistic/super_spread.go:297-311 | Over every run, resets included: a further Reset leaves a cell's ledger right exactly when p stands at 1; for a base up to 1 when no accepted element ever lowered it; for a base below 1, or above 1 with no register ever at the cap, when no observation since construction was hashed to the cell |
| SuperSpreadSketch.SuperSpread.InsertThenReset | internal/engine/impl/sketch/statistic/super_spread.go:182-311 | One Insert into any sketch and one Reset leave the ledger of the flow's cell wrong in every row whose base is below 1, or above 1 with a cap out of reach, as in the documented configuration with base 2 |
| SpreadAtomics.ValueWithinAdmitted | internal/engine/impl/sketch/statistic/super_spread.go:206-233 | Under every interleaving of the award loops on a cell its value is at most the weight admitted to it less twice the decays that took effect, and without wraparound exactly the raises less the decays |
| SpreadAtomics.EveryScheduleKeepsInv | internal/engine/impl/sketch/statistic/super_spread.go:206-233 | Every schedule keeps the invariant behind it: an award wins at most one swap |
| SpreadAtomics.EveryAwardWinsASwap | internal/engine/impl/sketch/statistic/super_spread.go:206-233 | Under every schedule in which no comparison leaves the cell alone, a finished loop has won exactly one swap per award, however many it lost: no award is dropped |
| SpreadAtomics.AwardsInTurn | internal/engine/impl/sketch/statistic/super_spread.go:206-233 | A loop that nobody disturbs does to the cell what AwardRun says, as some schedule goes on |
| FlowKey.EncodeFlow | internal/engine/impl/sketch/task.go:279-300 | Writes one field at the offset, cut to the buffer, and advances by the nominal size, whatever the length of an address |
| FlowKey.GenerateFlowAndElem | internal/engine/impl/sketch/task.go:265-276 | Both keys are written over whatever the buffers held; with 16-byte addresses they are exactly the layouts |
| FlowKey.EncodeFields | internal/engine/impl/sketch/task.go:266-269 | Encoding ends at the sum of fieldByteSize |
| FlowKey.OverwritesEveryByte | internal/engine/impl/sketch/task.go:279-300 | With 16-byte addresses nothing of the old buffer survives |
| FlowKey.BufferIndependentIff | internal/engine/impl/sketch/task.go:281-286 | For addresses of at most 16 bytes, the key is independent of the buffer's old contents exactly when every selected address has 16 bytes |
| FlowKey.ShortAddressLeaks | internal/engine/impl/sketch/task.go:281-286 | Two old buffers that give different keys when a selected address is shorter |
| FlowKey.LayoutInjective | internal/engine/impl/sketch/task.go:279-300 | Two packets share a key exactly when they agree on every selected field |
| FlowKey.FiveTupleLayout | internal/engine/impl/sketch/task.go:279-300 | The key of the full five-tuple byte by byte: addresses, ports in network order, protocol |
| FlowKey.DecodeFlow | internal/engine/impl/sketch/task.go:303-325 | The offset loop reads the known fields in order |
| FlowKey.DecodedOfLayout | internal/engine/impl/sketch/task.go:303-325 | Decoding a layout gives back exactly the selected fields, in order |
| FlowKey.DistinctFieldsFit | internal/engine/impl/sketch/task.go:74-88 | A key over distinct fields fits the pooled buffers of 37 bytes, and the full five-tuple fills one |
| SketchTask.KeyedTotals | internal/engine/impl/sketch/task.go:156-169 | What the sketch counts for a key is what the packets that agree on the flow fields add up to |
| SketchTask.Task.ProcessPacket | internal/engine/impl/sketch/task.go:156-169 | Records the packet under its own key, independent of the pooled buffers |
| SketchTask.Task.Query | internal/engine/impl/sketch/task.go:156-174 | End to end: the estimate bounds in terms of the packets processed, those that agree on the configured flow fields and those whose key has the same digest modulo w; when no length is cut to 32 bits, in plain sums of lengths |
| Text.JoinInjective | internal/engine/impl/exact/task.go:370 | Joining loses nothing when no part contains the separator |
| FlowTotals.KeyIsFields | internal/engine/impl/exact/task.go:340-371 | Two packets share a key exactly when they show the same value in every key field |
| FlowTotals.FiveTupleKey | internal/engine/impl/exact/task.go:340-371 | The key text of the full five-tuple |
| FlowTotals.FiveTupleFields | internal/engine/impl/exact/task.go:340-371 | And its field map |
| FlowTotals.SizesAreLengths | internal/engine/impl/exact/task.go:138-146 | Converted lengths add up to the plain sum modulo 2^64, and to the plain sum itself when none is negative |
| FlowTotals.RecordsAreSummaries | internal/engine/impl/exact/task.go:135-148 | A key has a record exactly when a packet had it; the record is the fields and first time of its first packet, the time of its last, the number of its packets and the plain sum of their lengths, both modulo 2^64 |
| FlowTotals.TotalsAreOfTraffic | internal/engine/impl/exact/task.go:223-233 | The records' totals are the number of packets and the plain sum of their lengths modulo 2^64 whatever the key fields, and there is one record per distinct key; with an unknown field name nothing is counted |
| FlowTotals.SplitTotals | internal/engine/impl/exact/task.go:227-233 | Totals and number of flows over the shards are those of the plain map |
| FlowTotals.PackedSplitsIff | internal/engine/impl/exact/task.go:329 | The bitwise or of PacketCount<<32 and ByteCount splits back into both counters exactly when both are below 2^32 |
| FlowTotals.OrBits | internal/engine/impl/exact/task.go:329 | A bit of the bitwise or is set exactly when it is set in either number |
| FlowTotals.LayoutAsksForKey | internal/engine/impl/exact/task.go:303-324 | A query for the encoded fields of a packet asks for that packet's own key |
| FlowTotals.AnswerIsTraffic | internal/engine/impl/exact/task.go:303-332 | The answer to that query: the packets of the flow above and the plain sum of their lengths below, as long as both fit 32 bits and no length is negative |
| ExactTask.Task.constructor | internal/engine/impl/exact/task.go:86-104 | 256 shards for 0 or at least 32768, all empty |
| ExactTask.Task.GenerateKeyAndFields | internal/engine/impl/exact/task.go:340-371 | Key and field map by the loop over the key fields; an error exactly when a name is unknown |
| ExactTask.Task.CountPacket | internal/engine/impl/exact/task.go:135-138 | Counting in place changes exactly the flow's record in the plain map |
| ExactTask.Task.AddFlow | internal/engine/impl/exact/task.go:139-148 | A first packet adds exactly its record to the plain map |
| ExactTask.Task.ProcessPacket | internal/engine/impl/exact/task.go:124-149 | The sharded objects keep holding the plain map of all packets processed, whose records RecordsAreSummaries gives as plain sums of lengths |
| ExactTask.Task.HoldsSplits | internal/engine/impl/exact/task.go:335-337 | The shards' key sets are those their route sends there and together they are the plain map |
| ExactTask.Task.Snapshot | internal/engine/impl/exact/task.go:154-194 | A deep copy in fresh objects, shard by shard equal to the live data, and the live data unchanged |
| ExactTask.Task.SnapshotOutlives | internal/engine/impl/exact/task.go:154-212 | Any later packets and a Reset leave a returned snapshot as it was |
| ExactTask.Task.Reset | internal/engine/impl/exact/task.go:197-212 | All shards empty, as if nothing had been processed |
| ExactTask.Task.AddUp | internal/engine/impl/exact/task.go:223-233 | The loops over a snapshot compute its totals modulo 2^64 and its number of flows |
| ExactTask.Task.AlerterMsg | internal/engine/impl/exact/task.go:215-281 | The alerts are those that the number of packets processed, the plain sum of their lengths, both modulo 2^64, and the number of distinct keys trigger, in rule order |
| ExactTask.Task.TriggeredAlerts | internal/engine/impl/exact/task.go:237-278 | Exactly the rules of this name with a known metric whose comparison holds, in order, each with the value compared |
| FlowTotals.AlertsAreFirings | internal/engine/impl/exact/task.go:237-278 | The alerts are, one each and in rule order, those of the rules that fire, with the value compared |
| FlowTotals.RuleFires | internal/engine/impl/exact/task.go:237-300 | A rule fires exactly when it is for this name, its metric is one of the three and its operator admits the side of the threshold on which that metric's value lies |
| ExactTask.Task.Query | internal/engine/impl/exact/task.go:303-332 | The packed counters of the plain map's record for the key the bytes stand for, 0 without one or with an unknown field name |
| SnapshotCut.ResetEmptiesShard | internal/engine/impl/exact/task.go:197-212 | Emptying a shard removes its records and leaves the other shards alone |
| SnapshotCut.EveryCopyIsACut | internal/engine/impl/exact/task.go:124-212 | However packets, copies and resets of single shards interleave, each copied shard is what arrived in it from its last reset up to one moment between call and return |
| SnapshotCut.CopyIsCompleteIff | internal/engine/impl/exact/task.go:154-212 | A copy shows everything that had arrived in its shard exactly when no reset emptied the shard, while it held something, between call and copy |
| SnapshotCut.TornSnapshot | internal/engine/impl/exact/task.go:154-212 | Copy of shard 0, reset of both, copy of shard 1: the snapshot has the first packet's flow and not the second's |
| SnapshotCut.WholeSnapshots | internal/engine/impl/exact/task.go:154-212 | Neither order of a whole reset and a whole snapshot gives that |
| SnapshotCut.RecordsOnlyGrow | internal/engine/impl/exact/task.go:135-148 | Without a reset a flow never disappears and its counters never go down |
| SnapshotCut.SnapshotBetween | internal/engine/impl/exact/task.go:124-212 | If no shard that holds something is emptied before its copy, every flow's counters in the snapshot lie between their values at call and those with everything that arrived until return, and no flow is missing |
| SnapshotCut.TotalsBetween | internal/engine/impl/exact/task.go:124-194 | So do total packets, total bytes and the number of flows |
| FlowTable.Write | internal/engine/impl/exact/writer_clickhouse.go:92-140 | Appends one row per flow of the snapshot, its times in whole seconds, and nothing else; an empty snapshot writes nothing |
| FlowTable.WriteAddsSnap | internal/engine/impl/exact/writer_clickhouse.go:92-140 | Writing the shards of a snapshot adds exactly that snapshot's rows to the table |
| FlowTable.ReadBackIff | internal/query/querier.go:253-284 | For snapshots in any relation, resets and several in one second included: whatever argMax does with ties, the query returns what the last selected snapshot says about the flows asked for, exactly when each such flow of an earlier snapshot is still in the last and had the same counters in any snapshot of the same second |
| FlowTable.ReadBackAcrossResets | internal/query/querier.go:253-284 | At strictly increasing times that is exactly when no flow asked for has vanished since an earlier snapshot |
| FlowTable.ReportedFlows | internal/query/querier.go:257-284 | The number of flows reported is that of the last snapshot plus those that vanished |
| FlowTable.GrowingIsSettled | internal/query/querier.go:253-284 | Snapshots that only grow at strictly increasing times meet the condition |
| FlowTable.TraceReadsLastIff | internal/query/querier.go:324-331 | Each of the four columns of a trace shows the flow's latest record, times in whole seconds, exactly when no snapshot exceeds it, and otherwise more |
| FlowTable.TraceReadsLastPeriodIff | internal/query/querier.go:324-331 | Across resets packets, bytes and start of a trace are the latest record's exactly when no earlier period ended with more packets, more bytes or an earlier start |
| FlowTable.TraceIsPeak | internal/query/querier.go:324-331 | Each of them is that of the flow at the end of some period, and no period ended beyond it |
| FlowTable.TraceIsLatest | internal/query/querier.go:324-331 | If the snapshots only grow, packets, bytes and start of a trace are those of the latest record, the start in whole seconds |
| SnapshotTable.TakenIsBounded | internal/engine/impl/exact/task.go:154-194 | A snapshot copied shard by shard under traffic, with no shard emptied too early, lies flow by flow between what the shards held at call and that with what arrived until return, tells flows apart, and its shards split it |
| SnapshotTable.SuccessiveSnapshotsGrow | internal/engine/manager/manager.go:139-159 | Of two snapshots in one period the second has every flow of the first with no smaller counters, though packets arrived during both |
| SnapshotTable.CutByTime | internal/query/querier.go:271-274 | The rows of a task up to a time are those of its snapshots up to that time |
| SnapshotTable.AggregateReadsLastIff | internal/query/querier.go:251-284 | End to end: with an end time the query is sure to return the totals of the last snapshot not after it exactly when the snapshots up to it are settled in the sense of ReadBackIff |
| SnapshotTable.AggregateIsBetween | internal/query/querier.go:251-284 | Then, resets before or not, packets, bytes and flows returned lie between those held when that snapshot was asked for and when it returned |
| SnapshotTable.AggregateUnderTraffic | internal/query/querier.go:251-284 | The same for snapshots copied under traffic within one period, with no further condition |
| SnapshotTable.AggregateIsTraffic | internal/query/querier.go:251-284 | If no packet arrived during the last one, exactly the packets, bytes and distinct keys processed, with no negative length the plain sum of lengths |
| SnapshotTable.WriteAll | internal/engine/impl/exact/writer_clickhouse.go:92-140 | Writing the shards of every task's snapshots in turn gives a table with, of every task, exactly the rows of its snapshots |
| SnapshotTable.WrittenReadsLastIff | internal/query/querier.go:251-284 | In that table, resets and equal times included, the query up to a time is sure to return the totals of the task's last snapshot up to then exactly when its snapshots up to then are settled |
| SnapshotTable.AggregateOfWritten | internal/query/querier.go:251-284 | Within one period its answer lies between the packets, bytes and flows held when that snapshot was asked for and when it returned |
| SnapshotTable.VanishedFlowIsReported | internal/query/querier.go:253-284 | A flow, snapshot, reset, another flow, snapshot: the query reports two flows where the last snapshot has one |
| SnapshotTable.TieIsArbitrary | internal/query/querier.go:261-263 | Two snapshots of a flow in one second: the query may report either count |
| SnapshotTable.TraceKeepsOldPeak | internal/query/querier.go:324-331 | Two packets, snapshot, reset, one packet, snapshot: the trace goes on reporting two |
| SnapshotTable.ReplayIsDistinguished | internal/engine/impl/exact/writer_clickhouse.go:118-122 | Different flows differ in a key column, so grouping by the columns groups by flow |
| Querier.AppendAggregationFilters | internal/query/querier.go:143-170 | The clauses and their arguments, position by position, let exactly the rows through that the request asks for |
| Querier.AskedOfPacket | internal/query/querier.go:143-170 | For a row of a packet's flow: it is asked for exactly when every field that the request sets is a key field and has the packet's value |
| Querier.AppendTraceFlowFilters | internal/query/querier.go:172-188 | An error exactly when a key is unsupported; otherwise exactly the rows with the given text in every given key, whatever order the map yields |
| Querier.SortedKeys | internal/query/querier.go:173-180 | The keys of the map, each once, in alphabetical order |
| Querier.RankIsAlphabetical | internal/query/querier.go:173-180 | That order is the alphabetical one of the names |
| Querier.Uint64ToInt64 | internal/query/querier.go:87-92 | The value itself, or an error exactly from 2^63 on |
| Querier.ScanSummaries | internal/query/querier.go:292-316 | An error exactly when some counter does not fit; otherwise one summary per row with the row's name, bytes, packets and flows in the fields of those names |
| Querier.AggregateFlows | internal/query/querier.go:251-319 | The database is asked about exactly the rows of the request; one summary per aggregation with such a row, its fields the name and the two-stage totals of those rows; an error exactly when the database fails or a total does not fit an int64 |
| Querier.TaskQueryIsBetween | internal/query/querier.go:251-319 | For one aggregation and an end time, over settled snapshots: exactly one summary, with the name asked for, and its packets, plain sum of lengths and distinct keys between those processed when the last snapshot not after that time was asked for and when it returned |
| Querier.TaskQueryBeforeFirst | internal/query/querier.go:251-319 | No summary if there is no snapshot up to the end time |
| Querier.TraceFlow | internal/query/querier.go:322-372 | The database is asked about exactly the rows of the request; their lifecycle, zeros without any; an error exactly for an unsupported key, a failing database or a counter that does not fit |
| Querier.OnlyThatFlow | internal/query/querier.go:182-185 | The texts of all key fields of a packet single out that packet's flow |
| Querier.TraceIsBetween | internal/query/querier.go:322-351 | End to end: tracing a flow by its full key within one period returns packets and bytes between those counted for it when the last snapshot not after the end time was asked for and when it returned, and its first time stamp in whole seconds |
| Querier.TraceIsTraffic | internal/query/querier.go:322-351 | If no packet arrived during that snapshot, exactly the packets and bytes counted for the flow |
| Querier.TraceIsPeakOfPeriods | internal/query/querier.go:322-351 | Over several periods a trace by the full key returns packets and bytes counted for the flow at the end of some period, and at least those of every period |
| Querier.WriteThenAggregate | internal/query/querier.go:251-319 | From packets to response: snapshots of all tasks copied under traffic and written shard by shard, then one task asked for up to a time; unless the database fails, one summary with the name asked for, whose packets, plain sum of lengths and distinct keys lie between those processed when its last snapshot was asked for and when it returned |
| Querier.WriteThenTrace | internal/query/querier.go:322-372 | The same for the trace of a flow seen by then: packets and bytes between those two moments, and the flow's first time stamp in whole seconds |
| PromptSessions.TakenKeepsChunks | internal/ai/prompt_sessions.go:248-260 | Taking loses and repeats nothing, a response marked done leaves nothing behind, and an empty one is marked done |
| PromptSessions.TakenIsPrefix | internal/ai/prompt_sessions.go:248-260 | A response has the first chunks, at most limit and fewer only when none is left; it is done exactly at the end and only then has the error |
| PromptSessions.Session.AppendChunk | internal/ai/prompt_sessions.go:217-224 | Adds the chunk at the end and closes the current notify channel |
| PromptSessions.Session.SendChunk | internal/ai/prompt_sessions.go:192-198 | Empty chunks are dropped |
| PromptSessions.Session.Finish | internal/ai/prompt_sessions.go:226-237 | Marks the session done, keeps the error if there is one, closes the current notify channel |
| PromptSessions.Session.Read | internal/ai/prompt_sessions.go:239-263 | With nothing to report the queue is untouched and the open channel returned; otherwise the first chunks, at most limit and fewer only when none is left, done exactly at the end, an error only with done |
| PromptSessions.Store.Start | internal/ai/prompt_sessions.go:61-94 | Adds a new session with an empty queue; an error, and no session, exactly when the context has ended, the store is stopped or no identifier could be drawn, in that order |
| PromptSessions.Store.TryRead | internal/ai/prompt_sessions.go:96-118 | One turn of the read loop: an error exactly for an unknown session, a wait exactly when the queue is empty and not done, otherwise the first chunks, at most the number asked for or 16; only that session is touched |
| PromptSessions.Store.Cancel | internal/ai/prompt_sessions.go:130-138 | True exactly for a known session, whose context is cancelled; no queue and no other session changes |
| PromptSessions.Store.ExpireSessions | internal/ai/prompt_sessions.go:178-187 | Drops exactly the sessions untouched for the time to live |
| PromptSessions.Store.Stop | internal/ai/prompt_sessions.go:140-157 | The first Stop cancels every session in the store, a second one none |
| PromptReaders.EveryRunKeepsInv | internal/ai/prompt_sessions.go:96-128 | The reader and queue invariant holds in every interleaving of one analysis and any number of readers |
| PromptReaders.ReadersSeeWhatWasSent | internal/ai/prompt_sessions.go:96-128 | All readers' responses, in the order of their reads, followed by what is pending are the non-empty chunks sent; done only after the end with everything delivered; error text only with done; no response is empty and not done |
| PromptReaders.AsleepMeansNothingToRead | internal/ai/prompt_sessions.go:120-126 | No lost wakeup: a reader that cannot go on has no pending chunk and no end to report |
| PromptReaders.ParkedReaderIsServed | internal/ai/prompt_sessions.go:107-127 | A reader parked on the open channel gets the next chunk after its wakeup, or the end and its error; until then a wakeup has no effect; and it may leave at any time |
| PromptReaders.CallReturnsWhatIsThere | internal/ai/prompt_sessions.go:96-118 | A call that finds something returns the first chunks, at most as many as asked for, or 16 |
| PromptReaders.WaitingReaderReturns | internal/ai/prompt_sessions.go:107-127 | Once there was something to report while a reader waited, a wakeup and a look of its own suffice, whatever the analysis and other readers do before and in between: it returns exactly when something is left at its look, and waits on the open channel otherwise |
| PromptReaders.AfterTheEndReaderReturns | internal/ai/prompt_sessions.go:107-127 | After the end of the analysis it returns in any case |
| PromptReaders.ReadsRunOut | internal/ai/prompt_sessions.go:239-263 | After the end, at most as many responses as there are chunks left are not marked done |
| Manager.EveryRunKeepsInv | internal/engine/manager/manager.go:87-244 | The invariant of channel, workers, writers, resetter, alerter and Stop holds in every interleaving |
| Manager.ExactlyOnce | internal/engine/manager/manager.go:218-244 | For any worker count, capacity and interleaving no packet reaches an aggregation more often than it was accepted; once done is closed each has every accepted packet exactly as often, and no step delivers a packet any more |
| Manager.LastSnapshotSeesEverything | internal/engine/manager/manager.go:117-159 | Snapshots are only of the writer's own group; a writer with a positive interval leaves only after a final copy of every shard of its group, taken with everything delivered, and takes no other kind afterwards; SnapshotIsServed has the periodic ones |
| Manager.SnapshotIsServed | internal/engine/manager/manager.go:128-159 | Over every run: between a tick that a writer accepts and the end of the snapshot it started, the writer copies every shard of every task of its group exactly once, and no other |
| Manager.CopyIsALook | internal/engine/manager/manager.go:139-159 | Each of these copies is not final and is of the shard as it is at that moment |
| Manager.ResetIsServed | internal/engine/manager/manager.go:167-193 | Between a tick of the period and the end of the reset it starts every shard of every task is emptied exactly once |
| Manager.ResetLeavesNothing | internal/engine/manager/manager.go:179-192 | And holds nothing right after that |
| Manager.AlertIsServed | internal/alerter/alerter.go:77-134 | Between a tick of the alerter and the end of its evaluation it looks at every shard of every task exactly once |
| Manager.AlertIsALook | internal/alerter/alerter.go:103-134 | Each look is of the shard as it is at that moment |
| Manager.NoLoopLeavesEarly | internal/engine/manager/manager.go:117-216 | A snapshotter with a positive interval and the resetter stay until done is closed, the alerter until Stop stops it after all of them |
| Manager.ChannelFills | internal/engine/manager/manager.go:75-83 | Producers alone fill the channel to its capacity, in order, and are blocked from then on |
| Manager.HandedPacketIsDelivered | internal/engine/manager/manager.go:218-244 | A packet handed to a waiting worker is delivered to one task after the other |
| Manager.OneWorkerKeepsOrder | internal/engine/manager/manager.go:218-244 | With one worker every task has the accepted packets in order, less those still in hand or in the channel |
| Manager.LastEvaluationIsFinal | internal/alerter/alerter.go:89-96 | When Stop has returned the alerter has looked at every shard as it is and will stay |
| Manager.TasksAreFixed | internal/engine/manager/manager.go:204-212 | From the alerter's stop on no step of any goroutine changes an aggregation |
| Manager.WithoutReset | internal/engine/manager/manager.go:162-176 | If the period never elapses, every snapshot, the final ones included, is of all packets delivered |
| Manager.ForgottenIff | internal/engine/manager/manager.go:162-193 | With tasks emptied shard by shard beside workers and snapshots: a shard lacks a packet delivered to it exactly when some step of the run emptied it while it held one; a tick alone, or emptying an empty shard, loses nothing |
| Manager.HoldsSinceLastReset | internal/engine/manager/manager.go:162-193 | It holds its own packets of what was delivered since the last such step |
| Manager.SnapshotIsCompleteIff | internal/engine/manager/manager.go:117-193 | The copy of a shard, final or not, shows what the shard held at any earlier moment, the closing of done for one, and all that was delivered to it since, exactly when no such step came in between |
| Manager.SnapshotShowsAllIff | internal/engine/manager/manager.go:117-193 | It shows everything delivered so far exactly when no such step came before it |
| Manager.ResetCanEmptyLastSnapshot | internal/engine/manager/manager.go:167-174 | A reset due when done was closed can come before the final snapshot, which is then empty although the packet was delivered: a concrete run |
| Manager.StopCanGoOn | internal/engine/manager/manager.go:196-216 | In every reachable state between the call of Stop and its return some goroutine can take a step with an effect that is no tick: no deadlock |
| Manager.WorkRunsOut | internal/engine/manager/manager.go:196-216 | From the call of Stop on every step with an effect uses up some of the work left, and a tick adds a bounded amount |
| Manager.StopReturns | internal/engine/manager/manager.go:196-216 | Every run after the call of Stop that does not stall and has finitely many ticks comes to where Stop has returned, within a bounded number of steps |
| Manager.StopCanFinish | internal/engine/manager/manager.go:196-216 | From every such state there is a continuation in which Stop returns |
| ThriftProtocol.SkipEmitted | api/gen/thrift/v1/traffic.go:146-149 | Skipping any emitted value, nested structs and containers included, leaves exactly what follows it |
| TrafficCodec.WriteTuple | api/gen/thrift/v1/traffic.go:221-314 | Emits the five fields in order, or an empty struct for nil |
| TrafficCodec.WritePacket | api/gen/thrift/v1/traffic.go:500-522 | Emits the three fields in order with the five-tuple nested |
| TrafficCodec.ReadTuple | api/gen/thrift/v1/traffic.go:71-197 | The loop with its isset flags refines the recursive parser, errors included |
| TrafficCodec.ReadPacket | api/gen/thrift/v1/traffic.go:399-472 | The loop with its isset flags refines the recursive parser, errors included |
| TrafficMeaning.TupleReadBack | api/gen/thrift/v1/traffic.go:71-197 | On any struct: the last field of each number and right type, or the error for the first missing one, and the reader stops at the end of the struct |
| TrafficMeaning.TupleReadsIff | api/gen/thrift/v1/traffic.go:71-197 | A five-tuple is read exactly when each of its five fields occurs with its type, and each is the last such field |
| TrafficMeaning.TupleNamesTheMissing | api/gen/thrift/v1/traffic.go:156-172 | Otherwise the error names the first of them that does not |
| TrafficMeaning.PacketReadBack | api/gen/thrift/v1/traffic.go:399-472 | On any struct the reader gives what PacketOf says and stops at its end |
| TrafficMeaning.PacketReadsIff | api/gen/thrift/v1/traffic.go:399-489 | A packet is read exactly when its three fields occur with their types and every nested struct in field 2, not only the last, is a complete five-tuple; the last field of each counts |
| TrafficMeaning.PacketNamesTheMissing | api/gen/thrift/v1/traffic.go:460-470 | Otherwise the error is that of the first incomplete five-tuple, or names the first missing field |
| TrafficMeaning.EarlierBadTupleRefuses | api/gen/thrift/v1/traffic.go:483-489 | A packet that would be read is refused when an incomplete five-tuple stands before its complete one |
| TrafficMeaning.WriteThenRead | api/gen/thrift/v1/traffic.go:399-561 | Reading what was written gives the packet back, or an error exactly when it had no five-tuple |
| TrafficMeaning.TupleIgnoresUnknown | api/gen/thrift/v1/traffic.go:141-149 | Fields of a five-tuple with an unknown number or a wrong type may stand anywhere without effect |
| TrafficMeaning.TupleIgnoresOrder | api/gen/thrift/v1/traffic.go:82-154 | Fields of a five-tuple with different numbers may come in any order |
| TrafficMeaning.PacketIgnoresUnknown | api/gen/thrift/v1/traffic.go:445-454 | Fields of a packet with an unknown number or a wrong type may stand anywhere without effect |
| TrafficMeaning.PacketIgnoresOrder | api/gen/thrift/v1/traffic.go:408-458 | Fields of a packet with different numbers may come in any order |
| TrafficMeaning.PacketSeesOnlyTheTuple | api/gen/thrift/v1/traffic.go:483-489 | Of a nested struct only the five-tuple it stands for matters, so the two lemmas on five-tuples carry over |
| PacketCodec.MarshalPacketInfo | internal/probe/packetcodec.go:55-74 | The tokens of the packet's Thrift form; nil is refused |
| PacketCodec.WireImage | internal/probe/packetcodec.go:36-74 | These tokens one by one: field numbers, types and the packet's own values |
| PacketCodec.ReadFields | internal/probe/packetcodec.go:76-96 | What becomes of each field that was read: ports keep 16 bits and protocol 8, everything else is kept |
| PacketCodec.UnmarshalPacketInfo | internal/probe/packetcodec.go:98-108 | What the token stream decodes to |
| PacketCodec.RoundTrip | internal/probe/packetcodec.go:36-108 | Ports, protocol, addresses and length survive always; the whole packet exactly when its time in nanoseconds fits an int64 |
| PacketCodec.DecodedOfPeer | internal/probe/packetcodec.go:76-108 | Decoding what any peer sent succeeds exactly when PacketOf does, with ports cut to 16 bits and protocol to 8 |
| PacketCodec.SecondTripIsExact | internal/probe/packetcodec.go:36-108 | Encoding again what was decoded loses nothing more |

## Left out

- CountMinAtomics.CountersStayBelowTruth: says nothing about which flow a counter belongs to under concurrent Inserts, because the fingerprint is copied after the swap and another call can count against the old one; the error bounds are for sequential runs.
- HyperLogLogAtomics.LedgerUnderEverySchedule: without Reset, whose effect on p is stated separately; a swap of pbits compares real values where the code compares bits.
- SuperSpreadSketch.SuperSpread.constructor: infinities and NaN as base or b are not modelled.
- SuperSpreadSketch.SuperSpread.Insert: sequential, with keys of the configured length, as the key layout makes them; concurrent Inserts into one cell are modelled separately, in HyperLogLogAtomics and SpreadAtomics.
- SpreadAtomics.ValueWithinAdmitted: says nothing about which flow a value belongs to under concurrent Inserts, because the key is copied after the swap; a Reset during an award is not modelled.
- SuperSpreadSketch.SuperSpread.EstimateWithinAward: bounds an estimate by the weight awarded, not by the true spread; statistical accuracy and the quality of random numbers are not modelled.
- HyperLogLog.ProbabilityCountsAcceptingPairs: exact real arithmetic; IEEE rounding of pbits, math.Pow and math.Ceil is not modelled.
- FlowKey.GenerateFlowAndElem: a slice of a pooled buffer is an array of the key's length; capacity beyond it and the return to the pool are not modelled.
- SketchTask.Task.ProcessPacket: needs 16-byte addresses, because of the leak that FlowKey.BufferIndependentIff describes, and has CountMin behind it; the SuperSpread variant would add the same composition.
- ExactTask.Task.AlerterMsg: returns the alerts as data; the HTML text and the rounding of totals above 2^53 to float64 are not modelled.
- ExactTask.Task.Snapshot: one call at a time, as is Reset; the goroutines per shard are the subject of SnapshotCut.
- SnapshotTable.AggregateIsBetween: a torn snapshot, whose shards a reset emptied at different times before their copies, has no bounds beyond those of SnapshotCut.EveryCopyIsACut for each shard.
- FlowTable.Write: times outside the range of DateTime, 1970 to 2106, are not modelled.
- SnapshotTable.AggregateReadsLastIff: one writer, and counters below 2^64; ClickHouse itself is the relational meaning of its queries, with argMax taking any row of the latest time, for each column on its own; a text filter on a number column compares decimal texts.
- Querier.AggregateFlows: a result stream that the driver breaks off without an error, which the code does not ask for, is not modelled.
- FlowKey.LayoutInjective: for packets whose selected addresses have 16 bytes; the key of a shorter one depends on the buffer, as FlowKey.BufferIndependentIff says.
- Querier.TraceFlow: which of several unsupported keys the error names is not modelled.
- PromptSessions.Store.TryRead: one turn of the loop; the waiting between turns is in PromptReaders, a context that ends or a store that stops during it is not modelled.
- PromptSessions.Store.Stop: waiting for the analyses is not modelled, nor are sessions that expiry removed without cancelling.
- PromptReaders.EveryRunKeepsInv: one session; expiry during a read does not disturb a reader that already holds the session.
- Manager.ExactlyOnce: producers do not send after Stop, as the callers of Stop ensure; counting a packet in its shard, and copying or emptying a shard, are single steps, as the shard's lock makes them.
- ThriftProtocol.SkipEmitted: the Thrift library is a stream of tokens; its byte encodings, nesting limit and size limits are not part of this model.
- PacketCodec.RoundTrip: an int has 64 bits; 32-bit platforms are not modelled.
- PacketCodec.MarshalPacketInfo: reuse of the destination slice and of pooled serializers is not modelled.
- QueryHeavyHitters, persistent.Worker, NATS, pcap and gopacket, file and ClickHouse drivers, SMTP, HTTP handlers and configuration loading: input and output.
- OpenAI calls, alert texts and the generated query and AI Thrift files: the latter repeat the shape of traffic.go.
