# chain-reconciler: a verified model

chain-reconciler is a Go service that reads a protocol's contracts over JSON-RPC, publishes what it finds as Prometheus
gauges, and posts a daily digest to Slack. This Dafny project models the parts of it whose correctness is more than
plumbing and proves what they promise. `dafny verify dfyconfig.toml` checks everything.

- **The wire** (`Bytes`, `Hex`, `Abi`, `Keys`, `Client`): the hand-written hex and ABI code, with buffers filled in loops
  as in Go, and the construction of storage keys. The hash is an arbitrary function from byte strings to 32 bytes, so key
  uniqueness is stated as a reduction: equal keys mean equal arguments, or a failure of the hash on named strings.
- **A reference node** (`Server`, `Cells`, `Ledger`): holds the contracts' contents directly and takes the calldata apart.
  Any client of it, and more generally any node that `Serves` those contents, reads back exactly what is stored; `Cells`
  adds the key constructors, so that a store written cell by cell is read back cell by cell through the whole wire, and
  `Ledger` what the tasks report, in terms of the values last written.
- **The digest** (`Digest`, `Grouping`, `Reading`, `Attribution`, `Runs`): `RunAll`, `Render`, the proof that rendering
  groups by a stable partition, loses nothing, can be read back, attributes every finding to its version and task, and has
  a predictable number of lines.
- **The service** (`Schedule`, `Service`): the next firing time, and a transition system in which the initial run, the
  quick loop and the daily loop interleave between task executions in any way. Statements are about every legal sequence
  of events.
- **Aggregations** (`Fees`, `Features`, `Funding`, `Chainlink`, `Roles`, over `Tallies`, `Metrics`, `Config`): each loop over
  a Go map picks an arbitrary remaining key, and the contracts do not mention the order. Each read of a run is a function
  from what is read to a value or an error; the lemmas named `...OverTheWire` plug the client's getters in for it, up to
  the count or total that the run reports. `Metrics` keeps a history of Set calls so that gauges can be counted.

## Findings

Where the Go code and its own comments disagree, the model follows the code.

- `decodeAddressArray` is documented to return an error for a short payload. Its uint64 sums wrap, so two families of
  payloads panic instead: an offset within 32 of 2^64, and a length of at least 2^59 whose byte count wraps to something
  that fits. `Abi.DecodeExactly` says exactly when it decodes, errs and panics; `Abi.WrappedOffsetPanics` and
  `Abi.WrappedLengthPanics` exhibit payloads. It also reads only the low 64 bits of both numbers (`Abi.DecodeMeetsAbi`).
- A single reply that is not valid hex is not an error: it reads as zero (`Server.GarbledReplyReadsAsZero`, which also says
  which valid replies do), as false, as a zero count or balance, or as no members. Only the price feed read fails on it
  (`Server.GarbledRoundIsAnError`).
- The imbalance ratio is described as 1.0 for a fully one-sided market (internal/metrics/exporter.go:67-70), but it goes up
  to 2 when the two sides have opposite signs (`Funding.RatioLandmarks`).
- A handler named `root` shares a gauge with the global flag of each feature. The disabled count exceeds the number of
  gauges left at 1 by the global flags that were on and then overwritten (`Features.DisabledGauges`), so the two agree
  exactly when there is no such flag; likewise the gauges written fall short of the Set calls by the overwritten ones
  (`Features.WrittenGauges`).
- A newline in a reported string can forge a digest line (`Reading.NewlineForgesLine`). The digest is uniquely readable as
  long as no later line of a reported string looks like the start of something else, in particular without newlines
  (`Reading.DigestIsUniquelyReadable`, `Reading.BrokenInTwo`).
- If the daily time does not parse, the schedule drifts by the delay of every run (`Service.UnparsedClockDrifts`).
- The fees routine stamps its last-run gauge only when a distributor is configured and its balance could be read, although
  the gauge is described as the time of the last successful run (internal/metrics/exporter.go:82-85); `Fees.Run` says
  when it does.
- The quick loop's comment lists four routines (main.go:114-116); the code executes all of them. Every completed quick run
  executes every task on every version once, in order (`Service.CompleteRuns`).
- When the decoder panics on a role's members, the roles read before keep their new gauges and the last-run gauge keeps its
  old value (`Roles.Run`).

## Model

| member | source | states |
|---|---|---|
| Bytes.WordRoundTrip | internal/chain/client.go:199-204 | a number below 2^256 survives being written as a big-endian word and read back |
| Bytes.MinimalBEFits | internal/chain/client.go:200-202 | the shortest big-endian form, left-padded with zeros, is the fixed-width form |
| Hex.BytesToHex | internal/chain/client.go:206-214 | the loop prints two lower-case digits per byte, high nibble first |
| Hex.HexToBytes | internal/chain/client.go:216-233 | the loop decodes exactly the prefix-stripped hex text, and yields nothing otherwise |
| Hex.DecodeThenPrint | internal/chain/client.go:206-245 | decoding fails exactly on odd length or a foreign digit, and what it accepts prints back lower-cased without prefix |
| Hex.PrintThenDecode | internal/chain/client.go:191-233 | decoding inverts printing with or without the prefix, for all byte strings |
| Hex.NibbleOfHexChar | internal/chain/client.go:207-245 | the digit reader inverts the digit table |
| Hex.DigitValues | internal/chain/client.go:235-245 | the digits of both cases are the only ones accepted, each with its value |
| Abi.PadUint | internal/chain/client.go:199-204 | copying the minimal bytes into the tail of 32 zeros gives the big-endian word |
| Abi.AddressPadded | internal/chain/keys.go:68-72 | an address behind twelve zero bytes |
| Abi.BoolPadded | internal/chain/keys.go:74-80 | a flag in the last byte of a word |
| Abi.WordsAsNumbers | internal/chain/keys.go:68-80 | as a number, an address word is its address and a flag is 1 or 0 |
| Abi.AbiEncodeString | internal/chain/keys.go:15-35 | the shift loop and appends produce offset word, length word, contents and zero padding to a whole slot |
| Abi.NarrowWord | internal/chain/keys.go:24-28 | eight shifted bytes fill the word that padUint gives for every 64-bit length |
| Abi.AbiStringLayout | internal/chain/keys.go:13-35 | the encoding starts with 0x20, states the length, ends in zeros, and reading it back recovers the string |
| Abi.AbiStringInjective | internal/chain/keys.go:13-39 | different strings have different encodings |
| Abi.DecodeAddressArray | internal/chain/client.go:252-271 | the decoder with its wrapping guards, errors and panics |
| Abi.CopySlots | internal/chain/client.go:265-269 | every slice of the copying loop is in range and takes the low 20 bytes of its slot |
| Abi.DecodeExactly | internal/chain/client.go:252-270 | against unbounded arithmetic, for payloads of any length: exactly when the decoder returns a list, which list, which error, and when it panics |
| Abi.WrappedOffsetPanics | internal/chain/client.go:256-260 | every payload whose offset is within 32 of 2^64 panics instead of returning the short-payload error |
| Abi.WrappedLengthPanics | internal/chain/client.go:260-265 | an empty payload that claims 2^59 entries panics instead of returning the too-short error |
| Abi.DecodeMeetsAbi | internal/chain/client.go:247-270 | the decoder returns a list exactly when the payload holds it by the ABI, up to the dropped high 192 bits of offset and length |
| Abi.DecodeInvertsEncoding | internal/chain/client.go:247-270 | decoding inverts every encoding, for any gap, any high bytes in the slots and any tail |
| Abi.DecodeEncodeDecode | internal/chain/client.go:252-271 | decoding what was decoded and re-encoded gives the same again |
| Keys.HashParts | internal/chain/keys.go:60-66 | the append loop hashes the concatenation of the parts |
| Keys.AsciiInjective | internal/chain/keys.go:15-16 | a name's bytes are its characters' codes, so different names are different bytes |
| Keys.InterestNames | internal/chain/keys.go:43-45 | the open-interest roots are of exactly these names, read back as characters |
| Keys.PoolNames | internal/chain/keys.go:44-46 | likewise the pool-amount roots |
| Keys.FactorNames | internal/chain/keys.go:47-49 | likewise the three factor roots |
| Keys.FeeNames | internal/chain/keys.go:56-57 | likewise the two fee roots |
| Keys.OneArgumentTable | internal/chain/keys.go:82-145 | the bytes hashed for a name alone, and for a name and one address |
| Keys.SidedTable | internal/chain/keys.go:87-110 | the bytes hashed for a market and a side, in order |
| Keys.TokenTable | internal/chain/keys.go:92-120 | the bytes hashed for a market and a token, in order |
| Keys.CollateralTable | internal/chain/keys.go:102-125 | the bytes hashed for a market, a token and a side, in order |
| Keys.KeyHashesPreimage | internal/chain/keys.go:82-145 | every key constructor hashes its root hash followed by its argument words, or the encoded name alone |
| Keys.PreimageSeparation | internal/chain/keys.go:15-39 | equal preimages have the same name and words, or two names collide, or a root hash is the word 0x20 |
| Keys.KeySeparation | internal/chain/keys.go:15-145 | any two constructor calls with equal keys have the same root name and argument words, or the hash fails on named strings |
| Keys.CellDeterminesKey | internal/chain/keys.go:82-145 | name and words determine the constructor and all its arguments, exactly up to a feature flag named like a one-market root |
| Keys.EqualKeys | internal/chain/keys.go:60-145 | unless the hash fails, keys are equal if and only if the calls are the same or aliases |
| Keys.NamedKeysDiffer | internal/chain/keys.go:127-145 | two different feature or role names with equal keys, whatever the handlers, exhibit a failure of the hash |
| Client.Call | internal/chain/client.go:185-197 | sends prefixed hex of the calldata and decodes the reply; undecodable hex becomes no bytes |
| Client.GetUint | internal/chain/client.go:71-80 | selector and key go out, the reply is read as an unsigned number |
| Client.GetInt | internal/chain/client.go:82-97 | the same with 2^256 taken off when bit 255 is set |
| Client.GetBool | internal/chain/client.go:99-111 | the last byte of the reply decides; an empty reply is false |
| Client.GetCount | internal/chain/client.go:113-144 | the three count getters: the low 64 bits of the reply |
| Client.GetRoleMembers | internal/chain/client.go:146-158 | selector, role, start and end words go out, the reply is decoded as address[] |
| Client.BalanceOfERC20 | internal/chain/client.go:60-69 | selector and padded holder go out, the reply is read as an unsigned number |
| Client.GetMinDelay | internal/chain/client.go:160-167 | a bare selector goes out, the low 64 bits come back |
| Client.ChainlinkLatestUpdatedAt | internal/chain/client.go:169-183 | the low 64 bits of the fourth word, or an error below 128 bytes |
| Client.SignedIsCongruent | internal/chain/client.go:90-96 | for replies of any length the result is congruent to the unsigned value, and in the int256 range exactly when that is below 2^256 |
| Client.SignIsLow | internal/chain/client.go:90-96 | 2^256 is taken off exactly if the low 256 bits of the reply are at least 2^255 |
| Client.TruthIsLowByte | internal/chain/client.go:99-111 | a flag is true exactly if the low byte of the reply's number is not zero |
| Client.SignedWordBijection | internal/chain/client.go:90-96 | on words, signed decoding and two's-complement encoding invert each other |
| Server.ReferenceNodeServes | internal/chain/client.go:185-245 | through the hex layer in both directions a client sees exactly what the contracts answer |
| Server.DataStoreReadsAgree | internal/chain/client.go:71-133 | every DataStore getter returns what is stored under the key; counts modulo 2^64 |
| Server.MemberCountAgrees | internal/chain/client.go:135-144 | the member count is the list's length modulo 2^64 |
| Server.MembersAgree | internal/chain/client.go:146-158 | the members returned are exactly the requested slice, cut at the last member however far the requested end is beyond it, or the revert |
| Server.TokenReadAgrees | internal/chain/client.go:60-69 | balanceOf returns the holder's stored balance |
| Server.TimelockReadAgrees | internal/chain/client.go:160-167 | getMinDelay returns the stored delay modulo 2^64 |
| Server.FeedReadAgrees | internal/chain/client.go:169-183 | updatedAt is the fourth word of the round tuple whatever the other four hold |
| Server.ReplyDecides | internal/chain/client.go:185-245 | one reply decides its call: no bytes exactly for odd length or a foreign digit, else the bytes that print as it |
| Server.GarbledReplyReadsAsZero | internal/chain/client.go:71-80 | an unsigned read is zero exactly for a garbled reply or one without a nonzero digit, else the number the reply spells |
| Server.GarbledReplyReadsAsFalse | internal/chain/client.go:82-111 | a garbled reply is zero as a signed number and false as a flag, without an error |
| Server.GarbledReplyCountsAsZero | internal/chain/client.go:60-167 | and zero as a count of any kind, a balance or a delay |
| Server.GarbledReplyReadsAsNoMembers | internal/chain/client.go:146-158 | and an empty member list |
| Server.GarbledRoundIsAnError | internal/chain/client.go:169-183 | a feed read fails exactly for a garbled reply or one of fewer than 256 digits |
| Cells.StorageReadsBack | internal/chain/keys.go:60-145 | storage written under hashed keys returns the last value written by the same constructor call |
| Cells.WireReadsLastWrite | internal/chain/client.go:71-111 | the same read through constructor, calldata, hex, server and decoding, for uint, int and bool |
| Ledger.TotalIsSumOfLastWrites | internal/reconciler/fee.go:25-46 | against a store written cell by cell, the reported total is the sum over the markets of the amount last written to each claimable fee |
| Ledger.ProbesReadLastWrites | internal/reconciler/features.go:55-75 | the global probe returns the flag last written under the name, a handler's probe the flag last written under name and handler address |
| Ledger.DisabledAreLastWritten | internal/reconciler/features.go:50-93 | the disabled count of a run is the number of global and handler flags last written true |
| Ledger.SidesReadLastWrites | internal/reconciler/funding.go:33-44 | long and short side are the values last written with isLong true and false |
| Ledger.SideGaugesAreLastWritten | internal/reconciler/funding.go:45-46 | and the gauges labelled long and short hold them |
| Ledger.RolesAreLastWritten | internal/reconciler/role.go:25-65 | every role is listed with the number of holders last written under the hash of its name |
| Digest.GroupByVersion | internal/reconciler/reconciler.go:37-44 | the grouping loop builds the order of first appearance and each version's reports in order |
| Digest.RenderEntry | internal/reconciler/reconciler.go:53-59 | a task heading, its lines, and its findings set aside with version and task |
| Digest.RenderSection | internal/reconciler/reconciler.go:51-60 | a version heading and its tasks |
| Digest.RenderFindings | internal/reconciler/reconciler.go:62-67 | the findings heading and list |
| Digest.Render | internal/reconciler/reconciler.go:36-69 | the nested printing loops produce the text of the grouped reports |
| Grouping.VersionsByFirstAppearance | internal/reconciler/reconciler.go:38-44 | each version once, ordered by first appearance |
| Grouping.GroupedIsTheStablePartition | internal/reconciler/reconciler.go:37-60 | the grouping is a stable partition by version and the only one |
| Grouping.GroupedConserves | internal/reconciler/reconciler.go:37-60 | no report is lost or repeated |
| Grouping.DigestConserves | internal/reconciler/reconciler.go:49-67 | every line and every finding is printed exactly as often as it was reported |
| Grouping.RenderIgnoresInterleaving | internal/reconciler/reconciler.go:36-69 | grouping the reports beforehand does not change the text |
| Reading.ReadInvertsTokens | internal/reconciler/reconciler.go:46-68 | a line-by-line reader recovers versions, tasks, lines and findings from the printed lines of any digest |
| Reading.DigestPrints | internal/reconciler/reconciler.go:46-68 | a digest prints headings, lines and flagged findings of its reports, all of them and nothing else |
| Reading.DigestIsUniquelyReadable | internal/reconciler/reconciler.go:46-68 | for reports without a continuation line that looks like the start of something, equal texts if and only if equal versions, tasks, lines and findings in order |
| Reading.CleanReportsAreReadable | internal/reconciler/reconciler.go:46-68 | newline-free reports are among them |
| Reading.OpeningLines | internal/reconciler/reconciler.go:46-68 | the lines excluded there are exactly the possible first lines of something in a digest |
| Reading.BrokenInTwo | internal/reconciler/reconciler.go:54-56 | a string broken once is among them exactly if its second line does not look like a start |
| Reading.NewlineForgesLine | internal/reconciler/reconciler.go:54-56 | with a newline in a line, two different reports print alike |
| Reading.DigestSize | main.go:101-102 | the logged newline count equals one closed formula exactly when no reported string holds a newline, and exceeds it otherwise |
| Reading.DigestText | internal/reconciler/reconciler.go:46-68 | the text for one report with a line and a finding, character by character |
| Attribution.FindingReadsBack | internal/reconciler/reconciler.go:58 | a reader that splits at the bracket, the first slash and the first closing bracket before a space recovers version, task and finding exactly if the names do not hold those separators |
| Attribution.FindingsAreAttributed | internal/reconciler/reconciler.go:49-67 | the findings of a digest, read that way, are those of the reports, each with its own version and task and as often as reported |
| Attribution.OriginsListFindings | internal/reconciler/reconciler.go:57-59 | that is, as often as the reports of that version and task list it |
| Runs.RunAll | internal/reconciler/reconciler.go:74-90 | the product loops file one report per version and task and count every failure |
| Runs.PlanAt | internal/reconciler/reconciler.go:76-77 | execution i*T+j is task j on version i |
| Runs.ReportAt | internal/reconciler/reconciler.go:76-87 | report i*T+j carries version i, task j, that execution's lines and findings, and exactly after a failure one last finding with task and error |
| Runs.TallyCountsFailures | internal/reconciler/reconciler.go:79-82 | each counter grows by the number of failed executions of its task on its version |
| Runs.RunIsGrouped | internal/reconciler/reconciler.go:37-90 | with distinct version names grouping leaves a run's reports as they are |
| Runs.RunThenRender | internal/reconciler/reconciler.go:37-90 | the digest lists the configured versions in order if and only if names are distinct and there is a task |
| Runs.RunDigest | internal/reconciler/reconciler.go:46-90 | then part i holds every task's execution on version i in order, and findings follow execution order |
| Runs.DigestEntries | internal/reconciler/reconciler.go:51-56 | and task by task exactly the lines of that execution |
| Runs.DigestFindings | internal/reconciler/reconciler.go:57-86 | the findings of a run's digest are every finding under its version and task, and one error line per failed execution, and nothing else |
| Schedule.ClockShows | main.go:161 | an instant is at the configured time exactly if the UTC clock then reads that hour and minute and no seconds |
| Schedule.NextDailyAt | main.go:155-166 | the least instant strictly after now at which the clock reads the configured hour and minute, or 24 hours from now without one |
| Schedule.NextIsFirstShown | main.go:155-166 | and this characterises it |
| Schedule.NextIsUnique | main.go:155-166 | that instant is unique and at most a day away |
| Schedule.NextAfterTarget | main.go:155-166 | scheduling after a target skips as many firings as whole days have passed since it |
| Service.StepKeepsCounters | main.go:117-153 | every step of every loop keeps the counters equal to the failures so far |
| Service.StepKeepsRuns | main.go:101-153 | every step keeps the three loops' executions in step with the plan |
| Service.StepKeepsDaily | main.go:117-153 | every step keeps each digest equal to the rendering of its own run |
| Service.StepKeepsTargets | main.go:134-153 | every step keeps targets, scheduling instants and digests in step |
| Service.TargetsShowClock | main.go:134-166 | in every interleaving every target is an instant at which the clock reads the configured hour and minute |
| Service.CountersAreExact | internal/reconciler/reconciler.go:79-82 | in every interleaving each error counter is the number of failed executions of its task on its version |
| Service.CompleteRuns | main.go:101-153 | in every interleaving each completed initial, quick or daily run has executed every task on every version once, in plan order |
| Service.IncompleteRuns | main.go:101-153 | and a run in progress a prefix of that, and a later run nothing |
| Service.DigestsAreTheirOwnRuns | main.go:141-151 | in every interleaving each digest is what RunAll and Render make of that daily run's own results |
| Service.OneDigestPerTarget | main.go:134-153 | one digest per target, never before it, at most one target open |
| Service.TargetGap | main.go:134-166 | neighbouring targets are whole days apart, and exactly one day if and only if the loop came back within a day |
| Service.OneTargetPerDay | main.go:134-166 | if it always does, no day is skipped or repeated |
| Service.UnparsedClockDrifts | main.go:155-160 | with an unparsable setting each gap is a day plus the preceding delay |
| Tallies.SumInAnyOrder | internal/reconciler/fee.go:36-45 | a total over map keys is the same along every listing of the keys |
| Fees.SumClaims | internal/reconciler/fee.go:36-45 | whatever the visiting order: total, gauges and unread markets are those of the reads |
| Fees.Run | internal/reconciler/fee.go:25-71 | the whole effect on lines, findings and gauges, with nothing for a version without markets and a time stamp only when the distributor's balance was read; Set calls and unread markets make up all markets |
| Fees.MarketsAccountedFor | internal/reconciler/fee.go:36-45 | Set calls on the claim gauges plus unread markets in the findings list are all markets |
| Fees.UnreadMarketsReported | internal/reconciler/fee.go:39-42 | the market findings are exactly the read errors |
| Fees.DistributorReported | internal/reconciler/fee.go:50-67 | the balance finding exactly for a configured distributor that cannot be read, the gap finding exactly if the total exceeds its balance by more than 1000 * 10^18 |
| Fees.FeesOverTheWire | internal/reconciler/fee.go:36-46 | against a serving node no read fails and the total is the sum of the stored claims |
| Fees.GapOverTheWire | internal/reconciler/fee.go:53-61 | gap plus the distributor's stored balance is the sum of the stored claims |
| Features.Run | internal/reconciler/features.go:50-93 | whatever the handler order: count, findings, gauges and Set calls are those of all probes; Set calls and read errors make up all probes |
| Features.ProbesAccountedFor | internal/reconciler/features.go:55-88 | Set calls plus read errors in the findings list are features times handlers plus one; the reported count is the number of disabled findings in the list |
| Features.FindingsReported | internal/reconciler/features.go:58-85 | each read error and each flag that is on is in the findings once, and nothing else |
| Features.HandlerGauge | internal/reconciler/features.go:80-87 | a handler's gauge holds 1 or 0 as its flag was read |
| Features.GlobalGauge | internal/reconciler/features.go:61-68 | so does the gauge named root, unless a handler of that name was read |
| Features.WrittenGauges | internal/reconciler/features.go:68-87 | the distinct gauges a run writes are its Set calls less the features whose global flag a handler named root overwrites |
| Features.GaugesAccountedFor | internal/reconciler/features.go:55-88 | distinct gauges written plus read errors in the list are features times handlers plus one if and only if no global flag was overwritten |
| Features.DisabledGauges | internal/reconciler/features.go:63-87 | the reported count is the number of those gauges left at 1 plus the overwritten global flags that were on, so it is that number if and only if there are none |
| Features.FeatureNamesDistinct | internal/reconciler/features.go:32-46 | the probed names are pairwise different |
| Features.FeaturesOverTheWire | internal/reconciler/features.go:57-75 | against a serving node each probe returns the stored flag |
| Features.RunOverTheWire | internal/reconciler/features.go:50-93 | a run there has no read error, one Set call per probe, and counts exactly the flags stored as true |
| Funding.RatioLandmarks | internal/reconciler/funding.go:48-53 | the ratio lies in 0..2, is symmetric, and its values 0, 1, above 1 and 2 mean balance, one empty side, opposite signs and opposite values |
| Funding.RatioScales | internal/reconciler/funding.go:48-53 | the ratio does not depend on the unit |
| Funding.ImbalancedMeans | internal/reconciler/funding.go:50-56 | a market is counted exactly if the signs differ or the smaller side is under a tenth of the larger |
| Funding.UnreadSidesReported | internal/reconciler/funding.go:36-44 | the findings are exactly the read errors, the short side looked at only after the long |
| Funding.RatioGauge | internal/reconciler/funding.go:48-53 | the ratio gauge is the difference over the larger magnitude, untouched if both sides are zero |
| Funding.Measure | internal/reconciler/funding.go:33-58 | whatever the visiting order: count, findings and both gauge vectors are those of the reads |
| Funding.Run | internal/reconciler/funding.go:24-62 | the whole effect, with nothing for a version without markets |
| Funding.FundingOverTheWire | internal/reconciler/funding.go:35-44 | against a serving node both stored sides are read with their signs |
| Funding.RunOverTheWire | internal/reconciler/funding.go:24-62 | a run there has no findings and counts exactly the markets whose stored sides are out of balance |
| Funding.GaugesOverTheWire | internal/reconciler/funding.go:45-46 | and each side gauge it leaves holds the stored value |
| Chainlink.ProbeFeeds | internal/reconciler/chainlink.go:47-61 | whatever the visiting order: ages, stale count and findings are those of the reads |
| Chainlink.Run | internal/reconciler/chainlink.go:39-66 | only version v1 probes; the whole effect then |
| Chainlink.StaleMeans | internal/reconciler/chainlink.go:53-60 | a feed is stale exactly if now is more than ten minutes past its update |
| Chainlink.UnreadFeedsReported | internal/reconciler/chainlink.go:48-51 | the findings are exactly the read errors |
| Chainlink.AgesShown | internal/reconciler/chainlink.go:53-60 | a gauge makes up the time since the update, zero for one in the future, and the stale count is the number of gauges above 600 |
| Chainlink.FeedsOverTheWire | internal/reconciler/chainlink.go:47-52 | against a serving node every feed is read, modulo 2^64 |
| Chainlink.RunOverTheWire | internal/reconciler/chainlink.go:39-66 | a run there has no findings and counts exactly the feeds whose stored update is more than ten minutes old |
| Roles.Run | internal/reconciler/role.go:25-65 | all roles in order with gauges for every count read; after a decoder panic the gauges up to that role stand and there is no time stamp |
| Roles.RolesReported | internal/reconciler/role.go:29-62 | a line for every role that could be read, a finding for every failed read and for every privileged role with more than five holders, and nothing else |
| Roles.CrashMeans | internal/reconciler/role.go:43-47 | a run panics exactly if some role's members are asked for and make the decoder panic |
| Roles.CountsShown | internal/reconciler/role.go:31-36 | the count gauges are exactly the counts that were read, others untouched |
| Roles.RolesOverTheWire | internal/reconciler/role.go:30-47 | against a serving node the capped range exists and yields the first min(count, 50) holders |
| Roles.VerdictOnAllSeen | internal/reconciler/role.go:29-62 | then every role gets a line with its full count, and only oversized privileged roles are flagged |
| Roles.RunOverTheWire | internal/reconciler/role.go:25-65 | against a serving node the task reports the number of holders stored under the hash of each role name |

## Left out

- RPC dialing, timeouts, native balances, the metrics HTTP server, Slack delivery, YAML and environment loading, flags, signals and logging: I/O or foreign libraries. A node is a function that is fixed for the duration of one run.
- The hash function and the concrete selector values: the hash is a parameter, the ten selectors are a record, and where the reference node dispatches on them they are taken to be different within a contract.
- The reference node's getRoleMembers cuts the end at the member count and reverts when start is beyond it; the contract itself is not part of this model.
- Error texts of failed calls are passed on without the `eth_call <address>` prefix, and addresses are compared as bytes rather than in checksummed hex.
- Number formatting and float64 scaling of gauges: gauges hold exact integers, the imbalance gauge a numerator and a denominator, and the report lines of the aggregations are structured values rather than text.
- Funding.Imbalanced: compares 10 times the difference with 9 times the larger side instead of a float64 quotient with 0.9, so a ratio within rounding of 0.9 may count differently in Go.
- Abi.Decode: a slice is taken to be shorter than 2^63 bytes, as in Go, and a list of 2^59 or more addresses cannot be allocated; running out of memory below that is not modelled.
- Server.MembersAgree: says nothing of a slice of 2^59 members or more, whose list a client could not allocate.
- Schedule.NextDailyAt: parsing of the hh:mm setting is a library's; the parsed pair, or its absence, is a parameter. Adjustments of the wall clock are not modelled.
- Service: the gauges that task executions write are not part of the state, so nothing is said about gauge values while two loops interleave; dropped ticks of the quick loop are covered because a quick run may start at any moment. The one-shot mode is the initial run alone.
- The sort of role members, whose result is not used.
- vault.go, timelock.go, params.go, queue.go, market_oi.go, oracle.go and gas.go: the same loop shapes as the modelled files.
- Hex addresses in the configuration: markets, handlers and vaults map to parsed addresses.
