# A verified model of the mining pool

This project models the logic of a Kaspa mining pool written in Rust as three state machines and
proves what holds over all of their runs.

* **Stratum sessions.** A connection subscribes, authorizes and then serves jobs, timer ticks and
  requests (`Session`). The rounding of difficulties and the pool target are in `Difficulty`, nonce
  composition in `Nonce`, base-16 text in `Hex`. `VarDiff` and `Miners` close the loop between the
  retarget rule and a miner of constant speed. `SessionSteps`, `SessionTraces`,
  `SessionCredit`, `SessionVarDiff` and `SessionJobs` hold the laws of every session.
* **Jobs.** One task issues jobs under 16-bit keys into two maps, caches and broadcasts them, while
  another task sweeps old ones out (`JobTable`, `JobManager`). A session hears of jobs through the
  cache and a bounded broadcast (`JobFeed`), and its submits are judged against the table
  (`Judging`). `JobString` is the 80-character parameter a job is sent as.
* **Share accounting.** The engine collects accepted shares per worker and turns them once a second
  into a pipeline of Redis commands (`Telemetry`, `Ledger`). The oracle drains the event queue in
  batches and settles each in a database transaction (`Oracle`, `Settlement`). `Accounting` is all of
  it as one machine; `Conservation`, `Flushes`, `Payments`, `Progress`, `Faultless` and `Averages`
  hold its laws. `Intake` joins the sessions to it through the bounded channel.

Code that updates state is written as classes and methods (`AccountingEngine`, `Redis`,
`OracleDaemon`, `Manager`, and the session's loops), each proved equal to a specification function;
the laws are then proved of every run of the specification.

## How the model reads the code

* Every map insert and removal, cache write, send, subscribe, cache read, receive, flush, batch read,
  trim and settlement is a step of its own. Runs are arbitrary sequences of steps; a step whose turn
  it is not changes nothing. Laws stated over all sequences therefore hold for every interleaving of
  these steps. A flush's commands are applied together: an oracle's read or trim between two commands
  of one pipeline is not represented, nor is a change of the active jobs while a submit is judged.
* A Redis pipeline is not atomic: a flush may apply any prefix of its commands. A trim may fail after
  its batch was read; the code goes on and will read that batch again, which the books record as
  duplicated. A transaction may fail at any call, and a commit may report an error although it took
  effect.
* Hash maps are visited in an arbitrary order, which is a parameter wherever it could matter.
* Difficulties, counters and times in milliseconds are natural numbers; where the code's 64-bit
  difficulty can overflow, it wraps as it does in a release build. The 64-bit connection and job
  counters are not wrapped, but only their low 16 bits are shown.
* Hashrates, yields and prices are exact reals. `exp(-dt / tau)` is a factor per millisecond raised to
  dt, for any factor strictly between 0 and 1.
* Rounding log2 to the nearest integer is stated without logarithms: the exponent k has
  2^(2k-1) <= d^2 < 2^(2k+1).
* A flush tick with no workers sends nothing; the model lets it count as a flush at its own time.
* The proof-of-work library is an arbitrary function from a header and a nonce to a 256-bit hash and a
  flag saying whether the network target was met.
* A session's retarget uses one clock reading per window.

## What the proofs found

* Difficulty can become 0, but only when 2^63 is doubled or a configured difficulty of 2^63.5 or more
  is rounded; the conditions are exact (`RetargetKeepsPower`, `ClampOverflows`).
* A too slow window raises the difficulty of a miner exactly when it is below the floor; the tier that
  starts at 1 under a floor of 2 does so (`SlowRaisesIff`, `SlowMinerRaised`).
* The retarget rule never hunts if windows count whole shares less than one off the expected number
  and the target is at least three a minute; at one or two it can (`SessionNeverHunts`,
  `HuntsBelowThree`). With rates measured to within a third of the truth it never hunts either, and a
  third is the most it can stand (`ThirdIsSeparated`, `HuntsBeyondAThird`).
* A nonce suffix that is not all hex falls into slice 0: "+5" from connection 1 is nonce 5. A text of
  more than twelve digits chooses its own slice (`SubmitSlice`, `PlusSignLeavesSlice`).
* The job table is safe while fewer than 65536 ids are issued during any job's life. In any run an id
  finds its own job exactly when fewer than 65536 jobs were inserted since (`LookupIff`), and without
  spacing an entry can leak that no sweep will take (`LeakWithoutSpacing`). A run never leaks exactly
  when no sweep's second removal takes the stamp of a job published between its two (`NeverLeaksIff`).
* Deliveries out of a session's queue are in order, but the cached job written first may be newer than
  the next one out of the queue, or the same one. The output is sure to be in order exactly when
  nothing was cached between subscribing and reading the cache (`InOrderIff`, `CachedJobMayBeNewer`,
  `CachedJobGivenTwice`).
* Network blocks are reported and not credited as shares (`SubmitOutcome`).
* The ledgers disagree exactly when some flush was cut inside the commands of one of the wallet's
  workers, and never recover; but only in one direction: a wallet's ledger is never behind its
  workers', and those are never behind the queue (`LedgersAgreeIff`, `CutLedgersDisagree`,
  `LedgersInOrder`).
* Queued shares can be paid twice. Each is paid at most once exactly when no settlement goes through
  for a batch whose front had been paid before, which takes a failed trim (`PaidOnceIff`,
  `SuccessfulTrims`, `FailedTrimPaysTwice`).

## Model

| member | source | states |
|---|---|---|
| Difficulty.RoundedLog2Fits | src/stratum_tcp/mod.rs:24-28 | the rounded exponent fits 64 bits exactly when 2 d^2 < 2^128 |
| Difficulty.ClampOverflows | src/stratum_tcp/mod.rs:24-28 | rounding gives 0 exactly for d of at least 2^63.5 |
| Difficulty.ClampIsNearest | src/stratum_tcp/mod.rs:24-28 | otherwise the result is a power of two p with p^2 <= 2 d^2 < 4 p^2, and no power of two is nearer to d on a logarithmic scale |
| Difficulty.ClampMonotone | src/stratum_tcp/mod.rs:24-28 | a larger difficulty never rounds to a smaller power, short of overflow |
| Difficulty.ClampFixesPowers | src/stratum_tcp/mod.rs:24-28 | every 64-bit power of two is its own rounding |
| Difficulty.ShareMeetsDifficulty | src/diff_engine/mod.rs:16-28 | the truncating 256-bit division loses nothing: a share passes exactly when hash * difficulty <= 2^256 - 1 |
| Difficulty.RetargetKeepsPower | src/stratum_tcp/mod.rs:195-200 | a retarget keeps a 64-bit power of two between the smaller of difficulty and floor and the larger of twice the difficulty and floor, and gives 0 exactly when it doubles 2^63 |
| VarDiff.SlowRaisesIff | src/stratum_tcp/mod.rs:195-202 | a too slow window raises the difficulty exactly when it is below the floor |
| VarDiff.OneWindow | src/stratum_tcp/mod.rs:189-217 | if some cut separates raising from lowering, a move down leaves a miner that can never again be doubled, a move up one that can never again be lowered |
| VarDiff.NeverReverses | src/stratum_tcp/mod.rs:189-217 | with such a cut no run of windows both lowers and raises the difficulty, in either order |
| Miners.ThirdIsSeparated | src/stratum_tcp/mod.rs:192-200 | rates measured within a third of the truth leave a cut |
| Miners.HuntsBeyondAThird | src/stratum_tcp/mod.rs:189-217 | for any larger measurement error there is a miner whose difficulty is halved and then doubled again |
| Miners.WholeSharesSeparated | src/stratum_tcp/mod.rs:191-200 | so do whole counts less than one share off the expected number, for windows of a minute or more and a target of three or more, zero counts included |
| Miners.HuntsBelowThree | src/stratum_tcp/mod.rs:191-200 | with a target of one or two such counts can halve a difficulty and double it again |
| VarDiff.ChangesAreLogarithmic | src/stratum_tcp/mod.rs:189-217 | 2^changes is the ratio of first and last difficulty (or less on the way up), so a run of any length has fewer than 64 changes |
| VarDiff.RunStaysWithin | src/stratum_tcp/mod.rs:189-217 | for arbitrary rates, while the exponent of the larger of start and floor plus the changes is at most 63 nothing wraps and the difficulty stays a power of two between its bounds |
| Miners.SettledIff | src/stratum_tcp/mod.rs:195-202 | a difficulty is a fixpoint exactly when its rate is within [T/2, 2T] or it is the floor with a rate below T/2; and which difficulties these are |
| Miners.Converges | src/stratum_tcp/mod.rs:189-217 | an exactly measured miner reaches a fixpoint after n < 64 windows, with 2^n bounded by the ratio of first and settled difficulty |
| Miners.StaysSettled | src/stratum_tcp/mod.rs:189-217 | a settled difficulty stays settled for ever |
| Nonce.ExtranonceText | src/stratum_tcp/mod.rs:76-77 | a client is told four lower-case hex digits that denote its connection's id modulo 65536 |
| Hex.PrefixTrimmed | src/stratum_tcp/mod.rs:253 | trimming leaves no "0x" in front, and one more in front makes no difference |
| Hex.ParsesIff | src/stratum_tcp/mod.rs:254 | a text parses exactly when it is hex digits below 2^64, with or without a plus sign, and to what they denote |
| Nonce.ComposeIsSlot | src/stratum_tcp/mod.rs:253-260 | a hex suffix of at most 12 digits gives extranonce * 2^48 + suffix, from which both are read back, within 64 bits |
| Nonce.LongSubmit | src/stratum_tcp/mod.rs:253-260 | a text of more than twelve hex digits is the nonce itself when it fits 64 bits; one that does not parse counts as 0 |
| Nonce.SubmitSlice | src/stratum_tcp/mod.rs:253-260 | the slice of every submit: a short hex suffix is in its connection's, a short suffix that is not hex in slice 0, a longer text where its own leading digits put it, or 0 when it does not parse |
| Nonce.SubmitInSliceIff | src/stratum_tcp/mod.rs:253-260 | exactly which texts, of any length, stay in the connection's own slice |
| Nonce.PlusSignLeavesSlice | src/stratum_tcp/mod.rs:253-260 | a concrete suffix that does not |
| Nonce.SlicesDisjoint | src/stratum_tcp/mod.rs:76-77 | connections whose ids differ by less than 65536 never compose the same nonce from hex suffixes |
| Nonce.SuffixDecidesNonce | src/stratum_tcp/mod.rs:253-260 | within a connection two hex suffixes collide exactly when they denote the same number |
| JobString.BuildJobString | src/job_manager/mod.rs:115-126 | the two appending loops give 80 lower-case hex digits that decode to the same hash and timestamp |
| JobString.DecodeOfEncode | src/job_manager/mod.rs:118-126 | decoding undoes encoding for every byte sequence |
| JobString.ByteAt | src/job_manager/mod.rs:118-126 | each byte is at its own two digits, in order |
| JobString.TimestampByte | src/job_manager/mod.rs:122-123 | the i-th byte of a timestamp is its quotient by 2^(8i) modulo 256 |
| JobString.EveryTextIsAJob | src/job_manager/mod.rs:115-126 | every 80-digit lower-case text is the parameter of exactly the hash and 64-bit timestamp it decodes to |
| Session.HandleConnection | src/stratum_tcp/mod.rs:66-334 | the handler's two loops write, credit and submit exactly the specification's log, for every sequence of inputs |
| Session.PerformHandshake | src/stratum_tcp/mod.rs:94-145 | the first loop ends in the specification's state, either greeted or hung up |
| Session.HandleSubmit | src/stratum_tcp/mod.rs:234-309 | a submit changes worker name, share count and log as specified and nothing else |
| Session.ServeLoop | src/stratum_tcp/mod.rs:177-334 | the second loop's variables follow the specification through jobs, ticks, retargets and requests |
| SessionTraces.StepWrites | src/stratum_tcp/mod.rs:112-331 | each input makes a connection write exactly the messages its stage calls for |
| SessionTraces.OutputLanguage | src/stratum_tcp/mod.rs:112-211 | every trace, and every cut of it, is subscribe reply, extranonce, authorize reply, difficulty, cached job if any, then notifies, difficulties and replies |
| SessionTraces.RepliesMatchRequests | src/stratum_tcp/mod.rs:220-331 | after the handshake the reply ids are the ids of the parsed requests, in order, one each |
| SessionSteps.HandshakeAnswers | src/stratum_tcp/mod.rs:112-143 | the handshake moves on and answers exactly at a subscribe, then at an authorize; any other request leaves it as it was |
| SessionJobs.JobIsSentOnce | src/stratum_tcp/mod.rs:175-187 | a job that arrived last is what the next tick writes, whatever happens in between, and ticks write nothing more until another arrives |
| SessionJobs.GreetedFollows | src/stratum_tcp/mod.rs:75-166 | a connection that authorizes and reads the cache has been written its feed's deliveries so far |
| SessionJobs.ClientGetsDeliveries | src/stratum_tcp/mod.rs:177-187 | however feed, ticks and requests interleave, a client that stays is written exactly the deliveries of its feed |
| SessionCredit.SubmitOutcome | src/stratum_tcp/mod.rs:234-320 | a submit with three parameters and an active job reports a block, or credits a share when hash * difficulty < 2^256, or neither, never both; any other has no effect; all are answered |
| SessionCredit.CreditsAreEarned | src/stratum_tcp/mod.rs:234-309 | a session credits exactly its submits that arrive in the loop, carry three parameters, name an active job, are no network block and meet the difficulty in force, each once; stale, short and early submits earn nothing |
| SessionCredit.CreditMatchesAnnouncement | src/stratum_tcp/mod.rs:147-309 | in every session each credited share carries the last announced difficulty and really meets it, and the share count is the number credited since the window began |
| SessionVarDiff.AnnouncedTracksCurrent | src/stratum_tcp/mod.rs:147-211 | the first announced difficulty is the tier's and the last one is the one in force |
| SessionSteps.StartAndFloor | src/stratum_tcp/mod.rs:79 | a session starts at, and first announces, its port's difficulty rounded; its floor is the configured least difficulty rounded |
| SessionSteps.RetargetOutcome | src/stratum_tcp/mod.rs:189-217 | in whole numbers, when a tick ends a window, and what n shares in e milliseconds then make of the difficulty |
| SessionSteps.WindowsAreGapless | src/stratum_tcp/mod.rs:91-216 | windows follow one another without a gap from the opening of the connection on |
| SessionVarDiff.WindowsFollowRule | src/stratum_tcp/mod.rs:189-217 | whatever arrives in between, a session's completed windows follow the retarget rule from the tier's difficulty |
| SessionVarDiff.AnnouncedCountsChanges | src/stratum_tcp/mod.rs:202-213 | there is one announcement for the start and one for each window that changed the difficulty |
| SessionVarDiff.DifficultyStaysInRange | src/stratum_tcp/mod.rs:189-217 | in every session where the exponent of the larger of start and floor plus the retargets is at most 63 the difficulty is a power of two, at least the smaller of start and floor, at most 2^(exponent + retargets) |
| SessionVarDiff.RatesAreCounts | src/stratum_tcp/mod.rs:191-193 | a session's completed windows last a minute or more and their rates are their whole counts per minute |
| SessionVarDiff.SessionNeverHunts | src/stratum_tcp/mod.rs:189-217 | with a target of three or more, a session whose windows count less than one share off what a miner of constant speed is expected to find only rises or only falls, with fewer than 64 changes |
| JobTable.TextIsKey | src/job_manager/mod.rs:73 | miners see four hex digits that denote the id modulo 65536, equal exactly when the table's keys are |
| JobTable.TableSafety | src/job_manager/mod.rs:47-65 | in every interleaving of publishing and sweeping with spaced ids: lookups find the job issued under the id, the maps differ only by a key mid-insert or mid-removal, an insert overwrites nothing, and only stamps older than 120 s are being removed |
| JobTable.AnnouncedIsFound | src/job_manager/mod.rs:104-105 | every job cached or broadcast and not swept out is found under its id, except between the two removals |
| JobTable.OnlyOldJobsRemoved | src/job_manager/mod.rs:54-63 | any step that takes a job out is a sweep's, of a job stamped more than 120 s before it |
| JobTable.PublicationOrder | src/job_manager/mod.rs:143-152 | in every interleaving jobs are broadcast in issue order and the cache is at most one ahead |
| JobTable.LookupIff | src/job_manager/mod.rs:72-105 | in every interleaving, spaced or not, an id in the table finds its own job exactly when fewer than 65536 jobs have been inserted since, and a newer one otherwise |
| JobTable.OverwritesOnly | src/job_manager/mod.rs:104-105 | in every interleaving the only job an insert can overwrite is the one 65536 ids back |
| JobTable.NeverLeaksIff | src/job_manager/mod.rs:60-63 | in every interleaving, spaced or not, no active job is ever without a stamp, but for the one being inserted, exactly when no second removal of a sweep meets its key newly inserted and stamped |
| JobTable.NeverOrphansIff | src/job_manager/mod.rs:104-105 | in every interleaving no stamp is ever without a job, but for the one being removed, exactly when no stamp is inserted for a job a sweep has just taken out |
| JobTable.WrapReturnsOtherJob | src/job_manager/mod.rs:72-73 | without spacing the id of job 1 finds job 65537 |
| JobTable.LeakWithoutSpacing | src/job_manager/mod.rs:60-63 | without spacing a sweep caught between its two removals leaves a job without a stamp, which stays whatever happens until the next id of its key is issued |
| JobManager.Manager.ProcessNewBlock | src/job_manager/mod.rs:70-154 | one publication is exactly the five publishing steps of the table; a block without a header publishes nothing |
| JobManager.Manager.ScanTimestamps | src/job_manager/mod.rs:54-58 | the scan collects exactly the stamps older than 120 s, and is a sequence of sweeping steps |
| JobManager.Manager.RemoveKey | src/job_manager/mod.rs:60-63 | a key leaves both maps by two sweeping steps |
| JobManager.Manager.CollectGarbage | src/job_manager/mod.rs:47-65 | a sweep removes exactly the old jobs from both maps and is a sequence of sweeping steps |
| JobFeed.StartsWhereItSubscribed | src/stratum_tcp/mod.rs:75-162 | in every interleaving a session's queue starts at the jobs broadcast when it subscribed, and its cached job is the one cached when it read the cache |
| JobFeed.NothingLost | src/job_manager/mod.rs:35 | a session never more than 1024 jobs behind takes every job broadcast since it subscribed, one by one |
| JobFeed.NoMissedJob | src/stratum_tcp/mod.rs:156-187 | in every interleaving, with any loss from the queue, once queue and slot are empty and no publication is between cache and broadcast the last job delivered is the newest |
| JobFeed.QueueFedInOrder | src/stratum_tcp/mod.rs:175-187 | deliveries after the cached one are an increasing, duplicate-free selection of the jobs broadcast since subscribing |
| JobFeed.InOrderIff | src/stratum_tcp/mod.rs:75-187 | at its cache read a session's whole output is sure to be in order exactly when nothing has been cached since it subscribed |
| JobFeed.CachedJobGivenTwice | src/stratum_tcp/mod.rs:156-187 | a job cached but not yet sent at the cache read is delivered twice |
| JobFeed.CachedJobMayBeNewer | src/stratum_tcp/mod.rs:156-187 | otherwise a client can be given job 2 and then job 1 |
| JobFeed.DeliveredIsFound | src/stratum_tcp/mod.rs:156-262 | with spaced ids a delivered job is found under its id until a sweep takes it out |
| Judging.FoundIff | src/stratum_tcp/mod.rs:262 | a printed job id finds a header exactly when its key is active |
| Judging.SubmitJudgedAgainst | src/stratum_tcp/mod.rs:262-309 | in every interleaving a submit for an id in the table is judged against that job's header exactly when fewer than 65536 jobs were inserted since, and against a newer one otherwise |
| Judging.NotifiedJobJudged | src/stratum_tcp/mod.rs:262-309 | with spaced ids a submit for a job the client was given is judged against that very header until a sweep takes the job out |
| Intake.ConnectionIsSession | src/stratum_tcp/mod.rs:57-62 | whatever else happens, each connection runs through its own inputs as a session |
| Intake.CreditedBySessions | src/stratum_tcp/mod.rs:301 | of all shares credited, those of a connection are what its session credited, in its order |
| Intake.ReceivedIsSelection | src/main.rs:52 | the engine receives a selection of the shares the sessions credited, in order; the others wait in the channel or were dropped by it |
| Intake.OfferFillsRoom | src/stratum_tcp/mod.rs:301 | the channel takes the first credits offered up to 10000 waiting and drops the rest |
| Intake.NothingDroppedUnlessFull | src/main.rs:52 | while it never fills nothing is dropped, and the engine receives all that the sessions credit, in order |
| Intake.SystemIsRun | src/telemetry/mod.rs:85-87 | the accounting side of the whole pool is a run of the accounting machine |
| Intake.SubmitToPayout | src/stratum_tcp/mod.rs:301 | for every wallet, however connections, engine and oracle interleave: difficulty credited to its miners plus re-read = waiting in the channel + dropped + unflushed + queued + in the batch + lost + paid out / 0.000005 |
| Telemetry.AccountingEngine.UpdateEmas | src/telemetry/mod.rs:101-110 | the loop updates all seven averages independently |
| Telemetry.AccountingEngine.OnShare | src/telemetry/mod.rs:87-118 | a share changes its own worker's state as specified and no other |
| Telemetry.AccountingEngine.OnFlush | src/telemetry/mod.rs:120-195 | a flush visits every worker once, builds the pipeline of that order and keeps exactly the online workers, drained where they had difficulty |
| Averages.AveragesAreSums | src/telemetry/mod.rs:99-112 | in every run each average of a known worker is the sum of its shares' contributions, each decayed by its age, however many flushes came in between |
| Averages.AgesAreDifferences | src/telemetry/mod.rs:99 | when clocks never go back a share's age is the difference of two times |
| Averages.ProjectionIsSum | src/telemetry/mod.rs:132-141 | a flush's projection is the same sum decayed to the flush, with sums up to 0.000001 shown as zero |
| Averages.NextEmaIsBetween | src/telemetry/mod.rs:101-110 | a later share pulls an average towards the instantaneous rate and never past it |
| Averages.BurstShare | src/telemetry/mod.rs:99-110 | a worker's first share, and one within a millisecond of the last, adds 2^32 times its difficulty over each of the seven windows |
| Averages.EvictedIff | src/telemetry/mod.rs:132-149 | in every run a flush evicts a worker exactly when its last share is 30 s old and its shares' sum, decayed over 8 s, is at most 5 * 10^9 |
| Averages.ContributedIsHeard | src/telemetry/mod.rs:113 | in every run a worker's contribution is the difficulty received from it since it was last unknown |
| Averages.FlushPublishes | src/telemetry/mod.rs:146-154 | a whole flush publishes for every worker its projected hashrate, or zero for one it evicts |
| Ledger.Redis.Execute | src/telemetry/mod.rs:220 | executing part of a pipeline has exactly the effect of that prefix of commands |
| Ledger.PipelineCut | src/telemetry/mod.rs:156-173 | wherever a flush is cut, what it posts to a wallet is at least what it posts to the wallet's workers, and that at least what it pushes; a whole flush makes the three equal |
| Ledger.LevelUnlessTorn | src/telemetry/mod.rs:146-174 | a cut leaves the three equal exactly when it does not fall among the ledger commands of one of the wallet's workers with some but not all of its difficulty written |
| Ledger.TornIsInside | src/telemetry/mod.rs:161-172 | with no empty shares those are the cuts strictly inside the worker's ledger commands |
| Accounting.FlushSplitsPending | src/telemetry/mod.rs:131-195 | a flush pushes, drops or keeps each worker's pending shares, whole and in order |
| Shares.WalletIff | src/oracle.rs:76 | a worker belongs to a dotless wallet exactly when its name is the wallet or goes on after it with a dot |
| Shares.RigsOfWallet | src/telemetry/mod.rs:157-158 | "w" and "w.rig" are workers of wallet "w", whatever dots the rig's name has |
| Accounting.ReadTakes | src/oracle.rs:59-64 | a read takes the first 501 events or all there are, and changes nothing else |
| Oracle.OracleDaemon.AggregateBatch | src/oracle.rs:68-82 | the loop sums a batch per wallet, skipping events without a worker name |
| Oracle.OracleDaemon.BindArrays | src/oracle.rs:89-95 | the parallel arrays hold every wallet once, with its sum |
| Oracle.OracleDaemon.ProcessBatch | src/oracle.rs:84-169 | a batch's transaction has the specification's effect, for every way its calls can fail |
| Settlement.UpsertIsCreditEach | src/oracle.rs:68-111 | the bulk upsert, in any order, equals crediting the events one by one, and never hits a row twice |
| Settlement.SettleOutcome | src/oracle.rs:84-169 | a batch with a named worker whose calls succeed is credited event by event and stamped once per wallet; anything else changes nothing; the foreign key never stands in the way |
| Settlement.SettlePays | src/oracle.rs:68-111 | a settlement that goes through pays each wallet 0.000005 for every unit of difficulty under its own name or a name that continues it after a dot; any other pays nothing |
| Settlement.StampedAtSpot | src/oracle.rs:118-157 | it stamps one row for each wallet paid, with that amount, as KAS and YIELD, at the price fetched or 0.16, and grossed at that price |
| Settlement.ForeignKeyHolds | db/schema.sql:63-74 | rows go in exactly when all of them have reservoirs |
| Settlement.SettleKeepsConsistent | src/oracle.rs:85-167 | whatever fails, every wallet's yield stays its streaming balance and the sum of its stamped amounts, and every row has a reservoir and gross = amount * price |
| Settlement.YieldIsDifficulty | src/oracle.rs:75-79 | a batch raises a wallet's yield by its named difficulty times 0.000005 |
| Conservation.QueueIsFifo | src/oracle.rs:59-66 | in every run what was pushed is what was trimmed followed by what is queued, and a read batch stays in front until its trim |
| Conservation.EveryShareIsSomewhere | src/telemetry/mod.rs:87-232 | in every run each received or re-read share is in exactly one of pending, queue, batch, database and lost |
| Conservation.PendingSumsAgree | src/telemetry/mod.rs:113-115 | in every run each worker's unflushed difficulty is the sum of its pending shares |
| Conservation.YieldIsCredited | src/oracle.rs:76-111 | in every run a wallet's yield has grown by exactly its credited difficulty times 0.000005 |
| Conservation.EndToEnd | src/oracle.rs:59-169 | for every wallet in every run: difficulty received plus re-read = unflushed + queued + in the batch + paid out / 0.000005 + lost |
| Conservation.BalancesAgree | db/schema.sql:19-74 | from a consistent database every run keeps balances and tax ledger in agreement |
| Payments.PaidOnceIff | src/oracle.rs:59-169 | in every run each place of the queue is paid at most once exactly when no settlement goes through for a batch whose front had been paid before it was read |
| Payments.CreditedIsPaid | src/oracle.rs:59-169 | in every run a share is in the database exactly as often as its places in the queue were paid |
| Payments.SuccessfulTrims | src/oracle.rs:66 | when trims succeed no settlement is such a one, whatever else fails |
| Payments.NoDoubleCredit | src/oracle.rs:59-169 | when no settlement is such a one, no share is credited more often than it was received |
| Payments.FailedTrimPaysTwice | src/oracle.rs:59-169 | whatever is queued, a turn whose trim fails and then one whose trim succeeds credit the whole batch twice |
| Payments.DoubleCreditHappens | src/oracle.rs:59-169 | so some run credits a share received once two times |
| Progress.QueuedIsCredited | src/oracle.rs:59-169 | what is queued while the oracle waits is credited, in order and first, after turns of 501 places each whose trims and settlements go through, whatever happens in between |
| Flushes.LedgersInOrder | src/telemetry/mod.rs:156-174 | in every run, with any pipelines cut: wallet ledger >= sum of its workers' ledgers >= difficulty pushed for it |
| Flushes.LedgersAgreeIff | src/telemetry/mod.rs:156-220 | in every run the three are equal exactly when no flush was ever cut inside one of the wallet's workers |
| Flushes.LedgersAgree | src/telemetry/mod.rs:156-174 | flushes that go through whole keep the three equal |
| Flushes.CutLedgersDisagree | src/telemetry/mod.rs:161-163 | one share whose flush is cut after two commands is in its wallet's ledger and not in its worker's |
| Flushes.WorkerLedgersAgree | src/telemetry/mod.rs:163-172 | with whole flushes every worker's own ledger is the difficulty pushed of its shares |
| Flushes.EvictsOnlyFlushed | src/telemetry/mod.rs:144-149 | with clocks that never go back and flushes under 30 s apart, an evicted worker has nothing unflushed, even if pipelines fail |
| Flushes.IndexIsWorkers | src/telemetry/mod.rs:149-195 | when flushes go through whole and difficulties are positive, the worker index after every flush is the set of workers the engine knows, however late the flush and whatever fails at the oracle |
| Flushes.LedgerAccountsForReceived | src/telemetry/mod.rs:87-174 | on time and with whole flushes a wallet's ledger plus its unflushed difficulty is all that was received for it, whatever fails at the oracle |
| Faultless.SoundRunIsClean | src/telemetry/mod.rs:87-232 | on time and without failures only shares without a worker name are ever lost, nothing is re-read, and the oracle has credited the named shares of what it trimmed, in order |
| Faultless.ExactlyOnceInOrder | src/oracle.rs:59-169 | then the shares of each worker with a name reach the database exactly once, in the order received |

## Left out

- Floating-point rounding: amounts, rates and averages are exact; difficulties are exact while totals stay below 2^53.
- TCP, Tokio scheduling and JSON text: a line is already parsed or known not to parse; the clean-up of quotes, blanks and zero characters in names, ids and nonces is not modelled.
- Failed writes to a client: during the handshake they end the session, which gives one of the cut traces of `OutputLanguage`; afterwards the code ignores them.
- Telemetry.AccountingEngine.OnFlush: does not include the pool hashrate, the telemetry JSON, its publication and the Prometheus gauges, which only repeat values of the pipeline.
- Ledger.Redis.Execute: each command is taken to succeed or not to be applied; a command refused on its own, in the middle of a pipeline, is not modelled.
- Oracle.OracleDaemon.ProcessBatch: timestamps and row ids given by the database, and the limits on text lengths, are not modelled; a rejected row is a failed call.
- Events in the queue that are not the engine's own: unparsable text is not modelled, a missing worker name is.
- JobManager.Manager.ProcessNewBlock: a block with malformed hashes, which panics after taking an id, is not modelled; a job stands for its header and block.
- Poisoned locks, the block submission channel and the kaspad client: only the fact that one task publishes is used.
- The oracle's second half, which stores network blocks and ignores repeated hashes: straight-line.
- Header hashing and the proof-of-work function: library code, an arbitrary function here.
- Omnichain routing, the HTTP interface, configuration loading, the load generator and key tools: wrappers without state of their own.
