# Flood early-warning system: verified model

Dafny models of the parts of the flood early-warning service whose guarantees range over every input, every run or every
interleaving, with proofs of those guarantees.

| module | what it models |
|---|---|
| `Tiff`, `TiffWriter`, `Singles`, `Raster` | the DEMNAS elevation reader: TIFF header and IFD parsing over entries of any type (with a writer to read back from), single-precision numbers, tile preparation, point-to-pixel mapping, strip-addressed pixel reads |
| `Calibration`, `Rounding` | probability bins, ECE, MCE and Brier score, and the four-digit rounding they are published with |
| `Migrations` | the migration runner over its tracking table, with SQL and tracking writes failing anywhere |
| `PipelineWriter`, `Canonical` | the transactional six-row writer with its retry loop, and the canonical form its snapshot hash is taken of |
| `TrendTable`, `FeatureHistory` | two capped history tables and what a reader of either can still see |
| `ConnectionPool` | double-checked pool creation and closing, as interleaved thread steps |
| `RateLimiter` | the sliding-window limiter of the API |
| `ThresholdLadder` | context-adjusted thresholds and the normalisation every consumer applies |
| `Decision`, `Adapter`, `Contract`, `Pipeline` | the decision layers L0 to L4, the adapter around them with the elevation rule, the decision-meta invariants, and the pipeline boundary |
| `LeadTime` | the lead-time detector of the historical replay |

Code that works step by step is a method or a class proved equal to a specification function (`Run`, `Retry`, `Decided`,
`RunOf`, ...); the properties are then lemmas about that function. Lemmas named `...Told` say what such a function computes in
raw fields, numbers and bytes, without naming its parts. Floating-point numbers are reals, `round` is
round-half-even on the decimal grid, clocks are reals that never go back, and faults of databases, stages and threads are
explicit inputs. `dafny verify dfyconfig.toml` checks everything.

## Where the code and what it promises differ

- A non-transient driver error that the pool raises while lending, setting up or taking back a connection leaves
  `execute_pipeline` unwrapped, although every database failure is promised as `DatabaseError`; `DriverEscapesIff` says
  exactly when, and `RaisingGiveBackHidesCommit` gives a call that ends so with its run committed.
- A commit that takes effect but loses its acknowledgement, or whose connection cannot be given back for a transient reason,
  is retried, so one call can commit several runs (`UnseenCommitIsRepeated`); `ExactlyOnceIff` says exactly when a call
  commits once or not at all.
- `_init_pool` reads the global once more after leaving the lock: with a concurrent close it can return no pool
  (`InitMayReturnNone`), exactly when `InitReturnsNoneIff` says.
- The threshold module says that missing data blocks lowering adjustments; only out-of-distribution input does
  (`MissingDataDoesNotBlockLowering`).
- A snapshot whose completeness is below 0.30, with no other finding, trips L0 but not the data verdict; the meta block then
  raises and the run ends in the emergency output instead of INVALID_INPUT (`MetaRaisesIff`,
  `IncompleteSnapshotEndsAsPipelineFailure`). A completeness of exactly 0 is passed on as 1 and trips nothing (`InvalidIff`).
- The published `is_safe_for_automation` is recomputed and can be true where the decision authority refuses automation, for a
  DANGER even (`DangerIsPublishedSafe`); `PublishedNotAllowedIff` gives the exact condition.
- `run` promises a dict whatever fails, but several statements stand outside every handler: scoring the alerts under a
  critical violation, converting the trend fields, scanning the failures, writing the reliability note, looking values up in
  the gate, and hashing the result. `NoOutputIff` states the guards under which a run returns nothing, and
  `NumericSeverityEscapes` gives such an input.
- Raising the probability, the rainfall or the water level, or adding a failure, can lower the final risk; the four
  `...LowersRiskIff` lemmas give the exact cases, told by the inputs, and the four `...CanLowerRisk` lemmas an input each.
- `_normalize_for_hash` depends on insertion order when a non-string key has the text of another key
  (`CollidingKeysDependOnOrder`), exactly when two such entries have different canonical values
  (`SameFormInEveryOrderIff`).
- Of the nine output invariants the fifth and the eighth can never be the one that refuses (`FifthAndEighthAreImplied`).

## Model

| member | source | states |
|---|---|---|
| Tiff.DetectStripOffset | app/services/dem_elevation.py:96-171 | on any bytes, the seek-and-collect parser yields the strip metadata, or the error, that the specification function `Parse` reads off the file |
| Tiff.ParseReportsHeld | app/services/dem_elevation.py:96-171 | for an IFD with entries of any type (numbers, octets, text, floats, unknown types, payloads running past the file), under any tags and in any order, parsing ends as the entries under the tags it uses say: their values, defaults for absent ones, or the error of a missing or unconvertible one |
| Tiff.UnusedEntryChangesNothing | app/services/dem_elevation.py:132-147 | an entry under a tag the parser does not use, whatever its type and wherever it stands, changes nothing |
| Tiff.EveryIfdHolds | app/services/dem_elevation.py:132-147 | every file with a complete header, count and entries holds some list of such entries, so the two statements above cover every file that is not rejected early |
| Tiff.FailsEarlyIff | app/services/dem_elevation.py:109-136 | the errors of header, byte order, magic number, entry count and truncated entry come each exactly when the bytes call for it |
| Tiff.ContributionTold | app/services/dem_elevation.py:470-499 | what an entry contributes: its numbers or octets, its singles, its text character by character, nothing when its type is unknown or its payload is cut |
| Tiff.IntsTold | app/services/dem_elevation.py:147-154 | an integer is itself, a character must be a digit, a finite single is cut toward zero, and nothing else converts |
| Tiff.ParseReturnsWritten | app/services/dem_elevation.py:132-171 | for either byte order and any file laid out as section 2 of TIFF Revision 6.0 allows (IFD anywhere, values inline or out of line anywhere), among whatever other entries, parsing returns exactly the SHORT and LONG numbers held under the tags it uses; it fails exactly when StripOffsets, else StripByteCounts, holds none |
| Tiff.NumberAtSpells | app/services/dem_elevation.py:113-137 | a number stands at a place exactly when its bytes, by division and remainder, stand there least significant first in an II file and most significant first in an MM file |
| TiffWriter.WriteThenParse | app/services/dem_elevation.py:470-499 | every list of entries of whatever types, written in either byte order, is held by the file, and numbers under the tags the reader uses are read back as given |
| Raster.DemCache.InitializeDem | app/services/dem_elevation.py:174-276 | the first call prepares every registered tile and counts the available ones; any later call changes nothing |
| Raster.PreparedTold | app/services/dem_elevation.py:197-261 | a tile is resolved exactly when its file exists and available exactly when parsing succeeds and the strip offsets times the rows per strip (at least 1) reach its height |
| Raster.PixelIsRasterElement | app/services/dem_elevation.py:572-591 | on a covered tile the four bytes addressed for a pixel are those of element row * width + col of the plain row-major raster |
| Raster.ReadPixelDecodesElement | app/services/dem_elevation.py:587-598 | a pixel read is the decoded row-major element, with non-finite values and magnitudes above 10000 dropped |
| Raster.ReadPixelTold | app/services/dem_elevation.py:572-598 | from the bytes alone: a pixel in row r of strip s is the finite single standing 4 (r width + col) bytes into the strip, in the byte order of the tile, exactly when its magnitude is at most 10000, and nothing otherwise |
| Raster.ReadPixelReturnsWritten | app/services/dem_elevation.py:587-598 | a finite single written at a row-major element is read back exactly when its magnitude is at most 10000 |
| Raster.ReadPixelDropsNonFinite | app/services/dem_elevation.py:593-596 | infinities and NaNs give nothing |
| Raster.UncoveredPixelGivesNothing | app/services/dem_elevation.py:573-591 | a pixel whose strip is missing, counts too few bytes or ends before it in the file gives nothing |
| Singles.NormalDenotes | app/services/dem_elevation.py:593 | the pattern s 2^31 + (x + 127) 2^23 + f with 1 <= x + 127 <= 254 denotes (-1)^s (2^23 + f) 2^(x - 23) |
| Singles.SubnormalDenotes | app/services/dem_elevation.py:593 | with a zero exponent it denotes (-1)^s f 2^-149 |
| Singles.NonFiniteDenotes | app/services/dem_elevation.py:593-595 | with an exponent of 255 it is not finite |
| Singles.PowersDouble | app/services/dem_elevation.py:593 | the powers of two used are pinned by 2^0 = 1 and doubling |
| Raster.PixelsDisjoint | app/services/dem_elevation.py:573-588 | when strips do not overlap, different pixels share no byte |
| Raster.BoxPointHasPixel | app/services/dem_elevation.py:549-569 | every point of the closed bounding box, far edges included, maps to the in-range pixel that covers it |
| Raster.AllBoxPointsIff | app/services/dem_elevation.py:559-569 | all points of the box have a pixel exactly when the box spans less than one pixel more than the grid |
| Calibration.CalibrationBins | app/evaluation/calibration.py:31-72 | the loop yields, for each bin, its count and the rounded means and gap of the samples in it |
| Calibration.EceMce | app/evaluation/calibration.py:75-86 | the loop yields the rounded count-weighted mean gap and the rounded largest gap |
| Calibration.ComputeCalibrationMetrics | app/evaluation/calibration.py:120-172 | the published metrics are the rounded exact quantities; it refuses exactly fewer than two samples or lists of different lengths |
| Calibration.InBinIffIndex | app/evaluation/calibration.py:38-45 | a probability lies in bin b exactly when it is in [0, 1] and b is the floor of 10p, the last bin also taking 1.0 |
| Calibration.BinsPartitionSum | app/evaluation/calibration.py:37-69 | summing any quantity bin by bin is summing it over all samples |
| Calibration.BinCountsTotal | app/evaluation/calibration.py:47-68 | the counts add up to the number of probabilities in [0, 1], so to n exactly when none lies outside |
| Calibration.BiasBelowEce | app/evaluation/calibration.py:59-83 | the difference of overall mean prediction and observed frequency is at most the exact ECE |
| Calibration.EceBelowMce | app/evaluation/calibration.py:75-86 | 0 <= ECE <= MCE <= 1 for probabilities and 0/1 labels |
| Calibration.EceSquaredBelowBrier | app/evaluation/calibration.py:26-28 | the square of the exact ECE is at most the Brier score |
| Calibration.ReportedErrors | app/evaluation/calibration.py:69-86 | with rounding at both levels ECE <= MCE still holds, and each is within 1e-4 of its exact value |
| Calibration.OneMoreSample | app/evaluation/calibration.py:37-47 | a further sample adds its value and one count to the bin its probability falls into, told by b <= 10p < b + 1, and changes no other bin |
| Calibration.RowTold | app/evaluation/calibration.py:47-70 | a row has its columns exactly when its bin is not empty: mean prediction, share of positives, and the former less the latter, each within 0.00005 |
| Calibration.EceTold | app/evaluation/calibration.py:75-86 | the exact ECE is the sum over bins of the absolute residual sums, over n |
| Calibration.MceTold | app/evaluation/calibration.py:75-86 | the exact MCE is the absolute gap of some nonempty bin and none has a larger one |
| Calibration.BrierTold | app/evaluation/calibration.py:26-28 | the Brier score of one sample is its squared residual, and a further one is averaged in by weight |
| Migrations.MigrationRunner.RunMigrations | db/migration_runner.py:177-267 | every mode, against faults of the SQL and of both tracking writes, leaves the database and outcome that `Run` defines |
| Migrations.DetectGaps | db/migration_runner.py:72-88 | lists in order the unapplied files with an applied one later |
| Migrations.RunVerify | db/migration_runner.py:270-298 | answers 1 exactly when some listed, recorded file failed or drifted |
| Migrations.NoGapIffPrefix | db/migration_runner.py:72-88 | no gap is found exactly when the applied files are a prefix of the listing |
| Migrations.PreflightPasses | db/migration_runner.py:217-232 | the pre-flight passes exactly when every recorded file of the listing succeeded with its current checksum |
| Migrations.VerifyIsPreflight | db/migration_runner.py:205-206 | verify mode answers 0 exactly when that pre-flight would pass, and changes nothing |
| Migrations.DryRunPredicts | db/migration_runner.py:194-264 | a dry run leaves the database untouched and answers what a fault-free real run would |
| Migrations.EveryHistory | db/migration_runner.py:177-267 | over every sequence of calls on a growing listing, the recorded files form a prefix, only its last can be a failure, and a file whose execution was recorded at all is never executed again |
| Migrations.FailureBlocks | db/migration_runner.py:217-226 | once a listed file is recorded as failed, no call executes SQL or changes the table, and none answers 0 |
| Migrations.FailureIsForever | db/migration_runner.py:217-226 | once any growing history has left a listed file recorded as failed, no continuation of it executes SQL or changes the table |
| Migrations.SuccessIsComplete | db/migration_runner.py:234-264 | a real run answering 0 leaves every listed file recorded as a success with its current checksum, and a rerun executes nothing |
| Migrations.SucceedsIff | db/migration_runner.py:208-264 | a real run answers 0 exactly when there is no gap, the pre-flight passes, and no pending file's SQL or success record raises |
| Migrations.ExecutesInOrder | db/migration_runner.py:240-258 | a run executes a leading part of the pending files in order and stops at the first that raises, which the error names |
| Migrations.RowsTold | db/migration_runner.py:240-258 | the rows a run leaves: old ones as they were, a success with its checksum for each file passed, and for the file it stopped at a failure when that could be recorded, else the success row if the raising write had stored it, else none |
| Migrations.GapsTold | db/migration_runner.py:72-88 | a file is listed exactly when it is unapplied and some later one of the listing is applied |
| Migrations.PreflightTold | db/migration_runner.py:217-232 | the error raised is about the first listed file with a bad row, a failure going before a drift |
| Migrations.GainingLaterFilesExtends | db/migration_runner.py:66-69 | a directory that only gains later-sorting names yields a listing that extends the old one |
| PipelineWriter.Writer.RunTransaction | db/pipeline_writer.py:497-628 | seven statements then a commit: a fault leaves exactly the rows before it pending, a commit makes the whole batch durable |
| PipelineWriter.Writer.RunAttempt | db/pipeline_writer.py:432-492 | the caller's connection is used on attempt 1 only; later attempts borrow one, roll back on error and give it back, and an error of the pool at lending, set-up or giving back stays outside the wrapping handler and replaces any other |
| PipelineWriter.Writer.RunPooled | db/psycopg2_connection.py:111-118 | a pooled attempt lends, sets up, runs and gives back, whichever of these raises; what is committed does not depend on giving back |
| PipelineWriter.Writer.ExecutePipeline | db/pipeline_writer.py:384-494 | invalid payloads touch nothing; otherwise the outcome and the database are those of `Retry` with three attempts |
| PipelineWriter.Writer.WithRetry | db/pipeline_writer.py:52-88 | the loop is `Retry`: transient errors are retried while attempts are left, any other error ends it |
| PipelineWriter.AttemptSound | db/pipeline_writer.py:432-492 | one attempt commits one whole run or nothing, gives back what it borrowed unless giving back raises, and leaves the caller's connection alone after attempt 1 |
| PipelineWriter.CommitTold | db/pipeline_writer.py:432-628 | an attempt commits its six rows, after those the caller held, exactly when it runs on the caller's or a lent connection, none of the seven statements raises and the commit is not refused |
| PipelineWriter.ErrorTold | db/pipeline_writer.py:432-492 | the error an attempt ends with: that of its statement, else its commit, unless the pool raises, giving back last of all |
| PipelineWriter.CallerTold | db/pipeline_writer.py:438-492 | the caller's connection is untouched without an attempt on it, empty after its commit or rollback, and keeps what it held and the first attempt's rows when the rollback raises |
| PipelineWriter.RetrySound | db/pipeline_writer.py:52-88 | at most the allowed attempts are made, all but the last failed transiently, none is left unused after a transient error, connections not returned are those whose return raised, and commits number one for a returned run plus one per commit that still ended in an error |
| PipelineWriter.RetryOutcome | db/pipeline_writer.py:66-88 | how the call ends is decided by the last attempt's error alone |
| PipelineWriter.AttemptsTold | db/pipeline_writer.py:52-88 | one to three attempts are made, fewer than three only when the last error was none or not transient |
| PipelineWriter.OutcomeTold | db/pipeline_writer.py:66-88 | a call returns exactly without an error, lets errors from outside the driver through, and turns transient ones into a database error |
| PipelineWriter.SevenStatementsLink | db/pipeline_writer.py:512-606 | the seven statements leave six rows whose keys point at each other and a run row naming its decision |
| PipelineWriter.CommitsAreWholeRuns | db/pipeline_writer.py:497-628 | for every schedule of faults, whatever is committed is whole linked runs, and a returned run is the last of them |
| PipelineWriter.ExactlyOnceIff | db/pipeline_writer.py:384-494 | a returned run is the only commit and an exception leaves none, exactly when no attempt up to the first non-transient one (or the third) commits and still ends in an error: its acknowledgement lost, or giving the connection back raising |
| PipelineWriter.AllGivenBackIff | db/psycopg2_connection.py:111-118 | every borrowed connection is given back exactly when none of those attempts raises while giving one back |
| PipelineWriter.DriverEscapesIff | db/psycopg2_connection.py:102-118 | a driver error escapes unwrapped exactly when the last attempt is on a pooled connection and the pool raises a non-transient driver error at lending, set-up or giving back |
| PipelineWriter.RaisingGiveBackHidesCommit | db/psycopg2_connection.py:114-118 | giving back to a pool closed meanwhile shows the caller a raw driver error although the run is committed |
| PipelineWriter.UnseenCommitIsRepeated | db/pipeline_writer.py:66-88 | a transient error in giving back, or a lost acknowledgement, is retried, and the call returns with two runs committed |
| Canonical.FailsIffNonFiniteReachable | db/pipeline_writer.py:976-992 | canonicalisation raises exactly when a NaN or infinite float or Decimal is reachable as a value |
| Canonical.SameFormIffEquivalent | db/pipeline_writer.py:976-992 | two string-keyed payloads take the same form exactly when they are equal up to key order at any depth, list against tuple, float against Decimal, and digits beyond the sixth |
| Canonical.ReorderingKeysKeepsForm | db/pipeline_writer.py:977-978 | inserting the same entries in another order leaves the form alone |
| Canonical.SameFormInEveryOrderIff | db/pipeline_writer.py:976-992 | for entries of whatever keys, every insertion order gives the same form exactly when canonicalisation fails or entries with equal key texts have equal canonical values |
| Canonical.NormalizeIdempotent | db/pipeline_writer.py:976-992 | canonicalising a canonical form changes nothing |
| Canonical.NumbersTold | db/pipeline_writer.py:983-991 | a finite float or Decimal becomes the float with six decimals nearest to it, a tie going to the even digit, and keeps its value when it has six already |
| Canonical.KeyOrderSound | db/pipeline_writer.py:978 | the built dict is strictly ascending by key text and binds each text to its last pair |
| Canonical.LastPairBinds | db/pipeline_writer.py:978 | a key text is bound to the last pair that has it |
| Canonical.CollidingKeysDependOnOrder | db/pipeline_writer.py:978 | with the keys 1 and "1" in one mapping, insertion order decides the form |
| TrendTable.TrendRepository.InsertTrendRecord | db/trend_repository.py:17-61 | insert unless the time is taken, then prune the station to its newest rows and no other |
| TrendTable.TrendRepository.GetRecentTrendRecords | db/trend_repository.py:64-119 | the newest rows, strictly older than `as_of` when given, oldest first |
| TrendTable.KeepsNewest | db/trend_repository.py:34-60 | after every run of inserts and clears, a station's rows are exactly the newest `max_history` of what the never-pruned table stores for it |
| TrendTable.UnboundedStoresFirst | db/trend_repository.py:37-42 | the never-pruned table, told by the operations: a time is stored exactly when inserted since the last clear of its station, with the value of its first such insert |
| TrendTable.AnswerAscending | db/trend_repository.py:82-119 | the records of a read are strictly oldest first |
| TrendTable.AnswerTold | db/trend_repository.py:82-119 | every record of a read is the station's, strictly older than `as_of` when given, and they are no more than the limit |
| TrendTable.LeftOutTold | db/trend_repository.py:82-119 | a row that was asked for is in the answer, or the answer is full and all of it is newer |
| TrendTable.ReadMatchesUnbounded | db/trend_repository.py:82-119 | with limit within the bound and no `as_of`, a read answers as the never-pruned table would |
| TrendTable.ReadAsOfIsSuffix | db/trend_repository.py:95-119 | with `as_of`, it answers a suffix of that, and all of it when the limit is filled or the station is below its bound |
| FeatureHistory.History.Append | app/realtime_native/feature_builder.py:203-245 | one row is inserted and the table pruned to the newest 2000; a failure leaves it as it was |
| FeatureHistory.History.BuildFeatures | app/realtime_native/feature_builder.py:374-456 | features come from the history visible before the call, and with `persist_history` off the table does not change |
| FeatureHistory.VisibleIsRecentPast | app/realtime_native/feature_builder.py:142-184 | of the rows up to the cutoff, exactly the newest min(past, 2000 - newer) are visible |
| FeatureHistory.ReplayIsStable | app/realtime_native/feature_builder.py:248-371 | appends stamped after the cutoff leave all features but the row counts of a pinned replay unchanged while at most 1996 rows are newer |
| FeatureHistory.ReplayLagsAreStable | app/realtime_native/feature_builder.py:248-272 | the lags and the rolling mean stay fixed up to 1998 newer rows |
| FeatureHistory.TrendInRange | app/realtime_native/feature_builder.py:275-371 | the trend hands on at most three scores, and scores, strength and confidence lie in [0, 1] |
| FeatureHistory.InOrderTold | app/realtime_native/feature_builder.py:217-241 | rows recorded in the order of their times are kept in that order, the newest 2000 of them |
| FeatureHistory.InsertedTold | app/realtime_native/feature_builder.py:217-226 | inserting adds the row and nothing else |
| FeatureHistory.LagsTold | app/realtime_native/feature_builder.py:248-272 | over any history: both rainfall lags, the mean of the last two rainfalls at most and the current one, the water lag and delta with the fallbacks for none and one row, both rainfall diagnostics, row count and readiness |
| FeatureHistory.RecordedThenNext | app/realtime_native/feature_builder.py:374-456 | after observations recorded in order, two at least, the next features have the later rainfall as first lag, the earlier as second, both in the rolling mean, and the water delta against the later level; a replay pinned no earlier sees the same |
| FeatureHistory.ScoreTold | app/realtime_native/feature_builder.py:305-308 | a score is 55 parts rainfall against 40 mm and 45 parts water against 0.85, each at most full, within 0.00005 |
| FeatureHistory.DirectionsTold | app/realtime_native/feature_builder.py:325-350 | risk, water and rainfall trends point up or down exactly when the change over the last four rows and the current one passes 0.08, 0.04 and 4 mm |
| FeatureHistory.AnomalyTold | app/realtime_native/feature_builder.py:309-358 | the recent scores are the last three; a spike is exactly a step of 0.20 or more either way, a slow accumulation exactly three rising scores without one |
| FeatureHistory.StrengthTold | app/realtime_native/feature_builder.py:325-367 | the strength is the absolute change over 0.40, at most 1, within 0.00005 |
| FeatureHistory.ConfidenceTold | app/realtime_native/feature_builder.py:332-336 | the confidence is the share of the more frequent direction among the steps, within 0.00005 |
| ConnectionPool.AtMostOneOpen | db/psycopg2_connection.py:88-127 | in every interleaving of any number of threads the lock excludes and at most one pool is open |
| ConnectionPool.OpenWhenUnlocked | db/psycopg2_connection.py:88-127 | while no thread holds the lock, the open pools are exactly the one the global names, if any |
| ConnectionPool.OnePoolWithoutClose | db/psycopg2_connection.py:88-98 | without closing, at most one pool is ever built and every finished call returned it |
| ConnectionPool.PoolSetIff | db/psycopg2_connection.py:88-127 | the global holds a pool exactly when some assignment has not been cleared since |
| ConnectionPool.InitReturnsNoneIff | db/psycopg2_connection.py:90-98 | in every interleaving a finishing call returns no pool exactly when, since it last saw or wrote the global, a close cleared it and nobody assigned it again |
| ConnectionPool.InitMayReturnNone | db/psycopg2_connection.py:90-98 | a schedule with a concurrent close in which a successful call returns no pool |
| RateLimiter.Limiter.RequireApiKey | app/api/security.py:33-50 | one request evicts, then is admitted and recorded or refused, as `Handle` defines |
| RateLimiter.WindowLimit | app/api/security.py:43-50 | in every run, any closed 60-second interval holds at most the limit of admissions per key |
| RateLimiter.RejectedIffWindowFull | app/api/security.py:47-48 | a request with a valid key is refused exactly when the limit of admissions lies in its last 60 seconds |
| RateLimiter.KeysAreIndependent | app/api/security.py:44-50 | dropping every other key's requests changes nothing for a key |
| RateLimiter.AnswersTold | app/api/security.py:33-41 | OPTIONS passes, then a missing configuration and an unknown key are refused, and none of these touches a bucket |
| RateLimiter.OneMoreCounted | app/api/security.py:44-48 | counting admissions: an admission counts exactly when it lies in the closed interval |
| ThresholdLadder.BuildThresholds | app/services/adaptive_threshold.py:147-275 | the danger level is the clamped, rounded sum of exactly the adjustments that apply, which are reported in order |
| ThresholdLadder.ReportedIffApplies | app/services/adaptive_threshold.py:163-257 | an adjustment is reported exactly when its condition holds |
| ThresholdLadder.DangerIsExact | app/services/adaptive_threshold.py:260-263 | from a base ladder on the grid, rounding never moves the danger level |
| ThresholdLadder.AdjustedIsLadder | app/services/adaptive_threshold.py:260-275 | any context turns a base ladder 0 <= pre <= warning <= danger <= 1 on the grid into another one, danger within its bounds |
| ThresholdLadder.DangerLoweredIff | app/services/adaptive_threshold.py:184-263 | danger ends below its base exactly when the warning step leaves room and the base is above 0.95 or the adjustments sum below 0 |
| ThresholdLadder.NetDeltaTold | app/services/adaptive_threshold.py:163-257 | the sum of the adjustments in full, with their sizes and conditions |
| ThresholdLadder.AdjustedTold | app/services/adaptive_threshold.py:260-275 | the adjusted ladder in full from a base on the grid, with its caps and steps |
| ThresholdLadder.OodNeverLowersDanger | app/services/adaptive_threshold.py:163-187 | out-of-distribution input never lowers danger below a base of at most 0.95 |
| ThresholdLadder.MissingDataDoesNotBlockLowering | app/services/adaptive_threshold.py:184-187 | missing data with a trend anomaly leaves danger below its base |
| ThresholdLadder.TripletOrderedIff | app/realtime_native/bundle.py:93-126 | a derived triplet is ordered exactly when its pre_alert does not exceed its danger |
| ThresholdLadder.DangerAloneOrderedIff | app/realtime_native/bundle.py:107-126 | from a danger level alone it is ordered exactly when that level rounds to 0.07 or more |
| ThresholdLadder.DerivedStepsTold | app/realtime_native/bundle.py:93-126 | the steps derived from a danger level alone, in numbers; 0.22 gives 0.07, 0.12 and 0.22 |
| ThresholdLadder.GivenStepsTold | app/realtime_native/bundle.py:107-126 | given steps are clamped to [0, 1], a warning above danger is lowered to it, and it never falls below the pre-alert |
| ThresholdLadder.TripletFixesIffLadder | app/realtime_native/bundle.py:107-126 | a triplet with pre_alert at most danger is left alone exactly when it is an ordered ladder on the grid within [0, 1] |
| ThresholdLadder.ConsumersSeeAdjusted | app/services/decision_engine.py:472-485 | normalising an adjusted ladder is the identity |
| ThresholdLadder.SavedLadderReadsBack | app/realtime_native/bundle.py:129-142 | a saved ladder is read back as written under either key, and a null danger level raises even beside the older key |
| Decision.Decide | app/domain/decision.py:400-736 | the layers run in order over one growing trace give the decision `Decided` composes |
| Decision.InvalidTold | app/domain/decision.py:422-458 | L0 fires exactly on implausible or critical input, completeness or plausibility below 0.30, and then nothing of the input is used |
| Decision.PhysicalDangerTold | app/domain/decision.py:460-540 | on valid input L1 and its siblings answer DANGER exactly when water is at 0.95, two of rain 60, water 0.85 and alert 0.80 meet, or a rapid rise has severity 0.50; with layer, driver, reason and confidence floor of each |
| Decision.FloorTold | app/domain/decision.py:542-576 | L1.7 answers exactly when an alert of 0.80 stands beside 20 mm of rain, or beside a negative out-of-distribution score with no water reading, and no danger pre-empts it: WARNING |
| Decision.ModelRiskTold | app/domain/decision.py:578-734 | left to the model, each final risk has an exact condition in numbers: its thresholds and escalation, the inconsistency at severity 0.75, the seven early-warning bounds, and both trend extensions |
| Decision.ModelAuthorityTold | app/domain/decision.py:578-734 | and each authority |
| Decision.ModelReasonTold | app/domain/decision.py:593-734 | the reason follows that authority |
| Decision.ModelConfidenceTold | app/domain/decision.py:218-229 | the confidence is clamped into [0.05, 1] and not otherwise changed |
| Decision.DriverTold | app/domain/decision.py:258-276 | each driver has an exact condition in numbers |
| Decision.StatusTold | app/domain/decision.py:232-255 | each status of valid input has an exact condition on failures, age and completeness |
| Decision.ResolveStatus | app/contracts/vocabulary.py:113-118 | the result is one of the statuses and none is more severe; OK for none |
| Decision.ResolveSystemStatus | app/domain/decision.py:232-255 | the status is decided by which severe failures exist and by the snapshot, whatever the order of the failures |
| Decision.TraceExplainsDecision | app/domain/decision.py:420-736 | a trace has one to three entries, each taking up the risk the last left and never lowering it, and ends in the decision's authority and risk |
| Decision.UnknownIffInvalidInput | app/domain/decision.py:427-458 | UNKNOWN, FAIL, L0 authority, INVALID_INPUT and shadow mode each hold exactly when L0 fires |
| Decision.SafeForAutomationIff | app/domain/decision.py:624-628 | automation is allowed exactly for L3 decisions below WARNING with status OK |
| Decision.AllowedIff | app/domain/decision.py:624-628 | told by the inputs: automation is allowed exactly when no gate fires, no failure escalates, the status is OK, the model stays below WARNING and no later layer rewrites it |
| Decision.HigherProbabilityLowersRiskIff | app/domain/decision.py:578-734 | with all else fixed, raising the probability from p to q lowers the risk exactly when no gate decides, SAFE at p is lifted by L3.3 or L3.7, and the model classes q as PRE_ALERT |
| Decision.AddedFailureLowersRiskIff | app/domain/decision.py:592-692 | an added failure lowers the risk exactly when it is the first escalating one and takes away a lift from SAFE |
| Decision.MoreRainLowersRiskIff | app/domain/decision.py:351-369 | more rain lowers the risk exactly when no gate decides before, an alert of 0.80 stands, the rain crosses 20 mm short of 60 mm, and the model ends at DANGER |
| Decision.HigherWaterLowersRiskIff | app/domain/decision.py:351-369 | with all else calling for the L1.7 floor, a higher water level lowers the risk exactly when it leaves the absent reading 0 for one below 0.85 over a model ending below WARNING, or rises from below 0 to 0 over a model ending at DANGER |
| Decision.SevereHydrologyIsNeverSafe | app/domain/decision.py:302-318 | with valid input, hydrology severity of 0.75 or more never ends SAFE |
| Decision.HigherWaterCanLowerRisk | app/domain/decision.py:351-369 | inputs of both kinds: a reading of 0.5 turns WARNING into SAFE, one of 0 turns DANGER into WARNING |
| Decision.MoreRainCanLowerRisk | app/domain/decision.py:351-369 | an input on which 20 mm of rain turn DANGER into WARNING |
| Decision.AddedFailureCanLowerRisk | app/domain/decision.py:301-348 | an input on which an escalating failure turns WARNING into PRE_ALERT |
| Decision.HigherProbabilityCanLowerRisk | app/domain/decision.py:301-348 | an input on which probability 0.30 ends PRE_ALERT where 0 ends WARNING |
| Adapter.BuildCanonicalInputs | app/services/decision_engine.py:323-494 | raw arguments become typed inputs through the stated fallbacks (also for completeness, freshness and scores that are no numbers), clamps, first out-of-distribution score and greatest station ratio |
| Adapter.WaterTold | app/services/decision_engine.py:334-348 | the water ratio is the greatest of the stations' and 0, the clamped severity without stations, and 0 without hydrology |
| Adapter.EvidenceTold | app/services/decision_engine.py:349-405 | rain, alert, completeness, age, plausibility and hydrology each come from their first given source, clamped |
| Adapter.HandedOnTold | app/services/decision_engine.py:425-453 | probability, confidence and trend are handed on, and failures keep kind, escalation and, in whatever case written, severity |
| Adapter.OodTold | app/services/decision_engine.py:406-424 | the out-of-distribution score is that of the first such failure unless 0 or missing, else the diagnostic one |
| Adapter.StationForcesDanger | app/services/decision_engine.py:215-316 | one station at 0.95 or above makes the engine answer DANGER on every call L0 lets through |
| Adapter.InputsInRange | app/services/decision_engine.py:352-406 | whatever the raw arguments, the evidence reaches the layers within its ranges |
| Adapter.InvalidIff | app/agents/evaluation_agent.py:256-258 | through evaluation and adapter, L0 fires exactly on a critical violation, plausibility below 0.30, or completeness below 0.30 other than 0 |
| Adapter.AdjustedLadderReachesLayers | app/services/decision_engine.py:472-485 | an adjusted ladder with a danger level other than 0 reaches the layers unchanged |
| Adapter.ApplyElevationAdjustment | app/services/decision_engine.py:746-798 | the four rules applied in order give the closed-form risk, delta and reason count |
| Adapter.ElevationOnlyRaises | app/services/decision_engine.py:746-798 | elevation never lowers a risk, raises it by at most one level, keeps UNKNOWN, and acts only at or below 2 m |
| Adapter.ElevationTold | app/services/decision_engine.py:746-798 | elevation raises exactly SAFE ground below the sea under any rain, and ground between 0 and 2 m short of DANGER under 20 mm in an hour or 60 mm in three, by one level |
| Adapter.RunDecisionEngine | app/services/decision_engine.py:215-316 | the result is the elevated legacy form of the decision, or the failsafe decision when adapting raises |
| Adapter.SourceTold | app/services/decision_engine.py:507 | the legacy source names the authority |
| Adapter.LegacyTold | app/services/decision_engine.py:497-605 | the legacy form keeps risk and status, confidence within 0.00005, and reports an override exactly when a physical or integrity layer stands in the trace |
| Adapter.FailsafeTold | app/services/decision_engine.py:923-978 | a failing engine answers WARNING, or DANGER from that seed, DEGRADED, with at most half trust |
| Adapter.InconsistencyReportedIff | app/services/decision_engine.py:528-605 | an inconsistency is reported exactly when L3.3 fired and the trend extension did not follow |
| Contract.MetaAcceptedIffCoherent | app/core/output_contract.py:62-165 | the validator accepts exactly the combinations the nine invariants allow |
| Contract.FifthAndEighthAreImplied | app/core/output_contract.py:130-155 | the fifth and eighth invariants never refuse first |
| Contract.AcceptedIffWellFormed | app/core/output_contract.py:194-236 | the schema gate accepts exactly outputs with all required keys, a confidence in [0, 1], listed values and coherent meta fields |
| Contract.GateBreaksIff | app/core/output_contract.py:209-236 | the gate itself raises something else than a contract violation exactly on a confidence no float holds, or an unhashable value where the first unlisted one is looked up |
| Contract.Evaluate | app/agents/evaluation_agent.py:231-288 | the evaluation hands on the engine's risk, confidence and status, the last over its own provisional one |
| Contract.MetaTold | app/agents/action_agent.py:511-604 | the meta block told by the evaluation: validity, reason, mode and the published flag, each with its exact condition |
| Contract.MetaRaisesIff | app/agents/action_agent.py:532-597 | off the failsafe path the meta block raises exactly when "L0 fired" differs from "critical violation or high/critical implausible_input failure"; otherwise all invariants hold after elevation |
| Contract.FailsafeMetaRaisesIff | app/services/decision_engine.py:923-978 | on the failsafe path it raises exactly when the data verdict is INVALID |
| Contract.PublishedSafeIff | app/agents/action_agent.py:564-576 | automation is published as safe exactly for valid, non-L0 input without high or critical failures and with status OK or DEGRADED |
| Contract.CanonicalSafeIsPublishedSafe | app/agents/action_agent.py:564-576 | whenever the authority allows automation, the meta block does not raise and publishes it as safe |
| Contract.PublishedNotAllowedIff | app/agents/action_agent.py:564-576 | published as safe while the authority refuses, exactly when the data and status permit publishing and a gate fires, a failure escalates, the status is DEGRADED, the model ends at WARNING or above, or a later layer rewrites it |
| Contract.DangerIsPublishedSafe | app/agents/action_agent.py:564-576 | a clean snapshot at water ratio 0.95 is published as safe although DANGER and not allowed by the authority |
| Pipeline.FloodDecisionPipeline.Run | app/pipeline/flood_pipeline.py:215-573 | every combination of stage failures, alert labels, trend fields, result contents, gate verdict and write outcome returns, raises or escapes as `RunOf` defines, and moves the mismatch counter as `HashMismatch` says |
| Pipeline.FloodDecisionPipeline.Persist | app/pipeline/flood_pipeline.py:591-726 | a failed write is recorded in the result; the status changes exactly when the write fails and it was OK or absent, and then to DEGRADED; every other field stays |
| Pipeline.ScanFailures | app/pipeline/flood_pipeline.py:470-473 | the scan finds the unreliable source, or raises, exactly when that record, or something that is no record, comes first among the entries that are not records of other failures |
| Pipeline.ReturnedIsWellFormed | app/pipeline/flood_pipeline.py:526-573 | whatever the stages do, every output a run returns satisfies the schema gate, also after persistence degraded it |
| Pipeline.ReturnedTold | app/pipeline/flood_pipeline.py:215-573 | a run that returns hands back the emergency output exactly when a stage raised, else the fallback when the gate refused, else the action's output with its decision untouched |
| Pipeline.PersistedTold | app/pipeline/flood_pipeline.py:559-573 | persistence settles whether the rows are stored and degrades a status OK when they are not |
| Pipeline.AssembledTold | app/pipeline/flood_pipeline.py:410-487 | before the gate only trace, driver and text can change: one advisory line, and a hydrology driver declared unverified exactly when its source is unreliable |
| Pipeline.UnreliableTold | app/pipeline/flood_pipeline.py:470-473 | in a list of records the unreliable source is found exactly when one of them, or routing's own, names it |
| Pipeline.AlertsTold | app/pipeline/flood_pipeline.py:278-281 | labels are looked at in the Jakarta alerts, or in all when there are none |
| Pipeline.NoOutputIff | app/pipeline/flood_pipeline.py:256-573 | a run returns nothing exactly when one of these guards holds: under a critical violation a scored alert has a label that is no text; a trend field is no number; the failure list is no list of records; the reliability note meets a value it cannot use; the gate meets one it cannot look up; strict mode refuses; or the accepted result cannot be hashed |
| Pipeline.NumericSeverityEscapes | app/pipeline/flood_pipeline.py:276-281 | under a critical violation, one Jakarta alert with a number for its severity lets a lenient run return nothing |
| Pipeline.MismatchIsTheRewrite | app/pipeline/flood_pipeline.py:559-573 | with an injective hash the counter rises exactly when persistence rewrites the status, and nothing else hashed changes |
| Pipeline.ActionOutputIsReturned | app/agents/action_agent.py:92-333 | from a confidence score in [0, 1], an evaluation whose meta block does not raise is accepted and returned, given text labels, numeric trend fields and a result that can be hashed |
| Pipeline.IncompleteSnapshotEndsAsPipelineFailure | app/pipeline/flood_pipeline.py:381-394 | a snapshot only too incomplete ends in the emergency output |
| Pipeline.SafeFiniteFloatSound | app/pipeline/flood_pipeline.py:101-128 | any value becomes one within the bounds, in-range numbers stay, and repeating changes nothing |
| LeadTime.Detect | app/evaluation/historical_demo.py:294-332 | in one pass it reports the hour of the first signal, and of the step that begins the first two consecutive warnings, among the positive-hour steps |
| LeadTime.FirstsAreUnique | app/evaluation/historical_demo.py:294-332 | those hours are determined by the profile |
| LeadTime.FirstSignalTold | app/evaluation/historical_demo.py:294-332 | on decreasing hours the first signal is that of the earliest step before the event at PRE_ALERT or above |
| LeadTime.FirstPairTold | app/evaluation/historical_demo.py:294-332 | and the first warning that of the earliest two consecutive steps at WARNING or above |
| LeadTime.WarningNeverLeadsSignal | app/evaluation/historical_demo.py:334-344 | with decreasing hours a reported warning lead time comes with a signal lead time at least as long, as rounded |

## Left out

- Real databases, files, HTTP, scrapers, language models, logging, metrics other than the hash-mismatch counter, backoff sleeps and stage timeouts beyond "the stage raised".
- IEEE rounding and overflow: numbers are reals, and NaN or infinity appear only where the code tests for them (`Canonical.Number`, `Pipeline.Raw`, `Tiff` float values).
- The models and numerical libraries, and the trust, confidence, plausibility, hydrology and routing modules: their outputs are arbitrary inputs.
- Narrative strings, summaries, error texts, BNPB context, risk state, shadow evaluation and the other fields of the output dict the contract gate does not read.
- The interpretation labels and the overconfidence direction of the calibration report.
- Payload validation of the writer (`ExecutePipeline` takes its verdict as an input), generated UUIDs (consecutive numbers), and the columns of the six rows other than ids and keys.
- What the perception stage has already converted (rainfall, water levels) is taken as convertible again under a critical violation, and objects whose `str` or formatting raises are not modelled.
- Connections that the pool hands out dirty: the pool resets a connection on return, as the driver does.
- The CHECK constraints of `trend_history`, and which of several concurrent writers wins.
- TIFF tiles, compression and the warnings on mismatched registry sizes; the registry's width and height are the ones used for reading, as in the code.
- Elevation context sampling and flow direction, and thread races inside the rate limiter (one request is one step).
- `realtime_feature_history` is kept in the order of its index (`observed_at`, `id`), so the two ORDER BY clauses do not sort again; the CSV variant of the history is not modelled.
- Liveness of the connection pool (only safety over all schedules is stated).
- Migration files with partial effects before they raise: an execution either raised or did not.
- Replays of the pipeline inside `simulate_event`, its noise injection and its aggregate lead-time statistics.
