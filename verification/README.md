# A verified model of the tracker's core

This project models the Rust core of a local metrics tracker and proves what the parts promise
each other. Five parts are covered.

- **History engine.** `Decimals` (step numbers as unbounded decimal text), `LogRows` (what a forward
  and a chunked backward scan of segmented bytes yield), `RowMeaning` (the same byte by byte),
  `LogReader` and `LogQuery` (sparse anchors, seeks and queries), `LogFiles`, `Tracker` and
  `LogWriter` (bounded queue, transactional append over rotating files, rollback, index upkeep),
  `HistoryRows`, `HistoryAnswers`, `Collecting` and `History` (the evicting cache over that log, and
  `collect`). `Records` computes a query on a plain list of rows, `QueryMeaning` says which steps
  and fields that is, and `History.Store.Collect` is proved to answer just that.
- **Trace lanes.** `Lanes`: the online packer with its four structures and its choice of lane.
- **Alert language.** `AlertNodes`, `AlertParser`, `AlertGrammar` (the parser accepts exactly the
  grammar), `AlertErrors` (where it reports errors), `AlertPrinter` and `AlertRoundTrip` (parsing
  what was printed), `AlertValues`, `AlertEval` (tree walker and compiled plan), `AlertAgreement`
  (when the two agree), `AlertLogic` (three-valued logic) and `AlertMeaning` (what an expression
  comes to).
- **Protocols.** `CommitQueue` (recursive delivery of notifications by an owning thread), `RuleState`
  (when a rule fires) and `OpenRow` (assembling rows from calls).
- **Viewer.** `ViewerIndex` (the incremental index) and `Chart` (bounded downsampling).

Objects whose methods update fields are classes with a `Valid()` invariant; their methods are
proved against functions on values, and what the system promises is proved about those functions.
`Floats`, `OrderedMap` and `Results` are shared vocabulary.

Conventions. Steps are integers outside `Decimals`, which shows that the decimal texts compare and
count as integers do. Floats are reals with explicit infinities and not-a-number, without rounding.
Files are byte sequences; a row parses the same with or without its line feed
(`LogReader.IgnoresLineFeed`), as JSON allows trailing blanks. A failing write may fail before the
file is opened or after any prefix of the bytes. Locks are atomic steps. An ordered map is the
ascending list of its entries. Parsing of JSON, the numeric library behind alert functions and the
run an expression looks at are parameters. `AlertPrinter` prints tokens: a name is one token, and the
operator words written bare are operators, as the tokenizer makes them; a name that contains all
three quote characters cannot be written and is not considered. The tokenizer's numbers carry no
sign, so a negative literal is a sign and a number.

Where behaviour differs from what one would expect, the code is kept and the condition is stated:
`AlertRoundTrip.RoundTripExactly`; `AlertAgreement.CompiledExactly` and `AlertAgreement.AgreesExactly`
(compiling is not always faithful: a window wider than a signed word is cut to the widest by the plan
and refused by the tree walker); `AlertLogic.HasIsNotMonotone`; `RuleState.UnknownsDoNotMatter`;
`ViewerIndex.FailedScanHeals` and `ViewerIndex.UncommittedHeals`; `Lanes.DecrementExact`; and
`CommitQueue.OwnTargetNeverReturns`.

Check it with `dafny verify dfyconfig.toml`.

## Model

| member | source | states |
|---|---|---|
| History.Store.Collect | rust/history/state/operations.rs:360-584 | whatever has been evicted, buffered or is being written: without dropped rows the answer holds, of all admitted rows and the open one, exactly the steps with start <= step < end, or the largest `count` of them, or without a range the `count` steps written last; in step order, each with every field its rows set, as the last of them sets it; and how often disk was read |
| History.Store.Gather | rust/history/state/operations.rs:448-584 | open row, cache and, where it does not suffice, disk put together are the answer over all rows, and the cache suffices exactly under the stated conditions |
| QueryMeaning.AnswerAnswers | rust/history/state.rs:356-358 | filtering, choosing, merging and trimming a list of rows comes to the steps from `start`, which counts, to `end`, which does not, or the last ones written, each with all its fields |
| QueryMeaning.RecentFresh | rust/history/state/operations.rs:550-563 | a step is among the `count` chosen exactly if fewer than `count` other steps were written after it was last written |
| QueryMeaning.PatchedEntire | rust/history/state/operations.rs:564-573 | a merged step has exactly the fields its rows set, each with the value of the last row that sets it |
| History.Store.Pick | rust/history/state/operations.rs:388-418 | the cached rows a query takes are the ones it needs, and `complete` only when the rows before the cache cannot matter |
| History.Store.ReadPast | rust/history/state/operations.rs:473-538 | the older records read from disk are exactly what the answer still needs from before the cache |
| History.Store.OpenOlder | rust/history/state/operations.rs:475-483 | the snapshot with hints, stopped at the offset of the first cached ordinal, holds exactly the rows before the cache |
| History.Store.EnqueueRecord | rust/history/state/operations.rs:220-257 | an accepted row is the next record of the history, under the next ordinal; a row not accepted leaves log, cache and ordinal alone |
| History.Store.Evict | rust/history/state/operations.rs:284-293 | eviction takes oldest rows at or below the durable watermark, keeps all invariants, and stops only when within budget or at a row that is not durable |
| History.Store.DurableBelow | rust/history/state/operations.rs:284-293 | without losses the watermark is the last durable line and every line at or before it is the admitted text with that ordinal |
| History.Store.constructor | rust/history/state.rs:111-121 | a resumed state accounts for every row found on opening, knows the last step, and merges exactly if those rows do not ascend |
| History.Store.CommitFlush | rust/history/writer/persistence.rs:168-181 | committing a flush changes no record of the history, and keeps cache, ordinals and log in agreement |
| History.Store.AbortFlush | rust/history/writer/persistence.rs:113-170 | an undone flush changes no record of the history either |
| History.Store.Parts | rust/history/state/operations.rs:220-283 | all records are those before the cache followed by the cached ones; cached ordinals run without gaps up to the next one; rows lie before the cache exactly when `disk_prefix` says so; a false merge flag means cached steps strictly ascend |
| History.Store.LaterFilesReadable | rust/history/state/operations.rs:451-538 | files read after the lock is released still hold what was durable when the snapshot was taken, in every later state whose durable prefix extends that one |
| History.Store.Meanwhile | rust/history/state/operations.rs:451-538 | whatever other threads do between snapshot and reading, admitting, evicting and flushing step by step with commits and rollbacks, the files keep answering for the snapshot |
| History.Store.CurrentFilesReadable | rust/history/writer/persistence.rs:222-268 | at any moment of a write the durable rows read back from the files as they are |
| HistoryRows.Admitted | rust/history/state/operations.rs:267-283 | admission keeps the cache the tail of the log under contiguous ordinals, and a false merge flag equivalent to strictly ascending steps so far |
| HistoryRows.WatermarkIsLine | rust/history/writer/persistence.rs:170-176 | with ordinals handed out in order, the largest flushed ordinal is the number of the last durable line |
| HistoryAnswers.PartsAnswer | rust/history/state/operations.rs:451-583 | whatever part came from the cache and whatever was read from disk, the stages after it produce the answer over all rows |
| HistoryAnswers.TailMerged | rust/history/state/operations.rs:504-533 | merging only the rows of the steps chosen from open row, cache and disk in turn equals choosing and merging over all rows |
| HistoryAnswers.TailParts | rust/history/state/operations.rs:492-503 | on ascending rows reading only the missing number of older rows suffices |
| HistoryAnswers.RangedParts | rust/history/state/operations.rs:484-491 | in-range rows of disk and cache, merged separately and again together, equal one merge |
| Collecting.PickRecent | rust/history/state/operations.rs:391-403 | the backward walk over the cache stops only once the wanted number of steps is in hand |
| Collecting.PickRanged | rust/history/state/operations.rs:404-418 | the filter keeps the cached records in range; it is complete exactly when nothing lies on disk or an ordered cache starts at or before the range |
| Collecting.ReadMerged | rust/history/state/operations.rs:504-533 | steps chosen from open row and cache are completed from disk backwards, and exactly their rows are merged |
| Collecting.ReadOlder | rust/history/state/operations.rs:484-538 | each kind of query reads exactly its share of the older rows |
| Collecting.Combine | rust/history/state/operations.rs:550-580 | the last loops keep the newest steps, merge per step and trim a ranged answer, as the specification composes them |
| Collecting.StopRows | rust/history/state/operations.rs:478-483 | a snapshot cut at the offset of line n contains the first n rows and nothing else |
| Records.MergeAllMeans | rust/history/state/operations.rs:564-573 | merging by step yields ascending steps, each holding the later fields over the earlier ones of all its rows, and no other step |
| Records.MergeMerged | rust/history/state/operations.rs:564-573 | merging part of the rows beforehand changes nothing |
| Records.KeepRecentAscending | rust/history/state/operations.rs:552-563 | on ascending rows the most recently written steps are the last rows |
| Records.RecentMeans | rust/history/state/operations.rs:552-563 | the chosen steps are bounded by the count and are all steps when there are few enough |
| RowMeaning.RowsExactly | rust/history/reader/segments.rs:151-195 | byte by byte: a scan yields, in the order of their offsets, exactly the lines from a line feed or the start up to the next line feed, within one segment, from `start` on and below the limit, that are not all white space; a torn last line only if asked for and where the segment is seen to its end |
| LogRows.VisitUntil | rust/history/reader/segments.rs:151-195 | the forward scan offers the visitor exactly the non-blank rows from `start` below the limit, across segments, until it declines |
| LogRows.Reverse | rust/history/reader/segments.rs:204-281 | the chunked backward reader with its fragments offers exactly the backward rows, for every chunk size, limit and tail |
| LogRows.ReverseMirrorsVisit | rust/history/reader/segments.rs:204-281 | those backward rows are the forward rows in opposite order with the same offsets, their final line feeds aside |
| LogRows.ReverseSegment | rust/history/reader/segments.rs:212-280 | one segment read chunk by chunk, joining fragments over chunk borders, yields its lines backwards |
| LogRows.RestartAtRow | rust/history/reader/segments.rs:151-195 | a scan started at the offset of the n-th row yields the rows from the n-th on |
| LogRows.SnapshotAtRow | rust/history/reader/segments.rs:81-85 | a snapshot limited at the offset of the n-th row yields the rows before it |
| LogReader.Metadata | rust/history/reader/segments.rs:282-374 | a scan without hints keeps only anchors that name real rows and reports disorder exactly when steps do not strictly ascend |
| LogReader.OffsetStep | rust/history/reader/segments.rs:504-518 | on ascending logs the seek from the nearest anchor finds the offset that a scan from byte zero finds |
| LogReader.OffsetLine | rust/history/reader/segments.rs:519-536 | the offset of a line, from the nearest anchor, is that row's offset in the full scan, or the limit |
| LogReader.BeforeAnchor | rust/history/reader/segments.rs:504-518 | on an ascending log all rows before an anchor have smaller steps, so skipping them loses nothing |
| LogQuery.RunQuery | rust/history/reader/segments.rs:425-503 | whichever of the three access paths a query takes, its answer holds exactly the rows of the list of all rows that lie in range, merged or not, and of these the last `limit` |
| LogQuery.QueryAnswers | rust/history/reader/segments.rs:425-503 | in elementary terms: merged, the steps in range or the largest `limit` of them, each with all its fields; not merged, the rows in range in file order, or the last `limit` of them, and nothing when the limit is zero |
| LogQuery.CollectFold | rust/history/reader/segments.rs:434-443 | the backward tail reader collects the last rows |
| LogQuery.StepsFold | rust/history/reader/segments.rs:445-452 | the backward key reader finds the most recently written steps |
| LogQuery.MergedBound | rust/history/reader/segments.rs:492-499 | merging the rows of `count` chosen steps needs no trimming |
| LogQuery.ScanFrom | rust/history/reader/segments.rs:457-466 | no row before the offset found for `start` is in range |
| LogWriter.Writer.Flush | rust/history/writer/persistence.rs:67-190 | with rows arriving meanwhile and a write that fails anywhere: either the old rows plus the taken ones in order, or the old rows with the queue equal to the taken rows followed by newer ones; file sizes, cursor and counters match the files and no segment exceeds its limit; a file is begun only when the next row does not fit the one before, and none is without a limit |
| LogWriter.Writer.WriteRecords | rust/history/writer/persistence.rs:222-268 | rotation terminates; at every moment only the active file has grown and new ones follow it; success means exactly the given rows were appended; every new file was begun because its first row did not fit the one before |
| LogWriter.RunWhenFull | rust/history/writer/persistence.rs:227-244 | one more run keeps that: the first row of every new file would have overfilled the file before it, and files are numbered in turn |
| LogWriter.Writer.Fill | rust/history/writer/persistence.rs:227-244 | a run of rows fits the active file or is a single oversized row in an empty one, and it ends only at the last row or where the next would not fit |
| LogWriter.Writer.WriteRun | rust/history/writer/persistence.rs:250-263 | batched appends leave a prefix of the run's bytes in the active file, all of it on success |
| LogWriter.Writer.Rollback | rust/history/writer/persistence.rs:313-348 | truncating part by part leaves the first bytes and repositions the cursor at the end of the last file |
| LogWriter.Writer.Recover | rust/history/writer/persistence.rs:113-147 | after any partial write the rollback restores the durable rows, the files up to empty ones, and the size limits |
| LogWriter.Writer.Requeue | rust/history/writer/persistence.rs:148-167 | rows of a failed flush wait again ahead of newer ones, and all counters still match |
| LogWriter.Writer.Commit | rust/history/writer/persistence.rs:168-181 | the watermark, index and size advance over exactly the rows written |
| LogWriter.Writer.BeginFlush | rust/history/writer/persistence.rs:76-94 | the queue goes in flight whole, with its bytes |
| LogWriter.Writer.Offer | rust/history/writer.rs:512-632 | admission, refusal while closing, blocking and dropping oldest rows happen exactly under the stated conditions; offered rows always equal durable, in-flight, queued, dropped and refused ones, byte counters equal the line lengths, and both limits hold |
| LogWriter.Writer.RoomExactly | rust/history/writer.rs:147-152 | there is room for a row exactly if with it neither the number nor the bytes of rows held exceed their limits |
| LogWriter.Writer.MakeRoom | rust/history/writer.rs:573-583 | the oldest rows are dropped one by one, none once the new row fits |
| LogWriter.Writer.Arrive | rust/history/writer.rs:512-632 | rows offered during a flush queue up behind it in order |
| LogWriter.Writer.constructor | rust/history/writer.rs:273-409 | opening cuts the torn last line of the active file, and accounts for every row left |
| LogWriter.TrackRows | rust/history/writer/persistence.rs:170-176 | offsets are advanced line by line, so each tracked row is recorded at its real place |
| LogFiles.AppendedRows | rust/history/writer/persistence.rs:305-312 | appending whole lines appends exactly their rows, at the old end of the log |
| LogFiles.StableRows | rust/history/writer/persistence.rs:222-268 | rows below the old size read the same whatever a write in progress has done |
| LogFiles.TruncateRestores | rust/history/writer/persistence.rs:313-348 | cutting any grown set of files back to the old size restores the old files, up to empty ones |
| LogFiles.RolledBackRows | rust/history/writer/persistence.rs:313-348 | after the rollback exactly the old rows read back |
| Tracker.TrackedDescribes | rust/history/writer.rs:173-197 | every anchor kept names a real row with its line and offset, also after thinning; sortedness, duplicates, last and largest step describe the log |
| Tracker.HalvedSpacing | rust/history/writer.rs:185-189 | thinning keeps every second anchor and the last one, doubling the spacing |
| Tracker.SeekIsShort | rust/history/writer.rs:173-197 | on a log without corrupt rows every line has an anchor fewer than `every` lines before it |
| Decimals.AddInt | rust/history/json.rs:489-525 | for canonical decimal texts of any length and sign, the canonical text of the integer sum |
| Decimals.NextStep | rust/history/json.rs:29-31 | the successor is canonical and exactly one greater |
| Decimals.CompareStepIsNumeric | rust/history/json.rs:33-44 | comparing lengths and digits by sign is numeric order |
| Decimals.SortKeyIsNumeric | rust/viewer/index.rs:208-236 | the text key orders as the integers do, for all signs and lengths, and sorts below "2" |
| Decimals.ParseStepMeans | rust/history/json.rs:8-28 | accepted are exactly the truth values and integers without leading zeros; the step has the same value in canonical spelling |
| Decimals.ParseStepIdentifies | rust/history/json.rs:8-28 | two accepted texts become the same step exactly when they denote the same integer |
| Lanes.LanePool.Place | rust/trace/lanes.rs:67-117 | the chosen lane follows the rule of free, parent and new lanes over the lanes still open; `stacks`, `ends`, `free` and `available` stay consistent; in start order spans nest or follow, sit on the depth above, every lane below the chosen one holds an open span, and lanes never exceed the peak of open spans |
| Lanes.LanePool.Expire | rust/trace/lanes.rs:80-93 | exactly the spans ended by `start` leave their stacks, stale heap entries are skipped, and emptied lanes become free |
| Lanes.LanePool.Retire | rust/trace/lanes.rs:85-92 | one lane loses its ended top spans and is listed or freed |
| Lanes.LanePool.ParentLane | rust/trace/lanes.rs:94-100 | the index yields the enclosing top of the depth above with the latest end and lowest lane, or none if there is none |
| Lanes.LanePool.Seat | rust/trace/lanes.rs:102-116 | pushing a span on a free, enclosing or new lane keeps all four structures consistent |
| Lanes.LanePool.RemoveTop | rust/trace/lanes.rs:52-59 | the index forgets the lane's top and keeps all others |
| Lanes.LanePool.AddTop | rust/trace/lanes.rs:60-66 | the index lists the lane's top and keeps all others |
| Lanes.DisjointOrNested | rust/trace/lanes.rs:67-117 | two spans of one lane are disjoint, or the later lies within the earlier |
| Lanes.SitsOneDeeper | rust/trace/lanes.rs:94-113 | a span of known depth sits only on one of depth minus one, one of unknown depth only on another such |
| Lanes.NewLaneNeeded | rust/trace/lanes.rs:102-112 | a lane is added only when every lane holds a span still open |
| Lanes.Decrement | rust/trace/lanes.rs:21-40 | the in-place borrow computes the decremented text |
| Lanes.DecrementExact | rust/trace/lanes.rs:21-40 | the decremented text denotes one less exactly for depths that are not negative |
| AlertParser.Parser.ParseText | rust/alerts_parser.rs:219-228 | the parser returns the grammar's node or its error and position, for every token list |
| AlertParser.Parser.OrLevel | rust/alerts_parser.rs:229-241 | the loop builds the disjunction of the grammar and leaves the same tokens |
| AlertParser.Parser.AndLevel | rust/alerts_parser.rs:242-254 | the loop builds the conjunction of the grammar and leaves the same tokens |
| AlertParser.Parser.NotLevel | rust/alerts_parser.rs:255-263 | negations nest |
| AlertParser.Parser.Compare | rust/alerts_parser.rs:264-281 | a chain of comparisons becomes the conjunction of its links, each sharing an operand with the next |
| AlertParser.Parser.Arith | rust/alerts_parser.rs:282-290 | sums associate to the left |
| AlertParser.Parser.Term | rust/alerts_parser.rs:291-299 | products associate to the left |
| AlertParser.Parser.Unary | rust/alerts_parser.rs:300-312 | a plus sign vanishes, a minus sign negates |
| AlertParser.Parser.Postfix | rust/alerts_parser.rs:313-344 | only a metric may carry a window |
| AlertParser.Parser.Window | rust/alerts_parser.rs:318-341 | a window is a duration or a positive whole number; anything else is the error at that token |
| AlertParser.Parser.Primary | rust/alerts_parser.rs:345-382 | parentheses, numbers, truth words, calls and metrics, or the error at that token |
| AlertGrammar.ParsesExactly | rust/alerts_parser.rs:219-382 | an expression is parsed from exactly the token lists that the grammar derives for it: precedence, every spelling of the connectives, chains of comparisons over neighbours, plus signs that vanish, windows of positive whole numbers cut to a machine word or of durations, grouped metrics, calls; all other token lists are errors |
| AlertGrammar.OneReading | rust/alerts_parser.rs:219-382 | no token list has two readings in that grammar |
| AlertErrors.ErrorMeans | rust/alerts_parser.rs:193-382 | a syntax error stands at the first token that no text could have there: the tokens before it begin a text of the grammar, and no text begins with them and it |
| AlertRoundTrip.RoundTrip | src/expr_tracker/alerts/expr/nodes.py:101-262 | parsing the tokens of any printed expression gives it back, flattened, with signs read as negations |
| AlertRoundTrip.RoundTripExactly | src/expr_tracker/alerts/expr/nodes.py:331-341 | it does so exactly for expressions with no metric named and, or, not, true or false |
| AlertRoundTrip.ReservedIsLost | src/expr_tracker/alerts/expr/nodes.py:112-119 | a metric with such a name never survives |
| AlertRoundTrip.BoundlessIsMetric | src/expr_tracker/alerts/expr/nodes.py:101-108 | a literal that is not finite, printed, reads back as a metric called inf or nan |
| AlertRoundTrip.ItemRead | src/expr_tracker/alerts/expr/nodes.py:237-242 | an operand of a Boolean node, in parentheses or not, reads back as the operands it contributes |
| AlertRoundTrip.WrappedRead | src/expr_tracker/alerts/expr/nodes.py:331-341 | an operand wrapped where needed reads back whole |
| AlertLogic.NormEvaluates | rust/alerts/evaluation.rs:178-265 | the flattened expression evaluates to the same number or the same error in every run |
| AlertLogic.ReprintedMeansTheSame | src/expr_tracker/alerts/expr/nodes.py:331-341 | whatever is printed and parsed again evaluates as before |
| AlertLogic.ConnectedIsKleene | rust/alerts/evaluation.rs:209-230 | the flag loop computes the strong Kleene connective of any number of operands |
| AlertLogic.ConnectedAnyOrder | rust/alerts/evaluation.rs:209-230 | in any order of the operands |
| AlertLogic.Monotone | rust/alerts/evaluation.rs:178-265 | without calls, learning a metric never changes a result that was definite |
| AlertLogic.HasIsNotMonotone | rust/alerts/evaluation.rs:297-298 | with `has` it can |
| AlertValues.ModuloIsFloored | rust/alerts/evaluation.rs:247-257 | the corrected remainder is the floored one, between zero and the divisor |
| AlertAgreement.CompiledAgrees | rust/alerts_plan.rs:208-428 | in every run in which evaluation reads no window too wide for a signed word, a validated expression that compiles has the same value or error compiled as interpreted, and its plan never reaches for a missing argument |
| AlertAgreement.AgreesExactly | rust/alerts_plan.rs:208-428 | for any validated expression that compiles and asks for no window of exactly the largest signed word: compiled and interpreted agree in all runs that know its metrics if and only if no such run comes to read a wider window |
| AlertAgreement.CompiledExactly | rust/alerts_plan.rs:208-428 | in terms of the expression alone: if no parameter beside a window is one that never is known, it compiles and agrees in every run if and only if all windows are unsigned words and those not merely named, as by `has`, are signed ones |
| AlertAgreement.CallFreeExactly | rust/alerts_plan.rs:208-307 | without calls it compiles and agrees in every run if and only if all windows are signed words, whatever else it contains |
| AlertAgreement.CompilesExactly | rust/alerts_plan.rs:209-253 | compilation succeeds exactly when every window count is an unsigned machine word |
| AlertAgreement.WideReadDiffers | rust/alerts_plan.rs:260-273 | wherever a window too wide is read, there is a run in which compiled and interpreted differ |
| AlertAgreement.WideWindowDiffers | rust/alerts_plan.rs:260-273 | a bare window wider than a signed word is an error interpreted but not compiled |
| AlertAgreement.WideCallDiffers | rust/alerts_plan.rs:260-273 | a call on such a window is unknown interpreted and can be a number compiled, for every window function |
| AlertAgreement.NegativeWindowDiffers | rust/alerts_plan.rs:219-224 | a negative window is interpreted but does not compile |
| AlertAgreement.UnreadWindowAgrees | rust/alerts_plan.rs:409-417 | beside a parameter that never is known a window too wide goes unread, and the two agree |
| AlertAgreement.SaturatedWindowAgrees | rust/alerts_plan.rs:268-273 | reading a window of just the size wider ones are cut to can hide the difference, and the two agree |
| AlertMeaning.BinaryMeans | rust/alerts/evaluation.rs:231-265 | what a comparison or operator of two numbers comes to: comparisons follow the sign of the difference, sum and difference undo each other, so do product and quotient, dividing by zero is unknown, a remainder is floored; an operand that is not finite makes it unknown, the left error comes first |
| AlertMeaning.PlanBinaryMeans | rust/alerts_plan.rs:331-362 | the same of compiled operators |
| AlertMeaning.NegativeMeans | rust/alerts/evaluation.rs:206-208 | a number and its negation add up to nothing |
| AlertMeaning.PlanNegativeMeans | rust/alerts_plan.rs:306-309 | the same compiled |
| AlertMeaning.NotMeans | rust/alerts/evaluation.rs:203-205 | negation of what holds, fails, or neither |
| AlertMeaning.PlanNotMeans | rust/alerts_plan.rs:302-305 | the same compiled |
| AlertMeaning.TruthMeans | rust/alerts.rs:175-184 | true and non-zero finite numbers hold, false and zero fail, all else is neither |
| AlertMeaning.BoolMeans | rust/alerts/evaluation.rs:209-230 | a disjunction holds if one operand does and fails if all do, a conjunction the other way round, otherwise it is unknown; the first error of an operand is the result |
| AlertMeaning.MetricMeans | rust/alerts/evaluation.rs:194-199 | a metric is its newest value if that is finite, unknown if not or if there is none |
| AlertMeaning.RangeMeans | rust/alerts/evaluation.rs:200-202 | a bare window is the value of its last point, of whatever kind |
| AlertMeaning.CallShields | rust/alerts/evaluation.rs:140-176 | a call fails only with errors of the expression itself |
| AlertMeaning.AboutMetricMeans | rust/alerts/evaluation.rs:293-311 | `has` asks whether the run knows the metric; `age`, `isnan` and `isinf` tell of its newest point and are unknown without one |
| AlertMeaning.AboutRunMeans | rust/alerts/evaluation.rs:275-281 | `step` is the run's step, `elapsed` the time since its start |
| AlertMeaning.NoDataMeans | rust/alerts/evaluation.rs:282-291 | `no_data` holds once the last commit, or else the start, is at least that long ago |
| AlertMeaning.ScalarMeans | rust/alerts/evaluation.rs:313-335 | a scalar function is applied to the number its argument comes to |
| AlertMeaning.ScalarPairMeans | rust/alerts/evaluation.rs:313-335 | with two arguments, in their order |
| AlertMeaning.WindowMeans | rust/alerts/evaluation.rs:313-335 | a window function is applied to the points of the window named, or of its own usual one |
| AlertMeaning.ParameterMeans | rust/alerts/evaluation.rs:313-335 | a parameter beside the window is passed on as a number; if it is unknown, so is the call |
| AlertEval.Interpret | rust/alerts/evaluation.rs:159-177 | the tree walker computes its specification; inside a call other errors become Unknown |
| AlertEval.InterpretBool | rust/alerts/evaluation.rs:209-230 | the flags over the operands in order give the connective, or the first error |
| AlertEval.InterpretArgs | rust/alerts/evaluation.rs:313-324 | the scalar arguments in order, or that one is unknown, or the first error |
| AlertEval.InterpretCall | rust/alerts/evaluation.rs:266-338 | each kind of function looks at its arguments as specified |
| AlertEval.Evaluate | rust/alerts_plan.rs:274-307 | the compiled plan computes its specification |
| AlertEval.EvaluateBool | rust/alerts_plan.rs:310-330 | the plan's flag loop gives the connective, or the first error |
| AlertEval.EvaluateArgs | rust/alerts_plan.rs:409-417 | the plan's scalar arguments, or that one is unknown, or the first error |
| AlertEval.EvaluateCall | rust/alerts_plan.rs:363-427 | each kind of function of a plan looks at its arguments as specified |
| CommitQueue.Queue.Enqueue | rust/history/notifications.rs:36-55 | rows queue up in order; the ticket is that of the last one |
| CommitQueue.Queue.TakeNext | rust/history/notifications.rs:98-137 | one pass of the loop returns, takes the oldest row for an owner, or waits, exactly as the state says |
| CommitQueue.Queue.Finish | rust/history/notifications.rs:138-146 | the ticket is done, and the last callback gives up ownership |
| CommitQueue.Preserved | rust/history/notifications.rs:57-146 | every step of every thread keeps order, ownership and depth |
| CommitQueue.EveryRun | rust/history/notifications.rs:57-146 | in every interleaving of threads, recursive drains and failing callbacks: callbacks begin in enqueue order and all unfinished ones are inside the one owner |
| CommitQueue.DepthCounts | rust/history/notifications.rs:138-146 | `depth` is the number of unfinished callbacks and the owner is empty exactly when it is zero |
| CommitQueue.EveryReturn | rust/history/notifications.rs:57-79 | at any moment of any run from an empty queue: an error-free drain with a target returns only when that row's callback is done, one from outside without a target only when all rows are |
| CommitQueue.RecursiveDrain | rust/history/notifications.rs:57-79 | at any moment of any run: a drain without a target entered inside a callback returns exactly when all rows waiting on entry have their callbacks done, or, if none waited, only once none waits |
| CommitQueue.OutsideDrain | rust/history/notifications.rs:57-79 | a drain entered outside callbacks returns exactly when its target's callback is done, or without a target when no row waits and no callback is unfinished |
| CommitQueue.NobodyStuck | rust/history/notifications.rs:57-137 | no deadlock: as long as no thread drains for a callback of its own that it is inside of, whoever waits, waits for another thread, and that one is inside a callback or goes on |
| CommitQueue.WaitsForAnother | rust/history/notifications.rs:105-125 | a thread waits only for another thread inside a callback, or for a callback of its own that it is inside of |
| CommitQueue.OwnTargetNeverReturns | rust/history/notifications.rs:105-125 | in the latter case it does not return while it is inside that callback |
| CommitQueue.CleanKept | rust/history/notifications.rs:66-74 | the tail captured by a recursive drain never is such a callback |
| RuleState.AlertRuleState.Transition | rust/alerts/rules.rs:521-564 | the state after a result and the action, as the rule's settings decide |
| RuleState.AlertRuleState.Evaluate | rust/alerts/rules.rs:112-163 | one evaluation: errors count towards disabling, delivered breaches count as fires |
| RuleState.BreachExactly | rust/alerts/rules.rs:537-564 | in every run, a rule notifies of a breach exactly if it is not disabled by three errors in a row, the result is True, at least `for_steps` True results came since the last False one, in edge mode it has not fired since then, in level mode its last fire is at least a non-zero cooldown ago, and it has fired fewer than `max_fires` times; it fires exactly if that is delivered |
| RuleState.RecoveryExactly | rust/alerts/rules.rs:528-539 | in every run, a rule notifies of a recovery exactly if it wants to, is not disabled, the result is False and it has fired since the False result before |
| RuleState.FailureExactly | rust/alerts/rules.rs:570-574 | a rule is skipped exactly after the three errors in a row that disable it, and fails exactly at the other errors |
| RuleState.FireNeedsBreaches | rust/alerts/rules.rs:540-544 | in every run a fire has `for_steps` True results since the last False one |
| RuleState.EdgeFiresApart | rust/alerts/rules.rs:545-548 | two edge-mode fires have a False result between them |
| RuleState.CooldownApart | rust/alerts/rules.rs:549-557 | a level-mode fire is at least a non-zero cooldown after the one before |
| RuleState.AllCooldownsApart | rust/alerts/rules.rs:549-557 | with a positive cooldown any two fires are that far apart |
| RuleState.FiresBounded | rust/alerts/rules.rs:558-560 | fires never exceed `max_fires` |
| RuleState.RecoveriesApart | rust/alerts/rules.rs:530-539 | a recovery follows a fire, and two recoveries have a fire between them |
| RuleState.UnknownsDoNotMatter | rust/alerts/rules.rs:527-529 | deleting Unknown results changes no other action, exactly unless one of them separates the first three errors without a definite result between them; never in runs without errors |
| RuleState.SameWithoutUnknowns | rust/alerts/rules.rs:527-529 | the same event by event: what is done at every other event is what is done there with the Unknown results deleted, under just that condition |
| RuleState.UnknownSparesRule | rust/alerts/rules.rs:570-573 | a run after which the rule is still enabled, though without its Unknown result it is disabled |
| OpenRow.State.Ingest | rust/history/state.rs:218-350 | a call refuses, turns, merges and closes the open row as specified, with the rows it closes and its warnings |
| OpenRow.State.IngestValues | rust/history/state.rs:150-215 | the shortcut for rows opened and committed at once equals the general path |
| OpenRow.State.Merge | rust/history/state.rs:266-337 | one metric of a call |
| OpenRow.State.Close | rust/history/state.rs:55-71 | the closed row, and the step that follows it |
| OpenRow.LastWins | rust/history/state.rs:266-337 | after any calls that do not accumulate, each metric of the open row is the last value given to it, and has no weight |
| OpenRow.CallMeans | rust/history/state.rs:218-350 | what one call does: a step too early is dropped with a warning; else another step's row closes as it is and this one's opens or goes on, closing too if the call commits |
| OpenRow.MergedHolds | rust/history/state.rs:266-337 | a row holds the metrics it held and those given that are not reserved, no others |
| OpenRow.WarningsMean | rust/history/state.rs:266-286 | reserved keys are warned of, and metrics given again to a row that does not accumulate, exactly |
| OpenRow.ClosedStepsClimb | rust/history/state.rs:249-265 | under the monotonic policy closed steps never decrease over any calls, and the next step is always the last closed one plus one |
| OpenRow.MeanIsWeighted | rust/history/state.rs:287-303 | for non-negative weights the stored mean times its total weight is the sum of weight times value |
| OpenRow.MaxIsLargest | rust/history/state.rs:307-320 | the stored maximum is one of the values and none exceeds it |
| OpenRow.WholeSumIsExact | rust/history/state.rs:321-324 | sums of integers are exact |
| OpenRow.SumIsTotal | rust/history/state.rs:321-327 | other finite values add up |
| OpenRow.OpenMean | rust/history/state.rs:266-337 | after any accumulating calls the stored mean times the stored weight is the sum of weight times value over all of them |
| OpenRow.OpenMax | rust/history/state.rs:266-337 | after any accumulating calls the stored maximum is one of their values and none exceeds it |
| OpenRow.OpenSum | rust/history/state.rs:266-337 | after any accumulating calls the stored sum is the sum of their values, exact for integers |
| OpenRow.OpenRowFolds | rust/history/state.rs:266-337 | after any accumulating calls each metric of the open row is the fold of everything accumulated into it |
| ViewerIndex.VisitRowsFrom | rust/history/reader/segments.rs:544-580 | the visitor sees exactly the complete rows from `start`, up to the first it fails on, and the boundary is the end of the last complete line |
| ViewerIndex.ScanInParts | rust/history/reader/segments.rs:544-580 | scanning a log and later, once it has grown, the rest from the boundary equals one scan of the grown log, torn tails included |
| ViewerIndex.CachedLog.Refresh | rust/viewer/index.rs:66-175 | after every refresh that succeeds the index and prefix are those of one scan of the whole log from empty; one that fails takes back the records and nothing else, wherever it fails |
| ViewerIndex.FailedScanHeals | rust/viewer/index.rs:88-175 | after a refresh that failed while scanning, later ones equal a rebuild of whatever the log becomes exactly if it had counted no row, no corrupt row, no new metric and no new warning; if the log only grows on, exactly if it had counted no row and no corrupt row |
| ViewerIndex.UncommittedHeals | rust/viewer/index.rs:167-175 | after one whose records were not committed, exactly if it had counted no row |
| ViewerIndex.IndexTells | rust/viewer/index.rs:96-163 | the index holds for each step its rows merged in order, the number of its latest row, and the metrics of all rows |
| ViewerIndex.SpansTell | rust/viewer/index.rs:96-163 | an index of spans holds the rows themselves in order, with their metrics |
| ViewerIndex.CountedExactly | rust/viewer/index.rs:96-120 | a row counts exactly if it is an object whose step spells an integer; spans without one count under zero |
| ViewerIndex.StepKeyExactly | rust/viewer/index.rs:208-236 | a value has a step key exactly if it is a truth value or spells an integer, and the key is its canonical spelling |
| ViewerIndex.StepKeyMeans | rust/viewer/index.rs:208-236 | however an integer step is spelled, its key is the canonical spelling of its value |
| Chart.Bucket.Push | rust/viewer.rs:430-451 | per metric the bucket remembers the extremes so far and the first gap |
| Chart.Bucket.Finish | rust/viewer.rs:453-465 | at most three points per metric and two more, in row order, representing every row pushed |
| Chart.Downsample | rust/viewer.rs:468-557 | at most `max_points` points in strictly increasing row order, all of them rows, every row represented within its bucket; other settings are refused |
| Chart.EndsKept | rust/viewer.rs:430-465 | the first and the last plottable row are shown |
| Chart.ExtremesKept | rust/viewer.rs:434-445 | the global minimum and maximum of every metric are shown |
| Chart.GapsKept | rust/viewer.rs:446-448 | every bucket with a missing value shows a gap |
| Chart.MostBuckets | rust/viewer.rs:510-510 | there are as many buckets as room allows, and one at least |
| Chart.BucketShare | rust/viewer.rs:520-520 | the rows of a bucket are those in its equal share of the range |
| Chart.RoomEnough | rust/viewer.rs:510-510 | the number of buckets leaves room for every bucket's points |

## Left out

- History.Store.Collect: promises nothing once rows have been dropped, because the code then reads all of disk and lets cached rows repeat there; files are read without errors, and reading files one by one while they change is taken as reading one state of them.
- LogWriter.Writer.Flush: does not model a rollback that fails itself, which only sets the duplicates flag, nor the callbacks that replace writing and rolling back.
- LogWriter.Writer.WriteRecords: lines come whole and with one line feed at the end; the path for other payloads, `write_data`, is not part of this model.
- LogWriter.Writer.Offer: blocks instead of waiting, so that the caller's retries model the wait; deadlines and worker scheduling are not part of this model.
- LogWriter.Writer.constructor: the log on opening may be torn only at its end, and the sidecar file that spares the scan is not part of this model.
- Lanes.LanePool.Place: the finite range of times is a bound given to the pool.
- AlertAgreement.CompiledAgrees: arithmetic does not overflow, being on reals; the native shortcut for metric look-ups is taken to agree with the Python one.
- AlertAgreement.CompiledExactly: leaves out windows of exactly the largest signed word, and parameters of `ema` and `stalled` that may never be known; `AlertAgreement.SaturatedWindowAgrees` and `AlertAgreement.UnreadWindowAgrees` show that the condition does not decide those.
- AlertAgreement.AgreesExactly: leaves out windows of exactly the largest signed word too, and speaks of runs in which every name resolves.
- AlertRoundTrip.RoundTrip: prints and parses tokens; the spelling of quotes, numbers and durations is not part of this model.
- AlertRoundTrip.RoundTripExactly: as above.
- Decimals.ParseStepMeans: the text is taken without surrounding blanks, which the program trims first.
- Decimals.ParseStepIdentifies: as above.
- LogReader.Metadata: the sidecar file that spares the scan is not part of this model.
- AlertLogic.Monotone: scalar functions are excluded, since they may turn a number that is not finite into a definite result.
- RuleState.AlertRuleState.Evaluate: delivery is an input; a rule is not enabled again within a run.
- ViewerIndex.CachedLog.Refresh: what file fingerprints say about growth is an input, as are the points at which reading, storing and committing fail.
- Chart.Downsample: rows come decoded and in axis order; the counts of values that are not finite are not part of this model.
- OpenRow.State.IngestValues: values the shortcut cannot encode are handled by its caller, and records keep no key order.
- `query_encoded`, `view_tail`, `get` and the history scanners on lists would repeat what the queries show.
- `write_data`'s boundaries, metadata files, repair of torn middle segments and the warnings' wording.
- JSON and Unicode lexing, the tokenizer of alert text, splitting of rule texts, statistics functions and `compensated_sum`.
- Alert delivery, channels, rate limits, watchdogs, the HTTP viewer's other queries, artifacts, summaries, spans' plug-ins and the Python layer above the core.
- Runtime assignment of the writer's limits, which can break any bound by design.
