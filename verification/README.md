# LogScope engines, modelled and proved in Dafny

LogScope is a local log explorer. Its application crates hold several deterministic engines: bounded
streaming loops over log rows, with caps, counters and in-place maps. This project models those engines and
proves what they keep, over every input and every run.

* **Shared library.** `Ordering`, `Sequences`, `Sorting` (the stable sort behind every `sort_by`),
  `CappedGroups` (a keyed map filled first come, first served under a cap), `Texts` and `Streaming` (bounded
  drill-down).
* **Pattern analysis.** `Patterns` (the accumulator), `PatternOrder` (exactly when input order cannot matter),
  `PatternRun` (the streaming pass, the summaries, drill-down) and `PatternMeaning` (what is stored and
  published, read off the rows).
* **Import.** `Import` (files, batches, items, segment rotation, ledger, all refining "first occurrence wins"
  on the flat stream of records), `ImportMeaning` (stream and ledger, read off the items), `RecordKeys` (the
  in-place key decoder) and `ImportedDatasets` (which ids survive, and what readers may rely on).
* **Correlation.** `Correlation` (capped grouping), `CorrelationGroups` (canonical order, chains, final sorts),
  `CorrelationLaws` (conservation, chains after the sort, drill-down), `GroupMeaning` (stored rows and edges,
  read off the rows of a key), `Signals` (pair rules into a capped sink) and `Duplicates` (neighbours against
  all pairs, for any rule).
* **Comparison.** `Comparison` (two windows, exact union, honest top-K), `ComparisonMeaning` (shown counts and
  verdicts, read off the rows) and `Classify` (the integer classifier at machine width against its unbounded
  meaning).
* **Text index.** `TextIndex` (import tail, rebuild, readiness, with a stop possible after every durable
  write), `IndexRaces` (rebuilds that overlap, as a step machine) and `Excerpt` (raw record bytes over a reader
  that may return less than asked).
* **Case evidence.** `IdLookup` (the bounded id lookup), `Evidence` (verdicts, batched against alone) and
  `EvidenceRun` (the cancellable run and its probe cache).
* **Disclosure.** `Redaction` (the projection over JSON trees), `RedactionLaws` (shape, precedence, a second
  pass), `RedactionLeaves` (the fate of every string, found by its path) and `RedactionMeaning` (names, texts
  and counters, read off lists and rules).
* **Export.** `CsvExport` (the CSV printer against a parser for section 2 of RFC 4180) and `Export` (limits,
  truncation, publication).
* **Analysis runs.** `AnalysisRuns` (the two-phase lifecycle with failures and crashes) and `RunScope` (what
  is frozen, re-checked and actually read).
* **Quoting.** `Quoting` (query strings against the lexer; Markdown prose and fences against sections 2.4, 4.5
  and 6.2 of CommonMark).
* **Bundles.** `EntryPaths`, `BundleArchive`, `BundleRoundTrip` (the archive passes its own gates and unpacks
  to what went in), `CaseRestore` (rows, states and links under optimistic revisions) and `BundleImport` (a whole
  case, exported, gated, parsed and inserted).

Loops that update state are methods or classes with a ghost history; each is proved equal to a declarative
function of that history, and the laws are lemmas about those functions. The modules named `Meaning` state
results on the raw rows, items and rules, without those functions. Cancellation, read failures, short
reads and crashes are functions supplied from outside, so every contract holds for every choice of them.
Text extraction, key derivation, normalisation, pair rules, hashing, JSON printing and case folding are
function parameters.

Where the code and its comments part, the model follows the code:

* Input order is said never to change a pattern run (`patterns.rs:135-137`). Under the caps, or with ties on
  (time, record id), it can: `PatternOrder.OneSlotReadsOrder` and `PatternOrder.TieReadsOrder` give the
  streams, `PatternOrder.OrderFreeIffSettled` the exact condition.
* Comparing neighbours in a duplicate bucket is said to give the same answer as comparing every pair
  (`correlation.rs:473-477`). It does not where the rule is not transitive (`Duplicates.ThirdSightingIsMissed`);
  `Duplicates.NeighboursSufficeIff` says when it does.
* The reported rate change can leave the signed 128-bit range; `Classify.RateIsExactIff` says when, and
  `Classify.RateCanWrap` gives counts. The model wraps, as an optimised build does.
* More suspects can lower a verdict, for every pair of window lengths that are not equal
  (`Classify.NeverLowerIffEqual`).
* A window of 2^63 nanoseconds or more is accepted and then refused by the classifier
  (`Comparison.ClassifiableIff`).
* Drill-down into a comparison key disagrees with the stored count exactly where the key cap refused the key
  (`Comparison.DrillDownAgreesIff`, `Comparison.RefusedKeyReadsZero`).
* Dropping the text index is called always safe (`explorer.rs:266-267`). Rebuilds may overlap, and then a
  dataset can be marked ready without segments another rebuild dropped (`IndexRaces.OverlapTrace`);
  `IndexRaces.RebuildsAreSafeIff` says when overlap is safe. An import that stops between publishing its
  dataset and writing the index row leaves a dataset that no later rebuild picks up while the file is current
  (`TextIndex.OrphanStays`).
* A raw excerpt that runs past the end of its file is returned shorter and still called available
  (`Excerpt.WholeRangeIff`, `Excerpt.ShortFileIsAvailable`).
* The budget of the id lookup is shared by a batch, so copies of one id can hide another
  (`IdLookup.ExactForEveryOrder`, `IdLookup.CopiesHideAnId`). Import writes no id twice, so this bites only on
  a dataset that import did not write (`ImportedDatasets.ImportedBatchedIsAlone`).
* An omission rule is described as removing a field wherever it appears. It hides string values of plain
  objects (`RedactionLeaves.DroppedKeyHidesIff`); a string beside a `{name, value}` pair and a number stay
  (`RedactionLeaves.DeniedStringSurvives`, `RedactionLeaves.DeniedNumberSurvives`).
* Escaped Markdown prose still spells named character references and line-start markup
  (`Quoting.EscapeShowsTextIff`, `Quoting.LineStartsStay`).
* The currency check of a run looks only at the datasets it recorded, while an empty selection resolves again
  to everything published (`RunScope.ReadsFrozenScope`).
* A hypothesis may link evidence of another investigation; such a case exports and then fails to import
  (`CaseRestore.ImportsIffSelfContained`, `BundleImport.ExportImportsIff`).

## Model

| member | source | states |
|---|---|---|
| `Patterns.Accumulator.Add` | crates/logscope-app/src/patterns.rs:163-241 | Adding one record leaves every field equal to the aggregate of the whole history: admitted patterns hold that of their own entries, refused patterns are wholly absent, and refusals are counted; `PatternMeaning.StoredMeans` says on the rows what the aggregate is |
| `Patterns.TallyUp` | crates/logscope-app/src/patterns.rs:207-240 | A capped tally map bumps held keys, admits new ones while there is room and otherwise only sets the overflow flag; each held key has the exact count and the earliest point of its group |
| `Patterns.HeldAgg` | crates/logscope-app/src/patterns.rs:172-205 | An admitted pattern's aggregate counts every entry of that pattern, however the caps cut the rest |
| `PatternOrder.EarliestIsLeast` | crates/logscope-app/src/patterns.rs:148-154 | The earliest slot holds a point no other point replaces, and the first arrival among ties; `PatternMeaning.StoredMeans` says that its time is the smallest and ties go to the smaller id |
| `PatternOrder.LatestIsGreatest` | crates/logscope-app/src/patterns.rs:155-160 | The latest slot holds a point no other replaces, and the first arrival among ties; `PatternMeaning.StoredMeans` says that its time is the largest and ties go to the larger id |
| `PatternOrder.OrderCannotMatter` | crates/logscope-app/src/patterns.rs:135-241 | For settled rows any permutation of the stream gives the same pattern map and the same overflow |
| `PatternOrder.OrderFreeIffSettled` | crates/logscope-app/src/patterns.rs:135-146 | Input order can never change the outcome if and only if every cap holds everything, each pattern has one descriptor and no two different records tie for a winning slot; the comment in the code claims it without the condition |
| `PatternOrder.OneSlotReadsOrder` | crates/logscope-app/src/patterns.rs:172-205 | With one slot, any two entries of different patterns publish one pattern in one order and the other in the other |
| `PatternOrder.TieReadsOrder` | crates/logscope-app/src/patterns.rs:148-160 | Two records of one pattern with the same time and id in different datasets: the earliest slot names the dataset that came first, in either order |
| `PatternRun.RowsAreConserved` | crates/logscope-app/src/patterns.rs:472-535 | Every row is identified, lacks the field, or has a malformed stack, and is counted exactly once |
| `PatternRun.Scan` | crates/logscope-app/src/patterns.rs:445-540 | The streaming pass over a bounded scope with a cancel possible at every checkpoint: the accumulator is exact for the rows streamed, it is cancelled if and only if one of its checkpoints asks for it, the record cap is reported truthfully, the rows without field and with malformed stack are counted one by one, and scanned rows equal the sum of the four counters |
| `PatternRun.FindPeak` | crates/logscope-app/src/patterns.rs:248-255 | The peak bucket is a fullest one, and the earliest of the fullest |
| `PatternRun.IntoSummaries` | crates/logscope-app/src/patterns.rs:243-315 | Every stored pattern is reported once, with its own counts, peak, services and examples, by descending count and then id |
| `PatternMeaning.StoredMeans` | crates/logscope-app/src/patterns.rs:148-241 | Read off the rows alone: a stored pattern is one some row has; its earliest time is at most, its latest at least, the time of each of its dated rows, ties decided by record id; each bucket covers its width and counts its rows, each resource its dated rows, and both start at their earliest row; a cap is reported only when it is reached |
| `PatternMeaning.SummaryMeans` | crates/logscope-app/src/patterns.rs:243-315 | Each published summary in terms of the rows: counts of its rows and undated rows, first and last seen the smallest and largest time, a peak no window of the same width beats, resources by name with their counts, and the published examples in order |
| `PatternMeaning.ReportMeans` | crates/logscope-app/src/patterns.rs:286-315 | The published list runs from larger to smaller patterns, ties by id, names none twice, and lacks an identified row's pattern only when the cap is reached |
| `Ordering.AtMostMeans` | crates/logscope-app/src/patterns.rs:315-315 | The order of texts behind every tie: a prefix comes first, otherwise the first difference decides |
| `PatternRun.ReportUnique` | crates/logscope-app/src/patterns.rs:243-315 | A pattern map admits exactly one report |
| `PatternRun.SummariesForgetOrder` | crates/logscope-app/src/patterns.rs:135-315 | Two runs over the same settled rows in any two orders publish the same summaries |
| `PatternRun.PatternRecords` | crates/logscope-app/src/patterns.rs:755-839 | Drill-down returns the first records, up to the clamped limit, that re-derive to the pattern |
| `PatternRun.DrillDownAgrees` | crates/logscope-app/src/patterns.rs:799-836 | Over an unchanged scope the records that re-derive to a stored pattern number exactly its count |
| `Import.RunImport` | crates/logscope-app/src/import.rs:203-456 | A published import holds, in order, exactly the first occurrence of every record key across all files, whatever the batch size; ledger lines are exact and sum to the totals, totals account for every item read, segments are non-empty and rotated ones hold at least the maximum and less than the maximum plus a batch; it publishes if and only if none of its checkpoints asks for a stop and none of its reads fails, and otherwise says which |
| `Import.ImportFile` | crates/logscope-app/src/import.rs:246-400 | One file read in batches leaves the flat state of the items read, for every batch size, or stops at a checkpoint that asked for it or at a read that failed, the number of checkpoints being exact |
| `Import.ReadsStand` | crates/logscope-app/src/import.rs:281-289 | The reads of a file start at the multiples of the batch size in front of its end, and at its end |
| `Import.ReadsCover` | crates/logscope-app/src/import.rs:281-289 | A file takes as many reads as batches cover it, and one that finds it ended |
| `Import.TakeItem` | crates/logscope-app/src/import.rs:291-345 | One item is accepted exactly when it normalises and its key is new, and otherwise counted as rejected, unparsed or duplicate |
| `Import.WriteBatch` | crates/logscope-app/src/import.rs:346-385 | Appending a batch keeps all rows in order and rotates exactly when the threshold is reached |
| `Import.KeptAreFirsts` | crates/logscope-app/src/import.rs:295-312 | A record is kept if and only if some occurrence of it is the first with its key |
| `Import.KeptKeys` | crates/logscope-app/src/import.rs:233-312 | The kept keys are the distinct keys in order of first occurrence |
| `Import.KeptAgain` | crates/logscope-app/src/import.rs:233-312 | Listing the same files again adds nothing |
| `Import.ItemsAreConserved` | crates/logscope-app/src/import.rs:281-345 | Every item of a file is exactly one of good, rejected or unparsed |
| `ImportMeaning.StreamMeans` | crates/logscope-app/src/import.rs:233-312 | The record stream of a job is, file by file, the normalised items in order |
| `ImportMeaning.LedgerMeans` | crates/logscope-app/src/import.rs:281-400 | A ledger line, count by count, on the items: unreadable items are unparsed, items that fail to normalise are rejected, records whose key nothing before them had are accepted, the other records are duplicates |
| `ImportMeaning.TotalsMean` | crates/logscope-app/src/import.rs:281-400 | Each total of a job is the sum of that count over the ledger |
| `ImportMeaning.LastMeans` | crates/logscope-app/src/import.rs:279-333 | The last record number of a file is the number of the last item that has one, and zero without any |
| `RecordKeys.RecordIdKey` | crates/logscope-app/src/import.rs:65-92 | The in-place byte loop computes the decoded hex for a canonical id and the truncated digest otherwise |
| `RecordKeys.CanonicalKey` | crates/logscope-app/src/import.rs:63-82 | The key of a canonical id is its sixteen bytes, so nothing is lost |
| `RecordKeys.KeyMeans` | crates/logscope-app/src/import.rs:63-92 | For every id: 32 hexadecimal digits in either case, behind the first dash or as the whole id, are decoded pair by pair, high digit first; any other id gets the first half of its digest |
| `RecordKeys.KeyDecidesId` | crates/logscope-app/src/import.rs:63-92 | Within one prefix two canonical ids share a key if and only if they are equal |
| `RecordKeys.PrefixIsForgotten` | crates/logscope-app/src/import.rs:66-69 | Two ids that differ only in their prefix share a key |
| `ImportedDatasets.IdsAreUnique` | crates/logscope-app/src/import.rs:295-312 | Whatever the files hold, an import writes no record id twice into its dataset |
| `ImportedDatasets.EveryIdKeptIff` | crates/logscope-app/src/import.rs:63-92 | The ids of a dataset are the distinct ids of its files, in order of first occurrence, if and only if different ids of the files have different keys |
| `ImportedDatasets.OnePrefixLosesNothing` | crates/logscope-app/src/import.rs:63-82 | Within one prefix of canonical ids import keeps the first occurrence of every id, whatever the digest |
| `ImportedDatasets.OtherPrefixIsLost` | crates/logscope-app/src/import.rs:66-69 | Two ids that differ in their prefix only: the second record is dropped as a duplicate |
| `Correlation.Absorb` | crates/logscope-app/src/correlation.rs:873-897 | One keyed row extends its group exactly: the first dated records up to the cap are kept, the others and the undated are counted, resources stop at their bound and flag it |
| `Correlation.GroupScan.Take` | crates/logscope-app/src/correlation.rs:835-899 | One row keeps scanned = keyed + rejected, every admitted group exact for all rows of its key, and refused records counted one by one |
| `Correlation.File` | crates/logscope-app/src/correlation.rs:851-872 | A keyed row goes to its group, opens one while there is room, or is refused; a refused key stays refused |
| `Correlation.Scan` | crates/logscope-app/src/correlation.rs:798-904 | The whole pass over a bounded stream equals the group map of its keyed rows and the multiset of its rejections; the pass is cancelled if and only if one of its checkpoints asks for it |
| `Correlation.AccSize` | crates/logscope-app/src/correlation.rs:913-914 | Dated, undated and truncated records of a group add up to every record that carried its key |
| `CorrelationGroups.SortedInLockstep` | crates/logscope-app/src/correlation.rs:919-924 | The dated list and the member list, sorted separately, stay in lockstep: with detail on, the i-th member has the time and id of the i-th dated record |
| `CorrelationGroups.LinkGroup` | crates/logscope-app/src/correlation.rs:940-971 | Under both caps the edges kept are a prefix of the chain, of exactly the length the caps leave, and kept plus dropped is the chain |
| `CorrelationGroups.ChainIsPath` | crates/logscope-app/src/correlation.rs:940-971 | Every edge leaves where the one before arrived, never backwards in time |
| `CorrelationGroups.DeltasTelescope` | crates/logscope-app/src/correlation.rs:949-962 | The deltas of a kept prefix sum to last kept time minus first |
| `CorrelationGroups.BuildGroups` | crates/logscope-app/src/correlation.rs:906-1014 | The loop over all groups in key order and the final sorts store the rows and capped chains of the large groups, count the small ones and count every dropped edge; `GroupMeaning.StoredRowMeans` says on the rows what a stored row holds |
| `GroupMeaning.StoredRowMeans` | crates/logscope-app/src/correlation.rs:906-1001 | Every stored row, on the rows of its key: first and last time bound every kept dated record and are those of two of them, both absent exactly when none is kept; event count, undated and truncated are counted one by one; only keys with enough rows are stored, each once |
| `GroupMeaning.StoredPathMeans` | crates/logscope-app/src/correlation.rs:940-1014 | The edges of a stored group join consecutive kept records in canonical order, each with the difference of their times, as many as the row says |
| `GroupMeaning.EdgesInOrder` | crates/logscope-app/src/correlation.rs:1003-1014 | Stored edges run by group id and, within a group, by time and record id |
| `GroupMeaning.ResourcesMean` | crates/logscope-app/src/correlation.rs:884-897 | The resources of a group are resources of its rows, at most 32, and one is missing only when the flag is set |
| `CorrelationLaws.RecordsAreConserved` | crates/logscope-app/src/correlation.rs:835-1001 | Scanned = rejected + refused by the group cap + totals of stored rows + members of keys too small to store; edges kept + dropped = consecutive pairs of the stored groups; stored edges respect the total cap |
| `CorrelationLaws.StoredInOrder` | crates/logscope-app/src/correlation.rs:913-1008 | Every admitted key with enough members is stored with its full size, and stored rows run from the largest group to the smallest, ties by key |
| `CorrelationLaws.ChainSurvivesSort` | crates/logscope-app/src/correlation.rs:940-1014 | After the global sort the edges under a group id are still the prefix of its chain its row counts, cut short only by a cap that was reached; a connected path with non-negative telescoping deltas, ties included |
| `CorrelationLaws.CorrelationRecords` | crates/logscope-app/src/correlation.rs:1762-1803 | Drill-down returns the first matching records up to the limit, dated ones in canonical order and undated ones last |
| `CorrelationLaws.DrillDownAgrees` | crates/logscope-app/src/correlation.rs:1780-1802 | Over an unchanged scope the records behind a stored group number exactly event + undated + truncated |
| `CorrelationLaws.DrillDownOrder` | crates/logscope-app/src/correlation.rs:1796-1802 | For a group no cap cut, the dated part of drill-down is the very sequence the chain was built on |
| `Signals.Sink.Push` | crates/logscope-app/src/correlation.rs:487-494 | The sink keeps the first signals produced up to its cap, counts the others, and its per-kind counts are those of what it kept |
| `Signals.KindsSumToEmitted` | crates/logscope-app/src/correlation.rs:487-494 | Emitted plus dropped equals produced, per-kind counts sum to emitted, and nothing is dropped before the cap is full |
| `Signals.SignalsForGroup` | crates/logscope-app/src/correlation.rs:478-685 | One group produces retry and gap signals over consecutive members, skew signals over each source in source order, and duplicate signals over each digest bucket, with ingest duplicates excluded and counted |
| `Signals.SignalsMean` | crates/logscope-app/src/correlation.rs:478-685 | A signal is produced exactly when an enabled rule says it: the retry or the gap rule of a consecutive pair, the skew rule of a pair examined for skew, or the duplicate rule of a pair examined as a duplicate |
| `Signals.SequenceMeans` | crates/logscope-app/src/correlation.rs:500-560 | Both sequence rules are consulted on every consecutive pair of members, and the pass produces nothing else |
| `Signals.SkewPairs` | crates/logscope-app/src/correlation.rs:563-577 | A pair examined for skew is two numbered members of the group from one source, the smaller number first, ties by record id |
| `Signals.DuplicatePairs` | crates/logscope-app/src/correlation.rs:616-638 | A pair examined as a duplicate is two members of the group with one digest, neither flagged at ingest |
| `Signals.SourcesInOrder` | crates/logscope-app/src/correlation.rs:563-576 | Sources are read by dataset and then id, each once, and none with a numbered member is left out |
| `Signals.ExcludedMeans` | crates/logscope-app/src/correlation.rs:616-684 | Exclusions are the members flagged at ingest and the examined pairs the rule calls ingestion duplicates |
| `Signals.Bucket` | crates/logscope-app/src/correlation.rs:564-572 | Filling the per-key buckets files every kept member once, in order |
| `Signals.ExaminedPairsConnect` | crates/logscope-app/src/correlation.rs:616-636 | Two members not flagged at ingest are connected through the examined pairs if and only if their messages have the same digest; this is about pairs examined, not about what the rule reports of them |
| `Duplicates.NeighboursSufficeIff` | crates/logscope-app/src/correlation.rs:471-477 | For any rule and bucket: the pairs reported among neighbours tie together the same members as the pairs reported among all, if and only if no reported pair spans neighbours that are not reported; the comment claims the same answer without the condition |
| `Duplicates.ThirdSightingIsMissed` | crates/logscope-case/src/signals.rs:356-425 | Message ids 1, 2, 1 under one digest: no neighbours are reported, while comparing every pair ties the first to the third |
| `Duplicates.ClassesMean` | crates/logscope-case/src/signals.rs:356-425 | Each class exactly: one numbered line read twice, or two unnumbered lines of one source, is ingestion; otherwise the same message is operational unless both carry different message ids or different operations; the order of the two does not matter |
| `Signals.ComparisonsExamined` | crates/logscope-app/src/correlation.rs:561-636 | Each pass examines one pair fewer per bucket than it has members |
| `Signals.SkewReadsSourceOrder` | crates/logscope-app/src/correlation.rs:561-584 | Both members of a pair examined for skew come from one source, the first standing before the second in the order the source wrote |
| `Comparison.AcceptsIffDisjoint` | crates/logscope-app/src/comparison.rs:132-145 | Windows are accepted if and only if both are non-empty and no instant lies in both |
| `Comparison.ClassifiableIff` | crates/logscope-app/src/comparison.rs:132-145 | Accepted windows can be classified if and only if both are shorter than 2^63 nanoseconds; a longer one wraps to a negative duration and is refused |
| `Comparison.SideCounts.Count` | crates/logscope-app/src/comparison.rs:362-387 | Counting one key keeps accepted = key counts + occurrences over the key limit, every held key exact, every refused key absent |
| `Comparison.StreamSide` | crates/logscope-app/src/comparison.rs:325-390 | One pass over a window counts exactly the keys of its rows, accounts for every row, and is cancelled if and only if one of its checkpoints asks for it |
| `Comparison.SideIsConserved` | crates/logscope-app/src/comparison.rs:335-387 | A side's stored counts add up to the rows whose key was not refused |
| `Comparison.Assemble` | crates/logscope-app/src/comparison.rs:506-550 | Union, classification, sort and split give an honest report: every key of either side once, with its exact pair of counts; `ComparisonMeaning.VerdictMeans` says what verdict each shown key carries |
| `ComparisonMeaning.WindowIs` | crates/logscope-app/src/comparison.rs:325-360 | The rows of a side are the first dated rows inside its half-open window, up to the record cap |
| `ComparisonMeaning.CountMeans` | crates/logscope-app/src/comparison.rs:325-390 | On the rows: a key counted on a side counts the rows of the window that derive to it |
| `ComparisonMeaning.ShownMeans` | crates/logscope-app/src/comparison.rs:506-546 | Every shown row has the counts of its key on both sides and the verdict of exactly that baseline and that suspect count |
| `ComparisonMeaning.ShownInOrder` | crates/logscope-app/src/comparison.rs:540-546 | Shown rows run from the heaviest key down, ties by key |
| `ComparisonMeaning.VerdictMeans` | crates/logscope-app/src/comparison.rs:506-546 | End to end, where nothing wraps: a shown key is New only with no baseline, Disappeared only with no suspects, Increased only with the larger suspect rate and Decreased only with the smaller one, and the reported change is suspect minus baseline |
| `Comparison.ReportIsHonest` | crates/logscope-app/src/comparison.rs:544-550 | Shown plus remainder counts equal the totals of both sides, and the distinct keys are counted exactly |
| `Comparison.TopKIsTop` | crates/logscope-app/src/comparison.rs:542-546 | No key of the remainder outweighs, or is tied with and named before, a shown row |
| `Comparison.ReportUnique` | crates/logscope-app/src/comparison.rs:506-550 | The two count maps and the cut decide the whole report |
| `Comparison.CountsForgetOrder` | crates/logscope-app/src/comparison.rs:335-387 | A side that fits its key cap does not depend on the order of its rows |
| `Comparison.ComparisonRecords` | crates/logscope-app/src/comparison.rs:747-822 | Drill-down returns the first records of the window, up to the limit, that re-derive to the key |
| `Comparison.DrillDownAgreesIff` | crates/logscope-app/src/comparison.rs:802-820 | Drill-down finds exactly the stored side count if and only if the side lacks the key or fewer than the cap of other keys come before its first occurrence |
| `Comparison.RefusedKeyReadsZero` | crates/logscope-app/src/comparison.rs:362-387 | Two rows with different keys under a cap of one: the second key counts zero on its side and drill-down finds its record |
| `Classify.NothingWraps` | crates/logscope-case/src/comparison.rs:125-186 | At machine width the classifier computes the unbounded rules whenever each count-duration product times the larger scale is below 2^127 and the count difference fits 64 bits |
| `Classify.VerdictsMean` | crates/logscope-case/src/comparison.rs:153-186 | Each verdict of the rules, exactly: New, Disappeared, Increased, Decreased and Unchanged as conditions on counts, rates and thresholds, and the count change |
| `Classify.RateMeans` | crates/logscope-case/src/comparison.rs:144-152 | The reported rate is absent exactly without a baseline, and otherwise the relative change in basis points cut toward zero |
| `Classify.WrapsMean` | crates/logscope-case/src/comparison.rs:138-152 | Each cast keeps the value modulo the width, in the range of its type |
| `Classify.VerdictIsExactIff` | crates/logscope-case/src/comparison.rs:138-186 | The verdict at machine width is the meant one if and only if the tests are not reached, the rates are equal, or the wrapped tests come out as the true ones |
| `Classify.RateIsExactIff` | crates/logscope-case/src/comparison.rs:144-152 | The reported rate change is the true one if and only if the scaled difference fits a signed 128-bit integer |
| `Classify.RateCanWrap` | crates/logscope-case/src/comparison.rs:144-152 | Counts and windows for which the scaled difference does not fit and the reported rate is wrong |
| `Classify.RelativeTestReadsReport` | crates/logscope-case/src/comparison.rs:144-178 | For a non-zero baseline the relative test fires exactly when the size of the reported basis points reaches the threshold |
| `Classify.RateFloor` | crates/logscope-case/src/comparison.rs:144-152 | The reported change is at least -10000, with equality exactly at zero suspects |
| `Classify.DurationsScale` | crates/logscope-case/src/comparison.rs:138-186 | Verdict and reported change are unchanged when both durations are scaled alike |
| `Classify.MoreSuspectsNeverLower` | crates/logscope-case/src/comparison.rs:153-186 | With equal windows and sufficient counts the verdict moves monotonically from Decreased over Unchanged to Increased |
| `Classify.NeverLowerIffEqual` | crates/logscope-case/src/comparison.rs:174-184 | For fixed window lengths, more suspects never lower the verdict for all counts and all thresholds, if and only if the windows are equally long; the absolute test reads raw counts |
| `Classify.SwappedWindows` | crates/logscope-case/src/comparison.rs:153-186 | Exchanging the windows never gives the same direction twice and exchanges New with Disappeared when their minimums agree |
| `TextIndex.Workspace.Open` | crates/logscope-store/src/fts.rs:42-59 | Opening creates a missing table at the current version and otherwise changes nothing; every intermediate state is safe |
| `TextIndex.Workspace.Reset` | crates/logscope-store/src/fts.rs:77-83 | A reset of an outdated file is safe at each of its three writes |
| `TextIndex.Workspace.DropTable` | crates/logscope-store/src/fts.rs:77-78 | With no other job under way, the state right behind a drop is safe if and only if no dataset is ready |
| `TextIndex.Workspace.Import` | crates/logscope-app/src/import.rs:451-503 | From publication on, stopping after any write leaves a safe workspace; completed, the dataset has a row and is ready exactly when the file is current; stopped at once, it is published and no row speaks of it |
| `TextIndex.Workspace.Rebuild` | crates/logscope-app/src/explorer.rs:254-316 | Stopped after any write, a rebuild leaves a safe workspace and loses no ready dataset; run to the end, every dataset with an index row is ready, and rows are added only when the file was outdated |
| `TextIndex.OrphanStays` | crates/logscope-app/src/explorer.rs:261-313 | An import stopped behind publication, then a rebuild run to its end over a current file: the dataset is still not ready |
| `TextIndex.Workspace.RebuildDataset` | crates/logscope-app/src/explorer.rs:276-314 | A dataset becomes ready only after all its segments are indexed into a current file |
| `TextIndex.Workspace.FtsReady` | crates/logscope-app/src/explorer.rs:120-131 | Readiness holds exactly when every selected dataset is ready and the file current, and then the index covers the whole selection |
| `TextIndex.Workspace.Run` | crates/logscope-app/src/explorer.rs:251-316 | Any run of imports, rebuilds and queries one after another, each stopped anywhere, keeps every ready dataset covered |
| `TextIndex.RowSet` | crates/logscope-app/src/explorer.rs:276-314 | Writing one index row keeps the invariant when a ready row is written only for a covered dataset |
| `IndexRaces.SafeIffDropsClear` | crates/logscope-app/src/explorer.rs:254-316 | Any number of rebuilds, wherever they stand, in every interleaving and stopped anywhere: what is marked ready stays searchable if and only if no run drops the table while a ready dataset has segments or another rebuild is part-way through a dataset |
| `IndexRaces.RebuildsAreSafeIff` | apps/desktop/src-tauri/src/explorer_cmds.rs:1107-1121 | Rebuilds started together are safe in every interleaving if and only if there is at most one, the file is current, there is nothing to index, or there are two, no table, and no old row of a dataset with segments |
| `IndexRaces.OverlapTrace` | crates/logscope-app/src/explorer.rs:265-312 | Two rebuilds: one has indexed a first segment, the other drops and re-creates the table with nothing ready, the first indexes the second segment and marks the dataset ready; every state but the last is sound |
| `IndexRaces.StepHolds` | crates/logscope-app/src/explorer.rs:254-316 | Each step of a rebuild, and each stop, keeps the invariant of store and jobs, unless it is a drop that loses something |
| `IndexRaces.CurrentKeepsReady` | crates/logscope-app/src/explorer.rs:276-283 | While the file is current, any number of rebuilds in any interleaving, stopped anywhere, leave a ready dataset ready |
| `IndexRaces.AloneFinishes` | crates/logscope-app/src/explorer.rs:254-316 | A rebuild that has the workspace to itself and comes to its end leaves every index row ready |
| `Excerpt.ReadRawExcerpt` | crates/logscope-app/src/explorer.rs:346-406 | An unregistered, absent or unopenable file is missing, one of another size has changed, a range that is empty, over 64 KiB or behind 512 MiB is unsupported; otherwise, however the reader cuts its answers, the excerpt is exactly the bytes of the range that the stream has, and it is refused only when the stream ends before the range or a read fails |
| `Excerpt.Fill` | crates/logscope-app/src/explorer.rs:392-402 | The fill loop over the buffer collects exactly the next bytes, stopping early only at the end of the stream |
| `Excerpt.WholeRangeIff` | crates/logscope-app/src/explorer.rs:392-405 | The excerpt is the whole range if and only if the stream reaches its end; otherwise less is returned and still called available |
| `Excerpt.ShortFileIsAvailable` | crates/logscope-app/src/explorer.rs:392-405 | Four bytes asked of a file that ends after two of them: available, with two |
| `IdLookup.LookupExistingIds` | crates/logscope-app/src/case.rs:307-334 | The bounded stream with early stop reports exactly the wanted ids seen within four rows per wanted id |
| `IdLookup.FoundExists` | crates/logscope-app/src/case.rs:307-334 | The lookup never reports an id that does not exist |
| `IdLookup.ExactForEveryOrder` | crates/logscope-app/src/case.rs:317-332 | The lookup is exact for every row order if and only if no existing wanted id has four rows per wanted id belonging to others |
| `IdLookup.FourEachSuffice` | crates/logscope-app/src/case.rs:317-332 | At most four occurrences of each wanted id make the lookup exact |
| `IdLookup.OneIdIsExact` | crates/logscope-app/src/case.rs:317-332 | A lookup of a single id is always exact |
| `IdLookup.CopiesHideAnId` | crates/logscope-app/src/case.rs:317-332 | Nine rows, which no import writes, for which a batch misses an id that a lookup of its own finds |
| `Evidence.BatchAsks` | crates/logscope-app/src/case.rs:1114-1135 | The collected id sets ask for every id of every item in every dataset it may live in |
| `Evidence.VerifiedEventIff` | crates/logscope-app/src/case.rs:1281-1370 | An event is verified if and only if its dataset and record are there and its source file still has the captured size and hash |
| `Evidence.EventStates` | crates/logscope-app/src/case.rs:1281-1370 | Every state of an event, exactly, from the dataset, the looked-up ids and the probe: dataset or record gone, source missing, source changed, not comparable, verified |
| `Evidence.EventCauses` | crates/logscope-app/src/case.rs:1281-1370 | The cause reported with each state |
| `Evidence.EventDrifts` | crates/logscope-app/src/case.rs:1330-1370 | The drifts reported beside a state: dataset revision, parser version and profile version, each exactly when it moved on |
| `Evidence.SelectionMeans` | crates/logscope-app/src/case.rs:1382-1448 | A selection is verified if and only if its datasets are there and every id is in one of them, unavailable if and only if a dataset is not, and a partial verdict names only ids that are in none |
| `Evidence.SelectionCounts` | crates/logscope-app/src/case.rs:1382-1448 | With all datasets there: how many ids were found, the first twenty that were not, in order, and the datasets that moved on |
| `Evidence.SelectionGone` | crates/logscope-app/src/case.rs:1382-1410 | An unavailable selection names exactly its datasets that are gone |
| `Evidence.BatchedIsAlone` | crates/logscope-app/src/case.rs:1105-1256 | With at most four copies of an id per dataset, every item gets the verdict it would get verified alone |
| `ImportedDatasets.ImportedBatchedIsAlone` | crates/logscope-app/src/case.rs:1105-1256 | Over datasets that imports wrote, in any row order, every item gets the verdict it would get verified alone, without condition |
| `EvidenceRun.ProbeCache.EventVerdict` | crates/logscope-app/src/case.rs:1281-1380 | An event's verdict through the probe cache is the verdict of the sources themselves |
| `EvidenceRun.ProbeCache.Lookup` | crates/logscope-app/src/case.rs:1703-1716 | A source file is probed at most once per run and the cached answer is its own |
| `EvidenceRun.SelectionVerdict` | crates/logscope-app/src/case.rs:1382-1448 | A selection is unavailable, partially resolved or verified by exactly the datasets and ids missing |
| `EvidenceRun.LookUp` | crates/logscope-app/src/case.rs:1170-1190 | At most one lookup per wanted dataset; the phase is cancelled if and only if one of its checkpoints asks for it, and otherwise yields every lookup |
| `EvidenceRun.EvidenceStore.VerifyEvidence` | crates/logscope-app/src/case.rs:1105-1276 | Verdicts are written for a prefix of the list and nothing else; outcomes and state counts describe exactly that prefix; cancelled holds exactly when updated < total; a cancel during the lookups writes nothing, and a later one stops in front of the item whose checkpoint asked for it |
| `EvidenceRun.WrittenOnly` | crates/logscope-app/src/case.rs:1224-1256 | Each verified item holds its own verdict and every other item exactly what it held |
| `Redaction.Summary.ProjectText` | crates/logscope-app/src/redact.rs:196-223 | Text passes the replacement rules in order, then the block bound, and the counters grow by exactly the hits and the cut |
| `Redaction.Summary.ProjectField` | crates/logscope-app/src/redact.rs:227-261 | Deny beats allow, an allow list drops every other name, and then the first rule that names the field decides |
| `RedactionLaws.WhoDecides` | crates/logscope-app/src/redact.rs:233-261 | Deny beats allow, an allow list drops every name it lacks, and among the rules the first that names the field decides |
| `RedactionMeaning.NameMeans` | crates/logscope-app/src/redact.rs:227-261 | Every name is omitted, masked, renamed or shown, exactly as the two lists and the first rule naming it say; a name no rule targets is omitted if and only if the lists drop it |
| `RedactionMeaning.ValueMeans` | crates/logscope-app/src/redact.rs:227-261 | What becomes of a named value in each of the four cases, tokens included |
| `RedactionMeaning.KeyedMeans` | crates/logscope-app/src/redact.rs:326-362 | What becomes of a string under a key: the four path keys follow the path policy, with the text behind the last separator where a basename may leave; the fixed token for an omitted key; otherwise the named value |
| `RedactionMeaning.TextMeans` | crates/logscope-app/src/redact.rs:196-223 | A shown text is what the replacement rules leave, one after another, or its first characters and the notice; replacements are the sum of the hits at each stage |
| `RedactionMeaning.CountersMean` | crates/logscope-app/src/redact.rs:196-261 | Over the positions a walk meets: omitted, masked, pseudonymised, closed paths and cut texts are the numbers of positions whose name or text is so treated, and replacements the hits in the texts written |
| `RedactionMeaning.DisplayMeans` | crates/logscope-app/src/redact.rs:288-325 | A display field becomes its name and a notice exactly when its name is omitted |
| `Redaction.Summary.Walk` | crates/logscope-app/src/redact.rs:283-371 | The walk over any tree yields its projection, and the counters grow by exactly the effects of the positions it meets, which `RedactionLeaves.CountedAreMet` ties to the paths of the tree |
| `RedactionLaws.ShapeKept` | crates/logscope-app/src/redact.rs:283-371 | Array lengths, key sets and non-string leaves survive every profile outside {name, value} entries |
| `RedactionLeaves.LeafFate` | crates/logscope-app/src/redact.rs:227-371 | For every profile, tree and path: the string standing there after one pass is the one expected from the path alone - text rules in the open, the key's decision in a plain object, the field's decision in a display field, verbatim beside a display field that is not omitted, nothing beside one that is |
| `RedactionLeaves.SealedOrVerbatim` | crates/logscope-app/src/redact.rs:227-371 | Every string of the output is sealed by the profile (token, mask, pseudonym, path policy or text bound), or it is the name of a display field or stands beside one and is the input's own string |
| `RedactionLeaves.BesideSurvivesIff` | crates/logscope-app/src/redact.rs:288-325 | A string beside a display field survives verbatim, whatever the profile says of its key, if and only if the display field is not omitted |
| `RedactionLeaves.DeniedStringSurvives` | crates/logscope-app/src/redact.rs:288-325 | A denied string, longer than the bound, beside a display field: the projection changes nothing and the counters see one position only |
| `RedactionLeaves.CountedAreMet` | crates/logscope-app/src/redact.rs:283-371 | The positions behind the counters are, in order, the strings in the open and under plain keys and the display values; strings beside or inside a display field are not counted |
| `RedactionLeaves.PathsAreAll` | crates/logscope-app/src/redact.rs:283-371 | The list of paths those positions are taken from names every path of the tree exactly once |
| `RedactionLeaves.DroppedKeyHidesIff` | crates/logscope-app/src/redact.rs:341-360 | A dropped key shows the fixed token if and only if its value is a string and the key belongs to a plain object; under a closing path policy a path key shows what the policy leaves; the rule's comment promises removal wherever the field appears |
| `RedactionLeaves.DeniedNumberSurvives` | crates/logscope-app/src/redact.rs:341-360 | A denied number stays where it is |
| `RedactionLaws.SecondPassIsIdleIff` | crates/logscope-app/src/redact.rs:196-371 | With only omissions and masks, projecting twice is projecting once if and only if every display field the walk omits has a name that the profile leaves alone under the key `name` |
| `RedactionLaws.SecondPassIsIdle` | crates/logscope-app/src/redact.rs:196-371 | In particular with the key `name` left alone and names inside the bound |
| `RedactionLaws.SecondPassCanHideName` | crates/logscope-app/src/redact.rs:303-316 | A profile that targets `name` changes its own output on a second pass |
| `RedactionLaws.TextTwice` | crates/logscope-app/src/redact.rs:216-222 | Cutting a text that was already cut changes nothing |
| `CsvExport.ReadCell` | crates/logscope-app/src/export.rs:200-206 | Whatever a cell holds, its printed form reads back as that cell, up to its separator |
| `CsvExport.RoundTrip` | crates/logscope-app/src/export.rs:200-206 | Any table of non-empty records parses back to itself under section 2 of RFC 4180 with LF line ends |
| `CsvExport.GuardCollides` | crates/logscope-app/src/export.rs:78-84 | The formula guard maps two cells alike exactly when one is a formula and the other the same text behind an apostrophe |
| `Export.WriteExport` | crates/logscope-app/src/export.rs:277-418 | The file is the header and a prefix of the rows, both limits hold, truncated tells exactly whether rows are missing, and rows are missing only because a limit was reached |
| `Export.CsvReadsBack` | crates/logscope-app/src/export.rs:295-350 | Parsing a CSV export gives back exactly the header and the cells of the rows written |
| `Export.CsvMeans` | crates/logscope-app/src/export.rs:277-398 | A CSV export parses to a header, the requested columns or the nine default ones, and one record per written row with each cell as read, or behind an apostrophe where the guard is on and it starts like a formula |
| `Export.JsonlMeans` | crates/logscope-app/src/export.rs:345-398 | A JSON export is one line per written row, in order, each the row's own JSON |
| `Export.Disk.RunExport` | crates/logscope-app/src/export.rs:211-273 | No existing file is touched, and a new one appears only when complete; cancelled only where a checkpoint asked for it, failed only where a row has no JSON; both limits, clamped as the specification says, hold, and rows are missing only where one of them was reached |
| `AnalysisRuns.Store.RunAnalysis` | crates/logscope-app/src/correlation.rs:782-796 | When every step goes through, a run that produces results ends completed with the hashes of exactly the files it produced, a cancelled one cancelled and an erring one failed; a run ends failed only because it erred or a step did not go through; cancelled and failed runs carry no manifest; an unrecorded ending leaves the run unfinished |
| `AnalysisRuns.Store.RecordArtifacts` | crates/logscope-app/src/correlation.rs:1032-1069 | Every file the manifest names is written, hashed and recorded before completion can be written |
| `AnalysisRuns.Store.Finish` | crates/logscope-workspace/src/analysis_meta.rs:512-550 | A run finishes only from an unfinished state, and completed only with a manifest |
| `AnalysisRuns.Store.MarkStale` | crates/logscope-workspace/src/analysis_meta.rs:554-571 | Only a completed run becomes stale, keeping its manifest |
| `AnalysisRuns.Store.FailInterrupted` | crates/logscope-workspace/src/analysis_meta.rs:616-640 | Opening a workspace fails every unfinished run and changes no other |
| `AnalysisRuns.OutcomeStands` | crates/logscope-workspace/src/analysis_meta.rs:512-571 | Whatever happens to a finished run later, its manifest and error stand; cancelled and failed runs never change |
| `RunScope.ResolveSelection` | crates/logscope-app/src/explorer.rs:25-52 | An empty request selects everything published; otherwise the requested datasets once each, or an error |
| `RunScope.CheckRunCurrent` | crates/logscope-app/src/analysis.rs:293-341 | The check passes if and only if every recorded dataset is at its recorded revision and the definition is unchanged; the reason names a dataset that moved, or the definition |
| `RunScope.SelectionMeans` | crates/logscope-app/src/explorer.rs:25-52 | An empty request selects everything published; otherwise exactly the requested datasets, each once, and nothing when one of them is not published |
| `RunScope.FreezeMeans` | crates/logscope-app/src/analysis.rs:187-258 | A run freezes exactly the selected datasets with their revisions, in order, and the revision of its definition |
| `RunScope.ReadsFrozenScope` | crates/logscope-app/src/correlation.rs:714-743 | Execution and drill-down read what the run froze if and only if the datasets were listed explicitly or the published set is again the frozen one |
| `RunScope.NewDatasetGoesUnnoticed` | crates/logscope-app/src/analysis.rs:293-341 | A dataset published after the freeze leaves the run current while an empty selection takes it in |
| `Quoting.QuoteValue` | crates/logscope-app/src/case.rs:709-724 | The buffer loop writes the quoted form of a value |
| `Quoting.QuoteReadsBack` | crates/logscope-query-lang/src/lex.rs:236-282 | The lexer reads a quoted value back as that value, with no diagnostic, and resumes right behind it |
| `Quoting.MdEscape` | crates/logscope-app/src/report.rs:397-409 | The buffer loop writes the escaped form, the text with a backslash before each of the twelve characters |
| `Quoting.EscapeShowsTextIff` | crates/logscope-app/src/report.rs:397-409 | Escaped prose shows none of the twelve characters as active, and shows as exactly the original text if and only if the text spells no character reference by name; a numeric one is broken by the escaped number sign |
| `Quoting.NamedMeans` | crates/logscope-app/src/report.rs:397-409 | What that condition means on the characters: somewhere an ampersand, a known name of letters and digits, and a semicolon |
| `Quoting.ReferenceIsRead` | crates/logscope-app/src/report.rs:397-409 | The text of a named reference passes the escaper and is read as the character it names |
| `Quoting.LineStartsStay` | crates/logscope-app/src/report.rs:397-409 | Bullets, a numbered item and a tilde fence at the head of a line are not escaped |
| `Quoting.LongestRun` | crates/logscope-app/src/report.rs:414-424 | The loop finds the longest run of backticks |
| `Quoting.MdFence` | crates/logscope-app/src/report.rs:413-433 | The fence is longer than any run inside, no longer than needed and at least three, and the block reads back as exactly the content's lines |
| `EntryPaths.PlainPath` | crates/logscope-app/src/bundle.rs:693-737 | A folder and a file name of plain parts pass every rule for entry names |
| `EntryPaths.PathMeans` | crates/logscope-app/src/bundle.rs:693-737 | An entry name is accepted if and only if it has 1 to 512 characters, none a backslash, colon or control character, no leading slash, at most seven slashes, and no piece between slashes that is empty, a dot name, ends in a dot or a blank, or is a device name up to case, alone or before a dot |
| `BundleArchive.CheckDirectory` | crates/logscope-app/src/bundle.rs:780-825 | The central directory is accepted if and only if every entry, every name collision rule and the declared total are in order |
| `BundleArchive.ReadEntryExact` | crates/logscope-app/src/bundle.rs:942-973 | An entry is read exactly when it fits the limit and its declared size, and never more than one chunk past it |
| `BundleArchive.ImportGates` | crates/logscope-app/src/bundle.rs:780-886 | Import gets through if and only if every gate holds, and stages exactly the bytes the manifest lists |
| `BundleArchive.AcceptedMeans` | crates/logscope-app/src/bundle.rs:780-886 | The gates, entry by entry: at most ten thousand plain files under acceptable names, none over one gibibyte and not over four together, no two names alike up to case, a manifest of at most eight mebibytes in a version that is read, every listed file there with its size and hash, and nothing unlisted but manifest and checksums |
| `BundleRoundTrip.ExportIsAccepted` | crates/logscope-app/src/bundle.rs:472-556 | Without a disclosure profile and within the size limits every archive the exporter builds passes every import gate |
| `BundleRoundTrip.StagedIsPlan` | crates/logscope-app/src/bundle.rs:858-886 | What import stages is exactly what export planned, byte for byte, and nothing else |
| `CaseRestore.CaseStore.RestoreHypothesis` | crates/logscope-app/src/bundle.rs:1125-1154 | The threaded revision always equals the stored one, so states and links are restored without a stale refusal, and only a link to unknown evidence fails |
| `CaseRestore.CaseStore.InsertCase` | crates/logscope-app/src/bundle.rs:977-1154 | Restoring succeeds if and only if the case is restorable (`CaseRestore.RestorableMeans`), and then the tables hold the restored rows in order (`BundleImport.RestoredRows` compares them field by field) |
| `CaseRestore.RestorableMeans` | crates/logscope-app/src/bundle.rs:977-1154 | A case is restorable if and only if no table has an id twice, a marker with an end has a start before it, and every link names evidence of the case |
| `CaseRestore.HypothesisComesBack` | crates/logscope-app/src/bundle.rs:1115-1154 | A stored hypothesis comes back with its statement, rationale, state and links in order |
| `CaseRestore.ImportsIffSelfContained` | crates/logscope-app/src/bundle.rs:1136-1147 | A case read from a workspace imports if and only if every hypothesis links evidence of the same case |
| `CaseRestore.ForeignLinkIsRefused` | crates/logscope-workspace/src/case_meta.rs:1247-1315 | A link to another investigation's evidence is stored and exported, and refused on import |
| `BundleImport.LinesReadBack` | crates/logscope-app/src/bundle.rs:1093-1120 | Evidence printed one row to a line reads back as the same rows, blank lines aside |
| `BundleImport.ImportedWorkspace.InsertCase` | crates/logscope-app/src/bundle.rs:977-1191 | Inserting succeeds if and only if every required entry is there and parses, the investigation has an id that is the manifest's, and the rows are restorable; then the workspace holds the restored case, investigation and saved searches included, which `BundleImport.RestoredRows` spells out |
| `BundleImport.ImportedWorkspace.ImportBundle` | crates/logscope-app/src/bundle.rs:761-935 | An archive is imported if and only if it passes every gate of the archive and of the case, and then the workspace holds the case it carries, row by row as `BundleImport.RestoredRows` says |
| `BundleImport.RestoredRows` | crates/logscope-app/src/bundle.rs:1015-1191 | Whatever wrote the bundle: items, markers and evidence are in the tables field by field, only unarchived and evidence without its group; hypotheses keep statement, rationale, known state and links without repetitions |
| `BundleImport.UpsertedMeans` | crates/logscope-app/src/bundle.rs:1157-1179 | Saved searches: each id once, in order of first occurrence, with the last row of that id |
| `BundleImport.ExportIsParsedBack` | crates/logscope-app/src/bundle.rs:257-556 | What the exporter writes of a stored case comes through every gate and is parsed back as it was |
| `BundleImport.ExportImportsIff` | crates/logscope-app/src/bundle.rs:977-1191 | An exported case is imported if and only if its investigation has an id and every hypothesis links evidence of the same case |
| `BundleImport.ThereAndBack` | crates/logscope-app/src/bundle.rs:761-935 | Exported and imported into a new workspace, the case comes back, row by row and field by field, exactly when its links stay inside it |
| `BundleImport.HeldIsWhole` | crates/logscope-app/src/bundle.rs:1015-1191 | A workspace that holds a restored case holds the case itself, field by field and with equal lengths, but for archived flags, evidence groups, revisions and the status of the investigation |

## Left out

- Correlation.Absorb: event times are unbounded integers, so the 64-bit overflow of a time difference between extreme instants is not modelled; the same holds for the bucket width of pattern analysis.
- Comparison.StreamSide: counts are unbounded; the classifier alone is modelled at machine width.
- CorrelationGroups.BuildGroups: edge ids, confidence labels, the reason texts and the list of resources of a group row are not stored; group ids are an injective function of key and participants.
- Signals.SignalsForGroup: the pair rules themselves are parameters, and the last sort of all signals by group, kind and stamp is not modelled; it moves no signal in or out.
- EvidenceRun.EvidenceStore.VerifyEvidence: queries, groups, intervals and item references are one kind of work whose verdict is a parameter, because it does not read the looked-up ids; the time stamps of the resolver columns are not modelled.
- Redaction.Summary.Walk: the JSON tree is a value; the in-place update of the tree is not modelled, and neither is an unparseable snapshot, which is projected as plain text.
- Quoting.MdFence: lines end at a line feed; a lone carriage return as a line end of Markdown is not modelled.
- Quoting.EscapeShowsTextIff: the reader knows backslash escapes and character references; block structure, such as list items, numbered items, tilde fences and headings by underlining, is read by no lexer here, and `Quoting.LineStartsStay` shows that the escaper leaves such line starts as they are.
- Export.WriteExport: reading a column of a row is a parameter, and so is JSON serialisation, which may fail.
- BundleRoundTrip.ExportIsAccepted: an archive is a list of named byte strings; compression, the deterministic ZIP layout and the staging directory are not modelled, and the checksums file is opaque because import never reads it.
- CaseRestore.CaseStore.InsertCase: rows are parsed values; marker descriptions and time-zone texts, the captured revision of evidence and the superseded evidence, which are copied or dropped field by field, are not modelled.
- BundleImport.ImportedWorkspace.ImportBundle: JSON is a parameter that reads back what it wrote; the manifest's title, revision and disclosure note, the copied reports and data, and the record of the import are not modelled.
- IndexRaces.SafeIffDropsClear: imports do not run beside rebuilds here, because an import needs the workspace to itself; a lock error of the index file is a job that stops.
- Duplicates.NeighboursSufficeIff: strengths, matched and missing fields of a reported pair are not modelled.
- TextIndex.Workspace.Run: operations do not overlap here, `IndexRaces` has rebuilds that do; the field catalogue, whose states move alike but guard nothing, is not modelled; deletion of the index file by someone else is not a step.
- AnalysisRuns.Store.RunAnalysis: progress rows, findings and the deletion of unreferenced runs are not modelled; a result file whose write fails may hold any bytes until the run is failed.
- DuckDB, Parquet, SQLite, ZIP and gzip calls, network and clocks, job progress, watcher threads, minted ids, the desktop shell, the user interface, prose builders and configuration parsing apart from the window check.
