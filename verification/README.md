# A verified model of the gpufleet telemetry agent

The agent collects source-tagged observations from a GPU node, folds them into one signal
window per cycle, prices and publishes that window, serves it to concurrent readers, and
lets a control plane ask for more evidence within limits the host sets itself. This
project models that logic in Dafny and proves what the design rests on. To check it, use
`dafny verify dfyconfig.toml`.

| part | modules | source |
|---|---|---|
| evidence normalisation and provenance | `Evidence`, `Merge`, `Legs`, `Gather`, `Normalize`, `Provenance`, `CounterLegs`, `WindowFacts`, `TimelineFacts`, `WindowInputs`, `Ordering` | `normalize.go`, `collector.go` |
| where device readings come from | `Chain`, `Spec`, `Peaks`, `Fill` | `collectors_chain.go`, `device_spec.go`, `gpu_peak_table.go`, `runtime_config.go` |
| the daemon, its readers and the investigate loop | `Cost`, `Daemons`, `CycleFacts`, `DaemonRuns`, `Readers`, `SingleFlight` | `daemon.go`, `cost.go`, `api.go`, `cmd/agent/main.go` |
| counters, rate gate, scrape, bounded drain | `DcgmCounters`, `Scrape`, `ScrapeFacts`, `BoundedRead`, `EvidenceChain` | `collectors_dcgm.go`, `collectors_kmsg.go` |
| text parsers | `Text`, `Exposition`, `LabelValues`, `KmsgRecords` | `collectors_dcgm.go`, `collectors_logs.go` |
| vetted escalation | `Directives`, `Investigate` | `internal/directive/validate.go`, `internal/capability/catalog.go`, `internal/investigate/client.go` |

`Prelude` holds the list operators (flat-map, fold, filter) in which loops are specified.

## How the model stands to the source

- Objects that change in place are classes (`MergedDevice`, `DeviceTable`, `Daemon`,
  `DcgmExporterCollector`, `SelectedSource`, `Client`, `Pack`) whose methods are proved
  against pure functions or a ghost history; loops keep their invariants; the theorems are
  lemmas about those functions. Modules whose name ends in `Facts`, and `WindowInputs`,
  say what the results are in terms of the inputs alone, with every name and number
  written out.
- Go map iteration is a choice the code does not control: an arbitrary pick in a loop
  (`Gather.StampProvenance`, `Ordering.SortedKeys`, `Peaks.SearchLongest`) or an order
  handed in from outside (`Spec.DeviceSpec.Lookup`).
- Collectors, reader, clock, kill-switch, server and executor are functions of how often
  they were consulted, hence arbitrary over time.
- Concurrency is interleaving: a step is what happens under one lock.
- FLOPs, seconds and dollars are reals, counters naturals, clock readings integers. A nil
  pointer is an `Option`, an error return a `Result`.

## Where code and documentation differ

The model follows the code. Each difference below has a lemma.

- A counter leg is not a function of its own source's observations. An earlier Prometheus
  zero hides DCGM's ECC and link legs (`CounterLegs.LegsCanBeHidden`); where DCGM reads a
  device twice in a cycle, an earlier positive Prometheus reading brings about legs that
  DCGM's own first reading (zero) would not give (`CounterLegs.LegsCanBeBrought`); and any
  positive DCGM reading takes Prometheus's ECC leg over (`CounterLegs.LegsCanBeTaken`).
  Exact conditions for the three kinds of leg are in `CounterLegs.DcgmEccProjectsIff`,
  `CounterLegs.LinkProjectsIff` and `CounterLegs.PrometheusEccProjectsIff`. Nothing is
  forged: the source did see the counter move, and where it reads a device at most once
  each of its legs is one that its own observations give (`CounterLegs.EccLegIsOwn`,
  `CounterLegs.LinkLegIsOwn`).
- The job mark is said to appear when no source resolved a job. A mapping that names no
  job hides it (`WindowFacts.UnresolvedJobMarkedIff`; an input is in
  `WindowFacts.JoblessIsUnmarked`).
- `/cost` is said to answer an empty report flagged as stale and never collected before
  the first metrics. If they arrive between its two reads, the empty report looks fresh
  (`Readers.EmptyReplyCanLookFresh`; the flag is exact when nothing falls between).
- With `FieldFallback` set, a counter reading that only the fallback has, of a shared device
  or of one that only the fallback saw, is published under the preferred source
  (`Chain.FieldFallbackMisattributes`, exact condition in
  `Chain.FilledCountersAreBorrowedIff`). `NewMetricsChain` leaves it unset, and then
  every answer is passed on verbatim (`Chain.AnswersAreVerbatim`).
- When both sources of a chain fail, its comment promises the fallback's error; the code
  returns the primary's if there is one (`Chain.FailsIff`).
- The peak table is said never to guess, but any name that begins with "h100" gets an
  H100's peak (`Peaks.RecognisedByTokenIff`, `Peaks.GluedIsGuessed`, `Peaks.H1000IsGlued`).
- A device spec with two spellings of one model and different entries answers by map
  order (`Spec.OrderMattersIff`, `Spec.SpellingsCanClash`, an input in `Spec.T4Clashes`).
- The exposition parser does not undo the format's escapes (section "Text format details"
  of the Prometheus exposition formats, version 0.0.4), and takes the first closing brace
  of a line for the end of its labels: the labels of a line, any number of them, come back
  iff none of the values has a backslash, quote, newline or closing brace
  (`LabelValues.EscapedReadBackIff`; one bad value spoils the line for its neighbours;
  inputs in `LabelValues.BraceIsLost` and `LabelValues.QuoteIsLost`).
- Validating a directive that is already safe need not return it unchanged: a field of zero
  is raised to its cap (`Directives.SafeCanChange`, exact condition in
  `Directives.ValidatedUnchangedIff`).
- An injected timeline entry with a foreign source is said to be normalised to the
  observation's source; the code drops it (`Gather.AdmittedIff`).

## Model

| member | source | states |
|---|---|---|
| Merge.MergedDevice.MergeDeviceWindow | normalize.go:364-392 | In-place merge of one reading: known fields kept, unknown ones taken over with their flag, node, model and window overwritten when supplied |
| Merge.FoldRefinesFirstAndLast | normalize.go:364-392 | After any list of readings each flagged field is the first known reading in order (zero if none) and node, model and window are the last supplied |
| Merge.MergeDescriptionIsExact | normalize.go:364-392 | That first-and-last description determines the merged device completely |
| Merge.MergeAlgebra | normalize.go:364-392 | Merging is associative and idempotent |
| Merge.FoldOfPremerged | normalize.go:364-392 | Readings merged beforehand (as the metrics chain does) give the same device |
| Legs.FaultTimeline | normalize.go:461-538 | The emitted legs are exactly, in order, those of the XIDs, NCCL timeouts, ECC devices and link devices given |
| Legs.SanitizeKeepsAllButDots | normalize.go:568-570 | Sanitising changes dots to dashes and nothing else |
| Legs.LogTokensAreOneSegment | normalize.go:545-570 | No identity read from a log can add a dotted segment to a signal id |
| Gather.AdmitTimeline | normalize.go:125-146 | An injected entry is admitted only under its observation's own source |
| Gather.AdmitMappings | normalize.go:148-157 | The in-place mapping table is the fold in which a job-bearing mapping is never replaced |
| Gather.DeviceTable.AdmitWindow | normalize.go:159-168 | The pointer table holds, per device, the merge of its readings; other devices are untouched and never share an accumulator |
| Gather.AdmitWindows | normalize.go:159-189 | One observation's windows update the table and the three sets of sources that saw a counter move |
| Gather.StampProvenance | normalize.go:102-105 | Provenance keys end up namespaced by source whatever the map order |
| Gather.GatherObservations | normalize.go:97-190 | The single interleaved pass equals eleven independent walks over the observations |
| Normalize.AttributeCounters | normalize.go:226-250 | A counter leg goes to a source that saw the counter move, DCGM before Prometheus, at most one per device |
| Normalize.MarkDegraded | normalize.go:254-298 | The marks of a device, in order, and whether it can be priced |
| Normalize.WalkDevices | normalize.go:226-311 | The walk over sorted devices accumulates marks, mappings, samples, specs and counter devices |
| Normalize.Normalize | normalize.go:70-360 | The window is one function of the observations, clock and library answers, independent of map order; a resolve error is passed on |
| Provenance.MergeIsPerDevice | normalize.go:159-189 | The fold interleaved over all devices is, per device, the first-known and last-supplied readings of that device alone |
| Provenance.MappingIsFirstWithJob | normalize.go:148-157 | A device's mapping is the first that names a job, else the last, else none |
| Provenance.SeenMeans | normalize.go:169-188 | A device is in a source's seen set iff an observation of that source carries its positive known delta |
| Provenance.EverySignalIsWitnessed | normalize.go:97-190 | Every published signal has a witness observation of the very source it bears, carrying the supporting fact |
| Provenance.OneSourceOneLegSource | normalize.go:343-353 | Observations of a single source yield legs of that source only |
| Provenance.LogLegsProject | normalize.go:119-146 | For each source its XID, NCCL and injected legs are exactly those its own observations alone give, in order |
| CounterLegs.CounterLegsOf | normalize.go:226-250 | The counter legs are exactly those of devices whose first known reading is positive and whose counter a collector of the leg's source saw move, at most one of each kind per device, ascending |
| CounterLegs.LegsCanBeHidden | normalize.go:386-391 | A list where another source's zero hides DCGM's ECC and link legs |
| CounterLegs.LegsCanBeBrought | normalize.go:386-391 | A list where another source's reading brings about DCGM legs that DCGM alone would not give |
| CounterLegs.LegsCanBeTaken | normalize.go:236-244 | A list where DCGM takes Prometheus's ECC leg over |
| CounterLegs.DcgmEccProjectsIff | normalize.go:235-250 | DCGM's ECC leg depends on other sources iff DCGM saw a move and the device's first reading, by position, is another source's with the opposite sign to DCGM's first |
| CounterLegs.LinkProjectsIff | normalize.go:246-250 | The same for the link leg |
| CounterLegs.PrometheusEccProjectsIff | normalize.go:236-244 | Prometheus's ECC leg depends on other sources iff it saw a move and is so overruled, or, where DCGM saw one too, would have a leg of its own |
| CounterLegs.EccLegIsOwn | normalize.go:226-250 | If a source reads a device's ECC counter at most once, its leg in the full list is one of its own list, which has it iff the source saw the counter move |
| CounterLegs.LinkLegIsOwn | normalize.go:226-250 | The same for the link leg |
| TimelineFacts.TimelineIsExact | normalize.go:330-353 | The whole timeline, id by id: a citation per source, then one leg per fault XID that dmesg logged (79, or 48, 63, 64, 94, 95), per NCCL timeout, per ECC device and per link device, then the admitted pre-formed entries; in that order and nothing else |
| TimelineFacts.FaultsArePublished | normalize.go:461-538 | Every fault XID of a dmesg observation and every timeout of an NCCL observation has its entry, at its own time or now |
| TimelineFacts.FallenOffTheBus | normalize.go:468-474 | XID 79 on a named device is published as dmesg.xid79 and that device |
| TimelineFacts.DeviceTokenMeans | normalize.go:545-550 | The device token of an XID id is the uuid with dashes for dots, or "node" |
| TimelineFacts.ScopeTokenMeans | normalize.go:555-563 | The scope token of a timeout is the communicator, else the rank, else unknown |
| TimelineFacts.DecimalMeans | normalize.go:476 | A number in an id is its decimal digits |
| WindowFacts.MarksAreExactlyTheGaps | normalize.go:254-298 | A device is marked for a field iff no observation at all supplied its input |
| WindowFacts.UnresolvedJobMarkedIff | normalize.go:254-263 | A device without a job is marked iff no mapping mentions it |
| WindowFacts.SamplesAreExact | normalize.go:299-311 | Samples and specs hold exactly the devices with a window, achieved work and a peak, with the last supplied identity and window and the first known work, peak, tensor time and price (zero if none) |
| WindowFacts.MappingsAreExact | normalize.go:254-271 | One mapping per device, ascending, with the chosen mapping's job, and the first known peak and price or else the chosen mapping's own |
| WindowFacts.JoblessIsUnmarked | normalize.go:254-263 | An input whose device has no job and no mark |
| WindowFacts.KeysCollideIff | normalize.go:102-105 | Two provenance keys collide iff source short name and key agree |
| WindowInputs.JobsAreResolved | normalize.go:313-330 | The resolver is given one edge per device with a window and a job, ascending, with its last supplied identity; its answer is the window's jobs, its error the window's |
| WindowInputs.DevicesAreExact | normalize.go:226-311 | The window knows exactly the devices of which there is a window, each by its last supplied identity |
| WindowInputs.RawPartsAreKept | normalize.go:107-124 | Series and events of all sources are passed on whole, in order |
| WindowInputs.HeaderIsExact | normalize.go:76-95 | The pack names the agent and the window's bounds and holds the three agent stamps besides what the observations state |
| WindowInputs.ShortNames | normalize.go:394-411 | The short name of every source |
| WindowInputs.LastStatementWins | normalize.go:102-105 | A key stated by several observations of a source has the value of the last |
| WindowInputs.StatedBySomeone | normalize.go:102-105 | No other key is in the gathered provenance |
| Ordering.SortedKeys | normalize.go:204-209 | Ranging over a map in any order and sorting gives the one ascending listing |
| Ordering.SortedListingIsUnique | normalize.go:204-209 | A set has at most one ascending listing |
| Cost.CostWedge | cost.go:25-64 | The report prices exactly the sampled devices and the jobs with a priced device; the first error is returned |
| Cost.ReportIsExact | cost.go:25-43 | A report exists iff every sampled device can be priced, and lists exactly the sampled devices, ascending, each at its own sample and at its spec (none: no peak, no price); otherwise the error is that of the first device that cannot |
| Cost.JobsAreExact | cost.go:45-62 | The report lists, in the window's order, exactly the jobs with a sampled device, each priced from the wedges of its sampled devices in their order and their specs |
| Cost.NoSamplesNoCost | cost.go:36-43 | A window without samples has an empty report, whatever its jobs |
| Chain.MergeWindows | collectors_chain.go:178-189 | The in-place merge through an index map equals folding the fallback's readings into the last window of each device and appending the others |
| Chain.FillKeepsAndAdds | collectors_chain.go:163-195 | No known reading of the primary is overwritten, places and distinctness are kept, and exactly the fallback-only devices are added |
| Chain.FillReadsBoth | collectors_chain.go:178-189 | A shared device has the primary's reading, else the fallback's; node, model and window follow the fallback |
| Chain.MetricsChain.Collect | collectors_chain.go:114-161 | Which source answers in every combination of errors, empty answers and missing collectors, and what the shared cell then records |
| Chain.NewMetricsChain | collectors_chain.go:105-107 | A wired chain has a cell of its own and no field fallback, and names its preference |
| Chain.FailsIff | collectors_chain.go:130-152 | Which error the chain returns, in every combination of failures |
| Chain.WhoAnswers | collectors_chain.go:114-160 | Whose observation is returned, under which source and for which reason, in every combination of errors, empty answers and missing collectors, read off the collectors' answers |
| Chain.FillIsExact | collectors_chain.go:163-195 | Asked to fill in, a fallback that fails changes nothing; one that answers has its windows merged in and its series appended and is used for nothing else |
| Chain.AnswersCarryTheirMark | collectors_chain.go:118-160 | An observation is tagged with the source the chain records |
| Chain.SourceIsTheLastAnswers | collectors_chain.go:76-99 | Over every run the cell names the source of the last observation returned, failures leaving it alone, and is empty before any |
| Chain.CollectRepeatedly | collectors_chain.go:76-161 | So after any number of collections Source() is the last returned observation's source, the declared one while there is none |
| Chain.CellLessSourceErrsIff | collectors_chain.go:88-99 | Without a cell Source() is wrong exactly when a fallback of another source answered |
| Chain.AnswersAreVerbatim | collectors_chain.go:117-160 | Unless asked to fill in, the chain passes an answer on unchanged |
| Chain.FilledCountersAreBorrowedIff | collectors_chain.go:119-121 | Under field fallback the answer carries an ECC (or link) reading that is not the tagged source's iff some fallback window knows that counter of a device that the source lacks or does not know it for |
| Chain.FieldFallbackMisattributes | collectors_chain.go:119-121 | A chain whose ECC error bears a source that never reported it |
| Spec.DeviceSpec.Lookup | device_spec.go:77-102 | UUID, exact model, spelling, wildcard, for any order of the map |
| Spec.FoundMayBeFound | device_spec.go:77-102 | Every order gives an answer that the spec contains |
| Spec.EveryAnswerIsReached | device_spec.go:86-94 | Every matching entry is the answer under some order |
| Spec.FoundByPrecedence | device_spec.go:77-102 | The device's own entry, else the model's, else a spelling's, else the wildcard's, entries without a positive figure not counting |
| Spec.SpellingsOfAModel | device_spec.go:69-73 | Case, surrounding space and the vendor in front make no difference to a model's name |
| Spec.OrderMattersIff | device_spec.go:86-94 | The answer depends on the order iff nothing more specific answers and two spellings differ |
| Spec.DistinctModelsAreUnambiguous | device_spec.go:69-94 | Distinct normal forms make the lookup order-independent |
| Spec.SpellingsCanClash | device_spec.go:86-94 | Two spellings with different entries make it order-dependent |
| Spec.T4Clashes | device_spec.go:86-94 | As "t4" and "T4 " do for a "T4" |
| Spec.SpecFill | device_spec.go:206-274 | Every window is filled in place from its entry, and the stamp counts exactly what was supplied and derived |
| Spec.StampCounts | device_spec.go:206-262 | The stamp counts the windows that gained a peak, a price, achieved work, and names each device once for every window of it that gained a peak or a price |
| Peaks.SearchLongest | gpu_peak_table.go:184-198 | The search over the map in any order finds the longest leading key |
| Peaks.LongestIsUnique | gpu_peak_table.go:184-198 | There is only one longest leading key |
| Peaks.LongestFromIsLongest | gpu_peak_table.go:184-198 | Trying prefixes from the longest down finds that key |
| Peaks.MatchModelPeak | gpu_peak_table.go:126-201 | Matching is one function of the name: exact, A100, H100, longest leading key |
| Peaks.KeyOfIsExact | gpu_peak_table.go:136-205 | The key of a bare name: itself; for the A100, by the first capacity in it; for the H100, by the form factor anywhere in it; else the longest key that leads it |
| Peaks.CapacityIsFirst | gpu_peak_table.go:107 | The capacity is the first maximal run of digits that "gb" follows, blanks apart |
| Peaks.PrefixesAreStripped | gpu_peak_table.go:126-135 | A bare name stays one, whatever vendor and line are put in front of it |
| Peaks.MatchesAreTheTables | gpu_peak_table.go:120-125 | Every recognised name resolves to an entry of the table |
| Peaks.RecognisedByTokenIff | gpu_peak_table.go:120-125 | A name is recognised by a whole leading token iff it does not merely begin with "h100"; an unknown name has no leading key |
| Peaks.GluedIsGuessed | gpu_peak_table.go:163-177 | A name that merely begins with "h100" gets an H100's peak |
| Peaks.H1000IsGlued | gpu_peak_table.go:163-177 | "h1000" is such a name for every table that does not hold it |
| Peaks.LongestKeyWins | gpu_peak_table.go:179-183 | The resolved key extends every other key that leads the name |
| Peaks.BuiltinIsComplete | gpu_peak_table.go:61-101 | The built-in table holds the keys the rules name, with positive peaks, equal for both A100 boards |
| Peaks.TableFill | gpu_peak_table.go:246-310 | Only still-unknown peaks are filled, cost never; the stamp names exactly the models and counts used |
| Peaks.ModelsAreUsed | gpu_peak_table.go:246-300 | The models stamped are those whose datasheet peak some window without one took |
| Fill.Collect | runtime_config.go:214-223 | Through both wrappers every window keeps its place and follows the precedence |
| Fill.FilledByPrecedence | gpu_peak_table.go:25-32 | Peak: measured, spec, table, unknown; price: measured, spec, unknown; achieved: measured, else tensor time at a supplied peak; all else unchanged |
| Fill.SuppliedFigures | device_spec.go:225-247 | A spec peak in teraflops becomes 10^12 times as many flops, a price the price, tensor seconds at the peak the achieved work |
| Fill.TableFigure | gpu_peak_table.go:260-271 | Without a peak in the spec the recognised model's datasheet figure is supplied, if the table is in use |
| Fill.PrecedenceIsExact | runtime_config.go:208-216 | The precedence determines the window |
| Fill.PrecedenceComposes | runtime_config.go:208-216 | Filling from the spec and then the table obeys the joint precedence |
| Fill.DerivedUtilisationIsTensorRatio | device_spec.go:228-242 | Utilisation from derived work is the tensor ratio, whatever peak was supplied |
| Fill.SuppliedPeaksArePositive | device_spec.go:41-43 | A supplied peak is positive |
| Daemons.Daemon.constructor | daemon.go:136-163 | Defaults, and an empty history |
| Daemons.Daemon.Poll | daemon.go:212-248 | Every collector is asked unless cancelled; errors are counted one by one; metrics are fresh iff some answer has device data |
| Daemons.Daemon.Digest | daemon.go:264-296 | The state is the normalised, annotated, priced and judged window of the answers |
| Daemons.Daemon.Conclude | daemon.go:250-325 | All-failed, normalize error, cost error or publish, with what each does to the history |
| Daemons.Daemon.Publish | daemon.go:296-323 | A publish is numbered one above the last; only one with metrics moves the cost state and ends the streak |
| Daemons.Daemon.RecordMetricsFailure | daemon.go:333-339 | A failed cycle adds one error and one to the streak and leaves both states |
| Daemons.Daemon.Refresh | daemon.go:210-325 | One cycle appends exactly the cycle its answers amount to, and all fields stay sums of the history |
| Daemons.Daemon.Freshness | daemon.go:411-454 | The verdict on the history; it has a reason iff it is stale |
| Daemons.Daemon.CostSnapshot | daemon.go:385-389 | The latest metrics-bearing publish |
| Daemons.HistoryStep | daemon.go:296-323 | How each kind of cycle changes the five sums |
| CycleFacts.CycleIsExact | daemon.go:210-325 | A cycle is cancelled iff a collector was not asked; else it fails iff there are collectors and all refused, or no window comes of the answers, or it cannot be priced; else it publishes, as metrics-bearing iff an answer has device windows, the window of the answers with its own cost report and the gate's verdict on its pack, and the words of provenance that name the refusals |
| DaemonRuns.CostStateIsLastFresh | daemon.go:305-322 | Over every run the cost state is the last metrics-bearing publish and the streak counts completed cycles after it |
| DaemonRuns.NoStreakMeansCaughtUp | daemon.go:305-322 | Without a streak the live state is the cost state |
| DaemonRuns.RefreshesStrictlyIncrease | daemon.go:296-304 | Publish numbers rise strictly and count the publishes |
| DaemonRuns.FreshnessIsExact | daemon.go:411-454 | With a monotone clock, not stale iff metrics were published within the threshold, never collected iff none ever were, and the age counts from the collection, or from the start |
| DaemonRuns.RunsAreMonotone | daemon.go:210-211 | Cycles whose clock does not go back publish times that do not |
| DaemonRuns.RunCycles | daemon.go:482-498 | A new daemon's loop goes through the history of its inputs |
| DaemonRuns.VerdictAfterRun | daemon.go:411-498 | So after any run with such a clock the verdict, its age and collection time are exact, with a reason iff stale |
| Readers.NextKeeps | api.go:302-317 | Every step of writer, clock and reader keeps the relation between what was read and the history |
| Readers.RepliesAreHonest | api.go:302-372 | In every interleaving a reply is stale iff no metrics were published within the threshold of its clock reading, has a reason iff stale and the age of what was collected; what it prices is the cost state's; collected_at is never earlier than the served data, equal to its time if nothing fell between, and nothing is priced without a cost state |
| Readers.RefusedMeans | api.go:337-342 | Only /window is ever refused, and only if nothing had been published when it asked |
| Readers.LiveWithoutMetricsIsUnpriced | api.go:337-360 | While nothing was collected the /window fallback shows no device data |
| Readers.LatestFreshGrows | api.go:302-317 | Between two reads the cost state only moves forward in time |
| Readers.CostStateStaysIff | api.go:302-317 | And stays the same iff no metrics-bearing publish falls between |
| Readers.EmptyReplyCanLookFresh | api.go:302-317 | A run in which /cost answers empty, fresh and with a collection time |
| SingleFlight.StepKeepsInv | cmd/agent/main.go:371-422 | Publishes, ticks, spawns and completions keep the slot full iff one investigation runs or starts |
| SingleFlight.SingleFlightAlways | cmd/agent/main.go:371-422 | In every interleaving at most one investigation runs, each window at most once, in order, after its publish |
| SingleFlight.TickOutcome | cmd/agent/main.go:391-412 | A tick starts the window it read iff that is newer and the slot is free, else changes nothing |
| SingleFlight.SkippedWindowIsRetried | cmd/agent/main.go:398-405 | After a busy tick the newest window starts once the slot is drained |
| DcgmCounters.DcgmExporterCollector.ScrapeAllowed | collectors_dcgm.go:169-181 | The gate opens iff not in burst mode, or never opened, or the cap has elapsed, and remembers when |
| DcgmCounters.DcgmExporterCollector.ApplyDbeDelta | collectors_dcgm.go:241-262 | In-place rewriting of known ECC totals as deltas, all else untouched |
| DcgmCounters.DcgmExporterCollector.ApplyLinkErrDelta | collectors_dcgm.go:272-293 | The same for link totals |
| DcgmCounters.DcgmExporterCollector.ApplyDeltas | collectors_dcgm.go:228-229 | The two conversions do not disturb each other |
| DcgmCounters.DeltasConserve | collectors_dcgm.go:241-262 | Over any run a device's deltas sum to last minus first plus all drops |
| DcgmCounters.PositiveDeltaIsARise | collectors_dcgm.go:233-240 | A positive delta iff an earlier reading exists and was lower |
| DcgmCounters.DevicesAreIndependent | collectors_dcgm.go:241-262 | A device's deltas are those its own readings give alone |
| DcgmCounters.DeltasOfTwoScrapes | collectors_dcgm.go:241-262 | Converting scrape by scrape is converting their concatenation |
| DcgmCounters.RateIsCapped | collectors_dcgm.go:169-181 | k accepted scrapes in any span of length T satisfy (k-1) * cap <= T, even if the clock goes back |
| Scrape.ParseDcgmExposition | collectors_dcgm.go:318-432 | One window per device named, ascending, each amounting to its own samples |
| Scrape.AccIsSummary | collectors_dcgm.go:335-413 | The accumulator holds first names, last ratio, last ECC total and the sum of the link counters |
| Scrape.TableOfReadings | collectors_dcgm.go:355-413 | Devices do not mix, and device-less samples are dropped |
| Scrape.KnownOnlyIfSampled | collectors_dcgm.go:394-413 | A counter is known iff a non-negative sample of it exists; peak, price and achieved work never |
| Scrape.CountersReadOnce | collectors_dcgm.go:424-433 | A scrape reads each counter (ECC and link) of a device at most once |
| Scrape.CollectScrape | collectors_dcgm.go:198-231 | A collection is capped and changes no baseline, or yields the windows of its lines with both counters as deltas against the baselines, which move to its readings |
| Scrape.CollectScrapes | collectors_dcgm.go:198-293 | For a new collector and any list of collections: the reported deltas of a device, for both counters, are conserved against the readings of the scrapes let through, which in burst mode are those the gate accepted |
| ScrapeFacts.ScrapeIsExact | collectors_dcgm.go:318-467 | From text to windows, by metric and label names: a window for exactly the devices that a readable line names, holding the last tensor ratio over the window, the last double-bit total, the sum of the three link counters and the first node and model of the device's own samples |
| ScrapeFacts.WindowsAreSaid | collectors_dcgm.go:335-432 | The same from samples to windows |
| ScrapeFacts.ScannedAre | collectors_dcgm.go:448-467 | The samples are those of the lines that are not blank, a comment or malformed, in order |
| EvidenceChain.EccLegMeansRise | normalize.go:226-250 | A published ECC leg under DCGM means that a scrape let through read the device's counter above the latest earlier reading |
| EvidenceChain.LinkLegMeansRise | normalize.go:246-250 | So does a published link leg |
| EvidenceChain.OneObservationReadsOnce | normalize.go:159-189 | A source with one observation per cycle and distinct devices reads each counter once, so its legs are its own |
| EvidenceChain.ReportIsDistinct | collectors_dcgm.go:424-433 | A collection reports each device of its scrape once |
| Scrape.ScanExposition | collectors_dcgm.go:448-467 | Blank, comment and malformed lines contribute nothing, the others their sample, in order |
| Scrape.ExpositionRoundTrip | collectors_dcgm.go:448-467 | Scanning a printed exposition gives back its samples |
| BoundedRead.BoundedReadStream | collectors_kmsg.go:122-207 | Terminates for any reader once the clock passes the deadline; exact bytes, cap, exclusive flags with their meaning, no Read after the end |
| BoundedRead.BoundedReadToReader | collectors_kmsg.go:215-221 | A nil stream stays nil; otherwise the partial bytes are kept |
| BoundedRead.RoomOfARead | collectors_kmsg.go:62-69 | A Read is given all that is left of the allowance, or a chunk if that is less; the three defaults |
| BoundedRead.SilentDrain | collectors_kmsg.go:109-121 | A reader that answers nothing for ever is drained in bounded time, empty, and ended by the deadline or the kill-switch |
| BoundedRead.DeliveredGrows | collectors_kmsg.go:187-190 | More Reads only append |
| KmsgRecords.ParseKmsgXid | collectors_logs.go:125-180 | The streaming fold equals the declarative split into headers with their continuations; it gives one event per non-empty matching record, in order and no other, with the match's number, device and severity, the given time and the trimmed record |
| KmsgRecords.RecordsByLine | collectors_logs.go:155-189 | A line that begins with a blank or a tab lengthens the last record, or is lost if there is none; any other begins a record |
| KmsgRecords.LinesAreCutAtNewlines | collectors_logs.go:155-156 | Lines end at a newline, less one carriage return; an unfinished last line counts |
| KmsgRecords.RecordsConcat | collectors_logs.go:125-180 | Parsing is a homomorphism when the second part starts with a header |
| KmsgRecords.RecordsContinue | collectors_logs.go:155-170 | Later lines only lengthen the last record or add records |
| KmsgRecords.TruncatedRecordsAreStable | collectors_kmsg.go:122-207 | Cut at any byte, all records but the last are records of the whole stream |
| KmsgRecords.TruncatedEventsAreStable | collectors_logs.go:125-180 | Only the events of the final record can differ, at most one |
| KmsgRecords.EventsOfTwoLogs | collectors_logs.go:125-180 | Two complete logs yield together what they yield apart |
| KmsgRecords.CollectKmsg | collectors_logs.go:68-99 | However the drain ended, the events are exactly those of the records drained, and all but the last record's are events of the stream |
| Exposition.SplitLabels | collectors_dcgm.go:524-549 | The byte loop splits at commas outside quotes |
| Exposition.SplitThenJoin | collectors_dcgm.go:524-549 | Joining the parts restores any text up to one trailing comma outside quotes |
| Exposition.ParseLabels | collectors_dcgm.go:507-521 | The map of the parts, later ones winning |
| Exposition.LabelsRoundTrip | collectors_dcgm.go:507-521 | Printed labels are read back, commas, equals signs and spaces in values included |
| Exposition.ParseExpositionLine | collectors_dcgm.go:470-503 | Name, labels and value of a line, or rejection |
| Exposition.LineRoundTrip | collectors_dcgm.go:470-503 | A printed line is read back, with or without a timestamp |
| Exposition.BareLineRoundTrip | collectors_dcgm.go:480-488 | The same for a sample without labels |
| ScrapeFacts.BracedLineReads | collectors_dcgm.go:470-503 | Any line with braces: name before, labels between, value the first field after; malformed iff there is none or it is no number |
| ScrapeFacts.UnclosedLineFails | collectors_dcgm.go:474-480 | A brace that is not closed makes a line malformed |
| ScrapeFacts.BareLineReads | collectors_dcgm.go:484-502 | Any line without braces: its first two fields, malformed if there are fewer or the second is no number |
| ScrapeFacts.PartsAreLabels | collectors_dcgm.go:509-519 | Any part of a label list: passed over without an equals sign, else a trimmed key and a trimmed value less one quote at either end |
| LabelValues.ValuesReadBackIff | collectors_dcgm.go:470-549 | Labels printed as they are come back, all of them, iff no value has a closing brace, each comma follows an even number of its value's quotes, and every value but the last has an even number of quotes |
| LabelValues.EscapedReadBackIff | collectors_dcgm.go:470-549 | Labels written with the format's escapes come back, all of them, iff no value has a backslash, quote, newline or closing brace |
| LabelValues.EscapedValueReadBackIff | collectors_dcgm.go:470-549 | The same for a line of one label |
| LabelValues.LabelsDenoteIff | collectors_dcgm.go:507-549 | Whatever the values, a printed list is read as a list of the same keys, commas and braces only if it splits at its own labels and the lists are equal |
| LabelValues.SplitsAtPairsIff | collectors_dcgm.go:524-549 | A printed list splits at its own labels iff its quotes are so placed |
| LabelValues.BraceSpoilsLine | collectors_dcgm.go:473-481 | One value with a closing brace spoils the line for its neighbours |
| LabelValues.BraceIsLost | collectors_dcgm.go:473-481 | A value that needs no escape and never comes back |
| LabelValues.QuoteIsLost | collectors_dcgm.go:515-518 | A quote comes back with its backslash |
| Directives.ValidatedIsSafe | internal/directive/validate.go:33-61 | What passes names a catalog capability of an enabled tier within every cap and differs in its budget only; a refusal has one of four causes |
| Directives.ClampIsLargestPermitted | internal/directive/validate.go:105-110 | The grant is the largest that neither the cap nor a non-zero request forbids |
| Directives.ClampDurationIsLargestPermitted | internal/directive/validate.go:93-101 | The same for durations, where a missing cap leaves the request |
| Directives.ClampBudgetLaws | internal/directive/validate.go:66-101 | A grant is within the cap and stable, and equals the request iff each field equals its cap or is positive and within it |
| Directives.GrantIsExact | internal/directive/validate.go:66-110 | Field by field the grant is the largest permitted; no request gets the cap, no cap grants nothing |
| Directives.ValidatedUnchangedIff | internal/directive/validate.go:33-88 | A directive passes unchanged iff it is known, enabled and every field of its budget is so |
| Directives.SafeCanChange | internal/directive/validate.go:33-110 | Under the default consent: a small request that passes unchanged, and a safe one that does not |
| Directives.ValidateIsIdempotent | internal/directive/validate.go:33-61 | A validated directive passes again unchanged |
| Directives.FindMeans | internal/capability/catalog.go:94-101 | The lookup finds a capability of that id iff there is one |
| Directives.Tier0NeverPrivileged | cmd/agent/main.go:359-361 | Under the default consent the privileged observer is never safe to execute |
| Directives.SafeIsBounded | internal/capability/catalog.go:29-81 | What is safe on the agent's own catalog is one of four observers within its own ceilings, in numbers, and of a tier the operator enabled |
| Investigate.Client.ExecuteDirectives | internal/investigate/client.go:140-173 | Appends exactly what executing the passing directives yields and counts it |
| Investigate.RanAreTheVetted | internal/investigate/client.go:142-158 | Executed are exactly the directives that pass, in the server's order |
| Investigate.VetAllMeans | internal/investigate/client.go:142-158 | Vetted are those that validation passes, in order, each as validation grants it |
| Investigate.Client.Drive | internal/investigate/client.go:95-135 | Posts, executions, verdict and error are one function of server and executor |
| Investigate.Client.Investigate | internal/investigate/client.go:95-135 | The caller's pack is not written, and what is posted, executed and returned keeps the five promises below |
| Investigate.InvestigateOnce | internal/investigate/client.go:95-135 | So for a new client on the agent's own catalog, whatever its consent, server and executor |
| Investigate.EscalationGoesInRounds | internal/investigate/client.go:101-173 | Each round executes the vetted directives of its ABSTAIN; the next post is the last one followed by exactly the non-nil entries of that round's successful executions, in order, and at least one; without a next post nothing was asked, nothing came of it, or no round was left |
| Investigate.NothingBroughtIff | internal/investigate/client.go:154-171 | A round adds nothing iff each of its executions failed or gave only nil entries |
| Investigate.PostsAreBoundedAndGrow | internal/investigate/client.go:101-134 | At most three posts, the first the caller's timeline, each later one a strict extension |
| Investigate.ExecutedAreSafe | internal/investigate/client.go:142-158 | Whatever the server sends, every executed directive is in the catalog, enabled and within its caps |
| Investigate.VerdictsAreHonest | internal/investigate/client.go:88-134 | An error-free verdict is the last answer's; with an error comes nothing, or the ABSTAIN of the round before |
| Investigate.StopsOnlyWhenSpent | internal/investigate/client.go:115-134 | An error-free ABSTAIN means nothing was asked, asking brought nothing, or the rounds are used up |

## Left out

- HTTP, JSON, protojson, files, sysfs, sockets, flags, environment, signing: represented by the observations, bytes or answers they yield.
- The semantics and registry libraries (device and job wedges, mapping resolution, fault gate): uninterpreted functions; nothing is proved about their results.
- `internal/reflow`, the proc, Prometheus and NCCL collectors and the mocks: single-branch reads or network code.
- Floating point: reals, so rounding, NaN, infinities and the conversion of huge values to integers are not modelled; counters are unbounded, so 64-bit wrap-around is not.
- `ParseFloat` and the XID regular expressions: abstract functions of a token or a record; kmsg severity is part of the latter.
- Scanner line-length limits; lower-casing of non-ASCII letters in model names.
- Exposition text is a sequence of code points (its bytes are assumed to be valid UTF-8); kernel logs are bytes.
- Messages are values: deep copies by `proto.Clone` and aliasing of messages are not modelled; a pack under investigation is a timeline behind a pointer.
- Timeline labels and wording of reasons and provenance: a reason is only empty or not; the chain's and the fill wrappers' provenance is a record of who answered and what was supplied; the sorted list of filled devices is a multiset.
- The raw profiling series of a scrape and their order: carried, not interpreted; `Scrape` models the device windows.
- The window metadata and verdict blocks of `/window`: `Readers` models its cost block.
- `killCell`: the kill-switch is an oracle polled by the drain.
- The numbers of the signal sources are the model's own; only their distinctness and the zero value matter.
- Formatting of the window length in provenance is an abstract function; clock readings are milliseconds.
- Scheduling fairness and wall-clock liveness: safety and bounded termination only.
- Spec.SpecFill: windows are a sequence replaced element by element, so aliasing of the slice with its collector is not captured.
- Peaks.TableFill: the same.
- Chain.MergeWindows: the same.
- DcgmCounters.RateIsCapped: requires that no accepted clock reading is the zero time, which the gate reads as "never".
