# DIAMetric core, modelled in Dafny

DIAMetric reads the mzML file of each data-independent-acquisition (DIA)
LC-MS/MS run. It keeps one record per MS/MS scan and groups the records into
isolation windows. An isolation window is one (FAIMS compensation voltage,
isolation target m/z) pair. For each window it computes statistics, and it
folds those into run-level minimum/maximum trackers. This project models that
core, all of it in `DIAMetric.cs`, as imperative Dafny. Each operation is
proved against a specification function, and the properties DIAMetric relies
on are proved about those functions.

Files, one module each:

- `basics.dfy`: option values, the +infinity sentinel of the minimum
  trackers, the NaN of a 0/0 average, and C#'s truncating integer division.
- `scans.dfy`: the scan record (`ScanMetrics`) and the window key
  `(FAIMScompVoltage, IsolationTarget)`. Also `ComesBefore`, and the
  sentinel-headed scan list as a class. Its excision method splices one
  window out of the list.
- `partition.dfy`: what repeated excision does to a whole list. It gives one
  group per distinct key, in order of first appearance, losing no scan.
- `orderstats.dfy`: the first-crossing percentile of a running sum, an
  in-place sort of an `array<real>`, and floor-index quartiles.
- `windows.dfy`: the statistics of one window (`SWATHMetrics`): the two
  passes over its scans, the two sorts, and the cycle-time median.
- `trackers.dfy`: the run's min/max trackers, the sum of the per-window
  cycle-time medians, and their average.
- `histogram.dfy`: `QuartilesOf` over the peak-count histogram.
- `scannumbers.dfy`: `String.Split`, `int.Parse`, and the scan number read
  from a vendor native identifier.
- `mzml.dfy`: the mzML reader as a state machine over the document's nodes.
- `experiment.dfy`: the run (`LCMSMSExperiment`) as a class. It holds
  `ReadFromMZML`, `ComputeMetricsForSwaths`, `ParseScanNumbers`, `GoToScan`,
  and the search `Find` over runs.

The scan list and the window list are `seq` fields of the classes that own
them, and the methods reassign them. The peak-count histogram is an
`array<int>`, and the peak counts and cycle times are sorted in
`array<real>`s, as in the source. Floating-point quantities are exact reals.

`DIAMetric.cs` counts MS1 spectra (mzMLMS1Count, DIAMetric.cs:451-455) but
computes no MS1 statistics, so the model has none either.

## Model

| member | source | states |
|---|---|---|
| Scans.ComesBeforeContainsLexicographic | DIAMetric.cs:146-161 | ComesBefore holds wherever the lexicographic order on (FAIMS voltage, isolation target, start time) holds, and it never holds of a scan and itself |
| Scans.ComesBeforeNotAsymmetric | DIAMetric.cs:146-161 | ComesBefore is true as soon as any one field is smaller, so two scans can each come before the other: it is not a strict order |
| Scans.ExcisionIsStablePartition | DIAMetric.cs:109-139 | the list is an order-preserving merge of the scans of window k and the remaining scans, so their multisets add up to the list's, and so do their lengths: nothing lost, nothing duplicated |
| Scans.ExcisionKeepsFirst | DIAMetric.cs:112-115 | the window of the first scan is non-empty and starts with that scan, and what remains is strictly shorter |
| Scans.WithKeyAfterRemoval | DIAMetric.cs:120-134 | removing window k leaves the scans of every other window exactly as they were |
| Scans.WithKeyNonEmpty | DIAMetric.cs:120-134 | a window's scan list is non-empty exactly when some scan carries its key |
| Scans.ScanList.constructor | DIAMetric.cs:213 | a new list is a sentinel header with default fields and no scans |
| Scans.ScanList.Append | DIAMetric.cs:127-130 | the node moved to the excised list becomes its last node |
| Scans.ScanList.Unlink | DIAMetric.cs:129 | bypassing the node after the runner drops exactly that scan and keeps the rest in order |
| Scans.ScanList.SetRecord | DIAMetric.cs:425-446 | writing through the runner replaces exactly the record at its position (the header at position 0) |
| Scans.ScanList.LinkAfter | DIAMetric.cs:473-474 | the new node replaces whatever followed the runner's position |
| Scans.ScanList.ExciseAllAtFirstIsolationTarget | DIAMetric.cs:109-139 | null exactly when no scan follows the header. Otherwise a fresh list with a default header holding exactly the scans with the first scan's key, in order; this list keeps exactly the other scans, in order |
| Partition.GroupsAreWindows | DIAMetric.cs:225-293 | the i-th group that repeated excision takes is non-empty and is exactly the scans of the i-th window key, in list order |
| Partition.DistinctWindows | DIAMetric.cs:225-293 | the window keys taken are pairwise distinct and are exactly the keys present, so there are as many groups as distinct (FAIMS, target) pairs |
| Partition.WindowsInFirstAppearanceOrder | DIAMetric.cs:225-293 | the groups come in the order in which their keys first appear in the list |
| Partition.GroupsArePermutation | DIAMetric.cs:225-293 | the concatenated groups are a permutation of the list |
| OrderStatistics.CrossingBeforeIsLast | DIAMetric.cs:268-273 | the tracker updated scan by scan holds the last scan at which the running sum crosses t, or is unset when there is no crossing |
| OrderStatistics.CrossingExactlyOnce | DIAMetric.cs:268-273 | with non-negative weights, t is crossed iff 0 < t <= total; the crossing is unique, and it is the first element at which the inclusive running sum reaches t |
| OrderStatistics.CrossingMonotone | DIAMetric.cs:257-273 | a larger threshold is never crossed earlier |
| OrderStatistics.CrossingHasWeight | DIAMetric.cs:268-273 | an element at which the running sum crosses a threshold carries positive weight |
| OrderStatistics.PrefixSumMonotone | DIAMetric.cs:249 | with non-negative weights the running sum never decreases |
| OrderStatistics.SortSeqSorted | DIAMetric.cs:282 | the ascending rearrangement is sorted and a permutation of its input |
| OrderStatistics.SortedUnique | DIAMetric.cs:282 | a multiset has exactly one ascending arrangement, so any sort leaves the same array |
| OrderStatistics.SinkInto | DIAMetric.cs:282 | one insertion step leaves the prefix up to i sorted and the array a permutation of what it was |
| OrderStatistics.SwapDown | DIAMetric.cs:282 | exchanging two adjacent elements changes nothing else and keeps the multiset |
| OrderStatistics.SortInPlace | DIAMetric.cs:282 | Array.Sort leaves exactly the ascending rearrangement of the old contents |
| OrderStatistics.QuartileIndicesInRange | DIAMetric.cs:283-286 | for every n >= 1 the indices n/4, n/2, n/4 + n/2 and n - 1 are within an array of n elements, in ascending order |
| OrderStatistics.SortedLastIsMax | DIAMetric.cs:286 | the last sorted element is one of the elements and at least every one of them |
| OrderStatistics.RunningMaxBounds | DIAMetric.cs:250 | the running maximum from 0 is 0 or an element, and at least every element |
| OrderStatistics.RunningMaxIsSortedLast | DIAMetric.cs:250-286 | for non-negative counts, the running maximum of the first pass equals the last element after sorting |
| Windows.RTSoFarStep | DIAMetric.cs:269-273 | one scan moves the running TIC forward by its TIC, and each percentile tracker follows the source's update rule |
| Windows.FirstPass | DIAMetric.cs:245-252 | the count is the window size, HiRT is the last start time, the TIC sum is the sum of the TICs, and the peak-count maximum is the running maximum |
| Windows.RecordScan | DIAMetric.cs:274-277 | scan i's peak count goes to slot i; from the second scan on, its gap from the previous start time goes to slot i - 1; no other slot changes |
| Windows.SecondPass | DIAMetric.cs:256-279 | fresh, distinct arrays holding exactly the peak counts and the consecutive start-time gaps; each TIC percentile time is the start time of the last scan crossing its threshold, 0 if none |
| Windows.PeakCountQuartiles | DIAMetric.cs:282-286 | the array is left sorted, and the four values are read at floor indices n/4, n/2, n/4 + n/2 and n - 1 |
| Windows.MedianCycleTime | DIAMetric.cs:289-291 | the array is left sorted, and the median is 60 times its middle element (corrected index) |
| Windows.SortedStatistics | DIAMetric.cs:282-291 | both arrays end sorted; the peak-count quartiles and the cycle-time median are read off them |
| Windows.ComputeWindow | DIAMetric.cs:234-291 | the record computed for a window of at least two scans is WindowOf(g) |
| Windows.WindowBasicFields | DIAMetric.cs:235-253 | MSMSCount is the window size; LoRT/HiRT are the first/last start times; TotalTIC is the TIC sum; LoMZ and HiMZ are the first scan's target minus its lower offset and plus its upper offset; WidthMZ is their difference; FAIMS is the first scan's |
| Windows.TicPercentileSetOnce | DIAMetric.cs:257-273 | with non-negative TICs and a threshold in (0, total], exactly one scan crosses it, and the recorded time is that scan's start time: the first scan whose inclusive running TIC reaches the threshold |
| Windows.TicPercentileUnset | DIAMetric.cs:257-273 | a threshold outside (0, total] leaves the recorded time at 0 |
| Windows.ZeroTicWindow | DIAMetric.cs:257-273 | a window whose TIC total is 0 keeps all three TIC percentile times at 0 |
| Windows.TicPercentilesOrdered | DIAMetric.cs:257-273 | with ascending start times and non-negative TICs: TIC25ileRT <= TIC50ileRT <= TIC75ileRT |
| Windows.PeakCountStatistics | DIAMetric.cs:250-286 | PkCount25ile <= PkCount50ile <= PkCount75ile <= PkCountMax. PkCountMax is one of the peak counts and at least every one of them, and for non-negative counts it equals the running maximum |
| Windows.MedianIndexBalanced | DIAMetric.cs:289-291 | the corrected index m/2 lies inside m >= 1 sorted gaps, with as many elements before it as after it, give or take one |
| Windows.CycleTimeIndexAsWrittenInRange | DIAMetric.cs:264-291 | the index n/2 as written lies inside the n - 1 gaps exactly when the window has at least three scans |
| Windows.CycleTimeIndexAsWrittenMissesMedian | DIAMetric.cs:289-291 | start times 0, 1, 2, 4 give sorted gaps 1, 1, 2. The index as written reads 2 (120 seconds); the median is 1 (60 seconds), which the model computes |
| Histogram.CountAsReal | DIAMetric.cs:564 | the integer running count equals the running sum of the bin weights |
| Histogram.ExpandLength | DIAMetric.cs:555-565 | with non-negative bins there are as many recorded values as the histogram's total |
| Histogram.ExpandAscending | DIAMetric.cs:555-565 | the recorded values come out in ascending order, each a valid bin index |
| Histogram.FirstOccupiedIsSmallest | DIAMetric.cs:555-561 | the first occupied bin exists iff something is recorded, and then it is the smallest recorded value |
| Histogram.LastOccupiedIsLargest | DIAMetric.cs:562-563 | the last occupied bin exists iff something is recorded, and then it is the largest recorded value |
| Histogram.FirstOccupiedAtMost | DIAMetric.cs:555-561 | the first occupied bin exists and comes no later than any bin with a positive count |
| Histogram.LastOccupiedAtLeast | DIAMetric.cs:562-563 | the last occupied bin exists and comes no earlier than any bin with a positive count |
| Histogram.CrossingIsOrderStatistic | DIAMetric.cs:570-580 | the bin at which the running count crosses t, for 1 <= t <= total, holds the t-th smallest recorded value |
| Histogram.QuartileBinsAreOrderStatistics | DIAMetric.cs:549-582 | with non-negative bins the five results are the smallest and largest recorded values and, for each truncated threshold c (a quarter, a half, their sum), the c-th smallest value, or 0 when c is 0 |
| Histogram.QuartileBinsOrdered | DIAMetric.cs:549-582 | with at least four recorded values the five results are ascending |
| Histogram.EmptyHistogramBins | DIAMetric.cs:549-582 | with nothing recorded all five results stay 0 |
| Histogram.OccupiedRange | DIAMetric.cs:555-565 | the first loop yields the first and the last occupied bin (0 when none) and the total count |
| Histogram.CrossingBins | DIAMetric.cs:569-580 | the second loop yields, for each threshold, the last bin at which the running count crosses it (0 when none) |
| Histogram.QuartilesOf | DIAMetric.cs:549-582 | a fresh five-element array holding QuartileBins of the histogram |
| Basics.TruncDiv | DIAMetric.cs:566-567 | C# integer division: the remainder takes the sign of the dividend and is smaller than the divisor |
| Trackers.AverageOf | DIAMetric.cs:295 | the average is NaN exactly when there is no window |
| Trackers.AverageTimesCount | DIAMetric.cs:295 | with at least one window, the average times the window count gives back the sum |
| Trackers.AbsorbBrackets | DIAMetric.cs:240-288 | after absorbing a window, each tracker bounds that window's value on its side |
| Trackers.AbsorbKeepsBrackets | DIAMetric.cs:240-288 | absorbing another window only widens the bounds |
| Trackers.FoldKeepsBrackets | DIAMetric.cs:240-288 | a bracketed window stays bracketed however many windows follow |
| Trackers.FoldBracketsAll | DIAMetric.cs:240-288 | after the loop every window lies within the run's trackers: LoMZRange <= LoMZ, HiMZ <= HiMZRange, narrowest <= width <= widest, and likewise for cycle counts, TIC50ile retention times, total TICs and median peak counts |
| Trackers.FoldMaxAttained | DIAMetric.cs:240-288 | each of the six maximum trackers (HiMZRange, SWATHWidest, SWATHCycleCountMax, TIC50ileRTMax, TotalTICMax, PkCount50ileMax) ends at its initial value or at some window's value; with FoldBracketsAll it is the largest of them |
| Trackers.FoldMinAttained | DIAMetric.cs:240-288 | each of the six minimum trackers (LoMZRange, SWATHNarrowest, SWATHCycleCountMin, TIC50ileRTMin, TotalTICMin, PkCount50ileMin) ends at its initial value or at some window's value; with FoldBracketsAll it is the least of them |
| Trackers.FoldMinFinite | DIAMetric.cs:240-288 | after at least one window, no floating-point minimum tracker is still +infinity |
| Trackers.FoldExtremaSnoc | DIAMetric.cs:240-288 | the trackers after one more window are those before it, absorbing it |
| Trackers.TrackersSnoc | DIAMetric.cs:240-292 | one more window: the trackers absorb it, and the sum of medians grows by its median |
| ScanNumbers.JoinSplit | DIAMetric.cs:524 | joining the parts of Split with the separator gives the string back |
| ScanNumbers.SplitPartsClean | DIAMetric.cs:524 | no part of Split contains the separator |
| ScanNumbers.SplitJoin | DIAMetric.cs:524-527 | parts without the separator are recovered by splitting their join |
| ScanNumbers.ParseInt | DIAMetric.cs:530 | a parse that succeeds yields a value within the range of int |
| ScanNumbers.ParseShowInt | DIAMetric.cs:530 | every int prints to a string that int.Parse reads back as that int |
| ScanNumbers.LastMatchWins | DIAMetric.cs:524-532 | a reading that does not throw yields the value of the last token with a cycle/scan/scanStart key, or the number the record held when there is none |
| ScanNumbers.SkipToken | DIAMetric.cs:528 | a token without a scan-number key leaves the number alone |
| ScanNumbers.TakeToken | DIAMetric.cs:528-531 | a token carrying a scan number replaces the current one |
| ScanNumbers.ThermoExample | DIAMetric.cs:519 | `controllerType=0 controllerNumber=1 scan=12` gives 12 |
| ScanNumbers.SciexExample | DIAMetric.cs:520 | `sample=1 period=1 cycle=806 experiment=2` gives 806 |
| ScanNumbers.BrukerExample | DIAMetric.cs:523 | `merged=102 frame=13 scanStart=810 scanEnd=834` gives 810 |
| ScanNumbers.ReadScanNumber | DIAMetric.cs:524-532 | the token loop computes ScanNumberOf: the last matching number, and false where a key without '=' or an unparsable value throws |
| ScanNumbers.NumberScansOnlyNumbers | DIAMetric.cs:516-534 | the pass changes nothing in any record but its scan number |
| ScanNumbers.NumberScansComplete | DIAMetric.cs:516-534 | without an exception every record holds the number read from its own identifier |
| ScanNumbers.NumberScansStopsAtThrow | DIAMetric.cs:516-534 | the pass throws exactly when some identifier does. The records up to and including the first such one are renumbered, and later records are untouched |
| ScanNumbers.NumberScansRenumbers | DIAMetric.cs:516-534 | the result is the list with all records renumbered, or with exactly those up to the first throwing one renumbered |
| ScanNumbers.RenumberedStep | DIAMetric.cs:530 | renumbering one more record in place extends the renumbered prefix |
| ScanNumbers.FirstThrow | DIAMetric.cs:524-532 | the first record whose identifier throws: every earlier one reads without an exception |
| Mzml.WithCurrent | DIAMetric.cs:425-446 | a value written through the runner lands in the runner's record |
| Mzml.SetDecimal | DIAMetric.cs:421-447 | a decimal parameter does not move the runner, link a record, count an MS/MS or touch the histogram |
| Mzml.Step | DIAMetric.cs:354-485 | one node keeps the runner within the list and the histogram's size |
| Mzml.Run | DIAMetric.cs:352-486 | reading the nodes in order keeps the runner within the list and the histogram's size |
| Mzml.MsLevelCounts | DIAMetric.cs:448-482 | an MS level links a record exactly when it counts an MS/MS spectrum, and adds one histogram entry for each MS/MS spectrum counted |
| Mzml.StepCounts | DIAMetric.cs:354-485 | each node keeps the runner on the last record and keeps (records - MS/MS count) and, unless it throws, (histogram total - MS/MS count) unchanged, with non-negative bins |
| Mzml.RunCounts | DIAMetric.cs:352-486 | over a pass started at the last record the runner stays on the last record, (records - MS/MS count) is unchanged and, unless it throws, so is (histogram total - MS/MS count), with non-negative bins: every MS/MS spectrum counted links one record and adds one histogram entry |
| Mzml.SetDecimalBoundsStartTimes | DIAMetric.cs:421-427 | a decimal parameter never lowers MaxScanStartTime and keeps every record's start time at or below it |
| Mzml.StepBoundsStartTimes | DIAMetric.cs:421-427 | a node never lowers MaxScanStartTime and keeps every record's start time at or below it |
| Mzml.RunBoundsStartTimes | DIAMetric.cs:352-486 | after a pass, MaxScanStartTime is at least its old value and at least every record's start time |
| Mzml.StepMaxStartTime | DIAMetric.cs:421-427 | only a parsable MS:1000016 value moves MaxScanStartTime, and only upwards to that value |
| Mzml.RunMaxStartTime | DIAMetric.cs:352-486 | a pass without an exception leaves MaxScanStartTime at the largest of its old value and every start time read |
| Mzml.MsnLevelRecorded | DIAMetric.cs:472-480 | with a non-negative peak count and 10001 bins, an MS level other than 1 never throws. It links one record after the runner, carrying the last spectrum's id and peak count and the default window key; it counts one MS/MS spectrum and bumps bin min(count, 10000); the MS1 count is unchanged |
| Mzml.StepCvParam | DIAMetric.cs:381-384 | a cvParam element is handled by the accession switch |
| Mzml.RunOne | DIAMetric.cs:352-486 | reading one node is one step |
| Mzml.RunTwo | DIAMetric.cs:352-486 | reading two nodes is two steps, stopping at an exception |
| Mzml.CvParamMs1 | DIAMetric.cs:451-455 | an MS level of 1 only increments mzMLMS1Count |
| Mzml.CvParamStartTime | DIAMetric.cs:421-427 | a parsable start time is written into the runner's record (into the header before the first MS/MS spectrum) |
| Mzml.Ms1StartTimeLandsOnLastRecord | DIAMetric.cs:421-455 | after MS/MS records exist, the start time of an MS1 spectrum is written into the last MS/MS record |
| Experiments.RepeatsAfterRemoval | DIAMetric.cs:225-293 | removing one window keeps every other window at two scans or more |
| Experiments.FirstWindowStep | DIAMetric.cs:225-293 | the first window excised holds at least two scans, and the list left over is shorter and keeps the property |
| Experiments.SwathsOfGroups | DIAMetric.cs:225-293 | one SwathMetrics per excised group, each the statistics of that group |
| Experiments.SwathPerWindow | DIAMetric.cs:225-293 | one SwathMetrics per distinct (FAIMS, target) pair, in order of first appearance, each the statistics of all that window's scans |
| Experiments.NextWindowAfter | DIAMetric.cs:230-292 | one iteration moves a window from the input to the windows done, keeping count, trackers and sum in step |
| Experiments.PassFromStep | DIAMetric.cs:227-293 | unrolling the loop once over a non-empty list: the first window and what remains |
| Experiments.PassFromFolds | DIAMetric.cs:227-294 | the loop over the scans is the loop body applied to the window statistics in order |
| Experiments.FoldPassAppends | DIAMetric.cs:230-292 | applying the body to more windows appends them to the windows done |
| Experiments.PassResult | DIAMetric.cs:224-294 | from the header with a zero sum, the loop leaves the window list, the count, the trackers and the sum in terms of the windows' statistics |
| Experiments.Experiment.constructor | DIAMetric.cs:188-218 | a new run has the source's field defaults: empty strings, zero counts, sentinel trackers, average 0, an all-zero histogram of 10001 bins and an empty scan list |
| Experiments.Experiment.WriteDecimal | DIAMetric.cs:421-447 | writing a decimal parameter moves the run exactly as SetDecimal says |
| Experiments.Experiment.ReadLevel | DIAMetric.cs:448-482 | an MS level parameter moves the run exactly as ReadMsLevel says |
| Experiments.Experiment.ReadCvParamNode | DIAMetric.cs:381-483 | a cvParam element moves the run exactly as ReadCvParam says |
| Experiments.Experiment.ReadNode | DIAMetric.cs:354-485 | one node moves the run exactly as Step says |
| Experiments.Experiment.ReadFromMZML | DIAMetric.cs:338-487 | the runner restarts at the header; the fields the reader writes end as Run over the nodes says, up to the first exception; other fields are unchanged |
| Experiments.Experiment.MeasureWindow | DIAMetric.cs:229-293 | one window of the loop: the loop's remaining result is unchanged, and the next window is excised |
| Experiments.Experiment.LinkWindow | DIAMetric.cs:230-292 | the new window's record replaces what followed the runner; count, trackers and sum advance as NextWindow says |
| Experiments.Experiment.MeasureWindows | DIAMetric.cs:222-294 | the scan list is drained. The window list is SwathsOf the old scans (unchanged if there were none); SWATHCount grows by their number; the trackers fold over them; the returned sum is the sum of their medians |
| Experiments.Experiment.ComputeMetricsForSwaths | DIAMetric.cs:220-296 | as MeasureWindows, and MedianCycleTimeAverage is the sum of the medians divided by SWATHCount (NaN when it is 0); other fields are unchanged |
| Experiments.Experiment.ParseScanNumbers | DIAMetric.cs:506-535 | the scan list ends as NumberScans of the old list, and it throws exactly when NumberScans does |
| Experiments.Experiment.GoToScan | DIAMetric.cs:537-547 | the position of the first MS/MS record with the target scan number, or none when no record has it |
| Experiments.Find | DIAMetric.cs:489-504 | null exactly when no run has the basename; otherwise the first run that does |

## Left out

- Program.Main (DIAMetric.cs:12-85): argument handling, directory listing, timers and console output are I/O. The model starts from one run's node sequence and from a list of runs.
- WriteTextQCReport writes TSV and mzQC files, so it is output formatting only. DIAMetric-GUI.cs is a Windows dialog that launches a process.
- BubbleSortScans is never called and prints on every swap. Its loop need not terminate, which is why ComesBefore is modelled only as a predicate, with the lemma that it is not a strict order. Stringify and the amino-acid tables are unused.
- XmlReader is modelled as the sequence of nodes it yields. Only element nodes and their attributes are modelled, and a missing attribute (null) assigned to a string field is kept as "".
- Single.Parse and Double.Parse are a parameter of the reader (a function to an optional real). A value they reject, or a missing attribute, ends the reading with `ok` false, where the source throws.
- ScanNumbers.ParseInt: accepts an optional sign and decimal digits within the range of int. The white space, culture-specific signs and other styles that int.Parse also allows are not modelled.
- Floating point: single- and double-precision values are exact reals. Rounding, summation order and NaN keys are not modelled. A NaN key never equals itself in the source.
- Integer overflow: counters (mzMLMS1Count, mzMLMSnCount, SWATHCount, histogram bins, the histogram total in QuartilesOf) are unbounded integers, so a 32-bit wrap-around is not modelled.
- Experiments.Experiment.ComputeMetricsForSwaths: requires every window to hold at least two scans. A window of fewer than three scans makes the source throw at DIAMetric.cs:291; the model accepts two-scan windows and computes their median, and it does not model the exception. Its MedianCycleTimeAverage averages the corrected medians (see Findings).
- Windows.MedianCycleTime: reads the sorted gaps at the corrected index (n-1)/2, not at n/2 as written at DIAMetric.cs:291 (see Findings).
- Windows.SortedStatistics: returns the median at the corrected index, as MedianCycleTime does.
- Windows.ComputeWindow: its CycleTimeMedian field is taken at the corrected index, so a two-scan window gets a median where the source throws.
- Experiments.Experiment.MeasureWindows: the window records it links (SwathsOf) and the sum of medians it returns carry the corrected medians, and two-scan windows return normally where the source throws.
- Scan list and window list: these linked lists are `seq` fields, so node identity and aliasing between nodes are not modelled. The excised window is a fresh ScanList. Windows.ComputeWindow and the window list read its scans as a sequence.
- The run-level tracker fields are grouped in one RunExtrema value. The float minimum trackers start at an explicit +infinity.
- Experiments.Find: runs are a sequence of Experiment objects after the list's head, rather than a Next chain.
- Experiments.Experiment.GoToScan: returns the position of the record in the scan list rather than a reference to the node.
- Peak counts: the source sorts them as `int[]`; the model sorts them as reals, which has the same order and values. Array.Sort is modelled by an insertion sort, and any correct sort leaves the same array (SortedUnique).
- Experiments.Experiment.ParseScanNumbers: a spectrum without an `id` attribute leaves NativeID null in the source, and ParseScanNumbers then throws a NullReferenceException at DIAMetric.cs:524. The model stores "" instead, which splits into one token without a key, so that record keeps its number and the pass does not throw.
- Mzml.RunCounts: relates the histogram to the records only through totals. Which bin each record's peak count lands in is proved per step (MsnLevelRecorded), not accumulated over a whole pass.
- MedianCycleTimeAverage: the value 0/0 is the NotANumber case of a datatype rather than an IEEE NaN.

## Findings

| source | as written | input that shows it | evidently intended | confidence | as-written member | corrected member |
|---|---|---|---|---|---|---|
| DIAMetric.cs:291 | `CycleTimes[MSMSCount / 2]` indexes the sorted gaps (there are MSMSCount - 1 of them) with n/2 instead of (n-1)/2. The index is out of range for n = 2, and for even n it reads above the median | a window with start times 0, 1, 2, 4 has sorted gaps 1, 1, 2. As written the median reads 2 (120 s); the median gap is 1 (60 s). Two scans make the index 1 in an array of length 1 | the middle of the n - 1 sorted gaps, index (n-1)/2 | high (not executed) | Windows.CycleTimeIndexAsWrittenMissesMedian | Windows.MedianIndexBalanced |
