# NTag capture-candidate search, modelled in Dafny

NTag looks for neutron-capture candidates in Super-Kamiokande events. For each
event, `NTagEventInfo` does the following:

1. It appends the event's in-gate PMT hits to a raw hit buffer.
   - Each hit is time-aligned with the previous sub-trigger.
   - A hit is dropped if it comes within the dead time of its PMT's last stored time. `Clear` sets every PMT's last time to 0, so an early hit on a PMT with no stored hit in the event is dropped too.
   - A hit is flagged as signal when a signal hit with the same time and PMT exists.
2. It subtracts each hit's time of flight from the prompt vertex and sorts the hits by the result.
3. It scans the sorted hits for clusters of hits within 10 ns (N10).
4. For every accepted peak it emits one candidate, with the candidate's slice of hits.
5. It collects the candidates' feature variables into one column per variable name.

`NTagTMVAVariables` holds the schema of the variables the classifier reads.
`NTagCalculator` provides the hit-window counting helpers the search uses.

The model has one module per part of the program:

- `NTagCalculator` (`calculator.dfy`): the window helpers, as functions over sequences of hit times.
- `HitBuffer` (`hit_buffer.dfy`): the hit-by-hit step of `AppendRawHitInfo` as a function on a buffer value, and the invariant the loop keeps.
- `HitSorting` (`sorting.dfy`):
  - the ToF residuals;
  - the sort permutation, as a stable insertion order;
  - gathering through that order;
  - the reverse index;
  - the hit slices `SavePeakFromHit` takes.
- `PeakSearch` (`peak_search.dfy`): the state machine of `SearchCaptureCandidates` as a function over the sorted times, and what it guarantees about the peaks it emits.
- `CandidateColumns` (`columns.dfy`): feature columns as maps from names to sequences.
- `TMVAVariables` (`tmva_variables.dfy`): `NTagTMVAVariables` as a class whose maps the methods update in place.
- `NTagDefault` (`defaults.dfy`): the default thresholds.
- `EventInfo` (`event_info.dfy`): `NTagEventInfo` as a class.
  - Its vectors are `seq` fields and `vPMTHitTime` is an `array`.
  - Its methods are proved against the specification functions of the modules above: the raw buffer, the sort, the peak search and the columns.

Hit times are reals in nanoseconds. The code compares them with `T0TH` after multiplying by `1.e-3` (microseconds); the model does the same (`PeakSearch.Micro`).

`Clear` sets `firstHitTime_ToF` to `-9999`, but the search records the first hit only while the field is `0`. After a `Clear`, the field therefore never changes (`PeakSearch.FirstHitTimeSticky`). The model keeps this behaviour as written.

`SortToFSubtractedTQ` fills `reverseIndex` with each raw hit's sorted position, the inverse of the map its declaration describes. The class fills it as the code does. Under the model's reading of `SliceVector`, `SavePeakFromHit` therefore reads a peak's raw times at the wrong hits (see Findings). `EventInfo.NTagEventInfo.PeakHitsIntended` states what the declared map would give.

## Model

| member | source | states |
|---|---|---|
| NTagCalculator.GetNhitsFromStartIndex | include/NTagCalculator.hh:41-48 | the count never runs past the end of the vector, is at least 1 for a positive width, and the first hit after the counted run is at or past `T[startIndex] + tWidth` |
| NTagCalculator.StartIndexWindow | include/NTagCalculator.hh:41-48 | every counted hit lies inside the window; on ascending times a hit from `startIndex` on is counted exactly when it lies inside the window |
| NTagCalculator.StartIndexCountIsFilterCount | include/NTagCalculator.hh:41-48 | on ascending times, the run counted from `startIndex` equals the number of later hits earlier than `T[startIndex] + tWidth` |
| NTagCalculator.RunBelowIsFilterCount | include/NTagCalculator.hh:41-48 | on ascending times, the forward run of hits below a limit equals the number of hits of the suffix below that limit |
| NTagCalculator.GetNhitsFromCenterTime | include/NTagCalculator.hh:49-57 | the count of hits within `tWidth/2` of `centerTime` is between 0 and the number of hits |
| NTagCalculator.CountInIsDifference | include/NTagCalculator.hh:49-57 | the hits inside a window are those below its upper edge minus those below its lower edge |
| NTagCalculator.CenterCountMonotone | include/NTagCalculator.hh:49-57 | widening the window around the same centre never lowers the count |
| NTagCalculator.CountInWiden | include/NTagCalculator.hh:49-57 | a window that contains another counts at least as many hits |
| NTagCalculator.GetQSumFromStartIndex | include/NTagCalculator.hh:58-70 | the charge sum is the sum of `Q` over exactly the hits `GetNhitsFromStartIndex` counts |
| HitBuffer.AppendHitCases | src/NTagEventInfo.cc:166-206 | three outcomes per hit: an ineligible hit changes nothing; an eligible hit inside the dead time counts as total and removed and stores nothing; any other eligible hit is appended with its aligned time, charge and PMT and becomes its PMT's last time; when signal hits are loaded it gets flag 1 exactly when it matches a signal hit (else 0), `nFoundSigHits` grows by that flag and `nTotalSigHits` becomes the number of signal hits; the signal counters change in no other case |
| HitBuffer.AppendInvariant | src/NTagEventInfo.cc:146-210 | after any number of hits: the three raw vectors stay aligned and keep their old prefix; signal flags grow with them when loaded; stored PMT ids lie in 0..MAXPM; `vPMTHitTime` holds every PMT's last stored time; each stored hit is at least the dead time from the previous stored hit on its PMT; `nTotalHits` grows by the eligible hits, which are all either stored or counted in `nRemovedHits` |
| HitBuffer.LastStored | src/NTagEventInfo.cc:152-164 | the alignment reference is the last stored time, charge and PMT, or zeros when the buffer is empty |
| HitSorting.SortOrderSortsAndPermutes | src/NTagEventInfo.cc:672 | the sort order is a permutation of the hit indices that lists the keys in ascending order |
| HitSorting.SortedKeysAscendAndPermute | src/NTagEventInfo.cc:656-661 | keys read through the sort order ascend and are the same multiset as the keys |
| HitSorting.ScatterRecords | src/NTagEventInfo.cc:679 | the fill as written records, at each raw index the order lists, the sorted position it was listed at |
| HitSorting.ReverseIndexInvertsOrder | src/NTagEventInfo.cc:679 | for a permutation, the fill as written is its inverse in both directions |
| HitSorting.SortRoundTrip | src/NTagEventInfo.cc:672-679 | reading the sorted series at the position the fill as written records for raw hit j gives back hit j's own key |
| HitSorting.ReorderHits | src/NTagEventInfo.cc:669-680 | the sorted PMT, time and charge vectors are the raw ones read through the order; the reverse index, resized to n zeros and then given `reverse[order[i]] = i` at each sorted position, ends as the inverse of the order: `reverse[order[i]] == i` and `order[reverse[j]] == j` |
| HitSorting.Reorder | src/NTagEventInfo.cc:682-686 | the sorted signal flags are the raw flags read through the order |
| HitSorting.GetVectorFromStartIndex | src/NTagEventInfo.cc:562-563 | the slice from `hitID` has exactly `GetNhitsFromStartIndex` elements, all hits of the sorted series inside the 10 ns window |
| HitSorting.SliceVector | src/NTagEventInfo.cc:566-570 | the slice holds the `n` elements from `start` on, in order |
| HitSorting.RawTimesAsWrittenMismatch | src/NTagEventInfo.cc:565 | with the fill as written, hits at 2, 0 and 1 ns give raw times 1, 2, 0 for a peak whose sorted times are 0, 1, 2 |
| HitSorting.ExampleSortOrder | src/NTagEventInfo.cc:672 | the ascending order of 2, 0, 1 is 1, 2, 0 |
| HitSorting.ExampleScatter | src/NTagEventInfo.cc:679 | the fill as written maps the order 1, 2, 0 to 2, 0, 1 |
| PeakSearch.StepSkips | src/NTagEventInfo.cc:508-518 | a hit before `T0TH` or with N10 outside `[N10TH, N10MX]` leaves the tracked anchor and the emitted peaks unchanged |
| PeakSearch.StepAccepts | src/NTagEventInfo.cc:520-548 | for a qualifying hit, the tracked anchor becomes the next anchor and the previous anchor is emitted exactly when the emission gate holds |
| PeakSearch.AcceptParts | src/NTagEventInfo.cc:524-548 | accepting a hit raises `maxN200` only past `T0TH` and for a larger N200, emits the previous anchor when the gate holds, and moves the anchor; `firstHitTime_ToF` is untouched |
| PeakSearch.SearchIsScanThenFlush | src/NTagEventInfo.cc:496-553 | the search is the scan over all hits followed by the final emission; with no hits the scan changes nothing |
| PeakSearch.DefaultsAreInert | include/NTagEventInfo.hh:67-77 | with the default thresholds, the starting anchor (`t0Previous = -1`, `N10Previous = 0`) can never be emitted |
| PeakSearch.ScanInvariant | src/NTagEventInfo.cc:505-549 | after any prefix of the scan, the tracked anchor is the sentinel or a qualifying hit with its own time, N10 and N200; every emitted peak passed the emission gate; consecutive peaks increase and lie more than `TMINPEAKSEP` apart; the anchor lies after the last peak by more than `TMINPEAKSEP` |
| PeakSearch.AcceptKeepsTracked | src/NTagEventInfo.cc:539-548 | accepting a qualifying hit keeps the anchor a qualifying hit carrying its own time, N10 and N200 |
| PeakSearch.AcceptKeepsPeaks | src/NTagEventInfo.cc:533-536 | an emitted anchor is never the sentinel, and it qualified, had N200 below `N200MX` and lay past `T0TH` |
| PeakSearch.AcceptKeepsOrder | src/NTagEventInfo.cc:533-548 | emission keeps the peaks increasing and separated by more than `TMINPEAKSEP`, and the new anchor after the last peak |
| PeakSearch.EmitKeepsOrder | src/NTagEventInfo.cc:533-540 | emitting the anchor appends a peak later than, and more than `TMINPEAKSEP` after, the previous one |
| PeakSearch.HoldKeepsOrder | src/NTagEventInfo.cc:543-548 | without emission, the new anchor still lies after the last peak by more than `TMINPEAKSEP` |
| PeakSearch.StepKeepsScanOk | src/NTagEventInfo.cc:505-549 | one loop iteration preserves the scan invariant |
| PeakSearch.SearchPeaksQualifyAndSeparate | src/NTagEventInfo.cc:496-553 | every emitted peak is a hit that qualified; all but the last also passed the N200 and `T0TH` gate; consecutive peaks increase and lie more than `TMINPEAKSEP` apart |
| PeakSearch.FlushKeepsOrder | src/NTagEventInfo.cc:550-552 | the final emission keeps every peak qualifying, ordered and separated |
| PeakSearch.ScanPeaksInRange | src/NTagEventInfo.cc:505-549 | the anchor and every emitted peak index a hit already scanned |
| PeakSearch.SearchPeaksInRange | src/NTagEventInfo.cc:550-552 | with hits present or `N10TH >= 1`, every peak handed to `SavePeakFromHit` indexes a real hit |
| PeakSearch.ScanQuietBeforeQualifying | src/NTagEventInfo.cc:498-518 | until the first qualifying hit the anchor stays the sentinel and nothing is emitted |
| PeakSearch.NoQualifyingHitNoPeaks | src/NTagEventInfo.cc:550-552 | with no qualifying hit, or fewer hits than `N10TH`, the search emits no candidate |
| PeakSearch.TrackedAnchorDominates | src/NTagEventInfo.cc:539-548 | every qualifying hit seen after the tracked anchor has N10 no greater than the anchor's and lies within `TMINPEAKSEP` of it |
| PeakSearch.StepMaxN200 | src/NTagEventInfo.cc:525-529 | one iteration never lowers `maxN200`, bounds the hit's N200 when it can raise it, and either keeps `maxN200`/`maxN200Time` or sets them to that hit's N200 and time |
| PeakSearch.MaxN200IsRunningMaximum | src/NTagEventInfo.cc:525-529 | `maxN200` never decreases, bounds the N200 of every qualifying hit past `T0TH`, and is either its starting value or the N200 of such a hit whose time is `maxN200Time` |
| PeakSearch.FirstHitTimeSticky | src/NTagEventInfo.cc:511 | once `firstHitTime_ToF` is non-zero (as after `Clear`), the search never changes it |
| CandidateColumns.Push | src/NTagEventInfo.cc:614-619 | the column names are kept; each column named by the candidate grows by exactly its value, and the others are unchanged |
| CandidateColumns.PushAllNext | src/NTagEventInfo.cc:613-620 | pushing candidates one more at a time is pushing the next candidate onto the columns built so far |
| CandidateColumns.PushAllAppendsColumn | src/NTagEventInfo.cc:611-621 | after all candidates, a column is its old content followed by the candidates' values for that name |
| CandidateColumns.ColumnsFromEmpty | src/NTagEventInfo.cc:597-621 | from fresh empty columns, the j-th entry of every column is candidate j's value |
| CandidateColumns.UniformColumn | src/NTagEventInfo.cc:611-621 | when every candidate has the name, the column has one entry per candidate, in candidate order |
| CandidateColumns.Reset | src/NTagEventInfo.cc:600-607 | the named columns become fresh empty vectors and the others are kept |
| CandidateColumns.PushValues | src/NTagEventInfo.cc:614-619 | the loop over one candidate's variables computes `Push` |
| CandidateColumns.PushEach | src/NTagEventInfo.cc:613-620 | the loop over the candidates computes `PushAll` for both the int and the float columns |
| CandidateColumns.ResetColumns | src/NTagEventInfo.cc:600-607 | the loop over the first candidate's names computes `Reset` |
| TMVAVariables.NTagTMVAVariables.constructor | src/NTagTMVAVariables.cc:9-13 | the schema starts cleared: the int names N10, N200 and N50, and the float names (those three and the 20 float variables), all at zero, each with an empty event vector |
| TMVAVariables.NTagTMVAVariables.Clear | src/NTagTMVAVariables.cc:17-52 | N10, N200 and N50 are set to 0; every int variable gets a fresh event vector and a 0 float mirror; the 20 float names are set to 0.0; every float name gets a fresh event vector; other keys are kept; from a state holding only schema keys the result is the cleared schema |
| TMVAVariables.NTagTMVAVariables.ClearIntVariables | src/NTagTMVAVariables.cc:19-26 | the int part of `Clear` |
| TMVAVariables.NTagTMVAVariables.MirrorIntNames | src/NTagTMVAVariables.cc:23-26 | each int name gets an empty event vector and a 0 float mirror |
| TMVAVariables.NTagTMVAVariables.ClearFloatVariables | src/NTagTMVAVariables.cc:28-51 | the float part of `Clear` |
| TMVAVariables.ClearedFromBounded | src/NTagTMVAVariables.cc:17-52 | clearing a map that holds only schema keys leaves exactly the schema keys, all zero with empty vectors |
| TMVAVariables.NTagTMVAVariables.Keys | src/NTagTMVAVariables.cc:54-63 | the keys are exactly the names of `fVariableMap`, each listed once |
| TMVAVariables.NTagTMVAVariables.BranchNames | src/NTagTMVAVariables.cc:73-95 | the branches are the int event vectors plus the float event vectors not mirrored from an int; on a valid schema each variable is listed exactly once |
| TMVAVariables.NTagTMVAVariables.ReadEntry | src/NTagTMVAVariables.cc:73-83 | the consequence of the addresses bound at 73-83 for a tree read: it replaces the int event vectors and the non-mirrored float event vectors, keeps the mirrored ones, and keeps the schema valid |
| TMVAVariables.NTagTMVAVariables.SetVariablesForCaptureCandidate | src/NTagTMVAVariables.cc:97-109 | every int variable takes candidate i's value; every float variable takes its int mirror's value if it has one, else candidate i's float value |
| TMVAVariables.NTagTMVAVariables.SetIntVariables | src/NTagTMVAVariables.cc:99-101 | the int loop of `SetVariablesForCaptureCandidate` |
| TMVAVariables.NTagTMVAVariables.SetFloatVariables | src/NTagTMVAVariables.cc:103-108 | the float loop of `SetVariablesForCaptureCandidate` |
| TMVAVariables.NTagTMVAVariables.GetNumberOfCandidates | src/NTagTMVAVariables.cc:118-121 | the count is the length of the N10 event vector, and it is 0 on a cleared schema |
| EventInfo.IsSignalHit | src/NTagEventInfo.cc:192-202 | a hit is flagged as signal exactly when some signal hit has the same PMT and a time within 1e-3 ns |
| EventInfo.PeakHits | src/NTagEventInfo.cc:560-570 | a peak's slices have N10 hits (at least one), all within 10 ns of the peak, in sorted order; raw times come through the reverse index; the signal flags are empty when none were loaded |
| EventInfo.PeakCandidates | src/NTagEventInfo.cc:555-558 | one candidate per peak |
| EventInfo.PeakCandidatesAt | src/NTagEventInfo.cc:555-558 | the k-th candidate of a run of peaks is built from the k-th peak and numbered by its position in `vCandidates` |
| EventInfo.PeakCandidatesSnoc | src/NTagEventInfo.cc:555-558 | one more peak appends exactly one candidate |
| EventInfo.SortOrderGivesSortedHits | src/NTagEventInfo.cc:666-687 | reading raw hits through the sort order gives ascending times that permute the residuals, aligned charge, PMT and signal vectors, and a reverse index, filled as written, that inverts the order in both directions |
| EventInfo.NTagEventInfo.constructor | src/NTagEventInfo.cc:29-44 | thresholds take the `NTagDefault` values; the custom vertex is zero; TMVA on, TQ saving off, residuals on, columns not initialised; the raw, sorted and candidate vectors empty; the variable schema is cleared |
| EventInfo.NTagEventInfo.SetN10Limits | include/NTagEventInfo.hh:456 | sets `N10TH` and `N10MX` |
| EventInfo.NTagEventInfo.SetN200Max | include/NTagEventInfo.hh:461 | sets `N200MX` |
| EventInfo.NTagEventInfo.SetT0Limits | include/NTagEventInfo.hh:469 | sets `T0TH` and `T0MX` |
| EventInfo.NTagEventInfo.SetDistanceCut | include/NTagEventInfo.hh:475 | sets `VTXSRCRANGE` |
| EventInfo.NTagEventInfo.SetTMatchWindow | include/NTagEventInfo.hh:481 | sets `TMATCHWINDOW` |
| EventInfo.NTagEventInfo.SetTPeakSeparation | include/NTagEventInfo.hh:487 | sets `TMINPEAKSEP` |
| EventInfo.NTagEventInfo.SetMaxODHitThreshold | include/NTagEventInfo.hh:493 | sets `ODHITMX` |
| EventInfo.NTagEventInfo.SetVertexMode | include/NTagEventInfo.hh:499 | sets the vertex mode |
| EventInfo.NTagEventInfo.UseTMVA | include/NTagEventInfo.hh:504 | sets the TMVA switch |
| EventInfo.NTagEventInfo.SetCustomVertex | include/NTagEventInfo.hh:512-513 | sets the custom vertex and switches the mode to custom |
| EventInfo.NTagEventInfo.SetSaveTQAs | include/NTagEventInfo.hh:518 | sets the TQ-saving switch |
| EventInfo.NTagEventInfo.IsRawHitVectorEmpty | include/NTagEventInfo.hh:445 | true exactly when `vTISKZ` is empty, and so exactly when `nqiskz` is 0 on an aligned buffer |
| EventInfo.NTagEventInfo.SetPromptVertex | src/NTagEventInfo.cc:76-109 | the custom mode copies the custom vertex; the fitted modes take the fitted vertex; the muon mode keeps the vertex; `dWall` is the wall distance of the resulting vertex |
| EventInfo.NTagEventInfo.AppendRawHitInfo | src/NTagEventInfo.cc:146-210 | the buffer after the call is the hit-by-hit step applied to every hit, starting from the current buffer and aligning with its last hit; the loop keeps the append invariant; `nqiskz` is the new length of `vTISKZ` |
| EventInfo.NTagEventInfo.AppendHits | src/NTagEventInfo.cc:166-207 | the loop computes the hit-by-hit fold |
| EventInfo.NTagEventInfo.AppendOneHit | src/NTagEventInfo.cc:168-206 | one iteration performs one step of the fold |
| EventInfo.NTagEventInfo.GetToFSubtracted | src/NTagEventInfo.cc:642-664 | without sorting, the result is each hit time minus the time of flight to its PMT; with sorting, it is those residuals in ascending order, a permutation of them |
| EventInfo.NTagEventInfo.SetToFSubtractedTQ | src/NTagEventInfo.cc:212-223 | the unsorted residuals are the ToF-subtracted raw times (or the raw times when residuals are off), one per hit; the sorted vectors are then filled as `SortToFSubtractedTQ` does |
| EventInfo.NTagEventInfo.SortToFSubtractedTQ | src/NTagEventInfo.cc:666-687 | appends the hits read through the sort order: times ascending, charge, PMT and signal flags aligned with them; `reverseIndex` holds each raw hit's sorted position, `reverseIndex[sortedIndex[i]] == i`; from empty sorted vectors the sorted hits are ready for the search |
| EventInfo.NTagEventInfo.SortedReadyIsSized | src/NTagEventInfo.cc:666-687 | after sorting, the sorted vectors and the reverse index have one entry per raw hit |
| EventInfo.NTagEventInfo.PeakHitsOfSortedHits | src/NTagEventInfo.cc:560-570 | the residuals, charges, PMTs and flags of the peak at `hitID` are those of the raw hits the sort placed at positions `hitID` on; its raw time k is read at the index that is the sorted position of raw hit `hitID + k`; the window closes at the first hit 10 ns or more after the peak |
| EventInfo.NTagEventInfo.PeakHitsIntended | src/NTagEventInfo.cc:565 | read through the sorted-to-raw map the declaration describes, raw time k and residual k belong to the same raw hit, and without ToF subtraction a peak's raw and residual times are equal |
| EventInfo.NTagEventInfo.SavePeakFromHit | src/NTagEventInfo.cc:555-584 | appends one candidate, numbered by its position and built from the peak's slices; pushes those slices onto the four per-candidate hit vectors; increments `nCandidates` |
| EventInfo.NTagEventInfo.SearchCaptureCandidates | src/NTagEventInfo.cc:496-553 | the candidates appended are those of the peaks `PeakSearch.Search` finds on the sorted times, in order; `maxN200`, `maxN200Time` and `firstHitTime_ToF` end as the search computes them |
| EventInfo.NTagEventInfo.ScanHits | src/NTagEventInfo.cc:505-549 | the loop's locals end as the scan function's state after all hits, and the candidates appended are those of the peaks emitted mid-scan |
| EventInfo.NTagEventInfo.FlushLastPeak | src/NTagEventInfo.cc:550-552 | the final emission completes the search |
| EventInfo.NTagEventInfo.SetCandidateVariables | src/NTagEventInfo.cc:586-594 | with no candidates nothing changes; otherwise the columns, initialised from the first candidate if not yet done, receive every candidate's values |
| EventInfo.NTagEventInfo.InitializeCandidateVariableVectors | src/NTagEventInfo.cc:597-609 | the first candidate's names get fresh empty columns, other columns are kept, and the columns are marked initialised |
| EventInfo.NTagEventInfo.ExtractCandidateVariables | src/NTagEventInfo.cc:611-621 | every candidate's int and float values are pushed onto the columns, in candidate order |
| EventInfo.NTagEventInfo.Clear | src/NTagEventInfo.cc:689-740 | raw and sorted hits, hit counters, vertex, candidates and their hit vectors are emptied or zeroed; `maxN200` 0, `maxN200Time` and `firstHitTime_ToF` -9999; every column is emptied but kept; the variable schema is cleared |
| EventInfo.NTagEventInfo.ClearCandidates | src/NTagEventInfo.cc:695-739 | the candidate part of `Clear`: candidates and hit vectors emptied, search fields reset, every column emptied under its own name |

## Left out

- The Fortran common blocks (`sktqz_`, `skhead_`, `apcommul_`, `skvect_`) are not modelled. `AppendRawHitInfo` receives the event's hits as a parameter.
- The signal TQ tree read (`fSigTQTree->GetEntry`) is not modelled. The signal hits are an optional parameter.
- `SetEventHeader`, the MC truth and secondary readers, the AP ring fields, the output trees and the rest of the class's I/O are outside this model. `Clear` resets only the fields the model holds.
- `GetToF` and the PMT geometry are not modelled. The time of flight is a function parameter of the class.
- `SetPromptVertex`: only the custom branch (94-97) is modelled from the code. The APFIT, BONSAI and true-vertex branches read external banks, so the vertex they read is a parameter `fitted`. `wallsk_` is a function parameter.
- `NTagCandidate` (`SetHitInfo`, `SetVariables`) is not part of this model. A candidate's feature maps are an uninterpreted function of its hit slices.
- `SliceVector`'s body is not modelled. It is specified by its use, as the `n` elements from `start`, read through the index array when one is given.
- EventInfo.NTagEventInfo.SavePeakFromHit: the raw-time slice is read as `vTISKZ[reverseIndex[hitID + k]]`. This mapped reading of the four-argument `SliceVector` is the model's choice; `EventInfo.PeakHits` and the Findings row rest on it.
- NTagCalculator.GetNhitsFromStartIndex, NTagCalculator.GetNhitsFromCenterTime and NTagCalculator.GetQSumFromStartIndex: include/NTagCalculator.hh:41-70 declares them only, so their window edges are the model's choice. `GetNhitsFromStartIndex` and `GetQSumFromStartIndex` take the forward run of hits in `[T[s], T[s] + tWidth)`. `GetNhitsFromCenterTime` counts the hits in `[centerTime - tWidth/2, centerTime + tWidth/2)`.
- `MAXPM` is defined in a Super-K header that is not part of this model, and `NTagDefault` at include/NTagEventInfo.hh:67-77 gives no `TRBNWIDTH` value. Both are constructor parameters.
- The constructor's TMVA reader set-up (`SetReader` with the `NTAGPATH` weights file) and logging are not modelled.
- `AddVariablesToReader` and `DumpCurrentVariables` are not modelled. They hand pointers to ROOT or print.
- Fields that the C++ constructor leaves uninitialised start at zero in the model. This includes the vertex mode, which starts at APFIT.
- Float precision is not modelled. Times, charges and N200 are exact reals or integers, and the model does not capture float rounding in the time comparisons.
- `std::map` iteration order is not modelled. The map loops visit keys in an unspecified order. Their results do not depend on the order, except the order of `Keys` and `BranchNames`, which the model leaves unspecified.
- Heap-allocated vectors (`new std::vector`) are values in the model. The aliasing between a map entry and a ROOT branch address is not modelled.
- `TMath::Sort` is modelled by a stable ascending insertion order. TMath does not promise how it orders equal times.
- EventInfo.NTagEventInfo.SearchCaptureCandidates: requires `nqiskz > 0` or `N10TH > 0`. Otherwise the final `SavePeakFromHit(0)` would slice empty vectors, which is undefined behaviour in the code.
- EventInfo.NTagEventInfo.SearchCaptureCandidates: requires the sorted vectors to hold one entry per raw hit. The code indexes them up to `nqiskz`.
- PeakSearch.SearchPeaksQualifyAndSeparate: proved for thresholds with `T0TH >= -0.001` and `N10TH >= 1`, which the defaults meet. Other thresholds let the starting anchor (`t0Previous = -1`) pass the gates.
- TMVAVariables.NTagTMVAVariables.GetNumberOfCandidates: requires a valid schema. The code's `operator[]` would insert an `N10` entry into a map that lacks it.
- TMVAVariables.NTagTMVAVariables.SetVariablesForCaptureCandidate: requires candidate `i` to exist in every event vector. The code's `at` throws otherwise.
- EventInfo.NTagEventInfo.ExtractCandidateVariables: requires every candidate's names to have a column. The code's `operator[]` would insert a null pointer and dereference it.
- EventInfo.NTagEventInfo.AppendRawHitInfo: requires eligible hits to have non-negative PMT ids. The code indexes `vPMTHitTime` with them.
- EventInfo.NTagEventInfo.AppendRawHitInfo: requires the signal PMT-id vector `vSIGI` to be at least as long as the signal time vector `vSIGT` (through `HitBuffer.EnvOk`; the same holds for `AppendHits`, `AppendOneHit`, `HitBuffer.AppendHitCases` and `HitBuffer.AppendInvariant`). The code reads `vSIGI->at(iSigHit)` only after a time match, so with a shorter `vSIGI` it runs normally until a time matches past its end, where `at` throws. The model does not capture those inputs.
- TMVAVariables.NTagTMVAVariables.ReadEntry: `TTree::GetEntry` is ROOT I/O. The values read are parameters, and the method states only which vectors the bound addresses let the read overwrite.
- EventInfo.NTagEventInfo.Clear: `reverseIndex` is not reset, as in the code, and the model does not state it.
- The comment on `SetT0Limits` (include/NTagEventInfo.hh:462-468) gives `T0TH` in nanoseconds. The search compares it with times scaled by `1.e-3`, and the model follows the code.
- Where the setter declarations write `useTMVA` and `saveTQ`, the model writes the `bUseTMVA` and `bSaveTQ` fields the implementation reads.

## Findings

| source | as written | input that shows it | evidently intended | confidence | as-written member | corrected member |
|---|---|---|---|---|---|---|
| src/NTagEventInfo.cc:679 | `reverseIndex[sortedIndex[iHit]] = iHit` records, for each raw hit, its sorted position. `SavePeakFromHit` (565) reads `vTISKZ` through `reverseIndex` at sorted positions, and the declaration (include/NTagEventInfo.hh:556) describes the map as sorted position to raw index. | raw hits at 2, 0 and 1 ns with zero time of flight: the peak at sorted position 0 has sorted times 0, 1, 2, but its raw times come out as 1, 2, 0 | `reverseIndex[iHit] = sortedIndex[iHit]`, so that a peak's raw times belong to the same hits as its residual times | medium: rests on the mapped reading of `SliceVector`, whose body is not modelled; not executed | HitSorting.RawTimesAsWrittenMismatch | EventInfo.NTagEventInfo.PeakHitsIntended |
