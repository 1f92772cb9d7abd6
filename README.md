# ePAS absence ledger, vacation summary and stamping recap, in Dafny

This project models four pieces of the ePAS personnel attendance system and
proves properties of them.

- **The absence period** (`AbsencePeriod`). This is the ledger of one person's
  absence group over a date range. It holds a takable cap and a taken amount.
  Both are counted with one of three strategies: the period's own amount
  (`period`), every sub-period (`sumAllPeriod`), or the leading sub-periods up
  to a date (`sumUntilPeriod`). Amounts in units are kept multiplied by 100.
  Agile-work periods have a special cap. An initialisation baseline records
  what was used before recording began. The period also keeps:
  - a per-date map of day ledgers, filled in place;
  - an "earliest date the limit was exceeded" latch;
  - the completion/replacement pass. It walks the days in date order with a
    running residual: each completion adds the time it justifies, and the
    replacing code chosen for the new residual takes its time away again.
- **The vacation summary** (`VacationSituation.VacationSummary`). It derives the
  total, accrued, used, usable and expired figures of one year from the chain of
  sub-periods. It also has per-sub-period prefix sums and the backwards
  hand-out of post-partum reduction days.
- **The daily stamping recap** (`PersonStampingDayRecap`). It builds the row of
  stampings shown for a day: fictitious stampings make entrances and exits
  alternate, the row is padded to the sheet's columns, and each entry is
  labelled with its position in its pair. It also computes the notes of the
  day, whether the day is ignored or is a contract's first day, the meal-ticket
  column, and the personal working interval.
- **The stamping pair** (`PairStamping`). It computes the minutes between two
  stampings. A definitive entrance/exit pair gets a fresh id from a shared
  counter. The pair is flagged when it is a lunch break.

Modules:

| file | module | contents |
|---|---|---|
| `common.dfy` | `Common` | Option, truncating Java division, prefix sums, leading-run counts |
| `absence_ledger.dfy` | `Ledger` | the ledger values and the pure takable/taken arithmetic |
| `absence_complation.dfy` | `Complation` | the completion pass as a function over the day ledgers |
| `absence_period.dfy` | `AbsencePeriods` | the `AbsencePeriod` class, its sorted day map and its latch |
| `vacation_situation.dfy` | `Vacations` | `sumUsableTotal` and the `VacationSummary` figures |
| `stamping_day_recap.dfy` | `StampingDayRecap` | the recap row, labels, notes, meal ticket and the recap class |
| `pair_stamping.dfy` | `PairStampings` | stampings, the id counter and the `PairStamping` constructor |

Representation choices:
- Dates are integers (day numbers).
- Absence codes are strings; code 37 marks an extension period.
- The collaborators are function-valued parameters. These are the absence
  engine (`whichReplacingCode`, `absenceJustifiedAmount`), the working-days
  count, the agile-work code lookup, the calendar (year of a date, one year
  later, days of an interval) and the hour formatting of a stamping.
- Java's `/` and `%` truncate toward zero; `Common.JavaDiv` and
  `Common.JavaRem` model them.
- Where a Java loop computes a value, the model has a method with that loop.
  The method is proved equal to a function, and the properties are proved as
  lemmas about that function. For example, `lastNaturalSubPeriod` is the
  method `ComputeLastNaturalSubPeriod` beside the function
  `LastNaturalSubPeriod`, and `lastEffectiveSubPeriod` is the method
  `LastEffectiveSubPeriod` beside the function `LastEffective`.
- A sub-period inside the vacation summary is a value (`Ledger.SubPeriod`).
  It holds the dates, cap, codes and amounts of the `AbsencePeriod` it stands
  for.
- `PairStamping.first` and `second` are constants: only the constructor
  assigns them.
- `getStampingsTemplate` appends the labelled entries to the recap's
  `stampingsTemplate` field and returns that field; the constructor stores the
  result in the same, still empty, field. The model's `GetStampingsTemplate`
  returns the row and the constructor stores it. Likewise the month-contract
  loop of the constructor is the method `ClassifyDay`, which returns the two
  flags the constructor stores.

## Model

All source paths are under `src/main/java/it/cnr/iit/epas/`; the table writes them in full.

| member | source | states |
|---|---|---|
| AbsencePeriods.AbsencePeriod.constructor | src/main/java/it/cnr/iit/epas/manager/services/absences/model/AbsencePeriod.java:111-121 | a new period keeps its person and group, has no day ledgers, sub-periods or errors, a zero fixed cap and no limit date |
| AbsencePeriods.AbsencePeriod.TakableClassification | src/main/java/it/cnr/iit/epas/manager/services/absences/model/AbsencePeriod.java:131-164 | a period is limited exactly when it is takable with a non-negative cap; limited periods are in units or in minutes, never both; "no limit" and "with limit" exclude each other |
| AbsencePeriods.AbsencePeriod.SetFixedPeriodTakableAmount | src/main/java/it/cnr/iit/epas/manager/services/absences/model/AbsencePeriod.java:169-176 | the stored cap is the amount times 100 for units and the amount itself for minutes |
| Ledger.ScaledAmountRoundTrip | src/main/java/it/cnr/iit/epas/manager/services/absences/model/AbsencePeriod.java:169-176 | dividing a stored unit cap by 100 gives back the amount set |
| Ledger.AgileCap | src/main/java/it/cnr/iit/epas/manager/services/absences/model/AbsencePeriod.java:212-230 | the agile-work cap is the fixed amount less 200 in February; otherwise a multiple of 100 strictly below half the working days (×100) and at most 100 below it |
| Ledger.UntilCount | src/main/java/it/cnr/iit/epas/manager/services/absences/model/AbsencePeriod.java:242-251 | the `sumUntilPeriod` loop counts exactly the leading sub-periods that start on or before the date and stops at the first one after it |
| Ledger.SumUntilAtMostSumAll | src/main/java/it/cnr/iit/epas/manager/services/absences/model/AbsencePeriod.java:234-251 | with non-negative fixed amounts the `sumUntilPeriod` cap lies between 0 and the `sumAllPeriod` cap |
| AbsencePeriods.AbsencePeriod.ComputePeriodTakableAmount | src/main/java/it/cnr/iit/epas/manager/services/absences/model/AbsencePeriod.java:211-255 | the branches and loops give the cap under each strategy: the (agile) fixed amount, the sum of all sub-period amounts, or the sum of the leading ones up to the date |
| AbsencePeriods.AbsencePeriod.GetPeriodTakableAmount | src/main/java/it/cnr/iit/epas/manager/services/absences/model/AbsencePeriod.java:201-204 | the period's cap under its own strategy, from its start date |
| AbsencePeriods.AbsencePeriod.TakenAbsences | src/main/java/it/cnr/iit/epas/manager/services/absences/model/AbsencePeriod.java:188-194 | the taken absences of all day ledgers, in date order |
| Ledger.TakenSumCountsOnlyAfterInitialization | src/main/java/it/cnr/iit/epas/manager/services/absences/model/AbsencePeriod.java:273-277 | a taken absence before the initialisation adds nothing to the taken amount; any other adds exactly its amount |
| Ledger.TakenSumAppend | src/main/java/it/cnr/iit/epas/manager/services/absences/model/AbsencePeriod.java:272-278 | the taken amount of two runs of absences is the sum of their taken amounts |
| AbsencePeriods.AbsencePeriod.ComputePeriodTakenAmount | src/main/java/it/cnr/iit/epas/manager/services/absences/model/AbsencePeriod.java:269-300 | in `period` mode, the initialisation's use plus the counted taken absences; in the sum modes, the same quantity over all (or the leading) sub-periods |
| AbsencePeriods.AbsencePeriod.GetPeriodTakenAmount | src/main/java/it/cnr/iit/epas/manager/services/absences/model/AbsencePeriod.java:261-264 | the taken amount under the period's own strategy |
| AbsencePeriods.AbsencePeriod.GetRemainingAmount | src/main/java/it/cnr/iit/epas/manager/services/absences/model/AbsencePeriod.java:303-305 | remaining = takable cap − taken amount |
| AbsencePeriods.AbsencePeriod.BuildTakenAbsence | src/main/java/it/cnr/iit/epas/manager/services/absences/model/AbsencePeriod.java:314-330 | the record holds the absence, its amount, the current cap and the amount taken so far; it precedes the initialisation exactly when there is one and the absence is not after its date |
| Ledger.InitializationTakableUsed | src/main/java/it/cnr/iit/epas/manager/services/absences/model/AbsencePeriod.java:485-506 | nothing without an initialisation or a limited cap; its minutes when the cap is in minutes; at least its units ×100 when the cap is in units |
| Ledger.WorkingTypePercentModule | src/main/java/it/cnr/iit/epas/manager/services/absences/model/AbsencePeriod.java:544-553 | the fraction of a day left over lies strictly between −100 and 100, and in [0, 100) for non-negative minutes |
| AbsencePeriods.EnsureDaySpec | src/main/java/it/cnr/iit/epas/manager/services/absences/model/AbsencePeriod.java:460-467 | looking a date up creates its ledger only when it is missing, keeps the map sorted, and keeps every other ledger |
| AbsencePeriods.AbsencePeriod.GetDayInPeriod | src/main/java/it/cnr/iit/epas/manager/services/absences/model/AbsencePeriod.java:460-467 | after the call the sorted map holds a ledger for the date at the returned position, and nothing else changed |
| AbsencePeriods.AbsencePeriod.AddTakenAbsence | src/main/java/it/cnr/iit/epas/manager/services/absences/model/AbsencePeriod.java:335-338 | the taken absence is appended to its date's ledger and the map stays sorted |
| AbsencePeriods.AbsencePeriod.AddComplationAbsence | src/main/java/it/cnr/iit/epas/manager/services/absences/model/AbsencePeriod.java:345-351 | the completion is always appended; a compromised-completion error is added exactly when the date already held one |
| AbsencePeriods.AbsencePeriod.AddReplacingAbsence | src/main/java/it/cnr/iit/epas/manager/services/absences/model/AbsencePeriod.java:356-359 | the replacing absence is appended to its date's ledger and the map stays sorted |
| AbsencePeriods.Latch | src/main/java/it/cnr/iit/epas/manager/services/absences/model/AbsencePeriod.java:366-370 | the latch becomes the given date or stays as it was, whichever is earlier |
| AbsencePeriods.AbsencePeriod.SetLimitExceededDate | src/main/java/it/cnr/iit/epas/manager/services/absences/model/AbsencePeriod.java:366-370 | the limit date becomes the latch of its old value and the given date |
| AbsencePeriods.LatchAllIsEarliest | src/main/java/it/cnr/iit/epas/manager/services/absences/model/AbsencePeriod.java:366-370 | after any series of dates the limit date is one of them (or its earlier value) and no date supplied is earlier |
| AbsencePeriods.LatchIdempotent | src/main/java/it/cnr/iit/epas/manager/services/absences/model/AbsencePeriod.java:366-370 | supplying the same date twice changes nothing more |
| Complation.DrainMinutes | src/main/java/it/cnr/iit/epas/manager/services/absences/model/AbsencePeriod.java:530-537 | replacing codes are taken away until none fits; the minutes left are between 0 and the start, and no code fits them |
| Complation.InitializationComplationUsed | src/main/java/it/cnr/iit/epas/manager/services/absences/model/AbsencePeriod.java:514-541 | nothing without an initialisation or completion; a fraction of a day for units; for minutes, the minutes left that no replacing code fits |
| AbsencePeriods.AbsencePeriod.GetInitializationComplationUsed | src/main/java/it/cnr/iit/epas/manager/services/absences/model/AbsencePeriod.java:514-541 | the method with its while loop computes `InitializationComplationUsed` |
| AbsencePeriods.AbsencePeriod.ComputeCorrectReplacingInPeriod | src/main/java/it/cnr/iit/epas/manager/services/absences/model/AbsencePeriod.java:399-435 | nothing happens for a non-completion period; otherwise the day ledgers become the result of the completion pass, and it fails exactly where that pass fails; the map stays sorted by date either way |
| AbsencePeriods.PassKeepsSorted | src/main/java/it/cnr/iit/epas/manager/services/absences/model/AbsencePeriod.java:399-435 | the completion pass keeps a date-sorted day map sorted, because it changes no date |
| Complation.PassOkIff | src/main/java/it/cnr/iit/epas/manager/services/absences/model/AbsencePeriod.java:406-414 | the pass succeeds exactly when no processed day holds more than one completion |
| Complation.PassKeepsLedgers | src/main/java/it/cnr/iit/epas/manager/services/absences/model/AbsencePeriod.java:399-435 | the pass changes no date, taken absence, completion or replacing absence of any ledger |
| Complation.PassAt | src/main/java/it/cnr/iit/epas/manager/services/absences/model/AbsencePeriod.java:405-413 | days on or before the initialisation, or without completions, are left alone; the others are processed with the residual that reaches them |
| Complation.ProcessDayRecord | src/main/java/it/cnr/iit/epas/manager/services/absences/model/AbsencePeriod.java:415-432 | the record written for a day with one completion holds that completion, the residual it started from, the minutes it justified, and the residual left once the chosen replacing code is taken away |
| Complation.ComplationResiduals | src/main/java/it/cnr/iit/epas/manager/services/absences/model/AbsencePeriod.java:415-432 | on each processed day: residual before + consumed = running total; residual after = total − the chosen replacing code's time, or the total when none is chosen; the residual after is what reaches the next day |
| AbsencePeriods.EqualsIsEquivalence | src/main/java/it/cnr/iit/epas/manager/services/absences/model/AbsencePeriod.java:561-590 | period equality is reflexive, symmetric and transitive, and two periods of different groups with the same person, start and end are equal |
| Vacations.SumUsableTotal | src/main/java/it/cnr/iit/epas/manager/services/absences/model/VacationSituation.java:56-68 | with no summary present and no permissions the remaining total is 0 |
| Vacations.LastYearAddedIffPresent | src/main/java/it/cnr/iit/epas/manager/services/absences/model/VacationSituation.java:58-60 | last year's summary adds nothing when absent, whatever usable total it caches, and adds exactly its usable total when present |
| Vacations.CurrentYearAddedIffPresent | src/main/java/it/cnr/iit/epas/manager/services/absences/model/VacationSituation.java:61-63 | this year's summary adds nothing when absent, whatever usable total it caches, and adds exactly its usable total when present |
| Vacations.PermissionsAlwaysAdded | src/main/java/it/cnr/iit/epas/manager/services/absences/model/VacationSituation.java:56-68 | the permissions' usable total is added whenever the permissions exist |
| Vacations.LastNaturalSubPeriod | src/main/java/it/cnr/iit/epas/manager/services/absences/model/VacationSituation.java:221-229 | the last sub-period when code 37 is not among its taken codes; the one before it when it is |
| Vacations.ComputeLastNaturalSubPeriod | src/main/java/it/cnr/iit/epas/manager/services/absences/model/VacationSituation.java:221-229 | the loop over the last sub-period's taken codes returns the sub-period before it on meeting code 37 and the last one otherwise, that is `LastNaturalSubPeriod` |
| Vacations.Total | src/main/java/it/cnr/iit/epas/manager/services/absences/model/VacationSituation.java:200-203 | the total days are the sum of every sub-period's cap (in hundredths) divided by 100, truncated toward zero |
| Vacations.Accrued | src/main/java/it/cnr/iit/epas/manager/services/absences/model/VacationSituation.java:205-208 | the accrued days are the sum of the caps of the leading sub-periods started by the date, divided by 100, truncated toward zero |
| Vacations.Used | src/main/java/it/cnr/iit/epas/manager/services/absences/model/VacationSituation.java:210-214 | the used days are what all sub-periods consumed, counted to the end of the last one, divided by 100, truncated toward zero |
| Vacations.Expired | src/main/java/it/cnr/iit/epas/manager/services/absences/model/VacationSituation.java:189-194 | expired exactly when the natural end (the last sub-period's end, or the one before it after a code-37 extension) is on or before the date |
| Vacations.Usable | src/main/java/it/cnr/iit/epas/manager/services/absences/model/VacationSituation.java:175-184 | nothing once expired; before the contract's first anniversary accrued − used; afterwards the usable total |
| Vacations.UsableTotal | src/main/java/it/cnr/iit/epas/manager/services/absences/model/VacationSituation.java:196-198 | the usable total plus the used days is the truncated total of all caps: total − used |
| Vacations.UsableTotalIgnoresDate | src/main/java/it/cnr/iit/epas/manager/services/absences/model/VacationSituation.java:196-198 | the usable total is the same whatever the date of the situation |
| Vacations.AccruedAtMostTotal | src/main/java/it/cnr/iit/epas/manager/services/absences/model/VacationSituation.java:200-208 | with non-negative caps, 0 ≤ accrued days ≤ total days |
| Vacations.AccruedGrowsWithDate | src/main/java/it/cnr/iit/epas/manager/services/absences/model/VacationSituation.java:205-208 | a later date never lowers the accrued days |
| Vacations.UsableAtMostUsableTotal | src/main/java/it/cnr/iit/epas/manager/services/absences/model/VacationSituation.java:175-198 | an expired summary has no usable days; otherwise, with non-negative caps, usable ≤ usable total |
| Vacations.ExpiredStaysExpired | src/main/java/it/cnr/iit/epas/manager/services/absences/model/VacationSituation.java:189-194 | once the natural end is not after the date, the summary stays expired with nothing usable at every later date |
| Vacations.ComputeSourced | src/main/java/it/cnr/iit/epas/manager/services/absences/model/VacationSituation.java:255-263 | the loop adds the initialisation units of every initialised sub-period |
| Vacations.AbsencesUsed | src/main/java/it/cnr/iit/epas/manager/services/absences/model/VacationSituation.java:268-280 | the nested loops collect the counted absences of every sub-period in order |
| Vacations.CountedAbsencesIff | src/main/java/it/cnr/iit/epas/manager/services/absences/model/VacationSituation.java:272-275 | an absence is counted exactly when some taken absence after the initialisation carries it |
| Vacations.AbsencesUsedIff | src/main/java/it/cnr/iit/epas/manager/services/absences/model/VacationSituation.java:268-280 | an absence is used exactly when some sub-period holds it as a counted taken absence |
| Vacations.ComputeAccruedDayTotal | src/main/java/it/cnr/iit/epas/manager/services/absences/model/VacationSituation.java:285-294 | the loop adds the days of the leading sub-periods that start in the year |
| Vacations.ComputeAccruedDay | src/main/java/it/cnr/iit/epas/manager/services/absences/model/VacationSituation.java:300-309 | the loop adds the days of the leading sub-periods that start in the year and by the date |
| Vacations.AccruedDayAtMostTotal | src/main/java/it/cnr/iit/epas/manager/services/absences/model/VacationSituation.java:285-309 | 0 ≤ accrued days by the date ≤ accrued days of the year |
| Vacations.IndexOf | src/main/java/it/cnr/iit/epas/manager/services/absences/model/VacationSituation.java:418-419 | the position of the first sub-period equal to the given one (same person, start and end), or the length when there is none |
| Vacations.SubAccruedIff | src/main/java/it/cnr/iit/epas/manager/services/absences/model/VacationSituation.java:336-355 | a sub-period counts as accrued exactly when it started by the date or has no amount; its accrued amount lies between 0 and its amount |
| Vacations.ComputeSubTotalAmount | src/main/java/it/cnr/iit/epas/manager/services/absences/model/VacationSituation.java:367-376 | the loop adds the amounts of the sub-periods up to and including the given one |
| Vacations.ComputeSubDayProgression | src/main/java/it/cnr/iit/epas/manager/services/absences/model/VacationSituation.java:381-390 | the loop adds the days of the sub-periods up to and including the given one |
| Vacations.SubTotalsAt | src/main/java/it/cnr/iit/epas/manager/services/absences/model/VacationSituation.java:367-390 | in a chain without repetitions, both totals for the k-th sub-period are the prefix sums up to k |
| Vacations.SubTotalsAbsent | src/main/java/it/cnr/iit/epas/manager/services/absences/model/VacationSituation.java:367-390 | for a sub-period not in the chain, both totals cover the whole chain |
| Vacations.SubDayProgressionMonotone | src/main/java/it/cnr/iit/epas/manager/services/absences/model/VacationSituation.java:381-390 | along the chain the day progression never decreases and never exceeds the days of the whole chain |
| Vacations.LastEffective | src/main/java/it/cnr/iit/epas/manager/services/absences/model/VacationSituation.java:242-250 | the last sub-period generated by a vacation code, or none when no sub-period was |
| Vacations.LastEffectiveSubPeriod | src/main/java/it/cnr/iit/epas/manager/services/absences/model/VacationSituation.java:242-251 | the loop over the sub-periods keeps the last one generated by a vacation code, that is `LastEffective` |
| Vacations.SubDayPostPartum | src/main/java/it/cnr/iit/epas/manager/services/absences/model/VacationSituation.java:395-426 | a sub-period's post-partum share is never negative, never more than the days to distribute and never more than its own days |
| Vacations.ComputeSubDayPostPartum | src/main/java/it/cnr/iit/epas/manager/services/absences/model/VacationSituation.java:395-426 | the backwards while loop computes `SubDayPostPartum` |
| Vacations.SubDayPostPartumAt | src/main/java/it/cnr/iit/epas/manager/services/absences/model/VacationSituation.java:395-426 | each sub-period up to the last effective one gets the smaller of its days and the days still to hand out |
| Vacations.SubDayToFixPostPartum | src/main/java/it/cnr/iit/epas/manager/services/absences/model/VacationSituation.java:449-451 | the days left once the share is removed lie between 0 and the sub-period's days |
| Vacations.ComputeSubDayPostPartumProgression | src/main/java/it/cnr/iit/epas/manager/services/absences/model/VacationSituation.java:431-447 | the backwards while loop computes the post-partum progression |
| Vacations.ProgressionAtMostPostPartum | src/main/java/it/cnr/iit/epas/manager/services/absences/model/VacationSituation.java:431-447 | the progression up to any sub-period lies between 0 and the days to distribute |
| StampingDayRecap.Alternate | src/main/java/it/cnr/iit/epas/manager/recaps/personstamping/PersonStampingDayRecap.java:288-326 | the first loop builds the alternated row and reports whether the last stamping is an entrance |
| StampingDayRecap.AlternatedShape | src/main/java/it/cnr/iit/epas/manager/recaps/personstamping/PersonStampingDayRecap.java:288-326 | before padding the row alternates entrance/exit from an entrance, ends on an entrance exactly when the last stamping is one, and holds every stamping exactly once in order |
| StampingDayRecap.AlternateAndPad | src/main/java/it/cnr/iit/epas/manager/recaps/personstamping/PersonStampingDayRecap.java:281-341 | alternation followed by the padding loop gives the row `Template` describes |
| StampingDayRecap.TemplateShape | src/main/java/it/cnr/iit/epas/manager/recaps/personstamping/PersonStampingDayRecap.java:327-341 | the row is max(2·numberOfInOut, alternated length) long, alternates throughout, holds exactly the stampings in order, and pads with fictitious entries only |
| StampingDayRecap.TemplateWays | src/main/java/it/cnr/iit/epas/manager/recaps/personstamping/PersonStampingDayRecap.java:327-341 | the padded row is max(2·numberOfInOut, alternated length) long, alternates from an entrance throughout, and every padding entry is fictitious |
| StampingDayRecap.TemplateReals | src/main/java/it/cnr/iit/epas/manager/recaps/personstamping/PersonStampingDayRecap.java:288-341 | the real stampings of the padded row are exactly the ordered stampings, in order |
| StampingDayRecap.OpenIff | src/main/java/it/cnr/iit/epas/manager/recaps/personstamping/PersonStampingDayRecap.java:343-361 | the `samePair` flag is set exactly when a paired entrance has no paired exit after it |
| StampingDayRecap.EntriesAt | src/main/java/it/cnr/iit/epas/manager/recaps/personstamping/PersonStampingDayRecap.java:343-361 | each labelled entry is the row's entry with the label its pair context gives it |
| StampingDayRecap.PositionIff | src/main/java/it/cnr/iit/epas/manager/recaps/personstamping/PersonStampingDayRecap.java:343-361 | "left" exactly for paired entrances, "right" exactly for paired exits, "center" exactly for unpaired entries after a paired entrance with no paired exit between |
| StampingDayRecap.GetStampingsTemplate | src/main/java/it/cnr/iit/epas/manager/recaps/personstamping/PersonStampingDayRecap.java:278-363 | the row returned is the alternated, padded row of the ordered stampings, each entry carrying the label its pair context gives it |
| StampingDayRecap.GetStampingsNote | src/main/java/it/cnr/iit/epas/manager/recaps/personstamping/PersonStampingDayRecap.java:371-380 | one note line "hour: note" per real stamping with a non-empty note, in row order |
| StampingDayRecap.DayNotes | src/main/java/it/cnr/iit/epas/manager/recaps/personstamping/PersonStampingDayRecap.java:371-380 | the notes of the day's row are those of its ordered stampings; fictitious entries add none |
| StampingDayRecap.MealTicketCases | src/main/java/it/cnr/iit/epas/manager/recaps/personstamping/PersonStampingDayRecap.java:191-266 | for each meal-ticket outcome (blank, yes, yes if exiting now, not yet, no), exactly which days get it |
| StampingDayRecap.PersonStampingDayRecap.ComputeMealTicket | src/main/java/it/cnr/iit/epas/manager/recaps/personstamping/PersonStampingDayRecap.java:191-266 | the branching sets the meal-ticket column to `MealTicketOf` |
| StampingDayRecap.IgnoredIff | src/main/java/it/cnr/iit/epas/manager/recaps/personstamping/PersonStampingDayRecap.java:159-179 | a day is ignored exactly when a month contract begins after it or is initialised after it, or (with some contract) it precedes the person's start |
| StampingDayRecap.ClassifyDay | src/main/java/it/cnr/iit/epas/manager/recaps/personstamping/PersonStampingDayRecap.java:159-179 | the loop sets `ignoreDay` iff some contract excludes the day and `firstDay` iff some contract begins on it |
| StampingDayRecap.PersonalWorkingTimeInterval | src/main/java/it/cnr/iit/epas/manager/recaps/personstamping/PersonStampingDayRecap.java:388-400 | an interval exactly when there is a slot that does not end before it begins, and then the slot's own bounds |
| StampingDayRecap.PersonStampingDayRecap.constructor | src/main/java/it/cnr/iit/epas/manager/recaps/personstamping/PersonStampingDayRecap.java:92-182 | the recap holds the labelled row of its stampings, the notes of that row (`DayNotes`: the notes of the ordered stampings), the ignored/first-day flags from the month's contracts (none without contracts), the meal ticket for those flags, and the personal interval |
| PairStampings.IdSequence.constructor | src/main/java/it/cnr/iit/epas/manager/services/PairStamping.java:34-34 | the shared counter starts at 1 |
| PairStampings.PairStamping.constructor | src/main/java/it/cnr/iit/epas/manager/services/PairStamping.java:53-76 | holds the two stampings and the minutes between them; a valid pair gives both the counter's value, which then grows by one; any other pair changes neither stamping nor the counter; lunch flag iff either is a lunch break |
| PairStampings.PairAll | src/main/java/it/cnr/iit/epas/manager/services/PairStamping.java:53-76 | the k-th pair made holds the k-th two stampings; successive pairings hand out the ids `IssuedIds` describes and advance the counter by the number of valid pairs; both stampings of a valid pair end up with its id, and those of any other pair keep the ids they had |
| PairStampings.IssuedIdsAt | src/main/java/it/cnr/iit/epas/manager/services/PairStamping.java:64-68 | the k-th pairing, when valid, gets the start plus the number of valid pairings before it |
| PairStampings.IssuedIdsIncreasing | src/main/java/it/cnr/iit/epas/manager/services/PairStamping.java:64-68 | only valid pairings get ids, every id is at least the start, and later ids are strictly larger, so no two pairs share one |

## Left out

- Null `from`/`to` dates and a null absence period are not modelled. Every period has both dates, and a summary always has its period.
- Java `int`/`long` overflow is not modelled: amounts are unbounded integers.
- The recap sorts the day's stampings with the library sort. The model takes them already in time order.
- `daysInPeriod` is a `TreeMap` in the source. Here it is a sequence kept strictly sorted by date.
- AbsencePeriods.AbsencePeriod.GetDayInPeriod: returns the ledger's position instead of a reference to the ledger. The `add*Absence` methods then update the map by position.
- The descending list of replacing codes (`replacingCodesDesc`) is folded into the `whichReplacingCode` parameter.
- AbsencePeriods.AbsencePeriod.GetInitializationComplationUsed: relies on the hypothesis `ReplacingWellFormed`. It says a replacing code the engine names has a positive time, no larger than the residual it was chosen for. Without it the source's `while (true)` loop need not terminate.
- AbsencePeriods.AbsencePeriod.ComputeCorrectReplacingInPeriod: the state check that fails on a day with two completions is modelled as the result `false`. Ledgers before that day keep what the pass wrote.
- Collaborators are parameters. These include the absence engine, `workingDaysInMonth`, the agile-code lookup, `isHoliday`, the all-day-absence check, the contract and time-slot wrappers, and the stamping template factory. The calendar is also a parameter: `DateUtility` month/year, `plusYears`, and `DateInterval.dayInInterval`.
- The clock: `LocalDateTime.now()` and whether the day is past, today or future are inputs of the recap.
- The recap's static, database-backed `fixedStampModificationType` cache is not modelled. Nor are `queSeraSera`, `setValidPairStampings` or the time-slot lookup; the personal slot is an input.
- `title`, i18n messages, `toString`, `hashCode` and logging are not modelled.
- `filterAbsencesInPeriod`, `containsCriticalErrors`, `isCompromisedComplation` and the `getFixedPeriodTakableAmount` getter are not modelled. They are filters and getters outside the ledger arithmetic.
- `contractEndFirstYearInPeriod`, `isContractLowerLimit`, `isContractUpperLimit`, `lowerLimit` and `upperLimit` are not modelled. They only compare contract dates through `DateUtility`, which is not part of this model.
- `postPartum()` of a missing period is not modelled. Only the number of reducing absences (`postPartumCount`) is used.
- Vacations.SubDayPostPartum: the source's `subPeriods.get(-1)` exception, when the walk passes the chain's start, is modelled as `None`.
- Vacations.ProgressionAtMostPostPartum: proved for chains without repeated sub-periods (`Distinct`). `List.indexOf` can otherwise jump back to an earlier equal period.
- PairStampings.PairAll: stands for a caller constructing pairs one after another. The static `SEQUENCE_ID` is an `IdSequence` object passed to each construction, and thread safety is not modelled.
- PairStampings.PairStamping.constructor: `toString` is not modelled.
- PairStampings.PairAll: requires `DistinctStampings`, that is, no stamping takes part in two of the pairs. A day's pairs are cut from one list of distinct stampings, so this always holds there.
- AbsencePeriods.AbsencePeriod.ComputePeriodTakenAmount: in `period` mode with a units cap, an initialisation with minutes and an average working time of 0, the source throws `ArithmeticException` (division by zero in `workingTypePercent`). The model requires `TakenDivisorOk`, which excludes exactly that case, instead of modelling the exception.
- AbsencePeriods.AbsencePeriod.GetPeriodTakenAmount: the same `ArithmeticException` case is excluded by `TakenDivisorOk`.
- AbsencePeriods.AbsencePeriod.GetRemainingAmount: the same `ArithmeticException` case is excluded by `TakenDivisorOk`.
- AbsencePeriods.AbsencePeriod.BuildTakenAbsence: the same `ArithmeticException` case is excluded by `TakenDivisorOk`.
- AbsencePeriods.AbsencePeriod.InitializationTakableUsedAmount: requires `InitializationDivisorOk`, which excludes exactly that `ArithmeticException` case.
- AbsencePeriods.AbsencePeriod.GetInitializationComplationUsed: requires `ComplationDivisorOk`. With a units completion, an initialisation and an average working time of 0, the source's `workingTypePercentModule` throws `ArithmeticException`; that case is excluded, not modelled.
- AbsencePeriods.AbsencePeriod.ComputeCorrectReplacingInPeriod: requires `ComplationDivisorOk` for the same reason.
- AbsencePeriods.AbsencePeriod.ComputeCorrectReplacingInPeriod: also relies on `ReplacingWellFormed`, like `GetInitializationComplationUsed`. The pass subtracts `replacingTimes.get(code)` for the code the engine chose; for a code missing from the map the source throws `NullPointerException` on unboxing, and that case is excluded, not modelled. The positive time no larger than the residual is the same hypothesis the drain loop needs.
- AbsencePeriods.AbsencePeriod.SetFixedPeriodTakableAmount: requires `takeAmountType.Some?`. On a null `takeAmountType` the source throws `NullPointerException`; that case is excluded, not modelled.
- Vacations.SumUsableTotal: the yearly caches are plain values. The source dereferences `lastYearCached` and `currentYearCached` without a null check, so a null one throws `NullPointerException`; only a missing `permissionsCached` is modelled, as `None`.
- Vacations.LastNaturalSubPeriod: requires `ChainWellFormed`. The source throws `IndexOutOfBoundsException` on an empty chain, and on a one-element chain whose only sub-period took code 37; those two cases are excluded, not modelled.
- Vacations.ComputeLastNaturalSubPeriod: requires `ChainWellFormed`, for the same reason.
- Vacations.Expired: requires `ChainWellFormed`, because it reads `lastNaturalSubPeriod`.
- Vacations.Usable: requires `ChainWellFormed`, because it reads `expired`.
- Vacations.Used: requires a non-empty chain; the source's `lastSubPeriod` throws `IndexOutOfBoundsException` on an empty one.
- Ledger.SubPeriod: `initializationTakableUsed` and `takenAbsences` are fields given with the sub-period. They are not recomputed from that sub-period's own initialisation and day ledgers.
- AbsencePeriods.AbsencePeriod.constructor: in the source `subPeriods`, `takableCountBehaviour` and `takenCountBehaviour` start as `null` until the period is built. The model starts them as the empty sequence and `Period`.
