/** The yearly vacation (or permission) situation of a contract: the
    remaining days over the cached summaries, and the summary of one year
    derived from the chain of sub-periods of its absence period (total,
    accrued, used, usable, expired), with the per-sub-period helpers and the
    backwards distribution of post-partum reduction days. Amounts are in
    hundredths of a day, as the ledger stores them; the summary reports
    whole days. */
module Vacations {
  import opened Common
  import opened Ledger

  /** The calendar operations the summary relies on: the year of a date,
      the same date one year later, and the number of days of an interval. */
  datatype Calendar = Calendar(
    yearOf: Date -> int,
    plusOneYear: Date -> Date,
    dayInInterval: (Date, Date) -> nat)

  // ---------------------------------------------------------------------
  // The situation

  /** What the situation keeps of a computed summary. */
  datatype SummaryCache = SummaryCache(present: bool, usableTotal: int)

  /** The days remaining over last year's and this year's summaries (each
      counted only when present) and the permissions (counted whenever
      there is one). */
  function SumUsableTotal(lastYear: SummaryCache, currentYear: SummaryCache,
                          permissions: Option<SummaryCache>): (r: int)
    ensures !lastYear.present && !currentYear.present && permissions.None? ==> r == 0
  {
    var fromLastYear := if lastYear.present then lastYear.usableTotal else 0;
    var fromCurrentYear := if currentYear.present then currentYear.usableTotal else 0;
    fromLastYear + fromCurrentYear + (if permissions.Some? then permissions.value.usableTotal else 0)
  }

  /** Last year's summary adds its usable total exactly when it is present:
      an absent one adds nothing, whatever it caches. */
  lemma LastYearAddedIffPresent(lastYear: SummaryCache, currentYear: SummaryCache,
                                permissions: Option<SummaryCache>, v: int)
    ensures !lastYear.present ==>
              SumUsableTotal(lastYear.(usableTotal := v), currentYear, permissions)
              == SumUsableTotal(lastYear, currentYear, permissions)
    ensures lastYear.present ==>
              SumUsableTotal(lastYear, currentYear, permissions)
              == SumUsableTotal(lastYear.(present := false), currentYear, permissions) + lastYear.usableTotal
  {
  }

  /** This year's summary adds its usable total exactly when it is present. */
  lemma CurrentYearAddedIffPresent(lastYear: SummaryCache, currentYear: SummaryCache,
                                   permissions: Option<SummaryCache>, v: int)
    ensures !currentYear.present ==>
              SumUsableTotal(lastYear, currentYear.(usableTotal := v), permissions)
              == SumUsableTotal(lastYear, currentYear, permissions)
    ensures currentYear.present ==>
              SumUsableTotal(lastYear, currentYear, permissions)
              == SumUsableTotal(lastYear, currentYear.(present := false), permissions) + currentYear.usableTotal
  {
  }

  /** The permissions are added as soon as they exist, regardless of their
      own presence flag. */
  lemma PermissionsAlwaysAdded(lastYear: SummaryCache, currentYear: SummaryCache, p: SummaryCache)
    ensures SumUsableTotal(lastYear, currentYear, Some(p))
         == SumUsableTotal(lastYear, currentYear, None) + p.usableTotal
  {
  }

  // ---------------------------------------------------------------------
  // The summary of one year

  datatype VacationSummary = VacationSummary(
    year: int,
    date: Date,               // the date of the situation: decides accrued and expired
    contractBegin: Date,
    subPeriods: seq<SubPeriod>,
    postPartumCount: nat,     // the absences that reduced the period
    cal: Calendar)

  /** The chain a summary reads its end from: a last sub-period, and a
      penultimate one whenever the last is a code-37 extension. */
  predicate ChainWellFormed(subs: seq<SubPeriod>) {
    |subs| >= 1 && (ExtensionCode in subs[|subs| - 1].takenCodes ==> |subs| >= 2)
  }

  /** Total days: the sum of every sub-period's cap, in whole days. */
  function Total(s: VacationSummary): (r: int)
    ensures TruncatedHundredths(SumAllTakable(s.subPeriods), r)
  {
    var hundredths := PeriodTakable(SumAllPeriod, 0, false, false, 0, s.subPeriods, s.date);
    JavaDivHundredTruncates(hundredths);
    JavaDiv(hundredths, 100)
  }

  /** Accrued days: the caps of the sub-periods started by the date. */
  function Accrued(s: VacationSummary): (r: int)
    ensures TruncatedHundredths(SumUntilTakable(s.subPeriods, s.date), r)
  {
    var hundredths := PeriodTakable(SumUntilPeriod, 0, false, false, 0, s.subPeriods, s.date);
    JavaDivHundredTruncates(hundredths);
    JavaDiv(hundredths, 100)
  }

  /** Used days: what every sub-period consumed, counted up to the end of the last one. */
  function Used(s: VacationSummary): (r: int)
    requires |s.subPeriods| >= 1
    ensures TruncatedHundredths(SumOf(s.subPeriods, SubTaken), r)
  {
    var hundredths := PeriodTaken(SumAllPeriod, 0, [], s.subPeriods, s.subPeriods[|s.subPeriods| - 1].to);
    JavaDivHundredTruncates(hundredths);
    JavaDiv(hundredths, 100)
  }

  /** The last sub-period that is not a code-37 extension of the one before. */
  function LastNaturalSubPeriod(subs: seq<SubPeriod>): (r: SubPeriod)
    requires ChainWellFormed(subs)
    ensures ExtensionCode !in subs[|subs| - 1].takenCodes ==> r == subs[|subs| - 1]
    ensures ExtensionCode in subs[|subs| - 1].takenCodes ==> r == subs[|subs| - 2]
  {
    var last := subs[|subs| - 1];
    if ExtensionCode in last.takenCodes then subs[|subs| - 2] else last
  }

  /** The loop of `lastNaturalSubPeriod`: the taken codes of the last
      sub-period are visited one by one, and meeting code 37 returns the
      sub-period before it. */
  method ComputeLastNaturalSubPeriod(subs: seq<SubPeriod>) returns (r: SubPeriod)
    requires ChainWellFormed(subs)
    ensures r == LastNaturalSubPeriod(subs)
  {
    var lastPeriod := subs[|subs| - 1];
    var toVisit := lastPeriod.takenCodes;
    while toVisit != {}
      invariant toVisit <= lastPeriod.takenCodes
      invariant ExtensionCode !in lastPeriod.takenCodes - toVisit
      decreases |toVisit|
    {
      var taken :| taken in toVisit;
      if taken == ExtensionCode {
        return subs[|subs| - 2];
      }
      toVisit := toVisit - {taken};
    }
    return lastPeriod;
  }

  /** The summary has expired once its natural end is not after the date:
      the end of the last sub-period, or of the one before it when the last
      is a code-37 extension. */
  predicate Expired(s: VacationSummary)
    requires ChainWellFormed(s.subPeriods)
    ensures var subs := s.subPeriods;
            var end := if ExtensionCode in subs[|subs| - 1].takenCodes
                       then subs[|subs| - 2].to else subs[|subs| - 1].to;
            Expired(s) <==> end <= s.date
  {
    !(LastNaturalSubPeriod(s.subPeriods).to > s.date)
  }

  /** Usable days: none once expired; before the first contract anniversary
      only what has accrued; afterwards the whole usable total. */
  function Usable(s: VacationSummary): (r: int)
    requires ChainWellFormed(s.subPeriods)
    ensures Expired(s) ==> r == 0
    ensures !Expired(s) && s.date < s.cal.plusOneYear(s.contractBegin) ==> r == Accrued(s) - Used(s)
    ensures !Expired(s) && s.date >= s.cal.plusOneYear(s.contractBegin) ==> r == UsableTotal(s)
  {
    if Expired(s) then 0
    else if s.date < s.cal.plusOneYear(s.contractBegin) then Accrued(s) - Used(s)
    else Total(s) - Used(s)
  }

  /** Usable total: the whole total less what was used, whatever the date. */
  function UsableTotal(s: VacationSummary): (r: int)
    requires |s.subPeriods| >= 1
    ensures TruncatedHundredths(SumAllTakable(s.subPeriods), r + Used(s))
  {
    Total(s) - Used(s)
  }

  /** The usable total does not depend on the date of the situation. */
  lemma UsableTotalIgnoresDate(s: VacationSummary, d: Date)
    requires |s.subPeriods| >= 1
    ensures UsableTotal(s.(date := d)) == UsableTotal(s)
  {
  }

  /** With non-negative caps, what has accrued never exceeds the total. */
  lemma AccruedAtMostTotal(s: VacationSummary)
    requires NonNegativeAmounts(s.subPeriods)
    ensures 0 <= Accrued(s) <= Total(s)
  {
    SumUntilAtMostSumAll(s.subPeriods, s.date);
    JavaDivHundredMonotone(SumUntilTakable(s.subPeriods, s.date), SumAllTakable(s.subPeriods));
  }

  /** A later date never lowers what has accrued. */
  lemma AccruedGrowsWithDate(s: VacationSummary, later: Date)
    requires NonNegativeAmounts(s.subPeriods)
    requires s.date <= later
    ensures 0 <= Accrued(s) <= Accrued(s.(date := later))
  {
    var subs := s.subPeriods;
    var n := UntilCount(subs, s.date);
    var m := UntilCount(subs, later);
    LeadingMonotone(subs, StartsNotAfter(later), StartsNotAfter(s.date));
    assert subs[..m][..n] == subs[..n];
    assert forall k :: 0 <= k < |subs[..m]| ==> FixedAmountOf(subs[..m][k]) >= 0;
    SumOfPrefixAtMost(subs[..m], n, FixedAmountOf);
    assert forall k :: 0 <= k < |subs[..n]| ==> FixedAmountOf(subs[..n][k]) >= 0;
    SumOfNonNegative(subs[..n], FixedAmountOf);
    JavaDivHundredMonotone(SumUntilTakable(subs, s.date), SumUntilTakable(subs, later));
  }

  /** An expired summary has nothing usable; otherwise, with non-negative
      caps, what is usable never exceeds the usable total. */
  lemma UsableAtMostUsableTotal(s: VacationSummary)
    requires ChainWellFormed(s.subPeriods)
    requires NonNegativeAmounts(s.subPeriods)
    ensures Expired(s) ==> Usable(s) == 0
    ensures !Expired(s) ==> Usable(s) <= UsableTotal(s)
  {
    AccruedAtMostTotal(s);
  }

  /** Once expired, a summary stays expired at every later date. */
  lemma ExpiredStaysExpired(s: VacationSummary, later: Date)
    requires ChainWellFormed(s.subPeriods)
    requires Expired(s) && s.date <= later
    ensures Expired(s.(date := later)) && Usable(s.(date := later)) == 0
  {
  }

  // ---------------------------------------------------------------------
  // Initialisation and used absences

  /** The whole units an initialised sub-period starts from. */
  function SourcedOf(p: SubPeriod): int {
    if p.initialization.Some? then p.initialization.value.unitsInput else 0
  }

  /** The days coming from initialisations, over the whole chain. */
  function Sourced(subs: seq<SubPeriod>): int {
    SumOf(subs, SourcedOf)
  }

  method ComputeSourced(s: VacationSummary) returns (sourced: int)
    ensures sourced == Sourced(s.subPeriods)
  {
    sourced := 0;
    for i := 0 to |s.subPeriods|
      invariant sourced == SumOf(s.subPeriods[..i], SourcedOf)
    {
      var period := s.subPeriods[i];
      SumOfSnoc(s.subPeriods, i, SourcedOf);
      if period.initialization.Some? {
        sourced := sourced + period.initialization.value.unitsInput;
      }
    }
    assert s.subPeriods[..|s.subPeriods|] == s.subPeriods;
  }

  /** The absences of the taken absences that count (those after the initialisation). */
  function CountedAbsences(ts: seq<TakenAbsence>): seq<Absence> {
    if ts == [] then []
    else CountedAbsences(ts[..|ts| - 1])
         + (if ts[|ts| - 1].beforeInitialization then [] else [ts[|ts| - 1].absence])
  }

  /** The used absences of a chain, sub-period after sub-period. */
  function AbsencesUsedOf(subs: seq<SubPeriod>): seq<Absence> {
    if subs == [] then [] else AbsencesUsedOf(subs[..|subs| - 1]) + CountedAbsences(subs[|subs| - 1].takenAbsences)
  }

  method AbsencesUsed(s: VacationSummary) returns (absencesUsed: seq<Absence>)
    ensures absencesUsed == AbsencesUsedOf(s.subPeriods)
  {
    absencesUsed := [];
    for i := 0 to |s.subPeriods|
      invariant absencesUsed == AbsencesUsedOf(s.subPeriods[..i])
    {
      var period := s.subPeriods[i];
      assert s.subPeriods[..i + 1][..i] == s.subPeriods[..i];
      ghost var before := absencesUsed;
      for j := 0 to |period.takenAbsences|
        invariant absencesUsed == before + CountedAbsences(period.takenAbsences[..j])
      {
        var takenAbsence := period.takenAbsences[j];
        assert period.takenAbsences[..j + 1][..j] == period.takenAbsences[..j];
        if !takenAbsence.beforeInitialization {
          absencesUsed := absencesUsed + [takenAbsence.absence];
        }
      }
      assert period.takenAbsences[..|period.takenAbsences|] == period.takenAbsences;
    }
    assert s.subPeriods[..|s.subPeriods|] == s.subPeriods;
  }

  /** An absence is counted exactly when some taken absence after the
      initialisation records it. */
  lemma {:induction false} CountedAbsencesIff(ts: seq<TakenAbsence>, a: Absence)
    ensures a in CountedAbsences(ts) <==>
            exists j :: 0 <= j < |ts| && !ts[j].beforeInitialization && ts[j].absence == a
  {
    if ts != [] {
      var init := ts[..|ts| - 1];
      CountedAbsencesIff(init, a);
      if exists j :: 0 <= j < |ts| && !ts[j].beforeInitialization && ts[j].absence == a {
        var j :| 0 <= j < |ts| && !ts[j].beforeInitialization && ts[j].absence == a;
        if j < |ts| - 1 {
          assert init[j] == ts[j];
        }
      }
      if a in CountedAbsences(init) {
        var j :| 0 <= j < |init| && !init[j].beforeInitialization && init[j].absence == a;
        assert ts[j] == init[j];
      }
    }
  }

  /** An absence is among the used ones exactly when some sub-period of the
      chain took it after its initialisation. */
  lemma {:induction false} AbsencesUsedIff(subs: seq<SubPeriod>, a: Absence)
    ensures a in AbsencesUsedOf(subs) <==>
            exists k :: 0 <= k < |subs| && a in CountedAbsences(subs[k].takenAbsences)
  {
    if subs != [] {
      var init := subs[..|subs| - 1];
      AbsencesUsedIff(init, a);
      if exists k :: 0 <= k < |subs| && a in CountedAbsences(subs[k].takenAbsences) {
        var k :| 0 <= k < |subs| && a in CountedAbsences(subs[k].takenAbsences);
        if k < |subs| - 1 {
          assert init[k] == subs[k];
        }
      }
      if a in AbsencesUsedOf(init) {
        var k :| 0 <= k < |init| && a in CountedAbsences(init[k].takenAbsences);
        assert subs[k] == init[k];
      }
    }
  }

  // ---------------------------------------------------------------------
  // Accrued days

  /** The number of days of a sub-period. */
  function Days(cal: Calendar, p: SubPeriod): nat {
    cal.dayInInterval(p.from, p.to)
  }

  function DaysOf(cal: Calendar): SubPeriod -> int {
    (p: SubPeriod) => Days(cal, p)
  }

  /** The test of the `accruedDayTotal` loop: the sub-period starts in the summary's year. */
  function StartsInYear(s: VacationSummary): SubPeriod -> bool {
    (p: SubPeriod) => s.cal.yearOf(p.from) == s.year
  }

  /** The test of the `accruedDay` loop: it also has started by the date. */
  function StartedInYear(s: VacationSummary): SubPeriod -> bool {
    (p: SubPeriod) => s.cal.yearOf(p.from) == s.year && p.from <= s.date
  }

  /** The days of the leading sub-periods that start in the year. */
  function AccruedDayTotal(s: VacationSummary): int {
    SumOf(s.subPeriods[..Leading(s.subPeriods, StartsInYear(s))], DaysOf(s.cal))
  }

  /** The days of the leading sub-periods that start in the year, by the date. */
  function AccruedDay(s: VacationSummary): int {
    SumOf(s.subPeriods[..Leading(s.subPeriods, StartedInYear(s))], DaysOf(s.cal))
  }

  method ComputeAccruedDayTotal(s: VacationSummary) returns (days: int)
    ensures days == AccruedDayTotal(s)
  {
    days := 0;
    for i := 0 to |s.subPeriods|
      invariant forall k :: 0 <= k < i ==> StartsInYear(s)(s.subPeriods[k])
      invariant days == SumOf(s.subPeriods[..i], DaysOf(s.cal))
    {
      var period := s.subPeriods[i];
      if s.cal.yearOf(period.from) != s.year {
        assert Leading(s.subPeriods, StartsInYear(s)) == i;
        return days;
      }
      SumOfSnoc(s.subPeriods, i, DaysOf(s.cal));
      days := days + Days(s.cal, period);
    }
    assert s.subPeriods[..|s.subPeriods|] == s.subPeriods;
  }

  method ComputeAccruedDay(s: VacationSummary) returns (days: int)
    ensures days == AccruedDay(s)
  {
    days := 0;
    for i := 0 to |s.subPeriods|
      invariant forall k :: 0 <= k < i ==> StartedInYear(s)(s.subPeriods[k])
      invariant days == SumOf(s.subPeriods[..i], DaysOf(s.cal))
    {
      var period := s.subPeriods[i];
      if s.cal.yearOf(period.from) != s.year || period.from > s.date {
        assert Leading(s.subPeriods, StartedInYear(s)) == i;
        return days;
      }
      SumOfSnoc(s.subPeriods, i, DaysOf(s.cal));
      days := days + Days(s.cal, period);
    }
    assert s.subPeriods[..|s.subPeriods|] == s.subPeriods;
  }

  /** The days accrued by the date never exceed those of the whole year. */
  lemma AccruedDayAtMostTotal(s: VacationSummary)
    ensures 0 <= AccruedDay(s) <= AccruedDayTotal(s)
  {
    var subs := s.subPeriods;
    var n := Leading(subs, StartedInYear(s));
    var m := Leading(subs, StartsInYear(s));
    LeadingMonotone(subs, StartsInYear(s), StartedInYear(s));
    assert subs[..m][..n] == subs[..n];
    SumOfPrefixAtMost(subs[..m], n, DaysOf(s.cal));
    SumOfNonNegative(subs[..n], DaysOf(s.cal));
  }

  // ---------------------------------------------------------------------
  // Per-sub-period helpers

  /** The index of the first sub-period equal to `p`; `|subs|` when there is none. */
  function IndexOf(subs: seq<SubPeriod>, p: SubPeriod): (n: nat)
    ensures n <= |subs|
    ensures n < |subs| ==> SamePeriod(subs[n], p)
    ensures forall k {:trigger SamePeriod(subs[k], p)} :: 0 <= k < n ==> !SamePeriod(subs[k], p)
  {
    if subs == [] || SamePeriod(subs[0], p) then 0
    else
      var n := 1 + IndexOf(subs[1..], p);
      assert forall k :: 1 <= k < n ==> subs[k] == subs[1..][k - 1];
      n
  }

  /** A member of the chain is found at or before its own position. */
  lemma IndexOfAtMost(subs: seq<SubPeriod>, i: nat)
    requires i < |subs|
    ensures IndexOf(subs, subs[i]) <= i
  {
    assert SamePeriod(subs[i], subs[i]);
  }

  /** The number of leading sub-periods a loop that stops after `p` visits. */
  function UpTo(subs: seq<SubPeriod>, p: SubPeriod): nat {
    var k := IndexOf(subs, p);
    if k < |subs| then k + 1 else k
  }

  function SubAmount(p: SubPeriod): int {
    p.amountBeforeInitializationPatch
  }

  /** Whether the post-partum fix changed the sub-period's amount. */
  predicate SubFixedPostPartum(p: SubPeriod) {
    p.amountBeforeInitializationPatch != p.amountBeforeFixPostPartum
  }

  /** The amount of a sub-period accrued by the summary's date: nothing before it starts. */
  function SubAmountAccrued(s: VacationSummary, p: SubPeriod): int {
    if s.date < p.from then 0 else SubAmount(p)
  }

  predicate SubAccrued(s: VacationSummary, p: SubPeriod) {
    SubAmount(p) == SubAmountAccrued(s, p)
  }

  function SubAmountBeforeFixedPostPartum(p: SubPeriod): int {
    p.amountBeforeFixPostPartum
  }

  /** A sub-period counts as accrued exactly when it has started by the date,
      or when its amount is zero anyway; with a non-negative amount the
      accrued part lies between nothing and the whole. */
  lemma SubAccruedIff(s: VacationSummary, p: SubPeriod)
    ensures SubAccrued(s, p) <==> (p.from <= s.date || SubAmount(p) == 0)
    ensures SubAmount(p) >= 0 ==> 0 <= SubAmountAccrued(s, p) <= SubAmount(p)
  {
  }

  /** The amounts of the sub-periods up to and including `p` (all of them when `p` is absent). */
  function SubTotalAmount(s: VacationSummary, p: SubPeriod): int {
    SumOf(s.subPeriods[..UpTo(s.subPeriods, p)], SubAmount)
  }

  /** The days of the sub-periods up to and including `p` (all of them when `p` is absent). */
  function SubDayProgression(s: VacationSummary, p: SubPeriod): int {
    SumOf(s.subPeriods[..UpTo(s.subPeriods, p)], DaysOf(s.cal))
  }

  method ComputeSubTotalAmount(s: VacationSummary, p: SubPeriod) returns (total: int)
    ensures total == SubTotalAmount(s, p)
  {
    total := 0;
    var i := 0;
    while i < |s.subPeriods|
      invariant 0 <= i <= |s.subPeriods|
      invariant forall k :: 0 <= k < i ==> !SamePeriod(s.subPeriods[k], p)
      invariant total == SumOf(s.subPeriods[..i], SubAmount)
    {
      var subPeriod := s.subPeriods[i];
      SumOfSnoc(s.subPeriods, i, SubAmount);
      total := total + SubAmount(subPeriod);
      if SamePeriod(subPeriod, p) {
        assert IndexOf(s.subPeriods, p) == i;
        return;
      }
      i := i + 1;
    }
    assert s.subPeriods[..|s.subPeriods|] == s.subPeriods;
  }

  method ComputeSubDayProgression(s: VacationSummary, p: SubPeriod) returns (progress: int)
    ensures progress == SubDayProgression(s, p)
  {
    progress := 0;
    var i := 0;
    while i < |s.subPeriods|
      invariant 0 <= i <= |s.subPeriods|
      invariant forall k :: 0 <= k < i ==> !SamePeriod(s.subPeriods[k], p)
      invariant progress == SumOf(s.subPeriods[..i], DaysOf(s.cal))
    {
      var subPeriod := s.subPeriods[i];
      SumOfSnoc(s.subPeriods, i, DaysOf(s.cal));
      progress := progress + Days(s.cal, subPeriod);
      if SamePeriod(subPeriod, p) {
        assert IndexOf(s.subPeriods, p) == i;
        return;
      }
      i := i + 1;
    }
    assert s.subPeriods[..|s.subPeriods|] == s.subPeriods;
  }

  /** No two sub-periods of the chain are equal. */
  predicate Distinct(subs: seq<SubPeriod>) {
    forall a, b :: 0 <= a < b < |subs| ==> !SamePeriod(subs[a], subs[b])
  }

  /** In a chain without repetitions a member is found at its own position. */
  lemma IndexOfDistinct(subs: seq<SubPeriod>, i: nat)
    requires Distinct(subs) && i < |subs|
    ensures IndexOf(subs, subs[i]) == i
  {
    IndexOfAtMost(subs, i);
  }

  /** Every member of the chain is found at its own position: what the
      walks below need of a chain without repetitions. */
  predicate Indexed(subs: seq<SubPeriod>) {
    forall k {:trigger IndexOf(subs, subs[k])} :: 0 <= k < |subs| ==> IndexOf(subs, subs[k]) == k
  }

  lemma DistinctIndexed(subs: seq<SubPeriod>)
    requires Distinct(subs)
    ensures Indexed(subs)
  {
    forall k | 0 <= k < |subs|
      ensures IndexOf(subs, subs[k]) == k
    {
      IndexOfDistinct(subs, k);
    }
  }

  /** In a chain without repetitions the totals up to the `k`-th sub-period
      are the sums over the first `k + 1`; a sub-period not in the chain
      gets the sums over all of it. */
  lemma SubTotalsAt(s: VacationSummary, k: nat)
    requires Distinct(s.subPeriods) && k < |s.subPeriods|
    ensures SubTotalAmount(s, s.subPeriods[k]) == SumOf(s.subPeriods[..k + 1], SubAmount)
    ensures SubDayProgression(s, s.subPeriods[k]) == SumOf(s.subPeriods[..k + 1], DaysOf(s.cal))
  {
    IndexOfDistinct(s.subPeriods, k);
  }

  lemma SubTotalsAbsent(s: VacationSummary, p: SubPeriod)
    requires forall k :: 0 <= k < |s.subPeriods| ==> !SamePeriod(s.subPeriods[k], p)
    ensures SubTotalAmount(s, p) == SumOf(s.subPeriods, SubAmount)
    ensures SubDayProgression(s, p) == SumOf(s.subPeriods, DaysOf(s.cal))
  {
    assert s.subPeriods[..|s.subPeriods|] == s.subPeriods;
  }

  /** Along a chain without repetitions the day progression never decreases
      and never exceeds the days of the whole chain. */
  lemma SubDayProgressionMonotone(s: VacationSummary, j: nat, k: nat)
    requires Distinct(s.subPeriods) && j <= k < |s.subPeriods|
    ensures 0 <= SubDayProgression(s, s.subPeriods[j]) <= SubDayProgression(s, s.subPeriods[k])
    ensures SubDayProgression(s, s.subPeriods[k]) <= SumOf(s.subPeriods, DaysOf(s.cal))
  {
    var subs := s.subPeriods;
    var f := DaysOf(s.cal);
    SubTotalsAt(s, j);
    SubTotalsAt(s, k);
    var upToK := subs[..k + 1];
    assert upToK[..j + 1] == subs[..j + 1];
    DaysNonNegative(s.cal, upToK);
    DaysNonNegative(s.cal, subs);
    DaysNonNegative(s.cal, subs[..j + 1]);
    SumOfPrefixAtMost(upToK, j + 1, f);
    SumOfPrefixAtMost(subs, k + 1, f);
    SumOfNonNegative(subs[..j + 1], f);
  }

  lemma DaysNonNegative(cal: Calendar, subs: seq<SubPeriod>)
    ensures forall k :: 0 <= k < |subs| ==> DaysOf(cal)(subs[k]) >= 0
  {
  }

  // ---------------------------------------------------------------------
  // Post-partum reduction days

  /** The position of the last sub-period generated by a vacation code. */
  function LastEffective(subs: seq<SubPeriod>): (r: Option<nat>)
    ensures r.Some? ==> r.value < |subs| && subs[r.value].hasVacationCode
    ensures r.Some? ==> forall k :: r.value < k < |subs| ==> !subs[k].hasVacationCode
    ensures r.None? ==> forall k :: 0 <= k < |subs| ==> !subs[k].hasVacationCode
  {
    if subs == [] then None
    else if subs[|subs| - 1].hasVacationCode then Some(|subs| - 1)
    else LastEffective(subs[..|subs| - 1])
  }

  /** The loop of `lastEffectiveSubPeriod`: every sub-period generated by a
      vacation code replaces the one found so far. */
  method LastEffectiveSubPeriod(subs: seq<SubPeriod>) returns (lastEffective: Option<nat>)
    ensures lastEffective == LastEffective(subs)
  {
    lastEffective := None;
    for i := 0 to |subs|
      invariant lastEffective == LastEffective(subs[..i])
    {
      assert subs[..i + 1][..i] == subs[..i];
      if subs[i].hasVacationCode {
        lastEffective := Some(i);
      }
    }
    assert subs[..|subs|] == subs;
  }

  /** The backwards hand-out of `toAssign` post-partum days, now at the
      sub-period in position `i`: each one takes as many as it has days, and
      the walk answers with the share of `p`. `None` is the walk stepping
      before the first sub-period without meeting `p`. */
  function ShareWalk(subs: seq<SubPeriod>, p: SubPeriod, cal: Calendar, toAssign: int, i: nat): (r: Option<int>)
    requires i < |subs| && toAssign >= 0
    ensures r.Some? ==> 0 <= r.value <= toAssign && r.value <= Days(cal, p)
    decreases i
  {
    if toAssign == 0 then Some(0)
    else
      var share := Min(toAssign, Days(cal, subs[i]));
      if SamePeriod(p, subs[i]) then Some(share)
      else
        IndexOfAtMost(subs, i);
        var next := IndexOf(subs, subs[i]) - 1;
        if next < 0 then None else ShareWalk(subs, p, cal, toAssign - share, next)
  }

  /** The post-partum days handed to sub-period `p`. */
  function SubDayPostPartum(s: VacationSummary, p: SubPeriod): (r: Option<int>)
    ensures r.Some? ==> 0 <= r.value <= s.postPartumCount && r.value <= Days(s.cal, p)
  {
    match LastEffective(s.subPeriods)
    case None => Some(0)
    case Some(last) => ShareWalk(s.subPeriods, p, s.cal, s.postPartumCount, last)
  }

  /** The days of `p` left once its post-partum share is removed: never negative. */
  function SubDayToFixPostPartum(s: VacationSummary, p: SubPeriod): (r: Option<int>)
    ensures r.Some? <==> SubDayPostPartum(s, p).Some?
    ensures r.Some? ==> 0 <= r.value <= Days(s.cal, p)
  {
    match SubDayPostPartum(s, p)
    case None => None
    case Some(share) => Some(Days(s.cal, p) - share)
  }

  method ComputeSubDayPostPartum(s: VacationSummary, p: SubPeriod) returns (r: Option<int>)
    ensures r == SubDayPostPartum(s, p)
  {
    var postPartumToAssign: int := s.postPartumCount;
    var postPartumAssigned := 0;
    var lastEffective := LastEffectiveSubPeriod(s.subPeriods);
    if lastEffective.None? {
      return Some(0);
    }
    var i: nat := lastEffective.value;
    while true
      invariant i < |s.subPeriods| && postPartumToAssign >= 0
      invariant postPartumAssigned + postPartumToAssign == s.postPartumCount
      invariant ShareWalk(s.subPeriods, p, s.cal, postPartumToAssign, i) == SubDayPostPartum(s, p)
      decreases i
    {
      if postPartumToAssign == 0 {
        return Some(0);
      }
      var current := s.subPeriods[i];
      var periodPostPartum := 0;
      if postPartumToAssign <= Days(s.cal, current) {
        periodPostPartum := postPartumToAssign;
      } else {
        periodPostPartum := Days(s.cal, current);
      }
      postPartumAssigned := postPartumAssigned + periodPostPartum;
      postPartumToAssign := postPartumToAssign - periodPostPartum;
      if SamePeriod(p, current) {
        return Some(periodPostPartum);
      }
      IndexOfAtMost(s.subPeriods, i);
      var next := IndexOf(s.subPeriods, current) - 1;
      if next < 0 {
        return None;
      }
      i := next;
    }
  }

  /** The post-partum days handed to the sub-periods from the last effective
      one back to `p`, added up, starting from `progress`. */
  function ProgressWalk(s: VacationSummary, p: SubPeriod, progress: int, i: nat): Option<int>
    requires i < |s.subPeriods|
    decreases i
  {
    var share := SubDayPostPartum(s, s.subPeriods[i]);
    if share.None? then None
    else if share.value == 0 then Some(0)
    else if SamePeriod(s.subPeriods[i], p) then Some(progress + share.value)
    else
      IndexOfAtMost(s.subPeriods, i);
      var next := IndexOf(s.subPeriods, s.subPeriods[i]) - 1;
      if next < 0 then None else ProgressWalk(s, p, progress + share.value, next)
  }

  function SubDayPostPartumProgression(s: VacationSummary, p: SubPeriod): Option<int> {
    match LastEffective(s.subPeriods)
    case None => Some(0)
    case Some(last) => ProgressWalk(s, p, 0, last)
  }

  method ComputeSubDayPostPartumProgression(s: VacationSummary, p: SubPeriod) returns (r: Option<int>)
    ensures r == SubDayPostPartumProgression(s, p)
  {
    var progress := 0;
    var lastEffective := LastEffectiveSubPeriod(s.subPeriods);
    if lastEffective.None? {
      return Some(progress);
    }
    var i: nat := lastEffective.value;
    while true
      invariant i < |s.subPeriods|
      invariant ProgressWalk(s, p, progress, i) == SubDayPostPartumProgression(s, p)
      decreases i
    {
      var current := s.subPeriods[i];
      var share := ComputeSubDayPostPartum(s, current);
      if share.None? {
        return None;
      }
      if share.value == 0 {
        return Some(0);
      }
      progress := progress + share.value;
      if SamePeriod(current, p) {
        return Some(progress);
      }
      IndexOfAtMost(s.subPeriods, i);
      var next := IndexOf(s.subPeriods, current) - 1;
      if next < 0 {
        return None;
      }
      i := next;
    }
  }

  /** The post-partum days still to hand out when the walk from `last`
      reaches position `j` of a chain without repetitions. */
  function Remaining(s: VacationSummary, last: nat, j: nat): (r: nat)
    requires j <= last < |s.subPeriods|
    ensures r <= s.postPartumCount
    decreases last - j
  {
    if j == last then s.postPartumCount
    else
      var before := Remaining(s, last, j + 1);
      before - Min(before, Days(s.cal, s.subPeriods[j + 1]))
  }

  lemma {:induction false} RemainingShrinks(s: VacationSummary, last: nat, j: nat, i: nat)
    requires j <= i <= last < |s.subPeriods|
    ensures Remaining(s, last, j) <= Remaining(s, last, i)
    decreases i - j
  {
    if j < i {
      RemainingShrinks(s, last, j + 1, i);
    }
  }

  /** In a chain without repetitions the walk started from `last` hands the
      sub-period in position `j` the smaller of its days and what is left. */
  lemma {:induction false} ShareWalkAt(s: VacationSummary, last: nat, i: nat, j: nat)
    requires Indexed(s.subPeriods)
    requires j <= i <= last < |s.subPeriods|
    ensures ShareWalk(s.subPeriods, s.subPeriods[j], s.cal, Remaining(s, last, i), i)
         == Some(Min(Remaining(s, last, j), Days(s.cal, s.subPeriods[j])))
    decreases i - j
  {
    var subs := s.subPeriods;
    var rem := Remaining(s, last, i);
    if rem == 0 {
      RemainingShrinks(s, last, j, i);
    } else if i > j {
      assert IndexOf(subs, subs[i]) == i;
      assert !SamePeriod(subs[j], subs[i]);
      ShareWalkAt(s, last, i - 1, j);
    }
  }

  /** The post-partum share of every sub-period up to the last effective one. */
  lemma SubDayPostPartumAt(s: VacationSummary, j: nat)
    requires Distinct(s.subPeriods)
    requires LastEffective(s.subPeriods).Some? && j <= LastEffective(s.subPeriods).value
    ensures var last := LastEffective(s.subPeriods).value;
            SubDayPostPartum(s, s.subPeriods[j])
              == Some(Min(Remaining(s, last, j), Days(s.cal, s.subPeriods[j])))
  {
    var last := LastEffective(s.subPeriods).value;
    DistinctIndexed(s.subPeriods);
    ShareWalkAt(s, last, last, j);
  }

  /** One step of the progression walk in a chain without repetitions: the
      walk moves on to the previous position. */
  lemma ProgressWalkStep(s: VacationSummary, p: SubPeriod, progress: int, i: nat)
    requires Indexed(s.subPeriods) && i < |s.subPeriods|
    ensures var share := SubDayPostPartum(s, s.subPeriods[i]);
            ProgressWalk(s, p, progress, i)
              == if share.None? then None
                 else if share.value == 0 then Some(0)
                 else if SamePeriod(s.subPeriods[i], p) then Some(progress + share.value)
                 else if i == 0 then None
                 else ProgressWalk(s, p, progress + share.value, i - 1)
  {
    assert IndexOf(s.subPeriods, s.subPeriods[i]) == i;
  }

  /** The step of the walk from position `i` when it starts with what the
      earlier positions have taken: `share` is what position `i` takes. */
  lemma ProgressWalkFrom(s: VacationSummary, p: SubPeriod, last: nat, i: nat) returns (share: int)
    requires Indexed(s.subPeriods)
    requires LastEffective(s.subPeriods) == Some(last) && i <= last
    ensures share == Min(Remaining(s, last, i), Days(s.cal, s.subPeriods[i]))
    ensures var progress := s.postPartumCount - Remaining(s, last, i);
            var r := ProgressWalk(s, p, progress, i);
            (share == 0 ==> r == Some(0))
            && (share != 0 && SamePeriod(s.subPeriods[i], p) ==> r == Some(progress + share))
            && (share != 0 && !SamePeriod(s.subPeriods[i], p) && i == 0 ==> r.None?)
            && (share != 0 && !SamePeriod(s.subPeriods[i], p) && i > 0 ==>
                  r == ProgressWalk(s, p, s.postPartumCount - Remaining(s, last, i - 1), i - 1))
  {
    var rem := Remaining(s, last, i);
    ShareWalkAt(s, last, last, i);
    share := Min(rem, Days(s.cal, s.subPeriods[i]));
    ProgressWalkStep(s, p, s.postPartumCount - rem, i);
    if i > 0 {
      assert Remaining(s, last, i - 1) == rem - share;
    }
  }

  lemma {:induction false} ProgressWalkBounded(s: VacationSummary, p: SubPeriod, last: nat, i: nat)
    requires Indexed(s.subPeriods)
    requires LastEffective(s.subPeriods) == Some(last) && i <= last
    ensures var r := ProgressWalk(s, p, s.postPartumCount - Remaining(s, last, i), i);
            r.Some? ==> 0 <= r.value <= s.postPartumCount
    decreases i
  {
    var share := ProgressWalkFrom(s, p, last, i);
    if share != 0 && !SamePeriod(s.subPeriods[i], p) && i > 0 {
      ProgressWalkBounded(s, p, last, i - 1);
    }
  }

  /** In a chain without repetitions the post-partum progression up to any
      sub-period never exceeds the post-partum days to distribute. */
  lemma ProgressionAtMostPostPartum(s: VacationSummary, p: SubPeriod)
    requires Distinct(s.subPeriods)
    ensures var r := SubDayPostPartumProgression(s, p);
            r.Some? ==> 0 <= r.value <= s.postPartumCount
  {
    var last := LastEffective(s.subPeriods);
    if last.Some? {
      DistinctIndexed(s.subPeriods);
      ProgressWalkBounded(s, p, last.value, last.value);
    }
  }
}
