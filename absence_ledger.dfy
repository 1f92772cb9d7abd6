/** The values an absence period is made of (taken absences, completion
    records, per-day ledgers, initialisations, sub-periods) and the pure
    arithmetic of its takable and taken amounts under the three counting
    strategies. */
module Ledger {
  import opened Common

  /** How an amount is measured: units are scaled by 100 to avoid fractions. */
  datatype AmountType = Units | Minutes

  /** How a cap or a consumption is counted. */
  datatype CountBehaviour = Period | SumAllPeriod | SumUntilPeriod

  /** The absence code whose presence among the taken codes marks a period
      as an extension of the previous one. */
  const ExtensionCode: Code := "37"

  datatype Absence = Absence(id: int, date: Date, code: Code)

  /** One consumption of the period's budget. */
  datatype TakenAbsence = TakenAbsence(
    absence: Absence,
    amountType: Option<AmountType>,
    periodTakableTotal: int,
    periodTakenBefore: int,
    takenAmount: int,
    beforeInitialization: bool)

  /** One completion: the residual before it, what it consumed, and the
      residual left once the replacing code (if any) was subtracted. */
  datatype ComplationAbsence = ComplationAbsence(
    absence: Absence,
    amountType: AmountType,
    residualComplationBefore: int,
    consumedComplation: int,
    residualComplationAfter: int)

  /** The ledger of one date of a period. */
  datatype DayInPeriod = DayInPeriod(
    date: Date,
    takenAbsences: seq<TakenAbsence>,
    existentComplations: seq<Absence>,
    existentReplacings: seq<Absence>,
    correctReplacing: Option<Code>,
    complationAbsence: Option<ComplationAbsence>)

  /** A fresh, empty ledger for a date. */
  function EmptyDay(date: Date): (d: DayInPeriod)
    ensures d.date == date && d.takenAbsences == [] && d.existentComplations == []
  {
    DayInPeriod(date, [], [], [], None, None)
  }

  /** An initialisation baseline: what was already used before the
      system started recording. */
  datatype Initialization = Initialization(
    date: Date,
    hoursInput: int,
    minutesInput: int,
    unitsInput: int,
    averageWeekTime: int)

  /** What a parent period reads of each of its sub-periods. */
  datatype SubPeriod = SubPeriod(
    personId: int,
    from: Date,
    to: Date,
    fixedPeriodTakableAmount: int,
    initializationTakableUsed: int,
    takenAbsences: seq<TakenAbsence>,
    takenCodes: set<Code>,
    hasVacationCode: bool,
    initialization: Option<Initialization>,
    amountBeforeInitializationPatch: int,
    amountBeforeFixPostPartum: int)

  /** Period equality: same person, same start, same end. The absence group
      is compared with itself, so it never makes two periods differ. */
  predicate SamePeriod(a: SubPeriod, b: SubPeriod) {
    a.personId == b.personId && a.from == b.from && a.to == b.to
  }

  // ---------------------------------------------------------------------
  // Takable amount

  /** The amount stored as the fixed cap: units are kept multiplied by 100. */
  function ScaledAmount(t: AmountType, amount: int): int {
    if t == Units then amount * 100 else amount
  }

  /** Reading the stored cap back in the caller's unit gives the amount set. */
  lemma ScaledAmountRoundTrip(t: AmountType, amount: int)
    ensures (if t == Units then JavaDiv(ScaledAmount(t, amount), 100) else ScaledAmount(t, amount)) == amount
  {
    if t == Units {
      JavaDivHundred(amount);
    }
  }

  /** The agile-work cap of a period: two days (200) less than the fixed
      amount in February; otherwise half the working days of the month,
      rounded down to a whole day and strictly below that half. */
  function AgileCap(fixed: int, february: bool, workingDays: nat): (r: int)
    ensures february ==> r == fixed - 200
    ensures !february ==> r % 100 == 0 && r < workingDays * 50 <= r + 100
  {
    if february then fixed - 2 * 100
    else
      var count := JavaDiv(workingDays * 100, 2);
      if JavaRem(count, 100) != 0 then count - JavaRem(count, 100) else count - 1 * 100
  }

  function FixedAmountOf(p: SubPeriod): int {
    p.fixedPeriodTakableAmount
  }

  /** The test of the `sumUntilPeriod` loop: the sub-period does not start after `date`. */
  function StartsNotAfter(date: Date): SubPeriod -> bool {
    (p: SubPeriod) => p.from <= date
  }

  /** Number of leading sub-periods counted up to `date`. */
  function UntilCount(subs: seq<SubPeriod>, date: Date): (n: nat)
    ensures n <= |subs|
    ensures forall k :: 0 <= k < n ==> subs[k].from <= date
    ensures n < |subs| ==> subs[n].from > date
  {
    Leading(subs, StartsNotAfter(date))
  }

  /** The cap under `sumAllPeriod`: every sub-period's fixed amount. */
  function SumAllTakable(subs: seq<SubPeriod>): int {
    SumOf(subs, FixedAmountOf)
  }

  /** The cap under `sumUntilPeriod`: the leading sub-periods up to `date`. */
  function SumUntilTakable(subs: seq<SubPeriod>, date: Date): int {
    SumOf(subs[..UntilCount(subs, date)], FixedAmountOf)
  }

  predicate NonNegativeAmounts(subs: seq<SubPeriod>) {
    forall k :: 0 <= k < |subs| ==> subs[k].fixedPeriodTakableAmount >= 0
  }

  /** With non-negative fixed amounts, what has accrued up to any date never
      exceeds the whole cap. */
  lemma SumUntilAtMostSumAll(subs: seq<SubPeriod>, date: Date)
    requires NonNegativeAmounts(subs)
    ensures 0 <= SumUntilTakable(subs, date) <= SumAllTakable(subs)
  {
    var n := UntilCount(subs, date);
    assert forall k :: 0 <= k < |subs| ==> FixedAmountOf(subs[k]) >= 0;
    SumOfPrefixAtMost(subs, n, FixedAmountOf);
    SumOfNonNegative(subs[..n], FixedAmountOf);
  }

  /** The takable amount of a period under a counting strategy. */
  function PeriodTakable(behaviour: CountBehaviour, fixed: int, agile: bool, february: bool,
                         workingDays: nat, subs: seq<SubPeriod>, date: Date): int
  {
    match behaviour
    case Period => if agile then AgileCap(fixed, february, workingDays) else fixed
    case SumAllPeriod => SumAllTakable(subs)
    case SumUntilPeriod => SumUntilTakable(subs, date)
  }

  // ---------------------------------------------------------------------
  // Taken amount

  /** What a taken absence counts: nothing when it precedes the initialisation. */
  function CountedAmount(t: TakenAbsence): int {
    if t.beforeInitialization then 0 else t.takenAmount
  }

  function TakenSum(ts: seq<TakenAbsence>): int {
    SumOf(ts, CountedAmount)
  }

  /** What one sub-period has consumed: its initialisation plus its counted absences. */
  function SubTaken(p: SubPeriod): int {
    p.initializationTakableUsed + TakenSum(p.takenAbsences)
  }

  /** All taken absences of a period, day after day in date order. */
  function TakenAbsencesOf(days: seq<DayInPeriod>): seq<TakenAbsence> {
    if days == [] then [] else TakenAbsencesOf(days[..|days| - 1]) + days[|days| - 1].takenAbsences
  }

  /** The counted amount of a concatenation is the sum of the parts. */
  lemma {:induction false} TakenSumAppend(a: seq<TakenAbsence>, b: seq<TakenAbsence>)
    ensures TakenSum(a + b) == TakenSum(a) + TakenSum(b)
  {
    if b != [] {
      var b' := b[..|b| - 1];
      assert (a + b)[..|a + b| - 1] == a + b';
      TakenSumAppend(a, b');
    } else {
      assert a + b == a;
    }
  }

  /** The taken amount of a period under a counting strategy. */
  function PeriodTaken(behaviour: CountBehaviour, initUsed: int, days: seq<DayInPeriod>,
                       subs: seq<SubPeriod>, date: Date): int
  {
    match behaviour
    case Period => initUsed + TakenSum(TakenAbsencesOf(days))
    case SumAllPeriod => SumOf(subs, SubTaken)
    case SumUntilPeriod => SumOf(subs[..UntilCount(subs, date)], SubTaken)
  }

  /** Absences before the initialisation never change the taken amount, and
      every other one adds exactly its taken amount. */
  lemma TakenSumCountsOnlyAfterInitialization(ts: seq<TakenAbsence>, t: TakenAbsence)
    ensures TakenSum(ts + [t]) == TakenSum(ts) + (if t.beforeInitialization then 0 else t.takenAmount)
  {
    assert (ts + [t])[..|ts + [t]| - 1] == ts;
  }

  // ---------------------------------------------------------------------
  // Initialisation

  function InitializationMinutes(init: Initialization): int {
    init.hoursInput * 60 + init.minutesInput
  }

  /** `minutes` as a percentage of a working day of `workTime` minutes. */
  function WorkingTypePercent(minutes: int, workTime: int): int
    requires workTime != 0
  {
    JavaDiv(minutes * 100, workTime)
  }

  /** The fraction of a day left over, in hundredths of a day. */
  function WorkingTypePercentModule(minutes: int, workTime: int): (r: int)
    requires workTime != 0
    ensures -100 < r < 100
    ensures minutes >= 0 && workTime > 0 ==> 0 <= r < 100
  {
    var percent := WorkingTypePercent(minutes, workTime);
    assert minutes >= 0 && workTime > 0 ==> percent >= 0;
    JavaRem(percent, 100)
  }

  /** The takable amount already used at initialisation: minutes when the
      period counts minutes, and hundredths of units (whole units plus the
      fraction of a day the minutes make) when it counts units. */
  function InitializationTakableUsed(init: Option<Initialization>, takableMinutes: bool,
                                     takableUnits: bool): (r: int)
    requires init.Some? && !takableMinutes && takableUnits && InitializationMinutes(init.value) > 0
             ==> init.value.averageWeekTime != 0
    ensures init.None? || (!takableMinutes && !takableUnits) ==> r == 0
    ensures init.Some? && takableMinutes ==> r == InitializationMinutes(init.value)
    ensures init.Some? && !takableMinutes && takableUnits && init.value.averageWeekTime > 0
            && init.value.unitsInput >= 0 && InitializationMinutes(init.value) >= 0
            ==> r >= init.value.unitsInput * 100
  {
    if init.None? then 0
    else
      var minutes := InitializationMinutes(init.value);
      if takableMinutes then minutes
      else if takableUnits then
        var units := init.value.unitsInput * 100;
        if minutes > 0 then units + WorkingTypePercent(minutes, init.value.averageWeekTime) else units
      else 0
  }
}
