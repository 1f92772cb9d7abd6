/** An absence period: one person's date range for one absence group, with
    its cap (takable amount), its consumption (taken amount), the per-date
    ledgers of the absences it holds, and the completion/replacement pass. */
module AbsencePeriods {
  import opened Common
  import opened Ledger
  import opened Complation

  /** The answers of the period's collaborators: the absence type the
      agile-work code resolves to, the month of a date, and the working days
      of a person between two dates. */
  datatype Environment = Environment(
    agileCode: Code,
    monthOf: Date -> int,
    workingDaysInMonth: (int, Date, Date) -> nat)

  const February: int := 2

  datatype AbsenceProblem = CompromisedTwoComplation
  datatype AbsenceError = AbsenceError(absence: Absence, problem: AbsenceProblem)

  // ---------------------------------------------------------------------
  // The sorted per-date map of ledgers

  /** The per-date ledgers, kept as the ordered view of a sorted map. */
  predicate SortedByDate(days: seq<DayInPeriod>) {
    forall i, j :: 0 <= i < j < |days| ==> days[i].date < days[j].date
  }

  function DateBefore(date: Date): DayInPeriod -> bool {
    (d: DayInPeriod) => d.date < date
  }

  /** Where the ledger of `date` is, or would be inserted. */
  function DayPosition(days: seq<DayInPeriod>, date: Date): nat {
    Leading(days, DateBefore(date))
  }

  predicate HasDay(days: seq<DayInPeriod>, date: Date) {
    DayPosition(days, date) < |days| && days[DayPosition(days, date)].date == date
  }

  /** The ledgers after looking `date` up: an empty one is added if missing. */
  function EnsureDay(days: seq<DayInPeriod>, date: Date): seq<DayInPeriod> {
    if HasDay(days, date) then days
    else days[..DayPosition(days, date)] + [EmptyDay(date)] + days[DayPosition(days, date)..]
  }

  /** The ledger of `date` is at its position exactly when the date has one. */
  lemma HasDayIff(days: seq<DayInPeriod>, date: Date)
    requires SortedByDate(days)
    ensures HasDay(days, date) <==> exists k :: 0 <= k < |days| && days[k].date == date
  {
    var pos := DayPosition(days, date);
    if exists k :: 0 <= k < |days| && days[k].date == date {
      var k :| 0 <= k < |days| && days[k].date == date;
      assert !DateBefore(date)(days[k]);
      if pos < |days| {
        assert !DateBefore(date)(days[pos]);
        assert k >= pos;
        assert k > pos ==> days[pos].date < days[k].date;
      }
    }
  }

  /** Where the missing ledger is inserted, and where the others go. */
  lemma InsertDayElements(days: seq<DayInPeriod>, date: Date)
    requires !HasDay(days, date)
    ensures var e := EnsureDay(days, date); var pos := DayPosition(days, date);
      |e| == |days| + 1 && e[pos] == EmptyDay(date) &&
      (forall k :: 0 <= k < pos ==> e[k] == days[k]) &&
      (forall k :: pos < k < |e| ==> e[k] == days[k - 1])
  {
  }

  /** Inserting the missing ledger at its position keeps the dates sorted. */
  lemma InsertDaySorted(days: seq<DayInPeriod>, date: Date)
    requires SortedByDate(days) && !HasDay(days, date)
    ensures SortedByDate(EnsureDay(days, date))
  {
    InsertDayElements(days, date);
    var e := EnsureDay(days, date);
    var pos := DayPosition(days, date);
    assert forall k :: 0 <= k < pos ==> DateBefore(date)(days[k]);
    assert pos < |days| ==> !DateBefore(date)(days[pos]) && days[pos].date != date;
    SortedAfterInsert(days, e, pos, date);
  }

  lemma SortedAfterInsert(days: seq<DayInPeriod>, e: seq<DayInPeriod>, pos: nat, date: Date)
    requires SortedByDate(days) && pos <= |days|
    requires |e| == |days| + 1 && e[pos].date == date
    requires forall k :: 0 <= k < pos ==> e[k] == days[k] && days[k].date < date
    requires forall k :: pos < k < |e| ==> e[k] == days[k - 1]
    requires pos < |days| ==> days[pos].date > date
    ensures SortedByDate(e)
  {
    forall i, j | 0 <= i < j < |e| ensures e[i].date < e[j].date {
      if j <= pos {
      } else if i < pos {
        assert e[j] == days[j - 1];
      } else if i == pos {
        assert days[pos].date <= days[j - 1].date;
      } else {
        assert e[i] == days[i - 1] && e[j] == days[j - 1];
      }
    }
  }

  /** Looking a date up creates its ledger only when it is missing, keeps the
      map sorted, and leaves every other ledger as it was. */
  lemma EnsureDaySpec(days: seq<DayInPeriod>, date: Date)
    requires SortedByDate(days)
    ensures var e := EnsureDay(days, date); var pos := DayPosition(days, date);
      SortedByDate(e) &&
      pos < |e| && e[pos].date == date &&
      (HasDay(days, date) <==> exists k :: 0 <= k < |days| && days[k].date == date) &&
      (HasDay(days, date) ==> e == days) &&
      (!HasDay(days, date) ==> |e| == |days| + 1 && e[pos] == EmptyDay(date)) &&
      (forall k :: 0 <= k < |days| ==> days[k] in e) &&
      (forall k :: 0 <= k < |e| && k != pos ==> e[k] in days)
  {
    HasDayIff(days, date);
    if !HasDay(days, date) {
      InsertDayElements(days, date);
      InsertDaySorted(days, date);
      var e := EnsureDay(days, date);
      var pos := DayPosition(days, date);
      forall k | 0 <= k < |days| ensures days[k] in e {
        if k < pos { assert e[k] == days[k]; } else { assert e[k + 1] == days[k]; }
      }
      forall k | 0 <= k < |e| && k != pos ensures e[k] in days {
        if k < pos { assert e[k] == days[k]; } else { assert e[k] == days[k - 1]; }
      }
    }
  }

  // ---------------------------------------------------------------------
  // The limit-exceeded latch

  /** The latch keeps the earliest date it was ever given. */
  function Latch(current: Option<Date>, date: Date): (r: Option<Date>)
    ensures r.Some?
    ensures r.value <= date
    ensures current.Some? ==> r.value <= current.value
    ensures r.value == date || r == current
  {
    if current.None? || current.value > date then Some(date) else current
  }

  /** The latch after a series of dates. */
  function LatchAll(current: Option<Date>, dates: seq<Date>): Option<Date> {
    if dates == [] then current else Latch(LatchAll(current, dates[..|dates| - 1]), dates[|dates| - 1])
  }

  /** After any non-empty series the latch holds one of the dates supplied
      (or its earlier value), and no date supplied is earlier. */
  lemma {:induction false} LatchAllIsEarliest(current: Option<Date>, dates: seq<Date>)
    requires dates != []
    ensures var r := LatchAll(current, dates);
      r.Some? &&
      (r.value in dates || r == current) &&
      (forall k :: 0 <= k < |dates| ==> r.value <= dates[k]) &&
      (current.Some? ==> r.value <= current.value)
  {
    var init := dates[..|dates| - 1];
    if init != [] {
      LatchAllIsEarliest(current, init);
    }
  }

  /** Supplying the same date again changes nothing. */
  lemma LatchIdempotent(current: Option<Date>, date: Date)
    ensures Latch(Latch(current, date), date) == Latch(current, date)
  {
  }

  /** The completion pass keeps every date, so the map stays sorted. */
  lemma PassKeepsSorted(days: seq<DayInPeriod>, amount: int, init: Option<Initialization>,
                        u: EngineUtility, times: map<Code, int>, t: AmountType)
    requires ReplacingWellFormed(u, times)
    requires SortedByDate(days)
    ensures SortedByDate(Pass(days, amount, init, u, times, t).days)
  {
    PassKeepsLedgers(days, amount, init, u, times, t);
  }

  lemma KeepDay(days: seq<DayInPeriod>, i: nat, rest: seq<DayInPeriod>)
    requires i < |days|
    ensures days[..i] + ([days[i]] + rest) == days[..i + 1] + rest
    ensures days[i + 1..] == days[i..][1..]
  {
    assert days[..i + 1] == days[..i] + [days[i]];
  }

  lemma ReplaceDay(days: seq<DayInPeriod>, i: nat, d: DayInPeriod, rest: seq<DayInPeriod>)
    requires i < |days|
    ensures days[..i] + ([d] + rest) == days[i := d][..i + 1] + rest
    ensures days[i := d][i + 1..] == days[i + 1..]
  {
    assert days[i := d][..i + 1] == days[..i] + [d];
  }

  // ---------------------------------------------------------------------
  // The period

  class AbsencePeriod {
    const personId: int
    const groupId: int
    const env: Environment
    var from: Date
    var to: Date
    var initialization: Option<Initialization>
    var daysInPeriod: seq<DayInPeriod>
    var subPeriods: seq<SubPeriod>
    var takeAmountType: Option<AmountType>
    var takableCountBehaviour: CountBehaviour
    var fixedPeriodTakableAmount: int
    var takenCountBehaviour: CountBehaviour
    var takableCodes: set<Code>
    var limitExceedDate: Option<Date>
    var complationAmountType: Option<AmountType>
    var replacingTimes: map<Code, int>
    var errors: seq<AbsenceError>

    ghost predicate Valid()
      reads this
    {
      SortedByDate(daysInPeriod)
    }

    /** A new period of a person and group, with nothing recorded yet. */
    constructor (personId: int, groupId: int, env: Environment)
      ensures Valid()
      ensures this.personId == personId && this.groupId == groupId && this.env == env
      ensures daysInPeriod == [] && subPeriods == [] && errors == []
      ensures fixedPeriodTakableAmount == 0 && limitExceedDate.None?
      ensures initialization.None? && takeAmountType.None? && complationAmountType.None?
    {
      this.personId := personId;
      this.groupId := groupId;
      this.env := env;
      from, to := 0, 0;
      initialization := None;
      daysInPeriod := [];
      subPeriods := [];
      takeAmountType := None;
      takableCountBehaviour := Period;
      fixedPeriodTakableAmount := 0;
      takenCountBehaviour := Period;
      takableCodes := {};
      limitExceedDate := None;
      complationAmountType := None;
      replacingTimes := map[];
      errors := [];
    }

    // --- the takable side --------------------------------------------

    /** The cap counted with `behaviour`, up to `date` where that matters. */
    function TakableAmount(behaviour: CountBehaviour, date: Date): int
      reads this
    {
      PeriodTakable(behaviour, fixedPeriodTakableAmount, env.agileCode in takableCodes,
                    env.monthOf(from) == February, env.workingDaysInMonth(personId, from, to),
                    subPeriods, date)
    }

    function PeriodTakableAmount(): int
      reads this
    {
      TakableAmount(takableCountBehaviour, from)
    }

    predicate IsTakable()
      reads this
    {
      takeAmountType.Some?
    }

    /** Takable, with a negative cap meaning "no limit". */
    predicate IsTakableNoLimit()
      reads this
    {
      takeAmountType.Some? && PeriodTakableAmount() < 0
    }

    predicate IsTakableWithLimit()
      reads this
    {
      IsTakable() && !IsTakableNoLimit()
    }

    predicate IsTakableUnits()
      reads this
    {
      IsTakableWithLimit() && takeAmountType == Some(Units)
    }

    predicate IsTakableMinutes()
      reads this
    {
      IsTakableWithLimit() && takeAmountType == Some(Minutes)
    }

    /** The four takable classifications: limited periods are exactly the
        takable ones with a non-negative cap, and each is either in units or
        in minutes. */
    lemma TakableClassification()
      ensures IsTakableWithLimit() <==> takeAmountType.Some? && PeriodTakableAmount() >= 0
      ensures IsTakableWithLimit() <==> (IsTakableUnits() || IsTakableMinutes())
      ensures !(IsTakableUnits() && IsTakableMinutes())
      ensures !(IsTakableNoLimit() && IsTakableWithLimit())
    {
      if takeAmountType.Some? {
        assert takeAmountType.value == Units || takeAmountType.value == Minutes;
      }
    }

    /** Stores the fixed cap; units are kept multiplied by 100. */
    method SetFixedPeriodTakableAmount(amount: int)
      requires takeAmountType.Some?
      modifies this`fixedPeriodTakableAmount
      ensures fixedPeriodTakableAmount == ScaledAmount(takeAmountType.value, amount)
    {
      if takeAmountType.value == Units {
        fixedPeriodTakableAmount := amount * 100;
      } else {
        fixedPeriodTakableAmount := amount;
      }
    }

    /** The cap under a counting strategy, as the source's loops compute it. */
    method ComputePeriodTakableAmount(behaviour: CountBehaviour, date: Date) returns (r: int)
      ensures r == TakableAmount(behaviour, date)
    {
      if behaviour == Period {
        if env.agileCode in takableCodes {
          if env.monthOf(from) == February {
            return fixedPeriodTakableAmount - 2 * 100;
          }
          var workingDays := env.workingDaysInMonth(personId, from, to);
          var count := JavaDiv(workingDays * 100, 2);
          if JavaRem(count, 100) != 0 {
            return count - JavaRem(count, 100);
          }
          return count - 1 * 100;
        }
        return fixedPeriodTakableAmount;
      }
      var takableAmount := 0;
      var i := 0;
      while i < |subPeriods|
        invariant 0 <= i <= |subPeriods|
        invariant behaviour == SumUntilPeriod ==> i <= UntilCount(subPeriods, date)
        invariant takableAmount == SumOf(subPeriods[..i], FixedAmountOf)
      {
        if behaviour == SumUntilPeriod && subPeriods[i].from > date {
          break;
        }
        SumOfSnoc(subPeriods, i, FixedAmountOf);
        takableAmount := takableAmount + subPeriods[i].fixedPeriodTakableAmount;
        i := i + 1;
      }
      assert subPeriods[..|subPeriods|] == subPeriods;
      return takableAmount;
    }

    method GetPeriodTakableAmount() returns (r: int)
      ensures r == PeriodTakableAmount()
    {
      r := ComputePeriodTakableAmount(takableCountBehaviour, from);
    }

    // --- the taken side ----------------------------------------------

    /** The division by the average working time is defined: it is made
        only for a units cap whose initialisation has minutes. */
    predicate InitializationDivisorOk()
      reads this
    {
      initialization.Some? && !IsTakableMinutes() && IsTakableUnits()
      && InitializationMinutes(initialization.value) > 0
      ==> initialization.value.averageWeekTime != 0
    }

    /** Only the `period` strategy reads the period's own initialisation. */
    predicate TakenDivisorOk(behaviour: CountBehaviour)
      reads this
    {
      behaviour == Period ==> InitializationDivisorOk()
    }

    /** What the initialisation already used of the cap. */
    function InitializationTakableUsedAmount(): int
      reads this
      requires InitializationDivisorOk()
    {
      InitializationTakableUsed(initialization, IsTakableMinutes(), IsTakableUnits())
    }

    /** The consumption counted with `behaviour`, up to `date` where that matters. */
    function TakenAmount(behaviour: CountBehaviour, date: Date): int
      reads this
      requires TakenDivisorOk(behaviour)
    {
      var initUsed := if behaviour == Period then InitializationTakableUsedAmount() else 0;
      PeriodTaken(behaviour, initUsed, daysInPeriod, subPeriods, date)
    }

    function PeriodTakenAmount(): int
      reads this
      requires TakenDivisorOk(takenCountBehaviour)
    {
      TakenAmount(takenCountBehaviour, from)
    }

    /** All taken absences of the period, day after day. */
    method TakenAbsences() returns (ts: seq<TakenAbsence>)
      ensures ts == TakenAbsencesOf(daysInPeriod)
    {
      ts := [];
      for i := 0 to |daysInPeriod|
        invariant ts == TakenAbsencesOf(daysInPeriod[..i])
      {
        assert daysInPeriod[..i + 1][..i] == daysInPeriod[..i];
        ts := ts + daysInPeriod[i].takenAbsences;
      }
      assert daysInPeriod[..|daysInPeriod|] == daysInPeriod;
    }

    /** The consumption under a counting strategy, as the source's loops compute it. */
    method ComputePeriodTakenAmount(behaviour: CountBehaviour, date: Date) returns (r: int)
      requires TakenDivisorOk(behaviour)
      ensures r == TakenAmount(behaviour, date)
    {
      if behaviour == Period {
        var takenInPeriod := InitializationTakableUsedAmount();
        var ts := TakenAbsences();
        for j := 0 to |ts|
          invariant takenInPeriod == InitializationTakableUsedAmount() + TakenSum(ts[..j])
        {
          SumOfSnoc(ts, j, CountedAmount);
          if !ts[j].beforeInitialization {
            takenInPeriod := takenInPeriod + ts[j].takenAmount;
          }
        }
        assert ts[..|ts|] == ts;
        return takenInPeriod;
      }
      var taken := 0;
      var i := 0;
      while i < |subPeriods|
        invariant 0 <= i <= |subPeriods|
        invariant behaviour == SumUntilPeriod ==> i <= UntilCount(subPeriods, date)
        invariant taken == SumOf(subPeriods[..i], SubTaken)
      {
        if behaviour == SumUntilPeriod && subPeriods[i].from > date {
          break;
        }
        var sub := subPeriods[i];
        taken := taken + sub.initializationTakableUsed;
        for j := 0 to |sub.takenAbsences|
          invariant taken == SumOf(subPeriods[..i], SubTaken) + sub.initializationTakableUsed
                             + TakenSum(sub.takenAbsences[..j])
        {
          SumOfSnoc(sub.takenAbsences, j, CountedAmount);
          if !sub.takenAbsences[j].beforeInitialization {
            taken := taken + sub.takenAbsences[j].takenAmount;
          }
        }
        assert sub.takenAbsences[..|sub.takenAbsences|] == sub.takenAbsences;
        SumOfSnoc(subPeriods, i, SubTaken);
        i := i + 1;
      }
      assert subPeriods[..|subPeriods|] == subPeriods;
      return taken;
    }

    method GetPeriodTakenAmount() returns (r: int)
      requires TakenDivisorOk(takenCountBehaviour)
      ensures r == PeriodTakenAmount()
    {
      r := ComputePeriodTakenAmount(takenCountBehaviour, from);
    }

    /** What is left of the cap. */
    method GetRemainingAmount() returns (r: int)
      requires TakenDivisorOk(takenCountBehaviour)
      ensures r == PeriodTakableAmount() - PeriodTakenAmount()
    {
      var takable := GetPeriodTakableAmount();
      var taken := GetPeriodTakenAmount();
      r := takable - taken;
    }

    /** A taken absence that records the cap and the consumption so far;
        it precedes the initialisation exactly when there is one and the
        absence is not after its date. */
    method BuildTakenAbsence(absence: Absence, takenAmount: int) returns (t: TakenAbsence)
      requires TakenDivisorOk(takenCountBehaviour)
      ensures t.absence == absence && t.takenAmount == takenAmount && t.amountType == takeAmountType
      ensures t.periodTakableTotal == PeriodTakableAmount()
      ensures t.periodTakenBefore == PeriodTakenAmount()
      ensures t.beforeInitialization <==> initialization.Some? && absence.date <= initialization.value.date
    {
      var periodTakableAmount := GetPeriodTakableAmount();
      var periodTakenAmount := GetPeriodTakenAmount();
      t := TakenAbsence(absence, takeAmountType, periodTakableAmount, periodTakenAmount, takenAmount, false);
      if initialization.Some? && !(absence.date > initialization.value.date) {
        t := t.(beforeInitialization := true);
      }
    }

    // --- the per-date ledgers ----------------------------------------

    /** The ledger of `date`, created empty if missing; returns its position. */
    method GetDayInPeriod(date: Date) returns (pos: nat)
      requires Valid()
      modifies this`daysInPeriod
      ensures Valid()
      ensures daysInPeriod == EnsureDay(old(daysInPeriod), date)
      ensures pos == DayPosition(old(daysInPeriod), date)
      ensures pos < |daysInPeriod| && daysInPeriod[pos].date == date
    {
      EnsureDaySpec(daysInPeriod, date);
      pos := DayPosition(daysInPeriod, date);
      if !HasDay(daysInPeriod, date) {
        daysInPeriod := daysInPeriod[..pos] + [EmptyDay(date)] + daysInPeriod[pos..];
      }
    }

    /** Records a taken absence on its date's ledger. */
    method AddTakenAbsence(t: TakenAbsence)
      requires Valid()
      modifies this`daysInPeriod
      ensures Valid()
      ensures var e := EnsureDay(old(daysInPeriod), t.absence.date);
              var pos := DayPosition(old(daysInPeriod), t.absence.date);
              daysInPeriod == e[pos := e[pos].(takenAbsences := e[pos].takenAbsences + [t])]
    {
      var pos := GetDayInPeriod(t.absence.date);
      var day := daysInPeriod[pos];
      daysInPeriod := daysInPeriod[pos := day.(takenAbsences := day.takenAbsences + [t])];
    }

    /** Records a completion on its date's ledger; a second completion on the
        same date is reported as a compromised completion. */
    method AddComplationAbsence(absence: Absence)
      requires Valid()
      modifies this`daysInPeriod, this`errors
      ensures Valid()
      ensures var e := EnsureDay(old(daysInPeriod), absence.date);
              var pos := DayPosition(old(daysInPeriod), absence.date);
              daysInPeriod == e[pos := e[pos].(existentComplations := e[pos].existentComplations + [absence])] &&
              errors == old(errors) + (if e[pos].existentComplations != []
                                       then [AbsenceError(absence, CompromisedTwoComplation)] else [])
    {
      var pos := GetDayInPeriod(absence.date);
      var day := daysInPeriod[pos];
      if day.existentComplations != [] {
        errors := errors + [AbsenceError(absence, CompromisedTwoComplation)];
      }
      daysInPeriod := daysInPeriod[pos := day.(existentComplations := day.existentComplations + [absence])];
    }

    /** Records an absence that replaces another on its date's ledger. */
    method AddReplacingAbsence(absence: Absence)
      requires Valid()
      modifies this`daysInPeriod
      ensures Valid()
      ensures var e := EnsureDay(old(daysInPeriod), absence.date);
              var pos := DayPosition(old(daysInPeriod), absence.date);
              daysInPeriod == e[pos := e[pos].(existentReplacings := e[pos].existentReplacings + [absence])]
    {
      var pos := GetDayInPeriod(absence.date);
      var day := daysInPeriod[pos];
      daysInPeriod := daysInPeriod[pos := day.(existentReplacings := day.existentReplacings + [absence])];
    }

    /** Marks the period as over its limit at `date`, keeping the earliest such date. */
    method SetLimitExceededDate(date: Date)
      modifies this`limitExceedDate
      ensures limitExceedDate == Latch(old(limitExceedDate), date)
    {
      if limitExceedDate.None? || limitExceedDate.value > date {
        limitExceedDate := Some(date);
      }
    }

    // --- completion --------------------------------------------------

    predicate IsComplation()
      reads this
    {
      complationAmountType.Some?
    }

    predicate IsComplationUnits()
      reads this
    {
      IsComplation() && complationAmountType == Some(Units)
    }

    predicate IsComplationMinutes()
      reads this
    {
      IsComplation() && complationAmountType == Some(Minutes)
    }

    /** The division by the average working time in completion units is defined. */
    predicate ComplationDivisorOk()
      reads this
    {
      (initialization.Some? && complationAmountType == Some(Units)) ==>
        initialization.value.averageWeekTime != 0
    }

    /** The completion amount already used at initialisation; in minutes the
        replacing codes are subtracted for as long as one fits. */
    method GetInitializationComplationUsed(u: EngineUtility) returns (r: int)
      requires ReplacingWellFormed(u, replacingTimes)
      requires ComplationDivisorOk()
      ensures r == InitializationComplationUsed(initialization, complationAmountType, u, replacingTimes)
    {
      if initialization.None? {
        return 0;
      }
      var init := initialization.value;
      var minutes := InitializationMinutes(init);
      if IsComplationUnits() {
        return WorkingTypePercentModule(minutes, init.averageWeekTime);
      } else if IsComplationMinutes() {
        while true
          invariant DrainMinutes(u, replacingTimes, init.date, minutes)
                 == DrainMinutes(u, replacingTimes, init.date, InitializationMinutes(init))
          decreases if minutes < 0 then 0 else minutes
        {
          var absenceType := u.whichReplacingCode(init.date, minutes);
          if absenceType.None? {
            break;
          }
          minutes := minutes - replacingTimes[absenceType.value];
        }
        return minutes;
      }
      return 0;
    }

    /** The completion/replacement pass over the ledgers in date order.
        Returns false when a processed date holds two completions (the
        source's state check fails there); the dates before it keep what the
        pass wrote. */
    method ComputeCorrectReplacingInPeriod(u: EngineUtility) returns (ok: bool)
      requires ReplacingWellFormed(u, replacingTimes)
      requires Valid() && ComplationDivisorOk()
      modifies this`daysInPeriod
      ensures Valid()
      ensures complationAmountType.None? ==> ok && daysInPeriod == old(daysInPeriod)
      ensures complationAmountType.Some? ==>
        var r := Pass(old(daysInPeriod),
                      InitializationComplationUsed(initialization, complationAmountType, u, replacingTimes),
                      initialization, u, replacingTimes, complationAmountType.value);
        daysInPeriod == r.days && ok == r.ok
    {
      if !IsComplation() {
        return true;
      }
      var t := complationAmountType.value;
      var init := initialization;
      var times := replacingTimes;
      var complationAmount := GetInitializationComplationUsed(u);
      var days := daysInPeriod;
      ghost var result := Pass(days, complationAmount, init, u, times, t);
      PassKeepsSorted(days, complationAmount, init, u, times, t);
      ghost var rest := result;
      ghost var days0 := days;
      var i := 0;
      assert days0[0..] == days0;
      while i < |days|
        invariant 0 <= i <= |days| == |days0|
        invariant days[i..] == days0[i..]
        invariant rest == Pass(days0[i..], complationAmount, init, u, times, t)
        invariant result == PassResult(days[..i] + rest.days, rest.ok)
      {
        var dayInPeriod := days[i];
        assert dayInPeriod == days0[i];
        if Skipped(dayInPeriod, init) {
          PassSkipStep(days0, i, complationAmount, init, u, times, t);
          rest := Pass(days0[i + 1..], complationAmount, init, u, times, t);
          KeepDay(days, i, rest.days);
          i := i + 1;
          continue;
        }
        if |dayInPeriod.existentComplations| != 1 {
          PassFailStep(days0, i, complationAmount, init, u, times, t);
          assert days == days[..i] + days0[i..];
          daysInPeriod := days;
          return false;
        }
        PassProcessStep(days0, i, complationAmount, init, u, times, t);
        var step := ProcessDay(dayInPeriod, complationAmount, u, times, t);
        complationAmount := step.1;
        rest := Pass(days0[i + 1..], complationAmount, init, u, times, t);
        ReplaceDay(days, i, step.0, rest.days);
        days := days[i := step.0];
        i := i + 1;
      }
      assert days[..i] == days;
      assert days == result.days;
      daysInPeriod := days;
      return true;
    }

    /** Two periods are equal when they belong to the same person and have
        the same start and end. */
    predicate Equals(other: AbsencePeriod)
      reads this, other
    {
      personId == other.personId && from == other.from && to == other.to
    }
  }

  /** Period equality is an equivalence that never looks at the group: two
      periods of different groups with the same person, start and end are equal. */
  lemma EqualsIsEquivalence(a: AbsencePeriod, b: AbsencePeriod, c: AbsencePeriod)
    ensures a.Equals(a)
    ensures a.Equals(b) <==> b.Equals(a)
    ensures a.Equals(b) && b.Equals(c) ==> a.Equals(c)
    ensures a.groupId != b.groupId && a.personId == b.personId && a.from == b.from && a.to == b.to
            ==> a.Equals(b)
  {
  }
}
