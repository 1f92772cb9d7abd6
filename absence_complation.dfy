/** The completion/replacement pass of an absence period: walking the days
    in date order with a running residual, each completion adds the time it
    justifies, and the replacing code chosen for the new residual (if any)
    takes its time away again. */
module Complation {
  import opened Common
  import opened Ledger

  /** The two questions the pass asks the absence engine: which replacing
      code fits a residual on a date, and how much an absence justifies. */
  datatype EngineUtility = EngineUtility(
    whichReplacingCode: (Date, int) -> Option<Code>,
    absenceJustifiedAmount: (Absence, AmountType) -> int)

  /** What the engine promises about replacing codes: a code it names has a
      known replacing time, positive and no larger than the residual it was
      chosen for. */
  ghost predicate ReplacingWellFormed(u: EngineUtility, times: map<Code, int>) {
    forall d: Date, m: int :: u.whichReplacingCode(d, m).Some? ==>
      u.whichReplacingCode(d, m).value in times &&
      0 < times[u.whichReplacingCode(d, m).value] <= m
  }

  /** Replacing codes are subtracted from `m` for as long as one fits. */
  function DrainMinutes(u: EngineUtility, times: map<Code, int>, date: Date, m: int): (r: int)
    requires ReplacingWellFormed(u, times)
    ensures u.whichReplacingCode(date, r).None?
    ensures m >= 0 ==> 0 <= r <= m
    ensures m < 0 ==> r == m
    decreases if m < 0 then 0 else m
  {
    match u.whichReplacingCode(date, m)
    case None => m
    case Some(c) => DrainMinutes(u, times, date, m - times[c])
  }

  /** The completion amount already used at initialisation: the fraction of
      a day when completion counts units, the minutes left once every
      fitting replacing code was taken when it counts minutes. */
  function InitializationComplationUsed(init: Option<Initialization>, complation: Option<AmountType>,
                                        u: EngineUtility, times: map<Code, int>): (r: int)
    requires ReplacingWellFormed(u, times)
    requires init.Some? && complation == Some(Units) ==> init.value.averageWeekTime != 0
    ensures init.None? || complation.None? ==> r == 0
    ensures init.Some? && complation == Some(Units) ==> -100 < r < 100
    ensures init.Some? && complation == Some(Minutes)
            ==> u.whichReplacingCode(init.value.date, r).None?
    ensures init.Some? && complation == Some(Minutes) && InitializationMinutes(init.value) >= 0
            ==> 0 <= r <= InitializationMinutes(init.value)
  {
    if init.None? then 0
    else
      var minutes := InitializationMinutes(init.value);
      match complation
      case Some(Units) => WorkingTypePercentModule(minutes, init.value.averageWeekTime)
      case Some(Minutes) => DrainMinutes(u, times, init.value.date, minutes)
      case None => 0
  }

  /** A day the pass leaves alone: on or before the initialisation, or
      without completions. */
  predicate Skipped(day: DayInPeriod, init: Option<Initialization>) {
    (init.Some? && day.date <= init.value.date) || |day.existentComplations| == 0
  }

  /** A day the pass refuses: processed, but holding more than one completion. */
  predicate Failing(day: DayInPeriod, init: Option<Initialization>) {
    !Skipped(day, init) && |day.existentComplations| != 1
  }

  /** Processing one day with the running residual `amount`: returns the
      updated day and the residual carried to the next one. */
  function ProcessDay(day: DayInPeriod, amount: int, u: EngineUtility, times: map<Code, int>,
                      t: AmountType): (DayInPeriod, int)
    requires |day.existentComplations| == 1
    requires ReplacingWellFormed(u, times)
  {
    var a := day.existentComplations[0];
    var justified := u.absenceJustifiedAmount(a, t);
    var total := amount + justified;
    var code := u.whichReplacingCode(a.date, total);
    var after := if code.Some? then total - times[code.value] else total;
    var day' := day.(correctReplacing := if code.Some? then code else day.correctReplacing,
                     complationAbsence := Some(ComplationAbsence(a, t, total - justified, justified, after)));
    (day', after)
  }

  /** The residual carried past one day. */
  function Next(day: DayInPeriod, amount: int, init: Option<Initialization>, u: EngineUtility,
                times: map<Code, int>, t: AmountType): int
    requires !Failing(day, init)
    requires ReplacingWellFormed(u, times)
  {
    if Skipped(day, init) then amount else ProcessDay(day, amount, u, times, t).1
  }

  predicate NoFailureUpTo(days: seq<DayInPeriod>, init: Option<Initialization>, k: int) {
    forall j :: 0 <= j < k && j < |days| ==> !Failing(days[j], init)
  }

  /** The running residual when the pass reaches day `k`, started from `a0`. */
  function AmountBefore(days: seq<DayInPeriod>, a0: int, k: nat, init: Option<Initialization>,
                        u: EngineUtility, times: map<Code, int>, t: AmountType): int
    requires k <= |days|
    requires NoFailureUpTo(days, init, k)
    requires ReplacingWellFormed(u, times)
  {
    if k == 0 then a0
    else Next(days[k - 1], AmountBefore(days, a0, k - 1, init, u, times, t), init, u, times, t)
  }

  datatype PassResult = PassResult(days: seq<DayInPeriod>, ok: bool)

  /** The whole pass over the days in date order, from residual `amount`.
      On a day with two completions it stops (`ok` false) and leaves that
      day and the following ones as they were. */
  function Pass(days: seq<DayInPeriod>, amount: int, init: Option<Initialization>, u: EngineUtility,
                times: map<Code, int>, t: AmountType): (r: PassResult)
    requires ReplacingWellFormed(u, times)
    ensures |r.days| == |days|
    decreases |days|
  {
    if days == [] then PassResult([], true)
    else if Skipped(days[0], init) then
      var rest := Pass(days[1..], amount, init, u, times, t);
      PassResult([days[0]] + rest.days, rest.ok)
    else if |days[0].existentComplations| != 1 then PassResult(days, false)
    else
      var (day', after) := ProcessDay(days[0], amount, u, times, t);
      var rest := Pass(days[1..], after, init, u, times, t);
      PassResult([day'] + rest.days, rest.ok)
  }

  /** The pass only writes the completion record and the chosen replacing
      code of a day: dates, taken absences, completions and replacings stay. */
  lemma {:induction false} PassKeepsLedgers(days: seq<DayInPeriod>, amount: int, init: Option<Initialization>,
                                            u: EngineUtility, times: map<Code, int>, t: AmountType)
    requires ReplacingWellFormed(u, times)
    ensures var r := Pass(days, amount, init, u, times, t);
      forall k :: 0 <= k < |days| ==>
        r.days[k].date == days[k].date &&
        r.days[k].takenAbsences == days[k].takenAbsences &&
        r.days[k].existentComplations == days[k].existentComplations &&
        r.days[k].existentReplacings == days[k].existentReplacings
    decreases |days|
  {
    if days != [] && (Skipped(days[0], init) || |days[0].existentComplations| == 1) {
      var next := if Skipped(days[0], init) then amount else ProcessDay(days[0], amount, u, times, t).1;
      PassKeepsLedgers(days[1..], next, init, u, times, t);
    }
  }

  /** The pass succeeds exactly when no day holds two completions. */
  lemma {:induction false} PassOkIff(days: seq<DayInPeriod>, amount: int, init: Option<Initialization>,
                                     u: EngineUtility, times: map<Code, int>, t: AmountType)
    requires ReplacingWellFormed(u, times)
    ensures Pass(days, amount, init, u, times, t).ok <==> NoFailureUpTo(days, init, |days|)
    decreases |days|
  {
    if days != [] {
      var next := if Skipped(days[0], init) || |days[0].existentComplations| != 1 then amount
                  else ProcessDay(days[0], amount, u, times, t).1;
      PassOkIff(days[1..], next, init, u, times, t);
      assert forall j :: 1 <= j < |days| ==> days[1..][j - 1] == days[j];
    }
  }

  /** Starting one day later is the same as carrying the first day's residual. */
  lemma {:induction false} AmountBeforeShift(days: seq<DayInPeriod>, a0: int, k: nat,
                                             init: Option<Initialization>, u: EngineUtility,
                                             times: map<Code, int>, t: AmountType)
    requires 1 <= k <= |days|
    requires NoFailureUpTo(days, init, k)
    requires ReplacingWellFormed(u, times)
    ensures NoFailureUpTo(days[1..], init, k - 1)
    ensures AmountBefore(days, a0, k, init, u, times, t)
         == AmountBefore(days[1..], Next(days[0], a0, init, u, times, t), k - 1, init, u, times, t)
  {
    assert forall j :: 0 <= j < k - 1 ==> days[1..][j] == days[j + 1];
    if k > 1 {
      AmountBeforeShift(days, a0, k - 1, init, u, times, t);
      assert days[1..][k - 2] == days[k - 1];
    }
  }

  /** The pass over a non-empty run: the first day is processed with the
      starting residual (or left alone), and the rest is the pass over the
      following days from the residual it carries. */
  lemma PassHead(days: seq<DayInPeriod>, a0: int, init: Option<Initialization>,
                 u: EngineUtility, times: map<Code, int>, t: AmountType)
    requires days != [] && !Failing(days[0], init)
    requires ReplacingWellFormed(u, times)
    ensures var r := Pass(days, a0, init, u, times, t).days;
            r[0] == (if Skipped(days[0], init) then days[0] else ProcessDay(days[0], a0, u, times, t).0)
            && r[1..] == Pass(days[1..], Next(days[0], a0, init, u, times, t), init, u, times, t).days
  {
  }

  /** Day `k` after the pass: untouched if skipped, otherwise processed with
      the running residual that reaches it. */
  lemma {:induction false} PassAt(days: seq<DayInPeriod>, a0: int, k: nat, init: Option<Initialization>,
                                  u: EngineUtility, times: map<Code, int>, t: AmountType)
    requires k < |days|
    requires NoFailureUpTo(days, init, k + 1)
    requires ReplacingWellFormed(u, times)
    ensures Skipped(days[k], init) ==> Pass(days, a0, init, u, times, t).days[k] == days[k]
    ensures !Skipped(days[k], init) ==>
      Pass(days, a0, init, u, times, t).days[k]
        == ProcessDay(days[k], AmountBefore(days, a0, k, init, u, times, t), u, times, t).0
    decreases k
  {
    assert !Failing(days[0], init);
    PassHead(days, a0, init, u, times, t);
    if k > 0 {
      var rest := days[1..];
      var a1 := Next(days[0], a0, init, u, times, t);
      assert NoFailureUpTo(rest, init, k) by {
        forall j | 0 <= j < k && j < |rest|
          ensures !Failing(rest[j], init)
        {
          assert rest[j] == days[j + 1];
        }
      }
      PassAt(rest, a1, k - 1, init, u, times, t);
      AmountBeforeShift(days, a0, k, init, u, times, t);
      assert rest[k - 1] == days[k];
      assert Pass(days, a0, init, u, times, t).days[k]
          == Pass(days, a0, init, u, times, t).days[1..][k - 1];
    }
  }

  /** The residual chain of the pass: on every processed day (before any
      refused day) the residual before plus the consumed amount is the
      running total; the residual after is that total less the chosen
      replacing code's time, or the total itself when no code was chosen;
      and the residual after is exactly what reaches the next day. */
  lemma ComplationResiduals(days: seq<DayInPeriod>, a0: int, k: nat, init: Option<Initialization>,
                            u: EngineUtility, times: map<Code, int>, t: AmountType)
    requires k < |days|
    requires NoFailureUpTo(days, init, k + 1)
    requires !Skipped(days[k], init)
    requires ReplacingWellFormed(u, times)
    ensures var day := Pass(days, a0, init, u, times, t).days[k];
            var a := days[k].existentComplations[0];
            var before := AmountBefore(days, a0, k, init, u, times, t);
            var total := before + u.absenceJustifiedAmount(a, t);
            day.complationAbsence.Some? &&
            day.complationAbsence.value.absence == a &&
            day.complationAbsence.value.residualComplationBefore == before &&
            day.complationAbsence.value.residualComplationBefore
              + day.complationAbsence.value.consumedComplation == total &&
            (day.correctReplacing == u.whichReplacingCode(a.date, total)
              || (u.whichReplacingCode(a.date, total).None? && day.correctReplacing == days[k].correctReplacing)) &&
            day.complationAbsence.value.residualComplationAfter
              == (match u.whichReplacingCode(a.date, total)
                  case Some(c) => total - times[c]
                  case None => total) &&
            day.complationAbsence.value.residualComplationAfter
              == AmountBefore(days, a0, k + 1, init, u, times, t)
  {
    PassAt(days, a0, k, init, u, times, t);
    var before := AmountBefore(days, a0, k, init, u, times, t);
    ProcessDayRecord(days[k], before, u, times, t);
    assert AmountBefore(days, a0, k + 1, init, u, times, t) == ProcessDay(days[k], before, u, times, t).1;
  }

  /** The completion record one processed day receives from residual `amount`. */
  lemma ProcessDayRecord(day: DayInPeriod, amount: int, u: EngineUtility, times: map<Code, int>, t: AmountType)
    requires |day.existentComplations| == 1
    requires ReplacingWellFormed(u, times)
    ensures var (day', after) := ProcessDay(day, amount, u, times, t);
            var a := day.existentComplations[0];
            var total := amount + u.absenceJustifiedAmount(a, t);
            day'.complationAbsence.Some? &&
            day'.complationAbsence.value.absence == a &&
            day'.complationAbsence.value.residualComplationBefore == amount &&
            day'.complationAbsence.value.consumedComplation == u.absenceJustifiedAmount(a, t) &&
            (day'.correctReplacing == u.whichReplacingCode(a.date, total)
              || (u.whichReplacingCode(a.date, total).None? && day'.correctReplacing == day.correctReplacing)) &&
            day'.complationAbsence.value.residualComplationAfter == after &&
            after == (match u.whichReplacingCode(a.date, total)
                      case Some(c) => total - times[c]
                      case None => total)
  {
  }

  /** One step of the pass from position `i` of `days` over a skipped day. */
  lemma PassSkipStep(days: seq<DayInPeriod>, i: nat, amount: int, init: Option<Initialization>,
                     u: EngineUtility, times: map<Code, int>, t: AmountType)
    requires i < |days| && Skipped(days[i], init)
    requires ReplacingWellFormed(u, times)
    ensures Pass(days[i..], amount, init, u, times, t)
         == PassResult([days[i]] + Pass(days[i + 1..], amount, init, u, times, t).days,
                       Pass(days[i + 1..], amount, init, u, times, t).ok)
  {
    assert days[i..][0] == days[i];
    assert days[i..][1..] == days[i + 1..];
  }

  /** One step of the pass from position `i` of `days` over a processed day. */
  lemma PassProcessStep(days: seq<DayInPeriod>, i: nat, amount: int, init: Option<Initialization>,
                        u: EngineUtility, times: map<Code, int>, t: AmountType)
    requires i < |days| && !Skipped(days[i], init) && |days[i].existentComplations| == 1
    requires ReplacingWellFormed(u, times)
    ensures var step := ProcessDay(days[i], amount, u, times, t);
            Pass(days[i..], amount, init, u, times, t)
              == PassResult([step.0] + Pass(days[i + 1..], step.1, init, u, times, t).days,
                            Pass(days[i + 1..], step.1, init, u, times, t).ok)
  {
    assert days[i..][0] == days[i];
    assert days[i..][1..] == days[i + 1..];
  }

  /** The pass refuses the first day with two completions and stops there. */
  lemma PassFailStep(days: seq<DayInPeriod>, i: nat, amount: int, init: Option<Initialization>,
                     u: EngineUtility, times: map<Code, int>, t: AmountType)
    requires i < |days| && Failing(days[i], init)
    requires ReplacingWellFormed(u, times)
    ensures Pass(days[i..], amount, init, u, times, t) == PassResult(days[i..], false)
  {
    assert days[i..][0] == days[i];
  }
}
