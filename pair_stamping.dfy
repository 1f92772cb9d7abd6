/** A pair of stampings of a day (an entrance and an exit): the minutes
    between them, the pair id both receive from a shared counter when the
    pair is a definitive in/out pair, and whether it is a lunch-break pair. */
module PairStampings {
  import opened Common
  import opened StampingDayRecap

  /** The stamp types a stamping may carry; only the lunch break matters here. */
  datatype StampType = PausaPranzo | OtherStampType(name: string)

  /** A stamping: its way, its minute of the day, its stamp type (if any),
      whether it is the fictitious "exiting now" exit, and its pair id,
      which pairing overwrites. */
  class Stamping {
    var pairId: int
    const way: Way
    const minuteOfDay: int
    const stampType: Option<StampType>
    const exitingNow: bool

    constructor(way: Way, minuteOfDay: int, stampType: Option<StampType>, exitingNow: bool)
      ensures this.way == way && this.minuteOfDay == minuteOfDay
      ensures this.stampType == stampType && this.exitingNow == exitingNow
      ensures pairId == 0
    {
      this.way := way;
      this.minuteOfDay := minuteOfDay;
      this.stampType := stampType;
      this.exitingNow := exitingNow;
      pairId := 0;
    }
  }

  /** The counter every pair id is drawn from; it starts at 1. */
  class IdSequence {
    var next: int

    constructor()
      ensures next == 1
    {
      next := 1;
    }
  }

  /** A definitive entrance/exit pair: an entrance followed by an exit that
      is not the fictitious "exiting now" one. */
  predicate ValidPair(first: Stamping, second: Stamping) {
    !second.exitingNow && first.way == In && second.way == Out
  }

  predicate IsLunchBreak(s: Stamping) {
    s.stampType == Some(PausaPranzo)
  }

  class PairStamping {
    const first: Stamping
    const second: Stamping
    var timeInPair: int
    var prPair: bool

    /** Pairs `first` with `second`. A valid pair draws the next id from
        `sequence` and gives it to both stampings; any other pair leaves
        both stampings and the counter as they were. */
    constructor(first: Stamping, second: Stamping, sequence: IdSequence)
      modifies first, second, sequence
      ensures this.first == first && this.second == second
      ensures timeInPair == second.minuteOfDay - first.minuteOfDay
      ensures ValidPair(first, second) ==>
                first.pairId == old(sequence.next) && second.pairId == old(sequence.next)
                && sequence.next == old(sequence.next) + 1
      ensures !ValidPair(first, second) ==>
                first.pairId == old(first.pairId) && second.pairId == old(second.pairId)
                && sequence.next == old(sequence.next)
      ensures prPair <==> IsLunchBreak(first) || IsLunchBreak(second)
    {
      this.first := first;
      this.second := second;
      var time := 0;
      time := time - first.minuteOfDay;
      time := time + second.minuteOfDay;
      timeInPair := time;
      var lunch := false;
      if (first.stampType.Some? && first.stampType.value == PausaPranzo)
         || (second.stampType.Some? && second.stampType.value == PausaPranzo) {
        lunch := true;
      }
      prPair := lunch;
      new;
      if !second.exitingNow && first.way == In && second.way == Out {
        var pairId := sequence.next;
        sequence.next := sequence.next + 1;
        first.pairId := pairId;
        second.pairId := pairId;
      }
    }
  }

  // ---------------------------------------------------------------------
  // Successive pairings

  function Indicator(b: bool): int {
    if b then 1 else 0
  }

  /** How many of the pairings are valid. */
  function CountValid(valid: seq<bool>): int {
    SumOf(valid, Indicator)
  }

  /** The ids successive pairings hand out from `start`: the `k`-th pairing,
      when valid, gets `start` plus the number of valid pairings before it. */
  function IssuedIds(start: int, valid: seq<bool>): (r: seq<Option<int>>)
    ensures |r| == |valid|
  {
    if valid == [] then []
    else
      var init := valid[..|valid| - 1];
      IssuedIds(start, init) + [if valid[|valid| - 1] then Some(start + CountValid(init)) else None]
  }

  lemma {:induction false} IssuedIdsAt(start: int, valid: seq<bool>, k: nat)
    requires k < |valid|
    ensures IssuedIds(start, valid)[k] == (if valid[k] then Some(start + CountValid(valid[..k])) else None)
  {
    var init := valid[..|valid| - 1];
    if k < |valid| - 1 {
      IssuedIdsAt(start, init, k);
      assert init[..k] == valid[..k];
    } else {
      assert init == valid[..k];
    }
  }

  /** Only valid pairings get an id, every id is at least the counter's
      start, and ids handed out later are strictly larger: no two pairs
      share an id. */
  lemma IssuedIdsIncreasing(start: int, valid: seq<bool>)
    ensures var ids := IssuedIds(start, valid);
            (forall k :: 0 <= k < |ids| ==> (ids[k].Some? <==> valid[k]))
            && (forall k :: 0 <= k < |ids| && ids[k].Some? ==> ids[k].value >= start)
            && (forall i, j :: 0 <= i < j < |ids| && ids[i].Some? && ids[j].Some? ==> ids[i].value < ids[j].value)
  {
    var ids := IssuedIds(start, valid);
    assert forall k :: 0 <= k < |valid| ==> Indicator(valid[k]) >= 0;
    forall k | 0 <= k < |ids|
      ensures (ids[k].Some? <==> valid[k])
      ensures ids[k].Some? ==> ids[k].value >= start
    {
      IssuedIdsAt(start, valid, k);
      assert forall m :: 0 <= m < |valid[..k]| ==> Indicator(valid[..k][m]) >= 0;
      SumOfNonNegative(valid[..k], Indicator);
    }
    forall i, j | 0 <= i < j < |ids| && ids[i].Some? && ids[j].Some?
      ensures ids[i].value < ids[j].value
    {
      IssuedIdsAt(start, valid, i);
      IssuedIdsAt(start, valid, j);
      SumOfSnoc(valid, i, Indicator);
      var pre := valid[..j];
      assert pre[..i + 1] == valid[..i + 1];
      assert forall m :: 0 <= m < |pre| ==> Indicator(pre[m]) >= 0;
      SumOfPrefixAtMost(pre, i + 1, Indicator);
    }
  }

  /** Which of the stamping pairs are valid. */
  function Validity(pairs: seq<(Stamping, Stamping)>): (r: seq<bool>)
    ensures |r| == |pairs|
    ensures forall k :: 0 <= k < |pairs| ==> r[k] == ValidPair(pairs[k].0, pairs[k].1)
  {
    seq(|pairs|, k requires 0 <= k < |pairs| => ValidPair(pairs[k].0, pairs[k].1))
  }

  /** Two pairs share no stamping. */
  predicate Apart(p: (Stamping, Stamping), q: (Stamping, Stamping)) {
    p.0 != q.0 && p.0 != q.1 && p.1 != q.0 && p.1 != q.1
  }

  /** No stamping takes part in two pairs: the pairs of a day are made of
      distinct stampings. */
  predicate DistinctStampings(pairs: seq<(Stamping, Stamping)>) {
    forall j, k {:trigger Apart(pairs[j], pairs[k])} :: 0 <= j < k < |pairs| ==> Apart(pairs[j], pairs[k])
  }

  /** The `i`-th pairing of the day: only its own two stampings (and the
      counter) can change. */
  method PairAt(pairs: seq<(Stamping, Stamping)>, i: nat, sequence: IdSequence) returns (pair: PairStamping)
    requires DistinctStampings(pairs) && i < |pairs|
    modifies sequence, pairs[i].0, pairs[i].1
    ensures pair.first == pairs[i].0 && pair.second == pairs[i].1
    ensures ValidPair(pairs[i].0, pairs[i].1) ==>
              pairs[i].0.pairId == old(sequence.next) && pairs[i].1.pairId == old(sequence.next)
              && sequence.next == old(sequence.next) + 1
    ensures !ValidPair(pairs[i].0, pairs[i].1) ==>
              pairs[i].0.pairId == old(pairs[i].0.pairId) && pairs[i].1.pairId == old(pairs[i].1.pairId)
              && sequence.next == old(sequence.next)
    ensures forall k :: 0 <= k < |pairs| && k != i ==>
              pairs[k].0.pairId == old(pairs[k].0.pairId) && pairs[k].1.pairId == old(pairs[k].1.pairId)
  {
    forall k | 0 <= k < |pairs| && k != i
      ensures Apart(pairs[k], pairs[i])
    {
      if k < i {
        assert Apart(pairs[k], pairs[i]);
      } else {
        assert Apart(pairs[i], pairs[k]);
      }
    }
    pair := new PairStamping(pairs[i].0, pairs[i].1, sequence);
  }

  /** Pairs the stamping pairs of a day one after the other, as the day's
      pairing does, and reports the id each pairing handed out. */
  method PairAll(pairs: seq<(Stamping, Stamping)>, sequence: IdSequence)
    returns (made: seq<PairStamping>, issued: seq<Option<int>>)
    requires DistinctStampings(pairs)
    modifies sequence
    modifies set k | 0 <= k < |pairs| :: pairs[k].0
    modifies set k | 0 <= k < |pairs| :: pairs[k].1
    ensures |made| == |pairs|
    ensures forall k :: 0 <= k < |pairs| ==> made[k].first == pairs[k].0 && made[k].second == pairs[k].1
    ensures issued == IssuedIds(old(sequence.next), Validity(pairs))
    ensures sequence.next == old(sequence.next) + CountValid(Validity(pairs))
    ensures forall k :: 0 <= k < |pairs| && issued[k].Some? ==>
              pairs[k].0.pairId == issued[k].value && pairs[k].1.pairId == issued[k].value
    ensures forall k :: 0 <= k < |pairs| && issued[k].None? ==>
              pairs[k].0.pairId == old(pairs[k].0.pairId) && pairs[k].1.pairId == old(pairs[k].1.pairId)
  {
    ghost var start := sequence.next;
    ghost var valid := Validity(pairs);
    ghost var ids := IssuedIds(start, valid);
    made := [];
    issued := [];
    for i := 0 to |pairs|
      invariant |made| == i
      invariant forall k :: 0 <= k < i ==> made[k].first == pairs[k].0 && made[k].second == pairs[k].1
      invariant issued == ids[..i]
      invariant sequence.next == start + CountValid(valid[..i])
      invariant forall k :: 0 <= k < i && ids[k].Some? ==>
                  pairs[k].0.pairId == ids[k].value && pairs[k].1.pairId == ids[k].value
      invariant forall k :: 0 <= k < |pairs| && (i <= k || ids[k].None?) ==>
                  pairs[k].0.pairId == old(pairs[k].0.pairId) && pairs[k].1.pairId == old(pairs[k].1.pairId)
    {
      IssuedIdsAt(start, valid, i);
      SumOfSnoc(valid, i, Indicator);
      PrefixSnoc(ids, i);
      var pair := PairAt(pairs, i, sequence);
      made := made + [pair];
      if ValidPair(pairs[i].0, pairs[i].1) {
        issued := issued + [Some(sequence.next - 1)];
      } else {
        issued := issued + [None];
      }
    }
    PrefixWhole(valid);
    PrefixWhole(ids);
  }
}
