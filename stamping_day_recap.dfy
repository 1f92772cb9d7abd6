/** The recap of one day of a person on the stamping sheet: the row of
    stampings shown (real stampings interleaved with fictitious ones so that
    entrances and exits alternate, padded to the sheet's column count, each
    labelled with its position in its pair), the notes of the stampings,
    whether the day is ignored or is a contract's first day, the meal
    ticket shown, and the personal working interval. */
module StampingDayRecap {
  import opened Common

  datatype Way = In | Out

  /** A stamping as the recap reads it: the pair id is 0 when the stamping
      belongs to no valid pair. */
  datatype Stamp = Stamp(minuteOfDay: int, way: Way, pairId: int, note: Option<string>)

  /** An entry of the row: a real stamping, or a fictitious one that only has a way. */
  datatype Slot = Real(stamp: Stamp) | Fake(fakeWay: Way)

  function WayOf(s: Slot): Way {
    match s
    case Real(st) => st.way
    case Fake(w) => w
  }

  /** A fictitious stamping belongs to no pair. */
  function PairIdOf(s: Slot): int {
    match s
    case Real(st) => st.pairId
    case Fake(_) => 0
  }

  /** The way expected at position `i` of an alternating row: entrances at even positions. */
  function WayAt(i: int): Way {
    if i % 2 == 0 then In else Out
  }

  // ---------------------------------------------------------------------
  // Alternation and padding

  /** Whether the last of the stampings read so far is an entrance. */
  predicate EndsIn(ss: seq<Stamp>) {
    ss != [] && ss[|ss| - 1].way == In
  }

  /** What one stamping adds to the row, given whether the row is inside a pair. */
  function Step(isLastIn: bool, s: Stamp): seq<Slot> {
    if isLastIn && s.way == Out then [Real(s)]
    else if isLastIn && s.way == In then [Fake(Out), Real(s)]
    else if !isLastIn && s.way == In then [Real(s)]
    else [Fake(In), Real(s)]
  }

  /** The row built from the ordered stampings before padding. */
  function Alternated(ss: seq<Stamp>): seq<Slot> {
    if ss == [] then []
    else Alternated(ss[..|ss| - 1]) + Step(EndsIn(ss[..|ss| - 1]), ss[|ss| - 1])
  }

  /** The fictitious stampings that take a row of length `len` up to `target`. */
  function Padding(len: nat, target: int): seq<Slot> {
    seq(if target > len then target - len else 0, j => Fake(WayAt(len + j)))
  }

  /** The row shown: alternated, then padded to `2 * numberOfInOut` columns. */
  function Template(ss: seq<Stamp>, numberOfInOut: int): seq<Slot> {
    var alt := Alternated(ss);
    alt + Padding(|alt|, 2 * numberOfInOut)
  }

  /** The real stampings of a row, in row order. */
  function RealsOf(slots: seq<Slot>): seq<Stamp> {
    if slots == [] then []
    else RealsOf(slots[..|slots| - 1]) + (if slots[|slots| - 1].Real? then [slots[|slots| - 1].stamp] else [])
  }

  lemma {:induction false} RealsOfAppend(a: seq<Slot>, b: seq<Slot>)
    ensures RealsOf(a + b) == RealsOf(a) + RealsOf(b)
  {
    if b == [] {
      assert a + b == a;
    } else {
      assert (a + b)[..|a + b| - 1] == a + b[..|b| - 1];
      RealsOfAppend(a, b[..|b| - 1]);
    }
  }

  lemma {:induction false} RealsOfFakes(slots: seq<Slot>)
    requires forall i :: 0 <= i < |slots| ==> slots[i].Fake?
    ensures RealsOf(slots) == []
  {
    if slots != [] {
      RealsOfFakes(slots[..|slots| - 1]);
    }
  }

  /** What one step adds keeps the row alternating, and leaves it ending
      on an entrance exactly when the stamping is one. */
  lemma StepWays(isLastIn: bool, s: Stamp, n: nat)
    requires isLastIn <==> n % 2 == 1
    ensures var step := Step(isLastIn, s);
            1 <= |step| <= 2
            && (forall j :: 0 <= j < |step| ==> WayOf(step[j]) == WayAt(n + j))
            && (s.way == In <==> (n + |step|) % 2 == 1)
  {
  }

  /** Before padding the row strictly alternates from an entrance, ends on
      an entrance exactly when the last stamping does, and holds at most one
      fictitious stamping per real one. */
  lemma {:induction false} AlternatedWays(ss: seq<Stamp>)
    ensures var alt := Alternated(ss);
            (forall i :: 0 <= i < |alt| ==> WayOf(alt[i]) == WayAt(i))
            && (EndsIn(ss) <==> |alt| % 2 == 1)
            && |ss| <= |alt| <= 2 * |ss|
  {
    if ss != [] {
      var init := ss[..|ss| - 1];
      var s := ss[|ss| - 1];
      AlternatedWays(init);
      var prev := Alternated(init);
      var step := Step(EndsIn(init), s);
      StepWays(EndsIn(init), s, |prev|);
      var alt := prev + step;
      assert Alternated(ss) == alt;
      forall i | 0 <= i < |alt|
        ensures WayOf(alt[i]) == WayAt(i)
      {
        if i >= |prev| {
          assert alt[i] == step[i - |prev|];
        } else {
          assert alt[i] == prev[i];
        }
      }
    }
  }

  /** A step adds exactly its stamping to the real ones. */
  lemma StepReals(isLastIn: bool, s: Stamp)
    ensures RealsOf(Step(isLastIn, s)) == [s]
  {
    var step := Step(isLastIn, s);
    if |step| == 2 {
      var fake := step[0];
      assert fake.Fake? && step[1] == Real(s);
      assert [fake][..0] == [];
      assert RealsOf([fake]) == [];
      assert step[..1] == [fake];
    } else {
      assert step == [Real(s)];
      assert step[..0] == [];
    }
  }

  /** Every ordered stamping is in the row exactly once, in order. */
  lemma {:induction false} AlternatedReals(ss: seq<Stamp>)
    ensures RealsOf(Alternated(ss)) == ss
  {
    if ss != [] {
      var init := ss[..|ss| - 1];
      var s := ss[|ss| - 1];
      var step := Step(EndsIn(init), s);
      calc {
        RealsOf(Alternated(ss));
        RealsOf(Alternated(init) + step);
        { RealsOfAppend(Alternated(init), step); }
        RealsOf(Alternated(init)) + RealsOf(step);
        { AlternatedReals(init); StepReals(EndsIn(init), s); }
        init + [s];
        ss;
      }
    }
  }

  lemma AlternatedShape(ss: seq<Stamp>)
    ensures var alt := Alternated(ss);
            (forall i :: 0 <= i < |alt| ==> WayOf(alt[i]) == WayAt(i))
            && (EndsIn(ss) <==> |alt| % 2 == 1)
            && |ss| <= |alt| <= 2 * |ss|
            && RealsOf(alt) == ss
  {
    AlternatedWays(ss);
    AlternatedReals(ss);
  }

  /** One more fictitious stamping of padding continues the alternation. */
  lemma PaddingSnoc(len: nat, target: nat)
    requires len <= target
    ensures Padding(len, target + 1) == Padding(len, target) + [Fake(WayAt(target))]
  {
  }

  /** The padding is made of fictitious stampings that continue the
      alternation from position `len`. */
  lemma PaddingAt(len: nat, target: int)
    ensures var pad := Padding(len, target);
            |pad| == (if target > len then target - len else 0)
            && forall j :: 0 <= j < |pad| ==> pad[j] == Fake(WayAt(len + j))
  {
  }

  /** An alternated row ends on an entrance exactly when the last stamping is one. */
  lemma AlternatedParity(ss: seq<Stamp>)
    ensures EndsIn(ss) <==> |Alternated(ss)| % 2 == 1
  {
    AlternatedWays(ss);
  }

  /** The row shown alternates from an entrance throughout and is
      `max(2 * numberOfInOut, |alternated|)` long; the padding is fictitious. */
  lemma TemplateWays(ss: seq<Stamp>, numberOfInOut: int)
    ensures var t := Template(ss, numberOfInOut);
            var alt := Alternated(ss);
            |t| == (if 2 * numberOfInOut > |alt| then 2 * numberOfInOut else |alt|)
            && (forall i :: 0 <= i < |t| ==> WayOf(t[i]) == WayAt(i))
            && (forall i :: |alt| <= i < |t| ==> t[i].Fake?)
  {
    var alt := Alternated(ss);
    var pad := Padding(|alt|, 2 * numberOfInOut);
    AlternatedWays(ss);
    PaddingAt(|alt|, 2 * numberOfInOut);
    var t := alt + pad;
    assert t == Template(ss, numberOfInOut);
    forall i | 0 <= i < |alt|
      ensures WayOf(t[i]) == WayAt(i)
    {
      assert t[i] == alt[i];
    }
    forall i | |alt| <= i < |t|
      ensures WayOf(t[i]) == WayAt(i) && t[i].Fake?
    {
      var j := i - |alt|;
      assert t[i] == pad[j];
      assert pad[j] == Fake(WayAt(|alt| + j));
    }
  }

  /** The row shown holds every ordered stamping exactly once, in order. */
  lemma TemplateReals(ss: seq<Stamp>, numberOfInOut: int)
    ensures RealsOf(Template(ss, numberOfInOut)) == ss
  {
    var alt := Alternated(ss);
    var pad := Padding(|alt|, 2 * numberOfInOut);
    AlternatedReals(ss);
    RealsOfAppend(alt, pad);
    RealsOfFakes(pad);
  }

  /** The row shown is `max(2 * numberOfInOut, |alternated|)` long, strictly
      alternates from an entrance, holds every ordered stamping exactly
      once and in order, and everything else in it is fictitious. */
  lemma TemplateShape(ss: seq<Stamp>, numberOfInOut: int)
    ensures var t := Template(ss, numberOfInOut);
            var alt := Alternated(ss);
            |t| == (if 2 * numberOfInOut > |alt| then 2 * numberOfInOut else |alt|)
            && (forall i :: 0 <= i < |t| ==> WayOf(t[i]) == WayAt(i))
            && RealsOf(t) == ss
            && (forall i :: |alt| <= i < |t| ==> t[i].Fake?)
  {
    TemplateWays(ss, numberOfInOut);
    TemplateReals(ss, numberOfInOut);
  }

  /** The first loop of the template construction: a fictitious exit
      before an entrance that follows an open entrance, a fictitious entrance
      before an exit with no open entrance. */
  method Alternate(orderedStampings: seq<Stamp>) returns (stampingsForTemplate: seq<Slot>, isLastIn: bool)
    ensures stampingsForTemplate == Alternated(orderedStampings)
    ensures isLastIn == EndsIn(orderedStampings)
  {
    stampingsForTemplate := [];
    isLastIn := false;
    for i := 0 to |orderedStampings|
      invariant stampingsForTemplate == Alternated(orderedStampings[..i])
      invariant isLastIn == EndsIn(orderedStampings[..i])
    {
      var s := orderedStampings[i];
      assert orderedStampings[..i + 1][..i] == orderedStampings[..i];
      assert orderedStampings[..i + 1][i] == s;
      assert Alternated(orderedStampings[..i + 1]) == stampingsForTemplate + Step(isLastIn, s);
      if isLastIn && s.way == Out {
        stampingsForTemplate := stampingsForTemplate + [Real(s)];
        isLastIn := false;
        continue;
      }
      if isLastIn && s.way == In {
        stampingsForTemplate := stampingsForTemplate + [Fake(Out), Real(s)];
        isLastIn := true;
        continue;
      }
      if !isLastIn && s.way == In {
        stampingsForTemplate := stampingsForTemplate + [Real(s)];
        isLastIn := true;
        continue;
      }
      if !isLastIn && s.way == Out {
        stampingsForTemplate := stampingsForTemplate + [Fake(In), Real(s)];
        isLastIn := false;
      }
    }
    assert orderedStampings[..|orderedStampings|] == orderedStampings;
  }

  /** The alternation followed by the padding loop, which keeps alternating
      until the row has `2 * numberOfInOut` entries. */
  method AlternateAndPad(orderedStampings: seq<Stamp>, numberOfInOut: int) returns (stampingsForTemplate: seq<Slot>)
    ensures stampingsForTemplate == Template(orderedStampings, numberOfInOut)
  {
    var isLastIn;
    stampingsForTemplate, isLastIn := Alternate(orderedStampings);
    AlternatedParity(orderedStampings);
    ghost var alt := stampingsForTemplate;
    while |stampingsForTemplate| < numberOfInOut * 2
      invariant |alt| <= |stampingsForTemplate|
      invariant |stampingsForTemplate| <= |alt| || |stampingsForTemplate| <= numberOfInOut * 2
      invariant stampingsForTemplate == alt + Padding(|alt|, |stampingsForTemplate|)
      invariant isLastIn <==> |stampingsForTemplate| % 2 == 1
      decreases numberOfInOut * 2 - |stampingsForTemplate|
    {
      PaddingSnoc(|alt|, |stampingsForTemplate|);
      if isLastIn {
        stampingsForTemplate := stampingsForTemplate + [Fake(Out)];
        isLastIn := false;
      } else {
        stampingsForTemplate := stampingsForTemplate + [Fake(In)];
        isLastIn := true;
      }
    }
    assert Padding(|alt|, |stampingsForTemplate|) == Padding(|alt|, 2 * numberOfInOut);
  }

  // ---------------------------------------------------------------------
  // Positions in the pair

  datatype Position = Left | Right | Center | NoPosition

  /** A row entry as the sheet shows it. */
  datatype TemplateEntry = TemplateEntry(slot: Slot, position: Position)

  predicate PairedIn(s: Slot) {
    PairIdOf(s) != 0 && WayOf(s) == In
  }

  predicate PairedOut(s: Slot) {
    PairIdOf(s) != 0 && WayOf(s) == Out
  }

  /** The label of an entry, given whether a pair is open before it. */
  function Label(open: bool, s: Slot): Position {
    if PairedIn(s) then Left
    else if PairedOut(s) then Right
    else if open then Center
    else NoPosition
  }

  /** Whether a pair is open after the entries read so far (the `samePair` flag). */
  predicate Open(slots: seq<Slot>) {
    if slots == [] then false
    else
      var s := slots[|slots| - 1];
      if PairedIn(s) then true
      else if PairedOut(s) then false
      else Open(slots[..|slots| - 1])
  }

  /** The labelled row. */
  function Entries(slots: seq<Slot>): (r: seq<TemplateEntry>)
    ensures |r| == |slots|
  {
    if slots == [] then []
    else
      var init := slots[..|slots| - 1];
      Entries(init) + [TemplateEntry(slots[|slots| - 1], Label(Open(init), slots[|slots| - 1]))]
  }

  /** A pair is open exactly when some paired entrance has no paired exit after it. */
  lemma {:induction false} OpenIff(slots: seq<Slot>)
    ensures Open(slots) <==>
            exists j :: 0 <= j < |slots| && PairedIn(slots[j])
                        && forall k :: j < k < |slots| ==> !PairedOut(slots[k])
  {
    if slots != [] {
      var init := slots[..|slots| - 1];
      var n := |slots| - 1;
      OpenIff(init);
      if Open(slots) && !PairedIn(slots[n]) {
        var j :| 0 <= j < |init| && PairedIn(init[j]) && forall k :: j < k < |init| ==> !PairedOut(init[k]);
        assert slots[j] == init[j];
        assert forall k :: j < k < |slots| ==> !PairedOut(slots[k]) by {
          forall k | j < k < |slots|
            ensures !PairedOut(slots[k])
          {
            if k < n {
              assert slots[k] == init[k];
            }
          }
        }
      }
      if exists j :: 0 <= j < |slots| && PairedIn(slots[j]) && forall k :: j < k < |slots| ==> !PairedOut(slots[k]) {
        var j :| 0 <= j < |slots| && PairedIn(slots[j]) && forall k :: j < k < |slots| ==> !PairedOut(slots[k]);
        if j < n {
          assert init[j] == slots[j];
          assert forall k :: j < k < |init| ==> !PairedOut(init[k]) by {
            forall k | j < k < |init|
              ensures !PairedOut(init[k])
            {
              assert init[k] == slots[k];
            }
          }
        }
      }
    }
  }

  /** Each entry of the labelled row is the row's entry with the label its
      pair context gives it. */
  lemma {:induction false} EntriesAt(slots: seq<Slot>, i: nat)
    requires i < |slots|
    ensures |Entries(slots)| == |slots|
    ensures Entries(slots)[i] == TemplateEntry(slots[i], Label(Open(slots[..i]), slots[i]))
  {
    var init := slots[..|slots| - 1];
    if i < |slots| - 1 {
      EntriesAt(init, i);
      assert init[..i] == slots[..i];
    } else {
      assert init == slots[..i];
      if init != [] {
        EntriesAt(init, 0);
      }
    }
  }

  /** A paired entrance is "left", a paired exit "right"; an unpaired entry
      is "center" exactly when it comes after a paired entrance with no
      paired exit in between, and "none" otherwise. */
  lemma PositionIff(slots: seq<Slot>, i: nat)
    requires i < |slots|
    ensures Entries(slots)[i].position == Left <==> PairedIn(slots[i])
    ensures Entries(slots)[i].position == Right <==> PairedOut(slots[i])
    ensures Entries(slots)[i].position == Center <==>
            PairIdOf(slots[i]) == 0
            && exists j :: 0 <= j < i && PairedIn(slots[j])
                           && forall k :: j < k < i ==> !PairedOut(slots[k])
  {
    EntriesAt(slots, i);
    OpenIff(slots[..i]);
    var pre := slots[..i];
    if exists j :: 0 <= j < i && PairedIn(slots[j]) && forall k :: j < k < i ==> !PairedOut(slots[k]) {
      var j :| 0 <= j < i && PairedIn(slots[j]) && forall k :: j < k < i ==> !PairedOut(slots[k]);
      assert pre[j] == slots[j];
      assert forall k :: j < k < |pre| ==> !PairedOut(pre[k]) by {
        forall k | j < k < |pre|
          ensures !PairedOut(pre[k])
        {
          assert pre[k] == slots[k];
        }
      }
    }
    if Open(pre) {
      var j :| 0 <= j < |pre| && PairedIn(pre[j]) && forall k :: j < k < |pre| ==> !PairedOut(pre[k]);
      assert slots[j] == pre[j];
      assert forall k :: j < k < i ==> !PairedOut(slots[k]) by {
        forall k | j < k < i
          ensures !PairedOut(slots[k])
        {
          assert pre[k] == slots[k];
        }
      }
    }
  }

  // ---------------------------------------------------------------------
  // Notes

  /** The note line of a stamping: its hour and its note, when it has a non-empty one. */
  function NoteLine(s: Stamp, hourOf: Stamp -> string): seq<string> {
    if s.note.Some? && s.note.value != "" then [hourOf(s) + ": " + s.note.value] else []
  }

  function NotesOfStamps(ss: seq<Stamp>, hourOf: Stamp -> string): seq<string> {
    if ss == [] then [] else NotesOfStamps(ss[..|ss| - 1], hourOf) + NoteLine(ss[|ss| - 1], hourOf)
  }

  /** The note lines of a labelled row; fictitious stampings carry no note. */
  function StampingsNote(entries: seq<TemplateEntry>, hourOf: Stamp -> string): seq<string> {
    if entries == [] then []
    else
      var e := entries[|entries| - 1];
      StampingsNote(entries[..|entries| - 1], hourOf) + (if e.slot.Real? then NoteLine(e.slot.stamp, hourOf) else [])
  }

  method GetStampingsNote(stampingsTemplate: seq<TemplateEntry>, hourOf: Stamp -> string) returns (note: seq<string>)
    ensures note == StampingsNote(stampingsTemplate, hourOf)
  {
    note := [];
    for i := 0 to |stampingsTemplate|
      invariant note == StampingsNote(stampingsTemplate[..i], hourOf)
    {
      assert stampingsTemplate[..i + 1][..i] == stampingsTemplate[..i];
      var slot := stampingsTemplate[i].slot;
      if slot.Real? && slot.stamp.note.Some? && slot.stamp.note.value != "" {
        note := note + [hourOf(slot.stamp) + ": " + slot.stamp.note.value];
      }
    }
    assert stampingsTemplate[..|stampingsTemplate|] == stampingsTemplate;
  }

  function SlotsOf(entries: seq<TemplateEntry>): seq<Slot> {
    seq(|entries|, i requires 0 <= i < |entries| => entries[i].slot)
  }

  lemma {:induction false} NotesOfStampsAppend(a: seq<Stamp>, b: seq<Stamp>, hourOf: Stamp -> string)
    ensures NotesOfStamps(a + b, hourOf) == NotesOfStamps(a, hourOf) + NotesOfStamps(b, hourOf)
  {
    if b == [] {
      assert a + b == a;
    } else {
      assert (a + b)[..|a + b| - 1] == a + b[..|b| - 1];
      NotesOfStampsAppend(a, b[..|b| - 1], hourOf);
    }
  }

  /** The notes of a labelled row are those of its real stampings, in row order. */
  lemma {:induction false} StampingsNoteOfReals(entries: seq<TemplateEntry>, hourOf: Stamp -> string)
    ensures StampingsNote(entries, hourOf) == NotesOfStamps(RealsOf(SlotsOf(entries)), hourOf)
  {
    if entries != [] {
      var init := entries[..|entries| - 1];
      StampingsNoteOfReals(init, hourOf);
      assert SlotsOf(entries)[..|entries| - 1] == SlotsOf(init);
      var e := entries[|entries| - 1];
      var extra := if e.slot.Real? then [e.slot.stamp] else [];
      NotesOfStampsAppend(RealsOf(SlotsOf(init)), extra, hourOf);
      if e.slot.Real? {
        assert [e.slot.stamp][..0] == [];
      }
    }
  }

  lemma {:induction false} SlotsOfEntries(slots: seq<Slot>)
    ensures SlotsOf(Entries(slots)) == slots
  {
    if slots != [] {
      var init := slots[..|slots| - 1];
      SlotsOfEntries(init);
      if init != [] {
        EntriesAt(init, 0);
      }
    }
  }

  /** The notes of the day are the notes of the ordered stampings, in order:
      the fictitious stampings and the padding add none. */
  lemma DayNotes(ss: seq<Stamp>, numberOfInOut: int, hourOf: Stamp -> string)
    ensures StampingsNote(Entries(Template(ss, numberOfInOut)), hourOf) == NotesOfStamps(ss, hourOf)
  {
    var t := Template(ss, numberOfInOut);
    StampingsNoteOfReals(Entries(t), hourOf);
    SlotsOfEntries(t);
    TemplateShape(ss, numberOfInOut);
  }

  // ---------------------------------------------------------------------
  // Meal ticket

  datatype Ticket = Yes | No | YesIfExitNow | NotYet

  /** What the recap knows of the day. Whether it is past, today or future
      is read from the clock by the caller. */
  datatype PersonDay = PersonDay(
    date: Date,
    personBegin: Date,
    holiday: bool,
    approvedOnHoliday: int,
    ticketForcedByAdmin: bool,
    ticketAvailable: bool,
    past: bool,
    today: bool,
    future: bool,
    consideredExitingNow: bool)

  /** The meal-ticket column of the day; `None` leaves it blank. */
  function MealTicketOf(ignoreDay: bool, day: PersonDay, allDayAbsences: bool): Option<Ticket> {
    if ignoreDay then None
    else if day.holiday && day.approvedOnHoliday <= 0 && !day.ticketForcedByAdmin then None
    else if day.future then (if allDayAbsences then Some(No) else None)
    else if day.ticketAvailable then
      if day.ticketForcedByAdmin then Some(Yes)
      else if day.today then
        if allDayAbsences then Some(No)
        else if day.consideredExitingNow then Some(YesIfExitNow)
        else Some(Yes)
      else Some(Yes)
    else if day.ticketForcedByAdmin then Some(No)
    else if day.past then Some(No)
    else if day.today || !allDayAbsences then Some(NotYet)
    else Some(No)
  }

  /** A day that is neither ignored, nor an unapproved holiday, nor in the future. */
  predicate Decided(ignoreDay: bool, day: PersonDay) {
    !ignoreDay && !(day.holiday && day.approvedOnHoliday <= 0 && !day.ticketForcedByAdmin) && !day.future
  }

  /** Each outcome of the meal-ticket column, with exactly the days that get it. */
  lemma MealTicketCases(ignoreDay: bool, day: PersonDay, allDay: bool)
    ensures var r := MealTicketOf(ignoreDay, day, allDay);
            (r.None? <==>
               ignoreDay || (day.holiday && day.approvedOnHoliday <= 0 && !day.ticketForcedByAdmin)
               || (day.future && !allDay))
            && (r == Some(Yes) <==>
               Decided(ignoreDay, day) && day.ticketAvailable
               && (day.ticketForcedByAdmin || !day.today || (!allDay && !day.consideredExitingNow)))
            && (r == Some(YesIfExitNow) <==>
               Decided(ignoreDay, day) && day.ticketAvailable && !day.ticketForcedByAdmin
               && day.today && !allDay && day.consideredExitingNow)
            && (r == Some(NotYet) <==>
               Decided(ignoreDay, day) && !day.ticketAvailable && !day.ticketForcedByAdmin
               && !day.past && (day.today || !allDay))
            && (r == Some(No) <==>
               (!ignoreDay && !(day.holiday && day.approvedOnHoliday <= 0 && !day.ticketForcedByAdmin)
                && day.future && allDay)
               || (Decided(ignoreDay, day) && day.ticketAvailable && !day.ticketForcedByAdmin
                   && day.today && allDay)
               || (Decided(ignoreDay, day) && !day.ticketAvailable
                   && (day.ticketForcedByAdmin || day.past || (!day.today && allDay))))
  {
  }

  // ---------------------------------------------------------------------
  // Ignored day and first day

  datatype Contract = Contract(beginDate: Date, sourceDateResidual: Option<Date>)

  /** The test made for each contract of the month. */
  predicate OutsideContract(c: Contract, day: PersonDay) {
    c.beginDate > day.date
    || (c.sourceDateResidual.Some? && day.date < c.sourceDateResidual.value)
    || day.date < day.personBegin
  }

  predicate IgnoredBy(contracts: seq<Contract>, day: PersonDay) {
    exists k :: 0 <= k < |contracts| && OutsideContract(contracts[k], day)
  }

  predicate FirstDayOf(contracts: seq<Contract>, day: PersonDay) {
    exists k :: 0 <= k < |contracts| && contracts[k].beginDate == day.date
  }

  /** A day is ignored when a contract of the month begins after it, or an
      initialisation of one is later, or, provided the month has a contract
      at all, when it precedes the person's own start. */
  lemma IgnoredIff(contracts: seq<Contract>, day: PersonDay)
    ensures IgnoredBy(contracts, day) <==>
            (exists k :: 0 <= k < |contracts| &&
              (contracts[k].beginDate > day.date
               || (contracts[k].sourceDateResidual.Some? && day.date < contracts[k].sourceDateResidual.value)))
            || (contracts != [] && day.date < day.personBegin)
  {
    if contracts != [] && day.date < day.personBegin {
      assert OutsideContract(contracts[0], day);
    }
  }

  /** The interval of a personal working time slot. */
  datatype TimeInterval = TimeInterval(from: int, to: int)

  /** The personal working interval: none without a slot, or when the slot ends before it begins. */
  function PersonalWorkingTimeInterval(slot: Option<TimeInterval>): (r: Option<TimeInterval>)
    ensures r.Some? <==> slot.Some? && slot.value.from <= slot.value.to
    ensures r.Some? ==> r == slot
  {
    if slot.None? then None
    else
      var interval := TimeInterval(slot.value.from, slot.value.to);
      if interval.to < interval.from then None else Some(interval)
  }

  // ---------------------------------------------------------------------
  // The recap

  /** The labelled row of the day: its stampings alternated, padded to the
      sheet's columns and labelled by pair position. */
  method GetStampingsTemplate(orderedStampings: seq<Stamp>, numberOfInOut: int)
    returns (stampingsTemplate: seq<TemplateEntry>)
    ensures stampingsTemplate == Entries(Template(orderedStampings, numberOfInOut))
  {
    var stampingsForTemplate := AlternateAndPad(orderedStampings, numberOfInOut);
    var samePair := false;
    stampingsTemplate := [];
    for i := 0 to |stampingsForTemplate|
      invariant samePair == Open(stampingsForTemplate[..i])
      invariant stampingsTemplate == Entries(stampingsForTemplate[..i])
    {
      var stamping := stampingsForTemplate[i];
      assert stampingsForTemplate[..i + 1][..i] == stampingsForTemplate[..i];
      var position := NoPosition;
      if PairIdOf(stamping) != 0 && WayOf(stamping) == In {
        position := Left;
        samePair := true;
      } else if PairIdOf(stamping) != 0 && WayOf(stamping) == Out {
        position := Right;
        samePair := false;
      } else if samePair {
        position := Center;
      }
      stampingsTemplate := stampingsTemplate + [TemplateEntry(stamping, position)];
    }
    assert stampingsForTemplate[..|stampingsForTemplate|] == stampingsForTemplate;
  }

  /** The month-contract loop of the recap: whether some contract excludes
      the day, and whether some contract begins on it. */
  method ClassifyDay(day: PersonDay, contracts: seq<Contract>) returns (ignoreDay: bool, firstDay: bool)
    ensures ignoreDay == IgnoredBy(contracts, day)
    ensures firstDay == FirstDayOf(contracts, day)
  {
    ignoreDay, firstDay := false, false;
    for i := 0 to |contracts|
      invariant ignoreDay == IgnoredBy(contracts[..i], day)
      invariant firstDay == FirstDayOf(contracts[..i], day)
    {
      var contract := contracts[i];
      assert contracts[..i + 1][i] == contract;
      assert forall k :: 0 <= k < i ==> contracts[..i + 1][k] == contracts[..i][k];
      if contract.beginDate > day.date
         || (contract.sourceDateResidual.Some? && day.date < contract.sourceDateResidual.value)
         || day.date < day.personBegin {
        ignoreDay := true;
      }
      if contract.beginDate == day.date {
        firstDay := true;
      }
    }
    assert contracts[..|contracts|] == contracts;
  }

  class PersonStampingDayRecap {
    var ignoreDay: bool
    var firstDay: bool
    var stampingsTemplate: seq<TemplateEntry>
    var note: seq<string>
    var mealTicket: Option<Ticket>
    var personalWorkInterval: Option<TimeInterval>

    /** Builds the recap of `day` from its stampings in order, the sheet's
        number of in/out columns and, when given, the month's contracts. */
    constructor(day: PersonDay, orderedStampings: seq<Stamp>, numberOfInOut: int,
                monthContracts: Option<seq<Contract>>, allDayAbsences: bool,
                personalSlot: Option<TimeInterval>, hourOf: Stamp -> string)
      ensures personalWorkInterval == PersonalWorkingTimeInterval(personalSlot)
      ensures stampingsTemplate == Entries(Template(orderedStampings, numberOfInOut))
      ensures note == StampingsNote(stampingsTemplate, hourOf)
      ensures ignoreDay <==> monthContracts.Some? && IgnoredBy(monthContracts.value, day)
      ensures firstDay <==> monthContracts.Some? && FirstDayOf(monthContracts.value, day)
      ensures mealTicket == MealTicketOf(ignoreDay, day, allDayAbsences)
    {
      personalWorkInterval := PersonalWorkingTimeInterval(personalSlot);
      var row := GetStampingsTemplate(orderedStampings, numberOfInOut);
      stampingsTemplate := row;
      var dayNotes := GetStampingsNote(row, hourOf);
      note := dayNotes;
      var ignore, first := false, false;
      if monthContracts.Some? {
        ignore, first := ClassifyDay(day, monthContracts.value);
      }
      ignoreDay := ignore;
      firstDay := first;
      mealTicket := None;
      new;
      ComputeMealTicket(day, allDayAbsences);
    }

    /** Sets the meal-ticket column of the day. */
    method ComputeMealTicket(day: PersonDay, thereAreAllDayAbsences: bool)
      modifies this`mealTicket
      ensures mealTicket == MealTicketOf(ignoreDay, day, thereAreAllDayAbsences)
    {
      if ignoreDay {
        mealTicket := None;
        return;
      }
      if day.holiday && day.approvedOnHoliday <= 0 && !day.ticketForcedByAdmin {
        mealTicket := None;
        return;
      }
      if day.future {
        if thereAreAllDayAbsences {
          mealTicket := Some(No);
        } else {
          mealTicket := None;
        }
        return;
      }
      if day.ticketAvailable {
        if day.ticketForcedByAdmin {
          mealTicket := Some(Yes);
        } else if day.today {
          if thereAreAllDayAbsences {
            mealTicket := Some(No);
          } else if day.consideredExitingNow {
            mealTicket := Some(YesIfExitNow);
          } else {
            mealTicket := Some(Yes);
          }
        } else {
          mealTicket := Some(Yes);
        }
        return;
      }
      if !day.ticketAvailable {
        if day.ticketForcedByAdmin {
          mealTicket := Some(No);
        } else if day.past {
          mealTicket := Some(No);
        } else if day.today || !thereAreAllDayAbsences {
          mealTicket := Some(NotYet);
        } else {
          mealTicket := Some(No);
        }
      }
    }
  }
}
