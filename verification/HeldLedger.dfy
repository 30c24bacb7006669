/**
 What one appliance holds for its next start: values a write left behind, each with what the
 appliance reported for it when it was chosen. A value leaves when a newer write takes its key,
 when a new course is chosen, when a start carries it, or when the appliance goes its own way.
 */
module HeldLedger {
  import opened Dicts
  import opened LegacyEnvelope
  import opened Options
  import opened Staging

  // `base` is JNull until the appliance has reported something for the key.
  datatype Entry = Entry(value: Json, base: Json)

  type Ledger = seq<(Key, Entry)>

  const COURSE := "Course"

  function ValuesOf(ledger: Ledger): Staged {
    seq(|ledger|, i requires 0 <= i < |ledger| => (ledger[i].0, ledger[i].1.value))
  }

  predicate StartsCourse(held: Staged) {
    exists i :: 0 <= i < |held| && held[i].0.prefix == Some(COURSE)
  }

  // Without the settings of the previous course that this write does not bring itself.
  function ForNewCourse(ledger: Ledger, held: Staged): Ledger {
    if ledger == [] then []
    else
      var last := ledger[|ledger| - 1];
      ForNewCourse(ledger[..|ledger| - 1], held) +
      if last.0.prefix.None? && Lookup(held, last.0).None? then [] else [last]
  }

  function StageAll(ledger: Ledger, held: Staged, lastBodies: Body): Ledger {
    if held == [] then ledger
    else
      var (key, value) := held[|held| - 1];
      Put(StageAll(ledger, held[..|held| - 1], lastBodies), key, Entry(value, StagedCurrent(lastBodies, key)))
  }

  function Chosen(ledger: Ledger, held: Staged, lastBodies: Body): Ledger {
    StageAll(if StartsCourse(held) then ForNewCourse(ledger, held) else ledger, held, lastBodies)
  }

  // The appliance is doing something other than waiting.
  predicate Busy(bodies: Body) {
    var state := FieldAt(bodies, "Operation", "state");
    state.Some? && state.value != JNull && state.value != JStr("Ready")
  }

  // An entry against a report: kept, with its base filled in by the first one, or dropped.
  function Against(key: Key, entry: Entry, bodies: Body): Option<Entry> {
    if Lookup(bodies, key.wrapper).None? then Some(entry)
    else if entry.base == JNull then Some(Entry(entry.value, StagedCurrent(bodies, key)))
    else if StagedCurrent(bodies, key) != entry.base then None
    else Some(entry)
  }

  function Compared(ledger: Ledger, bodies: Body): Ledger {
    if ledger == [] then []
    else
      var (key, entry) := ledger[|ledger| - 1];
      var kept := Against(key, entry, bodies);
      Compared(ledger[..|ledger| - 1], bodies) + if kept.Some? then [(key, kept.value)] else []
  }

  function Reporting(ledger: Ledger, bodies: Body): Ledger {
    if Busy(bodies) then [] else Compared(ledger, bodies)
  }

  // ---------------------------------------------------------------------
  // The methods the transport runs
  // ---------------------------------------------------------------------

  /** Hold what a write left for the start. */
  method Hold(before: Ledger, held: Staged, lastBodies: Body) returns (ledger: Ledger)
    ensures ledger == Chosen(before, held, lastBodies)
  {
    ledger := before;
    if StartsCourse(held) {
      ledger := [];
      for i := 0 to |before|
        invariant ledger == ForNewCourse(before[..i], held)
      {
        assert before[..i + 1][..i] == before[..i];
        if !(before[i].0.prefix.None? && Lookup(held, before[i].0).None?) {
          ledger := ledger + [before[i]];
        }
      }
      assert before[..|before|] == before;
    }
    ghost var start := ledger;
    for j := 0 to |held|
      invariant ledger == StageAll(start, held[..j], lastBodies)
    {
      assert held[..j + 1][..j] == held[..j];
      ledger := Put(ledger, held[j].0, Entry(held[j].1, StagedCurrent(lastBodies, held[j].0)));
    }
    assert held[..|held|] == held;
  }

  // What is left of an entry by a read. One of an appliance that names no Operation state, null or
  // "Ready" keeps an entry that it leaves out, has no base yet or repeats the base of, the base
  // filled in; one with any other state keeps none.
  predicate LeftByRead(bodies: Body, key: Key, entry: Entry, left: Option<Entry>) {
    var state, current := FieldAt(bodies, "Operation", "state"), StagedCurrent(bodies, key);
    if state != None && state != Some(JNull) && state != Some(JStr("Ready")) then left == None
    else if Lookup(bodies, key.wrapper) == None then left == Some(entry)
    else if entry.base == JNull || entry.base == current then left == Some(Entry(entry.value, current))
    else left == None
  }

  /** Drop what the appliance has decided for itself. */
  method Compare(before: Ledger, bodies: Body) returns (ledger: Ledger)
    ensures ledger == Reporting(before, bodies)
    ensures Distinct(before) ==> forall key ::
              if Lookup(before, key).Some? then LeftByRead(bodies, key, Lookup(before, key).value, Lookup(ledger, key))
              else Lookup(ledger, key).None?
  {
    if Distinct(before) { forall key { ReportLeaves(before, bodies, key); } }
    ledger := [];
    if Busy(bodies) {
      return;
    }
    for i := 0 to |before|
      invariant ledger == Compared(before[..i], bodies)
    {
      assert before[..i + 1][..i] == before[..i];
      var (key, entry) := before[i];
      if Lookup(bodies, key.wrapper).None? {
        ledger := ledger + [(key, entry)];
        continue;
      }
      var current := StagedCurrent(bodies, key);
      if entry.base == JNull {
        ledger := ledger + [(key, Entry(entry.value, current))];
      } else if current == entry.base {
        ledger := ledger + [(key, entry)];
      }
    }
    assert before[..|before|] == before;
  }

  // ---------------------------------------------------------------------
  // One step
  // ---------------------------------------------------------------------

  datatype Event =
    | Written(held: Staged, lastBodies: Body)
    | Started
    | Reported(bodies: Body)

  function Apply(ledger: Ledger, e: Event): Ledger {
    match e
    case Written(held, lastBodies) => Chosen(ledger, held, lastBodies)
    case Started => []
    case Reported(bodies) => Reporting(ledger, bodies)
  }

  function Run(history: seq<Event>): Ledger {
    if history == [] then [] else Apply(Run(history[..|history| - 1]), history[|history| - 1])
  }

  datatype Fate = Stays | Superseded | Discarded | Carried | Dropped

  // The Operation state a report names, if it names one.
  predicate NamesState(bodies: Body, state: Json) {
    FieldAt(bodies, "Operation", "state") == Some(state)
  }

  // A write that chooses a course.
  predicate BringsCourse(held: Staged) {
    exists k :: k in held && k.0.prefix == Some("Course")
  }

  // What an event does to one held entry, said without the code that does it. A report of an
  // appliance that waits, or says nothing of what it does, names no state, null or "Ready".
  function FateOf(key: Key, entry: Entry, e: Event): Fate {
    match e
    case Written(held, _) =>
      if Lookup(held, key).Some? then Superseded
      else if BringsCourse(held) && key.prefix.None? then Discarded
      else Stays
    case Started => Carried
    case Reported(bodies) =>
      if FieldAt(bodies, "Operation", "state").Some?
         && !NamesState(bodies, JNull) && !NamesState(bodies, JStr("Ready"))
      then Dropped
      else if Lookup(bodies, key.wrapper).Some? && entry.base != JNull
              && StagedCurrent(bodies, key) != entry.base
      then Dropped
      else Stays
  }

  // The entry's base after an event it stays through: the first thing reported for it.
  function BaseAfter(key: Key, entry: Entry, e: Event): Json {
    if e.Reported? && entry.base == JNull && Lookup(e.bodies, key.wrapper).Some? then StagedCurrent(e.bodies, key)
    else entry.base
  }

  lemma CourseIsBrought(held: Staged)
    ensures StartsCourse(held) <==> BringsCourse(held)
  {
    if StartsCourse(held) {
      var i :| 0 <= i < |held| && held[i].0.prefix == Some(COURSE);
      assert held[i] in held;
    }
  }

  lemma {:induction false} StageAllReads(ledger: Ledger, held: Staged, lastBodies: Body, key: Key)
    ensures Lookup(StageAll(ledger, held, lastBodies), key) ==
            if Lookup(held, key).Some? then Some(Entry(Lookup(held, key).value, StagedCurrent(lastBodies, key)))
            else Lookup(ledger, key)
    ensures Distinct(ledger) ==> Distinct(StageAll(ledger, held, lastBodies))
  {
    if held != [] {
      StageAllReads(ledger, held[..|held| - 1], lastBodies, key);
      var (k, value) := held[|held| - 1];
      PutLookup(StageAll(ledger, held[..|held| - 1], lastBodies), k, Entry(value, StagedCurrent(lastBodies, k)), key);
    }
  }

  lemma {:induction false} ForNewCourseReads(ledger: Ledger, held: Staged, key: Key)
    requires Distinct(ledger)
    ensures Lookup(ForNewCourse(ledger, held), key) ==
            if key.prefix.None? && Lookup(held, key).None? then None else Lookup(ledger, key)
    ensures forall k | k in ForNewCourse(ledger, held) :: k in ledger
    ensures Distinct(ForNewCourse(ledger, held))
  {
    if ledger != [] {
      var before := ledger[..|ledger| - 1];
      var last := ledger[|ledger| - 1];
      DistinctPrefix(ledger);
      ForNewCourseReads(before, held, key);
      assert ledger == before + [last];
      var kept := ForNewCourse(before, held);
      if last.0.prefix.None? && Lookup(held, last.0).None? {
        assert ForNewCourse(ledger, held) == kept;
      } else {
        ForNewCourseReads(before, held, last.0);
        DistinctSnoc(kept, last);
        LookupAfter(kept, [last], key);
      }
    }
  }

  lemma {:induction false} ComparedReads(ledger: Ledger, bodies: Body, key: Key)
    requires Distinct(ledger)
    ensures var entry := Lookup(ledger, key);
      Lookup(Compared(ledger, bodies), key) == if entry.Some? then Against(key, entry.value, bodies) else None
    ensures Distinct(Compared(ledger, bodies))
  {
    if ledger != [] {
      var before := ledger[..|ledger| - 1];
      var last := ledger[|ledger| - 1];
      DistinctPrefix(ledger);
      ComparedReads(before, bodies, key);
      ComparedReads(before, bodies, last.0);
      var kept := Against(last.0, last.1, bodies);
      if kept.Some? {
        DistinctSnoc(Compared(before, bodies), (last.0, kept.value));
        LookupAfter(Compared(before, bodies), [(last.0, kept.value)], key);
      } else {
        assert Compared(ledger, bodies) == Compared(before, bodies);
      }
    }
  }

  lemma ApplyDistinct(ledger: Ledger, e: Event)
    requires Distinct(ledger)
    ensures Distinct(Apply(ledger, e))
  {
    match e
    case Written(held, lastBodies) =>
      ForNewCourseReads(ledger, held, Key("", "", None));
      var start := if StartsCourse(held) then ForNewCourse(ledger, held) else ledger;
      StageAllReads(start, held, lastBodies, Key("", "", None));
    case Started =>
    case Reported(bodies) =>
      ComparedReads(ledger, bodies, Key("", "", None));
  }

  /** A read of an appliance that waits, or does not say what it does, keeps every entry it repeats
      the base of or says nothing about; a read of one that does anything else keeps none. */
  lemma ReportLeaves(ledger: Ledger, bodies: Body, key: Key)
    requires Distinct(ledger)
    ensures var left := Lookup(Reporting(ledger, bodies), key);
      if Lookup(ledger, key).Some? then LeftByRead(bodies, key, Lookup(ledger, key).value, left) else left.None?
  {
    ComparedReads(ledger, bodies, key);
  }

  /** What is held under a key after an event: what the event wrote there, or what was held and
      stays, its value unchanged and its base filled in once. */
  lemma ApplyReads(ledger: Ledger, e: Event, key: Key)
    requires Distinct(ledger)
    ensures var entry := Lookup(ledger, key);
      Lookup(Apply(ledger, e), key) ==
      if e.Written? && Lookup(e.held, key).Some? then
        Some(Entry(Lookup(e.held, key).value, StagedCurrent(e.lastBodies, key)))
      else if entry.Some? && FateOf(key, entry.value, e).Stays? then
        Some(Entry(entry.value.value, BaseAfter(key, entry.value, e)))
      else None
  {
    match e
    case Written(held, lastBodies) =>
      CourseIsBrought(held);
      ForNewCourseReads(ledger, held, key);
      StageAllReads(if StartsCourse(held) then ForNewCourse(ledger, held) else ledger, held, lastBodies, key);
    case Started =>
    case Reported(bodies) =>
      ComparedReads(ledger, bodies, key);
  }

  // ---------------------------------------------------------------------
  // Whole runs
  // ---------------------------------------------------------------------

  lemma {:induction false} RunDistinct(history: seq<Event>)
    ensures Distinct(Run(history))
  {
    if history != [] {
      RunDistinct(history[..|history| - 1]);
      ApplyDistinct(Run(history[..|history| - 1]), history[|history| - 1]);
    }
  }

  predicate WritesKey(e: Event, key: Key) {
    e.Written? && Lookup(e.held, key).Some?
  }

  // When the key was last written, -1 for never.
  function LastWritten(history: seq<Event>, key: Key): (i: int)
    ensures -1 <= i < |history|
    ensures i >= 0 ==> WritesKey(history[i], key)
    ensures forall j | i < j < |history| :: !WritesKey(history[j], key)
  {
    if history == [] then -1
    else if WritesKey(history[|history| - 1], key) then |history| - 1
    else LastWritten(history[..|history| - 1], key)
  }

  // The base of the value written by event `i`, while it is held: what the appliance reported
  // when it was chosen, else the first thing it reported for the key since.
  function BaseSince(history: seq<Event>, i: nat, key: Key): Json
    requires i < |history| && WritesKey(history[i], key)
    decreases |history|
  {
    if |history| == i + 1 then StagedCurrent(history[i].lastBodies, key)
    else
      var before := history[..|history| - 1];
      var base := BaseSince(before, i, key);
      var e := history[|history| - 1];
      if base == JNull && e.Reported? && Lookup(e.bodies, key.wrapper).Some? then StagedCurrent(e.bodies, key) else base
  }

  // What became of the value written under `key` by event `i`, from the events alone.
  function FateSince(history: seq<Event>, i: nat, key: Key): Fate
    requires i < |history| && WritesKey(history[i], key)
    decreases |history|
  {
    if |history| == i + 1 then Stays
    else
      var before := history[..|history| - 1];
      var soFar := FateSince(before, i, key);
      if !soFar.Stays? then soFar
      else FateOf(key, Entry(Lookup(history[i].held, key).value, BaseSince(before, i, key)), history[|history| - 1])
  }

  /** Every value ever written has exactly one fate: it is what is held under its key now, with
      its first report as its base, exactly when nothing since has superseded, discarded, carried
      or dropped it. */
  lemma {:induction false} EveryValueHasOneFate(history: seq<Event>, i: nat, key: Key)
    requires i < |history| && WritesKey(history[i], key)
    ensures FateSince(history, i, key).Stays? <==> Lookup(Run(history), key).Some? && LastWritten(history, key) == i
    ensures FateSince(history, i, key).Stays? ==>
              Lookup(Run(history), key) ==
              Some(Entry(Lookup(history[i].held, key).value, BaseSince(history, i, key)))
    decreases |history|
  {
    var before := history[..|history| - 1];
    var e := history[|history| - 1];
    RunDistinct(before);
    ApplyReads(Run(before), e, key);
    if i < |history| - 1 {
      assert before[i] == history[i];
      EveryValueHasOneFate(before, i, key);
    }
  }

  /** Whatever is held was written, and is the newest value written under its key. */
  lemma {:induction false} HeldWasWritten(history: seq<Event>, key: Key)
    requires Lookup(Run(history), key).Some?
    ensures LastWritten(history, key) >= 0
    ensures Lookup(Run(history), key).value.value == Lookup(history[LastWritten(history, key)].held, key).value
  {
    var before := history[..|history| - 1];
    var e := history[|history| - 1];
    RunDistinct(before);
    ApplyReads(Run(before), e, key);
    if !WritesKey(e, key) { HeldWasWritten(before, key); }
  }

  /** No held setting predates the held course. */
  lemma {:induction false} SettingsFollowCourse(history: seq<Event>, course: Key, setting: Key)
    requires Lookup(Run(history), course).Some? && course.prefix == Some(COURSE)
    requires Lookup(Run(history), setting).Some? && setting.prefix.None?
    ensures LastWritten(history, course) <= LastWritten(history, setting)
  {
    var before := history[..|history| - 1];
    var e := history[|history| - 1];
    RunDistinct(before);
    ApplyReads(Run(before), e, course);
    ApplyReads(Run(before), e, setting);
    if WritesKey(e, course) {
      CourseIsStarted(e.held, course);
    } else if !WritesKey(e, setting) {
      SettingsFollowCourse(before, course, setting);
    }
  }

  lemma CourseIsStarted(held: Staged, course: Key)
    requires Lookup(held, course).Some? && course.prefix == Some(COURSE)
    ensures StartsCourse(held)
  {
    var i :| 0 <= i < |held| && held[i] == (course, Lookup(held, course).value);
  }

  // ---------------------------------------------------------------------
  // What a start carries
  // ---------------------------------------------------------------------

  predicate Carries(body: Body, key: Key, value: Json) {
    var at := FieldAt(body, key.wrapper, key.name);
    if key.prefix.None? then at == Some(value) else at.Some? && at.value.JList? && value in at.value.items
  }

  lemma AddOneCarries(body: Body, key: Key, value: Json, k: Key, v: Json)
    requires AddOne(body, key, value).Some?
    ensures Carries(AddOne(body, key, value).value, key, value)
    ensures (&& Carries(body, k, v) && k != key
             && (k.wrapper == key.wrapper && k.name == key.name ==> k.prefix.Some? && key.prefix.Some?)) ==>
            Carries(AddOne(body, key, value).value, k, v)
  {
    var at := Lookup(body, key.wrapper);
    var fields := if at.Some? then at.value.fields else [];
    var put := AddToField(Lookup(fields, key.name), key, value).value;
    PutFieldReads(body, key.wrapper, Put(fields, key.name, put), key.wrapper, key.name);
    PutFieldReads(body, key.wrapper, Put(fields, key.name, put), k.wrapper, k.name);
    PutLookup(fields, key.name, put, key.name);
    PutLookup(fields, key.name, put, k.name);
  }

  /** A body with held values added has every one of them. */
  lemma {:induction false} AddedCarriesAll(body: Body, held: Staged, k: (Key, Json))
    requires Distinct(held) && Coherent(held) && Added(body, held).Some? && k in held
    ensures Carries(Added(body, held).value, k.0, k.1)
  {
    var before := held[..|held| - 1];
    var last := held[|held| - 1];
    DistinctPrefix(held);
    assert last in held;
    AddOneCarries(Added(body, before).value, last.0, last.1, k.0, k.1);
    if k != last {
      assert k in before;
      AddedCarriesAll(body, before, k);
      assert Lookup(before, k.0).Some?;
    }
  }
}
