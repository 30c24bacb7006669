/**
 Commands and the windows they hold open. A write remembers the window it found on its href,
 merges its value, arms a window of its own, arms it again when its retry has landed, and on a
 refusal puts back what it found. Any number of writes overlap, between polls, pushes and
 sweeps, on a clock that never goes back.
 */
module WriteWindows {
  import opened Options
  import opened ObserveManager

  // A write in flight: the window it found, and the deadline it armed last.
  datatype Writer = Writer(href: Href, previous: Option<Time>, armed: Option<Time>)

  // Writers are numbered in the order they began.
  datatype Desk = Desk(gate: Gate, open: map<nat, Writer>, next: nat, clock: Time)

  datatype WriteEvent =
    | Begin(href: Href, body: Rep, now: Time)
    | Arm(id: nat, now: Time)
    | Accept(id: nat, now: Time)
    | Refuse(id: nat, now: Time)
    | Arrive(href: Href, rep: Rep, source: Source, now: Time)
    | Peek(href: Href, now: Time)

  predicate CanHappen(s: Desk, e: WriteEvent) {
    && s.clock <= e.now
    && match e
       case Arm(id, _) => id in s.open
       case Accept(id, _) => id in s.open && s.open[id].armed.Some?
       case Refuse(id, _) => id in s.open && s.open[id].armed.Some?
       case Arrive(_, _, source, _) => source != Optimistic
       case _ => true
  }

  // What an event asks of the manager.
  function Effect(s: Desk, e: WriteEvent, settleFor: Time): Option<GateEvent>
    requires CanHappen(s, e)
  {
    match e
    case Begin(href, body, now) => Some(Arrives(href, body, Optimistic, now))
    case Arm(id, now) => Some(Armed(s.open[id].href, settleFor, now))
    case Accept(_, _) => None
    case Refuse(id, now) => Some(Restored(s.open[id].href, s.open[id].previous, s.open[id].armed.value, now))
    case Arrive(href, rep, source, now) => Some(Arrives(href, rep, source, now))
    case Peek(href, now) => Some(Peeked(href, now))
  }

  function OpenAfter(s: Desk, e: WriteEvent, settleFor: Time): map<nat, Writer>
    requires CanHappen(s, e)
  {
    match e
    case Begin(href, _, _) => s.open[s.next := Writer(href, WindowOf(s.gate.settle, href), None)]
    case Arm(id, now) => s.open[id := s.open[id].(armed := Some(now + settleFor))]
    case Accept(id, _) => s.open - {id}
    case Refuse(id, _) => s.open - {id}
    case _ => s.open
  }

  function WriteStep(s: Desk, e: WriteEvent, settleFor: Time): Desk
    requires CanHappen(s, e)
  {
    var effect := Effect(s, e, settleFor);
    Desk(
      if effect.Some? then GateStep(s.gate, effect.value) else s.gate,
      OpenAfter(s, e, settleFor),
      if e.Begin? then s.next + 1 else s.next,
      e.now)
  }

  ghost predicate Run(trace: seq<Desk>, events: seq<WriteEvent>, settleFor: Time) {
    && |trace| == |events| + 1
    && forall i | 0 <= i < |events| ::
         CanHappen(trace[i], events[i]) && trace[i + 1] == WriteStep(trace[i], events[i], settleFor)
  }

  function Window(s: Desk, href: Href): Option<Time> {
    WindowOf(s.gate.settle, href)
  }

  // No deadline lies more than `settleFor` ahead, and a writer arms nothing shorter than what it found.
  ghost predicate Sound(s: Desk, settleFor: Time) {
    && (forall h | h in s.gate.settle :: s.gate.settle[h] <= s.clock + settleFor)
    && (forall id | id in s.open :: id < s.next && WriterSound(s.open[id], s.clock + settleFor))
  }

  predicate WriterSound(w: Writer, latest: Time) {
    && (w.previous.Some? ==> w.previous.value <= latest)
    && (w.armed.Some? ==> w.armed.value <= latest)
    && (w.previous.Some? && w.armed.Some? ==> w.previous.value <= w.armed.value)
  }

  lemma StepIsSound(s: Desk, e: WriteEvent, settleFor: Time)
    requires Sound(s, settleFor) && CanHappen(s, e)
    ensures Sound(WriteStep(s, e, settleFor), settleFor)
  {
    var s' := WriteStep(s, e, settleFor);
    forall id | id in s'.open ensures id < s'.next && WriterSound(s'.open[id], s'.clock + settleFor) {
      if id in s.open { assert WriterSound(s.open[id], s.clock + settleFor); }
    }
  }

  lemma {:induction false} RunIsSound(trace: seq<Desk>, events: seq<WriteEvent>, settleFor: Time, i: nat)
    requires Run(trace, events, settleFor) && i <= |events| && Sound(trace[0], settleFor)
    ensures Sound(trace[i], settleFor) && trace[0].clock <= trace[i].clock && trace[0].next <= trace[i].next
  {
    if i > 0 {
      RunIsSound(trace, events, settleFor, i - 1);
      StepIsSound(trace[i - 1], events[i - 1], settleFor);
    }
  }

  // ---------------------------------------------------------------------
  // One window over a run
  // ---------------------------------------------------------------------

  predicate Stands(s: Desk, href: Href, deadline: Time) {
    href in s.gate.settle && s.gate.settle[href] >= deadline
  }

  // A refusal of a writer that began before the newest of `newer` armed, and whose own last
  // arming is the window now standing.
  predicate Takes(s: Desk, e: WriteEvent, newer: nat, href: Href, deadline: Time) {
    && e.Refuse? && e.id in s.open && e.id < newer
    && s.open[e.id].href == href
    && s.open[e.id].armed.Some? && Window(s, href) == s.open[e.id].armed
    && s.open[e.id].previous != Some(deadline)
  }

  // Of the writers on an href, those begun since found the window standing.
  ghost predicate FoundStanding(s: Desk, newer: nat, href: Href, deadline: Time) {
    forall id | id in s.open && newer <= id && s.open[id].href == href ::
      s.open[id].previous.Some? && s.open[id].previous.value >= deadline
  }

  lemma StandsStep(s: Desk, e: WriteEvent, settleFor: Time, newer: nat, href: Href, deadline: Time)
    requires CanHappen(s, e) && e.now < deadline <= s.clock + settleFor && newer <= s.next
    requires Stands(s, href, deadline) && FoundStanding(s, newer, href, deadline)
    requires forall id | id in s.open && id < newer && s.open[id].previous.Some? ::
               s.open[id].previous.value <= deadline
    ensures var s' := WriteStep(s, e, settleFor);
      && (Stands(s', href, deadline) <==> !Takes(s, e, newer, href, deadline))
      && FoundStanding(s', newer, href, deadline)
  {
  }

  // A writer begun before keeps what it found, and its deadline unless it arms again.
  lemma {:induction false} OldWriters(trace: seq<Desk>, events: seq<WriteEvent>, settleFor: Time, i: nat, id: nat)
    requires Run(trace, events, settleFor) && Sound(trace[0], settleFor) && i <= |events|
    requires id in trace[i].open && id < trace[0].next
    ensures id in trace[0].open
    ensures trace[i].open[id].href == trace[0].open[id].href
    ensures trace[i].open[id].previous == trace[0].open[id].previous
    ensures (forall j | 0 <= j < i :: !(events[j].Arm? && events[j].id == id)) ==>
              trace[i].open[id].armed == trace[0].open[id].armed
  {
    if i > 0 {
      RunIsSound(trace, events, settleFor, i - 1);
      assert id in trace[i - 1].open;
      OldWriters(trace, events, settleFor, i - 1, id);
    }
  }

  lemma {:induction false} StandsSoFar(
    trace: seq<Desk>, events: seq<WriteEvent>, settleFor: Time, href: Href, deadline: Time, i: nat)
    requires Run(trace, events, settleFor) && Sound(trace[0], settleFor) && i <= |events|
    requires Window(trace[0], href) == Some(deadline) && deadline == trace[0].clock + settleFor
    requires forall j | 0 <= j < i :: events[j].now < deadline
    requires forall j | 0 <= j < i :: !Takes(trace[j], events[j], trace[0].next, href, deadline)
    ensures Stands(trace[i], href, deadline) && FoundStanding(trace[i], trace[0].next, href, deadline)
  {
    if i > 0 {
      StandsSoFar(trace, events, settleFor, href, deadline, i - 1);
      StandsNext(trace, events, settleFor, href, deadline, i - 1);
    } else {
      assert forall id | id in trace[0].open :: id < trace[0].next;
    }
  }

  lemma StandsNext(
    trace: seq<Desk>, events: seq<WriteEvent>, settleFor: Time, href: Href, deadline: Time, i: nat)
    requires Run(trace, events, settleFor) && Sound(trace[0], settleFor) && i < |events|
    requires deadline == trace[0].clock + settleFor && events[i].now < deadline
    requires Stands(trace[i], href, deadline) && FoundStanding(trace[i], trace[0].next, href, deadline)
    ensures Stands(trace[i + 1], href, deadline) <==> !Takes(trace[i], events[i], trace[0].next, href, deadline)
    ensures FoundStanding(trace[i + 1], trace[0].next, href, deadline)
  {
    RunIsSound(trace, events, settleFor, i);
    forall id | id in trace[i].open && id < trace[0].next && trace[i].open[id].previous.Some?
      ensures trace[i].open[id].previous.value <= deadline
    {
      OldWriters(trace, events, settleFor, i, id);
      assert WriterSound(trace[0].open[id], trace[0].clock + settleFor);
    }
    StandsStep(trace[i], events[i], settleFor, trace[0].next, href, deadline);
  }

  /** Over any run, from the arming of a window to its deadline: the window stands throughout
      exactly when no writer begun before that arming is refused while its own last deadline is
      the one standing, unless what it goes back to is the very deadline in question. */
  lemma NewerWindowStandsIff(
    trace: seq<Desk>, events: seq<WriteEvent>, settleFor: Time, href: Href, deadline: Time)
    requires Run(trace, events, settleFor) && Sound(trace[0], settleFor)
    requires Window(trace[0], href) == Some(deadline) && deadline == trace[0].clock + settleFor
    requires forall i | 0 <= i < |events| :: events[i].now < deadline
    ensures (forall i | 0 <= i <= |events| :: Stands(trace[i], href, deadline)) <==>
            (forall i | 0 <= i < |events| :: !Takes(trace[i], events[i], trace[0].next, href, deadline))
  {
    if forall i | 0 <= i < |events| :: !Takes(trace[i], events[i], trace[0].next, href, deadline) {
      forall i | 0 <= i <= |events| ensures Stands(trace[i], href, deadline) {
        StandsSoFar(trace, events, settleFor, href, deadline, i);
      }
    } else {
      var i := FirstTake(trace, events, trace[0].next, href, deadline);
      StandsSoFar(trace, events, settleFor, href, deadline, i);
      StandsNext(trace, events, settleFor, href, deadline, i);
      assert !Stands(trace[i + 1], href, deadline);
    }
  }

  lemma FirstTake(trace: seq<Desk>, events: seq<WriteEvent>, newer: nat, href: Href, deadline: Time) returns (i: nat)
    requires |trace| == |events| + 1
    requires exists k :: 0 <= k < |events| && Takes(trace[k], events[k], newer, href, deadline)
    ensures i < |events| && Takes(trace[i], events[i], newer, href, deadline)
    ensures forall j | 0 <= j < i :: !Takes(trace[j], events[j], newer, href, deadline)
  {
    i := 0;
    while !Takes(trace[i], events[i], newer, href, deadline)
      invariant i < |events|
      invariant forall j | 0 <= j < i :: !Takes(trace[j], events[j], newer, href, deadline)
      decreases |events| - i
    {
      var k :| 0 <= k < |events| && Takes(trace[k], events[k], newer, href, deadline);
      i := i + 1;
    }
  }

  // The writer armed again in `events[..i]`.
  predicate ArmedAgain(events: seq<WriteEvent>, i: nat, id: nat)
    requires i <= |events|
  {
    exists j :: 0 <= j < i && events[j].Arm? && events[j].id == id
  }

  /** A refused older writer takes a newer window only after arming again since the newer one
      did; with its retry not needed, or the newer writer last to arm, the window is safe. */
  lemma TakenOnlyByRearmed(
    trace: seq<Desk>, events: seq<WriteEvent>, settleFor: Time, href: Href, deadline: Time, i: nat)
    requires Run(trace, events, settleFor) && Sound(trace[0], settleFor) && i < |events|
    requires deadline == trace[0].clock + settleFor
    requires Stands(trace[i], href, deadline) && Takes(trace[i], events[i], trace[0].next, href, deadline)
    ensures var id := events[i].id;
      && id in trace[0].open && trace[0].open[id].href == href
      && (ArmedAgain(events, i, id) || trace[0].open[id].armed == Some(deadline))
      && trace[0].open[id].previous != Some(deadline)
  {
    var id := events[i].id;
    OldWriters(trace, events, settleFor, i, id);
    assert WriterSound(trace[0].open[id], trace[0].clock + settleFor);
  }

  // ---------------------------------------------------------------------
  // The written value
  // ---------------------------------------------------------------------

  ghost predicate Shows(s: Desk, href: Href, body: Rep) {
    forall f | f in body.Keys :: CachedField(s.gate.cache, href, f) == Some(body[f])
  }

  lemma ShowsNext(s: Desk, e: WriteEvent, settleFor: Time, href: Href, body: Rep)
    requires CanHappen(s, e) && !IsAlarmsHref(href) && Shows(s, href, body)
    requires Settling(s.gate.settle, href, e.now)
    requires e.Begin? && e.href == href ==> e.body.Keys !! body.Keys
    ensures Shows(WriteStep(s, e, settleFor), href, body)
  {
    forall f | f in body.Keys
      ensures CachedField(WriteStep(s, e, settleFor).gate.cache, href, f) == Some(body[f])
    {
      if e.Begin? && e.href == href { assert f !in e.body; }
    }
  }

  predicate NoNewerWrite(events: seq<WriteEvent>, href: Href, fields: set<string>) {
    forall i | 0 <= i < |events| && events[i].Begin? && events[i].href == href :: events[i].body.Keys !! fields
  }

  // The clock has moved since another writer armed on the same href.
  predicate OnlyOneArmed(s: Desk, id: nat, deadline: Time)
    requires id in s.open
  {
    forall j | j in s.open && j != id && s.open[j].href == s.open[id].href :: s.open[j].armed != Some(deadline)
  }

  // No writer begun before is refused after arming again, and the writer `id` itself is not refused.
  predicate NoOlderComesBack(events: seq<WriteEvent>, newer: nat, id: nat) {
    forall i | 0 <= i < |events| && events[i].Refuse? && events[i].id < newer ::
      events[i].id != id && !ArmedAgain(events, i, events[i].id)
  }

  lemma {:induction false} ShownWhileStanding(
    trace: seq<Desk>, events: seq<WriteEvent>, settleFor: Time, id: nat, body: Rep, deadline: Time, i: nat)
    requires Run(trace, events, settleFor) && Sound(trace[0], settleFor) && i <= |events|
    requires id in trace[0].open && trace[0].open[id].armed == Some(deadline)
    requires var href := trace[0].open[id].href;
      && !IsAlarmsHref(href) && Shows(trace[0], href, body)
      && Window(trace[0], href) == Some(deadline) && deadline == trace[0].clock + settleFor
      && OnlyOneArmed(trace[0], id, deadline) && NoNewerWrite(events, href, body.Keys)
    requires forall j | 0 <= j < |events| :: events[j].now < deadline
    requires NoOlderComesBack(events, trace[0].next, id)
    ensures Shows(trace[i], trace[0].open[id].href, body)
    ensures Stands(trace[i], trace[0].open[id].href, deadline)
  {
    if i > 0 {
      var href := trace[0].open[id].href;
      forall j | 0 <= j < i ensures !Takes(trace[j], events[j], trace[0].next, href, deadline) {
        ShownWhileStanding(trace, events, settleFor, id, body, deadline, j);
        if Takes(trace[j], events[j], trace[0].next, href, deadline) {
          TakenOnlyByRearmed(trace, events, settleFor, href, deadline, j);
          assert false;
        }
      }
      ShownWhileStanding(trace, events, settleFor, id, body, deadline, i - 1);
      StandsSoFar(trace, events, settleFor, href, deadline, i);
      ShowsNext(trace[i - 1], events[i - 1], settleFor, href, body);
    }
  }

  lemma RunSuffix(trace: seq<Desk>, events: seq<WriteEvent>, settleFor: Time, k: nat)
    requires Run(trace, events, settleFor) && k <= |events|
    ensures Run(trace[k..], events[k..], settleFor)
  {
    forall i | 0 <= i < |events[k..]|
      ensures CanHappen(trace[k..][i], events[k..][i])
      ensures trace[k..][i + 1] == WriteStep(trace[k..][i], events[k..][i], settleFor)
    {
      assert events[k..][i] == events[k + i] && trace[k..][i] == trace[k + i] && trace[k..][i + 1] == trace[k + i + 1];
    }
  }

  lemma WriteShows(s: Desk, href: Href, body: Rep, t0: Time, t1: Time, settleFor: Time)
    requires !IsAlarmsHref(href) && s.clock <= t0 <= t1
    ensures var s1 := WriteStep(s, Begin(href, body, t0), settleFor);
      && CanHappen(s1, Arm(s.next, t1))
      && var s2 := WriteStep(s1, Arm(s.next, t1), settleFor);
         && Shows(s2, href, body) && Window(s2, href) == Some(t1 + settleFor)
         && s.next in s2.open && s2.open[s.next] == Writer(href, Window(s, href), Some(t1 + settleFor))
  {
    var s1 := WriteStep(s, Begin(href, body, t0), settleFor);
    forall f | f in body.Keys ensures CachedField(s1.gate.cache, href, f) == Some(body[f]) {
    }
  }

  /** A written value stands until its window closes. Anywhere in any run, once a write has
      merged its value and armed: polls, sweeps and pushes, writes to other fields in any number,
      armed again or not, accepted or refused, and refusals of older writes all leave it, as long
      as it is not refused itself and no older write arms again and is then refused. */
  lemma WrittenValueStands(trace: seq<Desk>, events: seq<WriteEvent>, settleFor: Time, k: nat, i: nat)
    requires Run(trace, events, settleFor) && Sound(trace[0], settleFor)
    requires k + 2 <= i <= |events| && events[k].Begin? && !IsAlarmsHref(events[k].href)
    requires var id := trace[k].next; var rest := events[k + 2..]; var deadline := events[k + 1].now + settleFor;
      && events[k + 1] == Arm(id, events[k + 1].now)
      && (forall j | 0 <= j < |rest| :: rest[j].now < deadline)
      && NoNewerWrite(rest, events[k].href, events[k].body.Keys)
      && NoOlderComesBack(rest, id + 1, id)
      && OnlyOneArmed(trace[k + 2], id, deadline)
    ensures Shows(trace[i], events[k].href, events[k].body)
  {
    var id, deadline := trace[k].next, events[k + 1].now + settleFor;
    RunIsSound(trace, events, settleFor, k + 2);
    assert CanHappen(trace[k], events[k]) && trace[k + 1] == WriteStep(trace[k], events[k], settleFor);
    assert CanHappen(trace[k + 1], events[k + 1]) && trace[k + 2] == WriteStep(trace[k + 1], events[k + 1], settleFor);
    WriteShows(trace[k], events[k].href, events[k].body, events[k].now, events[k + 1].now, settleFor);
    RunSuffix(trace, events, settleFor, k + 2);
    ShownWhileStanding(trace[k + 2..], events[k + 2..], settleFor, id, events[k].body, deadline, i - k - 2);
    assert trace[k + 2..][i - k - 2] == trace[i];
  }

  /** Where nothing is settling, a read that is not held back replaces the value: a window taken
      early is a written value lost. */
  lemma LostWindowLosesValue(s: Desk, href: Href, rep: Rep, source: Source, now: Time, settleFor: Time, f: string)
    requires CanHappen(s, Arrive(href, rep, source, now)) && !IsAlarmsHref(href)
    requires f in rep.Keys && f != OPTIONS_FIELD
    ensures CachedField(WriteStep(s, Arrive(href, rep, source, now), settleFor).gate.cache, href, f) ==
            if Settling(s.gate.settle, href, now) then CachedField(s.gate.cache, href, f) else Some(rep[f])
  {
    StepCachesField(s.gate, Arrives(href, rep, source, now), href, f);
  }

  // ---------------------------------------------------------------------
  // Every refusal of a run
  // ---------------------------------------------------------------------

  predicate Arms(s: Desk, e: WriteEvent, href: Href) {
    e.Arm? && e.id in s.open && s.open[e.id].href == href
  }

  predicate Refuses(s: Desk, e: WriteEvent, href: Href) {
    e.Refuse? && e.id in s.open && s.open[e.id].href == href
  }

  // What the last arming on `href` left, or what there was before the run.
  function LastArmed(trace: seq<Desk>, events: seq<WriteEvent>, settleFor: Time, href: Href, i: nat): Option<Time>
    requires i < |trace| == |events| + 1
  {
    if i == 0 then Window(trace[0], href)
    else if Arms(trace[i - 1], events[i - 1], href) then Some(events[i - 1].now + settleFor)
    else LastArmed(trace, events, settleFor, href, i - 1)
  }

  // The writers refused on `href` since, in order.
  function RefusedSince(trace: seq<Desk>, events: seq<WriteEvent>, href: Href, i: nat): seq<Writer>
    requires i < |trace| == |events| + 1
  {
    if i == 0 || Arms(trace[i - 1], events[i - 1], href) then []
    else if Refuses(trace[i - 1], events[i - 1], href) then
      RefusedSince(trace, events, href, i - 1) + [trace[i - 1].open[events[i - 1].id]]
    else RefusedSince(trace, events, href, i - 1)
  }

  predicate Holds(w: Writer, window: Option<Time>) {
    window.Some? && window == w.armed
  }

  // A stack of windows undone with no clock: a refused writer that armed the top one puts back
  // the one it found, any other does nothing.
  function Undone(window: Option<Time>, refused: seq<Writer>): Option<Time> {
    if refused == [] then window
    else
      var w := refused[|refused| - 1];
      var top := Undone(window, refused[..|refused| - 1]);
      if Holds(w, top) then w.previous else top
  }

  function Ahead(window: Option<Time>, now: Time): Option<Time> {
    if window.Some? && now < window.value then window else None
  }

  // The window is the undone one, or that one has run out and the window is gone.
  predicate Follows(window: Option<Time>, undone: Option<Time>, now: Time) {
    window == undone || (window == None && Ahead(undone, now) == None)
  }

  lemma FollowsStep(s: Desk, e: WriteEvent, settleFor: Time, href: Href, undone: Option<Time>)
    requires CanHappen(s, e) && Sound(s, settleFor) && Follows(Window(s, href), undone, s.clock)
    ensures var s' := WriteStep(s, e, settleFor);
      && (Arms(s, e, href) ==> Window(s', href) == Some(e.now + settleFor))
      && (Refuses(s, e, href) ==>
            var w := s.open[e.id];
            Follows(Window(s', href), if Holds(w, undone) then w.previous else undone, s'.clock))
      && (!Arms(s, e, href) && !Refuses(s, e, href) ==> Follows(Window(s', href), undone, s'.clock))
  {
    if Refuses(s, e, href) { assert WriterSound(s.open[e.id], s.clock + settleFor); }
  }

  lemma {:induction false} WindowFollows(trace: seq<Desk>, events: seq<WriteEvent>, settleFor: Time, href: Href, i: nat)
    requires Run(trace, events, settleFor) && Sound(trace[0], settleFor) && i <= |events|
    ensures Follows(Window(trace[i], href),
                    Undone(LastArmed(trace, events, settleFor, href, i), RefusedSince(trace, events, href, i)),
                    trace[i].clock)
  {
    if i > 0 {
      var s, e := trace[i - 1], events[i - 1];
      WindowFollows(trace, events, settleFor, href, i - 1);
      RunIsSound(trace, events, settleFor, i - 1);
      var before := RefusedSince(trace, events, href, i - 1);
      FollowsStep(s, e, settleFor, href, Undone(LastArmed(trace, events, settleFor, href, i - 1), before));
      if Refuses(s, e, href) {
        assert (before + [s.open[e.id]])[..|before|] == before;
      }
    }
  }

  // The window that stands after the first `j` links of a chain of refusals.
  function Level(chain: seq<nat>, window: Option<Time>, refused: seq<Writer>, j: nat): Option<Time> {
    if 0 < j <= |chain| && chain[j - 1] < |refused| then refused[chain[j - 1]].previous else window
  }

  // Index `i` lies strictly between two links, or after the last one.
  predicate Between(chain: seq<nat>, j: nat, i: nat) {
    j <= |chain| && (j > 0 ==> chain[j - 1] < i) && (j < |chain| ==> i < chain[j])
  }

  predicate Increasing(chain: seq<nat>, below: nat) {
    && (forall j | 0 <= j < |chain| :: chain[j] < below)
    && (forall j, k | 0 <= j < k < |chain| :: chain[j] < chain[k])
  }

  predicate Linked(chain: seq<nat>, window: Option<Time>, refused: seq<Writer>, j: nat) {
    j < |chain| && chain[j] < |refused| && Holds(refused[chain[j]], Level(chain, window, refused, j))
  }

  predicate Quiet(chain: seq<nat>, window: Option<Time>, refused: seq<Writer>, j: nat) {
    forall i: nat | i < |refused| && Between(chain, j, i) :: !Holds(refused[i], Level(chain, window, refused, j))
  }

  // The refusals that put something back, in order: each holds the window the one before it put
  // back, none in between does, and the last puts back `left`.
  ghost predicate Unwinds(chain: seq<nat>, window: Option<Time>, refused: seq<Writer>, left: Option<Time>) {
    && Increasing(chain, |refused|)
    && (forall j: nat | j < |chain| :: Linked(chain, window, refused, j))
    && (forall j: nat | j <= |chain| :: Quiet(chain, window, refused, j))
    && left == Level(chain, window, refused, |chain|)
  }

  lemma QuietShrinks(chain: seq<nat>, shorter: seq<nat>, window: Option<Time>, refused: seq<Writer>, n: nat, j: nat)
    requires n <= |refused| && shorter <= chain && j <= |shorter| && Quiet(chain, window, refused, j)
    requires j > 0 ==> chain[j - 1] < n
    requires |shorter| < |chain| ==> n <= chain[|shorter|]
    ensures Quiet(shorter, window, refused[..n], j)
  {
    forall i: nat | i < n && Between(shorter, j, i)
      ensures !Holds(refused[..n][i], Level(shorter, window, refused[..n], j))
    {
      assert Between(chain, j, i);
    }
  }

  lemma LinkShrinks(chain: seq<nat>, shorter: seq<nat>, window: Option<Time>, refused: seq<Writer>, n: nat, j: nat)
    requires n <= |refused| && shorter <= chain && Increasing(shorter, n)
    requires j < |shorter| && Linked(chain, window, refused, j)
    ensures Linked(shorter, window, refused[..n], j)
  {
  }

  // A chain over all but the last refusal.
  lemma UnwindsShorter(
    chain: seq<nat>, shorter: seq<nat>, window: Option<Time>, refused: seq<Writer>, n: nat, left: Option<Time>)
    requires Unwinds(chain, window, refused, left) && |refused| == n + 1
    requires shorter == if chain != [] && chain[|chain| - 1] == n then chain[..|chain| - 1] else chain
    ensures Unwinds(shorter, window, refused[..n], Level(shorter, window, refused[..n], |shorter|))
    ensures if |shorter| < |chain|
            then Holds(refused[n], Level(shorter, window, refused[..n], |shorter|)) && left == refused[n].previous
            else !Holds(refused[n], left) && left == Level(shorter, window, refused[..n], |shorter|)
  {
    assert forall j | 0 <= j < |shorter| :: shorter[j] == chain[j] && chain[j] < n;
    forall j: nat | j < |shorter| ensures Linked(shorter, window, refused[..n], j) {
      assert Linked(chain, window, refused, j);
      LinkShrinks(chain, shorter, window, refused, n, j);
    }
    forall j: nat | j <= |shorter| ensures Quiet(shorter, window, refused[..n], j) {
      assert Quiet(chain, window, refused, j);
      QuietShrinks(chain, shorter, window, refused, n, j);
    }
    if |shorter| < |chain| {
      assert Linked(chain, window, refused, |shorter|);
    } else {
      assert Quiet(chain, window, refused, |chain|) && Between(chain, |chain|, n);
    }
  }

  // A chain over one more refusal.
  lemma UnwindsLonger(
    chain: seq<nat>, longer: seq<nat>, window: Option<Time>, refused: seq<Writer>, n: nat, left: Option<Time>)
    requires |refused| == n + 1 && Unwinds(chain, window, refused[..n], left)
    requires longer == if Holds(refused[n], left) then chain + [n] else chain
    ensures Unwinds(longer, window, refused, if Holds(refused[n], left) then refused[n].previous else left)
  {
    assert Increasing(longer, n + 1);
    assert forall j: nat | j <= |chain| :: Level(longer, window, refused, j) == Level(chain, window, refused[..n], j);
    forall j: nat | j < |longer| ensures Linked(longer, window, refused, j) {
      if j < |chain| { assert Linked(chain, window, refused[..n], j); }
    }
    forall j: nat | j <= |longer| ensures Quiet(longer, window, refused, j) {
      if j <= |chain| {
        QuietGrows(chain, longer, window, refused, n, left, j);
      }
    }
  }

  lemma QuietGrows(
    chain: seq<nat>, longer: seq<nat>, window: Option<Time>, refused: seq<Writer>, n: nat, left: Option<Time>, j: nat)
    requires |refused| == n + 1 && j <= |chain| && Increasing(chain, n) && chain <= longer
    requires Quiet(chain, window, refused[..n], j) && left == Level(chain, window, refused[..n], |chain|)
    requires longer == if Holds(refused[n], left) then chain + [n] else chain
    ensures Quiet(longer, window, refused, j)
  {
    forall i: nat | i < |refused| && Between(longer, j, i)
      ensures !Holds(refused[i], Level(longer, window, refused, j))
    {
      if i < n {
        assert Between(chain, j, i) && refused[..n][i] == refused[i];
      } else {
        assert j == |chain| == |longer|;
      }
    }
  }

  lemma {:induction false} UnwindsToUndone(
    chain: seq<nat>, window: Option<Time>, refused: seq<Writer>, left: Option<Time>)
    requires Unwinds(chain, window, refused, left)
    ensures left == Undone(window, refused)
    decreases |refused|
  {
    if refused != [] {
      var n := |refused| - 1;
      var shorter := if chain != [] && chain[|chain| - 1] == n then chain[..|chain| - 1] else chain;
      UnwindsShorter(chain, shorter, window, refused, n, left);
      UnwindsToUndone(shorter, window, refused[..n], Level(shorter, window, refused[..n], |shorter|));
    }
  }

  lemma {:induction false} UndoneUnwinds(window: Option<Time>, refused: seq<Writer>) returns (chain: seq<nat>)
    ensures Unwinds(chain, window, refused, Undone(window, refused))
    decreases |refused|
  {
    chain := [];
    if refused != [] {
      var n := |refused| - 1;
      var left := Undone(window, refused[..n]);
      var shorter := UndoneUnwinds(window, refused[..n]);
      chain := if Holds(refused[n], left) then shorter + [n] else shorter;
      UnwindsLonger(shorter, chain, window, refused, n, left);
    }
  }

  // A chain of refusals down to `before`, or to a deadline that has run out as that one has.
  ghost predicate HandsBack(window: Option<Time>, refused: seq<Writer>, before: Option<Time>, now: Time) {
    exists chain, left :: Unwinds(chain, window, refused, left) && Ahead(left, now) == Ahead(before, now)
  }

  lemma HandsBackIff(window: Option<Time>, refused: seq<Writer>, before: Option<Time>, now: Time)
    ensures HandsBack(window, refused, before, now) <==> Ahead(Undone(window, refused), now) == Ahead(before, now)
  {
    if HandsBack(window, refused, before, now) {
      var chain, left :| Unwinds(chain, window, refused, left) && Ahead(left, now) == Ahead(before, now);
      UnwindsToUndone(chain, window, refused, left);
    } else {
      var chain := UndoneUnwinds(window, refused);
    }
  }

  /** What refusals leave behind, over any run of writes that overlap, arm again, are accepted or
      refused at any times: the window is as it was before the run exactly when the refusals
      since the last arming hand down, each holding what the one before it put back, to that
      window, or to one that has run out as that one has. */
  lemma AllRefusedRestoresIff(trace: seq<Desk>, events: seq<WriteEvent>, settleFor: Time, href: Href, i: nat)
    requires Run(trace, events, settleFor) && Sound(trace[0], settleFor) && i <= |events|
    ensures var before, now := Window(trace[0], href), trace[i].clock;
      Ahead(Window(trace[i], href), now) == Ahead(before, now) <==>
      HandsBack(LastArmed(trace, events, settleFor, href, i), RefusedSince(trace, events, href, i), before, now)
  {
    WindowFollows(trace, events, settleFor, href, i);
    HandsBackIff(LastArmed(trace, events, settleFor, href, i), RefusedSince(trace, events, href, i),
                 Window(trace[0], href), trace[i].clock);
  }

  // Writers none of which arms again: each began over what the one before it had armed.
  predicate Ladder(before: Option<Time>, writers: seq<Writer>) {
    && (forall i | 0 <= i < |writers| :: writers[i].armed.Some? && writers[i].previous == Rung(before, writers, i))
    && (forall i, j | 0 <= i < j < |writers| && writers[i].armed.Some? && writers[j].armed.Some? ::
          writers[i].armed.value < writers[j].armed.value)
  }

  function Rung(before: Option<Time>, writers: seq<Writer>, k: nat): Option<Time>
    requires k <= |writers|
  {
    if k == 0 then before else writers[k - 1].armed
  }

  // In the order given, from the front.
  lemma {:induction false} UndoneCons(window: Option<Time>, w: Writer, rest: seq<Writer>)
    ensures Undone(window, [w] + rest) == Undone(if Holds(w, window) then w.previous else window, rest)
    decreases |rest|
  {
    if rest == [] {
      assert [w] + rest == [w] && [w][..0] == [];
    } else {
      UndoneCons(window, w, rest[..|rest| - 1]);
      assert ([w] + rest)[..|rest|] == [w] + rest[..|rest| - 1];
    }
  }

  function InOrder(writers: seq<Writer>, order: seq<nat>): seq<Writer>
    requires forall i | 0 <= i < |order| :: order[i] < |writers|
  {
    seq(|order|, i requires 0 <= i < |order| => writers[order[i]])
  }

  // The window before the run lies below every rung.
  predicate Below(before: Option<Time>, writers: seq<Writer>) {
    before.Some? && writers != [] ==> writers[0].armed.Some? && before.value < writers[0].armed.value
  }

  lemma RungHeldByOne(before: Option<Time>, writers: seq<Writer>, k: nat, i: nat)
    requires Ladder(before, writers) && Below(before, writers) && k <= |writers| && i < |writers|
    ensures Holds(writers[i], Rung(before, writers, k)) <==> i == k - 1
  {
    if k > 0 && i != k - 1 {
      assert writers[i].armed.value != writers[k - 1].armed.value;
    } else if k == 0 && i > 0 {
      assert writers[0].armed.value < writers[i].armed.value;
    }
  }

  predicate CountsDown(order: seq<nat>, k: nat) {
    |order| == k && forall i | 0 <= i < |order| :: order[i] == k - 1 - i
  }

  lemma CountsDownCons(order: seq<nat>, k: nat)
    requires order != []
    ensures CountsDown(order, k) <==> k > 0 && order[0] == k - 1 && CountsDown(order[1..], k - 1)
  {
    var rest := order[1..];
    assert forall j | 0 < j < |order| :: order[j] == rest[j - 1];
    if k > 0 && order[0] == k - 1 && CountsDown(rest, k - 1) {
      assert forall j | 0 < j < |order| :: order[j] == rest[j - 1] == k - 1 - j;
    }
  }

  lemma UndoneInOrder(window: Option<Time>, writers: seq<Writer>, order: seq<nat>)
    requires order != [] && forall i | 0 <= i < |order| :: order[i] < |writers|
    ensures forall i | 0 <= i < |order[1..]| :: order[1..][i] < |writers|
    ensures var w := writers[order[0]];
      Undone(window, InOrder(writers, order)) ==
      Undone(if Holds(w, window) then w.previous else window, InOrder(writers, order[1..]))
  {
    var rest := order[1..];
    assert forall i | 0 <= i < |rest| :: rest[i] == order[i + 1];
    UndoneCons(window, writers[order[0]], InOrder(writers, rest));
    assert InOrder(writers, order) == [writers[order[0]]] + InOrder(writers, rest);
  }

  // The rung the refusals come down to: one lower for each that is the top one's turn.
  function RungsLeft(order: seq<nat>, k: nat): (left: nat)
    ensures k <= left + |order| && left <= k
  {
    if order == [] then k
    else RungsLeft(order[1..], if order[0] + 1 == k then k - 1 else k)
  }

  lemma {:induction false} NoneLeftIff(order: seq<nat>, k: nat)
    requires |order| <= k
    ensures RungsLeft(order, k) == 0 <==> CountsDown(order, k)
    decreases |order|
  {
    if order != [] {
      CountsDownCons(order, k);
      if order[0] + 1 == k { NoneLeftIff(order[1..], k - 1); }
    }
  }

  lemma {:induction false} RefusalsDescend(before: Option<Time>, writers: seq<Writer>, k: nat, order: seq<nat>)
    requires Ladder(before, writers) && Below(before, writers) && k <= |writers|
    requires forall i | 0 <= i < |order| :: order[i] < |writers|
    ensures Undone(Rung(before, writers, k), InOrder(writers, order)) == Rung(before, writers, RungsLeft(order, k))
    decreases |order|
  {
    if order != [] {
      UndoneInOrder(Rung(before, writers, k), writers, order);
      RungHeldByOne(before, writers, k, order[0]);
      RefusalsDescend(before, writers, if order[0] + 1 == k then k - 1 else k, order[1..]);
    }
  }

  /** Writers that armed once each, all refused: the window is as it was before them exactly when
      they are refused newest first, or the deadline of theirs that any other order leaves has run
      out. */
  lemma NewestFirstRestoresIff(
    trace: seq<Desk>, events: seq<WriteEvent>, settleFor: Time, href: Href, i: nat,
    writers: seq<Writer>, order: seq<nat>)
    requires Run(trace, events, settleFor) && Sound(trace[0], settleFor) && i <= |events|
    requires var before := Window(trace[0], href);
      && Ladder(before, writers) && Below(before, writers) && |order| == |writers|
      && (forall k | 0 <= k < |order| :: order[k] < |writers|)
      && LastArmed(trace, events, settleFor, href, i) == Rung(before, writers, |writers|)
      && RefusedSince(trace, events, href, i) == InOrder(writers, order)
    ensures var before, now := Window(trace[0], href), trace[i].clock;
      Ahead(Window(trace[i], href), now) == Ahead(before, now) <==>
      CountsDown(order, |writers|) || Ahead(Rung(before, writers, RungsLeft(order, |writers|)), now) == None
  {
    var before := Window(trace[0], href);
    WindowFollows(trace, events, settleFor, href, i);
    RefusalsDescend(before, writers, |writers|, order);
    NoneLeftIff(order, |writers|);
    var left := RungsLeft(order, |writers|);
    if left > 0 { BelowRungs(before, writers, left); }
  }

  lemma BelowRungs(before: Option<Time>, writers: seq<Writer>, k: nat)
    requires Ladder(before, writers) && Below(before, writers) && 0 < k <= |writers|
    ensures Rung(before, writers, k).Some?
    ensures before.Some? ==> before.value < Rung(before, writers, k).value
  {
    if k > 1 { assert writers[0].armed.value < writers[k - 1].armed.value; }
  }

  // ---------------------------------------------------------------------
  // Runs that lose or leave a window
  // ---------------------------------------------------------------------

  const FreshDesk := Desk(Gate(map[], map[]), map[], 0, 0)

  function Next(trace: seq<Desk>, e: WriteEvent, settleFor: Time): seq<Desk>
    requires trace != [] && CanHappen(trace[|trace| - 1], e)
  {
    trace + [WriteStep(trace[|trace| - 1], e, settleFor)]
  }

  lemma RunSnoc(trace: seq<Desk>, events: seq<WriteEvent>, e: WriteEvent, settleFor: Time)
    requires Run(trace, events, settleFor) && CanHappen(trace[|events|], e)
    ensures Run(Next(trace, e, settleFor), events + [e], settleFor)
  {
    var trace', events' := Next(trace, e, settleFor), events + [e];
    forall i | 0 <= i < |events'|
      ensures CanHappen(trace'[i], events'[i]) && trace'[i + 1] == WriteStep(trace'[i], events'[i], settleFor)
    {
      if i < |events| { assert trace'[i] == trace[i] && trace'[i + 1] == trace[i + 1] && events'[i] == events[i]; }
    }
  }

  // Two writes on one href, ten apart.
  function TwoWrites(href: Href): seq<WriteEvent> {
    [Begin(href, map[], 0), Arm(0, 0), Begin(href, map[], 10), Arm(1, 10)]
  }

  lemma OneWriteRun(href: Href) returns (trace: seq<Desk>)
    ensures Run(trace, TwoWrites(href)[..2], 100) && trace[0] == FreshDesk
    ensures trace[2].clock == 0 && trace[2].next == 1 && Window(trace[2], href) == Some(100)
    ensures trace[2].open == map[0 := Writer(href, None, Some(100))]
  {
    trace := [FreshDesk];
    RunSnoc(trace, [], Begin(href, map[], 0), 100);
    trace := Next(trace, Begin(href, map[], 0), 100);
    RunSnoc(trace, [Begin(href, map[], 0)], Arm(0, 0), 100);
    trace := Next(trace, Arm(0, 0), 100);
    assert [] + [Begin(href, map[], 0)] + [Arm(0, 0)] == TwoWrites(href)[..2];
  }

  lemma TwoWritesRun(href: Href) returns (trace: seq<Desk>)
    ensures Run(trace, TwoWrites(href), 100) && trace[0] == FreshDesk
    ensures trace[4].clock == 10 && Window(trace[4], href) == Some(110)
    ensures trace[4].open == map[0 := Writer(href, None, Some(100)), 1 := Writer(href, Some(100), Some(110))]
  {
    trace := OneWriteRun(href);
    RunSnoc(trace, TwoWrites(href)[..2], Begin(href, map[], 10), 100);
    trace := Next(trace, Begin(href, map[], 10), 100);
    assert TwoWrites(href)[..2] + [Begin(href, map[], 10)] == TwoWrites(href)[..3];
    RunSnoc(trace, TwoWrites(href)[..3], Arm(1, 10), 100);
    trace := Next(trace, Arm(1, 10), 100);
    assert TwoWrites(href)[..3] + [Arm(1, 10)] == TwoWrites(href);
  }

  /** An older write whose retry is answered with a refusal: it arms again over the newer write's
      window and then takes that away, ninety seconds early, with the newer write still open. */
  lemma RearmedRefusalTakesNewer(href: Href)
    ensures exists trace: seq<Desk>, events: seq<WriteEvent> :: Run(trace, events, 100) && trace[0] == FreshDesk
              && events == TwoWrites(href) + [Arm(0, 20), Refuse(0, 20)]
              && trace[|events|].open == map[1 := Writer(href, Some(100), Some(110))]
              && Window(trace[|events|], href) == None
  {
    var trace := TwoWritesRun(href);
    RunSnoc(trace, TwoWrites(href), Arm(0, 20), 100);
    trace := Next(trace, Arm(0, 20), 100);
    RunSnoc(trace, TwoWrites(href) + [Arm(0, 20)], Refuse(0, 20), 100);
    trace := Next(trace, Refuse(0, 20), 100);
    assert TwoWrites(href) + [Arm(0, 20)] + [Refuse(0, 20)] == TwoWrites(href) + [Arm(0, 20), Refuse(0, 20)];
  }

  lemma BothRearmedRun(href: Href) returns (trace: seq<Desk>)
    ensures Run(trace, TwoWrites(href) + [Arm(0, 20), Arm(1, 30)], 100) && trace[0] == FreshDesk
    ensures trace[6].clock == 30 && Window(trace[6], href) == Some(130)
    ensures trace[6].open == map[0 := Writer(href, None, Some(120)), 1 := Writer(href, Some(100), Some(130))]
  {
    trace := TwoWritesRun(href);
    RunSnoc(trace, TwoWrites(href), Arm(0, 20), 100);
    trace := Next(trace, Arm(0, 20), 100);
    RunSnoc(trace, TwoWrites(href) + [Arm(0, 20)], Arm(1, 30), 100);
    trace := Next(trace, Arm(1, 30), 100);
    assert TwoWrites(href) + [Arm(0, 20)] + [Arm(1, 30)] == TwoWrites(href) + [Arm(0, 20), Arm(1, 30)];
  }

  /** Refused newest first, but both after arming again: the older one's first deadline stays. */
  lemma BothRearmedLeavesWindow(href: Href)
    ensures exists trace: seq<Desk>, events: seq<WriteEvent> :: Run(trace, events, 100) && trace[0] == FreshDesk
              && events == TwoWrites(href) + [Arm(0, 20), Arm(1, 30)] + [Refuse(1, 30), Refuse(0, 40)]
              && trace[|events|].open == map[] && Window(trace[|events|], href) == Some(100)
  {
    var armed := TwoWrites(href) + [Arm(0, 20), Arm(1, 30)];
    var trace := BothRearmedRun(href);
    RunSnoc(trace, armed, Refuse(1, 30), 100);
    trace := Next(trace, Refuse(1, 30), 100);
    RunSnoc(trace, armed + [Refuse(1, 30)], Refuse(0, 40), 100);
    trace := Next(trace, Refuse(0, 40), 100);
    assert armed + [Refuse(1, 30)] + [Refuse(0, 40)] == armed + [Refuse(1, 30), Refuse(0, 40)];
  }

  /** Neither armed again, refused oldest first: the older one's window stays. */
  lemma OlderRefusedFirstLeavesWindow(href: Href)
    ensures exists trace: seq<Desk>, events: seq<WriteEvent> :: Run(trace, events, 100) && trace[0] == FreshDesk
              && events == TwoWrites(href) + [Refuse(0, 20), Refuse(1, 30)]
              && trace[|events|].open == map[] && Window(trace[|events|], href) == Some(100)
  {
    var trace := TwoWritesRun(href);
    RunSnoc(trace, TwoWrites(href), Refuse(0, 20), 100);
    trace := Next(trace, Refuse(0, 20), 100);
    RunSnoc(trace, TwoWrites(href) + [Refuse(0, 20)], Refuse(1, 30), 100);
    trace := Next(trace, Refuse(1, 30), 100);
    assert TwoWrites(href) + [Refuse(0, 20)] + [Refuse(1, 30)] == TwoWrites(href) + [Refuse(0, 20), Refuse(1, 30)];
  }

  // ---------------------------------------------------------------------
  // One command over the manager
  // ---------------------------------------------------------------------

  class Command {
    const manager: Manager
    const href: Href
    var previous: Option<Time>
    var armed: Option<Time>

    function AsWriter(): Writer
      reads this
    {
      Writer(href, previous, armed)
    }

    /** Remembers the window it found and merges the value. */
    constructor (manager: Manager, href: Href, body: Rep, now: Time)
      modifies manager`settle, manager`cache
      ensures this.manager == manager
      ensures AsWriter() == Writer(href, WindowOf(old(manager.settle), href), None)
      ensures manager.GateOf() == GateStep(old(manager.GateOf()), Arrives(href, body, Optimistic, now))
    {
      this.manager, this.href, armed := manager, href, None;
      new;
      previous := manager.SettleDeadline(href);
      var _ := manager.ApplyRep(href, body, Optimistic, now);
    }

    /** The first arming, and the one after a retry that got through. */
    method Arm(settleFor: Time, now: Time)
      modifies this`armed, manager`settle
      ensures AsWriter() == old(AsWriter()).(armed := Some(now + settleFor))
      ensures manager.GateOf() == GateStep(old(manager.GateOf()), Armed(href, settleFor, now))
    {
      var deadline := manager.MarkWritePending(href, settleFor, now);
      armed := Some(deadline);
    }

    method Refuse(now: Time)
      requires armed.Some?
      modifies manager`settle
      ensures manager.GateOf() == GateStep(old(manager.GateOf()), Restored(href, previous, armed.value, now))
    {
      manager.RestoreWritePending(href, previous, armed.value, now);
    }
  }
}
