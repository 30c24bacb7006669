/**
 Starts over the 8888 bridge: the two requests of a staged start, the coordinator's reconnect
 and retry around them, and every way the network can answer. A request that got no answer may
 or may not have reached the appliance, so what matters is how often Run is put on the wire.
 */
module OvenStart {
  import opened Dicts
  import opened HeldLedger
  import opened LegacyEnvelope
  import opened Options
  import opened Staging

  // How the network answers one request. `state` is the Operation state a read came back with.
  datatype Outcome = Answered(status: int, state: Option<string>) | Refused | Lost

  // One request's turn: whether the shared budget is spent before it goes out, and its outcome.
  datatype Turn = Turn(spent: bool, outcome: Outcome)

  datatype Request = PutDevice(body: Body) | GetOperation

  type Log = seq<(Request, Outcome)>

  // How one attempt ends: a response code, the refused token, any other exception, or an oven
  // start whose Run got no answer.
  datatype Result = Code(code: int) | TokenRejected | Failed | Unconfirmed

  const RUN: Body := [("Operation", JObj([("state", JStr("Run"))]))]

  const READY: Body := [("Operation", JObj([("state", JStr("Ready"))]))]

  function Accepted(status: int): bool {
    200 <= status < 300
  }

  function Coap(status: int): int {
    if status == 200 then 0x45
    else if status == 201 then 0x41
    else if status == 204 then 0x44
    else if status == 400 then 0x80
    else if status == 401 then 0x81
    else if status == 403 then 0x83
    else if status == 404 then 0x84
    else if status == 405 then 0x85
    else if Accepted(status) then 0x44
    else if status >= 500 then 0xA0
    else 0x80
  }

  predicate IsStart(body: Body) {
    FieldAt(body, "Operation", "state") == Some(JStr("Run"))
  }

  // `d.pop(key, None)`.
  function Popped(d: Body, key: string): Body {
    if d == [] then []
    else Popped(d[..|d| - 1], key) + if d[|d| - 1].0 == key then [] else [d[|d| - 1]]
  }

  // The settings write of an oven start: everything but the Run.
  function SettingsOnly(body: Body): Body {
    var operation := Lookup(body, "Operation");
    if operation.None? || !operation.value.JObj? then body
    else
      var rest := Popped(operation.value.fields, "state");
      if rest == [] then Popped(body, "Operation") else Put(body, "Operation", JObj(rest))
  }

  function TurnAt(turns: seq<Turn>, i: nat): Turn {
    if i < |turns| then turns[i] else Turn(false, Lost)
  }

  // ---------------------------------------------------------------------
  // One attempt
  // ---------------------------------------------------------------------

  // What one attempt did: the requests it made, how it ended, and whether the appliance took
  // the body with the held values.
  datatype Exchange = Exchange(log: Log, result: Result, took: bool)

  function RaisedBy(outcome: Outcome): Result {
    if outcome.Refused? then TokenRejected else Failed
  }

  // Settings first, then Run half a second later, under one budget.
  function OvenExchange(body: Body, turns: seq<Turn>): Exchange {
    var settings := TurnAt(turns, 0);
    var run := TurnAt(turns, 1);
    var sent: Log := [(PutDevice(SettingsOnly(body)), settings.outcome)];
    if settings.spent then Exchange([], Failed, false)
    else if !settings.outcome.Answered? then Exchange(sent, RaisedBy(settings.outcome), false)
    else if !Accepted(settings.outcome.status) then Exchange(sent, Code(Coap(settings.outcome.status)), false)
    else if run.spent then Exchange(sent, Failed, true)
    else
      var both := sent + [(PutDevice(RUN), run.outcome)];
      match run.outcome
      case Answered(status, _) => Exchange(both, Code(Coap(status)), true)
      case Refused => Exchange(both, Code(0x81), true)
      case Lost => Exchange(both, Unconfirmed, true)
  }

  predicate ReadsRunning(outcome: Outcome) {
    outcome.Answered? && outcome.status == 200 && outcome.state == Some("Run")
  }

  // The composed start, Run and all, then Run again only when a fresh read says it is not running.
  function ComposedExchange(body: Body, turns: seq<Turn>): Exchange {
    var first := TurnAt(turns, 0).outcome;
    var read := TurnAt(turns, 1).outcome;
    var run := TurnAt(turns, 2).outcome;
    var again := TurnAt(turns, 3).outcome;
    var one: Log := [(PutDevice(body), first)];
    if !first.Answered? then Exchange(one, RaisedBy(first), false)
    else if !Accepted(first.status) then Exchange(one, Code(Coap(first.status)), false)
    else
      var two := one + [(GetOperation, read)];
      if !read.Answered? then Exchange(two, RaisedBy(read), true)
      else if ReadsRunning(read) then Exchange(two, Code(Coap(first.status)), true)
      else
        var three := two + [(PutDevice(RUN), run)];
        if !run.Answered? then Exchange(three, RaisedBy(run), true)
        else if Accepted(run.status) then Exchange(three, Code(Coap(run.status)), true)
        else
          var four := three + [(GetOperation, again)];
          if !again.Answered? then Exchange(four, RaisedBy(again), true)
          else Exchange(four, Code(if ReadsRunning(again) then Coap(first.status) else Coap(run.status)), true)
  }

  function DirectExchange(body: Body, outcome: Outcome): Exchange {
    Exchange([(PutDevice(body), outcome)],
             if outcome.Answered? then Code(Coap(outcome.status)) else RaisedBy(outcome), false)
  }

  // A stop while the appliance already waits is not sent.
  function StopExchange(turns: seq<Turn>): Exchange {
    var read := TurnAt(turns, 0).outcome;
    var asked: Log := [(GetOperation, read)];
    if !read.Answered? then Exchange(asked, RaisedBy(read), false)
    else if read.status == 200 && read.state == Some("Ready") then Exchange(asked, Code(0x44), false)
    else
      var put := DirectExchange(READY, TurnAt(turns, 1).outcome);
      Exchange(asked + put.log, put.result, false)
  }

  function PlainExchange(sendable: Body, turns: seq<Turn>): Exchange {
    if sendable == [] then Exchange([], Code(0x44), false)
    else if sendable == READY then StopExchange(turns)
    else DirectExchange(sendable, TurnAt(turns, 0).outcome)
  }

  lemma PlainTookNothing(sendable: Body, turns: seq<Turn>)
    ensures !PlainExchange(sendable, turns).took
  {
  }

  predicate SettingsFirst(deviceType: Option<string>, sendable: Body) {
    deviceType == Some("Oven") && Lookup(sendable, "Mode").Some?
  }

  predicate Idle(lastBodies: Body) {
    FieldAt(lastBodies, "Operation", "state") == Some(JStr("Ready"))
  }

  // What goes out for a body whose held part is already in `ledger`.
  function Attempt(
    deviceType: Option<string>, sendable: Body, ledger: Ledger, lastBodies: Body, turns: seq<Turn>): Exchange
  {
    if IsStart(sendable) && (SettingsFirst(deviceType, sendable) || (ledger != [] && Idle(lastBodies))) then
      var body := Added(sendable, ValuesOf(ledger));
      if body.None? then Exchange([], Failed, false)
      else if SettingsFirst(deviceType, sendable) then OvenExchange(body.value, turns)
      else ComposedExchange(body.value, turns)
    else PlainExchange(sendable, turns)
  }

  // Every held key is one the table's split produces.
  ghost predicate FromTable(table: Table, held: Staged) {
    forall k | k in held :: k.0.prefix.None? <==> k.0.name in StartOnlyOf(table, k.0.wrapper)
  }

  ghost predicate AllFromTable(table: Table, history: seq<Event>) {
    forall e | e in history && e.Written? :: FromTable(table, e.held)
  }

  // ---------------------------------------------------------------------
  // The transport
  // ---------------------------------------------------------------------

  /** One appliance's state on the bridge, which outlives the transport objects that use it. */
  class Appliance {
    const table: Table
    const deviceType: Option<string>
    var lastBodies: Body
    var staged: Ledger
    ghost var history: seq<Event>

    ghost predicate Valid()
      reads this
    {
      staged == Run(history) && AllFromTable(table, history)
    }

    constructor (table: Table, deviceType: Option<string>)
      ensures Valid() && staged == [] && this.table == table && this.deviceType == deviceType
    {
      this.table := table;
      this.deviceType := deviceType;
      lastBodies, staged, history := [], [], [];
    }

    /** One translated write: hold what only a start carries, then send the rest or the start. */
    method Write(aggregate: Body, turns: seq<Turn>) returns (log: Log, result: Result)
      requires Valid() && IsBody(aggregate)
      modifies this
      ensures Valid() && lastBodies == old(lastBodies)
      ensures var after := Run(old(history) + [Written(HeldOf(table, aggregate), lastBodies)]);
        var x := Attempt(deviceType, Sent(table, aggregate), after, lastBodies, turns);
        && log == x.log && result == x.result
        && history == old(history) + [Written(HeldOf(table, aggregate), lastBodies)]
          + (if x.took then [Started] else [])
      ensures var after := Run(old(history) + [Written(HeldOf(table, aggregate), lastBodies)]);
        var sendable := Sent(table, aggregate);
        if FieldAt(sendable, "Operation", "state") == Some(JStr("Run")) then
          SendsStart(deviceType, sendable, ValuesOf(after), lastBodies, turns, log)
        else SendsPlain(sendable, turns, log, result)
    {
      var sendable := Stage(aggregate);
      WriteSends(deviceType, sendable, table, history, lastBodies, turns);
      log, result := Dispatch(sendable, turns);
    }

    method Stage(aggregate: Body) returns (sendable: Body)
      requires Valid() && IsBody(aggregate)
      modifies this
      ensures Valid() && lastBodies == old(lastBodies) && sendable == Sent(table, aggregate)
      ensures history == old(history) + [Written(HeldOf(table, aggregate), lastBodies)]
    {
      var held;
      sendable, held := SplitStartOnly(aggregate, table);
      HeldOfKeys(table, aggregate);
      RunSnoc(history, Written(held, lastBodies));
      staged := Hold(staged, held, lastBodies);
      history := history + [Written(held, lastBodies)];
    }

    method Dispatch(sendable: Body, turns: seq<Turn>) returns (log: Log, result: Result)
      requires Valid()
      modifies this
      ensures Valid() && lastBodies == old(lastBodies)
      ensures var x := Attempt(deviceType, sendable, old(staged), lastBodies, turns);
        log == x.log && result == x.result && history == old(history) + if x.took then [Started] else []
    {
      var settingsFirst := deviceType == Some("Oven") && Lookup(sendable, "Mode").Some?;
      if IsStart(sendable) && (settingsFirst || (staged != [] && Idle(lastBodies))) {
        log, result := Start(sendable, turns, settingsFirst);
      } else {
        log, result := Send(sendable, turns);
        PlainTookNothing(sendable, turns);
      }
    }

    method Send(sendable: Body, turns: seq<Turn>) returns (log: Log, result: Result)
      ensures log == PlainExchange(sendable, turns).log && result == PlainExchange(sendable, turns).result
    {
      if sendable == [] {
        return [], Code(0x44);
      }
      var i := 0;
      log := [];
      if sendable == READY {
        var read := TurnAt(turns, 0).outcome;
        log := [(GetOperation, read)];
        if !read.Answered? {
          result := RaisedBy(read);
          return;
        }
        if read.status == 200 && read.state == Some("Ready") {
          result := Code(0x44);
          return;
        }
        i := 1;
      }
      var outcome := TurnAt(turns, i).outcome;
      log := log + [(PutDevice(sendable), outcome)];
      result := if outcome.Answered? then Code(Coap(outcome.status)) else RaisedBy(outcome);
    }

    /** Start with every held value in the same body, then Run if needed. */
    method Start(aggregate: Body, turns: seq<Turn>, settingsFirst: bool) returns (log: Log, result: Result)
      requires Valid()
      modifies this
      ensures Valid() && lastBodies == old(lastBodies)
      ensures var body := Added(aggregate, ValuesOf(old(staged)));
        var x := if body.None? then Exchange([], Failed, false)
                 else if settingsFirst then OvenExchange(body.value, turns)
                 else ComposedExchange(body.value, turns);
        && log == x.log && result == x.result
        && history == old(history) + if x.took then [Started] else []
    {
      log := [];
      var added := AddStaged(aggregate, ValuesOf(staged));
      if added.None? {
        return [], Failed;
      }
      var body := if settingsFirst then SettingsOnly(added.value) else added.value;
      if settingsFirst && TurnAt(turns, 0).spent {
        return [], Failed;
      }
      var first := TurnAt(turns, 0).outcome;
      log := [(PutDevice(body), first)];
      if !first.Answered? {
        result := RaisedBy(first);
        return;
      }
      if !Accepted(first.status) {
        result := Code(Coap(first.status));
        return;
      }
      RunSnoc(history, Started);
      staged := [];
      history := history + [Started];
      if settingsFirst {
        log, result := RunOven(log, turns);
      } else {
        log, result := RunComposed(log, first.status, turns);
      }
    }

    method RunOven(before: Log, turns: seq<Turn>) returns (log: Log, result: Result)
      ensures var run := TurnAt(turns, 1);
        && log == before + (if run.spent then [] else [(PutDevice(RUN), run.outcome)])
        && result == if run.spent then Failed
                     else if run.outcome.Answered? then Code(Coap(run.outcome.status))
                     else if run.outcome.Refused? then Code(0x81)
                     else Unconfirmed
    {
      log := before;
      if TurnAt(turns, 1).spent {
        return before, Failed;
      }
      var run := TurnAt(turns, 1).outcome;
      log := before + [(PutDevice(RUN), run)];
      match run {
        case Answered(status, _) => result := Code(Coap(status));
        case Refused => result := Code(0x81);
        case Lost => result := Unconfirmed;  // only this request can have started the oven
      }
    }

    method RunComposed(before: Log, status: int, turns: seq<Turn>) returns (log: Log, result: Result)
      ensures forall body, outcome | before == [(PutDevice(body), outcome)] && outcome == TurnAt(turns, 0).outcome
                                     && outcome.Answered? && outcome.status == status && Accepted(status) ::
                log == ComposedExchange(body, turns).log && result == ComposedExchange(body, turns).result
    {
      var read := TurnAt(turns, 1).outcome;
      log := before + [(GetOperation, read)];
      if !read.Answered? {
        result := RaisedBy(read);
        return;
      }
      if ReadsRunning(read) {
        result := Code(Coap(status));
        return;
      }
      var run := TurnAt(turns, 2).outcome;
      log := log + [(PutDevice(RUN), run)];
      if !run.Answered? {
        result := RaisedBy(run);
        return;
      }
      if !Accepted(run.status) {
        var again := TurnAt(turns, 3).outcome;
        log := log + [(GetOperation, again)];
        if !again.Answered? {
          result := RaisedBy(again);
          return;
        }
        if ReadsRunning(again) {
          // It got there by itself between the read and the Run.
          result := Code(Coap(status));
          return;
        }
      }
      result := Code(Coap(run.status));
    }

    /** A read of the appliance with what is held laid over it. */
    method Read(bodies: Body) returns (shown: Body)
      requires Valid()
      modifies this
      ensures Valid() && lastBodies == old(lastBodies)
      ensures history == old(history) + [Reported(bodies)]
      ensures shown == Overlaid(bodies, ValuesOf(staged))
    {
      RunSnoc(history, Reported(bodies));
      staged := Compare(staged, bodies);
      history := history + [Reported(bodies)];
      shown := WithStaged(bodies, ValuesOf(staged));
    }

    /** A whole-device sweep, kept as the appliance sent it. */
    method Sweep(bodies: Body, typed: Body) returns (shown: Body)
      requires Valid()
      modifies this
      ensures Valid() && lastBodies == bodies
      ensures history == old(history) + [Reported(typed)]
      ensures shown == Overlaid(typed, ValuesOf(staged))
    {
      lastBodies := bodies;
      shown := Read(typed);
    }
  }

  lemma RunSnoc(history: seq<Event>, e: Event)
    ensures Run(history + [e]) == Apply(Run(history), e)
  {
    assert (history + [e])[..|history|] == history;
  }

  // ---------------------------------------------------------------------
  // The coordinator's retry
  // ---------------------------------------------------------------------

  // One attempt's surroundings: how it ended before any body was due (no session, an unlisted
  // sibling, an unread type), if it did, and the turns of its requests.
  datatype Surroundings = Surroundings(early: Option<Result>, turns: seq<Turn>)

  // An exception other than the unconfirmed oven start.
  predicate Retries(result: Result) {
    result.TokenRejected? || result.Failed?
  }

  // The appliance a command finds: what it holds and what its last sweep read.
  datatype Found = Found(table: Table, deviceType: Option<string>, lastBodies: Body, staged: Ledger)

  function HeldAfter(f: Found, aggregate: Body, staged: Ledger): Ledger {
    Chosen(staged, HeldOf(f.table, aggregate), f.lastBodies)
  }

  function AttemptIn(f: Found, aggregate: Body, staged: Ledger, e: Surroundings): (Exchange, Ledger) {
    if e.early.Some? then (Exchange([], e.early.value, false), staged)
    else
      var held := HeldAfter(f, aggregate, staged);
      var x := Attempt(f.deviceType, Sent(f.table, aggregate), held, f.lastBodies, e.turns);
      (x, if x.took then [] else held)
  }

  // The logs of a command's attempts.
  function Command(f: Found, aggregate: Body, e1: Surroundings, e2: Surroundings): (Log, Log, Result) {
    var (x1, staged) := AttemptIn(f, aggregate, f.staged, e1);
    if Retries(x1.result) then
      var (x2, _) := AttemptIn(f, aggregate, staged, e2);
      (x1.log, x2.log, x2.result)
    else (x1.log, [], x1.result)
  }

  ghost function FoundIn(a: Appliance): Found
    reads a
  {
    Found(a.table, a.deviceType, a.lastBodies, a.staged)
  }

  method TryPut(a: Appliance, aggregate: Body, e: Surroundings) returns (log: Log, result: Result)
    requires a.Valid() && IsBody(aggregate)
    modifies a
    ensures a.Valid() && a.lastBodies == old(a.lastBodies)
    ensures var (x, staged) := AttemptIn(old(FoundIn(a)), aggregate, old(a.staged), e);
      log == x.log && result == x.result && a.staged == staged
  {
    if e.early.Some? {
      return [], e.early.value;
    }
    ghost var history := a.history;
    ghost var w := Written(HeldOf(a.table, aggregate), a.lastBodies);
    RunSnoc(history, w);
    RunSnoc(history + [w], Started);
    log, result := a.Write(aggregate, e.turns);
    assert history + [w] + [] == history + [w];
  }

  /** PUT, reconnecting and retrying once unless the appliance may already be starting. */
  method AsyncPut(a: Appliance, aggregate: Body, e1: Surroundings, e2: Surroundings)
    returns (log1: Log, log2: Log, result: Result)
    requires a.Valid() && IsBody(aggregate)
    modifies a
    ensures a.Valid()
    ensures (log1, log2, result) == Command(old(FoundIn(a)), aggregate, e1, e2)
  {
    log2 := [];
    log1, result := TryPut(a, aggregate, e1);
    if result.TokenRejected? || result.Failed? {
      log2, result := TryPut(a, aggregate, e2);
    }
  }

  // ---------------------------------------------------------------------
  // Starting once
  // ---------------------------------------------------------------------

  predicate IsRun(r: (Request, Outcome)) {
    r.0.PutDevice? && IsStart(r.0.body)
  }

  function Runs(log: Log): nat {
    if log == [] then 0 else Runs(log[..|log| - 1]) + if IsRun(log[|log| - 1]) then 1 else 0
  }

  function RunsOf(f: Found, aggregate: Body, e1: Surroundings, e2: Surroundings): nat {
    var (log1, log2, _) := Command(f, aggregate, e1, e2);
    Runs(log1) + Runs(log2)
  }

  lemma {:induction false} PoppedReads(d: Body, key: string, k: string)
    ensures Lookup(Popped(d, key), k) == if k == key then None else Lookup(d, k)
  {
    if d != [] {
      var before := d[..|d| - 1];
      PoppedReads(before, key, k);
      if d[|d| - 1].0 == key {
        assert Popped(d, key) == Popped(before, key);
      } else {
        LookupAfter(Popped(before, key), [d[|d| - 1]], k);
      }
    }
  }

  // Only the Operation state leaves the body.
  lemma SettingsOnlyReads(body: Body, w: string, name: string)
    ensures FieldAt(SettingsOnly(body), w, name) ==
            if w == "Operation" && name == "state" then None else FieldAt(body, w, name)
  {
    var operation := Lookup(body, "Operation");
    if operation.Some? && operation.value.JObj? {
      var rest := Popped(operation.value.fields, "state");
      PoppedReads(operation.value.fields, "state", name);
      if rest == [] {
        PoppedReads(body, "Operation", w);
      } else {
        PutFieldReads(body, "Operation", rest, w, name);
      }
    }
  }

  lemma RunIsStart()
    ensures IsStart(RUN)
  {
    assert Lookup(RUN, "Operation") == Some(JObj([("state", JStr("Run"))]));
  }

  // A Run on the wire right after settings, without a Run, that were taken.
  predicate SettingsThenRun(log: Log) {
    && |log| == 2 && log[0].0.PutDevice? && !IsRun(log[0]) && IsRun(log[1])
    && log[0].1.Answered? && Accepted(log[0].1.status)
  }

  lemma RunsSnoc(log: Log, r: (Request, Outcome))
    ensures Runs(log + [r]) == Runs(log) + if IsRun(r) then 1 else 0
    ensures [] + [r] == [r]
  {
    assert (log + [r])[..|log|] == log;
  }

  // The three shapes an oven attempt's log takes.
  lemma OvenExchangeShape(body: Body, turns: seq<Turn>)
    ensures var x := OvenExchange(body, turns);
      var settings := (PutDevice(SettingsOnly(body)), TurnAt(turns, 0).outcome);
      || x.log == [] || x.log == [settings]
      || (&& x.log == [settings] + [(PutDevice(RUN), TurnAt(turns, 1).outcome)]
          && settings.1.Answered? && Accepted(settings.1.status) && !Retries(x.result))
  {
  }

  lemma OvenExchangeRuns(body: Body, turns: seq<Turn>)
    ensures var x := OvenExchange(body, turns);
      Runs(x.log) == 0 || (Runs(x.log) == 1 && SettingsThenRun(x.log) && !Retries(x.result))
  {
    SettingsOnlyReads(body, "Operation", "state");
    RunIsStart();
    OvenExchangeShape(body, turns);
    var settings := (PutDevice(SettingsOnly(body)), TurnAt(turns, 0).outcome);
    RunsSnoc([], settings);
    RunsSnoc([settings], (PutDevice(RUN), TurnAt(turns, 1).outcome));
  }

  lemma OvenAttemptRuns(f: Found, aggregate: Body, staged: Ledger, e: Surroundings)
    requires IsStart(Sent(f.table, aggregate)) && SettingsFirst(f.deviceType, Sent(f.table, aggregate))
    ensures var (x, _) := AttemptIn(f, aggregate, staged, e);
      Runs(x.log) == 0 || (Runs(x.log) == 1 && SettingsThenRun(x.log) && !Retries(x.result))
  {
    if e.early.None? {
      var body := Added(Sent(f.table, aggregate), ValuesOf(HeldAfter(f, aggregate, staged)));
      if body.Some? { OvenExchangeRuns(body.value, e.turns); }
    }
  }

  /** A settings-first oven start puts Run on the wire at most once, whatever is lost or refused
      across both attempts, and only after the settings of the same attempt were taken. */
  lemma OvenStartsAtMostOnce(f: Found, aggregate: Body, e1: Surroundings, e2: Surroundings)
    requires FieldAt(Sent(f.table, aggregate), "Operation", "state") == Some(JStr("Run"))
    requires f.deviceType == Some("Oven") && Lookup(Sent(f.table, aggregate), "Mode").Some?
    ensures RunsOf(f, aggregate, e1, e2) <= 1
    ensures var (log1, log2, _) := Command(f, aggregate, e1, e2);
      (Runs(log1) > 0 ==> SettingsThenRun(log1)) && (Runs(log2) > 0 ==> SettingsThenRun(log2))
  {
    var (x1, staged) := AttemptIn(f, aggregate, f.staged, e1);
    OvenAttemptRuns(f, aggregate, f.staged, e1);
    if Retries(x1.result) { OvenAttemptRuns(f, aggregate, staged, e2); }
  }

  // Some request of the log carries Run.
  lemma {:induction false} RunsCount(log: Log, i: nat)
    requires i < |log| && IsRun(log[i])
    ensures Runs(log) >= 1
  {
    if i < |log| - 1 { RunsCount(log[..|log| - 1], i); }
  }

  lemma PutSame<K, V>(d: seq<(K, V)>, key: K, value: V)
    requires Distinct(d) && Lookup(d, key) == Some(value)
    ensures Put(d, key, value) == d
  {
    var i :| 0 <= i < |d| && d[i] == (key, value);
  }

  lemma {:induction false} StageAllSame(staged: Ledger, held: Staged, lastBodies: Body)
    requires Distinct(staged)
    requires forall k | k in held :: Lookup(staged, k.0) == Some(Entry(k.1, StagedCurrent(lastBodies, k.0)))
    ensures StageAll(staged, held, lastBodies) == staged
  {
    if held != [] {
      StageAllSame(staged, held[..|held| - 1], lastBodies);
      var (key, value) := held[|held| - 1];
      assert held[|held| - 1] in held;
      PutSame(staged, key, Entry(value, StagedCurrent(lastBodies, key)));
    }
  }

  lemma {:induction false} ForNewCourseSame(staged: Ledger, held: Staged)
    requires forall k | k in staged :: k.0.prefix.Some? || Lookup(held, k.0).Some?
    ensures ForNewCourse(staged, held) == staged
  {
    if staged != [] {
      assert staged[|staged| - 1] in staged;
      ForNewCourseSame(staged[..|staged| - 1], held);
    }
  }

  // Holding the same values again changes nothing.
  lemma ChosenTwice(staged: Ledger, held: Staged, lastBodies: Body)
    requires Distinct(staged) && Distinct(held)
    ensures Distinct(Chosen(staged, held, lastBodies))
    ensures Chosen(Chosen(staged, held, lastBodies), held, lastBodies) == Chosen(staged, held, lastBodies)
  {
    var once := Chosen(staged, held, lastBodies);
    ApplyDistinct(staged, Written(held, lastBodies));
    forall k | k in held ensures Lookup(once, k.0) == Some(Entry(k.1, StagedCurrent(lastBodies, k.0))) {
      LookupDistinct(held, k.0, k.1);
      ApplyReads(staged, Written(held, lastBodies), k.0);
    }
    StageAllSame(once, held, lastBodies);
    if StartsCourse(held) {
      forall k | k in once ensures k.0.prefix.Some? || Lookup(held, k.0).Some? {
        LookupDistinct(once, k.0, k.1);
        ApplyReads(staged, Written(held, lastBodies), k.0);
      }
      ForNewCourseSame(once, held);
    }
  }

  lemma {:induction false} StageAllFresh(held: Staged, lastBodies: Body)
    requires Distinct(held)
    ensures ValuesOf(StageAll([], held, lastBodies)) == held
  {
    if held != [] {
      var before := held[..|held| - 1];
      var (key, value) := held[|held| - 1];
      DistinctPrefix(held);
      StageAllFresh(before, lastBodies);
      StageAllReads([], before, lastBodies, key);
      assert held == before + [(key, value)];
    }
  }

  // What this command held can always be put in its own body.
  lemma FreshFits(f: Found, aggregate: Body)
    requires IsBody(aggregate)
    ensures Added(Sent(f.table, aggregate), ValuesOf(HeldAfter(f, aggregate, []))).Some?
  {
    var held := HeldOf(f.table, aggregate);
    HeldOfDistinct(f.table, aggregate);
    StageAllFresh(held, f.lastBodies);
    HeldIsAddable(f.table, aggregate);
    AddedReads(Sent(f.table, aggregate), held, "", "");
  }

  // Nothing ever goes out: the values held beside this start cannot be put in its body.
  predicate CannotCarry(f: Found, aggregate: Body) {
    var held := HeldAfter(f, aggregate, f.staged);
    && held != [] && FieldAt(f.lastBodies, "Operation", "state") == Some(JStr("Ready"))
    && Added(Sent(f.table, aggregate), ValuesOf(held)).None?
  }

  const ACCEPTED_THEN_LOST :=
      Surroundings(None, [Turn(false, Answered(204, None)), Turn(false, Answered(200, None)), Turn(false, Lost)])

  const LOST := Surroundings(None, [Turn(false, Lost)])

  /** Run goes out at most once under every pattern of lost and refused requests exactly when the
      start is settings-first (or can never go out at all): any other start is composed or plain,
      and a lost answer makes the retry send Run again. */
  lemma StartedAtMostOnceIff(f: Found, aggregate: Body)
    requires IsBody(aggregate) && Distinct(f.staged)
    requires FieldAt(Sent(f.table, aggregate), "Operation", "state") == Some(JStr("Run"))
    ensures (forall e1, e2 :: RunsOf(f, aggregate, e1, e2) <= 1) <==>
            || (f.deviceType == Some("Oven") && Lookup(Sent(f.table, aggregate), "Mode").Some?)
            || CannotCarry(f, aggregate)
  {
    var sendable := Sent(f.table, aggregate);
    HeldOfDistinct(f.table, aggregate);
    ChosenTwice(f.staged, HeldOf(f.table, aggregate), f.lastBodies);
    if SettingsFirst(f.deviceType, sendable) {
      forall e1, e2 ensures RunsOf(f, aggregate, e1, e2) <= 1 { OvenStartsAtMostOnce(f, aggregate, e1, e2); }
    } else if CannotCarry(f, aggregate) {
      forall e1, e2 ensures RunsOf(f, aggregate, e1, e2) <= 1 { NothingGoesOut(f, aggregate, e1, e2); }
    } else if HeldAfter(f, aggregate, f.staged) != [] && Idle(f.lastBodies) {
      ComposedRunsTwice(f, aggregate);
    } else {
      PlainRunsTwice(f, aggregate);
    }
  }

  lemma NothingGoesOut(f: Found, aggregate: Body, e1: Surroundings, e2: Surroundings)
    requires IsBody(aggregate) && Distinct(f.staged) && IsStart(Sent(f.table, aggregate))
    requires CannotCarry(f, aggregate)
    ensures RunsOf(f, aggregate, e1, e2) == 0
  {
    HeldOfDistinct(f.table, aggregate);
    ChosenTwice(f.staged, HeldOf(f.table, aggregate), f.lastBodies);
  }

  lemma PlainRunsTwice(f: Found, aggregate: Body)
    requires IsBody(aggregate) && Distinct(f.staged) && IsStart(Sent(f.table, aggregate))
    requires !SettingsFirst(f.deviceType, Sent(f.table, aggregate))
    requires HeldAfter(f, aggregate, f.staged) == [] || !Idle(f.lastBodies)
    ensures RunsOf(f, aggregate, LOST, LOST) == 2
  {
    HeldOfDistinct(f.table, aggregate);
    ChosenTwice(f.staged, HeldOf(f.table, aggregate), f.lastBodies);
    var sendable := Sent(f.table, aggregate);
    StartIsNoStop(sendable);
    RunsSnoc([], (PutDevice(sendable), Lost));
  }

  lemma StartIsNoStop(body: Body)
    requires IsStart(body)
    ensures body != [] && body != READY
  {
    assert Lookup(READY, "Operation") == Some(JObj([("state", JStr("Ready"))]));
  }

  lemma ComposedRunsTwice(f: Found, aggregate: Body)
    requires IsBody(aggregate) && IsStart(Sent(f.table, aggregate))
    requires !SettingsFirst(f.deviceType, Sent(f.table, aggregate)) && !CannotCarry(f, aggregate)
    requires HeldAfter(f, aggregate, f.staged) != [] && Idle(f.lastBodies)
    ensures RunsOf(f, aggregate, ACCEPTED_THEN_LOST, ACCEPTED_THEN_LOST) >= 2
  {
    var sendable := Sent(f.table, aggregate);
    RunIsStart();
    var (x1, staged) := AttemptIn(f, aggregate, f.staged, ACCEPTED_THEN_LOST);
    RunsCount(x1.log, 2);
    FreshFits(f, aggregate);
    StartIsNoStop(sendable);
    var (x2, _) := AttemptIn(f, aggregate, [], ACCEPTED_THEN_LOST);
    RunsCount(x2.log, if HeldAfter(f, aggregate, []) != [] then 2 else 0);
  }

  // ---------------------------------------------------------------------
  // What an accepted start carried
  // ---------------------------------------------------------------------

  lemma {:induction false} LedgerFromTable(table: Table, history: seq<Event>)
    requires AllFromTable(table, history)
    ensures Distinct(Run(history)) && FromTable(table, ValuesOf(Run(history)))
    ensures Distinct(ValuesOf(Run(history))) && Coherent(ValuesOf(Run(history)))
  {
    RunDistinct(history);
    var staged := Run(history);
    forall k | k in ValuesOf(staged) ensures k.0.prefix.None? <==> k.0.name in StartOnlyOf(table, k.0.wrapper) {
      var i :| 0 <= i < |staged| && k == (staged[i].0, staged[i].1.value);
      LookupDistinct(staged, staged[i].0, staged[i].1);
      HeldWasWritten(history, k.0);
      var w := history[LastWritten(history, k.0)];
      assert w in history;
      var j :| 0 <= j < |w.held| && w.held[j] == (k.0, Lookup(w.held, k.0).value);
      assert w.held[j] in w.held;
    }
  }

  ghost predicate TookAs(x: Exchange, body: Body) {
    && |x.log| > 0 && x.log[0].0 == PutDevice(body)
    && x.log[0].1.Answered? && Accepted(x.log[0].1.status)
  }

  lemma OvenTook(body: Body, turns: seq<Turn>)
    requires OvenExchange(body, turns).took
    ensures TookAs(OvenExchange(body, turns), SettingsOnly(body))
  {
    var turn := TurnAt(turns, 0);
    assert !turn.spent && turn.outcome.Answered?;
  }

  lemma ComposedTook(body: Body, turns: seq<Turn>)
    requires ComposedExchange(body, turns).took
    ensures TookAs(ComposedExchange(body, turns), body)
  {
    assert TurnAt(turns, 0).outcome.Answered?;
  }

  lemma TookFirst(deviceType: Option<string>, sendable: Body, staged: Ledger, lastBodies: Body, turns: seq<Turn>)
    requires Attempt(deviceType, sendable, staged, lastBodies, turns).took
    ensures Added(sendable, ValuesOf(staged)).Some?
    ensures var body := Added(sendable, ValuesOf(staged)).value;
      TookAs(Attempt(deviceType, sendable, staged, lastBodies, turns),
             if SettingsFirst(deviceType, sendable) then SettingsOnly(body) else body)
  {
    PlainTookNothing(sendable, turns);
    var body := Added(sendable, ValuesOf(staged)).value;
    if SettingsFirst(deviceType, sendable) { OvenTook(body, turns); } else { ComposedTook(body, turns); }
  }

  /** Whatever a start clears, its accepted body carried: every held value is in the request the
      appliance took, an Operation state in a settings-first start excepted, which the settings
      write leaves out. */
  lemma AcceptedStartCarriesHeldIff(table: Table, history: seq<Event>, deviceType: Option<string>,
                                    sendable: Body, lastBodies: Body, turns: seq<Turn>, k: (Key, Json))
    requires AllFromTable(table, history) && k in ValuesOf(Run(history))
    requires Attempt(deviceType, sendable, Run(history), lastBodies, turns).took
    ensures var log := Attempt(deviceType, sendable, Run(history), lastBodies, turns).log;
      && |log| > 0 && log[0].0.PutDevice? && log[0].1.Answered? && Accepted(log[0].1.status)
      && (Carries(log[0].0.body, k.0, k.1) <==>
          !(deviceType == Some("Oven") && Lookup(sendable, "Mode").Some?
            && k.0.wrapper == "Operation" && k.0.name == "state"))
  {
    var staged := Run(history);
    LedgerFromTable(table, history);
    TookFirst(deviceType, sendable, staged, lastBodies, turns);
    AddedCarriesAll(sendable, ValuesOf(staged), k);
    SettingsOnlyReads(Added(sendable, ValuesOf(staged)).value, k.0.wrapper, k.0.name);
  }

  // ---------------------------------------------------------------------
  // What goes on the wire
  // ---------------------------------------------------------------------

  // The body of a start reads, field by field, as the sendable one with the held values put in.
  ghost predicate CarriesAll(body: Body, sendable: Body, held: Staged, stateLeftOut: bool) {
    && (forall k | k in held && !(stateLeftOut && k.0.wrapper == "Operation" && k.0.name == "state") ::
          Carries(body, k.0, k.1))
    && (Addable(sendable, held) ==> forall w, name | !(stateLeftOut && w == "Operation" && name == "state") ::
          FieldAt(body, w, name) == Folded(FieldAt(sendable, w, name), held, w, name))
    && (stateLeftOut ==> FieldAt(body, "Operation", "state") == None)
  }

  // A start that puts held values in its body.
  predicate Folds(deviceType: Option<string>, sendable: Body, held: Staged, lastBodies: Body) {
    || (deviceType == Some("Oven") && Lookup(sendable, "Mode").Some?)
    || (held != [] && FieldAt(lastBodies, "Operation", "state") == Some(JStr("Ready")))
  }

  // The first request of a start, by the appliance's type and the state its last sweep read.
  ghost predicate SendsStart(
    deviceType: Option<string>, sendable: Body, held: Staged, lastBodies: Body, turns: seq<Turn>, log: Log)
  {
    var settingsFirst := deviceType == Some("Oven") && Lookup(sendable, "Mode").Some?;
    if !Folds(deviceType, sendable, held, lastBodies) then log == [(PutDevice(sendable), TurnAt(turns, 0).outcome)]
    else if Added(sendable, held).None? || (settingsFirst && TurnAt(turns, 0).spent) then log == []
    else
      && |log| > 0 && log[0].0.PutDevice? && log[0].1 == TurnAt(turns, 0).outcome
      && CarriesAll(log[0].0.body, sendable, held, settingsFirst)
  }

  lemma AddedCarries(sendable: Body, held: Staged, body: Body, stateLeftOut: bool)
    requires Distinct(held) && Coherent(held) && Added(sendable, held).Some?
    requires body == if stateLeftOut then SettingsOnly(Added(sendable, held).value) else Added(sendable, held).value
    ensures CarriesAll(body, sendable, held, stateLeftOut)
  {
    var added := Added(sendable, held).value;
    if stateLeftOut { SettingsOnlyReads(added, "Operation", "state"); }
    forall k | k in held && !(stateLeftOut && k.0.wrapper == "Operation" && k.0.name == "state")
      ensures Carries(body, k.0, k.1)
    {
      AddedCarriesAll(sendable, held, k);
      if stateLeftOut { SettingsOnlyReads(added, k.0.wrapper, k.0.name); }
    }
    if Addable(sendable, held) {
      forall w, name | !(stateLeftOut && w == "Operation" && name == "state")
        ensures FieldAt(body, w, name) == Folded(FieldAt(sendable, w, name), held, w, name)
      {
        AddedReads(sendable, held, w, name);
        if stateLeftOut { SettingsOnlyReads(added, w, name); }
      }
    }
  }

  predicate FirstIs(log: Log, body: Body, turns: seq<Turn>) {
    |log| > 0 && log[0] == (PutDevice(body), TurnAt(turns, 0).outcome)
  }

  predicate SendsAdded(
    deviceType: Option<string>, sendable: Body, held: Staged, lastBodies: Body, turns: seq<Turn>, log: Log)
  {
    var settingsFirst := deviceType == Some("Oven") && Lookup(sendable, "Mode").Some?;
    var added := Added(sendable, held);
    if !Folds(deviceType, sendable, held, lastBodies) then log == [(PutDevice(sendable), TurnAt(turns, 0).outcome)]
    else if added.None? || (settingsFirst && TurnAt(turns, 0).spent) then log == []
    else FirstIs(log, if settingsFirst then SettingsOnly(added.value) else added.value, turns)
  }

  lemma OvenFirst(body: Body, turns: seq<Turn>)
    ensures if TurnAt(turns, 0).spent then OvenExchange(body, turns).log == []
            else FirstIs(OvenExchange(body, turns).log, SettingsOnly(body), turns)
  {
  }

  lemma ComposedFirst(body: Body, turns: seq<Turn>)
    ensures FirstIs(ComposedExchange(body, turns).log, body, turns)
  {
  }

  lemma PlainFirst(sendable: Body, turns: seq<Turn>)
    requires FieldAt(sendable, "Operation", "state") == Some(JStr("Run"))
    ensures PlainExchange(sendable, turns).log == [(PutDevice(sendable), TurnAt(turns, 0).outcome)]
  {
    StartIsNoStop(sendable);
  }

  lemma AttemptSends(deviceType: Option<string>, sendable: Body, ledger: Ledger, lastBodies: Body, turns: seq<Turn>)
    requires FieldAt(sendable, "Operation", "state") == Some(JStr("Run"))
    ensures SendsAdded(deviceType, sendable, ValuesOf(ledger), lastBodies, turns,
                       Attempt(deviceType, sendable, ledger, lastBodies, turns).log)
  {
    var added := Added(sendable, ValuesOf(ledger));
    PlainFirst(sendable, turns);
    if added.Some? {
      OvenFirst(added.value, turns);
      ComposedFirst(added.value, turns);
    }
  }

  lemma StartCarries(
    deviceType: Option<string>, sendable: Body, held: Staged, lastBodies: Body, turns: seq<Turn>, log: Log)
    requires Distinct(held) && Coherent(held) && SendsAdded(deviceType, sendable, held, lastBodies, turns, log)
    ensures SendsStart(deviceType, sendable, held, lastBodies, turns, log)
  {
    if Folds(deviceType, sendable, held, lastBodies) && Added(sendable, held).Some? && log != [] {
      var settingsFirst := deviceType == Some("Oven") && Lookup(sendable, "Mode").Some?;
      AddedCarries(sendable, held, log[0].0.body, settingsFirst);
    }
  }

  /** A start carries every held value when the appliance is an oven given a mode, or waits with
      something held; otherwise the sendable body goes out alone. A body that cannot take the held
      values is not sent. */
  lemma StartSends(
    deviceType: Option<string>, sendable: Body, ledger: Ledger, lastBodies: Body, turns: seq<Turn>)
    requires FieldAt(sendable, "Operation", "state") == Some(JStr("Run"))
    requires Distinct(ValuesOf(ledger)) && Coherent(ValuesOf(ledger))
    ensures SendsStart(deviceType, sendable, ValuesOf(ledger), lastBodies, turns,
                       Attempt(deviceType, sendable, ledger, lastBodies, turns).log)
  {
    AttemptSends(deviceType, sendable, ledger, lastBodies, turns);
    StartCarries(deviceType, sendable, ValuesOf(ledger), lastBodies, turns,
                 Attempt(deviceType, sendable, ledger, lastBodies, turns).log);
  }

  // Any other write: nothing at all, a stop, or the body as it is.
  predicate SendsPlain(sendable: Body, turns: seq<Turn>, log: Log, result: Result) {
    var stop := sendable == [("Operation", JObj([("state", JStr("Ready"))]))];
    var read := TurnAt(turns, 0).outcome;
    var asked := [(GetOperation, read)];
    if sendable == [] then log == [] && result == Code(0x44)
    else if !stop then log == [(PutDevice(sendable), TurnAt(turns, 0).outcome)]
    else if read.Answered? && !(read.status == 200 && read.state == Some("Ready")) then
      log == asked + [(PutDevice(sendable), TurnAt(turns, 1).outcome)]
    else log == asked && (read.Answered? ==> result == Code(0x44))
  }

  /** A write that is no start goes out as it is, once; a stop only after a fresh read says the
      appliance does not wait already, and a write with nothing left to send not at all. */
  lemma PlainSends(
    deviceType: Option<string>, sendable: Body, ledger: Ledger, lastBodies: Body, turns: seq<Turn>)
    requires FieldAt(sendable, "Operation", "state") != Some(JStr("Run"))
    ensures var x := Attempt(deviceType, sendable, ledger, lastBodies, turns);
      !x.took && SendsPlain(sendable, turns, x.log, x.result)
  {
  }

  // The appliance was read and runs.
  predicate SaysRun(outcome: Outcome) {
    outcome.Answered? && outcome.status == 200 && outcome.state == Some("Run")
  }

  predicate Took(outcome: Outcome) {
    outcome.Answered? && outcome.status >= 200 && outcome.status < 300
  }

  /** After the settings of an oven were taken, Run is put exactly when time is left, and its answer
      is the result: lost, it is unconfirmed; refused for the token, it is 4.01. */
  lemma OvenRunGoesOut(body: Body, turns: seq<Turn>)
    requires !TurnAt(turns, 0).spent
    ensures var x, settings, run := OvenExchange(body, turns), TurnAt(turns, 0).outcome, TurnAt(turns, 1);
      && (x.took <==> Took(settings))
      && (|x.log| == 2 <==> Took(settings) && !run.spent)
      && (|x.log| == 2 ==> x.log[1] == (PutDevice([("Operation", JObj([("state", JStr("Run"))]))]), run.outcome))
      && (Took(settings) && run.spent ==> x.result == Failed)
      && (Took(settings) && !run.spent ==>
            && (run.outcome.Lost? <==> x.result == Unconfirmed)
            && (run.outcome.Refused? ==> x.result == Code(0x81))
            && (run.outcome.Answered? ==> x.result == Code(Coap(run.outcome.status))))
  {
  }

  /** After a composed start was taken, Run goes out again exactly when a fresh read came back and
      does not say it runs; it is read once more exactly when that Run was turned down. */
  lemma ComposedRunGoesOut(body: Body, turns: seq<Turn>)
    ensures var x := ComposedExchange(body, turns);
      var first, read, run, again :=
        TurnAt(turns, 0).outcome, TurnAt(turns, 1).outcome, TurnAt(turns, 2).outcome, TurnAt(turns, 3).outcome;
      && (x.took <==> Took(first))
      && (|x.log| > 1 <==> Took(first)) && (|x.log| > 1 ==> x.log[1] == (GetOperation, read))
      && (|x.log| > 2 <==> Took(first) && read.Answered? && !SaysRun(read))
      && (|x.log| > 2 ==> x.log[2] == (PutDevice([("Operation", JObj([("state", JStr("Run"))]))]), run))
      && (|x.log| > 3 <==> Took(first) && read.Answered? && !SaysRun(read) && run.Answered? && !Took(run))
      && (|x.log| > 3 ==> |x.log| == 4 && x.log[3] == (GetOperation, again))
      && (|x.log| == 2 && read.Answered? ==> x.result == Code(Coap(first.status)))
      && (|x.log| == 3 && run.Answered? ==> x.result == Code(Coap(run.status)))
      && (|x.log| == 4 && again.Answered? ==>
            x.result == Code(Coap(if SaysRun(again) then first.status else run.status)))
  {
  }

  // How a request that got no answer ends the attempt: an exception, but for the Run of a
  // settings-first start.
  predicate NoAnswerEnds(last: Outcome, ovenRun: bool, result: Result) {
    && (last.Refused? ==> result == if ovenRun then Code(0x81) else TokenRejected)
    && (last.Lost? ==> result == if ovenRun then Unconfirmed else Failed)
  }

  lemma OvenEnds(body: Body, turns: seq<Turn>)
    ensures var x := OvenExchange(body, turns);
      && (x.log == [] ==> x.result == Failed)
      && (|x.log| > 0 ==> NoAnswerEnds(x.log[|x.log| - 1].1, |x.log| == 2, x.result))
  {
  }

  lemma ComposedEnds(body: Body, turns: seq<Turn>)
    ensures var x := ComposedExchange(body, turns);
      |x.log| > 0 && NoAnswerEnds(x.log[|x.log| - 1].1, false, x.result)
  {
  }

  lemma PlainEnds(sendable: Body, turns: seq<Turn>)
    ensures var x := PlainExchange(sendable, turns);
      |x.log| > 0 ==> NoAnswerEnds(x.log[|x.log| - 1].1, false, x.result)
  {
  }

  /** How an attempt ends whose last request got no answer: refused, its token was; lost, it failed;
      only the Run of an oven start is unconfirmed instead, or 4.01. A start that puts nothing on the
      wire failed. */
  lemma UnansweredEnds(
    deviceType: Option<string>, sendable: Body, ledger: Ledger, lastBodies: Body, turns: seq<Turn>)
    ensures var x := Attempt(deviceType, sendable, ledger, lastBodies, turns);
      var start := FieldAt(sendable, "Operation", "state") == Some(JStr("Run"));
      var ovenRun := start && deviceType == Some("Oven") && Lookup(sendable, "Mode").Some? && |x.log| == 2;
      && (|x.log| > 0 ==> NoAnswerEnds(x.log[|x.log| - 1].1, ovenRun, x.result))
      && (start && x.log == [] ==> x.result == Failed)
  {
    var added := Added(sendable, ValuesOf(ledger));
    PlainEnds(sendable, turns);
    if added.Some? {
      OvenEnds(added.value, turns);
      ComposedEnds(added.value, turns);
    }
    if IsStart(sendable) { PlainFirst(sendable, turns); }
  }

  // What an attempt leaves held: nothing it did not get to, and nothing the appliance took.
  lemma AttemptLeaves(f: Found, aggregate: Body, staged: Ledger, e: Surroundings)
    ensures var (x, left) := AttemptIn(f, aggregate, staged, e);
      left == if e.early.Some? then staged else if x.took then [] else HeldAfter(f, aggregate, staged)
  {
  }

  /** A command is tried a second time exactly when the first attempt ended in a refused token or an
      exception other than the unconfirmed start. */
  lemma TriedAgainIff(f: Found, aggregate: Body, e1: Surroundings, e2: Surroundings)
    ensures var (x1, left) := AttemptIn(f, aggregate, f.staged, e1);
      var (log1, log2, result) := Command(f, aggregate, e1, e2);
      && log1 == x1.log
      && (x1.result.Code? || x1.result.Unconfirmed? ==> log2 == [] && result == x1.result)
      && (x1.result.TokenRejected? || x1.result.Failed? ==>
            var (x2, _) := AttemptIn(f, aggregate, left, e2);
            log2 == x2.log && result == x2.result)
  {
    var attempt := AttemptIn(f, aggregate, f.staged, e1);
    assert Retries(attempt.0.result) <==> attempt.0.result.TokenRejected? || attempt.0.result.Failed?;
  }

  /** The response code of a status: the same class, and for the statuses the bridge uses the same
      meaning. */
  lemma CoapKeepsClass(status: int)
    requires 200 <= status < 600
    ensures Coap(status) / 32 == 2 <==> status < 300
    ensures Coap(status) / 32 == 5 <==> status >= 500
    ensures Coap(status) / 32 == 4 <==> 300 <= status < 500
    ensures status in {200, 201, 204, 400, 401, 403, 404, 405} ==>
              Coap(status) % 32 == if status == 200 then 5 else if status == 201 then 1 else status % 100
  {
  }

  // Either way, for what a run of the appliance has left held.
  lemma WriteSends(
    deviceType: Option<string>, sendable: Body, table: Table, history: seq<Event>, lastBodies: Body, turns: seq<Turn>)
    requires AllFromTable(table, history)
    ensures var x := Attempt(deviceType, sendable, Run(history), lastBodies, turns);
      if FieldAt(sendable, "Operation", "state") == Some(JStr("Run")) then
        SendsStart(deviceType, sendable, ValuesOf(Run(history)), lastBodies, turns, x.log)
      else SendsPlain(sendable, turns, x.log, x.result)
  {
    LedgerFromTable(table, history);
    if FieldAt(sendable, "Operation", "state") == Some(JStr("Run")) {
      StartSends(deviceType, sendable, Run(history), lastBodies, turns);
    } else {
      PlainSends(deviceType, sendable, Run(history), lastBodies, turns);
    }
  }
}
