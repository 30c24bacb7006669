/**
 The session, poll, command and observe-attempt protocol of the coordinator.

 One connection can be lost and replaced by the summary poll, by a command retry or by an
 observe attempt, while an earlier attempt is still waiting for its first notifications.
 Every point at which the coordinator awaits is a program point here, so steps of different
 tasks interleave freely; the lock holder's program point is part of the state.
 */
module PushProtocol {
  import opened Options

  const POLL_TIMEOUT_LIMIT: nat := 3

  type SessionId = nat
  type AttemptId = nat

  datatype Mode = Observe | Poll

  // An attempt between its subscribe burst and its commit. `sess` is the coroutine's local
  // variable, `registeredOn` the session the device saw the registrations on.
  datatype Attempt = Waiting(sess: SessionId, registeredOn: SessionId, empty: bool)

  // What the first or second `_poll_once` of a cycle, or a PUT, raised.
  datatype Exn = Timeout | AuthRejected | Unconfirmed | OtherError

  // What follows the awaited close of the poll path.
  datatype AfterClose = ThenRaise | ThenUnreachable | ThenPause

  datatype Holder =
    | Free
    | PollStart
    | PollDone(exn: Option<Exn>)
    | PollClosed(after: AfterClose)
    | PollPaused
    | PollRetried(exn: Option<Exn>)
    | PutStart
    | PutDone(exn: Option<Exn>)
    | PutClosed(cause: Exn)
    | PutPaused
    | PutRetried
    | Connecting(id: AttemptId)
    | Subscribing(id: AttemptId)
    | Committing(id: AttemptId, reached: bool)
    | Enumerating

  // The live session, the next fresh session id, the mode, and the session the committed
  // subscriptions were registered on.
  datatype Link = Link(
    session: Option<SessionId>,
    next: SessionId,
    mode: Mode,
    committedOn: Option<SessionId>
  )

  // The poll path's bookkeeping.
  datatype Health = Health(discovered: bool, handshakeFailed: bool, failedCycles: nat, timeouts: nat)

  datatype State = State(
    link: Link,
    health: Health,
    closed: bool,
    resubscribeDue: bool,
    supportsObserve: bool,
    holder: Holder,
    attempts: map<AttemptId, Attempt>
  )

  // How one `_poll_once` ends.
  datatype PollOutcome =
    | PollAnswered
    | HandshakeFailed(timedOut: bool)
    | TimedOutSessionAnswers
    | TimedOutSessionSilent
    | Rejected
    | Undecodable
    | Broken

  // How one `_do_put` ends: `unconfirmed` is the oven start that lost its response.
  datatype PutOutcome =
    | PutAnswered
    | PutConnectFailed
    | PutRaised(unconfirmed: bool)

  datatype Step =
    | TakeForPoll
    | FirstPoll(poll: PollOutcome)
    | JudgePoll(flat: bool)
    | AfterPollClose
    | RetryPoll(poll: PollOutcome)
    | FinishPoll
    | TakeForPut
    | FirstPut(put: PutOutcome)
    | JudgePut
    | DowngradeAfterPut
    | RetryPut(put: PutOutcome)
    | FinishPut
    | SkipAttempt
    | TakeForSubscribe(id: AttemptId)
    | ConnectForAttempt(connects: bool)
    | Burst(took: bool)
    | GiveUpEmpty(id: AttemptId)
    | TakeForCommit(id: AttemptId, reached: bool)
    | Commit
    | TakeForEnumerate
    | Enumerate(connects: bool)
    | MarkDiscovered
    | ConsumeResubscribe
    | BeginClose
    | DropOnClose

  function Init(supportsObserve: bool): State {
    State(Link(None, 0, Poll, None), Health(false, false, 0, 0), false, false, supportsObserve, Free, map[])
  }

  // ---------------------------------------------------------------------
  // Pieces shared by the steps and by the coordinator's methods
  // ---------------------------------------------------------------------

  function Connected(l: Link): Link {
    if l.session.Some? then l else l.(session := Some(l.next), next := l.next + 1)
  }

  function Closed(l: Link): Link {
    l.(session := None)
  }

  // `downgrade_to_poll` and `abandon_observe_attempt` alike drop the committed subscriptions.
  function Downgraded(l: Link): Link {
    l.(mode := Poll, committedOn := None)
  }

  function Answered(h: Health): Health {
    h.(timeouts := 0, failedCycles := 0)
  }

  function Unreachable(s: State): State {
    s.(link := Downgraded(s.link),
       health := s.health.(failedCycles := s.health.failedCycles + 1),
       holder := Free)
  }

  // `_poll_once` can fail in its handshake only when there was no session, and must when the
  // coordinator is closed; a liveness probe follows a timeout only after discovery; only a
  // transport without OBSERVE rejects the credentials (the 8888 bridge).
  predicate PollCanEnd(s: State, o: PollOutcome) {
    (s.link.session.None? && s.closed ==> o.HandshakeFailed?) &&
    match o
    case HandshakeFailed(_) => s.link.session.None?
    case TimedOutSessionSilent => s.health.discovered
    case Rejected => !s.supportsObserve
    case _ => true
  }

  // The same for the second poll of a cycle, which always finds the session closed.
  predicate RetryCanEnd(h: Health, supportsObserve: bool, o: PollOutcome) {
    && (o.TimedOutSessionSilent? ==> h.discovered)
    && (o.Rejected? ==> !supportsObserve)
  }

  function PollLink(l: Link, o: PollOutcome): Link {
    match o
    case HandshakeFailed(_) => l
    case TimedOutSessionSilent => Closed(Connected(l))
    case Broken => Closed(Connected(l))
    case _ => Connected(l)
  }

  function PollExn(o: PollOutcome): Option<Exn> {
    match o
    case PollAnswered => None
    case HandshakeFailed(timedOut) => Some(if timedOut then Timeout else OtherError)
    case TimedOutSessionAnswers => Some(Timeout)
    case Rejected => Some(AuthRejected)
    case _ => Some(OtherError)
  }

  function PollOnce(s: State, o: PollOutcome, holder: Holder): State {
    s.(link := PollLink(s.link, o),
       health := s.health.(handshakeFailed := o.HandshakeFailed?),
       holder := holder)
  }

  predicate PutCanEnd(s: State, o: PutOutcome) {
    && (o.PutConnectFailed? ==> s.link.session.None?)
    && (s.link.session.None? && s.closed ==> o.PutConnectFailed?)
  }

  function PutLink(l: Link, o: PutOutcome): Link {
    if o.PutConnectFailed? then l else Connected(l)
  }

  function PutExn(o: PutOutcome): Option<Exn> {
    match o
    case PutAnswered => None
    case PutConnectFailed => Some(OtherError)
    case PutRaised(unconfirmed) => Some(if unconfirmed then Unconfirmed else OtherError)
  }

  // ---------------------------------------------------------------------
  // The step relation
  // ---------------------------------------------------------------------

  predicate Enabled(s: State, step: Step) {
    match step
    case TakeForPoll => s.holder.Free?
    case FirstPoll(o) => s.holder.PollStart? && PollCanEnd(s, o)
    case JudgePoll(_) => s.holder.PollDone?
    case AfterPollClose => s.holder.PollClosed?
    case RetryPoll(o) => s.holder.PollPaused? && PollCanEnd(s, o)
    case FinishPoll => s.holder.PollRetried?
    case TakeForPut => s.holder.Free?
    case FirstPut(o) => s.holder.PutStart? && PutCanEnd(s, o)
    case JudgePut => s.holder.PutDone?
    case DowngradeAfterPut => s.holder.PutClosed?
    case RetryPut(o) => s.holder.PutPaused? && PutCanEnd(s, o)
    case FinishPut => s.holder.PutRetried?
    case SkipAttempt => s.link.session.Some? && !s.supportsObserve
    case TakeForSubscribe(id) => s.holder.Free? && id !in s.attempts
    case ConnectForAttempt(connects) => s.holder.Connecting? && (connects ==> !s.closed)
    case Burst(took) => s.holder.Subscribing? && (took ==> s.supportsObserve)
    case GiveUpEmpty(id) => id in s.attempts && s.attempts[id].empty
    case TakeForCommit(id, _) => s.holder.Free? && id in s.attempts && !s.attempts[id].empty
    case Commit => s.holder.Committing? && s.holder.id in s.attempts
    case TakeForEnumerate => s.holder.Free?
    case Enumerate(connects) => s.holder.Enumerating? && (connects ==> !s.closed)
    case MarkDiscovered => true
    case ConsumeResubscribe => true
    case BeginClose => true
    case DropOnClose => s.closed
  }

  function Apply(s: State, step: Step): State
    requires Enabled(s, step)
  {
    match step
    case TakeForPoll => s.(holder := PollStart)
    case FirstPoll(o) => PollOnce(s, o, PollDone(PollExn(o)))
    case JudgePoll(flat) => Judge(s, flat)
    case AfterPollClose => AfterPollClosed(s)
    case RetryPoll(o) => PollOnce(s, o, PollRetried(PollExn(o)))
    case FinishPoll => Finish(s)
    case TakeForPut => s.(holder := PutStart)
    case FirstPut(o) => s.(link := PutLink(s.link, o), holder := PutDone(PutExn(o)))
    case JudgePut =>
      if s.holder.exn.None? then s.(holder := Free)
      else s.(link := Closed(s.link), holder := PutClosed(s.holder.exn.value))
    case DowngradeAfterPut =>
      s.(link := Downgraded(s.link),
         resubscribeDue := s.resubscribeDue || s.link.mode == Observe,
         holder := if s.holder.cause.Unconfirmed? then Free else PutPaused)
    case RetryPut(o) => s.(link := PutLink(s.link, o), holder := PutRetried)
    case FinishPut => s.(holder := Free)
    case SkipAttempt => s.(link := Downgraded(s.link))
    case TakeForSubscribe(id) => s.(holder := Connecting(id))
    case ConnectForAttempt(connects) =>
      if s.link.session.Some? || connects then
        s.(link := Connected(s.link), holder := Subscribing(s.holder.id))
      else s.(link := Downgraded(s.link), holder := Free)
    case Burst(took) =>
      if s.link.session.None? then s.(holder := Free)
      else
        var sess := s.link.session.value;
        s.(attempts := s.attempts[s.holder.id := Waiting(sess, sess, !took)], holder := Free)
    case GiveUpEmpty(id) => s.(link := Downgraded(s.link), attempts := s.attempts - {id})
    case TakeForCommit(id, reached) => s.(holder := Committing(id, reached))
    case Commit => CommitAttempt(s)
    case TakeForEnumerate => s.(holder := Enumerating)
    case Enumerate(connects) =>
      s.(link := if connects then Connected(s.link) else s.link, holder := Free)
    case MarkDiscovered => s.(health := s.health.(discovered := true))
    case ConsumeResubscribe => s.(resubscribeDue := false)
    case BeginClose => s.(closed := true)
    case DropOnClose => s.(link := Closed(s.link))
  }

  // What `_async_update_data` does with the first poll's outcome, up to its next await.
  function Judge(s: State, flat: bool): State
    requires s.holder.PollDone?
  {
    if s.holder.exn.None? then s.(health := Answered(s.health), holder := Free)
    else if s.holder.exn.value.AuthRejected? || s.closed then
      s.(link := Closed(s.link), holder := PollClosed(ThenRaise))
    else if Defers(s.health, s.holder.exn.value, flat) then
      s.(health := s.health.(timeouts := s.health.timeouts + 1), holder := Free)
    else if s.health.handshakeFailed then
      Unreachable(s.(health := s.health.(timeouts := 0)))
    else
      s.(link := Closed(s.link),
         health := s.health.(timeouts := 0),
         holder := PollClosed(if s.health.failedCycles > 0 then ThenUnreachable else ThenPause))
  }

  predicate Defers(h: Health, e: Exn, flat: bool) {
    h.discovered && e.Timeout? && !flat && h.timeouts + 1 < POLL_TIMEOUT_LIMIT
  }

  function AfterPollClosed(s: State): State
    requires s.holder.PollClosed?
  {
    match s.holder.after
    case ThenRaise => s.(holder := Free)
    case ThenUnreachable => Unreachable(s)
    case ThenPause => s.(holder := PollPaused)
  }

  // The end of the locked section after the second poll: a fresh session has no OBSERVE
  // registrations, so a mode that still says "observe" is taken down.
  function Finish(s: State): State
    requires s.holder.PollRetried?
  {
    if s.holder.exn.Some? then Unreachable(s)
    else
      s.(link := Downgraded(s.link),
         health := Answered(s.health),
         resubscribeDue := s.resubscribeDue || s.link.mode == Observe,
         holder := Free)
  }

  // The second locked section of an attempt: re-check the session, then commit or abandon.
  function CommitAttempt(s: State): State
    requires s.holder.Committing? && s.holder.id in s.attempts
  {
    var a := s.attempts[s.holder.id];
    var stale := s.link.session != Some(a.sess);
    var link := if !s.holder.reached || stale then Downgraded(s.link)
                else s.link.(mode := Observe, committedOn := Some(a.registeredOn));
    s.(link := link,
       resubscribeDue := s.resubscribeDue || stale,
       attempts := s.attempts - {s.holder.id},
       holder := Free)
  }

  ghost predicate Run(s: State, steps: seq<Step>, t: State)
    decreases |steps|
  {
    if steps == [] then t == s
    else Enabled(s, steps[0]) && Run(Apply(s, steps[0]), steps[1..], t)
  }

  // ---------------------------------------------------------------------
  // Push soundness
  // ---------------------------------------------------------------------

  /** What "Push" claims: the live session exists and carries the committed subscriptions. */
  predicate PushHolds(l: Link) {
    l.mode == Observe ==> l.session.Some? && l.session == l.committedOn
  }

  datatype Claim = MustHold | MustPoll | Suspended

  // The claim at every program point of the lock holder. Between a close and the downgrade
  // that follows it the claim is suspended; it must be back before the lock is released.
  function ClaimOf(h: Holder): Claim {
    match h
    case PollDone(exn) =>
      if exn.None? || exn.value.Timeout? then MustHold
      else if exn.value.AuthRejected? then MustPoll
      else Suspended
    case PollClosed(after) => if after.ThenRaise? then MustPoll else Suspended
    case PollPaused => Suspended
    case PollRetried(_) => Suspended
    case PutDone(exn) => if exn.None? then MustHold else Suspended
    case PutClosed(_) => Suspended
    case PutPaused => MustPoll
    case PutRetried => MustPoll
    case _ => MustHold
  }

  predicate ClaimHolds(l: Link, c: Claim) {
    && (c == MustHold ==> PushHolds(l))
    && (c == MustPoll ==> l.mode == Poll)
  }

  // Every waiting attempt still names the session its registrations went out on.
  predicate AttemptsTrusted(attempts: map<AttemptId, Attempt>, next: SessionId, supportsObserve: bool) {
    forall id | id in attempts ::
      && attempts[id].sess == attempts[id].registeredOn < next
      && (!attempts[id].empty ==> supportsObserve)
  }

  predicate Inv(s: State) {
    && (s.link.session.Some? ==> s.link.session.value < s.link.next)
    && AttemptsTrusted(s.attempts, s.link.next, s.supportsObserve)
    && (s.holder.Committing? ==> s.holder.id in s.attempts && !s.attempts[s.holder.id].empty)
    && (s.link.mode == Observe ==> s.supportsObserve)
    && (s.link.mode == Poll ==> s.link.committedOn.None?)
    && s.health.timeouts < POLL_TIMEOUT_LIMIT
    && (!s.closed ==> ClaimHolds(s.link, ClaimOf(s.holder)))
  }

  lemma JudgeKeepsInv(s: State, flat: bool)
    requires Inv(s) && s.holder.PollDone?
    ensures Inv(Judge(s, flat))
  {
  }

  lemma PollStepKeepsInv(s: State, step: Step)
    requires Inv(s) && Enabled(s, step)
    requires step.FirstPoll? || step.RetryPoll? || step.AfterPollClose? || step.FinishPoll?
    ensures Inv(Apply(s, step))
  {
  }

  lemma PutStepKeepsInv(s: State, step: Step)
    requires Inv(s) && Enabled(s, step)
    requires step.FirstPut? || step.JudgePut? || step.DowngradeAfterPut? || step.RetryPut? || step.FinishPut?
    ensures Inv(Apply(s, step))
  {
  }

  lemma AttemptStepKeepsInv(s: State, step: Step)
    requires Inv(s) && Enabled(s, step)
    requires step.ConnectForAttempt? || step.Burst? || step.GiveUpEmpty? || step.Commit? || step.Enumerate?
    ensures Inv(Apply(s, step))
  {
  }

  lemma StepKeepsInv(s: State, step: Step)
    requires Inv(s) && Enabled(s, step)
    ensures Inv(Apply(s, step))
  {
    if step.JudgePoll? {
      JudgeKeepsInv(s, step.flat);
    } else if step.FirstPoll? || step.RetryPoll? || step.AfterPollClose? || step.FinishPoll? {
      PollStepKeepsInv(s, step);
    } else if step.FirstPut? || step.JudgePut? || step.DowngradeAfterPut? || step.RetryPut? || step.FinishPut? {
      PutStepKeepsInv(s, step);
    } else if step.ConnectForAttempt? || step.Burst? || step.GiveUpEmpty? || step.Commit? || step.Enumerate? {
      AttemptStepKeepsInv(s, step);
    }
  }

  lemma {:induction false} RunKeepsInv(s: State, steps: seq<Step>, t: State)
    requires Inv(s) && Run(s, steps, t)
    ensures Inv(t)
    decreases |steps|
  {
    if steps != [] {
      StepKeepsInv(s, steps[0]);
      RunKeepsInv(Apply(s, steps[0]), steps[1..], t);
    }
  }

  /** Over every interleaving of polls, command retries, enumerations and observe attempts:
      whenever the lock is free and the coordinator is not closed, "observe" means the live
      session is the one the committed subscriptions were registered on. */
  lemma PushIsSound(supportsObserve: bool, steps: seq<Step>, t: State)
    requires Run(Init(supportsObserve), steps, t)
    ensures t.holder.Free? && !t.closed ==> PushHolds(t.link)
    ensures t.health.timeouts < POLL_TIMEOUT_LIMIT
  {
    RunKeepsInv(Init(supportsObserve), steps, t);
  }

  /** A closed coordinator never opens another session: once closed without one, every
      later state is still without one. */
  lemma {:induction false} ClosedStaysWithoutSession(s: State, steps: seq<Step>, t: State)
    requires s.closed && s.link.session.None? && Run(s, steps, t)
    ensures t.closed && t.link.session.None?
    decreases |steps|
  {
    if steps != [] {
      ClosedStepStaysWithoutSession(s, steps[0]);
      ClosedStaysWithoutSession(Apply(s, steps[0]), steps[1..], t);
    }
  }

  lemma ClosedStepStaysWithoutSession(s: State, step: Step)
    requires s.closed && s.link.session.None? && Enabled(s, step)
    ensures Apply(s, step).closed && Apply(s, step).link.session.None?
  {
    if step.JudgePoll? {
      assert Judge(s, step.flat).closed && Judge(s, step.flat).link.session.None?;
    }
  }

  // ---------------------------------------------------------------------
  // The two exits that close a session without a downgrade
  // ---------------------------------------------------------------------

  // How a debug read ends: a timeout, ValueError or TypeError says nothing about the session,
  // anything else closes it.
  datatype DebugOutcome = ReadAnswered | ReadTolerated | ReadRaised

  // `async_raw_read` with the lock free: it closes the session and leaves the mode alone.
  function DebugRead(s: State, o: DebugOutcome): State {
    s.(link := if o.ReadRaised? then Closed(s.link) else Connected(s.link))
  }

  /** The debug read keeps "Push" honest exactly when it does not close a session in observe mode. */
  lemma DebugReadKeepsPushIff(s: State, o: DebugOutcome)
    requires Inv(s) && s.holder.Free? && !s.closed
    ensures PushHolds(DebugRead(s, o).link) <==> s.link.mode == Poll || !o.ReadRaised?
  {
  }

  // One cycle whose first poll is answered.
  const AnsweredCycle: seq<Step> := [TakeForPoll, FirstPoll(PollAnswered), JudgePoll(false)]

  function AnsweredCycles(n: nat): seq<Step> {
    if n == 0 then [] else AnsweredCycle + AnsweredCycles(n - 1)
  }

  /** The break is lasting: after it, however many polls are answered, the mode stays "observe"
      on a session nothing was ever registered on. */
  lemma {:induction false} DebugReadStrandsPush(s: State, n: nat, t: State)
    requires Inv(s) && s.holder.Free? && !s.closed && s.link.mode == Observe
    requires n > 0 && Run(DebugRead(s, ReadRaised), AnsweredCycles(n), t)
    ensures t.holder.Free? && !t.closed && t.link.mode == Observe && t.link.session.Some?
    ensures t.link.session != t.link.committedOn && !PushHolds(t.link)
  {
    StrandedCycles(DebugRead(s, ReadRaised), n, t);
  }

  predicate Stranded(s: State) {
    && s.holder.Free? && !s.closed && s.link.mode == Observe
    && s.link.committedOn.Some? && s.link.committedOn.value < s.link.next
    && s.link.session != s.link.committedOn
  }

  lemma {:induction false} StrandedCycles(s: State, n: nat, t: State)
    requires Stranded(s) && Run(s, AnsweredCycles(n), t)
    ensures Stranded(t) && (n > 0 ==> t.link.session.Some?)
    decreases n
  {
    if n > 0 {
      var steps := AnsweredCycles(n);
      var s1 := Apply(s, steps[0]);
      var s2 := Apply(s1, steps[1]);
      var s3 := Apply(s2, steps[2]);
      assert Run(s1, steps[1..], t);
      assert steps[1..][1..] == steps[2..] && steps[2..][1..] == AnsweredCycles(n - 1);
      assert Run(s2, steps[2..], t) && Run(s3, AnsweredCycles(n - 1), t);
      StrandedCycles(s3, n - 1, t);
      if n == 1 { assert t == s3; }
    }
  }

  // A poll rejected for its credentials, whatever the transport.
  function RejectedPoll(s: State): State {
    var polled := PollOnce(s, Rejected, PollDone(PollExn(Rejected)));
    AfterPollClosed(Judge(polled, false))
  }

  /** The rejected-credentials exit closes without a downgrade too, so it is sound exactly
      because no transport that can observe raises it. */
  lemma RejectedPollKeepsPushIff(s: State)
    requires Inv(s) && s.holder.Free? && !s.closed
    ensures PushHolds(RejectedPoll(s).link) <==> s.link.mode == Poll
    ensures !s.supportsObserve ==> PushHolds(RejectedPoll(s).link)
  {
  }

  // ---------------------------------------------------------------------
  // The coordinator's locked sections
  // ---------------------------------------------------------------------

  lemma {:induction false} RunThen(s: State, steps: seq<Step>, t: State, step: Step)
    requires Run(s, steps, t) && Enabled(t, step)
    ensures Run(s, steps + [step], Apply(t, step))
    decreases |steps|
  {
    if steps == [] {
      assert ([] + [step])[1..] == [];
    } else {
      RunThen(Apply(s, steps[0]), steps[1..], t, step);
      assert (steps + [step])[1..] == steps[1..] + [step];
    }
  }

  lemma RunFirstPoll(s: State, o: PollOutcome)
    requires s.holder.Free? && PollCanEnd(s, o)
    ensures Run(s, [TakeForPoll, FirstPoll(o)], PollOnce(s, o, PollDone(PollExn(o))))
  {
    RunThen(s, [], s, TakeForPoll);
    RunThen(s, [TakeForPoll], s.(holder := PollStart), FirstPoll(o));
    assert [TakeForPoll] + [FirstPoll(o)] == [TakeForPoll, FirstPoll(o)];
  }

  lemma RunFirstPut(s: State, o: PutOutcome)
    requires s.holder.Free? && PutCanEnd(s, o)
    ensures Run(s, [TakeForPut, FirstPut(o)], s.(link := PutLink(s.link, o), holder := PutDone(PutExn(o))))
  {
    RunThen(s, [], s, TakeForPut);
    RunThen(s, [TakeForPut], s.(holder := PutStart), FirstPut(o));
    assert [TakeForPut] + [FirstPut(o)] == [TakeForPut, FirstPut(o)];
  }

  lemma RunConnect(s: State, id: AttemptId, connects: bool)
    requires s.holder.Free? && id !in s.attempts && (connects ==> !s.closed)
    ensures Run(s, [TakeForSubscribe(id), ConnectForAttempt(connects)],
                if s.link.session.Some? || connects
                then s.(link := Connected(s.link), holder := Subscribing(id))
                else s.(link := Downgraded(s.link)))
  {
    RunThen(s, [], s, TakeForSubscribe(id));
    RunThen(s, [TakeForSubscribe(id)], s.(holder := Connecting(id)), ConnectForAttempt(connects));
    assert [TakeForSubscribe(id)] + [ConnectForAttempt(connects)]
        == [TakeForSubscribe(id), ConnectForAttempt(connects)];
  }

  // Where a locked poll section that nothing interrupts ends, and the steps it takes.
  function AfterCloseOf(s: State, retry: PollOutcome): State
    requires s.holder.PollClosed?
  {
    var next := AfterPollClosed(s);
    if next.holder.PollPaused? then Finish(PollOnce(next, retry, PollRetried(PollExn(retry)))) else next
  }

  function PollSectionOf(s: State, first: PollOutcome, retry: PollOutcome, flat: bool): State {
    var judged := Judge(PollOnce(s, first, PollDone(PollExn(first))), flat);
    if judged.holder.PollClosed? then AfterCloseOf(judged, retry) else judged
  }

  lemma AfterCloseRuns(s: State, before: seq<Step>, closed: State, retry: PollOutcome) returns (path: seq<Step>)
    requires Run(s, before, closed) && closed.holder.PollClosed?
    requires closed.holder.after.ThenPause? ==> PollCanEnd(closed, retry)
    ensures Run(s, path, AfterCloseOf(closed, retry)) && AfterCloseOf(closed, retry).holder.Free?
  {
    RunThen(s, before, closed, AfterPollClose);
    path := before + [AfterPollClose];
    if closed.holder.after.ThenPause? {
      var paused := AfterPollClosed(closed);
      RunThen(s, path, paused, RetryPoll(retry));
      path := path + [RetryPoll(retry)];
      RunThen(s, path, PollOnce(paused, retry, PollRetried(PollExn(retry))), FinishPoll);
      path := path + [FinishPoll];
    }
  }

  // The pause before a reconnect is only ever taken with the session gone.
  lemma PauseCanRetry(s: State, flat: bool, retry: PollOutcome)
    requires s.holder.PollDone? && RetryCanEnd(s.health, s.supportsObserve, retry)
    ensures var judged := Judge(s, flat);
      judged.holder == PollClosed(ThenPause) ==> PollCanEnd(judged, retry)
    ensures Judge(s, flat).holder.Free? || Judge(s, flat).holder.PollClosed?
  {
  }

  /** The poll section is a path of the protocol that gives the lock back. */
  lemma PollSectionRuns(s: State, first: PollOutcome, retry: PollOutcome, flat: bool) returns (path: seq<Step>)
    requires s.holder.Free? && PollCanEnd(s, first) && RetryCanEnd(s.health, s.supportsObserve, retry)
    ensures Run(s, path, PollSectionOf(s, first, retry, flat))
    ensures PollSectionOf(s, first, retry, flat).holder.Free?
  {
    var done := PollOnce(s, first, PollDone(PollExn(first)));
    RunFirstPoll(s, first);
    path := [TakeForPoll, FirstPoll(first)];
    RunThen(s, path, done, JudgePoll(flat));
    path := path + [JudgePoll(flat)];
    PauseCanRetry(done, flat, retry);
    if Judge(done, flat).holder.PollClosed? { path := AfterCloseRuns(s, path, Judge(done, flat), retry); }
  }

  // A timeout that is waited out: after discovery, on a board that is not flat, the first two in
  // a row.
  predicate WaitedOut(s: State, first: PollOutcome, flat: bool) {
    && (first == TimedOutSessionAnswers || first == HandshakeFailed(true))
    && s.health.discovered && !flat && s.health.timeouts < 2
  }

  // The first poll is worth a reconnect: it failed on a device that is reached and not known dark.
  predicate WorthReconnect(s: State, first: PollOutcome, flat: bool) {
    && first != PollAnswered && first != Rejected && !first.HandshakeFailed?
    && !s.closed && !WaitedOut(s, first, flat) && s.health.failedCycles == 0
  }

  // A poll that leaves a session behind: the one there was, or a new one.
  predicate LeavesSession(o: PollOutcome) {
    o == PollAnswered || o == TimedOutSessionAnswers || o == Rejected || o == Undecodable
  }

  function SessionOrNext(l: Link): SessionId {
    if l.session.Some? then l.session.value else l.next
  }

  predicate AnsweredEnd(s: State, t: State) {
    && t.link.session == Some(SessionOrNext(s.link))
    && t.link.mode == s.link.mode && t.resubscribeDue == s.resubscribeDue
    && t.health.timeouts == t.health.failedCycles == 0
  }

  predicate ClosedEnd(s: State, t: State) {
    && t.link.session == None
    && t.link.mode == s.link.mode && t.resubscribeDue == s.resubscribeDue
    && t.health.timeouts == s.health.timeouts && t.health.failedCycles == s.health.failedCycles
  }

  predicate WaitedEnd(s: State, first: PollOutcome, t: State) {
    && t.link.session == (if first.HandshakeFailed? then None else Some(SessionOrNext(s.link)))
    && t.link.mode == s.link.mode && t.resubscribeDue == s.resubscribeDue
    && t.health.timeouts == s.health.timeouts + 1 && t.health.failedCycles == s.health.failedCycles
  }

  predicate DarkEnd(s: State, t: State) {
    && t.link.session == None && t.link.mode == Poll && t.resubscribeDue == s.resubscribeDue
    && t.health.timeouts == 0 && t.health.failedCycles == s.health.failedCycles + 1
  }

  // The reconnected session is a new one.
  predicate ReconnectedEnd(s: State, retry: PollOutcome, t: State) {
    && t.link.mode == Poll && t.health.timeouts == 0
    && t.health.failedCycles == (if retry == PollAnswered then 0 else 1)
    && t.resubscribeDue == (s.resubscribeDue || (retry == PollAnswered && s.link.mode == Observe))
    && (t.link.session.Some? <==> LeavesSession(retry))
    && (t.link.session.Some? ==> t.link.session != s.link.session && t.link.session.value >= s.link.next)
  }

  // How a poll section from `s` ends in `t`, told from the outcomes of its polls.
  predicate PollEnds(s: State, first: PollOutcome, retry: PollOutcome, flat: bool, t: State) {
    && t.closed == s.closed && t.attempts == s.attempts && t.health.discovered == s.health.discovered
    && if first == PollAnswered then AnsweredEnd(s, t)
       else if first == Rejected || s.closed then ClosedEnd(s, t)
       else if WaitedOut(s, first, flat) then WaitedEnd(s, first, t)
       else if WorthReconnect(s, first, flat) then ReconnectedEnd(s, retry, t)
       else DarkEnd(s, t)
  }

  // What the first poll's exception decides: go on, close and raise, wait a timeout out, go dark, or
  // close and, unless the device is known to be dark, reconnect.
  predicate JudgedAs(s: State, exn: Option<Exn>, flat: bool, t: State) {
    && t.closed == s.closed && t.resubscribeDue == s.resubscribeDue && t.attempts == s.attempts
    && var was, now := s.health, t.health;
       if exn == None then t.holder == Free && t.link == s.link && now.timeouts == now.failedCycles == 0
       else if exn == Some(AuthRejected) || s.closed then
         t.holder == PollClosed(ThenRaise) && t.link.session == None && t.link.mode == s.link.mode && now == was
       else if exn == Some(Timeout) && was.discovered && !flat && was.timeouts < 2 then
         t.holder == Free && t.link == s.link && now == was.(timeouts := was.timeouts + 1)
       else if was.handshakeFailed then
         && t.holder == Free && t.link.mode == Poll && t.link.session == s.link.session
         && now.timeouts == 0 && now.failedCycles == was.failedCycles + 1
       else
         && t.holder == PollClosed(if was.failedCycles == 0 then ThenPause else ThenUnreachable)
         && t.link.session == None && t.link.mode == s.link.mode && now == was.(timeouts := 0)
  }

  lemma FirstPollEnds(s: State, first: PollOutcome, flat: bool)
    requires Inv(s) && s.holder.Free? && PollCanEnd(s, first)
    ensures var judged := Judge(PollOnce(s, first, PollDone(PollExn(first))), flat);
      && (judged.holder == PollClosed(ThenPause) <==> WorthReconnect(s, first, flat))
      && (judged.holder == PollClosed(ThenRaise) <==> first != PollAnswered && (first == Rejected || s.closed))
      && (judged.holder == PollClosed(ThenUnreachable) ==>
            judged.link.session == None && judged.health.timeouts == 0
            && judged.health.failedCycles == s.health.failedCycles && s.health.failedCycles > 0)
      && (judged.holder == PollClosed(ThenPause) ==>
            judged.link.session == None && judged.link.next >= s.link.next && judged.health.timeouts == 0)
  {
  }

  lemma RetryEnds(s: State, first: PollOutcome, retry: PollOutcome, flat: bool)
    requires Inv(s) && s.holder.Free? && PollCanEnd(s, first) && RetryCanEnd(s.health, s.supportsObserve, retry)
    requires WorthReconnect(s, first, flat)
    ensures PollEnds(s, first, retry, flat, PollSectionOf(s, first, retry, flat))
  {
    FirstPollEnds(s, first, flat);
  }

  lemma EarlyEnds(s: State, first: PollOutcome, retry: PollOutcome, flat: bool)
    requires Inv(s) && s.holder.Free? && PollCanEnd(s, first)
    requires first == PollAnswered || first == Rejected || s.closed
    ensures PollEnds(s, first, retry, flat, PollSectionOf(s, first, retry, flat))
  {
  }

  lemma WaitedEnds(s: State, first: PollOutcome, retry: PollOutcome, flat: bool)
    requires Inv(s) && s.holder.Free? && PollCanEnd(s, first) && !s.closed && WaitedOut(s, first, flat)
    ensures PollEnds(s, first, retry, flat, PollSectionOf(s, first, retry, flat))
  {
  }

  lemma DarkEnds(s: State, first: PollOutcome, retry: PollOutcome, flat: bool)
    requires Inv(s) && s.holder.Free? && PollCanEnd(s, first) && !WorthReconnect(s, first, flat)
    requires first != PollAnswered && first != Rejected && !s.closed && !WaitedOut(s, first, flat)
    ensures PollEnds(s, first, retry, flat, PollSectionOf(s, first, retry, flat))
  {
    FirstPollEnds(s, first, flat);
  }

  /** What a poll section does, without the pieces it is made of: when a second poll goes out, and
      the session, the mode, the resubscribe and the counters in every case. */
  lemma PollSectionEnds(s: State, first: PollOutcome, retry: PollOutcome, flat: bool)
    requires Inv(s) && s.holder.Free? && PollCanEnd(s, first) && RetryCanEnd(s.health, s.supportsObserve, retry)
    ensures PollEnds(s, first, retry, flat, PollSectionOf(s, first, retry, flat))
  {
    if WorthReconnect(s, first, flat) {
      RetryEnds(s, first, retry, flat);
    } else if first == PollAnswered || first == Rejected || s.closed {
      EarlyEnds(s, first, retry, flat);
    } else if WaitedOut(s, first, flat) {
      WaitedEnds(s, first, retry, flat);
    } else {
      DarkEnds(s, first, retry, flat);
    }
  }

  // The same for a command; `PutClosedOf` is what follows the first PUT's exception.
  function PutClosedOf(s: State, cause: Exn): State {
    s.(link := Downgraded(Closed(s.link)),
       resubscribeDue := s.resubscribeDue || s.link.mode == Observe,
       holder := if cause.Unconfirmed? then Free else PutPaused)
  }

  function PutSectionOf(s: State, first: PutOutcome, retry: PutOutcome): State {
    var sent := s.(link := PutLink(s.link, first));
    var exn := PutExn(first);
    if exn.None? then sent
    else
      var closed := PutClosedOf(sent, exn.value);
      if exn.value.Unconfirmed? then closed else closed.(link := PutLink(closed.link, retry), holder := Free)
  }

  // How a command section from `s` ends in `t`, told from the outcomes of its PUTs.
  predicate PutEnds(s: State, first: PutOutcome, retry: PutOutcome, t: State) {
    && t.closed == s.closed && t.attempts == s.attempts && t.health == s.health
    && (first == PutAnswered ==>
          && t.link.session == Some(SessionOrNext(s.link))
          && t.link.mode == s.link.mode && t.resubscribeDue == s.resubscribeDue)
    && (first != PutAnswered ==>
          && t.link.mode == Poll && t.resubscribeDue == (s.resubscribeDue || s.link.mode == Observe))
    && (first == PutRaised(true) ==> t.link.session == None)
    && (first == PutRaised(false) || first == PutConnectFailed ==>
          && (t.link.session.Some? <==> retry != PutConnectFailed)
          && (t.link.session.Some? ==> t.link.session != s.link.session && t.link.session.value >= s.link.next))
  }

  /** What a command section does, without the pieces it is made of. */
  lemma PutSectionEnds(s: State, first: PutOutcome, retry: PutOutcome)
    requires Inv(s) && s.holder.Free? && PutCanEnd(s, first)
    ensures PutEnds(s, first, retry, PutSectionOf(s, first, retry))
  {
  }

  /** The command section is a path of the protocol that gives the lock back. */
  lemma PutSectionRuns(s: State, first: PutOutcome, retry: PutOutcome) returns (path: seq<Step>)
    requires s.holder.Free? && PutCanEnd(s, first) && PutCanEnd(s.(link := Closed(s.link)), retry)
    ensures Run(s, path, PutSectionOf(s, first, retry)) && PutSectionOf(s, first, retry).holder.Free?
  {
    var done := s.(link := PutLink(s.link, first), holder := PutDone(PutExn(first)));
    RunFirstPut(s, first);
    path := [TakeForPut, FirstPut(first)];
    RunThen(s, path, done, JudgePut);
    path := path + [JudgePut];
    if PutExn(first).Some? {
      path := PutRetryRuns(s, path, Apply(done, JudgePut), retry);
    }
  }

  lemma PutRetryRuns(s: State, before: seq<Step>, closed: State, retry: PutOutcome) returns (path: seq<Step>)
    requires Run(s, before, closed) && closed.holder.PutClosed? && PutCanEnd(closed, retry)
    ensures var paused := Apply(closed, DowngradeAfterPut);
      Run(s, path, if paused.holder.Free? then paused else paused.(link := PutLink(paused.link, retry), holder := Free))
  {
    RunThen(s, before, closed, DowngradeAfterPut);
    path := before + [DowngradeAfterPut];
    var paused := Apply(closed, DowngradeAfterPut);
    if paused.holder.PutPaused? {
      RunThen(s, path, paused, RetryPut(retry));
      path := path + [RetryPut(retry)];
      RunThen(s, path, Apply(paused, RetryPut(retry)), FinishPut);
      path := path + [FinishPut];
    }
  }

  class Coordinator {
    var link: Link
    var health: Health
    var closed: bool
    var resubscribeDue: bool
    const supportsObserve: bool
    var holder: Holder
    var attempts: map<AttemptId, Attempt>

    function St(): State
      reads this
    {
      State(link, health, closed, resubscribeDue, supportsObserve, holder, attempts)
    }

    constructor (supportsObserve: bool)
      ensures St() == Init(supportsObserve)
      ensures link.session == None && link.mode == Poll && holder == Free && attempts == map[]
      ensures !closed && !resubscribeDue && health == Health(false, false, 0, 0)
    {
      this.supportsObserve := supportsObserve;
      link := Link(None, 0, Poll, None);
      health := Health(false, false, 0, 0);
      closed, resubscribeDue, holder, attempts := false, false, Free, map[];
    }

    method CloseSession()
      modifies this`link
      ensures link == Closed(old(link))
    {
      link := link.(session := None);
    }

    method DowngradeToPoll()
      modifies this`link
      ensures link == Downgraded(old(link))
    {
      link := link.(mode := Poll, committedOn := None);
    }

    method PollOnceBlocking(o: PollOutcome) returns (exn: Option<Exn>)
      requires PollCanEnd(St(), o)
      modifies this`link, this`health
      ensures St() == PollOnce(old(St()), o, old(holder)) && exn == PollExn(o)
    {
      if link.session == None {
        match o {
          case HandshakeFailed(timedOut) =>
            health := health.(handshakeFailed := true);
            return Some(if timedOut then Timeout else OtherError);
          case _ =>
            link := link.(session := Some(link.next), next := link.next + 1);
        }
      }
      health := health.(handshakeFailed := false);
      if o == PollAnswered {
        exn := None;
      } else if o == TimedOutSessionAnswers {
        exn := Some(Timeout);
      } else if o == Rejected {
        exn := Some(AuthRejected);
      } else {
        if o != Undecodable {
          CloseSession();
        }
        exn := Some(OtherError);
      }
    }

    method DeviceUnreachable()
      requires link.mode == Poll ==> link.committedOn.None?
      modifies this`link, this`health
      ensures link == Downgraded(old(link))
      ensures health == old(health).(failedCycles := old(health).failedCycles + 1)
    {
      health := health.(failedCycles := health.failedCycles + 1);
      if link.mode == Observe {
        DowngradeToPoll();
      }
    }

    /** The locked section of one update cycle ends where the protocol's path of it does, with the
        lock given back and the push claim true; what becomes of it is said case by case. */
    method PollSection(first: PollOutcome, retry: PollOutcome, flat: bool) returns (polls: nat)
      requires Inv(St()) && holder == Free && PollCanEnd(St(), first)
      requires RetryCanEnd(health, supportsObserve, retry)
      modifies this
      ensures St() == PollSectionOf(old(St()), first, retry, flat)
      ensures Inv(St()) && holder == Free && (!closed ==> PushHolds(link))
      ensures PollEnds(old(St()), first, retry, flat, St())
      ensures polls == if WorthReconnect(old(St()), first, flat) then 2 else 1
    {
      ghost var start := St();
      ghost var path := PollSectionRuns(start, first, retry, flat);
      RunKeepsInv(start, path, PollSectionOf(start, first, retry, flat));
      PollSectionEnds(start, first, retry, flat);
      FirstPollEnds(start, first, flat);
      polls := PollAndJudge(first, retry, flat);
    }

    method PollFirst(first: PollOutcome) returns (exn: Option<Exn>)
      requires PollCanEnd(St(), first)
      modifies this
      ensures St() == PollOnce(old(St()), first, PollDone(PollExn(first))) && holder == PollDone(exn)
    {
      exn := PollOnceBlocking(first);
      holder := PollDone(exn);
    }

    method PollAndJudge(first: PollOutcome, retry: PollOutcome, flat: bool) returns (polls: nat)
      requires holder == Free && PollCanEnd(St(), first) && RetryCanEnd(health, supportsObserve, retry)
      requires link.mode == Poll ==> link.committedOn.None?
      modifies this
      ensures St() == PollSectionOf(old(St()), first, retry, flat)
      ensures var done := PollOnce(old(St()), first, PollDone(PollExn(first)));
        polls == if Judge(done, flat).holder == PollClosed(ThenPause) then 2 else 1
    {
      polls := 1;
      var exn := PollFirst(first);
      PauseCanRetry(St(), flat, retry);
      JudgeFirst(exn, flat);
      if holder != Free {
        if holder.after == ThenPause {
          polls := 2;
        }
        AfterClose(retry);
      }
    }

    // What follows the first poll, up to the pause of an awaited close.
    method JudgeFirst(exn: Option<Exn>, flat: bool)
      requires holder == PollDone(exn)
      requires link.mode == Poll ==> link.committedOn.None?
      modifies this
      ensures St() == Judge(old(St()), flat)
      ensures JudgedAs(old(St()), exn, flat, St())
      ensures holder == Free || holder.PollClosed?
      ensures holder == PollClosed(ThenPause) ==> !closed && link.session == None
      ensures closed == old(closed) && health.discovered == old(health).discovered
      ensures link.mode == Poll ==> link.committedOn.None?
    {
      if exn == None {
        health := health.(timeouts := 0, failedCycles := 0);
        holder := Free;
      } else if exn.value == AuthRejected || closed {
        CloseSession();
        holder := PollClosed(ThenRaise);
      } else if health.discovered && exn.value == Timeout && !flat && health.timeouts + 1 < POLL_TIMEOUT_LIMIT {
        health := health.(timeouts := health.timeouts + 1);
        holder := Free;
      } else {
        health := health.(timeouts := 0);
        if health.handshakeFailed {
          DeviceUnreachable();
          holder := Free;
        } else {
          CloseSession();
          holder := PollClosed(if health.failedCycles > 0 then ThenUnreachable else ThenPause);
        }
      }
    }

    method AfterClose(retry: PollOutcome)
      requires holder.PollClosed? && (holder.after.ThenPause? ==> PollCanEnd(St(), retry))
      requires link.mode == Poll ==> link.committedOn.None?
      modifies this
      ensures St() == AfterCloseOf(old(St()), retry)
    {
      if holder.after == ThenRaise {
        holder := Free;
      } else if holder.after == ThenUnreachable {
        DeviceUnreachable();
        holder := Free;
      } else {
        holder := PollPaused;
        PollAgain(retry);
      }
    }

    // The reconnect: poll once more, and take observe mode down with the old session.
    method PollAgain(retry: PollOutcome)
      requires holder == PollPaused && PollCanEnd(St(), retry)
      requires link.mode == Poll ==> link.committedOn.None?
      modifies this
      ensures St() == Finish(PollOnce(old(St()), retry, PollRetried(PollExn(retry))))
    {
      var exn := PollOnceBlocking(retry);
      if exn != None {
        DeviceUnreachable();
      } else {
        health := health.(timeouts := 0, failedCycles := 0);
        if link.mode == Observe {
          DowngradeToPoll();
          resubscribeDue := true;
        }
      }
      holder := Free;
    }

    method DoPut(o: PutOutcome) returns (exn: Option<Exn>)
      requires PutCanEnd(St(), o)
      modifies this`link
      ensures link == PutLink(old(link), o) && exn == PutExn(o)
    {
      if link.session == None {
        if o == PutConnectFailed {
          return Some(OtherError);
        }
        link := link.(session := Some(link.next), next := link.next + 1);
      }
      match o {
        case PutRaised(unconfirmed) => exn := Some(if unconfirmed then Unconfirmed else OtherError);
        case _ => exn := None;
      }
    }

    /** The locked section of a command: PUT, and on a dead session close, downgrade, retry once.
        An unconfirmed oven start is not retried. */
    method PutSection(first: PutOutcome, retry: PutOutcome) returns (exn: Option<Exn>, puts: nat)
      requires Inv(St()) && holder == Free && PutCanEnd(St(), first)
      requires PutCanEnd(St().(link := Closed(link)), retry)
      modifies this
      ensures St() == PutSectionOf(old(St()), first, retry)
      ensures Inv(St()) && holder == Free && (!closed ==> PushHolds(link))
      ensures PutEnds(old(St()), first, retry, St())
      ensures puts == 2 <==> first.PutConnectFailed? || first == PutRaised(false)
      ensures var last := if puts == 2 then retry else first;
        && (exn == None <==> last == PutAnswered) && (exn == Some(Unconfirmed) <==> last == PutRaised(true))
    {
      ghost var start := St();
      ghost var path := PutSectionRuns(start, first, retry);
      RunKeepsInv(start, path, PutSectionOf(start, first, retry));
      PutSectionEnds(start, first, retry);
      exn := DoPut(first);
      puts := 1;
      if exn != None {
        AfterPutRaised(exn.value);
        if exn.value != Unconfirmed {
          exn := DoPut(retry);
          puts := 2;
        }
      }
    }

    // A dead session is closed and takes observe mode with it.
    method AfterPutRaised(cause: Exn)
      requires link.mode == Poll ==> link.committedOn.None?
      modifies this`link, this`resubscribeDue
      ensures link == Downgraded(Closed(old(link)))
      ensures resubscribeDue == (old(resubscribeDue) || old(link).mode == Observe)
    {
      CloseSession();
      if link.mode == Observe {
        DowngradeToPoll();
        resubscribeDue := true;
      }
    }

    /** Before an attempt takes the lock: a session that cannot observe ends it. */
    method BeginAttempt() returns (goesOn: bool, ghost path: seq<Step>)
      requires Inv(St())
      modifies this`link
      ensures Inv(St()) && Run(old(St()), path, St())
      ensures goesOn <==> old(link).session == None || supportsObserve
      ensures link.session == old(link).session && link.mode == if goesOn then old(link).mode else Poll
    {
      ghost var start := St();
      goesOn, path := link.session == None || supportsObserve, [];
      if !goesOn {
        RunThen(start, [], start, SkipAttempt);
        DowngradeToPoll();
        path := [] + [SkipAttempt];
      }
      RunKeepsInv(start, path, St());
    }

    /** An attempt none of whose subscribes was taken ends without the lock. */
    method GiveUp(id: AttemptId) returns (ghost path: seq<Step>)
      requires Inv(St()) && id in attempts && attempts[id].empty
      modifies this
      ensures Inv(St()) && Run(old(St()), path, St())
      ensures attempts == old(attempts) - {id} && link.mode == Poll && link.session == old(link).session
      ensures holder == old(holder) && resubscribeDue == old(resubscribeDue) && closed == old(closed)
    {
      ghost var start := St();
      RunThen(start, [], start, GiveUpEmpty(id));
      path := [] + [GiveUpEmpty(id)];
      DowngradeToPoll();
      attempts := attempts - {id};
      RunKeepsInv(start, path, St());
    }

    /** The first locked section of an attempt; `sess` is None when it gave up connecting. */
    method SubscribeSection(id: AttemptId, connects: bool, took: bool)
      returns (sess: Option<SessionId>, ghost path: seq<Step>)
      requires Inv(St()) && holder == Free && id !in attempts
      requires connects ==> !closed
      requires took ==> supportsObserve
      modifies this
      ensures Inv(St()) && holder == Free && Run(old(St()), path, St())
      ensures sess == link.session
      ensures link == if old(link).session.Some? || connects then Connected(old(link)) else Downgraded(old(link))
      ensures sess.Some? ==> attempts == old(attempts)[id := Waiting(sess.value, sess.value, !took)]
      ensures sess.None? ==> attempts == old(attempts) && link.mode == Poll
    {
      ghost var start := St();
      RunConnect(start, id, connects);
      path := [TakeForSubscribe(id), ConnectForAttempt(connects)];
      if link.session == None && !connects {
        DowngradeToPoll();
        holder := Free;
      } else {
        if link.session == None {
          link := link.(session := Some(link.next), next := link.next + 1);
        }
        holder := Subscribing(id);
        RunThen(start, path, St(), Burst(took));
        path := path + [Burst(took)];
        attempts := attempts[id := Waiting(link.session.value, link.session.value, !took)];
        holder := Free;
      }
      sess := link.session;
      RunKeepsInv(start, path, St());
    }

    /** The second locked section: commits only onto the session it subscribed on. */
    method CommitSection(id: AttemptId, reached: bool) returns (ghost path: seq<Step>)
      requires Inv(St()) && holder == Free && id in attempts && !attempts[id].empty
      modifies this
      ensures Inv(St()) && holder == Free && Run(old(St()), path, St())
      ensures attempts == old(attempts) - {id} && link.session == old(link).session
      ensures link.mode == Observe <==> reached && link.session == Some(old(attempts)[id].registeredOn)
      ensures resubscribeDue <==> old(resubscribeDue) || link.session != Some(old(attempts)[id].registeredOn)
    {
      ghost var start := St();
      RunThen(start, [], start, TakeForCommit(id, reached));
      holder := Committing(id, reached);
      RunThen(start, [TakeForCommit(id, reached)], St(), Commit);
      path := [TakeForCommit(id, reached)] + [Commit];
      var stale := link.session != Some(attempts[id].sess);
      if !reached || stale {
        DowngradeToPoll();
        if stale {
          resubscribeDue := true;
        }
      } else {
        link := link.(mode := Observe, committedOn := Some(attempts[id].registeredOn));
      }
      attempts := attempts - {id};
      holder := Free;
      RunKeepsInv(start, path, St());
    }
  }
}
