/**
 The per-device observe manager: the write-settle guard in front of the state cache, the
 field-level merge, and the bookkeeping of which subscribed hrefs really push.
 `Apply` and every lock-held section are atomic; the clock is an integer.
 */
module ObserveManager {
  import opened Options
  import opened Text

  type Href = string
  type Time = int

  datatype Value = Str(s: string) | Number(n: int) | List(items: seq<Value>)

  type Rep = map<string, Value>

  datatype Source = Optimistic | Poll | Sweep | Notify

  datatype Mode = ObserveMode | PollMode

  const OPTIONS_FIELD := "x.com.samsung.da.options"
  const RESOURCE_TYPE := "rt"
  const STALE_SWEEPS_TO_FALLBACK: nat := 2

  // `/alarms/vs/<index>` under any prefix: its rep is a whole snapshot, never a partial one.
  predicate IsAlarmsHref(href: Href) {
    EndsWith(BeforeLast(href, '/'), "/alarms/vs")
  }

  // ---------------------------------------------------------------------
  // Option tokens
  // ---------------------------------------------------------------------

  predicate IsToken(v: Value) {
    v.Str? && '_' in v.s
  }

  // Everything before the last underscore.
  function TokenPrefix(v: Value): string
    requires IsToken(v)
  {
    BeforeLast(v.s, '_')
  }

  predicate HasPrefix(v: Value, prefix: string) {
    IsToken(v) && TokenPrefix(v) == prefix
  }

  // A text split at its last underscore.
  predicate SplitsInto(text: string, prefix: string, value: string) {
    '_' !in value && text == prefix + ['_'] + value
  }

  lemma LastUnderscore(text: string)
    requires '_' in text
    ensures SplitsInto(text, BeforeLast(text, '_'), AfterLast(text, '_'))
  {
  }

  /** A token's prefix is all of its text up to the last underscore. */
  lemma HasPrefixIff(v: Value, prefix: string)
    ensures HasPrefix(v, prefix) <==> v.Str? && exists value :: SplitsInto(v.s, prefix, value)
  {
    if HasPrefix(v, prefix) { LastUnderscore(v.s); }
    if v.Str? {
      if value :| SplitsInto(v.s, prefix, value) { LastIndexOfJoin(prefix, '_', value); }
    }
  }

  function ReplaceToken(tokens: seq<Value>, token: Value): seq<Value>
    requires IsToken(token)
  {
    seq(|tokens|, i requires 0 <= i < |tokens| =>
      if HasPrefix(tokens[i], TokenPrefix(token)) then token else tokens[i])
  }

  function MergeToken(tokens: seq<Value>, token: Value): seq<Value> {
    if !IsToken(token) then tokens
    else if exists i :: 0 <= i < |tokens| && HasPrefix(tokens[i], TokenPrefix(token)) then
      ReplaceToken(tokens, token)
    else tokens + [token]
  }

  function MergeOptions(cached: seq<Value>, incoming: seq<Value>): seq<Value> {
    if incoming == [] then cached
    else MergeToken(MergeOptions(cached, incoming[..|incoming| - 1]), incoming[|incoming| - 1])
  }

  // What an array says for one prefix.
  function Tokens(tokens: seq<Value>, prefix: string): set<Value> {
    set i | 0 <= i < |tokens| && HasPrefix(tokens[i], prefix) :: tokens[i]
  }

  // The last token carrying `prefix`.
  function LastToken(tokens: seq<Value>, prefix: string): Option<Value> {
    if tokens == [] then None
    else if HasPrefix(tokens[|tokens| - 1], prefix) then Some(tokens[|tokens| - 1])
    else LastToken(tokens[..|tokens| - 1], prefix)
  }

  lemma MergeTokenByPrefix(tokens: seq<Value>, token: Value, prefix: string)
    ensures HasPrefix(token, prefix) ==> Tokens(MergeToken(tokens, token), prefix) == {token}
    ensures !HasPrefix(token, prefix) ==> Tokens(MergeToken(tokens, token), prefix) == Tokens(tokens, prefix)
  {
    var merged := MergeToken(tokens, token);
    if IsToken(token) {
      if i :| 0 <= i < |tokens| && HasPrefix(tokens[i], TokenPrefix(token)) {
        assert merged[i] == token;
        forall v ensures v in Tokens(tokens, prefix) && !HasPrefix(token, prefix) <==>
                         v in Tokens(merged, prefix) && !HasPrefix(token, prefix)
        {
          if j :| 0 <= j < |tokens| && HasPrefix(tokens[j], prefix) && tokens[j] == v && !HasPrefix(token, prefix) {
            assert merged[j] == v;
          }
        }
      } else {
        assert merged[|tokens|] == token;
        forall v | v in Tokens(tokens, prefix) ensures v in Tokens(merged, prefix) {
          var j :| 0 <= j < |tokens| && HasPrefix(tokens[j], prefix) && tokens[j] == v;
          assert merged[j] == v;
        }
      }
    }
  }

  /** A notify's option array is merged by prefix: a prefix it carries now says what its last
      token says and nothing else, every other prefix says what it said. */
  lemma {:induction false} MergeOptionsByPrefix(cached: seq<Value>, incoming: seq<Value>, prefix: string)
    ensures LastToken(incoming, prefix).Some? ==>
              Tokens(MergeOptions(cached, incoming), prefix) == {LastToken(incoming, prefix).value}
    ensures LastToken(incoming, prefix).None? ==>
              Tokens(MergeOptions(cached, incoming), prefix) == Tokens(cached, prefix)
  {
    if incoming != [] {
      var before := incoming[..|incoming| - 1];
      MergeOptionsByPrefix(cached, before, prefix);
      MergeTokenByPrefix(MergeOptions(cached, before), incoming[|incoming| - 1], prefix);
    }
  }

  // One token takes the place of another of its prefix.
  ghost predicate SamePrefix(a: Value, b: Value) {
    a == b || (IsToken(a) && IsToken(b) && TokenPrefix(a) == TokenPrefix(b))
  }

  lemma MergeTokenPlaces(tokens: seq<Value>, token: Value)
    ensures var merged := MergeToken(tokens, token);
      && |merged| >= |tokens|
      && (forall i | 0 <= i < |tokens| :: SamePrefix(merged[i], tokens[i]))
      && (forall i | |tokens| <= i < |merged| :: merged[i] == token && IsToken(token))
  {
  }

  /** Merging leaves every entry in its place, itself or a token of its prefix, and adds only incoming
      tokens behind them: entries that are no tokens are neither lost nor taken in. */
  lemma {:induction false} MergeKeepsPlaces(cached: seq<Value>, incoming: seq<Value>)
    ensures var merged := MergeOptions(cached, incoming);
      && |merged| >= |cached|
      && (forall i | 0 <= i < |cached| :: SamePrefix(merged[i], cached[i]))
      && (forall i | |cached| <= i < |merged| :: merged[i] in incoming && IsToken(merged[i]))
  {
    if incoming != [] {
      var before, last := incoming[..|incoming| - 1], incoming[|incoming| - 1];
      var merged, all := MergeOptions(cached, before), MergeOptions(cached, incoming);
      assert incoming == before + [last];
      MergeKeepsPlaces(cached, before);
      MergeTokenPlaces(merged, last);
      forall i | |cached| <= i < |all| ensures all[i] in incoming && IsToken(all[i]) {
        if i < |merged| { assert all[i] == merged[i] || all[i] == last; }
      }
    }
  }

  // ---------------------------------------------------------------------
  // The settle guard
  // ---------------------------------------------------------------------

  datatype Gate = Gate(cache: map<Href, Rep>, settle: map<Href, Time>)

  function Prior(cache: map<Href, Rep>, href: Href): Rep {
    if href in cache then cache[href] else map[]
  }

  predicate HasOptions(rep: Rep) {
    OPTIONS_FIELD in rep && rep[OPTIONS_FIELD].List?
  }

  function Merged(href: Href, prior: Rep, rep: Rep, source: Source): Rep {
    var merged := if IsAlarmsHref(href) then rep else prior + rep;
    if source == Notify && HasOptions(rep) && HasOptions(prior) then
      merged[OPTIONS_FIELD := List(MergeOptions(prior[OPTIONS_FIELD].items, rep[OPTIONS_FIELD].items))]
    else merged
  }

  predicate Settling(settle: map<Href, Time>, href: Href, now: Time) {
    href in settle && now < settle[href]
  }

  function Purged(settle: map<Href, Time>, href: Href, now: Time): map<Href, Time> {
    if href in settle && now >= settle[href] then settle - {href} else settle
  }

  function RestoredSettle(settle: map<Href, Time>, href: Href, previous: Option<Time>, armed: Time, now: Time)
    : map<Href, Time>
  {
    if href !in settle || settle[href] != armed then settle
    else if previous == None || previous.value <= now then settle - {href}
    else settle[href := previous.value]
  }

  datatype GateEvent =
    | Arrives(href: Href, rep: Rep, source: Source, now: Time)
    | Armed(href: Href, settleFor: Time, now: Time)
    | Restored(href: Href, previous: Option<Time>, armed: Time, now: Time)
    | Peeked(href: Href, now: Time)

  predicate Accepted(g: Gate, e: GateEvent) {
    e.Arrives? && (e.source == Optimistic || !Settling(g.settle, e.href, e.now))
  }

  function GateStep(g: Gate, e: GateEvent): Gate {
    match e
    case Arrives(href, rep, source, now) =>
      var settle := if source == Optimistic then g.settle else Purged(g.settle, href, now);
      if Accepted(g, e) then
        Gate(g.cache[href := Merged(href, Prior(g.cache, href), rep, source)], settle)
      else Gate(g.cache, settle)
    case Armed(href, settleFor, now) => g.(settle := g.settle[href := now + settleFor])
    case Restored(href, previous, armed, now) =>
      g.(settle := RestoredSettle(g.settle, href, previous, armed, now))
    case Peeked(href, now) => g.(settle := Purged(g.settle, href, now))
  }

  function GateAfter(events: seq<GateEvent>): Gate {
    if events == [] then Gate(map[], map[])
    else GateStep(GateAfter(events[..|events| - 1]), events[|events| - 1])
  }

  // The reps the guard let through, in order.
  function AcceptedReps(events: seq<GateEvent>): seq<(Href, Rep)> {
    if events == [] then []
    else
      var before := events[..|events| - 1];
      var e := events[|events| - 1];
      AcceptedReps(before) + if Accepted(GateAfter(before), e) then [(e.href, e.rep)] else []
  }

  lemma AcceptedRepsStep(events: seq<GateEvent>)
    requires events != []
    ensures var before := events[..|events| - 1];
      var e := events[|events| - 1];
      if Accepted(GateAfter(before), e)
      then AcceptedReps(events) != [] && AcceptedReps(events)[|AcceptedReps(events)| - 1] == (e.href, e.rep)
           && AcceptedReps(events)[..|AcceptedReps(events)| - 1] == AcceptedReps(before)
      else AcceptedReps(events) == AcceptedReps(before)
  {
  }

  // The value a field has in the last of `reps` for `href` that carried it.
  function LastCarried(reps: seq<(Href, Rep)>, href: Href, field: string): Option<Value> {
    if reps == [] then None
    else
      var (h, rep) := reps[|reps| - 1];
      if h == href && field in rep then Some(rep[field]) else LastCarried(reps[..|reps| - 1], href, field)
  }

  function LastRep(reps: seq<(Href, Rep)>, href: Href): Option<Rep> {
    if reps == [] then None
    else if reps[|reps| - 1].0 == href then Some(reps[|reps| - 1].1)
    else LastRep(reps[..|reps| - 1], href)
  }

  function CachedField(cache: map<Href, Rep>, href: Href, field: string): Option<Value> {
    if href in cache && field in cache[href] then Some(cache[href][field]) else None
  }

  // A settle window that holds updates back.
  predicate HeldBack(g: Gate, href: Href, source: Source, now: Time) {
    source != Optimistic && href in g.settle && now < g.settle[href]
  }

  // An alarms rep, by the text of its href.
  ghost predicate NamesAlarms(href: Href) {
    exists head: string, index: string :: '/' !in index && href == (head + "/alarms/vs") + "/" + index
  }

  lemma AlarmsByText(href: Href)
    ensures IsAlarmsHref(href) <==> NamesAlarms(href)
  {
    var i := LastIndex(href, '/');
    if IsAlarmsHref(href) {
      var before, suffix := BeforeLast(href, '/'), "/alarms/vs";
      assert before == before[..|before| - |suffix|] + suffix;
      assert href == before + "/" + href[i + 1..];
    }
    if head: string, index: string :| '/' !in index && href == (head + "/alarms/vs") + "/" + index {
      LastIndexOfJoin(head + "/alarms/vs", '/', index);
      assert href == (head + "/alarms/vs") + ['/'] + index;
    }
  }

  function FieldOf(rep: Rep, f: string): Option<Value> {
    if f in rep then Some(rep[f]) else None
  }

  // A field after an update that was let in: an alarms href is replaced, any other keeps what the
  // update does not carry, and the option array of a push is merged where both have one.
  ghost predicate Updated(alarms: bool, rep: Rep, push: bool, f: string, was: Option<Value>, now: Option<Value>) {
    if f !in rep then now == if alarms then None else was
    else if f == "x.com.samsung.da.options" && push && rep[f].List? && was.Some? && was.value.List? then
      now == Some(List(MergeOptions(was.value.items, rep[f].items)))
    else now == Some(rep[f])
  }

  lemma MergedReads(href: Href, prior: Rep, rep: Rep, source: Source, f: string)
    ensures Updated(IsAlarmsHref(href), rep, source == Notify, f,
                    FieldOf(prior, f), FieldOf(Merged(href, prior, rep, source), f))
  {
  }

  lemma ArrivalReads(g: Gate, href: Href, rep: Rep, source: Source, now: Time, h: Href)
    ensures var after := GateStep(g, Arrives(href, rep, source, now)).cache;
      if HeldBack(g, href, source, now) then after == g.cache
      else Prior(after, h) == if h == href then Merged(href, Prior(g.cache, h), rep, source) else Prior(g.cache, h)
  {
  }

  lemma CachedIsPrior(cache: map<Href, Rep>, h: Href, f: string)
    ensures CachedField(cache, h, f) == FieldOf(Prior(cache, h), f)
  {
  }

  /** What an update leaves in the cache: nothing new inside a window, unless it is a write's own, and
      nothing new on another href; else each field updated. */
  lemma UpdateReads(g: Gate, href: Href, rep: Rep, source: Source, now: Time, h: Href, f: string)
    ensures var after := GateStep(g, Arrives(href, rep, source, now)).cache;
      var was, left := CachedField(g.cache, h, f), CachedField(after, h, f);
      && (HeldBack(g, href, source, now) ==> after == g.cache)
      && (HeldBack(g, href, source, now) || h != href ==> left == was)
      && (!HeldBack(g, href, source, now) && h == href ==>
            Updated(NamesAlarms(href), rep, source == Notify, f, was, left))
  {
    AlarmsByText(href);
    ArrivalReads(g, href, rep, source, now, h);
    MergedReads(href, Prior(g.cache, h), rep, source, f);
    CachedIsPrior(g.cache, h, f);
    CachedIsPrior(GateStep(g, Arrives(href, rep, source, now)).cache, h, f);
  }

  /** And what it leaves of the windows: those there were, its own forgotten if it has run out, unless
      the update is a write's. */
  lemma UpdateSettles(g: Gate, href: Href, rep: Rep, source: Source, now: Time, h: Href)
    ensures var after := GateStep(g, Arrives(href, rep, source, now)).settle;
      && (h in after <==> h in g.settle && !(source != Optimistic && h == href && now >= g.settle[h]))
      && (h in after ==> after[h] == g.settle[h])
  {
  }

  /** A window is over exactly from its deadline on, and a look at it then forgets it. */
  lemma PeekReads(g: Gate, href: Href, now: Time, h: Href)
    ensures var after := GateStep(g, Peeked(href, now)).settle;
      && (h in after <==> h in g.settle && !(h == href && now >= g.settle[h]))
      && (h in after ==> after[h] == g.settle[h])
  {
  }

  lemma StepCachesField(g: Gate, e: GateEvent, href: Href, field: string)
    requires !IsAlarmsHref(href) && field != OPTIONS_FIELD
    ensures CachedField(GateStep(g, e).cache, href, field) ==
            if Accepted(g, e) && e.href == href && field in e.rep then Some(e.rep[field])
            else CachedField(g.cache, href, field)
  {
  }

  /** The guarded cache refines last-writer-wins: whatever arrives in whatever order, a field on
      an ordinary href is the one of the last accepted rep that carried it. */
  lemma {:induction false} CacheIsLastWriter(events: seq<GateEvent>, href: Href, field: string)
    requires !IsAlarmsHref(href) && field != OPTIONS_FIELD
    ensures CachedField(GateAfter(events).cache, href, field) == LastCarried(AcceptedReps(events), href, field)
  {
    if events != [] {
      var before := events[..|events| - 1];
      var e := events[|events| - 1];
      CacheIsLastWriter(before, href, field);
      StepCachesField(GateAfter(before), e, href, field);
      AcceptedRepsStep(events);
    }
  }

  // A rep up to the option array, which a notify may have merged into the one before.
  predicate SameButOptions(rep: Rep, last: Rep) {
    rep.Keys == last.Keys && rep - {OPTIONS_FIELD} == last - {OPTIONS_FIELD}
  }

  lemma StepReplacesAlarm(g: Gate, e: GateEvent, href: Href)
    requires IsAlarmsHref(href)
    ensures var cache := GateStep(g, e).cache;
      if Accepted(g, e) && e.href == href then href in cache && SameButOptions(cache[href], e.rep)
      else (href in cache <==> href in g.cache) && (href in cache ==> cache[href] == g.cache[href])
  {
  }

  /** An alarms href is the last accepted rep, so a cleared alarm is not kept alive by a merge. */
  lemma {:induction false} AlarmsAreLastRep(events: seq<GateEvent>, href: Href)
    requires IsAlarmsHref(href)
    ensures var last := LastRep(AcceptedReps(events), href);
      && (href in GateAfter(events).cache <==> last.Some?)
      && (last.Some? ==> SameButOptions(GateAfter(events).cache[href], last.value))
  {
    if events != [] {
      var before := events[..|events| - 1];
      var e := events[|events| - 1];
      AlarmsAreLastRep(before, href);
      StepReplacesAlarm(GateAfter(before), e, href);
      AcceptedRepsStep(events);
    }
  }

  /** Inside a window nothing but an optimistic write touches the cache of that href. */
  lemma WindowHolds(g: Gate, e: GateEvent, href: Href)
    requires Settling(g.settle, href, e.now)
    requires !(e.Arrives? && e.href == href && e.source == Optimistic)
    ensures Prior(GateStep(g, e).cache, href) == Prior(g.cache, href)
    ensures href in g.cache <==> href in GateStep(g, e).cache
  {
  }

  function WindowOf(settle: map<Href, Time>, href: Href): Option<Time> {
    if href in settle then Some(settle[href]) else None
  }

  // ---------------------------------------------------------------------
  // Which subscribed hrefs really push
  // ---------------------------------------------------------------------

  datatype Coverage = Coverage(
    mode: Mode,
    subscribed: set<Href>,
    notified: set<Href>,
    fallback: set<Href>,
    stale: map<Href, nat>,
    attempting: set<Href>
  )

  function BurstCoverage(c: Coverage, hrefs: set<Href>): Coverage {
    c.(notified := {}, attempting := hrefs)
  }

  function EnteredCoverage(c: Coverage, subscribed: set<Href>): Coverage {
    Coverage(ObserveMode, subscribed, c.notified, subscribed - c.notified, map[], {})
  }

  function AbandonedCoverage(c: Coverage): Coverage {
    c.(mode := PollMode, subscribed := {}, attempting := {})
  }

  function DowngradedCoverage(c: Coverage): Coverage {
    c.(mode := PollMode, subscribed := {}, fallback := c.subscribed, stale := map[])
  }

  function PushedCoverage(c: Coverage, href: Href): Coverage {
    c.(notified := c.notified + {href}, fallback := c.fallback - {href}, stale := c.stale - {href})
  }

  function Misses(stale: map<Href, nat>, href: Href): nat {
    if href in stale then stale[href] else 0
  }

  // A safety-net sweep found `clean` up to date and `dirty` out of date; hrefs in neither were
  // absent, settling or not cached.
  function SweptCoverage(c: Coverage, clean: set<Href>, dirty: set<Href>): Coverage {
    if c.mode != ObserveMode then c
    else
      c.(stale := map h | h in c.stale.Keys + (c.subscribed * dirty) && h !in c.subscribed * clean ::
                    Misses(c.stale, h) + if h in c.subscribed * dirty then 1 else 0,
         fallback := c.fallback +
           set h | h in c.subscribed * dirty && Misses(c.stale, h) + 1 >= STALE_SWEEPS_TO_FALLBACK)
  }

  // `len(notified & subscribed) / len(subscribed) >= 0.8`, on a non-empty set.
  predicate Quorum(notified: set<Href>, subscribed: set<Href>) {
    subscribed != {} && 5 * |notified * subscribed| >= 4 * |subscribed|
  }

  // An attempt between its burst and its commit: what it subscribed, how many accepted pushes
  // there had been when its burst began, and, once its wait succeeded, how many bursts.
  datatype Attempt = Attempt(subscribed: set<Href>, began: nat, reachedAt: Option<nat>)

  // The manager together with the history of accepted pushes.
  datatype Watch = Watch(
    coverage: Coverage,
    attempts: map<nat, Attempt>,
    pushes: seq<Href>,
    lastBurst: nat,
    bursts: nat,
    began: nat
  )

  datatype WatchEvent =
    | Burst(id: nat, hrefs: set<Href>, took: set<Href>)
    | Reached(id: nat)
    | Entered(id: nat)
    | Abandoned(id: nat)
    | Downgraded
    | Pushed(href: Href)
    | Swept(clean: set<Href>, dirty: set<Href>)

  predicate CanHappen(w: Watch, e: WatchEvent) {
    match e
    case Burst(id, hrefs, took) => id !in w.attempts && took <= hrefs
    case Reached(id) => id in w.attempts && Quorum(w.coverage.notified, w.attempts[id].subscribed)
    case Entered(id) => id in w.attempts && w.attempts[id].reachedAt.Some?
    case Abandoned(_) => true
    case Downgraded => true
    case Pushed(_) => true
    case Swept(clean, dirty) => clean !! dirty
  }

  function WatchStep(w: Watch, e: WatchEvent): Watch
    requires CanHappen(w, e)
  {
    match e
    case Burst(id, hrefs, took) =>
      w.(coverage := BurstCoverage(w.coverage, hrefs),
         attempts := w.attempts[id := Attempt(took, |w.pushes|, None)],
         lastBurst := |w.pushes|,
         bursts := w.bursts + 1)
    case Reached(id) =>
      w.(attempts := w.attempts[id := w.attempts[id].(reachedAt := Some(w.bursts))])
    case Entered(id) =>
      w.(coverage := EnteredCoverage(w.coverage, w.attempts[id].subscribed),
         attempts := w.attempts - {id},
         began := w.attempts[id].began)
    case Abandoned(id) =>
      w.(coverage := AbandonedCoverage(w.coverage), attempts := w.attempts - {id})
    case Downgraded => w.(coverage := DowngradedCoverage(w.coverage))
    case Pushed(href) =>
      w.(coverage := PushedCoverage(w.coverage, href), pushes := w.pushes + [href])
    case Swept(clean, dirty) => w.(coverage := SweptCoverage(w.coverage, clean, dirty))
  }

  const InitialWatch := Watch(Coverage(PollMode, {}, {}, {}, map[], {}), map[], [], 0, 0, 0)

  ghost predicate WatchRun(w: Watch, events: seq<WatchEvent>, w': Watch)
    decreases |events|
  {
    if events == [] then w' == w
    else CanHappen(w, events[0]) && WatchRun(WatchStep(w, events[0]), events[1..], w')
  }

  predicate PushedSince(pushes: seq<Href>, from: nat, href: Href) {
    exists i :: from <= i < |pushes| && pushes[i] == href
  }

  ghost predicate Covered(w: Watch) {
    && w.began <= |w.pushes|
    && w.coverage.fallback <= w.coverage.subscribed
    && (forall h | h in w.coverage.subscribed - w.coverage.fallback :: PushedSince(w.pushes, w.began, h))
    && (forall h | h in w.coverage.stale && h in w.coverage.subscribed ::
          w.coverage.stale[h] >= STALE_SWEEPS_TO_FALLBACK ==> h in w.coverage.fallback)
  }

  ghost predicate AttemptsTracked(w: Watch) {
    && (forall id | id in w.attempts :: w.attempts[id].began <= w.lastBurst)
    && (forall id | id in w.attempts && w.attempts[id].reachedAt == Some(w.bursts) ::
          Quorum(w.coverage.notified, w.attempts[id].subscribed))
    && (forall id | id in w.attempts && w.attempts[id].reachedAt.Some? ::
          w.attempts[id].reachedAt.value <= w.bursts && w.attempts[id].subscribed != {})
  }

  ghost predicate WatchInv(w: Watch) {
    && w.lastBurst <= |w.pushes|
    && (forall h | h in w.coverage.notified :: PushedSince(w.pushes, w.lastBurst, h))
    && AttemptsTracked(w)
    && (w.coverage.mode == ObserveMode ==> Covered(w))
  }

  lemma QuorumGrows(notified: set<Href>, more: set<Href>, subscribed: set<Href>)
    requires Quorum(notified, subscribed) && notified <= more
    ensures Quorum(more, subscribed)
  {
    SubsetSize(notified * subscribed, more * subscribed);
  }

  lemma SubsetSize<T>(a: set<T>, b: set<T>)
    requires a <= b
    ensures |a| <= |b|
  {
    assert b == a + (b - a);
  }

  lemma PushKeepsWatchInv(w: Watch, href: Href)
    requires WatchInv(w)
    ensures WatchInv(WatchStep(w, Pushed(href)))
  {
    var w' := WatchStep(w, Pushed(href));
    assert w'.pushes[|w.pushes|] == href;
    forall h, from: nat | PushedSince(w.pushes, from, h) ensures PushedSince(w'.pushes, from, h) {
      var i :| from <= i < |w.pushes| && w.pushes[i] == h;
      assert w'.pushes[i] == h;
    }
    forall id | id in w'.attempts && w'.attempts[id].reachedAt == Some(w'.bursts)
      ensures Quorum(w'.coverage.notified, w'.attempts[id].subscribed)
    {
      QuorumGrows(w.coverage.notified, w'.coverage.notified, w.attempts[id].subscribed);
    }
  }

  lemma BurstKeepsWatchInv(w: Watch, id: nat, hrefs: set<Href>, took: set<Href>)
    requires WatchInv(w) && CanHappen(w, Burst(id, hrefs, took))
    ensures WatchInv(WatchStep(w, Burst(id, hrefs, took)))
  {
    var w' := WatchStep(w, Burst(id, hrefs, took));
    assert AttemptsTracked(w');
  }

  lemma EnterKeepsWatchInv(w: Watch, id: nat)
    requires WatchInv(w) && CanHappen(w, Entered(id))
    ensures WatchInv(WatchStep(w, Entered(id)))
  {
    var w' := WatchStep(w, Entered(id));
    forall h | h in w'.coverage.subscribed - w'.coverage.fallback ensures PushedSince(w'.pushes, w'.began, h) {
      assert h in w.coverage.notified;
      var i :| w.lastBurst <= i < |w.pushes| && w.pushes[i] == h;
    }
  }

  lemma SweepKeepsWatchInv(w: Watch, clean: set<Href>, dirty: set<Href>)
    requires WatchInv(w) && clean !! dirty
    ensures WatchInv(WatchStep(w, Swept(clean, dirty)))
  {
  }

  lemma WatchStepKeepsInv(w: Watch, e: WatchEvent)
    requires WatchInv(w) && CanHappen(w, e)
    ensures WatchInv(WatchStep(w, e))
  {
    match e
    case Burst(id, hrefs, took) => BurstKeepsWatchInv(w, id, hrefs, took);
    case Entered(id) => EnterKeepsWatchInv(w, id);
    case Pushed(href) => PushKeepsWatchInv(w, href);
    case Swept(clean, dirty) => SweepKeepsWatchInv(w, clean, dirty);
    case _ =>
  }

  lemma {:induction false} WatchRunKeepsInv(w: Watch, events: seq<WatchEvent>, w': Watch)
    requires WatchInv(w) && WatchRun(w, events, w')
    ensures WatchInv(w')
    decreases |events|
  {
    if events != [] {
      WatchStepKeepsInv(w, events[0]);
      WatchRunKeepsInv(WatchStep(w, events[0]), events[1..], w');
    }
  }

  /** Over every run of bursts, waits, commits, pushes, sweeps and downgrades, overlapping or
      not: in observe mode the fallback hrefs are subscribed ones, every other subscribed href
      has pushed since the committed attempt's burst, and an href stale on two compared sweeps
      is a fallback one. */
  lemma CoverageHolds(events: seq<WatchEvent>, w: Watch)
    requires WatchRun(InitialWatch, events, w)
    ensures w.coverage.mode == ObserveMode ==> Covered(w)
  {
    WatchRunKeepsInv(InitialWatch, events, w);
  }

  predicate PushedSinceBurst(events: seq<WatchEvent>, href: Href) {
    exists i :: 0 <= i < |events| && events[i] == Pushed(href) && NoBurst(events, i + 1)
  }

  predicate NoBurst(events: seq<WatchEvent>, from: nat) {
    forall i | from <= i < |events| :: !events[i].Burst?
  }

  lemma NoBurstShift(e: WatchEvent, rest: seq<WatchEvent>, from: nat)
    ensures NoBurst([e] + rest, from + 1) <==> NoBurst(rest, from)
  {
    var events := [e] + rest;
    assert forall i | 0 < i < |events| :: events[i] == rest[i - 1];
    if NoBurst(events, from + 1) {
      forall i | from <= i < |rest| ensures !rest[i].Burst? {
        assert events[i + 1] == rest[i];
      }
    }
  }

  lemma NoBurstCons(e: WatchEvent, rest: seq<WatchEvent>)
    ensures NoBurst([e] + rest, 0) <==> !e.Burst? && NoBurst(rest, 0)
  {
    NoBurstShift(e, rest, 0);
    assert ([e] + rest)[0] == e;
  }

  lemma PushedSinceBurstCons(e: WatchEvent, rest: seq<WatchEvent>, href: Href)
    ensures PushedSinceBurst([e] + rest, href) <==>
            PushedSinceBurst(rest, href) || (e == Pushed(href) && NoBurst(rest, 0))
  {
    var events := [e] + rest;
    if PushedSinceBurst(rest, href) {
      var i :| 0 <= i < |rest| && rest[i] == Pushed(href) && NoBurst(rest, i + 1);
      NoBurstShift(e, rest, i + 1);
      assert events[i + 1] == Pushed(href);
    }
    if PushedSinceBurst(events, href) {
      var i :| 0 <= i < |events| && events[i] == Pushed(href) && NoBurst(events, i + 1);
      NoBurstShift(e, rest, i);
      if i > 0 { assert rest[i - 1] == Pushed(href); }
    }
    NoBurstShift(e, rest, 0);
    assert events[0] == e;
  }

  lemma {:induction false} NotifiedOverRun(w: Watch, events: seq<WatchEvent>, w': Watch, href: Href)
    requires WatchRun(w, events, w')
    ensures href in w'.coverage.notified <==>
            PushedSinceBurst(events, href) || (href in w.coverage.notified && NoBurst(events, 0))
    decreases |events|
  {
    if events != [] {
      assert events == [events[0]] + events[1..];
      PushedSinceBurstCons(events[0], events[1..], href);
      NoBurstCons(events[0], events[1..]);
      NotifiedOverRun(WatchStep(w, events[0]), events[1..], w', href);
    }
  }

  /** Over every run the notified hrefs are the ones pushed since the latest burst, whichever
      attempt began it and whichever subscribed to them. */
  lemma NotifiedIsPushedSinceBurst(events: seq<WatchEvent>, w: Watch, href: Href)
    requires WatchRun(InitialWatch, events, w)
    ensures href in w.coverage.notified <==> PushedSinceBurst(events, href)
  {
    NotifiedOverRun(InitialWatch, events, w, href);
  }

  lemma FallbackAtCommit(c: Coverage, subscribed: set<Href>)
    requires subscribed != {}
    ensures 5 * |EnteredCoverage(c, subscribed).fallback| <= |subscribed| <==> Quorum(c.notified, subscribed)
  {
    assert subscribed == (subscribed - c.notified) + (c.notified * subscribed);
  }

  /** In any run a commit leaves at most a fifth of its hrefs on the sub-poll cadence exactly when
      four fifths of them have pushed since the latest burst, its own or a later one. */
  lemma CommitLeavesAFifthIff(events: seq<WatchEvent>, w: Watch, id: nat)
    requires WatchRun(InitialWatch, events, w) && CanHappen(w, Entered(id))
    ensures var c, subscribed := WatchStep(w, Entered(id)).coverage, w.attempts[id].subscribed;
      && c.subscribed == subscribed
      && (5 * |c.fallback| <= |c.subscribed| <==>
          5 * |set h | h in subscribed && PushedSinceBurst(events, h)| >= 4 * |subscribed|)
  {
    var subscribed := w.attempts[id].subscribed;
    WatchRunKeepsInv(InitialWatch, events, w);
    FallbackAtCommit(w.coverage, subscribed);
    forall h | h in subscribed ensures h in w.coverage.notified <==> PushedSinceBurst(events, h) {
      NotifiedIsPushedSinceBurst(events, w, h);
    }
    assert w.coverage.notified * subscribed == set h | h in subscribed && PushedSinceBurst(events, h);
  }

  /** It does when no other burst began after the wait succeeded. */
  lemma QuorumCommitLeavesAFifth(events: seq<WatchEvent>, w: Watch, id: nat)
    requires WatchRun(InitialWatch, events, w) && CanHappen(w, Entered(id))
    requires w.attempts[id].reachedAt == Some(w.bursts)
    ensures var c := WatchStep(w, Entered(id)).coverage;
      c.subscribed != {} && 5 * |c.fallback| <= |c.subscribed|
  {
    WatchRunKeepsInv(InitialWatch, events, w);
    FallbackAtCommit(w.coverage, w.attempts[id].subscribed);
  }

  /** A second burst in between clears the notifications, so the first attempt can commit with
      every href silent: the fifth is not a property of every run. */
  lemma OverlappingBurstsBreakQuorum(href: Href)
    ensures exists events, w :: WatchRun(InitialWatch, events, w) && w.coverage.mode == ObserveMode
              && w.coverage.subscribed == w.coverage.fallback == {href}
  {
    var h := {href};
    var e1, e2, e3, e4, e5 := Burst(1, h, h), Pushed(href), Reached(1), Burst(2, h, h), Entered(1);
    var w1 := WatchStep(InitialWatch, e1);
    var w2 := WatchStep(w1, e2);
    assert w2.coverage.notified * h == h;
    var w3 := WatchStep(w2, e3);
    var w4 := WatchStep(w3, e4);
    var w5 := WatchStep(w4, e5);
    WatchRunCons(w4, e5, [], w5);
    assert [e5] + [] == [e5];
    WatchRunCons(w3, e4, [e5], w5);
    WatchRunCons(w2, e3, [e4] + [e5], w5);
    WatchRunCons(w1, e2, [e3] + ([e4] + [e5]), w5);
    WatchRunCons(InitialWatch, e1, [e2] + ([e3] + ([e4] + [e5])), w5);
  }

  lemma WatchRunCons(w: Watch, e: WatchEvent, rest: seq<WatchEvent>, w': Watch)
    requires CanHappen(w, e) && WatchRun(WatchStep(w, e), rest, w')
    ensures WatchRun(w, [e] + rest, w')
  {
    assert ([e] + rest)[1..] == rest;
  }

  // Nothing in `events` pushes `href`, finds it clean, or leaves or re-enters observe mode.
  predicate KeepsSuspicion(e: WatchEvent, href: Href) {
    match e
    case Entered(_) => false
    case Abandoned(_) => false
    case Downgraded => false
    case Pushed(h) => h != href
    case Swept(clean, _) => href !in clean
    case _ => true
  }

  lemma {:induction false} SuspicionLasts(w: Watch, events: seq<WatchEvent>, w': Watch, href: Href)
    requires WatchRun(w, events, w') && w.coverage.mode == ObserveMode && href in w.coverage.subscribed
    requires forall i | 0 <= i < |events| :: KeepsSuspicion(events[i], href)
    ensures w'.coverage.mode == ObserveMode && href in w'.coverage.subscribed
    ensures Misses(w'.coverage.stale, href) >= Misses(w.coverage.stale, href)
    ensures href in w.coverage.fallback ==> href in w'.coverage.fallback
    decreases |events|
  {
    if events != [] {
      var e := events[0];
      assert KeepsSuspicion(e, href);
      SuspicionLasts(WatchStep(w, e), events[1..], w', href);
    }
  }

  /** One sweep that disagrees does not put an href back on the sub-poll cadence. */
  lemma OneStaleSweepSpares(c: Coverage, clean: set<Href>, dirty: set<Href>, href: Href)
    requires href !in c.fallback && href !in c.stale
    ensures href !in SweptCoverage(c, clean, dirty).fallback
  {
  }

  /** Two compared sweeps that disagree on a subscribed href, with no push of it in between and
      none finding it clean, put it back on the sub-poll cadence whatever else happens. */
  lemma TwoStaleSweepsDemote(
    w: Watch, clean: set<Href>, dirty: set<Href>, between: seq<WatchEvent>, w': Watch,
    clean': set<Href>, dirty': set<Href>, href: Href)
    requires w.coverage.mode == ObserveMode && href in w.coverage.subscribed
    requires clean !! dirty && clean' !! dirty' && href in dirty && href in dirty'
    requires WatchRun(WatchStep(w, Swept(clean, dirty)), between, w')
    requires forall i | 0 <= i < |between| :: KeepsSuspicion(between[i], href)
    ensures href in WatchStep(w', Swept(clean', dirty')).coverage.fallback
  {
    SuspicionLasts(WatchStep(w, Swept(clean, dirty)), between, w', href);
  }

  // ---------------------------------------------------------------------
  // The manager
  // ---------------------------------------------------------------------

  // Fields present in both reps whose values differ; the shapes of a batch rep and a direct
  // one may differ without the content doing so.
  function RepDiff(cached: Rep, sweep: Rep): map<string, (Value, Value)> {
    map f | f in cached.Keys * sweep.Keys && cached[f] != sweep[f] :: (cached[f], sweep[f])
  }

  // A notify filed under the wrong href: both reps name resource types, and not the same ones.
  predicate ResourceTypeMismatch(cached: Rep, rep: Rep) {
    && RESOURCE_TYPE in rep && rep[RESOURCE_TYPE].List?
    && RESOURCE_TYPE in cached && cached[RESOURCE_TYPE].List?
    && (set v | v in rep[RESOURCE_TYPE].items) != (set v | v in cached[RESOURCE_TYPE].items)
  }

  // Both reps list resource types, and one lists a type the other does not.
  predicate OtherType(cached: Rep, rep: Rep) {
    && "rt" in cached && "rt" in rep && cached["rt"].List? && rep["rt"].List?
    && ((exists v :: v in rep["rt"].items && v !in cached["rt"].items)
        || (exists v :: v in cached["rt"].items && v !in rep["rt"].items))
  }

  lemma MismatchIff(cached: Rep, rep: Rep)
    ensures ResourceTypeMismatch(cached, rep) <==> OtherType(cached, rep)
  {
    if "rt" in cached && "rt" in rep && cached["rt"].List? && rep["rt"].List? {
      var a := set v | v in rep["rt"].items;
      var b := set v | v in cached["rt"].items;
      if v :| v in a && v !in b {
        assert v in rep["rt"].items && v !in cached["rt"].items;
      } else if v :| v in b && v !in a {
        assert v in cached["rt"].items && v !in rep["rt"].items;
      } else {
        assert a == b;
        assert forall v :: (v in rep["rt"].items <==> v in a) && (v in cached["rt"].items <==> v in b);
      }
    }
  }

  /** A sweep disagrees with the cache exactly when a field both have differs. */
  lemma DiffIff(cached: Rep, sweep: Rep)
    ensures RepDiff(cached, sweep) != map[] <==> exists f :: f in cached && f in sweep && cached[f] != sweep[f]
  {
    var diff := RepDiff(cached, sweep);
    if f :| f in cached && f in sweep && cached[f] != sweep[f] { assert f in diff; }
    if diff != map[] { var f :| f in diff; }
  }

  predicate Compared(g: Gate, sweep: map<Href, Rep>, href: Href, now: Time) {
    href in sweep && href in g.cache && !Settling(g.settle, href, now)
  }

  function CleanHrefs(g: Gate, subscribed: set<Href>, sweep: map<Href, Rep>, now: Time): set<Href> {
    set h | h in subscribed && Compared(g, sweep, h, now) && RepDiff(g.cache[h], sweep[h]) == map[]
  }

  function DirtyHrefs(g: Gate, subscribed: set<Href>, sweep: map<Href, Rep>, now: Time): set<Href> {
    set h | h in subscribed && Compared(g, sweep, h, now) && RepDiff(g.cache[h], sweep[h]) != map[]
  }

  /** What a sweep tells of a subscribed href: it is compared where both the sweep and the cache have
      it and no window stands, and found stale exactly on a field both carry with different values. */
  lemma SweepTells(g: Gate, subscribed: set<Href>, sweep: map<Href, Rep>, now: Time, h: Href)
    ensures var compared := h in subscribed && h in sweep && h in g.cache && !(h in g.settle && now < g.settle[h]);
      && (h in DirtyHrefs(g, subscribed, sweep, now) <==>
            compared && exists f :: f in g.cache[h] && f in sweep[h] && g.cache[h][f] != sweep[h][f])
      && (h in CleanHrefs(g, subscribed, sweep, now) <==> compared && h !in DirtyHrefs(g, subscribed, sweep, now))
  {
    if h in g.cache && h in sweep { DiffIff(g.cache[h], sweep[h]); }
  }

  class Manager {
    var cache: map<Href, Rep>
    var settle: map<Href, Time>
    var mode: Mode
    var subscribed: set<Href>
    var notified: set<Href>
    var fallback: set<Href>
    var stale: map<Href, nat>
    var attempting: set<Href>

    function GateOf(): Gate
      reads this
    {
      Gate(cache, settle)
    }

    function CoverageOf(): Coverage
      reads this
    {
      Coverage(mode, subscribed, notified, fallback, stale, attempting)
    }

    constructor ()
      ensures GateOf() == Gate(map[], map[]) && CoverageOf() == InitialWatch.coverage
    {
      cache, settle, mode := map[], map[], PollMode;
      subscribed, notified, fallback, stale, attempting := {}, {}, {}, map[], {};
    }

    method MarkWritePending(href: Href, settleFor: Time, now: Time) returns (deadline: Time)
      modifies this`settle
      ensures GateOf() == GateStep(old(GateOf()), Armed(href, settleFor, now))
      ensures deadline == now + settleFor
    {
      deadline := now + settleFor;
      settle := settle[href := deadline];
    }

    method SettleDeadline(href: Href) returns (deadline: Option<Time>)
      ensures deadline == WindowOf(settle, href)
    {
      return if href in settle then Some(settle[href]) else None;
    }

    method RestoreWritePending(href: Href, previous: Option<Time>, armed: Time, now: Time)
      modifies this`settle
      ensures GateOf() == GateStep(old(GateOf()), Restored(href, previous, armed, now))
      ensures WindowOf(old(settle), href) != Some(armed) ==> settle == old(settle)
      ensures WindowOf(old(settle), href) == Some(armed) ==>
                WindowOf(settle, href) == if previous.Some? && now < previous.value then previous else None
      ensures forall h | h != href :: WindowOf(settle, h) == WindowOf(old(settle), h)
    {
      if href !in settle || settle[href] != armed {
        return;
      }
      if previous == None || previous.value <= now {
        settle := settle - {href};
      } else {
        settle := settle[href := previous.value];
      }
    }

    method IsSettling(href: Href, now: Time) returns (settling: bool)
      modifies this`settle
      ensures settling <==> href in old(settle) && now < old(settle)[href]
      ensures settle == Purged(old(settle), href, now)
    {
      if href !in settle {
        return false;
      }
      if now >= settle[href] {
        settle := settle - {href};
        return false;
      }
      return true;
    }

    method ApplyRep(href: Href, rep: Rep, source: Source, now: Time) returns (changed: bool)
      modifies this`settle, this`cache
      ensures GateOf() == GateStep(old(GateOf()), Arrives(href, rep, source, now))
      ensures changed ==> Accepted(old(GateOf()), Arrives(href, rep, source, now))
      ensures changed <==> cache != old(cache)
    {
      if source != Optimistic {
        var settling := IsSettling(href, now);
        if settling {
          return false;
        }
      }
      var prior := if href in cache then cache[href] else map[];
      var merged := if IsAlarmsHref(href) then rep else prior + rep;
      if source == Notify && HasOptions(rep) && HasOptions(prior) {
        merged := merged[OPTIONS_FIELD := List(MergeOptions(prior[OPTIONS_FIELD].items, rep[OPTIONS_FIELD].items))];
      }
      assert merged == Merged(href, Prior(cache, href), rep, source);
      changed := Store(href, merged);
    }

    method Store(href: Href, rep: Rep) returns (changed: bool)
      modifies this`cache
      ensures cache == old(cache)[href := rep] && (changed <==> cache != old(cache))
    {
      changed := href !in cache || cache[href] != rep;
      cache := cache[href := rep];
    }

    /** A decoded notification; None is a payload that did not decode to a map. A notify naming
        another resource type is dropped before it counts as this href's push, and so is one that
        belongs to a debug recording alone: `isolating` is a running recording that asks for that. */
    method OnNotification(href: Href, decoded: Option<Rep>, isolating: bool, now: Time)
      modifies this`settle, this`cache, this`notified, this`fallback, this`stale
      ensures var counts := && decoded.Some?
                            && (isolating ==> href in old(subscribed) + old(attempting))
                            && !OtherType(Prior(old(cache), href), decoded.value);
        if counts then
          && GateOf() == GateStep(old(GateOf()), Arrives(href, decoded.value, Notify, now))
          && CoverageOf() == PushedCoverage(old(CoverageOf()), href)
          && notified == old(notified) + {href} && fallback == old(fallback) - {href} && stale == old(stale) - {href}
        else GateOf() == old(GateOf()) && CoverageOf() == old(CoverageOf())
    {
      if isolating && href !in subscribed && href !in attempting {
        return;
      }
      if decoded == None {
        return;
      }
      var cached := if href in cache then cache[href] else map[];
      MismatchIff(cached, decoded.value);
      if ResourceTypeMismatch(cached, decoded.value) {
        return;
      }
      notified := notified + {href};
      fallback := fallback - {href};
      stale := stale - {href};
      var _ := ApplyRep(href, decoded.value, Notify, now);
    }

    /** Registers OBSERVE on every href and returns the ones that took, in any number of
        failures: `raises` are the hrefs whose subscribe raised. */
    method SubscribeHrefs(hrefs: seq<Href>, raises: set<Href>) returns (took: set<Href>)
      modifies this`notified, this`attempting
      ensures CoverageOf() == BurstCoverage(old(CoverageOf()), set h | h in hrefs)
      ensures notified == {} && attempting == (set h | h in hrefs)
      ensures took == (set h | h in hrefs) - raises
    {
      notified := {};
      attempting := set h | h in hrefs;
      took := {};
      for i := 0 to |hrefs|
        invariant took == (set h | h in hrefs[..i]) - raises
      {
        assert hrefs[..i + 1] == hrefs[..i] + [hrefs[i]];
        if hrefs[i] !in raises {
          took := took + {hrefs[i]};
        }
      }
      assert hrefs[..|hrefs|] == hrefs;
    }

    method EnterObserveMode(took: set<Href>)
      modifies this`mode, this`subscribed, this`fallback, this`stale, this`attempting
      ensures CoverageOf() == EnteredCoverage(old(CoverageOf()), took)
      ensures mode == ObserveMode && subscribed == took && fallback == took - notified
      ensures stale == map[] && attempting == {}
    {
      subscribed := took;
      fallback := took - notified;
      stale := map[];
      attempting := {};
      mode := ObserveMode;
    }

    method AbandonObserveAttempt()
      modifies this`mode, this`subscribed, this`attempting
      ensures CoverageOf() == AbandonedCoverage(old(CoverageOf()))
      ensures mode == PollMode && subscribed == attempting == {}
    {
      subscribed := {};
      attempting := {};
      mode := PollMode;
    }

    method DowngradeToPoll()
      modifies this`mode, this`subscribed, this`fallback, this`stale
      ensures CoverageOf() == DowngradedCoverage(old(CoverageOf()))
      ensures mode == PollMode && fallback == old(subscribed) && subscribed == {} && stale == map[]
    {
      fallback := subscribed;
      stale := map[];
      subscribed := {};
      mode := PollMode;
    }

    // One subscribed href against the sweep; `verdict` is None when it was not compared.
    method CompareOne(href: Href, sweep: map<Href, Rep>, now: Time) returns (verdict: Option<bool>)
      modifies this`settle, this`stale, this`fallback
      ensures verdict.Some? <==> Compared(old(GateOf()), sweep, href, now)
      ensures verdict.Some? ==> (verdict.value <==> RepDiff(cache[href], sweep[href]) != map[])
      ensures settle == (if href in sweep then Purged(old(settle), href, now) else old(settle))
      ensures verdict != Some(true) ==> fallback == old(fallback)
      ensures verdict == None ==> stale == old(stale)
      ensures verdict == Some(false) ==> stale == old(stale) - {href}
      ensures verdict == Some(true) ==>
                var misses := Misses(old(stale), href) + 1;
                && stale == old(stale)[href := misses]
                && fallback == if misses >= STALE_SWEEPS_TO_FALLBACK then old(fallback) + {href} else old(fallback)
    {
      if href !in sweep {
        return None;
      }
      var settling := IsSettling(href, now);
      if settling || href !in cache {
        return None;
      }
      var diff := RepDiff(cache[href], sweep[href]);
      if diff == map[] {
        stale := stale - {href};
        return Some(false);
      }
      var misses := Misses(stale, href) + 1;
      stale := stale[href := misses];
      if misses >= STALE_SWEEPS_TO_FALLBACK {
        fallback := fallback + {href};
      }
      return Some(true);
    }

    /** Compares a whole-device sweep with the cache and counts, per subscribed href, the sweeps
        in a row that found it stale. It never changes mode, subscriptions or cache. */
    method LogSweepDiscrepancies(sweep: map<Href, Rep>, now: Time) returns (found: bool)
      modifies this`settle, this`stale, this`fallback
      ensures CoverageOf() == SweptCoverage(old(CoverageOf()),
                CleanHrefs(old(GateOf()), old(subscribed), sweep, now),
                DirtyHrefs(old(GateOf()), old(subscribed), sweep, now))
      ensures found <==> mode == ObserveMode && DirtyHrefs(old(GateOf()), old(subscribed), sweep, now) != {}
      ensures forall h, t | t >= now :: Settling(settle, h, t) <==> Settling(old(settle), h, t)
    {
      if mode != ObserveMode {
        return false;
      }
      ghost var gate, before := GateOf(), CoverageOf();
      ghost var clean, dirty;
      found, clean, dirty := CompareAll(sweep, now);
      SweepAssembled(gate, before, sweep, now, clean, dirty, stale, fallback);
    }

    method CompareAll(sweep: map<Href, Rep>, now: Time)
      returns (found: bool, ghost clean: set<Href>, ghost dirty: set<Href>)
      modifies this`settle, this`stale, this`fallback
      ensures SweepProgress(old(GateOf()), old(CoverageOf()), sweep, now, {}, clean, dirty, settle, stale, fallback)
      ensures found <==> dirty != {}
    {
      found, clean, dirty := false, {}, {};
      ghost var gate, before := GateOf(), CoverageOf();
      var left := subscribed;
      while left != {}
        invariant SweepProgress(gate, before, sweep, now, left, clean, dirty, settle, stale, fallback)
        invariant found <==> dirty != {}
      {
        var href :| href in left;
        var isDirty;
        isDirty, clean, dirty := CompareNext(gate, before, sweep, now, left, clean, dirty, href);
        found := found || isDirty;
        left := left - {href};
      }
    }

    method CompareNext(
      ghost gate: Gate, ghost before: Coverage, sweep: map<Href, Rep>, now: Time,
      ghost left: set<Href>, ghost clean: set<Href>, ghost dirty: set<Href>, href: Href)
      returns (isDirty: bool, ghost clean': set<Href>, ghost dirty': set<Href>)
      requires href in left && cache == gate.cache
      requires SweepProgress(gate, before, sweep, now, left, clean, dirty, settle, stale, fallback)
      modifies this`settle, this`stale, this`fallback
      ensures SweepProgress(gate, before, sweep, now, left - {href}, clean', dirty', settle, stale, fallback)
      ensures dirty' == if isDirty then dirty + {href} else dirty
    {
      ghost var settle0, stale0, fallback0 := settle, stale, fallback;
      var verdict := CompareOne(href, sweep, now);
      SweepProgresses(gate, before, sweep, now, left, clean, dirty, settle0, stale0, fallback0, href, verdict);
      isDirty := verdict == Some(true);
      clean' := if verdict == Some(false) then clean + {href} else clean;
      dirty' := if isDirty then dirty + {href} else dirty;
    }
  }

  predicate Judged(g: Gate, sweep: map<Href, Rep>, now: Time, href: Href, clean: bool, dirty: bool) {
    && (clean <==> Compared(g, sweep, href, now) && RepDiff(g.cache[href], sweep[href]) == map[])
    && (dirty <==> Compared(g, sweep, href, now) && RepDiff(g.cache[href], sweep[href]) != map[])
  }

  // The counters after a sweep that has looked at `clean` and `dirty` so far.
  ghost predicate SweptPointwise(
    c: Coverage, clean: set<Href>, dirty: set<Href>, stale: map<Href, nat>, fallback: set<Href>)
  {
    && (forall h | h !in clean + dirty :: (h in stale <==> h in c.stale) && Misses(stale, h) == Misses(c.stale, h))
    && (forall h | h in clean :: h !in stale)
    && (forall h | h in dirty :: h in stale && stale[h] == Misses(c.stale, h) + 1)
    && (forall h :: h in fallback <==> Demoted(c, dirty, h))
  }

  predicate Demoted(c: Coverage, dirty: set<Href>, h: Href) {
    h in c.fallback || (h in dirty && Misses(c.stale, h) + 1 >= STALE_SWEEPS_TO_FALLBACK)
  }

  lemma SweptDirty(
    c: Coverage, clean: set<Href>, dirty: set<Href>, stale: map<Href, nat>, fallback: set<Href>, href: Href)
    requires SweptPointwise(c, clean, dirty, stale, fallback) && href !in clean + dirty
    ensures var misses := Misses(stale, href) + 1;
      SweptPointwise(c, clean, dirty + {href}, stale[href := misses],
                     if misses >= STALE_SWEEPS_TO_FALLBACK then fallback + {href} else fallback)
  {
    var misses := Misses(stale, href) + 1;
    var stale' := stale[href := misses];
    forall h | h !in clean + (dirty + {href})
      ensures (h in stale' <==> h in c.stale) && Misses(stale', h) == Misses(c.stale, h)
    {
      assert h !in clean + dirty;
    }
  }

  lemma SweptClean(
    c: Coverage, clean: set<Href>, dirty: set<Href>, stale: map<Href, nat>, fallback: set<Href>, href: Href)
    requires SweptPointwise(c, clean, dirty, stale, fallback) && href !in clean + dirty
    ensures SweptPointwise(c, clean + {href}, dirty, stale - {href}, fallback)
  {
    var stale' := stale - {href};
    forall h | h !in clean + {href} + dirty
      ensures (h in stale' <==> h in c.stale) && Misses(stale', h) == Misses(c.stale, h)
    {
      assert h !in clean + dirty;
    }
  }

  ghost predicate SweepProgress(
    g: Gate, c: Coverage, sweep: map<Href, Rep>, now: Time, left: set<Href>, clean: set<Href>, dirty: set<Href>,
    settle: map<Href, Time>, stale: map<Href, nat>, fallback: set<Href>)
  {
    && left <= c.subscribed && clean !! dirty && clean + dirty <= c.subscribed - left
    && (forall h | h in left :: WindowOf(settle, h) == WindowOf(g.settle, h))
    && (forall h, t | t >= now :: Settling(settle, h, t) <==> Settling(g.settle, h, t))
    && (forall h | h in c.subscribed - left :: Judged(g, sweep, now, h, h in clean, h in dirty))
    && SweptPointwise(c, clean, dirty, stale, fallback)
  }

  lemma PurgeKeepsWindows(settle0: map<Href, Time>, settle: map<Href, Time>, left: set<Href>, href: Href, now: Time)
    requires forall h | h in left :: WindowOf(settle, h) == WindowOf(settle0, h)
    requires forall h, t | t >= now :: Settling(settle, h, t) <==> Settling(settle0, h, t)
    ensures forall h | h in left - {href} :: WindowOf(Purged(settle, href, now), h) == WindowOf(settle0, h)
    ensures forall h, t | t >= now :: Settling(Purged(settle, href, now), h, t) <==> Settling(settle0, h, t)
  {
  }

  // One more href judged.
  lemma JudgedGrows(
    g: Gate, c: Coverage, sweep: map<Href, Rep>, now: Time, left: set<Href>,
    clean: set<Href>, dirty: set<Href>, clean': set<Href>, dirty': set<Href>, href: Href)
    requires forall h | h in c.subscribed - left :: Judged(g, sweep, now, h, h in clean, h in dirty)
    requires clean' - {href} == clean - {href} && dirty' - {href} == dirty - {href}
    requires Judged(g, sweep, now, href, href in clean', href in dirty')
    ensures forall h | h in c.subscribed - (left - {href}) :: Judged(g, sweep, now, h, h in clean', h in dirty')
  {
    forall h | h in c.subscribed - (left - {href}) ensures Judged(g, sweep, now, h, h in clean', h in dirty') {
      if h != href {
        assert h in c.subscribed - left;
        assert h in clean' <==> h in clean' - {href};
        assert h in dirty' <==> h in dirty' - {href};
      }
    }
  }

  // One comparison, as CompareOne reports it, keeps the loop's progress.
  lemma SweepProgresses(
    g: Gate, c: Coverage, sweep: map<Href, Rep>, now: Time, left: set<Href>, clean: set<Href>, dirty: set<Href>,
    settle: map<Href, Time>, stale: map<Href, nat>, fallback: set<Href>, href: Href, verdict: Option<bool>)
    requires SweepProgress(g, c, sweep, now, left, clean, dirty, settle, stale, fallback) && href in left
    requires verdict.Some? <==> Compared(Gate(g.cache, settle), sweep, href, now)
    requires verdict.Some? ==> (verdict.value <==> RepDiff(g.cache[href], sweep[href]) != map[])
    ensures var misses := Misses(stale, href) + 1;
      SweepProgress(g, c, sweep, now, left - {href},
        if verdict == Some(false) then clean + {href} else clean,
        if verdict == Some(true) then dirty + {href} else dirty,
        if href in sweep then Purged(settle, href, now) else settle,
        if verdict == Some(true) then stale[href := misses]
          else if verdict == Some(false) then stale - {href} else stale,
        if verdict == Some(true) && misses >= STALE_SWEEPS_TO_FALLBACK then fallback + {href} else fallback)
  {
    assert WindowOf(settle, href) == WindowOf(g.settle, href);
    assert Compared(Gate(g.cache, settle), sweep, href, now) <==> Compared(g, sweep, href, now);
    if href in sweep { PurgeKeepsWindows(g.settle, settle, left, href, now); }
    var clean' := if verdict == Some(false) then clean + {href} else clean;
    var dirty' := if verdict == Some(true) then dirty + {href} else dirty;
    assert Judged(g, sweep, now, href, href in clean', href in dirty');
    JudgedGrows(g, c, sweep, now, left, clean, dirty, clean', dirty', href);
    if verdict == Some(true) {
      SweptDirty(c, clean, dirty, stale, fallback, href);
    } else if verdict == Some(false) {
      SweptClean(c, clean, dirty, stale, fallback, href);
    }
  }

  lemma CountersAssembled(c: Coverage, clean: set<Href>, dirty: set<Href>, stale: map<Href, nat>, fallback: set<Href>)
    requires c.mode == ObserveMode && clean !! dirty && clean + dirty <= c.subscribed
    requires SweptPointwise(c, clean, dirty, stale, fallback)
    ensures c.(stale := stale, fallback := fallback) == SweptCoverage(c, clean, dirty)
  {
    assert c.subscribed * clean == clean && c.subscribed * dirty == dirty;
    var swept := SweptCoverage(c, clean, dirty);
    assert swept.fallback == fallback;
    forall h ensures h in swept.stale <==> h in stale {
      assert h !in clean + dirty ==> (h in stale <==> h in c.stale);
    }
    forall h | h in stale ensures stale[h] == swept.stale[h] {
      assert h !in clean + dirty ==> Misses(stale, h) == Misses(c.stale, h);
    }
    assert swept.stale == stale;
  }

  lemma SweepAssembled(
    g: Gate, c: Coverage, sweep: map<Href, Rep>, now: Time,
    clean: set<Href>, dirty: set<Href>, stale: map<Href, nat>, fallback: set<Href>)
    requires c.mode == ObserveMode && clean !! dirty && clean + dirty <= c.subscribed
    requires forall h | h in c.subscribed :: Judged(g, sweep, now, h, h in clean, h in dirty)
    requires SweptPointwise(c, clean, dirty, stale, fallback)
    ensures clean == CleanHrefs(g, c.subscribed, sweep, now) && dirty == DirtyHrefs(g, c.subscribed, sweep, now)
    ensures c.(stale := stale, fallback := fallback) == SweptCoverage(c, clean, dirty)
  {
    assert clean == CleanHrefs(g, c.subscribed, sweep, now);
    assert dirty == DirtyHrefs(g, c.subscribed, sweep, now);
    CountersAssembled(c, clean, dirty, stale, fallback);
  }
}
