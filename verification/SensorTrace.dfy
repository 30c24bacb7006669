/**
 What one sensor entity shows over a run of reads: a hold that freezes a value for a while after a
 condition stops matching, and a deadband that swallows small changes.
 */
module SensorTrace {
  import opened Options

  // ---------------------------------------------------------------------
  // The hold
  // ---------------------------------------------------------------------

  // One read: the clock, the live value, whether the arming condition matches and what it would
  // freeze, and whether the bypass condition matches.
  datatype Read<V> = Read(now: int, raw: V, arms: bool, frozen: V, bypasses: bool)

  datatype Hold<V> = Hold(value: V, until: Option<int>, spent: bool)

  // The bypass counts only while the arming condition does not match.
  predicate Bypassed<V>(r: Read<V>) {
    !r.arms && r.bypasses
  }

  function HoldAfter<V>(h: Hold<V>, r: Read<V>, seconds: int): Hold<V> {
    if r.arms then (if h.spent then h else Hold(r.frozen, Some(r.now + seconds), true))
    else if r.bypasses then Hold(h.value, None, false)
    else h
  }

  predicate Holding<V>(h: Hold<V>, now: int) {
    h.until.Some? && now < h.until.value
  }

  function Shown<V>(h: Hold<V>, r: Read<V>, seconds: int): V {
    var after := HoldAfter(h, r, seconds);
    if Bypassed(r) || !Holding(after, r.now) then r.raw else after.value
  }

  function HoldRun<V>(h: Hold<V>, trace: seq<Read<V>>, seconds: int): Hold<V> {
    if trace == [] then h else HoldAfter(HoldRun(h, trace[..|trace| - 1], seconds), trace[|trace| - 1], seconds)
  }

  // A new entity, or one just released.
  predicate Ready<V>(h: Hold<V>) {
    h.until.None? && !h.spent
  }

  // The first read since the last bypass that armed the hold, -1 for none.
  function ArmedAt<V>(trace: seq<Read<V>>): (a: int)
    ensures -1 <= a < |trace|
    ensures a >= 0 ==> trace[a].arms
    ensures forall k | a <= k < |trace| && a >= 0 :: !Bypassed(trace[k])
  {
    if trace == [] then -1
    else
      var last := trace[|trace| - 1];
      var before := ArmedAt(trace[..|trace| - 1]);
      if Bypassed(last) then -1
      else if before >= 0 then before
      else if last.arms then |trace| - 1
      else -1
  }

  ghost predicate BypassAfter<V>(trace: seq<Read<V>>, k: nat, end: nat)
    requires end <= |trace|
  {
    exists b :: k < b < end && Bypassed(trace[b])
  }

  /** That read really is the first: every earlier one that armed was followed by a bypass before
      it, and with none such every one that armed was followed by a bypass. */
  lemma {:induction false} ArmedAtIsFirst<V>(trace: seq<Read<V>>, k: nat)
    requires k < |trace| && trace[k].arms
    ensures var a := ArmedAt(trace);
      if a < 0 then BypassAfter(trace, k, |trace|) else k < a ==> BypassAfter(trace, k, a)
  {
    var before := trace[..|trace| - 1];
    var a := ArmedAt(trace);
    if k < |trace| - 1 {
      ArmedAtIsFirst(before, k);
      if Bypassed(trace[|trace| - 1]) {
        assert BypassAfter(trace, k, |trace|);
      } else {
        var end := if ArmedAt(before) < 0 then |before| else ArmedAt(before);
        if BypassAfter(before, k, end) {
          var b :| k < b < end && Bypassed(before[b]);
          assert Bypassed(trace[b]);
        }
      }
    }
  }

  lemma {:induction false} HoldFollowsArming<V>(h: Hold<V>, trace: seq<Read<V>>, seconds: int)
    requires Ready(h)
    ensures var after := HoldRun(h, trace, seconds);
      var a := ArmedAt(trace);
      && (after.spent <==> a >= 0)
      && after.until == (if a >= 0 then Some(trace[a].now + seconds) else None)
      && (a >= 0 ==> after.value == trace[a].frozen)
  {
    if trace != [] { HoldFollowsArming(h, trace[..|trace| - 1], seconds); }
  }

  /** Every read of every run shows the live value, except within `seconds` of the first arming
      since the last bypass: there it shows what that arming froze. So one window at most opens
      between two bypasses, however often the condition matches again. */
  lemma EveryReadShows<V>(h: Hold<V>, trace: seq<Read<V>>, i: nat, seconds: int)
    requires Ready(h) && i < |trace|
    ensures var a := ArmedAt(trace[..i + 1]);
      Shown(HoldRun(h, trace[..i], seconds), trace[i], seconds) ==
      if a >= 0 && trace[i].now < trace[a].now + seconds then trace[a].frozen else trace[i].raw
  {
    assert trace[..i + 1][..i] == trace[..i];
    HoldFollowsArming(h, trace[..i + 1], seconds);
  }

  // The arming a read falls under.
  function ArmingOf<V>(trace: seq<Read<V>>, i: nat): int
    requires i < |trace|
  {
    ArmedAt(trace[..i + 1])
  }

  predicate HeldAt<V>(trace: seq<Read<V>>, i: nat, seconds: int)
    requires i < |trace|
  {
    var a := ArmingOf(trace, i);
    a >= 0 && trace[i].now < trace[a].now + seconds
  }

  lemma {:induction false} ArmingStays<V>(trace: seq<Read<V>>, i: nat, j: nat)
    requires i <= j < |trace| && ArmingOf(trace, i) >= 0
    requires forall k | i < k <= j :: !Bypassed(trace[k])
    ensures ArmingOf(trace, j) == ArmingOf(trace, i)
    decreases j
  {
    if i < j {
      assert trace[..j + 1][..j] == trace[..j];
      ArmingStays(trace, i, j - 1);
    }
  }

  /** With a clock that never runs back, the held reads between two bypasses are one unbroken
      stretch, shorter than `seconds`, all showing the same value. */
  lemma WindowIsUnbroken<V>(trace: seq<Read<V>>, i: nat, j: nat, seconds: int)
    requires i < j < |trace| && forall p, q | 0 <= p <= q < |trace| :: trace[p].now <= trace[q].now
    requires forall k | i < k <= j :: !Bypassed(trace[k])
    requires ArmingOf(trace, i) >= 0 && HeldAt(trace, j, seconds)
    ensures trace[j].now - trace[i].now < seconds
    ensures forall k | i <= k <= j :: HeldAt(trace, k, seconds) && ArmingOf(trace, k) == ArmingOf(trace, j)
  {
    forall k | i <= k <= j ensures ArmingOf(trace, k) == ArmingOf(trace, j) {
      ArmingStays(trace, i, k);
      ArmingStays(trace, i, j);
    }
  }

  // ---------------------------------------------------------------------
  // The deadband
  // ---------------------------------------------------------------------

  function Distance(a: int, b: int): int {
    if a < b then b - a else a - b
  }

  // What is reported for `raw` after `last` was; it is also what is remembered.
  function Reported(last: Option<int>, raw: Option<int>, threshold: nat): Option<int> {
    if threshold > 0 && raw.Some? && last.Some? && Distance(raw.value, last.value) < threshold then last else raw
  }

  function Reports(raws: seq<Option<int>>, last: Option<int>, threshold: nat): seq<Option<int>> {
    if raws == [] then []
    else
      var before := Reports(raws[..|raws| - 1], last, threshold);
      before + [Reported(if before == [] then last else before[|before| - 1], raws[|raws| - 1], threshold)]
  }

  lemma {:induction false} ReportsAt(raws: seq<Option<int>>, last: Option<int>, threshold: nat, i: nat)
    requires i < |raws|
    ensures var out := Reports(raws, last, threshold);
      && |out| == |raws|
      && out[i] == Reported(if i == 0 then last else out[i - 1], raws[i], threshold)
  {
    var before := Reports(raws[..|raws| - 1], last, threshold);
    ReportsLength(raws[..|raws| - 1], last, threshold);
    if i < |raws| - 1 { ReportsAt(raws[..|raws| - 1], last, threshold, i); }
  }

  lemma {:induction false} ReportsLength(raws: seq<Option<int>>, last: Option<int>, threshold: nat)
    ensures |Reports(raws, last, threshold)| == |raws|
  {
    if raws != [] { ReportsLength(raws[..|raws| - 1], last, threshold); }
  }

  /** Over any run each report is the value itself or repeats the report before it; it is absent
      exactly when the value is, within the threshold of it, and where it does not repeat the one
      before, if there was one, at least the threshold away from it. */
  lemma ReportsAreDeadband(raws: seq<Option<int>>, last: Option<int>, threshold: nat, i: nat)
    requires i < |raws|
    ensures var out := Reports(raws, last, threshold);
      var before := if i == 0 then last else if i - 1 < |out| then out[i - 1] else None;
      && |out| == |raws|
      && (out[i].None? <==> raws[i].None?)
      && (threshold == 0 ==> out[i] == raws[i])
      && (out[i] == raws[i] || out[i] == before)
      && (threshold > 0 && raws[i].Some? ==> 0 - threshold < out[i].value - raws[i].value < threshold)
      && (out[i].Some? && before.Some? && out[i] != before ==>
            out[i].value - before.value >= threshold || before.value - out[i].value >= threshold)
  {
    ReportsAt(raws, last, threshold, i);
  }

  /** Reading the same value again reports the same and remembers the same. */
  lemma RereadChangesNothing(last: Option<int>, raw: Option<int>, threshold: nat)
    ensures Reported(Reported(last, raw, threshold), raw, threshold) == Reported(last, raw, threshold)
  {
  }

  // ---------------------------------------------------------------------
  // The entity
  // ---------------------------------------------------------------------

  /** One sensor's memory of what it last held and reported. */
  class Sensor {
    var hold: Hold<Option<int>>
    var hysteresisValue: Option<int>

    constructor ()
      ensures Ready(hold) && hysteresisValue == None
    {
      hold := Hold(None, None, false);
      hysteresisValue := None;
    }

    /** The live value, or the frozen one within a hold. */
    method ApplySticky(r: Read<Option<int>>, seconds: int) returns (shown: Option<int>)
      modifies `hold
      ensures hold == HoldAfter(old(hold), r, seconds) && shown == Shown(old(hold), r, seconds)
    {
      if r.arms {
        if !hold.spent {
          hold := Hold(r.frozen, Some(r.now + seconds), true);
        }
      } else if r.bypasses {
        hold := hold.(until := None, spent := false);
        return r.raw;
      }
      var holding := hold.until.Some? && r.now < hold.until.value;
      shown := if holding then hold.value else r.raw;
    }

    /** The value, unless it is within the threshold of what was reported last. */
    method ApplyHysteresis(raw: Option<int>, threshold: nat) returns (shown: Option<int>)
      modifies `hysteresisValue
      ensures shown == Reported(old(hysteresisValue), raw, threshold) && hysteresisValue == shown
    {
      if threshold != 0 && raw.Some? && hysteresisValue.Some? {
        if Distance(raw.value, hysteresisValue.value) < threshold {
          return hysteresisValue;
        }
      }
      hysteresisValue := raw;
      shown := raw;
    }

    /** What reading the entity's state gives. */
    method NativeValue(r: Read<Option<int>>, sticky: bool, seconds: int, hysteresis: bool, threshold: nat)
      returns (shown: Option<int>)
      modifies this
      ensures hold == if sticky then HoldAfter(old(hold), r, seconds) else old(hold)
      ensures var raw := if sticky then Shown(old(hold), r, seconds) else r.raw;
        && shown == (if hysteresis then Reported(old(hysteresisValue), raw, threshold) else raw)
        && hysteresisValue == if hysteresis then shown else old(hysteresisValue)
    {
      shown := r.raw;
      if sticky {
        shown := ApplySticky(r, seconds);
      }
      if hysteresis {
        shown := ApplyHysteresis(shown, threshold);
      }
    }
  }
}
