/**
 Binding a snapshot to entities, once per unit, and keeping only the units that turn out to be
 there. Capability tables are parameters: every predicate and value function they hold is
 arbitrary.
 */
module Discovery {
  import opened Dicts
  import opened LegacyEnvelope
  import opened Options
  import opened Seqs
  import opened Subdevices
  import opened Text

  // A snapshot in a unit's own namespace, or the whole one: reps by href.
  type View = Snapshot<Json>

  // An entity description; `meter` marks a running total the appliance keeps.
  datatype Desc = Desc(
    key: string,
    category: Option<string>,
    meter: bool,
    existsFn: Option<(Json, View) -> bool>,
    repValue: Option<Json -> Json>,
    field: Option<string>,
    fieldValue: Json -> Json
  )

  datatype Capability = Capability(
    rtFilter: Option<string>,
    matchFn: Option<(Json, View) -> bool>,
    hrefPrefix: string,
    stripPrefix: bool,
    pollTier: string,
    instanceName: Json -> Option<string>,
    entities: seq<Desc>,
    expand: Option<Json -> seq<(string, Desc)>>
  )

  // One device type: capabilities by canonical href, and patterns tried in order for the rest.
  datatype Registry = Registry(name: string, capabilities: string -> seq<Capability>, patterns: seq<Capability>)

  datatype Bound = Bound(
    href: string,
    desc: Desc,
    instance: string,
    keyOverride: Option<string>,
    instanceName: Option<string>,
    subdevice: Subdevice
  )

  // What discovery produces: entities, the poll tier of every matched href, the coverage gaps.
  datatype Found = Found(bound: seq<Bound>, tiers: seq<(string, string)>, gaps: seq<string>)

  const NOTHING := Found([], [], [])

  function Both(a: Found, b: Found): Found {
    Found(a.bound + b.bound, a.tiers + b.tiers, a.gaps + b.gaps)
  }

  // ---------------------------------------------------------------------
  // One href
  // ---------------------------------------------------------------------

  predicate IsDigits(s: string) {
    s != "" && forall i | 0 <= i < |s| :: '0' <= s[i] <= '9'
  }

  // `s.rstrip("/")`.
  function RStripSlash(s: string): string {
    if s != "" && s[|s| - 1] == '/' then RStripSlash(s[..|s| - 1]) else s
  }

  function LStripSlash(s: string): string {
    if s != "" && s[0] == '/' then LStripSlash(s[1..]) else s
  }

  // Empty for the index-0 instance, else the trailing index.
  function InstanceSuffix(href: string): string {
    var tail := AfterLast(RStripSlash(href), '/');
    if IsDigits(tail) && tail != "0" then "_" + tail else ""
  }

  function Split(s: string, c: char): seq<string>
    decreases |s|
  {
    var i := FirstIndex(s, c);
    if i < 0 then [s] else [s[..i]] + Split(s[i + 1..], c)
  }

  // `"_".join(...)` of the segments that name something.
  function JoinNames(segments: seq<string>): string {
    if segments == [] then ""
    else
      var before := JoinNames(segments[..|segments| - 1]);
      var last := segments[|segments| - 1];
      if last == "" || IsDigits(last) || last == "vs" then before
      else if before == "" then last
      else before + "_" + last
  }

  // The key prefix a pattern capability derives from the href it matched.
  function PatternKey(cap: Capability, href: string): string {
    var stripped := cap.stripPrefix && cap.hrefPrefix != "" && cap.hrefPrefix <= href;
    var src := if stripped then href[|cap.hrefPrefix|..] else href;
    JoinNames(Split(RStripSlash(LStripSlash(src)), '/'))
  }

  predicate Contains(s: string, part: string) {
    part <= s || (s != "" && Contains(s[1..], part))
  }

  predicate HasResourceType(rep: Json, rt: string) {
    var rts := Member(rep, "rt");
    && rts.Some?
    && ((rts.value.JList? && JStr(rt) in rts.value.items) || (rts.value.JStr? && Contains(rts.value.s, rt)))
  }

  // The capability applies to this rep.
  predicate Applies(cap: Capability, rep: Json, view: View) {
    && (cap.rtFilter.Some? ==> HasResourceType(rep, cap.rtFilter.value))
    && (cap.matchFn.Some? ==> cap.matchFn.value(rep, view))
  }

  function Bind(cap: Capability, href: string, rep: Json, prefix: string, su: Subdevice): seq<Bound> {
    seq(|cap.entities|, i requires 0 <= i < |cap.entities| =>
      Bound(ToActual(su, href), cap.entities[i], InstanceSuffix(href),
            if prefix == "" then None else Some(prefix + "_" + cap.entities[i].key), cap.instanceName(rep), su))
  }

  function Expand(cap: Capability, href: string, rep: Json, su: Subdevice): seq<Bound> {
    if cap.expand.None? then []
    else
      var more := cap.expand.value(rep);
      seq(|more|, i requires 0 <= i < |more| =>
        Bound(ToActual(su, href), more[i].1, InstanceSuffix(href), Some(more[i].0 + "_" + more[i].1.key), None, su))
  }

  function ByRegistry(caps: seq<Capability>, href: string, rep: Json, view: View, su: Subdevice): Found {
    if caps == [] then NOTHING
    else
      var before := ByRegistry(caps[..|caps| - 1], href, rep, view, su);
      var cap := caps[|caps| - 1];
      if !Applies(cap, rep, view) then before
      else Both(before,
        Found(Bind(cap, href, rep, "", su) + Expand(cap, href, rep, su), [(ToActual(su, href), cap.pollTier)], []))
  }

  predicate AnyApplies(caps: seq<Capability>, rep: Json, view: View) {
    exists i :: 0 <= i < |caps| && Applies(caps[i], rep, view)
  }

  predicate PatternApplies(cap: Capability, href: string, rep: Json, view: View) {
    cap.hrefPrefix <= href && Applies(cap, rep, view)
  }

  function FirstPattern(patterns: seq<Capability>, href: string, rep: Json, view: View): (r: Option<Capability>)
    ensures r.Some? <==> exists i :: 0 <= i < |patterns| && PatternApplies(patterns[i], href, rep, view)
  {
    if patterns == [] then None
    else if PatternApplies(patterns[0], href, rep, view) then Some(patterns[0])
    else
      var r := FirstPattern(patterns[1..], href, rep, view);
      assert forall i | 0 <= i < |patterns| - 1 :: patterns[1..][i] == patterns[i + 1];
      assert forall i | 0 < i < |patterns| :: patterns[i] == patterns[1..][i - 1];
      r
  }

  function AtHref(reg: Registry, href: string, rep: Json, view: View, su: Subdevice): Found {
    var caps := reg.capabilities(href);
    var pattern := FirstPattern(reg.patterns, href, rep, view);
    if !rep.JObj? then NOTHING
    else if AnyApplies(caps, rep, view) then ByRegistry(caps, href, rep, view, su)
    else if pattern.Some? then
      Found(Bind(pattern.value, href, rep, PatternKey(pattern.value, href), su),
        [(ToActual(su, href), pattern.value.pollTier)], [])
    else if caps == [] then Found([], [], [ToActual(su, href)])
    else NOTHING
  }

  // ---------------------------------------------------------------------
  // Instances
  // ---------------------------------------------------------------------

  // A number, as the last segment of an href.
  predicate IsNumber(tail: string) {
    tail != "" && forall c | c in tail :: c in "0123456789"
  }

  lemma DigitsIff(tail: string)
    ensures IsDigits(tail) <==> IsNumber(tail)
  {
    var digits := "0123456789";
    if IsDigits(tail) {
      forall c | c in tail ensures c in digits {
        var i :| 0 <= i < |tail| && tail[i] == c;
        assert digits[c as int - '0' as int] == c;
      }
    }
    if IsNumber(tail) {
      forall i | 0 <= i < |tail| ensures '0' <= tail[i] <= '9' {
        assert tail[i] in tail && tail[i] in digits;
      }
    }
  }

  lemma NumberHasNoSlash(tail: string)
    requires IsNumber(tail)
    ensures '/' !in tail && tail[|tail| - 1] != '/'
  {
    assert '/' !in "0123456789";
  }

  /** An entity's instance is the number its href ends in, with an underscore, and nothing for 0. */
  lemma InstanceOfNumber(head: string, tail: string)
    requires IsNumber(tail)
    ensures InstanceSuffix(head + "/" + tail) == if tail == "0" then "" else "_" + tail
  {
    var href := head + "/" + tail;
    DigitsIff(tail);
    NumberHasNoSlash(tail);
    assert href[|href| - 1] == tail[|tail| - 1];
    assert RStripSlash(href) == href == head + ['/'] + tail;
    LastIndexOfJoin(head, '/', tail);
  }

  lemma LastSegment(text: string)
    ensures var tail := AfterLast(text, '/');
      text == tail || exists head :: text == head + "/" + tail
  {
    var i := LastIndex(text, '/');
    if i >= 0 { assert text == text[..i] + "/" + text[i + 1..]; }
  }

  /** And an href that does not end in a number has none. */
  lemma InstanceOfOther(href: string)
    requires InstanceSuffix(href) != ""
    ensures var tail := AfterLast(RStripSlash(href), '/');
      && IsNumber(tail) && tail != "0" && InstanceSuffix(href) == "_" + tail
      && (RStripSlash(href) == tail || exists head :: RStripSlash(href) == head + "/" + tail)
  {
    DigitsIff(AfterLast(RStripSlash(href), '/'));
    LastSegment(RStripSlash(href));
  }

  lemma {:induction false} BoundAtHref(
    caps: seq<Capability>, href: string, rep: Json, view: View, su: Subdevice, b: Bound)
    requires b in ByRegistry(caps, href, rep, view, su).bound
    ensures b.subdevice == su && b.href == ToActual(su, href) && b.instance == InstanceSuffix(href)
  {
    if caps != [] {
      var before := caps[..|caps| - 1];
      if b in ByRegistry(before, href, rep, view, su).bound { BoundAtHref(before, href, rep, view, su, b); }
    }
  }

  // What is bound on an href names the unit, the href as it is on the wire and the instance.
  lemma AtHrefBinds(reg: Registry, href: string, rep: Json, view: View, su: Subdevice, b: Bound)
    requires b in AtHref(reg, href, rep, view, su).bound
    ensures b.subdevice == su && b.href == ToActual(su, href) && b.instance == InstanceSuffix(href)
  {
    var caps := reg.capabilities(href);
    if AnyApplies(caps, rep, view) { BoundAtHref(caps, href, rep, view, su, b); }
  }

  /** Within one unit, one description bound under two numbers of one href never has one key. */
  lemma InstancesHaveOwnKeys(
    reg: Registry, view: View, su: Subdevice, head: string, i: string, j: string, repI: Json, repJ: Json,
    b: Bound, c: Bound)
    requires IsNumber(i) && IsNumber(j) && i != j
    requires b in AtHref(reg, head + "/" + i, repI, view, su).bound
    requires c in AtHref(reg, head + "/" + j, repJ, view, su).bound
    requires b.desc.key == c.desc.key && b.keyOverride == c.keyOverride
    ensures KeyOf(b) != KeyOf(c)
  {
    AtHrefBinds(reg, head + "/" + i, repI, view, su, b);
    AtHrefBinds(reg, head + "/" + j, repJ, view, su, c);
    InstanceOfNumber(head, i);
    InstanceOfNumber(head, j);
    assert ("_" + i)[1..] == i && ("_" + j)[1..] == j;
    KeysDiffer(b, c);
  }

  lemma KeysDiffer(b: Bound, c: Bound)
    requires b.subdevice == c.subdevice && b.instance != c.instance
    requires b.desc.key == c.desc.key && b.keyOverride == c.keyOverride
    ensures KeyOf(b) != KeyOf(c)
  {
    var local := if b.keyOverride.Some? && b.keyOverride.value != "" then b.keyOverride.value else b.desc.key;
    OwnSuffix(local, b.instance, c.instance);
    OwnSuffix(KeyPrefix(b.subdevice), local + b.instance, local + c.instance);
  }

  lemma OwnSuffix(stem: string, a: string, b: string)
    requires a != b
    ensures stem + a != stem + b
  {
    assert (stem + a)[|stem|..] == a && (stem + b)[|stem|..] == b;
  }

  // ---------------------------------------------------------------------
  // What is bound on an href
  // ---------------------------------------------------------------------

  lemma {:induction false} ContainsIff(s: string, part: string)
    ensures Contains(s, part) <==> exists i :: 0 <= i <= |s| && part <= s[i..]
  {
    if part <= s { assert part <= s[0..]; }
    if s != "" {
      ContainsIff(s[1..], part);
      if i :| 0 <= i <= |s| - 1 && part <= s[1..][i..] { assert s[1..][i..] == s[i + 1..]; }
      if i :| 0 <= i <= |s| && part <= s[i..] {
        if i > 0 { assert s[i..] == s[1..][i - 1..]; }
      }
    }
  }

  // A rep lists a resource type: in its `rt` list, or anywhere in the text of its `rt`.
  ghost predicate ListsType(rep: Json, rt: string) {
    && rep.JObj?
    && var at := Lookup(rep.fields, "rt");
       at.Some? && match at.value
                   case JList(items) => JStr(rt) in items
                   case JStr(text) => exists i :: 0 <= i <= |text| && rt <= text[i..]
                   case _ => false
  }

  // A capability takes a rep: it lists the type the capability asks for, if any, and its own
  // condition, if any, holds of it.
  ghost predicate Takes(cap: Capability, rep: Json, view: View) {
    && (cap.rtFilter == None || ListsType(rep, cap.rtFilter.value))
    && (cap.matchFn == None || cap.matchFn.value(rep, view))
  }

  lemma TakesIff(cap: Capability, rep: Json, view: View)
    requires rep.JObj?
    ensures Applies(cap, rep, view) <==> Takes(cap, rep, view)
  {
    if cap.rtFilter.Some? {
      var at := Lookup(rep.fields, "rt");
      if at.Some? && at.value.JStr? { ContainsIff(at.value.s, cap.rtFilter.value); }
    }
  }

  // An entity of a capability, bound on an href of a unit; a pattern's keys begin with what the href
  // names.
  ghost predicate OwnEntity(cap: Capability, href: string, rep: Json, su: Subdevice, prefix: string, b: Bound) {
    exists i: nat ::
      i < |cap.entities|
      && b == Bound(ToActual(su, href), cap.entities[i], InstanceSuffix(href),
                    if |prefix| > 0 then Some(prefix + "_" + cap.entities[i].key) else None, cap.instanceName(rep), su)
  }

  // An entity a capability derives from the rep itself, under a prefix of its own.
  ghost predicate DerivedEntity(cap: Capability, href: string, rep: Json, su: Subdevice, b: Bound) {
    cap.expand.Some? &&
    exists i: nat ::
      i < |cap.expand.value(rep)|
      && var (prefix, desc) := cap.expand.value(rep)[i];
         b == Bound(ToActual(su, href), desc, InstanceSuffix(href), Some(prefix + "_" + desc.key), None, su)
  }

  lemma BindHas(cap: Capability, href: string, rep: Json, su: Subdevice, prefix: string, b: Bound)
    ensures b in Bind(cap, href, rep, prefix, su) <==> OwnEntity(cap, href, rep, su, prefix, b)
  {
    var bound := Bind(cap, href, rep, prefix, su);
    if b in bound {
      var i: nat :| i < |bound| && bound[i] == b;
      assert i < |cap.entities|;
    }
    if OwnEntity(cap, href, rep, su, prefix, b) {
      var i: nat :| && i < |cap.entities|
                    && b == Bound(ToActual(su, href), cap.entities[i], InstanceSuffix(href),
                                  if |prefix| > 0 then Some(prefix + "_" + cap.entities[i].key) else None,
                                  cap.instanceName(rep), su);
      assert bound[i] == b;
    }
  }

  lemma ExpandHas(cap: Capability, href: string, rep: Json, su: Subdevice, b: Bound)
    ensures b in Expand(cap, href, rep, su) <==> DerivedEntity(cap, href, rep, su, b)
  {
    if cap.expand.Some? {
      var more, bound := cap.expand.value(rep), Expand(cap, href, rep, su);
      if b in bound {
        var i: nat :| i < |bound| && bound[i] == b;
        assert more[i] == (more[i].0, more[i].1) && i < |more|;
      }
      if DerivedEntity(cap, href, rep, su, b) {
        var i: nat :| && i < |more|
                      && var (prefix, desc) := more[i];
                         b == Bound(
                           ToActual(su, href), desc, InstanceSuffix(href), Some(prefix + "_" + desc.key), None, su);
        assert bound[i] == b;
      }
    }
  }

  // One registered capability that takes the rep and binds `b`.
  ghost predicate Binds(cap: Capability, href: string, rep: Json, view: View, su: Subdevice, b: Bound) {
    Takes(cap, rep, view) && (OwnEntity(cap, href, rep, su, "", b) || DerivedEntity(cap, href, rep, su, b))
  }

  lemma {:induction false} ByRegistryHas(
    caps: seq<Capability>, href: string, rep: Json, view: View, su: Subdevice, b: Bound)
    requires rep.JObj?
    ensures b in ByRegistry(caps, href, rep, view, su).bound <==>
            exists c :: c in caps && Binds(c, href, rep, view, su, b)
  {
    if caps != [] {
      var before, cap := caps[..|caps| - 1], caps[|caps| - 1];
      assert caps == before + [cap];
      ByRegistryHas(before, href, rep, view, su, b);
      TakesIff(cap, rep, view);
      BindHas(cap, href, rep, su, "", b);
      ExpandHas(cap, href, rep, su, b);
      assert b in ByRegistry(caps, href, rep, view, su).bound <==>
             b in ByRegistry(before, href, rep, view, su).bound || Binds(cap, href, rep, view, su, b);
    }
  }

  // The first pattern whose prefix the href has and that takes the rep.
  ghost predicate FirstTaking(patterns: seq<Capability>, href: string, rep: Json, view: View, i: nat) {
    && i < |patterns| && patterns[i].hrefPrefix <= href && Takes(patterns[i], rep, view)
    && forall j | 0 <= j < i :: !(patterns[j].hrefPrefix <= href && Takes(patterns[j], rep, view))
  }

  lemma {:induction false} FirstPatternIs(patterns: seq<Capability>, href: string, rep: Json, view: View)
    requires rep.JObj?
    ensures var r := FirstPattern(patterns, href, rep, view);
      && (r.Some? ==> exists i: nat :: FirstTaking(patterns, href, rep, view, i) && r.value == patterns[i])
      && (r.None? ==> forall i: nat :: !FirstTaking(patterns, href, rep, view, i))
    decreases |patterns|
  {
    forall i | 0 <= i < |patterns|
      ensures PatternApplies(patterns[i], href, rep, view) <==>
              patterns[i].hrefPrefix <= href && Takes(patterns[i], rep, view)
    {
      TakesIff(patterns[i], rep, view);
    }
    if patterns != [] {
      var rest := patterns[1..];
      assert forall i | 0 <= i < |rest| :: rest[i] == patterns[i + 1];
      FirstPatternIs(rest, href, rep, view);
      if PatternApplies(patterns[0], href, rep, view) {
        assert FirstTaking(patterns, href, rep, view, 0);
      } else if FirstPattern(rest, href, rep, view).Some? {
        var i: nat :| FirstTaking(rest, href, rep, view, i) && FirstPattern(rest, href, rep, view).value == rest[i];
        assert forall j | 0 < j <= i :: patterns[j] == rest[j - 1];
        assert FirstTaking(patterns, href, rep, view, i + 1);
      }
    }
  }

  lemma OneFirst(patterns: seq<Capability>, href: string, rep: Json, view: View)
    ensures forall i: nat, j: nat ::
              FirstTaking(patterns, href, rep, view, i) && FirstTaking(patterns, href, rep, view, j) ==> i == j
  {
  }

  // What is bound on an href: the entities of every registered capability that takes its rep, and
  // those it derives; where none does, the entities of the first pattern that takes it, under what the
  // href names.
  ghost predicate BoundOn(reg: Registry, href: string, rep: Json, view: View, su: Subdevice, b: Bound) {
    var caps := reg.capabilities(href);
    rep.JObj? &&
    if exists c :: c in caps && Takes(c, rep, view) then exists c :: c in caps && Binds(c, href, rep, view, su, b)
    else exists i: nat ::
      FirstTaking(reg.patterns, href, rep, view, i)
      && OwnEntity(reg.patterns[i], href, rep, su, PatternKey(reg.patterns[i], href), b)
  }

  lemma BoundIff(reg: Registry, href: string, rep: Json, view: View, su: Subdevice, b: Bound)
    ensures b in AtHref(reg, href, rep, view, su).bound <==> BoundOn(reg, href, rep, view, su, b)
  {
    if rep.JObj? {
      AnyTakesIff(reg.capabilities(href), rep, view);
      ByRegistryHas(reg.capabilities(href), href, rep, view, su, b);
      FirstPatternIs(reg.patterns, href, rep, view);
      var pattern := FirstPattern(reg.patterns, href, rep, view);
      if pattern.Some? {
        BindHas(pattern.value, href, rep, su, PatternKey(pattern.value, href), b);
        OneFirst(reg.patterns, href, rep, view);
      }
    }
  }

  lemma AnyTakesIff(caps: seq<Capability>, rep: Json, view: View)
    requires rep.JObj?
    ensures AnyApplies(caps, rep, view) <==> exists c :: c in caps && Takes(c, rep, view)
  {
    if AnyApplies(caps, rep, view) {
      var i :| 0 <= i < |caps| && Applies(caps[i], rep, view);
      TakesIff(caps[i], rep, view);
      assert caps[i] in caps;
    }
    if c :| c in caps && Takes(c, rep, view) {
      TakesIff(c, rep, view);
      var i :| 0 <= i < |caps| && caps[i] == c;
    }
  }

  // The poll tier of a matched href, once for every capability that takes it.
  ghost predicate TierOn(
    reg: Registry, href: string, rep: Json, view: View, su: Subdevice, t: (string, string))
  {
    var caps := reg.capabilities(href);
    rep.JObj? && t.0 == ToActual(su, href) &&
    if exists c :: c in caps && Takes(c, rep, view)
    then exists c :: c in caps && Takes(c, rep, view) && c.pollTier == t.1
    else exists i: nat :: FirstTaking(reg.patterns, href, rep, view, i) && reg.patterns[i].pollTier == t.1
  }

  lemma {:induction false} ByRegistryTiers(
    caps: seq<Capability>, href: string, rep: Json, view: View, su: Subdevice, t: (string, string))
    requires rep.JObj?
    ensures t in ByRegistry(caps, href, rep, view, su).tiers <==>
            t.0 == ToActual(su, href) && exists c :: c in caps && Takes(c, rep, view) && c.pollTier == t.1
  {
    if caps != [] {
      var before, cap := caps[..|caps| - 1], caps[|caps| - 1];
      assert caps == before + [cap];
      ByRegistryTiers(before, href, rep, view, su, t);
      TakesIff(cap, rep, view);
      assert t in ByRegistry(caps, href, rep, view, su).tiers <==>
             t in ByRegistry(before, href, rep, view, su).tiers
             || (Takes(cap, rep, view) && t == (ToActual(su, href), cap.pollTier));
    }
  }

  /** A matched href is polled at the tier of what took it, entities or none. */
  lemma TierIff(reg: Registry, href: string, rep: Json, view: View, su: Subdevice, t: (string, string))
    ensures t in AtHref(reg, href, rep, view, su).tiers <==>
            TierOn(reg, href, rep, view, su, t)
  {
    if rep.JObj? {
      AnyTakesIff(reg.capabilities(href), rep, view);
      ByRegistryTiers(reg.capabilities(href), href, rep, view, su, t);
      FirstPatternIs(reg.patterns, href, rep, view);
      OneFirst(reg.patterns, href, rep, view);
    }
  }

  /** What an href names: its segments that are no number, not `vs` and not empty, in order; without
      the prefix of a pattern that strips it. */
  lemma PatternKeyIs(cap: Capability, href: string)
    ensures PatternKey(cap, href) ==
            NamesOf(if cap.stripPrefix && cap.hrefPrefix <= href then href[|cap.hrefPrefix|..] else href)
  {
    var src := if cap.stripPrefix && cap.hrefPrefix <= href then href[|cap.hrefPrefix|..] else href;
    if cap.hrefPrefix == "" { assert href[|cap.hrefPrefix|..] == href; }
    NamesInside(src);
    NamesBefore(LStripSlash(src));
  }

  function NamesOf(href: string): string {
    JoinNames(Split(href, '/'))
  }

  lemma NamesStep(before: seq<string>, last: string)
    ensures JoinNames([]) == ""
    ensures JoinNames(before + [last]) ==
            if last == "" || IsNumber(last) || last == "vs" then JoinNames(before)
            else if JoinNames(before) == "" then last
            else JoinNames(before) + "_" + last
  {
    assert (before + [last])[..|before|] == before;
    DigitsIff(last);
  }

  lemma {:induction false} EmptyNameFirst(segments: seq<string>)
    ensures JoinNames([""] + segments) == JoinNames(segments)
  {
    if segments == [] {
      assert [""][..0] == [];
    } else {
      var before, last := segments[..|segments| - 1], segments[|segments| - 1];
      assert [""] + segments == ([""] + before) + [last] && segments == before + [last];
      EmptyNameFirst(before);
      NamesStep([""] + before, last);
      NamesStep(before, last);
    }
  }

  lemma {:induction false} NamesInside(s: string)
    ensures NamesOf(LStripSlash(s)) == NamesOf(s)
  {
    if s != "" && s[0] == '/' {
      NamesInside(s[1..]);
      assert s[..0] == "";
      EmptyNameFirst(Split(s[1..], '/'));
    }
  }

  lemma SplitAt(head: string, tail: string)
    requires '/' !in head
    ensures Split(head + "/" + tail, '/') == [head] + Split(tail, '/')
  {
    var s := head + "/" + tail;
    FirstIndexOfJoin(head, '/', tail);
    assert s == head + ['/'] + tail && s[..|head|] == head && s[|head| + 1..] == tail;
  }

  lemma SplitEndStep(head: string, tail: string, s: string)
    requires '/' !in head && s == head + "/" + tail && Split(tail + "/", '/') == Split(tail, '/') + [""]
    ensures Split(s + "/", '/') == Split(s, '/') + [""]
  {
    SplitAt(head, tail);
    SplitAt(head, tail + "/");
    assert s + "/" == head + "/" + (tail + "/");
    Assoc([head], Split(tail, '/'), [""]);
  }

  lemma {:induction false} SplitEnd(s: string)
    ensures Split(s + "/", '/') == Split(s, '/') + [""]
    decreases |s|
  {
    var i := FirstIndex(s, '/');
    if i < 0 {
      SplitAt(s, "");
      assert s + "/" + "" == s + "/";
    } else {
      SplitEnd(s[i + 1..]);
      SplitEndStep(s[..i], s[i + 1..], s);
    }
  }

  lemma {:induction false} NamesBefore(s: string)
    ensures NamesOf(RStripSlash(s)) == NamesOf(s)
  {
    if s != "" && s[|s| - 1] == '/' {
      var shorter := s[..|s| - 1];
      assert s == shorter + "/";
      NamesBefore(shorter);
      SplitEnd(shorter);
      NamesStep(Split(shorter, '/'), "");
    }
  }

  // ---------------------------------------------------------------------
  // One unit
  // ---------------------------------------------------------------------

  function Over(reg: Registry, reps: View, view: View, su: Subdevice): Found {
    if reps == [] then NOTHING
    else
      var (href, rep) := reps[|reps| - 1];
      Both(Over(reg, reps[..|reps| - 1], view, su), AtHref(reg, href, rep, view, su))
  }

  function Discovered(reg: Registry, view: View, su: Subdevice): Found {
    Over(reg, view, view, su)
  }

  /** Bind one unit's canonical view. */
  method Discover(view: View, reg: Registry, su: Subdevice) returns (found: Found)
    ensures found == Discovered(reg, view, su)
    ensures forall b :: b in found.bound <==>
                        exists i :: 0 <= i < |view| && BoundOn(reg, view[i].0, view[i].1, view, su, b)
  {
    forall b { DiscoveredHas(reg, view, su, b, ("", "")); }
    found := NOTHING;
    for i := 0 to |view|
      invariant found == Over(reg, view[..i], view, su)
    {
      var (href, rep) := view[i];
      assert view[..i + 1][..i] == view[..i];
      var here := DiscoverHref(reg, href, rep, view, su);
      found := Both(found, here);
    }
    assert view[..|view|] == view;
  }

  method DiscoverHref(reg: Registry, href: string, rep: Json, view: View, su: Subdevice) returns (found: Found)
    ensures found == AtHref(reg, href, rep, view, su)
    ensures forall b :: b in found.bound <==> BoundOn(reg, href, rep, view, su, b)
    ensures forall t :: t in found.tiers <==> TierOn(reg, href, rep, view, su, t)
    ensures found.gaps == if IsGap(reg, href, rep, view) then [ToActual(su, href)] else []
  {
    HrefHas(reg, href, rep, view, su);
    found := NOTHING;
    if !rep.JObj? {
      return;
    }
    var caps := reg.capabilities(href);
    var matched := false;
    for c := 0 to |caps|
      invariant found == ByRegistry(caps[..c], href, rep, view, su)
      invariant matched <==> AnyApplies(caps[..c], rep, view)
    {
      assert caps[..c + 1][..c] == caps[..c];
      AnyAppliesSnoc(caps, c, rep, view);
      if Applies(caps[c], rep, view) {
        found := Both(found, Found(Bind(caps[c], href, rep, "", su) + Expand(caps[c], href, rep, su),
                                   [(ToActual(su, href), caps[c].pollTier)], []));
        matched := true;
      }
    }
    assert caps[..|caps|] == caps;
    if matched {
      return;
    }
    NoneApplies(caps, href, rep, view, su);
    for p := 0 to |reg.patterns|
      invariant FirstPattern(reg.patterns, href, rep, view) == FirstPattern(reg.patterns[p..], href, rep, view)
    {
      var cap := reg.patterns[p];
      if PatternApplies(cap, href, rep, view) {
        return Found(Bind(cap, href, rep, PatternKey(cap, href), su), [(ToActual(su, href), cap.pollTier)], []);
      }
    }
    if caps == [] {
      found := Found([], [], [ToActual(su, href)]);
    }
  }

  lemma AnyAppliesSnoc(caps: seq<Capability>, c: nat, rep: Json, view: View)
    requires c < |caps|
    ensures AnyApplies(caps[..c + 1], rep, view) <==> AnyApplies(caps[..c], rep, view) || Applies(caps[c], rep, view)
  {
    var more := caps[..c + 1];
    assert more[c] == caps[c] && forall i | 0 <= i < c :: more[i] == caps[..c][i];
  }

  lemma {:induction false} NoneApplies(caps: seq<Capability>, href: string, rep: Json, view: View, su: Subdevice)
    requires !AnyApplies(caps, rep, view)
    ensures ByRegistry(caps, href, rep, view, su) == NOTHING
  {
    if caps != [] {
      var before := caps[..|caps| - 1];
      assert forall i | 0 <= i < |before| :: before[i] == caps[i];
      assert !Applies(caps[|caps| - 1], rep, view);
      NoneApplies(before, href, rep, view, su);
    }
  }

  lemma {:induction false} OverBinds(reg: Registry, reps: View, view: View, su: Subdevice, b: Bound)
    ensures b in Over(reg, reps, view, su).bound <==>
            exists i :: 0 <= i < |reps| && BoundOn(reg, reps[i].0, reps[i].1, view, su, b)
  {
    if reps != [] {
      var before, last := reps[..|reps| - 1], reps[|reps| - 1];
      OverBinds(reg, before, view, su, b);
      BoundIff(reg, last.0, last.1, view, su, b);
      assert forall i | 0 <= i < |before| :: before[i] == reps[i];
      assert b in Over(reg, reps, view, su).bound <==>
             b in Over(reg, before, view, su).bound || b in AtHref(reg, last.0, last.1, view, su).bound;
    }
  }

  lemma {:induction false} OverTiers(reg: Registry, reps: View, view: View, su: Subdevice, t: (string, string))
    ensures t in Over(reg, reps, view, su).tiers <==>
            exists i :: 0 <= i < |reps| && TierOn(reg, reps[i].0, reps[i].1, view, su, t)
  {
    if reps != [] {
      var before, last := reps[..|reps| - 1], reps[|reps| - 1];
      OverTiers(reg, before, view, su, t);
      TierIff(reg, last.0, last.1, view, su, t);
      assert forall i | 0 <= i < |before| :: before[i] == reps[i];
      assert t in Over(reg, reps, view, su).tiers <==>
             t in Over(reg, before, view, su).tiers || t in AtHref(reg, last.0, last.1, view, su).tiers;
    }
  }

  lemma HrefHas(reg: Registry, href: string, rep: Json, view: View, su: Subdevice)
    ensures var found := AtHref(reg, href, rep, view, su);
      && (forall b :: b in found.bound <==> BoundOn(reg, href, rep, view, su, b))
      && (forall t :: t in found.tiers <==> TierOn(reg, href, rep, view, su, t))
      && found.gaps == if IsGap(reg, href, rep, view) then [ToActual(su, href)] else []
  {
    forall b { BoundIff(reg, href, rep, view, su, b); }
    forall t { TierIff(reg, href, rep, view, su, t); }
    GapAtHref(reg, href, rep, view, su);
  }

  /** A unit's discovery is what is bound on the hrefs of its view, each with the whole view to go by,
      and the tiers of those hrefs. */
  lemma DiscoveredHas(reg: Registry, view: View, su: Subdevice, b: Bound, t: (string, string))
    ensures b in Discovered(reg, view, su).bound <==>
            exists i :: 0 <= i < |view| && BoundOn(reg, view[i].0, view[i].1, view, su, b)
    ensures t in Discovered(reg, view, su).tiers <==>
            exists i :: 0 <= i < |view| && TierOn(reg, view[i].0, view[i].1, view, su, t)
  {
    OverBinds(reg, view, view, su, b);
    OverTiers(reg, view, view, su, t);
  }

  // An href of the view is a coverage gap: nothing is registered for it and no pattern takes it.
  predicate IsGap(reg: Registry, href: string, rep: Json, view: View) {
    && rep.JObj? && reg.capabilities(href) == []
    && forall i | 0 <= i < |reg.patterns| :: !PatternApplies(reg.patterns[i], href, rep, view)
  }

  lemma {:induction false} ByRegistryNoGaps(caps: seq<Capability>, href: string, rep: Json, view: View, su: Subdevice)
    ensures ByRegistry(caps, href, rep, view, su).gaps == []
  {
    if caps != [] { ByRegistryNoGaps(caps[..|caps| - 1], href, rep, view, su); }
  }

  lemma GapAtHref(reg: Registry, href: string, rep: Json, view: View, su: Subdevice)
    ensures AtHref(reg, href, rep, view, su).gaps == if IsGap(reg, href, rep, view) then [ToActual(su, href)] else []
  {
    ByRegistryNoGaps(reg.capabilities(href), href, rep, view, su);
  }

  lemma {:induction false} GapsOver(reg: Registry, reps: View, view: View, su: Subdevice, actual: string)
    ensures actual in Over(reg, reps, view, su).gaps <==>
            exists i :: 0 <= i < |reps| && IsGap(reg, reps[i].0, reps[i].1, view) && ToActual(su, reps[i].0) == actual
  {
    if reps != [] {
      var before := reps[..|reps| - 1];
      var last := reps[|reps| - 1];
      GapsOver(reg, before, view, su, actual);
      GapAtHref(reg, last.0, last.1, view, su);
      assert forall i | 0 <= i < |before| :: before[i] == reps[i];
    }
  }

  /** An href is reported as a gap exactly when its rep is there, nothing is registered for it and
      no pattern takes it; a registered capability that declines is never a gap. */
  lemma GapIff(reg: Registry, view: View, su: Subdevice, actual: string)
    ensures actual in Discovered(reg, view, su).gaps <==>
            exists i :: 0 <= i < |view| && IsGap(reg, view[i].0, view[i].1, view) && ToActual(su, view[i].0) == actual
  {
    GapsOver(reg, view, view, su, actual);
  }

  // ---------------------------------------------------------------------
  // Values
  // ---------------------------------------------------------------------

  function RepOf(resources: View, href: string): Json {
    var rep := Lookup(resources, href);
    if rep.None? || !Truthy(rep.value) then JObj([]) else rep.value
  }

  function KeyOf(b: Bound): string {
    EntityKey(b.subdevice,
      (if b.keyOverride.Some? && b.keyOverride.value != "" then b.keyOverride.value else b.desc.key) + b.instance)
  }

  function UnitsOf(bound: seq<Bound>): seq<Subdevice> {
    seq(|bound|, i requires 0 <= i < |bound| => bound[i].subdevice)
  }

  function ValueOf(b: Bound, resources: View, units: seq<Subdevice>): Option<Json> {
    var rep := RepOf(resources, b.href);
    if b.desc.existsFn.Some? && !b.desc.existsFn.value(rep, CanonicalView(b.subdevice, resources, units)) then None
    else if b.desc.repValue.Some? then Some(b.desc.repValue.value(rep))
    else if b.desc.field.Some? && b.desc.field.value != "" then
      var at := Member(rep, b.desc.field.value);
      Some(b.desc.fieldValue(if at.Some? then at.value else JNull))
    else None
  }

  function Flattened(bound: seq<Bound>, resources: View, units: seq<Subdevice>): View {
    if bound == [] then []
    else
      var before := Flattened(bound[..|bound| - 1], resources, units);
      var b := bound[|bound| - 1];
      var value := ValueOf(b, resources, units);
      if value.Some? then Put(before, KeyOf(b), value.value) else before
  }

  /** Bound entities to their current values, building each unit's view once. */
  method Flatten(bound: seq<Bound>, resources: View) returns (out: View)
    ensures out == Flattened(bound, resources, UnitsOf(bound))
    ensures forall key :: FlattenedTo(bound, resources, UnitsOf(bound), key, Lookup(out, key))
  {
    forall key { FlattenedIs(bound, resources, UnitsOf(bound), key); }
    out := [];
    var units := UnitsOf(bound);
    var views: map<Subdevice, View> := map[];
    for i := 0 to |bound|
      invariant out == Flattened(bound[..i], resources, units)
      invariant forall su | su in views :: views[su] == CanonicalView(su, resources, units)
    {
      var b := bound[i];
      assert bound[..i + 1][..i] == bound[..i];
      var rep := RepOf(resources, b.href);
      if b.desc.existsFn.Some? {
        if b.subdevice !in views {
          views := views[b.subdevice := CanonicalView(b.subdevice, resources, units)];
        }
        if !b.desc.existsFn.value(rep, views[b.subdevice]) {
          continue;
        }
      }
      if b.desc.repValue.Some? {
        out := Put(out, KeyOf(b), b.desc.repValue.value(rep));
      } else if b.desc.field.Some? && b.desc.field.value != "" {
        var at := Member(rep, b.desc.field.value);
        out := Put(out, KeyOf(b), b.desc.fieldValue(if at.Some? then at.value else JNull));
      }
    }
    assert bound[..|bound|] == bound;
  }

  // What an entity reads: a function of its whole rep, else of the one field it names; nothing where
  // its rep or its unit says it is not there, or where it reads nothing at all.
  ghost predicate Reads(b: Bound, rep: Json, view: View, value: Option<Json>) {
    var there := b.desc.existsFn == None || b.desc.existsFn.value(rep, view);
    && (!there ==> value == None)
    && (there && b.desc.repValue.Some? ==> value == Some(b.desc.repValue.value(rep)))
    && (there && b.desc.repValue.None? && (b.desc.field.None? || |b.desc.field.value| == 0) ==> value == None)
    && (there && b.desc.repValue.None? && b.desc.field.Some? && |b.desc.field.value| > 0 ==>
          var at := if rep.JObj? then Lookup(rep.fields, b.desc.field.value) else None;
          value == Some(b.desc.fieldValue(if at.None? then JNull else at.value)))
  }

  /** An entity's value is read off what the snapshot holds on its href, an empty map in place of
      nothing, and its presence decided with its own unit's view. */
  lemma ValueReads(b: Bound, resources: View, units: seq<Subdevice>)
    ensures var at := Lookup(resources, b.href);
      Reads(b, if at.Some? && Truthy(at.value) then at.value else JObj([]),
            CanonicalView(b.subdevice, resources, units), ValueOf(b, resources, units))
  {
  }

  // A flattened value: that of the last entity of a key that has one, nothing where none has.
  ghost predicate FlattenedTo(
    bound: seq<Bound>, resources: View, units: seq<Subdevice>, key: string, at: Option<Json>)
  {
    if at.None? then
      forall i | 0 <= i < |bound| && KeyOf(bound[i]) == key :: ValueOf(bound[i], resources, units) == None
    else exists i :: LastValued(bound, resources, units, key, at, i)
  }

  ghost predicate LastValued(
    bound: seq<Bound>, resources: View, units: seq<Subdevice>, key: string, at: Option<Json>, i: int)
  {
    && 0 <= i < |bound| && KeyOf(bound[i]) == key && ValueOf(bound[i], resources, units) == at
    && forall j | i < j < |bound| && KeyOf(bound[j]) == key :: ValueOf(bound[j], resources, units) == None
  }

  lemma FlattenedToSnoc(
    before: seq<Bound>, b: Bound, resources: View, units: seq<Subdevice>, key: string, at: Option<Json>)
    requires FlattenedTo(before, resources, units, key, at)
    ensures var value := ValueOf(b, resources, units);
      FlattenedTo(before + [b], resources, units, key, if KeyOf(b) == key && value.Some? then value else at)
  {
    var bound := before + [b];
    assert bound[|before|] == b && forall i | 0 <= i < |before| :: bound[i] == before[i];
    if KeyOf(b) == key && ValueOf(b, resources, units).Some? {
      assert LastValued(bound, resources, units, key, ValueOf(b, resources, units), |before|);
    } else if at.Some? {
      var i :| LastValued(before, resources, units, key, at, i);
      assert LastValued(bound, resources, units, key, at, i);
    }
  }

  /** Under a key stands the value of the last entity of that key that has one, and nothing where
      none has. */
  lemma {:induction false} FlattenedIs(bound: seq<Bound>, resources: View, units: seq<Subdevice>, key: string)
    ensures FlattenedTo(bound, resources, units, key, Lookup(Flattened(bound, resources, units), key))
  {
    if bound != [] {
      var before, b := bound[..|bound| - 1], bound[|bound| - 1];
      var out, value := Flattened(before, resources, units), ValueOf(b, resources, units);
      assert bound == before + [b];
      FlattenedIs(before, resources, units, key);
      FlattenedToSnoc(before, b, resources, units, key, Lookup(out, key));
      if value.Some? { PutLookup(out, KeyOf(b), value.value, key); }
    }
  }

  /** A key is the unit's prefix, the description's key or what is given in place of it, and the
      instance. */
  lemma KeyIs(b: Bound)
    ensures b.keyOverride.None? || |b.keyOverride.value| == 0 ==>
              KeyOf(b) == EntityKey(b.subdevice, b.desc.key + b.instance)
    ensures b.keyOverride.Some? && |b.keyOverride.value| > 0 ==>
              KeyOf(b) == EntityKey(b.subdevice, b.keyOverride.value + b.instance)
  {
  }

  // Some primary entity that is no meter has a value: the unit is really there.
  predicate HasLivePrimary(bound: seq<Bound>, state: View) {
    exists i :: 0 <= i < |bound| && IsLivePrimary(bound[i], state)
  }

  predicate IsLivePrimary(b: Bound, state: View) {
    && (b.desc.category.None? || b.desc.category.value == "") && !b.desc.meter
    && Lookup(state, KeyOf(b)).Some? && Lookup(state, KeyOf(b)).value != JNull
  }

  // An entity that speaks for its unit: no diagnostic or configuration one, no meter, and with a
  // value among those of its unit.
  predicate SpeaksForUnit(b: Bound, state: View) {
    var value := Lookup(state, KeyOf(b));
    && (b.desc.category.Some? ==> |b.desc.category.value| == 0) && !b.desc.meter
    && value != None && value != Some(JNull)
  }

  // ---------------------------------------------------------------------
  // All units
  // ---------------------------------------------------------------------

  type Resolver = (View, seq<string>) -> Option<Registry>

  datatype Skipped = Skipped(subdevice: Subdevice, hrefs: set<string>)

  datatype Partition = Partition(found: Found, materialized: seq<Subdevice>, skipped: seq<Skipped>)

  // The two snapshots a discovery works on: what binds, and what decides device types.
  datatype Snapshots = Snapshots(resources: View, typing: View)

  function UnitRegistry(
    s: Snapshots, su: Subdevice, units: seq<Subdevice>, resolve: Resolver, master: Registry): Registry
  {
    var own := resolve(CanonicalView(su, s.typing, units), []);
    if own.Some? then own.value else master
  }

  function UnitFound(s: Snapshots, su: Subdevice, units: seq<Subdevice>, resolve: Resolver, master: Registry): Found {
    Discovered(UnitRegistry(s, su, units, resolve, master), CanonicalView(su, s.resources, units), su)
  }

  predicate IsLive(found: Found, s: Snapshots) {
    HasLivePrimary(found.bound, Flattened(found.bound, s.resources, UnitsOf(found.bound)))
  }

  function HrefsOf(bound: seq<Bound>): set<string> {
    set i | 0 <= i < |bound| :: bound[i].href
  }

  // One candidate's outcome: what it binds, and whether it is really there.
  datatype Outcome = Outcome(unit: Subdevice, found: Found, live: bool)

  function OutcomeOf(s: Snapshots, su: Subdevice, units: seq<Subdevice>, resolve: Resolver, master: Registry): Outcome {
    var found := UnitFound(s, su, units, resolve, master);
    Outcome(su, found, IsLive(found, s))
  }

  function Outcomes(
    s: Snapshots, candidates: seq<Subdevice>, units: seq<Subdevice>, resolve: Resolver, master: Registry): seq<Outcome>
  {
    seq(|candidates|, i requires 0 <= i < |candidates| => OutcomeOf(s, candidates[i], units, resolve, master))
  }

  // A unit that is not there contributes nothing.
  function WithOutcome(p: Partition, o: Outcome): Partition {
    if o.live then Partition(Both(p.found, o.found), p.materialized + [o.unit], p.skipped)
    else p.(skipped := p.skipped + [Skipped(o.unit, HrefsOf(o.found.bound))])
  }

  function Gathered(start: Found, outcomes: seq<Outcome>): Partition {
    if outcomes == [] then Partition(start, [], [])
    else WithOutcome(Gathered(start, outcomes[..|outcomes| - 1]), outcomes[|outcomes| - 1])
  }

  // The main unit's registry, and whether it was recognized.
  function MainRegistry(
    s: Snapshots, units: seq<Subdevice>, resolve: Resolver, deviceTypes: seq<string>): Option<Registry>
  {
    resolve(MainView(s.typing, units), deviceTypes)
  }

  function Or(reg: Option<Registry>, fallback: Registry): Registry {
    if reg.Some? then reg.value else fallback
  }

  function Partitioned(
    s: Snapshots, candidates: seq<Subdevice>, resolve: Resolver, fallback: Registry,
    deviceTypes: seq<string>): Partition
  {
    var reg := Or(MainRegistry(s, candidates, resolve, deviceTypes), fallback);
    Gathered(Discovered(reg, MainView(s.resources, candidates), MAIN),
      Outcomes(s, candidates, candidates, resolve, reg))
  }

  /** Bind every href to the unit that owns it, keeping the units that are live. */
  method DiscoverPartitioned(
    s: Snapshots, candidates: seq<Subdevice>, resolve: Resolver, fallback: Registry, deviceTypes: seq<string>)
    returns (p: Partition, typeName: Option<string>)
    ensures p == Partitioned(s, candidates, resolve, fallback, deviceTypes)
    ensures var reg := MainRegistry(s, candidates, resolve, deviceTypes);
      typeName == if reg.Some? then Some(reg.value.name) else None
  {
    var own := resolve(CanonicalView(MAIN, s.typing, candidates), deviceTypes);
    var reg := if own.Some? then own.value else fallback;
    typeName := if own.Some? then Some(own.value.name) else None;
    var main := Discover(CanonicalView(MAIN, s.resources, candidates), reg, MAIN);
    p := Partition(main, [], []);
    for i := 0 to |candidates|
      invariant p == Gathered(main, Outcomes(s, candidates[..i], candidates, resolve, reg))
    {
      var su := candidates[i];
      OutcomesSnoc(main, s, candidates, i, resolve, reg);
      var view := CanonicalView(su, s.resources, candidates);
      var resolved := resolve(CanonicalView(su, s.typing, candidates), []);
      var unitReg := if resolved.Some? then resolved.value else reg;
      var probe := Discover(view, unitReg, su);
      var state := Flatten(probe.bound, s.resources);
      if HasLivePrimary(probe.bound, state) {
        var again := Discover(view, unitReg, su);
        p := Partition(Both(p.found, again), p.materialized + [su], p.skipped);
      } else {
        p := Partition(p.found, p.materialized, p.skipped + [Skipped(su, HrefsOf(probe.bound))]);
      }
    }
    assert candidates[..|candidates|] == candidates;
  }

  // ---------------------------------------------------------------------
  // Narrowing is stable
  // ---------------------------------------------------------------------

  function SkippedUnits(skipped: seq<Skipped>): seq<Subdevice> {
    seq(|skipped|, i requires 0 <= i < |skipped| => skipped[i].subdevice)
  }

  // The snapshots minus every href of a rejected candidate.
  function Narrowed(s: Snapshots, rejected: seq<Subdevice>): Snapshots {
    Snapshots(MainView(s.resources, rejected), MainView(s.typing, rejected))
  }

  ghost predicate AllUnits(units: seq<Subdevice>) {
    forall i | 0 <= i < |units| :: IsUnit(units[i]) && !units[i].kind.MainUnit?
  }

  // No href of the snapshot is both a kept candidate's and a rejected one's.
  ghost predicate KeptApart<V>(resources: Snapshot<V>, kept: seq<Subdevice>, rejected: seq<Subdevice>) {
    forall a, b, k | a in kept && b in rejected && 0 <= k < |resources| ::
      !(Owns(a, resources[k].0) && Owns(b, resources[k].0))
  }

  // Discovering again on the narrowed snapshots, with the kept units, gives what there was.
  ghost predicate Stable(
    s: Snapshots, candidates: seq<Subdevice>, resolve: Resolver, fallback: Registry, deviceTypes: seq<string>)
  {
    var p := Partitioned(s, candidates, resolve, fallback, deviceTypes);
    var t := Narrowed(s, SkippedUnits(p.skipped));
    && Partitioned(t, p.materialized, resolve, fallback, deviceTypes) == Partition(p.found, p.materialized, [])
    && MainRegistry(t, p.materialized, resolve, deviceTypes) == MainRegistry(s, candidates, resolve, deviceTypes)
  }

  lemma {:induction false} MainViewReads<V>(resources: Snapshot<V>, units: seq<Subdevice>, href: string)
    ensures Lookup(MainView(resources, units), href) == if OwnedBy(units, href) then None else Lookup(resources, href)
  {
    if resources != [] {
      var before := resources[..|resources| - 1];
      var last := resources[|resources| - 1];
      MainViewReads(before, units, href);
      if OwnedBy(units, last.0) {
        assert MainView(resources, units) == MainView(before, units);
      } else {
        assert MainView(resources, units)[..|MainView(before, units)|] == MainView(before, units);
      }
    }
  }

  lemma {:induction false} MainViewTwice<V>(
    resources: Snapshot<V>, first: seq<Subdevice>, second: seq<Subdevice>, all: seq<Subdevice>)
    requires forall href :: OwnedBy(all, href) <==> OwnedBy(first, href) || OwnedBy(second, href)
    ensures MainView(MainView(resources, first), second) == MainView(resources, all)
  {
    if resources != [] {
      var before := resources[..|resources| - 1];
      var last := resources[|resources| - 1];
      MainViewTwice(before, first, second, all);
      var kept := MainView(before, first);
      if OwnedBy(first, last.0) {
        assert MainView(resources, first) == kept;
      } else {
        assert (kept + [last])[..|kept|] == kept;
        assert MainView(resources, first) == kept + [last];
      }
    }
  }

  lemma {:induction false} RewrittenNarrow<V>(su: Subdevice, resources: Snapshot<V>, rejected: seq<Subdevice>)
    requires forall k | 0 <= k < |resources| ::
        !(OwnedBy(rejected, resources[k].0) && ToCanonical(su, resources[k].0).Some?)
    ensures Rewritten(su, MainView(resources, rejected)) == Rewritten(su, resources)
  {
    if resources != [] {
      var before := resources[..|resources| - 1];
      var last := resources[|resources| - 1];
      assert forall k | 0 <= k < |before| :: before[k] == resources[k];
      RewrittenNarrow(su, before, rejected);
      var kept := MainView(before, rejected);
      if OwnedBy(rejected, last.0) {
        assert MainView(resources, rejected) == kept;
        assert Rewritten(su, resources) == Rewritten(su, before);
      } else {
        assert (kept + [last])[..|kept|] == kept;
        assert MainView(resources, rejected) == kept + [last];
      }
    }
  }

  // Both snapshots read the same for one unit.
  ghost predicate SameUnit(a: Snapshots, b: Snapshots, su: Subdevice) {
    && Rewritten(su, a.resources) == Rewritten(su, b.resources)
    && Rewritten(su, a.typing) == Rewritten(su, b.typing)
    && forall href | Owns(su, href) :: Lookup(a.resources, href) == Lookup(b.resources, href)
  }

  // ---- an entity of a unit reads nothing but the unit's own hrefs

  ghost predicate OfUnit(b: Bound, su: Subdevice) {
    b.subdevice == su && Owns(su, b.href)
  }

  ghost predicate AllOfUnit(bound: seq<Bound>, su: Subdevice) {
    forall i | 0 <= i < |bound| :: OfUnit(bound[i], su)
  }

  lemma {:induction false} ByRegistryOfUnit(caps: seq<Capability>, href: string, rep: Json, view: View, su: Subdevice)
    requires Owns(su, ToActual(su, href))
    ensures AllOfUnit(ByRegistry(caps, href, rep, view, su).bound, su)
  {
    if caps != [] { ByRegistryOfUnit(caps[..|caps| - 1], href, rep, view, su); }
  }

  lemma {:induction false} OverOfUnit(reg: Registry, reps: View, view: View, su: Subdevice)
    requires forall k | 0 <= k < |reps| :: Owns(su, ToActual(su, reps[k].0))
    ensures AllOfUnit(Over(reg, reps, view, su).bound, su)
  {
    if reps != [] {
      var before := reps[..|reps| - 1];
      var (href, rep) := reps[|reps| - 1];
      assert forall k | 0 <= k < |before| :: before[k] == reps[k];
      OverOfUnit(reg, before, view, su);
      ByRegistryOfUnit(reg.capabilities(href), href, rep, view, su);
    }
  }

  lemma ViewOfUnit(su: Subdevice, resources: View, units: seq<Subdevice>)
    requires IsUnit(su) && !su.kind.MainUnit? && Distinct(resources)
    ensures CanonicalView(su, resources, units) == Rewritten(su, resources)
    ensures forall k | 0 <= k < |Rewritten(su, resources)| :: Owns(su, ToActual(su, Rewritten(su, resources)[k].0))
  {
    var view := Rewritten(su, resources);
    ViewIsFaithful(su, resources, units, "");
    forall k | 0 <= k < |view| ensures Owns(su, ToActual(su, view[k].0)) {
      assert view[k] in view;
      RewrittenFrom(su, resources, view[k].0, view[k].1);
    }
  }

  lemma ValueSame(b: Bound, a: View, c: View, units: seq<Subdevice>, more: seq<Subdevice>, su: Subdevice)
    requires OfUnit(b, su) && !su.kind.MainUnit? && Rewritten(su, a) == Rewritten(su, c)
    requires Lookup(a, b.href) == Lookup(c, b.href)
    ensures ValueOf(b, a, units) == ValueOf(b, c, more)
  {
    assert CanonicalView(su, a, units) == CanonicalView(su, c, more);
    assert RepOf(a, b.href) == RepOf(c, b.href);
  }

  lemma {:induction false} FlattenedSame(
    bound: seq<Bound>, a: View, c: View, units: seq<Subdevice>, more: seq<Subdevice>, su: Subdevice)
    requires AllOfUnit(bound, su) && !su.kind.MainUnit? && Rewritten(su, a) == Rewritten(su, c)
    requires forall href | Owns(su, href) :: Lookup(a, href) == Lookup(c, href)
    ensures Flattened(bound, a, units) == Flattened(bound, c, more)
  {
    if bound != [] {
      var before := bound[..|bound| - 1];
      assert forall i | 0 <= i < |before| :: before[i] == bound[i];
      FlattenedSame(before, a, c, units, more, su);
      ValueSame(bound[|bound| - 1], a, c, units, more, su);
    }
  }

  lemma OutcomesSnoc(
    start: Found, s: Snapshots, candidates: seq<Subdevice>, i: nat, resolve: Resolver, master: Registry)
    requires i < |candidates|
    ensures Gathered(start, Outcomes(s, candidates[..i + 1], candidates, resolve, master)) ==
            WithOutcome(Gathered(start, Outcomes(s, candidates[..i], candidates, resolve, master)),
                        OutcomeOf(s, candidates[i], candidates, resolve, master))
  {
    var more := Outcomes(s, candidates[..i + 1], candidates, resolve, master);
    assert more[..i] == Outcomes(s, candidates[..i], candidates, resolve, master);
  }

  lemma SameUnitSameOutcome(a: Snapshots, b: Snapshots, su: Subdevice, units: seq<Subdevice>, more: seq<Subdevice>,
                            resolve: Resolver, master: Registry)
    requires IsUnit(su) && !su.kind.MainUnit? && SameUnit(a, b, su)
    requires Distinct(a.resources) && Distinct(b.resources) && Distinct(a.typing) && Distinct(b.typing)
    ensures OutcomeOf(a, su, units, resolve, master) == OutcomeOf(b, su, more, resolve, master)
  {
    ViewOfUnit(su, a.resources, units);
    ViewOfUnit(su, b.resources, more);
    ViewOfUnit(su, a.typing, units);
    ViewOfUnit(su, b.typing, more);
    var found := UnitFound(a, su, units, resolve, master);
    OverOfUnit(UnitRegistry(a, su, units, resolve, master), Rewritten(su, a.resources), Rewritten(su, a.resources), su);
    FlattenedSame(found.bound, a.resources, b.resources, UnitsOf(found.bound), UnitsOf(found.bound), su);
  }

  function LiveOnly(outcomes: seq<Outcome>): seq<Outcome> {
    if outcomes == [] then []
    else LiveOnly(outcomes[..|outcomes| - 1]) + if outcomes[|outcomes| - 1].live then [outcomes[|outcomes| - 1]] else []
  }

  function UnitsIn(outcomes: seq<Outcome>): seq<Subdevice> {
    seq(|outcomes|, i requires 0 <= i < |outcomes| => outcomes[i].unit)
  }

  // Gathering the live outcomes again gives the same entities and units, and rejects nobody.
  lemma {:induction false} GatherAgain(start: Found, outcomes: seq<Outcome>)
    ensures var p := Gathered(start, outcomes);
      && p.materialized == UnitsIn(LiveOnly(outcomes))
      && Gathered(start, LiveOnly(outcomes)) == Partition(p.found, p.materialized, [])
  {
    if outcomes != [] {
      var before := outcomes[..|outcomes| - 1];
      var last := outcomes[|outcomes| - 1];
      GatherAgain(start, before);
      var live := LiveOnly(before);
      if last.live {
        assert (live + [last])[..|live|] == live;
        assert UnitsIn(live + [last]) == UnitsIn(live) + [last.unit];
      } else {
        assert LiveOnly(outcomes) == live;
      }
    }
  }

  lemma {:induction false} LiveFrom(outcomes: seq<Outcome>, o: Outcome)
    ensures o in LiveOnly(outcomes) <==> o in outcomes && o.live
  {
    if outcomes != [] {
      LiveFrom(outcomes[..|outcomes| - 1], o);
      assert outcomes == outcomes[..|outcomes| - 1] + [outcomes[|outcomes| - 1]];
    }
  }

  lemma {:induction false} RejectedFrom(start: Found, outcomes: seq<Outcome>, su: Subdevice)
    ensures su in SkippedUnits(Gathered(start, outcomes).skipped) <==>
        exists o :: o in outcomes && !o.live && o.unit == su
  {
    if outcomes != [] {
      var before := outcomes[..|outcomes| - 1];
      var last := outcomes[|outcomes| - 1];
      RejectedFrom(start, before, su);
      assert outcomes == before + [last];
      var skipped := Gathered(start, before).skipped;
      var more := Skipped(last.unit, HrefsOf(last.found.bound));
      assert SkippedUnits(skipped + [more]) == SkippedUnits(skipped) + [last.unit];
    }
  }

  lemma {:induction false} MainViewDistinct<V>(resources: Snapshot<V>, units: seq<Subdevice>)
    requires Distinct(resources)
    ensures Distinct(MainView(resources, units))
  {
    if resources != [] {
      var before := resources[..|resources| - 1];
      var last := resources[|resources| - 1];
      assert resources == before + [last];
      DistinctSnoc(before, last);
      MainViewDistinct(before, units);
      if OwnedBy(units, last.0) {
        assert MainView(resources, units) == MainView(before, units);
      } else {
        MainViewReads(before, units, last.0);
        DistinctSnoc(MainView(before, units), last);
      }
    }
  }

  // What a discovery keeps of its candidates, and what it rejects.
  ghost predicate Sorted(candidates: seq<Subdevice>, kept: seq<Subdevice>, rejected: seq<Subdevice>) {
    forall su :: (su in candidates <==> su in kept || su in rejected) && !(su in kept && su in rejected)
  }

  lemma SortedOwners(candidates: seq<Subdevice>, kept: seq<Subdevice>, rejected: seq<Subdevice>, href: string)
    requires Sorted(candidates, kept, rejected)
    ensures OwnedBy(candidates, href) <==> OwnedBy(rejected, href) || OwnedBy(kept, href)
  {
    OwnedByIff(candidates, href);
    OwnedByIff(kept, href);
    OwnedByIff(rejected, href);
  }

  lemma OwnedByIff(units: seq<Subdevice>, href: string)
    ensures OwnedBy(units, href) <==> exists su :: su in units && Owns(su, href)
  {
    if OwnedBy(units, href) {
      var i :| 0 <= i < |units| && Owns(units[i], href);
      assert units[i] in units;
    }
  }

  lemma KeptReadsSame<V>(resources: Snapshot<V>, kept: seq<Subdevice>, rejected: seq<Subdevice>, su: Subdevice)
    requires KeptApart(resources, kept, rejected) && su in kept && !su.kind.MainUnit?
    ensures Rewritten(su, MainView(resources, rejected)) == Rewritten(su, resources)
    ensures forall href | Owns(su, href) :: Lookup(MainView(resources, rejected), href) == Lookup(resources, href)
  {
    forall k | 0 <= k < |resources|
      ensures !(OwnedBy(rejected, resources[k].0) && ToCanonical(su, resources[k].0).Some?)
    {
      OwnedByIff(rejected, resources[k].0);
    }
    RewrittenNarrow(su, resources, rejected);
    forall href | Owns(su, href) ensures Lookup(MainView(resources, rejected), href) == Lookup(resources, href) {
      MainViewReads(resources, rejected, href);
    }
  }

  lemma SortsCandidates(start: Found, s: Snapshots, candidates: seq<Subdevice>, resolve: Resolver, master: Registry)
    ensures var p := Gathered(start, Outcomes(s, candidates, candidates, resolve, master));
      Sorted(candidates, p.materialized, SkippedUnits(p.skipped))
  {
    var outcomes := Outcomes(s, candidates, candidates, resolve, master);
    var p := Gathered(start, outcomes);
    GatherAgain(start, outcomes);
    forall su
      ensures su in p.materialized <==> su in candidates && OutcomeOf(s, su, candidates, resolve, master).live
      ensures su in SkippedUnits(p.skipped) <==> su in candidates && !OutcomeOf(s, su, candidates, resolve, master).live
    {
      CandidateSorted(start, s, candidates, resolve, master, su);
    }
  }

  lemma CandidateSorted(
    start: Found, s: Snapshots, candidates: seq<Subdevice>, resolve: Resolver, master: Registry, su: Subdevice)
    ensures var p := Gathered(start, Outcomes(s, candidates, candidates, resolve, master));
      var live := OutcomeOf(s, su, candidates, resolve, master).live;
      && (su in p.materialized <==> su in candidates && live)
      && (su in SkippedUnits(p.skipped) <==> su in candidates && !live)
  {
    var outcomes := Outcomes(s, candidates, candidates, resolve, master);
    var own := OutcomeOf(s, su, candidates, resolve, master);
    GatherAgain(start, outcomes);
    RejectedFrom(start, outcomes, su);
    OutcomesHave(s, candidates, resolve, master);
    LiveFrom(outcomes, own);
    var live := LiveOnly(outcomes);
    if su in UnitsIn(live) {
      var i :| 0 <= i < |live| && live[i].unit == su;
      LiveFrom(outcomes, live[i]);
    }
    if own in live {
      var i :| 0 <= i < |live| && live[i] == own;
      assert UnitsIn(live)[i] == su;
    }
  }

  lemma OutcomesHave(s: Snapshots, candidates: seq<Subdevice>, resolve: Resolver, master: Registry)
    ensures var outcomes := Outcomes(s, candidates, candidates, resolve, master);
      && (forall o | o in outcomes :: o.unit in candidates && o == OutcomeOf(s, o.unit, candidates, resolve, master))
      && (forall su | su in candidates :: OutcomeOf(s, su, candidates, resolve, master) in outcomes)
  {
    var outcomes := Outcomes(s, candidates, candidates, resolve, master);
    forall su | su in candidates ensures OutcomeOf(s, su, candidates, resolve, master) in outcomes {
      var i :| 0 <= i < |candidates| && candidates[i] == su;
      assert outcomes[i] == OutcomeOf(s, su, candidates, resolve, master);
    }
  }

  lemma OutcomesAgain(
    s: Snapshots, t: Snapshots, candidates: seq<Subdevice>, kept: seq<Subdevice>, resolve: Resolver, master: Registry)
    requires AllUnits(candidates) && kept == UnitsIn(LiveOnly(Outcomes(s, candidates, candidates, resolve, master)))
    requires Distinct(s.resources) && Distinct(t.resources) && Distinct(s.typing) && Distinct(t.typing)
    requires forall su | su in kept :: SameUnit(s, t, su)
    ensures Outcomes(t, kept, kept, resolve, master) == LiveOnly(Outcomes(s, candidates, candidates, resolve, master))
  {
    var outcomes := Outcomes(s, candidates, candidates, resolve, master);
    var live := LiveOnly(outcomes);
    OutcomesHave(s, candidates, resolve, master);
    forall i | 0 <= i < |kept| ensures OutcomeOf(t, kept[i], kept, resolve, master) == live[i] {
      LiveFrom(outcomes, live[i]);
      assert live[i] in live && kept[i] == live[i].unit && kept[i] in kept;
      SameUnitSameOutcome(s, t, kept[i], candidates, kept, resolve, master);
    }
  }

  /** Discovering again on the snapshot without the rejected candidates' hrefs, with only the kept
      ones, gives the same entities, tiers, gaps and device type, keeps the same units and rejects
      nobody, as long as no kept candidate shares an href of the snapshots with a rejected one. */
  lemma NarrowingIsStable(
    s: Snapshots, candidates: seq<Subdevice>, resolve: Resolver, fallback: Registry, deviceTypes: seq<string>)
    requires AllUnits(candidates) && Distinct(s.resources) && Distinct(s.typing)
    requires var p := Partitioned(s, candidates, resolve, fallback, deviceTypes);
      var rejected := SkippedUnits(p.skipped);
      KeptApart(s.resources, p.materialized, rejected) && KeptApart(s.typing, p.materialized, rejected)
    ensures Stable(s, candidates, resolve, fallback, deviceTypes)
  {
    var reg := Or(MainRegistry(s, candidates, resolve, deviceTypes), fallback);
    var main := Discovered(reg, MainView(s.resources, candidates), MAIN);
    var outcomes := Outcomes(s, candidates, candidates, resolve, reg);
    var p := Gathered(main, outcomes);
    var kept, rejected := p.materialized, SkippedUnits(p.skipped);
    var t := Narrowed(s, rejected);
    SortsCandidates(main, s, candidates, resolve, reg);
    forall href ensures OwnedBy(candidates, href) <==> OwnedBy(rejected, href) || OwnedBy(kept, href) {
      SortedOwners(candidates, kept, rejected, href);
    }
    MainViewTwice(s.resources, rejected, kept, candidates);
    MainViewTwice(s.typing, rejected, kept, candidates);
    MainViewDistinct(s.resources, rejected);
    MainViewDistinct(s.typing, rejected);
    forall su | su in kept ensures SameUnit(s, t, su) { KeptIsSameUnit(s, candidates, kept, rejected, su); }
    GatherAgain(main, outcomes);
    OutcomesAgain(s, t, candidates, kept, resolve, reg);
  }

  lemma KeptIsSameUnit(
    s: Snapshots, candidates: seq<Subdevice>, kept: seq<Subdevice>, rejected: seq<Subdevice>, su: Subdevice)
    requires AllUnits(candidates) && Sorted(candidates, kept, rejected) && su in kept
    requires KeptApart(s.resources, kept, rejected) && KeptApart(s.typing, kept, rejected)
    ensures SameUnit(s, Narrowed(s, rejected), su)
  {
    assert su in candidates;
    KeptReadsSame(s.resources, kept, rejected, su);
    KeptReadsSame(s.typing, kept, rejected, su);
  }

  // No href of either snapshot has two owners among the candidates.
  ghost predicate OwnedApart(s: Snapshots, candidates: seq<Subdevice>) {
    OwnedOnce(s.resources, candidates) && OwnedOnce(s.typing, candidates)
  }

  lemma {:induction false} TwoOwners(units: seq<Subdevice>, i: nat, j: nat, href: string)
    requires i < j < |units| && Owns(units[i], href) && Owns(units[j], href)
    ensures Owners(units, href) >= 2
  {
    if j < |units| - 1 {
      TwoOwners(units[..|units| - 1], i, j, href);
    } else {
      OwnedAt(units[..|units| - 1], i, href);
    }
  }

  lemma {:induction false} OwnedAt(units: seq<Subdevice>, i: nat, href: string)
    requires i < |units| && Owns(units[i], href)
    ensures Owners(units, href) >= 1
  {
    if i < |units| - 1 { OwnedAt(units[..|units| - 1], i, href); }
  }

  // Two different candidates never own one href of the snapshot.
  lemma OneOwner<V>(resources: Snapshot<V>, units: seq<Subdevice>, a: Subdevice, b: Subdevice, k: nat)
    requires OwnedOnce(resources, units) && a in units && b in units && k < |resources|
    requires Owns(a, resources[k].0) && Owns(b, resources[k].0)
    ensures a == b
  {
    var i :| 0 <= i < |units| && units[i] == a;
    var j :| 0 <= j < |units| && units[j] == b;
    if i < j { TwoOwners(units, i, j, resources[k].0); }
    if j < i { TwoOwners(units, j, i, resources[k].0); }
  }

  lemma OwnedOnceApart<V>(
    resources: Snapshot<V>, candidates: seq<Subdevice>, kept: seq<Subdevice>, rejected: seq<Subdevice>)
    requires OwnedOnce(resources, candidates) && Sorted(candidates, kept, rejected)
    ensures KeptApart(resources, kept, rejected)
  {
    forall a, b, k: nat | a in kept && b in rejected && k < |resources|
      ensures !(Owns(a, resources[k].0) && Owns(b, resources[k].0))
    {
      assert a in candidates && b in candidates && a != b;
      if Owns(a, resources[k].0) && Owns(b, resources[k].0) { OneOwner(resources, candidates, a, b, k); }
    }
  }

  /** What can be checked beforehand: with no href of the snapshots owned by two candidates,
      narrowing is stable whatever the tables hold. */
  lemma OwnedApartIsStable(
    s: Snapshots, candidates: seq<Subdevice>, resolve: Resolver, fallback: Registry, deviceTypes: seq<string>)
    requires AllUnits(candidates) && Distinct(s.resources) && Distinct(s.typing) && OwnedApart(s, candidates)
    ensures Stable(s, candidates, resolve, fallback, deviceTypes)
  {
    var p := Partitioned(s, candidates, resolve, fallback, deviceTypes);
    PartitionSorts(s, candidates, resolve, fallback, deviceTypes);
    OwnedOnceApart(s.resources, candidates, p.materialized, SkippedUnits(p.skipped));
    OwnedOnceApart(s.typing, candidates, p.materialized, SkippedUnits(p.skipped));
    NarrowingIsStable(s, candidates, resolve, fallback, deviceTypes);
  }

  // ---- which candidates are safe to narrow whatever the appliance reports

  ghost predicate AlwaysStable(candidates: seq<Subdevice>) {
    forall s: Snapshots, resolve: Resolver, fallback: Registry, deviceTypes: seq<string>
      | Distinct(s.resources) && Distinct(s.typing) ::
      Stable(s, candidates, resolve, fallback, deviceTypes)
  }

  predicate OneKind(candidates: seq<Subdevice>) {
    forall a, b | a in candidates && b in candidates :: a.kind == b.kind
  }

  lemma PartitionSorts(
    s: Snapshots, candidates: seq<Subdevice>, resolve: Resolver, fallback: Registry, deviceTypes: seq<string>)
    ensures var p := Partitioned(s, candidates, resolve, fallback, deviceTypes);
      Sorted(candidates, p.materialized, SkippedUnits(p.skipped))
  {
    var reg := Or(MainRegistry(s, candidates, resolve, deviceTypes), fallback);
    SortsCandidates(Discovered(reg, MainView(s.resources, candidates), MAIN), s, candidates, resolve, reg);
  }

  lemma OneKindApart<V>(
    resources: Snapshot<V>, candidates: seq<Subdevice>, kept: seq<Subdevice>, rejected: seq<Subdevice>)
    requires AllUnits(candidates) && OneKind(candidates) && Sorted(candidates, kept, rejected)
    ensures KeptApart(resources, kept, rejected)
  {
    forall a, b | a in kept && b in rejected ensures Apart(a, b) {
      assert a in candidates && b in candidates && a != b;
      UnitsApartIff(a, b);
    }
  }

  lemma OneKindIsStable(
    s: Snapshots, candidates: seq<Subdevice>, resolve: Resolver, fallback: Registry, deviceTypes: seq<string>)
    requires AllUnits(candidates) && OneKind(candidates) && Distinct(s.resources) && Distinct(s.typing)
    ensures Stable(s, candidates, resolve, fallback, deviceTypes)
  {
    var p := Partitioned(s, candidates, resolve, fallback, deviceTypes);
    PartitionSorts(s, candidates, resolve, fallback, deviceTypes);
    OneKindApart(s.resources, candidates, p.materialized, SkippedUnits(p.skipped));
    OneKindApart(s.typing, candidates, p.materialized, SkippedUnits(p.skipped));
    NarrowingIsStable(s, candidates, resolve, fallback, deviceTypes);
  }

  // A table that binds one canonical href to an entity with a value.
  function OneHrefRegistry(canonical: string): Registry {
    var desc := Desc("power", None, false, None, Some(_ => JBool(true)), None, v => v);
    var cap := Capability(None, None, "", false, "hot", _ => None, [desc], None);
    Registry("", name => if name == canonical then [cap] else [], [])
  }

  function Unresolved(): Resolver {
    (view, deviceTypes) => None
  }

  function OneHref(href: string): Snapshots {
    Snapshots([(href, JObj([]))], [])
  }

  // A unit whose view has the bound href is there, one without it is not.
  lemma OneHrefLive(s: Snapshots, su: Subdevice, units: seq<Subdevice>, canonical: string)
    requires IsUnit(su) && !su.kind.MainUnit? && Distinct(s.resources)
    requires Rewritten(su, s.resources) == [] || exists c :: Rewritten(su, s.resources) == [(c, JObj([]))]
    ensures OutcomeOf(s, su, units, Unresolved(), OneHrefRegistry(canonical)).live <==>
            Rewritten(su, s.resources) == [(canonical, JObj([]))]
  {
    var reg := OneHrefRegistry(canonical);
    var view := Rewritten(su, s.resources);
    ViewOfUnit(su, s.resources, units);
    var found := UnitFound(s, su, units, Unresolved(), reg);
    assert found == Over(reg, view, view, su);
    if view != [] {
      assert view[..|view| - 1] == [] && Over(reg, view[..|view| - 1], view, su) == NOTHING;
      var (c, rep) := view[|view| - 1];
      assert found == Both(NOTHING, AtHref(reg, c, rep, view, su));
      OneHrefFound(reg, canonical, c, view, su);
      if c == canonical {
        var b := found.bound[0];
        assert found.bound[..0] == [];
        assert Flattened(found.bound, s.resources, UnitsOf(found.bound)) == [(KeyOf(b), JBool(true))];
        assert Lookup([(KeyOf(b), JBool(true))], KeyOf(b)) == Some(JBool(true));
        assert IsLivePrimary(b, Flattened(found.bound, s.resources, UnitsOf(found.bound)));
      }
    }
  }

  lemma OneHrefFound(reg: Registry, canonical: string, c: string, view: View, su: Subdevice)
    requires reg == OneHrefRegistry(canonical)
    ensures var found := AtHref(reg, c, JObj([]), view, su);
      if c == canonical then
        |found.bound| == 1 && found.bound[0].desc == reg.capabilities(c)[0].entities[0]
      else found.bound == []
  {
    if c == canonical {
      var caps := reg.capabilities(c);
      assert Applies(caps[0], JObj([]), view);
      assert AnyApplies(caps, JObj([]), view);
      assert caps[..|caps| - 1] == [] && ByRegistry(caps[..|caps| - 1], c, JObj([]), view, su) == NOTHING;
      assert |Bind(caps[0], c, JObj([]), "", su)| == 1;
    }
  }

  // An href of both: below the prefix, and ending in the index.
  function SharedHref(i: Subdevice, u: Subdevice): string {
    "/" + u.key + "/" + i.key
  }

  lemma SharedReadsDiffer(i: Subdevice, u: Subdevice)
    requires IsUnit(i) && IsUnit(u) && i.kind.Indexed? && u.kind.Prefixed?
    ensures var href := SharedHref(i, u);
      && ToCanonical(i, href).Some? && ToCanonical(u, href).Some?
      && ToCanonical(i, href) != ToCanonical(u, href)
  {
    var head := "/" + u.key + "/";
    var href := SharedHref(i, u);
    assert href == head + i.key;
    TailOf(head, i.key);
    assert ToCanonical(i, href) == Some(head + "0");
    assert ToCanonical(u, href).value == href[|u.key| + 1..] == "/" + i.key;
    assert '/' !in i.key && (head + "0")[|u.key| + 1] == '/';
  }

  lemma OneHrefRewritten(su: Subdevice, href: string)
    ensures var c := ToCanonical(su, href);
      Rewritten(su, OneHref(href).resources) == if c.Some? then [(c.value, JObj([]))] else []
  {
    assert OneHref(href).resources[..0] == [];
  }

  lemma OneKeptOneRejected(candidates: seq<Subdevice>, i: Subdevice, u: Subdevice)
    requires AllUnits(candidates) && i in candidates && u in candidates && i.kind.Indexed? && u.kind.Prefixed?
    ensures ToCanonical(i, SharedHref(i, u)).Some?
    ensures var s, reg := OneHref(SharedHref(i, u)), OneHrefRegistry(ToCanonical(i, SharedHref(i, u)).value);
      var p := Partitioned(s, candidates, Unresolved(), reg, []);
      i in p.materialized && u in SkippedUnits(p.skipped)
  {
    var href := SharedHref(i, u);
    SharedReadsDiffer(i, u);
    var s, canonical := OneHref(href), ToCanonical(i, href).value;
    var reg := OneHrefRegistry(canonical);
    OneHrefRewritten(i, href);
    OneHrefRewritten(u, href);
    OneHrefLive(s, i, candidates, canonical);
    OneHrefLive(s, u, candidates, canonical);
    var main := Discovered(reg, MainView(s.resources, candidates), MAIN);
    CandidateSorted(main, s, candidates, Unresolved(), reg, i);
    CandidateSorted(main, s, candidates, Unresolved(), reg, u);
  }

  lemma MixedKindsBreak(candidates: seq<Subdevice>, i: Subdevice, u: Subdevice)
    requires AllUnits(candidates) && i in candidates && u in candidates && i.kind.Indexed? && u.kind.Prefixed?
    ensures !AlwaysStable(candidates)
  {
    var href := SharedHref(i, u);
    SharedReadsDiffer(i, u);
    OneKeptOneRejected(candidates, i, u);
    var s, canonical := OneHref(href), ToCanonical(i, href).value;
    var reg := OneHrefRegistry(canonical);
    var p := Partitioned(s, candidates, Unresolved(), reg, []);
    OwnedByIff(SkippedUnits(p.skipped), href);
    NothingLeft(s, p.materialized, SkippedUnits(p.skipped), href, reg, canonical, i);
    assert !Stable(s, candidates, Unresolved(), reg, []);
  }

  // With its one href gone the kept unit is not there any more.
  lemma NothingLeft(
    s: Snapshots, kept: seq<Subdevice>, rejected: seq<Subdevice>, href: string, reg: Registry, canonical: string,
    su: Subdevice)
    requires s == OneHref(href) && OwnedBy(rejected, href) && reg == OneHrefRegistry(canonical)
    requires IsUnit(su) && !su.kind.MainUnit?
    ensures su !in Partitioned(Narrowed(s, rejected), kept, Unresolved(), reg, []).materialized
  {
    var t := Narrowed(s, rejected);
    assert s.resources[..0] == [];
    assert t.resources == [];
    OneHrefLive(t, su, kept, canonical);
    CandidateSorted(Discovered(reg, MainView(t.resources, kept), MAIN), t, kept, Unresolved(), reg, su);
  }

  /** Whatever the appliance reports and whatever its tables hold, narrowing is stable exactly when
      the candidates are all of one kind: with an indexed and a prefixed one, some snapshot and
      table keep the one and reject the other over an href they share, and the narrowed snapshot
      rejects both. */
  lemma AlwaysStableIff(candidates: seq<Subdevice>)
    requires AllUnits(candidates)
    ensures AlwaysStable(candidates) <==> OneKind(candidates)
  {
    if OneKind(candidates) {
      forall s: Snapshots, resolve: Resolver, fallback: Registry, deviceTypes: seq<string>
        | Distinct(s.resources) && Distinct(s.typing)
        ensures Stable(s, candidates, resolve, fallback, deviceTypes)
      {
        OneKindIsStable(s, candidates, resolve, fallback, deviceTypes);
      }
    } else {
      var a, b :| a in candidates && b in candidates && a.kind.Indexed? && b.kind.Prefixed?;
      MixedKindsBreak(candidates, a, b);
    }
  }

  /** A candidate is kept exactly when an entity it binds speaks for it, so a slot with nothing but
      diagnostics and meters to show is rejected. */
  lemma KeptIff(
    s: Snapshots, candidates: seq<Subdevice>, resolve: Resolver, fallback: Registry, deviceTypes: seq<string>,
    su: Subdevice)
    requires su in candidates
    ensures var p := Partitioned(s, candidates, resolve, fallback, deviceTypes);
      var reg := Or(resolve(MainView(s.typing, candidates), deviceTypes), fallback);
      var own := Or(resolve(CanonicalView(su, s.typing, candidates), []), reg);
      var bound := Discovered(own, CanonicalView(su, s.resources, candidates), su).bound;
      var state := Flattened(bound, s.resources, UnitsOf(bound));
      && (su in p.materialized <==> exists b :: b in bound && SpeaksForUnit(b, state))
      && (su in SkippedUnits(p.skipped) <==> su !in p.materialized)
  {
    var reg := Or(MainRegistry(s, candidates, resolve, deviceTypes), fallback);
    CandidateSorted(Discovered(reg, MainView(s.resources, candidates), MAIN), s, candidates, resolve, reg, su);
    var bound := UnitFound(s, su, candidates, resolve, reg).bound;
    LiveSpeaks(bound, Flattened(bound, s.resources, UnitsOf(bound)));
  }

  lemma {:induction false} GatheredHas(start: Found, outcomes: seq<Outcome>, b: Bound)
    ensures b in Gathered(start, outcomes).found.bound <==>
            b in start.bound || exists o :: o in outcomes && o.live && b in o.found.bound
  {
    if outcomes != [] {
      var before, last := outcomes[..|outcomes| - 1], outcomes[|outcomes| - 1];
      assert outcomes == before + [last];
      GatheredHas(start, before, b);
    }
  }

  /** The partition holds what the main unit binds and what the kept candidates bind, each in its own
      view and with its own device type, the main unit's where it tells none. */
  lemma PartitionHas(
    s: Snapshots, candidates: seq<Subdevice>, resolve: Resolver, fallback: Registry, deviceTypes: seq<string>, b: Bound)
    ensures var p := Partitioned(s, candidates, resolve, fallback, deviceTypes);
      var main := resolve(MainView(s.typing, candidates), deviceTypes);
      var reg := if main.Some? then main.value else fallback;
      b in p.found.bound <==>
      || b in Discovered(reg, MainView(s.resources, candidates), MAIN).bound
      || exists su :: su in candidates && su in p.materialized
                      && var own := resolve(CanonicalView(su, s.typing, candidates), []);
                         b in Discovered(if own.Some? then own.value else reg,
                                         CanonicalView(su, s.resources, candidates), su).bound
  {
    var reg := Or(MainRegistry(s, candidates, resolve, deviceTypes), fallback);
    var start := Discovered(reg, MainView(s.resources, candidates), MAIN);
    var outcomes := Outcomes(s, candidates, candidates, resolve, reg);
    var p := Partitioned(s, candidates, resolve, fallback, deviceTypes);
    GatheredHas(start, outcomes, b);
    OutcomesHave(s, candidates, resolve, reg);
    if o :| o in outcomes && o.live && b in o.found.bound {
      CandidateSorted(start, s, candidates, resolve, reg, o.unit);
    }
    forall su | su in candidates && su in p.materialized
      ensures OutcomeOf(s, su, candidates, resolve, reg) in outcomes && OutcomeOf(s, su, candidates, resolve, reg).live
    {
      CandidateSorted(start, s, candidates, resolve, reg, su);
    }
  }

  lemma {:induction false} GatheredSkips(start: Found, outcomes: seq<Outcome>, skipped: Skipped)
    requires skipped in Gathered(start, outcomes).skipped
    ensures exists o :: o in outcomes && !o.live && skipped == Skipped(o.unit, HrefsOf(o.found.bound))
  {
    var before, last := outcomes[..|outcomes| - 1], outcomes[|outcomes| - 1];
    if skipped in Gathered(start, before).skipped {
      GatheredSkips(start, before, skipped);
    } else {
      assert !last.live && last in outcomes;
    }
  }

  /** A rejected candidate is reported with exactly the hrefs it would have bound. */
  lemma SkippedHrefs(
    s: Snapshots, candidates: seq<Subdevice>, resolve: Resolver, fallback: Registry, deviceTypes: seq<string>,
    skipped: Skipped, href: string)
    requires skipped in Partitioned(s, candidates, resolve, fallback, deviceTypes).skipped
    ensures var su, reg := skipped.subdevice, Or(resolve(MainView(s.typing, candidates), deviceTypes), fallback);
      var own := Or(resolve(CanonicalView(su, s.typing, candidates), []), reg);
      var bound := Discovered(own, CanonicalView(su, s.resources, candidates), su).bound;
      su in candidates && (href in skipped.hrefs <==> exists b :: b in bound && b.href == href)
  {
    var reg := Or(MainRegistry(s, candidates, resolve, deviceTypes), fallback);
    var outcomes := Outcomes(s, candidates, candidates, resolve, reg);
    GatheredSkips(Discovered(reg, MainView(s.resources, candidates), MAIN), outcomes, skipped);
    OutcomesHave(s, candidates, resolve, reg);
    var o :| o in outcomes && skipped == Skipped(o.unit, HrefsOf(o.found.bound));
    HrefsHave(o.found.bound, href);
  }

  lemma HrefsHave(bound: seq<Bound>, href: string)
    ensures href in HrefsOf(bound) <==> exists b :: b in bound && b.href == href
  {
    if b :| b in bound && b.href == href {
      var i :| 0 <= i < |bound| && bound[i] == b;
    }
    if href in HrefsOf(bound) {
      var i :| 0 <= i < |bound| && bound[i].href == href;
      assert bound[i] in bound;
    }
  }

  lemma LiveSpeaks(bound: seq<Bound>, state: View)
    ensures HasLivePrimary(bound, state) <==> exists b :: b in bound && SpeaksForUnit(b, state)
  {
    if HasLivePrimary(bound, state) {
      var i :| 0 <= i < |bound| && IsLivePrimary(bound[i], state);
      assert bound[i] in bound && SpeaksForUnit(bound[i], state);
    }
    if b :| b in bound && SpeaksForUnit(b, state) {
      var i :| 0 <= i < |bound| && bound[i] == b;
      assert IsLivePrimary(bound[i], state);
    }
  }

  /** With no candidates the partition is plain discovery of the whole snapshot. */
  lemma NoCandidatesIsPlain(s: Snapshots, resolve: Resolver, fallback: Registry, deviceTypes: seq<string>)
    ensures var reg := Or(resolve(s.typing, deviceTypes), fallback);
      Partitioned(s, [], resolve, fallback, deviceTypes) == Partition(Discovered(reg, s.resources, MAIN), [], [])
  {
    WholeView(s.resources);
    WholeView(s.typing);
  }

  lemma {:induction false} WholeView<V>(resources: Snapshot<V>)
    ensures MainView(resources, []) == resources
  {
    if resources != [] {
      WholeView(resources[..|resources| - 1]);
    }
  }
}
