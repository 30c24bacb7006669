/**
 Several indoor units on one connection. Each has its own namespace of hrefs, and what the
 registry knows under one canonical href is, on the wire, a different href per unit.
 */
module Subdevices {
  import opened Dicts
  import opened Options
  import opened Text

  datatype Kind = MainUnit | Indexed | Prefixed

  // `key` is the trailing index of an indexed unit, the UUID of a prefixed one.
  datatype Subdevice = Subdevice(kind: Kind, key: string)

  const MAIN := Subdevice(MainUnit, "")

  // A key is one path segment.
  predicate IsUnit(su: Subdevice) {
    !su.kind.MainUnit? ==> su.key != "" && '/' !in su.key
  }

  function ToActual(su: Subdevice, canonical: string): string {
    match su.kind
    case MainUnit => canonical
    case Prefixed => "/" + su.key + canonical
    case Indexed =>
      // Only an index-0 tail is this unit's to rewrite.
      if AfterLast(canonical, '/') == "0" then canonical[..|canonical| - 1] + su.key else canonical
  }

  function ToCanonical(su: Subdevice, actual: string): Option<string> {
    match su.kind
    case MainUnit => Some(actual)
    case Prefixed => if "/" + su.key + "/" <= actual then Some(actual[|su.key| + 1..]) else None
    case Indexed => if AfterLast(actual, '/') == su.key then Some(actual[..|actual| - |su.key|] + "0") else None
  }

  predicate Owns(su: Subdevice, actual: string) {
    !su.kind.MainUnit? && ToCanonical(su, actual).Some?
  }

  // ---------------------------------------------------------------------
  // The transforms are inverse
  // ---------------------------------------------------------------------

  // Replacing the last segment of an href.
  lemma TailOf(head: string, tail: string)
    requires '/' !in tail && (head == "" || head[|head| - 1] == '/')
    ensures AfterLast(head + tail, '/') == tail
  {
    if head == "" {
      assert head + tail == tail;
    } else {
      LastIndexOfJoin(head[..|head| - 1], '/', tail);
      assert head[..|head| - 1] + ['/'] + tail == head + tail;
    }
  }

  // What comes before the last segment is empty or ends in a separator.
  lemma BeforeTail(s: string)
    ensures |AfterLast(s, '/')| <= |s| && '/' !in AfterLast(s, '/')
    ensures var head := s[..|s| - |AfterLast(s, '/')|]; head == "" || head[|head| - 1] == '/'
    ensures s == s[..|s| - |AfterLast(s, '/')|] + AfterLast(s, '/')
  {
  }

  // The hrefs a unit's registry entries are written for.
  predicate InDomain(su: Subdevice, canonical: string) {
    match su.kind
    case MainUnit => true
    case Prefixed => "/" <= canonical
    case Indexed => AfterLast(canonical, '/') == "0"
  }

  /** Reading an actual href back gives the canonical one exactly on the unit's domain. */
  lemma CanonicalRoundTripIff(su: Subdevice, canonical: string)
    requires IsUnit(su)
    ensures ToCanonical(su, ToActual(su, canonical)) == Some(canonical) <==> InDomain(su, canonical)
  {
    if su.kind.Prefixed? { PrefixedRoundTripIff(su, canonical); }
    if su.kind.Indexed? { IndexedRoundTripIff(su, canonical); }
  }

  lemma PrefixedRoundTripIff(su: Subdevice, canonical: string)
    requires su.kind.Prefixed?
    ensures ToCanonical(su, ToActual(su, canonical)) == Some(canonical) <==> InDomain(su, canonical)
  {
    var head := "/" + su.key;
    var actual := head + canonical;
    assert actual[|head|..] == canonical;
    assert head + "/" <= actual <==> "/" <= canonical by {
      if "/" <= canonical { assert actual[..|head| + 1] == head + "/"; }
      if head + "/" <= actual { assert actual[|head|] == (head + "/")[|head|]; }
    }
  }

  lemma IndexedRoundTripIff(su: Subdevice, canonical: string)
    requires IsUnit(su) && su.kind.Indexed?
    ensures ToCanonical(su, ToActual(su, canonical)) == Some(canonical) <==> InDomain(su, canonical)
  {
    BeforeTail(canonical);
    if InDomain(su, canonical) {
      var head := canonical[..|canonical| - 1];
      TailOf(head, su.key);
      assert (head + su.key)[..|head|] == head;
    } else if AfterLast(canonical, '/') == su.key {
      // A rewritten href ends in the canonical index; this one does not.
      TailOf(canonical[..|canonical| - |su.key|], "0");
    }
  }

  /** An owned href is the actual form of its canonical one, so no two share a canonical form. */
  lemma ActualRoundTrip(su: Subdevice, actual: string)
    requires IsUnit(su) && ToCanonical(su, actual).Some?
    ensures ToActual(su, ToCanonical(su, actual).value) == actual
    ensures InDomain(su, ToCanonical(su, actual).value)
  {
    if su.kind.Prefixed? { PrefixedActual(su, actual); }
    if su.kind.Indexed? { IndexedActual(su, actual); }
  }

  lemma PrefixedActual(su: Subdevice, actual: string)
    requires su.kind.Prefixed? && ToCanonical(su, actual).Some?
    ensures ToActual(su, ToCanonical(su, actual).value) == actual
    ensures InDomain(su, ToCanonical(su, actual).value)
  {
    var head := "/" + su.key;
    assert actual[..|head|] == (head + "/")[..|head|] == head;
    assert actual[|head|] == (head + "/")[|head|];
  }

  lemma IndexedActual(su: Subdevice, actual: string)
    requires su.kind.Indexed? && ToCanonical(su, actual).Some?
    ensures ToActual(su, ToCanonical(su, actual).value) == actual
    ensures InDomain(su, ToCanonical(su, actual).value)
  {
    BeforeTail(actual);
    var head := actual[..|actual| - |su.key|];
    TailOf(head, "0");
    assert (head + "0")[..|head|] == head;
  }

  /** A prefixed unit's hrefs begin with its key as their first segment; an indexed unit's end in its
      index, where the canonical ones end in 0. */
  lemma PrefixedHref(key: string, href: string)
    ensures var su := Subdevice(Prefixed, key);
      && ToActual(su, href) == "/" + key + href
      && (ToCanonical(su, href).Some? <==> "/" + key + "/" <= href)
      && ToCanonical(su, "/" + key + "/" + href) == Some("/" + href)
  {
    var head := "/" + key;
    var actual := head + ("/" + href);
    assert head + "/" + href == actual && actual[|head|..] == "/" + href;
    assert actual[..|head| + 1] == head + "/";
  }

  lemma IndexedHref(key: string, head: string, tail: string)
    requires '/' !in tail
    ensures var su := Subdevice(Indexed, key);
      && ToActual(su, head + "/" + tail) == head + "/" + (if tail == "0" then key else tail)
      && ToCanonical(su, head + "/" + tail) == if tail == key then Some(head + "/0") else None
    ensures ToActual(MAIN, head + "/" + tail) == head + "/" + tail
  {
    LastIndexOfJoin(head, '/', tail);
    var href := head + "/" + tail;
    assert href[..|href| - |tail|] == head + "/" && href[..|href| - |tail|] + "0" == head + "/0";
  }

  // ---------------------------------------------------------------------
  // Views
  // ---------------------------------------------------------------------

  type Snapshot<V> = seq<(string, V)>

  predicate OwnedBy(subdevices: seq<Subdevice>, href: string) {
    exists i :: 0 <= i < |subdevices| && Owns(subdevices[i], href)
  }

  function MainView<V>(resources: Snapshot<V>, subdevices: seq<Subdevice>): Snapshot<V> {
    if resources == [] then []
    else
      var last := resources[|resources| - 1];
      MainView(resources[..|resources| - 1], subdevices) + if OwnedBy(subdevices, last.0) then [] else [last]
  }

  // The hrefs of one unit, rewritten, in snapshot order.
  function Rewritten<V>(su: Subdevice, resources: Snapshot<V>): Snapshot<V> {
    if resources == [] then []
    else
      var last := resources[|resources| - 1];
      var canonical := ToCanonical(su, last.0);
      Rewritten(su, resources[..|resources| - 1]) + if canonical.Some? then [(canonical.value, last.1)] else []
  }

  function CanonicalView<V>(su: Subdevice, resources: Snapshot<V>, subdevices: seq<Subdevice>): Snapshot<V> {
    if su.kind.MainUnit? then MainView(resources, subdevices) else DictOf(Rewritten(su, resources))
  }

  lemma {:induction false} RewrittenFrom<V>(su: Subdevice, resources: Snapshot<V>, canonical: string, rep: V)
    requires IsUnit(su)
    ensures (canonical, rep) in Rewritten(su, resources) <==>
            InDomain(su, canonical) && ToCanonical(su, ToActual(su, canonical)).Some? &&
              (ToActual(su, canonical), rep) in resources
  {
    if resources != [] {
      var before := resources[..|resources| - 1];
      var last := resources[|resources| - 1];
      RewrittenFrom(su, before, canonical, rep);
      assert resources == before + [last];
      CanonicalRoundTripIff(su, canonical);
      if ToCanonical(su, last.0).Some? { ActualRoundTrip(su, last.0); }
    }
  }

  lemma {:induction false} RewrittenDistinct<V>(su: Subdevice, resources: Snapshot<V>)
    requires IsUnit(su) && Distinct(resources)
    ensures Distinct(Rewritten(su, resources))
  {
    if resources != [] {
      var before := resources[..|resources| - 1];
      var last := resources[|resources| - 1];
      assert resources == before + [last];
      DistinctSnoc(before, last);
      RewrittenDistinct(su, before);
      var canonical := ToCanonical(su, last.0);
      if canonical.Some? {
        DistinctSnoc(Rewritten(su, before), (canonical.value, last.1));
        NotRewrittenBefore(su, before, last.0, canonical.value);
      } else {
        assert Rewritten(su, resources) == Rewritten(su, before);
      }
    }
  }

  lemma NotRewrittenBefore<V>(su: Subdevice, before: Snapshot<V>, actual: string, canonical: string)
    requires IsUnit(su) && ToCanonical(su, actual) == Some(canonical) && Lookup(before, actual).None?
    ensures Lookup(Rewritten(su, before), canonical).None?
  {
    ActualRoundTrip(su, actual);
    var found := Lookup(Rewritten(su, before), canonical);
    if found.Some? { RewrittenFrom(su, before, canonical, found.value); }
  }

  /** A unit's view never overwrites one rep with another: it has one entry per owned href, and
      reads for each canonical href what the snapshot has for the actual one. */
  lemma ViewIsFaithful<V>(su: Subdevice, resources: Snapshot<V>, subdevices: seq<Subdevice>, canonical: string)
    requires IsUnit(su) && !su.kind.MainUnit? && Distinct(resources)
    ensures CanonicalView(su, resources, subdevices) == Rewritten(su, resources)
    ensures Lookup(CanonicalView(su, resources, subdevices), canonical) ==
            if InDomain(su, canonical) then Lookup(resources, ToActual(su, canonical)) else None
  {
    RewrittenDistinct(su, resources);
    DictOfKeepsIff(Rewritten(su, resources));
    CanonicalRoundTripIff(su, canonical);
    var actual := ToActual(su, canonical);
    var shown := Lookup(Rewritten(su, resources), canonical);
    if shown.Some? {
      RewrittenFrom(su, resources, canonical, shown.value);
      LookupDistinct(resources, actual, shown.value);
    } else if InDomain(su, canonical) && Lookup(resources, actual).Some? {
      RewrittenFrom(su, resources, canonical, Lookup(resources, actual).value);
    }
  }

  // ---------------------------------------------------------------------
  // The views partition the snapshot
  // ---------------------------------------------------------------------

  function Owners(subdevices: seq<Subdevice>, href: string): nat {
    if subdevices == [] then 0
    else Owners(subdevices[..|subdevices| - 1], href) + if Owns(subdevices[|subdevices| - 1], href) then 1 else 0
  }

  function Entries<V>(resources: Snapshot<V>, subdevices: seq<Subdevice>): nat {
    if subdevices == [] then 0
    else Entries(resources, subdevices[..|subdevices| - 1]) + |Rewritten(subdevices[|subdevices| - 1], resources)|
  }

  lemma OwnedBySnoc(before: seq<Subdevice>, last: Subdevice, href: string)
    ensures OwnedBy(before + [last], href) <==> OwnedBy(before, href) || Owns(last, href)
  {
    var all := before + [last];
    assert all[|before|] == last && forall i | 0 <= i < |before| :: all[i] == before[i];
  }

  lemma {:induction false} OwnersPositiveIff(subdevices: seq<Subdevice>, href: string)
    ensures Owners(subdevices, href) > 0 <==> OwnedBy(subdevices, href)
  {
    if subdevices != [] {
      var before := subdevices[..|subdevices| - 1];
      OwnersPositiveIff(before, href);
      OwnedBySnoc(before, subdevices[|subdevices| - 1], href);
      assert subdevices == before + [subdevices[|subdevices| - 1]];
    }
  }

  lemma {:induction false} EntriesSnoc<V>(before: Snapshot<V>, last: (string, V), subdevices: seq<Subdevice>)
    requires forall i | 0 <= i < |subdevices| :: !subdevices[i].kind.MainUnit?
    ensures Entries(before + [last], subdevices) == Entries(before, subdevices) + Owners(subdevices, last.0)
  {
    if subdevices != [] {
      EntriesSnoc(before, last, subdevices[..|subdevices| - 1]);
      assert (before + [last])[..|before|] == before;
    }
  }

  ghost predicate OwnedOnce<V>(resources: Snapshot<V>, subdevices: seq<Subdevice>) {
    forall k | 0 <= k < |resources| :: Owners(subdevices, resources[k].0) <= 1
  }

  /** The main view and the units' views hold every resource exactly once, together, if and only if
      no href of the snapshot has two owners. */
  lemma {:induction false} ViewsPartitionIff<V>(resources: Snapshot<V>, subdevices: seq<Subdevice>)
    requires forall i | 0 <= i < |subdevices| :: !subdevices[i].kind.MainUnit?
    ensures |MainView(resources, subdevices)| + Entries(resources, subdevices) >= |resources|
    ensures |MainView(resources, subdevices)| + Entries(resources, subdevices) == |resources| <==>
            OwnedOnce(resources, subdevices)
  {
    if resources == [] {
      NoEntries(resources, subdevices);
    } else {
      var before := resources[..|resources| - 1];
      var last := resources[|resources| - 1];
      ViewsPartitionIff(before, subdevices);
      EntriesSnoc(before, last, subdevices);
      OwnersPositiveIff(subdevices, last.0);
      assert resources == before + [last];
      OwnedOnceSnoc(before, last, subdevices);
    }
  }

  lemma OwnedOnceSnoc<V>(before: Snapshot<V>, last: (string, V), subdevices: seq<Subdevice>)
    ensures OwnedOnce(before + [last], subdevices) <==> OwnedOnce(before, subdevices) && Owners(subdevices, last.0) <= 1
  {
    var all := before + [last];
    assert all[|before|] == last && forall k | 0 <= k < |before| :: all[k] == before[k];
  }

  lemma {:induction false} NoEntries<V>(resources: Snapshot<V>, subdevices: seq<Subdevice>)
    requires resources == []
    ensures Entries(resources, subdevices) == 0
  {
    if subdevices != [] { NoEntries(resources, subdevices[..|subdevices| - 1]); }
  }

  // No href at all belongs to both.
  ghost predicate Apart(a: Subdevice, b: Subdevice) {
    forall href :: !(Owns(a, href) && Owns(b, href))
  }

  /** Two different units never share an href exactly when they are of one kind: every pair of an
      indexed and a prefixed unit overlaps on the prefixed hrefs that end in the index. */
  lemma UnitsApartIff(a: Subdevice, b: Subdevice)
    requires IsUnit(a) && IsUnit(b) && !a.kind.MainUnit? && !b.kind.MainUnit? && a != b
    ensures Apart(a, b) <==> a.kind == b.kind
  {
    if a.kind == b.kind {
      forall href ensures !(Owns(a, href) && Owns(b, href)) {
        if a.kind.Prefixed? && Owns(a, href) && Owns(b, href) { OnePrefix(a.key, b.key, href); }
      }
    } else if a.kind.Indexed? {
      MixedOverlap(a, b);
    } else {
      MixedOverlap(b, a);
    }
  }

  lemma OnePrefix(a: string, b: string, href: string)
    requires '/' !in a && '/' !in b && "/" + a + "/" <= href && "/" + b + "/" <= href
    ensures a == b
  {
    FirstSegment(a, href);
    FirstSegment(b, href);
  }

  lemma FirstSegment(a: string, href: string)
    requires '/' !in a && "/" + a + "/" <= href
    ensures a == BeforeFirst(href[1..], '/')
  {
    var p := "/" + a + "/";
    assert href == p + href[|p|..];
    assert href[1..] == a + ['/'] + href[|p|..];
    FirstIndexOfJoin(a, '/', href[|p|..]);
  }

  lemma MixedOverlap(i: Subdevice, u: Subdevice)
    requires IsUnit(i) && IsUnit(u) && i.kind.Indexed? && u.kind.Prefixed?
    ensures !Apart(i, u)
  {
    var head := "/" + u.key + "/";
    var href := head + i.key;
    TailOf(head, i.key);
    assert head <= href;
    assert Owns(i, href) && Owns(u, href);
  }

  // ---------------------------------------------------------------------
  // Entity keys
  // ---------------------------------------------------------------------

  predicate IsAlnum(c: char) {
    'a' <= c <= 'z' || 'A' <= c <= 'Z' || '0' <= c <= '9'
  }

  function Slug(s: string): (r: string)
    ensures forall i | 0 <= i < |r| :: IsAlnum(r[i])
  {
    if s == "" then "" else Slug(s[..|s| - 1]) + if IsAlnum(s[|s| - 1]) then [s[|s| - 1]] else []
  }

  const SUBDEVICE := "subdevice"

  function KeyPrefix(su: Subdevice): string {
    match su.kind
    case MainUnit => ""
    case Indexed => SUBDEVICE + su.key + "_"
    case Prefixed => SUBDEVICE + "_" + Slug(su.key) + "_"
  }

  // `local` is the descriptor's key or override, with its instance suffix.
  function EntityKey(su: Subdevice, local: string): string {
    KeyPrefix(su) + local
  }

  /** Keys of the main unit stand alone; those of another begin with `subdevice`, its index or the
      letters and digits of its UUID, and an underscore. */
  lemma EntityKeyIs(key: string, local: string)
    ensures EntityKey(MAIN, local) == local
    ensures EntityKey(Subdevice(Indexed, key), local) == "subdevice" + key + "_" + local
    ensures EntityKey(Subdevice(Prefixed, key), local) == "subdevice_" + Slug(key) + "_" + local
  {
    assert "subdevice" + "_" == "subdevice_";
    assert "subdevice" + "_" + Slug(key) == "subdevice_" + Slug(key);
  }

  lemma SlugKeeps(before: string, c: char)
    ensures Slug("") == ""
    ensures Slug(before + [c]) == Slug(before) + if c in SMALL || c in LARGE || c in "0123456789" then [c] else ""
  {
    var s := before + [c];
    assert s[..|s| - 1] == before;
    SmallIs(c);
    LargeIs(c);
    DigitIs(c);
  }

  lemma SmallIs(c: char)
    ensures 'a' <= c <= 'z' <==> c in SMALL
  {
    if 'a' <= c <= 'z' { assert SMALL[c as int - 'a' as int] == c; }
  }

  lemma LargeIs(c: char)
    ensures 'A' <= c <= 'Z' <==> c in LARGE
  {
    if 'A' <= c <= 'Z' { assert LARGE[c as int - 'A' as int] == c; }
  }

  lemma DigitIs(c: char)
    ensures '0' <= c <= '9' <==> c in "0123456789"
  {
    if '0' <= c <= '9' { assert "0123456789"[c as int - '0' as int] == c; }
  }

  // An index is a number, as the enumeration writes it.
  predicate IsNumbered(su: Subdevice) {
    su.kind.Indexed? ==> su.key != "" && forall i | 0 <= i < |su.key| :: '0' <= su.key[i] <= '9'
  }

  // What tells two units' entity keys apart.
  function Tag(su: Subdevice): (Kind, string) {
    (su.kind, if su.kind.Prefixed? then Slug(su.key) else su.key)
  }

  lemma UnderscoreEnds(a: string, b: string, rest: string)
    requires '_' !in a && '_' !in b && a + "_" <= b + "_" + rest
    ensures a == b
  {
    var s := b + "_" + rest;
    var more := s[|a| + 1..];
    assert s == a + "_" + more;
    FirstIndexOfJoin(a, '_', more);
    FirstIndexOfJoin(b, '_', rest);
    assert a == s[..|a|] && b == s[..|b|];
  }

  lemma NoUnderscore(s: string)
    requires forall i | 0 <= i < |s| :: IsAlnum(s[i])
    ensures '_' !in s
  {
  }

  // The character after the common word tells the two kinds apart.
  lemma KindsDiffer(i: Subdevice, u: Subdevice, x: string, y: string)
    requires IsNumbered(i) && i.kind.Indexed? && u.kind.Prefixed?
    ensures !(KeyPrefix(i) <= EntityKey(u, y)) && !(KeyPrefix(u) <= EntityKey(i, x))
  {
    var n := |SUBDEVICE|;
    assert KeyPrefix(i)[n] == i.key[0] && EntityKey(i, x)[n] == i.key[0];
    assert KeyPrefix(u)[n] == '_' && EntityKey(u, y)[n] == '_';
  }

  // A prefix that begins a key of another unit is that unit's own.
  lemma PrefixesBegin(a: Subdevice, b: Subdevice, local: string)
    requires IsNumbered(a) && IsNumbered(b) && !a.kind.MainUnit? && !b.kind.MainUnit?
    requires KeyPrefix(a) <= EntityKey(b, local)
    ensures Tag(a) == Tag(b)
  {
    if a.kind != b.kind {
      if a.kind.Indexed? { KindsDiffer(a, b, local, local); } else { KindsDiffer(b, a, local, local); }
    } else {
      var head := if a.kind.Indexed? then SUBDEVICE else SUBDEVICE + "_";
      var x, y := Tag(a).1, Tag(b).1;
      assert KeyPrefix(a)[|head|..] == x + "_";
      assert EntityKey(b, local)[|head|..] == y + "_" + local;
      NoUnderscore(x);
      NoUnderscore(y);
      UnderscoreEnds(x, y, local);
    }
  }

  /** No entity of one unit ever has the key of an entity of another exactly when the units differ
      in kind, index, or the letters and digits of their UUIDs. */
  lemma KeysNeverCollideIff(a: Subdevice, b: Subdevice)
    requires IsNumbered(a) && IsNumbered(b) && !a.kind.MainUnit? && !b.kind.MainUnit?
    ensures (forall x, y :: EntityKey(a, x) != EntityKey(b, y)) <==> Tag(a) != Tag(b)
  {
    if Tag(a) == Tag(b) {
      assert EntityKey(a, "") == EntityKey(b, "");
    } else {
      forall x, y ensures EntityKey(a, x) != EntityKey(b, y) {
        if EntityKey(a, x) == EntityKey(b, y) { PrefixesBegin(a, b, y); }
      }
    }
  }

  /** The main unit's key for an entity meets a unit's key exactly when it begins like one. */
  lemma MainKeyCollidesIff(su: Subdevice, local: string)
    requires !su.kind.MainUnit?
    ensures (exists x :: EntityKey(su, x) == EntityKey(MAIN, local)) <==> KeyPrefix(su) <= local
    ensures KeyPrefix(su) <= local ==> SUBDEVICE <= local
  {
    assert EntityKey(MAIN, local) == local;
    if KeyPrefix(su) <= local {
      assert EntityKey(su, local[|KeyPrefix(su)|..]) == EntityKey(MAIN, local);
      assert local[..|SUBDEVICE|] == KeyPrefix(su)[..|SUBDEVICE|];
    }
  }

  // The 8-4-4-4-12 form.
  predicate IsUuid(s: string) {
    && |s| == 36
    && forall i | 0 <= i < 36 :: if i == 8 || i == 13 || i == 18 || i == 23 then s[i] == '-' else IsAlnum(s[i])
  }

  lemma {:induction false} SlugConcat(a: string, b: string)
    ensures Slug(a + b) == Slug(a) + Slug(b)
  {
    if b == "" {
      assert a + b == a;
    } else {
      assert (a + b)[..|a + b| - 1] == a + b[..|b| - 1];
      SlugConcat(a, b[..|b| - 1]);
    }
  }

  lemma {:induction false} SlugOfAlnum(s: string)
    requires forall i | 0 <= i < |s| :: IsAlnum(s[i])
    ensures Slug(s) == s
  {
    if s != "" { SlugOfAlnum(s[..|s| - 1]); }
  }

  lemma SlugAfterDash(s: string, from: nat, to: nat)
    requires from < to <= |s| && s[from] == '-' && forall i | from < i < to :: IsAlnum(s[i])
    ensures Slug(s[..to]) == Slug(s[..from]) + s[from + 1..to]
  {
    assert s[..to] == s[..from] + (['-'] + s[from + 1..to]);
    SlugConcat(s[..from], ['-'] + s[from + 1..to]);
    SlugConcat(['-'], s[from + 1..to]);
    SlugOfAlnum(s[from + 1..to]);
    assert ['-'][..0] == "";
  }

  lemma SlugOfUuid(s: string)
    requires IsUuid(s)
    ensures Slug(s) == s[..8] + s[9..13] + s[14..18] + s[19..23] + s[24..36]
  {
    SlugOfHead(s);
    SlugAfterDash(s, 18, 23);
    SlugAfterDash(s, 23, 36);
    assert s[..36] == s;
  }

  lemma SlugOfHead(s: string)
    requires IsUuid(s)
    ensures Slug(s[..18]) == s[..8] + s[9..13] + s[14..18]
  {
    SlugOfAlnum(s[..8]);
    SlugAfterDash(s, 8, 13);
    SlugAfterDash(s, 13, 18);
  }

  /** Different UUIDs have different tags, so prefixed units never share an entity key. */
  lemma UuidsTagDistinct(a: string, b: string)
    requires IsUuid(a) && IsUuid(b) && Slug(a) == Slug(b)
    ensures a == b
  {
    SlugOfUuid(a);
    SlugOfUuid(b);
    var s := Slug(a);
    assert a[..8] == s[..8] == b[..8];
    assert a[9..13] == s[8..12] == b[9..13];
    assert a[14..18] == s[12..16] == b[14..18];
    assert a[19..23] == s[16..20] == b[19..23];
    assert a[24..36] == s[20..32] == b[24..36];
    FromParts(a);
    FromParts(b);
  }

  lemma FromParts(s: string)
    requires IsUuid(s)
    ensures s == s[..8] + "-" + s[9..13] + "-" + s[14..18] + "-" + s[19..23] + "-" + s[24..36]
  {
  }

  // ---------------------------------------------------------------------
  // Seed batches
  // ---------------------------------------------------------------------

  function Normalized(su: Subdevice, href: string): string {
    if su.kind.Prefixed? && !("/" + su.key + "/" <= href) then "/" + su.key + href else href
  }

  /** A unit's seed batch under the hrefs it really answers on. */
  method NormalizeSeedBatch<V>(su: Subdevice, batch: Snapshot<V>) returns (out: Snapshot<V>)
    requires Distinct(batch)
    ensures out == DictOf(NormalizedPairs(su, batch))
  {
    if !su.kind.Prefixed? {
      SameBatch(su, batch);
      DictOfKeepsIff(batch);
      return batch;
    }
    out := [];
    for i := 0 to |batch|
      invariant out == DictOf(NormalizedPairs(su, batch[..i]))
    {
      var (href, rep) := batch[i];
      NormalizedSnoc(su, batch, i);
      out := Put(out, if "/" + su.key + "/" <= href then href else "/" + su.key + href, rep);
    }
    assert batch[..|batch|] == batch;
  }

  function NormalizedPairs<V>(su: Subdevice, batch: Snapshot<V>): Snapshot<V> {
    seq(|batch|, i requires 0 <= i < |batch| => (Normalized(su, batch[i].0), batch[i].1))
  }

  lemma SameBatch<V>(su: Subdevice, batch: Snapshot<V>)
    requires !su.kind.Prefixed?
    ensures NormalizedPairs(su, batch) == batch
  {
  }

  lemma NormalizedSnoc<V>(su: Subdevice, batch: Snapshot<V>, i: nat)
    requires i < |batch|
    ensures DictOf(NormalizedPairs(su, batch[..i + 1])) ==
            Put(DictOf(NormalizedPairs(su, batch[..i])), Normalized(su, batch[i].0), batch[i].1)
  {
    var more := NormalizedPairs(su, batch[..i + 1]);
    assert more[..i] == NormalizedPairs(su, batch[..i]);
    assert more[i] == (Normalized(su, batch[i].0), batch[i].1);
  }

  /** Every normalized href of a prefixed unit is one it owns, and normalizing again changes nothing. */
  lemma NormalizedIsOwned(su: Subdevice, href: string)
    requires IsUnit(su) && su.kind.Prefixed? && "/" <= href
    ensures Owns(su, Normalized(su, href)) && Normalized(su, Normalized(su, href)) == Normalized(su, href)
  {
    var head := "/" + su.key;
    assert (head + href)[..|head| + 1] == head + "/";
  }

  /** Normalizing keeps every entry of a batch exactly when no resource is listed both with and
      without the unit's prefix. */
  lemma NormalizeKeepsIff<V>(su: Subdevice, batch: Snapshot<V>)
    requires Distinct(batch) && su.kind.Prefixed? && forall i | 0 <= i < |batch| :: "/" <= batch[i].0
    ensures |DictOf(NormalizedPairs(su, batch))| == |batch| <==>
            forall i, j | 0 <= i < |batch| && 0 <= j < |batch| :: !ListedTwice(su, batch[i].0, batch[j].0)
  {
    var pairs := NormalizedPairs(su, batch);
    DictOfKeepsIff(pairs);
    forall i, j | 0 <= i < |batch| && 0 <= j < |batch| && i != j
      ensures pairs[i].0 == pairs[j].0 <==>
          ListedTwice(su, batch[i].0, batch[j].0) || ListedTwice(su, batch[j].0, batch[i].0)
    {
      SameHrefIff(su, batch[i].0, batch[j].0);
    }
    if Distinct(pairs) {
      forall i, j | 0 <= i < |batch| && 0 <= j < |batch| ensures !ListedTwice(su, batch[i].0, batch[j].0) {
        assert i < j ==> pairs[i].0 != pairs[j].0;
        assert j < i ==> pairs[j].0 != pairs[i].0;
      }
    }
  }

  // The second href is the first under the unit's prefix.
  predicate ListedTwice(su: Subdevice, bare: string, full: string) {
    !("/" + su.key + "/" <= bare) && full == "/" + su.key + bare
  }

  lemma SameHrefIff(su: Subdevice, a: string, b: string)
    requires su.kind.Prefixed? && a != b && "/" <= a && "/" <= b
    ensures Normalized(su, a) == Normalized(su, b) <==> ListedTwice(su, a, b) || ListedTwice(su, b, a)
  {
    var head := "/" + su.key;
    assert (head + a)[..|head| + 1] == head + "/" && (head + b)[..|head| + 1] == head + "/";
    assert (head + a)[|head|..] == a && (head + b)[|head|..] == b;
  }
}
