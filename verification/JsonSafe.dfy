/**
 Making decoded CBOR safe for a JSON encoder. Values form a graph that may share and cycle: a
 container met again on its own path becomes a marker, and byte strings become markers that can
 be turned back.
 */
module JsonSafe {
  import opened Dicts
  import opened LegacyEnvelope
  import opened Options

  const TYPE_KEY := "__localthings_type__"

  type Ref = nat

  // A map key: text, or anything else by its printed form.
  datatype Key = Text(s: string) | Printed(repr: string)

  // One object of the graph.
  datatype Node =
    | Scalar(v: Json)
    | OddFloat(repr: string)
    | Blob(raw: seq<int>)
    | MapOf(entries: seq<(Key, Ref)>)
    | ListOf(items: seq<Ref>)
    | Moment(iso: string)
    | Decimal(text: string)
    | Tag(tag: int, value: Ref)
    | Opaque(repr: string)

  type Heap = map<Ref, Node>

  // Base64 and SHA-256 as this module uses them.
  datatype Codec = Codec(encode: seq<int> -> string, decode: string -> Option<seq<int>>, digest: seq<int> -> string)

  ghost predicate Inverse(c: Codec) {
    forall raw :: c.decode(c.encode(raw)) == Some(raw)
  }

  function Marker(kind: string, field: string, text: string): Json {
    JObj([(TYPE_KEY, JStr(kind)), (field, JStr(text))])
  }

  function BytesMarker(c: Codec, raw: seq<int>, maxInline: nat): Json {
    var head := if |raw| <= maxInline then raw else raw[..maxInline];
    JObj([(TYPE_KEY, JStr("bytes")), ("len", JNumber(|raw| as real)), ("sha256", JStr(c.digest(raw))),
          ("base64", JStr(c.encode(head)))]
         + if |raw| <= maxInline then [] else [("truncated", JBool(true))])
  }

  function SafeKey(key: Key): string {
    match key
    case Text(s) => s
    case Printed(repr) => TYPE_KEY + ":" + repr
  }

  // ---------------------------------------------------------------------
  // The walk ends
  // ---------------------------------------------------------------------

  predicate IsContainer(n: Node) {
    n.MapOf? || n.ListOf?
  }

  function Containers(heap: Heap): set<Ref> {
    set r | r in heap && IsContainer(heap[r])
  }

  function Children(n: Node): seq<Ref> {
    match n
    case MapOf(entries) => seq(|entries|, i requires 0 <= i < |entries| => entries[i].1)
    case ListOf(items) => items
    case Tag(_, value) => [value]
    case _ => []
  }

  ghost predicate Closed(heap: Heap) {
    forall r | r in heap :: forall i | 0 <= i < |Children(heap[r])| :: Children(heap[r])[i] in heap
  }

  // How many tags are left below a reference, tag upon tag.
  type Ranks = map<Ref, nat>

  ghost predicate Ranked(heap: Heap, ranks: Ranks) {
    ranks.Keys == heap.Keys &&
    forall r | r in heap && heap[r].Tag? && heap[r].value in heap && heap[heap[r].value].Tag? ::
      ranks[heap[r].value] < ranks[r]
  }

  // A ring of tags with no container anywhere in it.
  ghost predicate TagRing(heap: Heap, ring: set<Ref>) {
    ring != {} && forall r | r in ring :: r in heap && heap[r].Tag? && heap[r].value in ring
  }

  function Tags(heap: Heap): set<Ref> {
    set r | r in heap && heap[r].Tag?
  }

  lemma LowestRank(ring: set<Ref>, ranks: Ranks) returns (m: Ref)
    requires ring != {} && forall r | r in ring :: r in ranks
    ensures m in ring && forall r | r in ring :: ranks[m] <= ranks[r]
    decreases |ring|
  {
    m :| m in ring;
    var rest := ring - {m};
    assert forall r | r in ring :: r == m || r in rest;
    if rest != {} {
      var n := LowestRank(rest, ranks);
      m := if ranks[n] < ranks[m] then n else m;
    }
  }

  lemma RingHasNoRanks(heap: Heap, ring: set<Ref>, ranks: Ranks)
    requires TagRing(heap, ring)
    ensures !Ranked(heap, ranks)
  {
    if Ranked(heap, ranks) {
      var m := LowestRank(ring, ranks);
    }
  }

  // The tags in `left` still have to be ranked; the rest are.
  lemma RankLeft(heap: Heap, left: set<Ref>, ranks: Ranks) returns (all: Ranks)
    requires Closed(heap) && left <= Tags(heap) && ranks.Keys == heap.Keys
    requires forall ring :: !TagRing(heap, ring)
    requires forall r | r in Tags(heap) - left ::
               && heap[r].value !in left && heap[r].value in heap
               && (heap[heap[r].value].Tag? ==> ranks[heap[r].value] < ranks[r])
    ensures Ranked(heap, all)
    decreases |left|
  {
    if left == {} {
      all := ranks;
    } else {
      assert !TagRing(heap, left);
      var t :| t in left && heap[t].value !in left;
      var next := heap[t].value;
      assert next == Children(heap[t])[0];
      all := RankLeft(heap, left - {t}, ranks[t := 1 + ranks[next]]);
    }
  }

  /** The tags of a graph can be ranked exactly when no ring of them is free of containers. */
  lemma RankedIff(heap: Heap)
    requires Closed(heap)
    ensures (exists ranks :: Ranked(heap, ranks)) <==> forall ring :: !TagRing(heap, ring)
  {
    if ranks :| Ranked(heap, ranks) {
      forall ring ensures !TagRing(heap, ring) {
        if TagRing(heap, ring) { RingHasNoRanks(heap, ring, ranks); }
      }
    }
    if forall ring :: !TagRing(heap, ring) {
      var ranks := RankLeft(heap, Tags(heap), map r | r in heap :: 0);
    }
  }

  lemma FewerLeft(heap: Heap, seen: set<Ref>, r: Ref)
    requires r in Containers(heap) && r !in seen
    ensures |Containers(heap) - (seen + {r})| < |Containers(heap) - seen|
  {
    var less := Containers(heap) - (seen + {r});
    var more := Containers(heap) - seen;
    assert less == more - {r};
  }

  // Every reference of the graph with a JSON form. Each container is on the path at most once, and
  // between containers the tags run down.
  function Walk(c: Codec, heap: Heap, r: Ref, maxInline: nat, seen: set<Ref>, ghost ranks: Ranks): Json
    requires Closed(heap) && r in heap && Ranked(heap, ranks)
    decreases |Containers(heap) - seen|, if heap[r].Tag? then ranks[r] + 1 else 0
  {
    match heap[r]
    case Scalar(v) => v
    case OddFloat(repr) => Marker("float", "value", repr)
    case Blob(raw) => BytesMarker(c, raw, maxInline)
    case MapOf(entries) =>
      if r in seen then JObj([(TYPE_KEY, JStr("cycle"))])
      else
        FewerLeft(heap, seen, r);
        assert forall i | 0 <= i < |entries| :: Children(heap[r])[i] == entries[i].1;
        JObj(DictOf(seq(|entries|, i requires 0 <= i < |entries| =>
          (SafeKey(entries[i].0), Walk(c, heap, entries[i].1, maxInline, seen + {r}, ranks)))))
    case ListOf(items) =>
      if r in seen then JObj([(TYPE_KEY, JStr("cycle"))])
      else
        FewerLeft(heap, seen, r);
        assert forall i | 0 <= i < |items| :: Children(heap[r])[i] == items[i];
        JList(seq(|items|, i requires 0 <= i < |items| => Walk(c, heap, items[i], maxInline, seen + {r}, ranks)))
    case Moment(iso) => Marker("datetime", "value", iso)
    case Decimal(text) => Marker("decimal", "value", text)
    case Tag(tag, value) =>
      assert value == Children(heap[r])[0];
      JObj([(TYPE_KEY, JStr("tag")), ("tag", JNumber(tag as real)),
        ("value", Walk(c, heap, value, maxInline, seen, ranks))])
    case Opaque(repr) => Marker("unrepresentable", "repr", if |repr| <= 200 then repr else repr[..200])
  }

  // A byte string's marker: its length, its digest, and as much of it as the limit allows.
  predicate IsBlob(c: Codec, raw: seq<int>, maxInline: nat, out: Json) {
    var head := if |raw| > maxInline then raw[..maxInline] else raw;
    var marker := [("__localthings_type__", JStr("bytes")), ("len", JNumber(|raw| as real)),
                   ("sha256", JStr(c.digest(raw))), ("base64", JStr(c.encode(head)))];
    out == JObj(if |raw| > maxInline then marker + [("truncated", JBool(true))] else marker)
  }

  // What a node with no container below it is written as; a container met again is a cycle.
  predicate IsWritten(c: Codec, n: Node, maxInline: nat, again: bool, out: Json) {
    match n
    case Scalar(v) => out == v
    case OddFloat(repr) => out == JObj([("__localthings_type__", JStr("float")), ("value", JStr(repr))])
    case Moment(iso) => out == JObj([("__localthings_type__", JStr("datetime")), ("value", JStr(iso))])
    case Decimal(text) => out == JObj([("__localthings_type__", JStr("decimal")), ("value", JStr(text))])
    case Blob(raw) => IsBlob(c, raw, maxInline, out)
    case Opaque(repr) =>
      out == JObj([("__localthings_type__", JStr("unrepresentable")),
                   ("repr", JStr(if |repr| > 200 then repr[..200] else repr))])
    case MapOf(_) => again ==> out == JObj([("__localthings_type__", JStr("cycle"))])
    case ListOf(_) => again ==> out == JObj([("__localthings_type__", JStr("cycle"))])
    case Tag(_, _) => true
  }

  /** What an object JSON has no form for is written as: an object naming its kind, with text no
      longer than 200; a tag keeps its number beside its value. */
  lemma MarkersAre(c: Codec, heap: Heap, r: Ref, maxInline: nat, seen: set<Ref>, ranks: Ranks)
    requires Closed(heap) && r in heap && Ranked(heap, ranks)
    ensures IsWritten(c, heap[r], maxInline, r in seen, Walk(c, heap, r, maxInline, seen, ranks))
    ensures heap[r].Tag? ==>
              && Children(heap[r])[0] == heap[r].value && heap[r].value in heap
              && Walk(c, heap, r, maxInline, seen, ranks) ==
                 JObj([("__localthings_type__", JStr("tag")), ("tag", JNumber(heap[r].tag as real)),
                       ("value", Walk(c, heap, heap[r].value, maxInline, seen, ranks))])
  {
    if heap[r].Tag? { assert heap[r].value == Children(heap[r])[0]; }
  }

  /** A list off the path is written item by item, in order. */
  lemma ListIs(c: Codec, heap: Heap, r: Ref, maxInline: nat, seen: set<Ref>, ranks: Ranks, i: nat)
    requires Closed(heap) && r in heap && Ranked(heap, ranks)
    requires heap[r].ListOf? && r !in seen && i < |heap[r].items|
    ensures var out := Walk(c, heap, r, maxInline, seen, ranks);
      && out.JList? && |out.items| == |heap[r].items| && heap[r].items[i] in heap
      && out.items[i] == Walk(c, heap, heap[r].items[i], maxInline, seen + {r}, ranks)
  {
    assert Children(heap[r])[i] == heap[r].items[i];
  }

  // A key's text: itself, or what is printed of it behind the marker's name.
  predicate IsText(key: Key, k: string) {
    match key
    case Text(s) => s == k
    case Printed(repr) => "__localthings_type__:" + repr == k
  }

  // The entry at `i` is the last of its text.
  predicate LastOfText(entries: seq<(Key, Ref)>, k: string, i: nat) {
    i < |entries| && IsText(entries[i].0, k) && forall j | i < j < |entries| :: !IsText(entries[j].0, k)
  }

  /** A map off the path holds under each text what the last key of that text maps to, and nothing
      under any other. */
  lemma MapIs(c: Codec, heap: Heap, r: Ref, maxInline: nat, seen: set<Ref>, ranks: Ranks, k: string, i: nat)
    requires Closed(heap) && r in heap && Ranked(heap, ranks)
    requires heap[r].MapOf? && r !in seen
    ensures var out, entries := Walk(c, heap, r, maxInline, seen, ranks), heap[r].entries;
      && out.JObj?
      && (LastOfText(entries, k, i) ==>
            && entries[i].1 in heap
            && Lookup(out.fields, k) == Some(Walk(c, heap, entries[i].1, maxInline, seen + {r}, ranks)))
      && ((forall j | 0 <= j < |entries| :: !IsText(entries[j].0, k)) ==> Lookup(out.fields, k) == None)
  {
    var entries := heap[r].entries;
    FewerLeft(heap, seen, r);
    assert forall j | 0 <= j < |entries| :: Children(heap[r])[j] == entries[j].1;
    var pairs := seq(|entries|, j requires 0 <= j < |entries| =>
      (SafeKey(entries[j].0), Walk(c, heap, entries[j].1, maxInline, seen + {r}, ranks)));
    DictLookup(pairs, k);
    LookupByText(entries, pairs, k, i);
  }

  lemma LookupByText(entries: seq<(Key, Ref)>, pairs: seq<(string, Json)>, k: string, i: nat)
    requires |pairs| == |entries| && forall j | 0 <= j < |entries| :: pairs[j].0 == SafeKey(entries[j].0)
    ensures LastOfText(entries, k, i) ==> Lookup(pairs, k) == Some(pairs[i].1)
    ensures (forall j | 0 <= j < |entries| :: !IsText(entries[j].0, k)) ==> Lookup(pairs, k) == None
  {
    assert forall j | 0 <= j < |entries| :: pairs[j].0 == k <==> IsText(entries[j].0, k);
    if LastOfText(entries, k, i) { LookupLast(pairs, k, i); }
  }

  lemma {:induction false} LookupLast(pairs: seq<(string, Json)>, k: string, i: nat)
    requires i < |pairs| && pairs[i].0 == k && forall j | i < j < |pairs| :: pairs[j].0 != k
    ensures Lookup(pairs, k) == Some(pairs[i].1)
  {
    if i < |pairs| - 1 { LookupLast(pairs[..|pairs| - 1], k, i); }
  }

  // ---------------------------------------------------------------------
  // Trees
  // ---------------------------------------------------------------------

  // A value without sharing or cycles, of the kinds the inverse knows.
  datatype Tree =
    | Leaf(v: Json)
    | Bytes(raw: seq<int>)
    | TreeList(items: seq<Tree>)
    | TreeMap(fields: seq<(string, Tree)>)

  predicate IsLeaf(v: Json) {
    !v.JList? && !v.JObj?
  }

  ghost predicate IsTree(t: Tree) {
    match t
    case Leaf(v) => IsLeaf(v)
    case Bytes(_) => true
    case TreeList(items) => forall i | 0 <= i < |items| :: IsTree(items[i])
    case TreeMap(fields) => Distinct(fields) && forall i | 0 <= i < |fields| :: IsTree(fields[i].1)
  }

  function Encoded(c: Codec, t: Tree, maxInline: nat): Json {
    match t
    case Leaf(v) => v
    case Bytes(raw) => BytesMarker(c, raw, maxInline)
    case TreeList(items) => JList(seq(|items|, i requires 0 <= i < |items| => Encoded(c, items[i], maxInline)))
    case TreeMap(fields) =>
      JObj(seq(|fields|, i requires 0 <= i < |fields| => (fields[i].0, Encoded(c, fields[i].1, maxInline))))
  }

  // The graph from `r` down is this tree, no container of it being on the path already.
  ghost predicate Unfolds(heap: Heap, r: Ref, path: set<Ref>, t: Tree)
    decreases t
  {
    r in heap &&
    match heap[r]
    case Scalar(v) => IsLeaf(v) && t == Leaf(v)
    case Blob(raw) => t == Bytes(raw)
    case ListOf(items) =>
      r !in path && t.TreeList? && |t.items| == |items| &&
      forall i | 0 <= i < |items| :: Unfolds(heap, items[i], path + {r}, t.items[i])
    case MapOf(entries) =>
      r !in path && t.TreeMap? && |t.fields| == |entries| && Distinct(t.fields) &&
      forall i | 0 <= i < |entries| ::
        entries[i].0 == Text(t.fields[i].0) && Unfolds(heap, entries[i].1, path + {r}, t.fields[i].1)
    case _ => false
  }

  /** Walking a graph that is a tree encodes that tree, whatever it shares. */
  lemma {:induction false} WalkEncodes(
    c: Codec, heap: Heap, r: Ref, maxInline: nat, path: set<Ref>, ranks: Ranks, t: Tree)
    requires Closed(heap) && Ranked(heap, ranks) && Unfolds(heap, r, path, t)
    ensures Walk(c, heap, r, maxInline, path, ranks) == Encoded(c, t, maxInline)
    ensures IsTree(t)
    decreases t
  {
    match heap[r]
    case ListOf(items) =>
      assert forall i | 0 <= i < |items| :: Children(heap[r])[i] == items[i];
      forall i | 0 <= i < |items|
        ensures Walk(c, heap, items[i], maxInline, path + {r}, ranks) == Encoded(c, t.items[i], maxInline) &&
            IsTree(t.items[i])
      {
        WalkEncodes(c, heap, items[i], maxInline, path + {r}, ranks, t.items[i]);
      }
    case MapOf(entries) =>
      assert forall i | 0 <= i < |entries| :: Children(heap[r])[i] == entries[i].1;
      forall i | 0 <= i < |entries|
        ensures Walk(c, heap, entries[i].1, maxInline, path + {r}, ranks) == Encoded(c, t.fields[i].1, maxInline)
        ensures IsTree(t.fields[i].1)
      {
        WalkEncodes(c, heap, entries[i].1, maxInline, path + {r}, ranks, t.fields[i].1);
      }
      var pairs := seq(|entries|, i requires 0 <= i < |entries| =>
        (SafeKey(entries[i].0), Walk(c, heap, entries[i].1, maxInline, path + {r}, ranks)));
      assert pairs == Encoded(c, t, maxInline).fields;
      DictOfKeepsIff(pairs);
    case _ =>
  }

  // ---------------------------------------------------------------------
  // And back
  // ---------------------------------------------------------------------

  // JSON as it is, nothing turned back.
  function Verbatim(v: Json): Tree {
    match v
    case JList(items) => TreeList(seq(|items|, i requires 0 <= i < |items| => Verbatim(items[i])))
    case JObj(fields) => TreeMap(seq(|fields|, i requires 0 <= i < |fields| => (fields[i].0, Verbatim(fields[i].1))))
    case _ => Leaf(v)
  }

  predicate IsMarker(fields: seq<(string, Json)>) {
    var truncated := Lookup(fields, "truncated");
    Lookup(fields, TYPE_KEY) == Some(JStr("bytes")) && (truncated.None? || !Truthy(truncated.value))
  }

  function MarkedBytes(c: Codec, fields: seq<(string, Json)>): Option<seq<int>> {
    var text := Lookup(fields, "base64");
    if text.Some? && text.value.JStr? then c.decode(text.value.s) else None
  }

  function FromJsonSafe(c: Codec, v: Json): Tree {
    match v
    case JList(items) => TreeList(seq(|items|, i requires 0 <= i < |items| => FromJsonSafe(c, items[i])))
    case JObj(fields) =>
      if IsMarker(fields) then
        var raw := MarkedBytes(c, fields);
        if raw.Some? then Bytes(raw.value) else Verbatim(v)
      else TreeMap(seq(|fields|, i requires 0 <= i < |fields| => (fields[i].0, FromJsonSafe(c, fields[i].1))))
    case _ => Leaf(v)
  }

  predicate HasBytes(t: Tree) {
    match t
    case Leaf(_) => false
    case Bytes(_) => true
    case TreeList(items) => exists i :: 0 <= i < |items| && HasBytes(items[i])
    case TreeMap(fields) => exists i :: 0 <= i < |fields| && HasBytes(fields[i].1)
  }

  // What a value of the tree counts as once encoded.
  predicate TruthyTree(t: Tree) {
    match t
    case Leaf(v) => Truthy(v)
    case Bytes(_) => true
    case TreeList(items) => items != []
    case TreeMap(fields) => fields != []
  }

  // The map would be taken for a bytes marker.
  predicate Poses(fields: seq<(string, Tree)>) {
    var truncated := Lookup(fields, "truncated");
    Lookup(fields, TYPE_KEY) == Some(Leaf(JStr("bytes"))) && (truncated.None? || !TruthyTree(truncated.value))
  }

  // ... and its text read as base64.
  predicate PosesWhole(c: Codec, fields: seq<(string, Tree)>) {
    var text := Lookup(fields, "base64");
    Poses(fields) && text.Some? && text.value.Leaf? && text.value.v.JStr? && c.decode(text.value.v.s).Some?
  }

  // Every byte string is kept whole and no map is mistaken for a marker.
  predicate Kept(c: Codec, t: Tree, maxInline: nat) {
    match t
    case Leaf(_) => true
    case Bytes(raw) => |raw| <= maxInline
    case TreeList(items) => forall i | 0 <= i < |items| :: Kept(c, items[i], maxInline)
    case TreeMap(fields) =>
      if Poses(fields) then !PosesWhole(c, fields) && !HasBytes(t)
      else forall i | 0 <= i < |fields| :: Kept(c, fields[i].1, maxInline)
  }

  lemma {:induction false} VerbatimIff(c: Codec, t: Tree, maxInline: nat)
    requires IsTree(t)
    ensures Verbatim(Encoded(c, t, maxInline)) == t <==> !HasBytes(t)
    decreases t
  {
    match t
    case TreeList(items) =>
      forall i | 0 <= i < |items|
        ensures Verbatim(Encoded(c, items[i], maxInline)) == items[i] <==> !HasBytes(items[i])
      {
        VerbatimIff(c, items[i], maxInline);
      }
      var back := Verbatim(Encoded(c, t, maxInline));
      assert back == t <==> forall i | 0 <= i < |items| :: back.items[i] == items[i];
    case TreeMap(fields) =>
      forall i | 0 <= i < |fields|
        ensures Verbatim(Encoded(c, fields[i].1, maxInline)) == fields[i].1 <==> !HasBytes(fields[i].1)
      {
        VerbatimIff(c, fields[i].1, maxInline);
      }
      var back := Verbatim(Encoded(c, t, maxInline));
      assert back == t <==> forall i | 0 <= i < |fields| :: back.fields[i] == fields[i];
    case _ =>
  }

  lemma {:induction false} EncodedLookup(c: Codec, fields: seq<(string, Tree)>, maxInline: nat, key: string)
    ensures var encoded := Encoded(c, TreeMap(fields), maxInline).fields;
      var at := Lookup(fields, key);
      Lookup(encoded, key) == if at.Some? then Some(Encoded(c, at.value, maxInline)) else None
  {
    var encoded := Encoded(c, TreeMap(fields), maxInline).fields;
    if fields != [] {
      assert encoded[..|encoded| - 1] == Encoded(c, TreeMap(fields[..|fields| - 1]), maxInline).fields;
      EncodedLookup(c, fields[..|fields| - 1], maxInline, key);
    }
  }

  lemma MarkerNames()
    ensures TYPE_KEY != "len" && TYPE_KEY != "sha256" && TYPE_KEY != "base64" && TYPE_KEY != "truncated"
    ensures "len" != "sha256" && "len" != "base64" && "len" != "truncated"
    ensures "sha256" != "base64" && "sha256" != "truncated" && "base64" != "truncated"
  {
    assert |TYPE_KEY| == 20 && |"len"| == 3 && |"sha256"| == 6 && |"base64"| == 6 && |"truncated"| == 9;
    assert "sha256"[0] == 's' && "base64"[0] == 'b';
  }

  lemma MarkerReads(c: Codec, raw: seq<int>, maxInline: nat)
    ensures var fields := BytesMarker(c, raw, maxInline).fields;
      && Lookup(fields, TYPE_KEY) == Some(JStr("bytes"))
      && Lookup(fields, "truncated") == (if |raw| <= maxInline then None else Some(JBool(true)))
      && (|raw| <= maxInline ==> Lookup(fields, "base64") == Some(JStr(c.encode(raw))))
  {
    MarkerNames();
    var fields := BytesMarker(c, raw, maxInline).fields;
    var head := if |raw| <= maxInline then raw else raw[..maxInline];
    assert fields[0].0 == TYPE_KEY && fields[1].0 == "len" && fields[2].0 == "sha256" && fields[3].0 == "base64";
    assert |fields| == 5 ==> fields[4] == ("truncated", JBool(true));
    assert Distinct(fields);
    assert (TYPE_KEY, JStr("bytes")) == fields[0] && ("base64", JStr(c.encode(head))) == fields[3];
    LookupDistinct(fields, TYPE_KEY, JStr("bytes"));
    LookupDistinct(fields, "base64", JStr(c.encode(head)));
    if |raw| > maxInline { LookupDistinct(fields, "truncated", JBool(true)); }
  }

  lemma BytesRoundTripIff(c: Codec, raw: seq<int>, maxInline: nat)
    requires Inverse(c)
    ensures FromJsonSafe(c, BytesMarker(c, raw, maxInline)) == Bytes(raw) <==> |raw| <= maxInline
  {
    MarkerReads(c, raw, maxInline);
  }

  /** Turning the encoding of a tree back gives the tree exactly when every byte string is within
      the inline limit and no map poses as a marker: none whose text is valid base64, and none at
      all with byte strings inside it. */
  lemma {:induction false} RoundTripIff(c: Codec, t: Tree, maxInline: nat)
    requires Inverse(c) && IsTree(t)
    ensures FromJsonSafe(c, Encoded(c, t, maxInline)) == t <==> Kept(c, t, maxInline)
    decreases t
  {
    match t
    case Leaf(_) =>
    case Bytes(raw) => BytesRoundTripIff(c, raw, maxInline);
    case TreeList(items) =>
      forall i | 0 <= i < |items|
        ensures FromJsonSafe(c, Encoded(c, items[i], maxInline)) == items[i] <==> Kept(c, items[i], maxInline)
      {
        RoundTripIff(c, items[i], maxInline);
      }
      var back := FromJsonSafe(c, Encoded(c, t, maxInline));
      assert back == t <==> forall i | 0 <= i < |items| :: back.items[i] == items[i];
    case TreeMap(fields) =>
      forall i | 0 <= i < |fields|
        ensures FromJsonSafe(c, Encoded(c, fields[i].1, maxInline)) == fields[i].1 <==> Kept(c, fields[i].1, maxInline)
      {
        RoundTripIff(c, fields[i].1, maxInline);
      }
      MapRoundTripIff(c, fields, maxInline);
  }

  lemma MapRoundTripIff(c: Codec, fields: seq<(string, Tree)>, maxInline: nat)
    requires IsTree(TreeMap(fields))
    requires forall i | 0 <= i < |fields| ::
               FromJsonSafe(c, Encoded(c, fields[i].1, maxInline)) == fields[i].1 <==> Kept(c, fields[i].1, maxInline)
    ensures FromJsonSafe(c, Encoded(c, TreeMap(fields), maxInline)) == TreeMap(fields) <==>
        Kept(c, TreeMap(fields), maxInline)
  {
    var encoded := Encoded(c, TreeMap(fields), maxInline).fields;
    MarkerIff(c, fields, maxInline);
    if IsMarker(encoded) {
      VerbatimIff(c, TreeMap(fields), maxInline);
    } else {
      var back := FromJsonSafe(c, JObj(encoded));
      assert back == TreeMap(fields) <==> forall i | 0 <= i < |fields| :: back.fields[i] == fields[i];
    }
  }

  lemma EncodedReads(c: Codec, t: Tree, maxInline: nat)
    requires IsTree(t)
    ensures Truthy(Encoded(c, t, maxInline)) <==> TruthyTree(t)
    ensures Encoded(c, t, maxInline).JStr? <==> t.Leaf? && t.v.JStr?
    ensures t.Leaf? ==> Encoded(c, t, maxInline) == t.v
  {
  }

  lemma MarkerIff(c: Codec, fields: seq<(string, Tree)>, maxInline: nat)
    requires IsTree(TreeMap(fields))
    ensures var encoded := Encoded(c, TreeMap(fields), maxInline).fields;
      && (IsMarker(encoded) <==> Poses(fields))
      && (Poses(fields) ==> (MarkedBytes(c, encoded).Some? <==> PosesWhole(c, fields)))
  {
    FieldReads(c, fields, maxInline, TYPE_KEY);
    FieldReads(c, fields, maxInline, "truncated");
    FieldReads(c, fields, maxInline, "base64");
  }

  lemma FieldReads(c: Codec, fields: seq<(string, Tree)>, maxInline: nat, key: string)
    requires IsTree(TreeMap(fields))
    ensures var at := Lookup(Encoded(c, TreeMap(fields), maxInline).fields, key);
      var t := Lookup(fields, key);
      && (at.Some? <==> t.Some?)
      && (t.Some? ==> && (Truthy(at.value) <==> TruthyTree(t.value))
                      && (at.value.JStr? <==> t.value.Leaf? && t.value.v.JStr?)
                      && (t.value.Leaf? ==> at.value == t.value.v))
  {
    EncodedLookup(c, fields, maxInline, key);
    LookedUpIsTree(fields, key);
    if Lookup(fields, key).Some? { EncodedReads(c, Lookup(fields, key).value, maxInline); }
  }

  lemma LookedUpIsTree(fields: seq<(string, Tree)>, key: string)
    requires IsTree(TreeMap(fields))
    ensures Lookup(fields, key).Some? ==> IsTree(Lookup(fields, key).value)
  {
  }

  /** So a graph that is a tree, encoded and turned back, is that tree again under the same
      condition. */
  lemma GraphRoundTripIff(c: Codec, heap: Heap, r: Ref, maxInline: nat, ranks: Ranks, t: Tree)
    requires Inverse(c) && Closed(heap) && Ranked(heap, ranks) && Unfolds(heap, r, {}, t)
    ensures FromJsonSafe(c, Walk(c, heap, r, maxInline, {}, ranks)) == t <==> Kept(c, t, maxInline)
  {
    WalkEncodes(c, heap, r, maxInline, {}, ranks, t);
    RoundTripIff(c, t, maxInline);
  }
}
