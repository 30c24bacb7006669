/**
 Envelope translation for the 8888 bridge: a table of resources says on which canonical href
 and under which canonical name each field of a wrapper-keyed body belongs, in both directions.
 Everything is proved for an arbitrary well-formed table, name prefix and number parser.
 */
module LegacyEnvelope {
  import opened Dicts
  import opened Options
  import opened Text

  datatype Json =
    | JNull
    | JBool(b: bool)
    | JNumber(n: real)
    | JStr(s: string)
    | JList(items: seq<Json>)
    | JObj(fields: seq<(string, Json)>)

  // What `if value:` takes for true.
  predicate Truthy(v: Json) {
    match v
    case JNull => false
    case JBool(b) => b
    case JNumber(n) => n != 0.0
    case JStr(s) => s != ""
    case JList(items) => items != []
    case JObj(fields) => fields != []
  }

  lemma TruthyIff(v: Json)
    ensures !Truthy(v) <==>
            || v == JNull || v == JBool(false) || v == JNumber(0.0) || v == JStr("") || v == JList([]) || v == JObj([])
  {
  }

  type Pairs = seq<(string, string)>

  // One resource: where its fields go. `fanOut` and `rename` are the exception tables, and
  // `startOnly` names what the appliance takes only in the body of a start.
  datatype Resource = Resource(
    wrapper: string,
    href: string,
    fanOut: Pairs,
    rename: Pairs,
    asItems: bool,
    numeric: set<string>,
    joined: set<string>,
    startOnly: set<string>
  )

  type Table = seq<Resource>

  // What the translation is parameterized by: the canonical name prefix and `float(...)`.
  datatype Dialect = Dialect(prefix: string, numberOf: string -> Option<real>)

  // ---------------------------------------------------------------------
  // Names and values
  // ---------------------------------------------------------------------

  function Renamed(rename: Pairs, name: string): string {
    var r := Lookup(rename, name);
    if r.Some? then r.value else name
  }

  function CanonicalName(x: Dialect, rename: Pairs, name: string): string {
    x.prefix + Renamed(rename, name)
  }

  function Bare(x: Dialect, name: string): string {
    if x.prefix <= name then name[|x.prefix|..] else name
  }

  function CanonicalValue(x: Dialect, v: Json, rename: Pairs): Json {
    match v
    case JObj(fields) =>
      JObj(DictOf(seq(|fields|, i requires 0 <= i < |fields| =>
        (CanonicalName(x, rename, fields[i].0), CanonicalValue(x, fields[i].1, rename)))))
    case JList(items) =>
      JList(seq(|items|, i requires 0 <= i < |items| => CanonicalValue(x, items[i], rename)))
    case _ => v
  }

  // One field's value as the appliance spells it: bare names inside nested maps, numbers where
  // it reports numbers. List entries have no field name.
  function WireValue(x: Dialect, v: Json, numeric: set<string>, name: string): Json {
    match v
    case JObj(fields) =>
      JObj(DictOf(seq(|fields|, i requires 0 <= i < |fields| =>
        (Bare(x, fields[i].0), WireValue(x, fields[i].1, numeric, Bare(x, fields[i].0))))))
    case JList(items) =>
      JList(seq(|items|, i requires 0 <= i < |items| => WireValue(x, items[i], numeric, "")))
    case JStr(s) =>
      if name in numeric && x.numberOf(s).Some? then JNumber(x.numberOf(s).value) else v
    case _ => v
  }

  // Equal, with a numeric string and the number it spells counted as the same value.
  predicate Same(x: Dialect, a: Json, b: Json) {
    match a
    case JObj(fields) =>
      b.JObj? && |b.fields| == |fields| &&
      forall i | 0 <= i < |fields| :: fields[i].0 == b.fields[i].0 && Same(x, fields[i].1, b.fields[i].1)
    case JList(items) =>
      b.JList? && |b.items| == |items| && forall i | 0 <= i < |items| :: Same(x, items[i], b.items[i])
    case JStr(s) => b == a || (b.JNumber? && x.numberOf(s) == Some(b.n))
    case _ => b == a
  }

  // A name that is canonical and not the bridge's own spelling of a renamed field.
  predicate NameKept(x: Dialect, rename: Pairs, name: string) {
    x.prefix <= name && Renamed(rename, Bare(x, name)) == Bare(x, name)
  }

  lemma NameKeptIff(x: Dialect, rename: Pairs, name: string)
    ensures CanonicalName(x, rename, Bare(x, name)) == name <==> NameKept(x, rename, name)
  {
    if x.prefix <= name {
      assert name == x.prefix + Bare(x, name);
      assert CanonicalName(x, rename, Bare(x, name))[|x.prefix|..] == Renamed(rename, Bare(x, name));
    }
  }

  // Every name inside `v` is kept, at every depth.
  predicate ValueKept(x: Dialect, rename: Pairs, v: Json) {
    match v
    case JObj(fields) =>
      forall i | 0 <= i < |fields| :: NameKept(x, rename, fields[i].0) && ValueKept(x, rename, fields[i].1)
    case JList(items) => forall i | 0 <= i < |items| :: ValueKept(x, rename, items[i])
    case _ => true
  }

  // A Python dict has no repeated key, at any depth.
  ghost predicate IsJson(v: Json) {
    match v
    case JObj(fields) => Distinct(fields) && forall i | 0 <= i < |fields| :: IsJson(fields[i].1)
    case JList(items) => forall i | 0 <= i < |items| :: IsJson(items[i])
    case _ => true
  }

  function WireEntries(x: Dialect, fields: seq<(string, Json)>, numeric: set<string>): seq<(string, Json)> {
    seq(|fields|, i requires 0 <= i < |fields| =>
      (Bare(x, fields[i].0), WireValue(x, fields[i].1, numeric, Bare(x, fields[i].0))))
  }

  function CanonicalEntries(x: Dialect, fields: seq<(string, Json)>, rename: Pairs): seq<(string, Json)> {
    seq(|fields|, i requires 0 <= i < |fields| =>
      (CanonicalName(x, rename, fields[i].0), CanonicalValue(x, fields[i].1, rename)))
  }

  /** A nested value written and read back is the same value exactly when every name in it is
      canonical and none is the bridge's own spelling of a renamed field. */
  lemma {:induction false} ValueRoundTripIff(x: Dialect, v: Json, rename: Pairs, numeric: set<string>, name: string)
    requires IsJson(v)
    ensures Same(x, v, CanonicalValue(x, WireValue(x, v, numeric, name), rename)) <==> ValueKept(x, rename, v)
    decreases v
  {
    match v
    case JObj(fields) =>
      forall i | 0 <= i < |fields|
        ensures FieldRoundTrips(x, fields[i], rename, numeric) <==> ValueKept(x, rename, fields[i].1)
      {
        ValueRoundTripIff(x, fields[i].1, rename, numeric, Bare(x, fields[i].0));
      }
      ObjRoundTripIff(x, fields, rename, numeric, name);
    case JList(items) =>
      forall i | 0 <= i < |items|
        ensures Same(x, items[i], CanonicalValue(x, WireValue(x, items[i], numeric, ""), rename)) <==>
                ValueKept(x, rename, items[i])
      {
        ValueRoundTripIff(x, items[i], rename, numeric, "");
      }
    case _ =>
  }

  predicate FieldRoundTrips(x: Dialect, field: (string, Json), rename: Pairs, numeric: set<string>) {
    Same(x, field.1, CanonicalValue(x, WireValue(x, field.1, numeric, Bare(x, field.0)), rename))
  }

  lemma ObjRoundTripIff(x: Dialect, fields: seq<(string, Json)>, rename: Pairs, numeric: set<string>, name: string)
    requires Distinct(fields)
    requires forall i | 0 <= i < |fields| ::
               FieldRoundTrips(x, fields[i], rename, numeric) <==> ValueKept(x, rename, fields[i].1)
    ensures Same(x, JObj(fields), CanonicalValue(x, WireValue(x, JObj(fields), numeric, name), rename)) <==>
            ValueKept(x, rename, JObj(fields))
  {
    var wire := WireEntries(x, fields, numeric);
    var back := CanonicalEntries(x, DictOf(wire), rename);
    assert WireValue(x, JObj(fields), numeric, name) == JObj(DictOf(wire));
    assert CanonicalValue(x, JObj(DictOf(wire)), rename) == JObj(DictOf(back));
    DictOfKeepsIff(wire);
    DictOfKeepsIff(back);
    if Distinct(wire) && Distinct(back) {
      EntriesRoundTripIff(x, fields, rename, numeric);
    } else {
      assert |DictOf(back)| < |fields|;
      if ValueKept(x, rename, JObj(fields)) {
        KeptNamesDistinct(x, fields, rename, numeric);
      }
    }
  }

  lemma EntriesRoundTripIff(x: Dialect, fields: seq<(string, Json)>, rename: Pairs, numeric: set<string>)
    requires forall i | 0 <= i < |fields| ::
               FieldRoundTrips(x, fields[i], rename, numeric) <==> ValueKept(x, rename, fields[i].1)
    ensures Same(x, JObj(fields), JObj(CanonicalEntries(x, WireEntries(x, fields, numeric), rename))) <==>
            ValueKept(x, rename, JObj(fields))
  {
    forall i | 0 <= i < |fields|
      ensures CanonicalName(x, rename, Bare(x, fields[i].0)) == fields[i].0 <==> NameKept(x, rename, fields[i].0)
    {
      NameKeptIff(x, rename, fields[i].0);
    }
  }

  lemma KeptNamesDistinct(x: Dialect, fields: seq<(string, Json)>, rename: Pairs, numeric: set<string>)
    requires Distinct(fields) && forall i | 0 <= i < |fields| :: NameKept(x, rename, fields[i].0)
    ensures Distinct(WireEntries(x, fields, numeric))
    ensures Distinct(CanonicalEntries(x, WireEntries(x, fields, numeric), rename))
  {
    forall i | 0 <= i < |fields| ensures CanonicalName(x, rename, Bare(x, fields[i].0)) == fields[i].0 {
      NameKeptIff(x, rename, fields[i].0);
    }
    forall i, j | 0 <= i < j < |fields|
      ensures Bare(x, fields[i].0) != Bare(x, fields[j].0)
    {
      assert fields[i].0 != fields[j].0;
    }
  }

  /** Taking off the prefix is all that makes a name bare. */
  lemma BareIs(x: Dialect, name: string, rest: string)
    ensures Bare(x, x.prefix + rest) == rest
    ensures !(x.prefix <= name) ==> Bare(x, name) == name
  {
  }

  // A value as the appliance spells it, said value by value: a text its table calls numeric is the
  // number it reads as, entries of a list have no name, and names inside a map are bare. A map two
  // of whose names are bare alike is left open here.
  ghost predicate Spelled(x: Dialect, numeric: set<string>, name: string, v: Json, wire: Json)
    decreases v
  {
    match v
    case JStr(s) =>
      if name in numeric && x.numberOf(s).Some? then wire == JNumber(x.numberOf(s).value) else wire == JStr(s)
    case JList(items) =>
      && wire.JList? && |wire.items| == |items|
      && forall i | 0 <= i < |items| :: Spelled(x, numeric, "", items[i], wire.items[i])
    case JObj(fields) =>
      && wire.JObj?
      && (BareApart(x, fields) ==>
            && |wire.fields| == |fields|
            && forall i | 0 <= i < |fields| ::
                 && wire.fields[i].0 == Bare(x, fields[i].0)
                 && Spelled(x, numeric, Bare(x, fields[i].0), fields[i].1, wire.fields[i].1))
    case _ => wire == v
  }

  ghost predicate BareApart(x: Dialect, fields: seq<(string, Json)>) {
    forall i, j | 0 <= i < j < |fields| :: Bare(x, fields[i].0) != Bare(x, fields[j].0)
  }

  /** What is sent of a value is that value as the appliance spells it. */
  lemma {:induction false} WireIsSpelled(x: Dialect, v: Json, numeric: set<string>, name: string)
    ensures Spelled(x, numeric, name, v, WireValue(x, v, numeric, name))
    decreases v
  {
    match v
    case JObj(fields) =>
      var wire := WireEntries(x, fields, numeric);
      assert WireValue(x, v, numeric, name) == JObj(DictOf(wire));
      DictOfKeepsIff(wire);
      assert BareApart(x, fields) ==> Distinct(wire);
      forall i | 0 <= i < |fields|
        ensures Spelled(x, numeric, Bare(x, fields[i].0), fields[i].1, wire[i].1)
      {
        WireIsSpelled(x, fields[i].1, numeric, Bare(x, fields[i].0));
      }
    case JList(items) =>
      forall i | 0 <= i < |items| ensures Spelled(x, numeric, "", items[i], WireValue(x, items[i], numeric, "")) {
        WireIsSpelled(x, items[i], numeric, "");
      }
    case _ =>
  }

  // A value as the canonical side spells it: every name inside it renamed and prefixed, nothing else
  // touched. A map two of whose names come out alike is left open here.
  ghost predicate Respelled(x: Dialect, rename: Pairs, v: Json, out: Json) {
    match v
    case JList(items) =>
      && out.JList? && |out.items| == |items|
      && forall i | 0 <= i < |items| :: Respelled(x, rename, items[i], out.items[i])
    case JObj(fields) =>
      && out.JObj?
      && (NamesApart(x, rename, fields) ==>
            && |out.fields| == |fields|
            && forall i | 0 <= i < |fields| ::
                 && out.fields[i].0 == CanonicalName(x, rename, fields[i].0)
                 && Respelled(x, rename, fields[i].1, out.fields[i].1))
    case _ => out == v
  }

  ghost predicate NamesApart(x: Dialect, rename: Pairs, fields: seq<(string, Json)>) {
    forall i, j | 0 <= i < j < |fields| ::
      CanonicalName(x, rename, fields[i].0) != CanonicalName(x, rename, fields[j].0)
  }

  /** What is read of a value is that value as the canonical side spells it. */
  lemma {:induction false} CanonicalIsRespelled(x: Dialect, v: Json, rename: Pairs)
    ensures Respelled(x, rename, v, CanonicalValue(x, v, rename))
    decreases v
  {
    match v
    case JObj(fields) =>
      var canonical := CanonicalEntries(x, fields, rename);
      assert CanonicalValue(x, v, rename) == JObj(DictOf(canonical));
      DictOfKeepsIff(canonical);
      assert NamesApart(x, rename, fields) ==> Distinct(canonical);
      forall i | 0 <= i < |fields| ensures Respelled(x, rename, fields[i].1, canonical[i].1) {
        CanonicalIsRespelled(x, fields[i].1, rename);
      }
    case JList(items) =>
      forall i | 0 <= i < |items| ensures Respelled(x, rename, items[i], CanonicalValue(x, items[i], rename)) {
        CanonicalIsRespelled(x, items[i], rename);
      }
    case _ =>
  }

  // ---------------------------------------------------------------------
  // Comma-joined list fields
  // ---------------------------------------------------------------------

  function SplitCommas(s: string): seq<string>
    decreases |s|
  {
    var i := FirstIndex(s, ',');
    if i < 0 then [s] else [s[..i]] + SplitCommas(s[i + 1..])
  }

  function Parts(entry: Json): seq<Json> {
    if entry.JStr? then
      var pieces := SplitCommas(entry.s);
      seq(|pieces|, i requires 0 <= i < |pieces| => JStr(Strip(pieces[i])))
    else [entry]
  }

  function Collect(seen: seq<Json>, parts: seq<Json>): seq<Json> {
    if parts == [] then seen
    else
      var out := Collect(seen, parts[..|parts| - 1]);
      var part := parts[|parts| - 1];
      if part == JStr("") || part in out then out else out + [part]
  }

  function CollectAll(entries: seq<Json>): seq<Json> {
    if entries == [] then []
    else Collect(CollectAll(entries[..|entries| - 1]), Parts(entries[|entries| - 1]))
  }

  // `["a,b,a"]` becomes `["a", "b"]`; anything but a list stays as it is.
  function SplitJoined(v: Json): Json {
    if v.JList? then JList(CollectAll(v.items)) else v
  }

  predicate IsPart(v: Json) {
    v.JStr? ==> v.s != "" && ',' !in v.s && !IsSpace(v.s[0]) && !IsSpace(v.s[|v.s| - 1])
  }

  predicate IsSplit(items: seq<Json>) {
    && (forall i | 0 <= i < |items| :: IsPart(items[i]))
    && (forall i, j | 0 <= i < j < |items| :: items[i] != items[j])
  }

  lemma {:induction false} SplitPieces(s: string)
    ensures forall i | 0 <= i < |SplitCommas(s)| :: ',' !in SplitCommas(s)[i]
    decreases |s|
  {
    var i := FirstIndex(s, ',');
    if i >= 0 { SplitPieces(s[i + 1..]); }
  }

  lemma StripKeepsOut(s: string)
    requires ',' !in s
    ensures IsPart(JStr(Strip(s))) || Strip(s) == ""
  {
    var l := StripLeft(s);
    var r := StripRight(l);
    if r != "" { assert r[0] == l[0]; }
  }

  lemma {:induction false} CollectKeepsSplit(seen: seq<Json>, parts: seq<Json>)
    requires IsSplit(seen) && forall i | 0 <= i < |parts| :: IsPart(parts[i]) || parts[i] == JStr("")
    ensures IsSplit(Collect(seen, parts))
  {
    if parts != [] {
      CollectKeepsSplit(seen, parts[..|parts| - 1]);
    }
  }

  lemma {:induction false} CollectAllSplits(entries: seq<Json>)
    ensures IsSplit(CollectAll(entries))
  {
    if entries != [] {
      CollectAllSplits(entries[..|entries| - 1]);
      var entry := entries[|entries| - 1];
      if entry.JStr? {
        SplitPieces(entry.s);
        forall i | 0 <= i < |Parts(entry)| ensures IsPart(Parts(entry)[i]) || Parts(entry)[i] == JStr("") {
          StripKeepsOut(SplitCommas(entry.s)[i]);
        }
      }
      CollectKeepsSplit(CollectAll(entries[..|entries| - 1]), Parts(entry));
    }
  }

  lemma PartStands(entry: Json)
    requires IsPart(entry)
    ensures Parts(entry) == [entry]
  {
    if entry.JStr? {
      assert SplitCommas(entry.s) == [entry.s];
      assert StripRight(StripLeft(entry.s)) == entry.s;
    }
  }

  lemma CollectOne(seen: seq<Json>, part: Json)
    requires part != JStr("") && part !in seen
    ensures Collect(seen, [part]) == seen + [part]
  {
    assert [part][..0] == [];
  }

  lemma SplitPrefix(items: seq<Json>)
    requires IsSplit(items) && items != []
    ensures IsSplit(items[..|items| - 1])
    ensures IsPart(items[|items| - 1]) && items[|items| - 1] !in items[..|items| - 1]
  {
    var before := items[..|items| - 1];
    assert forall i | 0 <= i < |before| :: before[i] == items[i];
  }

  lemma {:induction false} SplitIsFixed(items: seq<Json>)
    requires IsSplit(items)
    ensures CollectAll(items) == items
  {
    if items != [] {
      SplitPrefix(items);
      SplitIsFixed(items[..|items| - 1]);
      PartStands(items[|items| - 1]);
      CollectOne(items[..|items| - 1], items[|items| - 1]);
    }
  }

  /** Splitting leaves a value alone exactly when its entries are already single, trimmed,
      non-empty and distinct; so splitting what was split changes nothing. */
  lemma SplitJoinedFixedIff(v: Json)
    ensures SplitJoined(v) == v <==> (v.JList? ==> IsSplit(v.items))
    ensures SplitJoined(SplitJoined(v)) == SplitJoined(v)
  {
    if v.JList? {
      CollectAllSplits(v.items);
      if IsSplit(v.items) { SplitIsFixed(v.items); }
      SplitIsFixed(CollectAll(v.items));
    }
  }

  function JoinedByCommas(pieces: seq<string>): string {
    if pieces == [] then "" else if |pieces| == 1 then pieces[0] else pieces[0] + "," + JoinedByCommas(pieces[1..])
  }

  /** Splitting a text at its commas takes nothing but the commas. */
  lemma {:induction false} SplitCommasJoin(s: string)
    ensures SplitCommas(s) != [] && JoinedByCommas(SplitCommas(s)) == s
    decreases |s|
  {
    var i := FirstIndex(s, ',');
    if i >= 0 {
      SplitCommasJoin(s[i + 1..]);
      var rest := SplitCommas(s[i + 1..]);
      assert SplitCommas(s) == [s[..i]] + rest && ([s[..i]] + rest)[1..] == rest;
      assert s == s[..i] + "," + s[i + 1..];
    }
  }

  // One of an entry's parts: a trimmed piece of a text, or an entry that is no text.
  ghost predicate IsPartOf(part: Json, entry: Json) {
    if entry.JStr? then exists i :: PieceIs(SplitCommas(entry.s), i, part) else part == entry
  }

  predicate PieceIs(pieces: seq<string>, i: int, part: Json) {
    0 <= i < |pieces| && part == JStr(Strip(pieces[i]))
  }

  lemma PartsAre(entry: Json, part: Json)
    ensures part in Parts(entry) <==> IsPartOf(part, entry)
  {
    if entry.JStr? {
      var pieces, parts := SplitCommas(entry.s), Parts(entry);
      if part in parts {
        var i :| 0 <= i < |parts| && parts[i] == part;
        assert PieceIs(pieces, i, part);
      }
      if i :| PieceIs(pieces, i, part) { assert parts[i] == part; }
    }
  }

  lemma {:induction false} CollectHas(seen: seq<Json>, parts: seq<Json>, part: Json)
    ensures part in Collect(seen, parts) <==> part in seen || (part in parts && part != JStr(""))
  {
    if parts != [] {
      assert parts == parts[..|parts| - 1] + [parts[|parts| - 1]];
      CollectHas(seen, parts[..|parts| - 1], part);
    }
  }

  /** A split list holds exactly the parts of its entries that are not empty. */
  lemma {:induction false} SplitHas(entries: seq<Json>, part: Json)
    ensures part in CollectAll(entries) <==> part != JStr("") && exists e :: e in entries && IsPartOf(part, e)
  {
    if entries != [] {
      var before, last := entries[..|entries| - 1], entries[|entries| - 1];
      assert entries == before + [last];
      SplitHas(before, part);
      PartsAre(last, part);
      CollectHas(CollectAll(before), Parts(last), part);
    }
  }

  // ---------------------------------------------------------------------
  // Addresses
  // ---------------------------------------------------------------------

  // Where the wire keeps one canonical field: a field of a wrapper, or the wrapper's whole list.
  datatype Cell = Whole(wrapper: string) | FieldOf(wrapper: string, name: string)

  const ITEMS := "items"

  function ItemsAt(table: Table, href: string): (r: Option<Resource>)
    ensures r.Some? ==> r.value in table && r.value.asItems && r.value.href == href
    ensures r.None? ==> forall q | q in table :: !(q.asItems && q.href == href)
  {
    if table == [] then None
    else if table[|table| - 1].asItems && table[|table| - 1].href == href then Some(table[|table| - 1])
    else ItemsAt(table[..|table| - 1], href)
  }

  // The first wire name the table renames to `canonical`.
  function FirstKeyOf(rename: Pairs, canonical: string): (r: Option<string>)
    ensures r.Some? ==> (r.value, canonical) in rename
    ensures r.None? ==> forall w :: (w, canonical) !in rename
  {
    if rename == [] then None
    else if rename[0].1 == canonical then Some(rename[0].0)
    else FirstKeyOf(rename[1..], canonical)
  }

  function WireField(table: Table, href: string, bare: string): Option<(Resource, string)> {
    if table == [] then None
    else
      var r := table[0];
      if (bare, href) in r.fanOut then Some((r, bare))
      else if r.href != href then WireField(table[1..], href, bare)
      else
        var wire := FirstKeyOf(r.rename, bare);
        Some((r, if wire.Some? then wire.value else bare))
  }

  // The canonical address of one wire field.
  function CanonicalAddress(x: Dialect, r: Resource, name: string): (string, string) {
    var fanned := Lookup(r.fanOut, name);
    (if fanned.Some? then fanned.value else r.href, CanonicalName(x, r.rename, name))
  }

  /** A wire field is read onto the href it fans out to, else its resource's; and under the name it
      is renamed to, else its own, prefixed. */
  lemma AddressIs(x: Dialect, r: Resource, name: string, to: string)
    requires Distinct(r.fanOut) && Distinct(r.rename)
    ensures (name, to) in r.fanOut ==> CanonicalAddress(x, r, name).0 == to
    ensures (forall p | p in r.fanOut :: p.0 != name) ==> CanonicalAddress(x, r, name).0 == r.href
    ensures (name, to) in r.rename ==> CanonicalAddress(x, r, name).1 == x.prefix + to
    ensures (forall p | p in r.rename :: p.0 != name) ==> CanonicalAddress(x, r, name).1 == x.prefix + name
  {
    if (name, to) in r.fanOut { LookupDistinct(r.fanOut, name, to); }
    if (name, to) in r.rename { LookupDistinct(r.rename, name, to); }
  }

  // Unique wrappers and hrefs, an injective rename, and fan-out names and hrefs of their own.
  ghost predicate WellFormed(table: Table) {
    && (forall i, j | 0 <= i < j < |table| :: table[i].wrapper != table[j].wrapper && table[i].href != table[j].href)
    && (forall r | r in table :: WellFormedResource(r))
    && (forall r, q, p | r in table && q in table && p in r.fanOut :: p.1 != q.href)
    && (forall r, q, p | r in table && q in table && p in r.fanOut && p in q.fanOut :: r == q)
  }

  ghost predicate WellFormedResource(r: Resource) {
    && Distinct(r.rename) && Distinct(r.fanOut)
    && (forall p, q | p in r.rename && q in r.rename && p.1 == q.1 :: p == q)
    && (forall p, q | p in r.fanOut && q in r.rename :: p.0 != q.0 && p.0 != q.1)
    && (r.asItems ==> r.fanOut == [])
    && "" !in r.numeric
  }

  // The canonical address goes to where the field it fans out to, or the field itself, lives.
  predicate AddressKept(r: Resource, href: string, bare: string) {
    || (bare, href) in r.fanOut
    || (Lookup(r.fanOut, bare).None? && (FirstKeyOf(r.rename, bare).Some? || Lookup(r.rename, bare).None?))
  }

  lemma {:induction false} WireFieldHome(table: Table, href: string, bare: string)
    ensures WireField(table, href, bare).Some? ==>
              var (r, wire) := WireField(table, href, bare).value;
              && r in table
              && ((bare, href) in r.fanOut ==> wire == bare)
              && ((bare, href) !in r.fanOut ==>
                    && r.href == href
                    && wire == if FirstKeyOf(r.rename, bare).Some? then FirstKeyOf(r.rename, bare).value else bare)
    ensures WireField(table, href, bare).None? ==>
              forall r | r in table :: r.href != href && (bare, href) !in r.fanOut
  {
    if table != [] { WireFieldHome(table[1..], href, bare); }
  }

  lemma SameName(x: Dialect, rename: Pairs, name: string, wire: string)
    requires x.prefix <= name
    ensures CanonicalName(x, rename, wire) == name <==> Renamed(rename, wire) == Bare(x, name)
  {
    assert name == x.prefix + Bare(x, name);
    assert CanonicalName(x, rename, wire)[|x.prefix|..] == Renamed(rename, wire);
  }

  lemma FannedAddress(r: Resource, href: string, bare: string)
    requires WellFormedResource(r) && (bare, href) in r.fanOut
    ensures Lookup(r.fanOut, bare) == Some(href) && Renamed(r.rename, bare) == bare
  {
    LookupDistinct(r.fanOut, bare, href);
  }

  lemma OwnAddressIff(r: Resource, href: string, bare: string, wire: string)
    requires WellFormedResource(r) && (bare, href) !in r.fanOut && r.href == href
    requires forall p | p in r.fanOut :: p.1 != href
    requires wire == if FirstKeyOf(r.rename, bare).Some? then FirstKeyOf(r.rename, bare).value else bare
    ensures Lookup(r.fanOut, wire).None? && Renamed(r.rename, wire) == bare <==> AddressKept(r, href, bare)
    ensures Lookup(r.fanOut, wire).Some? ==> Lookup(r.fanOut, wire).value != href
  {
    if Lookup(r.fanOut, wire).Some? { assert (wire, Lookup(r.fanOut, wire).value) in r.fanOut; }
    if FirstKeyOf(r.rename, bare).Some? {
      LookupDistinct(r.rename, wire, bare);
      FannedNotRenamed(r, wire, bare);
    } else if Lookup(r.rename, bare).Some? {
      assert (bare, Lookup(r.rename, bare).value) in r.rename;
    }
  }

  /** The first match the scan finds is inverse to fan-out and rename exactly when the field is
      one the resource fans out there, or a field of its own that it neither fans out elsewhere
      nor knows only under another canonical name. */
  lemma AddressRoundTripIff(x: Dialect, table: Table, href: string, name: string)
    requires WellFormed(table) && x.prefix <= name
    requires WireField(table, href, Bare(x, name)).Some?
    ensures var (r, wire) := WireField(table, href, Bare(x, name)).value;
      CanonicalAddress(x, r, wire) == (href, name) <==> AddressKept(r, href, Bare(x, name))
  {
    var bare := Bare(x, name);
    WireFieldHome(table, href, bare);
    var (r, wire) := WireField(table, href, bare).value;
    assert WellFormedResource(r);
    SameName(x, r.rename, name, wire);
    if (bare, href) in r.fanOut {
      FannedAddress(r, href, bare);
    } else {
      OwnAddressIff(r, href, bare, wire);
    }
  }

  lemma FannedNotRenamed(r: Resource, wire: string, bare: string)
    requires WellFormedResource(r) && (wire, bare) in r.rename
    ensures Lookup(r.fanOut, wire).None? && Lookup(r.fanOut, bare).None?
  {
  }

  // ---------------------------------------------------------------------
  // Writing
  // ---------------------------------------------------------------------

  datatype Patch = Patch(href: string, name: string, value: Json)

  type Steps = seq<(string, seq<(string, Json)>)>

  type Bodies = map<string, Json>

  function ResourceNamed(table: Table, wrapper: string): (r: Option<Resource>)
    ensures r.Some? ==> r.value in table && r.value.wrapper == wrapper
    ensures r.None? ==> forall q | q in table :: q.wrapper != wrapper
  {
    if table == [] then None
    else if table[0].wrapper == wrapper then Some(table[0])
    else ResourceNamed(table[1..], wrapper)
  }

  // The cell one patched field goes to and what is put there; None when it is dropped.
  function Wired(x: Dialect, table: Table, p: Patch): Option<(Cell, Json)> {
    var listed := ItemsAt(table, p.href);
    if listed.Some? then
      if p.name == x.prefix + ITEMS && p.value.JList? then
        Some((Whole(listed.value.wrapper), WireValue(x, p.value, listed.value.numeric, "")))
      else None
    else
      var home := WireField(table, p.href, Bare(x, p.name));
      if home.None? then None
      else
        var (r, wire) := home.value;
        var numeric := ResourceNamed(table, r.wrapper);
        Some((FieldOf(r.wrapper, wire),
              WireValue(x, p.value, if numeric.Some? then numeric.value.numeric else {}, wire)))
  }

  function FieldsIn(bodies: Bodies, wrapper: string): seq<(string, Json)> {
    if wrapper in bodies && bodies[wrapper].JObj? then bodies[wrapper].fields else []
  }

  function PutCell(bodies: Bodies, cell: Cell, value: Json): Bodies {
    match cell
    case Whole(w) => bodies[w := value]
    case FieldOf(w, name) => bodies[w := JObj(Put(FieldsIn(bodies, w), name, value))]
  }

  function ReadCell(bodies: Bodies, cell: Cell): Option<Json> {
    match cell
    case Whole(w) => if w in bodies && bodies[w].JList? then Some(bodies[w]) else None
    case FieldOf(w, name) => Lookup(FieldsIn(bodies, w), name)
  }

  function WithPatch(x: Dialect, table: Table, before: Bodies, p: Patch): Bodies {
    var wired := Wired(x, table, p);
    if wired.Some? then PutCell(before, wired.value.0, wired.value.1) else before
  }

  function DeviceOf(x: Dialect, table: Table, patches: seq<Patch>): Bodies {
    if patches == [] then map[]
    else WithPatch(x, table, DeviceOf(x, table, patches[..|patches| - 1]), patches[|patches| - 1])
  }

  function PatchesOf(href: string, patch: seq<(string, Json)>): seq<Patch> {
    seq(|patch|, i requires 0 <= i < |patch| => Patch(href, patch[i].0, patch[i].1))
  }

  function Flatten(steps: Steps): seq<Patch> {
    if steps == [] then []
    else Flatten(steps[..|steps| - 1]) + PatchesOf(steps[|steps| - 1].0, steps[|steps| - 1].1)
  }

  /** `[(href, patch), ...]` as one wire body. */
  method ToWrite(x: Dialect, steps: Steps, table: Table) returns (device: Bodies)
    ensures device == DeviceOf(x, table, Flatten(steps))
  {
    device := map[];
    for i := 0 to |steps|
      invariant device == DeviceOf(x, table, Flatten(steps[..i]))
    {
      device := WriteStep(x, table, steps[i].0, steps[i].1, device, Flatten(steps[..i]));
      assert steps[..i + 1][..i] == steps[..i];
    }
    assert steps[..|steps|] == steps;
  }

  method WriteStep(
    x: Dialect, table: Table, href: string, patch: seq<(string, Json)>, before: Bodies, ghost done: seq<Patch>)
    returns (device: Bodies)
    requires before == DeviceOf(x, table, done)
    ensures device == DeviceOf(x, table, done + PatchesOf(href, patch))
  {
    device := before;
    ghost var p := PatchesOf(href, patch);
    assert done + p[..0] == done;
    for j := 0 to |patch|
      invariant device == DeviceOf(x, table, done + p[..j])
    {
      device := WriteField(x, table, href, patch[j].0, patch[j].1, device);
      DeviceOfSnoc(x, table, done + p[..j], p[j]);
      assert done + p[..j + 1] == (done + p[..j]) + [p[j]];
    }
    assert p[..|patch|] == p;
  }

  method WriteField(x: Dialect, table: Table, href: string, name: string, value: Json, before: Bodies)
    returns (device: Bodies)
    ensures device == WithPatch(x, table, before, Patch(href, name, value))
  {
    device := before;
    var listed := ItemsAt(table, href);
    if listed.Some? {
      // The appliance's list is the wrapper's whole body; nothing else on the href is sent.
      if name == x.prefix + ITEMS && value.JList? {
        device := device[listed.value.wrapper := WireValue(x, value, listed.value.numeric, "")];
      }
    } else {
      var target := WireField(table, href, Bare(x, name));
      if target.Some? {
        var (r, wire) := target.value;
        var resource := ResourceNamed(table, r.wrapper);
        var numeric := if resource.Some? then resource.value.numeric else {};
        var fields := if r.wrapper in device && device[r.wrapper].JObj? then device[r.wrapper].fields else [];
        device := device[r.wrapper := JObj(Put(fields, wire, WireValue(x, value, numeric, wire)))];
      }
    }
  }

  lemma DeviceOfSnoc(x: Dialect, table: Table, patches: seq<Patch>, p: Patch)
    ensures DeviceOf(x, table, patches + [p]) == WithPatch(x, table, DeviceOf(x, table, patches), p)
  {
    assert (patches + [p])[..|patches|] == patches;
  }

  // ---------------------------------------------------------------------
  // Reading
  // ---------------------------------------------------------------------

  type Reps = map<string, map<string, Json>>

  function RepAt(out: Reps, href: string): map<string, Json> {
    if href in out then out[href] else map[]
  }

  function FieldRead(x: Dialect, r: Resource, field: (string, Json)): Patch {
    var (href, name) := CanonicalAddress(x, r, field.0);
    var value := if field.0 in r.joined then SplitJoined(field.1) else field.1;
    Patch(href, name, CanonicalValue(x, value, r.rename))
  }

  function WithField(out: Reps, p: Patch): Reps {
    out[p.href := RepAt(out, p.href)[p.name := p.value]]
  }

  function WithFields(x: Dialect, r: Resource, fields: seq<(string, Json)>, out: Reps): Reps {
    if fields == [] then out
    else WithField(WithFields(x, r, fields[..|fields| - 1], out), FieldRead(x, r, fields[|fields| - 1]))
  }

  function WithResource(x: Dialect, r: Resource, bodies: Bodies, out: Reps): Reps {
    if r.wrapper !in bodies then out
    else
      var body := bodies[r.wrapper];
      if r.asItems then
        if body.JList? then out[r.href := map[x.prefix + ITEMS := CanonicalValue(x, body, r.rename)]] else out
      else if body.JObj? then WithFields(x, r, body.fields, out)
      else out
  }

  function ResourcesOf(x: Dialect, bodies: Bodies, table: Table): Reps {
    if table == [] then map[]
    else WithResource(x, table[|table| - 1], bodies, ResourcesOf(x, bodies, table[..|table| - 1]))
  }

  /** Wrapper-keyed bodies as `{canonical href: rep}`. */
  method ToResources(x: Dialect, bodies: Bodies, table: Table) returns (out: Reps)
    ensures out == ResourcesOf(x, bodies, table)
  {
    out := map[];
    for i := 0 to |table|
      invariant out == ResourcesOf(x, bodies, table[..i])
    {
      var resource := table[i];
      assert table[..i + 1][..i] == table[..i];
      if resource.wrapper !in bodies {
        continue;
      }
      var body := bodies[resource.wrapper];
      if resource.asItems {
        if body.JList? {
          out := out[resource.href := map[x.prefix + ITEMS := CanonicalValue(x, body, resource.rename)]];
        }
      } else if body.JObj? {
        out := ReadFields(x, resource, body.fields, out);
      }
    }
    assert table[..|table|] == table;
  }

  method ReadFields(x: Dialect, resource: Resource, fields: seq<(string, Json)>, before: Reps) returns (out: Reps)
    ensures out == WithFields(x, resource, fields, before)
  {
    out := before;
    for j := 0 to |fields|
      invariant out == WithFields(x, resource, fields[..j], before)
    {
      assert fields[..j + 1][..j] == fields[..j];
      var (name, value) := fields[j];
      if name in resource.joined {
        value := SplitJoined(value);
      }
      var fanned := Lookup(resource.fanOut, name);
      var href := if fanned.Some? then fanned.value else resource.href;
      var canonical := CanonicalName(x, resource.rename, name);
      out := out[href := RepAt(out, href)[canonical := CanonicalValue(x, value, resource.rename)]];
    }
    assert fields[..|fields|] == fields;
  }

  // ---------------------------------------------------------------------
  // The round trip
  // ---------------------------------------------------------------------

  predicate CellFits(table: Table, c: Cell) {
    var r := ResourceNamed(table, c.wrapper);
    r.Some? && (r.value.asItems <==> c.Whole?)
  }

  lemma NamedIsUnique(table: Table, r: Resource)
    requires WellFormed(table) && r in table
    ensures ResourceNamed(table, r.wrapper) == Some(r)
  {
    var i :| 0 <= i < |table| && table[i] == r;
    var q := ResourceNamed(table, r.wrapper).value;
    var j :| 0 <= j < |table| && table[j] == q;
    assert i < j ==> table[i].wrapper != table[j].wrapper;
    assert j < i ==> table[j].wrapper != table[i].wrapper;
  }

  lemma WiredFits(x: Dialect, table: Table, p: Patch)
    requires WellFormed(table) && Wired(x, table, p).Some?
    ensures CellFits(table, Wired(x, table, p).value.0)
    ensures Wired(x, table, p).value.0.Whole? ==> Wired(x, table, p).value.1.JList?
  {
    var listed := ItemsAt(table, p.href);
    if listed.Some? {
      NamedIsUnique(table, listed.value);
    } else {
      WireFieldHome(table, p.href, Bare(x, p.name));
      var (r, wire) := WireField(table, p.href, Bare(x, p.name)).value;
      assert WellFormedResource(r);
      NamedIsUnique(table, r);
    }
  }

  // Cells of one resource are of one kind.
  lemma FitsAgree(table: Table, a: Cell, b: Cell)
    requires CellFits(table, a) && CellFits(table, b) && a.wrapper == b.wrapper
    ensures a.Whole? <==> b.Whole?
  {
  }

  /** Where a patched field goes and what is put there: the whole list of an items resource, or one
      field in the spelling its own resource asks for; a field without a home goes nowhere. */
  lemma WiredSpells(x: Dialect, table: Table, p: Patch)
    requires WellFormed(table)
    ensures var listed, home, wired :=
              ItemsAt(table, p.href), WireField(table, p.href, Bare(x, p.name)), Wired(x, table, p);
      && (wired.Some? <==> if listed.Some? then p.name == x.prefix + "items" && p.value.JList? else home.Some?)
      && (wired.Some? && listed.Some? ==>
            && wired.value.0 == Whole(listed.value.wrapper)
            && Spelled(x, listed.value.numeric, "", p.value, wired.value.1))
      && (wired.Some? && listed.None? ==>
            && wired.value.0 == FieldOf(home.value.0.wrapper, home.value.1)
            && Spelled(x, home.value.0.numeric, home.value.1, p.value, wired.value.1))
  {
    var listed, home := ItemsAt(table, p.href), WireField(table, p.href, Bare(x, p.name));
    if listed.Some? {
      WireIsSpelled(x, p.value, listed.value.numeric, "");
    } else if home.Some? {
      var (r, wire) := home.value;
      WireFieldHome(table, p.href, Bare(x, p.name));
      NamedIsUnique(table, r);
      WireIsSpelled(x, p.value, r.numeric, wire);
    }
  }

  lemma PutCellReads(bodies: Bodies, cell: Cell, value: Json, c: Cell)
    requires cell.wrapper == c.wrapper ==> (cell.Whole? <==> c.Whole?)
    requires cell.Whole? ==> value.JList?
    ensures ReadCell(PutCell(bodies, cell, value), c) == if c == cell then Some(value) else ReadCell(bodies, c)
  {
    if cell.wrapper == c.wrapper {
      if cell.FieldOf? {
        var fields := FieldsIn(bodies, cell.wrapper);
        assert FieldsIn(PutCell(bodies, cell, value), c.wrapper) == Put(fields, cell.name, value);
        PutLookup(fields, cell.name, value, c.name);
      }
    } else {
      assert FieldsIn(PutCell(bodies, cell, value), c.wrapper) == FieldsIn(bodies, c.wrapper);
    }
  }

  // The last patch that went to a cell.
  function LastTo(x: Dialect, table: Table, patches: seq<Patch>, c: Cell): Option<Patch> {
    if patches == [] then None
    else
      var p := patches[|patches| - 1];
      var wired := Wired(x, table, p);
      if wired.Some? && wired.value.0 == c then Some(p) else LastTo(x, table, patches[..|patches| - 1], c)
  }

  lemma {:induction false} DeviceReads(x: Dialect, table: Table, patches: seq<Patch>, c: Cell)
    requires WellFormed(table) && CellFits(table, c)
    ensures var last := LastTo(x, table, patches, c);
      && (last.Some? ==> last.value in patches && Wired(x, table, last.value).Some?
                         && Wired(x, table, last.value).value.0 == c)
      && ReadCell(DeviceOf(x, table, patches), c) ==
           if last.Some? then Some(Wired(x, table, last.value).value.1) else None
  {
    if patches != [] {
      var before := patches[..|patches| - 1];
      var p := patches[|patches| - 1];
      DeviceReads(x, table, before, c);
      var wired := Wired(x, table, p);
      if wired.Some? {
        WiredFits(x, table, p);
        if wired.value.0.wrapper == c.wrapper { FitsAgree(table, wired.value.0, c); }
        PutCellReads(DeviceOf(x, table, before), wired.value.0, wired.value.1, c);
      }
    }
  }

  lemma {:induction false} DeviceFieldsDistinct(x: Dialect, table: Table, patches: seq<Patch>, w: string)
    ensures Distinct(FieldsIn(DeviceOf(x, table, patches), w))
  {
    if patches != [] {
      DeviceFieldsDistinct(x, table, patches[..|patches| - 1], w);
      var wired := Wired(x, table, patches[|patches| - 1]);
      if wired.Some? && wired.value.0.FieldOf? && wired.value.0.wrapper == w {
        var cell := wired.value.0;
        PutLookup(FieldsIn(DeviceOf(x, table, patches[..|patches| - 1]), w), cell.name, wired.value.1, cell.name);
      }
    }
  }

  // What reading one cell of a body emits.
  function CellRead(x: Dialect, r: Resource, c: Cell, value: Json): Patch {
    match c
    case Whole(_) => Patch(r.href, x.prefix + ITEMS, CanonicalValue(x, value, r.rename))
    case FieldOf(_, name) => FieldRead(x, r, (name, value))
  }

  // The resource reads `p` off one cell of `bodies`.
  ghost predicate EmittedBy(x: Dialect, bodies: Bodies, r: Resource, c: Cell, p: Patch) {
    && c.wrapper == r.wrapper && (r.asItems <==> c.Whole?)
    && ReadCell(bodies, c).Some? && CellRead(x, r, c, ReadCell(bodies, c).value) == p
  }

  ghost predicate BodiesDistinct(bodies: Bodies) {
    forall w | w in bodies :: Distinct(FieldsIn(bodies, w))
  }

  function At(out: Reps, href: string, name: string): Option<Json> {
    if href in out && name in out[href] then Some(out[href][name]) else None
  }

  // The last of `fields` that is read onto an address, and its canonical value.
  function FieldTo(x: Dialect, r: Resource, fields: seq<(string, Json)>, href: string, name: string): Option<Json> {
    if fields == [] then None
    else
      var read := FieldRead(x, r, fields[|fields| - 1]);
      if read.href == href && read.name == name then Some(read.value)
      else FieldTo(x, r, fields[..|fields| - 1], href, name)
  }

  function ResourceTo(x: Dialect, bodies: Bodies, r: Resource, href: string, name: string): Option<Json> {
    if r.wrapper !in bodies then None
    else if r.asItems then
      if bodies[r.wrapper].JList? && href == r.href && name == x.prefix + ITEMS then
        Some(CanonicalValue(x, bodies[r.wrapper], r.rename))
      else None
    else FieldTo(x, r, FieldsIn(bodies, r.wrapper), href, name)
  }

  function TableTo(x: Dialect, bodies: Bodies, table: Table, href: string, name: string): Option<Json> {
    if table == [] then None
    else
      var last := ResourceTo(x, bodies, table[|table| - 1], href, name);
      if last.Some? then last else TableTo(x, bodies, table[..|table| - 1], href, name)
  }

  lemma {:induction false} FieldToIsRead(
    x: Dialect, r: Resource, fields: seq<(string, Json)>, href: string, name: string)
    returns (f: (string, Json))
    requires FieldTo(x, r, fields, href, name).Some?
    ensures f in fields && FieldRead(x, r, f) == Patch(href, name, FieldTo(x, r, fields, href, name).value)
  {
    f := fields[|fields| - 1];
    if FieldRead(x, r, f).href != href || FieldRead(x, r, f).name != name {
      f := FieldToIsRead(x, r, fields[..|fields| - 1], href, name);
    }
  }

  lemma {:induction false} ReadIsFieldTo(x: Dialect, r: Resource, fields: seq<(string, Json)>, f: (string, Json))
    requires f in fields
    ensures FieldTo(x, r, fields, FieldRead(x, r, f).href, FieldRead(x, r, f).name).Some?
  {
    if f != fields[|fields| - 1] {
      assert f in fields[..|fields| - 1];
      ReadIsFieldTo(x, r, fields[..|fields| - 1], f);
    }
  }

  lemma {:induction false} WithFieldsAt(
    x: Dialect, r: Resource, fields: seq<(string, Json)>, out: Reps, href: string, name: string)
    ensures var read := FieldTo(x, r, fields, href, name);
      At(WithFields(x, r, fields, out), href, name) == if read.Some? then read else At(out, href, name)
  {
    if fields != [] {
      WithFieldsAt(x, r, fields[..|fields| - 1], out, href, name);
    }
  }

  lemma PrefixWellFormed(table: Table)
    requires WellFormed(table) && table != []
    ensures WellFormed(table[..|table| - 1])
    ensures forall q | q in table[..|table| - 1] :: q in table && q != table[|table| - 1]
  {
    var before := table[..|table| - 1];
    assert forall q | q in before :: q in table;
    forall q | q in before ensures q != table[|table| - 1] {
      var i :| 0 <= i < |before| && before[i] == q;
      assert table[i].wrapper != table[|table| - 1].wrapper;
    }
  }

  // Nothing else of the table is read onto the href of an items resource.
  lemma ItemsHrefIsOwn(x: Dialect, bodies: Bodies, table: Table, r: Resource, q: Resource, c: Cell, p: Patch)
    requires WellFormed(table) && r in table && q in table && q != r
    requires EmittedBy(x, bodies, q, c, p)
    ensures p.href != r.href
  {
    var i :| 0 <= i < |table| && table[i] == r;
    var j :| 0 <= j < |table| && table[j] == q;
    assert i < j ==> table[i].href != table[j].href;
    assert j < i ==> table[j].href != table[i].href;
    if c.FieldOf? {
      var fanned := Lookup(q.fanOut, c.name);
      if fanned.Some? { assert (c.name, fanned.value) in q.fanOut; }
    }
  }

  lemma ResourceToIsEmitted(x: Dialect, bodies: Bodies, r: Resource, href: string, name: string) returns (c: Cell)
    requires BodiesDistinct(bodies) && ResourceTo(x, bodies, r, href, name).Some?
    ensures EmittedBy(x, bodies, r, c, Patch(href, name, ResourceTo(x, bodies, r, href, name).value))
  {
    if r.asItems {
      c := Whole(r.wrapper);
    } else {
      var fields := FieldsIn(bodies, r.wrapper);
      var f := FieldToIsRead(x, r, fields, href, name);
      LookupDistinct(fields, f.0, f.1);
      c := FieldOf(r.wrapper, f.0);
    }
  }

  lemma EmittedIsResourceTo(x: Dialect, bodies: Bodies, r: Resource, c: Cell, p: Patch)
    requires EmittedBy(x, bodies, r, c, p)
    ensures ResourceTo(x, bodies, r, p.href, p.name).Some?
  {
    if c.FieldOf? {
      var f := (c.name, ReadCell(bodies, c).value);
      assert f in FieldsIn(bodies, c.wrapper);
      ReadIsFieldTo(x, r, FieldsIn(bodies, c.wrapper), f);
    }
  }

  lemma {:induction false} TableToIsEmitted(x: Dialect, bodies: Bodies, table: Table, href: string, name: string)
    returns (r: Resource, c: Cell)
    requires BodiesDistinct(bodies) && TableTo(x, bodies, table, href, name).Some?
    ensures r in table && EmittedBy(x, bodies, r, c, Patch(href, name, TableTo(x, bodies, table, href, name).value))
  {
    r := table[|table| - 1];
    if ResourceTo(x, bodies, r, href, name).Some? {
      c := ResourceToIsEmitted(x, bodies, r, href, name);
    } else {
      r, c := TableToIsEmitted(x, bodies, table[..|table| - 1], href, name);
    }
  }

  lemma {:induction false} EmittedIsTableTo(x: Dialect, bodies: Bodies, table: Table, r: Resource, c: Cell, p: Patch)
    requires r in table && EmittedBy(x, bodies, r, c, p)
    ensures TableTo(x, bodies, table, p.href, p.name).Some?
  {
    if r == table[|table| - 1] {
      EmittedIsResourceTo(x, bodies, r, c, p);
    } else {
      assert r in table[..|table| - 1];
      EmittedIsTableTo(x, bodies, table[..|table| - 1], r, c, p);
    }
  }

  lemma WithResourceAt(x: Dialect, r: Resource, bodies: Bodies, out: Reps, href: string, name: string)
    requires r.asItems && href == r.href ==> At(out, href, name).None?
    ensures var read := ResourceTo(x, bodies, r, href, name);
      At(WithResource(x, r, bodies, out), href, name) == if read.Some? then read else At(out, href, name)
  {
    if r.wrapper in bodies && !r.asItems && bodies[r.wrapper].JObj? {
      WithFieldsAt(x, r, bodies[r.wrapper].fields, out, href, name);
    }
  }

  // Reading a body through a well-formed table: each address holds what is last read onto it.
  lemma {:induction false} ResourcesAt(x: Dialect, bodies: Bodies, table: Table, href: string, name: string)
    requires WellFormed(table) && BodiesDistinct(bodies)
    ensures At(ResourcesOf(x, bodies, table), href, name) == TableTo(x, bodies, table, href, name)
  {
    if table != [] {
      var before := table[..|table| - 1];
      var r := table[|table| - 1];
      PrefixWellFormed(table);
      ResourcesAt(x, bodies, before, href, name);
      if r.asItems && href == r.href && TableTo(x, bodies, before, href, name).Some? {
        var q, c := TableToIsEmitted(x, bodies, before, href, name);
        ItemsHrefIsOwn(x, bodies, table, r, q, c, Patch(href, name, TableTo(x, bodies, before, href, name).value));
      }
      WithResourceAt(x, r, bodies, ResourcesOf(x, bodies, before), href, name);
    }
  }

  // One patched field that survives being written and read back: it has a home whose canonical
  // address is its own, its value keeps every nested name, and a joined field arrives split.
  ghost predicate PatchKept(x: Dialect, table: Table, p: Patch) {
    && IsJson(p.value)
    && var listed := ItemsAt(table, p.href);
       if listed.Some? then
         p.name == x.prefix + ITEMS && p.value.JList? && ValueKept(x, listed.value.rename, p.value)
       else
         && x.prefix <= p.name
         && var home := WireField(table, p.href, Bare(x, p.name));
            && home.Some?
            && AddressKept(home.value.0, p.href, Bare(x, p.name))
            && ValueKept(x, home.value.0.rename, p.value)
            && (home.value.1 in home.value.0.joined ==>
                  SplitJoined(Wired(x, table, p).value.1) == Wired(x, table, p).value.1)
  }

  lemma PatchRoundTrips(x: Dialect, table: Table, p: Patch)
    requires WellFormed(table) && PatchKept(x, table, p)
    ensures Wired(x, table, p).Some?
    ensures var (c, value) := Wired(x, table, p).value;
      && CellFits(table, c)
      && var back := CellRead(x, ResourceNamed(table, c.wrapper).value, c, value);
         back.href == p.href && back.name == p.name && Same(x, p.value, back.value)
  {
    WiredFits(x, table, p);
    var (c, value) := Wired(x, table, p).value;
    var r := ResourceNamed(table, c.wrapper).value;
    var listed := ItemsAt(table, p.href);
    if listed.Some? {
      NamedIsUnique(table, listed.value);
      ValueRoundTripIff(x, p.value, r.rename, r.numeric, "");
    } else {
      WireFieldHome(table, p.href, Bare(x, p.name));
      NamedIsUnique(table, WireField(table, p.href, Bare(x, p.name)).value.0);
      AddressRoundTripIff(x, table, p.href, p.name);
      ValueRoundTripIff(x, p.value, r.rename, r.numeric, c.name);
    }
  }

  // The last value patched onto an address.
  function LastPatched(patches: seq<Patch>, href: string, name: string): Option<Json> {
    if patches == [] then None
    else if patches[|patches| - 1].href == href && patches[|patches| - 1].name == name then
      Some(patches[|patches| - 1].value)
    else LastPatched(patches[..|patches| - 1], href, name)
  }

  // On kept patches, the last one to a cell is the last one on its address.
  lemma {:induction false} LastToIsLastPatched(x: Dialect, table: Table, patches: seq<Patch>, p: Patch)
    requires WellFormed(table) && p in patches && forall q | q in patches :: PatchKept(x, table, q)
    requires Wired(x, table, p).Some?
    ensures var last := LastTo(x, table, patches, Wired(x, table, p).value.0);
      && last.Some? && last.value.href == p.href && last.value.name == p.name
      && LastPatched(patches, p.href, p.name) == Some(last.value.value)
  {
    var q := patches[|patches| - 1];
    var c := Wired(x, table, p).value.0;
    PatchRoundTrips(x, table, p);
    PatchRoundTrips(x, table, q);
    if Wired(x, table, q).value.0 == c {
      SameCellSameAddress(x, table, p, q);
    } else {
      if q.href == p.href && q.name == p.name { SameAddressSameCell(x, table, p, q); }
      assert p in patches[..|patches| - 1];
      LastToIsLastPatched(x, table, patches[..|patches| - 1], p);
    }
  }

  lemma SameCellSameAddress(x: Dialect, table: Table, p: Patch, q: Patch)
    requires WellFormed(table) && PatchKept(x, table, p) && PatchKept(x, table, q)
    requires Wired(x, table, p).Some? && Wired(x, table, q).Some?
    requires Wired(x, table, p).value.0 == Wired(x, table, q).value.0
    ensures p.href == q.href && p.name == q.name
  {
    PatchRoundTrips(x, table, p);
    PatchRoundTrips(x, table, q);
  }

  lemma SameAddressSameCell(x: Dialect, table: Table, p: Patch, q: Patch)
    requires PatchKept(x, table, p) && PatchKept(x, table, q) && p.href == q.href && p.name == q.name
    ensures Wired(x, table, p).Some? && Wired(x, table, q).Some?
    ensures Wired(x, table, p).value.0 == Wired(x, table, q).value.0
  {
  }

  /** Writing canonical patches and reading the body back gives exactly the patched hrefs and
      fields, each with the value last patched onto it (a number for the string that spells it). */
  lemma TranslationRoundTrip(x: Dialect, table: Table, steps: Steps, href: string, name: string)
    requires WellFormed(table) && forall p | p in Flatten(steps) :: PatchKept(x, table, p)
    ensures var read := At(ResourcesOf(x, DeviceOf(x, table, Flatten(steps)), table), href, name);
      var last := LastPatched(Flatten(steps), href, name);
      && (read.Some? <==> last.Some?)
      && (last.Some? ==> Same(x, last.value, read.value))
  {
    var patches := Flatten(steps);
    var device := DeviceOf(x, table, patches);
    forall w | w in device ensures Distinct(FieldsIn(device, w)) { DeviceFieldsDistinct(x, table, patches, w); }
    ResourcesAt(x, device, table, href, name);
    var read := TableTo(x, device, table, href, name);
    if read.Some? {
      var r, c := TableToIsEmitted(x, device, table, href, name);
      EmittedIsPatched(x, table, patches, r, c, Patch(href, name, read.value));
    } else {
      LastPatchedIn(patches, href, name);
      if LastPatched(patches, href, name).Some? {
        var r, c, e := PatchedIsEmitted(x, table, patches, href, name);
        EmittedIsTableTo(x, device, table, r, c, e);
      }
    }
  }

  lemma {:induction false} LastPatchedIn(patches: seq<Patch>, href: string, name: string)
    ensures LastPatched(patches, href, name).Some? <==> exists p :: p in patches && p.href == href && p.name == name
  {
    if patches != [] {
      LastPatchedIn(patches[..|patches| - 1], href, name);
      assert patches == patches[..|patches| - 1] + [patches[|patches| - 1]];
    }
  }

  lemma EmittedIsPatched(x: Dialect, table: Table, patches: seq<Patch>, r: Resource, c: Cell, e: Patch)
    requires WellFormed(table) && forall p | p in patches :: PatchKept(x, table, p)
    requires r in table && EmittedBy(x, DeviceOf(x, table, patches), r, c, e)
    ensures LastPatched(patches, e.href, e.name).Some?
    ensures Same(x, LastPatched(patches, e.href, e.name).value, e.value)
  {
    NamedIsUnique(table, r);
    DeviceReads(x, table, patches, c);
    var p := LastTo(x, table, patches, c).value;
    PatchRoundTrips(x, table, p);
    LastToIsLastPatched(x, table, patches, p);
  }

  lemma PatchedIsEmitted(x: Dialect, table: Table, patches: seq<Patch>, href: string, name: string)
    returns (r: Resource, c: Cell, e: Patch)
    requires WellFormed(table) && forall p | p in patches :: PatchKept(x, table, p)
    requires exists p :: p in patches && p.href == href && p.name == name
    ensures r in table && EmittedBy(x, DeviceOf(x, table, patches), r, c, e) && e.href == href && e.name == name
  {
    var p :| p in patches && p.href == href && p.name == name;
    PatchRoundTrips(x, table, p);
    c := Wired(x, table, p).value.0;
    LastToIsLastPatched(x, table, patches, p);
    DeviceReads(x, table, patches, c);
    PatchRoundTrips(x, table, LastTo(x, table, patches, c).value);
    r := ResourceNamed(table, c.wrapper).value;
    e := CellRead(x, r, c, ReadCell(DeviceOf(x, table, patches), c).value);
  }

  // One patch, written alone and read back, is all the read gives.
  ghost predicate ReadsBack(x: Dialect, table: Table, p: Patch) {
    forall href, name ::
      var read := At(ResourcesOf(x, DeviceOf(x, table, [p]), table), href, name);
      if href == p.href && name == p.name then read.Some? && Same(x, p.value, read.value) else read.None?
  }

  // Its home is a comma-joined list field.
  predicate IsJoined(x: Dialect, table: Table, p: Patch) {
    var home := WireField(table, p.href, Bare(x, p.name));
    ItemsAt(table, p.href).None? && home.Some? && home.value.1 in home.value.0.joined
  }

  // How many entries are no strings, which splitting passes on unless they repeat.
  function Others(items: seq<Json>): nat {
    if items == [] then 0
    else Others(items[..|items| - 1]) + if items[|items| - 1].JStr? then 0 else 1
  }

  lemma OthersSnoc(items: seq<Json>, last: Json)
    ensures Others(items + [last]) == Others(items) + if last.JStr? then 0 else 1
  {
    assert (items + [last])[..|items|] == items;
  }

  lemma {:induction false} CollectStrings(seen: seq<Json>, parts: seq<Json>)
    requires forall i | 0 <= i < |parts| :: parts[i].JStr?
    ensures Others(Collect(seen, parts)) == Others(seen)
    ensures forall v: Json :: !v.JStr? ==> (v in Collect(seen, parts) <==> v in seen)
  {
    if parts != [] {
      CollectStrings(seen, parts[..|parts| - 1]);
      OthersSnoc(Collect(seen, parts[..|parts| - 1]), parts[|parts| - 1]);
    }
  }

  lemma CollectOther(seen: seq<Json>, other: Json)
    requires !other.JStr?
    ensures Collect(seen, Parts(other)) == if other in seen then seen else seen + [other]
  {
    assert [other][..0] == [];
  }

  // Entries that are no strings are all there after splitting, and as many only if none repeats.
  lemma {:induction false} CollectAllOthers(entries: seq<Json>)
    ensures forall v: Json :: !v.JStr? && v in entries ==> v in CollectAll(entries)
    ensures Others(CollectAll(entries)) <= Others(entries)
    ensures Others(CollectAll(entries)) == Others(entries) ==> OthersDistinct(entries)
  {
    if entries != [] {
      var before, last := entries[..|entries| - 1], entries[|entries| - 1];
      assert entries == before + [last];
      CollectAllOthers(before);
      if last.JStr? {
        CollectStrings(CollectAll(before), Parts(last));
      } else {
        CollectOther(CollectAll(before), last);
        OthersSnoc(CollectAll(before), last);
      }
    }
  }

  predicate OthersDistinct(items: seq<Json>) {
    forall i, j | 0 <= i < j < |items| && !items[i].JStr? && !items[j].JStr? :: items[i] != items[j]
  }

  // Where every entry that is no string meets one, and there are no more of those, strings meet strings.
  lemma {:induction false} SamePlaces(a: seq<Json>, b: seq<Json>)
    requires |a| == |b| && forall i | 0 <= i < |a| :: !a[i].JStr? ==> !b[i].JStr?
    ensures Others(a) <= Others(b)
    ensures Others(b) <= Others(a) ==> forall i | 0 <= i < |a| :: a[i].JStr? <==> b[i].JStr?
  {
    if a != [] {
      var n := |a| - 1;
      SamePlaces(a[..n], b[..n]);
      assert forall i | 0 <= i < n :: a[..n][i] == a[i] && b[..n][i] == b[i];
    }
  }

  // A list reads back as itself through a joined field only if it arrived split, whatever it holds.
  lemma JoinedReadsBack(x: Dialect, items: seq<Json>, wire: seq<Json>, back: seq<Json>)
    requires |wire| == |items| && (forall i | 0 <= i < |items| :: WiredEntry(items[i], wire[i]))
    requires |back| == |CollectAll(wire)| && (forall i | 0 <= i < |back| :: ReadEntry(CollectAll(wire)[i], back[i]))
    requires Same(x, JList(items), JList(back))
    ensures CollectAll(wire) == wire
  {
    var parts := CollectAll(wire);
    forall i | 0 <= i < |wire| ensures !wire[i].JStr? ==> !parts[i].JStr? {
      assert Same(x, items[i], back[i]) && WiredEntry(items[i], wire[i]) && ReadEntry(parts[i], back[i]);
    }
    CollectAllOthers(wire);
    SamePlaces(wire, parts);
    CollectAllSplits(wire);
    forall i | 0 <= i < |wire| ensures wire[i].JStr? ==> wire[i] == parts[i] {
      assert Same(x, items[i], back[i]) && WiredEntry(items[i], wire[i]) && ReadEntry(parts[i], back[i]);
    }
    assert IsSplit(wire) by { SplitByPlaces(wire, parts); }
    SplitIsFixed(wire);
  }

  lemma SplitByPlaces(wire: seq<Json>, parts: seq<Json>)
    requires |wire| == |parts| && IsSplit(parts) && OthersDistinct(wire)
    requires forall i | 0 <= i < |wire| :: wire[i].JStr? ==> wire[i] == parts[i]
    ensures IsSplit(wire)
  {
    forall i | 0 <= i < |wire| ensures IsPart(wire[i]) {
      assert IsPart(parts[i]);
    }
    forall i, j | 0 <= i < j < |wire| ensures wire[i] != wire[j] {
      assert parts[i] != parts[j];
    }
  }

  // An entry on its way out stays a string or no string, a string as it is; likewise on its way in.
  predicate WiredEntry(item: Json, wire: Json) {
    (item.JStr? || wire.JStr?) ==> wire == item
  }

  predicate ReadEntry(part: Json, back: Json) {
    (part.JStr? || back.JStr?) ==> back == part
  }

  lemma EntriesKeepStrings(x: Dialect, items: seq<Json>, numeric: set<string>, name: string, rename: Pairs)
    ensures var wire := WireValue(x, JList(items), numeric, name);
      && wire.JList? && |wire.items| == |items|
      && ("" !in numeric ==> forall i | 0 <= i < |items| :: WiredEntry(items[i], wire.items[i]))
    ensures var back := CanonicalValue(x, JList(items), rename);
      && back.JList? && |back.items| == |items|
      && forall i | 0 <= i < |items| :: ReadEntry(items[i], back.items[i])
  {
    var wire := WireValue(x, JList(items), numeric, name);
    forall i | 0 <= i < |items| ensures "" !in numeric ==> WiredEntry(items[i], wire.items[i]) {
      assert wire.items[i] == WireValue(x, items[i], numeric, "");
    }
  }

  lemma JoinedListReadsBack(x: Dialect, items: seq<Json>, numeric: set<string>, name: string, rename: Pairs)
    requires "" !in numeric
    requires Same(x, JList(items), CanonicalValue(x, SplitJoined(WireValue(x, JList(items), numeric, name)), rename))
    ensures SplitJoined(WireValue(x, JList(items), numeric, name)) == WireValue(x, JList(items), numeric, name)
  {
    var wire := WireValue(x, JList(items), numeric, name);
    var parts := CollectAll(wire.items);
    EntriesKeepStrings(x, items, numeric, name, rename);
    EntriesKeepStrings(x, parts, numeric, name, rename);
    JoinedReadsBack(x, items, wire.items, CanonicalValue(x, JList(parts), rename).items);
  }

  /** That condition is exact: one patch survives the round trip if and only if it is kept. */
  lemma PatchReadsBackIff(x: Dialect, table: Table, p: Patch)
    requires WellFormed(table) && IsJson(p.value)
    ensures ReadsBack(x, table, p) <==> PatchKept(x, table, p)
  {
    if PatchKept(x, table, p) { KeptReadsBack(x, table, p); }
    if ReadsBack(x, table, p) { ReadBackIsKept(x, table, p); }
  }

  lemma KeptReadsBack(x: Dialect, table: Table, p: Patch)
    requires WellFormed(table) && PatchKept(x, table, p)
    ensures ReadsBack(x, table, p)
  {
    OneStep(p);
    forall href, name
      ensures var read := At(ResourcesOf(x, DeviceOf(x, table, [p]), table), href, name);
        if href == p.href && name == p.name then read.Some? && Same(x, p.value, read.value) else read.None?
    {
      assert [p][..0] == [];
      TranslationRoundTrip(x, table, [(p.href, [(p.name, p.value)])], href, name);
    }
  }

  lemma OneStep(p: Patch)
    ensures Flatten([(p.href, [(p.name, p.value)])]) == [p]
  {
    SingleStep(p.href, [(p.name, p.value)]);
  }

  lemma ReadBackIsKept(x: Dialect, table: Table, p: Patch)
    requires WellFormed(table) && IsJson(p.value) && ReadsBack(x, table, p)
    ensures PatchKept(x, table, p)
  {
    var r := ReadBackCell(x, table, p);
    CellReadKept(x, table, p, r);
  }

  // The resource that read `p` back read it off the one cell there is.
  lemma ReadBackCell(x: Dialect, table: Table, p: Patch) returns (r: Resource)
    requires WellFormed(table) && ReadsBack(x, table, p)
    ensures Wired(x, table, p).Some? && r in table && r.wrapper == Wired(x, table, p).value.0.wrapper
    ensures var back := CellRead(x, r, Wired(x, table, p).value.0, Wired(x, table, p).value.1);
      back.href == p.href && back.name == p.name && Same(x, p.value, back.value)
  {
    var device := DeviceOf(x, table, [p]);
    forall w | w in device ensures Distinct(FieldsIn(device, w)) { DeviceFieldsDistinct(x, table, [p], w); }
    var read := At(ResourcesOf(x, device, table), p.href, p.name);
    assert read.Some? && Same(x, p.value, read.value);
    ResourcesAt(x, device, table, p.href, p.name);
    var c;
    r, c := TableToIsEmitted(x, device, table, p.href, p.name);
    NamedIsUnique(table, r);
    DeviceReads(x, table, [p], c);
  }

  lemma CellReadKept(x: Dialect, table: Table, p: Patch, r: Resource)
    requires WellFormed(table) && IsJson(p.value)
    requires Wired(x, table, p).Some? && r in table && r.wrapper == Wired(x, table, p).value.0.wrapper
    requires var back := CellRead(x, r, Wired(x, table, p).value.0, Wired(x, table, p).value.1);
      back.href == p.href && back.name == p.name && Same(x, p.value, back.value)
    ensures PatchKept(x, table, p)
  {
    var (c, value) := Wired(x, table, p).value;
    NamedIsUnique(table, r);
    var listed := ItemsAt(table, p.href);
    if listed.Some? {
      NamedIsUnique(table, listed.value);
      ValueRoundTripIff(x, p.value, r.rename, r.numeric, "");
    } else {
      WireFieldHome(table, p.href, Bare(x, p.name));
      NamedIsUnique(table, WireField(table, p.href, Bare(x, p.name)).value.0);
      assert x.prefix <= CanonicalName(x, r.rename, c.name);
      if IsJoined(x, table, p) && p.value.JList? {
        JoinedListReadsBack(x, p.value.items, r.numeric, c.name, r.rename);
      }
      AddressRoundTripIff(x, table, p.href, p.name);
      ValueRoundTripIff(x, p.value, r.rename, r.numeric, c.name);
    }
  }

  // ---------------------------------------------------------------------
  // Collection batches
  // ---------------------------------------------------------------------

  function Member(v: Json, key: string): Option<Json> {
    if v.JObj? then Lookup(v.fields, key) else None
  }

  // An element names an href; one without a rep is a marker.
  predicate IsElement(e: Json) {
    Member(e, "href").Some? && Member(e, "href").value.JStr?
  }

  predicate IsMarker(e: Json) {
    Member(e, "rep").None? || Member(e, "rep").value == JNull
  }

  // The patches an element stands for.
  function ElementPatches(e: Json): seq<Patch>
    requires IsElement(e)
  {
    if IsMarker(e) || !Member(e, "rep").value.JObj? then []
    else PatchesOf(Member(e, "href").value.s, Member(e, "rep").value.fields)
  }

  // Some field of the element's rep has somewhere to go.
  predicate ElementTakes(x: Dialect, table: Table, e: Json) {
    IsElement(e) && (IsMarker(e) || exists p :: p in ElementPatches(e) && Wired(x, table, p).Some?)
  }

  // Some field of a rep has a home.
  predicate AnyHomed(x: Dialect, table: Table, href: string, fields: seq<(string, Json)>) {
    exists i | 0 <= i < |fields| :: Wired(x, table, Patch(href, fields[i].0, fields[i].1)).Some?
  }

  /** An element is taken exactly when it is a map whose `href` is a text and whose `rep` is missing,
      null, or a map with some field that has a home. */
  lemma ElementTakesIff(x: Dialect, table: Table, e: Json)
    ensures ElementTakes(x, table, e) <==>
            && e.JObj? && Lookup(e.fields, "href").Some? && Lookup(e.fields, "href").value.JStr?
            && (|| Lookup(e.fields, "rep").None? || Lookup(e.fields, "rep").value.JNull?
                || (Lookup(e.fields, "rep").value.JObj?
                    && AnyHomed(x, table, Lookup(e.fields, "href").value.s, Lookup(e.fields, "rep").value.fields)))
  {
    if IsElement(e) && !IsMarker(e) && Member(e, "rep").value.JObj? {
      var href, fields := Member(e, "href").value.s, Member(e, "rep").value.fields;
      var patches := ElementPatches(e);
      if AnyHomed(x, table, href, fields) {
        var i :| 0 <= i < |fields| && Wired(x, table, Patch(href, fields[i].0, fields[i].1)).Some?;
        assert patches[i] in patches;
      }
      if p :| p in patches && Wired(x, table, p).Some? {
        var i :| 0 <= i < |patches| && patches[i] == p;
        assert p == Patch(href, fields[i].0, fields[i].1);
      }
    }
  }

  lemma {:induction false} DeviceEmptyIff(x: Dialect, table: Table, patches: seq<Patch>)
    ensures DeviceOf(x, table, patches) == map[] <==> forall p | p in patches :: Wired(x, table, p).None?
  {
    if patches != [] {
      var before := patches[..|patches| - 1];
      var p := patches[|patches| - 1];
      DeviceEmptyIff(x, table, before);
      assert patches == before + [p];
      var wired := Wired(x, table, p);
      if wired.Some? {
        assert wired.value.0.wrapper in DeviceOf(x, table, patches);
      }
    }
  }

  function StepsOf(batch: seq<Json>): Steps
    requires forall e | e in batch :: IsElement(e)
  {
    if batch == [] then []
    else
      var e := batch[|batch| - 1];
      assert e in batch && IsElement(e);
      StepsOf(batch[..|batch| - 1]) +
        if IsMarker(e) || !Member(e, "rep").value.JObj? then []
        else [(Member(e, "href").value.s, Member(e, "rep").value.fields)]
  }

  /** A batch becomes write steps exactly when every element names an href and is a marker or
      has at least one field with a home. */
  method BatchSteps(x: Dialect, batch: seq<Json>, table: Table) returns (steps: Option<Steps>)
    ensures steps.Some? <==> forall e | e in batch :: ElementTakes(x, table, e)
    ensures steps.Some? ==> steps.value == StepsOf(batch)
  {
    var out: Steps := [];
    for i := 0 to |batch|
      invariant forall e | e in batch[..i] :: ElementTakes(x, table, e)
      invariant out == StepsOf(batch[..i])
    {
      var e := batch[i];
      assert e in batch && !ElementTakes(x, table, e) ==> !(forall b | b in batch :: ElementTakes(x, table, b));
      assert batch[..i + 1] == batch[..i] + [e];
      assert batch[..i + 1][..i] == batch[..i];
      var href := Member(e, "href");
      if href == None || !href.value.JStr? {
        return None;
      }
      var rep := Member(e, "rep");
      if rep == None || rep.value == JNull {
        continue;
      }
      if !rep.value.JObj? {
        return None;
      }
      var device := ToWrite(x, [(href.value.s, rep.value.fields)], table);
      SingleStep(href.value.s, rep.value.fields);
      DeviceEmptyIff(x, table, ElementPatches(e));
      if device == map[] {
        return None;
      }
      out := out + [(href.value.s, rep.value.fields)];
    }
    assert batch[..|batch|] == batch;
    return Some(out);
  }

  lemma SingleStep(href: string, patch: seq<(string, Json)>)
    ensures Flatten([(href, patch)]) == PatchesOf(href, patch)
  {
    assert [(href, patch)][..0] == [];
    assert Flatten([]) + PatchesOf(href, patch) == PatchesOf(href, patch);
  }

  // The promise made for an element: it is a marker, or every field of it has a home.
  predicate TranslatesWhole(x: Dialect, table: Table, e: Json) {
    IsElement(e) && (IsMarker(e) || (ElementPatches(e) != [] && AllWired(x, table, ElementPatches(e))))
  }

  predicate AllWired(x: Dialect, table: Table, patches: seq<Patch>) {
    forall i | 0 <= i < |patches| :: Wired(x, table, patches[i]).Some?
  }

  // Fields with a home beside fields without one.
  predicate IsMixed(x: Dialect, table: Table, e: Json) {
    IsElement(e)
    && (exists p :: p in ElementPatches(e) && Wired(x, table, p).Some?)
    && (exists p :: p in ElementPatches(e) && Wired(x, table, p).None?)
  }

  /** An element is taken exactly when it translates whole, unless it mixes fields with a home and
      fields without. */
  lemma ElementPromiseIff(x: Dialect, table: Table, e: Json)
    ensures (ElementTakes(x, table, e) <==> TranslatesWhole(x, table, e)) <==> !IsMixed(x, table, e)
  {
    if IsElement(e) && !IsMarker(e) {
      var patches := ElementPatches(e);
      assert AllWired(x, table, patches) <==> forall p | p in patches :: Wired(x, table, p).Some?;
      if patches != [] { assert patches[0] in patches; }
    }
  }

  lemma {:induction false} BatchPatches(batch: seq<Json>, p: Patch)
    requires forall e | e in batch :: IsElement(e)
    ensures p in Flatten(StepsOf(batch)) <==> exists e :: e in batch && p in ElementPatches(e)
  {
    if batch != [] {
      var before, e := batch[..|batch| - 1], batch[|batch| - 1];
      assert e in batch && batch == before + [e];
      BatchPatches(before, p);
      if !IsMarker(e) && Member(e, "rep").value.JObj? {
        var step := (Member(e, "href").value.s, Member(e, "rep").value.fields);
        assert StepsOf(batch) == StepsOf(before) + [step];
        FlattenSnoc(StepsOf(before), step);
      } else {
        assert StepsOf(batch) == StepsOf(before) + [] == StepsOf(before);
      }
      assert p in Flatten(StepsOf(batch)) <==> p in Flatten(StepsOf(before)) || p in ElementPatches(e);
    }
  }

  lemma FlattenSnoc(steps: Steps, step: (string, seq<(string, Json)>))
    ensures Flatten(steps + [step]) == Flatten(steps) + PatchesOf(step.0, step.1)
  {
    assert (steps + [step])[..|steps|] == steps;
  }

  /** What a taken batch sends is everything its elements said exactly when none of them is mixed:
      `batch_steps` keeps its promise of whole elements on those batches and on no others. */
  lemma TakenBatchIsWholeIff(x: Dialect, table: Table, batch: seq<Json>)
    requires forall e | e in batch :: IsElement(e) && ElementTakes(x, table, e)
    ensures (forall p | p in Flatten(StepsOf(batch)) :: Wired(x, table, p).Some?) <==>
            (forall e | e in batch :: !IsMixed(x, table, e))
  {
    if e :| e in batch && IsMixed(x, table, e) {
      var p :| p in ElementPatches(e) && Wired(x, table, p).None?;
      BatchPatches(batch, p);
      assert p in Flatten(StepsOf(batch));
    }
    if p :| p in Flatten(StepsOf(batch)) && Wired(x, table, p).None? {
      BatchPatches(batch, p);
      var e :| e in batch && p in ElementPatches(e);
      assert ElementTakes(x, table, e) && !IsMarker(e);
      assert IsMixed(x, table, e);
    }
  }

  function Homed(x: Dialect, table: Table, patches: seq<Patch>): seq<Patch> {
    if patches == [] then []
    else
      var p := patches[|patches| - 1];
      Homed(x, table, patches[..|patches| - 1]) + if Wired(x, table, p).Some? then [p] else []
  }

  /** And what a mixed one loses is exactly its homeless fields: the body is that of the others. */
  lemma {:induction false} HomelessFieldsAreDropped(x: Dialect, table: Table, patches: seq<Patch>)
    ensures DeviceOf(x, table, patches) == DeviceOf(x, table, Homed(x, table, patches))
    ensures forall p :: p in Homed(x, table, patches) <==> p in patches && Wired(x, table, p).Some?
  {
    if patches != [] {
      var before, p := patches[..|patches| - 1], patches[|patches| - 1];
      assert patches == before + [p];
      HomelessFieldsAreDropped(x, table, before);
      if Wired(x, table, p).Some? {
        DeviceOfSnoc(x, table, Homed(x, table, before), p);
      } else {
        assert Homed(x, table, patches) == Homed(x, table, before);
      }
    }
  }

  /** An element is not translated whole merely because its batch is taken: beside a field with
      a home, one without is dropped, and the batch still goes out. */
  lemma PartlyHomedElementIsTaken(x: Dialect, href: string, power: string, other: string, base: string)
    requires power != other && href != base && Bare(x, power) != Bare(x, other)
    ensures var r := Resource("Operation", base, [(Bare(x, power), href)], [], false, {}, {}, {});
      var e := JObj([("href", JStr(href)), ("rep", JObj([(power, JStr("On")), (other, JStr("On"))]))]);
      && ElementTakes(x, [r], e)
      && Wired(x, [r], Patch(href, other, JStr("On"))).None?
      && Patch(href, other, JStr("On")) in ElementPatches(e)
  {
    var r := Resource("Operation", base, [(Bare(x, power), href)], [], false, {}, {}, {});
    var rep := JObj([(power, JStr("On")), (other, JStr("On"))]);
    var fields := [("href", JStr(href)), ("rep", rep)];
    var e := JObj(fields);
    assert fields[..1] == [("href", JStr(href))] && fields[..1][..0] == [];
    assert |"href"| != |"rep"|;
    assert Lookup(fields[..1], "href") == Some(JStr(href));
    assert Member(e, "href") == Some(JStr(href)) && Member(e, "rep") == Some(rep);
    assert ElementPatches(e)[0] == Patch(href, power, JStr("On"));
    assert ElementPatches(e)[1] == Patch(href, other, JStr("On"));
    assert [r][..0] == [] && [r][1..] == [];
    assert WireField([r], href, Bare(x, power)).Some?;
    assert WireField([r], href, Bare(x, other)).None?;
    assert Wired(x, [r], ElementPatches(e)[0]).Some?;
  }
}
