/**
 Programs downloaded from the cloud. The appliance says which slots it has but never what is in
 one, so a slot's payload is learned while it happens to be loaded, its name comes from the user,
 and which course runs a downloaded program is only ever guessed from loads that were watched.
 */
module CloudCourse {
  import opened Dicts
  import opened LegacyEnvelope
  import opened Options
  import opened Text

  const EXTRA := "CloudExtraCourse"
  const DEFAULT := "CloudCourse"
  const ONESHOT := "OneTimeCloudCourse"
  const COURSE := "Course"

  // What `int(text, 16)` takes; only that case does not matter to it is used.
  type HexTest = string -> bool

  ghost predicate CaseBlind(hex: HexTest) {
    forall s :: hex(Upper(s)) <==> hex(s)
  }

  // ---------------------------------------------------------------------
  // Tokens and payloads
  // ---------------------------------------------------------------------

  // `<prefix>_<value>` in an options array, the first such token.
  function OptionValue(options: seq<Json>, prefix: string): Option<string> {
    if options == [] then None
    else if options[0].JStr? && prefix + "_" <= options[0].s then
      Some(options[0].s[FirstIndex(options[0].s, '_') + 1..])
    else OptionValue(options[1..], prefix)
  }

  function HexPairs(s: string): seq<string> {
    if |s| < 2 then [] else [s[..2]] + HexPairs(s[2..])
  }

  // The payload's bytes, or nothing for what is no payload.
  function PayloadBytes(hex: HexTest, blob: string): seq<string> {
    if |blob| % 2 != 0 || |blob| < 8 || !hex(blob) then [] else HexPairs(Upper(blob))
  }

  // The slot a payload names; None for no program.
  function SlotOf(hex: HexTest, blob: Option<string>): Option<string> {
    if blob.None? then None
    else
      var parts := PayloadBytes(hex, blob.value);
      if |parts| < 3 || parts[0] + parts[1] == "FFFF" then None else Some(parts[2])
  }

  function Deduplicated(items: seq<string>): seq<string> {
    if items == [] then []
    else
      var before := Deduplicated(items[..|items| - 1]);
      if items[|items| - 1] in before then before else before + [items[|items| - 1]]
  }

  function AdvertisedSlots(options: seq<Json>): seq<string> {
    var raw := OptionValue(options, EXTRA);
    if raw.None? || |raw.value| % 2 != 0 then [] else Deduplicated(HexPairs(Upper(raw.value)))
  }

  // The first token of an option: its name, an underscore and the value.
  predicate FirstToken(options: seq<Json>, prefix: string, i: nat, value: string) {
    && i < |options| && options[i] == JStr(prefix + "_" + value)
    && forall j | 0 <= j < i :: !TokenOf(options[j], prefix)
  }

  predicate TokenOf(token: Json, prefix: string) {
    token.JStr? && prefix + "_" <= token.s
  }

  lemma TokenSplits(token: string, prefix: string)
    requires '_' !in prefix && prefix + "_" <= token
    ensures var value := token[FirstIndex(token, '_') + 1..];
      value == token[|prefix| + 1..] && token == prefix + "_" + value
  {
    var tail := token[|prefix| + 1..];
    assert token == (prefix + "_") + tail == prefix + ['_'] + tail;
    FirstIndexOfJoin(prefix, '_', tail);
  }

  /** The value of an option is what follows its first token's underscore. */
  lemma {:induction false} OptionValueIs(options: seq<Json>, prefix: string)
    requires '_' !in prefix
    ensures OptionValue(options, prefix).None? <==> forall i | 0 <= i < |options| :: !TokenOf(options[i], prefix)
    ensures OptionValue(options, prefix).Some? ==>
              exists i: nat :: FirstToken(options, prefix, i, OptionValue(options, prefix).value)
    decreases |options|
  {
    if options != [] {
      var rest := options[1..];
      assert forall i | 0 <= i < |rest| :: rest[i] == options[i + 1];
      assert forall i | 0 < i < |options| :: options[i] == rest[i - 1];
      OptionValueIs(rest, prefix);
      if TokenOf(options[0], prefix) {
        TokenSplits(options[0].s, prefix);
        assert FirstToken(options, prefix, 0, OptionValue(options, prefix).value);
      } else if OptionValue(rest, prefix).Some? {
        var value := OptionValue(rest, prefix).value;
        var i: nat :| FirstToken(rest, prefix, i, value);
        assert FirstToken(options, prefix, i + 1, value);
      }
    }
  }

  lemma {:induction false} HexPairAt(s: string, i: nat)
    ensures |HexPairs(s)| == |s| / 2
    ensures i < |s| / 2 ==> HexPairs(s)[i] == s[2 * i..2 * i + 2]
    decreases |s|
  {
    if |s| >= 2 {
      HexPairAt(s[2..], if i > 0 then i - 1 else 0);
      if 0 < i < |s| / 2 { assert s[2..][2 * (i - 1)..2 * (i - 1) + 2] == s[2 * i..2 * i + 2]; }
    }
  }

  lemma HexPairsAt(s: string)
    ensures |HexPairs(s)| == |s| / 2
    ensures forall i | 0 <= i < |s| / 2 :: HexPairs(s)[i] == s[2 * i..2 * i + 2]
  {
    HexPairAt(s, 0);
    forall i | 0 <= i < |s| / 2 ensures HexPairs(s)[i] == s[2 * i..2 * i + 2] { HexPairAt(s, i); }
  }

  /** A payload names the slot in its third byte, unless it is too short, odd, no hexadecimal text
      or begins with FFFF. */
  lemma SlotOfIs(hex: HexTest, blob: Option<string>)
    ensures var text := if blob.Some? then Upper(blob.value) else "";
      SlotOf(hex, blob) ==
      if blob.Some? && |text| >= 8 && |text| % 2 == 0 && hex(blob.value) && text[..4] != "FFFF"
      then Some(text[4..6]) else None
  {
    if blob.Some? {
      var text := Upper(blob.value);
      HexPairsAt(text);
      if |text| >= 8 { assert text[0..2] + text[2..4] == text[..4]; }
    }
  }

  lemma {:induction false} DeduplicatedHas(items: seq<string>)
    ensures forall s :: s in Deduplicated(items) <==> s in items
    ensures forall i, j | 0 <= i < j < |Deduplicated(items)| :: Deduplicated(items)[i] != Deduplicated(items)[j]
  {
    if items != [] {
      DeduplicatedHas(items[..|items| - 1]);
      assert items == items[..|items| - 1] + [items[|items| - 1]];
    }
  }

  // One of the bytes of a text, in upper case.
  predicate IsByteOf(text: string, i: int, byte: string) {
    0 <= i < |text| / 2 && Upper(text)[2 * i..2 * i + 2] == byte
  }

  lemma HexPairsHave(text: string, byte: string)
    ensures byte in HexPairs(Upper(text)) <==> exists i :: IsByteOf(text, i, byte)
  {
    var pairs := HexPairs(Upper(text));
    HexPairsAt(Upper(text));
    if byte in pairs {
      var i :| 0 <= i < |pairs| && pairs[i] == byte;
      assert IsByteOf(text, i, byte);
    }
    if i :| IsByteOf(text, i, byte) { assert pairs[i] == byte; }
  }

  /** The slots an appliance offers are the bytes of its CloudExtraCourse option, each once. */
  lemma AdvertisedSlotsAre(options: seq<Json>, slot: string)
    ensures var raw := OptionValue(options, "CloudExtraCourse");
      slot in AdvertisedSlots(options) <==>
      raw.Some? && |raw.value| % 2 == 0 && exists i :: IsByteOf(raw.value, i, slot)
    ensures forall i, j | 0 <= i < j < |AdvertisedSlots(options)| ::
              AdvertisedSlots(options)[i] != AdvertisedSlots(options)[j]
  {
    var raw := OptionValue(options, "CloudExtraCourse");
    if raw.Some? {
      HexPairsHave(raw.value, slot);
      DeduplicatedHas(HexPairs(Upper(raw.value)));
    }
  }

  lemma UpperTwice(s: string)
    ensures Upper(Upper(s)) == Upper(s)
  {
    assert forall c :: UpperChar(UpperChar(c)) == UpperChar(c);
  }

  lemma SlotOfUpper(hex: HexTest, blob: string)
    requires CaseBlind(hex)
    ensures SlotOf(hex, Some(Upper(blob))) == SlotOf(hex, Some(blob))
  {
    UpperTwice(blob);
  }

  lemma {:induction false} HexPairsUpper(s: string)
    ensures forall i | 0 <= i < |HexPairs(Upper(s))| :: Upper(HexPairs(Upper(s))[i]) == HexPairs(Upper(s))[i]
    decreases |s|
  {
    if |s| >= 2 {
      assert Upper(s)[2..] == Upper(s[2..]);
      assert Upper(s)[..2] == Upper(s[..2]);
      UpperTwice(s[..2]);
      HexPairsUpper(s[2..]);
    }
  }

  lemma SlotIsUpper(hex: HexTest, blob: Option<string>)
    ensures SlotOf(hex, blob).Some? ==> Upper(SlotOf(hex, blob).value) == SlotOf(hex, blob).value
  {
    if blob.Some? { HexPairsUpper(blob.value); }
  }

  // ---------------------------------------------------------------------
  // The store
  // ---------------------------------------------------------------------

  datatype Record = Record(blob: string, name: string)

  type Slots = seq<(string, Record)>

  // `last` is the one-time payload of the last report, None before any.
  datatype Store = Store(
    download: Option<string>,
    slots: Slots,
    candidates: map<string, nat>,
    last: Option<Option<string>>
  )

  // One token of a report, learned if it is loaded and its slot is one the appliance offers.
  function Learned(hex: HexTest, slots: Slots, known: seq<string>, blob: Option<string>): Slots {
    var slot := SlotOf(hex, blob);
    if slot.None? || (known != [] && slot.value !in known) then slots
    else
      var record := Lookup(slots, slot.value);
      Put(slots, slot.value, Record(Upper(blob.value), if record.Some? then record.value.name else ""))
  }

  // A one-time payload newly loaded, as against one first seen or seen again.
  predicate WatchedLoad(hex: HexTest, last: Option<Option<string>>, options: seq<Json>) {
    var oneshot := OptionValue(options, ONESHOT);
    && OptionValue(options, COURSE).Some? && OptionValue(options, COURSE).value != ""
    && SlotOf(hex, oneshot).Some? && last.Some? && last.value != oneshot
  }

  function Counted(candidates: map<string, nat>, course: string): map<string, nat> {
    candidates[course := (if course in candidates then candidates[course] else 0) + 1]
  }

  function SlotsAfter(hex: HexTest, slots: Slots, options: seq<Json>): Slots {
    var known := AdvertisedSlots(options);
    Learned(hex, Learned(hex, slots, known, OptionValue(options, DEFAULT)), known, OptionValue(options, ONESHOT))
  }

  // A report with no options says nothing.
  function After(hex: HexTest, s: Store, options: seq<Json>): Store {
    if options == [] then s
    else
      Store(s.download, SlotsAfter(hex, s.slots, options),
            if WatchedLoad(hex, s.last, options)
            then Counted(s.candidates, OptionValue(options, COURSE).value)
            else s.candidates,
            Some(OptionValue(options, ONESHOT)))
  }

  // A loaded payload, under the slot it names, with a name that is not blank.
  ghost predicate IsRecord(hex: HexTest, slot: string, record: Record) {
    SlotOf(hex, Some(record.blob)) == Some(slot) && Upper(record.blob) == record.blob && IsName(record.name)
  }

  ghost predicate Sound(hex: HexTest, slots: Slots) {
    Distinct(slots) && forall slot | Lookup(slots, slot).Some? :: IsRecord(hex, slot, Lookup(slots, slot).value)
  }

  // No name, or one that is not blank.
  predicate IsName(name: string) {
    name == "" || Strip(name) != ""
  }

  lemma PutSound(hex: HexTest, slots: Slots, slot: string, record: Record)
    requires Sound(hex, slots) && IsRecord(hex, slot, record)
    ensures Sound(hex, Put(slots, slot, record))
    ensures forall k :: Lookup(Put(slots, slot, record), k) == if k == slot then Some(record) else Lookup(slots, k)
  {
    forall k ensures Lookup(Put(slots, slot, record), k) == if k == slot then Some(record) else Lookup(slots, k) {
      PutLookup(slots, slot, record, k);
    }
    PutLookup(slots, slot, record, slot);
  }

  lemma LearnedKeeps(hex: HexTest, slots: Slots, known: seq<string>, blob: Option<string>)
    requires CaseBlind(hex) && Sound(hex, slots)
    ensures Sound(hex, Learned(hex, slots, known, blob))
    ensures forall slot | Lookup(slots, slot).Some? ::
              var now := Lookup(Learned(hex, slots, known, blob), slot);
              now.Some? && now.value.name == Lookup(slots, slot).value.name
  {
    var named := SlotOf(hex, blob);
    if named.Some? {
      var record := Lookup(slots, named.value);
      SlotOfUpper(hex, blob.value);
      UpperTwice(blob.value);
      PutSound(hex, slots, named.value, Record(Upper(blob.value), if record.Some? then record.value.name else ""));
    }
  }

  /** Learning keeps every stored payload loaded and under its own slot, and keeps every name. */
  lemma AfterKeeps(hex: HexTest, s: Store, options: seq<Json>)
    requires CaseBlind(hex) && Sound(hex, s.slots)
    ensures Sound(hex, After(hex, s, options).slots)
    ensures forall slot | Lookup(s.slots, slot).Some? ::
              var now := Lookup(After(hex, s, options).slots, slot);
              now.Some? && now.value.name == Lookup(s.slots, slot).value.name
  {
    if options != [] {
      var known := AdvertisedSlots(options);
      LearnedKeeps(hex, s.slots, known, OptionValue(options, DEFAULT));
      LearnedKeeps(hex, Learned(hex, s.slots, known, OptionValue(options, DEFAULT)), known,
        OptionValue(options, ONESHOT));
    }
  }

  // ---------------------------------------------------------------------
  // Settling
  // ---------------------------------------------------------------------

  function Blobs(slots: Slots): seq<(string, string)> {
    seq(|slots|, i requires 0 <= i < |slots| => (slots[i].0, slots[i].1.blob))
  }

  lemma PutKept(slots: Slots, slot: string, record: Record)
    requires Distinct(slots) && Lookup(slots, slot) == Some(record)
    ensures Put(slots, slot, record) == slots
  {
    var i :| 0 <= i < |slots| && slots[i] == (slot, record);
  }

  lemma PutTwice(slots: Slots, slot: string, a: Record, b: Record)
    ensures Put(Put(slots, slot, a), slot, b) == Put(slots, slot, b)
  {
    PutLookup(slots, slot, a, slot);
    if Lookup(slots, slot).None? {
      assert Put(Put(slots, slot, a), slot, b) == Replaced(slots + [(slot, a)], slot, b);
    }
  }

  // The slot a token would be learned under.
  function Target(hex: HexTest, known: seq<string>, blob: Option<string>): Option<string> {
    var slot := SlotOf(hex, blob);
    if slot.Some? && known != [] && slot.value !in known then None else slot
  }

  lemma LearnedReads(hex: HexTest, slots: Slots, known: seq<string>, blob: Option<string>, slot: string)
    ensures var after := Learned(hex, slots, known, blob);
      var at := Lookup(slots, slot);
      && (Distinct(slots) ==> Distinct(after))
      && Lookup(after, slot) ==
           if Target(hex, known, blob) == Some(slot) then
             Some(Record(Upper(blob.value), if at.Some? then at.value.name else ""))
           else at
  {
    var target := Target(hex, known, blob);
    if target.Some? {
      var record := Lookup(slots, target.value);
      PutLookup(slots, target.value, Record(Upper(blob.value), if record.Some? then record.value.name else ""), slot);
    }
  }

  lemma LearnedAgain(hex: HexTest, slots: Slots, known: seq<string>, blob: Option<string>)
    requires Distinct(slots)
    requires Target(hex, known, blob).Some? ==>
               Lookup(slots, Target(hex, known, blob).value).Some?
               && Lookup(slots, Target(hex, known, blob).value).value.blob == Upper(blob.value)
    ensures Learned(hex, slots, known, blob) == slots
  {
    var target := Target(hex, known, blob);
    if target.Some? { PutKept(slots, target.value, Lookup(slots, target.value).value); }
  }

  /** A report learned twice is learned once, both tokens naming one slot included: the one-time
      payload is written last, so the store settles at the first report. */
  lemma SlotsSettle(hex: HexTest, slots: Slots, known: seq<string>, default: Option<string>, oneshot: Option<string>)
    requires Distinct(slots)
    ensures var once := Learned(hex, Learned(hex, slots, known, default), known, oneshot);
      Learned(hex, Learned(hex, once, known, default), known, oneshot) == once
  {
    var mid := Learned(hex, slots, known, default);
    var once := Learned(hex, mid, known, oneshot);
    var d, o := Target(hex, known, default), Target(hex, known, oneshot);
    if d.Some? {
      LearnedReads(hex, slots, known, default, d.value);
      LearnedReads(hex, mid, known, oneshot, d.value);
    }
    LearnedReads(hex, slots, known, default, "");
    LearnedReads(hex, mid, known, oneshot, if o.Some? then o.value else "");
    if d.Some? && d == o {
      var record := Lookup(once, d.value).value;
      PutTwice(once, d.value, Record(Upper(default.value), record.name), record);
      PutLookup(once, d.value, Record(Upper(default.value), record.name), d.value);
      PutKept(once, d.value, record);
    } else {
      LearnedAgain(hex, once, known, default);
      LearnedAgain(hex, once, known, oneshot);
    }
  }

  // The payload an option of a report would store under a slot.
  predicate Brings(hex: HexTest, options: seq<Json>, option: string, slot: string) {
    && SlotOf(hex, OptionValue(options, option)) == Some(slot)
    && (AdvertisedSlots(options) == [] || slot in AdvertisedSlots(options))
  }

  /** What is stored under a slot after a report: the one-time payload if it names the slot and the
      slot is offered, else the default one on the same terms, else what there was; upper-case, and
      with the name it had. */
  lemma ReportStores(hex: HexTest, s: Store, options: seq<Json>, slot: string)
    requires options != []
    ensures var was, now := Lookup(s.slots, slot), Lookup(After(hex, s, options).slots, slot);
      var name := if was.Some? then was.value.name else "";
      now ==
      if Brings(hex, options, "OneTimeCloudCourse", slot) then
        Some(Record(Upper(OptionValue(options, "OneTimeCloudCourse").value), name))
      else if Brings(hex, options, "CloudCourse", slot) then
        Some(Record(Upper(OptionValue(options, "CloudCourse").value), name))
      else was
    ensures After(hex, s, options).last == Some(OptionValue(options, "OneTimeCloudCourse"))
    ensures After(hex, s, options).download == s.download
  {
    var known := AdvertisedSlots(options);
    LearnedReads(hex, s.slots, known, OptionValue(options, DEFAULT), slot);
    LearnedReads(hex, Learned(hex, s.slots, known, OptionValue(options, DEFAULT)), known,
                 OptionValue(options, ONESHOT), slot);
  }

  /** Observing the same report again changes nothing. */
  lemma ObserveTwice(hex: HexTest, s: Store, options: seq<Json>)
    requires Distinct(s.slots)
    ensures After(hex, After(hex, s, options), options) == After(hex, s, options)
  {
    if options != [] {
      SlotsSettle(hex, s.slots, AdvertisedSlots(options), OptionValue(options, DEFAULT), OptionValue(options, ONESHOT));
    }
  }

  // Same slots in the same order with the same names, then perhaps more.
  ghost predicate Extends(before: Slots, after: Slots) {
    && |before| <= |after|
    && forall i | 0 <= i < |before| :: after[i].0 == before[i].0 && after[i].1.name == before[i].1.name
  }

  lemma LearnedExtends(hex: HexTest, slots: Slots, known: seq<string>, blob: Option<string>)
    requires Distinct(slots)
    ensures Extends(slots, Learned(hex, slots, known, blob))
  {
    var target := Target(hex, known, blob);
    if target.Some? && Lookup(slots, target.value).Some? {
      var record := Lookup(slots, target.value).value;
      forall i | 0 <= i < |slots| && slots[i].0 == target.value ensures slots[i].1.name == record.name {
        LookupDistinct(slots, target.value, slots[i].1);
      }
    }
  }

  // Names and slots only ever stay or are added, so the payloads alone tell whether anything changed.
  lemma BlobsTell(hex: HexTest, slots: Slots, options: seq<Json>)
    requires Distinct(slots)
    ensures Blobs(SlotsAfter(hex, slots, options)) == Blobs(slots) <==> SlotsAfter(hex, slots, options) == slots
  {
    var known := AdvertisedSlots(options);
    var mid := Learned(hex, slots, known, OptionValue(options, DEFAULT));
    var after := SlotsAfter(hex, slots, options);
    LearnedReads(hex, slots, known, OptionValue(options, DEFAULT), "");
    LearnedExtends(hex, slots, known, OptionValue(options, DEFAULT));
    LearnedExtends(hex, mid, known, OptionValue(options, ONESHOT));
    if Blobs(after) == Blobs(slots) {
      assert |Blobs(after)| == |after| && |Blobs(slots)| == |slots|;
      forall i | 0 <= i < |slots| ensures after[i] == slots[i] {
        assert Blobs(after)[i] == Blobs(slots)[i];
      }
    }
  }

  // ---------------------------------------------------------------------
  // Candidates for the download course
  // ---------------------------------------------------------------------

  function Run(hex: HexTest, s: Store, reports: seq<seq<Json>>): Store {
    if reports == [] then s
    else After(hex, Run(hex, s, reports[..|reports| - 1]), reports[|reports| - 1])
  }

  /** Over any run of reports every stored payload stays loaded and under its own slot, and every
      name survives. */
  lemma {:induction false} RunKeeps(hex: HexTest, s: Store, reports: seq<seq<Json>>)
    requires CaseBlind(hex) && Sound(hex, s.slots)
    ensures Sound(hex, Run(hex, s, reports).slots)
    ensures forall slot | Lookup(s.slots, slot).Some? ::
              var now := Lookup(Run(hex, s, reports).slots, slot);
              now.Some? && now.value.name == Lookup(s.slots, slot).value.name
  {
    if reports != [] {
      var before := reports[..|reports| - 1];
      RunKeeps(hex, s, before);
      AfterKeeps(hex, Run(hex, s, before), reports[|reports| - 1]);
    }
  }

  // The one-time payload of the last report that said anything.
  function LastOneshot(reports: seq<seq<Json>>): Option<Option<string>> {
    if reports == [] then None
    else if reports[|reports| - 1] != [] then Some(OptionValue(reports[|reports| - 1], "OneTimeCloudCourse"))
    else LastOneshot(reports[..|reports| - 1])
  }

  // A report on this course with a one-time program loaded that the report before it, if there
  // was one, did not have.
  predicate NewlyLoaded(hex: HexTest, before: seq<seq<Json>>, report: seq<Json>, course: string) {
    && course != "" && OptionValue(report, "Course") == Some(course)
    && SlotOf(hex, OptionValue(report, "OneTimeCloudCourse")).Some?
    && LastOneshot(before).Some? && LastOneshot(before) != Some(OptionValue(report, "OneTimeCloudCourse"))
  }

  // How many reports of the run newly loaded a one-time payload while on this course.
  function Loads(hex: HexTest, reports: seq<seq<Json>>, course: string): nat {
    if reports == [] then 0
    else
      var before := reports[..|reports| - 1];
      var last := reports[|reports| - 1];
      Loads(hex, before, course) +
      if last != [] && NewlyLoaded(hex, before, last, course) then 1 else 0
  }

  function CountOf(s: Store, course: string): nat {
    if course in s.candidates then s.candidates[course] else 0
  }

  /** A course's count is the number of loads that were watched happen on it. */
  lemma {:induction false} CandidatesCountLoads(hex: HexTest, s: Store, reports: seq<seq<Json>>, course: string)
    requires s.candidates == map[] && s.last == None
    ensures Run(hex, s, reports).last == LastOneshot(reports)
    ensures CountOf(Run(hex, s, reports), course) == Loads(hex, reports, course)
    ensures course in Run(hex, s, reports).candidates <==> Loads(hex, reports, course) > 0
  {
    if reports != [] { CandidatesCountLoads(hex, s, reports[..|reports| - 1], course); }
  }

  // ---------------------------------------------------------------------
  // Persistence
  // ---------------------------------------------------------------------

  function RecordJson(r: Record): Json {
    JObj([("blob", JStr(r.blob)), ("name", JStr(r.name))])
  }

  function SlotsJson(slots: Slots): seq<(string, Json)> {
    seq(|slots|, i requires 0 <= i < |slots| => (slots[i].0, RecordJson(slots[i].1)))
  }

  function Snapshot(s: Store): Json {
    JObj([("download_course", if s.download.Some? then JStr(s.download.value) else JNull),
      ("slots", JObj(SlotsJson(s.slots)))])
  }

  function TextAt(v: Json, key: string): Option<string> {
    var at := Member(v, key);
    if at.Some? && at.value.JStr? then Some(at.value.s) else None
  }

  function CoerceSlot(hex: HexTest, slots: Slots, slot: string, record: Json): Slots {
    var blob := TextAt(record, "blob");
    var name := TextAt(record, "name");
    if !record.JObj? || SlotOf(hex, blob).None? || SlotOf(hex, blob).value != Upper(slot) then slots
    else Put(slots, Upper(slot),
      Record(Upper(blob.value), if name.Some? && Strip(name.value) != "" then name.value else ""))
  }

  function CoerceSlots(hex: HexTest, fields: seq<(string, Json)>): Slots {
    if fields == [] then []
    else CoerceSlot(hex, CoerceSlots(hex, fields[..|fields| - 1]), fields[|fields| - 1].0, fields[|fields| - 1].1)
  }

  function DownloadOf(stored: Json): Option<string> {
    var code := TextAt(stored, "download_course");
    if code.Some? && code.value != "" then code else None
  }

  function SlotsOf(hex: HexTest, stored: Json): Slots {
    var raw := Member(stored, "slots");
    if raw.Some? && raw.value.JObj? then CoerceSlots(hex, raw.value.fields) else []
  }

  /** Whatever is read back from storage, only sound records come out of it. */
  lemma {:induction false} CoercedIsSound(hex: HexTest, fields: seq<(string, Json)>)
    requires CaseBlind(hex)
    ensures Sound(hex, CoerceSlots(hex, fields))
  {
    if fields != [] {
      var before := CoerceSlots(hex, fields[..|fields| - 1]);
      var (slot, record) := fields[|fields| - 1];
      CoercedIsSound(hex, fields[..|fields| - 1]);
      var blob := TextAt(record, "blob");
      if SlotOf(hex, blob).Some? {
        CoerceSlotSound(hex, before, slot, record);
      }
    }
  }

  lemma CoerceSlotSound(hex: HexTest, slots: Slots, slot: string, record: Json)
    requires CaseBlind(hex) && Sound(hex, slots)
    ensures Sound(hex, CoerceSlot(hex, slots, slot, record))
  {
    var blob := TextAt(record, "blob");
    var name := TextAt(record, "name");
    if record.JObj? && SlotOf(hex, blob).Some? && SlotOf(hex, blob).value == Upper(slot) {
      var put := Record(Upper(blob.value), if name.Some? && Strip(name.value) != "" then name.value else "");
      SlotOfUpper(hex, blob.value);
      UpperTwice(blob.value);
      PutSound(hex, slots, Upper(slot), put);
    }
  }

  lemma RecordReads(r: Record)
    ensures TextAt(RecordJson(r), "blob") == Some(r.blob) && TextAt(RecordJson(r), "name") == Some(r.name)
  {
    var fields := [("blob", JStr(r.blob)), ("name", JStr(r.name))];
    assert "blob"[0] == 'b' && "name"[0] == 'n';
    assert fields[..1] == [("blob", JStr(r.blob))] && fields[..1][..0] == [];
    assert Lookup(fields[..1], "blob") == Some(JStr(r.blob));
  }

  lemma {:induction false} SlotsRestored(hex: HexTest, slots: Slots)
    requires Sound(hex, slots)
    ensures CoerceSlots(hex, SlotsJson(slots)) == slots
  {
    if slots != [] {
      var before := slots[..|slots| - 1];
      var (slot, record) := slots[|slots| - 1];
      assert slots == before + [(slot, record)];
      DistinctSnoc(before, (slot, record));
      forall k | Lookup(before, k).Some? ensures Lookup(slots, k) == Lookup(before, k) { assert k != slot; }
      SlotsRestored(hex, before);
      assert Lookup(slots, slot) == Some(record);
      SlotIsUpper(hex, Some(record.blob));
      RecordReads(record);
      assert SlotsJson(slots)[..|slots| - 1] == SlotsJson(before);
    }
  }

  /** Storing and restoring is the identity on the learned slots and the download course. */
  lemma SnapshotRestores(hex: HexTest, s: Store)
    requires Sound(hex, s.slots) && s.download != Some("")
    ensures DownloadOf(Snapshot(s)) == s.download && SlotsOf(hex, Snapshot(s)) == s.slots
  {
    var download := if s.download.Some? then JStr(s.download.value) else JNull;
    var fields := [("download_course", download), ("slots", JObj(SlotsJson(s.slots)))];
    assert "download_course"[0] == 'd' && "slots"[0] == 's';
    assert fields[..1] == [("download_course", download)] && fields[..1][..0] == [];
    assert Lookup(fields[..1], "download_course") == Some(download);
    SlotsRestored(hex, s.slots);
  }

  // A learned slot's record under another name.
  function WithName(slots: Slots, slot: string, name: string): Slots {
    var record := Lookup(slots, slot);
    if record.None? then slots else Put(slots, slot, Record(record.value.blob, name))
  }

  /** Naming a slot keeps every payload and every other name, and adds no slot. */
  lemma WithNameKeeps(hex: HexTest, slots: Slots, slot: string, name: string)
    requires Sound(hex, slots) && IsName(name)
    ensures Sound(hex, WithName(slots, slot, name))
    ensures forall k ::
              var was := Lookup(slots, k);
              Lookup(WithName(slots, slot, name), k) ==
              if k == slot && was.Some? then Some(Record(was.value.blob, name)) else was
  {
    var record := Lookup(slots, slot);
    if record.Some? {
      assert IsRecord(hex, slot, record.value);
      PutSound(hex, slots, slot, Record(record.value.blob, name));
    }
  }

  lemma StrippedIsName(name: string)
    ensures IsName(Strip(name))
  {
    StripIsStripped(name);
    StripIsStripped(Strip(name));
  }

  // ---------------------------------------------------------------------
  // The device's store
  // ---------------------------------------------------------------------

  /** What has been learned of one appliance. */
  class CloudCourses {
    const hex: HexTest
    var download: Option<string>
    var slots: Slots
    var candidates: map<string, nat>
    var last: Option<Option<string>>

    ghost predicate Valid()
      reads this
    {
      Sound(hex, slots) && download != Some("")
    }

    function Now(): Store
      reads this
    {
      Store(download, slots, candidates, last)
    }

    constructor (hex: HexTest, stored: Json)
      requires CaseBlind(hex)
      ensures Valid() && this.hex == hex
      ensures Now() == Store(DownloadOf(stored), SlotsOf(hex, stored), map[], None)
    {
      this.hex := hex;
      this.download := DownloadOf(stored);
      this.slots := SlotsOf(hex, stored);
      this.candidates := map[];
      this.last := None;
      new;
      var raw := Member(stored, "slots");
      if raw.Some? && raw.value.JObj? { CoercedIsSound(hex, raw.value.fields); }
    }

    /** Learn from one report; true exactly when a stored payload changed. */
    method Observe(options: seq<Json>) returns (changed: bool)
      requires Valid() && CaseBlind(hex)
      modifies this
      ensures Valid() && Now() == After(hex, old(Now()), options)
      ensures changed <==> slots != old(slots)
    {
      AfterKeeps(hex, Now(), options);
      if options == [] {
        return false;
      }
      changed := LearnPayloads(options);
      NoteLoad(options);
    }

    method LearnPayloads(options: seq<Json>) returns (changed: bool)
      requires Distinct(slots)
      modifies `slots
      ensures slots == SlotsAfter(hex, old(slots), options)
      ensures changed <==> slots != old(slots)
    {
      var before := Blobs(slots);
      BlobsTell(hex, slots, options);
      var known := AdvertisedSlots(options);
      Learn(known, OptionValue(options, DEFAULT));
      Learn(known, OptionValue(options, ONESHOT));
      changed := before != Blobs(slots);
    }

    method NoteLoad(options: seq<Json>)
      modifies `candidates, `last
      ensures last == Some(OptionValue(options, ONESHOT))
      ensures candidates == if WatchedLoad(hex, old(last), options)
                            then Counted(old(candidates), OptionValue(options, COURSE).value) else old(candidates)
    {
      var oneshot := OptionValue(options, ONESHOT);
      var course := OptionValue(options, COURSE);
      var firstEver := last.None?;
      if course.Some? && course.value != "" && SlotOf(hex, oneshot).Some? && !firstEver && last.value != oneshot {
        candidates := Counted(candidates, course.value);
      }
      last := Some(oneshot);
    }

    method Learn(known: seq<string>, blob: Option<string>)
      modifies `slots
      ensures slots == Learned(hex, old(slots), known, blob)
    {
      var slot := SlotOf(hex, blob);
      if slot.None? || (known != [] && slot.value !in known) {
        return;
      }
      var record := Lookup(slots, slot.value);
      if record.None? {
        slots := Put(slots, slot.value, Record(Upper(blob.value), ""));
      } else {
        slots := Put(slots, slot.value, record.value.(blob := Upper(blob.value)));
      }
    }

    /** The user's name for a learned slot. */
    method SetName(slot: string, name: string)
      requires Valid()
      modifies `slots
      ensures Valid() && slots == WithName(old(slots), Upper(slot), Strip(name))
    {
      StrippedIsName(name);
      Rename(Upper(slot), Strip(name));
    }

    method Rename(slot: string, name: string)
      requires Valid() && IsName(name)
      modifies `slots
      ensures Valid() && slots == WithName(old(slots), slot, name)
    {
      WithNameKeeps(hex, slots, slot, name);
      var record := Lookup(slots, slot);
      if record.Some? {
        slots := Put(slots, slot, record.value.(name := name));
      }
    }

    method SetDownloadCourse(code: Option<string>)
      requires Valid()
      modifies `download
      ensures Valid() && download == if code == Some("") then None else code
    {
      download := if code.Some? && code.value != "" then code else None;
    }
  }
}
