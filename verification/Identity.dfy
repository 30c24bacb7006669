/**
 Which appliance an entry belongs to. Each poll reports a serial and perhaps an OCF identity; the
 entry keeps a key its registry rows carry and a serial that vouches for a change of key.
 */
module Identity {
  import opened Options
  import opened Text

  // ---------------------------------------------------------------------
  // What a device says it is
  // ---------------------------------------------------------------------

  predicate IsHexDigit(c: char) {
    '0' <= c <= '9' || 'A' <= c <= 'F'
  }

  // A sentinel rather than an identity, of text already trimmed.
  predicate IsSentinel(s: string) {
    var upper := Upper(s);
    || "nothing" <= Lower(s)
    || (|upper| >= 8 && IsHexDigit(upper[0]) && forall i | 0 <= i < |upper| :: upper[i] == upper[0])
  }

  predicate IsPlaceholderSerial(serial: string) {
    IsSentinel(Strip(serial))
  }

  function DisplaySerial(raw: Option<string>): (r: Option<string>)
    ensures r.Some? ==> r.value != ""
  {
    var s := Strip(if raw.Some? then raw.value else "");
    if s == "" || IsPlaceholderSerial(s) then None else Some(s)
  }

  function ResolveSerial(raw: Option<string>, host: string): string {
    var s := DisplaySerial(raw);
    if s.Some? then s.value else host
  }

  // Anything beside the zeros and dashes of the nil UUID.
  predicate HasDigit(s: string) {
    exists i :: 0 <= i < |s| && s[i] != '0' && s[i] != '-'
  }

  predicate IsUsableDeviceId(value: string) {
    var s := Strip(value);
    s != "" && HasDigit(s) && !IsPlaceholderSerial(s)
  }

  // `/oic/d`'s di and `/oic/p`'s pi, as far as they were read.
  datatype DeviceIdentity = DeviceIdentity(deviceId: Option<string>, platformId: Option<string>)

  function Canonical(id: string): string {
    Lower(Strip(id))
  }

  function UsableKey(value: Option<string>): (r: Option<string>)
    ensures r.Some? ==> r.value != ""
  {
    if value.Some? && IsUsableDeviceId(value.value) then Some(Canonical(value.value)) else None
  }

  function OcfDeviceKey(identity: Option<DeviceIdentity>): (r: Option<string>)
    ensures r.Some? ==> r.value != ""
  {
    if identity.None? then None
    else
      var di := UsableKey(identity.value.deviceId);
      if di.Some? then di else UsableKey(identity.value.platformId)
  }

  // A text that names nothing: it begins with "nothing", or repeats one hexadecimal digit eight
  // times or more, in either case.
  predicate NamesNothing(text: string) {
    || "nothing" <= Lower(text)
    || (|text| >= 8 && exists d | d in "0123456789abcdef" :: forall i | 0 <= i < |text| :: LowerChar(text[i]) == d)
  }

  lemma RepeatsADigit(text: string)
    requires |text| >= 8
    ensures (IsHexDigit(Upper(text)[0]) && forall i | 0 <= i < |text| :: Upper(text)[i] == Upper(text)[0]) <==>
            exists d | d in "0123456789abcdef" :: forall i | 0 <= i < |text| :: LowerChar(text[i]) == d
  {
    var upper := Upper(text);
    if IsHexDigit(upper[0]) && forall i | 0 <= i < |text| :: upper[i] == upper[0] {
      var d := LowerChar(text[0]);
      HexDigits(text[0]);
      forall i | 0 <= i < |text| ensures LowerChar(text[i]) == d {
        assert upper[i] == upper[0];
      }
    }
    if d :| d in "0123456789abcdef" && forall i | 0 <= i < |text| :: LowerChar(text[i]) == d {
      HexDigits(text[0]);
      assert LowerChar(text[0]) == d;
      forall i | 0 <= i < |text| ensures upper[i] == upper[0] {
        assert LowerChar(text[i]) == LowerChar(text[0]);
      }
    }
  }

  lemma HexDigits(c: char)
    ensures IsHexDigit(UpperChar(c)) <==> LowerChar(c) in "0123456789abcdef"
  {
    var digits := "0123456789abcdef";
    if '0' <= c <= '9' { assert digits[c as int - '0' as int] == c; }
    if 'a' <= c <= 'f' { assert digits[c as int - 'a' as int + 10] == c; }
    if 'A' <= c <= 'F' { assert digits[c as int - 'A' as int + 10] == LowerChar(c); }
  }

  lemma SentinelNamesNothing(text: string)
    ensures IsSentinel(text) <==> NamesNothing(text)
  {
    if |text| >= 8 { RepeatsADigit(text); }
  }

  // An id that tells one unit from another: its text has something beside zeros and dashes and
  // does not name nothing.
  predicate TellsUnits(id: Option<string>) {
    && id.Some?
    && (exists c :: c in Strip(id.value) && c !in "0-")
    && !NamesNothing(Strip(id.value))
  }

  lemma UsableTellsUnits(id: string)
    ensures IsUsableDeviceId(id) <==> TellsUnits(Some(id))
  {
    var s := Strip(id);
    StripIsStripped(id);
    StripIsStripped(s);
    SentinelNamesNothing(s);
    if HasDigit(s) {
      var i :| 0 <= i < |s| && s[i] != '0' && s[i] != '-';
      assert s[i] in s && s[i] !in "0-";
    }
    if c :| c in s && c !in "0-" {
      var i :| 0 <= i < |s| && s[i] == c;
      assert "0-"[0] == '0' && "0-"[1] == '-';
    }
  }

  lemma LowerTwice(s: string)
    ensures Lower(Lower(s)) == Lower(s) && Upper(Lower(s)) == Upper(s)
    ensures IsStripped(s) <==> IsStripped(Lower(s))
  {
    assert forall c :: LowerChar(LowerChar(c)) == LowerChar(c) && UpperChar(LowerChar(c)) == UpperChar(c);
  }

  // Case changes neither what a name starts with nor what it repeats.
  lemma LowerIsSentinelToo(s: string)
    ensures IsSentinel(Lower(s)) <==> IsSentinel(s)
  {
    LowerTwice(s);
  }

  lemma LowerHasDigitToo(s: string)
    ensures HasDigit(Lower(s)) <==> HasDigit(s)
  {
    if HasDigit(s) {
      var i :| 0 <= i < |s| && s[i] != '0' && s[i] != '-';
      assert Lower(s)[i] != '0' && Lower(s)[i] != '-';
    }
    if HasDigit(Lower(s)) {
      var i :| 0 <= i < |s| && Lower(s)[i] != '0' && Lower(s)[i] != '-';
      assert s[i] != '0' && s[i] != '-';
    }
  }

  // Whether an id is usable shows in its canonical form alone.
  predicate IsUsableKey(key: string) {
    key != "" && HasDigit(key) && !IsSentinel(key)
  }

  lemma UsableByKey(id: string)
    ensures IsUsableDeviceId(id) <==> IsUsableKey(Canonical(id))
  {
    LowerIsSentinelToo(Strip(id));
    LowerHasDigitToo(Strip(id));
  }

  lemma CanonicalTwice(id: string)
    ensures Canonical(Canonical(id)) == Canonical(id)
  {
    StripIsStripped(id);
    LowerTwice(Strip(id));
    StripIsStripped(Lower(Strip(id)));
  }

  lemma KeyOfUsable(id: string, key: string)
    requires Canonical(id) == key
    ensures UsableKey(Some(id)) == if IsUsableKey(key) then Some(key) else None
  {
    UsableByKey(id);
  }

  /** The key is a normal form: reading it back as an id gives it again. */
  lemma KeyIsNormal(id: string)
    ensures UsableKey(UsableKey(Some(id))) == UsableKey(Some(id))
  {
    KeyOfUsable(id, Canonical(id));
    CanonicalTwice(id);
    KeyOfUsable(Canonical(id), Canonical(id));
  }

  /** Two reads that differ only in case or padding give the same key, or none. */
  lemma SameKeyForSameText(id: string, other: string)
    requires Canonical(id) == Canonical(other)
    ensures UsableKey(Some(id)) == UsableKey(Some(other))
  {
    KeyOfUsable(id, Canonical(id));
    KeyOfUsable(other, Canonical(id));
  }

  // ---------------------------------------------------------------------
  // The entry
  // ---------------------------------------------------------------------

  // What the config entry stores, and the keys its registry rows carry.
  datatype Entry = Entry(storedKey: Option<string>, storedSerial: Option<string>)

  datatype State = State(entry: Entry, deviceKey: string, rows: set<string>)

  // What one answer of the device at this address says: its OCF identity, if it has a usable one,
  // and its serial, or the address in place of one.
  datatype Reading = Reading(ocf: Option<string>, serial: string)

  function ReadingOf(identity: Option<DeviceIdentity>, serial: Option<string>, host: string): (r: Reading)
    requires host != ""
    ensures r.ocf != Some("") && r.serial != ""
  {
    Reading(OcfDeviceKey(identity), ResolveSerial(serial, host))
  }

  /** A poll's reading: the trimmed lower-case device id where it tells units apart, else the
      platform id where that does, else none; and the trimmed serial where it is not empty and
      names something, else the address. */
  lemma ReadingIs(identity: Option<DeviceIdentity>, serial: Option<string>, host: string)
    requires host != ""
    ensures var r := ReadingOf(identity, serial, host);
      var di := if identity.Some? then identity.value.deviceId else None;
      var pi := if identity.Some? then identity.value.platformId else None;
      && (TellsUnits(di) ==> r.ocf == Some(Lower(Strip(di.value))))
      && (!TellsUnits(di) && TellsUnits(pi) ==> r.ocf == Some(Lower(Strip(pi.value))))
      && (!TellsUnits(di) && !TellsUnits(pi) ==> r.ocf == None)
    ensures var r, text := ReadingOf(identity, serial, host), Strip(if serial.Some? then serial.value else "");
      r.serial == if text != "" && !NamesNothing(text) then text else host
  {
    if identity.Some? {
      KeyTellsUnits(identity.value.deviceId);
      KeyTellsUnits(identity.value.platformId);
    }
    SerialNamesSomething(serial);
  }

  lemma KeyTellsUnits(id: Option<string>)
    ensures UsableKey(id) == if TellsUnits(id) then Some(Lower(Strip(id.value))) else None
  {
    if id.Some? { UsableTellsUnits(id.value); }
  }

  lemma SerialNamesSomething(serial: Option<string>)
    ensures var text := Strip(if serial.Some? then serial.value else "");
      DisplaySerial(serial) == if text != "" && !NamesNothing(text) then Some(text) else None
  {
    var text := Strip(if serial.Some? then serial.value else "");
    StripIsStripped(if serial.Some? then serial.value else "");
    StripIsStripped(text);
    SentinelNamesNothing(text);
  }

  datatype Event = Live(reading: Reading) | Replay(serial: string) | Restart

  predicate Truthy(s: Option<string>) {
    s.Some? && s.value != ""
  }

  // The key the entry's rows are under, as a poll reads it off the entry.
  function CurrentKey(e: Entry, host: string): string {
    if e.storedKey.Some? then e.storedKey.value
    else if Truthy(e.storedSerial) then e.storedSerial.value
    else host
  }

  // The key a start of the integration uses.
  function InitialKey(e: Entry, host: string): string {
    if Truthy(e.storedKey) then e.storedKey.value
    else if Truthy(e.storedSerial) then e.storedSerial.value
    else host
  }

  function PolledKey(r: Reading): string {
    if r.ocf.Some? then r.ocf.value else r.serial
  }

  // The serial this poll shares with the entry, an address not being one.
  predicate SameUnit(e: Entry, r: Reading, host: string) {
    e.storedSerial == Some(r.serial) && r.serial != host
  }

  predicate Follows(e: Entry, r: Reading, host: string) {
    && PolledKey(r) != CurrentKey(e, host)
    && (e.storedKey.None? || r.ocf.Some?)
    && (CurrentKey(e, host) == host || SameUnit(e, r, host) || e.storedSerial.None?)
  }

  // The rows after `rekey_entry`: those under the old key are under the new one.
  function RowsRekeyed(rows: set<string>, oldKey: string, newKey: string): set<string> {
    if oldKey in rows then rows - {oldKey} + {newKey} else rows
  }

  function Or(stored: Option<string>, polled: string): string {
    if Truthy(stored) then stored.value else polled
  }

  // The key and serial a live poll settles on.
  function Resolved(e: Entry, r: Reading, host: string): (string, string) {
    if PolledKey(r) == CurrentKey(e, host) || Follows(e, r, host) then (PolledKey(r), r.serial)
    else (CurrentKey(e, host), Or(e.storedSerial, r.serial))
  }

  // Rows register under the key in use once discovery has run.
  function Apply(s: State, event: Event, host: string): State {
    match event
    case Live(r) =>
      var (key, serial) := Resolved(s.entry, r, host);
      var rows := if Follows(s.entry, r, host) then RowsRekeyed(s.rows, CurrentKey(s.entry, host), key) else s.rows;
      State(Entry(Some(key), Some(serial)), key, rows + {key})
    case Replay(serial) =>
      var stored := Or(s.entry.storedSerial, serial);
      State(s.entry.(storedSerial := Some(stored)), s.deviceKey, s.rows + {s.deviceKey})
    case Restart => s.(deviceKey := InitialKey(s.entry, host))
  }

  function Run(s: State, events: seq<Event>, host: string): State {
    if events == [] then s else Apply(Run(s, events[..|events| - 1], host), events[|events| - 1], host)
  }

  // No row is under a key the entry would not use or move.
  ghost predicate Settled(s: State, host: string) {
    && s.deviceKey == CurrentKey(s.entry, host) && s.rows <= {s.deviceKey}
    && s.entry.storedKey != Some("")
  }

  // What a device is read as is never empty, and a snapshot is only ever saved by a live poll,
  // which stored a key.
  predicate Possible(s: State, event: Event) {
    && (event.Live? ==> event.reading.ocf != Some("") && event.reading.serial != "")
    && (event.Replay? ==> s.entry.storedKey.Some?)
  }

  ghost predicate PossibleRun(s: State, events: seq<Event>, host: string) {
    forall i | 0 <= i < |events| :: Possible(Run(s, events[..i], host), events[i])
  }

  // ---------------------------------------------------------------------
  // No row is orphaned
  // ---------------------------------------------------------------------

  lemma ApplySettled(s: State, event: Event, host: string)
    requires host != "" && Settled(s, host) && Possible(s, event)
    ensures Settled(Apply(s, event, host), host)
  {
  }

  /** Over any run from a settled entry, every registry row is under the key the entry uses, so
      the key never moved away from a row. */
  lemma {:induction false} NoRowIsOrphaned(s: State, events: seq<Event>, host: string)
    requires host != "" && Settled(s, host) && PossibleRun(s, events, host)
    ensures Settled(Run(s, events, host), host)
  {
    if events != [] {
      var before := events[..|events| - 1];
      assert forall i | 0 <= i < |before| :: before[i] == events[i] && before[..i] == events[..i];
      NoRowIsOrphaned(s, before, host);
      ApplySettled(Run(s, before, host), events[|events| - 1], host);
    }
  }

  /** Replaying a snapshot leaves the rows' key the entry's key exactly when the entry has a stored
      key or serial, or the snapshot's serial is the address itself: otherwise the replayed serial
      becomes the key of the next start, and the rows stay under the address. */
  lemma ReplayKeepsKeyIff(s: State, serial: string, host: string)
    requires host != "" && serial != "" && Settled(s, host)
    ensures Settled(Apply(s, Replay(serial), host), host) <==>
            s.entry.storedKey.Some? || Truthy(s.entry.storedSerial) || serial == host
  {
  }

  // ---------------------------------------------------------------------
  // Who may own the entry
  // ---------------------------------------------------------------------

  // An entry with an identity of its own: a key and a serial, neither the address.
  predicate IsReal(s: State, key: string, serial: string, host: string) {
    && s.entry == Entry(Some(key), Some(serial)) && s.deviceKey == key
    && key != "" && serial != "" && key != host && serial != host
  }

  // An answer with neither the entry's key nor its serial.
  predicate IsStranger(event: Event, key: string, serial: string, host: string) {
    event.Live? ==> PolledKey(event.reading) != key && event.reading.serial != serial
  }

  /** Whatever strangers answer at the address, for however long, the entry keeps its key, serial
      and rows. */
  lemma {:induction false} StrangersChangeNothing(
    s: State, events: seq<Event>, key: string, serial: string, host: string)
    requires IsReal(s, key, serial, host)
    requires forall i | 0 <= i < |events| :: IsStranger(events[i], key, serial, host)
    ensures Run(s, events, host) == s.(rows := Run(s, events, host).rows)
    ensures s.rows <= Run(s, events, host).rows <= s.rows + {key}
  {
    if events != [] {
      StrangersChangeNothing(s, events[..|events| - 1], key, serial, host);
    }
  }

  /** After any run of strangers the rightful unit is taken up again by the key it reports. */
  lemma RightfulKeyIsAdopted(s: State, events: seq<Event>, r: Reading, key: string, serial: string, host: string)
    requires IsReal(s, key, serial, host) && PolledKey(r) == key
    requires forall i | 0 <= i < |events| :: IsStranger(events[i], key, serial, host)
    ensures var after := Apply(Run(s, events, host), Live(r), host);
      after.deviceKey == key && after.entry == Entry(Some(key), Some(r.serial))
  {
    StrangersChangeNothing(s, events, key, serial, host);
  }

  /** After any run of strangers the rightful unit is followed under a new identity when its serial
      vouches for it, every row moving with it; without an identity its serial changes nothing. */
  lemma RightfulSerialIsAdopted(s: State, events: seq<Event>, r: Reading, key: string, serial: string, host: string)
    requires IsReal(s, key, serial, host) && r.serial == serial && s.rows <= {key}
    requires forall i | 0 <= i < |events| :: IsStranger(events[i], key, serial, host)
    ensures var after := Apply(Run(s, events, host), Live(r), host);
      && after.entry.storedSerial == Some(serial)
      && after.deviceKey == (if r.ocf.Some? then r.ocf.value else key)
      && after.entry.storedKey == Some(after.deviceKey)
      && after.rows == {after.deviceKey}
  {
    StrangersChangeNothing(s, events, key, serial, host);
  }

  /** A real entry's key changes at a poll exactly when the poll reports a different OCF identity
      together with the serial the entry last stored. */
  lemma KeyChangesIff(s: State, r: Reading, key: string, serial: string, host: string)
    requires IsReal(s, key, serial, host)
    ensures Apply(s, Live(r), host).deviceKey != key <==>
            && r.ocf.Some? && r.ocf != Some(key)
            && r.serial == serial
  {
  }

  /** Taking up a poll by its key also takes up its serial, so one such poll without a usable
      serial spends the vouching one: a regenerated identity is followed afterwards exactly when
      the last adopted poll reported the serial the regenerated unit reports. */
  lemma RegenerationFollowedIff(s: State, first: Reading, second: Reading, key: string, serial: string, host: string)
    requires IsReal(s, key, serial, host)
    requires PolledKey(first) == key
    requires second.ocf.Some? && second.ocf != Some(key)
    ensures var after := Run(s, [Live(first), Live(second)], host);
      after.deviceKey == second.ocf.value <==>
      first.serial != host && second.serial == first.serial
  {
    var events := [Live(first), Live(second)];
    assert events[..1] == [Live(first)] && events[..1][..0] == [];
    assert Run(s, events[..1], host) == Apply(s, Live(first), host);
  }

  // ---------------------------------------------------------------------
  // The coordinator's side
  // ---------------------------------------------------------------------

  /** What a coordinator holds of its entry's identity; `rows` are the keys registry rows carry. */
  class Registration {
    const host: string
    var storedKey: Option<string>
    var storedSerial: Option<string>
    var deviceKey: string
    ghost var rows: set<string>

    ghost function Abs(): State
      reads this
    {
      State(Entry(storedKey, storedSerial), deviceKey, rows)
    }

    /** A start of the integration, before anything answered. */
    constructor (host: string, storedKey: Option<string>, storedSerial: Option<string>, ghost rows: set<string>)
      ensures this.host == host
      ensures Abs() == State(Entry(storedKey, storedSerial), InitialKey(Entry(storedKey, storedSerial), host), rows)
    {
      this.host := host;
      this.storedKey, this.storedSerial, this.rows := storedKey, storedSerial, rows;
      this.deviceKey := if storedKey.Some? && storedKey.value != "" then storedKey.value
                        else if storedSerial.Some? && storedSerial.value != "" then storedSerial.value
                        else host;
    }

    // Every row under the old key is rewritten to the new one.
    method RekeyRows(oldKey: string, newKey: string)
      modifies `rows
      ensures rows == RowsRekeyed(old(rows), oldKey, newKey)
    {
      rows := RowsRekeyed(rows, oldKey, newKey);
    }

    method ResolveIdentity(polled: Reading, fromSnapshot: bool) returns (key: string, serial: string)
      modifies `rows
      ensures fromSnapshot ==> key == deviceKey && serial == Or(storedSerial, polled.serial) && rows == old(rows)
      ensures !fromSnapshot ==>
                var e := Entry(storedKey, storedSerial);
                && (key, serial) == Resolved(e, polled, host)
                && rows == if Follows(e, polled, host) then RowsRekeyed(old(rows), CurrentKey(e, host), key)
                  else old(rows)
    {
      var known := if storedSerial.Some? && storedSerial.value != "" then storedSerial.value else polled.serial;
      if fromSnapshot {
        return deviceKey, known;
      }
      var currentKey := if storedKey.Some? then storedKey.value
                        else if storedSerial.Some? && storedSerial.value != "" then storedSerial.value
                        else host;
      var polledKey := if polled.ocf.Some? then polled.ocf.value else polled.serial;
      if polledKey == currentKey {
        return currentKey, polled.serial;
      }
      if storedKey.Some? && polled.ocf.None? {
        return storedKey.value, known;
      }
      // An address is not an identity and cannot vouch for anything.
      var sameUnit := storedSerial == Some(polled.serial) && polled.serial != host;
      if !(currentKey == host || sameUnit || storedSerial.None?) {
        return currentKey, known;
      }
      RekeyRows(currentKey, polledKey);
      return polledKey, polled.serial;
    }

    method PersistIdentity(key: Option<string>, serial: string)
      modifies `storedKey, `storedSerial
      ensures storedKey == (if key.Some? then key else old(storedKey)) && storedSerial == Some(serial)
    {
      if key.Some? {
        storedKey := key;
      }
      storedSerial := Some(serial);
    }

    /** What discovery does with one reading, live or replayed. */
    method Discover(polled: Reading, fromSnapshot: bool)
      modifies this
      ensures Abs() == Apply(old(Abs()), if fromSnapshot then Replay(polled.serial) else Live(polled), host)
    {
      var key, serial := ResolveIdentity(polled, fromSnapshot);
      deviceKey := key;
      PersistIdentity(if fromSnapshot then None else Some(key), serial);
      rows := rows + {deviceKey};
    }
  }
}
