/**
 Moving an entry's registry rows from one device key to another: entity unique ids, device
 identifiers and the entry's own id. Rewriting a row keeps its entity id; a row whose rewritten
 id is taken is the dead copy and goes; removing a device takes whatever is attached with it.
 */
module Rekey {
  import opened Options

  const DOMAIN := "localthings"

  // `device` is the id of the device row an entity hangs on.
  datatype Entity = Entity(domain: string, uid: string, entry: string, device: Option<string>)

  // Rows by entity id, of every config entry of this integration.
  type Entities = map<string, Entity>

  type Identifier = (string, string)

  // One entry's device rows by device id.
  type Devices = map<string, set<Identifier>>

  function Prefix(key: string): string {
    DOMAIN + "_" + key + "_"
  }

  predicate Under(uid: string, key: string) {
    Prefix(key) <= uid
  }

  function Suffix(uid: string, key: string): string
    requires Under(uid, key)
  {
    uid[|Prefix(key)|..]
  }

  function Moved(uid: string, oldKey: string, newKey: string): string
    requires Under(uid, oldKey)
  {
    Prefix(newKey) + Suffix(uid, oldKey)
  }

  predicate Taken(entities: Entities, domain: string, uid: string) {
    exists q | q in entities :: entities[q].domain == domain && entities[q].uid == uid
  }

  ghost predicate Unique(entities: Entities) {
    forall p, q | p in entities && q in entities && p != q ::
      entities[p].domain != entities[q].domain || entities[p].uid != entities[q].uid
  }

  // Neither key reads as a subdevice of the other, so a row's key can be told from its id.
  predicate Apart(oldKey: string, newKey: string) {
    oldKey != newKey && !(oldKey + "_" <= newKey) && !(newKey + "_" <= oldKey)
  }

  /** A row is under a key when its unique id is the domain, the key and its suffix, by underscores. */
  lemma UidIs(uid: string, key: string, newKey: string, suffix: string)
    ensures Under("localthings_" + key + "_" + suffix, key)
    ensures Suffix("localthings_" + key + "_" + suffix, key) == suffix
    ensures Under(uid, key) ==> uid == "localthings_" + key + "_" + Suffix(uid, key)
    ensures Moved("localthings_" + key + "_" + suffix, key, newKey) == "localthings_" + newKey + "_" + suffix
  {
    assert "localthings" + "_" == "localthings_";
    assert Prefix(key) == "localthings_" + key + "_" && Prefix(newKey) == "localthings_" + newKey + "_";
    var whole := "localthings_" + key + "_" + suffix;
    assert whole[..|Prefix(key)|] == Prefix(key) && whole[|Prefix(key)|..] == suffix;
  }

  lemma BothUnder(uid: string, a: string, b: string)
    requires Under(uid, a) && Under(uid, b) && |a| <= |b|
    ensures a == b || a + "_" <= b
  {
    var base := DOMAIN + "_";
    var rest := uid[|base|..];
    assert rest[..|a| + 1] == Prefix(a)[|base|..] == a + "_";
    assert rest[..|b| + 1] == Prefix(b)[|base|..] == b + "_";
    assert b == rest[..|b|];
    assert a == rest[..|a|];
    if |a| < |b| { assert b[..|a| + 1] == a + "_"; }
  }

  lemma UnderOne(uid: string, oldKey: string, newKey: string)
    requires Apart(oldKey, newKey) && Under(uid, oldKey)
    ensures !Under(uid, newKey)
  {
    if Under(uid, newKey) {
      if |oldKey| <= |newKey| { BothUnder(uid, oldKey, newKey); } else { BothUnder(uid, newKey, oldKey); }
    }
  }

  lemma MovedIsUnder(uid: string, oldKey: string, newKey: string)
    requires Under(uid, oldKey)
    ensures Under(Moved(uid, oldKey, newKey), newKey)
    ensures Suffix(Moved(uid, oldKey, newKey), newKey) == Suffix(uid, oldKey)
  {
  }

  lemma MovedInjective(a: string, b: string, oldKey: string, newKey: string)
    requires Under(a, oldKey) && Under(b, oldKey) && Moved(a, oldKey, newKey) == Moved(b, oldKey, newKey)
    ensures a == b
  {
    MovedIsUnder(a, oldKey, newKey);
    MovedIsUnder(b, oldKey, newKey);
    assert a == Prefix(oldKey) + Suffix(a, oldKey);
    assert b == Prefix(oldKey) + Suffix(b, oldKey);
  }

  // ---------------------------------------------------------------------
  // Entity rows
  // ---------------------------------------------------------------------

  predicate Stale(row: Entity, entry: string, oldKey: string) {
    row.entry == entry && Under(row.uid, oldKey)
  }

  predicate HasTwin(entities: Entities, row: Entity, oldKey: string, newKey: string)
    requires Under(row.uid, oldKey)
  {
    Taken(entities, row.domain, Moved(row.uid, oldKey, newKey))
  }

  predicate Dead(entities: Entities, row: Entity, entry: string, oldKey: string, newKey: string) {
    Stale(row, entry, oldKey) && HasTwin(entities, row, oldKey, newKey)
  }

  function RowAfter(row: Entity, entry: string, oldKey: string, newKey: string): Entity {
    if Stale(row, entry, oldKey) then row.(uid := Moved(row.uid, oldKey, newKey)) else row
  }

  // The rows once those in `done` have been visited.
  ghost function RekeyedOn(
    entities: Entities, done: set<string>, entry: string, oldKey: string, newKey: string): Entities
  {
    map id | id in entities && !(id in done && Dead(entities, entities[id], entry, oldKey, newKey)) ::
      if id in done then RowAfter(entities[id], entry, oldKey, newKey) else entities[id]
  }

  // All rows moved at once, whatever order they are visited in.
  ghost function Rekeyed(entities: Entities, entry: string, oldKey: string, newKey: string): Entities {
    map id | id in entities && !Dead(entities, entities[id], entry, oldKey, newKey) ::
      RowAfter(entities[id], entry, oldKey, newKey)
  }

  // A row whose id another stale row is to have is not to move itself.
  ghost predicate RowsSettled(entities: Entities, entry: string, oldKey: string, newKey: string) {
    forall id, q | id in entities && q in entities && Stale(entities[id], entry, oldKey)
                   && entities[q].domain == entities[id].domain
                   && entities[q].uid == Moved(entities[id].uid, oldKey, newKey) ::
      !Stale(entities[q], entry, oldKey)
  }

  /** Where neither key reads as a subdevice of the other, every registry is settled. */
  lemma ApartIsSettled(entities: Entities, entry: string, oldKey: string, newKey: string)
    requires Apart(oldKey, newKey)
    ensures RowsSettled(entities, entry, oldKey, newKey)
  {
    forall id, q | id in entities && q in entities && Stale(entities[id], entry, oldKey)
                   && entities[q].uid == Moved(entities[id].uid, oldKey, newKey)
      ensures !Stale(entities[q], entry, oldKey)
    {
      MovedIsUnder(entities[id].uid, oldKey, newKey);
      if Under(entities[q].uid, oldKey) { UnderOne(entities[q].uid, oldKey, newKey); }
    }
  }

  lemma MovedStays(uid: string, oldKey: string, newKey: string)
    requires Under(uid, oldKey)
    ensures Moved(uid, oldKey, newKey) == uid ==> oldKey == newKey
  {
    if Moved(uid, oldKey, newKey) == uid {
      assert |uid| == |Prefix(oldKey)| + |Suffix(uid, oldKey)| == |Prefix(newKey)| + |Suffix(uid, oldKey)|;
      assert Prefix(oldKey) == uid[..|Prefix(oldKey)|] == Prefix(newKey);
      PrefixInjective(oldKey, newKey);
    }
  }

  /** Where one is not, the listing order decides: a row that would go as a dead copy finds its new
      id free once the other row has been visited. */
  lemma UnsettledDependsOnOrder(
    entities: Entities, id: string, q: string, entry: string, oldKey: string, newKey: string)
    requires oldKey != newKey && Unique(entities) && id in entities && q in entities
    requires Stale(entities[id], entry, oldKey) && Stale(entities[q], entry, oldKey)
    requires entities[q].domain == entities[id].domain
    requires entities[q].uid == Moved(entities[id].uid, oldKey, newKey)
    ensures var row := entities[id];
      && HasTwin(entities, row, oldKey, newKey)
      && !Taken(RekeyedOn(entities, {q}, entry, oldKey, newKey), row.domain, Moved(row.uid, oldKey, newKey))
  {
    MovedStays(entities[q].uid, oldKey, newKey);
  }

  // A rewritten id is taken midway exactly when it was taken at the start.
  lemma TakenMidway(entities: Entities, done: set<string>, id: string, entry: string, oldKey: string, newKey: string)
    requires RowsSettled(entities, entry, oldKey, newKey) && Unique(entities)
    requires id in entities && id !in done && Stale(entities[id], entry, oldKey)
    ensures var row := entities[id];
      Taken(RekeyedOn(entities, done, entry, oldKey, newKey), row.domain, Moved(row.uid, oldKey, newKey)) <==>
      HasTwin(entities, row, oldKey, newKey)
  {
    var row := entities[id];
    var uid := Moved(row.uid, oldKey, newKey);
    var mid := RekeyedOn(entities, done, entry, oldKey, newKey);
    if HasTwin(entities, row, oldKey, newKey) {
      var q :| q in entities && entities[q].domain == row.domain && entities[q].uid == uid;
      assert mid[q] == entities[q];
    }
    if Taken(mid, row.domain, uid) {
      var q :| q in mid && mid[q].domain == row.domain && mid[q].uid == uid;
      if q in done && Stale(entities[q], entry, oldKey) {
        MovedInjective(entities[q].uid, row.uid, oldKey, newKey);
      } else {
        assert entities[q] == mid[q];
      }
    }
  }

  lemma RekeyedOnUnique(entities: Entities, done: set<string>, entry: string, oldKey: string, newKey: string)
    requires Unique(entities)
    ensures Unique(RekeyedOn(entities, done, entry, oldKey, newKey))
  {
    var mid := RekeyedOn(entities, done, entry, oldKey, newKey);
    forall p, q | p in mid && q in mid && p != q
      ensures mid[p].domain != mid[q].domain || mid[p].uid != mid[q].uid
    {
      RowsDiffer(entities, done, p, q, entry, oldKey, newKey);
    }
  }

  lemma RowsDiffer(
    entities: Entities, done: set<string>, p: string, q: string, entry: string, oldKey: string, newKey: string)
    requires Unique(entities) && p != q
    requires p in RekeyedOn(entities, done, entry, oldKey, newKey) &&
        q in RekeyedOn(entities, done, entry, oldKey, newKey)
    ensures var mid := RekeyedOn(entities, done, entry, oldKey, newKey);
      mid[p].domain != mid[q].domain || mid[p].uid != mid[q].uid
  {
    var mid := RekeyedOn(entities, done, entry, oldKey, newKey);
    var pMoves := p in done && Stale(entities[p], entry, oldKey);
    var qMoves := q in done && Stale(entities[q], entry, oldKey);
    if pMoves && qMoves && mid[p].uid == mid[q].uid {
      MovedInjective(entities[p].uid, entities[q].uid, oldKey, newKey);
    }
  }

  // ---------------------------------------------------------------------
  // What the entity rows keep
  // ---------------------------------------------------------------------

  type Slot = (string, string)

  ghost function Slots(entities: Entities, entry: string, key: string): set<Slot> {
    set id | id in entities && Stale(entities[id], entry, key) :: (entities[id].domain, Suffix(entities[id].uid, key))
  }

  /** No row of the entry carries the old key any more, a row without a twin keeps its entity id
      and everything but its key, every other row is untouched, and moving again changes nothing. */
  lemma RekeyedKeeps(entities: Entities, entry: string, oldKey: string, newKey: string)
    requires Apart(oldKey, newKey) && Unique(entities)
    ensures var out := Rekeyed(entities, entry, oldKey, newKey);
      && (forall id | id in out :: !Stale(out[id], entry, oldKey))
      && (forall id | id in entities && !Stale(entities[id], entry, oldKey) :: id in out && out[id] == entities[id])
      && (forall id | id in entities && Stale(entities[id], entry, oldKey) &&
        !HasTwin(entities, entities[id], oldKey, newKey) ::
            id in out && out[id] == entities[id].(uid := Moved(entities[id].uid, oldKey, newKey)))
      && Unique(out)
      && Rekeyed(out, entry, oldKey, newKey) == out
  {
    var out := Rekeyed(entities, entry, oldKey, newKey);
    forall id | id in out ensures !Stale(out[id], entry, oldKey) {
      if Stale(entities[id], entry, oldKey) {
        MovedIsUnder(entities[id].uid, oldKey, newKey);
        if Under(out[id].uid, oldKey) { UnderOne(out[id].uid, oldKey, newKey); }
      }
    }
    RekeyedOnUnique(entities, entities.Keys, entry, oldKey, newKey);
    assert out == RekeyedOn(entities, entities.Keys, entry, oldKey, newKey);
  }

  // Every twin of a stale row belongs to the same entry.
  ghost predicate TwinsAreOwn(entities: Entities, entry: string, oldKey: string, newKey: string) {
    forall id, q | id in entities && q in entities && Stale(entities[id], entry, oldKey)
                   && entities[q].domain == entities[id].domain
                   && entities[q].uid == Moved(entities[id].uid, oldKey, newKey) ::
      entities[q].entry == entry
  }

  /** The (domain, suffix) slots the entry had under either key are exactly those it has under the
      new one, if and only if no stale row's twin belongs to another entry. */
  lemma SlotsPreservedIff(entities: Entities, entry: string, oldKey: string, newKey: string)
    requires Apart(oldKey, newKey) && Unique(entities)
    ensures Slots(Rekeyed(entities, entry, oldKey, newKey), entry, newKey) ==
            Slots(entities, entry, oldKey) + Slots(entities, entry, newKey) <==>
            TwinsAreOwn(entities, entry, oldKey, newKey)
  {
    SlotsNotInvented(entities, entry, oldKey, newKey);
    if TwinsAreOwn(entities, entry, oldKey, newKey) {
      SlotsNotLost(entities, entry, oldKey, newKey);
    } else {
      var id, q :| id in entities && q in entities && Stale(entities[id], entry, oldKey)
                   && entities[q].domain == entities[id].domain
                   && entities[q].uid == Moved(entities[id].uid, oldKey, newKey) && entities[q].entry != entry;
      SlotLost(entities, id, q, entry, oldKey, newKey);
    }
  }

  lemma SlotsNotInvented(entities: Entities, entry: string, oldKey: string, newKey: string)
    ensures Slots(Rekeyed(entities, entry, oldKey, newKey), entry, newKey) <=
            Slots(entities, entry, oldKey) + Slots(entities, entry, newKey)
  {
    var out := Rekeyed(entities, entry, oldKey, newKey);
    forall slot | slot in Slots(out, entry, newKey)
      ensures slot in Slots(entities, entry, oldKey) || slot in Slots(entities, entry, newKey)
    {
      var id :| id in out && Stale(out[id], entry, newKey) && (out[id].domain, Suffix(out[id].uid, newKey)) == slot;
      if Stale(entities[id], entry, oldKey) {
        MovedIsUnder(entities[id].uid, oldKey, newKey);
        assert (entities[id].domain, Suffix(entities[id].uid, oldKey)) in Slots(entities, entry, oldKey);
      } else {
        assert (entities[id].domain, Suffix(entities[id].uid, newKey)) in Slots(entities, entry, newKey);
      }
    }
  }

  lemma SlotsNotLost(entities: Entities, entry: string, oldKey: string, newKey: string)
    requires Apart(oldKey, newKey) && TwinsAreOwn(entities, entry, oldKey, newKey)
    ensures Slots(entities, entry, oldKey) + Slots(entities, entry, newKey) <=
            Slots(Rekeyed(entities, entry, oldKey, newKey), entry, newKey)
  {
    var out := Rekeyed(entities, entry, oldKey, newKey);
    forall slot | slot in Slots(entities, entry, newKey) ensures slot in Slots(out, entry, newKey) {
      var id :| id in entities && Stale(entities[id], entry, newKey) &&
          (entities[id].domain, Suffix(entities[id].uid, newKey)) == slot;
      FreshStays(entities, id, entry, oldKey, newKey);
    }
    forall slot | slot in Slots(entities, entry, oldKey) ensures slot in Slots(out, entry, newKey) {
      var id :| id in entities && Stale(entities[id], entry, oldKey) &&
          (entities[id].domain, Suffix(entities[id].uid, oldKey)) == slot;
      MovedIsUnder(entities[id].uid, oldKey, newKey);
      if HasTwin(entities, entities[id], oldKey, newKey) {
        var q :| q in entities && entities[q].domain == entities[id].domain &&
            entities[q].uid == Moved(entities[id].uid, oldKey, newKey);
        FreshStays(entities, q, entry, oldKey, newKey);
      } else {
        assert out[id].uid == Moved(entities[id].uid, oldKey, newKey);
        assert (out[id].domain, Suffix(out[id].uid, newKey)) in Slots(out, entry, newKey);
      }
    }
  }

  lemma FreshStays(entities: Entities, id: string, entry: string, oldKey: string, newKey: string)
    requires Apart(oldKey, newKey) && id in entities && Stale(entities[id], entry, newKey)
    ensures var out := Rekeyed(entities, entry, oldKey, newKey);
      id in out && out[id] == entities[id]
      && (entities[id].domain, Suffix(entities[id].uid, newKey)) in Slots(out, entry, newKey)
  {
    var out := Rekeyed(entities, entry, oldKey, newKey);
    if Under(entities[id].uid, oldKey) { UnderOne(entities[id].uid, oldKey, newKey); }
    assert (out[id].domain, Suffix(out[id].uid, newKey)) in Slots(out, entry, newKey);
  }

  lemma SlotLost(entities: Entities, id: string, q: string, entry: string, oldKey: string, newKey: string)
    requires Apart(oldKey, newKey) && Unique(entities)
    requires id in entities && q in entities && Stale(entities[id], entry, oldKey)
    requires entities[q].domain == entities[id].domain && entities[q].entry != entry
    requires entities[q].uid == Moved(entities[id].uid, oldKey, newKey)
    ensures var slot := (entities[id].domain, Suffix(entities[id].uid, oldKey));
      slot in Slots(entities, entry, oldKey) && slot !in Slots(Rekeyed(entities, entry, oldKey, newKey), entry, newKey)
  {
    MovedIsUnder(entities[id].uid, oldKey, newKey);
    RekeyedKeeps(entities, entry, oldKey, newKey);
    var slot := (entities[id].domain, Suffix(entities[id].uid, oldKey));
    if slot in Slots(Rekeyed(entities, entry, oldKey, newKey), entry, newKey) {
      var p := SlotOwner(Rekeyed(entities, entry, oldKey, newKey), entry, newKey, slot);
    }
  }

  lemma SlotOwner(entities: Entities, entry: string, key: string, slot: Slot) returns (id: string)
    requires slot in Slots(entities, entry, key)
    ensures id in entities && entities[id].entry == entry && entities[id].domain == slot.0
    ensures entities[id].uid == Prefix(key) + slot.1
  {
    id :| id in entities && Stale(entities[id], entry, key) &&
      (entities[id].domain, Suffix(entities[id].uid, key)) == slot;
  }

  // Moved whole: nothing of the entry is left under the old key, and no slot is lost or invented.
  ghost predicate MovesWhole(entities: Entities, entry: string, oldKey: string, newKey: string) {
    var out := Rekeyed(entities, entry, oldKey, newKey);
    && (forall id | id in out :: !Stale(out[id], entry, oldKey))
    && Slots(out, entry, newKey) == Slots(entities, entry, oldKey) + Slots(entities, entry, newKey)
  }

  /** Rekeying moves every registry whole (twins being the entry's own) exactly when neither key
      reads as a subdevice of the other. */
  lemma MovesWholeIffApart(entry: string, oldKey: string, newKey: string)
    requires oldKey != newKey
    ensures (forall entities | Unique(entities) && TwinsAreOwn(entities, entry, oldKey, newKey) ::
               MovesWhole(entities, entry, oldKey, newKey)) <==>
            Apart(oldKey, newKey)
  {
    if Apart(oldKey, newKey) {
      forall entities | Unique(entities) && TwinsAreOwn(entities, entry, oldKey, newKey)
        ensures MovesWhole(entities, entry, oldKey, newKey)
      {
        RekeyedKeeps(entities, entry, oldKey, newKey);
        SlotsPreservedIff(entities, entry, oldKey, newKey);
      }
    } else {
      OverlapBreaks(entry, oldKey, newKey);
    }
  }

  function LoneRow(entry: string, key: string): Entities {
    map["light.x" := Entity("light", Prefix(key) + "power", entry, None)]
  }

  lemma OverlapBreaks(entry: string, oldKey: string, newKey: string)
    requires oldKey != newKey && !Apart(oldKey, newKey)
    ensures var row := LoneRow(entry, oldKey);
      Unique(row) && TwinsAreOwn(row, entry, oldKey, newKey) && !MovesWhole(row, entry, oldKey, newKey)
  {
    var rows := LoneRow(entry, oldKey);
    var row := rows["light.x"];
    assert Suffix(row.uid, oldKey) == "power";
    LoneRowMoves(entry, oldKey, newKey);
    var out := Rekeyed(rows, entry, oldKey, newKey);
    if oldKey + "_" <= newKey {
      // Where the new key extends the old one, the moved row still reads as stale.
      assert Prefix(newKey)[..|Prefix(oldKey)|] == Prefix(oldKey);
    } else {
      // Where the old key extends the new one, the row was in a longer slot of the new key too.
      assert Prefix(oldKey)[..|Prefix(newKey)|] == Prefix(newKey);
      assert ("light", Suffix(row.uid, newKey)) in Slots(rows, entry, newKey);
      forall slot | slot in Slots(out, entry, newKey) ensures slot == ("light", "power") {
        MovedIsUnder(row.uid, oldKey, newKey);
      }
      assert |Suffix(row.uid, newKey)| > |"power"|;
    }
  }

  lemma LoneRowMoves(entry: string, oldKey: string, newKey: string)
    requires oldKey != newKey
    ensures var rows := LoneRow(entry, oldKey);
      && Under(rows["light.x"].uid, oldKey)
      && Rekeyed(rows, entry, oldKey, newKey).Keys == {"light.x"}
      && Rekeyed(rows, entry, oldKey, newKey)["light.x"] ==
           rows["light.x"].(uid := Moved(rows["light.x"].uid, oldKey, newKey))
  {
    var rows := LoneRow(entry, oldKey);
    var uid := rows["light.x"].uid;
    assert Under(uid, oldKey);
    PrefixInjective(oldKey, newKey);
    assert Moved(uid, oldKey, newKey)[..|Prefix(newKey)|] == Prefix(newKey);
    assert uid[..|Prefix(oldKey)|] == Prefix(oldKey);
  }

  lemma PrefixInjective(a: string, b: string)
    ensures Prefix(a) == Prefix(b) ==> a == b
  {
    var base := DOMAIN + "_";
    assert a == Prefix(a)[|base|..|base| + |a|];
    assert b == Prefix(b)[|base|..|base| + |b|];
  }

  // ---------------------------------------------------------------------
  // Device rows
  // ---------------------------------------------------------------------

  predicate OwnsName(key: string, name: string) {
    name == key || key + "_" <= name
  }

  predicate StaleId(i: Identifier, oldKey: string) {
    i.0 == DOMAIN && OwnsName(oldKey, i.1)
  }

  function StaleIds(ids: set<Identifier>, oldKey: string): set<Identifier> {
    set i | i in ids && StaleId(i, oldKey)
  }

  function FreshId(i: Identifier, oldKey: string, newKey: string): Identifier
    requires StaleId(i, oldKey)
  {
    (DOMAIN, newKey + i.1[|oldKey|..])
  }

  function FreshIds(ids: set<Identifier>, oldKey: string, newKey: string): set<Identifier> {
    set i | i in ids && StaleId(i, oldKey) :: FreshId(i, oldKey, newKey)
  }

  function IdsAfter(ids: set<Identifier>, oldKey: string, newKey: string): set<Identifier> {
    (ids - StaleIds(ids, oldKey)) + FreshIds(ids, oldKey, newKey)
  }

  predicate IsDeviceTwin(devices: Devices, d: string, e: string, oldKey: string, newKey: string)
    requires d in devices
  {
    e in devices && e != d && devices[e] * FreshIds(devices[d], oldKey, newKey) != {}
  }

  predicate DeviceDead(devices: Devices, d: string, oldKey: string, newKey: string)
    requires d in devices
  {
    exists e | e in devices :: IsDeviceTwin(devices, d, e, oldKey, newKey)
  }

  // An identifier names one device row.
  ghost predicate Disjoint(devices: Devices) {
    forall d, e | d in devices && e in devices && d != e :: devices[d] !! devices[e]
  }

  // A row that another moves onto stays, keeps an identifier the two meet on, and the one that
  // moves onto it holds none of its moved identifiers already.
  ghost predicate TwinsSettled(devices: Devices, oldKey: string, newKey: string) {
    forall d, e | d in devices && e in devices && IsDeviceTwin(devices, d, e, oldKey, newKey) ::
      && !DeviceDead(devices, e, oldKey, newKey) && devices[d] !! FreshIds(devices[d], oldKey, newKey)
      && (devices[e] - StaleIds(devices[e], oldKey)) * FreshIds(devices[d], oldKey, newKey) != {}
  }

  ghost predicate DevicesValid(devices: Devices, oldKey: string, newKey: string) {
    Disjoint(devices) && TwinsSettled(devices, oldKey, newKey)
  }

  predicate OwnId(i: Identifier, oldKey: string, newKey: string) {
    StaleId(i, oldKey) || StaleId(i, newKey)
  }

  // Which of the entry's devices an identifier names: the empty text or a subdevice.
  function SlotOf(i: Identifier, oldKey: string, newKey: string): string
    requires OwnId(i, oldKey, newKey)
  {
    if StaleId(i, oldKey) then i.1[|oldKey|..] else i.1[|newKey|..]
  }

  // What the entry has on one row, under either key or both, names one of its devices.
  ghost predicate OneSlot(ids: set<Identifier>, oldKey: string, newKey: string) {
    forall i, j | i in ids && j in ids && OwnId(i, oldKey, newKey) && OwnId(j, oldKey, newKey) ::
      SlotOf(i, oldKey, newKey) == SlotOf(j, oldKey, newKey)
  }

  ghost function DevicesOn(devices: Devices, done: set<string>, oldKey: string, newKey: string): Devices {
    map d | d in devices && !(d in done && DeviceDead(devices, d, oldKey, newKey)) ::
      if d in done then IdsAfter(devices[d], oldKey, newKey) else devices[d]
  }

  ghost function DevicesRekeyed(devices: Devices, oldKey: string, newKey: string): Devices {
    map d | d in devices && !DeviceDead(devices, d, oldKey, newKey) :: IdsAfter(devices[d], oldKey, newKey)
  }

  lemma Meet<T>(a: set<T>, b: set<T>)
    ensures a * b != {} <==> exists i :: i in a && i in b
  {
    if i :| i in a && i in b { assert i in a * b; }
    if a * b != {} { var i :| i in a * b; }
  }

  /** A device identifier is under a key when it is the key or the key, an underscore and more, in this
      integration's domain; moved, the rest stays. */
  lemma IdentifierIs(i: Identifier, key: string, newKey: string, rest: string)
    ensures StaleId(i, key) <==>
            i.0 == "localthings" && (i.1 == key || exists more :: i.1 == key + "_" + more)
    ensures StaleId(("localthings", key), key) && FreshId(("localthings", key), key, newKey) == ("localthings", newKey)
    ensures StaleId(("localthings", key + "_" + rest), key)
    ensures FreshId(("localthings", key + "_" + rest), key, newKey) == ("localthings", newKey + "_" + rest)
  {
    if key + "_" <= i.1 { assert i.1 == key + "_" + i.1[|key| + 1..]; }
    var name := key + "_" + rest;
    assert name[..|key| + 1] == key + "_" && name[|key|..] == "_" + rest;
    assert newKey + "_" + rest == newKey + ("_" + rest);
    assert key[|key|..] == "" && newKey + "" == newKey;
  }

  lemma BothOwn(a: string, b: string, name: string)
    requires OwnsName(a, name) && OwnsName(b, name) && |a| <= |b|
    ensures a == b || a + "_" <= b
  {
    assert name[..|a|] == a && name[..|b|] == b;
    if |a| < |b| { assert b[..|a| + 1] == name[..|a| + 1]; }
  }

  lemma FreshIsNotStale(i: Identifier, oldKey: string, newKey: string)
    requires Apart(oldKey, newKey) && StaleId(i, oldKey)
    ensures !StaleId(FreshId(i, oldKey, newKey), oldKey)
  {
    var name := FreshId(i, oldKey, newKey).1;
    if i.1 != oldKey {
      assert i.1[..|oldKey| + 1] == oldKey + "_";
      assert name[..|newKey| + 1] == newKey + "_";
    }
    assert OwnsName(newKey, name);
    if OwnsName(oldKey, name) {
      if |oldKey| <= |newKey| { BothOwn(oldKey, newKey, name); } else { BothOwn(newKey, oldKey, name); }
    }
  }

  lemma FreshIdInjective(i: Identifier, j: Identifier, oldKey: string, newKey: string)
    requires StaleId(i, oldKey) && StaleId(j, oldKey) && FreshId(i, oldKey, newKey) == FreshId(j, oldKey, newKey)
    ensures i == j
  {
    assert i.1[|oldKey|..] == FreshId(i, oldKey, newKey).1[|newKey|..];
    assert j.1[|oldKey|..] == FreshId(j, oldKey, newKey).1[|newKey|..];
    assert i.1 == oldKey + i.1[|oldKey|..] && j.1 == oldKey + j.1[|oldKey|..];
  }

  lemma FreshOwns(i: Identifier, oldKey: string, newKey: string)
    requires StaleId(i, oldKey)
    ensures StaleId(FreshId(i, oldKey, newKey), newKey)
    ensures FreshId(i, oldKey, newKey).1[|newKey|..] == i.1[|oldKey|..]
  {
    var name := FreshId(i, oldKey, newKey).1;
    if i.1 != oldKey {
      assert i.1[..|oldKey| + 1] == oldKey + "_";
      assert name[..|newKey| + 1] == newKey + "_";
    }
  }

  lemma SlotOfFresh(i: Identifier, oldKey: string, newKey: string)
    requires Apart(oldKey, newKey) && StaleId(i, oldKey)
    ensures var f := FreshId(i, oldKey, newKey);
      OwnId(f, oldKey, newKey) && SlotOf(f, oldKey, newKey) == SlotOf(i, oldKey, newKey)
  {
    FreshOwns(i, oldKey, newKey);
    FreshIsNotStale(i, oldKey, newKey);
  }

  // A stale identifier is told by its slot.
  lemma StaleBySlot(i: Identifier, j: Identifier, oldKey: string, newKey: string)
    requires StaleId(i, oldKey) && StaleId(j, oldKey) && SlotOf(i, oldKey, newKey) == SlotOf(j, oldKey, newKey)
    ensures i == j
  {
    assert i.1 == oldKey + i.1[|oldKey|..] && j.1 == oldKey + j.1[|oldKey|..];
  }

  /** Rows with one slot each are moved as they stand, a row holding the same slot under both keys
      included. */
  lemma OneSlotIsValid(devices: Devices, oldKey: string, newKey: string)
    requires Apart(oldKey, newKey) && Disjoint(devices)
    requires forall d | d in devices :: OneSlot(devices[d], oldKey, newKey)
    ensures DevicesValid(devices, oldKey, newKey)
  {
    forall d, e | d in devices && e in devices && IsDeviceTwin(devices, d, e, oldKey, newKey)
      ensures !DeviceDead(devices, e, oldKey, newKey) && devices[d] !! FreshIds(devices[d], oldKey, newKey)
      ensures (devices[e] - StaleIds(devices[e], oldKey)) * FreshIds(devices[d], oldKey, newKey) != {}
    {
      OneSlotTwin(devices, d, e, oldKey, newKey);
      NothingStale(devices, e, oldKey, newKey);
      assert devices[e] - StaleIds(devices[e], oldKey) == devices[e];
    }
  }

  lemma OneSlotTwin(devices: Devices, d: string, e: string, oldKey: string, newKey: string)
    requires Apart(oldKey, newKey) && Disjoint(devices) && d in devices && e in devices
    requires OneSlot(devices[d], oldKey, newKey) && OneSlot(devices[e], oldKey, newKey)
    requires IsDeviceTwin(devices, d, e, oldKey, newKey)
    ensures StaleIds(devices[e], oldKey) == {} && devices[d] !! FreshIds(devices[d], oldKey, newKey)
  {
    var f :| f in devices[e] && f in FreshIds(devices[d], oldKey, newKey);
    var i :| i in devices[d] && StaleId(i, oldKey) && f == FreshId(i, oldKey, newKey);
    SlotOfFresh(i, oldKey, newKey);
    forall j | j in devices[e] ensures !StaleId(j, oldKey) {
      if StaleId(j, oldKey) {
        assert SlotOf(j, oldKey, newKey) == SlotOf(f, oldKey, newKey);
        StaleBySlot(i, j, oldKey, newKey);
      }
    }
    forall k | k in FreshIds(devices[d], oldKey, newKey) ensures k !in devices[d] {
      var j :| j in devices[d] && StaleId(j, oldKey) && k == FreshId(j, oldKey, newKey);
      StaleBySlot(i, j, oldKey, newKey);
      assert k == f;
    }
  }

  // The row a visited device's identifiers move onto is the same midway as at the start.
  lemma DeviceTwinMidway(devices: Devices, done: set<string>, d: string, e: string, oldKey: string, newKey: string)
    requires DevicesValid(devices, oldKey, newKey) && d in devices && d !in done
    ensures var mid := DevicesOn(devices, done, oldKey, newKey);
      (e in mid && e != d && mid[e] * FreshIds(devices[d], oldKey, newKey) != {}) <==>
      IsDeviceTwin(devices, d, e, oldKey, newKey)
  {
    var mid := DevicesOn(devices, done, oldKey, newKey);
    if IsDeviceTwin(devices, d, e, oldKey, newKey) {
      var f :| f in devices[e] - StaleIds(devices[e], oldKey) && f in FreshIds(devices[d], oldKey, newKey);
      assert e in mid && f in mid[e] * FreshIds(devices[d], oldKey, newKey);
    }
    if e in mid && e != d && mid[e] * FreshIds(devices[d], oldKey, newKey) != {} {
      var f :| f in mid[e] && f in FreshIds(devices[d], oldKey, newKey);
      FreshWasThere(devices, d, e, f, oldKey, newKey);
      assert f in devices[e] * FreshIds(devices[d], oldKey, newKey);
    }
  }

  // What one row moves onto, another row cannot have moved onto before.
  lemma FreshWasThere(devices: Devices, d: string, e: string, f: Identifier, oldKey: string, newKey: string)
    requires Disjoint(devices) && d in devices && e in devices && d != e
    requires f in FreshIds(devices[d], oldKey, newKey)
    requires f in devices[e] || f in IdsAfter(devices[e], oldKey, newKey)
    ensures f in devices[e]
  {
    var i :| i in devices[d] && StaleId(i, oldKey) && f == FreshId(i, oldKey, newKey);
    assert devices[d] !! devices[e];
    if f !in devices[e] {
      var j :| j in devices[e] && StaleId(j, oldKey) && f == FreshId(j, oldKey, newKey);
      FreshIdInjective(i, j, oldKey, newKey);
    }
  }

  lemma DevicesOnDisjoint(devices: Devices, done: set<string>, oldKey: string, newKey: string)
    requires Disjoint(devices)
    ensures Disjoint(DevicesOn(devices, done, oldKey, newKey))
  {
    var mid := DevicesOn(devices, done, oldKey, newKey);
    forall d, e | d in mid && e in mid && d != e ensures mid[d] !! mid[e] {
      DevicesStayDisjoint(devices, done, d, e, oldKey, newKey);
    }
  }

  // A row moved onto another row's identifier has that row for a twin.
  lemma MovedOntoTwin(devices: Devices, d: string, e: string, f: Identifier, oldKey: string, newKey: string)
    requires d in devices && e in devices && d != e
    requires f in IdsAfter(devices[d], oldKey, newKey) && f !in devices[d] && f in devices[e]
    ensures IsDeviceTwin(devices, d, e, oldKey, newKey)
  {
    assert f in devices[e] * FreshIds(devices[d], oldKey, newKey);
  }

  lemma DevicesStayDisjoint(devices: Devices, done: set<string>, d: string, e: string, oldKey: string, newKey: string)
    requires Disjoint(devices) && d != e
    requires d in DevicesOn(devices, done, oldKey, newKey) && e in DevicesOn(devices, done, oldKey, newKey)
    ensures DevicesOn(devices, done, oldKey, newKey)[d] !! DevicesOn(devices, done, oldKey, newKey)[e]
  {
    var mid := DevicesOn(devices, done, oldKey, newKey);
    forall f | f in mid[d] ensures f !in mid[e] {
      if f in mid[e] {
        if f in devices[e] && f !in devices[d] { MovedOntoTwin(devices, d, e, f, oldKey, newKey); }
        if f in devices[d] && f !in devices[e] { MovedOntoTwin(devices, e, d, f, oldKey, newKey); }
        var i :| i in devices[d] && StaleId(i, oldKey) && f == FreshId(i, oldKey, newKey);
        var j :| j in devices[e] && StaleId(j, oldKey) && f == FreshId(j, oldKey, newKey);
        FreshIdInjective(i, j, oldKey, newKey);
      }
    }
  }

  lemma NoStaleIdsLeft(devices: Devices, d: string, oldKey: string, newKey: string)
    requires Apart(oldKey, newKey) && d in DevicesRekeyed(devices, oldKey, newKey)
    ensures StaleIds(DevicesRekeyed(devices, oldKey, newKey)[d], oldKey) == {}
  {
    var ids := DevicesRekeyed(devices, oldKey, newKey)[d];
    forall i | i in ids ensures !StaleId(i, oldKey) {
      if i !in devices[d] || StaleId(i, oldKey) {
        var j :| j in devices[d] && StaleId(j, oldKey) && i == FreshId(j, oldKey, newKey);
        FreshIsNotStale(j, oldKey, newKey);
      }
    }
  }

  /** No device identifier is left under the old key, each still names one row, and moving again
      changes nothing. */
  lemma DevicesRekeyedKeeps(devices: Devices, oldKey: string, newKey: string)
    requires Apart(oldKey, newKey) && Disjoint(devices)
    ensures var out := DevicesRekeyed(devices, oldKey, newKey);
      && (forall d | d in out :: StaleIds(out[d], oldKey) == {})
      && DevicesValid(out, oldKey, newKey)
      && DevicesRekeyed(out, oldKey, newKey) == out
  {
    var out := DevicesRekeyed(devices, oldKey, newKey);
    DevicesOnDisjoint(devices, devices.Keys, oldKey, newKey);
    assert out == DevicesOn(devices, devices.Keys, oldKey, newKey);
    forall d | d in out
      ensures StaleIds(out[d], oldKey) == {} && FreshIds(out[d], oldKey, newKey) == {}
      ensures !DeviceDead(out, d, oldKey, newKey)
      ensures IdsAfter(out[d], oldKey, newKey) == out[d]
    {
      NoStaleIdsLeft(devices, d, oldKey, newKey);
      NothingStale(out, d, oldKey, newKey);
    }
  }

  // ---------------------------------------------------------------------
  // The registry
  // ---------------------------------------------------------------------

  // Entities moved off a device that goes are on its twin; nothing else about a row changes.
  ghost predicate Reattached(
    before: Entities, after: Entities, devices: Devices, done: set<string>, oldKey: string, newKey: string)
  {
    before.Keys == after.Keys && forall id | id in before ::
      && after[id] == before[id].(device := after[id].device)
      && var d := before[id].device;
         if d.Some? && d.value in devices && d.value in done && DeviceDead(devices, d.value, oldKey, newKey) then
           after[id].device.Some? && IsDeviceTwin(devices, d.value, after[id].device.value, oldKey, newKey)
         else after[id].device == d
  }

  ghost predicate Enumerates(ids: seq<string>, all: set<string>) {
    (forall i, j | 0 <= i < j < |ids| :: ids[i] != ids[j]) && forall id :: id in ids <==> id in all
  }

  /** One entry's side of the entity and device registries. */
  class Registry {
    const entry: string
    var entryUniqueId: string
    var entities: Entities
    var devices: Devices

    constructor (entry: string, entryUniqueId: string, entities: Entities, devices: Devices)
      ensures this.entry == entry && this.entryUniqueId == entryUniqueId
      ensures this.entities == entities && this.devices == devices
    {
      this.entry := entry;
      this.entryUniqueId := entryUniqueId;
      this.entities := entities;
      this.devices := devices;
    }

    // Refused by the registry when another row has the id.
    method UpdateUniqueId(id: string, uid: string)
      requires id in entities && !Taken(entities, entities[id].domain, uid)
      modifies `entities
      ensures entities == old(entities)[id := old(entities)[id].(uid := uid)]
    {
      entities := entities[id := entities[id].(uid := uid)];
    }

    // Refused by the registry when another row of the entry has one of the identifiers.
    method UpdateIdentifiers(d: string, ids: set<Identifier>)
      requires d in devices && forall e | e in devices && e != d :: devices[e] !! ids
      modifies `devices
      ensures devices == old(devices)[d := ids]
    {
      devices := devices[d := ids];
    }

    // Removing a device takes its entities with it.
    method RemoveDevice(d: string)
      modifies `devices, `entities
      ensures devices == old(devices) - {d}
      ensures entities == map id | id in old(entities) && old(entities)[id].device != Some(d) :: old(entities)[id]
    {
      devices := devices - {d};
      entities := map id | id in entities && entities[id].device != Some(d) :: entities[id];
    }

    method RekeyEntities(ids: seq<string>, oldKey: string, newKey: string)
      requires RowsSettled(entities, entry, oldKey, newKey) && Unique(entities)
      requires Enumerates(ids, set id | id in entities && entities[id].entry == entry)
      modifies `entities
      ensures entities == Rekeyed(old(entities), entry, oldKey, newKey) && Unique(entities)
    {
      var rows := entities;
      ghost var done: set<string> := {};
      assert entities == RekeyedOn(rows, {}, entry, oldKey, newKey);
      for i := 0 to |ids|
        invariant forall id :: id in done <==> id in ids[..i]
        invariant Unique(entities) && entities == RekeyedOn(rows, done, entry, oldKey, newKey)
      {
        var id := ids[i];
        assert id in ids && id !in done;
        var row := rows[id];
        RekeyedOnUnique(rows, done + {id}, entry, oldKey, newKey);
        VisitRow(rows, done, id, entry, oldKey, newKey);
        done := done + {id};
        if !Under(row.uid, oldKey) {
          continue;
        }
        var uid := Prefix(newKey) + row.uid[|Prefix(oldKey)|..];
        if Taken(entities, row.domain, uid) {
          entities := entities - {id};
        } else {
          UpdateUniqueId(id, uid);
        }
      }
      assert ids[..|ids|] == ids;
      AllVisited(rows, done, entry, oldKey, newKey);
    }

    predicate Carries(e: string, wanted: set<Identifier>)
      reads this
    {
      e in devices && exists i :: i in devices[e] && i in wanted
    }

    // The first row of the entry, in listing order, with any of these identifiers.
    method FindDevice(order: seq<string>, wanted: set<Identifier>) returns (found: Option<string>)
      ensures found.Some? ==>
                exists i :: 0 <= i < |order| && order[i] == found.value && Carries(order[i], wanted)
                            && forall j | 0 <= j < i :: !Carries(order[j], wanted)
      ensures found.None? ==> forall j | 0 <= j < |order| :: !Carries(order[j], wanted)
    {
      for i := 0 to |order|
        invariant forall j | 0 <= j < i :: !Carries(order[j], wanted)
      {
        if order[i] in devices { Meet(devices[order[i]], wanted); }
        if order[i] in devices && devices[order[i]] * wanted != {} {
          return Some(order[i]);
        }
      }
      return None;
    }

    // Everything on a device that is about to go moves to the row that stays.
    method MoveEntities(d: string, target: string)
      modifies `entities
      ensures entities.Keys == old(entities).Keys
      ensures forall id | id in entities ::
                entities[id] == if old(entities)[id].device == Some(d) then old(entities)[id].(device := Some(target))
                  else old(entities)[id]
    {
      entities := map id | id in entities ::
        if entities[id].device == Some(d) then entities[id].(device := Some(target)) else entities[id];
    }

    method RekeyDevices(order: seq<string>, oldKey: string, newKey: string)
      requires DevicesValid(devices, oldKey, newKey) && Enumerates(order, devices.Keys)
      modifies `devices, `entities
      ensures devices == DevicesRekeyed(old(devices), oldKey, newKey) && Disjoint(devices)
      ensures Reattached(old(entities), entities, old(devices), old(devices).Keys, oldKey, newKey)
    {
      var rows := devices;
      ghost var before := entities;
      ghost var done: set<string> := {};
      assert devices == DevicesOn(rows, {}, oldKey, newKey);
      for i := 0 to |order|
        invariant forall d :: d in done <==> d in order[..i]
        invariant Disjoint(devices) && devices == DevicesOn(rows, done, oldKey, newKey)
        invariant Reattached(before, entities, rows, done, oldKey, newKey)
      {
        var d := order[i];
        assert d in order && d !in done;
        DevicesOnDisjoint(rows, done + {d}, oldKey, newKey);
        RekeyDevice(order, d, rows, before, done, oldKey, newKey);
        done := done + {d};
      }
      assert order[..|order|] == order;
      assert done == rows.Keys;
      assert devices == DevicesRekeyed(rows, oldKey, newKey);
    }

    // The old row goes; what hangs on it stays, on the row it now belongs to.
    method MergeDevice(d: string, target: string)
      requires d != target
      modifies `devices, `entities
      ensures devices == old(devices) - {d}
      ensures entities.Keys == old(entities).Keys
      ensures forall id | id in entities ::
                entities[id] == if old(entities)[id].device == Some(d) then old(entities)[id].(device := Some(target))
                  else old(entities)[id]
    {
      MoveEntities(d, target);
      RemoveDevice(d);
    }

    method RekeyDevice(order: seq<string>, d: string, rows: Devices, ghost before: Entities, ghost done: set<string>,
                       oldKey: string, newKey: string)
      requires DevicesValid(rows, oldKey, newKey) && Enumerates(order, rows.Keys)
      requires d in rows && d !in done
      requires devices == DevicesOn(rows, done, oldKey, newKey)
      requires Reattached(before, entities, rows, done, oldKey, newKey)
      modifies `devices, `entities
      ensures devices == DevicesOn(rows, done + {d}, oldKey, newKey)
      ensures Reattached(before, entities, rows, done + {d}, oldKey, newKey)
    {
      var stale := StaleIds(rows[d], oldKey);
      if stale == {} {
        VisitNothing(rows, done, d, oldKey, newKey);
        ReattachSame(before, entities, rows, done, d, oldKey, newKey);
        return;
      }
      var moved := FreshIds(rows[d], oldKey, newKey);
      var existing := FindDevice(order, moved);
      forall e | e in devices ensures Carries(e, moved) <==> devices[e] * moved != {} { Meet(devices[e], moved); }
      VisitDevice(rows, done, d, existing, order, oldKey, newKey);
      if existing.Some? && existing.value != d {
        ghost var mid := entities;
        VisitMerged(rows, done, d, existing.value, oldKey, newKey);
        MergeDevice(d, existing.value);
        ReattachStep(before, mid, entities, rows, done, d, existing.value, oldKey, newKey);
      } else {
        VisitMoved(rows, done, d, oldKey, newKey);
        ReattachSame(before, entities, rows, done, d, oldKey, newKey);
        UpdateIdentifiers(d, (rows[d] - stale) + moved);
      }
    }

    /** Rewrite everything the entry registered under `oldKey` to `newKey`. `ids` and `order` are
        the registry's listings of the entry's entity and device rows. */
    method RekeyEntry(ids: seq<string>, order: seq<string>, oldKey: string, newKey: string)
      requires oldKey == newKey ||
               (RowsSettled(entities, entry, oldKey, newKey) && DevicesValid(devices, oldKey, newKey))
      requires Unique(entities)
      requires Enumerates(ids, set id | id in entities && entities[id].entry == entry) &&
          Enumerates(order, devices.Keys)
      modifies this
      ensures oldKey == newKey ==>
                entities == old(entities) && devices == old(devices) && entryUniqueId == old(entryUniqueId)
      ensures oldKey != newKey ==>
                && entryUniqueId == "localthings_" + newKey
                && devices == DevicesRekeyed(old(devices), oldKey, newKey)
                && Reattached(Rekeyed(old(entities), entry, oldKey, newKey), entities,
                              old(devices), old(devices).Keys, oldKey, newKey)
    {
      if oldKey == newKey {
        return;
      }
      assert DOMAIN + "_" == "localthings_";
      if entryUniqueId != DOMAIN + "_" + newKey {
        entryUniqueId := DOMAIN + "_" + newKey;
      }
      RekeyEntities(ids, oldKey, newKey);
      RekeyDevices(order, oldKey, newKey);
    }
  }

  lemma VisitRow(rows: Entities, done: set<string>, id: string, entry: string, oldKey: string, newKey: string)
    requires RowsSettled(rows, entry, oldKey, newKey) && Unique(rows)
    requires id in rows && id !in done && rows[id].entry == entry
    ensures var mid := RekeyedOn(rows, done, entry, oldKey, newKey);
      var after := RekeyedOn(rows, done + {id}, entry, oldKey, newKey);
      && id in mid && mid[id] == rows[id]
      && (!Under(rows[id].uid, oldKey) ==> after == mid)
      && (Under(rows[id].uid, oldKey) ==>
            var uid := Moved(rows[id].uid, oldKey, newKey);
            if Taken(mid, rows[id].domain, uid) then after == mid - {id} else after == mid[id := rows[id].(uid := uid)])
  {
    if Under(rows[id].uid, oldKey) {
      TakenMidway(rows, done, id, entry, oldKey, newKey);
      VisitStale(rows, done, id, entry, oldKey, newKey);
    }
  }

  lemma VisitStale(rows: Entities, done: set<string>, id: string, entry: string, oldKey: string, newKey: string)
    requires id in rows && id !in done && Stale(rows[id], entry, oldKey)
    ensures var mid := RekeyedOn(rows, done, entry, oldKey, newKey);
      var after := RekeyedOn(rows, done + {id}, entry, oldKey, newKey);
      if HasTwin(rows, rows[id], oldKey, newKey) then after == mid - {id}
      else after == mid[id := rows[id].(uid := Moved(rows[id].uid, oldKey, newKey))]
  {
  }

  lemma AllVisited(rows: Entities, done: set<string>, entry: string, oldKey: string, newKey: string)
    requires forall id | id in rows && rows[id].entry == entry :: id in done
    ensures RekeyedOn(rows, done, entry, oldKey, newKey) == Rekeyed(rows, entry, oldKey, newKey)
  {
  }

  lemma ReattachStep(
    before: Entities, mid: Entities, after: Entities, rows: Devices, done: set<string>, d: string, target: string,
    oldKey: string, newKey: string)
    requires DevicesValid(rows, oldKey, newKey) && d in rows && d !in done
    requires Reattached(before, mid, rows, done, oldKey, newKey) && IsDeviceTwin(rows, d, target, oldKey, newKey)
    requires after.Keys == mid.Keys
    requires forall id | id in mid ::
        after[id] == if mid[id].device == Some(d) then mid[id].(device := Some(target)) else mid[id]
    ensures Reattached(before, after, rows, done + {d}, oldKey, newKey)
  {
    forall id | id in before && before[id].device.Some? && before[id].device.value in done &&
      before[id].device.value in rows
                && DeviceDead(rows, before[id].device.value, oldKey, newKey)
      ensures mid[id].device.Some? && mid[id].device.value != d
    {
    }
  }

  lemma NothingStale(rows: Devices, d: string, oldKey: string, newKey: string)
    requires d in rows && StaleIds(rows[d], oldKey) == {}
    ensures FreshIds(rows[d], oldKey, newKey) == {} && !DeviceDead(rows, d, oldKey, newKey)
    ensures IdsAfter(rows[d], oldKey, newKey) == rows[d]
  {
    assert forall i | i in rows[d] && StaleId(i, oldKey) :: i in StaleIds(rows[d], oldKey);
  }

  lemma ReattachSame(
    before: Entities, after: Entities, rows: Devices, done: set<string>, d: string, oldKey: string, newKey: string)
    requires Reattached(before, after, rows, done, oldKey, newKey) && d in rows && !DeviceDead(rows, d, oldKey, newKey)
    ensures Reattached(before, after, rows, done + {d}, oldKey, newKey)
  {
  }

  lemma VisitNothing(rows: Devices, done: set<string>, d: string, oldKey: string, newKey: string)
    requires d in rows && StaleIds(rows[d], oldKey) == {}
    ensures !DeviceDead(rows, d, oldKey, newKey)
    ensures DevicesOn(rows, done + {d}, oldKey, newKey) == DevicesOn(rows, done, oldKey, newKey)
  {
    NothingStale(rows, d, oldKey, newKey);
  }

  // What finding the row to move onto says about a device being visited.
  lemma VisitDevice(
    rows: Devices, done: set<string>, d: string, existing: Option<string>, order: seq<string>, oldKey: string,
    newKey: string)
    requires DevicesValid(rows, oldKey, newKey) && Enumerates(order, rows.Keys) && d in rows && d !in done
    requires var mid := DevicesOn(rows, done, oldKey, newKey);
      var moved := FreshIds(rows[d], oldKey, newKey);
      && (existing.Some? ==> existing.value in order && existing.value in mid && mid[existing.value] * moved != {})
      && (existing.None? ==> forall e | e in order && e in mid :: mid[e] * moved == {})
    ensures if existing.Some? && existing.value != d then IsDeviceTwin(rows, d, existing.value, oldKey, newKey)
            else !DeviceDead(rows, d, oldKey, newKey)
  {
    var mid := DevicesOn(rows, done, oldKey, newKey);
    forall e ensures (e in mid && e != d && mid[e] * FreshIds(rows[d], oldKey, newKey) != {}) <==>
                     IsDeviceTwin(rows, d, e, oldKey, newKey)
    {
      DeviceTwinMidway(rows, done, d, e, oldKey, newKey);
    }
    if existing.Some? && existing.value == d {
      assert rows[d] * FreshIds(rows[d], oldKey, newKey) != {};
    }
  }

  lemma VisitMerged(rows: Devices, done: set<string>, d: string, target: string, oldKey: string, newKey: string)
    requires d in rows && d !in done && IsDeviceTwin(rows, d, target, oldKey, newKey)
    ensures DevicesOn(rows, done + {d}, oldKey, newKey) == DevicesOn(rows, done, oldKey, newKey) - {d}
  {
  }

  lemma VisitMoved(rows: Devices, done: set<string>, d: string, oldKey: string, newKey: string)
    requires DevicesValid(rows, oldKey, newKey) && d in rows && d !in done && !DeviceDead(rows, d, oldKey, newKey)
    ensures var mid := DevicesOn(rows, done, oldKey, newKey);
      && d in mid && DevicesOn(rows, done + {d}, oldKey, newKey) == mid[d := IdsAfter(rows[d], oldKey, newKey)]
      && forall e | e in mid && e != d :: mid[e] !! IdsAfter(rows[d], oldKey, newKey)
  {
    var mid := DevicesOn(rows, done, oldKey, newKey);
    var after := DevicesOn(rows, done + {d}, oldKey, newKey);
    DevicesOnDisjoint(rows, done + {d}, oldKey, newKey);
    assert forall e | e in mid && e != d :: e in after && after[e] == mid[e];
    assert after[d] == IdsAfter(rows[d], oldKey, newKey);
  }

  // What a call leaves behind, from the rows it found.
  ghost predicate LeftBy(entities: Entities, devices: Devices, entry: string, oldKey: string, newKey: string,
                         entities1: Entities, devices1: Devices) {
    && devices1 == DevicesRekeyed(devices, oldKey, newKey)
    && Reattached(Rekeyed(entities, entry, oldKey, newKey), entities1, devices, devices.Keys, oldKey, newKey)
  }

  lemma NoStaleRowsLeft(entities: Entities, devices: Devices, entry: string, oldKey: string, newKey: string,
                        entities1: Entities, devices1: Devices)
    requires Apart(oldKey, newKey) && Unique(entities)
    requires LeftBy(entities, devices, entry, oldKey, newKey, entities1, devices1)
    ensures Rekeyed(entities1, entry, oldKey, newKey) == entities1
  {
    RekeyedKeeps(entities, entry, oldKey, newKey);
    var out := Rekeyed(entities, entry, oldKey, newKey);
    forall id | id in entities1 ensures !Stale(entities1[id], entry, oldKey) {
      assert entities1[id] == out[id].(device := entities1[id].device);
    }
    RekeyedNone(entities1, entry, oldKey, newKey);
  }

  lemma RekeyedNone(entities: Entities, entry: string, oldKey: string, newKey: string)
    requires forall id | id in entities :: !Stale(entities[id], entry, oldKey)
    ensures Rekeyed(entities, entry, oldKey, newKey) == entities
  {
  }

  /** A second call finds nothing to move: whatever it leaves is what it found. */
  lemma SecondCallChangesNothing(entities: Entities, devices: Devices, entry: string, oldKey: string, newKey: string,
                                 entities1: Entities, devices1: Devices, entities2: Entities, devices2: Devices)
    requires Apart(oldKey, newKey) && Unique(entities) && DevicesValid(devices, oldKey, newKey)
    requires LeftBy(entities, devices, entry, oldKey, newKey, entities1, devices1)
    requires LeftBy(entities1, devices1, entry, oldKey, newKey, entities2, devices2)
    ensures entities2 == entities1 && devices2 == devices1
  {
    NoStaleRowsLeft(entities, devices, entry, oldKey, newKey, entities1, devices1);
    DevicesRekeyedKeeps(devices, oldKey, newKey);
    forall d | d in devices1 ensures !DeviceDead(devices1, d, oldKey, newKey) {
      NothingStale(devices1, d, oldKey, newKey);
    }
    ReattachedNone(entities1, entities2, devices1, oldKey, newKey);
  }

  lemma ReattachedNone(before: Entities, after: Entities, devices: Devices, oldKey: string, newKey: string)
    requires Reattached(before, after, devices, devices.Keys, oldKey, newKey)
    requires forall d | d in devices :: !DeviceDead(devices, d, oldKey, newKey)
    ensures after == before
  {
  }

  /** No entity that survives its own row's move is lost to the removal of its device: what it hung
      on is either still there or was merged into a row that is. */
  lemma SurvivorsKeepADevice(entities: Entities, devices: Devices, entry: string, oldKey: string, newKey: string,
                             entities1: Entities, devices1: Devices, id: string)
    requires DevicesValid(devices, oldKey, newKey)
    requires LeftBy(entities, devices, entry, oldKey, newKey, entities1, devices1)
    requires id in entities && !Dead(entities, entities[id], entry, oldKey, newKey)
    ensures id in entities1
    ensures entities[id].device.Some? && entities[id].device.value in devices ==>
              entities1[id].device.Some? && entities1[id].device.value in devices1
  {
    var out := Rekeyed(entities, entry, oldKey, newKey);
    assert out[id].device == entities[id].device;
    var d := entities[id].device;
    if d.Some? && d.value in devices && DeviceDead(devices, d.value, oldKey, newKey) {
    }
  }

  // The names this integration gave the entry's devices under a key.
  ghost function DeviceSlots(devices: Devices, key: string): set<string> {
    set d, i | d in devices && i in devices[d] && StaleId(i, key) :: i.1[|key|..]
  }

  // Every slot on a row that goes is also on a row that stays.
  ghost predicate DeadRowsSpare(devices: Devices, oldKey: string, newKey: string) {
    forall d, i | d in devices && DeviceDead(devices, d, oldKey, newKey) && i in devices[d] &&
      OwnId(i, oldKey, newKey) ::
      HeldLive(devices, SlotOf(i, oldKey, newKey), oldKey, newKey)
  }

  ghost predicate HeldLive(devices: Devices, slot: string, oldKey: string, newKey: string) {
    exists e, j | e in devices && j in devices[e] ::
      !DeviceDead(devices, e, oldKey, newKey) && OwnId(j, oldKey, newKey) && SlotOf(j, oldKey, newKey) == slot
  }

  /** The slots the entry's device rows had under either key are those they have under the new
      one, if and only if every slot on a row that goes is also on a row that stays. */
  lemma DeviceSlotsPreservedIff(devices: Devices, oldKey: string, newKey: string)
    requires Apart(oldKey, newKey)
    ensures DeviceSlots(DevicesRekeyed(devices, oldKey, newKey), newKey) ==
            DeviceSlots(devices, oldKey) + DeviceSlots(devices, newKey) <==>
            DeadRowsSpare(devices, oldKey, newKey)
  {
    forall slot
      ensures slot in DeviceSlots(DevicesRekeyed(devices, oldKey, newKey), newKey) <==>
          HeldLive(devices, slot, oldKey, newKey)
    {
      SlotsAreHeldLive(devices, slot, oldKey, newKey);
    }
    forall slot
      ensures slot in DeviceSlots(devices, oldKey) + DeviceSlots(devices, newKey) <==>
          HeldAtAll(devices, slot, oldKey, newKey)
    {
      SlotsAreHeld(devices, slot, oldKey, newKey);
    }
    forall slot | HeldLive(devices, slot, oldKey, newKey) ensures HeldAtAll(devices, slot, oldKey, newKey) {
    }
    if DeadRowsSpare(devices, oldKey, newKey) {
      forall slot | HeldAtAll(devices, slot, oldKey, newKey) ensures HeldLive(devices, slot, oldKey, newKey) {
        var d, i :| d in devices && i in devices[d] && OwnId(i, oldKey, newKey) && SlotOf(i, oldKey, newKey) == slot;
      }
    } else {
      var d, i :| d in devices && DeviceDead(devices, d, oldKey, newKey) && i in devices[d] && OwnId(i, oldKey, newKey)
                  && !HeldLive(devices, SlotOf(i, oldKey, newKey), oldKey, newKey);
      assert HeldAtAll(devices, SlotOf(i, oldKey, newKey), oldKey, newKey);
    }
  }

  ghost predicate HeldAtAll(devices: Devices, slot: string, oldKey: string, newKey: string) {
    exists d, i | d in devices && i in devices[d] :: OwnId(i, oldKey, newKey) && SlotOf(i, oldKey, newKey) == slot
  }

  lemma OwnedByOne(i: Identifier, oldKey: string, newKey: string)
    requires Apart(oldKey, newKey) && StaleId(i, oldKey)
    ensures !StaleId(i, newKey)
  {
    if StaleId(i, newKey) {
      if |oldKey| <= |newKey| { BothOwn(oldKey, newKey, i.1); } else { BothOwn(newKey, oldKey, i.1); }
    }
  }

  lemma SlotsAreHeld(devices: Devices, slot: string, oldKey: string, newKey: string)
    requires Apart(oldKey, newKey)
    ensures slot in DeviceSlots(devices, oldKey) + DeviceSlots(devices, newKey) <==>
        HeldAtAll(devices, slot, oldKey, newKey)
  {
    if slot in DeviceSlots(devices, newKey) {
      var d, i :| d in devices && i in devices[d] && StaleId(i, newKey) && slot == i.1[|newKey|..];
      if StaleId(i, oldKey) { OwnedByOne(i, oldKey, newKey); }
      assert SlotOf(i, oldKey, newKey) == slot;
    }
    if slot in DeviceSlots(devices, oldKey) {
      var d, i :| d in devices && i in devices[d] && StaleId(i, oldKey) && slot == i.1[|oldKey|..];
      assert SlotOf(i, oldKey, newKey) == slot;
    }
  }

  lemma SlotsAreHeldLive(devices: Devices, slot: string, oldKey: string, newKey: string)
    requires Apart(oldKey, newKey)
    ensures slot in DeviceSlots(DevicesRekeyed(devices, oldKey, newKey), newKey) <==>
        HeldLive(devices, slot, oldKey, newKey)
  {
    var out := DevicesRekeyed(devices, oldKey, newKey);
    if slot in DeviceSlots(out, newKey) {
      var d, i :| d in out && i in out[d] && StaleId(i, newKey) && slot == i.1[|newKey|..];
      if i in devices[d] {
        if StaleId(i, oldKey) { OwnedByOne(i, oldKey, newKey); }
        assert SlotOf(i, oldKey, newKey) == slot;
      } else {
        var j :| j in devices[d] && StaleId(j, oldKey) && i == FreshId(j, oldKey, newKey);
        FreshOwns(j, oldKey, newKey);
        assert SlotOf(j, oldKey, newKey) == slot;
      }
    }
    if HeldLive(devices, slot, oldKey, newKey) {
      var e, j :| e in devices && j in devices[e] && !DeviceDead(devices, e, oldKey, newKey)
                  && OwnId(j, oldKey, newKey) && SlotOf(j, oldKey, newKey) == slot;
      if StaleId(j, oldKey) {
        FreshOwns(j, oldKey, newKey);
        assert FreshId(j, oldKey, newKey) in out[e];
      } else {
        assert j in out[e];
      }
    }
  }

  /** Where every row has one slot, under either key or both, none is lost. */
  lemma DeviceSlotsPreserved(devices: Devices, oldKey: string, newKey: string)
    requires Apart(oldKey, newKey) && Disjoint(devices)
    requires forall d | d in devices :: OneSlot(devices[d], oldKey, newKey)
    ensures DeviceSlots(DevicesRekeyed(devices, oldKey, newKey), newKey) ==
            DeviceSlots(devices, oldKey) + DeviceSlots(devices, newKey)
  {
    OneSlotIsValid(devices, oldKey, newKey);
    forall d, i | d in devices && DeviceDead(devices, d, oldKey, newKey) && i in devices[d] && OwnId(i, oldKey, newKey)
      ensures HeldLive(devices, SlotOf(i, oldKey, newKey), oldKey, newKey)
    {
      var e :| e in devices && IsDeviceTwin(devices, d, e, oldKey, newKey);
      var f :| f in devices[e] && f in FreshIds(devices[d], oldKey, newKey);
      var j :| j in devices[d] && StaleId(j, oldKey) && f == FreshId(j, oldKey, newKey);
      SlotOfFresh(j, oldKey, newKey);
    }
    DeviceSlotsPreservedIff(devices, oldKey, newKey);
  }

  // Three rows: the first moves onto the second, and the second onto the third.
  function ChainOfRows(oldKey: string, newKey: string): Devices {
    map["a" := {(DOMAIN, oldKey)}, "b" := {(DOMAIN, newKey), (DOMAIN, oldKey + "_1")}, "c" := {(DOMAIN, newKey + "_1")}]
  }

  lemma ChainMoves(oldKey: string, newKey: string)
    requires Apart(oldKey, newKey)
    ensures var devices := ChainOfRows(oldKey, newKey);
      && FreshIds(devices["a"], oldKey, newKey) == {(DOMAIN, newKey)}
      && FreshIds(devices["b"], oldKey, newKey) == {(DOMAIN, newKey + "_1")}
      && FreshIds(devices["c"], oldKey, newKey) == {}
      && StaleIds(devices["b"], oldKey) == {(DOMAIN, oldKey + "_1")}
      && Disjoint(devices)
  {
    var whole, sub := (DOMAIN, oldKey), (DOMAIN, oldKey + "_1");
    FreshIsNotStale(whole, oldKey, newKey);
    FreshIsNotStale(sub, oldKey, newKey);
    assert (oldKey + "_1")[|oldKey|..] == "_1" && newKey + oldKey[|oldKey|..] == newKey;
    assert FreshId(whole, oldKey, newKey) == (DOMAIN, newKey);
    assert FreshId(sub, oldKey, newKey) == (DOMAIN, newKey + "_1");
    assert |newKey + "_1"| == |newKey| + 2 && |oldKey + "_1"| == |oldKey| + 2;
  }

  /** Where a row moves onto one that itself goes, the listing order decides: visited first it is
      merged too, visited after the other has gone it stays. */
  lemma ChainDependsOnOrder(oldKey: string, newKey: string)
    requires Apart(oldKey, newKey)
    ensures var devices := ChainOfRows(oldKey, newKey);
      && Disjoint(devices)
      && DeviceDead(devices, "a", oldKey, newKey) && DeviceDead(devices, "b", oldKey, newKey)
      && !DeviceDead(devices - {"b"}, "a", oldKey, newKey)
  {
    var devices := ChainOfRows(oldKey, newKey);
    ChainMoves(oldKey, newKey);
    assert (DOMAIN, newKey) in devices["b"] * FreshIds(devices["a"], oldKey, newKey);
    assert (DOMAIN, newKey + "_1") in devices["c"] * FreshIds(devices["b"], oldKey, newKey);
    assert IsDeviceTwin(devices, "a", "b", oldKey, newKey) && IsDeviceTwin(devices, "b", "c", oldKey, newKey);
    assert |newKey + "_1"| == |newKey| + 2;
  }

  /** Without the third row the second stays, though it moves itself, and the rows are moved as
      they stand. */
  lemma MovingTwinIsValid(oldKey: string, newKey: string)
    requires Apart(oldKey, newKey)
    ensures var devices := ChainOfRows(oldKey, newKey) - {"c"};
      && DevicesValid(devices, oldKey, newKey) && StaleIds(devices["b"], oldKey) != {}
      && DevicesRekeyed(devices, oldKey, newKey) == map["b" := {(DOMAIN, newKey), (DOMAIN, newKey + "_1")}]
  {
    var devices := ChainOfRows(oldKey, newKey) - {"c"};
    ChainMoves(oldKey, newKey);
    assert (DOMAIN, newKey) in devices["b"] * FreshIds(devices["a"], oldKey, newKey);
    assert IsDeviceTwin(devices, "a", "b", oldKey, newKey);
    assert |newKey + "_1"| == |newKey| + 2 && |oldKey + "_1"| == |oldKey| + 2;
    assert !DeviceDead(devices, "b", oldKey, newKey);
    assert (DOMAIN, newKey) !in StaleIds(devices["b"], oldKey);
    assert IdsAfter(devices["b"], oldKey, newKey) == {(DOMAIN, newKey), (DOMAIN, newKey + "_1")};
  }

  function TwoSlotRow(oldKey: string, newKey: string): Devices {
    map["a" := {(DOMAIN, oldKey), (DOMAIN, oldKey + "_1")}, "b" := {(DOMAIN, newKey)}]
  }

  lemma TwoSlotRowMoves(oldKey: string, newKey: string)
    requires Apart(oldKey, newKey)
    ensures var devices := TwoSlotRow(oldKey, newKey);
      DevicesValid(devices, oldKey, newKey) && DevicesRekeyed(devices, oldKey, newKey) == devices - {"a"}
  {
    var devices := TwoSlotRow(oldKey, newKey);
    assert newKey + oldKey[|oldKey|..] == newKey;
    assert FreshId((DOMAIN, oldKey), oldKey, newKey) == (DOMAIN, newKey);
    assert (DOMAIN, newKey) in devices["b"] * FreshIds(devices["a"], oldKey, newKey);
    assert IsDeviceTwin(devices, "a", "b", oldKey, newKey);
    assert StaleIds(devices["b"], oldKey) == {};
    NothingStale(devices, "b", oldKey, newKey);
    forall f | f in FreshIds(devices["a"], oldKey, newKey) ensures f !in devices["a"] {
      var i :| i in devices["a"] && StaleId(i, oldKey) && f == FreshId(i, oldKey, newKey);
      FreshIsNotStale(i, oldKey, newKey);
    }
  }

  /** A row that carries two slots and is merged for one of them takes the other with it. */
  lemma MergedRowLosesSlot(oldKey: string, newKey: string)
    requires Apart(oldKey, newKey)
    ensures var devices := TwoSlotRow(oldKey, newKey);
      && DevicesValid(devices, oldKey, newKey) && "_1" in DeviceSlots(devices, oldKey)
      && DeviceSlots(DevicesRekeyed(devices, oldKey, newKey), newKey) == {""}
  {
    var devices := TwoSlotRow(oldKey, newKey);
    TwoSlotRowMoves(oldKey, newKey);
    assert (DOMAIN, oldKey + "_1") in devices["a"] && (oldKey + "_1")[|oldKey|..] == "_1";
    assert (DOMAIN, newKey) in DevicesRekeyed(devices, oldKey, newKey)["b"] && newKey[|newKey|..] == "";
  }
}
