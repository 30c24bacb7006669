/**
 Values the 8888 bridge's firmware takes only in the body of a start: split out of a body that
 is written now, laid over what is read until then, and put back when the start goes out.
 */
module Staging {
  import opened Dicts
  import opened LegacyEnvelope
  import opened Options
  import opened Seqs
  import opened Text

  // `prefix` names an option token inside an array; None is a plain field.
  datatype Key = Key(wrapper: string, name: string, prefix: Option<string>)

  type Body = seq<(string, Json)>

  type Staged = seq<(Key, Json)>

  function StartOnlyOf(table: Table, wrapper: string): set<string> {
    if table == [] then {}
    else if table[|table| - 1].wrapper == wrapper then table[|table| - 1].startOnly
    else StartOnlyOf(table[..|table| - 1], wrapper)
  }

  // `token.split("_", 1)[0]` of a string.
  function TokenPrefix(token: Json): Option<string> {
    if token.JStr? then Some(BeforeFirst(token.s, '_')) else None
  }

  predicate IsHeld(startOnly: set<string>, token: Json) {
    TokenPrefix(token).Some? && TokenPrefix(token).value in startOnly
  }

  function FieldAt(body: Body, wrapper: string, name: string): Option<Json> {
    var fields := Lookup(body, wrapper);
    if fields.Some? && fields.value.JObj? then Lookup(fields.value.fields, name) else None
  }

  // A JSON body is a dict of dicts.
  ghost predicate IsBody(body: Body) {
    Distinct(body) && forall w | Lookup(body, w).Some? && Lookup(body, w).value.JObj? ::
      Distinct(Lookup(body, w).value.fields)
  }

  // ---------------------------------------------------------------------
  // Splitting a body
  // ---------------------------------------------------------------------

  function Kept(startOnly: set<string>, items: seq<Json>): seq<Json> {
    if items == [] then []
    else Kept(startOnly, items[..|items| - 1]) +
         if IsHeld(startOnly, items[|items| - 1]) then [] else [items[|items| - 1]]
  }

  function TokenPairs(w: string, name: string, startOnly: set<string>, items: seq<Json>): Staged {
    if items == [] then []
    else TokenPairs(w, name, startOnly, items[..|items| - 1]) +
         var last := items[|items| - 1];
         if IsHeld(startOnly, last) then [(Key(w, name, TokenPrefix(last)), last)] else []
  }

  function FieldSent(startOnly: set<string>, name: string, value: Json): Option<Json> {
    if name in startOnly then None
    else if !value.JList? then Some(value)
    else if Kept(startOnly, value.items) == [] then None
    else Some(JList(Kept(startOnly, value.items)))
  }

  function FieldHeld(w: string, startOnly: set<string>, name: string, value: Json): Staged {
    if name in startOnly then [(Key(w, name, None), value)]
    else if value.JList? then DictOf(TokenPairs(w, name, startOnly, value.items))
    else []
  }

  function FieldsSent(startOnly: set<string>, fields: Body): Body {
    if fields == [] then []
    else
      var (name, value) := fields[|fields| - 1];
      var sent := FieldSent(startOnly, name, value);
      FieldsSent(startOnly, fields[..|fields| - 1]) + if sent.Some? then [(name, sent.value)] else []
  }

  function FieldsHeld(w: string, startOnly: set<string>, fields: Body): Staged {
    if fields == [] then []
    else
      FieldsHeld(w, startOnly, fields[..|fields| - 1]) +
      FieldHeld(w, startOnly, fields[|fields| - 1].0, fields[|fields| - 1].1)
  }

  function WrapperSent(startOnly: set<string>, w: string, value: Json): Body {
    if !value.JObj? then [(w, value)] else Wrapped(w, FieldsSent(startOnly, value.fields))
  }

  function Wrapped(w: string, fields: Body): Body {
    if fields == [] then [] else [(w, JObj(fields))]
  }

  // What of a body goes out now.
  function Sent(table: Table, body: Body): Body {
    if body == [] then []
    else
      var (w, value) := body[|body| - 1];
      Sent(table, body[..|body| - 1]) + WrapperSent(StartOnlyOf(table, w), w, value)
  }

  // What of a body waits for a start.
  function HeldOf(table: Table, body: Body): Staged {
    if body == [] then []
    else
      var (w, value) := body[|body| - 1];
      HeldOf(table, body[..|body| - 1]) +
      if value.JObj? then FieldsHeld(w, StartOnlyOf(table, w), value.fields) else []
  }

  lemma DistinctPrefix<K, V>(d: seq<(K, V)>)
    requires Distinct(d) && d != []
    ensures Distinct(d[..|d| - 1]) && Lookup(d[..|d| - 1], d[|d| - 1].0).None?
  {
    assert d == d[..|d| - 1] + [d[|d| - 1]];
    DistinctSnoc(d[..|d| - 1], d[|d| - 1]);
  }

  lemma PutAfter<K, V>(before: seq<(K, V)>, d: seq<(K, V)>, key: K, value: V)
    requires Lookup(before, key).None?
    ensures Put(before + d, key, value) == before + Put(d, key, value)
  {
    LookupAfter(before, d, key);
    if Lookup(d, key).Some? {
      ReplacedAfter(before, d, key, value);
    } else {
      assert before + d + [(key, value)] == before + (d + [(key, value)]);
    }
  }

  lemma ReplacedAfter<K, V>(before: seq<(K, V)>, d: seq<(K, V)>, key: K, value: V)
    requires Lookup(before, key).None?
    ensures Replaced(before + d, key, value) == before + Replaced(d, key, value)
  {
  }

  lemma {:induction false} LookupAfter<K, V>(before: seq<(K, V)>, d: seq<(K, V)>, key: K)
    ensures Lookup(before + d, key) == if Lookup(d, key).Some? then Lookup(d, key) else Lookup(before, key)
  {
    if d == [] {
      assert before + d == before;
    } else {
      assert (before + d)[..|before + d| - 1] == before + d[..|d| - 1];
      LookupAfter(before, d[..|d| - 1], key);
    }
  }

  // Nothing of `held` is a key of this field.
  ghost predicate NoKey(held: Staged, w: string, name: string) {
    forall k | k in held :: k.0.wrapper != w || k.0.name != name
  }

  lemma NoKeyLookup(held: Staged, key: Key)
    requires NoKey(held, key.wrapper, key.name)
    ensures Lookup(held, key).None?
  {
  }

  lemma {:induction false} DictOfKeys<K, V>(pairs: seq<(K, V)>)
    ensures forall k | k in DictOf(pairs) :: k in pairs
  {
    if pairs != [] {
      var before := pairs[..|pairs| - 1];
      DictOfKeys(before);
      forall k | k in DictOf(pairs) ensures k in pairs {
        assert k in DictOf(before) || k == pairs[|pairs| - 1];
      }
    }
  }

  lemma {:induction false} TokenPairsKeys(w: string, name: string, startOnly: set<string>, items: seq<Json>)
    ensures forall k | k in TokenPairs(w, name, startOnly, items) ::
              k.1 in items && IsHeld(startOnly, k.1) && k.0 == Key(w, name, TokenPrefix(k.1))
  {
    if items != [] { TokenPairsKeys(w, name, startOnly, items[..|items| - 1]); }
  }

  // The key of a value held for one field: plain for a start-only name, else its own token's.
  ghost predicate FieldKey(w: string, startOnly: set<string>, name: string, k: (Key, Json)) {
    && k.0.wrapper == w && k.0.name == name
    && (k.0.prefix.None? <==> name in startOnly)
    && (k.0.prefix.Some? ==> TokenPrefix(k.1) == k.0.prefix && k.0.prefix.value in startOnly)
  }

  lemma FieldHeldKeys(w: string, startOnly: set<string>, name: string, value: Json)
    ensures forall k | k in FieldHeld(w, startOnly, name, value) :: FieldKey(w, startOnly, name, k)
  {
    if name !in startOnly && value.JList? {
      TokenPairsKeys(w, name, startOnly, value.items);
      DictOfKeys(TokenPairs(w, name, startOnly, value.items));
    }
  }

  lemma {:induction false} FieldsHeldKeys(w: string, startOnly: set<string>, fields: Body)
    ensures forall k | k in FieldsHeld(w, startOnly, fields) ::
              FieldKey(w, startOnly, k.0.name, k) && Lookup(fields, k.0.name).Some?
  {
    if fields != [] {
      var before := fields[..|fields| - 1];
      FieldsHeldKeys(w, startOnly, before);
      FieldHeldKeys(w, startOnly, fields[|fields| - 1].0, fields[|fields| - 1].1);
    }
  }

  lemma {:induction false} HeldOfKeys(table: Table, body: Body)
    ensures forall k | k in HeldOf(table, body) ::
              FieldKey(k.0.wrapper, StartOnlyOf(table, k.0.wrapper), k.0.name, k) && Lookup(body, k.0.wrapper).Some?
  {
    if body != [] {
      HeldOfKeys(table, body[..|body| - 1]);
      var (w, value) := body[|body| - 1];
      if value.JObj? { FieldsHeldKeys(w, StartOnlyOf(table, w), value.fields); }
    }
  }

  lemma {:induction false} FieldsSentNames(startOnly: set<string>, fields: Body, name: string)
    requires Lookup(fields, name).None?
    ensures Lookup(FieldsSent(startOnly, fields), name).None?
  {
    if fields != [] {
      var before := fields[..|fields| - 1];
      FieldsSentNames(startOnly, before, name);
      var last := fields[|fields| - 1];
      var sent := FieldSent(startOnly, last.0, last.1);
      if sent.Some? { LookupAfter(FieldsSent(startOnly, before), [(last.0, sent.value)], name); }
    }
  }

  lemma {:induction false} SentWrappers(table: Table, body: Body, w: string)
    requires Lookup(body, w).None?
    ensures Lookup(Sent(table, body), w).None?
  {
    if body != [] {
      var before := body[..|body| - 1];
      SentWrappers(table, before, w);
      var last := body[|body| - 1];
      LookupAfter(Sent(table, before), WrapperSent(StartOnlyOf(table, last.0), last.0, last.1), w);
    }
  }

  lemma IsBodyPrefix(body: Body)
    requires IsBody(body) && body != []
    ensures IsBody(body[..|body| - 1]) && Lookup(body[..|body| - 1], body[|body| - 1].0).None?
    ensures body[|body| - 1].1.JObj? ==> Distinct(body[|body| - 1].1.fields)
  {
    DistinctPrefix(body);
    var before := body[..|body| - 1];
    assert Lookup(body, body[|body| - 1].0) == Some(body[|body| - 1].1);
    forall w | Lookup(before, w).Some? ensures Lookup(body, w) == Lookup(before, w) {
      assert w != body[|body| - 1].0;
    }
  }

  /** Split a wire body into what can be sent now and what only a start carries. */
  method SplitStartOnly(body: Body, table: Table) returns (device: Body, held: Staged)
    requires IsBody(body)
    ensures device == Sent(table, body) && held == HeldOf(table, body)
  {
    device, held := [], [];
    for i := 0 to |body|
      invariant device == Sent(table, body[..i]) && held == HeldOf(table, body[..i])
    {
      var (w, value) := body[i];
      assert body[..i + 1][..i] == body[..i];
      BodyPrefix(body, i);
      SentWrappers(table, body[..i], w);
      if !value.JObj? {
        device := Put(device, w, value);
        continue;
      }
      HeldOfKeys(table, body[..i]);
      assert forall name :: NoKey(held, w, name);
      device, held := SplitFields(w, StartOnlyOf(table, w), value.fields, device, held);
    }
    assert body[..|body|] == body;
  }

  lemma {:induction false} BodyPrefix(body: Body, i: nat)
    requires IsBody(body) && i < |body|
    ensures Lookup(body[..i], body[i].0).None?
    ensures body[i].1.JObj? ==> Distinct(body[i].1.fields)
    decreases |body|
  {
    IsBodyPrefix(body);
    if i < |body| - 1 {
      assert body[..|body| - 1][..i] == body[..i];
      BodyPrefix(body[..|body| - 1], i);
    }
  }

  // The split so far: some fields of one wrapper, after everything before it.
  ghost predicate SplitSoFar(
    w: string, startOnly: set<string>, fields: Body, before: Body, heldBefore: Staged, device: Body, held: Staged)
  {
    && device == before + Wrapped(w, FieldsSent(startOnly, fields))
    && held == heldBefore + FieldsHeld(w, startOnly, fields)
  }

  method SplitFields(w: string, startOnly: set<string>, fields: Body, before: Body, heldBefore: Staged)
    returns (device: Body, held: Staged)
    requires Distinct(fields) && Lookup(before, w).None? && forall name :: NoKey(heldBefore, w, name)
    ensures SplitSoFar(w, startOnly, fields, before, heldBefore, device, held)
  {
    device, held := before, heldBefore;
    for j := 0 to |fields|
      invariant SplitSoFar(w, startOnly, fields[..j], before, heldBefore, device, held)
    {
      var (name, value) := fields[j];
      assert fields[..j + 1] == fields[..j] + [(name, value)];
      NameIsNew(w, startOnly, fields, j, heldBefore);
      device, held := SplitField(w, startOnly, name, value, fields[..j], before, heldBefore, device, held);
    }
    assert fields[..|fields|] == fields;
  }

  lemma NameIsNew(w: string, startOnly: set<string>, fields: Body, j: nat, heldBefore: Staged)
    requires Distinct(fields) && j < |fields| && NoKey(heldBefore, w, fields[j].0)
    ensures Lookup(fields[..j], fields[j].0).None?
    ensures NoKey(heldBefore + FieldsHeld(w, startOnly, fields[..j]), w, fields[j].0)
  {
    FieldsHeldKeys(w, startOnly, fields[..j]);
  }

  method SplitField(
    w: string, startOnly: set<string>, name: string, value: Json, ghost fields: Body,
    ghost before: Body, ghost heldBefore: Staged, device0: Body, held0: Staged)
    returns (device: Body, held: Staged)
    requires Lookup(before, w).None? && Lookup(fields, name).None? && NoKey(held0, w, name)
    requires SplitSoFar(w, startOnly, fields, before, heldBefore, device0, held0)
    ensures SplitSoFar(w, startOnly, fields + [(name, value)], before, heldBefore, device, held)
  {
    device, held := device0, held0;
    if name in startOnly {
      held := Put(held, Key(w, name, None), value);
      NoKeyLookup(held0, Key(w, name, None));
      UnsentStep(w, startOnly, fields, name, value, before, heldBefore, device, held0, held);
      return;
    }
    var sent := value;
    if value.JList? {
      var kept;
      kept, held := SplitTokens(w, name, startOnly, value.items, held);
      if kept == [] {
        UnsentStep(w, startOnly, fields, name, value, before, heldBefore, device, held0, held);
        return;
      }
      sent := JList(kept);
    }
    SentStep(w, startOnly, fields, name, value, before, heldBefore, device, held0, held);
    var at := Lookup(device, w);
    device := Put(device, w, JObj(Put(if at.Some? && at.value.JObj? then at.value.fields else [], name, sent)));
  }

  lemma UnsentStep(
    w: string, startOnly: set<string>, fields: Body, name: string, value: Json,
    before: Body, heldBefore: Staged, device: Body, held0: Staged, held: Staged)
    requires SplitSoFar(w, startOnly, fields, before, heldBefore, device, held0)
    requires FieldSent(startOnly, name, value).None? && held == held0 + FieldHeld(w, startOnly, name, value)
    ensures SplitSoFar(w, startOnly, fields + [(name, value)], before, heldBefore, device, held)
  {
    FieldStep(w, startOnly, fields, name, value);
    Assoc(heldBefore, FieldsHeld(w, startOnly, fields), FieldHeld(w, startOnly, name, value));
  }

  lemma SentStep(
    w: string, startOnly: set<string>, fields: Body, name: string, value: Json,
    before: Body, heldBefore: Staged, device: Body, held0: Staged, held: Staged)
    requires Lookup(before, w).None? && Lookup(fields, name).None?
    requires SplitSoFar(w, startOnly, fields, before, heldBefore, device, held0)
    requires FieldSent(startOnly, name, value).Some?
    requires held == held0 + FieldHeld(w, startOnly, name, value)
    ensures var at := Lookup(device, w);
      var sent := if at.Some? && at.value.JObj? then at.value.fields else [];
      SplitSoFar(w, startOnly, fields + [(name, value)], before, heldBefore,
                 Put(device, w, JObj(Put(sent, name, FieldSent(startOnly, name, value).value))), held)
  {
    FieldStep(w, startOnly, fields, name, value);
    Assoc(heldBefore, FieldsHeld(w, startOnly, fields), FieldHeld(w, startOnly, name, value));
    FieldsSentNames(startOnly, fields, name);
    PutField(w, before, FieldsSent(startOnly, fields), name, FieldSent(startOnly, name, value).value);
  }

  lemma FieldStep(w: string, startOnly: set<string>, fields: Body, name: string, value: Json)
    ensures FieldsHeld(w, startOnly, fields + [(name, value)]) ==
            FieldsHeld(w, startOnly, fields) + FieldHeld(w, startOnly, name, value)
    ensures var sent := FieldSent(startOnly, name, value);
      && (sent.None? ==> FieldsSent(startOnly, fields + [(name, value)]) == FieldsSent(startOnly, fields))
      && (sent.Some? ==> FieldsSent(startOnly, fields + [(name, value)]) ==
                         FieldsSent(startOnly, fields) + [(name, sent.value)])
  {
    assert (fields + [(name, value)])[..|fields|] == fields;
  }

  // `device.setdefault(wrapper, {})[name] = value` after some fields of the wrapper.
  lemma PutField(w: string, before: Body, sent: Body, name: string, value: Json)
    requires Lookup(before, w).None? && Lookup(sent, name).None?
    ensures Lookup(before + Wrapped(w, sent), w) == (if sent == [] then None else Some(JObj(sent)))
    ensures Put(sent, name, value) == sent + [(name, value)]
    ensures Put(before + Wrapped(w, sent), w, JObj(sent + [(name, value)])) ==
        before + Wrapped(w, sent + [(name, value)])
  {
    LookupAfter(before, Wrapped(w, sent), w);
    PutAfter(before, Wrapped(w, sent), w, JObj(sent + [(name, value)]));
    var put := Put(Wrapped(w, sent), w, JObj(sent + [(name, value)]));
    if sent != [] {
      assert Replaced(Wrapped(w, sent), w, JObj(sent + [(name, value)])) == Wrapped(w, sent + [(name, value)]);
    }
    assert put == Wrapped(w, sent + [(name, value)]);
  }

  method SplitTokens(w: string, name: string, startOnly: set<string>, items: seq<Json>, before: Staged)
    returns (kept: seq<Json>, held: Staged)
    requires NoKey(before, w, name)
    ensures kept == Kept(startOnly, items)
    ensures held == before + DictOf(TokenPairs(w, name, startOnly, items))
  {
    kept, held := [], before;
    for t := 0 to |items|
      invariant kept == Kept(startOnly, items[..t])
      invariant held == before + DictOf(TokenPairs(w, name, startOnly, items[..t]))
    {
      var token := items[t];
      assert items[..t + 1] == items[..t] + [token];
      TokenStep(w, name, startOnly, items[..t], token, before);
      var prefix := TokenPrefix(token);
      if prefix.Some? && prefix.value in startOnly {
        held := Put(held, Key(w, name, prefix), token);
      } else {
        kept := kept + [token];
      }
    }
    assert items[..|items|] == items;
  }

  lemma TokenStep(w: string, name: string, startOnly: set<string>, items: seq<Json>, token: Json, before: Staged)
    requires NoKey(before, w, name)
    ensures Kept(startOnly, items + [token]) ==
            Kept(startOnly, items) + if IsHeld(startOnly, token) then [] else [token]
    ensures var pairs := TokenPairs(w, name, startOnly, items);
      before + DictOf(TokenPairs(w, name, startOnly, items + [token])) ==
      if IsHeld(startOnly, token) then Put(before + DictOf(pairs), Key(w, name, TokenPrefix(token)), token)
      else before + DictOf(pairs)
  {
    assert (items + [token])[..|items|] == items;
    if IsHeld(startOnly, token) {
      var pairs := TokenPairs(w, name, startOnly, items);
      var key := Key(w, name, TokenPrefix(token));
      assert TokenPairs(w, name, startOnly, items + [token]) == pairs + [(key, token)];
      DictOfSnoc(pairs, key, token);
      NoKeyLookup(before, key);
      PutAfter(before, DictOf(pairs), key, token);
    } else {
      assert TokenPairs(w, name, startOnly, items + [token]) == TokenPairs(w, name, startOnly, items);
    }
  }

  lemma DictOfSnoc<K, V>(pairs: seq<(K, V)>, key: K, value: V)
    ensures DictOf(pairs + [(key, value)]) == Put(DictOf(pairs), key, value)
  {
    assert (pairs + [(key, value)])[..|pairs|] == pairs;
  }

  // ---------------------------------------------------------------------
  // Putting held values back
  // ---------------------------------------------------------------------

  // `[*value]`; None when the value is not iterable.
  function Spread(value: Json): Option<seq<Json>> {
    match value
    case JList(items) => Some(items)
    case JStr(s) => Some(seq(|s|, i requires 0 <= i < |s| => JStr([s[i]])))
    case JObj(fields) => Some(seq(|fields|, i requires 0 <= i < |fields| => JStr(fields[i].0)))
    case _ => None
  }

  // One held value beside what the body has for its field; None when that raises.
  function AddToField(at: Option<Json>, key: Key, value: Json): Option<Json> {
    if key.prefix.None? then Some(value)
    else
      var tokens := if at.Some? then Spread(at.value) else Some([]);
      if tokens.Some? then Some(JList(tokens.value + [value])) else None
  }

  function AddOne(body: Body, key: Key, value: Json): Option<Body> {
    var at := Lookup(body, key.wrapper);
    if at.Some? && !at.value.JObj? then None
    else
      var fields := if at.Some? then at.value.fields else [];
      var put := AddToField(Lookup(fields, key.name), key, value);
      if put.None? then None else Some(Put(body, key.wrapper, JObj(Put(fields, key.name, put.value))))
  }

  function Added(body: Body, held: Staged): Option<Body> {
    if held == [] then Some(body)
    else
      var before := Added(body, held[..|held| - 1]);
      if before.None? then None else AddOne(before.value, held[|held| - 1].0, held[|held| - 1].1)
  }

  /** A start body carrying every held value beside what it already had; None when a field it
      would join cannot hold it. */
  method AddStaged(body: Body, held: Staged) returns (out: Option<Body>)
    ensures out == Added(body, held)
  {
    out := Some(body);
    for i := 0 to |held|
      invariant out.Some? && out == Added(body, held[..i])
    {
      assert held[..i + 1][..i] == held[..i];
      AddedNone(body, held, i + 1);
      var (key, value) := held[i];
      var at := Lookup(out.value, key.wrapper);
      var fields := JObj([]);
      if at.Some? {
        fields := at.value;
      }
      if !fields.JObj? {
        return None;
      }
      if key.prefix.None? {
        out := Some(Put(out.value, key.wrapper, JObj(Put(fields.fields, key.name, value))));
      } else {
        var listed := Lookup(fields.fields, key.name);
        var tokens := if listed.Some? then Spread(listed.value) else Some([]);
        if tokens.None? {
          return None;
        }
        out := Some(Put(out.value, key.wrapper, JObj(Put(fields.fields, key.name, JList(tokens.value + [value])))));
      }
    }
    assert held[..|held|] == held;
  }

  lemma {:induction false} AddedNone(body: Body, held: Staged, i: nat)
    requires i <= |held|
    ensures Added(body, held[..i]).None? ==> Added(body, held).None?
  {
    if i < |held| {
      assert held[..|held| - 1][..i] == held[..i];
      AddedNone(body, held[..|held| - 1], i);
    } else {
      assert held[..i] == held;
    }
  }

  function Items(at: Option<Json>): seq<Json> {
    if at.Some? && at.value.JList? then at.value.items else []
  }

  predicate ListOrAbsent(at: Option<Json>) {
    at.None? || at.value.JList?
  }

  // What one field reads once the held values of its keys are in.
  function Folded(at: Option<Json>, held: Staged, w: string, name: string): Option<Json> {
    if held == [] then at
    else
      var (key, value) := held[|held| - 1];
      var before := Folded(at, held[..|held| - 1], w, name);
      if key.wrapper != w || key.name != name then before
      else if key.prefix.None? then Some(value)
      else Some(JList(Items(before) + [value]))
  }

  // No field is held both plain and by token.
  ghost predicate Coherent(held: Staged) {
    forall k, q | k in held && q in held && k.0.wrapper == q.0.wrapper && k.0.name == q.0.name ::
      k.0.prefix.None? <==> q.0.prefix.None?
  }

  // Every held value has somewhere to go.
  ghost predicate Addable(body: Body, held: Staged) {
    Coherent(held) && forall k | k in held ::
      && (Lookup(body, k.0.wrapper).Some? ==> Lookup(body, k.0.wrapper).value.JObj?)
      && (k.0.prefix.Some? ==> ListOrAbsent(FieldAt(body, k.0.wrapper, k.0.name)))
  }

  lemma AddablePrefix(body: Body, held: Staged)
    requires Addable(body, held) && held != []
    ensures Addable(body, held[..|held| - 1])
  {
  }

  lemma {:induction false} FoldedIsList(at: Option<Json>, held: Staged, w: string, name: string)
    requires ListOrAbsent(at)
    requires forall k | k in held && k.0.wrapper == w && k.0.name == name :: k.0.prefix.Some?
    ensures ListOrAbsent(Folded(at, held, w, name))
  {
    if held != [] { FoldedIsList(at, held[..|held| - 1], w, name); }
  }

  function AddedValue(at: Option<Json>, key: Key, value: Json): Option<Json> {
    if key.prefix.None? then Some(value) else Some(JList(Items(at) + [value]))
  }

  lemma AddOneIs(body: Body, key: Key, value: Json, fields: Body)
    requires var at := Lookup(body, key.wrapper); at == Some(JObj(fields)) || (at == None && fields == [])
    requires key.prefix.Some? ==> ListOrAbsent(Lookup(fields, key.name))
    ensures AddOne(body, key, value) ==
            Some(Put(body, key.wrapper,
              JObj(Put(fields, key.name, AddedValue(Lookup(fields, key.name), key, value).value))))
  {
  }

  lemma PutFieldReads(body: Body, wrapper: string, fields: Body, w: string, name: string)
    ensures var out := Put(body, wrapper, JObj(fields));
      && Lookup(out, w) == (if w == wrapper then Some(JObj(fields)) else Lookup(body, w))
      && FieldAt(out, w, name) == if w == wrapper then Lookup(fields, name) else FieldAt(body, w, name)
  {
    PutLookup(body, wrapper, JObj(fields), w);
  }

  lemma AddOneReads(body: Body, key: Key, value: Json, w: string, name: string)
    requires Lookup(body, key.wrapper).Some? ==> Lookup(body, key.wrapper).value.JObj?
    requires key.prefix.Some? ==> ListOrAbsent(FieldAt(body, key.wrapper, key.name))
    ensures AddOne(body, key, value).Some?
    ensures var out := AddOne(body, key, value).value;
      && (w != key.wrapper ==> Lookup(out, w) == Lookup(body, w))
      && (w == key.wrapper ==> Lookup(out, w).Some? && Lookup(out, w).value.JObj?)
      && FieldAt(out, w, name) ==
           if w == key.wrapper && name == key.name then AddedValue(FieldAt(body, w, name), key, value)
           else FieldAt(body, w, name)
  {
    var at := Lookup(body, key.wrapper);
    var fields := if at.Some? then at.value.fields else [];
    AddOneIs(body, key, value, fields);
    var put := AddedValue(Lookup(fields, key.name), key, value).value;
    PutFieldReads(body, key.wrapper, Put(fields, key.name, put), w, name);
    PutLookup(fields, key.name, put, name);
  }

  ghost predicate HasWrapper(held: Staged, w: string) {
    exists k :: k in held && k.0.wrapper == w
  }

  // What adding `held` has done to one field and its wrapper.
  ghost predicate AddedAt(body: Body, held: Staged, out: Option<Body>, w: string, name: string) {
    && out.Some?
    && FieldAt(out.value, w, name) == Folded(FieldAt(body, w, name), held, w, name)
    && (if HasWrapper(held, w) then Lookup(out.value, w).Some? && Lookup(out.value, w).value.JObj?
        else Lookup(out.value, w) == Lookup(body, w))
  }

  lemma {:induction false} AddedReads(body: Body, held: Staged, w: string, name: string)
    requires Addable(body, held)
    ensures AddedAt(body, held, Added(body, held), w, name)
  {
    if held != [] {
      var before := held[..|held| - 1];
      var last := held[|held| - 1];
      AddablePrefix(body, held);
      AddedReads(body, before, w, name);
      AddedReads(body, before, last.0.wrapper, last.0.name);
      LastFits(body, held);
      AddedStep(body, before, last, Added(body, before).value, w, name);
      assert held == before + [last];
    }
  }

  lemma LastFits(body: Body, held: Staged)
    requires Addable(body, held) && held != []
    ensures var key := held[|held| - 1].0;
      && (Lookup(body, key.wrapper).Some? ==> Lookup(body, key.wrapper).value.JObj?)
      && (key.prefix.Some? ==>
            ListOrAbsent(Folded(FieldAt(body, key.wrapper, key.name), held[..|held| - 1], key.wrapper, key.name)))
  {
    var last := held[|held| - 1];
    assert last in held;
    var key := last.0;
    if key.prefix.Some? {
      FoldedIsList(FieldAt(body, key.wrapper, key.name), held[..|held| - 1], key.wrapper, key.name);
    }
  }

  lemma AddedStep(body: Body, before: Staged, last: (Key, Json), mid: Body, w: string, name: string)
    requires Lookup(body, last.0.wrapper).Some? ==> Lookup(body, last.0.wrapper).value.JObj?
    requires last.0.prefix.Some? ==>
               ListOrAbsent(Folded(FieldAt(body, last.0.wrapper, last.0.name), before, last.0.wrapper, last.0.name))
    requires AddedAt(body, before, Some(mid), w, name)
    requires AddedAt(body, before, Some(mid), last.0.wrapper, last.0.name)
    ensures AddedAt(body, before + [last], AddOne(mid, last.0, last.1), w, name)
  {
    AddOneReads(mid, last.0, last.1, w, name);
    HasWrapperSnoc(before, last, w);
    FoldedSnoc(FieldAt(body, w, name), before, last, w, name);
  }

  lemma FoldedSnoc(at: Option<Json>, before: Staged, last: (Key, Json), w: string, name: string)
    ensures Folded(at, before + [last], w, name) ==
            if last.0.wrapper == w && last.0.name == name then AddedValue(Folded(at, before, w, name), last.0, last.1)
            else Folded(at, before, w, name)
  {
    assert (before + [last])[..|before|] == before;
  }

  lemma HasWrapperSnoc(held: Staged, k: (Key, Json), w: string)
    ensures HasWrapper(held + [k], w) <==> HasWrapper(held, w) || k.0.wrapper == w
  {
    if HasWrapper(held, w) {
      var q :| q in held && q.0.wrapper == w;
      assert q in held + [k];
    }
    assert k in held + [k];
  }

  // ---------------------------------------------------------------------
  // Split, then put back
  // ---------------------------------------------------------------------

  // Equal, with the order of tokens inside a list set aside.
  predicate SameField(a: Option<Json>, b: Option<Json>) {
    || a == b
    || (a.Some? && b.Some? && a.value.JList? && b.value.JList? && multiset(a.value.items) == multiset(b.value.items))
  }

  ghost predicate SameWrapper(a: Body, b: Body, w: string) {
    var x := Lookup(a, w);
    var y := Lookup(b, w);
    if x.Some? && x.value.JObj? then
      y.Some? && y.value.JObj? && forall name :: SameField(Lookup(x.value.fields, name), Lookup(y.value.fields, name))
    else x == y
  }

  // No start-only prefix has two tokens.
  ghost predicate OneTokenEach(startOnly: set<string>, items: seq<Json>) {
    forall i, j | 0 <= i < j < |items| && IsHeld(startOnly, items[i]) && IsHeld(startOnly, items[j]) ::
      TokenPrefix(items[i]) != TokenPrefix(items[j])
  }

  ghost predicate RestorableField(startOnly: set<string>, name: string, value: Json) {
    name in startOnly || !value.JList? || (value.items != [] && OneTokenEach(startOnly, value.items))
  }

  ghost predicate RestorableWrapper(table: Table, body: Body, w: string) {
    var at := Lookup(body, w);
    at.Some? && at.value.JObj? ==>
      && at.value.fields != []
      && forall name | Lookup(at.value.fields, name).Some? ::
           RestorableField(StartOnlyOf(table, w), name, Lookup(at.value.fields, name).value)
  }

  lemma {:induction false} FoldedConcat(at: Option<Json>, a: Staged, b: Staged, w: string, name: string)
    ensures Folded(at, a + b, w, name) == Folded(Folded(at, a, w, name), b, w, name)
  {
    if b == [] {
      assert a + b == a;
    } else {
      assert (a + b)[..|a + b| - 1] == a + b[..|b| - 1];
      FoldedConcat(at, a, b[..|b| - 1], w, name);
    }
  }

  lemma {:induction false} FoldedNoKey(at: Option<Json>, held: Staged, w: string, name: string)
    requires NoKey(held, w, name)
    ensures Folded(at, held, w, name) == at
  {
    if held != [] { FoldedNoKey(at, held[..|held| - 1], w, name); }
  }

  function Values(held: Staged): seq<Json> {
    if held == [] then [] else Values(held[..|held| - 1]) + [held[|held| - 1].1]
  }

  lemma {:induction false} FoldedTokens(at: Option<Json>, held: Staged, w: string, name: string)
    requires forall k | k in held :: k.0.wrapper == w && k.0.name == name && k.0.prefix.Some?
    ensures Folded(at, held, w, name) == if held == [] then at else Some(JList(Items(at) + Values(held)))
  {
    if held != [] {
      var before := held[..|held| - 1];
      FoldedTokens(at, before, w, name);
      Assoc(Items(at), Values(before), [held[|held| - 1].1]);
      if before == [] { assert Items(at) + Values(before) == Items(at); }
    }
  }

  // What a field reads after it was split and put back.
  function Restored(w: string, startOnly: set<string>, name: string, value: Json): Option<Json> {
    if name in startOnly || !value.JList? then Some(value)
    else if value.items == [] then None
    else Some(JList(Kept(startOnly, value.items) + Values(DictOf(TokenPairs(w, name, startOnly, value.items)))))
  }

  lemma {:induction false} TokensPart(w: string, name: string, startOnly: set<string>, items: seq<Json>)
    ensures multiset(Kept(startOnly, items)) + multiset(Values(TokenPairs(w, name, startOnly, items))) ==
        multiset(items)
  {
    if items != [] {
      var before := items[..|items| - 1];
      var last := items[|items| - 1];
      TokensPart(w, name, startOnly, before);
      assert items == before + [last];
      TokenPairsSnoc(w, name, startOnly, before, last);
      BagsSnoc(Kept(startOnly, before), Values(TokenPairs(w, name, startOnly, before)), before, last);
    }
  }

  lemma BagsSnoc(kept: seq<Json>, held: seq<Json>, items: seq<Json>, last: Json)
    requires multiset(kept) + multiset(held) == multiset(items)
    ensures multiset(kept + [last]) + multiset(held) == multiset(items + [last])
    ensures multiset(kept) + multiset(held + [last]) == multiset(items + [last])
  {
  }

  lemma TokenPairsSnoc(w: string, name: string, startOnly: set<string>, items: seq<Json>, token: Json)
    ensures var pairs := TokenPairs(w, name, startOnly, items);
      var more := items + [token];
      if IsHeld(startOnly, token) then
        && Kept(startOnly, more) == Kept(startOnly, items)
        && Values(TokenPairs(w, name, startOnly, more)) == Values(pairs) + [token]
      else
        && Kept(startOnly, more) == Kept(startOnly, items) + [token]
        && TokenPairs(w, name, startOnly, more) == pairs
  {
    var more := items + [token];
    assert more[..|items|] == items;
    var pairs := TokenPairs(w, name, startOnly, items);
    if IsHeld(startOnly, token) {
      ValuesSnoc(pairs, (Key(w, name, TokenPrefix(token)), token));
      assert Kept(startOnly, more) == Kept(startOnly, items) + [];
    } else {
      assert TokenPairs(w, name, startOnly, more) == pairs + [];
    }
  }

  lemma ValuesSnoc(held: Staged, k: (Key, Json))
    ensures Values(held + [k]) == Values(held) + [k.1]
  {
    assert (held + [k])[..|held|] == held;
  }

  lemma {:induction false} ValuesLength(held: Staged)
    ensures |Values(held)| == |held|
  {
    if held != [] { ValuesLength(held[..|held| - 1]); }
  }

  lemma {:induction false} TokenPairsHave(w: string, name: string, startOnly: set<string>, items: seq<Json>, i: nat)
    requires i < |items| && IsHeld(startOnly, items[i])
    ensures (Key(w, name, TokenPrefix(items[i])), items[i]) in TokenPairs(w, name, startOnly, items)
  {
    if i < |items| - 1 { TokenPairsHave(w, name, startOnly, items[..|items| - 1], i); }
  }

  lemma {:induction false} OneTokenEachIff(w: string, name: string, startOnly: set<string>, items: seq<Json>)
    ensures Distinct(TokenPairs(w, name, startOnly, items)) <==> OneTokenEach(startOnly, items)
  {
    if items != [] {
      var before := items[..|items| - 1];
      var last := items[|items| - 1];
      OneTokenEachIff(w, name, startOnly, before);
      var pairs := TokenPairs(w, name, startOnly, before);
      if IsHeld(startOnly, last) {
        var key := Key(w, name, TokenPrefix(last));
        DistinctSnoc(pairs, (key, last));
        FreshPrefixIff(w, name, startOnly, before, last);
        assert TokenPairs(w, name, startOnly, items) == pairs + [(key, last)];
      } else {
        assert TokenPairs(w, name, startOnly, items) == pairs;
      }
      assert OneTokenEach(startOnly, items) <==>
          OneTokenEach(startOnly, before) && FreshPrefix(startOnly, before, last);
    }
  }

  ghost predicate FreshPrefix(startOnly: set<string>, items: seq<Json>, token: Json) {
    IsHeld(startOnly, token) ==>
      forall i | 0 <= i < |items| && IsHeld(startOnly, items[i]) :: TokenPrefix(items[i]) != TokenPrefix(token)
  }

  lemma FreshPrefixIff(w: string, name: string, startOnly: set<string>, items: seq<Json>, token: Json)
    requires IsHeld(startOnly, token)
    ensures FreshPrefix(startOnly, items, token) <==>
            Lookup(TokenPairs(w, name, startOnly, items), Key(w, name, TokenPrefix(token))).None?
  {
    var pairs := TokenPairs(w, name, startOnly, items);
    TokenPairsKeys(w, name, startOnly, items);
    forall i | 0 <= i < |items| && IsHeld(startOnly, items[i])
      ensures (Key(w, name, TokenPrefix(items[i])), items[i]) in pairs
    {
      TokenPairsHave(w, name, startOnly, items, i);
    }
  }

  lemma RestoredIff(w: string, startOnly: set<string>, name: string, value: Json)
    ensures SameField(Some(value), Restored(w, startOnly, name, value)) <==> RestorableField(startOnly, name, value)
  {
    if name !in startOnly && value.JList? && value.items != [] {
      var pairs := TokenPairs(w, name, startOnly, value.items);
      TokensPart(w, name, startOnly, value.items);
      OneTokenEachIff(w, name, startOnly, value.items);
      DictOfKeepsIff(pairs);
      ValuesLength(pairs);
      ValuesLength(DictOf(pairs));
      SameBagIff(value.items, Kept(startOnly, value.items), Values(pairs), Values(DictOf(pairs)));
    }
  }

  // Putting back all the tokens taken out restores the bag, putting back fewer does not.
  lemma SameBagIff(items: seq<Json>, kept: seq<Json>, all: seq<Json>, back: seq<Json>)
    requires multiset(kept) + multiset(all) == multiset(items) && (|back| < |all| || back == all)
    ensures SameField(Some(JList(items)), Some(JList(kept + back))) <==> |back| == |all|
  {
    assert |multiset(kept + back)| == |kept| + |back|;
    assert |multiset(items)| == |multiset(kept)| + |multiset(all)|;
    if |back| == |all| {
      assert multiset(kept + all) == multiset(kept) + multiset(all);
    } else {
      assert multiset(items) != multiset(kept + back);
    }
  }

  lemma FieldRestores(w: string, startOnly: set<string>, name: string, value: Json)
    ensures Folded(FieldSent(startOnly, name, value), FieldHeld(w, startOnly, name, value), w, name) ==
            Restored(w, startOnly, name, value)
  {
    var held := FieldHeld(w, startOnly, name, value);
    var sent := FieldSent(startOnly, name, value);
    if name in startOnly {
      assert held[..0] == [];
    } else if value.JList? {
      FieldHeldKeys(w, startOnly, name, value);
      FoldedTokens(sent, held, w, name);
      SomeKeptOrHeld(w, name, startOnly, value.items);
      assert Items(sent) == Kept(startOnly, value.items);
      if held == [] { assert Kept(startOnly, value.items) + Values(held) == Kept(startOnly, value.items); }
    }
  }

  lemma {:induction false} SomeKeptOrHeld(w: string, name: string, startOnly: set<string>, items: seq<Json>)
    ensures Kept(startOnly, items) == [] && DictOf(TokenPairs(w, name, startOnly, items)) == [] <==> items == []
  {
    TokensPart(w, name, startOnly, items);
    var pairs := TokenPairs(w, name, startOnly, items);
    ValuesLength(pairs);
    if pairs != [] {
      DictLookup(pairs, pairs[|pairs| - 1].0);
    }
    assert |multiset(items)| == |Kept(startOnly, items)| + |Values(pairs)|;
  }

  lemma {:induction false} FieldsSentReads(startOnly: set<string>, fields: Body, name: string)
    requires Distinct(fields)
    ensures Lookup(FieldsSent(startOnly, fields), name) ==
            if Lookup(fields, name).Some? then FieldSent(startOnly, name, Lookup(fields, name).value) else None
  {
    if fields != [] {
      var before := fields[..|fields| - 1];
      var last := fields[|fields| - 1];
      DistinctPrefix(fields);
      FieldsSentReads(startOnly, before, name);
      FieldStep("", startOnly, before, last.0, last.1);
      assert fields == before + [last];
      var sent := FieldSent(startOnly, last.0, last.1);
      if sent.Some? { LookupAfter(FieldsSent(startOnly, before), [(last.0, sent.value)], name); }
    }
  }

  lemma {:induction false} SentReads(table: Table, body: Body, w: string)
    requires IsBody(body)
    ensures var at := Lookup(body, w);
      Lookup(Sent(table, body), w) ==
      if at.None? || !at.value.JObj? then at
      else if FieldsSent(StartOnlyOf(table, w), at.value.fields) == [] then None
      else Some(JObj(FieldsSent(StartOnlyOf(table, w), at.value.fields)))
  {
    if body != [] {
      var before := body[..|body| - 1];
      var last := body[|body| - 1];
      IsBodyPrefix(body);
      SentReads(table, before, w);
      LookupAfter(Sent(table, before), WrapperSent(StartOnlyOf(table, last.0), last.0, last.1), w);
    }
  }

  lemma {:induction false} FieldsHeldFrom(w: string, startOnly: set<string>, fields: Body, k: (Key, Json))
    requires Distinct(fields) && k in FieldsHeld(w, startOnly, fields)
    ensures Lookup(fields, k.0.name).Some?
    ensures k in FieldHeld(w, startOnly, k.0.name, Lookup(fields, k.0.name).value)
  {
    var before := fields[..|fields| - 1];
    var last := fields[|fields| - 1];
    DistinctPrefix(fields);
    if k in FieldHeld(w, startOnly, last.0, last.1) {
      FieldHeldKeys(w, startOnly, last.0, last.1);
    } else {
      FieldsHeldFrom(w, startOnly, before, k);
    }
  }

  lemma {:induction false} HeldOfFrom(table: Table, body: Body, k: (Key, Json))
    requires IsBody(body) && k in HeldOf(table, body)
    ensures var at := Lookup(body, k.0.wrapper);
      at.Some? && at.value.JObj? && k in FieldsHeld(k.0.wrapper, StartOnlyOf(table, k.0.wrapper), at.value.fields)
  {
    var before := body[..|body| - 1];
    var last := body[|body| - 1];
    IsBodyPrefix(body);
    if k in HeldOf(table, before) {
      HeldOfFrom(table, before, k);
    } else {
      FieldsHeldKeys(last.0, StartOnlyOf(table, last.0), last.1.fields);
    }
  }

  lemma HeldIsAddable(table: Table, body: Body)
    requires IsBody(body)
    ensures Addable(Sent(table, body), HeldOf(table, body))
  {
    var held := HeldOf(table, body);
    HeldOfKeys(table, body);
    forall k | k in held
      ensures Lookup(Sent(table, body), k.0.wrapper).Some? ==> Lookup(Sent(table, body), k.0.wrapper).value.JObj?
      ensures k.0.prefix.Some? ==> ListOrAbsent(FieldAt(Sent(table, body), k.0.wrapper, k.0.name))
    {
      HeldFits(table, body, k);
    }
  }

  lemma HeldFits(table: Table, body: Body, k: (Key, Json))
    requires IsBody(body) && k in HeldOf(table, body)
    ensures Lookup(Sent(table, body), k.0.wrapper).Some? ==> Lookup(Sent(table, body), k.0.wrapper).value.JObj?
    ensures k.0.prefix.Some? ==> ListOrAbsent(FieldAt(Sent(table, body), k.0.wrapper, k.0.name))
  {
    var w := k.0.wrapper;
    HeldOfFrom(table, body, k);
    SentReads(table, body, w);
    var fields := Lookup(body, w).value.fields;
    FieldsHeldFrom(w, StartOnlyOf(table, w), fields, k);
    FieldsSentReads(StartOnlyOf(table, w), fields, k.0.name);
    FieldHeldKeys(w, StartOnlyOf(table, w), k.0.name, Lookup(fields, k.0.name).value);
  }

  lemma {:induction false} FoldedFields(at: Option<Json>, w: string, startOnly: set<string>, fields: Body, name: string)
    requires Distinct(fields)
    ensures var v := Lookup(fields, name);
      Folded(at, FieldsHeld(w, startOnly, fields), w, name) ==
      if v.Some? then Folded(at, FieldHeld(w, startOnly, name, v.value), w, name) else at
  {
    if fields != [] {
      var before := fields[..|fields| - 1];
      var last := fields[|fields| - 1];
      DistinctPrefix(fields);
      FoldedFields(at, w, startOnly, before, name);
      FieldHeldKeys(w, startOnly, last.0, last.1);
      var held := FieldHeld(w, startOnly, last.0, last.1);
      FoldedConcat(at, FieldsHeld(w, startOnly, before), held, w, name);
      if last.0 != name {
        FoldedNoKey(Folded(at, FieldsHeld(w, startOnly, before), w, name), held, w, name);
      }
    }
  }

  lemma {:induction false} FoldedBody(at: Option<Json>, table: Table, body: Body, w: string, name: string)
    requires IsBody(body)
    ensures var v := Lookup(body, w);
      Folded(at, HeldOf(table, body), w, name) ==
      if v.Some? && v.value.JObj? then Folded(at, FieldsHeld(w, StartOnlyOf(table, w), v.value.fields), w, name) else at
  {
    if body != [] {
      var before := body[..|body| - 1];
      var last := body[|body| - 1];
      IsBodyPrefix(body);
      FoldedBody(at, table, before, w, name);
      var held := if last.1.JObj? then FieldsHeld(last.0, StartOnlyOf(table, last.0), last.1.fields) else [];
      FoldedConcat(at, HeldOf(table, before), held, w, name);
      if last.1.JObj? { FieldsHeldKeys(last.0, StartOnlyOf(table, last.0), last.1.fields); }
      if last.0 != w {
        FoldedNoKey(Folded(at, HeldOf(table, before), w, name), held, w, name);
      }
    }
  }

  // One field of the body a split start goes out with.
  lemma RestoredAt(table: Table, body: Body, w: string, name: string)
    requires IsBody(body) && Lookup(body, w).Some? && Lookup(body, w).value.JObj?
    ensures Added(Sent(table, body), HeldOf(table, body)).Some?
    ensures var v := Lookup(Lookup(body, w).value.fields, name);
      FieldAt(Added(Sent(table, body), HeldOf(table, body)).value, w, name) ==
      if v.Some? then Restored(w, StartOnlyOf(table, w), name, v.value) else None
  {
    var so := StartOnlyOf(table, w);
    var fields := Lookup(body, w).value.fields;
    var v := Lookup(fields, name);
    HeldIsAddable(table, body);
    AddedReads(Sent(table, body), HeldOf(table, body), w, name);
    SentReads(table, body, w);
    FieldsSentReads(so, fields, name);
    var at := FieldAt(Sent(table, body), w, name);
    assert at == if v.Some? then FieldSent(so, name, v.value) else None;
    FoldedBody(at, table, body, w, name);
    FoldedFields(at, w, so, fields, name);
    if v.Some? { FieldRestores(w, so, name, v.value); }
  }

  lemma RestoresWrapperIff(table: Table, body: Body, w: string)
    requires IsBody(body)
    ensures Added(Sent(table, body), HeldOf(table, body)).Some?
    ensures SameWrapper(body, Added(Sent(table, body), HeldOf(table, body)).value, w) <==>
        RestorableWrapper(table, body, w)
  {
    var held := HeldOf(table, body);
    HeldIsAddable(table, body);
    AddedReads(Sent(table, body), held, w, "");
    SentReads(table, body, w);
    var at := Lookup(body, w);
    if at.None? || !at.value.JObj? {
      forall k | k in held ensures k.0.wrapper != w { HeldOfFrom(table, body, k); }
    } else if at.value.fields == [] {
      forall k | k in held ensures k.0.wrapper != w {
        HeldOfFrom(table, body, k);
      }
    } else {
      FieldsRestoreIff(table, body, w);
    }
  }

  lemma FieldsRestoreIff(table: Table, body: Body, w: string)
    requires IsBody(body) && Lookup(body, w).Some? && Lookup(body, w).value.JObj? && Lookup(body, w).value.fields != []
    requires Added(Sent(table, body), HeldOf(table, body)).Some?
    ensures SameWrapper(body, Added(Sent(table, body), HeldOf(table, body)).value, w) <==>
        RestorableWrapper(table, body, w)
  {
    var fields := Lookup(body, w).value.fields;
    var out := Added(Sent(table, body), HeldOf(table, body)).value;
    forall name
      ensures SameField(Lookup(fields, name), FieldAt(out, w, name)) <==>
              (Lookup(fields, name).Some? ==>
                 RestorableField(StartOnlyOf(table, w), name, Lookup(fields, name).value))
    {
      RestoredAt(table, body, w, name);
      if Lookup(fields, name).Some? { RestoredIff(w, StartOnlyOf(table, w), name, Lookup(fields, name).value); }
    }
    assert Lookup(fields, fields[0].0).Some?;
  }

  /** Splitting a body and putting the held values back gives the body again, token order aside,
      exactly when no wrapper is an empty map and every list whose field is not itself
      start-only is non-empty and has at most one token of each start-only prefix. */
  lemma SplitThenAddRestoresIff(table: Table, body: Body)
    requires IsBody(body)
    ensures Added(Sent(table, body), HeldOf(table, body)).Some?
    ensures (forall w :: SameWrapper(body, Added(Sent(table, body), HeldOf(table, body)).value, w)) <==>
            (forall w :: RestorableWrapper(table, body, w))
  {
    RestoresWrapperIff(table, body, "");
    forall w
      ensures SameWrapper(body, Added(Sent(table, body), HeldOf(table, body)).value, w) <==>
          RestorableWrapper(table, body, w)
    {
      RestoresWrapperIff(table, body, w);
    }
  }

  // ---------------------------------------------------------------------
  // Laying held values over what is read
  // ---------------------------------------------------------------------

  // The entries that are not a token of any of these prefixes.
  function Without(prefixes: set<string>, items: seq<Json>): seq<Json> {
    if items == [] then []
    else Without(prefixes, items[..|items| - 1]) +
         if IsHeld(prefixes, items[|items| - 1]) then [] else [items[|items| - 1]]
  }

  function OverlayOnField(at: Option<Json>, key: Key, value: Json): Json {
    if key.prefix.None? then value else JList(Without({key.prefix.value}, Items(at)) + [value])
  }

  function OverlayOne(bodies: Body, key: Key, value: Json): Body {
    var at := Lookup(bodies, key.wrapper);
    if at.None? || !at.value.JObj? then bodies
    else
      var fields := at.value.fields;
      Put(bodies, key.wrapper, JObj(Put(fields, key.name, OverlayOnField(Lookup(fields, key.name), key, value))))
  }

  function Overlaid(bodies: Body, held: Staged): Body {
    if held == [] then bodies
    else OverlayOne(Overlaid(bodies, held[..|held| - 1]), held[|held| - 1].0, held[|held| - 1].1)
  }

  /** `bodies` with every held value in place of the reported one. */
  method WithStaged(bodies: Body, held: Staged) returns (out: Body)
    ensures out == Overlaid(bodies, held)
  {
    out := bodies;
    for i := 0 to |held|
      invariant out == Overlaid(bodies, held[..i])
    {
      assert held[..i + 1][..i] == held[..i];
      var (key, value) := held[i];
      var at := Lookup(out, key.wrapper);
      if at.None? || !at.value.JObj? {
        continue;
      }
      var fields := at.value.fields;
      if key.prefix.None? {
        out := Put(out, key.wrapper, JObj(Put(fields, key.name, value)));
        continue;
      }
      var listed := Lookup(fields, key.name);
      var tokens := if listed.Some? && listed.value.JList? then listed.value.items else [];
      var rest := Without({key.prefix.value}, tokens);
      out := Put(out, key.wrapper, JObj(Put(fields, key.name, JList(rest + [value]))));
    }
    assert held[..|held|] == held;
  }

  function FirstToken(items: seq<Json>, prefix: string): Json {
    if items == [] then JNull
    else if TokenPrefix(items[0]) == Some(prefix) then items[0]
    else FirstToken(items[1..], prefix)
  }

  function CurrentOfField(at: Option<Json>, prefix: Option<string>): Json {
    if prefix.None? then (if at.Some? then at.value else JNull)
    else FirstToken(Items(at), prefix.value)
  }

  // What the appliance itself reports for a held key; JNull when nothing.
  function StagedCurrent(bodies: Body, key: Key): Json {
    CurrentOfField(FieldAt(bodies, key.wrapper, key.name), key.prefix)
  }

  // A token of an option: its text is the prefix, or begins with it and an underscore.
  predicate IsTokenOf(token: Json, prefix: string) {
    token.JStr? && '_' !in prefix && (token.s == prefix || prefix + "_" <= token.s)
  }

  lemma TokenPrefixIff(token: Json, prefix: string)
    ensures TokenPrefix(token) == Some(prefix) <==> IsTokenOf(token, prefix)
  {
    if token.JStr? {
      var i := FirstIndex(token.s, '_');
      if i >= 0 { assert token.s[..i] + "_" == token.s[..i + 1]; }
      if prefix + "_" <= token.s && '_' !in prefix {
        var tail := token.s[|prefix| + 1..];
        assert token.s == (prefix + "_") + tail == prefix + ['_'] + tail;
        FirstIndexOfJoin(prefix, '_', tail);
        assert token.s[..|prefix|] == prefix;
      }
    }
  }

  // The first token of an option in an array.
  predicate FirstOf(items: seq<Json>, prefix: string, i: nat) {
    i < |items| && IsTokenOf(items[i], prefix) && forall j | 0 <= j < i :: !IsTokenOf(items[j], prefix)
  }

  lemma {:induction false} FirstTokenIs(items: seq<Json>, prefix: string)
    ensures FirstToken(items, prefix) == JNull <==> forall i | 0 <= i < |items| :: !IsTokenOf(items[i], prefix)
    ensures FirstToken(items, prefix) != JNull ==>
              exists i: nat :: FirstOf(items, prefix, i) && FirstToken(items, prefix) == items[i]
    decreases |items|
  {
    if items != [] {
      TokenPrefixIff(items[0], prefix);
      var rest := items[1..];
      assert forall i | 0 <= i < |rest| :: rest[i] == items[i + 1];
      assert forall i | 0 < i < |items| :: items[i] == rest[i - 1];
      FirstTokenIs(rest, prefix);
      if TokenPrefix(items[0]) == Some(prefix) {
        assert FirstOf(items, prefix, 0);
      } else if FirstToken(rest, prefix) != JNull {
        var i: nat :| FirstOf(rest, prefix, i) && FirstToken(rest, prefix) == rest[i];
        assert FirstOf(items, prefix, i + 1);
      }
    }
  }

  /** What the appliance reports for a held key: the field itself, or the first token of the option
      in its array; nothing where there is no such field or token. */
  lemma StagedCurrentIs(bodies: Body, key: Key)
    ensures var at := FieldAt(bodies, key.wrapper, key.name);
      && (key.prefix.None? ==> StagedCurrent(bodies, key) == if at.Some? then at.value else JNull)
      && (key.prefix.Some? && at.Some? && at.value.JList? ==>
            if forall i | 0 <= i < |at.value.items| :: !IsTokenOf(at.value.items[i], key.prefix.value) then
              StagedCurrent(bodies, key) == JNull
            else
              exists i: nat :: FirstOf(at.value.items, key.prefix.value, i)
                               && StagedCurrent(bodies, key) == at.value.items[i])
      && (key.prefix.Some? && (at.None? || !at.value.JList?) ==> StagedCurrent(bodies, key) == JNull)
  {
    var at := FieldAt(bodies, key.wrapper, key.name);
    if key.prefix.Some? && at.Some? && at.value.JList? { FirstTokenIs(at.value.items, key.prefix.value); }
  }

  // ---------------------------------------------------------------------
  // What a split holds and what it sends
  // ---------------------------------------------------------------------

  /** A wrapper's start-only names are those of the last row for it, and none without a row. */
  lemma {:induction false} StartOnlyIs(table: Table, w: string, i: nat)
    requires forall j | i < j < |table| :: table[j].wrapper != w
    ensures i < |table| && table[i].wrapper == w ==> StartOnlyOf(table, w) == table[i].startOnly
    ensures (forall r | r in table :: r.wrapper != w) ==> StartOnlyOf(table, w) == {}
  {
    if table != [] && !(i == |table| - 1 && table[i].wrapper == w) {
      var before := table[..|table| - 1];
      assert table == before + [table[|table| - 1]];
      StartOnlyIs(before, w, i);
    }
  }

  // A token of some start-only option.
  ghost predicate StartsOnly(startOnly: set<string>, token: Json) {
    exists p :: p in startOnly && IsTokenOf(token, p)
  }

  lemma IsHeldIff(startOnly: set<string>, token: Json)
    ensures IsHeld(startOnly, token) <==> StartsOnly(startOnly, token)
  {
    if IsHeld(startOnly, token) { TokenPrefixIff(token, TokenPrefix(token).value); }
    if p :| p in startOnly && IsTokenOf(token, p) { TokenPrefixIff(token, p); }
  }

  // `kept` is `items` without the tokens of start-only options.
  ghost predicate IsRest(startOnly: set<string>, items: seq<Json>, kept: seq<Json>) {
    forall t :: multiset(kept)[t] == if StartsOnly(startOnly, t) then 0 else multiset(items)[t]
  }

  lemma {:induction false} KeptIsRest(startOnly: set<string>, items: seq<Json>)
    ensures IsRest(startOnly, items, Kept(startOnly, items))
    ensures forall n | 0 <= n <= |items| :: Kept(startOnly, items[..n]) <= Kept(startOnly, items)
  {
    if items != [] {
      var before, last := items[..|items| - 1], items[|items| - 1];
      assert items == before + [last];
      KeptIsRest(startOnly, before);
      IsHeldIff(startOnly, last);
      forall n | 0 <= n <= |items| ensures Kept(startOnly, items[..n]) <= Kept(startOnly, items) {
        if n < |items| { assert items[..n] == before[..n]; } else { assert items[..n] == items; }
      }
    }
  }

  /** What goes out now: every field that is not start-only, an array of tokens without those of
      start-only options, and nothing of an array that has no others. */
  lemma SentIs(table: Table, body: Body, w: string, name: string)
    requires IsBody(body)
    ensures var at, out, startOnly :=
              FieldAt(body, w, name), FieldAt(Sent(table, body), w, name), StartOnlyOf(table, w);
      && (at.None? || name in startOnly ==> out == None)
      && (at.Some? && name !in startOnly && !at.value.JList? ==> out == at)
      && (at.Some? && name !in startOnly && at.value.JList? ==>
            if forall t | t in at.value.items :: StartsOnly(startOnly, t) then out == None
            else out.Some? && out.value.JList? && IsRest(startOnly, at.value.items, out.value.items))
  {
    var whole, startOnly := Lookup(body, w), StartOnlyOf(table, w);
    SentReads(table, body, w);
    if whole.Some? && whole.value.JObj? {
      FieldsSentReads(startOnly, whole.value.fields, name);
      var at := Lookup(whole.value.fields, name);
      if at.Some? && at.value.JList? { RestIsEmptyIff(startOnly, at.value.items); }
    }
  }

  lemma RestIsEmptyIff(startOnly: set<string>, items: seq<Json>)
    ensures IsRest(startOnly, items, Kept(startOnly, items))
    ensures Kept(startOnly, items) == [] <==> forall t | t in items :: StartsOnly(startOnly, t)
  {
    var kept := Kept(startOnly, items);
    KeptIsRest(startOnly, items);
    if kept != [] {
      assert kept[0] in multiset(kept);
      assert kept[0] in multiset(items) && !StartsOnly(startOnly, kept[0]);
    }
    if t :| t in items && !StartsOnly(startOnly, t) {
      assert t in multiset(items);
      assert t in multiset(kept);
    }
  }

  // The last token of an option in an array.
  predicate LastOf(items: seq<Json>, prefix: string, token: Json) {
    exists i ::
      0 <= i < |items| && items[i] == token && IsTokenOf(token, prefix)
      && forall j | i < j < |items| :: !IsTokenOf(items[j], prefix)
  }

  lemma {:induction false} TokenPairsLookup(
    w: string, name: string, startOnly: set<string>, items: seq<Json>, prefix: string, token: Json)
    ensures Lookup(TokenPairs(w, name, startOnly, items), Key(w, name, Some(prefix))) == Some(token) <==>
            prefix in startOnly && LastOf(items, prefix, token)
  {
    if items != [] {
      var before, last := items[..|items| - 1], items[|items| - 1];
      assert items == before + [last];
      TokenPairsLookup(w, name, startOnly, before, prefix, token);
      TokenPrefixIff(last, prefix);
      LastOfSnoc(before, last, prefix, token);
      if IsHeld(startOnly, last) {
        var pair := [(Key(w, name, TokenPrefix(last)), last)];
        assert pair[..0] == [];
        LookupAfter(TokenPairs(w, name, startOnly, before), pair, Key(w, name, Some(prefix)));
      } else {
        assert TokenPairs(w, name, startOnly, items) == TokenPairs(w, name, startOnly, before);
      }
    }
  }

  lemma LastOfSnoc(before: seq<Json>, last: Json, prefix: string, token: Json)
    ensures LastOf(before + [last], prefix, token) <==>
            if IsTokenOf(last, prefix) then token == last else LastOf(before, prefix, token)
  {
    var items := before + [last];
    assert items[|before|] == last;
    assert forall j | 0 <= j < |before| :: items[j] == before[j];
    if LastOf(items, prefix, token) {
      var i :| 0 <= i < |items| && items[i] == token && IsTokenOf(token, prefix)
               && forall j | i < j < |items| :: !IsTokenOf(items[j], prefix);
      if i < |before| { assert before[i] == token; }
    }
    if LastOf(before, prefix, token) && !IsTokenOf(last, prefix) {
      var i :| 0 <= i < |before| && before[i] == token && IsTokenOf(token, prefix)
               && forall j | i < j < |before| :: !IsTokenOf(before[j], prefix);
      assert items[i] == token;
    }
  }

  // Held for one field: the whole of a start-only one, else the last token of each start-only option.
  predicate HeldFor(startOnly: set<string>, name: string, value: Json, prefix: Option<string>, token: Json) {
    if prefix.None? then name in startOnly && token == value
    else name !in startOnly && value.JList? && prefix.value in startOnly && LastOf(value.items, prefix.value, token)
  }

  lemma InDictOfIff<K, V>(pairs: seq<(K, V)>, key: K, value: V)
    ensures (key, value) in DictOf(pairs) <==> Lookup(pairs, key) == Some(value)
  {
    DictLookup(pairs, key);
    DictOfDistinct(pairs);
    if (key, value) in DictOf(pairs) { LookupDistinct(DictOf(pairs), key, value); }
  }

  lemma FieldHeldIff(w: string, startOnly: set<string>, name: string, value: Json, k: (Key, Json))
    ensures k in FieldHeld(w, startOnly, name, value) <==>
            k.0.wrapper == w && k.0.name == name && HeldFor(startOnly, name, value, k.0.prefix, k.1)
  {
    FieldHeldKeys(w, startOnly, name, value);
    if name !in startOnly && value.JList? && k.0 == Key(w, name, k.0.prefix) && k.0.prefix.Some? {
      InDictOfIff(TokenPairs(w, name, startOnly, value.items), k.0, k.1);
      TokenPairsLookup(w, name, startOnly, value.items, k.0.prefix.value, k.1);
    }
  }

  lemma {:induction false} FieldsHeldHave(w: string, startOnly: set<string>, fields: Body, k: (Key, Json))
    requires Distinct(fields) && Lookup(fields, k.0.name).Some?
    requires k in FieldHeld(w, startOnly, k.0.name, Lookup(fields, k.0.name).value)
    ensures k in FieldsHeld(w, startOnly, fields)
  {
    if fields[|fields| - 1].0 != k.0.name {
      DistinctPrefix(fields);
      FieldsHeldHave(w, startOnly, fields[..|fields| - 1], k);
    }
  }

  lemma {:induction false} HeldOfHas(table: Table, body: Body, k: (Key, Json))
    requires IsBody(body) && Lookup(body, k.0.wrapper).Some? && Lookup(body, k.0.wrapper).value.JObj?
    requires k in FieldsHeld(k.0.wrapper, StartOnlyOf(table, k.0.wrapper), Lookup(body, k.0.wrapper).value.fields)
    ensures k in HeldOf(table, body)
  {
    if body[|body| - 1].0 != k.0.wrapper {
      IsBodyPrefix(body);
      HeldOfHas(table, body[..|body| - 1], k);
    }
  }

  /** What waits for a start: exactly the start-only fields, whole, and of an array in any other field
      the last token of each start-only option, each under its own key. */
  lemma HeldIs(table: Table, body: Body, k: (Key, Json))
    requires IsBody(body)
    ensures var at := FieldAt(body, k.0.wrapper, k.0.name);
      k in HeldOf(table, body) <==>
      at.Some? && HeldFor(StartOnlyOf(table, k.0.wrapper), k.0.name, at.value, k.0.prefix, k.1)
  {
    var w, at := k.0.wrapper, FieldAt(body, k.0.wrapper, k.0.name);
    var startOnly := StartOnlyOf(table, w);
    if k in HeldOf(table, body) {
      HeldOfFrom(table, body, k);
      FieldsHeldFrom(w, startOnly, Lookup(body, w).value.fields, k);
    }
    if at.Some? {
      FieldHeldIff(w, startOnly, k.0.name, at.value, k);
      if k in FieldHeld(w, startOnly, k.0.name, at.value) {
        FieldsHeldHave(w, startOnly, Lookup(body, w).value.fields, k);
        HeldOfHas(table, body, k);
      }
    }
  }

  // A key set a split produces: no key twice, no field both plain and by token, each token
  // under its own prefix.
  ghost predicate Producible(held: Staged) {
    && Distinct(held) && Coherent(held)
    && forall k | k in held && k.0.prefix.Some? :: TokenPrefix(k.1) == k.0.prefix
  }

  // `key` could be held beside `held`.
  ghost predicate FitsBeside(held: Staged, key: Key) {
    forall k | k in held && k.0.wrapper == key.wrapper && k.0.name == key.name :: k.0.prefix.None? <==> key.prefix.None?
  }

  lemma {:induction false} FirstTokenConcat(a: seq<Json>, b: seq<Json>, prefix: string)
    ensures FirstToken(a + b, prefix) ==
            if FirstToken(a, prefix) != JNull then FirstToken(a, prefix) else FirstToken(b, prefix)
  {
    if a == [] {
      assert a + b == b;
    } else {
      assert (a + b)[1..] == a[1..] + b;
      FirstTokenConcat(a[1..], b, prefix);
    }
  }

  lemma {:induction false} FirstTokenNone(items: seq<Json>, prefix: string)
    requires forall t | t in items :: TokenPrefix(t) != Some(prefix)
    ensures FirstToken(items, prefix) == JNull
  {
    if items != [] { FirstTokenNone(items[1..], prefix); }
  }

  lemma {:induction false} WithoutHas(prefixes: set<string>, items: seq<Json>, t: Json)
    ensures t in Without(prefixes, items) <==> t in items && !IsHeld(prefixes, t)
  {
    if items != [] {
      WithoutHas(prefixes, items[..|items| - 1], t);
      assert items == items[..|items| - 1] + [items[|items| - 1]];
    }
  }

  lemma {:induction false} WithoutKeepsFirst(dropped: string, items: seq<Json>, prefix: string)
    requires dropped != prefix
    ensures FirstToken(Without({dropped}, items), prefix) == FirstToken(items, prefix)
  {
    if items != [] {
      var before := items[..|items| - 1];
      var last := items[|items| - 1];
      WithoutKeepsFirst(dropped, before, prefix);
      assert items == before + [last];
      FirstTokenConcat(before, [last], prefix);
      assert [last][1..] == [];
      if IsHeld({dropped}, last) {
        assert Without({dropped}, items) == Without({dropped}, before);
      } else {
        FirstTokenConcat(Without({dropped}, before), [last], prefix);
      }
    }
  }

  lemma OverlayFieldReads(at: Option<Json>, key: Key, value: Json, prefix: Option<string>)
    requires key.prefix.None? <==> prefix.None?
    requires key.prefix.Some? ==> TokenPrefix(value) == key.prefix
    ensures CurrentOfField(Some(OverlayOnField(at, key, value)), prefix) ==
            if prefix == key.prefix then value else CurrentOfField(at, prefix)
  {
    if key.prefix.Some? {
      var dropped := key.prefix.value;
      var rest := Without({dropped}, Items(at));
      FirstTokenConcat(rest, [value], prefix.value);
      if prefix == key.prefix {
        forall t | t in rest ensures TokenPrefix(t) != prefix { WithoutHas({dropped}, Items(at), t); }
        FirstTokenNone(rest, prefix.value);
      } else {
        WithoutKeepsFirst(dropped, Items(at), prefix.value);
      }
    }
  }

  ghost predicate IsWrapper(bodies: Body, w: string) {
    Lookup(bodies, w).Some? && Lookup(bodies, w).value.JObj?
  }

  lemma OverlayOneReads(bodies: Body, key: Key, value: Json, w: string, name: string)
    ensures var out := OverlayOne(bodies, key, value);
      && (IsWrapper(bodies, w) ==> IsWrapper(out, w)) && (!IsWrapper(bodies, w) ==> Lookup(out, w) == Lookup(bodies, w))
      && FieldAt(out, w, name) ==
           if IsWrapper(bodies, w) && key.wrapper == w && key.name == name then
             Some(OverlayOnField(FieldAt(bodies, w, name), key, value))
           else FieldAt(bodies, w, name)
  {
    if IsWrapper(bodies, key.wrapper) {
      var fields := Lookup(bodies, key.wrapper).value.fields;
      var put := OverlayOnField(Lookup(fields, key.name), key, value);
      PutFieldReads(bodies, key.wrapper, Put(fields, key.name, put), w, name);
      PutLookup(fields, key.name, put, name);
    }
  }

  /** A held value is what a read with it laid over reports (where the read has its wrapper at
      all), and every other key that could be held reads as without it. */
  lemma {:induction false} OverlaidReads(bodies: Body, held: Staged, key: Key)
    requires Producible(held) && FitsBeside(held, key)
    ensures IsWrapper(Overlaid(bodies, held), key.wrapper) <==> IsWrapper(bodies, key.wrapper)
    ensures StagedCurrent(Overlaid(bodies, held), key) ==
            if IsWrapper(bodies, key.wrapper) && Lookup(held, key).Some? then Lookup(held, key).value
            else StagedCurrent(bodies, key)
  {
    if held != [] {
      var before := held[..|held| - 1];
      var last := held[|held| - 1];
      DistinctPrefix(held);
      OverlaidReads(bodies, before, key);
      var mid := Overlaid(bodies, before);
      OverlayOneReads(mid, last.0, last.1, key.wrapper, key.name);
      assert last in held;
      if last.0.wrapper == key.wrapper && last.0.name == key.name {
        OverlayFieldReads(FieldAt(mid, key.wrapper, key.name), last.0, last.1, key.prefix);
      }
    }
  }

  function OverlayField(at: Option<Json>, held: Staged, w: string, name: string): Option<Json> {
    if held == [] then at
    else
      var (key, value) := held[|held| - 1];
      var before := OverlayField(at, held[..|held| - 1], w, name);
      if key.wrapper == w && key.name == name then Some(OverlayOnField(before, key, value)) else before
  }

  lemma {:induction false} OverlaidAt(bodies: Body, held: Staged, w: string, name: string)
    ensures IsWrapper(Overlaid(bodies, held), w) <==> IsWrapper(bodies, w)
    ensures !IsWrapper(bodies, w) ==> Lookup(Overlaid(bodies, held), w) == Lookup(bodies, w)
    ensures FieldAt(Overlaid(bodies, held), w, name) ==
            if IsWrapper(bodies, w) then OverlayField(FieldAt(bodies, w, name), held, w, name) else None
  {
    if held != [] {
      var before := held[..|held| - 1];
      OverlaidAt(bodies, before, w, name);
      OverlayOneReads(Overlaid(bodies, before), held[|held| - 1].0, held[|held| - 1].1, w, name);
    }
  }

  // The token prefixes held for one field, and the tokens themselves in order.
  function PrefixesOf(held: Staged, w: string, name: string): set<string> {
    if held == [] then {}
    else
      var key := held[|held| - 1].0;
      PrefixesOf(held[..|held| - 1], w, name) +
      if key.wrapper == w && key.name == name && key.prefix.Some? then {key.prefix.value} else {}
  }

  function TokensOf(held: Staged, w: string, name: string): seq<Json> {
    if held == [] then []
    else
      var (key, value) := held[|held| - 1];
      TokensOf(held[..|held| - 1], w, name) + if key.wrapper == w && key.name == name then [value] else []
  }

  lemma {:induction false} WithoutTwice(p: set<string>, q: set<string>, items: seq<Json>)
    ensures Without(q, Without(p, items)) == Without(p + q, items)
  {
    if items != [] {
      WithoutTwice(p, q, items[..|items| - 1]);
      var last := items[|items| - 1];
      WithoutSnoc(q, Without(p, items[..|items| - 1]), last);
    }
  }

  lemma WithoutSnoc(prefixes: set<string>, items: seq<Json>, t: Json)
    ensures Without(prefixes, items + [t]) == Without(prefixes, items) + if IsHeld(prefixes, t) then [] else [t]
    ensures items + [] == items
  {
    assert (items + [t])[..|items|] == items;
  }

  lemma {:induction false} WithoutConcat(prefixes: set<string>, a: seq<Json>, b: seq<Json>)
    ensures Without(prefixes, a + b) == Without(prefixes, a) + Without(prefixes, b)
  {
    if b == [] {
      assert a + b == a;
      assert Without(prefixes, a) + [] == Without(prefixes, a);
    } else {
      assert (a + b)[..|a + b| - 1] == a + b[..|b| - 1];
      WithoutConcat(prefixes, a, b[..|b| - 1]);
    }
  }

  lemma {:induction false} WithoutAllOrNone(prefixes: set<string>, items: seq<Json>)
    ensures (forall t | t in items :: !IsHeld(prefixes, t)) ==> Without(prefixes, items) == items
    ensures (forall t | t in items :: IsHeld(prefixes, t)) ==> Without(prefixes, items) == []
  {
    if items != [] {
      WithoutAllOrNone(prefixes, items[..|items| - 1]);
      assert items == items[..|items| - 1] + [items[|items| - 1]];
    }
  }

  // Each held token has its own prefix, and that prefix is one of those held.
  lemma {:induction false} TokensHaveKeys(held: Staged, w: string, name: string)
    requires forall k | k in held && k.0.prefix.Some? :: TokenPrefix(k.1) == k.0.prefix
    requires forall k | k in held && k.0.wrapper == w && k.0.name == name :: k.0.prefix.Some?
    ensures forall t | t in TokensOf(held, w, name) ::
              IsHeld(PrefixesOf(held, w, name), t) && Lookup(held, Key(w, name, TokenPrefix(t))).Some?
  {
    if held != [] {
      var before := held[..|held| - 1];
      var last := held[|held| - 1];
      TokensHaveKeys(before, w, name);
      assert last in held;
      assert held == before + [last];
    }
  }

  lemma {:induction false} OverlayTokens(at: Option<Json>, held: Staged, w: string, name: string)
    requires Producible(held)
    requires forall k | k in held && k.0.wrapper == w && k.0.name == name :: k.0.prefix.Some?
    ensures Items(OverlayField(at, held, w, name)) ==
            Without(PrefixesOf(held, w, name), Items(at)) + TokensOf(held, w, name)
    ensures !NoKey(held, w, name) ==>
        OverlayField(at, held, w, name).Some? && OverlayField(at, held, w, name).value.JList?
  {
    if held == [] {
      WithoutAllOrNone({}, Items(at));
    } else {
      var before := held[..|held| - 1];
      var last := held[|held| - 1];
      ProduciblePrefix(held);
      OverlayTokens(at, before, w, name);
      if last.0.wrapper == w && last.0.name == name {
        OverlayTokensStep(Items(at), before, last, w, name);
      } else {
        var rest := Without(PrefixesOf(before, w, name), Items(at));
        assert PrefixesOf(held, w, name) == PrefixesOf(before, w, name);
        assert TokensOf(held, w, name) == TokensOf(before, w, name);
      }
    }
  }

  lemma ProduciblePrefix(held: Staged)
    requires Producible(held) && held != []
    ensures Producible(held[..|held| - 1]) && Lookup(held[..|held| - 1], held[|held| - 1].0).None?
    ensures held[|held| - 1] in held
  {
    DistinctPrefix(held);
  }

  lemma OverlayTokensStep(items: seq<Json>, before: Staged, last: (Key, Json), w: string, name: string)
    requires Producible(before) && last.0.wrapper == w && last.0.name == name && last.0.prefix.Some?
    requires forall k | k in before && k.0.wrapper == w && k.0.name == name :: k.0.prefix.Some?
    requires Lookup(before, last.0).None?
    ensures var p := PrefixesOf(before, w, name);
      var tokens := TokensOf(before, w, name);
      Without({last.0.prefix.value}, Without(p, items) + tokens) + [last.1] ==
      Without(p + {last.0.prefix.value}, items) + (tokens + [last.1])
  {
    var p := PrefixesOf(before, w, name);
    var q := {last.0.prefix.value};
    var tokens := TokensOf(before, w, name);
    WithoutConcat(q, Without(p, items), tokens);
    WithoutTwice(p, q, items);
    TokensHaveKeys(before, w, name);
    forall t | t in tokens ensures !IsHeld(q, t) {
      assert Lookup(before, Key(w, name, TokenPrefix(t))).Some?;
    }
    WithoutAllOrNone(q, tokens);
    Assoc(Without(p + q, items), tokens, [last.1]);
  }

  lemma {:induction false} OverlayNoKey(at: Option<Json>, held: Staged, w: string, name: string)
    requires NoKey(held, w, name)
    ensures OverlayField(at, held, w, name) == at && PrefixesOf(held, w, name) == {} && TokensOf(held, w, name) == []
  {
    if held != [] { OverlayNoKey(at, held[..|held| - 1], w, name); }
  }

  lemma {:induction false} OverlayPlain(at: Option<Json>, held: Staged, w: string, name: string)
    requires forall k | k in held && k.0.wrapper == w && k.0.name == name :: k.0.prefix.None?
    requires !NoKey(held, w, name)
    ensures OverlayField(OverlayField(at, held, w, name), held, w, name) == OverlayField(at, held, w, name)
  {
    LastPlain(at, held, w, name);
    LastPlain(OverlayField(at, held, w, name), held, w, name);
  }

  function PlainOf(held: Staged, w: string, name: string): Option<Json> {
    if held == [] then None
    else if held[|held| - 1].0.wrapper == w && held[|held| - 1].0.name == name then Some(held[|held| - 1].1)
    else PlainOf(held[..|held| - 1], w, name)
  }

  lemma {:induction false} LastPlain(at: Option<Json>, held: Staged, w: string, name: string)
    requires forall k | k in held && k.0.wrapper == w && k.0.name == name :: k.0.prefix.None?
    requires !NoKey(held, w, name)
    ensures OverlayField(at, held, w, name) == PlainOf(held, w, name)
  {
    var before := held[..|held| - 1];
    var last := held[|held| - 1];
    assert held == before + [last];
    if last.0.wrapper == w && last.0.name == name {
      assert last in held;
    } else {
      LastPlain(at, before, w, name);
    }
  }

  lemma OverlayFieldTwice(at: Option<Json>, held: Staged, w: string, name: string)
    requires Producible(held)
    ensures OverlayField(OverlayField(at, held, w, name), held, w, name) == OverlayField(at, held, w, name)
  {
    if NoKey(held, w, name) {
      OverlayNoKey(at, held, w, name);
    } else {
      var k :| k in held && k.0.wrapper == w && k.0.name == name;
      if k.0.prefix.None? {
        OverlayPlain(at, held, w, name);
      } else {
        OverlayTokensTwice(at, held, w, name);
      }
    }
  }

  lemma OverlayTokensTwice(at: Option<Json>, held: Staged, w: string, name: string)
    requires Producible(held) && !NoKey(held, w, name)
    requires forall k | k in held && k.0.wrapper == w && k.0.name == name :: k.0.prefix.Some?
    ensures OverlayField(OverlayField(at, held, w, name), held, w, name) == OverlayField(at, held, w, name)
  {
    var once := OverlayField(at, held, w, name);
    var p := PrefixesOf(held, w, name);
    var rest := Without(p, Items(at));
    var tokens := TokensOf(held, w, name);
    OverlayTokens(at, held, w, name);
    OverlayTokens(once, held, w, name);
    WithoutConcat(p, rest, tokens);
    WithoutTwice(p, p, Items(at));
    assert p + p == p;
    TokensHaveKeys(held, w, name);
    WithoutAllOrNone(p, tokens);
    assert Without(p, rest + tokens) == rest;
  }

  /** Laying the same held values over a read twice reads as laying them over once, token order
      included. */
  lemma OverlayTwice(bodies: Body, held: Staged, w: string, name: string)
    requires Producible(held)
    ensures var once := Overlaid(bodies, held);
      var twice := Overlaid(once, held);
      && (IsWrapper(twice, w) <==> IsWrapper(once, w))
      && (!IsWrapper(once, w) ==> Lookup(twice, w) == Lookup(once, w))
      && FieldAt(twice, w, name) == FieldAt(once, w, name)
  {
    OverlaidAt(bodies, held, w, name);
    OverlaidAt(Overlaid(bodies, held), held, w, name);
    OverlayFieldTwice(FieldAt(bodies, w, name), held, w, name);
  }

  // ---------------------------------------------------------------------
  // What a split can produce
  // ---------------------------------------------------------------------

  lemma {:induction false} DictOfDistinct<K, V>(pairs: seq<(K, V)>)
    ensures Distinct(DictOf(pairs))
  {
    if pairs != [] {
      DictOfDistinct(pairs[..|pairs| - 1]);
      PutLookup(DictOf(pairs[..|pairs| - 1]), pairs[|pairs| - 1].0, pairs[|pairs| - 1].1, pairs[|pairs| - 1].0);
    }
  }

  lemma DistinctConcat<K, V>(a: seq<(K, V)>, b: seq<(K, V)>)
    requires Distinct(a) && Distinct(b) && forall k | k in b :: Lookup(a, k.0).None?
    ensures Distinct(a + b)
  {
    forall i, j | 0 <= i < j < |a + b| ensures (a + b)[i].0 != (a + b)[j].0 {
      if i < |a| && |a| <= j { assert b[j - |a|] in b; }
    }
  }

  lemma {:induction false} FieldsHeldDistinct(w: string, startOnly: set<string>, fields: Body)
    requires Distinct(fields)
    ensures Distinct(FieldsHeld(w, startOnly, fields))
  {
    if fields != [] {
      var before := fields[..|fields| - 1];
      var (name, value) := fields[|fields| - 1];
      DistinctPrefix(fields);
      FieldsHeldDistinct(w, startOnly, before);
      DictOfDistinct(TokenPairs(w, name, startOnly, if value.JList? then value.items else []));
      FieldsHeldKeys(w, startOnly, before);
      FieldHeldKeys(w, startOnly, name, value);
      DistinctConcat(FieldsHeld(w, startOnly, before), FieldHeld(w, startOnly, name, value));
    }
  }

  lemma {:induction false} HeldOfDistinct(table: Table, body: Body)
    requires IsBody(body)
    ensures Distinct(HeldOf(table, body))
  {
    if body != [] {
      var before := body[..|body| - 1];
      var (w, value) := body[|body| - 1];
      IsBodyPrefix(body);
      HeldOfDistinct(table, before);
      HeldOfKeys(table, before);
      if value.JObj? {
        FieldsHeldDistinct(w, StartOnlyOf(table, w), value.fields);
        FieldsHeldKeys(w, StartOnlyOf(table, w), value.fields);
        DistinctConcat(HeldOf(table, before), FieldsHeld(w, StartOnlyOf(table, w), value.fields));
      }
    }
  }

  /** Every key set a split produces satisfies what the overlay laws ask, and two splits over one
      table never disagree on whether a field is held plain or by token. */
  lemma SplitIsProducible(table: Table, body: Body, later: Body)
    requires IsBody(body) && IsBody(later)
    ensures Producible(HeldOf(table, body))
    ensures forall k | k in HeldOf(table, later) :: FitsBeside(HeldOf(table, body), k.0)
  {
    HeldOfDistinct(table, body);
    HeldOfKeys(table, body);
    HeldOfKeys(table, later);
  }
}
