/**
 The CoAP messages the plaintext probe sends and reads: the option format of section 3.1 of
 RFC 7252 with its extended deltas and lengths, and the Block2 option of RFC 7959.
 */
module CoapCodec {
  import opened Options
  import opened Seqs

  type Byte = b: int | 0 <= b < 256

  type Bytes = seq<Byte>

  const PAYLOAD_MARKER: Byte := 0xFF

  const URI_PATH := 11
  const URI_QUERY := 15
  const ACCEPT := 17
  const BLOCK2 := 23
  const OCF_VERSION := 2049

  // The largest delta or length the extended forms can carry.
  const MAX_EXTENDED := 65804

  function Pack16(n: int): Bytes
    requires 0 <= n < 65536
  {
    [n / 256, n % 256]
  }

  // ---------------------------------------------------------------------
  // One option
  // ---------------------------------------------------------------------

  // The nibble for a number and the bytes that extend it.
  function Nibble(n: int): int
    requires 0 <= n
  {
    if n < 13 then n else if n < 269 then 13 else 14
  }

  function Extension(n: int): Bytes
    requires 0 <= n <= MAX_EXTENDED
  {
    if n < 13 then [] else if n < 269 then [n - 13] else Pack16(n - 269)
  }

  // None where building it raises: a descending number, or a value the forms cannot carry.
  function EncodeOption(delta: int, value: Bytes): Option<Bytes> {
    if 0 <= delta <= MAX_EXTENDED && |value| <= MAX_EXTENDED then
      Some([Nibble(delta) * 16 + Nibble(|value|)] + Extension(delta) + Extension(|value|) + value)
    else None
  }

  // A number read off the front and what follows it.
  datatype Number = Number(value: int, rest: Bytes)

  // What a nibble and the bytes after it spell; None when they are cut short.
  function ReadExtended(nibble: int, s: Bytes): (r: Option<Number>)
    ensures r.Some? ==> |r.value.rest| <= |s|
    ensures r.Some? && nibble >= 0 ==> r.value.value >= 0
  {
    if nibble == 13 then (if |s| < 1 then None else Some(Number(13 + s[0] as int, s[1..])))
    else if nibble == 14 then (if |s| < 2 then None else Some(Number(269 + 256 * s[0] as int + s[1] as int, s[2..])))
    else Some(Number(nibble, s))
  }

  function Min(a: int, b: int): int {
    if a < b then a else b
  }

  // One option off the front: its distance, its value and what follows.
  datatype Front = Front(delta: int, value: Bytes, rest: Bytes)

  // None when an extended form is cut short; a value cut short is kept as far as it goes.
  function ReadOption(s: Bytes): (r: Option<Front>)
    requires s != []
    ensures r.Some? ==> |r.value.rest| < |s|
  {
    var delta := ReadExtended(s[0] / 16, s[1..]);
    if delta.None? then None
    else
      var length := ReadExtended(s[0] % 16, delta.value.rest);
      if length.None? then None
      else
        var rest := length.value.rest;
        var cut := Min(length.value.value, |rest|);
        Some(Front(delta.value.value, rest[..cut], rest[cut..]))
  }

  lemma ExtendedRoundTrip(n: int, rest: Bytes)
    requires 0 <= n <= MAX_EXTENDED
    ensures 0 <= Nibble(n) <= 14
    ensures ReadExtended(Nibble(n), Extension(n) + rest) == Some(Number(n, rest))
  {
    var s := Extension(n) + rest;
    if n >= 269 {
      assert s[2..] == rest;
    } else if n >= 13 {
      assert s[1..] == rest;
    } else {
      assert s == rest;
    }
  }

  lemma NibblesApart(a: int, b: int)
    requires 0 <= a <= 14 && 0 <= b <= 14
    ensures 0 <= a * 16 + b < 255 && (a * 16 + b) / 16 == a && (a * 16 + b) % 16 == b
  {
  }

  // An option is its header byte and, in order, what each of its parts reads.
  lemma OptionFromParts(s: Bytes, delta: int, length: int, afterDelta: Bytes, afterLength: Bytes)
    requires s != [] && 0 <= length <= |afterLength|
    requires ReadExtended(s[0] as int / 16, s[1..]) == Some(Number(delta, afterDelta))
    requires ReadExtended(s[0] as int % 16, afterDelta) == Some(Number(length, afterLength))
    ensures ReadOption(s) == Some(Front(delta, afterLength[..length], afterLength[length..]))
  {
  }

  lemma AfterHeader<T>(h: T, d: seq<T>, l: seq<T>, v: seq<T>, rest: seq<T>)
    ensures var s := ([h] + d + l + v) + rest;
      s[0] == h && s[1..] == d + (l + (v + rest))
  {
  }

  /** An encoded option reads back as itself, whatever follows it, and never begins with the
      payload marker. */
  lemma OptionRoundTrip(delta: int, value: Bytes, rest: Bytes)
    requires EncodeOption(delta, value).Some?
    ensures var o := EncodeOption(delta, value).value;
      && o != [] && o[0] != PAYLOAD_MARKER
      && ReadOption(o + rest) == Some(Front(delta, value, rest))
  {
    var s := EncodeOption(delta, value).value + rest;
    var afterLength := value + rest;
    var afterDelta := Extension(|value|) + afterLength;
    ExtendedRoundTrip(delta, afterDelta);
    ExtendedRoundTrip(|value|, afterLength);
    NibblesApart(Nibble(delta), Nibble(|value|));
    AfterHeader<Byte>(Nibble(delta) * 16 + Nibble(|value|), Extension(delta), Extension(|value|), value, rest);
    OptionFromParts(s, delta, |value|, afterDelta, afterLength);
    assert afterLength[..|value|] == value && afterLength[|value|..] == rest;
  }

  // What a nibble and its extension bytes mean, in the words of section 3.1 of RFC 7252.
  predicate Spells(nibble: int, extension: Bytes, n: int) {
    || (0 <= nibble <= 12 && extension == [] && n == nibble)
    || (nibble == 13 && |extension| == 1 && n == extension[0] as int + 13)
    || (nibble == 14 && |extension| == 2 && n == extension[0] as int * 256 + extension[1] as int + 269)
  }

  /** An option is one byte of two nibbles, the bytes that extend each, and its value; it is built
      exactly for a distance and a value length up to 65804. */
  lemma OptionLayout(delta: int, value: Bytes)
    ensures var o := EncodeOption(delta, value);
      && (o.Some? <==> 0 <= delta <= 65804 && |value| <= 65804)
      && (o.Some? ==>
            var d, l := Extension(delta), Extension(|value|);
            && o.value[1..] == d + l + value
            && Spells(o.value[0] as int / 16, d, delta) && Spells(o.value[0] as int % 16, l, |value|))
  {
    if EncodeOption(delta, value).Some? {
      NibblesApart(Nibble(delta), Nibble(|value|));
      AfterHeader<Byte>(Nibble(delta) * 16 + Nibble(|value|), Extension(delta), Extension(|value|), value, []);
      var o := EncodeOption(delta, value).value;
      assert o + [] == o && value + [] == value;
      Assoc(Extension(delta), Extension(|value|), value);
    }
  }

  /** A nibble is read with as many bytes as it announces, and not at all when they are cut short; 15,
      which announces none, stands for itself. */
  lemma ExtendedReads(nibble: int, s: Bytes)
    requires 0 <= nibble <= 15
    ensures var r := ReadExtended(nibble, s);
      && (r.None? <==> (nibble == 13 && |s| < 1) || (nibble == 14 && |s| < 2))
      && (r.Some? && nibble < 15 ==>
            var n := |s| - |r.value.rest|; r.value.rest == s[n..] && Spells(nibble, s[..n], r.value.value))
      && (nibble == 15 ==> r == Some(Number(15, s)))
  {
    if nibble == 13 && |s| >= 1 { assert s[..1][0] == s[0]; }
    if nibble == 14 && |s| >= 2 { assert s[..2][0] == s[0] && s[..2][1] == s[1]; }
  }

  // ---------------------------------------------------------------------
  // Messages
  // ---------------------------------------------------------------------

  type OptionList = seq<(int, Bytes)>

  // The options of a message, each number coded as its distance from the last.
  function EncodeOptions(options: OptionList, last: int): Option<Bytes>
    decreases |options|
  {
    if options == [] then Some([])
    else
      var first := EncodeOption(options[0].0 - last, options[0].1);
      var rest := EncodeOptions(options[1..], options[0].0);
      if first.None? || rest.None? then None else Some(first.value + rest.value)
  }

  // A number that comes again overwrites.
  function Overwritten(options: OptionList, before: map<int, Bytes>): map<int, Bytes>
    decreases |options|
  {
    if options == [] then before else Overwritten(options[1..], before[options[0].0 := options[0].1])
  }

  function LastNumber(options: OptionList, last: int): int {
    if options == [] then last else options[|options| - 1].0
  }

  // Options and payload of what follows the token; None when an extended form is cut short.
  function ParseRest(s: Bytes, number: int, options: map<int, Bytes>): Option<(map<int, Bytes>, Bytes)>
    decreases |s|
  {
    if s == [] then Some((options, []))
    else if s[0] == PAYLOAD_MARKER then Some((options, s[1..]))
    else
      var o := ReadOption(s);
      if o.None? then None
      else ParseRest(o.value.rest, number + o.value.delta, options[number + o.value.delta := o.value.value])
  }

  // What a payload looks like on the wire: nothing, or the marker and the bytes.
  function Tail(payload: Option<Bytes>): Bytes {
    if payload.None? then [] else [PAYLOAD_MARKER] + payload.value
  }

  // How far reading has got: what is left, the last number, the options so far.
  datatype Reading = Reading(rest: Bytes, number: int, options: map<int, Bytes>)

  // Reading from either place comes to the same.
  ghost predicate SameRead(a: Reading, b: Reading) {
    ParseRest(a.rest, a.number, a.options) == ParseRest(b.rest, b.number, b.options)
  }

  lemma ParseStep(before: Reading, delta: int, value: Bytes, rest: Bytes)
    requires before.rest != [] && before.rest[0] != PAYLOAD_MARKER
    requires ReadOption(before.rest) == Some(Front(delta, value, rest))
    ensures SameRead(before, Reading(rest, before.number + delta, before.options[before.number + delta := value]))
  {
  }

  lemma ParseOne(delta: int, value: Bytes, rest: Bytes, number: int, before: map<int, Bytes>)
    requires EncodeOption(delta, value).Some?
    ensures SameRead(Reading(EncodeOption(delta, value).value + rest, number, before),
                     Reading(rest, number + delta, before[number + delta := value]))
  {
    OptionRoundTrip(delta, value, rest);
    ParseStep(Reading(EncodeOption(delta, value).value + rest, number, before), delta, value, rest);
  }

  lemma SameReadTwice(a: Reading, b: Reading, c: Reading)
    requires SameRead(a, b) && SameRead(b, c)
    ensures SameRead(a, c)
  {
  }

  lemma {:induction false} OptionsRoundTrip(options: OptionList, last: int, before: map<int, Bytes>, tail: Bytes)
    requires EncodeOptions(options, last).Some?
    ensures SameRead(Reading(EncodeOptions(options, last).value + tail, last, before),
                     Reading(tail, LastNumber(options, last), Overwritten(options, before)))
    decreases |options|
  {
    if options == [] {
      assert EncodeOptions(options, last).value + tail == tail;
    } else {
      var (number, value) := options[0];
      var rest := EncodeOptions(options[1..], number).value + tail;
      var after := before[number := value];
      ParseOne(number - last, value, rest, last, before);
      OptionsRoundTrip(options[1..], number, after, tail);
      EncodeCons(options, last, tail);
      SameReadTwice(Reading(EncodeOption(number - last, value).value + rest, last, before),
        Reading(rest, number, after),
                    Reading(tail, LastNumber(options[1..], number), Overwritten(options[1..], after)));
    }
  }

  lemma EncodeCons(options: OptionList, last: int, tail: Bytes)
    requires options != [] && EncodeOptions(options, last).Some?
    ensures EncodeOptions(options, last).value + tail ==
            EncodeOption(options[0].0 - last, options[0].1).value +
              (EncodeOptions(options[1..], options[0].0).value + tail)
    ensures LastNumber(options, last) == LastNumber(options[1..], options[0].0)
  {
    Assoc(EncodeOption(options[0].0 - last, options[0].1).value, EncodeOptions(options[1..], options[0].0).value, tail);
  }

  datatype Header = Header(confirmable: bool, code: Byte, messageId: int)

  datatype Message = Message(header: Header, token: Bytes, options: OptionList, payload: Option<Bytes>)

  predicate IsHeader(h: Header) {
    0 <= h.messageId < 65536
  }

  // The message type is zero for confirmable, one for not; None when building the message raises.
  function EncodeMessage(m: Message): Option<Bytes>
    requires IsHeader(m.header) && |m.token| <= 8
  {
    var options := EncodeOptions(m.options, 0);
    if options.None? then None
    else
      Some([64 + (if m.header.confirmable then 0 else 16) + |m.token|, m.header.code]
           + Pack16(m.header.messageId) + m.token + options.value + Tail(m.payload))
  }

  datatype Response = Response(code: Byte, token: Bytes, options: map<int, Bytes>, payload: Bytes)

  function Drop(s: Bytes, n: nat): Bytes {
    if n <= |s| then s[n..] else []
  }

  function Parsed(datagram: Bytes): Option<Response> {
    if |datagram| < 4 then None
    else
      var size := datagram[0] % 16;
      var rest := ParseRest(Drop(datagram, 4 + size), 0, map[]);
      if rest.None? then None
      else Some(Response(datagram[1], datagram[4..Min(4 + size, |datagram|)], rest.value.0, rest.value.1))
  }

  // What reading a number came to: its value and what is left, or nothing.
  ghost predicate NumberRead(nibble: int, s: Bytes, ok: bool, value: int, rest: Bytes) {
    ReadExtended(nibble, s) == if ok then Some(Number(value, rest)) else None
  }

  // The number a nibble at `offset - 1` spells with the bytes from `offset` on.
  method ReadNumber(datagram: Bytes, nibble: int, offset: nat) returns (ok: bool, value: int, next: nat)
    requires 0 <= nibble < 16 && offset <= |datagram|
    ensures offset <= next <= |datagram| && NumberRead(nibble, datagram[offset..], ok, value, datagram[next..])
  {
    ok, value, next := true, nibble, offset;
    if nibble == 13 {
      if offset >= |datagram| {
        ok := false;
        return;
      }
      value := 13 + datagram[offset] as int;
      next := offset + 1;
    } else if nibble == 14 {
      if offset + 2 > |datagram| {
        ok := false;
        return;
      }
      value := 269 + 256 * datagram[offset] as int + datagram[offset + 1] as int;
      next := offset + 2;
    }
  }

  // What reading an option came to.
  ghost predicate OptionReadAs(s: Bytes, ok: bool, delta: int, value: Bytes, rest: Bytes) {
    s != [] && ReadOption(s) == if ok then Some(Front(delta, value, rest)) else None
  }

  // The option at `at`: its distance and value, and where the next one is.
  method ReadOptionAt(datagram: Bytes, at: nat) returns (ok: bool, delta: int, value: Bytes, next: nat)
    requires at < |datagram|
    ensures OptionReadAs(datagram[at..], ok, delta, value, Drop(datagram, next)) && (ok ==> at < next)
  {
    var high: int, low: int := datagram[at] / 16, datagram[at] % 16;
    var offset, length, after;
    value, next := [], at;
    ok, delta, offset := ReadNumber(datagram, high, at + 1);
    if !ok {
      NoDelta(datagram, at, delta, offset);
      return;
    }
    ok, length, after := ReadNumber(datagram, low, offset);
    if !ok {
      NoLength(datagram, at, delta, offset, length, after);
      return;
    }
    OptionAt(datagram, at, delta, offset, length, after);
    value := datagram[after..Min(after + length, |datagram|)];
    next := after + length;
  }

  lemma NoDelta(datagram: Bytes, at: nat, delta: int, offset: nat)
    requires at < |datagram| && offset <= |datagram|
    requires NumberRead(datagram[at] as int / 16, datagram[at + 1..], false, delta, datagram[offset..])
    ensures OptionReadAs(datagram[at..], false, delta, [], [])
  {
    assert datagram[at..][1..] == datagram[at + 1..];
  }

  lemma NoLength(datagram: Bytes, at: nat, delta: int, offset: nat, length: int, after: nat)
    requires at < |datagram| && offset <= |datagram| && after <= |datagram|
    requires NumberRead(datagram[at] as int / 16, datagram[at + 1..], true, delta, datagram[offset..])
    requires NumberRead(datagram[at] as int % 16, datagram[offset..], false, length, datagram[after..])
    ensures OptionReadAs(datagram[at..], false, delta, [], [])
  {
    assert datagram[at..][1..] == datagram[at + 1..];
  }

  // An option read in place.
  lemma OptionAt(datagram: Bytes, at: nat, delta: int, offset: nat, length: int, after: nat)
    requires at < offset <= after <= |datagram|
    requires NumberRead(datagram[at] as int / 16, datagram[at + 1..], true, delta, datagram[offset..])
    requires NumberRead(datagram[at] as int % 16, datagram[offset..], true, length, datagram[after..])
    ensures length >= 0
    ensures OptionReadAs(datagram[at..], true, delta, datagram[after..Min(after + length, |datagram|)],
                         Drop(datagram, after + length))
  {
    var s := datagram[at..];
    var rest := datagram[after..];
    var cut := Min(length, |rest|);
    assert s[1..] == datagram[at + 1..] && s[0] == datagram[at];
    assert rest[..cut] == datagram[after..Min(after + length, |datagram|)];
    assert rest[cut..] == Drop(datagram, after + length);
  }

  /** A datagram's code, token, options and payload; None where reading it raises. */
  method ParseResponse(datagram: Bytes) returns (r: Option<Response>)
    ensures r == Parsed(datagram)
    ensures |datagram| < 4 ==> r.None?
  {
    if |datagram| < 4 {
      return None;
    }
    var offset: int := 4 + datagram[0] as int % 16;
    var token := datagram[4..Min(offset, |datagram|)];
    var ok, options, payload := ParseOptions(datagram, offset);
    if !ok {
      return None;
    }
    return Some(Response(datagram[1], token, options, payload));
  }

  // Where the options begin.
  ghost function Start(datagram: Bytes, start: nat): Reading {
    Reading(Drop(datagram, start), 0, map[])
  }

  method ParseOptions(datagram: Bytes, start: nat) returns (ok: bool, options: map<int, Bytes>, payload: Bytes)
    ensures ParseRest(Drop(datagram, start), 0, map[]) == if ok then Some((options, payload)) else None
  {
    options, payload := map[], [];
    var offset := start;
    var number := 0;
    while offset < |datagram| && datagram[offset] != PAYLOAD_MARKER
      invariant SameRead(Start(datagram, start), Reading(Drop(datagram, offset), number, options))
      decreases |datagram| - offset
    {
      ok, number, options, offset := NextOption(datagram, offset, number, options, Start(datagram, start));
      if !ok {
        return;
      }
    }
    payload := if offset < |datagram| then datagram[offset + 1..] else [];
    ok := true;
    ParseEnd(Reading(Drop(datagram, offset), number, options), payload);
  }

  method NextOption(datagram: Bytes, at: nat, number: int, options: map<int, Bytes>, ghost start: Reading)
    returns (ok: bool, number1: int, options1: map<int, Bytes>, next: nat)
    requires at < |datagram| && datagram[at] != PAYLOAD_MARKER
    requires SameRead(start, Reading(Drop(datagram, at), number, options))
    ensures ok ==> at < next && SameRead(start, Reading(Drop(datagram, next), number1, options1))
    ensures !ok ==> ParseRest(start.rest, start.number, start.options).None?
  {
    var delta, value;
    ok, delta, value, next := ReadOptionAt(datagram, at);
    number1 := number + delta;
    options1 := options[number1 := value];
    OptionTaken(start, datagram, at, number, options, ok, delta, value, next);
  }

  lemma OptionTaken(start: Reading, datagram: Bytes, at: nat, number: int, options: map<int, Bytes>,
                    ok: bool, delta: int, value: Bytes, next: nat)
    requires at < |datagram| && datagram[at] != PAYLOAD_MARKER
    requires SameRead(start, Reading(Drop(datagram, at), number, options))
    requires OptionReadAs(datagram[at..], ok, delta, value, Drop(datagram, next))
    ensures ok ==> SameRead(start, Reading(Drop(datagram, next), number + delta, options[number + delta := value]))
    ensures !ok ==> ParseRest(start.rest, start.number, start.options).None?
  {
    OptionRead(start, Reading(Drop(datagram, at), number, options), ok, delta, value, Drop(datagram, next));
  }

  lemma OptionRead(start: Reading, before: Reading, ok: bool, delta: int, value: Bytes, rest: Bytes)
    requires SameRead(start, before) && before.rest != [] && before.rest[0] != PAYLOAD_MARKER
    requires ok <==> ReadOption(before.rest).Some?
    requires ok ==> ReadOption(before.rest) == Some(Front(delta, value, rest))
    ensures ok ==> SameRead(start, Reading(rest, before.number + delta, before.options[before.number + delta := value]))
    ensures !ok ==> ParseRest(start.rest, start.number, start.options).None?
  {
    if ok {
      ParseStep(before, delta, value, rest);
      var number := before.number + delta;
      SameReadTwice(start, before, Reading(rest, number, before.options[number := value]));
    } else {
      ParseCut(before);
    }
  }

  lemma ParseCut(before: Reading)
    requires before.rest != [] && before.rest[0] != PAYLOAD_MARKER && ReadOption(before.rest).None?
    ensures ParseRest(before.rest, before.number, before.options).None?
  {
  }

  lemma ParseEnd(before: Reading, payload: Bytes)
    requires before.rest == [] ==> payload == []
    requires before.rest != [] ==> before.rest[0] == PAYLOAD_MARKER && payload == before.rest[1..]
    ensures ParseRest(before.rest, before.number, before.options) == Some((before.options, payload))
  {
  }

  /** Parsing an encoded message recovers its code, token and payload and the last value of each
      option number, every byte accounted for; it encodes exactly when its option numbers do not
      descend and no distance or value is longer than the extended forms carry. */
  lemma MessageRoundTrip(m: Message)
    requires IsHeader(m.header) && |m.token| <= 8
    ensures EncodeMessage(m).Some? <==> Encodable(m.options, 0)
    ensures EncodeMessage(m).Some? ==>
              Parsed(EncodeMessage(m).value) ==
              Some(Response(m.header.code, m.token, Overwritten(m.options, map[]),
                            if m.payload.Some? then m.payload.value else []))
  {
    EncodableIff(m.options, 0);
    if EncodeMessage(m).Some? {
      MessageLayout(m);
      OptionsRoundTrip(m.options, 0, map[], Tail(m.payload));
      TailParses(m.payload, LastNumber(m.options, 0), Overwritten(m.options, map[]));
    }
  }

  lemma TailParses(payload: Option<Bytes>, number: int, options: map<int, Bytes>)
    ensures ParseRest(Tail(payload), number, options) == Some((options, if payload.Some? then payload.value else []))
  {
  }

  /** Where the parts of an encoded message lie: version 1, type and token length, the code, the
      message id, the token, the options, and the payload behind its marker. */
  lemma MessageLayout(m: Message)
    requires IsHeader(m.header) && |m.token| <= 8 && EncodeMessage(m).Some?
    ensures var d := EncodeMessage(m).value;
      && |d| >= 4 + |m.token| && d[0] as int % 16 == |m.token| && d[1] == m.header.code
      && d[0] as int / 16 == (if m.header.confirmable then 4 else 5)
      && d[2] as int * 256 + d[3] as int == m.header.messageId
      && d[4..4 + |m.token|] == m.token
      && Drop(d, 4 + |m.token|) == EncodeOptions(m.options, 0).value + Tail(m.payload)
  {
    var d := EncodeMessage(m).value;
    var rest := EncodeOptions(m.options, 0).value + Tail(m.payload);
    MessageHead(m);
    Parted(d[..4], m.token, rest, d);
  }

  lemma Parted<T>(head: seq<T>, token: seq<T>, rest: seq<T>, d: seq<T>)
    requires d == head + token + rest
    ensures |d| >= |head| + |token| && d[|head|..|head| + |token|] == token && d[|head| + |token|..] == rest
  {
  }

  /** A payload is all that follows its marker, and without one nothing follows the options. */
  lemma TailIs(payload: Option<Bytes>)
    ensures payload.None? ==> Tail(payload) == []
    ensures payload.Some? ==> Tail(payload) == [255] + payload.value
  {
  }

  lemma MessageHead(m: Message)
    requires IsHeader(m.header) && |m.token| <= 8 && EncodeMessage(m).Some?
    ensures var d := EncodeMessage(m).value;
      && |d| >= 4 && d[0] as int == (if m.header.confirmable then 64 else 80) + |m.token| && d[1] == m.header.code
      && d[2] as int == m.header.messageId / 256 && d[3] as int == m.header.messageId % 256
      && d == d[..4] + m.token + (EncodeOptions(m.options, 0).value + Tail(m.payload))
  {
    var d := EncodeMessage(m).value;
    var head: Bytes := [64 + (if m.header.confirmable then 0 else 16) + |m.token|, m.header.code]
                       + Pack16(m.header.messageId);
    assert |head| == 4;
    Assoc(head + m.token, EncodeOptions(m.options, 0).value, Tail(m.payload));
    assert d[..4] == head;
  }

  // One option the forms can carry after number `last`.
  predicate Carries(last: int, o: (int, Bytes)) {
    0 <= o.0 - last <= MAX_EXTENDED && |o.1| <= MAX_EXTENDED
  }

  function Prior(options: OptionList, last: int, i: nat): int
    requires i < |options|
  {
    if i == 0 then last else options[i - 1].0
  }

  ghost predicate Encodable(options: OptionList, last: int) {
    forall i | 0 <= i < |options| :: Carries(Prior(options, last, i), options[i])
  }

  lemma {:induction false} EncodableIff(options: OptionList, last: int)
    ensures EncodeOptions(options, last).Some? <==> Encodable(options, last)
    decreases |options|
  {
    if options != [] {
      EncodableIff(options[1..], options[0].0);
      EncodableCons(options, last);
    }
  }

  lemma EncodableCons(options: OptionList, last: int)
    requires options != []
    ensures Encodable(options, last) <==> Carries(last, options[0]) && Encodable(options[1..], options[0].0)
  {
    var rest := options[1..];
    assert forall i | 0 <= i < |rest| ::
             Prior(rest, options[0].0, i) == Prior(options, last, i + 1) && rest[i] == options[i + 1];
    if Encodable(options, last) {
      assert Carries(Prior(options, last, 0), options[0]);
    }
    if Carries(last, options[0]) && Encodable(rest, options[0].0) {
      forall i | 0 <= i < |options| ensures Carries(Prior(options, last, i), options[i]) {
        if i > 0 { assert Carries(Prior(rest, options[0].0, i - 1), rest[i - 1]); }
      }
    }
  }

  // ---------------------------------------------------------------------
  // The probe's request
  // ---------------------------------------------------------------------

  function AcceptValue(ocf: bool): Bytes {
    if ocf then Pack16(10000) else [60]
  }

  // None where the block number does not fit its two bytes.
  function Block2Value(num: nat): Option<Bytes> {
    var packed := num * 16 + 6;
    if packed < 256 then Some([packed]) else if packed < 65536 then Some(Pack16(packed)) else None
  }

  // What a request asks for: a resource, perhaps a query, perhaps one block.
  datatype Ask = Ask(path: seq<Bytes>, query: Option<Bytes>, ocf: bool, block: Option<nat>)

  function PathOptions(path: seq<Bytes>): OptionList {
    seq(|path|, i requires 0 <= i < |path| => (URI_PATH, path[i]))
  }

  function Optional(number: int, value: Option<Bytes>): OptionList {
    if value.Some? then [(number, value.value)] else []
  }

  function BlockOption(block: Option<nat>): Option<Bytes> {
    if block.Some? then Block2Value(block.value) else None
  }

  function AskOptions(a: Ask): OptionList {
    PathOptions(a.path) + (Optional(URI_QUERY, a.query) + ([(ACCEPT, AcceptValue(a.ocf))]
    + (Optional(BLOCK2, BlockOption(a.block)) + Optional(OCF_VERSION, if a.ocf then Some(Pack16(2048)) else None))))
  }

  /** The request as bytes, options added one by one; None where building it raises. */
  method BuildGet(h: Header, token: Bytes, a: Ask) returns (r: Option<Bytes>)
    requires IsHeader(h) && h.code == 1 && |token| <= 8
    ensures r == if a.block.Some? && Block2Value(a.block.value).None? then None
                 else EncodeMessage(Message(h, token, AskOptions(a), None))
  {
    if a.block.Some? && Block2Value(a.block.value).None? {
      return None;
    }
    var options := BuildOptions(a);
    if options.None? {
      return None;
    }
    r := Some([64 + (if h.confirmable then 0 else 16) + |token|, h.code] + Pack16(h.messageId) + token + options.value);
    assert r.value == r.value + [];
  }

  method BuildOptions(a: Ask) returns (options: Option<Bytes>)
    ensures options == EncodeOptions(AskOptions(a), 0)
  {
    var last;
    ghost var p, q, r, s, t;
    options, last, p := BuildPath(a.path);
    options, last, q := AppendOptional(options, last, URI_QUERY, a.query, p);
    options, last, r := AppendOptional(options, last, ACCEPT, Some(AcceptValue(a.ocf)), q);
    options, last, s := AppendOptional(options, last, BLOCK2, BlockOption(a.block), r);
    options, last, t := AppendOptional(options, last, OCF_VERSION, if a.ocf then Some(Pack16(2048)) else None, s);
    AskIs(a, p, q, r, s, t);
  }

  method BuildPath(path: seq<Bytes>) returns (options: Option<Bytes>, last: int, ghost soFar: OptionList)
    ensures soFar == PathOptions(path) && Encoded(soFar, options, last)
  {
    last, options, soFar := 0, Some([]), [];
    for i := 0 to |path|
      invariant Encoded(soFar, options, last) && soFar == PathOptions(path)[..i]
    {
      assert PathOptions(path)[..i + 1] == PathOptions(path)[..i] + [(URI_PATH, path[i])];
      options, last, soFar := Append(options, last, URI_PATH, path[i], soFar);
    }
    assert PathOptions(path)[..|path|] == PathOptions(path);
  }

  method AppendOptional(bytes: Option<Bytes>, last: int, number: int, value: Option<Bytes>, ghost options: OptionList)
    returns (more: Option<Bytes>, next: int, ghost added: OptionList)
    requires Encoded(options, bytes, last)
    ensures added == options + Optional(number, value) && Encoded(added, more, next)
  {
    more, next, added := bytes, last, options;
    if value.Some? {
      more, next, added := Append(bytes, last, number, value.value, options);
    }
  }

  // The options so far, coded, and the number the next distance is taken from.
  ghost predicate Encoded(options: OptionList, bytes: Option<Bytes>, last: int) {
    bytes == EncodeOptions(options, 0) && last == LastNumber(options, 0)
  }

  method Append(bytes: Option<Bytes>, last: int, number: int, value: Bytes, ghost options: OptionList)
    returns (more: Option<Bytes>, next: int, ghost added: OptionList)
    requires Encoded(options, bytes, last)
    ensures added == options + [(number, value)] && Encoded(added, more, next)
  {
    EncodeSnoc(options, 0, number, value);
    added := options + [(number, value)];
    var one := EncodeOption(number - last, value);
    more := if bytes.None? || one.None? then None else Some(bytes.value + one.value);
    next := number;
  }

  lemma {:induction false} EncodeSnoc(options: OptionList, last: int, number: int, value: Bytes)
    ensures var one := EncodeOption(number - LastNumber(options, last), value);
      var before := EncodeOptions(options, last);
      EncodeOptions(options + [(number, value)], last) ==
      if before.None? || one.None? then None else Some(before.value + one.value)
    decreases |options|
  {
    var all := options + [(number, value)];
    if options == [] {
      assert all[1..] == [];
      var one := EncodeOption(number - last, value);
      if one.Some? { assert one.value + [] == one.value && [] + one.value == one.value; }
    } else {
      assert all[1..] == options[1..] + [(number, value)];
      EncodeSnoc(options[1..], options[0].0, number, value);
      assert LastNumber(options[1..], options[0].0) == LastNumber(options, last);
      var first := EncodeOption(options[0].0 - last, options[0].1);
      var rest := EncodeOptions(options[1..], options[0].0);
      var one := EncodeOption(number - LastNumber(options, last), value);
      if first.Some? && rest.Some? && one.Some? { Assoc(first.value, rest.value, one.value); }
    }
  }

  lemma AskIs(a: Ask, p: OptionList, q: OptionList, r: OptionList, s: OptionList, t: OptionList)
    requires p == PathOptions(a.path) && q == p + Optional(URI_QUERY, a.query)
    requires r == q + [(ACCEPT, AcceptValue(a.ocf))] && s == r + Optional(BLOCK2, BlockOption(a.block))
    requires t == s + Optional(OCF_VERSION, if a.ocf then Some(Pack16(2048)) else None)
    ensures t == AskOptions(a)
  {
    var block := Optional(BLOCK2, BlockOption(a.block));
    var version := Optional(OCF_VERSION, if a.ocf then Some(Pack16(2048)) else None);
    var accept := [(ACCEPT, AcceptValue(a.ocf))];
    Assoc(r, block, version);
    Assoc(q, accept, block + version);
    Assoc(p, Optional(URI_QUERY, a.query), accept + (block + version));
  }

  // ---------------------------------------------------------------------
  // What a request reads back as
  // ---------------------------------------------------------------------

  function LastValue(options: OptionList, number: int): Option<Bytes> {
    if options == [] then None
    else if options[|options| - 1].0 == number then Some(options[|options| - 1].1)
    else LastValue(options[..|options| - 1], number)
  }

  lemma {:induction false} LastValueCons(options: OptionList, number: int)
    requires options != []
    ensures LastValue(options, number) ==
            if LastValue(options[1..], number).Some? then LastValue(options[1..], number)
            else if options[0].0 == number then Some(options[0].1) else None
  {
    if |options| > 1 {
      assert options[..|options| - 1][1..] == options[1..][..|options| - 2];
      LastValueCons(options[..|options| - 1], number);
    }
  }

  /** What a parsed message holds for an option number is the last value the message gave it. */
  lemma {:induction false} OverwrittenIsLast(options: OptionList, before: map<int, Bytes>, number: int)
    ensures var out := Overwritten(options, before);
      var last := LastValue(options, number);
      if last.Some? then number in out && out[number] == last.value
      else (number in out <==> number in before) && (number in out ==> out[number] == before[number])
    decreases |options|
  {
    if options != [] {
      LastValueCons(options, number);
      OverwrittenIsLast(options[1..], before[options[0].0 := options[0].1], number);
    }
  }

  lemma {:induction false} LastValueConcat(a: OptionList, b: OptionList, number: int)
    ensures LastValue(a + b, number) ==
            if LastValue(b, number).Some? then LastValue(b, number) else LastValue(a, number)
  {
    if b == [] {
      assert a + b == a;
    } else {
      assert (a + b)[..|a + b| - 1] == a + b[..|b| - 1];
      LastValueConcat(a, b[..|b| - 1], number);
    }
  }

  lemma {:induction false} LastOfPath(path: seq<Bytes>, number: int)
    ensures LastValue(PathOptions(path), number) ==
            if number == URI_PATH && path != [] then Some(path[|path| - 1]) else None
  {
    if path != [] {
      assert PathOptions(path)[..|path| - 1] == PathOptions(path[..|path| - 1]);
      LastOfPath(path[..|path| - 1], number);
    }
  }

  lemma LastOfOptional(n: int, value: Option<Bytes>, number: int)
    ensures LastValue(Optional(n, value), number) == if number == n then value else None
  {
    assert forall o: (int, Bytes) :: [o][..0] == [];
  }

  // What a request holds under an option number, by the numbers of the registry.
  function AskedUnder(a: Ask, number: int): Option<Bytes> {
    if number == 11 then (if a.path != [] then Some(a.path[|a.path| - 1]) else None)
    else if number == 15 then a.query
    else if number == 17 then Some(if a.ocf then [39, 16] else [60])
    else if number == 23 then BlockOption(a.block)
    else if number == 2049 then (if a.ocf then Some([8, 0]) else None)
    else None
  }

  lemma LastOfAsk(a: Ask, number: int)
    ensures LastValue(AskOptions(a), number) == AskedUnder(a, number)
  {
    var version := Optional(OCF_VERSION, if a.ocf then Some(Pack16(2048)) else None);
    var block := Optional(BLOCK2, BlockOption(a.block));
    var accept := Optional(ACCEPT, Some(AcceptValue(a.ocf)));
    var query := Optional(URI_QUERY, a.query);
    LastOfPath(a.path, number);
    LastOfOptional(URI_QUERY, a.query, number);
    LastOfOptional(ACCEPT, Some(AcceptValue(a.ocf)), number);
    LastOfOptional(BLOCK2, BlockOption(a.block), number);
    LastOfOptional(OCF_VERSION, if a.ocf then Some(Pack16(2048)) else None, number);
    LastValueConcat(block, version, number);
    LastValueConcat(accept, block + version, number);
    LastValueConcat(query, accept + (block + version), number);
    LastValueConcat(PathOptions(a.path), query + (accept + (block + version)), number);
  }

  // Every segment and the query fit an option.
  predicate Askable(a: Ask) {
    && (forall i | 0 <= i < |a.path| :: |a.path[i]| <= MAX_EXTENDED)
    && (a.query.Some? ==> |a.query.value| <= MAX_EXTENDED)
  }

  lemma {:induction false} EncodableConcat(a: OptionList, b: OptionList, last: int)
    ensures Encodable(a + b, last) <==> Encodable(a, last) && Encodable(b, LastNumber(a, last))
    decreases |a|
  {
    if a == [] {
      assert a + b == b;
    } else {
      assert (a + b)[1..] == a[1..] + b;
      EncodableConcat(a[1..], b, a[0].0);
      EncodableCons(a, last);
      EncodableCons(a + b, last);
      assert LastNumber(a[1..], a[0].0) == LastNumber(a, last);
    }
  }

  lemma OptionalEncodable(n: int, value: Option<Bytes>, last: int)
    requires 0 <= n - last <= MAX_EXTENDED
    ensures Encodable(Optional(n, value), last) <==> (value.Some? ==> |value.value| <= MAX_EXTENDED)
    ensures last <= LastNumber(Optional(n, value), last) <= n
  {
    if value.Some? {
      EncodableCons([(n, value.value)], last);
      assert [(n, value.value)][1..] == [];
    }
  }

  lemma {:induction false} PathEncodable(path: seq<Bytes>)
    ensures Encodable(PathOptions(path), 0) <==> forall i | 0 <= i < |path| :: |path[i]| <= MAX_EXTENDED
    ensures 0 <= LastNumber(PathOptions(path), 0) <= URI_PATH
  {
    var options := PathOptions(path);
    assert forall i | 0 <= i < |path| :: options[i] == (URI_PATH, path[i]);
    if Encodable(options, 0) {
      forall i | 0 <= i < |path| ensures |path[i]| <= MAX_EXTENDED { assert Carries(Prior(options, 0, i), options[i]); }
    }
  }

  lemma AskEncodableIff(a: Ask)
    ensures Encodable(AskOptions(a), 0) <==> Askable(a)
  {
    var version := Optional(OCF_VERSION, if a.ocf then Some(Pack16(2048)) else None);
    var block := Optional(BLOCK2, BlockOption(a.block));
    var accept := Optional(ACCEPT, Some(AcceptValue(a.ocf)));
    var query := Optional(URI_QUERY, a.query);
    var p := LastNumber(PathOptions(a.path), 0);
    PathEncodable(a.path);
    OptionalEncodable(URI_QUERY, a.query, p);
    var q := LastNumber(query, p);
    OptionalEncodable(ACCEPT, Some(AcceptValue(a.ocf)), q);
    OptionalEncodable(BLOCK2, BlockOption(a.block), ACCEPT);
    var s := LastNumber(block, ACCEPT);
    OptionalEncodable(OCF_VERSION, if a.ocf then Some(Pack16(2048)) else None, s);
    EncodableConcat(block, version, ACCEPT);
    EncodableConcat(accept, block + version, q);
    EncodableConcat(query, accept + (block + version), p);
    EncodableConcat(PathOptions(a.path), query + (accept + (block + version)), 0);
  }

  /** A request the probe builds goes out exactly when its segments and query fit, and parses back
      to what it asks: its token, and, number by number, its last path segment under 11, its query
      under 15, the accepted format under 17, its block under 23, in OCF's own dialect the version
      under 2049, and nothing else. */
  lemma GetRoundTrip(h: Header, token: Bytes, a: Ask, number: int)
    requires IsHeader(h) && |token| <= 8
    ensures var d := EncodeMessage(Message(h, token, AskOptions(a), None));
      && (d.Some? <==> Askable(a))
      && (d.Some? ==>
            && Parsed(d.value).Some? && Parsed(d.value).value.token == token && Parsed(d.value).value.payload == []
            && var read := Parsed(d.value).value.options;
               var asked := AskedUnder(a, number);
               (number in read <==> asked.Some?) && (asked.Some? ==> read[number] == asked.value))
  {
    MessageRoundTrip(Message(h, token, AskOptions(a), None));
    AskEncodableIff(a);
    OverwrittenIsLast(AskOptions(a), map[], number);
    LastOfAsk(a, number);
  }

  /** The numbers as they are meant: the formats 60 and 10000, the version 2048, and the block above
      the size exponent 6. */
  lemma AskedNumbers(a: Ask)
    ensures FromBytes(AskedUnder(a, 17).value) == if a.ocf then 10000 else 60
    ensures a.ocf ==> FromBytes(AskedUnder(a, 2049).value) == 2048
    ensures a.block.Some? && a.block.value < 4096 ==> FromBytes(BlockOption(a.block).value) == 16 * a.block.value + 6
  {
    FromOneOrTwo(0, 60);
    FromOneOrTwo(39, 16);
    FromOneOrTwo(8, 0);
    if a.block.Some? && a.block.value < 4096 { BlockValueReads(a.block.value); }
  }

  /** Every segment of the path is there, in its place, before the other options. */
  lemma AskInOrder(a: Ask, i: nat)
    requires i < |a.path|
    ensures |AskOptions(a)| > |a.path| && AskOptions(a)[i] == (11, a.path[i])
  {
  }

  // ---------------------------------------------------------------------
  // Block2
  // ---------------------------------------------------------------------

  // `int.from_bytes(raw, "big")`.
  function FromBytes(raw: Bytes): nat {
    if raw == [] then 0 else FromBytes(raw[..|raw| - 1]) * 256 + raw[|raw| - 1] as int
  }

  // The block number and whether more is to come.
  function Block2Of(options: map<int, Bytes>): Option<(nat, bool)> {
    if BLOCK2 !in options then None
    else
      var packed := FromBytes(options[BLOCK2]);
      Some((packed / 16, packed / 8 % 2 == 1))
  }

  /** A block number asked for reads back as itself with nothing more to come, exactly below the
      4096 that its two bytes can hold. */
  lemma BlockRoundTripIff(h: Header, token: Bytes, a: Ask, num: nat)
    requires IsHeader(h) && |token| <= 8 && Askable(a) && a.block == Some(num)
    ensures Block2Value(num).Some? <==> num < 4096
    ensures num < 4096 ==>
              var d := EncodeMessage(Message(h, token, AskOptions(a), None));
              d.Some? && Parsed(d.value).Some? && Block2Of(Parsed(d.value).value.options) == Some((num, false))
  {
    if num < 4096 {
      GetRoundTrip(h, token, a, BLOCK2);
      LastOfAsk(a, BLOCK2);
      BlockValueReads(num);
    }
  }

  /** A block option of one or two bytes is its number above four bits, the highest of which says
      whether more is to come; without the option there is none. */
  lemma BlockReads(options: map<int, Bytes>, a: Byte, b: Byte)
    ensures Block2Of(options[23 := [b]]) == Some((b as int / 16, b as int % 16 >= 8))
    ensures Block2Of(options[23 := [a, b]]) == Some((a as int * 16 + b as int / 16, b as int % 16 >= 8))
    ensures 23 !in options ==> Block2Of(options).None?
  {
    FromOneOrTwo(a, b);
  }

  lemma FromOneOrTwo(a: Byte, b: Byte)
    ensures FromBytes([b]) == b && FromBytes([a, b]) == a as int * 256 + b as int
  {
    assert [b][..0] == [] && [a][..0] == [] && [a, b][..1] == [a];
    assert FromBytes([a]) == a;
  }

  lemma BlockValueReads(num: nat)
    requires num < 4096
    ensures var packed := FromBytes(Block2Value(num).value);
      packed == num * 16 + 6 && packed / 16 == num && packed / 8 % 2 == 0
  {
    var packed := num * 16 + 6;
    if packed < 256 { FromOneOrTwo(0, packed); } else { FromOneOrTwo(packed / 256, packed % 256); }
    assert FromBytes(Block2Value(num).value) == packed;
  }
}
