/**
 The probe's block-wise read of one resource: ask for the next block until the server says there
 is no more, trying each way of asking for a continuation until one works.
 */
module BlockTransfer {
  import opened CoapCodec
  import opened Options

  const MAX_BLOCKS := 32

  // One way of asking: with the transfer's own token or a fresh one, at the port that answered or
  // at 5683, in plain CBOR or in the OCF content format.
  datatype Way = Way(stable: bool, pinned: bool, ocf: bool)

  const FIRST := Way(true, false, false)

  // The ways to ask for a block after the first.
  const CONTINUATIONS :=
    [Way(true, true, false), Way(true, false, false), Way(true, true, true), Way(false, true, false)]

  const BLOCK_SIZE := 1024

  // What one exchange comes to: nothing after every attempt, an error, or an answer with its
  // response class and, if it carries the option, its block number and more bit.
  datatype Reply = Silence | Error | Answer(success: bool, block: Option<(nat, bool)>, payload: Bytes)

  // A server, asked for a block (or for none by name) at the n-th exchange in some way.
  type Server = (nat, Way, Option<nat>) -> Reply

  function Block(body: Bytes, k: nat): Bytes {
    body[Min(k * BLOCK_SIZE, |body|)..Min((k + 1) * BLOCK_SIZE, |body|)]
  }

  predicate More(body: Bytes, k: nat) {
    (k + 1) * BLOCK_SIZE < |body|
  }

  // Nothing, or the block asked for with a correct more bit; the option may be left out where
  // there is no more.
  predicate Replies(r: Reply, body: Bytes, asked: Option<nat>) {
    var k := if asked.Some? then asked.value else 0;
    || r.Silence?
    || (&& r.Answer? && r.success && r.payload == Block(body, k)
        && (r.block == Some((k, More(body, k))) || (r.block.None? && !More(body, k))))
  }

  ghost predicate Correct(server: Server, body: Bytes) {
    forall n, way, asked :: Replies(server(n, way, asked), body, asked)
  }

  ghost predicate Works(server: Server, way: Way) {
    forall n, k | k > 0 :: !server(n, way, Some(k)).Silence?
  }

  ghost predicate Fails(server: Server, way: Way) {
    forall n, k | k > 0 :: server(n, way, Some(k)).Silence?
  }

  // Block 0 asked for by name is answered, though a plain GET may go unheard; asking for a later one
  // works or fails by the way it is done, and one of the four ways tried does.
  ghost predicate Responsive(server: Server) {
    && (forall n :: !server(n, Way(true, false, false), Some(0)).Silence?)
    && (forall way :: Works(server, way) || Fails(server, way))
    && (|| Works(server, Way(true, true, false)) || Works(server, Way(true, false, false))
        || Works(server, Way(true, true, true)) || Works(server, Way(false, true, false)))
  }

  // Errors, refusals and silence only.
  ghost predicate NeverServes(server: Server) {
    forall n, way, asked :: var r := server(n, way, asked); !(r.Answer? && r.success)
  }

  predicate IsPrefix(body: Bytes, part: Bytes) {
    part <= body
  }

  predicate Collected(body: Bytes, blocks: nat, collected: Bytes) {
    collected == body[..Min(blocks * BLOCK_SIZE, |body|)]
  }

  // The first blocks of a body that has more.
  predicate SoFar(body: Bytes, blocks: nat, collected: Bytes) {
    Collected(body, blocks, collected) && (blocks > 0 ==> More(body, blocks - 1))
  }

  // The request for the block after `blocks` of them.
  predicate Asks(blocks: nat, asked: Option<nat>) {
    if blocks == 0 then asked.None? || asked == Some(0) else asked == Some(blocks)
  }

  lemma NextBlock(body: Bytes, blocks: nat, collected: Bytes)
    requires SoFar(body, blocks, collected)
    ensures Collected(body, blocks + 1, collected + Block(body, blocks))
  {
  }

  ghost predicate Heard(server: Server, way: Way, asked: Option<nat>) {
    exists n :: !server(n, way, asked).Silence?
  }

  ghost predicate Unheard(server: Server, way: Way, asked: Option<nat>) {
    exists n :: server(n, way, asked).Silence?
  }

  // How the next block may be asked for: in the one way the first is, in the way that worked, or in
  // each way in turn.
  function Candidates(blocks: nat, strategy: Option<Way>): seq<Way> {
    if blocks == 0 then [FIRST] else if strategy.Some? then [strategy.value] else CONTINUATIONS
  }

  // Some candidate of a responsive server is answered.
  lemma SomeWayWorks(server: Server, blocks: nat, strategy: Option<Way>, asked: Option<nat>)
    requires Responsive(server) && asked.Some? && (blocks > 0 ==> asked.value > 0) && (blocks == 0 ==> asked.value == 0)
    requires strategy.Some? ==> Works(server, strategy.value)
    ensures var ways := Candidates(blocks, strategy);
      exists i: nat :: i < |ways| && !Unheard(server, ways[i], asked)
  {
    var ways := Candidates(blocks, strategy);
    if blocks > 0 && strategy.None? {
      assert ways[0] == Way(true, true, false) && ways[1] == Way(true, false, false);
      assert ways[2] == Way(true, true, true) && ways[3] == Way(false, true, false);
      var i: nat :| i < |ways| && Works(server, ways[i]);
      assert !Unheard(server, ways[i], asked);
    } else {
      assert !Unheard(server, ways[0], asked);
    }
  }

  /** One block: the candidates in turn until one is answered. */
  method AskFor(server: Server, blocks: nat, strategy: Option<Way>, asked: Option<nat>, tries: nat)
    returns (answer: Reply, kept: Option<Way>, used: nat)
    ensures answer.Silence? || exists n, way :: answer == server(n, way, asked)
    ensures Responsive(server) && asked.Some? && (blocks > 0 <==> asked.value > 0)
            && (strategy.Some? ==> Works(server, strategy.value)) ==>
              !answer.Silence? && (kept.Some? ==> Works(server, kept.value))
    ensures blocks == 0 || strategy.Some? ==> kept == strategy && used == tries + 1
    ensures blocks > 0 && answer.Answer? && strategy.None? ==> kept.Some? && Heard(server, kept.value, asked)
    ensures tries < used <= tries + 4
  {
    var ways := Candidates(blocks, strategy);
    answer, kept, used := Silence, strategy, tries;
    var i := 0;
    while i < |ways| && answer.Silence?
      invariant 0 <= i <= |ways| && used == tries + i && (answer.Silence? ==> kept == strategy)
      invariant blocks == 0 || strategy.Some? ==> kept == strategy
      invariant !answer.Silence? ==> i > 0 && (blocks > 0 && answer.Answer? ==> kept.Some?)
      invariant answer.Silence? || exists n, way :: answer == server(n, way, asked)
      invariant answer.Silence? ==> forall j: nat | j < i :: Unheard(server, ways[j], asked)
      invariant kept != strategy ==> kept.Some? && Heard(server, kept.value, asked)
      decreases |ways| - i, if answer.Silence? then 1 else 0
    {
      answer := server(used, ways[i], asked);
      assert Heard(server, ways[i], asked) || Unheard(server, ways[i], asked);
      used := used + 1;
      if answer.Answer? && blocks > 0 {
        kept := Some(ways[i]);
      }
      i := i + 1;
    }
    if Responsive(server) && asked.Some? && (blocks > 0 <==> asked.value > 0)
       && (strategy.Some? ==> Works(server, strategy.value))
    {
      SomeWayWorks(server, blocks, strategy, asked);
      assert kept.Some? && kept != strategy ==> !Fails(server, kept.value);
    }
  }

  /** GET one resource, following Block2 to the end. `complete` says the server had no more. */
  method Unicast(server: Server) returns (payload: Option<Bytes>, complete: bool)
    ensures complete ==> payload.Some?
    ensures NeverServes(server) ==> payload.None?
    ensures forall body | Correct(server, body) :: payload.Some? ==> IsPrefix(body, payload.value)
    ensures forall body | Correct(server, body) && complete :: payload == Some(body)
    ensures forall body | Correct(server, body) && Responsive(server) ::
              payload == Some(body[..Min(|body|, 32768)]) && (complete <==> |body| <= 32768)
  {
    var collected: Bytes := [];
    var blocks, tries := 0, 0;
    var strategy: Option<Way> := None;
    var blockNum: Option<nat> := None;
    while blocks < MAX_BLOCKS
      invariant 0 <= blocks <= MAX_BLOCKS && (blockNum.None? ==> blocks == 0)
      invariant blockNum.Some? ==> (blocks > 0 <==> blockNum.value > 0)
      invariant NeverServes(server) ==> blocks == 0 && collected == []
      invariant Responsive(server) && strategy.Some? ==> Works(server, strategy.value)
      invariant forall body | Correct(server, body) :: SoFar(body, blocks, collected) && Asks(blocks, blockNum)
      decreases MAX_BLOCKS - blocks, if blockNum.None? then 1 else 0
    {
      var answer;
      answer, strategy, tries := AskFor(server, blocks, strategy, blockNum, tries);
      if answer.Error? {
        return None, false;
      }
      if answer.Silence? {
        if blocks == 0 && blockNum.None? {
          // Nothing at all: ask for block 0 by name before concluding.
          blockNum := Some(0);
          continue;
        }
        break;
      }
      if !answer.success {
        return None, false;
      }
      forall body | Correct(server, body)
        ensures SoFar(body, blocks, collected) && answer.payload == Block(body, blocks)
        ensures answer.block == Some((blocks, More(body, blocks))) || (answer.block.None? && !More(body, blocks))
      {
        var n, w :| answer == server(n, w, blockNum);
        assert Replies(server(n, w, blockNum), body, blockNum);
      }
      forall body | Correct(server, body) ensures Collected(body, blocks + 1, collected + answer.payload) {
        NextBlock(body, blocks, collected);
      }
      collected := collected + answer.payload;
      blocks := blocks + 1;
      if answer.block.None? || !answer.block.value.1 {
        forall body | Correct(server, body) ensures collected == body && |body| <= MAX_BLOCKS * BLOCK_SIZE {
          assert Collected(body, blocks, collected);
        }
        return Some(collected), true;
      }
      blockNum := Some(answer.block.value.0 + 1);
    }
    forall body | Correct(server, body) ensures IsPrefix(body, collected) { assert SoFar(body, blocks, collected); }
    if collected != [] {
      return Some(collected), false;
    }
    return None, false;
  }
}
