/** `read_modbus`: the blocks are requested in order, each with `size - 1`
    registers, and a block is asked for again until the device answers. A
    single attempt counter, started at `ALLOWED_ATTEMPTS` once per call and
    shared by all blocks, decides when the client is rebuilt.

    The device is a script of outcomes, one per request. A request whose
    outcome is missing would be repeated forever: the model reports that as
    a stall. */
module Transport {
  import opened Wrappers
  import opened RegisterMap
  import opened Decoder

  const AllowedAttempts: nat := 3

  /** The device's reaction to one "Read Holding Registers" request
      (function 0x03): an exception or error response, or the register
      values. */
  datatype Outcome = Failed | Answered(words: seq<Word>)

  /** The arguments of one `read_holding_registers` call. */
  datatype Request = Request(address: int, count: int)

  /** What a call has done: the words gathered, every request issued, the
      clients rebuilt, the failures seen, and the attempt counter left. */
  datatype Reading = Reading(words: seq<Word>, requests: seq<Request>, reconnects: nat, failures: nat, counter: nat)

  /** The request for a block: one register fewer than the block's size. */
  function RequestFor(b: Block): (q: Request)
    ensures q.address == b.start && q.count == b.size - 1
  {
    Request(b.start, b.size - 1)
  }

  /** The counter after a failure, and whether the client is rebuilt: the
      counter is decremented while it is positive and reset once it has
      run out. */
  function AfterFailure(counter: nat): (r: (nat, bool))
    requires counter <= AllowedAttempts
    ensures r.0 <= AllowedAttempts
    ensures r.1 <==> counter == 0
    ensures r.1 ==> r.0 == AllowedAttempts
    ensures !r.1 ==> r.0 + 1 == counter
  {
    if counter > 0 then (counter - 1, false) else (AllowedAttempts, true)
  }

  /** What `acc` and then `step` did together. */
  function Then(acc: Reading, step: Reading): (r: Reading)
    ensures r.words == acc.words + step.words && r.requests == acc.requests + step.requests
    ensures r.reconnects == acc.reconnects + step.reconnects && r.failures == acc.failures + step.failures
    ensures r.counter == step.counter
  {
    Reading(acc.words + step.words, acc.requests + step.requests,
            acc.reconnects + step.reconnects, acc.failures + step.failures, step.counter)
  }

  /** `acc` followed by what the rest of the call does. */
  function Glue(acc: Reading, rest: Option<Reading>): Option<Reading> {
    if rest.None? then None else Some(Then(acc, rest.value))
  }

  lemma GlueEmpty(counter: nat, rest: Option<Reading>)
    ensures Glue(Reading([], [], 0, 0, counter), rest) == rest
  {
    if rest.Some? {
      assert [] + rest.value.words == rest.value.words;
      assert [] + rest.value.requests == rest.value.requests;
    }
  }

  lemma GlueGlue(acc: Reading, step: Reading, rest: Option<Reading>)
    ensures Glue(acc, Glue(step, rest)) == Glue(Then(acc, step), rest)
  {
    if rest.Some? {
      assert acc.words + (step.words + rest.value.words) == (acc.words + step.words) + rest.value.words;
      assert acc.requests + (step.requests + rest.value.requests) == (acc.requests + step.requests) + rest.value.requests;
    }
  }

  /** Folding one more step into the reading done so far. */
  lemma GlueStep(whole: Option<Reading>, acc: Reading, step: Reading, mid: Option<Reading>, rest: Option<Reading>)
    requires whole == Glue(acc, mid) && mid == Glue(step, rest)
    ensures whole == Glue(Then(acc, step), rest)
  {
    GlueGlue(acc, step, rest);
  }

  /** A reading followed by nothing more. */
  lemma GlueDone(acc: Reading, counter: nat)
    ensures Glue(acc, Some(Reading([], [], 0, 0, counter))) == Some(acc.(counter := counter))
  {
    assert acc.words + [] == acc.words && acc.requests + [] == acc.requests;
  }

  /** The call from the point where `blocks` remain, the device will answer
      with `outcomes`, and the counter stands at `counter`. */
  function Run(blocks: seq<Block>, outcomes: seq<Outcome>, counter: nat): (r: Option<Reading>)
    requires counter <= AllowedAttempts
    ensures r.Some? ==> r.value.counter <= AllowedAttempts && |r.value.requests| <= |outcomes|
    ensures r.Some? ==> |r.value.requests| == r.value.failures + |blocks|
    decreases |outcomes|
  {
    if |blocks| == 0 then Some(Reading([], [], 0, 0, counter))
    else if |outcomes| == 0 then None
    else
      match outcomes[0]
      case Failed =>
        var (next, reconnect) := AfterFailure(counter);
        Glue(Reading([], [RequestFor(blocks[0])], if reconnect then 1 else 0, 1, next), Run(blocks, outcomes[1..], next))
      case Answered(ws) =>
        Glue(Reading(ws, [RequestFor(blocks[0])], 0, 0, counter), Run(blocks[1..], outcomes[1..], counter))
  }

  /** A failed request: the block stays, the counter steps. */
  lemma RunFailed(blocks: seq<Block>, outcomes: seq<Outcome>, counter: nat)
    requires counter <= AllowedAttempts && |blocks| > 0 && |outcomes| > 0 && outcomes[0].Failed?
    ensures var (next, reconnect) := AfterFailure(counter);
      Run(blocks, outcomes, counter)
      == Glue(Reading([], [RequestFor(blocks[0])], if reconnect then 1 else 0, 1, next), Run(blocks, outcomes[1..], next))
  {
  }

  /** An answered request: the block is done, the counter stays. */
  lemma RunAnswered(blocks: seq<Block>, outcomes: seq<Outcome>, counter: nat)
    requires counter <= AllowedAttempts && |blocks| > 0 && |outcomes| > 0 && outcomes[0].Answered?
    ensures Run(blocks, outcomes, counter)
         == Glue(Reading(outcomes[0].words, [RequestFor(blocks[0])], 0, 0, counter), Run(blocks[1..], outcomes[1..], counter))
  {
  }

  /** The words of the answered outcomes, in order. */
  function Answers(outcomes: seq<Outcome>): (r: seq<seq<Word>>)
    ensures |r| <= |outcomes|
  {
    if |outcomes| == 0 then []
    else if outcomes[0].Answered? then [outcomes[0].words] + Answers(outcomes[1..])
    else Answers(outcomes[1..])
  }

  /** `read_modbus(blocks)` against a device answering with `outcomes`. */
  method ReadModbus(blocks: seq<Block>, outcomes: seq<Outcome>) returns (r: Option<Reading>)
    ensures r == Run(blocks, outcomes, AllowedAttempts)
  {
    var acc := Reading([], [], 0, 0, AllowedAttempts);
    var i, k := 0, 0;
    assert blocks[0..] == blocks && outcomes[0..] == outcomes;
    GlueEmpty(AllowedAttempts, Run(blocks, outcomes, AllowedAttempts));
    while i < |blocks|
      invariant 0 <= i <= |blocks| && 0 <= k <= |outcomes| && acc.counter <= AllowedAttempts
      invariant Run(blocks, outcomes, AllowedAttempts) == Glue(acc, Run(blocks[i..], outcomes[k..], acc.counter))
      decreases |blocks| - i
    {
      var block := ReadBlock(blocks[i..], outcomes[k..], acc.counter);
      if block.None? {
        return None;
      }
      var (step, used) := block.value;
      assert blocks[i..][1..] == blocks[i + 1..] && outcomes[k..][used..] == outcomes[k + used..];
      GlueStep(Run(blocks, outcomes, AllowedAttempts), acc, step,
               Run(blocks[i..], outcomes[k..], acc.counter), Run(blocks[i + 1..], outcomes[k + used..], step.counter));
      acc := Then(acc, step);
      i, k := i + 1, k + used;
    }
    GlueDone(acc, acc.counter);
    return Some(acc);
  }

  /** The `while read_error` loop for the first of `blocks`: the block is
      requested until an answer comes, with the counter standing at
      `counter` on entry. The result is what the loop did and how many
      outcomes it used; `None` when the outcomes ran out first. */
  method ReadBlock(blocks: seq<Block>, outcomes: seq<Outcome>, counter: nat) returns (r: Option<(Reading, nat)>)
    requires counter <= AllowedAttempts && |blocks| > 0
    ensures r.None? ==> Run(blocks, outcomes, counter).None?
    ensures r.Some? ==>
      var (step, used) := r.value;
      && used <= |outcomes| && step.counter <= AllowedAttempts
      && Run(blocks, outcomes, counter) == Glue(step, Run(blocks[1..], outcomes[used..], step.counter))
  {
    var request := RequestFor(blocks[0]);
    var step := Reading([], [], 0, 0, counter);
    var k := 0;
    assert outcomes[0..] == outcomes;
    GlueEmpty(counter, Run(blocks, outcomes, counter));
    while true
      invariant 0 <= k <= |outcomes| && step.counter <= AllowedAttempts
      invariant Run(blocks, outcomes, counter) == Glue(step, Run(blocks, outcomes[k..], step.counter))
      decreases |outcomes| - k
    {
      if k == |outcomes| {
        return None;
      }
      assert outcomes[k..][0] == outcomes[k] && outcomes[k..][1..] == outcomes[k + 1..];
      match outcomes[k] {
        case Failed =>
          var (next, reconnect) := AfterFailure(step.counter);
          var failure := Reading([], [request], if reconnect then 1 else 0, 1, next);
          RunFailed(blocks, outcomes[k..], step.counter);
          GlueStep(Run(blocks, outcomes, counter), step, failure,
                   Run(blocks, outcomes[k..], step.counter), Run(blocks, outcomes[k + 1..], next));
          step := Then(step, failure);
        case Answered(ws) =>
          var answer := Reading(ws, [request], 0, 0, step.counter);
          RunAnswered(blocks, outcomes[k..], step.counter);
          GlueStep(Run(blocks, outcomes, counter), step, answer,
                   Run(blocks, outcomes[k..], step.counter), Run(blocks[1..], outcomes[k + 1..], step.counter));
          return Some((Then(step, answer), k + 1));
      }
      k := k + 1;
    }
  }

  /** The counter is a four-state machine 3, 2, 1, 0, 3, ... stepped once per
      failure and never on a success; the client is rebuilt on each step out
      of 0. */
  lemma {:induction false} ReconnectCount(blocks: seq<Block>, outcomes: seq<Outcome>, counter: nat)
    requires counter <= AllowedAttempts
    requires Run(blocks, outcomes, counter).Some?
    ensures var r := Run(blocks, outcomes, counter).value;
      r.reconnects == (r.failures + AllowedAttempts - counter) / 4
      && r.counter == AllowedAttempts - (r.failures + AllowedAttempts - counter) % 4
    decreases |outcomes|
  {
    if |blocks| > 0 {
      match outcomes[0]
      case Failed =>
        var (next, reconnect) := AfterFailure(counter);
        ReconnectCount(blocks, outcomes[1..], next);
        var rest := Run(blocks, outcomes[1..], next).value;
        var f := rest.failures;
        if reconnect {
          assert (f + AllowedAttempts - next) / 4 + 1 == (f + 1 + AllowedAttempts - counter) / 4;
          assert (f + AllowedAttempts - next) % 4 == (f + 1 + AllowedAttempts - counter) % 4;
        }
      case Answered(_) =>
        ReconnectCount(blocks[1..], outcomes[1..], counter);
    }
  }

  /** Over one call, F failures rebuild the client exactly F div 4 times:
      on the fourth, eighth, ... failure, wherever the failures fall among
      the blocks. */
  lemma ReconnectsPerCall(blocks: seq<Block>, outcomes: seq<Outcome>)
    requires Run(blocks, outcomes, AllowedAttempts).Some?
    ensures Run(blocks, outcomes, AllowedAttempts).value.reconnects == Run(blocks, outcomes, AllowedAttempts).value.failures / 4
  {
    ReconnectCount(blocks, outcomes, AllowedAttempts);
  }

  /** A completed call has consumed exactly one answer per block, and its
      words are the answers' words concatenated in block order. */
  lemma {:induction false} RunConsumes(blocks: seq<Block>, outcomes: seq<Outcome>, counter: nat)
    requires counter <= AllowedAttempts
    requires Run(blocks, outcomes, counter).Some?
    ensures var r := Run(blocks, outcomes, counter).value;
      |Answers(outcomes[..|r.requests|])| == |blocks|
      && r.words == Concat(Answers(outcomes[..|r.requests|]))
    decreases |outcomes|
  {
    var r := Run(blocks, outcomes, counter).value;
    if |blocks| == 0 {
      assert outcomes[..0] == [];
    } else {
      var n := |r.requests|;
      assert outcomes[..n][1..] == outcomes[1..][..n - 1];
      match outcomes[0]
      case Failed =>
        var (next, _) := AfterFailure(counter);
        RunConsumes(blocks, outcomes[1..], next);
      case Answered(ws) =>
        RunConsumes(blocks[1..], outcomes[1..], counter);
        ConcatCons(ws, Answers(outcomes[1..][..n - 1]));
    }
  }

  /** A call completes if and only if the device answers at least as often
      as there are blocks; otherwise it retries for ever. */
  lemma {:induction false} StallIff(blocks: seq<Block>, outcomes: seq<Outcome>, counter: nat)
    requires counter <= AllowedAttempts
    ensures Run(blocks, outcomes, counter).None? <==> |Answers(outcomes)| < |blocks|
    decreases |outcomes|
  {
    if |blocks| > 0 && |outcomes| > 0 {
      match outcomes[0]
      case Failed =>
        var (next, _) := AfterFailure(counter);
        StallIff(blocks, outcomes[1..], next);
      case Answered(_) =>
        StallIff(blocks[1..], outcomes[1..], counter);
    }
  }

  /** The k-th request asks for the first block not yet answered, with
      `size - 1` registers: a failed block is asked for again, unchanged. */
  lemma {:induction false} RequestTargets(blocks: seq<Block>, outcomes: seq<Outcome>, counter: nat, k: nat)
    requires counter <= AllowedAttempts
    requires Run(blocks, outcomes, counter).Some?
    requires k < |Run(blocks, outcomes, counter).value.requests|
    ensures |Answers(outcomes[..k])| < |blocks|
    ensures Run(blocks, outcomes, counter).value.requests[k] == RequestFor(blocks[|Answers(outcomes[..k])|])
    decreases |outcomes|
  {
    var r := Run(blocks, outcomes, counter).value;
    if k == 0 {
      assert outcomes[..0] == [];
    } else {
      var prefix := outcomes[..k];
      assert prefix[0] == outcomes[0] && prefix[1..] == outcomes[1..][..k - 1];
      match outcomes[0]
      case Failed =>
        var (next, _) := AfterFailure(counter);
        var rest := Run(blocks, outcomes[1..], next);
        assert r.requests == [RequestFor(blocks[0])] + rest.value.requests;
        RequestTargets(blocks, outcomes[1..], next, k - 1);
        assert Answers(prefix) == Answers(prefix[1..]);
      case Answered(ws) =>
        var rest := Run(blocks[1..], outcomes[1..], counter);
        assert r.requests == [RequestFor(blocks[0])] + rest.value.requests;
        RequestTargets(blocks[1..], outcomes[1..], counter, k - 1);
        assert Answers(prefix) == [ws] + Answers(prefix[1..]);
    }
  }

  /** The counter is not reset by a success: three failures on the first
      block and one on the second rebuild the client once, on the second
      block, and leave the counter back at its start. */
  lemma CounterSharedAcrossBlocks(first: Block, second: Block, a: seq<Word>, b: seq<Word>)
    ensures Run([first, second], [Failed, Failed, Failed, Answered(a), Failed, Answered(b)], AllowedAttempts)
         == Some(Reading(a + b, [RequestFor(first), RequestFor(first), RequestFor(first), RequestFor(first),
                                 RequestFor(second), RequestFor(second)], 1, 4, AllowedAttempts))
  {
    var p, q := RequestFor(first), RequestFor(second);
    var rest := [Failed, Answered(b)];
    assert [Failed, Failed, Failed, Answered(a)] + rest == [Failed, Failed, Failed, Answered(a), Failed, Answered(b)];
    FirstBlockOfShared(first, second, a, rest);
    SecondBlockOfShared(second, b);
    var w := Then(Reading(a, [p, p, p, p], 0, 3, 0), Reading(b, [q, q], 1, 1, AllowedAttempts));
    assert w.requests == [p, p, p, p, q, q];
  }

  /** The first block of that call: three failures, then the answer. */
  lemma FirstBlockOfShared(first: Block, second: Block, a: seq<Word>, rest: seq<Outcome>)
    ensures Run([first, second], [Failed, Failed, Failed, Answered(a)] + rest, AllowedAttempts)
         == Glue(Reading(a, [RequestFor(first), RequestFor(first), RequestFor(first), RequestFor(first)], 0, 3, 0),
                 Run([second], rest, 0))
  {
    var blocks, p := [first, second], RequestFor(first);
    assert blocks[1..] == [second];
    var t1 := [Answered(a)] + rest;
    var t2 := [Failed] + t1;
    var t3 := [Failed] + t2;
    var t4 := [Failed] + t3;
    assert t1[1..] == rest && t2[1..] == t1 && t3[1..] == t2 && t4[1..] == t3;
    assert t4 == [Failed, Failed, Failed, Answered(a)] + rest;
    var tail := Run([second], rest, 0);
    RunAnswered(blocks, t1, 0);
    var r1 := Reading(a, [p], 0, 0, 0);
    RunFailed(blocks, t2, 1);
    GlueGlue(Reading([], [p], 0, 1, 0), r1, tail);
    var r2 := Then(Reading([], [p], 0, 1, 0), r1);
    RunFailed(blocks, t3, 2);
    GlueGlue(Reading([], [p], 0, 1, 1), r2, tail);
    var r3 := Then(Reading([], [p], 0, 1, 1), r2);
    RunFailed(blocks, t4, 3);
    GlueGlue(Reading([], [p], 0, 1, 2), r3, tail);
    var r4 := Then(Reading([], [p], 0, 1, 2), r3);
    assert r4.requests == [p, p, p, p] && r4.words == a;
  }

  /** The second block of that call: one failure, which rebuilds the
      client since the counter stands at 0, then the answer. */
  lemma SecondBlockOfShared(second: Block, b: seq<Word>)
    ensures Run([second], [Failed, Answered(b)], 0)
         == Some(Reading(b, [RequestFor(second), RequestFor(second)], 1, 1, AllowedAttempts))
  {
    var q, outcomes := RequestFor(second), [Failed, Answered(b)];
    assert [second][1..] == [] && outcomes[1..] == [Answered(b)] && outcomes[1..][1..] == [];
    RunAnswered([second], outcomes[1..], AllowedAttempts);
    GlueDone(Reading(b, [q], 0, 0, AllowedAttempts), AllowedAttempts);
    RunFailed([second], outcomes, 0);
    assert [q] + [q] == [q, q] && [] + b == b;
  }
}
