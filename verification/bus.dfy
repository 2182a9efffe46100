/** The broker side of an edge device: the subscriber's message queue, the
    helpers that poll and filter it, the `listen` dispatch loop, and the
    composition of a published reading.

    The broker is a sequence of queue items. Polling an empty queue answers
    `None`, as `get_message` does when nothing has arrived; a `None` item
    inside the queue stands for a poll that found nothing at that moment. */
module Bus {
  import opened Wrappers
  import opened Text
  import opened Values
  import opened RegisterMap
  import opened Messages
  import opened Topics

  /** One item as `get_message` returns it: its `type`, the `pattern` it
      matched (`None` for subscription confirmations), its `channel` and its
      decoded `data`. */
  datatype Message = Message(kind: string, pattern: Option<string>, channel: string, data: Value)

  type Queue = seq<Option<Message>>

  /** The channel every edge device listens to for error codes. */
  const ErrorChannel := "error-master"

  /** The result of draining the queue: the message found (if any) and the
      queue left, or a blocking poll that never returns. */
  datatype Polled = Polled(msg: Option<Message>, rest: Queue) | Stalled

  /** A call `listen` makes on the device. */
  datatype Call = HandleError(errorData: Value) | HandleCommand(commandData: Value)

  /** A reading as `publish_data` sends it. */
  datatype Publication = Publication(topic: string, payload: Value)

  /** The items of a sequence of messages, all present. */
  function Wrap(ms: seq<Message>): (q: Queue)
    ensures |q| == |ms| && forall i :: 0 <= i < |ms| ==> q[i] == Some(ms[i])
  {
    seq(|ms|, i requires 0 <= i < |ms| => Some(ms[i]))
  }

  /** One `get_message` call. */
  function GetMessage(q: Queue): (r: (Option<Message>, Queue))
    ensures |q| == 0 ==> r == (None, [])
    ensures |q| > 0 ==> r == (q[0], q[1..])
  {
    if |q| == 0 then (None, []) else (q[0], q[1..])
  }

  /** `get_pattern`, `get_channel`, `get_data`: `None` when there is no
      message or the message has no pattern. */
  function GetPattern(m: Option<Message>): (r: Option<string>)
    ensures r.Some? <==> m.Some? && m.value.pattern.Some?
    ensures r.Some? ==> r == m.value.pattern
  {
    if m.Some? && m.value.pattern.Some? then m.value.pattern else None
  }

  function GetChannel(m: Option<Message>): (r: Option<string>)
    ensures r.Some? <==> m.Some? && m.value.pattern.Some?
    ensures r.Some? ==> r.value == m.value.channel
  {
    if m.Some? && m.value.pattern.Some? then Some(m.value.channel) else None
  }

  function GetData(m: Option<Message>): (r: Option<Value>)
    ensures r.Some? <==> m.Some? && m.value.pattern.Some?
    ensures r.Some? ==> r.value == m.value.data
  {
    if m.Some? && m.value.pattern.Some? then Some(m.value.data) else None
  }

  /** `'message' in message["type"]`: true for `message` and `pmessage`. */
  predicate IsMessage(item: Option<Message>) {
    item.Some? && Contains(item.value.kind, "message")
  }

  /** `get_next_message(subscriber, blocking)`. Non-blocking, it consumes
      exactly one item; blocking, it skips items until one is a message, and
      never returns when none is. */
  function NextMessage(q: Queue, blocking: bool): (r: Polled)
    ensures !blocking ==> r.Polled? && r.rest == GetMessage(q).1
    ensures !blocking ==> (r.msg.Some? <==> |q| > 0 && IsMessage(q[0]))
    ensures !blocking && r.msg.Some? ==> r.msg == q[0]
    ensures blocking ==> (r.Stalled? <==> forall i :: 0 <= i < |q| ==> !IsMessage(q[i]))
    ensures blocking && r.Polled? ==>
      var n := |q| - |r.rest|;
      0 < n && r.msg.Some? && q[n - 1] == r.msg && r.rest == q[n..]
      && forall i :: 0 <= i < n - 1 ==> !IsMessage(q[i])
    ensures r.Polled? && r.msg.Some? ==> IsMessage(r.msg) && |r.rest| < |q|
  {
    if !blocking then
      var (item, rest) := GetMessage(q);
      if IsMessage(item) then Polled(item, rest) else Polled(None, rest)
    else SkipToMessage(q)
  }

  /** The blocking loop: items are taken until one is a message. */
  function SkipToMessage(q: Queue): (r: Polled)
    ensures r.Stalled? <==> forall i :: 0 <= i < |q| ==> !IsMessage(q[i])
    ensures r.Polled? ==>
      var n := |q| - |r.rest|;
      0 < n && r.msg.Some? && q[n - 1] == r.msg && r.rest == q[n..]
      && IsMessage(r.msg) && forall i :: 0 <= i < n - 1 ==> !IsMessage(q[i])
    decreases |q|
  {
    if |q| == 0 then Stalled
    else if IsMessage(q[0]) then Polled(q[0], q[1..])
    else
      var r := SkipToMessage(q[1..]);
      SkipShift(q, q[1..], r);
      r
  }

  /** A non-message in front moves the first message one place on. */
  lemma SkipShift(q: Queue, tail: Queue, r: Polled)
    requires |q| > 0 && !IsMessage(q[0]) && tail == q[1..]
    requires r.Stalled? <==> forall i :: 0 <= i < |tail| ==> !IsMessage(tail[i])
    requires r.Polled? ==>
      var n := |tail| - |r.rest|;
      0 < n && r.msg.Some? && tail[n - 1] == r.msg && r.rest == tail[n..]
      && IsMessage(r.msg) && forall i :: 0 <= i < n - 1 ==> !IsMessage(tail[i])
    ensures r.Stalled? <==> forall i :: 0 <= i < |q| ==> !IsMessage(q[i])
    ensures r.Polled? ==>
      var n := |q| - |r.rest|;
      0 < n && r.msg.Some? && q[n - 1] == r.msg && r.rest == q[n..]
      && IsMessage(r.msg) && forall i :: 0 <= i < n - 1 ==> !IsMessage(q[i])
  {
    assert forall i :: 1 <= i < |q| ==> q[i] == tail[i - 1];
    if r.Polled? {
      assert tail[|tail| - |r.rest|..] == q[|q| - |r.rest|..];
    }
  }

  /** A non-message item (a subscription confirmation, say) makes a
      non-blocking poll answer `None` although a message waits behind it. */
  lemma NonMessageHidesLaterMessages(confirmation: Message, m: Message)
    requires !Contains(confirmation.kind, "message") && Contains(m.kind, "message")
    ensures NextMessage([Some(confirmation), Some(m)], false) == Polled(None, [Some(m)])
    ensures NextMessage([Some(confirmation), Some(m)], true) == Polled(Some(m), [])
  {
    assert [Some(confirmation), Some(m)][1..] == [Some(m)];
    assert [Some(m)][1..] == [];
    assert SkipToMessage([Some(m)]) == Polled(Some(m), []);
  }

  /** The send time of a message: its data parsed as JSON, indexed by
      `datetime`, and read as an ISO-8601 datetime. A message without a
      pattern carries no data, and `json.loads(None)` raises. */
  function Stamp(m: Message): (r: Result<DateTime>)
    ensures r.Ok? ==> m.pattern.Some?
  {
    var text := GetData(Some(m));
    if text.None? then Err("TypeError")
    else
      var data :- Loads(text.value);
      var dt :- Index(data, DateTimeKey);
      var t :- FromIsoFormat(dt);
      Ok(t.t)
  }

  /** Sent at or after `now`. */
  predicate Fresh(m: Message, now: DateTime)
    requires Stamp(m).Ok?
  {
    Stamp(m).value.instant >= now.instant
  }

  /** `get_current_message(subscriber, blocking)` called at time `now`,
      having already passed over the older message `last`. */
  function GetCurrentMessage(q: Queue, blocking: bool, now: DateTime, last: Option<Message>): (r: Result<Polled>)
    ensures r.Ok? && r.value.Polled? && r.value.msg.Some? ==> IsMessage(r.value.msg) || r.value.msg == last
    decreases |q|
  {
    match NextMessage(q, blocking)
    case Stalled => Ok(Stalled)
    case Polled(None, rest) => Ok(Polled(last, rest))
    case Polled(Some(m), rest) =>
      var t :- Stamp(m);
      if t.instant >= now.instant then Ok(Polled(Some(m), rest))
      else GetCurrentMessage(rest, blocking, now, Some(m))
  }

  /** The messages of `ms` can all be stamped. */
  predicate Stampable(ms: seq<Message>) {
    forall i :: 0 <= i < |ms| ==> Contains(ms[i].kind, "message") && Stamp(ms[i]).Ok?
  }

  /** When the queue holds stamped messages `ms` and the first one sent at
      or after `now` is `ms[j]`, that message is returned and the messages
      behind it stay queued. */
  lemma {:induction false} CurrentIsFirstFresh(ms: seq<Message>, tail: Queue, blocking: bool, now: DateTime,
                                               last: Option<Message>, j: nat)
    requires Stampable(ms) && j < |ms| && Fresh(ms[j], now)
    requires forall i :: 0 <= i < j ==> !Fresh(ms[i], now)
    ensures GetCurrentMessage(Wrap(ms) + tail, blocking, now, last) == Ok(Polled(Some(ms[j]), Wrap(ms[j + 1..]) + tail))
    decreases j
  {
    var q := Wrap(ms) + tail;
    assert q[0] == Some(ms[0]) && q[1..] == Wrap(ms[1..]) + tail;
    if j == 0 {
      assert Wrap(ms[1..]) == Wrap(ms[j + 1..]);
    } else {
      CurrentIsFirstFresh(ms[1..], tail, blocking, now, Some(ms[0]), j - 1);
      assert ms[1..][j - 1 + 1..] == ms[j + 1..];
    }
  }

  /** When every queued message is older than `now` and a non-blocking poll
      then finds nothing, the last of them is returned (or the message
      passed over before, or `None`). */
  lemma {:induction false} CurrentFallsBackToLastOlder(ms: seq<Message>, tail: Queue, now: DateTime, last: Option<Message>)
    requires Stampable(ms) && forall i :: 0 <= i < |ms| ==> !Fresh(ms[i], now)
    requires |tail| == 0 || !IsMessage(tail[0])
    ensures GetCurrentMessage(Wrap(ms) + tail, false, now, last)
         == Ok(Polled(if |ms| > 0 then Some(ms[|ms| - 1]) else last, GetMessage(tail).1))
    decreases |ms|
  {
    var q := Wrap(ms) + tail;
    if |ms| == 0 {
      assert q == tail;
    } else {
      assert q[0] == Some(ms[0]) && q[1..] == Wrap(ms[1..]) + tail;
      CurrentFallsBackToLastOlder(ms[1..], tail, now, Some(ms[0]));
      if |ms| > 1 {
        assert ms[1..][|ms[1..]| - 1] == ms[|ms| - 1];
      }
    }
  }

  /** Where `listen` sends one message: nowhere without a pattern; the
      error handler for `error-master`; the command handler for the
      command channel; nowhere otherwise. */
  function Route(m: Message, commandChannel: string): (calls: seq<Call>)
    ensures |calls| <= 1
    ensures |calls| == 1 <==> m.pattern.Some? && (m.channel == ErrorChannel || m.channel == commandChannel)
    ensures |calls| == 1 && m.channel == ErrorChannel ==> calls[0] == HandleError(m.data)
    ensures |calls| == 1 && m.channel != ErrorChannel ==> calls[0] == HandleCommand(m.data)
  {
    if GetPattern(Some(m)).None? then []
    else
      var channel := GetChannel(Some(m)).value;
      if channel == ErrorChannel then [HandleError(GetData(Some(m)).value)]
      else if channel == commandChannel then [HandleCommand(GetData(Some(m)).value)]
      else []
  }

  /** `listen`: poll until `get_message` answers `None`, routing each
      message in arrival order. The `log_reading` and `set_sleep_time`
      callbacks it is handed have no `Call`: it never invokes them. */
  function Listen(q: Queue, commandChannel: string): (r: (seq<Call>, Queue))
    ensures |r.1| < |q| || q == []
    decreases |q|
  {
    var (item, rest) := GetMessage(q);
    if item.None? then ([], rest)
    else
      var (calls, left) := Listen(rest, commandChannel);
      (Route(item.value, commandChannel) + calls, left)
  }

  /** The loop of `listen`, as written. */
  method ListenLoop(q: Queue, commandChannel: string) returns (calls: seq<Call>, rest: Queue)
    ensures (calls, rest) == Listen(q, commandChannel)
  {
    calls := [];
    var polled := GetMessage(q);
    ghost var seen: Queue := q;
    assert [] + Listen(q, commandChannel).0 == Listen(q, commandChannel).0;
    while polled.0.Some?
      invariant Listen(q, commandChannel) == (calls + Listen(seen, commandChannel).0, Listen(seen, commandChannel).1)
      invariant polled == GetMessage(seen)
      decreases |seen|
    {
      var routed := Route(polled.0.value, commandChannel);
      assert (calls + routed) + Listen(polled.1, commandChannel).0 == calls + (routed + Listen(polled.1, commandChannel).0);
      calls := calls + routed;
      seen := polled.1;
      polled := GetMessage(polled.1);
    }
    rest := polled.1;
    assert calls + [] == calls;
  }

  /** The calls each message of `ms` leads to, message by message. */
  function Routes(ms: seq<Message>, commandChannel: string): (r: seq<seq<Call>>)
    ensures |r| == |ms| && forall i :: 0 <= i < |ms| ==> r[i] == Route(ms[i], commandChannel)
  {
    seq(|ms|, i requires 0 <= i < |ms| => Route(ms[i], commandChannel))
  }

  lemma RoutesCons(ms: seq<Message>, commandChannel: string)
    requires |ms| > 0
    ensures Routes(ms, commandChannel) == [Route(ms[0], commandChannel)] + Routes(ms[1..], commandChannel)
  {
  }

  lemma WrapCons(ms: seq<Message>, tail: Queue)
    requires |ms| > 0
    ensures (Wrap(ms) + tail)[0] == Some(ms[0]) && (Wrap(ms) + tail)[1..] == Wrap(ms[1..]) + tail
  {
  }

  /** A drained run of messages `ms` followed by an empty poll yields the
      routes of `ms`, in order, and leaves what follows the empty poll. */
  lemma {:induction false} ListenRoutesInOrder(ms: seq<Message>, tail: Queue, commandChannel: string)
    requires |tail| == 0 || tail[0].None?
    ensures Listen(Wrap(ms) + tail, commandChannel) == (Concat(Routes(ms, commandChannel)), GetMessage(tail).1)
    decreases |ms|
  {
    if |ms| == 0 {
      assert Wrap(ms) + tail == tail;
      assert Routes(ms, commandChannel) == [];
    } else {
      WrapCons(ms, tail);
      ListenRoutesInOrder(ms[1..], tail, commandChannel);
      RoutesCons(ms, commandChannel);
      ConcatCons(Route(ms[0], commandChannel), Routes(ms[1..], commandChannel));
    }
  }

  /** The channel an edge device subscribes to for its commands. */
  function CommandChannel(deviceName: string, deviceNum: string): (ch: string)
    ensures '/' in ch
  {
    assert EncodeCommandTopic(deviceName, deviceNum)[6] == '/';
    EncodeCommandTopic(deviceName, deviceNum)
  }

  /** The command channel is never the error channel, so no message reaches
      both handlers, and it decodes back to the device it was built for. */
  lemma CommandChannelIsDistinct(deviceName: string, deviceNum: string)
    requires '/' !in deviceName && '/' !in deviceNum
    ensures CommandChannel(deviceName, deviceNum) != ErrorChannel
    ensures DecodeCommandTopic(CommandChannel(deviceName, deviceNum)) == Ok(DeviceAddress(deviceName, deviceNum))
  {
    assert '/' !in ErrorChannel;
    CommandTopicRoundTrip(deviceName, deviceNum);
  }

  /** `publish_data`: the encoded reading on the readings topic of the
      device and reading type. */
  function PublishData(deviceName: string, deviceNum: string, readingType: string, data: Value): (r: Result<Publication>)
    ensures r.Ok? <==> data.Dict? && Stamped(data.fields)
    ensures r.Ok? ==> r.value.payload == EncodeReading(data).value
  {
    var payload :- EncodeReading(data);
    Ok(Publication(EncodeReadingsTopic(deviceName, deviceNum, readingType), payload))
  }

  /** A subscriber recovers the device, reading type and reading from a
      publication. */
  lemma PublicationRoundTrip(deviceName: string, deviceNum: string, readingType: string, d: map<string, Value>)
    requires '/' !in deviceName && '/' !in deviceNum && '/' !in readingType
    requires Stamped(d)
    ensures PublishData(deviceName, deviceNum, readingType, Dict(d)).Ok?
    ensures var p := PublishData(deviceName, deviceNum, readingType, Dict(d)).value;
      DecodeReadingsTopic(p.topic) == Ok(ReadingsAddress(deviceName, deviceNum, readingType))
      && DecodeReading(p.payload) == Ok(Dict(d))
  {
    ReadingsTopicRoundTrip(deviceName, deviceNum, readingType);
    ReadingRoundTrip(d);
  }
}
