# EM133 metering tool: register protocol and messaging core in Dafny

This project models the core of the EM133 metering tool: a set of Python
edge-device drivers that poll Modbus devices (a Satec grid meter and a
Statcom) and exchange readings, commands and error codes over a Redis
publish/subscribe bus. It also models the EM133 monitor, which relays the
meter's power readings into the Statcom. The model covers these parts:

- **Register map** (`registers.dfy`). The configuration's register table
  is turned into a decode plan, one slot per value, plus `unused_<addr>`
  16-bit pads. The start-up coverage check `check_register_locations` is
  part of it.
- **Decoder** (`decoder.dfy`). Words read from the device are laid out
  little-endian and unpacked with a `struct` format. The values are
  scaled, offset and rounded to one decimal, then keyed by name, and the
  pads are dropped.
- **Transport** (`transport.dfy`). `read_modbus` is a retry loop whose
  attempt counter rebuilds the Modbus client on every fourth failure. The
  device is a script of outcomes, one per request.
- **Session** (`session.dfy`). This is the edge device itself:
  - the module name split;
  - `update_read` and `update`, which merge into the state;
  - the two-state safe mode of `handle_error`;
  - `log_reading`;
  - the dispatch of the calls `listen` makes.
- **Topics** (`topics.dfy`). The pub/sub topic and MQTT channel builders
  and decoders, and the glob patterns subscribers use.
- **Messages** (`messages.dfy`). The JSON envelopes of commands, readings
  and combined readings. JSON text and ISO-8601 text are abstract,
  injective encodings with a left inverse (`values.dfy`).
- **Bus** (`bus.dfy`):
  - the Redis helpers `get_next_message` and `get_current_message`;
  - `get_pattern`, `get_channel` and `get_data`;
  - the `listen` routing loop;
  - the command channel;
  - `publish_data`.
- **Statcom** (`statcom.dfy`). `handle_command` maps a command to the
  Modbus "Write Multiple Registers" requests (function 0x10) it issues.
  `write_modbus` collects the answers' function codes.
- **Meter** (`meter.dfy`):
  - the device identity, the MAC registers written in hexadecimal;
  - the waveform row header and samples;
  - the command handler, which ignores every command.
- **Relay** (`relay.dfy`). The EM133 monitor's per-phase power words, the
  14-word payload at register 1109, and the update timer.
- `int16.dfy` holds Python's `int()` and `float()` on bus values and the
  16-bit wrap of negative values. `text.dfy` holds `str.split`, `join`,
  `rsplit`, glob matching and decimal text. `wrappers.dfy` holds
  `Option` and `Result`.

A Python exception that propagates becomes `Err(name)`, where `name` is
the exception class, for example `Err("IndexError")`. A loop that never
ends becomes `Err("Stalled")` or the `Stalled` outcome. Examples are a
read retried for ever and a blocking poll of a queue that holds no
message. `Err("NotModelled")` marks inputs the model does not decide.

Some consequences of the code that a reader might not expect:

- `update` merges the decoded registers into the existing state with
  `dict.update`, so keys from earlier polls survive.
- A `struct` size mismatch raises out of `update_read`. Nothing catches
  it there.
- Each block is read with `size - 1` registers. So a block must start one
  address before its first register for the format to fit the bytes. A
  block that starts at its first register makes `struct.unpack` raise:
  `Decoder.StartAtFirstRegisterFails` and
  `Decoder.StartBeforeFirstRegisterValues` prove both cases.
- The Statcom records `read_only_mode` but never consults it
  (`Statcom.ReadOnlyIsNotConsulted`).

## Model

| member | source | states |
|---|---|---|
| RegisterMap.CheckRegisterLocations | utils/edge_device.py:199-219 | true exactly when every configured location lies in some block's range `start..start+size-1`; otherwise it names the first uncovered location |
| RegisterMap.NumberColumn | utils/edge_device.py:288-308 | a numeric column of the register table: any missing key gives all zeros for the basic read and a `KeyError` for a custom read |
| RegisterMap.Columns | utils/edge_device.py:399-415 | the per-register columns of a section: names, locations and codes as configured, every scalar multiplied by the device polarity and every offset as configured; for the basic read a missing scalar or offset makes that whole column zeros, for a custom read it fails |
| RegisterMap.AddressDetails | utils/edge_device.py:447-490 | one address contributes at most one slot, taken from the table or a pad: the slot of its first configuration entry when configured; otherwise nothing exactly when it is the block's first address or follows a 32-bit register, and a pad named after it in every other case |
| RegisterMap.AddressContribution | utils/edge_device.py:447-490 | those promises determine the contribution: it is the reference definition `AddressSlots` |
| RegisterMap.BlockDetails | utils/edge_device.py:426-495 | the walk over `range(start, start+size)` equals the reference plan of the block |
| RegisterMap.RegisterDetailsInBlocks | utils/edge_device.py:395-502 | the compiled plan is the blocks' plans concatenated in block order |
| RegisterMap.DecodePlan | utils/edge_device.py:399-415 | the basic read always compiles; a custom read compiles exactly when every register has a scalar and an offset |
| RegisterMap.ConfiguredAddressEmitted | utils/edge_device.py:450-457 | a configured address contributes the slot of its first configuration entry; a later duplicate is never used |
| RegisterMap.UnconfiguredFirstAddressEmitsNothing | utils/edge_device.py:463-466 | an unconfigured first address of a block contributes nothing |
| RegisterMap.NoPadAfterDoubleRegister | utils/edge_device.py:221-225 | the address after a 32-bit register (I, i, l, L, f) contributes nothing |
| RegisterMap.PadAfterQuadrupleRegister | utils/edge_device.py:227-231 | the address after a 64-bit register (q, Q, d) is padded as an unused 16-bit register, because the 64-bit check is never called |
| RegisterMap.PadNameIsUnused | utils/edge_device.py:474 | every pad name contains `unuse`, so the decoder's filter removes it |
| RegisterMap.PlanFromTable | utils/edge_device.py:447-490 | every slot of a plan is a pad or the slot of a configured register's first entry |
| RegisterMap.CoveredRegistersArePlanned | utils/edge_device.py:199-219 | when the coverage check passes, every configured register's slot is in the plan |
| Decoder.WordBytes | utils/edge_device.py:547 | two bytes per word, low byte first |
| Decoder.FormatSize | utils/edge_device.py:582 | the format has a size exactly when every code is a known sized code |
| Decoder.Unpack | utils/edge_device.py:582 | unpacking succeeds exactly when the format size equals the byte count; an unknown code raises `struct.error` |
| Decoder.Round1 | utils/edge_device.py:586 | the result is within half a tenth of the input and lies on a tenth |
| Decoder.Round1OnTenths | utils/edge_device.py:586 | a value already on a tenth is unchanged by rounding |
| Decoder.ZipMap | utils/edge_device.py:588 | the dictionary's keys are the names, and each name holds the value at its last occurrence |
| Decoder.RemoveUnused | utils/edge_device.py:592-598 | exactly the keys containing `unuse` are removed; the other values are kept |
| Decoder.DecodeWords | utils/edge_device.py:519-600 | decoding succeeds exactly when the format size is twice the word count; the keys are the non-pad slot names; each value is the scaled, offset and rounded field |
| Decoder.PadsAreDropped | utils/edge_device.py:596-598 | no `unused_<addr>` key survives decoding |
| Decoder.WordAsUnsigned16 | utils/edge_device.py:547-582 | an `H` field over one word is the word |
| Decoder.WordAsSigned16 | utils/edge_device.py:547-582 | an `h` field over one word is its two's-complement value |
| Decoder.WordsAsUnsigned32 | utils/edge_device.py:547-582 | an `I` field over two words is low word + 65536 × high word |
| Decoder.StartAtFirstRegisterFails | utils/edge_device.py:259 | a block starting at its first register asks for one word too few, and unpacking raises |
| Decoder.StartBeforeFirstRegisterValues | utils/edge_device.py:259 | the same registers in a block starting one address earlier decode to X = 1.0 and Y = 5.0 from the words [1, 0, 50, 0] |
| Transport.RequestFor | utils/edge_device.py:256-261 | each request asks for the block's start address and `size - 1` registers |
| Transport.AfterFailure | utils/edge_device.py:270-279 | a failure decrements a positive counter; at 0 it rebuilds the client and resets the counter to 3 |
| Transport.Run | utils/edge_device.py:246-286 | a completed call stays within the counter's range and issues one request per block plus one per failure |
| Transport.ReadModbus | utils/edge_device.py:236-286 | the loop as written computes the reference run |
| Transport.ReadBlock | utils/edge_device.py:254-280 | the retry loop of one block ends exactly when the reference run passes that block, or reports the stall the reference run has |
| Transport.ReconnectCount | utils/edge_device.py:248-280 | the counter cycles 3, 2, 1, 0, 3; the reconnect count and the final counter follow from the failure count alone |
| Transport.ReconnectsPerCall | utils/edge_device.py:248-280 | F failures in one call cause exactly F div 4 reconnects |
| Transport.RunConsumes | utils/edge_device.py:251-286 | a completed call uses one answer per block, and its words are those answers concatenated in block order |
| Transport.StallIff | utils/edge_device.py:251-280 | a call completes exactly when the device answers at least once per block; otherwise it retries for ever |
| Transport.RequestTargets | utils/edge_device.py:251-262 | the k-th request asks for the first block not yet answered, so a failed block is asked for again |
| Transport.CounterSharedAcrossBlocks | utils/edge_device.py:248 | a success does not reset the counter: three failures on one block and one on the next rebuild the client once |
| Session.ModuleParts | utils/edge_device.py:44-45 | a name without `_` raises; otherwise type `_` number gives back the name, and the number has no `_` |
| Session.ModulePartsOf | utils/edge_device.py:44-45 | splitting `type_num`, where the number has no `_`, gives back type and number |
| Session.NewDevice | utils/edge_device.py:43-92 | construction succeeds exactly when the module name has a `_` and, for a Modbus device, every basic register lies in a basic read block; a Modbus device with an uncovered register exits the process; a new device starts outside safe mode, and its state holds only `device_id` and `datetime` |
| RegisterMap.LocationsCovered | utils/edge_device.py:199-219 | the constructor's verdict on the basic registers: true exactly when every location lies in some block |
| Session.DeviceNameIsModuleName | utils/edge_device.py:384 | the published device name `type_num` is the module name again |
| Session.ErrorCode | utils/edge_device.py:332-333 | a string code in the plain decimal form is parsed as that integer; other text is outside the model; an integer is taken as is |
| Session.HandleErrorCode | utils/edge_device.py:328-341 | safe mode is on exactly when the code is nonzero, and nothing else about the device changes |
| Session.ErrorCodeText | utils/edge_device.py:332-341 | a code sent as its decimal text acts exactly as the number |
| Session.SafeModeForgetsHistory | utils/edge_device.py:338-341 | the latest code alone decides safe mode |
| Session.Merge | utils/edge_device.py:604-605 | keys of the update override; every other earlier key keeps its value |
| Session.UpdateRead | utils/edge_device.py:504-600 | records the reading type, returns no pad keys, and the read rebuilt the client once per four failures; a plan error or a stalled read is passed on; otherwise the poll succeeds exactly when the plan's format covers twice as many bytes as words were read, and its values are those the decoder gives for the plan and the words read |
| Session.Update | utils/edge_device.py:602-605 | the new state keeps every earlier key and adds `datetime`; safe mode is unchanged |
| Session.UpdateMerges | utils/edge_device.py:602-605 | after a poll, decoded keys hold their new values, `datetime` holds the poll time, and other keys keep their earlier values |
| Session.LogReading | utils/edge_device.py:362-376 | in safe mode nothing is read or published |
| Session.LogReadingPublishes | utils/edge_device.py:368-374 | outside safe mode a successful update is published, and the payload is the encoded updated state |
| Session.SafeModeFollowsLastError | utils/redis_edge_device_ipc.py:51-68 | when commands leave safe mode alone, the last error code delivered by `listen` decides safe mode |
| Session.CommandsKeepSafeMode | utils/redis_edge_device_ipc.py:64-66 | a run of commands handled by a handler that keeps safe mode leaves safe mode as it was |
| Session.Dispatch | utils/redis_edge_device_ipc.py:51-68 | a stream of error codes only succeeds when every code parses, and then changes nothing but safe mode (which code decides it: `Session.SafeModeFollowsLastError`) |
| Topics.Segment | utils/pubsub_topic_encoder_decoder.py:19-21 | indexing a split topic succeeds exactly when there are enough segments, and a segment holds no `/` |
| Topics.DecodeCommandTopic | utils/pubsub_topic_encoder_decoder.py:17-25 | decoding succeeds exactly when the topic has at least 3 segments |
| Topics.CommandTopicRoundTrip | utils/pubsub_topic_encoder_decoder.py:13-25 | decoding an encoded command topic gives back name and number when neither contains `/` |
| Topics.CommandTopicIgnoresLiterals | utils/pubsub_topic_encoder_decoder.py:17-25 | the decoder reads segments 1 and 2 whatever the literal segments are |
| Topics.DecodeGroupCommandTopic | utils/pubsub_topic_encoder_decoder.py:32-37 | decoding succeeds exactly when the topic has at least 2 segments, and the device type holds no `/` |
| Topics.GroupCommandTopicRoundTrip | utils/pubsub_topic_encoder_decoder.py:27-37 | the group-command decoder gives back the device type |
| Topics.ReadingsTopicRoundTrip | utils/pubsub_topic_encoder_decoder.py:51-78 | an encoded readings topic has 5 segments and decodes to its name, number and reading type |
| Topics.DecodeReadingsTopic | utils/pubsub_topic_encoder_decoder.py:63-78 | decoding succeeds exactly with 5 or more segments; with 3 or 4 it fails at the return with `UnboundLocalError` |
| Topics.ReadingsTopicWithoutType | utils/pubsub_topic_encoder_decoder.py:69-78 | a four-segment readings topic fails only when the return statement is reached |
| Topics.DecodeHeartbeat | utils/pubsub_topic_encoder_decoder.py:93-100 | decoding succeeds exactly when the topic has at least 3 segments |
| Topics.HeartbeatRoundTrip | utils/pubsub_topic_encoder_decoder.py:88-100 | the heartbeat decodes to its module name and number; a missing number is the text `None` |
| Topics.DecodeErrorTopic | utils/pubsub_topic_encoder_decoder.py:107-112 | decoding succeeds exactly when the topic has at least 2 segments |
| Topics.ErrorTopicRoundTrip | utils/pubsub_topic_encoder_decoder.py:102-112 | the error-topic decoder gives back the module name |
| Topics.Stem | utils/pubsub_topic_encoder_decoder.py:136 | the stem holds neither `/` nor `.` |
| Topics.StemOfPlainName | utils/pubsub_topic_encoder_decoder.py:136 | a last path component without `.` is its own stem |
| Topics.DecodeStateQueryTopic | utils/pubsub_topic_encoder_decoder.py:150-154 | decoding succeeds exactly when the topic has at least 3 segments |
| Topics.DecodeStateAnswerTopic | utils/pubsub_topic_encoder_decoder.py:164-168 | decoding succeeds exactly when the topic has at least 3 segments |
| Topics.StateQueryRoundTrip | utils/pubsub_topic_encoder_decoder.py:144-153 | decoding a state query topic gives the stem of the sender's path |
| Topics.StateAnswerRoundTrip | utils/pubsub_topic_encoder_decoder.py:159-167 | decoding a state answer topic gives back the program name |
| Topics.GetStateAnswerPattern | utils/pubsub_topic_encoder_decoder.py:169-172 | the requester's answer pattern is the answer topic for its own stem |
| Topics.DecodeChannel | utils/pubsub_topic_encoder_decoder.py:188-198 | decoding succeeds exactly when the channel splits into 4 pieces at most 3 times |
| Topics.DecodeChannelOf | utils/pubsub_topic_encoder_decoder.py:188-198 | the metadata keeps every further `/`, and the first segment is never checked |
| Topics.ConfigChannelRoundTrip | utils/pubsub_topic_encoder_decoder.py:180-198 | a config channel decodes to (site, `config`, `None`) |
| Topics.SyncPostgresChannelRoundTrip | utils/pubsub_topic_encoder_decoder.py:184-198 | a sync channel decodes to (site, `data`, `None`) |
| Topics.ReadingsTopicMatchesPattern | utils/pubsub_topic_encoder_decoder.py:52-61 | every readings topic matches the readings glob pattern |
| Topics.GroupCommandTopicMatchesPattern | utils/pubsub_topic_encoder_decoder.py:27-41 | every group-command topic matches the group-command pattern |
| Topics.SiteStorageListenerMatchesPattern | utils/pubsub_topic_encoder_decoder.py:134-141 | every site storage listener channel matches its pattern |
| Topics.StateQueryTopicMatchesPattern | utils/pubsub_topic_encoder_decoder.py:144-157 | every state query topic matches its pattern |
| Topics.EncodeCommandTopic | utils/pubsub_topic_encoder_decoder.py:14-16 | `device/<name>/<num>/command`; characterised by `Topics.CommandTopicRoundTrip` |
| Topics.EncodeGroupCommandTopic | utils/pubsub_topic_encoder_decoder.py:28-30 | `device/<type>/group_command`; characterised by `Topics.GroupCommandTopicRoundTrip` and `Topics.GroupCommandTopicMatchesPattern` |
| Topics.EncodeReadingsTopic | utils/pubsub_topic_encoder_decoder.py:52-58 | `device/<name>/<num>/readings/<type>`; characterised by `Topics.ReadingsTopicRoundTrip` and `Topics.ReadingsTopicMatchesPattern` |
| Topics.EncodeHeartbeat | utils/pubsub_topic_encoder_decoder.py:89-91 | `heartbeat/<module>/<num or None>`; characterised by `Topics.HeartbeatRoundTrip` |
| Topics.EncodeErrorTopic | utils/pubsub_topic_encoder_decoder.py:103-105 | `device/<module>/errors`; characterised by `Topics.ErrorTopicRoundTrip` |
| Topics.EncodeSiteStorageListener | utils/pubsub_topic_encoder_decoder.py:135-138 | `site_storage_listener/<stem>`; characterised by `Topics.SiteStorageListenerMatchesPattern` |
| Topics.EncodeStateQueryTopic | utils/pubsub_topic_encoder_decoder.py:145-148 | `state/query/<stem>`; characterised by `Topics.StateQueryRoundTrip` and `Topics.StateQueryTopicMatchesPattern` |
| Topics.EncodeStateAnswerTopic | utils/pubsub_topic_encoder_decoder.py:160-162 | `state/answer/<program>`; characterised by `Topics.StateAnswerRoundTrip` |
| Topics.EncodeConfigChannel | utils/pubsub_topic_encoder_decoder.py:181-183 | `site/<id>/config/None`; characterised by `Topics.ConfigChannelRoundTrip` |
| Topics.EncodeSyncPostgresChannel | utils/pubsub_topic_encoder_decoder.py:185-187 | `site/<id>/data/None`; characterised by `Topics.SyncPostgresChannelRoundTrip` |
| Values.FromIsoFormat | utils/redis_message_structures.py:52 | only ISO text converts; anything else raises |
| Values.Loads | utils/redis_message_structures.py:51 | only JSON text parses |
| Values.IsoRoundTrip | utils/redis_message_structures.py:52 | `fromisoformat(isoformat(t))` is `t` |
| Values.JsonRoundTrip | utils/redis_message_structures.py:51 | `loads(dumps(v))` is `v` for every value `dumps` accepts |
| Values.Dumps | utils/redis_message_structures.py:41 | `json.dumps` succeeds exactly when no datetime object occurs at any depth |
| Messages.CommandFromDict | utils/redis_message_structures.py:23-31 | building a command from a dictionary succeeds exactly when all five fields are present, and each field takes its entry |
| Messages.DecodeCommand | utils/redis_message_structures.py:49-62 | a value that is not text is taken as the dictionary itself and converted as it is |
| Messages.CommandDictRoundTrip | utils/redis_message_structures.py:20-31 | a command rebuilt from its own `__dict__` is the same command |
| Messages.EncodeCommand | utils/redis_message_structures.py:37-41 | encoding succeeds exactly when `datetime` is a datetime and the fields are serialisable; the argument's `datetime` becomes its ISO text |
| Messages.CommandRoundTrip | utils/redis_message_structures.py:37-62 | decoding the encoded text gives back the message as it was before encoding |
| Messages.EncodeCommandMutates | utils/redis_message_structures.py:38-41 | the encoder changes its argument, so encoding the same object again raises `AttributeError` |
| Messages.DecodeCommandPassesDictThrough | utils/redis_message_structures.py:53-54 | a dictionary passed to `decode_command` keeps its `datetime` unconverted |
| Messages.EncodeCommandForDatabase | utils/redis_message_structures.py:43-46 | a copy with the same keys: only `settings` changes, to text; a missing `settings` raises `KeyError` |
| Messages.DatabaseSettingsSplitBack | utils/redis_message_structures.py:43-46 | the comma-joined settings split back into the original strings, when the list is non-empty and no setting holds a comma |
| Messages.EmptySettingsDoNotSplitBack | utils/redis_message_structures.py:45 | an empty settings list becomes `""`, which splits into one empty setting |
| Messages.StringSettingsAreSpelledOut | utils/redis_message_structures.py:45 | a string setting is joined character by character (`"on"` becomes `"o,n"`) |
| Messages.StrAll | utils/redis_message_structures.py:45 | `str` is applied to each item in order; the result fails exactly when some item's text is unknown |
| Messages.EncodeReading | utils/redis_message_structures.py:64-69 | encoding succeeds exactly for a dictionary with a datetime `datetime` and serialisable other entries |
| Messages.ReadingRoundTrip | utils/redis_message_structures.py:64-76 | decoding an encoded reading gives back the reading |
| Messages.DecodeReading | utils/redis_message_structures.py:72-76 | a decoded reading is a dictionary whose `datetime` is a datetime object |
| Messages.EncodeCombinedReading | utils/redis_message_structures.py:78-89 | every non-`datetime` entry becomes the encoded text of a nested reading, and `datetime` becomes ISO text |
| Messages.DecodeCombinedReading | utils/redis_message_structures.py:91-102 | decoding succeeds exactly when `datetime` is ISO text and each other entry decodes as a reading |
| Messages.CombinedReadingRoundTrip | utils/redis_message_structures.py:78-102 | decoding an encoded combined reading gives back the dictionary |
| Messages.EncodeInPlace | utils/redis_message_structures.py:122-138 | the error-code and state encoders give `encode_reading`'s text but write the ISO text into their argument |
| Messages.CopyVersusInPlace | utils/redis_message_structures.py:64-69 | the copying and mutating encoders agree on the text, but only the mutating one fails on a second use |
| Messages.EncodeJsonWithDate | utils/redis_message_structures.py:147-155 | an existing `datetime` is kept; otherwise the current time is inserted |
| Messages.JsonWithDateRoundTrip | utils/redis_message_structures.py:147-161 | decoding gives back the dictionary, stamped with the current time when it had no `datetime` |
| Messages.EncodeSubprocessLog | utils/redis_message_structures.py:104-113 | encoding succeeds exactly when every argument has a `str` text; the log has exactly its five keys, is stamped with the current time, carries the process name, pid and starting flag unchanged, and its `arguments` is the comma-join of `str` of each argument in order |
| Messages.SubprocessArgumentsSplitBack | utils/redis_message_structures.py:104-113 | when at least one argument is given and no argument's text holds a comma, splitting the logged `arguments` at the commas gives back `str` of each argument, in order |
| Bus.GetMessage | utils/redis_edge_device_ipc.py:52 | one poll takes the head of the queue, or `None` when the queue is empty |
| Bus.GetPattern | utils/redis_custom_library.py:86-89 | `None` exactly when there is no message or it has no pattern |
| Bus.GetChannel | utils/redis_custom_library.py:91-94 | the channel, or `None` exactly when there is no message or it has no pattern |
| Bus.GetData | utils/redis_custom_library.py:96-99 | the data, or `None` exactly when there is no message or it has no pattern |
| Bus.NextMessage | utils/redis_custom_library.py:42-55 | non-blocking: consumes one item and returns it only if it is a message. Blocking: skips non-messages to the first message, and never returns when there is none |
| Bus.SkipToMessage | utils/redis_custom_library.py:46-55 | the blocking loop stalls exactly when no item is a message; otherwise it returns the first message and leaves what follows it |
| Bus.NonMessageHidesLaterMessages | utils/redis_custom_library.py:49-51 | a non-message item makes a non-blocking poll return `None` although a message waits behind it |
| Bus.GetCurrentMessage | utils/redis_custom_library.py:58-83 | what is returned is a message or the older message passed over before |
| Bus.CurrentIsFirstFresh | utils/redis_custom_library.py:66-79 | the first message sent at or after the call time is returned, and the messages behind it stay queued |
| Bus.CurrentFallsBackToLastOlder | utils/redis_custom_library.py:70-83 | when only older messages arrive before an empty poll, the last of them is returned |
| Bus.Route | utils/redis_edge_device_ipc.py:56-66 | a message without a pattern is ignored; `error-master` goes to the error handler and the command channel to the command handler; any other channel is dropped |
| Bus.ListenLoop | utils/redis_edge_device_ipc.py:51-68 | the loop as written computes the reference `listen` |
| Bus.Listen | utils/redis_edge_device_ipc.py:51-68 | each round consumes queue items, so the loop ends (the calls it makes: `Bus.ListenRoutesInOrder`) |
| Bus.ListenRoutesInOrder | utils/redis_edge_device_ipc.py:51-68 | the calls are the routes of the drained messages in arrival order, ending at the first empty poll |
| Bus.CommandChannelIsDistinct | utils/redis_edge_device_ipc.py:26 | the command channel is never `error-master` and decodes back to the device it was built for |
| Bus.CommandChannel | utils/redis_edge_device_ipc.py:26 | the channel contains a `/`, so it is never `error-master` (its decoding: `Bus.CommandChannelIsDistinct`) |
| Bus.PublishData | utils/redis_edge_device_ipc.py:32-47 | publishing succeeds exactly for a stamped dictionary, and the payload is its encoded reading |
| Bus.PublicationRoundTrip | utils/redis_edge_device_ipc.py:32-47 | a subscriber decodes the device, reading type and reading back from a publication |
| Text.SplitJoin | utils/redis_message_structures.py:45 | splitting a join of comma-free pieces gives back the pieces |
| Text.ParseInt | utils/edge_device.py:332-333 | the model's restricted reader for `int()` of text: it accepts exactly a non-empty run of digits, optionally after a minus sign |
| Text.IntToStringRoundTrip | utils/edge_device.py:332-333 | `int(str(n))` is `n` |
| Int16.Trunc | utils/statcom_child.py:123 | `int()` on a float truncates toward zero |
| Int16.ToWord | utils/statcom_child.py:121-122 | a negative value gets 65536 added, and a signed 16-bit value lands in 0..65535 |
| Int16.ToWordReadsBack | utils/statcom_child.py:129-136 | a written signed 16-bit value reads back as an `h` field unchanged |
| Int16.PyInt | utils/statcom_child.py:73-79 | `int()` of an integer is itself, of a float its truncation, of decimal text its value; `None`, lists, dictionaries and datetimes raise `TypeError` |
| Int16.PyFloat | utils/statcom_child.py:73-79 | `float()` keeps the value of an integer, a float or decimal text; `None`, lists, dictionaries and datetimes raise `TypeError` |
| Int16.IntOfFloat | utils/statcom_child.py:73-79 | `int(float(v))` and `int(v)` agree wherever `float(v)` is defined |
| Int16.PyIntOfText | utils/statcom_child.py:73-79 | the decimal text of `n` converts back to `n` under both `int` and `float` |
| Statcom.NewStatcom | utils/statcom_child.py:23-32 | the new phase order exactly for `version == "new"`; read-only exactly for `mode == "read_only"` |
| Statcom.PowerWord | utils/statcom_child.py:119-123 | for a power in the signed 16-bit range the word fits a register; it is the truncation of the power, shifted by 65536 when negative |
| Statcom.HandleCommand | utils/statcom_child.py:54-102 | a message that does not decode fails before any write; a decoded mode keyword issues its `ModeTable` write and an unknown keyword nothing; `set_power` with a power in the 16-bit range writes three equal words at 1000 that read back as its floor |
| Statcom.HandlePowerCommands | utils/statcom_child.py:54-102 | through `handle_command`, `set_powers_3p` with three whole powers writes one block of 16-bit words at 1000 that read back as the phases, in the firmware's order; `set_reactive_power` succeeds exactly when `set_power` would and writes its block at 1004, 1005 and 1006 |
| Statcom.Writes | utils/statcom_child.py:64-101 | at most three writes, every one to a register of the command set; only the three power keywords can fail (the keyword table itself is stated on `Statcom.HandleCommand` and `Statcom.HandlePowerCommands`) |
| Statcom.ModeCommandsFollowTable | utils/statcom_child.py:64-93 | each single-register command writes its table entry: start/stop 1050 ← 1/0, voltage/current mode 1055 ← 1/0, enable/disable 1048 ← 1/0, zero/manual/volt var mode 1054 ← 0/1/2 |
| Statcom.UnknownKeywordWritesNothing | utils/statcom_child.py:96-98 | an unrecognised keyword writes nothing and does not fail |
| Statcom.ReadOnlyIsNotConsulted | utils/statcom_child.py:32 | a read-only Statcom issues exactly the writes of a read/write one |
| Statcom.VersionOnlyOrdersPhases | utils/statcom_child.py:138-141 | the firmware version affects no command but `set_powers_3p` |
| Statcom.SetPowerWrites | utils/statcom_child.py:119-124 | `set_power p` writes three equal words at 1000; each reads back as the floor of `p` |
| Statcom.PowerWordReadsBack | utils/statcom_child.py:119-124 | a whole power in range reads back as itself |
| Statcom.HalfNegativeDiffers | utils/statcom_child.py:73-79 | -0.5 is written as -1 by `set_power` but as 0 by `set_powers_3p` |
| Statcom.EmptySettings | utils/statcom_child.py:69-71 | `set_power` with empty settings writes nothing; `set_reactive_power` with empty settings raises `IndexError` |
| Statcom.TooFewPhasesWriteNothing | utils/statcom_child.py:75-77 | `set_powers_3p` with fewer than three settings writes nothing |
| Statcom.ThreePhaseOrder | utils/statcom_child.py:126-141 | three phase powers are written at 1000, each reading back as its power; the old firmware gets the new order rotated, phase 3 first |
| Statcom.ReactiveMatchesPower | utils/statcom_child.py:167-175 | `set_reactive_power` writes `set_power`'s block to 1004, 1005 and 1006, in that order |
| Statcom.WriteModbus | utils/statcom_child.py:103-111 | one function code per block, in order: 0x10 exactly when the device accepts the block, 0x90 otherwise |
| Meter.HexRoundTrip | utils/meter_satec_child.py:103 | the hexadecimal text decodes back to the bytes |
| Meter.DeviceIdOf | utils/meter_satec_child.py:102-103 | four digits per word |
| Meter.DeviceIdRoundTrip | utils/meter_satec_child.py:102-103 | the identity text gives back each word, low byte then high byte |
| Meter.OneBlockReadsFirstAnswer | utils/meter_satec_child.py:100-101 | a one-block read completes exactly when the device answers once, and returns that first answer |
| Meter.GetDeviceId | utils/meter_satec_child.py:98-103 | succeeds exactly when the device answers at least once, otherwise stalls; the identity has four digits per word (the value: `Meter.DeviceIdIsFirstAnswer`) |
| Meter.DeviceIdIsFirstAnswer | utils/meter_satec_child.py:99-104 | the identity is the hexadecimal text of the first answer; three registers give 12 digits |
| Meter.WaveformHeader | utils/meter_satec_child.py:130-134 | the header is read exactly when the row has at least 31 words; the divisor is word 30 |
| Meter.HeaderAsStructFields | utils/meter_satec_child.py:130-134 | the offset is word 27 as an `h` field, and the multiplier is words 28 and 29 as an `I` field |
| Meter.Samples | utils/meter_satec_child.py:136-137 | one sample per word after word 32, none for a short row |
| Meter.SamplesReadBack | utils/meter_satec_child.py:136-137 | each sample is a signed 16-bit value whose 16-bit encoding is its register word |
| Meter.WaveformRow | utils/meter_satec_child.py:129-144 | a row decodes exactly when it has a header, a nonzero divisor and a scalar; it yields one value per sample |
| Meter.DecodeWaveform | utils/meter_satec_child.py:126-146 | one output row per input row, each with one value per sample of a row holding a header and a nonzero divisor |
| Meter.DecodeRowsShape | utils/meter_satec_child.py:126-146 | the waveform decodes exactly when there are at most six rows, each with a header and a nonzero divisor; output row k is the physical values of row k's samples, with scalar k |
| Meter.WaveformScales | utils/meter_satec_child.py:50-55 | rows 0-2 are scaled as volts (0.1), rows 3-5 as amps (0.01) |
| Meter.SeventhRowRaises | utils/meter_satec_child.py:142 | a seventh row raises |
| Meter.MeterCommand | utils/meter_satec_child.py:154-155 | the meter's command handler leaves the device as it is |
| Meter.MeterIgnoresCommands | utils/meter_satec_child.py:154-155 | a stream of commands leaves a meter exactly as it was |
| Meter.MeterOnlySwitchesSafeMode | utils/meter_satec_child.py:154-155 | after `listen` a meter differs at most in safe mode; it fails exactly on an unreadable error code |
| Relay.PhaseWord | EM133_meter_tool.py:237-251 | a missing or `None` value raises `ValueError`; otherwise the word is `int` of the value, shifted by 65536 when negative |
| Relay.MeterGridPower | EM133_meter_tool.py:233-252 | three apparent and three active phase words; a missing entry of any phase makes the read fail (phase by phase: `Relay.GridPowerByPhase`) |
| Relay.GridPowerByPhase | EM133_meter_tool.py:233-252 | the powers are read exactly when all six entries convert; phase i of each list is the word of key i |
| Relay.MissingPhaseRaises | EM133_meter_tool.py:243-247 | a missing kW entry of any phase raises |
| Relay.PhaseWordReadsBack | EM133_meter_tool.py:240-243 | a power in the signed 16-bit range reads back as its truncation |
| Relay.Lifesign | EM133_meter_tool.py:266-269 | a missing lifesign raises `TypeError`; otherwise it is the `int` of the value plus one |
| Relay.Payload | EM133_meter_tool.py:264-280 | 14 words at register 1109; with the powers read, a missing export lifesign raises `TypeError` (the full layout: `Relay.PayloadLayout`) |
| Relay.PayloadLayout | EM133_meter_tool.py:259-283 | the payload is 14 words at 1109: kVA, kW, export lifesign, kVA, kW, generation lifesign; it fails exactly when a reading cannot be taken |
| Relay.LifesignDoesNotWrap | EM133_meter_tool.py:266-269 | a lifesign of 65535 is answered with 65536 |
| Relay.CheckTimer | EM133_meter_tool.py:228-231 | fires exactly when more than the period has elapsed, and moves the reference only when it fires |
| Relay.TimerFiresOnce | EM133_meter_tool.py:219-231 | a timer that has just fired does not fire again at the same instant; one that did not fire is unchanged |
| Relay.Update | EM133_meter_tool.py:259-283 | at most one write, and one exactly when the timer fires; a failed meter read then propagates; the period is kept (the gate in full: `Relay.UpdateGate`) |
| Relay.UpdateGate | EM133_meter_tool.py:259-283 | before the period has elapsed nothing is read or written; afterwards exactly the payload is written, once |

## Left out

- Network, Redis, Modbus TCP and MAC lookup are left out. Device reads are a script of `Outcome`s. Queues are sequences of items. The clock `now` is a parameter.
- Heartbeats, sleeping, `start`/`start_loop`, configuration loading, logging, the curses display and the state aggregator are left out. They do I/O only.
- IEEE float decoding (`e`, `f`, `d`) is a function parameter, `ieee`. Floating-point arithmetic is exact real arithmetic. This covers scaling, `np.round` (ties to even) and the waveform formula.
- `struct` codes whose values are not numbers (`x c s p ?`) and repeat counts give `Err("NotModelled")`.
- JSON and ISO-8601 texts are abstract: `JsonText(v)` stands for `json.dumps(v)` and `IsoText(t)` for `t.isoformat()`. Python's `int`/`float` distinction in decoded values is not kept. Every decoded value is a `Real`.
- Int16.PyInt: text is read only as an optional minus sign followed by digits. Python's other accepted spellings (blanks, `+`, `_`, and decimals for `float`) give `Err("NotModelled")`.
- Session.ErrorCode: non-text values are compared with 0 as Python would. Text outside the plain form `-?[0-9]+` gives `Err("NotModelled")`: Python accepts some of it (`+1`, ` 1`, `1\n`, `1_0`) and raises `ValueError` for the rest, and the model does not decide which.
- Text.ParseInt: reads only `-?[0-9]+`. It is not Python's full `int()`, which also takes surrounding blanks, a `+` sign and `_` separators; every caller reports the text it rejects as `NotModelled` or as outside the model.
- Int16.PyFloat: text is read with `Text.ParseInt`, so decimal text (`"1.5"`), exponents, `inf` and `nan` give `Err("NotModelled")` although Python's `float()` accepts them.
- Messages.DecodeCombinedReading: a nested entry that does not decode is reported as `NestedReading`. Python raises that entry's own exception (`TypeError`, `JSONDecodeError`, `KeyError` or `ValueError`), and which entry comes first depends on dictionary order.
- Session.NewDevice: `deviceId` is a parameter. For a meter it is read over Modbus by `get_device_id` during construction (utils/meter_satec_child.py:98-103), and that read can stall construction forever (`Meter.GetDeviceId`); this is not modelled inside `NewDevice`.
- Messages.EncodeCombinedReading: a nested reading that cannot be encoded is reported as `NestedReading`. Python raises that entry's own exception, and which entry comes first depends on dictionary order.
- Statcom.HandleCommand: the `update()` call that ends every command is left out. It is a full device poll, modelled by `Session.UpdateRead`. The writes are not checked against the 16-bit register range. Modbus client errors are left out.
- Meter.DeviceIdOf: `np.array(..., dtype=np.uint16).tobytes()` uses the host's byte order. The model assumes a little-endian host, so each word gives its low byte first.
- RegisterMap.Columns: every basic register entry is taken to carry `name`, `location` and `dtype`. In the source a missing key in any entry makes the whole column zeros (utils/edge_device.py:288-300); the model keeps that fallback only for `scalar` and `offset`.
- Meter.WaveformRow: `numpy` turns a zero divisor into infinities, and the model reports `NotModelled`. The model assumes a `numpy` older than 1.24: there, `np.float` exists and `np.int16` wraps words above 32767.
- Meter: the waveform capture `get_waveform` is commented out in the source. `get_datetime_values` is the constant `Meter.DatetimeValues`. `publish_data` ignores it, so `Bus.PublishData` takes no such argument.
- Relay.Update: the two readings `meterRead` and `statcomRead` are parameters. They are not tied to `Session.UpdateRead`, so the relay is modelled for any poll result.
- Relay.Update: `time.perf_counter()` is read twice in the source, once for the check and once for the reset. The model uses one instant `now` for both.
- Relay.Payload: the written block is not checked against the 16-bit range. A kVA or kW value of 65536 or more is written as it is.
- Constant topics (`user_command`, `combined_readings`, `power_command`, `system_status`) are constants. The decoders that raise `NotImplementedError` are left out. The MQTT encoder's `encode_heartbeat` and `decode_heartbeat` (utils/pubsub_topic_encoder_decoder.py:201-206) have `pass` bodies that return `None`, and are left out too.
