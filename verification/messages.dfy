/** The message envelopes of `RedisEncoderDecoder`: commands, readings,
    combined readings, error codes and the database forms, all built around
    a `datetime` field that travels as ISO-8601 text.

    A Python dictionary is a `map<string, Value>`. Encoders that copy their
    argument return only the text; encoders that assign into their argument
    return the text together with the argument as it is afterwards, so that
    the mutation is visible to the caller of the model. */
module Messages {
  import opened Wrappers
  import opened Text
  import opened Values

  const DateTimeKey := "datetime"
  const SettingsKey := "settings"

  /** `CommandMessage`: Python does not enforce the annotated field types,
      so every field is an arbitrary value. */
  datatype CommandMessage = CommandMessage(
    datetime: Value,
    senderProgramName: Value,
    recipientDeviceName: Value,
    commandKeyWord: Value,
    settings: Value)

  /** The command's `__dict__`. */
  function CommandDict(m: CommandMessage): (d: map<string, Value>)
    ensures d.Keys == {DateTimeKey, "sender_program_name", "recipient_device_name", "command_key_word", SettingsKey}
    ensures d[DateTimeKey] == m.datetime && d[SettingsKey] == m.settings
  {
    map[DateTimeKey := m.datetime,
        "sender_program_name" := m.senderProgramName,
        "recipient_device_name" := m.recipientDeviceName,
        "command_key_word" := m.commandKeyWord,
        SettingsKey := m.settings]
  }

  /** `CommandMessage(datetime=data["datetime"], ...)`: a `KeyError` for a
      missing field, a `TypeError` when `data` is not a dictionary. */
  function CommandFromDict(data: Value): (r: Result<CommandMessage>)
    ensures r.Ok? <==> data.Dict? && CommandDict(CommandMessage(Null, Null, Null, Null, Null)).Keys <= data.fields.Keys
    ensures r.Ok? ==> forall k :: k in CommandDict(r.value) ==> CommandDict(r.value)[k] == data.fields[k]
  {
    var dt :- Index(data, DateTimeKey);
    var sender :- Index(data, "sender_program_name");
    var recipient :- Index(data, "recipient_device_name");
    var keyWord :- Index(data, "command_key_word");
    var settings :- Index(data, SettingsKey);
    Ok(CommandMessage(dt, sender, recipient, keyWord, settings))
  }

  lemma CommandDictRoundTrip(m: CommandMessage)
    ensures CommandFromDict(Dict(CommandDict(m))) == Ok(m)
  {
  }

  /** Outcome of an encoder that writes into its argument: the JSON text
      (or the exception) and the argument after the call. */
  datatype CommandEncoding = CommandEncoding(text: Result<Value>, after: CommandMessage)

  predicate FieldsSerializable(m: CommandMessage) {
    Serializable(m.senderProgramName) && Serializable(m.recipientDeviceName)
    && Serializable(m.commandKeyWord) && Serializable(m.settings)
  }

  lemma CommandSerializable(m: CommandMessage, iso: Value)
    requires iso.IsoText?
    ensures Serializable(Dict(CommandDict(m.(datetime := iso)))) <==> FieldsSerializable(m)
  {
    var d := CommandDict(m.(datetime := iso));
    assert d["sender_program_name"] == m.senderProgramName;
    assert d["recipient_device_name"] == m.recipientDeviceName;
    assert d["command_key_word"] == m.commandKeyWord;
    assert d[SettingsKey] == m.settings;
  }

  /** `encode_command`: rewrites the message's own `datetime` attribute to
      its ISO text and dumps the message's `__dict__`. */
  function EncodeCommand(m: CommandMessage): (r: CommandEncoding)
    ensures r.text.Ok? <==> m.datetime.Time? && FieldsSerializable(m)
    ensures m.datetime.Time? ==> r.after.datetime == IsoText(m.datetime.t)
    ensures !m.datetime.Time? ==> r == CommandEncoding(Err("AttributeError"), m)
    ensures r.after.(datetime := m.datetime) == m
  {
    match IsoFormat(m.datetime)
    case Err(e) => CommandEncoding(Err(e), m)
    case Ok(iso) =>
      var after := m.(datetime := iso);
      CommandSerializable(m, iso);
      CommandEncoding(Dumps(Dict(CommandDict(after))), after)
  }

  /** `decode_command`: text is parsed and its `datetime` converted back; any
      other value is taken to be the dictionary itself and passed through
      untouched. */
  function DecodeCommand(data: Value): (r: Result<CommandMessage>)
    ensures !data.IsText() ==> r == CommandFromDict(data)
  {
    if data.IsText() then
      var d :- Loads(data);
      var dt :- Index(d, DateTimeKey);
      var t :- FromIsoFormat(dt);
      CommandFromDict(Dict(d.fields[DateTimeKey := t]))
    else
      CommandFromDict(data)
  }

  /** Decoding the encoded text gives back the message as it was before the
      encoder rewrote its `datetime`. */
  lemma CommandRoundTrip(m: CommandMessage)
    requires m.datetime.Time? && FieldsSerializable(m)
    ensures EncodeCommand(m).text.Ok?
    ensures DecodeCommand(EncodeCommand(m).text.value) == Ok(m)
  {
    var after := m.(datetime := IsoText(m.datetime.t));
    assert Dict(CommandDict(after)).fields[DateTimeKey := m.datetime] == CommandDict(m);
  }

  /** The encoder changed its argument: encoding the same message object a
      second time raises, because its `datetime` is now a string. */
  lemma EncodeCommandMutates(m: CommandMessage)
    requires m.datetime.Time?
    ensures EncodeCommand(m).after != m
    ensures EncodeCommand(EncodeCommand(m).after).text == Err("AttributeError")
  {
  }

  /** A dictionary given to `decode_command` keeps its `datetime` as it is:
      the `__dict__` of an already encoded message decodes to a message whose
      `datetime` is still text. */
  lemma DecodeCommandPassesDictThrough(m: CommandMessage)
    requires m.datetime.Time?
    ensures DecodeCommand(Dict(CommandDict(EncodeCommand(m).after))).Ok?
    ensures DecodeCommand(Dict(CommandDict(EncodeCommand(m).after))).value.datetime.IsoText?
  {
    CommandDictRoundTrip(EncodeCommand(m).after);
  }

  /** `str(x)` for the values whose text this model knows; `None` for the
      others (floats, containers, datetimes and already encoded text). */
  function PyStr(v: Value): Option<string> {
    match v
    case Str(s) => Some(s)
    case Int(i) => Some(IntToString(i))
    case Bool(b) => Some(if b then "True" else "False")
    case Null => Some("None")
    case _ => None
  }

  /** The items `map` walks over: a list's elements or a plain string's
      characters. */
  function Items(v: Value): (r: Result<seq<Value>>)
    ensures v.List? ==> r == Ok(v.items)
  {
    match v
    case List(items) => Ok(items)
    case Str(s) => Ok(Characters(s))
    case Int(_) => Err("TypeError")
    case Real(_) => Err("TypeError")
    case Bool(_) => Err("TypeError")
    case Null => Err("TypeError")
    case Time(_) => Err("TypeError")
    case _ => Err("NotModelled")
  }

  /** A string's characters, each as a one-character string. */
  function Characters(s: string): (r: seq<Value>)
    ensures |r| == |s| && forall i :: 0 <= i < |s| ==> r[i] == Str([s[i]])
  {
    if |s| == 0 then [] else [Str([s[0]])] + Characters(s[1..])
  }

  /** `list(map(lambda x: str(x), items))`. */
  function StrAll(items: seq<Value>): (r: Result<seq<string>>)
    ensures r.Ok? <==> forall i :: 0 <= i < |items| ==> PyStr(items[i]).Some?
    ensures r.Ok? ==> |r.value| == |items|
    ensures r.Ok? ==> forall i :: 0 <= i < |items| ==> r.value[i] == PyStr(items[i]).value
  {
    if |items| == 0 then Ok([])
    else
      match PyStr(items[0])
      case None => Err("NotModelled")
      case Some(s) =>
        match StrAll(items[1..])
        case Err(e) => Err(e)
        case Ok(rest) => Ok([s] + rest)
  }

  /** `encode_command_for_database`: a copy of the dictionary whose
      `settings` is the comma-join of `str` of each setting. */
  function EncodeCommandForDatabase(d: map<string, Value>): (r: Result<map<string, Value>>)
    ensures SettingsKey !in d ==> r == Err("KeyError")
    ensures r.Ok? ==> r.value.Keys == d.Keys
    ensures r.Ok? ==> forall k :: k in d && k != SettingsKey ==> r.value[k] == d[k]
    ensures r.Ok? ==> r.value[SettingsKey].Str?
  {
    var settings :- Get(d, SettingsKey);
    var items :- Items(settings);
    var texts :- StrAll(items);
    Ok(d[SettingsKey := Str(Join(texts, ','))])
  }

  /** The database form of a list of plain strings splits back into the
      same strings, unless the list is empty or a setting holds a comma. */
  lemma DatabaseSettingsSplitBack(d: map<string, Value>, texts: seq<string>)
    requires SettingsKey in d && d[SettingsKey].List? && |d[SettingsKey].items| == |texts|
    requires forall i :: 0 <= i < |texts| ==> d[SettingsKey].items[i] == Str(texts[i])
    requires |texts| >= 1 && forall i :: 0 <= i < |texts| ==> ',' !in texts[i]
    ensures EncodeCommandForDatabase(d).Ok?
    ensures Split(EncodeCommandForDatabase(d).value[SettingsKey].s, ',') == texts
  {
    var items := d[SettingsKey].items;
    assert forall i :: 0 <= i < |items| ==> PyStr(items[i]) == Some(texts[i]);
    assert StrAll(items).Ok?;
    assert StrAll(items).value == texts;
    SplitJoin(texts, ',');
  }

  /** An empty settings list is stored as the empty string, which splits
      into one empty setting rather than none. */
  lemma EmptySettingsDoNotSplitBack(d: map<string, Value>)
    requires SettingsKey in d && d[SettingsKey] == List([])
    ensures EncodeCommandForDatabase(d) == Ok(d[SettingsKey := Str("")])
    ensures Split("", ',') == [""]
  {
  }

  /** A string setting is walked character by character. */
  lemma StringSettingsAreSpelledOut()
    ensures EncodeCommandForDatabase(map[SettingsKey := Str("on")]) == Ok(map[SettingsKey := Str("o,n")])
  {
    assert Characters("on") == [Str("o"), Str("n")];
    var texts := StrAll([Str("o"), Str("n")]);
    assert texts.Ok? && |texts.value| == 2;
    assert texts.value == ["o", "n"];
    assert Join(["o", "n"], ',') == "o,n";
    var d := map[SettingsKey := Str("on")];
    var r := EncodeCommandForDatabase(d);
    assert r == Ok(d[SettingsKey := Str(Join(texts.value, ','))]);
    assert d[SettingsKey := Str("o,n")] == map[SettingsKey := Str("o,n")];
  }

  /** A dictionary whose `datetime` is a datetime and whose other entries
      `json.dumps` accepts: what `encode_reading` encodes. */
  predicate Stamped(d: map<string, Value>) {
    DateTimeKey in d && d[DateTimeKey].Time?
    && forall k :: k in d && k != DateTimeKey ==> Serializable(d[k])
  }

  /** Replacing `datetime` by its ISO text leaves a dictionary that
      `json.dumps` accepts exactly when the other entries are accepted. */
  lemma SerializableStamp(d: map<string, Value>, iso: Value)
    requires iso.IsoText?
    ensures Serializable(Dict(d[DateTimeKey := iso]))
        <==> forall k :: k in d && k != DateTimeKey ==> Serializable(d[k])
  {
    var c := d[DateTimeKey := iso];
    assert forall k :: k in d && k != DateTimeKey ==> c[k] == d[k];
    if forall k :: k in d && k != DateTimeKey ==> Serializable(d[k]) {
      assert forall k :: k in c ==> Serializable(c[k]);
    }
  }

  /** `encode_reading`: dumps a copy whose `datetime` is its ISO text. */
  function EncodeReading(v: Value): (r: Result<Value>)
    ensures r.Ok? <==> v.Dict? && Stamped(v.fields)
    ensures r.Ok? ==> r.value.JsonText?
  {
    if v.List? then Err("TypeError")
    else if !v.Dict? then Err("AttributeError")
    else
      var dt :- Get(v.fields, DateTimeKey);
      var iso :- IsoFormat(dt);
      SerializableStamp(v.fields, iso);
      Dumps(Dict(v.fields[DateTimeKey := iso]))
  }

  /** `decode_reading`; `decode_subprocess_log`, `decode_raspi_state_database`,
      `decode_error_code` and `decode_json_with_date` are the same code. */
  function DecodeReading(text: Value): (r: Result<Value>)
    ensures r.Ok? ==> r.value.Dict? && DateTimeKey in r.value.fields && r.value.fields[DateTimeKey].Time?
  {
    var d :- Loads(text);
    var dt :- Index(d, DateTimeKey);
    var t :- FromIsoFormat(dt);
    Ok(Dict(d.fields[DateTimeKey := t]))
  }

  lemma ReadingRoundTrip(d: map<string, Value>)
    requires Stamped(d)
    ensures EncodeReading(Dict(d)).Ok?
    ensures DecodeReading(EncodeReading(Dict(d)).value) == Ok(Dict(d))
  {
    var copy := d[DateTimeKey := IsoText(d[DateTimeKey].t)];
    assert copy[DateTimeKey := d[DateTimeKey]] == d;
  }

  /** `encode_combined_reading`: the top-level `datetime` becomes ISO text
      and every other entry becomes the encoded text of a nested reading.
      When a nested reading cannot be encoded, Python raises that entry's
      exception; the model does not track dictionary order and reports it
      as `NestedReading`. */
  function EncodeCombinedReading(d: map<string, Value>): (r: Result<Value>)
    ensures r.Ok? <==> (DateTimeKey in d && d[DateTimeKey].Time?
                        && forall k :: k in d && k != DateTimeKey ==> EncodeReading(d[k]).Ok?)
    ensures r.Ok? ==> r.value.JsonText? && r.value.j.Dict? && r.value.j.fields.Keys == d.Keys
    ensures r.Ok? ==> r.value.j.fields[DateTimeKey] == IsoText(d[DateTimeKey].t)
    ensures r.Ok? ==> forall k :: k in d && k != DateTimeKey ==> r.value.j.fields[k] == EncodeReading(d[k]).value
  {
    var dt :- Get(d, DateTimeKey);
    var iso :- IsoFormat(dt);
    if forall k :: k in d && k != DateTimeKey ==> EncodeReading(d[k]).Ok? then
      var copy := map k | k in d :: if k == DateTimeKey then iso else EncodeReading(d[k]).value;
      assert forall k :: k in copy ==> copy[k].IsText() && Serializable(copy[k]);
      assert copy.Keys == d.Keys;
      Dumps(Dict(copy))
    else
      Err("NestedReading")
  }

  /** `decode_combined_reading`. */
  function DecodeCombinedReading(text: Value): (r: Result<Value>)
    ensures r.Ok? <==> (text.JsonText? && text.j.Dict? && DateTimeKey in text.j.fields
                        && text.j.fields[DateTimeKey].IsoText?
                        && forall k :: k in text.j.fields && k != DateTimeKey ==> DecodeReading(text.j.fields[k]).Ok?)
    ensures r.Ok? ==> r.value.Dict? && r.value.fields.Keys == text.j.fields.Keys
    ensures r.Ok? ==> DateTimeKey in text.j.fields && FromIsoFormat(text.j.fields[DateTimeKey]) == Ok(r.value.fields[DateTimeKey])
    ensures r.Ok? ==> forall k :: k in text.j.fields && k != DateTimeKey ==> DecodeReading(text.j.fields[k]) == Ok(r.value.fields[k])
  {
    var d :- Loads(text);
    var dt :- Index(d, DateTimeKey);
    var t :- FromIsoFormat(dt);
    if forall k :: k in d.fields && k != DateTimeKey ==> DecodeReading(d.fields[k]).Ok? then
      Ok(Dict(map k | k in d.fields :: if k == DateTimeKey then t else DecodeReading(d.fields[k]).value))
    else
      Err("NestedReading")
  }

  /** A combined reading is a stamped dictionary of stamped readings. */
  predicate CombinedStamped(d: map<string, Value>) {
    DateTimeKey in d && d[DateTimeKey].Time?
    && forall k :: k in d && k != DateTimeKey ==> d[k].Dict? && Stamped(d[k].fields)
  }

  lemma CombinedReadingRoundTrip(d: map<string, Value>)
    requires CombinedStamped(d)
    ensures EncodeCombinedReading(d).Ok?
    ensures DecodeCombinedReading(EncodeCombinedReading(d).value) == Ok(Dict(d))
  {
    EncodedCombinedEntries(d);
    DecodedCombinedEntries(EncodeCombinedReading(d).value, d);
  }

  /** Every entry of a combined stamped reading encodes, into text that
      decodes back to that entry. */
  lemma EncodedCombinedEntries(d: map<string, Value>)
    requires CombinedStamped(d)
    ensures EncodeCombinedReading(d).Ok?
    ensures var e := EncodeCombinedReading(d).value.j.fields;
      && e.Keys == d.Keys && e[DateTimeKey] == IsoText(d[DateTimeKey].t)
      && forall k :: k in e && k != DateTimeKey ==> DecodeReading(e[k]) == Ok(d[k])
  {
    forall k | k in d && k != DateTimeKey
      ensures EncodeReading(d[k]).Ok? && DecodeReading(EncodeReading(d[k]).value) == Ok(d[k])
    {
      ReadingRoundTrip(d[k].fields);
    }
  }

  /** Text whose entries decode to those of `d` decodes to `d`. */
  lemma DecodedCombinedEntries(text: Value, d: map<string, Value>)
    requires DateTimeKey in d && d[DateTimeKey].Time?
    requires text.JsonText? && text.j.Dict?
    requires text.j.fields.Keys == d.Keys && text.j.fields[DateTimeKey] == IsoText(d[DateTimeKey].t)
    requires forall k :: k in text.j.fields && k != DateTimeKey ==> DecodeReading(text.j.fields[k]) == Ok(d[k])
    ensures DecodeCombinedReading(text) == Ok(Dict(d))
  {
    var r := DecodeCombinedReading(text);
    assert r.Ok?;
    assert forall k :: k in d ==> r.value.fields[k] == d[k];
    assert r.value.fields == d;
  }

  /** Outcome of `encode_error_code` and `encode_raspi_state_database`:
      the text and the caller's dictionary after the call. */
  datatype InPlaceEncoding = InPlaceEncoding(text: Result<Value>, after: map<string, Value>)

  /** `encode_error_code` / `encode_raspi_state_database`: both assign the
      ISO text into the caller's dictionary before dumping it. */
  function EncodeInPlace(d: map<string, Value>): (r: InPlaceEncoding)
    ensures r.text == EncodeReading(Dict(d))
    ensures Stamped(d) ==> r.after == d[DateTimeKey := IsoText(d[DateTimeKey].t)] && r.after != d
    ensures !(DateTimeKey in d && d[DateTimeKey].Time?) ==> r.after == d
  {
    match Get(d, DateTimeKey)
    case Err(e) => InPlaceEncoding(Err(e), d)
    case Ok(dt) =>
      match IsoFormat(dt)
      case Err(e) => InPlaceEncoding(Err(e), d)
      case Ok(iso) => InPlaceEncoding(Dumps(Dict(d[DateTimeKey := iso])), d[DateTimeKey := iso])
  }

  /** The copying and the mutating encoders produce the same text, but only
      the copying one can be applied to the same dictionary twice. */
  lemma CopyVersusInPlace(d: map<string, Value>)
    requires Stamped(d)
    ensures EncodeInPlace(d).text.Ok?
    ensures EncodeInPlace(EncodeInPlace(d).after).text == Err("AttributeError")
    ensures EncodeReading(Dict(d)) == EncodeInPlace(d).text
  {
  }

  /** `encode_json_with_date`: a copy keeps its own `datetime`, or is given
      the current time `now` when it has none. */
  function EncodeJsonWithDate(d: map<string, Value>, now: DateTime): (r: Result<Value>)
    ensures DateTimeKey in d ==> r == EncodeReading(Dict(d))
    ensures DateTimeKey !in d ==> r == EncodeReading(Dict(d[DateTimeKey := Time(now)]))
  {
    if DateTimeKey in d then
      var iso :- IsoFormat(d[DateTimeKey]);
      Dumps(Dict(d[DateTimeKey := iso]))
    else
      assert d[DateTimeKey := Time(now)][DateTimeKey := IsoText(now)] == d[DateTimeKey := IsoText(now)];
      Dumps(Dict(d[DateTimeKey := IsoText(now)]))
  }

  lemma JsonWithDateRoundTrip(d: map<string, Value>, now: DateTime)
    requires forall k :: k in d && k != DateTimeKey ==> Serializable(d[k])
    requires DateTimeKey in d ==> d[DateTimeKey].Time?
    ensures EncodeJsonWithDate(d, now).Ok?
    ensures DecodeReading(EncodeJsonWithDate(d, now).value)
         == Ok(Dict(if DateTimeKey in d then d else d[DateTimeKey := Time(now)]))
  {
    if DateTimeKey in d {
      ReadingRoundTrip(d);
    } else {
      ReadingRoundTrip(d[DateTimeKey := Time(now)]);
    }
  }

  /** `encode_subprocess_log_for_database`: a fresh dictionary stamped with
      `now`, whose `arguments` is the comma-join of `str` of each argument. */
  function EncodeSubprocessLog(moduleName: Value, processId: Value, startingFlag: Value,
                               args: seq<Value>, now: DateTime): (r: Result<map<string, Value>>)
    ensures r.Ok? <==> forall i :: 0 <= i < |args| ==> PyStr(args[i]).Some?
    ensures r.Ok? ==> r.value.Keys == {DateTimeKey, "subprocess_process_name", "subprocess_pid", "starting_or_killing", "arguments"}
    ensures r.Ok? ==> r.value[DateTimeKey] == Time(now) && r.value["arguments"].Str?
    ensures r.Ok? ==> r.value["subprocess_process_name"] == moduleName && r.value["subprocess_pid"] == processId
                      && r.value["starting_or_killing"] == startingFlag
    ensures r.Ok? ==> r.value["arguments"] == Str(Join(StrAll(args).value, ','))
  {
    var texts :- StrAll(args);
    Ok(map[DateTimeKey := Time(now),
           "subprocess_process_name" := moduleName,
           "subprocess_pid" := processId,
           "starting_or_killing" := startingFlag,
           "arguments" := Str(Join(texts, ','))])
  }

  /** The logged arguments split back at the commas into `str` of each
      argument, when there is at least one and none of their texts holds a
      comma. */
  lemma SubprocessArgumentsSplitBack(moduleName: Value, processId: Value, startingFlag: Value,
                                     args: seq<Value>, now: DateTime)
    requires |args| >= 1
    requires forall i :: 0 <= i < |args| ==> PyStr(args[i]).Some? && ',' !in PyStr(args[i]).value
    ensures EncodeSubprocessLog(moduleName, processId, startingFlag, args, now).Ok?
    ensures var log := EncodeSubprocessLog(moduleName, processId, startingFlag, args, now).value;
      |Split(log["arguments"].s, ',')| == |args|
      && forall i :: 0 <= i < |args| ==> Split(log["arguments"].s, ',')[i] == PyStr(args[i]).value
  {
    var texts := StrAll(args).value;
    SplitJoin(texts, ',');
  }
}
