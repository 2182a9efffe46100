/** The bus topic grammar of `utils/pubsub_topic_encoder_decoder.py`:
    string builders for every topic kind and `split('/')`-based decoders.
    The decoders only index into the split result; they never compare the
    literal segments ("device", "command", ...), and an index past the end
    raises `IndexError`, which the model returns as `Err`. */
module Topics {
  import opened Wrappers
  import opened Text

  datatype DeviceAddress = DeviceAddress(deviceName: string, deviceNum: string)
  datatype ReadingsAddress = ReadingsAddress(deviceName: string, deviceNum: string, readingType: string)
  datatype ModuleAddress = ModuleAddress(moduleName: string, moduleNum: string)
  datatype ChannelInfo = ChannelInfo(siteId: string, command: string, metadata: string)

  /** Topics that are fixed strings. */
  const UserCommandTopic := "user_command"
  const CombinedReadingsTopic := "combined_readings"
  const PowerCommandTopic := "power_command"
  const PowerCommandPattern := "power_command"
  const SystemStatusTopic := "system_status"
  const GroupCommandPattern := "device/*/group_command"
  const ReadingsTopicPattern := "device/*/*/readings/*"
  const SiteStorageListenerPattern := "site_storage_listener/*"
  const StateQueryTopicPattern := "state/query/*"

  /** Segment `i` of `topic.split('/')`, or the `IndexError` it raises. */
  function Segment(topic: string, i: nat): (r: Result<string>)
    ensures r.Ok? <==> i < |Split(topic, '/')|
    ensures r.Ok? ==> '/' !in r.value
  {
    var parts := Split(topic, '/');
    if i < |parts| then Ok(parts[i]) else Err("IndexError")
  }

  // ---------------------------------------------------------------- command

  function EncodeCommandTopic(deviceName: string, deviceNum: string): string
  {
    "device/" + deviceName + "/" + deviceNum + "/command"
  }

  function DecodeCommandTopic(topic: string): (r: Result<DeviceAddress>)
    ensures r.Ok? <==> |Split(topic, '/')| >= 3
    ensures r.Ok? ==> '/' !in r.value.deviceName && '/' !in r.value.deviceNum
  {
    var name :- Segment(topic, 1);
    var num :- Segment(topic, 2);
    Ok(DeviceAddress(name, num))
  }

  // ---------------------------------------------------------- group command

  function EncodeGroupCommandTopic(deviceType: string): string
  {
    "device/" + deviceType + "/group_command"
  }

  function DecodeGroupCommandTopic(topic: string): (r: Result<string>)
    ensures r.Ok? <==> |Split(topic, '/')| >= 2
    ensures r.Ok? ==> '/' !in r.value
  {
    Segment(topic, 1)
  }

  // --------------------------------------------------------------- readings

  function EncodeReadingsTopic(deviceName: string, deviceNum: string, readingType: string): string
  {
    "device/" + deviceName + "/" + deviceNum + "/readings/" + readingType
  }

  /** Segments 1, 2 and 4. Index 4 is read inside a `try` whose handler only
      prints, so a topic with three or four segments fails later, when the
      unbound `reading_type` is used in the returned dictionary. */
  function DecodeReadingsTopic(topic: string): (r: Result<ReadingsAddress>)
    ensures r.Ok? <==> |Split(topic, '/')| >= 5
    ensures 3 <= |Split(topic, '/')| < 5 ==> r == Err("UnboundLocalError")
  {
    var name :- Segment(topic, 1);
    var num :- Segment(topic, 2);
    match Segment(topic, 4)
    case Ok(readingType) => Ok(ReadingsAddress(name, num, readingType))
    case Err(_) => Err("UnboundLocalError")
  }

  // -------------------------------------------------------------- heartbeat

  /** `module_num` defaults to `None`, which the f-string renders as "None". */
  function EncodeHeartbeat(moduleName: string, moduleNum: Option<string>): string
  {
    "heartbeat/" + moduleName + "/" + (if moduleNum.Some? then moduleNum.value else "None")
  }

  function DecodeHeartbeat(topic: string): (r: Result<ModuleAddress>)
    ensures r.Ok? <==> |Split(topic, '/')| >= 3
    ensures r.Ok? ==> '/' !in r.value.moduleName && '/' !in r.value.moduleNum
  {
    var name :- Segment(topic, 1);
    var num :- Segment(topic, 2);
    Ok(ModuleAddress(name, num))
  }

  // ----------------------------------------------------------------- errors

  function EncodeErrorTopic(moduleName: string): string
  {
    "device/" + moduleName + "/errors"
  }

  function DecodeErrorTopic(topic: string): (r: Result<string>)
    ensures r.Ok? <==> |Split(topic, '/')| >= 2
    ensures r.Ok? ==> '/' !in r.value
  {
    Segment(topic, 1)
  }

  // --------------------------------------------- site storage, state query

  /** `file_path.rsplit('/', 1)[-1].split('.')[0]`: the file name after the
      last '/' up to its first '.'. */
  function Stem(filePath: string): (r: string)
    ensures '/' !in r && '.' !in r
  {
    var fileName := LastPiece(filePath, '/');
    assert '/' !in Split(fileName, '.')[0] by {
      SplitJoinsBack(fileName, '.');
      JoinHeadInside(Split(fileName, '.'), '.');
    }
    Split(fileName, '.')[0]
  }

  /** The first piece of a join is a prefix of the joined string. */
  lemma {:induction false} JoinHeadInside(parts: seq<string>, sep: char)
    requires |parts| >= 1
    ensures HasPrefix(Join(parts, sep), parts[0])
  {
    if |parts| > 1 {
      assert (parts[0] + [sep] + Join(parts[1..], sep))[..|parts[0]|] == parts[0];
    }
  }

  function EncodeSiteStorageListener(filePath: string): string
  {
    "site_storage_listener/" + Stem(filePath)
  }

  function EncodeStateQueryTopic(filePath: string): string
  {
    "state/query/" + Stem(filePath)
  }

  function DecodeStateQueryTopic(topic: string): (r: Result<string>)
    ensures r.Ok? <==> |Split(topic, '/')| >= 3
    ensures r.Ok? ==> '/' !in r.value
  {
    Segment(topic, 2)
  }

  function EncodeStateAnswerTopic(receivingProgram: string): string
  {
    "state/answer/" + receivingProgram
  }

  function DecodeStateAnswerTopic(topic: string): (r: Result<string>)
    ensures r.Ok? <==> |Split(topic, '/')| >= 3
    ensures r.Ok? ==> '/' !in r.value
  {
    Segment(topic, 2)
  }

  /** The requester subscribes to exactly the answer topic the responder
      builds from the requester's stem. */
  function GetStateAnswerPattern(filePath: string): (r: string)
    ensures r == EncodeStateAnswerTopic(Stem(filePath))
    ensures DecodeStateAnswerTopic(r) == Ok(Stem(filePath))
  {
    var stem := Stem(filePath);
    StateAnswerRoundTrip(stem);
    "state/answer/" + stem
  }

  // ------------------------------------------------------------------- MQTT

  function EncodeConfigChannel(siteId: string): string
  {
    "site/" + siteId + "/config/None"
  }

  function EncodeSyncPostgresChannel(siteId: string): string
  {
    "site/" + siteId + "/data/None"
  }

  /** `topic.split('/', 3)`: the metadata keeps every further '/'. */
  function DecodeChannel(topic: string): (r: Result<ChannelInfo>)
    ensures r.Ok? <==> |SplitMax(topic, '/', 3)| == 4
    ensures r.Ok? ==> '/' !in r.value.siteId && '/' !in r.value.command
  {
    var parts := SplitMax(topic, '/', 3);
    if |parts| < 4 then Err("IndexError")
    else Ok(ChannelInfo(parts[1], parts[2], parts[3]))
  }

  // ================================================================ lemmas

  /** One leading slash-separated piece comes off first. */
  lemma SplitSlash(a: string, rest: string)
    requires '/' !in a
    ensures Split(a + "/" + rest, '/') == [a] + Split(rest, '/')
  {
    assert a + "/" + rest == a + ['/'] + rest;
    SplitCons(a, '/', rest);
  }

  /** The same, segment by segment. */
  lemma SplitSlashAt(a: string, rest: string)
    requires '/' !in a
    ensures var p, q := Split(a + "/" + rest, '/'), Split(rest, '/');
            |p| == |q| + 1 && p[0] == a && forall k :: 0 <= k < |q| ==> p[k + 1] == q[k]
  {
    SplitSlash(a, rest);
  }

  lemma SplitTwo(a: string, b: string)
    requires '/' !in a && '/' !in b
    ensures var p := Split(a + "/" + b, '/'); |p| == 2 && p[0] == a && p[1] == b
  {
    SplitSlashAt(a, b);
  }

  lemma SplitThree(a: string, b: string, c: string)
    requires '/' !in a && '/' !in b && '/' !in c
    ensures var p := Split(a + "/" + (b + "/" + c), '/'); |p| == 3 && p[0] == a && p[1] == b && p[2] == c
  {
    SplitTwo(b, c);
    SplitSlashAt(a, b + "/" + c);
  }

  lemma SplitFour(a: string, b: string, c: string, d: string)
    requires '/' !in a && '/' !in b && '/' !in c && '/' !in d
    ensures var p := Split(a + "/" + (b + "/" + (c + "/" + d)), '/');
            |p| == 4 && p[0] == a && p[1] == b && p[2] == c && p[3] == d
  {
    SplitThree(b, c, d);
    SplitSlashAt(a, b + "/" + (c + "/" + d));
  }

  lemma SplitFive(a: string, b: string, c: string, d: string, e: string)
    requires '/' !in a && '/' !in b && '/' !in c && '/' !in d && '/' !in e
    ensures var p := Split(a + "/" + (b + "/" + (c + "/" + (d + "/" + e))), '/');
            |p| == 5 && p[0] == a && p[1] == b && p[2] == c && p[3] == d && p[4] == e
  {
    SplitFour(b, c, d, e);
    SplitSlashAt(a, b + "/" + (c + "/" + (d + "/" + e)));
  }

  /** The command decoder reads segments 1 and 2 whatever the literal
      segments around them are. */
  lemma CommandTopicIgnoresLiterals(first: string, name: string, num: string, last: string)
    requires '/' !in first && '/' !in name && '/' !in num && '/' !in last
    ensures DecodeCommandTopic(first + "/" + (name + "/" + (num + "/" + last)))
         == Ok(DeviceAddress(name, num))
  {
    SplitFour(first, name, num, last);
  }

  lemma CommandTopicRoundTrip(name: string, num: string)
    requires '/' !in name && '/' !in num
    ensures DecodeCommandTopic(EncodeCommandTopic(name, num)) == Ok(DeviceAddress(name, num))
  {
    assert EncodeCommandTopic(name, num) == "device" + "/" + (name + "/" + (num + "/" + "command"));
    CommandTopicIgnoresLiterals("device", name, num, "command");
  }

  lemma CommandTopicExample()
    ensures EncodeCommandTopic("meter_grid", "1") == "device/meter_grid/1/command"
    ensures DecodeCommandTopic("device/meter_grid/1/command") == Ok(DeviceAddress("meter_grid", "1"))
  {
    CommandTopicText();
    CommandTopicRoundTrip("meter_grid", "1");
  }

  lemma CommandTopicText()
    ensures EncodeCommandTopic("meter_grid", "1") == "device/meter_grid/1/command"
  {
  }

  lemma GroupCommandTopicRoundTrip(deviceType: string)
    requires '/' !in deviceType
    ensures DecodeGroupCommandTopic(EncodeGroupCommandTopic(deviceType)) == Ok(deviceType)
  {
    assert EncodeGroupCommandTopic(deviceType) == "device" + "/" + (deviceType + "/" + "group_command");
    SplitThree("device", deviceType, "group_command");
  }

  lemma ErrorTopicRoundTrip(moduleName: string)
    requires '/' !in moduleName
    ensures DecodeErrorTopic(EncodeErrorTopic(moduleName)) == Ok(moduleName)
  {
    assert EncodeErrorTopic(moduleName) == "device" + "/" + (moduleName + "/" + "errors");
    SplitThree("device", moduleName, "errors");
  }

  lemma ReadingsTopicRoundTrip(name: string, num: string, readingType: string)
    requires '/' !in name && '/' !in num && '/' !in readingType
    ensures |Split(EncodeReadingsTopic(name, num, readingType), '/')| == 5
    ensures DecodeReadingsTopic(EncodeReadingsTopic(name, num, readingType))
         == Ok(ReadingsAddress(name, num, readingType))
  {
    assert EncodeReadingsTopic(name, num, readingType)
        == "device" + "/" + (name + "/" + (num + "/" + ("readings" + "/" + readingType)));
    SplitFive("device", name, num, "readings", readingType);
  }

  /** A four-segment topic is rejected only when the return statement is
      reached. */
  lemma ReadingsTopicWithoutType(name: string, num: string)
    requires '/' !in name && '/' !in num
    ensures DecodeReadingsTopic("device/" + name + "/" + num + "/readings")
         == Err("UnboundLocalError")
  {
    assert "device/" + name + "/" + num + "/readings"
        == "device" + "/" + (name + "/" + (num + "/" + "readings"));
    SplitFour("device", name, num, "readings");
  }

  lemma HeartbeatRoundTrip(name: string, num: Option<string>)
    requires '/' !in name
    requires num.Some? ==> '/' !in num.value
    ensures DecodeHeartbeat(EncodeHeartbeat(name, num))
         == Ok(ModuleAddress(name, if num.Some? then num.value else "None"))
  {
    var n := if num.Some? then num.value else "None";
    assert EncodeHeartbeat(name, num) == "heartbeat" + "/" + (name + "/" + n);
    SplitThree("heartbeat", name, n);
  }

  lemma StateQueryRoundTrip(filePath: string)
    ensures DecodeStateQueryTopic(EncodeStateQueryTopic(filePath)) == Ok(Stem(filePath))
  {
    var stem := Stem(filePath);
    assert EncodeStateQueryTopic(filePath) == "state" + "/" + ("query" + "/" + stem);
    SplitThree("state", "query", stem);
  }

  lemma StateAnswerRoundTrip(program: string)
    requires '/' !in program
    ensures DecodeStateAnswerTopic(EncodeStateAnswerTopic(program)) == Ok(program)
  {
    assert EncodeStateAnswerTopic(program) == "state" + "/" + ("answer" + "/" + program);
    SplitThree("state", "answer", program);
  }

  /** A path component without '/' or '.' is its own stem. */
  lemma StemOfPlainName(dir: string, name: string)
    requires '/' !in name && '.' !in name
    ensures Stem(dir + "/" + name) == name
  {
    assert dir + "/" + name == dir + ['/'] + name;
    SplitSnoc(dir, '/', name);
  }

  /** The metadata segment keeps any further '/', and the first segment is
      never checked. */
  lemma DecodeChannelOf(first: string, site: string, command: string, metadata: string)
    requires '/' !in first && '/' !in site && '/' !in command
    ensures DecodeChannel(first + "/" + (site + "/" + (command + "/" + metadata)))
         == Ok(ChannelInfo(site, command, metadata))
  {
    var t3 := command + "/" + metadata;
    var t2 := site + "/" + t3;
    assert first + "/" + t2 == first + ['/'] + t2;
    assert t2 == site + ['/'] + t3;
    assert t3 == command + ['/'] + metadata;
    SplitMaxCons(first, '/', t2, 3);
    SplitMaxCons(site, '/', t3, 2);
    SplitMaxCons(command, '/', metadata, 1);
  }

  lemma ConfigChannelRoundTrip(siteId: string)
    requires '/' !in siteId
    ensures DecodeChannel(EncodeConfigChannel(siteId)) == Ok(ChannelInfo(siteId, "config", "None"))
  {
    assert EncodeConfigChannel(siteId) == "site" + "/" + (siteId + "/" + ("config" + "/" + "None"));
    DecodeChannelOf("site", siteId, "config", "None");
  }

  lemma SyncPostgresChannelRoundTrip(siteId: string)
    requires '/' !in siteId
    ensures DecodeChannel(EncodeSyncPostgresChannel(siteId)) == Ok(ChannelInfo(siteId, "data", "None"))
  {
    assert EncodeSyncPostgresChannel(siteId) == "site" + "/" + (siteId + "/" + ("data" + "/" + "None"));
    DecodeChannelOf("site", siteId, "data", "None");
  }

  /** A fixed prefix followed by `*` matches the prefix followed by anything. */
  lemma PrefixStarMatches(prefix: string, rest: string)
    requires '*' !in prefix
    ensures Glob(prefix + "*", prefix + rest)
  {
    GlobStar("", rest, "");
    assert "*" + "" == "*" && rest + "" == rest;
    GlobLiteral(prefix, "*", rest);
  }

  lemma LiteralMatchesItself(lit: string)
    requires '*' !in lit
    ensures Glob(lit, lit)
  {
    GlobLiteral(lit, "", "");
    assert lit + "" == lit;
  }

  /** `lit1 * lit2` matches `lit1 x lit2` for every `x`. */
  lemma StarBetween(lit1: string, p: string, x: string, s: string)
    requires '*' !in lit1
    requires Glob(p, s)
    ensures Glob(lit1 + ("*" + p), lit1 + (x + s))
  {
    GlobStar(p, x, s);
    GlobLiteral(lit1, "*" + p, x + s);
  }

  /** The readings pattern with its literal pieces as parameters, so that
      the matcher is never unfolded on literal text. */
  lemma ReadingsShapeMatches(name: string, num: string, readingType: string, head: string, mid: string)
    requires head == "device/" && mid == "/readings/"
    ensures Glob(head + ("*" + ("/" + ("*" + (mid + "*")))),
                 head + (name + ("/" + (num + (mid + readingType)))))
  {
    PrefixStarMatches(mid, readingType);
    StarBetween("/", mid + "*", num, mid + readingType);
    StarBetween(head, "/" + ("*" + (mid + "*")), name, "/" + (num + (mid + readingType)));
  }

  /** Every readings topic, whatever its parts contain, matches the readings
      subscription pattern. */
  lemma ReadingsTopicMatchesPattern(name: string, num: string, readingType: string)
    ensures Glob(ReadingsTopicPattern, EncodeReadingsTopic(name, num, readingType))
  {
    var head, mid := "device/", "/readings/";
    ReadingsShapeMatches(name, num, readingType, head, mid);
    ReadingsPatternPieces(head, mid);
    ReadingsTopicPieces(name, num, readingType, head, mid);
  }

  lemma ReadingsPatternPieces(head: string, mid: string)
    requires head == "device/" && mid == "/readings/"
    ensures head + ("*" + ("/" + ("*" + (mid + "*")))) == ReadingsTopicPattern
  {
  }

  lemma ReadingsTopicPieces(name: string, num: string, readingType: string, head: string, mid: string)
    requires head == "device/" && mid == "/readings/"
    ensures head + (name + ("/" + (num + (mid + readingType)))) == EncodeReadingsTopic(name, num, readingType)
  {
  }

  lemma GroupShapeMatches(deviceType: string, head: string, lit: string)
    requires head == "device/" && lit == "/group_command"
    ensures Glob(head + ("*" + lit), head + (deviceType + lit))
  {
    LiteralMatchesItself(lit);
    StarBetween(head, lit, deviceType, lit);
  }

  lemma GroupCommandTopicMatchesPattern(deviceType: string)
    ensures Glob(GroupCommandPattern, EncodeGroupCommandTopic(deviceType))
  {
    var head, lit := "device/", "/group_command";
    GroupShapeMatches(deviceType, head, lit);
    GroupPieces(deviceType, head, lit);
  }

  lemma GroupPieces(deviceType: string, head: string, lit: string)
    requires head == "device/" && lit == "/group_command"
    ensures head + ("*" + lit) == GroupCommandPattern
    ensures head + (deviceType + lit) == EncodeGroupCommandTopic(deviceType)
  {
  }

  lemma SiteStorageListenerMatchesPattern(filePath: string)
    ensures Glob(SiteStorageListenerPattern, EncodeSiteStorageListener(filePath))
  {
    PrefixStarMatches("site_storage_listener/", Stem(filePath));
    assert "site_storage_listener/" + "*" == SiteStorageListenerPattern;
  }

  lemma StateQueryTopicMatchesPattern(filePath: string)
    ensures Glob(StateQueryTopicPattern, EncodeStateQueryTopic(filePath))
  {
    PrefixStarMatches("state/query/", Stem(filePath));
    assert "state/query/" + "*" == StateQueryTopicPattern;
  }
}
