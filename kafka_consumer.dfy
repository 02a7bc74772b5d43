/** src/fakers/kafka_consumer/consumer.rs: the faker that subscribes to topics
    and, for as long as the scenario runs, records every text message it
    receives as one JSON line of an optional output file. The broker is an
    environment: whether start-up succeeds and the sequence of results that
    `recv()` returns. */
module KafkaConsumer {
  import opened Wrappers
  import Yaml
  import opened SerdeYaml
  import Strings
  import KafkaClient
  import opened Faker

  /** The `config` parameter. */
  datatype Config = Config(groupId: string, offset: string, topics: seq<string>, options: seq<Yaml.Entry>, logLevel: string)

  /** The faker's parameters. */
  datatype Params = Params(brokers: seq<string>, config: Config, outputFile: Option<string>)

  const DefaultGroupId := "consumer-group-1"
  const DefaultOffset := "earliest"
  const DefaultLogLevel := "info"

  /** `impl Default for Config`. Its offset is "latest", unlike the serde default
      of the field; nothing in the repository deserializes through it. */
  const DefaultConfig := Config(DefaultGroupId, "latest", [], [], DefaultLogLevel)

  // ---------------------------------------------------------------------------
  // Deserialization of the parameters
  // ---------------------------------------------------------------------------

  /** The fields of `Config`; `topics` and `options` are required, the others
      have serde defaults. */
  const ConfigFields := ["group_id", "offset", "topics", "options", "log_level"]
  const ConfigRequired := ["topics", "options"]

  function ConfigFieldError(name: string, v: Yaml.Value): Option<DecodeError> {
    match name
    case "topics" => ErrorOf(AsStrings(name, v))
    case "options" => ErrorOf(AsMapping(name, v))
    case _ => ErrorOf(AsString(name, v))
  }

  /** A defaulted string field once the pass is through: its value, or the
      default when the key is missing. */
  function DefaultedString(m: seq<Yaml.Entry>, name: string, default: string): (s: string)
    requires FirstValueError(m, ConfigFields, ConfigFieldError).None?
    requires name in ConfigFields && name != "topics" && name != "options"
    ensures Field(m, name).None? ==> s == default
    ensures Field(m, name).Some? ==> Field(m, name) == Some(Yaml.String(s))
  {
    if Field(m, name).None? then default
    else
      FieldChecked(m, ConfigFields, ConfigFieldError, name);
      Field(m, name).value.s
  }

  /** `Config`: the pass over its entries, then `topics` and `options` if
      missing; `group_id`, `offset` and `log_level` take their serde
      defaults. */
  function DecodeConfig(m: seq<Yaml.Entry>): (r: Result<Config, DecodeError>)
    ensures r.Err? <==> StructError(m, ConfigFields, ConfigRequired, ConfigFieldError).Some?
    ensures r.Err? ==> r.error == StructError(m, ConfigFields, ConfigRequired, ConfigFieldError).value
    ensures r.Ok? && Field(m, "group_id").None? ==> r.value.groupId == DefaultGroupId
    ensures r.Ok? && Field(m, "offset").None? ==> r.value.offset == DefaultOffset
    ensures r.Ok? && Field(m, "log_level").None? ==> r.value.logLevel == DefaultLogLevel
    ensures r.Ok? && Field(m, "group_id").Some? ==> Field(m, "group_id") == Some(Yaml.String(r.value.groupId))
    ensures r.Ok? && Field(m, "offset").Some? ==> Field(m, "offset") == Some(Yaml.String(r.value.offset))
    ensures r.Ok? && Field(m, "log_level").Some? ==> Field(m, "log_level") == Some(Yaml.String(r.value.logLevel))
    ensures r.Ok? ==> Field(m, "topics").Some? && AsStrings("topics", Field(m, "topics").value) == Ok(r.value.topics)
    ensures r.Ok? ==> Field(m, "options") == Some(Yaml.Mapping(r.value.options))
  {
    var error := StructError(m, ConfigFields, ConfigRequired, ConfigFieldError);
    if error.Some? then Err(error.value)
    else
      assert ConfigRequired[0] == "topics" && ConfigRequired[1] == "options";
      assert ConfigFields[0] == "group_id" && ConfigFields[1] == "offset" && ConfigFields[2] == "topics" &&
             ConfigFields[3] == "options" && ConfigFields[4] == "log_level";
      FieldChecked(m, ConfigFields, ConfigFieldError, "topics");
      FieldChecked(m, ConfigFields, ConfigFieldError, "options");
      Ok(Config(DefaultedString(m, "group_id", DefaultGroupId), DefaultedString(m, "offset", DefaultOffset),
                AsStrings("topics", Field(m, "topics").value).value, Field(m, "options").value.entries,
                DefaultedString(m, "log_level", DefaultLogLevel)))
  }

  /** The fields of `KafkaConsumer`; `output_file` is an `Option`. */
  const Fields := ["brokers", "config", "output_file"]
  const RequiredFields := ["brokers", "config"]

  /** The `config` field: a mapping read as a `Config`. */
  function AsConfig(v: Yaml.Value): Result<Config, DecodeError> {
    if v.Mapping? then DecodeConfig(v.entries) else Err(InvalidType("config"))
  }

  function FieldError(name: string, v: Yaml.Value): Option<DecodeError> {
    match name
    case "brokers" => ErrorOf(AsStrings(name, v))
    case "config" => ErrorOf(AsConfig(v))
    case _ => OptionalError(v, x => AsString("output_file", x))
  }

  /** `serde_yaml::from_value::<KafkaConsumer>`: the first value, in document
      order, of the wrong type (inside `config` included), else `brokers`, then
      `config`, if missing; a missing or null `output_file` is None. */
  function Decode(params: seq<Yaml.Entry>): (r: Result<Params, DecodeError>)
    ensures r.Err? <==> StructError(params, Fields, RequiredFields, FieldError).Some?
    ensures r.Err? ==> r.error == StructError(params, Fields, RequiredFields, FieldError).value
    ensures r.Ok? ==> Field(params, "brokers").Some? && AsStrings("brokers", Field(params, "brokers").value) == Ok(r.value.brokers)
    ensures r.Ok? ==> Field(params, "config").Some? && Field(params, "config").value.Mapping? &&
                      DecodeConfig(Field(params, "config").value.entries) == Ok(r.value.config)
    ensures r.Ok? ==> (r.value.outputFile.None? <==> Field(params, "output_file").None? || Field(params, "output_file") == Some(Yaml.Null))
    ensures r.Ok? && r.value.outputFile.Some? ==> Field(params, "output_file") == Some(Yaml.String(r.value.outputFile.value))
  {
    var error := StructError(params, Fields, RequiredFields, FieldError);
    if error.Some? then Err(error.value)
    else
      assert RequiredFields[0] == "brokers" && RequiredFields[1] == "config";
      assert Fields[0] == "brokers" && Fields[1] == "config" && Fields[2] == "output_file";
      FieldChecked(params, Fields, FieldError, "brokers");
      FieldChecked(params, Fields, FieldError, "config");
      FieldChecked(params, Fields, FieldError, "output_file");
      Ok(Params(AsStrings("brokers", Field(params, "brokers").value).value, AsConfig(Field(params, "config").value).value,
                OptionalValue(Field(params, "output_file"), x => AsString("output_file", x))))
  }

  /** A `config` holding only the two required keys takes the serde defaults,
      whose offset differs from the one of `Config::default()`. */
  lemma SerdeDefaultsDifferFromDefault(topics: seq<string>)
    ensures var m := [Yaml.Entry(Yaml.String("topics"), Yaml.Sequence(seq(|topics|, i requires 0 <= i < |topics| => Yaml.String(topics[i])))),
                      Yaml.Entry(Yaml.String("options"), Yaml.Mapping([]))];
            DecodeConfig(m) == Ok(Config(DefaultGroupId, DefaultOffset, topics, [], DefaultLogLevel)) &&
            DecodeConfig(m).value.offset != DefaultConfig.offset
  {
    var items := seq(|topics|, i requires 0 <= i < |topics| => Yaml.String(topics[i]));
    var m := [Yaml.Entry(Yaml.String("topics"), Yaml.Sequence(items)), Yaml.Entry(Yaml.String("options"), Yaml.Mapping([]))];
    Yaml.GetFinds(m, Yaml.String("topics"));
    Yaml.GetFinds(m, Yaml.String("options"));
    Yaml.GetFinds(m, Yaml.String("group_id"));
    Yaml.GetFinds(m, Yaml.String("offset"));
    Yaml.GetFinds(m, Yaml.String("log_level"));
    var decoded := seq(|items|, i requires 0 <= i < |items| && items[i].String? => items[i].s);
    assert forall i | 0 <= i < |items| :: items[i].String?;
    assert |decoded| == |topics| && forall i | 0 <= i < |topics| :: decoded[i] == topics[i];
    assert decoded == topics;
    assert AsStrings("topics", Yaml.Sequence(items)) == Ok(topics);
  }

  // ---------------------------------------------------------------------------
  // validate_params
  // ---------------------------------------------------------------------------

  /** `validate_params`: brokers first, then topics. The message keeps the
      repository's spelling. */
  function ValidateParams(p: Params): (r: Outcome<string>)
    ensures r == Pass <==> p.brokers != [] && p.config.topics != []
    ensures p.brokers == [] ==> r == Fail("brokers cannnot be empty")
    ensures p.brokers != [] && p.config.topics == [] ==> r == Fail("topics cannot be empty")
  {
    if p.brokers == [] then Fail("brokers cannnot be empty")
    else if p.config.topics == [] then Fail("topics cannot be empty")
    else Pass
  }

  // ---------------------------------------------------------------------------
  // The client configuration built by `func`
  // ---------------------------------------------------------------------------

  /** The three settings `func` makes before copying the options. */
  function BaseSettings(p: Params): (s: map<string, string>)
    ensures s.Keys == {"group.id", "bootstrap.servers", "auto.offset.reset"}
    ensures s["group.id"] == p.config.groupId && s["auto.offset.reset"] == p.config.offset
    ensures s["bootstrap.servers"] == Strings.Join(p.brokers, ",")
  {
    map["group.id" := p.config.groupId, "bootstrap.servers" := Strings.Join(p.brokers, ","),
        "auto.offset.reset" := p.config.offset]
  }

  /** The client configuration; None: a string option under a non-string key
      panicked. The options are copied last and may override the three base
      settings. */
  method ClientConfigOf(p: Params) returns (c: Option<KafkaClient.ClientConfig>)
    ensures c.None? <==> KafkaClient.WithStringOptions(BaseSettings(p), p.config.options).None?
    ensures c.Some? ==> c.value == KafkaClient.ClientConfig(KafkaClient.WithStringOptions(BaseSettings(p), p.config.options).value,
                                                            KafkaClient.ParseLogLevel(p.config.logLevel))
  {
    var settings := BaseSettings(p);
    var level := KafkaClient.ParseLogLevel(p.config.logLevel);
    var withOptions := KafkaClient.SetStringOptions(settings, p.config.options);
    if withOptions.None? {
      return None;
    }
    return Some(KafkaClient.ClientConfig(withOptions.value, level));
  }

  /** A group id given only under `options` overrides the `group_id` field. */
  lemma OptionsOverrideGroupId(p: Params, id: string)
    requires p.config.options == [Yaml.Entry(Yaml.String("group.id"), Yaml.String(id))]
    ensures KafkaClient.WithStringOptions(BaseSettings(p), p.config.options) == Some(BaseSettings(p)["group.id" := id])
  {
    KafkaClient.StringOptionsCopied(BaseSettings(p), p.config.options);
    assert KafkaClient.NamedByStringOption(p.config.options, "group.id");
  }

  // ---------------------------------------------------------------------------
  // The receive loop
  // ---------------------------------------------------------------------------

  /** The payload view of a received message as `str`. */
  datatype Payload = Absent | NotUtf8 | Text(text: string)

  /** One result of `consumer.recv()`, with whether committing that message
      succeeds. */
  datatype Event = ReceiveError | Received(topic: string, payload: Payload, commits: bool)

  /** One line of the output file: the JSON object `{"topic": .., "message": ..}`. */
  datatype Line = Line(topic: string, message: string)

  datatype ConsumerError =
    | BadParams(decode: DecodeError)
    | Invalid(message: string)
    | ClientCreation
    | Subscription
    | FileCreation
    | InvalidUtf8
    | NoContent
    | CommitFailed

  /** An event that ends the loop with an error. */
  predicate Fatal(e: Event) {
    e.Received? && (!e.payload.Text? || !e.commits)
  }

  /** The error a fatal event ends the loop with. */
  function StopOf(e: Event): ConsumerError
    requires Fatal(e)
  {
    match e.payload
    case Absent => NoContent
    case NotUtf8 => InvalidUtf8
    case Text(_) => CommitFailed
  }

  /** The index of the first fatal event. */
  function FirstFatal(events: seq<Event>): (r: Option<nat>)
    ensures r.Some? ==> r.value < |events| && Fatal(events[r.value])
    ensures r.Some? ==> forall j | 0 <= j < r.value :: !Fatal(events[j])
    ensures r.None? ==> forall j | 0 <= j < |events| :: !Fatal(events[j])
    decreases |events|
  {
    if |events| == 0 then None
    else if Fatal(events[0]) then Some(0)
    else match FirstFatal(events[1..])
      case None => None
      case Some(i) => Some(i + 1)
  }

  /** The line an event carries, if it carries a text payload. */
  function LineOf(e: Event): (line: seq<Line>)
    ensures |line| <= 1
  {
    if e.Received? && e.payload.Text? then [Line(e.topic, e.payload.text)] else []
  }

  /** Reference definition: the line of every event carrying a text payload,
      with no regard to what happens around it. */
  function TextLines(events: seq<Event>): (lines: seq<Line>)
    ensures |lines| <= |events|
  {
    if |events| == 0 then [] else LineOf(events[0]) + TextLines(events[1..])
  }

  /** The loop over `events`: receive errors are logged and skipped; a text
      message is written (when there is an output file) and then committed;
      the first fatal event stops the loop with its error, after its line, if
      any, was written. None: the loop is still waiting in `recv()`. */
  function Consume(events: seq<Event>, writes: bool): (r: (seq<Line>, Option<ConsumerError>))
    ensures |r.0| <= |events|
    ensures !writes ==> r.0 == []
    ensures r.1.Some? ==> exists i | 0 <= i < |events| :: Fatal(events[i])
    decreases |events|
  {
    if |events| == 0 then ([], None)
    else
      var e := events[0];
      var line := if writes then LineOf(e) else [];
      if Fatal(e) then (line, Some(StopOf(e)))
      else
        var rest := Consume(events[1..], writes);
        (line + rest.0, rest.1)
  }

  /** One step of the loop, at index `i`. */
  lemma ConsumeUnfold(events: seq<Event>, i: nat, writes: bool)
    requires i < |events|
    ensures var line := if writes then LineOf(events[i]) else [];
            Consume(events[i..], writes) ==
              if Fatal(events[i]) then (line, Some(StopOf(events[i])))
              else (line + Consume(events[i + 1..], writes).0, Consume(events[i + 1..], writes).1)
  {
    assert events[i..][0] == events[i] && events[i..][1..] == events[i + 1..];
  }

  /** The loop's invariant carried over one event: a fatal event ends the
      result there, any other one moves its line to the written prefix. */
  lemma ConsumeStep(events: seq<Event>, i: nat, writes: bool, lines: seq<Line>)
    requires i < |events|
    requires Consume(events, writes).0 == lines + Consume(events[i..], writes).0
    requires Consume(events, writes).1 == Consume(events[i..], writes).1
    ensures var line := if writes then LineOf(events[i]) else [];
            && (Fatal(events[i]) ==> Consume(events, writes) == (lines + line, Some(StopOf(events[i]))))
            && (!Fatal(events[i]) ==>
                  Consume(events, writes).0 == (lines + line) + Consume(events[i + 1..], writes).0 &&
                  Consume(events, writes).1 == Consume(events[i + 1..], writes).1)
  {
    ConsumeUnfold(events, i, writes);
    var line := if writes then LineOf(events[i]) else [];
    var rest := Consume(events[i + 1..], writes);
    assert lines + (line + rest.0) == (lines + line) + rest.0;
  }

  /** The number of events the loop takes in. */
  function Taken(events: seq<Event>): (n: nat)
    ensures n <= |events|
  {
    if FirstFatal(events).Some? then FirstFatal(events).value + 1 else |events|
  }

  /** The loop stops exactly at the first fatal event, with its error. */
  lemma {:induction false} ConsumeStops(events: seq<Event>, writes: bool)
    ensures Consume(events, writes).1 == if FirstFatal(events).Some? then Some(StopOf(events[FirstFatal(events).value])) else None
    decreases |events|
  {
    if |events| > 0 && !Fatal(events[0]) {
      ConsumeStops(events[1..], writes);
    }
  }

  /** The loop writes exactly the text messages it took in, in order, the
      message of a failing commit included; without an output file it writes
      nothing. */
  lemma {:induction false} ConsumeLines(events: seq<Event>, writes: bool)
    ensures Consume(events, writes).0 == if writes then TextLines(events[..Taken(events)]) else []
    decreases |events|
  {
    if |events| == 0 {
      assert events[..0] == [];
    } else {
      var e := events[0];
      var taken := events[..Taken(events)];
      if Fatal(e) {
        assert taken == [e] && taken[1..] == [];
      } else {
        ConsumeLines(events[1..], writes);
        assert Taken(events) == Taken(events[1..]) + 1;
        assert taken[0] == e && taken[1..] == events[1..][..Taken(events[1..])];
      }
    }
  }

  /** Both halves together. */
  lemma ConsumeSpec(events: seq<Event>, writes: bool)
    ensures Consume(events, writes).1.Some? <==> FirstFatal(events).Some?
    ensures FirstFatal(events).Some? ==> Consume(events, writes).1 == Some(StopOf(events[FirstFatal(events).value]))
    ensures Consume(events, writes).0 == if writes then TextLines(events[..Taken(events)]) else []
  {
    ConsumeStops(events, writes);
    ConsumeLines(events, writes);
  }

  /** The loop never ends with success: it stops only on an error. */
  lemma ConsumeNeverSucceeds(events: seq<Event>, writes: bool)
    ensures Consume(events, writes).1.Some? ==> Consume(events, writes).1.value in {InvalidUtf8, NoContent, CommitFailed}
    ensures (forall j | 0 <= j < |events| :: events[j].ReceiveError?) ==> Consume(events, writes) == ([], None)
  {
    ConsumeSpec(events, writes);
    if (forall j | 0 <= j < |events| :: events[j].ReceiveError?) {
      NoTextLines(events[..Taken(events)]);
    }
  }

  lemma {:induction false} NoTextLines(events: seq<Event>)
    requires forall j | 0 <= j < |events| :: events[j].ReceiveError?
    ensures TextLines(events) == []
    decreases |events|
  {
    if |events| > 0 {
      NoTextLines(events[1..]);
    }
  }

  /** The receive loop of the future, over the results `recv()` returns. */
  method ReceiveLoop(events: seq<Event>, writes: bool) returns (lines: seq<Line>, stop: Option<ConsumerError>)
    ensures (lines, stop) == Consume(events, writes)
  {
    lines := [];
    var i := 0;
    assert events[0..] == events;
    while i < |events|
      invariant 0 <= i <= |events|
      invariant Consume(events, writes).0 == lines + Consume(events[i..], writes).0
      invariant Consume(events, writes).1 == Consume(events[i..], writes).1
    {
      var e := events[i];
      var line := if writes then LineOf(e) else [];
      ConsumeStep(events, i, writes, lines);
      if Fatal(e) {
        return lines + line, Some(StopOf(e));
      }
      lines := lines + line;
      i := i + 1;
    }
    assert events[i..] == [];
    assert lines + [] == lines;
    return lines, None;
  }

  /** What start-up does: whether the client can be created, the subscription
      made and the output file created. */
  datatype Startup = Startup(clientCreates: bool, subscribes: bool, fileCreates: bool)

  /** Start-up gets through: the options are copied without a panic, the
      client is created and subscribed, and the output file, if any, is
      created. */
  predicate StartsUp(p: Params, startup: Startup) {
    && KafkaClient.WithStringOptions(BaseSettings(p), p.config.options).Some?
    && startup.clientCreates && startup.subscribes
    && (p.outputFile.None? || startup.fileCreates)
  }

  /** The registered `func`: deserialize, validate, build the client
      configuration, create the client, subscribe, create the output file, then
      run the receive loop. None for `exit`: the faker task is still running. */
  method Func(params: seq<Yaml.Entry>, startup: Startup, events: seq<Event>)
    returns (lines: seq<Line>, exit: Option<TaskExit<ConsumerError>>)
    ensures exit != Some(Done)
    ensures Decode(params).Err? ==> exit == Some(Failed(BadParams(Decode(params).error))) && lines == []
    ensures Decode(params).Ok? && ValidateParams(Decode(params).value).Fail? ==>
              exit == Some(Failed(Invalid(ValidateParams(Decode(params).value).error))) && lines == []
    ensures Decode(params).Ok? && ValidateParams(Decode(params).value) == Pass ==>
              var p := Decode(params).value;
              var copied := KafkaClient.WithStringOptions(BaseSettings(p), p.config.options).Some?;
              && (!copied ==> exit == Some(Panicked) && lines == [])
              && (copied && !startup.clientCreates ==> exit == Some(Failed(ClientCreation)) && lines == [])
              && (copied && startup.clientCreates && !startup.subscribes ==> exit == Some(Failed(Subscription)) && lines == [])
              && (copied && startup.clientCreates && startup.subscribes && p.outputFile.Some? && !startup.fileCreates ==>
                    exit == Some(Failed(FileCreation)) && lines == [])
    ensures Decode(params).Ok? && ValidateParams(Decode(params).value) == Pass && StartsUp(Decode(params).value, startup) ==>
              var (written, stop) := Consume(events, Decode(params).value.outputFile.Some?);
              lines == written && exit == if stop.Some? then Some(Failed(stop.value)) else None
    ensures lines != [] ==> Decode(params).Ok? && Decode(params).value.outputFile.Some? && startup == Startup(true, true, true)
    ensures exit.None? ==> Decode(params).Ok? && FirstFatal(events).None?
  {
    var decoded := Decode(params);
    if decoded.Err? {
      return [], Some(Failed(BadParams(decoded.error)));
    }
    var p := decoded.value;
    var valid := ValidateParams(p);
    if valid.Fail? {
      return [], Some(Failed(Invalid(valid.error)));
    }
    var config := ClientConfigOf(p);
    if config.None? {
      return [], Some(Panicked);
    }
    if !startup.clientCreates {
      return [], Some(Failed(ClientCreation));
    }
    if !startup.subscribes {
      return [], Some(Failed(Subscription));
    }
    if p.outputFile.Some? && !startup.fileCreates {
      return [], Some(Failed(FileCreation));
    }
    var stop;
    lines, stop := ReceiveLoop(events, p.outputFile.Some?);
    ConsumeSpec(events, p.outputFile.Some?);
    exit := if stop.Some? then Some(Failed(stop.value)) else None;
  }
}
