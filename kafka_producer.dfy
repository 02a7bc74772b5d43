/** src/fakers/kafka_producer/producer.rs: the faker that sends a fixed list of
    messages to Kafka and then publishes the termination signal. The broker is
    an environment: whether the client can be created and which delivery, if
    any, fails first. */
module KafkaProducer {
  import opened Wrappers
  import Yaml
  import opened SerdeYaml
  import Strings
  import KafkaClient
  import opened Faker

  datatype Message = Message(topic: string, key: string, message: string)

  /** The faker's parameters. */
  datatype Params = Params(brokers: seq<string>, options: seq<Yaml.Entry>, messages: seq<Message>, logLevel: string)

  /** The serde default of `log_level`. */
  const DefaultLogLevel := "info"

  // ---------------------------------------------------------------------------
  // Deserialization of the parameters
  // ---------------------------------------------------------------------------

  /** The fields of a `Message`: three required strings. */
  const MessageFields := ["topic", "key", "message"]

  function MessageFieldError(name: string, v: Yaml.Value): Option<DecodeError> {
    ErrorOf(AsString(name, v))
  }

  /** One `Message`: the pass over its entries, then its missing fields in
      declaration order. */
  function DecodeMessage(v: Yaml.Value): (r: Result<Message, DecodeError>)
    ensures !v.Mapping? ==> r == Err(InvalidType("messages"))
    ensures v.Mapping? ==> (r.Err? <==> StructError(v.entries, MessageFields, MessageFields, MessageFieldError).Some?)
    ensures v.Mapping? && r.Err? ==> r.error == StructError(v.entries, MessageFields, MessageFields, MessageFieldError).value
    ensures r.Ok? ==> v.Mapping? &&
                      Field(v.entries, "topic") == Some(Yaml.String(r.value.topic)) &&
                      Field(v.entries, "key") == Some(Yaml.String(r.value.key)) &&
                      Field(v.entries, "message") == Some(Yaml.String(r.value.message))
  {
    if !v.Mapping? then Err(InvalidType("messages"))
    else
      var error := StructError(v.entries, MessageFields, MessageFields, MessageFieldError);
      if error.Some? then Err(error.value)
      else
        assert MessageFields[0] == "topic" && MessageFields[1] == "key" && MessageFields[2] == "message";
        FieldChecked(v.entries, MessageFields, MessageFieldError, "topic");
        FieldChecked(v.entries, MessageFields, MessageFieldError, "key");
        FieldChecked(v.entries, MessageFields, MessageFieldError, "message");
        Ok(Message(Field(v.entries, "topic").value.s, Field(v.entries, "key").value.s, Field(v.entries, "message").value.s))
  }

  /** The `messages` field: a sequence of messages, read in order. */
  function AsMessages(v: Yaml.Value): Result<seq<Message>, DecodeError> {
    if v.Sequence? then DecodeItems(v.items, DecodeMessage) else Err(InvalidType("messages"))
  }

  /** The fields of `KafkaProducer`; all but `log_level` are required. */
  const Fields := ["brokers", "options", "messages", "log_level"]
  const RequiredFields := ["brokers", "options", "messages"]

  function FieldError(name: string, v: Yaml.Value): Option<DecodeError> {
    match name
    case "brokers" => ErrorOf(AsStrings(name, v))
    case "options" => ErrorOf(AsMapping(name, v))
    case "messages" => ErrorOf(AsMessages(v))
    case _ => ErrorOf(AsString(name, v))
  }

  /** `serde_yaml::from_value::<KafkaProducer>`: the first value, in document
      order, of the wrong type, else the first missing field among `brokers`,
      `options` and `messages`; `log_level` defaults to "info". */
  function Decode(params: seq<Yaml.Entry>): (r: Result<Params, DecodeError>)
    ensures r.Err? <==> StructError(params, Fields, RequiredFields, FieldError).Some?
    ensures r.Err? ==> r.error == StructError(params, Fields, RequiredFields, FieldError).value
    ensures r.Ok? ==> Field(params, "brokers").Some? && AsStrings("brokers", Field(params, "brokers").value) == Ok(r.value.brokers)
    ensures r.Ok? ==> Field(params, "options") == Some(Yaml.Mapping(r.value.options))
    ensures r.Ok? ==> Field(params, "messages").Some? && AsMessages(Field(params, "messages").value) == Ok(r.value.messages)
    ensures r.Ok? ==> if Field(params, "log_level").None? then r.value.logLevel == DefaultLogLevel
                      else Field(params, "log_level") == Some(Yaml.String(r.value.logLevel))
  {
    var error := StructError(params, Fields, RequiredFields, FieldError);
    if error.Some? then Err(error.value)
    else
      FieldsChecked(params);
      Ok(Params(AsStrings("brokers", Field(params, "brokers").value).value, Field(params, "options").value.entries,
                AsMessages(Field(params, "messages").value).value,
                DefaultedValue(Field(params, "log_level"), DefaultLogLevel, x => AsString("log_level", x))))
  }

  /** Once a producer's entries have no error, the required fields are present
      and every field present decodes. */
  lemma {:induction false} FieldsChecked(params: seq<Yaml.Entry>)
    requires StructError(params, Fields, RequiredFields, FieldError).None?
    ensures Field(params, "brokers").Some? && AsStrings("brokers", Field(params, "brokers").value).Ok?
    ensures Field(params, "options").Some? && Field(params, "options").value.Mapping?
    ensures Field(params, "messages").Some? && AsMessages(Field(params, "messages").value).Ok?
    ensures Field(params, "log_level").Some? ==> Field(params, "log_level").value.String?
  {
    assert RequiredFields[0] == "brokers" && RequiredFields[1] == "options" && RequiredFields[2] == "messages";
    BrokersChecked(params);
    OptionsChecked(params);
    MessagesChecked(params);
    LogLevelChecked(params);
  }

  lemma {:induction false} BrokersChecked(params: seq<Yaml.Entry>)
    requires FirstValueError(params, Fields, FieldError).None?
    ensures Field(params, "brokers").Some? ==> AsStrings("brokers", Field(params, "brokers").value).Ok?
  {
    assert Fields[0] == "brokers";
    FieldChecked(params, Fields, FieldError, "brokers");
  }

  lemma {:induction false} OptionsChecked(params: seq<Yaml.Entry>)
    requires FirstValueError(params, Fields, FieldError).None?
    ensures Field(params, "options").Some? ==> Field(params, "options").value.Mapping?
  {
    assert Fields[1] == "options";
    FieldChecked(params, Fields, FieldError, "options");
  }

  lemma {:induction false} MessagesChecked(params: seq<Yaml.Entry>)
    requires FirstValueError(params, Fields, FieldError).None?
    ensures Field(params, "messages").Some? ==> AsMessages(Field(params, "messages").value).Ok?
  {
    assert Fields[2] == "messages";
    FieldChecked(params, Fields, FieldError, "messages");
  }

  lemma {:induction false} LogLevelChecked(params: seq<Yaml.Entry>)
    requires FirstValueError(params, Fields, FieldError).None?
    ensures Field(params, "log_level").Some? ==> Field(params, "log_level").value.String?
  {
    assert Fields[3] == "log_level";
    FieldChecked(params, Fields, FieldError, "log_level");
  }

  /** A message list with a type error inside reports it before any missing
      field of the producer: `{messages: [{topic: 1}]}` fails on `topic`, not on
      the absent `brokers`. */
  lemma NestedTypeErrorComesFirst()
    ensures Decode([Yaml.Entry(Yaml.String("messages"), Yaml.Sequence([Yaml.Mapping([Yaml.Entry(Yaml.String("topic"), Yaml.Number(1))])]))]) ==
            Err(InvalidType("topic"))
  {
    var message := [Yaml.Entry(Yaml.String("topic"), Yaml.Number(1))];
    assert !Checked(message[0], MessageFields, MessageFieldError);
    assert DecodeMessage(Yaml.Mapping(message)) == Err(InvalidType("topic"));
    var m := [Yaml.Entry(Yaml.String("messages"), Yaml.Sequence([Yaml.Mapping(message)]))];
    assert !Checked(m[0], Fields, FieldError);
  }

  // ---------------------------------------------------------------------------
  // validate_params
  // ---------------------------------------------------------------------------

  /** The index of the first message with an empty topic or an empty text. */
  function FirstIncomplete(messages: seq<Message>): (r: Option<nat>)
    ensures r.Some? ==> r.value < |messages| && (messages[r.value].topic == "" || messages[r.value].message == "")
    ensures r.Some? ==> forall j | 0 <= j < r.value :: messages[j].topic != "" && messages[j].message != ""
    ensures r.None? ==> forall j | 0 <= j < |messages| :: messages[j].topic != "" && messages[j].message != ""
    decreases |messages|
  {
    if |messages| == 0 then None
    else if messages[0].topic == "" || messages[0].message == "" then Some(0)
    else match FirstIncomplete(messages[1..])
      case None => None
      case Some(i) => Some(i + 1)
  }

  /** `validate_params`: brokers first, then the message list, then each message;
      an empty key is allowed. */
  function ValidateParams(p: Params): (r: Outcome<string>)
    ensures p.brokers == [] ==> r == Fail("brokers cannot be empty")
    ensures p.brokers != [] && p.messages == [] ==> r == Fail("messages cannot be empty")
    ensures p.brokers != [] && p.messages != [] ==>
              (r == Pass <==> forall i | 0 <= i < |p.messages| :: p.messages[i].topic != "" && p.messages[i].message != "")
    ensures r != Pass ==> r in {Fail("brokers cannot be empty"), Fail("messages cannot be empty"),
                                Fail("Topic or message must not be empty!")}
  {
    if p.brokers == [] then Fail("brokers cannot be empty")
    else if p.messages == [] then Fail("messages cannot be empty")
    else if FirstIncomplete(p.messages).Some? then Fail("Topic or message must not be empty!")
    else Pass
  }

  // ---------------------------------------------------------------------------
  // The client configuration built by `func`
  // ---------------------------------------------------------------------------

  /** The one setting made before the options are copied. */
  function InitialSettings(p: Params): map<string, string> {
    map["bootstrap.servers" := Strings.Join(p.brokers, ",")]
  }

  /** `bootstrap.servers` is set first, then the log level, then the string
      options, which may override `bootstrap.servers`. None: a string option
      under a non-string key panicked. */
  method ClientConfigOf(p: Params) returns (c: Option<KafkaClient.ClientConfig>)
    ensures c.Some? ==> c.value.logLevel == KafkaClient.ParseLogLevel(p.logLevel)
    ensures c.None? <==> KafkaClient.WithStringOptions(InitialSettings(p), p.options).None?
    ensures c.Some? ==> c.value.settings == KafkaClient.WithStringOptions(InitialSettings(p), p.options).value
  {
    var settings := InitialSettings(p);
    var level := KafkaClient.ParseLogLevel(p.logLevel);
    var withOptions := KafkaClient.SetStringOptions(settings, p.options);
    if withOptions.None? {
      return None;
    }
    return Some(KafkaClient.ClientConfig(withOptions.value, level));
  }

  /** Without a string option named `bootstrap.servers`, the setting holds the
      brokers joined by ",", from which the broker list can be read back when
      no broker name contains a comma. */
  lemma BootstrapServers(p: Params)
    requires Yaml.UniqueKeys(p.options)
    requires KafkaClient.WithStringOptions(InitialSettings(p), p.options).Some?
    requires !KafkaClient.NamedByStringOption(p.options, "bootstrap.servers")
    requires p.brokers != [] && forall i | 0 <= i < |p.brokers| :: ',' !in p.brokers[i]
    ensures var s := KafkaClient.WithStringOptions(InitialSettings(p), p.options).value;
            "bootstrap.servers" in s && Strings.Split(s["bootstrap.servers"], ',') == p.brokers
  {
    KafkaClient.StringOptionsCopied(InitialSettings(p), p.options);
    Strings.SplitJoin(p.brokers, ',');
  }

  // ---------------------------------------------------------------------------
  // Sending
  // ---------------------------------------------------------------------------

  /** What one send hands to the broker: the key is attached only when non-empty. */
  datatype Record = Record(topic: string, key: Option<string>, payload: string)

  function RecordOf(m: Message): (r: Record)
    ensures r.topic == m.topic && r.payload == m.message
    ensures r.key.Some? <==> m.key != ""
    ensures r.key.Some? ==> r.key.value == m.key
  {
    Record(m.topic, if m.key == "" then None else Some(m.key), m.message)
  }

  /** The records of `messages`, in order. */
  function Records(messages: seq<Message>): (rs: seq<Record>)
    ensures |rs| == |messages|
    ensures forall i | 0 <= i < |messages| :: rs[i] == RecordOf(messages[i])
  {
    seq(|messages|, i requires 0 <= i < |messages| => RecordOf(messages[i]))
  }

  /** What the broker does: whether `create()` succeeds, and the index of the first
      message whose delivery fails, if any does. */
  datatype Broker = Broker(clientCreates: bool, firstFailedDelivery: Option<nat>)

  datatype ProducerError = BadParams(decode: DecodeError) | Invalid(message: string) | ClientCreation | Delivery(index: nat)

  /** How many messages get sent: all of them, or up to and including the one whose
      delivery fails. */
  function SentCount(messages: seq<Message>, broker: Broker): (n: nat)
    ensures n <= |messages|
  {
    if !broker.clientCreates then 0
    else if broker.firstFailedDelivery.Some? && broker.firstFailedDelivery.value < |messages|
    then broker.firstFailedDelivery.value + 1
    else |messages|
  }

  /** What sending `messages` through `broker` comes to: the records handed to
      the broker are those up to and including the first failed delivery; `true`
      is published iff the client is created and every delivery succeeds, which
      is also when the task ends with `Ok`; otherwise the task fails with the
      client creation or with the first failed delivery. */
  predicate Sends(messages: seq<Message>, broker: Broker, sent: seq<Record>, published: bool, exit: TaskExit<ProducerError>)
    ensures Sends(messages, broker, sent, published, exit) ==>
              |sent| <= |messages| && (published ==> sent == Records(messages))
  {
    && sent == Records(messages[..SentCount(messages, broker)])
    && (published <==> broker.clientCreates &&
                       (broker.firstFailedDelivery.None? || broker.firstFailedDelivery.value >= |messages|))
    && (exit == Done <==> published)
    && (!broker.clientCreates ==> exit == Failed(ClientCreation))
    && (broker.clientCreates && broker.firstFailedDelivery.Some? && broker.firstFailedDelivery.value < |messages| ==>
          exit == Failed(Delivery(broker.firstFailedDelivery.value)))
  }

  /** The future built by `func`: create the client, send each message in order
      and wait for its delivery, and publish `true` only once every delivery has
      succeeded; the first delivery error ends the faker task without publishing. */
  method Send(messages: seq<Message>, broker: Broker) returns (sent: seq<Record>, published: bool, exit: TaskExit<ProducerError>)
    ensures Sends(messages, broker, sent, published, exit)
  {
    if !broker.clientCreates {
      return [], false, Failed(ClientCreation);
    }
    sent := [];
    var i := 0;
    while i < |messages|
      invariant 0 <= i <= |messages|
      invariant sent == Records(messages[..i])
      invariant broker.firstFailedDelivery.None? || broker.firstFailedDelivery.value >= i
    {
      sent := sent + [RecordOf(messages[i])];
      assert messages[..i + 1] == messages[..i] + [messages[i]];
      if broker.firstFailedDelivery == Some(i) {
        return sent, false, Failed(Delivery(i));
      }
      i := i + 1;
    }
    assert messages[..i] == messages;
    return sent, true, Done;
  }

  /** The registered `func`: deserialize the parameters, validate them, build the
      client configuration, then run the future. */
  method Func(params: seq<Yaml.Entry>, broker: Broker) returns (sent: seq<Record>, published: bool, exit: TaskExit<ProducerError>)
    ensures Decode(params).Err? ==> exit == Failed(BadParams(Decode(params).error)) && sent == [] && !published
    ensures Decode(params).Ok? && ValidateParams(Decode(params).value).Fail? ==>
              exit == Failed(Invalid(ValidateParams(Decode(params).value).error)) && sent == [] && !published
    ensures Decode(params).Ok? && ValidateParams(Decode(params).value) == Pass &&
            KafkaClient.WithStringOptions(InitialSettings(Decode(params).value), Decode(params).value.options).None? ==>
              exit == Panicked && sent == [] && !published
    ensures Decode(params).Ok? && ValidateParams(Decode(params).value) == Pass &&
            KafkaClient.WithStringOptions(InitialSettings(Decode(params).value), Decode(params).value.options).Some? ==>
              Sends(Decode(params).value.messages, broker, sent, published, exit)
    ensures published ==> Decode(params).Ok? && ValidateParams(Decode(params).value) == Pass
    ensures published ==> sent == Records(Decode(params).value.messages)
    ensures exit == Done <==> published
  {
    var decoded := Decode(params);
    if decoded.Err? {
      return [], false, Failed(BadParams(decoded.error));
    }
    var p := decoded.value;
    var valid := ValidateParams(p);
    if valid.Fail? {
      return [], false, Failed(Invalid(valid.error));
    }
    var config := ClientConfigOf(p);
    if config.None? {
      return [], false, Panicked;
    }
    sent, published, exit := Send(p.messages, broker);
    assert published ==> SentCount(p.messages, broker) == |p.messages| && p.messages[..|p.messages|] == p.messages;
  }
}
