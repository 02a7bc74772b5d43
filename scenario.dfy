/** src/scenario.rs: the scenario descriptor and its runner. The runner resolves
    its two tempos, runs the optional Kafka set-up, launches the faker entries
    one after the other with a pause after each, then waits for either an
    interrupt or a termination message from a faker.

    Time is a counter of seconds from the call to `run`. What the spawned
    tasks, the broker and the user do is an environment: each launched task
    either publishes a termination message some seconds after its launch or
    never does (it runs forever, fails or panics, which the runner does not
    see), the set-up either completes or panics, and an interrupt either
    arrives some seconds into the wait or not. */
module Scenario {
  import opened Wrappers
  import Yaml
  import opened SerdeYaml
  import Faker

  // ---------------------------------------------------------------------------
  // The descriptor
  // ---------------------------------------------------------------------------

  datatype KafkaInit = KafkaInit(brokers: string, topics: seq<string>)

  datatype Setup = Setup(kafkaInit: Option<KafkaInit>)

  /** One entry of `fakers`: a plugin name and its parameters. */
  datatype FakerEntry = FakerEntry(name: string, params: seq<Yaml.Entry>)

  datatype Teardown = Teardown

  datatype Options = Options(fakerLaunchTempo: Option<nat>, terminationTempo: Option<nat>)

  datatype Scenario = Scenario(name: string, setup: Option<Setup>, fakers: seq<FakerEntry>,
                               teardown: Option<Teardown>, options: Option<Options>)

  // ---------------------------------------------------------------------------
  // Deserialization: no field of any struct is required
  // ---------------------------------------------------------------------------
  // Every field has a serde default or is an `Option`, so a mapping fails to
  // decode only when the pass over its entries meets a value of the wrong type
  // or a field written twice. The scenario is read from its text, where a key
  // can be written twice and where a `String` field takes the text of any
  // scalar (`TextString`): only a sequence or a mapping is the wrong type there.

  /** The fields of `KafkaInit`, both defaulted to empty. */
  const KafkaInitFields := ["brokers", "topics"]

  function KafkaInitFieldError(name: string, v: Yaml.Value): Option<DecodeError> {
    if name == "brokers" then ErrorOf(TextString(name, v)) else ErrorOf(TextStrings(name, v))
  }

  function DecodeKafkaInit(v: Yaml.Value): (r: Result<KafkaInit, DecodeError>)
    ensures r.Ok? ==> v.Mapping?
    ensures !v.Mapping? ==> r == Err(InvalidType("kafka_init"))
    ensures v.Mapping? ==> (r.Err? <==> DocumentError(v.entries, KafkaInitFields, KafkaInitFieldError).Some?)
    ensures v.Mapping? && r.Err? ==> Some(r.error) == DocumentError(v.entries, KafkaInitFields, KafkaInitFieldError)
    ensures r.Ok? && Field(v.entries, "brokers").None? ==> r.value.brokers == ""
    ensures r.Ok? && Field(v.entries, "brokers").Some? ==> TextString("brokers", Field(v.entries, "brokers").value) == Ok(r.value.brokers)
    ensures r.Ok? && Field(v.entries, "topics").None? ==> r.value.topics == []
    ensures r.Ok? && Field(v.entries, "topics").Some? ==> TextStrings("topics", Field(v.entries, "topics").value) == Ok(r.value.topics)
  {
    if !v.Mapping? then Err(InvalidType("kafka_init"))
    else
      var m := v.entries;
      match DocumentError(m, KafkaInitFields, KafkaInitFieldError)
      case Some(e) => Err(e)
      case None =>
        assert KafkaInitFields[0] == "brokers" && KafkaInitFields[1] == "topics";
        DocumentFieldChecked(m, KafkaInitFields, KafkaInitFieldError, "brokers");
        DocumentFieldChecked(m, KafkaInitFields, KafkaInitFieldError, "topics");
        Ok(KafkaInit(DefaultedValue(Field(m, "brokers"), "", x => TextString("brokers", x)),
                     DefaultedValue(Field(m, "topics"), [], x => TextStrings("topics", x))))
  }

  const SetupFields := ["kafka_init"]

  function SetupFieldError(name: string, v: Yaml.Value): Option<DecodeError> {
    OptionalError(v, DecodeKafkaInit)
  }

  function DecodeSetup(v: Yaml.Value): (r: Result<Setup, DecodeError>)
    ensures r.Ok? ==> v.Mapping?
    ensures !v.Mapping? ==> r == Err(InvalidType("setup"))
    ensures v.Mapping? ==> (r.Err? <==> DocumentError(v.entries, SetupFields, SetupFieldError).Some?)
    ensures v.Mapping? && r.Err? ==> Some(r.error) == DocumentError(v.entries, SetupFields, SetupFieldError)
    ensures r.Ok? ==> (r.value.kafkaInit.None? <==> Field(v.entries, "kafka_init") in {None, Some(Yaml.Null)})
    ensures r.Ok? && r.value.kafkaInit.Some? ==>
              Field(v.entries, "kafka_init").Some? &&
              DecodeKafkaInit(Field(v.entries, "kafka_init").value) == Ok(r.value.kafkaInit.value)
  {
    if !v.Mapping? then Err(InvalidType("setup"))
    else
      var m := v.entries;
      match DocumentError(m, SetupFields, SetupFieldError)
      case Some(e) => Err(e)
      case None =>
        assert SetupFields[0] == "kafka_init";
        DocumentFieldChecked(m, SetupFields, SetupFieldError, "kafka_init");
        Ok(Setup(OptionalValue(Field(m, "kafka_init"), DecodeKafkaInit)))
  }

  /** The fields of one faker entry, both defaulted to empty. */
  const FakerFields := ["name", "params"]

  /** `params: Mapping`: a mapping, loaded as serde_yaml loads a `Mapping`,
      so that a key written twice keeps its last value. */
  function AsParams(v: Yaml.Value): (r: Result<seq<Yaml.Entry>, DecodeError>)
    ensures r.Ok? <==> v.Mapping?
    ensures r.Ok? ==> Yaml.Loaded(v) == Yaml.Mapping(r.value) && Yaml.UniqueKeys(r.value)
    ensures r.Err? ==> r.error == InvalidType("params")
  {
    if v.Mapping? then Ok(Yaml.Loaded(v).entries) else Err(InvalidType("params"))
  }

  function FakerFieldError(name: string, v: Yaml.Value): Option<DecodeError> {
    if name == "name" then ErrorOf(TextString(name, v)) else ErrorOf(AsParams(v))
  }

  function DecodeFaker(v: Yaml.Value): (r: Result<FakerEntry, DecodeError>)
    ensures r.Ok? ==> v.Mapping?
    ensures !v.Mapping? ==> r == Err(InvalidType("fakers"))
    ensures v.Mapping? ==> (r.Err? <==> DocumentError(v.entries, FakerFields, FakerFieldError).Some?)
    ensures v.Mapping? && r.Err? ==> Some(r.error) == DocumentError(v.entries, FakerFields, FakerFieldError)
    ensures r.Ok? && Field(v.entries, "name").None? ==> r.value.name == ""
    ensures r.Ok? && Field(v.entries, "name").Some? ==> TextString("name", Field(v.entries, "name").value) == Ok(r.value.name)
    ensures r.Ok? && Field(v.entries, "params").None? ==> r.value.params == []
    ensures r.Ok? && Field(v.entries, "params").Some? ==>
              Field(v.entries, "params").value.Mapping? && Yaml.Loaded(Field(v.entries, "params").value) == Yaml.Mapping(r.value.params)
    ensures r.Ok? ==> Yaml.UniqueKeys(r.value.params)
  {
    if !v.Mapping? then Err(InvalidType("fakers"))
    else
      var m := v.entries;
      match DocumentError(m, FakerFields, FakerFieldError)
      case Some(e) => Err(e)
      case None =>
        assert FakerFields[0] == "name" && FakerFields[1] == "params";
        DocumentFieldChecked(m, FakerFields, FakerFieldError, "name");
        DocumentFieldChecked(m, FakerFields, FakerFieldError, "params");
        Ok(FakerEntry(DefaultedValue(Field(m, "name"), "", x => TextString("name", x)),
                      DefaultedValue(Field(m, "params"), [], AsParams)))
  }

  /** The faker list: a sequence whose items decode one by one, in document
      order, the first that does not giving the error. */
  function AsFakers(v: Yaml.Value): (r: Result<seq<FakerEntry>, DecodeError>)
    ensures !v.Sequence? ==> r == Err(InvalidType("fakers"))
    ensures r.Ok? <==> v.Sequence? && forall i | 0 <= i < |v.items| :: DecodeFaker(v.items[i]).Ok?
    ensures r.Ok? ==> |r.value| == |v.items| && forall i | 0 <= i < |v.items| :: DecodeFaker(v.items[i]) == Ok(r.value[i])
    ensures v.Sequence? && r.Err? ==> exists i | 0 <= i < |v.items| :: DecodeFaker(v.items[i]) == Err(r.error) &&
                                        forall j | 0 <= j < i :: DecodeFaker(v.items[j]).Ok?
  {
    if v.Sequence? then DecodeItems(v.items, DecodeFaker) else Err(InvalidType("fakers"))
  }

  /** `Teardown` has no fields: any mapping will do. */
  function DecodeTeardown(v: Yaml.Value): (r: Result<Teardown, DecodeError>)
    ensures r.Ok? <==> v.Mapping?
    ensures r.Err? ==> r.error == InvalidType("teardown")
  {
    if v.Mapping? then Ok(Teardown) else Err(InvalidType("teardown"))
  }

  /** The fields of `Options`, both `Option<u64>`. */
  const OptionsFields := ["faker_launch_tempo", "termination_tempo"]

  function OptionsFieldError(name: string, v: Yaml.Value): Option<DecodeError> {
    OptionalError(v, x => AsU64(name, x))
  }

  function DecodeOptions(v: Yaml.Value): (r: Result<Options, DecodeError>)
    ensures r.Ok? ==> v.Mapping?
    ensures !v.Mapping? ==> r == Err(InvalidType("options"))
    ensures v.Mapping? ==> (r.Err? <==> DocumentError(v.entries, OptionsFields, OptionsFieldError).Some?)
    ensures v.Mapping? && r.Err? ==> Some(r.error) == DocumentError(v.entries, OptionsFields, OptionsFieldError)
    ensures r.Ok? ==> (r.value.fakerLaunchTempo.None? <==> Field(v.entries, "faker_launch_tempo") in {None, Some(Yaml.Null)})
    ensures r.Ok? && r.value.fakerLaunchTempo.Some? ==>
              Field(v.entries, "faker_launch_tempo") == Some(Yaml.Number(r.value.fakerLaunchTempo.value)) &&
              r.value.fakerLaunchTempo.value < 0x1_0000_0000_0000_0000
    ensures r.Ok? ==> (r.value.terminationTempo.None? <==> Field(v.entries, "termination_tempo") in {None, Some(Yaml.Null)})
    ensures r.Ok? && r.value.terminationTempo.Some? ==>
              Field(v.entries, "termination_tempo") == Some(Yaml.Number(r.value.terminationTempo.value)) &&
              r.value.terminationTempo.value < 0x1_0000_0000_0000_0000
  {
    if !v.Mapping? then Err(InvalidType("options"))
    else
      var m := v.entries;
      match DocumentError(m, OptionsFields, OptionsFieldError)
      case Some(e) => Err(e)
      case None =>
        assert OptionsFields[0] == "faker_launch_tempo" && OptionsFields[1] == "termination_tempo";
        DocumentFieldChecked(m, OptionsFields, OptionsFieldError, "faker_launch_tempo");
        DocumentFieldChecked(m, OptionsFields, OptionsFieldError, "termination_tempo");
        Ok(Options(OptionalValue(Field(m, "faker_launch_tempo"), x => AsU64("faker_launch_tempo", x)),
                   OptionalValue(Field(m, "termination_tempo"), x => AsU64("termination_tempo", x))))
  }

  /** The fields of `Scenario`: `name` and `fakers` defaulted to empty, the
      others `Option`s. */
  const Fields := ["name", "setup", "fakers", "teardown", "options"]

  function FieldError(name: string, v: Yaml.Value): Option<DecodeError> {
    match name
    case "name" => ErrorOf(TextString(name, v))
    case "setup" => OptionalError(v, DecodeSetup)
    case "fakers" => ErrorOf(AsFakers(v))
    case "teardown" => OptionalError(v, DecodeTeardown)
    case _ => OptionalError(v, DecodeOptions)
  }

  /** Once the pass over a scenario's entries is through, every field present
      decodes. */
  lemma {:induction false} FieldsChecked(m: seq<Yaml.Entry>)
    requires DocumentError(m, Fields, FieldError).None?
    ensures Field(m, "name").Some? ==> IsScalar(Field(m, "name").value)
    ensures Field(m, "setup").Some? && !Field(m, "setup").value.Null? ==> DecodeSetup(Field(m, "setup").value).Ok?
    ensures Field(m, "fakers").Some? ==> AsFakers(Field(m, "fakers").value).Ok?
    ensures Field(m, "teardown").Some? && !Field(m, "teardown").value.Null? ==> DecodeTeardown(Field(m, "teardown").value).Ok?
    ensures Field(m, "options").Some? && !Field(m, "options").value.Null? ==> DecodeOptions(Field(m, "options").value).Ok?
  {
    NameChecked(m);
    SetupChecked(m);
    FakersChecked(m);
    TeardownChecked(m);
    OptionsChecked(m);
  }

  lemma {:induction false} NameChecked(m: seq<Yaml.Entry>)
    requires DocumentError(m, Fields, FieldError).None?
    ensures Field(m, "name").Some? ==> IsScalar(Field(m, "name").value)
  {
    assert Fields[0] == "name";
    DocumentFieldChecked(m, Fields, FieldError, "name");
  }

  lemma {:induction false} SetupChecked(m: seq<Yaml.Entry>)
    requires DocumentError(m, Fields, FieldError).None?
    ensures Field(m, "setup").Some? && !Field(m, "setup").value.Null? ==> DecodeSetup(Field(m, "setup").value).Ok?
  {
    assert Fields[1] == "setup";
    DocumentFieldChecked(m, Fields, FieldError, "setup");
  }

  lemma {:induction false} FakersChecked(m: seq<Yaml.Entry>)
    requires DocumentError(m, Fields, FieldError).None?
    ensures Field(m, "fakers").Some? ==> AsFakers(Field(m, "fakers").value).Ok?
  {
    assert Fields[2] == "fakers";
    DocumentFieldChecked(m, Fields, FieldError, "fakers");
  }

  lemma {:induction false} TeardownChecked(m: seq<Yaml.Entry>)
    requires DocumentError(m, Fields, FieldError).None?
    ensures Field(m, "teardown").Some? && !Field(m, "teardown").value.Null? ==> DecodeTeardown(Field(m, "teardown").value).Ok?
  {
    assert Fields[3] == "teardown";
    DocumentFieldChecked(m, Fields, FieldError, "teardown");
  }

  lemma {:induction false} OptionsChecked(m: seq<Yaml.Entry>)
    requires DocumentError(m, Fields, FieldError).None?
    ensures Field(m, "options").Some? && !Field(m, "options").value.Null? ==> DecodeOptions(Field(m, "options").value).Ok?
  {
    assert Fields[4] == "options";
    DocumentFieldChecked(m, Fields, FieldError, "options");
  }

  /** `serde_yaml::from_str::<Scenario>` on the document tree as written, where
      a mapping may repeat a key: the first field, in document order, that is
      written twice or holds a value of the wrong type (at any depth) is the
      error; a scalar under `name` is its text; absent fields give an empty
      name, no fakers and no set-up, teardown or options. */
  function Decode(doc: Yaml.Value): (r: Result<Scenario, DecodeError>)
    ensures r.Ok? ==> doc.Mapping?
    ensures !doc.Mapping? ==> r == Err(InvalidType("scenario"))
    ensures doc.Mapping? ==> (r.Err? <==> DocumentError(doc.entries, Fields, FieldError).Some?)
    ensures doc.Mapping? && r.Err? ==> Some(r.error) == DocumentError(doc.entries, Fields, FieldError)
    ensures r.Ok? && Field(doc.entries, "name").None? ==> r.value.name == ""
    ensures r.Ok? && Field(doc.entries, "name").Some? ==> TextString("name", Field(doc.entries, "name").value) == Ok(r.value.name)
    ensures r.Ok? && Field(doc.entries, "fakers").None? ==> r.value.fakers == []
    ensures r.Ok? && Field(doc.entries, "fakers").Some? ==> AsFakers(Field(doc.entries, "fakers").value) == Ok(r.value.fakers)
    ensures r.Ok? ==> (r.value.setup.None? <==> Field(doc.entries, "setup") in {None, Some(Yaml.Null)})
    ensures r.Ok? && r.value.setup.Some? ==>
              Field(doc.entries, "setup").Some? && DecodeSetup(Field(doc.entries, "setup").value) == Ok(r.value.setup.value)
    ensures r.Ok? ==> (r.value.teardown.None? <==> Field(doc.entries, "teardown") in {None, Some(Yaml.Null)})
    ensures r.Ok? ==> (r.value.options.None? <==> Field(doc.entries, "options") in {None, Some(Yaml.Null)})
    ensures r.Ok? && r.value.options.Some? ==>
              Field(doc.entries, "options").Some? && DecodeOptions(Field(doc.entries, "options").value) == Ok(r.value.options.value)
  {
    if !doc.Mapping? then Err(InvalidType("scenario"))
    else
      var m := doc.entries;
      match DocumentError(m, Fields, FieldError)
      case Some(e) => Err(e)
      case None =>
        FieldsChecked(m);
        Ok(Scenario(DefaultedValue(Field(m, "name"), "", x => TextString("name", x)),
                    OptionalValue(Field(m, "setup"), DecodeSetup),
                    DefaultedValue(Field(m, "fakers"), [], AsFakers),
                    OptionalValue(Field(m, "teardown"), DecodeTeardown),
                    OptionalValue(Field(m, "options"), DecodeOptions)))
  }

  /** A faker entry document: a name and a parameter mapping as written. */
  function FakerDocument(name: string, params: seq<Yaml.Entry>): Yaml.Value {
    Yaml.Mapping([Yaml.Entry(Yaml.String("name"), Yaml.String(name)),
                  Yaml.Entry(Yaml.String("params"), Yaml.Mapping(params))])
  }

  /** Such an entry decodes to its name and its loaded parameters. */
  lemma DecodesFakerDocument(name: string, params: seq<Yaml.Entry>)
    ensures DecodeFaker(FakerDocument(name, params)) == Ok(FakerEntry(name, Yaml.Loaded(Yaml.Mapping(params)).entries))
  {
    var v := FakerDocument(name, params);
    var m := v.entries;
    assert "params" != "name";
    assert EntryError(m, 0, FakerFields, FakerFieldError).None?;
    assert m[0].key != m[1].key;
    assert EntryError(m, 1, FakerFields, FakerFieldError).None?;
    assert DocumentError(m, FakerFields, FakerFieldError).None? by {
      forall i | 0 <= i < |m| ensures EntryError(m, i, FakerFields, FakerFieldError).None? {
        assert i == 0 || i == 1;
      }
    }
    FieldOfPair("name", Yaml.String(name), "params", Yaml.Mapping(params), "name");
    FieldOfPair("name", Yaml.String(name), "params", Yaml.Mapping(params), "params");
  }

  /** A faker entry document of the shape the repository's
      `scenario_new_from_str` test uses: a name and a one-key parameter
      mapping. */
  function EntryDocument(name: string, key: string, file: string): Yaml.Value {
    FakerDocument(name, [Yaml.Entry(Yaml.String(key), Yaml.String(file))])
  }

  /** Such an entry decodes to its name and the parameters `yaml_mapping!`
      builds. */
  lemma DecodeEntry(name: string, key: string, file: string)
    ensures DecodeFaker(EntryDocument(name, key, file)) == Ok(FakerEntry(name, Yaml.MappingOf([(key, Yaml.String(file))])))
  {
    DecodesFakerDocument(name, [Yaml.Entry(Yaml.String(key), Yaml.String(file))]);
    LoadedSingle(key, file);
    Yaml.MappingOfSingle(key, Yaml.String(file));
  }

  /** A one-pair parameter mapping of strings is loaded as it is written. */
  lemma LoadedSingle(key: string, file: string)
    ensures Yaml.Loaded(Yaml.Mapping([Yaml.Entry(Yaml.String(key), Yaml.String(file))])) ==
            Yaml.Mapping([Yaml.Entry(Yaml.String(key), Yaml.String(file))])
  {
    var e := Yaml.Entry(Yaml.String(key), Yaml.String(file));
    var es := [e];
    var loaded := seq(|es|, i requires 0 <= i < |es| => Yaml.Entry(Yaml.Loaded(es[i].key), Yaml.Loaded(es[i].value)));
    assert loaded == [e];
    Yaml.InsertAllSingle(e);
  }

  /** A parameter key written twice keeps the value written last, and only
      once. */
  lemma RepeatedParamKeepsLast(name: string, key: string, first: string, last: string)
    ensures DecodeFaker(FakerDocument(name, [Yaml.Entry(Yaml.String(key), Yaml.String(first)),
                                             Yaml.Entry(Yaml.String(key), Yaml.String(last))])) ==
            Ok(FakerEntry(name, [Yaml.Entry(Yaml.String(key), Yaml.String(last))]))
  {
    DecodesFakerDocument(name, [Yaml.Entry(Yaml.String(key), Yaml.String(first)), Yaml.Entry(Yaml.String(key), Yaml.String(last))]);
    LoadedOverwrite(key, first, last);
  }

  /** Two pairs with one key are loaded as the second. */
  lemma LoadedOverwrite(key: string, first: string, last: string)
    ensures Yaml.Loaded(Yaml.Mapping([Yaml.Entry(Yaml.String(key), Yaml.String(first)), Yaml.Entry(Yaml.String(key), Yaml.String(last))])) ==
            Yaml.Mapping([Yaml.Entry(Yaml.String(key), Yaml.String(last))])
  {
    var es := [Yaml.Entry(Yaml.String(key), Yaml.String(first)), Yaml.Entry(Yaml.String(key), Yaml.String(last))];
    var loaded := seq(|es|, i requires 0 <= i < |es| => Yaml.Entry(Yaml.Loaded(es[i].key), Yaml.Loaded(es[i].value)));
    assert loaded == es;
    Yaml.InsertAllOverwrite(Yaml.String(key), Yaml.String(first), Yaml.String(last));
  }

  /** A field written twice in the scenario text is serde's duplicate-field
      error, which `new_from_file` turns into a panic. */
  lemma RepeatedNameFails(first: string, second: string)
    ensures Decode(Yaml.Mapping([Yaml.Entry(Yaml.String("name"), Yaml.String(first)),
                                 Yaml.Entry(Yaml.String("name"), Yaml.String(second))])) == Err(DuplicateField("name"))
  {
    var m := [Yaml.Entry(Yaml.String("name"), Yaml.String(first)), Yaml.Entry(Yaml.String("name"), Yaml.String(second))];
    assert Fields[0] == "name";
    assert EntryError(m, 0, Fields, FieldError).None?;
    assert EntryError(m, 1, Fields, FieldError) == Some(DuplicateField("name"));
    assert FirstEntryError(m, Fields, FieldError, 1).None?;
    assert DocumentError(m, Fields, FieldError) == Some(DuplicateField("name"));
  }

  /** The scenario is read from its text, where a `String` field takes the
      text of any scalar: `name: 42` names the scenario "42". */
  lemma NumericNameIsText(n: nat)
    ensures Decode(Yaml.Mapping([Yaml.Entry(Yaml.String("name"), Yaml.Number(n))])) ==
            Ok(Scenario(Yaml.Decimal(n), None, [], None, None))
  {
    var m := [Yaml.Entry(Yaml.String("name"), Yaml.Number(n))];
    assert Fields[0] == "name";
    assert EntryError(m, 0, Fields, FieldError).None?;
    assert DocumentError(m, Fields, FieldError).None?;
    SingleField("name", Yaml.Number(n), "name");
    SingleField("name", Yaml.Number(n), "setup");
    SingleField("name", Yaml.Number(n), "fakers");
    SingleField("name", Yaml.Number(n), "teardown");
    SingleField("name", Yaml.Number(n), "options");
  }

  /** Only a sequence or a mapping is refused under `name`. */
  lemma ListNameFails(items: seq<Yaml.Value>)
    ensures Decode(Yaml.Mapping([Yaml.Entry(Yaml.String("name"), Yaml.Sequence(items))])) == Err(InvalidType("name"))
  {
    var m := [Yaml.Entry(Yaml.String("name"), Yaml.Sequence(items))];
    assert Fields[0] == "name";
    assert EntryError(m, 0, Fields, FieldError) == Some(InvalidType("name"));
    assert FirstEntryError(m, Fields, FieldError, 0).None?;
  }

  /** A faker entry `- name: 2024` names the plugin "2024", and with no
      `params` its parameters are empty. */
  lemma NumericFakerNameIsText(n: nat)
    ensures DecodeFaker(Yaml.Mapping([Yaml.Entry(Yaml.String("name"), Yaml.Number(n))])) == Ok(FakerEntry(Yaml.Decimal(n), []))
  {
    var m := [Yaml.Entry(Yaml.String("name"), Yaml.Number(n))];
    assert FakerFields[0] == "name";
    assert EntryError(m, 0, FakerFields, FakerFieldError).None?;
    assert DocumentError(m, FakerFields, FakerFieldError).None?;
    SingleField("name", Yaml.Number(n), "name");
    SingleField("name", Yaml.Number(n), "params");
  }

  /** `kafka_init: {brokers: 9092, topics: [1, 2]}` reads the numbers as
      their text. */
  lemma NumericKafkaInitIsText(brokers: nat)
    ensures DecodeKafkaInit(Yaml.Mapping([Yaml.Entry(Yaml.String("brokers"), Yaml.Number(brokers)),
                                          Yaml.Entry(Yaml.String("topics"), Yaml.Sequence([Yaml.Number(1), Yaml.Number(2)]))])) ==
            Ok(KafkaInit(Yaml.Decimal(brokers), ["1", "2"]))
  {
    var topics := Yaml.Sequence([Yaml.Number(1), Yaml.Number(2)]);
    NumericTopicsAreText();
    NumericKafkaInitPasses(brokers);
    FieldOfPair("brokers", Yaml.Number(brokers), "topics", topics, "brokers");
    FieldOfPair("brokers", Yaml.Number(brokers), "topics", topics, "topics");
  }

  /** `[1, 2]` read as a `Vec<String>` from text. */
  lemma NumericTopicsAreText()
    ensures TextStrings("topics", Yaml.Sequence([Yaml.Number(1), Yaml.Number(2)])) == Ok(["1", "2"])
  {
    var topics := Yaml.Sequence([Yaml.Number(1), Yaml.Number(2)]);
    var r := TextStrings("topics", topics);
    assert TextString("topics", topics.items[0]) == Ok("1") && TextString("topics", topics.items[1]) == Ok("2");
    assert r.value == [r.value[0], r.value[1]];
  }

  /** The pass gets through that `kafka_init`. */
  lemma NumericKafkaInitPasses(brokers: nat)
    ensures DocumentError([Yaml.Entry(Yaml.String("brokers"), Yaml.Number(brokers)),
                           Yaml.Entry(Yaml.String("topics"), Yaml.Sequence([Yaml.Number(1), Yaml.Number(2)]))],
                          KafkaInitFields, KafkaInitFieldError).None?
  {
    var topics := Yaml.Sequence([Yaml.Number(1), Yaml.Number(2)]);
    var m := [Yaml.Entry(Yaml.String("brokers"), Yaml.Number(brokers)), Yaml.Entry(Yaml.String("topics"), topics)];
    assert KafkaInitFields[0] == "brokers" && KafkaInitFields[1] == "topics";
    assert "topics" != "brokers" && m[0].key != m[1].key;
    NumericTopicsAreText();
    assert EntryError(m, 0, KafkaInitFields, KafkaInitFieldError).None?;
    assert EntryError(m, 1, KafkaInitFields, KafkaInitFieldError).None?;
    forall i | 0 <= i < |m| ensures EntryError(m, i, KafkaInitFields, KafkaInitFieldError).None? {
      assert i == 0 || i == 1;
    }
  }

  /** A scenario document holding only a name and a faker list, as in that
      test. */
  function NamedDocument(title: string, items: seq<Yaml.Value>): Yaml.Value {
    Yaml.Mapping([Yaml.Entry(Yaml.String("name"), Yaml.String(title)),
                  Yaml.Entry(Yaml.String("fakers"), Yaml.Sequence(items))])
  }

  /** Such a document decodes to its name and its entries, set-up, teardown
      and options absent. */
  lemma DecodesNamedDocument(title: string, items: seq<Yaml.Value>, fakers: seq<FakerEntry>)
    requires AsFakers(Yaml.Sequence(items)) == Ok(fakers)
    ensures Decode(NamedDocument(title, items)) == Ok(Scenario(title, None, fakers, None, None))
  {
    NamedDocumentFields(title, items);
    NamedDocumentPasses(title, items);
  }

  /** The pass gets through such a document. */
  lemma NamedDocumentPasses(title: string, items: seq<Yaml.Value>)
    requires AsFakers(Yaml.Sequence(items)).Ok?
    ensures DocumentError(NamedDocument(title, items).entries, Fields, FieldError).None?
  {
    var m := NamedDocument(title, items).entries;
    assert Fields[0] == "name" && Fields[2] == "fakers";
    assert "fakers" != "name" && m[0].key != m[1].key;
    assert EntryError(m, 0, Fields, FieldError).None? && EntryError(m, 1, Fields, FieldError).None?;
    forall i | 0 <= i < |m| ensures EntryError(m, i, Fields, FieldError).None? {
      assert i == 0 || i == 1;
    }
  }

  /** The fields of such a document: its name and faker list, nothing else. */
  lemma NamedDocumentFields(title: string, items: seq<Yaml.Value>)
    ensures Field(NamedDocument(title, items).entries, "name") == Some(Yaml.String(title))
    ensures Field(NamedDocument(title, items).entries, "fakers") == Some(Yaml.Sequence(items))
    ensures Field(NamedDocument(title, items).entries, "setup") == None
    ensures Field(NamedDocument(title, items).entries, "teardown") == None
    ensures Field(NamedDocument(title, items).entries, "options") == None
  {
    FieldOfPair("name", Yaml.String(title), "fakers", Yaml.Sequence(items), "name");
    FieldOfPair("name", Yaml.String(title), "fakers", Yaml.Sequence(items), "fakers");
    assert "fakers" != "name";
    FieldOfPair("name", Yaml.String(title), "fakers", Yaml.Sequence(items), "setup");
    assert "setup" != "name" && "setup" != "fakers";
    FieldOfPair("name", Yaml.String(title), "fakers", Yaml.Sequence(items), "teardown");
    assert "teardown" != "name" && "teardown" != "fakers";
    FieldOfPair("name", Yaml.String(title), "fakers", Yaml.Sequence(items), "options");
    assert "options" != "name" && "options" != "fakers";
  }

  /** Two entries of the test's shape decode in document order. */
  lemma DecodesEntryPair(first: string, second: string, key: string, firstFile: string, secondFile: string)
    ensures AsFakers(Yaml.Sequence([EntryDocument(first, key, firstFile), EntryDocument(second, key, secondFile)])) ==
            Ok([FakerEntry(first, Yaml.MappingOf([(key, Yaml.String(firstFile))])),
                FakerEntry(second, Yaml.MappingOf([(key, Yaml.String(secondFile))]))])
  {
    var items := [EntryDocument(first, key, firstFile), EntryDocument(second, key, secondFile)];
    DecodeEntry(first, key, firstFile);
    DecodeEntry(second, key, secondFile);
    assert forall i | 0 <= i < |items| :: DecodeFaker(items[i]).Ok? by {
      forall i | 0 <= i < |items| ensures DecodeFaker(items[i]).Ok? {
        assert i == 0 || i == 1;
      }
    }
    var r := AsFakers(Yaml.Sequence(items));
    assert DecodeFaker(items[0]) == Ok(r.value[0]) && DecodeFaker(items[1]) == Ok(r.value[1]);
    assert r.value == [r.value[0], r.value[1]];
  }

  /** The one field of a one-entry mapping. */
  lemma SingleField(k: string, v: Yaml.Value, name: string)
    ensures Field([Yaml.Entry(Yaml.String(k), v)], name) == if name == k then Some(v) else None
  {
    var m := [Yaml.Entry(Yaml.String(k), v)];
    assert m[1..] == [];
    assert Yaml.Get(m[1..], Yaml.String(name)) == None;
  }

  /** A field of a two-entry mapping is the value of the first entry with
      that key. */
  lemma FieldOfPair(k1: string, v1: Yaml.Value, k2: string, v2: Yaml.Value, name: string)
    ensures Field([Yaml.Entry(Yaml.String(k1), v1), Yaml.Entry(Yaml.String(k2), v2)], name) ==
            if name == k1 then Some(v1) else if name == k2 then Some(v2) else None
  {
    var m := [Yaml.Entry(Yaml.String(k1), v1), Yaml.Entry(Yaml.String(k2), v2)];
    assert m[1..] == [m[1]] && m[1..][1..] == [];
    assert Yaml.Get(m[1..][1..], Yaml.String(name)) == None;
    assert Yaml.Get(m[1..], Yaml.String(name)) == if name == k2 then Some(v2) else None;
  }

  // ---------------------------------------------------------------------------
  // Running
  // ---------------------------------------------------------------------------

  const DefaultLaunchTempo: nat := 1
  const DefaultTerminationTempo: nat := 3

  /** The launch tempo: the option when given, else 1. */
  function LaunchTempo(options: Option<Options>): (t: nat)
    ensures options.Some? && options.value.fakerLaunchTempo.Some? ==> t == options.value.fakerLaunchTempo.value
    ensures options.None? || options.value.fakerLaunchTempo.None? ==> t == DefaultLaunchTempo
  {
    if options.Some? && options.value.fakerLaunchTempo.Some? then options.value.fakerLaunchTempo.value else DefaultLaunchTempo
  }

  /** The termination tempo: the option when given, else 3. */
  function TerminationTempo(options: Option<Options>): (t: nat)
    ensures options.Some? && options.value.terminationTempo.Some? ==> t == options.value.terminationTempo.value
    ensures options.None? || options.value.terminationTempo.None? ==> t == DefaultTerminationTempo
  {
    if options.Some? && options.value.terminationTempo.Some? then options.value.terminationTempo.value else DefaultTerminationTempo
  }

  /** The two tempos `run` resolves, by overwriting the defaults with the options
      that are given. */
  method ResolveTempos(options: Option<Options>) returns (launch: nat, termination: nat)
    ensures launch == LaunchTempo(options) && termination == TerminationTempo(options)
    ensures options.None? ==> (launch, termination) == (1, 3)
  {
    launch := DefaultLaunchTempo;
    termination := DefaultTerminationTempo;
    if options.Some? {
      if options.value.fakerLaunchTempo.Some? {
        launch := options.value.fakerLaunchTempo.value;
      }
      if options.value.terminationTempo.Some? {
        termination := options.value.terminationTempo.value;
      }
    }
  }

  /** The Kafka set-up to run, if any: only when both `setup` and
      `setup.kafka_init` are given. */
  function KafkaSetup(sc: Scenario): (r: Option<KafkaInit>)
    ensures r.Some? <==> sc.setup.Some? && sc.setup.value.kafkaInit.Some?
  {
    if sc.setup.Some? then sc.setup.value.kafkaInit else None
  }

  /** `reinit_topics` awaits the broker's deletion of the topics, which takes
      `deletion` seconds, then sleeps 3 seconds and 3 more for each topic; the
      topics it builds are never submitted to the broker. */
  function SetupDuration(init: KafkaInit, deletion: nat): (d: nat)
    ensures d == deletion + 3 * (|init.topics| + 1)
  {
    deletion + 3 + 3 * |init.topics|
  }

  /** A launched faker: its entry's index and name, the plugin found for it,
      the parameters it receives and the second it is spawned at. */
  datatype Launch = Launch(index: nat, name: string, plugin: Faker.Func, params: seq<Yaml.Entry>, at: nat)

  /** The seconds spent in the pauses after the first `n` entries. */
  function Pauses(n: nat, tempo: nat): nat {
    if n == 0 then 0 else Pauses(n - 1, tempo) + tempo
  }

  /** The pauses of `n` entries last `n` times the tempo. */
  lemma {:induction false} PausesAreProduct(n: nat, tempo: nat)
    ensures Pauses(n, tempo) == n * tempo
  {
    if n > 0 {
      PausesAreProduct(n - 1, tempo);
      assert n * tempo == (n - 1) * tempo + tempo;
    }
  }

  /** Whether the launch `l` is the one of entry `l.index` of `fakers`: its
      name, the plugin the registry finds for it, its parameters and the second
      it is spawned at, after the pauses of all the entries before it. */
  predicate LaunchOf(fakers: seq<FakerEntry>, start: nat, tempo: nat, l: Launch) {
    l.index < |fakers| && l.name == fakers[l.index].name && l.params == fakers[l.index].params &&
    Faker.GetFaker(l.name) == Some(Faker.Registry.Plugin(l.name, l.plugin)) &&
    l.at == start + Pauses(l.index, tempo)
  }

  /** The launches of the first `n` entries, the loop starting at second
      `start` and pausing `tempo` seconds after every entry. */
  function Plan(fakers: seq<FakerEntry>, n: nat, start: nat, tempo: nat): (ls: seq<Launch>)
    requires n <= |fakers|
    ensures |ls| <= n
  {
    if n == 0 then [] else Plan(fakers, n - 1, start, tempo) + Added(fakers, n - 1, start, tempo)
  }

  /** Whether entry `i` is among a list of launches. */
  predicate Launches(ls: seq<Launch>, i: nat) {
    exists j | 0 <= j < |ls| :: ls[j].index == i
  }

  /** The launch the loop adds for entry `i`: one exactly when its name
      resolves, and it is entry `i`'s. */
  function Added(fakers: seq<FakerEntry>, i: nat, start: nat, tempo: nat): (ls: seq<Launch>)
    requires i < |fakers|
    ensures |ls| <= 1
    ensures |ls| == 1 <==> Faker.GetFaker(fakers[i].name).Some?
    ensures forall j | 0 <= j < |ls| :: ls[j].index == i
  {
    var f := Faker.GetFaker(fakers[i].name);
    if f.Some? then [Launch(i, fakers[i].name, f.value.func, fakers[i].params, start + Pauses(i, tempo))]
    else []
  }

  /** The launch added for entry `i` carries that entry's name, plugin,
      parameters and second. */
  lemma AddedLaunches(fakers: seq<FakerEntry>, i: nat, start: nat, tempo: nat)
    requires i < |fakers|
    ensures forall j | 0 <= j < |Added(fakers, i, start, tempo)| :: LaunchOf(fakers, start, tempo, Added(fakers, i, start, tempo)[j])
  {
    var f := Faker.GetFaker(fakers[i].name);
    if f.Some? {
      assert f.value == Faker.Registry.Plugin(fakers[i].name, f.value.func);
    }
  }

  /** Each launch is the one of an entry below `n`, and the launches follow
      declaration order. */
  lemma {:induction false} PlanLaunches(fakers: seq<FakerEntry>, n: nat, start: nat, tempo: nat)
    requires n <= |fakers|
    ensures forall j | 0 <= j < |Plan(fakers, n, start, tempo)| ::
              Plan(fakers, n, start, tempo)[j].index < n && LaunchOf(fakers, start, tempo, Plan(fakers, n, start, tempo)[j])
    ensures forall j, k | 0 <= j < k < |Plan(fakers, n, start, tempo)| ::
              Plan(fakers, n, start, tempo)[j].index < Plan(fakers, n, start, tempo)[k].index
    decreases n
  {
    if n > 0 {
      PlanLaunches(fakers, n - 1, start, tempo);
      AddedLaunches(fakers, n - 1, start, tempo);
      var prev := Plan(fakers, n - 1, start, tempo);
      var added := Added(fakers, n - 1, start, tempo);
      var ls := prev + added;
      forall j | 0 <= j < |ls| ensures ls[j].index < n && LaunchOf(fakers, start, tempo, ls[j]) {
        if j < |prev| {
          assert ls[j] == prev[j];
          assert LaunchOf(fakers, start, tempo, prev[j]);
        } else {
          assert ls[j] == added[j - |prev|];
          assert LaunchOf(fakers, start, tempo, added[j - |prev|]);
        }
      }
      forall j, k | 0 <= j < k < |ls| ensures ls[j].index < ls[k].index {
        assert ls[j] == prev[j];
        if k < |prev| { assert ls[k] == prev[k]; } else { assert ls[k] == added[k - |prev|]; }
      }
    }
  }

  /** Every entry whose name the registry resolves is launched; the others are
      skipped without error. */
  lemma PlanIsComplete(fakers: seq<FakerEntry>, n: nat, start: nat, tempo: nat)
    requires n <= |fakers|
    ensures forall i | 0 <= i < n :: Faker.GetFaker(fakers[i].name).Some? <==> Launches(Plan(fakers, n, start, tempo), i)
  {
    forall i | 0 <= i < n ensures Faker.GetFaker(fakers[i].name).Some? <==> Launches(Plan(fakers, n, start, tempo), i) {
      PlanHasEntry(fakers, n, start, tempo, i);
    }
  }

  /** Entry `i` below `n` is launched exactly when its name resolves. */
  lemma {:induction false} PlanHasEntry(fakers: seq<FakerEntry>, n: nat, start: nat, tempo: nat, i: nat)
    requires i < n <= |fakers|
    ensures Faker.GetFaker(fakers[i].name).Some? <==> Launches(Plan(fakers, n, start, tempo), i)
    decreases n
  {
    if i == n - 1 {
      PlanHasLast(fakers, n, start, tempo);
    } else {
      var prev := Plan(fakers, n - 1, start, tempo);
      var added := Added(fakers, n - 1, start, tempo);
      LaunchesAppend(prev, added, i);
      PlanHasEntry(fakers, n - 1, start, tempo, i);
      assert !Launches(added, i);
    }
  }

  /** The last of the first `n` entries is launched exactly when its name
      resolves. */
  lemma {:induction false} PlanHasLast(fakers: seq<FakerEntry>, n: nat, start: nat, tempo: nat)
    requires 0 < n <= |fakers|
    ensures Faker.GetFaker(fakers[n - 1].name).Some? <==> Launches(Plan(fakers, n, start, tempo), n - 1)
  {
    var prev := Plan(fakers, n - 1, start, tempo);
    var added := Added(fakers, n - 1, start, tempo);
    LaunchesAppend(prev, added, n - 1);
    PlanBelow(fakers, n - 1, start, tempo);
    assert !Launches(prev, n - 1);
    if |added| == 1 {
      assert added[0].index == n - 1;
    }
  }

  /** The entries launched by the first `n` steps are all below `n`. */
  lemma {:induction false} PlanBelow(fakers: seq<FakerEntry>, n: nat, start: nat, tempo: nat)
    requires n <= |fakers|
    ensures forall j | 0 <= j < |Plan(fakers, n, start, tempo)| :: Plan(fakers, n, start, tempo)[j].index < n
    decreases n
  {
    if n > 0 {
      PlanBelow(fakers, n - 1, start, tempo);
      var prev := Plan(fakers, n - 1, start, tempo);
      var added := Added(fakers, n - 1, start, tempo);
      var ls: seq<Launch> := prev + added;
      forall j | 0 <= j < |ls| ensures ls[j].index < n {
        if j < |prev| { assert ls[j] == prev[j]; } else { assert ls[j] == added[j - |prev|]; }
      }
    }
  }

  /** An entry is among two lists of launches put together exactly when it is
      among one of them. */
  lemma LaunchesAppend(prev: seq<Launch>, added: seq<Launch>, i: nat)
    ensures Launches(prev + added, i) <==> Launches(prev, i) || Launches(added, i)
  {
    var ls := prev + added;
    if Launches(ls, i) {
      var j :| 0 <= j < |ls| && ls[j].index == i;
      if j < |prev| {
        assert prev[j] == ls[j];
      } else {
        assert added[j - |prev|] == ls[j];
      }
    }
    if Launches(prev, i) {
      var j :| 0 <= j < |prev| && prev[j].index == i;
      assert ls[j] == prev[j];
    }
    if Launches(added, i) {
      var j :| 0 <= j < |added| && added[j].index == i;
      assert ls[|prev| + j] == added[j];
    }
  }

  /** The faker tasks' part of the environment. */
  datatype Behaviour = PublishesAfter(delay: nat) | NeverPublishes

  /** What happens around the runner: whether `reinit_topics` panics, how many
      seconds the broker takes to delete the topics, how each entry's task
      behaves (by entry index; absent entries never publish), and when an
      interrupt arrives, counted from the start of the wait. When the interrupt
      and the message are ready at the same second, `select!` picks either:
      `interruptWinsTie` says which. */
  datatype Environment = Environment(setupPanics: bool, deletionTakes: nat, behaviours: seq<Behaviour>,
                                     interruptAfter: Option<nat>, interruptWinsTie: bool)

  function BehaviourOf(env: Environment, index: nat): Behaviour {
    if index < |env.behaviours| then env.behaviours[index] else NeverPublishes
  }

  /** When a launch publishes, if it does. */
  function PublishTime(env: Environment, l: Launch): Option<nat> {
    match BehaviourOf(env, l.index)
    case NeverPublishes => None
    case PublishesAfter(d) => Some(l.at + d)
  }

  /** The earliest publish among the launched tasks. */
  function FirstPublish(env: Environment, ls: seq<Launch>): (r: Option<nat>)
    ensures r.None? <==> forall j | 0 <= j < |ls| :: PublishTime(env, ls[j]).None?
    ensures r.Some? ==> exists j | 0 <= j < |ls| :: PublishTime(env, ls[j]) == r
    ensures r.Some? ==> forall j | 0 <= j < |ls| && PublishTime(env, ls[j]).Some? :: r.value <= PublishTime(env, ls[j]).value
    decreases |ls|
  {
    if |ls| == 0 then None
    else
      var here := PublishTime(env, ls[0]);
      var rest := FirstPublish(env, ls[1..]);
      assert forall j | 1 <= j < |ls| :: ls[j] == ls[1..][j - 1];
      if rest.None? then here
      else if here.None? then
        assert exists j | 0 <= j < |ls| :: PublishTime(env, ls[j]) == rest by {
          var k :| 0 <= k < |ls[1..]| && PublishTime(env, ls[1..][k]) == rest;
          assert ls[k + 1] == ls[1..][k];
        }
        rest
      else if here.value <= rest.value then here
      else
        assert exists j | 0 <= j < |ls| :: PublishTime(env, ls[j]) == rest by {
          var k :| 0 <= k < |ls[1..]| && PublishTime(env, ls[1..][k]) == rest;
          assert ls[k + 1] == ls[1..][k];
        }
        rest
  }

  datatype Exit = Interrupted | Terminated(receivedAt: nat)

  /** How `run` ends: the set-up panicked, `run` returned `Ok(())` at second
      `at`, or it waits forever. */
  datatype RunEnd = SetupPanicked | Returned(at: nat, exit: Exit) | WaitsForever

  /** The `select!` of the wait that begins at second `ready`. A message
      published earlier sits in the runner's receiver and is received at once;
      the interrupt handler only exists from the start of the wait. */
  function Wait(ready: nat, publish: Option<nat>, env: Environment, termination: nat): (r: RunEnd)
    ensures r != SetupPanicked
    ensures r == WaitsForever <==> publish.None? && env.interruptAfter.None?
    ensures r.Returned? && r.exit == Interrupted ==> env.interruptAfter.Some? && r.at == ready + env.interruptAfter.value
    ensures r.Returned? && r.exit.Terminated? ==>
              publish.Some? && r.exit.receivedAt == (if publish.value < ready then ready else publish.value) &&
              r.at == r.exit.receivedAt + termination
  {
    var received := if publish.None? then None else Some(if publish.value < ready then ready else publish.value);
    var interrupt := if env.interruptAfter.None? then None else Some(ready + env.interruptAfter.value);
    if received.None? && interrupt.None? then WaitsForever
    else if received.None? then Returned(interrupt.value, Interrupted)
    else if interrupt.None? then Returned(received.value + termination, Terminated(received.value))
    else if interrupt.value < received.value || (interrupt.value == received.value && env.interruptWinsTie)
    then Returned(interrupt.value, Interrupted)
    else Returned(received.value + termination, Terminated(received.value))
  }

  /** The second the launch loop begins at: after the set-up, if any. */
  function StartAt(sc: Scenario, env: Environment): (t: nat)
    ensures KafkaSetup(sc).None? ==> t == 0
    ensures KafkaSetup(sc).Some? ==> t == env.deletionTakes + 3 * (|KafkaSetup(sc).value.topics| + 1)
  {
    if KafkaSetup(sc).Some? then SetupDuration(KafkaSetup(sc).value, env.deletionTakes) else 0
  }

  /** The second the wait begins at: one pause per entry after the start,
      whether the entry was launched or skipped, the last one included. */
  function ReadyAt(sc: Scenario, env: Environment, launchTempo: nat): (t: nat)
    ensures t == StartAt(sc, env) + |sc.fakers| * launchTempo
  {
    PausesAreProduct(|sc.fakers|, launchTempo);
    StartAt(sc, env) + Pauses(|sc.fakers|, launchTempo)
  }

  /** The launch loop of `run`, from second `start`: every entry whose name the
      registry resolves is spawned with its own parameters, and every entry is
      followed by a pause. */
  method LaunchAll(fakers: seq<FakerEntry>, start: nat, tempo: nat) returns (launched: seq<Launch>, clock: nat)
    ensures launched == Plan(fakers, |fakers|, start, tempo)
    ensures clock == start + Pauses(|fakers|, tempo)
  {
    clock := start;
    launched := [];
    var i := 0;
    while i < |fakers|
      invariant 0 <= i <= |fakers|
      invariant launched == Plan(fakers, i, start, tempo)
      invariant clock == start + Pauses(i, tempo)
    {
      var entry := fakers[i];
      var found := Faker.GetFaker(entry.name);
      ghost var added := Added(fakers, i, start, tempo);
      if found.Some? {
        assert added == [Launch(i, entry.name, found.value.func, entry.params, clock)];
        launched := launched + [Launch(i, entry.name, found.value.func, entry.params, clock)];
      } else {
        assert added == [];
      }
      assert Plan(fakers, i + 1, start, tempo) == Plan(fakers, i, start, tempo) + added;
      clock := clock + tempo;
      i := i + 1;
    }
  }

  /** `Scenario::run`. */
  method Run(sc: Scenario, env: Environment) returns (launched: seq<Launch>, end: RunEnd)
    ensures end == SetupPanicked <==> KafkaSetup(sc).Some? && env.setupPanics
    ensures end == SetupPanicked ==> launched == []
    ensures end != SetupPanicked ==>
              launched == Plan(sc.fakers, |sc.fakers|, StartAt(sc, env), LaunchTempo(sc.options)) &&
              end == Wait(ReadyAt(sc, env, LaunchTempo(sc.options)), FirstPublish(env, launched), env, TerminationTempo(sc.options))
  {
    var launch, termination := ResolveTempos(sc.options);
    var clock: nat := 0;
    var init := KafkaSetup(sc);
    if init.Some? {
      if env.setupPanics {
        return [], SetupPanicked;
      }
      clock := SetupDuration(init.value, env.deletionTakes);
    }
    assert clock == StartAt(sc, env);
    launched, clock := LaunchAll(sc.fakers, clock, launch);
    assert clock == ReadyAt(sc, env, launch);
    var publish := FirstPublish(env, launched);
    end := Wait(clock, publish, env, termination);
  }

  // ---------------------------------------------------------------------------
  // Properties of a run
  // ---------------------------------------------------------------------------

  /** A faker that fails is silent: with no task publishing and no interrupt,
      the runner waits forever, whatever the tempos. */
  lemma SilentFakersBlock(env: Environment, ready: nat, termination: nat, ls: seq<Launch>)
    requires forall j | 0 <= j < |ls| :: BehaviourOf(env, ls[j].index) == NeverPublishes
    requires env.interruptAfter.None?
    ensures Wait(ready, FirstPublish(env, ls), env, termination) == WaitsForever
  {
  }

  /** An interrupt that comes strictly first returns at once, with no grace. */
  lemma InterruptHasNoGrace(ready: nat, publish: Option<nat>, env: Environment, termination: nat)
    requires env.interruptAfter.Some?
    requires publish.None? || ready + env.interruptAfter.value < (if publish.value < ready then ready else publish.value)
    ensures Wait(ready, publish, env, termination) == Returned(ready + env.interruptAfter.value, Interrupted)
  {
  }

  /** The message that comes strictly first ends the run exactly one grace
      period after it is received, whichever faker sent it. */
  lemma TerminationTakesGrace(ready: nat, publish: nat, env: Environment, termination: nat)
    requires ready <= publish
    requires env.interruptAfter.None? || publish < ready + env.interruptAfter.value
    ensures Wait(ready, Some(publish), env, termination) == Returned(publish + termination, Terminated(publish))
  {
  }

  /** Two resolvable entries, launched from second 0 with tempo 1: at seconds
      0 and 1. */
  lemma TwoEntryPlan(first: FakerEntry, second: FakerEntry)
    requires Faker.GetFaker(first.name).Some? && Faker.GetFaker(second.name).Some?
    ensures Plan([first, second], 2, 0, 1) ==
            [Launch(0, first.name, Faker.GetFaker(first.name).value.func, first.params, 0),
             Launch(1, second.name, Faker.GetFaker(second.name).value.func, second.params, 1)]
  {
    var fakers := [first, second];
    var l0 := Launch(0, first.name, Faker.GetFaker(first.name).value.func, first.params, 0);
    var l1 := Launch(1, second.name, Faker.GetFaker(second.name).value.func, second.params, 1);
    assert Pauses(1, 1) == 1;
    assert Added(fakers, 0, 0, 1) == [l0];
    assert Added(fakers, 1, 0, 1) == [l1];
    assert Plan(fakers, 1, 0, 1) == [] + [l0] == [l0];
    assert Plan(fakers, 2, 0, 1) == [l0] + [l1] == [l0, l1];
  }

  /** Two entries, launch tempo 1 and termination tempo 2, no set-up; only the
      second entry's task publishes, 3 seconds after its launch: it is launched
      at second 1, the wait begins at second 2, the message arrives at second 4
      and `run` returns at second 6. */
  lemma SixSecondExample(first: FakerEntry, second: FakerEntry)
    requires Faker.GetFaker(first.name).Some? && Faker.GetFaker(second.name).Some?
    ensures var sc := Scenario("", None, [first, second], None, Some(Options(Some(1), Some(2))));
            var env := Environment(false, 0, [NeverPublishes, PublishesAfter(3)], None, false);
            var ls := Plan(sc.fakers, 2, 0, 1);
            |ls| == 2 && ls[1].at == 1 && ReadyAt(sc, env, 1) == 2 &&
            Wait(ReadyAt(sc, env, 1), FirstPublish(env, ls), env, 2) == Returned(6, Terminated(4))
  {
    var env := Environment(false, 0, [NeverPublishes, PublishesAfter(3)], None, false);
    TwoLaunches(first, second);
    var ls := Plan([first, second], 2, 0, 1);
    assert Pauses(2, 1) == 2;
    SecondPublishesAtFour(env, ls);
  }

  /** The indices and the second launch's time in that plan. */
  lemma TwoLaunches(first: FakerEntry, second: FakerEntry)
    requires Faker.GetFaker(first.name).Some? && Faker.GetFaker(second.name).Some?
    ensures var ls := Plan([first, second], 2, 0, 1);
            |ls| == 2 && ls[0].index == 0 && ls[1].index == 1 && ls[1].at == 1
  {
    TwoEntryPlan(first, second);
  }

  /** In that environment, two launches of entries 0 and 1, the second at
      second 1, have their first publish at second 4. */
  lemma SecondPublishesAtFour(env: Environment, ls: seq<Launch>)
    requires env == Environment(false, 0, [NeverPublishes, PublishesAfter(3)], None, false)
    requires |ls| == 2 && ls[0].index == 0 && ls[1].index == 1 && ls[1].at == 1
    ensures FirstPublish(env, ls) == Some(4)
  {
    assert PublishTime(env, ls[0]) == None;
    assert PublishTime(env, ls[1]) == Some(4);
    assert ls[1..] == [ls[1]] && ls[1..][1..] == [];
    assert FirstPublish(env, ls[1..]) == Some(4);
  }
}
