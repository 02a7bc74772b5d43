# test-faker, modelled in Dafny

test-faker runs integration-test scenarios described in YAML. A scenario names
"fakers": a Kafka producer, a Kafka consumer and an HTTP mock server. The runner
optionally re-initialises Kafka topics, launches each faker entry whose name is
registered, pausing after every entry, and then waits for either an interrupt
or a termination message from a faker. A "verifier" plugin compares two files
line by line.

This project models the sequential logic around that concurrency and I/O:

- the scenario descriptor with its serde defaults, and `Scenario::run` as a
  method over a time counter (`scenario.dfy`);
- the two plugin registries (`faker.dfy`, `verifier.dfy`, sharing `registry.dfy`);
- the parameter decoding, validation and client configuration of the three
  fakers, with their control flow over abstract broker events
  (`kafka_producer.dfy`, `kafka_consumer.dfy`, `kafka_client.dfy`);
- the HTTP mock server's route table, handlers and in-memory store, as a
  class whose methods update the store (`http_server.dfy`, `json.dfy`);
- YAML values, mappings built by `yaml_mapping!`, `yaml_get_value_type`
  and `yaml_get_value_by_path` (`yaml.dfy`, `serde_yaml.dfy`);
- the file comparator verifier (`file_comparator.dfy`).

`wrappers.dfy` holds `Option`, `Result` and `Outcome`. `strings.dfy` holds
`split` and `join`.

What the outside world does is a parameter, never an assumption:

- the broker is whether a client can be created and which delivery fails first;
- the consumer's input is a sequence of receive events;
- the HTTP client's input is a sequence of requests;
- JSON parsing is a function `string -> Option<Json>`;
- files are a map from path to contents;
- the scenario's environment is whether set-up panics, how long the broker
  takes to delete the topics, when each launched task publishes, and when an
  interrupt arrives.

The `unwrap`s and `expect`s on the core's data are modelled as panic outcomes,
not as preconditions: the `Panicked` replies of the HTTP handlers, the
`Panicked` exit of a faker task whose options loop or bind panics. The cases
the source does not handle are therefore still visible in the model. The
unwraps of file writes are the exception: writes always succeed here (see
"Left out").

The runner pauses after every entry, the last one included
(src/scenario.rs:107-121), so the wait starts N pauses after the launch loop
begins (`Scenario.ReadyAt`).

Struct decoding follows serde's derived `Deserialize`: one pass over the
mapping's entries in document order, where the first value that does not
decode (at any depth) is the error, and only then the first missing required
field in declaration order (`serde_yaml.dfy`). The two decoding paths differ
in what does not decode:

- The plugins decode their parameters from a `Mapping` value with
  `from_value`. A mapping never holds a key twice there, and a `String` field
  takes only a string (`SerdeYaml.AsString`).
- The scenario is decoded straight from its text (src/scenario.rs:73-81). A
  key can be written twice: a struct field written a second time is serde's
  duplicate-field error, which `new_from_file` turns into a panic. A `String`
  field takes the text of any scalar, so `name: 42` names the scenario "42";
  only a sequence or a mapping is refused (`SerdeYaml.TextString`). A faker's
  `params` is loaded as a `Mapping`, keeping the last value of a repeated key
  (`Yaml.Loaded`).

YAML and JSON numbers are integers only.

## Model

| member | source | states |
|---|---|---|
| Faker.GetFaker | src/faker.rs:24-28 | found exactly for the three registered names, compared exactly; the entry found carries the queried name and is a registered one |
| Faker.GetFakerNames | src/faker.rs:30-35 | one name per registered entry in registry order; a name is listed iff `get_faker` finds it |
| Faker.LookupIsCaseSensitive | src/faker.rs:27 | "kafka-producer" is found; "Kafka-Producer" and "HTTP-SERVER" are not |
| Registry.Find | src/faker.rs:24-28 | some entry has the name iff found; the entry found is named as queried and no entry before it has that name |
| Registry.Names | src/faker.rs:30-35 | the names of the entries, pointwise and in order, duplicates included |
| Registry.ListedIffFound | src/faker.rs:24-35 | a name is in `Names` iff `Find` returns an entry |
| Registry.FirstMatchWins | src/faker.rs:25-27 | with two entries of the same name, the earlier one is returned |
| Verifier.GetVerifier | src/verifier.rs:17-21 | found exactly for "file-comparator"; the entry found carries the queried name |
| Verifier.GetVerifierNames | src/verifier.rs:23-28 | every registered name in registry order; a name is listed iff `get_verifier` finds it |
| Yaml.GetFinds | src/utils/yaml.rs:53 | a key lookup finds a value iff some entry has the key, and the value found belongs to such an entry |
| Yaml.GetUnique | src/utils/yaml.rs:53 | in a mapping with distinct keys, looking up an entry's key gives that entry's value |
| Yaml.Remove | src/utils/yaml.rs:12 | the entry for the key is gone, every other key keeps its value, no new entry appears, unique keys stay unique |
| Yaml.Insert | src/utils/yaml.rs:12 | the key now maps to the value, placed last; other keys keep their values; unique keys stay unique |
| Yaml.InsertAll | src/scenario.rs:59 | loading a mapping from its pairs leaves no key twice, and each key holds the value of its last pair |
| Yaml.InsertAllOverwrite | src/scenario.rs:59 | a key written twice holds the second value, once |
| Yaml.Loaded | src/scenario.rs:59 | loading keeps a mapping a mapping and leaves its keys distinct |
| SerdeYaml.FirstValueError | src/fakers/kafka_producer/producer.rs:26-37 | the `from_value` pass over a `Mapping` gets through iff every entry naming a field holds a value that decodes; otherwise the error of the first entry, in document order, that does not |
| SerdeYaml.FirstMissing | src/fakers/kafka_producer/producer.rs:26-37 | the missing-field check: none iff every required field has a key; otherwise the first required field, in declaration order, without one |
| SerdeYaml.StructError | src/fakers/kafka_producer/producer.rs:26-37 | a value error comes before a missing field; the struct decodes iff neither arises |
| SerdeYaml.TextString | src/scenario.rs:73-81 | a `String` read from text: accepted iff the value is a scalar; a string gives its own text, a non-negative number its decimal digits |
| SerdeYaml.TextStrings | src/scenario.rs:73-81 | a `Vec<String>` read from text: accepted iff a sequence of scalars, item i read as `TextString` of item i |
| SerdeYaml.FirstEntryError | src/scenario.rs:20-37 | the pass over a document mapping stops at the first entry that names a field already seen or holds a value that does not decode, with that entry's error |
| SerdeYaml.DocumentError | src/scenario.rs:20-37 | the pass gets through iff no entry names a field twice or holds a value that does not decode; otherwise the first such entry's error |
| SerdeYaml.DocumentFieldChecked | src/scenario.rs:20-37 | once that pass is through, every field's value decodes |
| SerdeYaml.DocumentErrorOfMapping | src/scenario.rs:20-37 | on a mapping with distinct keys, the document pass and the value pass stop with the same error |
| Yaml.MappingOf | src/utils/yaml.rs:8-17 | the macro's inserts in written order; what they build is stated by the `MappingOf` lemmas below |
| Yaml.MappingOfSingle | src/utils/yaml.rs:8-17 | a one-pair `yaml_mapping!` is the one-entry mapping |
| Yaml.MappingOfIsLastOccurrences | src/utils/yaml.rs:8-17 | the macro's mapping equals the reference: each key's last pair, in the order of the last writes |
| Yaml.MappingOfUnique | src/utils/yaml.rs:8-17 | the macro's mapping never holds a key twice |
| Yaml.MappingOfHasKey | src/utils/yaml.rs:8-17 | a key is in the macro's mapping iff some pair writes it |
| Yaml.MappingOfLast | src/utils/yaml.rs:8-17 | a key maps to the value of its last pair, so a later duplicate overwrites an earlier one |
| Yaml.TypeName | src/utils/yaml.rs:64-73 | one of the six names; "sequence", "mapping" and "null" exactly for their variants |
| Yaml.TypeNameDistinguishesVariants | src/utils/yaml.rs:64-73 | two values get the same name iff they are of the same variant |
| Yaml.ParseUsize | src/utils/yaml.rs:43 | accepted only for an optional '+' then digits, with a value that fits in a 64-bit `usize` |
| Yaml.ParseUsizeDecimal | src/utils/yaml.rs:43 | every `usize` is read back from its decimal form, with or without a leading '+' |
| Yaml.Step | src/utils/yaml.rs:43-53 | a numeric segment indexes a sequence; any other segment or value is a string-key lookup; a scalar gives Null |
| Yaml.Walk | src/utils/yaml.rs:41-59 | the walk from Null is Null, and any non-empty path from a scalar is Null |
| Yaml.WalkIsApplyAll | src/utils/yaml.rs:41-59 | stopping at the first Null gives the same value as applying every segment |
| Yaml.WalkAppend | src/utils/yaml.rs:41-59 | segments apply left to right: walking `a + b` is walking `b` from the result of `a` |
| Yaml.GetValueByPath | src/utils/yaml.rs:32-62 | the loop with its early return computes the path's value; the empty path returns the input |
| Yaml.MissingMakesNull | src/utils/yaml.rs:56-58 | once the walk is Null, no further segments change it |
| Yaml.ParsedSegments | src/utils/yaml.rs:43 | "0", "+0" and "1" parse as indices; "a" and "b" do not |
| Yaml.PathIndexesSequence | src/utils/yaml.rs:32-62 | `a.0.b` reaches the number inside the sequence |
| Yaml.PathIndexAcceptsPlus | src/utils/yaml.rs:32-62 | `a.+0.b` reaches it too |
| Yaml.PathOutOfRange | src/utils/yaml.rs:32-62 | an out-of-range index makes the whole path Null |
| Yaml.PathNumericKeyOnMapping | src/utils/yaml.rs:47-50 | a numeric segment on a mapping is looked up as a string key |
| KafkaClient.ParseLogLevel | src/fakers/kafka_producer/producer.rs:75-85 | each of the eight names maps to its level; any other string maps to Info |
| KafkaClient.LogLevelRoundTrip | src/fakers/kafka_producer/producer.rs:75-85 | every level's name is listed and parses back to that level |
| KafkaClient.WithStringOptions | src/fakers/kafka_producer/producer.rs:87-91 | copying never removes a setting, and options without a string value leave the settings as they are |
| KafkaClient.SetStringOptions | src/fakers/kafka_producer/producer.rs:87-91 | the options loop computes the reference `WithStringOptions` |
| KafkaClient.StringOptionsPanic | src/fakers/kafka_producer/producer.rs:89 | the loop panics iff some option with a string value has a non-string key |
| KafkaClient.StringOptionsCopied | src/fakers/kafka_producer/producer.rs:87-91 | with distinct keys: every string option is set, earlier settings not overridden survive, and no other key appears |
| KafkaClient.NumericOptionDropped | src/fakers/kafka_producer/producer.rs:88 | numeric and boolean option values are not copied |
| KafkaProducer.Decode | src/fakers/kafka_producer/producer.rs:26-37 | the error is the first value of the wrong type in document order (inside `messages` included), else the first of `brokers`, `options`, `messages` missing; on success every field holds the document's value, `log_level` defaulting to "info" |
| KafkaProducer.FirstIncomplete | src/fakers/kafka_producer/producer.rs:59-63 | the index of the first message with an empty topic or text; None iff every message is complete |
| KafkaProducer.ValidateParams | src/fakers/kafka_producer/producer.rs:50-66 | brokers, then messages, then each message, each with its own message; passes iff all are non-empty with complete messages; an empty key is allowed |
| KafkaProducer.ClientConfigOf | src/fakers/kafka_producer/producer.rs:71-91 | `bootstrap.servers` is the brokers joined by ",", string options are applied over it, and the log level is the parsed one; None iff the options loop panics |
| KafkaProducer.BootstrapServers | src/fakers/kafka_producer/producer.rs:73 | without an overriding option and with comma-free broker names, the setting splits back into the broker list |
| KafkaProducer.RecordOf | src/fakers/kafka_producer/producer.rs:102-107 | the record keeps topic and payload; a key is attached iff it is non-empty |
| KafkaProducer.Records | src/fakers/kafka_producer/producer.rs:99-107 | one record per message, in declared order |
| KafkaProducer.SentCount | src/fakers/kafka_producer/producer.rs:99-124 | never more sends than messages |
| KafkaProducer.Sends | src/fakers/kafka_producer/producer.rs:95-129 | the specification `Send` meets: never more records than messages, and every message's record once `true` is published |
| KafkaProducer.Send | src/fakers/kafka_producer/producer.rs:95-129 | the records sent are those of the messages up to the first failed delivery; `true` is published iff the client is created and every delivery succeeds; the exit is the matching error otherwise |
| KafkaProducer.Func | src/fakers/kafka_producer/producer.rs:133-145 | decode and validation errors end the faker task before anything is sent; with valid parameters, an option under a non-string key panics and otherwise the sends are exactly those of `Send`; publishing implies every message sent in order |
| KafkaProducer.DecodeMessage | src/fakers/kafka_producer/producer.rs:39-44 | the first value of the wrong type, else the first missing field; on success topic, key and message are the document's |
| KafkaProducer.NestedTypeErrorComesFirst | src/fakers/kafka_producer/producer.rs:26-44 | `{messages: [{topic: 1}]}` is an invalid-type error on `topic`, found before the missing `brokers` |
| KafkaConsumer.DecodeConfig | src/fakers/kafka_consumer/consumer.rs:35-57 | the first value of the wrong type, else a missing `topics` then `options`; on success the document's values, with serde defaults "consumer-group-1", "earliest" and "info" |
| KafkaConsumer.Decode | src/fakers/kafka_consumer/consumer.rs:72-77 | the first value of the wrong type in document order (inside `config` included), else a missing `brokers` then `config`; on success the document's values, a missing or null `output_file` giving None |
| KafkaConsumer.SerdeDefaultsDifferFromDefault | src/fakers/kafka_consumer/consumer.rs:37-68 | a config decoded with every defaulted field absent has offset "earliest", while `Config::default()` has "latest" |
| KafkaConsumer.ValidateParams | src/fakers/kafka_consumer/consumer.rs:83-93 | passes iff brokers and topics are non-empty; brokers are checked first, each failure has its own message |
| KafkaConsumer.BaseSettings | src/fakers/kafka_consumer/consumer.rs:100-102 | exactly `group.id`, `bootstrap.servers` and `auto.offset.reset`, from the config and the joined brokers |
| KafkaConsumer.ClientConfigOf | src/fakers/kafka_consumer/consumer.rs:98-120 | the base settings with the string options applied, and the parsed log level; None iff the options loop panics |
| KafkaConsumer.OptionsOverrideGroupId | src/fakers/kafka_consumer/consumer.rs:116-120 | a string option named `group.id` overrides the configured group |
| KafkaConsumer.FirstFatal | src/fakers/kafka_consumer/consumer.rs:206-241 | the index of the first event that ends the loop; None iff no event does |
| KafkaConsumer.LineOf | src/fakers/kafka_consumer/consumer.rs:207-225 | at most one line per event |
| KafkaConsumer.TextLines | src/fakers/kafka_consumer/consumer.rs:206-225 | at most one line per event |
| KafkaConsumer.Consume | src/fakers/kafka_consumer/consumer.rs:192-245 | at most one line per event, none without an output file, and a stop only at a fatal event |
| KafkaConsumer.ConsumeStops | src/fakers/kafka_consumer/consumer.rs:192-245 | the loop stops with the error of the first fatal event, and only then |
| KafkaConsumer.ConsumeLines | src/fakers/kafka_consumer/consumer.rs:206-230 | with an output file, the lines are those of the text payloads up to the stop; without one, no line |
| KafkaConsumer.ConsumeSpec | src/fakers/kafka_consumer/consumer.rs:192-245 | both of the above together |
| KafkaConsumer.ConsumeNeverSucceeds | src/fakers/kafka_consumer/consumer.rs:192-245 | a stop is always an error of a bad payload or a failed commit; receive errors alone neither stop the loop nor write |
| KafkaConsumer.NoTextLines | src/fakers/kafka_consumer/consumer.rs:193-194 | receive errors produce no line |
| KafkaConsumer.ReceiveLoop | src/fakers/kafka_consumer/consumer.rs:192-245 | the loop computes exactly the lines and stop of `Consume` |
| KafkaConsumer.Func | src/fakers/kafka_consumer/consumer.rs:125-262 | the faker task never ends with `Ok`; decode and validation errors come first; with valid parameters a panicking options loop, then a failed client creation, subscription or file creation ends it before any line; after a full start-up the lines and exit are exactly those of `Consume` |
| HttpServer.DecodeRoute | src/fakers/http_server/server.rs:40-47 | the method is read under `method`; the first value of the wrong type, else the first of `path`, `method`, `status` missing; on success path, method and status are the document's, the status fits in `u16`, and body and result are None iff missing or null |
| HttpServer.DecodeRoutes | src/fakers/http_server/server.rs:36 | succeeds iff every item decodes; route i is `DecodeRoute` of item i; otherwise the error of the first item that fails |
| HttpServer.Decode | src/fakers/http_server/server.rs:33-38 | the first value of the wrong type in document order (inside a route included), else a missing `host_addr` then `routes`; on success the address and routes are the document's, a missing or null `output_file` giving None |
| HttpServer.ValidateParams | src/fakers/http_server/server.rs:53-56 | always passes |
| HttpServer.BuildRouter | src/fakers/http_server/server.rs:74-84 | passes iff every route's method is GET, POST, DELETE or PUT; fails with "HTTP Method not supported!" otherwise |
| HttpServer.FindRoute | src/fakers/http_server/server.rs:121 | found iff some route has the path and method; the one found is the first such route |
| HttpServer.FindByBody | src/fakers/http_server/server.rs:151 | the first route for the path and method whose body does not parse to something else decides: found iff its body parses to the payload, a panic iff its body is missing or malformed; not found iff there is no such route |
| HttpServer.Commit | src/fakers/http_server/server.rs:230-238 | the store is replaced, and is written out iff the output path is non-empty |
| HttpServer.Respond | src/fakers/http_server/server.rs:131 | a valid status gives the response; an invalid one panics under the lock and poisons the store |
| HttpServer.StoreAndRespond | src/fakers/http_server/server.rs:123-131 | a response or a panic; a poisoned lock panics and changes nothing; a response stores its body under the path, with the route's status; only a panic poisons |
| HttpServer.OnGet | src/fakers/http_server/server.rs:109-136 | a response or a panic; once poisoned, nothing changes and only the 404 gets through; any other response stores its body under the path; only a panic poisons |
| HttpServer.OnUpsert | src/fakers/http_server/server.rs:138-166 | the same for POST and PUT |
| HttpServer.OnDelete | src/fakers/http_server/server.rs:168-198 | a response or a panic; once poisoned, nothing changes and only the 404 gets through; a routed DELETE removes the path's entry, whatever the result; only a panic, a malformed result included, poisons |
| HttpServer.HandleRequest | src/fakers/http_server/server.rs:74-84 | a path without a handler for the method gets 404 if no route has the path, else 405, and nothing changes; a served method always reaches its handler; HEAD never carries a body; a poisoned store stays as it is |
| HttpServer.HandleRequests | src/fakers/http_server/server.rs:97-105 | one reply per request; each request goes to its verb's handler, HEAD to the GET handler without the body |
| HttpServer.StoreFrame | src/fakers/http_server/server.rs:127 | storing a result changes no entry but the path's |
| HttpServer.GetFrame | src/fakers/http_server/server.rs:109-136 | GET changes no entry but the path's |
| HttpServer.UpsertFrame | src/fakers/http_server/server.rs:138-166 | POST and PUT change no entry but the path's |
| HttpServer.DeleteFrame | src/fakers/http_server/server.rs:168-198 | DELETE changes no entry but the path's |
| HttpServer.HandleFrame | src/fakers/http_server/server.rs:109-228 | any request changes no entry but its path's |
| HttpServer.StoreMirrors | src/fakers/http_server/server.rs:127-129 | storing a result keeps the written file equal to the store |
| HttpServer.GetMirrors | src/fakers/http_server/server.rs:109-136 | GET keeps the file equal to the store |
| HttpServer.UpsertMirrors | src/fakers/http_server/server.rs:138-166 | POST and PUT keep the file equal to the store |
| HttpServer.DeleteMirrors | src/fakers/http_server/server.rs:182-186 | DELETE keeps the file equal to the store |
| HttpServer.HandleMirrors | src/fakers/http_server/server.rs:109-228 | any request keeps the file equal to the store |
| HttpServer.HandleRequestsMirrors | src/fakers/http_server/server.rs:230-237 | any sequence of requests keeps the file equal to the store |
| HttpServer.PoisonIsPermanent | src/fakers/http_server/server.rs:125 | once the mutex is poisoned, no request changes the state |
| HttpServer.GetStores | src/fakers/http_server/server.rs:121-131 | a GET whose first route has a parsing result and a valid status stores the result under the path, writes the file, and answers with that status and result |
| HttpServer.GetWithoutResultIs404 | src/fakers/http_server/server.rs:122-135 | a GET whose route has no result answers 404 with Null and changes nothing |
| HttpServer.GetIdempotent | src/fakers/http_server/server.rs:109-136 | repeating a GET leaves the same state and gets the same reply |
| HttpServer.DeleteRemoves | src/fakers/http_server/server.rs:180-186 | a routed DELETE removes the path's entry whatever the route's result |
| HttpServer.UnmatchedPayloadIs404 | src/fakers/http_server/server.rs:151-165 | POST or PUT whose payload no body matches, every body with the path and method parsing, answers 404 with Null and changes nothing |
| HttpServer.UpsertStores | src/fakers/http_server/server.rs:151-161 | a POST or PUT whose payload is the body of the first matching route stores that route's result under the path, writes the file, and answers with its status and result |
| HttpServer.HeadRunsGet | src/fakers/http_server/server.rs:77 | HEAD on a GET route runs the GET handler: the same new state, the reply without its body |
| HttpServer.DecodesTestRoute | src/fakers/http_server/server.rs:268-270 | a route written as in the repository's test decodes to its path, method and status, without body or result |
| HttpServer.MockServer.constructor | src/fakers/http_server/server.rs:61-68 | the routes are shared, a missing output file becomes the empty path, the store starts empty |
| HttpServer.MockServer.WriteOutputFile | src/fakers/http_server/server.rs:230-238 | writes the whole store iff the path is non-empty, changing nothing else |
| HttpServer.MockServer.StoreResult | src/fakers/http_server/server.rs:123-131 | the new state and reply are those of `StoreAndRespond` |
| HttpServer.MockServer.Get | src/fakers/http_server/server.rs:109-136 | the new state and reply are those of `OnGet` |
| HttpServer.MockServer.Upsert | src/fakers/http_server/server.rs:138-166 | the new state and reply are those of `OnUpsert` |
| HttpServer.MockServer.Delete | src/fakers/http_server/server.rs:168-198 | the new state and reply are those of `OnDelete` |
| HttpServer.MockServer.Handle | src/fakers/http_server/server.rs:109-228 | the new state and reply are those of `HandleRequest`, HEAD included |
| HttpServer.MockServer.Serve | src/fakers/http_server/server.rs:97-105 | the requests in order give `HandleRequests`, HEAD included, and the file keeps mirroring the store |
| HttpServer.Func | src/fakers/http_server/server.rs:240-252 | never `Ok`; decode, method and address errors come before serving; a failed bind panics the task; serving happens exactly after a successful start-up, and then the replies are those of `HandleRequests` from an empty store |
| FileComparator.Decode | src/verifiers/file/file.rs:15-19 | the first value of the wrong type in document order, else a missing `expected` then `actual`; on success both are the document's strings; with distinct keys, success iff both are present strings |
| FileComparator.TypeErrorComesFirst | src/verifiers/file/file.rs:15-19 | `{actual: 5}` is an invalid-type error on `actual`, not a missing `expected` |
| FileComparator.UniqueStrings | src/verifiers/file/file.rs:15-19 | in a mapping with distinct keys, the pass and the missing-field check both get through iff both fields are present strings |
| FileComparator.ValidateParams | src/verifiers/file/file.rs:23-33 | passes iff both paths are non-empty; `expected` is reported first |
| FileComparator.FirstLineLength | src/verifiers/file/file.rs:46-49 | the first line ends at the first newline, or at the end of the text |
| FileComparator.Lines | src/verifiers/file/file.rs:46-49 | no line is empty |
| FileComparator.ConcatLines | src/verifiers/file/file.rs:46-49 | the lines put back together give the text |
| FileComparator.DifferIffContentsDiffer | src/verifiers/file/file.rs:46-55 | the line sequences differ iff the contents differ |
| FileComparator.Compare | src/verifiers/file/file.rs:35-58 | passes iff both files are readable and equal; an unreadable `expected` is reported before `actual` |
| FileComparator.SelfComparisonPasses | src/verifiers/file/file.rs:35-58 | a readable file matches itself |
| FileComparator.Func | src/verifiers/file/file.rs:61-70 | decode errors, then validation errors, then the comparison; passes iff all three pass |
| Scenario.AsFakers | src/scenario.rs:28 | succeeds iff the value is a sequence whose items all decode as text-read entries; entry i is `DecodeFaker` of item i; otherwise the error of the first item that fails |
| Scenario.DecodeFaker | src/scenario.rs:53-60 | the first field written twice, or holding a sequence or mapping under `name` or a non-mapping under `params`, is the error; on success the name is the text of the document's scalar and the params are the document's mapping as serde_yaml loads it, with distinct keys; both are empty when absent |
| Scenario.DecodeKafkaInit | src/scenario.rs:45-51 | the first field written twice, or not a scalar (`brokers`) or a sequence of scalars (`topics`), is the error; on success brokers and topics are the text of the document's scalars, empty when absent |
| Scenario.DecodeSetup | src/scenario.rs:39-43 | a `kafka_init` written twice or failing `DecodeKafkaInit`, scalars read as text, is the error; `kafka_init` is None iff missing or null, otherwise the decoded value |
| Scenario.DecodeOptions | src/scenario.rs:66-70 | the first tempo of the wrong type or written twice is the error; each tempo is None iff missing or null, otherwise a `u64` from the document |
| Scenario.DecodeTeardown | src/scenario.rs:62-64 | a struct without fields: any mapping decodes |
| Scenario.Decode | src/scenario.rs:20-37 | the first field in document order that is written twice or holds a value that does not decode, at any depth, is the only error, a scalar being text for every `String`; on success every present field holds the document's value, the name the text of its scalar; an absent name or faker list is empty, and a set-up, teardown or options section is None iff absent or null |
| Scenario.NumericNameIsText | src/scenario.rs:20-23 | `name: 42` decodes to the scenario named "42" with nothing else set |
| Scenario.ListNameFails | src/scenario.rs:20-23 | a sequence under `name` is the invalid-type error on `name` |
| Scenario.NumericFakerNameIsText | src/scenario.rs:53-56 | a faker entry `name: 2024` names the plugin "2024", with empty parameters |
| Scenario.NumericKafkaInitIsText | src/scenario.rs:45-51 | `{brokers: 9092, topics: [1, 2]}` decodes to the brokers "9092" and the topics "1" and "2" |
| Scenario.AsParams | src/scenario.rs:59 | a `Mapping` field: succeeds iff the value is a mapping, giving its loaded form, whose keys are distinct |
| Scenario.DecodesFakerDocument | src/scenario.rs:53-60 | an entry with a name and a parameter mapping decodes to that name and the loaded parameters |
| Scenario.RepeatedParamKeepsLast | src/scenario.rs:59 | a parameter key written twice is kept once, with the value written last |
| Scenario.RepeatedNameFails | src/scenario.rs:20-23 | a scenario whose `name` is written twice fails with the duplicate-field error |
| Scenario.DecodeEntry | src/scenario.rs:53-60 | an entry of the test's shape decodes to its name and the parameters `yaml_mapping!` builds |
| Scenario.DecodesEntryPair | src/scenario.rs:147-174 | two such entries decode in order |
| Scenario.DecodesNamedDocument | src/scenario.rs:142-180 | a document with only a name and decodable entries gives that name and those entries, everything else absent |
| Scenario.LaunchTempo | src/scenario.rs:85-91 | the option when given, else 1 |
| Scenario.TerminationTempo | src/scenario.rs:86-95 | the option when given, else 3 |
| Scenario.ResolveTempos | src/scenario.rs:85-96 | the two tempos, (1, 3) without options |
| Scenario.KafkaSetup | src/scenario.rs:99-104 | a set-up runs iff both `setup` and `setup.kafka_init` are given |
| Scenario.SetupDuration | src/utils/kafka.rs:30-47 | topic re-initialisation takes the broker's deletion time, then 3 seconds plus 3 per topic |
| Scenario.StartAt | src/scenario.rs:98-104 | the launch loop starts at 0 without a set-up, else after the deletion time plus 3 seconds and 3 per topic |
| Scenario.ReadyAt | src/scenario.rs:106-121 | the wait begins N times the launch tempo after the loop starts |
| Scenario.PausesAreProduct | src/scenario.rs:120 | the pauses after N entries last N times the tempo |
| Scenario.Plan | src/scenario.rs:107-121 | at most one launch per entry |
| Scenario.Added | src/scenario.rs:108-118 | an entry is launched iff its name resolves, and under its own index |
| Scenario.AddedLaunches | src/scenario.rs:108-118 | the launch carries the entry's name, the plugin found for it, its own parameters and its second |
| Scenario.PlanLaunches | src/scenario.rs:107-121 | every launch is that of some entry, and launches follow declaration order |
| Scenario.PlanIsComplete | src/scenario.rs:107-118 | an entry is launched iff its name resolves; the others are skipped |
| Scenario.PlanHasEntry | src/scenario.rs:107-118 | the same, for one entry |
| Scenario.FirstPublish | src/scenario.rs:128 | the earliest publish of a launched task; None iff no task publishes |
| Scenario.Wait | src/scenario.rs:123-133 | no publish and no interrupt waits forever; an interrupt returns at once; a message returns one termination tempo after it is received |
| Scenario.LaunchAll | src/scenario.rs:106-121 | the loop launches the planned fakers and ends N pauses after it starts |
| Scenario.Run | src/scenario.rs:83-134 | only a panicking set-up ends the run early; otherwise the launches are the plan from the set-up's end and the exit is the wait's from N pauses later |
| Scenario.SilentFakersBlock | src/scenario.rs:113-133 | with no task publishing and no interrupt, the runner waits forever |
| Scenario.InterruptHasNoGrace | src/scenario.rs:124-127 | an interrupt that comes first returns at once |
| Scenario.TerminationTakesGrace | src/scenario.rs:128-132 | a message that comes first returns a termination tempo after it is received |
| Scenario.TwoEntryPlan | src/scenario.rs:107-121 | two resolvable entries with tempo 1 are launched at seconds 0 and 1 |
| Scenario.SixSecondExample | src/scenario.rs:83-134 | for one concrete scenario, the wait begins at second 2, the message arrives at 4 and `run` returns at 6 |

## Left out

- Concurrency: `tokio::spawn`, the `select!` race and real sleeps are a time counter with an environment. The broadcast channel's capacity and its `Lagged` error are left out; the runner's receiver sees every publish.
- Ctrl-C before the wait: the interrupt handler exists only from the start of `select!`, so an interrupt is counted from the start of the wait.
- Scenario.Run: what a launched task does is an input (`Behaviour`), not the faker models run against each other. The sender clone and receiver each task gets are not modelled.
- Scenario.Wait: when the interrupt and the message are ready in the same second, `select!` picks either one at random; the model takes the choice as an input.
- The admin client of src/utils/kafka.rs is an outcome that either completes or panics. The topics it builds are never submitted to the broker, so the set-up is only its duration. The deletion request takes `deletionTakes` seconds; creating the client and the `NewTopic` values takes no time.
- Kafka, HTTP and file I/O are environment inputs. This covers rdkafka clients, axum/hyper serving, `File::create` and `write_all`, and IPv4 address parsing of `host_addr`.
- File write failures in the consumer and in `write_output_file` are left out. Both unwrap the write, but the model always succeeds.
- Scenario.Decode: a non-string scalar under a `String` field is read as its canonical spelling (decimal digits, `true`/`false`, `null`), not as the characters the document wrote (`042`, `0x2A`, `True`, `~` or nothing), because `Yaml.Value` keeps a scalar's value and not its text.
- Scenario.DecodeFaker: the same canonical spelling for a non-string scalar under `name`.
- Scenario.DecodeKafkaInit: the same canonical spelling for non-string scalars under `brokers` and in `topics`.
- YAML and JSON text parsing: documents arrive already parsed as `Yaml.Value`. JSON is a datatype with equality, and route bodies and results are parsed by a caller-supplied function.
- Floating-point numbers: YAML and JSON numbers are integers, so a value such as `tempo: 1.5` cannot be written; serde would reject it for a `u64` field anyway.
- KafkaConsumer.LineOf: the written line is the pair (topic, message). The exact text `serde_json` produces (key order, escaping) is left out.
- KafkaProducer.Send: `tx.send(true)` fails only when no receiver exists. The runner always keeps one, so in the model a send after every delivery always publishes.
- FileComparator.Compare: compares the line sequences for equality instead of running the `similar` diff algorithm. `DifferIffContentsDiffer` shows nothing is lost by this.
- HttpServer.Func: overlapping routes that axum refuses to register, and its rule that paths start with '/', are left out.
- HttpServer.HandleRequest: requests are dispatched by the path their route matched. axum's path-pattern matching and its JSON-body extraction failures are left out.
- `inventory` registration: the registries are fixed sequences in a chosen order. The linker's real order is not known.
- `yaml_get_value_e` deserializes the value found into any `T`. Only the path walk it relies on is modelled (`Yaml.GetValueByPath`).
- serde details outside the documents the core reads are left out: a sequence given where a struct is expected (serde then reads the fields by position).
- Non-string keys: an entry whose key is not a string is skipped like an unknown field. serde reads an integer key k as the field with index k and rejects other non-string keys.
- HttpServer.Func: an error that hyper's `serve` returns after a successful bind, which would end the task with `Err`, is left out; serving only ends when the requests run out.
- src/main.rs, src/exec.rs and src/config.rs are plumbing for the command line and configuration; they are not part of this model, and neither are src/utils/json.rs and release.config.js.
