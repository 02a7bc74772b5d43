/** src/faker.rs: the table of faker plugins and its two queries. */
module Faker {
  import opened Wrappers
  import Registry

  /** The bodies a faker entry can run: one per faker plugin of the repository. */
  datatype Func = KafkaProducerFunc | KafkaConsumerFunc | HttpServerFunc

  type Entry = Registry.Plugin<Func>

  /** How a faker's task ends: its future returns `Ok(())` or `Err(e)`, or the
      task panics (an `unwrap` or `expect` on an error). */
  datatype TaskExit<+E> = Done | Failed(error: E) | Panicked

  /** The entries submitted by the three faker plugins, in the order the linker
      happens to collect them. */
  const Registered: seq<Entry> := [
    Registry.Plugin("kafka-producer", KafkaProducerFunc),
    Registry.Plugin("kafka-consumer", KafkaConsumerFunc),
    Registry.Plugin("http-server", HttpServerFunc)
  ]

  /** `get_faker(name)`: found exactly for the three registered names, spelled
      exactly as registered; the entry found carries the name asked for. */
  function GetFaker(name: string): (r: Option<Entry>)
    ensures r.Some? <==> name in {"kafka-producer", "kafka-consumer", "http-server"}
    ensures r.Some? ==> r.value.name == name && r.value in Registered
  {
    Registry.Find(Registered, name)
  }

  /** `get_faker_names()`: one name per registered entry, and exactly the names
      `get_faker` finds. */
  function GetFakerNames(): (names: seq<string>)
    ensures |names| == |Registered|
    ensures forall i | 0 <= i < |Registered| :: names[i] == Registered[i].name
    ensures forall name :: name in names <==> GetFaker(name).Some?
  {
    forall name ensures name in Registry.Names(Registered) <==> GetFaker(name).Some? {
      Registry.ListedIffFound(Registered, name);
    }
    Registry.Names(Registered)
  }

  /** Lookup is case-sensitive. */
  lemma LookupIsCaseSensitive()
    ensures GetFaker("kafka-producer").Some?
    ensures GetFaker("Kafka-Producer").None? && GetFaker("HTTP-SERVER").None?
  {
    assert "Kafka-Producer" != "kafka-producer" && "Kafka-Producer" != "kafka-consumer";
    assert "HTTP-SERVER" != "http-server";
  }
}
