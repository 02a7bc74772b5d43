/** The client-configuration steps that the Kafka producer and consumer share:
    rdkafka's `ClientConfig` as a string-to-string settings map with a log level,
    the mapping from the `log_level` parameter to `RDKafkaLogLevel`, and the loop
    that copies the string-valued entries of the `options` parameter. */
module KafkaClient {
  import opened Wrappers
  import Yaml

  /** rdkafka's `RDKafkaLogLevel`. */
  datatype LogLevel = Emerg | Alert | Critical | Error | Warning | Notice | Info | Debug

  /** The parameter value that selects each level. */
  function LevelName(l: LogLevel): string {
    match l
    case Emerg => "emerg"
    case Alert => "alert"
    case Critical => "critical"
    case Error => "error"
    case Warning => "warning"
    case Notice => "notice"
    case Info => "info"
    case Debug => "debug"
  }

  /** The eight names that select a level. */
  const LevelNames: set<string> := {"emerg", "alert", "critical", "error", "warning", "notice", "info", "debug"}

  /** The `match log_level.as_str()` of both clients: each of the eight names
      selects its own level, and every other string selects Info. */
  function ParseLogLevel(name: string): (l: LogLevel)
    ensures forall other: LogLevel :: name == LevelName(other) ==> l == other
    ensures name !in LevelNames ==> l == Info
  {
    match name
    case "debug" => Debug
    case "info" => Info
    case "notice" => Notice
    case "warning" => Warning
    case "error" => Error
    case "critical" => Critical
    case "alert" => Alert
    case "emerg" => Emerg
    case _ => Info
  }

  /** Reading a level back from its name gives the level. */
  lemma LogLevelRoundTrip(l: LogLevel)
    ensures LevelName(l) in LevelNames
    ensures ParseLogLevel(LevelName(l)) == l
  {
  }

  /** rdkafka's `ClientConfig`: `set` overwrites a key, `set_log_level` the level. */
  datatype ClientConfig = ClientConfig(settings: map<string, string>, logLevel: LogLevel)

  /** The loop `for (k, v) in options { if let Some(s) = v.as_str() { set(k.as_str().unwrap(), s) } }`,
      entry by entry: a string value is set under its key, any other value is
      skipped, and a string value under a key that is not a string panics (None). */
  function WithStringOptions(settings: map<string, string>, options: seq<Yaml.Entry>): (r: Option<map<string, string>>)
    ensures r.Some? ==> settings.Keys <= r.value.Keys
    ensures (forall i | 0 <= i < |options| :: !options[i].value.String?) ==> r == Some(settings)
    decreases |options|
  {
    if |options| == 0 then Some(settings)
    else
      var e := options[0];
      if !e.value.String? then WithStringOptions(settings, options[1..])
      else if !e.key.String? then None
      else WithStringOptions(settings[e.key.s := e.value.s], options[1..])
  }

  /** The copying loop itself. */
  method SetStringOptions(settings: map<string, string>, options: seq<Yaml.Entry>) returns (r: Option<map<string, string>>)
    ensures r == WithStringOptions(settings, options)
  {
    var config := settings;
    var i := 0;
    while i < |options|
      invariant 0 <= i <= |options|
      invariant WithStringOptions(settings, options) == WithStringOptions(config, options[i..])
    {
      var e := options[i];
      assert options[i..][0] == e && options[i..][1..] == options[i + 1..];
      if e.value.String? {
        if !e.key.String? {
          return None;
        }
        config := config[e.key.s := e.value.s];
      }
      i := i + 1;
    }
    assert options[i..] == [];
    return Some(config);
  }

  /** The entry `e` carries a string value under a string key. */
  predicate IsStringOption(e: Yaml.Entry) {
    e.key.String? && e.value.String?
  }

  /** The copy panics exactly when some string value sits under a non-string key. */
  lemma {:induction false} StringOptionsPanic(settings: map<string, string>, options: seq<Yaml.Entry>)
    ensures WithStringOptions(settings, options).None? <==>
              exists i | 0 <= i < |options| :: options[i].value.String? && !options[i].key.String?
    decreases |options|
  {
    if |options| > 0 {
      var e := options[0];
      var s' := if e.value.String? && e.key.String? then settings[e.key.s := e.value.s] else settings;
      StringOptionsPanic(s', options[1..]);
      if exists i | 0 <= i < |options| :: options[i].value.String? && !options[i].key.String? {
        var i :| 0 <= i < |options| && options[i].value.String? && !options[i].key.String?;
        if i > 0 { assert options[1..][i - 1] == options[i]; }
      }
    }
  }

  /** Only string-valued options reach the configuration: each such option is set
      (in a mapping, keys are unique), a key that no string option names keeps
      its earlier setting, and nothing else is added. */
  lemma {:induction false} StringOptionsCopied(settings: map<string, string>, options: seq<Yaml.Entry>)
    requires Yaml.UniqueKeys(options)
    requires WithStringOptions(settings, options).Some?
    ensures var r := WithStringOptions(settings, options).value;
            && (forall i | 0 <= i < |options| && IsStringOption(options[i]) ::
                  options[i].key.s in r && r[options[i].key.s] == options[i].value.s)
            && (forall k | k in settings && !NamedByStringOption(options, k) :: k in r && r[k] == settings[k])
            && (forall k | k in r :: k in settings || NamedByStringOption(options, k))
    decreases |options|
  {
    if |options| > 0 {
      var e := options[0];
      var s' := if IsStringOption(e) then settings[e.key.s := e.value.s] else settings;
      assert Yaml.UniqueKeys(options[1..]);
      StringOptionsCopied(s', options[1..]);
      var r := WithStringOptions(settings, options).value;
      assert r == WithStringOptions(s', options[1..]).value;
      forall i | 0 <= i < |options| && IsStringOption(options[i])
        ensures options[i].key.s in r && r[options[i].key.s] == options[i].value.s
      {
        if i == 0 {
          assert !NamedByStringOption(options[1..], e.key.s) by {
            forall j | 0 <= j < |options[1..]| ensures !(options[1..][j].key == Yaml.String(e.key.s) && options[1..][j].value.String?) {
              assert options[1..][j] == options[j + 1];
            }
          }
        } else {
          assert options[1..][i - 1] == options[i];
        }
      }
      forall k | k in settings && !NamedByStringOption(options, k) ensures k in r && r[k] == settings[k] {
        assert !NamedByStringOption(options[1..], k) by {
          forall j | 0 <= j < |options[1..]| ensures !(options[1..][j].key == Yaml.String(k) && options[1..][j].value.String?) {
            assert options[1..][j] == options[j + 1];
          }
        }
        assert !(e.key == Yaml.String(k) && e.value.String?);
      }
      forall k | k in r ensures k in settings || NamedByStringOption(options, k) {
        if NamedByStringOption(options[1..], k) {
          var j :| 0 <= j < |options[1..]| && options[1..][j].key == Yaml.String(k) && options[1..][j].value.String?;
          assert options[j + 1] == options[1..][j];
        } else if k !in settings {
          assert e.key == Yaml.String(k) && e.value.String?;
        }
      }
    }
  }

  /** Some option sets the key `k` to a string. */
  predicate NamedByStringOption(options: seq<Yaml.Entry>, k: string) {
    exists i | 0 <= i < |options| :: options[i].key == Yaml.String(k) && options[i].value.String?
  }

  /** A number or a boolean option is dropped: the scenario test's
      `message.timeout.ms: 5000` leaves the settings as they were. */
  lemma NumericOptionDropped(settings: map<string, string>)
    ensures WithStringOptions(settings, [Yaml.Entry(Yaml.String("message.timeout.ms"), Yaml.Number(5000))]) == Some(settings)
    ensures WithStringOptions(settings, [Yaml.Entry(Yaml.String("enable.auto.commit"), Yaml.Bool(false))]) == Some(settings)
  {
  }
}
