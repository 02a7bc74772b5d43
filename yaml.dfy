/** The YAML value model of src/utils/yaml.rs: serde_yaml 0.8's `Value` with its
    six variants, the `Mapping` it indexes into, the `yaml_mapping!` macro,
    `yaml_get_value_type` and `yaml_get_value_by_path`. */
module Yaml {
  import opened Wrappers
  import Strings

  /** serde_yaml 0.8 `Value`. Numbers are modelled as integers only: the
      floating-point numbers a `Number` can also hold are not represented. */
  datatype Value =
    | Null
    | Bool(b: bool)
    | Number(n: int)
    | String(s: string)
    | Sequence(items: seq<Value>)
    | Mapping(entries: seq<Entry>)

  /** One key/value pair of a `Mapping`, which is an insertion-ordered
      hash map (a `LinkedHashMap<Value, Value>`). */
  datatype Entry = Entry(key: Value, value: Value)

  // ---------------------------------------------------------------------------
  // Mapping
  // ---------------------------------------------------------------------------

  /** A mapping built by inserts never holds a key twice. */
  ghost predicate UniqueKeys(m: seq<Entry>) {
    forall i, j | 0 <= i < j < |m| :: m[i].key != m[j].key
  }

  /** `map.get(key)`. */
  function Get(m: seq<Entry>, key: Value): (r: Option<Value>)
    decreases |m|
  {
    if |m| == 0 then None
    else if m[0].key == key then Some(m[0].value)
    else Get(m[1..], key)
  }

  /** `get` finds a value exactly when some entry has the key, and the value it
      finds belongs to such an entry. */
  lemma {:induction false} GetFinds(m: seq<Entry>, key: Value)
    ensures Get(m, key).Some? <==> exists i | 0 <= i < |m| :: m[i].key == key
    ensures Get(m, key).Some? ==> Entry(key, Get(m, key).value) in m
    decreases |m|
  {
    if |m| > 0 && m[0].key != key {
      GetFinds(m[1..], key);
      if exists i | 0 <= i < |m| :: m[i].key == key {
        var i :| 0 <= i < |m| && m[i].key == key;
        assert m[1..][i - 1].key == key;
      }
    }
  }

  /** With distinct keys, `get` finds every entry's own value. */
  lemma {:induction false} GetUnique(m: seq<Entry>, i: nat)
    requires UniqueKeys(m) && i < |m|
    ensures Get(m, m[i].key) == Some(m[i].value)
    decreases |m|
  {
    if i > 0 {
      assert m[0].key != m[i].key;
      assert m[1..][i - 1] == m[i];
      GetUnique(m[1..], i - 1);
    }
  }

  /** The mapping without the entry for `key`; the other entries keep their order. */
  function Remove(m: seq<Entry>, key: Value): (r: seq<Entry>)
    ensures forall e | e in r :: e in m && e.key != key
    ensures forall k | k != key :: Get(r, k) == Get(m, k)
    ensures Get(r, key) == None
    ensures UniqueKeys(m) ==> UniqueKeys(r)
    decreases |m|
  {
    if |m| == 0 then []
    else if m[0].key == key then Remove(m[1..], key)
    else [m[0]] + Remove(m[1..], key)
  }

  /** `map.insert(key, value)` of a `LinkedHashMap`: a new key is appended, and an
      existing key gets the new value and moves to the end. */
  function Insert(m: seq<Entry>, key: Value, value: Value): (r: seq<Entry>)
    ensures Get(r, key) == Some(value)
    ensures forall k | k != key :: Get(r, k) == Get(m, k)
    ensures |r| > 0 && r[|r| - 1] == Entry(key, value)
    ensures UniqueKeys(m) ==> UniqueKeys(r)
  {
    var rest := Remove(m, key);
    assert Get(rest + [Entry(key, value)], key) == Some(value) by {
      GetAppend(rest, Entry(key, value), key);
    }
    forall k | k != key ensures Get(rest + [Entry(key, value)], k) == Get(m, k) {
      GetAppend(rest, Entry(key, value), k);
    }
    rest + [Entry(key, value)]
  }

  /** Looking up in a mapping extended at the end. */
  lemma {:induction false} GetAppend(m: seq<Entry>, e: Entry, k: Value)
    ensures Get(m + [e], k) == if Get(m, k).Some? then Get(m, k) else if e.key == k then Some(e.value) else None
    decreases |m|
  {
    if |m| > 0 {
      assert (m + [e])[1..] == m[1..] + [e];
      GetAppend(m[1..], e, k);
    }
  }

  // ---------------------------------------------------------------------------
  // yaml_mapping!
  // ---------------------------------------------------------------------------

  /** `yaml_mapping!(k1 => v1, ..., kn => vn)`: a new mapping with each key turned
      into a `Value::String` and inserted in the order written. */
  function MappingOf(pairs: seq<(string, Value)>): (m: seq<Entry>)
    decreases |pairs|
  {
    if |pairs| == 0 then []
    else
      var last := pairs[|pairs| - 1];
      Insert(MappingOf(pairs[..|pairs| - 1]), String(last.0), last.1)
  }

  /** A one-pair macro call is the one-entry mapping. */
  lemma MappingOfSingle(k: string, v: Value)
    ensures MappingOf([(k, v)]) == [Entry(String(k), v)]
  {
    assert [(k, v)][..0] == [];
    assert Remove([], String(k)) == [];
  }

  /** Whether some pair in `pairs` has key `k`. */
  predicate HasKey(pairs: seq<(string, Value)>, k: string)
    decreases |pairs|
  {
    |pairs| > 0 && (pairs[0].0 == k || HasKey(pairs[1..], k))
  }

  /** Reference definition of the macro's result: the pairs whose key is not
      written again later, in the order written. */
  function LastOccurrences(pairs: seq<(string, Value)>): seq<Entry>
    decreases |pairs|
  {
    if |pairs| == 0 then []
    else if HasKey(pairs[1..], pairs[0].0) then LastOccurrences(pairs[1..])
    else [Entry(String(pairs[0].0), pairs[0].1)] + LastOccurrences(pairs[1..])
  }

  lemma {:induction false} HasKeySnoc(pairs: seq<(string, Value)>, x: (string, Value), k: string)
    ensures HasKey(pairs + [x], k) == (HasKey(pairs, k) || x.0 == k)
    decreases |pairs|
  {
    if |pairs| > 0 {
      assert (pairs + [x])[1..] == pairs[1..] + [x];
      HasKeySnoc(pairs[1..], x, k);
    }
  }

  lemma {:induction false} LastOccurrencesSnoc(pairs: seq<(string, Value)>, x: (string, Value))
    ensures LastOccurrences(pairs + [x]) == Remove(LastOccurrences(pairs), String(x.0)) + [Entry(String(x.0), x.1)]
    decreases |pairs|
  {
    if |pairs| == 0 {
      assert [x][1..] == [];
    } else {
      var p := pairs + [x];
      assert p[0] == pairs[0] && p[1..] == pairs[1..] + [x];
      LastOccurrencesSnoc(pairs[1..], x);
      HasKeySnoc(pairs[1..], x, pairs[0].0);
    }
  }

  /** The macro yields exactly the last value written for each key, in the order
      of those last occurrences: a later duplicate overwrites an earlier one. */
  lemma {:induction false} MappingOfIsLastOccurrences(pairs: seq<(string, Value)>)
    ensures MappingOf(pairs) == LastOccurrences(pairs)
    decreases |pairs|
  {
    if |pairs| > 0 {
      var init := pairs[..|pairs| - 1];
      MappingOfIsLastOccurrences(init);
      assert init + [pairs[|pairs| - 1]] == pairs;
      LastOccurrencesSnoc(init, pairs[|pairs| - 1]);
    }
  }

  /** The macro's mapping never holds a key twice. */
  lemma {:induction false} MappingOfUnique(pairs: seq<(string, Value)>)
    ensures UniqueKeys(MappingOf(pairs))
    decreases |pairs|
  {
    if |pairs| > 0 { MappingOfUnique(pairs[..|pairs| - 1]); }
  }

  /** A key is in the macro's mapping iff it was written. */
  lemma {:induction false} MappingOfHasKey(pairs: seq<(string, Value)>, k: string)
    ensures Get(MappingOf(pairs), String(k)).Some? <==> HasKey(pairs, k)
    decreases |pairs|
  {
    if |pairs| > 0 {
      var n := |pairs| - 1;
      var init, x := pairs[..n], pairs[n];
      var m0 := MappingOf(init);
      assert MappingOf(pairs) == Insert(m0, String(x.0), x.1);
      assert init + [x] == pairs;
      HasKeySnoc(init, x, k);
      if x.0 != k {
        MappingOfHasKey(init, k);
        assert String(x.0) != String(k);
      }
    }
  }

  /** A written key maps to the value of its last occurrence. */
  lemma {:induction false} MappingOfLast(pairs: seq<(string, Value)>, i: nat)
    requires i < |pairs| && !HasKey(pairs[i + 1..], pairs[i].0)
    ensures Get(MappingOf(pairs), String(pairs[i].0)) == Some(pairs[i].1)
    decreases |pairs|
  {
    var n := |pairs| - 1;
    var init := pairs[..n];
    var k := pairs[i].0;
    var m0 := MappingOf(init);
    assert MappingOf(pairs) == Insert(m0, String(pairs[n].0), pairs[n].1);
    if i < n {
      var tail := init[i + 1..];
      assert tail + [pairs[n]] == pairs[i + 1..];
      HasKeySnoc(tail, pairs[n], k);
      assert !HasKey(tail, k);
      assert pairs[n].0 != k;
      assert init[i] == pairs[i];
      MappingOfLast(init, i);
      assert Get(m0, String(k)) == Some(pairs[i].1);
      assert String(k) != String(pairs[n].0);
      assert Get(Insert(m0, String(pairs[n].0), pairs[n].1), String(k)) == Get(m0, String(k));
    } else {
      assert i == n;
      var r := Insert(m0, String(pairs[n].0), pairs[n].1);
      assert Get(r, String(pairs[n].0)) == Some(pairs[n].1);
    }
  }

  // ---------------------------------------------------------------------------
  // Loading a document's mappings
  // ---------------------------------------------------------------------------

  /** The value of the last entry with `key`, if any. */
  function LastGet(es: seq<Entry>, key: Value): Option<Value>
    decreases |es|
  {
    if |es| == 0 then None
    else if es[|es| - 1].key == key then Some(es[|es| - 1].value)
    else LastGet(es[..|es| - 1], key)
  }

  /** `Mapping`'s `Deserialize`: the pairs a document writes, inserted one
      after the other into a new mapping, so that a key written twice keeps the
      value written last. */
  function InsertAll(es: seq<Entry>): (m: seq<Entry>)
    ensures UniqueKeys(m)
    ensures forall k {:trigger Get(m, k)} :: Get(m, k) == LastGet(es, k)
    decreases |es|
  {
    if |es| == 0 then []
    else
      var last := es[|es| - 1];
      Insert(InsertAll(es[..|es| - 1]), last.key, last.value)
  }

  /** A single pair is loaded as it is written. */
  lemma InsertAllSingle(e: Entry)
    ensures InsertAll([e]) == [e]
  {
    assert [e][..0] == [];
    assert Remove([], e.key) == [];
  }

  /** A key written twice keeps the value written second. */
  lemma InsertAllOverwrite(k: Value, first: Value, second: Value)
    ensures InsertAll([Entry(k, first), Entry(k, second)]) == [Entry(k, second)]
  {
    InsertAllSingle(Entry(k, first));
    assert [Entry(k, first), Entry(k, second)][..1] == [Entry(k, first)];
    assert Remove([Entry(k, first)], k) == [];
  }

  /** The `Value` serde_yaml builds from a document tree: every mapping, at any
      depth, is loaded by `InsertAll` from its loaded pairs, so no loaded
      mapping holds a key twice. */
  function Loaded(v: Value): (r: Value)
    ensures r.Mapping? <==> v.Mapping?
    ensures r.Mapping? ==> UniqueKeys(r.entries)
    decreases v
  {
    match v
    case Sequence(items) => Sequence(seq(|items|, i requires 0 <= i < |items| => Loaded(items[i])))
    case Mapping(entries) =>
      Mapping(InsertAll(seq(|entries|, i requires 0 <= i < |entries| => Entry(Loaded(entries[i].key), Loaded(entries[i].value)))))
    case _ => v
  }

  // ---------------------------------------------------------------------------
  // yaml_get_value_type
  // ---------------------------------------------------------------------------

  /** The name of a value's variant. */
  function TypeName(v: Value): (name: string)
    ensures name in {"number", "bool", "string", "sequence", "mapping", "null"}
    ensures name == "sequence" <==> v.Sequence?
    ensures name == "mapping" <==> v.Mapping?
    ensures name == "null" <==> v.Null?
  {
    match v
    case Number(_) => "number"
    case Bool(_) => "bool"
    case String(_) => "string"
    case Sequence(_) => "sequence"
    case Mapping(_) => "mapping"
    case Null => "null"
  }

  /** Each variant gets its own name: values of different variants never share one. */
  lemma TypeNameDistinguishesVariants(v: Value, w: Value)
    ensures TypeName(v) == TypeName(w) <==>
              (v.Number? && w.Number?) || (v.Bool? && w.Bool?) || (v.String? && w.String?) ||
              (v.Sequence? && w.Sequence?) || (v.Mapping? && w.Mapping?) || (v.Null? && w.Null?)
  {
    assert "number" != "string" && "bool" != "null" && "number" != "bool";
  }

  // ---------------------------------------------------------------------------
  // `str::parse::<usize>()` on a 64-bit target
  // ---------------------------------------------------------------------------

  const UsizeMax: nat := 0xFFFF_FFFF_FFFF_FFFF

  predicate IsDigit(c: char) { '0' <= c <= '9' }

  predicate AllDigits(s: string) { forall i | 0 <= i < |s| :: IsDigit(s[i]) }

  /** The number written by a string of decimal digits. */
  function DigitsValue(s: string): nat
    requires AllDigits(s)
    decreases |s|
  {
    if |s| == 0 then 0
    else DigitsValue(s[..|s| - 1]) * 10 + ((s[|s| - 1] as int) - ('0' as int))
  }

  /** An optional `+`, then at least one ASCII digit, and a value that fits in a
      `usize`; anything else (a `-`, a blank, an overflow) is a parse error. */
  function ParseUsize(s: string): (r: Option<nat>)
    ensures r.Some? ==> r.value <= UsizeMax
    ensures r.Some? ==> |s| > 0 && (s[0] == '+' || IsDigit(s[0]))
    ensures r.Some? ==> forall i | 0 < i < |s| :: IsDigit(s[i])
  {
    var digits := if |s| > 0 && s[0] == '+' then s[1..] else s;
    if |digits| > 0 && AllDigits(digits) && DigitsValue(digits) <= UsizeMax
    then Some(DigitsValue(digits))
    else None
  }

  /** The decimal representation of `n` without leading zeros. */
  function Decimal(n: nat): (s: string)
    decreases n
  {
    if n < 10 then [(('0' as int) + n) as char]
    else Decimal(n / 10) + [(('0' as int) + n % 10) as char]
  }

  lemma {:induction false} DecimalDigits(n: nat)
    ensures |Decimal(n)| > 0 && AllDigits(Decimal(n)) && DigitsValue(Decimal(n)) == n
    decreases n
  {
    if n >= 10 {
      DecimalDigits(n / 10);
      var s := Decimal(n);
      assert s[..|s| - 1] == Decimal(n / 10);
    }
  }

  /** Every index a `usize` can hold is read back from its decimal form, with or
      without a leading `+`. */
  lemma ParseUsizeDecimal(n: nat)
    requires n <= UsizeMax
    ensures ParseUsize(Decimal(n)) == Some(n)
    ensures ParseUsize("+" + Decimal(n)) == Some(n)
  {
    DecimalDigits(n);
    assert ("+" + Decimal(n))[1..] == Decimal(n);
  }

  // ---------------------------------------------------------------------------
  // yaml_get_value_by_path
  // ---------------------------------------------------------------------------

  /** `val[k]` with a string index: the value under key `k` of a mapping, Null when
      the key is missing or the value is not a mapping. */
  function Key(v: Value, k: string): Value {
    if v.Mapping? then Get(v.entries, String(k)).GetOr(Null) else Null
  }

  /** One step of the walk: a segment that parses as a `usize` indexes a sequence
      (Null when out of range); otherwise, and on any non-sequence, it is a key. */
  function Step(v: Value, segment: string): (r: Value)
    ensures v.Sequence? && ParseUsize(segment).Some? ==>
              r == if ParseUsize(segment).value < |v.items| then v.items[ParseUsize(segment).value] else Null
    ensures !(v.Sequence? && ParseUsize(segment).Some?) ==> r == Key(v, segment)
    ensures v.Null? || v.Bool? || v.Number? || v.String? ==> r == Null
  {
    match ParseUsize(segment)
    case Some(n) =>
      if TypeName(v) == "sequence" then (if n < |v.items| then v.items[n] else Null)
      else Key(v, segment)
    case None => Key(v, segment)
  }

  /** The loop of `yaml_get_value_by_path`: apply the segments left to right and
      stop at the first Null. */
  function Walk(v: Value, segments: seq<string>): (r: Value)
    ensures v.Null? ==> r == Null
    ensures |segments| > 0 && (v.Bool? || v.Number? || v.String?) ==> r == Null
    decreases |segments|
  {
    if |segments| == 0 then v
    else
      var next := Step(v, segments[0]);
      if next.Null? then Null else Walk(next, segments[1..])
  }

  /** Reference definition without the early return: apply every segment. */
  function ApplyAll(v: Value, segments: seq<string>): Value
    decreases |segments|
  {
    if |segments| == 0 then v else ApplyAll(Step(v, segments[0]), segments[1..])
  }

  lemma {:induction false} ApplyAllNull(segments: seq<string>)
    ensures ApplyAll(Null, segments) == Null
    decreases |segments|
  {
    if |segments| > 0 { ApplyAllNull(segments[1..]); }
  }

  /** Stopping at the first Null only saves work: once Null, every further step
      would stay Null. */
  lemma {:induction false} WalkIsApplyAll(v: Value, segments: seq<string>)
    ensures Walk(v, segments) == ApplyAll(v, segments)
    decreases |segments|
  {
    if |segments| > 0 {
      var next := Step(v, segments[0]);
      if next.Null? { ApplyAllNull(segments[1..]); } else { WalkIsApplyAll(next, segments[1..]); }
    }
  }

  /** Segments are applied left to right: walking `a + b` is walking `b` from
      where `a` ends. */
  lemma {:induction false} WalkAppend(v: Value, a: seq<string>, b: seq<string>)
    ensures Walk(v, a + b) == Walk(Walk(v, a), b)
    decreases |a|
  {
    if |a| == 0 {
      assert a + b == b;
    } else {
      assert (a + b)[0] == a[0] && (a + b)[1..] == a[1..] + b;
      var next := Step(v, a[0]);
      if next.Null? {
        WalkIsApplyAll(Null, b);
        ApplyAllNull(b);
      } else {
        WalkAppend(next, a[1..], b);
      }
    }
  }

  /** What `yaml_get_value_by_path` returns: the value itself for the empty path,
      otherwise the walk along the pieces of the path split on '.'. */
  function PathValue(value: Value, path: string): Value {
    if path == "" then value else Walk(value, Strings.Split(path, '.'))
  }

  /** `yaml_get_value_by_path`, with its loop and early return. */
  method GetValueByPath(value: Value, path: string) returns (r: Value)
    ensures r == PathValue(value, path)
    ensures path == "" ==> r == value
  {
    var val := value;
    if path == "" {
      return val;
    }
    var segments := Strings.Split(path, '.');
    var i := 0;
    while i < |segments|
      invariant 0 <= i <= |segments|
      invariant Walk(value, segments) == Walk(val, segments[i..])
    {
      ghost var rest := segments[i..];
      assert rest[0] == segments[i] && rest[1..] == segments[i + 1..];
      val := Step(val, segments[i]);
      if val.Null? {
        return val;
      }
      i := i + 1;
    }
    assert segments[i..] == [];
    return val;
  }

  /** A missing key, an out-of-range index, or a lookup inside a scalar makes the
      whole path Null, whatever follows. */
  lemma MissingMakesNull(v: Value, segments: seq<string>, rest: seq<string>)
    requires Walk(v, segments) == Null
    ensures Walk(v, segments + rest) == Null
  {
    WalkAppend(v, segments, rest);
    WalkIsApplyAll(Null, rest);
    ApplyAllNull(rest);
  }

  /** A small document: `{a: [{b: 1}], "0": true}`. */
  function SampleDoc(): Value {
    Mapping([Entry(String("a"), Sequence([Mapping([Entry(String("b"), Number(1))])])),
             Entry(String("0"), Bool(true))])
  }

  /** The facts of the parser that the path examples below use. */
  lemma ParsedSegments()
    ensures ParseUsize("0") == Some(0) && ParseUsize("+0") == Some(0) && ParseUsize("1") == Some(1)
    ensures ParseUsize("a") == None && ParseUsize("b") == None
  {
    ParseUsizeDecimal(0);
    ParseUsizeDecimal(1);
    assert Decimal(0) == "0" && Decimal(1) == "1";
    assert !IsDigit('a') && !IsDigit('b');
  }

  /** `a.0.b` reaches the number. */
  lemma PathIndexesSequence()
    ensures PathValue(SampleDoc(), "a.0.b") == Number(1)
  {
    Strings.SplitThree("a", "0", "b", '.');
    assert "a" + "." + "0" + "." + "b" == "a.0.b";
    ParsedSegments();
    var inner := Mapping([Entry(String("b"), Number(1))]);
    assert Step(SampleDoc(), "a") == Sequence([inner]);
    assert Step(Sequence([inner]), "0") == inner;
    assert Step(inner, "b") == Number(1);
  }

  /** `a.+0.b` reaches it too: the index parser accepts a leading '+'. */
  lemma PathIndexAcceptsPlus()
    ensures PathValue(SampleDoc(), "a.+0.b") == Number(1)
  {
    Strings.SplitThree("a", "+0", "b", '.');
    assert "a" + "." + "+0" + "." + "b" == "a.+0.b";
    ParsedSegments();
    var inner := Mapping([Entry(String("b"), Number(1))]);
    assert Step(SampleDoc(), "a") == Sequence([inner]);
    assert Step(Sequence([inner]), "+0") == inner;
    assert Step(inner, "b") == Number(1);
  }

  /** `a.1.b` is out of range, so the whole path is Null. */
  lemma PathOutOfRange()
    ensures PathValue(SampleDoc(), "a.1.b") == Null
  {
    Strings.SplitThree("a", "1", "b", '.');
    assert "a" + "." + "1" + "." + "b" == "a.1.b";
    ParsedSegments();
    var inner := Mapping([Entry(String("b"), Number(1))]);
    assert Step(SampleDoc(), "a") == Sequence([inner]);
    assert Step(Sequence([inner]), "1") == Null;
  }

  /** A numeric segment on a mapping is looked up as a string key. */
  lemma PathNumericKeyOnMapping()
    ensures PathValue(SampleDoc(), "0") == Bool(true)
  {
    Strings.SplitNone("0", '.');
    ParsedSegments();
    assert Step(SampleDoc(), "0") == Bool(true);
  }
}
