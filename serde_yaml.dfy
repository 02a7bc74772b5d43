/** How the repository's `#[derive(Deserialize)]` structs are read out of a
    YAML mapping. serde's derived `visit_map` makes one pass over the entries
    in document order: an entry whose key names a field has its value decoded
    at once, and the first value that does not decode is the error; other keys
    are skipped. Only after the pass are the fields without a key examined, in
    declaration order: a field marked `#[serde(default)]` or
    `#[serde(default = "...")]` takes its default, an `Option` field is `None`,
    and any other field is a missing-field error. An `Option` field whose value
    is null is `None` as well.

    The plugins read their structs out of a `Mapping` value, which never holds
    a key twice (`FirstValueError`). The scenario file is read straight from
    its text, where a key can be written twice: the pass then reports a
    duplicate-field error at a field's second key, before reading its value
    (`DocumentError`). */
module SerdeYaml {
  import opened Wrappers
  import opened Yaml

  datatype DecodeError = MissingField(field: string) | InvalidType(field: string) | DuplicateField(field: string)

  /** The value under a field's name, if the key is present. */
  function Field(m: seq<Entry>, name: string): Option<Value> {
    Get(m, String(name))
  }

  // ---------------------------------------------------------------------------
  // The pass over the entries
  // ---------------------------------------------------------------------------

  /** Whether an entry's key names one of `fields`. */
  predicate Names(e: Entry, fields: seq<string>) {
    e.key.String? && e.key.s in fields
  }

  /** Whether the pass gets past an entry: it names no field, or its value
      decodes (`check` gives the error a field's value decodes with, if any). */
  predicate Checked(e: Entry, fields: seq<string>, check: (string, Value) -> Option<DecodeError>) {
    !Names(e, fields) || check(e.key.s, e.value).None?
  }

  /** The error the pass stops with: that of the first entry, in document
      order, that names a field and whose value does not decode. */
  function FirstValueError(m: seq<Entry>, fields: seq<string>, check: (string, Value) -> Option<DecodeError>): (r: Option<DecodeError>)
    ensures r.None? <==> forall i | 0 <= i < |m| :: Checked(m[i], fields, check)
    ensures r.Some? ==> exists i | 0 <= i < |m| :: Names(m[i], fields) && r == check(m[i].key.s, m[i].value) &&
                          forall j | 0 <= j < i :: Checked(m[j], fields, check)
    decreases |m|
  {
    if |m| == 0 then None
    else if !Checked(m[0], fields, check) then check(m[0].key.s, m[0].value)
    else
      var r := FirstValueError(m[1..], fields, check);
      assert forall i | 0 < i < |m| :: m[i] == m[1..][i - 1];
      if r.Some? then
        assert exists i | 0 <= i < |m| :: Names(m[i], fields) && r == check(m[i].key.s, m[i].value) &&
                 forall j | 0 <= j < i :: Checked(m[j], fields, check) by {
          var i :| 0 <= i < |m[1..]| && Names(m[1..][i], fields) && r == check(m[1..][i].key.s, m[1..][i].value) &&
                   forall j | 0 <= j < i :: Checked(m[1..][j], fields, check);
          assert forall j | 0 <= j < i + 1 :: Checked(m[j], fields, check) by {
            forall j | 0 <= j < i + 1 ensures Checked(m[j], fields, check) {
              if j > 0 { assert m[j] == m[1..][j - 1]; }
            }
          }
        }
        r
      else r
  }

  /** Once the pass is through, the value under any field's key decodes. */
  lemma FieldChecked(m: seq<Entry>, fields: seq<string>, check: (string, Value) -> Option<DecodeError>, name: string)
    requires FirstValueError(m, fields, check).None?
    requires name in fields
    ensures Field(m, name).Some? ==> check(name, Field(m, name).value).None?
  {
    GetFinds(m, String(name));
    if Field(m, name).Some? {
      var i :| 0 <= i < |m| && m[i] == Entry(String(name), Field(m, name).value);
      assert Checked(m[i], fields, check);
    }
  }

  // ---------------------------------------------------------------------------
  // The pass over a mapping read from a document
  // ---------------------------------------------------------------------------

  /** The error the pass meets at entry `i`: none for a key that names no
      field, a duplicate-field error for a field whose key came earlier, else
      the error of the value. */
  function EntryError(m: seq<Entry>, i: nat, fields: seq<string>, check: (string, Value) -> Option<DecodeError>): Option<DecodeError>
    requires i < |m|
  {
    if !Names(m[i], fields) then None
    else if exists j | 0 <= j < i :: m[j].key == m[i].key then Some(DuplicateField(m[i].key.s))
    else check(m[i].key.s, m[i].value)
  }

  /** The first error the pass meets among the first `n` entries. */
  function FirstEntryError(m: seq<Entry>, fields: seq<string>, check: (string, Value) -> Option<DecodeError>, n: nat): (r: Option<DecodeError>)
    requires n <= |m|
    ensures r.None? <==> forall i | 0 <= i < n :: EntryError(m, i, fields, check).None?
    ensures r.Some? ==> exists i | 0 <= i < n :: r == EntryError(m, i, fields, check) &&
                          forall j | 0 <= j < i :: EntryError(m, j, fields, check).None?
    decreases n
  {
    if n == 0 then None
    else
      var r := FirstEntryError(m, fields, check, n - 1);
      if r.Some? then r else EntryError(m, n - 1, fields, check)
  }

  /** The error the pass stops with on a mapping read from a document. */
  function DocumentError(m: seq<Entry>, fields: seq<string>, check: (string, Value) -> Option<DecodeError>): (r: Option<DecodeError>)
    ensures r.None? <==> forall i | 0 <= i < |m| :: EntryError(m, i, fields, check).None?
    ensures r.Some? ==> exists i | 0 <= i < |m| :: r == EntryError(m, i, fields, check) &&
                          forall j | 0 <= j < i :: EntryError(m, j, fields, check).None?
  {
    FirstEntryError(m, fields, check, |m|)
  }

  /** Once that pass is through, the value under any field's key decodes. */
  lemma DocumentFieldChecked(m: seq<Entry>, fields: seq<string>, check: (string, Value) -> Option<DecodeError>, name: string)
    requires DocumentError(m, fields, check).None?
    requires name in fields
    ensures Field(m, name).Some? ==> check(name, Field(m, name).value).None?
  {
    GetFinds(m, String(name));
    if Field(m, name).Some? {
      var i :| 0 <= i < |m| && m[i] == Entry(String(name), Field(m, name).value);
      assert EntryError(m, i, fields, check).None?;
    }
  }

  /** On a mapping whose keys are distinct, as a `Mapping` value's are, the
      document pass meets no duplicate and stops with the value pass's error. */
  lemma DocumentErrorOfMapping(m: seq<Entry>, fields: seq<string>, check: (string, Value) -> Option<DecodeError>)
    requires UniqueKeys(m)
    ensures DocumentError(m, fields, check) == FirstValueError(m, fields, check)
  {
    forall i | 0 <= i < |m|
      ensures EntryError(m, i, fields, check) == if Checked(m[i], fields, check) then None else check(m[i].key.s, m[i].value)
    {
      assert forall j | 0 <= j < i :: m[j].key != m[i].key;
    }
    var d := DocumentError(m, fields, check);
    var f := FirstValueError(m, fields, check);
    if d.Some? && f.Some? {
      var i :| 0 <= i < |m| && d == EntryError(m, i, fields, check) && forall j | 0 <= j < i :: EntryError(m, j, fields, check).None?;
      var k :| 0 <= k < |m| && Names(m[k], fields) && f == check(m[k].key.s, m[k].value) &&
               forall j | 0 <= j < k :: Checked(m[j], fields, check);
      assert !(i < k) && !(k < i);
    }
  }

  /** The missing-field error: the first of the `required` fields, in
      declaration order, that has no key. */
  function FirstMissing(m: seq<Entry>, required: seq<string>): (r: Option<string>)
    ensures r.None? <==> forall i | 0 <= i < |required| :: Field(m, required[i]).Some?
    ensures r.Some? ==> exists i | 0 <= i < |required| :: required[i] == r.value && Field(m, r.value).None? &&
                          forall j | 0 <= j < i :: Field(m, required[j]).Some?
    decreases |required|
  {
    if |required| == 0 then None
    else if Field(m, required[0]).None? then Some(required[0])
    else
      var r := FirstMissing(m, required[1..]);
      assert forall i | 0 < i < |required| :: required[i] == required[1..][i - 1];
      if r.Some? then
        assert exists i | 0 <= i < |required| :: required[i] == r.value && Field(m, r.value).None? &&
                 forall j | 0 <= j < i :: Field(m, required[j]).Some? by {
          var i :| 0 <= i < |required[1..]| && required[1..][i] == r.value && Field(m, r.value).None? &&
                   forall j | 0 <= j < i :: Field(m, required[1..][j]).Some?;
          assert required[i + 1] == r.value;
          assert forall j | 0 <= j < i + 1 :: Field(m, required[j]).Some? by {
            forall j | 0 <= j < i + 1 ensures Field(m, required[j]).Some? {
              if j > 0 { assert required[j] == required[1..][j - 1]; }
            }
          }
        }
        r
      else r
  }

  /** The first error of a struct: that of the pass, else a missing field. */
  function StructError(m: seq<Entry>, fields: seq<string>, required: seq<string>,
                       check: (string, Value) -> Option<DecodeError>): (r: Option<DecodeError>)
    ensures FirstValueError(m, fields, check).Some? ==> r == FirstValueError(m, fields, check)
    ensures FirstValueError(m, fields, check).None? && FirstMissing(m, required).Some? ==>
              r == Some(MissingField(FirstMissing(m, required).value))
    ensures r.None? <==> FirstValueError(m, fields, check).None? && FirstMissing(m, required).None?
  {
    match FirstValueError(m, fields, check)
    case Some(e) => Some(e)
    case None =>
      match FirstMissing(m, required)
      case Some(f) => Some(MissingField(f))
      case None => None
  }

  /** A `Vec<T>` read from a sequence: the items in order, the first item that
      does not decode giving the error. */
  function DecodeItems<T>(items: seq<Value>, decode: Value -> Result<T, DecodeError>): (r: Result<seq<T>, DecodeError>)
    ensures r.Ok? <==> forall i | 0 <= i < |items| :: decode(items[i]).Ok?
    ensures r.Ok? ==> |r.value| == |items| && forall i | 0 <= i < |items| :: decode(items[i]) == Ok(r.value[i])
    ensures r.Err? ==> exists i | 0 <= i < |items| :: decode(items[i]) == Err(r.error) &&
                          forall j | 0 <= j < i :: decode(items[j]).Ok?
    decreases |items|
  {
    if |items| == 0 then Ok([])
    else
      var rest := DecodeItems(items[1..], decode);
      assert forall i | 0 < i < |items| :: items[i] == items[1..][i - 1];
      match decode(items[0])
      case Err(e) => Err(e)
      case Ok(x) =>
        match rest
        case Ok(xs) => Ok([x] + xs)
        case Err(e) =>
          assert exists i | 0 <= i < |items| :: decode(items[i]) == Err(e) && forall j | 0 <= j < i :: decode(items[j]).Ok? by {
            var i :| 0 <= i < |items[1..]| && decode(items[1..][i]) == Err(e) && forall j | 0 <= j < i :: decode(items[1..][j]).Ok?;
            assert items[i + 1] == items[1..][i];
            assert forall j | 0 <= j < i + 1 :: decode(items[j]).Ok? by {
              forall j | 0 <= j < i + 1 ensures decode(items[j]).Ok? {
                if j > 0 { assert items[j] == items[1..][j - 1]; }
              }
            }
          }
          Err(e)
  }

  /** A field with a serde default, once its value is known to decode: the
      default when the key is missing. */
  function DefaultedValue<T>(f: Option<Value>, default: T, decode: Value -> Result<T, DecodeError>): (r: T)
    requires f.Some? ==> decode(f.value).Ok?
    ensures f.None? ==> r == default
    ensures f.Some? ==> decode(f.value) == Ok(r)
  {
    if f.None? then default else decode(f.value).value
  }

  /** An `Option` field, once its value is known to decode: None when the key
      is missing or its value null. */
  function OptionalValue<T>(f: Option<Value>, decode: Value -> Result<T, DecodeError>): (r: Option<T>)
    requires f.Some? && !f.value.Null? ==> decode(f.value).Ok?
    ensures r.None? <==> f.None? || f == Some(Null)
    ensures r.Some? ==> decode(f.value) == Ok(r.value)
  {
    if f.None? || f.value.Null? then None else Some(decode(f.value).value)
  }

  // ---------------------------------------------------------------------------
  // Field types
  // ---------------------------------------------------------------------------

  function ErrorOf<T>(r: Result<T, DecodeError>): (e: Option<DecodeError>)
    ensures e.None? <==> r.Ok?
  {
    if r.Err? then Some(r.error) else None
  }

  /** An `Option<T>` field: null is `None`, anything else is decoded as a `T`. */
  function OptionalError<T>(v: Value, decode: Value -> Result<T, DecodeError>): (e: Option<DecodeError>)
    ensures e.None? <==> v.Null? || decode(v).Ok?
  {
    if v.Null? then None else ErrorOf(decode(v))
  }

  /** A `String` field read out of a `Value` (`from_value`): only a string
      will do. */
  function AsString(field: string, v: Value): (r: Result<string, DecodeError>)
    ensures r.Ok? <==> v.String?
    ensures r.Ok? ==> r.value == v.s
    ensures r.Err? ==> r.error == InvalidType(field)
  {
    if v.String? then Ok(v.s) else Err(InvalidType(field))
  }

  /** A `Vec<String>` read out of a `Value`: a sequence of strings. */
  function AsStrings(field: string, v: Value): (r: Result<seq<string>, DecodeError>)
    ensures r.Ok? <==> v.Sequence? && forall i | 0 <= i < |v.items| :: v.items[i].String?
    ensures r.Ok? ==> |r.value| == |v.items| && forall i | 0 <= i < |v.items| :: v.items[i] == String(r.value[i])
    ensures r.Err? ==> r.error == InvalidType(field)
  {
    if v.Sequence? && forall i | 0 <= i < |v.items| :: v.items[i].String?
    then Ok(seq(|v.items|, i requires 0 <= i < |v.items| && v.items[i].String? => v.items[i].s))
    else Err(InvalidType(field))
  }

  /** Whether a value is a scalar: null, a boolean, a number or a string. */
  predicate IsScalar(v: Value) {
    !v.Sequence? && !v.Mapping?
  }

  /** The spelling of a scalar as the tree gives it: a string's own text, a
      number in decimal with a `-` when negative, `true` or `false`, and `null`.
      The tree keeps a scalar's value and not the characters it was written
      with, so this is the canonical spelling of that value. */
  function ScalarText(v: Value): string
    requires IsScalar(v)
  {
    match v
    case String(s) => s
    case Number(n) => if n < 0 then "-" + Decimal(-n) else Decimal(n)
    case Bool(b) => if b then "true" else "false"
    case Null => "null"
  }

  /** A `String` field read straight from text: serde_yaml's text deserializer
      hands a `String` the text of any scalar, so `42` and `true` are the
      strings "42" and "true"; only a sequence or a mapping is refused. */
  function TextString(field: string, v: Value): (r: Result<string, DecodeError>)
    ensures r.Ok? <==> IsScalar(v)
    ensures v.String? ==> r == Ok(v.s)
    ensures v.Number? && v.n >= 0 ==> r == Ok(Decimal(v.n))
    ensures r.Err? ==> r.error == InvalidType(field)
  {
    if IsScalar(v) then Ok(ScalarText(v)) else Err(InvalidType(field))
  }

  /** A `Vec<String>` read straight from text: a sequence of scalars, each
      read as its text. */
  function TextStrings(field: string, v: Value): (r: Result<seq<string>, DecodeError>)
    ensures r.Ok? <==> v.Sequence? && forall i | 0 <= i < |v.items| :: IsScalar(v.items[i])
    ensures r.Ok? ==> |r.value| == |v.items| && forall i | 0 <= i < |v.items| :: TextString(field, v.items[i]) == Ok(r.value[i])
    ensures r.Err? ==> r.error == InvalidType(field)
  {
    if v.Sequence? && forall i | 0 <= i < |v.items| :: IsScalar(v.items[i])
    then Ok(seq(|v.items|, i requires 0 <= i < |v.items| && IsScalar(v.items[i]) => ScalarText(v.items[i])))
    else Err(InvalidType(field))
  }

  /** A `u64`: an integer in 0 .. 2^64 - 1. */
  function AsU64(field: string, v: Value): (r: Result<nat, DecodeError>)
    ensures r.Ok? <==> v.Number? && 0 <= v.n < 0x1_0000_0000_0000_0000
    ensures r.Ok? ==> r.value == v.n
    ensures r.Err? ==> r.error == InvalidType(field)
  {
    if v.Number? && 0 <= v.n < 0x1_0000_0000_0000_0000 then Ok(v.n) else Err(InvalidType(field))
  }

  /** A `u16`: an integer in 0 .. 65535. */
  function AsU16(field: string, v: Value): (r: Result<nat, DecodeError>)
    ensures r.Ok? <==> v.Number? && 0 <= v.n < 0x1_0000
    ensures r.Ok? ==> r.value == v.n
    ensures r.Err? ==> r.error == InvalidType(field)
  {
    if v.Number? && 0 <= v.n < 0x1_0000 then Ok(v.n) else Err(InvalidType(field))
  }

  /** A `Mapping`. */
  function AsMapping(field: string, v: Value): (r: Result<seq<Entry>, DecodeError>)
    ensures r.Ok? <==> v.Mapping?
    ensures r.Ok? ==> r.value == v.entries
    ensures r.Err? ==> r.error == InvalidType(field)
  {
    if v.Mapping? then Ok(v.entries) else Err(InvalidType(field))
  }
}
