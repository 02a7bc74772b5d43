/** src/verifiers/file/file.rs: the verifier that reads two files and passes
    iff a line diff of their contents finds no difference. The file system is
    a map from path to contents; a path that is absent from it cannot be
    opened or read as UTF-8 text. */
module FileComparator {
  import opened Wrappers
  import Yaml
  import opened SerdeYaml

  datatype Params = Params(expected: string, actual: string)

  /** Both fields are required strings. */
  const Fields := ["expected", "actual"]

  function FieldError(name: string, v: Yaml.Value): Option<DecodeError> {
    ErrorOf(AsString(name, v))
  }

  /** `serde_yaml::from_value::<FileComparator>`: the first value, in document
      order, that is not a string, else the first missing field, `expected`
      before `actual`. */
  function Decode(params: seq<Yaml.Entry>): (r: Result<Params, DecodeError>)
    ensures r.Err? <==> StructError(params, Fields, Fields, FieldError).Some?
    ensures r.Err? ==> r.error == StructError(params, Fields, Fields, FieldError).value
    ensures r.Ok? ==> Field(params, "expected").Some? && Field(params, "expected").value.String? &&
                      Field(params, "actual").Some? && Field(params, "actual").value.String? &&
                      r.value == Params(Field(params, "expected").value.s, Field(params, "actual").value.s)
    ensures Yaml.UniqueKeys(params) ==>
              (r.Ok? <==> Field(params, "expected").Some? && Field(params, "expected").value.String? &&
                                                                      Field(params, "actual").Some? && Field(params, "actual").value.String?)
  {
    var error := StructError(params, Fields, Fields, FieldError);
    UniqueStrings(params);
    if error.Some? then Err(error.value)
    else
      assert Fields[0] == "expected" && Fields[1] == "actual";
      FieldChecked(params, Fields, FieldError, "expected");
      FieldChecked(params, Fields, FieldError, "actual");
      Ok(Params(Field(params, "expected").value.s, Field(params, "actual").value.s))
  }

  /** With distinct keys, the pass and the missing-field check both get through
      iff both fields are present strings. */
  lemma UniqueStrings(params: seq<Yaml.Entry>)
    ensures Yaml.UniqueKeys(params) ==>
              (StructError(params, Fields, Fields, FieldError).None? <==>
                 Field(params, "expected").Some? && Field(params, "expected").value.String? &&
                 Field(params, "actual").Some? && Field(params, "actual").value.String?)
  {
    assert Fields[0] == "expected" && Fields[1] == "actual";
    if Yaml.UniqueKeys(params) && Field(params, "expected").Some? && Field(params, "expected").value.String? &&
       Field(params, "actual").Some? && Field(params, "actual").value.String? {
      forall i | 0 <= i < |params| ensures Checked(params[i], Fields, FieldError) {
        Yaml.GetUnique(params, i);
      }
    }
    if StructError(params, Fields, Fields, FieldError).None? {
      FieldChecked(params, Fields, FieldError, "expected");
      FieldChecked(params, Fields, FieldError, "actual");
    }
  }

  /** A value of the wrong type is reported before a field that is missing:
      `{actual: 5}` fails on `actual`, not on the absent `expected`. */
  lemma TypeErrorComesFirst()
    ensures Decode([Yaml.Entry(Yaml.String("actual"), Yaml.Number(5))]) == Err(InvalidType("actual"))
  {
    var m := [Yaml.Entry(Yaml.String("actual"), Yaml.Number(5))];
    assert !Checked(m[0], Fields, FieldError);
  }

  /** `validate_params`: `expected` is checked before `actual`. */
  function ValidateParams(p: Params): (r: Outcome<string>)
    ensures r == Pass <==> p.expected != "" && p.actual != ""
    ensures p.expected == "" ==> r == Fail("expected cannot be empty")
    ensures p.expected != "" && p.actual == "" ==> r == Fail("actual cannot be empty")
  {
    if p.expected == "" then Fail("expected cannot be empty")
    else if p.actual == "" then Fail("actual cannot be empty")
    else Pass
  }

  // ---------------------------------------------------------------------------
  // The line diff
  // ---------------------------------------------------------------------------

  /** The length of the first line of a non-empty text, its newline included. */
  function FirstLineLength(s: string): (n: nat)
    requires s != ""
    ensures 0 < n <= |s|
    ensures forall i | 0 <= i < n - 1 :: s[i] != '\n'
    ensures n < |s| ==> s[n - 1] == '\n'
  {
    if s[0] == '\n' || |s| == 1 then 1 else 1 + FirstLineLength(s[1..])
  }

  /** `TextDiff::from_lines` tokenization: each line keeps its newline; a last
      line without one is kept as it is. */
  function Lines(s: string): (lines: seq<string>)
    ensures forall i | 0 <= i < |lines| :: lines[i] != ""
    decreases |s|
  {
    if s == "" then [] else
      var n := FirstLineLength(s);
      [s[..n]] + Lines(s[n..])
  }

  function Concat(lines: seq<string>): string {
    if lines == [] then "" else lines[0] + Concat(lines[1..])
  }

  /** No text is lost in the tokenization. */
  lemma {:induction false} ConcatLines(s: string)
    ensures Concat(Lines(s)) == s
    decreases |s|
  {
    if s != "" {
      var n := FirstLineLength(s);
      ConcatLines(s[n..]);
      assert ([s[..n]] + Lines(s[n..]))[1..] == Lines(s[n..]);
      assert s[..n] + s[n..] == s;
    }
  }

  /** The diff has an operation other than `Equal` iff the two line sequences
      differ. */
  predicate Differ(expected: string, actual: string) {
    Lines(expected) != Lines(actual)
  }

  /** The files differ to the diff exactly when their contents differ. */
  lemma DifferIffContentsDiffer(expected: string, actual: string)
    ensures Differ(expected, actual) <==> expected != actual
  {
    ConcatLines(expected);
    ConcatLines(actual);
  }

  datatype VerifyError = BadParams(decode: DecodeError) | Invalid(message: string) | Unreadable(path: string) | Different(message: string)

  const DifferenceMessage := "Difference found between 2 files: expected & actual"

  /** `func` of the comparator: read `expected`, then `actual`, then compare. */
  function Compare(p: Params, files: map<string, string>): (r: Outcome<VerifyError>)
    ensures r == Pass <==> p.expected in files && p.actual in files && files[p.expected] == files[p.actual]
    ensures p.expected !in files ==> r == Fail(Unreadable(p.expected))
    ensures p.expected in files && p.actual !in files ==> r == Fail(Unreadable(p.actual))
  {
    DifferIffContentsDiffer(if p.expected in files then files[p.expected] else "", if p.actual in files then files[p.actual] else "");
    if p.expected !in files then Fail(Unreadable(p.expected))
    else if p.actual !in files then Fail(Unreadable(p.actual))
    else if Differ(files[p.expected], files[p.actual]) then Fail(Different(DifferenceMessage))
    else Pass
  }

  /** A file always matches itself. */
  lemma SelfComparisonPasses(path: string, files: map<string, string>)
    requires path in files
    ensures Compare(Params(path, path), files) == Pass
  {
  }

  /** The registered `func`: deserialize, validate, then compare; no file is
      read when the parameters are invalid. */
  function Func(params: seq<Yaml.Entry>, files: map<string, string>): (r: Outcome<VerifyError>)
    ensures Decode(params).Err? ==> r == Fail(BadParams(Decode(params).error))
    ensures Decode(params).Ok? && ValidateParams(Decode(params).value).Fail? ==>
              r == Fail(Invalid(ValidateParams(Decode(params).value).error))
    ensures r == Pass <==> Decode(params).Ok? && ValidateParams(Decode(params).value) == Pass &&
                           Compare(Decode(params).value, files) == Pass
  {
    match Decode(params)
    case Err(e) => Fail(BadParams(e))
    case Ok(p) =>
      match ValidateParams(p)
      case Fail(e) => Fail(Invalid(e))
      case Pass => Compare(p, files)
  }
}
