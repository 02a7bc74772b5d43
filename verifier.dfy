/** src/verifier.rs: the table of verifier plugins and its two queries. */
module Verifier {
  import opened Wrappers
  import Registry

  /** The bodies a verifier entry can run: one per verifier plugin. */
  datatype Func = FileComparatorFunc

  type Entry = Registry.Plugin<Func>

  /** The single entry submitted by src/verifiers/file/file.rs. */
  const Registered: seq<Entry> := [Registry.Plugin("file-comparator", FileComparatorFunc)]

  /** `get_verifier(name)`: found exactly for the registered name; the entry
      found carries the name asked for. */
  function GetVerifier(name: string): (r: Option<Entry>)
    ensures r.Some? <==> name == "file-comparator"
    ensures r.Some? ==> r.value.name == name && r.value in Registered
  {
    Registry.Find(Registered, name)
  }

  /** `get_verifier_names()`: every registered name, in table order, and exactly
      the names `get_verifier` finds. */
  function GetVerifierNames(): (names: seq<string>)
    ensures |names| == |Registered|
    ensures forall i | 0 <= i < |Registered| :: names[i] == Registered[i].name
    ensures forall name :: name in names <==> GetVerifier(name).Some?
  {
    forall name ensures name in Registry.Names(Registered) <==> GetVerifier(name).Some? {
      Registry.ListedIffFound(Registered, name);
    }
    Registry.Names(Registered)
  }
}
