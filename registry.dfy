/** The plugin tables of src/faker.rs and src/verifier.rs share one shape: a
    fixed, read-only sequence of named entries (the order in which the linker
    collected them), searched by exact, case-sensitive name. */
module Registry {
  import opened Wrappers

  /** A registered plugin: its name and the body it runs. */
  datatype Plugin<F> = Plugin(name: string, func: F)

  /** `iter().find(|f| f.name == name)`: the first entry whose name equals `name`. */
  function Find<F>(table: seq<Plugin<F>>, name: string): (r: Option<Plugin<F>>)
    ensures r.Some? <==> exists i | 0 <= i < |table| :: table[i].name == name
    ensures r.Some? ==> r.value.name == name
    ensures r.Some? ==> exists i | 0 <= i < |table| :: table[i] == r.value && NoneNamedBefore(table, name, i)
    decreases |table|
  {
    if |table| == 0 then None
    else if table[0].name == name then
      assert table[0] == table[0] && NoneNamedBefore(table, name, 0);
      Some(table[0])
    else
      var r := Find(table[1..], name);
      assert r.Some? ==> exists i | 0 <= i < |table| :: table[i] == r.value && NoneNamedBefore(table, name, i) by {
        if r.Some? {
          var i :| 0 <= i < |table[1..]| && table[1..][i] == r.value && NoneNamedBefore(table[1..], name, i);
          assert table[i + 1] == r.value && NoneNamedBefore(table, name, i + 1);
        }
      }
      r
  }

  /** No entry before position `i` is named `name`. */
  predicate NoneNamedBefore<F>(table: seq<Plugin<F>>, name: string, i: nat)
    requires i <= |table|
  {
    forall j | 0 <= j < i :: table[j].name != name
  }

  /** `iter().map(|f| f.name).collect()`: one name per entry, in table order,
      duplicates included. */
  function Names<F>(table: seq<Plugin<F>>): (names: seq<string>)
    ensures |names| == |table|
    ensures forall i | 0 <= i < |table| :: names[i] == table[i].name
    decreases |table|
  {
    if |table| == 0 then [] else [table[0].name] + Names(table[1..])
  }

  /** A name is listed exactly when looking it up finds an entry. */
  lemma ListedIffFound<F>(table: seq<Plugin<F>>, name: string)
    ensures name in Names(table) <==> Find(table, name).Some?
  {
    var names := Names(table);
    if name in names {
      var i :| 0 <= i < |names| && names[i] == name;
      assert table[i].name == name;
    }
  }

  /** With two entries of the same name, the earlier one is returned. */
  lemma {:induction false} FirstMatchWins<F>(table: seq<Plugin<F>>, i: nat, j: nat)
    requires i < j < |table| && table[i].name == table[j].name
    requires NoneNamedBefore(table, table[i].name, i)
    ensures Find(table, table[j].name) == Some(table[i])
    decreases i
  {
    if i > 0 {
      assert table[0].name != table[i].name;
      assert NoneNamedBefore(table[1..], table[i].name, i - 1);
      FirstMatchWins(table[1..], i - 1, j - 1);
    }
  }
}
