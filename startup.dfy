/**
 * What the module does when it loads: it registers every built-in
 * definition on the prototype under its export name, then the aliases of
 * `aliases.js`. The lemmas here show that none of these registrations can
 * trip the name checks, so loading never throws.
 */
module Startup {
  import opened Wrappers
  import opened JsValues
  import opened Definitions
  import opened Drivers
  import opened Scopes

  /** `aliases.js`: alias name, aliased validator, the options the alias starts with. */
  const BuiltinAliases: seq<(string, string, Options)> := [
    ("notEmptyStr", "str", map["minLength" := Num(1)]),
    ("positiveInt", "num", map["integer" := Bool(true), "rangeMin" := Num(1), "minEq" := Bool(true)])
  ]

  /** The names the first `k` built-in definitions occupy. */
  function EntryKeys(k: nat): set<string>
    requires k <= |BuiltinNames|
  {
    if k == 0 then {}
    else
      var n := BuiltinNames[k - 1];
      EntryKeys(k - 1) + {n, n + "Array", n + "Object"}
  }

  /** The names the first `k` built-in aliases occupy. */
  function AliasKeys(k: nat): set<string>
    requires k <= |BuiltinAliases|
  {
    if k == 0 then {}
    else
      var n := BuiltinAliases[k - 1].0;
      AliasKeys(k - 1) + {n, n + "Array", n + "Object"}
  }

  function Last(w: string): char
    requires |w| > 0
  {
    w[|w| - 1]
  }

  lemma EndsOfEntry(name: string, s: Shape)
    requires |name| > 0
    ensures |name + Suffix(s)| == |name| + |Suffix(s)|
    ensures (name + Suffix(s))[0] == name[0]
    ensures Last(name + Suffix(s)) == match s case Scalar => Last(name) case ArrayShape => 'y' case ObjectShape => 't'
  {
  }

  /** The nine export names of `definitions.js` are pairwise different. */
  lemma NamesDistinct(i: nat, j: nat)
    requires i < |BuiltinNames| && j < |BuiltinNames| && BuiltinNames[i] == BuiltinNames[j]
    ensures i == j
  {
  }

  /** Two entry names of built-in definitions are equal only when they are the same entry point. */
  lemma EntryNamesDistinct(i: nat, s: Shape, j: nat, t: Shape)
    requires i < |BuiltinNames| && j < |BuiltinNames|
    requires BuiltinNames[i] + Suffix(s) == BuiltinNames[j] + Suffix(t)
    ensures i == j && s == t
  {
    var a, b := BuiltinNames[i], BuiltinNames[j];
    if s == t {
      assert a == (a + Suffix(s))[..|a|];
      assert b == (b + Suffix(t))[..|b|];
      NamesDistinct(i, j);
    } else {
      ShapesApart(i, s, j, t);
    }
  }

  /** Entry names of built-in definitions for two different shapes never meet. */
  lemma ShapesApart(i: nat, s: Shape, j: nat, t: Shape)
    requires i < |BuiltinNames| && j < |BuiltinNames| && s != t
    ensures BuiltinNames[i] + Suffix(s) != BuiltinNames[j] + Suffix(t)
  {
    EndsOfEntry(BuiltinNames[i], s);
    EndsOfEntry(BuiltinNames[j], t);
  }

  /** No entry name of a built-in definition is a facade method or an inherited property. */
  lemma BuiltinNotReserved(i: nat, s: Shape)
    requires i < |BuiltinNames|
    ensures BuiltinNames[i] + Suffix(s) !in FacadeMembers + ObjectMembers
  {
    EndsOfEntry(BuiltinNames[i], s);
  }

  lemma {:induction false} BuiltinNotEarlier(i: nat, s: Shape, k: nat)
    requires k <= i < |BuiltinNames|
    ensures BuiltinNames[i] + Suffix(s) !in EntryKeys(k)
  {
    if k > 0 {
      BuiltinNotEarlier(i, s, k - 1);
      var n := BuiltinNames[k - 1];
      assert n + Suffix(Scalar) == n;
      forall t: Shape
        ensures BuiltinNames[i] + Suffix(s) != n + Suffix(t)
      {
        if BuiltinNames[i] + Suffix(s) == n + Suffix(t) {
          EntryNamesDistinct(i, s, k - 1, t);
        }
      }
      assert BuiltinNames[i] + Suffix(s) != n + Suffix(Scalar);
      assert BuiltinNames[i] + Suffix(s) != n + Suffix(ArrayShape);
      assert BuiltinNames[i] + Suffix(s) != n + Suffix(ObjectShape);
    }
  }

  /** The next built-in definition finds all three of its names free on the prototype. */
  lemma BuiltinFree(i: nat, entries: Entries)
    requires i < |BuiltinNames| && entries.Keys == EntryKeys(i)
    ensures BuiltinNames[i] != ""
    ensures forall s: Shape :: BuiltinNames[i] + Suffix(s) !in PrototypeTaken(entries)
  {
    forall s: Shape
      ensures BuiltinNames[i] + Suffix(s) !in PrototypeTaken(entries)
    {
      BuiltinNotReserved(i, s);
      BuiltinNotEarlier(i, s, i);
    }
  }

  /** The next built-in definition registers without a collision. */
  lemma BuiltinStep(i: nat, entries: Entries)
    requires i < |BuiltinNames| && entries.Keys == EntryKeys(i)
    ensures ValidatorAdded(entries, Str(BuiltinNames[i]), Fn(i), ToPrototype, PrototypeTaken(entries), false)
         == Ok(InstallDriver(entries, BuiltinNames[i], i))
  {
    BuiltinFree(i, entries);
    FreeNameInstalls(entries, BuiltinNames[i], i, ToPrototype, PrototypeTaken(entries), false);
  }


  /** No entry name of a built-in alias is a facade method or an inherited property. */
  lemma AliasNotReserved(i: nat, s: Shape)
    requires i < |BuiltinAliases|
    ensures BuiltinAliases[i].0 + Suffix(s) !in FacadeMembers + ObjectMembers
  {
    EndsOfEntry(BuiltinAliases[i].0, s);
  }

  /** No entry name of a built-in alias is an entry name of a built-in definition. */
  lemma AliasNotEntry(i: nat, s: Shape, j: nat, t: Shape)
    requires i < |BuiltinAliases| && j < |BuiltinNames|
    ensures BuiltinAliases[i].0 + Suffix(s) != BuiltinNames[j] + Suffix(t)
  {
    EndsOfEntry(BuiltinAliases[i].0, s);
    EndsOfEntry(BuiltinNames[j], t);
  }

  /** The names an alias of `aliases.js` installs collide with no built-in definition. */
  lemma {:induction false} AliasNotBuiltin(i: nat, s: Shape, k: nat)
    requires i < |BuiltinAliases| && k <= |BuiltinNames|
    ensures BuiltinAliases[i].0 + Suffix(s) !in EntryKeys(k)
  {
    if k > 0 {
      AliasNotBuiltin(i, s, k - 1);
      var n := BuiltinNames[k - 1];
      assert n + Suffix(Scalar) == n;
      AliasNotEntry(i, s, k - 1, Scalar);
      AliasNotEntry(i, s, k - 1, ArrayShape);
      AliasNotEntry(i, s, k - 1, ObjectShape);
    }
  }

  lemma AliasNotEarlierAlias(i: nat, s: Shape, k: nat)
    requires k <= i < |BuiltinAliases|
    ensures BuiltinAliases[i].0 + Suffix(s) !in AliasKeys(k)
  {
    var a := BuiltinAliases[i].0;
    EndsOfEntry(a, s);
    if k > 0 {
      var n := BuiltinAliases[k - 1].0;
      assert k == 1 && i == 1;
      assert n + Suffix(Scalar) == n;
      forall t: Shape
        ensures a + Suffix(s) != n + Suffix(t)
      {
        EndsOfEntry(n, t);
      }
    }
  }

  lemma {:induction false} InEntryKeys(i: nat, s: Shape, k: nat)
    requires i < k <= |BuiltinNames|
    ensures BuiltinNames[i] + Suffix(s) in EntryKeys(k)
  {
    var n := BuiltinNames[k - 1];
    assert n + Suffix(Scalar) == n;
    if i < k - 1 {
      InEntryKeys(i, s, k - 1);
    }
  }

  /**
   * The next alias of `aliases.js` finds the validator it aliases on the
   * prototype, and all three of its own names free.
   */
  lemma AliasReady(j: nat, entries: Entries)
    requires j < |BuiltinAliases| && entries.Keys == EntryKeys(|BuiltinNames|) + AliasKeys(j)
    ensures forall s: Shape :: BuiltinAliases[j].1 + Suffix(s) in PrototypeTaken(entries)
    ensures forall s: Shape :: BuiltinAliases[j].0 + Suffix(s) !in PrototypeTaken(entries)
  {
    forall s: Shape
      ensures BuiltinAliases[j].0 + Suffix(s) !in PrototypeTaken(entries)
    {
      AliasNotReserved(j, s);
      AliasNotBuiltin(j, s, |BuiltinNames|);
      AliasNotEarlierAlias(j, s, j);
    }
    forall s: Shape
      ensures BuiltinAliases[j].1 + Suffix(s) in PrototypeTaken(entries)
    {
      var k := if j == 0 then 3 else 2;
      assert BuiltinAliases[j].1 == BuiltinNames[k];
      InEntryKeys(k, s, |BuiltinNames|);
    }
  }

  /** The next built-in alias registers without a collision. */
  lemma AliasStep(j: nat, entries: Entries, cells: Cells)
    requires j < |BuiltinAliases| && AliasesAt(entries, cells, j)
    ensures var (a, u, o) := BuiltinAliases[j];
      AliasAdded(entries, cells, a, u, o, PrototypeTaken(entries), false) == Ok((InstallAlias(entries, a, u), cells[a := o]))
  {
    var (a, u, o) := BuiltinAliases[j];
    AliasReady(j, entries);
    FreeAliasInstalls(entries, cells, a, u, o, PrototypeTaken(entries), false);
  }

  // ---------------------------------------------------------------------------
  // The table once the module has loaded
  // ---------------------------------------------------------------------------

  /** The first `k` built-in definitions sit under their names for shape `s`, driving that shape. */
  ghost predicate DriversUpTo(entries: Entries, k: nat, s: Shape) {
    forall i :: 0 <= i < k && i < |BuiltinNames| ==> HasDriver(entries, i, s)
  }

  ghost predicate HasDriver(entries: Entries, i: nat, s: Shape)
    requires i < |BuiltinNames|
  {
    BuiltinNames[i] + Suffix(s) in entries && entries[BuiltinNames[i] + Suffix(s)] == Driver(s, i)
  }

  ghost predicate BuiltinsUpTo(entries: Entries, k: nat) {
    DriversUpTo(entries, k, Scalar) && DriversUpTo(entries, k, ArrayShape) && DriversUpTo(entries, k, ObjectShape)
  }

  /** The first `k` aliases of `aliases.js` sit under their names for shape `s`, forwarding to that shape. */
  ghost predicate ForwardsUpTo(entries: Entries, k: nat, s: Shape) {
    forall j :: 0 <= j < k && j < |BuiltinAliases| ==> HasForward(entries, j, s)
  }

  ghost predicate HasForward(entries: Entries, j: nat, s: Shape)
    requires j < |BuiltinAliases|
  {
    && BuiltinAliases[j].0 + Suffix(s) in entries
    && entries[BuiltinAliases[j].0 + Suffix(s)] == AliasFor(s, BuiltinAliases[j].0, BuiltinAliases[j].1)
  }

  ghost predicate AliasesUpTo(entries: Entries, k: nat) {
    ForwardsUpTo(entries, k, Scalar) && ForwardsUpTo(entries, k, ArrayShape) && ForwardsUpTo(entries, k, ObjectShape)
  }

  /** The cells of the first `k` aliases hold their starting options, and no other cell exists. */
  ghost predicate CellsUpTo(cells: Cells, k: nat) {
    && cells.Keys == (set j | 0 <= j < k && j < |BuiltinAliases| :: BuiltinAliases[j].0)
    && forall j :: 0 <= j < k && j < |BuiltinAliases| ==> HasCell(cells, j)
  }

  ghost predicate HasCell(cells: Cells, j: nat)
    requires j < |BuiltinAliases|
  {
    BuiltinAliases[j].0 in cells && cells[BuiltinAliases[j].0] == BuiltinAliases[j].2
  }

  /** The table after `k` turns of the registration loop: exactly the first `k` built-ins. */
  ghost predicate BuiltinsAt(entries: Entries, k: nat)
    requires k <= |BuiltinNames|
  {
    entries.Keys == EntryKeys(k) && BuiltinsUpTo(entries, k)
  }

  /** The table and cells after `k` turns of the alias loop: the built-ins and the first `k` aliases. */
  ghost predicate AliasesAt(entries: Entries, cells: Cells, k: nat)
    requires k <= |BuiltinAliases|
  {
    && entries.Keys == EntryKeys(|BuiltinNames|) + AliasKeys(k)
    && BuiltinsUpTo(entries, |BuiltinNames|)
    && AliasesUpTo(entries, k)
    && CellsUpTo(cells, k)
  }

  /**
   * The prototype's table and alias cells right after loading: the built-ins
   * and the built-in aliases under their names, and nothing else.
   */
  ghost predicate Loaded(entries: Entries, cells: Cells) {
    AliasesAt(entries, cells, |BuiltinAliases|)
  }

  /** Registering the next built-in keeps the earlier ones' drivers of shape `s` and adds its own. */
  lemma DriverStep(entries: Entries, i: nat, s: Shape)
    requires i < |BuiltinNames| && DriversUpTo(entries, i, s)
    ensures DriversUpTo(InstallDriver(entries, BuiltinNames[i], i), i + 1, s)
  {
    var n := BuiltinNames[i];
    var r := InstallDriver(entries, n, i);
    forall k | 0 <= k < i + 1
      ensures HasDriver(r, k, s)
    {
      if k < i {
        var x := BuiltinNames[k] + Suffix(s);
        forall t: Shape
          ensures x != n + Suffix(t)
        {
          if x == n + Suffix(t) {
            EntryNamesDistinct(k, s, i, t);
          }
        }
        assert n + Suffix(Scalar) == n;
        assert x != n + Suffix(ArrayShape) && x != n + Suffix(ObjectShape);
        assert HasDriver(entries, k, s);
      }
    }
  }

  /** One turn of the registration loop: the table holds one more built-in. */
  lemma BuiltinsStep(entries: Entries, i: nat)
    requires i < |BuiltinNames| && BuiltinsAt(entries, i)
    ensures BuiltinsAt(InstallDriver(entries, BuiltinNames[i], i), i + 1)
  {
    DriverStep(entries, i, Scalar);
    DriverStep(entries, i, ArrayShape);
    DriverStep(entries, i, ObjectShape);
  }

  /** Installing a built-in alias leaves the built-in drivers of shape `s` in place. */
  lemma AliasKeepsDrivers(entries: Entries, j: nat, s: Shape)
    requires j < |BuiltinAliases| && DriversUpTo(entries, |BuiltinNames|, s)
    ensures DriversUpTo(InstallAlias(entries, BuiltinAliases[j].0, BuiltinAliases[j].1), |BuiltinNames|, s)
  {
    var a := BuiltinAliases[j].0;
    var r := InstallAlias(entries, a, BuiltinAliases[j].1);
    forall i | 0 <= i < |BuiltinNames|
      ensures HasDriver(r, i, s)
    {
      var k := BuiltinNames[i] + Suffix(s);
      InEntryKeys(i, s, |BuiltinNames|);
      AliasNotEntry(j, Scalar, i, s);
      AliasNotEntry(j, ArrayShape, i, s);
      AliasNotEntry(j, ObjectShape, i, s);
      assert a + Suffix(Scalar) == a;
      assert k != a && k != a + "Array" && k != a + "Object";
      assert HasDriver(entries, i, s);
    }
  }

  /** Installing the next built-in alias keeps the earlier aliases' entries of shape `s` and adds its own. */
  lemma ForwardStep(entries: Entries, j: nat, s: Shape)
    requires j < |BuiltinAliases| && ForwardsUpTo(entries, j, s)
    ensures ForwardsUpTo(InstallAlias(entries, BuiltinAliases[j].0, BuiltinAliases[j].1), j + 1, s)
  {
    var a := BuiltinAliases[j].0;
    var r := InstallAlias(entries, a, BuiltinAliases[j].1);
    forall k | 0 <= k < j + 1
      ensures HasForward(r, k, s)
    {
      if k < j {
        var a0 := BuiltinAliases[0].0;
        assert k == 0 && j == 1;
        AliasNotEarlierAlias(1, Scalar, 1);
        AliasNotEarlierAlias(1, ArrayShape, 1);
        AliasNotEarlierAlias(1, ObjectShape, 1);
        assert a + Suffix(Scalar) == a && a0 + Suffix(Scalar) == a0;
        assert AliasKeys(1) == {a0, a0 + "Array", a0 + "Object"};
        assert a0 + Suffix(s) in AliasKeys(1);
        assert HasForward(entries, k, s);
      }
    }
  }

  /** Recording the next built-in alias's options keeps the earlier cells. */
  lemma CellStep(cells: Cells, j: nat)
    requires j < |BuiltinAliases| && CellsUpTo(cells, j)
    ensures CellsUpTo(cells[BuiltinAliases[j].0 := BuiltinAliases[j].2], j + 1)
  {
    assert BuiltinAliases[0].0[0] != BuiltinAliases[1].0[0];
    var r := cells[BuiltinAliases[j].0 := BuiltinAliases[j].2];
    forall k | 0 <= k < j + 1
      ensures HasCell(r, k)
    {
      if k < j {
        assert HasCell(cells, k);
      }
    }
    assert (set k | 0 <= k < j + 1 && k < |BuiltinAliases| :: BuiltinAliases[k].0)
        == (set k | 0 <= k < j && k < |BuiltinAliases| :: BuiltinAliases[k].0) + {BuiltinAliases[j].0};
  }

  /** Before the alias loop: the built-ins alone, and no cells. */
  lemma AliasesStart(entries: Entries, cells: Cells)
    requires BuiltinsAt(entries, |BuiltinNames|) && cells == map[]
    ensures AliasesAt(entries, cells, 0)
  {
    assert AliasKeys(0) == {};
  }

  /** One turn of the alias loop: the table and the cells hold one more alias, and the built-ins stay. */
  lemma AliasesStep(entries: Entries, cells: Cells, j: nat)
    requires j < |BuiltinAliases| && AliasesAt(entries, cells, j)
    ensures AliasesAt(InstallAlias(entries, BuiltinAliases[j].0, BuiltinAliases[j].1), cells[BuiltinAliases[j].0 := BuiltinAliases[j].2], j + 1)
  {
    AliasKeepsDrivers(entries, j, Scalar);
    AliasKeepsDrivers(entries, j, ArrayShape);
    AliasKeepsDrivers(entries, j, ObjectShape);
    ForwardStep(entries, j, Scalar);
    ForwardStep(entries, j, ArrayShape);
    ForwardStep(entries, j, ObjectShape);
    CellStep(cells, j);
  }
}
