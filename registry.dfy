/**
 * The sheet-name map both revisions fill while walking the workbook manifest:
 * `sheetsByName[name] = sheet` once per declared sheet, in declaration order,
 * so a later sheet with the same name replaces an earlier one.
 */
module Registry {

  /** For each declared name, the position of its last declaration. */
  function NameTable(names: seq<string>): (t: map<string, nat>)
    ensures forall n :: n in t <==> n in names
    ensures forall n :: n in t ==> t[n] < |names| && names[t[n]] == n
  {
    if names == [] then map[] else NameTable(names[..|names| - 1])[names[|names| - 1] := |names| - 1]
  }

  /** The position a name maps to is its last declaration: no later position holds it. */
  lemma {:induction false} NameTableLast(names: seq<string>, n: string, j: int)
    requires n in NameTable(names) && NameTable(names)[n] < j < |names|
    ensures names[j] != n
  {
    var init := names[..|names| - 1];
    if j < |names| - 1 {
      assert names[|names| - 1] != n;
      assert init[j] == names[j];
      NameTableLast(init, n, j);
    }
  }

  /** No name is declared twice. */
  predicate Distinct(names: seq<string>) {
    forall i, j :: 0 <= i < j < |names| ==> names[i] != names[j]
  }

  /** With distinct names, each name leads back to its own position. */
  lemma NameTableOfDistinct(names: seq<string>, i: nat)
    requires Distinct(names) && i < |names|
    ensures NameTable(names)[names[i]] == i
  {
    assert names[i] in names;
  }

  lemma DistinctSnoc(init: seq<string>, last: string)
    ensures Distinct(init + [last]) <==> Distinct(init) && last !in init
  {
    var names := init + [last];
    if Distinct(init) && last !in init {
      forall i, j | 0 <= i < j < |names| ensures names[i] != names[j] {
        assert names[i] == init[i];
        if j < |init| {
          assert names[j] == init[j];
        }
      }
    }
    if Distinct(names) {
      forall i, j | 0 <= i < j < |init| ensures init[i] != init[j] {
        assert names[i] == init[i] && names[j] == init[j];
      }
      forall k | 0 <= k < |init| ensures init[k] != last {
        assert names[k] == init[k] && names[|init|] == last;
      }
    }
  }

  /**
   * The map has one entry per distinct name: never more entries than
   * declarations, and exactly as many when no name repeats.
   */
  lemma {:induction false} NameTableSize(names: seq<string>)
    ensures |NameTable(names)| <= |names|
    ensures |NameTable(names)| == |names| <==> Distinct(names)
  {
    if names != [] {
      var init, last := names[..|names| - 1], names[|names| - 1];
      assert names == init + [last];
      NameTableSize(init);
      DistinctSnoc(init, last);
      var t := NameTable(init);
      assert NameTable(names) == t[last := |names| - 1];
      assert last in t <==> last in init;
    }
  }

  /**
   * The name map after declaring `names`, one sheet object each: every declared
   * name, bound to the sheet of its last declaration.
   */
  ghost predicate NamesRegistered<S>(byName: map<string, S>, names: seq<string>, sheets: seq<S>)
    requires |sheets| == |names|
  {
    byName.Keys == NameTable(names).Keys &&
    forall n :: n in byName ==> byName[n] == sheets[NameTable(names)[n]]
  }

  /** One pass of a registration loop, `byName[name] = sheet`, keeps the name map consistent with the declarations. */
  lemma NamesRegisteredSnoc<S>(byName: map<string, S>, names: seq<string>, sheets: seq<S>, name: string, sheet: S)
    requires |sheets| == |names| && NamesRegistered(byName, names, sheets)
    ensures NamesRegistered(byName[name := sheet], names + [name], sheets + [sheet])
  {
    var names', sheets' := names + [name], sheets + [sheet];
    var byName' := byName[name := sheet];
    assert names'[..|names'| - 1] == names;
    var t, t' := NameTable(names), NameTable(names');
    assert t' == t[name := |names|];
    forall n | n in byName'
      ensures byName'[n] == sheets'[t'[n]]
    {
      if n != name {
        assert sheets'[t[n]] == sheets[t[n]];
      }
    }
  }

  /** A workbook key: Python ints select by position, anything else by name. */
  datatype SheetKey = IntKey(id: int) | NameKey(name: string)
}
