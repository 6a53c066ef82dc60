/** The names `add_material(mat)` invents for materials without a `"name"`:
    `"_"` followed by the material number, or by the number of keys when the
    material has no number. */
module AutoNaming {
  import opened Results
  import opened Decimal
  import opened Seqs
  import opened Materials
  import opened MaterialLibrary

  lemma AutoKeyInjective(a: int, b: int)
    ensures AutoKey(a) == AutoKey(b) ==> a == b
  {
    if AutoKey(a) == AutoKey(b) {
      assert AutoKey(a)[1..] == IntToString(a);
      assert AutoKey(b)[1..] == IntToString(b);
      IntToStringInjective(a, b);
    }
  }

  /** The automatic names `"_n"`, `"_(n+1)"`, ... for `count` rows. */
  function AutoNames(start: int, count: nat): (names: seq<string>)
    ensures |names| == count
    decreases count
  {
    if count == 0 then [] else [AutoKey(start)] + AutoNames(start + 1, count - 1)
  }

  lemma AutoNamesUnfold(start: int, count: nat)
    requires count > 0
    ensures AutoNames(start, count) == [AutoKey(start)] + AutoNames(start + 1, count - 1)
  {
  }

  /** The i-th automatic name is the one for number `start + i`. */
  lemma {:induction false} AutoNamesAt(start: int, count: nat, i: int)
    requires 0 <= i < count
    ensures AutoNames(start, count)[i] == AutoKey(start + i)
    decreases count
  {
    if i > 0 {
      var rest := AutoNames(start + 1, count - 1);
      assert AutoNames(start, count)[i] == rest[i - 1];
      AutoNamesAt(start + 1, count - 1, i - 1);
      var n := start + 1 + (i - 1);
      assert n == start + i;
    }
  }

  /** Automatic names for distinct numbers are distinct. */
  lemma AutoNamesDistinct(start: int, count: nat)
    ensures NoDup(AutoNames(start, count))
  {
    var names := AutoNames(start, count);
    forall i, j | 0 <= i < j < count ensures names[i] != names[j] {
      AutoNamesAt(start, count, i);
      AutoNamesAt(start, count, j);
      AutoKeyInjective(start + i, start + j);
    }
  }

  /** A material with neither a name nor a number: `add_material(mat)`
      names it after the number of keys. An explicit number -1 counts as none. */
  predicate Anonymous(mat: Material) {
    NameKey !in mat.metadata && NumberOf(mat) == Ok(-1)
  }

  /** None of the automatic names `"_n"` ... `"_(n+count-1)"` is taken. */
  predicate AutoNamesFree(keys: set<string>, n: int, count: int)
    decreases count
  {
    count <= 0 || (AutoKey(n) !in keys && AutoNamesFree(keys, n + 1, count - 1))
  }

  /** `add_material(mat)` of a material with neither a name nor a number,
      into a library with fewer than 2^31 keys, registers it under `"_"` and
      the number of keys. */
  lemma AddUnnamed(lib: Library, mat: Material)
    requires Anonymous(mat)
    requires |lib.keylist| <= IntMax
    ensures AddMaterial(lib, mat).Ok?
    ensures AutoName(lib, mat).value.0 == AutoKey(|lib.keylist|)
    ensures var r := AddMaterial(lib, mat).value; var key := AutoKey(|lib.keylist|);
      && r.keylist == lib.keylist + {key}
      && r.nameOrder == (if key in lib.keylist then lib.nameOrder else lib.nameOrder + [key])
  {
  }

  /** Taking the name `"_n"` leaves the later automatic names free. */
  lemma AutoKeysStillFree(keys: set<string>, after: set<string>, n: int, count: int)
    requires AutoNamesFree(keys, n, count) && after == keys + {AutoKey(n)}
    ensures AutoNamesFree(after, n + 1, count - 1)
  {
    if count > 0 {
      FreeAfterTaking(keys, n, n + 1, count - 1);
    }
  }

  /** Taking `"_n"` does not take any `"_m"` with m > n. */
  lemma {:induction false} FreeAfterTaking(keys: set<string>, n: int, m: int, count: int)
    requires n < m && AutoNamesFree(keys, m, count)
    ensures AutoNamesFree(keys + {AutoKey(n)}, m, count)
    decreases count
  {
    if count > 0 {
      AutoKeyInjective(m, n);
      FreeAfterTaking(keys, n, m + 1, count - 1);
    }
  }

  /** Automatic names are not unique once keys are deleted: two unnamed adds
      make `"_0"` and `"_1"`; after deleting `"_0"`, the next unnamed add is
      named `"_1"` again and overwrites the second material. */
  lemma AutoNameReusedAfterDelete(first: Material, second: Material, third: Material)
    requires Anonymous(first) && Anonymous(second) && Anonymous(third)
    ensures AddMaterial(EmptyLibrary, first).Ok?
    ensures AddMaterial(AddMaterial(EmptyLibrary, first).value, second).Ok?
    ensures var l3 := DelMaterial(AddMaterial(AddMaterial(EmptyLibrary, first).value, second).value, "_0");
      && AddMaterial(l3, third).Ok?
      && AutoName(l3, third).value.0 == "_1"
      && "_1" in l3.keylist
      && AddMaterial(l3, third).value.nameOrder == ["_1"]
  {
    assert AutoKey(0) == "_0" && AutoKey(1) == "_1";
    AddUnnamed(EmptyLibrary, first);
    var l1 := AddMaterial(EmptyLibrary, first).value;
    assert l1.keylist == {"_0"} && l1.nameOrder == ["_0"];
    AddUnnamed(l1, second);
    var l2 := AddMaterial(l1, second).value;
    assert l2.keylist == {"_0", "_1"} && l2.nameOrder == ["_0", "_1"];
    var l3 := DelMaterial(l2, "_0");
    assert l3.keylist == {"_1"};
    assert l3.nameOrder == ["_1"];
    AddUnnamed(l3, third);
  }
}
