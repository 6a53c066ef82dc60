/** The consistency the library's bookkeeping maintains, which operations keep
    it, and how `replace` departs from it. */
module Invariants {
  import opened Results
  import opened Decimal
  import opened Seqs
  import opened Materials
  import opened MaterialLibrary

  /** The three name structures agree: the map's keys, the key set and the
      name order hold the same names, and the order lists each once. */
  ghost predicate Synced(lib: Library) {
    && lib.materials.Keys == lib.keylist
    && (forall k :: k in lib.nameOrder <==> k in lib.keylist)
    && NoDup(lib.nameOrder)
  }

  /** The nuclide registry holds every nuclide of every stored material. */
  ghost predicate NuclidesCovered(lib: Library) {
    forall k :: k in lib.materials ==> lib.materials[k].comp.Keys <= lib.nuclist
  }

  /** A positive integer material number is in the number registry. */
  predicate NumberRegistered(m: Material, numbers: set<int>) {
    NumberKey in m.metadata && m.metadata[NumberKey].Int? && m.metadata[NumberKey].i > 0 ==>
      m.metadata[NumberKey].i in numbers
  }

  /** Every stored material's positive number is registered. */
  ghost predicate NumbersRegistered(lib: Library) {
    forall k :: k in lib.materials ==> NumberRegistered(lib.materials[k], lib.matNumbers)
  }

  /** Every stored material is named and has an `int` number, if any. */
  ghost predicate EntriesWellFormed(lib: Library) {
    forall k :: k in lib.materials ==> WellFormed(lib.materials[k])
  }

  ghost predicate Valid(lib: Library) {
    && Synced(lib)
    && NuclidesCovered(lib)
    && NumbersRegistered(lib)
    && EntriesWellFormed(lib)
  }

  lemma EmptyLibraryValid()
    ensures Valid(EmptyLibrary)
  {
  }

  /** `add_material(key, mat)` keeps the library consistent. */
  lemma AddMaterialKeyedPreservesValid(lib: Library, key: string, mat: Material)
    requires Valid(lib)
    requires AddMaterialKeyed(lib, key, mat).Ok?
    ensures Valid(AddMaterialKeyed(lib, key, mat).value)
  {
    var r := AddMaterialKeyed(lib, key, mat).value;
    var stored := Normalize(key, mat).value;
    assert r.materials == lib.materials[key := stored] by {
      forall k ensures k in r.materials <==> k in lib.materials[key := stored] {
        assert GetMaterialPtr(r, k) == GetMaterialPtr(lib.(materials := lib.materials[key := stored]), k);
      }
    }
    if key !in lib.keylist {
      assert r.nameOrder == lib.nameOrder + [key];
      forall i, j | 0 <= i < j < |r.nameOrder| ensures r.nameOrder[i] != r.nameOrder[j] {
        if j == |lib.nameOrder| {
          assert r.nameOrder[i] == lib.nameOrder[i];
        } else {
          assert r.nameOrder[i] == lib.nameOrder[i] && r.nameOrder[j] == lib.nameOrder[j];
        }
      }
    }
    assert NumberRegistered(stored, r.matNumbers);
    forall k | k in r.materials ensures NumberRegistered(r.materials[k], r.matNumbers) {
      if k != key {
        assert NumberRegistered(lib.materials[k], lib.matNumbers);
      }
    }
  }

  /** `add_material(mat)` keeps the library consistent. */
  lemma AddMaterialPreservesValid(lib: Library, mat: Material)
    requires Valid(lib)
    requires AddMaterial(lib, mat).Ok?
    ensures Valid(AddMaterial(lib, mat).value)
  {
    var (key, named) := AutoName(lib, mat).value;
    AddMaterialKeyedPreservesValid(lib, key, named);
  }

  /** `del_material(key)` keeps the library consistent. */
  lemma DelMaterialPreservesValid(lib: Library, key: string)
    requires Valid(lib)
    ensures Valid(DelMaterial(lib, key))
  {
    var r := DelMaterial(lib, key);
    DelMaterialEntries(lib, key);
    DelMaterialOrder(lib, key);
  }

  lemma DelMaterialEntries(lib: Library, key: string)
    ensures DelMaterial(lib, key).materials == lib.materials - {key}
  {
    var r := DelMaterial(lib, key);
    forall k ensures k in r.materials <==> k in lib.materials - {key} {
      if k != key {
        assert GetMaterialPtr(r, k) == GetMaterialPtr(lib, k);
      } else {
        assert GetMaterialPtr(r, k) == None;
      }
    }
  }

  lemma DelMaterialOrder(lib: Library, key: string)
    requires Synced(lib)
    ensures NoDup(DelMaterial(lib, key).nameOrder)
    ensures forall k :: k in DelMaterial(lib, key).nameOrder <==> k in lib.keylist - {key}
  {
    RemoveFirstNoDup(lib.nameOrder, key);
  }

  /** `del_material(mat)` keeps the library consistent. */
  lemma DelMaterialByMatPreservesValid(lib: Library, mat: Material)
    requires Valid(lib)
    requires DelMaterialByMat(lib, mat).Ok?
    ensures Valid(DelMaterialByMat(lib, mat).value)
  {
    if NameKey in mat.metadata {
      DelMaterialPreservesValid(lib, AsString(mat.metadata[NameKey]).value);
    }
  }

  /** Adding twice under one key leaves one entry, holding the second
      material, at the position the first add gave it. */
  lemma {:induction false} OverwriteKeepsPosition(lib: Library, key: string, m1: Material, m2: Material)
    requires Valid(lib)
    requires AddMaterialKeyed(lib, key, m1).Ok?
    requires AddMaterialKeyed(AddMaterialKeyed(lib, key, m1).value, key, m2).Ok?
    ensures var r1 := AddMaterialKeyed(lib, key, m1).value;
      var r2 := AddMaterialKeyed(r1, key, m2).value;
      && key in r1.nameOrder
      && r2.nameOrder == r1.nameOrder
      && NoDup(r2.nameOrder)
      && IndexOf(r2.nameOrder, key) == IndexOf(r1.nameOrder, key)
      && (key !in lib.keylist ==> IndexOf(r2.nameOrder, key) == |lib.nameOrder|)
      && (key in lib.keylist ==> IndexOf(r2.nameOrder, key) == IndexOf(lib.nameOrder, key))
      && r2.materials[key] == Normalize(key, m2).value
  {
    var r1 := AddMaterialKeyed(lib, key, m1).value;
    AddMaterialKeyedPreservesValid(lib, key, m1);
    var r2 := AddMaterialKeyed(r1, key, m2).value;
    assert GetMaterialPtr(r2, key) == Some(Normalize(key, m2).value);
    if key !in lib.keylist {
      assert r1.nameOrder == lib.nameOrder + [key];
      assert r1.nameOrder[|lib.nameOrder|] == key;
      assert key !in r1.nameOrder[..|lib.nameOrder|];
    }
  }

  /** Deleting a key just added undoes the add, except for the registries,
      which keep what the add put in them. */
  lemma {:induction false} DeleteUndoesAdd(lib: Library, key: string, mat: Material)
    requires Synced(lib)
    requires key !in lib.keylist
    requires AddMaterialKeyed(lib, key, mat).Ok?
    ensures var r := AddMaterialKeyed(lib, key, mat).value;
      && DelMaterial(r, key) == lib.(nuclist := r.nuclist, matNumbers := r.matNumbers)
      && lib.nuclist <= r.nuclist && lib.matNumbers <= r.matNumbers
  {
    var r := AddMaterialKeyed(lib, key, mat).value;
    var d := DelMaterial(r, key);
    assert r.nameOrder == lib.nameOrder + [key];
    assert IndexOf(r.nameOrder, key) == |lib.nameOrder|;
    assert d.nameOrder == lib.nameOrder;
    assert d.materials == lib.materials by {
      forall k ensures k in d.materials <==> k in lib.materials {
        if k != key {
          assert GetMaterialPtr(d, k) == GetMaterialPtr(r, k) == GetMaterialPtr(lib, k);
        } else {
          assert GetMaterialPtr(d, k) == None;
        }
      }
      forall k | k in d.materials ensures d.materials[k] == lib.materials[k] {
        assert GetMaterialPtr(d, k) == GetMaterialPtr(r, k) == GetMaterialPtr(lib, k);
      }
    }
  }

  /** After `del_material(key)`, `get_material(key)` is empty and, in a
      consistent library, the key is gone from the name order. */
  lemma DeleteThenGet(lib: Library, key: string)
    requires Synced(lib)
    ensures GetMaterial(DelMaterial(lib, key), key) == EmptyMaterial
    ensures key !in DelMaterial(lib, key).nameOrder
  {
    RemoveFirstNoDup(lib.nameOrder, key);
  }

  /** `replace` keeps the name structures in step exactly when the slot keeps
      its name: a rename leaves the old name in the key set with no entry. */
  lemma ReplaceSyncedIff(lib: Library, num: int, mat: Material)
    requires Synced(lib)
    requires 0 <= num < |lib.nameOrder|
    requires Replace(lib, num, mat).failure.None?
    ensures Synced(Replace(lib, num, mat).lib) <==> Replace(lib, num, mat).lib.nameOrder[num] == lib.nameOrder[num]
  {
    var r := Replace(lib, num, mat).lib;
    var prior := lib.nameOrder[num];
    if r.nameOrder[num] == prior {
      assert r.nameOrder == lib.nameOrder;
      assert r.materials.Keys == lib.materials.Keys by {
        forall k ensures k in r.materials <==> k in lib.materials {
          if k != prior {
            assert GetMaterialPtr(r, k) == GetMaterialPtr(lib, k);
          }
        }
      }
    } else {
      assert prior in r.keylist && prior !in r.materials;
    }
  }

  /** Renaming a slot to a name held by another slot duplicates that name in
      the name order. */
  lemma ReplaceCanDuplicate(lib: Library, num: int, j: int, mat: Material)
    requires 0 <= num < |lib.nameOrder| && 0 <= j < |lib.nameOrder| && j != num
    requires NameKey in mat.metadata && mat.metadata[NameKey] == Str(lib.nameOrder[j])
    ensures Replace(lib, num, mat).failure.None?
    ensures !NoDup(Replace(lib, num, mat).lib.nameOrder)
  {
    var r := Replace(lib, num, mat).lib;
    assert r.nameOrder[num] == r.nameOrder[j];
  }

  /** A duplicate made by `replace` outlives `del_material`: the name stays in
      the name order with no entry behind it. */
  lemma ReplaceThenDeleteDangles(lib: Library, num: int, j: int, mat: Material)
    requires 0 <= num < |lib.nameOrder| && 0 <= j < |lib.nameOrder| && j != num
    requires NameKey in mat.metadata && mat.metadata[NameKey] == Str(lib.nameOrder[j])
    ensures Replace(lib, num, mat).failure.None?
    ensures var d := DelMaterial(Replace(lib, num, mat).lib, lib.nameOrder[j]);
      lib.nameOrder[j] in d.nameOrder && lib.nameOrder[j] !in d.materials
  {
    var name := lib.nameOrder[j];
    var r := Replace(lib, num, mat).lib;
    var d := DelMaterial(r, name);
    var k := IndexOf(r.nameOrder, name);
    var other := if k == num then j else num;
    assert r.nameOrder[other] == name && other != k;
    IndexOfFirst(r.nameOrder, name, other);
    RemoveFirstIndex(r.nameOrder, k, d.nameOrder);
    assert d.nameOrder[other - 1] == name;
  }

  /** A name `asString` cannot convert makes `replace` throw after it has
      erased the slot's entry: the old name stays in the key set and the name
      order with nothing behind it. */
  lemma ReplaceThrowDangles(lib: Library, num: int, mat: Material)
    requires Synced(lib)
    requires 0 <= num < |lib.nameOrder|
    requires NameKey in mat.metadata && mat.metadata[NameKey] == Other(None)
    ensures Replace(lib, num, mat).failure == Some(NotConvertible)
    ensures var r := Replace(lib, num, mat).lib; var prior := lib.nameOrder[num];
      && r.nameOrder == lib.nameOrder
      && prior in r.keylist
      && GetMaterialPtr(r, prior) == None
      && !Synced(r)
  {
    var r := Replace(lib, num, mat).lib;
    assert lib.nameOrder[num] in r.keylist;
  }

  /** `replace` does not register the new material's nuclides. */
  lemma ReplaceCanUncoverNuclides(lib: Library, num: int, mat: Material, z: int)
    requires 0 <= num < |lib.nameOrder|
    requires Replace(lib, num, mat).failure.None?
    requires z in mat.comp && z !in lib.nuclist
    ensures !NuclidesCovered(Replace(lib, num, mat).lib)
  {
    var r := Replace(lib, num, mat).lib;
    assert z in r.materials[r.nameOrder[num]].comp;
  }
}
