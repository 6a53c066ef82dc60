/** The library operations that are loops of adds: `merge`, `load_json`, the
    row loop of `from_hdf5`; and `dump_json`, their inverse for the JSON form. */
module Batches {
  import opened Results
  import opened Decimal
  import opened Seqs
  import opened Ordering
  import opened Materials
  import opened MaterialLibrary
  import opened Invariants

  /** The keys of a batch of (key, material) pairs, in batch order. */
  function Keys(batch: seq<(string, Material)>): (ks: seq<string>)
    ensures |ks| == |batch|
    ensures forall i :: 0 <= i < |batch| ==> ks[i] == batch[i].0
    decreases |batch|
  {
    if |batch| == 0 then [] else [batch[0].0] + Keys(batch[1..])
  }

  /** `add_material(key, mat)` for each pair in turn, stopping at the first
      exception. */
  function AddEach(lib: Library, batch: seq<(string, Material)>): (r: Applied)
    ensures r.failure.None? <==> forall i :: 0 <= i < |batch| ==> NumberOf(batch[i].1).Ok?
    ensures lib.keylist <= r.lib.keylist && lib.nuclist <= r.lib.nuclist && lib.matNumbers <= r.lib.matNumbers
    ensures |lib.nameOrder| <= |r.lib.nameOrder| && r.lib.nameOrder[..|lib.nameOrder|] == lib.nameOrder
    decreases |batch|
  {
    if |batch| == 0 then Applied(lib, None)
    else
      match AddMaterialKeyed(lib, batch[0].0, batch[0].1)
      case Err(e) => Applied(lib, Some(e))
      case Ok(next) =>
        var r := AddEach(next, batch[1..]);
        assert forall i :: 1 <= i < |batch| ==> batch[i] == batch[1..][i - 1];
        AddStepNames(lib, batch[0].0, batch[0].1);
        assert next.nameOrder[..|lib.nameOrder|] == lib.nameOrder;
        PrefixTrans(lib.nameOrder, next.nameOrder, r.lib.nameOrder);
        r
  }

  /** The keys of `ks` a loop of adds appends to the name order, given the keys
      `known` beforehand: each key not yet seen, at its first occurrence. */
  function Fresh(ks: seq<string>, known: set<string>): (r: seq<string>)
    ensures forall k :: k in r <==> k in ks && k !in known
    ensures NoDup(r)
    decreases |ks|
  {
    if |ks| == 0 then []
    else
      var rest := Fresh(ks[1..], known + {ks[0]});
      if ks[0] in known then rest else [ks[0]] + rest
  }

  /** One add of a loop, seen from the loop: the rest of the loop runs on the
      state the add produced. */
  lemma AddEachStep(lib: Library, batch: seq<(string, Material)>)
    requires |batch| > 0 && AddMaterialKeyed(lib, batch[0].0, batch[0].1).Ok?
    ensures AddEach(lib, batch) == AddEach(AddMaterialKeyed(lib, batch[0].0, batch[0].1).value, batch[1..])
  {
  }

  lemma AddStepNames(lib: Library, key: string, mat: Material)
    requires AddMaterialKeyed(lib, key, mat).Ok?
    ensures var next := AddMaterialKeyed(lib, key, mat).value;
      && next.keylist == lib.keylist + {key}
      && next.nameOrder == lib.nameOrder + (if key in lib.keylist then [] else [key])
  {
  }

  lemma FreshCons(k: string, ks: seq<string>, known: set<string>)
    ensures Fresh([k] + ks, known) == (if k in known then [] else [k]) + Fresh(ks, known + {k})
  {
    assert ([k] + ks)[1..] == ks;
  }

  /** A loop of adds that cannot fail adds the batch's keys to the key set. */
  lemma {:induction false} AddEachKeylist(lib: Library, batch: seq<(string, Material)>)
    requires forall i :: 0 <= i < |batch| ==> NumberOf(batch[i].1).Ok?
    ensures forall k :: k in AddEach(lib, batch).lib.keylist <==> k in lib.keylist || k in Keys(batch)
    decreases |batch|
  {
    if |batch| > 0 {
      var key := batch[0].0;
      assert NumberOf(batch[0].1).Ok?;
      var next := AddMaterialKeyed(lib, key, batch[0].1).value;
      var tail := batch[1..];
      assert forall i :: 0 <= i < |tail| ==> NumberOf(tail[i].1).Ok? by {
        forall i | 0 <= i < |tail| ensures NumberOf(tail[i].1).Ok? {
          assert tail[i] == batch[i + 1];
        }
      }
      AddEachKeylist(next, tail);
      AddEachStep(lib, batch);
      AddStepNames(lib, key, batch[0].1);
    }
  }

  /** A loop of adds that cannot fail appends the batch's fresh keys to the
      name order, in batch order. */
  lemma {:induction false} AddEachOrder(lib: Library, batch: seq<(string, Material)>)
    requires forall i :: 0 <= i < |batch| ==> NumberOf(batch[i].1).Ok?
    ensures AddEach(lib, batch).lib.nameOrder == lib.nameOrder + Fresh(Keys(batch), lib.keylist)
    decreases |batch|
  {
    if |batch| > 0 {
      var key := batch[0].0;
      assert NumberOf(batch[0].1).Ok?;
      var next := AddMaterialKeyed(lib, key, batch[0].1).value;
      var tail := batch[1..];
      assert forall i :: 0 <= i < |tail| ==> NumberOf(tail[i].1).Ok? by {
        forall i | 0 <= i < |tail| ensures NumberOf(tail[i].1).Ok? {
          assert tail[i] == batch[i + 1];
        }
      }
      AddEachOrder(next, tail);
      AddEachStep(lib, batch);
      AddStepNames(lib, key, batch[0].1);
      FreshCons(key, Keys(tail), lib.keylist);
      var added := if key in lib.keylist then [] else [key];
      var order := AddEach(lib, batch).lib.nameOrder;
      assert order == (lib.nameOrder + added) + Fresh(Keys(tail), lib.keylist + {key}) by {
        assert order == AddEach(next, tail).lib.nameOrder;
      }
      AppendInTurn(order, lib.nameOrder, added, Fresh(Keys(tail), lib.keylist + {key}), Fresh(Keys(batch), lib.keylist));
    }
  }

  /** A loop of adds leaves alone every key it does not add under. */
  lemma {:induction false} AddEachFrame(lib: Library, batch: seq<(string, Material)>, k: string)
    requires k !in Keys(batch)
    ensures GetMaterialPtr(AddEach(lib, batch).lib, k) == GetMaterialPtr(lib, k)
    decreases |batch|
  {
    if |batch| > 0 {
      var step := AddMaterialKeyed(lib, batch[0].0, batch[0].1);
      var tail := batch[1..];
      assert Keys(batch) == [batch[0].0] + Keys(tail);
      if step.Ok? {
        AddEachFrame(step.value, tail, k);
      }
    }
  }

  /** A loop of adds that cannot fail, over distinct keys, leaves each key
      holding what `add_material` stores for its material. */
  lemma {:induction false} AddEachStores(lib: Library, batch: seq<(string, Material)>, i: int)
    requires forall j :: 0 <= j < |batch| ==> NumberOf(batch[j].1).Ok?
    requires NoDup(Keys(batch))
    requires 0 <= i < |batch|
    ensures GetMaterialPtr(AddEach(lib, batch).lib, batch[i].0) == Some(Normalize(batch[i].0, batch[i].1).value)
    decreases |batch|
  {
    assert NumberOf(batch[0].1).Ok?;
    var next := AddMaterialKeyed(lib, batch[0].0, batch[0].1).value;
    var tail := batch[1..];
    AddEachStep(lib, batch);
    NoDupTail(Keys(batch));
    assert Keys(batch)[1..] == Keys(tail);
    if i == 0 {
      AddEachFrame(next, tail, batch[0].0);
    } else {
      assert forall j :: 0 <= j < |tail| ==> NumberOf(tail[j].1).Ok? by {
        forall j | 0 <= j < |tail| ensures NumberOf(tail[j].1).Ok? {
          assert tail[j] == batch[j + 1];
        }
      }
      assert batch[i] == tail[i - 1];
      AddEachStores(next, tail, i - 1);
    }
  }

  /** Each loop of adds keeps the library consistent, even when it stops early. */
  lemma {:induction false} AddEachPreservesValid(lib: Library, batch: seq<(string, Material)>)
    requires Valid(lib)
    ensures Valid(AddEach(lib, batch).lib)
    decreases |batch|
  {
    if |batch| > 0 {
      var step := AddMaterialKeyed(lib, batch[0].0, batch[0].1);
      if step.Ok? {
        AddMaterialKeyedPreservesValid(lib, batch[0].0, batch[0].1);
        AddEachPreservesValid(step.value, batch[1..]);
      }
    }
  }

  /** The pairs `merge(other)` adds: each key of `other`'s key set, in set
      order, with what `get_material` returns for it. */
  function MergeBatch(other: Library): (batch: seq<(string, Material)>)
    ensures Keys(batch) == SortedKeys(other.keylist)
    ensures forall i :: 0 <= i < |batch| ==> batch[i].1 == GetMaterial(other, batch[i].0)
  {
    var ks := SortedKeys(other.keylist);
    seq(|ks|, i requires 0 <= i < |ks| => (ks[i], GetMaterial(other, ks[i])))
  }

  /** `merge(other)`: `add_material(key, other.get_material(key))` for each
      key of `other`'s key set, in set order, stopping at the first exception.
      It throws exactly when some key of `other` looks up a material whose
      number does not read; whatever happens, the key set and both registries
      only grow and the old name order stays a prefix. */
  function Merge(lib: Library, other: Library): (r: Applied)
    ensures r.failure.None? <==> forall k :: k in other.keylist ==> NumberOf(GetMaterial(other, k)).Ok?
    ensures lib.keylist <= r.lib.keylist && lib.nuclist <= r.lib.nuclist && lib.matNumbers <= r.lib.matNumbers
    ensures |lib.nameOrder| <= |r.lib.nameOrder| && r.lib.nameOrder[..|lib.nameOrder|] == lib.nameOrder
  {
    MergeBatchReadable(other);
    AddEach(lib, MergeBatch(other))
  }

  /** Every material of `merge`'s batch has a readable number exactly when
      every key of the other library looks one up. */
  lemma MergeBatchReadable(other: Library)
    ensures (forall i :: 0 <= i < |MergeBatch(other)| ==> NumberOf(MergeBatch(other)[i].1).Ok?)
        <==> (forall k :: k in other.keylist ==> NumberOf(GetMaterial(other, k)).Ok?)
  {
    var batch := MergeBatch(other);
    var ks := SortedKeys(other.keylist);
    if forall i :: 0 <= i < |batch| ==> NumberOf(batch[i].1).Ok? {
      forall k | k in other.keylist ensures NumberOf(GetMaterial(other, k)).Ok? {
        var i :| 0 <= i < |ks| && ks[i] == k;
        assert batch[i].0 == Keys(batch)[i] == k;
      }
    }
    if forall k :: k in other.keylist ==> NumberOf(GetMaterial(other, k)).Ok? {
      forall i | 0 <= i < |batch| ensures NumberOf(batch[i].1).Ok? {
        assert batch[i].0 == Keys(batch)[i] == ks[i];
      }
    }
  }

  /** Two libraries whose lookups agree everywhere store the same materials. */
  lemma MaterialsExtensional(a: Library, b: Library)
    requires forall k :: GetMaterialPtr(a, k) == GetMaterialPtr(b, k)
    ensures a.materials == b.materials
  {
    forall k | k in a.materials ensures k in b.materials && a.materials[k] == b.materials[k] {
      assert GetMaterialPtr(a, k) == GetMaterialPtr(b, k);
    }
    forall k | k in b.materials ensures k in a.materials {
      assert GetMaterialPtr(a, k) == GetMaterialPtr(b, k);
    }
  }

  lemma IncreasingNoDup(ks: seq<string>)
    requires Increasing(ks)
    ensures NoDup(ks)
  {
  }

  /** Every pair `merge` takes from a consistent library is stored unchanged. */
  lemma MergeBatchWellFormed(other: Library)
    requires Valid(other)
    ensures var batch := MergeBatch(other);
      forall i :: 0 <= i < |batch| ==>
        && NumberOf(batch[i].1).Ok?
        && batch[i].0 in other.materials
        && Normalize(batch[i].0, batch[i].1) == Ok(other.materials[batch[i].0])
  {
    var batch := MergeBatch(other);
    var ks := SortedKeys(other.keylist);
    forall i | 0 <= i < |batch|
      ensures NumberOf(batch[i].1).Ok? && batch[i].0 in other.materials
      ensures Normalize(batch[i].0, batch[i].1) == Ok(other.materials[batch[i].0])
    {
      assert batch[i].0 == Keys(batch)[i] == ks[i];
      StoredWellFormed(other, ks[i]);
    }
  }

  /** A stored entry of a consistent library is what `get_material` returns,
      and adding it back under its own key stores it unchanged. */
  lemma StoredWellFormed(other: Library, k: string)
    requires Valid(other) && k in other.keylist
    ensures k in other.materials && GetMaterial(other, k) == other.materials[k]
    ensures NumberOf(other.materials[k]).Ok?
    ensures Normalize(k, other.materials[k]) == Ok(other.materials[k])
  {
    assert WellFormed(other.materials[k]);
  }

  /** What merging a consistent library stores: both libraries' materials,
      the other library's winning on a shared name. */
  lemma MergeMaterials(lib: Library, other: Library)
    requires Valid(other)
    ensures Merge(lib, other).lib.materials == lib.materials + other.materials
  {
    var r := Merge(lib, other).lib;
    var expected := lib.(materials := lib.materials + other.materials);
    forall k ensures GetMaterialPtr(r, k) == GetMaterialPtr(expected, k) {
      MergeLookup(lib, other, k);
    }
    MaterialsExtensional(r, expected);
  }

  lemma MergeLookup(lib: Library, other: Library, k: string)
    requires Valid(other)
    ensures GetMaterialPtr(Merge(lib, other).lib, k) == GetMaterialPtr(lib.(materials := lib.materials + other.materials), k)
  {
    var batch := MergeBatch(other);
    var ks := SortedKeys(other.keylist);
    if k !in ks {
      AddEachFrame(lib, batch, k);
    } else {
      MergeBatchWellFormed(other);
      IncreasingNoDup(ks);
      var i :| 0 <= i < |ks| && ks[i] == k;
      AddEachStores(lib, batch, i);
    }
  }

  /** Merging a consistent library into a consistent one cannot fail; the
      result holds both, the other library's material winning on a shared
      name, and appends the other's new names in set order. */
  lemma MergeEffect(lib: Library, other: Library)
    requires Valid(lib) && Valid(other)
    ensures var r := Merge(lib, other);
      && r.failure.None?
      && r.lib.materials == lib.materials + other.materials
      && r.lib.keylist == lib.keylist + other.keylist
      && r.lib.nameOrder == lib.nameOrder + Fresh(SortedKeys(other.keylist), lib.keylist)
      && Valid(r.lib)
  {
    var batch := MergeBatch(other);
    MergeBatchWellFormed(other);
    AddEachKeylist(lib, batch);
    AddEachOrder(lib, batch);
    AddEachPreservesValid(lib, batch);
    MergeMaterials(lib, other);
  }

  /** `merge` reads the other library's key set, which `replace` leaves stale:
      after a slot is renamed to a fresh name, merging that library brings
      back the old name with an empty material and leaves out the new name. */
  lemma RenamedBatchAddable(other: Library, num: int, mat: Material, name: string)
    requires Valid(other)
    requires 0 <= num < |other.nameOrder|
    requires NameKey in mat.metadata && mat.metadata[NameKey] == Str(name) && name !in other.keylist
    ensures Replace(other, num, mat).failure.None?
    ensures var batch := MergeBatch(Replace(other, num, mat).lib);
      forall i :: 0 <= i < |batch| ==> NumberOf(batch[i].1).Ok?
  {
    var renamed := Replace(other, num, mat).lib;
    var batch := MergeBatch(renamed);
    var ks := SortedKeys(renamed.keylist);
    forall i | 0 <= i < |batch| ensures NumberOf(batch[i].1).Ok? {
      assert batch[i].0 == Keys(batch)[i] == ks[i];
      RenamedEntryAddable(other, num, mat, name, ks[i]);
    }
  }

  /** After the rename, each registered key looks up a material whose number
      reads: the evicted old name an empty one, the others their old entry. */
  lemma RenamedEntryAddable(other: Library, num: int, mat: Material, name: string, k: string)
    requires Valid(other)
    requires 0 <= num < |other.nameOrder|
    requires NameKey in mat.metadata && mat.metadata[NameKey] == Str(name) && name !in other.keylist
    requires k in other.keylist
    ensures Replace(other, num, mat).failure.None?
    ensures NumberOf(GetMaterial(Replace(other, num, mat).lib, k)).Ok?
  {
    var renamed := Replace(other, num, mat).lib;
    if k != other.nameOrder[num] {
      assert k != name;
      assert GetMaterialPtr(renamed, k) == GetMaterialPtr(other, k);
      StoredWellFormed(other, k);
    }
  }

  lemma MergeAfterRename(other: Library, num: int, mat: Material, name: string)
    requires Valid(other)
    requires 0 <= num < |other.nameOrder|
    requires NameKey in mat.metadata && mat.metadata[NameKey] == Str(name) && name !in other.keylist
    ensures Replace(other, num, mat).failure.None?
    ensures var r := Merge(EmptyLibrary, Replace(other, num, mat).lib);
      && r.failure.None?
      && GetMaterialPtr(r.lib, other.nameOrder[num]) == Some(EmptyMaterial.(metadata := map[NameKey := Str(other.nameOrder[num])]))
      && GetMaterialPtr(r.lib, name) == None
  {
    var prior := other.nameOrder[num];
    var renamed := Replace(other, num, mat).lib;
    var batch := MergeBatch(renamed);
    var ks := SortedKeys(renamed.keylist);
    assert renamed.keylist == other.keylist;
    RenamedBatchAddable(other, num, mat, name);
    assert prior in ks;
    var i :| 0 <= i < |ks| && ks[i] == prior;
    IncreasingNoDup(ks);
    AddEachStores(EmptyLibrary, batch, i);
    assert batch[i].1 == EmptyMaterial;
    AddEachFrame(EmptyLibrary, batch, name);
  }
}
