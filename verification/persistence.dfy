/** The in-memory side of the library's two persistence forms. The JSON form
    is one object keyed by material name, each value the material's own JSON
    encoding; the HDF5 form is a table of rows, each decoded into a material
    and added under an automatic name. The encodings themselves belong to the
    material and are parameters here. */
module Persistence {
  import opened Results
  import opened Decimal
  import opened Seqs
  import opened Ordering
  import opened Materials
  import opened MaterialLibrary
  import opened Invariants
  import opened Batches
  import opened AutoNaming

  /** The pairs `load_json` adds: each member of the object, in member-name
      order (jsoncpp keeps members sorted), decoded by the material. */
  function JsonBatch<J>(json: map<string, J>, decode: J -> Material): (batch: seq<(string, Material)>)
    ensures Keys(batch) == SortedKeys(json.Keys)
    ensures forall i :: 0 <= i < |batch| ==> batch[i].0 in json && batch[i].1 == decode(json[batch[i].0])
  {
    var ks := SortedKeys(json.Keys);
    seq(|ks|, i requires 0 <= i < |ks| => (ks[i], decode(json[ks[i]])))
  }

  /** `load_json(json)`: `add_material(key, decode(json[key]))` per member, in
      member-name order, stopping at the first exception. It throws exactly
      when some member decodes to a material whose number does not read;
      whatever happens, the key set and both registries only grow and the old
      name order stays a prefix. */
  function LoadJson<J>(lib: Library, json: map<string, J>, decode: J -> Material): (r: Applied)
    ensures r.failure.None? <==> forall k :: k in json ==> NumberOf(decode(json[k])).Ok?
    ensures lib.keylist <= r.lib.keylist && lib.nuclist <= r.lib.nuclist && lib.matNumbers <= r.lib.matNumbers
    ensures |lib.nameOrder| <= |r.lib.nameOrder| && r.lib.nameOrder[..|lib.nameOrder|] == lib.nameOrder
  {
    JsonBatchReadable(json, decode);
    AddEach(lib, JsonBatch(json, decode))
  }

  /** Every material of `load_json`'s batch has a readable number exactly
      when every member of the object decodes to one. */
  lemma JsonBatchReadable<J>(json: map<string, J>, decode: J -> Material)
    ensures (forall i :: 0 <= i < |JsonBatch(json, decode)| ==> NumberOf(JsonBatch(json, decode)[i].1).Ok?)
        <==> (forall k :: k in json ==> NumberOf(decode(json[k])).Ok?)
  {
    var batch := JsonBatch(json, decode);
    if forall i :: 0 <= i < |batch| ==> NumberOf(batch[i].1).Ok? {
      forall k | k in json ensures NumberOf(decode(json[k])).Ok? {
        JsonMemberInBatch(json, decode, k);
      }
    }
  }

  /** Each member of the object is some entry of `load_json`'s batch. */
  lemma JsonMemberInBatch<J>(json: map<string, J>, decode: J -> Material, k: string)
    requires k in json
    ensures exists i :: 0 <= i < |JsonBatch(json, decode)| && JsonBatch(json, decode)[i] == (k, decode(json[k]))
  {
    var batch := JsonBatch(json, decode);
    var ks := SortedKeys(json.Keys);
    var i :| 0 <= i < |ks| && ks[i] == k;
    assert batch[i].0 == Keys(batch)[i] == k;
  }


  /** `dump_json()`: one member per name in the name order, holding that
      material's encoding. Every name in the order must have an entry: the C++
      code dereferences the entry it looks up. */
  function DumpJson<J>(lib: Library, encode: Material -> J): (json: map<string, J>)
    requires forall n :: n in lib.nameOrder ==> n in lib.materials
    ensures forall n :: n in json <==> n in lib.nameOrder
    ensures forall n :: n in json ==> json[n] == encode(lib.materials[n])
  {
    map n | n in lib.nameOrder :: encode(lib.materials[n])
  }

  /** Every pair loaded from a consistent library's dump is stored unchanged. */
  lemma DumpBatchWellFormed<J>(lib: Library, encode: Material -> J, decode: J -> Material)
    requires Valid(lib)
    requires forall n :: n in lib.materials ==> decode(encode(lib.materials[n])) == lib.materials[n]
    ensures var batch := JsonBatch(DumpJson(lib, encode), decode);
      forall i :: 0 <= i < |batch| ==>
        && batch[i].0 in lib.materials
        && NumberOf(batch[i].1).Ok?
        && Normalize(batch[i].0, batch[i].1) == Ok(lib.materials[batch[i].0])
  {
    var json := DumpJson(lib, encode);
    var batch := JsonBatch(json, decode);
    forall i | 0 <= i < |batch|
      ensures batch[i].0 in lib.materials && NumberOf(batch[i].1).Ok?
      ensures Normalize(batch[i].0, batch[i].1) == Ok(lib.materials[batch[i].0])
    {
      var k := batch[i].0;
      assert k in json;
      assert k in lib.nameOrder;
      assert batch[i].1 == decode(encode(lib.materials[k])) == lib.materials[k];
      assert WellFormed(lib.materials[k]);
    }
  }

  lemma JsonLookup<J>(lib: Library, encode: Material -> J, decode: J -> Material, k: string)
    requires Valid(lib)
    requires forall n :: n in lib.materials ==> decode(encode(lib.materials[n])) == lib.materials[n]
    ensures GetMaterialPtr(LoadJson(EmptyLibrary, DumpJson(lib, encode), decode).lib, k) == GetMaterialPtr(lib, k)
  {
    var json := DumpJson(lib, encode);
    var batch := JsonBatch(json, decode);
    var ks := SortedKeys(json.Keys);
    if k in ks {
      DumpBatchWellFormed(lib, encode, decode);
      IncreasingNoDup(ks);
      var i :| 0 <= i < |ks| && ks[i] == k;
      AddEachStores(EmptyLibrary, batch, i);
    } else {
      AddEachFrame(EmptyLibrary, batch, k);
    }
  }

  /** Dumping a consistent library and loading the dump into an empty one
      gives back every (name, material) pair, when the material's own codec
      round-trips; the name order comes back sorted, not as it was. */
  lemma JsonRoundTrip<J>(lib: Library, encode: Material -> J, decode: J -> Material)
    requires Valid(lib)
    requires forall n :: n in lib.materials ==> decode(encode(lib.materials[n])) == lib.materials[n]
    ensures var r := LoadJson(EmptyLibrary, DumpJson(lib, encode), decode);
      && r.failure.None?
      && r.lib.materials == lib.materials
      && r.lib.keylist == lib.keylist
      && r.lib.nameOrder == SortedKeys(lib.keylist)
      && Valid(r.lib)
  {
    JsonReloadShape(lib, encode, decode);
    JsonReloadMaterials(lib, encode, decode);
  }

  /** The reload of a dump completes, registers the dumped names in sorted
      order and is consistent. */
  lemma JsonReloadShape<J>(lib: Library, encode: Material -> J, decode: J -> Material)
    requires Valid(lib)
    requires forall n :: n in lib.materials ==> decode(encode(lib.materials[n])) == lib.materials[n]
    ensures var r := LoadJson(EmptyLibrary, DumpJson(lib, encode), decode);
      && r.failure.None?
      && r.lib.keylist == lib.keylist
      && r.lib.nameOrder == SortedKeys(lib.keylist)
      && Valid(r.lib)
  {
    var json := DumpJson(lib, encode);
    assert json.Keys == lib.keylist;
    var batch := JsonBatch(json, decode);
    DumpBatchWellFormed(lib, encode, decode);
    assert LoadJson(EmptyLibrary, json, decode) == AddEach(EmptyLibrary, batch);
    SortedBatchKeys(lib.keylist, batch);
    SortedBatchOrder(lib.keylist, batch);
    EmptyLibraryValid();
    AddEachPreservesValid(EmptyLibrary, batch);
  }

  /** Loading a batch whose keys are a set's, in set order, into an empty
      library registers exactly that set. */
  lemma SortedBatchKeys(keys: set<string>, batch: seq<(string, Material)>)
    requires Keys(batch) == SortedKeys(keys)
    requires forall i :: 0 <= i < |batch| ==> NumberOf(batch[i].1).Ok?
    ensures AddEach(EmptyLibrary, batch).lib.keylist == keys
  {
    AddEachKeylist(EmptyLibrary, batch);
  }

  /** Loading a batch whose keys are a set's, in set order, into an empty
      library lists that set in set order. */
  lemma SortedBatchOrder(keys: set<string>, batch: seq<(string, Material)>)
    requires Keys(batch) == SortedKeys(keys)
    requires forall i :: 0 <= i < |batch| ==> NumberOf(batch[i].1).Ok?
    ensures AddEach(EmptyLibrary, batch).lib.nameOrder == SortedKeys(keys)
  {
    var ks := SortedKeys(keys);
    AddEachOrder(EmptyLibrary, batch);
    IncreasingNoDup(ks);
    FreshOfNothing(ks);
  }

  /** The reload of a dump stores exactly the dumped materials. */
  lemma JsonReloadMaterials<J>(lib: Library, encode: Material -> J, decode: J -> Material)
    requires Valid(lib)
    requires forall n :: n in lib.materials ==> decode(encode(lib.materials[n])) == lib.materials[n]
    ensures LoadJson(EmptyLibrary, DumpJson(lib, encode), decode).lib.materials == lib.materials
  {
    var r := LoadJson(EmptyLibrary, DumpJson(lib, encode), decode).lib;
    forall k ensures GetMaterialPtr(r, k) == GetMaterialPtr(lib, k) {
      JsonLookup(lib, encode, decode, k);
    }
    MaterialsExtensional(r, lib);
  }

  /** With nothing known beforehand, a list of distinct keys is fresh throughout. */
  lemma {:induction false} FreshOfNothing(ks: seq<string>)
    requires NoDup(ks)
    ensures Fresh(ks, {}) == ks
  {
    FreshDisjoint(ks, {});
  }

  lemma {:induction false} FreshDisjoint(ks: seq<string>, known: set<string>)
    requires NoDup(ks)
    requires forall k :: k in ks ==> k !in known
    ensures Fresh(ks, known) == ks
    decreases |ks|
  {
    if |ks| > 0 {
      assert forall k :: k in ks[1..] ==> k in ks && k != ks[0];
      FreshDisjoint(ks[1..], known + {ks[0]});
      assert ks == [ks[0]] + ks[1..];
      FreshCons(ks[0], ks[1..], known);
    }
  }

  /** The row loop of `from_hdf5`: `add_material(mat)` for each decoded row,
      stopping at the first exception. */
  function FromRows(lib: Library, rows: seq<Material>): (r: Applied)
    ensures r.failure.None? <==> forall i :: 0 <= i < |rows| ==> Addable(rows[i])
    ensures lib.keylist <= r.lib.keylist && lib.nuclist <= r.lib.nuclist
    decreases |rows|
  {
    if |rows| == 0 then Applied(lib, None)
    else
      match AddMaterial(lib, rows[0])
      case Err(e) => Applied(lib, Some(e))
      case Ok(next) =>
        assert forall i :: 1 <= i < |rows| ==> rows[i] == rows[1..][i - 1];
        FromRows(next, rows[1..])
  }

  /** The first unnamed row of a loop: it lands under `"_n"`, a new key, and
      leaves the rest of the loop with the same assumptions one key further. */
  lemma UnnamedRowStep(lib: Library, rows: seq<Material>) returns (next: Library)
    requires |rows| > 0
    requires Unnamed(rows)
    requires |lib.keylist| + |rows| <= IntMax
    requires AutoNamesFree(lib.keylist, |lib.keylist|, |rows|)
    ensures var tail := rows[1..];
      && FromRows(lib, rows) == FromRows(next, tail)
      && next.nameOrder == lib.nameOrder + [AutoKey(|lib.keylist|)]
      && |next.keylist| == |lib.keylist| + 1
      && Unnamed(tail)
      && AutoNamesFree(next.keylist, |next.keylist|, |tail|)
  {
    var n := |lib.keylist|;
    var key := AutoKey(n);
    AddUnnamed(lib, rows[0]);
    next := AddMaterial(lib, rows[0]).value;
    assert next.keylist == lib.keylist + {key} && key !in lib.keylist;
    AutoKeysStillFree(lib.keylist, next.keylist, n, |rows|);
    assert |next.keylist| == n + 1;
    FromRowsStep(lib, rows);
    var tail := rows[1..];
    assert forall i :: 0 <= i < |tail| ==> tail[i] == rows[i + 1];
  }

  /** Rows with neither a name nor a number. */
  predicate Unnamed(rows: seq<Material>) {
    forall i :: 0 <= i < |rows| ==> Anonymous(rows[i])
  }

  /** One row of the loop, seen from the loop. */
  lemma FromRowsStep(lib: Library, rows: seq<Material>)
    requires |rows| > 0 && AddMaterial(lib, rows[0]).Ok?
    ensures FromRows(lib, rows) == FromRows(AddMaterial(lib, rows[0]).value, rows[1..])
  {
  }

  /** Rows with neither a name nor a number, loaded into a library holding
      none of the names they will get, are named `"_n"`, `"_(n+1)"`, ... where
      n is the number of keys beforehand, and each lands under its own new key. */
  lemma {:induction false} UnnamedRowsGetDistinctKeys(lib: Library, rows: seq<Material>)
    requires Unnamed(rows)
    requires |lib.keylist| + |rows| <= IntMax
    requires AutoNamesFree(lib.keylist, |lib.keylist|, |rows|)
    ensures var r := FromRows(lib, rows);
      && r.failure.None?
      && r.lib.nameOrder == lib.nameOrder + AutoNames(|lib.keylist|, |rows|)
      && |r.lib.keylist| == |lib.keylist| + |rows|
  {
    assert forall i :: 0 <= i < |rows| ==> Addable(rows[i]);
    UnnamedRowsOrder(lib, rows);
    UnnamedRowsCount(lib, rows);
  }

  lemma {:induction false} UnnamedRowsOrder(lib: Library, rows: seq<Material>)
    requires Unnamed(rows)
    requires |lib.keylist| + |rows| <= IntMax
    requires AutoNamesFree(lib.keylist, |lib.keylist|, |rows|)
    ensures FromRows(lib, rows).lib.nameOrder == lib.nameOrder + AutoNames(|lib.keylist|, |rows|)
    decreases |rows|
  {
    var n := |lib.keylist|;
    if |rows| == 0 {
      assert lib.nameOrder + AutoNames(n, 0) == lib.nameOrder;
    } else {
      var next := UnnamedRowStep(lib, rows);
      var tail := rows[1..];
      UnnamedRowsOrder(next, tail);
      AutoNamesUnfold(n, |rows|);
      var order := FromRows(lib, rows).lib.nameOrder;
      assert order == next.nameOrder + AutoNames(n + 1, |tail|);
      AppendInTurn(order, lib.nameOrder, [AutoKey(n)], AutoNames(n + 1, |tail|), AutoNames(n, |rows|));
    }
  }

  lemma {:induction false} UnnamedRowsCount(lib: Library, rows: seq<Material>)
    requires Unnamed(rows)
    requires |lib.keylist| + |rows| <= IntMax
    requires AutoNamesFree(lib.keylist, |lib.keylist|, |rows|)
    ensures |FromRows(lib, rows).lib.keylist| == |lib.keylist| + |rows|
    decreases |rows|
  {
    if |rows| > 0 {
      var next := UnnamedRowStep(lib, rows);
      UnnamedRowsCount(next, rows[1..]);
    }
  }
}
