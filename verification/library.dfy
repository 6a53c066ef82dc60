/** `pyne::MaterialLibrary`'s in-memory state and the operations that mutate and
    query it. The library is a value: each operation returns the new state.
    Most operations throw before their first write, so one that would throw
    returns the exception instead and the caller keeps the unchanged state.
    `replace` can throw after it has erased an entry, so it returns the state
    it reached together with the exception, as the loops of adds do. */
module MaterialLibrary {
  import opened Results
  import opened Decimal
  import opened Seqs
  import opened Materials

  /** The five parts of the library's state:
      - materials: `material_library`, name -> stored copy;
      - keylist: the `std::set` of names ever registered and not deleted;
      - nameOrder: `name_order`, the insertion order;
      - matNumbers: `mat_number_set`, the positive material numbers seen;
      - nuclist: the nuclide ids seen in any composition added. */
  datatype Library = Library(
    materials: map<string, Material>,
    keylist: set<string>,
    nameOrder: seq<string>,
    matNumbers: set<int>,
    nuclist: set<int>)

  /** The state an operation reaches, and the exception that ended it early,
      if one did: the writes made before the exception stay in the library. */
  datatype Applied = Applied(lib: Library, failure: Option<Error>)

  /** A library built by the empty constructor. */
  const EmptyLibrary := Library(map[], {}, [], {}, {})

  /** `append_to_nuclist(mat)`: registers every nuclide of `mat`. */
  function AppendToNuclist(lib: Library, mat: Material): (r: Library)
    ensures forall z :: z in r.nuclist <==> z in lib.nuclist || z in mat.comp
    ensures r.(nuclist := lib.nuclist) == lib
  {
    lib.(nuclist := lib.nuclist + mat.comp.Keys)
  }

  /** `get_material(name)`: a copy of the stored material, or an empty one. */
  function GetMaterial(lib: Library, name: string): (m: Material)
    ensures name in lib.materials ==> m == lib.materials[name]
    ensures name !in lib.materials ==> m == EmptyMaterial
  {
    if name in lib.materials then lib.materials[name] else EmptyMaterial
  }

  /** `get_material_ptr(name)`: the stored material, or None where the C++ code
      hands out a freshly allocated empty material. */
  function GetMaterialPtr(lib: Library, name: string): (r: Option<Material>)
    ensures r.Some? <==> name in lib.materials
    ensures r.Some? ==> r.value == GetMaterial(lib, name)
    ensures r.None? ==> GetMaterial(lib, name) == EmptyMaterial
  {
    if name in lib.materials then Some(lib.materials[name]) else None
  }

  /** `add_material(key, mat)`. Fails only when the material's number cannot
      be read as an `int`; a number already registered is merely warned about.
      The key is appended to the name order only when it is new; an existing
      key keeps its position and its material is overwritten. */
  function AddMaterialKeyed(lib: Library, key: string, mat: Material): (r: Result<Library>)
    ensures r.Ok? <==> NumberOf(mat).Ok?
    ensures r.Ok? ==> GetMaterialPtr(r.value, key) == Some(Normalize(key, mat).value)
    ensures r.Ok? ==> forall k :: k != key ==> GetMaterialPtr(r.value, k) == GetMaterialPtr(lib, k)
    ensures r.Ok? ==> r.value.keylist == lib.keylist + {key}
    ensures r.Ok? && key in lib.keylist ==> r.value.nameOrder == lib.nameOrder
    ensures r.Ok? && key !in lib.keylist ==> r.value.nameOrder == lib.nameOrder + [key]
    ensures r.Ok? ==> r.value.nuclist == lib.nuclist + mat.comp.Keys
    ensures r.Ok? ==> var n := NumberOf(mat).value;
      && (n > 0 ==> r.value.matNumbers == lib.matNumbers + {n})
      && (n <= 0 ==> r.value.matNumbers == lib.matNumbers)
  {
    match Normalize(key, mat)
    case Err(e) => Err(e)
    case Ok(stored) =>
      var n := NumberOf(mat).value;
      var registered := AppendToNuclist(lib, stored);
      Ok(registered.(
        matNumbers := if n > 0 then lib.matNumbers + {n} else lib.matNumbers,
        keylist := lib.keylist + {key},
        nameOrder := if key in lib.keylist then lib.nameOrder else lib.nameOrder + [key],
        materials := lib.materials[key := stored]))
  }

  /** The automatic name for number `n`: `"_"` and its decimal text. */
  function AutoKey(n: int): (key: string) {
    "_" + IntToString(n)
  }

  /** Whether `add_material(mat)` can read the `"name"` metadata value:
      a numeric name must fit an `int`, another kind must have a text. */
  predicate NameReadable(v: MetaValue) {
    if v.Int? then InInt(v.i) else AsString(v).Ok?
  }

  /** Whether `add_material(mat)` gets through without an exception: the
      number, if any, reads as an `int` and the name, if any, is readable. */
  predicate Addable(mat: Material) {
    && NumberOf(mat).Ok?
    && (NameKey in mat.metadata ==> NameReadable(mat.metadata[NameKey]))
  }

  /** The key `add_material(mat)` registers `mat` under, and `mat` as it hands
      it on to the keyed form: an integer name becomes its decimal text (written
      back as a string), a missing name becomes `"_"` followed by the material
      number, or by the current number of keys when there is no number. */
  function AutoName(lib: Library, mat: Material): (r: Result<(string, Material)>)
    ensures r.Ok? <==> Addable(mat)
    ensures r.Ok? ==> var (key, named) := r.value;
      && named.comp == mat.comp
      && NumberOf(named) == NumberOf(mat)
      && NameKey in named.metadata
      && AsString(named.metadata[NameKey]) == Ok(key)
      && forall k :: k in mat.metadata && k != NameKey ==> k in named.metadata && named.metadata[k] == mat.metadata[k]
    ensures r.Ok? && NameKey in mat.metadata && !mat.metadata[NameKey].Int? ==> r.value.1 == mat
    ensures r.Ok? && NameKey in mat.metadata && mat.metadata[NameKey].Int? ==>
      r.value.0 == IntToString(mat.metadata[NameKey].i) && r.value.1.metadata[NameKey] == Str(r.value.0)
    ensures r.Ok? && NameKey !in mat.metadata ==> r.value.1.metadata[NameKey] == Str(r.value.0)
    ensures r.Ok? && NameKey !in mat.metadata && NumberKey in mat.metadata && NumberOf(mat).value != -1 ==>
      r.value.0 == AutoKey(NumberOf(mat).value)
    ensures r.Ok? && NameKey !in mat.metadata && NumberOf(mat).value == -1 ==>
      r.value.0 == AutoKey(ToInt(|lib.keylist|))
  {
    var n :- NumberOf(mat);
    var md := mat.metadata;
    if NameKey in md then
      match md[NameKey]
      case Int(i) =>
        var v :- AsInt(i);
        var name := IntToString(v);
        Ok((name, mat.(metadata := md[NameKey := Str(name)])))
      case Str(name) =>
        Ok((name, mat))
      case Other(_) =>
        var name :- AsString(md[NameKey]);
        Ok((name, mat))
    else
      var number := if n == -1 then ToInt(|lib.keylist|) else n;
      var name := AutoKey(number);
      Ok((name, mat.(metadata := md[NameKey := Str(name)])))
  }

  /** `add_material(mat)`: registers `mat` under the key `AutoName` picks. The
      stored copy's name reads back as that key. */
  function AddMaterial(lib: Library, mat: Material): (r: Result<Library>)
    ensures r.Ok? <==> AutoName(lib, mat).Ok?
    ensures r.Ok? ==> var key := AutoName(lib, mat).value.0;
      && r.value.keylist == lib.keylist + {key}
      && key in r.value.materials
      && NameKey in r.value.materials[key].metadata
      && AsString(r.value.materials[key].metadata[NameKey]) == Ok(key)
      && r.value.materials[key].comp == mat.comp
  {
    var (key, named) :- AutoName(lib, mat);
    AddMaterialKeyed(lib, key, named)
  }

  /** `del_material(key)`: erases the entry, the key and the key's first slot
      in the name order; both registries stay as they are. */
  function DelMaterial(lib: Library, key: string): (r: Library)
    ensures GetMaterialPtr(r, key) == None && key !in r.keylist
    ensures forall k :: k != key ==> GetMaterialPtr(r, k) == GetMaterialPtr(lib, k)
    ensures r.keylist == lib.keylist - {key}
    ensures r.nameOrder == RemoveFirst(lib.nameOrder, key)
    ensures r.nuclist == lib.nuclist && r.matNumbers == lib.matNumbers
    ensures key !in lib.materials && key !in lib.keylist && key !in lib.nameOrder ==> r == lib
  {
    lib.(
      materials := lib.materials - {key},
      keylist := lib.keylist - {key},
      nameOrder := RemoveFirst(lib.nameOrder, key))
  }

  /** `del_material(mat)`: deletes the entry `mat`'s name designates, and does
      nothing when `mat` has no name. */
  function DelMaterialByMat(lib: Library, mat: Material): (r: Result<Library>)
    ensures NameKey !in mat.metadata ==> r == Ok(lib)
    ensures NameKey in mat.metadata ==> (r.Ok? <==> mat.metadata[NameKey] != Other(None))
    ensures r.Ok? && NameKey in mat.metadata ==>
      r.value == DelMaterial(lib, AsString(mat.metadata[NameKey]).value)
  {
    if NameKey in mat.metadata then
      var name :- AsString(mat.metadata[NameKey]);
      Ok(DelMaterial(lib, name))
    else
      Ok(lib)
  }

  /** `replace(num, mat)`: stores `mat` at position `num` of the name order. A
      nameless `mat` takes the name at that position; a differently named one
      evicts the old entry and renames the slot. The key set and the registries
      are not touched. The eviction comes before the new name is read, so a
      name `asString` cannot convert throws with the old entry already gone. */
  function Replace(lib: Library, num: int, mat: Material): (r: Applied)
    requires 0 <= num < |lib.nameOrder|
    ensures r.failure.None? <==> (NameKey in mat.metadata ==> mat.metadata[NameKey] != Other(None))
    ensures r.failure.Some? ==>
      && r.failure == Some(NotConvertible)
      && r.lib == lib.(materials := lib.materials - {lib.nameOrder[num]})
    ensures r.failure.None? ==> var lib' := r.lib;
      && |lib'.nameOrder| == |lib.nameOrder|
      && (forall j :: 0 <= j < |lib.nameOrder| && j != num ==> lib'.nameOrder[j] == lib.nameOrder[j])
      && lib'.keylist == lib.keylist
      && lib'.nuclist == lib.nuclist
      && lib'.matNumbers == lib.matNumbers
    ensures r.failure.None? ==> var prior := lib.nameOrder[num]; var name := r.lib.nameOrder[num];
      && GetMaterialPtr(r.lib, name).Some?
      && r.lib.materials[name].comp == mat.comp
      && (forall k :: k != prior && k != name ==> GetMaterialPtr(r.lib, k) == GetMaterialPtr(lib, k))
      && (name != prior ==> prior !in r.lib.materials)
    ensures r.failure.None? && NameKey !in mat.metadata ==>
      && r.lib.nameOrder == lib.nameOrder
      && r.lib.materials[lib.nameOrder[num]] == mat.(metadata := mat.metadata[NameKey := Str(lib.nameOrder[num])])
    ensures r.failure.None? && NameKey in mat.metadata ==>
      && r.lib.nameOrder[num] == AsString(mat.metadata[NameKey]).value
      && r.lib.materials[r.lib.nameOrder[num]] == mat
  {
    var prior := lib.nameOrder[num];
    if NameKey !in mat.metadata then
      Applied(lib.(materials := lib.materials[prior := mat.(metadata := mat.metadata[NameKey := Str(prior)])]), None)
    else if mat.metadata[NameKey] != Str(prior) then
      var evicted := lib.(materials := lib.materials - {prior});
      match AsString(mat.metadata[NameKey])
      case Err(e) => Applied(evicted, Some(e))
      case Ok(name) =>
        Applied(evicted.(
          materials := evicted.materials[name := mat],
          nameOrder := lib.nameOrder[num := name]), None)
    else
      Applied(lib.(materials := lib.materials[prior := mat]), None)
  }
}
