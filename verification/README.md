# pyne MaterialLibrary — a Dafny model of its bookkeeping

`pyne::MaterialLibrary` (src/material_library.cpp) is a named, ordered collection
of materials. Besides the name -> material map it keeps three derived
structures that every mutation must keep in step: the `keylist` set of names,
the `name_order` insertion order, and two append-only registries, the
`mat_number_set` of positive material numbers and the `nuclist` of every
nuclide id ever added.

This project models that state as an immutable Dafny datatype
(`MaterialLibrary.Library`) and every operation as a pure function returning the
new state. An operation that throws in C++ (`std::stoi` on a bad number,
jsoncpp `asInt` on an out-of-range value, `asString` on an array or object)
returns `Err` instead; loops of adds (`merge`, `load_json`, the row loop of
`from_hdf5`) return the state reached together with the exception that ended
them, because the adds already made stay in the C++ library.

Modules, leaves first:

- `Results`: the exceptions, `Option` and `Result`.
- `Decimal`: `std::to_string(int)` and `std::stoi`, written out character by
  character, with the round trip `stoi(to_string(n)) == n` proved for every
  `int`, and the `size_t` -> `int` narrowing of `keylist.size()`.
- `Seqs`: erasing the first occurrence from `name_order`.
- `Ordering`: the iteration order of a `std::set<std::string>` (and of a
  jsoncpp object's members): `SortedKeys` enumerates a set in that order.
- `Materials`: the material record (composition keys, metadata as a tagged
  value `Str | Int | Other`) and the metadata coercions.
- `MaterialLibrary`: the state and the operations.
- `Invariants`: what "consistent" means and which operations keep it.
- `Batches`: `merge` and the general loop of keyed adds.
- `AutoNaming`: the names `add_material(mat)` invents for materials without a
  name, and when they collide.
- `Persistence`: `load_json`, `dump_json` and the `from_hdf5` row loop, with
  the material's own codecs as parameters.
- `Sessions`: any sequence of adds, deletes and merges.

Three behaviours of the code that the model states rather than smooths over:

- `replace` touches neither `keylist` nor `nuclist`. After a rename the old
  name stays in `keylist` with no entry, the new name never enters it, and
  renaming to a name held by another slot duplicates it in `name_order`.
  `Invariants.ReplaceSyncedIff` proves the name structures stay in step
  exactly when the slot keeps its name. `replace` also erases the old entry
  before it reads the new name, so a name `asString` rejects throws with the
  entry already gone (`Invariants.ReplaceThrowDangles`).
- `merge` iterates the other library's `keylist` (sorted), not its
  `name_order`. So after a rename, merging brings back the old name with an
  empty material and leaves the new name out (`Batches.MergeAfterRename`).
- Automatic names `"_" + keylist.size()` repeat once a key has been deleted
  (`AutoNaming.AutoNameReusedAfterDelete`). An explicit `mat_number` of -1 is
  read as "no number".

Behaviours of the code a reader might not expect:

- `merge` walks the other library's sorted key set, not its insertion order.
- Only an integer `"name"` is rewritten as a string. A null or boolean name
  keeps its kind and is read through `asString`.
- `replace` does not keep the key set or the nuclide registry in step.
- jsoncpp returns object members sorted by name. So `load_json` adds them in
  that order, and a dump-then-load gives back the names sorted, not in their
  original order (`Persistence.JsonRoundTrip`).

## Model

| member | source | states |
|---|---|---|
| Decimal.ToInt | src/material_library.cpp:125 | `keylist.size()` assigned to an `int` wraps modulo 2^32; it is the identity on counts up to `INT_MAX` |
| Decimal.Stoi | src/material_library.cpp:144 | `std::stoi` yields only `int` values and raises `invalid_argument` on text without a digit |
| Decimal.StoiRoundTrip | src/material_library.cpp:140-145 | a number written as decimal text reads back through `std::stoi` as the same `int`, for every `int` |
| Decimal.IntToStringInjective | src/material_library.cpp:127 | distinct numbers give distinct decimal texts, so distinct automatic names |
| Decimal.ReadIntToString | src/material_library.cpp:117 | reading back the decimal text of any integer gives the integer |
| Decimal.DigitsValueOfNatToString | src/material_library.cpp:127 | the digits `to_string` writes for a natural number denote that number |
| Ordering.LeastExists | src/material_library.cpp:46-47 | every non-empty set of names has a first name in `std::set` order |
| Ordering.SortedKeys | src/material_library.cpp:46-47 | the names of a set, each once, strictly increasing: the order `merge` visits `keylist` in |
| Seqs.RemoveFirst | src/material_library.cpp:179-183 | deleting from `name_order` erases the first occurrence only, and changes nothing when the name is absent |
| Seqs.RemoveFirstNoDup | src/material_library.cpp:176-185 | in an order without duplicates, the erase removes exactly that name and keeps the rest distinct |
| Materials.AsInt | src/material_library.cpp:142 | `asInt` succeeds exactly on values in `int` range and returns them unchanged |
| Materials.AsString | src/material_library.cpp:171 | `asString` gives strings as they are and integers in decimal, and fails only on arrays and objects |
| Materials.ReadNumber | src/material_library.cpp:139-146 | a numeric `mat_number` is read with `asInt`; a string one with `std::stoi`; the result is always an `int` |
| Materials.NumberOf | src/material_library.cpp:137-146 | a material without `mat_number` has number -1 |
| Materials.Normalize | src/material_library.cpp:139-157 | the stored copy keeps the composition and every other metadata entry; a string number becomes its integer; a missing name becomes the key; an existing name is kept; a copy already in stored form is stored unchanged |
| MaterialLibrary.AppendToNuclist | src/material_library.cpp:301-306 | the nuclide registry gains exactly the material's nuclides, nothing else changes |
| MaterialLibrary.GetMaterial | src/material_library.cpp:187-195 | lookup returns the stored material, or the empty material for an unknown name, and never fails |
| MaterialLibrary.GetMaterialPtr | src/material_library.cpp:197-205 | finds the same entry as `get_material`; "not found" is None exactly when the name has no entry |
| MaterialLibrary.AddMaterialKeyed | src/material_library.cpp:134-167 | fails only on an unreadable number; a number already registered does not stop the store; the key then holds the stored copy and other keys are untouched; the key is appended to the order only if new, otherwise the order is unchanged; `nuclist` becomes the old one united with the material's nuclides; the number is registered only when positive |
| MaterialLibrary.AutoName | src/material_library.cpp:100-129 | the key chosen by `add_material(mat)`: an integer name becomes its decimal text, written back as a string; a missing name becomes `"_"` + number, or `"_"` + key count when the number is -1 or absent; the stored name reads back as the key |
| MaterialLibrary.AddMaterial | src/material_library.cpp:100-132 | fails exactly when the number or the name is unreadable; the material lands under the chosen key with its composition, and its stored name reads back as that key |
| MaterialLibrary.DelMaterial | src/material_library.cpp:176-185 | the entry and the key go, the first slot of the name in the order goes, both registries stay; an absent name changes nothing |
| MaterialLibrary.DelMaterialByMat | src/material_library.cpp:169-174 | a nameless material deletes nothing; otherwise the name read by `asString` is deleted |
| MaterialLibrary.Replace | src/material_library.cpp:207-215 | the order keeps its length and every other slot; key set and registries are untouched; a nameless material inherits the slot's name; a named one renames the slot, evicting the old entry when the name differs; the slot's name then holds the material; a name `asString` rejects throws `NotConvertible` after the old entry has been erased, and that partial state is what the caller keeps |
| Invariants.AddMaterialKeyedPreservesValid | src/material_library.cpp:155-166 | a keyed add keeps map keys = key set = order elements, no duplicates, every stored nuclide and positive number registered |
| Invariants.AddMaterialPreservesValid | src/material_library.cpp:100-132 | an automatically named add keeps the library consistent |
| Invariants.DelMaterialPreservesValid | src/material_library.cpp:176-185 | a delete keeps the library consistent, registries included |
| Invariants.DelMaterialByMatPreservesValid | src/material_library.cpp:169-174 | deleting by material keeps the library consistent |
| Invariants.OverwriteKeepsPosition | src/material_library.cpp:161-166 | adding twice under one key leaves one entry holding the second material, at the position the first add gave it |
| Invariants.DeleteUndoesAdd | src/material_library.cpp:161-185 | deleting a freshly added key restores map, key set and order, while the registries keep what the add put in them |
| Invariants.DeleteThenGet | src/material_library.cpp:176-195 | after a delete, lookup returns the empty material and the name is gone from the order |
| Invariants.ReplaceSyncedIff | src/material_library.cpp:207-215 | `replace` keeps map keys, key set and order in step if and only if the slot keeps its name |
| Invariants.ReplaceCanDuplicate | src/material_library.cpp:210-212 | renaming a slot to a name held by another slot leaves a duplicate in the order |
| Invariants.ReplaceThenDeleteDangles | src/material_library.cpp:176-215 | after such a rename, deleting the name leaves it in the order with no entry behind it |
| Invariants.ReplaceThrowDangles | src/material_library.cpp:210-212 | when `replace` throws on an unconvertible name, the old name stays in the key set and the order with no entry behind it, so the library is out of step |
| Invariants.ReplaceCanUncoverNuclides | src/material_library.cpp:207-215 | `replace` does not register the new material's nuclides |
| Batches.AddEach | src/material_library.cpp:45-51 | a loop of keyed adds finishes exactly when every number is readable; key set and registries only grow; the old order stays a prefix |
| Batches.Fresh | src/material_library.cpp:161-165 | the names a loop of adds appends to the order: the new ones, each once |
| Batches.AddEachKeylist | src/material_library.cpp:45-51 | a loop of adds that cannot fail adds every batch key to the key set and nothing else |
| Batches.AddEachOrder | src/material_library.cpp:45-51 | it appends the new keys to the order, in batch order |
| Batches.AddEachFrame | src/material_library.cpp:45-51 | keys outside the batch keep their materials |
| Batches.AddEachStores | src/material_library.cpp:45-51 | over distinct keys, each key ends up holding what `add_material` stores for its material |
| Batches.AddEachPreservesValid | src/material_library.cpp:45-51 | a loop of adds keeps the library consistent, even when an exception stops it |
| Batches.MergeBatch | src/material_library.cpp:46-48 | `merge` visits the other library's key set in set order and takes `get_material` of each key |
| Batches.Merge | src/material_library.cpp:45-51 | `merge` throws exactly when some key of the other library looks up a material whose number does not read; the key set and both registries only grow and the old order stays a prefix, even when it throws |
| Batches.MergeMaterials | src/material_library.cpp:45-51 | merging a consistent library stores both libraries' materials, the other one's winning on a shared name |
| Batches.MergeEffect | src/material_library.cpp:45-51 | merging consistent libraries cannot fail; the key set is the union; the other's new names are appended in set order; the result is consistent |
| Batches.MergeAfterRename | src/material_library.cpp:45-51 | merging a library whose slot was renamed by `replace` brings back the old name holding an empty material, and leaves out the new name |
| Persistence.JsonBatch | src/material_library.cpp:56-62 | `load_json` adds each member of the object once, in member-name order, decoded by the material |
| Persistence.LoadJson | src/material_library.cpp:55-64 | `load_json` throws exactly when some member decodes to a material whose number does not read; the key set and both registries only grow and the old order stays a prefix, even when it throws |
| Persistence.DumpJson | src/material_library.cpp:66-73 | the dump has one member per name in the order, each holding that material's encoding |
| Persistence.JsonRoundTrip | src/material_library.cpp:55-73 | dumping a consistent library and loading the dump into an empty library gives back the same materials and key set, with the names sorted, when the material codec round-trips |
| Persistence.FromRows | src/material_library.cpp:37-42 | the row loop finishes exactly when every row is addable; keys and nuclides only grow |
| AutoNaming.AutoNamesDistinct | src/material_library.cpp:124-127 | automatic names for distinct numbers are distinct |
| AutoNaming.AddUnnamed | src/material_library.cpp:105-131 | a material with neither a name nor a number (other metadata allowed) is added under `"_"` + the number of keys, which joins the key set and, when new, the end of the order |
| Persistence.UnnamedRowsGetDistinctKeys | src/material_library.cpp:105-131 | N rows with neither a name nor a number (other metadata allowed) loaded into a library holding none of their names get the keys `"_n"` ... `"_(n+N-1)"`, appended to the name order in order, and the key set grows by N |
| AutoNaming.AutoNameReusedAfterDelete | src/material_library.cpp:124-128 | after a delete, the next automatic name can equal a live key, and that add overwrites it |
| Sessions.RegistriesOnlyGrow | src/material_library.cpp:155-185 | no sequence of adds, deletes and merges removes anything from either registry |
| Sessions.StepPreservesValid | src/material_library.cpp:134-185 | each add, delete or merge keeps a consistent library consistent, whatever library it merges from, even one `replace` has put out of step |
| Sessions.RunPreservesValid | src/material_library.cpp:134-185 | any sequence of adds, deletes and merges keeps a consistent library consistent, even one cut short by an exception, with no condition on the libraries merged from |

## Left out

- HDF5 persistence: `write_hdf5`, `write_hdf5_nucpath`, `hdf5_path_exists`, `get_length_of_table`, the file-checking constructor and the file side of `from_hdf5`. These are calls into the HDF5 library on file handles. `Persistence.FromRows` takes the rows as already decoded materials.
- The save path's defects are not modelled either. The file handle is opened only when the file is new (lines 229-233), and `nuc_size` is never initialised (lines 281-285).
- JSON file I/O (`from_json`, `write_json`) and jsoncpp parsing and printing: stream I/O and library calls. The material's own JSON codec is a parameter of `LoadJson` and `DumpJson`.
- Material internals: the fractions (kept as opaque bit patterns), mass, density and atoms per molecule. The library only copies them.
- Real-valued metadata: there is no float tag. A real `"name"` or `"mat_number"` is read by `asInt`, which truncates a double; that case is not modelled.
- The text of the duplicate-number warning, and logging in general. A duplicate number has no effect on the state, and the model states exactly that.
- Raw-pointer ownership, and the empty material `get_material_ptr` allocates and leaks on a miss. Storage is by value, and a miss is `None`.
- `merge(MaterialLibrary*)` (lines 52-54) forwards to `merge` by value and adds nothing.
- `Replace` is called only with `0 <= num < |name_order|`, the range `name_order[num]` needs. Out of range the C++ code has undefined behaviour.
- `DumpJson` requires every name in the order to have an entry. Otherwise the C++ code dereferences the null pointer `material_library[name]` creates.
- Sessions.Run: stops at the first exception. A caller that catches it and carries on is a second run from the state reached.
