/** Sequences of library operations: what holds after any number of adds,
    deletes and merges, in any order. */
module Sessions {
  import opened Results
  import opened Materials
  import opened MaterialLibrary
  import opened Invariants
  import opened Batches

  /** One call on the library, other than `replace`. */
  datatype Op =
    | AddKeyed(key: string, mat: Material)
    | AddAuto(mat: Material)
    | Delete(key: string)
    | DeleteMaterial(mat: Material)
    | MergeFrom(other: Library)

  /** The state after one call, and the exception it raised, if any. */
  function Step(lib: Library, op: Op): (r: Applied) {
    match op
    case AddKeyed(key, mat) =>
      (match AddMaterialKeyed(lib, key, mat) case Ok(l) => Applied(l, None) case Err(e) => Applied(lib, Some(e)))
    case AddAuto(mat) =>
      (match AddMaterial(lib, mat) case Ok(l) => Applied(l, None) case Err(e) => Applied(lib, Some(e)))
    case Delete(key) => Applied(DelMaterial(lib, key), None)
    case DeleteMaterial(mat) =>
      (match DelMaterialByMat(lib, mat) case Ok(l) => Applied(l, None) case Err(e) => Applied(lib, Some(e)))
    case MergeFrom(other) => Merge(lib, other)
  }

  /** The calls in turn, up to the first that raises. */
  function Run(lib: Library, ops: seq<Op>): (r: Applied)
    decreases |ops|
  {
    if |ops| == 0 then Applied(lib, None)
    else
      var s := Step(lib, ops[0]);
      if s.failure.Some? then s else Run(s.lib, ops[1..])
  }

  /** Neither registry ever loses an element, whatever the calls. */
  lemma {:induction false} RegistriesOnlyGrow(lib: Library, ops: seq<Op>)
    ensures lib.nuclist <= Run(lib, ops).lib.nuclist
    ensures lib.matNumbers <= Run(lib, ops).lib.matNumbers
    decreases |ops|
  {
    if |ops| > 0 {
      var s := Step(lib, ops[0]);
      assert lib.nuclist <= s.lib.nuclist && lib.matNumbers <= s.lib.matNumbers;
      if s.failure.None? {
        RegistriesOnlyGrow(s.lib, ops[1..]);
      }
    }
  }

  /** One call keeps a consistent library consistent, whatever the library it
      merges from. */
  lemma StepPreservesValid(lib: Library, op: Op)
    requires Valid(lib)
    ensures Valid(Step(lib, op).lib)
  {
    match op
    case AddKeyed(key, mat) =>
      if AddMaterialKeyed(lib, key, mat).Ok? {
        AddMaterialKeyedPreservesValid(lib, key, mat);
      }
    case AddAuto(mat) =>
      if AddMaterial(lib, mat).Ok? {
        AddMaterialPreservesValid(lib, mat);
      }
    case Delete(key) => DelMaterialPreservesValid(lib, key);
    case DeleteMaterial(mat) =>
      if DelMaterialByMat(lib, mat).Ok? {
        DelMaterialByMatPreservesValid(lib, mat);
      }
    case MergeFrom(other) => AddEachPreservesValid(lib, MergeBatch(other));
  }

  /** Any run of calls keeps a consistent library consistent, even one cut
      short by an exception. */
  lemma {:induction false} RunPreservesValid(lib: Library, ops: seq<Op>)
    requires Valid(lib)
    ensures Valid(Run(lib, ops).lib)
    decreases |ops|
  {
    if |ops| > 0 {
      StepPreservesValid(lib, ops[0]);
      var s := Step(lib, ops[0]);
      if s.failure.None? {
        RunPreservesValid(s.lib, ops[1..]);
      }
    }
  }
}
