/** The part of `pyne::Material` the library reads and writes: its composition
    keys and its JSON metadata, with the coercions jsoncpp and the C++ standard
    library apply to metadata values. */
module Materials {
  import opened Results
  import opened Decimal

  /** A composition fraction, an IEEE-754 double kept as its bit pattern: the
      library only copies fractions, it never computes with them. */
  datatype Fraction = Fraction(bits: bv64)

  /** A metadata value (a `Json::Value`): a string, an integer (jsoncpp's
      `intValue` or `uintValue`), or any other kind, carrying the text jsoncpp's
      `asString()` gives for it (null, booleans) or None when `asString()`
      throws (arrays, objects). */
  datatype MetaValue = Str(s: string) | Int(i: int) | Other(text: Option<string>)

  /** A material: nuclide id -> fraction, and metadata key -> value. */
  datatype Material = Material(comp: map<int, Fraction>, metadata: map<string, MetaValue>)

  /** `pyne::Material()`: no nuclides, no metadata. */
  const EmptyMaterial := Material(map[], map[])

  const NameKey := "name"
  const NumberKey := "mat_number"

  /** jsoncpp `asInt()` on an integer value. */
  function AsInt(i: int): (r: Result<int>)
    ensures r.Ok? <==> InInt(i)
    ensures r.Ok? ==> r.value == i
    ensures r.Err? ==> r.error == OutOfRange
  {
    if InInt(i) then Ok(i) else Err(OutOfRange)
  }

  /** jsoncpp `asString()`: strings as they are, integers in decimal. */
  function AsString(v: MetaValue): (r: Result<string>)
    ensures v.Str? ==> r == Ok(v.s)
    ensures v.Int? ==> r == Ok(IntToString(v.i))
    ensures r.Err? <==> v == Other(None)
  {
    match v
    case Str(s) => Ok(s)
    case Int(i) => Ok(IntToString(i))
    case Other(text) => if text.Some? then Ok(text.value) else Err(NotConvertible)
  }

  /** The `int` a `"mat_number"` value denotes: `asInt()` when it is numeric,
      `std::stoi(asString())` otherwise. */
  function ReadNumber(v: MetaValue): (r: Result<int>)
    ensures r.Ok? ==> InInt(r.value)
    ensures v.Int? ==> (r.Ok? <==> InInt(v.i)) && (r.Ok? ==> r.value == v.i)
    ensures v.Str? ==> r == Stoi(v.s)
  {
    if v.Int? then AsInt(v.i)
    else
      var s :- AsString(v);
      Stoi(s)
  }

  /** A material's number, -1 when it has none. */
  function NumberOf(mat: Material): (r: Result<int>)
    ensures NumberKey !in mat.metadata ==> r == Ok(-1)
    ensures r.Ok? ==> InInt(r.value)
  {
    if NumberKey in mat.metadata then ReadNumber(mat.metadata[NumberKey]) else Ok(-1)
  }

  /** The shape of every material the library stores: it has a name, and a
      number, if any, is an `int`. */
  predicate WellFormed(m: Material) {
    && NameKey in m.metadata
    && (NumberKey in m.metadata ==> m.metadata[NumberKey].Int? && InInt(m.metadata[NumberKey].i))
  }

  /** The copy `add_material(key, mat)` stores: a non-numeric number is
      replaced by its integer value, and a missing name becomes `key`. */
  function Normalize(key: string, mat: Material): (r: Result<Material>)
    ensures r.Ok? <==> NumberOf(mat).Ok?
    ensures r.Ok? ==> WellFormed(r.value)
    ensures r.Ok? ==> r.value.comp == mat.comp
    ensures r.Ok? ==> r.value.metadata.Keys == mat.metadata.Keys + {NameKey}
    ensures r.Ok? ==> forall k :: k in mat.metadata && k != NumberKey ==> r.value.metadata[k] == mat.metadata[k]
    ensures r.Ok? && NameKey !in mat.metadata ==> r.value.metadata[NameKey] == Str(key)
    ensures r.Ok? && NumberKey in mat.metadata ==> r.value.metadata[NumberKey] == Int(NumberOf(mat).value)
    ensures WellFormed(mat) ==> r == Ok(mat)
  {
    var n :- NumberOf(mat);
    var md := mat.metadata;
    var numbered := if NumberKey in md && !md[NumberKey].Int? then md[NumberKey := Int(n)] else md;
    var named := if NameKey in numbered then numbered else numbered[NameKey := Str(key)];
    Ok(mat.(metadata := named))
  }
}
