/** Parsed JSON values, as Python's json module gives them, and Python's
    `value[key]` indexing of them. */
module Json {
  import opened Base

  datatype Value =
    | Null
    | Bool(b: bool)
    | Number(text: string)
    | Str(s: string)
    | Array(items: seq<Value>)
    | Object(fields: map<string, Value>)

  /** `v[key]` for a string key: a dict yields its entry or raises KeyError;
      a list, string, number, bool or None raises TypeError. */
  function Index(v: Value, key: string): Result<Value>
  {
    match v
    case Object(fields) => if key in fields then Ok(fields[key]) else Err(KeyError(key))
    case _ => Err(TypeError)
  }

  /** `v[k0][k1]...`, evaluated left to right; the first failing step raises. */
  function Path(v: Value, keys: seq<string>): Result<Value>
  {
    if keys == [] then Ok(v)
    else match Index(v, keys[0])
      case Err(f) => Err(f)
      case Ok(child) => Path(child, keys[1..])
  }

  /** Two-step lookup `v[a][b]`: it succeeds exactly when both steps do. */
  lemma {:induction false} PathTwo(v: Value, a: string, b: string)
    ensures Path(v, [a, b]).Ok? <==>
              v.Object? && a in v.fields && v.fields[a].Object? && b in v.fields[a].fields
    ensures Path(v, [a, b]).Ok? ==> Path(v, [a, b]).value == v.fields[a].fields[b]
    ensures Path(v, [a, b]).Err? && Index(v, a).Err? ==> Path(v, [a, b]) == Index(v, a)
  {
    assert [a, b][0] == a && [a, b][1..] == [b];
    match Index(v, a)
    case Err(f) =>
    case Ok(child) =>
      assert Path(v, [a, b]) == Path(child, [b]);
      assert [b][1..] == [];
      assert Path(child, [b]) == match Index(child, b) case Err(f) => Err(f) case Ok(g) => Ok(g);
  }
}
