/** Parsed JSON as the remote service delivers it, with the Python operations the data
    layer applies to it. Numbers are integers; JSON fractions are not modelled. */
module Json {
  import opened Common
  import Strings

  datatype Json =
    | Null
    | Bool(b: bool)
    | Num(n: int)
    | Str(s: string)
    | Arr(items: seq<Json>)
    | Obj(fields: map<string, Json>)

  /** j[key] for a string key. */
  function Get(j: Json, key: string): Result<Json>
  {
    match j
    case Obj(fields) => if key in fields then Ok(fields[key]) else Err(KeyError)
    case _ => Err(TypeError)
  }

  /** j[i] for an index i >= 0. */
  function Index(j: Json, i: nat): Result<Json>
  {
    match j
    case Arr(items) => if i < |items| then Ok(items[i]) else Err(IndexError)
    case Str(s) => if i < |s| then Ok(Str([s[i]])) else Err(IndexError)
    case Obj(_) => Err(KeyError)  // the keys of a parsed JSON object are strings, never i
    case _ => Err(TypeError)
  }

  /** int(j). */
  function ToInt(j: Json): Result<int>
  {
    match j
    case Bool(b) => Ok(if b then 1 else 0)
    case Num(n) => Ok(n)
    case Str(s) =>
      (match Strings.ParseInt(s)
       case Some(n) => Ok(n)
       case None => Err(ValueError))
    case _ => Err(TypeError)
  }

  /** float(j), exactly. */
  function ToReal(j: Json): Result<real>
  {
    match j
    case Bool(b) => Ok(if b then 1.0 else 0.0)
    case Num(n) => Ok(n as real)
    case Str(s) =>
      (match Strings.ParseDecimal(s)
       case Some(x) => Ok(x)
       case None => Err(ValueError))
    case _ => Err(TypeError)
  }
}
