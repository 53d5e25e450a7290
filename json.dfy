/** Record values as the client sees them: untyped JSON trees, with
    JavaScript's `undefined` for a missing field and JavaScript's rules for
    truthiness and property reads. */
module Json {
  import opened Wrappers

  datatype Value =
    | Undefined
    | Null
    | Bool(b: bool)
    | Num(n: int)
    | Str(s: string)
    | Arr(items: seq<Value>)
    | Obj(fields: map<string, Value>)

  /** Whether `if (v)` takes its then-branch. */
  predicate Truthy(v: Value) {
    match v
    case Undefined => false
    case Null => false
    case Bool(b) => b
    case Num(n) => n != 0
    case Str(s) => s != ""
    case Arr(_) => true
    case Obj(_) => true
  }

  predicate Nullish(v: Value) {
    v.Undefined? || v.Null?
  }

  /** `v.key`: a TypeError on `undefined` and `null`, `undefined` for a field
      that is not there. Arrays, strings and other primitives answer
      `undefined` here, which is what JavaScript gives for the keys the
      client reads (`type`, `id`, `permission`, `user_id`, `shard_id`,
      `parent_id`), though not for keys such as `length`. */
  function Prop(v: Value, key: string): (r: Result<Value>)
    ensures r.Err? <==> Nullish(v)
    ensures r.Err? ==> r.fault == TypeError
  {
    match v
    case Undefined => Err(TypeError)
    case Null => Err(TypeError)
    case Obj(fields) => Ok(if key in fields then fields[key] else Undefined)
    case _ => Ok(Undefined)
  }

  /** `v[0]`. */
  function First(v: Value): (r: Result<Value>)
    ensures r.Err? <==> Nullish(v)
  {
    match v
    case Arr(items) => Ok(if |items| > 0 then items[0] else Undefined)
    case Str(s) => Ok(if |s| > 0 then Str(s[..1]) else Undefined)
    case _ => Prop(v, "0")
  }

  /** A value stored into a string-typed field. */
  function AsString(v: Value): Result<string> {
    if v.Str? then Ok(v.s) else Err(IllTyped)
  }

  /** A value stored into a number-typed field. */
  function AsNumber(v: Value): Result<int> {
    if v.Num? then Ok(v.n) else Err(IllTyped)
  }

  /** `v.key` read as a string. */
  function StringProp(v: Value, key: string): (r: Result<string>)
    ensures r.Ok? <==> v.Obj? && key in v.fields && v.fields[key].Str?
    ensures r.Ok? ==> v.fields[key] == Str(r.value)
    ensures Nullish(v) ==> r == Err(TypeError)
  {
    match Prop(v, key)
    case Err(f) => Err(f)
    case Ok(x) => AsString(x)
  }

  /** The empty object `{}`. */
  const EmptyObject: Value := Obj(map[])
}
