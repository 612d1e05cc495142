/** The pydantic field kinds the payload schemas are built from, each as a
    reader that takes one key out of a raw JSON object and either returns
    the typed value or the validation error pydantic would raise.

    pydantic reports every failing field at once; a reader here reports the
    first one it meets. Callers of the schemas only see "validation failed"
    (an HTTP 422), so which field is named does not change any outcome. */
module Schema {
  import opened Results
  import opened Json

  datatype SchemaError =
    | Missing(field: string)
    | WrongType(field: string)
    | OutOfRange(field: string)
    | Forbidden(field: string)   // a key outside the schema, under extra="forbid"
    | NotAnObject                // the payload itself is not a JSON object

  /** The two format checks pydantic performs with its own parsers: `HttpUrl`
      and `datetime`. They are parameters of the model. */
  datatype Formats = Formats(isHttpUrl: string -> bool, isDatetime: string -> bool)

  /** `name: str = Field(min_length=n)`: required, a string of at least n characters. */
  function RequiredStr(fs: Fields, key: string, minLength: nat): (r: Result<string, SchemaError>)
    ensures r.Ok? <==> Lookup(fs, key).Some? && Lookup(fs, key).value.Str? && |Lookup(fs, key).value.s| >= minLength
    ensures r.Ok? ==> Lookup(fs, key) == Some(Str(r.value))
  {
    match Lookup(fs, key)
    case None => Err(Missing(key))
    case Some(v) =>
      if !v.Str? then Err(WrongType(key))
      else if |v.s| < minLength then Err(OutOfRange(key))
      else Ok(v.s)
  }

  /** `name: str | None = None`: absent and `null` both give None. */
  function OptionalStr(fs: Fields, key: string): (r: Result<Option<string>, SchemaError>)
    ensures r.Ok? <==> Lookup(fs, key) in {None, Some(Null)} || (Lookup(fs, key).Some? && Lookup(fs, key).value.Str?)
    ensures r == Ok(None) <==> Lookup(fs, key) in {None, Some(Null)}
    ensures r.Ok? && r.value.Some? ==> Lookup(fs, key) == Some(Str(r.value.value))
  {
    match Lookup(fs, key)
    case None => Ok(None)
    case Some(v) =>
      if v.Null? then Ok(None)
      else if v.Str? then Ok(Some(v.s))
      else Err(WrongType(key))
  }

  /** `name: HttpUrl`: required, a string the URL parser accepts. */
  function RequiredUrl(fs: Fields, key: string, fmt: Formats): (r: Result<string, SchemaError>)
    ensures r.Ok? <==> Lookup(fs, key).Some? && Lookup(fs, key).value.Str? && fmt.isHttpUrl(Lookup(fs, key).value.s)
    ensures r.Ok? ==> Lookup(fs, key) == Some(Str(r.value))
  {
    match Lookup(fs, key)
    case None => Err(Missing(key))
    case Some(v) =>
      if !v.Str? then Err(WrongType(key))
      else if !fmt.isHttpUrl(v.s) then Err(OutOfRange(key))
      else Ok(v.s)
  }

  /** `name: datetime`: required, a string the datetime parser accepts. */
  function RequiredDatetime(fs: Fields, key: string, fmt: Formats): (r: Result<string, SchemaError>)
    ensures r.Ok? <==> Lookup(fs, key).Some? && Lookup(fs, key).value.Str? && fmt.isDatetime(Lookup(fs, key).value.s)
    ensures r.Ok? ==> Lookup(fs, key) == Some(Str(r.value))
  {
    match Lookup(fs, key)
    case None => Err(Missing(key))
    case Some(v) =>
      if !v.Str? then Err(WrongType(key))
      else if !fmt.isDatetime(v.s) then Err(OutOfRange(key))
      else Ok(v.s)
  }

  /** `name: datetime | None = None`. */
  function OptionalDatetime(fs: Fields, key: string, fmt: Formats): (r: Result<Option<string>, SchemaError>)
    ensures r == Ok(None) <==> Lookup(fs, key) in {None, Some(Null)}
    ensures r.Ok? && r.value.Some? ==> Lookup(fs, key) == Some(Str(r.value.value)) && fmt.isDatetime(r.value.value)
    ensures Lookup(fs, key).Some? && Lookup(fs, key).value.Str? && fmt.isDatetime(Lookup(fs, key).value.s) ==> r.Ok?
  {
    match Lookup(fs, key)
    case None => Ok(None)
    case Some(v) =>
      if v.Null? then Ok(None)
      else if !v.Str? then Err(WrongType(key))
      else if !fmt.isDatetime(v.s) then Err(OutOfRange(key))
      else Ok(Some(v.s))
  }

  /** `name: int = Field(default=d, ge=lo[, le=hi])`. As in pydantic, the
      default itself is not validated. */
  function BoundedInt(fs: Fields, key: string, default: int, lo: int, hi: Option<int>): (r: Result<int, SchemaError>)
    ensures Lookup(fs, key).None? ==> r == Ok(default)
    ensures Lookup(fs, key).Some? ==>
      (r.Ok? <==> Lookup(fs, key).value.Int? && lo <= Lookup(fs, key).value.i && (hi.None? || Lookup(fs, key).value.i <= hi.value))
    ensures Lookup(fs, key).Some? && r.Ok? ==> Lookup(fs, key) == Some(Int(r.value))
  {
    match Lookup(fs, key)
    case None => Ok(default)
    case Some(v) =>
      if !v.Int? then Err(WrongType(key))
      else if v.i < lo || (hi.Some? && v.i > hi.value) then Err(OutOfRange(key))
      else Ok(v.i)
  }

  /** `name: dict[str, Any]`: required, a JSON object. */
  function RequiredDict(fs: Fields, key: string): (r: Result<Fields, SchemaError>)
    ensures r.Ok? <==> Lookup(fs, key).Some? && Lookup(fs, key).value.Obj?
    ensures r.Ok? ==> Lookup(fs, key) == Some(Obj(r.value))
  {
    match Lookup(fs, key)
    case None => Err(Missing(key))
    case Some(v) => if v.Obj? then Ok(v.fields) else Err(WrongType(key))
  }

  /** `name: dict[str, Any] = Field(default_factory=dict)`. */
  function DictOrEmpty(fs: Fields, key: string): (r: Result<Fields, SchemaError>)
    ensures Lookup(fs, key).None? ==> r == Ok([])
    ensures Lookup(fs, key).Some? ==> (r.Ok? <==> Lookup(fs, key).value.Obj?)
    ensures Lookup(fs, key).Some? && r.Ok? ==> Lookup(fs, key) == Some(Obj(r.value))
  {
    match Lookup(fs, key)
    case None => Ok([])
    case Some(v) => if v.Obj? then Ok(v.fields) else Err(WrongType(key))
  }

  /** `model_config = dict(extra="forbid")`: every key must be declared. */
  function ForbidExtra(fs: Fields, declared: set<string>): (r: Result<(), SchemaError>)
    ensures r.Ok? <==> forall i :: 0 <= i < |fs| ==> fs[i].0 in declared
    ensures r.Err? ==> r.error.Forbidden? && r.error.field in Keys(fs) && r.error.field !in declared
  {
    match FirstUndeclared(fs, declared)
    case None => Ok(())
    case Some(k) => Err(Forbidden(k))
  }

  /** The JSON form of an optional string: the string, or `null`. */
  function StrOrNull(o: Option<string>): Json {
    if o.Some? then Str(o.value) else Null
  }
}
