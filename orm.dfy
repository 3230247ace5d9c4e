/** The parts of Django and Python that the subquery helper leans on, reduced
    to what it observes: a model's field registry (`_meta.get_fields()`,
    `_meta.get_field`), the keyword-argument call `Model(**kwargs, **deferred)`,
    and how the database evaluates a `JSONObject` inside a correlated
    `Subquery` (one JSON object for the first candidate row, or SQL NULL). */
module Orm {
  import opened Wrappers

  type FieldName = string

  /** Django's `LOOKUP_SEP`, the separator between the steps of a lookup path. */
  const LOOKUP_SEP: string := "__"

  datatype Date = Date(year: int, month: int, day: int)

  /** A typed attribute value on the Python side. */
  datatype PyValue = PyNone | PyBool(b: bool) | PyInt(i: int) | PyStr(s: string) | PyDate(d: Date)

  /** A raw value inside the JSON object the database returns. */
  datatype Json = JNull | JBool(b: bool) | JNumber(n: int) | JString(s: string)

  /** The exceptions that can surface from the modelled code. */
  datatype Error =
    | AssertionError     // `_model_fields`: a requested name is not declared
    | FieldDoesNotExist  // `_meta.get_field(k)` for a key the model does not declare
    | ValidationError    // a field's `to_python` rejected its raw value
    | DuplicateKeyword   // Python: the same keyword given twice in one call
    | UnexpectedKeyword  // `Model(**kwargs)` with a keyword that is not a field
    | FieldError         // the database cannot resolve a lookup path

  /** One declared field: its name, its coercion from the raw JSON value
      (`None` stands for a `ValidationError`), and its default. */
  datatype Field = Field(name: FieldName, toPython: Json -> Option<PyValue>, default: PyValue)

  /** A model class, reduced to its name and its declared fields in order. */
  datatype ModelClass = ModelClass(name: string, fields: seq<Field>)

  /** A stored row of a model: the canonical record, column by column. */
  type Record = map<FieldName, PyValue>

  /** What an attribute of a constructed instance holds: a value, or the
      `DEFERRED` marker that makes Django load it on first access. */
  datatype Slot = Resolved(value: PyValue) | Deferred

  /** A model instance: its model's name and one slot per attribute. */
  datatype Instance = Instance(model: string, attrs: map<FieldName, Slot>)

  /** The names of a list of fields: `{f.name for f in fields}`. */
  function Names(fields: seq<Field>): set<FieldName>
  {
    set i | 0 <= i < |fields| :: fields[i].name
  }

  lemma NamesCons(fields: seq<Field>)
    requires |fields| > 0
    ensures Names(fields) == {fields[0].name} + Names(fields[1..])
  {
  }

  /** The position `_meta.get_field(k)` finds: the first field named `k`,
      or `None` when the model declares no such field. */
  function FieldIndex(fields: seq<Field>, k: FieldName): (r: Option<nat>)
    ensures r.None? <==> k !in Names(fields)
    ensures r.Some? ==> r.value < |fields| && fields[r.value].name == k
    ensures r.Some? ==> forall j :: 0 <= j < r.value ==> fields[j].name != k
  {
    if |fields| == 0 then None
    else if fields[0].name == k then Some(0)
    else
      NamesCons(fields);
      match FieldIndex(fields[1..], k)
      case None => None
      case Some(j) => Some(j + 1)
  }

  /** `model._meta.get_field(k)`: fails with `FieldDoesNotExist` for a name
      the model does not declare. */
  function GetField(m: ModelClass, k: FieldName): (r: Result<Field, Error>)
    ensures r.Ok? <==> k in Names(m.fields)
    ensures r.Ok? ==> r.value.name == k
    ensures r.Err? ==> r.error == FieldDoesNotExist
  {
    match FieldIndex(m.fields, k)
    case None => Err(FieldDoesNotExist)
    case Some(i) => Ok(m.fields[i])
  }

  /** The field `get_field(k)` returns is the model's own declaration: the
      first declared field named `k`. */
  lemma GetFieldFirstDeclared(m: ModelClass, k: FieldName)
    requires k in Names(m.fields)
    ensures exists i :: 0 <= i < |m.fields| && m.fields[i] == GetField(m, k).value
                        && forall j :: 0 <= j < i ==> m.fields[j].name != k
  {
    var i := FieldIndex(m.fields, k).value;
    assert m.fields[i] == GetField(m, k).value;
  }

  /** Python's call `f(**a, **b)`: a keyword present in both mappings raises a
      `TypeError`; otherwise the callee sees every keyword of both. */
  function MergeKeywords(a: map<FieldName, Slot>, b: map<FieldName, Slot>): (r: Result<map<FieldName, Slot>, Error>)
    ensures r.Ok? <==> a.Keys !! b.Keys
    ensures r.Err? ==> r.error == DuplicateKeyword
    ensures r.Ok? ==> r.value.Keys == a.Keys + b.Keys
    ensures r.Ok? ==> (forall k :: k in a ==> r.value[k] == a[k]) && (forall k :: k in b ==> r.value[k] == b[k])
  {
    if a.Keys !! b.Keys then Ok(a + b) else Err(DuplicateKeyword)
  }

  /** `Model(**kwargs)`: every keyword must name a declared field; a field given
      as `DEFERRED` stays unloaded, a field not given takes its default. */
  function Construct(m: ModelClass, kwargs: map<FieldName, Slot>): (r: Result<Instance, Error>)
    ensures r.Ok? <==> kwargs.Keys <= Names(m.fields)
    ensures r.Err? ==> r.error == UnexpectedKeyword
    ensures r.Ok? ==> r.value.model == m.name && r.value.attrs.Keys == Names(m.fields)
    ensures r.Ok? ==> forall k :: k in kwargs ==> r.value.attrs[k] == kwargs[k]
    ensures r.Ok? ==> forall k :: k in r.value.attrs && k !in kwargs ==> r.value.attrs[k] == Resolved(GetField(m, k).value.default)
  {
    if !(kwargs.Keys <= Names(m.fields)) then Err(UnexpectedKeyword)
    else
      Ok(Instance(m.name, map k | k in Names(m.fields) ::
        if k in kwargs then kwargs[k] else Resolved(GetField(m, k).value.default)))
  }

  /** A queryset correlated with an outer row of type `O`: for each outer row,
      the candidate rows of `model`, already filtered and in query order. */
  datatype QuerySet<!O> = QuerySet(model: ModelClass, candidates: O -> seq<Record>)

  /** The database's evaluation of `JSONObject(key=path, ...)` over one row:
      each key gets the JSON encoding of the column its path names. */
  function EvaluateObject(obj: map<string, string>, row: Record, encode: PyValue -> Json): (r: Result<map<string, Json>, Error>)
    ensures r.Ok? <==> obj.Values <= row.Keys
    ensures r.Err? ==> r.error == FieldError
    ensures r.Ok? ==> r.value.Keys == obj.Keys && forall k :: k in obj ==> r.value[k] == encode(row[obj[k]])
  {
    if forall k :: k in obj ==> obj[k] in row then
      Ok(map k | k in obj :: encode(row[obj[k]]))
    else
      Err(FieldError)
  }

  /** The database's evaluation of `Subquery(qs.values_list(obj))` for one
      outer row, as sqlite does it: a path the model lacks is a `FieldError`
      before any row is read; no candidate gives SQL NULL; otherwise the JSON
      object of the first candidate row. */
  function EvaluateSubquery<O>(qs: QuerySet<O>, obj: map<string, string>, outer: O, encode: PyValue -> Json): (r: Result<Option<map<string, Json>>, Error>)
    ensures !(obj.Values <= Names(qs.model.fields)) ==> r == Err(FieldError)
    ensures obj.Values <= Names(qs.model.fields) && qs.candidates(outer) == [] ==> r == Ok(None)
    ensures obj.Values <= Names(qs.model.fields) && qs.candidates(outer) != [] ==>
      r == match EvaluateObject(obj, qs.candidates(outer)[0], encode)
           case Ok(o) => Ok(Some(o))
           case Err(e) => Err(e)
  {
    if !(obj.Values <= Names(qs.model.fields)) then Err(FieldError)
    else
      var rows := qs.candidates(outer);
      if rows == [] then Ok(None)
      else
        var o :- EvaluateObject(obj, rows[0], encode);
        Ok(Some(o))
  }
}
