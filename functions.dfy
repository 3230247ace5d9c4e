/** The subquery helper itself: choosing the fields to load, packing them into
    a `JSONObject`, wrapping a queryset into a `Subquery` whose output field is
    a `JSONModelField`, and turning the decoded JSON object back into a model
    instance whose missing fields are deferred. */
module Subqueries {
  import opened Wrappers
  import opened Orm

  /** The distinct names of an explicit `fields` iterable. */
  function Requested(fields: seq<FieldName>): set<FieldName>
  {
    set k | k in fields
  }

  /** `_model_fields(model, fields)`: every declared name for `fields=None`;
      otherwise the requested names, after asserting that each is declared. */
  function ModelFields(m: ModelClass, fields: Option<seq<FieldName>>): (r: Result<set<FieldName>, Error>)
    ensures fields.None? ==> r == Ok(Names(m.fields))
    ensures fields.Some? ==> (r.Ok? <==> Requested(fields.value) <= Names(m.fields))
    ensures fields.Some? && r.Ok? ==> r.value == Requested(fields.value)
    ensures r.Ok? ==> r.value <= Names(m.fields)
    ensures r.Err? ==> r.error == AssertionError
  {
    var declared := Names(m.fields);
    if fields.None? then Ok(declared)
    else if !(declared >= Requested(fields.value)) then Err(AssertionError)
    else Ok(declared * Requested(fields.value))
  }

  /** A string passed where an iterable of names is expected: Python iterates
      it character by character, each character a one-letter name. */
  function Characters(s: string): seq<FieldName>
  {
    seq(|s|, i requires 0 <= i < |s| => [s[i]])
  }

  /** `fields="__all__"` is not a sentinel: the string is iterated as the
      names `"_"`, `"a"` and `"l"`, so a model declaring no field named `"_"`
      fails the assertion. Only `fields=None` selects every declared field. */
  lemma AllStringIsNotASentinel(m: ModelClass)
    requires "_" !in Names(m.fields)
    ensures ModelFields(m, Some(Characters("__all__"))) == Err(AssertionError)
  {
    assert Characters("__all__")[0] == "_";
    assert "_" in Requested(Characters("__all__"));
  }

  /** The lookup prefix of `model_to_json`: empty for an empty path, otherwise
      the path followed by `LOOKUP_SEP`. */
  function PathPrefix(path: string): string
  {
    if path == "" then "" else path + LOOKUP_SEP
  }

  /** `model_to_json(model, path, fields)`: the `JSONObject` arguments, one per
      selected field, each the lookup reaching that field through `path`. */
  function ModelToJson(m: ModelClass, path: string, fields: Option<seq<FieldName>>): (r: Result<map<string, string>, Error>)
    ensures r.Ok? <==> ModelFields(m, fields).Ok?
    ensures r.Err? ==> r == Err(AssertionError)
    ensures r.Ok? ==> r.value.Keys == ModelFields(m, fields).value
    ensures r.Ok? && path == "" ==> forall f :: f in r.value ==> r.value[f] == f
    ensures r.Ok? && path != "" ==> forall f :: f in r.value ==> r.value[f] == path + "__" + f
  {
    var prefix := PathPrefix(path);
    var selected :- ModelFields(m, fields);
    Ok(map f | f in selected :: prefix + f)
  }

  /** `JSONModelField(model)`: a JSON column whose values are read back as
      instances of `modelClass`. */
  datatype JSONModelField = JSONModelField(modelClass: ModelClass)

  /** The raw JSON value of key `k`, passed through that field's `to_python`. */
  function ToPython(m: ModelClass, k: FieldName, raw: Json): (r: Result<PyValue, Error>)
    ensures r.Ok? <==> k in Names(m.fields) && GetField(m, k).value.toPython(raw).Some?
    ensures r.Ok? ==> r.value == GetField(m, k).value.toPython(raw).value
  {
    var field :- GetField(m, k);
    match field.toPython(raw)
    case None => Err(ValidationError)
    case Some(v) => Ok(v)
  }

  /** Every key of the decoded object can be coerced by its field. */
  predicate Coercible(m: ModelClass, dbdict: map<FieldName, Json>)
  {
    forall k :: k in dbdict ==> ToPython(m, k, dbdict[k]).Ok?
  }

  /** The keyword arguments `{k: get_field(k).to_python(v) for k, v in dbdict.items()}`.
      The first failing key raises; the model reports `FieldDoesNotExist` when
      some key is undeclared and `ValidationError` when every key is declared
      but some coercion fails. */
  function CoercedKeywords(m: ModelClass, dbdict: map<FieldName, Json>): (r: Result<map<FieldName, Slot>, Error>)
    ensures r.Ok? <==> Coercible(m, dbdict)
    ensures r.Err? && !(dbdict.Keys <= Names(m.fields)) ==> r.error == FieldDoesNotExist
    ensures r.Err? && dbdict.Keys <= Names(m.fields) ==> r.error == ValidationError
    ensures r.Ok? ==> r.value.Keys == dbdict.Keys
    ensures r.Ok? ==> forall k :: k in dbdict ==> r.value[k] == Resolved(ToPython(m, k, dbdict[k]).value)
  {
    if exists k :: k in dbdict && k !in Names(m.fields) then Err(FieldDoesNotExist)
    else if !Coercible(m, dbdict) then Err(ValidationError)
    else Ok(map k | k in dbdict :: Resolved(ToPython(m, k, dbdict[k]).value))
  }

  /** The attributes an instance built from `dbdict` is expected to have:
      every declared field present in `dbdict` holds its coerced value, every
      other declared field is deferred. */
  ghost function ExpectedAttrs(m: ModelClass, dbdict: map<FieldName, Json>): map<FieldName, Slot>
    requires Coercible(m, dbdict)
  {
    map k | k in Names(m.fields) ::
      if k in dbdict then Resolved(ToPython(m, k, dbdict[k]).value) else Deferred
  }

  /** `JSONModelField.instantiate_model_from_db_dict(dbdict)`. */
  function Instantiate(f: JSONModelField, dbdict: map<FieldName, Json>): (r: Result<Instance, Error>)
    ensures r.Ok? <==> Coercible(f.modelClass, dbdict)
    ensures r.Err? ==> r.error == if dbdict.Keys <= Names(f.modelClass.fields) then ValidationError else FieldDoesNotExist
    ensures r.Ok? ==> r.value == Instance(f.modelClass.name, ExpectedAttrs(f.modelClass, dbdict))
  {
    var m := f.modelClass;
    var declared := ModelFields(m, None).value;
    var missing := declared - dbdict.Keys;
    var kwargs :- CoercedKeywords(m, dbdict);
    var deferred := map k | k in missing :: Deferred;
    CoercibleKeysDeclared(m, dbdict);
    match MergeKeywords(kwargs, deferred)
    case Err(e) => Err(e)
    case Ok(all) =>
      assert all.Keys == declared;
      var r := Construct(m, all);
      assert r.Ok? ==> r.value.attrs == ExpectedAttrs(m, dbdict);
      r
  }

  lemma CoercibleKeysDeclared(m: ModelClass, dbdict: map<FieldName, Json>)
    requires Coercible(m, dbdict)
    ensures dbdict.Keys <= Names(m.fields)
  {
  }

  /** `JSONModelField.from_db_value`: SQL NULL (no candidate row) reads as
      `None`; any JSON object is instantiated. */
  function FromDbValue(f: JSONModelField, value: Option<map<FieldName, Json>>): (r: Result<Option<Instance>, Error>)
    ensures value.None? ==> r == Ok(None)
    ensures value.Some? ==> (r.Ok? <==> Coercible(f.modelClass, value.value))
    ensures value.Some? && r.Ok? ==> r.value == Some(Instance(f.modelClass.name, ExpectedAttrs(f.modelClass, value.value)))
    ensures value.Some? && r.Err? ==> r.error in {FieldDoesNotExist, ValidationError}
    ensures value.Some? && r.Err? ==> r.error == Instantiate(f, value.value).error
  {
    match value
    case None => Ok(None)
    case Some(dbdict) =>
      var instance :- Instantiate(f, dbdict);
      Ok(Some(instance))
  }

  /** What `ModelSubquery` builds: the queryset reduced to one JSON object per
      row, and the output field that decodes it. */
  datatype Subquery<!O> = Subquery(query: QuerySet<O>, projection: map<string, string>, outputField: JSONModelField)

  /** `ModelSubquery(queryset, fields)`. */
  function ModelSubquery<O>(qs: QuerySet<O>, fields: Option<seq<FieldName>>): (r: Result<Subquery<O>, Error>)
    ensures r.Ok? <==> ModelFields(qs.model, fields).Ok?
    ensures r.Err? ==> r.error == AssertionError
    ensures r.Ok? ==> r.value.query == qs && r.value.outputField == JSONModelField(qs.model)
    ensures r.Ok? ==> r.value.projection.Keys == ModelFields(qs.model, fields).value
    ensures r.Ok? ==> forall k :: k in r.value.projection ==> r.value.projection[k] == k
  {
    var jsonobj :- ModelToJson(qs.model, "", fields);
    Ok(Subquery(qs, jsonobj, JSONModelField(qs.model)))
  }

  /** The annotated value of one outer row: the subquery evaluated by the
      database, then read back through its output field. */
  function Resolve<O>(sq: Subquery<O>, outer: O, encode: PyValue -> Json): (r: Result<Option<Instance>, Error>)
    ensures !(sq.projection.Values <= Names(sq.query.model.fields)) ==> r == Err(FieldError)
    ensures sq.projection.Values <= Names(sq.query.model.fields) && sq.query.candidates(outer) == [] ==> r == Ok(None)
    ensures sq.projection.Values <= Names(sq.query.model.fields) && sq.query.candidates(outer) != [] ==>
      var o := EvaluateObject(sq.projection, sq.query.candidates(outer)[0], encode);
      (r.Ok? <==> o.Ok? && Coercible(sq.outputField.modelClass, o.value))
    ensures r.Ok? && sq.query.candidates(outer) != [] ==> r.value.Some?
    ensures r.Ok? && r.value.Some? ==>
      && sq.query.candidates(outer) != []
      && var o := EvaluateObject(sq.projection, sq.query.candidates(outer)[0], encode);
      && o.Ok? && Coercible(sq.outputField.modelClass, o.value)
      && r.value.value == Instance(sq.outputField.modelClass.name, ExpectedAttrs(sq.outputField.modelClass, o.value))
    ensures r.Err? ==> r.error in {FieldError, FieldDoesNotExist, ValidationError}
  {
    var value :- EvaluateSubquery(sq.query, sq.projection, outer, encode);
    FromDbValue(sq.outputField, value)
  }

  /** `outer_queryset.annotate(name=subquery)` read row by row: each outer row
      paired with its annotation; the first row whose annotation raises makes
      the whole evaluation raise. */
  function Annotate<O>(outer: seq<O>, sq: Subquery<O>, encode: PyValue -> Json): (r: Result<seq<(O, Option<Instance>)>, Error>)
    ensures r.Ok? <==> forall i :: 0 <= i < |outer| ==> Resolve(sq, outer[i], encode).Ok?
    ensures r.Ok? ==> |r.value| == |outer|
    ensures r.Ok? ==> forall i :: 0 <= i < |outer| ==> r.value[i] == (outer[i], Resolve(sq, outer[i], encode).value)
    ensures r.Err? ==> exists i :: (
      && 0 <= i < |outer|
      && (forall j :: 0 <= j < i ==> Resolve(sq, outer[j], encode).Ok?)
      && Resolve(sq, outer[i], encode).Err?
      && r.error == Resolve(sq, outer[i], encode).error)
  {
    if outer == [] then Ok([])
    else
      var first :- Resolve(sq, outer[0], encode);
      var rest :- Annotate(outer[1..], sq, encode);
      Ok([(outer[0], first)] + rest)
  }

  // ---------------------------------------------------------------------
  // Properties of the decoder and of the encode/decode round trip
  // ---------------------------------------------------------------------

  /** The deferred attributes of an instance. */
  function DeferredFields(i: Instance): set<FieldName>
  {
    set k | k in i.attrs && i.attrs[k] == Deferred
  }

  /** The attributes of an instance that already hold a value. */
  function ResolvedFields(i: Instance): set<FieldName>
  {
    set k | k in i.attrs && i.attrs[k].Resolved?
  }

  /** Decoding a JSON object partitions the declared fields: the present keys
      are resolved, exactly the declared fields absent from the object are
      deferred, the two sets are disjoint and together cover the model. */
  lemma InstantiatePartitionsFields(f: JSONModelField, dbdict: map<FieldName, Json>)
    requires Coercible(f.modelClass, dbdict)
    ensures Instantiate(f, dbdict).Ok?
    ensures var i := Instantiate(f, dbdict).value;
      && ResolvedFields(i) == dbdict.Keys
      && DeferredFields(i) == Names(f.modelClass.fields) - dbdict.Keys
      && ResolvedFields(i) !! DeferredFields(i)
      && ResolvedFields(i) + DeferredFields(i) == Names(f.modelClass.fields)
  {
  }

  /** No deferred field is ever coerced: two models with the same name and
      fields whose coercions agree on the keys present in `dbdict` decode it
      identically, whatever the absent fields' coercions would do. */
  lemma DeferredFieldsNeverCoerced(m1: ModelClass, m2: ModelClass, dbdict: map<FieldName, Json>)
    requires m1.name == m2.name && Names(m1.fields) == Names(m2.fields)
    requires forall k :: k in dbdict ==> ToPython(m1, k, dbdict[k]) == ToPython(m2, k, dbdict[k])
    ensures Instantiate(JSONModelField(m1), dbdict) == Instantiate(JSONModelField(m2), dbdict)
  {
    assert Coercible(m1, dbdict) <==> Coercible(m2, dbdict);
    if Coercible(m1, dbdict) {
      forall k | k in Names(m1.fields) ensures ExpectedAttrs(m1, dbdict)[k] == ExpectedAttrs(m2, dbdict)[k] {
        if k in dbdict {
          assert ToPython(m1, k, dbdict[k]) == ToPython(m2, k, dbdict[k]);
        }
      }
      assert ExpectedAttrs(m1, dbdict) == ExpectedAttrs(m2, dbdict);
    }
  }

  /** The stored values of `rec` in the `selected` columns survive the trip
      through the database's JSON encoding and each field's `to_python`. */
  ghost predicate Agrees(m: ModelClass, encode: PyValue -> Json, rec: Record, selected: set<FieldName>)
  {
    forall k :: k in rec && k in selected ==> ToPython(m, k, encode(rec[k])) == Ok(rec[k])
  }

  /** The attributes a row `rec` should read back as when `selected` was loaded. */
  ghost function LoadedAttrs(m: ModelClass, rec: Record, selected: set<FieldName>): map<FieldName, Slot>
    requires Names(m.fields) <= rec.Keys
  {
    map k | k in Names(m.fields) :: if k in selected then Resolved(rec[k]) else Deferred
  }

  /** Decoding the JSON object of a row projected field by field under their
      own names gives the row's values in the projected fields and `Deferred`
      in the other declared fields. */
  lemma DecodeIdentityProjection(m: ModelClass, obj: map<string, string>, rec: Record, encode: PyValue -> Json)
    requires rec.Keys == Names(m.fields)
    requires obj.Keys <= Names(m.fields)
    requires forall k :: k in obj ==> obj[k] == k
    requires Agrees(m, encode, rec, obj.Keys)
    ensures EvaluateObject(obj, rec, encode).Ok?
    ensures Instantiate(JSONModelField(m), EvaluateObject(obj, rec, encode).value)
            == Ok(Instance(m.name, LoadedAttrs(m, rec, obj.Keys)))
  {
    var dbdict := EvaluateObject(obj, rec, encode).value;
    assert Coercible(m, dbdict) by {
      forall k | k in dbdict ensures ToPython(m, k, dbdict[k]).Ok? {
        assert dbdict[k] == encode(rec[k]);
      }
    }
    var expected := LoadedAttrs(m, rec, obj.Keys);
    forall k | k in Names(m.fields) ensures ExpectedAttrs(m, dbdict)[k] == expected[k] {
      if k in dbdict {
        assert dbdict[k] == encode(rec[k]);
      }
    }
    assert ExpectedAttrs(m, dbdict) == expected;
  }

  /** Round trip for one row: projecting a stored row of the model with
      `ModelSubquery(..., fields)` and decoding the JSON object gives an
      instance whose selected fields hold the row's values and whose other
      declared fields are deferred; with `fields=None` nothing is deferred. */
  lemma DecodeProjectedRow(m: ModelClass, fields: Option<seq<FieldName>>, rec: Record, encode: PyValue -> Json)
    requires rec.Keys == Names(m.fields)
    requires ModelFields(m, fields).Ok?
    requires Agrees(m, encode, rec, ModelFields(m, fields).value)
    ensures var obj := ModelToJson(m, "", fields).value;
      && EvaluateObject(obj, rec, encode).Ok?
      && FromDbValue(JSONModelField(m), Some(EvaluateObject(obj, rec, encode).value))
         == Ok(Some(Instance(m.name, LoadedAttrs(m, rec, ModelFields(m, fields).value))))
    ensures fields.None? ==> DeferredFields(Instance(m.name, LoadedAttrs(m, rec, ModelFields(m, fields).value))) == {}
  {
    var obj := ModelToJson(m, "", fields).value;
    DecodeIdentityProjection(m, obj, rec, encode);
  }
}
