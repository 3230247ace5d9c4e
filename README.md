# django-model-subquery, modelled in Dafny

`modelsubquery` lets a Django queryset annotate each row with a whole model
instance rather than a scalar. `ModelSubquery(queryset, fields)` packs the
selected fields of each row of the queryset into a `JSONObject`. It wraps that
projection in a correlated `Subquery` whose output field is a `JSONModelField`;
the database keeps the object of the first row, or NULL when there is none. On
read, `JSONModelField.from_db_value` turns the decoded JSON object back into an
instance of the model. Every field passes through its field's `to_python`.
Every declared field missing from the object is marked `DEFERRED`. The demo
app uses this in `PersonQuerySet.with_book_of_the_year`, which annotates each
person with the best rated book published in their birth year.

The model has four modules:

- `wrappers.dfy` (`Wrappers`): `Option` and `Result`.
- `orm.dfy` (`Orm`): the Django and Python behaviour the helper relies on.
  It covers the field registry and `get_field`, the `Model(**kwargs)`
  constructor, the `f(**a, **b)` call rule, and how sqlite evaluates a
  `JSONObject` inside a `Subquery`: the object of the first candidate row, or
  NULL when there is none.
- `functions.dfy` (`Subqueries`): `_model_fields`, `model_to_json`,
  `JSONModelField`, `from_db_value`, `instantiate_model_from_db_dict` and
  `ModelSubquery`, together with the decoding and round-trip lemmas.
- `testapp.dfy` (`TestApp`): `Book`, `Person`, the year filter, the
  `-rating` ordering, `with_book_of_the_year` and its end-to-end lemma.

Modelling choices:

- A model class is a name plus its declared fields in order. Each field
  carries a name, an opaque `to_python` coercion (a function from a raw JSON
  value to a typed value, where `None` stands for a `ValidationError`) and a
  default.
- A stored row is a `map` from field name to typed value. An instance maps
  each attribute to `Resolved(value)` or `Deferred`.
- How the database encodes a stored value into JSON is a parameter,
  `encode`. The round-trip lemmas assume that each selected field's
  `to_python` reads back what `encode` wrote for that column of the row
  (`Agrees`).
- Exceptions are `Err` values: `AssertionError`, `FieldDoesNotExist`,
  `ValidationError`, `DuplicateKeyword`, `UnexpectedKeyword` and
  `FieldError`.

Three behaviours of the code worth stating up front:

- An undeclared requested field fails through Python's `assert`
  (`AssertionError`).
- The primary key is not forced into the selection, as the TODO at
  `src/modelsubquery/functions.py:14` says.
- The docstring of `_model_fields` (`src/modelsubquery/functions.py:11-12`)
  documents `fields="__all__"` as selecting every declared field, but the code
  only tests `fields is None` (line 16). A string `"__all__"` is iterated as
  the names `"_"`, `"a"` and `"l"`, so the call fails the assertion unless the
  model declares fields with those names. The model follows the code:
  `fields=None` selects everything (`Subqueries.ModelFields`), and
  `Subqueries.AllStringIsNotASentinel` states the failure.

## Model

| member | source | states |
|---|---|---|
| `Orm.FieldIndex` | src/modelsubquery/functions.py:46 | `_meta.get_field(k)` finds a field exactly when `k` is a declared name; the position it finds holds a field named `k`, and it is the first such position |
| `Orm.GetField` | src/modelsubquery/functions.py:46 | `get_field(k)` succeeds iff `k` is declared and returns the field named `k`; otherwise `FieldDoesNotExist` |
| `Orm.GetFieldFirstDeclared` | src/modelsubquery/functions.py:46 | the field `get_field(k)` returns is one of the model's own declared fields, the first one named `k` |
| `Orm.MergeKeywords` | src/modelsubquery/functions.py:50 | the call `Model(**kwargs, **deferred)` fails with a duplicate-keyword error iff the two mappings share a key; otherwise the callee receives every keyword of both with its own value |
| `Orm.Construct` | src/modelsubquery/functions.py:50 | `Model(**kw)` succeeds iff every keyword is a declared field; the instance has exactly the declared attributes, each keyword's slot as given (`DEFERRED` stays deferred) and defaults elsewhere |
| `Orm.EvaluateObject` | src/modelsubquery/functions.py:60 | the database's `JSONObject` over one row has exactly the object's keys, each bound to the encoded column its path names; a path that is not a column is a `FieldError` |
| `Orm.EvaluateSubquery` | src/modelsubquery/functions.py:72-73 | the subquery yields NULL when there is no candidate row and otherwise the JSON object of the first candidate; an unknown path fails whatever the candidate rows are, even when there are none |
| `Subqueries.ModelFields` | src/modelsubquery/functions.py:9-20 | `fields=None` selects exactly the declared names; an explicit list fails with `AssertionError` iff it names an undeclared field, and otherwise selects exactly the requested names, always a subset of the declared ones |
| `Subqueries.AllStringIsNotASentinel` | src/modelsubquery/functions.py:11-19 | passing the documented `fields="__all__"` iterates the string's characters as field names, so for a model with no field named `"_"` the call fails with `AssertionError` instead of selecting every field |
| `Subqueries.ModelToJson` | src/modelsubquery/functions.py:53-60 | fails exactly when field selection fails; the object's keys are exactly the selected fields; each maps to the field name for an empty path and to `path + "__" + field` otherwise |
| `Subqueries.ToPython` | src/modelsubquery/functions.py:46 | coercing key `k` succeeds iff `k` is declared and that field's `to_python` accepts the raw value, and then yields that field's coercion |
| `Subqueries.CoercedKeywords` | src/modelsubquery/functions.py:45-48 | the keyword dict is built iff every key is declared and coercible; it has exactly the object's keys, each resolved to its coerced value; an undeclared key reports `FieldDoesNotExist`, and a rejected value with every key declared reports `ValidationError` |
| `Subqueries.Instantiate` | src/modelsubquery/functions.py:41-50 | instantiation succeeds iff every present key is declared and coercible; the instance has every declared field, present keys resolved to their coerced values and all others `Deferred`; a duplicate or unexpected keyword never arises; a failure is `FieldDoesNotExist` when some key is undeclared and `ValidationError` otherwise |
| `Subqueries.FromDbValue` | src/modelsubquery/functions.py:35-39 | NULL reads as `None`, and no instance is built; a JSON object yields an instance iff it is coercible, and that instance is exactly `instantiate_model_from_db_dict`'s: the bound model, each present key resolved to its coerced value and every other declared field `Deferred`; otherwise the instantiation error propagates unchanged |
| `Subqueries.ModelSubquery` | src/modelsubquery/functions.py:63-75 | fails exactly when the selection is invalid; otherwise it keeps the queryset, binds a `JSONModelField` to the queryset's model, and projects exactly the selected fields, each read directly off the candidate row |
| `Subqueries.Resolve` | src/modelsubquery/functions.py:35-39 | one outer row's annotation: an unknown projected path is a `FieldError`; no candidate row reads as `None`; otherwise it succeeds iff the first candidate's object is built and every key coerces, and then yields an instance; an instance comes only from the first candidate row and is exactly that row's object decoded, present keys resolved and the other declared fields `Deferred`; the only errors are `FieldError`, `FieldDoesNotExist` and `ValidationError` |
| `Subqueries.Annotate` | testproject/testapp/models.py:24 | annotating succeeds iff every outer row's subquery value decodes; the result pairs each outer row, in order, with its own decoded annotation; on failure the error is that of the first outer row whose annotation fails |
| `Subqueries.InstantiatePartitionsFields` | src/modelsubquery/functions.py:42-50 | the resolved fields are exactly the present keys; the deferred fields are exactly declared minus present; the two are disjoint and together cover every declared field |
| `Subqueries.DeferredFieldsNeverCoerced` | src/modelsubquery/functions.py:45-49 | decoding depends only on the coercions of the keys present: models that differ only in the coercions of absent fields decode every object identically |
| `Subqueries.DecodeIdentityProjection` | src/modelsubquery/functions.py:41-50 | decoding the object of a stored row, projected field by field under the fields' own names, resolves exactly the projected fields to the row's values and defers every other declared field |
| `Subqueries.DecodeProjectedRow` | src/modelsubquery/functions.py:41-75 | round trip: projecting a stored row with `ModelSubquery(..., fields)` and decoding it gives the row's own values in exactly the selected fields and `Deferred` in all other declared fields; with `fields=None` nothing is deferred |
| `TestApp.BookRecord` | testproject/testapp/models.py:9-13 | a stored book has exactly the columns `id`, `title`, `rating`, `published`, `has_cover`; a NULL rating is stored as `None` |
| `TestApp.PublishedIn` | testproject/testapp/models.py:22-23 | the candidates are exactly the books whose `published` year equals the given year, each as many times as it is stored |
| `TestApp.InsertByRating` | testproject/testapp/models.py:23 | inserting a book adds exactly that book, by multiset, and keeps a rating-descending sequence sorted |
| `TestApp.OrderByRatingDesc` | testproject/testapp/models.py:23 | `order_by("-rating")` returns a permutation of its input, sorted by rating descending with NULL ratings last, as in sqlite |
| `TestApp.SortedHeadIsBest` | testproject/testapp/models.py:23-24 | the first row of a rating-descending reordering of the candidates is one of them and is rated at least as high as every candidate |
| `TestApp.BookQuerySet` | testproject/testapp/models.py:22-23 | for each person, the candidate rows are, as a multiset, exactly the stored rows of the books published in their birth year, each as often as it is stored; the first row is the row of `BookOfTheYear` |
| `TestApp.RecordsOfOrder` | testproject/testapp/models.py:23 | ordering by rating only reorders the stored rows: the same rows, each as often as before |
| `TestApp.BookOfTheYear` | testproject/testapp/models.py:22-24 | the chosen book is `None` iff no book was published in the year; otherwise it is one of the books, published in that year, and rated at least as high as every such book |
| `TestApp.WithBookOfTheYear` | testproject/testapp/models.py:17-24 | an invalid `fields` fails eagerly with `AssertionError`, even with no person; on success, every person appears once, in order |
| `TestApp.PersonAnnotation` | testproject/testapp/models.py:22-24 | one person's annotation is `None` when no book matches their birth year; otherwise it is the instance of the chosen book, with that one book's values in the selected fields and the others deferred |
| `TestApp.WithBookOfTheYearRoundTrip` | testproject/testapp/models.py:17-24 | end to end: for a valid `fields` and agreeing coercions, the annotated queryset succeeds, and each person carries exactly the decoded instance of their chosen book under the deferral rules of the `fields` passed through |
| `TestApp.OnlyIdSelected` | testproject/testapp/tests.py:71-81 | with `fields=["id"]`, only `id` is loaded, holding the book's id; `title`, `rating`, `published` and `has_cover` are deferred |
| `TestApp.BestRatedIsChosen` | testproject/testapp/models.py:23-24 | a book of the year rated strictly above every other book of that year is the one chosen, whatever the storage order |
| `TestApp.BestOfTwoIsChosen` | testproject/testapp/tests.py:53-59 | of two books of the year rated 10 and 1, the one rated 10 is chosen in either storage order |

## Left out

- Loading a deferred field on access is not modelled: the fetch by primary key, the one query per access, and the error when the row is gone. So are `save()` and `refresh_from_db()`. All of this is Django `Model` machinery; the model keeps only the `Deferred` marker.
- Django's `Model.__eq__` (same model, same primary key) is not modelled. The round trip instead states that the decoded `id` equals the stored one.
- SQL generation for `JSONObject`, `Subquery`, `values_list`, `OuterRef` and `ExtractYear` is not modelled. Their results are stated directly: the object of the first candidate row or NULL, and a date's `year` component.
- JSON text encoding by the database and decoding by `JSONField` are left out. The model starts from the decoded key-to-raw-value map.
- The concrete `to_python` coercions (date parsing, integer and boolean normalisation) are opaque per-field functions.
- What happens after the first load of a deferred field is not modelled: Django then caches the value on the instance.
- Orm.Construct: field defaults are constants. A callable default, such as `date.today` for `Book.published` (`testproject/testapp/models.py:12`), is not modelled. `Subqueries.Instantiate` passes every declared field explicitly and never reaches a default.
- Subqueries.CoercedKeywords: in Python the first failing key in dict order raises. When one object holds both an undeclared key and a value its field rejects, the model always reports `FieldDoesNotExist` and names no key.
- Subqueries.Instantiate: inherits the same simplification from `CoercedKeywords`: for an object with both an undeclared key and a rejected value it reports `FieldDoesNotExist`, where Python raises whichever comes first in dict order.
- Subqueries.ModelFields: assumes Python runs with assertions enabled. Under `python -O`, the check at `functions.py:19` is skipped and undeclared names are silently dropped by the intersection.
- Subqueries.ModelFields: `fields` is modelled as a re-iterable collection (a list or tuple). A one-shot iterator such as a generator is used up by `issuperset` at `functions.py:19`, so the `intersection` at `functions.py:20` selects nothing and every field would be deferred.
- Orm.EvaluateObject: resolves only direct column names. Relation paths (`path + "__" + field`) are built by `ModelToJson` but are not followed through joins, and `ModelSubquery` never uses them.
- Orm.EvaluateSubquery: Django resolves lookup paths once, when the subquery is built, and raises `FieldError` then; the model checks them each time an outer row is evaluated. `ModelSubquery` only projects declared fields, so this error never arises from it.
- Orm.EvaluateSubquery: follows sqlite, which takes the first row of a multi-row scalar subquery. Other databases may raise an error instead, because the source does not slice the queryset to one row.
- TestApp.OrderByRatingDesc: SQL leaves the order of equal ratings unspecified. The definition happens to keep input order, but no contract states or relies on it.
- `_meta.get_fields()` also lists reverse relations. The model takes a model's declared fields to be exactly the ones its constructor accepts.
- The primary key is not forced into the selection, matching the source.
- `testproject/testproject/settings.py` is configuration only. It is not part of this model, except that the database is sqlite.
