# Learning-style prediction endpoint, modelled in Dafny

This project models the request handler of a small web service. The service takes a learner's
activity metrics and returns a predicted learning style ("gaya belajar") plus a short canned
insight. The model covers the logic of the `predict()` endpoint in `app.py` and the two constants
it uses:

- **Feature schema** (`Schema.Features`): five field names in a fixed order. The classifier
  reads its input by position in this order.
- **Insight catalog** (`Schema.Insights`, `Schema.InsightFor`): three labels, each with an
  Indonesian insight text. The lookup is total, and any other label gets `""`.
- **Record validator** (`Validator.Validate`, specified by `Validator.FirstMissing`): walks the
  schema in order and reports the first field the request record lacks. It checks only that keys
  are present. It never looks at types or values.
- **Feature-vector projection** (`Projection.Project`): the record's values at the schema's
  fields, in schema order. Other keys, such as `user_id`, are dropped.
- **Response assembly** (`Handler.Predict`, specified by `Handler.Respond`): a missing field
  gives `BadRequest("<field> is required")` (status 400). Otherwise the classifier is applied
  to the projected row. If it fails, the answer is `ServerError` (status 500). If it succeeds,
  the answer is `Ok(label, InsightFor(label))` (status 200).

A request record is a `map<string, V>`: `V` is a type parameter, because values are never
inspected. The classifier is a parameter of type `seq<V> -> Option<string>`. `None` stands for
any failure after validation that the handler turns into a 500: an exception raised by the
classifier, or a label that cannot be serialised into the JSON response. Because the classifier is a parameter, any stub
classifier can be plugged in.

## Model

| member | source | states |
|---|---|---|
| Schema.FeaturesWellFormed | app.py:13-19 | the constant Schema.Features (the five field names in order) has exactly five names and they are pairwise distinct |
| Schema.InsightFor | app.py:21-25 | a label in the catalog gets its catalog text; the insight is empty exactly when the label is not in the catalog |
| Schema.InsightCatalog | app.py:21-25 | in the constant Schema.Insights, the three catalog labels map to their texts, and every other label maps to "" |
| Validator.FirstMissing | app.py:43-45 | the search over the schema in order; a reported name is in the schema and absent from the record (fully characterised by FirstMissingNoneIff, FirstMissingAt and FirstMissingIsFirst) |
| Validator.FirstMissingNoneIff | app.py:43-45 | the search reports nothing exactly when every schema name is a key of the record |
| Validator.FirstMissingAt | app.py:43-45 | if position k is missing and every earlier name is present, the name at k is the one reported |
| Validator.FirstMissingIsFirst | app.py:43-45 | a reported field is in the schema, absent from the record, and every field before it is present |
| Validator.FirstMissingOnlyReadsFields | app.py:43-44 | the search depends only on which schema names are present, not on other keys or on values |
| Validator.Validate | app.py:43-45 | the loop returns the first missing field in schema order (as FirstMissing), None exactly when all are present, and a reported field is the first missing one |
| Projection.Project | app.py:47 | the row has one entry per schema field, and entry i is the record's value at field i |
| Projection.ProjectOnlyReadsFields | app.py:47 | two records that agree on the schema fields give the same row |
| Projection.ProjectIgnoresExtraKey | app.py:47 | adding or overwriting a key outside the schema keeps the record complete and leaves the row unchanged |
| Handler.Status | app.py:45-57 | status 200 exactly for Ok, 400 exactly for BadRequest, 500 exactly for ServerError |
| Handler.RequiredMessage | app.py:45 | the 400 text is the field name followed by " is required" |
| Handler.RequiredMessageInjective | app.py:45 | the 400 message determines the field it names |
| Handler.Respond | app.py:43-57 | BadRequest exactly when a field is missing, with message "<first missing field> is required"; otherwise ServerError when the classifier fails, and otherwise Ok with the classifier's label unchanged and its catalog insight |
| Handler.Predict | app.py:38-57 | the handler (loop, early return, projection, classification, lookup) returns exactly Respond(record, classifier) |
| Handler.StatusBadRequestIff | app.py:43-45 | status 400 happens exactly when the record lacks a schema field, so a complete record never gets 400 |
| Handler.RespondOnlyConsultsClassifierOnRow | app.py:43-49 | the classifier matters only through its answer on the projected row of a complete record |
| Handler.RespondIgnoresClassifierOnMissingField | app.py:43-49 | when a field is missing the response is the same for every classifier, because the early return comes before classification |
| Handler.RespondOnlyReadsSchemaFields | app.py:43-54 | records that agree on the presence and values of the schema fields get the same response |
| Handler.RespondIgnoresExtraKey | app.py:43-54 | a passthrough key such as user_id does not change the response |
| Handler.FastLearnerScenario | app.py:43-54 | a complete record classified "Fast Learner" gets Ok with that label and its catalog text, even with a user_id key present |
| Handler.MissingFieldScenario | app.py:43-45 | a record lacking only avg_completion_ratio gets BadRequest("avg_completion_ratio is required") |

## Left out

- HTTP routing, `request.get_json`, `jsonify` and the server start-up (app.py:1, app.py:5, app.py:37-40, app.py:60-61) are framework I/O. The HTTP status is kept as an abstract tag (`Handler.Status`).
- Loading the model file with `joblib` (app.py:10-11) is file I/O in a foreign binary format. The classifier is a parameter instead.
- The classifier's internals and its numeric behaviour are foreign code. Only its outcome is modelled: a label, or a failure.
- The pandas DataFrame (app.py:47) is not modelled. Only the ordered row it yields is.
- The text of the 500 error (`str(e)`, app.py:57) depends on foreign exception messages. `ServerError` carries no message.
- A request body that is not a JSON object (null, a list, a string or a number) is not modelled. Python's `in` on those values behaves differently for each kind of value. The model's record is always a mapping.
- The health endpoint (app.py:30-32) returns a constant and has no logic.
- Only the single-record `predict()` endpoint in app.py is modelled. It has no batch mode, no per-item indices in error messages and no suggestion lists, so the model has none.
- Handler.Predict: "the classifier is not invoked when validation fails" is stated as independence of the response from the classifier (RespondIgnoresClassifierOnMissingField), since calls to a pure parameter cannot be observed.
