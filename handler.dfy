/**
 * The prediction endpoint: validate the record, project it onto the schema,
 * ask the classifier for a label, and answer with the label and its insight.
 * The classifier is a parameter; `None` from it stands for any exception it
 * raises, which the endpoint turns into a server error.
 */
module Handler {

  import opened Wrappers
  import Schema
  import Validator
  import Projection

  /** The endpoint's three outcomes; the HTTP status is given by `Status`. */
  datatype Response =
    | Ok(style: string, insight: string)
    | BadRequest(message: string)
    | ServerError

  /** The HTTP status the endpoint attaches to each kind of response. */
  function Status(r: Response): (code: int)
    ensures code == 200 <==> r.Ok?
    ensures code == 400 <==> r.BadRequest?
    ensures code == 500 <==> r.ServerError?
  {
    match r
    case Ok(_, _) => 200
    case BadRequest(_) => 400
    case ServerError => 500
  }

  /** The error text for a missing field. */
  function RequiredMessage(field: string): (message: string)
    ensures |message| == |field| + |" is required"|
    ensures message[..|field|] == field && message[|field|..] == " is required"
  {
    field + " is required"
  }

  /** Distinct fields give distinct error texts, so the message identifies the field. */
  lemma RequiredMessageInjective(f: string, g: string)
    requires RequiredMessage(f) == RequiredMessage(g)
    ensures f == g
  {
  }

  /** What the endpoint answers for `record` when the classifier is `classify`. */
  function Respond<V>(record: map<string, V>, classify: seq<V> -> Option<string>): (r: Response)
    ensures r.BadRequest? <==> !Validator.HasAll(Schema.Features, record)
    ensures r.BadRequest? ==>
              exists k :: Validator.IsFirstMissingAt(Schema.Features, record, k)
                          && r.message == RequiredMessage(Schema.Features[k])
    ensures (Validator.HasAll(Schema.Features, record)
             && classify(Projection.Project(Schema.Features, record)).None?)
              ==> r == ServerError
    ensures (Validator.HasAll(Schema.Features, record)
             && classify(Projection.Project(Schema.Features, record)).Some?)
              ==> var style := classify(Projection.Project(Schema.Features, record)).value;
                  r == Ok(style, Schema.InsightFor(style))
  {
    Validator.FirstMissingNoneIff(Schema.Features, record);
    match Validator.FirstMissing(Schema.Features, record)
    case Some(f) =>
      Validator.FirstMissingIsFirst(Schema.Features, record);
      BadRequest(RequiredMessage(f))
    case None =>
      match classify(Projection.Project(Schema.Features, record))
      case None => ServerError
      case Some(style) => Ok(style, Schema.InsightFor(style))
  }

  /**
   * The request handler: the validation loop runs first and returns early, so the
   * classifier is applied only to a record that has every field.
   */
  method Predict<V>(record: map<string, V>, classify: seq<V> -> Option<string>)
    returns (response: Response)
    ensures response == Respond(record, classify)
  {
    var missing := Validator.Validate(record);
    if missing.Some? {
      return BadRequest(RequiredMessage(missing.value));
    }
    var row := Projection.Project(Schema.Features, record);
    var prediction := classify(row);
    if prediction.None? {
      return ServerError;
    }
    var style := prediction.value;
    response := Ok(style, Schema.InsightFor(style));
  }

  /** A record with every field never gets status 400, and one lacking a field always does. */
  lemma StatusBadRequestIff<V>(record: map<string, V>, classify: seq<V> -> Option<string>)
    ensures Status(Respond(record, classify)) == 400 <==> !Validator.HasAll(Schema.Features, record)
  {
  }

  /**
   * The classifier is consulted only on the projected row of a complete record:
   * two classifiers that agree there (or anywhere, when a field is missing) yield
   * the same response.
   */
  lemma RespondOnlyConsultsClassifierOnRow<V>(
    record: map<string, V>, c1: seq<V> -> Option<string>, c2: seq<V> -> Option<string>)
    requires Validator.HasAll(Schema.Features, record) ==>
               c1(Projection.Project(Schema.Features, record))
               == c2(Projection.Project(Schema.Features, record))
    ensures Respond(record, c1) == Respond(record, c2)
  {
  }

  /** On a record missing a field the response is the same for every classifier. */
  lemma RespondIgnoresClassifierOnMissingField<V>(
    record: map<string, V>, c1: seq<V> -> Option<string>, c2: seq<V> -> Option<string>)
    requires !Validator.HasAll(Schema.Features, record)
    ensures Respond(record, c1) == Respond(record, c2)
  {
  }

  /**
   * Only the schema's fields matter: records that agree on them (presence and
   * value) get the same response, whatever other keys they carry.
   */
  lemma RespondOnlyReadsSchemaFields<V>(
    r1: map<string, V>, r2: map<string, V>, classify: seq<V> -> Option<string>)
    requires forall i :: 0 <= i < |Schema.Features| ==>
               (Schema.Features[i] in r1 <==> Schema.Features[i] in r2)
    requires forall i :: 0 <= i < |Schema.Features| && Schema.Features[i] in r1 ==>
               r1[Schema.Features[i]] == r2[Schema.Features[i]]
    ensures Respond(r1, classify) == Respond(r2, classify)
  {
    Validator.FirstMissingOnlyReadsFields(Schema.Features, r1, r2);
    Validator.FirstMissingNoneIff(Schema.Features, r1);
    Validator.FirstMissingNoneIff(Schema.Features, r2);
    if Validator.HasAll(Schema.Features, r1) {
      Projection.ProjectOnlyReadsFields(Schema.Features, r1, r2);
    }
  }

  /** A passthrough key such as `user_id` does not change the response. */
  lemma RespondIgnoresExtraKey<V>(
    record: map<string, V>, key: string, v: V, classify: seq<V> -> Option<string>)
    requires key !in Schema.Features
    ensures Respond(record[key := v], classify) == Respond(record, classify)
  {
    RespondOnlyReadsSchemaFields(record[key := v], record, classify);
  }

  /** A complete record classified as "Fast Learner" gets that label and its catalog insight. */
  lemma FastLearnerScenario(classify: seq<real> -> Option<string>)
    requires classify([5.0, 120.0, 24.0, 0.9, 4.5]) == Some("Fast Learner")
    ensures Respond(map[
                      "module_count" := 5.0,
                      "total_study_duration" := 120.0,
                      "avg_study_per_module" := 24.0,
                      "avg_completion_ratio" := 0.9,
                      "avg_submission_rating" := 4.5,
                      "user_id" := 7.0
                    ], classify)
            == Ok("Fast Learner", "Menyerap materi lebih cepat dari estimasi modul.")
  {
    var record := map[
      "module_count" := 5.0,
      "total_study_duration" := 120.0,
      "avg_study_per_module" := 24.0,
      "avg_completion_ratio" := 0.9,
      "avg_submission_rating" := 4.5,
      "user_id" := 7.0
    ];
    assert Validator.HasAll(Schema.Features, record);
    assert Projection.Project(Schema.Features, record) == [5.0, 120.0, 24.0, 0.9, 4.5];
  }

  /** A record lacking only `avg_completion_ratio` is rejected naming that field. */
  lemma MissingFieldScenario(classify: seq<real> -> Option<string>)
    ensures Respond(map[
                      "module_count" := 5.0,
                      "total_study_duration" := 120.0,
                      "avg_study_per_module" := 24.0,
                      "avg_submission_rating" := 4.5
                    ], classify)
            == BadRequest("avg_completion_ratio is required")
  {
  }
}
