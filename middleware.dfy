/** The two JSON endpoints of the mounted router and the title default:
    `GET /api/models` lists every model with its projected fields, and
    `GET /api/models/:modelName` describes one. */
module Middleware {
  import opened Wrappers
  import opened ParseSchema
  import opened ScanModels

  const DefaultTitle := "MongoDB Model Visualizer"
  const NotFoundMessage := "Model not found"
  const GenericErrorMessage := "An error occurred"

  /** The model summary both endpoints send. */
  datatype ModelSummary = ModelSummary(name: string, collection: string, fields: seq<FieldObject>)

  datatype Payload = ModelList(models: seq<ModelSummary>) | SingleModel(model: ModelSummary)

  /** The JSON envelope `{success, data?, error?, title?}`. */
  datatype Envelope = Envelope(success: bool, data: Option<Payload>, error: Option<string>, title: Option<string>)

  /** An HTTP status with the JSON body, before serialisation. */
  datatype Response = Response(status: int, body: Envelope)

  /** `options?.title || 'MongoDB Model Visualizer'`: an empty title counts
      as missing. */
  function Title(option: Option<string>): (r: string)
    ensures r != ""
    ensures option.Some? && option.value != "" ==> r == option.value
    ensures option.None? || option.value == "" ==> r == DefaultTitle
  {
    if option.Some? && option.value != "" then option.value else DefaultTitle
  }

  /** `error instanceof Error ? error.message : 'An error occurred'`. */
  function ErrorMessage(e: Thrown): (r: string)
    ensures e.ErrorInstance? ==> r == e.message
    ensures e.NonError? ==> r == GenericErrorMessage
  {
    match e
    case ErrorInstance(m) => m
    case NonError => GenericErrorMessage
  }

  /** The catch block of either handler: status 500 (RFC 9110 section
      15.6.1, Internal Server Error) with the error's message. */
  function ServerError(e: Thrown): (r: Response)
    ensures r.status == 500 && !r.body.success
    ensures r.body.error == Some(ErrorMessage(e)) && r.body.data.None? && r.body.title.None?
  {
    Response(500, Envelope(false, None, Some(ErrorMessage(e)), None))
  }

  /** The summaries the list endpoint sends: one per scanned model, in
      order, with the model's projected fields. */
  function Summaries(ms: seq<ScannedModel>): (r: seq<ModelSummary>)
    ensures |r| == |ms|
    ensures forall i :: 0 <= i < |ms| ==>
      r[i] == ModelSummary(ms[i].name, ms[i].collection, ProjectSchema(ms[i].schema))
  {
    seq(|ms|, i requires 0 <= i < |ms| => ModelSummary(ms[i].name, ms[i].collection, ProjectSchema(ms[i].schema)))
  }

  /** `GET /api/models`: scans the registry and sends every model with its
      fields and the title resolved from the router's `title` option; any
      error thrown while scanning becomes a 500. */
  method ListModels(reg: Registry, titleOption: Option<string>) returns (res: Response)
    ensures Scan(reg).Failure? ==> res == ServerError(Scan(reg).error)
    ensures Scan(reg).Success? ==>
      res == Response(200, Envelope(true, Some(ModelList(Summaries(Scan(reg).value))), None, Some(Title(titleOption))))
  {
    var title := Title(titleOption);
    var scanned := Scan(reg);
    if scanned.Failure? {
      return ServerError(scanned.error);
    }
    var ms := scanned.value;
    var models: seq<ModelSummary> := [];
    var i := 0;
    while i < |ms|
      invariant 0 <= i <= |ms|
      invariant models == Summaries(ms[..i])
    {
      var fields := ParseSchema.ParseSchema(ms[i].schema);
      models := models + [ModelSummary(ms[i].name, ms[i].collection, fields)];
      i := i + 1;
      assert ms[..i] == ms[..i - 1] + [ms[i - 1]];
    }
    assert ms[..i] == ms;
    res := Response(200, Envelope(true, Some(ModelList(models)), None, Some(title)));
  }

  /** `GET /api/models/:modelName`: a model that resolves is sent under the
      requested name, without a title; a lookup that yields nothing is a 404
      (RFC 9110 section 15.5.5, Not Found); a lookup that throws is a 500. */
  method GetModel(reg: Registry, modelName: string) returns (res: Response)
    ensures reg.lookup(modelName).Missing? ==>
      res == Response(404, Envelope(false, None, Some(NotFoundMessage), None))
    ensures reg.lookup(modelName).Threw? ==> res == ServerError(reg.lookup(modelName).thrown)
    ensures reg.lookup(modelName).Found? ==>
      var m := reg.lookup(modelName).model;
      res == Response(200, Envelope(true, Some(SingleModel(ModelSummary(modelName, m.collectionName, ProjectSchema(m.schema)))), None, None))
  {
    var outcome := reg.lookup(modelName);
    match outcome {
      case Threw(e) =>
        res := ServerError(e);
      case Missing =>
        res := Response(404, Envelope(false, None, Some(NotFoundMessage), None));
      case Found(m) =>
        var fields := ParseSchema.ParseSchema(m.schema);
        res := Response(200, Envelope(true, Some(SingleModel(ModelSummary(modelName, m.collectionName, fields))), None, None));
    }
  }

  /** A registered model's list entry and its single-model payload carry the
      same collection and fields. */
  lemma ListAgreesWithSingle(reg: Registry, i: nat)
    requires Scan(reg).Success? && i < |reg.names|
    ensures reg.lookup(reg.names[i]).Found?
    ensures var m := reg.lookup(reg.names[i]).model;
      Summaries(Scan(reg).value)[i] == ModelSummary(reg.names[i], m.collectionName, ProjectSchema(m.schema))
  {
  }
}
