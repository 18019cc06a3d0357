/** The registry scanner: every registered model name, with the collection
    name and schema of the model registered under it. */
module ScanModels {
  import opened Wrappers
  import opened ParseSchema

  /** A thrown value: an `Error` instance carries a message, anything else
      thrown does not. */
  datatype Thrown = ErrorInstance(message: string) | NonError

  /** A registered model as the scanner reads it. */
  datatype Model = Model(collectionName: string, schema: Schema)

  /** What `mongoose.model(name)` does: return a model, return nothing, or
      throw. */
  datatype LookupOutcome = Found(model: Model) | Missing | Threw(thrown: Thrown)

  /** The mapper's registry: the names `modelNames()` lists, in order, and
      the lookup `model(name)`. */
  datatype Registry = Registry(names: seq<string>, lookup: string -> LookupOutcome)

  /** One entry of the scan. */
  datatype ScannedModel = ScannedModel(name: string, collection: string, schema: Schema)

  /** What reading `.collection` of a missing model throws. */
  const MissingModelError := ErrorInstance("Cannot read properties of undefined (reading 'collection')")

  /** The error that scanning a name raises, if any. */
  function ScanError(o: LookupOutcome): Option<Thrown> {
    match o
    case Found(_) => None
    case Missing => Some(MissingModelError)
    case Threw(e) => Some(e)
  }

  /** Every name in `names` resolves to a model. */
  ghost predicate AllFound(reg: Registry, names: seq<string>) {
    forall i :: 0 <= i < |names| ==> reg.lookup(names[i]).Found?
  }

  /** Some name fails with error `e` and every name before it resolves. */
  ghost predicate FailsFirstAt(reg: Registry, names: seq<string>, e: Thrown) {
    exists i :: 0 <= i < |names| && AllFound(reg, names[..i]) && ScanError(reg.lookup(names[i])) == Some(e)
  }

  lemma FailsLater(reg: Registry, names: seq<string>, e: Thrown)
    requires |names| > 0 && reg.lookup(names[0]).Found?
    requires FailsFirstAt(reg, names[1..], e)
    ensures FailsFirstAt(reg, names, e)
  {
    var j :| 0 <= j < |names[1..]| && AllFound(reg, names[1..][..j]) && ScanError(reg.lookup(names[1..][j])) == Some(e);
    assert names[..j + 1] == [names[0]] + names[1..][..j];
    assert names[j + 1] == names[1..][j];
  }

  /** The `map` over `names`: stops at the first name whose lookup fails
      and propagates that error. */
  function ScanNames(reg: Registry, names: seq<string>): (r: Result<seq<ScannedModel>, Thrown>)
    ensures r.Success? <==> AllFound(reg, names)
    ensures r.Success? ==> |r.value| == |names|
    ensures r.Success? ==> forall i :: 0 <= i < |names| ==>
      r.value[i] == ScannedModel(names[i], reg.lookup(names[i]).model.collectionName,
                                 reg.lookup(names[i]).model.schema)
    ensures r.Failure? ==> FailsFirstAt(reg, names, r.error)
    decreases |names|
  {
    if names == [] then Success([])
    else
      match reg.lookup(names[0])
      case Missing => Failure(MissingModelError)
      case Threw(e) => Failure(e)
      case Found(m) =>
        match ScanNames(reg, names[1..])
        case Failure(e) =>
          FailsLater(reg, names, e);
          Failure(e)
        case Success(rest) =>
          Success([ScannedModel(names[0], m.collectionName, m.schema)] + rest)
  }

  /** `scanModels`: scans every registered name. */
  function Scan(reg: Registry): (r: Result<seq<ScannedModel>, Thrown>)
    ensures r.Success? <==> AllFound(reg, reg.names)
    ensures r.Success? ==> |r.value| == |reg.names|
    ensures r.Success? ==> forall i :: 0 <= i < |reg.names| ==>
      && r.value[i].name == reg.names[i]
      && r.value[i].collection == reg.lookup(reg.names[i]).model.collectionName
      && r.value[i].schema == reg.lookup(reg.names[i]).model.schema
    ensures r.Failure? ==> FailsFirstAt(reg, reg.names, r.error)
  {
    ScanNames(reg, reg.names)
  }
}
