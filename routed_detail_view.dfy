/** The model page reached through the `/model/:modelName` route: it picks
    the named model out of the full list and shows its searchable fields
    with their type badges and flag counts. */
module RoutedDetailView {
  import opened Wrappers
  import opened Lists
  import opened ModelTypes
  import opened ModelDetailView

  /** `m.name === modelName`: a missing route parameter matches nothing. */
  predicate NamedBy(modelName: Option<string>, m: UiModel) {
    modelName.Some? && m.name == modelName.value
  }

  /** `models.find(m => m.name === modelName) || null`. */
  function FindModel(models: seq<UiModel>, modelName: Option<string>): (r: Option<UiModel>)
    ensures r.Some? ==>
      exists i :: 0 <= i < |models| && models[i] == r.value && NamedBy(modelName, models[i])
                  && (forall j :: 0 <= j < i ==> !NamedBy(modelName, models[j]))
    ensures r.None? <==> forall i :: 0 <= i < |models| ==> !NamedBy(modelName, models[i])
  {
    Find(models, m => NamedBy(modelName, m))
  }

  /** What the page shows once loaded. */
  datatype Page =
    | ModelNotFound
    | Showing(model: UiModel, visible: seq<UiField>, colors: seq<Variant>,
              total: nat, required: nat, unique: nat)

  /** The page for the route's model name and a search term. The badge
      colours use the corrected lookup `TypeColor`: the page's own
      `getTypeColor` indexes a plain object as the list view does, and
      `TypeColorAsWritten` states what that lookup gives. */
  function Render(models: seq<UiModel>, modelName: Option<string>, term: string): (r: Page)
    ensures r.ModelNotFound? <==> FindModel(models, modelName).None?
    ensures r.Showing? ==>
      && r.model == FindModel(models, modelName).value
      && r.visible == FilterFields(r.model.fields, term)
      && |r.colors| == |r.visible|
      && (forall i :: 0 <= i < |r.visible| ==> r.colors[i] == TypeColor(r.visible[i].typeName))
      && r.total == |r.model.fields|
      && r.required == RequiredCount(r.model.fields)
      && r.unique == UniqueCount(r.model.fields)
  {
    match FindModel(models, modelName)
    case None => ModelNotFound
    case Some(m) =>
      var visible := FilterFields(m.fields, term);
      Showing(m, visible, seq(|visible|, i requires 0 <= i < |visible| => TypeColor(visible[i].typeName)),
              |m.fields|, RequiredCount(m.fields), UniqueCount(m.fields))
  }

  /** Without a route parameter, or with a name no model has, the page is
      the not-found view; with a name that is listed, the page shows the
      first model listed under it. */
  lemma NotFoundExactly(models: seq<UiModel>, modelName: Option<string>, term: string)
    ensures modelName.None? ==> Render(models, modelName, term) == ModelNotFound
    ensures modelName.Some? && (exists i :: 0 <= i < |models| && models[i].name == modelName.value) ==>
      Render(models, modelName, term).Showing? && Render(models, modelName, term).model.name == modelName.value
  {
    if modelName.Some? && exists i :: 0 <= i < |models| && models[i].name == modelName.value {
      var i :| 0 <= i < |models| && models[i].name == modelName.value;
      assert NamedBy(modelName, models[i]);
    }
  }

  /** The page of a found model with the empty search shows all its fields. */
  lemma EmptySearchShowsAll(models: seq<UiModel>, modelName: Option<string>)
    requires FindModel(models, modelName).Some?
    ensures Render(models, modelName, "").visible == Render(models, modelName, "").model.fields
  {
    EmptySearchKeepsFields(Render(models, modelName, "").model.fields);
  }
}
