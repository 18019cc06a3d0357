/** The home page: the model search, the summary tiles (models, fields,
    collections), and each model card's type preview. */
module HomeView {
  import opened Strings
  import opened Lists
  import opened ModelTypes

  /** A model is kept when its name or its collection contains the term,
      ignoring case. */
  predicate ModelMatches(term: string, m: UiModel) {
    ContainsIgnoringCase(m.name, term) || ContainsIgnoringCase(m.collection, term)
  }

  function FilterModels(models: seq<UiModel>, term: string): (r: seq<UiModel>)
    ensures IsSubsequence(r, models)
    ensures forall i :: 0 <= i < |r| ==> r[i] in models && ModelMatches(term, r[i])
    ensures forall i :: 0 <= i < |models| && ModelMatches(term, models[i]) ==> models[i] in r
    ensures forall i :: 0 <= i < |models| ==>
      multiset(r)[models[i]] == if ModelMatches(term, models[i]) then multiset(models)[models[i]] else 0
  {
    Filter(models, m => ModelMatches(term, m))
  }

  /** The empty search keeps every model, in order. */
  lemma EmptySearchKeepsModels(models: seq<UiModel>)
    ensures FilterModels(models, "") == models
  {
    forall i | 0 <= i < |models| ensures ModelMatches("", models[i]) {
      EmptyTermMatches(models[i].name);
    }
    FilterKeepsAll(models, m => ModelMatches("", m));
  }

  /** The total-fields tile: the running sum of field counts from `0`. */
  function TotalFields(models: seq<UiModel>): (n: nat)
    ensures models == [] ==> n == 0
    decreases |models|
  {
    if models == [] then 0
    else TotalFields(models[..|models| - 1]) + |models[|models| - 1].fields|
  }

  /** The total adds up over a concatenation of model lists. */
  lemma {:induction false} TotalFieldsAppend(a: seq<UiModel>, b: seq<UiModel>)
    ensures TotalFields(a + b) == TotalFields(a) + TotalFields(b)
    decreases |b|
  {
    if b != [] {
      var b' := b[..|b| - 1];
      assert (a + b)[..|a + b| - 1] == a + b';
      assert (a + b)[|a + b| - 1] == b[|b| - 1];
      TotalFieldsAppend(a, b');
    } else {
      assert a + b == a;
    }
  }

  /** Every model's fields are counted in the total. */
  lemma {:induction false} TotalCountsEachModel(models: seq<UiModel>, i: nat)
    requires i < |models|
    ensures |models[i].fields| <= TotalFields(models)
  {
    assert models == models[..i] + [models[i]] + models[i + 1..];
    TotalFieldsAppend(models[..i] + [models[i]], models[i + 1..]);
    TotalFieldsAppend(models[..i], [models[i]]);
    assert [models[i]][..0] == [];
  }

  function Collections(models: seq<UiModel>): (r: seq<string>)
    ensures |r| == |models| && forall i :: 0 <= i < |models| ==> r[i] == models[i].collection
  {
    seq(|models|, i requires 0 <= i < |models| => models[i].collection)
  }

  /** The collections tile: the number of distinct collection names, at
      least one when there is a model and never more than the models. */
  function CollectionCount(models: seq<UiModel>): (n: nat)
    ensures n <= |models|
    ensures |models| > 0 ==> n >= 1
    ensures n == |Distinct(Collections(models))|
  {
    var cs := Collections(models);
    assert |models| > 0 ==> cs[0] in Distinct(cs);
    DistinctCount(cs)
  }

  function FieldTypes(fields: seq<UiField>): (r: seq<string>)
    ensures |r| == |fields| && forall i :: 0 <= i < |fields| ==> r[i] == fields[i].typeName
  {
    seq(|fields|, i requires 0 <= i < |fields| => fields[i].typeName)
  }

  const PreviewSize := 4

  /** The type badges of a card: the first four distinct types, in
      first-appearance order. */
  function TypePreview(fields: seq<UiField>): (r: seq<string>)
    ensures |r| <= PreviewSize
    ensures NoDuplicates(r)
    ensures |r| <= |Distinct(FieldTypes(fields))| && r == Distinct(FieldTypes(fields))[..|r|]
    ensures |r| == if DistinctCount(FieldTypes(fields)) < PreviewSize then DistinctCount(FieldTypes(fields)) else PreviewSize
  {
    Take(Distinct(FieldTypes(fields)), PreviewSize)
  }

  /** The `+N` badge: shown only when there are more than four distinct
      types, counting the ones left out of the preview. */
  function Overflow(fields: seq<UiField>): (r: nat)
    ensures r > 0 <==> DistinctCount(FieldTypes(fields)) > PreviewSize
    ensures r > 0 ==> r == DistinctCount(FieldTypes(fields)) - PreviewSize
  {
    var n := DistinctCount(FieldTypes(fields));
    if n > PreviewSize then n - PreviewSize else 0
  }

  /** The preview and the badge together account for every distinct type. */
  lemma PreviewAndOverflowCover(fields: seq<UiField>)
    ensures |TypePreview(fields)| + Overflow(fields) == DistinctCount(FieldTypes(fields))
  {
  }

  lemma FieldTypesPrefix(fields: seq<UiField>, more: seq<UiField>)
    ensures FieldTypes(fields + more)[..|fields|] == FieldTypes(fields)
  {
  }

  /** The preview of a field list is a prefix of the preview after more
      fields are added, as long as it was not full. */
  lemma PreviewStable(fields: seq<UiField>, more: seq<UiField>)
    requires |TypePreview(fields)| < PreviewSize
    ensures |TypePreview(fields)| <= |TypePreview(fields + more)|
    ensures TypePreview(fields) == TypePreview(fields + more)[..|TypePreview(fields)|]
  {
    var all := FieldTypes(fields + more);
    FieldTypesPrefix(fields, more);
    DistinctPrefix(all, |fields|);
    var d1 := Distinct(FieldTypes(fields));
    assert TypePreview(fields) == d1;
    TakeKeepsShortPrefix(d1, Distinct(all), PreviewSize);
  }

  /** The count label beside the heading. */
  function CountLabel(n: int): (r: string)
    ensures r == "Model" <==> n == 1
    ensures r != "Model" ==> r == "Models"
  {
    if n == 1 then "Model" else "Models"
  }

  /** The message shown when no card matches. */
  function EmptyMessage(term: string): (r: string)
    ensures term == "" ==> r == "Start by defining some Mongoose models"
    ensures term != "" ==> r == "No models match \"" + term + "\""
  {
    if term != "" then "No models match \"" + term + "\"" else "Start by defining some Mongoose models"
  }
}
