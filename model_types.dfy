/** The model list as the browser app types it: each field keeps the name,
    the type tag and the two flags the views count. */
module ModelTypes {
  import opened Wrappers
  import opened Js
  import opened ParseSchema

  datatype UiField = UiField(name: string, typeName: string, required: bool, unique: bool)

  datatype UiModel = UiModel(name: string, collection: string, fields: seq<UiField>)

  /** The value of an optional record property, `undefined` when absent. */
  function Prop(r: FieldObject, k: FieldKey): Option<JsValue> {
    if k in r then r[k] else None
  }

  /** Reads a field record as the views do: `name` and `type` must be
      strings; `required` and `unique` are read by truthiness, so a missing
      flag counts as false. */
  function AsUiField(r: FieldObject): (f: Option<UiField>)
    ensures f.Some? <==>
      (Prop(r, Name).Some? && Prop(r, Name).value.JStr? && Prop(r, Type).Some? && Prop(r, Type).value.JStr?)
    ensures f.Some? ==> f.value.name == Prop(r, Name).value.s && f.value.typeName == Prop(r, Type).value.s
    ensures f.Some? ==> f.value.required == OptTruthy(Prop(r, Required)) && f.value.unique == OptTruthy(Prop(r, Unique))
  {
    match (Prop(r, Name), Prop(r, Type))
    case (Some(JStr(n)), Some(JStr(t))) =>
      Some(UiField(n, t, OptTruthy(Prop(r, Required)), OptTruthy(Prop(r, Unique))))
    case _ => None
  }

  /** Every record the server projects reads back as the field the schema
      describes: its path, its type tag and its coerced flags. */
  lemma RecordAsUiField(path: string, t: SchemaType)
    ensures AsUiField(FieldRecord(path, t))
      == Some(UiField(path, TypeName(t.instance), OptTruthy(t.isRequired), OptTruthy(OptionOf(t, "unique"))))
  {
    AlwaysPresent(path, t);
    RecordAt(path, t, Required);
    RecordAt(path, t, Unique);
  }
}
