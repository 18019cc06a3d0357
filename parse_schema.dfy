/** The schema projector: each path of a document-mapper schema becomes a
    flat field record with defaults filled in and `undefined` properties
    deleted. */
module ParseSchema {
  import opened Wrappers
  import opened Js

  /** What the projector reads from one schema type: its `instance` tag,
      its `isRequired` flag, its `enumValues` and its `options` object (which
      may itself be missing). Each may be `undefined`. */
  datatype SchemaType = SchemaType(
    instance: Option<string>,
    isRequired: Option<JsValue>,
    enumValues: Option<JsValue>,
    options: Option<map<string, JsValue>>)

  /** A schema as the mapper's `eachPath` visits it: paths in visit order. */
  type Schema = seq<(string, SchemaType)>

  /** The properties of a field record, in the order the record literal
      lists them; `KeyName` gives each one's JSON name. */
  datatype FieldKey =
    | Name | Type | Required | Unique | Index | Default | Enum | Ref | Min | Max
    | MinLength | MaxLength | Match | Lowercase | Uppercase | Trim | IsArrayKey

  function KeyName(k: FieldKey): string {
    match k
    case Name => "name"
    case Type => "type"
    case Required => "required"
    case Unique => "unique"
    case Index => "index"
    case Default => "default"
    case Enum => "enum"
    case Ref => "ref"
    case Min => "min"
    case Max => "max"
    case MinLength => "minlength"
    case MaxLength => "maxlength"
    case Match => "match"
    case Lowercase => "lowercase"
    case Uppercase => "uppercase"
    case Trim => "trim"
    case IsArrayKey => "isArray"
  }

  /** A field record: a JavaScript object over the record's keys. */
  type FieldObject = map<FieldKey, Option<JsValue>>

  const FieldKeys: seq<FieldKey> := [
    Name, Type, Required, Unique, Index, Default, Enum, Ref, Min, Max,
    MinLength, MaxLength, Match, Lowercase, Uppercase, Trim, IsArrayKey]

  /** The keys whose value is copied verbatim from the same-named option. */
  predicate IsCopied(k: FieldKey) {
    k in {Default, Ref, Min, Max, MinLength, MaxLength, Lowercase, Uppercase, Trim}
  }

  /** No property of the record holds `undefined`. */
  ghost predicate Defined(o: FieldObject) {
    forall k :: k in o ==> o[k].Some?
  }

  /** `type.instance || 'Mixed'`. */
  function TypeName(instance: Option<string>): (r: string)
    ensures instance.Some? && instance.value != "" ==> r == instance.value
    ensures instance.None? || instance.value == "" ==> r == "Mixed"
  {
    if instance.Some? && instance.value != "" then instance.value else "Mixed"
  }

  /** `type.options?.match?.toString()`: `undefined` when the option is
      missing or `null`, its string form otherwise. */
  function MatchString(m: Option<JsValue>): (r: Option<JsValue>)
    ensures r.Some? <==> m.Some? && m.value != JNull
    ensures r.Some? ==> r.value == JStr(ToJsString(m.value))
  {
    if m.Some? && m.value != JNull then Some(JStr(ToJsString(m.value))) else None
  }

  /** `type.options?.<name>`. */
  function OptionOf(t: SchemaType, name: string): Option<JsValue> {
    Get(t.options, name)
  }

  /** The value the record literal gives each key for one path (`None`
      standing for `undefined`). */
  function FieldValue(path: string, t: SchemaType, k: FieldKey): Option<JsValue> {
    match k
    case Name => Some(JStr(path))
    case Type => Some(JStr(TypeName(t.instance)))
    case Required => Some(JBool(OptTruthy(t.isRequired)))
    case Unique => Some(JBool(OptTruthy(OptionOf(t, "unique"))))
    case Index => Some(JBool(OptTruthy(OptionOf(t, "index"))))
    case Enum => Some(if OptTruthy(t.enumValues) then t.enumValues.value else JArray([]))
    case Match => MatchString(OptionOf(t, "match"))
    case IsArrayKey => Some(JBool(IsArray(OptionOf(t, "type"))))
    case _ => OptionOf(t, KeyName(k))
  }

  /** Every key of the record is listed in `FieldKeys`. */
  lemma AllKeysListed()
    ensures forall k :: k in FieldKeys
  {
    forall k ensures k in FieldKeys {
      match k
      case Name => case Type => case Required => case Unique => case Index =>
      case Default => case Enum => case Ref => case Min => case Max =>
      case MinLength => case MaxLength => case Match => case Lowercase =>
      case Uppercase => case Trim => case IsArrayKey =>
    }
  }

  /** The record literal built for one path, before clean-up: every key is
      present, some holding `undefined`. */
  function FieldInfo(path: string, t: SchemaType): (r: FieldObject)
    ensures forall k :: k in r && r[k] == FieldValue(path, t, k)
  {
    AllKeysListed();
    map k | k in FieldKeys :: FieldValue(path, t, k)
  }

  /** The object with every property that holds `undefined` deleted. */
  function DropUndefined(o: FieldObject): (r: FieldObject)
    ensures Defined(r)
    ensures forall k :: k in r <==> k in o && o[k].Some?
    ensures forall k :: k in r ==> r[k] == o[k]
  {
    map k | k in o && o[k].Some? :: o[k]
  }

  /** The cleaned record for one path, what `parseSchema` pushes for it. */
  function FieldRecord(path: string, t: SchemaType): (r: FieldObject)
    ensures Defined(r)
  {
    AllKeysListed();
    map k | k in FieldKeys && FieldValue(path, t, k).Some? :: FieldValue(path, t, k)
  }

  /** A key is in the cleaned record exactly when the literal gives it a
      defined value, and then it holds that value. */
  lemma RecordAt(path: string, t: SchemaType, k: FieldKey)
    ensures k in FieldRecord(path, t) <==> FieldValue(path, t, k).Some?
    ensures k in FieldRecord(path, t) ==> FieldRecord(path, t)[k] == FieldValue(path, t, k)
  {
  }

  /** `name`, `type` and `enum` are never deleted: `name` is the path,
      `type` the instance tag or `Mixed`, and `enum` the enum values when
      truthy, else the empty list. */
  lemma AlwaysPresent(path: string, t: SchemaType)
    ensures var r := FieldRecord(path, t);
      && Name in r && r[Name] == Some(JStr(path))
      && Type in r && r[Type] == Some(JStr(TypeName(t.instance)))
      && Enum in r
      && r[Enum] == (if OptTruthy(t.enumValues) then t.enumValues else Some(JArray([])))
  {
    RecordAt(path, t, Name);
    RecordAt(path, t, Type);
    RecordAt(path, t, Enum);
  }

  /** The `required`, `unique` and `index` flags are never deleted and
      always hold a boolean, coerced by truthiness from the schema's
      (possibly missing) values. */
  lemma FlagsCoerced(path: string, t: SchemaType)
    ensures var r := FieldRecord(path, t);
      && Required in r && r[Required] == Some(JBool(OptTruthy(t.isRequired)))
      && Unique in r && r[Unique] == Some(JBool(OptTruthy(OptionOf(t, "unique"))))
      && Index in r && r[Index] == Some(JBool(OptTruthy(OptionOf(t, "index"))))
  {
    RecordAt(path, t, Required);
    RecordAt(path, t, Unique);
    RecordAt(path, t, Index);
  }

  /** `isArray` is never deleted and is true exactly when the `type` option
      is an array. */
  lemma IsArrayFlag(path: string, t: SchemaType)
    ensures var r := FieldRecord(path, t);
      IsArrayKey in r && r[IsArrayKey] == Some(JBool(IsArray(OptionOf(t, "type"))))
  {
    RecordAt(path, t, IsArrayKey);
  }

  /** Each optional constraint is present exactly when its option is defined,
      and then holds the option's value unchanged. */
  lemma CopiedVerbatim(path: string, t: SchemaType, k: FieldKey)
    requires IsCopied(k)
    ensures k in FieldRecord(path, t) <==> OptionOf(t, KeyName(k)).Some?
    ensures k in FieldRecord(path, t) ==> FieldRecord(path, t)[k] == OptionOf(t, KeyName(k))
  {
    RecordAt(path, t, k);
  }

  /** `match` is present exactly when the option is neither missing nor
      `null`, and then holds the option's string form. */
  lemma MatchStringified(path: string, t: SchemaType)
    ensures Match in FieldRecord(path, t) <==> OptionOf(t, "match").Some? && OptionOf(t, "match").value != JNull
    ensures Match in FieldRecord(path, t) ==>
      FieldRecord(path, t)[Match] == Some(JStr(ToJsString(OptionOf(t, "match").value)))
  {
    RecordAt(path, t, Match);
  }

  /** A defined but falsy option (`false`, `0`, `null`, `""`) survives the
      clean-up: only `undefined` is deleted. */
  lemma FalsyOptionsKept(path: string, t: SchemaType, k: FieldKey)
    requires IsCopied(k)
    requires OptionOf(t, KeyName(k)).Some? && !Truthy(OptionOf(t, KeyName(k)).value)
    ensures k in FieldRecord(path, t) && FieldRecord(path, t)[k] == OptionOf(t, KeyName(k))
  {
    CopiedVerbatim(path, t, k);
  }

  /** The records of a whole schema, one per path in visit order. */
  function ProjectSchema(schema: Schema): (r: seq<FieldObject>)
    ensures |r| == |schema|
    ensures forall i :: 0 <= i < |schema| ==> r[i] == FieldRecord(schema[i].0, schema[i].1)
  {
    seq(|schema|, i requires 0 <= i < |schema| => FieldRecord(schema[i].0, schema[i].1))
  }

  /** The clean-up pass: walks the record's keys in order and deletes each
      property that holds `undefined`. */
  method CleanUp(info: FieldObject, keys: seq<FieldKey>) returns (cleaned: FieldObject)
    requires forall k :: k in info ==> k in keys
    ensures cleaned == DropUndefined(info)
  {
    cleaned := info;
    var i := 0;
    while i < |keys|
      invariant 0 <= i <= |keys|
      invariant forall k :: k in cleaned ==> k in info && cleaned[k] == info[k]
      invariant forall k :: k in info && k !in keys[..i] ==> k in cleaned
      invariant forall k :: k in keys[..i] && k in cleaned ==> cleaned[k].Some?
      invariant forall k :: k in keys[..i] && k in info && info[k].Some? ==> k in cleaned
    {
      var key := keys[i];
      if key in cleaned && cleaned[key] == None {
        cleaned := cleaned - {key};
      }
      i := i + 1;
    }
    assert keys[..i] == keys;
  }

  /** `parseSchema`: visits every path in order and pushes its cleaned record. */
  method ParseSchema(schema: Schema) returns (fields: seq<FieldObject>)
    ensures fields == ProjectSchema(schema)
  {
    fields := [];
    var i := 0;
    while i < |schema|
      invariant 0 <= i <= |schema|
      invariant |fields| == i
      invariant forall j :: 0 <= j < i ==> fields[j] == FieldRecord(schema[j].0, schema[j].1)
    {
      var (path, t) := schema[i];
      var fieldInfo := FieldInfo(path, t);
      fieldInfo := CleanUp(fieldInfo, FieldKeys);
      fields := fields + [fieldInfo];
      i := i + 1;
    }
  }
}
