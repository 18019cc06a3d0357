/** The paginated model page: its pagination state and the helpers that
    move through pages, the shown range, the field search, the type badge
    colour, the cell formatter and the flag counts. */
module ModelDetailView {
  import opened Wrappers
  import opened Js
  import opened Strings
  import opened Lists
  import opened ModelTypes
  import ModelsService

  /** The pagination state the server last returned. */
  datatype Pagination = Pagination(total: int, limit: int, skip: int, hasMore: bool)

  const InitialPagination := Pagination(0, 50, 0, false)
  const NewestFirst := "-_id"

  /** The skip the next-page button requests. */
  function NextSkip(p: Pagination): (r: int)
    ensures r - p.skip == p.limit
  {
    p.skip + p.limit
  }

  /** The skip the previous-page button requests: one page back, clamped at
      zero. */
  function PrevSkip(p: Pagination): (r: int)
    ensures r >= 0
    ensures r >= p.skip - p.limit
    ensures r == 0 || r == p.skip - p.limit
    ensures p.limit >= 0 && p.skip >= 0 ==> r <= p.skip
  {
    if p.skip - p.limit > 0 then p.skip - p.limit else 0
  }

  /** Going forward one page and back again returns to the same skip. */
  lemma NextThenPrev(p: Pagination)
    requires p.skip >= 0 && p.limit >= 0
    ensures PrevSkip(p.(skip := NextSkip(p))) == p.skip
  {
  }

  /** Going back is a real move unless the page is the first one. */
  lemma PrevMovesBack(p: Pagination)
    requires p.limit > 0 && p.skip > 0
    ensures PrevSkip(p) < p.skip
  {
  }

  /** The parameters a data fetch sends; no fetch happens without a model
      name in the route. */
  function FetchParams(modelName: Option<string>, limit: int, skip: int): (r: Option<ModelsService.PageParams>)
    ensures r.None? <==> modelName.None? || modelName.value == ""
  {
    if modelName.None? || modelName.value == "" then None
    else Some(ModelsService.PageParams(Some(limit), Some(skip), Some(NewestFirst)))
  }

  /** A fetch's query always carries the skip (even `0`) and the
      newest-first sort, and carries the page size unless it is `0`. */
  lemma FetchQuery(modelName: string, limit: int, skip: int)
    requires modelName != ""
    ensures var q := ModelsService.QueryOf(FetchParams(Some(modelName), limit, skip));
      && (limit != 0 ==> q == [("limit", IntToString(limit)), ("skip", IntToString(skip)), ("sort", NewestFirst)])
      && (limit == 0 ==> q == [("skip", IntToString(skip)), ("sort", NewestFirst)])
  {
  }

  /** The first record shown, counted from one. */
  function RangeStart(p: Pagination): int {
    p.skip + 1
  }

  /** The last record shown: the end of the page, or the total if less. */
  function RangeEnd(p: Pagination): (r: int)
    ensures r <= p.total && r <= p.skip + p.limit
    ensures r == p.total || r == p.skip + p.limit
  {
    if p.skip + p.limit < p.total then p.skip + p.limit else p.total
  }

  /** When the page starts inside the collection, the range is not empty. */
  lemma RangeNonEmpty(p: Pagination)
    requires 0 <= p.skip < p.total && p.limit > 0
    ensures RangeStart(p) <= RangeEnd(p)
  {
  }

  predicate PrevDisabled(p: Pagination, loading: bool) {
    p.skip == 0 || loading
  }

  predicate NextDisabled(p: Pagination, loading: bool) {
    !p.hasMore || loading
  }

  /** On the initial state both buttons are disabled, and when idle the
      previous-page button is enabled exactly when going back moves. */
  lemma ButtonsInitially(loading: bool)
    ensures PrevDisabled(InitialPagination, loading) && NextDisabled(InitialPagination, loading)
  {
  }

  lemma PrevEnabledIffMoves(p: Pagination)
    requires p.skip >= 0 && p.limit > 0
    ensures !PrevDisabled(p, false) <==> PrevSkip(p) < p.skip
  {
  }

  /** The search: a field is kept when its name contains the term, ignoring
      case. */
  predicate NameMatches(term: string, f: UiField) {
    ContainsIgnoringCase(f.name, term)
  }

  function FilterFields(fields: seq<UiField>, term: string): (r: seq<UiField>)
    ensures IsSubsequence(r, fields)
    ensures forall i :: 0 <= i < |r| ==> r[i] in fields && ContainsIgnoringCase(r[i].name, term)
    ensures forall i :: 0 <= i < |fields| && ContainsIgnoringCase(fields[i].name, term) ==> fields[i] in r
    ensures forall i :: 0 <= i < |fields| ==>
      multiset(r)[fields[i]] == if ContainsIgnoringCase(fields[i].name, term) then multiset(fields)[fields[i]] else 0
  {
    Filter(fields, f => NameMatches(term, f))
  }

  /** The empty search keeps every field, in order. */
  lemma EmptySearchKeepsFields(fields: seq<UiField>)
    ensures FilterFields(fields, "") == fields
  {
    forall i | 0 <= i < |fields| ensures NameMatches("", fields[i]) {
      EmptyTermMatches(fields[i].name);
    }
    FilterKeepsAll(fields, f => NameMatches("", f));
  }

  /** The badge variants. */
  datatype Variant = Info | Success | Warning | Secondary | Destructive | Default | Outline

  /** The six type names with a colour of their own, in table order. */
  const ColoredTypes: seq<(string, Variant)> := [
    ("String", Info), ("Number", Variant.Success), ("Boolean", Warning),
    ("Date", Secondary), ("ObjectId", Destructive), ("Array", Default)]

  /** The members every plain object inherits from `Object.prototype`. */
  const ObjectPrototypeMembers: set<string> := {
    "constructor", "hasOwnProperty", "isPrototypeOf", "propertyIsEnumerable",
    "toLocaleString", "toString", "valueOf", "__proto__",
    "__defineGetter__", "__defineSetter__", "__lookupGetter__", "__lookupSetter__"}

  /** Looks a type name up among the table's own keys. */
  function OwnColor(typeName: string): Option<Variant> {
    if typeName == "String" then Some(Info)
    else if typeName == "Number" then Some(Variant.Success)
    else if typeName == "Boolean" then Some(Warning)
    else if typeName == "Date" then Some(Secondary)
    else if typeName == "ObjectId" then Some(Destructive)
    else if typeName == "Array" then Some(Default)
    else None
  }

  /** The badge colour of a type: its own entry, or `outline`. */
  function TypeColor(typeName: string): (r: Variant)
    ensures forall i :: 0 <= i < |ColoredTypes| && ColoredTypes[i].0 == typeName ==> r == ColoredTypes[i].1
    ensures (forall i :: 0 <= i < |ColoredTypes| ==> ColoredTypes[i].0 != typeName) <==> r == Outline
  {
    assert ColoredTypes[0] == ("String", Info) && ColoredTypes[1] == ("Number", Variant.Success);
    assert ColoredTypes[2] == ("Boolean", Warning) && ColoredTypes[3] == ("Date", Secondary);
    assert ColoredTypes[4] == ("ObjectId", Destructive) && ColoredTypes[5] == ("Array", Default);
    OwnColor(typeName).GetOr(Outline)
  }

  /** What the `colorMap[type] || "outline"` expression yields: a variant, or
      the inherited member an unlisted name reaches through the prototype. */
  datatype Lookup = Color(variant: Variant) | InheritedMember(name: string)

  function TypeColorAsWritten(typeName: string): (r: Lookup)
    ensures OwnColor(typeName).Some? ==> r == Color(OwnColor(typeName).value)
    ensures OwnColor(typeName).None? && typeName !in ObjectPrototypeMembers ==> r == Color(Outline)
  {
    match OwnColor(typeName)
    case Some(v) => Color(v)
    case None => if typeName in ObjectPrototypeMembers then InheritedMember(typeName) else Color(Outline)
  }

  /** A field whose type tag is `toString` gets a function, not a variant. */
  lemma InheritedNameEscapesTable()
    ensures TypeColorAsWritten("toString") == InheritedMember("toString")
    ensures TypeColor("toString") == Outline
  {
  }

  /** Apart from inherited member names, the corrected lookup agrees with
      the expression as written. */
  lemma TypeColorAgrees(typeName: string)
    requires typeName !in ObjectPrototypeMembers
    ensures TypeColorAsWritten(typeName) == Color(TypeColor(typeName))
  {
  }

  /** A table cell: `null` and `undefined` show as `-`; objects and arrays go
      through the JSON printer; everything else through `String`. */
  function FormatValue(value: Option<JsValue>, stringify: JsValue -> string): (r: string)
    ensures value.None? || value == Some(JNull) ==> r == "-"
    ensures value.Some? && (value.value.JObject? || value.value.JArray? || value.value.JRegExp?) ==> r == stringify(value.value)
    ensures value.Some? && value.value.JStr? ==> r == value.value.s
  {
    match value
    case None => "-"
    case Some(JNull) => "-"
    case Some(v) =>
      if v.JObject? || v.JArray? || v.JRegExp? then stringify(v) else ToJsString(v)
  }

  predicate IsRequired(f: UiField) {
    f.required
  }

  predicate IsOptional(f: UiField) {
    !f.required
  }

  predicate IsUnique(f: UiField) {
    f.unique
  }

  predicate IsNotUnique(f: UiField) {
    !f.unique
  }

  /** `fields.filter(f => f.required).length`. */
  function RequiredCount(fields: seq<UiField>): (n: nat)
    ensures n <= |fields|
  {
    |Filter(fields, IsRequired)|
  }

  function UniqueCount(fields: seq<UiField>): (n: nat)
    ensures n <= |fields|
  {
    |Filter(fields, IsUnique)|
  }

  /** Each field is counted as required or else as optional, never both. */
  lemma RequiredCountSplits(fields: seq<UiField>)
    ensures RequiredCount(fields) + |Filter(fields, IsOptional)| == |fields|
    ensures RequiredCount(fields) == |fields| <==> forall i :: 0 <= i < |fields| ==> fields[i].required
  {
    FilterComplement(fields, IsRequired, IsOptional);
    if RequiredCount(fields) == |fields| {
      assert |Filter(fields, IsOptional)| == 0;
    } else {
      if forall i :: 0 <= i < |fields| ==> fields[i].required {
        FilterKeepsAll(fields, IsRequired);
      }
    }
  }

  lemma UniqueCountSplits(fields: seq<UiField>)
    ensures UniqueCount(fields) + |Filter(fields, IsNotUnique)| == |fields|
  {
    FilterComplement(fields, IsUnique, IsNotUnique);
  }

  /** The counts add up over a concatenation of field lists. */
  lemma CountsAppend(a: seq<UiField>, b: seq<UiField>)
    ensures RequiredCount(a + b) == RequiredCount(a) + RequiredCount(b)
    ensures UniqueCount(a + b) == UniqueCount(a) + UniqueCount(b)
  {
    FilterAppend(a, b, IsRequired);
    FilterAppend(a, b, IsUnique);
  }
}
