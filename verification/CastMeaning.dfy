/** What the cast does to one schema, key by key, and exactly which schemas it refuses. */
module CastMeaning {
  import opened Prelude
  import opened SchemaCaster

  const INTEGERS: set<string> := {"integer", "byte", "short", "long", "Bigint"}
  const NUMBERS: set<string> := {"number", "float", "double"}
  const STRINGS: set<string> := {"string", "any", "char", "Any", "String"}
  const BOOLEANS: set<string> := {"boolean", "bool"}
  const ARRAYS: set<string> := {"array", "list", "tuple", "ArrayList", "Array", "Queue", "Stack"}
  const OBJECTS: set<string> := {"dict", "object", "HashMap", "Hashtable"}

  predicate Known(source: string) {
    source in INTEGERS + NUMBERS + STRINGS + BOOLEANS + ARRAYS + OBJECTS
  }

  /** `source` names the OpenAPI type `target`. */
  predicate Names(source: string, target: string) {
    || (target == "integer" && source in INTEGERS)
    || (target == "number" && source in NUMBERS)
    || (target == "string" && source in STRINGS)
    || (target == "boolean" && source in BOOLEANS)
    || (target == "array" && source in ARRAYS)
    || (target == "object" && source in OBJECTS)
  }

  /** The table holds these names and no others. */
  lemma TableExactly(source: string, target: string)
    ensures OpenApi(source) == Some(target) <==> Names(source, target)
    ensures OpenApi(source).Some? <==> Known(source)
  {
    KindsApart(source);
  }

  lemma KindsApart(source: string)
    ensures source in INTEGERS ==> OpenApi(source) == Some("integer")
    ensures source in NUMBERS ==> OpenApi(source) == Some("number")
    ensures source in STRINGS ==> OpenApi(source) == Some("string")
    ensures source in BOOLEANS ==> OpenApi(source) == Some("boolean")
    ensures source in ARRAYS ==> OpenApi(source) == Some("array")
    ensures source in OBJECTS ==> OpenApi(source) == Some("object")
    ensures !Known(source) ==> OpenApi(source) == None
  {
  }

  // ---------------------------------------------------------------- a property

  /** The two lists agree on a key: neither has it, or both have it with one value. */
  predicate Kept(v: seq<Field>, out: seq<Field>, k: string) {
    Has(v, k) == Has(out, k) && (Has(v, k) ==> Get(v, k) == Get(out, k))
  }

  predicate IsFloat(v: seq<Field>) {
    HasText(v, "type") && Get(v, "type").text == "float"
  }

  /** The cast type: the table's for a known name, and "string" for an unknown or a missing one. */
  predicate Typed(v: seq<Field>, out: seq<Field>) {
    && HasText(out, "type")
    && if HasText(v, "type") && Known(Get(v, "type").text) then Names(Get(v, "type").text, Get(out, "type").text)
       else Get(out, "type").text == "string"
  }

  /** Floats are marked as such in their format and their description; nothing else is. */
  predicate FloatMarked(v: seq<Field>, out: seq<Field>) {
    if IsFloat(v) then
      && HasText(v, "description") && Has(out, "format") && Get(out, "format") == Str("float")
      && Has(out, "description")
      && Get(out, "description") == Str(Get(v, "description").text + " This is a float type value.")
    else Kept(v, out, "format") && Kept(v, out, "description")
  }

  /** The keys that the cast of a type may touch. */
  predicate OfType(k: string) {
    k == "type" || k == "format" || k == "description"
  }

  predicate TypeRefused(v: seq<Field>) {
    (Has(v, "type") && !HasText(v, "type")) || (IsFloat(v) && !HasText(v, "description"))
  }

  lemma CastTypeSays(v: seq<Field>)
    ensures CastType(v).Err? <==> TypeRefused(v)
    ensures CastType(v).Ok? ==> Typed(v, CastType(v).value) && FloatMarked(v, CastType(v).value)
    ensures CastType(v).Ok? ==> forall k :: !OfType(k) ==> Kept(v, CastType(v).value, k)
  {
    hide OpenApi, Set, Find;
    if HasText(v, "type") {
      var source := Get(v, "type").text;
      TableExactly(source, if OpenApi(source).Some? then OpenApi(source).value else "");
    }
  }

  /** The schema is an array or an object once it is cast. */
  predicate Nests(v: seq<Field>) {
    HasText(v, "type") && (Get(v, "type").text in ARRAYS || Get(v, "type").text in OBJECTS)
  }

  predicate HasObject(v: seq<Field>, k: string) {
    Has(v, k) && Get(v, k).Obj?
  }

  /** The children of a schema that are cast in their turn: its properties, or else its items. */
  predicate ChildRefused(v: seq<Field>) {
    Nests(v) &&
    if Has(v, "properties") then
      !HasObject(v, "properties") || CastProperties(Get(v, "properties").fields).Err?
    else Has(v, "items") && CastItems(Get(v, "items")).Err?
  }

  predicate ChildrenCast(v: seq<Field>, out: seq<Field>) {
    && (if Nests(v) && Has(v, "properties") then
          && HasObject(v, "properties") && HasObject(out, "properties")
          && CastProperties(Get(v, "properties").fields) == Ok(Get(out, "properties").fields)
        else Kept(v, out, "properties"))
    && (if Nests(v) && !Has(v, "properties") && Has(v, "items") then
          Has(out, "items") && CastItems(Get(v, "items")) == Ok(Get(out, "items"))
        else Kept(v, out, "items"))
  }

  ghost predicate ValueSays(v: seq<Field>, out: seq<Field>) {
    && Typed(v, out) && FloatMarked(v, out) && ChildrenCast(v, out)
    && forall k :: !OfType(k) && k != "properties" && k != "items" ==> Kept(v, out, k)
  }

  lemma ValueRefused(value: Json)
    ensures CastValue(value).Err? <==> !value.Obj? || TypeRefused(value.fields) || ChildRefused(value.fields)
  {
    hide OpenApi, Set, Find, CastType, CastProperties, CastItems, TypeRefused, Typed, FloatMarked, Kept;
    if value.Obj? {
      CastTypeSays(value.fields);
      if CastType(value.fields).Ok? {
        ContainerNests(value.fields, CastType(value.fields).value);
      }
    }
  }

  /** Replacing a child leaves everything else as the cast of the type left it. */
  lemma ChildReplaced(v: seq<Field>, typed: seq<Field>, k: string, child: Json)
    requires Typed(v, typed) && FloatMarked(v, typed) && (forall other :: !OfType(other) ==> Kept(v, typed, other))
    requires k == "properties" || k == "items"
    ensures var out := Set(typed, k, child);
            && Typed(v, out) && FloatMarked(v, out) && Has(out, k) && Get(out, k) == child
            && forall other :: !OfType(other) && other != k ==> Kept(v, out, other)
  {
    hide Set, Find, Known, Names;
    assert !OfType(k);
  }

  lemma ValueCast(value: Json)
    requires CastValue(value).Ok?
    ensures value.Obj? && CastValue(value).value.Obj? && ValueSays(value.fields, CastValue(value).value.fields)
  {
    hide OpenApi, Set, Find, CastType, CastProperties, CastItems, TypeRefused, Nests, Typed, FloatMarked, OfType;
    var v, typed, out := value.fields, CastType(value.fields).value, CastValue(value).value.fields;
    CastTypeSays(v);
    ContainerNests(v, typed);
    ChildReplaced(v, typed, "properties", if Has(out, "properties") then Get(out, "properties") else Other(0));
    ChildReplaced(v, typed, "items", if Has(out, "items") then Get(out, "items") else Other(0));
    assert !OfType("properties") && !OfType("items") by {
      PlainKeys();
    }
  }

  lemma PlainKeys()
    ensures !OfType("properties") && !OfType("items")
  {
  }

  /** A property is refused exactly if its own type or one of its children is, and otherwise says what it should. */
  lemma CastValueSays(value: Json)
    ensures CastValue(value).Err? <==> !value.Obj? || TypeRefused(value.fields) || ChildRefused(value.fields)
    ensures CastValue(value).Ok? ==> CastValue(value).value.Obj? && ValueSays(value.fields, CastValue(value).value.fields)
  {
    hide CastValue, TypeRefused, ChildRefused, ValueSays;
    ValueRefused(value);
    if CastValue(value).Ok? {
      ValueCast(value);
    }
  }

  lemma ContainerNests(v: seq<Field>, out: seq<Field>)
    requires Typed(v, out)
    ensures Container(Get(out, "type")) <==> Nests(v)
  {
    hide Find;
    if HasText(v, "type") {
      var source := Get(v, "type").text;
      TableExactly(source, Get(out, "type").text);
      TableExactly(source, "array");
      TableExactly(source, "object");
    }
  }

  // ---------------------------------------------------------------- the properties and the items of a schema

  /** Properties are refused exactly if one of them is, and otherwise each is cast under its own key. */
  lemma {:induction false} CastPropertiesSays(properties: seq<Field>)
    ensures CastProperties(properties).Err? <==>
            exists i :: 0 <= i < |properties| && CastValue(properties[i].value).Err?
    ensures CastProperties(properties).Ok? ==>
              forall i :: 0 <= i < |properties| ==>
                var out := CastProperties(properties).value;
                out[i].key == properties[i].key && CastValue(properties[i].value) == Ok(out[i].value)
    decreases |properties|
  {
    hide CastValue;
    if properties != [] {
      CastPropertiesSays(properties[..|properties| - 1]);
    }
  }

  /** An element schema must name its type, and so must the elements of a nested array. */
  predicate ElementRefused(items: Json) {
    !items.Obj? || !HasText(items.fields, "type") || !Known(Get(items.fields, "type").text)
  }

  predicate ElementTyped(items: Json, out: Json) {
    && items.Obj? && out.Obj? && HasText(items.fields, "type") && HasText(out.fields, "type")
    && Names(Get(items.fields, "type").text, Get(out.fields, "type").text)
  }

  predicate NestsArray(v: seq<Field>) {
    HasText(v, "type") && Get(v, "type").text in ARRAYS && Has(v, "items")
  }

  predicate NestsObject(v: seq<Field>) {
    HasText(v, "type") && Get(v, "type").text in OBJECTS && Has(v, "properties")
  }

  ghost predicate ItemsSay(v: seq<Field>, out: seq<Field>) {
    && ElementTyped(Obj(v), Obj(out))
    && (if NestsArray(v) then
          && Has(out, "items") && ElementTyped(Get(v, "items"), Get(out, "items"))
          && forall k :: k != "type" ==> Kept(Get(v, "items").fields, Get(out, "items").fields, k)
        else Kept(v, out, "items"))
    && (if NestsObject(v) then
          && HasObject(v, "properties") && HasObject(out, "properties")
          && CastProperties(Get(v, "properties").fields) == Ok(Get(out, "properties").fields)
        else Kept(v, out, "properties"))
    && forall k :: k != "type" && k != "items" && k != "properties" ==> Kept(v, out, k)
  }

  /** An unnamed type at one of the two levels, or properties that cannot be cast. */
  predicate ItemsRefused(items: Json) {
    || ElementRefused(items)
    || (NestsArray(items.fields) && ElementRefused(Get(items.fields, "items")))
    || (NestsObject(items.fields)
        && (!HasObject(items.fields, "properties")
            || CastProperties(Get(items.fields, "properties").fields).Err?))
  }

  lemma BothElements(items: Json)
    requires items.Obj? && HasText(items.fields, "type")
    ensures TableAgrees(Get(items.fields, "type").text)
    ensures NestsArray(items.fields) && Get(items.fields, "items").Obj?
            && HasText(Get(items.fields, "items").fields, "type") ==>
              TableAgrees(Get(Get(items.fields, "items").fields, "type").text)
  {
    hide TableAgrees, Find;
    ElementTable(Get(items.fields, "type").text);
    if NestsArray(items.fields) && Get(items.fields, "items").Obj? && HasText(Get(items.fields, "items").fields, "type") {
      ElementTable(Get(Get(items.fields, "items").fields, "type").text);
    }
  }

  lemma ElementsRefused(items: Json)
    ensures CastItems(items).Err? <==> ItemsRefused(items)
  {
    hide OpenApi, Set, Find, CastProperties, Known, Names;
    if items.Obj? && HasText(items.fields, "type") {
      BothElements(items);
    }
  }

  lemma ElementsCast(items: Json)
    requires CastItems(items).Ok?
    ensures items.Obj? && CastItems(items).value.Obj? && ItemsSay(items.fields, CastItems(items).value.fields)
  {
    hide OpenApi, Set, Find, CastProperties, Known, Names;
    BothElements(items);
  }

  /** Items are refused exactly when they should be, and otherwise say what they should. */
  lemma CastItemsSays(items: Json)
    ensures CastItems(items).Err? <==> ItemsRefused(items)
    ensures CastItems(items).Ok? ==> CastItems(items).value.Obj? && ItemsSay(items.fields, CastItems(items).value.fields)
  {
    hide CastItems, ItemsRefused, ItemsSay;
    ElementsRefused(items);
    if CastItems(items).Ok? {
      ElementsCast(items);
    }
  }

  predicate TableAgrees(source: string) {
    && (OpenApi(source).Some? <==> Known(source))
    && (OpenApi(source).Some? ==> Names(source, OpenApi(source).value))
    && (OpenApi(source) == Some("array") <==> source in ARRAYS)
    && (OpenApi(source) == Some("object") <==> source in OBJECTS)
  }

  lemma ElementTable(source: string)
    ensures TableAgrees(source)
  {
    hide OpenApi;
    TableExactly(source, if OpenApi(source).Some? then OpenApi(source).value else "");
    TableExactly(source, "array");
    TableExactly(source, "object");
  }
}
