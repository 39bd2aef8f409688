/**
 Casting a tree of tool-parameter schemas to the OpenAPI types. Canonical trees are those
 in which everything the cast visits has one of the six types.
 */
module SchemaCaster {
  import opened Prelude

  /** JSON with objects as key-value lists in insertion order; a key means its first entry. */
  datatype Json = Str(text: string) | Obj(fields: seq<Field>) | Other(code: int)

  datatype Field = Field(key: string, value: Json)

  datatype CastError =
    | PropertyNotObject
    | TypeNotString
    | FloatWithoutDescription
    | PropertiesNotObject
    | ItemsWithoutType
    | UnknownItemsType
    | NestedItemsWithoutType
    | UnknownNestedItemsType
    | ItemPropertiesNotObject

  const SIX: set<string> := {"integer", "number", "string", "boolean", "array", "object"}

  /** The pinned type table. */
  function OpenApi(t: string): Option<string> {
    if t == "integer" || t == "byte" || t == "short" || t == "long" || t == "Bigint" then Some("integer")
    else if t == "number" || t == "float" || t == "double" then Some("number")
    else if t == "string" || t == "any" || t == "char" || t == "Any" || t == "String" then Some("string")
    else if t == "boolean" || t == "bool" then Some("boolean")
    else if t == "array" || t == "list" || t == "tuple" || t == "ArrayList" || t == "Array" || t == "Queue"
            || t == "Stack" then Some("array")
    else if t == "dict" || t == "object" || t == "HashMap" || t == "Hashtable" then Some("object")
    else None
  }

  lemma TableReachesSix(t: string)
    ensures OpenApi(t).Some? ==> OpenApi(t).value in SIX
  {
  }

  lemma SixAreFixed(t: string)
    requires t in SIX
    ensures OpenApi(t) == Some(t) && t != "float"
  {
  }

  // ---------------------------------------------------------------- dictionary access

  /** The position of the first entry for `k`, or the length. */
  function Find(fields: seq<Field>, k: string): (i: nat)
    ensures i <= |fields|
    ensures i < |fields| ==> fields[i].key == k
    ensures forall j :: 0 <= j < i ==> fields[j].key != k
  {
    if fields == [] then 0
    else
      var i := Find(fields[..|fields| - 1], k);
      if i < |fields| - 1 then i else if fields[|fields| - 1].key == k then |fields| - 1 else |fields|
  }

  predicate Has(fields: seq<Field>, k: string) {
    Find(fields, k) < |fields|
  }

  function Get(fields: seq<Field>, k: string): Json
    requires Has(fields, k)
  {
    fields[Find(fields, k)].value
  }

  function Set(fields: seq<Field>, k: string, v: Json): (r: seq<Field>)
    ensures Has(r, k) && Get(r, k) == v
    ensures forall other :: other != k ==> Has(r, other) == Has(fields, other)
    ensures forall other :: other != k && Has(fields, other) ==> Get(r, other) == Get(fields, other)
    ensures Has(fields, k) && Get(fields, k) == v ==> r == fields
  {
    var i := Find(fields, k);
    var r := if i < |fields| then fields[i := Field(k, v)] else fields + [Field(k, v)];
    SetFinds(fields, k, v, r);
    r
  }

  lemma FindUnique(fields: seq<Field>, k: string, i: nat)
    requires i <= |fields| && (i < |fields| ==> fields[i].key == k) && forall j :: 0 <= j < i ==> fields[j].key != k
    ensures Find(fields, k) == i
  {
    var found := Find(fields, k);
    assert !(found < i) && !(i < found);
  }

  lemma SetFinds(fields: seq<Field>, k: string, v: Json, r: seq<Field>)
    requires r == if Find(fields, k) < |fields| then fields[Find(fields, k) := Field(k, v)]
                  else fields + [Field(k, v)]
    ensures Has(r, k) && Get(r, k) == v
    ensures forall other :: other != k ==> Has(r, other) == Has(fields, other)
    ensures forall other :: other != k && Has(fields, other) ==> Get(r, other) == Get(fields, other)
  {
    hide Find;
    FindUnique(r, k, Find(fields, k));
    forall other | other != k
      ensures Has(r, other) == Has(fields, other)
      ensures Has(fields, other) ==> Get(r, other) == Get(fields, other)
    {
      SetKeepsOther(fields, k, v, r, other);
    }
  }

  /** `other` is found in both lists, with one value, or in neither. */
  predicate FoundAlike(fields: seq<Field>, r: seq<Field>, other: string) {
    if Find(fields, other) < |fields| then
      Find(r, other) == Find(fields, other) < |r| && r[Find(r, other)] == fields[Find(fields, other)]
    else Find(r, other) == |r|
  }

  lemma SetKeepsOther(fields: seq<Field>, k: string, v: Json, r: seq<Field>, other: string)
    requires other != k
    requires r == if Find(fields, k) < |fields| then fields[Find(fields, k) := Field(k, v)]
                  else fields + [Field(k, v)]
    ensures FoundAlike(fields, r, other)
  {
    hide Find;
    var i := Find(fields, other);
    var at := if i < |fields| then i else |r|;
    assert forall j :: 0 <= j < |fields| ==> r[j].key == fields[j].key;
    FindUnique(r, other, at);
  }

  predicate HasText(fields: seq<Field>, k: string) {
    Has(fields, k) && Get(fields, k).Str?
  }

  // ---------------------------------------------------------------- the cast

  /** The property's own type; lookups of other keys are not affected. */
  function CastType(v: seq<Field>): (r: Result<seq<Field>, CastError>)
    ensures r.Ok? ==> HasText(r.value, "type")
    ensures r.Ok? ==> forall k :: k != "type" && k != "format" && k != "description" ==>
              Has(r.value, k) == Has(v, k) && (Has(v, k) ==> Get(r.value, k) == Get(v, k))
  {
    if !Has(v, "type") then Ok(Set(v, "type", Str("string")))
    else if !Get(v, "type").Str? then Err(TypeNotString)
    else
      var source := Get(v, "type").text;
      var target := match OpenApi(source) case Some(t) => t case None => "string";
      if source == "float" then
        if !HasText(v, "description") then Err(FloatWithoutDescription)
        else
          var described := Str(Get(v, "description").text + " This is a float type value.");
          Ok(Set(Set(Set(v, "format", Str("float")), "description", described), "type", Str(target)))
      else Ok(Set(v, "type", Str(target)))
  }

  predicate Container(t: Json) {
    t == Str("array") || t == Str("object")
  }

  function CastProperties(properties: seq<Field>): (r: Result<seq<Field>, CastError>)
    ensures r.Ok? ==> |r.value| == |properties|
    decreases properties
  {
    if properties == [] then Ok([])
    else
      var last := properties[|properties| - 1];
      var before := CastProperties(properties[..|properties| - 1]);
      if before.Err? then Err(before.error)
      else
        var value := CastValue(last.value);
        if value.Err? then Err(value.error) else Ok(before.value + [Field(last.key, value.value)])
  }

  function CastValue(value: Json): Result<Json, CastError>
    decreases value
  {
    if !value.Obj? then Err(PropertyNotObject)
    else
      var typed := CastType(value.fields);
      if typed.Err? then Err(typed.error)
      else if !Container(Get(typed.value, "type")) then Ok(Obj(typed.value))
      else if Has(value.fields, "properties") then
        var nested := value.fields[Find(value.fields, "properties")].value;
        if !nested.Obj? then Err(PropertiesNotObject)
        else
          var cast := CastProperties(nested.fields);
          if cast.Err? then Err(cast.error) else Ok(Obj(Set(typed.value, "properties", Obj(cast.value))))
      else if Has(value.fields, "items") then
        var items := CastItems(value.fields[Find(value.fields, "items")].value);
        if items.Err? then Err(items.error) else Ok(Obj(Set(typed.value, "items", items.value)))
      else Ok(Obj(typed.value))
  }

  function CastItems(items: Json): Result<Json, CastError>
    decreases items
  {
    if !items.Obj? || !HasText(items.fields, "type") then Err(ItemsWithoutType)
    else
      var target := OpenApi(Get(items.fields, "type").text);
      if target.None? then Err(UnknownItemsType)
      else
        var typed := Set(items.fields, "type", Str(target.value));
        if target.value == "array" && Has(items.fields, "items") then
          var inner := Get(items.fields, "items");
          if !inner.Obj? || !HasText(inner.fields, "type") then Err(NestedItemsWithoutType)
          else
            var innerTarget := OpenApi(Get(inner.fields, "type").text);
            if innerTarget.None? then Err(UnknownNestedItemsType)
            else Ok(Obj(Set(typed, "items", Obj(Set(inner.fields, "type", Str(innerTarget.value))))))
        else if target.value == "object" && Has(items.fields, "properties") then
          var nested := items.fields[Find(items.fields, "properties")].value;
          if !nested.Obj? then Err(ItemPropertiesNotObject)
          else
            var cast := CastProperties(nested.fields);
            if cast.Err? then Err(cast.error) else Ok(Obj(Set(typed, "properties", Obj(cast.value))))
        else Ok(Obj(typed))
  }

  // ---------------------------------------------------------------- canonical trees

  predicate HasSix(v: seq<Field>) {
    HasText(v, "type") && Get(v, "type").text in SIX
  }

  /** Every visited schema carries one of the six OpenAPI types. */
  predicate CanonicalAll(properties: seq<Field>)
    decreases properties
  {
    properties == []
    || (CanonicalAll(properties[..|properties| - 1]) && Canonical(properties[|properties| - 1].value))
  }

  predicate Canonical(value: Json)
    decreases value
  {
    && value.Obj? && HasSix(value.fields)
    && (Container(Get(value.fields, "type")) ==>
          if Has(value.fields, "properties") then
            var nested := value.fields[Find(value.fields, "properties")].value;
            nested.Obj? && CanonicalAll(nested.fields)
          else
            Has(value.fields, "items") ==> CanonicalItems(value.fields[Find(value.fields, "items")].value))
  }

  predicate CanonicalItems(items: Json)
    decreases items
  {
    && items.Obj? && HasSix(items.fields)
    && var t := Get(items.fields, "type").text;
       if t == "array" && Has(items.fields, "items") then
         var inner := Get(items.fields, "items");
         inner.Obj? && HasSix(inner.fields)
       else if t == "object" && Has(items.fields, "properties") then
         var nested := items.fields[Find(items.fields, "properties")].value;
         nested.Obj? && CanonicalAll(nested.fields)
       else true
  }

  lemma CastTypeIsSix(v: seq<Field>)
    requires CastType(v).Ok?
    ensures HasSix(CastType(v).value)
  {
    hide OpenApi, Set;
    if HasText(v, "type") {
      TableReachesSix(Get(v, "type").text);
    }
  }

  /** Whatever the cast accepts, it turns into a canonical tree. */
  lemma {:induction false} CastAllIsCanonical(properties: seq<Field>)
    requires CastProperties(properties).Ok?
    ensures CanonicalAll(CastProperties(properties).value)
    decreases properties
  {
    if properties != [] {
      var shorter, last := properties[..|properties| - 1], properties[|properties| - 1];
      CastAllIsCanonical(shorter);
      CastIsCanonical(last.value);
      var out := CastProperties(properties).value;
      assert out[..|out| - 1] == CastProperties(shorter).value;
    }
  }

  lemma {:induction false} CastIsCanonical(value: Json)
    requires CastValue(value).Ok?
    ensures Canonical(CastValue(value).value)
    decreases value
  {
    hide OpenApi, CastType, Set;
    var typed := CastType(value.fields).value;
    CastTypeIsSix(value.fields);
    var out := CastValue(value).value.fields;
    if Container(Get(typed, "type")) {
      if Has(value.fields, "properties") {
        CastAllIsCanonical(value.fields[Find(value.fields, "properties")].value.fields);
      } else if Has(value.fields, "items") {
        CastItemsIsCanonical(value.fields[Find(value.fields, "items")].value);
      }
    }
  }

  lemma {:induction false} CastItemsIsCanonical(items: Json)
    requires CastItems(items).Ok?
    ensures CanonicalItems(CastItems(items).value)
    decreases items
  {
    hide OpenApi, Set;
    var target := OpenApi(Get(items.fields, "type").text).value;
    TableReachesSix(Get(items.fields, "type").text);
    if target == "array" && Has(items.fields, "items") {
      TableReachesSix(Get(Get(items.fields, "items").fields, "type").text);
    } else if target == "object" && Has(items.fields, "properties") {
      CastAllIsCanonical(items.fields[Find(items.fields, "properties")].value.fields);
    }
  }

  lemma CastTypeFixes(v: seq<Field>)
    requires HasSix(v)
    ensures CastType(v) == Ok(v)
  {
    hide OpenApi;
    SixAreFixed(Get(v, "type").text);
  }

  /** The cast leaves a canonical tree as it is. */
  lemma {:induction false} CanonicalAllIsFixed(properties: seq<Field>)
    requires CanonicalAll(properties)
    ensures CastProperties(properties) == Ok(properties)
    decreases properties
  {
    hide Canonical, CastValue;
    if properties != [] {
      CanonicalAllIsFixed(properties[..|properties| - 1]);
      CanonicalIsFixed(properties[|properties| - 1].value);
      assert properties == properties[..|properties| - 1] + [properties[|properties| - 1]];
    }
  }

  lemma {:induction false} CanonicalIsFixed(value: Json)
    requires Canonical(value)
    ensures CastValue(value) == Ok(value)
    decreases value
  {
    hide OpenApi, CastType, Set;
    CastTypeFixes(value.fields);
    if Container(Get(value.fields, "type")) {
      if Has(value.fields, "properties") {
        CanonicalAllIsFixed(value.fields[Find(value.fields, "properties")].value.fields);
      } else if Has(value.fields, "items") {
        CanonicalItemsIsFixed(value.fields[Find(value.fields, "items")].value);
      }
    }
  }

  lemma {:induction false} CanonicalItemsIsFixed(items: Json)
    requires CanonicalItems(items)
    ensures CastItems(items) == Ok(items)
    decreases items
  {
    hide OpenApi, Set;
    SixAreFixed(Get(items.fields, "type").text);
    var t := Get(items.fields, "type").text;
    if t == "array" && Has(items.fields, "items") {
      SixAreFixed(Get(Get(items.fields, "items").fields, "type").text);
    } else if t == "object" && Has(items.fields, "properties") {
      CanonicalAllIsFixed(items.fields[Find(items.fields, "properties")].value.fields);
    }
  }

  /** A schema is left unchanged exactly when it is canonical. */
  lemma FixedExactly(properties: seq<Field>)
    ensures CastProperties(properties) == Ok(properties) <==> CanonicalAll(properties)
  {
    if CastProperties(properties) == Ok(properties) {
      CastAllIsCanonical(properties);
    }
    if CanonicalAll(properties) {
      CanonicalAllIsFixed(properties);
    }
  }

  /** A second pass never fails and changes nothing. */
  lemma CastIsIdempotent(properties: seq<Field>)
    requires CastProperties(properties).Ok?
    ensures CastProperties(CastProperties(properties).value) == CastProperties(properties)
    ensures CanonicalAll(CastProperties(properties).value)
  {
    CastAllIsCanonical(properties);
    CanonicalAllIsFixed(CastProperties(properties).value);
  }

  // ---------------------------------------------------------------- the loops

  lemma {:induction false} ErrorSticks(properties: seq<Field>, n: nat)
    requires n <= |properties| && CastProperties(properties[..n]).Err?
    ensures CastProperties(properties) == CastProperties(properties[..n])
    decreases |properties|
  {
    if n == |properties| {
      assert properties[..n] == properties;
    } else {
      assert properties[..|properties| - 1][..n] == properties[..n];
      ErrorSticks(properties[..|properties| - 1], n);
    }
  }

  /** `_cast_properties`: one pass over the entries, each rewritten where it stands. */
  method CastLoop(properties: seq<Field>) returns (r: Result<seq<Field>, CastError>)
    ensures r == CastProperties(properties)
    decreases properties
  {
    hide CastValue;
    var out := [];
    for i := 0 to |properties|
      invariant CastProperties(properties[..i]) == Ok(out)
    {
      assert properties[..i + 1][..i] == properties[..i];
      var value := CastValueStep(properties[i].value);
      if value.Err? {
        ErrorSticks(properties, i + 1);
        return Err(value.error);
      }
      out := out + [Field(properties[i].key, value.value)];
    }
    assert properties[..|properties|] == properties;
    return Ok(out);
  }

  /** The loop body for one property. */
  method CastValueStep(value: Json) returns (r: Result<Json, CastError>)
    ensures r == CastValue(value)
    decreases value
  {
    hide CastType, CastProperties, CastItems, Set;
    if !value.Obj? {
      return Err(PropertyNotObject);
    }
    var typed := CastType(value.fields);
    if typed.Err? {
      return Err(typed.error);
    }
    if Container(Get(typed.value, "type")) {
      if Has(value.fields, "properties") {
        var nested := value.fields[Find(value.fields, "properties")].value;
        if !nested.Obj? {
          return Err(PropertiesNotObject);
        }
        var cast := CastLoop(nested.fields);
        if cast.Err? {
          return Err(cast.error);
        }
        return Ok(Obj(Set(typed.value, "properties", Obj(cast.value))));
      } else if Has(value.fields, "items") {
        var items := CastItemsStep(value.fields[Find(value.fields, "items")].value);
        if items.Err? {
          return Err(items.error);
        }
        return Ok(Obj(Set(typed.value, "items", items.value)));
      }
    }
    return Ok(Obj(typed.value));
  }

  /** The array or object element schema. */
  method CastItemsStep(items: Json) returns (r: Result<Json, CastError>)
    ensures r == CastItems(items)
    decreases items
  {
    hide CastProperties, OpenApi, Set;
    if !items.Obj? || !HasText(items.fields, "type") {
      return Err(ItemsWithoutType);
    }
    var target := OpenApi(Get(items.fields, "type").text);
    if target.None? {
      return Err(UnknownItemsType);
    }
    var typed := Set(items.fields, "type", Str(target.value));
    if target.value == "array" && Has(items.fields, "items") {
      var inner := Get(items.fields, "items");
      if !inner.Obj? || !HasText(inner.fields, "type") {
        return Err(NestedItemsWithoutType);
      }
      var innerTarget := OpenApi(Get(inner.fields, "type").text);
      if innerTarget.None? {
        return Err(UnknownNestedItemsType);
      }
      return Ok(Obj(Set(typed, "items", Obj(Set(inner.fields, "type", Str(innerTarget.value))))));
    } else if target.value == "object" && Has(items.fields, "properties") {
      var nested := items.fields[Find(items.fields, "properties")].value;
      if !nested.Obj? {
        return Err(ItemPropertiesNotObject);
      }
      var cast := CastLoop(nested.fields);
      if cast.Err? {
        return Err(cast.error);
      }
      return Ok(Obj(Set(typed, "properties", Obj(cast.value))));
    }
    return Ok(Obj(typed));
  }
}
