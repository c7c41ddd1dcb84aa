/** Which texts the wrapping rewrites, said by the paths that lead from a schema to its subschemas. */
module SchemaPaths {
  import opened Values
  import opened StructuredOutput

  /** An object that does not embed a resource of its own. */
  predicate OfDocument(schema: Value) {
    schema.Obj? && !("$id" in schema.fields && schema.fields["$id"].Str?)
  }

  predicate HoldsOneSchema(keyword: string) {
    keyword in {"additionalItems", "additionalProperties", "contains", "not", "propertyNames", "if", "then", "else",
                "unevaluatedItems", "unevaluatedProperties", "contentSchema"}
  }

  predicate HoldsNamedSchemas(keyword: string) {
    keyword in {"properties", "patternProperties", "$defs", "definitions", "dependentSchemas"}
  }

  predicate HoldsSchemaList(keyword: string) {
    keyword in {"allOf", "anyOf", "oneOf", "prefixItems"}
  }

  predicate HoldsReference(keyword: string) {
    keyword in {"$ref", "$dynamicRef", "$recursiveRef"}
  }

  /** The first token leads from a schema to a subschema. */
  predicate StepOfOne(schema: Value, p: Pointer)
    requires schema.Obj? && p != [] && p[0] in schema.fields
  {
    HoldsOneSchema(p[0]) || (p[0] == "items" && !schema.fields["items"].Arr?)
  }

  /** The first two tokens do. */
  predicate StepOfTwo(schema: Value, p: Pointer)
    requires schema.Obj? && |p| >= 2 && p[0] in schema.fields
  {
    var member := schema.fields[p[0]];
    || (HoldsNamedSchemas(p[0]) && member.Obj?)
    || (HoldsSchemaList(p[0]) && member.Arr?)
    || (p[0] == "items" && member.Arr?)
    || (p[0] == "dependencies" && member.Obj? && p[1] in member.fields && !member.fields[p[1]].Arr?)
  }

  /** `p` leads through subschemas of the document's own resource to one of them. */
  predicate SchemaPath(schema: Value, p: Pointer)
    decreases |p|
  {
    OfDocument(schema) &&
    (p == [] ||
     (p[0] in schema.fields &&
      var member := schema.fields[p[0]];
      || (StepOfOne(schema, p) && SchemaPath(member, p[1..]))
      || (|p| >= 2 && StepOfTwo(schema, p) && Child(member, p[1]).Some? && SchemaPath(Child(member, p[1]).value, p[2..]))))
  }

  /** The text of a reference of the document's own resource stands at `at`. */
  predicate ReferencePath(schema: Value, at: Pointer) {
    at != [] && HoldsReference(at[|at| - 1]) && SchemaPath(schema, at[..|at| - 1])
  }

  // ----- The places on such paths -----

  lemma KeywordPlaces(k: string, shares: bool)
    ensures PlaceOf(k, shares).Reference? <==> HoldsReference(k)
    ensures PlaceOf(k, shares).SchemaMap? <==> HoldsNamedSchemas(k)
    ensures PlaceOf(k, shares).SchemaAt? <==> HoldsOneSchema(k)
    ensures PlaceOf(k, shares).SchemaList? <==> HoldsSchemaList(k)
    ensures PlaceOf(k, shares).Items? <==> k == "items"
    ensures PlaceOf(k, shares).Dependencies? <==> k == "dependencies"
    ensures PlaceOf(k, shares).shares == shares && !PlaceOf(k, shares).Dependency?
  {
  }

  lemma {:induction false} PlaceAfterMore(place: Place, v: Value, p: Pointer, token: string)
    requires Get(v, p).Some? && Child(Get(v, p).value, token).Some?
    ensures PlaceAfter(place, v, p + [token]) == ChildPlace(PlaceAfter(place, v, p), Get(v, p).value, token)
    ensures Get(v, p + [token]) == Child(Get(v, p).value, token)
    decreases p
  {
    if p == [] {
      assert p + [token] == [token] && [token][1..] == [];
    } else {
      assert (p + [token])[1..] == p[1..] + [token];
      PlaceAfterMore(ChildPlace(place, v, p[0]), Child(v, p[0]).value, p[1..], token);
    }
  }

  /** The pointer finds a schema of the document's own resource. */
  predicate FindsSchema(place: Place, v: Value, p: Pointer) {
    var found, there := Get(v, p), PlaceAfter(place, v, p);
    found.Some? && there.shares && IsSchemaPlace(there, found.value) && OfDocument(found.value)
  }

  lemma {:induction false} UnsharedStays(place: Place, v: Value, p: Pointer)
    requires !place.shares
    ensures !PlaceAfter(place, v, p).shares
    decreases p
  {
    if p != [] && Child(v, p[0]).Some? { UnsharedStays(ChildPlace(place, v, p[0]), Child(v, p[0]).value, p[1..]); }
  }

  lemma {:induction false} PlainStays(place: Place, v: Value, p: Pointer)
    requires place.Plain? || place.Reference?
    ensures !FindsSchema(place, v, p)
    decreases p
  {
    if p != [] && Child(v, p[0]).Some? { PlainStays(ChildPlace(place, v, p[0]), Child(v, p[0]).value, p[1..]); }
  }

  /** From a schema of the own resource, the places of the rewriting are the paths through subschemas. */
  lemma {:induction false} PathsAreFound(place: Place, v: Value, p: Pointer)
    requires IsSchemaPlace(place, v) && place.shares
    ensures FindsSchema(place, v, p) <==> SchemaPath(v, p)
    decreases |p|
  {
    if p != [] {
      var token := p[0];
      if !OfDocument(v) {
        OutsideDocument(place, v, p);
      } else if token in v.fields {
        hide IndexOf;
        KeywordPlaces(token, true);
        var member, next := v.fields[token], PlaceOf(token, true);
        assert FindsSchema(place, v, p) <==> FindsSchema(next, member, p[1..]);
        if next.Reference? || next.Plain? {
          PlainStays(next, member, p[1..]);
        } else if IsSchemaPlace(next, member) {
          PathsAreFound(next, member, p[1..]);
        } else {
          SecondToken(next, member, p[1..]);
          if |p| >= 2 { assert p[1..][1..] == p[2..]; }
        }
      }
    }
  }

  lemma OutsideDocument(place: Place, v: Value, p: Pointer)
    requires IsSchemaPlace(place, v) && p != [] && !OfDocument(v)
    ensures !FindsSchema(place, v, p)
  {
    hide IndexOf;
    if Child(v, p[0]).Some? {
      var next := ChildPlace(place, v, p[0]);
      if v.Obj? {
        KeywordPlaces(p[0], false);
        UnsharedStays(next, Child(v, p[0]).value, p[1..]);
      } else {
        PlainStays(next, Child(v, p[0]).value, p[1..]);
      }
    }
  }

  /** Below a keyword that holds several schemas the next token picks one. */
  lemma {:induction false} SecondToken(place: Place, member: Value, p: Pointer)
    requires place.shares && !IsSchemaPlace(place, member) && !place.Plain? && !place.Reference? && !place.Dependency?
    ensures FindsSchema(place, member, p) <==>
      p != [] && Child(member, p[0]).Some? && SchemaPath(Child(member, p[0]).value, p[1..]) &&
      (if place.SchemaMap? then member.Obj?
       else if place.Dependencies? then member.Obj? && !Child(member, p[0]).value.Arr?
       else member.Arr?)
    decreases |p|, 0
  {
    hide IndexOf;
    if p != [] && Child(member, p[0]).Some? {
      var next, child := ChildPlace(place, member, p[0]), Child(member, p[0]).value;
      assert FindsSchema(place, member, p) <==> FindsSchema(next, child, p[1..]);
      if IsSchemaPlace(next, child) {
        PathsAreFound(next, child, p[1..]);
      } else if next.Dependency? {
        ArrayOfNames(next, child, p[1..]);
      } else {
        PlainStays(next, child, p[1..]);
      }
    }
  }

  lemma ArrayOfNames(place: Place, v: Value, p: Pointer)
    requires place.Dependency? && v.Arr?
    ensures !FindsSchema(place, v, p)
  {
    hide IndexOf;
    if p != [] && Child(v, p[0]).Some? { PlainStays(ChildPlace(place, v, p[0]), Child(v, p[0]).value, p[1..]); }
  }

  // ----- The rewriting, exactly -----

  /** Reference places of the own resource are the ends of such paths. */
  lemma ReferencesAreFound(schema: Value, at: Pointer)
    requires Get(schema, at).Some?
    ensures var place := PlaceAfter(SchemaAt(true), schema, at);
      place.Reference? && place.shares <==> ReferencePath(schema, at)
  {
    if at != [] {
      var q, k := at[..|at| - 1], at[|at| - 1];
      assert at == q + [k];
      PrefixFound(schema, q, k);
      PlaceAfterMore(SchemaAt(true), schema, q, k);
      PathsAreFound(SchemaAt(true), schema, q);
      var there, found := PlaceAfter(SchemaAt(true), schema, q), Get(schema, q).value;
      KeywordPlaces(k, there.shares && !HasId(found));
      hide PlaceOf, IndexOf, SchemaPath;
    }
  }

  lemma {:induction false} PrefixFound(v: Value, q: Pointer, k: string)
    requires Get(v, q + [k]).Some?
    ensures Get(v, q).Some? && Child(Get(v, q).value, k).Some?
    decreases q
  {
    if q == [] {
      assert q + [k] == [k];
    } else {
      assert (q + [k])[1..] == q[1..] + [k] && (q + [k])[0] == q[0];
      PrefixFound(Child(v, q[0]).value, q[1..], k);
    }
  }

  /** What a value of the document becomes: a local reference of the own resource is moved below the wrapper's
      value, objects and arrays keep their shape, everything else stays. */
  predicate BecomesAt(schema: Value, at: Pointer, v: Value, w: Value) {
    match v
    case Str(text) =>
      w == Str(if (text == "#" || "#/" <= text) && ReferencePath(schema, at) then "#/properties/value" + text[1..] else text)
    case Obj(fields) => w.Obj? && w.fields.Keys == fields.Keys
    case Arr(items) => w.Arr? && |w.items| == |items|
    case _ => w == v
  }

  /** For every pointer: the wrapped document has something there exactly if the document has, and a text is
      rewritten exactly if it is a local reference at the end of a schema path of the own resource. */
  lemma RewritesExactly(schema: Value, at: Pointer)
    ensures var found, image := Get(schema, at), Get(ToolParameters(schema), ["properties", "value"] + at);
      (found.Some? <==> image.Some?) && (found.Some? ==> BecomesAt(schema, at, found.value, image.value))
  {
    hide ToolParameters, Get, ReferencePath, IndexOf;
    LookupCommutes(SchemaAt(true), schema, at, VALUE_PREFIX);
    RewritingIsPlacewise(schema);
    WrapperHoldsSchema(schema, at);
    if Get(schema, at).Some? {
      ReferencesAreFound(schema, at);
      ValueImage(PlaceAfter(SchemaAt(true), schema, at), Get(schema, at).value);
    }
  }

  lemma ValueImage(place: Place, v: Value)
    ensures var w := RewriteAt(place, v, VALUE_PREFIX);
      match v
      case Str(text) =>
        w == Str(if place.Reference? && place.shares && (text == "#" || "#/" <= text)
                 then "#/properties/value" + text[1..] else text)
      case Obj(fields) => w.Obj? && w.fields.Keys == fields.Keys
      case Arr(items) => w.Arr? && |w.items| == |items|
      case _ => w == v
  {
  }

  // A reference inside items, to a definition of the document.
  const INSIDE_ITEMS := Obj(map[
    "items" := Obj(map["$ref" := Str("#/$defs/x")]),
    "$defs" := Obj(map["x" := Bool(true)])])

  lemma InsideItemsIsRewritten()
    ensures Get(ToolParameters(INSIDE_ITEMS), ["properties", "value"] + ["items", "$ref"]) ==
            Some(Str("#/properties/value/$defs/x"))
  {
    hide ToolParameters;
    var at := ["items", "$ref"];
    assert at[1..] == ["$ref"] && at[..1] == ["items"] && ["items"][1..] == [] && ["$ref"][1..] == [];
    assert Get(INSIDE_ITEMS, at) == Some(Str("#/$defs/x"));
    assert SchemaPath(INSIDE_ITEMS.fields["items"], []);
    assert "#/" <= "#/$defs/x" && "#/properties/value" + "#/$defs/x"[1..] == "#/properties/value/$defs/x";
    RewritesExactly(INSIDE_ITEMS, at);
  }
}
