/** Wrapping a JSON Schema as the parameters of a tool, with its local references moved along
    (extensions/structured-output.ts). References are read as JSON pointers (RFC 6901). */
module StructuredOutput {
  import opened Values

  const SCHEMA_MAP_KEYWORDS := ["properties", "patternProperties", "$defs", "definitions", "dependentSchemas"]
  const SCHEMA_SINGLE_KEYWORDS := [
    "additionalItems", "additionalProperties", "contains", "not", "propertyNames", "if", "then", "else",
    "unevaluatedItems", "unevaluatedProperties", "contentSchema"]
  const SCHEMA_ARRAY_KEYWORDS := ["allOf", "anyOf", "oneOf", "prefixItems"]
  const REFERENCE_KEYWORDS := ["$ref", "$dynamicRef", "$recursiveRef"]

  const VALUE_PREFIX := "#/properties/value"

  // ----- The rewriting -----

  /** What stands at a place of a schema document. The flag says whether the place shares the
      wrapper's resource: no schema above it embeds a resource of its own with "$id". */
  datatype Place =
    | SchemaAt(shares: bool)      // a schema
    | SchemaMap(shares: bool)     // an object whose members are schemas
    | SchemaList(shares: bool)    // an array of schemas
    | Items(shares: bool)         // "items": an array of schemas, or one schema
    | Dependencies(shares: bool)  // an object whose members are schemas or arrays of names
    | Dependency(shares: bool)    // a schema or an array of names
    | Reference(shares: bool)     // the text of a reference
    | Plain(shares: bool)         // anything else

  function PlaceOf(keyword: string, shares: bool): Place {
    if keyword in REFERENCE_KEYWORDS then Reference(shares)
    else if keyword in SCHEMA_MAP_KEYWORDS then SchemaMap(shares)
    else if keyword == "items" then Items(shares)
    else if keyword in SCHEMA_SINGLE_KEYWORDS then SchemaAt(shares)
    else if keyword in SCHEMA_ARRAY_KEYWORDS then SchemaList(shares)
    else if keyword == "dependencies" then Dependencies(shares)
    else Plain(shares)
  }

  predicate HasId(schema: Value) {
    schema.Obj? && "$id" in schema.fields && schema.fields["$id"].Str?
  }

  predicate IsLocal(reference: string) {
    reference == "#" || "#/" <= reference
  }

  function RewriteReference(reference: string, prefix: string): string {
    if reference == "#" then prefix
    else if "#/" <= reference then prefix + reference[1..]
    else reference
  }

  function Rewrite(schema: Value, prefix: string, inherits: bool): Value
    decreases schema, 0
  {
    if !schema.Obj? then schema
    else
      var shares := inherits && !HasId(schema);
      Obj(map k | k in schema.fields :: RewriteAt(PlaceOf(k, shares), schema.fields[k], prefix))
  }

  function RewriteAt(place: Place, v: Value, prefix: string): Value
    decreases v, 1
  {
    match place
    case SchemaAt(shares) => Rewrite(v, prefix, shares)
    case SchemaMap(shares) =>
      if v.Obj? then Obj(map k | k in v.fields :: Rewrite(v.fields[k], prefix, shares)) else v
    case SchemaList(shares) =>
      if v.Arr? then Arr(seq(|v.items|, i requires 0 <= i < |v.items| => Rewrite(v.items[i], prefix, shares))) else v
    case Items(shares) =>
      if v.Arr? then Arr(seq(|v.items|, i requires 0 <= i < |v.items| => Rewrite(v.items[i], prefix, shares)))
      else Rewrite(v, prefix, shares)
    case Dependencies(shares) =>
      if v.Obj? then
        Obj(map k | k in v.fields :: if v.fields[k].Arr? then v.fields[k] else Rewrite(v.fields[k], prefix, shares))
      else v
    case Dependency(shares) => if v.Arr? then v else Rewrite(v, prefix, shares)
    case Reference(shares) => if shares && v.Str? then Str(RewriteReference(v.s, prefix)) else v
    case Plain(_) => v
  }

  /** createStructuredOutputToolParameters */
  function ToolParameters(schema: Value): Value {
    Obj(map[
          "type" := Str("object"),
          "properties" := Obj(map["value" := Rewrite(schema, VALUE_PREFIX, true)]),
          "required" := Arr([Str("value")]),
          "additionalProperties" := Bool(false)])
  }

  // ----- Looking up a pointer -----

  type Pointer = seq<string>

  /** The array index a reference token names: digits without a leading zero. */
  function IndexOf(token: string): Option<nat> {
    if token == "" || (|token| > 1 && token[0] == '0') then None else Digits(token)
  }

  function Digits(token: string): Option<nat> {
    if token == "" then Some(0)
    else
      var c := token[|token| - 1];
      var high := Digits(token[..|token| - 1]);
      if high.None? || !('0' <= c <= '9') then None else Some(10 * high.value + (c as int - '0' as int))
  }

  function Child(v: Value, token: string): Option<Value> {
    match v
    case Obj(fields) => if token in fields then Some(fields[token]) else None
    case Arr(items) =>
      var i := IndexOf(token);
      if i.Some? && i.value < |items| then Some(items[i.value]) else None
    case _ => None
  }

  function Get(v: Value, pointer: Pointer): Option<Value> {
    if pointer == [] then Some(v)
    else
      var child := Child(v, pointer[0]);
      if child.None? then None else Get(child.value, pointer[1..])
  }

  /** What the child named by `token` is, when `v` stands at `place`. */
  function ChildPlace(place: Place, v: Value, token: string): Place {
    match place
    case SchemaAt(shares) => if v.Obj? then PlaceOf(token, shares && !HasId(v)) else Plain(shares)
    case SchemaMap(shares) => if v.Obj? then SchemaAt(shares) else Plain(shares)
    case SchemaList(shares) => if v.Arr? then SchemaAt(shares) else Plain(shares)
    case Items(shares) =>
      if v.Arr? then SchemaAt(shares) else if v.Obj? then PlaceOf(token, shares && !HasId(v)) else Plain(shares)
    case Dependencies(shares) => if v.Obj? then Dependency(shares) else Plain(shares)
    case Dependency(shares) => if v.Obj? then PlaceOf(token, shares && !HasId(v)) else Plain(shares)
    case _ => Plain(place.shares)
  }

  function PlaceAfter(place: Place, v: Value, pointer: Pointer): Place
    decreases pointer
  {
    if pointer == [] then place
    else
      var child := Child(v, pointer[0]);
      if child.None? then Plain(false) else PlaceAfter(ChildPlace(place, v, pointer[0]), child.value, pointer[1..])
  }

  lemma ChildCommutes(place: Place, v: Value, token: string, prefix: string)
    ensures var c := Child(v, token);
            var c' := Child(RewriteAt(place, v, prefix), token);
            c.Some? == c'.Some? &&
            (c.Some? ==> c'.value == RewriteAt(ChildPlace(place, v, token), c.value, prefix))
  {
  }

  /** Looking up in the rewritten document is rewriting what the pointer finds in the original:
      for every pointer, through schema keywords or not. */
  lemma {:induction false} LookupCommutes(place: Place, v: Value, pointer: Pointer, prefix: string)
    ensures var found := Get(v, pointer);
            Get(RewriteAt(place, v, prefix), pointer) ==
            if found.None? then None else Some(RewriteAt(PlaceAfter(place, v, pointer), found.value, prefix))
    decreases pointer
  {
    if pointer != [] {
      ChildCommutes(place, v, pointer[0], prefix);
      var c := Child(v, pointer[0]);
      if c.Some? {
        LookupCommutes(ChildPlace(place, v, pointer[0]), c.value, pointer[1..], prefix);
      }
    }
  }

  /** Nothing below an embedded resource changes. */
  lemma {:induction false} EmbeddedIsUntouched(place: Place, v: Value, prefix: string)
    requires !place.shares
    ensures RewriteAt(place, v, prefix) == v
    decreases v, 1
  {
    match place
    case SchemaAt(_) => EmbeddedSchemaIsUntouched(v, prefix);
    case Dependency(_) => EmbeddedSchemaIsUntouched(v, prefix);
    case Reference(_) =>
    case Plain(_) =>
    case Items(_) =>
      EmbeddedSchemaIsUntouched(v, prefix);
      EmbeddedMembersAreUntouched(v, prefix);
    case _ => EmbeddedMembersAreUntouched(v, prefix);
  }

  lemma {:induction false} EmbeddedMembersAreUntouched(v: Value, prefix: string)
    ensures v.Obj? ==> forall k | k in v.fields :: Rewrite(v.fields[k], prefix, false) == v.fields[k]
    ensures v.Arr? ==> forall x | x in v.items :: Rewrite(x, prefix, false) == x
    decreases v, 0
  {
    match v
    case Obj(fields) => forall k | k in fields { EmbeddedSchemaIsUntouched(fields[k], prefix); }
    case Arr(items) => forall x | x in items { EmbeddedSchemaIsUntouched(x, prefix); }
    case _ =>
  }

  lemma {:induction false} EmbeddedSchemaIsUntouched(v: Value, prefix: string)
    ensures Rewrite(v, prefix, false) == v
    decreases v, 0
  {
    if v.Obj? {
      forall k | k in v.fields { EmbeddedIsUntouched(PlaceOf(k, false), v.fields[k], prefix); }
      assert Rewrite(v, prefix, false).fields == v.fields;
    }
  }

  /** A schema with an "$id" of its own keeps every reference inside it. */
  lemma ResourceIsUntouched(schema: Value, prefix: string, inherits: bool)
    requires HasId(schema)
    ensures Rewrite(schema, prefix, inherits) == schema
  {
    forall k | k in schema.fields { EmbeddedIsUntouched(PlaceOf(k, false), schema.fields[k], prefix); }
    assert Rewrite(schema, prefix, inherits).fields == schema.fields;
  }

  // ----- The pointer in a reference -----

  /** The segments between the '/' characters. */
  function Split(s: string): (r: seq<string>)
    ensures |r| >= 1
  {
    if s == "" then [""]
    else
      PutFirst(s[0], Split(s[1..]))
  }

  function PutFirst(c: char, segments: seq<string>): (r: seq<string>)
    requires |segments| >= 1
    ensures |r| >= 1
  {
    if c == '/' then [""] + segments else [[c] + segments[0]] + segments[1..]
  }

  /** A segment with "~1" read as '/' and "~0" as '~'. */
  function Unescape(s: string): string {
    if |s| < 2 then s
    else if s[0] == '~' && s[1] == '1' then "/" + Unescape(s[2..])
    else if s[0] == '~' && s[1] == '0' then "~" + Unescape(s[2..])
    else [s[0]] + Unescape(s[1..])
  }

  function UnescapeAll(segments: seq<string>): (r: seq<string>)
    ensures |r| == |segments|
  {
    if segments == [] then [] else [Unescape(segments[0])] + UnescapeAll(segments[1..])
  }

  function HexDigit(c: char): Option<nat> {
    if '0' <= c <= '9' then Some(c as nat - '0' as nat)
    else if 'a' <= c <= 'f' then Some(c as nat - 'a' as nat + 10)
    else if 'A' <= c <= 'F' then Some(c as nat - 'A' as nat + 10)
    else None
  }

  function PercentDecode(s: string): string {
    if s == "" then ""
    else if s[0] == '%' && |s| >= 3 && HexDigit(s[1]).Some? && HexDigit(s[2]).Some? then
      [(16 * HexDigit(s[1]).value + HexDigit(s[2]).value) as char] + PercentDecode(s[3..])
    else [s[0]] + PercentDecode(s[1..])
  }

  /** The pointer that a local reference carries in its fragment. */
  function PointerOf(reference: string): Pointer
    requires IsLocal(reference)
  {
    FragmentPointer(reference[1..])
  }

  function FragmentPointer(fragment: string): Pointer {
    UnescapeAll(Split(PercentDecode(fragment))[1..])
  }

  /** A segment that no step of reading a reference changes. */
  predicate IsPlainToken(s: string) {
    '/' !in s && '~' !in s && '%' !in s
  }

  lemma {:induction false} SplitPlain(s: string)
    requires '/' !in s
    ensures Split(s) == [s]
  {
    if s != "" {
      SplitPlain(s[1..]);
      assert s == [s[0]] + s[1..];
    }
  }

  lemma {:induction false} SplitJoined(a: string, b: string)
    ensures Split(a + ['/'] + b) == Split(a) + Split(b)
  {
    var whole := a + ['/'] + b;
    if a == "" {
      assert whole[1..] == b;
    } else {
      SplitJoined(a[1..], b);
      assert whole[1..] == a[1..] + ['/'] + b && whole[0] == a[0];
      PutFirstBefore(a[0], Split(a[1..]), Split(b));
    }
  }

  lemma PutFirstBefore(c: char, left: seq<string>, right: seq<string>)
    requires |left| >= 1
    ensures PutFirst(c, left + right) == PutFirst(c, left) + right
  {
    assert (left + right)[1..] == left[1..] + right;
  }

  lemma {:induction false} UnescapePlain(s: string)
    requires '~' !in s
    ensures Unescape(s) == s
  {
    if |s| >= 2 { UnescapePlain(s[1..]); }
  }

  lemma {:induction false} DecodePlain(a: string, b: string)
    requires '%' !in a
    ensures PercentDecode(a + b) == a + PercentDecode(b)
  {
    if a == "" {
      assert a + b == b;
    } else {
      DecodePlain(a[1..], b);
      assert (a + b)[1..] == a[1..] + b && (a + b)[0] == a[0];
    }
  }

  lemma SplitUnder(first: string, second: string, rest: string)
    requires IsPlainToken(first) && IsPlainToken(second)
    ensures Split(['/'] + first + ['/'] + second) == [[], first, second]
    ensures Split(['/'] + first + ['/'] + second + ['/'] + rest) == [[], first, second] + Split(rest)
  {
    SplitPlain([]);
    SplitPlain(first);
    SplitPlain(second);
    var under := first + ['/'] + second;
    SplitJoined(first, second);
    SplitJoined([], under);
    assert [] + ['/'] + under == ['/'] + first + ['/'] + second;
    SplitJoined(['/'] + first + ['/'] + second, rest);
  }

  lemma UnescapeUnder(first: string, second: string, rest: seq<string>)
    requires IsPlainToken(first) && IsPlainToken(second)
    ensures UnescapeAll([first, second] + rest) == [first, second] + UnescapeAll(rest)
  {
    UnescapePlain(first);
    UnescapePlain(second);
    var all := [first, second] + rest;
    assert all[1..] == [second] + rest && all[1..][1..] == rest;
  }

  lemma DecodeUnder(path: string, fragment: string)
    requires '%' !in path && (fragment == "" || fragment[0] == '/')
    ensures var d := PercentDecode(path + fragment);
            if fragment == "" then d == path
            else d == path + ['/'] + PercentDecode(fragment[1..]) &&
                 PercentDecode(fragment) == ['/'] + PercentDecode(fragment[1..])
  {
    DecodePlain(path, fragment);
    if fragment != "" {
      DecodePlain(['/'], fragment[1..]);
      assert fragment == ['/'] + fragment[1..];
    }
  }

  lemma FragmentUnder(first: string, second: string, fragment: string)
    requires IsPlainToken(first) && IsPlainToken(second) && (fragment == "" || fragment[0] == '/')
    ensures FragmentPointer(['/'] + first + ['/'] + second + fragment) == [first, second] + FragmentPointer(fragment)
  {
    hide Split, UnescapeAll, PercentDecode;
    var path := ['/'] + first + ['/'] + second;
    DecodeUnder(path, fragment);
    if fragment == "" {
      EmptyFragment();
      SplitUnder(first, second, []);
      UnescapeUnder(first, second, []);
      assert [[], first, second][1..] == [first, second] + [];
    } else {
      var rest := PercentDecode(fragment[1..]);
      SplitUnder(first, second, rest);
      SplitJoined([], rest);
      EmptyFragment();
      assert [] + ['/'] + rest == ['/'] + rest;
      UnescapeUnder(first, second, Split(rest));
      assert ([[], first, second] + Split(rest))[1..] == [first, second] + Split(rest);
      assert ([[]] + Split(rest))[1..] == Split(rest);
    }
  }

  lemma EmptyFragment()
    ensures PercentDecode([]) == [] && Split([]) == [[]] && UnescapeAll([]) == [] && FragmentPointer([]) == []
  {
  }

  lemma PointerUnder(first: string, second: string, reference: string)
    requires IsPlainToken(first) && IsPlainToken(second) && IsLocal(reference)
    ensures var r := RewriteReference(reference, ['#', '/'] + first + ['/'] + second);
            IsLocal(r) && PointerOf(r) == [first, second] + PointerOf(reference)
  {
    hide FragmentPointer;
    var path := ['/'] + first + ['/'] + second;
    var r := RewriteReference(reference, ['#', '/'] + first + ['/'] + second);
    assert r[1..] == path + reference[1..] && r[..2] == ['#', '/'];
    FragmentUnder(first, second, reference[1..]);
  }

  /** A rewritten local reference is local and points under /properties/value. */
  lemma RewrittenPointer(reference: string)
    requires IsLocal(reference)
    ensures var r := RewriteReference(reference, VALUE_PREFIX);
            IsLocal(r) && PointerOf(r) == ["properties", "value"] + PointerOf(reference)
  {
    hide PointerOf, RewriteReference, IsLocal;
    PointerUnder("properties", "value", reference);
    assert ['#', '/'] + "properties" + ['/'] + "value" == VALUE_PREFIX;
  }

  // ----- Where references land -----

  /** Below /properties/value the wrapper holds the rewritten schema. */
  lemma WrapperHoldsSchema(schema: Value, pointer: Pointer)
    ensures Get(ToolParameters(schema), ["properties", "value"] + pointer) ==
            Get(Rewrite(schema, VALUE_PREFIX, true), pointer)
  {
    hide Rewrite;
    var whole := ["properties", "value"] + pointer;
    assert whole[1..] == ["value"] + pointer && whole[1..][1..] == pointer;
  }

  /** Every local reference of the wrapped document's own resource is rewritten to one that lands, inside
      the wrapper, on the image of what it meant; it dangles exactly when it dangled before. References
      inside an embedded resource keep their text. */
  lemma ReferencesLand(schema: Value, at: Pointer, text: string)
    requires PlaceAfter(SchemaAt(true), schema, at).Reference? && Get(schema, at) == Some(Str(text))
    ensures var shares := PlaceAfter(SchemaAt(true), schema, at).shares;
            var image := if shares then RewriteReference(text, VALUE_PREFIX) else text;
            Get(ToolParameters(schema), ["properties", "value"] + at) == Some(Str(image)) &&
            (shares && IsLocal(text) ==> IsLocal(image) && LandsOnImage(schema, PointerOf(text), PointerOf(image)))
  {
    hide PointerOf, RewriteReference, IsLocal;
    LookupCommutes(SchemaAt(true), schema, at, VALUE_PREFIX);
    WrapperHoldsSchema(schema, at);
    if PlaceAfter(SchemaAt(true), schema, at).shares && IsLocal(text) {
      RewrittenPointer(text);
      LookupCommutes(SchemaAt(true), schema, PointerOf(text), VALUE_PREFIX);
      WrapperHoldsSchema(schema, PointerOf(text));
    }
  }

  ghost predicate LandsOnImage(schema: Value, target: Pointer, image: Pointer) {
    var found := Get(schema, target);
    Get(ToolParameters(schema), image) ==
    if found.None? then None
    else Some(RewriteAt(PlaceAfter(SchemaAt(true), schema, target), found.value, VALUE_PREFIX))
  }

  /** A text of the document changes by wrapping exactly when it is a local reference, under a reference
      keyword of a schema, in the document's own resource. */
  lemma RewrittenIff(schema: Value, at: Pointer, text: string)
    requires Get(schema, at) == Some(Str(text))
    ensures var place := PlaceAfter(SchemaAt(true), schema, at);
            Get(ToolParameters(schema), ["properties", "value"] + at) != Some(Str(text)) <==>
            place.Reference? && place.shares && IsLocal(text)
  {
    hide RewriteReference, IsLocal, ToolParameters, PlaceAfter, Get;
    LookupCommutes(SchemaAt(true), schema, at, VALUE_PREFIX);
    WrapperHoldsSchema(schema, at);
    LocalTextChanges(text);
  }

  lemma LocalTextChanges(text: string)
    ensures RewriteReference(text, VALUE_PREFIX) != text <==> IsLocal(text)
  {
    if IsLocal(text) { assert |RewriteReference(text, VALUE_PREFIX)| > |text|; }
  }

  /** The pointers that lead somewhere in the wrapper: its own members, and those of the document below
      /properties/value. */
  predicate InWrapper(schema: Value, target: Pointer) {
    || target == []
    || (|target| == 1 && target[0] in {"type", "properties", "required", "additionalProperties"})
    || (|target| == 2 && target[0] == "required" && target[1] == "0")
    || (["properties", "value"] <= target && Get(schema, target[2..]).Some?)
  }

  lemma WrapperResolvesIff(schema: Value, target: Pointer)
    ensures Get(ToolParameters(schema), target).Some? <==> InWrapper(schema, target)
  {
    hide Rewrite, IndexOf;
    var wrapper := ToolParameters(schema);
    if ["properties", "value"] <= target {
      var q := target[2..];
      assert target == ["properties", "value"] + q;
      WrapperHoldsSchema(schema, q);
      LookupCommutes(SchemaAt(true), schema, q, VALUE_PREFIX);
      RewritingIsPlacewise(schema);
    } else if target != [] && target[0] in wrapper.fields {
      var rest := target[1..];
      assert target == [target[0]] + rest;
      MemberResolves(wrapper.fields[target[0]], target[0], rest);
    }
  }

  /** What can be reached inside one member of the wrapper, except below /properties/value. */
  lemma MemberResolves(member: Value, name: string, rest: Pointer)
    requires name == "properties" ==> member.Obj? && member.fields.Keys == {"value"}
    requires name == "required" ==> member == Arr([Str("value")])
    requires name == "type" || name == "additionalProperties" ==> member.Str? || member.Bool?
    requires name in {"type", "properties", "required", "additionalProperties"}
    requires !(name == "properties" && rest != [] && rest[0] == "value")
    ensures Get(member, rest).Some? <==> rest == [] || (name == "required" && rest == ["0"])
  {
    hide IndexOf;
    if rest != [] {
      OnlyZeroIsFirst(rest[0]);
      assert rest == [rest[0]] + rest[1..];
    }
  }

  /** The first element of an array has one pointer token only. */
  lemma OnlyZeroIsFirst(token: string)
    ensures IndexOf(token) == Some(0) <==> token == "0"
  {
    if |token| == 1 {
      assert token[..0] == "" && token == [token[0]];
      assert Digits(token[..0]) == Some(0);
      assert token == "0" <==> token[0] == '0';
    } else if |token| > 1 && token[0] != '0' && Digits(token).Some? {
      LeadingDigitCounts(token);
    }
  }

  lemma {:induction false} LeadingDigitCounts(token: string)
    requires token != "" && token[0] != '0' && Digits(token).Some?
    ensures Digits(token).value > 0
  {
    if |token| == 1 {
      assert token[..0] == "";
    } else {
      LeadingDigitCounts(token[..|token| - 1]);
    }
  }

  /** The image, in the rewritten document, of what a pointer finds in the original. */
  function ImageOf(schema: Value, pointer: Pointer): Option<Value> {
    match Get(schema, pointer)
    case None => None
    case Some(found) => Some(RewriteAt(PlaceAfter(SchemaAt(true), schema, pointer), found, VALUE_PREFIX))
  }

  /** The pointers at which the wrapper's own text happens to be the image of the document's: a member both
      have, or a place below /properties/value that looks the same when the document is taken for the wrapper. */
  predicate Coincides(schema: Value, target: Pointer) {
    || (target == ["type"] && Get(schema, target) == Some(Str("object")))
    || (target == ["additionalProperties"] && Get(schema, target) == Some(Bool(false)))
    || (target == ["required"] && Get(schema, target) == Some(Arr([Str("value")])))
    || (target == ["required", "0"] && Get(schema, target) == Some(Str("value")))
    || (["properties", "value"] <= target && Get(schema, target).Some? && ImageOf(schema, target[2..]) == ImageOf(schema, target))
  }

  /** A local pointer outside the places the rewriting knows keeps its text, and is read against the wrapper
      from then on: it still names the image of its target exactly if it dangles before and after, or names one
      of the coincidences. */
  lemma UnknownKeywordIsLeftBehind(schema: Value, at: Pointer, text: string)
    requires Get(schema, at) == Some(Str(text)) && IsLocal(text)
    requires PlaceAfter(SchemaAt(true), schema, at).shares && !PlaceAfter(SchemaAt(true), schema, at).Reference?
    ensures Get(ToolParameters(schema), ["properties", "value"] + at) == Some(Str(text))
    ensures Get(ToolParameters(schema), PointerOf(text)) == None <==> !InWrapper(schema, PointerOf(text))
    ensures LandsOnImage(schema, PointerOf(text), PointerOf(text)) <==>
            (Get(schema, PointerOf(text)) == None && !InWrapper(schema, PointerOf(text))) || Coincides(schema, PointerOf(text))
  {
    hide InWrapper, IsLocal, PointerOf, Coincides, LandsOnImage;
    RewrittenIff(schema, at, text);
    WrapperResolvesIff(schema, PointerOf(text));
    UnmovedIff(schema, PointerOf(text));
  }

  /** For every pointer: read against the wrapper as it stands, it finds the image of what it found. */
  lemma UnmovedIff(schema: Value, target: Pointer)
    ensures LandsOnImage(schema, target, target) <==>
            (Get(schema, target) == None && !InWrapper(schema, target)) || Coincides(schema, target)
  {
    hide Get, RewriteAt, Rewrite, ToolParameters, PlaceAfter, LandsOnImage;
    WrapperResolvesIff(schema, target);
    if target == [] || target == ["properties"] {
      NeverAbove(schema);
    } else if ["properties", "value"] <= target {
      assert target == ["properties", "value"] + target[2..];
      UnmovedBelow(schema, target[2..]);
    } else if InWrapper(schema, target) {
      assert |target| == 1 ==> target == [target[0]];
      assert |target| == 2 ==> target == [target[0], target[1]];
      UnmovedMember(schema, target);
    } else {
      ImageIsInRewritten(schema, target);
      NowhereToLand(schema, target);
    }
  }

  lemma GetOne(v: Value, token: string)
    ensures Get(v, [token]) == Child(v, token)
  {
  }

  lemma GetTwo(v: Value, first: string, second: string)
    ensures Get(v, [first, second]) ==
            if Child(v, first).None? then None else Child(Child(v, first).value, second)
  {
    assert [first, second][1..] == [second];
    if Child(v, first).Some? { GetOne(Child(v, first).value, second); }
  }

  lemma ImageIsInRewritten(schema: Value, pointer: Pointer)
    ensures Get(Rewrite(schema, VALUE_PREFIX, true), pointer) == ImageOf(schema, pointer)
  {
    hide Get, Rewrite, PlaceAfter;
    RewritingIsPlacewise(schema);
    LookupCommutes(SchemaAt(true), schema, pointer, VALUE_PREFIX);
  }

  /** The wrapper holds the rewritten document, so neither it nor its properties are part of it. */
  lemma NeverAbove(schema: Value)
    ensures !LandsOnImage(schema, [], []) && !LandsOnImage(schema, ["properties"], ["properties"])
    ensures Get(schema, []) != None
  {
    hide Rewrite;
    var wrapper, image := ToolParameters(schema), Rewrite(schema, VALUE_PREFIX, true);
    ImageIsInRewritten(schema, []);
    ImageIsInRewritten(schema, ["properties"]);
    GetTwo(wrapper, "properties", "value");
    if wrapper == image { NoneInsideItself(image); }
    GetOne(image, "properties");
    GetOne(wrapper, "properties");
    GetTwo(image, "properties", "value");
    if Child(image, "properties") == Some(wrapper.fields["properties"]) { NoneInsideItself(image); }
  }

  lemma NowhereToLand(schema: Value, target: Pointer)
    requires Get(ToolParameters(schema), target) == None
    ensures LandsOnImage(schema, target, target) <==> Get(schema, target) == None
  {
    hide Get, ToolParameters, RewriteAt, PlaceAfter;
  }

  lemma NoneInsideItself(v: Value)
    ensures Get(v, ["properties", "value"]) != Some(v)
  {
    hide IndexOf;
    GetTwo(v, "properties", "value");
    hide Get, Child;
    var properties := Child(v, "properties");
    ChildIsSmaller(v, "properties");
    if properties.Some? { ChildIsSmaller(properties.value, "value"); }
  }

  lemma ChildIsSmaller(v: Value, token: string)
    ensures Child(v, token).Some? ==> Child(v, token).value < v
  {
    hide IndexOf;
  }

  lemma UnmovedBelow(schema: Value, below: Pointer)
    ensures var target := ["properties", "value"] + below;
            LandsOnImage(schema, target, target) <==> ImageOf(schema, below) == ImageOf(schema, target)
  {
    hide Get, Rewrite, RewriteAt, ToolParameters, PlaceAfter;
    WrapperHoldsSchema(schema, below);
    ImageIsInRewritten(schema, below);
  }

  lemma UnmovedMember(schema: Value, target: Pointer)
    requires target in {["type"], ["additionalProperties"], ["required"], ["required", "0"]}
    ensures LandsOnImage(schema, target, target) <==> Coincides(schema, target)
  {
    hide Rewrite, Get, ToolParameters, PlaceAfter, RewriteAt;
    OwnMembers(schema);
    MemberImage(schema, target);
    assert target[0] != "properties";
  }

  /** Each of these members is the image of a text of the document only if it is that text. */
  lemma MemberImage(schema: Value, target: Pointer)
    requires target in {["type"], ["additionalProperties"], ["required"], ["required", "0"]}
    ensures target != ["additionalProperties"] ==> ImageOf(schema, target) == Get(schema, target)
    ensures ImageOf(schema, ["additionalProperties"]) == Some(Bool(false)) <==>
            Get(schema, ["additionalProperties"]) == Some(Bool(false))
  {
    hide IndexOf, PlaceOf;
    MemberPlaces(true);
    MemberPlaces(false);
    assert target[1..] == if |target| == 1 then [] else ["0"];
    assert ["0"][1..] == [];
    AdditionalImage(schema);
  }

  lemma AdditionalImage(schema: Value)
    ensures ImageOf(schema, ["additionalProperties"]) == Some(Bool(false)) <==>
            Get(schema, ["additionalProperties"]) == Some(Bool(false))
  {
    hide IndexOf, PlaceOf, Get;
    MemberPlaces(true);
    MemberPlaces(false);
    GetOne(schema, "additionalProperties");
    var place := PlaceAfter(SchemaAt(true), schema, ["additionalProperties"]);
    assert ["additionalProperties"][1..] == [];
    var c := Child(schema, "additionalProperties");
    if c.Some? {
      assert PlaceAfter(ChildPlace(SchemaAt(true), schema, "additionalProperties"), c.value, []) ==
             ChildPlace(SchemaAt(true), schema, "additionalProperties");
      assert place.SchemaAt? || place.Plain?;
      assert RewriteAt(place, c.value, VALUE_PREFIX) == if place.Plain? then c.value else Rewrite(c.value, VALUE_PREFIX, place.shares);
    }
  }

  lemma MemberPlaces(shares: bool)
    ensures PlaceOf("type", shares) == Plain(shares) && PlaceOf("required", shares) == Plain(shares)
    ensures PlaceOf("additionalProperties", shares) == SchemaAt(shares)
  {
    assert SCHEMA_SINGLE_KEYWORDS[1] == "additionalProperties";
  }

  lemma OwnMembers(schema: Value)
    ensures var w := ToolParameters(schema);
            Get(w, ["type"]) == Some(Str("object")) && Get(w, ["additionalProperties"]) == Some(Bool(false)) &&
            Get(w, ["required"]) == Some(Arr([Str("value")])) && Get(w, ["required", "0"]) == Some(Str("value"))
  {
    hide Rewrite, IndexOf;
    OnlyZeroIsFirst("0");
    assert ["required", "0"][1..] == ["0"] && ["0"][1..] == [] && ["required"][1..] == [];
  }

  // A document whose reference leads under an unknown keyword, where another local reference stands.
  const LEFT_BEHIND := Obj(map[
    "$ref" := Str("#/x/a"),
    "x" := Obj(map["a" := Obj(map["$ref" := Str("#/x/b")]), "b" := Bool(true)])])

  /** Its inner reference leads to true before wrapping and nowhere after, although the outer reference
      still leads to the inner one. */
  lemma LeftBehindDangles()
    ensures Get(LEFT_BEHIND, ["x", "a", "$ref"]) == Some(Str("#/x/b"))
    ensures Get(LEFT_BEHIND, PointerOf("#/x/b")) == Some(Bool(true))
    ensures Get(ToolParameters(LEFT_BEHIND), ["properties", "value"] + ["$ref"]) == Some(Str("#/properties/value/x/a"))
    ensures Get(ToolParameters(LEFT_BEHIND), PointerOf("#/properties/value/x/a")) ==
            Some(Obj(map["$ref" := Str("#/x/b")]))
    ensures Get(ToolParameters(LEFT_BEHIND), PointerOf("#/x/b")) == None
  {
    hide PointerOf, IsLocal, RewriteReference, ToolParameters, PlaceOf;
    LeftBehindPointers();
    LeftBehindPlaces();
    ReferencesLand(LEFT_BEHIND, ["$ref"], "#/x/a");
    WrapperResolvesIff(LEFT_BEHIND, ["x", "b"]);
    assert ["x", "a"] + ["$ref"] == ["x", "a", "$ref"];
  }

  // The same with a reference to the whole document.
  const LEFT_AT_ROOT := Obj(map[
    "$ref" := Str("#/x/a"),
    "x" := Obj(map["a" := Obj(map["$ref" := Str("#")])])])

  /** Its inner reference names the document before wrapping and the wrapper after. */
  lemma LeftBehindRenames()
    ensures Get(LEFT_AT_ROOT, ["x", "a", "$ref"]) == Some(Str("#"))
    ensures Get(LEFT_AT_ROOT, PointerOf("#")) == Some(LEFT_AT_ROOT)
    ensures Get(ToolParameters(LEFT_AT_ROOT), ["properties", "value"] + ["$ref"]) == Some(Str("#/properties/value/x/a"))
    ensures Get(ToolParameters(LEFT_AT_ROOT), PointerOf("#/properties/value/x/a")) ==
            Some(Obj(map["$ref" := Str("#")]))
    ensures Get(ToolParameters(LEFT_AT_ROOT), PointerOf("#")) == Some(ToolParameters(LEFT_AT_ROOT))
    ensures ToolParameters(LEFT_AT_ROOT) != Rewrite(LEFT_AT_ROOT, VALUE_PREFIX, true)
  {
    hide PointerOf, IsLocal, RewriteReference, ToolParameters, PlaceOf, Rewrite;
    RootPointer();
    LeftBehindPointers();
    LeftAtRootPlaces();
    ReferencesLand(LEFT_AT_ROOT, ["$ref"], "#/x/a");
    NeverAbove(LEFT_AT_ROOT);
    ImageIsInRewritten(LEFT_AT_ROOT, []);
  }

  lemma LeftAtRootPlaces()
    ensures PlaceAfter(SchemaAt(true), LEFT_AT_ROOT, ["$ref"]) == Reference(true)
    ensures PlaceAfter(SchemaAt(true), LEFT_AT_ROOT, ["x", "a"]) == Plain(true)
    ensures Get(LEFT_AT_ROOT, ["$ref"]) == Some(Str("#/x/a"))
    ensures Get(LEFT_AT_ROOT, ["x", "a"]) == Some(Obj(map["$ref" := Str("#")]))
    ensures Get(LEFT_AT_ROOT, ["x", "a", "$ref"]) == Some(Str("#"))
  {
    hide PlaceOf;
    LeftBehindKeywords();
    assert ["x", "a"][1..] == ["a"] && ["a"][1..] == [];
    assert ["x", "a", "$ref"][1..] == ["a", "$ref"] && ["a", "$ref"][1..] == ["$ref"] && ["$ref"][1..] == [];
  }

  lemma LeftBehindPointers()
    ensures IsLocal("#/x/a") && PointerOf("#/x/a") == ["x", "a"] && PointerOf("#/x/b") == ["x", "b"]
    ensures RewriteReference("#/x/a", VALUE_PREFIX) == "#/properties/value/x/a"
  {
    hide PointerOf;
    RootPointer();
    PointerUnder("x", "a", "#");
    PointerUnder("x", "b", "#");
    assert ["x", "a"] + [] == ["x", "a"] && ["x", "b"] + [] == ["x", "b"];
    assert ['#', '/'] + "x" + ['/'] + "a" == "#/x/a" && ['#', '/'] + "x" + ['/'] + "b" == "#/x/b";
    assert VALUE_PREFIX + "#/x/a"[1..] == "#/properties/value/x/a";
  }

  lemma RootPointer()
    ensures IsLocal("#") && PointerOf("#") == []
  {
    EmptyFragment();
    assert "#"[1..] == [];
  }

  lemma LeftBehindPlaces()
    ensures PlaceAfter(SchemaAt(true), LEFT_BEHIND, ["$ref"]) == Reference(true)
    ensures PlaceAfter(SchemaAt(true), LEFT_BEHIND, ["x", "a"]) == Plain(true)
    ensures Get(LEFT_BEHIND, ["$ref"]) == Some(Str("#/x/a"))
    ensures Get(LEFT_BEHIND, ["x", "a"]) == Some(Obj(map["$ref" := Str("#/x/b")]))
    ensures Get(LEFT_BEHIND, ["x", "a", "$ref"]) == Some(Str("#/x/b"))
    ensures Get(LEFT_BEHIND, ["x", "b"]) == Some(Bool(true))
  {
    hide PlaceOf;
    LeftBehindKeywords();
    assert ["x", "a"][1..] == ["a"] && ["a"][1..] == [] && ["x", "b"][1..] == ["b"] && ["b"][1..] == [];
    assert ["x", "a", "$ref"][1..] == ["a", "$ref"] && ["a", "$ref"][1..] == ["$ref"] && ["$ref"][1..] == [];
  }

  lemma LeftBehindKeywords()
    ensures PlaceOf("$ref", true) == Reference(true) && PlaceOf("x", true) == Plain(true)
  {
    assert "$ref" == REFERENCE_KEYWORDS[0];
  }

  // ----- Validation -----

  /** A schema found by a reference, with the root its own local references are read against. */
  datatype Located = Located(root: Value, schema: Value)

  /** Follows a pointer to a schema; crossing a schema with an "$id" makes that schema the root. */
  function Locate(root: Value, place: Place, v: Value, pointer: Pointer): Option<Located>
    decreases pointer
  {
    if pointer == [] then
      if IsSchemaPlace(place, v) then Some(Located(root, v)) else None
    else
      var child := Child(v, pointer[0]);
      if child.None? then None
      else
        Locate(if IsSchemaPlace(place, v) && HasId(v) then v else root, ChildPlace(place, v, pointer[0]),
               child.value, pointer[1..])
  }

  predicate IsSchemaPlace(place: Place, v: Value) {
    place.SchemaAt? || ((place.Items? || place.Dependency?) && !v.Arr?)
  }

  /** A schema's own text: its subschemas blanked out, a list of them reduced to its length, and the
      targets of its local references dropped. */
  function OwnText(schema: Value): Value
    requires schema.Obj?
  {
    Obj(map k | k in schema.fields :: Blank(PlaceOf(k, true), schema.fields[k]))
  }

  function Blank(place: Place, v: Value): Value {
    if place.Reference? then (if v.Str? && IsLocal(v.s) then Str("#") else v)
    else if place.Plain? then v
    else if IsSchemaPlace(place, v) then Undefined
    else if v.Obj? && !place.SchemaList? then Obj(map k | k in v.fields :: BlankDependency(place, v.fields[k]))
    else if v.Arr? && (place.SchemaList? || place.Items?) then Num(|v.items|)
    else v
  }

  function BlankDependency(place: Place, v: Value): Value {
    if place.Dependencies? && v.Arr? then v else Undefined
  }

  function ReferenceTarget(root: Value, schema: Value, keyword: string): Option<Located> {
    if keyword in REFERENCE_KEYWORDS && schema.Obj? && keyword in schema.fields &&
       schema.fields[keyword].Str? && IsLocal(schema.fields[keyword].s)
    then Locate(root, SchemaAt(true), root, PointerOf(schema.fields[keyword].s))
    else None
  }

  /** What a vocabulary makes of one schema on one value: any function of the schema's own text, the
      results of its subschemas (by relative pointer) and of its references (by keyword) on any values,
      and the value. A result may be a verdict or a verdict with annotations. */
  type Vocabulary<!R> = (Value, imap<(Pointer, Value), R>, imap<(string, Value), R>, Value) -> R

  ghost function Evaluate<R>(vocabulary: Vocabulary<R>, fuel: nat, root: Value, schema: Value, v: Value): R
    decreases fuel, 1
  {
    if !schema.Obj? then vocabulary(schema, imap[], imap[], v)
    else if fuel == 0 then vocabulary(Undefined, imap[], imap[], v)
    else
      var base := if HasId(schema) then schema else root;
      vocabulary(OwnText(schema), Subresults(vocabulary, fuel, base, schema),
                 ReferenceResults(vocabulary, fuel, base, schema), v)
  }

  ghost function Subresults<R>(vocabulary: Vocabulary<R>, fuel: nat, base: Value, schema: Value)
    : imap<(Pointer, Value), R>
    requires fuel > 0
    decreases fuel, 0
  {
    imap p: (Pointer, Value) | Locate(base, SchemaAt(true), schema, p.0).Some? && p.0 != [] ::
      var l := Locate(base, SchemaAt(true), schema, p.0).value;
      Evaluate(vocabulary, fuel - 1, l.root, l.schema, p.1)
  }

  ghost function ReferenceResults<R>(vocabulary: Vocabulary<R>, fuel: nat, base: Value, schema: Value)
    : imap<(string, Value), R>
    requires fuel > 0
    decreases fuel, 0
  {
    imap p: (string, Value) | ReferenceTarget(base, schema, p.0).Some? ::
      var l := ReferenceTarget(base, schema, p.0).value;
      Evaluate(vocabulary, fuel - 1, l.root, l.schema, p.1)
  }

  // ----- Wrapping preserves meaning -----

  /** A schema located in the wrapper is the image of the one located in the document: the rewritten
      schema of the same resource, or the very same embedded one. */
  predicate IsImage(document: Value, original: Option<Located>, image: Option<Located>) {
    original == image ||
    (original.Some? && image.Some? && original.value.root == document &&
     image.value == Located(ToolParameters(document), Rewrite(original.value.schema, VALUE_PREFIX, true)))
  }

  lemma RewritingKeepsShape(place: Place, v: Value)
    ensures var image := RewriteAt(place, v, VALUE_PREFIX);
            image.Obj? == v.Obj? && image.Arr? == v.Arr? && image.Str? == v.Str? &&
            (v.Obj? ==> image.fields.Keys == v.fields.Keys)
  {
  }

  lemma RewritingKeepsPlaces(place: Place, v: Value, token: string)
    ensures var image := RewriteAt(place, v, VALUE_PREFIX);
            IsSchemaPlace(place, image) == IsSchemaPlace(place, v) &&
            (IsSchemaPlace(place, v) ==> HasId(image) == HasId(v)) &&
            ChildPlace(place, image, token) == ChildPlace(place, v, token)
  {
    RewritingKeepsShape(place, v);
    if IsSchemaPlace(place, v) && v.Obj? && "$id" in v.fields {
      RewritingKeepsShape(PlaceOf("$id", place.shares && !HasId(v)), v.fields["$id"]);
    }
  }

  lemma ChildShares(place: Place, v: Value, token: string)
    requires place.shares && !(IsSchemaPlace(place, v) && HasId(v))
    ensures ChildPlace(place, v, token).shares
  {
  }

  lemma {:induction false} LocateImage(document: Value, place: Place, v: Value, pointer: Pointer)
    requires place.shares
    ensures IsImage(document, Locate(document, place, v, pointer),
                    Locate(ToolParameters(document), place, RewriteAt(place, v, VALUE_PREFIX), pointer))
    decreases pointer
  {
    hide ToolParameters, RewriteAt, Rewrite, ChildPlace, IsSchemaPlace, HasId;
    if pointer == [] {
      SchemaPlaceImage(place, v);
    } else {
      ChildCommutes(place, v, pointer[0], VALUE_PREFIX);
      RewritingKeepsPlaces(place, v, pointer[0]);
      if Child(v, pointer[0]).Some? {
        if IsSchemaPlace(place, v) && HasId(v) {
          SchemaPlaceImage(place, v);
          ResourceIsUntouched(v, VALUE_PREFIX, true);
        } else {
          ChildShares(place, v, pointer[0]);
          LocateImage(document, ChildPlace(place, v, pointer[0]), Child(v, pointer[0]).value, pointer[1..]);
        }
      }
    }
  }

  lemma SchemaPlaceImage(place: Place, v: Value)
    requires place.shares
    ensures IsSchemaPlace(place, RewriteAt(place, v, VALUE_PREFIX)) == IsSchemaPlace(place, v)
    ensures IsSchemaPlace(place, v) ==>
              RewriteAt(place, v, VALUE_PREFIX) == Rewrite(v, VALUE_PREFIX, true)
  {
    RewritingKeepsShape(place, v);
  }

  lemma WrapperPlaces(document: Value)
    ensures var wrapper := ToolParameters(document);
            !HasId(wrapper) && ChildPlace(SchemaAt(true), wrapper, "properties") == SchemaMap(true)
  {
    hide Rewrite;
    assert "properties" == SCHEMA_MAP_KEYWORDS[0];
  }

  lemma LocateThroughWrapper(document: Value, pointer: Pointer)
    ensures var wrapper := ToolParameters(document);
            Locate(wrapper, SchemaAt(true), wrapper, ["properties", "value"] + pointer) ==
            Locate(wrapper, SchemaAt(true), Rewrite(document, VALUE_PREFIX, true), pointer)
  {
    hide Rewrite, PlaceOf;
    var wrapper := ToolParameters(document);
    var whole := ["properties", "value"] + pointer;
    WrapperPlaces(document);
    assert whole[1..] == ["value"] + pointer && whole[1..][1..] == pointer;
    var inner := wrapper.fields["properties"];
    assert Child(wrapper, "properties") == Some(inner);
    assert Child(inner, "value") == Some(Rewrite(document, VALUE_PREFIX, true));
    assert Locate(wrapper, SchemaMap(true), inner, whole[1..]) ==
           Locate(wrapper, SchemaAt(true), Rewrite(document, VALUE_PREFIX, true), pointer);
  }

  lemma ReferenceImage(document: Value, schema: Value, keyword: string)
    requires schema.Obj? && !HasId(schema)
    ensures IsImage(document, ReferenceTarget(document, schema, keyword),
                    ReferenceTarget(ToolParameters(document), Rewrite(schema, VALUE_PREFIX, true), keyword))
  {
    hide ToolParameters, Locate, PointerOf, IsLocal, RewriteReference;
    if keyword in REFERENCE_KEYWORDS && keyword in schema.fields && schema.fields[keyword].Str? {
      var text := schema.fields[keyword].s;
      RewriteKeepsLocality(text);
      if IsLocal(text) {
        RewrittenPointer(text);
        LocateThroughWrapper(document, PointerOf(text));
        LocateImage(document, SchemaAt(true), document, PointerOf(text));
      }
    }
  }

  lemma RewriteKeepsLocality(text: string)
    ensures IsLocal(RewriteReference(text, VALUE_PREFIX)) == IsLocal(text)
  {
    if IsLocal(text) { RewrittenPointer(text); }
  }

  lemma OwnTextIsKept(schema: Value)
    requires schema.Obj? && !HasId(schema)
    ensures OwnText(Rewrite(schema, VALUE_PREFIX, true)) == OwnText(schema)
  {
    hide Blank, PlaceOf, RewriteAt;
    forall k | k in schema.fields
      ensures Blank(PlaceOf(k, true), RewriteAt(PlaceOf(k, true), schema.fields[k], VALUE_PREFIX)) ==
              Blank(PlaceOf(k, true), schema.fields[k])
    {
      KeywordShares(k);
      BlankIsKept(PlaceOf(k, true), schema.fields[k]);
    }
  }

  lemma KeywordShares(keyword: string)
    ensures PlaceOf(keyword, true).shares
  {
  }

  lemma BlankIsKept(place: Place, v: Value)
    requires place.shares
    ensures Blank(place, RewriteAt(place, v, VALUE_PREFIX)) == Blank(place, v)
  {
    hide Rewrite, RewriteReference, IsLocal;
    var image := RewriteAt(place, v, VALUE_PREFIX);
    RewritingKeepsShape(place, v);
    if place.Reference? && v.Str? {
      RewriteKeepsLocality(v.s);
      NotLocalIsKept(v.s);
    } else if v.Obj? && !IsSchemaPlace(place, v) && (place.SchemaMap? || place.Dependencies?) {
      forall k | k in v.fields ensures Rewrite(v.fields[k], VALUE_PREFIX, true).Arr? == v.fields[k].Arr? {
        RewritingIsPlacewise(v.fields[k]);
        RewritingKeepsShape(SchemaAt(true), v.fields[k]);
      }
      assert Blank(place, image).fields == Blank(place, v).fields;
    }
  }

  lemma NotLocalIsKept(text: string)
    ensures !IsLocal(text) ==> RewriteReference(text, VALUE_PREFIX) == text
  {
  }

  /** The rewritten schema, read inside the wrapper, makes of every value what the original made of it,
      under any vocabulary and to any depth of evaluation. A pointer to a place that is no schema, such as one
      under an unknown keyword, leads nowhere on both sides: what UnknownKeywordIsLeftBehind says of the text
      there is out of sight here. */
  lemma {:induction false} RewritingKeepsMeaning<R>(
      vocabulary: Vocabulary<R>, fuel: nat, document: Value, schema: Value, v: Value)
    ensures Evaluate(vocabulary, fuel, ToolParameters(document), Rewrite(schema, VALUE_PREFIX, true), v) ==
            Evaluate(vocabulary, fuel, document, schema, v)
    decreases fuel, 1
  {
    hide ToolParameters, OwnText, Subresults, ReferenceResults, HasId;
    var image := Rewrite(schema, VALUE_PREFIX, true);
    RewritingKeepsShape(SchemaAt(true), schema);
    if schema.Obj? && fuel > 0 {
      RewritingKeepsPlaces(SchemaAt(true), schema, "");
      if HasId(schema) {
        ResourceIsUntouched(schema, VALUE_PREFIX, true);
      } else {
        OwnTextIsKept(schema);
        SubresultsAreKept(vocabulary, fuel, document, schema);
        ReferenceResultsAreKept(vocabulary, fuel, document, schema);
      }
    }
  }

  lemma {:induction false} SubresultsAreKept<R>(vocabulary: Vocabulary<R>, fuel: nat, document: Value, schema: Value)
    requires fuel > 0
    ensures Subresults(vocabulary, fuel, ToolParameters(document), Rewrite(schema, VALUE_PREFIX, true)) ==
            Subresults(vocabulary, fuel, document, schema)
    decreases fuel, 0
  {
    hide ToolParameters, Locate, Evaluate, Rewrite, IsImage;
    var wrapper, image := ToolParameters(document), Rewrite(schema, VALUE_PREFIX, true);
    var n: nat := fuel - 1;
    forall p: Pointer, v
      ensures var l, l' := Locate(document, SchemaAt(true), schema, p), Locate(wrapper, SchemaAt(true), image, p);
              l.Some? == l'.Some? &&
              (l.Some? ==> Evaluate(vocabulary, n, l.value.root, l.value.schema, v) ==
                           Evaluate(vocabulary, n, l'.value.root, l'.value.schema, v))
    {
      PlaceMeansTheSame(vocabulary, n, document, schema, p, v);
    }
    assert Subresults(vocabulary, fuel, wrapper, image) == Subresults(vocabulary, fuel, document, schema);
  }

  lemma {:induction false} PlaceMeansTheSame<R>(vocabulary: Vocabulary<R>, fuel: nat, document: Value, schema: Value,
                                                p: Pointer, v: Value)
    ensures var image := Rewrite(schema, VALUE_PREFIX, true);
            var l, l' := Locate(document, SchemaAt(true), schema, p), Locate(ToolParameters(document), SchemaAt(true), image, p);
            l.Some? == l'.Some? &&
            (l.Some? ==> Evaluate(vocabulary, fuel, l.value.root, l.value.schema, v) ==
                         Evaluate(vocabulary, fuel, l'.value.root, l'.value.schema, v))
    decreases fuel, 3
  {
    hide ToolParameters, Locate, Evaluate, Rewrite, IsImage;
    RewritingIsPlacewise(schema);
    LocateImage(document, SchemaAt(true), schema, p);
    ImageMeansTheSame(vocabulary, fuel, document, Locate(document, SchemaAt(true), schema, p),
                      Locate(ToolParameters(document), SchemaAt(true), Rewrite(schema, VALUE_PREFIX, true), p), v);
  }

  lemma {:induction false} ImageMeansTheSame<R>(vocabulary: Vocabulary<R>, fuel: nat, document: Value,
                                                original: Option<Located>, image: Option<Located>, v: Value)
    requires IsImage(document, original, image)
    ensures original.Some? == image.Some?
    ensures original.Some? ==> Evaluate(vocabulary, fuel, original.value.root, original.value.schema, v) ==
                               Evaluate(vocabulary, fuel, image.value.root, image.value.schema, v)
    decreases fuel, 2
  {
    hide ToolParameters, Evaluate, Rewrite;
    if original.Some? { RewritingKeepsMeaning(vocabulary, fuel, document, original.value.schema, v); }
  }

  lemma RewritingIsPlacewise(schema: Value)
    ensures RewriteAt(SchemaAt(true), schema, VALUE_PREFIX) == Rewrite(schema, VALUE_PREFIX, true)
  {
  }

  lemma {:induction false} ReferenceResultsAreKept<R>(
      vocabulary: Vocabulary<R>, fuel: nat, document: Value, schema: Value)
    requires fuel > 0 && schema.Obj? && !HasId(schema)
    ensures ReferenceResults(vocabulary, fuel, ToolParameters(document), Rewrite(schema, VALUE_PREFIX, true)) ==
            ReferenceResults(vocabulary, fuel, document, schema)
    decreases fuel, 0
  {
    hide ToolParameters, ReferenceTarget, Evaluate, Rewrite, IsImage;
    var wrapper, image := ToolParameters(document), Rewrite(schema, VALUE_PREFIX, true);
    var n: nat := fuel - 1;
    forall k: string, v
      ensures var l, l' := ReferenceTarget(document, schema, k), ReferenceTarget(wrapper, image, k);
              l.Some? == l'.Some? &&
              (l.Some? ==> Evaluate(vocabulary, n, l.value.root, l.value.schema, v) ==
                           Evaluate(vocabulary, n, l'.value.root, l'.value.schema, v))
    {
      ReferenceImage(document, schema, k);
      ImageMeansTheSame(vocabulary, n, document, ReferenceTarget(document, schema, k),
                        ReferenceTarget(wrapper, image, k), v);
    }
    assert ReferenceResults(vocabulary, fuel, wrapper, image) == ReferenceResults(vocabulary, fuel, document, schema);
  }

  /** The wrapper's own text. */
  function WrapperText(): Value {
    Obj(map[
          "type" := Str("object"),
          "properties" := Obj(map["value" := Undefined]),
          "required" := Arr([Str("value")]),
          "additionalProperties" := Undefined])
  }

  /** The vocabulary reads "type", "properties", "required", "additionalProperties" and a false schema as
      JSON Schema means them (on the one text where that matters here). */
  ghost predicate ReadsObjects<R(!new)>(vocabulary: Vocabulary<R>, accepts: R -> bool) {
    && (forall v :: !accepts(vocabulary(Bool(false), imap[], imap[], v)))
    && (forall sub: imap<(Pointer, Value), R>, v ::
          HasObjectResults(sub) ==>
            (accepts(vocabulary(WrapperText(), sub, imap[], v)) <==> AcceptedMembers(sub, accepts, v)))
  }

  ghost predicate HasObjectResults<R>(sub: imap<(Pointer, Value), R>) {
    forall x :: (["properties", "value"], x) in sub && (["additionalProperties"], x) in sub
  }

  ghost predicate AcceptedMembers<R>(sub: imap<(Pointer, Value), R>, accepts: R -> bool, v: Value)
    requires HasObjectResults(sub)
  {
    v.Obj? && "value" in v.fields && accepts(sub[(["properties", "value"], v.fields["value"])]) &&
    forall k | k in v.fields && k != "value" :: accepts(sub[(["additionalProperties"], v.fields[k])])
  }

  /** A vocabulary of that kind: the four keywords, boolean schemas and references. */
  ghost function ObjectKeywords(
      text: Value, sub: imap<(Pointer, Value), bool>, references: imap<(string, Value), bool>, v: Value): bool
  {
    match text
    case Bool(b) => b
    case Obj(fields) =>
      && ("type" in fields && fields["type"] == Str("object") ==> v.Obj?)
      && ("required" in fields && fields["required"].Arr? && v.Obj? ==>
            forall name :: Str(name) in fields["required"].items ==> name in v.fields)
      && (v.Obj? ==> forall k | k in v.fields :: MemberAccepted(fields, sub, k, v.fields[k]))
      && (forall keyword :: (keyword, v) in references ==> references[(keyword, v)])
    case _ => true
  }

  ghost predicate MemberAccepted(
      fields: map<string, Value>, sub: imap<(Pointer, Value), bool>, name: string, x: Value)
  {
    var pointer :=
      if "properties" in fields && fields["properties"].Obj? && name in fields["properties"].fields
      then ["properties", name] else ["additionalProperties"];
    (pointer, x) in sub ==> sub[(pointer, x)]
  }

  lemma ObjectKeywordsReadObjects()
    ensures ReadsObjects(ObjectKeywords, b => b)
  {
    var fields := WrapperText().fields;
    assert fields["properties"].fields.Keys == {"value"} && fields["required"].items == [Str("value")];
    forall sub: imap<(Pointer, Value), bool>, v | HasObjectResults(sub)
      ensures ObjectKeywords(WrapperText(), sub, imap[], v) <==> AcceptedMembers(sub, b => b, v)
    {
      assert forall k, x :: MemberAccepted(fields, sub, k, x) <==>
               if k == "value" then sub[(["properties", "value"], x)] else sub[(["additionalProperties"], x)];
    }
  }

  lemma WrapperKeywords()
    ensures PlaceOf("properties", true) == SchemaMap(true)
    ensures PlaceOf("additionalProperties", true) == SchemaAt(true)
    ensures PlaceOf("type", true) == Plain(true)
    ensures PlaceOf("required", true) == Plain(true)
  {
    assert "properties" == SCHEMA_MAP_KEYWORDS[0];
    assert "additionalProperties" == SCHEMA_SINGLE_KEYWORDS[1];
  }

  lemma WrapperHasNoReference(document: Value, keyword: string)
    ensures var wrapper := ToolParameters(document); ReferenceTarget(wrapper, wrapper, keyword) == None
  {
    hide Rewrite, Locate, PointerOf, IsLocal;
    WrapperKeywords();
  }

  lemma WrapperOwnText(document: Value)
    ensures OwnText(ToolParameters(document)) == WrapperText()
  {
    hide Rewrite, PlaceOf;
    WrapperKeywords();
    var text := OwnText(ToolParameters(document));
    assert text.fields["properties"].fields == map["value" := Undefined];
    assert text.fields == WrapperText().fields;
  }

  lemma WrapperMembers(document: Value)
    ensures var wrapper := ToolParameters(document);
            Locate(wrapper, SchemaAt(true), wrapper, ["properties", "value"]) ==
            Some(Located(wrapper, Rewrite(document, VALUE_PREFIX, true))) &&
            Locate(wrapper, SchemaAt(true), wrapper, ["additionalProperties"]) == Some(Located(wrapper, Bool(false)))
  {
    hide Rewrite, PlaceOf, HasId;
    var wrapper := ToolParameters(document);
    WrapperKeywords();
    WrapperPlaces(document);
    LocateThroughWrapper(document, []);
    assert ["properties", "value"] + [] == ["properties", "value"];
    assert Child(wrapper, "additionalProperties") == Some(Bool(false));
    assert ["additionalProperties"][1..] == [];
  }

  lemma WrapperResults<R>(vocabulary: Vocabulary<R>, fuel: nat, document: Value, x: Value)
    ensures var wrapper := ToolParameters(document);
            var sub := Subresults(vocabulary, fuel + 1, wrapper, wrapper);
            (["properties", "value"], x) in sub && (["additionalProperties"], x) in sub &&
            sub[(["properties", "value"], x)] == Evaluate(vocabulary, fuel, document, document, x) &&
            sub[(["additionalProperties"], x)] == vocabulary(Bool(false), imap[], imap[], x)
  {
    hide ToolParameters, Locate, Rewrite;
    WrapperMembers(document);
    RewritingKeepsMeaning(vocabulary, fuel, document, document, x);
  }

  lemma NoReferenceResults<R>(vocabulary: Vocabulary<R>, fuel: nat, base: Value, schema: Value)
    requires fuel > 0 && forall k :: ReferenceTarget(base, schema, k) == None
    ensures ReferenceResults(vocabulary, fuel, base, schema) == imap[]
  {
    hide ReferenceTarget, Evaluate;
  }

  /** The tool's parameters accept exactly the objects {value: x} with x accepted by the original schema. */
  lemma WrapperAcceptsExactly<R(!new)>(
      vocabulary: Vocabulary<R>, accepts: R -> bool, fuel: nat, document: Value, v: Value)
    requires ReadsObjects(vocabulary, accepts)
    ensures var wrapper := ToolParameters(document);
            accepts(Evaluate(vocabulary, fuel + 1, wrapper, wrapper, v)) <==>
            (v.Obj? && v.fields.Keys == {"value"} &&
             accepts(Evaluate(vocabulary, fuel, document, document, v.fields["value"])))
  {
    hide OwnText, Subresults, ReferenceResults, HasId;
    var wrapper := ToolParameters(document);
    WrapperPlaces(document);
    WrapperOwnText(document);
    var sub := Subresults(vocabulary, fuel + 1, wrapper, wrapper);
    forall x ensures (["properties", "value"], x) in sub && (["additionalProperties"], x) in sub &&
                     !accepts(sub[(["additionalProperties"], x)]) &&
                     sub[(["properties", "value"], x)] == Evaluate(vocabulary, fuel, document, document, x) {
      WrapperResults(vocabulary, fuel, document, x);
    }
    forall k: string ensures ReferenceTarget(wrapper, wrapper, k) == None { WrapperHasNoReference(document, k); }
    NoReferenceResults(vocabulary, fuel + 1, wrapper, wrapper);
    assert AcceptedMembers(sub, accepts, v) <==>
           (v.Obj? && v.fields.Keys == {"value"} &&
            accepts(Evaluate(vocabulary, fuel, document, document, v.fields["value"])));
  }
}
