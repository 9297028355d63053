/** What a silent comparison guarantees about values. Acceptance follows section 4.7.24 (Schema
    Object) of OpenAPI 3.0.3 for type, enum, properties, required, items, minLength, maximum and
    additionalProperties. */
module SchemaSoundness {
  import opened Base
  import opened Json
  import opened SchemaCompat

  predicate TypeAdmits(t: Json, v: Json) {
    match t
    case Null => true
    case Str(name) =>
      || (name == "string" && v.Str?)
      || (name == "number" && v.Num?)
      || (name == "integer" && v.Num? && v.number == v.number.Floor as real)
      || (name == "boolean" && v.Bool?)
      || (name == "array" && v.Arr?)
      || (name == "object" && v.Obj?)
    case _ => false
  }

  predicate KeywordsAdmit(s: Json, v: Json)
    requires s.Obj?
  {
    && TypeAdmits(Lookup(s, "type"), v)
    && ("enum" in s.fields && s.fields["enum"].Arr? ==> v in s.fields["enum"].items)
    && ("minLength" in s.fields && s.fields["minLength"].Num? && v.Str? ==> |v.text| as real >= s.fields["minLength"].number)
    && ("maximum" in s.fields && s.fields["maximum"].Num? && v.Num? ==> v.number <= s.fields["maximum"].number)
  }

  function DeclaredProperties(s: Json): (r: map<string, Json>)
    requires s.Obj?
  {
    if LookupObj(s, "properties").Obj? then LookupObj(s, "properties").fields else map[]
  }

  predicate HasRequired(s: Json, v: Json)
    requires s.Obj? && v.Obj?
  {
    Lookup(s, "required").Arr? && RequiredReads(s) ==> Required(s) <= v.fields.Keys
  }

  predicate IsClosed(s: Json)
    requires s.Obj?
  {
    Lookup(s, "additionalProperties") == Bool(false)
  }

  /** A value conforms to a schema of a document. */
  ghost predicate Accepts(doc: Json, schema: Json, v: Json)
    decreases v
  {
    var s := Resolved(doc, schema);
    && s.Obj?
    && KeywordsAdmit(s, v)
    && (v.Arr? && "items" in s.fields ==>
          forall i :: 0 <= i < |v.items| ==> Accepts(doc, s.fields["items"], v.items[i]))
    && (v.Obj? ==>
          && HasRequired(s, v)
          && forall k :: k in v.fields ==>
               if k in DeclaredProperties(s) then Accepts(doc, DeclaredProperties(s)[k], v.fields[k])
               else !IsClosed(s))
  }

  // ---------------------------------------------------------------------------------------
  // The fragment

  /** A schema in the fragment: no references, and keywords of their own kind. */
  ghost predicate InFragment(s: Json)
    decreases s
  {
    && s.Obj?
    && "$ref" !in s.fields
    && ("type" in s.fields ==> s.fields["type"].Str?)
    && ("enum" in s.fields ==> s.fields["enum"].Arr?)
    && ("minLength" in s.fields ==> s.fields["minLength"].Num?)
    && ("maximum" in s.fields ==> s.fields["maximum"].Num?)
    && ("required" in s.fields ==> s.fields["required"].Arr?)
    && RequiredReads(s)
    && ("items" in s.fields ==> InFragment(s.fields["items"]))
    && ("properties" in s.fields ==>
          && s.fields["properties"].Obj?
          && forall k :: k in s.fields["properties"].fields ==> InFragment(s.fields["properties"].fields[k]))
  }

  /** The keywords `Accepts` gives their meaning. */
  const MODELLED: set<string> :=
    {"type", "enum", "properties", "required", "items", "minLength", "maximum", "additionalProperties"}

  /** Keywords that say nothing about which values a schema accepts, the correction marker included. */
  const ANNOTATIONS: set<string> :=
    {"title", "description", "default", "example", "externalDocs", "deprecated", "x-a3s-contract-correction"}

  /** No node restricts its values by a keyword outside the model, such as maxLength, pattern,
      minimum, nullable, oneOf or a schema for additional properties. */
  ghost predicate OnlyModelled(s: Json)
    requires InFragment(s)
    decreases s
  {
    && s.fields.Keys <= MODELLED + ANNOTATIONS
    && ("additionalProperties" in s.fields ==> s.fields["additionalProperties"].Bool?)
    && ("items" in s.fields ==> OnlyModelled(s.fields["items"]))
    && ("properties" in s.fields ==>
          forall k :: k in s.fields["properties"].fields ==> OnlyModelled(s.fields["properties"].fields[k]))
  }

  /** No node of the schema accepts an object with undeclared properties. */
  ghost predicate ClosedThroughout(s: Json)
    requires InFragment(s)
    decreases s
  {
    && (IsClosed(s) || ("type" in s.fields && s.fields["type"] != Str("object")))
    && ("items" in s.fields ==> ClosedThroughout(s.fields["items"]))
    && ("properties" in s.fields ==>
          forall k :: k in s.fields["properties"].fields ==> ClosedThroughout(s.fields["properties"].fields[k]))
  }

  predicate Kept(b: Json, c: Json, keyword: string)
    requires b.Obj? && c.Obj?
  {
    keyword in c.fields ==> keyword in b.fields
  }

  /** The candidate adds no enum, items, minLength or maximum to a node the baseline left without. */
  ghost predicate NothingAdded(b: Json, c: Json)
    requires InFragment(b) && InFragment(c)
    decreases b
  {
    && Kept(b, c, "enum") && Kept(b, c, "items") && Kept(b, c, "minLength") && Kept(b, c, "maximum")
    && (SharedItems(b, c) ==> NothingAdded(b.fields["items"], c.fields["items"]))
    && ("properties" in b.fields && "properties" in c.fields ==>
          forall k :: k in b.fields["properties"].fields && k in c.fields["properties"].fields ==>
            NothingAdded(b.fields["properties"].fields[k], c.fields["properties"].fields[k]))
  }

  lemma FragmentResolvesToItself(doc: Json, s: Json)
    requires InFragment(s)
    ensures Resolved(doc, s) == s
  {
    assert RefOf(s).None?;
  }

  /** Without references the document does not matter. */
  lemma {:induction false} FragmentIgnoresDocument(bdoc: Json, cdoc: Json, s: Json, v: Json)
    requires InFragment(s) && Accepts(bdoc, s, v)
    ensures Accepts(cdoc, s, v)
    decreases v
  {
    FragmentResolvesToItself(bdoc, s);
    FragmentResolvesToItself(cdoc, s);
    if v.Arr? && "items" in s.fields {
      forall i | 0 <= i < |v.items|
        ensures Accepts(cdoc, s.fields["items"], v.items[i])
      {
        FragmentIgnoresDocument(bdoc, cdoc, s.fields["items"], v.items[i]);
      }
    }
    if v.Obj? {
      forall k | k in v.fields && k in DeclaredProperties(s)
        ensures Accepts(cdoc, DeclaredProperties(s)[k], v.fields[k])
      {
        FragmentIgnoresDocument(bdoc, cdoc, DeclaredProperties(s)[k], v.fields[k]);
      }
    }
  }

  predicate Silent(f: Findings) {
    f == Found({})
  }

  /** A silent comparison of two different fragment nodes is silent on the keywords, on every
      shared property and on the items. */
  lemma SilentParts(
    bdoc: Json, cdoc: Json, b: Json, c: Json, location: string, direction: Direction, depth: nat)
    requires InFragment(b) && InFragment(c) && b != c && depth > 0
    requires direction.Input? ==> !IsUnconstrainedObject(b)
    requires Silent(SchemaFindings(bdoc, cdoc, b, c, location, direction, depth))
    ensures KeywordFindings(b, c, location, direction) == {}
    ensures Silent(PropertiesFindings(bdoc, cdoc, b, c, location, direction, depth))
    ensures Silent(ItemsFindings(bdoc, cdoc, b, c, location, direction, depth))
  {
    FragmentResolvesToItself(bdoc, b);
    FragmentResolvesToItself(cdoc, c);
    var f := ObjectFindings(bdoc, cdoc, b, c, location, direction, depth);
    assert Silent(f);
    assert KeywordFindings(b, c, location, direction) <= f.violations;
  }

  lemma SilentProperty(
    bdoc: Json, cdoc: Json, b: Json, c: Json, name: string, location: string, direction: Direction, depth: nat)
    requires InFragment(b) && InFragment(c) && depth > 0
    requires Silent(PropertiesFindings(bdoc, cdoc, b, c, location, direction, depth))
    requires name in DeclaredProperties(b)
    ensures !RequiredNarrowed(b, c, direction)
    ensures name in DeclaredProperties(c)
    ensures Silent(SchemaFindings(bdoc, cdoc, DeclaredProperties(b)[name], DeclaredProperties(c)[name],
                                  location + "." + name, direction, depth - 1))
  {
    var all := LoopFindings(bdoc, cdoc, b, c, PropertiesOf(b).Keys, location, direction, depth);
    var f := PropertyFindings(bdoc, cdoc, b, c, name, location, direction, depth);
    assert f.Found?;
    assert f.violations <= all by {
      assert forall v :: v in f.violations ==> v in all;
    }
    assert all == {};
    assert f.violations == {};
  }

  lemma SilentKeywords(b: Json, c: Json, location: string, direction: Direction)
    requires b.Obj? && c.Obj? && KeywordFindings(b, c, location, direction) == {}
    ensures Lookup(b, "type") == Lookup(c, "type")
    ensures !EnumLost(b, c)
    ensures direction.Input? ==> !Tightened(b, c, "minLength") && !Tightened(b, c, "maximum")
  {
    var all := KeywordFindings(b, c, location, direction);
    assert Lookup(b, "type") != Lookup(c, "type") ==> Violation(location, TypeChanged) in all;
    assert EnumLost(b, c) ==> Violation(location, EnumRemoved) in all;
    assert direction.Input? && Tightened(b, c, "minLength") ==> Violation(location, Narrowed("minLength")) in all;
    assert direction.Input? && Tightened(b, c, "maximum") ==> Violation(location, Narrowed("maximum")) in all;
  }

  lemma SilentKeywordsAdmit(b: Json, c: Json, location: string, v: Json)
    requires InFragment(b) && InFragment(c) && NothingAdded(b, c)
    requires KeywordFindings(b, c, location, Input) == {}
    requires KeywordsAdmit(b, v)
    ensures KeywordsAdmit(c, v)
  {
    SilentKeywords(b, c, location, Input);
  }

  /** What the baseline requires is what a request has; what the candidate requires, what an answer has. */
  lemma SilentRequired(
    bdoc: Json, cdoc: Json, b: Json, c: Json, location: string, direction: Direction, depth: nat, v: Json)
    requires InFragment(b) && InFragment(c) && depth > 0 && v.Obj?
    requires Silent(PropertiesFindings(bdoc, cdoc, b, c, location, direction, depth))
    ensures direction.Input? && HasRequired(b, v) ==> HasRequired(c, v)
    ensures direction.Output? && HasRequired(c, v) ==> HasRequired(b, v)
  {
    assert !RequiredNarrowed(b, c, direction);
    if direction.Input? {
      EmptyDifference(Required(c), Required(b));
    } else {
      EmptyDifference(Required(b), Required(c));
    }
  }

  lemma EmptyDifference<T>(s: set<T>, t: set<T>)
    requires s - t == {}
    ensures s <= t
  {
    assert forall x :: x in s ==> x in t || x in s - t;
  }

  /** The modelled keywords taken by themselves: a silent input comparison does not narrow them, the
      baseline being closed throughout and the candidate adding none where there was none. */
  lemma {:induction false} SilentInputKeepsModelled(
    bdoc: Json, cdoc: Json, b: Json, c: Json, location: string, depth: nat, v: Json)
    requires InFragment(b) && InFragment(c) && ClosedThroughout(b) && NothingAdded(b, c)
    requires Silent(SchemaFindings(bdoc, cdoc, b, c, location, Input, depth))
    requires Accepts(bdoc, b, v)
    ensures Accepts(cdoc, c, v)
    decreases v, 1
  {
    FragmentResolvesToItself(bdoc, b);
    FragmentResolvesToItself(cdoc, c);
    if b == c {
      FragmentIgnoresDocument(bdoc, cdoc, b, v);
      return;
    }
    SilentParts(bdoc, cdoc, b, c, location, Input, depth);
    SilentKeywordsAdmit(b, c, location, v);
    if v.Arr? && "items" in c.fields {
      forall i | 0 <= i < |v.items|
        ensures Accepts(cdoc, c.fields["items"], v.items[i])
      {
        SilentInputKeepsModelled(bdoc, cdoc, b.fields["items"], c.fields["items"], location + "[]", depth - 1, v.items[i]);
      }
    }
    if v.Obj? {
      SilentRequired(bdoc, cdoc, b, c, location, Input, depth, v);
      assert HasRequired(c, v);
      forall k | k in v.fields
        ensures k in DeclaredProperties(c) && Accepts(cdoc, DeclaredProperties(c)[k], v.fields[k])
      {
        assert k in DeclaredProperties(b);
        SilentPropertyKept(bdoc, cdoc, b, c, location, depth, v, k);
      }
    }
  }

  lemma {:induction false} SilentPropertyKept(
    bdoc: Json, cdoc: Json, b: Json, c: Json, location: string, depth: nat, v: Json, k: string)
    requires InFragment(b) && InFragment(c) && ClosedThroughout(b) && NothingAdded(b, c)
    requires depth > 0 && Silent(PropertiesFindings(bdoc, cdoc, b, c, location, Input, depth))
    requires v.Obj? && k in v.fields && k in DeclaredProperties(b) && Accepts(bdoc, DeclaredProperties(b)[k], v.fields[k])
    ensures k in DeclaredProperties(c) && Accepts(cdoc, DeclaredProperties(c)[k], v.fields[k])
    decreases v, 0
  {
    SilentProperty(bdoc, cdoc, b, c, k, location, Input, depth);
    SilentInputKeepsModelled(bdoc, cdoc, DeclaredProperties(b)[k], DeclaredProperties(c)[k],
                             location + "." + k, depth - 1, v.fields[k]);
  }

  /** Soundness: where the modelled keywords are all there is, that is acceptance in full. A silent
      input comparison of two such schemas, the baseline closed throughout and the candidate adding
      no restriction where there was none, means that every value the baseline accepts is still
      accepted. */
  lemma SilentInputIsSound(
    bdoc: Json, cdoc: Json, b: Json, c: Json, location: string, depth: nat, v: Json)
    requires InFragment(b) && InFragment(c) && OnlyModelled(b) && OnlyModelled(c)
    requires ClosedThroughout(b) && NothingAdded(b, c)
    requires Silent(SchemaFindings(bdoc, cdoc, b, c, location, Input, depth))
    requires Accepts(bdoc, b, v)
    ensures Accepts(cdoc, c, v)
  {
    SilentInputKeepsModelled(bdoc, cdoc, b, c, location, depth, v);
  }

  // ---------------------------------------------------------------------------------------
  // The comparison finishes

  ghost predicate FinishesFrom(bdoc: Json, cdoc: Json, b: Json, c: Json, direction: Direction, n: nat) {
    forall location, depth: nat :: depth >= n ==>
      SchemaFindings(bdoc, cdoc, b, c, location, direction, depth).Found?
  }

  /** Schemas of the fragment are always compared to the end: from some nesting depth on, which
      depends on the schemas alone, no comparison of them is cut short. */
  lemma {:induction false} FragmentFinishes(bdoc: Json, cdoc: Json, b: Json, c: Json, direction: Direction)
    returns (n: nat)
    requires InFragment(b) && InFragment(c)
    ensures n > 0 && FinishesFrom(bdoc, cdoc, b, c, direction, n)
    decreases b, 1, 0
  {
    FragmentResolvesToItself(bdoc, b);
    FragmentResolvesToItself(cdoc, c);
    var items: nat := 0;
    if SharedItems(b, c) {
      items := FragmentFinishes(bdoc, cdoc, b.fields["items"], c.fields["items"], direction);
    }
    var properties := PropertiesFinish(
      bdoc, cdoc, b, c, DeclaredProperties(b).Keys * DeclaredProperties(c).Keys, direction);
    n := 1 + items + properties;
    forall location: string, depth: nat | depth >= n
      ensures SchemaFindings(bdoc, cdoc, b, c, location, direction, depth).Found?
    {
      NodeFinishes(bdoc, cdoc, b, c, location, direction, depth);
    }
  }

  lemma NodeFinishes(
    bdoc: Json, cdoc: Json, b: Json, c: Json, location: string, direction: Direction, depth: nat)
    requires b.Obj? && c.Obj? && RefOf(b).None? && RefOf(c).None? && depth > 0
    requires BothProperties(b, c) && RequiredReads(b) && RequiredReads(c)
    requires SharedItems(b, c) ==>
               FinishesFrom(bdoc, cdoc, b.fields["items"], c.fields["items"], direction, depth - 1)
    requires forall name :: name in PropertiesOf(b).Keys * PropertiesOf(c).Keys ==>
               FinishesFrom(bdoc, cdoc, PropertiesOf(b)[name], PropertiesOf(c)[name], direction, depth - 1)
    ensures SchemaFindings(bdoc, cdoc, b, c, location, direction, depth).Found?
  {
    assert Resolved(bdoc, b) == b && Resolved(cdoc, c) == c;
    PropertiesNodeFinishes(bdoc, cdoc, b, c, location, direction, depth);
    assert ItemsFindings(bdoc, cdoc, b, c, location, direction, depth).Found?;
  }

  lemma PropertiesNodeFinishes(
    bdoc: Json, cdoc: Json, b: Json, c: Json, location: string, direction: Direction, depth: nat)
    requires b.Obj? && c.Obj? && BothProperties(b, c) && RequiredReads(b) && RequiredReads(c) && depth > 0
    requires forall name :: name in PropertiesOf(b).Keys * PropertiesOf(c).Keys ==>
               FinishesFrom(bdoc, cdoc, PropertiesOf(b)[name], PropertiesOf(c)[name], direction, depth - 1)
    ensures PropertiesFindings(bdoc, cdoc, b, c, location, direction, depth).Found?
  {
    forall name | name in PropertiesOf(b)
      ensures PropertyFindings(bdoc, cdoc, b, c, name, location, direction, depth).Found?
    {
      if name in PropertiesOf(c) {
        assert name in PropertiesOf(b).Keys * PropertiesOf(c).Keys;
      }
    }
  }

  lemma {:induction false} PropertiesFinish(
    bdoc: Json, cdoc: Json, b: Json, c: Json, names: set<string>, direction: Direction)
    returns (n: nat)
    requires InFragment(b) && InFragment(c)
    requires names <= DeclaredProperties(b).Keys * DeclaredProperties(c).Keys
    ensures forall name :: name in names ==>
              FinishesFrom(bdoc, cdoc, DeclaredProperties(b)[name], DeclaredProperties(c)[name], direction, n)
    decreases b, 0, |names|
  {
    n := 0;
    if names != {} {
      var name :| name in names;
      var first := FragmentFinishes(bdoc, cdoc, DeclaredProperties(b)[name], DeclaredProperties(c)[name], direction);
      var rest := PropertiesFinish(bdoc, cdoc, b, c, names - {name}, direction);
      n := first + rest;
    }
  }

  // ---------------------------------------------------------------------------------------
  // Responses

  /** What a client reading a response relies on: types, present properties and their shapes. */
  ghost predicate FitsShape(doc: Json, schema: Json, v: Json)
    decreases v
  {
    var s := Resolved(doc, schema);
    && s.Obj?
    && TypeAdmits(Lookup(s, "type"), v)
    && (v.Arr? && "items" in s.fields ==>
          forall i :: 0 <= i < |v.items| ==> FitsShape(doc, s.fields["items"], v.items[i]))
    && (v.Obj? ==>
          && HasRequired(s, v)
          && forall k :: k in v.fields && k in DeclaredProperties(s) ==>
               FitsShape(doc, DeclaredProperties(s)[k], v.fields[k]))
  }

  lemma {:induction false} ShapeIgnoresDocument(bdoc: Json, cdoc: Json, s: Json, v: Json)
    requires InFragment(s) && FitsShape(cdoc, s, v)
    ensures FitsShape(bdoc, s, v)
    decreases v
  {
    FragmentResolvesToItself(bdoc, s);
    FragmentResolvesToItself(cdoc, s);
    if v.Arr? && "items" in s.fields {
      forall i | 0 <= i < |v.items|
        ensures FitsShape(bdoc, s.fields["items"], v.items[i])
      {
        ShapeIgnoresDocument(bdoc, cdoc, s.fields["items"], v.items[i]);
      }
    }
    if v.Obj? {
      forall k | k in v.fields && k in DeclaredProperties(s)
        ensures FitsShape(bdoc, DeclaredProperties(s)[k], v.fields[k])
      {
        ShapeIgnoresDocument(bdoc, cdoc, DeclaredProperties(s)[k], v.fields[k]);
      }
    }
  }

  lemma SilentItems(
    bdoc: Json, cdoc: Json, b: Json, c: Json, location: string, direction: Direction, depth: nat)
    requires b.Obj? && c.Obj? && depth > 0
    requires Silent(ItemsFindings(bdoc, cdoc, b, c, location, direction, depth)) && "items" in b.fields
    ensures "items" in c.fields
    ensures Silent(SchemaFindings(bdoc, cdoc, b.fields["items"], c.fields["items"], location + "[]", direction, depth - 1))
  {
  }

  /** The response direction is the mirror image: a silent output comparison means that everything
      the candidate may answer still has the shape the baseline promised. */
  lemma {:induction false} SilentOutputKeepsShape(
    bdoc: Json, cdoc: Json, b: Json, c: Json, location: string, depth: nat, v: Json)
    requires InFragment(b) && InFragment(c)
    requires Silent(SchemaFindings(bdoc, cdoc, b, c, location, Output, depth))
    requires FitsShape(cdoc, c, v)
    ensures FitsShape(bdoc, b, v)
    decreases v
  {
    FragmentResolvesToItself(bdoc, b);
    FragmentResolvesToItself(cdoc, c);
    if b == c {
      ShapeIgnoresDocument(bdoc, cdoc, b, v);
      return;
    }
    SilentParts(bdoc, cdoc, b, c, location, Output, depth);
    SilentKeywords(b, c, location, Output);
    if v.Arr? && "items" in b.fields {
      SilentItems(bdoc, cdoc, b, c, location, Output, depth);
      forall i | 0 <= i < |v.items|
        ensures FitsShape(bdoc, b.fields["items"], v.items[i])
      {
        SilentOutputKeepsShape(bdoc, cdoc, b.fields["items"], c.fields["items"], location + "[]", depth - 1, v.items[i]);
      }
    }
    if v.Obj? {
      SilentRequired(bdoc, cdoc, b, c, location, Output, depth, v);
      assert HasRequired(b, v);
      forall k | k in v.fields && k in DeclaredProperties(b)
        ensures FitsShape(bdoc, DeclaredProperties(b)[k], v.fields[k])
      {
        SilentProperty(bdoc, cdoc, b, c, k, location, Output, depth);
        SilentOutputKeepsShape(bdoc, cdoc, DeclaredProperties(b)[k], DeclaredProperties(c)[k],
                               location + "." + k, depth - 1, v.fields[k]);
      }
    }
  }

  // ---------------------------------------------------------------------------------------
  // What the comparison does not see

  /** A schema without a reference of its own is compared with itself in silence, whatever the two
      documents say about the references nested inside it. */
  lemma SameTextIsSilent(bdoc: Json, cdoc: Json, s: Json, location: string, direction: Direction, depth: nat)
    requires RefOf(s).None? && depth > 0
    ensures Silent(SchemaFindings(bdoc, cdoc, s, s, location, direction, depth))
  {
    assert Resolved(bdoc, s) == s && Resolved(cdoc, s) == s;
  }

  predicate Unguarded(keyword: string) {
    keyword == "enum" || keyword == "items" || keyword == "minLength" || keyword == "maximum"
  }

  function With(s: Json, keyword: string, value: Json): (r: Json)
    requires s.Obj?
  {
    Obj(s.fields[keyword := value])
  }

  lemma AddedKeywordFindsNothing(b: Json, keyword: string, value: Json, location: string, direction: Direction)
    requires b.Obj? && Unguarded(keyword) && keyword !in b.fields
    ensures KeywordFindings(b, With(b, keyword, value), location, direction) == {}
  {
  }

  lemma KeptPropertiesAreSilent(
    doc: Json, b: Json, c: Json, location: string, direction: Direction, depth: nat)
    requires b.Obj? && c.Obj? && depth > 1
    requires forall name :: name in DeclaredProperties(b) ==>
               name in DeclaredProperties(c) && DeclaredProperties(b)[name] == DeclaredProperties(c)[name]
    requires Lookup(b, "required") == Lookup(c, "required") && RequiredReads(b) && RequiredReads(c)
    requires "required" in b.fields <==> "required" in c.fields
    ensures Silent(PropertiesFindings(doc, doc, b, c, location, direction, depth))
  {
    if BothProperties(b, c) {
      forall name | name in PropertiesOf(b)
        ensures PropertyFindings(doc, doc, b, c, name, location, direction, depth) == Found({})
      {
        assert name in DeclaredProperties(b);
      }
      assert LoopFindings(doc, doc, b, c, PropertiesOf(b).Keys, location, direction, depth) == {};
      assert Required(b) == Required(c);
    }
  }

  /** The comparison is blind to new restrictions: an enum, items, minLength or maximum added to any
      node that had none is never reported, whatever its value. */
  lemma AddedKeywordIsSilent(
    doc: Json, b: Json, keyword: string, value: Json, location: string, direction: Direction, depth: nat)
    requires b.Obj? && RefOf(b).None? && RequiredReads(b) && depth > 1
    requires Unguarded(keyword) && keyword !in b.fields
    ensures Silent(SchemaFindings(doc, doc, b, With(b, keyword, value), location, direction, depth))
  {
    var c := With(b, keyword, value);
    assert RefOf(c).None?;
    assert Resolved(doc, b) == b && Resolved(doc, c) == c;
    AddedKeywordFindsNothing(b, keyword, value, location, direction);
    KeptPropertiesAreSilent(doc, b, c, location, direction, depth);
    assert Silent(ItemsFindings(doc, doc, b, c, location, direction, depth));
    assert Silent(ObjectFindings(doc, doc, b, c, location, direction, depth));
  }

  /** The keywords the comparison looks at. */
  const COMPARED: set<string> :=
    {"$ref", "x-a3s-contract-correction", "type", "enum", "properties", "required", "items", "minLength", "maximum"}

  /** Nor does it look at any other keyword: a node that changes nothing else, say by a new maxLength
      or pattern, is compared in silence. This is why soundness speaks of modelled keywords. */
  lemma UncomparedKeywordIsSilent(
    doc: Json, b: Json, keyword: string, value: Json, location: string, direction: Direction, depth: nat)
    requires b.Obj? && RefOf(b).None? && RequiredReads(b) && depth > 1
    requires keyword !in COMPARED
    ensures Silent(SchemaFindings(doc, doc, b, With(b, keyword, value), location, direction, depth))
  {
    var c := With(b, keyword, value);
    assert forall k :: k in COMPARED ==> Lookup(c, k) == Lookup(b, k) && (k in c.fields <==> k in b.fields);
    assert RefOf(c).None?;
    assert Resolved(doc, b) == b && Resolved(doc, c) == c;
    assert KeywordFindings(b, c, location, direction) == {};
    KeptPropertiesAreSilent(doc, b, c, location, direction, depth);
    assert Silent(ItemsFindings(doc, doc, b, c, location, direction, depth));
    assert Silent(ObjectFindings(doc, doc, b, c, location, direction, depth));
  }

  /** A value fails one keyword's own test. */
  ghost predicate FailsKeyword(doc: Json, keyword: string, value: Json, v: Json) {
    if keyword == "enum" then value.Arr? && v !in value.items
    else if keyword == "minLength" then value.Num? && v.Str? && |v.text| as real < value.number
    else if keyword == "maximum" then value.Num? && v.Num? && v.number > value.number
    else if keyword == "items" then v.Arr? && exists i :: 0 <= i < |v.items| && !Accepts(doc, value, v.items[i])
    else false
  }

  lemma AddedKeywordOnKeywords(b: Json, keyword: string, value: Json, v: Json)
    requires b.Obj? && Unguarded(keyword) && keyword !in b.fields && KeywordsAdmit(b, v)
    ensures KeywordsAdmit(With(b, keyword, value), v) <==>
            match value
            case Arr(items) => keyword == "enum" ==> v in items
            case Num(n) =>
              && (keyword == "minLength" && v.Str? ==> |v.text| as real >= n)
              && (keyword == "maximum" && v.Num? ==> v.number <= n)
            case _ => true
  {
  }

  lemma WithKeepsTheRest(doc: Json, b: Json, keyword: string, value: Json)
    requires b.Obj? && RefOf(b).None? && Unguarded(keyword)
    ensures
      var c := With(b, keyword, value);
      && Resolved(doc, b) == b && Resolved(doc, c) == c
      && DeclaredProperties(c) == DeclaredProperties(b) && IsClosed(c) == IsClosed(b)
      && forall v: Json :: v.Obj? ==> HasRequired(c, v) == HasRequired(b, v)
  {
    assert RefOf(With(b, keyword, value)).None?;
  }

  lemma AddedLimitRefuses(doc: Json, b: Json, keyword: string, value: Json, v: Json)
    requires b.Obj? && RefOf(b).None? && Unguarded(keyword) && keyword !in b.fields && keyword != "items"
    requires Accepts(doc, b, v)
    ensures !Accepts(doc, With(b, keyword, value), v) <==> FailsKeyword(doc, keyword, value, v)
  {
    WithKeepsTheRest(doc, b, keyword, value);
    AddedKeywordOnKeywords(b, keyword, value, v);
  }

  lemma AddedItemsRefuse(doc: Json, b: Json, value: Json, v: Json)
    requires b.Obj? && RefOf(b).None? && "items" !in b.fields
    requires Accepts(doc, b, v)
    ensures !Accepts(doc, With(b, "items", value), v) <==> FailsKeyword(doc, "items", value, v)
  {
    WithKeepsTheRest(doc, b, "items", value);
    AddedKeywordOnKeywords(b, "items", value, v);
  }

  /** So soundness needs its conditions. Added to any node, such a keyword is silent in either
      direction, and it refuses exactly the accepted values that fail its own test. */
  lemma AddedKeywordNarrowsIff(doc: Json, b: Json, keyword: string, value: Json, v: Json)
    requires b.Obj? && RefOf(b).None? && Unguarded(keyword) && keyword !in b.fields
    requires Accepts(doc, b, v)
    ensures RequiredReads(b) ==>
              forall location, direction, depth: nat :: depth > 1 ==>
                Silent(SchemaFindings(doc, doc, b, With(b, keyword, value), location, direction, depth))
    ensures !Accepts(doc, With(b, keyword, value), v) <==> FailsKeyword(doc, keyword, value, v)
  {
    if keyword == "items" {
      AddedItemsRefuse(doc, b, value, v);
    } else {
      AddedLimitRefuses(doc, b, keyword, value, v);
    }
    if RequiredReads(b) {
      forall location: string, direction, depth: nat | depth > 1
        ensures Silent(SchemaFindings(doc, doc, b, With(b, keyword, value), location, direction, depth))
      {
        AddedKeywordIsSilent(doc, b, keyword, value, location, direction, depth);
      }
    }
  }

  function WithProperty(b: Json, name: string, schema: Json): (c: Json)
    requires b.Obj? && LookupObj(b, "properties").Obj?
  {
    With(b, "properties", Obj(DeclaredProperties(b)[name := schema]))
  }

  lemma AddedPropertyIsSilent(doc: Json, b: Json, name: string, schema: Json, location: string, depth: nat)
    requires b.Obj? && RefOf(b).None? && RequiredReads(b) && LookupObj(b, "properties").Obj? && depth > 1
    requires name !in DeclaredProperties(b)
    ensures Silent(SchemaFindings(doc, doc, b, WithProperty(b, name, schema), location, Input, depth))
  {
    var c := WithProperty(b, name, schema);
    assert RefOf(c).None?;
    assert Resolved(doc, b) == b && Resolved(doc, c) == c;
    assert KeywordFindings(b, c, location, Input) == {};
    KeptPropertiesAreSilent(doc, b, c, location, Input, depth);
    assert Silent(ItemsFindings(doc, doc, b, c, location, Input, depth));
    assert Silent(ObjectFindings(doc, doc, b, c, location, Input, depth));
  }

  /** The baseline has to be closed for the same reason. A property added to any node that leaves
      its objects open is silent, and it refuses exactly the accepted objects that already used
      that name for something else. */
  lemma AddedPropertyNarrowsIff(doc: Json, b: Json, name: string, schema: Json, v: Json)
    requires b.Obj? && RefOf(b).None? && RequiredReads(b) && LookupObj(b, "properties").Obj?
    requires name !in DeclaredProperties(b) && !IsClosed(b) && Accepts(doc, b, v)
    ensures
      var c := WithProperty(b, name, schema);
      && (forall location, depth: nat :: depth > 1 ==>
            Silent(SchemaFindings(doc, doc, b, c, location, Input, depth)))
      && (!Accepts(doc, c, v) <==> v.Obj? && name in v.fields && !Accepts(doc, schema, v.fields[name]))
  {
    var c := WithProperty(b, name, schema);
    forall location: string, depth: nat | depth > 1
      ensures Silent(SchemaFindings(doc, doc, b, c, location, Input, depth))
    {
      AddedPropertyIsSilent(doc, b, name, schema, location, depth);
    }
    assert RefOf(c).None?;
    assert Resolved(doc, b) == b && Resolved(doc, c) == c;
    assert KeywordsAdmit(c, v);
    assert DeclaredProperties(c) == DeclaredProperties(b)[name := schema];
  }

  lemma SameResolutionSameValues(doc: Json, s: Json, t: Json, v: Json)
    requires Resolved(doc, s) == Resolved(doc, t)
    ensures Accepts(doc, s, v) == Accepts(doc, t, v)
  {
  }

  lemma ListAccepts(doc: Json, list: Json, v: Json)
    requires list.Obj? && RefOf(list).None? && list.fields.Keys == {"items"}
    ensures Accepts(doc, list, Arr([v])) <==> Accepts(doc, list.fields["items"], v)
  {
    assert Resolved(doc, list) == list;
    assert Arr([v]).items == [v] && [v][0] == v;
    assert KeywordsAdmit(list, Arr([v]));
  }

  lemma ResolvedSchemaSameValues(doc: Json, s: Json, t: Json, v: Json)
    requires RefOf(t).None? && Resolved(doc, s) == t
    ensures Accepts(doc, s, v) == Accepts(doc, t, v)
  {
    assert Resolved(doc, t) == t;
    SameResolutionSameValues(doc, s, t, v);
  }

  function ListOf(item: Json): (r: Json) {
    Obj(map["items" := item])
  }

  lemma ListOfTarget(doc: Json, path: seq<string>, v: Json)
    requires path != [] && Descend(doc, path).Some? && RefOf(Descend(doc, path).value).None?
    ensures Accepts(doc, ListOf(RefTo(path)), Arr([v])) <==> Accepts(doc, Descend(doc, path).value, v)
  {
    RefResolvesToTarget(doc, path);
    ResolvedSchemaSameValues(doc, RefTo(path), Descend(doc, path).value, v);
    ListAccepts(doc, ListOf(RefTo(path)), v);
  }

  /** And it needs to be free of references: a list of referenced schemas, written the same in both
      documents, is compared in silence, yet it narrows exactly as what it refers to does. */
  lemma NestedRefNarrowsIff(
    bdoc: Json, cdoc: Json, path: seq<string>, v: Json, location: string, direction: Direction, depth: nat)
    requires path != [] && depth > 0
    requires Descend(bdoc, path).Some? && RefOf(Descend(bdoc, path).value).None?
    requires Descend(cdoc, path).Some? && RefOf(Descend(cdoc, path).value).None?
    ensures
      var list := ListOf(RefTo(path));
      && Silent(SchemaFindings(bdoc, cdoc, list, list, location, direction, depth))
      && (Accepts(bdoc, list, Arr([v])) && !Accepts(cdoc, list, Arr([v])) <==>
          Accepts(bdoc, Descend(bdoc, path).value, v) && !Accepts(cdoc, Descend(cdoc, path).value, v))
  {
    SameTextIsSilent(bdoc, cdoc, ListOf(RefTo(path)), location, direction, depth);
    ListOfTarget(bdoc, path, v);
    ListOfTarget(cdoc, path, v);
  }
}
