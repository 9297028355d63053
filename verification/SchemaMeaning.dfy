/** What the schema comparison reports, said about the two schemas and not about the comparison. */
module SchemaMeaning {
  import opened Base
  import opened Json
  import opened SchemaCompat
  import opened SchemaSoundness

  // ---------------------------------------------------------------------------------------
  // Compatible schemas

  /** A schema that admits any object at all. */
  predicate Unconstrained(b: Json)
    requires b.Obj?
  {
    && "type" in b.fields && b.fields["type"] == Str("object")
    && "additionalProperties" in b.fields && b.fields["additionalProperties"] == Bool(true)
    && {"properties", "oneOf", "allOf", "$ref"} !! b.fields.Keys
  }

  /** The one exemption: a request schema that admitted any object at all, in a candidate that is
      marked as writing down what the service checks already. */
  predicate Exempt(b: Json, c: Json)
    requires b.Obj? && c.Obj?
  {
    && Unconstrained(b)
    && "x-a3s-contract-correction" in c.fields
    && c.fields["x-a3s-contract-correction"] == Str("documents-existing-runtime-validation")
  }

  /** The type stays, no listed value goes, and a request is not held to a longer minimum or a lower
      maximum. */
  predicate KeywordsKept(b: Json, c: Json, direction: Direction)
    requires b.Obj? && c.Obj?
  {
    && Lookup(b, "type") == Lookup(c, "type")
    && (Lookup(b, "enum").Arr? && Lookup(c, "enum").Arr? ==>
          forall v :: v in Lookup(b, "enum").items ==> v in Lookup(c, "enum").items)
    && (direction.Input? && Lookup(b, "minLength").Num? && Lookup(c, "minLength").Num? ==>
          Lookup(c, "minLength").number <= Lookup(b, "minLength").number)
    && (direction.Input? && Lookup(b, "maximum").Num? && Lookup(c, "maximum").Num? ==>
          Lookup(b, "maximum").number <= Lookup(c, "maximum").number)
  }

  /** A request is asked for no more properties, an answer promises no fewer. */
  predicate RequiredKept(b: Json, c: Json, direction: Direction)
    requires b.Obj? && c.Obj? && RequiredReads(b) && RequiredReads(c)
  {
    match direction
    case Input => forall name :: name in Required(c) ==> name in Required(b)
    case Output => forall name :: name in Required(b) ==> name in Required(c)
  }

  /** Compatible: equal, exempt, or keeping keywords, required properties, every property and the
      items, each of them compatible in turn. */
  ghost predicate Compatible(b: Json, c: Json, direction: Direction)
    requires InFragment(b) && InFragment(c)
    decreases b, 1
  {
    || b == c
    || (direction.Input? && Exempt(b, c))
    || (&& KeywordsKept(b, c, direction)
        && RequiredKept(b, c, direction)
        && PropertiesCompatible(b, c, direction)
        && ItemsCompatible(b, c, direction))
  }

  ghost predicate PropertiesCompatible(b: Json, c: Json, direction: Direction)
    requires InFragment(b) && InFragment(c)
    decreases b, 0
  {
    "properties" in b.fields ==>
      forall name :: name in b.fields["properties"].fields ==>
        name in DeclaredProperties(c) &&
        Compatible(b.fields["properties"].fields[name], DeclaredProperties(c)[name], direction)
  }

  ghost predicate ItemsCompatible(b: Json, c: Json, direction: Direction)
    requires InFragment(b) && InFragment(c)
    decreases b, 0
  {
    "items" in b.fields ==>
      "items" in c.fields && Compatible(b.fields["items"], c.fields["items"], direction)
  }

  lemma ExemptIff(b: Json, c: Json)
    requires b.Obj? && c.Obj?
    ensures IsCorrected(b, c) <==> Exempt(b, c)
  {
    var banned := {"properties", "oneOf", "allOf", "$ref"};
    assert banned !! b.fields.Keys <==> forall k :: k in banned ==> k !in b.fields;
    assert "properties" in banned && "oneOf" in banned && "allOf" in banned && "$ref" in banned;
  }

  lemma KeywordsSilentIff(b: Json, c: Json, location: string, direction: Direction)
    requires b.Obj? && c.Obj?
    ensures KeywordFindings(b, c, location, direction) == {} <==> KeywordsKept(b, c, direction)
  {
    if KeywordFindings(b, c, location, direction) == {} {
      SilentKeywords(b, c, location, direction);
      if Lookup(b, "enum").Arr? && Lookup(c, "enum").Arr? {
        var items := Lookup(b, "enum").items;
        forall v | v in items
          ensures v in Lookup(c, "enum").items
        {
          var i :| 0 <= i < |items| && items[i] == v;
        }
      }
    }
  }

  /** How the names of `required` are read, whatever it is written as. */
  lemma RequiredNames(r: Json, name: string)
    requires ReadsAsSet(r)
    ensures name in AsSet(r) <==>
            || (r.Arr? && Str(name) in r.items)
            || (r.Obj? && name in r.fields)
            || (r.Str? && exists c :: c in r.text && name == [c])
  {
    match r
    case Arr(items) =>
      if name in AsSet(r) {
        var i :| 0 <= i < |items| && items[i].text == name;
        assert items[i] == Str(name);
      }
    case Obj(_) =>
    case Str(text) =>
      if name in AsSet(r) {
        var i :| 0 <= i < |text| && [text[i]] == name;
        assert text[i] in text;
      }
      forall c | c in text && name == [c]
        ensures name in AsSet(r)
      {
        var i :| 0 <= i < |text| && text[i] == c;
        assert [text[i]] == name;
      }
  }

  lemma RequiredSilentIff(b: Json, c: Json, direction: Direction)
    requires b.Obj? && c.Obj? && RequiredReads(b) && RequiredReads(c)
    ensures !RequiredNarrowed(b, c, direction) <==> RequiredKept(b, c, direction)
  {
    if !RequiredNarrowed(b, c, direction) {
      if direction.Input? {
        EmptyDifference(Required(c), Required(b));
      } else {
        EmptyDifference(Required(b), Required(c));
      }
    }
  }

  ghost predicate PropertySilent(
    bdoc: Json, cdoc: Json, b: Json, c: Json, name: string, location: string, direction: Direction, depth: nat)
    requires b.Obj? && c.Obj? && name in DeclaredProperties(b) && depth > 0
  {
    && name in DeclaredProperties(c)
    && Silent(SchemaFindings(bdoc, cdoc, DeclaredProperties(b)[name], DeclaredProperties(c)[name],
                             location + "." + name, direction, depth - 1))
  }

  lemma PropertyTurn(
    bdoc: Json, cdoc: Json, b: Json, c: Json, name: string, location: string, direction: Direction, depth: nat)
    requires b.Obj? && c.Obj? && BothProperties(b, c) && depth > 0 && name in PropertiesOf(b)
    ensures Silent(PropertyFindings(bdoc, cdoc, b, c, name, location, direction, depth)) <==>
            PropertySilent(bdoc, cdoc, b, c, name, location, direction, depth)
  {
    assert name !in PropertiesOf(c) ==>
        Violation(location, PropertyRemoved(name)) in
          PropertyFindings(bdoc, cdoc, b, c, name, location, direction, depth).violations;
  }

  lemma TurnWithinLoop(
    bdoc: Json, cdoc: Json, b: Json, c: Json, name: string, location: string, direction: Direction, depth: nat)
    requires b.Obj? && c.Obj? && BothProperties(b, c) && depth > 0 && name in PropertiesOf(b).Keys
    requires NoneRaise(bdoc, cdoc, b, c, PropertiesOf(b).Keys, location, direction, depth)
    ensures PropertyFindings(bdoc, cdoc, b, c, name, location, direction, depth).Found?
    ensures PropertyFindings(bdoc, cdoc, b, c, name, location, direction, depth).violations <=
            LoopFindings(bdoc, cdoc, b, c, PropertiesOf(b).Keys, location, direction, depth)
  {
  }

  lemma LoopEmptyIff(
    bdoc: Json, cdoc: Json, b: Json, c: Json, location: string, direction: Direction, depth: nat)
    requires b.Obj? && c.Obj? && BothProperties(b, c) && depth > 0
    requires NoneRaise(bdoc, cdoc, b, c, PropertiesOf(b).Keys, location, direction, depth)
    ensures LoopFindings(bdoc, cdoc, b, c, PropertiesOf(b).Keys, location, direction, depth) == {} <==>
            forall name :: name in PropertiesOf(b).Keys ==>
              Silent(PropertyFindings(bdoc, cdoc, b, c, name, location, direction, depth))
  {
    var all := LoopFindings(bdoc, cdoc, b, c, PropertiesOf(b).Keys, location, direction, depth);
    if all == {} {
      forall name | name in PropertiesOf(b).Keys
        ensures Silent(PropertyFindings(bdoc, cdoc, b, c, name, location, direction, depth))
      {
        TurnWithinLoop(bdoc, cdoc, b, c, name, location, direction, depth);
      }
    }
  }

  lemma LoopSilentIff(
    bdoc: Json, cdoc: Json, b: Json, c: Json, location: string, direction: Direction, depth: nat)
    requires b.Obj? && c.Obj? && BothProperties(b, c) && depth > 0
    requires NoneRaise(bdoc, cdoc, b, c, PropertiesOf(b).Keys, location, direction, depth)
    ensures LoopFindings(bdoc, cdoc, b, c, PropertiesOf(b).Keys, location, direction, depth) == {} <==>
            forall name :: name in DeclaredProperties(b) ==>
              PropertySilent(bdoc, cdoc, b, c, name, location, direction, depth)
  {
    LoopEmptyIff(bdoc, cdoc, b, c, location, direction, depth);
    forall name | name in DeclaredProperties(b)
      ensures PropertySilent(bdoc, cdoc, b, c, name, location, direction, depth) <==>
              Silent(PropertyFindings(bdoc, cdoc, b, c, name, location, direction, depth))
    {
      PropertyTurn(bdoc, cdoc, b, c, name, location, direction, depth);
    }
  }

  lemma PropertiesSilentIff(
    bdoc: Json, cdoc: Json, b: Json, c: Json, location: string, direction: Direction, depth: nat)
    requires b.Obj? && c.Obj? && BothProperties(b, c) && RequiredReads(b) && RequiredReads(c) && depth > 0
    requires PropertiesFindings(bdoc, cdoc, b, c, location, direction, depth).Found?
    ensures Silent(PropertiesFindings(bdoc, cdoc, b, c, location, direction, depth)) <==>
            && RequiredKept(b, c, direction)
            && forall name :: name in DeclaredProperties(b) ==>
                 PropertySilent(bdoc, cdoc, b, c, name, location, direction, depth)
  {
    LoopSilentIff(bdoc, cdoc, b, c, location, direction, depth);
    RequiredSilentIff(b, c, direction);
    var loop := LoopFindings(bdoc, cdoc, b, c, PropertiesOf(b).Keys, location, direction, depth);
    var change := if direction.Input? then RequiredAdded else RequiredDropped;
    assert RequiredNarrowed(b, c, direction) ==>
        Violation(location, change) in PropertiesFindings(bdoc, cdoc, b, c, location, direction, depth).violations;
    assert loop <= PropertiesFindings(bdoc, cdoc, b, c, location, direction, depth).violations;
  }

  ghost predicate ItemsSilent(
    bdoc: Json, cdoc: Json, b: Json, c: Json, location: string, direction: Direction, depth: nat)
    requires b.Obj? && c.Obj? && depth > 0
  {
    "items" in b.fields ==>
      && "items" in c.fields
      && Silent(SchemaFindings(bdoc, cdoc, b.fields["items"], c.fields["items"], location + "[]", direction, depth - 1))
  }

  lemma ItemsSilentIff(
    bdoc: Json, cdoc: Json, b: Json, c: Json, location: string, direction: Direction, depth: nat)
    requires b.Obj? && c.Obj? && depth > 0
    ensures Silent(ItemsFindings(bdoc, cdoc, b, c, location, direction, depth)) <==>
            ItemsSilent(bdoc, cdoc, b, c, location, direction, depth)
  {
    assert "items" in b.fields && "items" !in c.fields ==>
        Violation(location, ItemsRemoved) in ItemsFindings(bdoc, cdoc, b, c, location, direction, depth).violations;
  }

  lemma EmptyTogether<T>(k: set<T>, p: set<T>, i: set<T>)
    ensures k + (p + i) == {} <==> k == {} && p == {} && i == {}
  {
    assert k <= k + (p + i) && p <= k + (p + i) && i <= k + (p + i);
  }

  lemma ObjectsSilentIff(
    bdoc: Json, cdoc: Json, b: Json, c: Json, location: string, direction: Direction, depth: nat)
    requires b.Obj? && c.Obj? && depth > 0
    ensures Silent(ObjectFindings(bdoc, cdoc, b, c, location, direction, depth)) <==>
            && KeywordFindings(b, c, location, direction) == {}
            && Silent(PropertiesFindings(bdoc, cdoc, b, c, location, direction, depth))
            && Silent(ItemsFindings(bdoc, cdoc, b, c, location, direction, depth))
  {
    var p := PropertiesFindings(bdoc, cdoc, b, c, location, direction, depth);
    var i := ItemsFindings(bdoc, cdoc, b, c, location, direction, depth);
    if p.Found? && i.Found? {
      EmptyTogether(KeywordFindings(b, c, location, direction), p.violations, i.violations);
    }
  }

  lemma NodeIsItsObjects(
    bdoc: Json, cdoc: Json, b: Json, c: Json, location: string, direction: Direction, depth: nat)
    requires b.Obj? && c.Obj? && RefOf(b).None? && RefOf(c).None? && b != c && depth > 0
    requires !(direction.Input? && Exempt(b, c))
    ensures SchemaFindings(bdoc, cdoc, b, c, location, direction, depth) ==
            ObjectFindings(bdoc, cdoc, b, c, location, direction, depth)
  {
    assert Resolved(bdoc, b) == b && Resolved(cdoc, c) == c;
    ExemptIff(b, c);
  }

  /** A comparison of two objects that is not cut short is silent exactly when keywords, required
      properties, properties and items are. */
  lemma NodeSilentIff(
    bdoc: Json, cdoc: Json, b: Json, c: Json, location: string, direction: Direction, depth: nat)
    requires b.Obj? && c.Obj? && RefOf(b).None? && RefOf(c).None? && b != c && depth > 0
    requires BothProperties(b, c) && RequiredReads(b) && RequiredReads(c)
    requires !(direction.Input? && Exempt(b, c))
    requires SchemaFindings(bdoc, cdoc, b, c, location, direction, depth).Found?
    ensures Silent(SchemaFindings(bdoc, cdoc, b, c, location, direction, depth)) <==>
            && KeywordsKept(b, c, direction)
            && RequiredKept(b, c, direction)
            && (forall name :: name in DeclaredProperties(b) ==>
                  PropertySilent(bdoc, cdoc, b, c, name, location, direction, depth))
            && ItemsSilent(bdoc, cdoc, b, c, location, direction, depth)
  {
    NodeIsItsObjects(bdoc, cdoc, b, c, location, direction, depth);
    ObjectsSilentIff(bdoc, cdoc, b, c, location, direction, depth);
    KeywordsSilentIff(b, c, location, direction);
    ItemsSilentIff(bdoc, cdoc, b, c, location, direction, depth);
    PropertiesSilentIff(bdoc, cdoc, b, c, location, direction, depth);
  }

  lemma ExemptIsSilent(bdoc: Json, cdoc: Json, b: Json, c: Json, location: string, depth: nat)
    requires b.Obj? && c.Obj? && RefOf(b).None? && RefOf(c).None? && Exempt(b, c) && depth > 0
    ensures Silent(SchemaFindings(bdoc, cdoc, b, c, location, Input, depth))
  {
    assert Resolved(bdoc, b) == b && Resolved(cdoc, c) == c;
    ExemptIff(b, c);
  }

  lemma PropertyFinishes(
    bdoc: Json, cdoc: Json, b: Json, c: Json, name: string, location: string, direction: Direction, depth: nat)
    requires b.Obj? && c.Obj? && BothProperties(b, c) && depth > 0
    requires PropertiesFindings(bdoc, cdoc, b, c, location, direction, depth).Found?
    requires name in DeclaredProperties(b) && name in DeclaredProperties(c)
    ensures SchemaFindings(bdoc, cdoc, DeclaredProperties(b)[name], DeclaredProperties(c)[name],
                           location + "." + name, direction, depth - 1).Found?
  {
    assert NoneRaise(bdoc, cdoc, b, c, PropertiesOf(b).Keys, location, direction, depth);
    assert name in PropertiesOf(b).Keys;
    assert PropertyFindings(bdoc, cdoc, b, c, name, location, direction, depth).Found?;
  }

  lemma ChildrenFinish(
    bdoc: Json, cdoc: Json, b: Json, c: Json, location: string, direction: Direction, depth: nat)
    requires b.Obj? && c.Obj? && BothProperties(b, c) && depth > 0
    requires ObjectFindings(bdoc, cdoc, b, c, location, direction, depth).Found?
    ensures SharedItems(b, c) ==>
              SchemaFindings(bdoc, cdoc, b.fields["items"], c.fields["items"], location + "[]", direction, depth - 1).Found?
    ensures forall name :: name in DeclaredProperties(b) && name in DeclaredProperties(c) ==>
              SchemaFindings(bdoc, cdoc, DeclaredProperties(b)[name], DeclaredProperties(c)[name],
                             location + "." + name, direction, depth - 1).Found?
  {
    assert ItemsFindings(bdoc, cdoc, b, c, location, direction, depth).Found?;
    assert PropertiesFindings(bdoc, cdoc, b, c, location, direction, depth).Found?;
    forall name | name in DeclaredProperties(b) && name in DeclaredProperties(c)
      ensures SchemaFindings(bdoc, cdoc, DeclaredProperties(b)[name], DeclaredProperties(c)[name],
                             location + "." + name, direction, depth - 1).Found?
    {
      PropertyFinishes(bdoc, cdoc, b, c, name, location, direction, depth);
    }
  }

  lemma {:induction false} ItemsMean(
    bdoc: Json, cdoc: Json, b: Json, c: Json, location: string, direction: Direction, depth: nat)
    requires InFragment(b) && InFragment(c) && depth > 0
    requires SharedItems(b, c) ==>
               SchemaFindings(bdoc, cdoc, b.fields["items"], c.fields["items"], location + "[]", direction, depth - 1).Found?
    ensures ItemsSilent(bdoc, cdoc, b, c, location, direction, depth) <==> ItemsCompatible(b, c, direction)
    decreases b, 0
  {
    if SharedItems(b, c) {
      SilentIffCompatible(bdoc, cdoc, b.fields["items"], c.fields["items"], location + "[]", direction, depth - 1);
    }
  }

  lemma {:induction false} PropertyMeans(
    bdoc: Json, cdoc: Json, b: Json, c: Json, name: string, location: string, direction: Direction, depth: nat)
    requires InFragment(b) && InFragment(c) && depth > 0 && "properties" in b.fields
    requires name in b.fields["properties"].fields
    requires name in DeclaredProperties(c) ==>
               SchemaFindings(bdoc, cdoc, DeclaredProperties(b)[name], DeclaredProperties(c)[name],
                              location + "." + name, direction, depth - 1).Found?
    ensures PropertySilent(bdoc, cdoc, b, c, name, location, direction, depth) <==>
            name in DeclaredProperties(c) &&
            Compatible(b.fields["properties"].fields[name], DeclaredProperties(c)[name], direction)
    decreases b, 0
  {
    if name in DeclaredProperties(c) {
      SilentIffCompatible(bdoc, cdoc, b.fields["properties"].fields[name], DeclaredProperties(c)[name],
                          location + "." + name, direction, depth - 1);
    }
  }

  lemma {:induction false} PropertiesMean(
    bdoc: Json, cdoc: Json, b: Json, c: Json, location: string, direction: Direction, depth: nat)
    requires InFragment(b) && InFragment(c) && depth > 0
    requires forall name :: name in DeclaredProperties(b) && name in DeclaredProperties(c) ==>
               SchemaFindings(bdoc, cdoc, DeclaredProperties(b)[name], DeclaredProperties(c)[name],
                              location + "." + name, direction, depth - 1).Found?
    ensures (forall name :: name in DeclaredProperties(b) ==>
               PropertySilent(bdoc, cdoc, b, c, name, location, direction, depth)) <==>
            PropertiesCompatible(b, c, direction)
    decreases b, 1
  {
    if "properties" in b.fields {
      forall name | name in b.fields["properties"].fields
        ensures PropertySilent(bdoc, cdoc, b, c, name, location, direction, depth) <==>
                name in DeclaredProperties(c) &&
                Compatible(b.fields["properties"].fields[name], DeclaredProperties(c)[name], direction)
      {
        PropertyMeans(bdoc, cdoc, b, c, name, location, direction, depth);
      }
    }
  }

  /** The comparison means compatibility: for reference-free schemas, a comparison that is not cut
      short reports nothing if and only if the two schemas are compatible in its direction. */
  lemma {:induction false} SilentIffCompatible(
    bdoc: Json, cdoc: Json, b: Json, c: Json, location: string, direction: Direction, depth: nat)
    requires InFragment(b) && InFragment(c)
    requires SchemaFindings(bdoc, cdoc, b, c, location, direction, depth).Found?
    ensures Silent(SchemaFindings(bdoc, cdoc, b, c, location, direction, depth)) <==> Compatible(b, c, direction)
    decreases b, 2
  {
    FragmentResolvesToItself(bdoc, b);
    FragmentResolvesToItself(cdoc, c);
    if b != c {
      if direction.Input? && Exempt(b, c) {
        ExemptIsSilent(bdoc, cdoc, b, c, location, depth);
      } else {
        NodeIsItsObjects(bdoc, cdoc, b, c, location, direction, depth);
        NodeSilentIff(bdoc, cdoc, b, c, location, direction, depth);
        ChildrenFinish(bdoc, cdoc, b, c, location, direction, depth);
        ItemsMean(bdoc, cdoc, b, c, location, direction, depth);
        PropertiesMean(bdoc, cdoc, b, c, location, direction, depth);
      }
    }
  }

  // ---------------------------------------------------------------------------------------
  // The marker

  lemma SameKeptKeywords(b: Json, c: Json, d: Json, location: string, direction: Direction)
    requires b.Obj? && c.Obj? && d.Obj?
    requires forall k :: k in COMPARED && k != "x-a3s-contract-correction" ==> Lookup(c, k) == Lookup(d, k)
    ensures KeywordFindings(b, c, location, direction) == KeywordFindings(b, d, location, direction)
  {
    assert "type" in COMPARED && "enum" in COMPARED && "minLength" in COMPARED && "maximum" in COMPARED;
  }

  lemma SameTurn(
    bdoc: Json, cdoc: Json, b: Json, c: Json, d: Json, name: string, location: string, direction: Direction, depth: nat)
    requires b.Obj? && c.Obj? && d.Obj? && BothProperties(b, c) && name in PropertiesOf(b) && depth > 0
    requires LookupObj(c, "properties") == LookupObj(d, "properties")
    ensures PropertyFindings(bdoc, cdoc, b, c, name, location, direction, depth) ==
            PropertyFindings(bdoc, cdoc, b, d, name, location, direction, depth)
  {
  }

  lemma SameRaising(
    bdoc: Json, cdoc: Json, b: Json, c: Json, d: Json, location: string, direction: Direction, depth: nat)
    requires b.Obj? && c.Obj? && d.Obj? && BothProperties(b, c) && depth > 0
    requires LookupObj(c, "properties") == LookupObj(d, "properties")
    ensures NoneRaise(bdoc, cdoc, b, c, PropertiesOf(b).Keys, location, direction, depth) <==>
            NoneRaise(bdoc, cdoc, b, d, PropertiesOf(b).Keys, location, direction, depth)
  {
    forall name | name in PropertiesOf(b).Keys
      ensures PropertyFindings(bdoc, cdoc, b, c, name, location, direction, depth) ==
              PropertyFindings(bdoc, cdoc, b, d, name, location, direction, depth)
    {
      SameTurn(bdoc, cdoc, b, c, d, name, location, direction, depth);
    }
  }

  lemma LoopWithin(
    bdoc: Json, cdoc: Json, b: Json, c: Json, d: Json, location: string, direction: Direction, depth: nat)
    requires b.Obj? && c.Obj? && d.Obj? && BothProperties(b, c) && depth > 0
    requires LookupObj(c, "properties") == LookupObj(d, "properties")
    requires NoneRaise(bdoc, cdoc, b, c, PropertiesOf(b).Keys, location, direction, depth)
    requires NoneRaise(bdoc, cdoc, b, d, PropertiesOf(b).Keys, location, direction, depth)
    ensures LoopFindings(bdoc, cdoc, b, c, PropertiesOf(b).Keys, location, direction, depth) <=
            LoopFindings(bdoc, cdoc, b, d, PropertiesOf(b).Keys, location, direction, depth)
  {
    forall v | v in LoopFindings(bdoc, cdoc, b, c, PropertiesOf(b).Keys, location, direction, depth)
      ensures v in LoopFindings(bdoc, cdoc, b, d, PropertiesOf(b).Keys, location, direction, depth)
    {
      var name :| name in PropertiesOf(b).Keys &&
                  v in PropertyFindings(bdoc, cdoc, b, c, name, location, direction, depth).violations;
      SameTurn(bdoc, cdoc, b, c, d, name, location, direction, depth);
    }
  }

  lemma SameLoop(
    bdoc: Json, cdoc: Json, b: Json, c: Json, d: Json, location: string, direction: Direction, depth: nat)
    requires b.Obj? && c.Obj? && d.Obj? && BothProperties(b, c) && depth > 0
    requires LookupObj(c, "properties") == LookupObj(d, "properties")
    requires NoneRaise(bdoc, cdoc, b, c, PropertiesOf(b).Keys, location, direction, depth)
    requires NoneRaise(bdoc, cdoc, b, d, PropertiesOf(b).Keys, location, direction, depth)
    ensures LoopFindings(bdoc, cdoc, b, c, PropertiesOf(b).Keys, location, direction, depth) ==
            LoopFindings(bdoc, cdoc, b, d, PropertiesOf(b).Keys, location, direction, depth)
  {
    LoopWithin(bdoc, cdoc, b, c, d, location, direction, depth);
    LoopWithin(bdoc, cdoc, b, d, c, location, direction, depth);
  }

  predicate SameRequired(b: Json, c: Json, d: Json, direction: Direction)
    requires b.Obj? && c.Obj? && d.Obj?
  {
    && (RequiredReads(c) <==> RequiredReads(d))
    && (RequiredReads(b) && RequiredReads(c) ==> RequiredNarrowed(b, c, direction) == RequiredNarrowed(b, d, direction))
  }

  lemma SameProperties(
    bdoc: Json, cdoc: Json, b: Json, c: Json, d: Json, location: string, direction: Direction, depth: nat)
    requires b.Obj? && c.Obj? && d.Obj? && depth > 0
    requires LookupObj(c, "properties") == LookupObj(d, "properties")
    requires SameRequired(b, c, d, direction)
    ensures PropertiesFindings(bdoc, cdoc, b, c, location, direction, depth) ==
            PropertiesFindings(bdoc, cdoc, b, d, location, direction, depth)
  {
    if BothProperties(b, c) {
      SameRaising(bdoc, cdoc, b, c, d, location, direction, depth);
      if NoneRaise(bdoc, cdoc, b, c, PropertiesOf(b).Keys, location, direction, depth) {
        SameLoop(bdoc, cdoc, b, c, d, location, direction, depth);
      }
    }
  }

  function Marked(c: Json, marker: Json): (d: Json)
    requires c.Obj?
  {
    With(c, "x-a3s-contract-correction", marker)
  }

  lemma MarkedReadsTheSame(b: Json, c: Json, marker: Json, direction: Direction)
    requires b.Obj? && c.Obj?
    ensures
      var d := Marked(c, marker);
      && LookupObj(d, "properties") == LookupObj(c, "properties")
      && SameRequired(b, c, d, direction)
      && (RefOf(c).None? ==> RefOf(d).None?)
      && (forall k :: k in COMPARED && k != "x-a3s-contract-correction" ==> Lookup(c, k) == Lookup(d, k))
      && ("items" in c.fields <==> "items" in d.fields)
  {
  }

  lemma MarkedObjects(
    bdoc: Json, cdoc: Json, b: Json, c: Json, marker: Json, location: string, direction: Direction, depth: nat)
    requires b.Obj? && c.Obj? && depth > 0
    ensures ObjectFindings(bdoc, cdoc, b, Marked(c, marker), location, direction, depth) ==
            ObjectFindings(bdoc, cdoc, b, c, location, direction, depth)
  {
    var d := Marked(c, marker);
    MarkedReadsTheSame(b, c, marker, direction);
    SameKeptKeywords(b, c, d, location, direction);
    SameProperties(bdoc, cdoc, b, c, d, location, direction, depth);
    assert "items" in COMPARED;
  }

  /** The marker exempts nothing else: unless the baseline admitted any object at all, marking the
      candidate leaves what is reported as it was, in either direction. */
  lemma MarkerElsewhereChangesNothing(
    bdoc: Json, cdoc: Json, b: Json, c: Json, marker: Json, location: string, direction: Direction, depth: nat)
    requires b.Obj? && c.Obj? && RefOf(b).None? && RefOf(c).None? && depth > 0
    requires !Unconstrained(b)
    requires b != c && b != Marked(c, marker)
    ensures SchemaFindings(bdoc, cdoc, b, Marked(c, marker), location, direction, depth) ==
            SchemaFindings(bdoc, cdoc, b, c, location, direction, depth)
  {
    MarkedReadsTheSame(b, c, marker, direction);
    NodeIsItsObjects(bdoc, cdoc, b, c, location, direction, depth);
    NodeIsItsObjects(bdoc, cdoc, b, Marked(c, marker), location, direction, depth);
    MarkedObjects(bdoc, cdoc, b, c, marker, location, direction, depth);
  }

  // ---------------------------------------------------------------------------------------
  // Where and what is reported

  predicate AllBelow(f: Findings, location: string) {
    f.Found? ==> forall v :: v in f.violations ==> location <= v.location
  }

  lemma {:induction false} FindingsBelow(
    bdoc: Json, cdoc: Json, b: Json, c: Json, location: string, direction: Direction, depth: nat)
    ensures AllBelow(SchemaFindings(bdoc, cdoc, b, c, location, direction, depth), location)
    decreases depth, 3
  {
    if depth > 0 {
      var rb, rc := Resolved(bdoc, b), Resolved(cdoc, c);
      if rb.Obj? && rc.Obj? {
        ItemsBelow(bdoc, cdoc, rb, rc, location, direction, depth);
        PropertiesBelow(bdoc, cdoc, rb, rc, location, direction, depth);
      }
    }
  }

  lemma {:induction false} ItemsBelow(
    bdoc: Json, cdoc: Json, b: Json, c: Json, location: string, direction: Direction, depth: nat)
    requires b.Obj? && c.Obj? && depth > 0
    ensures AllBelow(ItemsFindings(bdoc, cdoc, b, c, location, direction, depth), location)
    decreases depth, 0
  {
    if SharedItems(b, c) {
      FindingsBelow(bdoc, cdoc, b.fields["items"], c.fields["items"], location + "[]", direction, depth - 1);
    }
  }

  lemma {:induction false} PropertyBelow(
    bdoc: Json, cdoc: Json, b: Json, c: Json, name: string, location: string, direction: Direction, depth: nat)
    requires b.Obj? && c.Obj? && BothProperties(b, c) && name in PropertiesOf(b) && depth > 0
    ensures AllBelow(PropertyFindings(bdoc, cdoc, b, c, name, location, direction, depth), location)
    decreases depth, 0
  {
    if name in PropertiesOf(c) {
      FindingsBelow(bdoc, cdoc, PropertiesOf(b)[name], PropertiesOf(c)[name],
                    location + "." + name, direction, depth - 1);
      assert location <= location + "." + name;
    }
  }

  lemma {:induction false} LoopBelow(
    bdoc: Json, cdoc: Json, b: Json, c: Json, location: string, direction: Direction, depth: nat)
    requires b.Obj? && c.Obj? && BothProperties(b, c) && depth > 0
    requires NoneRaise(bdoc, cdoc, b, c, PropertiesOf(b).Keys, location, direction, depth)
    ensures forall v :: v in LoopFindings(bdoc, cdoc, b, c, PropertiesOf(b).Keys, location, direction, depth) ==>
              location <= v.location
    decreases depth, 1
  {
    forall v | v in LoopFindings(bdoc, cdoc, b, c, PropertiesOf(b).Keys, location, direction, depth)
      ensures location <= v.location
    {
      var name :| name in PropertiesOf(b).Keys &&
                  v in PropertyFindings(bdoc, cdoc, b, c, name, location, direction, depth).violations;
      PropertyBelow(bdoc, cdoc, b, c, name, location, direction, depth);
    }
  }

  lemma {:induction false} PropertiesBelow(
    bdoc: Json, cdoc: Json, b: Json, c: Json, location: string, direction: Direction, depth: nat)
    requires b.Obj? && c.Obj? && depth > 0
    ensures AllBelow(PropertiesFindings(bdoc, cdoc, b, c, location, direction, depth), location)
    decreases depth, 2
  {
    if BothProperties(b, c) && NoneRaise(bdoc, cdoc, b, c, PropertiesOf(b).Keys, location, direction, depth) {
      LoopBelow(bdoc, cdoc, b, c, location, direction, depth);
    }
  }

  /** What a node itself is reported for. */
  predicate Reported(b: Json, c: Json, direction: Direction, change: Change)
    requires b.Obj? && c.Obj? && RequiredReads(b) && RequiredReads(c)
  {
    match change
    case TypeChanged => Lookup(b, "type") != Lookup(c, "type")
    case EnumRemoved =>
      && Lookup(b, "enum").Arr? && Lookup(c, "enum").Arr?
      && exists v :: v in Lookup(b, "enum").items && v !in Lookup(c, "enum").items
    case PropertyRemoved(name) => name in DeclaredProperties(b) && name !in DeclaredProperties(c)
    case RequiredAdded => direction.Input? && exists name :: name in Required(c) && name !in Required(b)
    case RequiredDropped => direction.Output? && exists name :: name in Required(b) && name !in Required(c)
    case ItemsRemoved => "items" in b.fields && "items" !in c.fields
    case Narrowed(keyword) =>
      && direction.Input?
      && Lookup(b, keyword).Num? && Lookup(c, keyword).Num?
      && (|| (keyword == "minLength" && Lookup(b, keyword).number < Lookup(c, keyword).number)
          || (keyword == "maximum" && Lookup(c, keyword).number < Lookup(b, keyword).number))
    case _ => false
  }

  predicate IsKeywordChange(change: Change) {
    change.TypeChanged? || change.EnumRemoved? || change.Narrowed?
  }

  lemma EnumReported(b: Json, c: Json)
    requires b.Obj? && c.Obj? && Lookup(b, "enum").Arr? && Lookup(c, "enum").Arr?
    ensures EnumLost(b, c) <==> exists v :: v in Lookup(b, "enum").items && v !in Lookup(c, "enum").items
  {
    var was, now := Lookup(b, "enum").items, Lookup(c, "enum").items;
    if exists v :: v in was && v !in now {
      var v :| v in was && v !in now;
      var i :| 0 <= i < |was| && was[i] == v;
    }
  }

  lemma KeywordReports(b: Json, c: Json, location: string, direction: Direction, v: Violation)
    requires b.Obj? && c.Obj? && RequiredReads(b) && RequiredReads(c)
    ensures v in KeywordFindings(b, c, location, direction) <==>
            v.location == location && IsKeywordChange(v.change) && Reported(b, c, direction, v.change)
  {
    if Lookup(b, "enum").Arr? && Lookup(c, "enum").Arr? {
      EnumReported(b, c);
    }
  }

  lemma ItemsReport(
    bdoc: Json, cdoc: Json, b: Json, c: Json, location: string, direction: Direction, depth: nat, change: Change)
    requires b.Obj? && c.Obj? && depth > 0 && ItemsFindings(bdoc, cdoc, b, c, location, direction, depth).Found?
    ensures Violation(location, change) in ItemsFindings(bdoc, cdoc, b, c, location, direction, depth).violations <==>
            change.ItemsRemoved? && "items" in b.fields && "items" !in c.fields
  {
    if SharedItems(b, c) {
      FindingsBelow(bdoc, cdoc, b.fields["items"], c.fields["items"], location + "[]", direction, depth - 1);
    }
  }

  lemma PropertyReports(
    bdoc: Json, cdoc: Json, b: Json, c: Json, name: string,
    location: string, direction: Direction, depth: nat, change: Change)
    requires b.Obj? && c.Obj? && BothProperties(b, c) && name in PropertiesOf(b) && depth > 0
    requires PropertyFindings(bdoc, cdoc, b, c, name, location, direction, depth).Found?
    ensures Violation(location, change) in PropertyFindings(bdoc, cdoc, b, c, name, location, direction, depth).violations <==>
            name !in PropertiesOf(c) && change == PropertyRemoved(name)
  {
    if name in PropertiesOf(c) {
      FindingsBelow(bdoc, cdoc, PropertiesOf(b)[name], PropertiesOf(c)[name],
                    location + "." + name, direction, depth - 1);
      assert |location + "." + name| > |location|;
    }
  }

  lemma LoopReports(
    bdoc: Json, cdoc: Json, b: Json, c: Json, location: string, direction: Direction, depth: nat, change: Change)
    requires b.Obj? && c.Obj? && BothProperties(b, c) && depth > 0
    requires NoneRaise(bdoc, cdoc, b, c, PropertiesOf(b).Keys, location, direction, depth)
    ensures Violation(location, change) in
              LoopFindings(bdoc, cdoc, b, c, PropertiesOf(b).Keys, location, direction, depth) <==>
            change.PropertyRemoved? && change.name in PropertiesOf(b) && change.name !in PropertiesOf(c)
  {
    var v := Violation(location, change);
    if v in LoopFindings(bdoc, cdoc, b, c, PropertiesOf(b).Keys, location, direction, depth) {
      var name :| name in PropertiesOf(b).Keys &&
                  v in PropertyFindings(bdoc, cdoc, b, c, name, location, direction, depth).violations;
      PropertyReports(bdoc, cdoc, b, c, name, location, direction, depth, change);
    }
    if change.PropertyRemoved? && change.name in PropertiesOf(b) && change.name !in PropertiesOf(c) {
      TurnWithinLoop(bdoc, cdoc, b, c, change.name, location, direction, depth);
      PropertyReports(bdoc, cdoc, b, c, change.name, location, direction, depth, change);
    }
  }

  lemma RequiredReported(b: Json, c: Json, direction: Direction)
    requires b.Obj? && c.Obj? && RequiredReads(b) && RequiredReads(c)
    ensures direction.Input? ==> (RequiredNarrowed(b, c, direction) <==> Reported(b, c, direction, RequiredAdded))
    ensures direction.Output? ==> (RequiredNarrowed(b, c, direction) <==> Reported(b, c, direction, RequiredDropped))
  {
    RequiredSilentIff(b, c, direction);
  }

  lemma PropertiesReport(
    bdoc: Json, cdoc: Json, b: Json, c: Json, location: string, direction: Direction, depth: nat, change: Change)
    requires b.Obj? && c.Obj? && BothProperties(b, c) && RequiredReads(b) && RequiredReads(c) && depth > 0
    requires PropertiesFindings(bdoc, cdoc, b, c, location, direction, depth).Found?
    ensures Violation(location, change) in PropertiesFindings(bdoc, cdoc, b, c, location, direction, depth).violations <==>
            && (change.PropertyRemoved? || change.RequiredAdded? || change.RequiredDropped?)
            && Reported(b, c, direction, change)
  {
    LoopReports(bdoc, cdoc, b, c, location, direction, depth, change);
    RequiredReported(b, c, direction);
  }

  /** What is reported at a node's own place, exactly: every change, and no other, that the two nodes
      show there. What its properties and items are reported for stands below that place. */
  lemma NodeReportsIff(
    bdoc: Json, cdoc: Json, b: Json, c: Json, location: string, direction: Direction, depth: nat, change: Change)
    requires b.Obj? && c.Obj? && RefOf(b).None? && RefOf(c).None? && b != c && depth > 0
    requires BothProperties(b, c) && RequiredReads(b) && RequiredReads(c)
    requires !(direction.Input? && Exempt(b, c))
    requires SchemaFindings(bdoc, cdoc, b, c, location, direction, depth).Found?
    ensures Violation(location, change) in SchemaFindings(bdoc, cdoc, b, c, location, direction, depth).violations <==>
            Reported(b, c, direction, change)
  {
    NodeIsItsObjects(bdoc, cdoc, b, c, location, direction, depth);
    KeywordReports(b, c, location, direction, Violation(location, change));
    PropertiesReport(bdoc, cdoc, b, c, location, direction, depth, change);
    ItemsReport(bdoc, cdoc, b, c, location, direction, depth, change);
  }

  /** Anything but an object that differs is reported as a changed shape. */
  lemma ShapeReported(bdoc: Json, cdoc: Json, b: Json, c: Json, location: string, direction: Direction, depth: nat)
    requires depth > 0 && (!Resolved(bdoc, b).Obj? || !Resolved(cdoc, c).Obj?)
    ensures SchemaFindings(bdoc, cdoc, b, c, location, direction, depth) ==
            Found(if Resolved(bdoc, b) == Resolved(cdoc, c) then {} else {Violation(location, ShapeChanged)})
  {
  }
}
