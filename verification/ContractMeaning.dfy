/** What an empty report says about two documents, part by part, without naming the comparison: nothing
    a client relies on was removed, narrowed or newly demanded. */
module ContractMeaning {
  import opened Base
  import opened Json
  import opened SchemaCompat
  import opened SchemaSoundness
  import opened SchemaMeaning
  import opened ContractOutcomes

  // ---------------------------------------------------------------------------------------
  // Silence does not depend on the place a pair of schemas is compared at

  ghost predicate Alike(f: Findings, g: Findings) {
    (f.Found? <==> g.Found?) && (Silent(f) <==> Silent(g))
  }

  lemma {:induction false} TurnAnywhere(
    bdoc: Json, cdoc: Json, b: Json, c: Json, name: string, l: string, m: string, direction: Direction, depth: nat)
    requires b.Obj? && c.Obj? && BothProperties(b, c) && name in PropertiesOf(b) && depth > 0
    ensures Alike(PropertyFindings(bdoc, cdoc, b, c, name, l, direction, depth),
                  PropertyFindings(bdoc, cdoc, b, c, name, m, direction, depth))
    decreases depth, 0
  {
    if name in PropertiesOf(c) {
      SilentAnywhere(bdoc, cdoc, PropertiesOf(b)[name], PropertiesOf(c)[name],
                     l + "." + name, m + "." + name, direction, depth - 1);
    } else {
      PropertyTurn(bdoc, cdoc, b, c, name, l, direction, depth);
      PropertyTurn(bdoc, cdoc, b, c, name, m, direction, depth);
    }
  }

  lemma {:induction false} LoopAnywhere(
    bdoc: Json, cdoc: Json, b: Json, c: Json, l: string, m: string, direction: Direction, depth: nat)
    requires b.Obj? && c.Obj? && BothProperties(b, c) && depth > 0
    ensures NoneRaise(bdoc, cdoc, b, c, PropertiesOf(b).Keys, l, direction, depth) <==>
            NoneRaise(bdoc, cdoc, b, c, PropertiesOf(b).Keys, m, direction, depth)
    ensures NoneRaise(bdoc, cdoc, b, c, PropertiesOf(b).Keys, l, direction, depth) ==>
              (LoopFindings(bdoc, cdoc, b, c, PropertiesOf(b).Keys, l, direction, depth) == {} <==>
               LoopFindings(bdoc, cdoc, b, c, PropertiesOf(b).Keys, m, direction, depth) == {})
    decreases depth, 1
  {
    forall name | name in PropertiesOf(b).Keys
      ensures Alike(PropertyFindings(bdoc, cdoc, b, c, name, l, direction, depth),
                    PropertyFindings(bdoc, cdoc, b, c, name, m, direction, depth))
    {
      TurnAnywhere(bdoc, cdoc, b, c, name, l, m, direction, depth);
    }
    assert NoneRaise(bdoc, cdoc, b, c, PropertiesOf(b).Keys, l, direction, depth) <==>
           NoneRaise(bdoc, cdoc, b, c, PropertiesOf(b).Keys, m, direction, depth);
    if NoneRaise(bdoc, cdoc, b, c, PropertiesOf(b).Keys, l, direction, depth) {
      LoopEmptyIff(bdoc, cdoc, b, c, l, direction, depth);
      LoopEmptyIff(bdoc, cdoc, b, c, m, direction, depth);
    }
  }

  lemma UnionEmpty<T>(a: set<T>, b: set<T>)
    ensures a + b == {} <==> a == {} && b == {}
  {
    assert a <= a + b && b <= a + b;
  }

  lemma PropertiesByParts(bdoc: Json, cdoc: Json, b: Json, c: Json, l: string, direction: Direction, depth: nat)
    requires b.Obj? && c.Obj? && BothProperties(b, c) && depth > 0
    ensures PropertiesFindings(bdoc, cdoc, b, c, l, direction, depth).Found? <==>
            NoneRaise(bdoc, cdoc, b, c, PropertiesOf(b).Keys, l, direction, depth) && RequiredReads(b) && RequiredReads(c)
    ensures PropertiesFindings(bdoc, cdoc, b, c, l, direction, depth).Found? ==>
              (Silent(PropertiesFindings(bdoc, cdoc, b, c, l, direction, depth)) <==>
               LoopFindings(bdoc, cdoc, b, c, PropertiesOf(b).Keys, l, direction, depth) == {} &&
               !RequiredNarrowed(b, c, direction))
  {
    if NoneRaise(bdoc, cdoc, b, c, PropertiesOf(b).Keys, l, direction, depth) && RequiredReads(b) && RequiredReads(c) {
      var change := if direction.Input? then RequiredAdded else RequiredDropped;
      UnionEmpty(LoopFindings(bdoc, cdoc, b, c, PropertiesOf(b).Keys, l, direction, depth),
                 OneIf(RequiredNarrowed(b, c, direction), l, change));
      OneIfEmpty(RequiredNarrowed(b, c, direction), l, change);
    }
  }

  lemma {:induction false} PropertiesAnywhere(
    bdoc: Json, cdoc: Json, b: Json, c: Json, l: string, m: string, direction: Direction, depth: nat)
    requires b.Obj? && c.Obj? && depth > 0
    ensures Alike(PropertiesFindings(bdoc, cdoc, b, c, l, direction, depth),
                  PropertiesFindings(bdoc, cdoc, b, c, m, direction, depth))
    decreases depth, 2
  {
    if BothProperties(b, c) {
      LoopAnywhere(bdoc, cdoc, b, c, l, m, direction, depth);
      PropertiesByParts(bdoc, cdoc, b, c, l, direction, depth);
      PropertiesByParts(bdoc, cdoc, b, c, m, direction, depth);
    }
  }

  lemma OneIfEmpty(condition: bool, location: string, change: Change)
    ensures OneIf(condition, location, change) == {} <==> !condition
  {
    assert condition ==> Violation(location, change) in OneIf(condition, location, change);
  }

  lemma {:induction false} ItemsAnywhere(
    bdoc: Json, cdoc: Json, b: Json, c: Json, l: string, m: string, direction: Direction, depth: nat)
    requires b.Obj? && c.Obj? && depth > 0
    ensures Alike(ItemsFindings(bdoc, cdoc, b, c, l, direction, depth),
                  ItemsFindings(bdoc, cdoc, b, c, m, direction, depth))
    decreases depth, 0
  {
    if SharedItems(b, c) {
      SilentAnywhere(bdoc, cdoc, b.fields["items"], c.fields["items"], l + "[]", m + "[]", direction, depth - 1);
    } else {
      ItemsSilentIff(bdoc, cdoc, b, c, l, direction, depth);
      ItemsSilentIff(bdoc, cdoc, b, c, m, direction, depth);
    }
  }

  lemma {:induction false} ObjectsAnywhere(
    bdoc: Json, cdoc: Json, b: Json, c: Json, l: string, m: string, direction: Direction, depth: nat)
    requires b.Obj? && c.Obj? && depth > 0
    ensures Alike(ObjectFindings(bdoc, cdoc, b, c, l, direction, depth),
                  ObjectFindings(bdoc, cdoc, b, c, m, direction, depth))
    decreases depth, 3
  {
    KeywordsSilentIff(b, c, l, direction);
    KeywordsSilentIff(b, c, m, direction);
    PropertiesAnywhere(bdoc, cdoc, b, c, l, m, direction, depth);
    ItemsAnywhere(bdoc, cdoc, b, c, l, m, direction, depth);
    ObjectsSilentIff(bdoc, cdoc, b, c, l, direction, depth);
    ObjectsSilentIff(bdoc, cdoc, b, c, m, direction, depth);
  }

  lemma ObjectCase(bdoc: Json, cdoc: Json, b: Json, c: Json, l: string, direction: Direction, depth: nat)
    requires depth > 0 && Resolved(bdoc, b).Obj? && Resolved(cdoc, c).Obj?
    ensures
      var rb, rc := Resolved(bdoc, b), Resolved(cdoc, c);
      SchemaFindings(bdoc, cdoc, b, c, l, direction, depth) ==
        if rb == rc || (direction.Input? && IsCorrected(rb, rc)) then Found({})
        else ObjectFindings(bdoc, cdoc, rb, rc, l, direction, depth)
  {
  }

  lemma ShapesAnywhere(bdoc: Json, cdoc: Json, b: Json, c: Json, l: string, m: string, direction: Direction, depth: nat)
    requires depth > 0 && (!Resolved(bdoc, b).Obj? || !Resolved(cdoc, c).Obj?)
    ensures Alike(SchemaFindings(bdoc, cdoc, b, c, l, direction, depth),
                  SchemaFindings(bdoc, cdoc, b, c, m, direction, depth))
  {
    ShapeReported(bdoc, cdoc, b, c, l, direction, depth);
    ShapeReported(bdoc, cdoc, b, c, m, direction, depth);
    assert Violation(l, ShapeChanged) in {Violation(l, ShapeChanged)};
    assert Violation(m, ShapeChanged) in {Violation(m, ShapeChanged)};
  }

  lemma {:induction false} SilentAnywhere(
    bdoc: Json, cdoc: Json, b: Json, c: Json, l: string, m: string, direction: Direction, depth: nat)
    ensures Alike(SchemaFindings(bdoc, cdoc, b, c, l, direction, depth),
                  SchemaFindings(bdoc, cdoc, b, c, m, direction, depth))
    decreases depth, 4
  {
    if depth > 0 {
      var rb, rc := Resolved(bdoc, b), Resolved(cdoc, c);
      if rb.Obj? && rc.Obj? {
        ObjectCase(bdoc, cdoc, b, c, l, direction, depth);
        ObjectCase(bdoc, cdoc, b, c, m, direction, depth);
        ObjectsAnywhere(bdoc, cdoc, rb, rc, l, m, direction, depth);
      } else {
        ShapesAnywhere(bdoc, cdoc, b, c, l, m, direction, depth);
      }
    }
  }

  // ---------------------------------------------------------------------------------------
  // Documents that keep their promises

  /** Two schemas are compared, in a direction and within `depth` nested calls, without a finding. */
  ghost predicate SchemaKept(bdoc: Json, cdoc: Json, b: Json, c: Json, direction: Direction, depth: nat) {
    Silent(SchemaFindings(bdoc, cdoc, b, c, "", direction, depth))
  }

  /** A media type is still there, and its schema kept. */
  ghost predicate MediaKept(bdoc: Json, cdoc: Json, b: Json, c: Json, media: string, direction: Direction, depth: nat)
    requires b.Obj? && c.Obj? && media in b.fields
  {
    && media in c.fields && c.fields[media].Obj?
    && (b.fields[media].Obj? ==>
          SchemaKept(bdoc, cdoc, LookupObj(b.fields[media], "schema"), LookupObj(c.fields[media], "schema"),
                     direction, depth))
  }

  ghost predicate ContentKept(bdoc: Json, cdoc: Json, b: Json, c: Json, direction: Direction, depth: nat) {
    b.Obj? && c.Obj? ==>
      forall media :: media in b.fields ==> MediaKept(bdoc, cdoc, b, c, media, direction, depth)
  }

  predicate IsRequired(j: Json) {
    j.Obj? && "required" in j.fields && j.fields["required"] == Bool(true)
  }

  /** A request body is not taken away, not newly demanded, and keeps its content. */
  ghost predicate BodyKept(bdoc: Json, cdoc: Json, b: Json, c: Json, depth: nat) {
    && (c.Null? ==> b.Null?)
    && (IsRequired(c) ==> IsRequired(b))
    && (b.Obj? && c.Obj? ==>
          ContentKept(bdoc, cdoc, LookupObj(b, "content"), LookupObj(c, "content"), Input, depth))
  }

  /** A documented status is still there and keeps its content. */
  ghost predicate StatusKept(bdoc: Json, cdoc: Json, b: Json, c: Json, status: string, depth: nat)
    requires b.Obj? && c.Obj? && status in b.fields
  {
    && status in c.fields
    && var was, now := Resolved(bdoc, b.fields[status]), Resolved(cdoc, c.fields[status]);
       (was.Obj? && now.Obj? ==>
          ContentKept(bdoc, cdoc, LookupObj(was, "content"), LookupObj(now, "content"), Output, depth))
  }

  ghost predicate ResponsesKept(bdoc: Json, cdoc: Json, b: Json, c: Json, depth: nat) {
    b.Obj? && c.Obj? ==>
      forall status :: status in b.fields ==> StatusKept(bdoc, cdoc, b, c, status, depth)
  }

  /** A parameter is still there and keeps its schema. */
  ghost predicate ParameterKept(
    bdoc: Json, cdoc: Json, b: map<ParameterId, Json>, c: map<ParameterId, Json>, id: ParameterId, depth: nat)
    requires id in b && b[id].Obj? && (id in c ==> c[id].Obj?)
  {
    id in c && SchemaKept(bdoc, cdoc, LookupObj(b[id], "schema"), LookupObj(c[id], "schema"), Input, depth)
  }

  /** Every parameter is kept, and no new one is demanded. */
  ghost predicate ParametersKept(
    bdoc: Json, cdoc: Json, b: map<ParameterId, Json>, c: map<ParameterId, Json>, depth: nat)
    requires forall id :: id in b ==> b[id].Obj?
    requires forall id :: id in c ==> c[id].Obj?
  {
    && (forall id :: id in b ==> ParameterKept(bdoc, cdoc, b, c, id, depth))
    && (forall id :: id in c && IsRequired(c[id]) ==> id in b)
  }

  /** An operation that asked for no credentials still asks for none. */
  predicate StaysPublic(b: Json, c: Json)
    requires b.Obj? && c.Obj?
  {
    "security" in b.fields && b.fields["security"] == Arr([]) ==> "security" in c.fields && c.fields["security"] == Arr([])
  }

  ghost predicate OperationKept(bdoc: Json, cdoc: Json, b: Json, c: Json, depth: nat)
    requires b.Obj? && c.Obj?
  {
    && ParametersKept(bdoc, cdoc, ParametersOf(b), ParametersOf(c), depth)
    && BodyKept(bdoc, cdoc, Resolved(bdoc, Lookup(b, "requestBody")), Resolved(cdoc, Lookup(c, "requestBody")), depth)
    && ResponsesKept(bdoc, cdoc, LookupObj(b, "responses"), LookupObj(c, "responses"), depth)
    && StaysPublic(b, c)
  }

  ghost predicate OperationsKept(
    bdoc: Json, cdoc: Json, b: map<OperationId, Json>, c: map<OperationId, Json>, depth: nat)
    requires forall id :: id in b ==> b[id].Obj?
    requires forall id :: id in c ==> c[id].Obj?
  {
    forall id :: id in b ==> id in c && OperationKept(bdoc, cdoc, b[id], c[id], depth)
  }

  ghost predicate ComponentsKept(bdoc: Json, cdoc: Json, b: map<string, Json>, c: map<string, Json>, depth: nat) {
    forall name :: name in b ==> name in c && SchemaKept(bdoc, cdoc, b[name], c[name], Output, depth)
  }

  /** Every operation and every component of the baseline is still there and kept. */
  ghost predicate DocumentKept(baseline: Json, candidate: Json, depth: nat)
    requires baseline.Obj? && candidate.Obj?
  {
    && OperationsKept(baseline, candidate, OperationsOf(baseline), OperationsOf(candidate), depth)
    && ComponentsKept(baseline, candidate, SchemasOf(baseline), SchemasOf(candidate), depth)
  }

  // ---------------------------------------------------------------------------------------
  // Nothing is reported exactly when they do

  predicate Clean(o: Outcome) {
    o.Done? && o.violations == {}
  }

  lemma PlusCleanIff(a: Outcome, b: Outcome)
    ensures Clean(Plus(a, b)) <==> Clean(a) && Clean(b)
  {
    if a.Done? && b.Done? {
      UnionEmpty(a.violations, b.violations);
    }
  }

  lemma OverCleanIff<K(!new)>(keys: set<K>, turn: K -> Outcome)
    ensures Clean(Over(keys, turn)) <==> forall k :: k in keys ==> Clean(turn(k))
  {
    if Over(keys, turn).Done? {
      OverUnchanged(keys, turn);
      if Clean(Over(keys, turn)) {
        forall k | k in keys
          ensures Clean(turn(k))
        {
          assert turn(k).violations <= Over(keys, turn).violations;
        }
      }
    }
  }

  lemma ReportIsNotClean(v: Violation, changed: bool)
    ensures !Clean(Done({v}, changed))
  {
    assert v in {v};
  }

  lemma SchemaCleanIff(
    bdoc: Json, cdoc: Json, b: Json, c: Json, location: string, direction: Direction, depth: nat)
    ensures Clean(SchemaOutcome(bdoc, cdoc, b, c, location, direction, depth)) <==>
            SchemaKept(bdoc, cdoc, b, c, direction, depth)
  {
    SilentAnywhere(bdoc, cdoc, b, c, location, "", direction, depth);
  }

  lemma MediaCleanIff(s: Scope, b: Json, c: Json, media: string)
    requires b.Obj? && c.Obj? && media in b.fields
    ensures Clean(MediaOutcome(s, b, c, media)) <==> MediaKept(s.bdoc, s.cdoc, b, c, media, s.direction, s.depth)
  {
    ReportIsNotClean(Violation(s.location, Gone(media)), false);
    if b.fields[media].Obj? && Lookup(c, media).Obj? {
      SchemaCleanIff(s.bdoc, s.cdoc, LookupObj(b.fields[media], "schema"), LookupObj(Lookup(c, media), "schema"),
                     s.location + " " + media, s.direction, s.depth);
    }
  }

  lemma ContentCleanIff(s: Scope, b: Json, c: Json)
    ensures Clean(ContentOutcome(s, b, c)) <==> ContentKept(s.bdoc, s.cdoc, b, c, s.direction, s.depth)
  {
    if b.Obj? && c.Obj? {
      var turns := MediaTurns(s, b, c);
      PlusCleanIff(ChangedIf(b.fields.Keys != c.fields.Keys), Over(b.fields.Keys, turns));
      OverCleanIff(b.fields.Keys, turns);
      forall media | media in b.fields
        ensures Clean(turns(media)) <==> MediaKept(s.bdoc, s.cdoc, b, c, media, s.direction, s.depth)
      {
        assert turns(media) == MediaOutcome(s, b, c, media);
        MediaCleanIff(s, b, c, media);
      }
    }
  }

  lemma OneIfCleanIff(condition: bool, location: string, change: Change, changed: bool)
    ensures Clean(Done(OneIf(condition, location, change), changed)) <==> !condition
  {
    OneIfEmpty(condition, location, change);
  }

  lemma BodyCleanIff(s: Scope, b: Json, c: Json)
    requires s.direction.Input? && BodyOutcome(s, b, c).Done?
    ensures Clean(BodyOutcome(s, b, c)) <==> BodyKept(s.bdoc, s.cdoc, b, c, s.depth)
  {
    ReportIsNotClean(Violation(s.location, Gone("request body")), true);
    if b.Null? && c.Obj? {
      OneIfCleanIff(Lookup(c, "required") == Bool(true), s.location, NowRequired("request body"), true);
    }
    if b.Obj? && c.Obj? {
      var demanded := Lookup(b, "required") != Bool(true) && Lookup(c, "required") == Bool(true);
      OneIfCleanIff(demanded, s.location, NowRequired("request body"), Lookup(b, "required") != Lookup(c, "required"));
      PlusCleanIff(Done(OneIf(demanded, s.location, NowRequired("request body")),
                        Lookup(b, "required") != Lookup(c, "required")),
                   ContentOutcome(s, LookupObj(b, "content"), LookupObj(c, "content")));
      ContentCleanIff(s, LookupObj(b, "content"), LookupObj(c, "content"));
    }
  }

  lemma StatusCleanIff(s: Scope, b: Json, c: Json, status: string)
    requires s.direction.Output? && b.Obj? && c.Obj? && status in b.fields
    ensures Clean(StatusOutcome(s, b, c, status)) <==> StatusKept(s.bdoc, s.cdoc, b, c, status, s.depth)
  {
    ReportIsNotClean(Violation(s.location, Gone(status)), false);
    if status in c.fields {
      var was, now := Resolved(s.bdoc, b.fields[status]), Resolved(s.cdoc, c.fields[status]);
      if was.Obj? && now.Obj? {
        ContentCleanIff(s.(location := s.location + " " + status), LookupObj(was, "content"), LookupObj(now, "content"));
      }
    }
  }

  lemma ResponsesCleanIff(s: Scope, b: Json, c: Json)
    requires s.direction.Output? && b.Obj? && c.Obj?
    ensures Clean(ResponsesOutcome(s, b, c)) <==>
            ResponsesKept(s.bdoc, s.cdoc, LookupObj(b, "responses"), LookupObj(c, "responses"), s.depth)
  {
    var was, now := LookupObj(b, "responses"), LookupObj(c, "responses");
    if was.Obj? && now.Obj? {
      var turns := StatusTurns(s, was, now);
      PlusCleanIff(ChangedIf(was.fields.Keys != now.fields.Keys), Over(was.fields.Keys, turns));
      OverCleanIff(was.fields.Keys, turns);
      forall status | status in was.fields
        ensures Clean(turns(status)) <==> StatusKept(s.bdoc, s.cdoc, was, now, status, s.depth)
      {
        assert turns(status) == StatusOutcome(s, was, now, status);
        StatusCleanIff(s, was, now, status);
      }
    }
  }

  lemma ParameterCleanIff(s: Scope, b: map<ParameterId, Json>, c: map<ParameterId, Json>, id: ParameterId)
    requires id in b && b[id].Obj? && (id in c ==> c[id].Obj?)
    ensures Clean(KeptParameter(s, b, c, id)) <==> ParameterKept(s.bdoc, s.cdoc, b, c, id, s.depth)
  {
    ReportIsNotClean(Violation(s.location, Gone(id.place + " " + id.name)), false);
    if id in c {
      SchemaCleanIff(s.bdoc, s.cdoc, LookupObj(b[id], "schema"), LookupObj(c[id], "schema"),
                     s.location + " parameter " + id.name, Input, s.depth);
    }
  }

  lemma AddedCleanIff(s: Scope, b: map<ParameterId, Json>, c: map<ParameterId, Json>, id: ParameterId)
    requires id in c && c[id].Obj?
    ensures Clean(AddedParameter(s, b, c, id)) <==> (IsRequired(c[id]) ==> id in b)
  {
    OneIfCleanIff(id in c && id !in b && c[id].Obj? && Lookup(c[id], "required") == Bool(true),
                  s.location, NowRequired(id.place + " " + id.name), false);
  }

  lemma ParametersCleanIff(s: Scope, b: map<ParameterId, Json>, c: map<ParameterId, Json>)
    requires forall id :: id in b ==> b[id].Obj?
    requires forall id :: id in c ==> c[id].Obj?
    ensures Clean(ParametersOutcome(s, b, c)) <==> ParametersKept(s.bdoc, s.cdoc, b, c, s.depth)
  {
    var kept, added := KeptTurns(s, b, c), AddedTurns(s, b, c);
    PlusCleanIff(Plus(ChangedIf(b.Keys != c.Keys), Over(b.Keys, kept)), Over(c.Keys, added));
    PlusCleanIff(ChangedIf(b.Keys != c.Keys), Over(b.Keys, kept));
    OverCleanIff(b.Keys, kept);
    OverCleanIff(c.Keys, added);
    forall id | id in b.Keys
      ensures Clean(kept(id)) <==> ParameterKept(s.bdoc, s.cdoc, b, c, id, s.depth)
    {
      assert kept(id) == KeptParameter(s, b, c, id);
      ParameterCleanIff(s, b, c, id);
    }
    forall id | id in c.Keys
      ensures Clean(added(id)) <==> (IsRequired(c[id]) ==> id in b)
    {
      assert added(id) == AddedParameter(s, b, c, id);
      AddedCleanIff(s, b, c, id);
    }
  }

  lemma SecurityCleanIff(s: Scope, b: Json, c: Json)
    requires b.Obj? && c.Obj?
    ensures Clean(SecurityOutcome(s, b, c)) <==> StaysPublic(b, c)
  {
    var was, now := Lookup(b, "security"), Lookup(c, "security");
    OneIfCleanIff(was != now && was == Arr([]) && now != Arr([]), s.location, NowAuthenticated, was != now);
  }

  lemma OperationCleanIff(s: Scope, b: Json, c: Json)
    requires b.Obj? && c.Obj? && OperationOutcome(s, b, c).Done?
    ensures Clean(OperationOutcome(s, b, c)) <==> OperationKept(s.bdoc, s.cdoc, b, c, s.depth)
  {
    var i, o := s.(direction := Input), s.(direction := Output);
    var parameters := ParametersOutcome(s, ParametersOf(b), ParametersOf(c));
    var body, responses, security := RequestOutcome(i, b, c), ResponsesOutcome(o, b, c), SecurityOutcome(s, b, c);
    var deprecated := ChangedIf(Lookup(b, "deprecated") != Lookup(c, "deprecated"));
    PlusCleanIff(Plus(Plus(parameters, body), responses), Plus(security, deprecated));
    PlusCleanIff(Plus(parameters, body), responses);
    PlusCleanIff(parameters, body);
    PlusCleanIff(security, deprecated);
    ParametersCleanIff(s, ParametersOf(b), ParametersOf(c));
    BodyCleanIff(i, Resolved(s.bdoc, Lookup(b, "requestBody")), Resolved(s.cdoc, Lookup(c, "requestBody")));
    ResponsesCleanIff(o, b, c);
    SecurityCleanIff(s, b, c);
  }

  lemma OneOperationCleanIff(s: Scope, b: map<OperationId, Json>, c: map<OperationId, Json>, id: OperationId)
    requires id in b && b[id].Obj? && (id in c ==> c[id].Obj?) && OperationTurns(s, b, c)(id).Done?
    ensures Clean(OperationTurns(s, b, c)(id)) <==>
            id in c && OperationKept(s.bdoc, s.cdoc, b[id], c[id], s.depth)
  {
    assert OperationTurns(s, b, c)(id) == OneOperation(s, b, c, id);
    if id in c {
      OperationCleanIff(s.(location := LocationOf(id)), b[id], c[id]);
    } else {
      ReportIsNotClean(Violation(LocationOf(id), Gone("operation")), false);
    }
  }

  lemma EachOperationCleanIff(s: Scope, b: map<OperationId, Json>, c: map<OperationId, Json>)
    requires forall id :: id in b ==> b[id].Obj?
    requires forall id :: id in c ==> c[id].Obj?
    requires forall id :: id in b.Keys ==> OperationTurns(s, b, c)(id).Done?
    ensures (forall id :: id in b.Keys ==> Clean(OperationTurns(s, b, c)(id))) <==>
            OperationsKept(s.bdoc, s.cdoc, b, c, s.depth)
  {
    forall id | id in b.Keys
      ensures Clean(OperationTurns(s, b, c)(id)) <==>
              id in c && OperationKept(s.bdoc, s.cdoc, b[id], c[id], s.depth)
    {
      OneOperationCleanIff(s, b, c, id);
    }
  }

  lemma OperationsCleanIff(s: Scope, b: map<OperationId, Json>, c: map<OperationId, Json>)
    requires forall id :: id in b ==> b[id].Obj?
    requires forall id :: id in c ==> c[id].Obj?
    requires OperationsOutcome(s, b, c).Done?
    ensures Clean(OperationsOutcome(s, b, c)) <==> OperationsKept(s.bdoc, s.cdoc, b, c, s.depth)
  {
    PlusCleanIff(ChangedIf(b.Keys != c.Keys), Over(b.Keys, OperationTurns(s, b, c)));
    OverCleanIff(b.Keys, OperationTurns(s, b, c));
    OverUnchanged(b.Keys, OperationTurns(s, b, c));
    EachOperationCleanIff(s, b, c);
  }

  lemma ComponentsCleanIff(s: Scope, b: map<string, Json>, c: map<string, Json>)
    ensures Clean(ComponentsOutcome(s, b, c)) <==> ComponentsKept(s.bdoc, s.cdoc, b, c, s.depth)
  {
    var turns := ComponentTurns(s, b, c);
    PlusCleanIff(ChangedIf(b.Keys != c.Keys), Over(b.Keys, turns));
    OverCleanIff(b.Keys, turns);
    forall name | name in b.Keys
      ensures Clean(turns(name)) <==> name in c && SchemaKept(s.bdoc, s.cdoc, b[name], c[name], Output, s.depth)
    {
      assert turns(name) == OneComponent(s, b, c, name);
      if name in c {
        SchemaCleanIff(s.bdoc, s.cdoc, b[name], c[name], "component schema " + name, Output, s.depth);
      } else {
        ReportIsNotClean(Violation(name, Gone("component schema")), false);
      }
    }
  }

  /** A comparison that runs to the end finds nothing in the compared parts exactly when the candidate
      keeps everything the baseline promised. */
  lemma DocumentCleanIff(s: Scope)
    requires s.bdoc.Obj? && s.cdoc.Obj? && DocumentOutcome(s).Done?
    ensures DocumentOutcome(s).violations == {} <==> DocumentKept(s.bdoc, s.cdoc, s.depth)
  {
    var operations := OperationsOutcome(s, OperationsOf(s.bdoc), OperationsOf(s.cdoc));
    var components := ComponentsOutcome(s, SchemasOf(s.bdoc), SchemasOf(s.cdoc));
    PlusCleanIff(operations, components);
    OperationsCleanIff(s, OperationsOf(s.bdoc), OperationsOf(s.cdoc));
    ComponentsCleanIff(s, SchemasOf(s.bdoc), SchemasOf(s.cdoc));
  }

  // ---------------------------------------------------------------------------------------
  // How a document is read

  predicate IsVerb(verb: string) {
    || verb == "get" || verb == "put" || verb == "post" || verb == "delete"
    || verb == "options" || verb == "head" || verb == "patch" || verb == "trace"
  }

  /** The operations of a document: the objects under the eight verbs of its paths (section 4.7.9 of
      OpenAPI 3.0.3). */
  lemma OperationsRead(document: Json, path: string, verb: string)
    requires document.Obj?
    ensures
      var id := OperationId(path, verb);
      id in OperationsOf(document) <==>
        && IsVerb(verb)
        && Descend(document, ["paths", path, verb]).Some?
        && Descend(document, ["paths", path, verb]).value.Obj?
    ensures
      var id := OperationId(path, verb);
      id in OperationsOf(document) ==> Some(OperationsOf(document)[id]) == Descend(document, ["paths", path, verb])
  {
    VerbsAreThose(verb);
    DescendThree(document, "paths", path, verb);
  }

  lemma VerbsAreThose(verb: string)
    ensures verb in HTTP_METHODS <==> IsVerb(verb)
  {
  }

  lemma DescendThree(j: Json, a: string, b: string, c: string)
    ensures Descend(j, [a, b, c]) ==
            if j.Obj? && a in j.fields && j.fields[a].Obj? && b in j.fields[a].fields
               && j.fields[a].fields[b].Obj? && c in j.fields[a].fields[b].fields
            then Some(j.fields[a].fields[b].fields[c]) else None
  {
    assert [a, b, c][1..] == [b, c] && [b, c][1..] == [c] && [c][1..] == [];
    if j.Obj? && a in j.fields {
      var second := j.fields[a];
      assert Descend(j, [a, b, c]) == Descend(second, [b, c]);
      if second.Obj? && b in second.fields {
        var third := second.fields[b];
        assert Descend(second, [b, c]) == Descend(third, [c]);
        if third.Obj? && c in third.fields {
          assert Descend(third, [c]) == Descend(third.fields[c], []);
        }
      }
    }
  }

  /** The components: the objects under components and schemas (section 4.7.7 of OpenAPI 3.0.3). */
  lemma SchemasRead(document: Json, name: string)
    requires document.Obj?
    ensures name in SchemasOf(document) <==>
            && Descend(document, ["components", "schemas", name]).Some?
            && Descend(document, ["components", "schemas", name]).value.Obj?
    ensures name in SchemasOf(document) ==>
              Some(SchemasOf(document)[name]) == Descend(document, ["components", "schemas", name])
  {
    DescendThree(document, "components", "schemas", name);
  }

  predicate NamesParameter(values: seq<Json>, i: nat, id: ParameterId) {
    i < |values| && IsParameter(values[i]) && IdOf(values[i]) == id
  }

  /** A list of parameters is read by place and name, and the last of one identity counts. */
  lemma {:induction false} ParametersRead(values: seq<Json>, id: ParameterId)
    ensures id in ParameterMap(values) <==> exists i: nat :: i < |values| && NamesParameter(values, i, id)
    ensures id in ParameterMap(values) ==>
              exists i: nat :: i < |values| && NamesParameter(values, i, id) && ParameterMap(values)[id] == values[i] &&
                forall j: nat :: i < j < |values| ==> !NamesParameter(values, j, id)
  {
    if values != [] {
      var n := |values| - 1;
      var front := values[..n];
      ParametersRead(front, id);
      assert forall i: nat :: i < n ==> (NamesParameter(front, i, id) <==> NamesParameter(values, i, id));
      if NamesParameter(values, n, id) {
        assert ParameterMap(values)[id] == values[n];
      } else if id in ParameterMap(front) {
        var i: nat :| i < |front| && NamesParameter(front, i, id) && ParameterMap(front)[id] == front[i] &&
          forall j: nat :: i < j < |front| ==> !NamesParameter(front, j, id);
        assert NamesParameter(values, i, id) && ParameterMap(values)[id] == values[i];
      }
    }
  }

  /** Names that differ in case alone are one parameter, and only those. */
  lemma IdentityIgnoresCase(p: Json, q: Json)
    requires IsParameter(p) && IsParameter(q)
    ensures IdOf(p) == IdOf(q) <==>
            && Lookup(p, "in") == Lookup(q, "in")
            && var a, b := Lookup(p, "name").text, Lookup(q, "name").text;
               |a| == |b| && forall i :: 0 <= i < |a| ==> SameLetter(a[i], b[i])
  {
    var a, b := Lookup(p, "name").text, Lookup(q, "name").text;
    if |a| == |b| && forall i :: 0 <= i < |a| ==> SameLetter(a[i], b[i]) {
      assert Lower(a) == Lower(b);
    }
    if Lower(a) == Lower(b) {
      assert |Lower(a)| == |a| && |Lower(b)| == |b|;
      assert forall i :: 0 <= i < |a| ==> Lower(a)[i] == LowerChar(a[i]) && Lower(b)[i] == LowerChar(b[i]);
    }
  }

  predicate SameLetter(c: char, d: char) {
    || c == d
    || ('A' <= c <= 'Z' && d as int == c as int + 32)
    || ('A' <= d <= 'Z' && c as int == d as int + 32)
  }
}
