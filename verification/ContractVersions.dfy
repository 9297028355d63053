/** Version discipline: what an empty report says about two documents. */
module ContractVersions {
  import opened Base
  import opened Json
  import opened AclText
  import opened SchemaCompat
  import opened ContractOutcomes
  import opened ContractMeaning

  ghost predicate SameSchema(bdoc: Json, cdoc: Json, b: Json, c: Json) {
    Resolved(bdoc, b) == Resolved(cdoc, c)
  }

  ghost predicate SameMedia(bdoc: Json, cdoc: Json, b: Json, c: Json) {
    b.Obj? && c.Obj? ==> SameSchema(bdoc, cdoc, LookupObj(b, "schema"), LookupObj(c, "schema"))
  }

  ghost predicate SameContent(bdoc: Json, cdoc: Json, b: Json, c: Json) {
    && b.Obj? && c.Obj?
    && b.fields.Keys == c.fields.Keys
    && forall media :: media in b.fields ==> SameMedia(bdoc, cdoc, b.fields[media], Lookup(c, media))
  }

  ghost predicate SameBody(bdoc: Json, cdoc: Json, b: Json, c: Json) {
    || (b.Null? && c.Null?)
    || (&& b.Obj? && c.Obj?
        && Lookup(b, "required") == Lookup(c, "required")
        && SameContent(bdoc, cdoc, LookupObj(b, "content"), LookupObj(c, "content")))
  }

  ghost predicate SameResponse(bdoc: Json, cdoc: Json, b: Json, c: Json) {
    if b.Obj? && c.Obj? then SameContent(bdoc, cdoc, LookupObj(b, "content"), LookupObj(c, "content")) else b == c
  }

  ghost predicate SameResponses(bdoc: Json, cdoc: Json, b: Json, c: Json) {
    && b.Obj? && c.Obj?
    && b.fields.Keys == c.fields.Keys
    && forall status :: status in b.fields ==>
         SameResponse(bdoc, cdoc, Resolved(bdoc, b.fields[status]), Resolved(cdoc, Lookup(c, status)))
  }

  ghost predicate SameParameter(bdoc: Json, cdoc: Json, b: Json, c: Json) {
    b.Obj? && c.Obj? && SameSchema(bdoc, cdoc, LookupObj(b, "schema"), LookupObj(c, "schema"))
  }

  ghost predicate SameParameters(bdoc: Json, cdoc: Json, b: map<ParameterId, Json>, c: map<ParameterId, Json>) {
    b.Keys == c.Keys && forall id :: id in b ==> SameParameter(bdoc, cdoc, b[id], c[id])
  }

  ghost predicate SameOperation(bdoc: Json, cdoc: Json, b: Json, c: Json) {
    && b.Obj? && c.Obj?
    && SameParameters(bdoc, cdoc, ParametersOf(b), ParametersOf(c))
    && SameBody(bdoc, cdoc, Resolved(bdoc, Lookup(b, "requestBody")), Resolved(cdoc, Lookup(c, "requestBody")))
    && SameResponses(bdoc, cdoc, LookupObj(b, "responses"), LookupObj(c, "responses"))
    && Lookup(b, "security") == Lookup(c, "security")
    && Lookup(b, "deprecated") == Lookup(c, "deprecated")
  }

  ghost predicate SameOperations(bdoc: Json, cdoc: Json, b: map<OperationId, Json>, c: map<OperationId, Json>) {
    b.Keys == c.Keys && forall id :: id in b ==> SameOperation(bdoc, cdoc, b[id], c[id])
  }

  ghost predicate SameComponents(bdoc: Json, cdoc: Json, b: map<string, Json>, c: map<string, Json>) {
    b.Keys == c.Keys && forall name :: name in b ==> SameSchema(bdoc, cdoc, b[name], c[name])
  }

  /** The two documents say the same: the same operations, each with the same parameters, bodies,
      statuses, media types, security and deprecation, the same components, and resolved-equal
      values wherever the checker compares two schemas. */
  ghost predicate SameDocuments(baseline: Json, candidate: Json)
    requires baseline.Obj? && candidate.Obj?
  {
    && SameOperations(baseline, candidate, OperationsOf(baseline), OperationsOf(candidate))
    && SameComponents(baseline, candidate, SchemasOf(baseline), SchemasOf(candidate))
  }

  // ---------------------------------------------------------------------------------------
  // The flag survives every loop: each comparison is changed exactly when its parts differ

  lemma ContentChangedIff(s: Scope, b: Json, c: Json)
    requires ContentOutcome(s, b, c).Done?
    ensures ContentOutcome(s, b, c).changed <==> !SameContent(s.bdoc, s.cdoc, b, c)
  {
    if b.Obj? && c.Obj? && b.fields.Keys == c.fields.Keys {
      var turns := MediaTurns(s, b, c);
      OverUnchanged(b.fields.Keys, turns);
      forall media | media in b.fields
        ensures turns(media).changed <==> !SameMedia(s.bdoc, s.cdoc, b.fields[media], Lookup(c, media))
      {
        assert turns(media) == MediaOutcome(s, b, c, media);
      }
    }
  }

  lemma BodyChangedIff(s: Scope, b: Json, c: Json)
    requires BodyOutcome(s, b, c).Done?
    ensures BodyOutcome(s, b, c).changed <==> !SameBody(s.bdoc, s.cdoc, b, c)
  {
    if b.Obj? && c.Obj? {
      ContentChangedIff(s, LookupObj(b, "content"), LookupObj(c, "content"));
    }
  }

  lemma StatusChangedIff(s: Scope, b: Json, c: Json, status: string)
    requires b.Obj? && c.Obj? && status in b.fields && status in c.fields
    requires StatusOutcome(s, b, c, status).Done?
    ensures StatusOutcome(s, b, c, status).changed <==>
            !SameResponse(s.bdoc, s.cdoc, Resolved(s.bdoc, b.fields[status]), Resolved(s.cdoc, Lookup(c, status)))
  {
    var was, now := Resolved(s.bdoc, b.fields[status]), Resolved(s.cdoc, c.fields[status]);
    if was.Obj? && now.Obj? {
      ContentChangedIff(s.(location := s.location + " " + status), LookupObj(was, "content"), LookupObj(now, "content"));
    }
  }

  lemma ResponsesChangedIff(s: Scope, b: Json, c: Json)
    requires b.Obj? && c.Obj? && ResponsesOutcome(s, b, c).Done?
    ensures ResponsesOutcome(s, b, c).changed <==>
            !SameResponses(s.bdoc, s.cdoc, LookupObj(b, "responses"), LookupObj(c, "responses"))
  {
    var was, now := LookupObj(b, "responses"), LookupObj(c, "responses");
    if was.Obj? && now.Obj? && was.fields.Keys == now.fields.Keys {
      var turns := StatusTurns(s, was, now);
      OverUnchanged(was.fields.Keys, turns);
      forall status | status in was.fields
        ensures turns(status).changed <==>
                !SameResponse(s.bdoc, s.cdoc, Resolved(s.bdoc, was.fields[status]), Resolved(s.cdoc, Lookup(now, status)))
      {
        assert turns(status) == StatusOutcome(s, was, now, status);
        StatusChangedIff(s, was, now, status);
      }
    }
  }

  lemma ParametersChangedIff(s: Scope, b: map<ParameterId, Json>, c: map<ParameterId, Json>)
    requires forall id :: id in b ==> b[id].Obj?
    requires forall id :: id in c ==> c[id].Obj?
    requires ParametersOutcome(s, b, c).Done?
    ensures ParametersOutcome(s, b, c).changed <==> !SameParameters(s.bdoc, s.cdoc, b, c)
  {
    var kept, added := KeptTurns(s, b, c), AddedTurns(s, b, c);
    OverUnchanged(b.Keys, kept);
    OverUnchanged(c.Keys, added);
    assert !Over(c.Keys, added).changed by {
      assert forall id :: added(id) == AddedParameter(s, b, c, id);
    }
    if b.Keys == c.Keys {
      forall id | id in b
        ensures kept(id).changed <==> !SameParameter(s.bdoc, s.cdoc, b[id], c[id])
      {
        assert kept(id) == KeptParameter(s, b, c, id);
        assert id in c.Keys;
      }
    }
  }

  lemma OperationChangedIff(s: Scope, b: Json, c: Json)
    requires b.Obj? && c.Obj? && OperationOutcome(s, b, c).Done?
    ensures OperationOutcome(s, b, c).changed <==> !SameOperation(s.bdoc, s.cdoc, b, c)
  {
    ParametersChangedIff(s, ParametersOf(b), ParametersOf(c));
    var i, o := s.(direction := Input), s.(direction := Output);
    var was, now := Resolved(s.bdoc, Lookup(b, "requestBody")), Resolved(s.cdoc, Lookup(c, "requestBody"));
    BodyChangedIff(i, was, now);
    ResponsesChangedIff(o, b, c);
  }

  lemma OperationsChangedIff(s: Scope, b: map<OperationId, Json>, c: map<OperationId, Json>)
    requires forall id :: id in b ==> b[id].Obj?
    requires forall id :: id in c ==> c[id].Obj?
    requires OperationsOutcome(s, b, c).Done?
    ensures OperationsOutcome(s, b, c).changed <==> !SameOperations(s.bdoc, s.cdoc, b, c)
  {
    if b.Keys == c.Keys {
      var turns := OperationTurns(s, b, c);
      OverUnchanged(b.Keys, turns);
      forall id | id in b
        ensures turns(id).changed <==> !SameOperation(s.bdoc, s.cdoc, b[id], c[id])
      {
        assert id in c.Keys && turns(id) == OneOperation(s, b, c, id);
        OperationChangedIff(s.(location := LocationOf(id)), b[id], c[id]);
      }
    }
  }

  lemma ComponentsChangedIff(s: Scope, b: map<string, Json>, c: map<string, Json>)
    requires ComponentsOutcome(s, b, c).Done?
    ensures ComponentsOutcome(s, b, c).changed <==> !SameComponents(s.bdoc, s.cdoc, b, c)
  {
    if b.Keys == c.Keys {
      var turns := ComponentTurns(s, b, c);
      OverUnchanged(b.Keys, turns);
      forall name | name in b
        ensures turns(name).changed <==> !SameSchema(s.bdoc, s.cdoc, b[name], c[name])
      {
        assert name in c.Keys && turns(name) == OneComponent(s, b, c, name);
      }
    }
  }

  /** The whole comparison reports a semantic change exactly when the documents do not say the same. */
  lemma DocumentChangedIff(s: Scope)
    requires s.bdoc.Obj? && s.cdoc.Obj? && DocumentOutcome(s).Done?
    ensures DocumentOutcome(s).changed <==> !SameDocuments(s.bdoc, s.cdoc)
  {
    OperationsChangedIff(s, OperationsOf(s.bdoc), OperationsOf(s.cdoc));
    ComponentsChangedIff(s, SchemasOf(s.bdoc), SchemasOf(s.cdoc));
  }

  ghost predicate Raises(b: Option<Version>, c: Option<Version>) {
    b.Some? && c.Some? && Newer(c.value, b.value)
  }

  /** An empty report, exactly: a comparison that runs to the end reports nothing if and only if
      nothing is wrong with the candidate alone, it keeps everything the baseline promised, both
      versions are readable with one major number, and the candidate's version is newer, or equal
      for two documents that say the same. */
  lemma EmptyReportIff(checked: set<Violation>, baseline: Json, candidate: Json, depth: nat)
    requires baseline.Obj? && candidate.Obj?
    requires ContractFindings(checked, baseline, candidate, depth).Found?
    ensures
      var b, c := VersionOf(baseline), VersionOf(candidate);
      ContractFindings(checked, baseline, candidate, depth) == Found({}) <==>
        && checked == {}
        && DocumentKept(baseline, candidate, depth)
        && b.Some? && c.Some? && b.value.major == c.value.major
        && (Raises(b, c) || (b == c && SameDocuments(baseline, candidate)))
  {
    var s := Scope(baseline, candidate, "", Output, depth);
    var b, c := VersionOf(baseline), VersionOf(candidate);
    DocumentChangedIff(s);
    DocumentCleanIff(s);
    var versions := VersionFindings(b, c);
    VersionFindingsIff(b, c);
    var last := OneIf(DocumentOutcome(s).changed && b.Some? && c.Some? && !Newer(c.value, b.value),
                      "contract version", VersionNotRaised);
    assert last == {} <==> !(DocumentOutcome(s).changed && b.Some? && c.Some? && !Newer(c.value, b.value)) by {
      assert Violation("contract version", VersionNotRaised) in last || last == {};
    }
    assert checked + versions + DocumentOutcome(s).violations + last == {} <==>
           checked == {} && versions == {} && DocumentOutcome(s).violations == {} && last == {};
  }

  lemma VersionFindingsIff(b: Option<Version>, c: Option<Version>)
    ensures VersionFindings(b, c) == {} <==>
            b.Some? && c.Some? && b.value.major == c.value.major && !Newer(b.value, c.value)
  {
    var all := VersionFindings(b, c);
    assert b.None? ==> Violation("baseline info.version", BadVersion) in all;
    assert c.None? ==> Violation("candidate info.version", BadVersion) in all;
    if b.Some? && c.Some? {
      assert Newer(b.value, c.value) ==> Violation("contract version", VersionLowered) in all;
      assert b.value.major != c.value.major ==> Violation("contract version", MajorChanged) in all;
    }
  }

  /** In particular, an empty report for documents of equal version means they say the same. */
  lemma EqualVersionsSameDocuments(checked: set<Violation>, baseline: Json, candidate: Json, depth: nat)
    requires baseline.Obj? && candidate.Obj?
    requires ContractFindings(checked, baseline, candidate, depth) == Found({})
    requires VersionOf(baseline) == VersionOf(candidate)
    ensures SameDocuments(baseline, candidate)
  {
    EmptyReportIff(checked, baseline, candidate, depth);
  }

  // ---------------------------------------------------------------------------------------
  // Versions

  function VersionText(v: Version): (r: string) {
    Decimal(v.major) + "." + (Decimal(v.minor) + "." + Decimal(v.patch))
  }

  /** A version is read back from its text, each number in its own place. */
  lemma VersionReadsBack(v: Version)
    ensures ParseVersion(Str(VersionText(v))) == Some(v)
  {
    DecimalReadsBack(v.major);
    DecimalReadsBack(v.minor);
    DecimalReadsBack(v.patch);
    var major, minor, patch := Decimal(v.major), Decimal(v.minor), Decimal(v.patch);
    SplitAtFirst(major, minor + "." + patch, '.');
    SplitAtFirst(minor, patch, '.');
    SplitWhole(patch, '.');
    assert VersionText(v) == major + ['.'] + (minor + ['.'] + patch);
    assert Split(VersionText(v), '.') == [major, minor, patch];
  }

  /** Versions are ordered, the major number first, then the minor, then the patch: of two versions
      exactly one is newer unless they are equal. */
  lemma NewerIsAnOrder(a: Version, b: Version)
    ensures a.major > b.major ==> Newer(a, b)
    ensures a.major == b.major && a.minor > b.minor ==> Newer(a, b)
    ensures a.major == b.major && a.minor == b.minor && a.patch > b.patch ==> Newer(a, b)
    ensures !Newer(a, b) && !Newer(b, a) <==> a == b
    ensures !(Newer(a, b) && Newer(b, a))
  {
  }
}
