/** The document comparison as the checker runs it: loops that append to one shared report and
    carry a `changed` flag. Every method is proved against its outcome. A result of None is a
    raised exception. */
module ContractCheck {
  import opened Base
  import opened Json
  import opened SchemaCompat
  import opened ContractOutcomes

  /** A method that started with `before` reported, has reported what `o` says and returned its flag. */
  ghost predicate Agrees(o: Outcome, changed: Option<bool>, before: set<Violation>, after: set<Violation>) {
    && (o.Aborted? <==> changed.None?)
    && (o.Done? ==> changed == Some(o.changed) && after == before + o.violations)
  }

  /** Two comparisons in a row. */
  lemma Then(o: Outcome, f: bool, p: Outcome, g: Option<bool>, v0: set<Violation>, v1: set<Violation>, v2: set<Violation>)
    requires Agrees(o, Some(f), v0, v1) && Agrees(p, g, v1, v2)
    ensures Agrees(Plus(o, p), if g.Some? then Some(f || g.value) else None, v0, v2)
  {
  }

  /** One more turn of a loop. */
  lemma Turn<K(!new)>(
    o: Outcome, keys: set<K>, done: set<K>, k: K, turns: K -> Outcome, flag: bool, turn: Option<bool>,
    v0: set<Violation>, v1: set<Violation>, v2: set<Violation>)
    requires done <= keys && k in keys
    requires Agrees(Plus(o, Over(done, turns)), Some(flag), v0, v1) && Agrees(turns(k), turn, v1, v2)
    ensures turn.Some? ==> Agrees(Plus(o, Over(done + {k}, turns)), Some(flag || turn.value), v0, v2)
    ensures turn.None? ==> Plus(o, Over(keys, turns)).Aborted?
  {
    OverStep(done, k, turns);
  }

  method CompareSchemas(
    s: Scope, b: Json, c: Json, location: string, direction: Direction, report: Report) returns (changed: Option<bool>)
    modifies report
    ensures Agrees(SchemaOutcome(s.bdoc, s.cdoc, b, c, location, direction, s.depth), changed,
                   old(report.violations), report.violations)
  {
    changed := CompareSchema(s.bdoc, s.cdoc, b, c, location, direction, s.depth, report);
  }

  method CompareMedia(s: Scope, b: Json, c: Json, media: string, report: Report) returns (changed: Option<bool>)
    requires b.Obj? && c.Obj? && media in b.fields
    modifies report
    ensures Agrees(MediaTurns(s, b, c)(media), changed, old(report.violations), report.violations)
  {
    var newMedia := Lookup(c, media);
    if !newMedia.Obj? {
      report.AddIf(true, s.location, Gone(media));
      return Some(false);
    }
    if !b.fields[media].Obj? {
      return Some(false);
    }
    changed := CompareSchemas(s, LookupObj(b.fields[media], "schema"), LookupObj(newMedia, "schema"),
                              s.location + " " + media, s.direction, report);
  }

  method CompareContent(s: Scope, b: Json, c: Json, report: Report) returns (changed: Option<bool>)
    modifies report
    ensures Agrees(ContentOutcome(s, b, c), changed, old(report.violations), report.violations)
  {
    if !b.Obj? || !c.Obj? {
      return Some(true);
    }
    ghost var turns, done := MediaTurns(s, b, c), {};
    var flag := b.fields.Keys != c.fields.Keys;
    ghost var first := flag;
    var todo := b.fields.Keys;
    OverNothing(turns);
    while todo != {}
      invariant done <= b.fields.Keys && todo == b.fields.Keys - done
      invariant Agrees(Plus(ChangedIf(first), Over(done, turns)), Some(flag), old(report.violations), report.violations)
    {
      var media :| media in todo;
      ghost var sofar := report.violations;
      var turn := CompareMedia(s, b, c, media, report);
      Turn(ChangedIf(first), b.fields.Keys, done, media, turns, flag, turn,
           old(report.violations), sofar, report.violations);
      if turn.None? {
        return None;
      }
      todo, done := todo - {media}, done + {media};
      flag := flag || turn.value;
    }
    assert done == b.fields.Keys;
    return Some(flag);
  }

  method CompareRequestBody(s: Scope, b: Json, c: Json, report: Report) returns (changed: Option<bool>)
    requires b.Obj? && c.Obj?
    modifies report
    ensures Agrees(RequestOutcome(s, b, c), changed, old(report.violations), report.violations)
  {
    var oldBody := Resolve(s.bdoc, Lookup(b, "requestBody"));
    var newBody := Resolve(s.cdoc, Lookup(c, "requestBody"));
    if oldBody.Null? && newBody.Null? {
      return Some(false);
    }
    if newBody.Null? {
      report.AddIf(true, s.location, Gone("request body"));
      return Some(true);
    }
    if oldBody.Null? && newBody.Obj? {
      report.AddIf(Lookup(newBody, "required") == Bool(true), s.location, NowRequired("request body"));
      return Some(true);
    }
    if !oldBody.Obj? || !newBody.Obj? {
      return None;
    }
    var flag := Lookup(oldBody, "required") != Lookup(newBody, "required");
    report.AddIf(Lookup(oldBody, "required") != Bool(true) && Lookup(newBody, "required") == Bool(true),
                 s.location, NowRequired("request body"));
    var content := CompareContent(s, LookupObj(oldBody, "content"), LookupObj(newBody, "content"), report);
    if content.None? {
      return None;
    }
    return Some(flag || content.value);
  }

  method CompareStatus(s: Scope, b: Json, c: Json, status: string, report: Report) returns (changed: Option<bool>)
    requires b.Obj? && c.Obj? && status in b.fields
    modifies report
    ensures Agrees(StatusTurns(s, b, c)(status), changed, old(report.violations), report.violations)
  {
    if status !in c.fields {
      report.AddIf(true, s.location, Gone(status));
      return Some(false);
    }
    var oldResponse := Resolve(s.bdoc, b.fields[status]);
    var newResponse := Resolve(s.cdoc, c.fields[status]);
    if !oldResponse.Obj? || !newResponse.Obj? {
      return Some(oldResponse != newResponse);
    }
    changed := CompareContent(s.(location := s.location + " " + status),
                              LookupObj(oldResponse, "content"), LookupObj(newResponse, "content"), report);
  }

  method CompareStatuses(s: Scope, b: Json, c: Json, report: Report) returns (changed: Option<bool>)
    requires b.Obj? && c.Obj?
    modifies report
    ensures Agrees(Plus(ChangedIf(b.fields.Keys != c.fields.Keys), Over(b.fields.Keys, StatusTurns(s, b, c))), changed,
                   old(report.violations), report.violations)
  {
    ghost var turns, done := StatusTurns(s, b, c), {};
    var flag := b.fields.Keys != c.fields.Keys;
    ghost var first := flag;
    var todo := b.fields.Keys;
    OverNothing(turns);
    while todo != {}
      invariant done <= b.fields.Keys && todo == b.fields.Keys - done
      invariant Agrees(Plus(ChangedIf(first), Over(done, turns)), Some(flag), old(report.violations), report.violations)
    {
      var status :| status in todo;
      ghost var sofar := report.violations;
      var turn := CompareStatus(s, b, c, status, report);
      Turn(ChangedIf(first), b.fields.Keys, done, status, turns, flag, turn,
           old(report.violations), sofar, report.violations);
      if turn.None? {
        return None;
      }
      todo, done := todo - {status}, done + {status};
      flag := flag || turn.value;
    }
    assert done == b.fields.Keys;
    return Some(flag);
  }

  method CompareResponses(s: Scope, b: Json, c: Json, report: Report) returns (changed: Option<bool>)
    requires b.Obj? && c.Obj?
    modifies report
    ensures Agrees(ResponsesOutcome(s, b, c), changed, old(report.violations), report.violations)
  {
    var was, now := LookupObj(b, "responses"), LookupObj(c, "responses");
    if !was.Obj? || !now.Obj? {
      return Some(true);
    }
    changed := CompareStatuses(s, was, now, report);
  }

  /** _parameters. */
  method CollectParameters(operation: Json) returns (r: map<ParameterId, Json>)
    requires operation.Obj?
    ensures r == ParametersOf(operation)
  {
    r := map[];
    if "parameters" !in operation.fields || !operation.fields["parameters"].Arr? {
      return;
    }
    var values := operation.fields["parameters"].items;
    for n := 0 to |values|
      invariant r == ParameterMap(values[..n])
    {
      assert values[..n + 1][..n] == values[..n];
      if IsParameter(values[n]) {
        r := r[IdOf(values[n]) := values[n]];
      }
    }
    assert values[..|values|] == values;
  }

  method CompareParameter(
    s: Scope, b: map<ParameterId, Json>, c: map<ParameterId, Json>, id: ParameterId, report: Report)
    returns (changed: Option<bool>)
    requires id in b && b[id].Obj?
    requires id in c ==> c[id].Obj?
    modifies report
    ensures Agrees(KeptTurns(s, b, c)(id), changed, old(report.violations), report.violations)
  {
    if id !in c {
      report.AddIf(true, s.location, Gone(id.place + " " + id.name));
      return Some(false);
    }
    changed := CompareSchemas(s, LookupObj(b[id], "schema"), LookupObj(c[id], "schema"),
                              s.location + " parameter " + id.name, Input, report);
  }

  method CompareKept(
    s: Scope, b: map<ParameterId, Json>, c: map<ParameterId, Json>, report: Report) returns (changed: Option<bool>)
    requires forall id :: id in b ==> b[id].Obj?
    requires forall id :: id in c ==> c[id].Obj?
    modifies report
    ensures Agrees(Plus(ChangedIf(b.Keys != c.Keys), Over(b.Keys, KeptTurns(s, b, c))), changed,
                   old(report.violations), report.violations)
  {
    ghost var turns, done := KeptTurns(s, b, c), {};
    var flag := b.Keys != c.Keys;
    ghost var first := flag;
    var todo := b.Keys;
    OverNothing(turns);
    while todo != {}
      invariant done <= b.Keys && todo == b.Keys - done
      invariant Agrees(Plus(ChangedIf(first), Over(done, turns)), Some(flag), old(report.violations), report.violations)
    {
      var id :| id in todo;
      ghost var sofar := report.violations;
      var turn := CompareParameter(s, b, c, id, report);
      Turn(ChangedIf(first), b.Keys, done, id, turns, flag, turn, old(report.violations), sofar, report.violations);
      if turn.None? {
        return None;
      }
      todo, done := todo - {id}, done + {id};
      flag := flag || turn.value;
    }
    assert done == b.Keys;
    return Some(flag);
  }

  method ReportAdded(s: Scope, b: map<ParameterId, Json>, c: map<ParameterId, Json>, report: Report)
    requires forall id :: id in c ==> c[id].Obj?
    modifies report
    ensures Agrees(Over(c.Keys, AddedTurns(s, b, c)), Some(false), old(report.violations), report.violations)
  {
    ghost var turns, done := AddedTurns(s, b, c), {};
    var todo := c.Keys;
    OverNothing(turns);
    while todo != {}
      invariant done <= c.Keys && todo == c.Keys - done
      invariant Agrees(Over(done, turns), Some(false), old(report.violations), report.violations)
    {
      var id :| id in todo;
      OverStep(done, id, turns);
      report.AddIf(id !in b && Lookup(c[id], "required") == Bool(true), s.location, NowRequired(id.place + " " + id.name));
      todo, done := todo - {id}, done + {id};
    }
    assert done == c.Keys;
  }

  method CompareParameters(s: Scope, b: Json, c: Json, report: Report) returns (changed: Option<bool>)
    requires b.Obj? && c.Obj?
    modifies report
    ensures Agrees(ParametersOutcome(s, ParametersOf(b), ParametersOf(c)), changed, old(report.violations), report.violations)
  {
    var was := CollectParameters(b);
    var now := CollectParameters(c);
    changed := CompareKept(s, was, now, report);
    if changed.Some? {
      ReportAdded(s, was, now, report);
    }
  }

  method CompareSecurity(s: Scope, b: Json, c: Json, report: Report) returns (changed: bool)
    requires b.Obj? && c.Obj?
    modifies report
    ensures Agrees(Plus(SecurityOutcome(s, b, c), ChangedIf(Lookup(b, "deprecated") != Lookup(c, "deprecated"))),
                   Some(changed), old(report.violations), report.violations)
  {
    changed := false;
    if Lookup(b, "security") != Lookup(c, "security") {
      changed := true;
      report.AddIf(Lookup(b, "security") == Arr([]) && Lookup(c, "security") != Arr([]), s.location, NowAuthenticated);
    }
    if Lookup(b, "deprecated") != Lookup(c, "deprecated") {
      changed := true;
    }
  }

  method CompareOperation(s: Scope, b: Json, c: Json, report: Report) returns (changed: Option<bool>)
    requires b.Obj? && c.Obj?
    modifies report
    ensures Agrees(OperationOutcome(s, b, c), changed, old(report.violations), report.violations)
  {
    ghost var v0 := report.violations;
    var parameters := CompareParameters(s, b, c, report);
    if parameters.None? {
      return None;
    }
    ghost var v1 := report.violations;
    ghost var p := ParametersOutcome(s, ParametersOf(b), ParametersOf(c));
    var request := CompareRequestBody(s.(direction := Input), b, c, report);
    ghost var v2, q := report.violations, RequestOutcome(s.(direction := Input), b, c);
    Then(p, parameters.value, q, request, v0, v1, v2);
    if request.None? {
      return None;
    }
    var responses := CompareResponses(s.(direction := Output), b, c, report);
    ghost var v3, r := report.violations, ResponsesOutcome(s.(direction := Output), b, c);
    Then(Plus(p, q), parameters.value || request.value, r, responses, v0, v2, v3);
    if responses.None? {
      return None;
    }
    var flag := parameters.value || request.value || responses.value;
    var rest := CompareSecurity(s, b, c, report);
    Then(Plus(Plus(p, q), r), flag,
         Plus(SecurityOutcome(s, b, c), ChangedIf(Lookup(b, "deprecated") != Lookup(c, "deprecated"))),
         Some(rest), v0, v3, report.violations);
    return Some(flag || rest);
  }

  method CompareOneOperation(
    s: Scope, b: map<OperationId, Json>, c: map<OperationId, Json>, id: OperationId, report: Report)
    returns (changed: Option<bool>)
    requires id in b && b[id].Obj?
    requires id in c ==> c[id].Obj?
    modifies report
    ensures Agrees(OperationTurns(s, b, c)(id), changed, old(report.violations), report.violations)
  {
    if id !in c {
      report.AddIf(true, LocationOf(id), Gone("operation"));
      return Some(false);
    }
    changed := CompareOperation(s.(location := LocationOf(id)), b[id], c[id], report);
  }

  method CompareOperations(
    s: Scope, b: map<OperationId, Json>, c: map<OperationId, Json>, report: Report) returns (changed: Option<bool>)
    requires forall id :: id in b ==> b[id].Obj?
    requires forall id :: id in c ==> c[id].Obj?
    modifies report
    ensures Agrees(OperationsOutcome(s, b, c), changed, old(report.violations), report.violations)
  {
    ghost var turns, done := OperationTurns(s, b, c), {};
    var flag := b.Keys != c.Keys;
    ghost var first := flag;
    var todo := b.Keys;
    OverNothing(turns);
    while todo != {}
      invariant done <= b.Keys && todo == b.Keys - done
      invariant Agrees(Plus(ChangedIf(first), Over(done, turns)), Some(flag), old(report.violations), report.violations)
    {
      var id :| id in todo;
      ghost var sofar := report.violations;
      var turn := CompareOneOperation(s, b, c, id, report);
      Turn(ChangedIf(first), b.Keys, done, id, turns, flag, turn, old(report.violations), sofar, report.violations);
      if turn.None? {
        return None;
      }
      todo, done := todo - {id}, done + {id};
      flag := flag || turn.value;
    }
    assert done == b.Keys;
    return Some(flag);
  }

  method CompareComponent(
    s: Scope, b: map<string, Json>, c: map<string, Json>, name: string, report: Report)
    returns (changed: Option<bool>)
    requires name in b
    modifies report
    ensures Agrees(ComponentTurns(s, b, c)(name), changed, old(report.violations), report.violations)
  {
    if name !in c {
      report.AddIf(true, name, Gone("component schema"));
      return Some(false);
    }
    changed := CompareSchemas(s, b[name], c[name], "component schema " + name, Output, report);
  }

  method CompareComponentSchemas(
    s: Scope, b: map<string, Json>, c: map<string, Json>, report: Report) returns (changed: Option<bool>)
    modifies report
    ensures Agrees(ComponentsOutcome(s, b, c), changed, old(report.violations), report.violations)
  {
    ghost var turns, done := ComponentTurns(s, b, c), {};
    var flag := b.Keys != c.Keys;
    ghost var first := flag;
    var todo := b.Keys;
    OverNothing(turns);
    while todo != {}
      invariant done <= b.Keys && todo == b.Keys - done
      invariant Agrees(Plus(ChangedIf(first), Over(done, turns)), Some(flag), old(report.violations), report.violations)
    {
      var name :| name in todo;
      ghost var sofar := report.violations;
      var turn := CompareComponent(s, b, c, name, report);
      Turn(ChangedIf(first), b.Keys, done, name, turns, flag, turn, old(report.violations), sofar, report.violations);
      if turn.None? {
        return None;
      }
      todo, done := todo - {name}, done + {name};
      flag := flag || turn.value;
    }
    assert done == b.Keys;
    return Some(flag);
  }

  /** compare_contracts. */
  method CompareContracts(checked: set<Violation>, baseline: Json, candidate: Json, depth: nat)
    returns (r: Findings)
    requires baseline.Obj? && candidate.Obj?
    ensures r == ContractFindings(checked, baseline, candidate, depth)
  {
    var report := new Report();
    var b, c := VersionOf(baseline), VersionOf(candidate);
    var s := Scope(baseline, candidate, "", Output, depth);
    var operations := CompareOperations(s, OperationsOf(baseline), OperationsOf(candidate), report);
    if operations.None? {
      return Raised;
    }
    ghost var v1 := report.violations;
    var components := CompareComponentSchemas(s, SchemasOf(baseline), SchemasOf(candidate), report);
    Then(OperationsOutcome(s, OperationsOf(baseline), OperationsOf(candidate)), operations.value,
         ComponentsOutcome(s, SchemasOf(baseline), SchemasOf(candidate)), components, {}, v1, report.violations);
    if components.None? {
      return Raised;
    }
    var semanticChange := operations.value || components.value;
    return Found(checked + VersionFindings(b, c) + report.violations +
                 OneIf(semanticChange && b.Some? && c.Some? && !Newer(c.value, b.value), "contract version", VersionNotRaised));
  }
}
