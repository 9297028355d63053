/** The document comparison of tools/api-contract/check_contract.py above the schema level: what
    each part reports, and whether it counts as a semantic change. */
module ContractOutcomes {
  import opened Base
  import opened Text
  import opened Json
  import opened SchemaCompat

  /** What one comparison reports and whether it saw a change, or that it raised. */
  datatype Outcome = Aborted | Done(violations: set<Violation>, changed: bool)

  const SAME: Outcome := Done({}, false)

  function Plus(a: Outcome, b: Outcome): (r: Outcome) {
    if a.Aborted? || b.Aborted? then Aborted else Done(a.violations + b.violations, a.changed || b.changed)
  }

  function Reports(violations: set<Violation>): (r: Outcome) {
    Done(violations, false)
  }

  function ChangedIf(condition: bool): (r: Outcome) {
    Done({}, condition)
  }

  /** A loop over keys: it raises if any turn does, and otherwise reports what any turn reports and
      has changed if any turn has. */
  ghost function Over<K(!new)>(keys: set<K>, turn: K -> Outcome): (r: Outcome) {
    if exists k :: k in keys && turn(k).Aborted? then Aborted
    else
      Done(set k, v | k in keys && turn(k).Done? && v in turn(k).violations :: v,
           exists k :: k in keys && turn(k).Done? && turn(k).changed)
  }

  lemma OverNothing<K(!new)>(turn: K -> Outcome)
    ensures Over({}, turn) == SAME
  {
    var none := Over({}, turn);
    assert none.Done? && none.violations == {};
  }

  lemma OverStep<K(!new)>(keys: set<K>, k: K, turn: K -> Outcome)
    ensures Over(keys + {k}, turn) == Plus(Over(keys, turn), turn(k))
  {
    var more, less := Over(keys + {k}, turn), Over(keys, turn);
    if less.Done? && turn(k).Done? {
      assert more.Done?;
      assert more.violations == less.violations + turn(k).violations;
    }
  }

  lemma OverUnchanged<K(!new)>(keys: set<K>, turn: K -> Outcome)
    requires Over(keys, turn).Done?
    ensures Over(keys, turn).changed <==> exists k :: k in keys && turn(k).Done? && turn(k).changed
    ensures forall k :: k in keys ==> turn(k).Done? && turn(k).violations <= Over(keys, turn).violations
  {
  }

  // ---------------------------------------------------------------------------------------
  // Schemas and contents

  ghost function SchemaOutcome(
    bdoc: Json, cdoc: Json, b: Json, c: Json, location: string, direction: Direction, depth: nat): (r: Outcome)
  {
    match SchemaFindings(bdoc, cdoc, b, c, location, direction, depth)
    case Raised => Aborted
    case Found(v) => Done(v, Resolved(bdoc, b) != Resolved(cdoc, c))
  }

  /** Where a comparison of contents stands: its documents, its place and its direction. */
  datatype Scope = Scope(bdoc: Json, cdoc: Json, location: string, direction: Direction, depth: nat)

  ghost function MediaOutcome(s: Scope, b: Json, c: Json, media: string): (r: Outcome)
    requires b.Obj? && c.Obj?
  {
    if media !in b.fields then SAME
    else if !Lookup(c, media).Obj? then Reports({Violation(s.location, Gone(media))})
    else if !b.fields[media].Obj? then SAME
    else
      SchemaOutcome(s.bdoc, s.cdoc, LookupObj(b.fields[media], "schema"), LookupObj(Lookup(c, media), "schema"),
                    s.location + " " + media, s.direction, s.depth)
  }

  ghost function MediaTurns(s: Scope, b: Json, c: Json): (r: string -> Outcome)
    requires b.Obj? && c.Obj?
  {
    (media: string) => MediaOutcome(s, b, c, media)
  }

  ghost function ContentOutcome(s: Scope, b: Json, c: Json): (r: Outcome) {
    if !b.Obj? || !c.Obj? then ChangedIf(true)
    else Plus(ChangedIf(b.fields.Keys != c.fields.Keys), Over(b.fields.Keys, MediaTurns(s, b, c)))
  }

  // ---------------------------------------------------------------------------------------
  // Request bodies and responses

  ghost function BodyOutcome(s: Scope, b: Json, c: Json): (r: Outcome) {
    if b.Null? && c.Null? then SAME
    else if c.Null? then Done({Violation(s.location, Gone("request body"))}, true)
    else if b.Null? && c.Obj? then
      Done(OneIf(Lookup(c, "required") == Bool(true), s.location, NowRequired("request body")), true)
    else if !b.Obj? || !c.Obj? then Aborted
    else
      Plus(Done(OneIf(Lookup(b, "required") != Bool(true) && Lookup(c, "required") == Bool(true),
                      s.location, NowRequired("request body")),
                Lookup(b, "required") != Lookup(c, "required")),
           ContentOutcome(s, LookupObj(b, "content"), LookupObj(c, "content")))
  }

  ghost function RequestOutcome(s: Scope, b: Json, c: Json): (r: Outcome)
    requires b.Obj? && c.Obj?
  {
    BodyOutcome(s, Resolved(s.bdoc, Lookup(b, "requestBody")), Resolved(s.cdoc, Lookup(c, "requestBody")))
  }

  ghost function StatusOutcome(s: Scope, b: Json, c: Json, status: string): (r: Outcome)
    requires b.Obj? && c.Obj?
  {
    if status !in b.fields then SAME
    else if status !in c.fields then Reports({Violation(s.location, Gone(status))})
    else
      var was := Resolved(s.bdoc, b.fields[status]);
      var now := Resolved(s.cdoc, c.fields[status]);
      if !was.Obj? || !now.Obj? then ChangedIf(was != now)
      else ContentOutcome(s.(location := s.location + " " + status), LookupObj(was, "content"), LookupObj(now, "content"))
  }

  ghost function StatusTurns(s: Scope, b: Json, c: Json): (r: string -> Outcome)
    requires b.Obj? && c.Obj?
  {
    (status: string) => StatusOutcome(s, b, c, status)
  }

  ghost function ResponsesOutcome(s: Scope, b: Json, c: Json): (r: Outcome)
    requires b.Obj? && c.Obj?
  {
    var was, now := LookupObj(b, "responses"), LookupObj(c, "responses");
    if !was.Obj? || !now.Obj? then ChangedIf(true)
    else Plus(ChangedIf(was.fields.Keys != now.fields.Keys), Over(was.fields.Keys, StatusTurns(s, was, now)))
  }

  // ---------------------------------------------------------------------------------------
  // Parameters

  function LowerChar(c: char): (r: char) {
    if 'A' <= c <= 'Z' then c + ('a' - 'A') else c
  }

  function Lower(s: string): (r: string) {
    seq(|s|, i requires 0 <= i < |s| => LowerChar(s[i]))
  }

  /** A parameter's identity: where it travels and its name without regard to case. */
  datatype ParameterId = ParameterId(place: string, name: string)

  predicate IsParameter(p: Json) {
    p.Obj? && Lookup(p, "in").Str? && Lookup(p, "name").Str?
  }

  function IdOf(p: Json): (r: ParameterId)
    requires IsParameter(p)
  {
    ParameterId(Lookup(p, "in").text, Lower(Lookup(p, "name").text))
  }

  /** The parameters of a list by identity; a later one replaces an earlier one. */
  function ParameterMap(values: seq<Json>): (r: map<ParameterId, Json>)
    ensures forall id :: id in r ==> IsParameter(r[id]) && IdOf(r[id]) == id
  {
    if values == [] then map[]
    else
      var before := ParameterMap(values[..|values| - 1]);
      var last := values[|values| - 1];
      if IsParameter(last) then before[IdOf(last) := last] else before
  }

  function ParametersOf(operation: Json): (r: map<ParameterId, Json>)
    requires operation.Obj?
    ensures forall id :: id in r ==> r[id].Obj?
  {
    if "parameters" in operation.fields && operation.fields["parameters"].Arr?
    then ParameterMap(operation.fields["parameters"].items)
    else map[]
  }

  ghost function KeptParameter(
    s: Scope, b: map<ParameterId, Json>, c: map<ParameterId, Json>, id: ParameterId): (r: Outcome)
  {
    if id !in b || !b[id].Obj? then SAME
    else if id !in c || !c[id].Obj? then Reports({Violation(s.location, Gone(id.place + " " + id.name))})
    else
      SchemaOutcome(s.bdoc, s.cdoc, LookupObj(b[id], "schema"), LookupObj(c[id], "schema"),
                    s.location + " parameter " + id.name, Input, s.depth)
  }

  ghost function AddedParameter(
    s: Scope, b: map<ParameterId, Json>, c: map<ParameterId, Json>, id: ParameterId): (r: Outcome)
  {
    Reports(OneIf(id in c && id !in b && c[id].Obj? && Lookup(c[id], "required") == Bool(true),
                 s.location, NowRequired(id.place + " " + id.name)))
  }

  ghost function KeptTurns(s: Scope, b: map<ParameterId, Json>, c: map<ParameterId, Json>): (r: ParameterId -> Outcome) {
    (id: ParameterId) => KeptParameter(s, b, c, id)
  }

  ghost function AddedTurns(s: Scope, b: map<ParameterId, Json>, c: map<ParameterId, Json>): (r: ParameterId -> Outcome) {
    (id: ParameterId) => AddedParameter(s, b, c, id)
  }

  ghost function ParametersOutcome(s: Scope, b: map<ParameterId, Json>, c: map<ParameterId, Json>): (r: Outcome) {
    Plus(Plus(ChangedIf(b.Keys != c.Keys), Over(b.Keys, KeptTurns(s, b, c))), Over(c.Keys, AddedTurns(s, b, c)))
  }

  // ---------------------------------------------------------------------------------------
  // Operations, components, documents

  function SecurityOutcome(s: Scope, b: Json, c: Json): (r: Outcome)
    requires b.Obj? && c.Obj?
  {
    var was, now := Lookup(b, "security"), Lookup(c, "security");
    Done(OneIf(was != now && was == Arr([]) && now != Arr([]), s.location, NowAuthenticated), was != now)
  }

  ghost function OperationOutcome(s: Scope, b: Json, c: Json): (r: Outcome)
    requires b.Obj? && c.Obj?
  {
    Plus(Plus(Plus(ParametersOutcome(s, ParametersOf(b), ParametersOf(c)),
                   RequestOutcome(s.(direction := Input), b, c)),
              ResponsesOutcome(s.(direction := Output), b, c)),
         Plus(SecurityOutcome(s, b, c), ChangedIf(Lookup(b, "deprecated") != Lookup(c, "deprecated"))))
  }

  const HTTP_METHODS: set<string> := {"delete", "get", "head", "options", "patch", "post", "put", "trace"}

  datatype OperationId = OperationId(path: string, verb: string)

  function OperationsOf(document: Json): (r: map<OperationId, Json>)
    requires document.Obj?
    ensures forall id :: id in r ==> r[id].Obj?
  {
    var paths := LookupObj(document, "paths");
    if !paths.Obj? then map[]
    else
      map path, verb |
        && path in paths.fields
        && paths.fields[path].Obj?
        && verb in HTTP_METHODS
        && verb in paths.fields[path].fields
        && paths.fields[path].fields[verb].Obj?
        :: OperationId(path, verb) := paths.fields[path].fields[verb]
  }

  function LocationOf(id: OperationId): (r: string) {
    id.verb + " " + id.path
  }

  ghost function OneOperation(
    s: Scope, b: map<OperationId, Json>, c: map<OperationId, Json>, id: OperationId): (r: Outcome)
  {
    if id !in b || !b[id].Obj? then SAME
    else if id !in c || !c[id].Obj? then Reports({Violation(LocationOf(id), Gone("operation"))})
    else OperationOutcome(s.(location := LocationOf(id)), b[id], c[id])
  }

  ghost function OperationTurns(s: Scope, b: map<OperationId, Json>, c: map<OperationId, Json>): (r: OperationId -> Outcome) {
    (id: OperationId) => OneOperation(s, b, c, id)
  }

  ghost function OperationsOutcome(s: Scope, b: map<OperationId, Json>, c: map<OperationId, Json>): (r: Outcome) {
    Plus(ChangedIf(b.Keys != c.Keys), Over(b.Keys, OperationTurns(s, b, c)))
  }

  function SchemasOf(document: Json): (r: map<string, Json>)
    requires document.Obj?
  {
    var components := LookupObj(document, "components");
    var schemas := if components.Obj? then LookupObj(components, "schemas") else Obj(map[]);
    if !schemas.Obj? then map[]
    else map name | name in schemas.fields && schemas.fields[name].Obj? :: schemas.fields[name]
  }

  ghost function OneComponent(s: Scope, b: map<string, Json>, c: map<string, Json>, name: string): (r: Outcome) {
    if name !in b then SAME
    else if name !in c then Reports({Violation(name, Gone("component schema"))})
    else SchemaOutcome(s.bdoc, s.cdoc, b[name], c[name], "component schema " + name, Output, s.depth)
  }

  ghost function ComponentTurns(s: Scope, b: map<string, Json>, c: map<string, Json>): (r: string -> Outcome) {
    (name: string) => OneComponent(s, b, c, name)
  }

  ghost function ComponentsOutcome(s: Scope, b: map<string, Json>, c: map<string, Json>): (r: Outcome) {
    Plus(ChangedIf(b.Keys != c.Keys), Over(b.Keys, ComponentTurns(s, b, c)))
  }

  ghost function DocumentOutcome(s: Scope): (r: Outcome)
    requires s.bdoc.Obj? && s.cdoc.Obj?
  {
    Plus(OperationsOutcome(s, OperationsOf(s.bdoc), OperationsOf(s.cdoc)),
         ComponentsOutcome(s, SchemasOf(s.bdoc), SchemasOf(s.cdoc)))
  }

  // ---------------------------------------------------------------------------------------
  // Versions

  datatype Version = Version(major: nat, minor: nat, patch: nat)

  /** parse_version. */
  function ParseVersion(value: Json): (r: Option<Version>) {
    if !value.Str? then None
    else
      var parts := Split(value.text, '.');
      if |parts| == 3 && IsDigits(parts[0]) && IsDigits(parts[1]) && IsDigits(parts[2])
      then Some(Version(DigitsValue(parts[0]), DigitsValue(parts[1]), DigitsValue(parts[2])))
      else None
  }

  function VersionOf(document: Json): (r: Option<Version>)
    requires document.Obj?
  {
    ParseVersion(if Lookup(document, "info").Obj? then Lookup(Lookup(document, "info"), "version") else Null)
  }

  predicate Newer(a: Version, b: Version) {
    || a.major > b.major
    || (a.major == b.major && a.minor > b.minor)
    || (a.major == b.major && a.minor == b.minor && a.patch > b.patch)
  }

  function VersionFindings(b: Option<Version>, c: Option<Version>): (r: set<Violation>) {
    OneIf(b.None?, "baseline info.version", BadVersion) +
    OneIf(c.None?, "candidate info.version", BadVersion) +
    (if b.None? || c.None? then {}
     else
       OneIf(Newer(b.value, c.value), "contract version", VersionLowered) +
       OneIf(b.value.major != c.value.major, "contract version", MajorChanged))
  }

  /** compare_contracts: `checked` holds what validate_document reports of the candidate alone. */
  ghost function ContractFindings(checked: set<Violation>, baseline: Json, candidate: Json, depth: nat): (r: Findings)
    requires baseline.Obj? && candidate.Obj?
  {
    var b, c := VersionOf(baseline), VersionOf(candidate);
    match DocumentOutcome(Scope(baseline, candidate, "", Output, depth))
    case Aborted => Raised
    case Done(violations, changed) =>
      Found(checked + VersionFindings(b, c) + violations +
            OneIf(changed && b.Some? && c.Some? && !Newer(c.value, b.value), "contract version", VersionNotRaised))
  }
}
