/** The structural schema comparison of tools/api-contract/check_contract.py: what it reports, and
    the loops that report it. */
module SchemaCompat {
  import opened Base
  import opened Json

  datatype Direction = Input | Output

  datatype Change =
    | ShapeChanged
    | TypeChanged
    | EnumRemoved
    | PropertyRemoved(name: string)
    | RequiredAdded
    | RequiredDropped
    | ItemsRemoved
    | Narrowed(keyword: string)
    | Gone(what: string)
    | NowRequired(what: string)
    | NowAuthenticated
    | BadVersion
    | VersionLowered
    | MajorChanged
    | VersionNotRaised

  /** A reported message: where and what. The checker only ever prints the sorted set of them. */
  datatype Violation = Violation(location: string, change: Change)

  /** A comparison either reports, or raises: Python's recursion limit, a failed assertion, or a
      `required` that is not a list of names. */
  datatype Findings = Raised | Found(violations: set<Violation>)

  predicate IsUnconstrainedObject(s: Json)
    requires s.Obj?
  {
    && Lookup(s, "type") == Str("object")
    && Lookup(s, "additionalProperties") == Bool(true)
    && "properties" !in s.fields && "oneOf" !in s.fields && "allOf" !in s.fields && "$ref" !in s.fields
  }

  predicate IsCorrected(baseline: Json, candidate: Json)
    requires baseline.Obj? && candidate.Obj?
  {
    && IsUnconstrainedObject(baseline)
    && Lookup(candidate, "x-a3s-contract-correction") == Str("documents-existing-runtime-validation")
  }

  /** What set(...) makes of a `required` value: the elements of a list, the keys of an object, the
      characters of a string; anything else raises. */
  predicate ReadsAsSet(r: Json) {
    match r
    case Arr(items) => forall i :: 0 <= i < |items| ==> items[i].Str?
    case Obj(_) => true
    case Str(_) => true
    case _ => false
  }

  function AsSet(r: Json): (names: set<string>)
    requires ReadsAsSet(r)
  {
    match r
    case Arr(items) => set i | 0 <= i < |items| :: items[i].text
    case Obj(fields) => fields.Keys
    case Str(text) => set i | 0 <= i < |text| :: [text[i]]
  }

  predicate RequiredReads(s: Json)
    requires s.Obj?
  {
    "required" in s.fields ==> ReadsAsSet(s.fields["required"])
  }

  function Required(s: Json): (r: set<string>)
    requires s.Obj? && RequiredReads(s)
  {
    if "required" in s.fields then AsSet(s.fields["required"]) else {}
  }

  predicate BothProperties(b: Json, c: Json)
    requires b.Obj? && c.Obj?
  {
    LookupObj(b, "properties").Obj? && LookupObj(c, "properties").Obj?
  }

  predicate EnumLost(b: Json, c: Json)
    requires b.Obj? && c.Obj?
  {
    && Lookup(b, "enum").Arr?
    && Lookup(c, "enum").Arr?
    && exists i :: 0 <= i < |Lookup(b, "enum").items| && Lookup(b, "enum").items[i] !in Lookup(c, "enum").items
  }

  predicate Tightened(b: Json, c: Json, keyword: string)
    requires b.Obj? && c.Obj?
  {
    && Lookup(b, keyword).Num?
    && Lookup(c, keyword).Num?
    && if keyword == "minLength" then Lookup(c, keyword).number > Lookup(b, keyword).number
       else Lookup(c, keyword).number < Lookup(b, keyword).number
  }

  function OneIf(condition: bool, location: string, change: Change): (r: set<Violation>) {
    if condition then {Violation(location, change)} else {}
  }

  predicate RequiredNarrowed(b: Json, c: Json, direction: Direction)
    requires b.Obj? && c.Obj? && RequiredReads(b) && RequiredReads(c)
  {
    if direction.Input? then Required(c) - Required(b) != {} else Required(b) - Required(c) != {}
  }

  /** The findings on a node's own keywords, leaving its properties and items aside. */
  function KeywordFindings(b: Json, c: Json, location: string, direction: Direction): (r: set<Violation>)
    requires b.Obj? && c.Obj?
  {
    OneIf(Lookup(b, "type") != Lookup(c, "type"), location, TypeChanged) +
    OneIf(EnumLost(b, c), location, EnumRemoved) +
    OneIf(direction.Input? && Tightened(b, c, "minLength"), location, Narrowed("minLength")) +
    OneIf(direction.Input? && Tightened(b, c, "maximum"), location, Narrowed("maximum"))
  }

  predicate SharedItems(b: Json, c: Json)
    requires b.Obj? && c.Obj?
  {
    "items" in b.fields && "items" in c.fields
  }

  function PropertiesOf(s: Json): (r: map<string, Json>)
    requires s.Obj? && LookupObj(s, "properties").Obj?
  {
    LookupObj(s, "properties").fields
  }

  function Both(f: Findings, g: Findings): (r: Findings) {
    if f.Raised? || g.Raised? then Raised else Found(f.violations + g.violations)
  }

  /** _compare_schema: what it reports, within `depth` nested calls. */
  ghost function SchemaFindings(
    bdoc: Json, cdoc: Json, baseline: Json, candidate: Json,
    location: string, direction: Direction, depth: nat): (r: Findings)
    decreases depth, 5
  {
    if depth == 0 then Raised
    else
      var b := Resolved(bdoc, baseline);
      var c := Resolved(cdoc, candidate);
      if b == c then Found({})
      else if !b.Obj? || !c.Obj? then Found({Violation(location, ShapeChanged)})
      else if direction.Input? && IsCorrected(b, c) then Found({})
      else ObjectFindings(bdoc, cdoc, b, c, location, direction, depth)
  }

  ghost function ObjectFindings(
    bdoc: Json, cdoc: Json, b: Json, c: Json,
    location: string, direction: Direction, depth: nat): (r: Findings)
    requires b.Obj? && c.Obj? && depth > 0
    decreases depth, 4
  {
    Both(Found(KeywordFindings(b, c, location, direction)),
         Both(PropertiesFindings(bdoc, cdoc, b, c, location, direction, depth),
              ItemsFindings(bdoc, cdoc, b, c, location, direction, depth)))
  }

  ghost function PropertiesFindings(
    bdoc: Json, cdoc: Json, b: Json, c: Json,
    location: string, direction: Direction, depth: nat): (r: Findings)
    requires b.Obj? && c.Obj? && depth > 0
    decreases depth, 3
  {
    if !BothProperties(b, c) then Found({})
    else if !NoneRaise(bdoc, cdoc, b, c, PropertiesOf(b).Keys, location, direction, depth) then Raised
    else if !RequiredReads(b) || !RequiredReads(c) then Raised
    else
      Found(LoopFindings(bdoc, cdoc, b, c, PropertiesOf(b).Keys, location, direction, depth) +
            OneIf(RequiredNarrowed(b, c, direction), location, if direction.Input? then RequiredAdded else RequiredDropped))
  }

  ghost predicate NoneRaise(
    bdoc: Json, cdoc: Json, b: Json, c: Json, names: set<string>,
    location: string, direction: Direction, depth: nat)
    requires b.Obj? && c.Obj? && BothProperties(b, c) && depth > 0 && names <= PropertiesOf(b).Keys
    decreases depth, 1
  {
    forall name :: name in names ==>
      PropertyFindings(bdoc, cdoc, b, c, name, location, direction, depth).Found?
  }

  /** What the property loop has reported once it has been through `done`. */
  ghost function LoopFindings(
    bdoc: Json, cdoc: Json, b: Json, c: Json, done: set<string>,
    location: string, direction: Direction, depth: nat): (r: set<Violation>)
    requires b.Obj? && c.Obj? && BothProperties(b, c) && depth > 0 && done <= PropertiesOf(b).Keys
    requires NoneRaise(bdoc, cdoc, b, c, done, location, direction, depth)
    decreases depth, 2
  {
    set name, v |
      name in done && v in PropertyFindings(bdoc, cdoc, b, c, name, location, direction, depth).violations :: v
  }

  /** One turn of the property loop. */
  ghost function PropertyFindings(
    bdoc: Json, cdoc: Json, b: Json, c: Json, name: string,
    location: string, direction: Direction, depth: nat): (r: Findings)
    requires b.Obj? && c.Obj? && BothProperties(b, c) && name in PropertiesOf(b) && depth > 0
    decreases depth, 0
  {
    if name !in PropertiesOf(c) then Found({Violation(location, PropertyRemoved(name))})
    else
      SchemaFindings(bdoc, cdoc, PropertiesOf(b)[name], PropertiesOf(c)[name],
                     location + "." + name, direction, depth - 1)
  }

  ghost function ItemsFindings(
    bdoc: Json, cdoc: Json, b: Json, c: Json,
    location: string, direction: Direction, depth: nat): (r: Findings)
    requires b.Obj? && c.Obj? && depth > 0
    decreases depth, 0
  {
    if "items" !in b.fields then Found({})
    else if "items" !in c.fields then Found({Violation(location, ItemsRemoved)})
    else SchemaFindings(bdoc, cdoc, b.fields["items"], c.fields["items"], location + "[]", direction, depth - 1)
  }

  // ---------------------------------------------------------------------------------------
  // The checker's own recursion

  /** The shared list of messages. */
  class Report {
    var violations: set<Violation>

    constructor ()
      ensures violations == {}
    {
      violations := {};
    }

    method AddIf(condition: bool, location: string, change: Change)
      modifies this
      ensures violations == old(violations) + OneIf(condition, location, change)
    {
      if condition {
        violations := violations + {Violation(location, change)};
      }
    }
  }

  lemma NoneRaiseStep(
    bdoc: Json, cdoc: Json, b: Json, c: Json, done: set<string>, name: string,
    location: string, direction: Direction, depth: nat)
    requires b.Obj? && c.Obj? && BothProperties(b, c) && depth > 0 && done + {name} <= PropertiesOf(b).Keys
    requires NoneRaise(bdoc, cdoc, b, c, done, location, direction, depth)
    requires PropertyFindings(bdoc, cdoc, b, c, name, location, direction, depth).Found?
    ensures NoneRaise(bdoc, cdoc, b, c, done + {name}, location, direction, depth)
  {
  }

  lemma LoopKeeps(
    bdoc: Json, cdoc: Json, b: Json, c: Json, done: set<string>, name: string,
    location: string, direction: Direction, depth: nat)
    requires b.Obj? && c.Obj? && BothProperties(b, c) && depth > 0 && done + {name} <= PropertiesOf(b).Keys
    requires NoneRaise(bdoc, cdoc, b, c, done, location, direction, depth)
    requires NoneRaise(bdoc, cdoc, b, c, done + {name}, location, direction, depth)
    requires PropertyFindings(bdoc, cdoc, b, c, name, location, direction, depth).Found?
    ensures LoopFindings(bdoc, cdoc, b, c, done, location, direction, depth) <=
            LoopFindings(bdoc, cdoc, b, c, done + {name}, location, direction, depth)
  {
  }

  lemma LoopGains(
    bdoc: Json, cdoc: Json, b: Json, c: Json, done: set<string>, name: string,
    location: string, direction: Direction, depth: nat)
    requires b.Obj? && c.Obj? && BothProperties(b, c) && depth > 0 && done + {name} <= PropertiesOf(b).Keys
    requires NoneRaise(bdoc, cdoc, b, c, done, location, direction, depth)
    requires NoneRaise(bdoc, cdoc, b, c, done + {name}, location, direction, depth)
    requires PropertyFindings(bdoc, cdoc, b, c, name, location, direction, depth).Found?
    ensures PropertyFindings(bdoc, cdoc, b, c, name, location, direction, depth).violations <=
            LoopFindings(bdoc, cdoc, b, c, done + {name}, location, direction, depth)
  {
    assert name in done + {name};
  }

  lemma LoopStep(
    bdoc: Json, cdoc: Json, b: Json, c: Json, done: set<string>, name: string,
    location: string, direction: Direction, depth: nat)
    requires b.Obj? && c.Obj? && BothProperties(b, c) && depth > 0 && done + {name} <= PropertiesOf(b).Keys
    requires NoneRaise(bdoc, cdoc, b, c, done, location, direction, depth)
    requires NoneRaise(bdoc, cdoc, b, c, done + {name}, location, direction, depth)
    requires PropertyFindings(bdoc, cdoc, b, c, name, location, direction, depth).Found?
    ensures LoopFindings(bdoc, cdoc, b, c, done + {name}, location, direction, depth) ==
            LoopFindings(bdoc, cdoc, b, c, done, location, direction, depth) +
            PropertyFindings(bdoc, cdoc, b, c, name, location, direction, depth).violations
  {
    LoopKeeps(bdoc, cdoc, b, c, done, name, location, direction, depth);
    LoopGains(bdoc, cdoc, b, c, done, name, location, direction, depth);
  }

  /** One turn of the loop over the baseline's properties; false is a raised exception. */
  method CompareProperty(
    bdoc: Json, cdoc: Json, b: Json, c: Json, name: string,
    location: string, direction: Direction, depth: nat, report: Report,
    ghost done: set<string>, ghost before: set<Violation>) returns (ok: bool)
    requires b.Obj? && c.Obj? && BothProperties(b, c) && depth > 0 && done + {name} <= PropertiesOf(b).Keys
    requires NoneRaise(bdoc, cdoc, b, c, done, location, direction, depth)
    requires report.violations == before + LoopFindings(bdoc, cdoc, b, c, done, location, direction, depth)
    modifies report
    decreases depth, 0
    ensures ok <==> PropertyFindings(bdoc, cdoc, b, c, name, location, direction, depth).Found?
    ensures ok ==>
              && NoneRaise(bdoc, cdoc, b, c, done + {name}, location, direction, depth)
              && report.violations == before + LoopFindings(bdoc, cdoc, b, c, done + {name}, location, direction, depth)
  {
    if name !in PropertiesOf(c) {
      report.AddIf(true, location, PropertyRemoved(name));
      ok := true;
    } else {
      var changed := CompareSchema(
        bdoc, cdoc, PropertiesOf(b)[name], PropertiesOf(c)[name], location + "." + name, direction, depth - 1, report);
      ok := changed.Some?;
    }
    if ok {
      NoneRaiseStep(bdoc, cdoc, b, c, done, name, location, direction, depth);
      LoopStep(bdoc, cdoc, b, c, done, name, location, direction, depth);
    }
  }

  method CompareEveryProperty(
    bdoc: Json, cdoc: Json, b: Json, c: Json,
    location: string, direction: Direction, depth: nat, report: Report) returns (ok: bool)
    requires b.Obj? && c.Obj? && BothProperties(b, c) && depth > 0
    modifies report
    decreases depth, 1
    ensures ok <==> NoneRaise(bdoc, cdoc, b, c, PropertiesOf(b).Keys, location, direction, depth)
    ensures ok ==> report.violations ==
                     old(report.violations) +
                     LoopFindings(bdoc, cdoc, b, c, PropertiesOf(b).Keys, location, direction, depth)
  {
    ghost var before := report.violations;
    var names := PropertiesOf(b).Keys;
    var todo := names;
    ghost var done: set<string> := {};
    while todo != {}
      invariant done <= names && todo == names - done
      invariant NoneRaise(bdoc, cdoc, b, c, done, location, direction, depth)
      invariant report.violations == before + LoopFindings(bdoc, cdoc, b, c, done, location, direction, depth)
    {
      var name :| name in todo;
      ok := CompareProperty(bdoc, cdoc, b, c, name, location, direction, depth, report, done, before);
      if !ok {
        return false;
      }
      todo := todo - {name};
      done := done + {name};
    }
    assert done == names;
    return true;
  }

  method CompareProperties(
    bdoc: Json, cdoc: Json, b: Json, c: Json,
    location: string, direction: Direction, depth: nat, report: Report) returns (ok: bool)
    requires b.Obj? && c.Obj? && depth > 0
    modifies report
    decreases depth, 2
    ensures ok <==> PropertiesFindings(bdoc, cdoc, b, c, location, direction, depth).Found?
    ensures ok ==> report.violations ==
                     old(report.violations) + PropertiesFindings(bdoc, cdoc, b, c, location, direction, depth).violations
  {
    if !BothProperties(b, c) {
      return true;
    }
    ok := CompareEveryProperty(bdoc, cdoc, b, c, location, direction, depth, report);
    if !ok || !RequiredReads(b) || !RequiredReads(c) {
      return false;
    }
    report.AddIf(RequiredNarrowed(b, c, direction), location,
                 if direction.Input? then RequiredAdded else RequiredDropped);
  }

  method CompareItems(
    bdoc: Json, cdoc: Json, b: Json, c: Json,
    location: string, direction: Direction, depth: nat, report: Report) returns (ok: bool)
    requires b.Obj? && c.Obj? && depth > 0
    modifies report
    decreases depth, 0
    ensures ok <==> ItemsFindings(bdoc, cdoc, b, c, location, direction, depth).Found?
    ensures ok ==> report.violations ==
                     old(report.violations) + ItemsFindings(bdoc, cdoc, b, c, location, direction, depth).violations
  {
    if "items" !in b.fields {
      return true;
    }
    if "items" !in c.fields {
      report.AddIf(true, location, ItemsRemoved);
      return true;
    }
    var changed := CompareSchema(
      bdoc, cdoc, b.fields["items"], c.fields["items"], location + "[]", direction, depth - 1, report);
    return changed.Some?;
  }

  /** The nested schemas: properties, then items. */
  method CompareNested(
    bdoc: Json, cdoc: Json, b: Json, c: Json,
    location: string, direction: Direction, depth: nat, report: Report) returns (ok: bool)
    requires b.Obj? && c.Obj? && depth > 0
    modifies report
    decreases depth, 3
    ensures
      var nested := Both(PropertiesFindings(bdoc, cdoc, b, c, location, direction, depth),
                         ItemsFindings(bdoc, cdoc, b, c, location, direction, depth));
      && (ok <==> nested.Found?)
      && (ok ==> report.violations == old(report.violations) + nested.violations)
  {
    ok := CompareProperties(bdoc, cdoc, b, c, location, direction, depth, report);
    if ok {
      ok := CompareItems(bdoc, cdoc, b, c, location, direction, depth, report);
    }
  }

  lemma Regroup<T>(o: set<T>, t: set<T>, e: set<T>, nested: set<T>, m: set<T>, x: set<T>)
    ensures o + t + e + nested + m + x == o + ((t + e + m + x) + nested)
  {
  }

  /** _compare_schema past its shortcuts; false is a raised exception. */
  method CompareObjects(
    bdoc: Json, cdoc: Json, b: Json, c: Json,
    location: string, direction: Direction, depth: nat, report: Report) returns (ok: bool)
    requires b.Obj? && c.Obj? && depth > 0
    modifies report
    decreases depth, 4
    ensures ok <==> ObjectFindings(bdoc, cdoc, b, c, location, direction, depth).Found?
    ensures ok ==> report.violations ==
                     old(report.violations) + ObjectFindings(bdoc, cdoc, b, c, location, direction, depth).violations
  {
    var retyped := Lookup(b, "type") != Lookup(c, "type");
    var lost := EnumLost(b, c);
    var shorter := direction.Input? && Tightened(b, c, "minLength");
    var lower := direction.Input? && Tightened(b, c, "maximum");
    report.AddIf(retyped, location, TypeChanged);
    report.AddIf(lost, location, EnumRemoved);
    ghost var nested := Both(PropertiesFindings(bdoc, cdoc, b, c, location, direction, depth),
                             ItemsFindings(bdoc, cdoc, b, c, location, direction, depth));
    ok := CompareNested(bdoc, cdoc, b, c, location, direction, depth, report);
    if !ok {
      return;
    }
    report.AddIf(shorter, location, Narrowed("minLength"));
    report.AddIf(lower, location, Narrowed("maximum"));
    Regroup(old(report.violations), OneIf(retyped, location, TypeChanged), OneIf(lost, location, EnumRemoved),
            nested.violations, OneIf(shorter, location, Narrowed("minLength")), OneIf(lower, location, Narrowed("maximum")));
  }

  /** _compare_schema: reports into the shared list and says whether the resolved schemas differ;
      None is a raised exception. */
  method CompareSchema(
    bdoc: Json, cdoc: Json, baseline: Json, candidate: Json,
    location: string, direction: Direction, depth: nat, report: Report) returns (changed: Option<bool>)
    modifies report
    decreases depth, 5
    ensures
      var f := SchemaFindings(bdoc, cdoc, baseline, candidate, location, direction, depth);
      && (f.Raised? <==> changed.None?)
      && (f.Found? ==>
            && changed == Some(Resolved(bdoc, baseline) != Resolved(cdoc, candidate))
            && report.violations == old(report.violations) + f.violations)
  {
    if depth == 0 {
      return None;
    }
    var b := Resolve(bdoc, baseline);
    var c := Resolve(cdoc, candidate);
    if b == c {
      return Some(false);
    }
    if !b.Obj? || !c.Obj? {
      report.AddIf(true, location, ShapeChanged);
      return Some(true);
    }
    if direction.Input? && IsCorrected(b, c) {
      return Some(true);
    }
    var ok := CompareObjects(bdoc, cdoc, b, c, location, direction, depth, report);
    return if ok then Some(true) else None;
  }
}
