/** JSON documents as the contract checker reads them, and reference resolution:
    tools/api-contract/check_contract.py. */
module Json {
  import opened Base

  /** A loaded document. `Null` is also what a dictionary lookup yields for a missing key. */
  datatype Json =
    | Null
    | Bool(bool)
    | Num(number: real)
    | Str(text: string)
    | Arr(items: seq<Json>)
    | Obj(fields: map<string, Json>)

  /** dict.get(key). */
  function Lookup(j: Json, key: string): (r: Json)
    requires j.Obj?
  {
    if key in j.fields then j.fields[key] else Null
  }

  /** dict.get(key, {}). */
  function LookupObj(j: Json, key: string): (r: Json)
    requires j.Obj?
  {
    if key in j.fields then j.fields[key] else Obj(map[])
  }

  // ---------------------------------------------------------------------------------------
  // JSON pointers

  /** str.split(sep): one part more than there are separators. */
  function Split(s: string, sep: char): (parts: seq<string>)
    ensures parts != []
  {
    if s == "" then [""]
    else
      var rest := Split(s[1..], sep);
      if s[0] == sep then [""] + rest else [[s[0]] + rest[0]] + rest[1..]
  }

  /** str.replace of a two-character pattern by one character, left to right. */
  function ReplacePair(s: string, a: char, b: char, to: char): (r: string) {
    if |s| < 2 then s
    else if s[0] == a && s[1] == b then [to] + ReplacePair(s[2..], a, b, to)
    else [s[0]] + ReplacePair(s[1..], a, b, to)
  }

  /** Section 4 of RFC 6901: ~1 first, then ~0. */
  function DecodePart(s: string): (r: string) {
    ReplacePair(ReplacePair(s, '~', '1', '/'), '~', '0', '~')
  }

  /** Section 3 of RFC 6901: the escaped form of a key. */
  function EncodePart(s: string): (r: string) {
    if s == "" then ""
    else (if s[0] == '~' then "~0" else if s[0] == '/' then "~1" else [s[0]]) + EncodePart(s[1..])
  }

  /** What is left of an escaped key once only the slashes are restored. */
  function TildesOnly(s: string): (r: string) {
    if s == "" then "" else (if s[0] == '~' then "~0" else [s[0]]) + TildesOnly(s[1..])
  }

  lemma {:induction false} FirstPassRestoresSlashes(s: string)
    ensures ReplacePair(EncodePart(s), '~', '1', '/') == TildesOnly(s)
  {
    if s != "" {
      FirstPassRestoresSlashes(s[1..]);
      var rest := EncodePart(s[1..]);
      if s[0] == '~' {
        var e := "~0" + rest;
        assert EncodePart(s) == e && e[1..] == "0" + rest && ("0" + rest)[1..] == rest;
        NoPairAt('0', rest, '~', '1', '/');
        NoPairAt('~', "0" + rest, '~', '1', '/');
      } else if s[0] == '/' {
        assert EncodePart(s) == "~1" + rest && ("~1" + rest)[2..] == rest;
      } else {
        assert EncodePart(s) == [s[0]] + rest;
        NoPairAt(s[0], rest, '~', '1', '/');
      }
    }
  }

  lemma {:induction false} SecondPassRestoresTildes(s: string)
    ensures ReplacePair(TildesOnly(s), '~', '0', '~') == s
  {
    if s != "" {
      SecondPassRestoresTildes(s[1..]);
      var rest := TildesOnly(s[1..]);
      if s[0] == '~' {
        assert TildesOnly(s) == "~0" + rest && ("~0" + rest)[2..] == rest;
      } else {
        assert TildesOnly(s) == [s[0]] + rest;
        NoPairAt(s[0], rest, '~', '0', '~');
      }
      assert s == [s[0]] + s[1..];
    }
  }

  lemma NoPairAt(c: char, rest: string, a: char, b: char, to: char)
    requires c != a || rest == "" || rest[0] != b
    ensures ReplacePair([c] + rest, a, b, to) == [c] + ReplacePair(rest, a, b, to)
  {
    assert ([c] + rest)[1..] == rest;
  }

  /** Decoding undoes the standard escaping of every key, tildes next to digits included. */
  lemma DecodeUndoesEncode(s: string)
    ensures DecodePart(EncodePart(s)) == s
  {
    FirstPassRestoresSlashes(s);
    SecondPassRestoresTildes(s);
  }

  function Walk(j: Json, parts: seq<string>): (r: Option<Json>) {
    if parts == [] then Some(j)
    else if j.Obj? && DecodePart(parts[0]) in j.fields then Walk(j.fields[DecodePart(parts[0])], parts[1..])
    else None
  }

  /** Following the keys of a path, one object at a time. */
  function Descend(j: Json, path: seq<string>): (r: Option<Json>) {
    if path == [] then Some(j)
    else if j.Obj? && path[0] in j.fields then Descend(j.fields[path[0]], path[1..])
    else None
  }

  /** The pointer text of a path. */
  function PointerText(path: seq<string>): (r: string)
    requires path != []
  {
    if |path| == 1 then EncodePart(path[0]) else EncodePart(path[0]) + "/" + PointerText(path[1..])
  }

  lemma {:induction false} EncodedHasNoSlash(s: string)
    ensures '/' !in EncodePart(s)
  {
    if s != "" {
      EncodedHasNoSlash(s[1..]);
    }
  }

  lemma {:induction false} SplitWhole(s: string, sep: char)
    requires sep !in s
    ensures Split(s, sep) == [s]
  {
    if s != "" {
      SplitWhole(s[1..], sep);
      assert [s[0]] + s[1..] == s;
    }
  }

  lemma {:induction false} SplitAtFirst(s: string, rest: string, sep: char)
    requires sep !in s
    ensures Split(s + [sep] + rest, sep) == [s] + Split(rest, sep)
  {
    var t := s + [sep] + rest;
    if s == "" {
      assert t[1..] == rest;
    } else {
      SplitAtFirst(s[1..], rest, sep);
      assert t[1..] == s[1..] + [sep] + rest;
      assert [s[0]] + s[1..] == s;
    }
  }

  /** Pointers mean what the standard says: the text of any path of keys, whatever characters the
      keys hold, splits and decodes back to exactly that path. */
  lemma {:induction false} PointerFollowsPath(j: Json, path: seq<string>)
    requires path != []
    ensures Walk(j, Split(PointerText(path), '/')) == Descend(j, path)
  {
    EncodedHasNoSlash(path[0]);
    DecodeUndoesEncode(path[0]);
    if |path| == 1 {
      SplitWhole(EncodePart(path[0]), '/');
    } else {
      SplitAtFirst(EncodePart(path[0]), PointerText(path[1..]), '/');
      if j.Obj? && path[0] in j.fields {
        PointerFollowsPath(j.fields[path[0]], path[1..]);
      }
    }
  }

  // ---------------------------------------------------------------------------------------
  // References

  function RefOf(j: Json): (r: Option<string>) {
    if j.Obj? && "$ref" in j.fields && j.fields["$ref"].Str? then Some(j.fields["$ref"].text) else None
  }

  predicate IsLocal(reference: string) {
    "#/" <= reference
  }

  function Target(document: Json, reference: string): (r: Option<Json>)
    requires IsLocal(reference)
  {
    Walk(document, Split(reference[2..], '/'))
  }

  /** The reference to a path of the document, and the object that carries it. */
  function LocalRef(path: seq<string>): (r: string)
    requires path != []
    ensures IsLocal(r)
  {
    "#/" + PointerText(path)
  }

  function RefTo(path: seq<string>): (r: Json)
    requires path != []
  {
    Obj(map["$ref" := Str(LocalRef(path))])
  }

  /** Every reference written anywhere inside a value. */
  ghost function Refs(j: Json): (r: set<string>) {
    (if RefOf(j).Some? then {RefOf(j).value} else {}) +
    match j
    case Arr(items) => (set i, r | 0 <= i < |items| && r in Refs(items[i]) :: r)
    case Obj(fields) => (set k, r | k in fields && r in Refs(fields[k]) :: r)
    case _ => {}
  }

  lemma {:induction false} WalkStaysInside(j: Json, parts: seq<string>)
    requires Walk(j, parts).Some?
    ensures Refs(Walk(j, parts).value) <= Refs(j)
  {
    if parts != [] {
      var k := DecodePart(parts[0]);
      WalkStaysInside(j.fields[k], parts[1..]);
      assert Refs(j.fields[k]) <= Refs(j);
    }
  }

  ghost function Unseen(document: Json, value: Json, seen: set<string>): (n: nat) {
    |Refs(value) + Refs(document) - seen|
  }

  lemma FollowingShrinks(document: Json, value: Json, seen: set<string>, next: Json)
    requires RefOf(value).Some? && RefOf(value).value !in seen
    requires Refs(next) <= Refs(document)
    ensures Unseen(document, next, seen + {RefOf(value).value}) < Unseen(document, value, seen)
  {
    var r := RefOf(value).value;
    var small := Refs(next) + Refs(document) - (seen + {r});
    var big := Refs(value) + Refs(document) - seen;
    assert r in big && small <= big - {r};
    SubsetSize(small, big - {r});
    assert |big - {r}| == |big| - 1;
  }

  lemma SubsetSize<T>(a: set<T>, b: set<T>)
    requires a <= b
    ensures |a| <= |b|
  {
    assert b == a + (b - a);
  }

  /** _resolve, from a value with some references already followed. */
  ghost function ResolveFrom(document: Json, value: Json, seen: set<string>): (r: Json)
    decreases Unseen(document, value, seen)
  {
    var ref := RefOf(value);
    if ref.None? || !IsLocal(ref.value) || ref.value in seen then value
    else
      var target := Target(document, ref.value);
      if target.None? then value
      else
        WalkStaysInside(document, Split(ref.value[2..], '/'));
        FollowingShrinks(document, value, seen, target.value);
        ResolveFrom(document, target.value, seen + {ref.value})
  }

  ghost function Resolved(document: Json, value: Json): (r: Json) {
    ResolveFrom(document, value, {})
  }

  method FollowParts(document: Json, parts: seq<string>) returns (r: Option<Json>)
    ensures r == Walk(document, parts)
  {
    var current := document;
    for n := 0 to |parts|
      invariant Walk(document, parts) == Walk(current, parts[n..])
    {
      var part := DecodePart(parts[n]);
      assert parts[n..][1..] == parts[n + 1..];
      if !current.Obj? || part !in current.fields {
        return None;
      }
      current := current.fields[part];
    }
    return Some(current);
  }

  /** The resolution loop ends on every document, cyclic references included. */
  method Resolve(document: Json, value: Json) returns (r: Json)
    ensures r == Resolved(document, value)
  {
    r := value;
    var seen: set<string> := {};
    while r.Obj? && "$ref" in r.fields && r.fields["$ref"].Str?
      invariant ResolveFrom(document, r, seen) == Resolved(document, value)
      decreases Unseen(document, r, seen)
    {
      var reference := r.fields["$ref"].text;
      if !IsLocal(reference) || reference in seen {
        return;
      }
      var parts := Split(reference[2..], '/');
      var target := FollowParts(document, parts);
      if target.None? {
        return;
      }
      WalkStaysInside(document, parts);
      FollowingShrinks(document, r, seen, target.value);
      seen := seen + {reference};
      r := target.value;
    }
  }

  /** A reference to a path resolves to what stands there, if that is no reference itself. */
  lemma RefResolvesToTarget(document: Json, path: seq<string>)
    requires path != [] && Descend(document, path).Some? && RefOf(Descend(document, path).value).None?
    ensures Resolved(document, RefTo(path)) == Descend(document, path).value
  {
    var reference := LocalRef(path);
    assert RefOf(RefTo(path)) == Some(reference);
    assert reference[2..] == PointerText(path);
    PointerFollowsPath(document, path);
    assert Target(document, reference) == Descend(document, path);
    var target := Descend(document, path).value;
    assert ResolveFrom(document, target, {} + {reference}) == target;
    assert ResolveFrom(document, RefTo(path), {}) == ResolveFrom(document, target, {} + {reference});
  }
}
