/** Text of the Gateway ACL blocks: escaping, quoting and the pieces a block is formatted from.
    crates/contracts/src/application_publication_route_intent_acl.rs and
    crates/contracts/src/gateway_rate_shaping_bound_profile_acl.rs. */
module AclText {
  import opened Base
  import opened Text

  // ---------------------------------------------------------------------------------------
  // Escaping

  /** str::replace of one character by a string. */
  function ReplaceChar(s: string, c: char, to: string): (r: string) {
    if s == "" then "" else (if s[0] == c then to else [s[0]]) + ReplaceChar(s[1..], c, to)
  }

  /** escape_acl_string. */
  function Escape(s: string): (r: string) {
    ReplaceChar(ReplaceChar(ReplaceChar(ReplaceChar(s, '\\', "\\\\"), '"', "\\\""), '\n', "\\n"), '\r', "\\r")
  }

  function EscapeChar(c: char): (r: string) {
    if c == '\\' then "\\\\"
    else if c == '"' then "\\\""
    else if c == '\n' then "\\n"
    else if c == '\r' then "\\r"
    else [c]
  }

  function EscapeEach(s: string): (r: string) {
    if s == "" then "" else EscapeChar(s[0]) + EscapeEach(s[1..])
  }

  lemma {:induction false} ReplaceJoin(s: string, t: string, c: char, to: string)
    ensures ReplaceChar(s + t, c, to) == ReplaceChar(s, c, to) + ReplaceChar(t, c, to)
  {
    if s == "" {
      assert s + t == t;
    } else {
      ReplaceJoin(s[1..], t, c, to);
      assert (s + t)[0] == s[0] && (s + t)[1..] == s[1..] + t;
      var head := if s[0] == c then to else [s[0]];
      Associate(head, ReplaceChar(s[1..], c, to), ReplaceChar(t, c, to));
    }
  }

  lemma Associate(a: string, b: string, c: string)
    ensures a + (b + c) == (a + b) + c
  {
  }

  lemma {:induction false} ReplaceAbsent(s: string, c: char, to: string)
    requires c !in s
    ensures ReplaceChar(s, c, to) == s
  {
    if s != "" {
      ReplaceAbsent(s[1..], c, to);
    }
  }

  lemma EscapeJoin(s: string, t: string)
    ensures Escape(s + t) == Escape(s) + Escape(t)
  {
    ReplaceJoin(s, t, '\\', "\\\\");
    var s1, t1 := ReplaceChar(s, '\\', "\\\\"), ReplaceChar(t, '\\', "\\\\");
    ReplaceJoin(s1, t1, '"', "\\\"");
    var s2, t2 := ReplaceChar(s1, '"', "\\\""), ReplaceChar(t1, '"', "\\\"");
    ReplaceJoin(s2, t2, '\n', "\\n");
    ReplaceJoin(ReplaceChar(s2, '\n', "\\n"), ReplaceChar(t2, '\n', "\\n"), '\r', "\\r");
  }

  lemma ReplaceOne(x: char, c: char, to: string)
    ensures ReplaceChar([x], c, to) == if x == c then to else [x]
  {
    assert [x][1..] == "";
  }

  /** On one character the four passes do not disturb each other. */
  lemma EscapeOne(c: char)
    ensures Escape([c]) == EscapeChar(c)
  {
    ReplaceOne(c, '\\', "\\\\");
    ReplaceOne(c, '"', "\\\"");
    ReplaceOne(c, '\n', "\\n");
    ReplaceOne(c, '\r', "\\r");
    ReplaceAbsent("\\\\", '"', "\\\"");
    ReplaceAbsent("\\\\", '\n', "\\n");
    ReplaceAbsent("\\\\", '\r', "\\r");
    ReplaceAbsent("\\\"", '\n', "\\n");
    ReplaceAbsent("\\\"", '\r', "\\r");
    ReplaceAbsent("\\n", '\r', "\\r");
  }

  /** The four chained replaces escape each character on its own. */
  lemma {:induction false} EscapeIsPerCharacter(s: string)
    ensures Escape(s) == EscapeEach(s)
  {
    if s != "" {
      EscapeIsPerCharacter(s[1..]);
      EscapeOne(s[0]);
      EscapeJoin([s[0]], s[1..]);
      assert s == [s[0]] + s[1..];
    }
  }

  // ---------------------------------------------------------------------------------------
  // Reading back

  datatype Read = Failed | Read(value: string, rest: string)

  function Unescape(c: char): (r: char) {
    if c == 'n' then '\n' else if c == 'r' then '\r' else c
  }

  /** A left-to-right reader of a quoted string, from behind its opening quote. */
  function ReadQuoted(text: string): (r: Read) {
    if text == "" then Failed
    else if text[0] == '"' then Read("", text[1..])
    else if text[0] == '\\' then
      if |text| < 2 then Failed else Prepend(Unescape(text[1]), ReadQuoted(text[2..]))
    else Prepend(text[0], ReadQuoted(text[1..]))
  }

  function Prepend(c: char, r: Read): (p: Read) {
    if r.Failed? then Failed else Read([c] + r.value, r.rest)
  }

  lemma ReadsEscapedChar(c: char, tail: string)
    ensures ReadQuoted(EscapeChar(c) + tail) == Prepend(c, ReadQuoted(tail))
  {
    var e := EscapeChar(c);
    var text := e + tail;
    if |e| == 1 {
      assert text[0] == c && text[1..] == tail;
    } else {
      assert text[0] == '\\' && text[1] == e[1] && text[2..] == tail;
    }
  }

  /** The reader undoes escaping, whatever the string holds and whatever follows it. */
  lemma {:induction false} ReaderUndoesEscape(s: string, rest: string)
    ensures ReadQuoted(EscapeEach(s) + "\"" + rest) == Read(s, rest)
  {
    if s == "" {
      var text := EscapeEach(s) + "\"" + rest;
      assert text == "\"" + rest;
      assert text[1..] == rest;
    } else {
      ReaderUndoesEscape(s[1..], rest);
      Associate(EscapeChar(s[0]), EscapeEach(s[1..]), "\"");
      Associate(EscapeChar(s[0]), EscapeEach(s[1..]) + "\"", rest);
      ReadsEscapedChar(s[0], EscapeEach(s[1..]) + "\"" + rest);
      assert s == [s[0]] + s[1..];
    }
  }

  // ---------------------------------------------------------------------------------------
  // Numbers and identities

  function Decimal(n: nat): (r: string) {
    if n < 10 then [Digit(n)] else Decimal(n / 10) + [Digit(n % 10)]
  }

  function Digit(d: nat): (c: char)
    requires d < 10
  {
    '0' + d as char
  }

  lemma {:induction false} DecimalIsDigits(n: nat)
    ensures IsDigits(Decimal(n))
  {
    if n >= 10 {
      DecimalIsDigits(n / 10);
    }
  }

  lemma {:induction false} DecimalReadsBack(n: nat)
    ensures IsDigits(Decimal(n)) && DigitsValue(Decimal(n)) == n
  {
    DecimalIsDigits(n);
    if n < 10 {
      assert Decimal(n)[..0] == "";
    } else {
      DecimalReadsBack(n / 10);
      var d := Decimal(n);
      assert d[..|d| - 1] == Decimal(n / 10);
    }
  }

  function HexDigit(d: nat): (c: char)
    requires d < 16
    ensures HexValue(c) == d
  {
    if d < 10 then '0' + d as char else 'a' + (d - 10) as char
  }

  function HexValue(c: char): (d: int) {
    if c <= '9' then c as int - '0' as int else c as int - 'a' as int + 10
  }

  /** The last `width` hexadecimal digits of a number. */
  function Hex(n: nat, width: nat): (r: string)
    ensures |r| == width
  {
    if width == 0 then "" else Hex(n / 16, width - 1) + [HexDigit(n % 16)]
  }

  function Pow16(k: nat): (n: nat) {
    if k == 0 then 1 else 16 * Pow16(k - 1)
  }

  lemma {:induction false} HexIsInjective(m: nat, n: nat, width: nat)
    requires m < Pow16(width) && n < Pow16(width) && Hex(m, width) == Hex(n, width)
    ensures m == n
  {
    if width > 0 {
      var a, b := Hex(m, width), Hex(n, width);
      assert a[width - 1] == b[width - 1];
      assert HexValue(a[width - 1]) == m % 16 && HexValue(b[width - 1]) == n % 16;
      assert a[..width - 1] == Hex(m / 16, width - 1) && b[..width - 1] == Hex(n / 16, width - 1);
      HexIsInjective(m / 16, n / 16, width - 1);
    }
  }

  /** The hyphenated lower-case form of a UUID. */
  function UuidText(id: Uuid): (r: string)
    ensures |r| == 36
  {
    var h := Hex(id, 32);
    h[..8] + "-" + h[8..12] + "-" + h[12..16] + "-" + h[16..20] + "-" + h[20..]
  }

  lemma Pow16Of32()
    ensures Pow16(32) == 0x1_0000_0000_0000_0000_0000_0000_0000_0000
  {
    assert Pow16(8) == 0x1_0000_0000;
    assert Pow16(16) == 0x1_0000_0000_0000_0000;
    assert Pow16(24) == 0x1_0000_0000_0000_0000_0000_0000;
  }

  /** The digits of a UUID are its text without the hyphens. */
  lemma UuidTextShowsDigits(id: Uuid)
    ensures
      var t := UuidText(id);
      Hex(id, 32) == t[..8] + t[9..13] + t[14..18] + t[19..23] + t[24..]
  {
    var t, h := UuidText(id), Hex(id, 32);
    assert t[..8] == h[..8];
    assert t[9..13] == h[8..12];
    assert t[14..18] == h[12..16];
    assert t[19..23] == h[16..20];
    assert t[24..] == h[20..];
  }

  lemma UuidTextIsInjective(a: Uuid, b: Uuid)
    requires UuidText(a) == UuidText(b)
    ensures a == b
  {
    UuidTextShowsDigits(a);
    UuidTextShowsDigits(b);
    Pow16Of32();
    HexIsInjective(a, b, 32);
  }

  // ---------------------------------------------------------------------------------------
  // Pieces

  /** What a block is formatted from: fixed text, names to assign, and the values put between. */
  datatype Piece =
    | Fixed(text: string)
    | Named(lead: string, name: string)
    | Quoted(value: string)
    | Identity(id: Uuid)
    | QuotedList(values: seq<string>)
    | NumberLine(number: nat)

  function QuoteText(s: string): (r: string) {
    "\"" + Escape(s) + "\""
  }

  /** The quoted strings joined by a comma and a blank. */
  function JoinQuoted(values: seq<string>): (r: string) {
    if values == [] then ""
    else if |values| == 1 then QuoteText(values[0])
    else QuoteText(values[0]) + ", " + JoinQuoted(values[1..])
  }

  function PieceText(p: Piece): (r: string) {
    match p
    case Fixed(text) => text
    case Named(lead, name) => lead + (name + " = ")
    case Quoted(value) => QuoteText(value)
    case Identity(id) => "\"" + UuidText(id) + "\""
    case QuotedList(values) => "[" + JoinQuoted(values) + "]"
    case NumberLine(n) => Decimal(n) + "\n"
  }

  function TextOf(ps: seq<Piece>): (r: string) {
    if ps == [] then "" else PieceText(ps[0]) + TextOf(ps[1..])
  }

  predicate SameKind(p: Piece, q: Piece) {
    match p
    case Fixed(_) => p == q
    case Named(_, _) => p == q
    case Quoted(_) => q.Quoted?
    case Identity(_) => q.Identity?
    case QuotedList(_) => q.QuotedList?
    case NumberLine(_) => q.NumberLine?
  }

  predicate SameTemplate(ps: seq<Piece>, qs: seq<Piece>) {
    |ps| == |qs| && forall i :: 0 <= i < |ps| ==> SameKind(ps[i], qs[i])
  }

  lemma Cancel(c: string, x: string, y: string)
    requires c + x == c + y
    ensures x == y
  {
    assert (c + x)[|c|..] == x && (c + y)[|c|..] == y;
  }

  lemma SplitAt(a: string, b: string, x: string, y: string)
    requires |a| == |b| && a + x == b + y
    ensures a == b && x == y
  {
    assert (a + x)[..|a|] == a && (b + y)[..|a|] == b;
    assert (a + x)[|a|..] == x && (b + y)[|a|..] == y;
  }

  lemma OpeningQuote(q: string, s: string, x: string)
    ensures q + s + q + x == q + (s + q + x)
  {
    Associate(q, s, q);
    Associate(q, s + q, x);
  }

  /** A quoted string ends where its reader says, so equal texts hold equal strings. */
  lemma QuotedCancel(a: string, b: string, x: string, y: string)
    requires QuoteText(a) + x == QuoteText(b) + y
    ensures a == b && x == y
  {
    EscapeIsPerCharacter(a);
    EscapeIsPerCharacter(b);
    OpeningQuote("\"", EscapeEach(a), x);
    OpeningQuote("\"", EscapeEach(b), y);
    Cancel("\"", EscapeEach(a) + "\"" + x, EscapeEach(b) + "\"" + y);
    ReaderUndoesEscape(a, x);
    ReaderUndoesEscape(b, y);
  }

  lemma JoinStartsQuoted(values: seq<string>)
    requires values != []
    ensures JoinQuoted(values) != "" && JoinQuoted(values)[0] == '"'
  {
  }

  lemma Reassociate(a: string, b: string, c: string, d: string, e: string)
    ensures a + b + c + d + e == a + (b + (c + d + e))
  {
    Associate(a + b, c, d);
    Associate(a + b, c + d, e);
    Associate(a, b, c + d + e);
  }

  /** What follows the first string of a list. */
  function AfterFirst(values: seq<string>, x: string): (r: string)
    requires values != []
  {
    if |values| == 1 then "]" + x else ", " + (JoinQuoted(values[1..]) + "]" + x)
  }

  lemma ListStep(values: seq<string>, x: string)
    requires values != []
    ensures JoinQuoted(values) + "]" + x == QuoteText(values[0]) + AfterFirst(values, x)
  {
    var q := QuoteText(values[0]);
    if |values| == 1 {
      Associate(q, "]", x);
    } else {
      Reassociate(q, ", ", JoinQuoted(values[1..]), "]", x);
    }
  }

  lemma FirstCancel(a: seq<string>, b: seq<string>, x: string, y: string)
    requires a != [] && b != []
    requires JoinQuoted(a) + "]" + x == JoinQuoted(b) + "]" + y
    ensures a[0] == b[0] && AfterFirst(a, x) == AfterFirst(b, y)
  {
    ListStep(a, x);
    ListStep(b, y);
    QuotedCancel(a[0], b[0], AfterFirst(a, x), AfterFirst(b, y));
  }

  lemma AfterFirstCancel(a: seq<string>, b: seq<string>, x: string, y: string)
    requires a != [] && b != [] && AfterFirst(a, x) == AfterFirst(b, y)
    ensures |a| == 1 <==> |b| == 1
    ensures |a| == 1 ==> x == y
    ensures |a| > 1 ==> JoinQuoted(a[1..]) + "]" + x == JoinQuoted(b[1..]) + "]" + y
  {
    assert AfterFirst(a, x)[0] == AfterFirst(b, y)[0];
    if |a| == 1 {
      Cancel("]", x, y);
    } else {
      Cancel(", ", JoinQuoted(a[1..]) + "]" + x, JoinQuoted(b[1..]) + "]" + y);
    }
  }

  lemma {:induction false} ListCancel(a: seq<string>, b: seq<string>, x: string, y: string)
    requires JoinQuoted(a) + "]" + x == JoinQuoted(b) + "]" + y
    ensures a == b && x == y
    decreases |a|
  {
    if a == [] || b == [] {
      EmptyListCancel(a, b, x, y);
    } else {
      FirstCancel(a, b, x, y);
      AfterFirstCancel(a, b, x, y);
      if |a| > 1 {
        ListCancel(a[1..], b[1..], x, y);
      }
      assert a == [a[0]] + a[1..] && b == [b[0]] + b[1..];
    }
  }

  lemma ListStart(values: seq<string>, x: string)
    ensures (JoinQuoted(values) + "]" + x)[0] == if values == [] then ']' else '"'
  {
    if values != [] {
      JoinStartsQuoted(values);
    }
  }

  lemma EmptyListCancel(a: seq<string>, b: seq<string>, x: string, y: string)
    requires JoinQuoted(a) + "]" + x == JoinQuoted(b) + "]" + y
    requires a == [] || b == []
    ensures a == b && x == y
  {
    ListStart(a, x);
    ListStart(b, y);
    assert JoinQuoted(a) + "]" + x == "]" + x && JoinQuoted(b) + "]" + y == "]" + y;
    Cancel("]", x, y);
  }

  /** A run of digits is not longer than another that the same text starts with. */
  lemma DigitsEndAtNewline(a: string, b: string, x: string, y: string)
    requires forall i :: 0 <= i < |a| ==> '0' <= a[i] <= '9'
    requires a + "\n" + x == b + "\n" + y
    ensures |a| <= |b|
  {
    assert (a + "\n" + x)[|b|] == '\n';
  }

  lemma NumberCancel(m: nat, n: nat, x: string, y: string)
    requires Decimal(m) + "\n" + x == Decimal(n) + "\n" + y
    ensures m == n && x == y
  {
    DecimalIsDigits(m);
    DecimalIsDigits(n);
    var a, b := Decimal(m), Decimal(n);
    DigitsEndAtNewline(a, b, x, y);
    DigitsEndAtNewline(b, a, y, x);
    assert a + "\n" + x == a + ("\n" + x) && b + "\n" + y == b + ("\n" + y);
    SplitAt(a, b, "\n" + x, "\n" + y);
    Cancel("\n", x, y);
    DecimalReadsBack(m);
    DecimalReadsBack(n);
  }

  lemma IdentityCancel(a: Uuid, b: Uuid, x: string, y: string)
    requires PieceText(Identity(a)) + x == PieceText(Identity(b)) + y
    ensures a == b && x == y
  {
    var s, t := PieceText(Identity(a)), PieceText(Identity(b));
    SplitAt(s, t, x, y);
    assert s[1..37] == UuidText(a) && t[1..37] == UuidText(b);
    UuidTextIsInjective(a, b);
  }

  lemma BracketCancel(j: string, k: string, x: string, y: string)
    requires "[" + j + "]" + x == "[" + k + "]" + y
    ensures j + "]" + x == k + "]" + y
  {
    assert "[" + j + "]" + x == "[" + (j + "]" + x) && "[" + k + "]" + y == "[" + (k + "]" + y);
    Cancel("[", j + "]" + x, k + "]" + y);
  }

  lemma QuotedListCancel(a: seq<string>, b: seq<string>, x: string, y: string)
    requires PieceText(QuotedList(a)) + x == PieceText(QuotedList(b)) + y
    ensures a == b && x == y
  {
    BracketCancel(JoinQuoted(a), JoinQuoted(b), x, y);
    ListCancel(a, b, x, y);
  }

  lemma PieceCancel(p: Piece, q: Piece, x: string, y: string)
    requires SameKind(p, q) && PieceText(p) + x == PieceText(q) + y
    ensures p == q && x == y
  {
    match p
    case Fixed(text) => Cancel(text, x, y);
    case Named(_, _) => Cancel(PieceText(p), x, y);
    case Quoted(value) => QuotedCancel(value, q.value, x, y);
    case Identity(id) => IdentityCancel(id, q.id, x, y);
    case QuotedList(values) => QuotedListCancel(values, q.values, x, y);
    case NumberLine(n) => NumberCancel(n, q.number, x, y);
  }

  lemma TextStep(ps: seq<Piece>, x: string)
    requires ps != []
    ensures TextOf(ps) + x == PieceText(ps[0]) + (TextOf(ps[1..]) + x)
  {
  }

  /** Two texts of one template that agree, agree in every value. */
  lemma {:induction false} TemplateIsInjective(ps: seq<Piece>, qs: seq<Piece>, x: string, y: string)
    requires SameTemplate(ps, qs) && TextOf(ps) + x == TextOf(qs) + y
    ensures ps == qs && x == y
  {
    if ps == [] {
      assert TextOf(ps) + x == x && TextOf(qs) + y == y;
    } else {
      TextStep(ps, x);
      TextStep(qs, y);
      PieceCancel(ps[0], qs[0], TextOf(ps[1..]) + x, TextOf(qs[1..]) + y);
      TemplateIsInjective(ps[1..], qs[1..], x, y);
      assert ps == [ps[0]] + ps[1..] && qs == [qs[0]] + qs[1..];
    }
  }

  // ---------------------------------------------------------------------------------------
  // What a text says

  predicate ReadsAs(text: string, before: string, name: string, value: string, after: string) {
    text == before + (name + " = ") + value + after
  }

  /** Somewhere the text gives `name` that value. */
  ghost predicate Assigns(text: string, name: string, value: string) {
    exists before, after :: ReadsAs(text, before, name, value, after)
  }

  lemma {:induction false} TextAround(ps: seq<Piece>, k: nat)
    requires k < |ps|
    ensures TextOf(ps) == TextOf(ps[..k]) + (PieceText(ps[k]) + TextOf(ps[k + 1..]))
  {
    if k == 0 {
      assert ps[..0] == [];
    } else {
      TextAround(ps[1..], k - 1);
      assert ps[1..][..k - 1] == ps[..k][1..] && ps[1..][k..] == ps[k + 1..];
      Associate(PieceText(ps[0]), TextOf(ps[1..][..k - 1]), PieceText(ps[k]) + TextOf(ps[k + 1..]));
    }
  }

  predicate NamedAt(ps: seq<Piece>, k: nat, name: string, value: Piece) {
    k + 1 < |ps| && ps[k].Named? && ps[k].name == name && ps[k + 1] == value
  }

  /** Some piece names `name` and the next one is the value. */
  predicate Gives(ps: seq<Piece>, name: string, value: Piece) {
    exists k: nat :: k < |ps| && NamedAt(ps, k, name, value)
  }

  /** A name is assigned the piece behind it. */
  lemma GivenIsAssigned(ps: seq<Piece>, name: string, value: Piece)
    requires Gives(ps, name, value)
    ensures Assigns(TextOf(ps), name, PieceText(value))
  {
    var k: nat :| k < |ps| && NamedAt(ps, k, name, value);
    var lead, before, shown, after := ps[k].lead, TextOf(ps[..k]), PieceText(value), TextOf(ps[k + 2..]);
    TextAround(ps, k);
    assert ps[k + 1..][0] == value && ps[k + 1..][1..] == ps[k + 2..];
    var named := name + " = ";
    Associate(lead, named, shown + after);
    Associate(before, lead, named + (shown + after));
    Associate(before + lead, named, shown + after);
    Associate(before + lead + named, shown, after);
    assert ReadsAs(TextOf(ps), before + lead, name, shown, after);
  }

  /** A name and the value a text is to give it. */
  datatype Field = Field(name: string, value: Piece)

  predicate GivesAll(ps: seq<Piece>, fields: seq<Field>) {
    forall i :: 0 <= i < |fields| ==> Gives(ps, fields[i].name, fields[i].value)
  }

  ghost predicate AssignsAll(text: string, fields: seq<Field>) {
    forall i :: 0 <= i < |fields| ==> Assigns(text, fields[i].name, PieceText(fields[i].value))
  }

  /** An entry opens with a word and a value and assigns every field. */
  ghost predicate Says(text: string, word: string, value: Piece, fields: seq<Field>) {
    word + PieceText(value) <= text && AssignsAll(text, fields)
  }

  lemma PiecesSay(ps: seq<Piece>, word: string, value: Piece, fields: seq<Field>)
    requires |ps| >= 2 && ps[0] == Fixed(word) && ps[1] == value && GivesAll(ps, fields)
    ensures Says(TextOf(ps), word, value, fields)
  {
    TextStep(ps, "");
    TextStep(ps[1..], "");
    var rest := TextOf(ps[1..][1..]);
    assert TextOf(ps[1..]) == PieceText(value) + rest && TextOf(ps) == word + TextOf(ps[1..]);
    Associate(word, PieceText(value), rest);
    forall i | 0 <= i < |fields|
      ensures Assigns(TextOf(ps), fields[i].name, PieceText(fields[i].value))
    {
      GivenIsAssigned(ps, fields[i].name, fields[i].value);
    }
  }

  // ---------------------------------------------------------------------------------------
  // Field checks shared by both blocks

  predicate IsWhite(c: char) {
    || '\t' <= c <= '\r' || c == ' ' || c == '\U{0085}' || c == '\U{00A0}' || c == '\U{1680}'
    || '\U{2000}' <= c <= '\U{200A}' || c == '\U{2028}' || c == '\U{2029}' || c == '\U{202F}'
    || c == '\U{205F}' || c == '\U{3000}'
  }

  /** validate_token. */
  predicate TokenOk(s: string, max: nat) {
    && s != "" && Utf8Length(s) <= max
    && !IsWhite(s[0]) && !IsWhite(s[|s| - 1])
    && '\n' !in s && '\r' !in s && '\0' !in s
  }

  function TrimStart(s: string): (r: string)
    ensures |r| <= |s|
  {
    if s != "" && IsWhite(s[0]) then TrimStart(s[1..]) else s
  }

  function TrimEnd(s: string): (r: string)
    ensures |r| <= |s|
  {
    if s != "" && IsWhite(s[|s| - 1]) then TrimEnd(s[..|s| - 1]) else s
  }

  /** A token is a text that trimming leaves as it is. */
  lemma TokenOkIff(s: string, max: nat)
    ensures TokenOk(s, max) <==>
            && 0 < |s| && Utf8Length(s) <= max
            && TrimEnd(TrimStart(s)) == s
            && forall i :: 0 <= i < |s| ==> s[i] != '\n' && s[i] != '\r' && s[i] != '\0'
  {
    if s != "" && IsWhite(s[0]) {
      assert |TrimStart(s)| <= |s[1..]| < |s|;
    } else if s != "" && IsWhite(s[|s| - 1]) {
      assert |TrimEnd(s)| <= |s[..|s| - 1]| < |s|;
    }
  }

  /** valid_sha256. */
  predicate Sha256Ok(s: string) {
    && "sha256:" <= s
    && |s| == 71
    && forall i :: 7 <= i < |s| ==> '0' <= s[i] <= '9' || 'a' <= s[i] <= 'f'
  }

  predicate IsHexadecimal(s: string) {
    |s| == 64 && forall c :: c in s ==> '0' <= c <= '9' || 'a' <= c <= 'f'
  }

  /** A digest is its algorithm and 64 lower-case hexadecimal digits. */
  lemma Sha256OkIff(s: string)
    ensures Sha256Ok(s) <==> exists digits :: IsHexadecimal(digits) && s == "sha256:" + digits
  {
    if Sha256Ok(s) {
      assert s == "sha256:" + s[7..] && IsHexadecimal(s[7..]);
    }
    forall digits | IsHexadecimal(digits) && s == "sha256:" + digits
      ensures Sha256Ok(s)
    {
      assert forall i :: 7 <= i < |s| ==> s[i] == digits[i - 7] && digits[i - 7] in digits;
    }
  }
}
