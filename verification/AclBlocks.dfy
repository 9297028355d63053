/** Rendering a snapshot block: sort the entries, refuse an invalid or repeated one, and append
    their texts. Both ACL renderers of the source are this, for their own entry. */
module AclBlocks {
  import opened Base
  import opened Sorting
  import opened Text
  import opened AclText

  datatype Format<!T, !K> = Format(
    header: string,
    valid: T -> bool,
    key: T -> K,
    before: (T, T) -> bool,
    pieces: T -> seq<Piece>)

  /** The order is by key, an entry's text shows where the entry ends, and it does not start like
      the closing brace of the block. */
  ghost predicate Lawful<T(!new), K(!new)>(f: Format<T, K>) {
    && f.header != ""
    && TotalPreorder(f.before)
    && (forall a, b :: f.before(a, b) && f.before(b, a) <==> f.key(a) == f.key(b))
    && (forall a :: TextOf(f.pieces(a)) != "" && TextOf(f.pieces(a))[0] != '}')
    && (forall a, b, x, y :: TextOf(f.pieces(a)) + x == TextOf(f.pieces(b)) + y ==> a == b && x == y)
  }

  function Keys<T, K>(f: Format<T, K>, xs: seq<T>): (r: seq<K>) {
    seq(|xs|, i requires 0 <= i < |xs| => f.key(xs[i]))
  }

  /** Every entry is valid and no key occurs twice. */
  ghost predicate Acceptable<T, K>(f: Format<T, K>, xs: seq<T>) {
    (forall i :: 0 <= i < |xs| ==> f.valid(xs[i])) && Distinct(Keys(f, xs))
  }

  function Entries<T, K>(f: Format<T, K>, xs: seq<T>): (r: string) {
    if xs == [] then "" else TextOf(f.pieces(xs[0])) + Entries(f, xs[1..])
  }

  ghost function Rendered<T(!new), K>(f: Format<T, K>, xs: seq<T>): (r: Option<string>) {
    if xs == [] then Some("")
    else if !Acceptable(f, xs) then None
    else Some(f.header + Entries(f, Sort(xs, f.before)) + "}\n")
  }

  // ---------------------------------------------------------------------------------------
  // The loop

  lemma AcceptableExtend<T, K>(f: Format<T, K>, xs: seq<T>, x: T)
    ensures Acceptable(f, xs + [x]) <==> Acceptable(f, xs) && f.valid(x) && f.key(x) !in Keys(f, xs)
  {
    var longer := xs + [x];
    assert Keys(f, longer) == Keys(f, xs) + [f.key(x)];
    DistinctExtend(Keys(f, xs), f.key(x));
    assert longer[|xs|] == x && forall i :: 0 <= i < |xs| ==> longer[i] == xs[i];
  }

  lemma AcceptablePrefix<T, K>(f: Format<T, K>, xs: seq<T>, n: nat)
    requires n <= |xs| && Acceptable(f, xs)
    ensures Acceptable(f, xs[..n])
  {
    assert Keys(f, xs[..n]) <= Keys(f, xs);
    DistinctPrefix(Keys(f, xs[..n]), Keys(f, xs));
  }

  lemma {:induction false} EntriesAppend<T, K>(f: Format<T, K>, xs: seq<T>, x: T)
    ensures Entries(f, xs + [x]) == Entries(f, xs) + TextOf(f.pieces(x))
  {
    var longer := xs + [x];
    if xs == [] {
      assert longer == [x] && longer[1..] == [];
    } else {
      EntriesAppend(f, xs[1..], x);
      assert longer[0] == xs[0] && longer[1..] == xs[1..] + [x];
      Associate(TextOf(f.pieces(xs[0])), Entries(f, xs[1..]), TextOf(f.pieces(x)));
    }
  }

  /** Acceptability does not depend on the order of the entries. */
  lemma AcceptableIgnoresOrder<T(!new), K(!new)>(f: Format<T, K>, xs: seq<T>, ys: seq<T>)
    requires multiset(xs) == multiset(ys) && Acceptable(f, xs)
    ensures Acceptable(f, ys)
  {
    SameElements(xs, ys);
    KeysTellApart(f, xs);
    DistinctIgnoresOrder(xs, ys);
    forall i, j | 0 <= i < j < |ys|
      ensures Keys(f, ys)[i] != Keys(f, ys)[j]
    {
      assert ys[i] in xs && ys[j] in xs && ys[i] != ys[j];
    }
    forall i | 0 <= i < |ys|
      ensures f.valid(ys[i])
    {
      assert ys[i] in xs;
    }
  }

  lemma KeysTellApart<T(!new), K(!new)>(f: Format<T, K>, xs: seq<T>)
    requires Distinct(Keys(f, xs))
    ensures Distinct(xs)
    ensures forall x, y :: x in xs && y in xs && f.key(x) == f.key(y) ==> x == y
  {
    var keys := Keys(f, xs);
    forall i, j | 0 <= i < j < |xs|
      ensures xs[i] != xs[j] && f.key(xs[i]) != f.key(xs[j])
    {
      assert keys[i] != keys[j];
    }
    forall x, y | x in xs && y in xs && f.key(x) == f.key(y)
      ensures x == y
    {
      var i :| 0 <= i < |xs| && xs[i] == x;
      var j :| 0 <= j < |xs| && xs[j] == y;
      assert i == j;
    }
  }

  lemma RefusedPrefix<T, K>(f: Format<T, K>, xs: seq<T>, n: nat)
    requires n <= |xs| && !Acceptable(f, xs[..n])
    ensures !Acceptable(f, xs)
  {
    if Acceptable(f, xs) {
      AcceptablePrefix(f, xs, n);
    }
  }

  lemma OneMoreSeen<T, K>(f: Format<T, K>, xs: seq<T>, x: T)
    ensures Elements(Keys(f, xs + [x])) == Elements(Keys(f, xs)) + {f.key(x)}
    ensures f.header + Entries(f, xs + [x]) == (f.header + Entries(f, xs)) + TextOf(f.pieces(x))
  {
    assert Keys(f, xs + [x]) == Keys(f, xs) + [f.key(x)];
    EntriesAppend(f, xs, x);
    var a, b, c := f.header, Entries(f, xs), TextOf(f.pieces(x));
    assert a + (b + c) == (a + b) + c;
  }

  /** The rendering loop: entries are checked one by one against the keys seen so far. */
  method RenderOrdered<T(!new), K(==, !new)>(f: Format<T, K>, xs: seq<T>) returns (r: Option<string>)
    ensures r == if Acceptable(f, xs) then Some(f.header + Entries(f, xs) + "}\n") else None
  {
    var seen: set<K> := {};
    var out := f.header;
    for n := 0 to |xs|
      invariant seen == Elements(Keys(f, xs[..n]))
      invariant Acceptable(f, xs[..n])
      invariant out == f.header + Entries(f, xs[..n])
    {
      var x := xs[n];
      ghost var done := xs[..n];
      assert xs[..n + 1] == done + [x];
      AcceptableExtend(f, done, x);
      if !f.valid(x) || f.key(x) in seen {
        RefusedPrefix(f, xs, n + 1);
        return None;
      }
      OneMoreSeen(f, done, x);
      seen := seen + {f.key(x)};
      out := out + TextOf(f.pieces(x));
    }
    assert xs[..|xs|] == xs;
    return Some(out + "}\n");
  }

  method RenderBlock<T(!new), K(==, !new)>(f: Format<T, K>, xs: seq<T>) returns (r: Option<string>)
    ensures r == Rendered(f, xs)
  {
    if xs == [] {
      return Some("");
    }
    var ordered := Sort(xs, f.before);
    SortPermutes(xs, f.before);
    if Acceptable(f, xs) {
      AcceptableIgnoresOrder(f, xs, ordered);
    } else if Acceptable(f, ordered) {
      AcceptableIgnoresOrder(f, ordered, xs);
    }
    r := RenderOrdered(f, ordered);
  }

  // ---------------------------------------------------------------------------------------
  // Canonical and injective

  /** Canonical: every permutation of a list renders alike, refusal included. */
  lemma RenderingIsCanonical<T(!new), K(!new)>(f: Format<T, K>, xs: seq<T>, ys: seq<T>)
    requires Lawful(f) && multiset(xs) == multiset(ys)
    ensures Rendered(f, xs) == Rendered(f, ys)
  {
    SameElements(xs, ys);
    if Acceptable(f, xs) {
      AcceptableIgnoresOrder(f, xs, ys);
      KeysTellApart(f, xs);
      SortIsCanonical(xs, ys, f.before);
    } else if Acceptable(f, ys) {
      AcceptableIgnoresOrder(f, ys, xs);
    }
  }

  lemma EntriesStart<T(!new), K(!new)>(f: Format<T, K>, xs: seq<T>)
    requires Lawful(f)
    ensures Entries(f, xs) + "}\n" != ""
    ensures (Entries(f, xs) + "}\n")[0] == '}' <==> xs == []
  {
    if xs != [] {
      assert TextOf(f.pieces(xs[0])) != "" && TextOf(f.pieces(xs[0]))[0] != '}';
    }
  }

  lemma {:induction false} EntriesCancel<T(!new), K(!new)>(f: Format<T, K>, xs: seq<T>, ys: seq<T>)
    requires Lawful(f) && Entries(f, xs) + "}\n" == Entries(f, ys) + "}\n"
    ensures xs == ys
    decreases |xs|
  {
    EntriesStart(f, xs);
    EntriesStart(f, ys);
    if xs != [] {
      Associate(TextOf(f.pieces(xs[0])), Entries(f, xs[1..]), "}\n");
      Associate(TextOf(f.pieces(ys[0])), Entries(f, ys[1..]), "}\n");
      assert xs[0] == ys[0] && Entries(f, xs[1..]) + "}\n" == Entries(f, ys[1..]) + "}\n";
      EntriesCancel(f, xs[1..], ys[1..]);
      assert xs == [xs[0]] + xs[1..] && ys == [ys[0]] + ys[1..];
    }
  }

  /** Injective: two accepted lists with the same text hold the same entries. */
  lemma RenderingIsInjective<T(!new), K(!new)>(f: Format<T, K>, xs: seq<T>, ys: seq<T>)
    requires Lawful(f) && Rendered(f, xs).Some? && Rendered(f, xs) == Rendered(f, ys)
    ensures multiset(xs) == multiset(ys)
  {
    SortPermutes(xs, f.before);
    SortPermutes(ys, f.before);
    if xs != [] && ys != [] {
      var s, t := Sort(xs, f.before), Sort(ys, f.before);
      Associate(f.header, Entries(f, s), "}\n");
      Associate(f.header, Entries(f, t), "}\n");
      Cancel(f.header, Entries(f, s) + "}\n", Entries(f, t) + "}\n");
      EntriesCancel(f, s, t);
    }
  }

  // ---------------------------------------------------------------------------------------
  // Every entry is in the text

  predicate StandsAt(text: string, before: string, part: string, after: string) {
    text == before + part + after
  }

  ghost predicate Contains(text: string, part: string) {
    exists before, after :: StandsAt(text, before, part, after)
  }

  lemma StandsInside(text: string, before: string, part: string, after: string, head: string, tail: string)
    requires StandsAt(text, before, part, after)
    ensures StandsAt(head + text + tail, head + before, part, after + tail)
  {
    Associate(head, before + part, after);
    Associate(head, before, part);
    Associate(head + before + part, after, tail);
  }

  lemma ContainsInside(text: string, part: string, head: string, tail: string)
    requires Contains(text, part)
    ensures Contains(head + text + tail, part)
  {
    var before, after :| StandsAt(text, before, part, after);
    StandsInside(text, before, part, after, head, tail);
  }

  lemma {:induction false} EntriesContain<T, K>(f: Format<T, K>, xs: seq<T>, k: nat)
    requires k < |xs|
    ensures Contains(Entries(f, xs), TextOf(f.pieces(xs[k])))
  {
    var head := TextOf(f.pieces(xs[0]));
    if k == 0 {
      assert StandsAt(Entries(f, xs), "", head, Entries(f, xs[1..]));
    } else {
      EntriesContain(f, xs[1..], k - 1);
      ContainsInside(Entries(f, xs[1..]), TextOf(f.pieces(xs[k])), head, "");
      assert Entries(f, xs) + "" == Entries(f, xs);
    }
  }

  /** The text of an accepted list holds the text of every entry, in one piece. */
  lemma RenderedContains<T(!new), K(!new)>(f: Format<T, K>, xs: seq<T>, x: T)
    requires Rendered(f, xs).Some? && x in xs
    ensures Contains(Rendered(f, xs).value, TextOf(f.pieces(x)))
  {
    var sorted := Sort(xs, f.before);
    SortPermutes(xs, f.before);
    assert x in sorted;
    var k :| 0 <= k < |sorted| && sorted[k] == x;
    EntriesContain(f, sorted, k);
    ContainsInside(Entries(f, sorted), TextOf(f.pieces(x)), f.header, "}\n");
  }

  /** The text of an accepted list is the header, the entries in their order, each once, and the
      closing brace; the empty list has no text. */
  lemma RenderedInOrder<T(!new), K(!new)>(f: Format<T, K>, xs: seq<T>) returns (ordered: seq<T>)
    requires Lawful(f) && Rendered(f, xs).Some?
    ensures multiset(ordered) == multiset(xs)
    ensures forall i, j :: 0 <= i < j < |ordered| ==> f.before(ordered[i], ordered[j]) && f.key(ordered[i]) != f.key(ordered[j])
    ensures Rendered(f, xs).value == if xs == [] then "" else f.header + Entries(f, ordered) + "}\n"
  {
    ordered := Sort(xs, f.before);
    SortPermutes(xs, f.before);
    SortSorts(xs, f.before);
    if xs != [] {
      AcceptableIgnoresOrder(f, xs, ordered);
      assert forall i :: 0 <= i < |ordered| ==> Keys(f, ordered)[i] == f.key(ordered[i]);
    }
  }
}
