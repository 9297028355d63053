/** Credential prefixes: the check on sorted neighbours against the check on all pairs.
    crates/contracts/src/mcp.rs. */
module McpPrefixes {
  import opened Base
  import opened Sorting
  import opened Text

  /** No listed prefix begins another. */
  predicate PrefixFree(prefixes: seq<string>) {
    forall i, j :: 0 <= i < |prefixes| && 0 <= j < |prefixes| && i != j ==> !(prefixes[i] <= prefixes[j])
  }

  predicate NeighboursFree(sorted: seq<string>) {
    forall i :: 0 < i < |sorted| ==> !(sorted[i - 1] <= sorted[i])
  }

  /** In a sorted list, if any element begins a later one, it begins its own successor. */
  lemma OverlapShowsInNeighbours(sorted: seq<string>, i: nat, j: nat)
    requires Sorted(sorted, LexLe) && i < j < |sorted| && sorted[i] <= sorted[j]
    ensures sorted[i] <= sorted[i + 1]
  {
    if i + 1 < j {
      PrefixSandwich(sorted[i], sorted[i + 1], sorted[j]);
    }
  }

  lemma {:induction false} PrefixIsLexLe(a: string, b: string)
    requires a <= b
    ensures LexLe(a, b)
  {
    if a != "" {
      PrefixIsLexLe(a[1..], b[1..]);
    }
  }

  /** Nor can a later element begin an earlier one. */
  lemma LaterBeginsNoEarlier(sorted: seq<string>, i: nat, j: nat)
    requires Sorted(sorted, LexLe) && Distinct(sorted) && j < i < |sorted|
    ensures !(sorted[i] <= sorted[j])
  {
    if sorted[i] <= sorted[j] {
      PrefixIsLexLe(sorted[i], sorted[j]);
      LexAntisymmetric(sorted[i], sorted[j]);
    }
  }

  lemma EarlierBeginsNoLater(sorted: seq<string>, i: nat, j: nat)
    requires Sorted(sorted, LexLe) && i < j < |sorted| && !(sorted[i] <= sorted[i + 1])
    ensures !(sorted[i] <= sorted[j])
  {
    if sorted[i] <= sorted[j] {
      OverlapShowsInNeighbours(sorted, i, j);
    }
  }

  /** On a sorted list without repetitions the neighbour check decides the check on all pairs. */
  lemma NeighboursDecide(sorted: seq<string>)
    requires Sorted(sorted, LexLe) && Distinct(sorted)
    ensures NeighboursFree(sorted) <==> PrefixFree(sorted)
  {
    if NeighboursFree(sorted) {
      forall i, j | 0 <= i < |sorted| && 0 <= j < |sorted| && i != j
        ensures !(sorted[i] <= sorted[j])
      {
        if i < j {
          assert !(sorted[(i + 1) - 1] <= sorted[i + 1]);
          EarlierBeginsNoLater(sorted, i, j);
        } else {
          LaterBeginsNoEarlier(sorted, i, j);
        }
      }
    }
  }

  predicate PairFree(a: string, b: string) {
    !(a <= b) && !(b <= a)
  }

  lemma PrefixFreeByMembers(s: seq<string>)
    requires Distinct(s)
    ensures PrefixFree(s) <==> forall a, b :: a in s && b in s && a != b ==> PairFree(a, b)
  {
    if PrefixFree(s) {
      forall a, b | a in s && b in s && a != b
        ensures PairFree(a, b)
      {
        var i :| 0 <= i < |s| && s[i] == a;
        var j :| 0 <= j < |s| && s[j] == b;
        assert i != j;
      }
    }
    if forall a, b :: a in s && b in s && a != b ==> PairFree(a, b) {
      forall i, j | 0 <= i < |s| && 0 <= j < |s| && i != j
        ensures !(s[i] <= s[j])
      {
        assert s[i] != s[j];
        assert PairFree(s[i], s[j]);
      }
    }
  }

  /** The order of the list does not matter to either check. */
  lemma SortedPrefixFree(prefixes: seq<string>)
    requires Distinct(prefixes)
    ensures Distinct(Sort(prefixes, LexLe))
    ensures PrefixFree(Sort(prefixes, LexLe)) <==> PrefixFree(prefixes)
  {
    var sorted := Sort(prefixes, LexLe);
    SortPermutes(prefixes, LexLe);
    DistinctIgnoresOrder(sorted, prefixes);
    PrefixFreeByMembers(sorted);
    PrefixFreeByMembers(prefixes);
  }

  lemma SortedNeighboursDecide(prefixes: seq<string>)
    requires Distinct(prefixes)
    ensures NeighboursFree(Sort(prefixes, LexLe)) <==> PrefixFree(prefixes)
  {
    LexIsATotalPreorder();
    SortSorts(prefixes, LexLe);
    SortedPrefixFree(prefixes);
    NeighboursDecide(Sort(prefixes, LexLe));
  }

  /** The sorted-window check, for any list without repetitions. */
  method CheckPrefixes(prefixes: seq<string>) returns (ok: bool)
    requires Distinct(prefixes)
    ensures ok <==> PrefixFree(prefixes)
  {
    SortedNeighboursDecide(prefixes);
    var sorted := Sort(prefixes, LexLe);
    var n := 1;
    while n < |sorted|
      invariant 1 <= n
      invariant forall i :: 0 < i < n && i < |sorted| ==> !(sorted[i - 1] <= sorted[i])
    {
      if sorted[n - 1] <= sorted[n] {
        return false;
      }
      n := n + 1;
    }
    return true;
  }

  lemma TwoPrefixesOfOne(a: string, b: string, t: string)
    requires a <= t && b <= t
    ensures a <= b || b <= a
  {
  }

  /** So a presented string starts with at most one of the prefixes. */
  lemma AtMostOnePrefixMatches(prefixes: seq<string>, presented: string, i: nat, j: nat)
    requires PrefixFree(prefixes) && i < |prefixes| && j < |prefixes|
    requires prefixes[i] <= presented && prefixes[j] <= presented
    ensures i == j
  {
    TwoPrefixesOfOne(prefixes[i], prefixes[j], presented);
  }
}
