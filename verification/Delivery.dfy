/** What the control plane ends up with, over every run of the protocol. */
module Delivery {
  import opened Base
  import opened ProviderEvents
  import opened Shipping
  import opened Collect
  import opened Protocol

  /** A provider's source sequence: the semantic record each source event carries, if any. */
  type Source = seq<Option<Record>>

  /** The records of the source events lo..hi-1, in order. */
  function Records(src: Source, lo: nat, hi: nat): (r: seq<Record>)
    requires hi <= |src|
  {
    if lo >= hi then []
    else Records(src, lo, hi - 1) + (if src[hi - 1].Some? then [src[hi - 1].value] else [])
  }

  lemma {:induction false} RecordsJoin(src: Source, lo: nat, mid: nat, hi: nat)
    requires lo <= mid <= hi <= |src|
    ensures Records(src, lo, mid) + Records(src, mid, hi) == Records(src, lo, hi)
  {
    if mid < hi {
      RecordsJoin(src, lo, mid, hi - 1);
    }
  }

  /** A page tells the truth about a source: it carries exactly the records of its interval. */
  predicate Honest(src: Source, p: Page) {
    !p.retentionGap ==>
      && Position(p.next) <= |src|
      && p.events == Records(src, Position(p.after), Position(p.next))
  }

  /** The pages a history holds for one binding, in order. */
  function PagesOf(s: seq<Batch>, b: Binding): (r: seq<Page>) {
    if s == [] then []
    else
      var last := s[|s| - 1];
      PagesOf(s[..|s| - 1], b) + (if last.binding == b then [last.page] else [])
  }

  /** Each page starts where its predecessor ended, and only the last can end the run. */
  predicate Follows(pages: seq<Page>, i: nat)
    requires i < |pages|
  {
    && PageValid(pages[i])
    && if i == 0 then pages[i].after.None?
       else
         && pages[i].after == pages[i - 1].next
         && !Drains(pages[i - 1])
         && pages[i - 1].observedAt <= pages[i].observedAt
  }

  predicate Chain(pages: seq<Page>) {
    forall i :: 0 <= i < |pages| ==> Follows(pages, i)
  }

  /** The number of source events the pages cover. */
  function Reached(pages: seq<Page>): (n: nat) {
    if pages == [] then 0 else Position(pages[|pages| - 1].next)
  }

  function Delivered(pages: seq<Page>): (r: seq<Record>) {
    if pages == [] then [] else Delivered(pages[..|pages| - 1]) + pages[|pages| - 1].events
  }

  lemma PagesOfAppend(s: seq<Batch>, x: Batch, b: Binding)
    ensures PagesOf(s + [x], b) == if x.binding == b then PagesOf(s, b) + [x.page] else PagesOf(s, b)
  {
    assert (s + [x])[..|s|] == s;
  }

  lemma {:induction false} PagesOfPrefix(s: seq<Batch>, t: seq<Batch>, b: Binding)
    requires s <= t
    ensures PagesOf(s, b) <= PagesOf(t, b)
  {
    if |s| == |t| {
      assert s == t;
    } else {
      PagesOfPrefix(s, t[..|t| - 1], b);
    }
  }

  lemma ChainPrefix(s: seq<Page>, t: seq<Page>)
    requires s <= t && Chain(t)
    ensures Chain(s)
  {
    forall i | 0 <= i < |s|
      ensures Follows(s, i)
    {
      assert Follows(t, i);
    }
  }

  /** The stored cursor of a binding is the cursor its last committed page left. */
  predicate CursorMatches(cursors: map<string, Cursor>, b: Binding, pages: seq<Page>) {
    if pages == [] then Key(b) in cursors ==> cursors[Key(b)].binding != b
    else Key(b) in cursors && cursors[Key(b)] == CursorAfter(b, pages[|pages| - 1])
  }

  predicate Tracked(node: Uuid, w: World, b: Binding) {
    && Chain(PagesOf(w.committed, b))
    && CursorMatches(Contents(w.file, node).cursors, b, PagesOf(w.committed, b))
  }

  /** A batch that continues the stored cursor extends its binding's chain. */
  lemma ContinuingPageExtendsChain(cursors: map<string, Cursor>, b: Batch, pages: seq<Page>)
    requires Chain(pages) && CursorMatches(cursors, b.binding, pages)
    requires BatchValid(b) && Continues(cursors, b)
    ensures Chain(pages + [b.page])
  {
    var longer := pages + [b.page];
    forall i | 0 <= i < |longer|
      ensures Follows(longer, i)
    {
      if i < |pages| {
        assert Follows(pages, i);
      }
    }
  }

  lemma SnapKeepsTracked(node: Uuid, w: World, i: nat, bindings: seq<Binding>, b: Binding)
    requires FileOk(w.file, node) && Tracked(node, w, b) && b in bindings
    ensures Tracked(node, AfterSnap(node, w, i, bindings), b)
  {
    assert Key(b) in Keys(bindings);
  }

  lemma CommitExtendsTrack(cursors: map<string, Cursor>, committed: seq<Batch>, x: Batch, b: Binding)
    requires Chain(PagesOf(committed, b)) && CursorMatches(cursors, b, PagesOf(committed, b))
    requires BatchValid(x) && Continues(cursors, x)
    ensures Chain(PagesOf(committed + [x], b))
    ensures CursorMatches(cursors[Key(x.binding) := CursorAfter(x.binding, x.page)], b, PagesOf(committed + [x], b))
  {
    PagesOfAppend(committed, x, b);
    if x.binding == b {
      ContinuingPageExtendsChain(cursors, x, PagesOf(committed, b));
    } else {
      OtherBindingKeepsCursor(cursors, x, b, PagesOf(committed, b));
    }
  }

  lemma AcknowledgeKeepsTracked(node: Uuid, w: World, i: nat, r: Receipt, b: Binding)
    requires FileOk(w.file, node) && Tracked(node, w, b)
    ensures Tracked(node, AfterAcknowledge(node, w, i, r), b)
  {
    if Commit(w.file, node, r).outcome.Ok? {
      CommitExtendsTrack(Contents(w.file, node).cursors, w.committed, Contents(w.file, node).pending.value, b);
    }
  }

  /** A commit for one binding never touches the cursor of another, even under one digest. */
  lemma OtherBindingKeepsCursor(cursors: map<string, Cursor>, x: Batch, b: Binding, pages: seq<Page>)
    requires x.binding != b && Continues(cursors, x) && CursorMatches(cursors, b, pages)
    ensures CursorMatches(cursors[Key(x.binding) := CursorAfter(x.binding, x.page)], b, pages)
  {
  }

  ghost predicate AlwaysListed(steps: seq<Step>, b: Binding) {
    forall k :: 0 <= k < |steps| && steps[k].Snap? ==> b in steps[k].bindings
  }

  lemma StepKeepsTracked(node: Uuid, w: World, step: Step, b: Binding)
    requires FileOk(w.file, node) && Tracked(node, w, b)
    requires step.Snap? ==> b in step.bindings
    ensures Tracked(node, Apply(node, w, step), b)
  {
    var phase := PhaseOf(w, step.shipper);
    match step
    case Snap(i, bindings) => SnapKeepsTracked(node, w, i, bindings, b);
    case Acknowledge(i) =>
      if phase.Committing? { AcknowledgeKeepsTracked(node, w, i, phase.receipt, b); }
    case _ =>
  }

  lemma {:induction false} ReachableTracked(node: Uuid, steps: seq<Step>, b: Binding)
    requires node != NIL && AlwaysListed(steps, b)
    ensures Tracked(node, Exec(node, INITIAL, steps), b)
  {
    if steps != [] {
      var before := steps[..|steps| - 1];
      assert steps[|steps| - 1].Snap? ==> b in steps[|steps| - 1].bindings;
      ReachableTracked(node, before, b);
      ReachableInv(node, before);
      StepKeepsTracked(node, Exec(node, INITIAL, before), steps[|steps| - 1], b);
    }
  }

  lemma PendingExtendsHistory(node: Uuid, w: World, b: Binding)
    requires FileOk(w.file, node) && HistoryOk(w)
    ensures
      var pending := Contents(w.file, node).pending;
      PagesOf(w.staged, b) ==
        if pending.Some? && pending.value.binding == b then PagesOf(w.committed, b) + [pending.value.page]
        else PagesOf(w.committed, b)
  {
    var pending := Contents(w.file, node).pending;
    if pending.Some? {
      assert w.staged == w.committed + [pending.value];
      PagesOfAppend(w.committed, pending.value, b);
    } else {
      assert w.staged == w.committed;
    }
  }

  /** Everything staged for a binding, and hence everything recorded, is one chain. */
  lemma StagedIsAChain(node: Uuid, w: World, b: Binding)
    requires FileOk(w.file, node) && HistoryOk(w) && Tracked(node, w, b)
    requires Dedup(w.log) <= w.staged
    ensures Chain(PagesOf(w.staged, b))
    ensures PagesOf(Dedup(w.log), b) <= PagesOf(w.staged, b)
    ensures Chain(PagesOf(Dedup(w.log), b))
  {
    var s := Contents(w.file, node);
    PendingExtendsHistory(node, w, b);
    if s.pending.Some? && s.pending.value.binding == b {
      ContinuingPageExtendsChain(s.cursors, s.pending.value, PagesOf(w.committed, b));
    }
    PagesOfPrefix(Dedup(w.log), w.staged, b);
    ChainPrefix(PagesOf(Dedup(w.log), b), PagesOf(w.staged, b));
  }

  // ---------------------------------------------------------------------------------------
  // Contents

  /** Every page the binding's provider is seen to answer with is honest about `src`. */
  ghost predicate HonestSteps(steps: seq<Step>, b: Binding, src: Source) {
    forall k :: 0 <= k < |steps| && steps[k].Choose? ==> HonestReplies(steps[k].replies, b, src)
  }

  predicate HonestReplies(replies: map<Binding, Reply>, b: Binding, src: Source) {
    b in replies && replies[b].Replied? ==> Honest(src, replies[b].page)
  }

  predicate HonestBatch(x: Batch, b: Binding, src: Source) {
    x.binding == b ==> Honest(src, x.page)
  }

  predicate AllHonest(w: World, b: Binding, src: Source) {
    && (forall x :: x in w.staged ==> HonestBatch(x, b, src))
    && (forall i :: i in w.shippers && w.shippers[i].Staging? ==> HonestBatch(w.shippers[i].batch, b, src))
  }

  lemma StepKeepsHonest(node: Uuid, w: World, step: Step, b: Binding, src: Source)
    requires AllHonest(w, b, src)
    requires step.Choose? ==> HonestReplies(step.replies, b, src)
    ensures AllHonest(Apply(node, w, step), b, src)
  {
    var phase := PhaseOf(w, step.shipper);
    if step.Choose? && phase.Collecting? {
      var r := CollectBatch(node, phase.bindings, phase.snapshot, step.replies, step.batchId, step.now);
      if r.Ok? {
        CollectedBatch(node, phase.bindings, phase.snapshot, step.replies, step.batchId, step.now);
      }
    }
  }

  lemma {:induction false} ReachableHonest(node: Uuid, steps: seq<Step>, b: Binding, src: Source)
    requires HonestSteps(steps, b, src)
    ensures AllHonest(Exec(node, INITIAL, steps), b, src)
  {
    if steps != [] {
      var before, last := steps[..|steps| - 1], steps[|steps| - 1];
      assert last.Choose? ==> HonestReplies(last.replies, b, src);
      ReachableHonest(node, before, b, src);
      StepKeepsHonest(node, Exec(node, INITIAL, before), last, b, src);
    }
  }

  lemma {:induction false} HonestPages(s: seq<Batch>, b: Binding, src: Source)
    requires forall x :: x in s ==> HonestBatch(x, b, src)
    ensures forall p :: p in PagesOf(s, b) ==> Honest(src, p)
  {
    if s != [] {
      var last := s[|s| - 1];
      assert HonestBatch(last, b, src);
      HonestPages(s[..|s| - 1], b, src);
    }
  }

  /** A chain of honest pages delivers the source from its first event on, each record once. */
  lemma {:induction false} ChainDelivers(pages: seq<Page>, src: Source)
    requires Chain(pages)
    requires forall p :: p in pages ==> Honest(src, p)
    ensures Reached(pages) <= |src|
    ensures Delivered(pages) == Records(src, 0, Reached(pages))
  {
    if pages != [] {
      var n := |pages| - 1;
      var before, last := pages[..n], pages[n];
      ChainPrefix(before, pages);
      ChainDelivers(before, src);
      assert Follows(pages, n);
      assert last in pages;
      assert n > 0 ==> before[n - 1] == pages[n - 1];
      assert Reached(before) == Position(last.after);
      ValidPageAdvances(last);
      if !last.retentionGap {
        RecordsJoin(src, 0, Position(last.after), Position(last.next));
      }
    }
  }

  /** Delivery over whole runs. Whatever the crashes and the interleaving of shippers, the log
      deduplicated by batch id holds, for a binding present in every call's list, pages that
      cover the provider's source sequence from its start without gap or overlap, carrying
      each record of that prefix exactly once and in order; only the last page can report a
      retention gap or end the run. */
  lemma DeliveryOverWholeRuns(node: Uuid, steps: seq<Step>, b: Binding, src: Source)
    requires node != NIL && AlwaysListed(steps, b) && HonestSteps(steps, b, src)
    ensures
      var pages := PagesOf(Dedup(Exec(node, INITIAL, steps).log), b);
      && Chain(pages)
      && Reached(pages) <= |src|
      && Delivered(pages) == Records(src, 0, Reached(pages))
      && (forall i :: 0 <= i < |pages| - 1 ==> !pages[i].retentionGap)
  {
    var w := Exec(node, INITIAL, steps);
    ReachableInv(node, steps);
    ReachableTracked(node, steps, b);
    ReachableHonest(node, steps, b, src);
    StagedIsAChain(node, w, b);
    var pages := PagesOf(Dedup(w.log), b);
    HonestPages(Dedup(w.log), b, src);
    ChainDelivers(pages, src);
    forall i | 0 <= i < |pages| - 1
      ensures !pages[i].retentionGap
    {
      assert Follows(pages, i + 1);
    }
  }

  // ---------------------------------------------------------------------------------------
  // Compare-and-set and draining

  /** A step that stages, stages its shipper's batch, from the cursor stored at that moment. */
  lemma StepStages(node: Uuid, w: World, step: Step)
    requires FileOk(w.file, node)
    ensures
      var w' := Apply(node, w, step);
      w'.staged != w.staged ==>
        && step.Stage?
        && PhaseOf(w, step.shipper).Staging?
        && w'.staged == w.staged + [PhaseOf(w, step.shipper).batch]
        && Contents(w.file, node).pending.None?
        && Continues(Contents(w.file, node).cursors, PhaseOf(w, step.shipper).batch)
  {
  }

  /** A step that commits, commits the pending batch and moves exactly its cursor. */
  lemma StepCommits(node: Uuid, w: World, step: Step)
    requires FileOk(w.file, node)
    ensures
      var w' := Apply(node, w, step);
      var s := Contents(w.file, node);
      w'.committed != w.committed ==>
        && step.Acknowledge?
        && s.pending.Some?
        && w'.committed == w.committed + [s.pending.value]
        && Continues(s.cursors, s.pending.value)
        && Contents(w'.file, node).cursors ==
             s.cursors[Key(s.pending.value.binding) := CursorAfter(s.pending.value.binding, s.pending.value.page)]
  {
  }

  /** In every reachable world a batch is staged only from the current cursor position, and is
      committed at most once, from that same position, however many shippers upload or
      acknowledge it. */
  lemma EachBatchMovesItsCursorOnce(node: Uuid, steps: seq<Step>, step: Step)
    requires node != NIL
    ensures
      var w := Exec(node, INITIAL, steps);
      var w' := Apply(node, w, step);
      var s := Contents(w.file, node);
      && (w'.staged != w.staged ==>
            && PhaseOf(w, step.shipper).Staging?
            && w'.staged == w.staged + [PhaseOf(w, step.shipper).batch]
            && Continues(s.cursors, PhaseOf(w, step.shipper).batch))
      && (w'.committed != w.committed ==>
            && s.pending.Some?
            && w'.committed == w.committed + [s.pending.value]
            && !HasId(w.committed, s.pending.value.batchId)
            && Continues(s.cursors, s.pending.value)
            && Contents(w'.file, node).cursors ==
                 s.cursors[Key(s.pending.value.binding) := CursorAfter(s.pending.value.binding, s.pending.value.page)])
  {
    var w := Exec(node, INITIAL, steps);
    var w' := Apply(node, w, step);
    ReachableInv(node, steps);
    StepStages(node, w, step);
    StepCommits(node, w, step);
    if w'.committed != w.committed {
      PendingIsNotCommitted(node, w);
    }
  }

  lemma PendingIsNotCommitted(node: Uuid, w: World)
    requires FileOk(w.file, node) && HistoryOk(w)
    requires Contents(w.file, node).pending.Some?
    ensures !HasId(w.committed, Contents(w.file, node).pending.value.batchId)
  {
    var b := Contents(w.file, node).pending.value;
    assert w.staged == w.committed + [b];
    forall k | 0 <= k < |w.committed|
      ensures w.committed[k].batchId != b.batchId
    {
      assert w.staged[k] == w.committed[k] && w.staged[|w.committed|] == b;
    }
  }

  predicate Ended(pages: seq<Page>) {
    pages != [] && IsLast(pages[|pages| - 1])
  }

  lemma EndedIsDrained(b: Binding, pages: seq<Page>)
    requires Chain(pages) && pages != []
    ensures Ended(pages) <==> CursorAfter(b, pages[|pages| - 1]).drained
  {
    assert Follows(pages, |pages| - 1);
    CommittedCursorSays(b, pages[|pages| - 1]);
  }

  predicate HasDrained(cursors: map<string, Cursor>, b: Binding) {
    Key(b) in cursors && cursors[Key(b)].binding == b && cursors[Key(b)].drained
  }

  lemma DrainedIffEnded(cursors: map<string, Cursor>, b: Binding, pages: seq<Page>)
    requires Chain(pages) && CursorMatches(cursors, b, pages)
    ensures HasDrained(cursors, b) <==> Ended(pages)
    ensures HasDrained(cursors, b) ==> (cursors[Key(b)].recoveryRequired <==> pages[|pages| - 1].retentionGap)
  {
    if pages != [] {
      EndedIsDrained(b, pages);
    }
  }

  /** The pages hold every record of the source up to the end their last one reports, in order, and that
      one says that the run is over. */
  ghost predicate HoldAll(pages: seq<Page>, src: Source) {
    && pages != []
    && var last := pages[|pages| - 1];
       && IsTerminal(last.state)
       && last.latestExclusive <= |src|
       && Delivered(pages) == Records(src, 0, last.latestExclusive)
  }

  /** A chain of honest pages that ends without a gap has delivered the whole source as reported. */
  lemma EndedChainDelivers(pages: seq<Page>, src: Source)
    requires Chain(pages) && Ended(pages) && !pages[|pages| - 1].retentionGap
    requires forall p :: p in pages ==> Honest(src, p)
    ensures HoldAll(pages, src)
  {
    ChainDelivers(pages, src);
  }

  lemma NothingPendingAfterEnd(node: Uuid, w: World, b: Binding)
    requires FileOk(w.file, node) && HistoryOk(w) && Tracked(node, w, b)
    requires Ended(PagesOf(w.committed, b))
    ensures PagesOf(w.staged, b) == PagesOf(w.committed, b)
  {
    EndedIsDrained(b, PagesOf(w.committed, b));
    PendingExtendsHistory(node, w, b);
  }

  lemma NothingStagedAfterEnd(node: Uuid, w: World, step: Step, b: Binding)
    requires FileOk(w.file, node) && HistoryOk(w) && Tracked(node, w, b)
    requires Ended(PagesOf(w.committed, b))
    ensures PagesOf(w.staged, b) == PagesOf(w.committed, b)
    ensures PagesOf(Apply(node, w, step).staged, b) == PagesOf(w.committed, b)
  {
    NothingPendingAfterEnd(node, w, b);
    EndedIsDrained(b, PagesOf(w.committed, b));
    StepStages(node, w, step);
    if Apply(node, w, step).staged != w.staged {
      PagesOfAppend(w.staged, PhaseOf(w, step.shipper).batch, b);
    }
  }

  /** Draining is final: the stored cursor is drained exactly when the last committed page ended
      the run, and from then on no step stages anything for the binding. */
  lemma DrainingIsFinal(node: Uuid, steps: seq<Step>, step: Step, b: Binding)
    requires node != NIL && AlwaysListed(steps, b)
    ensures
      var w := Exec(node, INITIAL, steps);
      var pages := PagesOf(w.committed, b);
      var cursors := Contents(w.file, node).cursors;
      && (HasDrained(cursors, b) <==> Ended(pages))
      && (Ended(pages) ==>
            PagesOf(Apply(node, w, step).staged, b) == PagesOf(w.staged, b) == pages)
  {
    var w := Exec(node, INITIAL, steps);
    ReachableInv(node, steps);
    ReachableTracked(node, steps, b);
    DrainedIffEnded(Contents(w.file, node).cursors, b, PagesOf(w.committed, b));
    if Ended(PagesOf(w.committed, b)) {
      NothingStagedAfterEnd(node, w, step, b);
    }
  }

  /** Once the run is over, the deduplicated log holds its committed pages and no others. */
  lemma EndedLogIsCommitted(node: Uuid, w: World, b: Binding)
    requires Inv(node, w) && Tracked(node, w, b) && Ended(PagesOf(w.committed, b))
    ensures PagesOf(Dedup(w.log), b) == PagesOf(w.committed, b)
  {
    NothingStagedAfterEnd(node, w, Crash(0), b);
    assert w.committed <= Dedup(w.log);
    PagesOfPrefix(w.committed, Dedup(w.log), b);
    PagesOfPrefix(Dedup(w.log), w.staged, b);
  }

  lemma DrainedWorldDelivered(node: Uuid, w: World, b: Binding, src: Source)
    requires Inv(node, w) && Tracked(node, w, b) && AllHonest(w, b, src)
    requires
      var cursors := Contents(w.file, node).cursors;
      HasDrained(cursors, b) && !cursors[Key(b)].recoveryRequired
    ensures HoldAll(PagesOf(Dedup(w.log), b), src)
  {
    DrainedIffEnded(Contents(w.file, node).cursors, b, PagesOf(w.committed, b));
    EndedLogIsCommitted(node, w, b);
    HonestPages(w.committed, b, src);
    EndedChainDelivers(PagesOf(w.committed, b), src);
  }

  /** Drained means delivered: over every run, once the cursor is drained without need of recovery,
      the deduplicated log holds every record of the source up to the end its provider last
      reported, each once and in order, and the run is in a terminal state. */
  lemma DrainedMeansDelivered(node: Uuid, steps: seq<Step>, b: Binding, src: Source)
    requires node != NIL && AlwaysListed(steps, b) && HonestSteps(steps, b, src)
    requires
      var cursors := Contents(Exec(node, INITIAL, steps).file, node).cursors;
      HasDrained(cursors, b) && !cursors[Key(b)].recoveryRequired
    ensures HoldAll(PagesOf(Dedup(Exec(node, INITIAL, steps).log), b), src)
  {
    ReachableInv(node, steps);
    ReachableTracked(node, steps, b);
    ReachableHonest(node, steps, b, src);
    DrainedWorldDelivered(node, Exec(node, INITIAL, steps), b, src);
  }
}
