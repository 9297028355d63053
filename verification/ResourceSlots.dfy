/** Canonical slot lists of hard resource claims: crates/contracts/src/resource.rs. */
module ResourceSlots {
  import opened Base
  import opened Sorting
  import opened Text
  import opened AclText

  const MAX_ID_LENGTH: nat := 255
  const MAX_SLOTS: nat := 256
  const U16_MAX: int := 65535

  datatype Kind = Cpu | Memory | EphemeralStorage | HostPort | Accelerator | Volume

  function KindRank(k: Kind): (n: nat) {
    match k
    case Cpu => 0
    case Memory => 1
    case EphemeralStorage => 2
    case HostPort => 3
    case Accelerator => 4
    case Volume => 5
  }

  datatype ResourceUnit = MilliCpu | Byte | Port | Count

  datatype Allocation =
    | Scalar(amount: U64, scalarUnit: ResourceUnit)
    | Range(start: U64, endInclusive: U64, rangeUnit: ResourceUnit)

  /** ResourceAllocation::validate_for. */
  predicate AllocationOk(a: Allocation, kind: Kind) {
    match (kind, a)
    case (Cpu, Scalar(amount, MilliCpu)) => amount > 0
    case (Memory, Scalar(amount, Byte)) => amount > 0
    case (EphemeralStorage, Scalar(amount, Byte)) => amount > 0
    case (Accelerator, Scalar(amount, Count)) => amount > 0
    case (Volume, Scalar(amount, Count)) => amount > 0
    case (HostPort, Range(start, end, Port)) => 0 < start <= end <= U16_MAX
    case _ => false
  }

  /** ResourceAllocation::contains. */
  predicate Contains(capacity: Allocation, requested: Allocation) {
    match (capacity, requested)
    case (Scalar(m, u), Scalar(n, v)) => u == v && m >= n
    case (Range(s, e, u), Range(t, f, v)) => u == v && s <= t && e >= f
    case _ => false
  }

  /** The units of a resource an allocation stands for: the first `amount` of them, or a range. */
  predicate Covers(a: Allocation, unit: int) {
    match a
    case Scalar(amount, _) => 0 <= unit < amount
    case Range(start, end, _) => start <= unit <= end
  }

  /** Between two allocations valid for one kind, containment is coverage of every unit. */
  lemma ContainmentIsCoverage(kind: Kind, capacity: Allocation, requested: Allocation)
    requires AllocationOk(capacity, kind) && AllocationOk(requested, kind)
    ensures Contains(capacity, requested) <==>
            forall unit :: Covers(requested, unit) ==> Covers(capacity, unit)
  {
    match requested
    case Scalar(n, _) => assert Covers(requested, n - 1);
    case Range(s, e, _) => assert Covers(requested, s) && Covers(requested, e);
  }

  /** validate_stable_resource_id. */
  predicate StableIdOk(s: string) {
    && s != "" && Utf8Length(s) <= MAX_ID_LENGTH
    && '\0' !in s && '\r' !in s && '\n' !in s && '\t' !in s
    && !IsWhite(s[0]) && !IsWhite(s[|s| - 1])
  }

  /** An id is a token of at most 255 bytes without tabs. */
  lemma StableIdOkIff(s: string)
    ensures StableIdOk(s) <==> TokenOk(s, 255) && forall i :: 0 <= i < |s| ==> s[i] != '\t'
  {
  }

  datatype Request = Request(kind: Kind, stableId: string, allocation: Allocation)

  datatype Binding = Binding(kind: Kind, stableId: string, allocation: Allocation, generation: U64, fence: Uuid)

  datatype Evidence = Evidence(kind: Kind, stableId: string, generation: U64, fence: Uuid)

  predicate RequestOk(s: Request) {
    StableIdOk(s.stableId) && AllocationOk(s.allocation, s.kind)
  }

  predicate BindingOk(s: Binding) {
    StableIdOk(s.stableId) && AllocationOk(s.allocation, s.kind) && s.generation != 0 && s.fence != NIL
  }

  predicate EvidenceOk(s: Evidence) {
    StableIdOk(s.stableId) && s.generation != 0 && s.fence != NIL
  }

  /** ResourceSlotBinding::evidence. */
  function EvidenceOf(b: Binding): (e: Evidence) {
    Evidence(b.kind, b.stableId, b.generation, b.fence)
  }

  // ---------------------------------------------------------------------------------------
  // The canonical order

  datatype SlotKey = SlotKey(kind: Kind, stableId: string)

  predicate KeyLe(a: SlotKey, b: SlotKey) {
    if a.kind == b.kind then LexLe(a.stableId, b.stableId) else KindRank(a.kind) <= KindRank(b.kind)
  }

  predicate KeyLt(a: SlotKey, b: SlotKey) {
    KeyLe(a, b) && a != b
  }

  lemma KeyLtTransitive(a: SlotKey, b: SlotKey, c: SlotKey)
    requires KeyLt(a, b) && KeyLt(b, c)
    ensures KeyLt(a, c)
  {
    if a.kind == b.kind == c.kind {
      LexTransitive(a.stableId, b.stableId, c.stableId);
      if a == c {
        LexAntisymmetric(a.stableId, b.stableId);
      }
    }
  }

  lemma KeyAntisymmetric(a: SlotKey, b: SlotKey)
    requires KeyLe(a, b) && KeyLe(b, a)
    ensures a == b
  {
    if a.kind == b.kind {
      LexAntisymmetric(a.stableId, b.stableId);
    }
  }

  /** Slots of one list: how they are validated and keyed. */
  datatype SlotShape<!T> = SlotShape(valid: T -> bool, key: T -> SlotKey)

  const REQUESTS: SlotShape<Request> := SlotShape(RequestOk, (s: Request) => SlotKey(s.kind, s.stableId))
  const BINDINGS: SlotShape<Binding> := SlotShape(BindingOk, (s: Binding) => SlotKey(s.kind, s.stableId))
  const EVIDENCE: SlotShape<Evidence> := SlotShape(EvidenceOk, (s: Evidence) => SlotKey(s.kind, s.stableId))

  ghost predicate StrictlySorted<T>(f: SlotShape<T>, slots: seq<T>) {
    forall i, j :: 0 <= i < j < |slots| ==> KeyLt(f.key(slots[i]), f.key(slots[j]))
  }

  /** A bounded, non-empty list of valid slots, every two of them in order and of different keys. */
  ghost predicate CanonicalSlots<T>(f: SlotShape<T>, slots: seq<T>) {
    && 1 <= |slots| <= MAX_SLOTS
    && (forall i :: 0 <= i < |slots| ==> f.valid(slots[i]))
    && StrictlySorted(f, slots)
  }

  /** One more slot keeps a list sorted exactly when it follows the last one. */
  lemma SortedExtend<T>(f: SlotShape<T>, slots: seq<T>, s: T)
    requires StrictlySorted(f, slots)
    ensures StrictlySorted(f, slots + [s]) <==> slots == [] || KeyLt(f.key(slots[|slots| - 1]), f.key(s))
  {
    var longer := slots + [s];
    if slots != [] {
      var n := |slots| - 1;
      assert longer[n] == slots[n] && longer[n + 1] == s;
      if KeyLt(f.key(slots[n]), f.key(s)) {
        forall i, j | 0 <= i < j < |longer|
          ensures KeyLt(f.key(longer[i]), f.key(longer[j]))
        {
          if j == n + 1 && i < n {
            KeyLtTransitive(f.key(slots[i]), f.key(slots[n]), f.key(s));
          }
        }
      }
    }
  }

  lemma PrefixUnsorted<T>(f: SlotShape<T>, slots: seq<T>, n: nat)
    requires n <= |slots| && !StrictlySorted(f, slots[..n])
    ensures !StrictlySorted(f, slots)
  {
    var i, j :| 0 <= i < j < n && !KeyLt(f.key(slots[..n][i]), f.key(slots[..n][j]));
    assert slots[..n][i] == slots[i] && slots[..n][j] == slots[j];
  }

  /** The one-pass neighbour check decides the order of every pair. */
  method ValidateSlots<T>(f: SlotShape<T>, slots: seq<T>) returns (ok: bool)
    ensures ok <==> CanonicalSlots(f, slots)
  {
    if |slots| == 0 || |slots| > MAX_SLOTS {
      return false;
    }
    var previous: Option<SlotKey> := None;
    for n := 0 to |slots|
      invariant previous == if n == 0 then None else Some(f.key(slots[n - 1]))
      invariant forall i :: 0 <= i < n ==> f.valid(slots[i])
      invariant StrictlySorted(f, slots[..n])
    {
      var s := slots[n];
      if !f.valid(s) {
        return false;
      }
      var key := f.key(s);
      TakeOneMore(slots, n);
      SortedExtend(f, slots[..n], s);
      if previous.Some? && !KeyLt(previous.value, key) {
        PrefixUnsorted(f, slots, n + 1);
        return false;
      }
      previous := Some(key);
    }
    assert slots[..|slots|] == slots;
    return true;
  }

  method ValidateRequests(slots: seq<Request>) returns (ok: bool)
    ensures ok <==> CanonicalSlots(REQUESTS, slots)
  {
    ok := ValidateSlots(REQUESTS, slots);
  }

  method ValidateBindings(slots: seq<Binding>) returns (ok: bool)
    ensures ok <==> CanonicalSlots(BINDINGS, slots)
  {
    ok := ValidateSlots(BINDINGS, slots);
  }

  method ValidateEvidence(slots: seq<Evidence>) returns (ok: bool)
    ensures ok <==> CanonicalSlots(EVIDENCE, slots)
  {
    ok := ValidateSlots(EVIDENCE, slots);
  }

  // ---------------------------------------------------------------------------------------
  // Canonical forms

  lemma SortedIsDistinct<T>(f: SlotShape<T>, slots: seq<T>)
    requires StrictlySorted(f, slots)
    ensures Distinct(slots)
  {
    forall i, j | 0 <= i < j < |slots|
      ensures slots[i] != slots[j]
    {
      assert KeyLt(f.key(slots[i]), f.key(slots[j]));
    }
  }

  lemma {:induction false} SameSetSameCounts<T(!new)>(a: seq<T>, b: seq<T>)
    requires Distinct(a) && Distinct(b) && Elements(a) == Elements(b)
    ensures multiset(a) == multiset(b)
  {
    DistinctIsCounted(a);
    DistinctIsCounted(b);
    forall x
      ensures multiset(a)[x] == multiset(b)[x]
    {
      assert x in multiset(a) <==> x in Elements(a);
      assert x in multiset(b) <==> x in Elements(b);
    }
  }

  /** A set of slots has one canonical list: two accepted lists of the same slots are the same. */
  lemma CanonicalListIsUnique<T(!new)>(f: SlotShape<T>, a: seq<T>, b: seq<T>)
    requires CanonicalSlots(f, a) && CanonicalSlots(f, b) && Elements(a) == Elements(b)
    ensures a == b
  {
    SortedIsDistinct(f, a);
    SortedIsDistinct(f, b);
    SameSetSameCounts(a, b);
    var le := (x: T, y: T) => KeyLe(f.key(x), f.key(y));
    assert Sorted(a, le) && Sorted(b, le);
    forall x, y | x in a && y in a && le(x, y) && le(y, x)
      ensures x == y
    {
      KeyAntisymmetric(f.key(x), f.key(y));
      SameKeySameSlot(f, a, x, y);
    }
    SortedListsAgree(a, b, le);
  }

  /** And a key names at most one slot of an accepted list. */
  lemma SameKeySameSlot<T>(f: SlotShape<T>, slots: seq<T>, x: T, y: T)
    requires StrictlySorted(f, slots) && x in slots && y in slots && f.key(x) == f.key(y)
    ensures x == y
  {
    var i :| 0 <= i < |slots| && slots[i] == x;
    var j :| 0 <= j < |slots| && slots[j] == y;
    assert i == j;
  }

  function AllEvidence(slots: seq<Binding>): (r: seq<Evidence>) {
    seq(|slots|, i requires 0 <= i < |slots| => EvidenceOf(slots[i]))
  }

  /** A binding list is accepted exactly when its evidence is, and every allocation suits its kind; the
      evidence names each binding's own slot, generation and fence. */
  lemma EvidenceOfBindingsIff(slots: seq<Binding>)
    ensures |AllEvidence(slots)| == |slots|
    ensures forall i :: 0 <= i < |slots| ==>
              var e := AllEvidence(slots)[i];
              && e.kind == slots[i].kind && e.stableId == slots[i].stableId
              && e.generation == slots[i].generation && e.fence == slots[i].fence
    ensures CanonicalSlots(BINDINGS, slots) <==>
            && CanonicalSlots(EVIDENCE, AllEvidence(slots))
            && forall i :: 0 <= i < |slots| ==> AllocationOk(slots[i].allocation, slots[i].kind)
  {
    var evidence := AllEvidence(slots);
    assert forall i :: 0 <= i < |slots| ==> EVIDENCE.key(evidence[i]) == BINDINGS.key(slots[i]);
    assert forall i :: 0 <= i < |slots| ==>
        (BINDINGS.valid(slots[i]) <==> EVIDENCE.valid(evidence[i]) && AllocationOk(slots[i].allocation, slots[i].kind));
  }

  /** A list is accepted exactly when it has one to 256 slots, all valid, and each stands behind the one
      before it. */
  lemma CanonicalIffNeighbours<T>(f: SlotShape<T>, slots: seq<T>)
    ensures CanonicalSlots(f, slots) <==>
            && 0 < |slots| <= 256
            && (forall s :: s in slots ==> f.valid(s))
            && forall i :: 0 < i < |slots| ==> KeyLt(f.key(slots[i - 1]), f.key(slots[i]))
  {
    if forall i :: 0 < i < |slots| ==> KeyLt(f.key(slots[i - 1]), f.key(slots[i])) {
      assert slots[..0] == [];
      for n := 0 to |slots|
        invariant StrictlySorted(f, slots[..n])
      {
        TakeOneMore(slots, n);
        SortedExtend(f, slots[..n], slots[n]);
      }
      assert slots[..|slots|] == slots;
    }
  }

  /** Slots stand by kind, in the order processor, memory, ephemeral storage, host port, accelerator,
      volume, and within a kind by id. */
  lemma SlotOrder(a: string, b: string)
    ensures
      var kinds := [Cpu, Memory, EphemeralStorage, HostPort, Accelerator, Volume];
      forall i, j :: 0 <= i < |kinds| && 0 <= j < |kinds| ==>
        (KeyLt(SlotKey(kinds[i], a), SlotKey(kinds[j], b)) <==> i < j || (i == j && LexLe(a, b) && a != b))
  {
    var kinds := [Cpu, Memory, EphemeralStorage, HostPort, Accelerator, Volume];
    assert forall i :: 0 <= i < |kinds| ==> KindRank(kinds[i]) == i;
  }

  /** Which allocations suit a kind: ports as a range of port numbers, everything else as an amount of
      the kind's own unit, and never nothing. */
  lemma AllocationOkIff(a: Allocation, kind: Kind)
    ensures AllocationOk(a, kind) <==>
            if kind.HostPort? then a.Range? && a.rangeUnit.Port? && 1 <= a.start <= a.endInclusive <= 65535
            else
              && a.Scalar? && a.amount >= 1
              && (kind.Cpu? <==> a.scalarUnit.MilliCpu?)
              && (kind.Memory? || kind.EphemeralStorage? <==> a.scalarUnit.Byte?)
              && !a.scalarUnit.Port?
  {
  }
}
