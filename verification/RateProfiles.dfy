/** Bound rate-shaping profiles for one Gateway snapshot:
    crates/contracts/src/gateway_rate_shaping_bound_profile_acl.rs. */
module RateProfiles {
  import opened Base
  import opened Text
  import opened AclText
  import opened AclBlocks

  const MAX_PROFILE_ID_LEN: nat := 128
  const MAX_SAFE_ACL_INTEGER: int := 9007199254740991

  datatype Shaping =
    | TokenBucket(capacity: U64, refillTokensPerSecond: U64)
    | Gcra(emissionIntervalNanos: U64, burstTolerance: U64)

  datatype Profile = Profile(profileId: string, policyDigest: string, shaping: Shaping)

  predicate Positive(n: U64) {
    0 < n <= MAX_SAFE_ACL_INTEGER
  }

  /** GatewayRateShapingBoundProfileAclProjection::validate. */
  predicate ProfileOk(p: Profile) {
    && TokenOk(p.profileId, MAX_PROFILE_ID_LEN)
    && Sha256Ok(p.policyDigest)
    && match p.shaping
       case TokenBucket(capacity, refill) => Positive(capacity) && Positive(refill)
       case Gcra(interval, burst) => Positive(interval) && Positive(burst)
  }

  /** Either way of shaping takes two integers from 1 up to what a double holds exactly. */
  lemma ProfileOkIff(p: Profile)
    ensures ProfileOk(p) <==>
            && TokenOk(p.profileId, 128) && Sha256Ok(p.policyDigest)
            && (p.shaping.TokenBucket? ==>
                  && 1 <= p.shaping.capacity < 0x20_0000_0000_0000
                  && 1 <= p.shaping.refillTokensPerSecond < 0x20_0000_0000_0000)
            && (p.shaping.Gcra? ==>
                  && 1 <= p.shaping.emissionIntervalNanos < 0x20_0000_0000_0000
                  && 1 <= p.shaping.burstTolerance < 0x20_0000_0000_0000)
  {
  }

  function ShapingPieces(s: Shaping): (r: seq<Piece>) {
    match s
    case TokenBucket(capacity, refill) =>
      [ Named("    token_bucket {\n      ", "capacity"), NumberLine(capacity),
        Named("      ", "refill_tokens_per_second"), NumberLine(refill),
        Fixed("    }\n  }\n") ]
    case Gcra(interval, burst) =>
      [ Named("    gcra {\n      ", "emission_interval_nanos"), NumberLine(interval),
        Named("      ", "burst_tolerance"), NumberLine(burst),
        Fixed("    }\n  }\n") ]
  }

  function HeadPieces(p: Profile): (r: seq<Piece>) {
    [ Fixed("  profiles "), Quoted(p.profileId),
      Named(" {\n    ", "policy_revision_digest"), Quoted(p.policyDigest),
      Fixed("\n") ]
  }

  /** render_one_profile. */
  function ProfilePieces(p: Profile): (r: seq<Piece>) {
    HeadPieces(p) + ShapingPieces(p.shaping)
  }

  lemma GivesInFront(ps: seq<Piece>, qs: seq<Piece>, k: nat, name: string, value: Piece)
    requires NamedAt(ps, k, name, value)
    ensures Gives(ps + qs, name, value)
  {
    assert NamedAt(ps + qs, k, name, value);
  }

  lemma GivesBehind(ps: seq<Piece>, qs: seq<Piece>, k: nat, name: string, value: Piece)
    requires NamedAt(qs, k, name, value)
    ensures Gives(ps + qs, name, value)
  {
    assert NamedAt(ps + qs, |ps| + k, name, value);
  }

  function ShapingFields(s: Shaping): (r: seq<Field>) {
    match s
    case TokenBucket(capacity, refill) =>
      [ Field("capacity", NumberLine(capacity)), Field("refill_tokens_per_second", NumberLine(refill)) ]
    case Gcra(interval, burst) =>
      [ Field("emission_interval_nanos", NumberLine(interval)), Field("burst_tolerance", NumberLine(burst)) ]
  }

  /** What a Gateway reads in a profile, by name. */
  function ProfileFields(p: Profile): (r: seq<Field>) {
    [ Field("policy_revision_digest", Quoted(p.policyDigest)) ] + ShapingFields(p.shaping)
  }

  lemma ProfileGivesFields(p: Profile)
    ensures GivesAll(ProfilePieces(p), ProfileFields(p))
  {
    var head, shaping, fields := HeadPieces(p), ShapingPieces(p.shaping), ProfileFields(p);
    GivesInFront(head, shaping, 2, fields[0].name, fields[0].value);
    GivesBehind(head, shaping, 0, fields[1].name, fields[1].value);
    GivesBehind(head, shaping, 2, fields[2].name, fields[2].value);
  }

  datatype ProfileKey = ProfileKey(profileId: string, policyDigest: string)

  function KeyOf(p: Profile): (k: ProfileKey) {
    ProfileKey(p.profileId, p.policyDigest)
  }

  /** By profile id, then by digest. */
  predicate ByKey(a: Profile, b: Profile) {
    if a.profileId == b.profileId then LexLe(a.policyDigest, b.policyDigest) else LexLe(a.profileId, b.profileId)
  }

  const PROFILES: Format<Profile, ProfileKey> :=
    Format("application_publication_rate_shaping_bound_profiles {\n", ProfileOk, KeyOf, ByKey, ProfilePieces)

  lemma ByKeyTransitive(a: Profile, b: Profile, c: Profile)
    requires ByKey(a, b) && ByKey(b, c)
    ensures ByKey(a, c)
  {
    if a.profileId == b.profileId == c.profileId {
      LexTransitive(a.policyDigest, b.policyDigest, c.policyDigest);
    } else if a.profileId != b.profileId && b.profileId != c.profileId {
      LexTransitive(a.profileId, b.profileId, c.profileId);
      if a.profileId == c.profileId {
        LexAntisymmetric(a.profileId, b.profileId);
      }
    }
  }

  lemma ByKeyTotal(a: Profile, b: Profile)
    ensures ByKey(a, b) || ByKey(b, a)
    ensures ByKey(a, b) && ByKey(b, a) <==> KeyOf(a) == KeyOf(b)
  {
    LexTotal(a.profileId, b.profileId);
    LexTotal(a.policyDigest, b.policyDigest);
    if ByKey(a, b) && ByKey(b, a) {
      if a.profileId == b.profileId {
        LexAntisymmetric(a.policyDigest, b.policyDigest);
      } else {
        LexAntisymmetric(a.profileId, b.profileId);
      }
    }
  }

  lemma JoinedTail<T>(a: seq<T>, b: seq<T>)
    requires a != []
    ensures (a + b)[0] == a[0] && (a + b)[1..] == a[1..] + b
  {
  }

  lemma {:induction false} TextOfJoin(ps: seq<Piece>, qs: seq<Piece>)
    ensures TextOf(ps + qs) == TextOf(ps) + TextOf(qs)
  {
    if ps == [] {
      assert ps + qs == qs && TextOf(ps) == "";
      assert "" + TextOf(qs) == TextOf(qs);
    } else {
      JoinedTail(ps, qs);
      TextOfJoin(ps[1..], qs);
      Associate(PieceText(ps[0]), TextOf(ps[1..]), TextOf(qs));
    }
  }

  lemma LeadStart(ps: seq<Piece>, x: string)
    requires ps != [] && ps[0].Named?
    ensures ps[0].lead <= TextOf(ps) + x
  {
    TextStep(ps, x);
    assert PieceText(ps[0]) == ps[0].lead + (ps[0].name + " = ");
  }

  /** The two algorithms are told apart by their fifth character. */
  lemma ShapingStart(s: Shaping, x: string)
    ensures |TextOf(ShapingPieces(s)) + x| > 4
    ensures (TextOf(ShapingPieces(s)) + x)[4] == if s.TokenBucket? then 't' else 'g'
  {
    var p := ShapingPieces(s);
    LeadStart(p, x);
    var lead := p[0].lead;
    assert |lead| > 4 && lead[4] == if s.TokenBucket? then 't' else 'g';
  }

  lemma ShapingPiecesTellAll(s: Shaping, t: Shaping)
    requires s.TokenBucket? == t.TokenBucket?
    ensures SameTemplate(ShapingPieces(s), ShapingPieces(t))
    ensures ShapingPieces(s) == ShapingPieces(t) ==> s == t
  {
    var p, q := ShapingPieces(s), ShapingPieces(t);
    if p == q {
      assert p[1] == q[1] && p[3] == q[3];
    }
  }

  lemma ShapingCancel(s: Shaping, t: Shaping, x: string, y: string)
    requires TextOf(ShapingPieces(s)) + x == TextOf(ShapingPieces(t)) + y
    ensures s == t && x == y
  {
    ShapingStart(s, x);
    ShapingStart(t, y);
    ShapingPiecesTellAll(s, t);
    TemplateIsInjective(ShapingPieces(s), ShapingPieces(t), x, y);
  }

  lemma HeadCancel(a: Profile, b: Profile, s: string, t: string)
    requires TextOf(HeadPieces(a)) + s == TextOf(HeadPieces(b)) + t
    ensures KeyOf(a) == KeyOf(b) && s == t
  {
    var p, q := HeadPieces(a), HeadPieces(b);
    assert SameTemplate(p, q);
    TemplateIsInjective(p, q, s, t);
    assert p[1] == q[1] && p[3] == q[3];
  }

  lemma ProfileText(a: Profile, x: string)
    ensures TextOf(ProfilePieces(a)) + x == TextOf(HeadPieces(a)) + (TextOf(ShapingPieces(a.shaping)) + x)
  {
    var head, shaping := HeadPieces(a), ShapingPieces(a.shaping);
    TextOfJoin(head, shaping);
  }

  lemma ProfileCancel(a: Profile, b: Profile, x: string, y: string)
    requires TextOf(ProfilePieces(a)) + x == TextOf(ProfilePieces(b)) + y
    ensures a == b && x == y
  {
    ProfileText(a, x);
    ProfileText(b, y);
    HeadCancel(a, b, TextOf(ShapingPieces(a.shaping)) + x, TextOf(ShapingPieces(b.shaping)) + y);
    ShapingCancel(a.shaping, b.shaping, x, y);
  }

  lemma ProfileTextStart(a: Profile)
    ensures TextOf(ProfilePieces(a)) != "" && TextOf(ProfilePieces(a))[0] == ' '
  {
    var p := ProfilePieces(a);
    assert p[0] == Fixed("  profiles ");
    assert PieceText(p[0]) == "  profiles ";
  }

  lemma ProfilesAreLawful()
    ensures Lawful(PROFILES)
  {
    forall a: Profile, b: Profile
      ensures ByKey(a, b) || ByKey(b, a)
      ensures ByKey(a, b) && ByKey(b, a) <==> KeyOf(a) == KeyOf(b)
    {
      ByKeyTotal(a, b);
    }
    forall a: Profile, b: Profile, c: Profile | ByKey(a, b) && ByKey(b, c)
      ensures ByKey(a, c)
    {
      ByKeyTransitive(a, b, c);
    }
    forall a: Profile
      ensures TextOf(ProfilePieces(a)) != "" && TextOf(ProfilePieces(a))[0] != '}'
    {
      ProfileTextStart(a);
    }
    forall a: Profile, b: Profile, x, y | TextOf(ProfilePieces(a)) + x == TextOf(ProfilePieces(b)) + y
      ensures a == b && x == y
    {
      ProfileCancel(a, b, x, y);
    }
  }

  /** render_gateway_rate_shaping_bound_profile_acl_blocks. */
  method RenderProfiles(profiles: seq<Profile>) returns (r: Option<string>)
    ensures r == Rendered(PROFILES, profiles)
    ensures r.Some? <==> (forall i :: 0 <= i < |profiles| ==> ProfileOk(profiles[i])) && Distinct(Keys(PROFILES, profiles))
  {
    r := RenderBlock(PROFILES, profiles);
  }

  /** The text of an accepted list holds, for every profile, an entry that opens with its id and
      gives its digest and both scalars of its algorithm under their names. */
  lemma RenderedProfileReads(profiles: seq<Profile>, p: Profile)
    requires Rendered(PROFILES, profiles).Some? && p in profiles
    ensures exists entry ::
              && Contains(Rendered(PROFILES, profiles).value, entry)
              && Says(entry, "  profiles ", Quoted(p.profileId), ProfileFields(p))
  {
    ProfileGivesFields(p);
    PiecesSay(ProfilePieces(p), "  profiles ", Quoted(p.profileId), ProfileFields(p));
    RenderedContains(PROFILES, profiles, p);
  }

  /** Two profile lists that render, render to the same text exactly when one is a permutation of
      the other; a list and its permutations are accepted or refused together. */
  lemma ProfileTextIsCanonicalAndInjective(a: seq<Profile>, b: seq<Profile>)
    ensures multiset(a) == multiset(b) ==> Rendered(PROFILES, a) == Rendered(PROFILES, b)
    ensures Rendered(PROFILES, a).Some? && Rendered(PROFILES, a) == Rendered(PROFILES, b) ==> multiset(a) == multiset(b)
  {
    ProfilesAreLawful();
    if multiset(a) == multiset(b) {
      RenderingIsCanonical(PROFILES, a, b);
    }
    if Rendered(PROFILES, a).Some? && Rendered(PROFILES, a) == Rendered(PROFILES, b) {
      RenderingIsInjective(PROFILES, a, b);
    }
  }

  /** The whole text: the block's header, the profiles by ascending id and, for one id, by ascending
      digest, and the closing brace. */
  lemma RenderedProfilesInOrder(profiles: seq<Profile>) returns (ordered: seq<Profile>)
    requires profiles != [] && Rendered(PROFILES, profiles).Some?
    ensures multiset(ordered) == multiset(profiles)
    ensures forall i, j :: 0 <= i < j < |ordered| ==>
              var a, b := ordered[i], ordered[j];
              || (LexLe(a.profileId, b.profileId) && a.profileId != b.profileId)
              || (a.profileId == b.profileId && LexLe(a.policyDigest, b.policyDigest) && a.policyDigest != b.policyDigest)
    ensures Rendered(PROFILES, profiles).value ==
            "application_publication_rate_shaping_bound_profiles {\n" + Entries(PROFILES, ordered) + "}\n"
  {
    ProfilesAreLawful();
    ordered := RenderedInOrder(PROFILES, profiles);
    forall i, j | 0 <= i < j < |ordered|
      ensures ByKey(ordered[i], ordered[j]) && KeyOf(ordered[i]) != KeyOf(ordered[j])
    {
      assert PROFILES.before(ordered[i], ordered[j]) && PROFILES.key(ordered[i]) != PROFILES.key(ordered[j]);
    }
  }
}
