/** Publication route intents for one Gateway snapshot:
    crates/contracts/src/application_publication_route_intent_acl.rs. */
module RouteIntents {
  import opened Base
  import opened Text
  import opened AclText
  import opened AclBlocks

  const MAX_CHANNELS: nat := 16
  const MAX_ORIGINS: nat := 32
  const MAX_CHANNEL_LEN: nat := 64
  const MAX_ORIGIN_LEN: nat := 512
  const MAX_PROFILE_ID_LEN: nat := 128

  datatype Intent = Intent(
    organizationId: Uuid,
    projectId: Uuid,
    applicationId: Uuid,
    releaseId: Uuid,
    releaseDigest: string,
    intentId: Uuid,
    channels: seq<string>,
    origins: seq<string>,
    profileId: string,
    policyDigest: string)

  predicate ChannelOk(s: string) {
    TokenOk(s, MAX_CHANNEL_LEN)
  }

  predicate OriginOk(s: string) {
    TokenOk(s, MAX_ORIGIN_LEN) && ("http://" <= s || "https://" <= s)
  }

  predicate AllOk(values: seq<string>, ok: string -> bool) {
    (forall i :: 0 <= i < |values| ==> ok(values[i])) && Distinct(values)
  }

  /** ApplicationPublicationRouteIntentAclProjection::validate. */
  predicate IntentOk(i: Intent) {
    && i.organizationId != NIL && i.projectId != NIL && i.applicationId != NIL
    && i.releaseId != NIL && i.intentId != NIL
    && Sha256Ok(i.releaseDigest) && Sha256Ok(i.policyDigest)
    && 1 <= |i.channels| <= MAX_CHANNELS
    && AllOk(i.channels, ChannelOk)
    && |i.origins| <= MAX_ORIGINS
    && AllOk(i.origins, OriginOk)
    && (i.origins != [] ==> "embed" in i.channels)
    && TokenOk(i.profileId, MAX_PROFILE_ID_LEN)
  }

  /** An intent is valid exactly with all its identities and digests, one to sixteen distinct channels, at
      most 32 distinct http origins, and none of these unless one of the channels is the embedded one. */
  lemma IntentOkIff(i: Intent)
    ensures IntentOk(i) <==>
            && NIL !in {i.organizationId, i.projectId, i.applicationId, i.releaseId, i.intentId}
            && Sha256Ok(i.releaseDigest) && Sha256Ok(i.policyDigest) && TokenOk(i.profileId, 128)
            && 0 < |i.channels| <= 16 && |i.origins| <= 32
            && (forall c :: c in i.channels ==> TokenOk(c, 64))
            && (forall o :: o in i.origins ==> TokenOk(o, 512) && ("http://" <= o || "https://" <= o))
            && Distinct(i.channels) && Distinct(i.origins)
            && ("embed" in i.channels || |i.origins| == 0)
  {
  }

  /** A list check: each value on its own, then against the set of those before it. */
  method CheckValues(values: seq<string>, ok: string -> bool) returns (r: bool)
    ensures r <==> AllOk(values, ok)
  {
    var seen: set<string> := {};
    for n := 0 to |values|
      invariant seen == Elements(values[..n])
      invariant AllOk(values[..n], ok)
    {
      var v := values[n];
      TakeOneMore(values, n);
      DistinctExtend(values[..n], v);
      if !ok(v) || v in seen {
        if ok(v) {
          RepeatedPrefix(values, n + 1);
        }
        return false;
      }
      seen := seen + {v};
    }
    assert values[..|values|] == values;
    return true;
  }

  method ValidateIntent(i: Intent) returns (ok: bool)
    ensures ok <==> IntentOk(i)
  {
    if i.organizationId == NIL || i.projectId == NIL || i.applicationId == NIL || i.releaseId == NIL || i.intentId == NIL {
      return false;
    }
    if !Sha256Ok(i.releaseDigest) || !Sha256Ok(i.policyDigest) {
      return false;
    }
    if |i.channels| == 0 || |i.channels| > MAX_CHANNELS {
      return false;
    }
    ok := CheckValues(i.channels, ChannelOk);
    if !ok || |i.origins| > MAX_ORIGINS {
      return false;
    }
    ok := CheckValues(i.origins, OriginOk);
    if !ok || (i.origins != [] && "embed" !in i.channels) {
      return false;
    }
    return TokenOk(i.profileId, MAX_PROFILE_ID_LEN);
  }

  /** render_one_intent. */
  function IntentPieces(i: Intent): (r: seq<Piece>) {
    [ Fixed("  intents "), Identity(i.intentId),
      Named(" {\n    ", "organization_id"), Identity(i.organizationId),
      Named("\n    ", "project_id"), Identity(i.projectId),
      Named("\n    ", "application_id"), Identity(i.applicationId),
      Named("\n    ", "application_release_id"), Identity(i.releaseId),
      Named("\n    ", "application_release_digest"), Quoted(i.releaseDigest),
      Named("\n    ", "channels"), QuotedList(i.channels),
      Named("\n    ", "embed_origin_allowlist"), QuotedList(i.origins),
      Named("\n    rate_shaping {\n      ", "profile_id"), Quoted(i.profileId),
      Named("\n      ", "policy_revision_digest"), Quoted(i.policyDigest),
      Fixed("\n    }\n  }\n") ]
  }

  /** What a Gateway reads in an intent, by name. */
  function IntentFields(i: Intent): (r: seq<Field>) {
    [ Field("organization_id", Identity(i.organizationId)),
      Field("project_id", Identity(i.projectId)),
      Field("application_id", Identity(i.applicationId)),
      Field("application_release_id", Identity(i.releaseId)),
      Field("application_release_digest", Quoted(i.releaseDigest)),
      Field("channels", QuotedList(i.channels)),
      Field("embed_origin_allowlist", QuotedList(i.origins)),
      Field("profile_id", Quoted(i.profileId)),
      Field("policy_revision_digest", Quoted(i.policyDigest)) ]
  }

  lemma IntentGivesFields(i: Intent)
    ensures GivesAll(IntentPieces(i), IntentFields(i))
  {
    var p, fields := IntentPieces(i), IntentFields(i);
    forall k | 0 <= k < |fields|
      ensures Gives(p, fields[k].name, fields[k].value)
    {
      assert NamedAt(p, 2 * k + 2, fields[k].name, fields[k].value);
    }
  }

  predicate ById(a: Intent, b: Intent) {
    a.intentId <= b.intentId
  }

  function IdOf(i: Intent): (id: Uuid) {
    i.intentId
  }

  const INTENTS: Format<Intent, Uuid> :=
    Format("application_publication_route_intents {\n", IntentOk, IdOf, ById, IntentPieces)

  lemma IntentPiecesTellAll(a: Intent, b: Intent)
    ensures SameTemplate(IntentPieces(a), IntentPieces(b))
    ensures IntentPieces(a) == IntentPieces(b) ==> a == b
  {
    var p, q := IntentPieces(a), IntentPieces(b);
    if p == q {
      assert p[1] == q[1] && p[3] == q[3] && p[5] == q[5] && p[7] == q[7] && p[9] == q[9];
      assert p[11] == q[11] && p[13] == q[13] && p[15] == q[15] && p[17] == q[17] && p[19] == q[19];
    }
  }

  lemma IntentTextStart(a: Intent)
    ensures TextOf(IntentPieces(a)) != "" && TextOf(IntentPieces(a))[0] == ' '
  {
    var p := IntentPieces(a);
    assert PieceText(p[0]) == "  intents ";
  }

  lemma IntentsAreLawful()
    ensures Lawful(INTENTS)
  {
    forall a: Intent, b: Intent, x, y | TextOf(IntentPieces(a)) + x == TextOf(IntentPieces(b)) + y
      ensures a == b && x == y
    {
      IntentPiecesTellAll(a, b);
      TemplateIsInjective(IntentPieces(a), IntentPieces(b), x, y);
    }
    forall a: Intent
      ensures TextOf(IntentPieces(a)) != "" && TextOf(IntentPieces(a))[0] != '}'
    {
      IntentTextStart(a);
    }
  }

  /** render_application_publication_route_intent_acl_blocks. */
  method RenderIntents(intents: seq<Intent>) returns (r: Option<string>)
    ensures r == Rendered(INTENTS, intents)
    ensures r.Some? <==> (forall i :: 0 <= i < |intents| ==> IntentOk(intents[i])) && Distinct(Keys(INTENTS, intents))
  {
    r := RenderBlock(INTENTS, intents);
  }

  /** The text of an accepted list holds, for every intent, an entry that opens with its id and
      gives each of its fields under that field's name. */
  lemma RenderedIntentReads(intents: seq<Intent>, i: Intent)
    requires Rendered(INTENTS, intents).Some? && i in intents
    ensures exists entry ::
              && Contains(Rendered(INTENTS, intents).value, entry)
              && Says(entry, "  intents ", Identity(i.intentId), IntentFields(i))
  {
    IntentGivesFields(i);
    PiecesSay(IntentPieces(i), "  intents ", Identity(i.intentId), IntentFields(i));
    RenderedContains(INTENTS, intents, i);
  }

  /** Two intent lists that render, render to the same text exactly when one is a permutation of the
      other; a list and its permutations are accepted or refused together. */
  lemma IntentTextIsCanonicalAndInjective(a: seq<Intent>, b: seq<Intent>)
    ensures multiset(a) == multiset(b) ==> Rendered(INTENTS, a) == Rendered(INTENTS, b)
    ensures Rendered(INTENTS, a).Some? && Rendered(INTENTS, a) == Rendered(INTENTS, b) ==> multiset(a) == multiset(b)
  {
    IntentsAreLawful();
    if multiset(a) == multiset(b) {
      RenderingIsCanonical(INTENTS, a, b);
    }
    if Rendered(INTENTS, a).Some? && Rendered(INTENTS, a) == Rendered(INTENTS, b) {
      RenderingIsInjective(INTENTS, a, b);
    }
  }

  /** The whole text: the block's header, the intents by ascending id, and the closing brace. */
  lemma RenderedIntentsInOrder(intents: seq<Intent>) returns (ordered: seq<Intent>)
    requires intents != [] && Rendered(INTENTS, intents).Some?
    ensures multiset(ordered) == multiset(intents)
    ensures forall i, j :: 0 <= i < j < |ordered| ==> ordered[i].intentId < ordered[j].intentId
    ensures Rendered(INTENTS, intents).value ==
            "application_publication_route_intents {\n" + Entries(INTENTS, ordered) + "}\n"
  {
    IntentsAreLawful();
    ordered := RenderedInOrder(INTENTS, intents);
    forall i, j | 0 <= i < j < |ordered|
      ensures ordered[i].intentId < ordered[j].intentId
    {
      assert INTENTS.before(ordered[i], ordered[j]) && INTENTS.key(ordered[i]) != INTENTS.key(ordered[j]);
    }
  }
}
