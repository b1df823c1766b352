// Verification of the signed feed index and the incremental fetch of the release catalogue: cached
// release documents are reused when version, revision and digest of the index entry still match.
module UpdateFeed {
  import opened Options
  import opened UpdateCatalog

  const SCHEMA_VERSION := 1
  const MAX_RELEASES := 500

  // The parts of an index entry; `pathMatches` and `digestWellFormed` are the checks on its text.
  datatype Descriptor = Descriptor(
    version: VersionText, stableChannel: bool, revision: int, publishedAt: string,
    pathMatches: bool, sha256: string, digestWellFormed: bool)

  // `sequence` is None when it is no integer, `releases` None when it is no array.
  datatype Payload = Payload(schemaVersion: int, sequence: Option<int>, generatedAt: string, releases: Option<seq<Descriptor>>)

  datatype Envelope = Envelope(schemaVersion: int, keyId: string, payload: string, signature: string)

  // A release document as parsed; `wellFormed` stands for the checks on its texts and links.
  datatype RawDocument = RawDocument(
    schemaVersion: int, version: VersionText, stableChannel: bool, revision: int, publishedAt: string,
    security: seq<Advisory>, content: string, wellFormed: bool)

  // Cryptography and parsing: signature check, base64url and JSON decoding of the payload, SHA-256,
  // JSON parsing of a document, and date parsing.
  datatype Env = Env(
    publicKeys: map<string, string>,
    verify: (string, string, string) -> bool,
    decodePayload: string -> Option<Payload>,
    digest: string -> string,
    parseDocument: string -> Option<RawDocument>,
    isDate: string -> bool)

  // ---------- The signed index ----------

  function DescriptorFault(d: Descriptor, previous: Option<Version>, env: Env): Option<string> {
    if !(d.version.Stable? && d.version.canonical) then Some("update_feed_release_index_invalid")
    else if !d.stableChannel then Some("update_feed_release_index_invalid")
    else if d.revision <= 0 then Some("update_feed_release_index_invalid")
    else if !env.isDate(d.publishedAt) then Some("update_feed_release_index_invalid")
    else if !d.pathMatches then Some("update_feed_release_path_invalid")
    else if !d.digestWellFormed then Some("update_feed_release_digest_invalid")
    else if previous.Some? && !Gt(d.version.version, previous.value) then Some("update_feed_release_order_invalid")
    else None
  }

  // The fault of the first faulty index entry, each entry being compared with the one before it.
  function IndexFault(descriptors: seq<Descriptor>, env: Env): Option<string> {
    if descriptors == [] then None
    else
      var n := |descriptors| - 1;
      var earlier := IndexFault(descriptors[..n], env);
      if earlier.Some? then earlier
      else DescriptorFault(descriptors[n], if n == 0 then None else VersionOf(descriptors[n - 1]), env)
  }

  function VersionOf(d: Descriptor): Option<Version> {
    if d.version.Stable? then Some(d.version.version) else None
  }

  function CheckFeed(e: Envelope, env: Env, minimumSequence: nat): Result<Payload> {
    if e.schemaVersion != SCHEMA_VERSION then Err("update_feed_envelope_schema_invalid")
    else if e.keyId == "" then Err("update_feed_key_id_missing")
    else if e.payload == "" then Err("update_feed_payload_missing")
    else if e.signature == "" then Err("update_feed_signature_missing")
    else if e.keyId !in env.publicKeys || env.publicKeys[e.keyId] == "" then Err("update_feed_unknown_key")
    else if !env.verify(env.publicKeys[e.keyId], e.payload, e.signature) then Err("update_feed_signature_invalid")
    else match env.decodePayload(e.payload)
      case None => Err("update_feed_payload_invalid")
      case Some(payload) =>
        if payload.schemaVersion != SCHEMA_VERSION then Err("update_feed_payload_schema_invalid")
        else if payload.sequence.None? || payload.sequence.value < minimumSequence then Err("update_feed_sequence_rollback")
        else if !env.isDate(payload.generatedAt) then Err("update_feed_generated_at_invalid")
        else if payload.releases.None? || |payload.releases.value| > MAX_RELEASES then Err("update_feed_release_index_invalid")
        else match IndexFault(payload.releases.value, env)
          case Some(code) => Err(code)
          case None => Ok(payload)
  }

  // ---------- What is accepted ----------

  predicate Complete(e: Envelope) {
    e.schemaVersion == SCHEMA_VERSION && e.keyId != "" && e.payload != "" && e.signature != ""
  }

  predicate KnownKey(e: Envelope, env: Env) {
    e.keyId in env.publicKeys && env.publicKeys[e.keyId] != ""
  }

  // The envelope carries the payload under a valid signature of a known key.
  ghost predicate Signed(e: Envelope, env: Env, payload: Payload) {
    && Complete(e) && KnownKey(e, env)
    && env.verify(env.publicKeys[e.keyId], e.payload, e.signature)
    && env.decodePayload(e.payload) == Some(payload)
  }

  predicate GoodEntry(d: Descriptor, env: Env) {
    && d.version.Stable? && d.version.canonical && d.stableChannel && d.revision > 0 && env.isDate(d.publishedAt)
    && d.pathMatches && d.digestWellFormed
  }

  // Well-formed entries in strictly ascending order.
  ghost predicate GoodIndex(descriptors: seq<Descriptor>, env: Env) {
    && (forall i :: 0 <= i < |descriptors| ==> GoodEntry(descriptors[i], env))
    && AscendingIndex(descriptors)
  }

  // The payload is of this schema and dated, does not fall behind the stored sequence number, and its
  // index is good and not too long.
  ghost predicate GoodPayload(payload: Payload, env: Env, minimumSequence: nat) {
    && payload.schemaVersion == SCHEMA_VERSION && env.isDate(payload.generatedAt)
    && payload.sequence.Some? && payload.sequence.value >= minimumSequence
    && payload.releases.Some? && |payload.releases.value| <= MAX_RELEASES && GoodIndex(payload.releases.value, env)
  }

  method ParseAndVerifyFeedEnvelope(e: Envelope, env: Env, minimumSequence: nat) returns (r: Result<Payload>)
    ensures r == CheckFeed(e, env, minimumSequence)
    ensures forall payload :: r == Ok(payload) <==> Signed(e, env, payload) && GoodPayload(payload, env, minimumSequence)
  {
    AcceptedExactly(e, env, minimumSequence);
    if e.schemaVersion != SCHEMA_VERSION { return Err("update_feed_envelope_schema_invalid"); }
    if e.keyId == "" { return Err("update_feed_key_id_missing"); }
    if e.payload == "" { return Err("update_feed_payload_missing"); }
    if e.signature == "" { return Err("update_feed_signature_missing"); }
    if e.keyId !in env.publicKeys || env.publicKeys[e.keyId] == "" { return Err("update_feed_unknown_key"); }
    if !env.verify(env.publicKeys[e.keyId], e.payload, e.signature) { return Err("update_feed_signature_invalid"); }
    var decoded := env.decodePayload(e.payload);
    if decoded.None? { return Err("update_feed_payload_invalid"); }
    var payload := decoded.value;
    if payload.schemaVersion != SCHEMA_VERSION { return Err("update_feed_payload_schema_invalid"); }
    if payload.sequence.None? || payload.sequence.value < minimumSequence { return Err("update_feed_sequence_rollback"); }
    if !env.isDate(payload.generatedAt) { return Err("update_feed_generated_at_invalid"); }
    if payload.releases.None? || |payload.releases.value| > MAX_RELEASES { return Err("update_feed_release_index_invalid"); }

    var descriptors := payload.releases.value;
    var previousVersion: Option<Version> := None;
    for i := 0 to |descriptors|
      invariant IndexFault(descriptors[..i], env).None?
      invariant previousVersion == if i == 0 then None else VersionOf(descriptors[i - 1])
    {
      assert descriptors[..i + 1][..i] == descriptors[..i];
      var fault := DescriptorFault(descriptors[i], previousVersion, env);
      if fault.Some? {
        FaultPersists(descriptors, i + 1, env);
        return Err(fault.value);
      }
      previousVersion := Some(descriptors[i].version.version);
    }
    assert descriptors[..|descriptors|] == descriptors;
    return Ok(payload);
  }

  lemma {:induction false} FaultPersists(descriptors: seq<Descriptor>, k: nat, env: Env)
    requires k <= |descriptors| && IndexFault(descriptors[..k], env).Some?
    ensures IndexFault(descriptors, env) == IndexFault(descriptors[..k], env)
    decreases |descriptors|
  {
    hide DescriptorFault;
    var n := |descriptors| - 1;
    if k == |descriptors| {
      assert descriptors[..k] == descriptors;
    } else {
      assert descriptors[..n][..k] == descriptors[..k];
      FaultPersists(descriptors[..n], k, env);
    }
  }

  predicate AscendingIndex(descriptors: seq<Descriptor>) {
    && (forall i :: 0 <= i < |descriptors| ==> descriptors[i].version.Stable? && descriptors[i].version.canonical)
    && forall i, j :: 0 <= i < j < |descriptors| ==> Gt(descriptors[j].version.version, descriptors[i].version.version)
  }

  // An accepted index lists canonical stable versions in strictly ascending order, although only
  // neighbours are compared.
  lemma {:induction false} AcceptedIndexAscends(descriptors: seq<Descriptor>, env: Env)
    requires IndexFault(descriptors, env).None?
    ensures AscendingIndex(descriptors)
    ensures forall i :: 0 <= i < |descriptors| ==> descriptors[i].revision > 0
  {
    if descriptors != [] {
      var n := |descriptors| - 1;
      AcceptedIndexAscends(descriptors[..n], env);
      forall i | 0 <= i < n
        ensures Gt(descriptors[n].version.version, descriptors[i].version.version)
      {
        assert descriptors[..n][i] == descriptors[i] && descriptors[..n][n - 1] == descriptors[n - 1];
      }
    }
  }

  lemma {:induction false} IndexAcceptedExactly(descriptors: seq<Descriptor>, env: Env)
    ensures IndexFault(descriptors, env).None? <==> GoodIndex(descriptors, env)
  {
    hide Gt;
    if descriptors != [] {
      var n := |descriptors| - 1;
      IndexAcceptedExactly(descriptors[..n], env);
      assert forall i :: 0 <= i < n ==> descriptors[..n][i] == descriptors[i];
      if IndexFault(descriptors, env).None? {
        AcceptedIndexAscends(descriptors, env);
      }
    }
  }

  // Exactly the signed and good payloads are accepted.
  lemma AcceptedExactly(e: Envelope, env: Env, minimumSequence: nat)
    ensures forall payload :: CheckFeed(e, env, minimumSequence) == Ok(payload) <==>
              Signed(e, env, payload) && GoodPayload(payload, env, minimumSequence)
  {
    hide IndexFault, GoodIndex;
    forall payload: Payload | payload.releases.Some? ensures IndexFault(payload.releases.value, env).None? <==> GoodIndex(payload.releases.value, env) {
      IndexAcceptedExactly(payload.releases.value, env);
    }
  }

  // What the three refusals that guard the feed mean; an index entry is never to blame for them.
  lemma RefusedBecause(e: Envelope, env: Env, minimumSequence: nat)
    ensures var r := CheckFeed(e, env, minimumSequence);
      && (r == Err("update_feed_unknown_key") <==> Complete(e) && !KnownKey(e, env))
      && (r == Err("update_feed_signature_invalid") <==>
            Complete(e) && KnownKey(e, env) && !env.verify(env.publicKeys[e.keyId], e.payload, e.signature))
      && (r == Err("update_feed_sequence_rollback") <==>
            exists payload | Signed(e, env, payload) ::
              payload.schemaVersion == SCHEMA_VERSION && (payload.sequence.None? || payload.sequence.value < minimumSequence))
  {
    hide IndexFault;
    if env.decodePayload(e.payload).Some? && env.decodePayload(e.payload).value.releases.Some? {
      FaultsOfIndex(env.decodePayload(e.payload).value.releases.value, env);
    }
  }

  lemma {:induction false} FaultsOfIndex(descriptors: seq<Descriptor>, env: Env)
    ensures IndexFault(descriptors, env) in {None, Some("update_feed_release_index_invalid"), Some("update_feed_release_path_invalid"),
              Some("update_feed_release_digest_invalid"), Some("update_feed_release_order_invalid")}
  {
    if descriptors != [] {
      FaultsOfIndex(descriptors[..|descriptors| - 1], env);
    }
  }

  // An accepted payload has an index, and its sequence number does not fall behind the stored one.
  lemma CheckedFeed(e: Envelope, env: Env, minimumSequence: nat)
    requires CheckFeed(e, env, minimumSequence).Ok?
    ensures var payload := CheckFeed(e, env, minimumSequence).value;
            && payload.sequence.Some? && payload.sequence.value >= minimumSequence
            && payload.releases.Some? && AscendingIndex(payload.releases.value)
  {
    AcceptedIndexAscends(CheckFeed(e, env, minimumSequence).value.releases.value, env);
  }

  // ---------- Release documents ----------

  // The stored form of a validated document.
  function ToDocument(raw: RawDocument): Document
    requires raw.version.Stable? && raw.revision > 0
  {
    Document(raw.version.version, raw.revision, raw.publishedAt, raw.security, raw.content)
  }

  function ValidateDocument(raw: RawDocument, d: Descriptor, env: Env): Result<Document> {
    if raw.schemaVersion != SCHEMA_VERSION then Err("update_feed_release_schema_invalid")
    else if !(raw.version.Stable? && raw.version.canonical) then Err("update_feed_release_version_invalid")
    else if !raw.stableChannel then Err("update_feed_release_channel_invalid")
    else if raw.revision <= 0 then Err("update_feed_release_revision_invalid")
    else if !env.isDate(raw.publishedAt) then Err("update_feed_release_date_invalid")
    else if raw.version != d.version || raw.revision != d.revision || raw.publishedAt != d.publishedAt then
      Err("update_feed_release_descriptor_mismatch")
    else if !raw.wellFormed then Err("update_feed_release_invalid")
    else Ok(ToDocument(raw))
  }

  // What the server holds under the path of a version; None when the request fails.
  type Server = VersionText -> Option<string>

  function FetchRelease(d: Descriptor, server: Server, env: Env): Result<Release> {
    match server(d.version)
    case None => Err("update_feed_release_http_error")
    case Some(bytes) =>
      if env.digest(bytes) != d.sha256 then Err("update_feed_release_digest_mismatch")
      else match env.parseDocument(bytes)
        case None => Err("update_feed_release_json_invalid")
        case Some(raw) =>
          match ValidateDocument(raw, d, env)
          case Err(code) => Err(code)
          case Ok(document) => Ok(Release(document, d.sha256))
  }

  // A map keyed by version; a later release replaces an earlier one of the same version.
  function CachedByVersion(releases: seq<Release>): (m: map<VersionText, Release>)
    ensures forall v :: v in m ==> m[v] in releases && v == Stable(m[v].document.version, true)
  {
    if releases == [] then map[]
    else
      var release := releases[|releases| - 1];
      CachedByVersion(releases[..|releases| - 1])[Stable(release.document.version, true) := release]
  }

  predicate Reusable(d: Descriptor, cached: map<VersionText, Release>) {
    d.version in cached && cached[d.version].sha256 == d.sha256 && cached[d.version].document.revision == d.revision
  }

  // The releases of an index, each from the cache or from the server; the first failure wins.
  function FetchReleases(descriptors: seq<Descriptor>, cached: map<VersionText, Release>, server: Server, env: Env): Result<seq<Release>> {
    if descriptors == [] then Ok([])
    else
      var n := |descriptors| - 1;
      match FetchReleases(descriptors[..n], cached, server, env)
      case Err(code) => Err(code)
      case Ok(releases) =>
        if Reusable(descriptors[n], cached) then Ok(releases + [cached[descriptors[n].version]])
        else match FetchRelease(descriptors[n], server, env)
          case Err(code) => Err(code)
          case Ok(release) => Ok(releases + [release])
  }

  // ---------- The fetch ----------

  // The reply to the conditional index request; the envelope is None when it is no JSON.
  datatype Reply = NotModified | HttpError | Timeout | Index(envelope: Option<Envelope>, etag: Option<string>)

  datatype FetchResult = FetchResult(catalog: Catalog, etag: Option<string>, sequence: nat)

  function FetchCatalog(cached: Option<Catalog>, etag: Option<string>, sequence: nat, reply: Reply, server: Server, env: Env): Result<FetchResult> {
    if env.publicKeys == map[] then Err("update_feed_keyring_empty")
    else match reply
      case Timeout => Err("update_feed_timeout")
      case HttpError => Err("update_feed_http_error")
      case NotModified =>
        if cached.None? then Err("update_feed_cache_missing") else Ok(FetchResult(cached.value, etag, sequence))
      case Index(envelope, newEtag) =>
        if envelope.None? then Err("update_feed_envelope_invalid")
        else match CheckFeed(envelope.value, env, sequence)
          case Err(code) => Err(code)
          case Ok(payload) =>
            match FetchReleases(payload.releases.value, CachedReleases(cached), server, env)
            case Err(code) => Err(code)
            case Ok(releases) =>
              Ok(FetchResult(Catalog(payload.sequence.value, payload.generatedAt, releases), newEtag, payload.sequence.value))
  }

  function CachedReleases(cached: Option<Catalog>): map<VersionText, Release> {
    if cached.None? then map[] else CachedByVersion(cached.value.releases)
  }

  // The reply carries a signed and good payload.
  ghost predicate Announces(reply: Reply, env: Env, sequence: nat, payload: Payload) {
    reply.Index? && reply.envelope.Some? && Signed(reply.envelope.value, env, payload) && GoodPayload(payload, env, sequence)
  }

  method RunFetchCatalog(cached: Option<Catalog>, etag: Option<string>, sequence: nat, reply: Reply, server: Server, env: Env)
    returns (r: Result<FetchResult>)
    ensures r == FetchCatalog(cached, etag, sequence, reply, server, env)
    ensures r.Ok? && reply.Index? ==> exists payload | Announces(reply, env, sequence, payload) ::
      r.value.sequence == r.value.catalog.sequence == payload.sequence.value && r.value.etag == reply.etag
  {
    hide CheckFeed, FetchRelease, CachedReleases, IndexFault, Signed, GoodPayload;
    if env.publicKeys == map[] { return Err("update_feed_keyring_empty"); }
    if reply.Timeout? { return Err("update_feed_timeout"); }
    if reply.NotModified? {
      if cached.None? { return Err("update_feed_cache_missing"); }
      return Ok(FetchResult(cached.value, etag, sequence));
    }
    if !reply.Index? { return Err("update_feed_http_error"); }
    if reply.envelope.None? { return Err("update_feed_envelope_invalid"); }
    var verified := ParseAndVerifyFeedEnvelope(reply.envelope.value, env, sequence);
    if verified.Err? { return Err(verified.code); }
    CheckedFeed(reply.envelope.value, env, sequence);
    var payload := verified.value;
    var descriptors := payload.releases.value;
    var cachedByVersion := CachedReleases(cached);
    var releases: seq<Release> := [];
    for i := 0 to |descriptors|
      invariant FetchReleases(descriptors[..i], cachedByVersion, server, env) == Ok(releases)
    {
      assert descriptors[..i + 1][..i] == descriptors[..i];
      if Reusable(descriptors[i], cachedByVersion) {
        releases := releases + [cachedByVersion[descriptors[i].version]];
        continue;
      }
      var fetched := FetchRelease(descriptors[i], server, env);
      if fetched.Err? {
        FailurePersists(descriptors, i + 1, cachedByVersion, server, env);
        return Err(fetched.code);
      }
      releases := releases + [fetched.value];
    }
    assert descriptors[..|descriptors|] == descriptors;
    return Ok(FetchResult(Catalog(payload.sequence.value, payload.generatedAt, releases), reply.etag, payload.sequence.value));
  }

  lemma {:induction false} FailurePersists(descriptors: seq<Descriptor>, k: nat, cached: map<VersionText, Release>, server: Server, env: Env)
    requires k <= |descriptors| && FetchReleases(descriptors[..k], cached, server, env).Err?
    ensures FetchReleases(descriptors, cached, server, env) == FetchReleases(descriptors[..k], cached, server, env)
    decreases |descriptors|
  {
    var n := |descriptors| - 1;
    if k == |descriptors| {
      assert descriptors[..k] == descriptors;
    } else {
      assert descriptors[..n][..k] == descriptors[..k];
      FailurePersists(descriptors[..n], k, cached, server, env);
    }
  }

  // ---------- What a fetch keeps ----------

  // The digest of a stored release is that of the bytes its document was parsed from.
  ghost predicate Genuine(release: Release, env: Env) {
    exists bytes: string :: ParsedFrom(release, bytes, env)
  }

  ghost predicate ParsedFrom(release: Release, bytes: string, env: Env) {
    && env.digest(bytes) == release.sha256
    && env.parseDocument(bytes).Some?
    && var raw := env.parseDocument(bytes).value;
       && raw.schemaVersion == SCHEMA_VERSION && raw.version.Stable? && raw.version.canonical && raw.stableChannel
       && raw.revision > 0 && env.isDate(raw.publishedAt) && raw.wellFormed
       && release.document == ToDocument(raw)
  }

  ghost predicate GenuineCatalog(catalog: Catalog, env: Env) {
    Ascending(catalog.releases) && forall release :: release in catalog.releases ==> Genuine(release, env)
  }

  ghost predicate GenuineMap(cached: map<VersionText, Release>, env: Env) {
    forall v :: v in cached ==> Genuine(cached[v], env) && v == Stable(cached[v].document.version, true)
  }

  // A successful fetch lists one genuine release per index entry, of the entry's version, revision and digest.
  lemma {:induction false} FetchedReleases(descriptors: seq<Descriptor>, cached: map<VersionText, Release>, server: Server, env: Env)
    requires GenuineMap(cached, env)
    requires FetchReleases(descriptors, cached, server, env).Ok?
    ensures var releases := FetchReleases(descriptors, cached, server, env).value;
            && |releases| == |descriptors|
            && forall i :: 0 <= i < |releases| ==>
                 && Genuine(releases[i], env) && descriptors[i].version == Stable(releases[i].document.version, true)
                 && releases[i].document.revision == descriptors[i].revision && releases[i].sha256 == descriptors[i].sha256
  {
    if descriptors != [] {
      var n := |descriptors| - 1;
      FetchedReleases(descriptors[..n], cached, server, env);
      if !Reusable(descriptors[n], cached) {
        assert ParsedFrom(FetchRelease(descriptors[n], server, env).value, server(descriptors[n].version).value, env);
      }
    }
  }

  // An index reply is taken exactly when its payload is signed and good and every release of its index
  // can be had; the catalogue then has the sequence number and date of the payload.
  lemma IndexReplyExactly(cached: Option<Catalog>, etag: Option<string>, sequence: nat, reply: Reply, server: Server, env: Env)
    requires reply.Index?
    ensures FetchCatalog(cached, etag, sequence, reply, server, env).Ok? <==>
      exists payload | Announces(reply, env, sequence, payload) :: FetchReleases(payload.releases.value, CachedReleases(cached), server, env).Ok?
    ensures forall payload | Announces(reply, env, sequence, payload) && FetchCatalog(cached, etag, sequence, reply, server, env).Ok? ::
      var r := FetchCatalog(cached, etag, sequence, reply, server, env).value;
      && r.catalog.sequence == r.sequence == payload.sequence.value && r.catalog.generatedAt == payload.generatedAt && r.etag == reply.etag
      && Ok(r.catalog.releases) == FetchReleases(payload.releases.value, CachedReleases(cached), server, env)
  {
    hide CheckFeed, FetchReleases, CachedReleases, Signed, GoodPayload;
    if reply.envelope.Some? {
      AcceptedExactly(reply.envelope.value, env, sequence);
      forall payload | Announces(reply, env, sequence, payload)
        ensures CheckFeed(reply.envelope.value, env, sequence) == Ok(payload) && payload.releases.Some? && payload.sequence.Some? && env.publicKeys != map[]
      {
        SignedNeedsKey(reply.envelope.value, env, payload, sequence);
      }
      if CheckFeed(reply.envelope.value, env, sequence).Ok? {
        assert Announces(reply, env, sequence, CheckFeed(reply.envelope.value, env, sequence).value);
      }
    }
  }

  lemma SignedNeedsKey(e: Envelope, env: Env, payload: Payload, sequence: nat)
    ensures Signed(e, env, payload) ==> env.publicKeys != map[]
    ensures GoodPayload(payload, env, sequence) ==> payload.releases.Some? && payload.sequence.Some?
  {
  }

  // Every successful fetch answers with a genuine ascending catalogue that carries its own sequence
  // number, and the sequence number never falls behind the stored one.
  lemma FetchKeepsCatalog(cached: Option<Catalog>, etag: Option<string>, sequence: nat, reply: Reply, server: Server, env: Env)
    requires cached.Some? ==> GenuineCatalog(cached.value, env) && cached.value.sequence == sequence
    requires FetchCatalog(cached, etag, sequence, reply, server, env).Ok?
    ensures var r := FetchCatalog(cached, etag, sequence, reply, server, env).value;
            GenuineCatalog(r.catalog, env) && r.catalog.sequence == r.sequence && r.sequence >= sequence
  {
    if reply.Index? {
      var descriptors := CheckFeed(reply.envelope.value, env, sequence).value.releases.value;
      AcceptedIndexAscends(descriptors, env);
      FetchedReleases(descriptors, CachedReleases(cached), server, env);
    }
  }

  // ---------- The incremental fetch against a full one ----------

  ghost predicate Injective(digest: string -> string) {
    forall x, y :: digest(x) == digest(y) ==> x == y
  }

  // What a full fetch needs of a reused entry: the server still has the bytes, and the document
  // still carries the publication date of the index, which the reuse does not look at.
  ghost predicate StillServed(d: Descriptor, release: Release, server: Server, env: Env) {
    && server(d.version).Some?
    && env.digest(server(d.version).value) == d.sha256
    && release.document.publishedAt == d.publishedAt
  }

  lemma ReusedReleaseIsFetched(d: Descriptor, cached: map<VersionText, Release>, server: Server, env: Env)
    requires Injective(env.digest) && GenuineMap(cached, env)
    requires Reusable(d, cached)
    ensures FetchRelease(d, server, env).Ok? <==> StillServed(d, cached[d.version], server, env)
    ensures FetchRelease(d, server, env).Ok? ==> FetchRelease(d, server, env).value == cached[d.version]
  {
    var bytes :| ParsedFrom(cached[d.version], bytes, env);
  }

  // Whenever a full fetch succeeds, the incremental one gives exactly the same releases.
  lemma {:induction false} IncrementalEqualsFull(descriptors: seq<Descriptor>, cached: map<VersionText, Release>, server: Server, env: Env)
    requires Injective(env.digest) && GenuineMap(cached, env)
    requires FetchReleases(descriptors, map[], server, env).Ok?
    ensures FetchReleases(descriptors, cached, server, env) == FetchReleases(descriptors, map[], server, env)
  {
    if descriptors != [] {
      var n := |descriptors| - 1;
      IncrementalEqualsFull(descriptors[..n], cached, server, env);
      if Reusable(descriptors[n], cached) {
        ReusedReleaseIsFetched(descriptors[n], cached, server, env);
      }
    }
  }

  // And when the incremental fetch succeeds, a full one does the same exactly when every reused
  // entry is still served with the publication date of the index.
  lemma {:induction false} FullFetchCondition(descriptors: seq<Descriptor>, cached: map<VersionText, Release>, server: Server, env: Env)
    requires Injective(env.digest) && GenuineMap(cached, env)
    requires FetchReleases(descriptors, cached, server, env).Ok?
    ensures FetchReleases(descriptors, map[], server, env) == FetchReleases(descriptors, cached, server, env) <==>
            forall i :: 0 <= i < |descriptors| && Reusable(descriptors[i], cached) ==>
              StillServed(descriptors[i], cached[descriptors[i].version], server, env)
  {
    if descriptors != [] {
      var n := |descriptors| - 1;
      FullFetchCondition(descriptors[..n], cached, server, env);
      if Reusable(descriptors[n], cached) {
        ReusedReleaseIsFetched(descriptors[n], cached, server, env);
      }
      assert forall i :: 0 <= i < n ==> descriptors[..n][i] == descriptors[i];
      if FetchReleases(descriptors, map[], server, env).Ok? {
        IncrementalEqualsFull(descriptors, cached, server, env);
        IncrementalEqualsFull(descriptors[..n], cached, server, env);
      }
    }
  }

  // In a catalogue no release hides another one in the cache.
  lemma {:induction false} CachedByVersionHas(releases: seq<Release>, i: nat)
    requires Ascending(releases) && i < |releases|
    ensures var v := Stable(releases[i].document.version, true);
      v in CachedByVersion(releases) && CachedByVersion(releases)[v] == releases[i]
  {
    var n := |releases| - 1;
    if i < n {
      CachedByVersionHas(releases[..n], i);
      assert Gt(releases[n].document.version, releases[i].document.version);
    }
  }

  // The entry lists the release as it is.
  predicate ListsRelease(d: Descriptor, release: Release) {
    d.version == Stable(release.document.version, true) && d.revision == release.document.revision && d.sha256 == release.sha256
  }

  // What has not changed is not asked for again: an index that lists the first releases of a cached
  // catalogue as they are is fetched from the cache alone, whatever the server does.
  lemma {:induction false} UnchangedNeedsNoServer(catalog: Catalog, descriptors: seq<Descriptor>, server: Server, env: Env)
    requires Ascending(catalog.releases) && |descriptors| <= |catalog.releases|
    requires forall i :: 0 <= i < |descriptors| ==> ListsRelease(descriptors[i], catalog.releases[i])
    ensures FetchReleases(descriptors, CachedReleases(Some(catalog)), server, env) == Ok(catalog.releases[..|descriptors|])
  {
    hide FetchRelease, Ascending, CachedByVersion;
    if descriptors != [] {
      var n := |descriptors| - 1;
      UnchangedNeedsNoServer(catalog, descriptors[..n], server, env);
      CachedByVersionHas(catalog.releases, n);
      assert catalog.releases[..n] + [catalog.releases[n]] == catalog.releases[..n + 1];
    }
  }

  // The other replies: nothing new leaves everything as it was cached, and without a cache or a keyring
  // there is nothing to go by.
  lemma OtherReplies(cached: Option<Catalog>, etag: Option<string>, sequence: nat, reply: Reply, server: Server, env: Env)
    ensures var r := FetchCatalog(cached, etag, sequence, reply, server, env);
      && (env.publicKeys == map[] ==> r == Err("update_feed_keyring_empty"))
      && (env.publicKeys != map[] && reply.NotModified? ==>
            (r.Ok? <==> cached.Some?) && (r.Ok? ==> r.value.catalog == cached.value && r.value.etag == etag && r.value.sequence == sequence))
      && (reply.HttpError? || reply.Timeout? ==> r.Err?)
  {
  }

  // A full fetch that fails where the incremental one succeeds: the server does not answer, and the one
  // entry of the index is reused from a genuine cache.
  lemma UnservedFetchFails(env: Env, bytes: string, raw: RawDocument)
    requires env.parseDocument(bytes) == Some(raw) && raw.wellFormed && env.isDate(raw.publishedAt)
    requires raw.schemaVersion == SCHEMA_VERSION && raw.version.Stable? && raw.version.canonical && raw.stableChannel && raw.revision > 0
    ensures var release := Release(ToDocument(raw), env.digest(bytes));
      var cached: map<VersionText, Release> := map[raw.version := release];
      var index := [Descriptor(raw.version, true, raw.revision, raw.publishedAt, true, env.digest(bytes), true)];
      && GenuineMap(cached, env)
      && FetchReleases(index, cached, Unreachable, env) == Ok([release])
      && FetchReleases(index, map[], Unreachable, env) == Err("update_feed_release_http_error")
  {
    var release := Release(ToDocument(raw), env.digest(bytes));
    assert ParsedFrom(release, bytes, env);
    var d := Descriptor(raw.version, true, raw.revision, raw.publishedAt, true, env.digest(bytes), true);
    assert [d][..0] == [] && [] + [release] == [release];
  }

  function Unreachable(version: VersionText): Option<string> {
    None
  }

  // The same for the whole catalogue, over the cache of any genuine catalogue.
  lemma IncrementalCatalogEqualsFull(cached: Option<Catalog>, etag: Option<string>, sequence: nat, reply: Reply, server: Server, env: Env)
    requires Injective(env.digest) && reply.Index?
    requires cached.Some? ==> GenuineCatalog(cached.value, env)
    requires FetchCatalog(None, etag, sequence, reply, server, env).Ok?
    ensures FetchCatalog(cached, etag, sequence, reply, server, env) == FetchCatalog(None, etag, sequence, reply, server, env)
  {
    var payload := CheckFeed(reply.envelope.value, env, sequence).value;
    IncrementalEqualsFull(payload.releases.value, CachedReleases(cached), server, env);
  }
}
