/** The documented schema of trace blocks (docs/spec/tok_trace_schema_v0_1.tok.md), and how far the
    reader's validation (scripts/tok_trace_reader.py) agrees with it. */
module TraceSchema {
  import opened Text
  import opened TraceAudit

  // ---------- The schema, section by section ----------

  /** `sha256:<64 lowercase hex>` */
  predicate Digest(j: Json) {
    j.Str? && IsHashText(j.s)
  }

  predicate OptionalDigest(j: Json, key: string) {
    Has(j, key) ==> Digest(Get(j, key))
  }

  predicate OptionalString(j: Json, key: string) {
    Has(j, key) ==> Get(j, key).Str?
  }

  predicate EnvelopeSchema(envelope: Json) {
    && envelope.Obj? && Get(envelope, "trace_version") == Str("tok-trace/v0.1-draft")
    && Get(envelope, "block_id").Str? && Get(envelope, "session_id").Str?
    && Get(envelope, "turn").Num? && Get(envelope, "step").Num?
    && OneOf(Get(envelope, "direction"), DIRECTIONS)
    && (Get(envelope, "payload_digest") == DRAFT || Digest(Get(envelope, "payload_digest")))
  }

  predicate ObservationSchema(observation: Json) {
    && observation.Obj? && OneOf(Get(observation, "class"), CLASSES) && Get(observation, "key").Str?
    && OneOf(Get(observation, "action"), ACTIONS) && OneOf(Get(observation, "result"), RESULTS)
  }

  predicate ContentShape(content: Json) {
    && content.Obj? && Get(content, "exact").Bool?
    && OptionalDigest(content, "hash") && (Has(content, "size_bytes") ==> Get(content, "size_bytes").Num?)
    && OptionalString(content, "resolver_uri")
    && OptionalDigest(content, "base_hash") && OptionalString(content, "base_uri")
    && OptionalDigest(content, "delta_hash") && OptionalString(content, "delta_uri")
    && (Has(content, "delta_algorithm") ==> OneOf(Get(content, "delta_algorithm"), ALGORITHMS))
  }

  predicate HasIdentity(content: Json) {
    Has(content, "hash") && Has(content, "size_bytes")
  }

  predicate HasDelta(content: Json) {
    && Has(content, "base_hash") && Has(content, "base_uri") && Has(content, "delta_hash")
    && Has(content, "delta_uri") && Has(content, "delta_algorithm")
  }

  predicate AuditShape(audit: Json) {
    && audit.Obj? && OneOf(Get(audit, "resolver_state"), RESOLVER_STATES)
    && OneOf(Get(audit, "expectation"), EXPECTATIONS) && OptionalString(audit, "reason")
  }

  /** The row of the invariant matrix for an expectation. */
  predicate MatrixRow(name: string, observation: Json, content: Json, audit: Json) {
    var action, result, exact := Get(observation, "action"), Get(observation, "result"), Get(content, "exact");
    var state := Get(audit, "resolver_state");
    if name == "accept_exact" then
      exact == Bool(true) && state == Str("available_local") && Has(content, "resolver_uri") && HasIdentity(content)
    else if name == "accept_reference" then action == Str("reference") && exact == Bool(true) && HasIdentity(content)
    else if name == "accept_non_exact_reference" then OneOf(action, NON_EXACT_ACTIONS) && exact == Bool(false)
    else if name == "accept_pass_through" then
      action == Str("pass_through") && result == Str("ok") && exact == Bool(false)
    else if name == "accept_delta" then
      && action == Str("delta") && exact == Bool(true) && state == Str("available_local")
      && Get(content, "delta_algorithm") == Str("unified_diff")
    else if name == "accept_fallback" then
      && (action == Str("fallback") || OneOf(result, FALLBACK_RESULTS) || state == Str("unresolvable_fallback_required"))
      && Has(audit, "reason")
    else name == "reject_malformed" && result == Str("rejected")
  }

  predicate CrossFieldRules(observation: Json, content: Json, audit: Json) {
    var state := Get(audit, "resolver_state");
    && (Get(content, "exact") == Bool(true) ==> HasIdentity(content))
    && (Get(observation, "action") == Str("delta") ==> HasIdentity(content) && HasDelta(content))
    && (OneOf(Get(observation, "action"), NON_EXACT_ACTIONS) ==> Get(content, "exact") == Bool(false))
    && !(Get(observation, "result") == Str("ok") && state == Str("unresolvable_fallback_required"))
    && (state == Str("available_local") ==> Has(content, "resolver_uri") && HasIdentity(content))
    && (NeedsReason(observation, audit) ==> Has(audit, "reason"))
  }

  predicate ExtensionSchema(block: Json) {
    Has(block, "extensions") ==>
      && Get(block, "extensions").Obj?
      && forall k <- Get(block, "extensions").fields ::
           k !in SECTIONS && Get(block, "extensions").fields[k].Obj?
  }

  predicate Conforms(block: Json) {
    var observation, content, audit := Get(block, "observation"), Get(block, "content"), Get(block, "audit");
    && EnvelopeSchema(Get(block, "envelope")) && ObservationSchema(observation) && ContentShape(content)
    && AuditShape(audit) && MatrixRow(Get(audit, "expectation").s, observation, content, audit)
    && CrossFieldRules(observation, content, audit) && ExtensionSchema(block)
  }

  // ---------- What only one side asks ----------

  /** A digest that validation takes although a newline ends it. */
  predicate EndsInNewline(j: Json) {
    IsHash(j) && !Digest(j)
  }

  /** Rules of the schema that validation does not check. */
  predicate Unchecked(block: Json) {
    var observation, content, audit := Get(block, "observation"), Get(block, "content"), Get(block, "audit");
    && !EndsInNewline(Get(Get(block, "envelope"), "payload_digest")) && !EndsInNewline(Get(content, "hash"))
    && OptionalDigest(content, "base_hash") && OptionalString(content, "base_uri")
    && OptionalDigest(content, "delta_hash") && OptionalString(content, "delta_uri")
    && (Has(content, "delta_algorithm") ==> OneOf(Get(content, "delta_algorithm"), ALGORITHMS))
    && (Get(observation, "action") == Str("delta") ==> Has(content, "base_uri"))
    && (Get(audit, "expectation") == Str("accept_delta") ==> Get(content, "delta_algorithm") == Str("unified_diff"))
    && (Get(audit, "expectation") == Str("accept_fallback") ==>
          || Get(observation, "action") == Str("fallback") || OneOf(Get(observation, "result"), FALLBACK_RESULTS)
          || Get(audit, "resolver_state") == Str("unresolvable_fallback_required"))
    && OptionalString(audit, "reason") && (Has(block, "extensions") ==> Get(block, "extensions") != Null)
  }

  /** Rules of validation that the schema does not state. */
  predicate Unstated(block: Json) {
    var envelope, content, audit := Get(block, "envelope"), Get(block, "content"), Get(block, "audit");
    var observation := Get(block, "observation");
    && Get(envelope, "block_id") != Str("") && Get(envelope, "session_id") != Str("")
    && Get(observation, "key") != Str("")
    && NonNegativeInt(Get(envelope, "turn")) && NonNegativeInt(Get(envelope, "step"))
    && (Has(content, "size_bytes") ==> NonNegativeInt(Get(content, "size_bytes")))
    && (Get(audit, "resolver_state") == Str("available_local") ==> Get(content, "resolver_uri") != Str(""))
    && (Get(observation, "action") == Str("delta") ==> Get(content, "delta_uri") != Str(""))
    && (NeedsReason(observation, audit) ==> Get(audit, "reason") != Str(""))
    && !(Get(block, "extensions").Obj? && "" in Get(block, "extensions").fields)
  }

  // ---------- Agreement ----------

  lemma EnvelopeAgrees(envelope: Json)
    ensures envelope.Obj? && EnvelopeRules(envelope) && !EndsInNewline(Get(envelope, "payload_digest")) <==>
            && EnvelopeSchema(envelope) && Get(envelope, "block_id") != Str("") && Get(envelope, "session_id") != Str("")
            && NonNegativeInt(Get(envelope, "turn")) && NonNegativeInt(Get(envelope, "step"))
  {
  }

  lemma ExtensionsAgree(block: Json)
    ensures ExtensionRules(block) && (Has(block, "extensions") ==> Get(block, "extensions") != Null) <==>
            ExtensionSchema(block) && !(Get(block, "extensions").Obj? && "" in Get(block, "extensions").fields)
  {
  }

  lemma ObservationAgrees(observation: Json)
    ensures observation.Obj? && ObservationRules(observation) <==>
            ObservationSchema(observation) && Get(observation, "key") != Str("")
  {
  }

  /** What validation asks of the three sections that rules connect. */
  predicate CoreValid(block: Json) {
    var observation, content, audit := Get(block, "observation"), Get(block, "content"), Get(block, "audit");
    content.Obj? && audit.Obj? && ContentRules(block) && AuditRules(observation, content, audit)
  }

  predicate CoreConforms(block: Json) {
    var observation, content, audit := Get(block, "observation"), Get(block, "content"), Get(block, "audit");
    && ContentShape(content) && AuditShape(audit) && CrossFieldRules(observation, content, audit)
    && MatrixRow(Get(audit, "expectation").s, observation, content, audit)
  }

  lemma ShapesHold(block: Json)
    requires CoreValid(block) && Unchecked(block)
    ensures ContentShape(Get(block, "content")) && AuditShape(Get(block, "audit"))
    ensures CrossFieldRules(Get(block, "observation"), Get(block, "content"), Get(block, "audit"))
  {
  }

  lemma MatrixHolds(block: Json)
    requires CoreValid(block) && Unchecked(block)
    ensures var audit := Get(block, "audit");
            MatrixRow(Get(audit, "expectation").s, Get(block, "observation"), Get(block, "content"), audit)
  {
  }

  lemma UnstatedHold(block: Json)
    requires CoreValid(block)
    ensures var observation, content, audit := Get(block, "observation"), Get(block, "content"), Get(block, "audit");
            && (Has(content, "size_bytes") ==> NonNegativeInt(Get(content, "size_bytes")))
            && (Get(audit, "resolver_state") == Str("available_local") ==> Get(content, "resolver_uri") != Str(""))
            && (Get(observation, "action") == Str("delta") ==> Get(content, "delta_uri") != Str(""))
            && (NeedsReason(observation, audit) ==> Get(audit, "reason") != Str(""))
  {
  }

  lemma ContentRulesHold(block: Json)
    requires CoreConforms(block) && Unstated(block)
    ensures ContentRules(block)
  {
  }

  lemma AuditRulesHold(block: Json)
    requires CoreConforms(block) && Unstated(block)
    ensures AuditRules(Get(block, "observation"), Get(block, "content"), Get(block, "audit"))
  {
  }

  lemma UncheckedHold(block: Json)
    requires Conforms(block)
    ensures Unchecked(block)
  {
  }

  lemma AcceptedConforms(block: Json)
    requires WellFormed(block) && Unchecked(block)
    ensures Conforms(block) && Unstated(block)
  {
    EnvelopeAgrees(Get(block, "envelope"));
    ObservationAgrees(Get(block, "observation"));
    ExtensionsAgree(block);
    ShapesHold(block);
    MatrixHolds(block);
    UnstatedHold(block);
  }

  lemma ConformingAccepted(block: Json)
    requires Conforms(block) && Unstated(block)
    ensures WellFormed(block) && Unchecked(block)
  {
    EnvelopeAgrees(Get(block, "envelope"));
    ObservationAgrees(Get(block, "observation"));
    ExtensionsAgree(block);
    ContentRulesHold(block);
    AuditRulesHold(block);
    UncheckedHold(block);
  }

  /** Validation accepts a block that keeps the unchecked rules exactly if the block conforms and keeps
      the unstated ones. */
  lemma ValidationAgreesWithSchema(block: Json)
    ensures ValidationErrors(block) == Done([]) && Unchecked(block) <==> Conforms(block) && Unstated(block)
  {
    ValidIffWellFormed(block);
    if WellFormed(block) && Unchecked(block) {
      AcceptedConforms(block);
    }
    if Conforms(block) && Unstated(block) {
      ConformingAccepted(block);
    }
  }

  /** A digest with a newline after it is none, but validation takes it for one. */
  lemma NewlineAccepted(digest: string)
    requires IsHashText(digest)
    ensures IsHash(Str(digest + "\n")) && !Digest(Str(digest + "\n"))
  {
    assert (digest + "\n")[..71] == digest;
  }

  // ---------- Blocks on which the two part ----------

  /** An envelope, at any turn. */
  function SampleEnvelope(turn: int): Json {
    Obj(map["trace_version" := Str("tok-trace/v0.1-draft"), "block_id" := Str("b"), "session_id" := Str("s"),
            "turn" := Num(turn), "step" := Num(0), "direction" := Str("response"), "payload_digest" := DRAFT])
  }

  function SampleObservation(action: string): Json {
    Obj(map["class" := Str("file"), "key" := Str("k"), "action" := Str(action), "result" := Str("ok")])
  }

  /** A delta that names no base. */
  function BaselessContent(digest: string): Json {
    Obj(map["exact" := Bool(true), "hash" := Str(digest), "size_bytes" := Num(1), "resolver_uri" := Str("final"),
            "base_hash" := Str(digest), "delta_hash" := Str(digest), "delta_uri" := Str("delta"),
            "delta_algorithm" := Str("unified_diff")])
  }

  function PlainContent(): Json {
    Obj(map["exact" := Bool(false)])
  }

  function SampleAudit(state: string, expectation: string): Json {
    Obj(map["resolver_state" := Str(state), "expectation" := Str(expectation)])
  }

  function Block(envelope: Json, observation: Json, content: Json, audit: Json): Json {
    Obj(map["envelope" := envelope, "observation" := observation, "content" := content, "audit" := audit])
  }

  lemma BlockSections(block: Json, envelope: Json, observation: Json, content: Json, audit: Json)
    requires block == Block(envelope, observation, content, audit)
    ensures Get(block, "envelope") == envelope && Get(block, "observation") == observation
    ensures Get(block, "content") == content && Get(block, "audit") == audit && !Has(block, "extensions")
  {
  }

  lemma SampleEnvelopeRules(turn: int)
    ensures EnvelopeRules(SampleEnvelope(turn)) <==> turn >= 0
    ensures EnvelopeSchema(SampleEnvelope(turn))
  {
  }

  lemma SampleObservationRules(action: string)
    requires action in ACTIONS
    ensures var o := SampleObservation(action);
            ObservationRules(o) && Get(o, "action") == Str(action) && Get(o, "result") == Str("ok")
  {
  }

  lemma BaselessFields(digest: string)
    ensures var c := BaselessContent(digest);
            && Get(c, "exact") == Bool(true) && Get(c, "size_bytes") == Num(1) && Get(c, "resolver_uri") == Str("final")
            && Get(c, "hash") == Get(c, "base_hash") == Get(c, "delta_hash") == Str(digest)
            && Get(c, "delta_uri") == Str("delta") && Get(c, "delta_algorithm") == Str("unified_diff")
            && !Has(c, "base_uri")
  {
  }

  lemma SampleAuditFields(state: string, expectation: string)
    ensures var a := SampleAudit(state, expectation);
            Get(a, "resolver_state") == Str(state) && Get(a, "expectation") == Str(expectation) && !Has(a, "reason")
  {
  }

  lemma BaselessContentRules(block: Json, content: Json, digest: string)
    requires IsHashText(digest) && Get(block, "content") == content && Get(content, "exact") == Bool(true)
    requires Get(content, "size_bytes") == Num(1) && Get(content, "resolver_uri") == Str("final")
    requires Get(content, "hash") == Get(content, "base_hash") == Get(content, "delta_hash") == Str(digest)
    requires Get(content, "delta_uri") == Str("delta") && Get(content, "delta_algorithm") == Str("unified_diff")
    requires Get(Get(block, "observation"), "action") == Str("delta")
    ensures ContentRules(block)
  {
  }

  lemma LocalDeltaRules(observation: Json, content: Json, audit: Json)
    requires Get(observation, "action") == Str("delta") && Get(observation, "result") == Str("ok")
    requires Get(content, "exact") == Bool(true)
    requires Get(audit, "resolver_state") == Str("available_local") && Get(audit, "expectation") == Str("accept_delta")
    ensures AuditRules(observation, content, audit)
  {
  }

  /** A delta block whose base cannot be resolved is valid, but no block of the schema. */
  lemma BaselessDeltaAccepted(digest: string, block: Json)
    requires IsHashText(digest)
    requires block == Block(SampleEnvelope(0), SampleObservation("delta"), BaselessContent(digest),
                            SampleAudit("available_local", "accept_delta"))
    ensures ValidationErrors(block) == Done([]) && !Conforms(block)
  {
    var envelope, observation := SampleEnvelope(0), SampleObservation("delta");
    var content, audit := BaselessContent(digest), SampleAudit("available_local", "accept_delta");
    BlockSections(block, envelope, observation, content, audit);
    SampleEnvelopeRules(0);
    SampleObservationRules("delta");
    BaselessFields(digest);
    SampleAuditFields("available_local", "accept_delta");
    BaselessContentRules(block, content, digest);
    LocalDeltaRules(observation, content, audit);
    ValidIffWellFormed(block);
  }

  lemma PassThroughSchema(observation: Json, content: Json, audit: Json)
    requires Get(observation, "action") == Str("pass_through") && Get(observation, "result") == Str("ok")
    requires content == PlainContent() && audit == SampleAudit("resolvable_remote", "accept_pass_through")
    ensures ContentShape(content) && AuditShape(audit) && CrossFieldRules(observation, content, audit)
    ensures MatrixRow("accept_pass_through", observation, content, audit)
  {
  }

  /** A block of the schema before turn 0 is refused: the schema asks for a number only. */
  lemma NegativeTurnRefused(block: Json, turn: int)
    requires turn < 0
    requires block == Block(SampleEnvelope(turn), SampleObservation("pass_through"), PlainContent(),
                            SampleAudit("resolvable_remote", "accept_pass_through"))
    ensures Conforms(block) && ValidationErrors(block) != Done([])
  {
    var observation, audit := SampleObservation("pass_through"), SampleAudit("resolvable_remote", "accept_pass_through");
    BlockSections(block, SampleEnvelope(turn), observation, PlainContent(), audit);
    SampleEnvelopeRules(turn);
    SampleObservationRules("pass_through");
    SampleAuditFields("resolvable_remote", "accept_pass_through");
    PassThroughSchema(observation, PlainContent(), audit);
    ValidIffWellFormed(block);
  }
}
