/** Validation and audit of trace blocks (scripts/tok_trace_reader.py). */
module TraceAudit {
  import opened Text
  import UnifiedDiff

  // ---------- JSON values ----------

  datatype Json =
    | Null | Bool(b: bool) | Num(n: int) | Real(r: real) | Str(s: string)
    | Arr(items: seq<Json>) | Obj(fields: map<string, Json>)

  /** `d.get(key)`: a missing key reads like null. */
  function Get(j: Json, key: string): Json {
    if j.Obj? && key in j.fields then j.fields[key] else Null
  }

  predicate Has(j: Json, key: string) {
    j.Obj? && key in j.fields
  }

  predicate Truthy(j: Json) {
    match j
    case Null => false
    case Bool(b) => b
    case Num(n) => n != 0
    case Real(r) => r != 0.0
    case Str(s) => s != ""
    case Arr(items) => items != []
    case Obj(fields) => fields != map[]
  }

  predicate NonEmptyStr(j: Json) {
    j.Str? && j.s != ""
  }

  predicate OneOf(j: Json, allowed: set<string>) {
    j.Str? && j.s in allowed
  }

  /** Lists and dicts cannot be looked up in a set: the lookup raises. */
  predicate Hashable(j: Json) {
    !j.Arr? && !j.Obj?
  }

  predicate NonNegativeInt(j: Json) {
    j.Num? && j.n >= 0
  }

  /** `j == n` in a language where booleans are numbers. */
  predicate EqualsInt(j: Json, n: int) {
    match j
    case Num(m) => m == n
    case Bool(b) => n == if b then 1 else 0
    case Real(r) => r == n as real
    case _ => false
  }

  /** `^sha256:[0-9a-f]{64}$`; the dollar sign also matches before a final newline. */
  predicate IsHash(j: Json) {
    j.Str? && (IsHashText(j.s) || (|j.s| == 72 && j.s[71] == '\n' && IsHashText(j.s[..71])))
  }

  predicate IsHashText(s: string) {
    |s| == 71 && s[..7] == "sha256:" && forall i :: 7 <= i < 71 ==> IsDigit(s[i]) || 'a' <= s[i] <= 'f'
  }

  // ---------- Errors ----------

  datatype Artifact = ContentArtifact | BaseArtifact | DeltaArtifact

  /** What an expectation asks for. */
  datatype Need =
    | RejectedResult | Exact | NonExact | Local | ReferenceAction | NonExactReferenceAction | OkPassThrough
    | FallbackOrDegradation | DeltaAction

  datatype Error =
    | MissingSection(name: string)
    | InvalidTraceVersion | InvalidBlockId | InvalidSessionId | InvalidTurn | InvalidStep | InvalidDirection
    | InvalidPayloadDigest | InvalidClass | InvalidKey | InvalidAction | InvalidResult
    | InvalidExact | InvalidHash | InvalidSize | InvalidResolverUri
    | ContentHashMissing | ContentSizeMissing | DeltaFieldMissing(name: string)
    | NonExactMarkedExact | InvalidResolverState | InvalidExpectation | ResolverMissing
    | Expected(expectation: string, need: Need) | OkNeedsFallback | ReasonMissing
    | InvalidExtensions | InvalidNamespace | NamespaceOverridesCore | InvalidExtensionPayload
    | DigestMismatch | Unresolved(what: string)
    | Unreadable(artifact: Artifact) | DeltaUnreadable | FinalUnreadable
    | HashMismatch(artifact: Artifact) | SizeMismatch(artifact: Artifact)
    | UnsupportedAlgorithm | ReplayFailed(cause: UnifiedDiff.ReplayError) | FinalMismatch

  function Report(bad: bool, e: Error): seq<Error> {
    if bad then [e] else []
  }

  // ---------- Validation ----------

  const SECTIONS := ["envelope", "observation", "content", "audit"]
  const DIRECTIONS := {"request", "response"}
  const CLASSES := {"file", "search", "tool", "message", "system", "response"}
  const ACTIONS := {"pass_through", "store", "reference", "delta", "fallback", "skeleton_reference", "summary_reference"}
  const RESULTS := {"ok", "degraded", "error", "rejected"}
  const RESOLVER_STATES := {
    "available_local", "resolvable_remote", "missing_identifiable", "unresolvable_fallback_required"}
  const EXPECTATIONS := {
    "accept_exact", "accept_reference", "accept_pass_through", "accept_delta", "accept_fallback",
    "reject_malformed", "accept_non_exact_reference"}
  const ALGORITHMS := {"line", "unified_diff", "json_patch", "binary"}
  const NON_EXACT_ACTIONS := {"skeleton_reference", "summary_reference"}
  const FALLBACK_RESULTS := {"degraded", "error", "rejected"}
  const FALLBACK_STATES := {"missing_identifiable", "unresolvable_fallback_required"}
  const DRAFT := Str("draft-uncomputed")

  function SectionErrors(block: Json): seq<Error> {
    Report(!Get(block, "envelope").Obj?, MissingSection("envelope"))
    + Report(!Get(block, "observation").Obj?, MissingSection("observation"))
    + Report(!Get(block, "content").Obj?, MissingSection("content"))
    + Report(!Get(block, "audit").Obj?, MissingSection("audit"))
  }

  function EnvelopeIdErrors(envelope: Json): seq<Error> {
    Report(Get(envelope, "trace_version") != Str("tok-trace/v0.1-draft"), InvalidTraceVersion)
    + Report(!NonEmptyStr(Get(envelope, "block_id")), InvalidBlockId)
    + Report(!NonEmptyStr(Get(envelope, "session_id")), InvalidSessionId)
  }

  function EnvelopePlaceErrors(envelope: Json): seq<Error> {
    Report(!NonNegativeInt(Get(envelope, "turn")), InvalidTurn)
    + Report(!NonNegativeInt(Get(envelope, "step")), InvalidStep)
    + Report(!OneOf(Get(envelope, "direction"), DIRECTIONS), InvalidDirection)
    + Report(Get(envelope, "payload_digest") != DRAFT && !IsHash(Get(envelope, "payload_digest")), InvalidPayloadDigest)
  }

  function EnvelopeErrors(envelope: Json): seq<Error> {
    EnvelopeIdErrors(envelope) + EnvelopePlaceErrors(envelope)
  }

  function ObservationErrors(observation: Json): seq<Error> {
    Report(!OneOf(Get(observation, "class"), CLASSES), InvalidClass)
    + Report(!NonEmptyStr(Get(observation, "key")), InvalidKey)
    + Report(!OneOf(Get(observation, "action"), ACTIONS), InvalidAction)
    + Report(!OneOf(Get(observation, "result"), RESULTS), InvalidResult)
  }

  function IdentityErrors(content: Json): seq<Error> {
    Report(!IsHash(Get(content, "hash")), ContentHashMissing)
    + Report(!NonNegativeInt(Get(content, "size_bytes")), ContentSizeMissing)
  }

  function ContentFieldErrors(content: Json): seq<Error> {
    Report(!Get(content, "exact").Bool?, InvalidExact)
    + Report(Has(content, "hash") && !IsHash(Get(content, "hash")), InvalidHash)
    + Report(Has(content, "size_bytes") && !NonNegativeInt(Get(content, "size_bytes")), InvalidSize)
    + Report(Has(content, "resolver_uri") && !Get(content, "resolver_uri").Str?, InvalidResolverUri)
  }

  function DeltaFieldErrors(content: Json): seq<Error> {
    Report(!IsHash(Get(content, "base_hash")), DeltaFieldMissing("base_hash"))
    + Report(!IsHash(Get(content, "delta_hash")), DeltaFieldMissing("delta_hash"))
    + Report(!NonEmptyStr(Get(content, "delta_uri")), DeltaFieldMissing("delta_uri"))
    + Report(!OneOf(Get(content, "delta_algorithm"), ALGORITHMS), DeltaFieldMissing("delta_algorithm"))
  }

  function ContentErrors(content: Json, action: Json): seq<Error> {
    var exact := Get(content, "exact");
    ContentFieldErrors(content)
    + (if Truthy(exact) then IdentityErrors(content) else [])
    + (if action == Str("delta") then IdentityErrors(content) + DeltaFieldErrors(content) else [])
    + Report(OneOf(action, NON_EXACT_ACTIONS) && exact != Bool(false), NonExactMarkedExact)
  }

  function ResolverErrors(content: Json, audit: Json): seq<Error> {
    var state := Get(audit, "resolver_state");
    Report(!OneOf(state, RESOLVER_STATES), InvalidResolverState)
    + Report(!OneOf(Get(audit, "expectation"), EXPECTATIONS), InvalidExpectation)
    + (if state == Str("available_local")
       then Report(!Truthy(Get(content, "resolver_uri")), ResolverMissing) + IdentityErrors(content) else [])
  }

  predicate NeedsReason(observation: Json, audit: Json) {
    Get(observation, "action") == Str("fallback") || OneOf(Get(observation, "result"), FALLBACK_RESULTS)
    || OneOf(Get(audit, "resolver_state"), FALLBACK_STATES)
  }

  function ExpectationErrors(observation: Json, content: Json, audit: Json): seq<Error> {
    var action, result, exact := Get(observation, "action"), Get(observation, "result"), Get(content, "exact");
    var local := Get(audit, "resolver_state") == Str("available_local");
    match Get(audit, "expectation")
    case Str(name) =>
      if name == "reject_malformed" then Report(result != Str("rejected"), Expected(name, RejectedResult))
      else if name == "accept_exact" then
        Report(exact != Bool(true), Expected(name, Exact)) + Report(!local, Expected(name, Local))
        + IdentityErrors(content)
      else if name == "accept_reference" then
        Report(action != Str("reference"), Expected(name, ReferenceAction))
        + Report(exact != Bool(true), Expected(name, Exact)) + IdentityErrors(content)
      else if name == "accept_non_exact_reference" then
        Report(!OneOf(action, NON_EXACT_ACTIONS), Expected(name, NonExactReferenceAction))
        + Report(exact != Bool(false), Expected(name, NonExact))
      else if name == "accept_pass_through" then
        Report(action != Str("pass_through") || result != Str("ok"), Expected(name, OkPassThrough))
        + Report(exact != Bool(false), Expected(name, NonExact))
      else if name == "accept_fallback" then
        Report(!NeedsReason(observation, audit), Expected(name, FallbackOrDegradation))
      else []
    case _ => []
  }

  function DeltaExpectationErrors(action: Json, content: Json, audit: Json): seq<Error> {
    Report(action != Str("delta"), Expected("accept_delta", DeltaAction))
    + Report(Get(content, "exact") != Bool(true), Expected("accept_delta", Exact))
    + Report(Get(audit, "resolver_state") != Str("available_local"), Expected("accept_delta", Local))
  }

  function LostErrors(observation: Json, audit: Json): seq<Error> {
    var state := Get(audit, "resolver_state");
    Report(Get(observation, "result") == Str("ok") && state == Str("unresolvable_fallback_required"), OkNeedsFallback)
  }

  function ReasonErrors(observation: Json, audit: Json): seq<Error> {
    Report(NeedsReason(observation, audit) && !Truthy(Get(audit, "reason")), ReasonMissing)
  }

  /** accept_delta is checked after the check that an ok result can be resolved. */
  function OutcomeErrors(observation: Json, content: Json, audit: Json): seq<Error> {
    LostErrors(observation, audit)
    + (if Get(audit, "expectation") == Str("accept_delta")
       then DeltaExpectationErrors(Get(observation, "action"), content, audit) else [])
    + ReasonErrors(observation, audit)
  }

  function ExtensionErrors(block: Json): seq<Error> {
    var extensions := Get(block, "extensions");
    if extensions == Null then []
    else if !extensions.Obj? then [InvalidExtensions]
    else
      Report("" in extensions.fields, InvalidNamespace)
      + Report(exists k <- extensions.fields :: k in SECTIONS, NamespaceOverridesCore)
      + Report(exists k <- extensions.fields :: k != "" && !extensions.fields[k].Obj?, InvalidExtensionPayload)
  }

  /** Some value that is looked up in a set of names is a list or a dict. */
  predicate LookupRaises(block: Json) {
    var observation, content, audit := Get(block, "observation"), Get(block, "content"), Get(block, "audit");
    !(&& Hashable(Get(Get(block, "envelope"), "direction"))
      && Hashable(Get(observation, "class")) && Hashable(Get(observation, "action"))
      && Hashable(Get(observation, "result"))
      && (Get(observation, "action") == Str("delta") ==> Hashable(Get(content, "delta_algorithm")))
      && Hashable(Get(audit, "resolver_state")) && Hashable(Get(audit, "expectation")))
  }

  datatype Outcome<+T> = Done(value: T) | Raised

  function CheckedErrors(block: Json): seq<Error> {
    var observation, content, audit := Get(block, "observation"), Get(block, "content"), Get(block, "audit");
    EnvelopeErrors(Get(block, "envelope")) + ObservationErrors(observation)
    + ContentErrors(content, Get(observation, "action")) + ResolverErrors(content, audit)
    + ExpectationErrors(observation, content, audit) + OutcomeErrors(observation, content, audit)
    + ExtensionErrors(block)
  }

  function ValidationErrors(block: Json): Outcome<seq<Error>> {
    if SectionErrors(block) != [] then Done(SectionErrors(block))
    else if LookupRaises(block) then Raised
    else Done(CheckedErrors(block))
  }

  // ---------- The validator's steps: each section appends to the errors found so far ----------

  lemma Regroup(found: seq<Error>, a: seq<Error>, b: seq<Error>)
    ensures found + a + b == found + (a + b) && found + [] == found
  {
  }

  method CheckEnvelope(envelope: Json, found: seq<Error>) returns (errors: seq<Error>)
    ensures errors == found + EnvelopeErrors(envelope)
  {
    errors := CheckEnvelopeIds(envelope, found);
    errors := CheckEnvelopePlace(envelope, errors);
    Regroup(found, EnvelopeIdErrors(envelope), EnvelopePlaceErrors(envelope));
  }

  method CheckEnvelopeIds(envelope: Json, found: seq<Error>) returns (errors: seq<Error>)
    ensures errors == found + EnvelopeIdErrors(envelope)
  {
    errors := found;
    if Get(envelope, "trace_version") != Str("tok-trace/v0.1-draft") {
      errors := errors + [InvalidTraceVersion];
    }
    if !NonEmptyStr(Get(envelope, "block_id")) {
      errors := errors + [InvalidBlockId];
    }
    if !NonEmptyStr(Get(envelope, "session_id")) {
      errors := errors + [InvalidSessionId];
    }
  }

  method CheckEnvelopePlace(envelope: Json, found: seq<Error>) returns (errors: seq<Error>)
    ensures errors == found + EnvelopePlaceErrors(envelope)
  {
    errors := found;
    if !NonNegativeInt(Get(envelope, "turn")) {
      errors := errors + [InvalidTurn];
    }
    if !NonNegativeInt(Get(envelope, "step")) {
      errors := errors + [InvalidStep];
    }
    if !OneOf(Get(envelope, "direction"), DIRECTIONS) {
      errors := errors + [InvalidDirection];
    }
    var digest := Get(envelope, "payload_digest");
    if digest != DRAFT && !IsHash(digest) {
      errors := errors + [InvalidPayloadDigest];
    }
  }

  method CheckObservation(observation: Json, found: seq<Error>) returns (errors: seq<Error>)
    ensures errors == found + ObservationErrors(observation)
  {
    errors := found;
    if !OneOf(Get(observation, "class"), CLASSES) {
      errors := errors + [InvalidClass];
    }
    if !NonEmptyStr(Get(observation, "key")) {
      errors := errors + [InvalidKey];
    }
    if !OneOf(Get(observation, "action"), ACTIONS) {
      errors := errors + [InvalidAction];
    }
    if !OneOf(Get(observation, "result"), RESULTS) {
      errors := errors + [InvalidResult];
    }
  }

  method RequireContentIdentity(content: Json, found: seq<Error>) returns (errors: seq<Error>)
    ensures errors == found + IdentityErrors(content)
  {
    errors := found;
    if !IsHash(Get(content, "hash")) {
      errors := errors + [ContentHashMissing];
    }
    if !NonNegativeInt(Get(content, "size_bytes")) {
      errors := errors + [ContentSizeMissing];
    }
  }

  method CheckContentFields(content: Json, found: seq<Error>) returns (errors: seq<Error>)
    ensures errors == found + ContentFieldErrors(content)
  {
    errors := found;
    if !Get(content, "exact").Bool? {
      errors := errors + [InvalidExact];
    }
    if Has(content, "hash") && !IsHash(Get(content, "hash")) {
      errors := errors + [InvalidHash];
    }
    if Has(content, "size_bytes") && !NonNegativeInt(Get(content, "size_bytes")) {
      errors := errors + [InvalidSize];
    }
    if Has(content, "resolver_uri") && !Get(content, "resolver_uri").Str? {
      errors := errors + [InvalidResolverUri];
    }
  }

  method CheckDeltaFields(content: Json, found: seq<Error>) returns (errors: seq<Error>)
    ensures errors == found + DeltaFieldErrors(content)
  {
    errors := found;
    if !IsHash(Get(content, "base_hash")) {
      errors := errors + [DeltaFieldMissing("base_hash")];
    }
    if !IsHash(Get(content, "delta_hash")) {
      errors := errors + [DeltaFieldMissing("delta_hash")];
    }
    if !NonEmptyStr(Get(content, "delta_uri")) {
      errors := errors + [DeltaFieldMissing("delta_uri")];
    }
    if !OneOf(Get(content, "delta_algorithm"), ALGORITHMS) {
      errors := errors + [DeltaFieldMissing("delta_algorithm")];
    }
  }

  method CheckContent(content: Json, action: Json, found: seq<Error>) returns (errors: seq<Error>)
    ensures errors == found + ContentErrors(content, action)
  {
    errors := CheckContentFields(content, found);
    ghost var part := ContentFieldErrors(content);
    if Truthy(Get(content, "exact")) {
      errors := RequireContentIdentity(content, errors);
      Regroup(found, part, IdentityErrors(content));
      part := part + IdentityErrors(content);
    } else {
      Regroup(part, [], []);
    }
    assert part == ContentFieldErrors(content) + (if Truthy(Get(content, "exact")) then IdentityErrors(content) else []);
    if action == Str("delta") {
      errors := RequireContentIdentity(content, errors);
      Regroup(found + part, IdentityErrors(content), DeltaFieldErrors(content));
      errors := CheckDeltaFields(content, errors);
      Regroup(found, part, IdentityErrors(content) + DeltaFieldErrors(content));
      part := part + (IdentityErrors(content) + DeltaFieldErrors(content));
    } else {
      Regroup(part, [], []);
    }
    var misplaced := OneOf(action, NON_EXACT_ACTIONS) && Get(content, "exact") != Bool(false);
    Regroup(found, part, [NonExactMarkedExact]);
    Regroup(part, [], []);
    if misplaced {
      errors := errors + [NonExactMarkedExact];
    }
  }

  method CheckResolver(content: Json, audit: Json, found: seq<Error>) returns (errors: seq<Error>)
    ensures errors == found + ResolverErrors(content, audit)
  {
    var state := Get(audit, "resolver_state");
    var fields: seq<Error> := [];
    if !OneOf(state, RESOLVER_STATES) {
      fields := fields + [InvalidResolverState];
    }
    if !OneOf(Get(audit, "expectation"), EXPECTATIONS) {
      fields := fields + [InvalidExpectation];
    }
    var more: seq<Error> := [];
    if state == Str("available_local") {
      if !Truthy(Get(content, "resolver_uri")) {
        more := [ResolverMissing];
      }
      more := RequireContentIdentity(content, more);
    }
    errors := found + (fields + more);
  }

  method CheckExact(content: Json, audit: Json) returns (errors: seq<Error>)
    ensures errors == Report(Get(content, "exact") != Bool(true), Expected("accept_exact", Exact))
                      + Report(Get(audit, "resolver_state") != Str("available_local"), Expected("accept_exact", Local))
                      + IdentityErrors(content)
  {
    errors := [];
    if Get(content, "exact") != Bool(true) {
      errors := errors + [Expected("accept_exact", Exact)];
    }
    if Get(audit, "resolver_state") != Str("available_local") {
      errors := errors + [Expected("accept_exact", Local)];
    }
    errors := RequireContentIdentity(content, errors);
  }

  method CheckReference(content: Json, action: Json) returns (errors: seq<Error>)
    ensures errors == Report(action != Str("reference"), Expected("accept_reference", ReferenceAction))
                      + Report(Get(content, "exact") != Bool(true), Expected("accept_reference", Exact))
                      + IdentityErrors(content)
  {
    errors := [];
    if action != Str("reference") {
      errors := errors + [Expected("accept_reference", ReferenceAction)];
    }
    if Get(content, "exact") != Bool(true) {
      errors := errors + [Expected("accept_reference", Exact)];
    }
    errors := RequireContentIdentity(content, errors);
  }

  method CheckExpectation(observation: Json, content: Json, audit: Json, found: seq<Error>) returns (errors: seq<Error>)
    ensures errors == found + ExpectationErrors(observation, content, audit)
  {
    var action, result, exact := Get(observation, "action"), Get(observation, "result"), Get(content, "exact");
    var expectation := Get(audit, "expectation");
    var more: seq<Error> := [];
    if expectation == Str("reject_malformed") {
      if result != Str("rejected") {
        more := [Expected("reject_malformed", RejectedResult)];
      }
    } else if expectation == Str("accept_exact") {
      more := CheckExact(content, audit);
    } else if expectation == Str("accept_reference") {
      more := CheckReference(content, action);
    } else if expectation == Str("accept_non_exact_reference") {
      if !OneOf(action, NON_EXACT_ACTIONS) {
        more := [Expected("accept_non_exact_reference", NonExactReferenceAction)];
      }
      if exact != Bool(false) {
        more := more + [Expected("accept_non_exact_reference", NonExact)];
      }
    } else if expectation == Str("accept_pass_through") {
      if action != Str("pass_through") || result != Str("ok") {
        more := [Expected("accept_pass_through", OkPassThrough)];
      }
      if exact != Bool(false) {
        more := more + [Expected("accept_pass_through", NonExact)];
      }
    } else if expectation == Str("accept_fallback") {
      if !NeedsReason(observation, audit) {
        more := [Expected("accept_fallback", FallbackOrDegradation)];
      }
    }
    errors := found + more;
  }

  method CheckDelta(action: Json, content: Json, audit: Json) returns (errors: seq<Error>)
    ensures errors == DeltaExpectationErrors(action, content, audit)
  {
    errors := [];
    if action != Str("delta") {
      errors := errors + [Expected("accept_delta", DeltaAction)];
    }
    if Get(content, "exact") != Bool(true) {
      errors := errors + [Expected("accept_delta", Exact)];
    }
    if Get(audit, "resolver_state") != Str("available_local") {
      errors := errors + [Expected("accept_delta", Local)];
    }
  }

  method CheckLost(observation: Json, audit: Json) returns (errors: seq<Error>)
    ensures errors == LostErrors(observation, audit)
  {
    errors := [];
    if Get(observation, "result") == Str("ok") && Get(audit, "resolver_state") == Str("unresolvable_fallback_required") {
      errors := [OkNeedsFallback];
    }
  }

  method CheckReason(observation: Json, audit: Json) returns (errors: seq<Error>)
    ensures errors == ReasonErrors(observation, audit)
  {
    errors := [];
    if NeedsReason(observation, audit) && !Truthy(Get(audit, "reason")) {
      errors := [ReasonMissing];
    }
  }

  method CheckOutcome(observation: Json, content: Json, audit: Json, found: seq<Error>) returns (errors: seq<Error>)
    ensures errors == found + OutcomeErrors(observation, content, audit)
  {
    var lost := CheckLost(observation, audit);
    var delta: seq<Error> := [];
    if Get(audit, "expectation") == Str("accept_delta") {
      delta := CheckDelta(Get(observation, "action"), content, audit);
    }
    var reason := CheckReason(observation, audit);
    errors := found + (lost + delta + reason);
  }

  method CheckExtensions(block: Json, found: seq<Error>) returns (errors: seq<Error>)
    ensures errors == found + ExtensionErrors(block)
  {
    var extensions := Get(block, "extensions");
    var more: seq<Error> := [];
    if extensions != Null {
      if !extensions.Obj? {
        more := [InvalidExtensions];
      } else {
        if "" in extensions.fields {
          more := [InvalidNamespace];
        }
        if exists k <- extensions.fields :: k in SECTIONS {
          more := more + [NamespaceOverridesCore];
        }
        if exists k <- extensions.fields :: k != "" && !extensions.fields[k].Obj? {
          more := more + [InvalidExtensionPayload];
        }
      }
    }
    errors := found + more;
  }

  method ValidateBlock(block: Json) returns (r: Outcome<seq<Error>>)
    ensures r == ValidationErrors(block)
    ensures r == Done([]) <==> WellFormed(block)
  {
    ValidIffWellFormed(block);
    var errors := SectionErrors(block);
    if errors != [] {
      return Done(errors);
    }
    if LookupRaises(block) {
      return Raised;
    }
    var observation, content, audit := Get(block, "observation"), Get(block, "content"), Get(block, "audit");
    errors := CheckEnvelope(Get(block, "envelope"), errors);
    assert [] + EnvelopeErrors(Get(block, "envelope")) == EnvelopeErrors(Get(block, "envelope"));
    errors := CheckObservation(observation, errors);
    errors := CheckContent(content, Get(observation, "action"), errors);
    errors := CheckResolver(content, audit, errors);
    errors := CheckExpectation(observation, content, audit, errors);
    errors := CheckOutcome(observation, content, audit, errors);
    errors := CheckExtensions(block, errors);
    return Done(errors);
  }

  /** A content that is named by hash and size. */
  predicate Identified(content: Json) {
    IsHash(Get(content, "hash")) && NonNegativeInt(Get(content, "size_bytes"))
  }

  /** When a block must name its content: exact, delta, locally available, or expected by reference. */
  predicate MustIdentify(block: Json) {
    var audit := Get(block, "audit");
    || Get(Get(block, "content"), "exact") == Bool(true)
    || Get(Get(block, "observation"), "action") == Str("delta")
    || Get(audit, "resolver_state") == Str("available_local")
    || Get(audit, "expectation") in {Str("accept_exact"), Str("accept_reference")}
  }

  /** The content rules of the format, which the checks of several sections add up to. */
  predicate ContentRules(block: Json) {
    var content, observation, audit := Get(block, "content"), Get(block, "observation"), Get(block, "audit");
    && Get(content, "exact").Bool?
    && (MustIdentify(block) ==> Identified(content))
    && (Has(content, "hash") ==> IsHash(Get(content, "hash")))
    && (Has(content, "size_bytes") ==> NonNegativeInt(Get(content, "size_bytes")))
    && (Has(content, "resolver_uri") ==> Get(content, "resolver_uri").Str?)
    && (Get(audit, "resolver_state") == Str("available_local") ==> Truthy(Get(content, "resolver_uri")))
    && (OneOf(Get(observation, "action"), NON_EXACT_ACTIONS) ==> Get(content, "exact") == Bool(false))
    && (Get(observation, "action") == Str("delta") ==>
          && IsHash(Get(content, "base_hash")) && IsHash(Get(content, "delta_hash"))
          && NonEmptyStr(Get(content, "delta_uri")) && OneOf(Get(content, "delta_algorithm"), ALGORITHMS))
  }

  predicate EnvelopeRules(envelope: Json) {
    && Get(envelope, "trace_version") == Str("tok-trace/v0.1-draft")
    && NonEmptyStr(Get(envelope, "block_id")) && NonEmptyStr(Get(envelope, "session_id"))
    && NonNegativeInt(Get(envelope, "turn")) && NonNegativeInt(Get(envelope, "step"))
    && OneOf(Get(envelope, "direction"), DIRECTIONS)
    && (Get(envelope, "payload_digest") == DRAFT || IsHash(Get(envelope, "payload_digest")))
  }

  predicate ObservationRules(observation: Json) {
    && OneOf(Get(observation, "class"), CLASSES) && NonEmptyStr(Get(observation, "key"))
    && OneOf(Get(observation, "action"), ACTIONS) && OneOf(Get(observation, "result"), RESULTS)
  }

  /** What an expectation asks of action, result, exactness and resolver state. */
  predicate ExpectationMet(name: string, observation: Json, content: Json, audit: Json) {
    var action, result, exact := Get(observation, "action"), Get(observation, "result"), Get(content, "exact");
    var local := Get(audit, "resolver_state") == Str("available_local");
    && (name == "reject_malformed" ==> result == Str("rejected"))
    && (name == "accept_exact" ==> exact == Bool(true) && local)
    && (name == "accept_reference" ==> exact == Bool(true) && action == Str("reference"))
    && (name == "accept_non_exact_reference" ==> exact == Bool(false) && OneOf(action, NON_EXACT_ACTIONS))
    && (name == "accept_pass_through" ==>
          exact == Bool(false) && action == Str("pass_through") && result == Str("ok"))
    && (name == "accept_fallback" ==> NeedsReason(observation, audit))
    && (name == "accept_delta" ==> exact == Bool(true) && local && action == Str("delta"))
  }

  predicate AuditRules(observation: Json, content: Json, audit: Json) {
    var state, expectation := Get(audit, "resolver_state"), Get(audit, "expectation");
    && OneOf(state, RESOLVER_STATES) && OneOf(expectation, EXPECTATIONS)
    && ExpectationMet(expectation.s, observation, content, audit)
    && !(Get(observation, "result") == Str("ok") && state == Str("unresolvable_fallback_required"))
    && (NeedsReason(observation, audit) ==> Truthy(Get(audit, "reason")))
  }

  predicate ExtensionRules(block: Json) {
    var extensions := Get(block, "extensions");
    extensions == Null ||
    (extensions.Obj? && forall k <- extensions.fields :: k != "" && k !in SECTIONS && extensions.fields[k].Obj?)
  }

  /** The trace format's rules for one block. */
  predicate WellFormed(block: Json) {
    var observation, content, audit := Get(block, "observation"), Get(block, "content"), Get(block, "audit");
    && Get(block, "envelope").Obj? && observation.Obj? && content.Obj? && audit.Obj?
    && EnvelopeRules(Get(block, "envelope")) && ObservationRules(observation) && ContentRules(block)
    && AuditRules(observation, content, audit) && ExtensionRules(block)
  }

  lemma ContentAndStateExact(block: Json)
    requires !LookupRaises(block) && ObservationRules(Get(block, "observation"))
    ensures var observation, content, audit := Get(block, "observation"), Get(block, "content"), Get(block, "audit");
            (&& ContentErrors(content, Get(observation, "action")) == [] && ResolverErrors(content, audit) == []
             && ExpectationErrors(observation, content, audit) == []
             && OutcomeErrors(observation, content, audit) == [])
            <==> ContentRules(block) && AuditRules(observation, content, audit)
  {
  }

  lemma NoneChecked(block: Json)
    ensures var observation, content, audit := Get(block, "observation"), Get(block, "content"), Get(block, "audit");
            CheckedErrors(block) == [] <==>
            && EnvelopeErrors(Get(block, "envelope")) == [] && ObservationErrors(observation) == []
            && ContentErrors(content, Get(observation, "action")) == [] && ResolverErrors(content, audit) == []
            && ExpectationErrors(observation, content, audit) == []
            && OutcomeErrors(observation, content, audit) == [] && ExtensionErrors(block) == []
  {
  }

  lemma SimpleSectionsExact(block: Json)
    ensures EnvelopeErrors(Get(block, "envelope")) == [] <==> EnvelopeRules(Get(block, "envelope"))
    ensures ObservationErrors(Get(block, "observation")) == [] <==> ObservationRules(Get(block, "observation"))
    ensures SectionErrors(block) == [] <==>
            && Get(block, "envelope").Obj? && Get(block, "observation").Obj?
            && Get(block, "content").Obj? && Get(block, "audit").Obj?
  {
  }

  lemma EnvelopeIdErrorsName(envelope: Json)
    ensures var es := EnvelopeIdErrors(envelope);
            && (InvalidTraceVersion in es <==> Get(envelope, "trace_version") != Str("tok-trace/v0.1-draft"))
            && (InvalidBlockId in es <==> !NonEmptyStr(Get(envelope, "block_id")))
            && (InvalidSessionId in es <==> !NonEmptyStr(Get(envelope, "session_id")))
            && InvalidTurn !in es && InvalidStep !in es && InvalidDirection !in es
  {
  }

  lemma EnvelopePlaceErrorsName(envelope: Json)
    ensures var es := EnvelopePlaceErrors(envelope);
            && (InvalidTurn in es <==> !NonNegativeInt(Get(envelope, "turn")))
            && (InvalidStep in es <==> !NonNegativeInt(Get(envelope, "step")))
            && (InvalidDirection in es <==> !OneOf(Get(envelope, "direction"), {"request", "response"}))
            && InvalidTraceVersion !in es && InvalidBlockId !in es && InvalidSessionId !in es
  {
  }

  /** Each error of the envelope, and of the observation, names the field that is wrong. */
  lemma EnvelopeErrorsName(envelope: Json)
    ensures var es := EnvelopeErrors(envelope);
            && (InvalidTraceVersion in es <==> Get(envelope, "trace_version") != Str("tok-trace/v0.1-draft"))
            && (InvalidBlockId in es <==> !NonEmptyStr(Get(envelope, "block_id")))
            && (InvalidSessionId in es <==> !NonEmptyStr(Get(envelope, "session_id")))
            && (InvalidTurn in es <==> !NonNegativeInt(Get(envelope, "turn")))
            && (InvalidStep in es <==> !NonNegativeInt(Get(envelope, "step")))
            && (InvalidDirection in es <==> !OneOf(Get(envelope, "direction"), {"request", "response"}))
  {
    EnvelopeIdErrorsName(envelope);
    EnvelopePlaceErrorsName(envelope);
  }

  lemma ObservationErrorsName(observation: Json)
    ensures var es := ObservationErrors(observation);
            && (InvalidClass in es <==> !OneOf(Get(observation, "class"), CLASSES))
            && (InvalidKey in es <==> !NonEmptyStr(Get(observation, "key")))
            && (InvalidAction in es <==> !OneOf(Get(observation, "action"), ACTIONS))
            && (InvalidResult in es <==> !OneOf(Get(observation, "result"), RESULTS))
  {
  }

  lemma ExtensionsExact(block: Json)
    ensures ExtensionErrors(block) == [] <==> ExtensionRules(block)
  {
  }

  lemma RulesNeverRaise(block: Json)
    requires EnvelopeRules(Get(block, "envelope")) && ObservationRules(Get(block, "observation"))
    requires ContentRules(block) && AuditRules(Get(block, "observation"), Get(block, "content"), Get(block, "audit"))
    ensures !LookupRaises(block)
  {
  }

  /** Validation finds no error in exactly the well-formed blocks. */
  lemma ValidIffWellFormed(block: Json)
    ensures ValidationErrors(block) == Done([]) <==> WellFormed(block)
  {
    NoneChecked(block);
    SimpleSectionsExact(block);
    ExtensionsExact(block);
    if WellFormed(block) {
      RulesNeverRaise(block);
      ContentAndStateExact(block);
    } else if ValidationErrors(block) == Done([]) {
      ContentAndStateExact(block);
    }
  }

  // ---------- Audit of one block ----------

  type Bytes = seq<bv8>

  /** The file system around a trace, and the encodings and digests. lines is what reading a file as
      text and splitting it into lines gives, None if it cannot be decoded. */
  datatype Env = Env(
    resolve: string -> Option<string>, bytes: string -> Option<Bytes>, lines: Bytes -> Option<seq<string>>,
    encode: string -> Bytes, sha: Bytes -> string, digest: Json -> string, show: Json -> string)

  /** The part of a block its digest is taken of. */
  function Payload(block: Json): Json {
    var fields := map["observation" := Get(block, "observation"), "content" := Get(block, "content"),
                      "audit" := Get(block, "audit")];
    Obj(if Has(block, "extensions") then fields["extensions" := Get(block, "extensions")] else fields)
  }

  function Resolve(env: Env, uri: Json): Option<string> {
    if uri.Str? then env.resolve(uri.s) else None
  }

  function VerifyIdentity(env: Env, path: string, hash: Json, size: Json, artifact: Artifact): seq<Error> {
    match env.bytes(path)
    case None => [Unreadable(artifact)]
    case Some(data) =>
      Report(hash != Null && hash != Str(env.sha(data)), HashMismatch(artifact))
      + Report(size != Null && !EqualsInt(size, |data|), SizeMismatch(artifact))
  }

  /** The base and the delta once they are read as lines. */
  function ReplayErrors(env: Env, base: seq<string>, delta: seq<string>, final: string): Outcome<seq<Error>> {
    match UnifiedDiff.Replay(base, delta)
    case Err(e) => if e.IndexError? then Raised else Done([ReplayFailed(e)])
    case Ok(lines) =>
      match env.bytes(final)
      case None => Done([FinalUnreadable])
      case Some(data) => Done(Report(env.encode(Join(lines, "")) != data, FinalMismatch))
  }

  function DeltaAudit(env: Env, content: Json): Outcome<seq<Error>> {
    var base, delta := Resolve(env, Get(content, "base_uri")), Resolve(env, Get(content, "delta_uri"));
    var final := Resolve(env, Get(content, "resolver_uri"));
    if Get(content, "delta_algorithm") != Str("unified_diff") then Done([UnsupportedAlgorithm])
    else if base.None? || delta.None? || final.None? then
      Done(Report(base.None?, Unresolved("base_uri")) + Report(delta.None?, Unresolved("delta_uri"))
           + Report(final.None?, Unresolved("final_uri")))
    else
      var found := VerifyIdentity(env, base.value, Get(content, "base_hash"), Null, BaseArtifact)
                   + VerifyIdentity(env, delta.value, Get(content, "delta_hash"), Null, DeltaArtifact);
      match (env.bytes(base.value), env.bytes(delta.value))
      case (Some(b), Some(d)) =>
        (match (env.lines(b), env.lines(d))
         case (Some(baseLines), Some(deltaLines)) =>
           (match ReplayErrors(env, baseLines, deltaLines, final.value)
            case Raised => Raised
            case Done(more) => Done(found + more))
         case _ => Raised)
      case (Some(b), None) => if env.lines(b).None? then Raised else Done(found + [DeltaUnreadable])
      case _ => Done(found + [DeltaUnreadable])
  }

  function ArtifactErrors(env: Env, block: Json): Outcome<seq<Error>> {
    var content := Get(block, "content");
    var uri := Resolve(env, Get(content, "resolver_uri"));
    if Get(Get(block, "audit"), "resolver_state") != Str("available_local") then Done([])
    else if uri.None? then Done([Unresolved("content_uri")])
    else
      var found := VerifyIdentity(env, uri.value, Get(content, "hash"), Get(content, "size_bytes"), ContentArtifact);
      if Get(Get(block, "observation"), "action") == Str("delta") then
        match DeltaAudit(env, content)
        case Raised => Raised
        case Done(more) => Done(found + more)
      else Done(found)
  }

  datatype Status = Pass | Warn(warnings: seq<string>) | Fail(errors: seq<Error>)

  function ResolverWarnings(block: Json): seq<string> {
    var state, expectation := Get(Get(block, "audit"), "resolver_state"), Get(Get(block, "audit"), "expectation");
    if OneOf(state, FALLBACK_STATES) then [state.s]
    else if state == Str("resolvable_remote")
            && OneOf(expectation, {"accept_reference", "accept_non_exact_reference", "accept_pass_through"})
    then [state.s] else []
  }

  /** The audit of a block that is valid. */
  function AuditValid(env: Env, block: Json): Outcome<Status> {
    var declared := Get(Get(block, "envelope"), "payload_digest");
    if declared != DRAFT && declared != Str(env.digest(Payload(block))) then Done(Fail([DigestMismatch]))
    else
      match ArtifactErrors(env, block)
      case Raised => Raised
      case Done(found) =>
        var warnings := (if declared == DRAFT then ["draft_payload_digest_uncomputed"] else []) + ResolverWarnings(block);
        if found != [] then Done(Fail(found)) else if warnings != [] then Done(Warn(warnings)) else Done(Pass)
  }

  function AuditBlock(env: Env, block: Json): Outcome<Status> {
    match ValidationErrors(block)
    case Raised => Raised
    case Done(errors) => if errors != [] then Done(Fail(errors)) else AuditValid(env, block)
  }

  predicate Accepted(env: Env, block: Json) {
    AuditBlock(env, block).Done? && !AuditBlock(env, block).value.Fail?
  }

  /** The file that uri names exists and has this hash. */
  predicate Matches(env: Env, uri: Json, hash: Json) {
    var path := Resolve(env, uri);
    path.Some? && env.bytes(path.value).Some? && hash == Str(env.sha(env.bytes(path.value).value))
  }

  lemma IdentityExact(env: Env, path: string, hash: Json, size: Json, artifact: Artifact)
    requires hash != Null
    ensures VerifyIdentity(env, path, hash, size, artifact) == [] <==>
            && env.bytes(path).Some? && hash == Str(env.sha(env.bytes(path).value))
            && (size != Null ==> EqualsInt(size, |env.bytes(path).value|))
  {
  }

  /** Replaying the delta on the base gives the final bytes. */
  predicate Reproduces(env: Env, content: Json) {
    var base, delta := Resolve(env, Get(content, "base_uri")), Resolve(env, Get(content, "delta_uri"));
    var final := Resolve(env, Get(content, "resolver_uri"));
    && base.Some? && delta.Some? && final.Some?
    && env.bytes(base.value).Some? && env.bytes(delta.value).Some?
    && env.lines(env.bytes(base.value).value).Some? && env.lines(env.bytes(delta.value).value).Some?
    && var out := UnifiedDiff.Replay(env.lines(env.bytes(base.value).value).value,
                                     env.lines(env.bytes(delta.value).value).value);
       out.Ok? && env.bytes(final.value) == Some(env.encode(Join(out.value, "")))
  }

  /** A unified diff whose base and delta are the declared ones, and which reproduces the content. */
  predicate DeltaSound(env: Env, content: Json) {
    && Get(content, "delta_algorithm") == Str("unified_diff")
    && Matches(env, Get(content, "base_uri"), Get(content, "base_hash"))
    && Matches(env, Get(content, "delta_uri"), Get(content, "delta_hash"))
    && Reproduces(env, content)
  }

  lemma DeltaAuditExact(env: Env, content: Json)
    requires Get(content, "base_hash") != Null && Get(content, "delta_hash") != Null
    ensures DeltaAudit(env, content) == Done([]) <==> DeltaSound(env, content)
  {
    var base, delta := Resolve(env, Get(content, "base_uri")), Resolve(env, Get(content, "delta_uri"));
    if base.Some? && delta.Some? {
      IdentityExact(env, base.value, Get(content, "base_hash"), Null, BaseArtifact);
      IdentityExact(env, delta.value, Get(content, "delta_hash"), Null, DeltaArtifact);
    }
  }

  /** The content a block says is available locally is there, with the declared hash and size; if it is
      a delta, base and delta match their hashes, and replay gives the content's bytes. */
  predicate ArtifactsSound(env: Env, block: Json) {
    var content := Get(block, "content");
    Get(Get(block, "audit"), "resolver_state") == Str("available_local") ==>
      && Matches(env, Get(content, "resolver_uri"), Get(content, "hash"))
      && EqualsInt(Get(content, "size_bytes"), |env.bytes(Resolve(env, Get(content, "resolver_uri")).value).value|)
      && (Get(Get(block, "observation"), "action") == Str("delta") ==> DeltaSound(env, content))
  }

  predicate DigestSound(env: Env, block: Json) {
    var declared := Get(Get(block, "envelope"), "payload_digest");
    declared == DRAFT || declared == Str(env.digest(Payload(block)))
  }

  lemma ArtifactsExact(env: Env, block: Json)
    requires ContentRules(block)
    ensures ArtifactErrors(env, block) == Done([]) <==> ArtifactsSound(env, block)
  {
    var content := Get(block, "content");
    var path := Resolve(env, Get(content, "resolver_uri"));
    if Get(Get(block, "audit"), "resolver_state") == Str("available_local") && path.Some? {
      IdentityExact(env, path.value, Get(content, "hash"), Get(content, "size_bytes"), ContentArtifact);
      if Get(Get(block, "observation"), "action") == Str("delta") {
        DeltaAuditExact(env, content);
      }
    }
  }

  lemma AuditValidExact(env: Env, block: Json)
    requires ContentRules(block)
    ensures var r := AuditValid(env, block);
            && (r.Done? && !r.value.Fail? <==> DigestSound(env, block) && ArtifactsSound(env, block))
            && (r == Done(Pass) ==> Get(Get(block, "envelope"), "payload_digest") == Str(env.digest(Payload(block))))
            && (r == Done(Pass) <==>
                && DigestSound(env, block) && ArtifactsSound(env, block) && ResolverWarnings(block) == []
                && Get(Get(block, "envelope"), "payload_digest") != DRAFT)
  {
    ArtifactsExact(env, block);
  }

  /** The audit accepts exactly the well-formed blocks whose digest and local artifacts are sound. */
  lemma AcceptedExact(env: Env, block: Json)
    ensures Accepted(env, block) <==> WellFormed(block) && DigestSound(env, block) && ArtifactsSound(env, block)
  {
    ValidIffWellFormed(block);
    if WellFormed(block) {
      AuditValidExact(env, block);
    }
  }

  /** A pass is an accepted block with nothing to warn of: its digest is the canonical one. */
  lemma PassExact(env: Env, block: Json)
    ensures AuditBlock(env, block) == Done(Pass) <==>
            && Accepted(env, block) && ResolverWarnings(block) == []
            && Get(Get(block, "envelope"), "payload_digest") != DRAFT
    ensures AuditBlock(env, block) == Done(Pass) ==>
              Get(Get(block, "envelope"), "payload_digest") == Str(env.digest(Payload(block)))
  {
    ValidIffWellFormed(block);
    if WellFormed(block) {
      AuditValidExact(env, block);
    }
  }

  /** What there is to warn of: a draft digest, content that is missing, and content that is only
      remotely resolvable although a reference or a message is expected to be accepted. */
  predicate WorthAWarning(block: Json) {
    var state, expectation := Get(Get(block, "audit"), "resolver_state"), Get(Get(block, "audit"), "expectation");
    || Get(Get(block, "envelope"), "payload_digest") == Str("draft-uncomputed")
    || state == Str("missing_identifiable") || state == Str("unresolvable_fallback_required")
    || (state == Str("resolvable_remote")
        && (expectation == Str("accept_reference") || expectation == Str("accept_non_exact_reference")
            || expectation == Str("accept_pass_through")))
  }

  lemma WarningsMean(block: Json)
    ensures ResolverWarnings(block) != [] || Get(Get(block, "envelope"), "payload_digest") == DRAFT <==> WorthAWarning(block)
  {
  }

  /** An accepted block is passed with warnings if and only if there is something to warn of. */
  lemma WarnsIff(env: Env, block: Json)
    requires Accepted(env, block)
    ensures AuditBlock(env, block) == Done(Pass) <==> !WorthAWarning(block)
    ensures AuditBlock(env, block).value.Warn? <==> WorthAWarning(block)
  {
    PassExact(env, block);
    WarningsMean(block);
    assert AuditBlock(env, block).value.Pass? || AuditBlock(env, block).value.Warn?;
  }

  lemma PayloadInjective(a: Json, b: Json)
    requires a.Obj? && b.Obj? && Payload(a) == Payload(b)
    ensures forall key :: key in ["observation", "content", "audit", "extensions"] ==> Get(a, key) == Get(b, key)
    ensures Has(a, "extensions") == Has(b, "extensions")
  {
    var f, g := Payload(a).fields, Payload(b).fields;
    assert "observation" != "content" && "observation" != "audit" && "observation" != "extensions" by {
      assert "observation"[0] == 'o' && "content"[0] == 'c' && "audit"[0] == 'a' && "extensions"[0] == 'e';
    }
    assert "content"[0] != "audit"[0] && "content"[0] != "extensions"[0] && "audit"[0] != "extensions"[0];
    assert f["observation"] == g["observation"] && f["content"] == g["content"] && f["audit"] == g["audit"];
    assert "extensions" in f <==> "extensions" in g;
  }

  /** Two passing blocks of equal digest say the same, if the digest does not collide on their payloads. */
  lemma EqualDigestsAgree(env: Env, a: Json, b: Json)
    requires env.digest(Payload(a)) == env.digest(Payload(b)) ==> Payload(a) == Payload(b)
    ensures && AuditBlock(env, a) == AuditBlock(env, b) == Done(Pass)
            && Get(Get(a, "envelope"), "payload_digest") == Get(Get(b, "envelope"), "payload_digest") ==>
              forall key :: key in ["observation", "content", "audit", "extensions"] ==> Get(a, key) == Get(b, key)
  {
    PassExact(env, a);
    PassExact(env, b);
    if AuditBlock(env, a) == AuditBlock(env, b) == Done(Pass) && Payload(a) == Payload(b) {
      PayloadInjective(a, b);
    }
  }

  // ---------- Audit of a trace ----------

  /** What the audit of a trace adds to its results. */
  datatype Finding =
    | NotObject | NoBlock(id: string) | Block(id: string, status: Status) | Duplicate(id: string) | OutOfOrder(id: string)

  /** Position of a block in its session. */
  datatype Position = Position(session: string, turn: int, step: int)

  predicate Before(a: Position, b: Position) {
    a.turn < b.turn || (a.turn == b.turn && a.step < b.step)
  }

  /** `isinstance(j, int)`: booleans are integers. */
  predicate IsInt(j: Json) {
    j.Num? || j.Bool?
  }

  function AsInt(j: Json): int
    requires IsInt(j)
  {
    match j
    case Num(n) => n
    case Bool(b) => if b then 1 else 0
  }

  function BlockOf(fixture: Json): Json {
    Get(fixture, "block")
  }

  function EnvelopeOf(fixture: Json): Json {
    if BlockOf(fixture).Obj? then Get(BlockOf(fixture), "envelope") else Null
  }

  /** The non-empty block ids of a trace, and its well-typed positions, in order. */
  function IdOf(fixture: Json): seq<string> {
    var id := Get(EnvelopeOf(fixture), "block_id");
    if NonEmptyStr(id) then [id.s] else []
  }

  function PositionOf(fixture: Json): seq<Position> {
    var e := EnvelopeOf(fixture);
    if Get(e, "session_id").Str? && IsInt(Get(e, "turn")) && IsInt(Get(e, "step"))
    then [Position(Get(e, "session_id").s, AsInt(Get(e, "turn")), AsInt(Get(e, "step")))] else []
  }

  function Ids(fixtures: seq<Json>): seq<string> {
    if fixtures == [] then [] else Ids(fixtures[..|fixtures| - 1]) + IdOf(fixtures[|fixtures| - 1])
  }

  function Positions(fixtures: seq<Json>): seq<Position> {
    if fixtures == [] then [] else Positions(fixtures[..|fixtures| - 1]) + PositionOf(fixtures[|fixtures| - 1])
  }

  /** Two positions of one session, not necessarily adjacent, that are the wrong way round. */
  ghost predicate Inverted(ps: seq<Position>) {
    exists i, j :: 0 <= i < j < |ps| && ps[i].session == ps[j].session && Before(ps[j], ps[i])
  }

  predicate InOrder(a: Position, b: Position) {
    a.session == b.session ==> !Before(b, a)
  }

  /** The latest turn and step of each session. */
  function Latest(ps: seq<Position>): map<string, (int, int)> {
    if ps == [] then map[]
    else
      var p := ps[|ps| - 1];
      Latest(ps[..|ps| - 1])[p.session := (p.turn, p.step)]
  }

  predicate BehindLatest(last: map<string, (int, int)>, p: Position) {
    p.session in last && Before(p, Position(p.session, last[p.session].0, last[p.session].1))
  }

  lemma NotInverted(ps: seq<Position>, i: nat, j: nat)
    requires !Inverted(ps) && i < j < |ps|
    ensures InOrder(ps[i], ps[j])
  {
  }

  lemma PrefixNotInverted(ps: seq<Position>, n: nat)
    requires !Inverted(ps) && n <= |ps|
    ensures !Inverted(ps[..n])
  {
    forall i, j | 0 <= i < j < n ensures InOrder(ps[..n][i], ps[..n][j]) {
      NotInverted(ps, i, j);
    }
  }

  /** Without an inversion, the latest position of a session is its greatest. */
  lemma {:induction false} LatestIsGreatest(ps: seq<Position>, i: nat)
    requires !Inverted(ps) && i < |ps|
    ensures var s := ps[i].session;
            s in Latest(ps) && InOrder(ps[i], Position(s, Latest(ps)[s].0, Latest(ps)[s].1))
  {
    var n := |ps| - 1;
    if i < n {
      NotInverted(ps, i, n);
      PrefixNotInverted(ps, n);
      LatestIsGreatest(ps[..n], i);
    }
  }

  /** The latest position of a session is one of its positions. */
  lemma {:induction false} LatestOccurs(ps: seq<Position>, session: string) returns (i: nat)
    requires session in Latest(ps)
    ensures i < |ps| && ps[i] == Position(session, Latest(ps)[session].0, Latest(ps)[session].1)
  {
    var n := |ps| - 1;
    if session == ps[n].session {
      i := n;
    } else {
      i := LatestOccurs(ps[..n], session);
    }
  }

  /** Comparing with the latest position of the session is enough to see every new inversion. */
  lemma NextInversion(ps: seq<Position>, p: Position)
    ensures Latest(ps + [p]) == Latest(ps)[p.session := (p.turn, p.step)]
    ensures Inverted(ps + [p]) <==> Inverted(ps) || BehindLatest(Latest(ps), p)
  {
    var longer, n := ps + [p], |ps|;
    assert longer[..n] == ps;
    if Inverted(ps) {
      var i, j :| 0 <= i < j < n && ps[i].session == ps[j].session && Before(ps[j], ps[i]);
      assert longer[i] == ps[i] && longer[j] == ps[j];
    } else if BehindLatest(Latest(ps), p) {
      var i := LatestOccurs(ps, p.session);
      assert longer[i] == ps[i] && longer[n] == p;
    } else {
      forall i, j | 0 <= i < j < |longer| ensures InOrder(longer[i], longer[j]) {
        if j < n {
          NotInverted(ps, i, j);
        } else {
          LatestIsGreatest(ps, i);
        }
      }
    }
  }

  function CountDuplicates(findings: seq<Finding>): nat {
    if findings == [] then 0
    else CountDuplicates(findings[..|findings| - 1]) + if findings[|findings| - 1].Duplicate? then 1 else 0
  }

  predicate ReportsDisorder(findings: seq<Finding>) {
    exists i :: 0 <= i < |findings| && findings[i].OutOfOrder?
  }

  /** `str(id or default)` */
  function Shown(env: Env, id: Json, default: string): string {
    if !Truthy(id) then default else if id.Str? then id.s else env.show(id)
  }

  function FixtureId(env: Env, fixture: Json): string {
    Shown(env, Get(fixture, "id"), "trace-block")
  }

  /** What is found about one fixture on its own. */
  function OwnFinding(env: Env, fixture: Json): Outcome<Finding> {
    if !fixture.Obj? then Done(NotObject)
    else if !BlockOf(fixture).Obj? then Done(NoBlock(FixtureId(env, fixture)))
    else
      match AuditBlock(env, BlockOf(fixture))
      case Raised => Raised
      case Done(status) => Done(Block(FixtureId(env, fixture), status))
  }

  /** An id that some earlier fixture has. */
  function DuplicateFinding(before: seq<Json>, fixture: Json): seq<Finding> {
    var id := IdOf(fixture);
    if id != [] && id[0] in Ids(before) then [Duplicate(id[0])] else []
  }

  /** A position behind the latest one of its session. */
  function OrderFinding(env: Env, before: seq<Json>, fixture: Json): seq<Finding> {
    var p := PositionOf(fixture);
    if p != [] && BehindLatest(Latest(Positions(before)), p[0])
    then [OutOfOrder(Shown(env, Get(EnvelopeOf(fixture), "block_id"), FixtureId(env, fixture)))] else []
  }

  /** What is found about the fixtures of a trace, in order. */
  function Findings(env: Env, fixtures: seq<Json>): Outcome<seq<Finding>> {
    if fixtures == [] then Done([])
    else FindingsThen(env, Findings(env, fixtures[..|fixtures| - 1]), fixtures[..|fixtures| - 1], fixtures[|fixtures| - 1])
  }

  function FindingsThen(env: Env, found: Outcome<seq<Finding>>, before: seq<Json>, fixture: Json): Outcome<seq<Finding>> {
    match found
    case Raised => Raised
    case Done(findings) =>
      match OwnFinding(env, fixture)
      case Raised => Raised
      case Done(own) => Done(findings + [own] + DuplicateFinding(before, fixture) + OrderFinding(env, before, fixture))
  }

  lemma {:induction false} RaisedStays(env: Env, fixtures: seq<Json>, n: nat)
    requires n <= |fixtures| && Findings(env, fixtures[..n]).Raised?
    ensures Findings(env, fixtures).Raised?
  {
    if n == |fixtures| {
      assert fixtures[..n] == fixtures;
    } else {
      assert fixtures[..|fixtures| - 1][..n] == fixtures[..n];
      RaisedStays(env, fixtures[..|fixtures| - 1], n);
    }
  }

  lemma {:induction false} FindingsConcat(a: seq<Finding>, b: seq<Finding>)
    ensures CountDuplicates(a + b) == CountDuplicates(a) + CountDuplicates(b)
    ensures ReportsDisorder(a + b) <==> ReportsDisorder(a) || ReportsDisorder(b)
  {
    if b == [] {
      assert a + b == a;
    } else {
      var init, last := b[..|b| - 1], b[|b| - 1];
      FindingsConcat(a, init);
      assert (a + b)[..|a + b| - 1] == a + init;
      assert a + b == (a + init) + [last];
      DisorderSnoc(a + init, last);
      DisorderSnoc(init, last);
      assert b == init + [last];
    }
  }

  lemma DisorderSnoc(findings: seq<Finding>, f: Finding)
    ensures ReportsDisorder(findings + [f]) <==> ReportsDisorder(findings) || f.OutOfOrder?
  {
    assert (findings + [f])[|findings|] == f;
    assert forall i :: 0 <= i < |findings| ==> (findings + [f])[i] == findings[i];
  }

  function SetOf(ids: seq<string>): set<string> {
    set x <- ids
  }

  lemma SetOfSnoc(ids: seq<string>, id: string)
    ensures SetOf(ids + [id]) == SetOf(ids) + {id}
    ensures |SetOf(ids + [id])| == |SetOf(ids)| + if id in ids then 0 else 1
  {
    assert id in ids ==> SetOf(ids) + {id} == SetOf(ids);
  }

  lemma OwnOnly(env: Env, fixture: Json)
    requires OwnFinding(env, fixture).Done?
    ensures CountDuplicates([OwnFinding(env, fixture).value]) == 0
    ensures !ReportsDisorder([OwnFinding(env, fixture).value])
  {
  }

  lemma DuplicateOnly(before: seq<Json>, fixture: Json)
    ensures var found := DuplicateFinding(before, fixture);
            CountDuplicates(found) == |found| && !ReportsDisorder(found)
            && |found| + |SetOf(Ids(before) + IdOf(fixture))| == |SetOf(Ids(before))| + |IdOf(fixture)|
  {
    if IdOf(fixture) == [] {
      assert Ids(before) + [] == Ids(before);
    } else {
      var id := IdOf(fixture)[0];
      assert IdOf(fixture) == [id];
      SetOfSnoc(Ids(before), id);
      assert [Duplicate(id)][..0] == [];
    }
  }

  lemma OrderOnly(env: Env, before: seq<Json>, fixture: Json)
    ensures var found := OrderFinding(env, before, fixture);
            CountDuplicates(found) == 0 && (ReportsDisorder(found) <==> found != [])
  {
  }

  lemma OneMore(env: Env, done: seq<Json>, fixture: Json)
    ensures Ids(done + [fixture]) == Ids(done) + IdOf(fixture)
    ensures Positions(done + [fixture]) == Positions(done) + PositionOf(fixture)
    ensures Findings(env, done + [fixture]) == FindingsThen(env, Findings(env, done), done, fixture)
  {
    assert (done + [fixture])[..|done|] == done;
  }

  /** An id is reported as a duplicate as often as it comes again, and the trace as out of order
      exactly if some session has two positions inverted. */
  lemma {:induction false} FindingsExact(env: Env, fixtures: seq<Json>)
    requires Findings(env, fixtures).Done?
    ensures var findings := Findings(env, fixtures).value;
            && CountDuplicates(findings) == |Ids(fixtures)| - |SetOf(Ids(fixtures))|
            && (ReportsDisorder(findings) <==> Inverted(Positions(fixtures)))
  {
    if fixtures != [] {
      var before, fixture := fixtures[..|fixtures| - 1], fixtures[|fixtures| - 1];
      FindingsExact(env, before);
      var found, own := Findings(env, before).value, OwnFinding(env, fixture).value;
      OwnOnly(env, fixture);
      DuplicateOnly(before, fixture);
      OrderOnly(env, before, fixture);
      FindingsConcat(found, [own]);
      FindingsConcat(found + [own], DuplicateFinding(before, fixture));
      FindingsConcat(found + [own] + DuplicateFinding(before, fixture), OrderFinding(env, before, fixture));
      NextInversions(Positions(before), PositionOf(fixture));
    }
  }

  lemma NextInversions(ps: seq<Position>, more: seq<Position>)
    requires |more| <= 1
    ensures Inverted(ps + more) <==> Inverted(ps) || (more != [] && BehindLatest(Latest(ps), more[0]))
  {
    if more == [] {
      assert ps + more == ps;
    } else {
      assert more == [more[0]];
      NextInversion(ps, more[0]);
    }
  }

  method NoteId(found: seq<Finding>, seen: set<string>, fixture: Json, ghost before: seq<Json>)
    returns (findings: seq<Finding>, seenNow: set<string>)
    requires seen == SetOf(Ids(before))
    ensures findings == found + DuplicateFinding(before, fixture)
    ensures seenNow == SetOf(Ids(before) + IdOf(fixture))
  {
    findings, seenNow := found, seen;
    var id := Get(EnvelopeOf(fixture), "block_id");
    if NonEmptyStr(id) {
      SetOfSnoc(Ids(before), id.s);
      if id.s in seen {
        findings := findings + [Duplicate(id.s)];
      }
      seenNow := seenNow + {id.s};
    } else {
      assert Ids(before) + [] == Ids(before);
    }
  }

  method NotePosition(env: Env, found: seq<Finding>, last: map<string, (int, int)>, fixture: Json, ghost before: seq<Json>)
    returns (findings: seq<Finding>, lastNow: map<string, (int, int)>)
    requires last == Latest(Positions(before))
    ensures findings == found + OrderFinding(env, before, fixture)
    ensures lastNow == Latest(Positions(before) + PositionOf(fixture))
  {
    findings, lastNow := found, last;
    var e := EnvelopeOf(fixture);
    if !Get(e, "session_id").Str? || !IsInt(Get(e, "turn")) || !IsInt(Get(e, "step")) {
      assert Positions(before) + [] == Positions(before);
      return;
    }
    var session, turn, step := Get(e, "session_id").s, AsInt(Get(e, "turn")), AsInt(Get(e, "step"));
    NextInversion(Positions(before), Position(session, turn, step));
    if session in last && (turn < last[session].0 || (turn == last[session].0 && step < last[session].1)) {
      findings := findings + [OutOfOrder(Shown(env, Get(e, "block_id"), FixtureId(env, fixture)))];
    }
    lastNow := lastNow[session := (turn, step)];
  }

  /** The findings of the whole trace; those about order and about ids are exact. */
  method AuditFixtureFile(env: Env, fixtures: seq<Json>) returns (r: Outcome<seq<Finding>>)
    ensures r == Findings(env, fixtures)
    ensures r.Done? ==> (ReportsDisorder(r.value) <==> Inverted(Positions(fixtures)))
    ensures r.Done? ==> CountDuplicates(r.value) == |Ids(fixtures)| - |SetOf(Ids(fixtures))|
  {
    var results: seq<Finding> := [];
    var seen: set<string>, last: map<string, (int, int)> := {}, map[];
    for n := 0 to |fixtures|
      invariant Findings(env, fixtures[..n]) == Done(results)
      invariant seen == SetOf(Ids(fixtures[..n]))
      invariant last == Latest(Positions(fixtures[..n]))
    {
      TakeNext(fixtures, n);
      OneMore(env, fixtures[..n], fixtures[n]);
      var own := OwnFinding(env, fixtures[n]);
      if own.Raised? {
        RaisedStays(env, fixtures, n + 1);
        return Raised;
      }
      results := results + [own.value];
      results, seen := NoteId(results, seen, fixtures[n], fixtures[..n]);
      results, last := NotePosition(env, results, last, fixtures[n], fixtures[..n]);
    }
    assert fixtures[..|fixtures|] == fixtures;
    r := Done(results);
    FindingsExact(env, fixtures);
  }
}
