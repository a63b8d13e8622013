/** Repeat analysis of tool results and its report (src/tok/analysis/dedup_frontier.py). */
module DedupFrontier {
  import opened Text

  // ---------- Events ----------

  datatype Outcome = ExactDedupHit | CacheHit | DiffCompression | NoCompression

  /** A normalized tool identity; Other holds any name but those of the three families. */
  datatype Tool = FileRead | Search | Command | Other(name: string)

  function ToolName(t: Tool): string {
    match t
    case FileRead => "file_read"
    case Search => "search"
    case Command => "command"
    case Other(name) => name
  }

  /** A tool result with the identities, hashes and turn flags the normalizers give it. */
  datatype Event = Event(
    tool: Tool, args: string, target: string, rawHash: string, canonicalHash: string, length: nat,
    contextMissing: bool, historyBlocked: bool, preflightReverted: bool, benignCliff: bool,
    outcome: Outcome, saved: int)

  datatype Source = Source(replay: bool, trusted: bool)

  function Identity(e: Event): string {
    ToolName(e.tool) + "|" + e.args
  }

  function LogicalKey(e: Event): string {
    ToolName(e.tool) + "|" + e.target
  }

  /** Keys tell events apart by tool and arguments, or by tool and target, as no tool name has a bar. */
  lemma KeysTell(e: Event, d: Event)
    requires '|' !in ToolName(e.tool) && '|' !in ToolName(d.tool)
    ensures Identity(e) == Identity(d) <==> ToolName(e.tool) == ToolName(d.tool) && e.args == d.args
    ensures LogicalKey(e) == LogicalKey(d) <==> ToolName(e.tool) == ToolName(d.tool) && e.target == d.target
  {
    JoinedTells(ToolName(e.tool), e.args, ToolName(d.tool), d.args, '|');
    JoinedTells(ToolName(e.tool), e.target, ToolName(d.tool), d.target, '|');
  }

  datatype Record = Record(rawHash: string, canonicalHash: string, tool: Tool)

  function RecordOf(e: Event): Record {
    Record(e.rawHash, e.canonicalHash, e.tool)
  }

  /** What is known about an event from the events before it. */
  datatype Prior = Prior(same: Option<Record>, logical: Option<Record>, output: Option<Record>, otherIdentity: bool)

  // ---------- The naive answer: scan the history backwards ----------

  datatype Index = ByIdentity | ByLogicalKey | ByRawHash

  function KeyOf(e: Event, ix: Index): string {
    match ix
    case ByIdentity => Identity(e)
    case ByLogicalKey => LogicalKey(e)
    case ByRawHash => e.rawHash
  }

  function LatestWith(history: seq<Event>, ix: Index, key: string): Option<Record> {
    if history == [] then None
    else
      var last := history[|history| - 1];
      if KeyOf(last, ix) == key then Some(RecordOf(last)) else LatestWith(history[..|history| - 1], ix, key)
  }

  predicate OccursAs(history: seq<Event>, tool: Tool, canonicalHash: string, identity: string) {
    exists i :: 0 <= i < |history| && history[i].tool == tool && history[i].canonicalHash == canonicalHash
                && Identity(history[i]) == identity
  }

  predicate SameTextElsewhere(history: seq<Event>, e: Event) {
    e.canonicalHash != "" && ToolName(e.tool) != "" &&
    exists i :: 0 <= i < |history| && history[i].tool == e.tool && history[i].canonicalHash == e.canonicalHash
                && Identity(history[i]) != Identity(e)
  }

  function NaivePrior(history: seq<Event>, e: Event): Prior {
    Prior(LatestWith(history, ByIdentity, Identity(e)), LatestWith(history, ByLogicalKey, LogicalKey(e)),
          LatestWith(history, ByRawHash, e.rawHash), SameTextElsewhere(history, e))
  }

  // ---------- Classification of one event ----------

  datatype RepeatClass = CanonicalRepeat | SameIdentityRepeat | AliasRepeat | CrossToolSameOutput | FirstSeen

  predicate SameRaw(r: Option<Record>, e: Event) {
    r.Some? && r.value.rawHash == e.rawHash
  }

  predicate SameCanonical(r: Option<Record>, e: Event) {
    r.Some? && r.value.canonicalHash == e.canonicalHash
  }

  predicate OtherTool(r: Option<Record>, e: Event) {
    r.Some? && r.value.tool != e.tool
  }

  predicate ExactMatch(p: Prior, e: Event) {
    SameRaw(p.same, e) || SameRaw(p.logical, e) || (OtherTool(p.output, e) && SameRaw(p.output, e))
  }

  predicate CanonicalMatch(p: Prior, e: Event) {
    SameCanonical(p.same, e) || SameCanonical(p.logical, e)
  }

  function Classify(p: Prior, e: Event): RepeatClass {
    if p.same.Some? then
      if SameCanonical(p.same, e) && !SameRaw(p.same, e) then CanonicalRepeat else SameIdentityRepeat
    else if p.logical.Some? then
      if SameCanonical(p.logical, e) && !SameRaw(p.logical, e) then CanonicalRepeat else AliasRepeat
    else if OtherTool(p.output, e) then CrossToolSameOutput
    else FirstSeen
  }

  const TAXONOMY := [
    "first_seen", "below_min_chars", "context_missing", "identity_changed", "exact_content_changed",
    "volatile_only_change", "history_winnowing_blocked", "preflight_reverted"]

  predicate Structural(reason: string) {
    reason == "history_winnowing_blocked" || reason == "preflight_reverted"
  }

  /** The miss reason, and whether canonicalization would have deduplicated. */
  function Diagnose(minChars: nat, p: Prior, e: Event): (Option<string>, bool) {
    var exact, class_ := ExactMatch(p, e), Classify(p, e);
    if e.outcome == ExactDedupHit then (None, false)
    else if e.preflightReverted && exact then (Some("preflight_reverted"), true)
    else if e.historyBlocked && exact then (Some("history_winnowing_blocked"), true)
    else if e.contextMissing then (Some("context_missing"), false)
    else if class_ == FirstSeen then
      if p.otherIdentity then (Some("identity_changed"), true) else (Some("first_seen"), false)
    else if e.length < minChars then (Some("below_min_chars"), exact || CanonicalMatch(p, e))
    else if class_ == CanonicalRepeat then (Some("volatile_only_change"), true)
    else if !exact then (Some("exact_content_changed"), false)
    else (None, false)
  }

  /** Every reason that is emitted is in the taxonomy. */
  lemma ReasonInTaxonomy(minChars: nat, p: Prior, e: Event)
    ensures Diagnose(minChars, p, e).0.Some? ==> Diagnose(minChars, p, e).0.value in TAXONOMY
  {
    assert TAXONOMY[0] == "first_seen" && TAXONOMY[1] == "below_min_chars" && TAXONOMY[2] == "context_missing";
    assert TAXONOMY[3] == "identity_changed" && TAXONOMY[4] == "exact_content_changed";
    assert TAXONOMY[5] == "volatile_only_change" && TAXONOMY[6] == "history_winnowing_blocked";
    assert TAXONOMY[7] == "preflight_reverted";
  }

  predicate SameOutputBefore(history: seq<Event>, e: Event) {
    exists i :: 0 <= i < |history| && (history[i].rawHash == e.rawHash || history[i].canonicalHash == e.canonicalHash)
  }

  lemma {:induction false} LatestIsEarlier(history: seq<Event>, ix: Index, key: string)
    ensures var r := LatestWith(history, ix, key);
            r.Some? ==> exists i :: 0 <= i < |history| && RecordOf(history[i]) == r.value && KeyOf(history[i], ix) == key
  {
    if history != [] {
      var n := |history| - 1;
      LatestIsEarlier(history[..n], ix, key);
      if LatestWith(history, ix, key).Some? {
        if KeyOf(history[n], ix) == key {
          assert RecordOf(history[n]) == LatestWith(history, ix, key).value;
        } else {
          var i :| 0 <= i < n && RecordOf(history[..n][i]) == LatestWith(history[..n], ix, key).value
                   && KeyOf(history[..n][i], ix) == key;
          assert history[..n][i] == history[i];
        }
      }
    }
  }

  lemma MatchMeansEarlier(history: seq<Event>, e: Event, ix: Index, key: string)
    requires SameRaw(LatestWith(history, ix, key), e) || SameCanonical(LatestWith(history, ix, key), e)
    ensures SameOutputBefore(history, e)
  {
    LatestIsEarlier(history, ix, key);
  }

  /** Headroom is claimed only for an output that occurred before, as it is or canonicalized. */
  lemma HeadroomMeansEarlier(minChars: nat, history: seq<Event>, e: Event)
    requires Diagnose(minChars, NaivePrior(history, e), e).1
    ensures SameOutputBefore(history, e)
  {
    var p := NaivePrior(history, e);
    if SameRaw(p.same, e) || SameCanonical(p.same, e) {
      MatchMeansEarlier(history, e, ByIdentity, Identity(e));
    } else if SameRaw(p.logical, e) || SameCanonical(p.logical, e) {
      MatchMeansEarlier(history, e, ByLogicalKey, LogicalKey(e));
    } else if SameRaw(p.output, e) {
      MatchMeansEarlier(history, e, ByRawHash, e.rawHash);
    } else {
      assert SameTextElsewhere(history, e);
    }
  }

  /** The latest event of the history with the key. */
  predicate IsLatest(history: seq<Event>, ix: Index, key: string, i: int) {
    && 0 <= i < |history| && KeyOf(history[i], ix) == key
    && forall j :: i < j < |history| ==> KeyOf(history[j], ix) != key
  }

  predicate NoneWith(history: seq<Event>, ix: Index, key: string) {
    forall i :: 0 <= i < |history| ==> KeyOf(history[i], ix) != key
  }

  lemma {:induction false} LatestIsLatest(history: seq<Event>, ix: Index, key: string, i: int)
    requires IsLatest(history, ix, key, i)
    ensures LatestWith(history, ix, key) == Some(RecordOf(history[i]))
    decreases |history|
  {
    var n := |history| - 1;
    if i < n {
      var before := history[..n];
      assert forall j :: 0 <= j < n ==> before[j] == history[j];
      LatestIsLatest(before, ix, key, i);
    }
  }

  lemma {:induction false} NoneIsNone(history: seq<Event>, ix: Index, key: string)
    requires NoneWith(history, ix, key)
    ensures LatestWith(history, ix, key) == None
    decreases |history|
  {
    if history != [] {
      var before := history[..|history| - 1];
      assert forall j :: 0 <= j < |before| ==> before[j] == history[j];
      NoneIsNone(before, ix, key);
    }
  }

  /** The output changed only in what canonicalization removes. */
  predicate OnlyVolatile(a: Event, e: Event) {
    a.canonicalHash == e.canonicalHash && a.rawHash != e.rawHash
  }

  /** A call that was made before is a repeat of itself, canonical if its latest output differs in
      volatile parts only. */
  lemma RepeatOfIdentity(history: seq<Event>, e: Event, i: int)
    requires IsLatest(history, ByIdentity, Identity(e), i)
    ensures Classify(NaivePrior(history, e), e)
            == if OnlyVolatile(history[i], e) then CanonicalRepeat else SameIdentityRepeat
  {
    LatestIsLatest(history, ByIdentity, Identity(e), i);
  }

  /** A new call for a target that was asked for before is an alias of the latest such call. */
  lemma RepeatOfTarget(history: seq<Event>, e: Event, i: int)
    requires NoneWith(history, ByIdentity, Identity(e)) && IsLatest(history, ByLogicalKey, LogicalKey(e), i)
    ensures Classify(NaivePrior(history, e), e) == if OnlyVolatile(history[i], e) then CanonicalRepeat else AliasRepeat
  {
    NoneIsNone(history, ByIdentity, Identity(e));
    LatestIsLatest(history, ByLogicalKey, LogicalKey(e), i);
  }

  /** A new call for a new target repeats an output only if another tool gave it last. */
  lemma RepeatOfOutput(history: seq<Event>, e: Event, i: int)
    requires NoneWith(history, ByIdentity, Identity(e)) && NoneWith(history, ByLogicalKey, LogicalKey(e))
    requires IsLatest(history, ByRawHash, e.rawHash, i)
    ensures Classify(NaivePrior(history, e), e) == if history[i].tool != e.tool then CrossToolSameOutput else FirstSeen
  {
    NoneIsNone(history, ByIdentity, Identity(e));
    NoneIsNone(history, ByLogicalKey, LogicalKey(e));
    LatestIsLatest(history, ByRawHash, e.rawHash, i);
  }

  lemma {:induction false} LatestFound(history: seq<Event>, ix: Index, key: string) returns (i: int)
    requires LatestWith(history, ix, key).Some?
    ensures IsLatest(history, ix, key, i) && LatestWith(history, ix, key) == Some(RecordOf(history[i]))
    decreases |history|
  {
    var n := |history| - 1;
    if KeyOf(history[n], ix) == key {
      i := n;
    } else {
      var before := history[..n];
      i := LatestFound(before, ix, key);
      assert forall j :: 0 <= j < n ==> before[j] == history[j];
    }
  }

  /** The latest event with the key has the same output as e. */
  ghost predicate LatestRepeats(history: seq<Event>, ix: Index, key: string, e: Event) {
    exists i :: IsLatest(history, ix, key, i) && history[i].rawHash == e.rawHash
  }

  ghost predicate LatestRepeatsCanonically(history: seq<Event>, ix: Index, key: string, e: Event) {
    exists i :: IsLatest(history, ix, key, i) && history[i].canonicalHash == e.canonicalHash
  }

  /** The latest event with the output of e came from another tool. */
  ghost predicate LatestElsewhere(history: seq<Event>, e: Event) {
    exists i :: IsLatest(history, ByRawHash, e.rawHash, i) && history[i].tool != e.tool
  }

  lemma LatestMatches(history: seq<Event>, ix: Index, key: string, e: Event)
    ensures SameRaw(LatestWith(history, ix, key), e) <==> LatestRepeats(history, ix, key, e)
    ensures SameCanonical(LatestWith(history, ix, key), e) <==> LatestRepeatsCanonically(history, ix, key, e)
    ensures OtherTool(LatestWith(history, ix, key), e) <==>
            exists i :: IsLatest(history, ix, key, i) && history[i].tool != e.tool
  {
    if LatestWith(history, ix, key).Some? {
      var i := LatestFound(history, ix, key);
    }
    forall i | IsLatest(history, ix, key, i) ensures LatestWith(history, ix, key) == Some(RecordOf(history[i])) {
      LatestIsLatest(history, ix, key, i);
    }
  }

  /** An output repeats exactly if the latest call of its kind, or for its target, gave it, or if another
      tool gave it last; it repeats canonically if one of the first two did once canonicalized. */
  lemma MatchesIff(history: seq<Event>, e: Event)
    ensures ExactMatch(NaivePrior(history, e), e) <==>
            || LatestRepeats(history, ByIdentity, Identity(e), e) || LatestRepeats(history, ByLogicalKey, LogicalKey(e), e)
            || LatestElsewhere(history, e)
    ensures CanonicalMatch(NaivePrior(history, e), e) <==>
            || LatestRepeatsCanonically(history, ByIdentity, Identity(e), e)
            || LatestRepeatsCanonically(history, ByLogicalKey, LogicalKey(e), e)
  {
    LatestMatches(history, ByIdentity, Identity(e), e);
    LatestMatches(history, ByLogicalKey, LogicalKey(e), e);
    LatestMatches(history, ByRawHash, e.rawHash, e);
    var output := LatestWith(history, ByRawHash, e.rawHash);
    if output.Some? {
      var i := LatestFound(history, ByRawHash, e.rawHash);
      assert SameRaw(output, e);
    }
  }

  /** What each reason claims of the event and of what was known before it. */
  lemma ReasonMeans(minChars: nat, p: Prior, e: Event)
    ensures Diagnose(minChars, p, e).0.Some? ==>
              var reason := Diagnose(minChars, p, e).0.value;
              && (reason == "first_seen" ==> Classify(p, e) == FirstSeen && !p.otherIdentity)
              && (reason == "identity_changed" ==> Classify(p, e) == FirstSeen && p.otherIdentity)
              && (reason == "context_missing" ==> e.contextMissing)
              && (reason == "below_min_chars" ==> e.length < minChars && Classify(p, e) != FirstSeen)
              && (reason == "volatile_only_change" ==> e.length >= minChars && Classify(p, e) == CanonicalRepeat)
              && (reason == "exact_content_changed" ==> e.length >= minChars && !ExactMatch(p, e))
              && (reason == "history_winnowing_blocked" ==> e.historyBlocked && ExactMatch(p, e))
              && (reason == "preflight_reverted" ==> e.preflightReverted && ExactMatch(p, e))
    ensures Diagnose(minChars, p, e).0.None? ==>
              e.outcome == ExactDedupHit || (ExactMatch(p, e) && e.length >= minChars && Classify(p, e) != FirstSeen)
  {
  }

  // ---------- Experiments ----------

  /** In the order of their names as strings. */
  datatype Experiment = FileRead128 | FileRead64 | FileRead96 | AliasKey | CanonicalHash | ShorterStrategy

  function Rank(x: Experiment): nat {
    match x
    case FileRead128 => 0
    case FileRead64 => 1
    case FileRead96 => 2
    case AliasKey => 3
    case CanonicalHash => 4
    case ShorterStrategy => 5
  }

  type Candidate = (Experiment, int)

  /** Length of `@stable_result(hash:<16 hex digits>)`. */
  const STABLE_TOKEN_LENGTH := 37

  /** That length, for a hash of 16 digits. */
  lemma StableTokenLength(hash: string)
    requires |hash| == 16
    ensures |"@stable_result(hash:" + hash + ")"| == STABLE_TOKEN_LENGTH
  {
  }

  function StableSaved(length: nat): nat {
    if length < STABLE_TOKEN_LENGTH then 0 else length - STABLE_TOKEN_LENGTH
  }

  function Only(condition: bool, c: Candidate): seq<Candidate> {
    if condition then [c] else []
  }

  function Candidates(minChars: nat, p: Prior, e: Event): seq<Candidate> {
    var stable, exact, class_ := StableSaved(e.length), ExactMatch(p, e), Classify(p, e);
    var fileRead := e.tool.FileRead? && e.target !in {"context-missing", "path-missing"} && exact;
    var known := !e.tool.Other?;
    Only(fileRead && e.length >= 64, (FileRead64, stable))
    + Only(fileRead && e.length >= 96, (FileRead96, stable))
    + Only(fileRead && e.length >= 128, (FileRead128, stable))
    + Only((e.tool.FileRead? || e.tool.Search?) && class_ == AliasRepeat && exact, (AliasKey, stable))
    + Only(known && class_ == CanonicalRepeat && CanonicalMatch(p, e), (CanonicalHash, stable))
    + Only(known && exact && e.length >= minChars, (ShorterStrategy, if e.saved > stable then e.saved else stable))
  }

  predicate AtLeast(a: Candidate, b: Candidate) {
    a.1 > b.1 || (a.1 == b.1 && Rank(a.0) >= Rank(b.0))
  }

  predicate Descending(cs: seq<Candidate>) {
    forall i, j :: 0 <= i < j < |cs| ==> AtLeast(cs[i], cs[j])
  }

  function InsertDescending(c: Candidate, cs: seq<Candidate>): (r: seq<Candidate>)
    requires Descending(cs)
    ensures Descending(r) && multiset(r) == multiset(cs) + multiset{c}
    ensures r != [] && (r[0] == c || (cs != [] && r[0] == cs[0]))
    decreases |cs|
  {
    if cs == [] || AtLeast(c, cs[0]) then [c] + cs
    else
      assert cs == [cs[0]] + cs[1..];
      var rest := InsertDescending(c, cs[1..]);
      assert rest[0] == c || AtLeast(cs[0], rest[0]);
      [cs[0]] + rest
  }

  /** `sorted(candidates, key=(value, name), reverse=True)` */
  function SortDescending(cs: seq<Candidate>): (r: seq<Candidate>)
    ensures Descending(r) && multiset(r) == multiset(cs)
  {
    if cs == [] then []
    else
      assert cs == cs[..|cs| - 1] + [cs[|cs| - 1]];
      InsertDescending(cs[|cs| - 1], SortDescending(cs[..|cs| - 1]))
  }

  /** The best saving: the current one unless an experiment beats it; ties go to the later name. */
  ghost predicate BestCandidate(cs: seq<Candidate>, current: int, chosen: Option<Experiment>, saved: int) {
    && saved >= current && (forall c <- cs :: c.1 <= saved)
    && match chosen
       case None => saved == current
       case Some(x) =>
         saved > current && (x, saved) in cs && forall c <- cs :: c.1 == saved ==> Rank(c.0) <= Rank(x)
  }

  lemma BestIsUnique(cs: seq<Candidate>, current: int, x: Option<Experiment>, m: int, y: Option<Experiment>, n: int)
    requires BestCandidate(cs, current, x, m) && BestCandidate(cs, current, y, n)
    ensures x == y && m == n
  {
  }

  method ChooseCandidate(cs: seq<Candidate>, current: int) returns (chosen: Option<Experiment>, saved: int)
    ensures BestCandidate(cs, current, chosen, saved)
  {
    var sorted := SortDescending(cs);
    chosen, saved := None, current;
    for i := 0 to |sorted|
      invariant saved >= current && forall j :: 0 <= j < i ==> sorted[j].1 <= saved
      invariant chosen.None? ==> saved == current
      invariant chosen.Some? ==> i > 0 && saved > current && sorted[0] == (chosen.value, saved)
    {
      if sorted[i].1 > saved {
        assert i > 0 ==> AtLeast(sorted[0], sorted[i]);
        chosen, saved := Some(sorted[i].0), sorted[i].1;
      }
    }
    forall c | c in cs ensures c.1 <= saved && (chosen.Some? && c.1 == saved ==> Rank(c.0) <= Rank(chosen.value)) {
      assert c in multiset(sorted);
      var j :| 0 <= j < |sorted| && sorted[j] == c;
      assert j > 0 ==> AtLeast(sorted[0], sorted[j]);
    }
    assert chosen.Some? ==> sorted[0] in multiset(cs);
  }

  /** What an experiment is proposed for: outputs that repeated, long enough for its threshold; none but
      the last one claims more than the output's length. */
  lemma CandidateMeans(minChars: nat, p: Prior, e: Event, c: Candidate)
    requires c in Candidates(minChars, p, e)
    ensures !e.tool.Other? && (ExactMatch(p, e) || CanonicalMatch(p, e))
    ensures match c.0
            case FileRead64 => e.tool.FileRead? && e.length >= 64
            case FileRead96 => e.tool.FileRead? && e.length >= 96
            case FileRead128 => e.tool.FileRead? && e.length >= 128
            case AliasKey => !e.tool.Command? && Classify(p, e) == AliasRepeat && ExactMatch(p, e)
            case CanonicalHash => Classify(p, e) == CanonicalRepeat
            case ShorterStrategy => ExactMatch(p, e) && e.length >= minChars && c.1 >= e.saved
    ensures !c.0.ShorterStrategy? ==> c.1 == StableSaved(e.length)
  {
  }

  /** Lower thresholds propose more, and a file without a target none of them. */
  lemma ThresholdsNest(minChars: nat, p: Prior, e: Event)
    ensures var cs := Candidates(minChars, p, e);
            && (Proposes(cs, FileRead128) ==> Proposes(cs, FileRead96))
            && (Proposes(cs, FileRead96) ==> Proposes(cs, FileRead64))
            && (Proposes(cs, FileRead64) ==> e.target != "context-missing" && e.target != "path-missing")
  {
    var cs, stable := Candidates(minChars, p, e), StableSaved(e.length);
    var fileRead := e.tool.FileRead? && e.target !in {"context-missing", "path-missing"} && ExactMatch(p, e);
    if fileRead && e.length >= 64 {
      assert cs[0] == (FileRead64, stable);
      assert e.length >= 96 ==> cs[1] == (FileRead96, stable);
    }
  }

  ghost predicate Proposes(cs: seq<Candidate>, x: Experiment) {
    exists i :: 0 <= i < |cs| && cs[i].0 == x
  }

  // ---------- Opportunities ----------

  datatype OpportunityKind =
    | VolatileRepeat | AliasMiss | StructuralCliff | SmallFileRepeat | SmallSearchRepeat | SmallCommandRepeat
    | LargeExactRepeat

  function OpportunityClass(minChars: nat, e: Event, class_: RepeatClass, reason: Option<string>): Option<OpportunityKind> {
    match class_
    case CanonicalRepeat => Some(VolatileRepeat)
    case AliasRepeat => Some(AliasMiss)
    case CrossToolSameOutput => Some(AliasMiss)
    case _ =>
      if reason.Some? && Structural(reason.value) then Some(StructuralCliff)
      else if class_ == FirstSeen then None
      else if e.length < minChars && e.tool.FileRead? then Some(SmallFileRepeat)
      else if e.length < minChars && e.tool.Search? then Some(SmallSearchRepeat)
      else if e.length < minChars && e.tool.Command? then Some(SmallCommandRepeat)
      else Some(LargeExactRepeat)
  }

  /** What each kind of opportunity says of the event. */
  lemma OpportunityMeans(minChars: nat, e: Event, class_: RepeatClass, reason: Option<string>)
    ensures var kind := OpportunityClass(minChars, e, class_, reason);
            && (kind == None ==> class_ == FirstSeen)
            && (kind == Some(VolatileRepeat) <==> class_ == CanonicalRepeat)
            && (kind == Some(AliasMiss) <==> class_ == AliasRepeat || class_ == CrossToolSameOutput)
            && (kind == Some(StructuralCliff) ==>
                  reason == Some("history_winnowing_blocked") || reason == Some("preflight_reverted"))
            && (kind == Some(SmallFileRepeat) ==> class_ == SameIdentityRepeat && e.tool.FileRead? && e.length < minChars)
            && (kind == Some(SmallSearchRepeat) ==> class_ == SameIdentityRepeat && e.tool.Search? && e.length < minChars)
            && (kind == Some(SmallCommandRepeat) ==> class_ == SameIdentityRepeat && e.tool.Command? && e.length < minChars)
            && (kind == Some(LargeExactRepeat) ==>
                  class_ == SameIdentityRepeat && (e.length >= minChars || e.tool.Other?))
  {
  }

  datatype Opportunity = Opportunity(
    event: Event, prior: Prior, repeatClass: RepeatClass, exact: bool, canonical: bool,
    missReason: Option<string>, opportunityClass: Option<OpportunityKind>, headroom: nat,
    candidate: Option<Experiment>, candidateSaved: int, incremental: nat,
    repeatExists: bool, trusted: bool, actionable: bool)

  predicate RepeatExists(p: Prior, e: Event) {
    Classify(p, e) != FirstSeen || p.otherIdentity || e.outcome in {ExactDedupHit, CacheHit}
  }

  /** The row the analysis must report for e when p is what the history says about it. */
  ghost predicate Reports(minChars: nat, source: Source, p: Prior, e: Event, o: Opportunity) {
    var (reason, dedups) := Diagnose(minChars, p, e);
    && o.event == e && o.prior == p && o.repeatClass == Classify(p, e)
    && o.exact == ExactMatch(p, e) && o.canonical == CanonicalMatch(p, e)
    && o.missReason == reason && o.opportunityClass == OpportunityClass(minChars, e, o.repeatClass, reason)
    && o.headroom == (if dedups then StableSaved(e.length) else 0)
    && BestCandidate(Candidates(minChars, p, e), e.saved, o.candidate, o.candidateSaved)
    && o.incremental == o.candidateSaved - e.saved
    && o.repeatExists == RepeatExists(p, e) && o.trusted == source.trusted
    && (o.actionable <==>
          && source.trusted && !e.benignCliff && o.repeatExists
          && reason.Some? && reason.value != "first_seen" && (o.incremental > 0 || Structural(reason.value)))
  }

  // ---------- The dictionaries mirror the history ----------

  ghost predicate Mirrors(m: map<string, Record>, history: seq<Event>, ix: Index) {
    forall k :: LatestWith(history, ix, k) == if k in m then Some(m[k]) else None
  }

  lemma MirrorsNext(m: map<string, Record>, history: seq<Event>, ix: Index, e: Event)
    requires Mirrors(m, history, ix)
    ensures Mirrors(m[KeyOf(e, ix) := RecordOf(e)], history + [e], ix)
  {
    assert (history + [e])[..|history|] == history;
  }

  ghost predicate MirrorsTexts(m: map<(Tool, string), set<string>>, history: seq<Event>) {
    forall tool, hash, id :: (tool, hash) in m && id in m[(tool, hash)] <==> OccursAs(history, tool, hash, id)
  }

  function AddText(m: map<(Tool, string), set<string>>, e: Event): map<(Tool, string), set<string>> {
    var key := (e.tool, e.canonicalHash);
    m[key := (if key in m then m[key] else {}) + {Identity(e)}]
  }

  lemma MirrorsTextsNext(m: map<(Tool, string), set<string>>, history: seq<Event>, e: Event)
    requires MirrorsTexts(m, history)
    ensures MirrorsTexts(AddText(m, e), history + [e])
  {
    var longer := history + [e];
    forall tool, hash, id
      ensures OccursAs(longer, tool, hash, id) <==>
              OccursAs(history, tool, hash, id) || (tool == e.tool && hash == e.canonicalHash && id == Identity(e))
    {
      assert longer[|history|] == e;
      assert forall i :: 0 <= i < |history| ==> longer[i] == history[i];
    }
  }

  /** `any(other != identity for other in identities.get((tool, hash), set()))` */
  method LookElsewhere(m: map<(Tool, string), set<string>>, e: Event, ghost history: seq<Event>) returns (r: bool)
    requires MirrorsTexts(m, history)
    ensures r == SameTextElsewhere(history, e)
  {
    var key := (e.tool, e.canonicalHash);
    var identities := if key in m then m[key] else {};
    r := e.canonicalHash != "" && ToolName(e.tool) != "" && exists other <- identities :: other != Identity(e);
    forall id | id in identities ensures OccursAs(history, e.tool, e.canonicalHash, id) {
      assert key in m && id in m[key];
    }
    forall i | 0 <= i < |history| && history[i].tool == e.tool && history[i].canonicalHash == e.canonicalHash
      ensures Identity(history[i]) in identities
    {
      assert OccursAs(history, e.tool, e.canonicalHash, Identity(history[i]));
    }
  }

  method Assess(minChars: nat, source: Source, p: Prior, e: Event) returns (o: Opportunity)
    ensures Reports(minChars, source, p, e, o)
  {
    var (reason, dedups) := Diagnose(minChars, p, e);
    var candidate, saved := ChooseCandidate(Candidates(minChars, p, e), e.saved);
    var incremental: nat := if saved > e.saved then saved - e.saved else 0;
    var class_ := Classify(p, e);
    o := Opportunity(
      e, p, class_, ExactMatch(p, e), CanonicalMatch(p, e), reason, OpportunityClass(minChars, e, class_, reason),
      if dedups then StableSaved(e.length) else 0, candidate, saved, incremental, RepeatExists(p, e), source.trusted,
      && source.trusted && !e.benignCliff && RepeatExists(p, e)
      && reason.Some? && reason.value != "first_seen" && (incremental > 0 || Structural(reason.value)));
  }

  /** The dictionaries of the analysis. */
  datatype Memory = Memory(
    lastByIdentity: map<string, Record>, lastByLogicalTarget: map<string, Record>,
    lastByRawHash: map<string, Record>, identitiesByText: map<(Tool, string), set<string>>)

  ghost predicate Remembers(m: Memory, history: seq<Event>) {
    && Mirrors(m.lastByIdentity, history, ByIdentity)
    && Mirrors(m.lastByLogicalTarget, history, ByLogicalKey)
    && Mirrors(m.lastByRawHash, history, ByRawHash)
    && MirrorsTexts(m.identitiesByText, history)
  }

  function Get(m: map<string, Record>, key: string): Option<Record> {
    if key in m then Some(m[key]) else None
  }

  method Recall(m: Memory, e: Event, ghost history: seq<Event>) returns (p: Prior)
    requires Remembers(m, history)
    ensures p == NaivePrior(history, e)
  {
    var elsewhere := LookElsewhere(m.identitiesByText, e, history);
    p := Prior(Get(m.lastByIdentity, Identity(e)), Get(m.lastByLogicalTarget, LogicalKey(e)),
               Get(m.lastByRawHash, e.rawHash), elsewhere);
  }

  method Learn(m: Memory, e: Event, ghost history: seq<Event>) returns (r: Memory)
    requires Remembers(m, history)
    ensures Remembers(r, history + [e])
  {
    MirrorsNext(m.lastByIdentity, history, ByIdentity, e);
    MirrorsNext(m.lastByLogicalTarget, history, ByLogicalKey, e);
    MirrorsNext(m.lastByRawHash, history, ByRawHash, e);
    MirrorsTextsNext(m.identitiesByText, history, e);
    r := Memory(m.lastByIdentity[Identity(e) := RecordOf(e)], m.lastByLogicalTarget[LogicalKey(e) := RecordOf(e)],
                m.lastByRawHash[e.rawHash := RecordOf(e)], AddText(m.identitiesByText, e));
  }

  /** Every element has the right result, given the elements before it. */
  ghost predicate Each<E, R>(right: (seq<E>, E, R) -> bool, es: seq<E>, rs: seq<R>) {
    |rs| == |es| && forall i :: 0 <= i < |es| ==> right(es[..i], es[i], rs[i])
  }

  lemma EachNext<E, R>(right: (seq<E>, E, R) -> bool, es: seq<E>, rs: seq<R>, e: E, r: R)
    requires Each(right, es, rs) && right(es, e, r)
    ensures Each(right, es + [e], rs + [r])
  {
    var es', rs' := es + [e], rs + [r];
    forall i | 0 <= i < |es'| ensures right(es'[..i], es'[i], rs'[i]) {
      assert es'[..i] == es[..i];
      if i == |es| {
        assert es[..i] == es;
      }
    }
  }

  ghost function RightRow(minChars: nat, source: Source): (seq<Event>, Event, Opportunity) -> bool {
    (history, e, row) => Reports(minChars, source, NaivePrior(history, e), e, row)
  }

  /** Every row says what a scan of the earlier events would say. */
  ghost predicate ReportsAll(minChars: nat, source: Source, events: seq<Event>, rows: seq<Opportunity>) {
    Each(RightRow(minChars, source), events, rows)
  }

  lemma ReportsNext(minChars: nat, source: Source, events: seq<Event>, rows: seq<Opportunity>, e: Event, row: Opportunity)
    ensures ReportsAll(minChars, source, events, rows) && Reports(minChars, source, NaivePrior(events, e), e, row) ==>
              ReportsAll(minChars, source, events + [e], rows + [row])
  {
    var right := RightRow(minChars, source);
    if ReportsAll(minChars, source, events, rows) && right(events, e, row) {
      EachNext(right, events, rows, e, row);
    }
  }

  lemma ReportsAt(minChars: nat, source: Source, events: seq<Event>, rows: seq<Opportunity>, i: nat)
    requires i < |events| && |rows| == |events|
    ensures ReportsAll(minChars, source, events, rows) ==>
              Reports(minChars, source, NaivePrior(events[..i], events[i]), events[i], rows[i])
  {
    if ReportsAll(minChars, source, events, rows) {
      assert RightRow(minChars, source)(events[..i], events[i], rows[i]);
    }
  }

  method AnalyzeEvents(minChars: nat, source: Source, events: seq<Event>) returns (opportunities: seq<Opportunity>)
    ensures ReportsAll(minChars, source, events, opportunities)
  {
    var memory := Memory(map[], map[], map[], map[]);
    opportunities := [];
    for n := 0 to |events|
      invariant Remembers(memory, events[..n])
      invariant ReportsAll(minChars, source, events[..n], opportunities)
    {
      TakeNext(events, n);
      var prior := Recall(memory, events[n], events[..n]);
      var row := Assess(minChars, source, prior, events[n]);
      ReportsNext(minChars, source, events[..n], opportunities, events[n], row);
      opportunities := opportunities + [row];
      memory := Learn(memory, events[n], events[..n]);
    }
    TakeAll(events);
  }

  // ---------- What the rows say, in terms of the history ----------

  /** Incremental headroom is what the best applicable experiment saves beyond the current saving. */
  lemma HeadroomIsBest(minChars: nat, source: Source, events: seq<Event>, rows: seq<Opportunity>, i: nat)
    requires i < |events| && |rows| == |events|
    ensures ReportsAll(minChars, source, events, rows) ==>
              var cs := Candidates(minChars, NaivePrior(events[..i], events[i]), events[i]);
              && (forall c <- cs :: c.1 - events[i].saved <= rows[i].incremental)
              && (rows[i].incremental == 0 || exists c <- cs :: c.1 - events[i].saved == rows[i].incremental)
              && (rows[i].incremental > 0 <==> rows[i].candidate.Some?)
  {
    ReportsAt(minChars, source, events, rows, i);
  }

  lemma {:induction false} LatestWithExists(history: seq<Event>, ix: Index, key: string)
    ensures LatestWith(history, ix, key).None? <==> forall i :: 0 <= i < |history| ==> KeyOf(history[i], ix) != key
  {
    if history != [] {
      var n := |history| - 1;
      var before := history[..n];
      LatestWithExists(before, ix, key);
      assert forall i :: 0 <= i < n ==> before[i] == history[i];
    }
  }

  /** first_seen means: no earlier event has the identity or the logical target, and the latest event
      with the same output, if any, came from the same tool. */
  lemma FirstSeenIff(history: seq<Event>, e: Event)
    ensures Classify(NaivePrior(history, e), e) == FirstSeen <==>
            && (forall j :: 0 <= j < |history| ==> KeyOf(history[j], ByIdentity) != Identity(e))
            && (forall j :: 0 <= j < |history| ==> KeyOf(history[j], ByLogicalKey) != LogicalKey(e))
            && !OtherTool(LatestWith(history, ByRawHash, e.rawHash), e)
  {
    FirstSeenMeans(NaivePrior(history, e), e);
    LatestWithExists(history, ByIdentity, Identity(e));
    LatestWithExists(history, ByLogicalKey, LogicalKey(e));
  }

  lemma FirstSeenMeans(p: Prior, e: Event)
    ensures Classify(p, e) == FirstSeen <==> p.same.None? && p.logical.None? && !OtherTool(p.output, e)
  {
  }

  /** A repeat exists if and only if an earlier event has the identity, the target, or, from another tool
      last, the output; or the canonical text under another identity; or the output was deduplicated. */
  lemma RepeatExistsIff(history: seq<Event>, e: Event)
    ensures RepeatExists(NaivePrior(history, e), e) <==>
            || !NoneWith(history, ByIdentity, Identity(e)) || !NoneWith(history, ByLogicalKey, LogicalKey(e))
            || OtherTool(LatestWith(history, ByRawHash, e.rawHash), e) || SameTextElsewhere(history, e)
            || e.outcome == ExactDedupHit || e.outcome == CacheHit
  {
    FirstSeenIff(history, e);
  }
}
